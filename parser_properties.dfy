/** What the parser of the full pipeline guarantees: the block shape of an
    accepted token list, the kind of every declaration, operator precedence
    and associativity, and a round trip through fully parenthesized token
    lists. */
module ParserProperties {
  import opened Results
  import opened Values
  import opened Ast
  import opened Parser

  // ---------------------------------------------------------------------------
  // The token list
  // ---------------------------------------------------------------------------

  /** Every declaration becomes `Mutar`: the kind test looks at the name. */
  lemma {:induction false} ParseNeverVar(toks: seq<Token>, i: nat, dentro: bool, inicio: bool, fin: bool, fo: FloatOps)
    requires i <= |toks|
    ensures var r := ParseFrom(toks, i, dentro, inicio, fin, fo);
      r.Ok? ==> forall k | 0 <= k < |r.value| :: !r.value[k].Var?
    decreases |toks| - i
  {
    if i < |toks| {
      match toks[i]
      case Iniciar =>
        if !inicio {
          ParseNeverVar(toks, i + 1, true, true, fin, fo);
        }
      case Fin =>
        if inicio && !fin {
          ParseNeverVar(toks, i + 1, false, inicio, true, fo);
        }
      case Var =>
        if dentro && Declaration(toks, i + 1, fo).Ok? {
          var d := Declaration(toks, i + 1, fo).value;
          ParseFromDeclaration(toks, i, dentro, inicio, fin, fo, d);
          ParseNeverVar(toks, d.next, dentro, inicio, fin, fo);
        }
      case Mutar =>
        if dentro && Declaration(toks, i + 1, fo).Ok? {
          var d := Declaration(toks, i + 1, fo).value;
          ParseFromDeclaration(toks, i, dentro, inicio, fin, fo, d);
          ParseNeverVar(toks, d.next, dentro, inicio, fin, fo);
        }
      case Imprimir =>
        if dentro && i + 1 < |toks| && toks[i + 1].Texto? {
          ParseFromImprimir(toks, i, dentro, inicio, fin, fo);
          ParseNeverVar(toks, i + 2, dentro, inicio, fin, fo);
        }
      case _ =>
    }
  }

  /** Once `</>` has been seen, any further token is an error. */
  lemma AfterFin(toks: seq<Token>, i: nat, fo: FloatOps)
    requires i <= |toks|
    ensures ParseFrom(toks, i, false, true, true, fo).Ok? ==> i == |toks|
  {
  }

  /** Inside the block, an accepted rest of the list ends with the only `</>`
      and holds no `iniciar</>`. */
  lemma {:induction false} InsideBlock(toks: seq<Token>, i: nat, fo: FloatOps)
    requires i <= |toks|
    requires ParseFrom(toks, i, true, true, false, fo).Ok?
    ensures i < |toks| && toks[|toks| - 1] == Fin
    ensures forall k | i <= k < |toks| - 1 :: !IsMarker(toks[k])
    decreases |toks| - i
  {
    match toks[i]
    case Fin =>
      AfterFin(toks, i + 1, fo);
    case Var =>
      var d := Declaration(toks, i + 1, fo).value;
      ParseFromDeclaration(toks, i, true, true, false, fo, d);
      InsideBlock(toks, d.next, fo);
    case Mutar =>
      var d := Declaration(toks, i + 1, fo).value;
      ParseFromDeclaration(toks, i, true, true, false, fo, d);
      InsideBlock(toks, d.next, fo);
    case Imprimir =>
      ParseFromImprimir(toks, i, true, true, false, fo);
      InsideBlock(toks, i + 2, fo);
  }

  /** An accepted token list is one block: it starts with the only
      `iniciar</>`, ends with the only `</>`, and so every `var`, `mutar` and
      `imprimir` lies strictly between the two. */
  lemma ParseBlockShape(toks: seq<Token>, fo: FloatOps)
    requires ParseFrom(toks, 0, false, false, false, fo).Ok?
    ensures 2 <= |toks| && toks[0] == Iniciar && toks[|toks| - 1] == Fin
    ensures forall k | 0 < k < |toks| - 1 :: !IsMarker(toks[k])
  {
    assert toks[0] == Iniciar;
    InsideBlock(toks, 1, fo);
  }

  /** A list that does not start with `iniciar</>` is rejected; the error
      names what the first token is. */
  lemma ParseFirstToken(toks: seq<Token>, fo: FloatOps)
    ensures toks == [] ==> ParseFrom(toks, 0, false, false, false, fo) == Err(MissingIniciar)
    ensures toks != [] && toks[0] == Fin ==> ParseFrom(toks, 0, false, false, false, fo) == Err(FinWithoutIniciar)
    ensures toks != [] && toks[0] == Token.Var ==> ParseFrom(toks, 0, false, false, false, fo) == Err(VarOutsideBlock)
    ensures toks != [] && toks[0] == Token.Mutar ==> ParseFrom(toks, 0, false, false, false, fo) == Err(MutarOutsideBlock)
    ensures toks != [] && toks[0] == Token.Imprimir ==> ParseFrom(toks, 0, false, false, false, fo) == Err(ImprimirOutsideBlock)
  {
  }

  // ---------------------------------------------------------------------------
  // Precedence and associativity
  // ---------------------------------------------------------------------------

  /** `x o1 y o2 z` over three names. */
  function Three(x: string, o1: char, y: string, o2: char, z: string): seq<Token>
  {
    [Identificador(x), Operador(o1), Identificador(y), Operador(o2), Identificador(z)]
  }

  /** The operator loop stops, leaving the operand as it is, at the end of
      the list, at a token that is not an operator, or at an operator below
      the minimum precedence. */
  lemma ClimbStops(toks: seq<Token>, left: Expresion, p: nat, minPrec: nat, fo: FloatOps)
    requires p <= |toks|
    requires p == |toks| || !toks[p].Operador? || Precedencia(toks[p].op) < minPrec
    ensures Climb(toks, left, p, minPrec, fo) == Ok(Parsed(left, p))
  {
  }

  /** A name followed by something that is not an operator strong enough to
      continue is a whole operand. */
  lemma NameOperand(toks: seq<Token>, p: nat, minPrec: nat, fo: FloatOps)
    requires p < |toks| && toks[p].Identificador?
    requires p + 1 == |toks| || !toks[p + 1].Operador? || Precedencia(toks[p + 1].op) < minPrec
    ensures Expr(toks, p, minPrec, fo) == Ok(Parsed(Variable(toks[p].name), p + 1))
  {
    ClimbStops(toks, Variable(toks[p].name), p + 1, minPrec, fo);
  }

  /** `*`, `/` and `%` bind tighter than `+` and `-`: `x + y * z` is `x + (y * z)`. */
  lemma TighterOnTheRight(x: string, o1: char, y: string, o2: char, z: string, fo: FloatOps)
    requires Precedencia(o1) == 1 && Precedencia(o2) == 2
    ensures Expr(Three(x, o1, y, o2, z), 0, 0, fo) ==
      Ok(Parsed(BinOp(Variable(x), OperadorOf(o1).value, BinOp(Variable(y), OperadorOf(o2).value, Variable(z))), 5))
  {
    var t := Three(x, o1, y, o2, z);
    NameOperand(t, 4, 3, fo);
    var yz := BinOp(Variable(y), OperadorOf(o2).value, Variable(z));
    ClimbStops(t, yz, 5, 2, fo);
    assert Expr(t, 2, 2, fo) == Ok(Parsed(yz, 5));
    var whole := BinOp(Variable(x), OperadorOf(o1).value, yz);
    ClimbStops(t, whole, 5, 0, fo);
    assert Climb(t, Variable(x), 1, 0, fo) == Ok(Parsed(whole, 5));
  }

  /** `x * y + z` is `(x * y) + z`. */
  lemma TighterOnTheLeft(x: string, o1: char, y: string, o2: char, z: string, fo: FloatOps)
    requires Precedencia(o1) == 2 && Precedencia(o2) == 1
    ensures Expr(Three(x, o1, y, o2, z), 0, 0, fo) ==
      Ok(Parsed(BinOp(BinOp(Variable(x), OperadorOf(o1).value, Variable(y)), OperadorOf(o2).value, Variable(z)), 5))
  {
    var t := Three(x, o1, y, o2, z);
    NameOperand(t, 2, 3, fo);
    var xy := BinOp(Variable(x), OperadorOf(o1).value, Variable(y));
    NameOperand(t, 4, 2, fo);
    var whole := BinOp(xy, OperadorOf(o2).value, Variable(z));
    ClimbStops(t, whole, 5, 0, fo);
    assert Climb(t, xy, 3, 0, fo) == Ok(Parsed(whole, 5));
  }

  /** Operators of equal precedence associate to the left: `x - y - z` is
      `(x - y) - z`. */
  lemma LeftAssociative(x: string, o1: char, y: string, o2: char, z: string, fo: FloatOps)
    requires Precedencia(o1) == Precedencia(o2) > 0
    ensures Expr(Three(x, o1, y, o2, z), 0, 0, fo) ==
      Ok(Parsed(BinOp(BinOp(Variable(x), OperadorOf(o1).value, Variable(y)), OperadorOf(o2).value, Variable(z)), 5))
  {
    var t := Three(x, o1, y, o2, z);
    NameOperand(t, 2, Precedencia(o1) + 1, fo);
    var xy := BinOp(Variable(x), OperadorOf(o1).value, Variable(y));
    NameOperand(t, 4, Precedencia(o2) + 1, fo);
    var whole := BinOp(xy, OperadorOf(o2).value, Variable(z));
    ClimbStops(t, whole, 5, 0, fo);
    assert Climb(t, xy, 3, 0, fo) == Ok(Parsed(whole, 5));
  }

  /** At the top level an operator of precedence 0, such as `=`, is consumed,
      its right operand is parsed, and then it is rejected. */
  lemma UnknownOperatorRejected(x: string, c: char, y: string, fo: FloatOps)
    requires Precedencia(c) == 0
    ensures Expr([Identificador(x), Operador(c), Identificador(y)], 0, 0, fo) == Err(UnknownOperator(c))
  {
    var t := [Identificador(x), Operador(c), Identificador(y)];
    NameOperand(t, 2, 1, fo);
  }

  /** Below the top level the same operator ends the operand instead:
      `x + y = z` fails on the `=` only once `x + y` has been parsed. */
  lemma LowOperatorEndsOperand(toks: seq<Token>, left: Expresion, p: nat, minPrec: nat, fo: FloatOps)
    requires p < |toks| && toks[p].Operador? && Precedencia(toks[p].op) == 0 && minPrec > 0
    ensures Climb(toks, left, p, minPrec, fo) == Ok(Parsed(left, p))
  {
  }

  // ---------------------------------------------------------------------------
  // Round trip through fully parenthesized token lists
  // ---------------------------------------------------------------------------

  /** The character that `OperadorOf` maps to `o`. */
  function OperatorChar(o: Operador): (c: char)
    ensures OperadorOf(c) == Some(o)
  {
    match o
    case Suma => '+'
    case Resta => '-'
    case Multiplicacion => '*'
    case Division => '/'
    case Modulo => '%'
  }

  /** Expressions whose literals the parser can produce from a token:
      integers and strings (floats depend on the float parser; characters
      are not expression literals). */
  predicate Printable(e: Expresion)
  {
    match e
    case Valor(v) => v.Int? || v.String?
    case Variable(_) => true
    case BinOp(l, _, r) => Printable(l) && Printable(r)
  }

  /** The tokens of `e` with every operation in parentheses. */
  function Unparse(e: Expresion): (ts: seq<Token>)
    requires Printable(e)
    ensures ts != []
  {
    match e
    case Valor(v) => if v.Int? then [Numero(IntToDecimal(v.i))] else [Cadena(v.s)]
    case Variable(n) => [Identificador(n)]
    case BinOp(l, o, r) => [ParenAbre] + Unparse(l) + [Operador(OperatorChar(o))] + Unparse(r) + [ParenCierra]
  }

  /** `u` occurs in `toks` at `pos`. */
  predicate At(toks: seq<Token>, pos: nat, u: seq<Token>)
  {
    pos + |u| <= |toks| && forall k | 0 <= k < |u| :: toks[pos + k] == u[k]
  }

  lemma AtSplit(toks: seq<Token>, pos: nat, u: seq<Token>, v: seq<Token>)
    requires At(toks, pos, u + v)
    ensures At(toks, pos, u) && At(toks, pos + |u|, v)
  {
    forall k | 0 <= k < |u|
      ensures toks[pos + k] == u[k]
    {
      assert (u + v)[k] == u[k];
    }
    forall k | 0 <= k < |v|
      ensures toks[pos + |u| + k] == v[k]
    {
      assert (u + v)[|u| + k] == v[k];
    }
  }

  /** A literal or a name is a single factor. */
  lemma AtomRoundTrip(e: Expresion, toks: seq<Token>, pos: nat, fo: FloatOps)
    requires Printable(e) && !e.BinOp? && At(toks, pos, Unparse(e))
    ensures Factor(toks, pos, fo) == Ok(Parsed(e, pos + 1))
  {
    assert toks[pos + 0] == Unparse(e)[0];
    if e.Valor? && e.v.Int? {
      DecimalRoundTrip(e.v.i);
    }
  }

  /** One parenthesized operation: `( l c r )` is a single factor. */
  lemma ParenFactor(toks: seq<Token>, pos: nat, l: Expresion, o: Operador, r: Expresion, p1: nat, p2: nat, fo: FloatOps)
    requires pos < |toks| && toks[pos] == ParenAbre
    requires Factor(toks, pos + 1, fo) == Ok(Parsed(l, p1))
    requires p1 < |toks| && toks[p1] == Operador(OperatorChar(o))
    requires Factor(toks, p1 + 1, fo) == Ok(Parsed(r, p2))
    requires p2 < |toks| && toks[p2] == ParenCierra
    ensures Factor(toks, pos, fo) == Ok(Parsed(BinOp(l, o, r), p2 + 1))
  {
    var c := OperatorChar(o);
    ClimbStops(toks, r, p2, Precedencia(c) + 1, fo);
    assert Expr(toks, p1 + 1, Precedencia(c) + 1, fo) == Ok(Parsed(r, p2));
    ClimbStops(toks, BinOp(l, o, r), p2, 0, fo);
    assert Climb(toks, l, p1, 0, fo) == Ok(Parsed(BinOp(l, o, r), p2));
    assert Expr(toks, pos + 1, 0, fo) == Ok(Parsed(BinOp(l, o, r), p2));
  }

  /** A fully parenthesized expression parses back to itself as one factor. */
  lemma {:induction false} FactorRoundTrip(e: Expresion, toks: seq<Token>, pos: nat, fo: FloatOps)
    requires Printable(e) && At(toks, pos, Unparse(e))
    ensures Factor(toks, pos, fo) == Ok(Parsed(e, pos + |Unparse(e)|))
    decreases e, 1
  {
    if e.BinOp? {
      CompoundRoundTrip(e.izquierda, e.operador, e.derecha, toks, pos, fo);
    } else {
      AtomRoundTrip(e, toks, pos, fo);
    }
  }

  lemma {:induction false} CompoundRoundTrip(l: Expresion, o: Operador, r: Expresion, toks: seq<Token>, pos: nat, fo: FloatOps)
    requires Printable(BinOp(l, o, r)) && At(toks, pos, Unparse(BinOp(l, o, r)))
    ensures Factor(toks, pos, fo) == Ok(Parsed(BinOp(l, o, r), pos + |Unparse(BinOp(l, o, r))|))
    decreases BinOp(l, o, r), 0
  {
    var p1, p2 := UnparseAt(toks, pos, l, o, r);
    FactorRoundTrip(l, toks, pos + 1, fo);
    FactorRoundTrip(r, toks, p1 + 1, fo);
    ParenFactor(toks, pos, l, o, r, p1, p2, fo);
  }

  /** Where the parts of `( l o r )` lie when it occurs at `pos`. */
  lemma UnparseAt(toks: seq<Token>, pos: nat, l: Expresion, o: Operador, r: Expresion) returns (p1: nat, p2: nat)
    requires Printable(BinOp(l, o, r)) && At(toks, pos, Unparse(BinOp(l, o, r)))
    ensures pos < |toks| && toks[pos] == ParenAbre && At(toks, pos + 1, Unparse(l))
    ensures p1 == pos + 1 + |Unparse(l)| && p1 < |toks| && toks[p1] == Operador(OperatorChar(o))
    ensures At(toks, p1 + 1, Unparse(r))
    ensures p2 == p1 + 1 + |Unparse(r)| && p2 < |toks| && toks[p2] == ParenCierra
    ensures pos + |Unparse(BinOp(l, o, r))| == p2 + 1
  {
    var ul, ur := Unparse(l), Unparse(r);
    var open := [ParenAbre] + ul + [Operador(OperatorChar(o))];
    AtSplit(toks, pos, open + ur, [ParenCierra]);
    AtSplit(toks, pos, open, ur);
    AtSplit(toks, pos, [ParenAbre] + ul, [Operador(OperatorChar(o))]);
    AtSplit(toks, pos, [ParenAbre], ul);
    p1 := pos + 1 + |ul|;
    p2 := p1 + 1 + |ur|;
    AtHead(toks, pos, [ParenAbre]);
    AtHead(toks, p1, [Operador(OperatorChar(o))]);
    AtHead(toks, p2, [ParenCierra]);
  }

  lemma AtHead(toks: seq<Token>, pos: nat, u: seq<Token>)
    requires u != [] && At(toks, pos, u)
    ensures pos < |toks| && toks[pos] == u[0]
  {
    assert toks[pos + 0] == u[0];
  }

  /** Parsing the unparsed form of an expression gives the expression back,
      whatever non-operator token follows it. */
  lemma ExprRoundTrip(e: Expresion, rest: seq<Token>, fo: FloatOps)
    requires Printable(e)
    requires rest == [] || !rest[0].Operador?
    ensures Expr(Unparse(e) + rest, 0, 0, fo) == Ok(Parsed(e, |Unparse(e)|))
  {
    var toks := Unparse(e) + rest;
    AtSplit(toks, 0, Unparse(e), rest) by {
      forall k | 0 <= k < |toks| ensures toks[0 + k] == toks[k] { }
    }
    FactorRoundTrip(e, toks, 0, fo);
    ClimbStops(toks, e, |Unparse(e)|, 0, fo);
  }
}

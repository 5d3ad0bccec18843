/** The parser of the full pipeline (roulang/src/parser.rs): a scanner over
    the token list that checks the `iniciar</>` ... `</>` block and collects
    instructions, declarations of the form `name = expression ;`, and
    precedence climbing for expressions.

    Each imperative routine of the source is a method proved equal to a
    recursive specification function; the properties are lemmas about the
    specification functions. */
module Parser {
  import opened Results
  import opened Values
  import opened Ast

  datatype ParseError =
    | DuplicateIniciar          // a second `iniciar</>`
    | FinWithoutIniciar         // `</>` before any `iniciar</>`
    | DuplicateFin              // a second `</>`
    | VarOutsideBlock
    | MutarOutsideBlock
    | ImprimirOutsideBlock
    | MissingPrintContent       // `imprimir` is the last token
    | PrintWithoutText          // `imprimir` not followed by its text
    | UnexpectedToken           // any other token at the top level
    | IncompleteDeclaration     // nothing after `var`/`mutar`
    | ExpectedIdentifier
    | MissingEquals             // nothing after the name
    | ExpectedEquals
    | MissingSemicolon
    | IncompleteExpression      // the tokens end where a factor is expected
    | InvalidNumber(text: string)
    | MissingParen
    | UnexpectedInExpression(t: Token)
    | UnknownOperator(op: char)
    | MissingIniciar
    | MissingFin

  /** An expression and the index of the first token after it. */
  datatype Parsed = Parsed(expr: Expresion, next: nat)

  /** A declaration and the index of the first token after its `;`. */
  datatype Declared = Declared(inst: Instruccion, next: nat)

  // ---------------------------------------------------------------------------
  // Expressions
  // ---------------------------------------------------------------------------

  /** `get_precedencia`: `+ -` bind at 1, `* / %` at 2, anything else at 0. */
  function Precedencia(c: char): (p: nat)
    ensures p <= 2
  {
    if c == '+' || c == '-' then 1
    else if c == '*' || c == '/' || c == '%' then 2
    else 0
  }

  /** The operator a character names, as matched after the right operand. */
  function OperadorOf(c: char): (r: Option<Operador>)
    ensures r.Some? <==> Precedencia(c) > 0
    ensures r == Some(Suma) || r == Some(Resta) <==> Precedencia(c) == 1
  {
    match c
    case '+' => Some(Suma)
    case '-' => Some(Resta)
    case '*' => Some(Multiplicacion)
    case '/' => Some(Division)
    case '%' => Some(Modulo)
    case _ => None
  }

  /** The tokens an expression is made of. */
  predicate IsExprSymbol(t: Token)
  {
    t.Numero? || t.Cadena? || t.Identificador? || t.ParenAbre? || t.ParenCierra? || t.Operador?
  }

  /** `parse_factor`: a number, a string literal, a variable, or a
      parenthesized expression. */
  function Factor(toks: seq<Token>, pos: nat, fo: FloatOps): (r: Result<Parsed, ParseError>)
    requires pos <= |toks|
    ensures r.Ok? ==> pos < r.value.next <= |toks|
    ensures r.Ok? ==> forall k | pos <= k < r.value.next :: IsExprSymbol(toks[k])
    decreases |toks| - pos, 0
  {
    if pos == |toks| then Err(IncompleteExpression)
    else
      match toks[pos]
      case Numero(n) =>
        (match ParseI64(n)
         case Some(i) => Ok(Parsed(Expresion.Valor(Int(i)), pos + 1))
         case None =>
           match fo.parse(n)
           case Some(f) => Ok(Parsed(Expresion.Valor(Float(f)), pos + 1))
           case None => Err(InvalidNumber(n)))
      case Cadena(s) => Ok(Parsed(Expresion.Valor(String(s)), pos + 1))
      case Identificador(id) => Ok(Parsed(Variable(id), pos + 1))
      case ParenAbre =>
        (match Expr(toks, pos + 1, 0, fo)
         case Err(e) => Err(e)
         case Ok(inner) =>
           if inner.next < |toks| && toks[inner.next] == ParenCierra then Ok(Parsed(inner.expr, inner.next + 1))
           else Err(MissingParen))
      case t => Err(UnexpectedInExpression(t))
  }

  /** `parse_expr_precedence(tokens, pos, min_prec)`: a factor, then as many
      operators of precedence at least `minPrec` as follow. */
  function Expr(toks: seq<Token>, pos: nat, minPrec: nat, fo: FloatOps): (r: Result<Parsed, ParseError>)
    requires pos <= |toks|
    ensures r.Ok? ==> pos < r.value.next <= |toks|
    ensures r.Ok? ==> forall k | pos <= k < r.value.next :: IsExprSymbol(toks[k])
    decreases |toks| - pos, 1
  {
    match Factor(toks, pos, fo)
    case Err(e) => Err(e)
    case Ok(f) => Climb(toks, f.expr, f.next, minPrec, fo)
  }

  /** The loop of `parse_expr_precedence` with `left` parsed so far and the
      next token at `p`. The right operand is parsed with `prec + 1`, so
      equal precedence associates to the left. */
  function Climb(toks: seq<Token>, left: Expresion, p: nat, minPrec: nat, fo: FloatOps): (r: Result<Parsed, ParseError>)
    requires p <= |toks|
    ensures r.Ok? ==> p <= r.value.next <= |toks|
    ensures r.Ok? ==> forall k | p <= k < r.value.next :: IsExprSymbol(toks[k])
    decreases |toks| - p, 0
  {
    if p == |toks| || !toks[p].Operador? then Ok(Parsed(left, p))
    else
      var c := toks[p].op;
      var prec := Precedencia(c);
      if prec < minPrec then Ok(Parsed(left, p))
      else
        match Expr(toks, p + 1, prec + 1, fo)
        case Err(e) => Err(e)
        case Ok(right) =>
          match OperadorOf(c)
          case None => Err(UnknownOperator(c))
          case Some(o) => Climb(toks, BinOp(left, o, right.expr), right.next, minPrec, fo)
  }

  /** `parse_factor`. */
  method ParseFactor(toks: seq<Token>, pos: nat, fo: FloatOps) returns (r: Result<Parsed, ParseError>)
    requires pos <= |toks|
    ensures r == Factor(toks, pos, fo)
    decreases |toks| - pos, 0
  {
    if pos >= |toks| {
      return Err(IncompleteExpression);
    }
    match toks[pos] {
      case Numero(n) =>
        var i := ParseI64(n);
        if i.Some? {
          return Ok(Parsed(Expresion.Valor(Int(i.value)), pos + 1));
        }
        var f := fo.parse(n);
        if f.Some? {
          return Ok(Parsed(Expresion.Valor(Float(f.value)), pos + 1));
        }
        return Err(InvalidNumber(n));
      case Cadena(s) =>
        return Ok(Parsed(Expresion.Valor(String(s)), pos + 1));
      case Identificador(id) =>
        return Ok(Parsed(Variable(id), pos + 1));
      case ParenAbre =>
        var inner := ParseExpresion(toks, pos + 1, fo);
        if inner.Err? {
          return Err(inner.error);
        }
        var siguiente := inner.value.next;
        if siguiente >= |toks| {
          return Err(MissingParen);
        }
        if toks[siguiente] == ParenCierra {
          return Ok(Parsed(inner.value.expr, siguiente + 1));
        }
        return Err(MissingParen);
      case _ =>
        return Err(UnexpectedInExpression(toks[pos]));
    }
  }

  /** `parse_expresion`: an expression at the lowest precedence. */
  method ParseExpresion(toks: seq<Token>, pos: nat, fo: FloatOps) returns (r: Result<Parsed, ParseError>)
    requires pos <= |toks|
    ensures r == Expr(toks, pos, 0, fo)
    decreases |toks| - pos, 2
  {
    r := ParseExprPrecedence(toks, pos, 0, fo);
  }

  /** `parse_expr_precedence`: the left operand is reassigned in a loop. */
  method ParseExprPrecedence(toks: seq<Token>, pos: nat, minPrec: nat, fo: FloatOps) returns (r: Result<Parsed, ParseError>)
    requires pos <= |toks|
    ensures r == Expr(toks, pos, minPrec, fo)
    decreases |toks| - pos, 1
  {
    var f := ParseFactor(toks, pos, fo);
    if f.Err? {
      return Err(f.error);
    }
    var izquierda := f.value.expr;
    var p := f.value.next;
    while p < |toks|
      invariant pos < p <= |toks|
      invariant Expr(toks, pos, minPrec, fo) == Climb(toks, izquierda, p, minPrec, fo)
      decreases |toks| - p
    {
      if !toks[p].Operador? {
        break;
      }
      var op := toks[p].op;
      var prec := Precedencia(op);
      if prec < minPrec {
        break;
      }
      var derecha := ParseExprPrecedence(toks, p + 1, prec + 1, fo);
      if derecha.Err? {
        return Err(derecha.error);
      }
      var operador: Operador;
      match op {
        case '+' => operador := Suma;
        case '-' => operador := Resta;
        case '*' => operador := Multiplicacion;
        case '/' => operador := Division;
        case '%' => operador := Modulo;
        case _ => return Err(UnknownOperator(op));
      }
      izquierda := BinOp(izquierda, operador, derecha.value.expr);
      p := derecha.value.next;
    }
    return Ok(Parsed(izquierda, p));
  }

  predicate IsMarker(t: Token)
  {
    t == Iniciar || t == Fin
  }

  // ---------------------------------------------------------------------------
  // Declarations
  // ---------------------------------------------------------------------------

  /** `parse_declaracion_var_mutar(tokens, pos)`: `name = expression ;` from
      `pos`, just after the keyword. The kind is decided by the token two
      places before the position reached after `=`; that token is the name
      itself, never `Var`, so the result is always a `Mutar`. */
  function Declaration(toks: seq<Token>, pos: nat, fo: FloatOps): (r: Result<Declared, ParseError>)
    requires pos <= |toks|
    ensures r.Ok? ==> pos + 3 < r.value.next <= |toks|
    ensures r.Ok? ==> toks[pos].Identificador? && toks[pos + 1] == Operador('=') && toks[r.value.next - 1] == PuntoYComa
    ensures r.Ok? ==> forall k | pos <= k < r.value.next :: !IsMarker(toks[k])
    ensures r.Ok? ==> (Expr(toks, pos + 2, 0, fo).Ok? &&
                       r.value.inst == Instruccion.Mutar(toks[pos].name, Expr(toks, pos + 2, 0, fo).value.expr))
    decreases |toks| - pos, 2
  {
    if pos == |toks| then Err(IncompleteDeclaration)
    else if !toks[pos].Identificador? then Err(ExpectedIdentifier)
    else if pos + 1 == |toks| then Err(MissingEquals)
    else if toks[pos + 1] != Operador('=') then Err(ExpectedEquals)
    else
      var nombre := toks[pos].name;
      var despues := pos + 2;
      match Expr(toks, despues, 0, fo)
      case Err(e) => Err(e)
      case Ok(parsed) =>
        if parsed.next < |toks| && toks[parsed.next] == PuntoYComa then
          var inst :=
            if toks[despues - 2] == Token.Var then Instruccion.Var(nombre, parsed.expr)
            else Instruccion.Mutar(nombre, parsed.expr);
          Ok(Declared(inst, parsed.next + 1))
        else Err(MissingSemicolon)
  }

  /** `parse_declaracion_var_mutar`. */
  method ParseDeclaracion(toks: seq<Token>, start: nat, fo: FloatOps) returns (r: Result<Declared, ParseError>)
    requires start <= |toks|
    ensures r == Declaration(toks, start, fo)
  {
    var pos := start;
    if pos >= |toks| {
      return Err(IncompleteDeclaration);
    }
    if !toks[pos].Identificador? {
      return Err(ExpectedIdentifier);
    }
    var nombre := toks[pos].name;
    pos := pos + 1;
    if pos >= |toks| {
      return Err(MissingEquals);
    }
    if toks[pos] != Operador('=') {
      return Err(ExpectedEquals);
    }
    pos := pos + 1;
    var parsed := ParseExpresion(toks, pos, fo);
    if parsed.Err? {
      return Err(parsed.error);
    }
    var siguiente := parsed.value.next;
    if siguiente >= |toks| || toks[siguiente] != PuntoYComa {
      return Err(MissingSemicolon);
    }
    var expr := parsed.value.expr;
    var inst;
    if toks[pos - 2] == Token.Var {
      inst := Instruccion.Var(nombre, expr);
    } else {
      inst := Instruccion.Mutar(nombre, expr);
    }
    return Ok(Declared(inst, siguiente + 1));
  }

  // ---------------------------------------------------------------------------
  // The token list
  // ---------------------------------------------------------------------------

  /** `parse` from token `i` on, with the three flags of its loop. */
  function ParseFrom(toks: seq<Token>, i: nat, dentro: bool, inicio: bool, fin: bool, fo: FloatOps)
    : (r: Result<seq<Instruccion>, ParseError>)
    requires i <= |toks|
    decreases |toks| - i
  {
    if i == |toks| then
      if !inicio then Err(MissingIniciar)
      else if !fin then Err(MissingFin)
      else Ok([])
    else
      match toks[i]
      case Iniciar =>
        if inicio then Err(DuplicateIniciar)
        else ParseFrom(toks, i + 1, true, true, fin, fo)
      case Fin =>
        if !inicio then Err(FinWithoutIniciar)
        else if fin then Err(DuplicateFin)
        else ParseFrom(toks, i + 1, false, inicio, true, fo)
      case Var =>
        if !dentro then Err(VarOutsideBlock)
        else DeclarationThen(toks, i, dentro, inicio, fin, fo)
      case Mutar =>
        if !dentro then Err(MutarOutsideBlock)
        else DeclarationThen(toks, i, dentro, inicio, fin, fo)
      case Imprimir =>
        if !dentro then Err(ImprimirOutsideBlock)
        else if i + 1 == |toks| then Err(MissingPrintContent)
        else if toks[i + 1].Texto? then
          Prepend([Instruccion.Imprimir(toks[i + 1].text)], ParseFrom(toks, i + 2, dentro, inicio, fin, fo))
        else Err(PrintWithoutText)
      case _ => Err(UnexpectedToken)
  }

  /** The declaration that follows the keyword at `i`, then the rest. */
  function DeclarationThen(toks: seq<Token>, i: nat, dentro: bool, inicio: bool, fin: bool, fo: FloatOps)
    : (r: Result<seq<Instruccion>, ParseError>)
    requires i < |toks|
    decreases |toks| - i, 0
  {
    match Declaration(toks, i + 1, fo)
    case Err(e) => Err(e)
    case Ok(d) => Prepend([d.inst], ParseFrom(toks, d.next, dentro, inicio, fin, fo))
  }

  // One turn of the loop of `parse`, for each kind of token that moves on.

  lemma ParseFromDeclaration(toks: seq<Token>, i: nat, dentro: bool, inicio: bool, fin: bool, fo: FloatOps, d: Declared)
    requires i < |toks| && (toks[i] == Token.Var || toks[i] == Token.Mutar) && dentro
    requires Declaration(toks, i + 1, fo) == Ok(d)
    ensures d.next <= |toks|
    ensures ParseFrom(toks, i, dentro, inicio, fin, fo) == Prepend([d.inst], ParseFrom(toks, d.next, dentro, inicio, fin, fo))
  {
  }

  lemma ParseFromImprimir(toks: seq<Token>, i: nat, dentro: bool, inicio: bool, fin: bool, fo: FloatOps)
    requires i + 1 < |toks| && toks[i] == Token.Imprimir && dentro && toks[i + 1].Texto?
    ensures ParseFrom(toks, i, dentro, inicio, fin, fo)
      == Prepend([Instruccion.Imprimir(toks[i + 1].text)], ParseFrom(toks, i + 2, dentro, inicio, fin, fo))
  {
  }

  /** `parse`: the instructions of a token list, or the first error. */
  method Parse(toks: seq<Token>, fo: FloatOps) returns (r: Result<seq<Instruccion>, ParseError>)
    ensures r == ParseFrom(toks, 0, false, false, false, fo)
  {
    var instrucciones: seq<Instruccion> := [];
    var dentroBloque := false;
    var inicioEncontrado := false;
    var finEncontrado := false;
    var i := 0;
    PrependEmpty(ParseFrom(toks, 0, false, false, false, fo));
    while i < |toks|
      invariant 0 <= i <= |toks|
      invariant ParseFrom(toks, 0, false, false, false, fo)
        == Prepend(instrucciones, ParseFrom(toks, i, dentroBloque, inicioEncontrado, finEncontrado, fo))
      decreases |toks| - i
    {
      match toks[i] {
        case Iniciar =>
          if inicioEncontrado {
            return Err(DuplicateIniciar);
          }
          inicioEncontrado := true;
          dentroBloque := true;
          i := i + 1;
        case Fin =>
          if !inicioEncontrado {
            return Err(FinWithoutIniciar);
          }
          if finEncontrado {
            return Err(DuplicateFin);
          }
          finEncontrado := true;
          dentroBloque := false;
          i := i + 1;
        case Var =>
          if !dentroBloque {
            return Err(VarOutsideBlock);
          }
          var d := ParseDeclaracion(toks, i + 1, fo);
          if d.Err? {
            return Err(d.error);
          }
          ParseFromDeclaration(toks, i, dentroBloque, inicioEncontrado, finEncontrado, fo, d.value);
          PrependAssoc(instrucciones, [d.value.inst], ParseFrom(toks, d.value.next, dentroBloque, inicioEncontrado, finEncontrado, fo));
          instrucciones := instrucciones + [d.value.inst];
          i := d.value.next;
        case Mutar =>
          if !dentroBloque {
            return Err(MutarOutsideBlock);
          }
          var d := ParseDeclaracion(toks, i + 1, fo);
          if d.Err? {
            return Err(d.error);
          }
          ParseFromDeclaration(toks, i, dentroBloque, inicioEncontrado, finEncontrado, fo, d.value);
          PrependAssoc(instrucciones, [d.value.inst], ParseFrom(toks, d.value.next, dentroBloque, inicioEncontrado, finEncontrado, fo));
          instrucciones := instrucciones + [d.value.inst];
          i := d.value.next;
        case Imprimir =>
          if !dentroBloque {
            return Err(ImprimirOutsideBlock);
          }
          if i + 1 >= |toks| {
            return Err(MissingPrintContent);
          }
          if toks[i + 1].Texto? {
            var inst := Instruccion.Imprimir(toks[i + 1].text);
            ParseFromImprimir(toks, i, dentroBloque, inicioEncontrado, finEncontrado, fo);
            PrependAssoc(instrucciones, [inst], ParseFrom(toks, i + 2, dentroBloque, inicioEncontrado, finEncontrado, fo));
            instrucciones := instrucciones + [inst];
            i := i + 2;
          } else {
            return Err(PrintWithoutText);
          }
        case _ =>
          return Err(UnexpectedToken);
      }
    }
    if !inicioEncontrado {
      return Err(MissingIniciar);
    }
    if !finEncontrado {
      return Err(MissingFin);
    }
    assert instrucciones + [] == instrucciones;
    return Ok(instrucciones);
  }
}

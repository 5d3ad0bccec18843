/** What the parser of the simplified pipeline (src/parser.rs) guarantees:
    how a declaration is split and its literal read, the round trip from a
    value's literal back to the value, and the shape of an accepted token
    list. */
module LegacyParserProperties {
  import opened Results
  import opened Text
  import opened Values
  import opened LegacyAst
  import opened LegacyParser

  // ---------------------------------------------------------------------------
  // Declarations
  // ---------------------------------------------------------------------------

  /** A declaration is accepted exactly when its trimmed text ends with `;`
      and the rest holds exactly one `=`; the name and the value text are the
      trimmed parts before and after that `=`. */
  lemma SplitDeclarationSpec(texto: string)
    ensures var t := Trim(texto); var r := SplitDeclaration(texto);
      && (!EndsWith(t, ";") ==> r == Err(MissingSemicolon(t)))
      && (EndsWith(t, ";") ==>
            var body := t[..|t| - 1]; var k := FirstIndex(body, '=');
            && (CountOf(body, '=') != 1 ==> r == Err(BadDeclaration(body)))
            && (CountOf(body, '=') == 1 ==> k < |body| && r == Ok((Trim(body[..k]), Trim(body[k + 1..])))))
  {
    var t := Trim(texto);
    if EndsWith(t, ";") {
      var body := t[..|t| - 1];
      if CountOf(body, '=') == 1 {
        SplitOnce(body, '=');
      }
    }
  }

  /** `parse_var` always gives `Var` and `parse_mutar` always gives `Mutar`;
      they accept the same texts and read the same name and value. */
  lemma VarMutarAgree(texto: string, fo: FloatOps)
    ensures ParseVar(texto, fo).Ok? <==> ParseMutar(texto, fo).Ok?
    ensures ParseVar(texto, fo).Ok? ==>
      && ParseVar(texto, fo).value.Var?
      && ParseMutar(texto, fo).value.Mutar?
      && ParseVar(texto, fo).value.name == ParseMutar(texto, fo).value.name
      && ParseVar(texto, fo).value.valor == ParseMutar(texto, fo).value.valor
    ensures ParseVar(texto, fo).Err? ==> ParseVar(texto, fo) == ParseMutar(texto, fo)
  {
  }

  /** A text that starts and ends with the quote character `q`. */
  predicate QuotedBy(t: string, q: char)
  {
    StartsWith(t, [q]) && EndsWith(t, [q])
  }

  /** What each kind of value is read from: a string from its text between
      double quotes, a character from exactly one character between single
      quotes, an integer from a text `str::parse::<i64>` accepts, and a float
      only from an unquoted text that is not an integer. A lone quote
      panics; single quotes around anything but one character, and an
      unquoted text that is neither number, are errors. */
  lemma ParseValorSpec(texto: string, fo: FloatOps)
    ensures var t := Trim(texto); var r := ParseValor(texto, fo);
      && (r.Err? && r.error.Crash? <==> t == "\"" || t == "'")
      && (r.Ok? && r.value.String? ==> t == "\"" + r.value.s + "\"")
      && (r.Ok? && r.value.Char? ==> t == ['\'', r.value.c, '\''])
      && (r.Ok? && r.value.Int? ==> ParseI64(t) == Some(r.value.i))
      && (r.Ok? && r.value.Float? ==>
            && !QuotedBy(t, '"') && !QuotedBy(t, '\'')
            && ParseI64(t).None? && fo.parse(t) == Some(r.value.f))
      && (QuotedBy(t, '"') && |t| >= 2 ==> r == Ok(String(t[1..|t| - 1])))
      && (QuotedBy(t, '\'') && |t| == 3 ==> r == Ok(Char(t[1])))
      && (QuotedBy(t, '\'') && |t| != 1 && |t| != 3 ==> r == Err(CharLength(t)))
      && (!QuotedBy(t, '"') && !QuotedBy(t, '\'') && ParseI64(t).Some? ==>
            r == Ok(Int(ParseI64(t).value)))
      && (!QuotedBy(t, '"') && !QuotedBy(t, '\'') && ParseI64(t).None? && fo.parse(t).Some? ==>
            r == Ok(Float(fo.parse(t).value)))
      && (!QuotedBy(t, '"') && !QuotedBy(t, '\'') && ParseI64(t).None? && fo.parse(t).None? ==>
            r == Err(UnknownValue(t)))
  {
    var t := Trim(texto);
    if QuotedBy(t, '"') {
      DoubleQuotedValor(texto, fo);
    } else if QuotedBy(t, '\'') {
      SingleQuotedValor(texto, fo);
    } else {
      assert t != "\"" && t != "'" by {
        if |t| == 1 { assert t[..1] == t && t[|t| - 1..] == t; }
      }
    }
  }

  lemma DoubleQuotedValor(texto: string, fo: FloatOps)
    requires QuotedBy(Trim(texto), '"')
    ensures var t := Trim(texto); var r := ParseValor(texto, fo);
      && t != "'" && !QuotedBy(t, '\'')
      && (|t| < 2 ==> t == "\"" && r == Err(Crash(SliceOutOfRange)))
      && (|t| >= 2 ==> t == "\"" + t[1..|t| - 1] + "\"" && r == Ok(String(t[1..|t| - 1])))
  {
    var t := Trim(texto);
    assert t[..1] == "\"";
    if |t| < 2 {
      assert t == t[..1];
    } else {
      assert t[|t| - 1..] == "\"";
      assert t == [t[0]] + t[1..|t| - 1] + [t[|t| - 1]];
    }
  }

  lemma SingleQuotedValor(texto: string, fo: FloatOps)
    requires QuotedBy(Trim(texto), '\'') && !QuotedBy(Trim(texto), '"')
    ensures var t := Trim(texto); var r := ParseValor(texto, fo);
      && t != "\""
      && (|t| < 2 ==> t == "'" && r == Err(Crash(SliceOutOfRange)))
      && (|t| == 3 ==> t == ['\'', t[1], '\''] && r == Ok(Char(t[1])))
      && (2 <= |t| && |t| != 3 ==> r == Err(CharLength(t)))
  {
    var t := Trim(texto);
    assert t[..1] == "'";
    if |t| < 2 {
      assert t == t[..1];
    } else if |t| == 3 {
      assert t[2..] == "'";
      assert t == ['\'', t[1], '\''];
    }
  }

  /** The literal the simplified language writes for a value that is not a
      float. */
  function Literal(v: Valor): string
    requires !v.Float?
  {
    match v
    case Int(i) => IntToDecimal(i)
    case Char(c) => ['\'', c, '\'']
    case String(s) => "\"" + s + "\""
  }

  lemma LiteralTrimmed(v: Valor)
    requires !v.Float?
    ensures Literal(v) != [] && Trimmed(Literal(v))
  {
    var l := Literal(v);
    if v.Int? {
      assert IsDigit(l[|l| - 1]);
    }
  }

  /** Reading a literal gives back its value. */
  lemma LiteralRoundTrip(v: Valor, fo: FloatOps)
    requires !v.Float?
    ensures ParseValor(Literal(v), fo) == Ok(v)
  {
    var l := Literal(v);
    LiteralTrimmed(v);
    TrimIsTrimmed(l);
    match v
    case Int(i) =>
      DecimalRoundTrip(i);
      assert l[0] == '-' || IsDigit(l[0]) by {
        if l[0] != '-' {
          assert i >= 0 && AllDigits(l);
        }
      }
      assert !StartsWith(l, "\"") && !StartsWith(l, "'") by {
        assert |l| >= 1 ==> l[..1][0] == l[0];
      }
    case Char(c) =>
      assert !StartsWith(l, "\"") by {
        assert l[..1][0] == '\'';
      }
      assert l[..1] == "'" && l[|l| - 1..] == "'";
    case String(s) =>
      assert l[..1] == "\"" && l[|l| - 1..] == "\"";
      assert l[1..|l| - 1] == s;
  }

  /** `name = value;` splits into the name and the value text, provided
      both are trimmed, non-empty and free of `=`. */
  lemma SplitDeclarationOf(name: string, l: string)
    requires name != [] && Trimmed(name) && '=' !in name
    requires l != [] && Trimmed(l) && '=' !in l
    ensures SplitDeclaration(name + " = " + l + ";") == Ok((name, l))
  {
    var texto := name + " = " + l + ";";
    assert Trimmed(texto) by {
      assert texto[0] == name[0] && texto[|texto| - 1] == ';';
    }
    TrimIsTrimmed(texto);
    assert EndsWith(texto, ";") by {
      assert texto[|texto| - 1..] == ";";
    }
    var body := texto[..|texto| - 1];
    assert body == (name + " ") + ['='] + (" " + l);
    assert '=' !in name + " " && '=' !in " " + l;
    SplitAround(name + " ", " " + l, '=');
    TrimOuter(name, " ", l);
  }

  /** A declaration `name = literal;` reads back as the name and the value,
      provided the name is trimmed and neither holds an `=`. */
  lemma DeclarationRoundTrip(name: string, v: Valor, fo: FloatOps)
    requires !v.Float? && name != [] && Trimmed(name) && '=' !in name && '=' !in Literal(v)
    ensures ParseVar(name + " = " + Literal(v) + ";", fo) == Ok(Instruccion.Var(name, v))
    ensures ParseMutar(name + " = " + Literal(v) + ";", fo) == Ok(Instruccion.Mutar(name, v))
  {
    LiteralTrimmed(v);
    SplitDeclarationOf(name, Literal(v));
    LiteralRoundTrip(v, fo);
  }

  /** `trim` drops the blank that follows a trimmed name and the one that
      precedes a trimmed literal. */
  lemma TrimOuter(name: string, blank: string, l: string)
    requires name != [] && Trimmed(name) && blank == " " && Trimmed(l)
    ensures Trim(name + blank) == name && Trim(blank + l) == l
  {
    TrimEndAppend(name, blank);
    assert TrailingStart(blank) == 0;
    assert name + [] == name;
    assert LeadingWhitespace(name + blank) == 0;
    assert LeadingWhitespace(blank + l) == 1 + LeadingWhitespace(l) by {
      assert (blank + l)[1..] == l;
    }
    assert TrimStart(blank + l) == TrimStart(l);
    TrimIsTrimmed(l);
  }

  /** An `=` inside a string literal gives the split more than two parts,
      so the declaration is rejected. */
  lemma EqualsInStringRejected(name: string, s: string, fo: FloatOps)
    requires name != [] && Trimmed(name) && '=' in s
    ensures ParseVar(name + " = \"" + s + "\";", fo).Err?
  {
    var texto := name + " = \"" + s + "\";";
    var body := name + " = \"" + s + "\"";
    assert Trim(texto) == body + ";" by {
      assert texto == body + ";";
      assert Trimmed(texto) by {
        assert texto[0] == name[0] && texto[|texto| - 1] == ';';
      }
      TrimIsTrimmed(texto);
    }
    assert CountOf(body, '=') >= 2 by {
      CountAppend(name + " = \"" + s, "\"", '=');
      CountAppend(name + " = \"", s, '=');
      CountAppend(name, " = \"", '=');
      CountPositive(s, '=');
      CountPositive(" = \"", '=');
    }
    SeveralEqualsRejected(texto, body, fo);
  }

  /** A declaration whose text before the `;` holds two `=` or more is
      rejected. */
  lemma SeveralEqualsRejected(texto: string, body: string, fo: FloatOps)
    requires Trim(texto) == body + ";" && CountOf(body, '=') >= 2
    ensures ParseVar(texto, fo).Err? && ParseMutar(texto, fo).Err?
  {
    var t := Trim(texto);
    assert t[|t| - 1..] == ";" && t[..|t| - 1] == body;
    assert |Split(body, '=')| != 2;
  }

  // ---------------------------------------------------------------------------
  // The token scan
  // ---------------------------------------------------------------------------

  /** Declarations are not checked against the block: outside it, too, a
      declaration is parsed and the scan goes on after its text. */
  lemma DeclarationOutsideBlock(toks: seq<Token>, i: nat, inicio: bool, fin: bool, fo: FloatOps)
    requires i + 1 < |toks| && (toks[i] == Token.Var || toks[i] == Token.Mutar) && toks[i + 1].Texto?
    requires var t := toks[i + 1].text;
      if toks[i] == Token.Var then ParseVar(t, fo).Ok? else ParseMutar(t, fo).Ok?
    ensures var t := toks[i + 1].text;
      var inst := if toks[i] == Token.Var then ParseVar(t, fo).value else ParseMutar(t, fo).value;
      ParseFrom(toks, i, false, inicio, fin, fo) == Prepend([inst], ParseFrom(toks, i + 2, false, inicio, fin, fo))
  {
  }

  lemma SliceCons(toks: seq<Token>, i: nat)
    requires i < |toks|
    ensures multiset(toks[i..]) == multiset{toks[i]} + multiset(toks[i + 1..])
  {
    assert toks[i..] == [toks[i]] + toks[i + 1..];
  }

  /** What an accepted scan from `i` on says about the token at `i`. */
  lemma ParseFromOk(toks: seq<Token>, i: nat, dentro: bool, inicio: bool, fin: bool, fo: FloatOps)
    requires i <= |toks| && ParseFrom(toks, i, dentro, inicio, fin, fo).Ok?
    ensures i == |toks| ==> inicio && fin
    ensures i < |toks| ==> !toks[i].Texto?
    ensures i < |toks| && toks[i] == Iniciar ==>
      !inicio && ParseFrom(toks, i + 1, true, true, fin, fo).Ok?
    ensures i < |toks| && toks[i] == Fin ==>
      inicio && !fin && ParseFrom(toks, i + 1, false, inicio, true, fo).Ok?
    ensures i < |toks| && IsKeyword(toks[i]) ==>
      && i + 1 < |toks| && toks[i + 1].Texto?
      && ParseFrom(toks, i + 2, dentro, inicio, fin, fo).Ok?
      && (toks[i] == Token.Imprimir ==> dentro)
  {
    if i < |toks| {
      match toks[i]
      case Iniciar =>
      case Fin =>
      case Var =>
        ThenOk(ParseVar(toks[i + 1].text, fo), toks, i + 2, dentro, inicio, fin, fo);
      case Mutar =>
        ThenOk(ParseMutar(toks[i + 1].text, fo), toks, i + 2, dentro, inicio, fin, fo);
      case Imprimir =>
        ThenOk(Ok(Instruccion.Imprimir(toks[i + 1].text)), toks, i + 2, dentro, inicio, fin, fo);
      case Texto(_) =>
    }
  }

  lemma ThenOk(inst: Result<Instruccion, ParseError>, toks: seq<Token>, next: nat,
               dentro: bool, inicio: bool, fin: bool, fo: FloatOps)
    requires 0 < next <= |toks|
    ensures Then(inst, toks, next, dentro, inicio, fin, fo).Ok? ==>
      inst.Ok? && ParseFrom(toks, next, dentro, inicio, fin, fo).Ok?
  {
  }

  /** From any point of an accepted scan on, `iniciar</>` and `</>` each
      occur exactly as often as they are still to be seen: once, or not at
      all. */
  lemma {:induction false} MarkersCounted(toks: seq<Token>, i: nat, dentro: bool, inicio: bool, fin: bool, fo: FloatOps)
    requires i <= |toks| && (fin ==> inicio)
    requires ParseFrom(toks, i, dentro, inicio, fin, fo).Ok?
    ensures multiset(toks[i..])[Iniciar] == (if inicio then 0 else 1)
    ensures multiset(toks[i..])[Fin] == (if fin then 0 else 1)
    decreases |toks| - i
  {
    ParseFromOk(toks, i, dentro, inicio, fin, fo);
    if i < |toks| {
      SliceCons(toks, i);
      if toks[i] == Iniciar {
        MarkersCounted(toks, i + 1, true, true, fin, fo);
      } else if toks[i] == Fin {
        MarkersCounted(toks, i + 1, false, inicio, true, fo);
      } else {
        SliceCons(toks, i + 1);
        MarkersCounted(toks, i + 2, dentro, inicio, fin, fo);
      }
    }
  }

  /** From any point of an accepted scan on, every `imprimir` comes after
      an `iniciar</>` and before a `</>`. */
  lemma {:induction false} PrintsInside(toks: seq<Token>, i: nat, dentro: bool, inicio: bool, fin: bool, fo: FloatOps)
    requires i <= |toks| && (fin ==> inicio) && dentro == (inicio && !fin)
    requires ParseFrom(toks, i, dentro, inicio, fin, fo).Ok?
    ensures forall k | i <= k < |toks| && toks[k] == Token.Imprimir ::
      (inicio || Iniciar in toks[i..k]) && Fin in toks[k + 1..]
    decreases |toks| - i
  {
    ParseFromOk(toks, i, dentro, inicio, fin, fo);
    if i < |toks| {
      var t := toks[i];
      var next := if t == Iniciar || t == Fin then i + 1 else i + 2;
      var dentro' := if t == Iniciar then true else if t == Fin then false else dentro;
      var inicio' := if t == Iniciar then true else inicio;
      var fin' := if t == Fin then true else fin;
      PrintsInside(toks, next, dentro', inicio', fin', fo);
      if t == Token.Imprimir {
        MarkersCounted(toks, i + 2, dentro, inicio, fin, fo);
        assert Fin in toks[i + 2..];
        assert toks[i + 2..] == toks[i + 1..][1..];
      }
      forall k | i <= k < |toks| && toks[k] == Token.Imprimir
        ensures (inicio || Iniciar in toks[i..k]) && Fin in toks[k + 1..]
      {
        if k >= next {
          assert toks[next..k] == toks[i..k][next - i..];
          if t == Iniciar {
            assert toks[i..k][0] == Iniciar;
          }
        } else {
          assert k == i;
        }
      }
    }
  }

  /** Reading the tokens from `i` on, with `inicio` telling whether an
      `iniciar</>` has been seen: no `</>` comes before one has. */
  predicate FinPreceded(toks: seq<Token>, i: nat, inicio: bool)
    requires i <= |toks|
    decreases |toks| - i
  {
    i == |toks| ||
      ((toks[i] == Fin ==> inicio) && FinPreceded(toks, i + 1, inicio || toks[i] == Iniciar))
  }

  /** An accepted scan never meets `</>` before `iniciar</>`. */
  lemma {:induction false} ScanFinPreceded(toks: seq<Token>, i: nat, dentro: bool, inicio: bool, fin: bool, fo: FloatOps)
    requires i <= |toks| && ParseFrom(toks, i, dentro, inicio, fin, fo).Ok?
    ensures FinPreceded(toks, i, inicio)
    decreases |toks| - i
  {
    ParseFromOk(toks, i, dentro, inicio, fin, fo);
    if i < |toks| {
      if toks[i] == Iniciar {
        ScanFinPreceded(toks, i + 1, true, true, fin, fo);
      } else if toks[i] == Fin {
        ScanFinPreceded(toks, i + 1, false, inicio, true, fo);
      } else {
        ScanFinPreceded(toks, i + 2, dentro, inicio, fin, fo);
      }
    }
  }

  /** `FinPreceded` read as positions: every `</>` from `i` on has an
      `iniciar</>` before it, unless one was seen before `i`. */
  lemma {:induction false} FinPrecededOrder(toks: seq<Token>, i: nat, inicio: bool)
    requires i <= |toks| && FinPreceded(toks, i, inicio)
    ensures forall k | i <= k < |toks| && toks[k] == Fin :: inicio || Iniciar in toks[i..k]
    decreases |toks| - i
  {
    if i < |toks| {
      FinPrecededOrder(toks, i + 1, inicio || toks[i] == Iniciar);
      FinAfterIniciarStep(toks, i, i + 1, inicio, inicio || toks[i] == Iniciar);
    }
  }

  /** From any point of an accepted scan on, a `</>` comes after an
      `iniciar</>`, seen either before that point or after it. */
  lemma FinAfterIniciar(toks: seq<Token>, i: nat, dentro: bool, inicio: bool, fin: bool, fo: FloatOps)
    requires i <= |toks| && ParseFrom(toks, i, dentro, inicio, fin, fo).Ok?
    ensures forall k | i <= k < |toks| && toks[k] == Fin :: inicio || Iniciar in toks[i..k]
  {
    ScanFinPreceded(toks, i, dentro, inicio, fin, fo);
    FinPrecededOrder(toks, i, inicio);
  }

  /** One step of `FinAfterIniciar`: what holds from `next` on, together with
      the tokens from `i` to `next`, holds from `i` on. */
  lemma FinAfterIniciarStep(toks: seq<Token>, i: nat, next: nat, inicio: bool, inicio': bool)
    requires i < next <= |toks|
    requires inicio' ==> inicio || toks[i] == Iniciar
    requires forall k | i <= k < next && toks[k] == Fin :: inicio
    requires forall k | next <= k < |toks| && toks[k] == Fin :: inicio' || Iniciar in toks[next..k]
    ensures forall k | i <= k < |toks| && toks[k] == Fin :: inicio || Iniciar in toks[i..k]
  {
    forall k | i <= k < |toks| && toks[k] == Fin
      ensures inicio || Iniciar in toks[i..k]
    {
      if k >= next {
        assert toks[next..k] == toks[i..k][next - i..];
        if !inicio && inicio' {
          assert toks[i..k][0] == Iniciar;
        }
      }
    }
  }

  /** An accepted token list holds exactly one `iniciar</>` and one `</>`,
      the `iniciar</>` first, and every `imprimir` lies between them. */
  lemma ParseBlockShape(toks: seq<Token>, fo: FloatOps)
    requires ParseFrom(toks, 0, false, false, false, fo).Ok?
    ensures multiset(toks)[Iniciar] == 1 && multiset(toks)[Fin] == 1
    ensures forall k | 0 <= k < |toks| && toks[k] == Fin :: Iniciar in toks[..k]
    ensures forall k | 0 <= k < |toks| && toks[k] == Token.Imprimir ::
      Iniciar in toks[..k] && Fin in toks[k + 1..]
  {
    assert toks[0..] == toks;
    MarkersCounted(toks, 0, false, false, false, fo);
    PrintsInside(toks, 0, false, false, false, fo);
    FinAfterIniciar(toks, 0, false, false, false, fo);
    forall k | 0 <= k < |toks| && (toks[k] == Token.Imprimir || toks[k] == Fin)
      ensures Iniciar in toks[..k]
    {
      assert toks[0..k] == toks[..k];
    }
  }
}

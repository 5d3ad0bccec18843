/** The line-oriented lexer of the full pipeline (roulang/src/lexer.rs).
    The source text arrives as its sequence of lines (what `str::lines`
    yields). Each line is trimmed, `#/ ... #/` comments and `#` tails are
    removed, and the rest is classified; the text after `var ` or `mutar ` is
    cut into expression tokens character by character. */
module Lexer {
  import opened Results
  import opened Text
  import opened Ast

  datatype LexError =
    | UnclosedPrint            // `imprimir(` without `)`
    | UnknownLine(line: string)
    | UnclosedString           // `"` without its closing `"`
    | UnrecognizedChar(c: char)

  // ---------------------------------------------------------------------------
  // Expression fragments (tokenize_expresion)
  // ---------------------------------------------------------------------------

  predicate IsIdentStart(c: char)
  {
    IsAlphabetic(c) || c == '_'
  }

  predicate IsIdentChar(c: char)
  {
    IsAlphanumeric(c) || c == '_'
  }

  predicate IsOperatorChar(c: char)
  {
    c == '+' || c == '-' || c == '*' || c == '/' || c == '%' || c == '='
  }

  /** A well-formed identifier: an alphabetic or `_` start, then alphanumeric or `_`. */
  predicate IsIdentifier(w: string)
  {
    w != [] && IsIdentStart(w[0]) && forall k | 1 <= k < |w| :: IsIdentChar(w[k])
  }

  /** A well-formed number token: a digit, then digits with at most one `.`; no sign. */
  predicate IsNumberText(w: string)
  {
    && w != [] && IsDigit(w[0])
    && (forall k | 0 <= k < |w| :: IsDigit(w[k]) || w[k] == '.')
    && (forall k1, k2 | 0 <= k1 < k2 < |w| :: !(w[k1] == '.' && w[k2] == '.'))
  }

  /** The tokens `tokenize_expresion` can produce. */
  predicate IsExpressionToken(t: Token)
  {
    match t
    case Identificador(w) => IsIdentifier(w)
    case Numero(w) => IsNumberText(w)
    case Cadena(w) => '"' !in w
    case Operador(c) => IsOperatorChar(c)
    case ParenAbre => true
    case ParenCierra => true
    case PuntoYComa => true
    case Coma => true
    case _ => false
  }

  /** Length of the run of identifier characters at the start of `s`. */
  function IdentRun(s: string): (n: nat)
    ensures n <= |s|
  {
    if s != [] && IsIdentChar(s[0]) then 1 + IdentRun(s[1..]) else 0
  }

  /** Length of the run of digits and (while `dot` is false) at most one `.`
      at the start of `s`. */
  function NumberRun(s: string, dot: bool): (n: nat)
    ensures n <= |s|
  {
    if s != [] && (IsDigit(s[0]) || (!dot && s[0] == '.')) then 1 + NumberRun(s[1..], dot || s[0] == '.')
    else 0
  }

  /** The identifier run is maximal. */
  lemma {:induction false} IdentRunMaximal(s: string)
    ensures forall k | 0 <= k < IdentRun(s) :: IsIdentChar(s[k])
    ensures IdentRun(s) < |s| ==> !IsIdentChar(s[IdentRun(s)])
    decreases |s|
  {
    if s != [] && IsIdentChar(s[0]) {
      IdentRunMaximal(s[1..]);
      assert forall k | 1 <= k < IdentRun(s) :: s[k] == s[1..][k - 1];
    }
  }

  /** The number run is maximal and holds at most one `.` (none if `dot`). */
  lemma {:induction false} NumberRunMaximal(s: string, dot: bool)
    ensures var n := NumberRun(s, dot);
      && (forall k | 0 <= k < n :: IsDigit(s[k]) || (!dot && s[k] == '.'))
      && (forall k1, k2 | 0 <= k1 < k2 < n :: !(s[k1] == '.' && s[k2] == '.'))
      && (n < |s| ==> !IsDigit(s[n]) && (s[n] == '.' ==> dot || '.' in s[..n]))
    decreases |s|
  {
    if s != [] && (IsDigit(s[0]) || (!dot && s[0] == '.')) {
      var dot' := dot || s[0] == '.';
      var m := NumberRun(s[1..], dot');
      NumberRunMaximal(s[1..], dot');
      assert forall k | 1 <= k < m + 1 :: s[k] == s[1..][k - 1];
      assert s[1..][..m] == s[1..m + 1];
      assert m + 1 < |s| && s[m + 1] == '.' && !dot ==> '.' in s[..m + 1] by {
        if m + 1 < |s| && s[m + 1] == '.' && !dot {
          if s[0] == '.' {
            assert s[..m + 1][0] == '.';
          } else {
            assert '.' in s[1..m + 1];
            var k :| 0 <= k < m && s[1..m + 1][k] == '.';
            assert s[..m + 1][k + 1] == '.';
          }
        }
      }
    }
  }

  /** The single-character token for `c`, if `c` is one of `+ - * / % = ( ) ; ,`. */
  function Punctuation(c: char): (r: Option<Token>)
    ensures r.Some? ==> IsExpressionToken(r.value)
  {
    if IsOperatorChar(c) then Some(Operador(c))
    else if c == '(' then Some(ParenAbre)
    else if c == ')' then Some(ParenCierra)
    else if c == ';' then Some(PuntoYComa)
    else if c == ',' then Some(Coma)
    else None
  }

  /** What `tokenize_expresion` does with the first character of `s`: skip
      `len` characters, emit one token that spans `len` characters, or fail. */
  datatype Step = Skip(len: nat) | Emit(tok: Token, len: nat) | Fail(error: LexError)

  function LexStep(s: string): (st: Step)
    requires s != []
    ensures !st.Fail? ==> 0 < st.len <= |s|
  {
    var c := s[0];
    if IsWhitespace(c) then Skip(1)
    else if IsIdentStart(c) then
      var n := 1 + IdentRun(s[1..]);
      Emit(Identificador(s[..n]), n)
    else if IsDigit(c) then
      var n := 1 + NumberRun(s[1..], false);
      Emit(Numero(s[..n]), n)
    else if c == '"' then
      var q := FirstIndex(s[1..], '"');
      if q == |s| - 1 then Fail(UnclosedString) else Emit(Cadena(s[1..q + 1]), q + 2)
    else if Punctuation(c).Some? then Emit(Punctuation(c).value, 1)
    else Fail(UnrecognizedChar(c))
  }

  /** The tokens of an expression fragment, or the first error in it. */
  function Lex(s: string): Result<seq<Token>, LexError>
    decreases |s|
  {
    if s == [] then Ok([])
    else
      match LexStep(s)
      case Skip(n) => Lex(s[n..])
      case Emit(t, n) => Prepend([t], Lex(s[n..]))
      case Fail(e) => Err(e)
  }

  // `Lex` on the suffix of `s` from `i`, one step unfolded, for each kind of step.

  lemma LexSkipAt(s: string, i: nat, n: nat)
    requires i < |s| && LexStep(s[i..]) == Skip(n)
    ensures i + n <= |s| && Lex(s[i..]) == Lex(s[i + n..])
  {
    assert s[i..][n..] == s[i + n..];
  }

  lemma LexEmitAt(s: string, i: nat, t: Token, n: nat)
    requires i < |s| && LexStep(s[i..]) == Emit(t, n)
    ensures i + n <= |s| && Lex(s[i..]) == Prepend([t], Lex(s[i + n..]))
  {
    assert s[i..][n..] == s[i + n..];
  }

  lemma LexFailAt(s: string, i: nat, e: LexError)
    requires i < |s| && LexStep(s[i..]) == Fail(e)
    ensures Lex(s[i..]) == Err(e)
  {
  }

  /** The end of the identifier that starts at `start`. */
  method ScanIdentifier(texto: string, start: nat) returns (i: nat)
    requires start < |texto|
    ensures i == start + 1 + IdentRun(texto[start + 1..])
  {
    i := start + 1;
    while i < |texto| && (IsAlphanumeric(texto[i]) || texto[i] == '_')
      invariant start < i <= |texto|
      invariant IdentRun(texto[start + 1..]) == (i - start - 1) + IdentRun(texto[i..])
      decreases |texto| - i
    {
      assert texto[i..][1..] == texto[i + 1..];
      i := i + 1;
    }
  }

  /** The end of the number that starts at `start`. */
  method ScanNumber(texto: string, start: nat) returns (i: nat)
    requires start < |texto|
    ensures i == start + 1 + NumberRun(texto[start + 1..], false)
  {
    i := start + 1;
    var tienePunto := false;
    while i < |texto| && (IsDigit(texto[i]) || (!tienePunto && texto[i] == '.'))
      invariant start < i <= |texto|
      invariant NumberRun(texto[start + 1..], false) == (i - start - 1) + NumberRun(texto[i..], tienePunto)
      decreases |texto| - i
    {
      assert texto[i..][1..] == texto[i + 1..];
      if texto[i] == '.' {
        tienePunto := true;
      }
      i := i + 1;
    }
  }

  /** The index of the first `"` at or after `start`, or `|texto|`. */
  method ScanString(texto: string, start: nat) returns (i: nat)
    requires start <= |texto|
    ensures i == start + FirstIndex(texto[start..], '"')
  {
    i := start;
    while i < |texto| && texto[i] != '"'
      invariant start <= i <= |texto|
      invariant FirstIndex(texto[start..], '"') == (i - start) + FirstIndex(texto[i..], '"')
      decreases |texto| - i
    {
      assert texto[i..][1..] == texto[i + 1..];
      i := i + 1;
    }
  }

  /** One turn of the loop of `tokenize_expresion`, at position `i`. */
  method ScanAt(texto: string, i: nat) returns (st: Step)
    requires i < |texto|
    ensures st == LexStep(texto[i..])
  {
    ghost var t := texto[i..];
    assert t[0] == texto[i] && t[1..] == texto[i + 1..];
    var c := texto[i];
    if IsWhitespace(c) {
      return Skip(1);
    }
    if IsAlphabetic(c) || c == '_' {
      var j := ScanIdentifier(texto, i);
      assert t[..j - i] == texto[i..j];
      return Emit(Identificador(texto[i..j]), j - i);
    }
    if IsDigit(c) {
      var j := ScanNumber(texto, i);
      assert t[..j - i] == texto[i..j];
      return Emit(Numero(texto[i..j]), j - i);
    }
    if c == '"' {
      var j := ScanString(texto, i + 1);
      if j >= |texto| {
        return Fail(UnclosedString);
      }
      assert t[1..j - i] == texto[i + 1..j];
      return Emit(Cadena(texto[i + 1..j]), j - i + 1);
    }
    match c {
      case '+' | '-' | '*' | '/' | '%' | '=' =>
        st := Emit(Operador(c), 1);
      case '(' =>
        st := Emit(ParenAbre, 1);
      case ')' =>
        st := Emit(ParenCierra, 1);
      case ';' =>
        st := Emit(PuntoYComa, 1);
      case ',' =>
        st := Emit(Coma, 1);
      case _ =>
        st := Fail(UnrecognizedChar(c));
    }
  }

  /** `tokenize_expresion`: appends the tokens of `texto` to `tokens`, or fails. */
  method TokenizeExpresion(texto: string, tokens: seq<Token>) returns (r: Result<seq<Token>, LexError>)
    ensures r == Prepend(tokens, Lex(texto))
  {
    var out := tokens;
    var i := 0;
    ghost var whole := Prepend(tokens, Lex(texto));
    assert texto[i..] == texto;
    while i < |texto|
      invariant 0 <= i <= |texto|
      invariant whole == Prepend(out, Lex(texto[i..]))
      decreases |texto| - i
    {
      var failed;
      var st := ScanAt(texto, i);
      failed, out, i := LexAt(texto, i, whole, out, st);
      if failed.Some? {
        return Err(failed.value);
      }
    }
    assert texto[i..] == [];
    assert out + [] == out;
    r := Ok(out);
  }

  /** One turn of the loop of `tokenize_expresion` at position `i`: skip
      whitespace, push one token, or stop with an error. */
  method LexAt(texto: string, i: nat, ghost whole: Result<seq<Token>, LexError>, out: seq<Token>, st: Step)
    returns (failed: Option<LexError>, out': seq<Token>, i': nat)
    requires i < |texto| && whole == Prepend(out, Lex(texto[i..]))
    requires st == LexStep(texto[i..])
    ensures failed.Some? ==> whole == Err(failed.value)
    ensures failed.None? ==> i < i' <= |texto| && whole == Prepend(out', Lex(texto[i'..]))
  {
    match st {
      case Skip(n) =>
        failed, out', i' := None, out, i + n;
        KeepSkip(texto, i, n, whole, out, i');
      case Emit(tok, n) =>
        failed, out', i' := None, out + [tok], i + n;
        KeepEmit(texto, i, tok, n, whole, out, out', i');
      case Fail(e) =>
        LexFailAt(texto, i, e);
        failed, out', i' := Some(e), out, i;
    }
  }

  // The loop invariant of `TokenizeExpresion` across one step.

  lemma KeepSkip(s: string, i: nat, n: nat, whole: Result<seq<Token>, LexError>, out: seq<Token>, i': nat)
    requires i < |s| && LexStep(s[i..]) == Skip(n) && whole == Prepend(out, Lex(s[i..])) && i' == i + n
    ensures i < i' <= |s| && whole == Prepend(out, Lex(s[i'..]))
  {
    LexSkipAt(s, i, n);
  }

  lemma KeepEmit(s: string, i: nat, t: Token, n: nat, whole: Result<seq<Token>, LexError>, out: seq<Token>, out': seq<Token>, i': nat)
    requires i < |s| && LexStep(s[i..]) == Emit(t, n) && whole == Prepend(out, Lex(s[i..]))
    requires out' == out + [t] && i' == i + n
    ensures i < i' <= |s| && whole == Prepend(out', Lex(s[i'..]))
  {
    LexEmitAt(s, i, t, n);
    PrependPush(whole, out, t, Lex(s[i..]), Lex(s[i'..]));
  }

  // ---------------------------------------------------------------------------
  // Lines (tokenize)
  // ---------------------------------------------------------------------------

  /** Outside a multi-line comment: the line without its `#` tail. */
  function StripComment(line: string): (r: string)
    ensures '#' !in r
    ensures '#' !in line ==> r == line
  {
    var p := FirstIndex(line, '#');
    if p < |line| then TrimEnd(line[..p]) else line
  }

  /** The tokens of one line that is outside a multi-line comment, once it has
      been trimmed and its `#` tail removed. */
  function ClassifyLine(l: string): (r: Result<seq<Token>, LexError>)
    ensures (&& l != [] && l != "iniciar</>" && l != "</>" && !StartsWith(l, "imprimir(")
             && !StartsWith(l, "var ") && !StartsWith(l, "mutar ")) ==> r == Err(UnknownLine(l))
    ensures l == [] ==> r == Ok([])
  {
    if l == [] then Ok([])
    else if l == "iniciar</>" then Ok([Iniciar])
    else if l == "</>" then Ok([Fin])
    else if StartsWith(l, "imprimir(") then
      var f := FirstIndex(l, ')');
      if f < |l| then Ok([Token.Imprimir, Texto(l[9..f])]) else Err(UnclosedPrint)
    else if StartsWith(l, "var ") then
      Prepend([Token.Var], Lex(l[4..]))
    else if StartsWith(l, "mutar ") then
      Prepend([Token.Mutar], Lex(l[6..]))
    else Err(UnknownLine(l))
  }

  /** The comment state after one line: whether a multi-line comment is open. */
  function CommentAfter(line: string, inComment: bool): bool
  {
    var t := Trim(line);
    if inComment then !EndsWith(t, "#/")
    else if StartsWith(t, "#/") then !EndsWith(t, "#/") || |t| <= 2
    else false
  }

  /** The tokens of one raw line, given whether a multi-line comment is open. */
  function LineTokens(line: string, inComment: bool): Result<seq<Token>, LexError>
  {
    var t := Trim(line);
    if inComment || StartsWith(t, "#/") then Ok([])
    else ClassifyLine(StripComment(t))
  }

  /** `tokenize` from line `lines[0]` on, with the comment state `inComment`. */
  function TokenizeLines(lines: seq<string>, inComment: bool): Result<seq<Token>, LexError>
    decreases |lines|
  {
    if lines == [] then Ok([])
    else
      match LineTokens(lines[0], inComment)
      case Err(e) => Err(e)
      case Ok(ts) => Prepend(ts, TokenizeLines(lines[1..], CommentAfter(lines[0], inComment)))
  }

  /** A line inside a multi-line comment, or one that starts with `#/`, adds no token. */
  lemma SkipLine(lines: seq<string>, inComment: bool)
    requires lines != [] && (inComment || StartsWith(Trim(lines[0]), "#/"))
    ensures TokenizeLines(lines, inComment) == TokenizeLines(lines[1..], CommentAfter(lines[0], inComment))
  {
    PrependEmpty(TokenizeLines(lines[1..], CommentAfter(lines[0], inComment)));
  }

  lemma CommentLineAt(lines: seq<string>, i: nat, inComment: bool)
    requires i < |lines|
    requires inComment || StartsWith(Trim(lines[i]), "#/")
    ensures TokenizeLines(lines[i..], inComment) == TokenizeLines(lines[i + 1..], CommentAfter(lines[i], inComment))
  {
    assert lines[i..][0] == lines[i] && lines[i..][1..] == lines[i + 1..];
    SkipLine(lines[i..], inComment);
  }

  /** Any other line is classified once its `#` tail is gone. */
  lemma CodeLineAt(lines: seq<string>, i: nat)
    requires i < |lines|
    requires !StartsWith(Trim(lines[i]), "#/")
    ensures TokenizeLines(lines[i..], false) ==
      match ClassifyLine(StripComment(Trim(lines[i])))
      case Err(e) => Err(e)
      case Ok(ts) => Prepend(ts, TokenizeLines(lines[i + 1..], false))
  {
    assert lines[i..][0] == lines[i] && lines[i..][1..] == lines[i + 1..];
  }

  /** `tokenize`: the tokens of a whole source text, given as its lines. */
  method Tokenize(lines: seq<string>) returns (r: Result<seq<Token>, LexError>)
    ensures r == TokenizeLines(lines, false)
  {
    var tokens: seq<Token> := [];
    var inMultilineComment := false;
    var i := 0;
    assert lines[i..] == lines;
    PrependEmpty(TokenizeLines(lines, false));
    while i < |lines|
      invariant 0 <= i <= |lines|
      invariant TokenizeLines(lines, false) == Prepend(tokens, TokenizeLines(lines[i..], inMultilineComment))
      decreases |lines| - i
    {
      var line := Trim(lines[i]);
      if inMultilineComment {
        CommentLineAt(lines, i, inMultilineComment);
        if EndsWith(line, "#/") {
          inMultilineComment := false;
        }
        i := i + 1;
        continue;
      } else if StartsWith(line, "#/") {
        CommentLineAt(lines, i, inMultilineComment);
        if !EndsWith(line, "#/") || |line| <= 2 {
          inMultilineComment := true;
        }
        i := i + 1;
        continue;
      }
      CodeLineAt(lines, i);
      line := StripComment(line);
      var step := TokenizeLine(line, tokens);
      if step.Err? {
        return step;
      }
      PrependAssoc(tokens, ClassifyLine(line).value, TokenizeLines(lines[i + 1..], false));
      tokens := step.value;
      i := i + 1;
    }
    assert lines[i..] == [];
    assert tokens + [] == tokens;
    r := Ok(tokens);
  }

  /** The classification step of the loop of `tokenize`: appends the tokens of
      the trimmed, comment-free line `line` to `tokens`. */
  method TokenizeLine(line: string, tokens: seq<Token>) returns (r: Result<seq<Token>, LexError>)
    ensures r == Prepend(tokens, ClassifyLine(line))
  {
    if line == [] {
      return Ok(tokens + []);
    }
    if line == "iniciar</>" {
      return Ok(tokens + [Iniciar]);
    }
    if line == "</>" {
      return Ok(tokens + [Fin]);
    }
    if StartsWith(line, "imprimir(") {
      var fin := FirstIndex(line, ')');
      if fin < |line| {
        return Ok(tokens + [Token.Imprimir, Texto(line[9..fin])]);
      } else {
        return Err(UnclosedPrint);
      }
    }
    if StartsWith(line, "var ") {
      r := TokenizeExpresion(line[4..], tokens + [Token.Var]);
      PrependAssoc(tokens, [Token.Var], Lex(line[4..]));
      return;
    }
    if StartsWith(line, "mutar ") {
      r := TokenizeExpresion(line[6..], tokens + [Token.Mutar]);
      PrependAssoc(tokens, [Token.Mutar], Lex(line[6..]));
      return;
    }
    return Err(UnknownLine(line));
  }

  // ---------------------------------------------------------------------------
  // Properties of the expression tokenizer
  // ---------------------------------------------------------------------------

  lemma StepWellFormed(s: string)
    requires s != []
    ensures LexStep(s).Emit? ==> IsExpressionToken(LexStep(s).tok)
  {
    var c := s[0];
    if !IsWhitespace(c) && IsIdentStart(c) {
      IdentRunMaximal(s[1..]);
      var n := 1 + IdentRun(s[1..]);
      assert forall k | 1 <= k < n :: s[..n][k] == s[1..][k - 1];
      assert IsIdentifier(s[..n]);
    } else if !IsWhitespace(c) && IsDigit(c) {
      NumberRunMaximal(s[1..], false);
      var n := 1 + NumberRun(s[1..], false);
      assert forall k | 1 <= k < n :: s[..n][k] == s[1..][k - 1];
      assert IsNumberText(s[..n]);
    } else if !IsWhitespace(c) && c == '"' {
      var q := FirstIndex(s[1..], '"');
      if q < |s| - 1 {
        assert forall k | 0 <= k < q :: s[1..q + 1][k] == s[1..][k];
      }
    }
  }

  /** Every token of an expression fragment is well formed: identifiers are
      identifiers, numbers are unsigned digit strings with at most one `.`,
      string payloads hold no quote, and no keyword, marker or `Texto` appears. */
  lemma {:induction false} LexWellFormed(s: string)
    ensures Lex(s).Ok? ==> forall k | 0 <= k < |Lex(s).value| :: IsExpressionToken(Lex(s).value[k])
    decreases |s|
  {
    if s != [] {
      StepWellFormed(s);
      var st := LexStep(s);
      if !st.Fail? {
        LexWellFormed(s[st.len..]);
      }
    }
  }

  lemma {:induction false} IdentRunExact(x: string, rest: string)
    requires forall k | 0 <= k < |x| :: IsIdentChar(x[k])
    requires rest == [] || !IsIdentChar(rest[0])
    ensures IdentRun(x + rest) == |x|
    decreases |x|
  {
    if x != [] {
      assert (x + rest)[1..] == x[1..] + rest;
      IdentRunExact(x[1..], rest);
    } else {
      assert x + rest == rest;
    }
  }

  lemma {:induction false} NumberRunExact(x: string, rest: string, dot: bool)
    requires forall k | 0 <= k < |x| :: IsDigit(x[k]) || (!dot && x[k] == '.')
    requires forall k1, k2 | 0 <= k1 < k2 < |x| :: !(x[k1] == '.' && x[k2] == '.')
    requires rest == [] || (!IsDigit(rest[0]) && (rest[0] == '.' ==> dot || '.' in x))
    ensures NumberRun(x + rest, dot) == |x|
    decreases |x|
  {
    if x != [] {
      assert (x + rest)[1..] == x[1..] + rest;
      var dot' := dot || x[0] == '.';
      assert forall k | 0 <= k < |x[1..]| :: x[1..][k] == x[k + 1];
      assert rest != [] && rest[0] == '.' && !dot' ==> '.' in x[1..] by {
        if rest != [] && rest[0] == '.' && !dot' {
          var k :| 0 <= k < |x| && x[k] == '.';
          assert k > 0;
          assert x[1..][k - 1] == '.';
        }
      }
      NumberRunExact(x[1..], rest, dot');
    } else {
      assert x + rest == rest;
    }
  }

  /** `Lex` of text whose first step is known. */
  lemma LexOfStep(s: string, t: Token, n: nat)
    requires s != [] && LexStep(s) == Emit(t, n)
    ensures Lex(s) == Prepend([t], Lex(s[n..]))
  {
  }

  /** An identifier is one maximal run: it ends where the identifier characters end. */
  lemma LexIdentifier(w: string, rest: string)
    requires IsIdentifier(w)
    requires rest == [] || !IsIdentChar(rest[0])
    ensures Lex(w + rest) == Prepend([Identificador(w)], Lex(rest))
  {
    var s := w + rest;
    assert !IsWhitespace(w[0]);
    assert s[1..] == w[1..] + rest;
    IdentRunExact(w[1..], rest);
    assert s[..|w|] == w && s[|w|..] == rest;
    assert LexStep(s) == Emit(Identificador(w), |w|);
    LexOfStep(s, Identificador(w), |w|);
  }

  lemma NumberTailRun(d: string, rest: string)
    requires IsNumberText(d)
    requires rest == [] || (!IsDigit(rest[0]) && (rest[0] == '.' ==> '.' in d))
    ensures NumberRun(d[1..] + rest, false) == |d| - 1
  {
    var x := d[1..];
    assert forall k | 0 <= k < |x| :: x[k] == d[k + 1];
    assert rest != [] && rest[0] == '.' ==> '.' in x by {
      if rest != [] && rest[0] == '.' {
        var k :| 0 <= k < |d| && d[k] == '.';
        assert k > 0 && x[k - 1] == '.';
      }
    }
    NumberRunExact(x, rest, false);
  }

  lemma StepNumber(d: string, rest: string)
    requires d != [] && IsDigit(d[0])
    requires NumberRun(d[1..] + rest, false) == |d| - 1
    ensures LexStep(d + rest) == Emit(Numero(d), |d|)
  {
    var s := d + rest;
    assert s[0] == d[0] && !IsWhitespace(d[0]) && !IsIdentStart(d[0]);
    assert s[1..] == d[1..] + rest;
    assert s[..|d|] == d;
  }

  /** A number token is one maximal run of digits with at most one `.`. */
  lemma LexNumber(d: string, rest: string)
    requires IsNumberText(d)
    requires rest == [] || (!IsDigit(rest[0]) && (rest[0] == '.' ==> '.' in d))
    ensures Lex(d + rest) == Prepend([Numero(d)], Lex(rest))
  {
    NumberTailRun(d, rest);
    StepNumber(d, rest);
    assert (d + rest)[|d|..] == rest;
    LexOfStep(d + rest, Numero(d), |d|);
  }

  /** A string literal runs to the next `"`; its payload excludes both quotes. */
  lemma LexString(body: string, rest: string)
    requires '"' !in body
    ensures Lex(['"'] + body + ['"'] + rest) == Prepend([Cadena(body)], Lex(rest))
  {
    var s := ['"'] + body + ['"'] + rest;
    assert s[1..] == body + ['"'] + rest;
    FirstIndexAt(body, rest, '"');
    assert s[1..|body| + 1] == body;
    assert s[|body| + 2..] == rest;
    assert LexStep(s) == Emit(Cadena(body), |body| + 2);
    LexOfStep(s, Cadena(body), |body| + 2);
  }

  /** A `"` with no closing `"` is an error. */
  lemma LexUnclosedString(body: string)
    requires '"' !in body
    ensures Lex(['"'] + body) == Err(UnclosedString)
  {
    var s := ['"'] + body;
    assert s[1..] == body;
    FirstIndexAbsent(body, '"');
    assert LexStep(s) == Fail(UnclosedString);
  }

  /** The remaining characters: whitespace emits nothing, each of
      `+ - * / % = ( ) ; ,` emits one token, anything else is an error. */
  lemma LexSingleChar(c: char, rest: string)
    requires !IsIdentStart(c) && !IsDigit(c) && c != '"'
    ensures IsWhitespace(c) ==> Lex([c] + rest) == Lex(rest)
    ensures !IsWhitespace(c) && Punctuation(c).Some? ==>
      Lex([c] + rest) == Prepend([Punctuation(c).value], Lex(rest))
    ensures !IsWhitespace(c) && Punctuation(c).None? ==> Lex([c] + rest) == Err(UnrecognizedChar(c))
  {
    assert ([c] + rest)[1..] == rest;
  }

  lemma {:induction false} IdentRunPrefix(x: string, y: string)
    requires IdentRun(x) < |x| || y == [] || !IsIdentChar(y[0])
    ensures IdentRun(x + y) == IdentRun(x)
    decreases |x|
  {
    if x == [] {
      assert x + y == y;
    } else {
      assert (x + y)[1..] == x[1..] + y;
      if IsIdentChar(x[0]) {
        IdentRunPrefix(x[1..], y);
      }
    }
  }

  lemma {:induction false} NumberRunPrefix(x: string, y: string, dot: bool)
    requires NumberRun(x, dot) < |x| || y == [] || (!IsDigit(y[0]) && y[0] != '.')
    ensures NumberRun(x + y, dot) == NumberRun(x, dot)
    decreases |x|
  {
    if x == [] {
      assert x + y == y;
    } else {
      assert (x + y)[1..] == x[1..] + y;
      if IsDigit(x[0]) || (!dot && x[0] == '.') {
        NumberRunPrefix(x[1..], y, dot || x[0] == '.');
      }
    }
  }

  lemma FirstIndexPrefix(x: string, y: string, c: char)
    requires FirstIndex(x, c) < |x|
    ensures FirstIndex(x + y, c) == FirstIndex(x, c)
  {
    assert forall k | 0 <= k < |x| :: (x + y)[k] == x[k];
  }

  lemma WhitespaceSeparates(c: char)
    requires IsWhitespace(c)
    ensures !IsIdentChar(c) && !IsIdentStart(c) && !IsDigit(c) && c != '.' && c != '"'
  {
  }

  /** A step that succeeds on its own is the same step in front of text that
      starts with whitespace. */
  lemma StepAppend(a: string, b: string)
    requires a != [] && !LexStep(a).Fail?
    requires b == [] || IsWhitespace(b[0])
    ensures LexStep(a + b) == LexStep(a)
  {
    var s := a + b;
    assert s[0] == a[0];
    assert s[1..] == a[1..] + b;
    if b != [] {
      WhitespaceSeparates(b[0]);
    }
    var c := a[0];
    if IsWhitespace(c) {
    } else if IsIdentStart(c) {
      IdentRunPrefix(a[1..], b);
      var n := 1 + IdentRun(a[1..]);
      assert s[..n] == a[..n];
    } else if IsDigit(c) {
      NumberRunPrefix(a[1..], b, false);
      var n := 1 + NumberRun(a[1..], false);
      assert s[..n] == a[..n];
    } else if c == '"' {
      FirstIndexPrefix(a[1..], b, '"');
      var q := FirstIndex(a[1..], '"');
      assert s[1..q + 1] == a[1..q + 1];
    }
  }

  /** Tokens come out in source order: a fragment that lexes on its own lexes
      the same way in front of any text that starts with whitespace. */
  lemma {:induction false} LexAppend(a: string, b: string)
    requires Lex(a).Ok?
    requires b == [] || IsWhitespace(b[0])
    ensures Lex(a + b) == Prepend(Lex(a).value, Lex(b))
    decreases |a|
  {
    if a == [] {
      assert a + b == b;
      PrependEmpty(Lex(b));
    } else {
      var st := LexStep(a);
      StepAppend(a, b);
      var n := st.len;
      assert (a + b)[n..] == a[n..] + b;
      LexAppend(a[n..], b);
      if st.Emit? {
        PrependCompose([st.tok], Lex(a), Lex(a[n..]), Lex(a + b), Lex(a[n..] + b), Lex(b));
      }
    }
  }

  // ---------------------------------------------------------------------------
  // Properties of the line classifier
  // ---------------------------------------------------------------------------

  /** A print line yields `Imprimir` and the raw text between `imprimir(` and
      the first `)`; whatever follows that `)` is ignored. */
  lemma ClassifyPrint(arg: string, tail: string)
    requires ')' !in arg
    ensures ClassifyLine("imprimir(" + arg + [')'] + tail) == Ok([Token.Imprimir, Texto(arg)])
  {
    var l := "imprimir(" + arg + [')'] + tail;
    assert l[..9] == "imprimir(";
    assert l == "imprimir(" + arg + [')'] + tail;
    assert ')' !in "imprimir(" + arg by {
      assert forall k | 0 <= k < 9 :: l[k] != ')';
    }
    FirstIndexAt("imprimir(" + arg, tail, ')');
    assert l[9..9 + |arg|] == arg;
  }

  /** A print line without `)` is an error. */
  lemma ClassifyPrintUnclosed(arg: string)
    requires ')' !in arg
    ensures ClassifyLine("imprimir(" + arg) == Err(UnclosedPrint)
  {
    var l := "imprimir(" + arg;
    assert l[..9] == "imprimir(";
    assert ')' !in l by {
      assert forall k | 0 <= k < |l| :: l[k] == if k < 9 then "imprimir("[k] else arg[k - 9];
    }
    FirstIndexAbsent(l, ')');
  }

  lemma TrimCommentLine(code: string, tail: string)
    requires TrimStart(code) != []
    ensures Trim(code + ['#'] + tail) == TrimStart(code) + ['#'] + TrimEnd(tail)
  {
    var u := TrimStart(code);
    TrimStartAppend(code, ['#'] + tail);
    assert code + ['#'] + tail == code + (['#'] + tail);
    assert u + (['#'] + tail) == (u + ['#']) + tail;
    TrimEndAppend(u + ['#'], tail);
  }

  lemma StripCommentAt(u: string, v: string)
    requires '#' !in u
    ensures StripComment(u + ['#'] + v) == TrimEnd(u)
  {
    var t := u + ['#'] + v;
    FirstIndexAt(u, v, '#');
    assert t[..|u|] == u;
  }

  lemma StripCommentTail(code: string, tail: string)
    requires '#' !in code && Trim(code) != []
    ensures var t := Trim(code + ['#'] + tail);
      !StartsWith(t, "#/") && StripComment(t) == Trim(code)
  {
    var u := TrimStart(code);
    assert '#' !in u;
    TrimCommentLine(code, tail);
    StripCommentAt(u, TrimEnd(tail));
    var t := u + ['#'] + TrimEnd(tail);
    assert t[0] == u[0] && u[0] != '#';
    assert |t| >= 2 ==> t[..2][0] == u[0];
  }

  /** A line whose text before `#` is blank trims to `#` and the trimmed tail. */
  lemma BlankHashTrim(code: string, tail: string)
    requires TrimStart(code) == []
    ensures Trim(code + ['#'] + tail) == ['#'] + TrimEnd(tail)
  {
    TrimStartBlank(code, ['#'] + tail);
    assert code + ['#'] + tail == code + (['#'] + tail);
    assert TrimStart(['#'] + tail) == ['#'] + tail;
    TrimEndAppend(['#'], tail);
  }

  /** A trimmed line `#` + rest, whose rest does not start with `/`, does not
      open a multi-line comment and strips to nothing. */
  lemma HashLineStrip(tail: string)
    requires tail == [] || tail[0] != '/'
    ensures var t := ['#'] + TrimEnd(tail);
      !StartsWith(t, "#/") && StripComment(t) == []
  {
    var t := ['#'] + TrimEnd(tail);
    TrimEndSpec(tail);
    assert TrimEnd(tail) != [] ==> TrimEnd(tail)[0] == tail[0];
    assert |t| >= 2 ==> t[..2][1] == t[1];
    StripCommentAt([], TrimEnd(tail));
    assert [] + ['#'] + TrimEnd(tail) == t;
  }

  /** A line that is blank up to its `#`, and does not go on with `/`, is a
      comment line: it trims to `#` and the trimmed tail, and strips to nothing. */
  lemma BlankCommentTail(code: string, tail: string)
    requires '#' !in code && Trim(code) == []
    requires tail == [] || tail[0] != '/'
    ensures var t := Trim(code + ['#'] + tail);
      !StartsWith(t, "#/") && StripComment(t) == Trim(code)
  {
    TrimBlank(code);
    BlankHashTrim(code, tail);
    HashLineStrip(tail);
  }

  /** Outside a multi-line comment, everything from the first `#` of a line
      on is dropped: it never changes the tokens of the line. The one
      exception is a `#/` starting a blank line, which opens a multi-line
      comment. */
  lemma CommentTailIgnored(code: string, tail: string)
    requires '#' !in code && (Trim(code) != [] || tail == [] || tail[0] != '/')
    ensures LineTokens(code + ['#'] + tail, false) == LineTokens(code, false)
  {
    if Trim(code) == [] {
      BlankCommentTail(code, tail);
      return;
    }
    StripCommentTail(code, tail);
    NotInTrim(code, '#');
    var t := Trim(code);
    assert t[0] != '#';
    assert |t| >= 2 ==> t[..2][0] == t[0];
    assert StripComment(t) == t;
  }

  /** Whether a multi-line comment is open after `lines`, starting from `inComment`. */
  function CommentState(lines: seq<string>, inComment: bool): bool
    decreases |lines|
  {
    if lines == [] then inComment else CommentState(lines[1..], CommentAfter(lines[0], inComment))
  }

  /** A line starting with `#/` is skipped; it opens a multi-line comment
      unless it also ends with `#/` and is longer than `#/` itself. */
  lemma CommentOpener(lines: seq<string>)
    requires lines != [] && StartsWith(Trim(lines[0]), "#/")
    ensures var t := Trim(lines[0]);
      TokenizeLines(lines, false) ==
        TokenizeLines(lines[1..], !EndsWith(t, "#/") || |t| <= 2)
  {
    SkipLine(lines, false);
  }

  /** Inside a multi-line comment, every line up to and including the first
      one that ends with `#/` adds no token. */
  lemma {:induction false} CommentBlockSkipped(lines: seq<string>, k: nat)
    requires k < |lines| && EndsWith(Trim(lines[k]), "#/")
    requires forall line <- lines[..k] :: !EndsWith(Trim(line), "#/")
    ensures TokenizeLines(lines, true) == TokenizeLines(lines[k + 1..], false)
    decreases k
  {
    SkipLine(lines, true);
    if k > 0 {
      assert lines[1..][..k - 1] == lines[1..k];
      assert lines[0] in lines[..k];
      CommentBlockSkipped(lines[1..], k - 1);
      assert lines[1..][k..] == lines[k + 1..];
    }
  }

  /** A multi-line comment that is never closed swallows the rest of the
      input, and that is not an error. */
  lemma {:induction false} UnclosedCommentSkipped(lines: seq<string>)
    requires forall line <- lines :: !EndsWith(Trim(line), "#/")
    ensures TokenizeLines(lines, true) == Ok([])
    decreases |lines|
  {
    if lines != [] {
      SkipLine(lines, true);
      UnclosedCommentSkipped(lines[1..]);
    }
  }

  /** Tokens come out in line order: the tokens of `a + b` are those of `a`
      followed by those of `b`, read in the comment state `a` leaves. */
  lemma {:induction false} TokenizeLinesAppend(a: seq<string>, b: seq<string>, inComment: bool)
    requires TokenizeLines(a, inComment).Ok?
    ensures TokenizeLines(a + b, inComment) ==
      Prepend(TokenizeLines(a, inComment).value, TokenizeLines(b, CommentState(a, inComment)))
    decreases |a|
  {
    if a == [] {
      assert a + b == b;
      PrependEmpty(TokenizeLines(b, inComment));
    } else {
      var c := CommentAfter(a[0], inComment);
      assert (a + b)[0] == a[0] && (a + b)[1..] == a[1..] + b;
      var ts := LineTokens(a[0], inComment).value;
      TokenizeLinesAppend(a[1..], b, c);
      PrependCompose(ts, TokenizeLines(a, inComment), TokenizeLines(a[1..], c),
                     TokenizeLines(a + b, inComment), TokenizeLines(a[1..] + b, c),
                     TokenizeLines(b, CommentState(a, inComment)));
    }
  }

  /** Only a line that is exactly `iniciar</>` yields `Iniciar`, and then
      nothing else; only a line that is exactly `</>` yields `Fin`. Longer
      lines holding a marker do not match. */
  lemma ClassifyMarkers(l: string)
    ensures var r := ClassifyLine(l);
      && (r.Ok? ==> (Iniciar in r.value <==> l == "iniciar</>"))
      && (r.Ok? ==> (Fin in r.value <==> l == "</>"))
      && (l == "iniciar</>" ==> r == Ok([Iniciar]))
      && (l == "</>" ==> r == Ok([Fin]))
  {
    if l != [] && l != "iniciar</>" && l != "</>" && !StartsWith(l, "imprimir(") {
      if StartsWith(l, "var ") {
        LexWellFormed(l[4..]);
      } else if StartsWith(l, "mutar ") {
        LexWellFormed(l[6..]);
      }
    }
  }
}

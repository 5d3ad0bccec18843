/** The line classifier of the simplified pipeline (src/lexer.rs). Comments
    are handled as in the full pipeline (the same `CommentAfter` and
    `StripComment`), but markers match by prefix and a declaration line
    yields its keyword and the trimmed rest of the line as one `Texto`. */
module LegacyLexer {
  import opened Results
  import opened Text
  import opened LegacyAst
  import Lexer

  datatype LexError =
    | UnclosedPrint            // `imprimir(` without `)`
    | UnknownLine(line: string)

  /** The tokens of one line outside a multi-line comment, once it has been
      trimmed and its `#` tail removed. */
  function ClassifyLine(l: string): (r: Result<seq<Token>, LexError>)
    ensures (&& l != [] && !StartsWith(l, "iniciar</>") && !StartsWith(l, "</>")
             && !StartsWith(l, "mutar ") && !StartsWith(l, "var ") && !StartsWith(l, "imprimir("))
            ==> r == Err(UnknownLine(l))
    ensures l == [] ==> r == Ok([])
  {
    if l == [] then Ok([])
    else if StartsWith(l, "iniciar</>") then Ok([Iniciar])
    else if StartsWith(l, "</>") then Ok([Fin])
    else if StartsWith(l, "mutar ") then Ok([Token.Mutar, Texto(Trim(l[6..]))])
    else if StartsWith(l, "var ") then Ok([Token.Var, Texto(Trim(l[4..]))])
    else if StartsWith(l, "imprimir(") then PrintTokens(l)
    else Err(UnknownLine(l))
  }

  /** `imprimir(`: the text up to the first `)`, which must be there. */
  function PrintTokens(l: string): Result<seq<Token>, LexError>
    requires StartsWith(l, "imprimir(")
  {
    var f := FirstIndex(l, ')');
    if f < |l| then Ok([Token.Imprimir, Texto(l[9..f])]) else Err(UnclosedPrint)
  }

  /** The tokens of one raw line, given whether a multi-line comment is open. */
  function LineTokens(line: string, inComment: bool): Result<seq<Token>, LexError>
  {
    var t := Trim(line);
    if inComment || StartsWith(t, "#/") then Ok([])
    else ClassifyLine(Lexer.StripComment(t))
  }

  /** `tokenize` from line `lines[0]` on, with the comment state `inComment`. */
  function TokenizeLines(lines: seq<string>, inComment: bool): Result<seq<Token>, LexError>
    decreases |lines|
  {
    if lines == [] then Ok([])
    else
      match LineTokens(lines[0], inComment)
      case Err(e) => Err(e)
      case Ok(ts) => Prepend(ts, TokenizeLines(lines[1..], Lexer.CommentAfter(lines[0], inComment)))
  }

  lemma SkipLine(lines: seq<string>, inComment: bool)
    requires lines != [] && (inComment || StartsWith(Trim(lines[0]), "#/"))
    ensures TokenizeLines(lines, inComment) == TokenizeLines(lines[1..], Lexer.CommentAfter(lines[0], inComment))
  {
    PrependEmpty(TokenizeLines(lines[1..], Lexer.CommentAfter(lines[0], inComment)));
  }

  lemma CommentLineAt(lines: seq<string>, i: nat, inComment: bool)
    requires i < |lines|
    requires inComment || StartsWith(Trim(lines[i]), "#/")
    ensures TokenizeLines(lines[i..], inComment) == TokenizeLines(lines[i + 1..], Lexer.CommentAfter(lines[i], inComment))
  {
    assert lines[i..][0] == lines[i] && lines[i..][1..] == lines[i + 1..];
    SkipLine(lines[i..], inComment);
  }

  lemma CodeLineAt(lines: seq<string>, i: nat)
    requires i < |lines|
    requires !StartsWith(Trim(lines[i]), "#/")
    ensures TokenizeLines(lines[i..], false) ==
      match ClassifyLine(Lexer.StripComment(Trim(lines[i])))
      case Err(e) => Err(e)
      case Ok(ts) => Prepend(ts, TokenizeLines(lines[i + 1..], false))
  {
    assert lines[i..][0] == lines[i] && lines[i..][1..] == lines[i + 1..];
  }

  /** `tokenize`: the tokens of a whole source text, given as its lines. */
  method Tokenize(lines: seq<string>) returns (r: Result<seq<Token>, LexError>)
    ensures r == TokenizeLines(lines, false)
  {
    var tokens: seq<Token> := [];
    var inMultilineComment := false;
    var i := 0;
    assert lines[i..] == lines;
    PrependEmpty(TokenizeLines(lines, false));
    while i < |lines|
      invariant 0 <= i <= |lines|
      invariant TokenizeLines(lines, false) == Prepend(tokens, TokenizeLines(lines[i..], inMultilineComment))
      decreases |lines| - i
    {
      var line := Trim(lines[i]);
      if inMultilineComment {
        CommentLineAt(lines, i, inMultilineComment);
        if EndsWith(line, "#/") {
          inMultilineComment := false;
        }
        i := i + 1;
        continue;
      } else if StartsWith(line, "#/") {
        CommentLineAt(lines, i, inMultilineComment);
        if !EndsWith(line, "#/") || |line| <= 2 {
          inMultilineComment := true;
        }
        i := i + 1;
        continue;
      }
      CodeLineAt(lines, i);
      line := Lexer.StripComment(line);
      var step := TokenizeLine(line, tokens);
      if step.Err? {
        return step;
      }
      PrependAssoc(tokens, ClassifyLine(line).value, TokenizeLines(lines[i + 1..], false));
      tokens := step.value;
      i := i + 1;
    }
    assert lines[i..] == [];
    assert tokens + [] == tokens;
    r := Ok(tokens);
  }

  /** The classification step of the loop of `tokenize`. */
  method TokenizeLine(line: string, tokens: seq<Token>) returns (r: Result<seq<Token>, LexError>)
    ensures r == Prepend(tokens, ClassifyLine(line))
  {
    if line == [] {
      return Ok(tokens + []);
    }
    if StartsWith(line, "iniciar</>") {
      return Ok(tokens + [Iniciar]);
    }
    if StartsWith(line, "</>") {
      return Ok(tokens + [Fin]);
    }
    if StartsWith(line, "mutar ") {
      var resto := Trim(line[6..]);
      return Ok(tokens + [Token.Mutar, Texto(resto)]);
    }
    if StartsWith(line, "var ") {
      var resto := Trim(line[4..]);
      return Ok(tokens + [Token.Var, Texto(resto)]);
    }
    if StartsWith(line, "imprimir(") {
      var fin := FirstIndex(line, ')');
      if fin < |line| {
        return Ok(tokens + [Token.Imprimir, Texto(line[9..fin])]);
      }
      return Err(UnclosedPrint);
    }
    return Err(UnknownLine(line));
  }

  // ---------------------------------------------------------------------------
  // Properties
  // ---------------------------------------------------------------------------

  /** Markers match by prefix: any line that starts with `iniciar</>` yields
      `Iniciar` alone, whatever follows, and likewise `</>` yields `Fin`. */
  lemma MarkerPrefix(marker: string, rest: string)
    requires marker == "iniciar</>" || marker == "</>"
    ensures ClassifyLine(marker + rest) == Ok([if marker == "</>" then Fin else Iniciar])
  {
    var l := marker + rest;
    assert l[..|marker|] == marker;
    if marker == "</>" {
      assert l[0] == '<';
    }
  }

  /** The full pipeline's lexer, by contrast, rejects a marker followed by
      more text. */
  lemma MarkerPrefixDiffers()
    ensures ClassifyLine("</> x") == Ok([Fin])
    ensures Lexer.ClassifyLine("</> x").Err?
  {
    MarkerPrefix("</>", " x");
    var l := "</> x";
    assert l != "iniciar</>" && l != "</>";
    assert l[0] == '<';
    assert !StartsWith(l, "imprimir(") && !StartsWith(l, "var ") && !StartsWith(l, "mutar ") by {
      assert l[..4][0] == '<' && l[..5][0] == '<';
    }
  }

  /** A `var` or `mutar` line yields its keyword and one `Texto` holding the
      rest of the line, trimmed. */
  lemma DeclarationLine(keyword: string, rest: string)
    requires keyword == "var " || keyword == "mutar "
    ensures var r := ClassifyLine(keyword + rest);
      && r.Ok? && |r.value| == 2
      && r.value[0] == (if keyword == "var " then Token.Var else Token.Mutar)
      && r.value[1] == Texto(Trim(rest))
      && Trimmed(r.value[1].text)
  {
    var l := keyword + rest;
    assert l[..|keyword|] == keyword;
    assert l[|keyword|..] == rest;
    assert l[0] == keyword[0];
    assert |l| >= 10 ==> l[..10][0] == l[0];
    assert |l| >= 3 ==> l[..3][0] == l[0];
    if keyword == "var " {
      assert |l| >= 6 ==> l[..6][0] == l[0];
    }
    TrimIsTrimmed(rest);
  }

  /** A line starting with `imprimir(` reaches the print branch. */
  lemma PrintBranch(l: string)
    requires StartsWith(l, "imprimir(")
    ensures ClassifyLine(l) == PrintTokens(l)
  {
    assert l[0] == 'i' && l[1] == 'm';
    assert !StartsWith(l, "iniciar</>") by {
      if |l| >= 10 {
        assert l[..10][1] == 'm';
      }
    }
    assert !StartsWith(l, "</>") by {
      assert l[..3][0] == 'i' && "</>"[0] == '<';
    }
    assert !StartsWith(l, "mutar ") by {
      assert l[..6][0] == 'i' && "mutar "[0] == 'm';
    }
    assert !StartsWith(l, "var ") by {
      assert l[..4][0] == 'i' && "var "[0] == 'v';
    }
  }

  /** A print line yields `Imprimir` and the raw text up to the first `)`. */
  lemma PrintLineTokens(arg: string, tail: string)
    requires ')' !in arg
    ensures ClassifyLine("imprimir(" + arg + [')'] + tail) == Ok([Token.Imprimir, Texto(arg)])
  {
    var l := "imprimir(" + arg + [')'] + tail;
    assert l[..9] == "imprimir(";
    PrintBranch(l);
    assert ')' !in "imprimir(" + arg by {
      assert forall k | 0 <= k < 9 :: l[k] != ')';
    }
    FirstIndexAt("imprimir(" + arg, tail, ')');
    assert l[9..9 + |arg|] == arg;
  }

  /** A print line without `)` is an error. */
  lemma PrintLineUnclosed(arg: string)
    requires ')' !in arg
    ensures ClassifyLine("imprimir(" + arg) == Err(UnclosedPrint)
  {
    var l := "imprimir(" + arg;
    assert l[..9] == "imprimir(";
    PrintBranch(l);
    assert ')' !in l by {
      assert forall k | 0 <= k < |l| :: l[k] == if k < 9 then "imprimir("[k] else arg[k - 9];
    }
    FirstIndexAbsent(l, ')');
  }

  /** Outside a multi-line comment, everything from the first `#` on is
      dropped, except a `#/` starting a blank line, which opens a multi-line
      comment. */
  lemma CommentTailIgnored(code: string, tail: string)
    requires '#' !in code && (Trim(code) != [] || tail == [] || tail[0] != '/')
    ensures LineTokens(code + ['#'] + tail, false) == LineTokens(code, false)
  {
    if Trim(code) == [] {
      Lexer.BlankCommentTail(code, tail);
      return;
    }
    Lexer.StripCommentTail(code, tail);
    NotInTrim(code, '#');
    var t := Trim(code);
    assert t[0] != '#';
    assert |t| >= 2 ==> t[..2][0] == t[0];
    assert Lexer.StripComment(t) == t;
  }

  // The two comment lemmas below mirror the full lexer's: both lexers skip
  // multi-line comments with the same code.

  /** Inside a multi-line comment, every line up to and including the first
      one that ends with `#/` adds no token. */
  lemma {:induction false} CommentBlockSkipped(lines: seq<string>, k: nat)
    requires k < |lines| && EndsWith(Trim(lines[k]), "#/")
    requires forall line <- lines[..k] :: !EndsWith(Trim(line), "#/")
    ensures TokenizeLines(lines, true) == TokenizeLines(lines[k + 1..], false)
    decreases k
  {
    SkipLine(lines, true);
    if k > 0 {
      assert lines[1..][..k - 1] == lines[1..k];
      assert lines[0] in lines[..k];
      CommentBlockSkipped(lines[1..], k - 1);
      assert lines[1..][k..] == lines[k + 1..];
    }
  }

  /** An unclosed multi-line comment swallows the rest of the input. */
  lemma {:induction false} UnclosedCommentSkipped(lines: seq<string>)
    requires forall line <- lines :: !EndsWith(Trim(line), "#/")
    ensures TokenizeLines(lines, true) == Ok([])
    decreases |lines|
  {
    if lines != [] {
      SkipLine(lines, true);
      UnclosedCommentSkipped(lines[1..]);
    }
  }

  /** Tokens come out in line order. */
  lemma {:induction false} TokenizeLinesAppend(a: seq<string>, b: seq<string>, inComment: bool)
    requires TokenizeLines(a, inComment).Ok?
    ensures TokenizeLines(a + b, inComment) ==
      Prepend(TokenizeLines(a, inComment).value, TokenizeLines(b, Lexer.CommentState(a, inComment)))
    decreases |a|
  {
    if a == [] {
      assert a + b == b;
      PrependEmpty(TokenizeLines(b, inComment));
    } else {
      var c := Lexer.CommentAfter(a[0], inComment);
      assert (a + b)[0] == a[0] && (a + b)[1..] == a[1..] + b;
      var ts := LineTokens(a[0], inComment).value;
      TokenizeLinesAppend(a[1..], b, c);
      PrependCompose(ts, TokenizeLines(a, inComment), TokenizeLines(a[1..], c),
                     TokenizeLines(a + b, inComment), TokenizeLines(a[1..] + b, c),
                     TokenizeLines(b, Lexer.CommentState(a, inComment)));
    }
  }

  /** Every keyword is immediately followed by a `Texto`, and every `Texto`
      immediately follows a keyword. */
  predicate Paired(ts: seq<Token>)
  {
    && (forall k | 0 <= k < |ts| && IsKeyword(ts[k]) :: k + 1 < |ts| && ts[k + 1].Texto?)
    && (forall k | 0 <= k < |ts| && ts[k].Texto? :: 0 < k && IsKeyword(ts[k - 1]))
  }

  lemma PairedAppend(a: seq<Token>, b: seq<Token>)
    requires Paired(a) && Paired(b)
    ensures Paired(a + b)
  {
    var ab := a + b;
    forall k | 0 <= k < |ab| && IsKeyword(ab[k])
      ensures k + 1 < |ab| && ab[k + 1].Texto?
    {
      if k < |a| {
        assert IsKeyword(a[k]);
      } else {
        assert b[k - |a|] == ab[k];
      }
    }
    forall k | 0 <= k < |ab| && ab[k].Texto?
      ensures 0 < k && IsKeyword(ab[k - 1])
    {
      if k < |a| {
        assert a[k].Texto?;
      } else {
        assert b[k - |a|].Texto?;
        assert k - |a| > 0;
        assert b[k - |a| - 1] == ab[k - 1];
      }
    }
  }

  lemma ClassifyPaired(l: string)
    ensures ClassifyLine(l).Ok? ==> Paired(ClassifyLine(l).value)
  {
    var r := ClassifyLine(l);
    if r.Ok? && |r.value| == 2 {
      assert IsKeyword(r.value[0]) && r.value[1].Texto?;
    }
  }

  lemma LinePaired(line: string, inComment: bool)
    ensures LineTokens(line, inComment).Ok? ==> Paired(LineTokens(line, inComment).value)
  {
    var t := Trim(line);
    if !(inComment || StartsWith(t, "#/")) {
      ClassifyPaired(Lexer.StripComment(t));
    }
  }

  /** The token stream the lexer produces is always paired, so the parser's
      "keyword without text" errors cannot come from a lexed program. */
  lemma {:induction false} TokenizePaired(lines: seq<string>, inComment: bool)
    ensures TokenizeLines(lines, inComment).Ok? ==> Paired(TokenizeLines(lines, inComment).value)
    decreases |lines|
  {
    if lines != [] {
      LinePaired(lines[0], inComment);
      var c := Lexer.CommentAfter(lines[0], inComment);
      TokenizePaired(lines[1..], c);
      if TokenizeLines(lines, inComment).Ok? {
        PairedAppend(LineTokens(lines[0], inComment).value, TokenizeLines(lines[1..], c).value);
      }
    }
  }
}

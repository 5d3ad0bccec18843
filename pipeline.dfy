/** The composition of `main` (src/main.rs): lexer, parser and interpreter in
    turn, the first lexer or parser error ending the program before anything
    runs; and what the composition guarantees for each pipeline. */
module Pipeline {
  import opened Results
  import opened Values
  import opened LegacyAst
  import LegacyLexer
  import LegacyParser
  import LegacyInterpreter
  import Ast
  import Parser
  import Interpreter
  import ParserProperties

  /** How a run of `main` on a source file ends. */
  datatype Outcome =
    | LexFailed(lexError: LegacyLexer.LexError)
    | ParseFailed(parseError: LegacyParser.ParseError)
    | Ran(execution: LegacyInterpreter.Execution)

  /** `main` on the lines of a source file. */
  function Program(lines: seq<string>, fo: FloatOps): Outcome
  {
    match LegacyLexer.TokenizeLines(lines, false)
    case Err(e) => LexFailed(e)
    case Ok(toks) =>
      match LegacyParser.ParseFrom(toks, 0, false, false, false, fo)
      case Err(e) => ParseFailed(e)
      case Ok(insts) => Ran(LegacyInterpreter.ExecAll(LegacyInterpreter.Initial, insts, fo))
  }

  /** `main` after the file has been read: each stage is run only on the
      successful result of the one before. */
  method RunFile(lines: seq<string>, fo: FloatOps) returns (r: Outcome)
    ensures r == Program(lines, fo)
  {
    var tokens := LegacyLexer.Tokenize(lines);
    if tokens.Err? {
      return LexFailed(tokens.error);
    }
    var ast := LegacyParser.Parse(tokens.value, fo);
    if ast.Err? {
      return ParseFailed(ast.error);
    }
    var e := LegacyInterpreter.Run(ast.value, fo);
    return Ran(e);
  }

  // ---------------------------------------------------------------------------
  // The simplified pipeline: errors the parser cannot meet
  // ---------------------------------------------------------------------------

  /** The parser errors about a keyword that is not followed by its text, or
      a text that follows no keyword. */
  predicate ShapeError(e: LegacyParser.ParseError)
  {
    || e.MissingVarContent? || e.VarWithoutText?
    || e.MissingMutarContent? || e.MutarWithoutText?
    || e.MissingPrintContent? || e.PrintWithoutText?
    || e.UnexpectedToken?
  }

  /** The result of a scan that did not fail on a shape error. */
  predicate NoShapeError(r: Result<seq<Instruccion>, LegacyParser.ParseError>)
  {
    r.Err? ==> !ShapeError(r.error)
  }

  /** The errors of a declaration's text are never shape errors. */
  lemma DeclarationErrors(texto: string, fo: FloatOps)
    ensures LegacyParser.ParseVar(texto, fo).Err? ==> !ShapeError(LegacyParser.ParseVar(texto, fo).error)
    ensures LegacyParser.ParseMutar(texto, fo).Err? ==> !ShapeError(LegacyParser.ParseMutar(texto, fo).error)
  {
    SplitErrors(texto);
    if LegacyParser.SplitDeclaration(texto).Ok? {
      ValorErrors(LegacyParser.SplitDeclaration(texto).value.1, fo);
    }
  }

  lemma SplitErrors(texto: string)
    ensures LegacyParser.SplitDeclaration(texto).Err? ==> !ShapeError(LegacyParser.SplitDeclaration(texto).error)
  {
  }

  lemma ValorErrors(texto: string, fo: FloatOps)
    ensures LegacyParser.ParseValor(texto, fo).Err? ==> !ShapeError(LegacyParser.ParseValor(texto, fo).error)
  {
  }

  /** An instruction followed by the rest fails with the instruction's error
      or with the rest's. */
  lemma ThenError(inst: Result<Instruccion, LegacyParser.ParseError>, toks: seq<Token>, next: nat,
                  dentro: bool, inicio: bool, fin: bool, fo: FloatOps)
    requires 0 < next <= |toks|
    ensures var r := LegacyParser.Then(inst, toks, next, dentro, inicio, fin, fo);
      var rest := LegacyParser.ParseFrom(toks, next, dentro, inicio, fin, fo);
      r.Err? ==> ((inst.Err? && r.error == inst.error) || (rest.Err? && r.error == rest.error))
  {
  }

  /** One step of the scan from a token that is not a text, where a keyword
      is followed by its text: a shape error can only come from the rest. */
  lemma ScanStep(toks: seq<Token>, i: nat, dentro: bool, inicio: bool, fin: bool, fo: FloatOps)
    requires i < |toks| && !toks[i].Texto?
    requires IsKeyword(toks[i]) ==> i + 1 < |toks| && toks[i + 1].Texto?
    requires toks[i].Iniciar? && !inicio ==> NoShapeError(LegacyParser.ParseFrom(toks, i + 1, true, true, fin, fo))
    requires toks[i].Fin? && inicio && !fin ==> NoShapeError(LegacyParser.ParseFrom(toks, i + 1, false, inicio, true, fo))
    requires IsKeyword(toks[i]) ==> NoShapeError(LegacyParser.ParseFrom(toks, i + 2, dentro, inicio, fin, fo))
    ensures NoShapeError(LegacyParser.ParseFrom(toks, i, dentro, inicio, fin, fo))
  {
    match toks[i] {
      case Iniciar =>
      case Fin =>
      case Var =>
        DeclarationErrors(toks[i + 1].text, fo);
        ThenError(LegacyParser.ParseVar(toks[i + 1].text, fo), toks, i + 2, dentro, inicio, fin, fo);
      case Mutar =>
        DeclarationErrors(toks[i + 1].text, fo);
        ThenError(LegacyParser.ParseMutar(toks[i + 1].text, fo), toks, i + 2, dentro, inicio, fin, fo);
      case Imprimir =>
        ThenError(Ok(Instruccion.Imprimir(toks[i + 1].text)), toks, i + 2, dentro, inicio, fin, fo);
    }
  }

  /** The token list from `i` on, read as the parser steps through it:
      markers one at a time, a keyword together with the text after it. */
  predicate PairedFrom(toks: seq<Token>, i: nat)
    requires i <= |toks|
    decreases |toks| - i
  {
    i == |toks| ||
      (!toks[i].Texto? &&
        if IsKeyword(toks[i]) then i + 1 < |toks| && toks[i + 1].Texto? && PairedFrom(toks, i + 2)
        else PairedFrom(toks, i + 1))
  }

  /** A paired list read from a position that does not follow a keyword. */
  lemma {:induction false} PairedSteps(toks: seq<Token>, i: nat)
    requires LegacyLexer.Paired(toks)
    requires i <= |toks| && (i == 0 || !IsKeyword(toks[i - 1]))
    ensures PairedFrom(toks, i)
    decreases |toks| - i
  {
    if i < |toks| {
      assert !toks[i].Texto?;
      if IsKeyword(toks[i]) {
        assert i + 1 < |toks| && toks[i + 1].Texto?;
        PairedSteps(toks, i + 2);
      } else {
        PairedSteps(toks, i + 1);
      }
    }
  }

  /** The parser never reports a shape error on a list read this way. */
  lemma {:induction false} PairedParse(toks: seq<Token>, i: nat, dentro: bool, inicio: bool, fin: bool, fo: FloatOps)
    requires i <= |toks| && PairedFrom(toks, i)
    ensures NoShapeError(LegacyParser.ParseFrom(toks, i, dentro, inicio, fin, fo))
    decreases |toks| - i
  {
    if i < |toks| {
      if IsKeyword(toks[i]) {
        PairedParse(toks, i + 2, dentro, inicio, fin, fo);
      } else if toks[i].Iniciar? {
        PairedParse(toks, i + 1, true, true, fin, fo);
      } else {
        PairedParse(toks, i + 1, false, inicio, true, fo);
      }
      ScanStep(toks, i, dentro, inicio, fin, fo);
    }
  }

  /** A program the lexer accepts fails in the parser only on the block
      markers, a print outside the block, or a malformed declaration: never
      on a keyword without its text. */
  lemma NoShapeErrors(lines: seq<string>, fo: FloatOps)
    ensures Program(lines, fo).ParseFailed? ==> !ShapeError(Program(lines, fo).parseError)
  {
    LegacyLexer.TokenizePaired(lines, false);
    if LegacyLexer.TokenizeLines(lines, false).Ok? {
      PairedSteps(LegacyLexer.TokenizeLines(lines, false).value, 0);
      PairedParse(LegacyLexer.TokenizeLines(lines, false).value, 0, false, false, false, fo);
    }
  }

  // ---------------------------------------------------------------------------
  // The full pipeline: no declaration is ever refused
  // ---------------------------------------------------------------------------

  /** Every declaration the full parser accepts is `mutar`, so running an
      accepted program never refuses a declaration: each report it makes is
      an evaluation error. */
  lemma ParsedNeverRefused(toks: seq<Ast.Token>, fo: FloatOps)
    ensures var p := Parser.ParseFrom(toks, 0, false, false, false, fo);
      p.Ok? ==>
        var f := Interpreter.ExecAll(Interpreter.Initial, p.value, fo).state;
        forall k | 0 <= k < |f.reports| :: f.reports[k].EvalFailed?
  {
    ParserProperties.ParseNeverVar(toks, 0, false, false, false, fo);
    var p := Parser.ParseFrom(toks, 0, false, false, false, fo);
    if p.Ok? {
      Interpreter.NoVarNeverRefused(Interpreter.Initial, p.value, fo);
    }
  }
}

/** The parser of the simplified pipeline (src/parser.rs): a scan over the
    tokens with three block flags, in which only `imprimir` is checked
    against the block, and declarations `name = value;` whose value is a
    single literal. */
module LegacyParser {
  import opened Results
  import opened Text
  import opened Values
  import opened LegacyAst

  datatype ParseError =
    | DuplicateIniciar
    | FinWithoutIniciar
    | DuplicateFin
    | MissingVarContent        // `var` is the last token
    | VarWithoutText           // `var` not followed by `Texto`
    | MissingMutarContent
    | MutarWithoutText
    | ImprimirOutsideBlock
    | MissingPrintContent
    | PrintWithoutText
    | UnexpectedToken
    | MissingIniciar
    | MissingFin
    | MissingSemicolon(text: string)   // the declaration does not end with `;`
    | BadDeclaration(text: string)     // not exactly one `=`
    | CharLength(text: string)         // `'...'` holding other than one character
    | UnknownValue(text: string)
    | Crash(p: Panic)                  // a panic, not an `Err`: `&t[1..t.len()-1]` on a lone quote

  // ---------------------------------------------------------------------------
  // Values and declarations
  // ---------------------------------------------------------------------------

  /** `parse_valor`: a double-quoted string, a single-quoted character, an
      `i64`, an `f64`, tried in that order on the trimmed text. A text that
      is one quote character starts and ends with it, and slicing out its
      inside panics. */
  function ParseValor(texto: string, fo: FloatOps): Result<Valor, ParseError>
  {
    var t := Trim(texto);
    if StartsWith(t, "\"") && EndsWith(t, "\"") then
      if |t| < 2 then Err(Crash(SliceOutOfRange)) else Ok(String(t[1..|t| - 1]))
    else if StartsWith(t, "'") && EndsWith(t, "'") then
      if |t| < 2 then Err(Crash(SliceOutOfRange))
      else if |t| != 3 then Err(CharLength(t))
      else Ok(Char(t[1]))
    else
      match ParseI64(t)
      case Some(i) => Ok(Int(i))
      case None =>
        match fo.parse(t)
        case Some(f) => Ok(Float(f))
        case None => Err(UnknownValue(t))
  }

  /** The name and the value text of a declaration: the trimmed text must
      end with `;`, and what precedes the `;` must split on `=` into exactly
      two parts, each then trimmed. */
  function SplitDeclaration(texto: string): Result<(string, string), ParseError>
  {
    var t := Trim(texto);
    if !EndsWith(t, ";") then Err(MissingSemicolon(t))
    else
      var body := t[..|t| - 1];
      var parts := Split(body, '=');
      if |parts| != 2 then Err(BadDeclaration(body))
      else Ok((Trim(parts[0]), Trim(parts[1])))
  }

  /** `parse_var`. */
  function ParseVar(texto: string, fo: FloatOps): Result<Instruccion, ParseError>
  {
    match SplitDeclaration(texto)
    case Err(e) => Err(e)
    case Ok((nombre, valor)) =>
      match ParseValor(valor, fo)
      case Err(e) => Err(e)
      case Ok(v) => Ok(Instruccion.Var(nombre, v))
  }

  /** `parse_mutar`. */
  function ParseMutar(texto: string, fo: FloatOps): Result<Instruccion, ParseError>
  {
    match SplitDeclaration(texto)
    case Err(e) => Err(e)
    case Ok((nombre, valor)) =>
      match ParseValor(valor, fo)
      case Err(e) => Err(e)
      case Ok(v) => Ok(Instruccion.Mutar(nombre, v))
  }

  // ---------------------------------------------------------------------------
  // The token scan (parse)
  // ---------------------------------------------------------------------------

  /** `parse` from token `i` on, with the flags `dentro_bloque`,
      `inicio_encontrado` and `fin_encontrado`. */
  function ParseFrom(toks: seq<Token>, i: nat, dentro: bool, inicio: bool, fin: bool, fo: FloatOps)
    : Result<seq<Instruccion>, ParseError>
    requires i <= |toks|
    decreases |toks| - i
  {
    if i == |toks| then
      if !inicio then Err(MissingIniciar)
      else if !fin then Err(MissingFin)
      else Ok([])
    else
      match toks[i]
      case Iniciar =>
        if inicio then Err(DuplicateIniciar)
        else ParseFrom(toks, i + 1, true, true, fin, fo)
      case Fin =>
        if !inicio then Err(FinWithoutIniciar)
        else if fin then Err(DuplicateFin)
        else ParseFrom(toks, i + 1, false, inicio, true, fo)
      case Var =>
        if i + 1 == |toks| then Err(MissingVarContent)
        else if !toks[i + 1].Texto? then Err(VarWithoutText)
        else Then(ParseVar(toks[i + 1].text, fo), toks, i + 2, dentro, inicio, fin, fo)
      case Mutar =>
        if i + 1 == |toks| then Err(MissingMutarContent)
        else if !toks[i + 1].Texto? then Err(MutarWithoutText)
        else Then(ParseMutar(toks[i + 1].text, fo), toks, i + 2, dentro, inicio, fin, fo)
      case Imprimir =>
        if !dentro then Err(ImprimirOutsideBlock)
        else if i + 1 == |toks| then Err(MissingPrintContent)
        else if !toks[i + 1].Texto? then Err(PrintWithoutText)
        else Then(Ok(Instruccion.Imprimir(toks[i + 1].text)), toks, i + 2, dentro, inicio, fin, fo)
      case Texto(_) => Err(UnexpectedToken)
  }

  /** An instruction (or its error), then the rest from `next` on. */
  function Then(inst: Result<Instruccion, ParseError>, toks: seq<Token>, next: nat,
                dentro: bool, inicio: bool, fin: bool, fo: FloatOps): Result<seq<Instruccion>, ParseError>
    requires 0 < next <= |toks|
    decreases |toks| - next + 1, 0
  {
    match inst
    case Err(e) => Err(e)
    case Ok(x) => Prepend([x], ParseFrom(toks, next, dentro, inicio, fin, fo))
  }

  /** `parse`: the instructions of a token list, or the first error. */
  method Parse(toks: seq<Token>, fo: FloatOps) returns (r: Result<seq<Instruccion>, ParseError>)
    ensures r == ParseFrom(toks, 0, false, false, false, fo)
  {
    var instrucciones: seq<Instruccion> := [];
    var dentroBloque := false;
    var inicioEncontrado := false;
    var finEncontrado := false;
    var i := 0;
    PrependEmpty(ParseFrom(toks, 0, false, false, false, fo));
    while i < |toks|
      invariant 0 <= i <= |toks|
      invariant ParseFrom(toks, 0, false, false, false, fo)
        == Prepend(instrucciones, ParseFrom(toks, i, dentroBloque, inicioEncontrado, finEncontrado, fo))
      decreases |toks| - i
    {
      match toks[i] {
        case Iniciar =>
          if inicioEncontrado {
            return Err(DuplicateIniciar);
          }
          inicioEncontrado := true;
          dentroBloque := true;
          i := i + 1;
        case Fin =>
          if !inicioEncontrado {
            return Err(FinWithoutIniciar);
          }
          if finEncontrado {
            return Err(DuplicateFin);
          }
          finEncontrado := true;
          dentroBloque := false;
          i := i + 1;
        case Var =>
          if i + 1 >= |toks| {
            return Err(MissingVarContent);
          }
          if !toks[i + 1].Texto? {
            return Err(VarWithoutText);
          }
          var inst := ParseVar(toks[i + 1].text, fo);
          if inst.Err? {
            return Err(inst.error);
          }
          PrependAssoc(instrucciones, [inst.value], ParseFrom(toks, i + 2, dentroBloque, inicioEncontrado, finEncontrado, fo));
          instrucciones := instrucciones + [inst.value];
          i := i + 2;
        case Mutar =>
          if i + 1 >= |toks| {
            return Err(MissingMutarContent);
          }
          if !toks[i + 1].Texto? {
            return Err(MutarWithoutText);
          }
          var inst := ParseMutar(toks[i + 1].text, fo);
          if inst.Err? {
            return Err(inst.error);
          }
          PrependAssoc(instrucciones, [inst.value], ParseFrom(toks, i + 2, dentroBloque, inicioEncontrado, finEncontrado, fo));
          instrucciones := instrucciones + [inst.value];
          i := i + 2;
        case Imprimir =>
          if !dentroBloque {
            return Err(ImprimirOutsideBlock);
          }
          if i + 1 >= |toks| {
            return Err(MissingPrintContent);
          }
          if !toks[i + 1].Texto? {
            return Err(PrintWithoutText);
          }
          var inst := Instruccion.Imprimir(toks[i + 1].text);
          PrependAssoc(instrucciones, [inst], ParseFrom(toks, i + 2, dentroBloque, inicioEncontrado, finEncontrado, fo));
          instrucciones := instrucciones + [inst];
          i := i + 2;
        case Texto(_) =>
          return Err(UnexpectedToken);
      }
    }
    if !inicioEncontrado {
      return Err(MissingIniciar);
    }
    if !finEncontrado {
      return Err(MissingFin);
    }
    assert instrucciones + [] == instrucciones;
    return Ok(instrucciones);
  }
}

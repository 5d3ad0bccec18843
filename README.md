# roulang in Dafny

roulang is a small Spanish-keyword scripting language. A program is one block:
`iniciar</>` first and `</>` last. Inside it, `var` declares an immutable
variable, `mutar` declares or updates a mutable one, and `imprimir(...)` prints
a text. A quoted text may interpolate `{name}`. The repository holds two
versions of the lexer → parser → interpreter pipeline, and this project models
both.

- **The full pipeline (`roulang/src/`).**
  - A line-oriented lexer with `#` and `#/ … #/` comments.
  - A character-level tokenizer for the expressions of `var` and `mutar` lines.
  - A block-checking parser with precedence climbing for `+ - * / %`.
  - A tree-walking evaluator with typed operators and the `var`/`mutar`
    mutability rules.
- **The simplified pipeline (`src/`), which `src/main.rs` runs.**
  - The lexer keeps the raw remainder of a declaration line.
  - The parser splits `name = value;` on `=` and reads one literal.
  - The interpreter stores that literal.

The two pipelines share the value type, its rendering, the `i64` parser, the
environment (two maps with the same names) and `imprimir` with its
interpolation.

Every loop of the source is a `method` with a `while` or `for` loop. Each one
is proved equal to a recursive specification function on all inputs:
`Tokenize`, `TokenizeExpresion`, `Parse`, `ParseExprPrecedence`,
`ExpandirVariables` and `Run`. What the source promises is then proved as
lemmas about those functions.

The model keeps the source's behaviour as written:

- The full parser decides the declaration kind from `tokens[pos-2]`, which is
  always the name. So every declaration becomes `Mutar`, and `var` is run as
  `mutar` (`ParserProperties.ParseNeverVar`, `Pipeline.ParsedNeverRefused`).
- Rust's `%` is the truncated remainder.
- `i64` overflow, and `i64::MIN % -1`, is a panic (the `Abort` outcome).
- A text that is a lone `"` panics on a slice: the `Err` of `PrintLine`, and
  `Crash` in `ParseValor`.
- The simplified lexer matches the block markers by prefix. The full lexer
  matches them by equality.
- The simplified parser checks only `imprimir` against the block.

Program text is a sequence of lines, each a `seq<char>`. The two I/O channels
are modelled as values:

- The lines `println!` writes are the `output` sequence of the state.
- The lines `eprintln!` writes are the `reports` sequence, each a tagged
  record.
- Each error message becomes a constructor of an error datatype.

Float values are the bit patterns of an `f64`. The zero test is exact: it
matches `+0.0` and `-0.0`. Every other float operation is a total function
field of a `FloatOps` record, passed as a parameter:

- widening an integer;
- `+ - * /`;
- `str::parse::<f64>`;
- `f64::to_string`.

## Model

| member | source | states |
|---|---|---|
| Text.TrimIsTrimmed | roulang/src/lexer.rs:9 | `trim` leaves no whitespace at either end, and leaves an already trimmed text unchanged |
| Text.TrimStartSpec | roulang/src/lexer.rs:9 | the characters `trim_start` drops are exactly the leading whitespace; what remains starts with non-whitespace |
| Text.TrimEndSpec | roulang/src/lexer.rs:24 | the characters `trim_end` drops are exactly the trailing whitespace; what remains ends with non-whitespace |
| Text.FirstIndex | roulang/src/lexer.rs:23 | `find` gives the first occurrence: no earlier character matches, and the one at the index does (or the text has none) |
| Text.Split | src/parser.rs:91 | `split('=')` gives one more piece than there are `=` characters, and no piece contains `=` |
| Text.SplitOnce | src/parser.rs:91-95 | with exactly one `=`, the two pieces are the text before it and the text after it |
| Values.IntToDecimal | roulang/src/interpreter.rs:172 | `i64::to_string` is non-empty, starts with `-` exactly for a negative number, and otherwise holds only digits |
| Values.ParseI64 | roulang/src/parser.rs:181 | `parse::<i64>` accepts only an optional sign followed by at least one digit |
| Values.ParseI64Accepts | roulang/src/parser.rs:181 | every optional `+` or `-` followed by one or more digits is accepted exactly when its value fits in 64 bits, and gives that value |
| Values.ParseI64SignAndZeros | src/parser.rs:126 | a `+` sign and a leading zero change nothing: `+5` and `007` read as `5` and `7` |
| Values.DecimalRoundTrip | roulang/src/interpreter.rs:172 | parsing the printed form of any `i64` gives the integer back |
| Values.ValorAStringSpec | roulang/src/interpreter.rs:170-177 | an integer shows as digits that parse back to it, a character as itself, a string as its contents, a float through `f64::to_string` |
| Environment.AdmitVar | roulang/src/interpreter.rs:11-21 | `var` is admitted exactly on an unbound name; on a bound one it is refused as already declared |
| Environment.AdmitMutar | roulang/src/interpreter.rs:24-43 | `mutar` is admitted exactly on an unbound or mutable name; on a name `var` bound it is refused as immutable |
| Environment.BindSpec | roulang/src/interpreter.rs:10-44 | an admitted binding keeps both maps on the same names, adds only the declared name with its value, and changes no other value and no existing flag |
| Environment.ImmutableKept | roulang/src/interpreter.rs:33-41 | no admitted declaration changes the value or flag of a binding made by `var` |
| Interpolation.ExpandirVariables | roulang/src/interpreter.rs:143-168 | the loop over the characters builds exactly the expansion `Expand` of the whole text |
| Interpolation.ExpandAt | roulang/src/interpreter.rs:147-166 | one turn consumes at least one character and emits the expansion of what it consumed |
| Interpolation.ScanName | roulang/src/interpreter.rs:149-157 | the inner loop collects the characters up to the first `}` and stops after that `}` (or at the end) |
| Interpolation.ExpandPlain | roulang/src/interpreter.rs:163-165 | text without `{` comes out unchanged |
| Interpolation.ExpandPlainPrefix | roulang/src/interpreter.rs:147-166 | plain text before the first `{` is copied, and the rest is expanded on its own |
| Interpolation.ExpandClosed | roulang/src/interpreter.rs:148-162 | `{name}` becomes the value's text when bound, `{name?}` otherwise, and the text after `}` is expanded on its own |
| Interpolation.ExpandUnclosed | roulang/src/interpreter.rs:150-157 | an unclosed `{` takes the rest of the text as the name |
| Interpolation.ExpandBound | roulang/src/interpreter.rs:158-159 | a bound name in braces shows its value between the unchanged text around it |
| Interpolation.PrintPanics | roulang/src/interpreter.rs:46-49 | `imprimir` panics exactly when its trimmed text is a lone `"` |
| Interpolation.PrintQuoted | roulang/src/interpreter.rs:48-51 | a trimmed text in double quotes prints the expansion of what lies between them |
| Interpolation.PrintUnquoted | roulang/src/interpreter.rs:48-57 | a text not enclosed in double quotes, including one that opens a quote it never closes, prints the bound value of that name, or else the trimmed text itself |
| Lexer.Tokenize | roulang/src/lexer.rs:3-66 | the loop over lines with the comment flag gives exactly `TokenizeLines(lines, false)` |
| Lexer.TokenizeLine | roulang/src/lexer.rs:27-62 | the classification of a cleaned line appends exactly that line's tokens, or fails with its error |
| Lexer.StripComment | roulang/src/lexer.rs:23-25 | the result has no `#`, and a line without `#` is kept as it is |
| Lexer.ClassifyLine | roulang/src/lexer.rs:62 | an empty line adds nothing; any non-empty line other than a marker, an `imprimir(`, `var ` or `mutar ` line is an unknown-line error |
| Lexer.ClassifyMarkers | roulang/src/lexer.rs:31-38 | `Iniciar` (or `Fin`) comes from a line exactly `iniciar</>` (or `</>`) and from nothing else, and such a line gives only that token |
| Lexer.ClassifyPrint | roulang/src/lexer.rs:39-44 | an `imprimir(` line gives `Imprimir` and the raw text up to the first `)`; whatever follows is ignored |
| Lexer.ClassifyPrintUnclosed | roulang/src/lexer.rs:45-47 | an `imprimir(` line with no `)` is an error |
| Lexer.CommentTailIgnored | roulang/src/lexer.rs:23-25 | outside a multi-line comment, text from the first `#` on never changes a line's tokens, on a blank line too unless it starts a `#/` comment opener |
| Lexer.CommentOpener | roulang/src/lexer.rs:16-21 | a `#/` line adds nothing, and opens a comment unless it also ends with `#/` and is longer than `#/` |
| Lexer.CommentBlockSkipped | roulang/src/lexer.rs:11-15 | inside a comment, every line up to and including the first that ends with `#/` adds no token, and the comment is closed after it |
| Lexer.UnclosedCommentSkipped | roulang/src/lexer.rs:11-15 | a comment never closed swallows the rest of the input without error |
| Lexer.TokenizeLinesAppend | roulang/src/lexer.rs:8-65 | the tokens of two runs of lines are the first run's followed by the second's, read in the comment state the first leaves |
| Lexer.TokenizeExpresion | roulang/src/lexer.rs:68-140 | the character loop appends exactly `Lex(texto)` to the tokens, or gives its first error |
| Lexer.LexAt | roulang/src/lexer.rs:71-137 | one turn skips, pushes one token, or stops with the error of the whole fragment, always advancing |
| Lexer.ScanAt | roulang/src/lexer.rs:72-136 | the branch taken at a position is the specification step `LexStep` of the rest of the text |
| Lexer.ScanIdentifier | roulang/src/lexer.rs:77-85 | the identifier loop stops at the end of the maximal identifier run |
| Lexer.ScanNumber | roulang/src/lexer.rs:87-99 | the number loop stops at the end of the maximal run of digits holding at most one `.` |
| Lexer.ScanString | roulang/src/lexer.rs:101-113 | the string loop stops at the first `"` after the opening one, or at the end |
| Lexer.IdentRunMaximal | roulang/src/lexer.rs:77-83 | the identifier run holds only alphanumeric or `_` characters and cannot be extended |
| Lexer.NumberRunMaximal | roulang/src/lexer.rs:87-96 | the number run holds only digits and at most one `.`, and cannot be extended |
| Lexer.Punctuation | roulang/src/lexer.rs:115-135 | each of `+ - * / % = ( ) ; ,` maps to one well-formed expression token |
| Lexer.LexWellFormed | roulang/src/lexer.rs:68-140 | every token of a fragment is an identifier, an unsigned number with at most one `.`, a quote-free string or a punctuation token; never a keyword, marker or `Texto` |
| Lexer.LexIdentifier | roulang/src/lexer.rs:77-85 | an identifier followed by a non-identifier character is one token |
| Lexer.LexNumber | roulang/src/lexer.rs:87-99 | a number text is one token, without a sign |
| Lexer.LexString | roulang/src/lexer.rs:101-113 | a string literal gives `Cadena` of the text between the quotes |
| Lexer.LexUnclosedString | roulang/src/lexer.rs:107-109 | a `"` without a closing `"` is an error |
| Lexer.LexSingleChar | roulang/src/lexer.rs:73-136 | whitespace emits nothing, each punctuation character emits its one token, and any other character is an error |
| Lexer.LexAppend | roulang/src/lexer.rs:68-140 | tokens come out in source order: a fragment followed by whitespace-led text lexes as its own tokens followed by the rest's |
| Parser.OperadorOf | roulang/src/parser.rs:159-166 | a character names an operator exactly when its precedence is positive, and `+ -` are exactly those of precedence 1 |
| Parser.Factor | roulang/src/parser.rs:174-202 | a parsed factor ends strictly after its start, within the list, and consists of expression tokens only |
| Parser.Expr | roulang/src/parser.rs:132-171 | a parsed expression ends strictly after its start, within the list, and consists of expression tokens only |
| Parser.Climb | roulang/src/parser.rs:138-169 | the operator loop never moves back and consumes expression tokens only |
| Parser.ParseFactor | roulang/src/parser.rs:174-203 | `parse_factor` computes exactly `Factor` |
| Parser.ParseExpresion | roulang/src/parser.rs:118-120 | `parse_expresion` is `Expr` at precedence 0 |
| Parser.ParseExprPrecedence | roulang/src/parser.rs:132-171 | the loop that reassigns the left operand computes exactly `Expr` |
| Parser.Declaration | roulang/src/parser.rs:76-115 | an accepted declaration is a name, `=`, an expression and `;`, contains no marker, resumes after the `;`, and is always a `Mutar` of that name and expression |
| Parser.ParseDeclaracion | roulang/src/parser.rs:76-115 | `parse_declaracion_var_mutar` computes exactly `Declaration` |
| Parser.ParseFromDeclaration | roulang/src/parser.rs:32-47 | inside the block, a declaration's instruction is followed by the rest of the scan from after its `;` |
| Parser.ParseFromImprimir | roulang/src/parser.rs:48-61 | inside the block, `imprimir` followed by a text gives `Imprimir` of that text unchanged, then the rest |
| Parser.Parse | roulang/src/parser.rs:3-74 | the scan with three flags gives exactly `ParseFrom` from the start with all flags off |
| ParserProperties.ParseNeverVar | roulang/src/parser.rs:107-112 | an accepted program never contains a `Var` instruction |
| ParserProperties.AfterFin | roulang/src/parser.rs:21-51 | after `</>` any further token is an error |
| ParserProperties.InsideBlock | roulang/src/parser.rs:11-73 | inside the block, an accepted rest ends with the only `</>` and holds no other marker |
| ParserProperties.ParseBlockShape | roulang/src/parser.rs:3-74 | an accepted list starts with `iniciar</>`, ends with `</>`, and holds no marker in between |
| ParserProperties.ParseFirstToken | roulang/src/parser.rs:13-62 | an empty list misses `iniciar</>`, and a list starting with `</>`, `var`, `mutar` or `imprimir` fails with that token's error |
| ParserProperties.ClimbStops | roulang/src/parser.rs:138-150 | the loop stops at the end, at a non-operator, or at an operator below the minimum precedence |
| ParserProperties.NameOperand | roulang/src/parser.rs:190 | a name followed by no stronger operator is a whole operand |
| ParserProperties.TighterOnTheRight | roulang/src/parser.rs:147-154 | `x + y * z` parses as `x + (y * z)` |
| ParserProperties.TighterOnTheLeft | roulang/src/parser.rs:147-154 | `x * y + z` parses as `(x * y) + z` |
| ParserProperties.LeftAssociative | roulang/src/parser.rs:154 | operators of equal precedence associate to the left |
| ParserProperties.UnknownOperatorRejected | roulang/src/parser.rs:159-166 | at the top level an operator of precedence 0 such as `=` is consumed with its right operand and then rejected |
| ParserProperties.LowOperatorEndsOperand | roulang/src/parser.rs:147-150 | below the top level such an operator ends the operand instead |
| ParserProperties.AtomRoundTrip | roulang/src/parser.rs:178-190 | an integer, a string literal or a name is one factor that parses back to itself |
| ParserProperties.ParenFactor | roulang/src/parser.rs:191-199 | `( l op r )` is one factor |
| ParserProperties.FactorRoundTrip | roulang/src/parser.rs:174-203 | a fully parenthesized expression parses back to itself as one factor, consuming exactly its tokens |
| ParserProperties.CompoundRoundTrip | roulang/src/parser.rs:191-199 | an operation written in parentheses parses back to the same operation |
| ParserProperties.ExprRoundTrip | roulang/src/parser.rs:118-171 | parsing the unparsed form of any expression gives it back, followed by any non-operator token |
| Interpreter.TruncRemSpec | roulang/src/interpreter.rs:136 | Rust's `%` satisfies `x == q * y + r`, with `r` smaller than `y` in magnitude and with the sign of `x` |
| Interpreter.TruncRemEuclidean | roulang/src/interpreter.rs:136 | for every dividend and non-zero divisor, Rust's `%` equals the Euclidean remainder when the dividend is non-negative or the division exact, and is otherwise that remainder minus the divisor's magnitude |
| Interpreter.OperarTyped | roulang/src/interpreter.rs:78-141 | each operator follows the type table; a rejected pair is an error; an accepted pair fails only on a zero divisor of `/` or `%`, and panics only on integer overflow |
| Interpreter.ZeroDivisor | roulang/src/interpreter.rs:119-141 | `/` refuses a zero divisor whatever the left operand, even a string; `%` refuses it between integers, and rejects any non-integer pair |
| Interpreter.ModularRemainder | roulang/src/interpreter.rs:130-141 | integer `%` panics exactly on `i64::MIN % -1`; otherwise it is the truncated remainder |
| Interpreter.EvaluarTyped | roulang/src/interpreter.rs:64-76 | a value has the type the operator table predicts for the expression |
| Interpreter.EvaluarUndefined | roulang/src/interpreter.rs:67-69 | an undefined-name error names a name the expression reads and the environment lacks; with all names bound there is none |
| Interpreter.EvaluarLocal | roulang/src/interpreter.rs:64-76 | evaluation depends only on the bindings of the names the expression mentions |
| Interpreter.Run | roulang/src/interpreter.rs:4-62 | the loop over instructions with two mutable maps gives exactly `ExecAll` from the empty state |
| Interpreter.Ejecutar | roulang/src/interpreter.rs:9-60 | one turn of the loop computes exactly `Exec` |
| Interpreter.ImprimirLinea | roulang/src/interpreter.rs:45-59 | the `Imprimir` arm computes exactly `PrintLine` |
| Interpreter.ExecPreserves | roulang/src/interpreter.rs:8-60 | each instruction keeps both maps on the same names, removes no name, changes no `var` binding or flag, and only appends to output and reports |
| Interpreter.ExecVarEffect | roulang/src/interpreter.rs:10-22 | `var` binds an unbound name whose expression evaluates, not mutable, and changes nothing else; a bound name or an evaluation error only adds a report; only a panic stops the run |
| Interpreter.ExecMutarEffect | roulang/src/interpreter.rs:23-44 | `mutar` binds an unbound name as mutable and replaces only the value of a mutable one, changing nothing else; an immutable name or an evaluation error only adds a report |
| Interpreter.ExecAllPreserves | roulang/src/interpreter.rs:4-62 | over a whole run, the maps keep the same names, every `var` binding keeps its value, and output and reports only grow |
| Interpreter.NoVarNeverRefused | roulang/src/interpreter.rs:10-44 | with no `var` instruction, every binding stays mutable and every report is an evaluation error |
| LegacyLexer.ClassifyLine | src/lexer.rs:74 | an empty line adds nothing; a non-empty line starting with no marker or keyword prefix is an unknown-line error |
| LegacyLexer.Tokenize | src/lexer.rs:3-78 | the loop over lines with the comment flag gives exactly `TokenizeLines(lines, false)` |
| LegacyLexer.TokenizeLine | src/lexer.rs:34-74 | the classification appends exactly the line's tokens, or fails with its error |
| LegacyLexer.MarkerPrefix | src/lexer.rs:35-44 | any line starting with `iniciar</>` gives `Iniciar` alone, and any line starting with `</>` gives `Fin` alone |
| LegacyLexer.MarkerPrefixDiffers | src/lexer.rs:41-44 | `</> x` gives `Fin` here, where the full lexer rejects it |
| LegacyLexer.DeclarationLine | src/lexer.rs:47-60 | a `var ` or `mutar ` line gives its keyword and one `Texto` holding the trimmed rest of the line |
| LegacyLexer.PrintLineTokens | src/lexer.rs:63-71 | an `imprimir(` line gives `Imprimir` and the raw text up to the first `)` |
| LegacyLexer.PrintLineUnclosed | src/lexer.rs:68-70 | an `imprimir(` line with no `)` is an error |
| LegacyLexer.CommentTailIgnored | src/lexer.rs:26-28 | outside a multi-line comment, text from the first `#` on never changes a line's tokens, on a blank line too unless it starts a `#/` comment opener |
| LegacyLexer.CommentBlockSkipped | src/lexer.rs:12-16 | inside a comment, every line up to and including the first that ends with `#/` adds no token |
| LegacyLexer.UnclosedCommentSkipped | src/lexer.rs:12-16 | a comment never closed swallows the rest of the input without error |
| LegacyLexer.TokenizeLinesAppend | src/lexer.rs:8-77 | tokens come out in line order |
| LegacyLexer.TokenizePaired | src/lexer.rs:47-72 | in the lexer's output, every keyword is immediately followed by a `Texto`, and every `Texto` immediately follows a keyword |
| LegacyParser.Parse | src/parser.rs:3-82 | the scan with three flags gives exactly `ParseFrom` from the start with all flags off |
| LegacyParserProperties.SplitDeclarationSpec | src/parser.rs:85-95 | a declaration needs a trimmed text ending in `;` whose rest holds exactly one `=`; the name and value are the trimmed parts around it |
| LegacyParserProperties.VarMutarAgree | src/parser.rs:84-114 | `parse_var` always gives `Var` and `parse_mutar` always `Mutar`; both accept the same texts and read the same name and value |
| LegacyParserProperties.ParseValorSpec | src/parser.rs:116-133 | a string comes from double quotes, a character from exactly one character in single quotes, exactly the unquoted `i64` texts give that integer, and exactly the other unquoted texts `parse::<f64>` accepts give that float; only a lone quote panics; single quotes around anything but one character, and an unquoted text that is no number, are errors |
| LegacyParserProperties.LiteralRoundTrip | src/parser.rs:116-133 | reading the literal of an integer, character or string gives the value back |
| LegacyParserProperties.SplitDeclarationOf | src/parser.rs:89-95 | `name = value;` splits into the name and the value text |
| LegacyParserProperties.DeclarationRoundTrip | src/parser.rs:84-114 | `name = literal;` reads back as that name and value, both as `var` and as `mutar` |
| LegacyParserProperties.EqualsInStringRejected | src/parser.rs:91-94 | an `=` inside a string literal makes the split give more than two parts, so the declaration is rejected |
| LegacyParserProperties.SeveralEqualsRejected | src/parser.rs:91-94 | any declaration with two or more `=` before the `;` is rejected |
| LegacyParserProperties.DeclarationOutsideBlock | src/parser.rs:32-55 | outside the block a declaration is still accepted, and the scan goes on after its text |
| LegacyParserProperties.ParseFromOk | src/parser.rs:11-81 | in an accepted scan a keyword is followed by a text, `imprimir` is inside the block, and no marker repeats |
| LegacyParserProperties.MarkersCounted | src/parser.rs:13-31 | an accepted list holds exactly the markers still to be seen, once each |
| LegacyParserProperties.PrintsInside | src/parser.rs:56-69 | in an accepted list every `imprimir` comes after an `iniciar</>` and before a `</>` |
| LegacyParserProperties.FinAfterIniciar | src/parser.rs:21-24 | in an accepted scan every `</>` follows an `iniciar</>` |
| LegacyParserProperties.ParseBlockShape | src/parser.rs:3-82 | an accepted list holds exactly one `iniciar</>` and one `</>`, the `iniciar</>` first, with every `imprimir` between them |
| LegacyInterpreter.Run | src/interpreter.rs:4-50 | the loop over instructions with two mutable maps gives exactly `ExecAll` from the empty state |
| LegacyInterpreter.Ejecutar | src/interpreter.rs:9-48 | one turn of the loop computes exactly `Exec` |
| LegacyInterpreter.DeclararEffect | src/interpreter.rs:10-29 | `var` binds an unbound name, not mutable; `mutar` binds an unbound name as mutable or replaces a mutable one's value; a refused declaration only adds a report |
| LegacyInterpreter.ExecAllPreserves | src/interpreter.rs:4-50 | over a whole run, the maps keep the same names, every `var` binding keeps its value, and output and reports only grow |
| LegacyInterpreter.ExecAgrees | src/interpreter.rs:9-48 | one instruction has the same effect as the full interpreter's on the same declaration with a literal expression |
| LegacyInterpreter.RunAgrees | src/interpreter.rs:4-50 | a whole run gives the same environment, output, refusals and panic as the full interpreter on the lifted program |
| Pipeline.RunFile | src/main.rs:28-37 | lexer, parser and interpreter run in turn, stopping at the first lexer or parser error |
| Pipeline.PairedParse | src/parser.rs:11-72 | on a list where keywords and texts pair up, the scan never fails for a missing text or an unexpected token |
| Pipeline.NoShapeErrors | src/parser.rs:32-70 | a program the lexer accepts is never rejected by the parser for a keyword without its text or for an unexpected token |
| Pipeline.ParsedNeverRefused | roulang/src/parser.rs:107-112 | running any program the full parser accepts never refuses a declaration: every report is an evaluation error |

## Left out

- Input and output are not modelled as effects:
  - The command line, the `.rlg` extension check and reading the file are not
    part of this model.
  - `main` receives the lines of the file (`str::lines` is not modelled).
  - `println!` and `eprintln!` are the `output` and `reports` sequences.
  - `expect` aborts are the outcome tags of `Pipeline.Outcome`.
- roulang/src/main.rs is not part of this model. The full pipeline is
  composed only through `Pipeline.ParsedNeverRefused`, which relates its
  parser and its interpreter.
- Error messages are reduced to constructors of error datatypes. Their
  wording is not modelled.
- `HashMap` is a Dafny `map`. Insertion order and hashing are not modelled.
- Floating point is left out:
  - Float arithmetic, widening, `parse::<f64>` and `f64::to_string` are
    arbitrary total functions in `FloatOps`.
  - No property constrains the float they return.
  - Only the exact zero test on the bit pattern is modelled.
- Text.IsWhitespace: `char::is_whitespace` is exact only on U+0000..U+00FF.
  Characters above U+00FF are treated as non-whitespace, to keep the
  character classes decidable without Unicode tables.
- Text.IsAlphabetic: `char::is_alphabetic` is exact only on U+0000..U+00FF.
  Characters above U+00FF are treated as non-alphabetic, for the same reason.
  The same holds for `Text.IsNumeric` and `Text.IsAlphanumeric`.
- Interpreter.CheckedInt: integer arithmetic is the debug-build behaviour,
  where overflow panics. The wrap-around of a release build is not modelled.
- LegacyParser.ParseValor: a lone quote is an `Err(Crash(..))` result. Rust
  panics there instead, so the model stops the parse like an error rather
  than aborting the process.
- A panic inside `run` is recorded as the `panic` of the execution, with the
  state reached before it. The partial console output of a real abort is
  that `output`.

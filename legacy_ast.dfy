/** The tokens and instructions of the simplified pipeline (src/ast.rs).
    Declarations carry a literal `Valor` rather than an expression. */
module LegacyAst {
  import opened Values

  datatype Token =
    | Iniciar
    | Fin
    | Var
    | Mutar
    | Imprimir
    | Texto(text: string)  // the raw rest of a `var`, `mutar` or `imprimir(` line

  /** The tokens that must be followed by a `Texto`. */
  predicate IsKeyword(t: Token)
  {
    t == Token.Var || t == Token.Mutar || t == Token.Imprimir
  }

  datatype Instruccion =
    | Var(name: string, valor: Valor)
    | Mutar(name: string, valor: Valor)
    | Imprimir(text: string)
}

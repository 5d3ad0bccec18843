/** The token, expression and instruction trees of the full pipeline
    (roulang/src/ast.rs). `Valor` is shared with the simplified pipeline and
    lives in module Values. */
module Ast {
  import opened Values

  datatype Token =
    | Iniciar               // the line `iniciar</>`
    | Fin                   // the line `</>`
    | Var
    | Mutar
    | Imprimir
    | Identificador(name: string)
    | Numero(text: string)  // digits with at most one '.', as written
    | Operador(op: char)
    | ParenAbre
    | ParenCierra
    | PuntoYComa
    | Coma
    | Texto(text: string)   // the raw argument of `imprimir(...)`
    | Cadena(text: string)  // a double-quoted literal, quotes removed

  datatype Operador = Suma | Resta | Multiplicacion | Division | Modulo

  datatype Expresion =
    | Valor(v: Valor)
    | Variable(name: string)
    | BinOp(izquierda: Expresion, operador: Operador, derecha: Expresion)

  datatype Instruccion =
    | Var(name: string, expr: Expresion)
    | Mutar(name: string, expr: Expresion)
    | Imprimir(text: string)
}

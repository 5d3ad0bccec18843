/** The tree-walking interpreter of the full pipeline
    (roulang/src/interpreter.rs): typed operators, expression evaluation,
    and `run`, which executes the instructions in order against the
    environment, printing lines and reporting refused declarations. */
module Interpreter {
  import opened Results
  import opened Text
  import opened Values
  import opened Ast
  import opened Environment
  import opened Interpolation

  /** The `Err` strings of `evaluar_expr` and the `operar_*` functions. */
  datatype EvalError =
    | UndefinedVariable(name: string)
    | UnsupportedSum
    | UnsupportedSub
    | UnsupportedMul
    | UnsupportedDiv
    | DivisionByZero
    | ModuloByZero
    | ModuloNonInteger

  /** What evaluating gives: a value, an error the interpreter reports, or a
      panic that ends the program. */
  datatype Outcome = Value(v: Valor) | Error(e: EvalError) | Abort(p: Panic)

  // ---------------------------------------------------------------------------
  // Operators
  // ---------------------------------------------------------------------------

  /** Unchecked `i64` arithmetic in a debug build: a result outside the range
      panics. */
  function CheckedInt(x: int): Outcome
  {
    if InI64(x) then Value(Int(x)) else Abort(ArithmeticOverflow)
  }

  /** `operar_sumar`. */
  function Sumar(a: Valor, b: Valor, fo: FloatOps): Outcome
  {
    match (a, b)
    case (Int(x), Int(y)) => CheckedInt(x + y)
    case (Int(x), Float(y)) => Value(Float(fo.add(fo.widen(x), y)))
    case (Float(x), Int(y)) => Value(Float(fo.add(x, fo.widen(y))))
    case (Float(x), Float(y)) => Value(Float(fo.add(x, y)))
    case (String(x), String(y)) => Value(String(x + y))
    case _ => Error(UnsupportedSum)
  }

  /** `operar_restar`. */
  function Restar(a: Valor, b: Valor, fo: FloatOps): Outcome
  {
    match (a, b)
    case (Int(x), Int(y)) => CheckedInt(x - y)
    case (Int(x), Float(y)) => Value(Float(fo.sub(fo.widen(x), y)))
    case (Float(x), Int(y)) => Value(Float(fo.sub(x, fo.widen(y))))
    case (Float(x), Float(y)) => Value(Float(fo.sub(x, y)))
    case _ => Error(UnsupportedSub)
  }

  /** `operar_multiplicar`. */
  function Multiplicar(a: Valor, b: Valor, fo: FloatOps): Outcome
  {
    match (a, b)
    case (Int(x), Int(y)) => CheckedInt(x * y)
    case (Int(x), Float(y)) => Value(Float(fo.mul(fo.widen(x), y)))
    case (Float(x), Int(y)) => Value(Float(fo.mul(x, fo.widen(y))))
    case (Float(x), Float(y)) => Value(Float(fo.mul(x, y)))
    case _ => Error(UnsupportedMul)
  }

  /** The divisors the patterns `Valor::Int(0)` and `Valor::Float(0.0)` match. */
  predicate IsZero(v: Valor)
  {
    (v.Int? && v.i == 0) || (v.Float? && IsZeroF64(v.f))
  }

  /** `operar_dividir`: the zero test comes first, whatever the left
      operand; numeric division is always done in floating point. */
  function Dividir(a: Valor, b: Valor, fo: FloatOps): Outcome
  {
    if IsZero(b) then Error(DivisionByZero)
    else
      match (a, b)
      case (Int(x), Int(y)) => Value(Float(fo.div(fo.widen(x), fo.widen(y))))
      case (Int(x), Float(y)) => Value(Float(fo.div(fo.widen(x), y)))
      case (Float(x), Int(y)) => Value(Float(fo.div(x, fo.widen(y))))
      case (Float(x), Float(y)) => Value(Float(fo.div(x, y)))
      case _ => Error(UnsupportedDiv)
  }

  function Abs(x: int): nat
  {
    if x < 0 then -x else x
  }

  /** Rust's `%` on integers: the remainder of the division truncated toward
      zero, which takes the sign of the dividend. */
  function TruncRem(x: int, y: int): int
    requires y != 0
  {
    var r := Abs(x) % Abs(y);
    if x < 0 then -r else r
  }

  /** The quotient of the division truncated toward zero. */
  function TruncQuot(x: int, y: int): int
    requires y != 0
  {
    var q := Abs(x) / Abs(y);
    if (x < 0) == (y < 0) then q else -q
  }

  /** `x == q * y + r` with `r` smaller than `y` in magnitude and of the sign
      of `x`: the remainder of truncated division. */
  lemma TruncRemSpec(x: int, y: int)
    requires y != 0
    ensures x == TruncQuot(x, y) * y + TruncRem(x, y)
    ensures Abs(TruncRem(x, y)) < Abs(y)
    ensures TruncRem(x, y) == 0 || (TruncRem(x, y) < 0 <==> x < 0)
  {
    var q, r := Abs(x) / Abs(y), Abs(x) % Abs(y);
    assert Abs(x) == q * Abs(y) + r;
    if x < 0 && y < 0 {
      assert x == q * y - r;
    } else if x < 0 {
      assert x == (-q) * y - r;
    } else if y < 0 {
      assert x == (-q) * y + r;
    }
  }

  lemma {:induction false} MulAtLeast(k: nat, m: nat)
    requires k >= 1
    ensures k * m >= m
  {
    if k > 1 {
      MulAtLeast(k - 1, m);
      assert k * m == (k - 1) * m + m;
    }
  }

  /** Dafny's `%` is the only remainder in `[0, |y|)`. */
  lemma EuclideanUnique(x: int, y: int, q: int, r: int)
    requires y != 0 && x == q * y + r && 0 <= r < Abs(y)
    ensures x % y == r
  {
    var q0, r0 := x / y, x % y;
    var k := q - q0;
    assert k * y == r0 - r;
    if k != 0 {
      MulAtLeast(Abs(k), Abs(y));
      assert false;
    }
  }

  /** Rust's `%` and Dafny's Euclidean `%` agree on a non-negative dividend
      and on an exact division; otherwise Rust's is `|y|` smaller (it is
      negative where the Euclidean one is positive): `-7 % 3` is -1 in Rust
      and 2 in Dafny. */
  lemma {:induction false} TruncRemEuclidean(x: int, y: int)
    requires y != 0
    ensures TruncRem(x, y) == if x >= 0 || x % y == 0 then x % y else x % y - Abs(y)
  {
    TruncRemSpec(x, y);
    var q, r := TruncQuot(x, y), TruncRem(x, y);
    if r >= 0 {
      EuclideanUnique(x, y, q, r);
    } else {
      var s := if y > 0 then 1 else -1;
      assert x == (q - s) * y + (r + Abs(y));
      EuclideanUnique(x, y, q - s, r + Abs(y));
    }
  }

  /** `operar_modulo`: integers only; a zero divisor is an error, and
      `i64::MIN % -1` overflows. */
  function Modular(a: Valor, b: Valor): Outcome
  {
    match (a, b)
    case (Int(x), Int(y)) =>
      if y == 0 then Error(ModuloByZero)
      else if x == I64Min && y == -1 then Abort(ArithmeticOverflow)
      else CheckedInt(TruncRem(x, y))
    case _ => Error(ModuloNonInteger)
  }

  /** `operar`. */
  function Operar(a: Valor, op: Operador, b: Valor, fo: FloatOps): Outcome
  {
    match op
    case Suma => Sumar(a, b, fo)
    case Resta => Restar(a, b, fo)
    case Multiplicacion => Multiplicar(a, b, fo)
    case Division => Dividir(a, b, fo)
    case Modulo => Modular(a, b)
  }

  // ---------------------------------------------------------------------------
  // The typing table the operators follow
  // ---------------------------------------------------------------------------

  datatype Tipo = TInt | TFloat | TChar | TString

  function TipoDe(v: Valor): Tipo
  {
    match v
    case Int(_) => TInt
    case Float(_) => TFloat
    case Char(_) => TChar
    case String(_) => TString
  }

  predicate Numerico(t: Tipo)
  {
    t == TInt || t == TFloat
  }

  /** The type of `a op b` from the types of the operands: integers stay
      integers under `+ - * %`, any float makes a float, `/` always makes a
      float, and `+` also joins two strings. */
  function TipoResultado(op: Operador, ta: Tipo, tb: Tipo): Option<Tipo>
  {
    if op == Modulo then
      if ta == TInt && tb == TInt then Some(TInt) else None
    else if Numerico(ta) && Numerico(tb) then
      if op != Division && ta == TInt && tb == TInt then Some(TInt) else Some(TFloat)
    else if op == Suma && ta == TString && tb == TString then Some(TString)
    else None
  }

  /** The operators follow the table: a value has the type the table gives;
      a pair the table rejects is an error; a pair it accepts is an error
      only for a zero divisor of `/` or `%`, and panics only on integer
      overflow. */
  lemma OperarTyped(a: Valor, op: Operador, b: Valor, fo: FloatOps)
    ensures var r := Operar(a, op, b, fo); var t := TipoResultado(op, TipoDe(a), TipoDe(b));
      && (r.Value? ==> t == Some(TipoDe(r.v)))
      && (t.None? ==> r.Error?)
      && (r.Error? && t.Some? ==> IsZero(b) && (op == Division || op == Modulo))
      && (r.Abort? ==> r.p == ArithmeticOverflow && a.Int? && b.Int? && op != Division)
  {
  }

  /** A zero divisor is refused by `/` whatever the left operand, even a
      string; `%` refuses it only between integers. */
  lemma ZeroDivisor(a: Valor, b: Valor, fo: FloatOps)
    requires IsZero(b)
    ensures Dividir(a, b, fo) == Error(DivisionByZero)
    ensures a.Int? && b.Int? ==> Modular(a, b) == Error(ModuloByZero)
    ensures !(a.Int? && b.Int?) ==> Modular(a, b) == Error(ModuloNonInteger)
  {
  }

  /** Integer `%` panics only on `i64::MIN % -1`: otherwise its result is
      the truncated remainder, which always fits in 64 bits, is smaller than
      the divisor in magnitude and has the sign of the dividend. */
  lemma ModularRemainder(x: i64, y: i64)
    requires y != 0
    ensures Modular(Int(x), Int(y)).Abort? <==> x == I64Min && y == -1
    ensures var m := Modular(Int(x), Int(y));
      m.Value? ==> (
        && x == TruncQuot(x, y) * y + m.v.i
        && Abs(m.v.i) < Abs(y)
        && (m.v.i == 0 || (m.v.i < 0 <==> x < 0)))
  {
    TruncRemSpec(x, y);
    assert InI64(y) && Abs(y) <= -I64Min;
    assert InI64(TruncRem(x, y));
  }

  // ---------------------------------------------------------------------------
  // Expressions
  // ---------------------------------------------------------------------------

  /** `evaluar_expr`: literals are themselves, names are looked up, and an
      operation evaluates its left operand, then its right one, stopping at
      the first that does not give a value. */
  function Evaluar(e: Expresion, vars: map<string, Valor>, fo: FloatOps): Outcome
  {
    match e
    case Valor(v) => Value(v)
    case Variable(n) => if n in vars then Value(vars[n]) else Error(UndefinedVariable(n))
    case BinOp(l, op, r) =>
      match Evaluar(l, vars, fo)
      case Value(x) =>
        (match Evaluar(r, vars, fo)
         case Value(y) => Operar(x, op, y, fo)
         case other => other)
      case other => other
  }

  /** The names an expression reads. */
  function Nombres(e: Expresion): set<string>
  {
    match e
    case Valor(_) => {}
    case Variable(n) => {n}
    case BinOp(l, _, r) => Nombres(l) + Nombres(r)
  }

  /** The static type of an expression under the types of the names, by the
      operator table. */
  function TipoExpr(e: Expresion, tipos: map<string, Tipo>): Option<Tipo>
  {
    match e
    case Valor(v) => Some(TipoDe(v))
    case Variable(n) => if n in tipos then Some(tipos[n]) else None
    case BinOp(l, op, r) =>
      match (TipoExpr(l, tipos), TipoExpr(r, tipos))
      case (Some(tl), Some(tr)) => TipoResultado(op, tl, tr)
      case _ => None
  }

  function Tipos(vars: map<string, Valor>): map<string, Tipo>
  {
    map n | n in vars :: TipoDe(vars[n])
  }

  /** Evaluation agrees with the static types: a value has the type
      `TipoExpr` predicts, and an expression the types reject never gives a
      value. */
  lemma {:induction false} EvaluarTyped(e: Expresion, vars: map<string, Valor>, fo: FloatOps)
    ensures Evaluar(e, vars, fo).Value? ==> TipoExpr(e, Tipos(vars)) == Some(TipoDe(Evaluar(e, vars, fo).v))
  {
    match e
    case Valor(_) =>
    case Variable(n) =>
    case BinOp(l, op, r) =>
      EvaluarTyped(l, vars, fo);
      EvaluarTyped(r, vars, fo);
      if Evaluar(l, vars, fo).Value? && Evaluar(r, vars, fo).Value? {
        OperarTyped(Evaluar(l, vars, fo).v, op, Evaluar(r, vars, fo).v, fo);
      }
  }

  /** An undefined-name error names a name the expression reads and the
      environment lacks; with every name bound there is none. */
  lemma {:induction false} EvaluarUndefined(e: Expresion, vars: map<string, Valor>, fo: FloatOps)
    ensures var r := Evaluar(e, vars, fo);
      r.Error? && r.e.UndefinedVariable? ==> r.e.name in Nombres(e) && r.e.name !in vars
    ensures Nombres(e) <= vars.Keys ==> !(Evaluar(e, vars, fo).Error? && Evaluar(e, vars, fo).e.UndefinedVariable?)
  {
    match e
    case Valor(_) =>
    case Variable(n) =>
    case BinOp(l, op, r) =>
      EvaluarUndefined(l, vars, fo);
      EvaluarUndefined(r, vars, fo);
      if Evaluar(l, vars, fo).Value? && Evaluar(r, vars, fo).Value? {
        OperarTyped(Evaluar(l, vars, fo).v, op, Evaluar(r, vars, fo).v, fo);
      }
  }

  /** Evaluation reads only the names the expression mentions. */
  lemma {:induction false} EvaluarLocal(e: Expresion, v1: map<string, Valor>, v2: map<string, Valor>, fo: FloatOps)
    requires forall n | n in Nombres(e) :: (n in v1 <==> n in v2) && (n in v1 ==> v1[n] == v2[n])
    ensures Evaluar(e, v1, fo) == Evaluar(e, v2, fo)
  {
    match e
    case Valor(_) =>
    case Variable(n) =>
    case BinOp(l, op, r) =>
      EvaluarLocal(l, v1, v2, fo);
      EvaluarLocal(r, v1, v2, fo);
  }

  // ---------------------------------------------------------------------------
  // Running a program
  // ---------------------------------------------------------------------------

  /** The `eprintln!` lines of `run`. */
  datatype Report =
    | Refused(name: string, why: Refusal)
    | EvalFailed(name: string, error: EvalError)

  /** The environment, the lines printed so far and the reports so far. */
  datatype State = State(env: Env, output: seq<string>, reports: seq<Report>)

  const Initial: State := State(Empty, [], [])

  /** How a run ends: the final state, and the panic that stopped it, if
      one did. */
  datatype Execution = Execution(state: State, panic: Option<Panic>)

  /** `var` (`mutable` false) or `mutar` (`mutable` true): the expression is
      evaluated only when the declaration is admitted. */
  function Declarar(st: State, mutable: bool, name: string, expr: Expresion, fo: FloatOps): Result<State, Panic>
  {
    match Admit(st.env, mutable, name)
    case Some(why) => Ok(st.(reports := st.reports + [Refused(name, why)]))
    case None =>
      match Evaluar(expr, st.env.vars, fo)
      case Value(v) => Ok(st.(env := Bind(st.env, mutable, name, v)))
      case Error(e) => Ok(st.(reports := st.reports + [EvalFailed(name, e)]))
      case Abort(p) => Err(p)
  }

  /** One instruction of `run`. */
  function Exec(st: State, inst: Instruccion, fo: FloatOps): Result<State, Panic>
  {
    match inst
    case Var(n, e) => Declarar(st, false, n, e, fo)
    case Mutar(n, e) => Declarar(st, true, n, e, fo)
    case Imprimir(t) =>
      match PrintLine(t, st.env.vars, fo)
      case Ok(line) => Ok(st.(output := st.output + [line]))
      case Err(p) => Err(p)
  }

  /** The instructions in order, stopping at the first panic. */
  function ExecAll(st: State, insts: seq<Instruccion>, fo: FloatOps): Execution
    decreases |insts|
  {
    if insts == [] then Execution(st, None)
    else
      match Exec(st, insts[0], fo)
      case Err(p) => Execution(st, Some(p))
      case Ok(next) => ExecAll(next, insts[1..], fo)
  }

  /** `run`. */
  method Run(instrucciones: seq<Instruccion>, fo: FloatOps) returns (r: Execution)
    ensures r == ExecAll(Initial, instrucciones, fo)
  {
    var variables: map<string, Valor> := map[];
    var mutables: map<string, bool> := map[];
    var salida: seq<string> := [];
    var reportes: seq<Report> := [];
    assert instrucciones[0..] == instrucciones;
    for i := 0 to |instrucciones|
      invariant ExecAll(State(Env(variables, mutables), salida, reportes), instrucciones[i..], fo) == ExecAll(Initial, instrucciones, fo)
    {
      var st := State(Env(variables, mutables), salida, reportes);
      var next := Ejecutar(st, instrucciones[i], fo);
      ExecAllStep(st, instrucciones, i, fo);
      if next.Err? {
        return Execution(st, Some(next.error));
      }
      variables, mutables, salida, reportes := next.value.env.vars, next.value.env.mutables, next.value.output, next.value.reports;
    }
    r := Execution(State(Env(variables, mutables), salida, reportes), None);
  }

  lemma ExecAllStep(st: State, insts: seq<Instruccion>, i: nat, fo: FloatOps)
    requires i < |insts|
    ensures ExecAll(st, insts[i..], fo) ==
      match Exec(st, insts[i], fo)
      case Err(p) => Execution(st, Some(p))
      case Ok(next) => ExecAll(next, insts[i + 1..], fo)
  {
    assert insts[i..][0] == insts[i] && insts[i..][1..] == insts[i + 1..];
  }

  /** The body of the loop of `run` for one instruction. */
  method Ejecutar(st: State, inst: Instruccion, fo: FloatOps) returns (r: Result<State, Panic>)
    ensures r == Exec(st, inst, fo)
  {
    var variables, mutables := st.env.vars, st.env.mutables;
    match inst
    case Var(nombre, expr) =>
      if nombre !in variables {
        match Evaluar(expr, variables, fo)
        case Value(valor) =>
          return Ok(st.(env := Env(variables[nombre := valor], mutables[nombre := false])));
        case Error(e) =>
          return Ok(st.(reports := st.reports + [EvalFailed(nombre, e)]));
        case Abort(p) =>
          return Err(p);
      } else {
        return Ok(st.(reports := st.reports + [Refused(nombre, AlreadyDeclared)]));
      }
    case Mutar(nombre, expr) =>
      if nombre !in variables {
        match Evaluar(expr, variables, fo)
        case Value(valor) =>
          return Ok(st.(env := Env(variables[nombre := valor], mutables[nombre := true])));
        case Error(e) =>
          return Ok(st.(reports := st.reports + [EvalFailed(nombre, e)]));
        case Abort(p) =>
          return Err(p);
      } else if nombre in mutables && mutables[nombre] {
        match Evaluar(expr, variables, fo)
        case Value(valor) =>
          return Ok(st.(env := Env(variables[nombre := valor], mutables)));
        case Error(e) =>
          return Ok(st.(reports := st.reports + [EvalFailed(nombre, e)]));
        case Abort(p) =>
          return Err(p);
      } else {
        return Ok(st.(reports := st.reports + [Refused(nombre, Immutable)]));
      }
    case Imprimir(texto) =>
      var linea := ImprimirLinea(texto, variables, fo);
      if linea.Err? {
        return Err(linea.error);
      }
      return Ok(st.(output := st.output + [linea.value]));
  }

  /** The `Imprimir` arm of `run`. */
  method ImprimirLinea(texto: string, variables: map<string, Valor>, fo: FloatOps) returns (r: Result<string, Panic>)
    ensures r == PrintLine(texto, variables, fo)
  {
    var t := Trim(texto);
    if StartsWith(t, "\"") && EndsWith(t, "\"") {
      if |t| < 2 {
        return Err(SliceOutOfRange);
      }
      var inner := t[1..|t| - 1];
      var salida := ExpandirVariables(inner, variables, fo);
      return Ok(salida);
    } else if t in variables {
      return Ok(ValorAString(variables[t], fo));
    } else {
      return Ok(t);
    }
  }

  // ---------------------------------------------------------------------------
  // What a run preserves
  // ---------------------------------------------------------------------------

  /** Each instruction keeps the two maps' names equal, never removes a
      name, never changes a binding made by `var`, and only appends to the
      output and the reports. */
  lemma ExecPreserves(st: State, inst: Instruccion, fo: FloatOps)
    requires Valid(st.env)
    ensures var r := Exec(st, inst, fo);
      r.Ok? ==>
        && Valid(r.value.env)
        && st.env.vars.Keys <= r.value.env.vars.Keys
        && (forall n | n in st.env.vars && !st.env.mutables[n] ::
              r.value.env.vars[n] == st.env.vars[n] && !r.value.env.mutables[n])
        && (forall n | n in st.env.mutables :: r.value.env.mutables[n] == st.env.mutables[n])
        && st.output <= r.value.output
        && st.reports <= r.value.reports
  {
    match inst
    case Var(n, e) =>
      if Admit(st.env, false, n).None? && Evaluar(e, st.env.vars, fo).Value? {
        BindSpec(st.env, false, n, Evaluar(e, st.env.vars, fo).v);
      }
    case Mutar(n, e) =>
      if Admit(st.env, true, n).None? && Evaluar(e, st.env.vars, fo).Value? {
        BindSpec(st.env, true, n, Evaluar(e, st.env.vars, fo).v);
      }
    case Imprimir(_) =>
  }

  /** `var`: an unbound name whose expression evaluates is bound, not
      mutable; a bound name or an evaluation error leaves the environment as
      it was and adds one report; only a panic stops the run. */
  lemma ExecVarEffect(st: State, n: string, e: Expresion, fo: FloatOps)
    ensures var r := Exec(st, Instruccion.Var(n, e), fo); var v := Evaluar(e, st.env.vars, fo);
      && (r.Err? <==> n !in st.env.vars && v.Abort?)
      && (n !in st.env.vars && v.Value? ==>
            r == Ok(st.(env := Env(st.env.vars[n := v.v], st.env.mutables[n := false]))))
      && (n in st.env.vars ==> r == Ok(st.(reports := st.reports + [Refused(n, AlreadyDeclared)])))
      && (n !in st.env.vars && v.Error? ==> r == Ok(st.(reports := st.reports + [EvalFailed(n, v.e)])))
  {
  }

  /** `mutar`: an unbound name is bound as mutable, a mutable name gets only
      its value replaced, and a name bound by `var` or an evaluation error
      leaves the environment as it was and adds one report. */
  lemma ExecMutarEffect(st: State, n: string, e: Expresion, fo: FloatOps)
    requires Valid(st.env)
    ensures var r := Exec(st, Instruccion.Mutar(n, e), fo); var v := Evaluar(e, st.env.vars, fo);
      && (r.Err? <==> (n !in st.env.vars || st.env.mutables[n]) && v.Abort?)
      && (n !in st.env.vars && v.Value? ==>
            r == Ok(st.(env := Env(st.env.vars[n := v.v], st.env.mutables[n := true]))))
      && (n in st.env.vars && st.env.mutables[n] && v.Value? ==>
            r == Ok(st.(env := Env(st.env.vars[n := v.v], st.env.mutables))))
      && (n in st.env.vars && !st.env.mutables[n] ==> r == Ok(st.(reports := st.reports + [Refused(n, Immutable)])))
      && ((n !in st.env.vars || st.env.mutables[n]) && v.Error? ==>
            r == Ok(st.(reports := st.reports + [EvalFailed(n, v.e)])))
  {
  }

  /** Over a whole run: the maps keep equal names, a binding made by `var`
      keeps its value to the end, and output and reports only grow. */
  lemma {:induction false} ExecAllPreserves(st: State, insts: seq<Instruccion>, fo: FloatOps)
    requires Valid(st.env)
    ensures var f := ExecAll(st, insts, fo).state;
      && Valid(f.env)
      && st.env.vars.Keys <= f.env.vars.Keys
      && (forall n | n in st.env.vars && !st.env.mutables[n] ::
            f.env.vars[n] == st.env.vars[n] && !f.env.mutables[n])
      && st.output <= f.output
      && st.reports <= f.reports
    decreases |insts|
  {
    if insts != [] {
      var r := Exec(st, insts[0], fo);
      ExecPreserves(st, insts[0], fo);
      if r.Ok? {
        ExecAllPreserves(r.value, insts[1..], fo);
      }
    }
  }

  predicate NoVar(insts: seq<Instruccion>)
  {
    forall k | 0 <= k < |insts| :: !insts[k].Var?
  }

  predicate AllMutable(env: Env)
  {
    forall n | n in env.mutables :: env.mutables[n]
  }

  /** Without `var` instructions every binding is mutable, so no declaration
      is ever refused: every report is an evaluation error. */
  lemma {:induction false} NoVarNeverRefused(st: State, insts: seq<Instruccion>, fo: FloatOps)
    requires Valid(st.env) && AllMutable(st.env) && NoVar(insts)
    ensures var f := ExecAll(st, insts, fo).state;
      AllMutable(f.env) && forall k | |st.reports| <= k < |f.reports| :: f.reports[k].EvalFailed?
    decreases |insts|
  {
    if insts != [] {
      var r := Exec(st, insts[0], fo);
      ExecPreserves(st, insts[0], fo);
      if r.Ok? {
        assert insts[0].Mutar? || insts[0].Imprimir?;
        if insts[0].Mutar? && Admit(st.env, true, insts[0].name).None? && Evaluar(insts[0].expr, st.env.vars, fo).Value? {
          BindSpec(st.env, true, insts[0].name, Evaluar(insts[0].expr, st.env.vars, fo).v);
        }
        ExecAllPreserves(r.value, insts[1..], fo);
        assert NoVar(insts[1..]) by {
          forall k | 0 <= k < |insts| - 1 ensures !insts[1..][k].Var? {
            assert insts[1..][k] == insts[k + 1];
          }
        }
        NoVarNeverRefused(r.value, insts[1..], fo);
      }
    }
  }
}

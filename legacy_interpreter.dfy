/** The interpreter of the simplified pipeline (src/interpreter.rs): the
    same environment rules and the same `imprimir` as the full interpreter,
    with the literal value of a declaration stored as it is. */
module LegacyInterpreter {
  import opened Results
  import opened Values
  import opened LegacyAst
  import opened Environment
  import opened Interpolation
  import Ast
  import Interpreter

  /** The `eprintln!` lines of `run`: a declaration the rules refuse. */
  datatype Report = Refused(name: string, why: Refusal)

  datatype State = State(env: Env, output: seq<string>, reports: seq<Report>)

  const Initial: State := State(Empty, [], [])

  datatype Execution = Execution(state: State, panic: Option<Panic>)

  /** `var` (`mutable` false) or `mutar` (`mutable` true) with a literal. */
  function Declarar(st: State, mutable: bool, name: string, v: Valor): State
  {
    match Admit(st.env, mutable, name)
    case Some(why) => st.(reports := st.reports + [Refused(name, why)])
    case None => st.(env := Bind(st.env, mutable, name, v))
  }

  /** One instruction of `run`. */
  function Exec(st: State, inst: Instruccion, fo: FloatOps): Result<State, Panic>
  {
    match inst
    case Var(n, v) => Ok(Declarar(st, false, n, v))
    case Mutar(n, v) => Ok(Declarar(st, true, n, v))
    case Imprimir(t) =>
      match PrintLine(t, st.env.vars, fo)
      case Ok(line) => Ok(st.(output := st.output + [line]))
      case Err(p) => Err(p)
  }

  /** The instructions in order, stopping at the first panic. */
  function ExecAll(st: State, insts: seq<Instruccion>, fo: FloatOps): Execution
    decreases |insts|
  {
    if insts == [] then Execution(st, None)
    else
      match Exec(st, insts[0], fo)
      case Err(p) => Execution(st, Some(p))
      case Ok(next) => ExecAll(next, insts[1..], fo)
  }

  lemma ExecAllStep(st: State, insts: seq<Instruccion>, i: nat, fo: FloatOps)
    requires i < |insts|
    ensures ExecAll(st, insts[i..], fo) ==
      match Exec(st, insts[i], fo)
      case Err(p) => Execution(st, Some(p))
      case Ok(next) => ExecAll(next, insts[i + 1..], fo)
  {
    assert insts[i..][0] == insts[i] && insts[i..][1..] == insts[i + 1..];
  }

  /** `run`. */
  method Run(instrucciones: seq<Instruccion>, fo: FloatOps) returns (r: Execution)
    ensures r == ExecAll(Initial, instrucciones, fo)
  {
    var variables: map<string, Valor> := map[];
    var mutables: map<string, bool> := map[];
    var salida: seq<string> := [];
    var reportes: seq<Report> := [];
    assert instrucciones[0..] == instrucciones;
    for i := 0 to |instrucciones|
      invariant ExecAll(State(Env(variables, mutables), salida, reportes), instrucciones[i..], fo) == ExecAll(Initial, instrucciones, fo)
    {
      var st := State(Env(variables, mutables), salida, reportes);
      var next := Ejecutar(st, instrucciones[i], fo);
      ExecAllStep(st, instrucciones, i, fo);
      if next.Err? {
        return Execution(st, Some(next.error));
      }
      variables, mutables, salida, reportes := next.value.env.vars, next.value.env.mutables, next.value.output, next.value.reports;
    }
    r := Execution(State(Env(variables, mutables), salida, reportes), None);
  }

  /** The body of the loop of `run` for one instruction. */
  method Ejecutar(st: State, inst: Instruccion, fo: FloatOps) returns (r: Result<State, Panic>)
    ensures r == Exec(st, inst, fo)
  {
    var variables, mutables := st.env.vars, st.env.mutables;
    match inst
    case Var(nombre, valor) =>
      if nombre !in variables {
        return Ok(st.(env := Env(variables[nombre := valor], mutables[nombre := false])));
      } else {
        return Ok(st.(reports := st.reports + [Refused(nombre, AlreadyDeclared)]));
      }
    case Mutar(nombre, valor) =>
      if nombre !in variables {
        return Ok(st.(env := Env(variables[nombre := valor], mutables[nombre := true])));
      } else if nombre in mutables && mutables[nombre] {
        return Ok(st.(env := Env(variables[nombre := valor], mutables)));
      } else {
        return Ok(st.(reports := st.reports + [Refused(nombre, Immutable)]));
      }
    case Imprimir(texto) =>
      var linea := Interpreter.ImprimirLinea(texto, variables, fo);
      if linea.Err? {
        return Err(linea.error);
      }
      return Ok(st.(output := st.output + [linea.value]));
  }

  // ---------------------------------------------------------------------------
  // Properties
  // ---------------------------------------------------------------------------

  /** `var` binds an unbound name, not mutable; on a bound name it changes
      nothing but the reports. `mutar` binds an unbound name as mutable and
      replaces the value of a mutable one; on a name bound by `var` it
      changes nothing but the reports. */
  lemma DeclararEffect(st: State, mutable: bool, n: string, v: Valor)
    requires Valid(st.env)
    ensures var r := Declarar(st, mutable, n, v);
      && (n !in st.env.vars ==>
            r == st.(env := Env(st.env.vars[n := v], st.env.mutables[n := mutable])))
      && (n in st.env.vars && mutable && st.env.mutables[n] ==>
            r == st.(env := Env(st.env.vars[n := v], st.env.mutables)))
      && (n in st.env.vars && !mutable ==> r == st.(reports := st.reports + [Refused(n, AlreadyDeclared)]))
      && (n in st.env.vars && mutable && !st.env.mutables[n] ==>
            r == st.(reports := st.reports + [Refused(n, Immutable)]))
  {
  }

  /** Over a whole run the two maps keep equal names, a binding made by
      `var` keeps its value, and output and reports only grow. */
  lemma {:induction false} ExecAllPreserves(st: State, insts: seq<Instruccion>, fo: FloatOps)
    requires Valid(st.env)
    ensures var f := ExecAll(st, insts, fo).state;
      && Valid(f.env)
      && st.env.vars.Keys <= f.env.vars.Keys
      && (forall n | n in st.env.vars && !st.env.mutables[n] ::
            f.env.vars[n] == st.env.vars[n] && !f.env.mutables[n])
      && st.output <= f.output
      && st.reports <= f.reports
    decreases |insts|
  {
    if insts != [] {
      var r := Exec(st, insts[0], fo);
      if r.Ok? {
        match insts[0] {
          case Var(n, v) =>
            if Admit(st.env, false, n).None? {
              BindSpec(st.env, false, n, v);
            }
          case Mutar(n, v) =>
            if Admit(st.env, true, n).None? {
              BindSpec(st.env, true, n, v);
            }
          case Imprimir(_) =>
        }
        ExecAllPreserves(r.value, insts[1..], fo);
      }
    }
  }

  // ---------------------------------------------------------------------------
  // Agreement with the full interpreter
  // ---------------------------------------------------------------------------

  /** A literal declaration is the full language's declaration of a literal
      expression. */
  function Lift(inst: Instruccion): Ast.Instruccion
  {
    match inst
    case Var(n, v) => Ast.Instruccion.Var(n, Ast.Valor(v))
    case Mutar(n, v) => Ast.Instruccion.Mutar(n, Ast.Valor(v))
    case Imprimir(t) => Ast.Instruccion.Imprimir(t)
  }

  function LiftAll(insts: seq<Instruccion>): (r: seq<Ast.Instruccion>)
    ensures |r| == |insts|
  {
    if insts == [] then [] else [Lift(insts[0])] + LiftAll(insts[1..])
  }

  function LiftReports(rs: seq<Report>): (r: seq<Interpreter.Report>)
    ensures |r| == |rs|
  {
    if rs == [] then []
    else LiftReports(rs[..|rs| - 1]) + [Interpreter.Refused(rs[|rs| - 1].name, rs[|rs| - 1].why)]
  }

  function LiftState(st: State): Interpreter.State
  {
    Interpreter.State(st.env, st.output, LiftReports(st.reports))
  }

  lemma LiftReportsPush(rs: seq<Report>, r: Report)
    ensures LiftReports(rs + [r]) == LiftReports(rs) + [Interpreter.Refused(r.name, r.why)]
  {
    assert (rs + [r])[..|rs|] == rs;
  }

  lemma ExecAgrees(st: State, inst: Instruccion, fo: FloatOps)
    ensures var r := Exec(st, inst, fo);
      Interpreter.Exec(LiftState(st), Lift(inst), fo) ==
        match r
        case Ok(next) => Ok(LiftState(next))
        case Err(p) => Err(p)
  {
    match inst
    case Var(n, v) =>
      if Admit(st.env, false, n).Some? {
        LiftReportsPush(st.reports, Refused(n, Admit(st.env, false, n).value));
      }
    case Mutar(n, v) =>
      if Admit(st.env, true, n).Some? {
        LiftReportsPush(st.reports, Refused(n, Admit(st.env, true, n).value));
      }
    case Imprimir(_) =>
  }

  /** Running a program of literal declarations gives the same environment,
      output, reports and panic as the full interpreter running the same
      declarations with literal expressions. */
  lemma {:induction false} RunAgrees(st: State, insts: seq<Instruccion>, fo: FloatOps)
    ensures var e := ExecAll(st, insts, fo);
      Interpreter.ExecAll(LiftState(st), LiftAll(insts), fo) == Interpreter.Execution(LiftState(e.state), e.panic)
    decreases |insts|
  {
    if insts != [] {
      var l := LiftAll(insts);
      assert l[0] == Lift(insts[0]) && l[1..] == LiftAll(insts[1..]);
      ExecAgrees(st, insts[0], fo);
      var r := Exec(st, insts[0], fo);
      if r.Ok? {
        RunAgrees(r.value, insts[1..], fo);
      }
    }
  }
}

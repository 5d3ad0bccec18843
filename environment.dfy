/** The variable environment both interpreters keep while they run
    (roulang/src/interpreter.rs and src/interpreter.rs): a map from names to
    values and a map from names to the "mutable" flag, and the rules by which
    `var` and `mutar` may change them. */
module Environment {
  import opened Results
  import opened Values

  /** `variables` and `mutables`. */
  datatype Env = Env(vars: map<string, Valor>, mutables: map<string, bool>)

  const Empty: Env := Env(map[], map[])

  /** The two maps have the same names. */
  predicate Valid(env: Env)
  {
    env.vars.Keys == env.mutables.Keys
  }

  /** Why a declaration leaves the environment alone. */
  datatype Refusal =
    | AlreadyDeclared  // `var` on a bound name
    | Immutable        // `mutar` on a name bound by `var`

  /** `*mutables.get(nombre).unwrap_or(&false)`. */
  predicate IsMutable(env: Env, name: string)
  {
    name in env.mutables && env.mutables[name]
  }

  /** Whether `var` (`mutable` false) or `mutar` (`mutable` true) may set
      `name`; the value is computed only when it may. */
  function Admit(env: Env, mutable: bool, name: string): Option<Refusal>
  {
    if name !in env.vars then None
    else if !mutable then Some(AlreadyDeclared)
    else if IsMutable(env, name) then None
    else Some(Immutable)
  }

  /** The insertions of an admitted declaration: a new name goes into both
      maps with the declaration's flag; a bound name only gets its value
      replaced. */
  function Bind(env: Env, mutable: bool, name: string, v: Valor): Env
  {
    if name in env.vars then Env(env.vars[name := v], env.mutables)
    else Env(env.vars[name := v], env.mutables[name := mutable])
  }

  /** `var` is admitted exactly on an unbound name. */
  lemma AdmitVar(env: Env, name: string)
    ensures Admit(env, false, name).None? <==> name !in env.vars
    ensures name in env.vars ==> Admit(env, false, name) == Some(AlreadyDeclared)
  {
  }

  /** `mutar` is admitted on an unbound name and on a name `mutar` bound;
      it is refused on a name `var` bound. */
  lemma AdmitMutar(env: Env, name: string)
    requires Valid(env)
    ensures Admit(env, true, name).None? <==> name !in env.vars || env.mutables[name]
    ensures Admit(env, true, name).Some? ==> Admit(env, true, name) == Some(Immutable) && !env.mutables[name]
  {
  }

  /** Binding keeps the two maps' names equal, adds exactly `name`, gives it
      the value, and leaves every other binding and every existing flag as
      it was. */
  lemma BindSpec(env: Env, mutable: bool, name: string, v: Valor)
    requires Valid(env)
    ensures var r := Bind(env, mutable, name, v);
      && Valid(r)
      && r.vars.Keys == env.vars.Keys + {name}
      && r.vars[name] == v
      && (forall n | n in env.vars && n != name :: r.vars[n] == env.vars[n])
      && (forall n | n in env.mutables :: r.mutables[n] == env.mutables[n])
      && (name !in env.vars ==> r.mutables[name] == mutable)
  {
  }

  /** An admitted declaration never changes a binding made by `var`. */
  lemma ImmutableKept(env: Env, mutable: bool, name: string, v: Valor, other: string)
    requires Valid(env) && Admit(env, mutable, name).None?
    requires other in env.vars && !env.mutables[other]
    ensures var r := Bind(env, mutable, name, v);
      other in r.vars && r.vars[other] == env.vars[other] && !r.mutables[other]
  {
  }
}

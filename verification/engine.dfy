/**
 * The task registry and the engine that runs tasks, for both generations:
 * the counting `ran` of lib/main.js and the boolean `ran` of src/main.js.
 *
 * A task body is a JavaScript function in the source; here it is a small
 * statement language over the capabilities a project script uses (`run`,
 * `ran`, `log`, `trace`, `fail`, `exec`, reads and writes of `config` and
 * `project.config`). The JavaScript call stack becomes `fuel`.
 */
module Engine {
  import opened Js
  import Util
  import Log
  import Os

  /** Which generation of the engine runs. */
  datatype Variant = Lib | Src

  /**
   * Everything outside the model: the generation, what src's `fail` is
   * bound to (lib's is always its own), the process spawner and
   * `util.inspect`.
   */
  datatype Env = Env(variant: Variant, srcFail: Util.FailBinding, spawn: Os.Invocation -> Os.SpawnResult,
                     inspect: Util.Inspect)

  // ---------------------------------------------------------------------------
  // Task bodies

  /** An expression inside a task body. */
  datatype Atom =
      /** a literal */
    | Const(v: Value)
      /** the `config` parameter itself */
    | Config
      /** `config[key]` */
    | Arg(key: string)
      /** `project.config[key]`, the same as `this.config[key]` */
    | Setting(key: string)
      /** `ran(name)` */
    | Count(name: string)

  /** A condition: an expression's truthiness, or `||` of two conditions. */
  datatype Cond = Holds(a: Atom) | Either(left: Cond, right: Cond)

  /** The second argument of a nested `run`. */
  datatype Pass =
      /** `run(name)` */
    | Omitted
      /** `run(name, {key: expr, ...})` */
    | Literal(fields: map<string, Atom>)
      /** `run(name, project.config)` */
    | ProjectConfig

  datatype Stmt =
      /** `run(name, config)` */
    | Call(name: string, pass: Pass)
      /** `log(...parts)` */
    | Say(parts: seq<Atom>)
      /** `trace(...parts)` */
    | Trace(parts: seq<Atom>)
      /** `fail(...parts)` */
    | Fail(parts: seq<Atom>)
      /** `exec(command, args, options)`, with its output discarded */
    | Exec(command: string, args: Value, options: Option<Os.Options>)
      /** a side effect outside the model, such as `mkdir('tmp')` */
    | Touch(what: string)
      /** `project.config[key] = expr` */
    | Set(key: string, a: Atom)
      /** `if (cond) { thn } else { els }`, also `a || b` and `a && b` used as statements */
    | If(c: Cond, thn: seq<Stmt>, els: seq<Stmt>)
      /** `return expr` */
    | Return(a: Atom)

  /** No statement of `st`, in any branch, is a nested `run`. */
  predicate StmtRunFree(st: Stmt)
    decreases st
  {
    match st
    case Call(_, _) => false
    case If(_, thn, els) =>
      (forall i | 0 <= i < |thn| :: StmtRunFree(thn[i])) && (forall i | 0 <= i < |els| :: StmtRunFree(els[i]))
    case _ => true
  }

  predicate RunFree(ss: seq<Stmt>) {
    forall i | 0 <= i < |ss| :: StmtRunFree(ss[i])
  }

  // ---------------------------------------------------------------------------
  // The registry

  /**
   * The declared tasks: their bodies, and the order `Object.keys(task)`
   * lists their names in (first declaration first).
   */
  datatype Registry = Registry(order: seq<string>, bodies: map<string, seq<Stmt>>)

  const NoTasks: Registry := Registry([], map[])

  /** Every declared name is listed exactly once. */
  ghost predicate Valid(reg: Registry) {
    && (forall i, j | 0 <= i < j < |reg.order| :: reg.order[i] != reg.order[j])
    && (forall n :: n in reg.bodies <==> n in reg.order)
  }

  /** `task(name, body)`: install the body under the name; a redeclared name keeps its place in the order. */
  function Declare(reg: Registry, name: string, body: seq<Stmt>): (r: Registry)
    ensures Valid(reg) ==> Valid(r)
  {
    Registry(if name in reg.bodies then reg.order else reg.order + [name], reg.bodies[name := body])
  }

  /**
   * Redeclaring replaces the body and nothing else: every other task keeps
   * its body, and the listing order only grows by a name never seen before.
   */
  lemma DeclareReplaces(reg: Registry, name: string, body: seq<Stmt>)
    requires Valid(reg)
    ensures var r := Declare(reg, name, body);
      && r.bodies.Keys == reg.bodies.Keys + {name}
      && r.bodies[name] == body
      && (forall n | n in reg.bodies && n != name :: r.bodies[n] == reg.bodies[n])
      && (name in reg.bodies ==> r.order == reg.order)
      && (name !in reg.bodies ==> r.order == reg.order + [name])
  {
  }

  // ---------------------------------------------------------------------------
  // The session

  /** What a task did outside the model. */
  datatype Effect = Touched(what: string) | Spawned(inv: Os.Invocation)

  /**
   * The build session: the registry, how many times each task has
   * completed, `project.config`, the logger and the outside effects so far.
   */
  datatype Session = Session(tasks: Registry, ran: map<string, nat>, config: map<string, Value>,
                             console: Log.Console, effects: seq<Effect>)

  /**
   * The session a command line starts: the declared tasks, `project.config`
   * as the flags left it, and a fresh logger with `verbose` set from it.
   */
  function Start(tasks: Registry, config: map<string, Value>): (s: Session)
    ensures s.console.indent == 0 && s.console.lines == [] && s.ran == map[]
    ensures s.console.verbose <==> Truthy(Get(Obj(config), "verbose"))
  {
    Session(tasks, map[], config, Log.Fresh.(verbose := Truthy(Get(Obj(config), "verbose"))), [])
  }

  /** How many times `name` has completed. */
  function Completions(s: Session, name: string): nat {
    if name in s.ran then s.ran[name] else 0
  }

  /** The bookkeeping after a body returns: one more completion of `name`. */
  function Record(s: Session, name: string): Session {
    s.(ran := s.ran[name := Completions(s, name) + 1])
  }

  /**
   * `ran(name)`. lib stores `(ran[name] | 0) + 1` and reports `ran[name] | 0`,
   * the completion count wrapped into 32 bits (see `StoredCountAgrees`); src
   * stores `true` and reports `!!ran[name]`, whether the task ever completed.
   */
  function Ran(variant: Variant, s: Session, name: string): (r: Value)
    ensures variant == Lib ==> r.Num? && -TwoTo31 <= r.n < TwoTo31
    ensures variant == Lib && Completions(s, name) < TwoTo31 ==> r == Num(Completions(s, name))
    ensures variant == Src ==> (r == Bool(true) <==> Completions(s, name) > 0)
    ensures variant == Src ==> (r == Bool(false) <==> Completions(s, name) == 0)
  {
    if variant == Lib then Num(ToInt32(Completions(s, name))) else Bool(Completions(s, name) > 0)
  }

  /** What lib/main.js holds in `ran[name]` after `k` completions, starting from `undefined`. */
  function SourceStored(k: nat): int {
    if k == 0 then 0 else ToInt32(SourceStored(k - 1)) + 1
  }

  /** Reading `ran[name] | 0` after `k` completions gives `k` wrapped into 32 bits. */
  lemma {:induction false} StoredCountAgrees(k: nat)
    ensures ToInt32(SourceStored(k)) == ToInt32(k)
  {
    if k > 0 {
      StoredCountAgrees(k - 1);
      StoredStep(SourceStored(k - 1), k);
    }
  }

  /** One more completion: a stored value that agreed with `k - 1` agrees with `k` after `| 0` and `+ 1`. */
  lemma StoredStep(stored: int, k: int)
    requires ToInt32(stored) == ToInt32(k - 1)
    ensures ToInt32(ToInt32(stored) + 1) == ToInt32(k)
  {
    var w := ToInt32(k - 1);
    var d := w - (k - 1);
    assert d % TwoTo32 == 0;
    assert (w + 1) - k == d;
    ToInt32Congruent(w + 1, k);
  }

  /** The task's `config`: `project.config` itself (shared, so writes show through) or a value of its own. */
  datatype Arg = Shared | Given(v: Value)

  function Deref(s: Session, arg: Arg): Value {
    if arg.Shared? then Obj(s.config) else arg.v
  }

  function Eval(env: Env, s: Session, arg: Arg, a: Atom): Value {
    match a
    case Const(v) => v
    case Config => Deref(s, arg)
    case Arg(key) => Get(Deref(s, arg), key)
    case Setting(key) => Get(Obj(s.config), key)
    case Count(name) => Ran(env.variant, s, name)
  }

  function EvalAll(env: Env, s: Session, arg: Arg, parts: seq<Atom>): (r: seq<Value>)
    ensures |r| == |parts|
  {
    seq(|parts|, i requires 0 <= i < |parts| => Eval(env, s, arg, parts[i]))
  }

  predicate Test(env: Env, s: Session, arg: Arg, c: Cond) {
    match c
    case Holds(a) => Truthy(Eval(env, s, arg, a))
    case Either(l, r) => Test(env, s, arg, l) || Test(env, s, arg, r)
  }

  function Passed(env: Env, s: Session, arg: Arg, pass: Pass): Arg {
    match pass
    case Omitted => Given(Undefined)
    case Literal(fields) => Given(Obj(map k | k in fields :: Eval(env, s, arg, fields[k])))
    case ProjectConfig => Shared
  }

  // ---------------------------------------------------------------------------
  // The interpreter

  /** A call that returns a value or throws, and the session it leaves behind either way. */
  datatype Outcome = Outcome(session: Session, result: Result<Value>)

  /** How a statement or block ends. */
  datatype Flow = Normal | Returned(v: Value) | Threw(e: Error)

  datatype Step = Step(session: Session, flow: Flow)

  /**
   * What a call of `fail(...parts)` throws: lib's `fail` always throws the
   * Error with the parts; src's depends on its binding.
   */
  function FailError(env: Env, parts: seq<Value>): (e: Error)
    ensures e.Thrown? <==> env.variant == Lib || env.srcFail == Util.Bound
    ensures e.Thrown? ==> e.parts == parts
    ensures !e.Thrown? ==> e == TypeError("fail is not a function")
  {
    if env.variant == Lib then Util.Fail<Value>(parts).error else Util.FailVia<Value>(env.srcFail, parts).error
  }

  /** The arguments `fail` receives for an undeclared task. */
  function NoSuchTask(s: Session, name: string): seq<Value> {
    [Str("No such task"), Str(name), Str("in"), Str(JoinStrings(s.tasks.order, "|"))]
  }

  /**
   * `run(name, config)`: fail for an undeclared name; otherwise call the
   * task's wrapper and, only when it returns, count one completion.
   * With no fuel left the call stack overflows.
   */
  function Run(env: Env, s: Session, name: string, arg: Arg, fuel: nat): (o: Outcome)
    ensures o.session.tasks == s.tasks
    ensures o.result.Success? ==> name in s.tasks.bodies && fuel > 0 && Completions(o.session, name) >= 1
    decreases fuel, 1
  {
    if name !in s.tasks.bodies then Outcome(s, Failure(FailError(env, NoSuchTask(s, name))))
    else if fuel == 0 then Outcome(s, Failure(StackOverflow))
    else
      var o := Invoke(env, s, name, arg, fuel);
      if o.result.Success? then o.(session := Record(o.session, name)) else o
  }

  function Dedent(s: Session): Session {
    s.(console := s.console.(indent := s.console.indent - 1))
  }

  /**
   * The wrapper `task` installs: print the name, trace the config when it is
   * truthy, indent, run the body with `config || {}`, and unindent when the
   * body returns (but not when it throws).
   */
  function Invoke(env: Env, s: Session, name: string, arg: Arg, fuel: nat): (o: Outcome)
    requires name in s.tasks.bodies && fuel > 0
    ensures o.session.tasks == s.tasks
    decreases fuel, 0
  {
    Finish(ExecBlock(env, Enter(env, s, name, arg), s.tasks.bodies[name], Passing(s, arg), fuel - 1))
  }

  /** The wrapper before the body: the name in bold, the config traced when truthy, one level deeper. */
  function Enter(env: Env, s: Session, name: string, arg: Arg): (t: Session)
    ensures t.tasks == s.tasks && t.ran == s.ran && t.config == s.config && t.effects == s.effects
    ensures t.console.verbose == s.console.verbose && t.console.indent == s.console.indent + 1
    ensures s.console.lines <= t.console.lines && |t.console.lines| > |s.console.lines|
    ensures t.console.lines[|s.console.lines|] == Log.Line(Log.Info, s.console.indent, [Str(name)], env.inspect)
  {
    var given := Deref(s, arg);
    var named := Log.Emit(s.console, Log.Info, [Str(name)], env.inspect);
    var traced := if Truthy(given) then Log.Emit(named, Log.Trace, [Str(env.inspect(given))], env.inspect) else named;
    s.(console := traced.(indent := traced.indent + 1))
  }

  /** `config || {}` */
  function Passing(s: Session, arg: Arg): Arg {
    if Truthy(Deref(s, arg)) then arg else Given(Obj(map[]))
  }

  /** The wrapper after the body: unindent and return, or let the throw through as it is. */
  function Finish(st: Step): (r: Outcome)
    ensures r.result.Failure? <==> st.flow.Threw?
    ensures r.result.Failure? ==> r.session == st.session
    ensures r.result.Success? ==> r.session == Dedent(st.session)
  {
    match st.flow
    case Threw(e) => Outcome(st.session, Failure(e))
    case Normal => Outcome(Dedent(st.session), Success(Undefined))
    case Returned(v) => Outcome(Dedent(st.session), Success(v))
  }

  /** A block never changes the registry: tasks are declared only while the script loads. */
  function ExecBlock(env: Env, s: Session, ss: seq<Stmt>, arg: Arg, fuel: nat): (r: Step)
    ensures r.session.tasks == s.tasks
    decreases fuel, 2, ss
  {
    if |ss| == 0 then Step(s, Normal)
    else
      var st := ExecStmt(env, s, ss[0], arg, fuel);
      if st.flow.Normal? then ExecBlock(env, st.session, ss[1..], arg, fuel) else st
  }

  /** The generation's `exec` normalisation. */
  function Normalise(env: Env, command: string, args: Value, options: Option<Os.Options>): Os.Call {
    if env.variant == Lib then Os.LibExecCall(command, args, options, env.inspect)
    else Os.SrcExecCall(command, args, options, env.inspect)
  }

  /** `exec` as the generation implements it: normalise, trace, spawn, decide. */
  function ExecCall(env: Env, s: Session, command: string, args: Value, options: Option<Os.Options>): (r: Step)
    ensures r.session.tasks == s.tasks && r.session.ran == s.ran && r.session.config == s.config
    ensures r.session.console.indent == s.console.indent && r.session.console.verbose == s.console.verbose
    ensures |r.session.effects| == |s.effects| + 1 && r.session.effects[..|s.effects|] == s.effects
    ensures r.session.effects[|s.effects|] == Spawned(Normalise(env, command, args, options).inv)
    ensures !r.flow.Returned?
    ensures var inv, res := Normalise(env, command, args, options).inv, env.spawn(Normalise(env, command, args, options).inv);
      r.flow.Threw? <==>
        (res.error.Some? || res.status != Some(0)) && (env.variant == Src || Os.FailOn(inv.options))
  {
    var call := Normalise(env, command, args, options);
    var after := s.(console := Log.Emit(s.console, Log.Trace, call.traced, env.inspect),
                    effects := s.effects + [Spawned(call.inv)]);
    var res := env.spawn(call.inv);
    var out := if env.variant == Lib then Os.LibExecOutcome(call.inv, res)
               else Os.SrcExecOutcome(call.inv, res, env.srcFail);
    Step(after, if out.Failure? then Threw(out.error) else Normal)
  }

  /**
   * One statement. It never changes the registry, and only `return`, or an
   * `if` with a `return` inside, ends the body early with a value.
   */
  function ExecStmt(env: Env, s: Session, st: Stmt, arg: Arg, fuel: nat): (r: Step)
    ensures r.session.tasks == s.tasks
    ensures !st.Return? && !st.If? ==> !r.flow.Returned?
    decreases fuel, 2, st
  {
    match st
    case Call(name, pass) =>
      var o := Run(env, s, name, Passed(env, s, arg, pass), fuel);
      Step(o.session, if o.result.Failure? then Threw(o.result.error) else Normal)
    case Say(parts) =>
      Step(s.(console := Log.Emit(s.console, Log.Plain, EvalAll(env, s, arg, parts), env.inspect)), Normal)
    case Trace(parts) =>
      Step(s.(console := Log.Emit(s.console, Log.Trace, EvalAll(env, s, arg, parts), env.inspect)), Normal)
    case Fail(parts) => Step(s, Threw(FailError(env, EvalAll(env, s, arg, parts))))
    case Exec(command, args, options) => ExecCall(env, s, command, args, options)
    case Touch(what) => Step(s.(effects := s.effects + [Touched(what)]), Normal)
    case Set(key, a) => Step(s.(config := s.config[key := Eval(env, s, arg, a)]), Normal)
    case If(c, thn, els) =>
      if Test(env, s, arg, c) then ExecBlock(env, s, thn, arg, fuel) else ExecBlock(env, s, els, arg, fuel)
    case Return(a) => Step(s, Returned(Eval(env, s, arg, a)))
  }

  // ---------------------------------------------------------------------------
  // Build

  const Default: string := "default"

  /** `build(name)` once the name is resolved: lib returns `run`'s result, src traces 'gut!' and returns nothing. */
  function Dispatch(env: Env, s: Session, name: string, fuel: nat): (o: Outcome)
    ensures o.session.tasks == s.tasks
    ensures env.variant == Lib ==> o == Run(env, s, name, Shared, fuel)
    ensures env.variant == Src ==> (o.result.Success? <==> Run(env, s, name, Shared, fuel).result.Success?)
    ensures env.variant == Src && o.result.Success? ==> o.result.value == Undefined
    ensures o.result.Success? ==> Completions(o.session, name) >= 1
  {
    var o := Run(env, s, name, Shared, fuel);
    if env.variant == Lib || o.result.Failure? then o
    else Outcome(o.session.(console := Log.Emit(o.session.console, Log.Trace, [Str("gut!")], env.inspect)),
                 Success(Undefined))
  }

  /**
   * `build(name)`: a missing or empty name means 'default' when that task is
   * declared; otherwise the call of the undefined `usage` throws.
   */
  function Build(env: Env, s: Session, name: Option<string>, fuel: nat): (o: Outcome)
    ensures o.session.tasks == s.tasks
    ensures o.result.Success? ==>
      Completions(o.session, if name.None? || name.value == "" then Default else name.value) >= 1
    ensures env.variant == Src && o.result.Success? ==> o.result.value == Undefined
  {
    if name.None? || name.value == "" then
      if Default in s.tasks.bodies then Dispatch(env, s, Default, fuel)
      else Outcome(s, Failure(NotDefined("usage")))
    else Dispatch(env, s, name.value, fuel)
  }

  /** The `exit` listener lib `build` registers: reset the indent, then trace the exit code. */
  function AtExit(c: Log.Console, code: int, inspect: Util.Inspect): (r: Log.Console)
    ensures r.indent == 0 && r.verbose == c.verbose
    ensures c.verbose ==> r.lines == c.lines + [Log.Line(Log.Trace, 0, [Str("exit"), Num(ToInt32(code))], inspect)]
    ensures !c.verbose ==> r.lines == c.lines
  {
    Log.Emit(c.(indent := 0), Log.Trace, [Str("exit"), Num(ToInt32(code))], inspect)
  }

  // ---------------------------------------------------------------------------
  // Properties

  /**
   * A declared task with fuel runs its body one level deeper. A throw
   * passes through with the session as the body left it; otherwise the
   * body's value (or undefined) is returned, the indent is back at the
   * caller's, and exactly `name` gains one completion.
   */
  lemma RunBody(env: Env, s: Session, name: string, arg: Arg, fuel: nat)
    requires name in s.tasks.bodies && fuel > 0
    ensures var st := ExecBlock(env, Enter(env, s, name, arg), s.tasks.bodies[name], Passing(s, arg), fuel - 1);
      var o := Run(env, s, name, arg, fuel);
      && (o.result.Failure? <==> st.flow.Threw?)
      && (st.flow.Threw? ==> o == Outcome(st.session, Failure(st.flow.e)))
      && (st.flow.Returned? ==> o.result == Success(st.flow.v))
      && (st.flow.Normal? ==> o.result == Success(Undefined))
      && (o.result.Success? ==>
            && Completions(o.session, name) == Completions(st.session, name) + 1
            && (forall n | n != name :: Completions(o.session, n) == Completions(st.session, n))
            && o.session.console.indent == s.console.indent
            && o.session.console.lines == st.session.console.lines
            && o.session.effects == st.session.effects
            && o.session.config == st.session.config)
  {
    var inner := Enter(env, s, name, arg);
    BlockEvolves(env, inner, s.tasks.bodies[name], Passing(s, arg), fuel - 1);
  }

  /** A block runs its first statement and, if that completes normally, the rest. */
  lemma BlockStep(env: Env, s: Session, ss: seq<Stmt>, arg: Arg, fuel: nat)
    requires |ss| > 0
    ensures var st := ExecStmt(env, s, ss[0], arg, fuel);
      ExecBlock(env, s, ss, arg, fuel) == if st.flow.Normal? then ExecBlock(env, st.session, ss[1..], arg, fuel) else st
  {
  }

  /** What any run leaves intact: the registry, verbosity, what was printed and done, and completions only grow. */
  ghost predicate Evolves(s: Session, t: Session) {
    && t.tasks == s.tasks
    && t.console.verbose == s.console.verbose
    && s.console.lines <= t.console.lines
    && s.effects <= t.effects
    && (forall n :: Completions(s, n) <= Completions(t, n))
  }

  lemma EvolvesTrans(a: Session, b: Session, c: Session)
    requires Evolves(a, b) && Evolves(b, c)
    ensures Evolves(a, c)
  {
  }

  /**
   * A run leaves the registry alone and only adds output and completions;
   * when it returns, the indent is back where it was and `name` has
   * completed at least once more.
   */
  lemma {:induction false} RunEvolves(env: Env, s: Session, name: string, arg: Arg, fuel: nat)
    ensures var o := Run(env, s, name, arg, fuel);
      && Evolves(s, o.session)
      && (o.result.Success? ==> o.session.console.indent == s.console.indent)
      && (o.result.Success? ==> Completions(o.session, name) >= Completions(s, name) + 1)
    decreases fuel, 1
  {
    if name in s.tasks.bodies && fuel > 0 {
      InvokeEvolves(env, s, name, arg, fuel);
    }
  }

  lemma {:induction false} InvokeEvolves(env: Env, s: Session, name: string, arg: Arg, fuel: nat)
    requires name in s.tasks.bodies && fuel > 0
    ensures var o := Invoke(env, s, name, arg, fuel);
      && Evolves(s, o.session)
      && (o.result.Success? ==> o.session.console.indent == s.console.indent)
    decreases fuel, 0
  {
    var inner, passed := Enter(env, s, name, arg), Passing(s, arg);
    var st := ExecBlock(env, inner, s.tasks.bodies[name], passed, fuel - 1);
    BlockEvolves(env, inner, s.tasks.bodies[name], passed, fuel - 1);
    EvolvesTrans(s, inner, st.session);
    assert Evolves(st.session, Finish(st).session);
    EvolvesTrans(s, st.session, Finish(st).session);
  }

  lemma {:induction false} BlockEvolves(env: Env, s: Session, ss: seq<Stmt>, arg: Arg, fuel: nat)
    ensures var st := ExecBlock(env, s, ss, arg, fuel);
      && Evolves(s, st.session)
      && (!st.flow.Threw? ==> st.session.console.indent == s.console.indent)
    decreases fuel, 2, ss
  {
    if |ss| > 0 {
      var st := ExecStmt(env, s, ss[0], arg, fuel);
      StmtEvolves(env, s, ss[0], arg, fuel);
      if st.flow.Normal? {
        BlockEvolves(env, st.session, ss[1..], arg, fuel);
        EvolvesTrans(s, st.session, ExecBlock(env, st.session, ss[1..], arg, fuel).session);
      }
    }
  }

  lemma {:induction false} StmtEvolves(env: Env, s: Session, st: Stmt, arg: Arg, fuel: nat)
    ensures var r := ExecStmt(env, s, st, arg, fuel);
      && Evolves(s, r.session)
      && (!r.flow.Threw? ==> r.session.console.indent == s.console.indent)
    decreases fuel, 2, st
  {
    match st
    case Call(name, pass) => RunEvolves(env, s, name, Passed(env, s, arg, pass), fuel);
    case If(c, thn, els) =>
      if Test(env, s, arg, c) {
        BlockEvolves(env, s, thn, arg, fuel);
      } else {
        BlockEvolves(env, s, els, arg, fuel);
      }
    case _ =>
  }

  /**
   * `run` on an undeclared name leaves everything as it was: no body runs,
   * nothing is printed, no count moves. lib, and src with `fail` bound,
   * throw 'No such task', the name, 'in' and the declared names joined by
   * '|'; src as written calls the undefined global `fail` instead.
   */
  lemma RunUndeclared(env: Env, s: Session, name: string, arg: Arg, fuel: nat)
    requires name !in s.tasks.bodies
    ensures Run(env, s, name, arg, fuel).session == s
    ensures env.variant == Lib || env.srcFail == Util.Bound ==>
      && Run(env, s, name, arg, fuel) == Outcome(s, Failure(Thrown(NoSuchTask(s, name))))
      && Util.Message(Thrown(NoSuchTask(s, name)), env.inspect) == Util.Join(NoSuchTask(s, name), " ", env.inspect)
    ensures env.variant == Src && env.srcFail == Util.Unbound ==>
      Run(env, s, name, arg, fuel) == Outcome(s, Failure(TypeError("fail is not a function")))
  {
  }

  /**
   * src as written: every place the engine calls `fail` (an undeclared name
   * given to `run`, a `fail(...)` in a task body, an `exec` that exits
   * non-zero) throws the TypeError of calling undefined, so no Error with
   * the parts is ever thrown, in the same session as with `fail` bound.
   */
  lemma SrcFailUnbound(env: Env, s: Session, st: Stmt, arg: Arg, fuel: nat)
    requires env.variant == Src && env.srcFail == Util.Unbound
    requires st.Fail? || (st.Call? && st.name !in s.tasks.bodies)
      || (st.Exec? && var inv := Normalise(env, st.command, st.args, st.options).inv;
                      env.spawn(inv).error.None? && env.spawn(inv).status != Some(0))
    ensures ExecStmt(env, s, st, arg, fuel).flow == Threw(TypeError("fail is not a function"))
    ensures ExecStmt(env, s, st, arg, fuel).session == ExecStmt(env.(srcFail := Util.Bound), s, st, arg, fuel).session
    ensures ExecStmt(env.(srcFail := Util.Bound), s, st, arg, fuel).flow.Threw?
    ensures ExecStmt(env.(srcFail := Util.Bound), s, st, arg, fuel).flow.e.Thrown?
  {
  }

  /** A body without nested runs changes no completion count. */
  lemma {:induction false} BlockKeepsCounts(env: Env, s: Session, ss: seq<Stmt>, arg: Arg, fuel: nat)
    requires RunFree(ss)
    ensures ExecBlock(env, s, ss, arg, fuel).session.ran == s.ran
    decreases fuel, 2, ss
  {
    if |ss| > 0 {
      var st := ExecStmt(env, s, ss[0], arg, fuel);
      StmtKeepsCounts(env, s, ss[0], arg, fuel);
      if st.flow.Normal? {
        BlockKeepsCounts(env, st.session, ss[1..], arg, fuel);
      }
    }
  }

  lemma {:induction false} StmtKeepsCounts(env: Env, s: Session, st: Stmt, arg: Arg, fuel: nat)
    requires StmtRunFree(st)
    ensures ExecStmt(env, s, st, arg, fuel).session.ran == s.ran
    decreases fuel, 2, st
  {
    match st
    case If(c, thn, els) =>
      if Test(env, s, arg, c) {
        BlockKeepsCounts(env, s, thn, arg, fuel);
      } else {
        BlockKeepsCounts(env, s, els, arg, fuel);
      }
    case _ =>
  }

  /**
   * Running a declared task whose body runs no other task invokes it once:
   * when it returns, its count goes up by exactly one and no other count
   * moves; when it throws, no count moves at all.
   */
  lemma RunCountsOnce(env: Env, s: Session, name: string, arg: Arg, fuel: nat)
    requires name in s.tasks.bodies && fuel > 0 && RunFree(s.tasks.bodies[name])
    ensures var o := Run(env, s, name, arg, fuel);
      && (o.result.Success? ==> o.session.ran == s.ran[name := Completions(s, name) + 1])
      && (o.result.Failure? ==> o.session.ran == s.ran)
  {
    var inner, passed := Enter(env, s, name, arg), Passing(s, arg);
    var st := ExecBlock(env, inner, s.tasks.bodies[name], passed, fuel - 1);
    BlockKeepsCounts(env, inner, s.tasks.bodies[name], passed, fuel - 1);
    assert Finish(st).session.ran == s.ran;
  }

  /**
   * The wrapper prints the task's name, bold and at the caller's indent,
   * before anything else, whether or not the body later throws.
   */
  lemma RunAnnounces(env: Env, s: Session, name: string, arg: Arg, fuel: nat)
    requires name in s.tasks.bodies && fuel > 0
    ensures var lines := Run(env, s, name, arg, fuel).session.console.lines;
      && |lines| > |s.console.lines|
      && lines[|s.console.lines|] == Log.Line(Log.Info, s.console.indent, [Str(name)], env.inspect)
  {
    var inner, passed := Enter(env, s, name, arg), Passing(s, arg);
    BlockEvolves(env, inner, s.tasks.bodies[name], passed, fuel - 1);
    var st := ExecBlock(env, inner, s.tasks.bodies[name], passed, fuel - 1);
    assert Run(env, s, name, arg, fuel).session.console.lines == st.session.console.lines;
  }

  /** The body sees `config || {}`: its own config when truthy, a fresh empty object otherwise. */
  lemma BodyGetsConfigOrEmpty(env: Env, s: Session, name: string, v: Value, fuel: nat)
    requires name in s.tasks.bodies && s.tasks.bodies[name] == [Return(Config)] && fuel > 0
    ensures Run(env, s, name, Given(v), fuel).result == Success(Or(v, Obj(map[])))
  {
    var inner, passed := Enter(env, s, name, Given(v)), Passing(s, Given(v));
    assert ExecBlock(env, inner, [Return(Config)], passed, fuel - 1) == Step(inner, Returned(Or(v, Obj(map[]))));
  }

  /**
   * The indent is not restored when a body throws: after a failed task the
   * logger stays one level deeper, until the `exit` listener resets it.
   */
  lemma ThrowLeavesIndent(env: Env, s: Session, name: string, arg: Arg, fuel: nat, parts: seq<Atom>)
    requires name in s.tasks.bodies && s.tasks.bodies[name] == [Fail(parts)] && fuel > 0
    ensures var o := Run(env, s, name, arg, fuel);
      && o.result.Failure?
      && o.session.console.indent == s.console.indent + 1
      && AtExit(o.session.console, 1, env.inspect).indent == 0
  {
    var inner, passed := Enter(env, s, name, arg), Passing(s, arg);
    var e := FailError(env, EvalAll(env, inner, passed, parts));
    assert ExecBlock(env, inner, [Fail(parts)], passed, fuel - 1) == Step(inner, Threw(e));
  }

  /** src: once a task has completed, `ran` reports true for it, and it never goes back to false. */
  lemma SrcRanSticky(env: Env, s: Session, name: string, arg: Arg, fuel: nat, other: string)
    requires env.variant == Src
    ensures var o := Run(env, s, name, arg, fuel);
      && (o.result.Success? ==> Ran(Src, o.session, name) == Bool(true))
      && (Ran(Src, s, other) == Bool(true) ==> Ran(Src, o.session, other) == Bool(true))
  {
    RunEvolves(env, s, name, arg, fuel);
    var o := Run(env, s, name, arg, fuel);
    assert Completions(s, other) <= Completions(o.session, other);
  }

  /** lib: a returning run of a task counted fewer than 2^31 - 1 times makes `ran` report more than before. */
  lemma LibRanGrows(env: Env, s: Session, name: string, arg: Arg, fuel: nat)
    requires env.variant == Lib
    ensures var o := Run(env, s, name, arg, fuel);
      o.result.Success? && Completions(o.session, name) < TwoTo31 ==>
        Ran(Lib, o.session, name).n >= Ran(Lib, s, name).n + 1
  {
    RunEvolves(env, s, name, arg, fuel);
  }

  /**
   * `build()` with no name (or an empty one) runs 'default' with
   * `project.config` when it is declared, and otherwise throws without
   * running anything; lib then hands back exactly what that run returned.
   */
  lemma BuildResolves(env: Env, s: Session, name: Option<string>, fuel: nat)
    requires name.None? || name == Some("")
    ensures Default in s.tasks.bodies && env.variant == Lib ==>
      Build(env, s, name, fuel) == Run(env, s, Default, Shared, fuel)
    ensures Default in s.tasks.bodies && env.variant == Src ==>
      Build(env, s, name, fuel) == Build(env, s, Some(Default), fuel)
    ensures Default !in s.tasks.bodies ==> Build(env, s, name, fuel) == Outcome(s, Failure(NotDefined("usage")))
  {
  }

  /** src `build` returns nothing on success, after tracing 'gut!', and fails exactly when its run fails. */
  lemma SrcBuildReturnsNothing(env: Env, s: Session, name: string, fuel: nat)
    requires env.variant == Src && name != ""
    ensures var o := Build(env, s, Some(name), fuel);
      var r := Run(env, s, name, Shared, fuel);
      && (o.result.Success? <==> r.result.Success?)
      && (o.result.Success? ==> o.result.value == Undefined)
      && (o.result.Failure? ==> o == r)
      && (o.result.Success? && s.console.verbose ==>
            o.session.console.lines == r.session.console.lines
                 + [Log.Line(Log.Trace, r.session.console.indent, [Str("gut!")], env.inspect)])
  {
    RunEvolves(env, s, name, Shared, fuel);
    assert [Str("gut!")][..0] == [];
    assert Util.Join([Str("gut!")], " ", env.inspect) == "gut! ";
  }
}

/**
 * The example project of the repository, written in the task-body language,
 * and what building its default task does when every command succeeds.
 */
module Scenario {
  import opened Js
  import Os
  import Engine

  /** What a spawned command reports when it exits cleanly without piped output. */
  const Ok: Os.SpawnResult := Os.SpawnResult(None, Some(0), None)

  /** Every command the environment runs exits with status 0. */
  ghost predicate Succeeds(env: Engine.Env) {
    forall inv :: env.spawn(inv) == Ok
  }

  const Files: seq<string> := ["path/to/file1", "path/to/file2"]

  /** The command compiling one file, with or without `--debug`. */
  function Compiler(debug: bool, file: string): string {
    if debug then "compiler --debug " + file + " tmp" else "compiler " + file + " tmp"
  }

  /** `project.config.debug || config.debug` */
  const DebugCond: Engine.Cond := Engine.Either(Engine.Holds(Engine.Setting("debug")), Engine.Holds(Engine.Arg("debug")))

  /** One iteration of compile's `each`: a debug or a plain compiler call. */
  function CompileFile(file: string): Engine.Stmt {
    Engine.If(DebugCond,
              [Engine.Exec(Compiler(true, file), Undefined, None)],
              [Engine.Exec(Compiler(false, file), Undefined, None)])
  }

  /** `ran(name) || run(name)` */
  function Ensure(name: string): Engine.Stmt {
    Engine.If(Engine.Holds(Engine.Count(name)), [], [Engine.Call(name, Engine.Omitted)])
  }

  function Exec(command: string): Engine.Stmt {
    Engine.Exec(command, Undefined, None)
  }

  const DefaultBody: seq<Engine.Stmt> := [
    Engine.Call("clean", Engine.Omitted),
    Engine.Call("setup", Engine.Omitted),
    Engine.Call("compile", Engine.Omitted),
    Engine.Call("test", Engine.Omitted),
    Engine.Call("package", Engine.Omitted),
    Engine.Call("deploy", Engine.Literal(map["username" := Engine.Arg("username"), "password" := Engine.Arg("password")]))
  ]

  const DebugBody: seq<Engine.Stmt> := [
    Engine.Call("clean", Engine.Omitted),
    Engine.Call("setup", Engine.Omitted),
    Engine.Call("compile", Engine.Literal(map["debug" := Engine.Const(Bool(true))])),
    Engine.Call("test", Engine.Literal(map["all" := Engine.Const(Bool(true))]))
  ]

  const CleanBody: seq<Engine.Stmt> := [Engine.Touch("rmdir tmp")]

  const SetupBody: seq<Engine.Stmt> := [Engine.Touch("mkdir tmp")]

  const CompileBody: seq<Engine.Stmt> := [Ensure("setup"), CompileFile(Files[0]), CompileFile(Files[1])]

  const TestBody: seq<Engine.Stmt> := [
    Ensure("compile"),
    Exec("tester tests/common"),
    Engine.If(Engine.Holds(Engine.Arg("all")), [Exec("tester tests/special")], [])
  ]

  const PackageBody: seq<Engine.Stmt> := [Exec("packager tmp package.pkg")]

  const DeployBody: seq<Engine.Stmt> := []

  /** A script declaring `names[i]` with `bodies[i]`, one after the other. */
  function DeclareAll(reg: Engine.Registry, names: seq<string>, bodies: seq<seq<Engine.Stmt>>): (r: Engine.Registry)
    requires |names| == |bodies|
    ensures Engine.Valid(reg) ==> Engine.Valid(r)
    decreases |names|
  {
    if |names| == 0 then reg
    else DeclareAll(Engine.Declare(reg, names[0], bodies[0]), names[1..], bodies[1..])
  }

  predicate Distinct(names: seq<string>) {
    forall i, j | 0 <= i < j < |names| :: names[i] != names[j]
  }

  /**
   * Declaring distinct names none of which is declared yet lists them in
   * order after the existing ones and gives each its own body.
   */
  lemma {:induction false} DeclareAllFresh(reg: Engine.Registry, names: seq<string>, bodies: seq<seq<Engine.Stmt>>)
    requires |names| == |bodies| && Distinct(names)
    requires forall i | 0 <= i < |names| :: names[i] !in reg.bodies
    ensures DeclareAll(reg, names, bodies).order == reg.order + names
    ensures forall i | 0 <= i < |names| ::
      names[i] in DeclareAll(reg, names, bodies).bodies && DeclareAll(reg, names, bodies).bodies[names[i]] == bodies[i]
    decreases |names|
  {
    if |names| > 0 {
      var next := Engine.Declare(reg, names[0], bodies[0]);
      var rest, more := names[1..], bodies[1..];
      RestFresh(reg, names, bodies[0]);
      DeclareAllFresh(next, rest, more);
      assert reg.order + [names[0]] + rest == reg.order + names;
      DeclareAllKeeps(next, rest, more, names[0]);
      var r := DeclareAll(reg, names, bodies);
      assert r == DeclareAll(next, rest, more);
      forall i | 0 <= i < |names|
        ensures names[i] in r.bodies && r.bodies[names[i]] == bodies[i]
      {
        if i > 0 {
          assert rest[i - 1] == names[i] && more[i - 1] == bodies[i];
        }
      }
    }
  }

  /** After the first of distinct fresh names is declared, the others are still distinct, fresh and unlike it. */
  lemma RestFresh(reg: Engine.Registry, names: seq<string>, body: seq<Engine.Stmt>)
    requires |names| > 0 && Distinct(names)
    requires forall i | 0 <= i < |names| :: names[i] !in reg.bodies
    ensures Distinct(names[1..])
    ensures forall i | 0 <= i < |names[1..]| :: names[1..][i] !in Engine.Declare(reg, names[0], body).bodies
    ensures forall k | 0 <= k < |names[1..]| :: names[1..][k] != names[0]
  {
    forall k | 0 <= k < |names[1..]|
      ensures names[1..][k] != names[0] && names[1..][k] !in reg.bodies
    {
      assert names[1..][k] == names[k + 1];
    }
  }

  /** A name the script does not mention keeps whatever body it had. */
  lemma {:induction false} DeclareAllKeeps(reg: Engine.Registry, names: seq<string>, bodies: seq<seq<Engine.Stmt>>, n: string)
    requires |names| == |bodies| && n in reg.bodies
    requires forall k | 0 <= k < |names| :: names[k] != n
    ensures n in DeclareAll(reg, names, bodies).bodies
    ensures DeclareAll(reg, names, bodies).bodies[n] == reg.bodies[n]
    decreases |names|
  {
    if |names| > 0 {
      assert names[0] != n;
      DeclareAllKeeps(Engine.Declare(reg, names[0], bodies[0]), names[1..], bodies[1..], n);
    }
  }

  const Names: seq<string> := ["default", "debug", "clean", "setup", "compile", "test", "package", "deploy"]

  /** The registry the example script declares, in declaration order. */
  const Bodies: seq<seq<Engine.Stmt>> := [DefaultBody, DebugBody, CleanBody, SetupBody, CompileBody, TestBody, PackageBody, DeployBody]

  function Example(): Engine.Registry {
    DeclareAll(Engine.NoTasks, Names, Bodies)
  }

  /** The example registry lists the eight tasks in declaration order, each with its own body. */
  lemma ExampleTasks()
    ensures Example().order == Names
    ensures Engine.Valid(Example())
    ensures forall i | 0 <= i < |Names| :: Names[i] in Example().bodies && Example().bodies[Names[i]] == Bodies[i]
  {
    NamesDistinct();
    DeclaredFromScratch(Names, Bodies);
  }

  lemma NamesDistinct()
    ensures Distinct(Names)
  {
  }

  /** A script of distinct names run against an empty registry declares exactly those names. */
  lemma DeclaredFromScratch(names: seq<string>, bodies: seq<seq<Engine.Stmt>>)
    requires |names| == |bodies| && Distinct(names)
    ensures DeclareAll(Engine.NoTasks, names, bodies).order == names
    ensures Engine.Valid(DeclareAll(Engine.NoTasks, names, bodies))
    ensures forall i | 0 <= i < |names| ::
      names[i] in DeclareAll(Engine.NoTasks, names, bodies).bodies && DeclareAll(Engine.NoTasks, names, bodies).bodies[names[i]] == bodies[i]
  {
    assert Engine.Valid(Engine.NoTasks);
    DeclareAllFresh(Engine.NoTasks, names, bodies);
    assert Engine.NoTasks.order + names == names;
  }

  /** The invocation `exec(command)` spawns in the given generation. */
  function Spawn(env: Engine.Env, command: string): Os.Invocation {
    Engine.Normalise(env, command, Undefined, None).inv
  }

  /** A step that completes normally, keeps registry, configuration, indent and counts, and adds `added` to the effects. */
  predicate Quiet(s: Engine.Session, st: Engine.Step, added: seq<Engine.Effect>) {
    && st.flow == Engine.Normal
    && st.session.tasks == s.tasks && st.session.config == s.config
    && st.session.console.indent == s.console.indent
    && st.session.ran == s.ran
    && st.session.effects == s.effects + added
  }

  /** What a run that completed without nested runs looks like from outside. */
  predicate Completed(s: Engine.Session, o: Engine.Outcome, name: string, added: seq<Engine.Effect>) {
    && o.result == Success(Undefined)
    && o.session.tasks == s.tasks && o.session.config == s.config
    && o.session.console.indent == s.console.indent
    && o.session.ran == s.ran[name := Engine.Completions(s, name) + 1]
    && o.session.effects == s.effects + added
  }

  lemma RunNormal(env: Engine.Env, s: Engine.Session, name: string, arg: Engine.Arg, fuel: nat, inner: nat, added: seq<Engine.Effect>)
    requires name in s.tasks.bodies && fuel > 0 && inner == fuel - 1
    requires Quiet(Engine.Enter(env, s, name, arg),
                   Engine.ExecBlock(env, Engine.Enter(env, s, name, arg), s.tasks.bodies[name], Engine.Passing(s, arg), inner),
                   added)
    ensures Completed(s, Engine.Run(env, s, name, arg, fuel), name, added)
  {
    Engine.RunBody(env, s, name, arg, fuel);
  }

  lemma Done(env: Engine.Env, s: Engine.Session, arg: Engine.Arg, fuel: nat)
    ensures Quiet(s, Engine.ExecBlock(env, s, [], arg, fuel), [])
  {
    assert s.effects + [] == s.effects;
  }

  lemma Chain(env: Engine.Env, s: Engine.Session, ss: seq<Engine.Stmt>, arg: Engine.Arg, fuel: nat,
              first: seq<Engine.Effect>, rest: seq<Engine.Effect>)
    requires |ss| > 0
    requires Quiet(s, Engine.ExecStmt(env, s, ss[0], arg, fuel), first)
    requires Quiet(Engine.ExecStmt(env, s, ss[0], arg, fuel).session,
                   Engine.ExecBlock(env, Engine.ExecStmt(env, s, ss[0], arg, fuel).session, ss[1..], arg, fuel), rest)
    ensures Quiet(s, Engine.ExecBlock(env, s, ss, arg, fuel), first + rest)
  {
    Engine.BlockStep(env, s, ss, arg, fuel);
    assert s.effects + first + rest == s.effects + (first + rest);
  }

  /** A command that succeeds is recorded and the statement completes normally. */
  lemma ExecOk(env: Engine.Env, s: Engine.Session, command: string, arg: Engine.Arg, fuel: nat)
    requires Succeeds(env)
    ensures Quiet(s, Engine.ExecStmt(env, s, Exec(command), arg, fuel), [Engine.Spawned(Spawn(env, command))])
  {
    assert env.spawn(Spawn(env, command)) == Ok;
  }

  lemma RunTouch(env: Engine.Env, s: Engine.Session, name: string, what: string, arg: Engine.Arg, fuel: nat)
    requires name in s.tasks.bodies && s.tasks.bodies[name] == [Engine.Touch(what)] && fuel > 0
    ensures Completed(s, Engine.Run(env, s, name, arg, fuel), name, [Engine.Touched(what)])
  {
    var f := fuel - 1;
    var inner, passed := Engine.Enter(env, s, name, arg), Passing(s, arg);
    var st := Engine.ExecStmt(env, inner, Engine.Touch(what), passed, f);
    Done(env, st.session, passed, f);
    Chain(env, inner, [Engine.Touch(what)], passed, f, [Engine.Touched(what)], []);
    RunNormal(env, s, name, arg, fuel, f, [Engine.Touched(what)]);
  }

  lemma RunEmpty(env: Engine.Env, s: Engine.Session, name: string, arg: Engine.Arg, fuel: nat)
    requires name in s.tasks.bodies && s.tasks.bodies[name] == [] && fuel > 0
    ensures Completed(s, Engine.Run(env, s, name, arg, fuel), name, [])
  {
    var f := fuel - 1;
    Done(env, Engine.Enter(env, s, name, arg), Passing(s, arg), f);
    RunNormal(env, s, name, arg, fuel, f, []);
  }

  function Passing(s: Engine.Session, arg: Engine.Arg): Engine.Arg {
    Engine.Passing(s, arg)
  }

  /** A task whose body is a single successful command. */
  lemma RunExec(env: Engine.Env, s: Engine.Session, name: string, command: string, arg: Engine.Arg, fuel: nat)
    requires Succeeds(env)
    requires name in s.tasks.bodies && s.tasks.bodies[name] == [Exec(command)] && fuel > 0
    ensures Completed(s, Engine.Run(env, s, name, arg, fuel), name, [Engine.Spawned(Spawn(env, command))])
  {
    var f := fuel - 1;
    var inner, passed := Engine.Enter(env, s, name, arg), Passing(s, arg);
    ExecOk(env, inner, command, passed, f);
    var st := Engine.ExecStmt(env, inner, Exec(command), passed, f);
    Done(env, st.session, passed, f);
    Chain(env, inner, [Exec(command)], passed, f, [Engine.Spawned(Spawn(env, command))], []);
    RunNormal(env, s, name, arg, fuel, f, [Engine.Spawned(Spawn(env, command))]);
  }

  /** One compile step, given whether the debug branch is taken. */
  lemma CompileFileOk(env: Engine.Env, s: Engine.Session, file: string, arg: Engine.Arg, fuel: nat, debug: bool)
    requires Succeeds(env)
    requires debug <==> Engine.Test(env, s, arg, DebugCond)
    ensures Quiet(s, Engine.ExecStmt(env, s, CompileFile(file), arg, fuel), [Engine.Spawned(Spawn(env, Compiler(debug, file)))])
  {
    var added := [Engine.Spawned(Spawn(env, Compiler(debug, file)))];
    ExecOk(env, s, Compiler(debug, file), arg, fuel);
    var st := Engine.ExecStmt(env, s, Exec(Compiler(debug, file)), arg, fuel);
    Done(env, st.session, arg, fuel);
    Chain(env, s, [Exec(Compiler(debug, file))], arg, fuel, added, []);
  }

  /** `ran(name) || run(name)` once `name` has completed: nothing happens. */
  lemma EnsureDone(env: Engine.Env, s: Engine.Session, name: string, arg: Engine.Arg, fuel: nat)
    requires 0 < Engine.Completions(s, name) < TwoTo31
    ensures Quiet(s, Engine.ExecStmt(env, s, Ensure(name), arg, fuel), [])
  {
    Done(env, s, arg, fuel);
  }

  /** Whether compile takes the debug branch depends on the configuration alone. */
  lemma DebugStable(env: Engine.Env, s: Engine.Session, t: Engine.Session, arg: Engine.Arg)
    requires s.config == t.config
    ensures Engine.Test(env, s, arg, DebugCond) <==> Engine.Test(env, t, arg, DebugCond)
    ensures Engine.Test(env, s, arg, DebugCond) <==>
      Truthy(Get(Obj(s.config), "debug")) || Truthy(Get(Engine.Deref(s, arg), "debug"))
  {
  }

  /** Both compile steps, one after the other. */
  lemma CompileBoth(env: Engine.Env, s: Engine.Session, f0: string, f1: string, arg: Engine.Arg, fuel: nat, debug: bool)
    requires Succeeds(env)
    requires debug <==> Engine.Test(env, s, arg, DebugCond)
    ensures Quiet(s, Engine.ExecBlock(env, s, [CompileFile(f0), CompileFile(f1)], arg, fuel),
                  [Engine.Spawned(Spawn(env, Compiler(debug, f0))), Engine.Spawned(Spawn(env, Compiler(debug, f1)))])
  {
    var first, second := [Engine.Spawned(Spawn(env, Compiler(debug, f0)))], [Engine.Spawned(Spawn(env, Compiler(debug, f1)))];
    CompileFileOk(env, s, f0, arg, fuel, debug);
    var s1 := Engine.ExecStmt(env, s, CompileFile(f0), arg, fuel).session;
    DebugStable(env, s, s1, arg);
    CompileFileOk(env, s1, f1, arg, fuel, debug);
    var s2 := Engine.ExecStmt(env, s1, CompileFile(f1), arg, fuel).session;
    Done(env, s2, arg, fuel);
    Chain(env, s1, [CompileFile(f1)], arg, fuel, second, []);
    assert [CompileFile(f0), CompileFile(f1)][1..] == [CompileFile(f1)];
    Chain(env, s, [CompileFile(f0), CompileFile(f1)], arg, fuel, first, second + []);
    assert first + (second + []) == first + second;
  }

  /**
   * `compile` once `setup` has run: both files are compiled, in order, with
   * `--debug` exactly when `project.config.debug` or `config.debug` is truthy.
   */
  lemma RunCompile(env: Engine.Env, s: Engine.Session, arg: Engine.Arg, fuel: nat, f0: string, f1: string)
    requires Succeeds(env)
    requires "compile" in s.tasks.bodies && s.tasks.bodies["compile"] == [Ensure("setup"), CompileFile(f0), CompileFile(f1)]
    requires fuel > 0 && 0 < Engine.Completions(s, "setup") < TwoTo31
    ensures var debug := Truthy(Get(Obj(s.config), "debug")) || Truthy(Get(Engine.Deref(s, Passing(s, arg)), "debug"));
      Completed(s, Engine.Run(env, s, "compile", arg, fuel), "compile",
                [Engine.Spawned(Spawn(env, Compiler(debug, f0))), Engine.Spawned(Spawn(env, Compiler(debug, f1)))])
  {
    var f := fuel - 1;
    var body := [Ensure("setup"), CompileFile(f0), CompileFile(f1)];
    var inner, passed := Engine.Enter(env, s, "compile", arg), Passing(s, arg);
    var debug := Truthy(Get(Obj(s.config), "debug")) || Truthy(Get(Engine.Deref(s, passed), "debug"));
    var added := [Engine.Spawned(Spawn(env, Compiler(debug, f0))), Engine.Spawned(Spawn(env, Compiler(debug, f1)))];
    EnsureDone(env, inner, "setup", passed, f);
    var s1 := Engine.ExecStmt(env, inner, Ensure("setup"), passed, f).session;
    DebugStable(env, s, s1, passed);
    CompileBoth(env, s1, f0, f1, passed, f, debug);
    assert body[1..] == [CompileFile(f0), CompileFile(f1)];
    Chain(env, inner, body, passed, f, [], added);
    assert [] + added == added;
    RunNormal(env, s, "compile", arg, fuel, f, added);
  }

  /** The rest of `test` after the guard: the common suite, and the special one only when asked. */
  lemma TestSuites(env: Engine.Env, s: Engine.Session, arg: Engine.Arg, fuel: nat, common: string, special: string)
    requires Succeeds(env)
    requires !Truthy(Get(Engine.Deref(s, arg), "all"))
    ensures Quiet(s, Engine.ExecBlock(env, s, [Exec(common), Engine.If(Engine.Holds(Engine.Arg("all")), [Exec(special)], [])], arg, fuel),
                  [Engine.Spawned(Spawn(env, common))])
  {
    var optional := Engine.If(Engine.Holds(Engine.Arg("all")), [Exec(special)], []);
    var added := [Engine.Spawned(Spawn(env, common))];
    ExecOk(env, s, common, arg, fuel);
    var s1 := Engine.ExecStmt(env, s, Exec(common), arg, fuel).session;
    Done(env, s1, arg, fuel);
    assert Quiet(s1, Engine.ExecStmt(env, s1, optional, arg, fuel), []);
    var s2 := Engine.ExecStmt(env, s1, optional, arg, fuel).session;
    Done(env, s2, arg, fuel);
    Chain(env, s1, [optional], arg, fuel, [], []);
    assert [Exec(common), optional][1..] == [optional];
    Chain(env, s, [Exec(common), optional], arg, fuel, added, [] + []);
    assert added + ([] + []) == added;
  }

  /** `test` once `compile` has run, with a config that does not ask for all tests. */
  lemma RunTest(env: Engine.Env, s: Engine.Session, arg: Engine.Arg, fuel: nat, common: string, special: string)
    requires Succeeds(env)
    requires "test" in s.tasks.bodies
    requires s.tasks.bodies["test"] == [Ensure("compile"), Exec(common), Engine.If(Engine.Holds(Engine.Arg("all")), [Exec(special)], [])]
    requires fuel > 0 && 0 < Engine.Completions(s, "compile") < TwoTo31
    requires !Truthy(Get(Engine.Deref(s, Passing(s, arg)), "all"))
    ensures Completed(s, Engine.Run(env, s, "test", arg, fuel), "test", [Engine.Spawned(Spawn(env, common))])
  {
    var f := fuel - 1;
    var body := s.tasks.bodies["test"];
    var inner, passed := Engine.Enter(env, s, "test", arg), Passing(s, arg);
    var added := [Engine.Spawned(Spawn(env, common))];
    EnsureDone(env, inner, "compile", passed, f);
    var s1 := Engine.ExecStmt(env, inner, Ensure("compile"), passed, f).session;
    TestSuites(env, s1, passed, f, common, special);
    Chain(env, inner, body, passed, f, [], added);
    assert [] + added == added;
    RunNormal(env, s, "test", arg, fuel, f, added);
  }

  // ---------------------------------------------------------------------------
  // Runs that call other tasks

  /** One more completion of `name`. */
  function Bump(ran: map<string, nat>, name: string): map<string, nat> {
    ran[name := (if name in ran then ran[name] else 0) + 1]
  }

  /** Like `Quiet`, except that the completion counts become `ran`. */
  predicate Moves(s: Engine.Session, st: Engine.Step, ran: map<string, nat>, added: seq<Engine.Effect>) {
    && st.flow == Engine.Normal
    && st.session.tasks == s.tasks && st.session.config == s.config
    && st.session.console.indent == s.console.indent
    && st.session.ran == ran
    && st.session.effects == s.effects + added
  }

  lemma ChainMoves(env: Engine.Env, s: Engine.Session, ss: seq<Engine.Stmt>, arg: Engine.Arg, fuel: nat,
                   r1: map<string, nat>, first: seq<Engine.Effect>, r2: map<string, nat>, rest: seq<Engine.Effect>)
    requires |ss| > 0
    requires Moves(s, Engine.ExecStmt(env, s, ss[0], arg, fuel), r1, first)
    requires Moves(Engine.ExecStmt(env, s, ss[0], arg, fuel).session,
                   Engine.ExecBlock(env, Engine.ExecStmt(env, s, ss[0], arg, fuel).session, ss[1..], arg, fuel), r2, rest)
    ensures Moves(s, Engine.ExecBlock(env, s, ss, arg, fuel), r2, first + rest)
  {
    Engine.BlockStep(env, s, ss, arg, fuel);
    assert s.effects + first + rest == s.effects + (first + rest);
  }

  /** A call statement whose task completes without nested runs. */
  lemma CallMoves(env: Engine.Env, s: Engine.Session, name: string, pass: Engine.Pass, arg: Engine.Arg, fuel: nat,
                  added: seq<Engine.Effect>)
    requires Completed(s, Engine.Run(env, s, name, Engine.Passed(env, s, arg, pass), fuel), name, added)
    ensures Moves(s, Engine.ExecStmt(env, s, Engine.Call(name, pass), arg, fuel), Bump(s.ran, name), added)
  {
  }

  /** A task whose body moves the counts to `ran` returns and is counted on top of them. */
  lemma RunMoves(env: Engine.Env, s: Engine.Session, name: string, arg: Engine.Arg, fuel: nat,
                 ran: map<string, nat>, added: seq<Engine.Effect>)
    requires name in s.tasks.bodies && fuel > 0
    requires Moves(Engine.Enter(env, s, name, arg),
                   Engine.ExecBlock(env, Engine.Enter(env, s, name, arg), s.tasks.bodies[name], Engine.Passing(s, arg), fuel - 1),
                   ran, added)
    ensures var o := Engine.Run(env, s, name, arg, fuel);
      && o.result == Success(Undefined)
      && o.session.tasks == s.tasks && o.session.config == s.config
      && o.session.console.indent == s.console.indent
      && o.session.ran == Bump(ran, name)
      && o.session.effects == s.effects + added
  {
    Engine.RunBody(env, s, name, arg, fuel);
  }

  /** The shape of the example registry, with the commands left as parameters. */
  predicate Shaped(reg: Engine.Registry, f0: string, f1: string, common: string, special: string, pkg: string, deploy: Engine.Pass) {
    && "default" in reg.bodies
    && reg.bodies["default"] == [Engine.Call("clean", Engine.Omitted), Engine.Call("setup", Engine.Omitted),
                                 Engine.Call("compile", Engine.Omitted), Engine.Call("test", Engine.Omitted),
                                 Engine.Call("package", Engine.Omitted), Engine.Call("deploy", deploy)]
    && "clean" in reg.bodies && reg.bodies["clean"] == [Engine.Touch("rmdir tmp")]
    && "setup" in reg.bodies && reg.bodies["setup"] == [Engine.Touch("mkdir tmp")]
    && "compile" in reg.bodies && reg.bodies["compile"] == [Ensure("setup"), CompileFile(f0), CompileFile(f1)]
    && "test" in reg.bodies
    && reg.bodies["test"] == [Ensure("compile"), Exec(common), Engine.If(Engine.Holds(Engine.Arg("all")), [Exec(special)], [])]
    && "package" in reg.bodies && reg.bodies["package"] == [Exec(pkg)]
    && "deploy" in reg.bodies && reg.bodies["deploy"] == []
  }

  lemma ExampleShaped()
    ensures Shaped(Example(), Files[0], Files[1], "tester tests/common", "tester tests/special", "packager tmp package.pkg",
                   Engine.Literal(map["username" := Engine.Arg("username"), "password" := Engine.Arg("password")]))
  {
    ExampleTasks();
    DeclaredShaped(Example());
  }

  /** A registry holding the example's declarations has the shape the example's runs rely on. */
  lemma DeclaredShaped(reg: Engine.Registry)
    requires forall i | 0 <= i < |Names| :: Names[i] in reg.bodies && reg.bodies[Names[i]] == Bodies[i]
    ensures Shaped(reg, Files[0], Files[1], "tester tests/common", "tester tests/special", "packager tmp package.pkg",
                   Engine.Literal(map["username" := Engine.Arg("username"), "password" := Engine.Arg("password")]))
  {
    assert Names[0] == "default" && Names[2] == "clean" && Names[3] == "setup" && Names[4] == "compile";
    assert Names[5] == "test" && Names[6] == "package" && Names[7] == "deploy";
  }

  /** Each task of `default` completed once; `debug` never ran. */
  const Once: map<string, nat> := map["clean" := 1, "setup" := 1, "compile" := 1, "test" := 1, "package" := 1, "deploy" := 1]

  /** `run(name)` from a call statement, for a task that only touches the file system. */
  lemma CallTouch(env: Engine.Env, s: Engine.Session, name: string, what: string, arg: Engine.Arg, fuel: nat)
    requires name in s.tasks.bodies && s.tasks.bodies[name] == [Engine.Touch(what)] && fuel > 0
    ensures Moves(s, Engine.ExecStmt(env, s, Engine.Call(name, Engine.Omitted), arg, fuel), Bump(s.ran, name), [Engine.Touched(what)])
  {
    RunTouch(env, s, name, what, Engine.Given(Undefined), fuel);
    CallMoves(env, s, name, Engine.Omitted, arg, fuel, [Engine.Touched(what)]);
  }

  /** `run('compile')` from a call statement, once `setup` has run; a call passes no config of its own. */
  lemma CallCompile(env: Engine.Env, s: Engine.Session, arg: Engine.Arg, fuel: nat, f0: string, f1: string)
    requires Succeeds(env)
    requires "compile" in s.tasks.bodies && s.tasks.bodies["compile"] == [Ensure("setup"), CompileFile(f0), CompileFile(f1)]
    requires fuel > 0 && 0 < Engine.Completions(s, "setup") < TwoTo31
    ensures var debug := Truthy(Get(Obj(s.config), "debug"));
      Moves(s, Engine.ExecStmt(env, s, Engine.Call("compile", Engine.Omitted), arg, fuel), Bump(s.ran, "compile"),
            [Engine.Spawned(Spawn(env, Compiler(debug, f0))), Engine.Spawned(Spawn(env, Compiler(debug, f1)))])
  {
    var debug := Truthy(Get(Obj(s.config), "debug"));
    RunCompile(env, s, Engine.Given(Undefined), fuel, f0, f1);
    CallMoves(env, s, "compile", Engine.Omitted, arg, fuel,
              [Engine.Spawned(Spawn(env, Compiler(debug, f0))), Engine.Spawned(Spawn(env, Compiler(debug, f1)))]);
  }

  /** `run('test')` from a call statement, once `compile` has run: only the common suite. */
  lemma CallTest(env: Engine.Env, s: Engine.Session, arg: Engine.Arg, fuel: nat, common: string, special: string)
    requires Succeeds(env)
    requires "test" in s.tasks.bodies
    requires s.tasks.bodies["test"] == [Ensure("compile"), Exec(common), Engine.If(Engine.Holds(Engine.Arg("all")), [Exec(special)], [])]
    requires fuel > 0 && 0 < Engine.Completions(s, "compile") < TwoTo31
    ensures Moves(s, Engine.ExecStmt(env, s, Engine.Call("test", Engine.Omitted), arg, fuel), Bump(s.ran, "test"),
                  [Engine.Spawned(Spawn(env, common))])
  {
    RunTest(env, s, Engine.Given(Undefined), fuel, common, special);
    CallMoves(env, s, "test", Engine.Omitted, arg, fuel, [Engine.Spawned(Spawn(env, common))]);
  }

  /** `run(name)` from a call statement, for a task that runs one command. */
  lemma CallExec(env: Engine.Env, s: Engine.Session, name: string, command: string, arg: Engine.Arg, fuel: nat)
    requires Succeeds(env)
    requires name in s.tasks.bodies && s.tasks.bodies[name] == [Exec(command)] && fuel > 0
    ensures Moves(s, Engine.ExecStmt(env, s, Engine.Call(name, Engine.Omitted), arg, fuel), Bump(s.ran, name),
                  [Engine.Spawned(Spawn(env, command))])
  {
    RunExec(env, s, name, command, Engine.Given(Undefined), fuel);
    CallMoves(env, s, name, Engine.Omitted, arg, fuel, [Engine.Spawned(Spawn(env, command))]);
  }

  /** `run(name, config)` from a call statement, for a task with an empty body. */
  lemma CallEmpty(env: Engine.Env, s: Engine.Session, name: string, pass: Engine.Pass, arg: Engine.Arg, fuel: nat)
    requires name in s.tasks.bodies && s.tasks.bodies[name] == [] && fuel > 0
    ensures Moves(s, Engine.ExecStmt(env, s, Engine.Call(name, pass), arg, fuel), Bump(s.ran, name), [])
  {
    RunEmpty(env, s, name, Engine.Passed(env, s, arg, pass), fuel);
    CallMoves(env, s, name, pass, arg, fuel, []);
  }

  /** What compile spawns, file by file. */
  function Compiled(env: Engine.Env, debug: bool, f0: string, f1: string): seq<Engine.Effect> {
    [Engine.Spawned(Spawn(env, Compiler(debug, f0))), Engine.Spawned(Spawn(env, Compiler(debug, f1)))]
  }

  /** What building `default` does outside the model, in order. */
  function DefaultEffects(env: Engine.Env, debug: bool, f0: string, f1: string, common: string, pkg: string): seq<Engine.Effect> {
    [Engine.Touched("rmdir tmp")] + [Engine.Touched("mkdir tmp")] + Compiled(env, debug, f0, f1)
    + [Engine.Spawned(Spawn(env, common)), Engine.Spawned(Spawn(env, pkg))]
  }

  /** The last three statements of `default`, once `compile` has run. */
  lemma DefaultTail(env: Engine.Env, s: Engine.Session, ss: seq<Engine.Stmt>, arg: Engine.Arg, fuel: nat,
                    f0: string, f1: string, common: string, special: string, pkg: string, deploy: Engine.Pass)
    requires Succeeds(env) && Shaped(s.tasks, f0, f1, common, special, pkg, deploy) && fuel > 0
    requires ss == [Engine.Call("test", Engine.Omitted), Engine.Call("package", Engine.Omitted), Engine.Call("deploy", deploy)]
    requires 0 < Engine.Completions(s, "compile") < TwoTo31
    ensures Moves(s, Engine.ExecBlock(env, s, ss, arg, fuel), Bump(Bump(Bump(s.ran, "test"), "package"), "deploy"),
                  [Engine.Spawned(Spawn(env, common)), Engine.Spawned(Spawn(env, pkg))])
  {
    CallTest(env, s, arg, fuel, common, special);
    var s1 := Engine.ExecStmt(env, s, ss[0], arg, fuel).session;
    CallExec(env, s1, "package", pkg, arg, fuel);
    var s2 := Engine.ExecStmt(env, s1, ss[1], arg, fuel).session;
    CallEmpty(env, s2, "deploy", deploy, arg, fuel);
    var s3 := Engine.ExecStmt(env, s2, ss[2], arg, fuel).session;
    Done(env, s3, arg, fuel);
    assert ss[1..][1..] == [ss[2]] && [ss[2]][1..] == [];
    ChainMoves(env, s2, [ss[2]], arg, fuel, s3.ran, [], s3.ran, []);
    ChainMoves(env, s1, ss[1..], arg, fuel, s2.ran, [Engine.Spawned(Spawn(env, pkg))], s3.ran, [] + []);
    ChainMoves(env, s, ss, arg, fuel, s1.ran, [Engine.Spawned(Spawn(env, common))], s3.ran, [Engine.Spawned(Spawn(env, pkg))] + ([] + []));
  }

  /** The session after the first `n` statements of a block, when they all complete normally. */
  function After(env: Engine.Env, s: Engine.Session, ss: seq<Engine.Stmt>, arg: Engine.Arg, fuel: nat, n: nat): Engine.Session
    requires n <= |ss|
  {
    if n == 0 then s else Engine.ExecStmt(env, After(env, s, ss, arg, fuel, n - 1), ss[n - 1], arg, fuel).session
  }

  /** Three statements that each complete normally, followed by a block that does too. */
  lemma ChainThree(env: Engine.Env, s: Engine.Session, ss: seq<Engine.Stmt>, arg: Engine.Arg, fuel: nat,
                   r1: map<string, nat>, a1: seq<Engine.Effect>, r2: map<string, nat>, a2: seq<Engine.Effect>,
                   r3: map<string, nat>, a3: seq<Engine.Effect>, r4: map<string, nat>, a4: seq<Engine.Effect>)
    requires |ss| >= 3
    requires Moves(s, Engine.ExecStmt(env, s, ss[0], arg, fuel), r1, a1)
    requires var s1 := After(env, s, ss, arg, fuel, 1);
      Moves(s1, Engine.ExecStmt(env, s1, ss[1], arg, fuel), r2, a2)
    requires var s2 := After(env, s, ss, arg, fuel, 2);
      Moves(s2, Engine.ExecStmt(env, s2, ss[2], arg, fuel), r3, a3)
    requires var s3 := After(env, s, ss, arg, fuel, 3);
      Moves(s3, Engine.ExecBlock(env, s3, ss[3..], arg, fuel), r4, a4)
    ensures Moves(s, Engine.ExecBlock(env, s, ss, arg, fuel), r4, a1 + a2 + a3 + a4)
  {
    var s1 := After(env, s, ss, arg, fuel, 1);
    var s2 := After(env, s, ss, arg, fuel, 2);
    assert s1 == Engine.ExecStmt(env, s, ss[0], arg, fuel).session;
    assert ss[1..][1..][1..] == ss[3..];
    ChainMoves(env, s2, ss[1..][1..], arg, fuel, r3, a3, r4, a4);
    ChainMoves(env, s1, ss[1..], arg, fuel, r2, a2, r4, a3 + a4);
    ChainMoves(env, s, ss, arg, fuel, r1, a1, r4, a2 + (a3 + a4));
    assert a1 + (a2 + (a3 + a4)) == a1 + a2 + a3 + a4;
  }

  /** `clean` then `setup`, each completing once. */
  lemma DefaultTouches(env: Engine.Env, s: Engine.Session, arg: Engine.Arg, fuel: nat,
                       f0: string, f1: string, common: string, special: string, pkg: string, deploy: Engine.Pass)
    requires Shaped(s.tasks, f0, f1, common, special, pkg, deploy) && fuel > 0 && s.ran == map[]
    ensures var ss := s.tasks.bodies["default"];
      && Moves(s, Engine.ExecStmt(env, s, ss[0], arg, fuel), map["clean" := 1], [Engine.Touched("rmdir tmp")])
      && Moves(After(env, s, ss, arg, fuel, 1), Engine.ExecStmt(env, After(env, s, ss, arg, fuel, 1), ss[1], arg, fuel),
               map["clean" := 1, "setup" := 1], [Engine.Touched("mkdir tmp")])
      && var s2 := After(env, s, ss, arg, fuel, 2);
      s2.tasks == s.tasks && s2.config == s.config && s2.ran == map["clean" := 1, "setup" := 1]
  {
    var ss := s.tasks.bodies["default"];
    CallTouch(env, s, "clean", "rmdir tmp", arg, fuel);
    var s1 := Engine.ExecStmt(env, s, ss[0], arg, fuel).session;
    assert s1 == After(env, s, ss, arg, fuel, 1);
    CallTouch(env, s1, "setup", "mkdir tmp", arg, fuel);
    assert After(env, s, ss, arg, fuel, 2) == Engine.ExecStmt(env, s1, ss[1], arg, fuel).session;
  }

  /** `compile`, once `clean` and `setup` have completed. */
  lemma DefaultCompile(env: Engine.Env, s: Engine.Session, ss: seq<Engine.Stmt>, arg: Engine.Arg, fuel: nat,
                       f0: string, f1: string, common: string, special: string, pkg: string, deploy: Engine.Pass)
    requires Succeeds(env) && Shaped(s.tasks, f0, f1, common, special, pkg, deploy) && fuel > 0
    requires |ss| == 6 && ss[2] == Engine.Call("compile", Engine.Omitted)
    requires var s2 := After(env, s, ss, arg, fuel, 2);
      s2.tasks == s.tasks && s2.config == s.config && s2.ran == map["clean" := 1, "setup" := 1]
    ensures var s2 := After(env, s, ss, arg, fuel, 2);
      && Moves(s2, Engine.ExecStmt(env, s2, ss[2], arg, fuel), map["clean" := 1, "setup" := 1, "compile" := 1],
               Compiled(env, Truthy(Get(Obj(s.config), "debug")), f0, f1))
      && var s3 := After(env, s, ss, arg, fuel, 3);
      s3.tasks == s.tasks && s3.config == s.config && s3.ran == map["clean" := 1, "setup" := 1, "compile" := 1]
  {
    var s2 := After(env, s, ss, arg, fuel, 2);
    CallCompile(env, s2, arg, fuel, f0, f1);
  }

  lemma OnceAfterTail()
    ensures Bump(Bump(Bump(map["clean" := 1, "setup" := 1, "compile" := 1], "test"), "package"), "deploy") == Once
  {
  }

  /** The body of `default` from no completions: every other task but `debug` runs once, in order. */
  lemma DefaultBlock(env: Engine.Env, s: Engine.Session, reg: Engine.Registry, config: map<string, Value>, arg: Engine.Arg, fuel: nat,
                     f0: string, f1: string, common: string, special: string, pkg: string, deploy: Engine.Pass)
    requires Succeeds(env) && Shaped(reg, f0, f1, common, special, pkg, deploy) && fuel > 0
    requires s.tasks == reg && s.config == config && s.ran == map[]
    ensures Moves(s, Engine.ExecBlock(env, s, reg.bodies["default"], arg, fuel), Once,
                  DefaultEffects(env, Truthy(Get(Obj(config), "debug")), f0, f1, common, pkg))
  {
    var ss := s.tasks.bodies["default"];
    var s1, s2 := After(env, s, ss, arg, fuel, 1), After(env, s, ss, arg, fuel, 2);
    DefaultTouches(env, s, arg, fuel, f0, f1, common, special, pkg, deploy);
    DefaultCompile(env, s, ss, arg, fuel, f0, f1, common, special, pkg, deploy);
    var s3 := After(env, s, ss, arg, fuel, 3);
    assert ss[3..] == [Engine.Call("test", Engine.Omitted), Engine.Call("package", Engine.Omitted), Engine.Call("deploy", deploy)];
    DefaultTail(env, s3, ss[3..], arg, fuel, f0, f1, common, special, pkg, deploy);
    OnceAfterTail();
    ChainThree(env, s, ss, arg, fuel, map["clean" := 1], [Engine.Touched("rmdir tmp")],
               map["clean" := 1, "setup" := 1], [Engine.Touched("mkdir tmp")],
               s3.ran, Compiled(env, Truthy(Get(Obj(s.config), "debug")), f0, f1), Once,
               [Engine.Spawned(Spawn(env, common)), Engine.Spawned(Spawn(env, pkg))]);
  }

  /** `build()` with no name, when `default` is declared and its body completes normally. */
  lemma BuildDefault(env: Engine.Env, s: Engine.Session, fuel: nat, inner: nat, ran: map<string, nat>, added: seq<Engine.Effect>)
    requires "default" in s.tasks.bodies && fuel > 0 && inner == fuel - 1
    requires var t := Engine.Enter(env, s, "default", Engine.Shared);
      Moves(t, Engine.ExecBlock(env, t, s.tasks.bodies["default"], Engine.Passing(s, Engine.Shared), inner), ran, added)
    ensures var o := Engine.Build(env, s, None, fuel);
      && o.result.Success?
      && o.session.ran == Bump(ran, "default")
      && o.session.effects == s.effects + added
      && o.session.console.indent == s.console.indent
  {
    RunMoves(env, s, "default", Engine.Shared, fuel, ran, added);
  }

  lemma OnceThenDefault()
    ensures Bump(Once, "default") == map["default" := 1, "clean" := 1, "setup" := 1, "compile" := 1, "test" := 1, "package" := 1, "deploy" := 1]
  {
  }

  /**
   * `build()` with no name on any registry shaped like the example's: each
   * task of `default` completes once, `default` itself once, and the effects
   * come out in body order.
   */
  lemma ShapedBuild(env: Engine.Env, reg: Engine.Registry, config: map<string, Value>, fuel: nat,
                    f0: string, f1: string, common: string, special: string, pkg: string, deploy: Engine.Pass)
    requires Succeeds(env) && Shaped(reg, f0, f1, common, special, pkg, deploy) && fuel >= 2
    ensures var o := Engine.Build(env, Engine.Start(reg, config), None, fuel);
      && o.result.Success?
      && o.session.ran == map["default" := 1, "clean" := 1, "setup" := 1, "compile" := 1, "test" := 1, "package" := 1, "deploy" := 1]
      && o.session.effects == DefaultEffects(env, Truthy(Get(Obj(config), "debug")), f0, f1, common, pkg)
      && o.session.console.indent == 0
  {
    var s := Engine.Start(reg, config);
    var effects := DefaultEffects(env, Truthy(Get(Obj(config), "debug")), f0, f1, common, pkg);
    var inner := fuel - 1;
    var t := Engine.Enter(env, s, "default", Engine.Shared);
    DefaultBlock(env, t, reg, config, Engine.Passing(s, Engine.Shared), inner, f0, f1, common, special, pkg, deploy);
    BuildDefault(env, s, fuel, inner, Once, effects);
    OnceThenDefault();
    assert [] + effects == effects;
  }

  /**
   * `brigadier` with no task name on the example project, every command
   * succeeding: `default` runs `clean`, `setup`, `compile`, `test`, `package`
   * and `deploy` once each, in that order, and `debug` never; compile passes
   * `--debug` exactly when `project.config.debug` is truthy, only the common
   * test suite runs, and the build ends at the indent it started from.
   */
  lemma DefaultBuild(env: Engine.Env, config: map<string, Value>, fuel: nat)
    requires Succeeds(env) && fuel >= 2
    ensures var o := Engine.Build(env, Engine.Start(Example(), config), None, fuel);
      && o.result.Success?
      && o.session.ran == map["default" := 1, "clean" := 1, "setup" := 1, "compile" := 1, "test" := 1, "package" := 1, "deploy" := 1]
      && o.session.effects == DefaultEffects(env, Truthy(Get(Obj(config), "debug")), Files[0], Files[1],
                                             "tester tests/common", "packager tmp package.pkg")
      && o.session.console.indent == 0
  {
    ExampleShaped();
    ShapedBuild(env, Example(), config, fuel, Files[0], Files[1], "tester tests/common", "tester tests/special",
                "packager tmp package.pkg",
                Engine.Literal(map["username" := Engine.Arg("username"), "password" := Engine.Arg("password")]));
  }
}

/**
 * The process executor of both generations: how `exec` and `background`
 * normalise their arguments and options, how a finished synchronous command
 * becomes a return value or a throw, what the background exit handler does,
 * and which actions `kill` takes. Spawning itself is abstract: the model sees
 * only the `SpawnResult` a spawn produced.
 */
module Os {
  import opened Js
  import Util
  import Log

  /** An options object, as a map from property name to value. */
  type Options = map<string, Value>

  /** What is handed to `child_process.spawnSync` / `spawn`. */
  datatype Invocation = Invocation(command: string, args: seq<Value>, options: Options)

  /** A normalised call: the invocation, and the arguments of the `trace` it prints first. */
  datatype Call = Call(inv: Invocation, traced: seq<Value>)

  /**
   * The outcome of `spawnSync`: an error when the process could not be
   * started, the exit status (`None` for null, when a signal ended it) and
   * the captured standard output (`None` when it was not piped).
   */
  datatype SpawnResult = SpawnResult(error: Option<Value>, status: Option<int>, stdout: Option<string>)

  /** `args && typeof args === 'object' && !Array.isArray(args)`: the arguments are really options. */
  predicate OptionsInArgs(args: Value) {
    args.Obj?
  }

  /** `args` after normalisation: a string or other truthy value becomes a one-element list, a falsy one []. */
  function ArgList(args: Value): seq<Value> {
    if args.Str? then [args]
    else if !Truthy(args) then []
    else if args.Arr? then args.items
    else [args]
  }

  /** The arguments `exec` hands to `trace`: the command, the arguments space-joined, the options inspected. */
  function Traced(command: string, list: seq<Value>, options: Option<Options>, inspect: Util.Inspect): seq<Value> {
    [Str(command), Str(JoinValues(list, " ")), Str(if options.Some? then inspect(Obj(options.value)) else "")]
  }

  /** `options.fail !== false` */
  predicate FailOn(options: Options) {
    !("fail" in options && options["fail"] == Bool(false))
  }

  /** `result.stdout ? result.stdout.toString() : ''` */
  function Output(res: SpawnResult): string {
    if res.stdout.Some? then res.stdout.value else ""
  }

  /** The exit status as the value `fail` receives. */
  function StatusValue(status: Option<int>): Value {
    if status.Some? then Num(status.value) else Null
  }

  // ---------------------------------------------------------------------------
  // lib/os.js

  /** lib defaults: `shell` true unless present, `stdio` 'inherit' unless present, `true` read as 'inherit'. */
  function LibDefaults(options: Option<Options>): (r: Options)
    ensures var m := if options.Some? then options.value else map[];
      && r.Keys == m.Keys + {"shell", "stdio"}
      && (forall k | k in m && k != "shell" && k != "stdio" :: r[k] == m[k])
      && r["shell"] == (if "shell" in m then m["shell"] else Bool(true))
      && r["stdio"] == (if "stdio" in m && m["stdio"] != Bool(true) then m["stdio"] else Str("inherit"))
  {
    var m := if options.Some? then options.value else map[];
    var shell := if "shell" in m then m["shell"] else Bool(true);
    var stdio := if "stdio" in m then (if m["stdio"] == Bool(true) then Str("inherit") else m["stdio"]) else Str("inherit");
    m["shell" := shell]["stdio" := stdio]
  }

  /**
   * lib `exec(command, args, options)` up to the spawn. Options given in the
   * `args` position restart the call as `exec(command, [], args)`.
   */
  function LibExecCall(command: string, args: Value, options: Option<Options>, inspect: Util.Inspect): (c: Call)
    ensures c.inv.command == command
    ensures |c.traced| == 3 && c.traced[..2] == [Str(c.inv.command), Str(JoinValues(c.inv.args, " "))]
    ensures var opts := if OptionsInArgs(args) then Some(args.fields) else options;
      && c.traced[2] == Str(if opts.Some? then inspect(Obj(opts.value)) else "")
      && c.inv.options == LibDefaults(opts)
    ensures "shell" in c.inv.options && "stdio" in c.inv.options
  {
    var (list, opts) := if OptionsInArgs(args) then ([], Some(args.fields)) else (ArgList(args), options);
    Call(Invocation(command, list, LibDefaults(opts)), Traced(command, list, opts, inspect))
  }

  /** lib `exec` after the spawn: throw the spawn error or fail on a non-zero status, unless `fail: false`. */
  function LibExecOutcome(inv: Invocation, res: SpawnResult): (r: Result<string>)
    ensures r.Failure? <==> FailOn(inv.options) && (res.error.Some? || res.status != Some(0))
    ensures r.Success? ==> r.value == Output(res)
    ensures FailOn(inv.options) && res.error.Some? ==> r == Failure(Raised(res.error.value))
    ensures FailOn(inv.options) && res.error.None? && res.status != Some(0) ==>
      r == Failure(Thrown([Str(inv.command), Str("exit code"), StatusValue(res.status)]))
  {
    if res.error.Some? && FailOn(inv.options) then Failure(Raised(res.error.value))
    else if res.status != Some(0) && FailOn(inv.options) then
      Util.Fail([Str(inv.command), Str("exit code"), StatusValue(res.status)])
    else Success(Output(res))
  }

  /** The normalisation rules for `args`, stated for both generations at once. */
  lemma ArgsNormalised(command: string, args: Value, options: Option<Options>, inspect: Util.Inspect)
    ensures OptionsInArgs(args) ==> LibExecCall(command, args, options, inspect).inv.args == []
    ensures OptionsInArgs(args) ==> LibExecCall(command, args, options, inspect).inv.options == LibDefaults(Some(args.fields))
    ensures args.Str? ==> LibExecCall(command, args, options, inspect).inv.args == [args]
    ensures args.Arr? ==> LibExecCall(command, args, options, inspect).inv.args == args.items
    ensures args.Undefined? ==> LibExecCall(command, args, options, inspect).inv.args == []
    ensures OptionsInArgs(args) ==> SrcExecCall(command, args, options, inspect).inv.args == []
    ensures args.Str? && args.s != "" ==> SrcExecCall(command, args, options, inspect).inv.args == [args]
  {
  }

  /** With `fail: false`, lib `exec` never throws: it returns the captured output, or ''. */
  lemma LibExecNoFail(inv: Invocation, res: SpawnResult)
    requires "fail" in inv.options && inv.options["fail"] == Bool(false)
    ensures LibExecOutcome(inv, res) == Success(Output(res))
  {
  }

  /** Process-wide state the background machinery touches: the logger and the `exit` listeners. */
  datatype Process = Process(console: Log.Console, listeners: seq<nat>)

  /** A background child: its pid, command, normalised options and the indent when it was spawned. */
  datatype Child = Child(pid: nat, command: string, options: Options, snapshot: int)

  /** What the process does when a background child exits. */
  datatype Verdict =
      /** the handler throws: an uncaught error ends the process */
    | Crash(error: Error)
      /** `process.exit(code)` because the child was watched */
    | Exit(code: int)
      /** the process carries on */
    | Continue

  /**
   * `removeListener`: drop one registration of `x`, keep the rest in order.
   * Node drops the most recent one; every child registers its own pid once,
   * so there is never more than one to choose from.
   */
  function Remove(xs: seq<nat>, x: nat): (r: seq<nat>)
    ensures x !in xs ==> r == xs
    ensures x in xs ==> |r| == |xs| - 1 && multiset(r) == multiset(xs) - multiset{x}
    decreases |xs|
  {
    if |xs| == 0 then []
    else if xs[0] == x then
      assert xs == [x] + xs[1..];
      xs[1..]
    else
      assert xs == [xs[0]] + xs[1..];
      [xs[0]] + Remove(xs[1..], x)
  }

  /**
   * lib `background(command, args, options)` up to the spawn: normalise as
   * `exec` does, trace, remember the indent, and put the child's kill
   * handler at the front of the `exit` listeners.
   */
  function LibBackground(p: Process, pid: nat, command: string, args: Value, options: Option<Options>,
                         inspect: Util.Inspect): (r: (Process, Child))
    ensures r.0.listeners == [pid] + p.listeners
    ensures r.0.console.indent == p.console.indent == r.1.snapshot
    ensures r.1.options == LibExecCall(command, args, options, inspect).inv.options
  {
    var call := LibExecCall(command, args, options, inspect);
    var console := Log.Emit(p.console, Log.Trace, [Str("background")] + call.traced, inspect);
    (Process(console, [pid] + p.listeners), Child(pid, command, call.inv.options, p.console.indent))
  }

  /** The arguments of the failure a non-zero background exit raises. */
  function ExitParts(command: string, code: int): seq<Value> {
    [Str("background"), Str(command), Str("exit code"), Num(code)]
  }

  /**
   * The child's `exit` handler: coerce the code with `| 0`, restore the
   * spawn-time indent, drop the kill handler, then fail on a non-zero code
   * unless `fail: false`; otherwise trace and, when watched, exit with the code.
   */
  function LibBackgroundExit(p: Process, child: Child, code: Option<int>, inspect: Util.Inspect): (r: (Process, Verdict))
    ensures r.0.console.indent == child.snapshot
    ensures r.0.listeners == Remove(p.listeners, child.pid)
    ensures var c := ToInt32(if code.Some? then code.value else 0);
      && (c != 0 && FailOn(child.options) ==> r.1 == Crash(Thrown(ExitParts(child.command, c))))
      && (c == 0 || !FailOn(child.options) ==>
            r.1 == if Truthy(Get(Obj(child.options), "watch")) then Exit(c) else Continue)
  {
    var c := ToInt32(if code.Some? then code.value else 0);
    var console := p.console.(indent := child.snapshot);
    var listeners := Remove(p.listeners, child.pid);
    if c != 0 && FailOn(child.options) then
      (Process(console, listeners), Crash(Thrown(ExitParts(child.command, c))))
    else
      var traced := Log.Emit(console, Log.Trace, ExitParts(child.command, c), inspect);
      (Process(traced, listeners), if Truthy(Get(Obj(child.options), "watch")) then Exit(c) else Continue)
  }

  /**
   * A background child that exits leaves the process as it found it: the
   * listener list is back to what it was before the spawn and the indent is
   * the one at spawn time, whatever happened in between.
   */
  lemma BackgroundRoundTrip(p: Process, q: Process, pid: nat, command: string, args: Value,
                            options: Option<Options>, code: Option<int>, inspect: Util.Inspect)
    requires pid !in p.listeners
    requires q.listeners == LibBackground(p, pid, command, args, options, inspect).0.listeners
    ensures var child := LibBackground(p, pid, command, args, options, inspect).1;
      var after := LibBackgroundExit(q, child, code, inspect).0;
      after.listeners == p.listeners && after.console.indent == p.console.indent
  {
  }

  /** A watched child with the default `fail` that exits with 3 fails the process rather than exiting with 3. */
  lemma WatchedFailureCrashes(p: Process, child: Child, inspect: Util.Inspect)
    requires child.options == map["watch" := Bool(true), "shell" := Bool(true), "stdio" := Str("inherit")]
    ensures LibBackgroundExit(p, child, Some(3), inspect).1 == Crash(Thrown(ExitParts(child.command, 3)))
  {
  }

  /** With `fail: false`, a watched child that exits with 3 makes the process exit with 3. */
  lemma WatchedExitPropagates(p: Process, child: Child, inspect: Util.Inspect)
    requires child.options == map["watch" := Bool(true), "fail" := Bool(false)]
    ensures LibBackgroundExit(p, child, Some(3), inspect).1 == Exit(3)
  {
  }

  /** One step of `kill(proc)`. */
  datatype KillStep =
      /** a synchronous `exec` */
    | Sync(call: Call)
      /** `proc.kill()`: a termination signal to the direct child */
    | Signal(pid: nat)

  /**
   * `kill(proc)`: on win32 a forced whole-tree `taskkill`, then (the switch
   * case has no `break`) `proc.kill()` as on every other platform.
   */
  function KillPlan(platform: string, pid: nat, inspect: Util.Inspect): (r: seq<KillStep>)
    ensures |r| >= 1 && r[|r| - 1] == Signal(pid)
    ensures platform != "win32" ==> r == [Signal(pid)]
  {
    if platform == "win32" then
      var options := Obj(map["fail" := Bool(false), "stdio" := Bool(false)]);
      [Sync(LibExecCall("taskkill /pid " + IntString(pid) + " /T /F", options, None, inspect)), Signal(pid)]
    else [Signal(pid)]
  }

  /**
   * The win32 `taskkill` runs through a shell with output suppressed and can
   * never throw, whatever its outcome.
   */
  lemma KillNeverThrows(pid: nat, inspect: Util.Inspect, res: SpawnResult)
    ensures var plan := KillPlan("win32", pid, inspect);
      && |plan| == 2
      && plan[0].Sync?
      && plan[0].call.inv.command == "taskkill /pid " + IntString(pid) + " /T /F"
      && plan[0].call.inv.args == []
      && plan[0].call.inv.options["shell"] == Bool(true)
      && plan[0].call.inv.options["stdio"] == Bool(false)
      && LibExecOutcome(plan[0].call.inv, res) == Success(Output(res))
  {
  }

  // ---------------------------------------------------------------------------
  // src/os.js

  /** src defaults: a falsy `stdio` becomes [null, 'inherit', 'inherit'], `shell` true unless present. */
  function SrcDefaults(options: Option<Options>): (r: Options)
    ensures var m := if options.Some? then options.value else map[];
      && r.Keys == m.Keys + {"shell", "stdio"}
      && (forall k | k in m && k != "shell" && k != "stdio" :: r[k] == m[k])
      && r["shell"] == (if "shell" in m then m["shell"] else Bool(true))
      && r["stdio"] == (if Truthy(Get(Obj(m), "stdio")) then m["stdio"]
                        else Arr([Null, Str("inherit"), Str("inherit")]))
  {
    var m := if options.Some? then options.value else map[];
    var stdio := Or(Get(Obj(m), "stdio"), Arr([Null, Str("inherit"), Str("inherit")]));
    var shell := if "shell" in m then m["shell"] else Bool(true);
    m["stdio" := stdio]["shell" := shell]
  }

  /** `command.split(' ')` as the values `exec` then receives as arguments. */
  function Words(command: string): seq<string> {
    Split(command, " ")
  }

  function AsStrings(xs: seq<string>): (r: seq<Value>)
    ensures |r| == |xs|
    ensures forall i | 0 <= i < |xs| :: r[i] == Str(xs[i])
  {
    seq(|xs|, i requires 0 <= i < |xs| => Str(xs[i]))
  }

  /**
   * src `exec(command, args, options)` up to the spawn. Options in the
   * `args` position restart the call with `[]`; with no arguments a command
   * containing a space is split on single spaces and the call restarts with
   * the first word as the command, the others as arguments, and no options.
   */
  function SrcExecCall(command: string, args: Value, options: Option<Options>, inspect: Util.Inspect): (c: Call)
    ensures |c.traced| == 3 && c.traced[..2] == [Str(c.inv.command), Str(JoinValues(c.inv.args, " "))]
    ensures var opts := if OptionsInArgs(args) then Some(args.fields)
                        else if !Truthy(args) && Contains(command, " ") then None
                        else options;
      && c.traced[2] == Str(if opts.Some? then inspect(Obj(opts.value)) else "")
      && c.inv.options == SrcDefaults(opts)
    ensures "shell" in c.inv.options && "stdio" in c.inv.options
    ensures !Truthy(args) && Contains(command, " ") ==>
      !Contains(c.inv.command, " ") && forall i | 0 <= i < |c.inv.args| :: c.inv.args[i].Str?
  {
    if OptionsInArgs(args) then
      Call(Invocation(command, [], SrcDefaults(Some(args.fields))), Traced(command, [], Some(args.fields), inspect))
    else if !Truthy(args) && Contains(command, " ") then
      var words := Words(command);
      SplitPiecesClean(command, " ");
      var list := AsStrings(words[1..]);
      Call(Invocation(words[0], list, SrcDefaults(None)), Traced(words[0], list, None, inspect))
    else
      var list := ArgList(args);
      Call(Invocation(command, list, SrcDefaults(options)), Traced(command, list, options, inspect))
  }

  /**
   * Splitting is lossless: the spawned command and arguments, joined back
   * with single spaces, give the original command text; empty words stand
   * for repeated spaces, and the options passed along are dropped.
   */
  lemma SrcSplitCommand(command: string, args: Value, options: Option<Options>, inspect: Util.Inspect)
    requires !Truthy(args) && Contains(command, " ")
    ensures var inv := SrcExecCall(command, args, options, inspect).inv;
      && |inv.args| >= 1
      && JoinStrings([inv.command] + ArgStrings(inv.args), " ") == command
      && (forall i | 0 <= i < |inv.args| :: inv.args[i].Str? && !Contains(inv.args[i].s, " "))
      && inv.options == SrcDefaults(None)
  {
    var words := Words(command);
    SplitJoin(command, " ");
    SplitPiecesClean(command, " ");
    assert |words| >= 2;
    var inv := SrcExecCall(command, args, options, inspect).inv;
    assert ArgStrings(inv.args) == words[1..];
    assert [inv.command] + ArgStrings(inv.args) == words;
  }

  /** The strings inside a list of string values. */
  function ArgStrings(args: seq<Value>): (r: seq<string>)
    ensures |r| == |args|
  {
    seq(|args|, i requires 0 <= i < |args| => if args[i].Str? then args[i].s else "")
  }

  /** Two spaces in a row give an empty argument: quotes and runs of spaces are not understood. */
  lemma SrcSplitDoubleSpace(inspect: Util.Inspect)
    ensures SrcExecCall("a  b", Undefined, None, inspect).inv == Invocation("a", [Str(""), Str("b")], SrcDefaults(None))
  {
    SplitAtSpaces();
    assert Contains("a  b", " ");
    assert Words("a  b") == ["a", "", "b"];
  }

  lemma SplitAtSpaces()
    ensures Split("a  b", " ") == ["a", "", "b"]
  {
    assert "b"[..1] == "b" && "b"[1..] == "";
    assert IndexOf("b", " ") == None;
    assert Split("b", " ") == ["b"];
    assert IndexOf(" b", " ") == Some(0);
    assert " b"[1..] == "b";
    assert Split(" b", " ") == ["", "b"];
    assert "a  b"[..1] == "a" && "a  b"[1..][..1] == " ";
    assert IndexOf("a  b", " ") == Some(1);
    assert "a  b"[2..] == " b";
  }

  /**
   * src `exec` after the spawn: any spawn error is thrown, any non-zero
   * status calls `fail`, whatever `fail` is bound to; there is no opt-out.
   */
  function SrcExecOutcome(inv: Invocation, res: SpawnResult, fail: Util.FailBinding): (r: Result<string>)
    ensures r.Failure? <==> res.error.Some? || res.status != Some(0)
    ensures r.Success? ==> r.value == Output(res)
    ensures res.error.Some? ==> r == Failure(Raised(res.error.value))
    ensures res.error.None? && res.status != Some(0) ==>
      r == Util.FailVia(fail, [Str(inv.command), Str("exit code"), StatusValue(res.status)])
  {
    if res.error.Some? then Failure(Raised(res.error.value))
    else if res.status != Some(0) then Util.FailVia(fail, [Str(inv.command), Str("exit code"), StatusValue(res.status)])
    else Success(Output(res))
  }

  /**
   * With `fail` bound to the one of src/internal.js, src `exec` decides
   * exactly like lib `exec` with the `fail` option removed, whatever it was
   * set to.
   */
  lemma SrcIsLibWithoutOptOut(inv: Invocation, res: SpawnResult)
    ensures SrcExecOutcome(inv, res, Util.Bound) == LibExecOutcome(inv.(options := inv.options - {"fail"}), res)
  {
  }

  /**
   * As written, src/os.js takes `fail` from src/util.js, which exports none:
   * a non-zero exit throws the TypeError of calling undefined instead of the
   * Error naming the command and the status. Every other outcome is the
   * same as with `fail` bound.
   */
  lemma SrcExitAsWritten(inv: Invocation, res: SpawnResult)
    ensures res.error.None? && res.status != Some(0) ==>
      && SrcExecOutcome(inv, res, Util.Unbound) == Failure(TypeError("fail is not a function"))
      && SrcExecOutcome(inv, res, Util.Bound)
           == Failure(Thrown([Str(inv.command), Str("exit code"), StatusValue(res.status)]))
    ensures !(res.error.None? && res.status != Some(0)) ==>
      SrcExecOutcome(inv, res, Util.Unbound) == SrcExecOutcome(inv, res, Util.Bound)
  {
  }

  /** What src `background` does: delegate to the synchronous `exec`, or spawn. */
  datatype Launch = Delegated(call: Call) | Spawned(call: Call)

  /**
   * src `background(command, args, options)`: options in the `args` position
   * restart the call with `[]`; an argument-less command containing a space
   * is run through the synchronous `exec` instead of in the background.
   */
  function SrcBackground(command: string, args: Value, options: Option<Options>, inspect: Util.Inspect): (r: Launch)
    ensures r.Delegated? <==> !Truthy(args) && Contains(command, " ")
    ensures r.Delegated? ==> r.call == SrcExecCall(command, args, options, inspect)
    ensures r.Spawned? ==> r.call.inv == SrcExecCall(command, args, options, inspect).inv
  {
    if OptionsInArgs(args) then
      var call := SrcExecCall(command, args, options, inspect);
      Spawned(call.(traced := [Str("background")] + call.traced))
    else if !Truthy(args) && Contains(command, " ") then
      var words := Words(command);
      Delegated(SrcExecCall(words[0], Arr(AsStrings(words[1..])), None, inspect))
    else
      var call := SrcExecCall(command, args, options, inspect);
      Spawned(call.(traced := [Str("background")] + call.traced))
  }

  /** src registers `proc.kill()` at the back of the `exit` listeners and never removes it. */
  function SrcRegister(p: Process, pid: nat): (r: Process)
    ensures r.listeners == p.listeners + [pid] && r.console == p.console
  {
    p.(listeners := p.listeners + [pid])
  }
}

/**
 * The command line of both generations: bin/brigadier.js (over lib) and
 * src/cli.js (over src). Each argument is either a flag `--key[=value]`
 * written into `project.config`, or a positional; the positionals name the
 * project and the task. Loading the project script is abstract: `load`
 * gives the registry the script declares.
 */
module Cli {
  import opened Js
  import Util
  import Engine

  /** The flags as `project.config` holds them, and the positionals in order. */
  datatype Parsed = Parsed(config: map<string, Value>, positional: seq<string>)

  /** How a flag's value text becomes a value; JSON parsing may throw. */
  type Reader = string -> Result<Value>

  /** `arg.split('--')[1]`, when it is truthy. */
  function FlagText(arg: string): Option<string> {
    var parts := Split(arg, "--");
    if |parts| > 1 && parts[1] != "" then Some(parts[1]) else None
  }

  /** `pat` first occurs in `s` at `i`. */
  predicate FirstAt(s: string, pat: string, i: nat)
    requires |pat| > 0
  {
    Occurs(s, pat, i) && forall j | 0 <= j < i :: !Occurs(s, pat, j)
  }

  /**
   * `f` sits in `s` at `k` and reaches exactly to the next `--`, or to the
   * end: no `--` starts inside it.
   */
  predicate SegmentAt(s: string, k: nat, f: string) {
    && k + |f| <= |s|
    && s[k..k + |f|] == f
    && (forall j | k <= j < k + |f| :: !Occurs(s, "--", j))
    && (k + |f| == |s| || Occurs(s, "--", k + |f|))
  }

  /** Occurrences in a suffix are occurrences in the whole, shifted. */
  lemma OccursShift(s: string, k: nat, pat: string, m: nat)
    requires k <= |s|
    ensures Occurs(s[k..], pat, m) <==> Occurs(s, pat, k + m)
  {
    if k + m + |pat| <= |s| {
      assert s[k..][m..m + |pat|] == s[k + m..k + m + |pat|];
    }
  }

  /** A segment read off the suffix after position `k` is a segment of the whole. */
  lemma SegmentFromRest(arg: string, k: nat, f: string)
    requires k <= |arg| && |f| <= |arg| - k && arg[k..][..|f|] == f
    requires forall m | 0 <= m < |f| :: !Occurs(arg[k..], "--", m)
    requires |f| == |arg| - k || Occurs(arg[k..], "--", |f|)
    ensures SegmentAt(arg, k, f)
  {
    forall j | k <= j < k + |f| ensures !Occurs(arg, "--", j) {
      OccursShift(arg, k, "--", j - k);
    }
    OccursShift(arg, k, "--", |f|);
    assert arg[k..k + |f|] == arg[k..][..|f|];
  }

  /** And back: a segment of the whole, read off the suffix. */
  lemma SegmentToRest(arg: string, k: nat, f: string)
    requires SegmentAt(arg, k, f)
    ensures |f| <= |arg| - k && arg[k..][..|f|] == f
    ensures forall m | 0 <= m < |f| :: !Occurs(arg[k..], "--", m)
    ensures |f| == |arg| - k || Occurs(arg[k..], "--", |f|)
  {
    forall m | 0 <= m < |f| ensures !Occurs(arg[k..], "--", m) {
      OccursShift(arg, k, "--", m);
    }
    OccursShift(arg, k, "--", |f|);
    assert arg[k..k + |f|] == arg[k..][..|f|];
  }

  /** The flag text runs from just after the first `--` up to the next one or the end. */
  lemma FlagTextFound(arg: string)
    requires FlagText(arg).Some?
    ensures exists i: nat :: FirstAt(arg, "--", i) && SegmentAt(arg, i + 2, FlagText(arg).value)
  {
    SplitHead(arg, "--");
    assert IndexOf(arg, "--").Some?;
    var i := IndexOf(arg, "--").value;
    var rest := arg[i + 2..];
    SplitHead(rest, "--");
    var f := FlagText(arg).value;
    assert f == Split(rest, "--")[0];
    assert FirstAt(arg, "--", i);
    match IndexOf(rest, "--")
    case None =>
      assert f == rest;
      SegmentFromRest(arg, i + 2, f);
    case Some(j) =>
      assert f == rest[..j];
      SegmentFromRest(arg, i + 2, f);
  }

  /** Any non-empty segment right after the first `--` is the flag text. */
  lemma FlagTextAt(arg: string, i: nat, f: string)
    requires f != "" && FirstAt(arg, "--", i) && SegmentAt(arg, i + 2, f)
    ensures FlagText(arg) == Some(f)
  {
    IndexOfFirst(arg, "--", i);
    SplitHead(arg, "--");
    var rest := arg[i + 2..];
    SegmentToRest(arg, i + 2, f);
    SplitHead(rest, "--");
    if |f| == |rest| {
      IndexOfNone(rest, "--");
      assert rest[..|f|] == rest;
    } else {
      IndexOfFirst(rest, "--", |f|);
    }
  }

  /**
   * An argument is a flag exactly when, after its first `--`, a non-empty
   * segment runs up to the second `--` or the end; that segment is the flag.
   */
  lemma FlagTextShape(arg: string, f: string)
    ensures FlagText(arg) == Some(f) <==>
      f != "" && exists i: nat :: FirstAt(arg, "--", i) && SegmentAt(arg, i + 2, f)
  {
    if FlagText(arg) == Some(f) {
      FlagTextFound(arg);
    }
    if f != "" && exists i: nat :: FirstAt(arg, "--", i) && SegmentAt(arg, i + 2, f) {
      var i: nat :| FirstAt(arg, "--", i) && SegmentAt(arg, i + 2, f);
      FlagTextAt(arg, i, f);
    }
  }

  /** `flag.split('=')[0]` */
  function Key(f: string): string {
    Split(f, "=")[0]
  }

  /** The key is the flag up to its first '=', or the whole flag. */
  lemma KeyShape(f: string)
    ensures |Key(f)| <= |f| && f[..|Key(f)|] == Key(f)
    ensures !Contains(Key(f), "=")
    ensures Key(f) == f || f[|Key(f)|] == '='
  {
    SplitHead(f, "=");
    SplitPiecesClean(f, "=");
    if IndexOf(f, "=").Some? {
      var i := IndexOf(f, "=").value;
      assert f[i..i + 1] == "=";
    }
  }

  /** `flag.split('=')[1]`, when it is truthy. */
  function ValueText(f: string): Option<string> {
    var parts := Split(f, "=");
    if |parts| > 1 && parts[1] != "" then Some(parts[1]) else None
  }

  /** bin/brigadier.js: `flag[1] || true`, the text itself or `true`. */
  function LibRead(text: Option<string>): (r: Result<Value>)
    ensures r.Success?
    ensures text.Some? ==> r.value == Str(text.value)
    ensures text.None? ==> r.value == Bool(true)
  {
    Success(if text.Some? then Str(text.value) else Bool(true))
  }

  /** src/cli.js: `JSON.parse(flag[1] || 'true')` */
  function SrcRead(json: Reader, text: Option<string>): (r: Result<Value>)
    ensures text.None? ==> r == json("true")
    ensures text.Some? ==> r == json(text.value)
  {
    json(if text.Some? then text.value else "true")
  }

  /**
   * The `process.argv.forEach` loop: a flag sets `config[key]` (the last one
   * for a key wins), any other argument is appended to the positionals. A
   * value that cannot be read stops the loop with its error.
   */
  function Scan(argv: seq<string>, read: Option<string> -> Result<Value>): (r: Result<Parsed>)
    ensures r.Success? ==> |r.value.positional| <= |argv|
    ensures r.Success? ==> forall i | 0 <= i < |r.value.positional| ::
      r.value.positional[i] in argv && FlagText(r.value.positional[i]).None?
    decreases |argv|
  {
    if |argv| == 0 then Success(Parsed(map[], []))
    else
      var p :- Scan(argv[..|argv| - 1], read);
      var arg := argv[|argv| - 1];
      match FlagText(arg)
      case None => Success(p.(positional := p.positional + [arg]))
      case Some(f) =>
        var v :- read(ValueText(f));
        Success(p.(config := p.config[Key(f) := v]))
  }

  /** An argv without flags is kept whole: every argument is a positional, in order, and the config is empty. */
  lemma {:induction false} ScanNoFlags(argv: seq<string>, read: Option<string> -> Result<Value>)
    requires forall i | 0 <= i < |argv| :: FlagText(argv[i]).None?
    ensures Scan(argv, read) == Success(Parsed(map[], argv))
    decreases |argv|
  {
    if |argv| > 0 {
      ScanNoFlags(argv[..|argv| - 1], read);
      assert argv[..|argv| - 1] + [argv[|argv| - 1]] == argv;
    }
  }

  /** Scanning `a` then `b` as one list: the first error wins, otherwise configs merge with `b` winning. */
  function Combine(x: Result<Parsed>, y: Result<Parsed>): Result<Parsed> {
    match x
    case Failure(e) => Failure(e)
    case Success(p) =>
      match y
      case Failure(e) => Failure(e)
      case Success(q) => Success(Parsed(p.config + q.config, p.positional + q.positional))
  }

  /**
   * The scan splits over concatenation: later flags override earlier ones
   * with the same key, positionals keep their relative order, and the
   * first unreadable value is the one reported.
   */
  lemma {:induction false} ScanAppend(a: seq<string>, b: seq<string>, read: Option<string> -> Result<Value>)
    ensures Scan(a + b, read) == Combine(Scan(a, read), Scan(b, read))
    decreases |b|
  {
    if |b| == 0 {
      assert a + b == a;
      match Scan(a, read)
      case Failure(_) =>
      case Success(p) =>
        assert p.config + map[] == p.config;
        assert p.positional + [] == p.positional;
    } else {
      var b', arg := b[..|b| - 1], b[|b| - 1];
      assert (a + b)[..|a + b| - 1] == a + b';
      assert (a + b)[|a + b| - 1] == arg;
      ScanAppend(a, b', read);
      match Scan(a, read)
      case Failure(_) =>
      case Success(p) =>
        match Scan(b', read)
        case Failure(_) =>
        case Success(q) =>
          match FlagText(arg)
          case None =>
            assert p.positional + (q.positional + [arg]) == (p.positional + q.positional) + [arg];
          case Some(f) =>
            match read(ValueText(f))
            case Failure(_) =>
            case Success(v) =>
              assert (p.config + q.config)[Key(f) := v] == p.config + q.config[Key(f) := v];
    }
  }

  /** A single argument: a flag sets one key, anything else is one positional. */
  lemma ScanOne(arg: string, read: Option<string> -> Result<Value>)
    ensures FlagText(arg).None? ==> Scan([arg], read) == Success(Parsed(map[], [arg]))
    ensures FlagText(arg).Some? && read(ValueText(FlagText(arg).value)).Success? ==>
      Scan([arg], read) == Success(Parsed(map[Key(FlagText(arg).value) := read(ValueText(FlagText(arg).value)).value], []))
  {
    assert [arg][..0] == [] && [arg][0] == arg;
    assert Scan([], read) == Success(Parsed(map[], []));
    assert [] + [arg] == [arg];
  }

  /** `--a` sets `a` to true. */
  lemma BareFlag()
    ensures Scan(["--a"], LibRead) == Success(Parsed(map["a" := Bool(true)], []))
  {
    assert SegmentAt("--a", 2, "a") by {
      assert "--a"[2..3] == "a";
    }
    assert FirstAt("--a", "--", 0) by { assert "--a"[0..2] == "--"; }
    FlagTextAt("--a", 0, "a");
    assert IndexOf("a", "=").None? by {
      IndexOfNone("a", "=");
      assert !Occurs("a", "=", 0) by { assert "a"[0..1] == "a"; }
    }
    SplitHead("a", "=");
    assert Key("a") == "a";
    assert ValueText("a") == None;
    ScanOne("--a", LibRead);
  }

  /** A flag with '=' after a one-letter key. */
  lemma KeyValue(f: string, key: string, rest: string)
    requires |key| == 1 && key != "=" && f == key + "=" + rest
    ensures Key(f) == key && Split(f, "=")[1..] == Split(rest, "=")
  {
    assert f[1..2] == "=" && f[0..1] == key;
    IndexOfFirst(f, "=", 1);
    SplitHead(f, "=");
    assert f[2..] == rest && f[..1] == key;
  }

  /** `--a=` sets `a` to true as well: the empty value text is falsy. */
  lemma EmptyValueFlag()
    ensures Scan(["--a="], LibRead) == Success(Parsed(map["a" := Bool(true)], []))
  {
    assert SegmentAt("--a=", 2, "a=") by {
      assert "--a="[2..4] == "a=";
      assert !Occurs("--a=", "--", 2) by { assert "--a="[2..4] != "--"; }
    }
    assert FirstAt("--a=", "--", 0) by { assert "--a="[0..2] == "--"; }
    FlagTextAt("--a=", 0, "a=");
    assert IndexOf("a=", "=") == Some(1) by {
      assert "a="[1..2] == "=" && "a="[0..1] != "=";
      IndexOfFirst("a=", "=", 1);
    }
    SplitHead("a=", "=");
    assert "a="[2..] == "" && "a="[..1] == "a";
    assert Split("", "=") == [""];
    assert Key("a=") == "a";
    assert ValueText("a=") == None;
    ScanOne("--a=", LibRead);
  }

  lemma NoDashesAfter(arg: string)
    requires arg == "--a=b=c"
    ensures SegmentAt(arg, 2, "a=b=c")
  {
    assert arg[2..7] == "a=b=c";
    forall j | 2 <= j < 7 ensures !Occurs(arg, "--", j) {
      assert arg[j] != '-';
      if j + 2 <= |arg| {
        assert arg[j..j + 2][0] == arg[j];
      }
    }
  }

  /** `--a=b=c` sets `a` to 'b': the text after a second '=' is lost. */
  lemma NestedEqualsFlag()
    ensures Scan(["--a=b=c"], LibRead) == Success(Parsed(map["a" := Str("b")], []))
  {
    NestedEqualsText();
    NestedEqualsParts();
    ScanOne("--a=b=c", LibRead);
  }

  lemma NestedEqualsText()
    ensures FlagText("--a=b=c") == Some("a=b=c")
  {
    var arg := "--a=b=c";
    NoDashesAfter(arg);
    assert FirstAt(arg, "--", 0) by { assert arg[0..2] == "--"; }
    FlagTextAt(arg, 0, "a=b=c");
  }

  lemma NestedEqualsParts()
    ensures Key("a=b=c") == "a" && ValueText("a=b=c") == Some("b")
  {
    KeyValue("a=b=c", "a", "b=c");
    KeyValue("b=c", "b", "c");
    var parts, rest := Split("a=b=c", "="), Split("b=c", "=");
    assert parts[1..] == rest && |rest| >= 1;
    assert parts[1] == rest[0] == "b";
  }

  /** The project and the optional task named by the positionals. */
  datatype Target = Target(project: string, task: Option<string>)

  /**
   * The positional checks: index 0 and 1 are the interpreter and the script,
   * 2 the project, 3 the task; a truthy 4th is rejected before a missing
   * project is. A rejection is `usage(...)`, which prints the banner and
   * calls `main.fail.apply` under the binding `fail`.
   */
  function Locate(positional: seq<string>, invalid: string, noProject: string, fail: Util.FailBinding)
    : (r: Result<Target>)
    ensures |positional| > 4 && positional[4] != "" ==> r == Util.ApplyVia(fail, [Str(invalid), Str(positional[4])])
    ensures !(|positional| > 4 && positional[4] != "") && (|positional| <= 2 || positional[2] == "") ==>
      r == Util.ApplyVia(fail, [Str(noProject)])
    ensures r.Success? <==> !(|positional| > 4 && positional[4] != "") && |positional| > 2 && positional[2] != ""
    ensures r.Success? ==>
      (r.value.project == positional[2]
       && (r.value.task.Some? <==> |positional| > 3)
       && (r.value.task.Some? ==> r.value.task.value == positional[3]))
  {
    if |positional| > 4 && positional[4] != "" then Util.ApplyVia(fail, [Str(invalid), Str(positional[4])])
    else if |positional| <= 2 || positional[2] == "" then Util.ApplyVia(fail, [Str(noProject)])
    else Success(Target(positional[2], if |positional| > 3 then Some(positional[3]) else None))
  }

  /** How a command line ends: rejected before any task runs, or the outcome of `build`. */
  datatype Ending = Aborted(error: Error) | Built(outcome: Engine.Outcome)

  /**
   * bin/brigadier.js: scan (which cannot fail, see `LibScanSucceeds`), check
   * the positionals, set `verbose` from `config.verbose`, load the project
   * and `build` the named task.
   */
  function LibMain(env: Engine.Env, argv: seq<string>, load: string -> Engine.Registry, fuel: nat): (r: Ending)
    requires env.variant == Engine.Lib
    ensures r.Aborted? ==>
      || r.error == Thrown([Str("no project")])
      || (r.error.Thrown? && |r.error.parts| == 2 && r.error.parts[0] == Str("invalid argument"))
    ensures r.Built? ==> var p := Scan(argv, LibRead);
      p.Success? && |p.value.positional| > 2 && r.outcome.session.tasks == load(p.value.positional[2])
  {
    LibScanSucceeds(argv);
    var p := Scan(argv, LibRead).value;
    match Locate(p.positional, "invalid argument", "no project", Util.Bound)
    case Failure(e) => Aborted(e)
    case Success(t) => Built(Engine.Build(env, Engine.Start(load(t.project), p.config), t.task, fuel))
  }

  /** Scanning with bin/brigadier.js's reader never fails. */
  lemma {:induction false} LibScanSucceeds(argv: seq<string>)
    ensures Scan(argv, LibRead).Success?
    decreases |argv|
  {
    if |argv| > 0 {
      LibScanSucceeds(argv[..|argv| - 1]);
    }
  }

  /**
   * bin/brigadier.js with a project and no task builds 'default' when the
   * project declares it, with the flags as `project.config` and `--verbose`
   * deciding whether traces print; a task the project does not declare
   * fails with 'No such task'.
   */
  lemma LibMainDispatch(env: Engine.Env, argv: seq<string>, load: string -> Engine.Registry, fuel: nat)
    requires env.variant == Engine.Lib
    ensures Scan(argv, LibRead).Success?
    ensures var p := Scan(argv, LibRead).value;
      var pos := p.positional;
      |pos| == 3 && pos[2] != "" && Engine.Default in load(pos[2]).bodies ==>
        LibMain(env, argv, load, fuel)
          == Built(Engine.Run(env, Engine.Start(load(pos[2]), p.config), Engine.Default, Engine.Shared, fuel))
    ensures var p := Scan(argv, LibRead).value;
      var pos := p.positional;
      |pos| == 4 && pos[2] != "" && pos[3] != "" && pos[3] !in load(pos[2]).bodies ==>
        var s := Engine.Start(load(pos[2]), p.config);
        LibMain(env, argv, load, fuel) == Built(Engine.Outcome(s, Failure(Thrown(Engine.NoSuchTask(s, pos[3])))))
  {
    LibScanSucceeds(argv);
  }

  /**
   * A name for the task to build: the named one if declared, 'default' if
   * none is named; otherwise `usage(...)` under the binding `fail`.
   */
  function ResolveTask(reg: Engine.Registry, task: Option<string>, fail: Util.FailBinding): (r: Result<string>)
    ensures r.Success? ==> r.value in reg.bodies
    ensures r.Success? && task.Some? && task.value != "" ==> r.value == task.value
    ensures (task.None? || task == Some("")) ==>
      (r.Success? <==> Engine.Default in reg.bodies)
    ensures task.Some? && task.value != "" ==> (r.Success? <==> task.value in reg.bodies)
    ensures (task.None? || task == Some("")) && r.Success? ==> r.value == Engine.Default
    ensures (task.None? || task == Some("")) && Engine.Default !in reg.bodies ==>
      r == Util.ApplyVia(fail, [Str("No default task")])
    ensures task.Some? && task.value != "" && task.value !in reg.bodies ==>
      r == Util.ApplyVia(fail, [Str("No such task"), Str(task.value), Str("in"), Str(JoinStrings(reg.order, "|"))])
  {
    if task.None? || task.value == "" then
      if Engine.Default in reg.bodies then Success(Engine.Default) else Util.ApplyVia(fail, [Str("No default task")])
    else if task.value in reg.bodies then Success(task.value)
    else Util.ApplyVia(fail, [Str("No such task"), Str(task.value), Str("in"), Str(JoinStrings(reg.order, "|"))])
  }

  /**
   * src/cli.js as written: a rejected command line reaches `usage`, whose
   * `main.fail` is undefined, so reading its `apply` throws; a valid one
   * reaches `main.global()`, but src/main.js exports that function as
   * `globals`, so the call throws before the project is loaded.
   */
  function SrcMainAsWritten(env: Engine.Env, argv: seq<string>, json: Reader, load: string -> Engine.Registry,
                            fuel: nat): (r: Ending)
    requires env.variant == Engine.Src
    ensures r.Aborted?
    ensures var p := Scan(argv, text => SrcRead(json, text));
      p.Success? ==>
        r.error == if Locate(p.value.positional, "Invalid argument", "No project", Util.Unbound).Success?
                   then TypeError("main.global is not a function")
                   else TypeError("Cannot read property 'apply' of undefined")
  {
    var p := Scan(argv, text => SrcRead(json, text));
    if p.Failure? then Aborted(p.error)
    else
      match Locate(p.value.positional, "Invalid argument", "No project", Util.Unbound)
      case Failure(e) => Aborted(e)
      case Success(_) => Aborted(TypeError("main.global is not a function"))
  }

  /** As written, src/cli.js gets no further than the TypeError once the arguments are valid. */
  lemma SrcNeverBuilds(env: Engine.Env, argv: seq<string>, json: Reader, load: string -> Engine.Registry, fuel: nat)
    requires env.variant == Engine.Src
    ensures Scan(argv, text => SrcRead(json, text)).Success?
         && Locate(Scan(argv, text => SrcRead(json, text)).value.positional, "Invalid argument", "No project",
                   Util.Unbound).Success?
         ==> SrcMainAsWritten(env, argv, json, load, fuel) == Aborted(TypeError("main.global is not a function"))
  {
  }

  /**
   * src/cli.js with the globals installed: load the project, resolve the
   * task ('default' when none is named, an unknown name rejected with the
   * declared names) before building anything, then `build` it. Rejections
   * go through `usage` with `main.fail` bound as `env` says.
   */
  function SrcMain(env: Engine.Env, argv: seq<string>, json: Reader, load: string -> Engine.Registry,
                   fuel: nat): (r: Ending)
    requires env.variant == Engine.Src
    ensures r.Built? ==> r.outcome.result.Failure? || r.outcome.result == Success(Undefined)
  {
    var p := Scan(argv, text => SrcRead(json, text));
    if p.Failure? then Aborted(p.error)
    else
      match Locate(p.value.positional, "Invalid argument", "No project", env.srcFail)
      case Failure(e) => Aborted(e)
      case Success(t) =>
        var tasks := load(t.project);
        match ResolveTask(tasks, t.task, env.srcFail)
        case Failure(e) => Aborted(e)
        case Success(name) =>
          var s := Engine.Start(tasks, p.value.config);
          Built(Engine.Build(env, s, Some(name), fuel))
  }

  /**
   * With the globals installed, a command line that validates builds the
   * task it names: the script is loaded, `project.config` holds the flags,
   * and resolving the name first builds the same thing `build` would have
   * built from the name as given.
   */
  lemma SrcMainBuilds(env: Engine.Env, argv: seq<string>, json: Reader, load: string -> Engine.Registry, fuel: nat)
    requires env.variant == Engine.Src
    ensures var p := Scan(argv, text => SrcRead(json, text));
      var l := if p.Success? then Locate(p.value.positional, "Invalid argument", "No project", env.srcFail)
               else Failure(StackOverflow);
      l.Success? && ResolveTask(load(l.value.project), l.value.task, env.srcFail).Success? ==>
        var s := Engine.Start(load(l.value.project), p.value.config);
        && SrcMain(env, argv, json, load, fuel)
             == Built(Engine.Build(env, s, Some(ResolveTask(load(l.value.project), l.value.task, env.srcFail).value),
                                   fuel))
        && SrcMain(env, argv, json, load, fuel) == Built(Engine.Build(env, s, l.value.task, fuel))
  {
    var p := Scan(argv, text => SrcRead(json, text));
    if p.Success? && Locate(p.value.positional, "Invalid argument", "No project", env.srcFail).Success? {
      var t := Locate(p.value.positional, "Invalid argument", "No project", env.srcFail).value;
      if t.task.None? || t.task == Some("") {
        Engine.BuildResolves(env, Engine.Start(load(t.project), p.value.config), t.task, fuel);
      }
    }
  }

  /** Which arguments are positionals does not depend on how flag values are read. */
  lemma {:induction false} ScanPositionalsAgree(argv: seq<string>, read: Option<string> -> Result<Value>,
                                                other: Option<string> -> Result<Value>)
    requires Scan(argv, read).Success? && Scan(argv, other).Success?
    ensures Scan(argv, read).value.positional == Scan(argv, other).value.positional
    decreases |argv|
  {
    if |argv| > 0 {
      ScanPositionalsAgree(argv[..|argv| - 1], read, other);
    }
  }

  /**
   * Where the two command lines differ on an unknown task: src rejects it
   * through `usage` before any task runs, lib builds it and its `run`
   * throws. lib, and src with `main.fail` bound, report 'No such task', the
   * name, 'in' and the declared names joined by '|'; src as written throws
   * the TypeError of reading `apply` of undefined instead.
   */
  lemma UnknownTaskRejected(lib: Engine.Env, src: Engine.Env, argv: seq<string>, json: Reader,
                            load: string -> Engine.Registry, fuel: nat)
    requires lib.variant == Engine.Lib && src.variant == Engine.Src
    requires Scan(argv, text => SrcRead(json, text)).Success?
    ensures Scan(argv, LibRead).Success?
    ensures var pos := Scan(argv, LibRead).value.positional;
      |pos| == 4 && pos[2] != "" && pos[3] != "" && pos[3] !in load(pos[2]).bodies ==>
        var parts := [Str("No such task"), Str(pos[3]), Str("in"), Str(JoinStrings(load(pos[2]).order, "|"))];
        && SrcMain(src, argv, json, load, fuel)
             == Aborted(if src.srcFail == Util.Bound then Thrown(parts)
                        else TypeError("Cannot read property 'apply' of undefined"))
        && LibMain(lib, argv, load, fuel).Built?
        && LibMain(lib, argv, load, fuel).outcome.result == Failure(Thrown(parts))
  {
    LibScanSucceeds(argv);
    LibMainDispatch(lib, argv, load, fuel);
    ScanPositionalsAgree(argv, LibRead, text => SrcRead(json, text));
  }
}

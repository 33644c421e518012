# Brigadier, modelled in Dafny

Brigadier is a small JavaScript build runner. A project script declares named
tasks with `task(name, body)`. A task body calls `run` for other tasks, asks
`ran` whether a task already completed, logs, fails, and runs shell commands
with `exec` and `background`. The command line `brigadier project [task]
[--key[=value]]` loads the script and builds the chosen task (or `default`).

The repository carries two generations of the same core, and both are
modelled side by side:

- **lib** is lib/main.js, lib/os.js, lib/util.js and bin/brigadier.js. Its
  `ran` counts completions through a 32-bit `| 0`, its `exec` has a
  `fail: false` opt-out, and its `background` handles the child's exit and
  kill.
- **src** is src/main.js, src/os.js, src/util.js, src/log.js and src/cli.js.
  Its `ran` is a boolean, its `exec` splits a command on spaces and has no
  opt-out, and its flags are read with `JSON.parse`.

The modules follow the program's structure:

| module | file | what it holds |
|---|---|---|
| `Js` | js.dfy | the JavaScript semantics the core relies on: values, truthiness, thrown errors, `indexOf`, `split`, `Array.prototype.join`, `String(v)`, `n \| 0` (ToInt32) and the `\s` class |
| `Util` | util.dfy | `trim`, `strip`, `join`, `fail`, `concat`, `map`, `each` |
| `Log` | log.dfy | the logger: severities, the indentation prefix, the verbose switch |
| `Os` | os.dfy | normalisation of `exec`/`background` arguments and options, the outcome of a spawn, lib's background exit handler and kill plan, src's space splitting |
| `Engine` | engine.dfy | the task registry, `run`, `ran`, the `task` wrapper, `build` and lib's exit listener, over a small statement language for task bodies |
| `Cli` | cli.dfy | argv scanning (`--key[=value]`), positional validation, task resolution, and the two entry points |
| `Scenario` | scenario.dfy | the repository's example project, and what building its `default` task does when every command succeeds |

A task body is a JavaScript function in the source. Here it is a statement
list (`Engine.Stmt`) over the capabilities a script uses. Its statements are
`run`, `log`, `trace`, `fail` and `exec`; writing a key of `project.config`;
`if`; `return`; and opaque side effects such as `mkdir`. Expressions are
literals, `config`, `config[key]`, `project.config[key]` and `ran(name)`. The
JavaScript call stack becomes a `fuel` argument: running out of fuel is the
stack-overflow `RangeError`.

Four things are parameters of the model, in `Engine.Env`:

- how the operating system answers a spawn (`Os.SpawnResult`);
- `util.inspect`;
- which generation runs;
- what src's `fail` is bound to (`Util.FailBinding`). src/util.js exports
  no `fail`, so as written (`Unbound`) every src call of `fail`, and
  `main.fail.apply` in src/cli.js's `usage`, throws a TypeError. `Bound` is
  the `fail` of src/internal.js, which throws the same Error as lib's. See
  "## Findings".

`JSON.parse` and the loading of the project script are parameters of the CLI
entry points.

## Model

| member | source | states |
|---|---|---|
| Js.IndexOf | src/os.js:27 | `indexOf` returns the first index where the pattern occurs, and -1 exactly when it occurs nowhere |
| Js.IndexOfFirst | src/os.js:27 | any first occurrence is the one `indexOf` reports |
| Js.IndexOfNone | src/os.js:27 | `indexOf` gives -1 if and only if no index holds the pattern |
| Js.Split | src/os.js:29 | `split` always gives at least one piece. The pieces rejoin to the input (`Js.SplitJoin`) and none contains the separator (`Js.SplitPiecesClean`). For a one-character separator, such as the space here, those two facts pin the pieces. For a longer one, such as the `--` of the flag scan, they do not: `["a-", "b"]` also rejoins to `a---b`. There the cuts are fixed by the leftmost occurrence, which `Js.SplitHead` states: the first piece runs up to the first separator, and the rest is the split of what follows it |
| Js.SplitPiecesClean | src/os.js:29-30 | no piece of `command.split(' ')` contains a space |
| Js.SplitJoin | src/os.js:29-30 | joining the pieces of a split with the same separator gives back the input |
| Js.ToInt32 | lib/main.js:130-132 | `n \| 0` lies in the signed 32-bit range, is congruent to `n` modulo 2^32, and is `n` itself when `n` is in range |
| Js.ToInt32Congruent | lib/main.js:120 | values congruent modulo 2^32 coerce to the same 32-bit integer |
| Util.TrimLeftShape | src/util.js:42 | the leading replacement removes only whitespace, and all of it |
| Util.TrimRightShape | src/util.js:42 | the trailing replacement removes only whitespace, and all of it |
| Util.Trim | src/util.js:41-43 | the trimmed text has whitespace at neither end and is no longer than the input |
| Util.TrimFrames | src/util.js:41-43 | the input is the trimmed text with whitespace-only text before and after it |
| Util.TrimFramed | src/util.js:41-43 | the inverse direction: trimming text with no whitespace at its ends, framed by whitespace, gives that text back |
| Util.TrimLeftSkips | src/util.js:42 | a whitespace run followed by text that does not start with whitespace is cut exactly at that text |
| Util.TrimRightSkips | src/util.js:42 | text that does not end with whitespace, followed by a whitespace run, is cut exactly after that text |
| Util.TrimIdempotent | src/util.js:41-43 | trimming twice is trimming once, and text with no whitespace at its ends is left alone |
| Util.TrimValue | lib/util.js:45-47 | lib `trim` maps every falsy input to '' and a string to its trimmed text; the result never has whitespace at its ends |
| Util.TrimChecked | src/util.js:41-43 | src `trim` succeeds exactly on strings, and then trims them; any other input is a TypeError |
| Util.DropControls | src/util.js:52 | the result has no CR, LF or TAB and is no longer than the input |
| Util.DropControlsCounts | src/util.js:52 | every other character survives exactly as often as it occurred; CR, LF and TAB occur zero times |
| Util.DropControlsAppend | src/util.js:52 | the global replacement distributes over concatenation |
| Util.DropControlsKeeps | src/util.js:52 | text without CR, LF or TAB is unchanged |
| Util.DropControlsEnds | src/util.js:50-53 | a first and last character that are not controls stay first and last |
| Util.DropControlsTrimmed | src/util.js:50-53 | removing controls from text with no whitespace at its ends leaves none there |
| Util.Strip | src/util.js:50-53 | `strip` leaves no CR, LF or TAB |
| Util.StripKeeps | src/util.js:50-53 | `strip` keeps every non-control character of the trimmed text, interior spaces included |
| Util.StripIdempotent | src/util.js:50-53 | `strip` output has no whitespace at its ends, and stripping twice is stripping once |
| Util.StripValue | lib/util.js:54-57 | lib `strip` maps falsy inputs to '' and a string to its stripped text; the result has no controls and no whitespace at its ends |
| Util.StripChecked | src/util.js:50-53 | src `strip` maps falsy inputs to '' and a string to its stripped text, and throws exactly for the other truthy values |
| Util.Join | src/util.js:67-79 | with a non-empty separator the output is empty exactly when there are no items; `Util.JoinTrailing` pins it to `Array.prototype.join` plus one trailing separator |
| Util.JoinAppend | src/util.js:67-79 | `join` of a concatenation is the concatenation of the joins |
| Util.JoinSnoc | src/util.js:72-74 | each loop step appends the rendered item and then the separator |
| Util.JoinEnds | src/util.js:67-79 | `join` of nothing is '', and any other join ends with the separator |
| Util.JoinTrailing | src/util.js:67-79 | `join` is `Array.prototype.join` over the rendered items, plus one trailing separator |
| Util.Fail | lib/util.js:134-136 | `fail` always throws a fresh Error |
| Util.FailMessage | lib/util.js:134-145 | the thrown message is the arguments space-joined, so it ends with a space when there are any |
| Util.Concat | lib/util.js:99-117 | undefined and null arguments contribute nothing, and string arguments contribute exactly their own length; `Util.ConcatFlattens` reduces nested arrays to their leaves |
| Util.ConcatAppend | lib/util.js:99-117 | `concat` over concatenated argument lists is the concatenation of the results |
| Util.ConcatFlattens | lib/util.js:99-117 | `concat` of nested arrays equals `concat` of their flattening into non-array values (the reference definition) |
| Util.PieceFlattens | lib/util.js:102-113 | one argument contributes what `concat` of its leaves gives: an empty array and undefined/null contribute '' |
| Util.Map | lib/util.js:87-95 | `map` over an array gives one result per element, each the visitor's value for that element and index; the first throw aborts, and every earlier visit succeeded |
| Util.Each | lib/util.js:28-38 | the loop over the array branch of `each` computes the reference fold `Visits`, which calls the visitor on index 0, 1, 2, … in order with the state each earlier call returned, and stops at the first throw |
| Log.Prefix | src/log.js:39-46 | the indentation is two spaces per level, and nothing at or below level 0 |
| Log.Emit | src/log.js:17-34 | `log` and `info` print exactly one line; `trace` prints one only when verbose; the indent and the verbose flag are unchanged |
| Log.JoinStartsWith | src/log.js:18 | the printed text starts with the first argument's first character |
| Log.LevelReadable | src/log.js:17-46 | the nesting level can be read back from a printed line: after the escape there are exactly 2 × level spaces |
| Os.LibDefaults | lib/os.js:43-52 | lib options gain `shell` (true unless present) and `stdio` ('inherit' unless present, and `true` read as 'inherit'); every other option is kept |
| Os.LibExecCall | lib/os.js:30-53 | the spawned command is the given command; the trace is the spawned command, its arguments space-joined, and `inspect` of the options (after options given as `args` restart the call) or '' when there are none; the spawned options are those options with the defaults, so they always carry `shell` and `stdio` |
| Os.ArgsNormalised | lib/os.js:31-41 | options passed as `args` become options with [] as arguments; a string becomes a one-element list; an array is kept; a missing value becomes []; src does the same for options and non-empty strings |
| Os.LibExecOutcome | lib/os.js:54-65 | lib `exec` fails if and only if `fail` is not `false` and the spawn errored or exited non-zero; it rethrows the spawn error first, else fails with "command exit code status"; otherwise it returns stdout or '' |
| Os.LibExecNoFail | lib/os.js:56-65 | with `fail: false`, lib `exec` never throws and returns the output |
| Os.Remove | lib/os.js:110 | `removeListener` drops one registration of the handler when present, and keeps the list otherwise |
| Os.LibBackground | lib/os.js:79-126 | `background` prepends the kill handler to the exit listeners, snapshots the current indent, and normalises options like `exec` |
| Os.LibBackgroundExit | lib/os.js:106-118 | on child exit: the indent is restored to the snapshot and the kill handler deregistered; a non-zero code (after `\| 0`) with `fail` on throws "background command exit code n"; otherwise a watched child exits the process with the code |
| Os.BackgroundRoundTrip | lib/os.js:103-123 | spawning then exiting leaves the listener list and the indent as they were before the spawn |
| Os.WatchedFailureCrashes | lib/os.js:112-117 | a watched child with the default `fail` that exits with 3 throws instead of exiting the process with 3 |
| Os.WatchedExitPropagates | lib/os.js:112-117 | with `fail: false`, a watched child that exits with 3 makes the process exit with 3 |
| Os.KillPlan | lib/os.js:128-136 | every platform ends by signalling the direct child; off Windows that is all it does |
| Os.KillNeverThrows | lib/os.js:128-136 | on win32 the `taskkill /pid N /T /F` exec runs first (the switch falls through), with `fail: false` and `stdio: false`, so it never throws |
| Os.SrcDefaults | src/os.js:41-47 | src options gain `stdio` ([null, 'inherit', 'inherit'] when falsy) and `shell` (true unless present); every other option is kept |
| Os.SrcExecCall | src/os.js:23-48 | the trace is the spawned command, its arguments space-joined, and `inspect` of the options in effect or '' when there are none (always '' after a command is split, which drops the options); the spawned options are those options with the defaults, so they always carry `shell` and `stdio`; a command with a space and no arguments spawns a space-free first word with string arguments |
| Os.SrcSplitCommand | src/os.js:27-30 | a command containing a space and given no arguments is split: the pieces rejoin to the command, no argument contains a space, and the given options are dropped |
| Os.SrcSplitDoubleSpace | src/os.js:27-30 | a double space yields an empty argument: `a  b` spawns `a` with ['', 'b'] |
| Os.SrcExecOutcome | src/os.js:49-59 | src `exec` fails if and only if the spawn errored or exited non-zero; a spawn error is rethrown, a non-zero exit is whatever `fail` with the command, 'exit code' and the status throws under its binding; otherwise it returns stdout or '' |
| Os.SrcIsLibWithoutOptOut | src/os.js:49-59 | with `fail` bound, src `exec` decides exactly like lib `exec` with any `fail` option removed |
| Os.SrcExitAsWritten | src/os.js:11 | as written, a non-zero exit throws TypeError "fail is not a function" where the bound `fail` throws the Error naming the command and status; every other outcome is the same under both bindings |
| Os.SrcBackground | src/os.js:69-95 | src `background` delegates to the synchronous `exec` exactly when there are no arguments and the command has a space; otherwise it spawns what `exec` would |
| Engine.Declare | lib/main.js:94-106 | declaring keeps the registry well formed: names listed once, and listed exactly when declared |
| Engine.DeclareReplaces | lib/main.js:94-106 | declaring installs the body, keeps every other body, and appends the name to the listing only the first time |
| Engine.Start | bin/brigadier.js:32 | a fresh session has indent 0, no output and no completions, and is verbose exactly when `config.verbose` is truthy |
| Engine.Ran | lib/main.js:130-132 | lib `ran` is a 32-bit integer equal to the completion count below 2^31; src `ran` is `true` exactly when the task completed at least once |
| Engine.StoredCountAgrees | lib/main.js:120-131 | after k completions, `ran[name] \| 0` equals k wrapped into 32 bits, as the repeated `(ran[name] \| 0) + 1` stores it |
| Engine.StoredStep | lib/main.js:120 | one `(x \| 0) + 1` step keeps the stored count congruent with the completion count |
| Engine.Enter | lib/main.js:95-100 | entering a task prints its name at info level and the current indent, then indents by one; registry, counts, config and effects are unchanged |
| Engine.Finish | lib/main.js:101-104 | a body that throws leaves the session as it was at the throw; a body that completes is unindented |
| Engine.AtExit | lib/main.js:67-70 | the exit listener resets the indent to 0 and traces 'exit' with the code after `\| 0` |
| Engine.Run | lib/main.js:114-123 | `run` never changes the declared tasks, and it returns only for a declared task with stack left, which then has at least one recorded completion; the effect on counts and indent is `Engine.RunBody` and `Engine.RunEvolves` |
| Engine.ExecStmt | lib/main.js:101 | no statement of a task body changes the declared tasks, and only a `return` (directly or inside an `if`) ends the body early with a value |
| Engine.ExecCall | src/os.js:23-60 | `exec` inside a body records exactly one spawn of the normalised invocation after the earlier effects, changes neither counts, config, registry nor indent, never returns from the body, and throws exactly when the spawn errs or exits non-zero and (in lib) `fail` is not false |
| Engine.RunBody | lib/main.js:114-123 | running a declared task throws exactly when its body throws, leaving the session as the body left it; otherwise it returns the body's value (undefined when there is none), restores the caller's indent, adds exactly one completion of that task and none of any other, and keeps the body's output and effects |
| Engine.RunEvolves | lib/main.js:114-123 | `run` only appends output and effects, never lowers a count, and on success restores the indent and raises the task's own count by at least one |
| Engine.InvokeEvolves | lib/main.js:95-105 | the task wrapper only appends output and effects, never lowers a count, and restores the indent on success |
| Engine.RunUndeclared | lib/main.js:115-117 | running an undeclared name changes nothing; lib, and src with `fail` bound, fail with "No such task name in a\|b\|…", the names in declaration order, and src as written fails with TypeError "fail is not a function" |
| Engine.SrcFailUnbound | src/main.js:21 | as written, each src statement that calls `fail` (a `fail(...)`, a `run` of an undeclared name, an `exec` that exits non-zero) throws TypeError "fail is not a function" where the bound `fail` throws an Error with the parts, and leaves the same session |
| Engine.RunCountsOnce | lib/main.js:119-120 | a task whose body runs no other task adds exactly one completion on success, and changes no count when it throws |
| Engine.RunAnnounces | lib/main.js:96 | the first line a run prints is the task name at info level and the caller's indent |
| Engine.BodyGetsConfigOrEmpty | lib/main.js:101 | the body receives the given config, or `{}` when it is falsy |
| Engine.ThrowLeavesIndent | lib/main.js:100-102 | a body that throws leaves the indent one level deeper; only the exit listener resets it |
| Engine.SrcRanSticky | src/main.js:112-125 | in src, a successful run makes `ran(name)` true, and a task that had run stays run |
| Engine.LibRanGrows | lib/main.js:119-132 | in lib, a successful run raises `ran(name)` by at least one (below 2^31 completions) |
| Engine.Build | lib/main.js:60-75 | `build` never changes the declared tasks; when it succeeds, the task it resolved ('default' for a missing or empty name) has completed at least once, and in src the value is undefined |
| Engine.Dispatch | src/main.js:62-67 | lib `build` returns exactly what `run` returns; src `build` succeeds exactly when its `run` does, then returns undefined; either way a success means the task completed |
| Engine.BuildResolves | lib/main.js:60-75 | with no name, lib `build` runs 'default' with `project.config` when it is declared, and src `build` does exactly what `build('default')` does; when 'default' is not declared, the call of the undefined `usage` throws a ReferenceError |
| Engine.SrcBuildReturnsNothing | src/main.js:55-68 | src `build` succeeds exactly when the run does, returns undefined, and then traces 'gut!' |
| Cli.FlagTextShape | bin/brigadier.js:15-16 | an argument is a flag exactly when the text between its first `--` and the next `--` (or the end) is non-empty; the flag is that text |
| Cli.KeyShape | bin/brigadier.js:17-18 | the key is the flag up to its first `=`: a prefix of the flag with no `=` in it |
| Cli.Scan | bin/brigadier.js:13-22 | every positional the scan keeps is an argument of argv that is not a flag, and there are no more of them than arguments |
| Cli.ScanNoFlags | bin/brigadier.js:14-22 | an argv without flags is kept whole: every argument is a positional, in order, and the config is empty |
| Cli.ScanAppend | bin/brigadier.js:14-22 | scanning argv is a left-to-right fold: scanning a concatenation combines the two scans, later flags overriding earlier ones |
| Cli.ScanPositionalsAgree | src/cli.js:24-32 | which arguments are positionals does not depend on how flag values are read: any two scans of the same argv that succeed keep the same positionals |
| Cli.ScanOne | bin/brigadier.js:14-22 | a non-flag argument is kept as positional; a flag sets its key to the parsed value |
| Cli.BareFlag | bin/brigadier.js:15-18 | `--a` sets `a` to `true` |
| Cli.EmptyValueFlag | bin/brigadier.js:17-18 | `--a=` also sets `a` to `true`, because the empty value is falsy |
| Cli.NestedEqualsFlag | bin/brigadier.js:17-18 | `--a=b=c` sets `a` to 'b': the value is the second `=` piece only |
| Cli.Locate | bin/brigadier.js:24-30 | a truthy fifth positional is rejected first, through `usage` with 'invalid argument' (src: 'Invalid argument') and that argument; otherwise a missing or empty project is rejected through `usage` with 'no project' (src: 'No project'); `usage` throws the Error with those parts when `main.fail` is bound, and TypeError "Cannot read property 'apply' of undefined" for src as written; otherwise the project is the third positional and the task is the fourth when there is one |
| Cli.LibScanSucceeds | bin/brigadier.js:14-22 | lib's argv scan never throws |
| Cli.LibMain | bin/brigadier.js:24-34 | the lib command line is only ever rejected with 'no project' or with 'invalid argument' and the extra argument; when it builds, it builds over the registry of the project the third positional names |
| Cli.LibMainDispatch | bin/brigadier.js:24-34 | `brigadier project` builds 'default' with the scanned config; an unknown task name reaches `build` and fails inside `run` with "No such task" |
| Cli.ResolveTask | src/cli.js:47-53 | a missing or empty task resolves to 'default' when it is declared and otherwise goes to `usage` with 'No default task'; a named task resolves to itself when declared and otherwise goes to `usage` with 'No such task', the name, 'in' and the declared names joined by '\|'; `usage` throws the Error with those parts when `main.fail` is bound, and the TypeError of reading `apply` of undefined as written |
| Cli.SrcMainAsWritten | src/cli.js:18-45 | as written, the src entry point never builds: every run of it is aborted; once the flags read, a rejected command line ends in TypeError "Cannot read property 'apply' of undefined" from `usage`, and a valid one in TypeError "main.global is not a function" |
| Cli.SrcNeverBuilds | src/cli.js:42-45 | as written, the src entry point never builds: once the arguments validate, it throws TypeError "main.global is not a function" |
| Cli.SrcMain | src/cli.js:18-57 | with `main.globals()` called and `main.fail` bound as the environment says, a src command line that gets as far as building either fails or returns undefined |
| Cli.SrcMainBuilds | src/cli.js:44-57 | with `main.globals()` called, a command line whose flags read, whose positionals validate and whose task resolves loads the project and builds the resolved task with the flags as `project.config`, which is exactly what `build` of the task as named would do |
| Cli.UnknownTaskRejected | src/cli.js:18-53 | whenever src can read the flags, an unknown task name is rejected by both entry points, src through `usage` before building and lib from inside `run`; lib, and src with `main.fail` bound, report the same "No such task" message, and src as written aborts with TypeError "Cannot read property 'apply' of undefined" |
| Scenario.DeclareAllFresh | lib/main.js:94-106 | declaring distinct new names one after the other lists them in order after the existing ones, and gives each its own body |
| Scenario.DeclareAllKeeps | lib/main.js:94-106 | a name the script does not declare keeps the body it had |
| Scenario.ExampleTasks | example/project.js:7-63 | the example declares its eight tasks in source order, each with its own body |
| Scenario.ExampleShaped | example/project.js:7-63 | the example's registry has the shape the default build relies on |
| Scenario.RunNormal | lib/main.js:114-123 | a body that completes normally without nested runs makes `run` succeed with undefined, restore the indent and record one completion |
| Scenario.ExecOk | lib/os.js:54-65 | with every command succeeding, an `exec` statement adds exactly one spawn and changes nothing else |
| Scenario.RunTouch | example/project.js:26-32 | `clean` and `setup` complete once, each touching the file system once |
| Scenario.RunExec | example/project.js:57-59 | `package` completes once, with exactly one spawn |
| Scenario.CompileFileOk | example/project.js:41-45 | one compile step spawns the debug compiler exactly when `project.config.debug \|\| config.debug` holds |
| Scenario.EnsureDone | example/project.js:35-36 | `ran(name) \|\| run(name)` does nothing once the task has completed |
| Scenario.DebugStable | example/project.js:42 | the debug test depends only on the configurations, so it is the same for both files |
| Scenario.CompileBoth | example/project.js:38-45 | the `each` over the two files spawns two compilers in order, in the same mode |
| Scenario.RunCompile | example/project.js:34-46 | once `setup` has run, `compile` completes once and spawns both compilers, with `--debug` when either config asks for it |
| Scenario.TestSuites | example/project.js:52-54 | without `all`, only the common test suite is spawned |
| Scenario.RunTest | example/project.js:48-55 | once `compile` has run, `test` completes once and spawns only the common suite |
| Scenario.CallMoves | lib/main.js:114-123 | a nested `run` statement completes normally, with the callee's effects and one more completion of the callee |
| Scenario.RunMoves | lib/main.js:114-123 | a body whose statements all complete normally makes `run` succeed, restore the indent, and add one completion to the counts its body produced |
| Scenario.DefaultTouches | example/project.js:8-9 | the first two steps of `default` clean and set up, once each |
| Scenario.DefaultCompile | example/project.js:10 | the third step compiles once, in the mode `project.config.debug` selects |
| Scenario.DefaultTail | example/project.js:11-16 | the last three steps test, package and deploy once each, spawning the common suite and the packager |
| Scenario.DefaultBlock | example/project.js:7-17 | the whole `default` body runs each of its six tasks exactly once, with the effects in source order |
| Scenario.ShapedBuild | lib/main.js:60-75 | `build()` with no name, on any registry whose tasks have the example's shape, succeeds, completes `default` and each of its six tasks exactly once, performs their effects in body order, and ends at indent 0 |
| Scenario.DefaultBuild | example/project.js:7-17 | `build()` with no name on the example registry, in either generation, succeeds, completes `default` and its six tasks exactly once each (`debug` never), performs rmdir, mkdir, two compiles, the common tests and the packaging in that order, and ends at indent 0 |

## Left out

- lib/log.js is not part of this model. The logger modelled is src/log.js.
- Floating-point numbers and NaN: numbers are integers. `| 0` is modelled as
  ToInt32 on integers.
- `each` and `map` over plain objects, i.e. the `for … in` and `Object.keys`
  branches: only the array branch is modelled. `Object.keys` ordering of
  integer-like keys is left out too. The registry lists names in declaration
  order.
- The function-object properties of `task` (`length`, `name`, `prototype`,
  ...): `task[name]` for those names is treated as undeclared.
- The same name collision in `ran`, which keeps its counts as properties of
  the `ran` function itself: lib `ran('length')` reads the function's arity
  (1) and src `ran('name')` is true before any run. The model's `ran` sees
  only completions.
- `process.title`, the usage banner printed by `console.log`, and how
  `console.log` writes. Output is a list of lines.
- The mutation of the caller's options object by `exec` and `background`:
  options are values.
- `parse`, `globals`, `require` of the project script and `process.chdir`.
  Loading is a parameter that yields the registry.
- fs, internal and tpl. File-system operations appear only as opaque
  `Touch` effects.
- `util.inspect`, `JSON.parse` and the operating system's answers to spawns
  are parameters.
- The JavaScript call stack: recursion depth is `fuel`, and exhausting it is
  a `RangeError`.
- lib's `platform` map: the platform is a string argument of `KillPlan`.
- The event loop: background children are spawned and their exit handlers
  run by explicit calls (`LibBackground`, `LibBackgroundExit`). Task bodies
  do not start background processes.
- The statement language covers what project scripts use. Arbitrary
  JavaScript in task bodies is out of scope.
- JavaScript strings are sequences of UTF-16 code units; a Dafny `string`
  is a sequence of Unicode scalar values, so a character outside the Basic
  Multilingual Plane counts as one character here and as two in the
  source. Every separator and pattern the core uses (`' '`, `'--'`, `'='`,
  `'|'`, CR, LF, TAB and the `\s` class) lies inside that plane.
- The wording of engine-generated TypeError messages: the model uses
  "fail is not a function" and "Cannot read property 'apply' of
  undefined", the wording of the Node releases of the source's time; newer
  releases word the second one differently.
- Some calls reach identifiers that only `globals()` installs on the
  global object; `parse` calls it in both generations. They are
  lib/main.js:69 (`trace`), lib/main.js:116 (`fail`), lib/os.js:42 and 91
  (`inspect`), src/main.js:64 (`trace`), src/main.js:109 (`fail`), and
  src/os.js:40 and 86 (`inspect`). The model
  assumes `globals()` has run, as it has whenever a script was loaded
  through `parse` or a corrected src/cli.js. src/os.js binds its own
  `fail` and `trace` with `require` (src/os.js:11-12), so `globals()` does
  not touch them. Its `fail` is undefined whether or not `globals()` has
  run; that is the `Unbound` binding.
- Scenario.EnsureDone: stated only below 2^31 completions, because lib's
  `ran` wraps around at 2^32 and reads a count that is a multiple of 2^32
  as 0.

Where the code and the design intent differ, the model follows the code:

- An indent is not restored when a task body throws: there is no
  try/finally around the body. Only lib's exit listener resets it (see
  `Engine.ThrowLeavesIndent`).
- A watched background child that exits with 3 under the default `fail`
  throws rather than exiting the process with 3. Exiting with 3 needs
  `fail: false` (see `Os.WatchedFailureCrashes`).
- src's `fail` is undefined as written (see "## Findings"). The model
  states each src failure for both bindings, and the as-written binding
  throws the TypeError.
- With no task named and no `default` declared, `build` calls `usage`, which
  neither main.js defines. The result is a ReferenceError, not a usage
  error.

## Findings

| source | as written | input that shows it | evidently intended | confidence | as-written member | corrected member |
|---|---|---|---|---|---|---|
| src/cli.js:44 | calls `main.global()`, but src/main.js exports the function as `globals` | `brigadier project` (any valid arguments) | `main.globals()`, so that the script loads and the task is built | not executed | Cli.SrcNeverBuilds | Cli.SrcMainBuilds |
| src/os.js:11 | takes `fail` from src/util.js, which exports none, so `fail` is undefined | `exec('false')`, a command that exits with status 1 | the `fail` of src/internal.js, throwing an Error "false exit code 1 " | not executed | Os.SrcExitAsWritten | Os.SrcIsLibWithoutOptOut |
| src/main.js:21 | exports `util.fail`, which is undefined, so `main.fail` and the global `fail` are undefined | `run('nope')` in a script, or `brigadier project nope` | the `fail` of src/internal.js, throwing "No such task nope in …" | not executed | Engine.SrcFailUnbound | Engine.RunUndeclared |

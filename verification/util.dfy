/**
 * String and collection helpers shared by both generations of the runner:
 * `trim`, `strip`, `join`, `concat`, `map`, `each` and `fail`, and what
 * `fail` is bound to in src.
 */
module Util {
  import opened Js

  /** Renders a value the way `inspect` is given it; abstract, as `util.inspect` is. */
  type Inspect = Value -> string

  // ---------------------------------------------------------------------------
  // trim

  /** `replace(/^\s\s*\/, '')`: drop the maximal leading run of whitespace. */
  function TrimLeft(s: string): (r: string)
    ensures |r| <= |s|
    decreases |s|
  {
    if |s| > 0 && IsSpace(s[0]) then TrimLeft(s[1..]) else s
  }

  /** `replace(/\s\s*$/, '')`: drop the maximal trailing run of whitespace. */
  function TrimRight(s: string): (r: string)
    ensures |r| <= |s|
    decreases |s|
  {
    if |s| > 0 && IsSpace(s[|s| - 1]) then TrimRight(s[..|s| - 1]) else s
  }

  /** `r` is what is left of `s` after whitespace is cut from its front. */
  predicate CutBefore(s: string, r: string) {
    |r| <= |s| && r == s[|s| - |r|..] && AllSpace(s[..|s| - |r|])
  }

  /** `r` is what is left of `s` after whitespace is cut from its back. */
  predicate CutAfter(s: string, r: string) {
    |r| <= |s| && r == s[..|r|] && AllSpace(s[|r|..])
  }

  /** The leading cut removes only whitespace, and all of it. */
  lemma {:induction false} TrimLeftShape(s: string)
    ensures CutBefore(s, TrimLeft(s))
    ensures |TrimLeft(s)| == 0 || !IsSpace(TrimLeft(s)[0])
    decreases |s|
  {
    if |s| > 0 && IsSpace(s[0]) {
      var r := TrimLeft(s[1..]);
      TrimLeftShape(s[1..]);
      assert s[..|s| - |r|] == [s[0]] + s[1..][..|s| - 1 - |r|];
    }
  }

  /** The trailing cut removes only whitespace, and all of it. */
  lemma {:induction false} TrimRightShape(s: string)
    ensures CutAfter(s, TrimRight(s))
    ensures |TrimRight(s)| == 0 || !IsSpace(TrimRight(s)[|TrimRight(s)| - 1])
    decreases |s|
  {
    if |s| > 0 && IsSpace(s[|s| - 1]) {
      var r := TrimRight(s[..|s| - 1]);
      TrimRightShape(s[..|s| - 1]);
      assert s[|r|..] == s[..|s| - 1][|r|..] + [s[|s| - 1]];
    }
  }

  /** Neither end of `s` is whitespace. */
  predicate Trimmed(s: string) {
    |s| == 0 || (!IsSpace(s[0]) && !IsSpace(s[|s| - 1]))
  }

  /** `s` is `r` with whitespace-only text before it (`k` characters) and after it. */
  predicate Framed(s: string, r: string, k: int) {
    0 <= k && k + |r| <= |s| && s[k..k + |r|] == r && AllSpace(s[..k]) && AllSpace(s[k + |r|..])
  }

  /** Trimming a string: both regular-expression replacements of `trim`. */
  function Trim(s: string): (r: string)
    ensures Trimmed(r)
    ensures |r| <= |s|
  {
    var t := TrimLeft(s);
    TrimLeftShape(s);
    TrimRightShape(t);
    TrimRight(t)
  }

  /** What `trim` cuts away is whitespace on both sides: `s` is `r` framed by whitespace. */
  lemma TrimFrames(s: string)
    ensures Framed(s, Trim(s), |s| - |TrimLeft(s)|)
  {
    var t := TrimLeft(s);
    var r := TrimRight(t);
    var k := |s| - |t|;
    assert Trim(s) == r;
    TrimLeftShape(s);
    TrimRightShape(t);
    assert t == s[k..];
    assert AllSpace(s[..k]);
    assert s[k..k + |r|] == t[..|r|] == r;
    assert s[k + |r|..] == t[|r|..];
    assert AllSpace(t[|r|..]);
  }

  /** A leading whitespace run is cut exactly where the text begins. */
  lemma TrimLeftSkips(p: string, x: string)
    requires AllSpace(p)
    requires |x| == 0 || !IsSpace(x[0])
    ensures TrimLeft(p + x) == x
  {
    var s := p + x;
    var r := TrimLeft(s);
    TrimLeftShape(s);
    assert r == s[|p|..] == x;
  }

  /** A trailing whitespace run is cut exactly where the text ends. */
  lemma TrimRightSkips(x: string, q: string)
    requires AllSpace(q)
    requires |x| == 0 || !IsSpace(x[|x| - 1])
    ensures TrimRight(x + q) == x
  {
    var s := x + q;
    var r := TrimRight(s);
    TrimRightShape(s);
    assert r == s[..|x|] == x;
  }

  /** The trimmed text is the unique whitespace-framed core: `trim(p + m + q) == m`. */
  lemma TrimFramed(p: string, m: string, q: string)
    requires AllSpace(p) && AllSpace(q) && Trimmed(m)
    ensures Trim(p + m + q) == m
  {
    if |m| == 0 {
      assert p + m + q == p + q + "";
      assert AllSpace(p + q);
      TrimLeftSkips(p + q, "");
      assert Trim(p + m + q) == TrimRight("");
    } else {
      assert p + m + q == p + (m + q);
      TrimLeftSkips(p, m + q);
      TrimRightSkips(m, q);
    }
  }

  /** A string with no whitespace at its ends is left as it is, so `trim` is idempotent. */
  lemma TrimIdempotent(s: string)
    ensures Trimmed(s) ==> Trim(s) == s
    ensures Trim(Trim(s)) == Trim(s)
  {
    var r := Trim(s);
    assert TrimLeft(r) == r;
    assert TrimRight(r) == r;
    if Trimmed(s) {
      assert TrimLeft(s) == s;
      assert TrimRight(s) == s;
    }
  }

  /** lib `trim(input)`: a falsy input reads as '', anything else is converted with `input + ''`. */
  function TrimValue(input: Value): (r: string)
    ensures !Truthy(input) ==> r == ""
    ensures input.Str? ==> r == Trim(input.s)
    ensures Trimmed(r)
  {
    Trim(if Truthy(input) then ToString(input) else "")
  }

  /** src `trim(input)`: calls `input.replace`, which only strings have. */
  function TrimChecked(input: Value): (r: Result<string>)
    ensures r.Success? <==> input.Str?
    ensures r.Success? ==> r.value == Trim(input.s)
  {
    if input.Str? then Success(Trim(input.s)) else Failure(TypeError("input.replace is not a function"))
  }

  // ---------------------------------------------------------------------------
  // strip

  /** The characters `strip` deletes everywhere: CR, LF and TAB. */
  predicate IsControl(c: char) {
    c == '\r' || c == '\n' || c == '\t'
  }

  predicate NoControls(s: string) {
    forall i | 0 <= i < |s| :: !IsControl(s[i])
  }

  /** `replace(/(\r|\n|\t)/g, '')` */
  function DropControls(s: string): (r: string)
    ensures NoControls(r)
    ensures |r| <= |s|
    decreases |s|
  {
    if |s| == 0 then ""
    else if IsControl(s[0]) then DropControls(s[1..])
    else [s[0]] + DropControls(s[1..])
  }

  /** Every character other than CR, LF and TAB survives, as often as it occurred. */
  lemma {:induction false} DropControlsCounts(s: string)
    ensures forall c :: multiset(DropControls(s))[c] == if IsControl(c) then 0 else multiset(s)[c]
    decreases |s|
  {
    if |s| > 0 {
      DropControlsCounts(s[1..]);
      assert s == [s[0]] + s[1..];
    }
  }

  lemma {:induction false} DropControlsAppend(a: string, b: string)
    ensures DropControls(a + b) == DropControls(a) + DropControls(b)
    decreases |a|
  {
    if |a| > 0 {
      assert (a + b)[1..] == a[1..] + b;
      DropControlsAppend(a[1..], b);
    } else {
      assert a + b == b;
    }
  }

  lemma {:induction false} DropControlsKeeps(s: string)
    requires NoControls(s)
    ensures DropControls(s) == s
    decreases |s|
  {
    if |s| > 0 {
      DropControlsKeeps(s[1..]);
    }
  }

  /** Removing control characters keeps a non-control first and last character in place. */
  lemma DropControlsEnds(s: string)
    requires |s| > 0 && !IsControl(s[0]) && !IsControl(s[|s| - 1])
    ensures |DropControls(s)| > 0
    ensures DropControls(s)[0] == s[0]
    ensures DropControls(s)[|DropControls(s)| - 1] == s[|s| - 1]
  {
    var n := |s|;
    assert s == s[..n - 1] + [s[n - 1]];
    DropControlsAppend(s[..n - 1], [s[n - 1]]);
    assert DropControls([s[n - 1]]) == [s[n - 1]];
  }

  /** Removing control characters from text with no whitespace at its ends leaves none there. */
  lemma DropControlsTrimmed(t: string)
    requires Trimmed(t)
    ensures Trimmed(DropControls(t))
  {
    if |t| > 0 {
      DropControlsEnds(t);
    }
  }

  /** `strip` on a string: trim it, then delete every CR, LF and TAB (spaces inside stay). */
  function Strip(s: string): (r: string)
    ensures NoControls(r)
  {
    DropControls(Trim(s))
  }

  /** `strip` keeps every other character of the trimmed text, interior spaces included. */
  lemma StripKeeps(s: string)
    ensures forall c :: !IsControl(c) ==> multiset(Strip(s))[c] == multiset(Trim(s))[c]
  {
    DropControlsCounts(Trim(s));
  }

  /** `strip` is idempotent: its output has no whitespace at the ends and no controls. */
  lemma StripIdempotent(s: string)
    ensures Trimmed(Strip(s))
    ensures Strip(Strip(s)) == Strip(s)
  {
    var t := Trim(s);
    var d := DropControls(t);
    DropControlsTrimmed(t);
    TrimIdempotent(d);
    assert Trim(d) == d;
    DropControlsKeeps(d);
  }

  /** lib `strip(input)`: a falsy input strips to '', anything else is converted first. */
  function StripValue(input: Value): (r: string)
    ensures !Truthy(input) ==> r == ""
    ensures input.Str? ==> r == Strip(input.s)
    ensures NoControls(r) && Trimmed(r)
  {
    var t := TrimValue(input);
    DropControlsTrimmed(t);
    DropControls(t)
  }

  /** src `strip(input)`: `input || ''` is handed to src `trim`, which needs a string. */
  function StripChecked(input: Value): (r: Result<string>)
    ensures !Truthy(input) ==> r == Success("")
    ensures input.Str? ==> r == Success(Strip(input.s))
    ensures r.Failure? <==> Truthy(input) && !input.Str?
  {
    var t :- TrimChecked(Or(input, Str("")));
    Success(DropControls(t))
  }

  // ---------------------------------------------------------------------------
  // join and fail

  /** A string item is used verbatim; anything else goes through `inspect`. */
  function Render(v: Value, inspect: Inspect): string {
    if v.Str? then v.s else inspect(v)
  }

  function Rendered(items: seq<Value>, inspect: Inspect): (r: seq<string>)
    ensures |r| == |items|
    ensures forall i | 0 <= i < |items| :: r[i] == Render(items[i], inspect)
  {
    seq(|items|, i requires 0 <= i < |items| => Render(items[i], inspect))
  }

  /** `join(items, sep)`: every item is followed by `sep`, the last one included. */
  function Join(items: seq<Value>, sep: string, inspect: Inspect): (r: string)
    ensures |sep| > 0 ==> (r == "" <==> |items| == 0)
  {
    if |items| == 0 then "" else Render(items[0], inspect) + sep + Join(items[1..], sep, inspect)
  }

  /** Joining a concatenation is concatenating the joins. */
  lemma {:induction false} JoinAppend(a: seq<Value>, b: seq<Value>, sep: string, inspect: Inspect)
    ensures Join(a + b, sep, inspect) == Join(a, sep, inspect) + Join(b, sep, inspect)
    decreases |a|
  {
    if |a| == 0 {
      assert a + b == b;
    } else {
      assert (a + b)[1..] == a[1..] + b;
      JoinAppend(a[1..], b, sep, inspect);
    }
  }

  /** One step of the loop in `join`: the output so far grows by the next item and the separator. */
  lemma JoinSnoc(xs: seq<Value>, x: Value, sep: string, inspect: Inspect)
    ensures Join(xs + [x], sep, inspect) == Join(xs, sep, inspect) + Render(x, inspect) + sep
  {
    JoinAppend(xs, [x], sep, inspect);
  }

  /** `join` of no items is '', and of any items ends with the separator. */
  lemma {:induction false} JoinEnds(items: seq<Value>, sep: string, inspect: Inspect)
    ensures |items| == 0 ==> Join(items, sep, inspect) == ""
    ensures |items| > 0 ==> |sep| <= |Join(items, sep, inspect)|
    ensures |items| > 0 ==> Join(items, sep, inspect)[|Join(items, sep, inspect)| - |sep|..] == sep
  {
    if |items| > 0 {
      var init := items[..|items| - 1];
      assert init + [items[|items| - 1]] == items;
      JoinSnoc(init, items[|items| - 1], sep, inspect);
    }
  }

  /** `join` is `Array.prototype.join` over the rendered items plus one trailing separator. */
  lemma {:induction false} JoinTrailing(items: seq<Value>, sep: string, inspect: Inspect)
    requires |items| > 0
    ensures Join(items, sep, inspect) == JoinStrings(Rendered(items, inspect), sep) + sep
    decreases |items|
  {
    var rest := items[1..];
    if |rest| > 0 {
      JoinTrailing(rest, sep, inspect);
      assert Rendered(items, inspect)[1..] == Rendered(rest, inspect);
    }
  }

  /** The message an error carries. */
  function Message(e: Error, inspect: Inspect): string {
    match e
    case Thrown(parts) => Join(parts, " ", inspect)
    case Raised(cause) => ToString(Get(cause, "message"))
    case NotDefined(identifier) => identifier + " is not defined"
    case TypeError(what) => what
    case StackOverflow => "Maximum call stack size exceeded"
  }

  /** `fail(...parts)`: always throws an Error whose message is `join(parts, ' ')`. */
  function Fail<T>(parts: seq<Value>): (r: Result<T>)
    ensures r.Failure? && r.error.Thrown?
  {
    Failure(Thrown(parts))
  }

  /** The message of `fail(...parts)` is the parts joined by spaces, ending in a space when there are any. */
  lemma FailMessage(parts: seq<Value>, inspect: Inspect)
    ensures Message(Fail<Value>(parts).error, inspect) == Join(parts, " ", inspect)
    ensures |parts| > 0 ==>
      (Message(Fail<Value>(parts).error, inspect) == JoinStrings(Rendered(parts, inspect), " ") + " ")
  {
    if |parts| > 0 {
      JoinTrailing(parts, " ", inspect);
    }
  }

  /**
   * What the name `fail` refers to where src calls it. lib/util.js exports
   * `fail`, but src/util.js does not: as written, src/os.js's
   * `require('./util').fail` and src/main.js's `util.fail` (hence
   * `main.fail` and the global `fail`) are undefined. `Bound` is the `fail`
   * of src/internal.js, which throws the same Error as lib's.
   */
  datatype FailBinding = Bound | Unbound

  /** `fail(...parts)` under a binding: the Error with the parts, or the TypeError of calling undefined. */
  function FailVia<T>(b: FailBinding, parts: seq<Value>): (r: Result<T>)
    ensures r.Failure?
    ensures r.error.Thrown? <==> b == Bound
    ensures b == Bound ==> r == Fail(parts)
    ensures b == Unbound ==> r.error == TypeError("fail is not a function")
  {
    if b == Bound then Fail(parts) else Failure(TypeError("fail is not a function"))
  }

  /**
   * `main.fail.apply(null, parts)` under a binding: when `main.fail` is
   * undefined, reading its `apply` is already the TypeError.
   */
  function ApplyVia<T>(b: FailBinding, parts: seq<Value>): (r: Result<T>)
    ensures r.Failure?
    ensures r.error.Thrown? <==> b == Bound
    ensures b == Bound ==> r == Fail(parts)
    ensures b == Unbound ==> r.error == TypeError("Cannot read property 'apply' of undefined")
  {
    if b == Bound then Fail(parts) else Failure(TypeError("Cannot read property 'apply' of undefined"))
  }

  // ---------------------------------------------------------------------------
  // concat

  /** What one argument of `concat` contributes. */
  function Piece(v: Value): string
    decreases v
  {
    match v
    case Arr(items) => if |items| > 0 then Concat(items) else ""
    case Undefined => ""
    case Null => ""
    case _ => ToString(v)
  }

  /** `concat(...args)`: nested arrays are flattened, undefined and null vanish. */
  function Concat(args: seq<Value>): (r: string)
    ensures (forall i | 0 <= i < |args| :: args[i].Undefined? || args[i].Null?) ==> r == ""
    ensures (forall i | 0 <= i < |args| :: args[i].Str?) ==> |r| == TotalLength(args)
    decreases args
  {
    if |args| == 0 then "" else Piece(args[0]) + Concat(args[1..])
  }

  /** The summed lengths of the strings in a list. */
  function TotalLength(args: seq<Value>): nat {
    if |args| == 0 then 0 else (if args[0].Str? then |args[0].s| else 0) + TotalLength(args[1..])
  }

  /** The non-array values reachable through nested arrays, left to right. */
  function Flatten(args: seq<Value>): (r: seq<Value>)
    ensures forall i | 0 <= i < |r| :: !r[i].Arr?
    decreases args
  {
    if |args| == 0 then [] else Leaves(args[0]) + Flatten(args[1..])
  }

  function Leaves(v: Value): (r: seq<Value>)
    ensures forall i | 0 <= i < |r| :: !r[i].Arr?
    decreases v
  {
    if v.Arr? then Flatten(v.items) else [v]
  }

  lemma {:induction false} ConcatAppend(a: seq<Value>, b: seq<Value>)
    ensures Concat(a + b) == Concat(a) + Concat(b)
    decreases |a|
  {
    if |a| == 0 {
      assert a + b == b;
    } else {
      assert (a + b)[1..] == a[1..] + b;
      ConcatAppend(a[1..], b);
    }
  }

  /** `concat` of nested arguments equals `concat` of their flattening. */
  lemma {:induction false} ConcatFlattens(args: seq<Value>)
    ensures Concat(args) == Concat(Flatten(args))
    decreases args
  {
    if |args| > 0 {
      PieceFlattens(args[0]);
      ConcatFlattens(args[1..]);
      ConcatAppend(Leaves(args[0]), Flatten(args[1..]));
    }
  }

  lemma {:induction false} PieceFlattens(v: Value)
    ensures Piece(v) == Concat(Leaves(v))
    decreases v
  {
    if v.Arr? {
      ConcatFlattens(v.items);
    } else {
      assert Concat([v]) == Piece(v) + Concat([]);
    }
  }

  // ---------------------------------------------------------------------------
  // map and each over arrays

  /**
   * `map(array, visitor)`: the visitor sees each element with its index; the
   * first throw aborts, otherwise the results line up with the input.
   */
  method Map(xs: seq<Value>, visit: (Value, nat) -> Result<Value>) returns (r: Result<seq<Value>>)
    ensures r.Success? ==> |r.value| == |xs|
    ensures r.Success? ==> forall i | 0 <= i < |xs| :: visit(xs[i], i) == Success(r.value[i])
    ensures r.Failure? ==> exists k | 0 <= k < |xs| ::
      visit(xs[k], k) == Failure(r.error) && forall j | 0 <= j < k :: visit(xs[j], j).Success?
  {
    var out: seq<Value> := [];
    var i := 0;
    while i < |xs|
      invariant 0 <= i <= |xs| && |out| == i
      invariant forall j | 0 <= j < i :: visit(xs[j], j) == Success(out[j])
    {
      var v := visit(xs[i], i);
      if v.Failure? {
        assert visit(xs[i], i) == Failure(v.error);
        return Failure(v.error);
      }
      out := out + [v.value];
      i := i + 1;
    }
    return Success(out);
  }

  /** Reference semantics of `each`: thread a state through the visits from index `i` on. */
  function Visits<S>(xs: seq<Value>, visit: (S, Value, nat) -> Result<S>, s: S, i: nat): Result<S>
    requires i <= |xs|
    decreases |xs| - i
  {
    if i == |xs| then Success(s)
    else
      match visit(s, xs[i], i)
      case Failure(e) => Failure(e)
      case Success(s') => Visits(xs, visit, s', i + 1)
  }

  /**
   * `each(array, visitor)`: visits index 0, 1, 2, ... once each; a throw stops
   * the walk at the visit that threw. `visited` lists the indices in order.
   */
  method Each<S>(xs: seq<Value>, visit: (S, Value, nat) -> Result<S>, init: S)
    returns (r: Result<S>, visited: seq<nat>)
    ensures r == Visits(xs, visit, init, 0)
    ensures forall k | 0 <= k < |visited| :: visited[k] == k
    ensures r.Success? ==> |visited| == |xs|
    ensures r.Failure? ==> 0 < |visited| <= |xs|
  {
    var s := init;
    var i := 0;
    visited := [];
    while i < |xs|
      invariant 0 <= i <= |xs| && |visited| == i
      invariant forall k | 0 <= k < i :: visited[k] == k
      invariant Visits(xs, visit, init, 0) == Visits(xs, visit, s, i)
    {
      visited := visited + [i];
      var step := visit(s, xs[i], i);
      if step.Failure? {
        return Failure(step.error), visited;
      }
      s := step.value;
      i := i + 1;
    }
    return Success(s), visited;
  }
}

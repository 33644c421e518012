/**
 * The slice of JavaScript semantics the build runner leans on: dynamically
 * typed values and their truthiness, thrown errors, `String.prototype.split`,
 * `indexOf`, `Array.prototype.join`, `ToString`, the `| 0` coercion and the
 * regular-expression class `\s`.
 */
module Js {

  /** A JavaScript value. Numbers are modelled as integers. */
  datatype Value =
    | Undefined
    | Null
    | Bool(b: bool)
    | Num(n: int)
    | Str(s: string)
    | Arr(items: seq<Value>)
    | Obj(fields: map<string, Value>)

  /** What a `throw` carries. */
  datatype Error =
      /** `new Error(join(parts, ' '))`, as built by `fail(...parts)` */
    | Thrown(parts: seq<Value>)
      /** a value rethrown as it is, such as a spawn error */
    | Raised(cause: Value)
      /** ReferenceError: an identifier that is not in scope */
    | NotDefined(identifier: string)
      /** TypeError: a call or property access on the wrong kind of value */
    | TypeError(what: string)
      /** RangeError: the call stack is exhausted */
    | StackOverflow

  datatype Option<+T> = None | Some(value: T)

  /** A computation that either returns a value or throws. */
  datatype Result<+T> = Success(value: T) | Failure(error: Error) {
    predicate IsFailure() {
      Failure?
    }

    function PropagateFailure<U>(): Result<U>
      requires Failure?
    {
      Failure(error)
    }

    function Extract(): T
      requires Success?
    {
      value
    }
  }

  /** `!!v`: the falsy values are undefined, null, false, 0 and the empty string. */
  predicate Truthy(v: Value) {
    match v
    case Undefined => false
    case Null => false
    case Bool(b) => b
    case Num(n) => n != 0
    case Str(s) => s != ""
    case Arr(_) => true
    case Obj(_) => true
  }

  /** `v || fallback` */
  function Or(v: Value, fallback: Value): Value {
    if Truthy(v) then v else fallback
  }

  /** Property read `o[key]` on a value that may not be an object. */
  function Get(v: Value, key: string): Value {
    if v.Obj? && key in v.fields then v.fields[key] else Undefined
  }

  /** The regular-expression class `\s`: the ECMAScript WhiteSpace and LineTerminator code points. */
  predicate IsSpace(c: char) {
    var n := c as int;
    (0x09 <= n <= 0x0D) || n == 0x20 || n == 0xA0 || n == 0x1680
    || (0x2000 <= n <= 0x200A) || n == 0x2028 || n == 0x2029 || n == 0x202F
    || n == 0x205F || n == 0x3000 || n == 0xFEFF
  }

  predicate AllSpace(s: string) {
    forall i | 0 <= i < |s| :: IsSpace(s[i])
  }

  // ---------------------------------------------------------------------------
  // Searching and splitting

  /** `pat` occurs in `s` at index `i`. */
  predicate Occurs(s: string, pat: string, i: int) {
    0 <= i && i + |pat| <= |s| && s[i..i + |pat|] == pat
  }

  /** `s.indexOf(pat)`, with `None` for -1. */
  function IndexOf(s: string, pat: string): (r: Option<nat>)
    requires |pat| > 0
    ensures r.Some? ==> Occurs(s, pat, r.value)
    ensures r.Some? ==> forall j | 0 <= j < r.value :: !Occurs(s, pat, j)
    ensures r.None? ==> forall j | 0 <= j <= |s| :: !Occurs(s, pat, j)
    decreases |s|
  {
    if |s| < |pat| then None
    else if s[..|pat|] == pat then Some(0)
    else
      OccursInTail(s, pat);
      match IndexOf(s[1..], pat)
      case None => None
      case Some(i) => Some(i + 1)
  }

  /** Past the first character, occurrences in `s` are the occurrences in its tail, shifted by one. */
  lemma OccursInTail(s: string, pat: string)
    requires |s| >= 1
    ensures forall j | 1 <= j <= |s| :: Occurs(s, pat, j) <==> Occurs(s[1..], pat, j - 1)
  {
    forall j | 1 <= j <= |s|
      ensures Occurs(s, pat, j) <==> Occurs(s[1..], pat, j - 1)
    {
      if j + |pat| <= |s| {
        var shifted, here := s[1..][j - 1..j - 1 + |pat|], s[j..j + |pat|];
        assert forall k | 0 <= k < |pat| :: shifted[k] == here[k];
        assert shifted == here;
      }
    }
  }

  /** `indexOf` finds exactly the first occurrence, when there is one. */
  lemma IndexOfFirst(s: string, pat: string, i: nat)
    requires |pat| > 0 && Occurs(s, pat, i)
    requires forall j | 0 <= j < i :: !Occurs(s, pat, j)
    ensures IndexOf(s, pat) == Some(i)
  {
  }

  /** `indexOf` gives -1 exactly when the pattern occurs nowhere. */
  lemma IndexOfNone(s: string, pat: string)
    requires |pat| > 0
    ensures IndexOf(s, pat).None? <==> forall j | 0 <= j <= |s| :: !Occurs(s, pat, j)
  {
  }

  /** `s.indexOf(pat) !== -1` */
  predicate Contains(s: string, pat: string)
    requires |pat| > 0
  {
    IndexOf(s, pat).Some?
  }

  /**
   * `s.split(sep)` for a non-empty separator: cut at every occurrence found
   * scanning left to right, resuming the search after each one.
   */
  function Split(s: string, sep: string): (r: seq<string>)
    requires |sep| > 0
    ensures |r| >= 1
    decreases |s|
  {
    match IndexOf(s, sep)
    case None => [s]
    case Some(i) => [s[..i]] + Split(s[i + |sep|..], sep)
  }

  /** The first piece of a split runs up to the first separator, or is the whole input. */
  lemma SplitHead(s: string, sep: string)
    requires |sep| > 0
    ensures IndexOf(s, sep).None? ==> Split(s, sep) == [s]
    ensures IndexOf(s, sep).Some? ==>
      (Split(s, sep)[0] == s[..IndexOf(s, sep).value]
       && Split(s, sep)[1..] == Split(s[IndexOf(s, sep).value + |sep|..], sep))
  {
  }

  /** No piece of a split contains the separator. */
  lemma {:induction false} SplitPiecesClean(s: string, sep: string)
    requires |sep| > 0
    ensures forall k | 0 <= k < |Split(s, sep)| :: !Contains(Split(s, sep)[k], sep)
    decreases |s|
  {
    match IndexOf(s, sep)
    case None =>
    case Some(i) =>
      NoOccurrenceBefore(s, sep, i);
      SplitPiecesClean(s[i + |sep|..], sep);
  }

  /** An index before the first occurrence leaves a prefix free of the pattern. */
  lemma NoOccurrenceBefore(s: string, pat: string, i: nat)
    requires |pat| > 0 && i <= |s|
    requires forall j | 0 <= j < i :: !Occurs(s, pat, j)
    ensures !Contains(s[..i], pat)
  {
    if IndexOf(s[..i], pat).Some? {
      var j := IndexOf(s[..i], pat).value;
      assert s[..i][j..j + |pat|] == s[j..j + |pat|];
      assert Occurs(s, pat, j);
    }
  }

  /** `Array.prototype.join` over strings: separators only between elements. */
  function JoinStrings(xs: seq<string>, sep: string): string {
    if |xs| == 0 then ""
    else if |xs| == 1 then xs[0]
    else xs[0] + sep + JoinStrings(xs[1..], sep)
  }

  /** Joining the pieces of a split with the same separator gives back the input. */
  lemma {:induction false} SplitJoin(s: string, sep: string)
    requires |sep| > 0
    ensures JoinStrings(Split(s, sep), sep) == s
    decreases |s|
  {
    match IndexOf(s, sep)
    case None =>
    case Some(i) =>
      var rest := s[i + |sep|..];
      var tail := Split(rest, sep);
      var pieces := [s[..i]] + tail;
      assert Split(s, sep) == pieces;
      assert pieces[0] == s[..i] && pieces[1..] == tail;
      calc {
        JoinStrings(pieces, sep);
        s[..i] + sep + JoinStrings(tail, sep);
        { SplitJoin(rest, sep); }
        s[..i] + sep + rest;
        { assert s[i..i + |sep|] == sep; }
        s;
      }
  }

  // ---------------------------------------------------------------------------
  // Conversions

  function DigitChar(d: nat): char
    requires d < 10
  {
    "0123456789"[d]
  }

  function NatString(n: nat): (r: string)
    ensures |r| >= 1
    decreases n
  {
    if n < 10 then [DigitChar(n)] else NatString(n / 10) + [DigitChar(n % 10)]
  }

  /** `Number.prototype.toString()` on an integer. */
  function IntString(n: int): string {
    if n < 0 then "-" + NatString(-n) else NatString(n)
  }

  /** `String(v)`, the conversion behind `v + ''` and `v.toString()`. */
  function ToString(v: Value): string
    decreases v
  {
    match v
    case Undefined => "undefined"
    case Null => "null"
    case Bool(b) => if b then "true" else "false"
    case Num(n) => IntString(n)
    case Str(s) => s
    case Arr(items) => JoinStrings(ElementStrings(items), ",")
    case Obj(_) => "[object Object]"
  }

  /** How `Array.prototype.join` renders each element: holes, undefined and null become ''. */
  function ElementStrings(items: seq<Value>): (r: seq<string>)
    ensures |r| == |items|
    decreases items
  {
    if |items| == 0 then []
    else
      var head := if items[0].Undefined? || items[0].Null? then "" else ToString(items[0]);
      [head] + ElementStrings(items[1..])
  }

  /** `Array.prototype.join` over arbitrary values. */
  function JoinValues(items: seq<Value>, sep: string): string {
    JoinStrings(ElementStrings(items), sep)
  }

  const TwoTo32: int := 0x1_0000_0000
  const TwoTo31: int := 0x8000_0000

  /** `n | 0`: ECMAScript ToInt32, wrap-around into the signed 32-bit range. */
  function ToInt32(n: int): (r: int)
    ensures -TwoTo31 <= r < TwoTo31
    ensures (r - n) % TwoTo32 == 0
    ensures -TwoTo31 <= n < TwoTo31 ==> r == n
  {
    var m := n % TwoTo32;
    if m >= TwoTo31 then m - TwoTo32 else m
  }

  /** Two values congruent modulo 2^32 coerce to the same 32-bit integer. */
  lemma ToInt32Congruent(a: int, b: int)
    requires (a - b) % TwoTo32 == 0
    ensures ToInt32(a) == ToInt32(b)
  {
    var k := (a - b) / TwoTo32;
    assert a == b + k * TwoTo32;
    assert a % TwoTo32 == b % TwoTo32;
  }
}

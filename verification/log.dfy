/**
 * The console logger: three severities, each line wrapped in an ANSI colour
 * or weight sequence and indented by two spaces per nesting level.
 */
module Log {
  import opened Js
  import Util

  /** The logger's process-wide state and everything it has printed. */
  datatype Console = Console(indent: int, verbose: bool, lines: seq<string>)

  /** The logger as loaded: indent 0, verbose unset, nothing printed. */
  const Fresh: Console := Console(0, false, [])

  datatype Severity = Info | Plain | Trace

  const Esc: string := "\U{1b}"

  /** The escape sequence that opens a line of the given severity. */
  function Open(sev: Severity): string {
    match sev
    case Info => Esc + "[1m"
    case Plain => Esc + "[37m"
    case Trace => Esc + "[90m"
  }

  /** The escape sequence that closes it. */
  function Close(sev: Severity): string {
    match sev
    case Info => Esc + "[22m"
    case Plain => Esc + "[39m"
    case Trace => Esc + "[39m"
  }

  /** `indent()`: the prefix loop adds two spaces per level, none at or below level 0. */
  function Prefix(level: int): (r: string)
    ensures |r| == if level <= 0 then 0 else 2 * level
    ensures forall i | 0 <= i < |r| :: r[i] == ' '
    decreases level
  {
    if level <= 0 then "" else Prefix(level - 1) + "  "
  }

  /** One printed line: escape, indentation, the arguments joined by `join(args, ' ')`, escape. */
  function Line(sev: Severity, level: int, parts: seq<Value>, inspect: Util.Inspect): string {
    Open(sev) + Prefix(level) + Util.Join(parts, " ", inspect) + Close(sev)
  }

  /**
   * `info`, `log` and `trace`: print one line at the current indent; `trace`
   * prints only when `verbose` is set.
   */
  function Emit(c: Console, sev: Severity, parts: seq<Value>, inspect: Util.Inspect): (r: Console)
    ensures r.indent == c.indent && r.verbose == c.verbose
    ensures sev != Trace || c.verbose ==> r.lines == c.lines + [Line(sev, c.indent, parts, inspect)]
    ensures sev == Trace && !c.verbose ==> r.lines == c.lines
  {
    if sev == Trace && !c.verbose then c
    else c.(lines := c.lines + [Line(sev, c.indent, parts, inspect)])
  }

  /** Number of spaces `s` starts with. */
  function LeadingSpaces(s: string): (n: nat)
    ensures n <= |s|
  {
    if |s| > 0 && s[0] == ' ' then 1 + LeadingSpaces(s[1..]) else 0
  }

  lemma {:induction false} LeadingSpacesPast(spaces: string, rest: string)
    requires forall i | 0 <= i < |spaces| :: spaces[i] == ' '
    requires |rest| == 0 || rest[0] != ' '
    ensures LeadingSpaces(spaces + rest) == |spaces|
    decreases |spaces|
  {
    if |spaces| > 0 {
      assert (spaces + rest)[1..] == spaces[1..] + rest;
      LeadingSpacesPast(spaces[1..], rest);
    } else {
      assert spaces + rest == rest;
    }
  }

  /** The joined arguments start with the first argument's text. */
  lemma JoinStartsWith(first: string, more: seq<Value>, inspect: Util.Inspect)
    requires |first| > 0
    ensures |Util.Join([Str(first)] + more, " ", inspect)| > 0
    ensures Util.Join([Str(first)] + more, " ", inspect)[0] == first[0]
  {
    var items := [Str(first)] + more;
    assert items[0] == Str(first);
    assert Util.Join(items, " ", inspect) == first + " " + Util.Join(items[1..], " ", inspect);
  }

  /**
   * The nesting level can be read back from a printed line: after the opening
   * escape there are exactly two spaces per level, when the first argument
   * does not itself start with a space.
   */
  lemma LevelReadable(sev: Severity, level: nat, first: string, more: seq<Value>, inspect: Util.Inspect)
    requires |first| > 0 && first[0] != ' '
    ensures |Open(sev)| <= |Line(sev, level, [Str(first)] + more, inspect)|
    ensures LeadingSpaces(Line(sev, level, [Str(first)] + more, inspect)[|Open(sev)|..]) == 2 * level
  {
    JoinStartsWith(first, more, inspect);
    ReadBack(Open(sev), Prefix(level), Util.Join([Str(first)] + more, " ", inspect), Close(sev));
  }

  /** Past the opening escape, a line starts with exactly its indentation when the text does not start with a space. */
  lemma ReadBack(open: string, prefix: string, body: string, close: string)
    requires forall i | 0 <= i < |prefix| :: prefix[i] == ' '
    requires |body| > 0 && body[0] != ' '
    ensures |open| <= |open + prefix + body + close|
    ensures LeadingSpaces((open + prefix + body + close)[|open|..]) == |prefix|
  {
    var tail := body + close;
    assert (open + prefix + body + close)[|open|..] == prefix + tail;
    LeadingSpacesPast(prefix, tail);
  }
}

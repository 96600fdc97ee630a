/** The line classes of the lightweight markup: page breaks, headings, list items and tables. */
module LineSyntax {
  import opened Common
  import opened Text

  predicate IsBlank(line: string) {
    Strip(line) == ""
  }

  function LowerChar(c: char): char {
    if 'A' <= c <= 'Z' then (c as int + 32) as char
    else if c == '\U{212A}' then 'k'
    else c
  }

  function Lower(s: string): string {
    seq(|s|, i requires 0 <= i < |s| => LowerChar(s[i]))
  }

  predicate IsPageBreak(stripped: string) {
    Lower(stripped) in {"[[page_break]]", "<!-- pagebreak -->", "<!-- page-break -->"}
  }

  function Hashes(s: string): (n: nat)
    ensures n <= |s|
  {
    if s != "" && s[0] == '#' then 1 + Hashes(s[1..]) else 0
  }

  datatype HeadingMatch = HeadingMatch(level: nat, body: string)

  /** `^(#{1,6})\s+(.+?)\s*$` on a stripped line. */
  function HeadingOf(stripped: string): (r: Option<HeadingMatch>)
    ensures r.Some? ==> 1 <= r.value.level <= 6 && r.value.body != "" && !IsSpace(r.value.body[0])
  {
    var n := Hashes(stripped);
    if 1 <= n <= 6 && n < |stripped| && IsSpace(stripped[n]) && DropSpaces(stripped[n..]) != ""
    then Some(HeadingMatch(n, DropSpaces(stripped[n..])))
    else None
  }

  /** `\s+(.+?)\s*$`: what follows a list marker. A tail of two or more spaces gives one back
      to the item, which is then empty once cleaned. */
  function ItemTail(tail: string): Option<string> {
    if tail == "" || !IsSpace(tail[0]) then None
    else if DropSpaces(tail) != "" then Some(DropTrailingSpaces(DropSpaces(tail)))
    else if |tail| >= 2 then Some(tail[|tail| - 1..])
    else None
  }

  /** `^\s*[-*+]\s+(.+?)\s*$` */
  function BulletItem(line: string): Option<string> {
    var s := DropSpaces(line);
    if s != "" && s[0] in {'-', '*', '+'} then ItemTail(s[1..]) else None
  }

  function Digits(s: string): (n: nat)
    ensures n <= |s|
  {
    if s != "" && '0' <= s[0] <= '9' then 1 + Digits(s[1..]) else 0
  }

  /** `^\s*\d+[.)]\s+(.+?)\s*$` */
  function NumberItem(line: string): Option<string> {
    var s := DropSpaces(line);
    var n := Digits(s);
    if n > 0 && n < |s| && s[n] in {'.', ')'} then ItemTail(s[n + 1..]) else None
  }

  function ItemOf(line: string, ordered: bool): Option<string> {
    if ordered then NumberItem(line) else BulletItem(line)
  }

  // ---------------------------------------------------------------- tables

  function SplitPipes(s: string): (parts: seq<string>)
    ensures parts != []
  {
    if s == "" then [""]
    else if s[0] == '|' then [""] + SplitPipes(s[1..])
    else
      var rest := SplitPipes(s[1..]);
      [[s[0]] + rest[0]] + rest[1..]
  }

  function DropPipes(s: string): string {
    if s != "" && s[0] == '|' then DropPipes(s[1..]) else s
  }

  function DropTrailingPipes(s: string): string {
    if s != "" && s[|s| - 1] == '|' then DropTrailingPipes(s[..|s| - 1]) else s
  }

  /** `strip("|")` */
  function StripPipes(s: string): string {
    DropTrailingPipes(DropPipes(s))
  }

  function CleanAll(parts: seq<string>): (r: seq<string>)
    ensures |r| == |parts|
  {
    if parts == [] then [] else [Clean(parts[0])] + CleanAll(parts[1..])
  }

  function SplitRow(line: string): (cells: seq<string>)
    ensures cells != []
  {
    CleanAll(SplitPipes(StripPipes(Strip(line))))
  }

  /** A colon taken off at either end. */
  function Uncoloned(s: string): string {
    var rest := if s != "" && s[0] == ':' then s[1..] else s;
    if rest != "" && rest[|rest| - 1] == ':' then rest[..|rest| - 1] else rest
  }

  predicate AllDashes(s: string) {
    forall k :: 0 <= k < |s| ==> s[k] == '-'
  }

  /** `:?-{3,}:?` between spaces. */
  predicate IsRule(part: string) {
    var s := Uncoloned(Strip(part));
    |s| >= 3 && AllDashes(s)
  }

  function WithoutLast(parts: seq<string>): seq<string> {
    if parts != [] && IsBlank(parts[|parts| - 1]) then parts[..|parts| - 1] else parts
  }

  /** The parts without a blank one at either end. */
  function Inner(parts: seq<string>): seq<string>
    requires parts != []
  {
    WithoutLast(if IsBlank(parts[0]) then parts[1..] else parts)
  }

  /** The line under a table's header: at least two rules between pipes, with at most one
      further pipe at each end. */
  predicate IsSeparator(line: string) {
    var parts := Inner(SplitPipes(line));
    |parts| >= 2 && forall k :: 0 <= k < |parts| ==> IsRule(parts[k])
  }

  predicate IsTableStart(lines: seq<string>, i: nat) {
    i + 1 < |lines| && '|' in lines[i] && IsSeparator(lines[i + 1])
  }

  predicate IsTableRow(line: string) {
    !IsBlank(line) && '|' in line
  }
}

/** Table lines as grammars: cells between pipes, rules, the separator under a header. */
module TableGrammar {
  import opened Common
  import opened Text
  import opened LineSyntax
  import opened LineGrammar

  // ---------------------------------------------------------------- cutting at pipes

  predicate PipeFree(s: string) {
    '|' !in s
  }

  ghost predicate AllPipeFree(parts: seq<string>) {
    forall k :: 0 <= k < |parts| ==> PipeFree(parts[k])
  }

  lemma JoinFirst(first: string, rest: seq<string>, sep: string)
    requires rest != []
    ensures Join([first] + rest, sep) == first + sep + Join(rest, sep)
  {
    JoinStep(first, rest, sep);
  }

  /** Joining undoes cutting, and no part has a pipe left. */
  lemma {:induction false} JoinUndoesSplit(s: string)
    ensures Join(SplitPipes(s), "|") == s && AllPipeFree(SplitPipes(s))
  {
    if s == "" {
    } else {
      var rest := SplitPipes(s[1..]);
      JoinUndoesSplit(s[1..]);
      assert s == [s[0]] + s[1..];
      if s[0] == '|' {
        JoinFirst("", rest, "|");
        assert "" + "|" + Join(rest, "|") == s;
      } else {
        JoinGrows(s[0], rest);
        forall k | 0 <= k < |rest| ensures PipeFree(SplitPipes(s)[k]) {
          assert k > 0 ==> SplitPipes(s)[k] == rest[k];
          assert PipeFree(rest[k]);
        }
      }
    }
  }

  lemma JoinGrows(c: char, parts: seq<string>)
    requires parts != []
    ensures Join([[c] + parts[0]] + parts[1..], "|") == [c] + Join(parts, "|")
  {
    var first, rest := parts[0], parts[1..];
    assert parts == [first] + rest;
    JoinStep([c] + first, rest, "|");
    JoinStep(first, rest, "|");
    if rest != [] {
      Associate([c], first, "|");
      Associate([c], first + "|", Join(rest, "|"));
    }
  }

  lemma {:induction false} SplitOfPart(part: string)
    requires PipeFree(part)
    ensures SplitPipes(part) == [part]
  {
    if part == "" {
    } else {
      assert part[0] in part;
      assert forall c :: c in part[1..] ==> c in part;
      SplitOfPart(part[1..]);
      assert [part[0]] + part[1..] == part;
    }
  }

  lemma {:induction false} SplitAtPipe(part: string, rest: string)
    requires PipeFree(part)
    ensures SplitPipes(part + ("|" + rest)) == [part] + SplitPipes(rest)
  {
    var s := part + ("|" + rest);
    if part == "" {
      assert s == "|" + rest && s[1..] == rest;
    } else {
      assert part[0] in part && s[0] == part[0];
      assert forall c :: c in part[1..] ==> c in part;
      SplitAtPipe(part[1..], rest);
      assert s[1..] == part[1..] + ("|" + rest);
      assert [part[0]] + part[1..] == part;
    }
  }

  /** And cutting undoes joining. */
  lemma {:induction false} SplitUndoesJoin(parts: seq<string>)
    requires parts != [] && AllPipeFree(parts)
    ensures SplitPipes(Join(parts, "|")) == parts
  {
    if |parts| == 1 {
      SplitOfPart(parts[0]);
      assert parts == [parts[0]];
    } else {
      var rest := parts[1..];
      assert forall k :: 0 <= k < |rest| ==> rest[k] == parts[k + 1];
      SplitUndoesJoin(rest);
      SplitAtPipe(parts[0], Join(rest, "|"));
      Associate(parts[0], "|", Join(rest, "|"));
      assert parts == [parts[0]] + rest;
    }
  }

  // ---------------------------------------------------------------- the cells of a row

  predicate AllPipes(s: string) {
    s == "" || (s[0] == '|' && AllPipes(s[1..]))
  }

  lemma {:induction false} PipesTogether(a: string, b: string)
    requires AllPipes(a) && AllPipes(b)
    ensures AllPipes(a + b)
  {
    if a == "" {
      assert a + b == b;
    } else {
      PipesTogether(a[1..], b);
      assert (a + b)[1..] == a[1..] + b;
    }
  }

  lemma {:induction false} LeadingPipes(s: string) returns (pipes: string)
    ensures s == pipes + DropPipes(s) && AllPipes(pipes) && (DropPipes(s) == "" || DropPipes(s)[0] != '|')
  {
    if s == "" || s[0] != '|' {
      pipes := "";
    } else {
      var rest := LeadingPipes(s[1..]);
      pipes := [s[0]] + rest;
      assert s == [s[0]] + s[1..] && pipes[1..] == rest;
      Associate([s[0]], rest, DropPipes(s));
    }
  }

  lemma {:induction false} TrailingPipes(s: string) returns (pipes: string)
    ensures s == DropTrailingPipes(s) + pipes && AllPipes(pipes)
    ensures var r := DropTrailingPipes(s); r == "" || (r[|r| - 1] != '|' && r[0] == s[0])
  {
    if s == "" || s[|s| - 1] != '|' {
      pipes := "";
    } else {
      var n := |s| - 1;
      var front := TrailingPipes(s[..n]);
      pipes := front + [s[n]];
      PipesTogether(front, [s[n]]);
      assert s == s[..n] + [s[n]];
      Associate(DropTrailingPipes(s), front, [s[n]]);
    }
  }

  /** Outer pipes, the cells between pipes, outer pipes; no pipe is left at either end. */
  ghost predicate IsRow(line: string, left: string, parts: seq<string>, right: string) {
    && line == left + Join(parts, "|") + right && AllPipes(left) && AllPipes(right)
    && parts != [] && AllPipeFree(parts)
    && var inner := Join(parts, "|"); inner == "" || (inner[0] != '|' && inner[|inner| - 1] != '|')
  }

  predicate AreCleaned(parts: seq<string>, cells: seq<string>) {
    |cells| == |parts| && forall k :: 0 <= k < |parts| ==> cells[k] == Clean(parts[k])
  }

  lemma {:induction false} CleanAllCleans(parts: seq<string>)
    ensures AreCleaned(parts, CleanAll(parts))
  {
    if parts == [] {
    } else {
      CleanAllCleans(parts[1..]);
    }
  }

  /** The cells of a line are the cleaned texts between its inner pipes, the outer ones dropped. */
  lemma CellsOfRow(line: string)
    ensures exists left, parts, right :: IsRow(Strip(line), left, parts, right) && AreCleaned(parts, SplitRow(line))
  {
    var s := Strip(line);
    var left := LeadingPipes(s);
    var right := TrailingPipes(DropPipes(s));
    var parts := SplitPipes(StripPipes(s));
    JoinUndoesSplit(StripPipes(s));
    Associate(left, StripPipes(s), right);
    CleanAllCleans(parts);
    assert IsRow(s, left, parts, right);
  }

  // ---------------------------------------------------------------- rules and separators

  /** At most one colon. */
  predicate MayBe(s: string, c: char) {
    s == "" || s == [c]
  }

  /** Three dashes or more, with a colon before and after if one likes. */
  predicate IsBareRule(s: string, before: string, dashes: string, after: string) {
    && s == before + dashes + after && |dashes| >= 3 && AllDashes(dashes)
    && MayBe(before, ':') && MayBe(after, ':')
  }

  ghost predicate BareRule(s: string) {
    exists before, dashes, after :: IsBareRule(s, before, dashes, after)
  }

  /** A rule between spaces. */
  ghost predicate RuleText(part: string) {
    exists lead, s, trail :: BareRule(s) && Surrounds(part, lead, s, trail)
  }

  lemma UncolonedExactlyWhen(s: string)
    ensures BareRule(s) <==> |Uncoloned(s)| >= 3 && AllDashes(Uncoloned(s))
  {
    var before := if s != "" && s[0] == ':' then ":" else "";
    var rest := if s != "" && s[0] == ':' then s[1..] else s;
    var after := if rest != "" && rest[|rest| - 1] == ':' then ":" else "";
    assert s == before + rest && rest == Uncoloned(s) + after;
    Associate(before, Uncoloned(s), after);
    if |Uncoloned(s)| >= 3 && AllDashes(Uncoloned(s)) {
      assert IsBareRule(s, before, Uncoloned(s), after);
    }
    if BareRule(s) {
      var b, dashes, a :| IsBareRule(s, b, dashes, a);
      BareRuleUncoloned(s, b, dashes, a);
    }
  }

  lemma BareRuleUncoloned(s: string, before: string, dashes: string, after: string)
    requires IsBareRule(s, before, dashes, after)
    ensures Uncoloned(s) == dashes
  {
    Associate(before, dashes, after);
    assert dashes[0] == '-' && dashes[|dashes| - 1] == '-';
    if before == "" {
      assert s == dashes + after;
    } else {
      assert s[1..] == dashes + after;
    }
  }

  lemma BareRuleIsTrimmed(s: string)
    requires BareRule(s)
    ensures s != "" && Trimmed(s) && PipeFree(s)
  {
    var before, dashes, after :| IsBareRule(s, before, dashes, after);
    MarksAreNoSpaces('-');
    MarksAreNoSpaces(':');
    assert dashes[0] == '-' && dashes[|dashes| - 1] == '-';
    assert forall k :: 0 <= k < |s| ==> s[k] == '-' || s[k] == ':';
  }

  /** A part is a rule exactly where the pattern fits. */
  lemma RuleExactlyWhen(part: string)
    ensures IsRule(part) <==> RuleText(part)
  {
    UncolonedExactlyWhen(Strip(part));
    StripSurrounds(part);
    if RuleText(part) {
      var lead, s, trail :| BareRule(s) && Surrounds(part, lead, s, trail);
      BareRuleIsTrimmed(s);
      SurroundedIsStripped(part, lead, s, trail);
    }
  }

  /** What may stand before the first rule: nothing, or spaces and a pipe. */
  predicate Opens(s: string, spaces: string) {
    AllSpaces(spaces) && (s == "" || s == spaces + "|")
  }

  /** What may stand behind the last: nothing, or a pipe and spaces. */
  predicate Closes(s: string, spaces: string) {
    AllSpaces(spaces) && (s == "" || s == "|" + spaces)
  }

  /** Two rules or more between pipes, with one more pipe at either end if one likes. */
  ghost predicate IsSeparatorLine(line: string, before: string, left: string, rules: seq<string>, after: string,
      right: string)
  {
    && line == before + Join(rules, "|") + after && Opens(before, left) && Closes(after, right)
    && |rules| >= 2 && forall k :: 0 <= k < |rules| ==> RuleText(rules[k])
  }

  lemma RuleIsNoBlank(part: string)
    requires RuleText(part)
    ensures !IsBlank(part) && PipeFree(part)
  {
    var lead, s, trail :| BareRule(s) && Surrounds(part, lead, s, trail);
    BareRuleIsTrimmed(s);
    SurroundedIsStripped(part, lead, s, trail);
    SpacesArePipeFree(lead);
    SpacesArePipeFree(trail);
    assert forall c :: c in part ==> c in lead || c in s || c in trail;
  }

  lemma {:induction false} SpacesArePipeFree(s: string)
    requires AllSpaces(s)
    ensures PipeFree(s) && IsBlank(s)
  {
    assert s == "" + "" + s;
    SurroundedIsStripped(s, "", "", s);
    if s == "" {
    } else {
      SpacesArePipeFree(s[1..]);
      MarksAreNoSpaces('|');
      assert forall c :: c in s ==> c == s[0] || c in s[1..];
    }
  }

  lemma BlankIsSpaces(s: string)
    requires IsBlank(s)
    ensures AllSpaces(s)
  {
    StripSurrounds(s);
    var lead, trail :| Surrounds(s, lead, "", trail);
    assert s == lead + trail;
    SpacesTogether(lead, trail);
  }

  /** A blank first part taken off, and a blank last. */
  lemma EndsTakenOff(parts: seq<string>) returns (before: string, left: string, rules: seq<string>, after: string,
      right: string)
    requires parts != [] && AllPipeFree(parts)
    requires |Inner(parts)| >= 2
    ensures rules == Inner(parts) && Opens(before, left) && Closes(after, right)
    ensures Join(parts, "|") == before + Join(rules, "|") + after
  {
    rules := Inner(parts);
    left, before, right, after := "", "", "", "";
    if IsBlank(parts[0]) {
      left, before := parts[0], parts[0] + "|";
      BlankIsSpaces(left);
    }
    if IsBlank(parts[|parts| - 1]) {
      right, after := parts[|parts| - 1], "|" + parts[|parts| - 1];
      BlankIsSpaces(right);
    }
    var tail := if IsBlank(parts[0]) then parts[1..] else parts;
    TailTakenOff(tail);
    if IsBlank(parts[0]) {
      assert parts == [parts[0]] + tail;
      JoinFirst(parts[0], tail, "|");
      Associate(before, Join(rules, "|"), after);
    } else {
      Associate("", Join(rules, "|"), after);
      assert "" + (Join(rules, "|") + after) == Join(rules, "|") + after;
    }
  }

  lemma TailTakenOff(tail: seq<string>)
    requires tail != [] && |WithoutLast(tail)| >= 2
    ensures var last := tail[|tail| - 1];
      Join(tail, "|") == Join(WithoutLast(tail), "|") + if IsBlank(last) then "|" + last else ""
  {
    var rules := WithoutLast(tail);
    if IsBlank(tail[|tail| - 1]) {
      var last := tail[|tail| - 1];
      assert tail == rules + [last];
      JoinConcat(rules, [last], "|");
      Associate(Join(rules, "|"), "|", last);
    } else {
      assert Join(rules, "|") + "" == Join(rules, "|");
    }
  }

  /** The parts of a separator line. */
  function PartsOf(before: string, left: string, rules: seq<string>, after: string, right: string): seq<string> {
    (if before == "" then [] else [left]) + rules + (if after == "" then [] else [right])
  }

  lemma PartsJoin(before: string, left: string, rules: seq<string>, after: string, right: string)
    requires rules != [] && Opens(before, left) && Closes(after, right)
    ensures Join(PartsOf(before, left, rules, after, right), "|") == before + Join(rules, "|") + after
  {
    var tail := rules + (if after == "" then [] else [right]);
    if after == "" {
      assert tail == rules;
    } else {
      JoinConcat(rules, [right], "|");
      Associate(Join(rules, "|"), "|", right);
    }
    assert Join(tail, "|") == Join(rules, "|") + after;
    if before == "" {
      assert PartsOf(before, left, rules, after, right) == tail;
      assert "" + Join(rules, "|") == Join(rules, "|");
    } else {
      assert PartsOf(before, left, rules, after, right) == [left] + tail;
      JoinFirst(left, tail, "|");
      Associate(before, Join(rules, "|"), after);
    }
  }

  lemma PartsInner(before: string, left: string, rules: seq<string>, after: string, right: string)
    requires |rules| >= 2 && Opens(before, left) && Closes(after, right)
    requires forall k :: 0 <= k < |rules| ==> RuleText(rules[k])
    ensures var parts := PartsOf(before, left, rules, after, right);
      AllPipeFree(parts) && parts != [] && Inner(parts) == rules
  {
    var parts := PartsOf(before, left, rules, after, right);
    SpacesArePipeFree(left);
    SpacesArePipeFree(right);
    forall k | 0 <= k < |rules| ensures PipeFree(rules[k]) && !IsBlank(rules[k]) {
      RuleIsNoBlank(rules[k]);
    }
    var tail := if IsBlank(parts[0]) then parts[1..] else parts;
    assert tail == rules + (if after == "" then [] else [right]);
    assert WithoutLast(tail) == rules;
  }

  ghost predicate Separates(line: string) {
    exists before, left, rules, after, right :: IsSeparatorLine(line, before, left, rules, after, right)
  }

  /** A line is a separator exactly where the pattern fits: rules between pipes. */
  lemma SeparatorExactlyWhen(line: string)
    ensures IsSeparator(line) <==> Separates(line)
  {
    JoinUndoesSplit(line);
    if IsSeparator(line) {
      var before, left, rules, after, right := EndsTakenOff(SplitPipes(line));
      forall k | 0 <= k < |rules| ensures RuleText(rules[k]) {
        RuleExactlyWhen(rules[k]);
      }
      assert IsSeparatorLine(line, before, left, rules, after, right);
    }
    if Separates(line) {
      var before, left, rules, after, right :| IsSeparatorLine(line, before, left, rules, after, right);
      SeparatorIsFound(line, before, left, rules, after, right);
    }
  }

  lemma SeparatorIsFound(line: string, before: string, left: string, rules: seq<string>, after: string, right: string)
    requires IsSeparatorLine(line, before, left, rules, after, right)
    ensures IsSeparator(line)
  {
    var parts := PartsOf(before, left, rules, after, right);
    PartsJoin(before, left, rules, after, right);
    PartsInner(before, left, rules, after, right);
    SplitUndoesJoin(parts);
    forall k | 0 <= k < |rules| ensures IsRule(rules[k]) {
      RuleExactlyWhen(rules[k]);
    }
  }

  /** A table begins at a line with a pipe above a separator. */
  lemma TableStartsExactlyWhen(lines: seq<string>, i: nat)
    ensures IsTableStart(lines, i) <==> i + 1 < |lines| && !PipeFree(lines[i]) && Separates(lines[i + 1])
  {
    if i + 1 < |lines| {
      SeparatorExactlyWhen(lines[i + 1]);
    }
  }
}

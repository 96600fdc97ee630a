/** How a team message ends, told by what the models sent and what could be stored. */
module TeamReplies {
  import opened Common
  import opened Checks
  import opened Text
  import opened LineGrammar
  import opened RuntimeEvents
  import opened TeamStream

  // ---------------------------------------------------------------- an answer that says something

  /** Some piece has some character that is not whitespace. */
  ghost predicate Speaks(pieces: seq<string>) {
    exists i, j :: 0 <= i < |pieces| && 0 <= j < |pieces[i]| && pieces[i][j] !in SPACES
  }

  ghost predicate Said(s: string) {
    exists j :: 0 <= j < |s| && s[j] !in SPACES
  }

  lemma {:induction false} LeadingSpacesSayNothing(s: string)
    ensures Said(DropSpaces(s)) <==> Said(s)
  {
    if s != "" && IsSpace(s[0]) {
      SpacesAreListed(s[0]);
      LeadingSpacesSayNothing(s[1..]);
      if Said(s) {
        var j :| 0 <= j < |s| && s[j] !in SPACES;
        assert s[1..][j - 1] == s[j];
      }
      if Said(s[1..]) {
        var j :| 0 <= j < |s[1..]| && s[1..][j] !in SPACES;
        assert s[j + 1] == s[1..][j];
      }
    }
  }

  lemma StripSaysTheSame(s: string)
    ensures Strip(s) != "" <==> Said(s)
  {
    LeadingSpacesSayNothing(s);
    var t := DropSpaces(s);
    if t != "" {
      SpacesAreListed(t[0]);
      FirstStays(t);
    }
  }

  lemma {:induction false} FirstStays(t: string)
    requires t != "" && !IsSpace(t[0])
    ensures DropTrailingSpaces(t) != ""
  {
    if |t| > 1 {
      FirstStays(t[..|t| - 1]);
    }
  }

  lemma {:induction false} JoinedSaysTheSame(pieces: seq<string>)
    ensures Said(Join(pieces, "")) <==> Speaks(pieces)
  {
    if pieces == [] {
    } else {
      var first, rest := pieces[0], pieces[1..];
      JoinedSaysTheSame(rest);
      assert Join(pieces, "") == first + Join(rest, "");
      SaidTogether(first, Join(rest, ""));
      SpeaksTogether(pieces);
    }
  }

  lemma SaidTogether(a: string, b: string)
    ensures Said(a + b) <==> Said(a) || Said(b)
  {
    if Said(a) {
      var j :| 0 <= j < |a| && a[j] !in SPACES;
      assert (a + b)[j] == a[j];
    }
    if Said(b) {
      var j :| 0 <= j < |b| && b[j] !in SPACES;
      assert (a + b)[|a| + j] == b[j];
    }
  }

  lemma SpeaksTogether(pieces: seq<string>)
    requires pieces != []
    ensures Speaks(pieces) <==> Said(pieces[0]) || Speaks(pieces[1..])
  {
    if Speaks(pieces) {
      var i, j :| 0 <= i < |pieces| && 0 <= j < |pieces[i]| && pieces[i][j] !in SPACES;
      assert i > 0 ==> pieces[1..][i - 1] == pieces[i];
    }
    if Speaks(pieces[1..]) {
      var i, j :| 0 <= i < |pieces[1..]| && 0 <= j < |pieces[1..][i]| && pieces[1..][i][j] !in SPACES;
      assert pieces[i + 1] == pieces[1..][i];
    }
  }

  lemma AnswerSpeaks(run: ModelRun)
    ensures Answer(run) != "" <==> Speaks(run.pieces)
  {
    StripSaysTheSame(Join(run.pieces, ""));
    JoinedSaysTheSame(run.pieces);
  }

  // ---------------------------------------------------------------- errors of one model

  ghost function AgentRules(run: ModelRun): seq<Check<ErrorCode>> {
    [ Check(run.end != NotConfigured, LlmNotConfigured), Check(run.end == Finished, LlmUpstreamError),
      Check(Speaks(run.pieces), LlmUpstreamError), Check(run.stored, PersistenceFailed) ]
  }

  ghost function SynthesisRules(run: ModelRun): seq<Check<ErrorCode>> {
    [ Check(run.end != NotConfigured, LlmNotConfigured), Check(run.end == Finished, SynthesisFailed),
      Check(Speaks(run.pieces), EmptySynthesis), Check(run.stored, PersistenceFailed) ]
  }

  lemma FirstOfFour(h: seq<Check<ErrorCode>>)
    requires |h| == 4
    ensures Tells(h, if !h[0].passed then Some(h[0].error) else if !h[1].passed then Some(h[1].error)
                     else if !h[2].passed then Some(h[2].error) else if !h[3].passed then Some(h[3].error) else None)
  {
    var k := if !h[0].passed then 0 else if !h[1].passed then 1 else if !h[2].passed then 2
             else if !h[3].passed then 3 else 4;
    assert k < 4 ==> FailsAt(h, k);
  }

  /** A contributor, or the synthesis, fails with the code of the first of four conditions it does
      not meet: a model, an end without an error, an answer that is not blank, and its storage. */
  lemma ModelTells(run: ModelRun)
    ensures Tells(AgentRules(run), AgentError(run))
    ensures Tells(SynthesisRules(run), SynthesisError(run))
  {
    AnswerSpeaks(run);
    FirstOfFour(AgentRules(run));
    FirstOfFour(SynthesisRules(run));
  }

  // ---------------------------------------------------------------- the end of the whole run

  ghost predicate Succeeds(run: ModelRun) {
    run.end == Finished && Speaks(run.pieces) && run.stored
  }

  /** It answered, and the answer could not be stored. */
  ghost predicate BreaksOff(run: ModelRun) {
    run.end == Finished && Speaks(run.pieces) && !run.stored
  }

  lemma RunTells(run: ModelRun)
    ensures AgentError(run).None? <==> Succeeds(run)
    ensures Breaks(run) <==> BreaksOff(run)
    ensures SynthesisError(run).None? <==> Succeeds(run)
  {
    AnswerSpeaks(run);
  }

  lemma {:induction false} SomeCompleted(agents: seq<string>, runs: seq<ModelRun>)
    requires |agents| == |runs|
    ensures ThatEnded(agents, runs, true) == [] <==> forall k :: 0 <= k < |runs| ==> !Succeeds(runs[k])
  {
    if agents == [] {
    } else {
      var n := |agents| - 1;
      SomeCompleted(agents[..n], runs[..n]);
      RunTells(runs[n]);
      assert forall k :: 0 <= k < n ==> runs[..n][k] == runs[k];
    }
  }

  /** The trace ends with this error. */
  ghost predicate FailsWith(trace: seq<Body>, code: ErrorCode) {
    |trace| >= 2 && trace[|trace| - 2..] == [Error(code), DoneFailed]
  }

  /** The run is heard up to the first contributor whose answer could not be stored, which ends it.
      Without one it fails if nobody succeeded, or else as the synthesis does; and only where the
      synthesis succeeds too is it completed. */
  lemma RunEndsExactlyWhen(agents: seq<string>, runs: seq<ModelRun>, synthesis: ModelRun, heard: nat)
    requires |agents| == |runs| && Heard(runs, heard)
    ensures forall k :: 0 <= k < heard - 1 ==> !BreaksOff(runs[k])
    ensures heard < |runs| ==> heard > 0 && BreaksOff(runs[heard - 1])
    ensures var trace := Trace(agents[..heard], runs[..heard], synthesis);
      trace != [] &&
      if heard > 0 && BreaksOff(runs[heard - 1]) then FailsWith(trace, PersistenceFailed)
      else if forall k :: 0 <= k < |runs| ==> !Succeeds(runs[k]) then FailsWith(trace, AllContributorsFailed)
      else if Succeeds(synthesis) then trace[|trace| - 1].DoneCompleted?
      else SynthesisError(synthesis).Some? && FailsWith(trace, SynthesisError(synthesis).value)
  {
    forall k | 0 <= k < heard ensures Breaks(runs[k]) <==> BreaksOff(runs[k]) {
      RunTells(runs[k]);
    }
    var front, its := agents[..heard], runs[..heard];
    RunTells(synthesis);
    SomeCompleted(front, its);
    if heard == |runs| {
      assert its == runs;
    }
    TailEnds(front, its, synthesis);
  }

  lemma TailEnds(agents: seq<string>, runs: seq<ModelRun>, synthesis: ModelRun)
    requires |agents| == |runs|
    ensures var trace := Trace(agents, runs, synthesis);
      trace != [] &&
      if Cut(runs) then FailsWith(trace, PersistenceFailed)
      else if ThatEnded(agents, runs, true) == [] then FailsWith(trace, AllContributorsFailed)
      else if SynthesisError(synthesis).None? then trace[|trace| - 1].DoneCompleted?
      else FailsWith(trace, SynthesisError(synthesis).value)
  {
    var tail, trace := Tail(agents, runs, synthesis), Trace(agents, runs, synthesis);
    assert |tail| >= 2 ==> trace[|trace| - 2..] == tail[|tail| - 2..];
  }

  // ---------------------------------------------------------------- the validator

  ghost function SequenceRules(events: seq<RuntimeEvent>): seq<Check<SequenceError>> {
    [ Check(events != [], TerminalRequired), Check(OneDoneAtTheEnd(events), DoneMustBeUniqueAndLast),
      Check(forall k :: 0 <= k < |events| ==> events[k].executionId == events[0].executionId, ExecutionIdMismatch),
      Check(forall k :: 0 <= k < |events| ==> events[k].sequence == events[0].sequence + k,
            SequenceMustBeContiguous) ]
  }

  /** A trace is refused with the error of the first rule it breaks, and only then. */
  lemma SequenceTells(events: seq<RuntimeEvent>)
    ensures Tells(SequenceRules(events), ValidateRuntimeSequence(events))
  {
    TerminalMeansOneDoneAtTheEnd(events);
    var h := SequenceRules(events);
    var k := if !h[0].passed then 0 else if !h[1].passed then 1 else if !h[2].passed then 2
             else if !h[3].passed then 3 else 4;
    assert k < 4 ==> FailsAt(h, k);
  }
}

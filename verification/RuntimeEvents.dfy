/** The events of one streamed execution and the validator of their order. */
module RuntimeEvents {
  import opened Common

  datatype ErrorCode =
    | LlmNotConfigured
    | LlmUpstreamError
    | PersistenceFailed
    | AllContributorsFailed
    | SynthesisFailed
    | EmptySynthesis

  datatype Body =
    | TeamStarted
    | AgentStarted(agent: string)
    | AgentChunk(agent: string, text: string)
    | AgentDone(agent: string, errorCode: Option<ErrorCode>)
    | Synthesizing(completed: nat, failed: nat)
    | Chunk(text: string)
    | Error(code: ErrorCode)
    | DoneFailed
    | DoneCompleted(completedAgents: seq<string>, failedAgents: seq<string>)

  datatype RuntimeEvent = RuntimeEvent(body: Body, executionId: string, sequence: nat)

  datatype SequenceError = TerminalRequired | DoneMustBeUniqueAndLast | ErrorMustPrecedeDone
    | ExecutionIdMismatch | SequenceMustBeContiguous

  predicate IsDone(b: Body) {
    b.DoneFailed? || b.DoneCompleted?
  }

  function DonePositions(events: seq<RuntimeEvent>): seq<nat> {
    if events == [] then []
    else
      var n := |events| - 1;
      DonePositions(events[..n]) + if IsDone(events[n].body) then [n] else []
  }

  function ValidateTerminalSequence(events: seq<RuntimeEvent>): Option<SequenceError> {
    if events == [] then Some(TerminalRequired)
    else
      var done := DonePositions(events);
      if done != [|events| - 1] then Some(DoneMustBeUniqueAndLast)
      else if exists k :: 0 <= k < |events| && events[k].body.Error? && k >= done[0] then Some(ErrorMustPrecedeDone)
      else None
  }

  function ValidateRuntimeSequence(events: seq<RuntimeEvent>): Option<SequenceError> {
    var terminal := ValidateTerminalSequence(events);
    if terminal.Some? then terminal
    else if exists k :: 0 <= k < |events| && events[k].executionId != events[0].executionId
         then Some(ExecutionIdMismatch)
    else if exists k :: 0 <= k < |events| && events[k].sequence != events[0].sequence + k
         then Some(SequenceMustBeContiguous)
    else None
  }

  lemma {:induction false} DonePositionsAre(events: seq<RuntimeEvent>)
    ensures forall p :: p in DonePositions(events) <==> 0 <= p < |events| && IsDone(events[p].body)
    ensures |DonePositions(events)| <= |events|
  {
    if events == [] {
    } else {
      var n := |events| - 1;
      DonePositionsAre(events[..n]);
      assert forall p :: 0 <= p < n ==> events[..n][p] == events[p];
    }
  }

  lemma {:induction false} NoDoneNoPositions(events: seq<RuntimeEvent>)
    requires forall k :: 0 <= k < |events| ==> !IsDone(events[k].body)
    ensures DonePositions(events) == []
  {
    if events == [] {
    } else {
      NoDoneNoPositions(events[..|events| - 1]);
    }
  }

  predicate OneDoneAtTheEnd(events: seq<RuntimeEvent>) {
    && events != [] && IsDone(events[|events| - 1].body)
    && forall k :: 0 <= k < |events| - 1 ==> !IsDone(events[k].body)
  }

  /** The validator's three terminal checks are one condition: a single DONE, and it is last. An
      error after it can therefore never be what fails. */
  lemma TerminalMeansOneDoneAtTheEnd(events: seq<RuntimeEvent>)
    ensures ValidateTerminalSequence(events).None? <==> OneDoneAtTheEnd(events)
    ensures ValidateTerminalSequence(events) != Some(ErrorMustPrecedeDone)
  {
    if events != [] {
      OnePosition(events);
      var done := DonePositions(events);
      assert done == [|events| - 1] ==> done[0] == |events| - 1;
    }
  }

  lemma OnePosition(events: seq<RuntimeEvent>)
    requires events != []
    ensures DonePositions(events) == [|events| - 1] <==> OneDoneAtTheEnd(events)
    ensures OneDoneAtTheEnd(events) ==> forall k :: 0 <= k < |events| - 1 ==> !IsDone(events[k].body)
  {
    var n := |events| - 1;
    DonePositionsAre(events);
    if OneDoneAtTheEnd(events) {
      NoDoneNoPositions(events[..n]);
    }
    if DonePositions(events) == [n] {
      assert n in DonePositions(events);
      assert forall p :: p in DonePositions(events) ==> p == n;
    }
  }

  /** What a client may rely on once the validator accepts. */
  lemma AcceptedExactlyWhen(events: seq<RuntimeEvent>)
    ensures ValidateRuntimeSequence(events).None? <==>
      && OneDoneAtTheEnd(events)
      && (forall k :: 0 <= k < |events| ==> events[k].executionId == events[0].executionId)
      && (forall k :: 0 <= k < |events| ==> events[k].sequence == events[0].sequence + k)
  {
    TerminalMeansOneDoneAtTheEnd(events);
  }
}

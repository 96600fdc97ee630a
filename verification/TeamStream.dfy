/** The event generator of a team message. */
module TeamStream {
  import opened Common
  import opened Text
  import opened RuntimeEvents

  // ---------------------------------------------------------------- what the models and the database do

  datatype ModelEnd = Finished | NotConfigured | Upstream

  /** The pieces a model sends before it ends, and whether its message can be stored. */
  datatype ModelRun = ModelRun(pieces: seq<string>, end: ModelEnd, stored: bool)

  function Answer(run: ModelRun): string {
    Strip(Join(run.pieces, ""))
  }

  function AgentError(run: ModelRun): Option<ErrorCode> {
    if run.end.NotConfigured? then Some(LlmNotConfigured)
    else if run.end.Upstream? || Answer(run) == "" then Some(LlmUpstreamError)
    else if !run.stored then Some(PersistenceFailed)
    else None
  }

  function SynthesisError(run: ModelRun): Option<ErrorCode> {
    if run.end.NotConfigured? then Some(LlmNotConfigured)
    else if run.end.Upstream? then Some(SynthesisFailed)
    else if Answer(run) == "" then Some(EmptySynthesis)
    else if !run.stored then Some(PersistenceFailed)
    else None
  }

  /** The contributor's answer is there but cannot be stored: the whole run ends. */
  predicate Breaks(run: ModelRun) {
    AgentError(run) == Some(PersistenceFailed)
  }

  // ---------------------------------------------------------------- the trace a run must leave

  function AgentChunks(agent: string, pieces: seq<string>): seq<Body> {
    seq(|pieces|, i requires 0 <= i < |pieces| => AgentChunk(agent, pieces[i]))
  }

  function Chunks(pieces: seq<string>): seq<Body> {
    seq(|pieces|, i requires 0 <= i < |pieces| => Chunk(pieces[i]))
  }

  function Segment(agent: string, run: ModelRun): seq<Body> {
    [AgentStarted(agent)] + AgentChunks(agent, run.pieces) + [AgentDone(agent, AgentError(run))]
  }

  function Segments(agents: seq<string>, runs: seq<ModelRun>): seq<Body>
    requires |agents| == |runs|
  {
    if agents == [] then []
    else
      var n := |agents| - 1;
      Segments(agents[..n], runs[..n]) + Segment(agents[n], runs[n])
  }

  /** The agents that completed, or failed, in plan order. */
  function ThatEnded(agents: seq<string>, runs: seq<ModelRun>, completed: bool): seq<string>
    requires |agents| == |runs|
  {
    if agents == [] then []
    else
      var n := |agents| - 1;
      ThatEnded(agents[..n], runs[..n], completed)
      + if AgentError(runs[n]).None? == completed then [agents[n]] else []
  }

  function Ending(agents: seq<string>, runs: seq<ModelRun>, synthesis: ModelRun): seq<Body>
    requires |agents| == |runs|
  {
    var completed, failed := ThatEnded(agents, runs, true), ThatEnded(agents, runs, false);
    if completed == [] then [Error(AllContributorsFailed), DoneFailed]
    else
      var error := SynthesisError(synthesis);
      [Synthesizing(|completed|, |failed|)] + Chunks(synthesis.pieces)
      + if error.Some? then [Error(error.value), DoneFailed] else [DoneCompleted(completed, failed)]
  }

  predicate NoneBreaks(runs: seq<ModelRun>, n: int)
    requires n <= |runs|
  {
    forall k :: 0 <= k < n ==> !Breaks(runs[k])
  }

  /** The number of contributors heard: all, or up to the first that breaks the run. */
  ghost predicate Heard(runs: seq<ModelRun>, n: nat) {
    && n <= |runs|
    && NoneBreaks(runs, n - 1)
    && (n < |runs| ==> n > 0 && Breaks(runs[n - 1]))
  }

  function Trace(agents: seq<string>, runs: seq<ModelRun>, synthesis: ModelRun): seq<Body>
    requires |agents| == |runs|
  {
    [TeamStarted] + Segments(agents, runs) + Tail(agents, runs, synthesis)
  }

  predicate Cut(runs: seq<ModelRun>) {
    runs != [] && Breaks(runs[|runs| - 1])
  }

  function Tail(agents: seq<string>, runs: seq<ModelRun>, synthesis: ModelRun): seq<Body>
    requires |agents| == |runs|
  {
    if Cut(runs) then [Error(PersistenceFailed), DoneFailed] else Ending(agents, runs, synthesis)
  }

  // ---------------------------------------------------------------- the generator

  predicate Numbered(executionId: string, events: seq<RuntimeEvent>) {
    forall k :: 0 <= k < |events| ==> events[k].sequence == k + 1 && events[k].executionId == executionId
  }

  function BodiesOf(events: seq<RuntimeEvent>): (r: seq<Body>)
    ensures |r| == |events| && forall k :: 0 <= k < |events| ==> r[k] == events[k].body
  {
    if events == [] then [] else BodiesOf(events[..|events| - 1]) + [events[|events| - 1].body]
  }

  lemma BodiesOfMore(events: seq<RuntimeEvent>, event: RuntimeEvent)
    ensures BodiesOf(events + [event]) == BodiesOf(events) + [event.body]
  {
    assert (events + [event])[..|events|] == events;
  }

  class Emitter {
    const executionId: string
    var sequence: nat
    var emitted: seq<RuntimeEvent>

    ghost predicate Valid()
      reads this
    {
      sequence == |emitted| + 1 && Numbered(executionId, emitted)
    }

    ghost function Bodies(): seq<Body>
      reads this
    {
      BodiesOf(emitted)
    }

    constructor (executionId: string)
      ensures Valid() && emitted == [] && this.executionId == executionId
    {
      this.executionId, sequence, emitted := executionId, 1, [];
    }

    method Event(body: Body)
      requires Valid()
      modifies this
      ensures Valid() && Bodies() == old(Bodies()) + [body]
    {
      BodiesOfMore(emitted, RuntimeEvent(body, executionId, sequence));
      emitted := emitted + [RuntimeEvent(body, executionId, sequence)];
      sequence := sequence + 1;
    }

    /** The last event, after which the whole trace is checked. */
    method Terminal(body: Body) returns (error: Option<SequenceError>)
      requires Valid()
      modifies this
      ensures Valid() && Bodies() == old(Bodies()) + [body]
      ensures error == ValidateRuntimeSequence(emitted)
    {
      Event(body);
      error := ValidateRuntimeSequence(emitted);
    }

    method Failure(code: ErrorCode) returns (error: Option<SequenceError>)
      requires Valid()
      modifies this
      ensures Valid() && Bodies() == old(Bodies()) + [Error(code), DoneFailed]
      ensures error == ValidateRuntimeSequence(emitted)
    {
      Event(Error(code));
      error := Terminal(DoneFailed);
    }
  }

  method SendAgentChunks(e: Emitter, agent: string, pieces: seq<string>)
    requires e.Valid()
    modifies e
    ensures e.Valid() && e.Bodies() == old(e.Bodies()) + AgentChunks(agent, pieces)
  {
    for k := 0 to |pieces|
      invariant e.Valid() && e.Bodies() == old(e.Bodies()) + AgentChunks(agent, pieces[..k])
    {
      e.Event(AgentChunk(agent, pieces[k]));
      assert AgentChunks(agent, pieces[..k + 1]) == AgentChunks(agent, pieces[..k]) + [AgentChunk(agent, pieces[k])];
    }
    assert pieces[..|pieces|] == pieces;
  }

  method SendChunks(e: Emitter, pieces: seq<string>)
    requires e.Valid()
    modifies e
    ensures e.Valid() && e.Bodies() == old(e.Bodies()) + Chunks(pieces)
  {
    for k := 0 to |pieces|
      invariant e.Valid() && e.Bodies() == old(e.Bodies()) + Chunks(pieces[..k])
    {
      e.Event(Chunk(pieces[k]));
      assert Chunks(pieces[..k + 1]) == Chunks(pieces[..k]) + [Chunk(pieces[k])];
    }
    assert pieces[..|pieces|] == pieces;
  }

  /** One contributor: its start, its pieces and its end. */
  method Contribute(e: Emitter, agent: string, run: ModelRun) returns (errorCode: Option<ErrorCode>)
    requires e.Valid()
    modifies e
    ensures e.Valid() && e.Bodies() == old(e.Bodies()) + Segment(agent, run)
    ensures errorCode == AgentError(run)
  {
    e.Event(AgentStarted(agent));
    SendAgentChunks(e, agent, run.pieces);
    errorCode := AgentError(run);
    e.Event(AgentDone(agent, errorCode));
  }

  method Synthesize(e: Emitter, completed: seq<string>, failed: seq<string>,
      run: ModelRun) returns (error: Option<SequenceError>)
    requires e.Valid()
    modifies e
    ensures e.Valid() && error == ValidateRuntimeSequence(e.emitted)
    ensures e.Bodies() == old(e.Bodies()) + [Synthesizing(|completed|, |failed|)] + Chunks(run.pieces)
      + if SynthesisError(run).Some? then [Error(SynthesisError(run).value), DoneFailed]
        else [DoneCompleted(completed, failed)]
  {
    e.Event(Synthesizing(|completed|, |failed|));
    SendChunks(e, run.pieces);
    var code := SynthesisError(run);
    if code.Some? {
      error := e.Failure(code.value);
    } else {
      error := e.Terminal(DoneCompleted(completed, failed));
    }
  }

  /** What the loop over the contributors has done after the first `k`. */
  ghost predicate SoFar(
    agents: seq<string>, runs: seq<ModelRun>, k: nat,
    sent: seq<Body>, contributions: seq<string>, failures: seq<string>)
  {
    && |agents| == |runs| && k <= |runs|
    && sent == Segments(agents[..k], runs[..k])
    && contributions == ThatEnded(agents[..k], runs[..k], true)
    && failures == ThatEnded(agents[..k], runs[..k], false)
  }

  lemma SoFarNext(
    agents: seq<string>, runs: seq<ModelRun>, k: nat,
    sent: seq<Body>, contributions: seq<string>, failures: seq<string>)
    requires SoFar(agents, runs, k, sent, contributions, failures) && k < |runs|
    ensures SoFar(agents, runs, k + 1, sent + Segment(agents[k], runs[k]),
      contributions + if AgentError(runs[k]).None? then [agents[k]] else [],
      failures + if AgentError(runs[k]).None? then [] else [agents[k]])
  {
    OneMoreAgent(agents, runs, k);
  }

  /** The loop over the contributors; it stops at the first that breaks the run. */
  method HearAll(e: Emitter, agents: seq<string>, runs: seq<ModelRun>)
    returns (heard: nat, broken: bool, contributions: seq<string>, failures: seq<string>, ghost sent: seq<Body>)
    requires |agents| == |runs| && e.Valid()
    modifies e
    ensures e.Valid() && e.Bodies() == old(e.Bodies()) + sent
    ensures Heard(runs, heard) && (broken <==> heard > 0 && Breaks(runs[heard - 1]))
    ensures SoFar(agents, runs, heard, sent, contributions, failures)
  {
    contributions, failures, sent := [], [], [];
    ghost var before := e.Bodies();
    for k := 0 to |agents|
      invariant NoneBreaks(runs, k)
      invariant e.Valid() && e.Bodies() == before + sent
      invariant SoFar(agents, runs, k, sent, contributions, failures)
    {
      SoFarNext(agents, runs, k, sent, contributions, failures);
      var code := Contribute(e, agents[k], runs[k]);
      sent := sent + Segment(agents[k], runs[k]);
      if code == Some(PersistenceFailed) {
        return k + 1, true, contributions, failures + [agents[k]], sent;
      }
      if code.Some? {
        failures := failures + [agents[k]];
      } else {
        contributions := contributions + [agents[k]];
      }
    }
    heard, broken := |agents|, false;
  }

  /** What follows the contributors. */
  method Finish(e: Emitter, broken: bool, contributions: seq<string>, failures: seq<string>, synthesis: ModelRun,
    ghost agents: seq<string>, ghost runs: seq<ModelRun>)
    returns (error: Option<SequenceError>)
    requires e.Valid() && |agents| == |runs| && broken == Cut(runs)
    requires contributions == ThatEnded(agents, runs, true) && failures == ThatEnded(agents, runs, false)
    modifies e
    ensures e.Valid() && e.Bodies() == old(e.Bodies()) + Tail(agents, runs, synthesis)
    ensures error == ValidateRuntimeSequence(e.emitted)
  {
    if broken {
      error := e.Failure(PersistenceFailed);
    } else if contributions == [] {
      error := e.Failure(AllContributorsFailed);
    } else {
      error := Synthesize(e, contributions, failures, synthesis);
    }
  }

  lemma OneMoreAgent(agents: seq<string>, runs: seq<ModelRun>, k: nat)
    requires |agents| == |runs| && k < |agents|
    ensures Segments(agents[..k + 1], runs[..k + 1]) == Segments(agents[..k], runs[..k]) + Segment(agents[k], runs[k])
    ensures ThatEnded(agents[..k + 1], runs[..k + 1], true)
      == ThatEnded(agents[..k], runs[..k], true) + if AgentError(runs[k]).None? then [agents[k]] else []
    ensures ThatEnded(agents[..k + 1], runs[..k + 1], false)
      == ThatEnded(agents[..k], runs[..k], false) + if AgentError(runs[k]).None? then [] else [agents[k]]
  {
    assert agents[..k + 1][..k] == agents[..k] && runs[..k + 1][..k] == runs[..k];
  }

  /** The generator. `heard` is the number of contributors it got to. */
  method Events(executionId: string, agents: seq<string>, runs: seq<ModelRun>, synthesis: ModelRun)
    returns (emitted: seq<RuntimeEvent>, error: Option<SequenceError>, ghost heard: nat)
    requires |agents| == |runs|
    ensures Heard(runs, heard)
    ensures Numbered(executionId, emitted) && BodiesOf(emitted) == Trace(agents[..heard], runs[..heard], synthesis)
    ensures error == None && ValidateRuntimeSequence(emitted) == None
  {
    var e := new Emitter(executionId);
    error, heard := Run(e, agents, runs, synthesis);
    emitted := e.emitted;
    TraceIsValid(executionId, agents[..heard], runs[..heard], synthesis, emitted);
  }

  method Run(e: Emitter, agents: seq<string>, runs: seq<ModelRun>, synthesis: ModelRun)
    returns (error: Option<SequenceError>, ghost heard: nat)
    requires |agents| == |runs| && e.Valid() && e.emitted == []
    modifies e
    ensures Heard(runs, heard)
    ensures e.Valid() && e.Bodies() == Trace(agents[..heard], runs[..heard], synthesis)
    ensures error == ValidateRuntimeSequence(e.emitted)
  {
    e.Event(TeamStarted);
    ghost var sent;
    var count, broken, contributions, failures;
    count, broken, contributions, failures, sent := HearAll(e, agents, runs);
    heard := count;
    assert e.Bodies() == [TeamStarted] + sent;
    error := Finish(e, broken, contributions, failures, synthesis, agents[..heard], runs[..heard]);
  }

  predicate NoDone(bodies: seq<Body>) {
    forall k :: 0 <= k < |bodies| ==> !IsDone(bodies[k])
  }

  lemma {:induction false} SegmentsNoDone(agents: seq<string>, runs: seq<ModelRun>)
    requires |agents| == |runs|
    ensures NoDone(Segments(agents, runs))
  {
    if agents == [] {
    } else {
      SegmentsNoDone(agents[..|agents| - 1], runs[..|agents| - 1]);
    }
  }

  predicate EndsOnce(bodies: seq<Body>) {
    bodies != [] && IsDone(bodies[|bodies| - 1]) && NoDone(bodies[..|bodies| - 1])
  }

  lemma EndsOnceAfter(front: seq<Body>, back: seq<Body>)
    requires NoDone(front) && EndsOnce(back)
    ensures EndsOnce(front + back)
  {
    assert (front + back)[..|front + back| - 1] == front + back[..|back| - 1];
  }

  lemma EndingEndsOnce(agents: seq<string>, runs: seq<ModelRun>, synthesis: ModelRun)
    requires |agents| == |runs|
    ensures EndsOnce(Ending(agents, runs, synthesis))
  {
    var ending := Ending(agents, runs, synthesis);
    assert NoDone(ending[..|ending| - 1]);
  }

  lemma TraceEndsOnce(agents: seq<string>, runs: seq<ModelRun>, synthesis: ModelRun)
    requires |agents| == |runs|
    ensures EndsOnce(Trace(agents, runs, synthesis))
  {
    SegmentsNoDone(agents, runs);
    EndingEndsOnce(agents, runs, synthesis);
    var front := [TeamStarted] + Segments(agents, runs);
    var broken := [Error(PersistenceFailed), DoneFailed];
    EndsOnceAfter(front, if Cut(runs) then broken else Ending(agents, runs, synthesis));
  }

  lemma DoneLast(events: seq<RuntimeEvent>)
    requires EndsOnce(BodiesOf(events))
    ensures OneDoneAtTheEnd(events)
  {
    var bodies := BodiesOf(events);
    forall k | 0 <= k < |events| - 1 ensures !IsDone(events[k].body) {
      assert bodies[..|bodies| - 1][k] == events[k].body;
    }
  }

  /** Whatever fails, the trace passes the validator. */
  lemma TraceIsValid(executionId: string, agents: seq<string>, runs: seq<ModelRun>, synthesis: ModelRun,
      events: seq<RuntimeEvent>)
    requires |agents| == |runs| && Numbered(executionId, events)
    requires BodiesOf(events) == Trace(agents, runs, synthesis)
    ensures ValidateRuntimeSequence(events) == None
  {
    TraceEndsOnce(agents, runs, synthesis);
    DoneLast(events);
    AcceptedExactlyWhen(events);
  }

  // ---------------------------------------------------------------- brackets, in plan order

  /** How far a client is: the number of agents done, and whether the next one is open. */
  datatype Scan = Scan(done: nat, open: bool) | Broken

  function Step(agents: seq<string>, s: Scan, b: Body): Scan {
    if s.Broken? then Broken
    else
      match b
      case AgentStarted(agent) =>
        if !s.open && s.done < |agents| && agents[s.done] == agent then s.(open := true) else Broken
      case AgentChunk(agent, _) =>
        if s.open && s.done < |agents| && agents[s.done] == agent then s else Broken
      case AgentDone(agent, _) =>
        if s.open && s.done < |agents| && agents[s.done] == agent then Scan(s.done + 1, false) else Broken
      case Synthesizing(_, _) => if !s.open && s.done == |agents| then s else Broken
      case Chunk(_) => if !s.open && s.done == |agents| then s else Broken
      case DoneCompleted(_, _) => if !s.open && s.done == |agents| then s else Broken
      case TeamStarted => if s == Scan(0, false) then s else Broken
      case Error(_) => if s.open then Broken else s
      case DoneFailed => if s.open then Broken else s
  }

  function Follow(agents: seq<string>, s: Scan, bodies: seq<Body>): Scan {
    if bodies == [] then s else Step(agents, Follow(agents, s, bodies[..|bodies| - 1]), bodies[|bodies| - 1])
  }

  lemma {:induction false} FollowConcat(agents: seq<string>, s: Scan, a: seq<Body>, b: seq<Body>)
    ensures Follow(agents, s, a + b) == Follow(agents, Follow(agents, s, a), b)
  {
    if b == [] {
      assert a + b == a;
    } else {
      var n := |b| - 1;
      FollowConcat(agents, s, a, b[..n]);
      assert (a + b)[..|a + b| - 1] == a + b[..n];
    }
  }

  /** Bodies that leave the client where it is. */
  lemma {:induction false} FollowStill(agents: seq<string>, s: Scan, bodies: seq<Body>)
    requires forall k :: 0 <= k < |bodies| ==> Step(agents, s, bodies[k]) == s
    ensures Follow(agents, s, bodies) == s
  {
    if bodies == [] {
    } else {
      FollowStill(agents, s, bodies[..|bodies| - 1]);
    }
  }

  lemma FollowOne(agents: seq<string>, s: Scan, b: Body)
    ensures Follow(agents, s, [b]) == Step(agents, s, b)
  {
    assert [b][..0] == [];
    assert Follow(agents, s, []) == s;
  }

  lemma FollowSegment(agents: seq<string>, k: nat, run: ModelRun)
    requires k < |agents|
    ensures Follow(agents, Scan(k, false), Segment(agents[k], run)) == Scan(k + 1, false)
  {
    var start, chunks := [AgentStarted(agents[k])], AgentChunks(agents[k], run.pieces);
    var end := AgentDone(agents[k], AgentError(run));
    FollowOne(agents, Scan(k, false), start[0]);
    FollowChunks(agents, k, run.pieces);
    FollowConcat(agents, Scan(k, false), start, chunks);
    FollowLast(agents, Scan(k, false), start + chunks, end);
  }

  lemma FollowChunks(agents: seq<string>, k: nat, pieces: seq<string>)
    requires k < |agents|
    ensures Follow(agents, Scan(k, true), AgentChunks(agents[k], pieces)) == Scan(k, true)
  {
    FollowStill(agents, Scan(k, true), AgentChunks(agents[k], pieces));
  }

  lemma FollowLast(agents: seq<string>, s: Scan, bodies: seq<Body>, last: Body)
    ensures Follow(agents, s, bodies + [last]) == Step(agents, Follow(agents, s, bodies), last)
  {
    assert (bodies + [last])[..|bodies|] == bodies;
  }

  /** `agents` are the first contributors of the plan. */
  predicate FrontOf(agents: seq<string>, plan: seq<string>) {
    |agents| <= |plan| && forall k :: 0 <= k < |agents| ==> agents[k] == plan[k]
  }

  lemma {:induction false} FollowSegments(plan: seq<string>, agents: seq<string>, runs: seq<ModelRun>)
    requires |agents| == |runs| && FrontOf(agents, plan)
    ensures Follow(plan, Scan(0, false), Segments(agents, runs)) == Scan(|agents|, false)
  {
    if agents == [] {
    } else {
      var n := |agents| - 1;
      FollowSegments(plan, agents[..n], runs[..n]);
      FollowSegment(plan, n, runs[n]);
      FollowConcat(plan, Scan(0, false), Segments(agents[..n], runs[..n]), Segment(agents[n], runs[n]));
    }
  }

  lemma FollowTail(plan: seq<string>, agents: seq<string>, runs: seq<ModelRun>, synthesis: ModelRun)
    requires |agents| == |runs| && (Cut(runs) || |agents| == |plan|)
    ensures Follow(plan, Scan(|agents|, false), Tail(agents, runs, synthesis)) == Scan(|agents|, false)
  {
    var tail := Tail(agents, runs, synthesis);
    TailShape(agents, runs, synthesis);
    forall k | 0 <= k < |tail| ensures Step(plan, Scan(|agents|, false), tail[k]) == Scan(|agents|, false) {
      assert BetweenAgents(tail[k]);
    }
    FollowStill(plan, Scan(|agents|, false), tail);
  }

  predicate BetweenAgents(b: Body) {
    b.Error? || b.DoneFailed? || b.Synthesizing? || b.Chunk? || b.DoneCompleted?
  }

  lemma TailShape(agents: seq<string>, runs: seq<ModelRun>, synthesis: ModelRun)
    requires |agents| == |runs|
    ensures var tail := Tail(agents, runs, synthesis);
      && (forall k :: 0 <= k < |tail| ==> BetweenAgents(tail[k]))
      && (Cut(runs) ==> forall k :: 0 <= k < |tail| ==> tail[k].Error? || tail[k].DoneFailed?)
  {}

  lemma FollowTrace(plan: seq<string>, agents: seq<string>, runs: seq<ModelRun>, synthesis: ModelRun)
    requires |agents| == |runs| && FrontOf(agents, plan) && (Cut(runs) || |agents| == |plan|)
    ensures Follow(plan, Scan(0, false), Trace(agents, runs, synthesis)) == Scan(|agents|, false)
  {
    var first, middle := [TeamStarted], Segments(agents, runs);
    FollowOne(plan, Scan(0, false), TeamStarted);
    FollowSegments(plan, agents, runs);
    FollowConcat(plan, Scan(0, false), first, middle);
    FollowTail(plan, agents, runs, synthesis);
    FollowConcat(plan, Scan(0, false), first + middle, Tail(agents, runs, synthesis));
  }

  /** Along the trace each agent that is heard starts, streams and ends in plan order, one at a
      time; the synthesis and a completed end come only after all of them. */
  lemma TraceIsBracketed(agents: seq<string>, runs: seq<ModelRun>, synthesis: ModelRun, heard: nat)
    requires |agents| == |runs| && Heard(runs, heard)
    ensures Follow(agents, Scan(0, false), Trace(agents[..heard], runs[..heard], synthesis)) == Scan(heard, false)
  {
    HeardEnds(runs, heard);
    FollowTrace(agents, agents[..heard], runs[..heard], synthesis);
  }

  lemma HeardEnds(runs: seq<ModelRun>, heard: nat)
    requires Heard(runs, heard)
    ensures heard <= |runs| && (Cut(runs[..heard]) || heard == |runs|)
  {}

  // ---------------------------------------------------------------- who completed and who failed

  /** The agents whose `AgentDone` says so, in the order of the trace. */
  function DoneAgents(bodies: seq<Body>, completed: bool): seq<string> {
    if bodies == [] then []
    else DoneAgents(bodies[..|bodies| - 1], completed) + DoneAgent(bodies[|bodies| - 1], completed)
  }

  lemma {:induction false} DoneAgentsConcat(a: seq<Body>, b: seq<Body>, completed: bool)
    ensures DoneAgents(a + b, completed) == DoneAgents(a, completed) + DoneAgents(b, completed)
  {
    if b == [] {
      assert a + b == a;
    } else {
      var front, last := b[..|b| - 1], b[|b| - 1];
      DoneAgentsConcat(a, front, completed);
      DoneAgentsMore(a + front, last, completed);
      LastApart(a, b);
      Associate(DoneAgents(a, completed), DoneAgents(front, completed), DoneAgent(last, completed));
    }
  }

  function DoneAgent(b: Body, completed: bool): seq<string> {
    if b.AgentDone? && b.errorCode.None? == completed then [b.agent] else []
  }

  lemma DoneAgentsMore(bodies: seq<Body>, b: Body, completed: bool)
    ensures DoneAgents(bodies + [b], completed) == DoneAgents(bodies, completed) + DoneAgent(b, completed)
  {
    assert (bodies + [b])[..|bodies|] == bodies;
  }

  lemma {:induction false} NoDoneAgents(bodies: seq<Body>, completed: bool)
    requires forall k :: 0 <= k < |bodies| ==> !bodies[k].AgentDone?
    ensures DoneAgents(bodies, completed) == []
  {
    if bodies == [] {
    } else {
      NoDoneAgents(bodies[..|bodies| - 1], completed);
    }
  }

  lemma {:induction false} DoneAgentsOfSegments(agents: seq<string>, runs: seq<ModelRun>, completed: bool)
    requires |agents| == |runs|
    ensures DoneAgents(Segments(agents, runs), completed) == ThatEnded(agents, runs, completed)
  {
    if agents == [] {
    } else {
      var n := |agents| - 1;
      DoneAgentsOfSegments(agents[..n], runs[..n], completed);
      DoneAgentsConcat(Segments(agents[..n], runs[..n]), Segment(agents[n], runs[n]), completed);
      DoneAgentsOfSegment(agents[n], runs[n], completed);
    }
  }

  lemma DoneAgentsOfSegment(agent: string, run: ModelRun, completed: bool)
    ensures DoneAgents(Segment(agent, run), completed) == if AgentError(run).None? == completed then [agent] else []
  {
    var front := [AgentStarted(agent)] + AgentChunks(agent, run.pieces);
    NoDoneAgents(front, completed);
    assert Segment(agent, run)[..|front|] == front;
  }

  lemma {:induction false} EndsPartition(agents: seq<string>, runs: seq<ModelRun>)
    requires |agents| == |runs|
    ensures multiset(ThatEnded(agents, runs, true)) + multiset(ThatEnded(agents, runs, false)) == multiset(agents)
  {
    if agents == [] {
    } else {
      var n := |agents| - 1;
      EndsPartition(agents[..n], runs[..n]);
      assert agents == agents[..n] + [agents[n]];
    }
  }

  lemma LastOfTrace(agents: seq<string>, runs: seq<ModelRun>, synthesis: ModelRun)
    requires |agents| == |runs|
    ensures var trace := Trace(agents, runs, synthesis);
      trace != [] && var last := trace[|trace| - 1];
      last.DoneCompleted? ==>
        && !Cut(runs) && last.completedAgents != []
        && last.completedAgents == ThatEnded(agents, runs, true) && last.failedAgents == ThatEnded(agents, runs, false)
  {}

  /** A completed run heard every contributor, and the lists in its last event are those of the
      agents whose ends the trace has shown: together all contributors, each as often as the plan
      names it, with at least one of them completed. */
  lemma CompletedRunAccountsForAll(agents: seq<string>, runs: seq<ModelRun>, synthesis: ModelRun, heard: nat)
    requires |agents| == |runs| && Heard(runs, heard)
    ensures var trace := Trace(agents[..heard], runs[..heard], synthesis);
      trace != [] && var last := trace[|trace| - 1];
      last.DoneCompleted? ==>
        && heard == |agents| && last.completedAgents != []
        && last.completedAgents == DoneAgents(trace, true) && last.failedAgents == DoneAgents(trace, false)
        && multiset(last.completedAgents) + multiset(last.failedAgents) == multiset(agents)
  {
    var front, its := agents[..heard], runs[..heard];
    LastOfTrace(front, its, synthesis);
    EndsPartition(front, its);
    TraceShowsEnds(front, its, synthesis, true);
    TraceShowsEnds(front, its, synthesis, false);
    assert heard == |agents| ==> front == agents;
  }

  lemma TraceShowsEnds(agents: seq<string>, runs: seq<ModelRun>, synthesis: ModelRun, completed: bool)
    requires |agents| == |runs|
    ensures DoneAgents(Trace(agents, runs, synthesis), completed) == ThatEnded(agents, runs, completed)
  {
    var first, middle := [TeamStarted], Segments(agents, runs);
    var last := Tail(agents, runs, synthesis);
    NoDoneAgents(first, completed);
    NoDoneAgents(last, completed);
    DoneAgentsOfSegments(agents, runs, completed);
    DoneAgentsConcat(first, middle, completed);
    DoneAgentsConcat(first + middle, last, completed);
  }
}

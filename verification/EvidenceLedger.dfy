/** The append-once protocol of the evidence ledger: any number of appenders racing on one
    table whose `audit_execution_id` is unique, interleaved one transaction at a time. */
module EvidenceLedger {
  import opened Common
  import opened CanonicalJson
  import opened CanonicalForm
  import opened EvidencePayload

  /** A row: the two columns it is looked up by, the fourteen others that repeat a payload field,
      the payload and its digest. */
  datatype Record = Record(
    id: string,
    executionId: string,
    tenant: string,
    columns: seq<Json>,
    payload: Json,
    digest: string
  )

  datatype Outcome = Appended(id: string, digest: string) | Replayed(id: string, digest: string) | Failed(error: Error)

  datatype Pc =
    | Start                       // about to validate and hash
    | Searching                   // about to look the execution id up
    | Inserting                   // not found: about to commit the row
    | Losing                      // the commit hit the unique constraint and was rolled back
    | Verifying                   // committed: about to read back and verify
    | Done(outcome: Outcome)

  datatype Appender = Appender(envelope: Json, id: string, pc: Pc)

  datatype Ledger = Ledger(rows: seq<Record>, appenders: seq<Appender>)

  const INITIAL := Ledger([], [])

  datatype Action = Arrive(envelope: Json, id: string) | Step(a: nat)

  // ---------------------------------------------------------------- what an appender computes

  predicate Acceptable(envelope: Json, ops: Ops) {
    Payload(envelope, ops).Ok? && Digest(Payload(envelope, ops).value, ops).Ok?
  }

  function TextField(v: Json, key: string): string {
    if v.Dict? && Get(v.fields, key).Str? then Get(v.fields, key).s else ""
  }

  const COLUMNS: seq<string> := [
    "schema_version", "user_id", "request_id", "execution_id", "capability_id", "capability_version", "environment",
    "deployment_id", "resolved_agent_id", "capability_decision", "status", "artifact_id", "root_id", "error_code"]

  /** The values of these fields, null where the payload has none. */
  function ColumnsOf(v: Json): (r: seq<Json>)
    ensures |r| == |COLUMNS|
    ensures v.Dict? ==> forall k :: 0 <= k < |COLUMNS| ==> r[k] == Get(v.fields, COLUMNS[k])
  {
    seq(|COLUMNS|, k requires 0 <= k < |COLUMNS| => if v.Dict? then Get(v.fields, COLUMNS[k]) else Null)
  }

  /** The row an acceptable envelope is stored as. */
  function RowFor(envelope: Json, id: string, ops: Ops): Record
    requires Acceptable(envelope, ops)
  {
    var payload := Payload(envelope, ops).value;
    Record(id, TextField(payload, "audit_execution_id"), TextField(payload, "tenant_id"), ColumnsOf(payload), payload,
           Digest(payload, ops).value)
  }

  function Rejection(envelope: Json, ops: Ops): Error
    requires !Acceptable(envelope, ops)
  {
    match Payload(envelope, ops)
    case Err(e) => e
    case Ok(w) => Digest(w, ops).error
  }

  function FindExecution(rows: seq<Record>, executionId: string): (r: Option<nat>)
    ensures r.Some? ==> r.value < |rows| && rows[r.value].executionId == executionId
    ensures r.None? ==> forall k :: 0 <= k < |rows| ==> rows[k].executionId != executionId
  {
    if rows == [] then None
    else if rows[0].executionId == executionId then Some(0)
    else match FindExecution(rows[1..], executionId)
         case None => assert rows == [rows[0]] + rows[1..]; None
         case Some(k) => Some(k + 1)
  }

  function FindRecord(rows: seq<Record>, id: string, tenant: string): (r: Option<nat>)
    ensures r.Some? ==> r.value < |rows| && rows[r.value].id == id && rows[r.value].tenant == tenant
    ensures r.None? ==> forall k :: 0 <= k < |rows| ==> rows[k].id != id || rows[k].tenant != tenant
  {
    if rows == [] then None
    else if rows[0].id == id && rows[0].tenant == tenant then Some(0)
    else match FindRecord(rows[1..], id, tenant)
         case None => assert rows == [rows[0]] + rows[1..]; None
         case Some(k) => Some(k + 1)
  }

  function CompareExisting(row: Record, mine: Record): Outcome {
    if row.tenant == mine.tenant && row.digest == mine.digest then Replayed(row.id, row.digest)
    else Failed(IdempotencyConflict)
  }

  /** `verify_persisted_evidence`: rehash the stored payload, look at the form of the digest, and
      compare digest and columns. */
  function Verify(rows: seq<Record>, id: string, tenant: string, ops: Ops): Result<Record, Error> {
    match FindRecord(rows, id, tenant)
    case None => Err(NotFound)
    case Some(k) =>
      match Digest(rows[k].payload, ops)
      case Err(e) => Err(e)
      case Ok(d) =>
        if !IsDigestText(rows[k].digest) || d != rows[k].digest then Err(IntegrityMismatch)
        else if ColumnsOf(rows[k].payload) != rows[k].columns
             || TextField(rows[k].payload, "audit_execution_id") != rows[k].executionId
             || TextField(rows[k].payload, "tenant_id") != rows[k].tenant then Err(ColumnBindingMismatch)
        else Ok(rows[k])
  }

  // ---------------------------------------------------------------- steps

  predicate Can(s: Ledger, a: Action) {
    match a
    case Arrive(_, id) =>
      && (forall k :: 0 <= k < |s.rows| ==> s.rows[k].id != id)
      && (forall k :: 0 <= k < |s.appenders| ==> s.appenders[k].id != id)
    case Step(k) => k < |s.appenders| && !s.appenders[k].pc.Done?
  }

  /** The rows and the program counter after one step of an appender. */
  function Advance(rows: seq<Record>, x: Appender, ops: Ops): (seq<Record>, Pc) {
    if Acceptable(x.envelope, ops) then Proceed(rows, RowFor(x.envelope, x.id, ops), x.pc, ops)
    else (rows, Done(Failed(Rejection(x.envelope, ops))))
  }

  /** The same for one whose row is `mine`. */
  function Proceed(rows: seq<Record>, mine: Record, pc: Pc, ops: Ops): (seq<Record>, Pc) {
    match pc
    case Start => (rows, Searching)
    case Searching =>
      (match FindExecution(rows, mine.executionId)
       case None => (rows, Inserting)
       case Some(k) => (rows, Done(CompareExisting(rows[k], mine))))
    case Inserting =>
      if FindExecution(rows, mine.executionId).Some? then (rows, Losing) else (rows + [mine], Verifying)
    case Losing =>
      (match FindExecution(rows, mine.executionId)
       case None => (rows, Done(Failed(PersistenceIntegrityError)))
       case Some(k) => (rows, Done(CompareExisting(rows[k], mine))))
    case Verifying =>
      (match Verify(rows, mine.id, mine.tenant, ops)
       case Err(e) => (rows, Done(Failed(e)))
       case Ok(row) =>
         if row.digest != mine.digest then (rows, Done(Failed(IntegrityMismatch)))
         else (rows, Done(Appended(mine.id, mine.digest))))
    case Done(_) => (rows, pc)
  }

  function Do(s: Ledger, a: Action, ops: Ops): Ledger
    requires Can(s, a)
  {
    match a
    case Arrive(envelope, id) => s.(appenders := s.appenders + [Appender(envelope, id, Start)])
    case Step(k) =>
      var (rows, pc) := Advance(s.rows, s.appenders[k], ops);
      Ledger(rows, s.appenders[k := s.appenders[k].(pc := pc)])
  }

  function Exec(actions: seq<Action>, ops: Ops): Option<Ledger> {
    if actions == [] then Some(INITIAL)
    else
      match Exec(actions[..|actions| - 1], ops)
      case None => None
      case Some(s) => var a := actions[|actions| - 1]; if Can(s, a) then Some(Do(s, a, ops)) else None
  }

  // ---------------------------------------------------------------- the invariant

  ghost predicate RowsDistinct(rows: seq<Record>) {
    forall j, k :: 0 <= j < k < |rows| ==> rows[j].executionId != rows[k].executionId && rows[j].id != rows[k].id
  }

  /** A stored row is what some acceptable envelope produced. */
  predicate RowOk(r: Record, ops: Ops) {
    Payload(r.payload, ops) == Ok(r.payload) && Digest(r.payload, ops) == Ok(r.digest) && IsDigestText(r.digest)
    && ColumnsOf(r.payload) == r.columns
    && TextField(r.payload, "audit_execution_id") == r.executionId && TextField(r.payload, "tenant_id") == r.tenant
  }

  /** The verdict an appender may end with, given the one row under its execution id. */
  ghost predicate VerdictFits(rows: seq<Record>, mine: Record, outcome: Outcome) {
    exists k :: 0 <= k < |rows| && rows[k].executionId == mine.executionId
      && outcome == (if rows[k].id == mine.id then Appended(mine.id, mine.digest) else CompareExisting(rows[k], mine))
  }

  ghost predicate PcOk(rows: seq<Record>, x: Appender, ops: Ops) {
    if !Acceptable(x.envelope, ops) then x.pc.Start? || x.pc == Done(Failed(Rejection(x.envelope, ops)))
    else
      var mine := RowFor(x.envelope, x.id, ops);
      match x.pc
      case Start => true
      case Searching => true
      case Inserting => true
      case Losing => exists k :: 0 <= k < |rows| && rows[k].executionId == mine.executionId
      case Verifying => mine in rows
      case Done(outcome) => VerdictFits(rows, mine, outcome)
  }

  /** An appender that has not committed has no row of its own. */
  predicate NotYetStored(rows: seq<Record>, x: Appender) {
    (x.pc.Start? || x.pc.Searching? || x.pc.Inserting? || x.pc.Losing?) ==>
      forall k :: 0 <= k < |rows| ==> rows[k].id != x.id
  }

  ghost predicate Inv(s: Ledger, ops: Ops) {
    && RowsDistinct(s.rows)
    && (forall k :: 0 <= k < |s.rows| ==> RowOk(s.rows[k], ops))
    && (forall j, k :: 0 <= j < k < |s.appenders| ==> s.appenders[j].id != s.appenders[k].id)
    && (forall k :: 0 <= k < |s.appenders| ==> PcOk(s.rows, s.appenders[k], ops))
    && (forall k :: 0 <= k < |s.appenders| ==> NotYetStored(s.rows, s.appenders[k]))
  }

  lemma StoredRowOk(envelope: Json, id: string, ops: Ops)
    requires Lawful(ops) && Acceptable(envelope, ops)
    ensures RowOk(RowFor(envelope, id, ops), ops)
  {
    PayloadIdempotent(envelope, ops);
  }

  /** Verification of any stored row succeeds. */
  lemma StoredRowVerifies(rows: seq<Record>, k: nat, ops: Ops)
    requires RowsDistinct(rows) && k < |rows| && RowOk(rows[k], ops)
    ensures Verify(rows, rows[k].id, rows[k].tenant, ops) == Ok(rows[k])
  {
    var found := FindRecord(rows, rows[k].id, rows[k].tenant);
    assert found == Some(k);
  }

  /** More rows keep every appender's facts. */
  lemma RowsGrow(rows: seq<Record>, row: Record, x: Appender, ops: Ops)
    requires PcOk(rows, x, ops)
    ensures PcOk(rows + [row], x, ops)
  {
    var rows' := rows + [row];
    if Acceptable(x.envelope, ops) {
      var mine := RowFor(x.envelope, x.id, ops);
      if x.pc.Losing? {
        var k :| 0 <= k < |rows| && rows[k].executionId == mine.executionId;
        assert rows'[k].executionId == mine.executionId;
      } else if x.pc.Done? {
        var k :| 0 <= k < |rows| && rows[k].executionId == mine.executionId
          && x.pc.outcome ==
               (if rows[k].id == mine.id then Appended(mine.id, mine.digest) else CompareExisting(rows[k], mine));
        assert rows'[k] == rows[k];
      }
    }
  }

  lemma AdvanceKeepsPc(rows: seq<Record>, x: Appender, ops: Ops)
    requires RowsDistinct(rows) && (forall k :: 0 <= k < |rows| ==> RowOk(rows[k], ops))
    requires PcOk(rows, x, ops) && NotYetStored(rows, x) && !x.pc.Done?
    ensures var (rows', pc) := Advance(rows, x, ops);
      PcOk(rows', x.(pc := pc), ops) && NotYetStored(rows', x.(pc := pc))
  {
    if Acceptable(x.envelope, ops) {
      var mine := RowFor(x.envelope, x.id, ops);
      var found := FindExecution(rows, mine.executionId);
      if x.pc.Verifying? {
        var k :| 0 <= k < |rows| && rows[k] == mine;
        StoredRowVerifies(rows, k, ops);
      }
    }
  }

  lemma InsertedRowDistinct(rows: seq<Record>, x: Appender, ops: Ops)
    requires Lawful(ops) && RowsDistinct(rows) && (forall k :: 0 <= k < |rows| ==> RowOk(rows[k], ops))
    requires Acceptable(x.envelope, ops) && x.pc.Inserting? && NotYetStored(rows, x)
    requires FindExecution(rows, RowFor(x.envelope, x.id, ops).executionId).None?
    ensures var rows' := rows + [RowFor(x.envelope, x.id, ops)];
      RowsDistinct(rows') && forall k :: 0 <= k < |rows'| ==> RowOk(rows'[k], ops)
  {
    StoredRowOk(x.envelope, x.id, ops);
  }

  predicate AddsOne(rows: seq<Record>, rows': seq<Record>, id: string) {
    |rows'| == |rows| + 1 && rows'[..|rows|] == rows && rows'[|rows|].id == id
  }

  /** What a step of appender `x` does to the table. */
  lemma AdvanceRows(rows: seq<Record>, x: Appender, ops: Ops)
    requires Lawful(ops) && RowsDistinct(rows) && (forall k :: 0 <= k < |rows| ==> RowOk(rows[k], ops))
    requires NotYetStored(rows, x)
    ensures var rows' := Advance(rows, x, ops).0;
      && RowsDistinct(rows') && (forall k :: 0 <= k < |rows'| ==> RowOk(rows'[k], ops))
      && (rows' == rows || AddsOne(rows, rows', x.id))
  {
    if Acceptable(x.envelope, ops) && x.pc.Inserting?
       && FindExecution(rows, RowFor(x.envelope, x.id, ops).executionId).None? {
      InsertedRowDistinct(rows, x, ops);
    }
  }

  lemma OtherKeeps(rows: seq<Record>, rows': seq<Record>, x: Appender, y: Appender, ops: Ops)
    requires PcOk(rows, y, ops) && NotYetStored(rows, y) && y.id != x.id
    requires rows' == rows || AddsOne(rows, rows', x.id)
    ensures PcOk(rows', y, ops) && NotYetStored(rows', y)
  {
    if rows' != rows {
      assert rows' == rows + [rows'[|rows|]];
      RowsGrow(rows, rows'[|rows|], y, ops);
    }
  }

  lemma StepKeepsInv(s: Ledger, a: Action, ops: Ops)
    requires Lawful(ops) && Inv(s, ops) && Can(s, a)
    ensures Inv(Do(s, a, ops), ops)
    ensures s.rows <= Do(s, a, ops).rows
  {
    match a
    case Arrive(_, _) =>
    case Step(i) =>
      var x := s.appenders[i];
      var (rows', pc) := Advance(s.rows, x, ops);
      AdvanceRows(s.rows, x, ops);
      AdvanceKeepsPc(s.rows, x, ops);
      forall k | 0 <= k < |s.appenders| && k != i
        ensures PcOk(rows', s.appenders[k], ops) && NotYetStored(rows', s.appenders[k])
      {
        OtherKeeps(s.rows, rows', x, s.appenders[k], ops);
      }
  }

  // ---------------------------------------------------------------- main results

  lemma {:induction false} ReachableInv(actions: seq<Action>, ops: Ops)
    requires Lawful(ops) && Exec(actions, ops).Some?
    ensures Inv(Exec(actions, ops).value, ops)
  {
    if actions == [] {
    } else {
      var front := actions[..|actions| - 1];
      ReachableInv(front, ops);
      StepKeepsInv(Exec(front, ops).value, actions[|actions| - 1], ops);
    }
  }

  /** At most one record per execution id, and no record is ever changed or removed. */
  lemma {:induction false} OneRecordForever(actions: seq<Action>, more: seq<Action>, ops: Ops)
    requires Lawful(ops) && Exec(actions, ops).Some? && Exec(actions + more, ops).Some?
    ensures Exec(actions, ops).value.rows <= Exec(actions + more, ops).value.rows
    ensures RowsDistinct(Exec(actions + more, ops).value.rows)
  {
    ReachableInv(actions + more, ops);
    if more == [] {
      assert actions + more == actions;
    } else {
      var all := actions + more;
      assert all[..|all| - 1] == actions + more[..|more| - 1];
      OneRecordForever(actions, more[..|more| - 1], ops);
      ReachableInv(all[..|all| - 1], ops);
      StepKeepsInv(Exec(all[..|all| - 1], ops).value, all[|all| - 1], ops);
    }
  }

  /** Every stored record can be verified at any time. */
  lemma EveryRecordVerifies(actions: seq<Action>, k: nat, ops: Ops)
    requires Lawful(ops) && Exec(actions, ops).Some? && k < |Exec(actions, ops).value.rows|
    ensures var rows := Exec(actions, ops).value.rows; Verify(rows, rows[k].id, rows[k].tenant, ops) == Ok(rows[k])
  {
    ReachableInv(actions, ops);
    StoredRowVerifies(Exec(actions, ops).value.rows, k, ops);
  }

  /** How an appender of an acceptable envelope ends, in every race: there is one record under its
      execution id; it is told "appended" if that record is its own, is given that record if it
      holds the same JSON value, and otherwise gets the conflict error unless the hashes collide. */
  lemma RaceHasOneOutcome(actions: seq<Action>, k: nat, ops: Ops) returns (j: nat)
    requires Lawful(ops) && Exec(actions, ops).Some?
    requires k < |Exec(actions, ops).value.appenders|
    requires var x := Exec(actions, ops).value.appenders[k]; Acceptable(x.envelope, ops) && x.pc.Done?
    ensures var s := Exec(actions, ops).value; var x := s.appenders[k]; var mine := RowFor(x.envelope, x.id, ops);
      && j < |s.rows| && s.rows[j].executionId == mine.executionId
      && x.pc.outcome ==
           (if s.rows[j].id == x.id then Appended(x.id, mine.digest)
            else if SamePayload(s.rows[j], mine, ops) then Replayed(s.rows[j].id, mine.digest)
            else Failed(IdempotencyConflict))
  {
    ReachableInv(actions, ops);
    var s := Exec(actions, ops).value;
    var x := s.appenders[k];
    j := OutcomeFits(s, k, ops);
    CompareIsSame(s.rows[j], x.envelope, x.id, ops);
  }

  lemma OutcomeFits(s: Ledger, k: nat, ops: Ops) returns (j: nat)
    requires Inv(s, ops) && k < |s.appenders| && Acceptable(s.appenders[k].envelope, ops) && s.appenders[k].pc.Done?
    ensures j < |s.rows| && RowOk(s.rows[j], ops)
    ensures var mine := RowFor(s.appenders[k].envelope, s.appenders[k].id, ops);
      && s.rows[j].executionId == mine.executionId
      && s.appenders[k].pc.outcome ==
           (if s.rows[j].id == mine.id then Appended(mine.id, mine.digest) else CompareExisting(s.rows[j], mine))
  {
    var x := s.appenders[k];
    var mine := RowFor(x.envelope, x.id, ops);
    assert PcOk(s.rows, x, ops);
    j :| 0 <= j < |s.rows| && s.rows[j].executionId == mine.executionId
      && x.pc.outcome ==
           (if s.rows[j].id == mine.id then Appended(mine.id, mine.digest) else CompareExisting(s.rows[j], mine));
  }

  /** The rows hold the same JSON value, or, in one tenant, values whose canonical texts collide. */
  ghost predicate SamePayload(row: Record, mine: Record, ops: Ops) {
    || Same(row.payload, mine.payload)
    || (row.tenant == mine.tenant && Collide(ops, Render(row.payload), Render(mine.payload)))
  }

  /** The comparison with a stored row decides whether the payloads are the same JSON value. */
  lemma CompareIsSame(row: Record, envelope: Json, id: string, ops: Ops)
    requires Lawful(ops) && RowOk(row, ops) && Acceptable(envelope, ops)
    ensures var mine := RowFor(envelope, id, ops);
      CompareExisting(row, mine) ==
        if SamePayload(row, mine, ops) then Replayed(row.id, mine.digest) else Failed(IdempotencyConflict)
  {
    var payload := Payload(envelope, ops).value;
    PayloadIdempotent(envelope, ops);
    DigestDecides(row.payload, payload, ops);
    DigestOfPayload(row.payload, ops);
    DigestOfPayload(payload, ops);
    if Same(row.payload, payload) {
      SameKeepsText(row.payload, payload, "tenant_id");
    }
  }

  /** Equal values hold equal text under every key. */
  lemma SameKeepsText(a: Json, b: Json, key: string)
    requires Same(a, b) && Tidy(a) && Tidy(b)
    ensures TextField(a, key) == TextField(b, key)
  {
    if a.Dict? && b.Dict? {
      SameGet(a.fields, b.fields, key);
    }
  }

  lemma SameGet(fs: seq<Field>, gs: seq<Field>, key: string)
    requires SameFields(fs, gs) && DistinctNames(fs) && DistinctNames(gs)
    ensures Same(Get(fs, key), Get(gs, key))
  {
    if HasName(fs, Text(key)) {
      var i :| 0 <= i < |fs| && fs[i].name == Text(key);
      assert HasSame(fs[i], gs);
      var j :| 0 <= j < |gs| && SameField(fs[i], gs[j]);
      GetFinds(fs, i, key);
      GetFinds(gs, j, key);
    } else {
      forall i | 0 <= i < |fs| ensures fs[i].name != Text(key) {}
      GetMisses(fs, key);
      forall j | 0 <= j < |gs| ensures gs[j].name != Text(key) {
        assert HasName(fs, gs[j].name);
      }
      GetMisses(gs, key);
    }
  }
}

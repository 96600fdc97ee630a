/** What a record shows of the payload it was appended for, and what its verification looks at. */
module EvidenceRecords {
  import opened Common
  import opened Checks
  import opened CanonicalJson
  import opened CanonicalForm
  import opened EvidencePayload
  import opened EvidenceLedger
  import opened EvidenceRules

  // ---------------------------------------------------------------- the columns of a record

  /** The field's value, null where there is none. */
  predicate Shows(fields: seq<Field>, name: string, v: Json) {
    if Named(fields, name) then Holds(fields, name, v) else v == Null
  }

  /** The field's text, empty where it is no text. */
  ghost predicate ShowsText(fields: seq<Field>, name: string, s: string) {
    Holds(fields, name, Str(s)) || (s == "" && !exists t :: Shows(fields, name, Str(t)))
  }

  const NAMES := [
    "schema_version", "user_id", "request_id", "execution_id", "capability_id", "capability_version", "environment",
    "deployment_id", "resolved_agent_id", "capability_decision", "status", "artifact_id", "root_id", "error_code"]

  predicate ColumnsShow(fields: seq<Field>, columns: seq<Json>) {
    |columns| == |NAMES| && forall k :: 0 <= k < |NAMES| ==> Shows(fields, NAMES[k], columns[k])
  }

  /** The columns repeat the payload. */
  ghost predicate Bound(r: Record) {
    && r.payload.Dict? && ColumnsShow(r.payload.fields, r.columns)
    && ShowsText(r.payload.fields, "audit_execution_id", r.executionId)
    && ShowsText(r.payload.fields, "tenant_id", r.tenant)
  }

  lemma GetShows(fields: seq<Field>, name: string, v: Json)
    requires DistinctNames(fields)
    ensures Get(fields, name) == v <==> Shows(fields, name, v)
  {
    if Named(fields, name) {
      var k :| 0 <= k < |fields| && fields[k].name == Text(name);
      GetFinds(fields, k, name);
    } else {
      GetMisses(fields, name);
    }
  }

  lemma TextFieldShows(v: Json, name: string, s: string)
    requires v.Dict? && DistinctNames(v.fields)
    ensures TextField(v, name) == s <==> ShowsText(v.fields, name, s)
  {
    GetShows(v.fields, name, Get(v.fields, name));
    GetShows(v.fields, name, Str(s));
    forall t ensures Get(v.fields, name) == Str(t) <==> Shows(v.fields, name, Str(t)) {
      GetShows(v.fields, name, Str(t));
    }
  }

  lemma ColumnsAreShown(v: Json, columns: seq<Json>)
    requires v.Dict? && DistinctNames(v.fields)
    ensures ColumnsOf(v) == columns <==> ColumnsShow(v.fields, columns)
  {
    assert COLUMNS == NAMES;
    forall k | 0 <= k < |NAMES| && k < |columns|
      ensures ColumnsOf(v)[k] == columns[k] <==> Shows(v.fields, NAMES[k], columns[k])
    {
      GetShows(v.fields, NAMES[k], columns[k]);
    }
  }

  /** Two names that stay apart in normal form were apart before. */
  lemma BecomingKeepsNames(fs: seq<Field>, gs: seq<Field>, ops: Ops)
    requires FieldsBecome(fs, gs, ops)
    ensures DistinctNames(fs)
  {
    forall i, j | 0 <= i < j < |fs| ensures NameText(fs[i].name) != NameText(fs[j].name) {
      assert FieldBecomes(fs[i], gs[i], ops) && FieldBecomes(fs[j], gs[j], ops);
    }
  }

  // ---------------------------------------------------------------- verification

  /** What verification asks of a record whose payload can be hashed. */
  ghost predicate Intact(r: Record, text: string, ops: Ops) {
    |r.digest| == 64 && (forall k :: 0 <= k < 64 ==> r.digest[k] in "0123456789abcdef") && r.digest == ops.hash(text)
  }

  /** Verification finds the record by its id and tenant, hashes the payload again, and compares the
      digest and then the columns; it answers the record where nothing is wrong. */
  lemma VerifyTells(rows: seq<Record>, id: string, tenant: string, ops: Ops)
    requires Lawful(ops) && RowsDistinct(rows)
    ensures (forall k :: 0 <= k < |rows| ==> rows[k].id != id || rows[k].tenant != tenant) ==>
      Verify(rows, id, tenant, ops) == Err(NotFound)
    ensures forall k :: 0 <= k < |rows| && rows[k].id == id && rows[k].tenant == tenant ==>
      Verify(rows, id, tenant, ops) ==
        match Canonicalize(rows[k].payload, ops)
        case Err(e) => Err(e)
        case Ok(text) =>
          if !Intact(rows[k], text, ops) then Err(IntegrityMismatch)
          else if !Bound(rows[k]) then Err(ColumnBindingMismatch)
          else Ok(rows[k])
  {
    forall k | 0 <= k < |rows| && rows[k].id == id && rows[k].tenant == tenant
      ensures FindRecord(rows, id, tenant) == Some(k)
      ensures Canonicalize(rows[k].payload, ops).Ok? ==> (BoundToColumns(rows[k]) <==> Bound(rows[k]))
      ensures Canonicalize(rows[k].payload, ops).Ok? ==>
        var text := Canonicalize(rows[k].payload, ops).value;
        Intact(rows[k], text, ops) <==> IsDigestText(rows[k].digest) && rows[k].digest == ops.hash(text)
    {
      if Canonicalize(rows[k].payload, ops).Ok? {
        ColumnsAreBound(rows[k], ops);
        DigestForm(rows[k].digest);
      }
    }
  }

  predicate BoundToColumns(r: Record) {
    && ColumnsOf(r.payload) == r.columns && TextField(r.payload, "audit_execution_id") == r.executionId
    && TextField(r.payload, "tenant_id") == r.tenant
  }

  lemma ColumnsAreBound(r: Record, ops: Ops)
    requires Lawful(ops) && Canonicalize(r.payload, ops).Ok?
    ensures r.payload.Dict? && DistinctNames(r.payload.fields)
    ensures BoundToColumns(r) <==> Bound(r)
  {
    var w := Normalize(r.payload, false, ops).value;
    NormalizeExactlyWhen(r.payload, w, false, ops);
    BecomingKeepsNames(r.payload.fields, w.fields, ops);
    ColumnsAreShown(r.payload, r.columns);
    TextFieldShows(r.payload, "audit_execution_id", r.executionId);
    TextFieldShows(r.payload, "tenant_id", r.tenant);
  }

  lemma DigestForm(s: string)
    ensures IsDigestText(s) <==> |s| == 64 && forall k :: 0 <= k < 64 ==> s[k] in "0123456789abcdef"
  {
    HexCharacters();
  }

  lemma HexCharacters()
    ensures forall c: char :: c in "0123456789abcdef" <==> '0' <= c <= '9' || 'a' <= c <= 'f'
  {
    forall c: char ensures c in "0123456789abcdef" <==> '0' <= c <= '9' || 'a' <= c <= 'f' {
      var hex := "0123456789abcdef";
      if '0' <= c <= '9' {
        assert hex[c as int - '0' as int] == c;
      } else if 'a' <= c <= 'f' {
        assert hex[c as int - 'a' as int + 10] == c;
      }
    }
  }

  // ---------------------------------------------------------------- what is stored, and for whom

  lemma AcceptableExactlyWhen(envelope: Json, ops: Ops)
    requires Lawful(ops)
    ensures Acceptable(envelope, ops) <==> Canonicalize(envelope, ops).Ok?
    ensures !Acceptable(envelope, ops) ==> Canonicalize(envelope, ops) == Err(Rejection(envelope, ops))
  {
    if Payload(envelope, ops).Ok? {
      DigestOfPayload(envelope, ops);
      PayloadIdempotent(envelope, ops);
    }
  }

  /** The record of an appender: its envelope's payload with the hash of its text, its columns bound. */
  ghost predicate IsRecordOf(r: Record, envelope: Json, id: string, ops: Ops) {
    && r.id == id && Becomes(envelope, r.payload, false, ops)
    && Canonicalize(envelope, ops) == Ok(Render(r.payload)) && r.digest == ops.hash(Render(r.payload)) && Bound(r)
  }

  lemma RowIsRecord(envelope: Json, id: string, ops: Ops)
    requires Lawful(ops) && Acceptable(envelope, ops)
    ensures IsRecordOf(RowFor(envelope, id, ops), envelope, id, ops)
  {
    var r := RowFor(envelope, id, ops);
    PayloadIdempotent(envelope, ops);
    NormalizeExactlyWhen(envelope, r.payload, false, ops);
    ColumnsAreBound(r, ops);
  }

  ghost predicate Owned(rows: seq<Record>, appenders: seq<Appender>, ops: Ops) {
    forall k :: 0 <= k < |rows| ==> OwnedBySome(rows[k], appenders, ops)
  }

  ghost predicate OwnedBySome(r: Record, appenders: seq<Appender>, ops: Ops) {
    exists a :: 0 <= a < |appenders| && IsRecordOf(r, appenders[a].envelope, appenders[a].id, ops)
  }

  /** The same appenders, and perhaps more, wherever they now are. */
  predicate SameAppenders(was: seq<Appender>, now: seq<Appender>) {
    |was| <= |now| && forall a :: 0 <= a < |was| ==> was[a].envelope == now[a].envelope && was[a].id == now[a].id
  }

  lemma OwnersStay(rows: seq<Record>, was: seq<Appender>, now: seq<Appender>, ops: Ops)
    requires Owned(rows, was, ops) && SameAppenders(was, now)
    ensures Owned(rows, now, ops)
  {
    forall k | 0 <= k < |rows| ensures OwnedBySome(rows[k], now, ops) {
      assert OwnedBySome(rows[k], was, ops);
      var a :| 0 <= a < |was| && IsRecordOf(rows[k], was[a].envelope, was[a].id, ops);
      assert IsRecordOf(rows[k], now[a].envelope, now[a].id, ops);
    }
  }

  lemma OneMoreOwned(rows: seq<Record>, r: Record, appenders: seq<Appender>, a: nat, ops: Ops)
    requires Owned(rows, appenders, ops) && a < |appenders|
    requires IsRecordOf(r, appenders[a].envelope, appenders[a].id, ops)
    ensures Owned(rows + [r], appenders, ops)
  {
    assert OwnedBySome(r, appenders, ops);
  }

  lemma ProceedAddsRow(rows: seq<Record>, mine: Record, pc: Pc, ops: Ops)
    ensures Proceed(rows, mine, pc, ops).0 in {rows, rows + [mine]}
  {}

  lemma StepKeepsOwned(s: Ledger, a: Action, ops: Ops)
    requires Lawful(ops) && Owned(s.rows, s.appenders, ops) && Can(s, a)
    ensures Owned(Do(s, a, ops).rows, Do(s, a, ops).appenders, ops)
  {
    var s' := Do(s, a, ops);
    assert SameAppenders(s.appenders, s'.appenders);
    OwnersStay(s.rows, s.appenders, s'.appenders, ops);
    if a.Step? {
      var x := s'.appenders[a.a];
      if Acceptable(x.envelope, ops) {
        var mine := RowFor(x.envelope, x.id, ops);
        ProceedAddsRow(s.rows, mine, s.appenders[a.a].pc, ops);
        RowIsRecord(x.envelope, x.id, ops);
        OneMoreOwned(s.rows, mine, s'.appenders, a.a, ops);
      }
    }
  }

  /** Every record in every race is that of the appender whose id it carries. */
  lemma {:induction false} RecordsAreOwned(actions: seq<Action>, ops: Ops)
    requires Lawful(ops) && Exec(actions, ops).Some?
    ensures Owned(Exec(actions, ops).value.rows, Exec(actions, ops).value.appenders, ops)
  {
    if actions == [] {
    } else {
      var front := actions[..|actions| - 1];
      RecordsAreOwned(front, ops);
      StepKeepsOwned(Exec(front, ops).value, actions[|actions| - 1], ops);
    }
  }

  /** An appender whose envelope is refused is told why and has no record, in every race. */
  lemma RefusedLeavesNothing(actions: seq<Action>, k: nat, ops: Ops)
    requires Lawful(ops) && Exec(actions, ops).Some? && k < |Exec(actions, ops).value.appenders|
    requires Canonicalize(Exec(actions, ops).value.appenders[k].envelope, ops).Err?
    ensures var s := Exec(actions, ops).value; var x := s.appenders[k];
      && (x.pc.Done? ==> x.pc == Done(Failed(Canonicalize(x.envelope, ops).error)))
      && forall j :: 0 <= j < |s.rows| ==> s.rows[j].id != x.id
  {
    var s := Exec(actions, ops).value;
    ReachableInv(actions, ops);
    RecordsAreOwned(actions, ops);
    AcceptableExactlyWhen(s.appenders[k].envelope, ops);
    assert PcOk(s.rows, s.appenders[k], ops);
    forall j | 0 <= j < |s.rows| ensures s.rows[j].id != s.appenders[k].id {
      assert OwnedBySome(s.rows[j], s.appenders, ops);
      var a :| 0 <= a < |s.appenders| && IsRecordOf(s.rows[j], s.appenders[a].envelope, s.appenders[a].id, ops);
      assert a != k;
    }
  }

  /** How far an appender is. */
  function Distance(pc: Pc): nat {
    match pc
    case Start => 4
    case Searching => 3
    case Inserting => 2
    case Losing => 1
    case Verifying => 1
    case Done(_) => 0
  }

  /** Every step of an appender brings it nearer to its outcome: no appender takes more than four. */
  lemma StepMovesOn(s: Ledger, a: nat, ops: Ops)
    requires Can(s, Step(a))
    ensures var s' := Do(s, Step(a), ops); Distance(s'.appenders[a].pc) < Distance(s.appenders[a].pc)
  {}
}

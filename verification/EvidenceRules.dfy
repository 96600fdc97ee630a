/** What a payload must be like to be accepted, what becomes of it, and what every refusal says. */
module EvidenceRules {
  import opened Common
  import opened Checks
  import opened CanonicalJson
  import opened CanonicalForm
  import opened EvidencePayload
  import UtcStamp

  // ---------------------------------------------------------------- what normalisation makes of a value

  predicate IsTime(key: string) {
    key in {"started_at", "finished_at", "created_at"}
  }

  /** Text becomes its normal form, a timestamp the fixed form of its moment; whole numbers of 64 bits
      and the other scalars stay; lists and dictionaries keep their order, and no key comes twice. */
  ghost predicate Becomes(v: Json, w: Json, timestamp: bool, ops: Ops)
    decreases v, 1
  {
    match (v, w)
    case (Null, Null) => true
    case (Bool(a), Bool(b)) => a == b
    case (Int(a), Int(b)) => a == b && -0x8000_0000_0000_0000 <= a <= 0x7FFF_FFFF_FFFF_FFFF
    case (Str(s), Str(t)) => if timestamp then UtcStamp.Stamp(ops.nfc(s), ops.iso) == Some(t) else t == ops.nfc(s)
    case (List(xs), List(ys)) => ItemsBecome(xs, ys, ops)
    case (Dict(fs), Dict(gs)) => FieldsBecome(fs, gs, ops)
    case _ => false
  }

  ghost predicate ItemsBecome(xs: seq<Json>, ys: seq<Json>, ops: Ops)
    decreases xs, 0
  {
    |xs| == |ys| && forall i :: 0 <= i < |xs| ==> Becomes(xs[i], ys[i], false, ops)
  }

  ghost predicate FieldsBecome(fs: seq<Field>, gs: seq<Field>, ops: Ops)
    decreases fs, 0
  {
    && |fs| == |gs| && (forall i :: 0 <= i < |fs| ==> FieldBecomes(fs[i], gs[i], ops))
    && (forall i, j :: 0 <= i < j < |gs| ==> gs[i].name != gs[j].name)
  }

  ghost predicate FieldBecomes(f: Field, g: Field, ops: Ops)
    decreases f, 1
  {
    && f.name.Text? && g.name == Text(ops.nfc(f.name.text))
    && Becomes(f.value, g.value, IsTime(ops.nfc(f.name.text)), ops)
  }

  /** Normalisation succeeds exactly where the value can become another, and gives that one. */
  lemma {:induction false} NormalizeExactlyWhen(v: Json, w: Json, timestamp: bool, ops: Ops)
    ensures Normalize(v, timestamp, ops) == Ok(w) <==> Becomes(v, w, timestamp, ops)
    decreases v, 1
  {
    match v
    case List(xs) =>
      if w.List? {
        ItemsExactlyWhen(xs, w.items, ops);
      }
    case Dict(fs) =>
      if w.Dict? {
        FieldsExactlyWhen(fs, w.fields, ops);
      }
    case _ =>
  }

  lemma {:induction false} ItemsExactlyWhen(xs: seq<Json>, ys: seq<Json>, ops: Ops)
    ensures NormalizeItems(xs, ops) == Ok(ys) <==> ItemsBecome(xs, ys, ops)
    decreases xs, 0
  {
    if xs == [] || ys == [] {
    } else {
      NormalizeExactlyWhen(xs[0], ys[0], false, ops);
      ItemsExactlyWhen(xs[1..], ys[1..], ops);
      FirstItemBecomes(xs, ys, ops);
      assert ys == [ys[0]] + ys[1..];
    }
  }

  lemma FirstItemBecomes(xs: seq<Json>, ys: seq<Json>, ops: Ops)
    requires xs != [] && ys != []
    ensures ItemsBecome(xs, ys, ops) <==> Becomes(xs[0], ys[0], false, ops) && ItemsBecome(xs[1..], ys[1..], ops)
  {
    var as_, bs := xs[1..], ys[1..];
    if Becomes(xs[0], ys[0], false, ops) && ItemsBecome(as_, bs, ops) {
      forall i | 0 <= i < |xs| ensures Becomes(xs[i], ys[i], false, ops) {
        assert i > 0 ==> xs[i] == as_[i - 1] && ys[i] == bs[i - 1];
      }
    }
  }

  lemma {:induction false} FieldsExactlyWhen(fs: seq<Field>, gs: seq<Field>, ops: Ops)
    ensures NormalizeFields(fs, ops) == Ok(gs) <==> FieldsBecome(fs, gs, ops)
    decreases fs, 0
  {
    if fs == [] || gs == [] {
    } else {
      var n, m := |fs| - 1, |gs| - 1;
      FieldsExactlyWhen(fs[..n], gs[..m], ops);
      FieldExactlyWhen(fs[n], gs[..m], gs[m], ops);
      LastFieldBecomes(fs, gs, ops);
      assert gs == gs[..m] + [gs[m]];
    }
  }

  lemma {:induction false} FieldExactlyWhen(f: Field, done: seq<Field>, g: Field, ops: Ops)
    ensures NormalizeField(f, done, ops) == Ok(done + [g]) <==>
      FieldBecomes(f, g, ops) && forall i :: 0 <= i < |done| ==> done[i].name != g.name
    decreases f, 2
  {
    if f.name.Text? {
      var key := ops.nfc(f.name.text);
      NormalizeExactlyWhen(f.value, g.value, IsTime(key), ops);
      assert IsTimestampField(Some(key)) <==> IsTime(key);
      assert HasText(done, key) <==> exists i :: 0 <= i < |done| && done[i].name == Text(key);
      assert (done + [g])[|done|] == g;
      var r := Normalize(f.value, IsTime(key), ops);
      if !HasText(done, key) && r.Ok? {
        assert (done + [Field(Text(key), r.value)])[|done|] == Field(Text(key), r.value);
      }
    }
  }

  lemma LastFieldBecomes(fs: seq<Field>, gs: seq<Field>, ops: Ops)
    requires fs != [] && gs != []
    ensures var n, m := |fs| - 1, |gs| - 1;
      FieldsBecome(fs, gs, ops) <==>
        && FieldsBecome(fs[..n], gs[..m], ops) && FieldBecomes(fs[n], gs[m], ops)
        && forall i :: 0 <= i < m ==> gs[..m][i].name != gs[m].name
  {
    var n, m := |fs| - 1, |gs| - 1;
    if FieldsBecome(fs, gs, ops) {
      FrontBecomes(fs, gs, ops);
    } else if FieldsBecome(fs[..n], gs[..m], ops) && FieldBecomes(fs[n], gs[m], ops)
      && forall i :: 0 <= i < m ==> gs[..m][i].name != gs[m].name
    {
      AllBecome(fs, gs, ops);
    }
  }

  lemma FrontBecomes(fs: seq<Field>, gs: seq<Field>, ops: Ops)
    requires fs != [] && FieldsBecome(fs, gs, ops)
    ensures var n := |fs| - 1;
      FieldsBecome(fs[..n], gs[..n], ops) && FieldBecomes(fs[n], gs[n], ops)
      && forall i :: 0 <= i < n ==> gs[..n][i].name != gs[n].name
  {
    var n := |fs| - 1;
    forall i | 0 <= i < n ensures FieldBecomes(fs[..n][i], gs[..n][i], ops) {
      assert FieldBecomes(fs[i], gs[i], ops);
    }
  }

  lemma AllBecome(fs: seq<Field>, gs: seq<Field>, ops: Ops)
    requires fs != [] && gs != []
    requires var n, m := |fs| - 1, |gs| - 1;
      FieldsBecome(fs[..n], gs[..m], ops) && FieldBecomes(fs[n], gs[m], ops)
      && forall i :: 0 <= i < m ==> gs[..m][i].name != gs[m].name
    ensures FieldsBecome(fs, gs, ops)
  {
    var n := |fs| - 1;
    forall i | 0 <= i < |fs| ensures FieldBecomes(fs[i], gs[i], ops) {
      assert i < n ==> FieldBecomes(fs[..n][i], gs[..n][i], ops);
    }
    forall i, j | 0 <= i < j < |gs| ensures gs[i].name != gs[j].name {
      assert gs[..n][i] == gs[i];
      assert j < n ==> gs[..n][j] == gs[j];
    }
  }

  // ---------------------------------------------------------------- what it refuses, and with what

  /** Everything wrong with a value, in the order of its text. */
  function Faults(v: Json, timestamp: bool, ops: Ops): seq<Error>
    decreases v, 1
  {
    match v
    case Str(s) => if timestamp && UtcStamp.Stamp(ops.nfc(s), ops.iso).None? then [TimestampInvalid] else []
    case Int(n) => if -0x8000_0000_0000_0000 <= n <= 0x7FFF_FFFF_FFFF_FFFF then [] else [IntegerOutOfRange]
    case Float => [FloatForbidden]
    case Foreign => [UnsupportedValue]
    case List(items) => ItemFaults(items, ops)
    case Dict(fields) => FieldFaults(fields, ops)
    case _ => []
  }

  function ItemFaults(items: seq<Json>, ops: Ops): seq<Error>
    decreases items, 0
  {
    if items == [] then [] else Faults(items[0], false, ops) + ItemFaults(items[1..], ops)
  }

  function FieldFaults(fields: seq<Field>, ops: Ops): seq<Error>
    decreases fields, 0
  {
    if fields == [] then []
    else
      var n := |fields| - 1;
      FieldFaults(fields[..n], ops) + FieldFault(fields[n], Repeats(fields, n, ops), ops)
  }

  /** An earlier field has the same normal key. */
  predicate Repeats(fields: seq<Field>, n: nat, ops: Ops)
    requires n < |fields|
  {
    fields[n].name.Text?
    && exists j :: 0 <= j < n && fields[j].name.Text? && ops.nfc(fields[j].name.text) == ops.nfc(fields[n].name.text)
  }

  function FieldFault(f: Field, repeats: bool, ops: Ops): seq<Error>
    decreases f, 1
  {
    match f.name
    case NotText => [KeyInvalid]
    case Text(raw) => if repeats then [KeyCollision] else Faults(f.value, IsTime(ops.nfc(raw)), ops)
  }

  /** The result of something that reports the first of these faults. */
  predicate Reports<T>(r: Result<T, Error>, faults: seq<Error>) {
    match r
    case Ok(_) => faults == []
    case Err(e) => faults != [] && faults[0] == e
  }

  /** Normalisation succeeds where nothing is wrong, and reports the first fault where something is. */
  lemma {:induction false} NormalizeReports(v: Json, timestamp: bool, ops: Ops)
    ensures Reports(Normalize(v, timestamp, ops), Faults(v, timestamp, ops))
    decreases v, 1
  {
    match v
    case List(items) => ItemsReport(items, ops);
    case Dict(fields) => FieldsReport(fields, ops);
    case _ =>
  }

  lemma {:induction false} ItemsReport(items: seq<Json>, ops: Ops)
    ensures Reports(NormalizeItems(items, ops), ItemFaults(items, ops))
    decreases items, 0
  {
    if items == [] {
    } else {
      NormalizeReports(items[0], false, ops);
      ItemsReport(items[1..], ops);
    }
  }

  lemma {:induction false} FieldsReport(fields: seq<Field>, ops: Ops)
    ensures Reports(NormalizeFields(fields, ops), FieldFaults(fields, ops))
    decreases fields, 0
  {
    if fields == [] {
    } else {
      var n := |fields| - 1;
      FieldsReport(fields[..n], ops);
      if NormalizeFields(fields[..n], ops).Ok? {
        var done := NormalizeFields(fields[..n], ops).value;
        FieldsExactlyWhen(fields[..n], done, ops);
        SameKeyFound(fields, done, ops);
        FieldReports(fields[n], done, Repeats(fields, n, ops), ops);
      }
    }
  }

  lemma SameKeyFound(fields: seq<Field>, done: seq<Field>, ops: Ops)
    requires fields != [] && FieldsBecome(fields[..|fields| - 1], done, ops)
    ensures var f := fields[|fields| - 1];
      f.name.Text? ==> (HasText(done, ops.nfc(f.name.text)) <==> Repeats(fields, |fields| - 1, ops))
  {
    var n := |fields| - 1;
    forall j | 0 <= j < n ensures fields[j].name.Text? && done[j].name == Text(ops.nfc(fields[j].name.text)) {
      assert FieldBecomes(fields[..n][j], done[j], ops);
    }
  }

  lemma {:induction false} FieldReports(f: Field, done: seq<Field>, repeats: bool, ops: Ops)
    requires f.name.Text? ==> (HasText(done, ops.nfc(f.name.text)) <==> repeats)
    ensures Reports(NormalizeField(f, done, ops), FieldFault(f, repeats, ops))
    decreases f, 2
  {
    if f.name.Text? {
      NormalizeReports(f.value, IsTime(ops.nfc(f.name.text)), ops);
    }
  }

  // ---------------------------------------------------------------- what a payload must hold

  predicate Named(fields: seq<Field>, name: string) {
    exists k :: 0 <= k < |fields| && fields[k].name == Text(name)
  }

  /** Some field of this name has this value. */
  predicate Holds(fields: seq<Field>, name: string, v: Json) {
    exists k :: 0 <= k < |fields| && fields[k].name == Text(name) && fields[k].value == v
  }

  /** Some field of this name has text that is not blank. */
  predicate Filled(fields: seq<Field>, name: string, ops: Ops) {
    exists k :: 0 <= k < |fields| && fields[k].name == Text(name)
      && fields[k].value.Str? && !ops.blank(fields[k].value.s)
  }

  const IDENTITY := [
    "schema_version", "audit_execution_id", "request_id", "execution_id", "tenant_id", "user_id", "capability_id",
    "capability_version", "environment", "deployment_id", "resolved_agent_id"]

  const ACCOUNT := [
    "capability_decision", "status", "sanitized", "read_executed", "write_executed", "migration_executed",
    "deploy_executed", "started_at", "finished_at", "created_at"]

  predicate Complete(fields: seq<Field>) {
    && (forall k :: 0 <= k < |IDENTITY| ==> Named(fields, IDENTITY[k]))
    && (forall k :: 0 <= k < |ACCOUNT| ==> Named(fields, ACCOUNT[k]))
  }

  predicate IdentityFilled(fields: seq<Field>, ops: Ops) {
    forall k :: 0 <= k < |IDENTITY| ==> Filled(fields, IDENTITY[k], ops)
  }

  predicate ReadOnly(fields: seq<Field>) {
    && !Holds(fields, "write_executed", Bool(true)) && !Holds(fields, "migration_executed", Bool(true))
    && !Holds(fields, "deploy_executed", Bool(true))
  }

  predicate Decided(fields: seq<Field>) {
    Holds(fields, "capability_decision", Str("ALLOW")) || Holds(fields, "capability_decision", Str("DENY"))
  }

  predicate Concluded(fields: seq<Field>) {
    || Holds(fields, "status", Str("completed")) || Holds(fields, "status", Str("failed"))
    || Holds(fields, "status", Str("denied"))
  }

  predicate ReadAllowed(fields: seq<Field>) {
    !Holds(fields, "capability_decision", Str("DENY")) || !Holds(fields, "read_executed", Bool(true))
  }

  /** The rules, in the order in which they are asked. */
  function Rules(fields: seq<Field>, ops: Ops): seq<Check<Error>> {
    [ Check(Complete(fields), RequiredFieldMissing),
      Check(Decided(fields), DecisionInvalid),
      Check(Concluded(fields), StatusInvalid),
      Check(Holds(fields, "sanitized", Bool(true)), SanitizationRequired),
      Check(ReadOnly(fields), ReadonlyViolated),
      Check(ReadAllowed(fields), DeniedReadExecuted),
      Check(IdentityFilled(fields, ops), RequiredFieldInvalid) ]
  }

  lemma GetHolds(fields: seq<Field>, name: string, v: Json)
    requires DistinctNames(fields) && v != Null
    ensures Get(fields, name) == v <==> Holds(fields, name, v)
    ensures Get(fields, name) != Null ==> Named(fields, name)
  {
    if Named(fields, name) {
      var k :| 0 <= k < |fields| && fields[k].name == Text(name);
      GetFinds(fields, k, name);
    } else {
      GetMisses(fields, name);
    }
  }

  lemma GetFilled(fields: seq<Field>, name: string, ops: Ops)
    requires DistinctNames(fields)
    ensures FilledText(Get(fields, name), ops) <==> Filled(fields, name, ops)
  {
    if Named(fields, name) {
      var k :| 0 <= k < |fields| && fields[k].name == Text(name);
      GetFinds(fields, k, name);
    } else {
      GetMisses(fields, name);
    }
  }

  lemma NamesAreRequired()
    ensures REQUIRED == IDENTITY + ACCOUNT && |IDENTITY| == REQUIRED_TEXT
  {}

  lemma RequiredAreNamed(fields: seq<Field>)
    ensures NoneMissing(fields) <==> Complete(fields)
  {
    NamesAreRequired();
    assert forall k :: 0 <= k < |REQUIRED| ==> (HasText(fields, REQUIRED[k]) <==> Named(fields, REQUIRED[k]));
    forall k | 0 <= k < |IDENTITY| ensures REQUIRED[k] == IDENTITY[k] {}
    forall k | 0 <= k < |ACCOUNT| ensures REQUIRED[|IDENTITY| + k] == ACCOUNT[k] {}
  }

  lemma FilledOnesAreNamed(fields: seq<Field>, ops: Ops)
    requires DistinctNames(fields)
    ensures NoneBlank(fields, ops) <==> IdentityFilled(fields, ops)
  {
    NamesAreRequired();
    forall k | 0 <= k < |IDENTITY|
      ensures REQUIRED[k] == IDENTITY[k]
      ensures FilledText(Get(fields, REQUIRED[k]), ops) <==> Filled(fields, IDENTITY[k], ops)
    {
      GetFilled(fields, IDENTITY[k], ops);
    }
  }

  lemma FlagsAreHeld(fields: seq<Field>)
    requires DistinctNames(fields)
    ensures Holds(fields, "sanitized", Bool(true)) <==> Get(fields, "sanitized") == Bool(true)
    ensures ReadOnly(fields) <==>
      Get(fields, "write_executed") != Bool(true) && Get(fields, "migration_executed") != Bool(true)
      && Get(fields, "deploy_executed") != Bool(true)
  {
    GetHolds(fields, "sanitized", Bool(true));
    GetHolds(fields, "write_executed", Bool(true));
    GetHolds(fields, "migration_executed", Bool(true));
    GetHolds(fields, "deploy_executed", Bool(true));
  }

  lemma DecisionIsHeld(fields: seq<Field>)
    requires DistinctNames(fields)
    ensures Decided(fields) <==> Get(fields, "capability_decision") in {Str("ALLOW"), Str("DENY")}
    ensures ReadAllowed(fields) <==>
      Get(fields, "capability_decision") != Str("DENY") || Get(fields, "read_executed") != Bool(true)
  {
    GetHolds(fields, "capability_decision", Str("ALLOW"));
    GetHolds(fields, "capability_decision", Str("DENY"));
    GetHolds(fields, "read_executed", Bool(true));
  }

  lemma StatusIsHeld(fields: seq<Field>)
    requires DistinctNames(fields)
    ensures Concluded(fields) <==> Get(fields, "status") in {Str("completed"), Str("failed"), Str("denied")}
  {
    GetHolds(fields, "status", Str("completed"));
    GetHolds(fields, "status", Str("failed"));
    GetHolds(fields, "status", Str("denied"));
  }

  /** The first broken rule, if there is one. */
  function FirstBroken(h: seq<Check<Error>>): Option<Error>
    requires |h| == 7
  {
    if !h[0].passed then Some(h[0].error) else if !h[1].passed then Some(h[1].error)
    else if !h[2].passed then Some(h[2].error) else if !h[3].passed then Some(h[3].error)
    else if !h[4].passed then Some(h[4].error) else if !h[5].passed then Some(h[5].error)
    else if !h[6].passed then Some(h[6].error) else None
  }

  lemma FirstIsTold(h: seq<Check<Error>>)
    requires |h| == 7
    ensures Tells(h, FirstBroken(h))
  {
    var k := if !h[0].passed then 0 else if !h[1].passed then 1 else if !h[2].passed then 2
             else if !h[3].passed then 3 else if !h[4].passed then 4 else if !h[5].passed then 5
             else if !h[6].passed then 6 else 7;
    assert k < 7 ==> FailsAt(h, k);
  }

  lemma CheckIsFirstBroken(fields: seq<Field>, ops: Ops)
    requires DistinctNames(fields)
    ensures EvidencePayload.Check(Dict(fields), ops) == FirstBroken(Rules(fields, ops))
  {
    RequiredAreNamed(fields);
    FilledOnesAreNamed(fields, ops);
    FlagsAreHeld(fields);
    DecisionIsHeld(fields);
    StatusIsHeld(fields);
  }

  /** A payload is refused with the error of the first rule it breaks, and only then. */
  lemma CheckTells(fields: seq<Field>, ops: Ops)
    requires DistinctNames(fields)
    ensures Tells(Rules(fields, ops), EvidencePayload.Check(Dict(fields), ops))
  {
    CheckIsFirstBroken(fields, ops);
    FirstIsTold(Rules(fields, ops));
  }

  // ---------------------------------------------------------------- what is hashed

  /** The rules for an accepted payload's canonical text. */
  function TextRules(text: string, ops: Ops): seq<Check<Error>> {
    [ Check(ops.size(text) <= 128_000, OutputTooLarge), Check(!ops.secret(text), SecretBlocked) ]
  }

  lemma TextRulesTell(text: string, ops: Ops)
    ensures Tells(TextRules(text, ops),
                  if ops.size(text) > 128_000 then Some(OutputTooLarge)
                  else if ops.secret(text) then Some(SecretBlocked) else None)
  {
    var h := TextRules(text, ops);
    if !h[0].passed {
      assert FailsAt(h, 0);
    } else if !h[1].passed {
      assert FailsAt(h, 1);
    }
  }

  /** The text where every rule is kept, the error of the first broken one where one is not. */
  ghost predicate Answers(r: Result<string, Error>, rules: seq<Check<Error>>, text: string) {
    match r
    case Ok(t) => AllPassed(rules) && t == text
    case Err(e) => Tells(rules, Some(e))
  }

  /** A value with a fault is refused with the first of them; one without becomes another value,
      which is refused unless it is a dictionary that keeps all rules; its canonical text is then
      the text that is hashed. */
  lemma CanonicalizeTells(v: Json, ops: Ops)
    requires Lawful(ops)
    ensures Faults(v, false, ops) != [] ==> Canonicalize(v, ops) == Err(Faults(v, false, ops)[0])
    ensures Faults(v, false, ops) == [] ==> exists w :: Becomes(v, w, false, ops)
    ensures forall w :: Becomes(v, w, false, ops) ==>
      if !w.Dict? then Canonicalize(v, ops) == Err(EnvelopeInvalid)
      else Answers(Canonicalize(v, ops), Rules(w.fields, ops) + TextRules(Render(w), ops), Render(w))
  {
    NormalizeReports(v, false, ops);
    if Faults(v, false, ops) == [] {
      NormalizeExactlyWhen(v, Normalize(v, false, ops).value, false, ops);
    }
    forall w | Becomes(v, w, false, ops)
      ensures if !w.Dict? then Canonicalize(v, ops) == Err(EnvelopeInvalid)
              else Answers(Canonicalize(v, ops), Rules(w.fields, ops) + TextRules(Render(w), ops), Render(w))
    {
      NormalizeExactlyWhen(v, w, false, ops);
      NormalizeIdempotent(v, false, ops);
      if w.Dict? {
        NormalizedIsTidy(v, false, ops);
        CheckTells(w.fields, ops);
        TextRulesTell(Render(w), ops);
        if Canonicalize(v, ops).Err? {
          TellsTogether(Rules(w.fields, ops), TextRules(Render(w), ops), Some(Canonicalize(v, ops).error));
        } else {
          TellsTogether(Rules(w.fields, ops), TextRules(Render(w), ops), None);
        }
      }
    }
  }
}

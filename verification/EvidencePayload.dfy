/** Normalisation and validation of an evidence payload, and its digest. */
module EvidencePayload {
  import opened Common
  import opened CanonicalJson
  import opened CanonicalForm
  import UtcStamp

  /** The library operations the code relies on: NFC, the host's ISO parser where it goes beyond
      the fixed form, the blank test, the encoded length, the secret scan and the hash. */
  datatype Ops = Ops(
    nfc: string -> string,
    iso: string -> Option<UtcStamp.Moment>,
    blank: string -> bool,
    size: string -> nat,
    secret: string -> bool,
    hash: string -> string
  )

  /** Sixty-four lower-case hexadecimal digits. */
  predicate IsDigestText(s: string) {
    |s| == 64 && forall k :: 0 <= k < |s| ==> '0' <= s[k] <= '9' || 'a' <= s[k] <= 'f'
  }

  /** What is assumed of them: NFC is idempotent and leaves ASCII alone, and the hash is printed in
      hexadecimal. */
  ghost predicate Lawful(ops: Ops) {
    && (forall s :: ops.nfc(ops.nfc(s)) == ops.nfc(s))
    && (forall s :: UtcStamp.Ascii(s) ==> ops.nfc(s) == s)
    && (forall s :: IsDigestText(ops.hash(s)))
  }

  /** Two different texts with one hash. */
  predicate Collide(ops: Ops, s: string, t: string) {
    s != t && ops.hash(s) == ops.hash(t)
  }

  /** These laws can be met together. */
  lemma SomeOpsAreLawful()
    ensures exists ops :: Lawful(ops)
  {
    var ops := Ops(s => s, s => None, s => s == "", s => |s|, s => false, s => seq(64, _ => '0'));
    assert Lawful(ops);
  }

  datatype Error =
    | TimestampInvalid | IntegerOutOfRange | FloatForbidden | KeyInvalid | KeyCollision | UnsupportedValue
    | EnvelopeInvalid | RequiredFieldMissing | DecisionInvalid | StatusInvalid | SanitizationRequired
    | ReadonlyViolated | DeniedReadExecuted | RequiredFieldInvalid | OutputTooLarge | SecretBlocked
    | IdempotencyConflict | PersistenceIntegrityError | IntegrityMismatch | NotFound | ColumnBindingMismatch

  const INT64_LIMIT := 0x8000_0000_0000_0000

  predicate IsTimestampField(key: Option<string>) {
    key == Some("started_at") || key == Some("finished_at") || key == Some("created_at")
  }

  // ---------------------------------------------------------------- normalisation

  function Normalize(v: Json, timestamp: bool, ops: Ops): Result<Json, Error>
    decreases v, 1
  {
    match v
    case Null => Ok(v)
    case Bool(_) => Ok(v)
    case Str(s) =>
      if timestamp then
        (match UtcStamp.Stamp(ops.nfc(s), ops.iso) case None => Err(TimestampInvalid) case Some(t) => Ok(Str(t)))
      else Ok(Str(ops.nfc(s)))
    case Int(n) => if n < -INT64_LIMIT || n > INT64_LIMIT - 1 then Err(IntegerOutOfRange) else Ok(v)
    case Float => Err(FloatForbidden)
    case List(items) =>
      (match NormalizeItems(items, ops) case Err(e) => Err(e) case Ok(r) => Ok(List(r)))
    case Dict(fields) =>
      (match NormalizeFields(fields, ops) case Err(e) => Err(e) case Ok(r) => Ok(Dict(r)))
    case Foreign => Err(UnsupportedValue)
  }

  function NormalizeItems(items: seq<Json>, ops: Ops): Result<seq<Json>, Error>
    decreases items, 0
  {
    if items == [] then Ok([])
    else
      match Normalize(items[0], false, ops)
      case Err(e) => Err(e)
      case Ok(v) =>
        match NormalizeItems(items[1..], ops)
        case Err(e) => Err(e)
        case Ok(more) => Ok([v] + more)
  }

  predicate HasText(fields: seq<Field>, text: string) {
    exists k :: 0 <= k < |fields| && fields[k].name == Text(text)
  }

  /** The fields in order; a key must be text, and must not repeat an earlier normalised key. */
  function NormalizeFields(fields: seq<Field>, ops: Ops): Result<seq<Field>, Error>
    decreases fields, 0
  {
    if fields == [] then Ok([])
    else
      var n := |fields| - 1;
      match NormalizeFields(fields[..n], ops)
      case Err(e) => Err(e)
      case Ok(done) => NormalizeField(fields[n], done, ops)
  }

  function NormalizeField(f: Field, done: seq<Field>, ops: Ops): Result<seq<Field>, Error>
    decreases f, 2
  {
    match f.name
    case NotText => Err(KeyInvalid)
    case Text(raw) =>
      var key := ops.nfc(raw);
      if HasText(done, key) then Err(KeyCollision)
      else
        match Normalize(f.value, IsTimestampField(Some(key)), ops)
        case Err(e) => Err(e)
        case Ok(v) => Ok(done + [Field(Text(key), v)])
  }

  /** Normalised payloads have only JSON values and distinct keys. */
  lemma {:induction false} NormalizedIsTidy(v: Json, timestamp: bool, ops: Ops)
    requires Normalize(v, timestamp, ops).Ok?
    ensures Tidy(Normalize(v, timestamp, ops).value)
    decreases v, 1
  {
    match v
    case List(items) => ItemsAreTidy(items, ops);
    case Dict(fields) => FieldsAreTidy(fields, ops);
    case _ =>
  }

  lemma {:induction false} ItemsAreTidy(items: seq<Json>, ops: Ops)
    requires NormalizeItems(items, ops).Ok?
    ensures var r := NormalizeItems(items, ops).value; forall i :: 0 <= i < |r| ==> Tidy(r[i])
    decreases items, 0
  {
    if items == [] {
    } else {
      NormalizedIsTidy(items[0], false, ops);
      ItemsAreTidy(items[1..], ops);
    }
  }

  lemma {:induction false} FieldsAreTidy(fields: seq<Field>, ops: Ops)
    requires NormalizeFields(fields, ops).Ok?
    ensures var r := NormalizeFields(fields, ops).value;
      DistinctNames(r) && forall i :: 0 <= i < |r| ==> r[i].name.Text? && Tidy(r[i].value)
    decreases fields, 0
  {
    if fields == [] {
    } else {
      var n := |fields| - 1;
      FieldsAreTidy(fields[..n], ops);
      var f := fields[n];
      assert f.value < f;
      NormalizedIsTidy(f.value, IsTimestampField(Some(ops.nfc(f.name.text))), ops);
    }
  }

  /** Normalising twice is normalising once, timestamps and keys included. */
  lemma {:induction false} NormalizeIdempotent(v: Json, timestamp: bool, ops: Ops)
    requires Lawful(ops) && Normalize(v, timestamp, ops).Ok?
    ensures Normalize(Normalize(v, timestamp, ops).value, timestamp, ops) == Normalize(v, timestamp, ops)
    decreases v, 1
  {
    match v
    case List(items) => ItemsIdempotent(items, ops);
    case Dict(fields) => FieldsIdempotent(fields, ops);
    case Str(s) =>
      if timestamp {
        UtcStamp.StampIsFixed(ops.nfc(s), ops.iso);
      }
    case _ =>
  }

  lemma {:induction false} ItemsIdempotent(items: seq<Json>, ops: Ops)
    requires Lawful(ops) && NormalizeItems(items, ops).Ok?
    ensures NormalizeItems(NormalizeItems(items, ops).value, ops) == NormalizeItems(items, ops)
    decreases items, 0
  {
    if items == [] {
    } else {
      NormalizeIdempotent(items[0], false, ops);
      ItemsIdempotent(items[1..], ops);
      var r := NormalizeItems(items, ops).value;
      assert r[1..] == NormalizeItems(items[1..], ops).value;
    }
  }

  lemma {:induction false} FieldsIdempotent(fields: seq<Field>, ops: Ops)
    requires Lawful(ops) && NormalizeFields(fields, ops).Ok?
    ensures NormalizeFields(NormalizeFields(fields, ops).value, ops) == NormalizeFields(fields, ops)
    decreases fields, 0
  {
    if fields == [] {
    } else {
      var n := |fields| - 1;
      FieldsIdempotent(fields[..n], ops);
      var done := NormalizeFields(fields[..n], ops).value;
      var f := fields[n];
      assert f.value < f;
      var key := ops.nfc(f.name.text);
      NormalizeIdempotent(f.value, IsTimestampField(Some(key)), ops);
      var r := NormalizeFields(fields, ops).value;
      assert r == done + [r[|done|]] && r[..|done|] == done;
      assert NormalizeField(r[|done|], done, ops) == Ok(r);
    }
  }

  // ---------------------------------------------------------------- validation

  function Get(fields: seq<Field>, key: string): Json {
    if fields == [] then Null
    else if fields[0].name == Text(key) then fields[0].value
    else Get(fields[1..], key)
  }

  lemma {:induction false} GetFinds(fields: seq<Field>, i: nat, key: string)
    requires DistinctNames(fields) && i < |fields| && fields[i].name == Text(key)
    ensures Get(fields, key) == fields[i].value
  {
    if i == 0 {
    } else {
      assert NameText(fields[0].name) != NameText(fields[i].name);
      GetFinds(fields[1..], i - 1, key);
    }
  }

  lemma {:induction false} GetMisses(fields: seq<Field>, key: string)
    requires forall j :: 0 <= j < |fields| ==> fields[j].name != Text(key)
    ensures Get(fields, key) == Null
  {
    if fields == [] {
    } else {
      GetMisses(fields[1..], key);
    }
  }

  /** Fields that must be present. */
  const REQUIRED: seq<string> := [
    "schema_version", "audit_execution_id", "request_id", "execution_id", "tenant_id", "user_id", "capability_id",
    "capability_version", "environment", "deployment_id", "resolved_agent_id", "capability_decision", "status",
    "sanitized", "read_executed", "write_executed", "migration_executed", "deploy_executed",
    "started_at", "finished_at", "created_at"]

  /** Those among them that must hold non-blank text: the first eleven. */
  const REQUIRED_TEXT := 11

  predicate FilledText(v: Json, ops: Ops) {
    v.Str? && !ops.blank(v.s)
  }

  predicate NoneMissing(fields: seq<Field>) {
    forall k :: 0 <= k < |REQUIRED| ==> HasText(fields, REQUIRED[k])
  }

  predicate NoneBlank(fields: seq<Field>, ops: Ops) {
    forall k :: 0 <= k < REQUIRED_TEXT ==> FilledText(Get(fields, REQUIRED[k]), ops)
  }

  /** The checks on a normalised payload, in the order the code makes them. */
  function Check(v: Json, ops: Ops): Option<Error> {
    if !v.Dict? then Some(EnvelopeInvalid)
    else
      var get := (key: string) => Get(v.fields, key);
      if !NoneMissing(v.fields) then Some(RequiredFieldMissing)
      else if get("capability_decision") !in {Str("ALLOW"), Str("DENY")} then Some(DecisionInvalid)
      else if get("status") !in {Str("completed"), Str("failed"), Str("denied")} then Some(StatusInvalid)
      else if get("sanitized") != Bool(true) then Some(SanitizationRequired)
      else if get("write_executed") == Bool(true) || get("migration_executed") == Bool(true)
           || get("deploy_executed") == Bool(true) then Some(ReadonlyViolated)
      else if get("capability_decision") == Str("DENY") && get("read_executed") == Bool(true)
           then Some(DeniedReadExecuted)
      else if !NoneBlank(v.fields, ops) then Some(RequiredFieldInvalid)
      else None
  }

  /** `_payload` on a dictionary. */
  function Payload(v: Json, ops: Ops): Result<Json, Error> {
    match Normalize(v, false, ops)
    case Err(e) => Err(e)
    case Ok(w) => (match Check(w, ops) case Some(e) => Err(e) case None => Ok(w))
  }

  /** `canonicalize_json_v1`. */
  function CanonicalizeJson(v: Json, ops: Ops): Result<string, Error> {
    match Normalize(v, false, ops)
    case Err(e) => Err(e)
    case Ok(w) => Ok(Render(w))
  }

  const MAX_SERIALIZED_BYTES := 128_000

  /** `canonicalize_evidence`: validates again, prints, and bounds and scans the result. */
  function Canonicalize(v: Json, ops: Ops): Result<string, Error> {
    match Payload(v, ops)
    case Err(e) => Err(e)
    case Ok(w) =>
      match CanonicalizeJson(w, ops)
      case Err(e) => Err(e)
      case Ok(text) =>
        if ops.size(text) > MAX_SERIALIZED_BYTES then Err(OutputTooLarge)
        else if ops.secret(text) then Err(SecretBlocked)
        else Ok(text)
  }

  function Digest(v: Json, ops: Ops): Result<string, Error> {
    match Canonicalize(v, ops)
    case Err(e) => Err(e)
    case Ok(text) => Ok(ops.hash(text))
  }

  /** A payload that passed is accepted again unchanged. */
  lemma PayloadIdempotent(v: Json, ops: Ops)
    requires Lawful(ops) && Payload(v, ops).Ok?
    ensures Payload(Payload(v, ops).value, ops) == Payload(v, ops)
  {
    NormalizeIdempotent(v, false, ops);
  }

  /** The digest of an accepted payload is the hash of its own canonical text, however often the
      payload was normalised on the way. */
  lemma DigestOfPayload(v: Json, ops: Ops)
    requires Lawful(ops) && Payload(v, ops).Ok?
    ensures var w := Payload(v, ops).value;
      && Digest(w, ops) == Digest(v, ops)
      && (Digest(w, ops).Ok? ==> Digest(w, ops).value == ops.hash(Render(w)))
      && Tidy(w)
  {
    NormalizeIdempotent(v, false, ops);
    NormalizedIsTidy(v, false, ops);
  }

  /** Comparing digests is comparing payloads: equal exactly when the payloads are the same JSON
      value or their canonical texts collide. */
  lemma DigestDecides(a: Json, b: Json, ops: Ops)
    requires Lawful(ops) && Payload(a, ops).Ok? && Payload(b, ops).Ok?
    requires Digest(a, ops).Ok? && Digest(b, ops).Ok?
    ensures var v, w := Payload(a, ops).value, Payload(b, ops).value;
      Digest(a, ops) == Digest(b, ops) <==> Same(v, w) || Collide(ops, Render(v), Render(w))
  {
    DigestOfPayload(a, ops);
    DigestOfPayload(b, ops);
    RenderDecides(Payload(a, ops).value, Payload(b, ops).value);
  }
}

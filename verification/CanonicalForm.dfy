/** Key-sorted canonical form: equal text exactly when equal as JSON values, whatever the
    insertion order of the dictionaries. */
module CanonicalForm {
  import opened Common
  import opened CanonicalJson

  // ---------------------------------------------------------------- sorting fields by key

  predicate NameLess(f: Field, g: Field) {
    TextLess(NameText(f.name), NameText(g.name))
  }

  function InsertField(fs: seq<Field>, f: Field): seq<Field> {
    if fs == [] then [f]
    else if NameLess(f, fs[0]) then [f] + fs
    else [fs[0]] + InsertField(fs[1..], f)
  }

  function SortFields(fs: seq<Field>): seq<Field> {
    if fs == [] then [] else InsertField(SortFields(fs[1..]), fs[0])
  }

  ghost predicate StrictlySorted(fs: seq<Field>) {
    forall i, j :: 0 <= i < j < |fs| ==> NameLess(fs[i], fs[j])
  }

  ghost predicate DistinctNames(fs: seq<Field>) {
    forall i, j :: 0 <= i < j < |fs| ==> NameText(fs[i].name) != NameText(fs[j].name)
  }

  lemma {:induction false} InsertMember(fs: seq<Field>, f: Field)
    ensures forall x :: x in InsertField(fs, f) <==> x in fs || x == f
  {
    if fs == [] || NameLess(f, fs[0]) {
    } else {
      InsertMember(fs[1..], f);
      assert fs == [fs[0]] + fs[1..];
    }
  }

  lemma {:induction false} InsertSorted(fs: seq<Field>, f: Field)
    requires StrictlySorted(fs) && forall g :: g in fs ==> NameText(g.name) != NameText(f.name)
    ensures StrictlySorted(InsertField(fs, f))
  {
    if fs == [] {
    } else {
      TextLessTotal(NameText(f.name), NameText(fs[0].name));
      if NameLess(f, fs[0]) {
        var r := [f] + fs;
        forall i, j | 0 <= i < j < |r| ensures NameLess(r[i], r[j]) {
          if i == 0 && j > 1 {
            TextLessTransitive(NameText(f.name), NameText(fs[0].name), NameText(fs[j - 1].name));
          }
        }
      } else {
        var tail := InsertField(fs[1..], f);
        InsertSorted(fs[1..], f);
        InsertMember(fs[1..], f);
        var r := [fs[0]] + tail;
        forall i, j | 0 <= i < j < |r| ensures NameLess(r[i], r[j]) {
          if i == 0 {
            assert tail[j - 1] in tail;
            assert tail[j - 1] in fs[1..] || tail[j - 1] == f;
          }
        }
      }
    }
  }

  lemma {:induction false} SortFacts(fs: seq<Field>)
    ensures forall x :: x in SortFields(fs) <==> x in fs
    ensures DistinctNames(fs) ==> StrictlySorted(SortFields(fs))
  {
    if fs == [] {
    } else {
      SortFacts(fs[1..]);
      InsertMember(SortFields(fs[1..]), fs[0]);
      if DistinctNames(fs) {
        forall g | g in SortFields(fs[1..]) ensures NameText(g.name) != NameText(fs[0].name) {
          var j :| 0 <= j < |fs[1..]| && fs[1..][j] == g;
          assert fs[j + 1] == g;
        }
        InsertSorted(SortFields(fs[1..]), fs[0]);
      }
      assert fs == [fs[0]] + fs[1..];
    }
  }

  lemma SmallestIsFirst(fs: seq<Field>, f: Field)
    requires StrictlySorted(fs) && f in fs && f != fs[0]
    ensures NameLess(fs[0], f)
  {}

  /** A strictly sorted list is determined by its members. */
  lemma {:induction false} SortedUnique(a: seq<Field>, b: seq<Field>)
    requires StrictlySorted(a) && StrictlySorted(b) && forall x :: x in a <==> x in b
    ensures a == b
  {
    if a == [] {
      assert forall x :: x in b ==> x in a;
      assert forall k :: 0 <= k < |b| ==> b[k] in b;
    } else {
      assert a[0] in b;
      assert b[0] in a;
      if a[0] != b[0] {
        SmallestIsFirst(a, b[0]);
        SmallestIsFirst(b, a[0]);
        TextLessTotal(NameText(a[0].name), NameText(b[0].name));
      }
      forall x ensures x in a[1..] <==> x in b[1..] {
        SortedTail(a, x);
        SortedTail(b, x);
      }
      SortedUnique(a[1..], b[1..]);
      assert a == [a[0]] + a[1..] && b == [b[0]] + b[1..];
    }
  }

  lemma SortedTail(a: seq<Field>, x: Field)
    requires StrictlySorted(a) && a != []
    ensures x in a[1..] <==> x in a && x != a[0]
  {
    if x in a[1..] {
      var j :| 0 <= j < |a[1..]| && a[1..][j] == x;
      assert NameLess(a[0], a[j + 1]);
      TextLessTotal(NameText(x.name), NameText(x.name));
    }
    assert a == [a[0]] + a[1..];
  }

  // ---------------------------------------------------------------- the canonical value

  /** Every dictionary sorted by key, all the way down: what `sort_keys=True` prints. */
  function Canon(v: Json): Json
    decreases v, 1
  {
    match v
    case List(items) => List(CanonItems(items))
    case Dict(fields) => Dict(SortFields(CanonFields(fields)))
    case _ => v
  }

  function CanonItems(items: seq<Json>): (r: seq<Json>)
    ensures |r| == |items|
    decreases items, 0
  {
    if items == [] then [] else [Canon(items[0])] + CanonItems(items[1..])
  }

  function CanonField(f: Field): Field
    decreases f, 1
  {
    Field(f.name, Canon(f.value))
  }

  function CanonFields(fields: seq<Field>): (r: seq<Field>)
    ensures |r| == |fields|
    decreases fields, 0
  {
    if fields == [] then [] else [CanonField(fields[0])] + CanonFields(fields[1..])
  }

  lemma {:induction false} CanonFieldAt(fields: seq<Field>, k: nat)
    requires k < |fields|
    ensures CanonFields(fields)[k] == CanonField(fields[k])
  {
    if k == 0 {
    } else {
      CanonFieldAt(fields[1..], k - 1);
    }
  }

  lemma {:induction false} CanonItemAt(items: seq<Json>, k: nat)
    requires k < |items|
    ensures CanonItems(items)[k] == Canon(items[k])
  {
    if k == 0 {
    } else {
      CanonItemAt(items[1..], k - 1);
    }
  }

  /** The text of `canonicalize_json_v1` for an already normalised value. */
  function Render(v: Json): string {
    PrintTo(Canon(v), "")
  }

  // ---------------------------------------------------------------- equality of values

  /** A JSON value whose dictionaries have distinct string keys. */
  ghost predicate Tidy(v: Json)
    decreases v
  {
    match v
    case Float => false
    case Foreign => false
    case List(items) => forall i :: 0 <= i < |items| ==> Tidy(items[i])
    case Dict(fields) =>
      && DistinctNames(fields)
      && forall i :: 0 <= i < |fields| ==> fields[i].name.Text? && Tidy(fields[i].value)
    case _ => true
  }

  /** Equality of JSON values: lists element by element, dictionaries by key, order ignored. */
  ghost predicate Same(a: Json, b: Json)
    decreases a, 1
  {
    match (a, b)
    case (List(xs), List(ys)) => |xs| == |ys| && forall i :: 0 <= i < |xs| ==> Same(xs[i], ys[i])
    case (Dict(fs), Dict(gs)) => SameFields(fs, gs)
    case _ => a == b
  }

  ghost predicate SameFields(fs: seq<Field>, gs: seq<Field>)
    decreases fs, 0
  {
    && (forall i :: 0 <= i < |fs| ==> HasSame(fs[i], gs))
    && (forall j :: 0 <= j < |gs| ==> HasName(fs, gs[j].name))
  }

  ghost predicate HasName(fs: seq<Field>, name: Name) {
    exists i :: 0 <= i < |fs| && fs[i].name == name
  }

  ghost predicate HasSame(f: Field, gs: seq<Field>)
    decreases f, 2
  {
    exists j :: 0 <= j < |gs| && SameField(f, gs[j])
  }

  ghost predicate SameField(f: Field, g: Field)
    decreases f, 1
  {
    f.name == g.name && Same(f.value, g.value)
  }

  lemma CanonNamesDistinct(fields: seq<Field>)
    requires DistinctNames(fields)
    ensures DistinctNames(CanonFields(fields))
  {
    forall i, j | 0 <= i < j < |fields|
      ensures NameText(CanonFields(fields)[i].name) != NameText(CanonFields(fields)[j].name)
    {
      CanonFieldAt(fields, i);
      CanonFieldAt(fields, j);
    }
  }

  ghost predicate SameMembers(a: seq<Field>, b: seq<Field>) {
    forall x :: x in a <==> x in b
  }

  /** Canonical dictionaries are equal exactly when they have the same canonical fields. */
  lemma DictsEqualByMembers(fs: seq<Field>, gs: seq<Field>)
    requires DistinctNames(fs) && DistinctNames(gs)
    ensures SortFields(CanonFields(fs)) == SortFields(CanonFields(gs)) <==>
      SameMembers(CanonFields(fs), CanonFields(gs))
  {
    var a, b := CanonFields(fs), CanonFields(gs);
    CanonNamesDistinct(fs);
    CanonNamesDistinct(gs);
    SortFacts(a);
    SortFacts(b);
    if SameMembers(a, b) {
      SortedUnique(SortFields(a), SortFields(b));
    } else {
      var x :| !(x in a <==> x in b);
      assert x in SortFields(a) <==> x in a;
    }
  }

  lemma {:induction false} CanonDecidesLists(xs: seq<Json>, ys: seq<Json>)
    requires Tidy(List(xs)) && Tidy(List(ys))
    ensures Canon(List(xs)) == Canon(List(ys)) <==> Same(List(xs), List(ys))
    decreases xs, 0
  {
    if |xs| == |ys| {
      forall i | 0 <= i < |xs| ensures CanonItems(xs)[i] == CanonItems(ys)[i] <==> Same(xs[i], ys[i]) {
        CanonItemAt(xs, i);
        CanonItemAt(ys, i);
        CanonDecides(xs[i], ys[i]);
      }
    }
  }

  lemma CanonFieldsByIndex(fs: seq<Field>)
    ensures forall i :: 0 <= i < |fs| ==> CanonFields(fs)[i] == CanonField(fs[i])
  {
    forall i | 0 <= i < |fs| ensures CanonFields(fs)[i] == CanonField(fs[i]) { CanonFieldAt(fs, i); }
  }

  /** With names kept and distinct, having the same members is having every left field on the
      right and every right name on the left. */
  lemma MembersByName(fs: seq<Field>, gs: seq<Field>, a: seq<Field>, b: seq<Field>)
    requires |a| == |fs| && |b| == |gs| && DistinctNames(gs)
    requires forall i :: 0 <= i < |fs| ==> a[i].name == fs[i].name
    requires forall j :: 0 <= j < |gs| ==> b[j].name == gs[j].name
    requires forall i :: 0 <= i < |a| ==> a[i] in b
    requires forall j :: 0 <= j < |gs| ==> HasName(fs, gs[j].name)
    ensures forall x :: x in a <==> x in b
  {
    forall j | 0 <= j < |b| ensures b[j] in a {
      assert HasName(fs, gs[j].name);
      var i :| 0 <= i < |fs| && fs[i].name == gs[j].name;
      var k :| 0 <= k < |b| && a[i] == b[k];
      assert NameText(gs[j].name) == NameText(gs[k].name);
      assert j == k;
    }
  }

  lemma NamesByMembers(fs: seq<Field>, gs: seq<Field>, a: seq<Field>, b: seq<Field>)
    requires |a| == |fs| && |b| == |gs|
    requires forall i :: 0 <= i < |fs| ==> a[i].name == fs[i].name
    requires forall j :: 0 <= j < |gs| ==> b[j].name == gs[j].name
    requires forall x :: x in a <==> x in b
    ensures forall j :: 0 <= j < |gs| ==> HasName(fs, gs[j].name)
  {
    forall j | 0 <= j < |gs| ensures HasName(fs, gs[j].name) {
      assert b[j] in a;
      var i :| 0 <= i < |a| && a[i] == b[j];
      assert fs[i].name == gs[j].name;
    }
  }

  lemma SameByMembers(f: Field, x: Field, gs: seq<Field>, b: seq<Field>)
    requires |b| == |gs| && forall j :: 0 <= j < |gs| ==> (x == b[j] <==> SameField(f, gs[j]))
    ensures HasSame(f, gs) <==> x in b
  {
    if x in b {
      var j :| 0 <= j < |b| && b[j] == x;
      assert SameField(f, gs[j]);
    }
  }

  lemma {:induction false} FieldsDecided(fs: seq<Field>, gs: seq<Field>)
    requires Tidy(Dict(fs)) && Tidy(Dict(gs))
    ensures forall i :: 0 <= i < |fs| ==> (HasSame(fs[i], gs) <==> CanonFields(fs)[i] in CanonFields(gs))
    decreases fs, 0
  {
    forall i | 0 <= i < |fs| ensures HasSame(fs[i], gs) <==> CanonFields(fs)[i] in CanonFields(gs) {
      CanonFieldAt(fs, i);
      forall j | 0 <= j < |gs| ensures CanonField(fs[i]) == CanonFields(gs)[j] <==> SameField(fs[i], gs[j]) {
        CanonFieldAt(gs, j);
        assert fs[i].value < fs[i];
        CanonDecides(fs[i].value, gs[j].value);
      }
      SameByMembers(fs[i], CanonField(fs[i]), gs, CanonFields(gs));
    }
  }

  lemma MembersDecide(fs: seq<Field>, gs: seq<Field>, a: seq<Field>, b: seq<Field>)
    requires |a| == |fs| && |b| == |gs| && DistinctNames(gs)
    requires forall i :: 0 <= i < |fs| ==> a[i].name == fs[i].name
    requires forall j :: 0 <= j < |gs| ==> b[j].name == gs[j].name
    requires forall i :: 0 <= i < |fs| ==> (HasSame(fs[i], gs) <==> a[i] in b)
    ensures SameFields(fs, gs) <==> SameMembers(a, b)
  {
    if SameMembers(a, b) {
      NamesByMembers(fs, gs, a, b);
    }
    if SameFields(fs, gs) {
      MembersByName(fs, gs, a, b);
    }
  }

  lemma {:induction false} CanonDecidesDicts(fs: seq<Field>, gs: seq<Field>)
    requires Tidy(Dict(fs)) && Tidy(Dict(gs))
    ensures Canon(Dict(fs)) == Canon(Dict(gs)) <==> SameFields(fs, gs)
    decreases fs, 1
  {
    var a, b := CanonFields(fs), CanonFields(gs);
    FieldsDecided(fs, gs);
    CanonFieldsByIndex(fs);
    CanonFieldsByIndex(gs);
    MembersDecide(fs, gs, a, b);
    DictsEqualByMembers(fs, gs);
  }

  /** Canonical forms are equal exactly when the values are. */
  lemma {:induction false} CanonDecides(a: Json, b: Json)
    requires Tidy(a) && Tidy(b)
    ensures Canon(a) == Canon(b) <==> Same(a, b)
    decreases a, 1
  {
    if a.List? && b.List? {
      CanonDecidesLists(a.items, b.items);
    } else if a.Dict? && b.Dict? {
      CanonDecidesDicts(a.fields, b.fields);
    }
  }

  // ---------------------------------------------------------------- the text decides

  lemma {:induction false} PlainItemsFrom(items: seq<Json>)
    requires forall i :: 0 <= i < |items| ==> Plain(items[i])
    ensures PlainItems(items)
  {
    if items == [] {
    } else {
      PlainItemsFrom(items[1..]);
    }
  }

  lemma {:induction false} PlainFieldsFrom(fields: seq<Field>)
    requires forall i :: 0 <= i < |fields| ==> PlainField(fields[i])
    ensures PlainFields(fields)
  {
    if fields == [] {
    } else {
      PlainFieldsFrom(fields[1..]);
    }
  }

  lemma {:induction false} CanonIsPlain(v: Json)
    requires Tidy(v)
    ensures Plain(Canon(v))
    decreases v
  {
    match v
    case List(items) =>
      forall i | 0 <= i < |items| ensures Plain(CanonItems(items)[i]) {
        CanonIsPlain(items[i]);
        CanonItemAt(items, i);
      }
      PlainItemsFrom(CanonItems(items));
    case Dict(fields) =>
      var sorted := SortFields(CanonFields(fields));
      SortFacts(CanonFields(fields));
      forall k | 0 <= k < |sorted| ensures PlainField(sorted[k]) {
        assert sorted[k] in CanonFields(fields);
        var i :| 0 <= i < |fields| && CanonFields(fields)[i] == sorted[k];
        CanonFieldAt(fields, i);
        CanonIsPlain(fields[i].value);
      }
      PlainFieldsFrom(sorted);
    case _ =>
  }

  /** The canonical text is exact: two values have the same text exactly when they are equal as
      JSON values, so key order never matters and nothing else is ever confused. */
  lemma RenderDecides(a: Json, b: Json)
    requires Tidy(a) && Tidy(b)
    ensures Render(a) == Render(b) <==> Same(a, b)
  {
    CanonIsPlain(a);
    CanonIsPlain(b);
    PrintRoundTrip(Canon(a), "");
    PrintRoundTrip(Canon(b), "");
    CanonDecides(a, b);
  }

  /** And the text can be read back: parsing it gives the canonical value, with nothing left over. */
  lemma RenderRoundTrip(v: Json)
    requires Tidy(v)
    ensures Parse(Render(v)) == Some((Canon(v), ""))
  {
    CanonIsPlain(v);
    PrintRoundTrip(Canon(v), "");
  }
}

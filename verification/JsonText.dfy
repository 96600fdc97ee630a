/** What the canonical text looks like: no raw control character, no shorter text of the same value,
    and keys in ascending order. */
module JsonText {
  import opened Common
  import opened CanonicalJson
  import opened CanonicalForm

  // ---------------------------------------------------------------- no control characters

  predicate NoControls(s: string) {
    forall k :: 0 <= k < |s| ==> s[k] >= ' '
  }

  lemma EscapesControls(c: char, rest: string)
    requires NoControls(rest)
    ensures NoControls(EscapeTo(c, rest))
  {}

  lemma {:induction false} StringHasNoControls(s: string, rest: string)
    requires NoControls(rest)
    ensures NoControls(StringTo(s, rest))
  {
    if s == [] {
    } else {
      StringHasNoControls(s[1..], rest);
      EscapesControls(s[0], StringTo(s[1..], rest));
    }
  }

  lemma {:induction false} DigitsHaveNoControls(n: nat, rest: string)
    requires NoControls(rest)
    ensures NoControls(DigitsTo(n, rest))
  {
    if n < 10 {
    } else {
      DigitsHaveNoControls(n / 10, [Digit(n % 10)] + rest);
    }
  }

  lemma {:induction false} PrintHasNoControls(v: Json, rest: string)
    requires NoControls(rest)
    ensures NoControls(PrintTo(v, rest))
    decreases v, 1
  {
    match v
    case Int(n) => DigitsHaveNoControls(if n < 0 then -n else n, rest);
    case Str(s) => StringHasNoControls(s, rest);
    case List(items) => ItemsHaveNoControls(items, rest);
    case Dict(fields) => FieldsHaveNoControls(fields, rest);
    case _ =>
  }

  lemma {:induction false} ItemsHaveNoControls(items: seq<Json>, rest: string)
    requires NoControls(rest)
    ensures NoControls(ItemsTo(items, rest))
    decreases items, 0
  {
    if items == [] {
    } else if |items| == 1 {
      PrintHasNoControls(items[0], [']'] + rest);
    } else {
      ItemsHaveNoControls(items[1..], rest);
      PrintHasNoControls(items[0], [','] + ItemsTo(items[1..], rest));
    }
  }

  lemma {:induction false} FieldsHaveNoControls(fields: seq<Field>, rest: string)
    requires NoControls(rest)
    ensures NoControls(FieldsTo(fields, rest))
    decreases fields, 0
  {
    if fields == [] {
    } else if |fields| == 1 {
      FieldHasNoControls(fields[0], ['}'] + rest);
    } else {
      FieldsHaveNoControls(fields[1..], rest);
      FieldHasNoControls(fields[0], [','] + FieldsTo(fields[1..], rest));
    }
  }

  lemma {:induction false} FieldHasNoControls(f: Field, rest: string)
    requires NoControls(rest)
    ensures NoControls(FieldTo(f, rest))
    decreases f, 1
  {
    PrintHasNoControls(f.value, rest);
    StringHasNoControls(NameText(f.name), [':'] + PrintTo(f.value, rest));
  }

  /** The canonical text of any value is one line without a single control character. */
  lemma RenderHasNoControls(v: Json)
    ensures NoControls(Render(v))
  {
    PrintHasNoControls(Canon(v), "");
  }

  // ---------------------------------------------------------------- no shorter text

  lemma EscapeLength(c: char, x: string, y: string)
    ensures |EscapeTo(c, x)| - |x| == |EscapeTo(c, y)| - |y|
  {}

  lemma {:induction false} StringLength(s: string, x: string, y: string)
    ensures |StringTo(s, x)| - |x| == |StringTo(s, y)| - |y|
  {
    if s == [] {
    } else {
      StringLength(s[1..], x, y);
      EscapeLength(s[0], StringTo(s[1..], x), StringTo(s[1..], y));
    }
  }

  lemma {:induction false} DigitsLength(n: nat, x: string, y: string)
    ensures |DigitsTo(n, x)| - |x| == |DigitsTo(n, y)| - |y|
  {
    if n < 10 {
    } else {
      DigitsLength(n / 10, [Digit(n % 10)] + x, [Digit(n % 10)] + y);
    }
  }

  /** How long a value prints does not depend on what follows it. */
  lemma {:induction false} PrintLength(v: Json, x: string, y: string)
    ensures |PrintTo(v, x)| - |x| == |PrintTo(v, y)| - |y|
    decreases v, 1
  {
    match v
    case Int(n) => DigitsLength(if n < 0 then -n else n, x, y);
    case Str(s) => StringLength(s, x, y);
    case List(items) => ItemsLength(items, x, y);
    case Dict(fields) => FieldsLength(fields, x, y);
    case _ =>
  }

  lemma {:induction false} ItemsLength(items: seq<Json>, x: string, y: string)
    ensures |ItemsTo(items, x)| - |x| == |ItemsTo(items, y)| - |y|
    decreases items, 0
  {
    if items == [] {
    } else if |items| == 1 {
      PrintLength(items[0], [']'] + x, [']'] + y);
    } else {
      ItemsLength(items[1..], x, y);
      PrintLength(items[0], [','] + ItemsTo(items[1..], x), [','] + ItemsTo(items[1..], y));
    }
  }

  lemma {:induction false} FieldsLength(fields: seq<Field>, x: string, y: string)
    ensures |FieldsTo(fields, x)| - |x| == |FieldsTo(fields, y)| - |y|
    decreases fields, 0
  {
    if fields == [] {
    } else if |fields| == 1 {
      FieldLength(fields[0], ['}'] + x, ['}'] + y);
    } else {
      FieldsLength(fields[1..], x, y);
      FieldLength(fields[0], [','] + FieldsTo(fields[1..], x), [','] + FieldsTo(fields[1..], y));
    }
  }

  lemma {:induction false} FieldLength(f: Field, x: string, y: string)
    ensures |FieldTo(f, x)| - |x| == |FieldTo(f, y)| - |y|
    decreases f, 1
  {
    PrintLength(f.value, x, y);
    StringLength(NameText(f.name), [':'] + PrintTo(f.value, x), [':'] + PrintTo(f.value, y));
  }

  /** No text the parser reads as this character is shorter than what is printed for it. */
  lemma CharIsShortest(s: string)
    requires ReadChar(s).Some? && s[0] != '\"'
    ensures |EscapeTo(ReadChar(s).value.0, ReadChar(s).value.1)| <= |s|
  {}

  lemma {:induction false} StringIsShortest(s: string)
    requires ReadString(s).Some?
    ensures |StringTo(ReadString(s).value.0, ReadString(s).value.1)| <= |s|
    decreases |s|
  {
    if s[0] == '\"' {
    } else {
      var (c, rest) := ReadChar(s).value;
      var (tail, after) := ReadString(rest).value;
      CharIsShortest(s);
      StringIsShortest(rest);
      EscapeLength(c, rest, StringTo(tail, after));
      assert ([c] + tail)[1..] == tail;
    }
  }

  lemma {:induction false} DigitsAreShortest(s: string, acc: nat)
    ensures var (n, rest) := ReadDigits(s, acc); |DigitsTo(n, rest)| <= |DigitsTo(acc, s)|
    decreases |s|
  {
    if s == [] || !IsDigit(s[0]) {
    } else {
      var d := s[0] as int - '0' as int;
      DigitsAreShortest(s[1..], acc * 10 + d);
      DigitsLength(acc, s, [Digit(d)] + s[1..]);
      assert (acc * 10 + d) / 10 == acc && (acc * 10 + d) % 10 == d;
    }
  }

  lemma {:induction false} ParsedIsShortest(s: string)
    requires Parse(s).Some?
    ensures |PrintTo(Parse(s).value.0, Parse(s).value.1)| <= |s|
    decreases |s|, 1
  {
    if s[0] == '\"' {
      StringIsShortest(s[1..]);
    } else if s[0] == '[' {
      if |s| == 1 || s[1] != ']' {
        ItemsAreShortest(s[1..]);
      }
    } else if s[0] == '{' {
      if |s| == 1 || s[1] != '}' {
        FieldsAreShortest(s[1..]);
      }
    } else if s[0] == '-' {
      NumberIsShortest(s[1..]);
    } else if IsDigit(s[0]) {
      NumberIsShortest(s);
    }
  }

  lemma NumberIsShortest(s: string)
    requires s != [] && IsDigit(s[0])
    ensures var (n, rest) := ReadDigits(s, 0); |DigitsTo(n, rest)| <= |s|
    ensures ReadDigits(s, 0) == ReadDigits(s[1..], s[0] as int - '0' as int)
  {
    DigitsAreShortest(s[1..], s[0] as int - '0' as int);
  }

  lemma {:induction false} ItemsAreShortest(s: string)
    requires ParseItems(s).Some?
    ensures ParseItems(s).value.0 != []
    ensures |ItemsTo(ParseItems(s).value.0, ParseItems(s).value.1)| <= |s|
    decreases |s|, 2
  {
    var (v, rest) := Parse(s).value;
    ParsedIsShortest(s);
    if rest[0] == ']' {
      assert [']'] + rest[1..] == rest;
    } else {
      var (more, after) := ParseItems(rest[1..]).value;
      ItemsAreShortest(rest[1..]);
      PrintLength(v, rest, [','] + ItemsTo(more, after));
      assert ([v] + more)[1..] == more;
    }
  }

  lemma {:induction false} FieldIsShortest(s: string)
    requires ParseField(s).Some?
    ensures |FieldTo(ParseField(s).value.0, ParseField(s).value.1)| <= |s|
    decreases |s|, 2
  {
    var (name, after) := ReadString(s[1..]).value;
    var (v, rest) := Parse(after[1..]).value;
    StringIsShortest(s[1..]);
    ParsedIsShortest(after[1..]);
    StringLength(name, after, [':'] + PrintTo(v, rest));
  }

  lemma {:induction false} FieldsAreShortest(s: string)
    requires ParseFields(s).Some?
    ensures ParseFields(s).value.0 != []
    ensures |FieldsTo(ParseFields(s).value.0, ParseFields(s).value.1)| <= |s|
    decreases |s|, 3
  {
    var (f, rest) := ParseField(s).value;
    FieldIsShortest(s);
    if rest[0] == '}' {
      assert ['}'] + rest[1..] == rest;
    } else {
      var (more, after) := ParseFields(rest[1..]).value;
      FieldsAreShortest(rest[1..]);
      FieldLength(f, rest, [','] + FieldsTo(more, after));
      assert ([f] + more)[1..] == more;
    }
  }

  /** The canonical text is a shortest text of its value: it spends no character on spaces, leading
      zeros, or a longer escape than the shortest there is. */
  lemma RenderIsShortest(v: Json, s: string)
    requires Tidy(v) && Parse(s) == Some((Canon(v), ""))
    ensures Parse(Render(v)) == Some((Canon(v), "")) && |Render(v)| <= |s|
  {
    RenderRoundTrip(v);
    ParsedIsShortest(s);
  }

  // ---------------------------------------------------------------- keys in order

  /** The texts part at position `k`: one ends there, or has the smaller character. */
  predicate PartAt(a: string, b: string, k: int) {
    && 0 <= k <= |a| && k < |b| && a[..k] == b[..k]
    && (k < |a| ==> a[k] < b[k])
  }

  /** Before in the order of code points. */
  ghost predicate Precedes(a: string, b: string) {
    exists k :: PartAt(a, b, k)
  }

  lemma {:induction false} TextLessExactlyWhen(a: string, b: string)
    ensures TextLess(a, b) <==> Precedes(a, b)
  {
    if b == [] {
    } else if a == [] {
      assert PartAt(a, b, 0);
    } else {
      TextLessExactlyWhen(a[1..], b[1..]);
      if a[0] < b[0] {
        assert PartAt(a, b, 0);
      } else if a[0] == b[0] && Precedes(a[1..], b[1..]) {
        var k :| PartAt(a[1..], b[1..], k);
        assert a[..k + 1] == [a[0]] + a[1..][..k] && b[..k + 1] == [b[0]] + b[1..][..k];
        assert PartAt(a, b, k + 1);
      }
      if Precedes(a, b) {
        var k :| PartAt(a, b, k);
        if k > 0 {
          assert a[0] == a[..k][0] && b[0] == b[..k][0];
          assert a[1..][..k - 1] == a[..k][1..] && b[1..][..k - 1] == b[..k][1..];
          assert PartAt(a[1..], b[1..], k - 1);
        }
      }
    }
  }

  ghost predicate KeysAscend(fields: seq<Field>) {
    forall i, j :: 0 <= i < j < |fields| ==> Precedes(NameText(fields[i].name), NameText(fields[j].name))
  }

  /** Every dictionary, at every depth, lists its keys in ascending order. */
  ghost predicate Ascending(v: Json)
    decreases v
  {
    match v
    case List(items) => forall i :: 0 <= i < |items| ==> Ascending(items[i])
    case Dict(fields) => KeysAscend(fields) && forall i :: 0 <= i < |fields| ==> Ascending(fields[i].value)
    case _ => true
  }

  lemma SortedAscends(fields: seq<Field>)
    requires StrictlySorted(fields)
    ensures KeysAscend(fields)
  {
    forall i, j | 0 <= i < j < |fields| ensures Precedes(NameText(fields[i].name), NameText(fields[j].name)) {
      assert NameLess(fields[i], fields[j]);
      TextLessExactlyWhen(NameText(fields[i].name), NameText(fields[j].name));
    }
  }

  /** What is printed has its keys in ascending order of code points, at every depth. */
  lemma {:induction false} CanonAscends(v: Json)
    requires Tidy(v)
    ensures Ascending(Canon(v))
    decreases v
  {
    match v
    case List(items) =>
      forall i | 0 <= i < |items| ensures Ascending(CanonItems(items)[i]) {
        CanonItemAt(items, i);
        CanonAscends(items[i]);
      }
    case Dict(fields) =>
      var canon := CanonFields(fields);
      CanonNamesDistinct(fields);
      SortFacts(canon);
      SortedAscends(SortFields(canon));
      forall x | x in SortFields(canon) ensures Ascending(x.value) {
        var i :| 0 <= i < |canon| && canon[i] == x;
        CanonFieldAt(fields, i);
        CanonAscends(fields[i].value);
      }
    case _ =>
  }
}

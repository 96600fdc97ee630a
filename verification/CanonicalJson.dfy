/** The canonical form of evidence payloads: normalisation, the key-sorted printer of
    `canonicalize_json_v1`, and a parser that inverts it. */
module CanonicalJson {
  import opened Common

  datatype Json =
    | Null
    | Bool(b: bool)
    | Int(n: int)
    | Float
    | Str(s: string)
    | List(items: seq<Json>)      // a list or a tuple
    | Dict(fields: seq<Field>)    // in insertion order
    | Foreign                     // any other Python value

  datatype Field = Field(name: Name, value: Json)

  datatype Name = Text(text: string) | NotText

  // ---------------------------------------------------------------- strings

  function HexDigit(d: nat): char
    requires d < 16
  {
    "0123456789abcdef"[d]
  }

  function HexValue(c: char): Option<nat> {
    if '0' <= c <= '9' then Some(c as int - '0' as int)
    else if 'a' <= c <= 'f' then Some(c as int - 'a' as int + 10)
    else None
  }

  /** One character as `json.dumps(ensure_ascii=False)` writes it, followed by `rest`. */
  function EscapeTo(c: char, rest: string): string {
    if c == '\"' then "\\\"" + rest
    else if c == '\\' then "\\\\" + rest
    else if c == '\n' then "\\n" + rest
    else if c == '\r' then "\\r" + rest
    else if c == '\t' then "\\t" + rest
    else if c == 8 as char then "\\b" + rest
    else if c == 12 as char then "\\f" + rest
    else if c < ' ' then "\\u00" + [HexDigit(c as int / 16), HexDigit(c as int % 16)] + rest
    else [c] + rest
  }

  /** The first character a JSON string body denotes, and what follows it. */
  function ReadChar(s: string): (r: Option<(char, string)>)
    ensures r.Some? ==> |r.value.1| < |s|
  {
    if s == [] then None
    else if s[0] < ' ' then None
    else if s[0] != '\\' then Some((s[0], s[1..]))
    else if |s| < 2 then None
    else if s[1] == '\"' then Some(('\"', s[2..]))
    else if s[1] == '\\' then Some(('\\', s[2..]))
    else if s[1] == 'n' then Some(('\n', s[2..]))
    else if s[1] == 'r' then Some(('\r', s[2..]))
    else if s[1] == 't' then Some(('\t', s[2..]))
    else if s[1] == 'b' then Some((8 as char, s[2..]))
    else if s[1] == 'f' then Some((12 as char, s[2..]))
    else if s[1] == 'u' && |s| >= 6 && s[2] == '0' && s[3] == '0' then
      match (HexValue(s[4]), HexValue(s[5]))
      case (Some(hi), Some(lo)) => Some(((hi * 16 + lo) as char, s[6..]))
      case _ => None
    else None
  }

  lemma HexRoundTrip(d: nat)
    requires d < 16
    ensures HexValue(HexDigit(d)) == Some(d)
  {}

  lemma CharRoundTrip(c: char, rest: string)
    ensures ReadChar(EscapeTo(c, rest)) == Some((c, rest))
    ensures EscapeTo(c, rest)[0] != '\"'
  {
    if c < ' ' {
      HexRoundTrip(c as int / 16);
      HexRoundTrip(c as int % 16);
      var hex := [HexDigit(c as int / 16), HexDigit(c as int % 16)];
      assert ("\\u00" + hex + rest)[6..] == rest;
    }
  }

  function StringTo(s: string, rest: string): string {
    if s == [] then ['\"'] + rest else EscapeTo(s[0], StringTo(s[1..], rest))
  }

  /** The string whose body, with its closing quote, starts `s`. */
  function ReadString(s: string): (r: Option<(string, string)>)
    ensures r.Some? ==> |r.value.1| < |s|
  {
    if s == [] then None
    else if s[0] == '\"' then Some(([], s[1..]))
    else
      match ReadChar(s)
      case None => None
      case Some((c, rest)) =>
        match ReadString(rest)
        case None => None
        case Some((tail, after)) => Some(([c] + tail, after))
  }

  lemma {:induction false} StringRoundTrip(s: string, rest: string)
    ensures ReadString(StringTo(s, rest)) == Some((s, rest))
  {
    if s != [] {
      StringRoundTrip(s[1..], rest);
      CharRoundTrip(s[0], StringTo(s[1..], rest));
      assert s == [s[0]] + s[1..];
    } else {
      assert (['\"'] + rest)[1..] == rest;
    }
  }

  // ---------------------------------------------------------------- numbers

  predicate IsDigit(c: char) {
    '0' <= c <= '9'
  }

  function Digit(d: nat): char
    requires d < 10
  {
    "0123456789"[d]
  }

  function DigitsTo(n: nat, rest: string): string {
    if n < 10 then [Digit(n)] + rest else DigitsTo(n / 10, [Digit(n % 10)] + rest)
  }

  function ReadDigits(s: string, acc: nat): (r: (nat, string))
    ensures |r.1| <= |s|
    decreases |s|
  {
    if s == [] || !IsDigit(s[0]) then (acc, s)
    else ReadDigits(s[1..], acc * 10 + (s[0] as int - '0' as int))
  }

  lemma {:induction false} DigitsRoundTrip(n: nat, rest: string)
    ensures ReadDigits(DigitsTo(n, rest), 0) == ReadDigits(rest, n)
    ensures DigitsTo(n, rest) != [] && IsDigit(DigitsTo(n, rest)[0])
    decreases n
  {
    if n < 10 {
      assert ([Digit(n)] + rest)[1..] == rest;
    } else {
      var more := [Digit(n % 10)] + rest;
      DigitsRoundTrip(n / 10, more);
      assert more[1..] == rest;
    }
  }

  // ---------------------------------------------------------------- the printer

  /** The compact text of a value followed by `rest`; dictionaries keep their field order. */
  function PrintTo(v: Json, rest: string): string
    decreases v, 1
  {
    match v
    case Null => "null" + rest
    case Bool(b) => if b then "true" + rest else "false" + rest
    case Int(n) => if n < 0 then ['-'] + DigitsTo(-n, rest) else DigitsTo(n, rest)
    case Str(s) => ['\"'] + StringTo(s, rest)
    case List(items) => ['['] + ItemsTo(items, rest)
    case Dict(fields) => ['{'] + FieldsTo(fields, rest)
    case Float => rest
    case Foreign => rest
  }

  function ItemsTo(items: seq<Json>, rest: string): string
    decreases items, 0
  {
    if items == [] then [']'] + rest
    else PrintTo(items[0], if |items| == 1 then [']'] + rest else [','] + ItemsTo(items[1..], rest))
  }

  function NameText(n: Name): string {
    match n
    case Text(t) => t
    case NotText => []
  }

  function FieldsTo(fields: seq<Field>, rest: string): string
    decreases fields, 0
  {
    if fields == [] then ['}'] + rest
    else FieldTo(fields[0], if |fields| == 1 then ['}'] + rest else [','] + FieldsTo(fields[1..], rest))
  }

  function FieldTo(f: Field, rest: string): string
    decreases f, 1
  {
    ['\"'] + StringTo(NameText(f.name), [':'] + PrintTo(f.value, rest))
  }

  // ---------------------------------------------------------------- the parser

  function ReadLiteral(s: string, word: string, v: Json): Option<(Json, string)> {
    if word <= s then Some((v, s[|word|..])) else None
  }

  function Parse(s: string): (r: Option<(Json, string)>)
    ensures r.Some? ==> |r.value.1| < |s|
    decreases |s|, 1
  {
    if s == [] then None
    else if s[0] == 'n' then ReadLiteral(s, "null", Null)
    else if s[0] == 't' then ReadLiteral(s, "true", Bool(true))
    else if s[0] == 'f' then ReadLiteral(s, "false", Bool(false))
    else if s[0] == '\"' then
      (match ReadString(s[1..]) case None => None case Some((t, rest)) => Some((Str(t), rest)))
    else if s[0] == '[' then
      if |s| > 1 && s[1] == ']' then Some((List([]), s[2..]))
      else (match ParseItems(s[1..]) case None => None case Some((items, rest)) => Some((List(items), rest)))
    else if s[0] == '{' then
      if |s| > 1 && s[1] == '}' then Some((Dict([]), s[2..]))
      else (match ParseFields(s[1..]) case None => None case Some((fields, rest)) => Some((Dict(fields), rest)))
    else if s[0] == '-' then
      if |s| > 1 && IsDigit(s[1]) then var d := ReadDigits(s[1..], 0); Some((Int(-(d.0 as int)), d.1)) else None
    else if IsDigit(s[0]) then var (n, rest) := ReadDigits(s[1..], s[0] as int - '0' as int); Some((Int(n), rest))
    else None
  }

  function ParseItems(s: string): (r: Option<(seq<Json>, string)>)
    ensures r.Some? ==> |r.value.1| < |s|
    decreases |s|, 2
  {
    match Parse(s)
    case None => None
    case Some((v, rest)) =>
      if rest == [] then None
      else if rest[0] == ']' then Some(([v], rest[1..]))
      else if rest[0] == ',' then
        (match ParseItems(rest[1..]) case None => None case Some((more, after)) => Some(([v] + more, after)))
      else None
  }

  function ParseFields(s: string): (r: Option<(seq<Field>, string)>)
    ensures r.Some? ==> |r.value.1| < |s|
    decreases |s|, 3
  {
    match ParseField(s)
    case None => None
    case Some((f, rest)) =>
      if rest == [] then None
      else if rest[0] == '}' then Some(([f], rest[1..]))
      else if rest[0] == ',' then
        (match ParseFields(rest[1..]) case None => None case Some((more, after)) => Some(([f] + more, after)))
      else None
  }

  function ParseField(s: string): (r: Option<(Field, string)>)
    ensures r.Some? ==> |r.value.1| < |s|
    decreases |s|, 2
  {
    if s == [] || s[0] != '\"' then None
    else
      match ReadString(s[1..])
      case None => None
      case Some((name, after)) =>
        if after == [] || after[0] != ':' then None
        else
          match Parse(after[1..])
          case None => None
          case Some((v, rest)) => Some((Field(Text(name), v), rest))
  }

  /** A value of the JSON kinds only. */
  predicate Plain(v: Json)
    decreases v, 1
  {
    match v
    case Float => false
    case Foreign => false
    case List(items) => PlainItems(items)
    case Dict(fields) => PlainFields(fields)
    case _ => true
  }

  predicate PlainItems(items: seq<Json>)
    decreases items, 0
  {
    items == [] || (Plain(items[0]) && PlainItems(items[1..]))
  }

  predicate PlainFields(fields: seq<Field>)
    decreases fields, 0
  {
    fields == [] || (PlainField(fields[0]) && PlainFields(fields[1..]))
  }

  predicate PlainField(f: Field)
    decreases f, 1
  {
    f.name.Text? && Plain(f.value)
  }

  /** Text that cannot extend a number. */
  predicate Stops(rest: string) {
    rest == [] || !IsDigit(rest[0])
  }

  lemma IntRoundTrip(n: int, rest: string)
    requires Stops(rest)
    ensures Parse(PrintTo(Int(n), rest)) == Some((Int(n), rest))
    ensures PrintTo(Int(n), rest)[0] == '-' || IsDigit(PrintTo(Int(n), rest)[0])
  {
    var m := if n < 0 then -n else n;
    DigitsRoundTrip(m, rest);
    var text := DigitsTo(m, rest);
    assert (['-'] + text)[1..] == text;
    assert ReadDigits(text, 0) == ReadDigits(text[1..], text[0] as int - '0' as int);
  }

  lemma LiteralRoundTrip(rest: string)
    ensures Parse("null" + rest) == Some((Null, rest))
    ensures Parse("true" + rest) == Some((Bool(true), rest))
    ensures Parse("false" + rest) == Some((Bool(false), rest))
  {
    assert ("null" + rest)[4..] == rest;
    assert ("true" + rest)[4..] == rest;
    assert ("false" + rest)[5..] == rest;
  }

  lemma StrRoundTrip(t: string, rest: string)
    ensures Parse(PrintTo(Str(t), rest)) == Some((Str(t), rest))
  {
    StringRoundTrip(t, rest);
    assert (['\"'] + StringTo(t, rest))[1..] == StringTo(t, rest);
  }

  /** The parser reads back exactly what the printer wrote and stops where the printer stopped. */
  lemma {:induction false} PrintRoundTrip(v: Json, rest: string)
    requires Plain(v) && Stops(rest)
    ensures Parse(PrintTo(v, rest)) == Some((v, rest))
    ensures PrintTo(v, rest)[0] != ']' && PrintTo(v, rest)[0] != '}'
    decreases v, 1
  {
    match v
    case Null => LiteralRoundTrip(rest);
    case Bool(b) => LiteralRoundTrip(rest);
    case Int(n) => IntRoundTrip(n, rest);
    case Str(t) => StrRoundTrip(t, rest);
    case List(items) => ListRoundTrip(items, rest);
    case Dict(fields) => DictRoundTrip(fields, rest);
  }

  lemma {:induction false} ListRoundTrip(items: seq<Json>, rest: string)
    requires PlainItems(items) && Stops(rest)
    ensures Parse(PrintTo(List(items), rest)) == Some((List(items), rest))
    decreases items, 1
  {
    var text := ['['] + ItemsTo(items, rest);
    assert text[1..] == ItemsTo(items, rest);
    if items == [] {
      assert text[2..] == rest;
    } else {
      ItemsRoundTrip(items, rest);
    }
  }

  lemma {:induction false} DictRoundTrip(fields: seq<Field>, rest: string)
    requires PlainFields(fields) && Stops(rest)
    ensures Parse(PrintTo(Dict(fields), rest)) == Some((Dict(fields), rest))
    decreases fields, 1
  {
    var text := ['{'] + FieldsTo(fields, rest);
    assert text[1..] == FieldsTo(fields, rest);
    if fields == [] {
      assert text[2..] == rest;
    } else {
      FieldsRoundTrip(fields, rest);
    }
  }

  lemma {:induction false} ItemsRoundTrip(items: seq<Json>, rest: string)
    requires items != [] && PlainItems(items) && Stops(rest)
    ensures ParseItems(ItemsTo(items, rest)) == Some((items, rest))
    ensures ItemsTo(items, rest)[0] != ']'
    decreases items, 0
  {
    if |items| == 1 {
      PrintRoundTrip(items[0], [']'] + rest);
      assert ([']'] + rest)[1..] == rest;
      assert items == [items[0]];
    } else {
      var more := [','] + ItemsTo(items[1..], rest);
      PrintRoundTrip(items[0], more);
      ItemsRoundTrip(items[1..], rest);
      assert more[1..] == ItemsTo(items[1..], rest);
      assert items == [items[0]] + items[1..];
    }
  }

  lemma {:induction false} FieldRoundTrip(f: Field, rest: string)
    requires PlainField(f) && Stops(rest)
    ensures ParseField(FieldTo(f, rest)) == Some((f, rest))
    ensures FieldTo(f, rest)[0] == '\"'
    decreases f, 1
  {
    var after := [':'] + PrintTo(f.value, rest);
    PrintRoundTrip(f.value, rest);
    StringRoundTrip(f.name.text, after);
    var body := StringTo(f.name.text, after);
    assert (['\"'] + body)[1..] == body && after[1..] == PrintTo(f.value, rest);
  }

  lemma {:induction false} FieldsRoundTrip(fields: seq<Field>, rest: string)
    requires fields != [] && PlainFields(fields) && Stops(rest)
    ensures ParseFields(FieldsTo(fields, rest)) == Some((fields, rest))
    ensures FieldsTo(fields, rest)[0] != '}'
    decreases fields, 0
  {
    if |fields| == 1 {
      FieldRoundTrip(fields[0], ['}'] + rest);
      assert (['}'] + rest)[1..] == rest;
      assert fields == [fields[0]];
    } else {
      var more := [','] + FieldsTo(fields[1..], rest);
      FieldRoundTrip(fields[0], more);
      FieldsRoundTrip(fields[1..], rest);
      assert more[1..] == FieldsTo(fields[1..], rest);
      assert fields == [fields[0]] + fields[1..];
    }
  }
}

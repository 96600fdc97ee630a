/** The fixed form of a timestamp: UTC, six digits of a second, and a final Z. */
module UtcStamp {
  import opened Common

  datatype Fields = Fields(year: nat, month: nat, day: nat, hour: nat, minute: nat, second: nat, micro: nat)

  predicate IsLeap(year: nat) {
    year % 4 == 0 && (year % 100 != 0 || year % 400 == 0)
  }

  function DaysIn(year: nat, month: nat): nat {
    if month == 2 then (if IsLeap(year) then 29 else 28)
    else if month in {4, 6, 9, 11} then 30
    else 31
  }

  predicate ValidFields(m: Fields) {
    && 1 <= m.year <= 9999 && 1 <= m.month <= 12 && 1 <= m.day <= DaysIn(m.year, m.month)
    && m.hour < 24 && m.minute < 60 && m.second < 60 && m.micro < 1_000_000
  }

  /** A UTC date and time, as the host language's datetime can hold it. */
  type Moment = m: Fields | ValidFields(m) witness Fields(1, 1, 1, 0, 0, 0, 0)

  // ---------------------------------------------------------------- numbers of fixed width

  predicate IsDigit(c: char) {
    '0' <= c <= '9'
  }

  function Pow10(w: nat): nat {
    if w == 0 then 1 else 10 * Pow10(w - 1)
  }

  /** `n` in `w` digits, followed by `rest`. */
  function NumTo(n: nat, w: nat, rest: string): string {
    if w == 0 then rest else NumTo(n / 10, w - 1, [(n % 10 + '0' as int) as char] + rest)
  }

  /** The number in the first `w` characters, which must be digits, continuing `n`. */
  function ReadNum(s: string, w: nat, n: nat): Option<(nat, string)> {
    if w == 0 then Some((n, s))
    else if s == "" || !IsDigit(s[0]) then None
    else ReadNum(s[1..], w - 1, 10 * n + (s[0] as int - '0' as int))
  }

  lemma {:induction false} ReadNumMore(s: string, w: nat, n: nat)
    ensures ReadNum(s, w + 1, n) ==
      match ReadNum(s, w, n)
      case None => None
      case Some((m, rest)) =>
        if rest == "" || !IsDigit(rest[0]) then None else Some((10 * m + (rest[0] as int - '0' as int), rest[1..]))
  {
    if w == 0 {
      assert s != "" && IsDigit(s[0]) ==>
        ReadNum(s, 1, n) == ReadNum(s[1..], 0, 10 * n + (s[0] as int - '0' as int));
    } else if s == "" || !IsDigit(s[0]) {
    } else {
      ReadNumMore(s[1..], w - 1, 10 * n + (s[0] as int - '0' as int));
    }
  }

  lemma {:induction false} NumRoundTrip(n: nat, w: nat, rest: string)
    requires n < Pow10(w)
    ensures ReadNum(NumTo(n, w, rest), w, 0) == Some((n, rest))
  {
    if w == 0 {
    } else {
      var digit := (n % 10 + '0' as int) as char;
      NumRoundTrip(n / 10, w - 1, [digit] + rest);
      ReadNumMore(NumTo(n, w, rest), w - 1, 0);
      assert ([digit] + rest)[1..] == rest;
    }
  }

  // ---------------------------------------------------------------- the fixed form

  function FixedTo(m: Fields, rest: string): string {
    NumTo(m.year, 4, "-" + NumTo(m.month, 2, "-" + NumTo(m.day, 2, "T" + TimeTo(m, rest))))
  }

  function TimeTo(m: Fields, rest: string): string {
    NumTo(m.hour, 2, ":" + NumTo(m.minute, 2, ":" + NumTo(m.second, 2, "." + NumTo(m.micro, 6, rest))))
  }

  /** A number of `w` digits and then the character `c`. */
  function ReadPart(s: string, w: nat, c: char): Option<(nat, string)> {
    match ReadNum(s, w, 0)
    case None => None
    case Some((n, rest)) => if rest == "" || rest[0] != c then None else Some((n, rest[1..]))
  }

  /** The fields of a text in the fixed form, whether or not they make a date, and what follows. */
  function ReadFixed(s: string): Option<(Fields, string)> {
    match ReadPart(s, 4, '-') case None => None case Some((year, s)) =>
    match ReadPart(s, 2, '-') case None => None case Some((month, s)) =>
    match ReadPart(s, 2, 'T') case None => None case Some((day, s)) =>
    match ReadTime(s) case None => None case Some((t, s)) =>
      Some((t.(year := year, month := month, day := day), s))
  }

  function ReadTime(s: string): Option<(Fields, string)> {
    match ReadPart(s, 2, ':') case None => None case Some((hour, s)) =>
    match ReadPart(s, 2, ':') case None => None case Some((minute, s)) =>
    match ReadPart(s, 2, '.') case None => None case Some((second, s)) =>
    match ReadNum(s, 6, 0) case None => None case Some((micro, s)) =>
      Some((Fields(0, 0, 0, hour, minute, second, micro), s))
  }

  lemma PartRoundTrip(n: nat, w: nat, c: char, rest: string)
    requires n < Pow10(w)
    ensures ReadPart(NumTo(n, w, [c] + rest), w, c) == Some((n, rest))
  {
    NumRoundTrip(n, w, [c] + rest);
    assert ([c] + rest)[1..] == rest;
  }

  lemma Powers()
    ensures Pow10(2) == 100 && Pow10(4) == 10_000 && Pow10(6) == 1_000_000
  {
    assert Pow10(1) == 10;
    assert Pow10(3) == 1000 && Pow10(5) == 100_000;
  }

  /** Every field has the digits it is printed with. */
  predicate Fits(m: Fields) {
    && m.year < 10_000 && m.month < 100 && m.day < 100
    && m.hour < 100 && m.minute < 100 && m.second < 100 && m.micro < 1_000_000
  }

  lemma TimeRoundTrip(m: Fields, rest: string)
    requires Fits(m)
    ensures ReadTime(TimeTo(m, rest)) == Some((Fields(0, 0, 0, m.hour, m.minute, m.second, m.micro), rest))
  {
    Powers();
    NumRoundTrip(m.micro, 6, rest);
    var s1 := NumTo(m.micro, 6, rest);
    PartRoundTrip(m.second, 2, '.', s1);
    var s2 := NumTo(m.second, 2, "." + s1);
    PartRoundTrip(m.minute, 2, ':', s2);
    PartRoundTrip(m.hour, 2, ':', NumTo(m.minute, 2, ":" + s2));
  }

  /** What is printed is read back, whatever follows it. */
  lemma FixedRoundTrip(m: Fields, rest: string)
    requires Fits(m)
    ensures ReadFixed(FixedTo(m, rest)) == Some((m, rest))
  {
    Powers();
    TimeRoundTrip(m, rest);
    var s1 := TimeTo(m, rest);
    PartRoundTrip(m.day, 2, 'T', s1);
    var s2 := NumTo(m.day, 2, "T" + s1);
    PartRoundTrip(m.month, 2, '-', s2);
    PartRoundTrip(m.year, 4, '-', NumTo(m.month, 2, "-" + s2));
  }

  // ---------------------------------------------------------------- the rewriting of a timestamp

  /** What the host's ISO parser makes of a text that claims an offset of zero. Texts in the fixed
      form are read here; what other forms it accepts, and as what moment, is left to `iso`. */
  function ParseUtc(raw: string, iso: string -> Option<Moment>): Option<Moment> {
    match ReadFixed(raw)
    case Some((m, rest)) => if rest == "+00:00" then (if ValidFields(m) then Some(m) else None) else iso(raw)
    case None => iso(raw)
  }

  /** `_canonical_timestamp` */
  function Stamp(value: string, iso: string -> Option<Moment>): Option<string> {
    if value == "" || value[|value| - 1] != 'Z' then None
    else
      match ParseUtc(value[..|value| - 1] + "+00:00", iso)
      case None => None
      case Some(m) => Some(FixedTo(m, "Z"))
  }

  predicate Ascii(s: string) {
    forall k :: 0 <= k < |s| ==> s[k] as int <= 0x7F
  }

  lemma {:induction false} NumAscii(n: nat, w: nat, rest: string)
    requires Ascii(rest)
    ensures Ascii(NumTo(n, w, rest))
  {
    if w == 0 {
    } else {
      NumAscii(n / 10, w - 1, [(n % 10 + '0' as int) as char] + rest);
    }
  }

  lemma {:induction false} NumApart(n: nat, w: nat, front: string, rest: string)
    ensures NumTo(n, w, front + rest) == NumTo(n, w, front) + rest
  {
    if w == 0 {
    } else {
      var digit := (n % 10 + '0' as int) as char;
      NumApart(n / 10, w - 1, [digit] + front, rest);
      assert [digit] + (front + rest) == ([digit] + front) + rest;
    }
  }

  lemma TimeIsPlain(m: Fields, rest: string)
    requires Ascii(rest)
    ensures Ascii(TimeTo(m, rest)) && TimeTo(m, rest) == TimeTo(m, "") + rest
  {
    NumApart(m.micro, 6, "", rest);
    assert "" + rest == rest;
    NumAscii(m.micro, 6, rest);
    PartApart(m.second, 2, '.', NumTo(m.micro, 6, ""), rest);
    PartApart(m.minute, 2, ':', NumTo(m.second, 2, "." + NumTo(m.micro, 6, "")), rest);
    PartApart(m.hour, 2, ':', NumTo(m.minute, 2, ":" + NumTo(m.second, 2, "." + NumTo(m.micro, 6, ""))), rest);
    NumAscii(m.second, 2, "." + NumTo(m.micro, 6, rest));
    NumAscii(m.minute, 2, ":" + NumTo(m.second, 2, "." + NumTo(m.micro, 6, rest)));
    NumAscii(m.hour, 2, ":" + NumTo(m.minute, 2, ":" + NumTo(m.second, 2, "." + NumTo(m.micro, 6, rest))));
  }

  lemma PartApart(n: nat, w: nat, c: char, front: string, rest: string)
    ensures NumTo(n, w, [c] + (front + rest)) == NumTo(n, w, [c] + front) + rest
  {
    assert [c] + (front + rest) == ([c] + front) + rest;
    NumApart(n, w, [c] + front, rest);
  }

  lemma FixedIsPlain(m: Fields, rest: string)
    requires Ascii(rest)
    ensures Ascii(FixedTo(m, rest)) && FixedTo(m, rest) == FixedTo(m, "") + rest
  {
    TimeIsPlain(m, rest);
    var t := TimeTo(m, "");
    PartApart(m.day, 2, 'T', t, rest);
    PartApart(m.month, 2, '-', NumTo(m.day, 2, "T" + t), rest);
    PartApart(m.year, 4, '-', NumTo(m.month, 2, "-" + NumTo(m.day, 2, "T" + t)), rest);
    NumAscii(m.day, 2, "T" + TimeTo(m, rest));
    NumAscii(m.month, 2, "-" + NumTo(m.day, 2, "T" + TimeTo(m, rest)));
    NumAscii(m.year, 4, "-" + NumTo(m.month, 2, "-" + NumTo(m.day, 2, "T" + TimeTo(m, rest))));
  }

  /** A rewritten timestamp is ASCII, ends in Z, still denotes its moment, and is rewritten to
      itself, whatever other forms the parser accepts. */
  lemma StampIsFixed(value: string, iso: string -> Option<Moment>)
    requires Stamp(value, iso).Some?
    ensures var t := Stamp(value, iso).value;
      && Ascii(t) && t != "" && t[|t| - 1] == 'Z'
      && ParseUtc(t[..|t| - 1] + "+00:00", iso) == ParseUtc(value[..|value| - 1] + "+00:00", iso)
      && Stamp(t, iso) == Some(t)
  {
    var m := ParseUtc(value[..|value| - 1] + "+00:00", iso).value;
    var t := FixedTo(m, "Z");
    FixedIsPlain(m, "Z");
    FixedIsPlain(m, "+00:00");
    assert t[..|t| - 1] == FixedTo(m, "");
    FixedRoundTrip(m, "+00:00");
  }

  // ---------------------------------------------------------------- which timestamps are dates

  /** How many leap years there are up to and with this one. */
  function LeapYears(year: nat): int {
    year / 4 - year / 100 + year / 400
  }

  /** The twelve months of a year, February with the leap day the year adds. */
  function Months(year: nat): seq<int>
    requires year >= 1
  {
    [31, 28 + LeapYears(year) - LeapYears(year - 1), 31, 30, 31, 30, 31, 31, 30, 31, 30, 31]
  }

  lemma EveryFourth(year: nat)
    requires year >= 1
    ensures year / 4 - (year - 1) / 4 == if year % 4 == 0 then 1 else 0
  {}

  lemma EveryCentury(year: nat)
    requires year >= 1
    ensures year / 100 - (year - 1) / 100 == if year % 100 == 0 then 1 else 0
  {
    var q, r := (year - 1) / 100, (year - 1) % 100;
    assert year == 100 * q + r + 1;
  }

  lemma EveryFourthCentury(year: nat)
    requires year >= 1
    ensures year / 400 - (year - 1) / 400 == if year % 400 == 0 then 1 else 0
  {
    var q, r := (year - 1) / 400, (year - 1) % 400;
    assert year == 400 * q + r + 1;
  }

  lemma CenturiesAreFourths(year: nat)
    requires year % 100 == 0
    ensures year % 4 == 0
  {
    var q := 25 * (year / 100);
    assert year == 4 * q;
  }

  lemma FourthCenturiesAreCenturies(year: nat)
    requires year % 400 == 0
    ensures year % 100 == 0
  {
    var q := 4 * (year / 400);
    assert year == 100 * q;
  }

  lemma LeapYearsAddUp(year: nat)
    requires year >= 1
    ensures LeapYears(year) - LeapYears(year - 1) == if IsLeap(year) then 1 else 0
  {
    EveryFourth(year);
    EveryCentury(year);
    EveryFourthCentury(year);
    if year % 100 == 0 {
      CenturiesAreFourths(year);
    }
    if year % 400 == 0 {
      FourthCenturiesAreCenturies(year);
    }
  }

  /** A day of the Gregorian calendar and a time of it, to the microsecond. */
  predicate IsDate(m: Fields) {
    && 1 <= m.year <= 9999 && 1 <= m.month <= 12 && 1 <= m.day <= Months(m.year)[m.month - 1]
    && m.hour <= 23 && m.minute <= 59 && m.second <= 59
  }

  lemma DatesAreMoments(m: Fields)
    requires Fits(m)
    ensures IsDate(m) <==> ValidFields(m)
  {
    if 1 <= m.year && 1 <= m.month <= 12 {
      LeapYearsAddUp(m.year);
      MonthsHaveTheirDays(m.year, m.month);
    }
  }

  lemma MonthsHaveTheirDays(year: nat, month: nat)
    requires year >= 1 && 1 <= month <= 12 && LeapYears(year) - LeapYears(year - 1) == if IsLeap(year) then 1 else 0
    ensures Months(year)[month - 1] == DaysIn(year, month)
  {}

  /** A timestamp printed in the fixed form is accepted, as it is, exactly when it is a date; and
      nothing is accepted without the final Z. */
  lemma StampExactlyWhen(m: Fields, value: string, iso: string -> Option<Moment>)
    ensures Fits(m) ==> Stamp(FixedTo(m, "Z"), iso) == if IsDate(m) then Some(FixedTo(m, "Z")) else None
    ensures Stamp(value, iso).Some? ==> value != "" && value[|value| - 1] == 'Z'
  {
    if Fits(m) {
      var t := FixedTo(m, "Z");
      FixedIsPlain(m, "Z");
      FixedIsPlain(m, "+00:00");
      assert t[..|t| - 1] == FixedTo(m, "");
      FixedRoundTrip(m, "+00:00");
      DatesAreMoments(m);
    }
  }
}

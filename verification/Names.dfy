/** Report file names: a report name and a time stamp, and how they are told apart again. */
module Names {
  import opened Text
  import opened Order

  // ---------------------------------------------------------------- time stamps

  /** A wall-clock time with its fraction of a second. */
  datatype Stamp = Stamp(year: nat, month: nat, day: nat, hour: nat, minute: nat, second: nat, nanos: nat)

  /** Go's zero time, which stands for "no time". */
  const ZERO_TIME := Stamp(1, 1, 1, 0, 0, 0, 0)

  function DaysIn(year: nat, month: nat): nat {
    if month == 2 then (if year % 4 == 0 && (year % 100 != 0 || year % 400 == 0) then 29 else 28)
    else if month in {4, 6, 9, 11} then 30
    else 31
  }

  /** February has a day more in the years in which the number of leap years so far grows. */
  lemma {:induction false} LeapDays(y: nat)
    requires y > 0
    ensures DaysIn(y, 2) == 28 + ((y / 4 - y / 100 + y / 400) - ((y - 1) / 4 - (y - 1) / 100 + (y - 1) / 400))
  {
    FourMore(y);
    HundredMore(y);
    FourHundredMore(y);
    Divides(y);
    SumOfThree(y / 4, (y - 1) / 4, y / 100, (y - 1) / 100, y / 400, (y - 1) / 400);
  }

  lemma {:induction false} SumOfThree(a: int, a': int, b: int, b': int, c: int, c': int)
    ensures (a - b + c) - (a' - b' + c') == (a - a') - (b - b') + (c - c')
  {}

  lemma {:induction false} Divides(y: nat)
    ensures (y % 400 == 0 ==> y % 100 == 0) && (y % 100 == 0 ==> y % 4 == 0)
  {
    Hundreds(y / 400);
    Fours(y / 100);
    if y % 400 == 0 {
      assert y == 100 * (4 * (y / 400));
    }
    if y % 100 == 0 {
      assert y == 4 * (25 * (y / 100));
    }
  }

  lemma {:induction false} Hundreds(q: nat)
    ensures (100 * (4 * q)) % 100 == 0
  {}

  lemma {:induction false} Fours(q: nat)
    ensures (4 * (25 * q)) % 4 == 0
  {}

  lemma {:induction false} FourMore(y: nat)
    requires y > 0
    ensures y / 4 == (y - 1) / 4 + if y % 4 == 0 then 1 else 0
  {}

  lemma {:induction false} HundredMore(y: nat)
    requires y > 0
    ensures y / 100 == (y - 1) / 100 + if y % 100 == 0 then 1 else 0
  {}

  lemma {:induction false} FourHundredMore(y: nat)
    requires y > 0
    ensures y / 400 == (y - 1) / 400 + if y % 400 == 0 then 1 else 0
  {}

  predicate Real(t: Stamp) {
    && t.year < 10000 && 1 <= t.month <= 12 && 1 <= t.day <= DaysIn(t.year, t.month)
    && t.hour < 24 && t.minute < 60 && t.second < 60 && t.nanos < 1000000000
  }

  /** The order of time.Before. */
  function Instant(t: Stamp): nat {
    (((((t.year * 13 + t.month) * 32 + t.day) * 24 + t.hour) * 60 + t.minute) * 60 + t.second) * 1000000000 + t.nanos
  }

  /** Which of two times comes first, part by part. */
  predicate Earlier(a: Stamp, b: Stamp) {
    if a.year != b.year then a.year < b.year
    else if a.month != b.month then a.month < b.month
    else if a.day != b.day then a.day < b.day
    else if a.hour != b.hour then a.hour < b.hour
    else if a.minute != b.minute then a.minute < b.minute
    else if a.second != b.second then a.second < b.second
    else a.nanos < b.nanos
  }

  /** The instants of real times are in the order of their parts, and no two times share one. */
  lemma {:induction false} InstantOrder(a: Stamp, b: Stamp)
    requires Real(a) && Real(b)
    ensures Instant(a) < Instant(b) <==> Earlier(a, b)
    ensures Instant(a) == Instant(b) <==> a == b
  {}

  function Digit(n: nat): char
    requires n < 10
  {
    '0' + n as char
  }

  function Value(c: char): nat
    requires IsDigit(c)
  {
    (c - '0') as nat
  }

  function Pad2(n: nat): string
    requires n < 100
  {
    [Digit(n / 10), Digit(n % 10)]
  }

  function Pad4(n: nat): string
    requires n < 10000
  {
    Pad2(n / 100) + Pad2(n % 100)
  }

  function FormatDate(t: Stamp): string
    requires Real(t)
  {
    Pad4(t.year) + "-" + Pad2(t.month) + "-" + Pad2(t.day)
  }

  /** The time of day; current file names use '-' between the parts, legacy ones ':'. */
  function FormatClock(t: Stamp, sep: char): string
    requires Real(t)
  {
    Pad2(t.hour) + [sep] + Pad2(t.minute) + [sep] + Pad2(t.second)
  }

  /** time.Format with the layout of report names. */
  function FormatTime(t: Stamp): string
    requires Real(t)
  {
    FormatDate(t) + "_" + FormatClock(t, '-')
  }

  // ---------------------------------------------------------------- reading time stamps

  /** Exactly two digits. */
  function Two(s: string): Option<nat> {
    if |s| == 2 && IsDigit(s[0]) && IsDigit(s[1]) then Some(10 * Value(s[0]) + Value(s[1])) else None
  }

  /** "2006-01-02". */
  function ParseDate(s: string): Option<(nat, nat, nat)> {
    if |s| != 10 || s[4] != '-' || s[7] != '-' then None
    else
      match (Two(s[..2]), Two(s[2..4]), Two(s[5..7]), Two(s[8..]))
      case (Some(y1), Some(y2), Some(month), Some(day)) => Some((100 * y1 + y2, month, day))
      case _ => None
  }

  /** The length of the hour field: Go accepts one digit or two. */
  function HourLength(s: string): nat {
    if |s| >= 2 && IsDigit(s[1]) then 2 else 1
  }

  /** "15-04-05" or "15:04:05", with a one-digit hour and a fraction of a second tolerated as Go does. */
  function ParseClock(s: string, sep: char): Option<(nat, nat, nat, nat)> {
    var n := HourLength(s);
    if |s| < n + 6 || s[n] != sep || s[n + 3] != sep then None
    else
      var hour := if n == 2 then s[..2] else "0" + s[..1];
      match (Two(hour), Two(s[n + 1..n + 3]), Two(s[n + 4..n + 6]), ParseFraction(s[n + 6..]))
      case (Some(h), Some(mi), Some(sec), Some(nanos)) => Some((h, mi, sec, nanos))
      case _ => None
  }

  function ParseFraction(s: string): Option<nat> {
    if s == "" then Some(0)
    else if |s| >= 2 && s[0] in {'.', ','} && forall i :: 1 <= i < |s| ==> IsDigit(s[i]) then Some(Nanos(s[1..], 9))
    else None
  }

  /** The first `places` digits after the point, as billionths. */
  function Nanos(digits: string, places: nat): nat
    requires forall c :: c in digits ==> IsDigit(c)
  {
    if places == 0 then 0
    else if digits == "" then 0
    else Value(digits[0]) * Power10(places - 1) + Nanos(digits[1..], places - 1)
  }

  function Power10(n: nat): nat {
    if n == 0 then 1 else 10 * Power10(n - 1)
  }

  /** A one-digit hour is read as itself, and so is a fraction of up to nine digits. */
  lemma {:induction false} ShortHourRead(hour: nat, minute: nat, second: nat, digits: string, sep: char)
    requires hour < 10 && minute < 60 && second < 60 && !IsDigit(sep)
    requires |digits| <= 9 && forall i :: 0 <= i < |digits| ==> IsDigit(digits[i])
    ensures ParseClock([Digit(hour)] + [sep] + Pad2(minute) + [sep] + Pad2(second), sep)
         == Some((hour, minute, second, 0))
    ensures digits != "" ==>
      ParseFraction("." + digits) == Some(Number(digits) * Power10(9 - |digits|)) == ParseFraction("," + digits)
  {
    Pad2Shape(minute);
    Pad2Shape(second);
    var s := [Digit(hour)] + [sep] + Pad2(minute) + [sep] + Pad2(second);
    assert HourLength(s) == 1 && s[2..4] == Pad2(minute) && s[5..7] == Pad2(second) && s[7..] == "";
    assert "0" + s[..1] == Pad2(hour);
    Pad2Shape(hour);
    if digits != "" {
      assert ("." + digits)[1..] == digits && ("," + digits)[1..] == digits;
      NanosOf(digits, 9);
    }
  }

  /** The number that digits write. */
  function Number(digits: string): nat
    requires forall i :: 0 <= i < |digits| ==> IsDigit(digits[i])
  {
    if digits == "" then 0 else Value(digits[0]) * Power10(|digits| - 1) + Number(digits[1..])
  }

  lemma {:induction false} NanosOf(digits: string, places: nat)
    requires |digits| <= places && forall i :: 0 <= i < |digits| ==> IsDigit(digits[i])
    ensures Nanos(digits, places) == Number(digits) * Power10(places - |digits|)
  {
    hide Nanos, Number, Power10;
    if digits == "" {
      NanosOfNothing(places);
    } else {
      NanosOf(digits[1..], places - 1);
      var d, k := Value(digits[0]), places - |digits|;
      PowerSum(|digits| - 1, k);
      Distribute(d, Power10(|digits| - 1), Power10(k), Number(digits[1..]));
      NanosStep(digits, places);
    }
  }

  lemma {:induction false} NanosOfNothing(places: nat)
    ensures Nanos("", places) == 0 && Number("") == 0
  {}

  lemma {:induction false} NanosStep(digits: string, places: nat)
    requires 0 < |digits| <= places && forall i :: 0 <= i < |digits| ==> IsDigit(digits[i])
    ensures Nanos(digits, places) == Value(digits[0]) * Power10(places - 1) + Nanos(digits[1..], places - 1)
    ensures Number(digits) == Value(digits[0]) * Power10(|digits| - 1) + Number(digits[1..])
  {}

  lemma {:induction false} Distribute(d: nat, p: nat, q: nat, r: nat)
    ensures d * (p * q) + r * q == (d * p + r) * q
  {}

  lemma {:induction false} PowerSum(a: nat, b: nat)
    ensures Power10(a + b) == Power10(a) * Power10(b)
  {
    if a > 0 {
      PowerSum(a - 1, b);
    }
  }

  function CutBlanks(s: string): string {
    if s != "" && s[0] == ' ' then CutBlanks(s[1..]) else s
  }

  /** time.Parse of a date, a blank and a time of day; one blank of a layout stands for any number of them. */
  function ParseStamp(value: string, sep: char): Option<Stamp> {
    if |value| < 11 || value[10] != ' ' then None
    else Moment(ParseDate(value[..10]), ParseClock(CutBlanks(value[10..]), sep))
  }

  function Moment(date: Option<(nat, nat, nat)>, clock: Option<(nat, nat, nat, nat)>): Option<Stamp> {
    match (date, clock)
    case (Some((y, mo, d)), Some((h, mi, sec, nanos))) =>
      var t := Stamp(y, mo, d, h, mi, sec, nanos);
      if Real(t) then Some(t) else None
    case _ => None
  }

  function ParseLayout(date: string, clock: string, sep: char): Option<Stamp> {
    ParseStamp(date + " " + clock, sep)
  }

  /** The blanks a time stamp tolerates: at the end of the date and before the time of day, and nowhere else. */
  lemma {:induction false} LayoutParts(date: string, clock: string, sep: char)
    requires |date| == 10 && clock != "" && clock[0] != ' '
    ensures forall blanks :: AllBlank(blanks) ==>
      && ParseLayout(date + blanks, clock, sep) == Moment(ParseDate(date), ParseClock(clock, sep))
      && ParseLayout(date, blanks + clock, sep) == Moment(ParseDate(date), ParseClock(clock, sep))
  {
    hide ParseDate, ParseClock;
    forall blanks | AllBlank(blanks)
      ensures ParseLayout(date + blanks, clock, sep) == Moment(ParseDate(date), ParseClock(clock, sep))
      ensures ParseLayout(date, blanks + clock, sep) == Moment(ParseDate(date), ParseClock(clock, sep))
    {
      var late, early := date + blanks + " " + clock, date + " " + (blanks + clock);
      CutBlanksOf(blanks + " ", clock);
      CutBlanksOf(" " + blanks, clock);
      assert late[..10] == date && late[10..] == blanks + " " + clock;
      assert early[..10] == date && early[10..] == " " + blanks + clock;
    }
  }

  predicate AllBlank(s: string) {
    forall i :: 0 <= i < |s| ==> s[i] == ' '
  }

  lemma {:induction false} CutBlanksOf(blanks: string, rest: string)
    requires AllBlank(blanks) && (rest != "" ==> rest[0] != ' ')
    ensures CutBlanks(blanks + rest) == rest
  {
    if blanks == "" {
      assert blanks + rest == rest;
    } else {
      assert (blanks + rest)[1..] == blanks[1..] + rest;
      CutBlanksOf(blanks[1..], rest);
    }
  }

  // ---------------------------------------------------------------- times in writing

  lemma {:induction false} LessPadded(m: nat, n: nat, x: string, y: string)
    requires m < 100 && n < 100
    ensures Less(Pad2(m) + x, Pad2(n) + y) <==> m < n || (m == n && Less(x, y))
  {
    var a, b := Pad2(m) + x, Pad2(n) + y;
    assert a[1..][1..] == x && b[1..][1..] == y;
    assert a[1..] != "" && b[1..] != "" && a[1..][0] == Digit(m % 10) && b[1..][0] == Digit(n % 10);
    assert Less(a[1..], b[1..]) <==> m % 10 < n % 10 || (m % 10 == n % 10 && Less(x, y));
  }

  lemma {:induction false} LessBehind(c: char, x: string, y: string)
    ensures Less([c] + x, [c] + y) <==> Less(x, y)
  {
    assert ([c] + x)[1..] == x && ([c] + y)[1..] == y;
  }

  lemma {:induction false} TimeInParts(t: Stamp)
    requires Real(t)
    ensures FormatTime(t) == Pad2(t.year / 100) + (Pad2(t.year % 100) + (['-'] + (Pad2(t.month) + (['-'] + (Pad2(t.day)
      + (['_'] + (Pad2(t.hour) + (['-'] + (Pad2(t.minute) + (['-'] + (Pad2(t.second) + "")))))))))))
  {
    hide Pad2;
  }

  /** File names of one report sort as strings in the order of their times. */
  lemma {:induction false} WrittenOrder(a: Stamp, b: Stamp)
    requires Real(a) && Real(b) && a.nanos == b.nanos
    ensures Less(FormatTime(a), FormatTime(b)) <==> Earlier(a, b)
  {
    hide FormatTime, Pad2, Less;
    TimeInParts(a);
    TimeInParts(b);
    var sa, sb := Pad2(a.second) + "", Pad2(b.second) + "";
    var ma, mb := Pad2(a.minute) + (['-'] + sa), Pad2(b.minute) + (['-'] + sb);
    var ha, hb := Pad2(a.hour) + (['-'] + ma), Pad2(b.hour) + (['-'] + mb);
    ClockOrder(a, b);
    LessPadded(a.day, b.day, ['_'] + ha, ['_'] + hb);
    LessBehind('_', ha, hb);
    var da, db := Pad2(a.day) + (['_'] + ha), Pad2(b.day) + (['_'] + hb);
    LessPadded(a.month, b.month, ['-'] + da, ['-'] + db);
    LessBehind('-', da, db);
    var na, nb := Pad2(a.month) + (['-'] + da), Pad2(b.month) + (['-'] + db);
    LessPadded(a.year % 100, b.year % 100, ['-'] + na, ['-'] + nb);
    LessBehind('-', na, nb);
    LessPadded(a.year / 100, b.year / 100, Pad2(a.year % 100) + (['-'] + na), Pad2(b.year % 100) + (['-'] + nb));
  }

  lemma {:induction false} ClockOrder(a: Stamp, b: Stamp)
    requires Real(a) && Real(b)
    ensures var sa, sb := Pad2(a.second) + "", Pad2(b.second) + "";
      var ma, mb := Pad2(a.minute) + (['-'] + sa), Pad2(b.minute) + (['-'] + sb);
      Less(Pad2(a.hour) + (['-'] + ma), Pad2(b.hour) + (['-'] + mb))
      <==> a.hour < b.hour || (a.hour == b.hour
             && (a.minute < b.minute || (a.minute == b.minute && a.second < b.second)))
  {
    hide Pad2, Less;
    var sa, sb := Pad2(a.second) + "", Pad2(b.second) + "";
    var ma, mb := Pad2(a.minute) + (['-'] + sa), Pad2(b.minute) + (['-'] + sb);
    LessPadded(a.second, b.second, "", "");
    LessIrreflexive("");
    LessPadded(a.minute, b.minute, ['-'] + sa, ['-'] + sb);
    LessBehind('-', sa, sb);
    LessPadded(a.hour, b.hour, ['-'] + ma, ['-'] + mb);
    LessBehind('-', ma, mb);
  }

  // ---------------------------------------------------------------- tokens of a file name

  function DropEmpty(parts: seq<string>): seq<string> {
    if parts == [] then []
    else DropEmpty(parts[..|parts| - 1]) + if parts[|parts| - 1] != "" then [parts[|parts| - 1]] else []
  }

  function Tokens(filename: string): seq<string> {
    DropEmpty(Split(filename, '_'))
  }

  /** The loop that filters the tokens. */
  method TokensOf(filename: string) returns (tok: seq<string>)
    ensures tok == Tokens(filename)
  {
    var parts := Split(filename, '_');
    tok := [];
    for i := 0 to |parts|
      invariant tok == DropEmpty(parts[..i])
    {
      assert parts[..i + 1][..i] == parts[..i];
      if parts[i] != "" {
        tok := tok + [parts[i]];
      }
    }
    assert parts[..|parts|] == parts;
  }

  function TimestampOf(tok: seq<string>): Stamp {
    if |tok| < 2 then ZERO_TIME
    else
      match ParseLayout(tok[|tok| - 2], tok[|tok| - 1], '-')
      case Some(t) => t
      case None =>
        match ParseLayout(tok[|tok| - 2], tok[|tok| - 1], ':')
        case Some(t) => t
        case None => ZERO_TIME
  }

  lemma {:induction false} TimestampReal(tok: seq<string>)
    ensures Real(TimestampOf(tok))
  {
    hide ParseDate, ParseClock;
  }

  function NameOf(filename: string, tok: seq<string>): string {
    if |tok| < 3 then filename else Join(tok[..|tok| - 2], '_')
  }

  method ParseReportTimestamp(filename: string) returns (t: Stamp)
    ensures t == TimestampOf(Tokens(filename))
  {
    hide ParseLayout, Tokens;
    var tok := TokensOf(filename);
    if |tok| < 2 {
      return ZERO_TIME;
    }
    var datePart, timePart := tok[|tok| - 2], tok[|tok| - 1];
    var layouts := ['-', ':'];
    for i := 0 to |layouts|
      invariant i >= 1 ==> ParseLayout(datePart, timePart, '-').None?
      invariant i >= 2 ==> ParseLayout(datePart, timePart, ':').None?
    {
      var r := ParseLayout(datePart, timePart, layouts[i]);
      if r.Some? {
        return r.value;
      }
    }
    t := ZERO_TIME;
  }

  method ExtractReportName(filename: string) returns (name: string)
    ensures name == NameOf(filename, Tokens(filename))
  {
    var tok := TokensOf(filename);
    if |tok| < 3 {
      return filename;
    }
    name := Join(tok[..|tok| - 2], '_');
  }

  // ---------------------------------------------------------------- round trips

  lemma {:induction false} DropEmptyAppend(a: seq<string>, b: seq<string>)
    ensures DropEmpty(a + b) == DropEmpty(a) + DropEmpty(b)
  {
    if b == [] {
      assert a + b == a;
    } else {
      assert (a + b)[..|a + b| - 1] == a + b[..|b| - 1];
      DropEmptyAppend(a, b[..|b| - 1]);
    }
  }

  lemma {:induction false} DropEmptyPieces(parts: seq<string>)
    ensures forall p :: p in DropEmpty(parts) ==> p != "" && p in parts
    ensures "" !in parts ==> DropEmpty(parts) == parts
  {
    if parts != [] {
      var init, last := parts[..|parts| - 1], parts[|parts| - 1];
      DropEmptyPieces(init);
      assert parts == init + [last];
    }
  }

  /** A file name ends in the tokens of its time. */
  lemma {:induction false} TokensOfFile(name: string, date: string, clock: string)
    requires date != "" && clock != "" && '_' !in date && '_' !in clock
    ensures Tokens(name + "_" + date + "_" + clock) == Tokens(name) + [date, clock]
  {
    SplitAppend(name + "_" + date, '_', clock);
    SplitAppend(name, '_', date);
    SplitWhole(date, '_');
    SplitWhole(clock, '_');
    DropEmptyAppend(Split(name, '_') + [date], [clock]);
    DropEmptyAppend(Split(name, '_'), [date]);
  }

  lemma {:induction false} Pad2Shape(n: nat)
    requires n < 100
    ensures |Pad2(n)| == 2 && Two(Pad2(n)) == Some(n) && forall c :: c in Pad2(n) ==> IsDigit(c)
  {}

  lemma {:induction false} DateRoundTrip(t: Stamp)
    requires Real(t)
    ensures ParseDate(FormatDate(t)) == Some((t.year, t.month, t.day))
    ensures |FormatDate(t)| == 10 && '_' !in FormatDate(t)
  {
    Pad2Shape(t.year / 100);
    Pad2Shape(t.year % 100);
    Pad2Shape(t.month);
    Pad2Shape(t.day);
    var s := FormatDate(t);
    assert s[..2] == Pad2(t.year / 100) && s[2..4] == Pad2(t.year % 100);
    assert s[5..7] == Pad2(t.month) && s[8..] == Pad2(t.day);
  }

  lemma {:induction false} ClockRoundTrip(t: Stamp, sep: char)
    requires Real(t) && !IsDigit(sep) && sep != '_'
    ensures ParseClock(FormatClock(t, sep), sep) == Some((t.hour, t.minute, t.second, 0))
    ensures FormatClock(t, sep) != "" && FormatClock(t, sep)[0] != ' ' && '_' !in FormatClock(t, sep)
  {
    Pad2Shape(t.hour);
    Pad2Shape(t.minute);
    Pad2Shape(t.second);
    var s := FormatClock(t, sep);
    assert HourLength(s) == 2;
    assert s[..2] == Pad2(t.hour) && s[3..5] == Pad2(t.minute) && s[6..8] == Pad2(t.second) && s[8..] == "";
  }

  lemma {:induction false} StampRoundTrip(t: Stamp, sep: char)
    requires Real(t) && t.nanos == 0 && !IsDigit(sep) && sep != '_'
    ensures ParseLayout(FormatDate(t), FormatClock(t, sep), sep) == Some(t)
  {
    hide FormatDate, FormatClock, ParseDate, ParseClock, ParseLayout;
    DateRoundTrip(t);
    ClockRoundTrip(t, sep);
    LayoutParts(FormatDate(t), FormatClock(t, sep), sep);
    assert AllBlank("") && FormatDate(t) + "" == FormatDate(t);
  }

  /** A legacy time stamp is none of the current layout. */
  lemma {:induction false} ColonFirst(t: Stamp)
    requires Real(t)
    ensures ParseLayout(FormatDate(t), FormatClock(t, ':'), '-').None?
  {
    hide FormatDate, ParseDate, ParseLayout;
    DateRoundTrip(t);
    ClockRoundTrip(t, ':');
    Pad2Shape(t.hour);
    assert HourLength(FormatClock(t, ':')) == 2 && FormatClock(t, ':')[2] == ':';
    LayoutParts(FormatDate(t), FormatClock(t, ':'), '-');
    assert AllBlank("") && FormatDate(t) + "" == FormatDate(t);
  }

  /** Whatever comes before it, the time of a file name is read back, in the current and in the legacy form. */
  lemma {:induction false} TimestampRoundTrip(front: string, t: Stamp)
    requires Real(t) && t.nanos == 0
    ensures TimestampOf(Tokens(front + "_" + FormatTime(t))) == t
    ensures TimestampOf(Tokens(front + "_" + FormatDate(t) + "_" + FormatClock(t, ':'))) == t
  {
    hide FormatDate, FormatClock, ParseDate, ParseClock, Tokens;
    DateRoundTrip(t);
    StampRoundTrip(t, '-');
    StampRoundTrip(t, ':');
    ColonFirst(t);
    ClockRoundTrip(t, '-');
    ClockRoundTrip(t, ':');
    TokensOfFile(front, FormatDate(t), FormatClock(t, '-'));
    TokensOfFile(front, FormatDate(t), FormatClock(t, ':'));
    assert front + "_" + FormatTime(t) == front + "_" + FormatDate(t) + "_" + FormatClock(t, '-');
  }

  /** No two underscores in a row, none at either end, and not empty. */
  ghost predicate PlainName(name: string) {
    "" !in Split(name, '_')
  }

  /** The name of a report is read back exactly when it is plain. */
  lemma {:induction false} NameRoundTrip(name: string, t: Stamp)
    requires Real(t)
    ensures var file := name + "_" + FormatTime(t);
      NameOf(file, Tokens(file)) == name <==> PlainName(name)
  {
    DateRoundTrip(t);
    ClockRoundTrip(t, '-');
    var file := name + "_" + FormatTime(t);
    TokensOfFile(name, FormatDate(t), FormatClock(t, '-'));
    assert file == name + "_" + FormatDate(t) + "_" + FormatClock(t, '-');
    var tok := Tokens(name);
    assert (tok + [FormatDate(t), FormatClock(t, '-')])[..|tok|] == tok;
    DropEmptyPieces(Split(name, '_'));
    if tok == [] {
      assert |file| > |name|;
    } else {
      SplitPieces(name, '_');
      JoinOfSplit(name, '_');
      SplitOfJoin(tok, '_');
    }
  }
}

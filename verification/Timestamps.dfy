/** `_iso8601_epoch` of omg_cli/deny.py: what it accepts, and that its pairs compare as the instants do. */
module Timestamps {
  import opened Options
  import opened Text
  import opened CivilTime

  datatype Zone = Utc | Offset(minus: bool, hours: nat, minutes: nat)

  /** The groups of the pattern, as numbers; the digits of the fraction as they stand. */
  datatype Stamp = Stamp(date: Date, hour: nat, minute: nat, second: nat, fraction: seq<nat>, zone: Zone)

  // ---------- text ----------

  predicate Digits(s: string) { forall i :: 0 <= i < |s| ==> IsDigit(s[i]) }

  function Values(s: string): (v: seq<nat>)
    requires Digits(s)
    ensures |v| == |s| && forall i :: 0 <= i < |v| ==> v[i] < 10
  {
    seq(|s|, i requires 0 <= i < |s| => DigitValue(s[i]))
  }

  /** `int` of a run of digits. */
  function Number(digits: seq<nat>): nat {
    if |digits| == 0 then 0 else Number(digits[..|digits| - 1]) * 10 + digits[|digits| - 1]
  }

  function LeadingDigits(s: string): (n: nat)
    ensures n <= |s| && Digits(s[..n]) && (n < |s| ==> !IsDigit(s[n]))
  {
    if |s| > 0 && IsDigit(s[0]) then
      var n := 1 + LeadingDigits(s[1..]);
      assert s[..n] == [s[0]] + s[1..][..n - 1];
      n
    else 0
  }

  function ParseZone(s: string): Option<Zone> {
    if s == "Z" then Some(Utc)
    else if |s| == 6 && s[0] in {'+', '-'} && Digits(s[1..3]) && s[3] == ':' && Digits(s[4..6])
    then Some(Offset(s[0] == '-', Number(Values(s[1..3])), Number(Values(s[4..6]))))
    else None
  }

  /** `_ISO8601.fullmatch` */
  function Match(s: string): Option<Stamp> {
    if |s| < 20 || !Digits(s[..4]) || s[4] != '-' || !Digits(s[5..7]) || s[7] != '-' || !Digits(s[8..10])
        || s[10] != 'T'
       || !Digits(s[11..13]) || s[13] != ':' || !Digits(s[14..16]) || s[16] != ':' || !Digits(s[17..19])
    then None
    else
      var rest := s[19..];
      var n := if rest[0] == '.' then LeadingDigits(rest[1..]) else 0;
      if rest[0] == '.' && !(1 <= n <= 9) then None
      else
        var fraction := if rest[0] == '.' then Values(rest[1..][..n]) else [];
        match ParseZone(if rest[0] == '.' then rest[1 + n..] else rest)
        case None => None
        case Some(zone) =>
          Some(Stamp(Date(Number(Values(s[..4])), Number(Values(s[5..7])), Number(Values(s[8..10]))),
                     Number(Values(s[11..13])), Number(Values(s[14..16])), Number(Values(s[17..19])), fraction, zone))
  }

  predicate InRange(t: Stamp) {
    && 1 <= t.date.year <= 9999 && Exists(t.date) && t.hour < 24 && t.minute < 60 && t.second < 60
    && (t.zone.Offset? ==> t.zone.hours <= 23 && t.zone.minutes <= 59)
  }

  // ---------- the pair ----------

  function OffsetSeconds(zone: Zone): int {
    match zone
    case Utc => 0
    case Offset(minus, hours, minutes) =>
      var seconds := (hours * 60 + minutes) * 60;
      if minus then -seconds else seconds
  }

  function Pad9(digits: seq<nat>): seq<nat> {
    if |digits| >= 9 then digits else digits + seq(9 - |digits|, _ => 0)
  }

  datatype Epoch = Epoch(seconds: int, nanoseconds: nat)

  function EpochOf(t: Stamp): Epoch {
    Epoch(DaysFromCivil(t.date) * 86400 + t.hour * 3600 + t.minute * 60 + t.second - OffsetSeconds(t.zone),
          Number(Pad9(t.fraction)))
  }

  /** `_iso8601_epoch`; None where it raises. */
  function Iso8601Epoch(s: string): Option<Epoch> {
    match Match(s)
    case None => None
    case Some(t) => if InRange(t) then Some(EpochOf(t)) else None
  }

  /** The order of the pairs, as Python orders tuples. */
  predicate Before(a: Epoch, b: Epoch) {
    a.seconds < b.seconds || (a.seconds == b.seconds && a.nanoseconds < b.nanoseconds)
  }

  // ---------- the instant ----------

  /** The value of the digits after the point. */
  function Fraction(digits: seq<nat>): real {
    if |digits| == 0 then 0.0 else (digits[0] as real + Fraction(digits[1..])) / 10.0
  }

  /** Seconds a local clock shows since 1970-01-01T00:00:00, counting calendar days one by one. */
  function LocalClock(t: Stamp): real
    requires InRange(t)
  {
    ((DayNumber(t.date) - 719162) * 86400 + t.hour * 3600 + t.minute * 60 + t.second) as real + Fraction(t.fraction)
  }

  /**
   The instant at which a clock in the stamp's zone shows the stamp, in seconds since 1970-01-01T00:00:00Z: a clock
   east of Greenwich, written with a plus, shows the hours and minutes of its offset more than the clock of UTC.
   */
  ghost predicate Shows(t: Stamp, instant: real)
    requires InRange(t)
  {
    match t.zone
    case Utc => LocalClock(t) == instant
    case Offset(minus, hours, minutes) =>
      var ahead := hours as real * 3600.0 + minutes as real * 60.0;
      if minus then LocalClock(t) + ahead == instant else LocalClock(t) == instant + ahead
  }

  function Instant(t: Stamp): (instant: real)
    requires InRange(t)
    ensures Shows(t, instant)
  {
    match t.zone
    case Utc => LocalClock(t)
    case Offset(minus, hours, minutes) =>
      var ahead := hours as real * 3600.0 + minutes as real * 60.0;
      if minus then LocalClock(t) + ahead else LocalClock(t) - ahead
  }

  function Pow10(n: nat): (p: int)
    ensures p >= 1
  {
    if n == 0 then 1 else 10 * Pow10(n - 1)
  }

  predicate Decimal(digits: seq<nat>) { forall i :: 0 <= i < |digits| ==> digits[i] < 10 }

  lemma {:induction false} NumberFromFront(digits: seq<nat>)
    requires |digits| > 0
    ensures Number(digits) == digits[0] * Pow10(|digits| - 1) + Number(digits[1..])
  {
    if |digits| == 1 {
      assert digits[..0] == [] && digits[1..] == [];
    } else {
      var init := digits[..|digits| - 1];
      NumberFromFront(init);
      assert digits[1..][..|digits| - 2] == init[1..];
    }
  }

  lemma {:induction false} NumberIsFraction(digits: seq<nat>)
    ensures Number(digits) as real == Fraction(digits) * Pow10(|digits|) as real
  {
    hide Number, Fraction;
    Unfold(digits);
    if |digits| > 0 {
      NumberFromFront(digits);
      NumberIsFraction(digits[1..]);
      Scale(digits[0], Fraction(digits[1..]), Pow10(|digits| - 1), Number(digits[1..]));
    }
  }

  lemma Unfold(digits: seq<nat>)
    ensures |digits| == 0 ==> Number(digits) == 0 && Fraction(digits) == 0.0
    ensures |digits| > 0 ==> Fraction(digits) == (digits[0] as real + Fraction(digits[1..])) / 10.0
  {}

  lemma Scale(d: nat, f: real, p: int, rest: nat)
    requires rest as real == f * p as real
    ensures (d * p + rest) as real == (d as real + f) / 10.0 * (10 * p) as real
  {
    var q := p as real;
    assert (d * p) as real == d as real * q;
    assert (10 * p) as real == 10.0 * q;
  }

  lemma {:induction false} TrailingZeros(digits: seq<nat>, k: nat)
    ensures Fraction(digits + seq(k, _ => 0)) == Fraction(digits)
    decreases |digits|, k
  {
    var zeros := seq(k, _ => 0);
    if |digits| > 0 {
      assert (digits + zeros)[1..] == digits[1..] + zeros;
      TrailingZeros(digits[1..], k);
    } else if k > 0 {
      assert (digits + zeros)[1..] == [] + seq(k - 1, _ => 0);
      TrailingZeros([], k - 1);
    }
  }

  lemma {:induction false} FractionBelowOne(digits: seq<nat>)
    requires Decimal(digits)
    ensures 0.0 <= Fraction(digits) < 1.0
  {
    if |digits| > 0 { FractionBelowOne(digits[1..]); }
  }

  lemma NineDigits()
    ensures Pow10(9) == 1_000_000_000
  {
    assert Pow10(4) == 10_000;
  }

  /** The nanoseconds are the fraction, exactly. */
  lemma NanosecondsAreFraction(digits: seq<nat>)
    requires |digits| <= 9 && Decimal(digits)
    ensures Number(Pad9(digits)) as real == Fraction(digits) * 1_000_000_000.0
    ensures Number(Pad9(digits)) < 1_000_000_000
  {
    hide Fraction, Number;
    NineDigits();
    NumberIsFraction(Pad9(digits));
    FractionBelowOne(digits);
    if |digits| < 9 { TrailingZeros(digits, 9 - |digits|); }
  }

  lemma InstantOfPair(t: Stamp)
    requires InRange(t) && |t.fraction| <= 9 && Decimal(t.fraction)
    ensures Instant(t) == EpochOf(t).seconds as real + EpochOf(t).nanoseconds as real / 1_000_000_000.0
    ensures EpochOf(t).nanoseconds < 1_000_000_000
  {
    hide Fraction, Number, DaysFromCivil, DayNumber;
    FormulaCounts(t.date);
    NanosecondsAreFraction(t.fraction);
  }

  /** The pair of an accepted timestamp is its instant, cut into seconds and nanoseconds. */
  lemma PairIsInstant(s: string)
    requires Iso8601Epoch(s).Some?
    ensures var t, e := Match(s).value, Iso8601Epoch(s).value;
      && Shows(t, e.seconds as real + e.nanoseconds as real / 1_000_000_000.0)
      && e.nanoseconds < 1_000_000_000
  {
    hide Match, EpochOf, Instant, InRange, Shows;
    MatchedFraction(s);
    InstantOfPair(Match(s).value);
  }

  /** The same clock reading is later in UTC the further west it is read, by the offset's hours and minutes. */
  lemma OffsetMovesInstant(t: Stamp, hours: nat, minutes: nat)
    ensures var utc, offset := EpochOf(t.(zone := Utc)), (hours * 60 + minutes) * 60;
      && EpochOf(t.(zone := Offset(false, hours, minutes))).seconds + offset == utc.seconds
      && EpochOf(t.(zone := Offset(true, hours, minutes))).seconds == utc.seconds + offset
      && EpochOf(t.(zone := Offset(false, hours, minutes))).nanoseconds == utc.nanoseconds
      && EpochOf(t.(zone := Offset(true, hours, minutes))).nanoseconds == utc.nanoseconds
  {
    hide DaysFromCivil, Number, Pad9;
  }

  lemma MatchedFraction(s: string)
    requires Match(s).Some?
    ensures |Match(s).value.fraction| <= 9 && Decimal(Match(s).value.fraction)
  {
    hide Number, ParseZone, LeadingDigits;
  }

  lemma PairsCompare(a: Epoch, b: Epoch)
    requires a.nanoseconds < 1_000_000_000 && b.nanoseconds < 1_000_000_000
    ensures Before(a, b) <==>
      a.seconds as real + a.nanoseconds as real / 1_000_000_000.0
          < b.seconds as real + b.nanoseconds as real / 1_000_000_000.0
    ensures a == b <==>
      a.seconds as real + a.nanoseconds as real / 1_000_000_000.0
          == b.seconds as real + b.nanoseconds as real / 1_000_000_000.0
  {
    if a.seconds < b.seconds {
      assert a.seconds as real + 1.0 <= b.seconds as real;
    } else if a.seconds > b.seconds {
      assert b.seconds as real + 1.0 <= a.seconds as real;
    }
  }

  /** Accepted timestamps compare exactly as the instants they denote, offsets and fractions included. */
  lemma AcceptedCompareAsInstants(a: string, b: string)
    requires Iso8601Epoch(a).Some? && Iso8601Epoch(b).Some?
    ensures var x, y := Match(a).value, Match(b).value;
      && (Before(Iso8601Epoch(a).value, Iso8601Epoch(b).value) <==> Instant(x) < Instant(y))
      && (Iso8601Epoch(a) == Iso8601Epoch(b) <==> Instant(x) == Instant(y))
  {
    hide Match, EpochOf, Instant, Before, InRange;
    MatchedFraction(a);
    MatchedFraction(b);
    InstantOfPair(Match(a).value);
    InstantOfPair(Match(b).value);
    PairsCompare(EpochOf(Match(a).value), EpochOf(Match(b).value));
  }

  // ---------- writing ----------

  function TwoDigits(n: nat): (s: string)
    requires n < 100
    ensures |s| == 2 && Digits(s)
  {
    ['0' + (n / 10) as char, '0' + (n % 10) as char]
  }

  function FourDigits(n: nat): (s: string)
    requires n < 10000
    ensures |s| == 4 && Digits(s)
  {
    TwoDigits(n / 100) + TwoDigits(n % 100)
  }

  function ShowDigits(digits: seq<nat>): (s: string)
    requires Decimal(digits)
    ensures |s| == |digits| && Digits(s)
  {
    seq(|digits|, i requires 0 <= i < |digits| => '0' + digits[i] as char)
  }

  function ShowZone(zone: Zone): string
    requires zone.Offset? ==> zone.hours < 100 && zone.minutes < 100
  {
    match zone
    case Utc => "Z"
    case Offset(minus, hours, minutes) => [if minus then '-' else '+'] + TwoDigits(hours) + [':'] + TwoDigits(minutes)
  }

  /** Its numbers can be written in the digits the pattern has for them, in range or not. */
  predicate Fits(t: Stamp) {
    && 0 <= t.date.year < 10000 && 0 <= t.date.month < 100 && 0 <= t.date.day < 100
    && t.hour < 100 && t.minute < 100 && t.second < 100 && |t.fraction| <= 9 && Decimal(t.fraction)
    && (t.zone.Offset? ==> t.zone.hours < 100 && t.zone.minutes < 100)
  }

  /** The timestamp in the form RFC 3339 gives it. */
  function Show(t: Stamp): string
    requires Fits(t)
  {
    FourDigits(t.date.year) + ['-'] + TwoDigits(t.date.month) + ['-'] + TwoDigits(t.date.day) + ['T']
    + TwoDigits(t.hour) + [':'] + TwoDigits(t.minute) + [':'] + TwoDigits(t.second)
    + (if t.fraction == [] then "" else ['.'] + ShowDigits(t.fraction)) + ShowZone(t.zone)
  }

  lemma Push(digits: seq<nat>, d: nat)
    ensures Number(digits + [d]) == Number(digits) * 10 + d
  {
    assert (digits + [d])[..|digits|] == digits;
  }

  lemma TwoBack(n: nat)
    requires n < 100
    ensures Number(Values(TwoDigits(n))) == n
  {
    hide Number;
    Unfold([]);
    Push([], n / 10);
    Push([n / 10], n % 10);
    assert [] + [n / 10] == [n / 10] && [n / 10] + [n % 10] == Values(TwoDigits(n));
  }

  lemma FourBack(n: nat)
    requires n < 10000
    ensures Number(Values(FourDigits(n))) == n
  {
    hide TwoDigits;
    TwoBack(n / 100);
    TwoBack(n % 100);
    Four(TwoDigits(n / 100), TwoDigits(n % 100));
  }

  lemma Four(a: string, b: string)
    requires |a| == |b| == 2 && Digits(a) && Digits(b)
    ensures Number(Values(a + b)) == Number(Values(a)) * 100 + Number(Values(b))
  {
    hide Number;
    var x, y := Values(a), Values(b);
    Unfold([]);
    Push(x, y[0]);
    Push(x + [y[0]], y[1]);
    Push([], y[0]);
    Push([y[0]], y[1]);
    assert x + [y[0]] + [y[1]] == Values(a + b) && [] + [y[0]] == [y[0]] && [y[0]] + [y[1]] == y;
  }

  lemma ValuesBack(digits: seq<nat>)
    requires Decimal(digits)
    ensures Values(ShowDigits(digits)) == digits
  {}

  lemma ZoneBack(zone: Zone)
    requires zone.Offset? ==> zone.hours < 100 && zone.minutes < 100
    ensures ParseZone(ShowZone(zone)) == Some(zone)
    ensures |ShowZone(zone)| > 0 && !IsDigit(ShowZone(zone)[0]) && ShowZone(zone)[0] != '.'
  {
    hide TwoDigits, Number, Values;
    if zone.Offset? {
      TwoBack(zone.hours);
      TwoBack(zone.minutes);
      var s := ShowZone(zone);
      assert s[1..3] == TwoDigits(zone.hours) && s[4..6] == TwoDigits(zone.minutes);
    }
  }

  lemma LeadingOf(a: string, b: string)
    requires Digits(a) && |b| > 0 && !IsDigit(b[0])
    ensures LeadingDigits(a + b) == |a|
  {
    if |a| > 0 {
      assert (a + b)[1..] == a[1..] + b;
      LeadingOf(a[1..], b);
    }
  }

  /** The tail from the fraction on. */
  function Tail(t: Stamp): string
    requires Fits(t)
  {
    (if t.fraction == [] then "" else ['.'] + ShowDigits(t.fraction)) + ShowZone(t.zone)
  }

  lemma TailBack(t: Stamp)
    requires Fits(t)
    ensures var rest := Tail(t);
      && |rest| > 0 && (rest[0] == '.' <==> t.fraction != [])
      && (t.fraction != [] ==>
            var n := LeadingDigits(rest[1..]);
            n == |t.fraction| && Values(rest[1..][..n]) == t.fraction && ParseZone(rest[1 + n..]) == Some(t.zone))
      && (t.fraction == [] ==> ParseZone(rest) == Some(t.zone))
  {
    hide ShowDigits, ShowZone, ParseZone, Values, LeadingDigits, Number, Exists;
    ZoneBack(t.zone);
    var rest := Tail(t);
    if t.fraction != [] {
      var shown := ShowDigits(t.fraction);
      ValuesBack(t.fraction);
      assert rest[1..] == shown + ShowZone(t.zone);
      LeadingOf(shown, ShowZone(t.zone));
      assert rest[1..][..|shown|] == shown && rest[1 + |shown|..] == ShowZone(t.zone);
    } else {
      assert rest == ShowZone(t.zone);
    }
  }

  /** Every stamp that fits the pattern is matched as itself. */
  lemma ShownIsMatched(t: Stamp)
    requires Fits(t)
    ensures Match(Show(t)) == Some(t)
  {
    hide TwoDigits, FourDigits, Tail, ParseZone, Values, LeadingDigits, Number, EpochOf, MonthDays, ShowZone;
    hide ShowDigits;
    TailBack(t);
    FourBack(t.date.year);
    TwoBack(t.date.month);
    TwoBack(t.date.day);
    TwoBack(t.hour);
    TwoBack(t.minute);
    TwoBack(t.second);
    ShowPieces(t);
  }

  /** What is written is accepted, as itself, exactly when its numbers are a calendar day, a time and an offset. */
  lemma ShownIsAccepted(t: Stamp)
    requires Fits(t)
    ensures Iso8601Epoch(Show(t)) ==
      if && 1 <= t.date.year && 1 <= t.date.month <= 12 && 1 <= t.date.day <= 31
         && (t.date.month in {4, 6, 9, 11} ==> t.date.day <= 30)
         && (t.date.month == 2 ==> t.date.day <= 29)
         && (t.date.month == 2 && t.date.day == 29 ==>
               t.date.year % 4 == 0 && (t.date.year % 100 == 0 ==> t.date.year % 400 == 0))
         && t.hour <= 23 && t.minute <= 59 && t.second <= 59
         && (t.zone.Offset? ==> t.zone.hours <= 23 && t.zone.minutes <= 59)
      then Some(EpochOf(t)) else None
  {
    hide Show, Match, EpochOf;
    ShownIsMatched(t);
  }

  lemma ShowPieces(t: Stamp)
    requires Fits(t)
    ensures var s := Show(t);
      && |s| == 19 + |Tail(t)| && s[..4] == FourDigits(t.date.year) && s[4] == '-' && s[5..7] == TwoDigits(t.date.month)
      && s[7] == '-' && s[8..10] == TwoDigits(t.date.day) && s[10] == 'T' && s[11..13] == TwoDigits(t.hour)
      && s[13] == ':'
      && s[14..16] == TwoDigits(t.minute) && s[16] == ':' && s[17..19] == TwoDigits(t.second) && s[19..] == Tail(t)
  {
    hide TwoDigits, FourDigits, ShowZone, ShowDigits, MonthDays;
    var date := FourDigits(t.date.year) + ['-'] + TwoDigits(t.date.month) + ['-'] + TwoDigits(t.date.day) + ['T'];
    var time := TwoDigits(t.hour) + [':'] + TwoDigits(t.minute) + [':'] + TwoDigits(t.second);
    var s := Show(t);
    assert s == date + time + Tail(t);
    assert s[..11] == date && s[11..19] == time && s[19..] == Tail(t);
    assert s[..4] == date[..4] && s[5..7] == date[5..7] && s[8..10] == date[8..10];
    assert s[11..13] == time[..2] && s[14..16] == time[3..5] && s[17..19] == time[6..8];
    assert s[4] == date[4] && s[7] == date[7] && s[10] == date[10] && s[13] == time[2] && s[16] == time[5];
  }

  // ---------- nothing else is accepted ----------

  lemma TwoAgain(s: string)
    requires |s| == 2 && Digits(s)
    ensures Number(Values(s)) < 100 && TwoDigits(Number(Values(s))) == s
  {
    hide Number;
    var x := Values(s);
    Unfold([]);
    Push([], x[0]);
    Push([x[0]], x[1]);
    assert [] + [x[0]] == [x[0]] && [x[0]] + [x[1]] == x;
  }

  lemma FourAgain(s: string)
    requires |s| == 4 && Digits(s)
    ensures Number(Values(s)) < 10000 && FourDigits(Number(Values(s))) == s
  {
    hide Number, TwoDigits;
    TwoAgain(s[..2]);
    TwoAgain(s[2..]);
    assert s == s[..2] + s[2..];
    Four(s[..2], s[2..]);
  }

  lemma ZoneAgain(s: string)
    requires ParseZone(s).Some?
    ensures var zone := ParseZone(s).value;
      && (zone.Offset? ==> zone.hours < 100 && zone.minutes < 100)
      && ShowZone(zone) == s
  {
    hide Number, Values, TwoDigits;
    if s != "Z" {
      TwoAgain(s[1..3]);
      TwoAgain(s[4..6]);
      assert s == [s[0]] + s[1..3] + [s[3]] + s[4..6];
    }
  }

  lemma MatchedTail(s: string)
    requires Match(s).Some?
    ensures var t := Match(s).value;
      && |t.fraction| <= 9 && Decimal(t.fraction)
      && (t.zone.Offset? ==> t.zone.hours < 100 && t.zone.minutes < 100)
      && (if t.fraction == [] then "" else ['.'] + ShowDigits(t.fraction)) + ShowZone(t.zone) == s[19..]
  {
    hide ParseZone, LeadingDigits, Number, ShowZone;
    var rest := s[19..];
    if rest[0] == '.' {
      var n := LeadingDigits(rest[1..]);
      ZoneAgain(rest[1 + n..]);
      assert ShowDigits(Values(rest[1..][..n])) == rest[1..][..n];
      assert rest == ['.'] + rest[1..][..n] + rest[1 + n..];
    } else {
      ZoneAgain(rest);
    }
  }

  /** What is matched is what the matched numbers are written as: no other text is accepted. */
  lemma MatchedIsShown(s: string)
    requires Match(s).Some?
    ensures Fits(Match(s).value) && Show(Match(s).value) == s
  {
    hide ParseZone, LeadingDigits, Number, ShowZone, ShowDigits, TwoDigits, FourDigits, Values;
    MatchedTail(s);
    FourAgain(s[..4]);
    TwoAgain(s[5..7]);
    TwoAgain(s[8..10]);
    TwoAgain(s[11..13]);
    TwoAgain(s[14..16]);
    TwoAgain(s[17..19]);
    ShowPieces(Match(s).value);
    Pieces(s, Show(Match(s).value));
  }

  lemma Pieces(a: string, b: string)
    requires |a| >= 19 && |b| >= 19
    requires a[..4] == b[..4] && a[4] == b[4] && a[5..7] == b[5..7] && a[7] == b[7] && a[8..10] == b[8..10]
    requires a[10] == b[10] && a[11..13] == b[11..13] && a[13] == b[13] && a[14..16] == b[14..16] && a[16] == b[16]
    requires a[17..19] == b[17..19] && a[19..] == b[19..]
    ensures a == b
  {
    assert a == a[..4] + [a[4]] + a[5..7] + [a[7]] + a[8..10] + [a[10]] + a[11..13] + [a[13]] + a[14..16] + [a[16]]
             + a[17..19] + a[19..];
    assert b == b[..4] + [b[4]] + b[5..7] + [b[7]] + b[8..10] + [b[10]] + b[11..13] + [b[13]] + b[14..16] + [b[16]]
             + b[17..19] + b[19..];
  }

  /** Noon two hours east of Greenwich is ten o'clock in UTC, before eleven. */
  lemma NoonInTheEast()
    ensures Iso8601Epoch("2026-01-01T12:00:00+02:00") == Some(Epoch(1767261600, 0))
    ensures Iso8601Epoch("2026-01-01T11:00:00Z") == Some(Epoch(1767265200, 0))
  {
    hide Match, Show, EpochOf, Iso8601Epoch;
    var noon := Stamp(Date(2026, 1, 1), 12, 0, 0, [], Offset(false, 2, 0));
    var eleven := Stamp(Date(2026, 1, 1), 11, 0, 0, [], Utc);
    ShownIsAccepted(noon);
    ShownIsAccepted(eleven);
    NoonText();
    NoonPair();
  }

  lemma NoonText()
    ensures Show(Stamp(Date(2026, 1, 1), 12, 0, 0, [], Offset(false, 2, 0))) == "2026-01-01T12:00:00+02:00"
    ensures Show(Stamp(Date(2026, 1, 1), 11, 0, 0, [], Utc)) == "2026-01-01T11:00:00Z"
  {
    hide FourDigits, TwoDigits;
    NoonDigits();
  }

  lemma NoonDigits()
    ensures FourDigits(2026) == "2026" && TwoDigits(0) == "00" && TwoDigits(1) == "01" && TwoDigits(2) == "02"
    ensures TwoDigits(11) == "11" && TwoDigits(12) == "12"
  {}

  lemma NoonPair()
    ensures EpochOf(Stamp(Date(2026, 1, 1), 12, 0, 0, [], Offset(false, 2, 0))) == Epoch(1767261600, 0)
    ensures EpochOf(Stamp(Date(2026, 1, 1), 11, 0, 0, [], Utc)) == Epoch(1767265200, 0)
  {
    hide Number, Pad9;
    NoFraction();
  }

  lemma NoFraction()
    ensures Number(Pad9([])) == 0
  {
    hide Number;
    NanosecondsAreFraction([]);
  }
}

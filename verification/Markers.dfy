/** Markers and rotated file names as text (internal/source/rds/rotation.go,
    OffsetMarker in internal/source/rds/fetcher.go, and rewindMarker,
    markerStillValid and sameHourFile in internal/pipeline/worker.go). */
module Markers {

  import opened Wrappers

  const MARKER_BEGINNING: string := "0"
  const INT64_MAX: int := 9223372036854775807
  const REWIND_BYTES: nat := 262144

  // ----------------------------------------------------------------- integers

  predicate IsDigit(c: char) { '0' <= c <= '9' }

  predicate IsDigits(s: string) { s != "" && forall i :: 0 <= i < |s| ==> IsDigit(s[i]) }

  function DigitOf(c: char): (d: nat)
    ensures d < 10
  {
    if IsDigit(c) then (c - '0') as nat else 0
  }

  function DigitsValue(s: string): nat
  {
    if s == "" then 0 else DigitsValue(s[..|s| - 1]) * 10 + DigitOf(s[|s| - 1])
  }

  /** strconv.FormatInt(n, 10). */
  function FormatNat(n: nat): (s: string)
    ensures IsDigits(s) && DigitsValue(s) == n
  {
    var last := ['0' + (n % 10) as char];
    if n < 10 then last
    else
      var s := FormatNat(n / 10) + last;
      assert s[..|s| - 1] == FormatNat(n / 10);
      s
  }

  function FormatInt(n: int): string { if n < 0 then "-" + FormatNat(-n) else FormatNat(n) }

  /** strconv.ParseInt(s, 10, 64). */
  function ParseInt(s: string): Option<int>
  {
    var negative := s != "" && s[0] == '-';
    var digits := if s != "" && (s[0] == '-' || s[0] == '+') then s[1..] else s;
    if !IsDigits(digits) then None
    else
      var v: int := DigitsValue(digits);
      if negative then (if v <= INT64_MAX + 1 then Some(-v) else None)
      else if v <= INT64_MAX then Some(v) else None
  }

  lemma ParseFormat(n: int)
    requires -INT64_MAX - 1 <= n <= INT64_MAX
    ensures ParseInt(FormatInt(n)) == Some(n)
  {
  }

  // ----------------------------------------------------------- offset markers

  /** strings.LastIndexByte(s, ':'), or -1. */
  function LastColon(s: string): (i: int)
    ensures -1 <= i < |s| && (i >= 0 ==> s[i] == ':')
    ensures forall j :: i < j < |s| ==> s[j] != ':'
  {
    if s == "" then -1 else if s[|s| - 1] == ':' then |s| - 1 else LastColon(s[..|s| - 1])
  }

  datatype Offset = Offset(prefix: string, off: int)

  function OffsetMarker(marker: string): Option<Offset>
  {
    var i := LastColon(marker);
    if i <= 0 then None
    else match ParseInt(marker[i + 1..])
      case None => None
      case Some(off) => Some(Offset(marker[..i], off))
  }

  function MakeMarker(prefix: string, off: int): string { prefix + ":" + FormatInt(off) }

  lemma FormatHasNoColon(n: int)
    ensures ':' !in FormatInt(n)
  {
  }

  lemma ColonAt(m: string, k: nat, s: string)
    requires k < |m| && m[k] == ':' && m[k + 1..] == s && forall j :: 0 <= j < |s| ==> s[j] != ':'
    ensures LastColon(m) == k
  {
  }

  lemma ColonFound(prefix: string, s: string)
    requires ':' !in s
    ensures LastColon(prefix + ":" + s) == |prefix|
  {
    var m := prefix + ":" + s;
    assert forall j :: 0 <= j < |s| ==> s[j] != ':';
    assert m[|prefix| + 1..] == s;
    ColonAt(m, |prefix|, s);
  }

  /** Reading back a marker gives what it was made from. */
  lemma OffsetMarkerRoundTrip(prefix: string, off: int)
    requires prefix != "" && -INT64_MAX - 1 <= off <= INT64_MAX
    ensures OffsetMarker(MakeMarker(prefix, off)) == Some(Offset(prefix, off))
  {
    FormatHasNoColon(off);
    ColonFound(prefix, FormatInt(off));
    var m := MakeMarker(prefix, off);
    assert m[|prefix| + 1..] == FormatInt(off) && m[..|prefix|] == prefix;
    ParseFormat(off);
  }

  /** rewindMarker: the marker to re-read from, and whether that is mid-file. */
  function RewindMarker(marker: string, size: int): (string, bool)
  {
    match OffsetMarker(marker)
    case None => (MARKER_BEGINNING, false)
    case Some(o) =>
      var start := (if o.off < size then o.off else size) - REWIND_BYTES;
      if start <= 0 then (MARKER_BEGINNING, false)
      else (marker[..LastColon(marker) + 1] + FormatInt(start), true)
  }

  /** A rewind goes REWIND_BYTES back from where the file still has data, in the
      same file; when that is before the file's start, or the marker is not an
      offset, it goes to the beginning. */
  lemma RewindStaysInFile(marker: string, size: int)
    requires size <= INT64_MAX
    ensures var r := RewindMarker(marker, size);
      match OffsetMarker(marker)
      case Some(Offset(prefix, off)) =>
        (if off > REWIND_BYTES && size > REWIND_BYTES then
           OffsetMarker(r.0) == Some(Offset(prefix, (if off < size then off else size) - REWIND_BYTES)) && r.1
         else r == (MARKER_BEGINNING, false))
      case None => r == (MARKER_BEGINNING, false)
  {
    hide FormatInt, ParseInt;
    var i := LastColon(marker);
    match OffsetMarker(marker)
    case None =>
    case Some(o) =>
      var start := (if o.off < size then o.off else size) - REWIND_BYTES;
      if start > 0 {
        assert marker[..i + 1] == o.prefix + ":";
        assert marker[..i + 1] + FormatInt(start) == MakeMarker(o.prefix, start);
        OffsetMarkerRoundTrip(o.prefix, start);
      }
  }

  // ------------------------------------------------------------------ hour IDs

  datatype HourID = HourID(date: string, hour: nat)

  function HourString(h: HourID): string { h.date + "." + FormatNat(h.hour) }

  /** Go's order on strings. */
  predicate Less(a: string, b: string)
  {
    b != "" && (a == "" || a[0] < b[0] || (a[0] == b[0] && Less(a[1..], b[1..])))
  }

  /** HourID.Compare. */
  function Compare(h: HourID, o: HourID): int
  {
    if Less(h.date, o.date) then -1
    else if Less(o.date, h.date) then 1
    else if h.hour < o.hour then -1
    else if h.hour > o.hour then 1
    else 0
  }

  lemma {:induction false} LessTotal(a: string, b: string)
    ensures a != b ==> (Less(a, b) <==> !Less(b, a))
    ensures !Less(a, a)
    decreases |a|
  {
    if a != "" {
      LessTotal(a[1..], if b == "" then "" else b[1..]);
      if b != "" && a[0] == b[0] {
        assert a == [a[0]] + a[1..] && b == [b[0]] + b[1..];
      }
    }
  }

  lemma {:induction false} LessTransitive(a: string, b: string, c: string)
    ensures Less(a, b) && Less(b, c) ==> Less(a, c)
    decreases |a|
  {
    if a != "" && b != "" && c != "" {
      LessTransitive(a[1..], b[1..], c[1..]);
    }
  }

  /** Compare is a total order on hour IDs, and zero only on equal ones. */
  lemma CompareTotalOrder(a: HourID, b: HourID, c: HourID)
    ensures Compare(a, b) == -Compare(b, a)
    ensures Compare(a, b) == 0 <==> a == b
    ensures Compare(a, b) < 0 && Compare(b, c) < 0 ==> Compare(a, c) < 0
  {
    LessTotal(a.date, b.date);
    LessTotal(b.date, a.date);
    LessTotal(a.date, c.date);
    LessTotal(b.date, c.date);
    LessTransitive(a.date, b.date, c.date);
  }

  predicate IsDate(s: string)
  {
    && |s| == 10
    && s[4] == '-' && s[7] == '-'
    && forall i :: 0 <= i < 10 && i != 4 && i != 7 ==> IsDigit(s[i])
  }

  /** The calendar date as a number: year, month and day in decimal places. */
  function DateNumber(s: string): nat
    requires IsDate(s)
  {
    DigitsValue(s[..4] + s[5..7] + s[8..])
  }

  function Pow10(n: nat): (r: nat) ensures r > 0 { if n == 0 then 1 else 10 * Pow10(n - 1) }

  lemma {:induction false} DigitsBound(s: string)
    ensures DigitsValue(s) < Pow10(|s|)
  {
    if s != "" {
      DigitsBound(s[..|s| - 1]);
    }
  }

  lemma {:induction false} DigitsFromFront(c: char, s: string)
    ensures DigitsValue([c] + s) == DigitOf(c) * Pow10(|s|) + DigitsValue(s)
    decreases |s|
  {
    hide DigitOf;
    var t := [c] + s;
    if s == "" {
      assert t[..0] == "";
    } else {
      assert t[..|t| - 1] == [c] + s[..|s| - 1];
      DigitsFromFront(c, s[..|s| - 1]);
    }
  }

  lemma DigitOrder(a: char, b: char)
    requires IsDigit(a) && IsDigit(b)
    ensures a < b <==> DigitOf(a) < DigitOf(b)
    ensures a == b <==> DigitOf(a) == DigitOf(b)
  {
  }

  lemma LeadingDigitWins(x: nat, y: nat, q: nat, u: nat, v: nat)
    requires u < q && v < q
    ensures x < y ==> x * q + u < y * q + v
    ensures x == y ==> (x * q + u < y * q + v <==> u < v)
  {
    if x < y {
      assert (x + 1) * q <= y * q;
    }
  }

  /** On digit strings of one length, Go's order is the order of the numbers. */
  lemma {:induction false} LessOnDigits(a: string, b: string)
    requires |a| == |b|
    requires forall i :: 0 <= i < |a| ==> IsDigit(a[i]) && IsDigit(b[i])
    ensures Less(a, b) <==> DigitsValue(a) < DigitsValue(b)
    decreases |a|
  {
    hide DigitOf, DigitsValue, Pow10, IsDigit;
    if a != "" {
      var x, y, a', b' := DigitOf(a[0]), DigitOf(b[0]), a[1..], b[1..];
      assert a == [a[0]] + a' && b == [b[0]] + b';
      DigitsFromFront(a[0], a');
      DigitsFromFront(b[0], b');
      DigitsBound(a');
      DigitsBound(b');
      LessOnDigits(a', b');
      DigitOrder(a[0], b[0]);
      LeadingDigitWins(x, y, Pow10(|a'|), DigitsValue(a'), DigitsValue(b'));
      LeadingDigitWins(y, x, Pow10(|a'|), DigitsValue(b'), DigitsValue(a'));
    }
  }

  /** Equal characters at the same place do not matter to the order. */
  lemma {:induction false} LessWithout(x: string, x': string, c: char, y: string, y': string)
    requires |x| == |x'|
    ensures Less(x + [c] + y, x' + [c] + y') <==> Less(x + y, x' + y')
    decreases |x|
  {
    var a, b := x + [c] + y, x' + [c] + y';
    if x == "" {
      assert a[1..] == y && b[1..] == y' && x + y == y && x' + y' == y';
      if y == y' {
        LessTotal(y, y');
      }
    } else {
      LessWithout(x[1..], x'[1..], c, y, y');
      assert a[1..] == x[1..] + [c] + y && b[1..] == x'[1..] + [c] + y';
      assert (x + y)[1..] == x[1..] + y && (x' + y')[1..] == x'[1..] + y';
    }
  }

  /** Comparing dates as text is comparing them as dates. */
  lemma DateOrder(a: string, b: string)
    requires IsDate(a) && IsDate(b)
    ensures Less(a, b) <==> DateNumber(a) < DateNumber(b)
  {
    hide Less, DigitsValue, IsDigit;
    assert a == a[..7] + [a[7]] + a[8..] && b == b[..7] + [b[7]] + b[8..];
    LessWithout(a[..7], b[..7], '-', a[8..], b[8..]);
    assert a[..7] + a[8..] == a[..4] + [a[4]] + (a[5..7] + a[8..]);
    assert b[..7] + b[8..] == b[..4] + [b[4]] + (b[5..7] + b[8..]);
    LessWithout(a[..4], b[..4], '-', a[5..7] + a[8..], b[5..7] + b[8..]);
    assert a[..4] + (a[5..7] + a[8..]) == a[..4] + a[5..7] + a[8..];
    assert b[..4] + (b[5..7] + b[8..]) == b[..4] + b[5..7] + b[8..];
    LessOnDigits(a[..4] + a[5..7] + a[8..], b[..4] + b[5..7] + b[8..]);
  }

  /** So Compare orders hours by date, then by hour index. */
  lemma CompareChronological(a: HourID, b: HourID)
    requires IsDate(a.date) && IsDate(b.date)
    ensures Compare(a, b) < 0 <==>
      DateNumber(a.date) < DateNumber(b.date) || (a.date == b.date && a.hour < b.hour)
  {
    hide Less, DateNumber, IsDate;
    DateOrder(a.date, b.date);
    DateOrder(b.date, a.date);
    LessTotal(a.date, b.date);
    LessTotal(b.date, a.date);
  }

  // -------------------------------------------------- hour markers, rotated names

  datatype HourMarker = HourMarker(id: HourID, off: int)

  function IndexOf(s: string, c: char, from: nat): (i: nat)
    requires from <= |s|
    ensures from <= i <= |s| && (i < |s| ==> s[i] == c)
    ensures forall j :: from <= j < i ==> s[j] != c
    decreases |s| - from
  {
    if from == |s| || s[from] == c then from else IndexOf(s, c, from + 1)
  }

  /** "YYYY-MM-DD.H", H being one or two digits. */
  function ParseHour(s: string): Option<HourID>
  {
    if 12 <= |s| <= 13 && IsDate(s[..10]) && s[10] == '.' && IsDigits(s[11..])
    then Some(HourID(s[..10], DigitsValue(s[11..]))) else None
  }

  /** ParseHourMarker: "YYYY-MM-DD.H:offset". */
  function ParseHourMarker(marker: string): Option<HourMarker>
  {
    var i := IndexOf(marker, ':', 0);
    if i == |marker| || !IsDigits(marker[i + 1..]) then None
    else match ParseHour(marker[..i])
      case None => None
      case Some(id) =>
        var off := DigitsValue(marker[i + 1..]);
        if off <= INT64_MAX then Some(HourMarker(id, off)) else None
  }

  predicate IsHour(h: HourID) { IsDate(h.date) && h.hour < 100 }

  lemma HourDigits(n: nat)
    requires n < 100
    ensures 1 <= |FormatNat(n)| <= 2
  {
  }

  lemma ParseHourRoundTrip(h: HourID)
    requires IsHour(h)
    ensures ParseHour(HourString(h)) == Some(h)
    ensures ':' !in HourString(h)
  {
    hide IsDigits, DigitsValue, FormatNat, IsDigit;
    HourDigits(h.hour);
    var s := HourString(h);
    assert s[..10] == h.date && s[11..] == FormatNat(h.hour);
    HourHasNoColon(h);
  }

  lemma HourHasNoColon(h: HourID)
    requires IsHour(h)
    ensures ':' !in HourString(h)
  {
  }

  /** Reading back an hour marker gives its hour and offset. */
  lemma HourMarkerRoundTrip(h: HourID, off: nat)
    requires IsHour(h) && off <= INT64_MAX
    ensures ParseHourMarker(MakeMarker(HourString(h), off)) == Some(HourMarker(h, off))
  {
    hide IsDigits, DigitsValue, FormatNat, ParseHour, HourString, IsDate;
    ParseHourRoundTrip(h);
    var s, f := HourString(h), FormatNat(off);
    var m := s + ":" + f;
    assert m[|s|] == ':' && m[..|s|] == s && m[|s| + 1..] == f;
    assert forall j :: 0 <= j < |s| ==> m[j] == s[j];
    assert IndexOf(m, ':', 0) == |s|;
  }

  lemma BeginningIsNoHour()
    ensures ParseHourMarker(MARKER_BEGINNING) == None
  {
  }

  datatype Rotated = Rotated(base: string, id: HourID)

  const LOG: string := ".log"

  /** A name the rotation pattern takes as a base: "<something>.log" on one line. */
  predicate IsBase(s: string)
  {
    |s| > 4 && s[|s| - 4..] == LOG && '\n' !in s
  }

  /** The dot before the hour index of a rotated name, or |s|. */
  function HourDot(s: string): (i: nat)
    ensures i <= |s|
  {
    if |s| >= 2 && s[|s| - 2] == '.' then |s| - 2
    else if |s| >= 3 && s[|s| - 3] == '.' then |s| - 3
    else |s|
  }

  /** SplitRotated: "<base>.YYYY-MM-DD.H". */
  function SplitRotated(name: string): Option<Rotated>
  {
    var d := HourDot(name);
    if d == |name| || d < 11 || name[d - 11] != '.' || !IsBase(name[..d - 11]) then None
    else match ParseHour(name[d - 10..])
      case None => None
      case Some(id) => Some(Rotated(name[..d - 11], id))
  }

  function RotatedName(base: string, id: HourID): string { base + "." + HourString(id) }

  /** Splitting a rotated name gives the base name and the hour, if the base is some
      name on one line that ends in ".log"; with any other base it is not split. */
  lemma SplitRotatedRoundTrip(base: string, h: HourID)
    requires IsHour(h)
    ensures SplitRotated(RotatedName(base, h))
         == if |base| > 4 && base[|base| - 4..] == ".log" && '\n' !in base then Some(Rotated(base, h)) else None
  {
    hide IsDigits, DigitsValue, ParseHour, IsDate;
    ParseHourRoundTrip(h);
    HourDigits(h.hour);
    var f := FormatNat(h.hour);
    assert forall i :: 0 <= i < |f| ==> IsDigit(f[i]);
    var name, n := RotatedName(base, h), |base|;
    DateLength(h);
    assert name == base + "." + h.date + "." + f;
    assert name[n] == '.' && name[n + 11] == '.' && name[..n] == base && name[n + 1..] == HourString(h);
    assert |name| == n + 12 + |f|;
    assert name[|name| - 1] == f[|f| - 1];
    assert |f| == 2 ==> name[|name| - 2] == f[0];
  }

  lemma DateLength(h: HourID)
    requires IsHour(h)
    ensures |h.date| == 10
  {
  }

  /** A base name is never itself a rotated name. */
  lemma BaseIsNotRotated(base: string)
    requires IsBase(base)
    ensures SplitRotated(base) == None
  {
  }

  /** markerStillValid. */
  predicate MarkerStillValid(marker: string, size: int)
  {
    var m := ParseHourMarker(marker); m.Some? && m.value.off <= size
  }

  /** sameHourFile. */
  predicate SameHourFile(a: string, b: string)
  {
    var ia, ib := ParseHourMarker(a), ParseHourMarker(b);
    if ia.None? || ib.None? then ia.Some? == ib.Some? else ia.value.id == ib.value.id
  }

  /** Two hour markers are in one file exactly when they name one hour, whatever their
      offsets; a marker that names none is in no hour's file. */
  lemma SameHourExactly(a: HourID, x: nat, b: HourID, y: nat, m: string)
    requires IsHour(a) && IsHour(b) && x <= INT64_MAX && y <= INT64_MAX && ParseHourMarker(m).None?
    ensures SameHourFile(MakeMarker(HourString(a), x), MakeMarker(HourString(b), y)) <==> a == b
    ensures !SameHourFile(MakeMarker(HourString(a), x), m) && !SameHourFile(m, MakeMarker(HourString(a), x))
    ensures SameHourFile(m, MARKER_BEGINNING)
  {
    hide ParseHourMarker, MakeMarker, HourString;
    HourMarkerRoundTrip(a, x);
    HourMarkerRoundTrip(b, y);
    BeginningIsNoHour();
  }
}

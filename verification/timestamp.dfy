/** Log-line timestamps `YYYY-MM-DDTHH:MM:SS` (UTC, fractional seconds
    ignored) as the scripts read them with `re` followed by
    `datetime.strptime(ts, "%Y-%m-%dT%H:%M:%S")`. A timestamp is kept as its
    19-character text: for well-formed timestamps the text order is the time
    order, and a minute bucket is the first 16 characters. */
module Timestamp {
  import opened Wrappers
  import opened Text
  import opened Order

  /** Character `k` of the shape `\d{4}-\d{2}-\d{2}T\d{2}:\d{2}:\d{2}`. */
  predicate ShapeChar(k: nat, c: char) {
    if k == 4 || k == 7 then c == '-'
    else if k == 10 then c == 'T'
    else if k == 13 || k == 16 then c == ':'
    else IsDigit(c)
  }

  /** The 19-character timestamp shape occurs in `s` at `i`. */
  predicate ShapeAt(s: string, i: nat) {
    i + 19 <= |s| && forall j :: i <= j < i + 19 ==> ShapeChar(j - i, s[j])
  }

  /** Value of a digit character; 0 for anything else. */
  function Dig(c: char): nat {
    if IsDigit(c) then DigitValue(c) else 0
  }

  function Two(ts: string, i: nat): nat
    requires i + 2 <= |ts|
  {
    10 * Dig(ts[i]) + Dig(ts[i + 1])
  }

  function Year(ts: string): nat requires |ts| == 19 {
    100 * Two(ts, 0) + Two(ts, 2)
  }
  function Month(ts: string): nat requires |ts| == 19 { Two(ts, 5) }
  function Day(ts: string): nat requires |ts| == 19 { Two(ts, 8) }
  function Hour(ts: string): nat requires |ts| == 19 { Two(ts, 11) }
  function Minute(ts: string): nat requires |ts| == 19 { Two(ts, 14) }
  function Second(ts: string): nat requires |ts| == 19 { Two(ts, 17) }

  /** Gregorian leap years, as `calendar.isleap`. */
  predicate IsLeap(y: nat) {
    y % 4 == 0 && (y % 100 != 0 || y % 400 == 0)
  }

  function DaysInMonth(y: nat, m: nat): nat
    requires 1 <= m <= 12
  {
    if m == 2 then (if IsLeap(y) then 29 else 28)
    else if m == 4 || m == 6 || m == 9 || m == 11 then 30
    else 31
  }

  /** The fields name a real moment: `datetime` accepts years 1..9999, days
      up to the month's length, and seconds 0..59 (no leap second). */
  predicate ValidCalendar(ts: string)
    requires |ts| == 19
  {
    && 1 <= Year(ts)
    && 1 <= Month(ts) <= 12
    && 1 <= Day(ts) <= DaysInMonth(Year(ts), Month(ts))
    && Hour(ts) <= 23
    && Minute(ts) <= 59
    && Second(ts) <= 59
  }

  /** A string `strptime(ts, "%Y-%m-%dT%H:%M:%S")` accepts with the shape the
      scripts' patterns demand. */
  predicate IsTimestamp(ts: string) {
    |ts| == 19 && ShapeAt(ts, 0) && ValidCalendar(ts)
  }

  /** `parse_timestamp` of the connectivity, leader and bundle scripts:
      `re.match(r'\[(<shape>)', line)` anchors at the start of the line, and a
      shape that is not a calendar moment makes the line untimed. */
  function ParseLeading(line: string): (r: Option<string>)
    ensures r.Some? <==> |line| >= 20 && line[0] == '[' && IsTimestamp(line[1..20])
    ensures r.Some? ==> r.value == line[1..20]
  {
    if |line| >= 20 && line[0] == '[' && IsTimestamp(line[1..20]) then Some(line[1..20]) else None
  }

  /** A line that starts with a bracketed timestamp is timed by that timestamp,
      whatever follows it. */
  lemma ParseLeadingRoundTrip(ts: string, rest: string)
    requires IsTimestamp(ts)
    ensures ParseLeading("[" + ts + rest) == Some(ts)
  {
    var line := "[" + ts + rest;
    assert line[1..20] == ts;
  }


  /** Leftmost position at or after `i` where the shape occurs. */
  function FirstShape(s: string, i: nat): (r: Option<nat>)
    decreases |s| - i
    ensures r.Some? ==> i <= r.value && ShapeAt(s, r.value)
    ensures r.Some? ==> forall q: nat :: i <= q < r.value ==> !ShapeAt(s, q)
    ensures r.None? ==> forall q: nat :: i <= q ==> !ShapeAt(s, q)
  {
    if i + 19 > |s| then None
    else if ShapeAt(s, i) then Some(i)
    else FirstShape(s, i + 1)
  }

  /** `parse_timestamp` of the hourly summary: `TS_PATTERN.search(line)` takes
      the leftmost shape anywhere in the line; if that one is not a calendar
      moment the line is untimed, even when a later shape would be. */
  function ParseAnywhere(line: string): (r: Option<string>)
    ensures r.Some? ==> IsTimestamp(r.value)
  {
    match FirstShape(line, 0)
    case None => None
    case Some(p) =>
      var ts := line[p..p + 19];
      assert ShapeAt(ts, 0) by {
        forall j | 0 <= j < 19 ensures ShapeChar(j, ts[j]) {
          assert ts[j] == line[p + j];
        }
      }
      if ValidCalendar(ts) then Some(ts) else None
  }

  /** What `ParseAnywhere` returns, stated without the search: the leftmost
      shape in the line, provided it is a calendar moment. */
  lemma ParseAnywhereLeftmost(line: string)
    ensures ParseAnywhere(line).Some? <==>
              exists p: nat :: && ShapeAt(line, p)
                               && (forall q: nat :: q < p ==> !ShapeAt(line, q))
                               && IsTimestamp(line[p..p + 19])
    ensures ParseAnywhere(line).Some? ==>
              exists p: nat :: && ShapeAt(line, p)
                               && (forall q: nat :: q < p ==> !ShapeAt(line, q))
                               && ParseAnywhere(line).value == line[p..p + 19]
  {
    match FirstShape(line, 0)
    case None =>
    case Some(p) =>
      forall p': nat | ShapeAt(line, p') && (forall q: nat :: q < p' ==> !ShapeAt(line, q))
        ensures p' == p
      {
      }
  }

  /** Whenever the anchored parser of the other scripts times a line, the
      hourly summary's search times it identically. */
  lemma AnchoredAgreesWithSearch(line: string)
    requires ParseLeading(line).Some?
    ensures ParseAnywhere(line) == ParseLeading(line)
  {
    assert !ShapeAt(line, 0) by {
      assert !ShapeChar(0, line[0]);
    }
    var ts := line[1..20];
    assert ShapeAt(line, 1) by {
      forall j | 1 <= j < 20 ensures ShapeChar(j - 1, line[j]) {
        assert line[j] == ts[j - 1];
      }
    }
    assert FirstShape(line, 0) == FirstShape(line, 1);
  }

  /** `ts_str[:16]`, the `YYYY-MM-DDTHH:MM` bucket of a timestamp. */
  function MinuteKey(ts: string): (k: string)
    requires IsTimestamp(ts)
    ensures |k| == 16 && k <= ts
  {
    ts[..16]
  }

  /** Bucketing by minute keeps time order: a later timestamp never falls
      into an earlier minute. */
  lemma {:induction false} PrefixMonotone(a: string, b: string, n: nat)
    requires n <= |a| && n <= |b|
    requires LexLe(a, b)
    ensures LexLe(a[..n], b[..n])
  {
    if n > 0 && a != b && a[0] == b[0] {
      assert a[1..] != b[1..];
      PrefixMonotone(a[1..], b[1..], n - 1);
      assert a[..n][1..] == a[1..][..n - 1];
      assert b[..n][1..] == b[1..][..n - 1];
      if a[1..][..n - 1] == b[1..][..n - 1] {
        assert a[..n] == [a[0]] + a[1..][..n - 1];
        assert b[..n] == [b[0]] + b[1..][..n - 1];
      }
    }
  }

  lemma MinuteKeyMonotone(a: string, b: string)
    requires IsTimestamp(a) && IsTimestamp(b)
    requires LexLe(a, b)
    ensures LexLe(MinuteKey(a), MinuteKey(b))
  {
    PrefixMonotone(a, b, 16);
  }
}

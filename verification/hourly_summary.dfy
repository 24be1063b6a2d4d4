/** `bam-hourly-summary.py`: the validator log is read newest line first
    and scanned back to a cutoff time; on the way, connection events, metric
    totals, anomalous metric lines, leader-slot lines and BAM error lines are
    collected. The lists are then put back into time order, a capped text
    summary is built for the AI prompt, and the embed colour and the
    decision whether any analysis is needed are taken from the totals. */
module HourlySummary {
  import opened Wrappers
  import opened Text
  import opened Fields
  import opened Timestamp
  import opened Order
  import opened Seqs
  import Sums

  // ---------------------------------------------------------------------
  // Line classes

  /** Number of literal phrases `BAM_EVENT_REGEX` looks for. */
  const EventPhraseCount: nat := 15

  /** The alternatives of `BAM_EVENT_REGEX`, each a plain phrase; the grouped
      `Failed to (?:...)` alternative is spelled out as its three phrases. */
  function EventPhrase(i: nat): string
    requires i < EventPhraseCount
  {
    match i
    case 0 => "BAM connection established"
    case 1 => "BAM connection lost"
    case 2 => "BAM connection not healthy"
    case 3 => "Failed to connect to BAM"
    case 4 => "Failed to start scheduler stream"
    case 5 => "Failed to prepare auth response"
    case 6 => "Failed to send initial auth proof"
    case 7 => "Failed to get auth challenge"
    case 8 => "Inbound stream closed"
    case 9 => "Failed to receive message from inbound stream"
    case 10 => "Failed to get config"
    case 11 => "Received unsupported versioned message"
    case 12 => "BAM Manager: timed out waiting for new identity"
    case 13 => "BAM URL changed"
    case _ => "BAM Manager: detected new identity"
  }

  /** `BAM_EVENT_REGEX.search(line)`: some alternative occurs in the line. */
  predicate IsEvent(line: string) {
    exists i: nat :: i < EventPhraseCount && Contains(line, EventPhrase(i))
  }

  /** `BAM_METRIC_REGEX.search(line)`. */
  predicate IsMetric(line: string) {
    Contains(line, "bam_connection-metrics")
  }

  /** `LEADER_SLOT_REGEX.search(line)`. */
  predicate IsLeaderSlot(line: string) {
    Contains(line, "replay_stage-my_leader_slot")
  }

  /** `" ERROR " in line and ("bam" in line.lower() or "BAM" in line)`. */
  predicate IsError(line: string) {
    Contains(line, " ERROR ") && (Contains(Lower(line), "bam") || Contains(line, "BAM"))
  }

  /** An upper-case `BAM` is a `bam` once the line is lowered. */
  lemma UpperBamIsLowerBam(line: string)
    requires Contains(line, "BAM")
    ensures Contains(Lower(line), "bam")
  {
    ContainsIff(line, "BAM");
    var i: nat :| OccursAt(line, "BAM", i);
    assert line[i] == 'B' && line[i + 1] == 'A' && line[i + 2] == 'M';
    var low := Lower(line);
    assert low[i..i + 3] == "bam";
    assert OccursAt(low, "bam", i);
    ContainsIff(low, "bam");
  }

  /** The second test of the error condition adds nothing: a line is a BAM
      error line exactly when it holds ` ERROR ` and, ignoring case, `bam`. */
  lemma ErrorIff(line: string)
    ensures IsError(line) <==> Contains(line, " ERROR ") && Contains(Lower(line), "bam")
  {
    if Contains(line, "BAM") {
      UpperBamIsLowerBam(line);
    }
  }

  // ---------------------------------------------------------------------
  // Metric fields

  /** `METRIC_FIELDS`, in the order of the dictionary. */
  function MetricFields(): seq<Field> {
    [BundleReceived, BundleResultSent, SchedulerFail, OutboundFail,
     UnhealthyCount, HeartbeatReceived, HeartbeatSent, LeaderStateSent]
  }

  /** Every field is extracted, and each exactly once. */
  lemma MetricFieldsComplete()
    ensures forall f: Field :: f in MetricFields()
    ensures Sums.Distinct(MetricFields())
  {
    forall f: Field ensures f in MetricFields() {
      match f
      case BundleReceived => assert MetricFields()[0] == f;
      case BundleResultSent => assert MetricFields()[1] == f;
      case SchedulerFail => assert MetricFields()[2] == f;
      case OutboundFail => assert MetricFields()[3] == f;
      case UnhealthyCount => assert MetricFields()[4] == f;
      case HeartbeatReceived => assert MetricFields()[5] == f;
      case HeartbeatSent => assert MetricFields()[6] == f;
      case LeaderStateSent => assert MetricFields()[7] == f;
    }
  }

  /** One turn of the inner loop over `METRIC_FIELDS`: a field present on
      the line adds its leftmost value to its total (`metric_totals[field] += val`). */
  function AddField(t: map<Field, nat>, line: string, f: Field): (r: map<Field, nat>)
    ensures Lookup(r, f) == Lookup(t, f) + FieldOr0(line, f)
    ensures forall g :: g != f ==> Lookup(r, g) == Lookup(t, g)
  {
    match FieldValue(line, f)
    case Some(v) => t[f := Lookup(t, f) + v]
    case None => t
  }

  /** The inner loop over the fields `fs`. */
  function AddFields(t: map<Field, nat>, line: string, fs: seq<Field>): map<Field, nat>
    decreases |fs|
  {
    if fs == [] then t else AddFields(AddField(t, line, fs[0]), line, fs[1..])
  }

  /** Running the field loop over distinct fields adds to each listed total
      that field's value on the line (0 when absent) and leaves the others. */
  lemma {:induction false} AddFieldsAdds(t: map<Field, nat>, line: string, fs: seq<Field>)
    requires Sums.Distinct(fs)
    ensures forall g :: Lookup(AddFields(t, line, fs), g)
                        == Lookup(t, g) + (if g in fs then FieldOr0(line, g) else 0)
    decreases |fs|
  {
    if fs != [] {
      var f := fs[0];
      var rest := fs[1..];
      var t' := AddField(t, line, f);
      assert Sums.Distinct(rest) by {
        forall i, j | 0 <= i < j < |rest| ensures rest[i] != rest[j] {
          assert rest[i] == fs[i + 1] && rest[j] == fs[j + 1];
        }
      }
      AddFieldsAdds(t', line, rest);
      assert f !in rest by {
        forall j | 0 <= j < |rest| ensures rest[j] != f {
          assert rest[j] == fs[j + 1];
        }
      }
      forall g ensures Lookup(AddFields(t, line, fs), g)
                       == Lookup(t, g) + (if g in fs then FieldOr0(line, g) else 0)
      {
        assert g in fs <==> g == f || g in rest by {
          assert fs == [f] + rest;
        }
      }
    }
  }

  /** The fields `anomaly_lines` watches, in the order they are tried. */
  function AnomalyFields(): seq<Field> {
    [UnhealthyCount, OutboundFail, SchedulerFail]
  }

  /** The anomaly loop: the first field in `fs` present with a value above
      zero, at which the loop breaks; `None` when it runs to the end. */
  function FirstAnomaly(line: string, fs: seq<Field>): (r: Option<Field>)
    decreases |fs|
    ensures r.None? <==> forall k :: 0 <= k < |fs| ==> FieldOr0(line, fs[k]) == 0
    ensures r.Some? ==> r.value in fs && FieldOr0(line, r.value) > 0
  {
    if fs == [] then None
    else
      var rest := FirstAnomaly(line, fs[1..]);
      assert forall k :: 0 <= k < |fs[1..]| ==> fs[1..][k] == fs[k + 1];
      match FieldValue(line, fs[0])
      case Some(v) => if v > 0 then Some(fs[0]) else rest
      case None => rest
  }

  /** A metric line that the anomaly loop appends. */
  predicate IsAnomalyLine(line: string) {
    IsMetric(line) && FirstAnomaly(line, AnomalyFields()).Some?
  }

  /** The loop's break means a line is appended once at most, and it is
      appended exactly when some watched field is above zero. */
  lemma AnomalyIff(line: string)
    ensures IsAnomalyLine(line) <==>
              IsMetric(line) && (FieldOr0(line, UnhealthyCount) > 0 ||
                                 FieldOr0(line, OutboundFail) > 0 ||
                                 FieldOr0(line, SchedulerFail) > 0)
  {
    var fs := AnomalyFields();
    assert fs[0] == UnhealthyCount && fs[1] == OutboundFail && fs[2] == SchedulerFail;
  }

  // ---------------------------------------------------------------------
  // The scan window

  /** The scan breaks at `line`: it carries a timestamp earlier than the
      cutoff. Untimed lines never stop it. */
  predicate Stops(line: string, cutoff: string) {
    var ts := ParseAnywhere(line);
    ts.Some? && LexLess(ts.value, cutoff)
  }

  /** How many lines, newest first, the scan takes before it breaks. */
  function WindowEnd(lines: seq<string>, cutoff: string): (k: nat)
    ensures k <= |lines|
    ensures forall i :: 0 <= i < k ==> !Stops(lines[i], cutoff)
    ensures k < |lines| ==> Stops(lines[k], cutoff)
  {
    FirstWhere(lines, line => Stops(line, cutoff))
  }

  /** The lines the scan reads, newest first; the line that stops it is not
      among them. */
  function Window(lines: seq<string>, cutoff: string): seq<string> {
    lines[..WindowEnd(lines, cutoff)]
  }

  /** The window ends at `k` exactly when no line before `k` stops the scan
      and the line at `k`, if any, does. */
  lemma WindowIsFirstStop(lines: seq<string>, cutoff: string, k: nat)
    requires k <= |lines|
    ensures k == WindowEnd(lines, cutoff) <==>
              && (forall i :: 0 <= i < k ==> !Stops(lines[i], cutoff))
              && (k == |lines| || Stops(lines[k], cutoff))
  {
  }

  /** The timestamp of a timed line. */
  function Stamp(line: string): string
    requires ParseAnywhere(line).Some?
  {
    ParseAnywhere(line).value
  }

  /** The timed lines of `lines` come newest first, as `tac` gives them. */
  predicate NewestFirst(lines: seq<string>) {
    forall i, j :: 0 <= i < j < |lines| && ParseAnywhere(lines[i]).Some? && ParseAnywhere(lines[j]).Some? ==>
      LexLe(Stamp(lines[j]), Stamp(lines[i]))
  }

  /** In a log read newest first, the window holds exactly the timed lines
      stamped at or after the cutoff. */
  lemma WindowOfNewestFirst(lines: seq<string>, cutoff: string)
    requires NewestFirst(lines)
    ensures forall i :: 0 <= i < |lines| && ParseAnywhere(lines[i]).Some? ==>
              (i < WindowEnd(lines, cutoff) <==> !LexLess(Stamp(lines[i]), cutoff))
  {
    var k := WindowEnd(lines, cutoff);
    forall i | 0 <= i < |lines| && ParseAnywhere(lines[i]).Some? && k < i
      ensures LexLess(Stamp(lines[i]), cutoff)
    {
      assert Stops(lines[k], cutoff);
      var a, b := Stamp(lines[i]), Stamp(lines[k]);
      assert LexLe(a, b);
      if a != b {
        LexLessTransitive(a, b, cutoff);
      }
    }
  }

  // ---------------------------------------------------------------------
  // Collecting

  /** The collected `result` dictionary. `totals` is the `defaultdict`
      `metric_totals`, read through `Lookup`. */
  datatype Data = Data(events: seq<string>, totals: map<Field, nat>, metricMinutes: nat,
                       anomalies: seq<string>, errors: seq<string>, leaderSlots: nat)

  function Empty(): Data {
    Data([], map[], 0, [], [], 0)
  }

  /** One iteration of the scan loop for a line inside the window. */
  function Step(d: Data, line: string): Data {
    var metric := IsMetric(line);
    Data(
      d.events + (if IsEvent(line) then [Strip(line)] else []),
      if metric then AddFields(d.totals, line, MetricFields()) else d.totals,
      d.metricMinutes + (if metric then 1 else 0),
      d.anomalies + (if IsAnomalyLine(line) then [Strip(line)] else []),
      d.errors + (if IsError(line) then [Strip(line)] else []),
      d.leaderSlots + (if IsLeaderSlot(line) then 1 else 0))
  }

  /** The loop over the lines of the window, in the order they are read. */
  function Scan(lines: seq<string>): Data {
    if lines == [] then Empty() else Step(Scan(lines[..|lines| - 1]), lines[|lines| - 1])
  }

  /** The three lists put back into time order. */
  function Chronological(d: Data): Data {
    d.(events := Reverse(d.events), anomalies := Reverse(d.anomalies), errors := Reverse(d.errors))
  }

  /** `collect_bam_data` on the lines `tac` produced. */
  function Collect(lines: seq<string>, cutoff: string): Data {
    Chronological(Scan(Window(lines, cutoff)))
  }

  /** What a metric line adds to the total of `f`. */
  function MetricValue(f: Field): string -> nat {
    line => if IsMetric(line) then FieldOr0(line, f) else 0
  }

  /** `sum` of the leftmost `f` values over the metric lines of `lines`. */
  function FieldSum(lines: seq<string>, f: Field): nat {
    SumBy(lines, MetricValue(f))
  }

  /** `d` holds, for the lines `w` in reading order, every comprehension the
      loop builds up piece by piece. */
  ghost predicate Accounts(w: seq<string>, d: Data) {
    && d.events == MapFilter(w, IsEvent, Strip)
    && d.anomalies == MapFilter(w, IsAnomalyLine, Strip)
    && d.errors == MapFilter(w, IsError, Strip)
    && d.metricMinutes == Count(w, IsMetric)
    && d.leaderSlots == Count(w, IsLeaderSlot)
    && forall f :: Lookup(d.totals, f) == FieldSum(w, f)
  }

  lemma SumBySnoc<T>(xs: seq<T>, x: T, g: T -> nat)
    ensures SumBy(xs + [x], g) == SumBy(xs, g) + g(x)
  {
    assert (xs + [x])[..|xs|] == xs;
  }

  /** A metric line adds its values to the totals; any other line leaves them. */
  lemma StepTotals(w: seq<string>, d: Data, line: string)
    requires forall f :: Lookup(d.totals, f) == FieldSum(w, f)
    ensures forall f :: Lookup(Step(d, line).totals, f) == FieldSum(w + [line], f)
  {
    MetricFieldsComplete();
    AddFieldsAdds(d.totals, line, MetricFields());
    forall f ensures Lookup(Step(d, line).totals, f) == FieldSum(w + [line], f) {
      SumBySnoc(w, line, MetricValue(f));
    }
  }

  /** One iteration extends each list by the line when it is selected. */
  lemma StepLists(w: seq<string>, d: Data, line: string)
    requires d.events == MapFilter(w, IsEvent, Strip)
    requires d.anomalies == MapFilter(w, IsAnomalyLine, Strip)
    requires d.errors == MapFilter(w, IsError, Strip)
    ensures Step(d, line).events == MapFilter(w + [line], IsEvent, Strip)
    ensures Step(d, line).anomalies == MapFilter(w + [line], IsAnomalyLine, Strip)
    ensures Step(d, line).errors == MapFilter(w + [line], IsError, Strip)
  {
    var d' := Step(d, line);
    MapFilterSnoc(w, line, IsEvent, Strip);
    assert d'.events == d.events + (if IsEvent(line) then [Strip(line)] else []);
    MapFilterSnoc(w, line, IsAnomalyLine, Strip);
    assert d'.anomalies == d.anomalies + (if IsAnomalyLine(line) then [Strip(line)] else []);
    MapFilterSnoc(w, line, IsError, Strip);
    assert d'.errors == d.errors + (if IsError(line) then [Strip(line)] else []);
  }

  /** One iteration counts the line when it is a metric or leader-slot line. */
  lemma StepCounters(w: seq<string>, d: Data, line: string)
    requires d.metricMinutes == Count(w, IsMetric)
    requires d.leaderSlots == Count(w, IsLeaderSlot)
    ensures Step(d, line).metricMinutes == Count(w + [line], IsMetric)
    ensures Step(d, line).leaderSlots == Count(w + [line], IsLeaderSlot)
  {
    CountAppend(w, line, IsMetric);
    CountAppend(w, line, IsLeaderSlot);
  }

  /** One iteration keeps the account. */
  lemma StepAccounts(w: seq<string>, d: Data, line: string)
    requires Accounts(w, d)
    ensures Accounts(w + [line], Step(d, line))
  {
    StepLists(w, d, line);
    StepCounters(w, d, line);
    StepTotals(w, d, line);
  }

  /** The loop builds, for the lines it read, the stripped events, anomaly
      lines and error lines in reading order, counts the metric and
      leader-slot lines, and sums every field over the metric lines. */
  lemma {:induction false} ScanAccounts(w: seq<string>)
    ensures Accounts(w, Scan(w))
  {
    if w == [] {
      assert forall f :: Lookup(Empty().totals, f) == 0;
    } else {
      var init := w[..|w| - 1];
      ScanAccounts(init);
      StepAccounts(init, Scan(init), w[|w| - 1]);
      assert init + [w[|w| - 1]] == w;
    }
  }

  /** `collect_bam_data` in terms of its window: the lists hold the selected
      lines in time order (the window reversed), stripped; the counters count
      the window's metric and leader-slot lines; each total is its field's sum
      over the window's metric lines. */
  lemma CollectCharacterised(lines: seq<string>, cutoff: string)
    ensures var w := Window(lines, cutoff);
            var d := Collect(lines, cutoff);
            && d.events == MapFilter(Reverse(w), IsEvent, Strip)
            && d.anomalies == MapFilter(Reverse(w), IsAnomalyLine, Strip)
            && d.errors == MapFilter(Reverse(w), IsError, Strip)
            && d.metricMinutes == Count(w, IsMetric)
            && d.leaderSlots == Count(w, IsLeaderSlot)
            && forall f :: Lookup(d.totals, f) == FieldSum(w, f)
  {
    var w := Window(lines, cutoff);
    ScanAccounts(w);
    MapFilterReverse(w, IsEvent, Strip);
    MapFilterReverse(w, IsAnomalyLine, Strip);
    MapFilterReverse(w, IsError, Strip);
  }

  /** A line read without breaking lies inside the window. */
  lemma WindowContinues(lines: seq<string>, cutoff: string, i: nat)
    requires i <= WindowEnd(lines, cutoff) && i < |lines| && !Stops(lines[i], cutoff)
    ensures i < WindowEnd(lines, cutoff)
  {
  }

  /** The loop stops at the end of the window. */
  lemma WindowReached(lines: seq<string>, cutoff: string, i: nat)
    requires i <= WindowEnd(lines, cutoff)
    requires i == |lines| || (i < |lines| && Stops(lines[i], cutoff))
    ensures i == WindowEnd(lines, cutoff)
  {
  }

  /** The scan of one more line is one more step. */
  lemma ScanSnoc(lines: seq<string>, i: nat)
    requires i < |lines|
    ensures Scan(lines[..i + 1]) == Step(Scan(lines[..i]), lines[i])
  {
    assert lines[..i + 1][..i] == lines[..i];
  }

  /** The loop of `collect_bam_data`: read newest first, break at the first
      line timed before the cutoff, then reverse the three lists. */
  method CollectLoop(lines: seq<string>, cutoff: string) returns (d: Data)
    ensures d == Collect(lines, cutoff)
  {
    d := Empty();
    var i := 0;
    while i < |lines|
      invariant i <= WindowEnd(lines, cutoff)
      invariant d == Scan(lines[..i])
    {
      if Stops(lines[i], cutoff) {
        break;
      }
      WindowContinues(lines, cutoff, i);
      ScanSnoc(lines, i);
      d := Step(d, lines[i]);
      i := i + 1;
    }
    WindowReached(lines, cutoff, i);
    d := Chronological(d);
  }

  /** A scheduler or outbound failure anywhere in the totals comes from a
      metric line the anomaly loop also kept. */
  lemma FailuresAreAnomalies(lines: seq<string>, cutoff: string)
    ensures var d := Collect(lines, cutoff);
            FailureCount(d) > 0 ==> |d.anomalies| > 0
  {
    var w := Window(lines, cutoff);
    var d := Collect(lines, cutoff);
    ScanAccounts(w);
    if FailureCount(d) > 0 {
      var f := if Lookup(d.totals, SchedulerFail) > 0 then SchedulerFail else OutboundFail;
      assert FieldSum(w, f) > 0;
      SumByPositive(w, MetricValue(f));
      var i :| 0 <= i < |w| && MetricValue(f)(w[i]) > 0;
      AnomalyIff(w[i]);
      CountPositive(w, IsAnomalyLine);
    }
  }

  // ---------------------------------------------------------------------
  // Decisions

  /** `failure_count`: scheduler plus outbound failures. */
  function FailureCount(d: Data): nat {
    Lookup(d.totals, SchedulerFail) + Lookup(d.totals, OutboundFail)
  }

  /** `needs_analysis`. */
  predicate NeedsAnalysis(d: Data) {
    |d.events| > 0 || FailureCount(d) > 0 || |d.anomalies| > 0
  }

  /** For collected data the failure total never decides alone: analysis is
      needed exactly when the window holds an event line or an anomaly line. */
  lemma NeedsAnalysisOfWindow(lines: seq<string>, cutoff: string)
    ensures NeedsAnalysis(Collect(lines, cutoff)) <==>
              exists i :: 0 <= i < |Window(lines, cutoff)| &&
                          (IsEvent(Window(lines, cutoff)[i]) || IsAnomalyLine(Window(lines, cutoff)[i]))
  {
    var w := Window(lines, cutoff);
    FailuresAreAnomalies(lines, cutoff);
    ScanAccounts(w);
    CountPositive(w, IsEvent);
    CountPositive(w, IsAnomalyLine);
  }

  const Red: nat := 0xFF0000
  const Amber: nat := 0xFFAA00
  const Green: nat := 0x00FF00

  /** The embed colour of `send_discord_embed`. */
  function EmbedColour(d: Data): nat {
    var hasFailures := Lookup(d.totals, SchedulerFail) > 0 || Lookup(d.totals, OutboundFail) > 0;
    var hasEvents := |d.events| > 0;
    if hasFailures || hasEvents then (if |d.events| >= 5 then Red else Amber) else Green
  }

  /** The colour in terms of the failure count: green exactly when there are
      neither failures nor events, red exactly when there are five events or
      more, amber otherwise. */
  lemma ColourBands(d: Data)
    ensures EmbedColour(d) == Green <==> FailureCount(d) == 0 && |d.events| == 0
    ensures EmbedColour(d) == Red <==> |d.events| >= 5
    ensures EmbedColour(d) == Amber <==> (FailureCount(d) > 0 || |d.events| > 0) && |d.events| < 5
  {
  }

  /** An analysed report is sent green exactly when anomalies alone called
      for the analysis. */
  lemma GreenAnalysis(d: Data)
    ensures NeedsAnalysis(d) && EmbedColour(d) == Green <==>
              |d.events| == 0 && FailureCount(d) == 0 && |d.anomalies| > 0
  {
  }

  // ---------------------------------------------------------------------
  // The summary text

  const EventCap: nat := 30
  const ListCap: nat := 20
  const ItemWidth: nat := 300

  /** Label of a metric total in the summary header, padded to 25 columns. */
  function Label(f: Field): string {
    match f
    case BundleReceived => "Bundles received:        "
    case BundleResultSent => "Bundle results sent:     "
    case SchedulerFail => "Scheduler failures:      "
    case OutboundFail => "Outbound failures:       "
    case UnhealthyCount => "Unhealthy conn count:    "
    case HeartbeatReceived => "Heartbeats received:     "
    case HeartbeatSent => "Heartbeats sent:         "
    case LeaderStateSent => "Leader states sent:      "
  }

  /** The header: the window's size, then one line per metric total. */
  function Header(d: Data, hours: int): (r: seq<string>)
    ensures |r| == 1 + |MetricFields()|
  {
    ["=== BAM Metrics Summary (past " + IntToString(hours) + "h, "
       + NatToString(d.metricMinutes) + " data points) ==="]
    + seq(|MetricFields()|, k requires 0 <= k < |MetricFields()| =>
            "  " + Label(MetricFields()[k]) + NatToString(Lookup(d.totals, MetricFields()[k])))
  }

  /** All totals are printed in one column: every label is 25 wide. */
  lemma HeaderAligned(d: Data, hours: int, k: nat)
    requires k < |MetricFields()|
    ensures var line := Header(d, hours)[k + 1];
            var f := MetricFields()[k];
            && |line| > 27
            && line[27..] == NatToString(Lookup(d.totals, f))
            && DigitsValue(line[27..]) == Lookup(d.totals, f)
  {
    var f := MetricFields()[k];
    assert |Label(f)| == 25;
    NatToStringRoundTrip(Lookup(d.totals, f));
  }

  /** `f"  {item[:300]}"`. */
  function ItemLine(item: string): string {
    "  " + Prefix(item, ItemWidth)
  }

  /** The first `cap` items, one line each. */
  function Listed(items: seq<string>, cap: nat): (r: seq<string>)
    ensures |r| == if |items| <= cap then |items| else cap
  {
    var n := if |items| <= cap then |items| else cap;
    seq(n, k requires 0 <= k < n => ItemLine(items[k]))
  }

  /** `f"  ... and {len(items) - cap} more{noun}"`, present only past the cap. */
  function MoreLine(items: seq<string>, cap: nat, noun: string): seq<string> {
    if |items| > cap then [RestLine(|items| - cap, noun)] else []
  }

  /** A section of the summary: nothing for an empty list, otherwise its
      title, the capped items and the count of the rest. */
  function Section(title: string, items: seq<string>, cap: nat, noun: string): seq<string> {
    if items == [] then [] else [title] + Listed(items, cap) + MoreLine(items, cap, noun)
  }

  /** An element of the middle piece of a concatenation. */
  lemma MiddleIndex<T>(a: seq<T>, b: seq<T>, c: seq<T>, j: nat)
    requires j < |b|
    ensures (a + b + c)[|a| + j] == b[j]
  {
  }

  /** The middle piece of a concatenation, cut back out. */
  lemma MiddleSlice<T>(a: seq<T>, b: seq<T>, c: seq<T>)
    ensures (a + b + c)[|a|..|a + b + c| - |c|] == b
  {
  }

  /** A section lists the first items in order, each cut to 300 characters
      and otherwise unchanged, at most `cap` of them, after its title. */
  lemma SectionListsItems(title: string, items: seq<string>, cap: nat, noun: string)
    requires items != []
    ensures var r := Section(title, items, cap, noun);
            var n := if |items| <= cap then |items| else cap;
            && |r| == 1 + n + (if |items| > cap then 1 else 0)
            && r[0] == title
            && forall k :: 0 <= k < n ==>
                 && |r[k + 1]| <= 2 + ItemWidth
                 && r[k + 1][..2] == "  "
                 && r[k + 1][2..] == items[k][..|r[k + 1]| - 2]
                 && (|items[k]| <= ItemWidth ==> r[k + 1][2..] == items[k])
  {
    var r := Section(title, items, cap, noun);
    var n := if |items| <= cap then |items| else cap;
    forall k | 0 <= k < n
      ensures r[k + 1] == ItemLine(items[k])
    {
    }
  }

  /** The line counting the items past the cap. */
  function RestLine(rest: nat, noun: string): string {
    "  ... and " + NatToString(rest) + " more" + noun
  }

  /** The count written in a rest line reads back as the count. */
  lemma RestLineReadsBack(rest: nat, noun: string)
    ensures var line := RestLine(rest, noun);
            |line| >= 15 + |noun| && DigitsValue(line[10..|line| - 5 - |noun|]) == rest
  {
    var a, b, c := "  ... and ", NatToString(rest), " more" + noun;
    assert |a| == 10 && |c| == 5 + |noun|;
    assert RestLine(rest, noun) == a + b + c;
    MiddleSlice(a, b, c);
    NatToStringRoundTrip(rest);
  }

  /** A section closes with a count of the items past the cap exactly when
      there are any; read back, that count and the listed items add up to
      the whole list. */
  lemma SectionCountsRest(title: string, items: seq<string>, cap: nat, noun: string)
    requires items != []
    ensures var r := Section(title, items, cap, noun);
            var n := if |items| <= cap then |items| else cap;
            && |r| == 1 + n + (if |items| > cap then 1 else 0)
            && (|items| > cap ==>
                  n + DigitsValue(r[n + 1][10..|r[n + 1]| - 5 - |noun|]) == |items|)
  {
    var r := Section(title, items, cap, noun);
    var listed := Listed(items, cap);
    var tail := MoreLine(items, cap, noun);
    assert r == [title] + listed + tail;
    if |items| > cap {
      assert r[|listed| + 1] == RestLine(|items| - cap, noun);
      RestLineReadsBack(|items| - cap, noun);
    }
  }

  function EventsTitle(n: nat): string {
    "\n=== Connection Events (" + NatToString(n) + ") ==="
  }

  function AnomaliesTitle(n: nat): string {
    "\n=== Metric Anomalies (" + NatToString(n) + " lines with failures/unhealthy) ==="
  }

  function ErrorsTitle(n: nat): string {
    "\n=== BAM Error Log Lines (" + NatToString(n) + ") ==="
  }

  /** The `parts` list of `build_summary_text`. */
  function SummaryParts(d: Data, hours: int): seq<string> {
    Header(d, hours)
    + Section(EventsTitle(|d.events|), d.events, EventCap, " events")
    + Section(AnomaliesTitle(|d.anomalies|), d.anomalies, ListCap, "")
    + Section(ErrorsTitle(|d.errors|), d.errors, ListCap, "")
  }

  /** `build_summary_text`. */
  function SummaryText(d: Data, hours: int): string {
    Join(SummaryParts(d, hours), "\n")
  }

  /** The first 30 events, each cut to 300 characters, appear in the summary
      in time order, right after the events title. */
  lemma SummaryListsEvents(d: Data, hours: int)
    requires d.events != []
    ensures var parts := SummaryParts(d, hours);
            var h := |Header(d, hours)|;
            && parts[h] == EventsTitle(|d.events|)
            && forall k :: 0 <= k < |d.events| && k < EventCap ==>
                 parts[h + 1 + k] == ItemLine(d.events[k])
  {
    var hd := Header(d, hours);
    var rest := Section(AnomaliesTitle(|d.anomalies|), d.anomalies, ListCap, "")
                + Section(ErrorsTitle(|d.errors|), d.errors, ListCap, "");
    assert SummaryParts(d, hours)
           == hd + Section(EventsTitle(|d.events|), d.events, EventCap, " events") + rest;
    SectionInContext(hd, EventsTitle(|d.events|), d.events, EventCap, " events", rest);
  }

  /** A non-empty section placed after `hd`: its title, then its items. */
  lemma SectionInContext(hd: seq<string>, title: string, items: seq<string>, cap: nat, noun: string,
                         rest: seq<string>)
    requires items != []
    ensures var parts := hd + Section(title, items, cap, noun) + rest;
            && |parts| > |hd|
            && parts[|hd|] == title
            && forall k :: 0 <= k < |items| && k < cap ==> parts[|hd| + 1 + k] == ItemLine(items[k])
  {
    var sec := Section(title, items, cap, noun);
    MiddleIndex(hd, sec, rest, 0);
    forall k | 0 <= k < |items| && k < cap
      ensures (hd + sec + rest)[|hd| + 1 + k] == ItemLine(items[k])
    {
      SectionItem(title, items, cap, noun, k);
      MiddleIndex(hd, sec, rest, 1 + k);
    }
  }

  /** One listed item of a section, by position. */
  lemma SectionItem(title: string, items: seq<string>, cap: nat, noun: string, k: nat)
    requires k < |items| && k < cap
    ensures |Section(title, items, cap, noun)| > k + 1
    ensures Section(title, items, cap, noun)[k + 1] == ItemLine(items[k])
  {
    var listed := Listed(items, cap);
    MiddleIndex([title], listed, MoreLine(items, cap, noun), k);
  }

  // ---------------------------------------------------------------------
  // Embed description

  const DescriptionLimit: nat := 4000

  /** `summary[:3997] + "..."` when the summary is over 4000 characters. */
  function Truncate(s: string): (r: string)
    ensures |r| <= DescriptionLimit
    ensures |s| <= DescriptionLimit ==> r == s
    ensures |s| > DescriptionLimit ==>
              |r| == DescriptionLimit && r[..DescriptionLimit - 3] == s[..DescriptionLimit - 3]
              && r[DescriptionLimit - 3..] == "..."
  {
    if |s| > DescriptionLimit then s[..DescriptionLimit - 3] + "..." else s
  }

  /** A description cut once is not cut again. */
  lemma TruncateIdempotent(s: string)
    ensures Truncate(Truncate(s)) == Truncate(s)
  {
  }
}

/** The report `bam-leader-activity.py` prints from the scan: the BAM bundle
    table over the minutes with bundles, the failures table, the leader slot
    table with produced and skipped slots, the totals and averages, and the
    ±20 % indicators. */
module LeaderReport {
  import opened Wrappers
  import opened Order
  import opened Sums
  import opened Stats
  import opened Seqs
  import opened LeaderActivity

  // ---------------------------------------------------------------------
  // The bundle table.

  /** The minutes with at least one bundle. */
  function ActiveSet(buckets: map<string, Bucket>): (r: set<string>)
    ensures forall k :: k in r <==> k in buckets && buckets[k].bundles > 0
  {
    set k | k in buckets && buckets[k].bundles > 0
  }

  /** `sorted(m for m, d in bundle_data.items() if d["bundles"] > 0)` */
  function ActiveMinutes(buckets: map<string, Bucket>): (r: seq<string>)
    ensures Lists(r, ActiveSet(buckets), LexLess)
  {
    SortStrings(ActiveSet(buckets))
  }

  function MinOf(xs: seq<nat>): (m: nat)
    requires xs != []
    ensures m in xs && forall x :: x in xs ==> m <= x
  {
    if |xs| == 1 then xs[0]
    else
      var m := MinOf(xs[..|xs| - 1]);
      assert forall x :: x in xs ==> x in xs[..|xs| - 1] || x == xs[|xs| - 1];
      if xs[|xs| - 1] < m then xs[|xs| - 1] else m
  }

  function MaxOf(xs: seq<nat>): (m: nat)
    requires xs != []
    ensures m in xs && forall x :: x in xs ==> x <= m
  {
    if |xs| == 1 then xs[0]
    else
      var m := MaxOf(xs[..|xs| - 1]);
      assert forall x :: x in xs ==> x in xs[..|xs| - 1] || x == xs[|xs| - 1];
      if xs[|xs| - 1] > m then xs[|xs| - 1] else m
  }

  /** The "Slot Range" cell: `(no slot data)`, one slot, or `first - last`
      of the sorted frozen slots (a slot frozen twice is a range of itself). */
  datatype SlotRange = NoSlotData | Single(slot: nat) | Span(first: nat, last: nat)

  function SlotRangeOf(frozen: seq<nat>): (r: SlotRange)
    ensures r.NoSlotData? <==> frozen == []
    ensures r.Single? <==> |frozen| == 1
    ensures r.Single? ==> r.slot == frozen[0]
    ensures r.Span? ==> r.first in frozen && r.last in frozen
    ensures r.Span? ==> forall s :: s in frozen ==> r.first <= s <= r.last
  {
    if frozen == [] then NoSlotData
    else if |frozen| == 1 then Single(frozen[0])
    else Span(MinOf(frozen), MaxOf(frozen))
  }

  datatype BamRow = BamRow(minute: string, range: SlotRange, bundles: nat, results: nat)

  function BamRowOf(st: State, k: string): (row: BamRow)
    ensures row.minute == k
    ensures row.bundles == BucketOf(st.buckets, k).bundles && row.results == BucketOf(st.buckets, k).resultsSent
    ensures row.range == SlotRangeOf(FrozenOf(st.frozen, k))
  {
    var b := BucketOf(st.buckets, k);
    BamRow(k, SlotRangeOf(FrozenOf(st.frozen, k)), b.bundles, b.resultsSent)
  }

  /** The "% Sent" cell: results sent per bundle received, in percent. */
  function PctSent(row: BamRow): (r: real)
    ensures row.bundles == 0 ==> r == 0.0
    ensures row.bundles > 0 ==> r * (row.bundles as real) == 100.0 * (row.results as real)
    ensures row.results <= row.bundles ==> 0.0 <= r <= 100.0
  {
    Percent(row.results, row.bundles)
  }

  /** One counter summed over a list of minutes. */
  function Total(ks: seq<string>, buckets: map<string, Bucket>, c: Col): nat {
    SumOver(ks, Column(buckets, c))
  }

  datatype BamTable = BamTable(
    rows: seq<BamRow>,
    bundles: nat, results: nat, schedulerFail: nat, outboundFail: nat,
    unhealthy: nat, heartbeats: nat)

  /** The bundle table over the minutes `ks`: a row per minute, and totals
      over those minutes only. */
  function BamTableFor(st: State, ks: seq<string>): (t: BamTable)
    ensures |t.rows| == |ks|
    ensures forall i :: 0 <= i < |ks| ==> t.rows[i] == BamRowOf(st, ks[i])
  {
    var rows := seq(|ks|, i requires 0 <= i < |ks| => BamRowOf(st, ks[i]));
    BamTable(rows, Total(ks, st.buckets, Bundles), Total(ks, st.buckets, Results),
             Total(ks, st.buckets, SchedFail), Total(ks, st.buckets, OutFail),
             Total(ks, st.buckets, Unhealthy), Total(ks, st.buckets, Heartbeats))
  }

  /** The bundle table, shown only when some minute had bundles. */
  function BamTableOf(st: State): (t: Option<BamTable>)
    ensures t.None? <==> ActiveSet(st.buckets) == {}
  {
    var active := ActiveMinutes(st.buckets);
    if active == [] then None else Some(BamTableFor(st, active))
  }

  /** The "TOTAL" row's overall send rate and the "(average)" row. */
  function OverallPct(t: BamTable): (r: real)
    ensures t.bundles == 0 ==> r == 0.0
    ensures t.bundles > 0 ==> r * (t.bundles as real) == 100.0 * (t.results as real)
  {
    Percent(t.results, t.bundles)
  }

  function AvgBundles(t: BamTable): (r: real)
    ensures |t.rows| > 0 ==> r * (|t.rows| as real) == t.bundles as real
  {
    Mean(t.bundles as real, |t.rows|)
  }

  function AvgResults(t: BamTable): (r: real)
    ensures |t.rows| > 0 ==> r * (|t.rows| as real) == t.results as real
  {
    Mean(t.results as real, |t.rows|)
  }

  /** Summed over the minutes with bundles, the bundle column gives its
      whole-log sum, and it is positive when some minute had bundles. */
  lemma ActiveBundlesCovered(buckets: map<string, Bucket>, ks: seq<string>)
    requires Enumerates(ks, ActiveSet(buckets))
    ensures Total(ks, buckets, Bundles) == SumMap(Column(buckets, Bundles))
    ensures ks != [] ==> SumMap(Column(buckets, Bundles)) > 0
  {
    var m := Column(buckets, Bundles);
    assert Distinct(ks);
    forall k | k in m && k !in ks ensures m[k] == 0 {
      assert k !in ActiveSet(buckets);
    }
    SumOverCovers(ks, m);
    if ks != [] {
      assert ks[0] in ActiveSet(buckets);
      SumMapRemove(m, ks[0]);
    }
  }

  /** Over distinct minutes, no column total exceeds its whole-log sum. */
  lemma TotalWithin(buckets: map<string, Bucket>, ks: seq<string>, c: Col)
    requires Distinct(ks)
    ensures Total(ks, buckets, c) <= SumMap(Column(buckets, c))
  {
    SumOverCovers(ks, Column(buckets, c));
  }

  /** Over any listing of the minutes with bundles, each row has bundles, the
      bundle total is every bundle counted, and no other total exceeds its
      whole-log sum: the listing leaves out only minutes without bundles. */
  lemma ActiveTotalsCover(st: State, ks: seq<string>)
    requires Enumerates(ks, ActiveSet(st.buckets)) && ks != []
    ensures forall i :: 0 <= i < |ks| ==>
              BamTableFor(st, ks).rows[i].minute == ks[i] && BamTableFor(st, ks).rows[i].bundles > 0
    ensures BamTableFor(st, ks).bundles == SumMap(Column(st.buckets, Bundles))
    ensures BamTableFor(st, ks).results <= SumMap(Column(st.buckets, Results))
    ensures BamTableFor(st, ks).heartbeats <= SumMap(Column(st.buckets, Heartbeats))
    ensures BamTableFor(st, ks).unhealthy <= SumMap(Column(st.buckets, Unhealthy))
    ensures BamTableFor(st, ks).bundles > 0
  {
    assert Distinct(ks);
    forall i | 0 <= i < |ks| ensures BamTableFor(st, ks).rows[i].bundles > 0 {
      assert ks[i] in ActiveSet(st.buckets);
    }
    ActiveBundlesCovered(st.buckets, ks);
    TotalWithin(st.buckets, ks, Results);
    TotalWithin(st.buckets, ks, Heartbeats);
    TotalWithin(st.buckets, ks, Unhealthy);
  }

  /** The printed bundle table has one row per minute with bundles, in time
      order. */
  lemma BamRowsInOrder(st: State)
    requires BamTableOf(st).Some?
    ensures var t := BamTableOf(st).value;
            && |t.rows| == |ActiveSet(st.buckets)|
            && (forall i, j :: 0 <= i < j < |t.rows| ==> LexLess(t.rows[i].minute, t.rows[j].minute))
            && (forall i :: 0 <= i < |t.rows| ==> t.rows[i].minute in ActiveSet(st.buckets) && t.rows[i].bundles > 0)
  {
    var ks := ActiveMinutes(st.buckets);
    assert BamTableOf(st) == Some(BamTableFor(st, ks));
    RowsFollowListing(st, ks);
  }

  /** Over an ascending listing of the minutes with bundles, the table's rows
      follow that listing, one per minute, each with bundles. */
  lemma RowsFollowListing(st: State, ks: seq<string>)
    requires Lists(ks, ActiveSet(st.buckets), LexLess) && ks != []
    ensures var t := BamTableFor(st, ks);
            && |t.rows| == |ActiveSet(st.buckets)|
            && (forall i, j :: 0 <= i < j < |t.rows| ==> LexLess(t.rows[i].minute, t.rows[j].minute))
            && (forall i :: 0 <= i < |t.rows| ==> t.rows[i].minute in ActiveSet(st.buckets) && t.rows[i].bundles > 0)
  {
    var t := BamTableFor(st, ks);
    ActiveTotalsCover(st, ks);
    forall i | 0 <= i < |t.rows| ensures t.rows[i].minute == ks[i] && ks[i] in ActiveSet(st.buckets) {
      assert ks[i] in ks;
    }
  }

  /** The printed bundle table's totals cover the whole log as
      `ActiveTotalsCover` states. */
  lemma BamTotalsCover(st: State)
    requires BamTableOf(st).Some?
    ensures var t := BamTableOf(st).value;
            && t.bundles == SumMap(Column(st.buckets, Bundles))
            && t.results <= SumMap(Column(st.buckets, Results))
            && t.heartbeats <= SumMap(Column(st.buckets, Heartbeats))
            && t.unhealthy <= SumMap(Column(st.buckets, Unhealthy))
            && t.bundles > 0
  {
    ActiveTotalsCover(st, ActiveMinutes(st.buckets));
  }

  /** "Heartbeats received (during leader periods)" never exceeds
      "Heartbeats received (total)", and likewise for unhealthy counts. */
  lemma LeaderPeriodHealthWithinGlobal(lines: seq<string>)
    ensures BamTableOf(Pass(lines)).Some? ==>
              && BamTableOf(Pass(lines)).value.heartbeats <= Pass(lines).globalHeartbeats
              && BamTableOf(Pass(lines)).value.unhealthy <= Pass(lines).globalUnhealthy
  {
    if BamTableOf(Pass(lines)).Some? {
      BamTotalsCover(Pass(lines));
      GlobalTotals(lines);
    }
  }

  /** Each row's bundle and results cells carry an indicator against the
      per-period average; against the mean of `n` rows, ▲ means
      `5·bundles·n > 6·total`. */
  function RowIndicators(row: BamRow, t: BamTable): (r: (Indicator, Indicator))
    requires |t.rows| > 0 && t.bundles > 0
    ensures r.0 == Up <==> 5 * row.bundles * |t.rows| > 6 * t.bundles
    ensures r.0 == Down <==> 5 * row.bundles * |t.rows| < 4 * t.bundles
    ensures t.results == 0 ==> r.1 == Flat
    ensures t.results > 0 ==> (r.1 == Up <==> 5 * row.results * |t.rows| > 6 * t.results)
    ensures t.results > 0 ==> (r.1 == Down <==> 5 * row.results * |t.rows| < 4 * t.results)
  {
    IndicatorOfMean(row.bundles, t.bundles, |t.rows|);
    var r := (IndicatorOf(row.bundles as real, AvgBundles(t)), IndicatorOf(row.results as real, AvgResults(t)));
    if t.results > 0 then IndicatorOfMean(row.results, t.results, |t.rows|); r
    else IndicatorBands(row.results as real, AvgResults(t)); r
  }

  // ---------------------------------------------------------------------
  // The failures table.

  /** The minutes with a scheduler or outbound failure, bundles or not. */
  function FailingSet(buckets: map<string, Bucket>): (r: set<string>)
    ensures forall k :: k in r <==> k in buckets && (buckets[k].schedulerFail > 0 || buckets[k].outboundFail > 0)
  {
    set k | k in buckets && (buckets[k].schedulerFail > 0 || buckets[k].outboundFail > 0)
  }

  /** The failing minutes in time order. */
  function FailMinutes(buckets: map<string, Bucket>): (r: seq<string>)
    ensures Lists(r, FailingSet(buckets), LexLess)
  {
    SortStrings(FailingSet(buckets))
  }

  datatype FailRow = FailRow(minute: string, range: SlotRange, schedulerFail: nat, outboundFail: nat)

  function FailRowOf(st: State, k: string): FailRow {
    var b := BucketOf(st.buckets, k);
    FailRow(k, SlotRangeOf(FrozenOf(st.frozen, k)), b.schedulerFail, b.outboundFail)
  }

  function FailRows(st: State, ks: seq<string>): (rows: seq<FailRow>)
    ensures |rows| == |ks|
    ensures forall i :: 0 <= i < |ks| ==> rows[i] == FailRowOf(st, ks[i])
  {
    seq(|ks|, i requires 0 <= i < |ks| => FailRowOf(st, ks[i]))
  }

  /** The sums of the scheduler and outbound columns of the listed rows. */
  function SchedSum(rows: seq<FailRow>): nat {
    if rows == [] then 0 else SchedSum(rows[..|rows| - 1]) + rows[|rows| - 1].schedulerFail
  }

  function OutSum(rows: seq<FailRow>): nat {
    if rows == [] then 0 else OutSum(rows[..|rows| - 1]) + rows[|rows| - 1].outboundFail
  }

  /** A table of failure rows and its "TOTAL FAILURES" line. */
  datatype FailureTable = FailureTable(rows: seq<FailRow>, schedulerTotal: nat, outboundTotal: nat)

  /** The failures table as the script prints it, over the active minutes
      `active` and the failing minutes `mins`: rows for every failing minute,
      but the totals, and the decision to print at all, taken from the
      active minutes only. */
  function FailureTableAsWrittenFor(st: State, active: seq<string>, mins: seq<string>): (t: Option<FailureTable>)
    ensures t.Some? ==> t.value.rows == FailRows(st, mins) && active != []
  {
    var sched := Total(active, st.buckets, SchedFail);
    var out := Total(active, st.buckets, OutFail);
    if active != [] && sched + out > 0 then Some(FailureTable(FailRows(st, mins), sched, out))
    else None
  }

  function FailureTableAsWritten(st: State): Option<FailureTable> {
    FailureTableAsWrittenFor(st, ActiveMinutes(st.buckets), FailMinutes(st.buckets))
  }

  /** The failures table with its totals taken over the rows it lists. */
  function FailureTableFor(st: State, active: seq<string>, mins: seq<string>): (t: Option<FailureTable>)
    ensures t.Some? ==> t.value.rows == FailRows(st, mins) && active != []
  {
    var rows := FailRows(st, mins);
    var sched := SchedSum(rows);
    var out := OutSum(rows);
    if active != [] && sched + out > 0 then Some(FailureTable(rows, sched, out))
    else None
  }

  function FailureTableOf(st: State): Option<FailureTable> {
    FailureTableFor(st, ActiveMinutes(st.buckets), FailMinutes(st.buckets))
  }

  lemma {:induction false} FailRowsSum(st: State, ks: seq<string>)
    ensures SchedSum(FailRows(st, ks)) == Total(ks, st.buckets, SchedFail)
    ensures OutSum(FailRows(st, ks)) == Total(ks, st.buckets, OutFail)
  {
    if ks != [] {
      var init := ks[..|ks| - 1];
      FailRowsSum(st, init);
      assert FailRows(st, ks)[..|ks| - 1] == FailRows(st, init);
    }
  }

  /** Summed over the failing minutes, either failure column gives its
      whole-log sum: every minute left out has no failure of either kind. */
  lemma FailingColumnCovered(buckets: map<string, Bucket>, mins: seq<string>, c: Col)
    requires Enumerates(mins, FailingSet(buckets))
    requires c == SchedFail || c == OutFail
    ensures Total(mins, buckets, c) == SumMap(Column(buckets, c))
  {
    var m := Column(buckets, c);
    assert Distinct(mins);
    forall k | k in m && k !in mins ensures m[k] == 0 {
      assert k !in FailingSet(buckets);
    }
    SumOverCovers(mins, m);
  }

  /** Some failing minute means some failure. */
  lemma FailingPositive(buckets: map<string, Bucket>, mins: seq<string>)
    requires Enumerates(mins, FailingSet(buckets)) && mins != []
    ensures SumMap(Column(buckets, SchedFail)) + SumMap(Column(buckets, OutFail)) > 0
  {
    var k := mins[0];
    assert k in FailingSet(buckets);
    if buckets[k].schedulerFail > 0 {
      SumMapRemove(Column(buckets, SchedFail), k);
    } else {
      SumMapRemove(Column(buckets, OutFail), k);
    }
  }

  /** Over any listing of the failing minutes, the corrected totals are the
      whole-log failure counts, and the table is printed (when there is
      bundle activity) exactly when it has a row. */
  lemma FailureTotalsFor(st: State, active: seq<string>, mins: seq<string>)
    requires Enumerates(mins, FailingSet(st.buckets))
    ensures FailureTableFor(st, active, mins).Some? ==>
              && FailureTableFor(st, active, mins).value.schedulerTotal == SumMap(Column(st.buckets, SchedFail))
              && FailureTableFor(st, active, mins).value.outboundTotal == SumMap(Column(st.buckets, OutFail))
    ensures FailureTableFor(st, active, mins).Some? <==> active != [] && mins != []
  {
    FailRowsSum(st, mins);
    FailingColumnCovered(st.buckets, mins, SchedFail);
    FailingColumnCovered(st.buckets, mins, OutFail);
    if mins != [] {
      FailingPositive(st.buckets, mins);
    }
  }

  /** The corrected failures table totals every failure in the log, and is
      printed exactly when some minute had bundles and some minute had a
      failure. */
  lemma FailureTotalsAreColumnSums(st: State)
    ensures FailureTableOf(st).Some? ==>
              && FailureTableOf(st).value.schedulerTotal == SumMap(Column(st.buckets, SchedFail))
              && FailureTableOf(st).value.outboundTotal == SumMap(Column(st.buckets, OutFail))
    ensures FailureTableOf(st).Some? <==> ActiveSet(st.buckets) != {} && FailingSet(st.buckets) != {}
  {
    FailureTotalsFor(st, ActiveMinutes(st.buckets), FailMinutes(st.buckets));
  }

  /** Two metric readings: a minute `a` with `n` bundles and `p` scheduler
      failures, then another minute `b` with no bundles and `q` scheduler
      failures. */
  function FailureExample(a: string, b: string, n: nat, p: nat, q: nat): seq<Effect> {
    [Metrics(a, Reading(Some(n), None, Some(p), None, None, None)),
     Metrics(b, Reading(Some(0), None, Some(q), None, None, None))]
  }

  /** The scan of a list with one more effect applies that effect. */
  lemma ScanSnoc(effects: seq<Effect>, e: Effect)
    ensures Scan(effects + [e]) == Apply(Scan(effects), e)
  {
    assert (effects + [e])[..|effects|] == effects;
  }

  /** The buckets the example leaves: one per minute. */
  predicate ExampleBuckets(buckets: map<string, Bucket>, a: string, b: string, n: nat, p: nat, q: nat) {
    && buckets.Keys == {a, b}
    && buckets[a].bundles == n && buckets[a].schedulerFail == p && buckets[a].outboundFail == 0
    && buckets[b].bundles == 0 && buckets[b].schedulerFail == q && buckets[b].outboundFail == 0
  }

  lemma FailureExampleBuckets(a: string, b: string, n: nat, p: nat, q: nat)
    requires a != b
    ensures ExampleBuckets(Scan(FailureExample(a, b, n, p, q)).buckets, a, b, n, p, q)
  {
    var e := FailureExample(a, b, n, p, q);
    ScanSnoc([], e[0]);
    assert [] + [e[0]] == [e[0]];
    ScanSnoc([e[0]], e[1]);
    assert [e[0]] + [e[1]] == e;
  }

  lemma TotalOne(k: string, buckets: map<string, Bucket>, c: Col)
    requires k in buckets
    ensures Total([k], buckets, c) == Get(buckets[k], c)
  {
    var m := Column(buckets, c);
    assert [k][..0] == [];
    assert SumOver([k], m) == SumOver([], m) + Lookup(m, k);
  }

  lemma TotalTwo(k1: string, k2: string, buckets: map<string, Bucket>, c: Col)
    requires k1 in buckets && k2 in buckets
    ensures Total([k1, k2], buckets, c) == Get(buckets[k1], c) + Get(buckets[k2], c)
  {
    assert [k1, k2][..1] == [k1];
    TotalOne(k1, buckets, c);
  }

  /** In the example, the only active minute is `a`, and the failing minutes
      hold all `p + q` scheduler failures. */
  lemma ExampleListings(buckets: map<string, Bucket>, a: string, b: string, n: nat, p: nat, q: nat,
                        active: seq<string>, mins: seq<string>)
    requires a != b && n > 0 && q > 0
    requires ExampleBuckets(buckets, a, b, n, p, q)
    requires Enumerates(active, ActiveSet(buckets))
    requires Enumerates(mins, FailingSet(buckets))
    ensures active == [a]
    ensures Total(active, buckets, SchedFail) == p && Total(active, buckets, OutFail) == 0
    ensures Total(mins, buckets, SchedFail) == p + q
  {
    ExampleActiveListing(buckets, a, b, n, p, q, active);
    ExampleFailingListing(buckets, a, b, n, p, q, mins);
  }

  /** In the example, `a` is the only minute with bundles. */
  lemma ExampleActiveListing(buckets: map<string, Bucket>, a: string, b: string, n: nat, p: nat, q: nat,
                             active: seq<string>)
    requires a != b && n > 0 && q > 0
    requires ExampleBuckets(buckets, a, b, n, p, q)
    requires Enumerates(active, ActiveSet(buckets))
    ensures active == [a]
    ensures Total(active, buckets, SchedFail) == p && Total(active, buckets, OutFail) == 0
  {
    assert ActiveSet(buckets) == {a};
    assert active == [a] by {
      assert |active| == 1 && a in active;
    }
    TotalOne(a, buckets, SchedFail);
    TotalOne(a, buckets, OutFail);
  }

  /** In the example, the failing minutes hold all `p + q` scheduler
      failures, whichever order they are listed in. */
  lemma ExampleFailingListing(buckets: map<string, Bucket>, a: string, b: string, n: nat, p: nat, q: nat,
                              mins: seq<string>)
    requires a != b && n > 0 && q > 0
    requires ExampleBuckets(buckets, a, b, n, p, q)
    requires Enumerates(mins, FailingSet(buckets))
    ensures Total(mins, buckets, SchedFail) == p + q
  {
    if p > 0 {
      assert FailingSet(buckets) == {a, b};
      assert |mins| == 2 && mins[0] in {a, b} && mins[1] in {a, b} && mins[0] != mins[1];
      if mins[0] == a {
        assert mins == [a, b];
        TotalTwo(a, b, buckets, SchedFail);
      } else {
        assert mins == [b, a];
        TotalTwo(b, a, buckets, SchedFail);
      }
    } else {
      assert FailingSet(buckets) == {b};
      assert mins == [b] by {
        assert |mins| == 1 && b in mins;
      }
      TotalOne(b, buckets, SchedFail);
    }
  }

  /** The example's tables as written, whatever order the minutes are
      listed in. */
  lemma FailureExampleAsWritten(st: State, a: string, b: string, n: nat, p: nat, q: nat,
                                active: seq<string>, mins: seq<string>)
    requires a != b && n > 0 && q > 0
    requires ExampleBuckets(st.buckets, a, b, n, p, q)
    requires Enumerates(active, ActiveSet(st.buckets))
    requires Enumerates(mins, FailingSet(st.buckets))
    ensures FailureTableAsWrittenFor(st, active, mins).Some? <==> p > 0
    ensures FailureTableAsWrittenFor(st, active, mins).Some? ==>
              && SchedSum(FailureTableAsWrittenFor(st, active, mins).value.rows) == p + q
              && FailureTableAsWrittenFor(st, active, mins).value.schedulerTotal == p
  {
    ExampleListings(st.buckets, a, b, n, p, q, active, mins);
    FailRowsSum(st, mins);
  }

  /** The corrected table of the example. */
  lemma FailureExampleCorrected(st: State, a: string, b: string, n: nat, p: nat, q: nat,
                                active: seq<string>, mins: seq<string>)
    requires a != b && n > 0 && q > 0
    requires ExampleBuckets(st.buckets, a, b, n, p, q)
    requires Enumerates(active, ActiveSet(st.buckets))
    requires Enumerates(mins, FailingSet(st.buckets))
    ensures FailureTableFor(st, active, mins).Some?
    ensures FailureTableFor(st, active, mins).value.schedulerTotal == p + q
  {
    ExampleListings(st.buckets, a, b, n, p, q, active, mins);
    FailRowsSum(st, mins);
  }

  /** The example through the script's own sort order. As written, the
      failures table lists both minutes (`p + q` scheduler failures) under a
      "TOTAL FAILURES" line of `p`, and is not printed at all when `p` is 0;
      the corrected table is printed and totals `p + q`. With `p` = 1 and
      `q` = 5 the printed total is 1 against rows summing to 6. */
  lemma FailureTotalMissesInactiveMinutes(a: string, b: string, n: nat, p: nat, q: nat)
    requires a != b && n > 0 && q > 0
    ensures var st := Scan(FailureExample(a, b, n, p, q));
            && (FailureTableAsWritten(st).Some? <==> p > 0)
            && (FailureTableAsWritten(st).Some? ==>
                  && SchedSum(FailureTableAsWritten(st).value.rows) == p + q
                  && FailureTableAsWritten(st).value.schedulerTotal == p)
            && FailureTableOf(st).Some?
            && FailureTableOf(st).value.schedulerTotal == p + q
  {
    var st := Scan(FailureExample(a, b, n, p, q));
    FailureExampleBuckets(a, b, n, p, q);
    FailureExampleAsWritten(st, a, b, n, p, q, ActiveMinutes(st.buckets), FailMinutes(st.buckets));
    FailureExampleCorrected(st, a, b, n, p, q, ActiveMinutes(st.buckets), FailMinutes(st.buckets));
  }

  // ---------------------------------------------------------------------
  // The leader slot table.

  /** Announced leader slots without any cost, broadcast or timing record. */
  function SkippedSlots(st: State): (r: set<nat>)
    ensures forall s :: s in r <==> s in st.announced && s !in st.slots
  {
    st.announced - st.slots.Keys
  }

  /** The slots with a record together with the skipped ones. */
  function LeaderSlots(st: State): (r: set<nat>)
    ensures forall s :: s in r <==> s in st.slots || s in st.announced
  {
    st.slots.Keys + SkippedSlots(st)
  }

  /** `sorted(set(leader_slot_metrics) | skipped_slots)` */
  function AllLeaderSlots(st: State): (r: seq<nat>)
    ensures Lists(r, LeaderSlots(st), NatLt)
  {
    SortNats(LeaderSlots(st))
  }

  /** `vote_cost // VOTE_CU_COST if vote_cost > 0 else 0`, with
      `VOTE_CU_COST` = 3428 compute units per simple vote transaction: the
      number of whole vote transactions the vote cost pays for. */
  function EstVotes(voteCost: nat): (votes: nat)
    ensures votes * 3428 <= voteCost < votes * 3428 + 3428
  {
    if voteCost > 0 then voteCost / 3428 else 0
  }

  /** `max(0, txns - est_votes)` */
  function EstUser(txns: nat, votes: nat): (user: nat)
    ensures user <= txns
    ensures user + votes >= txns
    ensures votes <= txns ==> user + votes == txns
    ensures votes >= txns ==> user == 0
  {
    if txns > votes then txns - votes else 0
  }

  /** The slot time: the broadcast time when positive, otherwise the sum of
      the accumulated receive and schedule times. */
  function SlotTimeUs(rec: SlotRecord): nat {
    var b := rec.broadcast.GetOr(0);
    if b > 0 then b else rec.receive + rec.schedule
  }

  datatype SlotRow =
    | SkippedRow(slot: nat)
    | ProducedRow(slot: nat, txns: nat, votes: nat, user: nat, blockCost: nat, timeUs: nat,
                  totalFee: nat, priorityFee: nat)

  /** The row of a produced slot: absent cost fields read as 0. */
  function ProducedRowOf(s: nat, rec: SlotRecord): (row: SlotRow)
    ensures row.ProducedRow? && row.slot == s
    ensures row.user + row.votes >= row.txns && row.user <= row.txns
    ensures rec.cost.None? ==> row.txns == 0 && row.votes == 0 && row.blockCost == 0
                               && row.totalFee == 0 && row.priorityFee == 0
  {
    var c := rec.cost.GetOr(Cost(0, 0, 0, 0, 0));
    var votes := EstVotes(c.voteCost);
    ProducedRow(s, c.txnCount, votes, EstUser(c.txnCount, votes), c.blockCost, SlotTimeUs(rec),
                c.totalFee, c.priorityFee)
  }

  function SlotRowOf(st: State, s: nat): (row: SlotRow)
    ensures row.slot == s
    ensures row.SkippedRow? <==> s in SkippedSlots(st)
  {
    if s in SkippedSlots(st) then SkippedRow(s) else ProducedRowOf(s, SlotOf(st.slots, s))
  }

  /** A produced slot's row read off the log: its time is the last positive
      broadcast time logged for the slot, or else the sum of every receive and
      schedule time logged for it; its transaction count is the last cost
      line's, 0 without one. */
  lemma SlotRowFromLog(lines: seq<string>, s: nat)
    ensures SlotRowOf(Pass(lines), s).ProducedRow? && LastBroadcast(EffectsOf(lines), s).GetOr(0) > 0
            ==> SlotRowOf(Pass(lines), s).timeUs == LastBroadcast(EffectsOf(lines), s).value
    ensures SlotRowOf(Pass(lines), s).ProducedRow? && LastBroadcast(EffectsOf(lines), s).GetOr(0) == 0
            ==> SlotRowOf(Pass(lines), s).timeUs
                == ReceiveTotal(EffectsOf(lines), s) + ScheduleTotal(EffectsOf(lines), s)
    ensures SlotRowOf(Pass(lines), s).ProducedRow?
            ==> SlotRowOf(Pass(lines), s).txns == LastCost(EffectsOf(lines), s).GetOr(Cost(0, 0, 0, 0, 0)).txnCount
  {
    SlotRecordsMerge(EffectsOf(lines), s);
  }

  function SlotRowsFor(st: State, all: seq<nat>): (rows: seq<SlotRow>)
    ensures |rows| == |all|
    ensures forall i :: 0 <= i < |rows| ==> rows[i] == SlotRowOf(st, all[i])
  {
    seq(|all|, i requires 0 <= i < |all| => SlotRowOf(st, all[i]))
  }

  /** The slot table's rows, one per leader slot in ascending order. */
  function SlotRows(st: State): seq<SlotRow> {
    SlotRowsFor(st, AllLeaderSlots(st))
  }

  /** The table lists slots in ascending order and marks as skipped exactly
      the announced slots with no record. */
  lemma SlotRowsInOrder(st: State)
    ensures forall i, j :: 0 <= i < j < |SlotRows(st)| ==> SlotRows(st)[i].slot < SlotRows(st)[j].slot
    ensures forall i :: 0 <= i < |SlotRows(st)| ==>
              (SlotRows(st)[i].SkippedRow? <==> SlotRows(st)[i].slot in st.announced && SlotRows(st)[i].slot !in st.slots)
  {
  }

  /** Every produced or announced slot has a row, and no other slot does. */
  lemma SlotRowsCover(st: State, s: nat)
    ensures (exists i :: 0 <= i < |SlotRows(st)| && SlotRows(st)[i].slot == s) <==> s in st.slots || s in st.announced
  {
    if s in st.slots || s in st.announced {
      var all := AllLeaderSlots(st);
      assert s in all;
      var i :| 0 <= i < |all| && all[i] == s;
      assert SlotRows(st)[i].slot == s;
    }
  }

  datatype SlotTotals = SlotTotals(txns: nat, votes: nat, user: nat, blockCost: nat, timeUs: nat,
                                   totalFee: nat, priorityFee: nat, produced: nat, skipped: nat)

  /** The first pass over the slot rows, accumulating totals and counts. */
  function Tally(rows: seq<SlotRow>): SlotTotals {
    if rows == [] then SlotTotals(0, 0, 0, 0, 0, 0, 0, 0, 0)
    else
      var t := Tally(rows[..|rows| - 1]);
      match rows[|rows| - 1]
      case SkippedRow(_) => t.(skipped := t.skipped + 1)
      case ProducedRow(_, tx, v, u, bc, tm, tf, pf) =>
        SlotTotals(t.txns + tx, t.votes + v, t.user + u, t.blockCost + bc, t.timeUs + tm,
                   t.totalFee + tf, t.priorityFee + pf, t.produced + 1, t.skipped)
  }

  /** The counts are the row counts, and the estimated split into vote and
      user transactions covers every transaction counted. */
  lemma {:induction false} TallyCounts(rows: seq<SlotRow>)
    ensures Tally(rows).produced == Count(rows, (r: SlotRow) => r.ProducedRow?)
    ensures Tally(rows).skipped == Count(rows, (r: SlotRow) => r.SkippedRow?)
    ensures (forall i :: 0 <= i < |rows| && rows[i].ProducedRow? ==>
               rows[i].user + rows[i].votes >= rows[i].txns && rows[i].user <= rows[i].txns)
            ==> Tally(rows).user + Tally(rows).votes >= Tally(rows).txns && Tally(rows).user <= Tally(rows).txns
  {
    if rows != [] {
      var init := rows[..|rows| - 1];
      TallyCounts(init);
      assert forall i :: 0 <= i < |init| ==> init[i] == rows[i];
    }
  }

  lemma TallyStep(rows: seq<SlotRow>, r: SlotRow)
    ensures Tally(rows + [r]).produced == Tally(rows).produced + (if r.ProducedRow? then 1 else 0)
    ensures Tally(rows + [r]).skipped == Tally(rows).skipped + (if r.SkippedRow? then 1 else 0)
  {
    assert (rows + [r])[..|rows|] == rows;
  }

  /** Adding a new element `x` to a list grows its part inside `t` or its
      part outside `t` by one. */
  lemma ElemsSnoc(xs: seq<nat>, x: nat, t: set<nat>)
    requires x !in xs
    ensures |(set y | y in xs + [x]) * t| == |(set y | y in xs) * t| + (if x in t then 1 else 0)
    ensures |(set y | y in xs + [x]) - t| == |(set y | y in xs) - t| + (if x in t then 0 else 1)
  {
    var e0 := set y | y in xs;
    var e1 := set y | y in xs + [x];
    assert e1 == e0 + {x};
    if x in t {
      assert e1 * t == e0 * t + {x};
      assert e1 - t == e0 - t;
    } else {
      assert e1 * t == e0 * t;
      assert e1 - t == (e0 - t) + {x};
    }
  }

  lemma RowsSnoc(st: State, xs: seq<nat>, x: nat)
    ensures SlotRowsFor(st, xs + [x]) == SlotRowsFor(st, xs) + [SlotRowOf(st, x)]
  {
  }

  lemma DistinctSnoc(xs: seq<nat>)
    requires Distinct(xs) && xs != []
    ensures xs == xs[..|xs| - 1] + [xs[|xs| - 1]]
    ensures Distinct(xs[..|xs| - 1]) && xs[|xs| - 1] !in xs[..|xs| - 1]
  {
  }

  /** Over a list of distinct slots, the rows count as skipped the listed
      slots that are skipped and as produced the others. */
  lemma {:induction false} TallySplit(st: State, all: seq<nat>)
    requires Distinct(all)
    ensures Tally(SlotRowsFor(st, all)).produced == |(set x | x in all) - SkippedSlots(st)|
    ensures Tally(SlotRowsFor(st, all)).skipped == |(set x | x in all) * SkippedSlots(st)|
  {
    if all != [] {
      var init := all[..|all| - 1];
      var x := all[|all| - 1];
      DistinctSnoc(all);
      TallySplit(st, init);
      RowsSnoc(st, init, x);
      TallyStep(SlotRowsFor(st, init), SlotRowOf(st, x));
      ElemsSnoc(init, x, SkippedSlots(st));
    }
  }

  /** "(N produced, M skipped)" over any listing of the leader slots: N is
      the number of slots with a record and M the number of announced slots
      without one, and every row is one or the other. */
  lemma SlotCountsFor(st: State, all: seq<nat>)
    requires Enumerates(all, LeaderSlots(st))
    ensures Tally(SlotRowsFor(st, all)).produced == |st.slots.Keys|
    ensures Tally(SlotRowsFor(st, all)).skipped == |SkippedSlots(st)|
    ensures Tally(SlotRowsFor(st, all)).produced + Tally(SlotRowsFor(st, all)).skipped == |all|
  {
    assert Distinct(all);
    TallySplit(st, all);
    EnumeratesElems(all, LeaderSlots(st));
    DisjointParts(LeaderSlots(st), st.slots.Keys, SkippedSlots(st));
  }

  /** A set made of two disjoint parts splits into them. */
  lemma DisjointParts(e: set<nat>, a: set<nat>, b: set<nat>)
    requires e == a + b && a !! b
    ensures e - b == a && e * b == b && |a| + |b| == |e|
  {
  }

  /** The counts of the printed slot table. */
  lemma SlotCounts(st: State)
    ensures Tally(SlotRows(st)).produced == |st.slots.Keys|
    ensures Tally(SlotRows(st)).skipped == |SkippedSlots(st)|
    ensures Tally(SlotRows(st)).produced + Tally(SlotRows(st)).skipped == |SlotRows(st)|
  {
    SlotCountsFor(st, AllLeaderSlots(st));
  }

  /** A slot is reported skipped exactly when an announcement line named it
      and no cost, broadcast or timing line did. */
  lemma SkippedIffAnnouncedOnly(lines: seq<string>, s: nat)
    ensures s in SkippedSlots(Pass(lines)) <==>
              && (exists i :: 0 <= i < |lines| && EffectsOf(lines)[i] == Announce(s))
              && !(exists i :: 0 <= i < |lines| && TouchesSlot(EffectsOf(lines)[i], s))
  {
    AnnouncedSlots(EffectsOf(lines), s);
    SlotRecordsMerge(EffectsOf(lines), s);
  }

  /** The "AVERAGE" row: per produced slot; the time average in ms. */
  datatype SlotAverages = SlotAverages(txns: real, votes: real, user: real, blockCost: real, timeMs: real,
                                       totalFee: real, priorityFee: real)

  function AveragesOf(t: SlotTotals): (a: SlotAverages)
    ensures t.produced == 0 ==> a == SlotAverages(0.0, 0.0, 0.0, 0.0, 0.0, 0.0, 0.0)
    ensures t.produced > 0 ==> a.txns * (t.produced as real) == t.txns as real
    ensures t.produced > 0 ==> a.votes * (t.produced as real) == t.votes as real
    ensures t.produced > 0 ==> a.user * (t.produced as real) == t.user as real
    ensures t.produced > 0 ==> a.blockCost * (t.produced as real) == t.blockCost as real
    ensures t.produced > 0 ==> a.totalFee * (t.produced as real) == t.totalFee as real
    ensures t.produced > 0 ==> a.priorityFee * (t.produced as real) == t.priorityFee as real
    ensures t.produced > 0 ==> a.timeMs * (t.produced as real) * 1000.0 == t.timeUs as real
  {
    var n := t.produced;
    SlotAverages(Mean(t.txns as real, n), Mean(t.votes as real, n), Mean(t.user as real, n),
                 Mean(t.blockCost as real, n), Mean(t.timeUs as real, n) / 1000.0,
                 Mean(t.totalFee as real, n), Mean(t.priorityFee as real, n))
  }

  /** Scaling value and average alike leaves the indicator unchanged. */
  lemma IndicatorScaleFree(value: real, avg: real, k: real)
    requires k > 0.0
    ensures IndicatorOf(value / k, avg / k) == IndicatorOf(value, avg)
  {
    if avg != 0.0 {
      assert (value / k - avg / k) / (avg / k) == (value - avg) / avg;
    }
  }

  /** The time column is shown in milliseconds and compared with the
      millisecond average, which flags the same slots as comparing the
      microsecond times with their mean. */
  lemma TimeIndicatorInMicroseconds(row: SlotRow, t: SlotTotals)
    requires row.ProducedRow?
    ensures IndicatorOf(row.timeUs as real / 1000.0, AveragesOf(t).timeMs)
            == IndicatorOf(row.timeUs as real, Mean(t.timeUs as real, t.produced))
  {
    IndicatorScaleFree(row.timeUs as real, Mean(t.timeUs as real, t.produced), 1000.0);
  }

  // ---------------------------------------------------------------------
  // The whole report.

  datatype SlotTable = SlotTable(rows: seq<SlotRow>, totals: SlotTotals, averages: SlotAverages)

  datatype Report =
    | NoLogLines
    | Analysed(bam: Option<BamTable>, failures: Option<FailureTable>, slots: Option<SlotTable>)

  /** The script exits when it read no line; otherwise each table is printed
      when it has something to show. The failures table here is the corrected
      one, whose totals are the sums of its rows. */
  function ReportOf(lines: seq<string>): (r: Report)
    ensures r.NoLogLines? <==> lines == []
    ensures r.Analysed? ==> (r.bam.Some? <==> ActiveSet(Pass(lines).buckets) != {})
    ensures r.Analysed? && r.bam.Some? ==> r.bam.value.bundles == SumMap(Column(Pass(lines).buckets, Bundles))
    ensures r.Analysed? ==> (r.failures.Some? <==> ActiveSet(Pass(lines).buckets) != {}
                                                   && FailingSet(Pass(lines).buckets) != {})
    ensures r.Analysed? && r.failures.Some?
            ==> && r.failures.value.schedulerTotal == SumMap(Column(Pass(lines).buckets, SchedFail))
                && r.failures.value.outboundTotal == SumMap(Column(Pass(lines).buckets, OutFail))
    ensures r.Analysed? ==> (r.slots.Some? <==> Pass(lines).slots != map[] || Pass(lines).announced != {})
  {
    LineCount(EffectsOf(lines));
    ReportFor(Pass(lines))
  }

  /** The report of a finished pass over the log. */
  function ReportFor(st: State): (r: Report)
    ensures r.NoLogLines? <==> st.lineCount == 0
    ensures r.Analysed? ==> (r.bam.Some? <==> ActiveSet(st.buckets) != {})
    ensures r.Analysed? && r.bam.Some? ==> r.bam.value.bundles == SumMap(Column(st.buckets, Bundles))
    ensures r.Analysed? ==> (r.failures.Some? <==> ActiveSet(st.buckets) != {} && FailingSet(st.buckets) != {})
    ensures r.Analysed? && r.failures.Some?
            ==> && r.failures.value.schedulerTotal == SumMap(Column(st.buckets, SchedFail))
                && r.failures.value.outboundTotal == SumMap(Column(st.buckets, OutFail))
    ensures r.Analysed? ==> (r.slots.Some? <==> st.slots != map[] || st.announced != {})
  {
    FailureTotalsAreColumnSums(st);
    assert BamTableOf(st).Some? ==> BamTableOf(st).value.bundles == SumMap(Column(st.buckets, Bundles)) by {
      if BamTableOf(st).Some? { BamTotalsCover(st); }
    }
    if st.lineCount == 0 then NoLogLines
    else
      var slots :=
        if st.slots != map[] || st.announced != {} then
          var rows := SlotRows(st);
          Some(SlotTable(rows, Tally(rows), AveragesOf(Tally(rows))))
        else None;
      Analysed(BamTableOf(st), FailureTableOf(st), slots)
  }

  /** The failure line under the bundle table: `None` for "No failures
      detected.", otherwise the failure rate relative to all bundles. The
      failures counted are the bundle table's own totals, over the minutes
      with bundles. */
  function FailRate(bam: BamTable): (r: Option<real>)
    ensures r.None? <==> bam.schedulerFail + bam.outboundFail == 0
    ensures r.Some? && bam.bundles == 0 ==> r.value == 0.0
    ensures r.Some? && bam.bundles > 0
            ==> r.value * (bam.bundles as real) == 100.0 * ((bam.schedulerFail + bam.outboundFail) as real)
  {
    var failures := bam.schedulerFail + bam.outboundFail;
    if failures > 0 then Some(Percent(failures, bam.bundles)) else None
  }

  /** The failure line read off the log: its bundle count is every bundle
      of the log, its failures are those of the minutes with bundles only,
      and it reports failures exactly when those are not zero. With
      `FailRate`'s contract this fixes the printed rate. */
  lemma FailRateOfLog(st: State)
    ensures BamTableOf(st).Some? ==>
              && BamTableOf(st).value.bundles == SumMap(Column(st.buckets, Bundles))
              && BamTableOf(st).value.schedulerFail == Total(ActiveMinutes(st.buckets), st.buckets, SchedFail)
              && BamTableOf(st).value.outboundFail == Total(ActiveMinutes(st.buckets), st.buckets, OutFail)
              && (FailRate(BamTableOf(st).value).None?
                  <==> Total(ActiveMinutes(st.buckets), st.buckets, SchedFail)
                       + Total(ActiveMinutes(st.buckets), st.buckets, OutFail) == 0)
  {
    if BamTableOf(st).Some? {
      BamTotalsCover(st);
      assert BamTableOf(st).value == BamTableFor(st, ActiveMinutes(st.buckets));
    }
  }

  /** Whenever the printed failures table is shown, the failure line reports
      a rate, over the same totals as that table's total line. */
  lemma FailRateMatchesPrintedTable(st: State)
    ensures FailureTableAsWritten(st).Some? ==>
              && BamTableOf(st).Some? && FailRate(BamTableOf(st).value).Some?
              && FailureTableAsWritten(st).value.schedulerTotal == BamTableOf(st).value.schedulerFail
              && FailureTableAsWritten(st).value.outboundTotal == BamTableOf(st).value.outboundFail
  {
    if FailureTableAsWritten(st).Some? {
      var active := ActiveMinutes(st.buckets);
      var t := BamTableFor(st, active);
      assert active != [];
      assert BamTableOf(st) == Some(t);
      assert t.schedulerFail == Total(active, st.buckets, SchedFail);
      assert t.outboundFail == Total(active, st.buckets, OutFail);
    }
  }
}

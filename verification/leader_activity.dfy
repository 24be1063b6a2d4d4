/** The scan of `bam-leader-activity.py`: per-minute bundle buckets and the
    global heartbeat and unhealthy totals from the metrics datapoint, the
    slots frozen in each minute, the announced leader slots, and the per-slot
    records merged from cost, broadcast and scheduler-timing datapoints. Only
    lines with a leading timestamp are looked at, and each enters at most one
    branch of an `if`/`elif` chain. */
module LeaderActivity {
  import opened Wrappers
  import opened Text
  import opened Pattern
  import opened Fields
  import opened Timestamp
  import opened Sums
  import opened Seqs

  // ---------------------------------------------------------------------
  // Classifying a line.

  datatype Branch = MetricsBranch | FrozenBranch | AnnounceBranch | CostBranch
                  | BroadcastBranch | TimingBranch

  /** The `if`/`elif` chain: each branch's marker substring, in test order. */
  const Markers: seq<(Branch, string)> := [
    (MetricsBranch, "bam_connection-metrics"),
    (FrozenBranch, "bank frozen:"),
    (AnnounceBranch, "replay_stage-my_leader_slot"),
    (CostBranch, "cost_tracker_stats,is_leader=true"),
    (BroadcastBranch, "broadcast-process-shreds-stats"),
    (TimingBranch, "banking_stage_scheduler_slot_timing")
  ]

  /** The first marker at or after `from` that occurs in `line`. */
  function FirstMarker(line: string, from: nat): (r: Option<nat>)
    requires from <= |Markers|
    decreases |Markers| - from
    ensures r.Some? ==> from <= r.value < |Markers| && Contains(line, Markers[r.value].1)
    ensures r.Some? ==> forall j :: from <= j < r.value ==> !Contains(line, Markers[j].1)
    ensures r.None? ==> forall j :: from <= j < |Markers| ==> !Contains(line, Markers[j].1)
  {
    if from == |Markers| then None
    else if Contains(line, Markers[from].1) then Some(from)
    else FirstMarker(line, from + 1)
  }

  /** The branch a line enters, if any: the first whose marker it contains. */
  function BranchOf(line: string): Option<Branch> {
    match FirstMarker(line, 0)
    case None => None
    case Some(j) => Some(Markers[j].0)
  }

  /** `bank frozen: (\d+)` */
  const FrozenPattern: seq<Piece> := [Lit("bank frozen: "), Num(1)]

  /** `replay_stage-my_leader_slot slot=(\d+)i` */
  const AnnouncePattern: seq<Piece> := [Lit("replay_stage-my_leader_slot slot="), Num(1), Lit("i")]

  /** `cost_tracker_stats,is_leader=true bank_slot=(\d+)i block_cost=(\d+)i
      vote_cost=(\d+)i transaction_count=(\d+)i.*?total_transaction_fee=(\d+)i
      total_priority_fee=(\d+)i` */
  const CostPattern: seq<Piece> := [
    Lit("cost_tracker_stats,is_leader=true bank_slot="), Num(1),
    Lit("i block_cost="), Num(1), Lit("i vote_cost="), Num(1),
    Lit("i transaction_count="), Num(1), Lit("i"), Lazy,
    Lit("total_transaction_fee="), Num(1), Lit("i total_priority_fee="), Num(1), Lit("i")]

  /** `broadcast-process-shreds-stats slot=(\d+)i.*?slot_broadcast_time=(\d+)i` */
  const BroadcastPattern: seq<Piece> := [
    Lit("broadcast-process-shreds-stats slot="), Num(1), Lit("i"), Lazy,
    Lit("slot_broadcast_time="), Num(1), Lit("i")]

  /** `banking_stage_scheduler_slot_timing.*?receive_time_us=(\d+)i.*?
      schedule_time_us=(\d+)i.*?slot=(\d+)i` */
  const TimingPattern: seq<Piece> := [
    Lit("banking_stage_scheduler_slot_timing"), Lazy,
    Lit("receive_time_us="), Num(1), Lit("i"), Lazy,
    Lit("schedule_time_us="), Num(1), Lit("i"), Lazy,
    Lit("slot="), Num(1), Lit("i")]

  /** The numbers captured by the leftmost match of `ps`, when it matches;
      `n` is the pattern's number of groups. */
  function Captures(line: string, ps: seq<Piece>, n: nat): (r: Option<seq<nat>>)
    ensures r.Some? ==> |r.value| == n
  {
    match Find(line, ps)
    case None => None
    case Some(m) => if |m.nums| == n then Some(m.nums) else None
  }

  /** The metric fields of one datapoint line, each present or not. */
  datatype Reading = Reading(bundles: Option<nat>, results: Option<nat>, schedulerFail: Option<nat>,
                             outboundFail: Option<nat>, unhealthy: Option<nat>, heartbeats: Option<nat>)

  function ReadingOf(line: string): Reading {
    Reading(FieldValue(line, BundleReceived), FieldValue(line, BundleResultSent),
            FieldValue(line, SchedulerFail), FieldValue(line, OutboundFail),
            FieldValue(line, UnhealthyCount), FieldValue(line, HeartbeatReceived))
  }

  /** Some field is present, so `bundle_data[minute]` is touched and the bucket exists. */
  predicate AnyPresent(r: Reading) {
    r.bundles.Some? || r.results.Some? || r.schedulerFail.Some? || r.outboundFail.Some?
    || r.unhealthy.Some? || r.heartbeats.Some?
  }

  /** The five fields of a `cost_tracker_stats` record. */
  datatype Cost = Cost(blockCost: nat, voteCost: nat, txnCount: nat, totalFee: nat, priorityFee: nat)

  /** What one line contributes to the scan. */
  datatype Effect =
    | Metrics(minute: string, reading: Reading)
    | Frozen(minute: string, slot: nat)
    | Announce(slot: nat)
    | CostRecord(slot: nat, cost: Cost)
    | BroadcastRecord(slot: nat, time: nat)
    | TimingRecord(slot: nat, receive: nat, schedule: nat)
    | Nothing

  /** Classify a line: untimed lines contribute nothing; a timed line enters
      the branch of its first marker, and contributes only when that branch's
      pattern matches. */
  function EffectOf(line: string): (e: Effect)
    ensures ParseLeading(line).None? ==> e.Nothing?
    ensures e.Metrics? <==> ParseLeading(line).Some? && BranchOf(line) == Some(MetricsBranch)
    ensures e.Metrics? ==> e.minute == MinuteKey(ParseLeading(line).value) && e.reading == ReadingOf(line)
    ensures e.Frozen? ==> BranchOf(line) == Some(FrozenBranch) && e.minute == MinuteKey(ParseLeading(line).value)
    ensures e.Announce? ==> BranchOf(line) == Some(AnnounceBranch)
    ensures e.CostRecord? ==> BranchOf(line) == Some(CostBranch)
    ensures e.BroadcastRecord? ==> BranchOf(line) == Some(BroadcastBranch)
    ensures e.TimingRecord? ==> BranchOf(line) == Some(TimingBranch)
  {
    match ParseLeading(line)
    case None => Nothing
    case Some(ts) =>
      var minute := MinuteKey(ts);
      match BranchOf(line)
      case None => Nothing
      case Some(MetricsBranch) => Metrics(minute, ReadingOf(line))
      case Some(FrozenBranch) =>
        (match Captures(line, FrozenPattern, 1)
         case None => Nothing
         case Some(ns) => Frozen(minute, ns[0]))
      case Some(AnnounceBranch) =>
        (match Captures(line, AnnouncePattern, 1)
         case None => Nothing
         case Some(ns) => Announce(ns[0]))
      case Some(CostBranch) =>
        (match Captures(line, CostPattern, 6)
         case None => Nothing
         case Some(ns) => CostRecord(ns[0], Cost(ns[1], ns[2], ns[3], ns[4], ns[5])))
      case Some(BroadcastBranch) =>
        (match Captures(line, BroadcastPattern, 2)
         case None => Nothing
         case Some(ns) => BroadcastRecord(ns[0], ns[1]))
      case Some(TimingBranch) =>
        // groups: receive time, schedule time, slot
        (match Captures(line, TimingPattern, 3)
         case None => Nothing
         case Some(ns) => TimingRecord(ns[2], ns[0], ns[1]))
  }

  /** A line that carries the metrics marker never enters another branch,
      whatever other markers it contains. */
  lemma MetricsBranchFirst(line: string)
    requires Contains(line, "bam_connection-metrics")
    ensures BranchOf(line) == Some(MetricsBranch)
  {
  }

  // ---------------------------------------------------------------------
  // The state.

  /** The counters of one minute. */
  datatype Col = Bundles | Results | SchedFail | OutFail | Unhealthy | Heartbeats | Samples

  datatype Bucket = Bucket(bundles: nat, resultsSent: nat, schedulerFail: nat, outboundFail: nat,
                           unhealthy: nat, heartbeats: nat, count: nat)

  const EmptyBucket := Bucket(0, 0, 0, 0, 0, 0, 0)

  function Get(b: Bucket, c: Col): nat {
    match c
    case Bundles => b.bundles
    case Results => b.resultsSent
    case SchedFail => b.schedulerFail
    case OutFail => b.outboundFail
    case Unhealthy => b.unhealthy
    case Heartbeats => b.heartbeats
    case Samples => b.count
  }

  /** What a reading adds to each counter: a present field's value, 0 for an
      absent one; `count` counts the readings that carry `bundle_received`. */
  function Contribution(r: Reading, c: Col): nat {
    match c
    case Bundles => r.bundles.GetOr(0)
    case Results => r.results.GetOr(0)
    case SchedFail => r.schedulerFail.GetOr(0)
    case OutFail => r.outboundFail.GetOr(0)
    case Unhealthy => r.unhealthy.GetOr(0)
    case Heartbeats => r.heartbeats.GetOr(0)
    case Samples => if r.bundles.Some? then 1 else 0
  }

  function AddReading(b: Bucket, r: Reading): (b': Bucket)
    ensures forall c :: Get(b', c) == Get(b, c) + Contribution(r, c)
  {
    Bucket(b.bundles + Contribution(r, Bundles), b.resultsSent + Contribution(r, Results),
           b.schedulerFail + Contribution(r, SchedFail), b.outboundFail + Contribution(r, OutFail),
           b.unhealthy + Contribution(r, Unhealthy), b.heartbeats + Contribution(r, Heartbeats),
           b.count + Contribution(r, Samples))
  }

  function BucketOf(m: map<string, Bucket>, k: string): Bucket {
    if k in m then m[k] else EmptyBucket
  }

  /** The merged record of one leader slot: the last cost record, the last
      broadcast time, and the summed scheduler timings. */
  datatype SlotRecord = SlotRecord(cost: Option<Cost>, broadcast: Option<nat>, receive: nat, schedule: nat)

  const EmptySlot := SlotRecord(None, None, 0, 0)

  function SlotOf(m: map<nat, SlotRecord>, s: nat): SlotRecord {
    if s in m then m[s] else EmptySlot
  }

  function FrozenOf(m: map<string, seq<nat>>, k: string): seq<nat> {
    if k in m then m[k] else []
  }

  datatype State = State(
    lineCount: nat,
    buckets: map<string, Bucket>,
    frozen: map<string, seq<nat>>,
    announced: set<nat>,
    slots: map<nat, SlotRecord>,
    globalHeartbeats: nat,
    globalUnhealthy: nat)

  const Init := State(0, map[], map[], {}, map[], 0, 0)

  function Apply(st: State, e: Effect): (r: State)
    ensures r.lineCount == st.lineCount + 1
  {
    var st := st.(lineCount := st.lineCount + 1);
    match e
    case Metrics(k, rd) =>
      if !AnyPresent(rd) then st
      else st.(buckets := st.buckets[k := AddReading(BucketOf(st.buckets, k), rd)],
               globalHeartbeats := st.globalHeartbeats + Contribution(rd, Heartbeats),
               globalUnhealthy := st.globalUnhealthy + Contribution(rd, Unhealthy))
    case Frozen(k, s) => st.(frozen := st.frozen[k := FrozenOf(st.frozen, k) + [s]])
    case Announce(s) => st.(announced := st.announced + {s})
    case CostRecord(s, c) => st.(slots := st.slots[s := SlotOf(st.slots, s).(cost := Some(c))])
    case BroadcastRecord(s, t) => st.(slots := st.slots[s := SlotOf(st.slots, s).(broadcast := Some(t))])
    case TimingRecord(s, rcv, sch) =>
      var rec := SlotOf(st.slots, s);
      st.(slots := st.slots[s := rec.(receive := rec.receive + rcv, schedule := rec.schedule + sch)])
    case Nothing => st
  }

  /** The scan over classified lines. */
  function Scan(effects: seq<Effect>): State {
    if effects == [] then Init
    else Apply(Scan(effects[..|effects| - 1]), effects[|effects| - 1])
  }

  function EffectsOf(lines: seq<string>): (r: seq<Effect>)
    ensures |r| == |lines|
    ensures forall i :: 0 <= i < |lines| ==> r[i] == EffectOf(lines[i])
  {
    seq(|lines|, i requires 0 <= i < |lines| => EffectOf(lines[i]))
  }

  /** `analyze_logs`' loop over all lines. */
  function Pass(lines: seq<string>): State {
    Scan(EffectsOf(lines))
  }

  lemma {:induction false} LineCount(effects: seq<Effect>)
    ensures Scan(effects).lineCount == |effects|
  {
    if effects != [] {
      LineCount(effects[..|effects| - 1]);
    }
  }

  // ---------------------------------------------------------------------
  // Buckets and global totals.

  /** One counter of every bucket, as a dictionary from minute to value. */
  function Column(m: map<string, Bucket>, c: Col): (r: map<string, nat>)
    ensures r.Keys == m.Keys
    ensures forall k :: k in m ==> r[k] == Get(m[k], c)
  {
    map k | k in m :: Get(m[k], c)
  }

  lemma ColumnAdd(m: map<string, Bucket>, k: string, rd: Reading, c: Col)
    ensures SumMap(Column(m[k := AddReading(BucketOf(m, k), rd)], c))
            == SumMap(Column(m, c)) + Contribution(rd, c)
  {
    var b' := AddReading(BucketOf(m, k), rd);
    assert Column(m[k := b'], c) == Column(m, c)[k := Get(b', c)];
    SumMapUpdate(Column(m, c), k, Get(b', c));
  }

  /** What one line adds to counter `c`, summed over all buckets. */
  function Added(e: Effect, c: Col): nat {
    if e.Metrics? && AnyPresent(e.reading) then Contribution(e.reading, c) else 0
  }

  /** One line adds the same amount to a global total and to the sum of its
      column. */
  lemma GlobalStep(st: State, e: Effect)
    ensures Apply(st, e).globalHeartbeats == st.globalHeartbeats + Added(e, Heartbeats)
    ensures Apply(st, e).globalUnhealthy == st.globalUnhealthy + Added(e, Unhealthy)
    ensures SumMap(Column(Apply(st, e).buckets, Heartbeats)) == SumMap(Column(st.buckets, Heartbeats)) + Added(e, Heartbeats)
    ensures SumMap(Column(Apply(st, e).buckets, Unhealthy)) == SumMap(Column(st.buckets, Unhealthy)) + Added(e, Unhealthy)
  {
    if e.Metrics? && AnyPresent(e.reading) {
      ColumnAdd(st.buckets, e.minute, e.reading, Heartbeats);
      ColumnAdd(st.buckets, e.minute, e.reading, Unhealthy);
    } else {
      assert Apply(st, e).buckets == st.buckets;
    }
  }

  /** `global_heartbeats` and `global_unhealthy` are the sums of those
      counters over all buckets, the minutes without bundles included. */
  lemma {:induction false} GlobalsAreColumnSums(effects: seq<Effect>)
    ensures Scan(effects).globalHeartbeats == SumMap(Column(Scan(effects).buckets, Heartbeats))
    ensures Scan(effects).globalUnhealthy == SumMap(Column(Scan(effects).buckets, Unhealthy))
  {
    if effects != [] {
      var init := effects[..|effects| - 1];
      GlobalsAreColumnSums(init);
      GlobalStep(Scan(init), effects[|effects| - 1]);
    }
  }

  lemma GlobalTotals(lines: seq<string>)
    ensures Pass(lines).globalHeartbeats == SumMap(Column(Pass(lines).buckets, Heartbeats))
    ensures Pass(lines).globalUnhealthy == SumMap(Column(Pass(lines).buckets, Unhealthy))
  {
    GlobalsAreColumnSums(EffectsOf(lines));
  }

  /** Reference: the readings of minute `k`, and their total for counter `c`. */
  predicate ReadsMinute(e: Effect, k: string) {
    e.Metrics? && e.minute == k && AnyPresent(e.reading)
  }

  function MinuteTotal(effects: seq<Effect>, k: string, c: Col): nat {
    if effects == [] then 0
    else
      var e := effects[|effects| - 1];
      MinuteTotal(effects[..|effects| - 1], k, c) + (if ReadsMinute(e, k) then Contribution(e.reading, c) else 0)
  }

  /** One line's effect on the bucket of minute `k`. */
  lemma BucketStep(st: State, e: Effect, k: string)
    ensures k in Apply(st, e).buckets <==> k in st.buckets || ReadsMinute(e, k)
    ensures forall c :: Get(BucketOf(Apply(st, e).buckets, k), c)
                        == Get(BucketOf(st.buckets, k), c) + (if ReadsMinute(e, k) then Contribution(e.reading, c) else 0)
  {
  }

  /** Each counter of a bucket is the running sum of its minute's readings,
      `count` included; a bucket exists exactly for the minutes with a reading
      that carries at least one field. */
  lemma {:induction false} BucketsAreRunningSums(effects: seq<Effect>, k: string)
    ensures k in Scan(effects).buckets <==> exists i :: 0 <= i < |effects| && ReadsMinute(effects[i], k)
    ensures forall c :: Get(BucketOf(Scan(effects).buckets, k), c) == MinuteTotal(effects, k, c)
  {
    if effects != [] {
      var init := effects[..|effects| - 1];
      BucketsAreRunningSums(init, k);
      BucketStep(Scan(init), effects[|effects| - 1], k);
      ExistsSnoc(effects, init, e => ReadsMinute(e, k));
    }
  }

  // ---------------------------------------------------------------------
  // Leader slots.

  predicate TouchesSlot(e: Effect, s: nat) {
    (e.CostRecord? || e.BroadcastRecord? || e.TimingRecord?) && e.slot == s
  }

  /** Reference definitions of the merge: the latest cost record, the latest
      broadcast time, and the sums of the scheduler timings of slot `s`. */
  function LastCost(effects: seq<Effect>, s: nat): Option<Cost> {
    if effects == [] then None
    else
      var e := effects[|effects| - 1];
      if e.CostRecord? && e.slot == s then Some(e.cost) else LastCost(effects[..|effects| - 1], s)
  }

  function LastBroadcast(effects: seq<Effect>, s: nat): Option<nat> {
    if effects == [] then None
    else
      var e := effects[|effects| - 1];
      if e.BroadcastRecord? && e.slot == s then Some(e.time) else LastBroadcast(effects[..|effects| - 1], s)
  }

  function ReceiveTotal(effects: seq<Effect>, s: nat): nat {
    if effects == [] then 0
    else
      var e := effects[|effects| - 1];
      ReceiveTotal(effects[..|effects| - 1], s) + (if e.TimingRecord? && e.slot == s then e.receive else 0)
  }

  function ScheduleTotal(effects: seq<Effect>, s: nat): nat {
    if effects == [] then 0
    else
      var e := effects[|effects| - 1];
      ScheduleTotal(effects[..|effects| - 1], s) + (if e.TimingRecord? && e.slot == s then e.schedule else 0)
  }

  /** One line's effect on the record of slot `s`. */
  lemma SlotStep(st: State, e: Effect, s: nat)
    ensures s in Apply(st, e).slots <==> s in st.slots || TouchesSlot(e, s)
    ensures var rec, rec' := SlotOf(st.slots, s), SlotOf(Apply(st, e).slots, s);
            && rec'.cost == (if e.CostRecord? && e.slot == s then Some(e.cost) else rec.cost)
            && rec'.broadcast == (if e.BroadcastRecord? && e.slot == s then Some(e.time) else rec.broadcast)
            && rec'.receive == rec.receive + (if e.TimingRecord? && e.slot == s then e.receive else 0)
            && rec'.schedule == rec.schedule + (if e.TimingRecord? && e.slot == s then e.schedule else 0)
  {
  }

  /** A slot has a record exactly when some cost, broadcast or timing line
      named it. */
  lemma {:induction false} SlotKeys(effects: seq<Effect>, s: nat)
    ensures s in Scan(effects).slots <==> exists i :: 0 <= i < |effects| && TouchesSlot(effects[i], s)
  {
    if effects != [] {
      var init := effects[..|effects| - 1];
      SlotKeys(init, s);
      SlotStep(Scan(init), effects[|effects| - 1], s);
      ExistsSnoc(effects, init, e => TouchesSlot(e, s));
    }
  }

  /** The per-slot merge: cost fields and broadcast time are last-write-wins,
      receive and schedule times accumulate over repeated records, and a
      slot has a record exactly when some cost, broadcast or timing line
      named it. */
  lemma {:induction false} SlotRecordsMerge(effects: seq<Effect>, s: nat)
    ensures s in Scan(effects).slots <==> exists i :: 0 <= i < |effects| && TouchesSlot(effects[i], s)
    ensures SlotOf(Scan(effects).slots, s)
            == SlotRecord(LastCost(effects, s), LastBroadcast(effects, s),
                          ReceiveTotal(effects, s), ScheduleTotal(effects, s))
  {
    SlotKeys(effects, s);
    if effects != [] {
      var init := effects[..|effects| - 1];
      SlotRecordsMerge(init, s);
      SlotStep(Scan(init), effects[|effects| - 1], s);
    }
  }

  lemma AnnounceStep(st: State, e: Effect, s: nat)
    ensures s in Apply(st, e).announced <==> s in st.announced || e == Announce(s)
  {
  }

  /** The announced slots are exactly those of the announcement lines. */
  lemma {:induction false} AnnouncedSlots(effects: seq<Effect>, s: nat)
    ensures s in Scan(effects).announced <==> exists i :: 0 <= i < |effects| && effects[i] == Announce(s)
  {
    if effects != [] {
      var init := effects[..|effects| - 1];
      AnnouncedSlots(init, s);
      AnnounceStep(Scan(init), effects[|effects| - 1], s);
      ExistsSnoc(effects, init, e => e == Announce(s));
    }
  }

  lemma FrozenStep(st: State, e: Effect, k: string)
    ensures FrozenOf(Apply(st, e).frozen, k)
            == FrozenOf(st.frozen, k) + (if e.Frozen? && e.minute == k then [e.slot] else [])
  {
  }

  /** The slots frozen in minute `k`, in log order, duplicates kept. */
  lemma {:induction false} FrozenSlotsInOrder(effects: seq<Effect>, k: string)
    ensures FrozenOf(Scan(effects).frozen, k) == FrozenIn(effects, k)
  {
    if effects != [] {
      var init := effects[..|effects| - 1];
      FrozenSlotsInOrder(init, k);
      FrozenStep(Scan(init), effects[|effects| - 1], k);
    }
  }

  function FrozenIn(effects: seq<Effect>, k: string): seq<nat> {
    if effects == [] then []
    else
      var e := effects[|effects| - 1];
      FrozenIn(effects[..|effects| - 1], k) + (if e.Frozen? && e.minute == k then [e.slot] else [])
  }
}

/** The connection-health pass of `bam-connectivity.py`: one scan over the log
    lines that fills per-minute health buckets from the metrics datapoint,
    records at most one connection event per line by ordered first-match
    dispatch, and tallies warnings and errors by event kind; then the
    summary figures derived from that state. */
module Connectivity {
  import opened Wrappers
  import opened Text
  import opened Pattern
  import opened Fields
  import opened Timestamp
  import opened Sums
  import opened Stats
  import opened Seqs

  datatype Level = Debug | Info | Warn | Error

  datatype EventKind =
    | Connected | UrlChanged | IdentityUpdater | NewIdentity
    | NotHealthy | ConnectionLost | IdentityTimeout
    | ConnectFailed | StreamFailed | AuthFailed | InboundClosed | InboundError
    | ConfigFailed | UnsupportedMsg
    | SetBamUrl
    | Disconnected | IdentityChange

  function LevelOf(k: EventKind): Level {
    match k
    case Connected | UrlChanged | IdentityUpdater | NewIdentity => Info
    case NotHealthy | ConnectionLost | IdentityTimeout => Warn
    case ConnectFailed | StreamFailed | AuthFailed | InboundClosed | InboundError
      | ConfigFailed | UnsupportedMsg => Error
    case SetBamUrl => Debug
    case Disconnected | IdentityChange => Info
  }

  /** One entry of the `patterns` dictionary: its kind and the alternatives of
      its regular expression. */
  datatype Rule = Rule(kind: EventKind, alts: seq<seq<Piece>>)

  /** `.+`: at least one character other than a newline. */
  const RestOfLine: Piece := Run(Except('\n'), 1)

  /** Number of entries of the `patterns` dictionary. */
  const RuleCount: nat := 15

  /** Entry `i` of the `patterns` dictionary, in its insertion order. */
  function RuleAt(i: nat): Rule
    requires i < RuleCount
  {
    match i
    case 0 => Rule(Connected, [[Lit("BAM connection established")]])
    case 1 => Rule(UrlChanged, [[Lit("BAM URL changed")]])
    case 2 => Rule(IdentityUpdater, [[Lit("BAM Manager: Added BAM connection key updater")]])
    case 3 => Rule(NewIdentity, [[Lit("BAM Manager: detected new identity "), Run(NotSpace, 1)]])
    case 4 => Rule(NotHealthy, [[Lit("BAM connection not healthy")]])
    case 5 => Rule(ConnectionLost, [[Lit("BAM connection lost")]])
    case 6 => Rule(IdentityTimeout, [[Lit("BAM Manager: timed out waiting for new identity")]])
    case 7 => Rule(ConnectFailed, [[Lit("Failed to connect to BAM with url: "), Run(Except(':'), 1),
                          Lit(": "), RestOfLine]])
    case 8 => Rule(StreamFailed, [[Lit("Failed to start scheduler stream: "), RestOfLine]])
    case 9 => Rule(AuthFailed, [[Lit("Failed to prepare auth response")],
                      [Lit("Failed to send initial auth proof")],
                      [Lit("Failed to get auth challenge")]])
    case 10 => Rule(InboundClosed, [[Lit("Inbound stream closed")]])
    case 11 => Rule(InboundError, [[Lit("Failed to receive message from inbound stream: "), RestOfLine]])
    case 12 => Rule(ConfigFailed, [[Lit("Failed to get config: "), RestOfLine]])
    case 13 => Rule(UnsupportedMsg, [[Lit("Received unsupported versioned message")]])
    // `old=\s*([^,]+),`: whitespace is never a comma, so `old=[^,]+,` matches the same lines
    case _ => Rule(SetBamUrl, [[Lit("set_bam_url old="), Run(Except(','), 1), Lit(","), Run(Space, 0),
                      Lit("new="), RestOfLine]])
  }

  /** The `patterns` dictionary, in its insertion order. */
  function Rules(): (r: seq<Rule>)
    ensures |r| == RuleCount && forall i :: 0 <= i < RuleCount ==> r[i] == RuleAt(i)
  {
    seq(RuleCount, i requires 0 <= i < RuleCount => RuleAt(i))
  }

  /** The first of `rules` at or after `from` whose pattern occurs in `line`:
      the loop over `patterns.items()` that stops at the first match. */
  function FirstRule(line: string, rules: seq<Rule>, from: nat): (r: Option<nat>)
    requires from <= |rules|
    decreases |rules| - from
    ensures r.Some? ==> from <= r.value < |rules| && MatchesAny(line, rules[r.value].alts)
    ensures r.Some? ==> forall j :: from <= j < r.value ==> !MatchesAny(line, rules[j].alts)
    ensures r.None? ==> forall j :: from <= j < |rules| ==> !MatchesAny(line, rules[j].alts)
  {
    if from == |rules| then None
    else if MatchesAny(line, rules[from].alts) then Some(from)
    else FirstRule(line, rules, from + 1)
  }

  /** The event a line that is not a timed metrics line produces: the two
      datapoints are checked first, then the rules in order. */
  function LineEvent(line: string): Option<EventKind> {
    if Contains(line, "bam_manually_disconnected") then Some(Disconnected)
    else if Contains(line, "bam-manager_identity-changed") then Some(IdentityChange)
    else
      match FirstRule(line, Rules(), 0)
      case None => None
      case Some(j) => Some(Rules()[j].kind)
  }

  /** When several rules match a line, the event is the earliest one's kind. */
  lemma EarliestRuleWins(line: string, j: nat)
    ensures && !Contains(line, "bam_manually_disconnected")
            && !Contains(line, "bam-manager_identity-changed")
            && j < |Rules()| && MatchesAny(line, Rules()[j].alts)
            ==> && LineEvent(line).Some?
                && exists i :: 0 <= i <= j && LineEvent(line) == Some(Rules()[i].kind)
                               && MatchesAny(line, Rules()[i].alts)
                               && forall i' :: 0 <= i' < i ==> !MatchesAny(line, Rules()[i'].alts)
  {
    if j < |Rules()| && MatchesAny(line, Rules()[j].alts) {
      FirstRuleEarliest(line, Rules(), j);
    }
  }

  /** Whenever rule `j` matches, the first matching rule is found, at `j` or before. */
  lemma FirstRuleEarliest(line: string, rules: seq<Rule>, j: nat)
    requires j < |rules| && MatchesAny(line, rules[j].alts)
    ensures FirstRule(line, rules, 0).Some? && FirstRule(line, rules, 0).value <= j
  {
  }

  /** A health bucket: the four metric counters and the number of samples. */
  datatype Bucket = Bucket(heartbeats: nat, unhealthy: nat, bundles: nat, outboundFail: nat,
                           samples: nat)

  const EmptyBucket := Bucket(0, 0, 0, 0, 0)

  /** The metric fields the connectivity pass reads. */
  predicate Tracked(f: Field) {
    f == HeartbeatReceived || f == UnhealthyCount || f == BundleReceived || f == OutboundFail
  }

  /** Counter of bucket `b` for a tracked field. */
  function Counter(b: Bucket, f: Field): nat
    requires Tracked(f)
  {
    match f
    case HeartbeatReceived => b.heartbeats
    case UnhealthyCount => b.unhealthy
    case BundleReceived => b.bundles
    case OutboundFail => b.outboundFail
  }

  function BucketOf(m: map<string, Bucket>, k: string): Bucket {
    if k in m then m[k] else EmptyBucket
  }

  /** The minute bucket a line feeds: only a timestamped line that carries
      the `bam_connection-metrics` datapoint has one. */
  function MetricMinute(line: string): Option<string> {
    if Contains(line, "bam_connection-metrics") then
      match ParseLeading(line)
      case None => None
      case Some(ts) => Some(MinuteKey(ts))
    else None
  }

  /** What one line contributes to the scan: a metrics sample for a minute
      (with the values of the four tracked fields, 0 when absent), an event,
      or nothing. */
  datatype Effect =
    | Sample(minute: string, heartbeats: nat, unhealthy: nat, bundles: nat, outboundFail: nat)
    | Emit(kind: EventKind)
    | Nothing

  /** The value a sample carries for a tracked field. */
  function Value(e: Effect, f: Field): nat
    requires e.Sample? && Tracked(f)
  {
    match f
    case HeartbeatReceived => e.heartbeats
    case UnhealthyCount => e.unhealthy
    case BundleReceived => e.bundles
    case OutboundFail => e.outboundFail
  }

  /** Classify a line: a timestamped metrics line is a sample and is never
      tried against the event rules; any other line may emit one event. */
  function EffectOf(line: string): (e: Effect)
    ensures e.Sample? <==> MetricMinute(line).Some?
    ensures e.Sample? ==> e.minute == MetricMinute(line).value
    ensures e.Sample? ==> forall f :: Tracked(f) ==> Value(e, f) == FieldOr0(line, f)
    ensures e.Emit? <==> MetricMinute(line).None? && LineEvent(line).Some?
    ensures e.Emit? ==> e.kind == LineEvent(line).value
  {
    match MetricMinute(line)
    case Some(k) =>
      Sample(k, FieldOr0(line, HeartbeatReceived), FieldOr0(line, UnhealthyCount),
             FieldOr0(line, BundleReceived), FieldOr0(line, OutboundFail))
    case None =>
      match LineEvent(line)
      case Some(kind) => Emit(kind)
      case None => Nothing
  }

  /** One metrics sample: each field's value added to its counter, one more sample. */
  function AddSample(b: Bucket, e: Effect): (r: Bucket)
    requires e.Sample?
    ensures r.samples == b.samples + 1
    ensures forall f :: Tracked(f) ==> Counter(r, f) == Counter(b, f) + Value(e, f)
  {
    Bucket(b.heartbeats + e.heartbeats, b.unhealthy + e.unhealthy, b.bundles + e.bundles,
           b.outboundFail + e.outboundFail, b.samples + 1)
  }

  datatype Event = Event(timestamp: string, kind: EventKind, level: Level)

  datatype State = State(
    lineCount: nat,
    firstTs: Option<string>,
    lastTs: Option<string>,
    buckets: map<string, Bucket>,
    events: seq<Event>,
    warnings: map<EventKind, nat>,
    errors: map<EventKind, nat>)

  const Init := State(0, None, None, map[], [], map[], map[])

  /** `ts_str or "unknown"`. */
  function TimestampOrUnknown(ts: Option<string>): string {
    if ts.Some? then ts.value else "unknown"
  }

  /** Append an event and tally it by level. */
  function Record(st: State, e: Event): State {
    st.(events := st.events + [e],
        warnings := if e.level == Warn then Bump(st.warnings, e.kind) else st.warnings,
        errors := if e.level == Error then Bump(st.errors, e.kind) else st.errors)
  }

  /** The effect of a classified line with timestamp `ts` on the state. */
  function Apply(st: State, ts: Option<string>, e: Effect): (r: State)
    ensures r.lineCount == st.lineCount + 1
    ensures st.buckets.Keys <= r.buckets.Keys
    ensures !e.Emit? ==> r.events == st.events
    ensures !e.Sample? ==> r.buckets == st.buckets
    ensures e.Emit? ==> r.events == st.events + [Event(TimestampOrUnknown(ts), e.kind, LevelOf(e.kind))]
  {
    var st := st.(lineCount := st.lineCount + 1,
                  firstTs := if st.firstTs.None? then ts else st.firstTs,
                  lastTs := if ts.Some? then ts else st.lastTs);
    match e
    case Sample(k, _, _, _, _) => st.(buckets := st.buckets[k := AddSample(BucketOf(st.buckets, k), e)])
    case Emit(kind) => Record(st, Event(TimestampOrUnknown(ts), kind, LevelOf(kind)))
    case Nothing => st
  }

  /** One iteration of the scan loop. */
  function Step(st: State, line: string): (r: State)
    ensures r.lineCount == st.lineCount + 1
  {
    Apply(st, ParseLeading(line), EffectOf(line))
  }

  /** The event list only grows, by at most one event, stamped with the
      line's timestamp or `unknown`. */
  lemma ApplyAppends(st: State, ts: Option<string>, e: Effect)
    ensures var r := Apply(st, ts, e);
            && |st.events| <= |r.events| <= |st.events| + 1
            && r.events[..|st.events|] == st.events
            && (|r.events| > |st.events| ==> e.Emit? && r.events[|st.events|].timestamp == TimestampOrUnknown(ts))
  {
    var r := Apply(st, ts, e);
    assert r.events[..|st.events|] == st.events;
  }

  /** One line appends at most one event, never one for a timestamped
      metrics line, and the event carries the line's leading timestamp. */
  lemma StepAppends(st: State, line: string)
    ensures var r := Step(st, line);
            && |st.events| <= |r.events| <= |st.events| + 1
            && r.events[..|st.events|] == st.events
            && (MetricMinute(line).Some? ==> r.events == st.events)
            && (|r.events| > |st.events| ==>
                  r.events[|st.events|].timestamp == TimestampOrUnknown(ParseLeading(line)))
  {
    ApplyAppends(st, ParseLeading(line), EffectOf(line));
  }

  /** A line as the scan sees it: its timestamp and its effect. */
  datatype Seen = Seen(ts: Option<string>, effect: Effect)

  function See(line: string): Seen {
    Seen(ParseLeading(line), EffectOf(line))
  }


  /** The scan over classified lines. */
  function Scan(seen: seq<Seen>): State {
    if seen == [] then Init
    else
      var last := seen[|seen| - 1];
      Apply(Scan(seen[..|seen| - 1]), last.ts, last.effect)
  }

  /** The scan over all lines, in order. */
  function Pass(lines: seq<string>): State {
    Scan(Map(lines, See))
  }

  /** The step equation of the fold, `Pass(init + [line]) == Step(Pass(init), line)`:
      one unfolding, not an induction. */
  lemma PassSnoc(lines: seq<string>)
    requires lines != []
    ensures Pass(lines) == Step(Pass(lines[..|lines| - 1]), lines[|lines| - 1])
  {
    assert Map(lines, See)[..|lines| - 1] == Map(lines[..|lines| - 1], See);
  }

  lemma SampleUpdatesOneBucket(st: State, ts: Option<string>, e: Effect)
    requires e.Sample?
    ensures var r := Apply(st, ts, e);
            && r.buckets.Keys == st.buckets.Keys + {e.minute}
            && (forall k' :: k' in st.buckets && k' != e.minute ==> r.buckets[k'] == st.buckets[k'])
            && r.buckets[e.minute] == AddSample(BucketOf(st.buckets, e.minute), e)
            && r.events == st.events && r.warnings == st.warnings && r.errors == st.errors
  {
  }

  /** A timestamped metrics line feeds exactly its minute's bucket: one more
      sample, each present field added, absent fields untouched, every other
      bucket and every event list untouched. */
  lemma MetricLineStep(st: State, line: string)
    requires MetricMinute(line).Some?
    ensures var k := MetricMinute(line).value;
            var r := Step(st, line);
            && r.buckets.Keys == st.buckets.Keys + {k}
            && (forall k' :: k' in st.buckets && k' != k ==> r.buckets[k'] == st.buckets[k'])
            && r.buckets[k].samples == BucketOf(st.buckets, k).samples + 1
            && (forall f :: Tracked(f) ==>
                  Counter(r.buckets[k], f) == Counter(BucketOf(st.buckets, k), f) + FieldOr0(line, f))
            && (forall f :: Tracked(f) && FieldValue(line, f).None? ==>
                  Counter(r.buckets[k], f) == Counter(BucketOf(st.buckets, k), f))
            && r.events == st.events && r.warnings == st.warnings && r.errors == st.errors
  {
    SampleUpdatesOneBucket(st, ParseLeading(line), EffectOf(line));
    SampleOfLine(BucketOf(st.buckets, MetricMinute(line).value), line);
  }

  /** The sample a metrics line adds to a bucket. */
  lemma SampleOfLine(b: Bucket, line: string)
    requires MetricMinute(line).Some?
    ensures var r := AddSample(b, EffectOf(line));
            && r.samples == b.samples + 1
            && (forall f :: Tracked(f) ==> Counter(r, f) == Counter(b, f) + FieldOr0(line, f))
            && (forall f :: Tracked(f) && FieldValue(line, f).None? ==> Counter(r, f) == Counter(b, f))
  {
  }

  // ---------------------------------------------------------------------
  // Reference definitions the fold is compared with.

  /** Number of timestamped metrics lines of minute `k`. */
  function MinuteSamples(lines: seq<string>, k: string): nat {
    if lines == [] then 0
    else MinuteSamples(lines[..|lines| - 1], k)
         + (if MetricMinute(lines[|lines| - 1]) == Some(k) then 1 else 0)
  }

  /** Total of field `f` over the timestamped metrics lines of minute `k`. */
  function MinuteSum(lines: seq<string>, k: string, f: Field): nat {
    if lines == [] then 0
    else MinuteSum(lines[..|lines| - 1], k, f)
         + (if MetricMinute(lines[|lines| - 1]) == Some(k) then FieldOr0(lines[|lines| - 1], f) else 0)
  }

  /** Number of events of kind `k`. */
  function CountKind(events: seq<Event>, k: EventKind): nat {
    if events == [] then 0
    else CountKind(events[..|events| - 1], k) + (if events[|events| - 1].kind == k then 1 else 0)
  }

  /** Number of events of level `lv`. */
  function CountLevel(events: seq<Event>, lv: Level): nat {
    if events == [] then 0
    else CountLevel(events[..|events| - 1], lv) + (if events[|events| - 1].level == lv then 1 else 0)
  }

  predicate HasLevel(events: seq<Event>, lv: Level) {
    exists i :: 0 <= i < |events| && events[i].level == lv
  }

  lemma {:induction false} CountLevelPositive(events: seq<Event>, lv: Level)
    ensures CountLevel(events, lv) > 0 <==> HasLevel(events, lv)
  {
    if events != [] {
      var init := events[..|events| - 1];
      CountLevelPositive(init, lv);
      if HasLevel(init, lv) {
        var i :| 0 <= i < |init| && init[i].level == lv;
        assert events[i] == init[i];
      }
      if HasLevel(events, lv) && events[|events| - 1].level != lv {
        var i :| 0 <= i < |events| && events[i].level == lv;
        assert init[i] == events[i];
      }
    }
  }

  /** The tallies of one level: only that level's kinds are keys, each with a
      positive count equal to the number of its events, and the tally sums to
      the number of events of that level. */
  ghost predicate TallyOf(m: map<EventKind, nat>, events: seq<Event>, lv: Level) {
    && (forall k :: k in m ==> LevelOf(k) == lv && m[k] >= 1)
    && (forall k :: LevelOf(k) == lv ==> Lookup(m, k) == CountKind(events, k))
    && SumMap(m) == CountLevel(events, lv)
  }

  /** What the scan keeps true of its state after every line. */
  ghost predicate Invariant(st: State) {
    && (forall k :: k in st.buckets ==> st.buckets[k].samples >= 1)
    && (forall i :: 0 <= i < |st.events| ==> st.events[i].level == LevelOf(st.events[i].kind))
    && TallyOf(st.warnings, st.events, Warn)
    && TallyOf(st.errors, st.events, Error)
  }

  lemma CountsAppend(events: seq<Event>, e: Event)
    ensures forall k :: CountKind(events + [e], k) == CountKind(events, k) + (if e.kind == k then 1 else 0)
    ensures forall lv :: CountLevel(events + [e], lv) == CountLevel(events, lv) + (if e.level == lv then 1 else 0)
  {
    assert (events + [e])[..|events|] == events;
  }

  lemma TallyRecord(m: map<EventKind, nat>, events: seq<Event>, lv: Level, e: Event)
    requires TallyOf(m, events, lv)
    ensures TallyOf(if e.level == lv then Bump(m, e.kind) else m, events + [e], lv)
    requires e.level == LevelOf(e.kind)
  {
    CountsAppend(events, e);
    if e.level == lv {
      SumMapBump(m, e.kind);
    }
  }

  lemma ApplyKeepsInvariant(st: State, ts: Option<string>, e: Effect)
    requires Invariant(st)
    ensures Invariant(Apply(st, ts, e))
  {
    if e.Emit? {
      var ev := Event(TimestampOrUnknown(ts), e.kind, LevelOf(e.kind));
      TallyRecord(st.warnings, st.events, Warn, ev);
      TallyRecord(st.errors, st.events, Error, ev);
    } else if e.Sample? {
      SampleUpdatesOneBucket(st, ts, e);
    }
  }

  lemma {:induction false} ScanInvariant(seen: seq<Seen>)
    ensures Invariant(Scan(seen))
    ensures Scan(seen).lineCount == |seen|
  {
    if seen != [] {
      var last := seen[|seen| - 1];
      ScanInvariant(seen[..|seen| - 1]);
      ApplyKeepsInvariant(Scan(seen[..|seen| - 1]), last.ts, last.effect);
    }
  }

  lemma PassInvariant(lines: seq<string>)
    ensures Invariant(Pass(lines))
    ensures Pass(lines).lineCount == |lines|
  {
    ScanInvariant(Map(lines, See));
  }

  /** Samples of minute `k` among classified lines, and their total for `f`. */
  function SeenSamples(seen: seq<Seen>, k: string): nat {
    if seen == [] then 0
    else
      var e := seen[|seen| - 1].effect;
      SeenSamples(seen[..|seen| - 1], k) + (if e.Sample? && e.minute == k then 1 else 0)
  }

  function SeenSum(seen: seq<Seen>, k: string, f: Field): nat
    requires Tracked(f)
  {
    if seen == [] then 0
    else
      var e := seen[|seen| - 1].effect;
      SeenSum(seen[..|seen| - 1], k, f) + (if e.Sample? && e.minute == k then Value(e, f) else 0)
  }

  lemma {:induction false} ScanBucket(seen: seq<Seen>, k: string)
    ensures k in Scan(seen).buckets <==> SeenSamples(seen, k) > 0
    ensures k in Scan(seen).buckets ==>
              && Scan(seen).buckets[k].samples == SeenSamples(seen, k)
              && (forall f :: Tracked(f) ==> Counter(Scan(seen).buckets[k], f) == SeenSum(seen, k, f))
    ensures k !in Scan(seen).buckets ==> forall f :: Tracked(f) ==> SeenSum(seen, k, f) == 0
  {
    if seen != [] {
      var init := seen[..|seen| - 1];
      var last := seen[|seen| - 1];
      ScanBucket(init, k);
      if last.effect.Sample? {
        SampleUpdatesOneBucket(Scan(init), last.ts, last.effect);
        assert forall f :: Tracked(f) ==> Counter(EmptyBucket, f) == 0;
      }
    }
  }

  lemma {:induction false} SeenMatchesLines(lines: seq<string>, k: string)
    ensures SeenSamples(Map(lines, See), k) == MinuteSamples(lines, k)
    ensures forall f :: Tracked(f) ==> SeenSum(Map(lines, See), k, f) == MinuteSum(lines, k, f)
  {
    if lines != [] {
      var init := lines[..|lines| - 1];
      SeenMatchesLines(init, k);
      assert Map(lines, See)[..|lines| - 1] == Map(init, See);
    }
  }

  lemma BucketOfMinute(lines: seq<string>, k: string)
    ensures k in Pass(lines).buckets <==> MinuteSamples(lines, k) > 0
    ensures k in Pass(lines).buckets ==>
              && Pass(lines).buckets[k].samples == MinuteSamples(lines, k)
              && (forall f :: Tracked(f) ==> Counter(Pass(lines).buckets[k], f) == MinuteSum(lines, k, f))
  {
    ScanBucket(Map(lines, See), k);
    SeenMatchesLines(lines, k);
  }

  /** Every bucket is the sum of the metrics lines of its minute: it exists
      exactly for the minutes that had a timestamped metrics line, counts those
      lines as samples, and holds the totals of their fields. */
  lemma BucketsAreMinuteSums(lines: seq<string>)
    ensures forall k :: k in Pass(lines).buckets <==> MinuteSamples(lines, k) > 0
    ensures forall k :: k in Pass(lines).buckets ==>
              && Pass(lines).buckets[k].samples == MinuteSamples(lines, k)
              && (forall f :: Tracked(f) ==> Counter(Pass(lines).buckets[k], f) == MinuteSum(lines, k, f))
  {
    forall k {
      BucketOfMinute(lines, k);
    }
  }

  /** `warning_counts` and `error_counts` after the scan: keyed only by kinds
      of their level, counting exactly the events of each kind, and summing
      to the number of warn and error events; info and debug events are in
      neither. */
  lemma TalliesFollowLevels(lines: seq<string>)
    ensures var st := Pass(lines);
            && TallyOf(st.warnings, st.events, Warn)
            && TallyOf(st.errors, st.events, Error)
  {
    PassInvariant(lines);
  }

  // ---------------------------------------------------------------------
  // The summary.

  datatype Status = Healthy | MostlyHealthy | IssuesDetected

  /** `Overall BAM status`: decided by which tallies are non-empty. */
  function OverallStatus(st: State): Status {
    if st.errors != map[] then IssuesDetected
    else if st.warnings != map[] then MostlyHealthy
    else Healthy
  }

  /** The status follows the events: issues iff an error event was seen,
      mostly healthy iff a warning but no error was, healthy otherwise. */
  lemma StatusFollowsEvents(lines: seq<string>)
    ensures var st := Pass(lines);
            && (OverallStatus(st) == IssuesDetected <==> HasLevel(st.events, Error))
            && (OverallStatus(st) == MostlyHealthy <==>
                  !HasLevel(st.events, Error) && HasLevel(st.events, Warn))
            && (OverallStatus(st) == Healthy <==>
                  !HasLevel(st.events, Error) && !HasLevel(st.events, Warn))
  {
    var st := Pass(lines);
    PassInvariant(lines);
    SumMapPositive(st.warnings);
    SumMapPositive(st.errors);
    CountLevelPositive(st.events, Warn);
    CountLevelPositive(st.events, Error);
  }

  /** The minutes with at least one sample, and those that saw an unhealthy
      connection. */
  function ActiveMinutes(b: map<string, Bucket>): set<string> {
    set k | k in b && b[k].samples > 0
  }

  function UnhealthyMinutes(b: map<string, Bucket>): set<string> {
    set k | k in b && b[k].unhealthy > 0
  }

  /** `uptime_pct`, computed only when some minute was active. */
  function Uptime(b: map<string, Bucket>): Option<real> {
    if b == map[] then None
    else
      var total := |ActiveMinutes(b)|;
      var healthy := total - |UnhealthyMinutes(b)|;
      if total > 0 then Some((healthy as real / total as real) * 100.0) else None
  }

  lemma {:induction false} SubsetCard<T>(a: set<T>, b: set<T>)
    requires a <= b
    ensures |a| <= |b|
    decreases b
  {
    if a != {} {
      var x :| x in a;
      SubsetCard(a - {x}, b - {x});
    }
  }

  lemma UptimeBounds(b: map<string, Bucket>)
    requires forall k :: k in b ==> b[k].samples >= 1
    ensures UnhealthyMinutes(b) <= ActiveMinutes(b)
    ensures |ActiveMinutes(b)| - |UnhealthyMinutes(b)| >= 0
    ensures Uptime(b).Some? <==> b != map[]
    ensures Uptime(b).Some? ==> 0.0 <= Uptime(b).value <= 100.0
  {
    var act := ActiveMinutes(b);
    var unh := UnhealthyMinutes(b);
    SubsetCard(unh, act);
    if b != map[] {
      var k :| k in b;
      assert k in act;
      var total := |act|;
      var healthy := total - |unh|;
      assert 0 <= healthy <= total;
      assert healthy as real / total as real <= 1.0;
    }
  }

  /** Since every bucket has a sample, the unhealthy minutes are active
      minutes, the healthy count is never negative and the uptime is a
      percentage; it is reported exactly when some bucket exists. */
  lemma UptimeIsPercentage(lines: seq<string>)
    ensures var b := Pass(lines).buckets;
            && UnhealthyMinutes(b) <= ActiveMinutes(b)
            && |ActiveMinutes(b)| - |UnhealthyMinutes(b)| >= 0
            && (Uptime(b).Some? <==> b != map[])
            && (Uptime(b).Some? ==> 0.0 <= Uptime(b).value <= 100.0)
  {
    PassInvariant(lines);
    UptimeBounds(Pass(lines).buckets);
  }

  /** The timeline shown without `--verbose`: warnings, errors, and the
      connected, disconnected and connection-lost events. */
  predicate Significant(e: Event) {
    e.level == Warn || e.level == Error
    || e.kind == Connected || e.kind == Disconnected || e.kind == ConnectionLost
  }

  function DisplayEvents(events: seq<Event>, verbose: bool): (r: seq<Event>)
    ensures verbose ==> r == events
    ensures !verbose ==> forall e :: e in r <==> e in events && Significant(e)
    ensures !verbose ==> |r| == Count(events, Significant)
    ensures |r| <= |events|
  {
    if verbose then events else Filter(events, Significant)
  }

  /** The short timeline keeps the events' order: the timeline of two
      stretches of log is the first one's followed by the second one's, and a
      single event shows exactly when it is significant. */
  lemma DisplayEventsInOrder(before: seq<Event>, after: seq<Event>)
    ensures DisplayEvents(before + after, false) == DisplayEvents(before, false) + DisplayEvents(after, false)
    ensures forall e :: DisplayEvents([e], false) == (if Significant(e) then [e] else [])
  {
    FilterAppend(before, after, Significant);
    FilterSingle(Significant);
  }

  /** `Disconnections/unhealthy`: lost, manually disconnected and not-healthy events. */
  predicate IsDisconnection(e: Event) {
    e.kind == ConnectionLost || e.kind == Disconnected || e.kind == NotHealthy
  }

  lemma {:induction false} DisconnectionsByKind(events: seq<Event>)
    ensures Count(events, IsDisconnection)
            == CountKind(events, ConnectionLost) + CountKind(events, Disconnected) + CountKind(events, NotHealthy)
  {
    if events != [] {
      DisconnectionsByKind(events[..|events| - 1]);
    }
  }

  /** The disconnection count of the summary agrees with the warning tallies:
      it is the not-healthy and connection-lost warnings plus the manual
      disconnects. */
  lemma DisconnectionsMatchTallies(lines: seq<string>)
    ensures var st := Pass(lines);
            |Filter(st.events, IsDisconnection)|
            == Lookup(st.warnings, NotHealthy) + Lookup(st.warnings, ConnectionLost)
               + CountKind(st.events, Disconnected)
  {
    var st := Pass(lines);
    PassInvariant(lines);
    DisconnectionsByKind(st.events);
    assert LevelOf(NotHealthy) == Warn && LevelOf(ConnectionLost) == Warn;
  }

  // ---------------------------------------------------------------------
  // How the run ends.

  datatype Outcome = NoLogLines | NoBamActivity | FullReport

  /** `line_count == 0` exits with an error; no events and no buckets prints
      the "no BAM activity" notice; anything else gets the full report. */
  function OutcomeOf(st: State): Outcome {
    if st.lineCount == 0 then NoLogLines
    else if st.events == [] && st.buckets == map[] then NoBamActivity
    else FullReport
  }

  /** A line that leaves no trace in buckets or events: by the contract of
      `EffectOf`, neither a timestamped metrics line nor a line with an event. */
  predicate Silent(line: string) {
    EffectOf(line).Nothing?
  }

  lemma ApplyQuiet(st: State, ts: Option<string>, e: Effect)
    ensures var r := Apply(st, ts, e);
            (r.events == [] && r.buckets == map[]) <==>
            (st.events == [] && st.buckets == map[] && e.Nothing?)
  {
    if e.Sample? {
      SampleUpdatesOneBucket(st, ts, e);
      assert e.minute in Apply(st, ts, e).buckets;
    }
  }

  lemma {:induction false} ScanQuiet(seen: seq<Seen>)
    ensures Scan(seen).events == [] && Scan(seen).buckets == map[]
            <==> forall i :: 0 <= i < |seen| ==> seen[i].effect.Nothing?
  {
    if seen != [] {
      var init := seen[..|seen| - 1];
      var last := seen[|seen| - 1];
      ScanQuiet(init);
      ApplyQuiet(Scan(init), last.ts, last.effect);
      assert forall i :: 0 <= i < |init| ==> init[i] == seen[i];
    }
  }

  lemma QuietIffSilent(lines: seq<string>)
    ensures Pass(lines).events == [] && Pass(lines).buckets == map[]
            <==> forall i :: 0 <= i < |lines| ==> Silent(lines[i])
  {
    ScanQuiet(Map(lines, See));
  }

  /** Zero lines is the fatal outcome; lines that are all silent give the
      "no BAM activity" outcome; anything else gives the report. */
  lemma OutcomeCharacterised(lines: seq<string>)
    ensures OutcomeOf(Pass(lines)) == NoLogLines <==> lines == []
    ensures OutcomeOf(Pass(lines)) == NoBamActivity <==>
              lines != [] && forall i :: 0 <= i < |lines| ==> Silent(lines[i])
  {
    PassInvariant(lines);
    QuietIffSilent(lines);
  }
}

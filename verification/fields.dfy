/** The integer fields of the `bam_connection-metrics` datapoint and the
    `name=(\d+)i` extractor every script applies to them. */
module Fields {
  import opened Wrappers
  import opened Text
  import opened Pattern

  datatype Field =
    | BundleReceived      // bundle_received
    | BundleResultSent    // bundleresult_sent
    | SchedulerFail       // bundle_forward_to_scheduler_fail
    | OutboundFail        // outbound_fail
    | UnhealthyCount      // unhealthy_connection_count
    | HeartbeatReceived   // heartbeat_received
    | HeartbeatSent       // heartbeat_sent
    | LeaderStateSent     // leaderstate_sent

  function Name(f: Field): string {
    match f
    case BundleReceived => "bundle_received"
    case BundleResultSent => "bundleresult_sent"
    case SchedulerFail => "bundle_forward_to_scheduler_fail"
    case OutboundFail => "outbound_fail"
    case UnhealthyCount => "unhealthy_connection_count"
    case HeartbeatReceived => "heartbeat_received"
    case HeartbeatSent => "heartbeat_sent"
    case LeaderStateSent => "leaderstate_sent"
  }

  /** `name=(\d+)i`: the field's name, `=`, its digits and the integer type marker. */
  function FieldPattern(name: string): seq<Piece> {
    [Lit(name + "="), Num(1), Lit("i")]
  }

  /** Position of the digits of a field whose `name=` starts at `p`. */
  function DigitsStart(name: string, p: nat): nat {
    p + |name| + 1
  }

  /** `name=<digits>i` starts at `p` of `line`. */
  predicate FieldAt(line: string, name: string, p: nat) {
    && OccursAt(line, name + "=", p)
    && var d := DigitsStart(name, p);
       var e := RunEnd(line, d, Digit);
       e > d && OccursAt(line, "i", e)
  }

  /** The number written in the field that starts at `p`. */
  function FieldAtValue(line: string, name: string, p: nat): nat
    requires FieldAt(line, name, p)
  {
    var d := DigitsStart(name, p);
    DigitsAt(line, d, RunEnd(line, d, Digit))
  }

  /** The anchored match of `name=(\d+)i` at `p` is exactly a field at `p`. */
  lemma FieldMatchAt(line: string, name: string, p: nat)
    requires p <= |line|
    ensures MatchAt(line, p, FieldPattern(name)).Some? <==> FieldAt(line, name, p)
    ensures FieldAt(line, name, p) ==>
              MatchAt(line, p, FieldPattern(name)).value.nums == [FieldAtValue(line, name, p)]
  {
    var ps := FieldPattern(name);
    assert ps[1..] == [Num(1), Lit("i")];
    assert ps[1..][1..] == [Lit("i")];
    assert ps[1..][1..][1..] == [];
    if OccursAt(line, name + "=", p) {
      var d := DigitsStart(name, p);
      assert MatchAt(line, p, ps) == MatchAt(line, d, ps[1..]);
      var e := RunEnd(line, d, Digit);
      if e > d && OccursAt(line, "i", e) {
        assert MatchAt(line, e, ps[1..][1..]) == Some(Match(e + 1, [], []));
      }
    }
  }

  /** Leftmost value of `name=(\d+)i` in `line` (`rx.search(line)` then `int(m.group(1))`). */
  function FindField(line: string, name: string): Option<nat> {
    match Find(line, FieldPattern(name))
    case None => None
    case Some(m) => if |m.nums| == 1 then Some(m.nums[0]) else None
  }

  /** `FindField` finds a field exactly when one occurs, and then returns the
      value written in the leftmost occurrence. */
  lemma FindFieldLeftmost(line: string, name: string)
    ensures FindField(line, name).Some? <==> exists p: nat :: FieldAt(line, name, p)
    ensures FindField(line, name).Some? ==>
              exists p: nat :: && FieldAt(line, name, p)
                               && FindField(line, name).value == FieldAtValue(line, name, p)
                               && forall q: nat :: q < p ==> !FieldAt(line, name, q)
  {
    var ps := FieldPattern(name);
    match SearchFrom(line, 0, ps)
    case None =>
      forall p: nat | FieldAt(line, name, p) ensures false {
        FieldMatchAt(line, name, p);
      }
    case Some((p, m)) =>
      FieldMatchAt(line, name, p);
      forall q: nat | q < p ensures !FieldAt(line, name, q) {
        FieldMatchAt(line, name, q);
      }
  }

  /** The value of field `f` on `line`, if the field is present. */
  function FieldValue(line: string, f: Field): Option<nat> {
    FindField(line, Name(f))
  }

  /** The contribution of field `f` to a running sum: its value, or 0 when absent. */
  function FieldOr0(line: string, f: Field): nat {
    FieldValue(line, f).GetOr(0)
  }
}

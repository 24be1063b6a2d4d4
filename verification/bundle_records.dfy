/** The record pass of `bundle-txn-signatures.py`. Each line may update the
    current slot (the most recent `bank` line) and, when it holds a bundle
    execution debug message with at least one signature, append a bundle
    record stamped with that slot. Then the order-preserving de-duplication
    of all signatures and the explorer links. */
module BundleRecords {
  import opened Wrappers
  import opened Text
  import opened Pattern
  import opened Timestamp
  import opened Sums
  import opened Seqs
  import opened BundleSignatures

  // ---------------------------------------------------------------------
  // `parse_bundle_result`

  /** The closed set of result names. */
  datatype ResultTag = Success | LockError | TxFailure | CostLimit | BundleCostLimit
                     | TipError | Error | Unknown

  function TagName(t: ResultTag): string {
    match t
    case Success => "success"
    case LockError => "lock_error"
    case TxFailure => "tx_failure"
    case CostLimit => "cost_limit"
    case BundleCostLimit => "bundle_cost_limit"
    case TipError => "tip_error"
    case Error => "error"
    case Unknown => "unknown"
  }

  /** Distinct tags print as distinct names. */
  lemma TagNameInjective(a: ResultTag, b: ResultTag)
    ensures TagName(a) == TagName(b) ==> a == b
  {
  }

  /** The classifier, test by test. */
  function Classify(resultText: string): ResultTag {
    if Contains(resultText, "Ok(())") || Contains(resultText, "Ok(") then Success
    else if Contains(resultText, "LockError") then LockError
    else if Contains(resultText, "TransactionFailure") then TxFailure
    else if Contains(resultText, "ExceedsBlockCostLimit") then CostLimit
    else if Contains(resultText, "ExceedsBundleCost") then BundleCostLimit
    else if Contains(resultText, "TipError") then TipError
    else if Contains(resultText, "Err(") then Error
    else Unknown
  }

  /** `Ok(())` always contains `Ok(`: the first half of the success test adds nothing. */
  lemma OkUnitImpliesOk(t: string)
    ensures Contains(t, "Ok(())") ==> Contains(t, "Ok(")
  {
    if Contains(t, "Ok(())") {
      ContainsIff(t, "Ok(())");
      var i: nat :| OccursAt(t, "Ok(())", i);
      assert "Ok(())" == "Ok(" + "())";
      OccursAtPrefix(t, "Ok(", "())", i);
      ContainsIff(t, "Ok(");
    }
  }

  /** The result is the tag of the first marker, in test order, that the text
      contains, and `unknown` when it contains none. So text with `Ok(` is
      always `success`, and a specific error kind wins over the generic `Err(`. */
  lemma ClassifyFirstMarker(t: string)
    ensures Classify(t) == Success <==> Contains(t, "Ok(")
    ensures Classify(t) == LockError <==> !Contains(t, "Ok(") && Contains(t, "LockError")
    ensures Classify(t) == TxFailure <==>
              !Contains(t, "Ok(") && !Contains(t, "LockError") && Contains(t, "TransactionFailure")
    ensures Classify(t) == CostLimit <==>
              !Contains(t, "Ok(") && !Contains(t, "LockError") && !Contains(t, "TransactionFailure")
              && Contains(t, "ExceedsBlockCostLimit")
    ensures Classify(t) == BundleCostLimit <==>
              !Contains(t, "Ok(") && !Contains(t, "LockError") && !Contains(t, "TransactionFailure")
              && !Contains(t, "ExceedsBlockCostLimit") && Contains(t, "ExceedsBundleCost")
    ensures Classify(t) == TipError <==>
              !Contains(t, "Ok(") && !Contains(t, "LockError") && !Contains(t, "TransactionFailure")
              && !Contains(t, "ExceedsBlockCostLimit") && !Contains(t, "ExceedsBundleCost")
              && Contains(t, "TipError")
    ensures Classify(t) == Error <==>
              !Contains(t, "Ok(") && !Contains(t, "LockError") && !Contains(t, "TransactionFailure")
              && !Contains(t, "ExceedsBlockCostLimit") && !Contains(t, "ExceedsBundleCost")
              && !Contains(t, "TipError") && Contains(t, "Err(")
    ensures Classify(t) == Unknown <==>
              !Contains(t, "Ok(") && !Contains(t, "LockError") && !Contains(t, "TransactionFailure")
              && !Contains(t, "ExceedsBlockCostLimit") && !Contains(t, "ExceedsBundleCost")
              && !Contains(t, "TipError") && !Contains(t, "Err(")
  {
    OkUnitImpliesOk(t);
  }

  // ---------------------------------------------------------------------
  // The bundle execution line.

  /** The substring that makes the loop look at a line at all. */
  const Guard: string := "execution results: bundle signatures:"

  /** The literal that starts the pattern: the guard and a space. */
  const Lead: string := Guard + " "

  /** `execution results: bundle signatures: (\[.*?\]), result: ([^,]+)`, the
      two groups delimited by group boundaries. Each suffix of the pattern is
      named, so that a match can be followed one piece at a time. */
  function ExecPattern(): seq<Piece> { [Lit(Lead)] + ListGroup() }
  function ListGroup(): seq<Piece> { [Mark] + ListOpen() }
  function ListOpen(): seq<Piece> { [Lit("[")] + ListBody() }
  function ListBody(): seq<Piece> { [Lazy] + CloseTail() }
  /** `\], result: ([^,]+)`: what must follow the signature list. */
  function CloseTail(): seq<Piece> { [Lit("]")] + ListEnd() }
  function ListEnd(): seq<Piece> { [Mark] + Separator() }
  function Separator(): seq<Piece> { [Lit(", result: ")] + ResultGroup() }
  function ResultGroup(): seq<Piece> { [Mark] + ResultRun() }
  function ResultRun(): seq<Piece> { [Run(Except(','), 1)] + ResultEnd() }
  function ResultEnd(): seq<Piece> { [Mark] }

  lemma ExecMarkCount()
    ensures MarkCount(ExecPattern()) == 4
  {
    assert MarkCount(ResultEnd()) == 1 by { assert ResultEnd()[1..] == []; }
    assert ResultRun()[1..] == ResultEnd();
    assert ResultGroup()[1..] == ResultRun();
    assert Separator()[1..] == ResultGroup();
    assert ListEnd()[1..] == Separator();
    assert CloseTail()[1..] == ListEnd();
    assert ListBody()[1..] == CloseTail();
    assert ListOpen()[1..] == ListBody();
    assert ListGroup()[1..] == ListOpen();
    assert ExecPattern()[1..] == ListGroup();
  }

  /** The two groups of the first match in the line: the signature text and
      the result text. */
  function ExecParts(line: string): Option<(string, string)> {
    ExecMarkCount();
    PartsWith(line, ExecPattern())
  }

  /** A match of a pattern with four group boundaries, as seen in `line`. */
  predicate WellShapedMatch(line: string, m: Match) {
    |m.marks| == 4 && MarksWithin(m.marks, 0, |line|)
  }

  /** The two groups delimited by the four group boundaries of `m`. */
  function PartsOf(line: string, m: Match): Option<(string, string)>
    requires WellShapedMatch(line, m)
  {
    var ms := m.marks;
    Some((line[ms[0]..ms[1]], line[ms[2]..ms[3]]))
  }

  /** The two groups of the first match of `ps`, a pattern with four group
      boundaries. */
  function PartsWith(line: string, ps: seq<Piece>): Option<(string, string)>
    requires MarkCount(ps) == 4
  {
    var r := Find(line, ps);
    if r.None? then None
    else
      assert WellShapedMatch(line, r.value);
      PartsOf(line, r.value)
  }

  /** Parts are only found where the pattern matches. */
  lemma FoundWith(line: string, ps: seq<Piece>) returns (p: nat, m: Match)
    requires MarkCount(ps) == 4 && PartsWith(line, ps).Some?
    ensures p <= |line| && MatchAt(line, p, ps) == Some(m)
    ensures WellShapedMatch(line, m) && PartsWith(line, ps) == PartsOf(line, m)
    ensures forall j: nat :: j < p ==> MatchAt(line, j, ps).None?
  {
    m := Find(line, ps).value;
    p :| && p <= |line| && MatchAt(line, p, ps) == Some(m)
         && forall j: nat :: j < p ==> MatchAt(line, j, ps).None?;
  }

  /** What a match of the tail after the list looks like: `]`, `, result: `,
      then the longest comma-free run, which is not empty. */
  lemma CloseTailShape(s: string, q: nat, m: Match) returns (e: nat)
    requires q <= |s| && MatchAt(s, q, CloseTail()) == Some(m)
    ensures q + 11 < e <= |s| && OccursAt(s, "]", q) && OccursAt(s, ", result: ", q + 1)
    ensures |m.marks| == 3 && m.marks[0] == q + 1 && m.marks[1] == q + 11 && m.marks[2] == e
    ensures forall k :: q + 11 <= k < e ==> s[k] != ','
    ensures e == |s| || s[e] == ','
  {
    var m2 := CloseTailLead(s, q, m);
    e := ResultRunShape(s, q + 11, m2);
  }

  /** The literal part of the tail: `]`, a boundary, `, result: `, a boundary. */
  lemma CloseTailLead(s: string, q: nat, m: Match) returns (m2: Match)
    requires q <= |s| && MatchAt(s, q, CloseTail()) == Some(m)
    ensures q + 11 <= |s| && OccursAt(s, "]", q) && OccursAt(s, ", result: ", q + 1)
    ensures |m.marks| >= 2 && m.marks[0] == q + 1 && m.marks[1] == q + 11
    ensures m2 == m.(marks := m.marks[2..]) && MatchAt(s, q + 11, ResultRun()) == Some(m2)
  {
    MatchLit(s, q, "]", ListEnd(), m);
    MatchMark(s, q + 1, Separator(), m);
    var m1 := m.(marks := m.marks[1..]);
    MatchLit(s, q + 1, ", result: ", ResultGroup(), m1);
    MatchMark(s, q + 11, ResultRun(), m1);
    m2 := m1.(marks := m1.marks[1..]);
  }

  /** The result group: the longest comma-free run, not empty, then a boundary. */
  lemma ResultRunShape(s: string, i: nat, m: Match) returns (e: nat)
    requires i <= |s| && MatchAt(s, i, ResultRun()) == Some(m)
    ensures i < e <= |s| && |m.marks| == 1 && m.marks[0] == e
    ensures forall k :: i <= k < e ==> s[k] != ','
    ensures e == |s| || s[e] == ','
  {
    MatchRun(s, i, Except(','), 1, ResultEnd(), m);
    e := RunEnd(s, i, Except(','));
    assert ResultEnd() == [Mark] + [];
    MatchMark(s, e, [], m);
  }

  /** `]`, then `, result: `, then a character other than a comma: where the
      tail after the signature list can match. */
  predicate ClosesAt(line: string, k: nat) {
    && k + 11 < |line|
    && OccursAt(line, "]", k) && OccursAt(line, ", result: ", k + 1)
    && line[k + 11] != ','
  }

  /** The tail after the list matches at `k` exactly where `ClosesAt` holds. */
  lemma CloseTailIff(line: string, k: nat)
    requires k <= |line|
    ensures MatchAt(line, k, CloseTail()).Some? <==> ClosesAt(line, k)
  {
    if m :| MatchAt(line, k, CloseTail()) == Some(m) {
      var e := CloseTailShape(line, k, m);
    }
    if ClosesAt(line, k) {
      ResultRunMatches(line, k + 11);
      assert ResultGroup()[0] == Mark && ResultGroup()[1..] == ResultRun();
      assert Separator()[0] == Lit(", result: ") && Separator()[1..] == ResultGroup();
      assert MatchAt(line, k + 1, Separator()).Some?;
      assert ListEnd()[0] == Mark && ListEnd()[1..] == Separator();
      assert CloseTail()[0] == Lit("]") && CloseTail()[1..] == ListEnd();
    }
  }

  /** The result group matches wherever a character other than a comma follows. */
  lemma ResultRunMatches(line: string, i: nat)
    requires i < |line| && line[i] != ','
    ensures MatchAt(line, i, ResultRun()).Some?
  {
    var e := RunEnd(line, i, Except(','));
    assert e > i;
    assert ResultEnd()[0] == Mark && ResultEnd()[1..] == [];
    assert MatchAt(line, e, ResultEnd()).Some?;
    assert ResultRun()[0] == Run(Except(','), 1) && ResultRun()[1..] == ResultEnd();
  }

  /** The head of a match: the lead, `[`, then the shortest newline-free
      stretch after which the tail after the list matches. */
  lemma HeadShape(line: string, p: nat, m: Match) returns (q: nat)
    requires p <= |line| && MatchAt(line, p, ExecPattern()) == Some(m)
    ensures OccursAt(line, Lead, p) && OccursAt(line, "[", p + |Lead|)
    ensures p + |Lead| + 1 <= q <= |line|
    ensures |m.marks| >= 1 && m.marks[0] == p + |Lead|
    ensures MatchAt(line, q, CloseTail()) == Some(m.(marks := m.marks[1..]))
    ensures forall k :: p + |Lead| + 1 <= k < q ==> line[k] != '\n'
    ensures forall k :: p + |Lead| + 1 <= k < q ==> MatchAt(line, k, CloseTail()).None?
  {
    MatchLit(line, p, Lead, ListGroup(), m);
    var i0 := p + |Lead|;
    MatchMark(line, i0, ListOpen(), m);
    var m1 := m.(marks := m.marks[1..]);
    MatchLit(line, i0, "[", ListBody(), m1);
    q := MatchLazy(line, i0 + 1, CloseTail(), m1);
  }

  /** Following a match of the whole pattern piece by piece. */
  lemma ExecMatchShape(line: string, p: nat, m: Match) returns (q: nat, e: nat)
    requires p <= |line| && MatchAt(line, p, ExecPattern()) == Some(m)
    ensures OccursAt(line, Lead, p) && OccursAt(line, "[", p + |Lead|)
    ensures p + |Lead| < q && q + 11 < e <= |line|
    ensures forall k :: p + |Lead| + 1 <= k < q ==> line[k] != '\n'
    ensures forall k :: p + |Lead| + 1 <= k < q ==> MatchAt(line, k, CloseTail()).None?
    ensures OccursAt(line, "]", q) && OccursAt(line, ", result: ", q + 1)
    ensures |m.marks| == 4 && m.marks[0] == p + |Lead| && m.marks[1] == q + 1
    ensures m.marks[2] == q + 11 && m.marks[3] == e
    ensures forall k :: q + 11 <= k < e ==> line[k] != ','
    ensures e == |line| || line[e] == ','
  {
    q := HeadShape(line, p, m);
    var m1 := m.(marks := m.marks[1..]);
    e := CloseTailShape(line, q, m1);
    assert m.marks[1] == m1.marks[0] && m.marks[2] == m1.marks[1] && m.marks[3] == m1.marks[2];
  }

  /** On a matching line the pattern's first match starts at the first place
      `p` where the lead is followed by a complete record: from there the line
      spells out the lead, the signature text, `, result: ` and the result
      text. The signature text runs from the `[` after the lead to the first
      `]` that is followed by `, result: ` and a non-comma, with no newline in
      between; the result text is the whole comma-free run after it, never
      empty. */
  lemma ExecShape(line: string, sig: string, res: string)
    requires ExecParts(line) == Some((sig, res))
    ensures |sig| >= 2 && sig[0] == '[' && sig[|sig| - 1] == ']'
    ensures forall k :: 0 <= k < |sig| ==> sig[k] != '\n'
    ensures res != [] && forall k :: 0 <= k < |res| ==> res[k] != ','
    ensures Contains(line, Lead + sig + ", result: " + res)
    ensures exists p: nat ::
              && ExecSpanAt(line, p, sig, res)
              && forall j: nat :: j < p ==> MatchAt(line, j, ExecPattern()).None?
  {
    ExecMarkCount();
    var p, m := FoundWith(line, ExecPattern());
    ShapeOfMatch(line, p, m, sig, res);
    SpanOfMatch(line, p, m, sig, res);
    ContainsIff(line, Lead + sig + ", result: " + res);
  }

  /** At `p` the line spells out the lead, `sig`, `, result: ` and `res`;
      no `]` inside `sig` is followed by `, result: ` and a non-comma, and
      `res` ends at a comma or at the end of the line. */
  predicate ExecSpanAt(line: string, p: nat, sig: string, res: string) {
    && |sig| >= 2
    && OccursAt(line, Lead + sig + ", result: " + res, p)
    && (forall k :: p + |Lead| + 1 <= k < p + |Lead| + |sig| - 1 ==> !ClosesAt(line, k))
    && (p + |Lead| + |sig| + 10 + |res| == |line| || line[p + |Lead| + |sig| + 10 + |res|] == ',')
  }

  /** The groups of one match of the pattern, read off the match. */
  lemma ShapeOfMatch(line: string, p: nat, m: Match, sig: string, res: string)
    requires p <= |line| && MatchAt(line, p, ExecPattern()) == Some(m)
    requires WellShapedMatch(line, m) && PartsOf(line, m) == Some((sig, res))
    ensures |sig| >= 2 && sig[0] == '[' && sig[|sig| - 1] == ']'
    ensures forall k :: 0 <= k < |sig| ==> sig[k] != '\n'
    ensures res != [] && forall k :: 0 <= k < |res| ==> res[k] != ','
  {
    var q, e := ExecMatchShape(line, p, m);
    PartsAt(line, m, sig, res, p + |Lead|, q, e);
    MatchParts(line, p, q, e, sig, res);
  }

  /** Where one match of the pattern lies in the line. */
  lemma SpanOfMatch(line: string, p: nat, m: Match, sig: string, res: string)
    requires p <= |line| && MatchAt(line, p, ExecPattern()) == Some(m)
    requires WellShapedMatch(line, m) && PartsOf(line, m) == Some((sig, res))
    ensures ExecSpanAt(line, p, sig, res)
  {
    var q, e := ExecMatchShape(line, p, m);
    PartsAt(line, m, sig, res, p + |Lead|, q, e);
    NoEarlierClose(line, p + |Lead| + 1, q);
    SpanAt(line, p, q, e, sig, res);
  }

  /** The span, given the groups' positions. */
  lemma SpanAt(line: string, p: nat, q: nat, e: nat, sig: string, res: string)
    requires p + |Lead| < q && q + 11 < e <= |line|
    requires OccursAt(line, Lead, p) && OccursAt(line, ", result: ", q + 1)
    requires sig == line[p + |Lead|..q + 1] && res == line[q + 11..e]
    requires forall k :: p + |Lead| + 1 <= k < q ==> !ClosesAt(line, k)
    requires e == |line| || line[e] == ','
    ensures ExecSpanAt(line, p, sig, res)
  {
    ExecWhole(line, p, sig, res, q, e);
  }

  /** Where the tail after the list does not match, the line does not close the list. */
  lemma NoEarlierClose(line: string, i: nat, q: nat)
    requires q <= |line|
    requires forall k :: i <= k < q ==> MatchAt(line, k, CloseTail()).None?
    ensures forall k :: i <= k < q ==> !ClosesAt(line, k)
  {
    forall k | i <= k < q
      ensures !ClosesAt(line, k)
    {
      CloseTailIff(line, k);
    }
  }

  /** The two groups, given where the pieces of the match lie. */
  lemma MatchParts(line: string, p: nat, q: nat, e: nat, sig: string, res: string)
    requires p + |Lead| < q && q + 11 < e <= |line|
    requires OccursAt(line, Lead, p) && OccursAt(line, "[", p + |Lead|)
    requires OccursAt(line, "]", q) && OccursAt(line, ", result: ", q + 1)
    requires forall k :: p + |Lead| + 1 <= k < q ==> line[k] != '\n'
    requires forall k :: q + 11 <= k < e ==> line[k] != ','
    requires sig == line[p + |Lead|..q + 1] && res == line[q + 11..e]
    ensures |sig| >= 2 && sig[0] == '[' && sig[|sig| - 1] == ']'
    ensures forall k :: 0 <= k < |sig| ==> sig[k] != '\n'
    ensures res != [] && forall k :: 0 <= k < |res| ==> res[k] != ','
    ensures OccursAt(line, Lead + sig + ", result: " + res, p)
    ensures p + |Lead| + |sig| - 1 == q && p + |Lead| + |sig| + 10 + |res| == e
  {
    SpanChars(line, p + |Lead|, q + 1);
    ExecWhole(line, p, sig, res, q, e);
  }

  lemma PartsAt(line: string, m: Match, sig: string, res: string, i0: nat, q: nat, e: nat)
    requires WellShapedMatch(line, m) && PartsOf(line, m) == Some((sig, res))
    requires m.marks[0] == i0 && m.marks[1] == q + 1 && m.marks[2] == q + 11 && m.marks[3] == e
    ensures sig == line[i0..q + 1] && res == line[q + 11..e]
  {
  }

  /** The list span opens with `[`, closes with `]`, and spans no newline. */
  lemma SpanChars(line: string, i0: nat, q1: nat)
    requires i0 < q1 <= |line| && OccursAt(line, "[", i0) && OccursAt(line, "]", q1 - 1)
    requires forall k :: i0 + 1 <= k < q1 - 1 ==> line[k] != '\n'
    ensures var sig := line[i0..q1];
            && |sig| >= 2 && sig[0] == '[' && sig[|sig| - 1] == ']'
            && forall k :: 0 <= k < |sig| ==> sig[k] != '\n'
  {
    assert line[i0] == line[i0..i0 + 1][0];
    assert line[q1 - 1] == line[q1 - 1..q1][0];
  }

  /** The matched span spells out the lead, the list, the separator and the result. */
  lemma ExecWhole(line: string, p: nat, sig: string, res: string, q: nat, e: nat)
    requires p + |Lead| <= q + 1 && q + 11 <= e <= |line|
    requires OccursAt(line, Lead, p) && sig == line[p + |Lead|..q + 1]
    requires line[q + 1..q + 11] == ", result: " && res == line[q + 11..e]
    ensures OccursAt(line, Lead + sig + ", result: " + res, p)
  {
    var i0 := p + |Lead|;
    assert line[p..i0] == Lead;
    assert line[p..e] == line[p..i0] + line[i0..q + 1] + line[q + 1..q + 11] + line[q + 11..e];
  }

  /** A line the pattern matches passes the cheaper substring test first, so
      that test never hides a match. */
  lemma GuardHolds(line: string)
    requires ExecParts(line).Some?
    ensures Contains(line, Guard)
  {
    ExecMarkCount();
    var p, m := FoundWith(line, ExecPattern());
    MatchLit(line, p, Lead, ListGroup(), m);
    OccursAtPrefix(line, Guard, " ", p);
    ContainsIff(line, Guard);
  }

  // ---------------------------------------------------------------------
  // The slot line.

  /** `bank[_\s:]+(\d{6,})` */
  function SlotPattern(): seq<Piece> {
    [Lit("bank"), Run(SlotSep, 1), Num(6)]
  }

  /** The slot a line announces, if it matches the slot pattern. */
  function SlotIn(line: string): Option<nat> {
    match Find(line, SlotPattern())
    case None => None
    case Some(m) =>
      assert NumCount(SlotPattern()) == 1 by {
        assert SlotPattern()[1..][1..][1..] == [];
      }
      Some(m.nums[0])
  }

  // ---------------------------------------------------------------------
  // The record loop.

  /** The part of a record a line determines on its own. */
  datatype Bundle = Bundle(timestamp: string, signatures: seq<string>, result: ResultTag, rawResult: string)

  /** One `bundles` entry. */
  datatype Record = Record(timestamp: string, slot: Option<nat>, signatures: seq<string>,
                           txnCount: nat, result: ResultTag, rawResult: string)

  /** The bundle a line yields: it must pass the substring test and match the
      pattern, and at least one signature must be extracted. */
  function BundleIn(line: string): (r: Option<Bundle>)
    ensures r.Some? ==> r.value.signatures != []
  {
    if !Contains(line, Guard) then None
    else
      match ExecParts(line)
      case None => None
      case Some((sigText, resText)) =>
        var sigs := ExtractSignatures(sigText);
        if sigs == [] then None
        else
          var ts := ParseLeading(line);
          Some(Bundle(if ts.Some? then ts.value else "unknown", sigs, Classify(resText), Strip(resText)))
  }

  datatype State = State(
    lineCount: nat,
    currentSlot: Option<nat>,
    bundles: seq<Record>,
    bundleCount: nat,
    totalTxns: nat,
    results: map<ResultTag, nat>)

  const Init := State(0, None, [], 0, 0, map[])

  /** A line as the loop sees it: the slot it announces and the bundle it holds. */
  datatype Seen = Seen(slot: Option<nat>, bundle: Option<Bundle>)

  function See(line: string): Seen {
    Seen(SlotIn(line), BundleIn(line))
  }


  function RecordOf(b: Bundle, slot: Option<nat>): Record {
    Record(b.timestamp, slot, b.signatures, |b.signatures|, b.result, b.rawResult)
  }

  /** One iteration: the slot is updated first, so a line's own slot stamps
      its own bundle. */
  function Apply(st: State, o: Seen): (r: State)
    ensures r.lineCount == st.lineCount + 1
  {
    var slot := if o.slot.Some? then o.slot else st.currentSlot;
    var st := st.(lineCount := st.lineCount + 1, currentSlot := slot);
    match o.bundle
    case None => st
    case Some(b) =>
      st.(bundles := st.bundles + [RecordOf(b, slot)],
          bundleCount := st.bundleCount + 1,
          totalTxns := st.totalTxns + |b.signatures|,
          results := Bump(st.results, b.result))
  }

  function Scan(seen: seq<Seen>): State {
    if seen == [] then Init
    else Apply(Scan(seen[..|seen| - 1]), seen[|seen| - 1])
  }

  /** The loop over all lines, in order. */
  function Pass(lines: seq<string>): State {
    Scan(Map(lines, See))
  }

  /** The step equation of the fold, `Pass(init + [line]) == Apply(Pass(init), See(line))`:
      one unfolding, not an induction. */
  lemma PassSnoc(lines: seq<string>)
    requires lines != []
    ensures Pass(lines) == Apply(Pass(lines[..|lines| - 1]), See(lines[|lines| - 1]))
  {
    assert Map(lines, See)[..|lines| - 1] == Map(lines[..|lines| - 1], See);
  }

  // Independent descriptions of what the loop accumulates.

  /** The slot of the last line, up to and including the last one, that
      announces a slot. */
  function LastSlot(lines: seq<string>): Option<nat> {
    LastSome(lines, SlotIn)
  }

  /** The records the lines produce, each stamped with the last slot seen up
      to its own line. */
  function Recorded(lines: seq<string>): seq<Record> {
    if lines == [] then []
    else
      var b := BundleIn(lines[|lines| - 1]);
      Recorded(lines[..|lines| - 1]) + (if b.Some? then [RecordOf(b.value, LastSlot(lines))] else [])
  }

  /** The sum of `txn_count` over records. */
  function TxnTotal(rs: seq<Record>): nat {
    if rs == [] then 0 else TxnTotal(rs[..|rs| - 1]) + rs[|rs| - 1].txnCount
  }

  /** How many records carry tag `t`. */
  function CountTag(rs: seq<Record>, t: ResultTag): nat {
    if rs == [] then 0 else CountTag(rs[..|rs| - 1], t) + (if rs[|rs| - 1].result == t then 1 else 0)
  }

  /** A record as the loop builds it: non-empty, its count is its length, and
      every entry is a base58 signature of 80 to 88 characters. */
  predicate WellFormed(r: Record) {
    && r.signatures != []
    && r.txnCount == |r.signatures|
    && forall k :: 0 <= k < |r.signatures| ==> IsSignature(r.signatures[k])
  }

  ghost predicate Accounts(st: State) {
    && st.bundleCount == |st.bundles|
    && st.totalTxns == TxnTotal(st.bundles)
    && (forall t :: Lookup(st.results, t) == CountTag(st.bundles, t))
    && SumMap(st.results) == st.bundleCount
    && (forall i :: 0 <= i < |st.bundles| ==> WellFormed(st.bundles[i]))
  }

  lemma TotalsAppend(rs: seq<Record>, r: Record)
    ensures TxnTotal(rs + [r]) == TxnTotal(rs) + r.txnCount
    ensures forall t :: CountTag(rs + [r], t) == CountTag(rs, t) + (if r.result == t then 1 else 0)
  {
    assert (rs + [r])[..|rs|] == rs;
  }

  /** A step that appends a record: everything the accounts track moves by it. */
  lemma ApplyAppends(st: State, o: Seen, r: Record)
    requires o.bundle.Some?
    requires r == RecordOf(o.bundle.value, if o.slot.Some? then o.slot else st.currentSlot)
    ensures var st' := Apply(st, o);
            && st'.bundles == st.bundles + [r]
            && st'.bundleCount == st.bundleCount + 1
            && st'.totalTxns == st.totalTxns + r.txnCount
            && st'.results == Bump(st.results, r.result)
  {
  }

  lemma ApplyKeepsCounts(st: State, o: Seen)
    requires Accounts(st)
    ensures var st' := Apply(st, o);
            && st'.bundleCount == |st'.bundles|
            && st'.totalTxns == TxnTotal(st'.bundles)
            && (forall t :: Lookup(st'.results, t) == CountTag(st'.bundles, t))
            && SumMap(st'.results) == st'.bundleCount
  {
    var st' := Apply(st, o);
    if o.bundle.Some? {
      var r := RecordOf(o.bundle.value, if o.slot.Some? then o.slot else st.currentSlot);
      ApplyAppends(st, o, r);
      TotalsAppend(st.bundles, r);
      SumMapBump(st.results, r.result);
      forall t ensures Lookup(st'.results, t) == CountTag(st'.bundles, t) {
        assert Lookup(st'.results, t) == Lookup(st.results, t) + (if r.result == t then 1 else 0);
      }
    } else {
      assert st'.bundles == st.bundles && st'.results == st.results;
      assert st'.bundleCount == st.bundleCount && st'.totalTxns == st.totalTxns;
    }
  }

  lemma ApplyKeepsWellFormed(st: State, o: Seen)
    requires forall i :: 0 <= i < |st.bundles| ==> WellFormed(st.bundles[i])
    requires o.bundle.Some? ==> o.bundle.value.signatures != []
                                && forall k :: 0 <= k < |o.bundle.value.signatures| ==>
                                                 IsSignature(o.bundle.value.signatures[k])
    ensures forall i :: 0 <= i < |Apply(st, o).bundles| ==> WellFormed(Apply(st, o).bundles[i])
  {
    if o.bundle.Some? {
      var r := RecordOf(o.bundle.value, if o.slot.Some? then o.slot else st.currentSlot);
      ApplyAppends(st, o, r);
      var rs := st.bundles + [r];
      assert WellFormed(r);
      assert forall i :: 0 <= i < |st.bundles| ==> rs[i] == st.bundles[i];
    }
  }

  lemma ApplyKeepsAccounts(st: State, o: Seen)
    requires Accounts(st)
    requires o.bundle.Some? ==> o.bundle.value.signatures != []
                                && forall k :: 0 <= k < |o.bundle.value.signatures| ==>
                                                 IsSignature(o.bundle.value.signatures[k])
    ensures Accounts(Apply(st, o))
  {
    ApplyKeepsCounts(st, o);
    ApplyKeepsWellFormed(st, o);
  }

  /** Every bundle a line yields holds signatures only. */
  lemma BundleInSignatures(line: string)
    ensures BundleIn(line).Some? ==>
              forall k :: 0 <= k < |BundleIn(line).value.signatures| ==>
                            IsSignature(BundleIn(line).value.signatures[k])
  {
  }

  lemma {:induction false} ScanAccounts(lines: seq<string>)
    ensures Accounts(Pass(lines))
    ensures Pass(lines).lineCount == |lines|
    ensures Pass(lines).currentSlot == LastSlot(lines)
    ensures Pass(lines).bundles == Recorded(lines)
  {
    if lines == [] {
      assert Pass(lines) == Init;
    } else {
      var init := lines[..|lines| - 1];
      ScanAccounts(init);
      PassSnoc(lines);
      BundleInSignatures(lines[|lines| - 1]);
      ApplyKeepsAccounts(Pass(init), See(lines[|lines| - 1]));
    }
  }

  /** Record accounting after the loop: `bundle_count` is the number of
      records, `total_txns` the sum of their `txn_count`, each tag's count
      the number of records with that tag, and the counts sum to
      `bundle_count`; every record is well formed. */
  lemma RecordAccounting(lines: seq<string>)
    ensures var st := Pass(lines);
            && st.bundleCount == |st.bundles|
            && st.totalTxns == TxnTotal(st.bundles)
            && (forall t :: Lookup(st.results, t) == CountTag(st.bundles, t))
            && SumMap(st.results) == st.bundleCount
            && (forall i :: 0 <= i < |st.bundles| ==> WellFormed(st.bundles[i]))
  {
    ScanAccounts(lines);
  }

  /** The records are exactly the lines' bundles in line order, each stamped
      with the slot of the most recent slot line up to and including its own,
      and `current_slot` after the loop is that of the last slot line. */
  lemma RecordsFollowLines(lines: seq<string>)
    ensures Pass(lines).bundles == Recorded(lines)
    ensures Pass(lines).currentSlot == LastSlot(lines)
  {
    ScanAccounts(lines);
  }

  /** `current_slot` after the loop: `None` until some line announces a
      slot, and afterwards the slot of the latest such line. */
  lemma CurrentSlotIsMostRecent(lines: seq<string>)
    ensures Pass(lines).currentSlot.None? <==> forall i :: 0 <= i < |lines| ==> SlotIn(lines[i]).None?
    ensures Pass(lines).currentSlot.Some? ==>
              exists i :: 0 <= i < |lines| && SlotIn(lines[i]) == Pass(lines).currentSlot
                          && forall j :: i < j < |lines| ==> SlotIn(lines[j]).None?
  {
    ScanAccounts(lines);
    LastSomeIsMostRecent(lines, SlotIn);
  }

  predicate HasBundle(line: string) {
    BundleIn(line).Some?
  }

  /** One record per line that yields a bundle, and no other. */
  lemma {:induction false} RecordedCount(lines: seq<string>)
    ensures |Recorded(lines)| == Count(lines, HasBundle)
  {
    if lines != [] {
      RecordedCount(lines[..|lines| - 1]);
    }
  }

  // ---------------------------------------------------------------------
  // How the run ends.

  datatype Outcome = NoLogLines | NoBundles | Report

  /** Zero lines and zero bundles both exit with an error; anything else is reported. */
  function OutcomeOf(st: State): Outcome {
    if st.lineCount == 0 then NoLogLines
    else if st.bundleCount == 0 then NoBundles
    else Report
  }

  /** No lines is one error; lines of which none yields a bundle is the other. */
  lemma OutcomeCharacterised(lines: seq<string>)
    ensures OutcomeOf(Pass(lines)) == NoLogLines <==> lines == []
    ensures OutcomeOf(Pass(lines)) == NoBundles <==>
              lines != [] && forall i :: 0 <= i < |lines| ==> BundleIn(lines[i]).None?
  {
    ScanAccounts(lines);
    RecordedCount(lines);
    CountPositive(lines, HasBundle);
  }

  // ---------------------------------------------------------------------
  // All signatures, de-duplicated.

  /** `all_sigs`: every record's signatures, record after record. */
  function AllSigs(rs: seq<Record>): seq<string> {
    if rs == [] then [] else AllSigs(rs[..|rs| - 1]) + rs[|rs| - 1].signatures
  }

  /** The concatenation holds `total_txns` signatures. */
  lemma {:induction false} AllSigsCount(rs: seq<Record>)
    requires forall i :: 0 <= i < |rs| ==> WellFormed(rs[i])
    ensures |AllSigs(rs)| == TxnTotal(rs)
  {
    if rs != [] {
      AllSigsCount(rs[..|rs| - 1]);
    }
  }

  /** Where `x` first occurs in `xs`. */
  function FirstIndex<T(==)>(xs: seq<T>, x: T): (i: nat)
    requires x in xs
    ensures i < |xs| && xs[i] == x
    ensures forall k :: 0 <= k < i ==> xs[k] != x
  {
    var init := xs[..|xs| - 1];
    if x in init then FirstIndex(init, x) else |xs| - 1
  }

  /** The de-duplicated list: each element at its first occurrence. */
  function Unique<T(==)>(xs: seq<T>): seq<T> {
    if xs == [] then []
    else
      var init := xs[..|xs| - 1];
      var x := xs[|xs| - 1];
      if x in init then Unique(init) else Unique(init) + [x]
  }

  /** The de-duplicated list has no duplicates, holds exactly the elements of
      the input, and lists them in order of first occurrence. */
  lemma {:induction false} UniqueProperties<T>(xs: seq<T>)
    ensures Distinct(Unique(xs))
    ensures forall x :: x in Unique(xs) <==> x in xs
    ensures forall i, j :: 0 <= i < j < |Unique(xs)| ==>
              FirstIndex(xs, Unique(xs)[i]) < FirstIndex(xs, Unique(xs)[j])
  {
    if xs != [] {
      var init := xs[..|xs| - 1];
      var x := xs[|xs| - 1];
      UniqueProperties(init);
      assert forall y :: y in xs <==> y in init || y == x;
      assert forall y :: y in init ==> FirstIndex(xs, y) == FirstIndex(init, y);
      if x !in init {
        var u := Unique(xs);
        assert u == Unique(init) + [x];
        forall i, j | 0 <= i < j < |u| ensures FirstIndex(xs, u[i]) < FirstIndex(xs, u[j]) {
          assert u[i] == Unique(init)[i];
          if j < |u| - 1 {
            assert u[j] == Unique(init)[j];
          }
        }
      }
    }
  }

  /** The loop that de-duplicates: a `seen` set and an output list. */
  method Dedup<T(==)>(xs: seq<T>) returns (r: seq<T>)
    ensures r == Unique(xs)
    ensures Distinct(r) && forall x :: x in r <==> x in xs
  {
    var seen: set<T> := {};
    r := [];
    var i := 0;
    while i < |xs|
      invariant 0 <= i <= |xs|
      invariant r == Unique(xs[..i])
      invariant forall x :: x in seen <==> x in xs[..i]
    {
      var x := xs[i];
      assert xs[..i + 1][..i] == xs[..i];
      if x !in seen {
        seen := seen + {x};
        r := r + [x];
      }
      i := i + 1;
    }
    assert xs[..|xs|] == xs;
    UniqueProperties(xs);
  }

  // ---------------------------------------------------------------------
  // `make_explorer_link`

  /** Python truthiness of an optional string: `None` and `""` are false. */
  predicate Truthy(o: Option<string>) {
    o.Some? && o.value != ""
  }

  /** The query appended for a cluster other than mainnet. */
  function ClusterQuery(cluster: Option<string>): string {
    if Truthy(cluster) && cluster.value != "mainnet" then "?cluster=" + cluster.value else ""
  }

  function ExplorerLink(sig: string, url: Option<string>, cluster: Option<string>): (r: string)
    ensures !Truthy(url) ==> r == sig
    ensures Truthy(url) ==> |r| >= |url.value| + 1 + |sig|
  {
    if Truthy(url) then url.value + "/" + sig + ClusterQuery(cluster) else sig
  }

  /** Position of the first `c` in `s`, or `|s|`. */
  function IndexOfChar(s: string, c: char): (i: nat)
    ensures i <= |s| && (i < |s| ==> s[i] == c)
    ensures forall k :: 0 <= k < i ==> s[k] != c
  {
    if s == [] then 0 else if s[0] == c then 0 else 1 + IndexOfChar(s[1..], c)
  }

  /** Read a link back: without a base URL the link is the signature;
      otherwise the link must start with the base and `/`, and what follows
      splits at the first `?` into the signature and the query. */
  function ParseLink(link: string, url: Option<string>): Option<(string, string)> {
    if !Truthy(url) then Some((link, ""))
    else
      var lead := url.value + "/";
      if |link| < |lead| || link[..|lead|] != lead then None
      else
        var rest := link[|lead|..];
        var q := IndexOfChar(rest, '?');
        Some((rest[..q], rest[q..]))
  }

  /** The link gives back the signature and the cluster query; the query is
      there only when the cluster is set and is not `mainnet`. */
  lemma LinkRoundTrip(sig: string, url: Option<string>, cluster: Option<string>)
    requires IsSignature(sig)
    ensures ParseLink(ExplorerLink(sig, url, cluster), url)
            == Some((sig, if Truthy(url) then ClusterQuery(cluster) else ""))
    ensures ClusterQuery(cluster) != "" <==> Truthy(cluster) && cluster.value != "mainnet"
  {
    if Truthy(url) {
      var lead := url.value + "/";
      var link := ExplorerLink(sig, url, cluster);
      var cq := ClusterQuery(cluster);
      assert link == lead + (sig + cq);
      assert link[..|lead|] == lead && link[|lead|..] == sig + cq;
      QueryAfterSignature(sig, cq);
    }
  }

  /** A signature holds no `?`, so the first `?` after it starts the query. */
  lemma QueryAfterSignature(sig: string, cq: string)
    requires IsSignature(sig) && (cq == [] || cq[0] == '?')
    ensures IndexOfChar(sig + cq, '?') == |sig|
  {
    var s := sig + cq;
    assert forall k :: 0 <= k < |sig| ==> s[k] == sig[k] && IsBase58(sig[k]);
    assert cq != [] ==> s[|sig|] == '?';
  }
}

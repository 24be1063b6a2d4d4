/** The restricted regular expressions the scripts search log lines with, as
    data, and the leftmost-first matcher `re.search` applies to them.

    A pattern is a sequence of pieces. Greedy runs (`Run`, `Num`) always take
    the longest run available: every run in the scripts' patterns is followed
    by the end of the pattern or by a literal whose first character lies
    outside the run's class, so Python's backtracking into a run can never
    produce a different match. `Lazy` (`.*?`) tries the shortest extension
    first and backtracks by growing one character at a time, never across a
    newline, exactly as Python does. */
module Pattern {
  import opened Wrappers
  import opened Text

  datatype Piece =
    | Lit(text: string)          // the literal text
    | Run(cls: CharClass, min: nat)  // `cls{min,}`, greedy, not captured
    | Num(min: nat)              // `(\d{min,})`, greedy, captured as its decimal value
    | Lazy                       // `.*?`
    | Mark                       // a group boundary: captures the current position

  /** A successful match: where it ends, the captured numbers in pattern
      order, and the captured positions in pattern order. */
  datatype Match = Match(end: nat, nums: seq<nat>, marks: seq<nat>)

  function NumCount(ps: seq<Piece>): nat {
    if ps == [] then 0 else (if ps[0].Num? then 1 else 0) + NumCount(ps[1..])
  }

  function MarkCount(ps: seq<Piece>): nat {
    if ps == [] then 0 else (if ps[0].Mark? then 1 else 0) + MarkCount(ps[1..])
  }

  /** `ms` is an ascending list of positions inside `[lo, hi]`. */
  predicate MarksWithin(ms: seq<nat>, lo: nat, hi: nat) {
    && (forall k :: 0 <= k < |ms| ==> lo <= ms[k] <= hi)
    && (forall k, l :: 0 <= k < l < |ms| ==> ms[k] <= ms[l])
  }

  /** What every match of `ps` starting at `i` looks like. */
  predicate WellShaped(s: string, i: nat, ps: seq<Piece>, m: Match) {
    && i <= m.end <= |s|
    && |m.nums| == NumCount(ps)
    && |m.marks| == MarkCount(ps)
    && MarksWithin(m.marks, i, m.end)
  }

  /** The decimal value of the digit run `s[i..e]`. */
  function DigitsAt(s: string, i: nat, e: nat): nat
    requires i <= e <= |s| && AllIn(s, i, e, Digit)
  {
    assert AllDigits(s[i..e]) by {
      forall k | 0 <= k < e - i ensures IsDigit(s[i..e][k]) {
        assert s[i..e][k] == s[i + k];
      }
    }
    DigitsValue(s[i..e])
  }

  /** The match of `ps` anchored at `i` that `re` finds first, if any. */
  function MatchAt(s: string, i: nat, ps: seq<Piece>): (r: Option<Match>)
    requires i <= |s|
    decreases |ps|, 1, 0
    ensures r.Some? ==> WellShaped(s, i, ps, r.value)
  {
    if ps == [] then Some(Match(i, [], []))
    else
      var rest := ps[1..];
      match ps[0]
      case Lit(t) =>
        if OccursAt(s, t, i) then MatchAt(s, i + |t|, rest) else None
      case Run(cls, min) =>
        var e := RunEnd(s, i, cls);
        if e - i < min then None else MatchAt(s, e, rest)
      case Num(min) =>
        var e := RunEnd(s, i, Digit);
        if e == i || e - i < min then None
        else (
          match MatchAt(s, e, rest)
          case None => None
          case Some(m) => Some(m.(nums := [DigitsAt(s, i, e)] + m.nums)))
      case Lazy =>
        LazyFrom(s, i, rest)
      case Mark =>
        match MatchAt(s, i, rest)
        case None => None
        case Some(m) => Some(m.(marks := [i] + m.marks))
  }

  /** `.*?` followed by `rest`, the lazy part having consumed `s[..q]` so far. */
  function LazyFrom(s: string, q: nat, rest: seq<Piece>): (r: Option<Match>)
    requires q <= |s|
    decreases |rest|, 2, |s| - q
    ensures r.Some? ==> WellShaped(s, q, rest, r.value)
  {
    var here := MatchAt(s, q, rest);
    if here.Some? then here
    else if q < |s| && s[q] != '\n' then LazyFrom(s, q + 1, rest)
    else None
  }

  /** `re.search` from position `i`: the leftmost start at which `ps` matches. */
  function SearchFrom(s: string, i: nat, ps: seq<Piece>): (r: Option<(nat, Match)>)
    requires i <= |s|
    decreases |s| - i
    ensures r.Some? ==> i <= r.value.0 <= |s| && MatchAt(s, r.value.0, ps) == Some(r.value.1)
    ensures r.Some? ==> forall j: nat :: i <= j < r.value.0 <= |s| ==> MatchAt(s, j, ps).None?
    ensures r.None? ==> forall j: nat :: i <= j <= |s| ==> MatchAt(s, j, ps).None?
  {
    var m := MatchAt(s, i, ps);
    if m.Some? then Some((i, m.value))
    else if i < |s| then SearchFrom(s, i + 1, ps)
    else None
  }

  /** The match object of `re.search(ps, s)`, if any. */
  function Find(s: string, ps: seq<Piece>): (r: Option<Match>)
    ensures r.Some? ==> exists p: nat :: && p <= |s| && MatchAt(s, p, ps) == r
                                          && forall j: nat :: j < p ==> MatchAt(s, j, ps).None?
    ensures r.None? <==> forall p: nat :: p <= |s| ==> MatchAt(s, p, ps).None?
  {
    var found := SearchFrom(s, 0, ps);
    if found.None? then None
    else
      assert MatchAt(s, found.value.0, ps) == Some(found.value.1);
      Some(found.value.1)
  }

  /** `bool(re.search(ps, s))`. */
  predicate Matches(s: string, ps: seq<Piece>) {
    Find(s, ps).Some?
  }

  /** `re.search` over an alternation `a|b|...`, used only for its truth value:
      the alternation matches somewhere exactly when one alternative does. */
  predicate MatchesAny(s: string, alts: seq<seq<Piece>>) {
    exists k :: 0 <= k < |alts| && Matches(s, alts[k])
  }

  // ---------------------------------------------------------------------
  // Following a match one piece at a time.

  /** A match that starts with a literal: the literal is there, and the rest
      matches right after it. */
  lemma MatchLit(s: string, i: nat, t: string, rest: seq<Piece>, m: Match)
    requires i <= |s| && MatchAt(s, i, [Lit(t)] + rest) == Some(m)
    ensures OccursAt(s, t, i) && MatchAt(s, i + |t|, rest) == Some(m)
  {
    assert ([Lit(t)] + rest)[1..] == rest;
  }

  /** A match that starts with a group boundary records `i` first. */
  lemma MatchMark(s: string, i: nat, rest: seq<Piece>, m: Match)
    requires i <= |s| && MatchAt(s, i, [Mark] + rest) == Some(m)
    ensures |m.marks| >= 1 && m.marks[0] == i
    ensures MatchAt(s, i, rest) == Some(m.(marks := m.marks[1..]))
  {
    assert ([Mark] + rest)[1..] == rest;
  }

  /** A match that starts with a greedy run takes the whole run. */
  lemma MatchRun(s: string, i: nat, cls: CharClass, min: nat, rest: seq<Piece>, m: Match)
    requires i <= |s| && MatchAt(s, i, [Run(cls, min)] + rest) == Some(m)
    ensures RunEnd(s, i, cls) - i >= min && MatchAt(s, RunEnd(s, i, cls), rest) == Some(m)
  {
    assert ([Run(cls, min)] + rest)[1..] == rest;
  }

  /** A match that starts with `.*?` continues at the first position `q` from
      which the rest matches, with no newline skipped on the way. */
  lemma MatchLazy(s: string, i: nat, rest: seq<Piece>, m: Match) returns (q: nat)
    requires i <= |s| && MatchAt(s, i, [Lazy] + rest) == Some(m)
    ensures i <= q <= |s| && MatchAt(s, q, rest) == Some(m)
    ensures forall k :: i <= k < q ==> MatchAt(s, k, rest).None? && s[k] != '\n'
  {
    assert ([Lazy] + rest)[1..] == rest;
    q := LazyStop(s, i, rest, m);
  }

  lemma {:induction false} LazyStop(s: string, i: nat, rest: seq<Piece>, m: Match) returns (q: nat)
    requires i <= |s| && LazyFrom(s, i, rest) == Some(m)
    decreases |s| - i
    ensures i <= q <= |s| && MatchAt(s, q, rest) == Some(m)
    ensures forall k :: i <= k < q ==> MatchAt(s, k, rest).None? && s[k] != '\n'
  {
    if MatchAt(s, i, rest).Some? {
      q := i;
    } else {
      q := LazyStop(s, i + 1, rest, m);
    }
  }
}

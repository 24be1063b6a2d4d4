/** The record pass of `bundle-txn-signatures.py`: bundle-execution debug
    lines are split into their signature list and result text, the base58
    signatures are pulled out of the list, the result is classified, and a
    record is kept for every bundle with at least one signature, stamped with
    the slot of the most recent `bank` line. Then the order-preserving
    de-duplication of all signatures and the explorer links. */
module BundleSignatures {
  import opened Wrappers
  import opened Text
  import opened Pattern
  import opened Timestamp
  import opened Seqs
  import opened Sums

  // ---------------------------------------------------------------------
  // `extract_signatures`

  /** Bounds of `[1-9A-HJ-NP-Za-km-z]{43,88}`. */
  const MinToken: nat := 43
  const MaxToken: nat := 88

  /** Every character of `t` is in the base58 alphabet. */
  predicate AllBase58(t: string) {
    forall k :: 0 <= k < |t| ==> IsBase58(t[k])
  }

  /** A token `findall` can return: base58 only, 43 to 88 characters long. */
  predicate IsToken(t: string) {
    MinToken <= |t| <= MaxToken && AllBase58(t)
  }

  /** Length of the base58 run at the start of `s`. */
  function LeadingRun(s: string): (n: nat)
    ensures n <= |s| && AllBase58(s[..n])
    ensures n == |s| || !IsBase58(s[n])
  {
    var e := RunEnd(s, 0, Base58);
    assert forall k :: 0 <= k < e ==> s[..e][k] == s[k];
    e
  }

  /** `findall` of the base58 token pattern: scanning left to right, a run of
      at least 43 base58 characters yields its first 88 (or all, if fewer)
      and the scan resumes right after them; anywhere else it moves on by one
      character. */
  function Tokens(s: string): (r: seq<string>)
    decreases |s|
    ensures forall k :: 0 <= k < |r| ==> IsToken(r[k])
  {
    if s == [] then []
    else
      var n := LeadingRun(s);
      if n >= MinToken then
        var len := if n <= MaxToken then n else MaxToken;
        assert AllBase58(s[..len]) by {
          assert forall k :: 0 <= k < len ==> s[..len][k] == s[..n][k];
        }
        [s[..len]] + Tokens(s[len..])
      else Tokens(s[1..])
  }

  /** The tokens occur in `s` one after another without overlapping, each a
      greedy piece: it ends at the end of its run or after 88 characters. */
  ghost predicate InOrder(ts: seq<string>, s: string)
    decreases |ts|
  {
    ts == [] ||
    exists i: nat ::
      && OccursAt(s, ts[0], i)
      && (i + |ts[0]| == |s| || |ts[0]| == MaxToken || !IsBase58(s[i + |ts[0]|]))
      && InOrder(ts[1..], s[i + |ts[0]|..])
  }

  /** Dropping the first character of the text keeps the tokens found after it
      in order within the longer text. */
  lemma {:induction false} InOrderShift(ts: seq<string>, s: string)
    requires s != [] && InOrder(ts, s[1..])
    ensures InOrder(ts, s)
  {
    if ts != [] {
      var t := ts[0];
      var i: nat :| && OccursAt(s[1..], t, i)
                    && (i + |t| == |s[1..]| || |t| == MaxToken || !IsBase58(s[1..][i + |t|]))
                    && InOrder(ts[1..], s[1..][i + |t|..]);
      assert s[1..][i..i + |t|] == s[i + 1..i + 1 + |t|];
      assert s[1..][i + |t|..] == s[i + 1 + |t|..];
      assert OccursAt(s, t, i + 1);
    }
  }

  /** The tokens are pieces of the text, in left-to-right order, disjoint,
      each taken greedily. */
  lemma {:induction false} TokensInOrder(s: string)
    ensures InOrder(Tokens(s), s)
    decreases |s|
  {
    if s != [] {
      var n := LeadingRun(s);
      if n >= MinToken {
        var len := if n <= MaxToken then n else MaxToken;
        TokensInOrder(s[len..]);
        var ts := Tokens(s);
        assert ts[0] == s[..len] && ts[1..] == Tokens(s[len..]);
        assert OccursAt(s, ts[0], 0);
      } else {
        TokensInOrder(s[1..]);
        InOrderShift(Tokens(s), s);
      }
    }
  }

  /** `80 <= len(s) <= 90`, the length window for signatures. */
  predicate SignatureLength(t: string) {
    80 <= |t| <= 90
  }

  /** A string `extract_signatures` keeps: base58, 80 to 88 characters. */
  predicate IsSignature(t: string) {
    80 <= |t| <= MaxToken && AllBase58(t)
  }

  /** `extract_signatures`: the tokens whose length is in the window. */
  function ExtractSignatures(sigText: string): (r: seq<string>)
    ensures forall k :: 0 <= k < |r| ==> IsSignature(r[k])
  {
    var r := Filter(Tokens(sigText), SignatureLength);
    assert forall k :: 0 <= k < |r| ==> r[k] in Tokens(sigText);
    r
  }

  // Round trip: the debug list `[s1, s2, ...]` of valid signatures gives them back.

  /** A run of base58 characters ends where `x` ends when `y` does not
      continue it. */
  lemma LeadingRunPrefix(x: string, y: string)
    requires y == [] || !IsBase58(y[0])
    ensures LeadingRun(x + y) == LeadingRun(x)
  {
    var n := LeadingRun(x);
    assert forall k :: 0 <= k < n ==> (x + y)[k] == x[k] && x[..n][k] == x[k];
    assert AllBase58((x + y)[..n]);
    assert n == |x + y| || !IsBase58((x + y)[n]);
  }

  /** The length of the token the scan takes at the start of `s`, if any. */
  function ChunkLen(s: string): nat {
    var n := LeadingRun(s);
    if n < MinToken then 0 else if n <= MaxToken then n else MaxToken
  }

  /** One step of the scan: a token, or one character skipped. */
  lemma TokensUnfold(s: string)
    requires s != []
    ensures ChunkLen(s) > 0 ==> Tokens(s) == [s[..ChunkLen(s)]] + Tokens(s[ChunkLen(s)..])
    ensures ChunkLen(s) == 0 ==> Tokens(s) == Tokens(s[1..])
  {
  }

  /** Text that ends before a non-base58 character can be scanned on its own. */
  lemma {:induction false} TokensSplit(x: string, y: string)
    requires y == [] || !IsBase58(y[0])
    ensures Tokens(x + y) == Tokens(x) + Tokens(y)
    decreases |x|
  {
    if x == [] {
      assert x + y == y;
    } else {
      LeadingRunPrefix(x, y);
      var len := ChunkLen(x);
      if len > 0 {
        assert (x + y)[len..] == x[len..] + y;
        TokensSplit(x[len..], y);
        SplitChunk(x, y, len);
      } else {
        assert (x + y)[1..] == x[1..] + y;
        TokensSplit(x[1..], y);
        SplitSkip(x, y);
      }
    }
  }

  /** The scan of `x + y` takes the same token at its start as that of `x`. */
  lemma SplitChunk(x: string, y: string, len: nat)
    requires x != [] && len == ChunkLen(x) > 0 && LeadingRun(x + y) == LeadingRun(x)
    requires Tokens((x + y)[len..]) == Tokens(x[len..]) + Tokens(y)
    ensures Tokens(x + y) == Tokens(x) + Tokens(y)
  {
    TokensUnfold(x);
    TokensUnfold(x + y);
    assert (x + y)[..len] == x[..len];
  }

  /** The scan of `x + y` skips the same first character as that of `x`. */
  lemma SplitSkip(x: string, y: string)
    requires x != [] && ChunkLen(x) == 0 && LeadingRun(x + y) == LeadingRun(x)
    requires Tokens((x + y)[1..]) == Tokens(x[1..]) + Tokens(y)
    ensures Tokens(x + y) == Tokens(x) + Tokens(y)
  {
    TokensUnfold(x);
    TokensUnfold(x + y);
  }

  /** A leading character outside the alphabet is skipped. */
  lemma TokensSkip(c: char, s: string)
    requires !IsBase58(c)
    ensures Tokens([c] + s) == Tokens(s)
  {
    assert LeadingRun([c] + s) == 0;
    assert ([c] + s)[1..] == s;
  }

  /** A valid signature on its own is one token. */
  lemma TokensOfSignature(t: string)
    requires IsSignature(t)
    ensures Tokens(t) == [t]
  {
    assert t[..|t|] == t && t[|t|..] == [];
  }

  /** A separator and a valid signature scan to that signature. */
  lemma TokensAfterSeparator(t: string)
    requires IsSignature(t)
    ensures Tokens(", " + t) == [t]
  {
    assert ", " + t == [','] + ([' '] + t);
    TokensSkip(',', [' '] + t);
    TokensSkip(' ', t);
    TokensOfSignature(t);
  }

  /** Appending a separator and a valid signature appends that signature. */
  lemma TokensJoinStep(a: string, t: string)
    requires IsSignature(t)
    ensures Tokens(a + (", " + t)) == Tokens(a) + [t]
  {
    TokensSplit(a, ", " + t);
    TokensAfterSeparator(t);
  }

  /** `", ".join(sigs)` of valid signatures scans to `sigs`. */
  lemma {:induction false} TokensOfJoin(sigs: seq<string>)
    requires forall k :: 0 <= k < |sigs| ==> IsSignature(sigs[k])
    ensures Tokens(Join(sigs, ", ")) == sigs
  {
    if |sigs| == 1 {
      TokensOfSignature(sigs[0]);
    } else if |sigs| > 1 {
      var init := sigs[..|sigs| - 1];
      var last := sigs[|sigs| - 1];
      TokensOfJoin(init);
      assert Join(sigs, ", ") == Join(init, ", ") + (", " + last);
      TokensJoinStep(Join(init, ", "), last);
      assert init + [last] == sigs;
    }
  }

  /** The brackets around a list are not part of any token. */
  lemma TokensInBrackets(j: string)
    ensures Tokens("[" + j + "]") == Tokens(j)
  {
    TokensSplit("[" + j, "]");
    assert "[" + j == ['['] + j;
    TokensSkip('[', j);
    TokensSkip(']', []);
  }

  /** Every element of `xs` satisfies `p`: filtering keeps them all. */
  lemma {:induction false} FilterAll<T(!new)>(xs: seq<T>, p: T -> bool)
    requires forall k :: 0 <= k < |xs| ==> p(xs[k])
    ensures Filter(xs, p) == xs
  {
    if xs != [] {
      FilterAll(xs[..|xs| - 1], p);
      assert xs[..|xs| - 1] + [xs[|xs| - 1]] == xs;
    }
  }

  /** The debug rendering `[sig1, sig2, ...]` of a bundle's signatures. */
  function DebugList(sigs: seq<string>): string {
    "[" + Join(sigs, ", ") + "]"
  }

  /** Extracting from the debug list of valid signatures gives the list back,
      in order, duplicates kept. */
  lemma ExtractRoundTrip(sigs: seq<string>)
    requires forall k :: 0 <= k < |sigs| ==> IsSignature(sigs[k])
    ensures ExtractSignatures(DebugList(sigs)) == sigs
  {
    TokensInBrackets(Join(sigs, ", "));
    TokensOfJoin(sigs);
    FilterAll(sigs, SignatureLength);
  }
}

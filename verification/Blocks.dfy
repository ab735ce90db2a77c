/**
 * Lists cut into sections by heading elements: finding one section, and inserting a block between two.
 * The changelog is such a list of lines.
 */
module Blocks {
  import opened Prelude

  /** The first element from `from` on that satisfies `p`, or the length of the list. */
  function Find<T>(s: seq<T>, p: T -> bool, from: nat): (i: nat)
    requires from <= |s|
    ensures from <= i <= |s|
    ensures forall j | from <= j < i :: !p(s[j])
    ensures i < |s| ==> p(s[i])
    decreases |s| - from
  {
    if from == |s| || p(s[from]) then from else Find(s, p, from + 1)
  }

  /** The elements between the first `head` and the next `stop`. */
  function Under<T>(s: seq<T>, head: T -> bool, stop: T -> bool): Option<seq<T>> {
    var i := Find(s, head, 0);
    if i == |s| then None else Some(s[i + 1..Find(s, stop, i + 1)])
  }

  lemma UnderIs<T>(s: seq<T>, head: T -> bool, stop: T -> bool, i: nat, e: nat)
    requires i < |s| && Find(s, head, 0) == i && e == Find(s, stop, i + 1)
    ensures Under(s, head, stop) == Some(s[i + 1..e])
  {}

  lemma {:induction false} FindIs<T>(s: seq<T>, p: T -> bool, from: nat, i: nat)
    requires from <= i <= |s| && (forall j | from <= j < i :: !p(s[j])) && (i < |s| ==> p(s[i]))
    ensures Find(s, p, from) == i
  {}

  /** `after` is `s` with `block` put in at `p`. */
  ghost predicate InsertedAt<T>(s: seq<T>, p: nat, block: seq<T>, after: seq<T>) {
    && p <= |s|
    && |after| == |s| + |block|
    && (forall j | 0 <= j < p :: after[j] == s[j])
    && (forall j | p <= j < p + |block| :: after[j] == block[j - p])
    && (forall j | p + |block| <= j < |after| :: after[j] == s[j - |block|])
  }

  lemma Inserting<T>(s: seq<T>, p: nat, block: seq<T>)
    requires p <= |s|
    ensures InsertedAt(s, p, block, s[..p] + block + s[p..])
  {}

  /** A section that ends by element `q` depends on nothing after it. */
  lemma {:induction false} UnderBefore<T>(s: seq<T>, after: seq<T>, head: T -> bool, stop: T -> bool, q: nat)
    requires q < |s| && q < |after| && stop(s[q]) && Find(s, head, 0) < q
    requires forall j | 0 <= j <= q :: after[j] == s[j]
    ensures Under(after, head, stop) == Under(s, head, stop)
  {
    var i := Find(s, head, 0);
    FindIs(after, head, 0, i);
    var e := Find(s, stop, i + 1);
    FindIs(after, stop, i + 1, e);
    assert after[i + 1..e] == s[i + 1..e];
  }

  lemma FindShifts<T>(s: seq<T>, after: seq<T>, p: T -> bool, n: nat, from: nat)
    requires from <= |s| && |after| == |s| + n && forall j | from + n <= j < |after| :: after[j] == s[j - n]
    ensures Find(after, p, from + n) == Find(s, p, from) + n
    decreases |s| - from
  {
    if from < |s| {
      assert after[from + n] == s[from];
      if !p(s[from]) {
        FindShifts(s, after, p, n, from + 1);
      }
    }
  }

  /** A section depends on nothing before its heading. */
  lemma {:induction false} UnderAfter<T>(s: seq<T>, after: seq<T>, head: T -> bool, stop: T -> bool, n: nat)
    requires |after| == |s| + n && Find(after, head, 0) == Find(s, head, 0) + n
    requires forall j | Find(s, head, 0) + n <= j < |after| :: after[j] == s[j - n]
    ensures Under(after, head, stop) == Under(s, head, stop)
  {
    var i := Find(s, head, 0);
    if i < |s| {
      FindShifts(s, after, stop, n, i + 1);
      SliceShifts(s, after, n, i + 1, Find(s, stop, i + 1));
    }
  }

  lemma SliceShifts<T>(s: seq<T>, after: seq<T>, n: nat, lo: nat, hi: nat)
    requires lo <= hi <= |s| && |after| == |s| + n && forall j | lo + n <= j < |after| :: after[j] == s[j - n]
    ensures after[lo + n..hi + n] == s[lo..hi]
  {}

  /**
   * A block inserted at the end of the section of `q`, and with no element that `head` looks for, leaves
   * every section alone but that of `q`.
   */
  lemma InsertKeeps<T>(s: seq<T>, q: nat, p: nat, block: seq<T>, after: seq<T>, head: T -> bool, stop: T -> bool)
    requires InsertedAt(s, p, block, after)
    requires q < p && stop(s[q]) && !head(s[q]) && forall j | q < j < p :: !stop(s[j])
    requires forall j | 0 <= j < |s| :: head(s[j]) ==> stop(s[j])
    requires forall j | 0 <= j < |block| :: !head(block[j])
    ensures Under(after, head, stop) == Under(s, head, stop)
  {
    var i, n := Find(s, head, 0), |block|;
    if i < q {
      UnderBefore(s, after, head, stop, q);
    } else {
      assert i >= p;
      FindIs(after, head, 0, i + n);
      UnderAfter(s, after, head, stop, n);
    }
  }

  /** A new heading at `d` in the block: its section is the rest of the block, and on to the next stop. */
  lemma {:induction false} InsertedSection<T>(s: seq<T>, p: nat, block: seq<T>, after: seq<T>, d: nat, head: T -> bool,
                                              stop: T -> bool)
    requires InsertedAt(s, p, block, after) && d < |block| && head(block[d])
    requires forall j | 0 <= j < p :: !head(s[j])
    requires forall j | 0 <= j < d :: !head(block[j])
    requires forall j | d < j < |block| :: !stop(block[j])
    ensures Under(after, head, stop) == Some(block[d + 1..] + s[p..Find(s, stop, p)])
  {
    var e := Find(s, stop, p);
    FindIs(after, head, 0, p + d);
    FindIs(after, stop, p + d + 1, e + |block|);
    SliceOfTwo(s, p, block, after, d + 1, e);
  }

  lemma SliceOfTwo<T>(s: seq<T>, p: nat, block: seq<T>, after: seq<T>, d: nat, e: nat)
    requires InsertedAt(s, p, block, after) && d <= |block| && p <= e <= |s|
    ensures after[p + d..e + |block|] == block[d..] + s[p..e]
  {}

  /** The same, when the block itself has a stop after its heading. */
  lemma InsertedSectionStops<T>(s: seq<T>, p: nat, block: seq<T>, after: seq<T>, d: nat, f: nat, head: T -> bool,
                                stop: T -> bool)
    requires InsertedAt(s, p, block, after) && d < f < |block| && head(block[d]) && stop(block[f])
    requires forall j | 0 <= j < p :: !head(s[j])
    requires forall j | 0 <= j < d :: !head(block[j])
    requires forall j | d < j < f :: !stop(block[j])
    ensures Under(after, head, stop) == Some(block[d + 1..f])
  {
    FindIs(after, head, 0, p + d);
    FindIs(after, stop, p + d + 1, p + f);
    assert after[p + d + 1..p + f] == block[d + 1..f];
  }

  /** The section the block was inserted into: what it had up to there, and the block to its first stop. */
  lemma {:induction false} SectionBefore<T>(s: seq<T>, u: nat, p: nat, block: seq<T>, after: seq<T>, d: nat,
                                            head: T -> bool, stop: T -> bool)
    requires InsertedAt(s, p, block, after)
    requires u < p && d < |block| && stop(block[d]) && Find(s, head, 0) == u
    requires forall j | u < j < p :: !stop(s[j])
    requires forall j | 0 <= j < d :: !stop(block[j])
    ensures Under(after, head, stop) == Some(s[u + 1..p] + block[..d])
  {
    FindIs(after, head, 0, u);
    FindIs(after, stop, u + 1, p + d);
    SliceBefore(s, u + 1, p, block, after, d);
  }

  lemma SliceBefore<T>(s: seq<T>, i: nat, p: nat, block: seq<T>, after: seq<T>, d: nat)
    requires InsertedAt(s, p, block, after) && i <= p && d <= |block|
    ensures after[i..p + d] == s[i..p] + block[..d]
  {}

  /** A block inserted where a stop or the end follows: the sections it heads first are its own. */
  lemma {:induction false} InsertedUnder<T>(s: seq<T>, p: nat, block: seq<T>, after: seq<T>, head: T -> bool,
                                            stop: T -> bool)
    requires InsertedAt(s, p, block, after) && Find(s, stop, p) == p
    requires (forall j | 0 <= j < p :: !head(s[j])) && Find(block, head, 0) < |block|
    ensures Under(after, head, stop) == Under(block, head, stop)
  {
    var i := Find(block, head, 0);
    var e := Find(block, stop, i + 1);
    if e < |block| {
      InsertedSectionStops(s, p, block, after, i, e, head, stop);
    } else {
      InsertedSection(s, p, block, after, i, head, stop);
      assert block[i + 1..] + s[p..p] == block[i + 1..e];
    }
  }

  lemma {:induction false} UnderHead<T>(d: T, rest: seq<T>, head: T -> bool, stop: T -> bool)
    requires head(d)
    ensures Under([d] + rest, head, stop) == Some(rest[..Find(rest, stop, 0)])
  {
    FindShifts(rest, [d] + rest, stop, 1, 0);
    SliceShifts(rest, [d] + rest, 1, 0, Find(rest, stop, 0));
  }

  lemma UnderPrefix<T>(pre: seq<T>, s: seq<T>, head: T -> bool, stop: T -> bool)
    requires forall x | x in pre :: !head(x)
    ensures Under(pre + s, head, stop) == Under(s, head, stop)
  {
    var all, i := pre + s, Find(s, head, 0);
    assert forall j | 0 <= j < |pre| :: all[j] == pre[j];
    FindIs(all, head, 0, |pre| + i);
    UnderAfter(s, all, head, stop, |pre|);
  }

  lemma {:induction false} UnderSuffix<T>(s: seq<T>, tail: seq<T>, head: T -> bool, stop: T -> bool)
    requires (forall x | x in tail :: !stop(x)) && Find(s, head, 0) < |s|
    ensures var i := Find(s, head, 0);
            var e := Find(s, stop, i + 1);
            Under(s + tail, head, stop) == Some(s[i + 1..e] + (if e == |s| then tail else []))
  {
    var all, i := s + tail, Find(s, head, 0);
    var e := Find(s, stop, i + 1);
    FindIs(all, head, 0, i);
    FindIs(all, stop, i + 1, if e == |s| then |all| else e);
    assert all[i + 1..if e == |s| then |all| else e] == s[i + 1..e] + (if e == |s| then tail else []);
  }

  lemma Announces<T>(pre: seq<T>, d: T, rest: seq<T>)
    ensures var block := pre + [d] + rest;
            && |block| == |pre| + 1 + |rest| && block[|pre|] == d
            && block[..|pre|] == pre && block[|pre| + 1..] == rest
            && (forall j | 0 <= j < |pre| :: block[j] == pre[j])
            && (forall j | |pre| < j < |block| :: block[j] == rest[j - |pre| - 1])
  {}

  lemma {:induction false} BeforeAnnounced<T>(s: seq<T>, u: nat, p: nat, pre: seq<T>, d: T, rest: seq<T>, after: seq<T>,
                                              head: T -> bool, stop: T -> bool)
    requires InsertedAt(s, p, pre + [d] + rest, after) && stop(d)
    requires u < p && Find(s, head, 0) == u && forall j | u < j < p :: !stop(s[j])
    requires forall x | x in pre :: !stop(x)
    ensures Under(after, head, stop) == Some(s[u + 1..p] + pre)
  {
    Announces(pre, d, rest);
    SectionBefore(s, u, p, pre + [d] + rest, after, |pre|, head, stop);
  }

  /** ... and a section of anything the block does not announce stays as it was. */
  lemma AnnouncedElsewhere<T>(s: seq<T>, q: nat, p: nat, pre: seq<T>, d: T, rest: seq<T>, after: seq<T>,
                              head: T -> bool, stop: T -> bool)
    requires InsertedAt(s, p, pre + [d] + rest, after) && !head(d)
    requires q < p && stop(s[q]) && !head(s[q]) && forall j | q < j < p :: !stop(s[j])
    requires forall j | 0 <= j < |s| :: head(s[j]) ==> stop(s[j])
    requires (forall x | x in pre :: !head(x)) && (forall x | x in rest :: !head(x))
    ensures Under(after, head, stop) == Under(s, head, stop)
  {
    Announces(pre, d, rest);
    InsertKeeps(s, q, p, pre + [d] + rest, after, head, stop);
  }
}

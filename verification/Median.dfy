/**
 * The middle of a list of times: the list is sorted and read at half its length. The sort is the library's; here
 * it is by insertion.
 * Source: scripts/bench/report.ts, lines 69 and 82.
 */
module Median {
  function Insert(x: int, s: seq<int>): seq<int> {
    if s == [] || x <= s[0] then [x] + s else [s[0]] + Insert(x, s[1..])
  }

  function Sort(s: seq<int>): seq<int> {
    if s == [] then [] else Insert(s[0], Sort(s[1..]))
  }

  /** The middle entry, the upper one of two, and 0 when there is none. */
  function Middle(s: seq<int>): int {
    if |Sort(s)| == 0 then 0 else Sort(s)[|Sort(s)| / 2]
  }

  /** How many entries are less than `m`. */
  function Below(s: seq<int>, m: int): nat {
    if s == [] then 0 else (if s[0] < m then 1 else 0) + Below(s[1..], m)
  }

  predicate Ordered(s: seq<int>) {
    |s| < 2 || (s[0] <= s[1] && Ordered(s[1..]))
  }

  lemma {:induction false} InsertKeeps(x: int, s: seq<int>, m: int)
    ensures |Insert(x, s)| == |s| + 1 && Below(Insert(x, s), m) == Below(s, m) + (if x < m then 1 else 0)
  {
    if s == [] || x <= s[0] {
      assert ([x] + s)[1..] == s;
    } else {
      InsertKeeps(x, s[1..], m);
      assert ([s[0]] + Insert(x, s[1..]))[1..] == Insert(x, s[1..]);
    }
  }

  lemma {:induction false} InsertOrders(x: int, s: seq<int>)
    requires Ordered(s)
    ensures Ordered(Insert(x, s))
    ensures |Insert(x, s)| == |s| + 1 && Insert(x, s)[0] == if s == [] || x <= s[0] then x else s[0]
  {
    InsertKeeps(x, s, 0);
    if s == [] || x <= s[0] {
      assert ([x] + s)[1..] == s;
    } else {
      InsertOrders(x, s[1..]);
      assert ([s[0]] + Insert(x, s[1..]))[1..] == Insert(x, s[1..]);
    }
  }

  lemma {:induction false} SortOrders(s: seq<int>)
    ensures Ordered(Sort(s))
  {
    if s != [] {
      SortOrders(s[1..]);
      InsertOrders(s[0], Sort(s[1..]));
    }
  }

  lemma {:induction false} SortKeeps(s: seq<int>, m: int)
    ensures |Sort(s)| == |s| && Below(Sort(s), m) == Below(s, m)
  {
    if s != [] {
      SortKeeps(s[1..], m);
      InsertKeeps(s[0], Sort(s[1..]), m);
    }
  }

  lemma {:induction false} NoneBelowFirst(s: seq<int>, m: int)
    requires Ordered(s) && s != [] && m <= s[0]
    ensures Below(s, m) == 0
  {
    if |s| > 1 {
      NoneBelowFirst(s[1..], m);
    }
  }

  lemma {:induction false} FirstIsLeast(s: seq<int>, k: nat)
    requires Ordered(s) && k < |s|
    ensures s[0] <= s[k]
  {
    if k > 0 {
      FirstIsLeast(s[1..], k - 1);
    }
  }

  /** In an ordered list the entry at `k` is at least `m` exactly when no more than `k` entries are less. */
  lemma {:induction false} RankInOrder(s: seq<int>, k: nat, m: int)
    requires Ordered(s) && k < |s|
    ensures m <= s[k] <==> Below(s, m) <= k
  {
    if k > 0 {
      RankInOrder(s[1..], k - 1, m);
      FirstIsLeast(s, k);
    }
    if m <= s[0] {
      NoneBelowFirst(s, m);
    }
  }

  /**
   * The middle is the one number with at most half of the entries less than it and more than half no greater,
   * whatever order the entries come in.
   */
  lemma {:induction false} MiddleExactly(s: seq<int>, m: int)
    requires s != []
    ensures m == Middle(s) <==> Below(s, m) <= |s| / 2 < Below(s, m + 1)
  {
    SortOrders(s);
    SortKeeps(s, m);
    SortKeeps(s, m + 1);
    RankInOrder(Sort(s), |s| / 2, m);
    RankInOrder(Sort(s), |s| / 2, m + 1);
  }

  lemma {:induction false} BelowAdds(a: seq<int>, b: seq<int>, m: int)
    ensures Below(a + b, m) == Below(a, m) + Below(b, m)
  {
    if a == [] {
      assert a + b == b;
    } else {
      BelowAdds(a[1..], b, m);
      assert (a + b)[1..] == a[1..] + b;
    }
  }

  lemma {:induction false} MiddleOfEither(a: seq<int>, b: seq<int>)
    ensures Middle(a + b) == Middle(b + a)
  {
    if a + b == [] {
      assert b + a == [];
    } else {
      var m := Middle(a + b);
      MiddleExactly(a + b, m);
      MiddleExactly(b + a, m);
      BelowAdds(a, b, m);
      BelowAdds(b, a, m);
      BelowAdds(a, b, m + 1);
      BelowAdds(b, a, m + 1);
    }
  }
}

/**
 * Did the agent call what it should have: three ways to match a call log against expected calls.
 * Source: scripts/scenario-check.ts.
 */
module ScenarioCheck {
  import opened Prelude

  /** Arguments by name, as their JSON text; `None` is a value that has none, as a missing key has. */
  type Args = map<string, Option<string>>

  datatype Call = Call(slug: string, args: Args)

  datatype Expected = Expected(slug: string, args: Option<Args>)

  datatype Order = Exact | InOrder | AnyOrder

  function Rendered(args: Args, key: string): Option<string> {
    if key in args then args[key] else None
  }

  predicate ArgsMatch(expected: Option<Args>, actual: Args) {
    expected.None? || forall key | key in expected.value :: Rendered(actual, key) == expected.value[key]
  }

  predicate Fits(e: Expected, c: Call) {
    e.slug == c.slug && ArgsMatch(e.args, c.args)
  }

  // ---------------------------------------------------------------- what each order promises

  ghost predicate Embedding(at: seq<nat>, expected: seq<Expected>, calls: seq<Call>) {
    && |at| == |expected|
    && (forall i | 0 <= i < |at| :: at[i] < |calls| && Fits(expected[i], calls[at[i]]))
    && (forall i, j | 0 <= i < j < |at| :: at[i] < at[j])
  }

  /** The expected calls appear in this order; others may come between them. */
  ghost predicate Embeds(expected: seq<Expected>, calls: seq<Call>) {
    exists at :: Embedding(at, expected, calls)
  }

  ghost predicate Satisfies(expected: seq<Expected>, calls: seq<Call>, order: Order) {
    match order
    case Exact => |expected| == |calls| && forall i | 0 <= i < |calls| :: Fits(expected[i], calls[i])
    case InOrder => Embeds(expected, calls)
    case AnyOrder => forall e | e in expected :: exists c :: c in calls && Fits(e, c)
  }

  // ---------------------------------------------------------------- the greedy scan

  /** How far one pass over the calls gets through the expected calls. */
  function Greedy(expected: seq<Expected>, calls: seq<Call>): (at: nat)
    ensures at <= |expected|
  {
    if calls == [] then 0
    else
      var at := Greedy(expected, calls[..|calls| - 1]);
      if at < |expected| && Fits(expected[at], calls[|calls| - 1]) then at + 1 else at
  }

  lemma {:induction false} GreedyEmbeds(expected: seq<Expected>, calls: seq<Call>) returns (at: seq<nat>)
    ensures Embedding(at, expected[..Greedy(expected, calls)], calls)
  {
    if calls == [] {
      at := [];
    } else {
      var front := calls[..|calls| - 1];
      at := GreedyEmbeds(expected, front);
      var n := Greedy(expected, front);
      if n < |expected| && Fits(expected[n], calls[|calls| - 1]) {
        at := at + [|front|];
      }
    }
  }

  lemma {:induction false} GreedyReaches(expected: seq<Expected>, calls: seq<Call>, at: seq<nat>)
    requires |at| <= |expected| && Embedding(at, expected[..|at|], calls)
    ensures |at| <= Greedy(expected, calls)
  {
    if at != [] {
      var k := |at| - 1;
      assert at[k] < |calls|;
      var front := calls[..|calls| - 1];
      if at[k] == |calls| - 1 {
        assert Embedding(at[..k], expected[..k], front);
        GreedyReaches(expected, front, at[..k]);
      } else {
        assert Embedding(at, expected[..|at|], front) by {
          assert forall i | 0 <= i < |at| :: at[i] <= at[k];
        }
        GreedyReaches(expected, front, at);
      }
    }
  }

  /** The scan is complete: it gets exactly as far as the longest prefix that any choice of calls could. */
  lemma {:induction false} GreedyIsLongest(expected: seq<Expected>, calls: seq<Call>, k: nat)
    requires k <= |expected|
    ensures Embeds(expected[..k], calls) <==> k <= Greedy(expected, calls)
  {
    if Embeds(expected[..k], calls) {
      var at :| Embedding(at, expected[..k], calls);
      GreedyReaches(expected, calls, at);
    }
    if k <= Greedy(expected, calls) {
      var at := GreedyEmbeds(expected, calls);
      assert Embedding(at[..k], expected[..k], calls);
    }
  }

  /** The source's check: nothing is wrong with the log if and only if the log satisfies the expectation. */
  method CheckCalls(expected: seq<Expected>, calls: seq<Call>, order: Order) returns (satisfied: bool)
    ensures satisfied <==> Satisfies(expected, calls, order)
  {
    match order
    case Exact =>
      return |expected| == |calls| && forall i | 0 <= i < |calls| :: Fits(expected[i], calls[i]);
    case AnyOrder =>
      return forall e | e in expected :: exists c :: c in calls && Fits(e, c);
    case InOrder =>
      var at := 0;
      for i := 0 to |calls|
        invariant at == Greedy(expected, calls[..i])
      {
        assert calls[..i + 1][..i] == calls[..i];
        if at < |expected| && Fits(expected[at], calls[i]) {
          at := at + 1;
        }
      }
      assert calls[..|calls|] == calls && expected[..|expected|] == expected;
      GreedyIsLongest(expected, calls, |expected|);
      return at == |expected|;
  }

  // ---------------------------------------------------------------- how the orders relate

  /** Exact acceptance is acceptance in order, and that is acceptance in any order. */
  lemma OrdersWeaken(expected: seq<Expected>, calls: seq<Call>)
    ensures Satisfies(expected, calls, Exact) ==> Satisfies(expected, calls, InOrder)
    ensures Satisfies(expected, calls, InOrder) ==> Satisfies(expected, calls, AnyOrder)
  {
    if Satisfies(expected, calls, Exact) {
      var at := seq(|calls|, i => i);
      assert Embedding(at, expected, calls);
    }
    if Embeds(expected, calls) {
      var at :| Embedding(at, expected, calls);
      forall e | e in expected
        ensures exists c :: c in calls && Fits(e, c)
      {
        var i :| 0 <= i < |expected| && expected[i] == e;
        assert calls[at[i]] in calls && Fits(e, calls[at[i]]);
      }
    }
  }

  /** `more` is `calls` with other calls put in between. */
  ghost predicate Within(to: seq<nat>, calls: seq<Call>, more: seq<Call>) {
    && |to| == |calls|
    && (forall i | 0 <= i < |to| :: to[i] < |more| && more[to[i]] == calls[i])
    && (forall i, j | 0 <= i < j < |to| :: to[i] < to[j])
  }

  /** Extra calls never turn an acceptance in order, or in any order, into a refusal. */
  lemma ExtraCallsDoNoHarm(expected: seq<Expected>, calls: seq<Call>, more: seq<Call>, to: seq<nat>)
    requires Within(to, calls, more)
    ensures Satisfies(expected, calls, InOrder) ==> Satisfies(expected, more, InOrder)
    ensures Satisfies(expected, calls, AnyOrder) ==> Satisfies(expected, more, AnyOrder)
  {
    if Embeds(expected, calls) {
      var at :| Embedding(at, expected, calls);
      var through := seq(|at|, i requires 0 <= i < |at| => to[at[i]]);
      assert Embedding(through, expected, more);
    }
    if Satisfies(expected, calls, AnyOrder) {
      forall e | e in expected
        ensures exists c :: c in more && Fits(e, c)
      {
        var c :| c in calls && Fits(e, c);
        var i :| 0 <= i < |calls| && calls[i] == c;
        assert more[to[i]] in more;
      }
    }
  }

  /** An empty expectation: no call at all under `exact`, and anything under the other two. */
  lemma EmptyExpectation(calls: seq<Call>)
    ensures Satisfies([], calls, Exact) <==> calls == []
    ensures Satisfies([], calls, InOrder) && Satisfies([], calls, AnyOrder)
  {
    assert Embedding([], [], calls);
  }
}

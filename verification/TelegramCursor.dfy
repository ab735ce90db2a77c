/**
 * The Telegram long poll: a cursor over the server's updates, against a server whose answers may be
 * lost and a host that may throw. Source: packages/channel-telegram/src/transport.ts, lines 90-158 and
 * 259-373.
 */
module TelegramCursor {
  import opened Prelude
  import Text

  /** What a message update carries, as far as deciding whether the host hears of it. */
  datatype Message = Message(text: Option<string>, caption: Option<string>, audio: bool, image: bool, fromBot: bool)

  datatype Update = Update(id: nat, message: Option<Message>)

  // ---------------------------------------------------------------- the cursor

  /** The offset after these updates: past every one of them, and never back. */
  function Cursor(offset: nat, ids: seq<nat>): nat {
    if ids == [] then offset
    else
      var before, next := Cursor(offset, ids[..|ids| - 1]), ids[|ids| - 1] + 1;
      if before < next then next else before
  }

  function Ids(updates: seq<Update>): (r: seq<nat>)
    ensures |r| == |updates| && forall i | 0 <= i < |r| :: r[i] == updates[i].id
  {
    if updates == [] then [] else Ids(updates[..|updates| - 1]) + [updates[|updates| - 1].id]
  }

  /** How many updates of a batch are reached when handling the one at `throwsAt` throws. */
  function Reached(n: nat, throwsAt: nat): nat {
    if throwsAt < n then throwsAt + 1 else n
  }

  /** Whether an update reaches the host: it must say something, and not come from a bot. */
  predicate Heard(u: Update) {
    && u.message.Some?
    && !u.message.value.fromBot
    && (u.message.value.audio || u.message.value.image || !Text.Blank(TextOf(u.message.value)))
  }

  function TextOf(m: Message): string {
    if m.text.Some? then m.text.value else if m.caption.Some? then m.caption.value else ""
  }

  function HeardIds(updates: seq<Update>): seq<nat> {
    if updates == [] then []
    else
      var last := updates[|updates| - 1];
      HeardIds(updates[..|updates| - 1]) + (if Heard(last) then [last.id] else [])
  }

  /** The cursor, every update given to `#ingest`, and those of them the host was given. */
  datatype Progress = Progress(offset: nat, handed: seq<nat>, received: seq<nat>)

  function Handle(p: Progress, u: Update): Progress {
    Progress(if p.offset < u.id + 1 then u.id + 1 else p.offset,
             p.handed + [u.id],
             if Heard(u) then p.received + [u.id] else p.received)
  }

  function HandleAll(p: Progress, updates: seq<Update>): Progress {
    if updates == [] then p
    else Handle(HandleAll(p, updates[..|updates| - 1]), updates[|updates| - 1])
  }

  /** Handling updates one by one is the cursor past all of them, and each of them handed over once. */
  lemma {:induction false} HandleAllIs(p: Progress, updates: seq<Update>)
    ensures HandleAll(p, updates)
         == Progress(Cursor(p.offset, Ids(updates)), p.handed + Ids(updates), p.received + HeardIds(updates))
  {
    if updates != [] {
      var front, last := updates[..|updates| - 1], updates[|updates| - 1];
      HandleAllIs(p, front);
      assert Ids(updates)[..|updates| - 1] == Ids(front);
      Associates(p.handed, Ids(front), [last.id]);
      Associates(p.received, HeardIds(front), [last.id]);
    }
  }

  /** How one turn of the poll loop ended. */
  datatype Outcome = Polled | BackOff(delay: nat, reported: bool) | Aborted

  const BACKOFF_MS: seq<nat> := [1_000, 2_000, 5_000, 15_000, 30_000]

  class PollLoop {
    var offset: nat
    var failures: nat
    var announced: bool

    /** History: every update given to `#ingest`, and those of them the host was given. */
    ghost var handed: seq<nat>
    ghost var received: seq<nat>

    constructor ()
      ensures offset == 0 && failures == 0 && !announced && handed == [] && received == []
    {
      offset, failures, announced, handed, received := 0, 0, false, [], [];
    }

    ghost function Made(): Progress
      reads this`offset, this`handed, this`received
    {
      Progress(offset, handed, received)
    }

    /** The cursor moves past an update and never back, and the update is handed over, whether or not that throws. */
    method HandleOne(update: Update, throws: bool) returns (threw: bool)
      modifies this`offset, this`handed, this`received
      ensures Made() == Handle(old(Made()), update) && offset > update.id && offset >= old(offset)
      ensures threw == throws
    {
      if offset < update.id + 1 {
        offset := update.id + 1;
      }
      handed := handed + [update.id];
      if Heard(update) {
        received := received + [update.id];
      }
      return throws;
    }

    /** The `for` loop over one answer; the first update that throws ends it. */
    method HandleBatch(updates: seq<Update>, throwsAt: nat) returns (threw: bool)
      modifies this`offset, this`handed, this`received
      ensures threw <==> throwsAt < |updates|
      ensures Made() == HandleAll(old(Made()), updates[..Reached(|updates|, throwsAt)])
    {
      for i := 0 to |updates|
        invariant i <= throwsAt
        invariant Made() == HandleAll(old(Made()), updates[..i])
      {
        threw := HandleOne(updates[i], i == throwsAt);
        assert updates[..i + 1][..i] == updates[..i];
        if threw {
          return;
        }
      }
      assert updates[..|updates|] == updates;
      return false;
    }

    /**
     * One turn of the loop. An answer that was lost backs off, longer each time; an answer that came
     * clears the count first, so an update that throws costs the shortest pause and is not asked for again.
     */
    method Turn(answer: Option<seq<Update>>, throwsAt: nat, aborted: bool) returns (outcome: Outcome)
      modifies this
      ensures Made() == HandleAll(old(Made()),
                          if answer.Some? then answer.value[..Reached(|answer.value|, throwsAt)] else [])
      ensures answer.Some? && throwsAt >= |answer.value| ==> outcome == Polled && failures == 0 && announced
      ensures answer.Some? && throwsAt < |answer.value| && !aborted ==>
                outcome == BackOff(1_000, true) && failures == 1
      ensures answer.None? && !aborted ==>
                && failures == old(failures) + 1
                && outcome.BackOff?
                && outcome.delay == BACKOFF_MS[if old(failures) < 4 then old(failures) else 4]
                && (outcome.reported <==> failures == 1 || failures % 8 == 0)
      ensures aborted && (answer.None? || throwsAt < |answer.value|) ==> outcome == Aborted
    {
      var threw := true;
      if answer.Some? {
        if failures > 0 {
          failures := 0;
          announced := true;
        } else if !announced {
          announced := true;
        }
        threw := HandleBatch(answer.value, throwsAt);
      }
      if threw {
        if aborted {
          return Aborted;
        }
        var delay := BACKOFF_MS[if failures < |BACKOFF_MS| - 1 then failures else |BACKOFF_MS| - 1];
        failures := failures + 1;
        return BackOff(delay, failures == 1 || failures % 8 == 0);
      }
      return Polled;
    }
  }

  // ---------------------------------------------------------------- the protocol

  /** Where one run of the loop stands; `Holding` is an answer that has not been handled yet. */
  datatype Phase = Idle | Asking(offset: nat) | Holding(batch: seq<nat>) | Over

  datatype Loop = Loop(aborted: bool, phase: Phase)

  /** The server's updates so far, the transport, and every run of the poll loop ever started. */
  datatype World = World(
    arrived: seq<nat>,
    offset: nat,
    running: bool,
    loops: seq<Loop>,
    handed: seq<nat>)

  const FRESH := World([], 0, false, [], [])

  datatype Event =
    | Arrive(id: nat)
    | Start
    | Stop
    | Ask(l: nat)
    | Answer(l: nat, n: nat)
    | Lose(l: nat)
    | Take(l: nat, throwsAt: nat)
    | Exit(l: nat)

  ghost predicate Ascending(ids: seq<nat>) {
    forall i, j | 0 <= i < j < |ids| :: ids[i] < ids[j]
  }

  /** What the server still holds for a request: everything from its offset on. */
  function Pending(arrived: seq<nat>, offset: nat): seq<nat> {
    if arrived == [] then []
    else
      var front, id := Pending(arrived[..|arrived| - 1], offset), arrived[|arrived| - 1];
      if id >= offset then front + [id] else front
  }

  ghost predicate Enabled(w: World, e: Event) {
    match e
    case Arrive(id) => forall a | a in w.arrived :: a < id
    case Start => true
    case Stop => true
    case Ask(l) => l < |w.loops| && w.loops[l].phase.Idle? && w.running && !w.loops[l].aborted
    case Answer(l, n) => l < |w.loops| && w.loops[l].phase.Asking?
                         && n <= |Pending(w.arrived, w.loops[l].phase.offset)|
    case Lose(l) => l < |w.loops| && w.loops[l].phase.Asking?
    case Take(l, _) => l < |w.loops| && w.loops[l].phase.Holding?
    case Exit(l) => l < |w.loops| && w.loops[l].phase.Idle? && (!w.running || w.loops[l].aborted)
  }

  function Aborting(loops: seq<Loop>): (r: seq<Loop>)
    ensures |r| == |loops| && forall i | 0 <= i < |r| :: r[i] == loops[i].(aborted := true)
  {
    seq(|loops|, i requires 0 <= i < |loops| => loops[i].(aborted := true))
  }

  ghost function After(w: World, e: Event): World
    requires Enabled(w, e)
  {
    match e
    case Arrive(id) => w.(arrived := w.arrived + [id])
    case Start => if w.running then w else w.(running := true, loops := w.loops + [Loop(false, Idle)])
    case Stop => if !w.running then w else w.(running := false, loops := Aborting(w.loops))
    case Ask(l) => w.(loops := w.loops[l := w.loops[l].(phase := Asking(w.offset))])
    case Answer(l, n) =>
      w.(loops := w.loops[l := w.loops[l].(phase := Holding(Pending(w.arrived, w.loops[l].phase.offset)[..n]))])
    case Lose(l) =>
      w.(loops := w.loops[l := w.loops[l].(phase := if w.loops[l].aborted then Over else Idle)])
    case Take(l, throwsAt) =>
      var batch := w.loops[l].phase.batch;
      var done := batch[..Reached(|batch|, throwsAt)];
      var next := if throwsAt < |batch| && w.loops[l].aborted then Over else Idle;
      w.(offset := Cursor(w.offset, done),
         handed := w.handed + done,
         loops := w.loops[l := w.loops[l].(phase := next)])
    case Exit(l) => w.(loops := w.loops[l := w.loops[l].(phase := Over)])
  }

  /** A turn of the loop over an answer moves cursor and record as the protocol's `Take` of that answer does. */
  lemma {:induction false} TurnIsTake(w: World, l: nat, updates: seq<Update>, throwsAt: nat, received: seq<nat>)
    requires Enabled(w, Take(l, throwsAt)) && w.loops[l].phase.batch == Ids(updates)
    ensures var made := HandleAll(Progress(w.offset, w.handed, received), updates[..Reached(|updates|, throwsAt)]);
            made.offset == After(w, Take(l, throwsAt)).offset && made.handed == After(w, Take(l, throwsAt)).handed
  {
    var n := Reached(|updates|, throwsAt);
    HandleAllIs(Progress(w.offset, w.handed, received), updates[..n]);
    assert Ids(updates[..n]) == Ids(updates)[..n];
  }

  /** `stop()` is awaited before the next `start()`: the earlier runs of the loop are over. */
  ghost predicate Awaited(w: World, e: Event) {
    e.Start? && !w.running ==> forall l | l in w.loops :: l.phase.Over?
  }

  ghost predicate Happens(w: World, events: seq<Event>)
    decreases |events|
  {
    events == [] || (Enabled(w, events[0]) && Happens(After(w, events[0]), events[1..]))
  }

  ghost predicate AllAwaited(w: World, events: seq<Event>)
    requires Happens(w, events)
    decreases |events|
  {
    events == [] || (Awaited(w, events[0]) && AllAwaited(After(w, events[0]), events[1..]))
  }

  ghost function Outcomes(w: World, events: seq<Event>): World
    requires Happens(w, events)
    decreases |events|
  {
    if events == [] then w else Outcomes(After(w, events[0]), events[1..])
  }

  // ---------------------------------------------------------------- each update once, and none lost

  /** What was handed over is in order, is below the cursor, and is all that ever arrived below it. */
  ghost predicate Exact(w: World) {
    && Ascending(w.arrived)
    && Ascending(w.handed)
    && (forall id | id in w.handed :: id < w.offset && id in w.arrived)
    && (forall id | id in w.arrived :: id < w.offset ==> id in w.handed)
    && (w.offset == 0 || w.offset - 1 in w.handed)
  }

  /** An answer continues the cursor without a gap. */
  ghost predicate Continues(w: World, batch: seq<nat>) {
    && Ascending(batch)
    && (forall id | id in batch :: w.offset <= id && id in w.arrived)
    && (forall id | id in w.arrived :: batch != [] && w.offset <= id <= batch[|batch| - 1] ==> id in batch)
  }

  ghost predicate Single(loops: seq<Loop>) {
    forall i, j | 0 <= i < j < |loops| :: loops[i].phase.Over? || loops[j].phase.Over?
  }

  ghost predicate Inv(w: World) {
    && Exact(w)
    && Single(w.loops)
    && (forall i | 0 <= i < |w.loops| && w.loops[i].phase.Asking? :: w.loops[i].phase.offset == w.offset)
    && (forall i | 0 <= i < |w.loops| && w.loops[i].phase.Holding? :: Continues(w, w.loops[i].phase.batch))
  }

  lemma AscendingAppends(ids: seq<nat>, id: nat)
    requires Ascending(ids) && forall a | a in ids :: a < id
    ensures Ascending(ids + [id])
  {
    assert forall k | 0 <= k < |ids| :: ids[k] in ids;
  }

  lemma AscendingSplits(front: seq<nat>, last: nat)
    requires Ascending(front + [last])
    ensures Ascending(front) && forall a | a in front :: a < last
  {
    var all := front + [last];
    assert forall k | 0 <= k < |front| :: front[k] == all[k] && all[k] < all[|front|];
  }

  lemma {:induction false} PendingIs(arrived: seq<nat>, offset: nat)
    requires Ascending(arrived)
    ensures Ascending(Pending(arrived, offset))
    ensures forall id :: id in Pending(arrived, offset) <==> id in arrived && offset <= id
  {
    if arrived != [] {
      var front, last := arrived[..|arrived| - 1], arrived[|arrived| - 1];
      assert arrived == front + [last];
      AscendingSplits(front, last);
      PendingIs(front, offset);
      if offset <= last {
        AscendingAppends(Pending(front, offset), last);
      }
    }
  }

  /** A prefix of an ascending list is what is at most its last element. */
  lemma PrefixIs(all: seq<nat>, n: nat)
    requires Ascending(all) && n <= |all|
    ensures Ascending(all[..n])
    ensures forall id | id in all[..n] :: id in all
    ensures forall id | id in all && n > 0 && id <= all[n - 1] :: id in all[..n]
  {
    forall id | id in all && n > 0 && id <= all[n - 1]
      ensures id in all[..n]
    {
      var k :| 0 <= k < |all| && all[k] == id;
      assert all[..n][k] == id;
    }
  }

  /** A prefix of what is pending continues the cursor. */
  lemma AnswersContinue(w: World, n: nat)
    requires Ascending(w.arrived) && n <= |Pending(w.arrived, w.offset)|
    ensures Continues(w, Pending(w.arrived, w.offset)[..n])
  {
    PendingIs(w.arrived, w.offset);
    PrefixIs(Pending(w.arrived, w.offset), n);
  }

  lemma {:induction false} CursorOf(offset: nat, ids: seq<nat>)
    requires Ascending(ids) && (ids != [] ==> offset <= ids[0])
    ensures Cursor(offset, ids) == if ids == [] then offset else ids[|ids| - 1] + 1
  {
    if ids != [] {
      CursorOf(offset, ids[..|ids| - 1]);
    }
  }

  lemma AscendingJoins(a: seq<nat>, b: seq<nat>, bound: nat)
    requires Ascending(a) && Ascending(b)
    requires (forall x | x in a :: x < bound) && (forall x | x in b :: bound <= x)
    ensures Ascending(a + b)
  {
    assert forall k | 0 <= k < |a| :: a[k] in a;
    assert forall k | 0 <= k < |b| :: b[k] in b;
  }

  /** A prefix of a continuing answer: where the cursor goes, and that nothing before it is missed. */
  lemma PrefixContinues(w: World, batch: seq<nat>, m: nat)
    requires Continues(w, batch) && m <= |batch|
    ensures var done := batch[..m];
            && Continues(w, done)
            && Cursor(w.offset, done) == if m == 0 then w.offset else done[m - 1] + 1
  {
    PrefixIs(batch, m);
    assert batch != [] ==> batch[0] in batch;
    CursorOf(w.offset, batch[..m]);
    assert m > 0 ==> batch[m - 1] <= batch[|batch| - 1];
  }

  lemma HandedBelow(w: World, done: seq<nat>, offset: nat)
    requires Exact(w) && Continues(w, done) && w.offset <= offset
    requires forall k | 0 <= k < |done| :: done[k] < offset
    ensures forall id | id in w.handed + done :: id < offset && id in w.arrived
  {
    forall id | id in w.handed + done
      ensures id < offset && id in w.arrived
    {
      assert id in w.handed || id in done;
    }
  }

  lemma NoneBelowMissed(w: World, done: seq<nat>, offset: nat)
    requires Exact(w) && Continues(w, done)
    requires if done == [] then offset == w.offset else offset == done[|done| - 1] + 1
    ensures forall id | id in w.arrived && id < offset :: id in w.handed + done
  {}

  /** Handling the whole of a continuing answer. */
  lemma {:induction false} HandingKeepsExact(w: World, done: seq<nat>)
    requires Exact(w) && Continues(w, done)
    requires Cursor(w.offset, done) == if done == [] then w.offset else done[|done| - 1] + 1
    ensures Exact(w.(offset := Cursor(w.offset, done), handed := w.handed + done))
  {
    var offset := Cursor(w.offset, done);
    if done == [] {
      assert w.(offset := offset, handed := w.handed + done) == w;
    } else {
      assert done[|done| - 1] in done;
      AscendingJoins(w.handed, done, w.offset);
      HandedBelow(w, done, offset);
      NoneBelowMissed(w, done, offset);
      assert (w.handed + done)[|w.handed + done| - 1] == offset - 1;
      assert offset - 1 in w.handed + done;
    }
  }

  /** Handling an answer that continues the cursor keeps the record exact, wherever handling throws. */
  lemma TakingKeepsExact(w: World, batch: seq<nat>, throwsAt: nat)
    requires Exact(w) && Continues(w, batch)
    ensures var done := batch[..Reached(|batch|, throwsAt)];
            Exact(w.(offset := Cursor(w.offset, done), handed := w.handed + done))
  {
    PrefixContinues(w, batch, Reached(|batch|, throwsAt));
    HandingKeepsExact(w, batch[..Reached(|batch|, throwsAt)]);
  }

  lemma TakeKeepsInv(w: World, l: nat, throwsAt: nat)
    requires Inv(w) && Enabled(w, Take(l, throwsAt))
    ensures Inv(After(w, Take(l, throwsAt)))
  {
    var batch := w.loops[l].phase.batch;
    TakingKeepsExact(w, batch, throwsAt);
    var done := batch[..Reached(|batch|, throwsAt)];
    var v := w.(offset := Cursor(w.offset, done), handed := w.handed + done);
    assert Exact(v) ==> Exact(After(w, Take(l, throwsAt)));
  }

  lemma AnswerKeepsInv(w: World, l: nat, n: nat)
    requires Inv(w) && Enabled(w, Answer(l, n))
    ensures Inv(After(w, Answer(l, n)))
  {
    AnswersContinue(w, n);
  }

  lemma StartKeepsInv(w: World)
    requires Inv(w) && Awaited(w, Start)
    ensures Inv(After(w, Start))
  {
    assert forall i | 0 <= i < |w.loops| :: w.loops[i] in w.loops;
  }

  lemma AfterKeepsInv(w: World, e: Event)
    requires Enabled(w, e) && Inv(w) && Awaited(w, e)
    ensures Inv(After(w, e))
  {
    match e
    case Arrive(id) => ArriveKeepsInv(w, id);
    case Start => StartKeepsInv(w);
    case Answer(l, n) => AnswerKeepsInv(w, l, n);
    case Take(l, throwsAt) => TakeKeepsInv(w, l, throwsAt);
    case _ => PhaseKeepsInv(w, e);
  }

  /** Stopping, asking, losing an answer and leaving the loop touch neither cursor nor record. */
  lemma PhaseKeepsInv(w: World, e: Event)
    requires Inv(w) && Enabled(w, e) && (e.Stop? || e.Ask? || e.Lose? || e.Exit?)
    ensures Inv(After(w, e))
  {}

  lemma ArriveKeepsInv(w: World, id: nat)
    requires Inv(w) && Enabled(w, Arrive(id))
    ensures Inv(After(w, Arrive(id)))
  {
    AscendingAppends(w.arrived, id);
    assert w.offset <= id;
    forall i | 0 <= i < |w.loops| && w.loops[i].phase.Holding?
      ensures Continues(After(w, Arrive(id)), w.loops[i].phase.batch)
    {
      var batch := w.loops[i].phase.batch;
      assert Continues(w, batch);
      assert batch != [] ==> batch[|batch| - 1] in w.arrived;
    }
  }

  lemma {:induction false} EventsKeepInv(w: World, events: seq<Event>)
    requires Happens(w, events) && AllAwaited(w, events) && Inv(w)
    ensures Inv(Outcomes(w, events))
    decreases |events|
  {
    if events != [] {
      AfterKeepsInv(w, events[0]);
      EventsKeepInv(After(w, events[0]), events[1..]);
    }
  }

  /**
   * Against any server that loses answers, any host that throws, and any starts and stops where `stop()`
   * is awaited: every update is handed over at most once and in increasing order, and everything the
   * server ever held below the cursor has been handed over.
   */
  lemma {:induction false} EachUpdateOnceAndNoneLost(events: seq<Event>)
    requires Happens(FRESH, events) && AllAwaited(FRESH, events)
    ensures var w := Outcomes(FRESH, events);
            && (forall i, j | 0 <= i < j < |w.handed| :: w.handed[i] < w.handed[j])
            && (forall id :: id in w.handed <==> id in w.arrived && id < w.offset)
  {
    EventsKeepInv(FRESH, events);
  }

  /** From an exact record, handling an answer keeps it in order if and only if the answer does not start below it. */
  lemma TakingKeepsOrderExactly(w: World, batch: seq<nat>, throwsAt: nat)
    requires Exact(w) && Ascending(batch)
    requires forall id | id in batch :: id in w.arrived
    ensures var done := batch[..Reached(|batch|, throwsAt)];
            Ascending(w.handed + done) <==> batch == [] || w.offset <= batch[0]
  {
    var done := batch[..Reached(|batch|, throwsAt)];
    PrefixIs(batch, |done|);
    if batch != [] && w.offset <= batch[0] {
      AscendingJoins(w.handed, done, w.offset);
    } else if batch != [] {
      assert batch[0] in batch;
      var k :| 0 <= k < |w.handed| && w.handed[k] == batch[0];
      assert (w.handed + done)[k] == (w.handed + done)[|w.handed|];
    }
  }

  // ---------------------------------------------------------------- without the wait

  /** An answer to a request from some offset the cursor has reached, with no update left out. */
  ghost predicate Behind(w: World, batch: seq<nat>) {
    exists o: nat :: o <= w.offset && Continues(w.(offset := o), batch)
  }

  ghost predicate Loose(w: World) {
    && Exact(w)
    && (forall i | 0 <= i < |w.loops| && w.loops[i].phase.Asking? :: w.loops[i].phase.offset <= w.offset)
    && (forall i | 0 <= i < |w.loops| && w.loops[i].phase.Holding? :: Behind(w, w.loops[i].phase.batch))
  }

  /** An answer about to be handled is empty or starts at or above the cursor. */
  ghost predicate Ahead(w: World, e: Event)
    requires Enabled(w, e)
  {
    e.Take? ==> var batch := w.loops[e.l].phase.batch; batch == [] || w.offset <= batch[0]
  }

  ghost predicate AllAhead(w: World, events: seq<Event>)
    requires Happens(w, events)
    decreases |events|
  {
    events == [] || (Ahead(w, events[0]) && AllAhead(After(w, events[0]), events[1..]))
  }

  ghost predicate NoneTwice(ids: seq<nat>) {
    forall i, j | 0 <= i < j < |ids| :: ids[i] != ids[j]
  }

  lemma AheadContinues(w: World, batch: seq<nat>)
    requires Behind(w, batch) && (batch == [] || w.offset <= batch[0])
    ensures Continues(w, batch)
  {
    if batch != [] {
      forall id | id in batch
        ensures w.offset <= id
      {
        var k :| 0 <= k < |batch| && batch[k] == id;
      }
    }
  }

  /** A later cursor, or later updates, leave an answer behind the cursor. */
  lemma BehindStays(w: World, v: World, batch: seq<nat>)
    requires Behind(w, batch) && w.offset <= v.offset && v.arrived == w.arrived
    ensures Behind(v, batch)
  {
    var o: nat :| o <= w.offset && Continues(w.(offset := o), batch);
    assert Continues(v.(offset := o), batch);
  }

  lemma BehindOnArrival(w: World, id: nat, batch: seq<nat>)
    requires Behind(w, batch) && Enabled(w, Arrive(id))
    ensures Behind(After(w, Arrive(id)), batch)
  {
    var o: nat :| o <= w.offset && Continues(w.(offset := o), batch);
    assert batch != [] ==> batch[|batch| - 1] in w.arrived;
    assert Continues(After(w, Arrive(id)).(offset := o), batch);
  }

  lemma {:induction false} CursorGrows(offset: nat, ids: seq<nat>)
    ensures offset <= Cursor(offset, ids)
  {
    if ids != [] {
      CursorGrows(offset, ids[..|ids| - 1]);
    }
  }

  lemma LooseOnTake(w: World, l: nat, throwsAt: nat)
    requires Loose(w) && Enabled(w, Take(l, throwsAt)) && Ahead(w, Take(l, throwsAt))
    ensures Loose(After(w, Take(l, throwsAt)))
  {
    var batch, v := w.loops[l].phase.batch, After(w, Take(l, throwsAt));
    var done := batch[..Reached(|batch|, throwsAt)];
    AheadContinues(w, batch);
    TakingKeepsExact(w, batch, throwsAt);
    assert Exact(w.(offset := Cursor(w.offset, done), handed := w.handed + done)) ==> Exact(v);
    CursorGrows(w.offset, done);
    forall i | 0 <= i < |v.loops| && v.loops[i].phase.Holding?
      ensures Behind(v, v.loops[i].phase.batch)
    {
      BehindStays(w, v, w.loops[i].phase.batch);
    }
  }

  lemma LooseOnArrival(w: World, id: nat)
    requires Loose(w) && Enabled(w, Arrive(id))
    ensures Loose(After(w, Arrive(id)))
  {
    var v := After(w, Arrive(id));
    AscendingAppends(w.arrived, id);
    assert w.offset <= id;
    forall i | 0 <= i < |v.loops| && v.loops[i].phase.Holding?
      ensures Behind(v, v.loops[i].phase.batch)
    {
      BehindOnArrival(w, id, w.loops[i].phase.batch);
    }
  }

  lemma LooseOnAnswer(w: World, l: nat, n: nat)
    requires Loose(w) && Enabled(w, Answer(l, n))
    ensures Loose(After(w, Answer(l, n)))
  {
    var o, v := w.loops[l].phase.offset, After(w, Answer(l, n));
    AnswersContinue(w.(offset := o), n);
    assert Behind(w, v.loops[l].phase.batch);
    LooseOnPhase(w, v);
  }

  /** Neither cursor nor record changes, and every loop asks and holds what may be asked and held. */
  lemma LooseOnPhase(w: World, v: World)
    requires Loose(w) && v == w.(loops := v.loops, running := v.running)
    requires forall i | 0 <= i < |v.loops| && v.loops[i].phase.Asking? :: v.loops[i].phase.offset <= w.offset
    requires forall i | 0 <= i < |v.loops| && v.loops[i].phase.Holding? :: Behind(w, v.loops[i].phase.batch)
    ensures Loose(v)
  {
    forall i | 0 <= i < |v.loops| && v.loops[i].phase.Holding?
      ensures Behind(v, v.loops[i].phase.batch)
    {
      BehindStays(w, v, v.loops[i].phase.batch);
    }
  }

  lemma LooseKept(w: World, e: Event)
    requires Loose(w) && Enabled(w, e) && Ahead(w, e)
    ensures Loose(After(w, e))
  {
    match e
    case Arrive(id) => LooseOnArrival(w, id);
    case Answer(l, n) => LooseOnAnswer(w, l, n);
    case Take(l, throwsAt) => LooseOnTake(w, l, throwsAt);
    case _ => LooseOnPhase(w, After(w, e));
  }

  /** Handling an answer that starts below the cursor hands its first update over a second time. */
  lemma BelowRepeats(w: World, e: Event)
    requires Loose(w) && Enabled(w, e) && !Ahead(w, e)
    ensures !NoneTwice(After(w, e).handed)
  {
    var batch := w.loops[e.l].phase.batch;
    assert batch[0] in batch && batch[0] in w.arrived;
    var k :| 0 <= k < |w.handed| && w.handed[k] == batch[0];
    var after := After(w, e).handed;
    assert after[k] == batch[0] && after[|w.handed|] == batch[0];
  }

  lemma {:induction false} HandedGrows(w: World, events: seq<Event>)
    requires Happens(w, events)
    ensures w.handed <= Outcomes(w, events).handed
    decreases |events|
  {
    if events != [] {
      HandedGrows(After(w, events[0]), events[1..]);
    }
  }

  lemma {:induction false} TwiceExactly(w: World, events: seq<Event>)
    requires Loose(w) && Happens(w, events)
    ensures NoneTwice(Outcomes(w, events).handed) <==> AllAhead(w, events)
    ensures AllAhead(w, events) ==> Loose(Outcomes(w, events))
    decreases |events|
  {
    if events != [] {
      var v := After(w, events[0]);
      if Ahead(w, events[0]) {
        LooseKept(w, events[0]);
        TwiceExactly(v, events[1..]);
      } else {
        BelowRepeats(w, events[0]);
        HandedGrows(v, events[1..]);
        var i, j :| 0 <= i < j < |v.handed| && v.handed[i] == v.handed[j];
        assert Outcomes(w, events).handed[i] == Outcomes(w, events).handed[j];
      }
    }
  }

  /**
   * Over any run, with any starts, stops, lost answers and throws, waited for or not: no update is handed over
   * twice, and the record is in order, if and only if every answer handled was empty or started at or above
   * the cursor; and then everything the server ever held below the cursor has been handed over.
   */
  lemma {:induction false} OnceEachExactly(events: seq<Event>)
    requires Happens(FRESH, events)
    ensures var w := Outcomes(FRESH, events);
            && (NoneTwice(w.handed) <==> AllAhead(FRESH, events))
            && (Ascending(w.handed) <==> AllAhead(FRESH, events))
            && (AllAhead(FRESH, events) ==> forall id :: id in w.handed <==> id in w.arrived && id < w.offset)
  {
    TwiceExactly(FRESH, events);
  }

  // ---------------------------------------------------------------- with a fetch that honours the signal

  /**
   * What a `fetch` that honours its signal adds: a request that was aborted is never answered, and an answer
   * that came before the abort is handled before the next loop, which calls the server twice first, can ask.
   */
  ghost predicate Honours(w: World, e: Event)
    requires Enabled(w, e)
  {
    && (e.Answer? ==> !w.loops[e.l].aborted)
    && (e.Ask? ==> forall l | l in w.loops :: l.aborted ==> !l.phase.Holding?)
  }

  ghost predicate AllHonour(w: World, events: seq<Event>)
    requires Happens(w, events)
    decreases |events|
  {
    events == [] || (Honours(w, events[0]) && AllHonour(After(w, events[0]), events[1..]))
  }

  /** One loop at most is not aborted, and while a loop holds an answer no other asks to be answered or holds one. */
  ghost predicate OneActive(w: World) {
    OneLive(w) && OneHolder(w.loops)
  }

  ghost predicate OneLive(w: World) {
    && (forall i, j | 0 <= i < j < |w.loops| :: w.loops[i].aborted || w.loops[j].aborted)
    && (!w.running ==> forall i | 0 <= i < |w.loops| :: w.loops[i].aborted)
  }

  ghost predicate OneHolder(loops: seq<Loop>) {
    forall i, j | 0 <= i < |loops| && 0 <= j < |loops| && i != j && loops[i].phase.Holding? ::
      !loops[j].phase.Holding? && (loops[j].phase.Asking? ==> loops[j].aborted)
  }

  ghost predicate Orderly(w: World) {
    && Exact(w)
    && (forall i | 0 <= i < |w.loops| && w.loops[i].phase.Asking? && !w.loops[i].aborted ::
          w.loops[i].phase.offset == w.offset)
    && (forall i | 0 <= i < |w.loops| && w.loops[i].phase.Holding? :: Continues(w, w.loops[i].phase.batch))
  }

  lemma OneLiveKept(w: World, e: Event)
    requires OneLive(w) && Enabled(w, e)
    ensures OneLive(After(w, e))
  {}

  lemma OneHolderKept(w: World, e: Event)
    requires OneLive(w) && OneHolder(w.loops) && Enabled(w, e) && Honours(w, e)
    ensures OneHolder(After(w, e).loops)
  {
    assert forall i | 0 <= i < |w.loops| :: w.loops[i] in w.loops;
  }

  lemma OrderlyOnTake(w: World, l: nat, throwsAt: nat)
    requires Orderly(w) && OneActive(w) && Enabled(w, Take(l, throwsAt))
    ensures Orderly(After(w, Take(l, throwsAt)))
  {
    var batch := w.loops[l].phase.batch;
    TakingKeepsExact(w, batch, throwsAt);
    var done := batch[..Reached(|batch|, throwsAt)];
    var v := w.(offset := Cursor(w.offset, done), handed := w.handed + done);
    assert Exact(v) ==> Exact(After(w, Take(l, throwsAt)));
  }

  lemma OrderlyOnArrival(w: World, id: nat)
    requires Orderly(w) && Enabled(w, Arrive(id))
    ensures Orderly(After(w, Arrive(id)))
  {
    AscendingAppends(w.arrived, id);
    assert w.offset <= id;
    forall i | 0 <= i < |w.loops| && w.loops[i].phase.Holding?
      ensures Continues(After(w, Arrive(id)), w.loops[i].phase.batch)
    {
      var batch := w.loops[i].phase.batch;
      assert batch != [] ==> batch[|batch| - 1] in w.arrived;
    }
  }

  lemma OrderlyKept(w: World, e: Event)
    requires Orderly(w) && OneActive(w) && Enabled(w, e) && Honours(w, e)
    ensures Orderly(After(w, e))
  {
    match e
    case Arrive(id) => OrderlyOnArrival(w, id);
    case Answer(l, n) => OrderlyOnAnswer(w, l, n);
    case Take(l, throwsAt) => OrderlyOnTake(w, l, throwsAt);
    case _ => OrderlyOnPhase(w, e);
  }

  lemma OrderlyOnAnswer(w: World, l: nat, n: nat)
    requires Orderly(w) && Enabled(w, Answer(l, n)) && !w.loops[l].aborted
    ensures Orderly(After(w, Answer(l, n)))
  {
    AnswersContinue(w, n);
  }

  lemma OrderlyOnPhase(w: World, e: Event)
    requires Orderly(w) && Enabled(w, e) && !e.Arrive? && !e.Answer? && !e.Take?
    ensures Orderly(After(w, e))
  {}

  lemma {:induction false} EventsStayOrderly(w: World, events: seq<Event>)
    requires Happens(w, events) && AllHonour(w, events) && Orderly(w) && OneActive(w)
    ensures Orderly(Outcomes(w, events))
    decreases |events|
  {
    if events != [] {
      OrderlyKept(w, events[0]);
      OneLiveKept(w, events[0]);
      OneHolderKept(w, events[0]);
      EventsStayOrderly(After(w, events[0]), events[1..]);
    }
  }

  /** With a `fetch` that honours its signal no stop need be waited for. */
  lemma {:induction false} HonouredSignalSuffices(events: seq<Event>)
    requires Happens(FRESH, events) && AllHonour(FRESH, events)
    ensures var w := Outcomes(FRESH, events);
            && (forall i, j | 0 <= i < j < |w.handed| :: w.handed[i] < w.handed[j])
            && (forall id :: id in w.handed <==> id in w.arrived && id < w.offset)
  {
    EventsStayOrderly(FRESH, events);
  }

  // ---------------------------------------------------------------- with one that does not

  ghost predicate Moves(w: World, e: Event, v: World) {
    Enabled(w, e) && After(w, e) == v
  }

  ghost predicate Leads(w: World, events: seq<Event>, v: World) {
    Happens(w, events) && Outcomes(w, events) == v
  }

  lemma Prepend(w: World, e: Event, v: World, rest: seq<Event>, z: World, all: seq<Event>)
    requires Moves(w, e, v) && Leads(v, rest, z) && all == [e] + rest
    ensures Leads(w, all, z)
  {
    assert all[1..] == rest;
  }

  const ASKED := World([7], 0, true, [Loop(false, Asking(0))], [])
  const RESTARTED := World([7], 0, true, [Loop(true, Asking(0)), Loop(false, Idle)], [])
  const HELD := World([7], 0, true, [Loop(true, Asking(0)), Loop(false, Holding([7]))], [])
  const TAKEN := World([7], 8, true, [Loop(true, Asking(0)), Loop(false, Idle)], [7])
  const REPEATED := World([7], 8, true, [Loop(true, Idle), Loop(false, Idle)], [7, 7])

  lemma SevenPends()
    ensures Pending([7], 0) == [7] && [7][..1] == [7] && Cursor(0, [7]) == 8 && Cursor(8, [7]) == 8
  {}

  /** The first loop asks ... */
  lemma FirstAsks(rest: seq<Event>)
    requires Leads(ASKED, rest, REPEATED)
    ensures Leads(FRESH, [Arrive(7), Start, Ask(0)] + rest, REPEATED)
  {
    var w1, w2 := World([7], 0, false, [], []), World([7], 0, true, [Loop(false, Idle)], []);
    assert Moves(w2, Ask(0), ASKED) && Moves(w1, Start, w2) && Moves(FRESH, Arrive(7), w1);
    Prepend(w2, Ask(0), ASKED, rest, REPEATED, [Ask(0)] + rest);
    Prepend(w1, Start, w2, [Ask(0)] + rest, REPEATED, [Start, Ask(0)] + rest);
    Prepend(FRESH, Arrive(7), w1, [Start, Ask(0)] + rest, REPEATED, [Arrive(7), Start, Ask(0)] + rest);
  }

  /** ... the transport is stopped and started again ... */
  lemma Restarts(rest: seq<Event>)
    requires Leads(RESTARTED, rest, REPEATED)
    ensures Leads(ASKED, [Stop, Start] + rest, REPEATED)
  {
    var w := World([7], 0, false, [Loop(true, Asking(0))], []);
    assert Moves(ASKED, Stop, w) && Moves(w, Start, RESTARTED);
    Prepend(w, Start, RESTARTED, rest, REPEATED, [Start] + rest);
    Prepend(ASKED, Stop, w, [Start] + rest, REPEATED, [Stop, Start] + rest);
  }

  /** ... the second loop asks and is answered ... */
  lemma SecondAsks(rest: seq<Event>)
    requires Leads(HELD, rest, REPEATED)
    ensures Leads(RESTARTED, [Ask(1), Answer(1, 1)] + rest, REPEATED)
  {
    var w := World([7], 0, true, [Loop(true, Asking(0)), Loop(false, Asking(0))], []);
    SevenPends();
    assert Moves(RESTARTED, Ask(1), w) && Moves(w, Answer(1, 1), HELD);
    Prepend(w, Answer(1, 1), HELD, rest, REPEATED, [Answer(1, 1)] + rest);
    Prepend(RESTARTED, Ask(1), w, [Answer(1, 1)] + rest, REPEATED, [Ask(1), Answer(1, 1)] + rest);
  }

  lemma SecondTakes(rest: seq<Event>)
    requires Leads(TAKEN, rest, REPEATED)
    ensures Leads(HELD, [Take(1, 9)] + rest, REPEATED)
  {
    TakesSeven();
    Prepend(HELD, Take(1, 9), TAKEN, rest, REPEATED, [Take(1, 9)] + rest);
  }

  lemma LateTake(w: World)
    requires w == World([7], 8, true, [Loop(true, Holding([7])), Loop(false, Idle)], [7])
    ensures Leads(w, [Take(0, 9)], REPEATED)
  {
    RepeatsSeven(w);
    Stays(REPEATED);
    Prepend(w, Take(0, 9), REPEATED, [], REPEATED, [Take(0, 9)]);
  }

  lemma TakesIt(w: World, l: nat)
    requires l < |w.loops| && w.loops[l].phase == Holding([7]) && w.offset <= 8
    ensures Moves(w, Take(l, 9), w.(offset := 8, handed := w.handed + [7],
                                    loops := w.loops[l := w.loops[l].(phase := Idle)]))
  {
    assert Cursor(w.offset, []) == w.offset;
    assert Cursor(w.offset, [7]) == 8;
  }

  lemma RepeatsSeven(w: World)
    requires w == World([7], 8, true, [Loop(true, Holding([7])), Loop(false, Idle)], [7])
    ensures Moves(w, Take(0, 9), REPEATED)
  {
    TakesIt(w, 0);
    assert w.loops[0 := Loop(true, Idle)] == REPEATED.loops && w.handed + [7] == REPEATED.handed;
  }

  lemma TakesSeven()
    ensures Moves(HELD, Take(1, 9), TAKEN)
  {
    TakesIt(HELD, 1);
    assert HELD.loops[1 := Loop(false, Idle)] == TAKEN.loops && HELD.handed + [7] == TAKEN.handed;
  }

  lemma Stays(w: World)
    ensures Leads(w, [], w)
  {}

  /** ... and then the aborted request is answered after all. */
  lemma LateAnswer()
    ensures Leads(TAKEN, [Answer(0, 1), Take(0, 9)], REPEATED)
  {
    var w := World([7], 8, true, [Loop(true, Holding([7])), Loop(false, Idle)], [7]);
    SevenPends();
    assert Moves(TAKEN, Answer(0, 1), w);
    LateTake(w);
    Prepend(TAKEN, Answer(0, 1), w, [Take(0, 9)], REPEATED, [Answer(0, 1), Take(0, 9)]);
  }

  /**
   * A restart that does not wait for the old loop hands an update over twice when `fetch`, which the transport's
   * options can replace, ignores its signal: the aborted request is answered after the new loop has handled the
   * same update.
   */
  lemma UnawaitedRestartHandsTwice()
    ensures var events := [Arrive(7), Start, Ask(0)] + ([Stop, Start]
                        + ([Ask(1), Answer(1, 1)] + ([Take(1, 9)] + [Answer(0, 1), Take(0, 9)])));
            Happens(FRESH, events) && Outcomes(FRESH, events).handed == [7, 7]
  {
    var late := [Answer(0, 1), Take(0, 9)];
    LateAnswer();
    SecondTakes(late);
    SecondAsks([Take(1, 9)] + late);
    Restarts([Ask(1), Answer(1, 1)] + ([Take(1, 9)] + late));
    FirstAsks([Stop, Start] + ([Ask(1), Answer(1, 1)] + ([Take(1, 9)] + late)));
  }
}

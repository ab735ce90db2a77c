/**
 * The server's queues and dedup index as views of the task log: a queue is the ids of a conversation's
 * live tasks, oldest first, and the index maps the sources of the retained tasks to their ids.
 * Source: packages/channel-a2a/src/server.ts, lines 112-114, 319-321, 350-352, 415-418 and 459-474.
 */
module TaskTables {
  import opened Prelude
  import opened PeerConfig
  import opened TaskLog

  function LiveIds(log: seq<Entry>, r: string): seq<string> {
    if log == [] then []
    else
      var e := log[|log| - 1];
      LiveIds(log[..|log| - 1], r) + (if e.LiveFor(r) then [e.task.id] else [])
  }

  /** The queue after a task has left it. */
  function Without(queue: seq<string>, id: string): seq<string> {
    if queue == [] then []
    else
      var front, last := Without(queue[..|queue| - 1], id), queue[|queue| - 1];
      if last == id then front else front + [last]
  }

  lemma {:induction false} WithoutAppends(queue: seq<string>, last: string, id: string)
    ensures Without(queue + [last], id) == Without(queue, id) + (if last == id then [] else [last])
  {
    assert (queue + [last])[..|queue|] == queue;
  }

  lemma {:induction false} WithoutAbsent(queue: seq<string>, id: string)
    requires id !in queue
    ensures Without(queue, id) == queue
  {
    if queue != [] {
      WithoutAbsent(queue[..|queue| - 1], id);
    }
  }

  lemma {:induction false} LiveIdsAppends(log: seq<Entry>, e: Entry, r: string)
    ensures LiveIds(log + [e], r) == LiveIds(log, r) + (if e.LiveFor(r) then [e.task.id] else [])
  {
    assert (log + [e])[..|log|] == log;
  }

  lemma {:induction false} LiveIdsAre(log: seq<Entry>, r: string, id: string)
    ensures id in LiveIds(log, r) <==> exists i :: 0 <= i < |log| && log[i].LiveFor(r) && log[i].task.id == id
  {
    if log != [] {
      var n := |log| - 1;
      LiveIdsAre(log[..n], r, id);
      if i :| 0 <= i < |log| && log[i].LiveFor(r) && log[i].task.id == id {
        if i < n {
          assert log[..n][i].LiveFor(r);
        }
      }
      if id in LiveIds(log[..n], r) {
        var i :| 0 <= i < n && log[..n][i].LiveFor(r) && log[..n][i].task.id == id;
        assert log[i].LiveFor(r);
      }
    }
  }

  /** Entries that differ only in what the queue does not look at have the same queue. */
  lemma {:induction false} LiveIdsSame(log: seq<Entry>, after: seq<Entry>, r: string)
    requires |after| == |log|
    requires forall i | 0 <= i < |log| ::
        && after[i].recipient == log[i].recipient && after[i].endedAt == log[i].endedAt
        && after[i].task.id == log[i].task.id
    ensures LiveIds(after, r) == LiveIds(log, r)
  {
    if log != [] {
      LiveIdsSame(log[..|log| - 1], after[..|log| - 1], r);
    }
  }

  /** The front of the queue is the oldest live task, and the queue is empty when there is none. */
  lemma {:induction false} HeadIsFirstLive(log: seq<Entry>, r: string)
    ensures FirstLive(log, r) == |log| ==> LiveIds(log, r) == []
    ensures FirstLive(log, r) < |log| ==>
              LiveIds(log, r) != [] && LiveIds(log, r)[0] == log[FirstLive(log, r)].task.id
  {
    if log != [] {
      var n := |log| - 1;
      HeadIsFirstLive(log[..n], r);
      var k := FirstLive(log[..n], r);
      if k < n {
        FirstLiveIs(log, r, k);
      } else if log[n].LiveFor(r) {
        assert forall j | 0 <= j < n :: !log[..n][j].LiveFor(r);
        FirstLiveIs(log, r, n);
      } else {
        assert forall j | 0 <= j < n :: !log[..n][j].LiveFor(r);
      }
    }
  }

  /** Ending a task takes exactly its own id out of its own conversation's queue. */
  lemma {:induction false} EndingLeavesTheQueue(log: seq<Entry>, k: nat, e: Entry, r: string)
    requires k < |log| && log[k].Live() && !e.Live()
    requires forall j | 0 <= j < |log| && j != k && log[j].LiveFor(log[k].recipient) :: log[j].task.id != log[k].task.id
    ensures LiveIds(log[k := e], r)
         == if r == log[k].recipient then Without(LiveIds(log, r), log[k].task.id) else LiveIds(log, r)
  {
    var n := |log| - 1;
    var id := log[k].task.id;
    if k == n {
      assert log[k := e][..n] == log[..n];
      if r == log[k].recipient {
        LiveIdsAre(log[..n], r, id);
        WithoutAbsent(LiveIds(log[..n], r), id);
        WithoutAppends(LiveIds(log[..n], r), id, id);
      }
    } else {
      EndingLeavesTheQueue(log[..n], k, e, r);
      assert log[k := e][..n] == log[..n][k := e];
      assert log[k := e][n] == log[n];
      var front := LiveIds(log[..n], r);
      assert front + [] == front && Without(front, id) + [] == Without(front, id);
      if r == log[k].recipient && log[n].LiveFor(r) {
        WithoutAppends(LiveIds(log[..n], r), log[n].task.id, id);
      }
    }
  }

  // ---------------------------------------------------------------- queues

  function QueueOf(queues: map<string, seq<string>>, r: string): seq<string> {
    if r in queues then queues[r] else []
  }

  /** Every queue is the live tasks of its conversation, in acceptance order, each exactly once. */
  ghost predicate QueuesMatch(queues: map<string, seq<string>>, log: seq<Entry>) {
    forall r :: QueueOf(queues, r) == LiveIds(log, r)
  }

  lemma OpeningQueues(queues: map<string, seq<string>>, log: seq<Entry>, e: Entry)
    requires QueuesMatch(queues, log) && e.Live()
    ensures QueuesMatch(queues[e.recipient := QueueOf(queues, e.recipient) + [e.task.id]], log + [e])
  {
    var after := queues[e.recipient := QueueOf(queues, e.recipient) + [e.task.id]];
    forall r
      ensures QueueOf(after, r) == LiveIds(log + [e], r)
    {
      assert QueueOf(queues, r) == LiveIds(log, r);
      LiveIdsAppends(log, e, r);
    }
  }

  lemma EndingQueues(queues: map<string, seq<string>>, log: seq<Entry>, k: nat, e: Entry)
    requires QueuesMatch(queues, log) && Distinct(log)
    requires forall i | 0 <= i < |log| :: Coherent(log[i])
    requires k < |log| && log[k].Live() && !e.Live()
    ensures var r, id := log[k].recipient, log[k].task.id;
            QueuesMatch(queues[r := Without(QueueOf(queues, r), id)], log[k := e])
  {
    var r0, id := log[k].recipient, log[k].task.id;
    forall j | 0 <= j < |log| && j != k && log[j].LiveFor(r0)
      ensures log[j].task.id != id
    {
      assert Coherent(log[j]) && Coherent(log[k]);
    }
    var after := queues[r0 := Without(QueueOf(queues, r0), id)];
    forall r
      ensures QueueOf(after, r) == LiveIds(log[k := e], r)
    {
      assert QueueOf(queues, r) == LiveIds(log, r);
      EndingLeavesTheQueue(log, k, e, r);
    }
  }

  lemma SameQueues(queues: map<string, seq<string>>, log: seq<Entry>, after: seq<Entry>)
    requires QueuesMatch(queues, log) && |after| == |log|
    requires forall i | 0 <= i < |log| ::
        && after[i].recipient == log[i].recipient && after[i].endedAt == log[i].endedAt
        && after[i].task.id == log[i].task.id
    ensures QueuesMatch(queues, after)
  {
    forall r
      ensures QueueOf(queues, r) == LiveIds(after, r)
    {
      assert QueueOf(queues, r) == LiveIds(log, r);
      LiveIdsSame(log, after, r);
    }
  }

  // ---------------------------------------------------------------- the dedup index

  function SourceOf(e: Entry): string {
    SourceKey(e.peer, e.messageId)
  }

  ghost predicate Indexed(log: seq<Entry>, key: string, id: string) {
    exists i :: 0 <= i < |log| && log[i].retained && SourceOf(log[i]) == key && log[i].task.id == id
  }

  /** The index is a bijection between the sources of the retained tasks and those tasks. */
  ghost predicate SourcesMatch(bySource: map<string, string>, log: seq<Entry>) {
    && (forall i | 0 <= i < |log| && log[i].retained ::
          SourceOf(log[i]) in bySource && bySource[SourceOf(log[i])] == log[i].task.id)
    && (forall key | key in bySource :: Indexed(log, key, bySource[key]))
  }

  /** A message is in the index if and only if a retained task of that very peer carries its id. */
  lemma {:induction false} SourceFinds(bySource: map<string, string>, log: seq<Entry>, peer: string, messageId: string)
    requires SourcesMatch(bySource, log) && Slug(peer) && forall i | 0 <= i < |log| :: Coherent(log[i])
    ensures var k := Lookup(log, peer, messageId);
            var key := SourceKey(peer, messageId);
            && (key in bySource <==> k < |log|)
            && (key in bySource ==> bySource[key] == log[k].task.id)
  {
    var key := SourceKey(peer, messageId);
    if key in bySource {
      assert Indexed(log, key, bySource[key]);
      var i :| 0 <= i < |log| && log[i].retained && SourceOf(log[i]) == key;
      assert Coherent(log[i]);
      CompositeKeysInjective(log[i].peer, log[i].messageId, peer, messageId);
      assert log[i].From(peer, messageId);
    }
  }

  lemma OpeningSources(bySource: map<string, string>, log: seq<Entry>, e: Entry)
    requires SourcesMatch(bySource, log) && e.retained && SourceOf(e) !in bySource
    ensures SourcesMatch(bySource[SourceOf(e) := e.task.id], log + [e])
  {
    var after := bySource[SourceOf(e) := e.task.id];
    forall key | key in after
      ensures Indexed(log + [e], key, after[key])
    {
      if key == SourceOf(e) {
        assert (log + [e])[|log|] == e;
      } else {
        assert Indexed(log, key, bySource[key]);
        var i :| 0 <= i < |log| && log[i].retained && SourceOf(log[i]) == key && log[i].task.id == bySource[key];
        assert (log + [e])[i] == log[i];
      }
    }
  }

  lemma SameSources(bySource: map<string, string>, log: seq<Entry>, after: seq<Entry>)
    requires SourcesMatch(bySource, log) && |after| == |log|
    requires forall i | 0 <= i < |log| ::
        && after[i].retained == log[i].retained && SourceOf(after[i]) == SourceOf(log[i])
        && after[i].task.id == log[i].task.id
    ensures SourcesMatch(bySource, after)
  {
    forall key | key in bySource
      ensures Indexed(after, key, bySource[key])
    {
      assert Indexed(log, key, bySource[key]);
      var i :| 0 <= i < |log| && log[i].retained && SourceOf(log[i]) == key && log[i].task.id == bySource[key];
      assert SourceOf(after[i]) == key;
    }
  }

  /** Keeping exactly the sources whose task is kept. */
  lemma SweepingSources(bySource: map<string, string>, log: seq<Entry>, now: int, kept: map<string, string>)
    requires SourcesMatch(bySource, log) && Distinct(log)
    requires forall key | key in kept :: key in bySource && kept[key] == bySource[key]
    requires forall i | 0 <= i < |log| && log[i].retained :: SourceOf(log[i]) in kept <==> !log[i].Expired(now)
    ensures SourcesMatch(kept, Swept(log, now))
  {
    var after := Swept(log, now);
    forall i | 0 <= i < |after| && after[i].retained
      ensures SourceOf(after[i]) in kept && kept[SourceOf(after[i])] == after[i].task.id
    {
      assert log[i].retained && SourceOf(after[i]) == SourceOf(log[i]);
    }
    forall key | key in kept
      ensures Indexed(after, key, kept[key])
    {
      assert Indexed(log, key, bySource[key]);
      var i :| 0 <= i < |log| && log[i].retained && SourceOf(log[i]) == key && log[i].task.id == bySource[key];
      assert after[i] == log[i];
    }
  }

  // ---------------------------------------------------------------- what the host was handed

  /** What the channel host is handed for one accepted message. */
  datatype Inbound = Inbound(peerId: string, senderHandle: string, providerMessageId: string, text: string)

  /** The host was handed exactly one message for each accepted task, in the same order. */
  ghost predicate ReceivedMatch(received: seq<Inbound>, log: seq<Entry>) {
    && |received| == |log|
    && forall i | 0 <= i < |received| ::
         && received[i].peerId == log[i].recipient
         && received[i].senderHandle == log[i].peer
         && received[i].providerMessageId == log[i].messageId
  }

  // ---------------------------------------------------------------- the tables across one step

  /** The tables that hold no records, as values. */
  datatype Tables = Tables(queues: map<string, seq<string>>, bySource: map<string, string>, received: seq<Inbound>)

  ghost predicate TablesMatch(t: Tables, log: seq<Entry>) {
    QueuesMatch(t.queues, log) && SourcesMatch(t.bySource, log) && ReceivedMatch(t.received, log)
  }

  function Dequeued(t: Tables, r: string, id: string): Tables {
    t.(queues := t.queues[r := Without(QueueOf(t.queues, r), id)])
  }

  function Enqueued(t: Tables, e: Entry, text: string): Tables {
    Tables(t.queues[e.recipient := QueueOf(t.queues, e.recipient) + [e.task.id]],
           t.bySource[SourceOf(e) := e.task.id],
           t.received + [Inbound(e.recipient, e.peer, e.messageId, text)])
  }

  lemma ReachedEntries(b: Board)
    requires Reached(b)
    ensures Distinct(b.log) && forall i | 0 <= i < |b.log| :: Coherent(b.log[i])
  {
    ReachedInv(b);
  }

  lemma {:induction false} TablesAfterChunk(b: Board, t: Tables, r: string, text: string, now: int, ids: Ids)
    requires TablesMatch(t, b.log) && FirstLive(b.log, r) < |b.log|
    ensures var k := FirstLive(b.log, r);
            var c := Next(b, Chunk(r, text, false, now, ids));
            && c == b.(log := b.log[k := b.log[k].(text := b.log[k].text + text)])
            && TablesMatch(t, c.log)
  {
    var c := Next(b, Chunk(r, text, false, now, ids));
    SameQueues(t.queues, b.log, c.log);
    SameSources(t.bySource, b.log, c.log);
  }

  lemma TablesAfterEnd(b: Board, t: Tables, k: nat, state: TaskState, text: Option<string>, now: int, ids: Ids)
    requires TablesMatch(t, b.log) && Reached(b) && k < |b.log| && b.log[k].Live()
    ensures TablesMatch(Dequeued(t, b.log[k].recipient, b.log[k].task.id), Finish(b, k, state, text, now, ids).log)
  {
    var e := Ended(b.log[k], state, text, now, ids);
    var after := Dequeued(t, b.log[k].recipient, b.log[k].task.id);
    assert QueuesMatch(after.queues, b.log[k := e]) by {
      ReachedEntries(b);
      EndingQueues(t.queues, b.log, k, e);
    }
    SameSources(t.bySource, b.log, b.log[k := e]);
  }

  /** Delivering a chunk is hearing it and, if it is the last, ending the task. */
  lemma {:induction false} TablesAfterDelivery(b: Board, t: Tables, r: string, text: string, last: bool, now: int,
                                               ids: Ids)
    requires TablesMatch(t, b.log) && Reached(b) && FirstLive(b.log, r) < |b.log|
    ensures var k := FirstLive(b.log, r);
            var said := b.log[k].text + text;
            var heard := b.(log := b.log[k := b.log[k].(text := said)]);
            var after := if last then Finish(heard, k, Completed, Some(said), now, ids) else heard;
            && after == Next(b, Chunk(r, text, last, now, ids)) && Reached(after)
            && TablesMatch(if last then Dequeued(t, r, b.log[k].task.id) else t, after.log)
  {
    ReachedNext(b, Chunk(r, text, last, now, ids));
    TablesAfterChunk(b, t, r, text, now, ids);
    if last {
      var k := FirstLive(b.log, r);
      var heard := b.(log := b.log[k := b.log[k].(text := b.log[k].text + text)]);
      ReachedNext(b, Chunk(r, text, false, now, ids));
      TablesAfterEnd(heard, t, k, Completed, Some(heard.log[k].text), now, ids);
    }
  }

  lemma TablesAfterAsk(b: Board, t: Tables, k: nat, token: nat)
    requires TablesMatch(t, b.log) && k < |b.log|
    ensures TablesMatch(t, Ask(b, k, token).log)
  {
    SameQueues(t.queues, b.log, Ask(b, k, token).log);
    SameSources(t.bySource, b.log, Ask(b, k, token).log);
  }

  lemma TablesAfterOpening(log: seq<Entry>, t: Tables, e: Entry, text: string)
    requires TablesMatch(t, log) && e.Live() && e.retained && SourceOf(e) !in t.bySource
    ensures TablesMatch(Enqueued(t, e, text), log + [e])
  {
    OpeningQueues(t.queues, log, e);
    OpeningSources(t.bySource, log, e);
  }

  /** Dropping from the index exactly the sources of the tasks that are dropped. */
  lemma TablesAfterSweep(b: Board, t: Tables, now: int, kept: map<string, string>)
    requires TablesMatch(t, b.log) && Reached(b)
    requires forall key | key in kept :: key in t.bySource && kept[key] == t.bySource[key]
    requires forall i | 0 <= i < |b.log| && b.log[i].retained ::
        SourceOf(b.log[i]) in kept <==> !b.log[i].Expired(now)
    ensures TablesMatch(t.(bySource := kept), Swept(b.log, now))
  {
    ReachedEntries(b);
    SameQueues(t.queues, b.log, Swept(b.log, now));
    SweepingSources(t.bySource, b.log, now, kept);
  }
}

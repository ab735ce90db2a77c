/**
 * The A2A task server: its four tables, updated in place. Every method is proved to be one step of
 * the task log of TaskLog.dfy, and the tables to be exact views of that log after every step.
 * Source: packages/channel-a2a/src/server.ts.
 */
module A2AServer {
  import opened Prelude
  import opened PeerConfig
  import opened TaskLog
  import opened TaskTables
  import opened RateLimit

  datatype RpcError = RpcError(code: int, status: nat)

  const INVALID_REQUEST := -32600
  const INVALID_PARAMS := -32602
  const TASK_NOT_FOUND := -32001
  const UNSUPPORTED_OPERATION := -32004
  const CONTENT_TYPE_NOT_SUPPORTED := -32005

  /** The parts of an event of the runtime that the server looks at. */
  datatype Event = Event(turnEnd: bool, agentId: string, sessionKey: Option<string>, reason: Option<string>)

  /** The identifiers drawn at random while a message is accepted. */
  datatype Draws = Draws(messageId: string, contextId: string, taskId: string)

  class TaskRecord {
    var task: Task
    const peer: string
    const recipient: string
    const messageId: string
    var text: string
    var endedAt: Option<int>
    var waiters: seq<nat>

    function Source(): string {
      SourceKey(peer, messageId)
    }

    predicate Expired(now: int)
      reads this
    {
      endedAt.Some? && endedAt.value < now - RETAIN_MS
    }

    constructor (task: Task, peer: string, recipient: string, messageId: string)
      ensures this.task == task && this.peer == peer && this.recipient == recipient
      ensures this.messageId == messageId && text == "" && endedAt == None && waiters == []
    {
      this.task := task;
      this.peer := peer;
      this.recipient := recipient;
      this.messageId := messageId;
      text, endedAt, waiters := "", None, [];
    }

    /** Give the task its final state, and release the callers that wait on it. */
    method End(state: TaskState, text: Option<string>, now: int, ids: Ids) returns (released: seq<nat>)
      modifies this
      ensures task == EndedTask(old(task), state, text, now, ids)
      ensures endedAt == Some(now) && waiters == [] && this.text == old(this.text)
      ensures released == old(waiters)
    {
      var reply := if text.None? || text.value == "" then None
                   else Some(Message(ids.reply, text.value, task.contextId, task.id));
      task := task.(
        state := state,
        message := reply,
        timestamp := now,
        artifacts := if reply.None? || state != Completed then [] else [Artifact(ids.artifact, reply.value.text)]);
      endedAt := Some(now);
      released := waiters;
      waiters := [];
    }
  }

  function JoinLines(parts: seq<string>): string {
    if |parts| == 0 then ""
    else if |parts| == 1 then parts[0]
    else parts[0] + "\n" + JoinLines(parts[1..])
  }

  /** The text of a message, or why it is refused; `None` is a part that carries no text. */
  function TextOfParts(parts: seq<Option<string>>, maxChars: nat): Result<string, RpcError> {
    if parts == [] then Err(RpcError(INVALID_PARAMS, 200))
    else if exists p :: p in parts && p.None? then Err(RpcError(CONTENT_TYPE_NOT_SUPPORTED, 200))
    else
      var text := JoinLines(seq(|parts|, i requires 0 <= i < |parts| =>
        if parts[i].Some? then parts[i].value else ""));
      if |text| > maxChars then Err(RpcError(INVALID_PARAMS, 200)) else Ok(text)
  }

  predicate ContextChar(c: char) {
    'A' <= c <= 'Z' || 'a' <= c <= 'z' || '0' <= c <= '9' || c == '.' || c == '_' || c == '-'
  }

  predicate UsableContext(context: Option<string>) {
    && context.Some?
    && 1 <= |context.value| <= 128
    && forall i | 0 <= i < |context.value| :: ContextChar(context.value[i])
  }

  /** A configuration names each peer once: the names are the keys of one object. */
  ghost predicate NamesOnce(peers: seq<Peer>) {
    forall p, q | p in peers && q in peers :: p.name == q.name ==> p == q
  }

  function CallsOf(calls: map<string, seq<int>>, p: string): seq<int> {
    if p in calls then calls[p] else []
  }

  /** The pruned lists, the accepted calls and the times of all calls, peer by peer. */
  datatype Limits = Limits(calls: map<string, seq<int>>, log: map<string, seq<int>>, times: map<string, seq<int>>)

  function LimiterIn(l: Limits, p: string): Limiter {
    Limiter(CallsOf(l.calls, p), CallsOf(l.log, p))
  }

  ghost predicate Serves(l: Limits, peer: Peer) {
    LimiterIn(l, peer.name) == Serve(peer.ratePerMinute, CallsOf(l.times, peer.name))
  }

  ghost predicate UpTo(times: seq<int>, clock: int) {
    forall k | 0 <= k < |times| :: times[k] <= clock
  }

  /** The limits after one call. */
  function Called(l: Limits, peer: Peer, now: int): Limits {
    var p, next := peer.name, Call(LimiterIn(l, peer.name), peer.ratePerMinute, now);
    Limits(l.calls[p := next.calls], l.log[p := next.log], l.times[p := CallsOf(l.times, p) + [now]])
  }

  /** A call moves its own peer's limiter by one step, and no other peer's. */
  lemma CalledIs(l: Limits, peer: Peer, now: int, p: string)
    ensures LimiterIn(Called(l, peer, now), p)
         == if p == peer.name then Call(LimiterIn(l, p), peer.ratePerMinute, now) else LimiterIn(l, p)
    ensures CallsOf(Called(l, peer, now).times, p)
         == if p == peer.name then CallsOf(l.times, p) + [now] else CallsOf(l.times, p)
  {}

  ghost predicate LimitsHold(peers: seq<Peer>, l: Limits, clock: int) {
    && (forall peer | peer in peers :: Serves(l, peer))
    && (forall p :: UpTo(CallsOf(l.times, p), clock))
  }

  lemma CalledServes(l: Limits, peer: Peer, now: int, other: Peer)
    requires Serves(l, peer) && Serves(l, other) && (peer.name == other.name ==> peer == other)
    ensures Serves(Called(l, peer, now), other)
  {
    var times := CallsOf(l.times, peer.name);
    assert (times + [now])[..|times|] == times;
  }

  lemma CalledUpTo(l: Limits, peer: Peer, now: int, clock: int, p: string)
    requires UpTo(CallsOf(l.times, p), clock)
    ensures UpTo(CallsOf(Called(l, peer, now).times, p), if clock < now then now else clock)
  {}

  lemma LimitsHoldOn(peers: seq<Peer>, l: Limits, clock: int, peer: Peer, now: int)
    requires LimitsHold(peers, l, clock) && peer in peers && NamesOnce(peers)
    ensures LimitsHold(peers, Called(l, peer, now), if clock < now then now else clock)
  {
    forall other | other in peers
      ensures Serves(Called(l, peer, now), other)
    {
      CalledServes(l, peer, now, other);
    }
    forall p
      ensures UpTo(CallsOf(Called(l, peer, now).times, p), if clock < now then now else clock)
    {
      CalledUpTo(l, peer, now, clock, p);
    }
  }

  /** How a call is decided, as `AcceptsExactly` says it of the peer's limiter. */
  lemma {:induction false} Decides(peers: seq<Peer>, l: Limits, clock: int, peer: Peer, now: int)
    requires LimitsHold(peers, l, clock) && peer in peers
    ensures var rate, recent := peer.ratePerMinute, |Recent(CallsOf(l.log, peer.name), now)|;
            && (Accepts(LimiterIn(l, peer.name), rate, now)
                <==> recent < rate + Lost(rate, CallsOf(l.times, peer.name), now))
            && (clock <= now ==> (Accepts(LimiterIn(l, peer.name), rate, now) <==> recent < rate))
  {
    assert Serves(l, peer) && UpTo(CallsOf(l.times, peer.name), clock);
    AcceptsExactly(peer.ratePerMinute, CallsOf(l.times, peer.name), now);
    if clock <= now {
      AcceptsUnderForwardClock(peer.ratePerMinute, CallsOf(l.times, peer.name), now);
    }
  }

  class A2AServer {
    const agentId: string
    const peers: seq<Peer>
    var host: bool
    var tasks: map<string, TaskRecord>
    var queues: map<string, seq<string>>
    var bySource: map<string, string>
    var calls: map<string, seq<int>>
    /** The promises of blocking callers that have settled. */
    var answers: map<nat, Task>

    /** The task log that the tables stand for, and the record of each of its entries. */
    ghost var board: Board
    ghost var accepted: seq<TaskRecord>
    /** Everything the host was handed, every call ever accepted, and the times of every call ever made. */
    ghost var received: seq<Inbound>
    ghost var callLog: map<string, seq<int>>
    ghost var callTimes: map<string, seq<int>>
    ghost var callClock: int

    ghost function View(record: TaskRecord): Entry
      reads this`tasks, record
    {
      Entry(record.task, record.peer, record.recipient, record.messageId, record.text, record.endedAt,
            record.waiters, record.task.id in tasks && tasks[record.task.id] == record)
    }

    /** The records are the entries of the log, one object each; the task map holds the retained ones. */
    ghost predicate TasksMatch()
      reads this`tasks, this`answers, this`board, this`accepted, accepted
    {
      && |board.log| == |accepted|
      && (forall i, j | 0 <= i < j < |accepted| :: accepted[i] != accepted[j])
      && (forall i | 0 <= i < |accepted| :: board.log[i] == View(accepted[i]))
      && (forall id | id in tasks :: tasks[id] in accepted && tasks[id].task.id == id)
      && board.answers == answers
    }

    ghost function Held(): Tables
      reads this`queues, this`bySource, this`received
    {
      Tables(queues, bySource, received)
    }

    /** The tables are exact views of a log that some run of the protocol has produced. */
    ghost predicate Valid()
      reads this`tasks, this`queues, this`bySource, this`answers, this`board, this`accepted, this`received, accepted
    {
      TasksMatch() && TablesMatch(Held(), board.log) && Reached(board)
    }

    ghost function AllLimits(): Limits
      reads this`calls, this`callLog, this`callTimes
    {
      Limits(calls, callLog, callTimes)
    }

    ghost function LimiterOf(p: string): Limiter
      reads this`calls, this`callLog, this`callTimes
    {
      LimiterIn(AllLimits(), p)
    }

    ghost function TimesOf(p: string): seq<int>
      reads this`callTimes
    {
      CallsOf(callTimes, p)
    }

    /** Each peer's list and log are those of a limiter that served its calls at its own rate. */
    ghost predicate LimitsMatch()
      reads this`calls, this`callLog, this`callTimes, this`callClock
    {
      LimitsHold(peers, AllLimits(), callClock)
    }

    constructor (agentId: string, peers: seq<Peer>)
      ensures Valid() && LimitsMatch() && board == NOTHING && received == [] && !host
      ensures this.peers == peers && forall p :: TimesOf(p) == []
    {
      this.agentId := agentId;
      this.peers := peers;
      host := false;
      tasks, queues, bySource, calls, answers := map[], map[], map[], map[], map[];
      board, accepted, received, callLog, callTimes, callClock := NOTHING, [], [], map[], map[], 0;
      new;
      NothingReached();
    }

    method Connect()
      modifies this`host
      ensures host
    {
      host := true;
    }

    method Disconnect()
      modifies this`host
      ensures !host
    {
      host := false;
    }

    /** The task at the front of a conversation's queue is its oldest live task. */
    method Head(r: string) returns (record: TaskRecord?)
      requires Valid()
      ensures var k := FirstLive(board.log, r);
              if k == |accepted| then record == null
              else record == accepted[k] && board.log[k] == View(accepted[k])
    {
      ReachedInv(board);
      assert QueueOf(queues, r) == LiveIds(board.log, r);
      HeadIsFirstLive(board.log, r);
      ghost var k := FirstLive(board.log, r);
      assert k < |accepted| ==> Coherent(board.log[k]) && board.log[k] == View(accepted[k]);
      var queue := QueueOf(queues, r);
      record := if queue == [] || queue[0] !in tasks then null else tasks[queue[0]];
    }

    /** Settle every caller that waits on a task; a promise settles once. */
    method WakeAll(waiters: seq<nat>, task: Task)
      modifies this`answers
      ensures answers == Wake(old(answers), waiters, task)
    {
      for n := 0 to |waiters|
        invariant answers == Wake(old(answers), waiters[..n], task)
      {
        assert waiters[..n + 1] == waiters[..n] + [waiters[n]];
        WakeNext(old(answers), waiters[..n], waiters[n], task);
        if waiters[n] !in answers {
          answers := answers[waiters[n] := task];
        }
      }
      assert waiters[..|waiters|] == waiters;
    }

    /** The log after a step is the log of a run. */
    lemma Advance(step: Step)
      requires Valid() && Enabled(board, step)
      ensures Reached(Next(board, step))
    {
      ReachedNext(board, step);
    }

    /** Changing one record, but not its id, changes its own entry of the log and no other. */
    twostate lemma RecordChanged(k: nat)
      requires old(TasksMatch()) && k < |accepted| && accepted == old(accepted) && tasks == old(tasks)
      requires forall i | 0 <= i < |accepted| && i != k :: unchanged(accepted[i])
      requires accepted[k].task.id == old(accepted[k].task.id)
      requires board.log == old(board).log[k := View(accepted[k])] && board.answers == answers
      ensures TasksMatch()
    {}

    // ------------------------------------------------------------ replies and turn ends

    /** The source's `#finish`: the record, its queue, and the callers that wait on it. */
    method Close(record: TaskRecord, state: TaskState, text: Option<string>, now: int, ids: Ids)
      requires record.endedAt.None?
      modifies this`queues, this`answers, record
      ensures View(record) == Ended(old(View(record)), state, text, now, ids)
      ensures queues == old(queues)[record.recipient :=
                          Without(QueueOf(old(queues), record.recipient), old(record.task.id))]
      ensures answers == Wake(old(answers), old(record.waiters), record.task)
    {
      var released := record.End(state, text, now, ids);
      queues := queues[record.recipient := Without(QueueOf(queues, record.recipient), record.task.id)];
      WakeAll(released, record.task);
    }

    /** Ending a live task is one change of the log, and the tables follow it. */
    method Finish(record: TaskRecord, state: TaskState, text: Option<string>, now: int, ids: Ids,
                  ghost k: nat, ghost after: Board)
      requires TasksMatch() && k < |accepted| && accepted[k] == record && record.endedAt.None?
      requires after == TaskLog.Finish(board, k, state, text, now, ids)
      modifies this`queues, this`answers, this`board, record
      ensures TasksMatch() && board == after
      ensures Held() == Dequeued(old(Held()), record.recipient, old(record.task.id))
    {
      assert board.log[k] == View(record);
      Close(record, state, text, now, ids);
      board := after;
      RecordChanged(k);
    }

    /** One more chunk for a live task. */
    method Hear(record: TaskRecord, text: string, ghost k: nat, ghost after: Board)
      requires TasksMatch() && k < |accepted| && accepted[k] == record
      requires after == board.(log := board.log[k := board.log[k].(text := board.log[k].text + text)])
      modifies this`board, record
      ensures TasksMatch() && board == after
      ensures record.text == old(record.text) + text && record.endedAt == old(record.endedAt)
      ensures record.task == old(record.task)
    {
      assert board.log[k] == View(record);
      record.text := record.text + text;
      board := after;
      RecordChanged(k);
    }

    /** The outbox delivers one chunk of a reply; the last chunk completes the task at the front. */
    method Deliver(recipient: string, text: string, chunkIndex: nat, chunkTotal: nat, now: int, ids: Ids)
      returns (providerMessageId: Option<string>)
      requires Valid()
      modifies this`queues, this`answers, this`board, accepted
      ensures Valid()
      ensures board == Next(old(board), Chunk(recipient, text, chunkIndex + 1 >= chunkTotal, now, ids))
      ensures var k := FirstLive(old(board).log, recipient);
              providerMessageId == if k == |accepted| then None else Some(old(board).log[k].task.id)
    {
      ghost var k := FirstLive(board.log, recipient);
      var record := Head(recipient);
      if record == null {
        return None;
      }
      providerMessageId := Some(record.task.id);
      TablesAfterDelivery(board, Held(), recipient, text, chunkIndex + 1 >= chunkTotal, now, ids);
      ghost var said := board.log[k].text + text;
      ghost var heard := board.(log := board.log[k := board.log[k].(text := said)]);
      Hear(record, text, k, heard);
      if chunkIndex + 1 >= chunkTotal {
        Finish(record, Completed, Some(record.text), now, ids, k,
               TaskLog.Finish(heard, k, Completed, Some(said), now, ids));
      }
    }

    /** A turn of this agent ended; for a turn that may still deliver, a quiet timer is set on the head. */
    method Observe(event: Event, now: int, ids: Ids) returns (timer: TaskRecord?)
      requires Valid()
      modifies this`queues, this`answers, this`board, accepted
      ensures Valid()
      ensures var mine := event.turnEnd && event.agentId == agentId
                          && event.sessionKey.Some? && "a2a:" <= event.sessionKey.value;
              if !mine then board == old(board) && timer == null
              else
                var r := event.sessionKey.value[4..];
                var k := FirstLive(old(board).log, r);
                if event.reason == Some("final") || event.reason == Some("stopped") then
                  board == old(board) && (if k == |accepted| then timer == null else timer == accepted[k])
                else
                  && timer == null
                  && board == Next(old(board),
                       TurnFailed(r, if event.reason.Some? then event.reason.value else "unknown", now, ids))
    {
      if !event.turnEnd || event.agentId != agentId {
        return null;
      }
      if event.sessionKey.None? || !("a2a:" <= event.sessionKey.value) {
        return null;
      }
      var recipient := event.sessionKey.value[4..];
      var record := Head(recipient);
      if event.reason != Some("final") && event.reason != Some("stopped") {
        if record != null {
          FailTurn(record, if event.reason.Some? then event.reason.value else "unknown", now, ids,
                   FirstLive(board.log, recipient));
        }
        return null;
      }
      return record;
    }

    method FailTurn(record: TaskRecord, reason: string, now: int, ids: Ids, ghost k: nat)
      requires Valid() && k < |accepted| && accepted[k] == record
      requires record.endedAt.None? && FirstLive(board.log, record.recipient) == k
      modifies this`queues, this`answers, this`board, record
      ensures Valid()
      ensures board == Next(old(board), TurnFailed(record.recipient, reason, now, ids))
    {
      assert board.log[k] == View(record);
      Advance(TurnFailed(record.recipient, reason, now, ids));
      var text := Some("The turn ended: " + reason + ".");
      TablesAfterEnd(board, Held(), k, Failed, text, now, ids);
      Finish(record, Failed, text, now, ids, k, TaskLog.Finish(board, k, Failed, text, now, ids));
    }

    /** The quiet timer set on a task runs, at any later moment. */
    method TimerFires(pending: TaskRecord, now: int, ids: Ids, ghost k: nat)
      requires Valid() && k < |accepted| && accepted[k] == pending
      modifies this`queues, this`answers, this`board, pending
      ensures Valid()
      ensures board == Next(old(board), QuietTimer(k, now, ids))
    {
      var head := Head(pending.recipient);
      assert board.log[k] == View(pending);
      if pending.endedAt.None? && head == pending {
        Advance(QuietTimer(k, now, ids));
        TablesAfterEnd(board, Held(), k, Completed, None, now, ids);
        Finish(pending, Completed, None, now, ids, k, TaskLog.Finish(board, k, Completed, None, now, ids));
      }
    }

    // ------------------------------------------------------------ blocking callers

    /** The source's `#settled`: an ended task answers at once, a live one takes the caller in. */
    method AddWaiter(record: TaskRecord, token: nat, ghost k: nat)
      requires TasksMatch() && k < |accepted| && accepted[k] == record
      modifies this`answers, this`board, record
      ensures TasksMatch() && board == Ask(old(board), k, token)
    {
      assert board.log[k] == View(record);
      if record.endedAt.Some? {
        answers := answers[token := record.task];
      } else {
        record.waiters := record.waiters + [token];
      }
      board := Ask(board, k, token);
      RecordChanged(k);
    }

    /** A blocking caller asks to be told when a task ends. */
    method Settle(record: TaskRecord, token: nat, ghost k: nat)
      requires Valid() && k < |accepted| && accepted[k] == record && token !in board.asked
      modifies this`answers, this`board, record
      ensures Valid()
      ensures board == Next(old(board), Wait(k, token))
    {
      Advance(Wait(k, token));
      TablesAfterAsk(board, Held(), k, token);
      AddWaiter(record, token, k);
    }

    /** A blocking caller's own wait runs out: it is answered with the task as it stands. */
    method WaitExpires(record: TaskRecord, token: nat)
      requires Valid() && token in board.asked && board.asked[token] < |accepted|
      requires accepted[board.asked[token]] == record
      modifies this`answers, this`board
      ensures Valid()
      ensures board == Next(old(board), Timeout(token))
    {
      assert board.log[board.asked[token]] == View(record);
      Advance(Timeout(token));
      if token !in answers {
        answers := answers[token := record.task];
      }
      board := GiveUp(board, token);
    }

    // ------------------------------------------------------------ eviction

    /** One task is forgotten, with its dedup entry. */
    method Forget(id: string)
      requires id in tasks
      modifies this`tasks, this`bySource
      ensures tasks == old(tasks) - {id}
      ensures bySource == old(bySource) - {old(tasks)[id].Source()}
    {
      var record := tasks[id];
      tasks := tasks - {id};
      bySource := bySource - {record.Source()};
    }

    /** The dedup index, seen from the task map. */
    lemma SourcesOfTasks()
      requires TasksMatch() && SourcesMatch(bySource, board.log)
      ensures forall id | id in tasks :: tasks[id].Source() in bySource && bySource[tasks[id].Source()] == id
    {
      forall id | id in tasks
        ensures tasks[id].Source() in bySource && bySource[tasks[id].Source()] == id
      {
        var i :| 0 <= i < |accepted| && accepted[i] == tasks[id];
        assert board.log[i] == View(accepted[i]);
      }
    }

    /** Delete every expired task; the two maps lose the same tasks. */
    method Drop(now: int)
      requires forall id | id in tasks :: tasks[id].Source() in bySource && bySource[tasks[id].Source()] == id
      modifies this`tasks, this`bySource
      ensures forall id :: id in tasks <==> id in old(tasks) && !old(tasks)[id].Expired(now)
      ensures forall id | id in tasks :: tasks[id] == old(tasks)[id]
      ensures forall key | key in bySource :: key in old(bySource) && bySource[key] == old(bySource)[key]
      ensures forall id | id in old(tasks) :: old(tasks)[id].Source() in bySource <==> id in tasks
    {
      var todo := tasks.Keys;
      while todo != {}
        invariant todo <= tasks.Keys
        invariant forall id :: id in tasks <==> id in old(tasks) && (id in todo || !old(tasks)[id].Expired(now))
        invariant forall id | id in tasks :: tasks[id] == old(tasks)[id]
        invariant forall key | key in bySource :: key in old(bySource) && bySource[key] == old(bySource)[key]
        invariant forall id | id in old(tasks) :: old(tasks)[id].Source() in bySource <==> id in tasks
        decreases todo
      {
        var id :| id in todo;
        todo := todo - {id};
        if tasks[id].Expired(now) {
          Forget(id);
        }
      }
    }

    /** Deleting the expired tasks unmarks exactly the swept entries. */
    twostate lemma TasksSwept(now: int)
      requires old(TasksMatch()) && accepted == old(accepted) && board.answers == answers
      requires forall i | 0 <= i < |accepted| :: unchanged(accepted[i])
      requires forall id :: id in tasks <==> id in old(tasks) && !old(tasks)[id].Expired(now)
      requires forall id | id in tasks :: tasks[id] == old(tasks)[id]
      requires board.log == Swept(old(board).log, now)
      ensures TasksMatch()
    {
      forall i | 0 <= i < |accepted|
        ensures board.log[i] == View(accepted[i])
      {
        assert old(board).log[i] == old(View(accepted[i]));
      }
    }

    /** The index keeps exactly the sources of the entries that are not swept. */
    twostate lemma SourcesSwept(now: int)
      requires old(TasksMatch()) && accepted == old(accepted)
      requires forall i | 0 <= i < |accepted| :: unchanged(accepted[i])
      requires forall id :: id in tasks <==> id in old(tasks) && !old(tasks)[id].Expired(now)
      requires forall id | id in old(tasks) :: old(tasks)[id].Source() in bySource <==> id in tasks
      ensures forall i | 0 <= i < |old(board).log| && old(board).log[i].retained ::
                SourceOf(old(board).log[i]) in bySource <==> !old(board).log[i].Expired(now)
    {
      forall i | 0 <= i < |old(board).log| && old(board).log[i].retained
        ensures SourceOf(old(board).log[i]) in bySource <==> !old(board).log[i].Expired(now)
      {
        assert old(board).log[i] == old(View(accepted[i]));
        assert old(tasks)[accepted[i].task.id] == accepted[i];
        assert SourceOf(old(board).log[i]) == accepted[i].Source();
      }
    }

    /** The source's `#evict`: the two maps lose the expired tasks, and the log's marks follow. */
    method Discard(now: int)
      requires TasksMatch()
      requires forall id | id in tasks :: tasks[id].Source() in bySource && bySource[tasks[id].Source()] == id
      modifies this`tasks, this`bySource, this`board
      ensures TasksMatch() && board == Sweep(old(board), now)
      ensures forall id :: id in tasks <==> id in old(tasks) && !old(tasks)[id].Expired(now)
      ensures forall key | key in bySource :: key in old(bySource) && bySource[key] == old(bySource)[key]
      ensures forall i | 0 <= i < |old(board).log| && old(board).log[i].retained ::
                SourceOf(old(board).log[i]) in bySource <==> !old(board).log[i].Expired(now)
    {
      Drop(now);
      board := Sweep(board, now);
      TasksSwept(now);
      SourcesSwept(now);
    }

    /** Tasks that ended more than an hour ago are forgotten, and only those. */
    method Evict(now: int)
      requires Valid()
      modifies this`tasks, this`bySource, this`board
      ensures Valid()
      ensures board == Next(old(board), TaskLog.Evict(now))
      ensures tasks.Keys <= old(tasks).Keys
    {
      Advance(TaskLog.Evict(now));
      ghost var before, held := board, Held();
      SourcesOfTasks();
      Discard(now);
      TablesAfterSweep(before, held, now, bySource);
      assert Held() == held.(bySource := bySource);
    }

    // ------------------------------------------------------------ accepting and finding tasks

    /** A fresh record becomes the last entry of the log. */
    twostate lemma RecordAdded(new record: TaskRecord)
      requires old(TasksMatch()) && record !in old(accepted) && accepted == old(accepted) + [record]
      requires forall i | 0 <= i < |old(accepted)| :: unchanged(old(accepted)[i])
      requires record.task.id !in old(tasks) && tasks == old(tasks)[record.task.id := record]
      requires board.log == old(board).log + [View(record)] && board.answers == answers
      ensures TasksMatch()
    {
      forall i | 0 <= i < |accepted|
        ensures board.log[i] == View(accepted[i])
      {
        if i < |old(accepted)| {
          assert old(board).log[i] == old(View(accepted[i]));
        }
      }
    }

    /** A fresh record enters the task map, the dedup index and its queue, and the host hears of it. */
    method Enter(peer: string, messageId: string, contextId: string, text: string, now: int, taskId: string)
      returns (record: TaskRecord)
      requires TasksMatch() && taskId !in tasks
      modifies this`tasks, this`bySource, this`queues, this`accepted, this`received, this`board
      ensures TasksMatch() && fresh(record) && accepted == old(accepted) + [record]
      ensures var e := Opened(Accept(taskId, peer, contextId, messageId, now));
              && board == old(board).(log := old(board).log + [e])
              && Held() == Enqueued(old(Held()), e, text)
    {
      var recipient := Recipient(peer, contextId);
      record := new TaskRecord(Task(taskId, contextId, Working, None, now, []), peer, recipient, messageId);
      tasks := tasks[taskId := record];
      bySource := bySource[record.Source() := taskId];
      queues := queues[recipient := QueueOf(queues, recipient) + [taskId]];
      received := received + [Inbound(recipient, peer, messageId, text)];
      accepted := accepted + [record];
      board := board.(log := board.log + [View(record)]);
      assert View(record) == Opened(Accept(taskId, peer, contextId, messageId, now));
      RecordAdded(record);
    }

    /** A message that no retained task stands for becomes a task, and the host hears of it once. */
    method Open(peer: string, messageId: string, contextId: string, text: string, now: int, taskId: string)
      returns (record: TaskRecord)
      requires Valid() && taskId !in tasks && SourceKey(peer, messageId) !in bySource
      requires Enabled(board, Accept(taskId, peer, contextId, messageId, now))
      modifies this`tasks, this`bySource, this`queues, this`accepted, this`received, this`board
      ensures Valid() && fresh(record) && accepted == old(accepted) + [record]
      ensures board == Next(old(board), Accept(taskId, peer, contextId, messageId, now))
      ensures received == old(received) + [Inbound(Recipient(peer, contextId), peer, messageId, text)]
    {
      ghost var step := Accept(taskId, peer, contextId, messageId, now);
      Advance(step);
      TablesAfterOpening(board.log, Held(), Opened(step), text);
      record := Enter(peer, messageId, contextId, text, now, taskId);
    }

    /** The dedup lookup: the retained task of this very peer that carries this message id, if any. */
    method Find(peer: string, messageId: string) returns (record: TaskRecord?)
      requires Valid() && Slug(peer)
      ensures var k := Lookup(board.log, peer, messageId);
              if k == |accepted| then record == null && SourceKey(peer, messageId) !in bySource
              else record == accepted[k] && View(accepted[k]) == board.log[k]
    {
      ReachedEntries(board);
      SourceFinds(bySource, board.log, peer, messageId);
      ghost var k := Lookup(board.log, peer, messageId);
      assert k < |accepted| ==> board.log[k] == View(accepted[k]);
      var key := SourceKey(peer, messageId);
      record := if key in bySource && bySource[key] in tasks then tasks[bySource[key]] else null;
    }

    /** A retained task is in the task map, under its own id. */
    lemma RetainedAreHeld()
      requires TasksMatch()
      ensures forall e | e in board.log && e.retained :: e.task.id in tasks && tasks[e.task.id].peer == e.peer
    {
      forall e | e in board.log && e.retained
        ensures e.task.id in tasks && tasks[e.task.id].peer == e.peer
      {
        var i :| 0 <= i < |accepted| && board.log[i] == e;
        assert board.log[i] == View(accepted[i]);
      }
    }

    /** A message, once the expired tasks are gone: refused, known, or a new task. */
    method Admit(peer: Peer, text: Result<string, RpcError>, source: string, contextId: string,
                 now: int, taskId: string)
      returns (r: Result<TaskRecord, RpcError>)
      requires Valid() && Slug(peer.name) && taskId !in tasks
      modifies this`tasks, this`bySource, this`queues, this`accepted, this`received, this`board
      ensures Valid()
      ensures r.Ok? ==> r.value in accepted && r.value.peer == peer.name && View(r.value).retained
      ensures
        var k := Lookup(old(board).log, peer.name, source);
        if text.Err? || k < |old(accepted)| || !host then
          && board == old(board) && accepted == old(accepted) && received == old(received)
          && r == (if text.Err? then Err(text.error)
                   else if k < |old(accepted)| then Ok(old(accepted)[k])
                   else Err(RpcError(UNSUPPORTED_OPERATION, 503)))
        else
          var step := Accept(taskId, peer.name, contextId, source, now);
          && Enabled(old(board), step) && board == Next(old(board), step)
          && r.Ok? && accepted == old(accepted) + [r.value]
          && received == old(received)
               + [Inbound(Recipient(peer.name, contextId), peer.name, source, text.value)]
    {
      if text.Err? {
        return Err(text.error);
      }
      var existing := Find(peer.name, source);
      if existing != null {
        return Ok(existing);
      }
      if !host {
        return Err(RpcError(UNSUPPORTED_OPERATION, 503));
      }
      RetainedAreHeld();
      var record := Open(peer.name, source, contextId, text.value, now, taskId);
      assert board.log[|accepted| - 1] == View(record);
      return Ok(record);
    }

    /**
     * SendMessage, up to the task it stands for: a resend of a retained message is the same task, and
     * anything else that is not refused is a new one. The task returned is always the caller's own.
     */
    method Start(peer: Peer, parts: seq<Option<string>>, messageId: Option<string>, context: Option<string>,
                 now: int, draws: Draws)
      returns (r: Result<TaskRecord, RpcError>)
      requires Valid() && Slug(peer.name) && draws.taskId !in tasks
      modifies this`tasks, this`bySource, this`queues, this`accepted, this`received, this`board
      ensures Valid()
      ensures r.Ok? ==> r.value in accepted && r.value.peer == peer.name && View(r.value).retained
      ensures
        var b := Next(old(board), TaskLog.Evict(now));
        var source := if messageId.Some? && messageId.value != "" then messageId.value else draws.messageId;
        var contextId := if UsableContext(context) then context.value else draws.contextId;
        var k := Lookup(b.log, peer.name, source);
        var text := TextOfParts(parts, peer.maxChars);
        if text.Err? || k < |old(accepted)| || !host then
          && board == b && accepted == old(accepted) && received == old(received)
          && r == (if text.Err? then Err(text.error)
                   else if k < |old(accepted)| then Ok(old(accepted)[k])
                   else Err(RpcError(UNSUPPORTED_OPERATION, 503)))
        else
          var step := Accept(draws.taskId, peer.name, contextId, source, now);
          && Enabled(b, step) && board == Next(b, step)
          && r.Ok? && accepted == old(accepted) + [r.value]
          && received == old(received)
               + [Inbound(Recipient(peer.name, contextId), peer.name, source, text.value)]
    {
      Evict(now);
      var text := TextOfParts(parts, peer.maxChars);
      var source := if messageId.Some? && messageId.value != "" then messageId.value else draws.messageId;
      var contextId := if UsableContext(context) then context.value else draws.contextId;
      r := Admit(peer, text, source, contextId, now, draws.taskId);
    }

    /** GetTask: a peer reaches its own retained tasks and no others. */
    method Owned(peer: Peer, id: Option<string>, now: int) returns (r: Result<TaskRecord, RpcError>)
      requires Valid()
      modifies this`tasks, this`bySource, this`board
      ensures Valid()
      ensures board == Next(old(board), TaskLog.Evict(now))
      ensures r.Ok? ==> exists k :: 0 <= k < |accepted| && accepted[k] == r.value && board.log[k].retained
                                    && id == Some(board.log[k].task.id) && board.log[k].peer == peer.name
      ensures r.Err? ==> r.error == RpcError(TASK_NOT_FOUND, 200)
                         && forall e | e in board.log :: !(e.retained && id == Some(e.task.id) && e.peer == peer.name)
    {
      Evict(now);
      RetainedAreHeld();
      if id.Some? && id.value in tasks && tasks[id.value].peer == peer.name {
        r := Ok(tasks[id.value]);
        ghost var k :| 0 <= k < |accepted| && accepted[k] == r.value;
        assert board.log[k] == View(r.value);
      } else {
        r := Err(RpcError(TASK_NOT_FOUND, 200));
      }
    }

    // ------------------------------------------------------------ the rate limit

    /**
     * One call of a peer, accepted or refused; no other peer's allowance is touched. It is decided as the full
     * log of the peer's accepted calls decides it, up to those that a clock set back made the list lose.
     */
    method Limit(peer: Peer, now: int) returns (refused: Option<RpcError>)
      requires LimitsMatch() && peer in peers && NamesOnce(peers)
      modifies this`calls, this`callLog, this`callTimes, this`callClock
      ensures LimitsMatch()
      ensures AllLimits() == Called(old(AllLimits()), peer, now)
      ensures var rate, recent := peer.ratePerMinute, |Recent(CallsOf(old(callLog), peer.name), now)|;
              && (refused.None? <==> recent < rate + Lost(rate, CallsOf(old(callTimes), peer.name), now))
              && (old(callClock) <= now ==> (refused.None? <==> recent < rate))
      ensures refused.Some? ==> refused.value == RpcError(INVALID_REQUEST, 429)
    {
      LimitsHoldOn(peers, AllLimits(), callClock, peer, now);
      Decides(peers, AllLimits(), callClock, peer, now);
      ghost var after := Called(AllLimits(), peer, now);
      var recent := Recent(CallsOf(calls, peer.name), now);
      if |recent| >= peer.ratePerMinute {
        refused := Some(RpcError(INVALID_REQUEST, 429));
        calls := calls[peer.name := recent];
      } else {
        refused := None;
        calls := calls[peer.name := recent + [now]];
      }
      callLog, callTimes := after.log, after.times;
      callClock := if callClock < now then now else callClock;
      assert AllLimits() == after;
    }

    /** Under a clock that does not go back, no minute holds more accepted calls of a peer than its limit. */
    lemma {:induction false} NoPeerExceedsItsLimit(peer: Peer, w: int)
      requires LimitsMatch() && peer in peers && ClockForward(TimesOf(peer.name))
      ensures |Within(LimiterOf(peer.name).log, w)| <= peer.ratePerMinute
    {
      ForwardClockHoldsTheLimit(peer.ratePerMinute, TimesOf(peer.name), w);
    }

    /** Whatever the clock does, that holds if and only if none was full when one of its calls was accepted. */
    lemma PeerHeldExactly(peer: Peer)
      requires LimitsMatch() && peer in peers
      ensures Bounded(LimiterOf(peer.name).log, peer.ratePerMinute)
              <==> Roomy(peer.ratePerMinute, TimesOf(peer.name))
    {
      BoundedExactly(peer.ratePerMinute, TimesOf(peer.name));
    }
  }
}

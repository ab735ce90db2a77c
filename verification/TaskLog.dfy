/**
 * What the A2A task server is for, without its tables: one log of every accepted task, in the order
 * they were accepted, and the steps that change it. The server's queues, dedup index and task map are
 * proved to be views of this log in A2AServer.dfy; the protocol's guarantees over whole runs are
 * proved here. Source: packages/channel-a2a/src/server.ts.
 */
module TaskLog {
  import opened Prelude
  import opened PeerConfig

  const RETAIN_MS := 60 * 60 * 1000

  /** The three task states this server produces. */
  datatype TaskState = Working | Completed | Failed

  datatype Message = Message(messageId: string, text: string, contextId: string, taskId: string)

  datatype Artifact = Artifact(artifactId: string, text: string)

  /** The task as a peer sees it. */
  datatype Task = Task(
    id: string,
    contextId: string,
    state: TaskState,
    message: Option<Message>,
    timestamp: int,
    artifacts: seq<Artifact>)

  /** One accepted task; `retained` is whether the server still answers for it. */
  datatype Entry = Entry(
    task: Task,
    peer: string,
    recipient: string,
    messageId: string,
    text: string,
    endedAt: Option<int>,
    waiters: seq<nat>,
    retained: bool)
  {
    predicate Live() { endedAt.None? }

    predicate LiveFor(r: string) { Live() && recipient == r }

    predicate From(p: string, m: string) { retained && peer == p && messageId == m }

    predicate Expired(now: int) { endedAt.Some? && endedAt.value < now - RETAIN_MS }
  }

  /** The log, plus the blocking callers: which task each asked about and what it was answered. */
  datatype Board = Board(log: seq<Entry>, asked: map<nat, nat>, answers: map<nat, Task>)

  /** The identifiers drawn at random while a task is finished. */
  datatype Ids = Ids(reply: string, artifact: string)

  datatype Step =
    | Evict(now: int)
    | Accept(id: string, peer: string, contextId: string, messageId: string, now: int)
    | Chunk(recipient: string, text: string, last: bool, now: int, ids: Ids)
    | TurnFailed(recipient: string, reason: string, now: int, ids: Ids)
    | QuietTimer(i: nat, now: int, ids: Ids)
    | Wait(i: nat, token: nat)
    | Timeout(token: nat)

  // ---------------------------------------------------------------- the steps

  /** The oldest live task of a conversation, or `|log|` when there is none. */
  function FirstLive(log: seq<Entry>, r: string): (k: nat)
    ensures k <= |log|
    ensures forall j | 0 <= j < k :: !log[j].LiveFor(r)
    ensures k < |log| ==> log[k].LiveFor(r)
  {
    if log == [] || log[0].LiveFor(r) then 0 else 1 + FirstLive(log[1..], r)
  }

  /** The retained task a peer's message id already stands for, or `|log|`. */
  function Lookup(log: seq<Entry>, p: string, m: string): (k: nat)
    ensures k <= |log|
    ensures forall j | 0 <= j < k :: !log[j].From(p, m)
    ensures k < |log| ==> log[k].From(p, m)
  {
    if log == [] || log[0].From(p, m) then 0 else 1 + Lookup(log[1..], p, m)
  }

  function Opened(s: Step): Entry
    requires s.Accept?
  {
    Entry(Task(s.id, s.contextId, Working, None, s.now, []), s.peer,
          Recipient(s.peer, s.contextId), s.messageId, "", None, [], true)
  }

  function ReplyOf(task: Task, text: Option<string>, ids: Ids): Option<Message> {
    if text.None? || text.value == "" then None
    else Some(Message(ids.reply, text.value, task.contextId, task.id))
  }

  function EndedTask(task: Task, state: TaskState, text: Option<string>, now: int, ids: Ids): Task {
    var reply := ReplyOf(task, text, ids);
    task.(state := state,
          message := reply,
          timestamp := now,
          artifacts := if reply.None? || state != Completed then []
                       else [Artifact(ids.artifact, reply.value.text)])
  }

  function Ended(e: Entry, state: TaskState, text: Option<string>, now: int, ids: Ids): Entry {
    e.(task := EndedTask(e.task, state, text, now, ids), endedAt := Some(now), waiters := [])
  }

  /** Answer each waiting caller once; a caller that was answered before keeps its answer. */
  function Wake(answers: map<nat, Task>, waiters: seq<nat>, task: Task): map<nat, Task> {
    answers + (map w | w in waiters && w !in answers :: task)
  }

  lemma WakeNext(answers: map<nat, Task>, waiters: seq<nat>, w: nat, task: Task)
    ensures var woken := Wake(answers, waiters, task);
            Wake(answers, waiters + [w], task) == if w in woken then woken else woken[w := task]
  {}

  function Finish(b: Board, i: nat, state: TaskState, text: Option<string>, now: int, ids: Ids): Board
    requires i < |b.log| && b.log[i].Live()
  {
    var e := Ended(b.log[i], state, text, now, ids);
    b.(log := b.log[i := e], answers := Wake(b.answers, b.log[i].waiters, e.task))
  }

  function Swept(log: seq<Entry>, now: int): (r: seq<Entry>)
    ensures |r| == |log|
    ensures forall i | 0 <= i < |log| ::
        r[i] == if log[i].Expired(now) then log[i].(retained := false) else log[i]
  {
    seq(|log|, i requires 0 <= i < |log| =>
      if log[i].Expired(now) then log[i].(retained := false) else log[i])
  }

  function Sweep(b: Board, now: int): Board {
    b.(log := Swept(b.log, now))
  }

  /** A chunk goes to the oldest live task of the conversation; the last one completes it. */
  function Deliver(b: Board, r: string, text: string, last: bool, now: int, ids: Ids): Board {
    var k := FirstLive(b.log, r);
    if k == |b.log| then b
    else
      var said := b.log[k].text + text;
      var heard := b.(log := b.log[k := b.log[k].(text := said)]);
      if last then Finish(heard, k, Completed, Some(said), now, ids) else heard
  }

  function Fail(b: Board, r: string, reason: string, now: int, ids: Ids): Board {
    var k := FirstLive(b.log, r);
    if k == |b.log| then b else Finish(b, k, Failed, Some("The turn ended: " + reason + "."), now, ids)
  }

  function Quiet(b: Board, i: nat, now: int, ids: Ids): Board
    requires i < |b.log|
  {
    if b.log[i].Live() && FirstLive(b.log, b.log[i].recipient) == i
    then Finish(b, i, Completed, None, now, ids) else b
  }

  function Ask(b: Board, i: nat, token: nat): Board
    requires i < |b.log|
  {
    var e := b.log[i];
    if e.Live() then b.(log := b.log[i := e.(waiters := e.waiters + [token])], asked := b.asked[token := i])
    else b.(asked := b.asked[token := i], answers := b.answers[token := e.task])
  }

  function GiveUp(b: Board, token: nat): Board
    requires token in b.asked && b.asked[token] < |b.log|
  {
    if token in b.answers then b
    else b.(answers := b.answers[token := b.log[b.asked[token]].task])
  }

  /** What the environment must respect: fresh task ids and tokens, and timers that were set. */
  ghost predicate Enabled(b: Board, s: Step) {
    match s
    case Evict(_) => true
    case Accept(id, peer, _, messageId, _) =>
      && Slug(peer)
      && (forall e | e in b.log :: e.retained ==> e.task.id != id)
      && Lookup(b.log, peer, messageId) == |b.log|
    case Chunk(_, _, _, _, _) => true
    case TurnFailed(_, _, _, _) => true
    case QuietTimer(i, _, _) => i < |b.log|
    case Wait(i, token) => i < |b.log| && token !in b.asked
    case Timeout(token) => token in b.asked && b.asked[token] < |b.log|
  }

  ghost function Next(b: Board, s: Step): Board
    requires Enabled(b, s)
  {
    match s
    case Evict(now) => Sweep(b, now)
    case Accept(_, _, _, _, _) => b.(log := b.log + [Opened(s)])
    case Chunk(r, text, last, now, ids) => Deliver(b, r, text, last, now, ids)
    case TurnFailed(r, reason, now, ids) => Fail(b, r, reason, now, ids)
    case QuietTimer(i, now, ids) => Quiet(b, i, now, ids)
    case Wait(i, token) => Ask(b, i, token)
    case Timeout(token) => GiveUp(b, token)
  }

  ghost predicate Runnable(b: Board, steps: seq<Step>)
    decreases |steps|
  {
    steps == [] || (Enabled(b, steps[0]) && Runnable(Next(b, steps[0]), steps[1..]))
  }

  ghost function Run(b: Board, steps: seq<Step>): Board
    requires Runnable(b, steps)
    decreases |steps|
  {
    if steps == [] then b else Run(Next(b, steps[0]), steps[1..])
  }

  // ---------------------------------------------------------------- invariants

  /** What one entry always says about itself. */
  ghost predicate Coherent(e: Entry) {
    && Slug(e.peer)
    && e.recipient == Recipient(e.peer, e.task.contextId)
    && (e.Live() <==> e.task.state == Working)
    && (e.Live() ==> e.retained && e.task.message.None? && e.task.artifacts == [])
    && (!e.Live() ==> e.waiters == [])
    && (e.task.message.Some? ==>
          e.task.message.value.taskId == e.task.id && e.task.message.value.contextId == e.task.contextId)
    && (e.task.state == Completed && e.task.message.None? ==> e.task.artifacts == [])
    && (e.task.state == Completed && e.task.message.Some? ==>
          && e.text != "" && e.task.message.value.text == e.text
          && |e.task.artifacts| == 1 && e.task.artifacts[0].text == e.text)
    && (e.task.state == Failed ==> e.task.message.Some? && e.task.artifacts == [])
  }

  /** First accepted, first ended; and only the oldest live task of a conversation has heard anything. */
  ghost predicate InOrder(log: seq<Entry>) {
    forall i, j | 0 <= i < j < |log| && log[i].Live() && log[i].recipient == log[j].recipient ::
      log[j].Live() && log[j].text == ""
  }

  /** A retained task is found by its id alone and by its source alone. */
  ghost predicate Distinct(log: seq<Entry>) {
    forall i, j | 0 <= i < j < |log| && log[i].retained && log[j].retained ::
      log[i].task.id != log[j].task.id && !(log[i].peer == log[j].peer && log[i].messageId == log[j].messageId)
  }

  /** One blocking caller: answered with its own task, or still waiting on a live one. */
  ghost predicate Served(b: Board, token: nat, i: nat) {
    && i < |b.log|
    && (token in b.answers ==>
          || b.answers[token] == b.log[i].task
          || (b.answers[token].state == Working && b.answers[token].id == b.log[i].task.id))
    && (token !in b.answers ==> b.log[i].Live() && token in b.log[i].waiters)
  }

  /** No wake-up is lost and no caller is answered about another caller's task. */
  ghost predicate Waits(b: Board) {
    && (forall token | token in b.asked :: Served(b, token, b.asked[token]))
    && b.answers.Keys <= b.asked.Keys
    && (forall i, w | 0 <= i < |b.log| && w in b.log[i].waiters :: w in b.asked && b.asked[w] == i)
  }

  ghost predicate Inv(b: Board) {
    && (forall i | 0 <= i < |b.log| :: Coherent(b.log[i]))
    && InOrder(b.log)
    && Distinct(b.log)
    && Waits(b)
  }

  // ---------------------------------------------------------------- one step

  /** How an entry may change: it never changes identity, text only grows, and an end is final. */
  ghost predicate Evolves(e: Entry, f: Entry) {
    && f.peer == e.peer && f.recipient == e.recipient && f.messageId == e.messageId
    && f.task.id == e.task.id && f.task.contextId == e.task.contextId
    && e.text <= f.text
    && (f.retained ==> e.retained)
    && (!e.Live() ==> f == e.(retained := f.retained))
  }

  ghost predicate LogEvolves(before: seq<Entry>, after: seq<Entry>) {
    |before| <= |after| && forall i | 0 <= i < |before| :: Evolves(before[i], after[i])
  }

  ghost predicate AtHead(s: Step) {
    s.Chunk? || s.TurnFailed? || s.QuietTimer?
  }

  /** A reply, a failed turn or a quiet timer touches the oldest live task of one conversation, or nothing. */
  lemma HeadStep(b: Board, s: Step) returns (k: nat, e: Entry)
    requires Enabled(b, s) && AtHead(s)
    ensures k >= |b.log| ==> Next(b, s) == b && (s.Chunk? ==> FirstLive(b.log, s.recipient) == |b.log|)
    ensures k < |b.log| ==>
              && b.log[k].Live() && FirstLive(b.log, b.log[k].recipient) == k
              && Next(b, s).log == b.log[k := e] && Next(b, s).asked == b.asked
              && Evolves(b.log[k], e)
              && (!e.Live() ==> e.endedAt.value == At(s, 0))
              && (if s.Chunk? then s.recipient == b.log[k].recipient && e.text == b.log[k].text + s.text
                  else e.text == b.log[k].text)
  {
    k := if s.QuietTimer? then s.i else FirstLive(b.log, s.recipient);
    e := if k < |b.log| then Next(b, s).log[k]
         else Entry(Task("", "", Working, None, 0, []), "", "", "", "", None, [], false);
    if s.QuietTimer? && !(b.log[k].Live() && FirstLive(b.log, b.log[k].recipient) == k) {
      k := |b.log|;
    }
  }

  /** Every other step leaves what is there in place: its owner, its text, and whether it has ended. */
  lemma QuietStep(b: Board, s: Step)
    requires Enabled(b, s) && !AtHead(s)
    ensures |b.log| <= |Next(b, s).log| && (|Next(b, s).log| == |b.log| || s.Accept?)
    ensures forall i | 0 <= i < |b.log| ::
              && Evolves(b.log[i], Next(b, s).log[i])
              && Next(b, s).log[i].endedAt == b.log[i].endedAt && Next(b, s).log[i].text == b.log[i].text
    ensures s.Accept? ==> Next(b, s).log == b.log + [Opened(s)]
  {}

  lemma NextEvolves(b: Board, s: Step)
    requires Enabled(b, s)
    ensures LogEvolves(b.log, Next(b, s).log)
  {
    if AtHead(s) {
      var k, e := HeadStep(b, s);
    } else {
      QuietStep(b, s);
    }
  }

  lemma EndedCoherent(e: Entry, state: TaskState, text: Option<string>, now: int, ids: Ids)
    requires Coherent(e) && e.Live() && state != Working
    requires state == Completed && text.Some? ==> text.value == e.text
    requires state == Failed ==> text.Some? && text.value != ""
    ensures Coherent(Ended(e, state, text, now, ids))
  {}

  lemma DeliverKeepsCoherent(b: Board, r: string, text: string, last: bool, now: int, ids: Ids)
    requires forall i | 0 <= i < |b.log| :: Coherent(b.log[i])
    ensures forall i | 0 <= i < |Deliver(b, r, text, last, now, ids).log| ::
              Coherent(Deliver(b, r, text, last, now, ids).log[i])
  {
    var k := FirstLive(b.log, r);
    if k < |b.log| {
      var e := b.log[k].(text := b.log[k].text + text);
      assert Coherent(b.log[k]);
      assert Coherent(e);
      EndedCoherent(e, Completed, Some(e.text), now, ids);
    }
  }

  lemma NextKeepsCoherent(b: Board, s: Step)
    requires Enabled(b, s)
    requires forall i | 0 <= i < |b.log| :: Coherent(b.log[i])
    ensures forall i | 0 <= i < |Next(b, s).log| :: Coherent(Next(b, s).log[i])
  {
    match s
    case Evict(_) =>
    case Accept(_, _, _, _, _) =>
    case Chunk(r, text, last, now, ids) => DeliverKeepsCoherent(b, r, text, last, now, ids);
    case TurnFailed(r, reason, now, ids) =>
      var k := FirstLive(b.log, r);
      if k < |b.log| {
        assert Coherent(b.log[k]);
        EndedCoherent(b.log[k], Failed, Some("The turn ended: " + reason + "."), now, ids);
      }
    case QuietTimer(i, now, ids) =>
      if b.log[i].Live() {
        EndedCoherent(b.log[i], Completed, None, now, ids);
      }
    case Wait(_, _) =>
    case Timeout(_) =>
  }

  /** Ending or feeding the oldest live task of a conversation keeps the order. */
  lemma HeadKeepsInOrder(log: seq<Entry>, k: nat, e: Entry)
    requires InOrder(log) && k < |log| && log[k].Live() && FirstLive(log, log[k].recipient) == k
    requires e.recipient == log[k].recipient
    ensures InOrder(log[k := e])
  {}

  lemma PointwiseKeepsInOrder(log: seq<Entry>, after: seq<Entry>)
    requires InOrder(log) && |after| == |log|
    requires forall i | 0 <= i < |log| :: after[i].recipient == log[i].recipient
                                          && after[i].endedAt == log[i].endedAt && after[i].text == log[i].text
    ensures InOrder(after)
  {}

  lemma {:induction false} FirstLiveIs(log: seq<Entry>, r: string, k: nat)
    requires k < |log| && log[k].LiveFor(r) && forall j | 0 <= j < k :: !log[j].LiveFor(r)
    ensures FirstLive(log, r) == k
  {}

  lemma NextKeepsInOrder(b: Board, s: Step)
    requires Enabled(b, s) && InOrder(b.log)
    ensures InOrder(Next(b, s).log)
  {
    if AtHead(s) {
      var k, e := HeadStep(b, s);
      if k < |b.log| {
        HeadKeepsInOrder(b.log, k, e);
      }
    } else {
      QuietStep(b, s);
      if !s.Accept? {
        PointwiseKeepsInOrder(b.log, Next(b, s).log);
      }
    }
  }

  lemma NextKeepsDistinct(b: Board, s: Step)
    requires Enabled(b, s) && Distinct(b.log)
    ensures Distinct(Next(b, s).log)
  {
    NextEvolves(b, s);
    if s.Accept? {
      forall i | 0 <= i < |b.log| && b.log[i].retained
        ensures b.log[i].task.id != s.id && !(b.log[i].peer == s.peer && b.log[i].messageId == s.messageId)
      {
        assert b.log[i] in b.log;
        assert !b.log[i].From(s.peer, s.messageId);
      }
    }
  }

  lemma FinishKeepsWaits(b: Board, k: nat, state: TaskState, text: Option<string>, now: int, ids: Ids)
    requires Waits(b) && k < |b.log| && b.log[k].Live()
    requires state != Working && forall i | 0 <= i < |b.log| :: b.log[i].Live() <==> b.log[i].task.state == Working
    ensures Waits(Finish(b, k, state, text, now, ids))
  {
    var c := Finish(b, k, state, text, now, ids);
    forall token | token in c.asked
      ensures Served(c, token, c.asked[token])
    {
      assert Served(b, token, b.asked[token]);
      if token in b.log[k].waiters {
        assert b.asked[token] == k;
      }
    }
  }

  lemma ViewKeepsWaits(b: Board, log: seq<Entry>)
    requires Waits(b) && |log| == |b.log|
    requires forall i | 0 <= i < |log| :: log[i].task == b.log[i].task
                                          && log[i].endedAt == b.log[i].endedAt && log[i].waiters == b.log[i].waiters
    ensures Waits(b.(log := log))
  {
    forall token | token in b.asked
      ensures Served(b.(log := log), token, b.asked[token])
    {
      assert Served(b, token, b.asked[token]);
    }
  }

  lemma WaitKeepsWaits(b: Board, i: nat, token: nat)
    requires Waits(b) && Enabled(b, Wait(i, token))
    ensures Waits(Next(b, Wait(i, token)))
  {
    var c := Next(b, Wait(i, token));
    forall t | t in c.asked
      ensures Served(c, t, c.asked[t])
    {
      if t != token {
        assert Served(b, t, b.asked[t]);
      }
    }
    forall j, w | 0 <= j < |c.log| && w in c.log[j].waiters
      ensures w in c.asked && c.asked[w] == j
    {
      if w != token || j != i {
        assert w in b.log[j].waiters;
      }
    }
  }

  lemma AcceptKeepsWaits(b: Board, s: Step)
    requires Waits(b) && s.Accept?
    ensures Waits(b.(log := b.log + [Opened(s)]))
  {
    var c := b.(log := b.log + [Opened(s)]);
    forall token | token in c.asked
      ensures Served(c, token, c.asked[token])
    {
      assert Served(b, token, b.asked[token]);
    }
    forall i, w | 0 <= i < |c.log| && w in c.log[i].waiters
      ensures w in c.asked && c.asked[w] == i
    {
      assert i < |b.log|;
    }
  }

  lemma TimeoutKeepsWaits(b: Board, t: nat)
    requires Waits(b) && Enabled(b, Timeout(t))
    requires forall i | 0 <= i < |b.log| :: Coherent(b.log[i])
    ensures Waits(Next(b, Timeout(t)))
  {
    var c := Next(b, Timeout(t));
    forall token | token in c.asked
      ensures Served(c, token, c.asked[token])
    {
      assert Served(b, token, b.asked[token]);
    }
  }

  lemma ChunkKeepsWaits(b: Board, s: Step)
    requires Waits(b) && s.Chunk?
    requires forall i | 0 <= i < |b.log| :: Coherent(b.log[i])
    ensures Waits(Next(b, s))
  {
    var k := FirstLive(b.log, s.recipient);
    if k < |b.log| {
      var said := b.log[k].text + s.text;
      var log := b.log[k := b.log[k].(text := said)];
      ViewKeepsWaits(b, log);
      if s.last {
        FinishKeepsWaits(b.(log := log), k, Completed, Some(said), s.now, s.ids);
      }
    }
  }

  lemma NextKeepsWaits(b: Board, s: Step)
    requires Enabled(b, s) && Waits(b)
    requires forall i | 0 <= i < |b.log| :: Coherent(b.log[i])
    ensures Waits(Next(b, s))
  {
    match s
    case Evict(now) => ViewKeepsWaits(b, Swept(b.log, now));
    case Accept(_, _, _, _, _) => AcceptKeepsWaits(b, s);
    case Chunk(_, _, _, _, _) => ChunkKeepsWaits(b, s);
    case TurnFailed(r, reason, now, ids) =>
      var k := FirstLive(b.log, r);
      if k < |b.log| {
        FinishKeepsWaits(b, k, Failed, Some("The turn ended: " + reason + "."), now, ids);
      }
    case QuietTimer(i, now, ids) =>
      if b.log[i].Live() && FirstLive(b.log, b.log[i].recipient) == i {
        FinishKeepsWaits(b, i, Completed, None, now, ids);
      }
    case Wait(i, token) => WaitKeepsWaits(b, i, token);
    case Timeout(t) => TimeoutKeepsWaits(b, t);
  }

  lemma NextKeepsInv(b: Board, s: Step)
    requires Enabled(b, s) && Inv(b)
    ensures Inv(Next(b, s))
  {
    NextKeepsCoherent(b, s);
    NextKeepsInOrder(b, s);
    NextKeepsDistinct(b, s);
    NextKeepsWaits(b, s);
  }

  // ---------------------------------------------------------------- whole runs

  const NOTHING := Board([], map[], map[])

  lemma NothingInv()
    ensures Inv(NOTHING)
  {}

  lemma {:induction false} RunKeepsInv(b: Board, steps: seq<Step>)
    requires Runnable(b, steps) && Inv(b)
    ensures Inv(Run(b, steps))
    decreases |steps|
  {
    if steps != [] {
      NextKeepsInv(b, steps[0]);
      RunKeepsInv(Next(b, steps[0]), steps[1..]);
    }
  }

  /** The log of some run from the empty log. */
  ghost predicate Reached(b: Board) {
    exists steps :: Runnable(NOTHING, steps) && Run(NOTHING, steps) == b
  }

  lemma ReachedInv(b: Board)
    requires Reached(b)
    ensures Inv(b)
  {
    var steps :| Runnable(NOTHING, steps) && Run(NOTHING, steps) == b;
    NothingInv();
    RunKeepsInv(NOTHING, steps);
  }

  lemma {:induction false} RunThenStep(b: Board, steps: seq<Step>, s: Step)
    requires Runnable(b, steps) && Enabled(Run(b, steps), s)
    ensures Runnable(b, steps + [s]) && Run(b, steps + [s]) == Next(Run(b, steps), s)
    decreases |steps|
  {
    if steps == [] {
      assert steps + [s] == [s] && [s][1..] == [];
      assert Runnable(Next(b, s), []);
    } else {
      RunThenStep(Next(b, steps[0]), steps[1..], s);
      assert (steps + [s])[1..] == steps[1..] + [s];
    }
  }

  lemma NothingReached()
    ensures Reached(NOTHING)
  {
    assert Runnable(NOTHING, []) && Run(NOTHING, []) == NOTHING;
  }

  lemma ReachedNext(b: Board, s: Step)
    requires Reached(b) && Enabled(b, s)
    ensures Reached(Next(b, s))
  {
    var steps :| Runnable(NOTHING, steps) && Run(NOTHING, steps) == b;
    RunThenStep(NOTHING, steps, s);
  }

  lemma EvolvesTransitive(a: seq<Entry>, b: seq<Entry>, c: seq<Entry>)
    requires LogEvolves(a, b) && LogEvolves(b, c)
    ensures LogEvolves(a, c)
  {
    forall i | 0 <= i < |a|
      ensures Evolves(a[i], c[i])
    {
      assert Evolves(a[i], b[i]) && Evolves(b[i], c[i]);
    }
  }

  /** Over any run every task keeps its identity, and a task that has ended never changes again. */
  lemma {:induction false} RunEvolves(b: Board, steps: seq<Step>)
    requires Runnable(b, steps)
    ensures LogEvolves(b.log, Run(b, steps).log)
    decreases |steps|
  {
    if steps != [] {
      NextEvolves(b, steps[0]);
      RunEvolves(Next(b, steps[0]), steps[1..]);
      EvolvesTransitive(b.log, Next(b, steps[0]).log, Run(b, steps).log);
    }
  }

  lemma {:induction false} RunSplits(b: Board, steps: seq<Step>, n: nat)
    requires n <= |steps| && Runnable(b, steps)
    ensures Runnable(b, steps[..n]) && Runnable(Run(b, steps[..n]), steps[n..])
    ensures Run(b, steps) == Run(Run(b, steps[..n]), steps[n..])
    decreases n
  {
    if n == 0 {
      assert steps[n..] == steps;
    } else {
      RunSplits(Next(b, steps[0]), steps[1..], n - 1);
      assert steps[..n][1..] == steps[1..][..n - 1];
      assert steps[n..] == steps[1..][n - 1..];
    }
  }

  /**
   * The tasks of one conversation end strictly in the order they were accepted, at every moment of
   * every run: once a later task has ended the earlier one has ended too, and both stay as they are
   * for the rest of the run.
   */
  lemma {:induction false} EndsInAcceptanceOrder(b: Board, steps: seq<Step>, n: nat, i: nat, j: nat)
    requires Inv(b) && Runnable(b, steps) && n <= |steps| && Runnable(b, steps[..n])
    requires i < j < |Run(b, steps[..n]).log|
    requires Run(b, steps[..n]).log[i].recipient == Run(b, steps[..n]).log[j].recipient
    requires !Run(b, steps[..n]).log[j].Live()
    ensures !Run(b, steps[..n]).log[i].Live()
    ensures j < |Run(b, steps).log|
    ensures Run(b, steps).log[i].task == Run(b, steps[..n]).log[i].task
    ensures Run(b, steps).log[i].endedAt == Run(b, steps[..n]).log[i].endedAt
    ensures Run(b, steps).log[j].task == Run(b, steps[..n]).log[j].task
    ensures Run(b, steps).log[j].endedAt == Run(b, steps[..n]).log[j].endedAt
  {
    RunSplits(b, steps, n);
    var mid := Run(b, steps[..n]);
    RunKeepsInv(b, steps[..n]);
    RunEvolves(mid, steps[n..]);
    assert Evolves(mid.log[i], Run(b, steps).log[i]) && Evolves(mid.log[j], Run(b, steps).log[j]);
  }

  // ---------------------------------------------------------------- the clock

  function At(s: Step, t: int): int {
    match s
    case Evict(now) => now
    case Accept(_, _, _, _, now) => now
    case Chunk(_, _, _, now, _) => now
    case TurnFailed(_, _, now, _) => now
    case QuietTimer(_, now, _) => now
    case Wait(_, _) => t
    case Timeout(_) => t
  }

  /** The wall clock does not go back, from `t` on. */
  ghost predicate Ticks(t: int, steps: seq<Step>)
    decreases |steps|
  {
    steps == [] || (t <= At(steps[0], t) && Ticks(At(steps[0], t), steps[1..]))
  }

  ghost predicate TimesInOrder(log: seq<Entry>, t: int) {
    && (forall i | 0 <= i < |log| && !log[i].Live() :: log[i].endedAt.value <= t)
    && (forall i, j | 0 <= i < j < |log| && log[i].recipient == log[j].recipient && !log[j].Live() ::
          !log[i].Live() && log[i].endedAt.value <= log[j].endedAt.value)
  }

  lemma {:induction false} HeadKeepsTimes(log: seq<Entry>, k: nat, e: Entry, t: int, now: int)
    requires TimesInOrder(log, t) && t <= now
    requires k < |log| && log[k].Live() && FirstLive(log, log[k].recipient) == k
    requires e.recipient == log[k].recipient && (e.Live() || e.endedAt.value == now)
    ensures TimesInOrder(log[k := e], now)
  {}

  lemma PointwiseKeepsTimes(log: seq<Entry>, after: seq<Entry>, t: int, now: int)
    requires TimesInOrder(log, t) && t <= now && |log| <= |after|
    requires forall i | 0 <= i < |log| :: after[i].recipient == log[i].recipient && after[i].endedAt == log[i].endedAt
    requires forall i | |log| <= i < |after| :: after[i].Live()
    ensures TimesInOrder(after, now)
  {}

  lemma NextKeepsTimes(b: Board, s: Step, t: int)
    requires Enabled(b, s) && t <= At(s, t) && TimesInOrder(b.log, t)
    ensures TimesInOrder(Next(b, s).log, At(s, t))
  {
    if AtHead(s) {
      var k, e := HeadStep(b, s);
      if k < |b.log| {
        HeadKeepsTimes(b.log, k, e, t, At(s, t));
      } else {
        PointwiseKeepsTimes(b.log, b.log, t, At(s, t));
      }
    } else {
      QuietStep(b, s);
      PointwiseKeepsTimes(b.log, Next(b, s).log, t, At(s, t));
    }
  }

  /** Under a clock that does not go back, the recorded end times agree with acceptance order. */
  lemma {:induction false} RunKeepsTimes(b: Board, steps: seq<Step>, t: int)
    requires Runnable(b, steps) && Ticks(t, steps) && TimesInOrder(b.log, t)
    ensures exists u :: t <= u && TimesInOrder(Run(b, steps).log, u)
    decreases |steps|
  {
    if steps == [] {
      assert t <= t && TimesInOrder(Run(b, steps).log, t);
    } else {
      NextKeepsTimes(b, steps[0], t);
      RunKeepsTimes(Next(b, steps[0]), steps[1..], At(steps[0], t));
      var u :| At(steps[0], t) <= u && TimesInOrder(Run(b, steps).log, u);
      assert t <= u && TimesInOrder(Run(b, steps).log, u);
    }
  }

  // ---------------------------------------------------------------- chunks

  /** Everything the tasks of one conversation have accumulated, in acceptance order. */
  function Transcript(log: seq<Entry>, r: string): string {
    if log == [] then ""
    else
      var e := log[|log| - 1];
      Transcript(log[..|log| - 1], r) + (if e.recipient == r then e.text else "")
  }

  /** What one step delivers to a conversation that has a live task. */
  function HeardNow(b: Board, s: Step, r: string): string {
    if s.Chunk? && s.recipient == r && (exists e :: e in b.log && e.LiveFor(r)) then s.text else ""
  }

  /** The stream of chunks delivered to a conversation while one of its tasks was live. */
  ghost function Heard(b: Board, steps: seq<Step>, r: string): string
    requires Runnable(b, steps)
    decreases |steps|
  {
    if steps == [] then "" else HeardNow(b, steps[0], r) + Heard(Next(b, steps[0]), steps[1..], r)
  }

  lemma {:induction false} TranscriptSame(log: seq<Entry>, after: seq<Entry>, r: string)
    requires |after| == |log|
    requires forall i | 0 <= i < |log| :: after[i].recipient == log[i].recipient && after[i].text == log[i].text
    ensures Transcript(after, r) == Transcript(log, r)
  {
    if log != [] {
      TranscriptSame(log[..|log| - 1], after[..|after| - 1], r);
    }
  }

  /** Appending to an entry that nothing of its conversation follows appends to the transcript. */
  lemma {:induction false} TranscriptGrows(log: seq<Entry>, k: nat, e: Entry, more: string)
    requires k < |log| && e.recipient == log[k].recipient && e.text == log[k].text + more
    requires forall j | k < j < |log| && log[j].recipient == e.recipient :: log[j].text == ""
    ensures Transcript(log[k := e], e.recipient) == Transcript(log, e.recipient) + more
  {
    var n := |log| - 1;
    if k == n {
      assert log[k := e][..n] == log[..n];
      assert Transcript(log[..n], e.recipient) + (log[n].text + more)
          == Transcript(log[..n], e.recipient) + log[n].text + more;
    } else {
      TranscriptGrows(log[..n], k, e, more);
      assert log[k := e][..n] == log[..n][k := e];
      assert log[k := e][n] == log[n];
      assert Transcript(log[..n], e.recipient) + more + "" == Transcript(log[..n], e.recipient) + "" + more;
    }
  }

  lemma {:induction false} TranscriptElsewhere(log: seq<Entry>, k: nat, e: Entry, r: string)
    requires k < |log| && e.recipient == log[k].recipient && e.recipient != r
    ensures Transcript(log[k := e], r) == Transcript(log, r)
  {
    var n := |log| - 1;
    if k == n {
      assert log[k := e][..n] == log[..n];
    } else {
      TranscriptElsewhere(log[..n], k, e, r);
      assert log[k := e][..n] == log[..n][k := e];
    }
  }

  lemma {:induction false} HeadConserves(b: Board, s: Step, r: string)
    requires Enabled(b, s) && AtHead(s) && InOrder(b.log)
    ensures Transcript(Next(b, s).log, r) == Transcript(b.log, r) + HeardNow(b, s, r)
  {
    var k, e := HeadStep(b, s);
    if k < |b.log| {
      assert b.log[k] in b.log;
      if e.recipient == r {
        TranscriptGrows(b.log, k, e, if s.Chunk? then s.text else "");
      } else {
        TranscriptElsewhere(b.log, k, e, r);
      }
    }
  }

  lemma {:induction false} QuietConserves(b: Board, s: Step, r: string)
    requires Enabled(b, s) && !AtHead(s)
    ensures Transcript(Next(b, s).log, r) == Transcript(b.log, r)
  {
    QuietStep(b, s);
    if s.Accept? {
      assert (b.log + [Opened(s)])[..|b.log|] == b.log;
    } else {
      TranscriptSame(b.log, Next(b, s).log, r);
    }
  }

  lemma {:induction false} NextConserves(b: Board, s: Step, r: string)
    requires Enabled(b, s) && InOrder(b.log)
    ensures Transcript(Next(b, s).log, r) == Transcript(b.log, r) + HeardNow(b, s, r)
  {
    if AtHead(s) {
      HeadConserves(b, s, r);
    } else {
      QuietConserves(b, s, r);
    }
  }

  /**
   * Chunk conservation: over any run, the texts of a conversation's tasks joined in acceptance order
   * grow by exactly the chunks delivered to it while one of its tasks was live. None is lost,
   * repeated, reordered or given to another conversation.
   */
  lemma {:induction false} RunConserves(b: Board, steps: seq<Step>, r: string)
    requires Inv(b) && Runnable(b, steps)
    ensures Transcript(Run(b, steps).log, r) == Transcript(b.log, r) + Heard(b, steps, r)
    decreases |steps|
  {
    if steps != [] {
      var s := steps[0];
      NextConserves(b, s, r);
      NextKeepsInv(b, s);
      RunConserves(Next(b, s), steps[1..], r);
      Associates(Transcript(b.log, r), HeardNow(b, s, r), Heard(Next(b, s), steps[1..], r));
    }
  }

  /**
   * A task completed by the last chunk of a reply shows a peer exactly its accumulated text, as its
   * message and as its one artifact, or neither when that text is empty; and it does so for the rest
   * of any run.
   */
  lemma {:induction false} LastChunkIsTheAnswer(b: Board, r: string, text: string, now: int, ids: Ids, steps: seq<Step>)
    requires Inv(b) && FirstLive(b.log, r) < |b.log|
    requires Runnable(Next(b, Chunk(r, text, true, now, ids)), steps)
    ensures var k := FirstLive(b.log, r);
            var done := Run(Next(b, Chunk(r, text, true, now, ids)), steps);
            var said := b.log[k].text + text;
            && k < |done.log|
            && done.log[k].text == said
            && done.log[k].task.state == Completed
            && (said == "" ==> done.log[k].task.message.None? && done.log[k].task.artifacts == [])
            && (said != "" ==>
                  && done.log[k].task.message.Some? && done.log[k].task.message.value.text == said
                  && |done.log[k].task.artifacts| == 1 && done.log[k].task.artifacts[0].text == said)
  {
    var c := Next(b, Chunk(r, text, true, now, ids));
    RunEvolves(c, steps);
    assert Evolves(c.log[FirstLive(b.log, r)], Run(c, steps).log[FirstLive(b.log, r)]);
  }

  // ---------------------------------------------------------------- text that a quiet timer drops

  /** A task that has heard something and is completed without saying it. */
  predicate Unsaid(e: Entry) {
    e.task.state == Completed && e.text != "" && e.task.message.None?
  }

  /** The step is a quiet timer on a live task at the front that has heard something. */
  predicate Silences(b: Board, s: Step, i: nat) {
    && s.QuietTimer? && s.i == i && i < |b.log|
    && b.log[i].Live() && FirstLive(b.log, b.log[i].recipient) == i
    && b.log[i].text != ""
  }

  lemma FinishUnsaid(b: Board, k: nat, state: TaskState, text: Option<string>, now: int, ids: Ids, i: nat)
    requires k < |b.log| && b.log[k].Live() && i < |b.log| && !Unsaid(b.log[i])
    requires state == Completed && text.Some? ==> text.value == b.log[k].text
    ensures Unsaid(Finish(b, k, state, text, now, ids).log[i])
            <==> i == k && state == Completed && text.None? && b.log[k].text != ""
  {}

  lemma DeliverSays(b: Board, r: string, text: string, last: bool, now: int, ids: Ids, i: nat)
    requires i < |b.log| && !Unsaid(b.log[i]) && forall j | 0 <= j < |b.log| :: Coherent(b.log[j])
    ensures !Unsaid(Deliver(b, r, text, last, now, ids).log[i])
  {
    var k := FirstLive(b.log, r);
    if k < |b.log| {
      var said := b.log[k].text + text;
      var heard := b.(log := b.log[k := b.log[k].(text := said)]);
      assert Coherent(b.log[k]);
      assert !Unsaid(heard.log[i]);
      if last {
        FinishUnsaid(heard, k, Completed, Some(said), now, ids, i);
      }
    }
  }

  lemma FailSays(b: Board, r: string, reason: string, now: int, ids: Ids, i: nat)
    requires i < |b.log| && !Unsaid(b.log[i])
    ensures !Unsaid(Fail(b, r, reason, now, ids).log[i])
  {
    var k := FirstLive(b.log, r);
    if k < |b.log| {
      FinishUnsaid(b, k, Failed, Some("The turn ended: " + reason + "."), now, ids, i);
    }
  }

  lemma TimerSilences(b: Board, k: nat, now: int, ids: Ids, i: nat)
    requires k < |b.log| && i < |b.log| && !Unsaid(b.log[i])
    ensures Unsaid(Quiet(b, k, now, ids).log[i]) <==> Silences(b, QuietTimer(k, now, ids), i)
  {
    if b.log[k].Live() && FirstLive(b.log, b.log[k].recipient) == k {
      FinishUnsaid(b, k, Completed, None, now, ids, i);
    }
  }

  lemma QuietStepSays(b: Board, s: Step, i: nat)
    requires Enabled(b, s) && !AtHead(s) && i < |b.log|
    ensures |Next(b, s).log| >= |b.log|
    ensures Next(b, s).log[i].task == b.log[i].task && Next(b, s).log[i].text == b.log[i].text
  {}

  /** A task becomes completed without what it heard exactly by such a timer. */
  lemma StepSilencesExactly(b: Board, s: Step, i: nat)
    requires Inv(b) && Enabled(b, s) && i < |b.log| && !Unsaid(b.log[i])
    ensures |Next(b, s).log| >= |b.log| && (Unsaid(Next(b, s).log[i]) <==> Silences(b, s, i))
  {
    match s
    case Chunk(r, text, last, now, ids) => DeliverSays(b, r, text, last, now, ids, i);
    case TurnFailed(r, reason, now, ids) => FailSays(b, r, reason, now, ids, i);
    case QuietTimer(k, now, ids) => TimerSilences(b, k, now, ids, i);
    case _ => QuietStepSays(b, s, i);
  }

  ghost predicate Silenced(b: Board, steps: seq<Step>, i: nat)
    requires Runnable(b, steps)
    decreases |steps|
  {
    steps != [] && (Silences(b, steps[0], i) || Silenced(Next(b, steps[0]), steps[1..], i))
  }

  lemma {:induction false} UnsaidStays(b: Board, steps: seq<Step>, i: nat)
    requires Runnable(b, steps) && i < |b.log| && Coherent(b.log[i]) && Unsaid(b.log[i])
    ensures i < |Run(b, steps).log| && Unsaid(Run(b, steps).log[i])
  {
    RunEvolves(b, steps);
    assert Evolves(b.log[i], Run(b, steps).log[i]);
  }

  /** A step adds at most a live task, at the end. */
  lemma AddedIsLive(b: Board, s: Step, i: nat)
    requires Enabled(b, s) && |b.log| <= i < |Next(b, s).log|
    ensures !Unsaid(Next(b, s).log[i])
  {
    if AtHead(s) {
      var k, e := HeadStep(b, s);
    } else {
      QuietStep(b, s);
    }
  }

  /**
   * Over any run, a task that has heard something ends completed without a message if and only if a quiet timer
   * set on it fired while it was at the front and had heard something. The comment in the source has a quiet
   * completion only when no reply arrives.
   */
  lemma {:induction false} UnsaidExactly(b: Board, steps: seq<Step>, i: nat)
    requires Inv(b) && Runnable(b, steps) && i < |Run(b, steps).log|
    requires i < |b.log| ==> !Unsaid(b.log[i])
    ensures Unsaid(Run(b, steps).log[i]) <==> Silenced(b, steps, i)
    decreases |steps|
  {
    if steps != [] {
      var s := steps[0];
      var c := Next(b, s);
      NextKeepsInv(b, s);
      if i < |b.log| {
        StepSilencesExactly(b, s, i);
      } else if i < |c.log| {
        AddedIsLive(b, s, i);
      }
      if Silences(b, s, i) {
        UnsaidStays(c, steps[1..], i);
      } else {
        UnsaidExactly(c, steps[1..], i);
      }
    }
  }

  /** The input: a chunk that is not the last, and then the timer, leave the chunk unsaid for the rest of any run. */
  lemma {:induction false} TimerBetweenChunksDropsText(b: Board, r: string, text: string, now: int, later: int,
                                                       ids: Ids, steps: seq<Step>)
    requires Inv(b) && text != "" && FirstLive(b.log, r) < |b.log|
    requires Runnable(b, [Chunk(r, text, false, now, ids), QuietTimer(FirstLive(b.log, r), later, ids)] + steps)
    ensures var k := FirstLive(b.log, r);
            var done := Run(b, [Chunk(r, text, false, now, ids), QuietTimer(k, later, ids)] + steps);
            k < |done.log| && Unsaid(done.log[k])
  {
    var k := FirstLive(b.log, r);
    var chunk, timer := Chunk(r, text, false, now, ids), QuietTimer(k, later, ids);
    var all := [chunk, timer] + steps;
    var heard := b.(log := b.log[k := b.log[k].(text := b.log[k].text + text)]);
    assert all[1..] == [timer] + steps && all[1..][1..] == steps;
    NextKeepsInv(b, chunk);
    FirstLiveIs(heard.log, r, k);
    assert Silences(heard, timer, k);
    RunEvolves(b, all);
    assert Coherent(b.log[k]);
    UnsaidExactly(b, all, k);
  }

  // ---------------------------------------------------------------- waiting callers, peers

  /** The callers and their answers only grow. */
  ghost predicate AnswersGrow(b: Board, c: Board) {
    && (forall token | token in b.asked :: token in c.asked && c.asked[token] == b.asked[token])
    && (forall token | token in b.answers :: token in c.answers && c.answers[token] == b.answers[token])
  }

  lemma NextKeepsAnswers(b: Board, s: Step)
    requires Enabled(b, s) && b.answers.Keys <= b.asked.Keys
    ensures AnswersGrow(b, Next(b, s))
  {
    match s
    case Chunk(r, text, last, now, ids) => assert AnswersGrow(b, Deliver(b, r, text, last, now, ids));
    case TurnFailed(r, reason, now, ids) => assert AnswersGrow(b, Fail(b, r, reason, now, ids));
    case QuietTimer(i, now, ids) => assert AnswersGrow(b, Quiet(b, i, now, ids));
    case Wait(i, token) => assert AnswersGrow(b, Ask(b, i, token));
    case Timeout(token) => assert AnswersGrow(b, GiveUp(b, token));
    case _ =>
  }

  /** An answer, once given, is never taken back, and nobody's question changes. */
  lemma {:induction false} RunKeepsAnswers(b: Board, steps: seq<Step>, token: nat)
    requires Inv(b) && Runnable(b, steps) && token in b.asked
    ensures token in Run(b, steps).asked && Run(b, steps).asked[token] == b.asked[token]
    ensures token in b.answers ==>
              token in Run(b, steps).answers && Run(b, steps).answers[token] == b.answers[token]
    decreases |steps|
  {
    if steps != [] {
      NextKeepsInv(b, steps[0]);
      NextKeepsAnswers(b, steps[0]);
      RunKeepsAnswers(Next(b, steps[0]), steps[1..], token);
    }
  }

  /**
   * Every blocking caller is answered by the time its task has ended, at the latest, and with that
   * task: as it ended, or as the working task it still was when the caller's own wait ran out.
   */
  lemma {:induction false} WaitersAreServed(b: Board, steps: seq<Step>, token: nat)
    requires Inv(b) && Runnable(b, steps) && token in b.asked
    ensures var c := Run(b, steps);
            var i := b.asked[token];
            && i < |c.log|
            && (!c.log[i].Live() ==> token in c.answers)
            && (token in c.answers ==>
                  || c.answers[token] == c.log[i].task
                  || (c.answers[token].state == Working && c.answers[token].id == c.log[i].task.id))
  {
    RunKeepsInv(b, steps);
    RunKeepsAnswers(b, steps, token);
    assert Served(Run(b, steps), token, b.asked[token]);
  }

  /** Two tasks share a conversation, and so a queue, only if they are one peer's in one context. */
  lemma ConversationsArePrivate(b: Board, i: nat, j: nat)
    requires Inv(b) && i < |b.log| && j < |b.log|
    ensures b.log[i].recipient == b.log[j].recipient
            <==> b.log[i].peer == b.log[j].peer && b.log[i].task.contextId == b.log[j].task.contextId
  {
    assert Coherent(b.log[i]) && Coherent(b.log[j]);
    CompositeKeysInjective(b.log[i].peer, b.log[i].task.contextId, b.log[j].peer, b.log[j].task.contextId);
  }
}

/**
 * The benchmark runner: one task with its re-runs while the provider throttles, and the loop that writes one
 * row per task and repeat. What a harness answers, and what the proxy records meanwhile, is a parameter: an
 * attempt for every number, and with it how long its turns took. Times of day, sessions and the harness's own
 * reset are not modelled.
 * Source: scripts/bench/run.ts, lines 73-175 and 232-273.
 */
module BenchRun {
  import opened Prelude

  datatype ProxyRecord = ProxyRecord(
    status: nat,
    inFlight: bool,
    prompt: Option<int>,
    completion: Option<int>,
    cost: Option<real>,
    generationId: Option<string>)

  /** One turn: the harness's answer, and the model calls it made for it. */
  datatype Turn = Turn(reply: string, ok: bool, detail: string, records: seq<ProxyRecord>)

  /** One attempt: records that arrive before it starts, its turns, and the grade when the harness did not fail. */
  datatype Attempt = Attempt(
    late: seq<ProxyRecord>,
    turns: seq<Turn>,
    grade: Option<string>,
    toolCalls: nat,
    wallMs: int)

  /** The attempts a task would get: the first, and one for each re-run. Past those listed the first comes again. */
  datatype Attempts = Attempts(first: Attempt, reruns: seq<Attempt>) {
    function At(n: nat): Attempt {
      if n == 0 || n > |reruns| then first else reruns[n - 1]
    }
  }

  datatype Task = Task(id: string, category: string)
  datatype Job = Job(task: Task, repeat: int)

  datatype RunRow = RunRow(
    job: Job,
    pass: bool,
    reason: Option<Reason>,
    reply: string,
    errored: bool,
    retries: nat,
    throttled: bool,
    toolCalls: nat,
    wallMs: int,
    usage: Usage)

  const MAX_RETRIES: nat := 8
  const BACKOFF_CAP_MS: nat := 120000

  // ---------------------------------------------------------------- one attempt

  predicate Throttling(r: ProxyRecord) {
    r.status == 429 || r.status == 0 || (r.status == 402 && r.inFlight)
  }

  /** The provider throttled the run. */
  predicate RateLimited(records: seq<ProxyRecord>) {
    exists i | 0 <= i < |records| :: Throttling(records[i])
  }

  /** The turns that run: up to the first that is not ok, and it. */
  function Ran(turns: seq<Turn>): seq<Turn> {
    if turns == [] then []
    else if !turns[0].ok then [turns[0]]
    else [turns[0]] + Ran(turns[1..])
  }

  function RecordsOf(turns: seq<Turn>): seq<ProxyRecord> {
    if turns == [] then [] else RecordsOf(turns[..|turns| - 1]) + turns[|turns| - 1].records
  }

  function Records(attempt: Attempt): seq<ProxyRecord> {
    RecordsOf(Ran(attempt.turns))
  }

  function LastReply(turns: seq<Turn>): string {
    if turns == [] then "" else turns[|turns| - 1].reply
  }

  predicate Errored(turns: seq<Turn>) {
    turns != [] && !turns[|turns| - 1].ok
  }

  function Shortened(s: string, n: nat): string {
    if |s| <= n then s else s[..n]
  }

  /** Why an attempt failed: its harness did, with at most 300 characters of detail, or its task's grade says so. */
  datatype Reason = HarnessError(detail: string) | Graded(text: string)

  function GradeOf(grade: Option<string>): Option<Reason> {
    if grade.Some? then Some(Graded(grade.value)) else None
  }

  /** Why the attempt failed, or `None` when it passed. */
  function Failure(attempt: Attempt): Option<Reason> {
    var ran := Ran(attempt.turns);
    if Errored(ran) then Some(HarnessError(Shortened(ran[|ran| - 1].detail, 300)))
    else GradeOf(attempt.grade)
  }

  /** The attempt failed while the provider throttled it. */
  predicate Throttled(attempt: Attempt) {
    Failure(attempt).Some? && RateLimited(Records(attempt))
  }

  datatype Usage = Usage(modelCalls: nat, promptTokens: int, completionTokens: int, cost: real, ids: seq<string>)

  function Or<T>(o: Option<T>, none: T): T {
    if o.Some? then o.value else none
  }

  /** What the records add up to; one without usage or an id counts as a call and nothing else. */
  function UsageOf(records: seq<ProxyRecord>): Usage {
    if records == [] then Usage(0, 0, 0, 0.0, [])
    else
      var sum, last := UsageOf(records[..|records| - 1]), records[|records| - 1];
      Usage(sum.modelCalls + 1, sum.promptTokens + Or(last.prompt, 0), sum.completionTokens + Or(last.completion, 0),
            sum.cost + Or(last.cost, 0.0),
            sum.ids + (if last.generationId.Some? then [last.generationId.value] else []))
  }

  /** What a row says of the records and the outcome of an attempt. */
  function Summary(job: Job, failure: Option<Reason>, reply: string, errored: bool, retries: nat, toolCalls: nat,
                   wallMs: int, records: seq<ProxyRecord>): RunRow
  {
    RunRow(job, failure.None?, failure, reply, errored, retries, failure.Some? && RateLimited(records), toolCalls,
           wallMs, UsageOf(records))
  }

  /** The row of one attempt: it counts the records of the turns that ran, and no others. */
  function RowOf(job: Job, attempt: Attempt, retries: nat): RunRow {
    var ran := Ran(attempt.turns);
    Summary(job, Failure(attempt), LastReply(ran), Errored(ran), retries, attempt.toolCalls, attempt.wallMs,
            Records(attempt))
  }

  // ---------------------------------------------------------------- the re-runs

  /** The attempt that counts: the first from `from` on that is not throttled, or the last allowed. */
  function Kept(attempts: Attempts, from: nat): (k: nat)
    requires from <= MAX_RETRIES
    ensures from <= k <= MAX_RETRIES
    decreases MAX_RETRIES - from
  {
    if from == MAX_RETRIES || !Throttled(attempts.At(from)) then from else Kept(attempts, from + 1)
  }

  lemma {:induction false} KeptIsFirst(attempts: Attempts, from: nat)
    requires from <= MAX_RETRIES
    ensures var k := Kept(attempts, from);
            && (forall j: nat | from <= j < k :: Throttled(attempts.At(j)))
            && (k < MAX_RETRIES ==> !Throttled(attempts.At(k)))
    decreases MAX_RETRIES - from
  {
    if from < MAX_RETRIES && Throttled(attempts.At(from)) {
      KeptIsFirst(attempts, from + 1);
      assert Kept(attempts, from) == Kept(attempts, from + 1);
    } else {
      assert Kept(attempts, from) == from;
    }
  }

  function RowFor(job: Job, attempts: Attempts): (row: RunRow)
    ensures row.job == job
  {
    RowOf(job, attempts.At(Kept(attempts, 0)), Kept(attempts, 0))
  }

  lemma {:induction false} KeptThrottled(attempts: Attempts)
    ensures var k := Kept(attempts, 0);
            Throttled(attempts.At(k))
            <==> k == MAX_RETRIES && forall j: nat | j <= MAX_RETRIES :: Throttled(attempts.At(j))
  {
    var k := Kept(attempts, 0);
    KeptIsFirst(attempts, 0);
    assert Throttled(attempts.At(k)) ==> k == MAX_RETRIES;
  }

  /**
   * A row is throttled if and only if every one of the attempts allowed failed while throttled. So a row
   * that failed and is not throttled failed while the provider was answering.
   */
  lemma ThrottledToTheEnd(job: Job, attempts: Attempts)
    ensures RowFor(job, attempts).throttled <==> forall j: nat | j <= MAX_RETRIES :: Throttled(attempts.At(j))
    ensures RowFor(job, attempts).throttled ==> RowFor(job, attempts).retries == MAX_RETRIES
  {
    KeptThrottled(attempts);
  }

  /** The attempt passed, and each before it failed while throttled. */
  ghost predicate PassesAt(attempts: Attempts, k: nat) {
    Failure(attempts.At(k)).None? && forall j: nat | j < k :: Throttled(attempts.At(j))
  }

  lemma {:induction false} KeptPasses(attempts: Attempts)
    ensures Failure(attempts.At(Kept(attempts, 0))).None? <==> exists k: nat | k <= MAX_RETRIES :: PassesAt(attempts, k)
  {
    var kept := Kept(attempts, 0);
    KeptIsFirst(attempts, 0);
    if Failure(attempts.At(kept)).None? {
      assert PassesAt(attempts, kept);
    }
    if k: nat :| k <= MAX_RETRIES && PassesAt(attempts, k) {
      assert !Throttled(attempts.At(k));
      assert kept >= k && kept <= k;
    }
  }

  /** A row passes if and only if an attempt passes before one fails unthrottled. */
  lemma FirstPassCounts(job: Job, attempts: Attempts)
    ensures RowFor(job, attempts).pass <==> exists k: nat | k <= MAX_RETRIES :: PassesAt(attempts, k)
  {
    KeptPasses(attempts);
  }

  function Max(a: nat, b: nat): nat {
    if a < b then b else a
  }

  function Min(a: nat, b: nat): nat {
    if a < b then a else b
  }

  function Power(n: nat): nat {
    if n == 0 then 1 else 2 * Power(n - 1)
  }

  predicate PaymentAsked(records: seq<ProxyRecord>) {
    exists i | 0 <= i < |records| :: records[i].status == 402
  }

  /** How long to wait before re-run number `retries`. */
  function Backoff(retries: nat, records: seq<ProxyRecord>): nat {
    Max(Min(5000 * Power(retries), BACKOFF_CAP_MS), if PaymentAsked(records) then 120000 else 0)
  }

  function Waits(attempts: Attempts, n: nat): seq<nat> {
    if n == 0 then [] else Waits(attempts, n - 1) + [Backoff(n, Records(attempts.At(n - 1)))]
  }

  function Total(waits: seq<nat>): nat {
    if waits == [] then 0 else Total(waits[..|waits| - 1]) + waits[|waits| - 1]
  }

  lemma BackoffBounds(retries: nat, records: seq<ProxyRecord>)
    requires 1 <= retries
    ensures Backoff(retries, records) <= BACKOFF_CAP_MS
    ensures Backoff(retries, records) >= if retries == 1 then 10000 else if retries == 2 then 20000
                                         else if retries == 3 then 40000 else if retries == 4 then 80000 else 120000
  {
    assert Power(1) == 2 && Power(2) == 4 && Power(3) == 8 && Power(4) == 16;
    if retries >= 5 {
      PowerGrows(retries);
    }
  }

  lemma {:induction false} PowerGrows(n: nat)
    requires n >= 5
    ensures Power(n) >= 32
  {
    if n == 5 {
      assert Power(4) == 16;
    } else {
      PowerGrows(n - 1);
    }
  }

  lemma {:induction false} WaitsAre(attempts: Attempts, n: nat)
    ensures |Waits(attempts, n)| == n
    ensures n <= 4 ==> Total(Waits(attempts, n)) >= 10000 * (Power(n) - 1)
    ensures n > 4 ==> Total(Waits(attempts, n)) >= 150000 + 120000 * (n - 4)
    ensures Total(Waits(attempts, n)) <= 120000 * n
  {
    if n > 0 {
      WaitsAre(attempts, n - 1);
      BackoffBounds(n, Records(attempts.At(n - 1)));
      var before := Waits(attempts, n - 1);
      assert (before + [Backoff(n, Records(attempts.At(n - 1)))])[..n - 1] == before;
      assert Power(0) == 1 && Power(1) == 2 && Power(2) == 4 && Power(3) == 8 && Power(4) == 16;
    }
  }

  /** The patience of one task: between ten and a half and sixteen minutes, when every attempt is throttled. */
  lemma {:induction false} Patience(job: Job, attempts: Attempts)
    requires RowFor(job, attempts).throttled
    ensures 630000 <= Total(Waits(attempts, RowFor(job, attempts).retries)) <= 960000
  {
    ThrottledToTheEnd(job, attempts);
    WaitsAre(attempts, MAX_RETRIES);
  }

  // ---------------------------------------------------------------- the main loop

  /** The jobs of the repeats from `first` to `final`: every task in order, repeat by repeat. */
  function Schedule(tasks: seq<Task>, first: int, final: int): seq<Job>
    decreases final - first
  {
    if first > final then [] else Schedule(tasks, first, final - 1) + JobsOf(tasks, final)
  }

  function JobsOf(tasks: seq<Task>, repeat: int): seq<Job> {
    if tasks == [] then [] else JobsOf(tasks[..|tasks| - 1], repeat) + [Job(tasks[|tasks| - 1], repeat)]
  }

  /** One row for each job, from the runs numbered `from` on. */
  function Pass(jobs: seq<Job>, runs: nat -> Attempts, from: nat): seq<RunRow> {
    if jobs == [] then []
    else
      var n := |jobs| - 1;
      Pass(jobs[..n], runs, from) + [RowFor(jobs[n], runs(from + n))]
  }

  function Measured(rows: seq<RunRow>): seq<RunRow> {
    if rows == [] then []
    else
      var last := rows[|rows| - 1];
      Measured(rows[..|rows| - 1]) + (if last.throttled then [] else [last])
  }

  function HeldBack(rows: seq<RunRow>): seq<Job> {
    if rows == [] then []
    else
      var last := rows[|rows| - 1];
      HeldBack(rows[..|rows| - 1]) + (if last.throttled then [last.job] else [])
  }

  /** The rows written: those measured in the first pass, and after the cooldown those of the jobs held back. */
  function Written(jobs: seq<Job>, runs: nat -> Attempts): seq<RunRow> {
    var first := Pass(jobs, runs, 0);
    Measured(first) + Pass(HeldBack(first), runs, |jobs|)
  }

  function Jobs(rows: seq<RunRow>): seq<Job> {
    if rows == [] then [] else Jobs(rows[..|rows| - 1]) + [rows[|rows| - 1].job]
  }

  lemma {:induction false} JobsAppend(a: seq<RunRow>, b: seq<RunRow>)
    ensures Jobs(a + b) == Jobs(a) + Jobs(b)
  {
    if b == [] {
      assert a + b == a;
    } else {
      var n := |b| - 1;
      JobsAppend(a, b[..n]);
      assert (a + b)[..|a + b| - 1] == a + b[..n];
      Associates(Jobs(a), Jobs(b[..n]), [b[n].job]);
    }
  }

  lemma {:induction false} PassJobs(jobs: seq<Job>, runs: nat -> Attempts, from: nat)
    ensures Jobs(Pass(jobs, runs, from)) == jobs
  {
    if jobs != [] {
      var n := |jobs| - 1;
      PassJobs(jobs[..n], runs, from);
      OneJobMore(Pass(jobs[..n], runs, from), RowFor(jobs[n], runs(from + n)), jobs);
    }
  }

  lemma {:induction false} JobsAdd(rows: seq<RunRow>, row: RunRow)
    ensures Jobs(rows + [row]) == Jobs(rows) + [row.job]
  {
    assert (rows + [row])[..|rows|] == rows;
  }

  lemma OneMore<T>(a: seq<T>, b: seq<T>, c: seq<T>, x: T)
    requires multiset(a) + multiset(b) == multiset(c)
    ensures multiset(a + [x]) + multiset(b) == multiset(c + [x])
    ensures multiset(a) + multiset(b + [x]) == multiset(c + [x])
  {
    assert multiset(a + [x]) == multiset(a) + multiset{x};
    assert multiset(b + [x]) == multiset(b) + multiset{x};
    assert multiset(c + [x]) == multiset(c) + multiset{x};
  }

  lemma {:induction false} OneJobMore(rows: seq<RunRow>, row: RunRow, jobs: seq<Job>)
    requires jobs != [] && Jobs(rows) == jobs[..|jobs| - 1] && row.job == jobs[|jobs| - 1]
    ensures Jobs(rows + [row]) == jobs
  {
    JobsAdd(rows, row);
    assert jobs == jobs[..|jobs| - 1] + [jobs[|jobs| - 1]];
  }

  lemma {:induction false} MeasuredJobs(rows: seq<RunRow>)
    ensures multiset(Jobs(Measured(rows))) + multiset(HeldBack(rows)) == multiset(Jobs(rows))
  {
    if rows != [] {
      var before, last := rows[..|rows| - 1], rows[|rows| - 1];
      MeasuredJobs(before);
      OneMore(Jobs(Measured(before)), HeldBack(before), Jobs(before), last.job);
      if last.throttled {
        assert Measured(rows) == Measured(before);
      } else {
        JobsAdd(Measured(before), last);
        assert HeldBack(rows) == HeldBack(before);
      }
    }
  }

  /** Every job is written exactly as often as it is scheduled. */
  lemma EachJobWritten(jobs: seq<Job>, runs: nat -> Attempts)
    ensures multiset(Jobs(Written(jobs, runs))) == multiset(jobs)
  {
    var first := Pass(jobs, runs, 0);
    PassJobs(jobs, runs, 0);
    MeasuredJobs(first);
    PassJobs(HeldBack(first), runs, |jobs|);
    JobsAppend(Measured(first), Pass(HeldBack(first), runs, |jobs|));
  }

  lemma CountAdd<T>(a: seq<T>, x: T, y: T)
    ensures multiset(a + [x])[y] == multiset(a)[y] + (if x == y then 1 else 0)
  {
    assert multiset(a + [x]) == multiset(a) + multiset{x};
  }

  lemma {:induction false} JobsOfCount(tasks: seq<Task>, repeat: int, job: Job)
    ensures multiset(JobsOf(tasks, repeat))[job] == if job.repeat == repeat then multiset(tasks)[job.task] else 0
  {
    if tasks != [] {
      var n := |tasks| - 1;
      JobsOfCount(tasks[..n], repeat, job);
      CountAdd(tasks[..n], tasks[n], job.task);
      CountAdd(JobsOf(tasks[..n], repeat), Job(tasks[n], repeat), job);
      assert tasks == tasks[..n] + [tasks[n]];
    }
  }

  lemma {:induction false} ScheduleCount(tasks: seq<Task>, first: int, final: int, job: Job)
    ensures multiset(Schedule(tasks, first, final))[job]
         == (if first <= job.repeat <= final then multiset(tasks)[job.task] else 0)
    decreases final - first
  {
    if first <= final {
      ScheduleCount(tasks, first, final - 1, job);
      JobsOfCount(tasks, final, job);
      assert multiset(Schedule(tasks, first, final - 1) + JobsOf(tasks, final))
          == multiset(Schedule(tasks, first, final - 1)) + multiset(JobsOf(tasks, final));
    }
  }

  /**
   * Every repeat of every task asked for is written once, whatever was throttled, and nothing else is: so runs
   * of one repeat each write together what one run of them all does.
   */
  lemma {:induction false} EachRepeatOnce(tasks: seq<Task>, first: int, final: int, runs: nat -> Attempts, job: Job)
    ensures multiset(Jobs(Written(Schedule(tasks, first, final), runs)))[job]
         == if first <= job.repeat <= final then multiset(tasks)[job.task] else 0
  {
    EachJobWritten(Schedule(tasks, first, final), runs);
    ScheduleCount(tasks, first, final, job);
  }

  /** No throttled row is written before the cooldown. */
  lemma {:induction false} MeasuredFirst(rows: seq<RunRow>)
    ensures forall row | row in Measured(rows) :: !row.throttled && row in rows
  {
    if rows != [] {
      MeasuredFirst(rows[..|rows| - 1]);
    }
  }

  function Passes(rows: seq<RunRow>): nat {
    if rows == [] then 0 else Passes(rows[..|rows| - 1]) + (if rows[|rows| - 1].pass then 1 else 0)
  }

  lemma {:induction false} PassesAdd(rows: seq<RunRow>, row: RunRow)
    ensures Passes(rows + [row]) == Passes(rows) + (if row.pass then 1 else 0)
  {
    assert (rows + [row])[..|rows|] == rows;
  }

  // ---------------------------------------------------------------- the runner

  lemma RanAdds(turns: seq<Turn>, i: nat)
    requires i < |turns| && forall j | 0 <= j < i :: turns[j].ok
    ensures Ran(turns[i..]) == if turns[i].ok then [turns[i]] + Ran(turns[i + 1..]) else [turns[i]]
  {
    assert turns[i..][1..] == turns[i + 1..];
  }

  lemma {:induction false} RecordsAdd(turns: seq<Turn>, turn: Turn)
    ensures RecordsOf(turns + [turn]) == RecordsOf(turns) + turn.records
  {
    assert (turns + [turn])[..|turns|] == turns;
  }

  lemma {:induction false} PassAdds(jobs: seq<Job>, runs: nat -> Attempts, from: nat, i: nat, row: RunRow)
    requires i < |jobs| && row == RowFor(jobs[i], runs(from + i))
    ensures Pass(jobs[..i + 1], runs, from) == Pass(jobs[..i], runs, from) + [row]
  {
    var upTo := jobs[..i + 1];
    assert |upTo| - 1 == i && upTo[i] == jobs[i] && upTo[..i] == jobs[..i];
    assert runs(from + (|upTo| - 1)) == runs(from + i);
  }

  /** The rows of the first `n` jobs of the first pass. */
  ghost predicate SoFar(rows: seq<RunRow>, jobs: seq<Job>, runs: nat -> Attempts, n: nat) {
    n <= |jobs| && rows == Pass(jobs[..n], runs, 0)
  }

  lemma NoneSoFar(jobs: seq<Job>, runs: nat -> Attempts)
    ensures SoFar([], jobs, runs, 0)
  {}

  lemma MoreSoFar(rows: seq<RunRow>, row: RunRow, jobs: seq<Job>, runs: nat -> Attempts, i: nat)
    requires SoFar(rows, jobs, runs, i) && i < |jobs|
    requires Pass(jobs[..i + 1], runs, 0) == Pass(jobs[..i], runs, 0) + [row]
    ensures SoFar(rows + [row], jobs, runs, i + 1)
  {}

  lemma {:induction false} AllSoFar(rows: seq<RunRow>, jobs: seq<Job>, runs: nat -> Attempts)
    requires SoFar(rows, jobs, runs, |jobs|)
    ensures rows == Pass(jobs, runs, 0)
  {
    assert jobs[..|jobs|] == jobs;
  }

  lemma {:induction false} MeasuredAdd(rows: seq<RunRow>, row: RunRow)
    ensures Measured(rows + [row]) == if row.throttled then Measured(rows) else Measured(rows) + [row]
    ensures HeldBack(rows + [row]) == if row.throttled then HeldBack(rows) + [row.job] else HeldBack(rows)
  {
    assert (rows + [row])[..|rows|] == rows;
  }

  class Runner {
    var records: seq<ProxyRecord>
    var file: seq<RunRow>
    var passed: nat
    var total: nat

    constructor (file: seq<RunRow>)
      ensures this.file == file && passed == 0 && total == 0 && records == []
    {
      this.file := file;
      passed, total, records := 0, 0, [];
    }

    /** The records made since the last call. */
    method TakeRecords() returns (taken: seq<ProxyRecord>)
      modifies `records
      ensures taken == old(records) && records == []
    {
      taken := records;
      records := [];
    }

    /** The turns of one attempt, until one is not ok. Each leaves its model calls with the proxy. */
    method TakeTurns(turns: seq<Turn>) returns (reply: string, errored: bool, detail: string)
      requires records == []
      modifies `records
      ensures records == RecordsOf(Ran(turns)) && reply == LastReply(Ran(turns)) && errored == Errored(Ran(turns))
      ensures errored ==> detail == Ran(turns)[|Ran(turns)| - 1].detail
    {
      reply, errored, detail := "", false, "";
      ghost var done: seq<Turn> := [];
      var i := 0;
      assert turns[0..] == turns;
      while i < |turns|
        invariant 0 <= i <= |turns| && (forall j | 0 <= j < i :: turns[j].ok)
        invariant Ran(turns) == done + Ran(turns[i..])
        invariant records == RecordsOf(done) && reply == LastReply(done) && !errored && !Errored(done)
      {
        RanAdds(turns, i);
        RecordsAdd(done, turns[i]);
        Associates(done, [turns[i]], Ran(turns[i + 1..]));
        records := records + turns[i].records;
        reply := turns[i].reply;
        done := done + [turns[i]];
        if !turns[i].ok {
          errored, detail := true, turns[i].detail;
          return;
        }
        i := i + 1;
      }
      assert done + [] == done;
    }

    /** One attempt: whatever the proxy still holds from before it is dropped. */
    method RunAttempt(attempt: Attempt)
      returns (failure: Option<Reason>, reply: string, errored: bool, taken: seq<ProxyRecord>)
      modifies `records
      ensures failure == Failure(attempt) && taken == Records(attempt)
      ensures reply == LastReply(Ran(attempt.turns)) && errored == Errored(Ran(attempt.turns))
    {
      records := records + attempt.late;
      var dropped := TakeRecords();
      var detail;
      reply, errored, detail := TakeTurns(attempt.turns);
      taken := TakeRecords();
      failure := if errored then Some(HarnessError(Shortened(detail, 300))) else GradeOf(attempt.grade);
    }

    /**
     * One task, re-run while it fails throttled. The row counts the records of the attempt it reports and
     * no others.
     */
    method RunTask(job: Job, attempts: Attempts) returns (row: RunRow, waits: seq<nat>)
      modifies `records
      ensures row == RowFor(job, attempts)
      ensures waits == Waits(attempts, row.retries)
    {
      var retries := 0;
      waits := [];
      while true
        invariant retries <= MAX_RETRIES && Kept(attempts, 0) == Kept(attempts, retries)
        invariant waits == Waits(attempts, retries)
        decreases MAX_RETRIES - retries
      {
        var failure, reply, errored, taken := RunAttempt(attempts.At(retries));
        if failure.Some? && RateLimited(taken) && retries < MAX_RETRIES {
          retries := retries + 1;
          waits := waits + [Backoff(retries, taken)];
        } else {
          var attempt := attempts.At(retries);
          row := Summary(job, failure, reply, errored, retries, attempt.toolCalls, attempt.wallMs, taken);
          return;
        }
      }
    }

    method Write(row: RunRow)
      modifies `file, `passed, `total
      ensures file == old(file) + [row] && total == old(total) + 1
      ensures passed == old(passed) + if row.pass then 1 else 0
    {
      file := file + [row];
      total := total + 1;
      if row.pass {
        passed := passed + 1;
      }
    }

    /** Write a row of the first pass, or hold its job back. */
    method Place(row: RunRow, deferred: seq<Job>, ghost before: seq<RunRow>, ghost rows: seq<RunRow>)
      returns (after: seq<Job>)
      requires file == before + Measured(rows) && deferred == HeldBack(rows)
      requires passed == Passes(file) && total == |file|
      modifies `file, `passed, `total
      ensures file == before + Measured(rows + [row]) && after == HeldBack(rows + [row])
      ensures passed == Passes(file) && total == |file|
    {
      MeasuredAdd(rows, row);
      if row.throttled {
        after := deferred + [row.job];
      } else {
        after := deferred;
        Associates(before, Measured(rows), [row]);
        PassesAdd(file, row);
        Write(row);
      }
    }

    /** The first pass: a row still throttled after its re-runs is held back, every other is written at once. */
    method FirstPass(jobs: seq<Job>, runs: nat -> Attempts) returns (deferred: seq<Job>)
      requires passed == Passes(file) && total == |file|
      modifies `records, `file, `passed, `total
      ensures file == old(file) + Measured(Pass(jobs, runs, 0)) && deferred == HeldBack(Pass(jobs, runs, 0))
      ensures passed == Passes(file) && total == |file|
    {
      deferred := [];
      ghost var rows: seq<RunRow> := [];
      var i := 0;
      assert file == old(file) + [];
      NoneSoFar(jobs, runs);
      while i < |jobs|
        invariant 0 <= i <= |jobs| && SoFar(rows, jobs, runs, i)
        invariant file == old(file) + Measured(rows) && deferred == HeldBack(rows)
        invariant passed == Passes(file) && total == |file|
      {
        var row := RunJob(jobs, runs, 0, i);
        MoreSoFar(rows, row, jobs, runs, i);
        deferred := Place(row, deferred, old(file), rows);
        rows := rows + [row];
        i := i + 1;
      }
      AllSoFar(rows, jobs, runs);
    }

    /** One job of a pass, of which `from` runs were before. */
    method RunJob(jobs: seq<Job>, runs: nat -> Attempts, from: nat, i: nat) returns (row: RunRow)
      requires i < |jobs|
      modifies `records
      ensures row.job == jobs[i] && Pass(jobs[..i + 1], runs, from) == Pass(jobs[..i], runs, from) + [row]
    {
      var waits;
      row, waits := RunTask(jobs[i], runs(from + i));
      PassAdds(jobs, runs, from, i, row);
    }

    /** The second pass, after the cooldown: every row is written. */
    method SecondPass(jobs: seq<Job>, runs: nat -> Attempts, from: nat)
      requires passed == Passes(file) && total == |file|
      modifies this
      ensures file == old(file) + Pass(jobs, runs, from)
      ensures passed == Passes(file) && total == |file|
    {
      var i := 0;
      assert file == old(file) + [];
      while i < |jobs|
        invariant 0 <= i <= |jobs|
        invariant file == old(file) + Pass(jobs[..i], runs, from)
        invariant passed == Passes(file) && total == |file|
      {
        var row := RunJob(jobs, runs, from, i);
        Associates(old(file), Pass(jobs[..i], runs, from), [row]);
        PassesAdd(file, row);
        Write(row);
        i := i + 1;
      }
      assert jobs[..i] == jobs;
    }

    /** The main loop: a first pass over every repeat, or the one asked for, and a second over the jobs held back. */
    method RunAll(tasks: seq<Task>, repeats: int, only: Option<int>, runs: nat -> Attempts)
      requires passed == Passes(file) && total == |file|
      modifies this
      ensures file == old(file) + Written(Schedule(tasks, Or(only, 1), Or(only, repeats)), runs)
      ensures passed == Passes(file) && total == |file|
    {
      var jobs := Schedule(tasks, Or(only, 1), Or(only, repeats));
      var deferred := FirstPass(jobs, runs);
      SecondPass(deferred, runs, |jobs|);
      Associates(old(file), Measured(Pass(jobs, runs, 0)), Pass(deferred, runs, |jobs|));
    }
  }
}

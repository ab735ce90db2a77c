/**
 * The benchmark report: rows grouped into rates, one summary an arm, and the files an arm is written in.
 * Source: scripts/bench/report.ts, lines 55-114; scripts/bench/summary.ts, lines 67-76.
 */
module BenchReport {
  import opened Prelude
  import opened BenchRun
  import opened Wilson
  import opened Median
  import Text

  datatype Field = ByTask | ByCategory

  function Key(row: RunRow, field: Field): string {
    if field == ByTask then row.job.task.id else row.job.task.category
  }

  datatype Arm = Arm(
    name: string,
    overall: Rate,
    errored: nat,
    throttled: nat,
    retries: nat,
    cost: real,
    promptTokens: int,
    completionTokens: int,
    medianWallMs: int,
    categories: map<string, Rate>,
    tasks: map<string, Rate>)

  /** Four digits of any amount; a negative one is rounded as its opposite is. */
  function RoundAny(x: real): real {
    if x < 0.0 then -Round(-x) else Round(x)
  }

  ghost predicate IsSqrt(sqrt: real -> real) {
    forall x: real :: x >= 0.0 ==> IsRoot(sqrt(x), x)
  }

  lemma {:induction false} PassesWithin(rows: seq<RunRow>)
    ensures Passes(rows) <= |rows|
  {
    if rows != [] {
      PassesWithin(rows[..|rows| - 1]);
    }
  }

  /** The rate of a list of rows. */
  function RateOf(rows: seq<RunRow>, sqrt: real -> real): (r: Rate)
    requires IsSqrt(sqrt)
    ensures r.pass == Passes(rows) && r.n == |rows| && r.pass <= r.n
  {
    PassesWithin(rows);
    if rows == [] then Interval(0, 0, 0.0)
    else
      RadicandIsSquare(Passes(rows), |rows|);
      Interval(Passes(rows), |rows|, sqrt(Radicand(Passes(rows), |rows|)))
  }

  // ---------------------------------------------------------------- groups

  /** The rows with one value of the field, in order. */
  function Of(rows: seq<RunRow>, field: Field, key: string): seq<RunRow> {
    if rows == [] then []
    else
      var last := rows[|rows| - 1];
      Of(rows[..|rows| - 1], field, key) + (if Key(last, field) == key then [last] else [])
  }

  ghost predicate Grouped(groups: map<string, seq<RunRow>>, rows: seq<RunRow>, field: Field) {
    forall key :: if key in groups then groups[key] == Of(rows, field, key) != [] else Of(rows, field, key) == []
  }

  lemma GroupedAdd(groups: map<string, seq<RunRow>>, rows: seq<RunRow>, field: Field, row: RunRow)
    requires Grouped(groups, rows, field)
    ensures var key := Key(row, field);
            Grouped(groups[key := Member(groups, key) + [row]], rows + [row], field)
  {
    assert (rows + [row])[..|rows|] == rows;
  }

  function Member(groups: map<string, seq<RunRow>>, key: string): seq<RunRow> {
    if key in groups then groups[key] else []
  }

  /** The groups as the source builds them: each row is appended to its own. */
  method GroupRows(rows: seq<RunRow>, field: Field) returns (groups: map<string, seq<RunRow>>)
    ensures Grouped(groups, rows, field)
  {
    groups := map[];
    var i := 0;
    while i < |rows|
      invariant 0 <= i <= |rows| && Grouped(groups, rows[..i], field)
    {
      var key := Key(rows[i], field);
      GroupedAdd(groups, rows[..i], field, rows[i]);
      assert rows[..i + 1] == rows[..i] + [rows[i]];
      groups := groups[key := Member(groups, key) + [rows[i]]];
      i := i + 1;
    }
    assert rows[..i] == rows;
  }

  /** A rate for every value of the field that a row has, over the rows that have it. */
  ghost predicate RatesOf(rates: map<string, Rate>, rows: seq<RunRow>, field: Field, sqrt: real -> real)
    requires IsSqrt(sqrt)
  {
    forall key :: if key in rates then Of(rows, field, key) != [] && rates[key] == RateOf(Of(rows, field, key), sqrt)
                  else Of(rows, field, key) == []
  }

  method RateBy(rows: seq<RunRow>, field: Field, sqrt: real -> real) returns (rates: map<string, Rate>)
    requires IsSqrt(sqrt)
    ensures RatesOf(rates, rows, field, sqrt)
  {
    var groups := GroupRows(rows, field);
    rates := map key | key in groups :: RateOf(groups[key], sqrt);
  }

  // ---------------------------------------------------------------- sums over groups

  datatype Tally = Tally(pass: nat, n: nat)

  ghost function Sum(rates: map<string, Rate>): Tally {
    if rates == map[] then Tally(0, 0)
    else
      var key :| key in rates;
      var rest := Sum(rates - {key});
      Tally(rest.pass + rates[key].pass, rest.n + rates[key].n)
  }

  /** The sum does not depend on the order the groups are taken in. */
  lemma {:induction false} SumSplits(rates: map<string, Rate>, key: string)
    requires key in rates
    ensures var rest := Sum(rates - {key}); Sum(rates) == Tally(rest.pass + rates[key].pass, rest.n + rates[key].n)
    decreases |rates|
  {
    var first :| first in rates && Sum(rates) == Tally(Sum(rates - {first}).pass + rates[first].pass,
                                                       Sum(rates - {first}).n + rates[first].n);
    if first != key {
      SumSplits(rates - {first}, key);
      SumSplits(rates - {key}, first);
      assert rates - {first} - {key} == rates - {key} - {first};
    }
  }

  function Others(rows: seq<RunRow>, field: Field, key: string): seq<RunRow> {
    if rows == [] then []
    else
      var last := rows[|rows| - 1];
      Others(rows[..|rows| - 1], field, key) + (if Key(last, field) == key then [] else [last])
  }

  lemma {:induction false} PassesOne(rows: seq<RunRow>, more: seq<RunRow>)
    requires |more| <= 1
    ensures Passes(rows + more) == Passes(rows) + Passes(more)
  {
    if more == [] {
      assert rows + more == rows;
    } else {
      assert more[..0] == [];
      PassesAdd(rows, more[0]);
      assert rows + more == rows + [more[0]];
    }
  }

  /** Taking one group out leaves the others, and takes out its rows and its passes. */
  lemma {:induction false} OthersAre(rows: seq<RunRow>, field: Field, key: string)
    ensures |rows| == |Of(rows, field, key)| + |Others(rows, field, key)|
    ensures Passes(rows) == Passes(Of(rows, field, key)) + Passes(Others(rows, field, key))
  {
    if rows != [] {
      var before, last := rows[..|rows| - 1], rows[|rows| - 1];
      OthersAre(before, field, key);
      PassesOne(before, [last]);
      PassesOne(Of(before, field, key), if Key(last, field) == key then [last] else []);
      PassesOne(Others(before, field, key), if Key(last, field) == key then [] else [last]);
      assert rows == before + [last];
    }
  }

  lemma {:induction false} OfAdd(rows: seq<RunRow>, row: RunRow, field: Field, key: string)
    ensures Of(rows + [row], field, key) == Of(rows, field, key) + (if Key(row, field) == key then [row] else [])
  {
    assert (rows + [row])[..|rows|] == rows;
  }

  lemma {:induction false} OthersKeep(rows: seq<RunRow>, field: Field, key: string, other: string)
    ensures Of(Others(rows, field, key), field, other) == if other == key then [] else Of(rows, field, other)
  {
    if rows != [] {
      var before, last := rows[..|rows| - 1], rows[|rows| - 1];
      var others := Others(before, field, key);
      OthersKeep(before, field, key, other);
      OfAdd(others, last, field, other);
      assert Others(rows, field, key) == if Key(last, field) == key then others else others + [last];
    }
  }

  /** What the rates count, whatever their intervals: a group for every value of the field that a row has. */
  ghost predicate Tallied(rates: map<string, Rate>, rows: seq<RunRow>, field: Field) {
    forall key ::
      var group := Of(rows, field, key);
      if key in rates then group != [] && rates[key].pass == Passes(group) && rates[key].n == |group| else group == []
  }

  lemma RatesTally(rates: map<string, Rate>, rows: seq<RunRow>, field: Field, sqrt: real -> real)
    requires IsSqrt(sqrt) && RatesOf(rates, rows, field, sqrt)
    ensures Tallied(rates, rows, field)
  {}

  lemma {:induction false} TalliedOthers(rates: map<string, Rate>, rows: seq<RunRow>, field: Field, key: string)
    requires Tallied(rates, rows, field) && key in rates
    ensures Tallied(rates - {key}, Others(rows, field, key), field)
  {
    var rest, others := rates - {key}, Others(rows, field, key);
    forall other
      ensures var group := Of(others, field, other);
              if other in rest then group != [] && rest[other].pass == Passes(group) && rest[other].n == |group|
              else group == []
    {
      OthersKeep(rows, field, key, other);
    }
  }

  lemma OwnGroup(rows: seq<RunRow>, field: Field)
    requires rows != []
    ensures Of(rows, field, Key(rows[|rows| - 1], field)) != []
  {}

  lemma NoGroupsNoRows(rows: seq<RunRow>, field: Field)
    requires Tallied(map[], rows, field)
    ensures rows == []
  {
    if rows != [] {
      OwnGroup(rows, field);
    }
  }

  lemma {:induction false} OneGroup(rates: map<string, Rate>, rows: seq<RunRow>, field: Field, key: string)
    requires Tallied(rates, rows, field) && key in rates
    ensures Passes(rows) == rates[key].pass + Passes(Others(rows, field, key))
    ensures |rows| == rates[key].n + |Others(rows, field, key)|
  {
    OthersAre(rows, field, key);
  }

  /**
   * Grouping conserves: whatever the field, the passes and the rows of the groups add up to those of all rows.
   */
  lemma {:induction false} GroupsConserve(rates: map<string, Rate>, rows: seq<RunRow>, field: Field)
    requires Tallied(rates, rows, field)
    ensures Sum(rates) == Tally(Passes(rows), |rows|)
    decreases |rates|
  {
    if rates == map[] {
      NoGroupsNoRows(rows, field);
    } else {
      var key :| key in rates;
      TalliedOthers(rates, rows, field, key);
      OneGroup(rates, rows, field, key);
      SumSplits(rates, key);
      GroupsConserve(rates - {key}, Others(rows, field, key), field);
    }
  }

  // ---------------------------------------------------------------- tasks passed on every trial

  /** How many groups passed every time. */
  function Perfect(rates: map<string, Rate>): nat {
    |set key | key in rates && rates[key].pass == rates[key].n|
  }

  ghost predicate Within(rates: map<string, Rate>) {
    forall key | key in rates :: rates[key].pass <= rates[key].n
  }

  lemma {:induction false} SumWithin(rates: map<string, Rate>)
    requires Within(rates)
    ensures Sum(rates).pass <= Sum(rates).n
    ensures Sum(rates).pass == Sum(rates).n <==> forall key | key in rates :: rates[key].pass == rates[key].n
    decreases |rates|
  {
    if rates != map[] {
      var key :| key in rates;
      SumSplits(rates, key);
      SumWithin(rates - {key});
      assert forall other | other in rates :: other == key || other in rates - {key};
    }
  }

  /** All groups passed every time exactly when no group failed once. */
  lemma {:induction false} PerfectIsAll(rates: map<string, Rate>)
    requires Within(rates)
    ensures Perfect(rates) <= |rates|
    ensures Perfect(rates) == |rates| <==> Sum(rates).pass == Sum(rates).n
  {
    var perfect := set key | key in rates && rates[key].pass == rates[key].n;
    SumWithin(rates);
    assert perfect <= rates.Keys;
    assert |rates.Keys| == |rates|;
    Subsets(perfect, rates.Keys);
  }

  lemma Subsets<T>(a: set<T>, b: set<T>)
    requires a <= b
    ensures |a| <= |b| && (|a| == |b| <==> a == b)
  {
    assert b == a + (b - a) && |b| == |a| + |b - a|;
  }

  // ---------------------------------------------------------------- an arm

  function Errors(rows: seq<RunRow>): nat {
    if rows == [] then 0 else Errors(rows[..|rows| - 1]) + (if rows[|rows| - 1].errored then 1 else 0)
  }

  function Retries(rows: seq<RunRow>): nat {
    if rows == [] then 0 else Retries(rows[..|rows| - 1]) + rows[|rows| - 1].retries
  }

  function PromptTokens(rows: seq<RunRow>): int {
    if rows == [] then 0 else PromptTokens(rows[..|rows| - 1]) + rows[|rows| - 1].usage.promptTokens
  }

  function CompletionTokens(rows: seq<RunRow>): int {
    if rows == [] then 0 else CompletionTokens(rows[..|rows| - 1]) + rows[|rows| - 1].usage.completionTokens
  }

  function Cost(rows: seq<RunRow>): real {
    if rows == [] then 0.0 else Cost(rows[..|rows| - 1]) + rows[|rows| - 1].usage.cost
  }

  function Walls(rows: seq<RunRow>): seq<int> {
    seq(|rows|, i requires 0 <= i < |rows| => rows[i].wallMs)
  }

  lemma {:induction false} MeasuredAndThrottled(rows: seq<RunRow>)
    ensures |Measured(rows)| + |HeldBack(rows)| == |rows|
  {
    if rows != [] {
      MeasuredAndThrottled(rows[..|rows| - 1]);
    }
  }

  /** The summary of an arm: its cost counts every row, its rates those that were measured. */
  ghost predicate SummaryOf(arm: Arm, rows: seq<RunRow>, sqrt: real -> real)
    requires IsSqrt(sqrt)
  {
    var scored := Measured(rows);
    && arm.overall == RateOf(scored, sqrt)
    && arm.errored == Errors(scored) && arm.throttled == |HeldBack(rows)|
    && arm.retries == Retries(rows) && arm.cost == RoundAny(Cost(rows))
    && arm.promptTokens == PromptTokens(rows) && arm.completionTokens == CompletionTokens(rows)
    && arm.medianWallMs == Middle(Walls(scored))
    && RatesOf(arm.categories, scored, ByCategory, sqrt) && RatesOf(arm.tasks, scored, ByTask, sqrt)
  }

  /** What the summary counts, whatever the intervals of its rates. */
  ghost predicate Counted(arm: Arm, rows: seq<RunRow>) {
    var scored := Measured(rows);
    && arm.overall.pass == Passes(scored) && arm.overall.n == |scored| && arm.throttled == |HeldBack(rows)|
    && Tallied(arm.tasks, scored, ByTask) && Tallied(arm.categories, scored, ByCategory)
  }

  lemma SummaryCounts(arm: Arm, rows: seq<RunRow>, sqrt: real -> real)
    requires IsSqrt(sqrt) && SummaryOf(arm, rows, sqrt)
    ensures Counted(arm, rows)
  {
    RatesTally(arm.tasks, Measured(rows), ByTask, sqrt);
    RatesTally(arm.categories, Measured(rows), ByCategory, sqrt);
  }

  method Summarise(name: string, rows: seq<RunRow>, sqrt: real -> real) returns (r: Result<Arm, string>)
    requires IsSqrt(sqrt)
    ensures r.Err? <==> rows == []
    ensures r.Ok? ==> r.value.name == name && SummaryOf(r.value, rows, sqrt) && Counted(r.value, rows)
  {
    if rows == [] {
      return Err(name);
    }
    var scored := Measured(rows);
    MeasuredAndThrottled(rows);
    var categories := RateBy(scored, ByCategory, sqrt);
    var tasks := RateBy(scored, ByTask, sqrt);
    var arm := Arm(name, RateOf(scored, sqrt), Errors(scored), |rows| - |scored|, Retries(rows), RoundAny(Cost(rows)),
                   PromptTokens(rows), CompletionTokens(rows), Middle(Walls(scored)), categories, tasks);
    SummaryCounts(arm, rows, sqrt);
    return Ok(arm);
  }

  lemma TalliedWithin(rates: map<string, Rate>, rows: seq<RunRow>, field: Field)
    requires Tallied(rates, rows, field)
    ensures Within(rates)
  {
    forall key | key in rates
      ensures rates[key].pass <= rates[key].n
    {
      PassesWithin(Of(rows, field, key));
    }
  }

  /**
   * Every figure of an arm counts the same rows: tasks and categories each add up to the overall rate, that and
   * the throttled rows to all rows, and every task passed on every trial exactly when nothing measured failed.
   */
  lemma ArmConserves(arm: Arm, rows: seq<RunRow>)
    requires Counted(arm, rows)
    ensures Sum(arm.tasks) == Sum(arm.categories) == Tally(arm.overall.pass, arm.overall.n)
    ensures arm.throttled + arm.overall.n == |rows|
    ensures Perfect(arm.tasks) == |arm.tasks| <==> arm.overall.pass == arm.overall.n
  {
    var scored := Measured(rows);
    GroupsConserve(arm.tasks, scored, ByTask);
    GroupsConserve(arm.categories, scored, ByCategory);
    TalliedWithin(arm.tasks, scored, ByTask);
    PerfectIsAll(arm.tasks);
    MeasuredAndThrottled(rows);
  }

  // ---------------------------------------------------------------- shards

  lemma FrontOf<T>(a: seq<T>, b: seq<T>)
    requires b != []
    ensures (a + b)[..|a + b| - 1] == a + b[..|b| - 1] && (a + b)[|a + b| - 1] == b[|b| - 1]
  {}

  /** An arm run in shards: what is measured, held back, spent and retried adds up over them. */
  lemma {:induction false} ShardsAdd(a: seq<RunRow>, b: seq<RunRow>)
    ensures |Measured(a + b)| == |Measured(a)| + |Measured(b)| && |HeldBack(a + b)| == |HeldBack(a)| + |HeldBack(b)|
    ensures Cost(a + b) == Cost(a) + Cost(b) && Retries(a + b) == Retries(a) + Retries(b)
    ensures PromptTokens(a + b) == PromptTokens(a) + PromptTokens(b)
    ensures CompletionTokens(a + b) == CompletionTokens(a) + CompletionTokens(b)
  {
    if b == [] {
      assert a + b == a;
    } else {
      ShardsAdd(a, b[..|b| - 1]);
      FrontOf(a, b);
    }
  }

  lemma {:induction false} MeasuredAppend(a: seq<RunRow>, b: seq<RunRow>)
    ensures Measured(a + b) == Measured(a) + Measured(b)
  {
    if b == [] {
      assert a + b == a;
    } else {
      MeasuredAppend(a, b[..|b| - 1]);
      FrontOf(a, b);
    }
  }

  lemma WallsAppend(a: seq<RunRow>, b: seq<RunRow>)
    ensures Walls(a + b) == Walls(a) + Walls(b)
  {}

  /** The median time of an arm does not depend on the order its shards are read in. */
  lemma {:induction false} ShardsShareMedian(a: seq<RunRow>, b: seq<RunRow>)
    ensures Middle(Walls(Measured(a + b))) == Middle(Walls(Measured(b + a)))
  {
    MeasuredAppend(a, b);
    MeasuredAppend(b, a);
    WallsAppend(Measured(a), Measured(b));
    WallsAppend(Measured(b), Measured(a));
    MiddleOfEither(Walls(Measured(a)), Walls(Measured(b)));
  }

  lemma {:induction false} ShardPassesAdd(a: seq<RunRow>, b: seq<RunRow>)
    ensures Passes(Measured(a + b)) == Passes(Measured(a)) + Passes(Measured(b))
  {
    if b == [] {
      assert a + b == a;
    } else {
      var before, last := b[..|b| - 1], b[|b| - 1];
      ShardPassesAdd(a, before);
      FrontOf(a, b);
      PassesOne(Measured(a + before), if last.throttled then [] else [last]);
      PassesOne(Measured(before), if last.throttled then [] else [last]);
      assert Measured(a + before) + [] == Measured(a + before) && Measured(before) + [] == Measured(before);
    }
  }

  // ---------------------------------------------------------------- the files of an arm

  predicate EndsWith(s: string, end: string) {
    |end| <= |s| && s[|s| - |end|..] == end
  }

  const JSONL := ".jsonl"
  const RAW := ".raw"
  const REPLACED := ".throttled-orig"

  function Digits(s: string): (n: nat)
    ensures n <= |s| && forall i | |s| - n <= i < |s| :: Text.IsDigit(s[i])
    ensures n < |s| ==> !Text.IsDigit(s[|s| - n - 1])
  {
    if s == "" || !Text.IsDigit(s[|s| - 1]) then 0 else 1 + Digits(s[..|s| - 1])
  }

  /** Drops a shard's number: `.r`, then digits to the end. */
  function DropShard(s: string): string {
    var n := Digits(s);
    if n > 0 && |s| >= n + 2 && s[|s| - n - 1] == 'r' && s[|s| - n - 2] == '.' then s[..|s| - n - 2] else s
  }

  /** The arm a results file belongs to; the raw log and the rows a re-run replaced belong to none. */
  function ArmOf(name: string): Option<string> {
    if !EndsWith(name, JSONL) then None
    else
      var base := name[..|name| - |JSONL|];
      if EndsWith(base, RAW) || EndsWith(base, REPLACED) then None else Some(DropShard(base))
  }

  lemma ArmOfFile(base: string)
    ensures ArmOf(base + JSONL)
         == if EndsWith(base, RAW) || EndsWith(base, REPLACED) then None else Some(DropShard(base))
  {
    var name := base + JSONL;
    assert name[..|name| - |JSONL|] == base && name[|name| - |JSONL|..] == JSONL;
  }

  lemma {:induction false} DigitsOf(s: string, digits: string)
    requires forall i | 0 <= i < |digits| :: Text.IsDigit(digits[i])
    requires s != "" && !Text.IsDigit(s[|s| - 1])
    ensures Digits(s + digits) == |digits|
  {
    var t := s + digits;
    if digits == "" {
      assert t == s;
    } else {
      DigitsOf(s, digits[..|digits| - 1]);
      assert t[..|t| - 1] == s + digits[..|digits| - 1];
    }
  }

  /** The shards of an arm are its own, whatever their number. */
  lemma ShardsOfAnArm(arm: string, digits: string)
    requires digits != "" && forall i | 0 <= i < |digits| :: Text.IsDigit(digits[i])
    ensures ArmOf(arm + ".r" + digits + JSONL) == Some(arm)
  {
    var base := arm + ".r" + digits;
    ArmOfFile(base);
    DigitsOf(arm + ".r", digits);
    assert base[..|arm|] == arm;
    LastDiffers(base, RAW);
    LastDiffers(base, REPLACED);
  }

  lemma LastDiffers(s: string, end: string)
    requires s != "" && end != "" && s[|s| - 1] != end[|end| - 1]
    ensures !EndsWith(s, end)
  {
    if |end| <= |s| {
      assert s[|s| - |end|..][|end| - 1] == s[|s| - 1];
    }
  }

  /** The rows of the files of an arm, file after file. */
  function ArmRows(files: seq<(string, seq<RunRow>)>, arm: string): seq<RunRow> {
    if files == [] then []
    else
      var last := files[|files| - 1];
      ArmRows(files[..|files| - 1], arm) + (if ArmOf(last.0) == Some(arm) then last.1 else [])
  }

  /** The directory has a file of the arm. */
  predicate HasArm(files: seq<(string, seq<RunRow>)>, arm: string) {
    files != [] && (HasArm(files[..|files| - 1], arm) || ArmOf(files[|files| - 1].0) == Some(arm))
  }

  function WithFile(arms: map<string, seq<RunRow>>, arm: Option<string>, rows: seq<RunRow>): map<string, seq<RunRow>> {
    if arm.Some? then arms[arm.value := Member(arms, arm.value) + rows] else arms
  }

  ghost predicate Loaded(arms: map<string, seq<RunRow>>, files: seq<(string, seq<RunRow>)>) {
    && (forall arm :: arm in arms <==> HasArm(files, arm))
    && (forall arm :: Member(arms, arm) == ArmRows(files, arm))
  }

  /** The arms of a directory: each file's rows go to its arm, after those of the files before, and nowhere else. */
  method Load(files: seq<(string, seq<RunRow>)>) returns (arms: map<string, seq<RunRow>>)
    ensures Loaded(arms, files)
  {
    arms := map[];
    var i := 0;
    while i < |files|
      invariant 0 <= i <= |files| && Loaded(arms, files[..i])
    {
      LoadedNext(arms, files, i);
      arms := WithFile(arms, ArmOf(files[i].0), files[i].1);
      i := i + 1;
    }
    assert files[..i] == files;
  }

  lemma LoadedNext(arms: map<string, seq<RunRow>>, files: seq<(string, seq<RunRow>)>, i: nat)
    requires i < |files| && Loaded(arms, files[..i])
    ensures Loaded(WithFile(arms, ArmOf(files[i].0), files[i].1), files[..i + 1])
  {
    LoadedAdd(arms, files[..i], files[i]);
    assert files[..i + 1] == files[..i] + [files[i]];
  }

  lemma LoadedAdd(arms: map<string, seq<RunRow>>, files: seq<(string, seq<RunRow>)>, file: (string, seq<RunRow>))
    requires Loaded(arms, files)
    ensures var arm := ArmOf(file.0);
            Loaded(WithFile(arms, arm, file.1), files + [file])
  {
    assert (files + [file])[..|files|] == files;
  }
}

/**
 * The benchmark's tool server: a small world that tools read and write, a log of every call, and failures
 * injected into the first calls of a tool. A task is graded on the world and the log, so the log has to
 * explain the world. Reply wording is reduced to what a reply says; evaluating an arithmetic expression is
 * the parameter `evaluate`, `None` when it does not parse or has no finite value.
 * Source: scripts/bench/tools-server.ts, lines 115-287.
 */
module ToolServer {
  import opened Prelude
  import opened Text

  datatype Tool =
    KvGet | KvSet | ReadFile | WriteFile | Calculator | LookupOrder | Now | SendMessage | Unlisted(name: string)

  datatype Argument = Words(text: string) | OtherThanText

  type Args = map<string, Argument>

  /** An argument that is missing or not text reads as the empty text. */
  function Arg(args: Args, name: string): string {
    if name in args && args[name].Words? then args[name].text else ""
  }

  datatype Order = Order(id: string, printed: string)
  datatype Message = Message(to: string, text: string)

  datatype World = World(
    kv: map<string, string>,
    files: seq<(string, string)>,
    orders: seq<Order>,
    clock: Option<string>,
    failures: map<Tool, int>)

  datatype CallRecord = CallRecord(number: nat, tool: Tool, args: Args, isError: bool)

  datatype Reply =
    Value(text: string) | NoValue | Stored | Wrote(size: nat) | Sent
  | NoFile | NoOrder | NotArithmetic | NoResult | Unavailable | NoSuchTool

  predicate IsError(reply: Reply) {
    || reply.NoFile? || reply.NoOrder? || reply.NotArithmetic? || reply.NoResult?
    || reply.Unavailable? || reply.NoSuchTool?
  }

  const DEFAULT_CLOCK := "2026-03-14T09:30:00Z"

  // ---------------------------------------------------------------- paths

  function Slashes(p: string): (n: nat)
    ensures n <= |p| && (forall i | 0 <= i < n :: p[i] == '/')
    ensures n < |p| ==> p[n] != '/'
  {
    if p == "" || p[0] != '/' then 0 else 1 + Slashes(p[1..])
  }

  /** Drops a leading run of slashes, with at most one dot before it. */
  function StripLead(p: string): string {
    if p != "" && p[0] == '.' && Slashes(p[1..]) > 0 then p[1 + Slashes(p[1..])..] else p[Slashes(p)..]
  }

  /** Every run of slashes becomes one slash. */
  function Squeeze(p: string): string {
    if p == "" then ""
    else if |p| > 1 && p[0] == '/' && p[1] == '/' then Squeeze(p[1..])
    else [p[0]] + Squeeze(p[1..])
  }

  function NormalisePath(p: string): string {
    Squeeze(StripLead(p))
  }

  lemma {:induction false} SqueezeStarts(p: string)
    ensures p == "" <==> Squeeze(p) == ""
    ensures p != "" ==> Squeeze(p)[0] == p[0]
    ensures |p| > 1 && p[0] != '/' ==> |Squeeze(p)| > 1 && Squeeze(p)[1] == p[1]
  {
    if p != "" {
      SqueezeStarts(p[1..]);
    }
  }

  lemma {:induction false} SqueezedIsFixed(p: string)
    ensures Squeeze(Squeeze(p)) == Squeeze(p)
    ensures forall i | 0 <= i < |Squeeze(p)| - 1 :: !(Squeeze(p)[i] == '/' && Squeeze(p)[i + 1] == '/')
  {
    if p != "" {
      SqueezedIsFixed(p[1..]);
      if !(|p| > 1 && p[0] == '/' && p[1] == '/') {
        SqueezeStarts(p[1..]);
        var r, rest := Squeeze(p), Squeeze(p[1..]);
        assert r[1..] == rest;
        forall i | 0 <= i < |r| - 1
          ensures !(r[i] == '/' && r[i + 1] == '/')
        {
          assert i > 0 ==> r[i] == rest[i - 1] && r[i + 1] == rest[i];
        }
      }
    }
  }

  /**
   * A second normalising changes nothing if and only if the first left no `./` in front: only one is
   * dropped at a time, so `././a` and `./a` are two files.
   */
  lemma NormalisedTwice(p: string)
    ensures NormalisePath(NormalisePath(p)) == NormalisePath(p)
            <==> !(|StripLead(p)| > 1 && StripLead(p)[0] == '.' && StripLead(p)[1] == '/')
    ensures NormalisePath(p) == "" || NormalisePath(p)[0] != '/'
  {
    var s := StripLead(p);
    var t := Squeeze(s);
    SqueezeStarts(s);
    SqueezedIsFixed(s);
    assert s == "" || s[0] != '/';
    if |s| > 1 && s[0] == '.' && s[1] == '/' {
      assert t[1..][0] == '/';
      SqueezeShrinks(StripLead(t));
      assert |StripLead(t)| < |t|;
    } else {
      assert t != "" && t[0] == '.' && |t| > 1 ==> t[1] != '/' by {
        if |s| == 1 {
          assert t == [s[0]];
        }
      }
      assert StripLead(t) == t;
    }
  }

  /** Two spellings that are two files. */
  lemma OneDotSlashIsDropped()
    ensures NormalisePath("././a") == "./a" && NormalisePath("./a") == "a"
  {
    assert "././a"[1..][1..] == "./a" && Slashes("./a"[1..]) == 1 && "./a"[2..] == "a";
    assert Slashes("/./a") == 1 && "././a"[2..] == "./a";
    assert "./a"[1..] == "/a" && "/a"[1..] == "a" && "a"[1..] == "";
    assert Squeeze("a") == "a" && Squeeze("/a") == "/a" && Squeeze("./a") == "./a";
  }

  lemma {:induction false} SqueezeShrinks(p: string)
    ensures |Squeeze(p)| <= |p|
  {
    if p != "" {
      SqueezeShrinks(p[1..]);
    }
  }

  // ---------------------------------------------------------------- what a log says

  function Failures(world: World, tool: Tool): int {
    if tool in world.failures then world.failures[tool] else 0
  }

  function CountOf(calls: seq<CallRecord>, tool: Tool): nat {
    if calls == [] then 0
    else CountOf(calls[..|calls| - 1], tool) + (if calls[|calls| - 1].tool == tool then 1 else 0)
  }

  /** The value of a key: what the last successful write of it in the log says, else the loaded world. */
  function LastKv(world: World, calls: seq<CallRecord>, key: string): Option<string> {
    if calls == [] then (if key in world.kv then Some(world.kv[key]) else None)
    else
      var last := calls[|calls| - 1];
      if last.tool == KvSet && !last.isError && Arg(last.args, "key") == key then Some(Arg(last.args, "value"))
      else LastKv(world, calls[..|calls| - 1], key)
  }

  /** The content at a path: the last file loaded under any spelling of it. */
  function LoadedFile(entries: seq<(string, string)>, path: string): Option<string> {
    if entries == [] then None
    else
      var last := entries[|entries| - 1];
      if NormalisePath(last.0) == path then Some(last.1) else LoadedFile(entries[..|entries| - 1], path)
  }

  function LastFile(world: World, calls: seq<CallRecord>, path: string): Option<string> {
    if calls == [] then LoadedFile(world.files, path)
    else
      var last := calls[|calls| - 1];
      if last.tool == WriteFile && !last.isError && NormalisePath(Arg(last.args, "path")) == path
      then Some(Arg(last.args, "content"))
      else LastFile(world, calls[..|calls| - 1], path)
  }

  function MessagesSent(calls: seq<CallRecord>): seq<Message> {
    if calls == [] then []
    else
      var last := calls[|calls| - 1];
      MessagesSent(calls[..|calls| - 1])
      + (if last.tool == SendMessage && !last.isError then [Message(Arg(last.args, "to"), Arg(last.args, "text"))]
         else [])
  }

  function FirstOrder(orders: seq<Order>, id: string): Option<Order> {
    if orders == [] then None
    else if orders[0].id == id then Some(orders[0])
    else FirstOrder(orders[1..], id)
  }

  function ValueOr(found: Option<string>, missing: Reply): Reply {
    if found.Some? then Value(found.value) else missing
  }

  predicate Arithmetic(s: string) {
    s != "" && forall i | 0 <= i < |s| :: '0' <= s[i] <= '9' || IsSpace(s[i]) || s[i] in ".+-*/%()"
  }

  /** What a call is answered with, from the loaded world and the log of the calls before it. */
  function Respond(world: World, evaluate: string -> Option<string>, calls: seq<CallRecord>,
                   tool: Tool, args: Args): Reply {
    if CountOf(calls, tool) < Failures(world, tool) then Unavailable
    else Perform(world, evaluate, calls, tool, args)
  }

  function Perform(world: World, evaluate: string -> Option<string>, calls: seq<CallRecord>,
                   tool: Tool, args: Args): Reply {
    match tool
    case KvGet => ValueOr(LastKv(world, calls, Arg(args, "key")), NoValue)
    case KvSet => Stored
    case ReadFile => ValueOr(LastFile(world, calls, NormalisePath(Arg(args, "path"))), NoFile)
    case WriteFile => Wrote(|Arg(args, "content")|)
    case Calculator =>
      if !Arithmetic(Arg(args, "expression")) then NotArithmetic
      else ValueOr(evaluate(Arg(args, "expression")), NoResult)
    case LookupOrder =>
      var order := FirstOrder(world.orders, Arg(args, "order_id"));
      if order.Some? then Value(order.value.printed) else NoOrder
    case Now => Value(if world.clock.Some? then world.clock.value else DEFAULT_CLOCK)
    case SendMessage => Sent
    case Unlisted(_) => NoSuchTool
  }

  /** Numbered from one, of listed tools only, and each an error exactly when its answer was one. */
  predicate Explained(world: World, evaluate: string -> Option<string>, calls: seq<CallRecord>) {
    calls == [] ||
    var before, last := calls[..|calls| - 1], calls[|calls| - 1];
    && Explained(world, evaluate, before)
    && last.number == |calls|
    && !last.tool.Unlisted?
    && last.isError == IsError(Respond(world, evaluate, before, last.tool, last.args))
  }

  // ---------------------------------------------------------------- the fold of the log

  datatype Contents = Contents(kv: map<string, string>, files: map<string, string>, messages: seq<Message>)

  function LoadFiles(entries: seq<(string, string)>): map<string, string> {
    if entries == [] then map[]
    else
      var last := entries[|entries| - 1];
      LoadFiles(entries[..|entries| - 1])[NormalisePath(last.0) := last.1]
  }

  function Loaded(world: World): Contents {
    Contents(world.kv, LoadFiles(world.files), [])
  }

  /** What a successful call does to the world. */
  function Effect(c: Contents, tool: Tool, args: Args): Contents {
    match tool
    case KvSet => c.(kv := c.kv[Arg(args, "key") := Arg(args, "value")])
    case WriteFile => c.(files := c.files[NormalisePath(Arg(args, "path")) := Arg(args, "content")])
    case SendMessage => c.(messages := c.messages + [Message(Arg(args, "to"), Arg(args, "text"))])
    case _ => c
  }

  function Replay(world: World, calls: seq<CallRecord>): Contents {
    if calls == [] then Loaded(world)
    else
      var c, last := Replay(world, calls[..|calls| - 1]), calls[|calls| - 1];
      if last.isError then c else Effect(c, last.tool, last.args)
  }

  function At(m: map<string, string>, key: string): Option<string> {
    if key in m then Some(m[key]) else None
  }

  lemma {:induction false} LoadedFiles(entries: seq<(string, string)>, path: string)
    ensures At(LoadFiles(entries), path) == LoadedFile(entries, path)
  {
    if entries != [] {
      LoadedFiles(entries[..|entries| - 1], path);
    }
  }

  /** The replayed store holds, under every key, what the last successful write of that key says. */
  lemma {:induction false} ReplayedKv(world: World, calls: seq<CallRecord>, key: string)
    ensures At(Replay(world, calls).kv, key) == LastKv(world, calls, key)
  {
    if calls != [] {
      ReplayedKv(world, calls[..|calls| - 1], key);
    }
  }

  lemma EffectOnFile(c: Contents, tool: Tool, args: Args, path: string)
    ensures At(Effect(c, tool, args).files, path)
         == if tool == WriteFile && NormalisePath(Arg(args, "path")) == path then Some(Arg(args, "content"))
            else At(c.files, path)
  {}

  /** ... and so do the files, under every spelling that normalises to the same path. */
  lemma {:induction false} ReplayedFile(world: World, calls: seq<CallRecord>, path: string)
    ensures At(Replay(world, calls).files, path) == LastFile(world, calls, path)
  {
    if calls == [] {
      LoadedFiles(world.files, path);
    } else {
      ReplayedFile(world, calls[..|calls| - 1], path);
      var last := calls[|calls| - 1];
      EffectOnFile(Replay(world, calls[..|calls| - 1]), last.tool, last.args, path);
    }
  }

  /** ... and the messages are those of the successful sends, in order. */
  lemma {:induction false} ReplayedMessages(world: World, calls: seq<CallRecord>)
    ensures Replay(world, calls).messages == MessagesSent(calls)
  {
    if calls != [] {
      ReplayedMessages(world, calls[..|calls| - 1]);
    }
  }

  // ---------------------------------------------------------------- what follows for every log

  lemma {:induction false} PrefixExplained(world: World, evaluate: string -> Option<string>, calls: seq<CallRecord>,
                                           n: nat)
    requires Explained(world, evaluate, calls) && n <= |calls|
    ensures Explained(world, evaluate, calls[..n])
  {
    if n < |calls| {
      PrefixExplained(world, evaluate, calls[..|calls| - 1], n);
      assert calls[..|calls| - 1][..n] == calls[..n];
    } else {
      assert calls[..n] == calls;
    }
  }

  /** How many calls of a tool were answered as unavailable. */
  function Unavailables(world: World, evaluate: string -> Option<string>, calls: seq<CallRecord>, tool: Tool): nat {
    if calls == [] then 0
    else
      var before, last := calls[..|calls| - 1], calls[|calls| - 1];
      Unavailables(world, evaluate, before, tool)
      + (if last.tool == tool && Respond(world, evaluate, before, tool, last.args) == Unavailable then 1 else 0)
  }

  /** Nothing but an injected failure is answered as unavailable. */
  lemma {:induction false} UnavailableIsInjected(world: World, evaluate: string -> Option<string>,
                                                 calls: seq<CallRecord>, tool: Tool, args: Args)
    ensures Respond(world, evaluate, calls, tool, args) == Unavailable <==> CountOf(calls, tool) < Failures(world, tool)
  {
    var reply := Perform(world, evaluate, calls, tool, args);
    assert reply != Unavailable;
  }

  /** Of the calls of a tool, as many as it has injected failures were unavailable, or all when there are fewer. */
  lemma {:induction false} InjectedInFull(world: World, evaluate: string -> Option<string>, calls: seq<CallRecord>,
                                          tool: Tool)
    ensures var k, n := Failures(world, tool), CountOf(calls, tool);
            Unavailables(world, evaluate, calls, tool) == if k <= 0 then 0 else if k < n then k else n
  {
    if calls != [] {
      var before := calls[..|calls| - 1];
      InjectedInFull(world, evaluate, before, tool);
      UnavailableIsInjected(world, evaluate, before, tool, calls[|calls| - 1].args);
    }
  }

  /** A call was answered as unavailable exactly when it is among its tool's first, and then the log marks it. */
  lemma {:induction false} UnavailableIsMarked(world: World, evaluate: string -> Option<string>, calls: seq<CallRecord>,
                                               i: nat)
    requires Explained(world, evaluate, calls) && i < |calls|
    ensures var reply := Respond(world, evaluate, calls[..i], calls[i].tool, calls[i].args);
            && (reply == Unavailable <==> CountOf(calls[..i], calls[i].tool) < Failures(world, calls[i].tool))
            && (reply == Unavailable ==> calls[i].isError)
  {
    PrefixExplained(world, evaluate, calls, i + 1);
    assert calls[..i + 1][..i] == calls[..i];
    UnavailableIsInjected(world, evaluate, calls[..i], calls[i].tool, calls[i].args);
  }

  lemma {:induction false} CountsGrow(calls: seq<CallRecord>, n: nat, tool: Tool)
    requires n <= |calls|
    ensures CountOf(calls[..n], tool) <= CountOf(calls, tool)
    ensures n < |calls| && calls[n].tool == tool ==> CountOf(calls[..n], tool) < CountOf(calls, tool)
  {
    if n < |calls| {
      assert calls[..|calls| - 1][..n] == calls[..n];
      CountsGrow(calls[..|calls| - 1], n, tool);
    } else {
      assert calls[..n] == calls;
    }
  }

  /**
   * A call of a tool fails by injection if and only if it is among the tool's first `k`: never after a
   * call of the same tool that did not.
   */
  lemma {:induction false} InjectedFirst(world: World, evaluate: string -> Option<string>, calls: seq<CallRecord>,
                                         i: nat, j: nat)
    requires Explained(world, evaluate, calls) && i < j < |calls| && calls[i].tool == calls[j].tool
    requires Respond(world, evaluate, calls[..j], calls[j].tool, calls[j].args) == Unavailable
    ensures Respond(world, evaluate, calls[..i], calls[i].tool, calls[i].args) == Unavailable && calls[i].isError
  {
    CountsGrow(calls[..j], i, calls[i].tool);
    assert calls[..j][..i] == calls[..i];
    UnavailableIsInjected(world, evaluate, calls[..j], calls[j].tool, calls[j].args);
    UnavailableIsMarked(world, evaluate, calls, i);
  }

  /** What was asked, without how it went. */
  function Asked(calls: seq<CallRecord>): seq<(Tool, Args)> {
    if calls == [] then []
    else Asked(calls[..|calls| - 1]) + [(calls[|calls| - 1].tool, calls[|calls| - 1].args)]
  }

  /** The log, and with it the world, depends on nothing but the loaded world and what was asked. */
  lemma {:induction false} SameQuestionsSameLog(world: World, evaluate: string -> Option<string>, a: seq<CallRecord>,
                                                b: seq<CallRecord>)
    requires Explained(world, evaluate, a) && Explained(world, evaluate, b) && Asked(a) == Asked(b)
    ensures a == b
  {
    AskedLength(a);
    AskedLength(b);
    if a != [] {
      var n := |a| - 1;
      LastAlike(Asked(a[..n]), (a[n].tool, a[n].args), Asked(b[..n]), (b[n].tool, b[n].args));
      SameQuestionsSameLog(world, evaluate, a[..n], b[..n]);
      FrontAndLast(a, b);
    }
  }

  lemma LastAlike<T>(a: seq<T>, x: T, b: seq<T>, y: T)
    requires a + [x] == b + [y]
    ensures a == b && x == y
  {
    assert |a + [x]| == |b + [y]|;
    assert (a + [x])[..|a|] == a && (b + [y])[..|b|] == b;
    assert (a + [x])[|a|] == x && (b + [y])[|b|] == y;
  }

  lemma FrontAndLast<T>(a: seq<T>, b: seq<T>)
    requires |a| == |b| > 0 && a[..|a| - 1] == b[..|b| - 1] && a[|a| - 1] == b[|b| - 1]
    ensures a == b
  {
    assert a == a[..|a| - 1] + [a[|a| - 1]] && b == b[..|b| - 1] + [b[|b| - 1]];
  }

  lemma {:induction false} AskedLength(calls: seq<CallRecord>)
    ensures |Asked(calls)| == |calls|
  {
    if calls != [] {
      AskedLength(calls[..|calls| - 1]);
    }
  }

  // ---------------------------------------------------------------- the server

  function Left(left: map<Tool, int>, tool: Tool): int {
    if tool in left then left[tool] else 0
  }

  /** What is left of a tool's injected failures after `n` calls of it. */
  function Remaining(k: int, n: nat): int {
    if k <= 0 then k else if k < n then 0 else k - n
  }

  datatype Method = Initialize | Ping | ListTools | CallTool(tool: Tool, args: Args) | Unheard

  /** A message of the protocol; one without an id is a notification and gets no answer. */
  datatype Request = Request(hasId: bool, verb: Method)

  datatype Answer = Described | Called(reply: Reply, isError: bool) | UnknownTool | MethodNotFound

  /** The calls a list of messages makes: notifications and unlisted tools make none. */
  function Calls(requests: seq<Request>): seq<(Tool, Args)> {
    if requests == [] then []
    else
      var last := requests[|requests| - 1];
      Calls(requests[..|requests| - 1])
      + (if last.hasId && last.verb.CallTool? && !last.verb.tool.Unlisted?
         then [(last.verb.tool, last.verb.args)] else [])
  }

  lemma CallsOfOne(request: Request)
    ensures Calls([request]) == if request.hasId && request.verb.CallTool? && !request.verb.tool.Unlisted?
                                then [(request.verb.tool, request.verb.args)] else []
  {
    assert [request][..0] == [];
  }

  /** The answer to one message, from the log before it. */
  function AnswerTo(world: World, evaluate: string -> Option<string>, calls: seq<CallRecord>, request: Request)
    : Option<Answer>
  {
    if !request.hasId then None
    else
      match request.verb
      case CallTool(tool, args) =>
        if tool.Unlisted? then Some(UnknownTool)
        else
          var reply := Respond(world, evaluate, calls, tool, args);
          Some(Called(reply, IsError(reply)))
      case Unheard => Some(MethodNotFound)
      case _ => Some(Described)
  }

  /** The log after a list of messages. */
  function LogAfter(world: World, evaluate: string -> Option<string>, calls: seq<CallRecord>, requests: seq<Request>)
    : seq<CallRecord>
  {
    if requests == [] then calls
    else
      var log := LogAfter(world, evaluate, calls, requests[..|requests| - 1]);
      var answer := AnswerTo(world, evaluate, log, requests[|requests| - 1]);
      if answer.Some? && answer.value.Called?
      then log + [RecordOf(log, requests[|requests| - 1].verb, answer.value.isError)] else log
  }

  function RecordOf(log: seq<CallRecord>, asked: Method, isError: bool): CallRecord
    requires asked.CallTool?
  {
    CallRecord(|log| + 1, asked.tool, asked.args, isError)
  }

  /** The answers to a list of messages, in their order; notifications get none. */
  function Answers(world: World, evaluate: string -> Option<string>, calls: seq<CallRecord>, requests: seq<Request>)
    : seq<Answer>
  {
    if requests == [] then []
    else
      var before := requests[..|requests| - 1];
      var answer := AnswerTo(world, evaluate, LogAfter(world, evaluate, calls, before), requests[|requests| - 1]);
      Answers(world, evaluate, calls, before) + (if answer.Some? then [answer.value] else [])
  }

  /** Every call of a listed tool that has an id is logged, in order, and nothing else is. */
  lemma {:induction false} LogsTheCalls(world: World, evaluate: string -> Option<string>, calls: seq<CallRecord>,
                                        requests: seq<Request>)
    ensures Asked(LogAfter(world, evaluate, calls, requests)) == Asked(calls) + Calls(requests)
  {
    if requests != [] {
      var before, last := requests[..|requests| - 1], requests[|requests| - 1];
      LogsTheCalls(world, evaluate, calls, before);
      var log := LogAfter(world, evaluate, calls, before);
      assert forall r: CallRecord :: (log + [r])[..|log|] == log;
      Associates(Asked(calls), Calls(before), Calls([last]));
      CallsOfOne(last);
    }
  }

  lemma {:induction false} StepsAdd(world: World, evaluate: string -> Option<string>, calls: seq<CallRecord>,
                                    requests: seq<Request>, i: nat)
    requires i < |requests|
    ensures LogAfter(world, evaluate, LogAfter(world, evaluate, calls, requests[..i]), [requests[i]])
         == LogAfter(world, evaluate, calls, requests[..i + 1])
  {
    assert requests[..i + 1][..i] == requests[..i];
    assert [requests[i]][..0] == [];
  }

  lemma {:induction false} AnswersAdd(world: World, evaluate: string -> Option<string>, calls: seq<CallRecord>,
                                      requests: seq<Request>, i: nat)
    requires i < |requests|
    ensures var answer := AnswerTo(world, evaluate, LogAfter(world, evaluate, calls, requests[..i]), requests[i]);
            Answers(world, evaluate, calls, requests[..i + 1])
            == Answers(world, evaluate, calls, requests[..i]) + (if answer.Some? then [answer.value] else [])
  {
    assert requests[..i + 1][..i] == requests[..i];
  }

  predicate Writes(tool: Tool) {
    tool.KvSet? || tool.WriteFile? || tool.SendMessage?
  }

  ghost predicate Counted(left: map<Tool, int>, world: World, calls: seq<CallRecord>) {
    forall tool :: Left(left, tool) == Remaining(Failures(world, tool), CountOf(calls, tool))
  }

  /** The failures left once a further call of `tool` is in the log. */
  ghost predicate CountedWith(left: map<Tool, int>, world: World, calls: seq<CallRecord>, tool: Tool) {
    forall other ::
      Left(left, other) == Remaining(Failures(world, other), CountOf(calls, other) + (if other == tool then 1 else 0))
  }

  lemma OneFewerLeft(left: map<Tool, int>, after: map<Tool, int>, world: World, calls: seq<CallRecord>, tool: Tool)
    requires Counted(left, world, calls)
    requires after == if Left(left, tool) > 0 then left[tool := Left(left, tool) - 1] else left
    ensures CountedWith(after, world, calls, tool)
  {
    forall other
      ensures Left(after, other)
           == Remaining(Failures(world, other), CountOf(calls, other) + (if other == tool then 1 else 0))
    {
      assert Left(left, other) == Remaining(Failures(world, other), CountOf(calls, other));
    }
  }

  lemma LoggedIsCounted(left: map<Tool, int>, world: World, calls: seq<CallRecord>, record: CallRecord)
    requires CountedWith(left, world, calls, record.tool)
    ensures Counted(left, world, calls + [record])
  {
    assert (calls + [record])[..|calls|] == calls;
  }

  /** What a call of a listed tool adds to the log keeps explaining it, and what it adds to the replay. */
  lemma {:induction false} LoggedIsExplained(world: World, evaluate: string -> Option<string>, calls: seq<CallRecord>,
                                             record: CallRecord)
    requires Explained(world, evaluate, calls) && record.number == |calls| + 1 && !record.tool.Unlisted?
    requires record.isError == IsError(Respond(world, evaluate, calls, record.tool, record.args))
    ensures Explained(world, evaluate, calls + [record])
    ensures Replay(world, calls + [record])
         == if record.isError then Replay(world, calls) else Effect(Replay(world, calls), record.tool, record.args)
  {
    assert (calls + [record])[..|calls|] == calls;
  }

  lemma {:induction false} LogAfterOne(world: World, evaluate: string -> Option<string>, calls: seq<CallRecord>,
                                       request: Request)
    ensures var answer := AnswerTo(world, evaluate, calls, request);
            LogAfter(world, evaluate, calls, [request])
            == if answer.Some? && answer.value.Called?
               then calls + [RecordOf(calls, request.verb, answer.value.isError)]
               else calls
  {
    assert [request][..0] == [];
  }

  lemma {:induction false} KvHolds(world: World, calls: seq<CallRecord>, kv: map<string, string>, key: string)
    requires kv == Replay(world, calls).kv
    ensures LastKv(world, calls, key) == At(kv, key)
  {
    ReplayedKv(world, calls, key);
  }

  lemma {:induction false} FilesHold(world: World, calls: seq<CallRecord>, files: map<string, string>, path: string)
    requires files == Replay(world, calls).files
    ensures LastFile(world, calls, path) == At(files, path)
  {
    ReplayedFile(world, calls, path);
  }

  class ToolServer {
    const evaluate: string -> Option<string>
    var world: World
    var kv: map<string, string>
    var files: map<string, string>
    var messages: seq<Message>
    var calls: seq<CallRecord>
    var failuresLeft: map<Tool, int>

    /** The log explains everything else: the world is its replay, and the failures left are its count. */
    ghost predicate Valid()
      reads this
    {
      && Explained(world, evaluate, calls)
      && Contents(kv, files, messages) == Replay(world, calls)
      && Counted(failuresLeft, world, calls)
    }

    constructor (evaluate: string -> Option<string>, world: World)
      ensures Valid() && this.evaluate == evaluate && this.world == world && calls == []
    {
      this.evaluate := evaluate;
      this.world := world;
      kv := world.kv;
      files := map[];
      messages, calls := [], [];
      failuresLeft := world.failures;
      new;
      Reset(world);
    }

    /** Load a world, and forget everything the last one saw. */
    method Reset(next: World)
      modifies this
      ensures Valid() && world == next && calls == []
    {
      world := next;
      kv := next.kv;
      files := LoadFiles(next.files);
      messages, calls := [], [];
      failuresLeft := next.failures;
    }

    method Get(key: string) returns (reply: Reply)
      requires kv == Replay(world, calls).kv
      ensures reply == ValueOr(LastKv(world, calls, key), NoValue)
    {
      KvHolds(world, calls, kv, key);
      reply := if key in kv then Value(kv[key]) else NoValue;
    }

    method Read(path: string) returns (reply: Reply, isError: bool)
      requires files == Replay(world, calls).files
      ensures reply == ValueOr(LastFile(world, calls, path), NoFile) && isError == IsError(reply)
    {
      FilesHold(world, calls, files, path);
      isError := path !in files;
      reply := if isError then NoFile else Value(files[path]);
    }

    /** The answer of a tool that only reads. It is the one the log asks for, though it comes from the tables. */
    method Look(tool: Tool, args: Args) returns (reply: Reply, isError: bool)
      requires Contents(kv, files, messages) == Replay(world, calls) && !Writes(tool)
      ensures reply == Perform(world, evaluate, calls, tool, args) && isError == IsError(reply)
    {
      match tool
      case KvGet =>
        reply := Get(Arg(args, "key"));
        isError := false;
      case ReadFile =>
        reply, isError := Read(NormalisePath(Arg(args, "path")));
      case Calculator =>
        var expression := Arg(args, "expression");
        if !Arithmetic(expression) { return NotArithmetic, true; }
        var value := evaluate(expression);
        if value.None? { return NoResult, true; }
        return Value(value.value), false;
      case LookupOrder =>
        var order := FirstOrder(world.orders, Arg(args, "order_id"));
        if order.None? { return NoOrder, true; }
        return Value(order.value.printed), false;
      case Now =>
        return Value(if world.clock.Some? then world.clock.value else DEFAULT_CLOCK), false;
      case _ =>
        return NoSuchTool, true;
    }

    /** The answer of a tool that writes, and the change it makes. */
    method Write(tool: Tool, args: Args) returns (reply: Reply)
      requires Writes(tool)
      modifies `kv, `files, `messages
      ensures reply == Perform(world, evaluate, calls, tool, args) && !IsError(reply)
      ensures Contents(kv, files, messages) == Effect(old(Contents(kv, files, messages)), tool, args)
    {
      match tool
      case KvSet =>
        kv := kv[Arg(args, "key") := Arg(args, "value")];
        return Stored;
      case WriteFile =>
        files := files[NormalisePath(Arg(args, "path")) := Arg(args, "content")];
        return Wrote(|Arg(args, "content")|);
      case SendMessage =>
        messages := messages + [Message(Arg(args, "to"), Arg(args, "text"))];
        return Sent;
    }

    /** One of a tool's injected failures, when there is one left. */
    method Injected(tool: Tool) returns (unavailable: bool)
      requires Counted(failuresLeft, world, calls)
      modifies `failuresLeft
      ensures unavailable <==> CountOf(calls, tool) < Failures(world, tool)
      ensures CountedWith(failuresLeft, world, calls, tool)
    {
      ghost var before := failuresLeft;
      var left := Left(failuresLeft, tool);
      unavailable := left > 0;
      if unavailable {
        failuresLeft := failuresLeft[tool := left - 1];
      }
      OneFewerLeft(before, failuresLeft, world, calls, tool);
    }

    /** One tool call: its answer is the one the log asks for, and the world changes as its replay does. */
    method Run(tool: Tool, args: Args) returns (reply: Reply, isError: bool)
      requires Contents(kv, files, messages) == Replay(world, calls) && Counted(failuresLeft, world, calls)
      modifies `kv, `files, `messages, `failuresLeft
      ensures reply == Respond(world, evaluate, calls, tool, args) && isError == IsError(reply)
      ensures var c := Replay(world, calls);
              Contents(kv, files, messages) == if isError then c else Effect(c, tool, args)
      ensures CountedWith(failuresLeft, world, calls, tool)
    {
      var unavailable := Injected(tool);
      if unavailable {
        return Unavailable, true;
      }
      if Writes(tool) {
        reply := Write(tool, args);
        isError := false;
      } else {
        reply, isError := Look(tool, args);
      }
    }

    /** A call of a listed tool is run and logged. */
    method RunAndLog(tool: Tool, args: Args) returns (reply: Reply, isError: bool)
      requires Valid() && !tool.Unlisted?
      modifies `kv, `files, `messages, `calls, `failuresLeft
      ensures Valid()
      ensures reply == Respond(world, evaluate, old(calls), tool, args) && isError == IsError(reply)
      ensures calls == old(calls) + [CallRecord(|old(calls)| + 1, tool, args, isError)]
    {
      reply, isError := Run(tool, args);
      var record := CallRecord(|calls| + 1, tool, args, isError);
      LoggedIsExplained(world, evaluate, calls, record);
      LoggedIsCounted(failuresLeft, world, calls, record);
      calls := calls + [record];
    }

    /** One message. A listed tool called with an id is run and logged; nothing else touches the world. */
    method Rpc(request: Request) returns (answer: Option<Answer>)
      requires Valid()
      modifies `kv, `files, `messages, `calls, `failuresLeft
      ensures Valid()
      ensures answer == AnswerTo(world, evaluate, old(calls), request)
      ensures calls == LogAfter(world, evaluate, old(calls), [request])
    {
      LogAfterOne(world, evaluate, calls, request);
      if !request.hasId {
        return None;
      }
      match request.verb
      case Initialize => return Some(Described);
      case Ping => return Some(Described);
      case ListTools => return Some(Described);
      case CallTool(tool, args) =>
        if tool.Unlisted? {
          return Some(UnknownTool);
        }
        var reply, isError := RunAndLog(tool, args);
        return Some(Called(reply, isError));
      case Unheard => return Some(MethodNotFound);
    }

    /** A batch: its messages one after another, and the answers there are. */
    method Batch(requests: seq<Request>) returns (answers: seq<Answer>)
      requires Valid()
      modifies `kv, `files, `messages, `calls, `failuresLeft
      ensures Valid()
      ensures calls == LogAfter(world, evaluate, old(calls), requests)
      ensures answers == Answers(world, evaluate, old(calls), requests)
    {
      answers := [];
      var i := 0;
      while i < |requests|
        invariant 0 <= i <= |requests| && Valid()
        invariant calls == LogAfter(world, evaluate, old(calls), requests[..i])
        invariant answers == Answers(world, evaluate, old(calls), requests[..i])
      {
        StepsAdd(world, evaluate, old(calls), requests, i);
        AnswersAdd(world, evaluate, old(calls), requests, i);
        var answer := Rpc(requests[i]);
        if answer.Some? {
          answers := answers + [answer.value];
        }
        i := i + 1;
      }
      assert requests[..i] == requests;
    }
  }
}

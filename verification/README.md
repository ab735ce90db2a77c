# Dispach: a verified model of its protocols

A Dafny model of the parts of Dispach whose behaviour spans many steps, with proofs of what those parts
promise. It needs Dafny 4.11; `dafny verify dfyconfig.toml` checks all of it.

| file | what it models |
|---|---|
| `TaskLog.dfy` | the A2A task server as one log of accepted tasks, its steps, and its guarantees over whole runs |
| `TaskTables.dfy`, `A2AServer.dfy` | the server's maps, queues and records updated in place, proved to be views of that log after every step |
| `RateLimit.dfy`, `PeerConfig.dfy` | the per-peer rate limit; the rules on peers that its composite keys rest on |
| `Outline.dfy`, `OutlineParser.dfy` | the navigation outline: a declarative tree, and the parser with its stack of shared lists |
| `TelegramCursor.dfy` | the long-poll loop, and the cursor protocol against a server that loses answers |
| `ScenarioCheck.dfy` | matching a call log against expected calls |
| `Semver.dfy`, `Changelog.dfy`, `Blocks.dfy` | release versions; the changelog's writer and reader |
| `MarkdownRow.dfy` | table rows with pipes inside code spans |
| `ToolServer.dfy` | the benchmark's tool server: a world, its call log, injected failures |
| `BenchRun.dfy`, `Wilson.dfy`, `Median.dfy`, `BenchReport.dfy` | the runner's retries and deferred jobs; the interval; the median; grouping and arms |
| `Prelude.dfy`, `Text.dfy` | result types, and the string operations the others use |

How the model is put together:

- The task server has two layers. `TaskLog` knows no tables: a `Board` is the list of every task ever accepted
  and the blocking callers, and a `Step` is one thing that can happen. Every guarantee over whole runs is
  proved there. `A2AServer` is the class with the source's fields; each of its methods runs on those fields and
  ensures that the ghost `board` took exactly one step, while `Valid` says that the task map, the queues, the
  dedup index and the messages handed to the host are what that log makes them. So what is proved of the log
  holds of the tables.
- The outline parser works on the heap with aliased lists, as the source does, and is proved against the tree
  that the parent relation describes; `Outline` proves what that tree is.
- Each Telegram run is a list of events: updates arrive, a loop asks, its answer arrives or is lost, an answer
  is handled up to a throw, the transport stops or starts. The class `PollLoop` is the code of one turn.
- The tool server's contracts speak of the loaded world and the call log only. That the tables answer as a
  search of the log does is its invariant.
- A lemma carries `{:induction false}` when it recurses, or when Dafny would start an induction of its own in it.
- Identifiers drawn at random, the clock, waiting, and what a harness or a provider answers are parameters.

Where the code does not do what its comments promise, the model follows the code, shows an input, and proves
when the promise holds:

- `scripts/release.ts:89` ends the notes at a literal capital Z as well as at a heading, so notes with one are
  copied only up to it (`Changelog.CapitalZCutsTheCopy`, `Changelog.PilotCopiesNotes`).
- `scripts/release.ts:107` puts the notes into a replacement text, where `$$`, `$&`, `$1` and the two quote
  marks after a dollar sign are not plain (`Changelog.DollarsAreLost`, `Changelog.CopiedVerbatim`).
- `scripts/release.ts:89-97` refuses notes that are there when they start with a capital Z, and when they hold
  none and no heading follows them (`Changelog.LeadingZIsRefused`, `Changelog.FirstReleaseIsRefused`,
  `Changelog.GateRefuses`).
- Notes that start with an indented heading are copied with the heading at the line's start, where it heads a
  section (`Changelog.IndentedHeadingAddsSection`, `Changelog.PilotKeepsOthers`).
- The rate limit prunes by the clock, and a clock set back defeats it
  (`RateLimit.ClockSetBackDefeatsTheLimit`). The pruned list answers as the full log would if and only if no call
  dropped one that is still recent (`RateLimit.AnswersExactly`), and `RateLimit.AcceptsExactly` says what it then
  accepts; `RateLimit.BoundedExactly` follows.
- `packages/channel-a2a/src/server.ts:161-162` calls a task a quiet completion only if no reply arrives. The timer
  looks at the task's end and the front of its queue, not at its text, so one that fires between two chunks
  completes the task with no message and no artifact (`TaskLog.TimerBetweenChunksDropsText`); that is the only
  way it happens (`TaskLog.UnsaidExactly`).
- A Telegram transport that is started again before its `stop` has settled hands an update over twice if its
  `fetch`, which the options can replace (`packages/channel-telegram/src/api.ts:121`), answers a request whose
  signal was aborted (`TelegramCursor.UnawaitedRestartHandsTwice`); one that honours the signal never does
  (`TelegramCursor.HonouredSignalSuffices`), and `TelegramCursor.OnceEachExactly` says of every run whether it
  happens. An update that throws has cleared the failure count first, so repeated throws always wait the
  shortest pause.
- `scripts/bench/run.ts:74` speaks of about twelve minutes of patience; it is between ten and a half and
  sixteen (`BenchRun.Patience`).
- An unindented README page becomes its section's own page, so a section that lists two keeps the last
  (`Outline.TwoReadmesKeepOne`, `Outline.SectionRoundTrip`).
- Two spellings of one path are one file only up to one leading `./` (`ToolServer.OneDotSlashIsDropped`,
  `ToolServer.NormalisedTwice`).

## Model

| member | source | states |
|---|---|---|
| `TaskLog.NextKeepsInv` | packages/channel-a2a/src/server.ts:295-474 | One invariant survives every step, in any order: a task has an end time exactly when its state is terminal, later tasks of a conversation end after earlier ones and only its oldest live task has heard anything, retained tasks differ in id and in (peer, message id), and every blocking caller is either answered with its own task or waiting on it while it is live. |
| `TaskLog.RunKeepsInv` | packages/channel-a2a/src/server.ts:295-474 | The same over every run of steps whatever their order. |
| `TaskLog.HeadStep` | packages/channel-a2a/src/server.ts:149-171 | A reply chunk, a failed turn or a quiet timer changes the oldest live task of one conversation and nothing else, or changes nothing. |
| `TaskLog.RunEvolves` | packages/channel-a2a/src/server.ts:434-464 | Over any run a task keeps its peer, message id and conversation, its text only grows, and once it has ended it never changes again. |
| `TaskLog.EndsInAcceptanceOrder` | packages/channel-a2a/src/server.ts:415-464 | At every moment of every run: if a later task of a conversation has ended, so has every earlier one, and both stay as they are for the rest of the run. |
| `TaskLog.RunKeepsTimes` | packages/channel-a2a/src/server.ts:434-462 | Under a clock that does not go back, recorded end times agree with acceptance order within a conversation. |
| `TaskLog.RunConserves` | packages/channel-a2a/src/server.ts:421-432 | Chunk conservation: the texts of a conversation's tasks, joined in acceptance order, grow over a run by exactly the chunks delivered to it while one of its tasks was live. |
| `TaskLog.LastChunkIsTheAnswer` | packages/channel-a2a/src/server.ts:421-464 | A task completed by a last chunk shows, for the rest of any run, exactly its accumulated text as message and artifact, or neither when that text is empty. |
| `TaskLog.StepSilencesExactly` | packages/channel-a2a/src/server.ts:155-169 | One step leaves a task completed, with text heard and no message, if and only if it is a quiet timer on the live front of a queue whose text is not empty. |
| `TaskLog.UnsaidExactly` | packages/channel-a2a/src/server.ts:155-169 | Over any run a task ends completed without what it has heard if and only if such a timer fired on it; no chunk and no failed turn does it, and nothing takes it back. |
| `TaskLog.TimerBetweenChunksDropsText` | packages/channel-a2a/src/server.ts:155-169 | A chunk that is not the last, and then the timer, leave its text out of message and artifact for the rest of any run. |
| `TaskLog.RunKeepsAnswers` | packages/channel-a2a/src/server.ts:390-400 | A blocking caller's question never changes and an answer once given is never taken back. |
| `TaskLog.WaitersAreServed` | packages/channel-a2a/src/server.ts:390-463 | No wake-up is lost: a caller is answered at the latest when its task has ended, with that task as it ended or as it stood when the caller's own wait ran out. |
| `TaskLog.ConversationsArePrivate` | packages/channel-a2a/src/server.ts:336-352 | Two tasks share a conversation, and so a queue, if and only if they are one peer's in one context. |
| `TaskTables.HeadIsFirstLive` | packages/channel-a2a/src/server.ts:415-418 | The front of a queue is the oldest live task of its conversation, and the queue is empty exactly when there is none. |
| `TaskTables.EndingLeavesTheQueue` | packages/channel-a2a/src/server.ts:459-462 | Ending a task takes its id out of its own conversation's queue and leaves every other queue as it was. |
| `TaskTables.SourceFinds` | packages/channel-a2a/src/server.ts:318-321 | The dedup index has a message's key if and only if a retained task of that very peer carries its id, and then it leads to that task. |
| `TaskTables.TablesAfterDelivery` | packages/channel-a2a/src/server.ts:421-463 | Hearing a chunk and, if it is the last, finishing the head is exactly the log's delivery step, and the queues, the index and the host's inbox follow it. |
| `TaskTables.TablesAfterSweep` | packages/channel-a2a/src/server.ts:466-474 | Dropping from the index exactly the sources of the expired tasks keeps it a bijection with the retained ones. |
| `A2AServer.A2AServer.constructor` | packages/channel-a2a/src/server.ts:118-121 | A new server's tables stand for the empty log. |
| `A2AServer.TaskRecord.End` | packages/channel-a2a/src/server.ts:434-458 | The record's final task, its end time, and the callers it lets go; its text stays. |
| `A2AServer.A2AServer.Head` | packages/channel-a2a/src/server.ts:415-418 | Finds the record of the oldest live task of a conversation, or nothing when it has none. |
| `A2AServer.A2AServer.Deliver` | packages/channel-a2a/src/server.ts:421-432 | One outbox chunk is one delivery step of the log on the maps, the queues and the records at once; it answers with the id of the task it went to. |
| `A2AServer.A2AServer.Observe` | packages/channel-a2a/src/server.ts:149-171 | A turn that failed is the log's failing step; one that ended well changes nothing and sets a timer on the head; an event of another agent or session does nothing. |
| `A2AServer.A2AServer.TimerFires` | packages/channel-a2a/src/server.ts:165-169 | A quiet timer, at any later moment, completes its task with no reply if that is still the head, and otherwise changes nothing. |
| `A2AServer.A2AServer.Close` | packages/channel-a2a/src/server.ts:434-464 | Finishing: the record's new state, its id out of its queue and no other queue touched, each of its waiting callers answered once. |
| `A2AServer.A2AServer.Find` | packages/channel-a2a/src/server.ts:318-321 | The dedup lookup through both maps finds exactly the retained task of this peer with this message id. |
| `A2AServer.A2AServer.Admit` | packages/channel-a2a/src/server.ts:318-363 | A message is refused, or stands for the task it is a resend of, or becomes one new task for which the host is handed exactly one message. |
| `A2AServer.A2AServer.Start` | packages/channel-a2a/src/server.ts:295-363 | The same from the raw parts: expired tasks are evicted first, then the error cases in the source's order, then the resend, then the new task. The task returned is the caller's own. |
| `A2AServer.A2AServer.Owned` | packages/channel-a2a/src/server.ts:402-409 | A peer reaches its own retained tasks by id, and every other id is answered as a missing one. |
| `A2AServer.A2AServer.Settle` | packages/channel-a2a/src/server.ts:390-400 | A caller that asks about an ended task is answered at once, otherwise it is one of the task's waiters. |
| `A2AServer.A2AServer.WaitExpires` | packages/channel-a2a/src/server.ts:393-397 | A caller whose wait runs out is answered with the task as it stands, unless it was answered before. |
| `A2AServer.A2AServer.Drop` | packages/channel-a2a/src/server.ts:466-474 | The eviction loop deletes from both maps exactly the tasks that ended more than an hour ago. |
| `A2AServer.A2AServer.Evict` | packages/channel-a2a/src/server.ts:466-474 | Eviction is the log's eviction step: nothing but what is retained changes. |
| `A2AServer.A2AServer.Limit` | packages/channel-a2a/src/server.ts:272-284 | One call against the rate limit: the peer's pruned list and its full log take one step and no other peer's do; it is refused, with status 429, if and only if the accepted calls less than a minute old, without those the list has lost, reach the limit, and none is lost at a moment no earlier than every call before. |
| `A2AServer.CalledIs` | packages/channel-a2a/src/server.ts:272-284 | That step is one call of the peer's own limiter at its own rate, and every other peer's limiter stays. |
| `A2AServer.A2AServer.NoPeerExceedsItsLimit` | packages/channel-a2a/src/server.ts:272-284 | Of the server's own log: under a clock that does not go back no minute holds more accepted calls of a peer than its limit. |
| `A2AServer.A2AServer.PeerHeldExactly` | packages/channel-a2a/src/server.ts:272-284 | Of the server's own log, whatever the clock does: no minute holds more if and only if none was full when one of the peer's calls was accepted. |
| `RateLimit.AnswersExactly` | packages/channel-a2a/src/server.ts:272-284 | Whatever the clock does: the pruned list counts as many recent calls as the full log if and only if no call of the run dropped one that is still less than a minute old. |
| `RateLimit.AcceptsExactly` | packages/channel-a2a/src/server.ts:272-284 | Whatever the clock does: a call is accepted if and only if the accepted calls less than 60,000 ms old, without those lost, are fewer than the limit; it is decided as the full log would decide it unless the lost ones make the difference. |
| `RateLimit.RecentOfRecent` | packages/channel-a2a/src/server.ts:272-283 | Pruning the list loses no call that a later question could see. |
| `RateLimit.AcceptsUnderForwardClock` | packages/channel-a2a/src/server.ts:272-284 | At a moment no earlier than every call before it, a call is accepted if and only if fewer than the limit of all accepted calls are less than 60,000 ms old. |
| `RateLimit.AdmittedExactly` | packages/channel-a2a/src/server.ts:272-284 | Every accepted call found fewer than the limit within a minute if and only if none was let in on account of lost ones. |
| `RateLimit.NoMinuteHoldsMore` | packages/channel-a2a/src/server.ts:272-284 | No half-open minute holds more accepted calls than the limit when no call of the run found a list that had lost one. |
| `RateLimit.ForwardClockHoldsTheLimit` | packages/channel-a2a/src/server.ts:272-284 | So it is under a clock that does not go back. |
| `RateLimit.ClockSetBackDefeatsTheLimit` | packages/channel-a2a/src/server.ts:272-284 | With the clock set back, three calls of one minute are accepted at a limit of two. |
| `RateLimit.BoundedExactly` | packages/channel-a2a/src/server.ts:272-284 | A corollary, whatever the clock does: no half-open minute holds more than the limit if and only if none was full when a call was accepted. |
| `PeerConfig.AcceptedIsSound` | packages/channel-a2a/src/config.ts:87-117 | An entry that is accepted has a slug name, a key or an address, an absolute http(s) address if any, and positive limits. |
| `PeerConfig.ReadConfigIdentifiesPeers` | packages/channel-a2a/src/config.ts:87-122 | After reading without error a presented key label finds a peer if and only if that peer is configured with it: a key names exactly one peer. |
| `PeerConfig.ReadConfigRefuses` | packages/channel-a2a/src/config.ts:87-122 | Reading succeeds if and only if each entry is accepted on its own and no two name the same key. |
| `PeerConfig.CompositeKeysInjective` | packages/channel-a2a/src/server.ts:319-336 | Under the slug rule neither composite key can collide: equal keys come from the same peer and the same message or context id. |
| `Outline.ForestFollowsParents` | site/lib/tree.ts:34-55 | The recursive reading of the lines is the tree of the parent relation: a line's parent is the latest group before it such that every line since is deeper than it. |
| `Outline.ForestKeepsTheLines` | site/lib/tree.ts:34-55 | Read top to bottom, the tree is the lines in their order, less the unindented README pages. |
| `Outline.SectionRoundTrip` | site/lib/tree.ts:23-57 | A section printed at two spaces a level reads back as itself, with empty groups and its own page, if and only if no other top-level entry is a README page. |
| `Outline.TwoReadmesKeepOne` | site/lib/tree.ts:43 | A section with two unindented README pages, which reads back with the last as its own page. |
| `Outline.ReadsBack` | site/lib/tree.ts:34-55 | Printing any forest at any depth and reading it back gives that forest, less README pages at depth zero. |
| `OutlineParser.PopDeeper` | site/lib/tree.ts:38 | Popping leaves a prefix of the stack whose top is shallower than the line, and pops no more than it must; the bottom entry stays. |
| `OutlineParser.TopIsParent` | site/lib/tree.ts:38-39 | After popping, the top of the stack is the line's parent, and the stack holds exactly the groups open over the line. |
| `OutlineParser.AttachPage` | site/lib/tree.ts:41-44 | A page is appended to its parent's shared list and no other list; the section's own page to none. |
| `OutlineParser.AttachGroup` | site/lib/tree.ts:45-53 | A group is appended to its parent's list with a fresh list of its own, shared by nothing else. |
| `OutlineParser.ListShows` | site/lib/tree.ts:27-57 | Once every line is read, the aliased lists of every owner hold exactly its declarative subtree. |
| `OutlineParser.ParseSection` | site/lib/tree.ts:27-57 | The one-pass parser over a stack of shared lists builds the tree of the parent relation, or fails with the first link whose page did not load. |
| `TelegramCursor.HandleAllIs` | packages/channel-telegram/src/transport.ts:310-316 | Handling updates one by one moves the cursor past each of them, never back, and hands each over once. |
| `TelegramCursor.PollLoop.HandleOne` | packages/channel-telegram/src/transport.ts:314-315 | The cursor is past an update and never moves back, and the update is handed over, whether or not handling it throws. |
| `TelegramCursor.PollLoop.HandleBatch` | packages/channel-telegram/src/transport.ts:310-316 | The loop over one answer handles its updates in order up to and including the first that throws. |
| `TelegramCursor.PollLoop.Turn` | packages/channel-telegram/src/transport.ts:295-330 | One turn of the loop: what is handled, when the failure count clears, how long the pause is, and which failures are reported. |
| `TelegramCursor.EventsKeepInv` | packages/channel-telegram/src/transport.ts:259-331 | Over any events, with the server losing answers and the host throwing, what was handed over is ascending, below the cursor, and all that ever arrived below it. |
| `TelegramCursor.EachUpdateOnceAndNoneLost` | packages/channel-telegram/src/transport.ts:111-331 | From a fresh start every update is handed over at most once and in increasing order, and an update is handed over if and only if the server held it below the cursor, across any stops and starts where stopping is awaited. |
| `TelegramCursor.OnceEachExactly` | packages/channel-telegram/src/transport.ts:111-331 | Over every run, with any starts, stops, lost answers and throws, waited for or not: no update is handed over twice, and the record is ascending, if and only if every answer handled was empty or started at or above the cursor; and then nothing below the cursor was missed. |
| `TelegramCursor.HonouredSignalSuffices` | packages/channel-telegram/src/transport.ts:111-331 | With a fetch that honours its signal, no stop need be waited for: an aborted request is not answered, and an answer that came before the abort is handled before the next loop asks. |
| `TelegramCursor.TurnIsTake` | packages/channel-telegram/src/transport.ts:310-316 | One turn of the code over an answer moves cursor and record as the protocol's step does. |
| `TelegramCursor.TakingKeepsOrderExactly` | packages/channel-telegram/src/transport.ts:310-316 | From an exact record, handling an answer keeps it ascending if and only if the answer is empty or starts at or above the cursor. |
| `TelegramCursor.UnawaitedRestartHandsTwice` | packages/channel-telegram/src/transport.ts:111-158 | A restart that does not wait for the stopping loop hands one update over twice when the fetch, which can be replaced, answers a request after its signal was aborted. |
| `ScenarioCheck.CheckCalls` | scripts/scenario-check.ts:42-77 | The three modes, loops and all, accept exactly what they are documented to: the same calls, the calls as a subsequence, each call somewhere. |
| `ScenarioCheck.GreedyIsLongest` | scripts/scenario-check.ts:70-76 | The greedy scan is complete: a prefix of the expected calls embeds in the log if and only if the scan gets that far. |
| `ScenarioCheck.OrdersWeaken` | scripts/scenario-check.ts:35-37 | Acceptance under `exact` implies `in_order`, and that implies `any_order`. |
| `ScenarioCheck.ExtraCallsDoNoHarm` | scripts/scenario-check.ts:35-37 | Calls put in between never turn an `in_order` or `any_order` acceptance into a refusal. |
| `ScenarioCheck.EmptyExpectation` | scripts/scenario-check.ts:39-40 | An empty expectation allows no call under `exact` and every log under the other two. |
| `Semver.CompareVersions` | scripts/semver.ts:31-55 | The loops return a number whose sign is the precedence of Semantic Versioning 2.0.0, section 11. |
| `Semver.ComparePreFrom` | scripts/semver.ts:38-54 | The loop over pre-release identifiers decides as the identifier-by-identifier order does. |
| `Semver.PrecedenceIsTotalPreorder` | scripts/semver.ts:30-55 | Sign-antisymmetric, reflexive and transitive, and strict where either step is. |
| `Semver.ReleaseOutranks` | scripts/semver.ts:36-37 | A release is above each of its pre-releases. |
| `Semver.Ties` | scripts/semver.ts:31-55 | Two versions tie if and only if they are equal up to leading zeros of numeric identifiers. |
| `Semver.ReleasesGoUp` | scripts/release.ts:70-76 | Over any run of releases that the gate let through each version is greater than all before it, so none is used twice. |
| `Semver.VersionRoundTrip` | scripts/semver.ts:15-24 | A well-formed version, written out, parses back to itself. |
| `MarkdownRow.Scan` | scripts/eval-index.ts:39-50 | The character loop cuts the row where the recursive reading does, with its pieces trimmed. |
| `MarkdownRow.PipeSplits` | scripts/eval-index.ts:43-47 | A pipe splits the row if and only if it is outside every code span; inside, it is one more character of its cell. |
| `MarkdownRow.RowRoundTrip` | scripts/eval-index.ts:37-51 | A printed row reads back as its cells if and only if each is trimmed, has no pipe outside its code spans, and each but the last closes its code spans. |
| `Changelog.ChangelogSection` | scripts/changelog-section.ts:17-39 | The reader's search and loop return the notes between the first heading of the version and the next heading of any, or nothing when it has none. |
| `Changelog.GateFinds` | scripts/release.ts:89-97 | What the release goes ahead with: the trimmed notes when they hold no capital Z, and otherwise strictly less, the notes before the first one. |
| `Changelog.StableMovesNotes` | scripts/release.ts:109-112 | After a stable release its version reads as the trimmed notes that stood under Unreleased, or as its own old section when it has a heading above Unreleased already; when reader and writer mean the same line that is as Unreleased read before. |
| `Changelog.StableEmptiesUnreleased` | scripts/release.ts:109-112 | After a stable release Unreleased reads as having nothing yet, or as before when the reader finds another heading of it further up. |
| `Changelog.StableKeepsOthers` | scripts/release.ts:109-112 | After a stable release every other version reads as it did, wherever its heading stands. |
| `Changelog.CopiedVerbatim` | scripts/release.ts:105-108 | The captured notes are copied letter by letter if and only if they hold no replacement pattern. |
| `Changelog.PilotReads` | scripts/release.ts:104-108 | What the section of a pre-release reads as, for any notes: the copy up to its first heading, trimmed, or its own old section when it has a heading above Unreleased already. |
| `Changelog.PilotReadsPlain` | scripts/release.ts:104-108 | For notes without a replacement pattern: the captured notes, or nothing when they start as a heading does. |
| `Changelog.PilotKeepsUnreleased` | scripts/release.ts:99-108 | After a pre-release Unreleased reads as it did, whatever was copied and wherever the reader finds its heading. |
| `Changelog.PilotCopiesNotes` | scripts/release.ts:88-108 | After a pre-release its version reads as Unreleased if and only if the copy up to its first heading trims to the notes; without a replacement pattern that is if and only if they hold no capital Z and do not start as a heading does. |
| `Changelog.PilotKeepsOthers` | scripts/release.ts:104-108 | After a pre-release any other version reads as it did if and only if its first heading stands above Unreleased, or the copy has no heading of it, or reads the same there; otherwise the copy's section takes over. |
| `Changelog.PatternCanReadBack` | scripts/release.ts:104-108 | A changelog whose notes are a replacement pattern and still read back, so a pattern alone does not decide. |
| `Changelog.GateRefuses` | scripts/release.ts:89-97 | Notes that are there are refused if and only if they hold no capital Z and no heading follows, or nothing to release stands before their first capital Z. |
| `Changelog.LeadingZIsRefused` | scripts/release.ts:89-97 | The notes `Zebra` are refused as if there were none. |
| `Changelog.FirstReleaseIsRefused` | scripts/release.ts:89-97 | The notes `a` are refused when no heading follows them. |
| `Changelog.IndentedHeadingAddsSection` | scripts/release.ts:104-108 | Notes that start with an indented heading give another version a section it did not have. |
| `Changelog.CapitalZCutsTheCopy` | scripts/release.ts:89-90 | A changelog whose notes `aZb` are captured as `a`. |
| `Changelog.DollarsAreLost` | scripts/release.ts:105-108 | A changelog whose notes `a$$` are copied as `a$`. |
| `ToolServer.NormalisedTwice` | scripts/bench/tools-server.ts:117-119 | Normalising a path again changes nothing if and only if the first time left no `./` in front; it never leaves a slash there. |
| `ToolServer.OneDotSlashIsDropped` | scripts/bench/tools-server.ts:117-119 | `././a` normalises to `./a`, and that to `a`. |
| `ToolServer.SqueezedIsFixed` | scripts/bench/tools-server.ts:117-119 | Squeezing leaves no two slashes in a row, and squeezing again changes nothing. |
| `ToolServer.ReplayedKv` | scripts/bench/tools-server.ts:156-164 | The replayed store holds under every key what the last successful write of it says, else what was loaded. |
| `ToolServer.ReplayedFile` | scripts/bench/tools-server.ts:165-171 | The replayed files hold at every path what the last successful write or the last loaded file says under any spelling that normalises to it. |
| `ToolServer.ReplayedMessages` | scripts/bench/tools-server.ts:194-196 | The replayed messages are those of the successful sends, in order. |
| `ToolServer.InjectedInFull` | scripts/bench/tools-server.ts:150-154 | Of the calls of a tool with k injected failures exactly the smaller of k and their number are answered as unavailable. |
| `ToolServer.UnavailableIsMarked` | scripts/bench/tools-server.ts:150-154 | A logged call was answered as unavailable if and only if it is among its tool's first k, and the log then marks it as an error. |
| `ToolServer.InjectedFirst` | scripts/bench/tools-server.ts:150-154 | The calls that fail by injection come before all other calls of the tool, and the log marks them as errors. |
| `ToolServer.SameQuestionsSameLog` | scripts/bench/tools-server.ts:148-247 | The log, and with it the world that is graded, depends on nothing but the loaded world and the calls asked for. |
| `ToolServer.LogsTheCalls` | scripts/bench/tools-server.ts:202-247 | Each call of a listed tool that has an id is logged, in order, and nothing else is. |
| `ToolServer.ToolServer.Reset` | scripts/bench/tools-server.ts:135-144 | Loading a world leaves an empty log that explains it. |
| `ToolServer.ToolServer.Look` | scripts/bench/tools-server.ts:155-193 | A reading tool answers from the tables what searching the log backwards answers. |
| `ToolServer.ToolServer.Injected` | scripts/bench/tools-server.ts:150-154 | The counter of failures left says whether a call is among the first k, counted in the log. |
| `ToolServer.ToolServer.Run` | scripts/bench/tools-server.ts:148-200 | One call: its answer is the one the log asks for, and kv, files and messages change as the replay of the call does, or not at all when it is an error. |
| `ToolServer.ToolServer.Rpc` | scripts/bench/tools-server.ts:202-247 | One message answers and logs as specified, and kv, files, messages and the failures left stay the replay of the log. |
| `ToolServer.ToolServer.Batch` | scripts/bench/tools-server.ts:277-280 | A batch is its messages one after another, with the answers of those that have an id, in order. |
| `BenchRun.ThrottledToTheEnd` | scripts/bench/run.ts:136-147 | A row is throttled if and only if all nine attempts failed while throttled. |
| `BenchRun.FirstPassCounts` | scripts/bench/run.ts:136-147 | A row passes if and only if an attempt passes and each before it failed while throttled. |
| `BenchRun.BackoffBounds` | scripts/bench/run.ts:139-144 | Each pause is at most 120 s and at least what its number doubles to. |
| `BenchRun.Patience` | scripts/bench/run.ts:73-78 | A throttled row has waited between ten and a half and sixteen minutes in all. |
| `BenchRun.MeasuredFirst` | scripts/bench/run.ts:264-266 | No throttled row is written in the first pass. |
| `BenchRun.EachJobWritten` | scripts/bench/run.ts:258-273 | The rows written are one for each job scheduled, whatever was throttled. |
| `BenchRun.EachRepeatOnce` | scripts/bench/run.ts:262-273 | Each repeat of each task asked for is written as often as the task is listed, and nothing else is, so one run a repeat writes what one run of all does. |
| `BenchRun.Runner.TakeTurns` | scripts/bench/run.ts:118-129 | The turns run up to the first that is not ok, and leave exactly their own records. |
| `BenchRun.Runner.RunAttempt` | scripts/bench/run.ts:113-135 | An attempt counts the records of its own turns: what was left from before is dropped. |
| `BenchRun.Runner.RunTask` | scripts/bench/run.ts:98-175 | The retry loop returns the row of the attempt that counts, with its records only, after the pauses its failures ask for. |
| `BenchRun.Runner.RunAll` | scripts/bench/run.ts:258-273 | The main loop appends the measured rows in order and then the second run of each job held back, and its totals count the file. |
| `Wilson.Bounds` | scripts/bench/report.ts:43-50 | Before rounding: 0 <= low <= rate <= high <= 1, and low is 0 if and only if nothing passed. |
| `Wilson.Mirror` | scripts/bench/report.ts:43-50 | Before rounding: the low end for what passed is 1 less the high end for what failed. |
| `Wilson.IntervalBounds` | scripts/bench/report.ts:43-53 | The published figures keep the order, start at 0 when nothing passed and end at 1 when all did. |
| `Wilson.RoundMonotone` | scripts/bench/report.ts:51 | Rounding to four digits keeps the order and the bounds. |
| `BenchReport.GroupRows` | scripts/bench/report.ts:55-57 | The grouping loop gives every value of the field that a row has exactly its rows, in order. |
| `BenchReport.RateBy` | scripts/bench/report.ts:55-61 | Each group's rate counts its rows and its passes. |
| `BenchReport.GroupsConserve` | scripts/bench/report.ts:55-61 | Whatever the field, the rows and the passes of the groups add up to those of all rows. |
| `BenchReport.Summarise` | scripts/bench/report.ts:63-86 | The summary of an arm: counts and rates of the measured rows, sums over all rows, the middle of the measured times; and the error for an arm without rows. |
| `Median.MiddleExactly` | scripts/bench/report.ts:69-82 | The median is the one number with at most half of the times less than it and more than half no greater, whatever their order. |
| `BenchReport.ShardsShareMedian` | scripts/bench/report.ts:63-86 | The median time of an arm does not depend on the order its shards are read in. |
| `BenchReport.ArmConserves` | scripts/bench/report.ts:63-86 | In every summary tasks and categories each add up to the overall rate, that and the throttled rows to all rows, and all tasks passed on every trial exactly when no measured row failed. |
| `BenchReport.PerfectIsAll` | scripts/bench/summary.ts:73-76 | The number of perfect tasks equals the number of tasks if and only if the passes equal the rows. |
| `BenchReport.ShardsAdd` | scripts/bench/report.ts:97-112 | Measured and throttled rows, cost, tokens and retries of an arm add up over its shards, before rounding. |
| `BenchReport.ShardPassesAdd` | scripts/bench/report.ts:97-112 | So do the passes that are measured. |
| `BenchReport.ShardsOfAnArm` | scripts/bench/report.ts:92-95 | A shard of an arm belongs to that arm whatever its number. |
| `BenchReport.Load` | scripts/bench/report.ts:97-114 | Each file's rows go to its own arm, after those of the files before it, and to no other. |

## Left out

- TaskLog.RunConserves: says which conversation's task a chunk goes to, not which turn produced it; the server knows only the recipient, and that every task ends at all depends on the outbox and the scheduler.
- TaskLog.RunKeepsTimes: assumes a clock that does not go back; the order of the ends themselves needs no such assumption.
- A2AServer.A2AServer.Start: takes a message as its parts, its id and its context; decoding JSON, a host whose `receive` throws, and the length of a text in UTF-16 units are not modelled.
- A2AServer.A2AServer.Observe: reads the session key and the reason of an event; the 3 s of the quiet timer are not modelled, the timer may fire at any later step.
- PeerConfig.ReadConfigRefuses: covers the peers; the card and its skills are not modelled, nor the error texts.
- OutlineParser.ParseSection: starts from lines already told apart as pages and groups; the regular expression that does it, page addresses, the section title and folder ids are not modelled.
- TelegramCursor.OnceEachExactly: covers long polling; webhooks, and the calls made before the first poll, are not modelled.
- TelegramCursor.PollLoop.Turn: says when a failure is reported, not the wording of status lines.
- Semver.CompareVersions: uses unbounded integers, so numbers beyond 2^53 compare exactly here and may not in the source.
- ToolServer.ToolServer.Run: a reply is what it says, not its wording; evaluating an arithmetic expression is a parameter, and so is printing an order; a key that JavaScript objects inherit, such as `constructor`, is an ordinary key here.
- BenchRun.Runner.RunTask: an attempt carries its grade, the number of its tool calls, whether a 402 names the in-flight budget, and how long its turns took; computing those, times of day and session names are not modelled.
- Wilson.IntervalBounds: over the reals, with the square root as a parameter; the rounding errors of JavaScript numbers are not modelled.
- BenchReport.Summarise: leaves out the names of harness, model and provider, which are copied from the first row.
- HTTP, JSON-RPC dispatch, server-sent events, the agent card, CancelTask (always an error) and streaming replies of the A2A server: single branches with nothing to prove across steps.
- Line ends other than a line feed, and characters outside one code unit, in the changelog, the outline and table rows.
- Slack, Teams and WhatsApp channels, token verification, the evaluation scripts, the command line, the site's pages and the benchmark's proxy.

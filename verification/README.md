# InterFire: a verified model of the daemon's core

InterFire is an application firewall daemon. A kernel observer reports TCP connects; the daemon attributes each
one to a process, decides it from once-tokens, rules or a prompt to the user, and stores the decision in a bounded
table with a time to live. A packet thread takes stored decisions out of that table and answers the kernel queue.
IPC clients meanwhile answer prompts, edit rules, note DNS answers and switch the nftables modes.

This project models that core in Dafny and proves what it promises over whole runs:

- **Verdict pipeline** (`Rules`, `Stores`, `Prompts`, `Policy`, `Packet`, `Ipc`, `Pipeline`, `FailClosed`,
  `Lifecycle`, `Repeats`, `Progress`, `Handlers`). The threads are a step system, one step per critical section, with an explicit
  clock per lock under which time is read, none of which runs backwards; operations that read the clock several times
  get several ordered readings. The main theorems speak about every run: every accepted packet consumes its own earlier, fresh, attributed and warranted decision
  (`AcceptIsEarned`, `AcceptsAreDistinct`); an Allow/Once answer buys at most one accepted packet
  (`AnswerBuysOneAccept`); conversely, from every reachable state a warranted connect's packet does get through
  (`PacketGetsItsDecision`, `OnceAnswerPasses`); a decision is stated in full in terms of the event, the tokens, the
  names and the fields of the rules (`DecisionExactly`, `VerdictByFields`); each prompt settles once, inserts at most one rule, and a lasting answer is obeyed
  (`SettledForever`, `PersistsOnce`, `LastingAnswerGoverns`), and repeating an answer changes nothing in the rest of
  any run (`RepeatIsInvisible`).
- **nftables compiler and mode controller** (`Nft`, `NftText`, `NftReader`, `Modes`, `Controller`). The table has a
  first-match packet semantics. The composed table, `reapply_table`, `apply_modes` and the fixed script all denote one
  packet policy (`ComposedIsIntended`, `CaseSplitsAgree`), the printed scripts are read back as exactly those tables
  (`PrintedIsRead`, `OwnedIsRead`), a listing of them is classified correctly (`ClassifyComposed`), and files, memory
  and kernel table agree along every run with failing stores, failing `nft` calls and restarts (`RunAgrees`,
  `SuccessSyncs`, `TableFollowsPreferences`).
- **Audit log** (`Audit`, `AuditStream`). The memory ring stays the newest part of the byte-capped file across
  appends, trims, rewrites and restarts (`RunSyncs`, `ReopenRestores`), and every subscriber's stream is gap-free
  (`AttachedStream`, `StreamsAreGapFree`), also after a restart (`ReopenedIsFresh`), and does arrive
  (`SubscriberCatchesUp`).
- **IPC row codec** (`Text`, `Codec`). Escaping and the row lists round-trip (`EscapeRoundTrip`,
  `StatsListRoundTrip`, `ProcessListRoundTrip`).
- **Bounded FIFO maps** (`Fifo`, `Stores`, `Stats`). One theory of "map plus order queue" covers five stores
  (`EvictionIsExact`, `EvictsLongest` of each store, `ResidentRowIsTally`).
- **Lock order** (`Locks`). Any number of threads can deadlock if and only if an event handler and a process listing
  are among them (`DeadlockNeedsExactlyBoth`).

Each structure that the source updates in place is a class whose methods are proved equal to a pure step function
(`State()` before and after); the run theorems are proved about those functions. Text is a sequence of UTF-8 code
units, one `char` per byte, so lengths are byte lengths. Clock readings, `/proc` contents, directory order, and the
success of file and `nft` calls are inputs.

## What does not hold of the code

Each of these has an exact condition and a lemma at a failing input.

- A process listing takes the process cache before the rules, while the event handler takes them the other way
  round: the two can wait for each other for ever. Threads can deadlock if and only if both kinds are there
  (`Locks.DeadlockNeedsExactlyBoth`, `Locks.ProcessListCanDeadlock`).
- A lasting Deny is not always the last word: a connect between the answer and the insertion of its rule, which take
  two different locks, opens a second prompt, and answering that one Allow/Once lets the next connect through
  (`Progress.RaceHappens`). `Lifecycle.LastingAnswerGoverns` gives the verdict of every later connect exactly, and
  `Lifecycle.LastingAnswerIsObeyed` says that only a Once answer for the key can stand in the way.
- An install ignores a failed `nft delete table` and loads its script into the old table, so a machine that was just
  unblocked can keep dropping (`Controller.FailedDeleteKeepsDropping`); `Controller.SuccessSyncs` gives the exact
  condition under which a successful command leaves the right table.
- Blocking the machine and unblocking it again need not restore the table, even if every call succeeds: a daemon that
  bound its queue and then lost it still has the queue rule, and the pair takes it away
  (`Controller.LostQueueIsNotRestored`). `Controller.BlockThenUnblock` gives the exact condition from any state, and
  `Controller.SyncedBlockThenUnblock` what it comes to for a table in sync.
- Unblocking a user writes `traffic.user.<uid>`, but a directory entry such as `traffic.user.007` also stands for uid 7
  and keeps blocking (`Controller.UserUnblockClears`, `Controller.AliasKeepsBlocking`).
- The status label names everything that is dropped for a user if and only if what it shows covers every file that
  stands for the uid (`Controller.StatusIsComplete`). It fails for a user who blocks a direction that a blocked machine
  leaves open (`Nft.LabelOmitsDirection`), and on an open machine for a uid that is blocked through a file such as
  `traffic.user.007`, which the label does not read (`Controller.AliasIsNotShown`).
- Pausing can change what is dropped: a daemon that has just started with a persisted block has installed no table yet,
  and a successful pause then starts dropping (`Controller.PauseStartsDropping`). `Controller.PauseChangesDrops` gives
  the exact condition; from a table in sync it always holds (`Controller.PauseKeepsDrops`).
- `AuditLog`: a line larger than the byte cap empties the file, and reopening then restarts the sequence counter at 1
  (`Audit.ReopenAfterAppend`, `Audit.OversizeLineResets`); a message that ends in a carriage return loses it on reload
  (`Audit.ReopenWindow`, `Audit.CrMessageIsCut`). The running daemon feeds it neither: its only `append`
  (crates/interfire-daemon/src/observe.rs:262-268) writes short fixed messages against a cap of 1 MiB, so its own log
  always restores (`Handlers.ConnectLineFits`, `Handlers.DaemonLogRestores`).
- A process list changes in transit when its last command line ends in CR or LF, or when an unescaped field holds a
  separator (`Codec.ProcessListRoundTrip`, `Codec.ProcessListsThatChange`).
- `PromptQueue::enqueue` on its own does not keep a key in one role; it does exactly when the key holds no once-token
  (`Prompts.EnqueueKeeps`, `Prompts.EnqueueOverToken`), which `decide` guarantees by consuming both tokens first.

## Model

| member | source | states |
|---|---|---|
| `FailClosed.AcceptIsEarned` | crates/interfire-daemon/src/nfqueue_live.rs:37-61 | in every run, each Accept the packet thread returns has a decision for that packet's key, stored not longer ago than the TTL, not overwritten or consumed since, attributed, and warranted by a live once-allow token or a top-precedence Allow rule at decision time |
| `FailClosed.AcceptsAreDistinct` | crates/interfire-daemon/src/pending.rs:47-88 | two accepted packets rest on different stores of different decisions |
| `FailClosed.AnswerBuysOneAccept` | crates/interfire-daemon/src/prompts.rs:101-234 | two accepted packets whose decisions rest on once-allow tokens were bought by two different Allow/Once answers, each within the prompt TTL |
| `FailClosed.TokenIsBought` | crates/interfire-daemon/src/prompts.rs:101-107 | a decision that rests on a once-allow token spends the token of one fresh Allow/Once answer for its key, not spent or replaced in between, within the TTL |
| `FailClosed.AnswersBuyOnce` | crates/interfire-daemon/src/prompts.rs:101-112 | two decisions that rest on tokens were bought by different answers |
| `FailClosed.DecisionIsWarranted` | crates/interfire-daemon/src/policy.rs:35-157 | in every run a decision is Accept if and only if it was attributed and a live allow token existed, or no deny token and a top-precedence Allow rule |
| `FailClosed.AcceptTakes` | crates/interfire-daemon/src/nfqueue_live.rs:37-61 | the packet thread returns Accept if and only if it takes a stored, unexpired Accept for the packet's key |
| `FailClosed.PromptsKeep` | crates/interfire-daemon/src/prompts.rs:101-234 | in every run `pending_by_key` is the inverse of the Pending prompts, every Pending id is queued in increasing order, the pending bound holds, and no key has two of the roles pending, once-allow, once-deny |
| `FailClosed.SettledForever` | crates/interfire-daemon/src/prompts.rs:167-234 | once a prompt has left Pending, its record never changes for the rest of the run |
| `FailClosed.RulesStayWellFormed` | crates/interfire-daemon/src/ipc.rs:529-619 | in every run the rule set has unique ids and absolute executables |
| `FailClosed.ClockGrows` | crates/interfire-daemon/src/pending.rs:47-88 | none of the three clocks of a run, one per lock under which time is read, runs backwards |
| `Lifecycle.PersistsOnce` | crates/interfire-daemon/src/ipc.rs:504-527 | no prompt id inserts a rule twice in a run |
| `Repeats.RepeatIsInvisible` | crates/interfire-daemon/src/prompts.rs:167-208 | leaving a repeated answer out of any run leaves a run in which every later step can be taken, with the same decisions, the same packet verdicts, the same rules and the same pending verdicts |
| `Repeats.ListingIsInvisible` | crates/interfire-daemon/src/prompts.rs:150-165 | the same for a listing of the prompts |
| `Repeats.AlikeStep` | crates/interfire-daemon/src/policy.rs:35-157 | every step of every thread keeps two worlds alike that differ by an expiry sweep of the prompts and the clock of that sweep |
| `Repeats.DecisionIgnoresSweep` | crates/interfire-daemon/src/policy.rs:80-157 | a decision and the queue it leaves are the same from a queue that was swept before |
| `Repeats.SweptTwice` | crates/interfire-daemon/src/prompts.rs:210-234 | an earlier expiry sweep makes no difference to a later one |
| `Lifecycle.RepeatsFirstAnswer` | crates/interfire-daemon/src/prompts.rs:167-208 | a repeated answer returns the first verdict and scope, marked duplicate, and leaves the swept queue and a later clock |
| `Lifecycle.LastingAnswerGoverns` | crates/interfire-daemon/src/ipc.rs:504-565 | after a fresh Session or Permanent answer whose rule went in, with the rules unchanged since and no matching rule of more than three constraints, every later connect of the same executable and port, at any address, is decided exactly: a live allow token of its own accepts, else a live deny token of its own drops, else the answered verdict; attributed and with no new prompt |
| `Lifecycle.LastingAnswerIsObeyed` | crates/interfire-daemon/src/ipc.rs:504-565 | in the same situation every later connect of the key, whatever connects came before, gets exactly the answered verdict with no token of either kind, as long as nobody answered a prompt of the key for once since |
| `Lifecycle.WaitingKeeps` | crates/interfire-daemon/src/ipc.rs:504-527 | in every run each rule still to be inserted carries the recorded verdict and scope of an answered prompt |
| `Lifecycle.DoneForever` | crates/interfire-daemon/src/ipc.rs:504-527 | a settled prompt with no rule waiting never gets one again |
| `Lifecycle.TokenlessUntil` | crates/interfire-daemon/src/prompts.rs:167-208 | a key without once-token stays so until a prompt of the key is freshly answered for once, whatever else happens |
| `Progress.PacketGetsItsDecision` | crates/interfire-daemon/src/nfqueue_live.rs:37-61 | after any run, a connect whose packet is looked up within the TTL gets exactly its decision: Accept if and only if the decision was warranted |
| `Progress.OnceAnswerPasses` | crates/interfire-daemon/src/prompts.rs:101-208 | after any run, a timely Allow/Once answer to a pending prompt lets the next connect of its key through, on that token |
| `Progress.LastingAnswerTakesHold` | crates/interfire-daemon/src/ipc.rs:504-565 | after any run, a timely Session or Permanent answer for an absolute executable decides the next connect of its key, unless a matching rule has more than three constraints |
| `Progress.AcceptHappensTwice` | crates/interfire-daemon/src/policy.rs:118-157 | a concrete run in which one Allow rule lets two packets through |
| `Progress.RaceOverridesDeny` | crates/interfire-daemon/src/ipc.rs:504-535 | after any run with a pending prompt for an executable that no rule names: a lasting Deny, a connect before its rule is inserted, and an Allow/Once answer to that connect's prompt; the Deny then governs the next connect, which is accepted |
| `Progress.RaceHappens` | crates/interfire-daemon/src/ipc.rs:504-535 | the same as one concrete run of eight steps |
| `Pipeline.PendingSource` | crates/interfire-daemon/src/pending.rs:47-88 | every entry of the pending table is the latest stored decision for its key, not yet consumed, with the clock reading of its insertion |
| `Pipeline.AttemptsAreCounted` | crates/interfire-daemon/src/nfqueue_live.rs:37-61 | in every run a packet still in flight has been tried as often as there were attempts since it arrived, and fewer than fifty times |
| `Pipeline.AttemptExactly` | crates/interfire-daemon/src/nfqueue_live.rs:37-61 | what an attempt finds unexpired is the verdict; the fiftieth miss drops the packet, any other only counts |
| `Pipeline.ArriveExactly` | crates/interfire-daemon/src/nfqueue_live.rs:37-61 | a packet that parses waits for its first attempt, another one is dropped at once |
| `Pipeline.PoisonedDrops` | crates/interfire-daemon/src/nfqueue_live.rs:37-61 | with the pending lock poisoned the packet is dropped |
| `Pipeline.NotedIsKnown` | crates/interfire-daemon/src/ipc.rs:455-480 | a name that a client notes is on record, in lower case, for exactly its time to live, and nothing else changes |
| `Pipeline.EditIsSeen` | crates/interfire-daemon/src/ipc.rs:567-619 | an edit of the rules is in force from the next step on, with the verdict that its word says |
| `Pipeline.DecidingSource` | crates/interfire-daemon/src/observe.rs:217-247 | a decision about to be stored is the one the observer thread made last |
| `Pipeline.TokenSource` | crates/interfire-daemon/src/prompts.rs:167-208 | every once-allow token goes back to the latest fresh Allow/Once answer for its key, unspent since |
| `Pipeline.PendingFrame` | crates/interfire-daemon/src/pending.rs:47-88 | a step leaves an entry either newly stored by the observer thread, or unchanged and not taken |
| `Pipeline.DecidingFrame` | crates/interfire-daemon/src/observe.rs:217-247 | only deciding and storing change the decision in flight |
| `Pipeline.TokenFrame` | crates/interfire-daemon/src/prompts.rs:101-208 | a step leaves a once-allow token either newly granted by a fresh answer, or unchanged and unspent |
| `Handlers.HandleEvent` | crates/interfire-daemon/src/observe.rs:217-269 | on the live tables one event is decided, stored, counted and logged exactly as specified; a poisoned table lock leaves everything, another poisoned lock only skips what it guards |
| `Handlers.RecordDecision` | crates/interfire-daemon/src/observe.rs:245-269 | what storing, counting and logging a decision leave in the pending table, the statistics and the audit log |
| `Handlers.DecisionIsLogged` | crates/interfire-daemon/src/observe.rs:262-268 | every decision is logged as a connect message with its port and one of three outcomes |
| `Handlers.DecisionIsCounted` | crates/interfire-daemon/src/observe.rs:249-261 | an attributed connect is counted in all and, if denied, as denied, and under its own process, its name or else address, its address, port and user |
| `Handlers.MessageInWords` | crates/interfire-daemon/src/observe.rs:262-268 | the message for one connect, letter by letter |
| `Handlers.ConnectLineFits` | crates/interfire-daemon/src/observe.rs:262-268 | every such line fits the daemon's audit cap and does not end in a carriage return |
| `Handlers.DaemonLogRestores` | crates/interfire-daemon/src/shared.rs:84-88 | at any point of any run of the daemon's own messages and restarts, reopening the audit log restores its window and counter |
| `Handlers.LookupVerdict` | crates/interfire-daemon/src/nfqueue_live.rs:37-61 | on the live table, with arbitrary decisions stored between the fifty attempts, a packet is accepted if and only if it parses and the first attempt that does not miss gets the lock and finds an unexpired Accept, which has then left the table |
| `Policy.AcceptIffAllowed` | crates/interfire-daemon/src/policy.rs:80-157 | an attributed decision is Accept if and only if a live once-allow token exists, or no deny token applies and some top-precedence rule allows; the key is the event's and the statistics label agrees with the verdict |
| `Policy.DecisionExactly` | crates/interfire-daemon/src/policy.rs:80-157 | the whole decision in terms of the event, the tokens, the names and the rules: a live once-allow token accepts, else a once-deny token drops, else the rules decide when asked about the executable, TCP, outgoing, the address, its unexpired cached name and the port; Allow accepts, Deny and Prompt drop; destination and statistics row are the event's |
| `Policy.DecisiveRuleDecides` | crates/interfire-daemon/src/policy.rs:118-157 | without tokens, the rule that is met and asks for the most fields, or as many under a larger id, decides the connect |
| `Policy.NamedDenyHolds` | crates/interfire-daemon/src/policy.rs:210-223 | a Deny rule for the destination's cached hostname drops the connect in spite of a general Allow rule, and from the moment the name expires the connect is accepted |
| `Policy.AddressDenyHolds` | crates/interfire-daemon/src/policy.rs:210-223 | a Deny rule for an address drops the connect in spite of a general Allow rule exactly when the address is that of the event |
| `Policy.OtherRuleHasNoEffect` | crates/interfire-daemon/src/policy.rs:118-157 | a rule that names another executable, protocol, direction, address, port, or anything but the unexpired cached hostname changes no decision |
| `Policy.PromptExactly` | crates/interfire-daemon/src/policy.rs:130-157 | a connect that the rules leave open names the prompt that waits for its key, or else a new one under the next id with its full time to live, or none when as many wait as fit |
| `Policy.DecideExactly` | crates/interfire-daemon/src/policy.rs:35-78 | an event that cannot be attributed is dropped and leaves queue, names and recent list alone; any other is decided for its process, whose recent list then has the row for the destination and outcome |
| `Policy.AttributionExactly` | crates/interfire-daemon/src/policy.rs:194-208 | a known start time that is cached needs nothing else; otherwise `/proc` is asked, and what it said is taken as it is, unless the start time is known and is not the one it found |
| `Policy.AttributionIsCached` | crates/interfire-daemon/src/policy.rs:194-208 | a process read from `/proc` is found without asking again |
| `Policy.AttributionIsSound` | crates/interfire-daemon/src/policy.rs:194-208 | attribution names the event's pid and, when known, its start time, and the cache stays filed under its own keys |
| `Policy.TokenOutcome` | crates/interfire-daemon/src/policy.rs:95-117 | both token checks succeed exactly for live tokens, whatever order of clock readings and sweeps |
| `Policy.AllowedByRule` | crates/interfire-daemon/src/policy.rs:118-157 | the rule verdict is Allow if and only if a top-precedence rule allows |
| `Policy.DecideKeepsPrompts` | crates/interfire-daemon/src/policy.rs:80-157 | a decision keeps the whole prompt invariant, including one role per key, and issues at most one id |
| `Policy.PromptedIsPending` | crates/interfire-daemon/src/policy.rs:130-157 | a prompt id in a decision is that of a Pending prompt for the connection |
| `Policy.DecideEvent` | crates/interfire-daemon/src/policy.rs:35-78 | `decide` on the live tables computes the specified new tables and decision |
| `Policy.DecideIdentity` | crates/interfire-daemon/src/policy.rs:80-157 | `decide_attributed` on the live queue and DNS cache computes the specified state and decision |
| `Policy.AttributeEvent` | crates/interfire-daemon/src/policy.rs:194-208 | `attribute` on the live cache computes the specified cache and identity |
| `Prompts.EnqueueKeeps` | crates/interfire-daemon/src/prompts.rs:115-148 | enqueue keeps the core invariant; it keeps one role per key if and only if a created prompt's key held no once-token |
| `Prompts.EnqueueOverToken` | crates/interfire-daemon/src/prompts.rs:115-148 | a queue in which enqueueing over a held token gives the key two roles |
| `Prompts.AnswerKeeps` | crates/interfire-daemon/src/prompts.rs:167-208 | answering keeps the whole invariant |
| `Prompts.TakeOnceAllowKeeps` | crates/interfire-daemon/src/prompts.rs:101-107 | taking an allow token keeps the invariant and leaves no allow token for the key |
| `Prompts.ConsumeOnceDenyKeeps` | crates/interfire-daemon/src/prompts.rs:109-112 | consuming a deny token keeps the invariant, leaves no deny token for the key and adds no allow token |
| `Prompts.SweptCore` | crates/interfire-daemon/src/prompts.rs:210-234 | expiry keeps the invariant |
| `Prompts.RepeatAnswer` | crates/interfire-daemon/src/prompts.rs:167-208 | answering an answered prompt returns the first verdict and scope and only sweeps |
| `Prompts.FreshAnswer` | crates/interfire-daemon/src/prompts.rs:167-208 | an answer is fresh if and only if the prompt is Pending and not overdue, and then it carries the given verdict and scope |
| `Prompts.EnqueueExactly` | crates/interfire-daemon/src/prompts.rs:115-148 | enqueue, case by case: the prompt that already waits for the key; else nothing when as many wait as fit; else a new one under the next id that waits for its time to live; no waiting prompt changes |
| `Prompts.AnswerExactly` | crates/interfire-daemon/src/prompts.rs:167-208 | answer, case by case: no such prompt, the recorded answer of an answered one, expired, or a fresh answer with its record; Allow/Once adds just the allow token and Deny/Once just the deny token of its key, and nothing else adds a token |
| `Prompts.AnswerWindow` | crates/interfire-daemon/src/prompts.rs:115-208 | a created prompt can be freshly answered for exactly its time to live |
| `Prompts.EnqueuedIsPending` | crates/interfire-daemon/src/prompts.rs:115-148 | the id that enqueue reports is that of a Pending prompt for the key |
| `Prompts.AnswerKeepsSettled` | crates/interfire-daemon/src/prompts.rs:167-208 | answering changes no settled prompt |
| `Prompts.EnqueueKeepsSettled` | crates/interfire-daemon/src/prompts.rs:115-148 | enqueueing changes no settled prompt |
| `Prompts.PromptQueue.constructor` | crates/interfire-daemon/src/prompts.rs:81-94 | a new queue is empty, hands out id 1 first, and satisfies the invariant |
| `Prompts.PromptQueue.TakeAllowToken` | crates/interfire-daemon/src/prompts.rs:101-107 | `take_once_allow` in place is the specified step |
| `Prompts.PromptQueue.TakeDenyToken` | crates/interfire-daemon/src/prompts.rs:109-112 | `consume_once_deny` in place is the specified step |
| `Prompts.PromptQueue.Push` | crates/interfire-daemon/src/prompts.rs:115-148 | `enqueue` in place is the specified step |
| `Prompts.PromptQueue.Respond` | crates/interfire-daemon/src/prompts.rs:167-208 | `answer` in place is the specified step |
| `Prompts.PromptQueue.Expire` | crates/interfire-daemon/src/prompts.rs:210-234 | `expire` in place is the specified sweep |
| `Prompts.Lapse` | crates/interfire-daemon/src/prompts.rs:210-234 | settling the overdue prompts one by one, in any order, expires exactly those and removes exactly their keys |
| `Ipc.AnsweredRuleDecides` | crates/interfire-daemon/src/ipc.rs:529-565 | the rule of a lasting answer decides a connection of its executable and port if and only if no matching rule has more than three constraints |
| `Ipc.PersistSucceeds` | crates/interfire-daemon/src/ipc.rs:529-565 | inserting the answered rule succeeds if and only if the executable is absolute and no rule holds the largest id |
| `Ipc.MaxId` | crates/interfire-daemon/src/ipc.rs:536-542 | the largest rule id: an upper bound that some rule attains, or 0 |
| `Ipc.PersistAnsweredRule` | crates/interfire-daemon/src/ipc.rs:529-565 | the rule set after persisting, and the error code for a rejected rule and for a failed save |
| `Ipc.PromptAnswer` | crates/interfire-daemon/src/ipc.rs:482-527 | who and what is refused, with which code and without any change; a fresh "allow" or "deny" with "once", "session" or "permanent" leaves the token or the rule of that very verdict and scope, and the client is told word for word what became of it; in all cases the queue and rules after the answer, and success exactly when nothing was left to do or the rule was inserted and, if permanent, saved |
| `Ipc.FreshTakes` | crates/interfire-daemon/src/ipc.rs:482-565 | a fresh answer records its verdict and scope; Allow/Once leaves an allow token and Deny/Once a deny token for the prompt's key, and no rule; a lasting answer leaves, for an absolute executable and below the largest id, one more rule for TCP, outgoing, that executable and port, of that verdict and scope, above all other ids |
| `Ipc.AnswerWords` | crates/interfire-daemon/src/ipc.rs:493-503 | which words stand for which verdict and scope, and that no other word does |
| `Ipc.Mutate` | crates/interfire-daemon/src/ipc.rs:567-619 | success if and only if authorised, applicable and saved; a failed save leaves the edit in memory, a refusal leaves everything; an added rule has the verdict that its word says |
| `Ipc.MutatedKeepsWellFormed` | crates/interfire-daemon/src/ipc.rs:567-619 | every edit keeps ids unique and executables absolute |
| `Rules.BestIsTop` | crates/interfire-rules/src/lib.rs:68-149 | the chosen rule matches and is outranked by no matching rule; none is chosen only if none matches |
| `Rules.TopDecides` | crates/interfire-rules/src/lib.rs:143-149 | with unique ids the top rule is unique and decides |
| `Rules.VerdictByFields` | crates/interfire-rules/src/lib.rs:68-149 | with no rule met the verdict is Prompt; otherwise exactly the rule that is met and asks for the most of the six fields, or as many under the largest id, gives it |
| `Rules.OtherValueHasNoEffect` | crates/interfire-rules/src/lib.rs:68-86 | a rule that names another value for any one of executable, protocol, direction, address, hostname or port changes no verdict |
| `Rules.LoneRuleDecides` | crates/interfire-rules/src/lib.rs:68-86 | a lone rule decides every connection that has the values it names |
| `Rules.VerdictIgnoresOrder` | crates/interfire-rules/src/lib.rs:143-149 | permuting the rules changes no verdict |
| `Rules.InsertIsLocal` | crates/interfire-rules/src/lib.rs:119-149 | an inserted rule decides exactly the connections it matches and wins, and changes no other verdict |
| `Rules.InsertThenRemove` | crates/interfire-rules/src/lib.rs:119-134 | removing the rule just inserted restores the very same rule vector |
| `Rules.WithoutIsExact` | crates/interfire-rules/src/lib.rs:130-134 | removal keeps exactly the rules with other ids, and shortens the vector if and only if the id was there |
| `Rules.WithoutKeepsWellFormed` | crates/interfire-rules/src/lib.rs:130-134 | removal keeps ids unique and executables absolute |
| `Rules.InsertKeepsWellFormed` | crates/interfire-rules/src/lib.rs:119-128 | a successful insertion keeps ids unique and executables absolute |
| `Rules.InsertRefuses` | crates/interfire-rules/src/lib.rs:119-128 | a rule is refused exactly for an executable that does not begin with a slash, else for an id that is taken; otherwise it is appended |
| `Rules.RuleSet.Insert` | crates/interfire-rules/src/lib.rs:119-128 | the rule is appended, or the set is unchanged and the error names the reason |
| `Rules.RuleSet.Remove` | crates/interfire-rules/src/lib.rs:130-134 | the rules with that id are gone, and the result says whether there were any |
| `Rules.Load` | crates/interfire-rules/src/lib.rs:202-217 | loading accepts exactly well-formed documents of the current schema, or a missing file, and keeps the rules unchanged |
| `Rules.SaveThenLoad` | crates/interfire-rules/src/lib.rs:202-248 | loading what was saved from any reachable rule set succeeds with the same rules |
| `Packet.KeysAgree` | crates/interfire-daemon/src/packet.rs:10-28 | on both host byte orders and for every header length from 5 to 15 words, the key built by the observer and carried through the ring record is the key parsed from the packet |
| `Packet.ParsesExactlyAddressed` | crates/interfire-daemon/src/packet.rs:10-28 | a key is recovered from exactly the IPv4 TCP packets long enough for their header and ports |
| `Packet.ObservesNetworkOrder` | crates/interfire-ebpf-programs/src/main.rs:36-58 | the observer's event holds the network-order reading of address and port, whatever the host byte order, and fits its fields |
| `Packet.RecordRoundTrip` | crates/interfire-ebpf/src/lib.rs:50-66 | decoding a ring record gives back the event, whatever the padding and trailing bytes |
| `Packet.DestinationInWords` | crates/interfire-daemon/src/packet.rs:10-28 | byte by byte: a packet of version 4, protocol 6 and at least five header words has the big-endian address of bytes 16 to 19 and the big-endian port two bytes behind its header; any other packet, and one that is too short, has none |
| `Packet.RecordInWords` | crates/interfire-ebpf/src/lib.rs:50-66 | at which bytes of the ring record a little-endian host finds pid, ticks, address and port |
| `Packet.ObservesInWords` | crates/interfire-ebpf-programs/src/main.rs:36-58 | the event for the bytes of a socket address, whatever the host byte order |
| `Packet.ValueRoundTrip` | crates/interfire-ebpf/src/lib.rs:50-66 | a value that fits survives encoding and decoding in either byte order |
| `Packet.BytesRoundTrip` | crates/interfire-ebpf-programs/src/main.rs:36-58 | bytes survive decoding and encoding in either byte order |
| `Fifo.EvictionIsExact` | crates/interfire-daemon/src/pending.rs:47-88 | in every list of calls with their own expiry sets, an insertion drives a surviving key out if and only if the inserted key is new, the store is full, and no survivor began its one present residence earlier |
| `Fifo.EvictsLongestResident` | crates/interfire-daemon/src/dns.rs:48-75 | the evicted key's residence began before that of every other key that survives the expiry pass, and it alone leaves |
| `Fifo.RunKeeps` | crates/interfire-daemon/src/recent.rs:41-67 | every list of calls keeps the queue duplicate-free and covering, and the map within capacity |
| `Fifo.MakeRoom` | crates/interfire-daemon/src/stats.rs:187-208 | the eviction loop removes exactly the front key when the map is full and leaves room; the branch that clears everything is unreachable |
| `Fifo.PutKeeps` | crates/interfire-daemon/src/process.rs:106-118 | an insertion keeps queue and map in exact agreement and within capacity |
| `Fifo.OrderIsAge` | crates/interfire-daemon/src/pending.rs:47-88 | queue order is the order in which residences began |
| `Fifo.BirthOf` | crates/interfire-daemon/src/pending.rs:47-88 | every resident key has a call with which its present residence began |
| `Fifo.EvictedIsOlder` | crates/interfire-daemon/src/pending.rs:47-88 | a key that an insertion evicts has been resident longer than any other survivor, and the other one stays |
| `Pending.EvictsLongest` | crates/interfire-daemon/src/pending.rs:47-88 | in every run of stores, takes and expiry passes, storing drives an unexpired decision out if and only if its destination is new, the table is full of unexpired decisions, and none has been there longer |
| `Pending.RunKeepsBound` | crates/interfire-daemon/src/pending.rs:47-88 | in every such run the queue is duplicate-free and covers the map, and the bound holds |
| `Pending.AfterIsAt` | crates/interfire-daemon/src/pending.rs:47-88 | every such run is the list of store calls that expire exactly the entries stale at their clock reading |
| `Pending.TakeIsFresh` | crates/interfire-daemon/src/pending.rs:70-88 | a verdict is handed out if and only if one is stored and within its TTL; it leaves, and exactly the other fresh entries stay |
| `Pending.InsertIsLocal` | crates/interfire-daemon/src/pending.rs:47-68 | an insertion sets its own entry and leaves of the others only unexpired ones, unchanged |
| `Pending.PendingTable.Insert` | crates/interfire-daemon/src/pending.rs:47-68 | `insert` in place is the specified step |
| `Pending.PendingTable.Take` | crates/interfire-daemon/src/pending.rs:70-73 | `take` in place is the specified step |
| `Pending.PendingTable.Expire` | crates/interfire-daemon/src/pending.rs:75-88 | `expire` in place is the specified sweep and leaves queue and map in exact agreement |
| `Pending.RetainFresh` | crates/interfire-daemon/src/pending.rs:75-88 | the retain loop, which edits the map from inside, is the specified sweep |
| `Dns.EvictsLongest` | crates/interfire-daemon/src/dns.rs:48-109 | in every run of answers and queries, noting a name drives an unexpired one out if and only if its address is new, the cache is full of unexpired names, and none has been there longer |
| `Dns.RunKeepsBound` | crates/interfire-daemon/src/dns.rs:48-109 | in every such run the queue is duplicate-free and covers the map, and the bound holds |
| `Dns.AfterIsAt` | crates/interfire-daemon/src/dns.rs:48-109 | every such run is the list of store calls that expire exactly the names stale at their clock reading |
| `Dns.NotedNameExpires` | crates/interfire-daemon/src/dns.rs:48-82 | a noted name is reported in lower case for exactly its time to live |
| `Dns.NamesAreFresh` | crates/interfire-daemon/src/dns.rs:77-82 | a name is reported if and only if it is stored and unexpired |
| `Dns.LowerCaseLetters` | crates/interfire-daemon/src/dns.rs:48-75 | only the letters A to Z change, each to its own small letter |
| `Dns.DnsCache.Observe` | crates/interfire-daemon/src/dns.rs:48-75 | `observe` in place is the specified step |
| `Dns.DnsCache.HostnameFor` | crates/interfire-daemon/src/dns.rs:77-82 | `hostname_for` in place is the specified sweep and lookup |
| `Dns.DnsCache.Expire` | crates/interfire-daemon/src/dns.rs:98-109 | `expire` in place is the specified sweep |
| `Dns.DropExpired` | crates/interfire-daemon/src/dns.rs:98-109 | removing the expired addresses one by one, in any order, removes exactly those |
| `Process.EvictsLongest` | crates/interfire-daemon/src/process.rs:106-118 | in every run of insertions, one drives an identity out if and only if it is new, the cache is full, and no identity has been there longer |
| `Process.RunStaysExact` | crates/interfire-daemon/src/process.rs:106-118 | in every such run queue and map agree exactly, the bound holds, and each identity is filed under its own pid and start time |
| `Process.AfterIsAt` | crates/interfire-daemon/src/process.rs:106-118 | every such run is the list of store calls that keep a known identity and expire nothing |
| `Process.CachedKeepsFiled` | crates/interfire-daemon/src/process.rs:106-118 | an insertion keeps every identity filed under its own pid and start time |
| `Process.CachedExactly` | crates/interfire-daemon/src/process.rs:106-118 | a known identity stays as it was, a new one is there as given, and nobody else's record changes |
| `Process.ProcessCache.Insert` | crates/interfire-daemon/src/process.rs:106-118 | `insert` in place is the specified step |
| `Recent.EvictsLongest` | crates/interfire-daemon/src/recent.rs:41-67 | in every run of records, one drives a process out if and only if its own process is new, the table is full, and no process has been there longer |
| `Recent.RunStaysExact` | crates/interfire-daemon/src/recent.rs:41-67 | in every such run queue and map agree exactly, both bounds hold, and each process has one row per target |
| `Recent.AfterIsAt` | crates/interfire-daemon/src/recent.rs:41-67 | every such run is the list of store calls that expire nothing |
| `Recent.NotedKeeps` | crates/interfire-daemon/src/recent.rs:41-67 | the inner list keeps one row per target within its bound; a known target keeps its place with the new verdict, a new one goes last and at most the oldest row leaves |
| `Recent.OtherRowsStay` | crates/interfire-daemon/src/recent.rs:53-67 | rows for another address or port are never touched, the oldest one can leave only from a full list, and a known target never lengthens the list |
| `Recent.RecentConnects.Record` | crates/interfire-daemon/src/recent.rs:41-67 | `record` in place is the specified step at both levels |
| `Recent.NoteDest` | crates/interfire-daemon/src/recent.rs:53-67 | searching, popping and pushing the inner queue is the specified update |
| `Stats.ResidentRowIsTally` | crates/interfire-daemon/src/stats.rs:90-254 | every resident row counts exactly the hits, and the hits of each verdict, on its key since its one present residence began, capped at the largest 64-bit value |
| `Stats.CountersTallyResidence` | crates/interfire-daemon/src/stats.rs:20-28 | the same for the calls of a history and any residence |
| `Stats.BumpsAreCalls` | crates/interfire-daemon/src/stats.rs:187-254 | the bumps of a dimension are store calls, so the run theorems hold of it |
| `Stats.EvictsLongest` | crates/interfire-daemon/src/stats.rs:187-254 | in every history, a hit drives a row out of a dimension if and only if its own key is new, the dimension is full, and no row has been there longer |
| `Stats.StoreIsItsHistories` | crates/interfire-daemon/src/stats.rs:90-121 | after any list of connects each of the five dimensions is the table of its own projected history, and the totals count all connects and all denials |
| `Stats.BumpKey` | crates/interfire-daemon/src/stats.rs:187-254 | one bump in place is the specified step and keeps the bound |
| `Stats.BumpInWords` | crates/interfire-daemon/src/stats.rs:20-28 | a bump adds one hit and one of its own outcome to its key, from zero for a new one, and no dimension holds more than 512 keys |
| `Stats.StatsStore.Record` | crates/interfire-daemon/src/stats.rs:90-116 | both totals and all five dimensions after a hit |
| `Stats.StatsStore.RecordUnattributedDeny` | crates/interfire-daemon/src/stats.rs:118-121 | only the two totals change |
| `Nft.ComposedIsIntended` | crates/interfire-daemon/src/nft.rs:415-490 | for every machine preference, user list, rules flag and bind flag, first-match evaluation of the composed table is the policy on every packet |
| `Nft.CaseSplitsAgree` | crates/interfire-daemon/src/shared.rs:155-180 | `reapply_table`, `apply_modes` and unconditional composition denote the same packet policy |
| `Nft.TargetActs` | crates/interfire-daemon/src/shared.rs:155-180 | the table is taken away if and only if the policy acts on no packet |
| `Nft.OwnedIsIntended` | crates/interfire-daemon/src/nft.rs:393-403 | the fixed table denotes the policy of an open machine with active rules and a bound queue |
| `Nft.MergedMeaning` | crates/interfire-daemon/src/nft.rs:511-570 | a script loaded into a table that was not deleted acts exactly where the old table accepts |
| `Nft.LabelIsDropped` | crates/interfire-daemon/src/traffic_mode.rs:94-109 | every direction the label names is dropped if and only if the machine is blocked or some entry for the uid blocks each direction of the user's preference |
| `Nft.LabelIsComplete` | crates/interfire-daemon/src/traffic_mode.rs:94-109 | the label names everything that is dropped if and only if what it shows covers every entry for the uid |
| `Nft.UserDropped` | crates/interfire-daemon/src/nft.rs:430-465 | a new packet of a uid is dropped if and only if the machine or an entry for the uid blocks its direction |
| `Nft.BlocksInWords` | crates/interfire-daemon/src/traffic_mode.rs:53-66 | which preference blocks which direction |
| `Nft.BlocksActInWords` | crates/interfire-daemon/src/nft.rs:415-490 | a machine block and a user block drop new packets in just the directions that their words say, the latter only those of its user |
| `Nft.UntouchedAccepted` | crates/interfire-daemon/src/nft.rs:415-490 | a packet on loopback, or not TCP, or not new, is accepted by every composed table |
| `Nft.LabelOmitsDirection` | crates/interfire-daemon/src/traffic_mode.rs:94-109 | a machine block and a user block for which the label omits a direction that is dropped |
| `NftText.ComposeTrafficScript` | crates/interfire-daemon/src/nft.rs:415-490 | the buffers and flags print exactly the composed table, or nothing |
| `NftText.ComposeChain` | crates/interfire-daemon/src/nft.rs:415-475 | one chain's buffer and whether the chain is needed |
| `NftText.AppendUserDrops` | crates/interfire-daemon/src/nft.rs:430-465 | the loop over users prints one drop line per user that blocks the direction, in order |
| `NftText.ClassifyComposed` | crates/interfire-daemon/src/nft.rs:695-723 | a composed script is Missing iff empty, the queue token iff the queue rule is there, the drop token iff there is an output chain without it, Incomplete iff there is only an input chain |
| `NftText.ClassifyOwned` | crates/interfire-daemon/src/nft.rs:695-723 | the fixed script is classified as the installed queue rule |
| `NftReader.PrintedIsRead` | crates/interfire-daemon/src/nft.rs:415-490 | every printed table is read back exactly, chain by chain and rule by rule |
| `NftReader.OwnedIsRead` | crates/interfire-daemon/src/nft.rs:393-403 | the differently laid out fixed script is read as the fixed table |
| `NftReader.ScriptMeaning` | crates/interfire-daemon/src/nft.rs:415-490 | the script, read statement by statement, treats every packet as the policy says |
| `Modes.PrefRoundTrip` | crates/interfire-daemon/src/traffic_mode.rs:113-136 | what `store` writes for a traffic preference is what `load` reads |
| `Modes.ModeRoundTrip` | crates/interfire-daemon/src/enforcement_mode.rs:36-71 | what `store` writes for a mode is what `load` reads |
| `Modes.PreferenceWords` | crates/interfire-daemon/src/traffic_mode.rs:31-50 | the files hold the words open, out, in and all, and a missing file means open |
| `Modes.ModeWords` | crates/interfire-daemon/src/enforcement_mode.rs:27-60 | the file holds the words paused and active, and a missing file means paused |
| `Modes.OtherWords` | crates/interfire-daemon/src/traffic_mode.rs:113-127 | any other content reads as open, or as paused |
| `Modes.UserFileNames` | crates/interfire-daemon/src/traffic_mode.rs:156-186 | the file name of a uid stands for that uid |
| `Modes.LoadUserBlocks` | crates/interfire-daemon/src/traffic_mode.rs:162-186 | the list holds exactly the blocking preferences of the directory, none of them open, sorted by uid, in whatever order it is read |
| `Modes.OwnFileIsListed` | crates/interfire-daemon/src/traffic_mode.rs:156-186 | the file that commands write for a uid is listed with its preference, unless that is open |
| `Controller.RunAgrees` | crates/interfire-daemon/src/shared.rs:187-265 | in every run with failing stores, failing `nft` calls and restarts, persisted mode and machine preference equal those in memory |
| `Controller.StepAgrees` | crates/interfire-daemon/src/shared.rs:70-97 | every step keeps that agreement; a restart with an unreadable file keeps it if and only if the file would have read as the default |
| `Controller.SuccessSyncs` | crates/interfire-daemon/src/shared.rs:155-265 | a successful command leaves the table of its new preferences if and only if the old table was deleted or treats what it dropped or queued as the new policy does |
| `Controller.TableFollowsPreferences` | crates/interfire-daemon/src/shared.rs:155-265 | from a successful command on, through refused commands, commands whose file store fails, bind changes and restarts, the table is the one fixed by machine, users, mode and the bind flag of that command, if and only if the command deleted the old table or the old table was harmless |
| `Controller.ReappliedMeaning` | crates/interfire-daemon/src/shared.rs:155-180 | after a successful reapply every packet meets the fixed policy, except where an undeleted table still acts |
| `Controller.ServeSyncs` | crates/interfire-daemon/src/nfqueue_live.rs:18-28 | binding the queue installs the policy of the persisted preferences with the queue bound, if and only if the old table was deleted or harmless |
| `Controller.PauseChangesDrops` | crates/interfire-daemon/src/shared.rs:187-212 | a successful pause or resume leaves what is dropped unchanged if and only if the preferences fix just what the table drops or, over a table that could not be deleted, nothing that it accepts |
| `Controller.PauseTakes` | crates/interfire-daemon/src/shared.rs:187-196 | after a successful pause the daemon is paused, now and after a restart, nothing else changed, and no packet is queued unless an undeleted table queued it |
| `Controller.ResumeTakes` | crates/interfire-daemon/src/shared.rs:198-212 | a resume succeeds only with the queue bound; then the daemon is active, now and after a restart, nothing else changed, and a new outgoing packet that no preference blocks is queued, unless an undeleted table acted on it |
| `Controller.MachineBlockTakes` | crates/interfire-daemon/src/shared.rs:214-246 | after a successful machine block the preference is in force, now and after a restart, mode and user files are as before, and a new packet in a blocked direction is dropped, unless an undeleted table acted on it |
| `Controller.MachineUnblockTakes` | crates/interfire-daemon/src/shared.rs:248-265 | after a successful machine unblock the machine is open, now and after a restart, mode and user files are as before, and a packet that no user file blocks is not dropped, unless an undeleted table drops it |
| `Controller.UserCommandWrites` | crates/interfire-daemon/src/shared.rs:214-265 | a user command writes the one file of its uid, with a word that reads back as the preference, and nothing else |
| `Controller.FailedCommand` | crates/interfire-daemon/src/shared.rs:187-265 | a resume without a bound queue, a block that says open and a command whose file cannot be stored change nothing; one that fails later has stored its preference and leaves the old table or none |
| `Controller.SucceedsExactly` | crates/interfire-daemon/src/shared.rs:155-265 | a command succeeds if and only if it is not refused, its file can be stored, and `nft` loads the new table or, where the new preferences act on no packet, deletes the old one |
| `Controller.PauseKeepsDrops` | crates/interfire-daemon/src/shared.rs:187-212 | from a table in sync with the preferences, every successful pause or resume drops exactly what was dropped before |
| `Controller.PauseStartsDropping` | crates/interfire-daemon/src/nfqueue_live.rs:18-28 | a daemon just started with a persisted block, whose first pause starts dropping |
| `Controller.BlockThenUnblock` | crates/interfire-daemon/src/shared.rs:214-265 | from any state, blocking and unblocking the machine restores the meaning of the table if and only if the table was in sync with the open policy, where the unblock deletes; with the blocked policy, where only the block deletes; or, where neither does, acted on all that the blocked policy acts on |
| `Controller.SyncedBlockThenUnblock` | crates/interfire-daemon/src/shared.rs:214-265 | for a table in sync on an open machine, the pair restores it if and only if the unblock deleted the old table, or the block did not and only repeated what active, bound rules already did |
| `Controller.LostQueueIsNotRestored` | crates/interfire-daemon/src/shared.rs:99-103 | a run in which every call succeeds and a packet that was queued before the pair is accepted after it |
| `Controller.RestoredMeaning` | crates/interfire-daemon/src/shared.rs:214-265 | the verdict of every packet after the pair, from any state |
| `Controller.UserBlockTakes` | crates/interfire-daemon/src/shared.rs:214-246 | after a successful user block a new packet of that uid in a direction it names is dropped, unless a table that could not be deleted already dropped or queued it |
| `Controller.StatusIsComplete` | crates/interfire-daemon/src/shared.rs:275-279 | the status label names everything that is dropped for a uid if and only if what it shows covers every file that stands for the uid |
| `Controller.StatusIsDropped` | crates/interfire-daemon/src/shared.rs:275-279 | the status label never names a direction that the composed table does not drop |
| `Controller.AliasIsNotShown` | crates/interfire-daemon/src/traffic_mode.rs:156-186 | with only `traffic.user.007` in the directory, uid 7 is shown as open and dropped in every direction |
| `Controller.UserUnblockTakes` | crates/interfire-daemon/src/shared.rs:248-265 | after a successful user unblock a new packet of the uid passes if and only if neither the machine nor an alias of its file blocks it, or, over an undeleted table that acts on it, that table queued it |
| `Controller.UserUnblockClears` | crates/interfire-daemon/src/shared.rs:248-265 | the files block the user after an unblock if and only if another file name standing for the uid blocks that direction |
| `Controller.AliasKeepsBlocking` | crates/interfire-daemon/src/traffic_mode.rs:162-186 | with `traffic.user.007` in the directory, unblocking uid 7 leaves it blocked |
| `Controller.AliasName` | crates/interfire-daemon/src/traffic_mode.rs:162-186 | `traffic.user.007` stands for uid 7 but is not the file of uid 7 |
| `Controller.FailedDeleteKeepsDropping` | crates/interfire-daemon/src/nft.rs:511-570 | a state in which a successful unblock after a failed delete keeps dropping |
| `Controller.Shared.constructor` | crates/interfire-daemon/src/shared.rs:70-97 | a new daemon starts from the files, unbound, with files and memory in agreement |
| `Controller.Shared.Do` | crates/interfire-daemon/src/shared.rs:187-265 | `pause`, `resume`, `traffic_block` and `traffic_unblock` in place are the specified commands and keep the agreement |
| `Controller.Shared.ReapplyTable` | crates/interfire-daemon/src/shared.rs:155-180 | `reapply_table` in place is the specified step over the user blocks of the directory |
| `Controller.Shared.Install` | crates/interfire-daemon/src/nft.rs:271-322 | an install deletes first, ignores a failed delete, and loads |
| `Controller.Shared.InstallComposedTable` | crates/interfire-daemon/src/nft.rs:511-570 | an empty composition removes the table, another one is installed |
| `Controller.Shared.RemoveTable` | crates/interfire-daemon/src/nft.rs:346-391 | a removal leaves no table, or fails and leaves it alone |
| `Controller.Shared.SetEnforcement` | crates/interfire-daemon/src/shared.rs:99-103 | only the bind flag changes |
| `Audit.RunSyncs` | crates/interfire-daemon/src/audit.rs:64-78 | in every run of appends and restarts from a missing file, with no message ending in CR, memory is the newest part of the disk records and the file is within its cap |
| `Audit.AppendSyncs` | crates/interfire-daemon/src/audit.rs:157-204 | an append adds the line if it fits, and otherwise leaves the longest tail of the memory window that the byte cap admits; memory stays the newest part of the disk |
| `Audit.ReopenRestores` | crates/interfire-daemon/src/audit.rs:206-224 | reopening at any point of such a run, with lines that fit the cap, restores the same window and counter |
| `Audit.ReopenCounter` | crates/interfire-daemon/src/audit.rs:206-224 | reopening restores the counter if and only if the file is not empty or nothing was ever written |
| `Audit.ReopenAfterAppend` | crates/interfire-daemon/src/audit.rs:157-224 | after any append, reopening restores the counter if and only if the appended line fits the cap |
| `Audit.OversizeLineResets` | crates/interfire-daemon/src/audit.rs:157-224 | a log in which one oversize line empties the file and reopening numbers from 1 again |
| `Audit.ReopenWindow` | crates/interfire-daemon/src/audit.rs:206-237 | reopening restores the window if and only if none of its messages ends in a carriage return |
| `Audit.CrMessageIsCut` | crates/interfire-daemon/src/audit.rs:206-237 | a log whose message is a carriage return reloads it as the empty message |
| `Audit.ReopenSyncs` | crates/interfire-daemon/src/audit.rs:46-62 | reopening restores the whole agreement of memory and disk |
| `Audit.ParsedOfEncoded` | crates/interfire-daemon/src/audit.rs:226-237 | reading a written file gives every record back, newlines as blanks and one trailing CR less |
| `Audit.TrimmedIsSuffix` | crates/interfire-daemon/src/audit.rs:175-187 | trimming leaves the longest tail that fits the byte budget |
| `Audit.LoadRecords` | crates/interfire-daemon/src/audit.rs:206-224 | the load loop keeps the newest records of the lines that parse and the next sequence number |
| `Audit.FailedAppend` | crates/interfire-daemon/src/audit.rs:64-78 | a failed append leaves on disk whatever the failure left there, and in memory what a successful one leaves |
| `Audit.MalformedIsSkipped` | crates/interfire-daemon/src/audit.rs:206-237 | a line that is no record is skipped, and those around it are read |
| `Audit.RecordShape` | crates/interfire-daemon/src/audit.rs:231-237 | a record is a number that fits, the first tab and the rest of the line; a line without a tab is none |
| `Audit.NextAfterIsLeast` | crates/interfire-daemon/src/audit.rs:206-224 | the next number is above every number that was read, and no higher than it has to be |
| `Audit.SpacedLetters` | crates/interfire-daemon/src/audit.rs:226-229 | newlines become blanks, one for one, and nothing else changes |
| `Audit.AuditLog.constructor` | crates/interfire-daemon/src/audit.rs:46-62 | `open` is the specified state of the file |
| `Audit.AuditLog.Append` | crates/interfire-daemon/src/audit.rs:64-78 | `append` in place is the specified step, also when the disk work fails |
| `Audit.AuditLog.PersistRecord` | crates/interfire-daemon/src/audit.rs:157-173 | the line is appended, or memory is trimmed and the file rewritten from it |
| `Audit.AuditLog.TrimToDiskBudget` | crates/interfire-daemon/src/audit.rs:175-187 | the trim loop is the specified trim |
| `Audit.AuditLog.RewriteFromMemory` | crates/interfire-daemon/src/audit.rs:189-204 | the rewritten content is the encoding of memory |
| `AuditStream.AttachedStream` | crates/interfire-daemon/src/audit.rs:97-155 | from attachment to any later point a subscriber was sent a prefix of the retained records after `since` followed by those appended since, and while it is registered nothing is missing |
| `AuditStream.StreamsAreGapFree` | crates/interfire-daemon/src/audit.rs:248-278 | in every run, what any subscriber was sent is one stretch of the history with sequence numbers rising by exactly one |
| `AuditStream.SubscriberCatchesUp` | crates/interfire-daemon/src/audit.rs:248-278 | in every run, a subscriber that is still registered and met no write failure was sent, once its thread has taken a step for each record to come, all retained records after `since` and every record appended since it attached |
| `AuditStream.DrainsAll` | crates/interfire-daemon/src/audit.rs:248-278 | as many steps of a running thread as there are records in backlog and channel, with no replacement among them, leave the whole stream sent |
| `AuditStream.DeliversNext` | crates/interfire-daemon/src/audit.rs:248-278 | one step of a running thread with something to write sends exactly the next record of its stream |
| `AuditStream.StopsWhenReplaced` | crates/interfire-daemon/src/audit.rs:265-278 | a thread that is told of its replacement, or whose channel is gone, stops without another record |
| `AuditStream.StillRuns` | crates/interfire-daemon/src/audit.rs:248-278 | from its attachment on, a stream that is still registered and met no write failure has a running thread |
| `AuditStream.FannedExactly` | crates/interfire-daemon/src/audit.rs:142-155 | a registered stream that runs and has fewer than 256 events to come gets the record; another one is cut |
| `AuditStream.AttachedExactly` | crates/interfire-daemon/src/audit.rs:106-129 | the newcomer starts running with the retained records after `since` and takes over the id; a predecessor with room in its channel is told so |
| `AuditStream.CutExactly` | crates/interfire-daemon/src/audit.rs:131-134 | removal takes the id out of the registry, a write failure stops its thread, and nothing else happens |
| `AuditStream.RunKeeps` | crates/interfire-daemon/src/audit.rs:97-155 | every run of appends, attachments, replacements, full channels, removals and write failures keeps every stream a stretch of the history and registered ones current |
| `AuditStream.ReopenedIsFresh` | crates/interfire-daemon/src/audit.rs:46-62 | opening the file that any run of the log left, with no message ending in CR, is a start from which the stream theorems hold again |
| `AuditStream.NewcomerStream` | crates/interfire-daemon/src/audit.rs:97-129 | a new stream holds exactly the retained records after `since`, up to the newest |
| `AuditStream.SinceNumbered` | crates/interfire-daemon/src/audit.rs:97-104 | on consecutive records `since` is a tail |
| `AuditStream.SentOnlyGrows` | crates/interfire-daemon/src/audit.rs:248-278 | no step takes back or reorders what was sent, or moves a stream |
| `AuditStream.DeliveredStream` | crates/interfire-daemon/src/audit.rs:248-278 | a subscriber thread's step only moves a record from what is to come to what was sent |
| `AuditStream.AppendKeeps` | crates/interfire-daemon/src/audit.rs:64-78 | appending and fanning out keeps the stream invariant, whatever the disk does |
| `AuditStream.AttachKeeps` | crates/interfire-daemon/src/audit.rs:106-129 | attaching, with or without replacing, keeps the stream invariant |
| `AuditStream.OtherKeeps` | crates/interfire-daemon/src/audit.rs:131-155 | removal, delivery and write failures keep the stream invariant |
| `AuditStream.FanOut` | crates/interfire-daemon/src/audit.rs:142-155 | trying the senders in any order and then dropping the dead ones is the specified fan-out |
| `Codec.EscapeRoundTrip` | crates/interfire-proto/src/lib.rs:1019-1031 | every string survives escaping and unescaping, and the escaped form has no separator |
| `Codec.EscapeInWords` | crates/interfire-proto/src/lib.rs:1019-1024 | the three escapes letter by letter, and that every other letter stands for itself |
| `Codec.StatsListRoundTrip` | crates/interfire-proto/src/lib.rs:522-579 | every list of stats rows survives encoding, joining, framing and parsing |
| `Codec.StatsRowRoundTrip` | crates/interfire-proto/src/lib.rs:540-579 | every stats row parses back from its encoding, which has no row separator or trailing line end |
| `Codec.StatsRowInWords` | crates/interfire-proto/src/lib.rs:570-579 | the order of the fields in a statistics row |
| `Codec.StatsAccepted` | crates/interfire-proto/src/lib.rs:540-568 | exactly which texts are statistics rows, and of what |
| `Codec.ProcessListRoundTrip` | crates/interfire-proto/src/lib.rs:947-1009 | a process list survives if and only if its unescaped fields hold no separator and its last command line does not end in CR or LF |
| `Codec.ProcessListsThatChange` | crates/interfire-proto/src/lib.rs:947-1009 | a list ending in a line feed comes back without it, and one with a separator in its ports does not come back |
| `Codec.ProcessListTrims` | crates/interfire-proto/src/lib.rs:947-1009 | with separable fields a process list comes back with only its last command line trimmed |
| `Codec.ProcessRowRoundTrip` | crates/interfire-proto/src/lib.rs:965-1009 | a process row with separable fields parses back from its encoding |
| `Codec.ProcessRowInWords` | crates/interfire-proto/src/lib.rs:996-1009 | the order of the fields in a process row, of which only the executable and the command line are escaped |
| `Codec.ProcessAccepted` | crates/interfire-proto/src/lib.rs:965-994 | exactly which texts are process rows, and of what |
| `Codec.ParsedIsSeparable` | crates/interfire-proto/src/lib.rs:947-994 | whatever the parser accepts has separable fields |
| `Codec.FrameRoundTrip` | crates/interfire-proto/src/lib.rs:388-428 | a frame gives back its payload up to line ends at its very end |
| `Codec.FrameInWords` | crates/interfire-proto/src/lib.rs:388-428 | the version, the name and the payload of a frame |
| `Text.EolInWords` | crates/interfire-proto/src/lib.rs:522-538 | carriage returns and line feeds go from the end of a frame, any other last letter stays |
| `Codec.FrameAccepted` | crates/interfire-proto/src/lib.rs:522-538 | exactly which frames carry a payload under a name; another version word is unsupported if it begins with a v, everything else is malformed |
| `Codec.BadRowRefused` | crates/interfire-proto/src/lib.rs:522-538 | a list with a part that is no row is malformed as a whole |
| `Codec.ListRoundTrip` | crates/interfire-proto/src/lib.rs:522-538 | a list whose rows have no row separator, parse back and end in no line end survives the frame |
| `Text.ParseOfShow` | crates/interfire-proto/src/lib.rs:540-579 | a printed number parses back if and only if it fits the type |
| `Text.ParseRefuses` | crates/interfire-proto/src/lib.rs:540-568 | a text is read as a number only if it consists of digits, after at most one plus sign, and fits |
| `Text.SplitOfJoin` | crates/interfire-proto/src/lib.rs:522-538 | splitting undoes joining when no part holds the separator |
| `Locks.DeadlockNeedsExactlyBoth` | crates/interfire-daemon/src/ipc.rs:297-306 | any number of threads about to start, each of which may give up early, can reach a circular wait if and only if an event handler and a process listing are among them |
| `Locks.CircularWaitNeedsBoth` | crates/interfire-daemon/src/observe.rs:217-268 | every circular wait, reachable or not, contains a process listing and an event handler |
| `Locks.DoneHoldsNothing` | crates/interfire-daemon/src/observe.rs:217-268 | a handler that is through, or gave up at a poisoned lock, holds no lock |
| `Locks.RoutineClimbs` | crates/interfire-daemon/src/observe.rs:217-268 | every routine but the process listing takes its locks in the rank order stats, rules, process cache, prompts, dns, recent, and every routine but the event handler in a second order |
| `Locks.WantsAbove` | crates/interfire-daemon/src/ipc.rs:127-134 | such a thread never waits for a lock ranked below one it holds |
| `Locks.ProcessListCanDeadlock` | crates/interfire-daemon/src/ipc.rs:297-306 | among any starting threads, a schedule that leads an event handler and a process listing into a circular wait |

## Left out

- The desktop client, TUI, CLI, tray and themes: user interface only.
- Loading eBPF programs, NFQUEUE sockets, spawning `nft`, reading `/proc`, group lookup and TOML text: foreign calls; their results are inputs, and TOML is taken as the identity on documents.
- What the kernel does when the queue overflows (fail-open): only verdicts the daemon returns are modelled.
- Which process a packet belongs to: the pending table is keyed by destination alone, so a later decision for the same destination overwrites an earlier one.
- Agreement of DNS keys, displayed addresses and address rules with the real destination: those 32-bit addresses are opaque numbers here, since the source reads them in native byte order.
- The snapshots that only read (`tail`, `for_process`, the sorted stats lists, the fresh rows of `list_pending` and `list_fresh`): no verdict, file or table depends on them; the expiry sweeps that come with the last two are steps of the pipeline.
- The `key=value` parsers, requests, status bodies, and the rule, prompt and DNS list encodings, whose separators are not escaped; no claim that a response fits the frame limit.
- The `lock_poisoned` replies of the IPC handlers. What a poisoned lock leaves half done is covered: a decision that is never stored (`Lose`), an answer whose rule is never inserted (no `Persist` step), an event handler that skips storing, counting or logging (`Handlers.HandleEvent`).
- Interleaving inside `pause`, `resume` and the traffic commands: each is one step, as they share no lock between file and memory.
- Unreadable directories and user files in `load_user_blocks`: the directory is readable; unreadable mode files appear only at restart.
- Removal of the table when the service stops, and partial disk writes other than an arbitrary leftover after a failed append.
- Unicode whitespace and case folding: trimming, flattening and lower-casing treat ASCII only.
- Integer limits: runs are shorter than 2^64 steps, and clock readings and sums of time are unbounded.
- FailClosed.PromptsKeep: no bound is claimed on answered or expired prompts or on once-allow tokens, which the source never limits.
- NftText.ClassifyComposed: assumes that the listing echoes the script; `nft` may print it differently.

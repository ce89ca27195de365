/** The other half of failing closed: what is warranted does get through, from every reachable state. */
module Progress {
  import opened Wrappers
  import opened Collections
  import opened Rules
  import opened Prompts
  import opened Policy
  import opened Pipeline
  import opened FailClosed
  import opened Lifecycle
  import Pending
  import Process
  import Dns
  import Fifo
  import Recent
  import Packet
  import Ipc

  // ------------------------------------------------------------ longer runs

  lemma {:induction false} AtPrefix(c: Config, acts: seq<Action>, a: Action, n: nat)
    requires 0 < c.limits.recentPerKey && n <= |acts|
    ensures At(c, acts + [a], n) == At(c, acts, n)
  {
    hide Next, Enabled;
    if n > 0 {
      AtPrefix(c, acts, a, n - 1);
    }
  }

  /** A run goes on with any enabled step, and its past stays what it was. */
  lemma RunExtends(c: Config, acts: seq<Action>, a: Action)
    requires Run(c, acts) && 0 < c.limits.recentPerKey && |acts| + 1 < U64_MAX - 1
    requires Enabled(At(c, acts, |acts|), a)
    ensures Run(c, acts + [a])
    ensures At(c, acts + [a], |acts|) == At(c, acts, |acts|)
    ensures At(c, acts + [a], |acts| + 1) == Next(c, At(c, acts, |acts|), a)
    ensures forall n :: 0 <= n <= |acts| ==> At(c, acts + [a], n) == At(c, acts, n)
  {
    hide Next, Enabled, Sane;
    var longer := acts + [a];
    forall n | 0 <= n <= |acts| ensures At(c, longer, n) == At(c, acts, n) {
      AtPrefix(c, acts, a, n);
    }
    forall n | 0 <= n < |longer| ensures Enabled(At(c, longer, n), longer[n]) {
      if n < |acts| {
        assert longer[n] == acts[n];
      }
    }
  }

  // ------------------------------------------------------------ a packet gets its decision

  /** The times of one connect and its packet: decided, stored, then looked up within the TTL. */
  datatype Times = Times(t: Readings, now: nat, later: nat, at: nat)

  predicate Timely(c: Config, w: World, ts: Times) {
    && w.clock.prompts <= ts.t.token && w.clock.dns <= ts.t.dns && ts.t.Ordered()
    && w.clock.pending <= ts.now <= ts.later <= ts.at <= ts.later + c.pendingTtl
  }

  predicate Idle(w: World) { w.deciding.None? && w.packet.None? }

  /** One connect, the storing of its decision, its packet, and the packet thread's first attempt. */
  function Passage(e: Event, proc: Process.ProcRead, ts: Times, payload: seq<Packet.Byte>): seq<Action> {
    [Decide(e, proc, ts.t), Store(ts.now, ts.later), Arrive(payload), Attempt(ts.at)]
  }

  lemma DecideNextState(c: Config, w: World, e: Event, proc: Process.ProcRead, t: Readings)
    requires Sane(c) && Enabled(w, Decide(e, proc, t)) && w.packet.None?
    ensures var after := Next(c, w, Decide(e, proc, t));
            var d := Policy.Decide(w.tables, w.rules, c.limits, e, proc, t).1;
            && after.clock == w.clock.(prompts := t.create, dns := t.dns) && after.packet.None?
            && after.deciding == Some(d) && d.key == DestOf(e)
  {
    hide TakeOnceAllow, ConsumeOnceDeny, Enqueue, Attribute;
  }

  lemma StoreNextState(c: Config, w: World, now: nat, later: nat)
    requires Sane(c) && Enabled(w, Store(now, later)) && w.packet.None?
    ensures var after, d := Next(c, w, Store(now, later)), w.deciding.value;
            && after.clock == w.clock.(pending := later) && after.packet.None? && after.deciding.None?
            && d.key in after.pending.entries && after.pending.entries[d.key] == Pending.Entry(d.verdict, later)
  {
    var d := w.deciding.value;
    Pending.InsertIsLocal(w.pending, c.pendingCapacity, c.pendingTtl, d.key, d.verdict, now, later, d.key);
    hide Pending.Inserted;
  }

  lemma ArriveNextState(c: Config, w: World, payload: seq<Packet.Byte>, k: Pending.DestKey)
    requires Sane(c) && w.packet.None? && Packet.TcpDestination(payload) == Some(k)
    ensures Enabled(w, Arrive(payload)) && Next(c, w, Arrive(payload)) == w.(packet := Some(InFlight(k, 0)))
  {
    hide Packet.TcpDestination;
  }

  lemma AttemptEmits(c: Config, w: World, at: nat)
    requires Sane(c) && Enabled(w, Attempt(at))
    requires var k := w.packet.value.key; k in w.pending.entries && at <= w.pending.entries[k].insertedAt + c.pendingTtl
    ensures Emitted(c, w, Attempt(at)) == Some(w.pending.entries[w.packet.value.key].verdict)
    ensures Next(c, w, Attempt(at)).packet.None? && Next(c, w, Attempt(at)).clock == w.clock.(pending := at)
    ensures Next(c, w, Attempt(at)).deciding == w.deciding
  {
    Pending.TakeIsFresh(w.pending, c.pendingTtl, w.packet.value.key, at);
    hide Pending.Taken;
  }

  /**
   After any run, a connect whose packet is looked up within the TTL gets exactly its decision: the packet is
   accepted if and only if the decision was warranted.
   */
  lemma PacketGetsItsDecision(
    c: Config, acts: seq<Action>, e: Event, proc: Process.ProcRead, ts: Times, payload: seq<Packet.Byte>)
    returns (run: seq<Action>)
    requires Run(c, acts) && 0 < c.limits.recentPerKey && |acts| + 4 < U64_MAX - 1
    requires Idle(At(c, acts, |acts|)) && Timely(c, At(c, acts, |acts|), ts)
    requires Packet.TcpDestination(payload) == Some(DestOf(e))
    ensures run == acts + Passage(e, proc, ts, payload) && Run(c, run)
    ensures forall m :: 0 <= m <= |acts| ==> At(c, run, m) == At(c, acts, m)
    ensures var n := |acts| + 3;
            && Enabled(At(c, run, n), run[n])
            && Emitted(c, At(c, run, n), run[n]) == Some(DecisionAt(c, run, |acts|).verdict)
            && (Emitted(c, At(c, run, n), run[n]) == Some(Pending.Accept) <==> Warranted(c, run, |acts|))
    ensures Idle(At(c, run, |run|)) && At(c, run, |run|).clock == Clock(ts.at, ts.t.create, ts.t.dns)
  {
    hide At, Next, Emitted, Sane, Run, Warranted, Packet.TcpDestination;
    RunIsSane(c, acts);
    var n, w := |acts|, At(c, acts, |acts|);
    var a1, a2, a3, a4 := Decide(e, proc, ts.t), Store(ts.now, ts.later), Arrive(payload), Attempt(ts.at);
    var r1 := acts + [a1];
    RunExtends(c, acts, a1);
    DecideNextState(c, w, e, proc, ts.t);
    var r2, w1 := r1 + [a2], At(c, r1, n + 1);
    RunExtends(c, r1, a2);
    StoreNextState(c, w1, ts.now, ts.later);
    var r3, w2 := r2 + [a3], At(c, r2, n + 2);
    ArriveNextState(c, w2, payload, DestOf(e));
    RunExtends(c, r2, a3);
    var w3 := At(c, r3, n + 3);
    RunExtends(c, r3, a4);
    AttemptEmits(c, w3, ts.at);
    run := r3 + [a4];
    assert run == acts + Passage(e, proc, ts, payload);
    assert run[n] == a1 && run[n + 3] == a4;
    DecisionIsWarranted(c, run, n);
    SameDecision(c, run, n, w, e, proc, ts.t);
  }

  lemma SameDecision(c: Config, run: seq<Action>, n: nat, w: World, e: Event, proc: Process.ProcRead, t: Readings)
    requires 0 < c.limits.recentPerKey && n < |run| && run[n] == Decide(e, proc, t) && At(c, run, n) == w
    ensures DecisionAt(c, run, n) == Policy.Decide(w.tables, w.rules, c.limits, e, proc, t).1
  {
    hide At, Policy.Decide;
  }

  // ------------------------------------------------------------ an answer has its effect

  lemma OnceAnswerGrants(q: Queue, id: nat, verdict: Verdict, now: nat, later: nat)
    requires id in q.prompts && q.prompts[id].state.Pending? && now <= q.prompts[id].expiresAt
    ensures var (r, reply) := Prompts.Answer(q, id, verdict, Once, now, later);
            var key := q.prompts[id].key;
            && reply == Ok(Reply.Reply(id, key, verdict, Once, false)) && r.ttl == q.ttl && r.capacity == q.capacity
            && (verdict.Allow? ==> key in r.onceAllows && r.onceAllows[key] == later)
            && (verdict.Deny? ==> key in r.onceDenies)
  {
    hide Kept;
  }

  /** The prompt is pending and not overdue. */
  predicate Answerable(w: World, id: nat, asked: nat) {
    var q := w.tables.prompts;
    id in q.prompts && q.prompts[id].state.Pending? && asked <= q.prompts[id].expiresAt
  }

  /** The connect is attributed to the key that the prompt is about. */
  predicate Prompted(c: Config, w: World, id: nat, e: Event, proc: Process.ProcRead) {
    var who := Attribute(w.tables.cache, c.limits.processes, e, proc).1;
    id in w.tables.prompts.prompts && who.Ok? && KeyOf(who.value, e) == w.tables.prompts.prompts[id].key
  }

  /** After any run, a timely Allow/Once answer to a pending prompt lets the next connect of its key through. */
  lemma OnceAnswerPasses(
    c: Config, acts: seq<Action>, id: nat, asked: nat, answered: nat,
    e: Event, proc: Process.ProcRead, ts: Times, payload: seq<Packet.Byte>) returns (run: seq<Action>)
    requires Run(c, acts) && 0 < c.limits.recentPerKey && |acts| + 5 < U64_MAX - 1
    requires Idle(At(c, acts, |acts|)) && At(c, acts, |acts|).clock.prompts <= asked <= answered <= ts.t.token
    requires Answerable(At(c, acts, |acts|), id, asked) && Prompted(c, At(c, acts, |acts|), id, e, proc)
    requires Timely(c, At(c, acts, |acts|), ts) && ts.t.check <= answered + c.promptTtl
    requires Packet.TcpDestination(payload) == Some(DestOf(e))
    ensures run == acts + [Answer(id, Allow, Once, asked, answered)] + Passage(e, proc, ts, payload) && Run(c, run)
    ensures var n := |acts| + 4;
            Enabled(At(c, run, n), run[n]) && Emitted(c, At(c, run, n), run[n]) == Some(Pending.Accept)
    ensures run[|acts| + 1].Decide? && RestsOnToken(c, run, |acts| + 1)
  {
    hide At, Next, Emitted, Sane, Run, Warranted, Packet.TcpDestination, Attribute, TokenLive, RestsOnToken,
         Prompts.Answer, Prompted, Inv, DecisionAt;
    RunIsSane(c, acts);
    var w, a := At(c, acts, |acts|), Answer(id, Allow, Once, asked, answered);
    var r := acts + [a];
    RunExtends(c, acts, a);
    AnsweredState(c, w, a);
    PromptsKeep(c, r, |r|);
    run := PacketGetsItsDecision(c, r, e, proc, ts, payload);
    assert run[|r|] == Decide(e, proc, ts.t);
    TokenThere(c, w, At(c, run, |r|), id, e, proc, answered);
    HoldsToken(c, run, |r|, answered);
    TokenWarrants(c, run, |r|);
  }

  lemma TokenThere(c: Config, w: World, after: World, id: nat, e: Event, proc: Process.ProcRead, granted: nat)
    requires Prompted(c, w, id, e, proc) && after.tables.cache == w.tables.cache
    requires var key := w.tables.prompts.prompts[id].key;
             key in after.tables.prompts.onceAllows && after.tables.prompts.onceAllows[key] == granted
    ensures var who := Attribute(after.tables.cache, c.limits.processes, e, proc).1;
            && who.Ok? && KeyOf(who.value, e) in after.tables.prompts.onceAllows
            && after.tables.prompts.onceAllows[KeyOf(who.value, e)] == granted
  {
    hide Attribute;
  }

  lemma AnsweredState(c: Config, w: World, a: Action)
    requires Sane(c) && a.Answer? && a.scope.Once? && a.verdict.Allow? && Enabled(w, a)
    requires Answerable(w, a.id, a.now)
    ensures var after, key := Next(c, w, a), w.tables.prompts.prompts[a.id].key;
            && after.clock == w.clock.(prompts := a.later) && after.deciding == w.deciding && after.packet == w.packet
            && after.tables.cache == w.tables.cache && after.tables.prompts.ttl == w.tables.prompts.ttl
            && key in after.tables.prompts.onceAllows && after.tables.prompts.onceAllows[key] == a.later
  {
    OnceAnswerGrants(w.tables.prompts, a.id, a.verdict, a.now, a.later);
    AnswerNext(c, w, a);
    hide Next, Prompts.Answer;
  }

  lemma HoldsToken(c: Config, acts: seq<Action>, i: nat, granted: nat)
    requires 0 < c.limits.recentPerKey && i < |acts| && acts[i].Decide?
    requires var w := At(c, acts, i);
             var who := Attribute(w.tables.cache, c.limits.processes, acts[i].event, acts[i].proc).1;
             && who.Ok? && var key := KeyOf(who.value, acts[i].event);
             && key in w.tables.prompts.onceAllows && w.tables.prompts.onceAllows[key] == granted
             && acts[i].t.check <= granted + w.tables.prompts.ttl
    ensures RestsOnToken(c, acts, i)
  {
    hide At, Attribute;
  }

  lemma TokenWarrants(c: Config, acts: seq<Action>, i: nat)
    requires 0 < c.limits.recentPerKey && i < |acts| && acts[i].Decide?
    requires RestsOnToken(c, acts, i)
    ensures Warranted(c, acts, i)
  {
    hide At, TokenLive, DenyLive, RuleAllows;
  }

  /** What a fresh lasting answer leaves: its rule waits, and nothing that attribution or names depend on moves. */
  lemma LastingState(c: Config, w: World, a: Action)
    requires Sane(c) && a.Answer? && !a.scope.Once? && Enabled(w, a) && Answerable(w, a.id, a.now)
    ensures var after, key := Next(c, w, a), w.tables.prompts.prompts[a.id].key;
            && Fresh(w, a) && Replied(w, a).value == Reply.Reply(a.id, key, a.verdict, a.scope, false)
            && after.clock == w.clock.(prompts := a.later) && after.deciding == w.deciding && after.rules == w.rules
            && after.tables.cache == w.tables.cache && after.tables.dns == w.tables.dns
            && a.id in after.persisting && after.persisting[a.id] == Replied(w, a).value
  {
    LastingReply(w.tables.prompts, a.id, a.verdict, a.scope, a.now, a.later);
    AnswerNext(c, w, a);
    hide Next, Prompts.Answer;
  }

  lemma LastingReply(q: Queue, id: nat, verdict: Verdict, scope: Scope, now: nat, later: nat)
    requires id in q.prompts && q.prompts[id].state.Pending? && now <= q.prompts[id].expiresAt
    ensures Prompts.Answer(q, id, verdict, scope, now, later).1 ==
            Ok(Reply.Reply(id, q.prompts[id].key, verdict, scope, false))
  {
    hide Kept, Settled;
  }

  lemma PersistNext(c: Config, w: World, id: nat)
    requires Sane(c) && id in w.persisting
    ensures Enabled(w, Persist(id))
    ensures Next(c, w, Persist(id)) ==
            w.(rules := Ipc.Persisted(w.rules, w.persisting[id]), persisting := w.persisting - {id})
  {
    hide Ipc.Persisted;
  }

  /** No rule that matches the connection as it would be decided now has more than three constraints. */
  ghost predicate Unchallenged(c: Config, w: World, e: Event, proc: Process.ProcRead, t: Readings) {
    var who := Attribute(w.tables.cache, c.limits.processes, e, proc).1;
    who.Ok? ==>
      forall o :: o in w.rules && Matches(o, ConnectionOf(who.value, e, Dns.NameOf(w.tables.dns, e.ipv4, t.dns).1)) ==>
                    Constraints(o) <= 3
  }

  function LastingReplyTo(w: World, answer: Action): Reply
    requires answer.Answer? && answer.id in w.tables.prompts.prompts
  {
    Reply.Reply(answer.id, w.tables.prompts.prompts[answer.id].key, answer.verdict, answer.scope, false)
  }

  lemma LastingMiddle(c: Config, w: World, answer: Action, e: Event, proc: Process.ProcRead, t: Readings)
    requires Sane(c) && LastingStart(w, answer, t)
    ensures Fresh(w, answer) && Replied(w, answer) == Ok(LastingReplyTo(w, answer))
    ensures var w1, persist := Next(c, w, answer), Persist(answer.id);
            && w1.rules == w.rules && answer.id in w1.persisting
            && w1.persisting[answer.id] == LastingReplyTo(w, answer) && Enabled(w1, persist)
            && var w2 := Next(c, w1, persist);
               && w2.tables.cache == w.tables.cache && w2.tables.dns == w.tables.dns
               && Enabled(w2, Decide(e, proc, t))
  {
    hide Next, Replied;
    LastingState(c, w, answer);
    PersistNext(c, Next(c, w, answer), answer.id);
  }

  /** A lasting answer that can be given now, followed by a connect. */
  predicate LastingStart(w: World, answer: Action, t: Readings) {
    && answer.Answer? && !answer.scope.Once? && Enabled(w, answer) && Answerable(w, answer.id, answer.now)
    && w.deciding.None? && w.clock.dns <= t.dns && answer.later <= t.token && t.Ordered()
  }

  /** Step `n` was a fresh lasting answer given in `w`; its rule waits, and attribution and names are as in `w`. */
  ghost predicate LastingGiven(c: Config, run: seq<Action>, n: nat, w: World, answer: Action)
    requires 0 < c.limits.recentPerKey && n + 2 < |run| && answer.Answer? && answer.id in w.tables.prompts.prompts
  {
    && At(c, run, n) == w && Fresh(w, answer) && Replied(w, answer) == Ok(LastingReplyTo(w, answer))
    && At(c, run, n + 1).rules == w.rules && answer.id in At(c, run, n + 1).persisting
    && At(c, run, n + 1).persisting[answer.id] == LastingReplyTo(w, answer)
    && At(c, run, n + 2).tables.cache == w.tables.cache && At(c, run, n + 2).tables.dns == w.tables.dns
  }

  /** A lasting answer, its rule and a connect, one right after the other. */
  lemma LastingSteps(c: Config, acts: seq<Action>, answer: Action, e: Event, proc: Process.ProcRead, t: Readings)
    returns (run: seq<Action>)
    requires Run(c, acts) && 0 < c.limits.recentPerKey && |acts| + 3 < U64_MAX - 1
    requires LastingStart(At(c, acts, |acts|), answer, t)
    ensures run == acts + [answer, Persist(answer.id), Decide(e, proc, t)] && Run(c, run)
    ensures LastingGiven(c, run, |acts|, At(c, acts, |acts|), answer)
  {
    hide At, Next, Run, Sane, Replied, Fresh, Enabled, LastingReplyTo;
    RunIsSane(c, acts);
    var n, w, persist, decide := |acts|, At(c, acts, |acts|), Persist(answer.id), Decide(e, proc, t);
    LastingMiddle(c, w, answer, e, proc, t);
    RunExtends(c, acts, answer);
    var r1 := acts + [answer];
    var w1 := At(c, r1, n + 1);
    RunExtends(c, r1, persist);
    var r2 := r1 + [persist];
    var w2 := At(c, r2, n + 2);
    RunExtends(c, r2, decide);
    run := r2 + [decide];
    assert At(c, run, n) == w && At(c, run, n + 1) == w1 && At(c, run, n + 2) == w2;
    hide Answerable;
    assert run == acts + [answer, persist, decide];
  }

  /** After any run, a timely Session or Permanent answer decides the next connect of its key. */
  lemma {:induction false} LastingAnswerTakesHold(
    c: Config, acts: seq<Action>, answer: Action, e: Event, proc: Process.ProcRead, t: Readings)
    returns (run: seq<Action>)
    requires Run(c, acts) && 0 < c.limits.recentPerKey && |acts| + 3 < U64_MAX - 1
    requires LastingStart(At(c, acts, |acts|), answer, t)
    requires Prompted(c, At(c, acts, |acts|), answer.id, e, proc)
    requires Unchallenged(c, At(c, acts, |acts|), e, proc, t)
    requires var rules := At(c, acts, |acts|).rules;
             Absolute(At(c, acts, |acts|).tables.prompts.prompts[answer.id].key.executable) &&
             forall r :: r in rules ==> r.id < U64_MAX
    ensures run == acts + [answer, Persist(answer.id), Decide(e, proc, t)] && Run(c, run)
    ensures DecisionAt(c, run, |acts| + 2).verdict == PacketVerdict(answer.verdict)
    ensures DecisionAt(c, run, |acts| + 2).promptId == None && !RestsOnToken(c, run, |acts| + 2)
  {
    hide At, Next, Run, Sane, Inserted, DecisionAt, Fresh, Replied, Matches, Attribute, RestsOnToken, RestsOnDeny,
         Enabled;
    var n, w := |acts|, At(c, acts, |acts|);
    var reply := LastingReplyTo(w, answer);
    run := LastingSteps(c, acts, answer, e, proc, t);
    assert run[n] == answer && run[n + 1] == Persist(answer.id) && run[n + 2] == Decide(e, proc, t);
    Ipc.PersistSucceeds(w.rules, reply);
    OnceIsAnswer(At(c, run, n + 1), run[n + 1], reply.key);
    LastingAnswerIsObeyed(c, run, n, n + 1, n + 2);
  }

  lemma OnceIsAnswer(w: World, a: Action, key: PromptKey)
    ensures OnceAnswered(w, a, key) ==> a.Answer?
  {
    hide Replied;
  }

  // ------------------------------------------------------------ a Once answer beats a lasting one

  /** Settling a prompt frees its place: another prompt for the same key can be opened. */
  lemma AnswerFreesRoom(q: Queue, id: nat, verdict: Verdict, now: nat, later: nat)
    requires Inv(q) && id in q.prompts && q.prompts[id].state.Pending? && now <= q.prompts[id].expiresAt
    ensures var (r, key) := (Prompts.Answer(q, id, verdict, Session, now, later).0, q.prompts[id].key);
            && key !in r.pendingByKey && |r.pendingByKey| < r.capacity && Tokenless(r, key)
            && r.nextId == q.nextId && r.ttl == q.ttl
  {
    var s, key := Swept(q, now), q.prompts[id].key;
    StillPending(q, id, now);
    hide Swept, Inv, IdsOk, OrderOk, OneRole;
    SweptCore(q, now);
    SweptTokens(q, now);
    PendingHasNoToken(q, id);
    assert key in s.pendingByKey;
    OneLess(s.pendingByKey, key);
  }

  lemma StillPending(q: Queue, id: nat, now: nat)
    requires id in q.prompts && q.prompts[id].state.Pending? && now <= q.prompts[id].expiresAt
    ensures var s := Swept(q, now); id in s.prompts && s.prompts[id] == q.prompts[id] && id in PendingIds(s.prompts)
  {
    hide Kept, KeysOf, FreshTokens;
  }

  lemma OneLess(m: map<PromptKey, nat>, k: PromptKey)
    requires k in m
    ensures |m - {k}| < |m|
  {
    assert |m - {k}| == |(m - {k}).Keys| && |m| == |m.Keys|;
    assert (m - {k}).Keys == m.Keys - {k};
  }

  /** With no token, no rule and room in the queue, a connect opens the next prompt. */
  lemma DecideOpens(q: Queue, dns: Dns.Cache, rules: seq<Rule>, who: Process.Identity, e: Event, t: Readings)
    requires t.Ordered() && Tokenless(q, KeyOf(who, e)) && NoRuleFor(rules, who.executable)
    requires KeyOf(who, e) !in q.pendingByKey && |q.pendingByKey| < q.capacity
    ensures var r := DecideAttributed(q, dns, rules, who, e, t).0;
            && q.nextId in r.prompts && r.prompts[q.nextId].state.Pending? && r.prompts[q.nextId].key == KeyOf(who, e)
            && r.prompts[q.nextId].expiresAt == t.create + q.ttl
  {
    hide TakeOnceAllow, ConsumeOnceDeny, Enqueue, Dns.NameOf, TokenLive, DenyLive, Tokenless, Best;
    var key := KeyOf(who, e);
    NothingLive(q, key, t);
    TokenOutcome(q, key, t);
    BestIsTop(rules, ConnectionOf(who, e, Dns.NameOf(dns, e.ipv4, t.dns).1));
    var q1 := TakeOnceAllow(q, key, t.token, t.check).0;
    var q2 := ConsumeOnceDeny(q1, key, t.deny).0;
    TokensLeaveRoom(q, key, t.token, t.check);
    TokensLeaveRoom(q1, key, t.deny, t.deny);
    EnqueueOpens(q2, key, t.enqueue, t.create);
  }

  predicate NoRuleFor(rules: seq<Rule>, executable: string) {
    forall r :: r in rules ==> r.executable != executable
  }

  predicate Room(q: Queue, key: PromptKey) {
    key !in q.pendingByKey && |q.pendingByKey| < q.capacity
  }

  lemma SweptRoom(q: Queue, now: nat, key: PromptKey)
    requires Room(q, key)
    ensures Room(Swept(q, now), key) && Swept(q, now).nextId == q.nextId && Swept(q, now).ttl == q.ttl
  {
    SweptTokens(q, now);
    hide Swept;
    var s := Swept(q, now);
    SubsetCard(s.pendingByKey.Keys, q.pendingByKey.Keys);
    assert |s.pendingByKey| == |s.pendingByKey.Keys| && |q.pendingByKey| == |q.pendingByKey.Keys|;
  }

  lemma TokensLeaveRoom(q: Queue, key: PromptKey, now: nat, later: nat)
    requires Room(q, key)
    ensures var r := TakeOnceAllow(q, key, now, later).0; Room(r, key) && r.nextId == q.nextId && r.ttl == q.ttl
    ensures var r := ConsumeOnceDeny(q, key, now).0; Room(r, key) && r.nextId == q.nextId && r.ttl == q.ttl
  {
    SweptRoom(q, now, key);
    hide Swept;
  }

  lemma EnqueueOpens(q: Queue, key: PromptKey, now: nat, later: nat)
    requires Room(q, key)
    ensures var r := Enqueue(q, key, now, later).0;
            && q.nextId in r.prompts && r.prompts[q.nextId].state.Pending? && r.prompts[q.nextId].key == key
            && r.prompts[q.nextId].expiresAt == later + q.ttl
  {
    SweptRoom(q, now, key);
    OpenedPrompt(Swept(q, now), key, later);
    hide Swept;
  }

  lemma AttributeTwice(cache: Process.Cache, cap: nat, e: Event, proc: Process.ProcRead)
    ensures Attribute(Attribute(cache, cap, e, proc).0, cap, e, proc).1 == Attribute(cache, cap, e, proc).1
  {
    hide Fifo.Evicted;
  }

  /** What a connect without tokens and rules leaves behind: a new prompt for its key, and nothing else of the rest. */
  lemma PromptingState(c: Config, w: World, e: Event, proc: Process.ProcRead, t: Readings)
    requires Sane(c) && Enabled(w, Decide(e, proc, t))
    requires var who := Attribute(w.tables.cache, c.limits.processes, e, proc).1;
             && who.Ok? && NoRuleFor(w.rules, who.value.executable)
             && Tokenless(w.tables.prompts, KeyOf(who.value, e)) && Room(w.tables.prompts, KeyOf(who.value, e))
    ensures var after, id := Next(c, w, Decide(e, proc, t)), w.tables.prompts.nextId;
            && Answerable(after, id, t.create) && Prompted(c, after, id, e, proc)
            && after.tables.prompts.prompts[id].key ==
               KeyOf(Attribute(w.tables.cache, c.limits.processes, e, proc).1.value, e)
            && after.clock == w.clock.(prompts := t.create, dns := t.dns) && after.deciding.Some?
            && after.rules == w.rules && after.persisting == w.persisting && after.packet == w.packet
  {
    hide DecideAttributed, Attribute, Recent.Recorded, Tokenless, NoRuleFor;
    var who := Attribute(w.tables.cache, c.limits.processes, e, proc).1.value;
    DecideOpens(w.tables.prompts, w.tables.dns, w.rules, who, e, t);
    AttributeTwice(w.tables.cache, c.limits.processes, e, proc);
  }

  lemma StoreFrame(c: Config, w: World, now: nat, later: nat)
    requires Sane(c) && Enabled(w, Store(now, later))
    ensures Next(c, w, Store(now, later)) ==
            w.(clock := w.clock.(pending := later), deciding := None, pending := Next(c, w, Store(now, later)).pending)
  {
    hide Pending.Inserted;
  }

  lemma LastingPrompted(c: Config, w: World, a: Action, e: Event, proc: Process.ProcRead)
    requires Sane(c) && a.Answer? && a.scope.Session? && Enabled(w, a) && Answerable(w, a.id, a.now)
    requires Inv(w.tables.prompts) && Prompted(c, w, a.id, e, proc)
    requires NoRuleFor(w.rules, w.tables.prompts.prompts[a.id].key.executable)
    ensures var after := Next(c, w, a);
            var who := Attribute(after.tables.cache, c.limits.processes, e, proc).1;
            && who.Ok? && KeyOf(who.value, e) == w.tables.prompts.prompts[a.id].key
            && NoRuleFor(after.rules, who.value.executable)
            && Tokenless(after.tables.prompts, KeyOf(who.value, e)) && Room(after.tables.prompts, KeyOf(who.value, e))
            && after.tables.prompts.nextId == w.tables.prompts.nextId
  {
    LastingState(c, w, a);
    AnswerNext(c, w, a);
    AnswerFreesRoom(w.tables.prompts, a.id, a.verdict, a.now, a.later);
    hide Next, Prompts.Answer, Attribute, Inv, Tokenless;
  }

  /** All readings of one decision at the same instant. */
  function Instant(at: nat): Readings { Readings(at, at, at, at, at, at) }

  /** A lasting Deny, a connect before its rule is inserted, and an Allow/Once answer to that connect's own prompt. */
  function Race(id: nat, again: nat, e: Event, proc: Process.ProcRead, at: nat): seq<Action> {
    [Answer(id, Deny, Session, at, at), Decide(e, proc, Instant(at)), Store(at, at), Persist(id),
     Answer(again, Allow, Once, at, at), Decide(e, proc, Instant(at))]
  }

  /** A pending prompt, its connect, and no rule for the executable. */
  ghost predicate RaceStart(c: Config, w: World, id: nat, e: Event, proc: Process.ProcRead, at: nat) {
    && w.deciding.None? && NotAfter(w.clock, Clock(at, at, at))
    && Answerable(w, id, at) && Prompted(c, w, id, e, proc)
    && NoRuleFor(w.rules, w.tables.prompts.prompts[id].key.executable)
  }

  /** The rule of prompt `id` still waits, and prompt `again` is pending for the same key. */
  ghost predicate Racing(
    c: Config, w: World, id: nat, again: nat, reply: Reply, e: Event, proc: Process.ProcRead, at: nat) {
    && id in w.persisting && w.persisting[id] == reply
    && Answerable(w, again, at) && Prompted(c, w, again, e, proc) && w.tables.prompts.prompts[again].key == reply.key
    && w.clock.prompts == at && w.clock.dns == at && w.clock.pending <= at
  }

  /** The first half: the lasting answer, and the connect that opens another prompt before the rule is in. */
  lemma RaceOpens(c: Config, acts: seq<Action>, id: nat, e: Event, proc: Process.ProcRead, at: nat)
    returns (run: seq<Action>)
    requires Run(c, acts) && 0 < c.limits.recentPerKey && |acts| + 2 < U64_MAX - 1
    requires RaceStart(c, At(c, acts, |acts|), id, e, proc, at)
    ensures run == acts + [Answer(id, Deny, Session, at, at), Decide(e, proc, Instant(at))] && Run(c, run)
    ensures At(c, run, |acts|) == At(c, acts, |acts|) && run[|acts|].Answer? && Fresh(At(c, run, |acts|), run[|acts|])
    ensures var w := At(c, acts, |acts|);
            var reply := Reply.Reply(id, w.tables.prompts.prompts[id].key, Deny, Session, false);
            && Replied(w, run[|acts|]) == Ok(reply)
            && At(c, run, |acts| + 2).rules == w.rules && At(c, run, |acts| + 2).deciding.Some?
            && Racing(c, At(c, run, |acts| + 2), id, w.tables.prompts.nextId, reply, e, proc, at)
  {
    hide At, Next, Run, Sane, Inv, Attribute, Tokenless, Room, NoRuleFor, Prompts.Answer, Replied;
    RunIsSane(c, acts);
    PromptsKeep(c, acts, |acts|);
    var n, w0 := |acts|, At(c, acts, |acts|);
    var answer, decide := Answer(id, Deny, Session, at, at), Decide(e, proc, Instant(at));
    LastingState(c, w0, answer);
    LastingPrompted(c, w0, answer, e, proc);
    RunExtends(c, acts, answer);
    var r1 := acts + [answer];
    PromptingState(c, At(c, r1, n + 1), e, proc, Instant(at));
    RunExtends(c, r1, decide);
    run := r1 + [decide];
    assert run == acts + [answer, decide] && run[n] == answer;
  }

  lemma RaceMiddle(
    c: Config, w: World, id: nat, again: nat, reply: Reply, e: Event, proc: Process.ProcRead, at: nat)
    requires Sane(c) && w.deciding.Some? && Racing(c, w, id, again, reply, e, proc, at)
    ensures var store, persist, answer := Store(at, at), Persist(id), Answer(again, Allow, Once, at, at);
            && Enabled(w, store)
            && var w1 := Next(c, w, store);
            && Enabled(w1, persist) && w1.rules == w.rules && id in w1.persisting && w1.persisting[id] == reply
            && var w2 := Next(c, w1, persist);
            && Enabled(w2, answer)
            && var w3 := Next(c, w2, answer);
            && Enabled(w3, Decide(e, proc, Instant(at)))
            && var who := Attribute(w3.tables.cache, c.limits.processes, e, proc).1;
            && who.Ok? && KeyOf(who.value, e) == reply.key
            && reply.key in w3.tables.prompts.onceAllows && w3.tables.prompts.onceAllows[reply.key] == at
  {
    hide Next, Attribute, Prompts.Answer;
    StoreFrame(c, w, at, at);
    var w1 := Next(c, w, Store(at, at));
    PersistNext(c, w1, id);
    AnsweredState(c, Next(c, w1, Persist(id)), Answer(again, Allow, Once, at, at));
  }

  /** The second half: the decision is stored, the rule goes in, the new prompt is allowed, and a connect follows. */
  lemma RaceCloses(
    c: Config, acts: seq<Action>, id: nat, again: nat, reply: Reply, e: Event, proc: Process.ProcRead, at: nat)
    returns (run: seq<Action>)
    requires Run(c, acts) && 0 < c.limits.recentPerKey && |acts| + 4 < U64_MAX - 1
    requires At(c, acts, |acts|).deciding.Some? && Racing(c, At(c, acts, |acts|), id, again, reply, e, proc, at)
    ensures run == acts + [Store(at, at), Persist(id), Answer(again, Allow, Once, at, at), Decide(e, proc, Instant(at))]
    ensures Run(c, run) && forall m :: 0 <= m <= |acts| ==> At(c, run, m) == At(c, acts, m)
    ensures var w, n := At(c, run, |acts| + 1), |acts| + 3;
            && w.rules == At(c, acts, |acts|).rules && id in w.persisting && w.persisting[id] == reply
            && WhoAt(c, run, n).Ok? && KeyOf(WhoAt(c, run, n).value, run[n].event) == reply.key
            && RestsOnToken(c, run, n)
  {
    hide At, Next, Run, Sane, Attribute, Prompts.Answer, RestsOnToken, Racing, Enabled;
    RunIsSane(c, acts);
    var n, w0 := |acts|, At(c, acts, |acts|);
    var store, persist, answer := Store(at, at), Persist(id), Answer(again, Allow, Once, at, at);
    RaceMiddle(c, w0, id, again, reply, e, proc, at);
    RunExtends(c, acts, store);
    var r1 := acts + [store];
    RunExtends(c, r1, persist);
    var r2 := r1 + [persist];
    RunExtends(c, r2, answer);
    var r3 := r2 + [answer];
    RunExtends(c, r3, Decide(e, proc, Instant(at)));
    run := r3 + [Decide(e, proc, Instant(at))];
    assert run == acts + [store, persist, answer, Decide(e, proc, Instant(at))];
    PromptsKeep(c, run, n + 3);
    HoldsToken(c, run, n + 3, at);
  }

  /**
   After any run with a pending prompt for an executable that no rule names: the user denies for the session, a connect
   comes in before the rule does and opens another prompt, and that one is allowed once. The lasting Deny then governs
   the next connect, which is accepted all the same.
   */
  lemma {:induction false} RaceOverridesDeny(
    c: Config, acts: seq<Action>, id: nat, e: Event, proc: Process.ProcRead, at: nat)
    returns (run: seq<Action>)
    requires Run(c, acts) && 0 < c.limits.recentPerKey && |acts| + 6 < U64_MAX - 1
    requires RaceStart(c, At(c, acts, |acts|), id, e, proc, at)
    requires Absolute(At(c, acts, |acts|).tables.prompts.prompts[id].key.executable)
    requires forall r :: r in At(c, acts, |acts|).rules ==> r.id < U64_MAX
    ensures run == acts + Race(id, At(c, acts, |acts|).tables.prompts.nextId, e, proc, at) && Run(c, run)
    ensures var n := |acts|;
            && Governs(c, run, n, n + 3, n + 5) && run[n].verdict.Deny?
            && DecisionAt(c, run, n + 5).verdict.Accept? && RestsOnToken(c, run, n + 5)
  {
    hide At, Next, Run, Sane, Attribute, Prompts.Answer, Fresh, Replied, Governs, Inserted, Prompted,
         RestsOnToken, DecisionAt, Racing;
    var n, w := |acts|, At(c, acts, |acts|);
    var half := RaceOpens(c, acts, id, e, proc, at);
    var reply := Reply.Reply(id, w.tables.prompts.prompts[id].key, Deny, Session, false);
    run := RaceCloses(c, half, id, w.tables.prompts.nextId, reply, e, proc, at);
    assert run == acts + Race(id, w.tables.prompts.nextId, e, proc, at);
    TokenWarrants(c, run, n + 5);
    DecisionIsWarranted(c, run, n + 5);
    Ipc.PersistSucceeds(w.rules, reply);
    RaceGoverns(c, run, n);
  }

  lemma RaceGoverns(c: Config, run: seq<Action>, n: nat)
    requires 0 < c.limits.recentPerKey && n + 5 < |run|
    requires Fresh(At(c, run, n), run[n]) && run[n].scope.Session? && run[n + 5].Decide? && run[n + 4].Answer?
    requires run[n + 3] == Persist(run[n].id) && run[n].id in At(c, run, n + 3).persisting
    requires WhoAt(c, run, n + 5).Ok?
    requires KeyOf(WhoAt(c, run, n + 5).value, run[n + 5].event) == Replied(At(c, run, n), run[n]).value.key
    requires NoRuleFor(At(c, run, n + 3).rules, WhoAt(c, run, n + 5).value.executable)
    requires var w := At(c, run, n + 3); Inserted(w.rules, Ipc.AnsweredRule(w.rules, w.persisting[run[n].id])).Ok?
    ensures Governs(c, run, n, n + 3, n + 5)
  {
    hide At, Fresh, Replied, Attribute, Inserted;
  }

  // ------------------------------------------------------------ a concrete run

  lemma OperationsAddNoDeny(q: Queue, key: PromptKey, now: nat, later: nat)
    requires q.onceDenies == {}
    ensures Swept(q, now).onceDenies == {} && TakeOnceAllow(q, key, now, later).0.onceDenies == {}
    ensures ConsumeOnceDeny(q, key, now).0.onceDenies == {} && Enqueue(q, key, now, later).0.onceDenies == {}
  {
    hide Kept, Aged, FreshTokens;
  }

  lemma DecideAddsNoDeny(tb: Tables, rules: seq<Rule>, lim: Limits, e: Event, proc: Process.ProcRead, t: Readings)
    requires 0 < lim.recentPerKey && tb.prompts.onceDenies == {}
    ensures Policy.Decide(tb, rules, lim, e, proc, t).0.prompts.onceDenies == {}
  {
    hide Attribute, TakeOnceAllow, ConsumeOnceDeny, Enqueue, Swept, Dns.NameOf, Best, Recent.Recorded;
    var who := Attribute(tb.cache, lim.processes, e, proc).1;
    if who.Ok? {
      var key := KeyOf(who.value, e);
      var q1 := TakeOnceAllow(tb.prompts, key, t.token, t.check).0;
      OperationsAddNoDeny(tb.prompts, key, t.token, t.check);
      OperationsAddNoDeny(q1, key, t.deny, t.deny);
      OperationsAddNoDeny(ConsumeOnceDeny(q1, key, t.deny).0, key, t.enqueue, t.create);
    }
  }

  lemma NoDenyStep(c: Config, w: World, a: Action)
    requires Sane(c) && Enabled(w, a) && !a.Answer? && w.tables.prompts.onceDenies == {}
    ensures Next(c, w, a).tables.prompts.onceDenies == {}
  {
    hide Policy.Decide, Swept, Pending.Inserted, Pending.Taken, Dns.Observed, Dns.Swept, Ipc.Persisted, Ipc.Mutated,
         Packet.TcpDestination;
    match a
    case Decide(e, proc, t) => DecideAddsNoDeny(w.tables, w.rules, c.limits, e, proc, t);
    case ListPrompts(now) => OperationsAddNoDeny(w.tables.prompts, PromptKey("", 0, 0), now, now);
    case _ =>
  }

  lemma {:induction false} NoDenyWithoutAnswer(c: Config, acts: seq<Action>, n: nat)
    requires Run(c, acts) && 0 < c.limits.recentPerKey && n <= |acts| && forall i :: 0 <= i < n ==> !acts[i].Answer?
    ensures At(c, acts, n).tables.prompts.onceDenies == {}
  {
    hide Run, Next, Enabled;
    if n > 0 {
      NoDenyWithoutAnswer(c, acts, n - 1);
      RunIsSane(c, acts);
      StepOf(c, acts, n - 1);
      NoDenyStep(c, At(c, acts, n - 1), acts[n - 1]);
    } else {
      RunIsSane(c, acts);
      Start(c, acts);
    }
  }

  lemma {:induction false} SameRules(c: Config, acts: seq<Action>, n: nat)
    requires Run(c, acts) && 0 < c.limits.recentPerKey && n <= |acts| && forall i :: 0 <= i < n ==> !EditsRules(acts[i])
    ensures At(c, acts, n).rules == c.rules
  {
    hide Run, At, EditsRules;
    RulesUntouched(c, acts, 0, n);
    RunIsSane(c, acts);
    Start(c, acts);
  }

  function TheRule(): Rule { Rule.Rule(1, "/a", None, None, None, None, None, Allow, Permanent) }
  function TheProcess(): Process.Identity { Process.Identity(1, 1, "/a", [], 0, "") }
  function TheConfig(): Config { Config([TheRule()], Limits(1, 1, 1), 1, 5, 1, 1, 5) }

  /** An unconstrained Allow rule for the only executable warrants every decision of a run without answers or edits. */
  lemma {:induction false} RuleWarrants(acts: seq<Action>, i: nat, t: Readings)
    requires Run(TheConfig(), acts) && i < |acts| && acts[i] == Decide(Event(1, 0, 0, 0), Ok(TheProcess()), t)
    requires forall j :: 0 <= j < i ==> !acts[j].Answer? && !EditsRules(acts[j])
    ensures Warranted(TheConfig(), acts, i)
  {
    hide Run, At;
    var c := TheConfig();
    NoDenyWithoutAnswer(c, acts, i);
    SameRules(c, acts, i);
    assert WhoAt(c, acts, i) == Ok(TheProcess());
    var connection := ConnectionOf(TheProcess(), acts[i].event, NameAt(c, acts, i));
    assert Top([TheRule()], connection, TheRule());
  }

  function ThePayload(): seq<Packet.Byte> {
    seq(24, i => if i == 0 then 69 else if i == 9 then 6 else 0)
  }

  lemma PayloadBytes()
    ensures var p := ThePayload();
            |p| == 24 && p[0] == 69 && p[9] == 6 && forall i :: 16 <= i < 24 ==> p[i] == 0
  {
  }

  lemma PayloadParses()
    ensures Packet.TcpDestination(ThePayload()) == Some(Pending.DestKey(0, 0))
  {
    var p := ThePayload();
    PayloadBytes();
    hide Packet.FromBytes, ThePayload;
    Zeros(p[16..20]);
    Zeros(p[22..24]);
  }

  lemma {:induction false} Zeros(bs: seq<Packet.Byte>)
    requires forall i :: 0 <= i < |bs| ==> bs[i] == 0
    ensures Packet.FromBytes(Packet.Big, bs) == 0
  {
    ReversedZeros(bs);
    LeZeros(Packet.Reversed(bs));
  }

  lemma {:induction false} ReversedZeros(bs: seq<Packet.Byte>)
    requires forall i :: 0 <= i < |bs| ==> bs[i] == 0
    ensures forall i :: 0 <= i < |bs| ==> Packet.Reversed(bs)[i] == 0
  {
    if bs != [] {
      ReversedZeros(bs[1..]);
    }
  }

  lemma {:induction false} LeZeros(bs: seq<Packet.Byte>)
    requires forall i :: 0 <= i < |bs| ==> bs[i] == 0
    ensures Packet.FromLe(bs) == 0
  {
    if bs != [] {
      LeZeros(bs[1..]);
    }
  }

  lemma StartsIdle()
    ensures var c := TheConfig();
            Run(c, []) && 0 < c.limits.recentPerKey && Idle(At(c, [], 0)) && At(c, [], 0).clock == Clock(0, 0, 0)
  {
  }

  /** With one Allow rule in place two packets in a row are accepted, so the run theorems are about something. */
  lemma AcceptHappensTwice() returns (run: seq<Action>)
    ensures var c := TheConfig();
            && Run(c, run) && |run| == 8
            && Enabled(At(c, run, 3), run[3]) && Emitted(c, At(c, run, 3), run[3]) == Some(Pending.Accept)
            && Enabled(At(c, run, 7), run[7]) && Emitted(c, At(c, run, 7), run[7]) == Some(Pending.Accept)
  {
    hide Run, At, Next, Emitted, Enabled, Warranted, ThePayload, TheProcess, TheRule, Packet.TcpDestination, DecisionAt;
    var c := TheConfig();
    StartsIdle();
    PayloadParses();
    var e, proc := Event(1, 0, 0, 0), Ok(TheProcess());
    var ts := Times(Readings(0, 0, 0, 0, 0, 0), 0, 0, 0);
    var first := PacketGetsItsDecision(c, [], e, proc, ts, ThePayload());
    assert first == Passage(e, proc, ts, ThePayload());
    RuleWarrants(first, 0, ts.t);
    run := PacketGetsItsDecision(c, first, e, proc, ts, ThePayload());
    RuleWarrants(run, 4, ts.t);
    assert run[3] == first[3];
  }

  /** The same limits with no rules at all. */
  function BareConfig(): Config { TheConfig().(rules := []) }

  lemma BareStart()
    ensures var c, e, proc := BareConfig(), Event(1, 0, 0, 0), Ok(TheProcess());
            && Run(c, []) && Sane(c) && Enabled(At(c, [], 0), Decide(e, proc, Instant(0)))
            && var w, who := At(c, [], 0), Attribute(At(c, [], 0).tables.cache, 1, e, proc).1;
            && who == Ok(TheProcess()) && NoRuleFor(w.rules, who.value.executable) && w.tables.prompts.nextId == 1
            && Tokenless(w.tables.prompts, KeyOf(who.value, e)) && Room(w.tables.prompts, KeyOf(who.value, e))
            && w.clock == Clock(0, 0, 0) && w.rules == [] && w.packet.None?
  {
  }

  lemma BareKey()
    ensures Absolute(TheProcess().executable)
    ensures KeyOf(TheProcess(), Event(1, 0, 0, 0)).executable == TheProcess().executable
    ensures BareConfig().limits.processes == 1
  {
  }

  /** One connect that is prompted for, then the race: in the end a governing Deny and an accepted connect. */
  lemma RaceHappens() returns (run: seq<Action>)
    ensures var c := BareConfig();
            && Run(c, run) && |run| == 8 && Governs(c, run, 2, 5, 7) && run[2].verdict.Deny?
            && run[7].Decide? && DecisionAt(c, run, 7).verdict.Accept?
  {
    hide Run, At, Next, Sane, Enabled, Attribute, Tokenless, Room, NoRuleFor, TheProcess, Governs, DecisionAt,
         RestsOnToken,
         BareConfig, Absolute;
    var c, e, proc := BareConfig(), Event(1, 0, 0, 0), Ok(TheProcess());
    BareStart();
    BareKey();
    RunIsSane(c, []);
    var w0 := At(c, [], 0);
    PromptingState(c, w0, e, proc, Instant(0));
    RunExtends(c, [], Decide(e, proc, Instant(0)));
    var r1 := [] + [Decide(e, proc, Instant(0))];
    BareStored(c, At(c, r1, 1), e, proc);
    RunExtends(c, r1, Store(0, 0));
    var r2 := r1 + [Store(0, 0)];
    run := RaceOverridesDeny(c, r2, 1, e, proc, 0);
  }

  lemma BareStored(c: Config, w: World, e: Event, proc: Process.ProcRead)
    requires Sane(c) && w.deciding.Some? && w.clock == Clock(0, 0, 0) && w.rules == []
    requires Answerable(w, 1, 0) && Prompted(c, w, 1, e, proc)
    ensures Enabled(w, Store(0, 0)) && RaceStart(c, Next(c, w, Store(0, 0)), 1, e, proc, 0)
    ensures Next(c, w, Store(0, 0)).tables == w.tables && Next(c, w, Store(0, 0)).rules == []
  {
    StoreFrame(c, w, 0, 0);
    hide Next, Attribute;
  }
}

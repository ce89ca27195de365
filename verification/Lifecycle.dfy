/** What every run of the pipeline guarantees about one prompt's life: answered once, persisted once, then obeyed. */
module Lifecycle {
  import opened Wrappers
  import opened Collections
  import opened Rules
  import opened Prompts
  import opened Policy
  import opened Pipeline
  import opened FailClosed
  import Pending
  import Process
  import Dns
  import Ipc

  // ------------------------------------------------------------ answers waiting for their rule

  /** The waiting reply is the recorded answer of its prompt. */
  ghost predicate Recorded(q: Queue, id: nat, reply: Reply) {
    && id in q.prompts
    && var p := q.prompts[id];
       && p.state.Answered? && reply == Reply.Reply(id, p.key, reply.verdict, reply.scope, false)
       && p.answerVerdict == Some(reply.verdict) && p.answerScope == Some(reply.scope)
       && !reply.scope.Once? && !reply.verdict.Prompt?
  }

  ghost predicate WaitingOk(w: World) {
    forall id :: id in w.persisting ==> Recorded(w.tables.prompts, id, w.persisting[id])
  }

  lemma AnswerRecords(q: Queue, id: nat, verdict: Verdict, scope: Scope, now: nat, later: nat)
    requires IdsOk(q)
    ensures var (r, reply) := Prompts.Answer(q, id, verdict, scope, now, later);
            reply.Ok? && !reply.value.duplicate ==>
              && id in q.prompts && q.prompts[id].state.Pending?
              && id in r.prompts && r.prompts[id].state.Answered? && r.prompts[id].key == q.prompts[id].key
              && r.prompts[id].answerVerdict == Some(verdict) && r.prompts[id].answerScope == Some(scope)
              && reply.value == Reply.Reply(id, q.prompts[id].key, verdict, scope, false)
              && q.prompts[id].key !in r.pendingByKey
              && (!scope.Once? ==> r.onceAllows.Keys <= q.onceAllows.Keys && r.onceDenies <= q.onceDenies)
  {
    FreshAnswer(q, id, verdict, scope, now, later);
    SweptTokens(q, now);
    hide Kept, KeysOf, FreshTokens, PendingIds;
  }

  lemma WaitingStep(c: Config, w: World, a: Action)
    requires Sane(c) && Enabled(w, a) && Inv(w.tables.prompts) && w.tables.prompts.nextId < U64_MAX && WaitingOk(w)
    ensures WaitingOk(Next(c, w, a))
    ensures forall id :: id in Next(c, w, a).persisting && id !in w.persisting ==>
              a.Answer? && a.id == id && id in w.tables.prompts.prompts && w.tables.prompts.prompts[id].state.Pending?
  {
    hide Next, Prompts.Answer, Inv, Sane;
    PromptStep(c, w, a);
    PersistingFrame(c, w, a);
    if Fresh(w, a) {
      InvIds(w.tables.prompts);
      AnswerRecords(w.tables.prompts, a.id, a.verdict, a.scope, a.now, a.later);
      AnswerNext(c, w, a);
    }
  }

  lemma PersistingFrame(c: Config, w: World, a: Action)
    requires Sane(c) && Enabled(w, a)
    ensures Next(c, w, a).persisting ==
            if Fresh(w, a) && !a.scope.Once? then w.persisting[a.id := Replied(w, a).value]
            else if a.Persist? then w.persisting - {a.id}
            else w.persisting
  {
    hide Policy.Decide, Prompts.Answer, Swept, Dns.Observed, Dns.Swept, Pending.Inserted, Pending.Taken,
         Ipc.Persisted, Ipc.Mutated;
  }

  lemma {:induction false} WaitingKeeps(c: Config, acts: seq<Action>, n: nat)
    requires Run(c, acts) && n <= |acts| && 0 < c.limits.recentPerKey
    ensures WaitingOk(At(c, acts, n))
  {
    hide Run, Sane, At, Next, Enabled, Inv, Recorded;
    RunIsSane(c, acts);
    RunIsShort(c, acts);
    StartInvariants(c, acts);
    if n > 0 {
      WaitingKeeps(c, acts, n - 1);
      PromptsKeep(c, acts, n - 1);
      StepOf(c, acts, n - 1);
      WaitingStep(c, At(c, acts, n - 1), acts[n - 1]);
    }
  }

  /** Settled, and no rule of its own is waiting. */
  ghost predicate Done(w: World, id: nat) {
    && id in w.tables.prompts.prompts && !w.tables.prompts.prompts[id].state.Pending?
    && id !in w.persisting
  }

  lemma {:induction false} DoneForever(c: Config, acts: seq<Action>, m: nat, n: nat, id: nat)
    requires Run(c, acts) && m <= n <= |acts| && 0 < c.limits.recentPerKey && Done(At(c, acts, m), id)
    ensures Done(At(c, acts, n), id)
    decreases n
  {
    hide Run, Sane, At, Next, Enabled, Inv, WaitingOk;
    if m < n {
      RunIsSane(c, acts);
      RunIsShort(c, acts);
      DoneForever(c, acts, m, n - 1, id);
      PromptsKeep(c, acts, n - 1);
      WaitingKeeps(c, acts, n - 1);
      StepOf(c, acts, n - 1);
      PromptStep(c, At(c, acts, n - 1), acts[n - 1]);
      WaitingStep(c, At(c, acts, n - 1), acts[n - 1]);
    }
  }

  lemma PersistStep(c: Config, w: World, a: Action)
    requires Sane(c) && Enabled(w, a) && a.Persist? && WaitingOk(w)
    ensures Done(Next(c, w, a), a.id) && a.id in w.persisting
    ensures Next(c, w, a).rules == Ipc.Persisted(w.rules, w.persisting[a.id])
    ensures Next(c, w, a).tables == w.tables
  {
  }

  /** Each prompt id inserts at most one rule in a whole run. */
  lemma PersistsOnce(c: Config, acts: seq<Action>, m: nat, n: nat, id: nat)
    requires Run(c, acts) && m < n < |acts| && 0 < c.limits.recentPerKey
    requires acts[m] == Persist(id)
    ensures acts[n] != Persist(id)
  {
    hide Run, Sane, At, Next, WaitingOk, Done;
    RunIsSane(c, acts);
    WaitingKeeps(c, acts, m);
    StepOf(c, acts, m);
    PersistStep(c, At(c, acts, m), acts[m]);
    DoneForever(c, acts, m + 1, n, id);
    StepOf(c, acts, n);
    DoneNotWaiting(At(c, acts, n), id);
  }

  lemma DoneNotWaiting(w: World, id: nat)
    requires Done(w, id)
    ensures id !in w.persisting
  {
  }

  /**
   A repeated answer returns the verdict and scope of the first one, and changes nothing but the clock and
   what a sweep would have removed anyway: no rule, no token, no waiting rule, no stored verdict.
   */
  lemma RepeatsFirstAnswer(c: Config, acts: seq<Action>, m: nat, n: nat)
    requires Run(c, acts) && m < n < |acts| && 0 < c.limits.recentPerKey
    requires acts[m].Answer? && acts[n].Answer? && acts[m].id == acts[n].id
    requires Fresh(At(c, acts, m), acts[m])
    ensures var w, first := At(c, acts, n), Replied(At(c, acts, m), acts[m]).value;
            && Replied(w, acts[n]) == Ok(first.(duplicate := true))
            && first.verdict == acts[m].verdict && first.scope == acts[m].scope
            && At(c, acts, n + 1) ==
               w.(clock := w.clock.(prompts := acts[n].later),
                  tables := w.tables.(prompts := Swept(w.tables.prompts, acts[n].now)))
  {
    hide Run, Sane, At, Next, Enabled, Inv, Swept, Prompts.Answer;
    RunIsSane(c, acts);
    StepOf(c, acts, m);
    StepOf(c, acts, n);
    PromptsKeep(c, acts, m);
    PromptsKeep(c, acts, n);
    InvIds(At(c, acts, m).tables.prompts);
    AnswerRecords(At(c, acts, m).tables.prompts, acts[m].id, acts[m].verdict, acts[m].scope,
                  acts[m].now, acts[m].later);
    AnswerNext(c, At(c, acts, m), acts[m]);
    AnswerNext(c, At(c, acts, n), acts[n]);
    SettledForever(c, acts, m + 1, n, acts[m].id);
    RepeatAnswer(At(c, acts, n).tables.prompts, acts[n].id, acts[n].verdict, acts[n].scope, acts[n].now, acts[n].later);
  }

  lemma InvIds(q: Queue)
    requires Inv(q)
    ensures IdsOk(q)
  {
  }

  lemma AnswerNext(c: Config, w: World, a: Action)
    requires Sane(c) && Enabled(w, a) && a.Answer?
    ensures var (q, reply) := Prompts.Answer(w.tables.prompts, a.id, a.verdict, a.scope, a.now, a.later);
            Next(c, w, a) == w.(clock := w.clock.(prompts := a.later), tables := w.tables.(prompts := q),
              persisting := if Fresh(w, a) && !a.scope.Once? then w.persisting[a.id := reply.value] else w.persisting)
  {
    hide Prompts.Answer;
  }

  // ------------------------------------------------------------ a lasting answer is obeyed

  /** The key holds no once-token. */
  ghost predicate Tokenless(q: Queue, key: PromptKey) {
    key !in q.onceAllows && key !in q.onceDenies
  }

  /** A decision about a connection with this prompt key. */
  predicate Concerns(c: Config, w: World, a: Action, key: PromptKey) {
    && a.Decide?
    && var who := Attribute(w.tables.cache, c.limits.processes, a.event, a.proc).1;
       who.Ok? && KeyOf(who.value, a.event) == key
  }

  /** A decision about a connection of this executable to this port, at whatever address. */
  predicate Reaches(c: Config, w: World, a: Action, key: PromptKey) {
    && a.Decide?
    && var who := Attribute(w.tables.cache, c.limits.processes, a.event, a.proc).1;
       who.Ok? && who.value.executable == key.executable && a.event.port == key.port
  }

  /** A fresh answer that is good for one connect of this key. */
  predicate OnceAnswered(w: World, a: Action, key: PromptKey) {
    Fresh(w, a) && a.scope.Once? && Replied(w, a).value.key == key
  }

  lemma SweptTokenless(q: Queue, now: nat, key: PromptKey)
    requires Tokenless(q, key)
    ensures Tokenless(Swept(q, now), key)
  {
    SweptTokens(q, now);
    hide Swept;
  }

  lemma AnswerTokenless(q: Queue, id: nat, verdict: Verdict, scope: Scope, now: nat, later: nat, key: PromptKey)
    requires Tokenless(q, key)
    requires var reply := Prompts.Answer(q, id, verdict, scope, now, later).1;
             !(reply.Ok? && !reply.value.duplicate && scope.Once? && reply.value.key == key)
    ensures Tokenless(Prompts.Answer(q, id, verdict, scope, now, later).0, key)
  {
    SweptTokenless(q, now, key);
    hide Swept;
  }

  lemma OperationsTokenless(q: Queue, mine: PromptKey, now: nat, later: nat, key: PromptKey)
    requires Tokenless(q, key)
    ensures Tokenless(TakeOnceAllow(q, mine, now, later).0, key)
    ensures Tokenless(ConsumeOnceDeny(q, mine, now).0, key)
    ensures Tokenless(Enqueue(q, mine, now, later).0, key)
  {
    SweptTokenless(q, now, key);
    hide Swept;
  }

  lemma DecideTokenless(
    tb: Tables, rules: seq<Rule>, lim: Limits, e: Event, proc: Process.ProcRead, t: Readings, key: PromptKey)
    requires 0 < lim.recentPerKey && Tokenless(tb.prompts, key)
    ensures Tokenless(Policy.Decide(tb, rules, lim, e, proc, t).0.prompts, key)
  {
    hide Attribute, TakeOnceAllow, ConsumeOnceDeny, Enqueue, Dns.NameOf, VerdictFor, Tokenless;
    var who := Attribute(tb.cache, lim.processes, e, proc).1;
    if who.Ok? {
      var mine := KeyOf(who.value, e);
      var q1 := TakeOnceAllow(tb.prompts, mine, t.token, t.check).0;
      var q2 := ConsumeOnceDeny(q1, mine, t.deny).0;
      OperationsTokenless(tb.prompts, mine, t.token, t.check, key);
      OperationsTokenless(q1, mine, t.deny, t.deny, key);
      OperationsTokenless(q2, mine, t.enqueue, t.create, key);
    }
  }

  lemma TokenlessStep(c: Config, w: World, a: Action, key: PromptKey)
    requires Sane(c) && Enabled(w, a) && Tokenless(w.tables.prompts, key) && !OnceAnswered(w, a, key)
    ensures Tokenless(Next(c, w, a).tables.prompts, key)
  {
    hide Policy.Decide, Prompts.Answer, Swept, Dns.Observed, Dns.Swept, Pending.Inserted, Pending.Taken,
         Ipc.Persisted, Ipc.Mutated, Tokenless;
    match a
    case Decide(e, proc, t) => DecideTokenless(w.tables, w.rules, c.limits, e, proc, t, key);
    case Answer(id, verdict, scope, now, later) =>
      AnswerTokenless(w.tables.prompts, id, verdict, scope, now, later, key);
    case ListPrompts(now) => SweptTokenless(w.tables.prompts, now, key);
    case _ =>
  }

  /** Strictly between `lo` and `hi` nobody answers a prompt of this key for once. */
  ghost predicate NoOnceAnswer(c: Config, acts: seq<Action>, lo: nat, hi: nat, key: PromptKey)
    requires 0 < c.limits.recentPerKey && hi <= |acts|
  {
    forall m :: lo < m < hi ==> !OnceAnswered(At(c, acts, m), acts[m], key)
  }

  /** Only a fresh Once answer gives a key a token, whatever else happens, connects of the key included. */
  lemma {:induction false} TokenlessUntil(c: Config, acts: seq<Action>, lo: nat, n: nat, key: PromptKey)
    requires Run(c, acts) && lo < n <= |acts| && 0 < c.limits.recentPerKey
    requires Tokenless(At(c, acts, lo + 1).tables.prompts, key) && NoOnceAnswer(c, acts, lo, n, key)
    ensures Tokenless(At(c, acts, n).tables.prompts, key)
    decreases n
  {
    hide Run, Sane, At, Next, Enabled, Tokenless, OnceAnswered;
    if n > lo + 1 {
      RunIsSane(c, acts);
      TokenlessUntil(c, acts, lo, n - 1, key);
      StepOf(c, acts, n - 1);
      TokenlessStep(c, At(c, acts, n - 1), acts[n - 1], key);
    }
  }

  predicate EditsRules(a: Action) {
    a.Edit? || a.Persist?
  }

  lemma {:induction false} RulesUntouched(c: Config, acts: seq<Action>, m: nat, n: nat)
    requires Run(c, acts) && m <= n <= |acts| && 0 < c.limits.recentPerKey
    requires forall j :: m <= j < n ==> !EditsRules(acts[j])
    ensures At(c, acts, n).rules == At(c, acts, m).rules
    decreases n
  {
    hide Run, Sane, At, Next, Enabled;
    if m < n {
      RunIsSane(c, acts);
      RulesUntouched(c, acts, m, n - 1);
      StepOf(c, acts, n - 1);
      RulesFrame(c, At(c, acts, n - 1), acts[n - 1]);
    }
  }

  lemma RulesFrame(c: Config, w: World, a: Action)
    requires Sane(c) && Enabled(w, a) && !EditsRules(a)
    ensures Next(c, w, a).rules == w.rules
  {
    hide Policy.Decide, Prompts.Answer, Swept, Dns.Observed, Dns.Swept, Pending.Inserted, Pending.Taken,
         Ipc.Persisted, Ipc.Mutated;
  }

  function PacketVerdict(v: Verdict): Pending.Verdict {
    if v.Allow? then Pending.Accept else Pending.Drop
  }

  /** Tokens first, then the lasting rule on top: its verdict, with no prompt. */
  lemma DecideByRule(q: Queue, dns: Dns.Cache, rules: seq<Rule>, who: Process.Identity, e: Event, t: Readings, r: Rule)
    requires t.Ordered() && !r.verdict.Prompt?
    requires Best(rules, ConnectionOf(who, e, Dns.NameOf(dns, e.ipv4, t.dns).1)) == Some(r)
    ensures var (q', _, d) := DecideAttributed(q, dns, rules, who, e, t);
            && d.verdict == (if TokenLive(q, KeyOf(who, e), t) then Pending.Accept
                             else if DenyLive(q, KeyOf(who, e)) then Pending.Drop
                             else PacketVerdict(r.verdict))
            && d.promptId == None && d.attributed && q'.nextId == q.nextId
  {
    hide TakeOnceAllow, ConsumeOnceDeny, Enqueue, Dns.NameOf, Best, TokenLive, DenyLive;
    var key := KeyOf(who, e);
    TokenOutcome(q, key, t);
    var q1 := TakeOnceAllow(q, key, t.token, t.check).0;
    TokensIssueNoId(q, key, t.token, t.check);
    TokensIssueNoId(q1, key, t.deny, t.deny);
  }

  /** Decision `i` meets a live once-deny token. */
  predicate RestsOnDeny(c: Config, acts: seq<Action>, i: nat)
    requires 0 < c.limits.recentPerKey && i < |acts| && acts[i].Decide?
  {
    var who := WhoAt(c, acts, i);
    who.Ok? && DenyLive(At(c, acts, i).tables.prompts, KeyOf(who.value, acts[i].event))
  }

  /**
   Fresh lasting answer `a`, the insertion `m` of its rule, and a later connect `n` of its executable and port, at
   any address: the rule went in, the rules did not change since, and no matching rule had more than three constraints.
   */
  ghost predicate Governs(c: Config, acts: seq<Action>, a: nat, m: nat, n: nat)
    requires 0 < c.limits.recentPerKey && a < m < n < |acts|
  {
    && Fresh(At(c, acts, a), acts[a]) && !acts[a].scope.Once?
    && acts[m] == Persist(acts[a].id) && acts[m].id in At(c, acts, m).persisting
    && Reaches(c, At(c, acts, n), acts[n], Replied(At(c, acts, a), acts[a]).value.key)
    && (forall j :: m < j < n ==> !EditsRules(acts[j]))
    && var w := At(c, acts, m);
       && Inserted(w.rules, Ipc.AnsweredRule(w.rules, w.persisting[acts[m].id])).Ok?
       && var connection := ConnectionOf(WhoAt(c, acts, n).value, acts[n].event, NameAt(c, acts, n));
          forall o :: o in w.rules && Matches(o, connection) ==> Constraints(o) <= 3
  }

  /**
   One answer decides all addresses at its port. The exact verdict of every later connect of the executable to that
   port, whatever happened in between: a live allow token of its own accepts, else a live deny token of its own drops,
   else the lasting answer decides. There is never a new prompt.
   */
  lemma LastingAnswerGoverns(c: Config, acts: seq<Action>, a: nat, m: nat, n: nat)
    requires Run(c, acts) && a < m < n < |acts| && 0 < c.limits.recentPerKey && Governs(c, acts, a, m, n)
    ensures DecisionAt(c, acts, n).verdict ==
            if RestsOnToken(c, acts, n) then Pending.Accept
            else if RestsOnDeny(c, acts, n) then Pending.Drop
            else PacketVerdict(acts[a].verdict)
    ensures DecisionAt(c, acts, n).attributed && DecisionAt(c, acts, n).promptId == None
    ensures At(c, acts, n + 1).tables.prompts.nextId == At(c, acts, n).tables.prompts.nextId
  {
    hide Run, Sane, At, Next, Enabled, Inv, Recorded, Tokenless, Attribute, DecideAttributed, Matches, Constraints,
         Inserted, WellFormed, Ipc.AnsweredRule, Ipc.Persisted, TokenLive, DenyLive, ConnectionOf, Prompts.Answer,
         WaitingOk;
    RunIsSane(c, acts);
    var reply := Replied(At(c, acts, a), acts[a]).value;
    AnsweredKey(c, acts, a, m);
    StepOf(c, acts, m);
    WaitingKeeps(c, acts, m);
    PersistStep(c, At(c, acts, m), acts[m]);
    RulesUntouched(c, acts, m + 1, n);
    RulesStayWellFormed(c, acts, m);
    var w, who := At(c, acts, n), WhoAt(c, acts, n).value;
    var connection := ConnectionOf(who, acts[n].event, NameAt(c, acts, n));
    ConnectionFields(who, acts[n].event, NameAt(c, acts, n), reply.key);
    Ipc.AnsweredRuleDecides(At(c, acts, m).rules, reply, connection);
    AnsweredVerdict(At(c, acts, m).rules, reply);
    StepOf(c, acts, n);
    EnabledThreads(w, acts[n]);
    DecideByRule(w.tables.prompts, w.tables.dns, w.rules, who, acts[n].event, acts[n].t,
                 Ipc.AnsweredRule(At(c, acts, m).rules, reply));
    DecideNext(c, w, acts[n]);
  }

  /**
   After a fresh Session or Permanent answer whose rule was inserted, every later connect of the same key gets
   exactly the answered verdict, with no new prompt and no token of either kind, until somebody answers a prompt of
   the key for once or changes the rules, and provided no matching rule had more than three constraints.
   */
  lemma LastingAnswerIsObeyed(c: Config, acts: seq<Action>, a: nat, m: nat, n: nat)
    requires Run(c, acts) && a < m < n < |acts| && 0 < c.limits.recentPerKey && Governs(c, acts, a, m, n)
    requires var key := Replied(At(c, acts, a), acts[a]).value.key;
             Concerns(c, At(c, acts, n), acts[n], key) && NoOnceAnswer(c, acts, a, n, key)
    ensures DecisionAt(c, acts, n).verdict == PacketVerdict(acts[a].verdict)
    ensures DecisionAt(c, acts, n).attributed && DecisionAt(c, acts, n).promptId == None
    ensures At(c, acts, n + 1).tables.prompts.nextId == At(c, acts, n).tables.prompts.nextId
    ensures !RestsOnToken(c, acts, n) && !RestsOnDeny(c, acts, n)
  {
    LastingAnswerGoverns(c, acts, a, m, n);
    hide Run, Sane, At, Next, Enabled, Tokenless, TokenLive, DenyLive, Attribute, Prompts.Answer, NoOnceAnswer,
         DecisionAt, Matches, Inserted;
    var key := Replied(At(c, acts, a), acts[a]).value.key;
    AnsweredKey(c, acts, a, m);
    TokenlessUntil(c, acts, a, n, key);
    NothingLive(At(c, acts, n).tables.prompts, key, acts[n].t);
  }

  lemma NothingLive(q: Queue, key: PromptKey, t: Readings)
    requires Tokenless(q, key)
    ensures !TokenLive(q, key, t) && !DenyLive(q, key)
  {
  }

  lemma ConnectionFields(who: Process.Identity, e: Event, name: Option<string>, key: PromptKey)
    requires who.executable == key.executable && e.port == key.port
    ensures var cn := ConnectionOf(who, e, name);
            cn.executable == key.executable && cn.port == key.port && cn.protocol.Tcp? && cn.direction.Outbound?
  {
  }

  lemma AnsweredVerdict(rules: seq<Rule>, reply: Reply)
    ensures Ipc.AnsweredRule(rules, reply).verdict == reply.verdict
  {
  }

  lemma DecideNext(c: Config, w: World, a: Action)
    requires Sane(c) && Enabled(w, a) && a.Decide?
    ensures Next(c, w, a).tables == Policy.Decide(w.tables, w.rules, c.limits, a.event, a.proc, a.t).0
  {
    hide Policy.Decide;
  }

  /** The waiting reply at step `m` is the one of answer `a`, and the answer left its key without a token. */
  lemma AnsweredKey(c: Config, acts: seq<Action>, a: nat, m: nat)
    requires Run(c, acts) && a < m <= |acts| && 0 < c.limits.recentPerKey
    requires Fresh(At(c, acts, a), acts[a]) && !acts[a].scope.Once? && acts[a].id in At(c, acts, m).persisting
    ensures var reply := Replied(At(c, acts, a), acts[a]).value;
            && At(c, acts, m).persisting[acts[a].id] == reply
            && reply.verdict == acts[a].verdict && !reply.verdict.Prompt?
            && Tokenless(At(c, acts, a + 1).tables.prompts, reply.key)
  {
    hide Run, Sane, At, Next, Enabled, Inv, Prompts.Answer;
    RunIsSane(c, acts);
    StepOf(c, acts, a);
    PromptsKeep(c, acts, a);
    var q := At(c, acts, a).tables.prompts;
    InvIds(q);
    AnswerRecords(q, acts[a].id, acts[a].verdict, acts[a].scope, acts[a].now, acts[a].later);
    AnswerNext(c, At(c, acts, a), acts[a]);
    PendingHasNoToken(q, acts[a].id);
    SettledForever(c, acts, a + 1, m, acts[a].id);
    WaitingKeeps(c, acts, m);
  }

  lemma PendingHasNoToken(q: Queue, id: nat)
    requires Inv(q) && id in q.prompts
    ensures q.prompts[id].state.Pending? ==> q.prompts[id].key !in q.onceAllows && q.prompts[id].key !in q.onceDenies
  {
    if q.prompts[id].state.Pending? {
      assert id in PendingIds(q.prompts);
      assert q.prompts[id].key in q.pendingByKey.Keys;
    }
  }
}

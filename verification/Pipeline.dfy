/**
 The verdict pipeline as a step system: the observer thread decides a connect and then stores the
 decision (observe.rs), the packet thread parses a packet and tries up to fifty times to take a
 stored decision (nfqueue_live.rs), and IPC threads answer prompts, persist answered rules, edit
 rules and note DNS answers in between (ipc.rs). Every step is one critical section, and time is read
 under three locks that do not exclude each other, so each of them has its own clock.
 */
module Pipeline {
  import opened Wrappers
  import opened Collections
  import opened Rules
  import opened Prompts
  import opened Policy
  import Fifo
  import Pending
  import Process
  import Dns
  import Recent
  import Packet
  import Ipc

  const MAX_ATTEMPTS: nat := 50

  datatype Config = Config(
    rules: seq<Rule>, limits: Limits, promptCapacity: nat, promptTtl: nat, dnsCapacity: nat,
    pendingCapacity: nat, pendingTtl: nat)

  predicate Sane(c: Config) {
    && WellFormed(c.rules)
    && 0 < c.limits.processes && 0 < c.limits.recentKeys && 0 < c.limits.recentPerKey
    && 0 < c.promptCapacity && 0 < c.dnsCapacity && 0 < c.pendingCapacity
  }

  datatype InFlight = InFlight(key: Pending.DestKey, tried: nat)

  /** The latest reading under each lock; readings under different locks are not ordered by the steps. */
  datatype Clock = Clock(pending: nat, prompts: nat, dns: nat)

  predicate NotAfter(a: Clock, b: Clock) {
    a.pending <= b.pending && a.prompts <= b.prompts && a.dns <= b.dns
  }

  datatype World = World(
    clock: Clock,
    rules: seq<Rule>,
    tables: Tables,
    pending: Pending.Table,
    /** decided by the observer thread, not yet stored */
    deciding: Option<Decision>,
    /** the packet being looked up by the queue thread */
    packet: Option<InFlight>,
    /** fresh Session and Permanent answers whose rule is not inserted yet, by prompt id */
    persisting: map<nat, Reply>)

  datatype Action =
    | Decide(event: Event, proc: Process.ProcRead, t: Readings)
    | Store(now: nat, later: nat)
    /** the pending lock is poisoned, so the decision is not stored */
    | Lose
    | Arrive(payload: seq<Packet.Byte>)
    | Attempt(now: nat)
    | Poisoned
    | Answer(id: nat, verdict: Verdict, scope: Scope, now: nat, later: nat)
    | Persist(id: nat)
    | Edit(mutation: Ipc.Mutation)
    | NoteDns(hostname: string, ip: nat, ttl: nat, now: nat, later: nat)
    | ListPrompts(now: nat)
    | ListDns(now: nat)

  function Initial(c: Config): World {
    World(Clock(0, 0, 0), c.rules,
          Tables(Fifo.Fifo(map[], []), Empty(c.promptCapacity, c.promptTtl), Fifo.Fifo(map[], []),
                 Fifo.Fifo(map[], [])),
          Fifo.Fifo(map[], []), None, None, map[])
  }

  /** No clock runs backwards, and a thread only takes a step that its program allows. */
  predicate Enabled(w: World, a: Action) {
    match a
    case Decide(_, _, t) => w.deciding.None? && w.clock.prompts <= t.token && w.clock.dns <= t.dns && t.Ordered()
    case Store(now, later) => w.deciding.Some? && w.clock.pending <= now <= later
    case Lose => w.deciding.Some?
    case Arrive(_) => w.packet.None?
    case Attempt(now) => w.packet.Some? && w.clock.pending <= now
    case Poisoned => w.packet.Some?
    case Answer(_, verdict, _, now, later) => !verdict.Prompt? && w.clock.prompts <= now <= later
    case Persist(id) => id in w.persisting
    case Edit(_) => true
    case NoteDns(_, _, _, now, later) => w.clock.dns <= now <= later
    case ListPrompts(now) => w.clock.prompts <= now
    case ListDns(now) => w.clock.dns <= now
  }

  function Replied(w: World, a: Action): Result<Reply, AnswerError>
    requires a.Answer?
  {
    Prompts.Answer(w.tables.prompts, a.id, a.verdict, a.scope, a.now, a.later).1
  }

  /** A prompt settled by this very answer. */
  predicate Fresh(w: World, a: Action) {
    a.Answer? && Replied(w, a).Ok? && !Replied(w, a).value.duplicate
  }

  function Lookup(c: Config, w: World, a: Action): (Pending.Table, Option<Pending.Verdict>)
    requires a.Attempt? && w.packet.Some?
  {
    Pending.Taken(w.pending, c.pendingTtl, w.packet.value.key, a.now)
  }

  function Next(c: Config, w: World, a: Action): World
    requires 0 < c.limits.recentPerKey && Enabled(w, a)
  {
    match a
    case Decide(e, proc, t) =>
      var (tables, d) := Policy.Decide(w.tables, w.rules, c.limits, e, proc, t);
      w.(clock := w.clock.(prompts := t.create, dns := t.dns), tables := tables, deciding := Some(d))
    case Store(now, later) =>
      var d := w.deciding.value;
      w.(clock := w.clock.(pending := later), deciding := None,
         pending := Pending.Inserted(w.pending, c.pendingCapacity, c.pendingTtl, d.key, d.verdict, now, later))
    case Lose => w.(deciding := None)
    case Arrive(payload) =>
      var key := Packet.TcpDestination(payload);
      if key.None? then w else w.(packet := Some(InFlight(key.value, 0)))
    case Attempt(now) =>
      var (pending, v) := Lookup(c, w, a);
      var tried := w.packet.value.tried + 1;
      w.(clock := w.clock.(pending := now), pending := pending,
         packet := if v.Some? || tried >= MAX_ATTEMPTS then None else Some(w.packet.value.(tried := tried)))
    case Poisoned => w.(packet := None)
    case Answer(id, verdict, scope, now, later) =>
      var (q, reply) := Prompts.Answer(w.tables.prompts, id, verdict, scope, now, later);
      w.(clock := w.clock.(prompts := later), tables := w.tables.(prompts := q),
         persisting := if Fresh(w, a) && !scope.Once? then w.persisting[id := reply.value] else w.persisting)
    case Persist(id) =>
      w.(rules := Ipc.Persisted(w.rules, w.persisting[id]), persisting := w.persisting - {id})
    case Edit(m) => w.(rules := Ipc.Mutated(w.rules, m))
    case NoteDns(hostname, ip, ttl, now, later) =>
      var dns := Dns.Observed(w.tables.dns, c.dnsCapacity, hostname, ip, ttl, now, later);
      w.(clock := w.clock.(dns := later), tables := w.tables.(dns := dns))
    case ListPrompts(now) =>
      w.(clock := w.clock.(prompts := now), tables := w.tables.(prompts := Swept(w.tables.prompts, now)))
    case ListDns(now) =>
      w.(clock := w.clock.(dns := now), tables := w.tables.(dns := Dns.Swept(w.tables.dns, now)))
  }

  /** The verdict the packet thread returns with this step, if it returns one. */
  function Emitted(c: Config, w: World, a: Action): Option<Pending.Verdict>
    requires Enabled(w, a)
  {
    match a
    case Arrive(payload) => if Packet.TcpDestination(payload).None? then Some(Pending.Drop) else None
    case Attempt(_) =>
      var v := Lookup(c, w, a).1;
      if v.Some? then v
      else if w.packet.value.tried + 1 >= MAX_ATTEMPTS then Some(Pending.Drop)
      else None
    case Poisoned => Some(Pending.Drop)
    case _ => None
  }

  // ------------------------------------------------------------ runs

  /** The state after `n` steps; a step that is not enabled leaves it alone. */
  function At(c: Config, acts: seq<Action>, n: nat): World
    requires 0 < c.limits.recentPerKey && n <= |acts|
  {
    if n == 0 then Initial(c)
    else
      var w := At(c, acts, n - 1);
      if Enabled(w, acts[n - 1]) then Next(c, w, acts[n - 1]) else w
  }

  ghost predicate Run(c: Config, acts: seq<Action>) {
    && Sane(c) && |acts| < U64_MAX - 1
    && forall n :: 0 <= n < |acts| ==> Enabled(At(c, acts, n), acts[n])
  }

  lemma StepOf(c: Config, acts: seq<Action>, n: nat)
    requires Run(c, acts) && n < |acts|
    ensures Enabled(At(c, acts, n), acts[n]) && At(c, acts, n + 1) == Next(c, At(c, acts, n), acts[n])
  {
    hide Next, Enabled, Sane;
  }

  lemma Start(c: Config, acts: seq<Action>)
    requires Sane(c)
    ensures var w := At(c, acts, 0);
            && w.pending.entries == map[] && w.deciding == None && w.packet == None && w.persisting == map[]
            && w.tables.prompts == Empty(c.promptCapacity, c.promptTtl) && w.rules == c.rules
            && w.tables.prompts.onceAllows == map[]
  {
  }

  lemma RunIsSane(c: Config, acts: seq<Action>)
    requires Run(c, acts)
    ensures Sane(c) && 0 < c.limits.recentPerKey
  {
    hide At, Enabled;
  }

  // ------------------------------------------------------------ fifty attempts

  /** A packet that parses waits for its first attempt; another one is dropped at once. */
  lemma ArriveExactly(c: Config, w: World, payload: seq<Packet.Byte>)
    requires 0 < c.limits.recentPerKey && Enabled(w, Arrive(payload))
    ensures var key := Packet.TcpDestination(payload);
            if key.None? then Emitted(c, w, Arrive(payload)) == Some(Pending.Drop) && Next(c, w, Arrive(payload)) == w
            else
              && Emitted(c, w, Arrive(payload)) == None
              && Next(c, w, Arrive(payload)) == w.(packet := Some(InFlight(key.value, 0)))
  {
    hide Packet.TcpDestination;
  }

  /** One attempt: what is found is the verdict; the fiftieth miss drops the packet, any other one only counts. */
  lemma AttemptExactly(c: Config, w: World, now: nat)
    requires 0 < c.limits.recentPerKey && Enabled(w, Attempt(now))
    ensures var key, tried := w.packet.value.key, w.packet.value.tried;
            var found := key in w.pending.entries && now <= w.pending.entries[key].insertedAt + c.pendingTtl;
            var emitted, after := Emitted(c, w, Attempt(now)), Next(c, w, Attempt(now)).packet;
            && (found ==> emitted == Some(w.pending.entries[key].verdict) && after == None)
            && (!found && tried < 49 ==> emitted == None && after == Some(InFlight(key, tried + 1)))
            && (!found && tried >= 49 ==> emitted == Some(Pending.Drop) && after == None)
  {
    Pending.TakeIsFresh(w.pending, c.pendingTtl, w.packet.value.key, now);
    hide Pending.Taken;
  }

  /** The attempts among the steps from `lo` to before `hi`. */
  function Attempts(acts: seq<Action>, lo: nat, hi: nat): nat
    requires lo <= hi <= |acts|
    decreases hi
  {
    if lo == hi then 0 else Attempts(acts, lo, hi - 1) + if acts[hi - 1].Attempt? then 1 else 0
  }

  /** In every run a packet in flight was tried as often as there were attempts, and fewer than fifty times. */
  lemma {:induction false} AttemptsAreCounted(c: Config, acts: seq<Action>, a: nat, n: nat)
    requires Run(c, acts) && a < n <= |acts| && acts[a].Arrive?
    requires 0 < c.limits.recentPerKey && forall m :: a < m <= n ==> At(c, acts, m).packet.Some?
    ensures At(c, acts, n).packet == Some(InFlight(At(c, acts, a + 1).packet.value.key, Attempts(acts, a + 1, n)))
    ensures Attempts(acts, a + 1, n) < 50
    decreases n
  {
    hide Run, Next;
    StepOf(c, acts, n - 1);
    if n == a + 1 {
      ArriveExactly(c, At(c, acts, a), acts[a].payload);
      assert At(c, acts, a).packet == None && At(c, acts, n).packet.Some?;
    } else {
      hide Enabled;
      AttemptsAreCounted(c, acts, a, n - 1);
      var w := At(c, acts, n - 1);
      if acts[n - 1].Attempt? {
        AttemptExactly(c, w, acts[n - 1].now);
      } else {
        PacketStays(c, w, acts[n - 1]);
      }
    }
  }

  lemma PacketStays(c: Config, w: World, a: Action)
    requires 0 < c.limits.recentPerKey && Enabled(w, a) && w.packet.Some? && !a.Attempt?
    ensures Next(c, w, a).packet.Some? ==> Next(c, w, a).packet == w.packet
  {
    hide Policy.Decide, Prompts.Answer, Pending.Inserted, Dns.Observed, Dns.Swept, Swept, Packet.TcpDestination, Fresh;
  }

  /** With the pending lock poisoned the packet is dropped. */
  lemma PoisonedDrops(c: Config, w: World)
    requires 0 < c.limits.recentPerKey && Enabled(w, Poisoned)
    ensures Emitted(c, w, Poisoned) == Some(Pending.Drop) && Next(c, w, Poisoned) == w.(packet := None)
  {
  }

  /** A name that was noted is on record for its time to live. */
  lemma NotedIsKnown(c: Config, w: World, hostname: string, ip: nat, ttl: nat, now: nat, later: nat, asked: nat)
    requires 0 < c.limits.recentPerKey && Enabled(w, NoteDns(hostname, ip, ttl, now, later))
    ensures var after := Next(c, w, NoteDns(hostname, ip, ttl, now, later));
            && KnownName(after.tables.dns, ip, asked) ==
               (if asked < later + ttl then Some(Dns.LowerCase(hostname)) else None)
            && after.rules == w.rules && after.tables.prompts == w.tables.prompts && after.pending == w.pending
  {
    hide Dns.LowerCase;
  }

  /** An edit of the rules is in force from the next step on. */
  lemma EditIsSeen(c: Config, w: World, m: Ipc.Mutation)
    requires 0 < c.limits.recentPerKey
    ensures var after := Next(c, w, Edit(m));
            && after == w.(rules := after.rules)
            && (m.Delete? ==> forall r :: r in after.rules <==> r in w.rules && r.id != m.id)
            && (m.Add? && m.verdict in {"allow", "deny", "prompt"} && Absolute(m.executable) &&
                (forall r :: r in w.rules ==> r.id != m.id) ==>
                  after.rules == w.rules +
                    [Rule(m.id, m.executable, Some(Tcp), Some(Outbound), None, None, Some(m.port),
                          if m.verdict == "allow" then Allow else if m.verdict == "deny" then Deny else Verdict.Prompt,
                          Permanent)])
  {
    if m.Delete? {
      WithoutIsExact(w.rules, m.id);
    }
  }

  /** The decision the observer thread made at step `i`. */
  function DecisionAt(c: Config, acts: seq<Action>, i: nat): Decision
    requires 0 < c.limits.recentPerKey && i < |acts| && acts[i].Decide?
  {
    var w := At(c, acts, i);
    Policy.Decide(w.tables, w.rules, c.limits, acts[i].event, acts[i].proc, acts[i].t).1
  }

  function WhoAt(c: Config, acts: seq<Action>, i: nat): Result<Process.Identity, Process.AttributionError>
    requires 0 < c.limits.recentPerKey && i < |acts| && acts[i].Decide?
  {
    Attribute(At(c, acts, i).tables.cache, c.limits.processes, acts[i].event, acts[i].proc).1
  }

  // ------------------------------------------------------------ what each step leaves alone

  lemma EnabledThreads(w: World, a: Action)
    requires Enabled(w, a)
    ensures a.Attempt? ==> w.packet.Some?
    ensures a.Store? || a.Lose? ==> w.deciding.Some?
    ensures a.Decide? ==> a.t.Ordered()
  {
  }

  /** How a pending entry can come to be there. */
  lemma PendingFrame(c: Config, w: World, a: Action, k: Pending.DestKey)
    requires Sane(c) && Enabled(w, a) && k in Next(c, w, a).pending.entries
    ensures var after := Next(c, w, a).pending.entries[k];
            if a.Store? && w.deciding.value.key == k then after == Pending.Entry(w.deciding.value.verdict, a.later)
            else k in w.pending.entries && after == w.pending.entries[k] &&
                 !(a.Attempt? && w.packet.value.key == k && Lookup(c, w, a).1.Some?)
  {
    hide Policy.Decide, Prompts.Answer, Swept, Dns.Observed, Dns.Swept, Pending.Inserted, Pending.Taken,
         Ipc.Persisted, Ipc.Mutated;
    match a
    case Store(now, later) =>
      var d := w.deciding.value;
      Pending.InsertIsLocal(w.pending, c.pendingCapacity, c.pendingTtl, d.key, d.verdict, now, later, k);
    case Attempt(now) =>
      Pending.TakeIsFresh(w.pending, c.pendingTtl, w.packet.value.key, now);
    case _ =>
  }

  lemma DecidingFrame(c: Config, w: World, a: Action)
    requires Sane(c) && Enabled(w, a)
    ensures Next(c, w, a).deciding ==
            if a.Decide? then Some(Policy.Decide(w.tables, w.rules, c.limits, a.event, a.proc, a.t).1)
            else if a.Store? || a.Lose? then None
            else w.deciding
  {
    hide Policy.Decide, Prompts.Answer, Swept, Dns.Observed, Dns.Swept, Pending.Inserted, Pending.Taken,
         Ipc.Persisted, Ipc.Mutated;
  }

  /** How a once-allow token can come to be there. */
  lemma TokenFrame(c: Config, w: World, a: Action, key: PromptKey)
    requires Sane(c) && Enabled(w, a) && key in Next(c, w, a).tables.prompts.onceAllows
    ensures var after := Next(c, w, a).tables.prompts.onceAllows[key];
            if Grants(w, a, key) then after == a.later
            else
              && key in w.tables.prompts.onceAllows && after == w.tables.prompts.onceAllows[key]
              && !Spends(c, w, a, key)
  {
    hide Dns.Observed, Dns.Swept, Pending.Inserted, Pending.Taken, Ipc.Persisted, Ipc.Mutated;
    match a
    case Decide(e, proc, t) =>
      hide Policy.Decide, Prompts.Answer, Swept;
      DecideTokens(w.tables, w.rules, c.limits, e, proc, t, key);
    case Answer(id, verdict, scope, now, later) =>
      hide Policy.Decide, Prompts.Answer, Swept;
      AnswerTokens(w.tables.prompts, id, verdict, scope, now, later, key);
    case ListPrompts(now) =>
      hide Policy.Decide, Prompts.Answer, Swept;
      SweptAllows(w.tables.prompts, now, key);
    case _ =>
      hide Policy.Decide, Prompts.Answer, Swept;
  }

  /** A fresh Allow/Once answer for this key. */
  predicate Grants(w: World, a: Action, key: PromptKey) {
    Fresh(w, a) && a.verdict.Allow? && a.scope.Once? && Replied(w, a).value.key == key
  }

  /** A decision that takes this key's once-allow token out, live or not. */
  predicate Spends(c: Config, w: World, a: Action, key: PromptKey) {
    && a.Decide?
    && var who := Attribute(w.tables.cache, c.limits.processes, a.event, a.proc).1;
       who.Ok? && KeyOf(who.value, a.event) == key && key in w.tables.prompts.onceAllows
  }

  lemma SweptAllows(q: Queue, now: nat, key: PromptKey)
    requires key in Swept(q, now).onceAllows
    ensures key in q.onceAllows && Swept(q, now).onceAllows[key] == q.onceAllows[key]
  {
    hide Kept, KeysOf, OverdueIds, Aged, PendingIds;
  }

  lemma AnswerTokens(q: Queue, id: nat, verdict: Verdict, scope: Scope, now: nat, later: nat, key: PromptKey)
    requires key in Prompts.Answer(q, id, verdict, scope, now, later).0.onceAllows
    ensures var (r, reply) := Prompts.Answer(q, id, verdict, scope, now, later);
            if reply.Ok? && !reply.value.duplicate && verdict.Allow? && scope.Once? && reply.value.key == key
            then r.onceAllows[key] == later
            else key in q.onceAllows && r.onceAllows[key] == q.onceAllows[key]
  {
    hide Swept;
    if key in Swept(q, now).onceAllows {
      SweptAllows(q, now, key);
    }
  }

  lemma DecideTokens(
    tb: Tables, rules: seq<Rule>, lim: Limits, e: Event, proc: Process.ProcRead, t: Readings, key: PromptKey)
    requires 0 < lim.recentPerKey
    requires key in Policy.Decide(tb, rules, lim, e, proc, t).0.prompts.onceAllows
    ensures key in tb.prompts.onceAllows
    ensures Policy.Decide(tb, rules, lim, e, proc, t).0.prompts.onceAllows[key] == tb.prompts.onceAllows[key]
    ensures var who := Attribute(tb.cache, lim.processes, e, proc).1; who.Ok? ==> KeyOf(who.value, e) != key
  {
    hide Attribute, DecideAttributed, Recent.Recorded;
    var who := Attribute(tb.cache, lim.processes, e, proc).1;
    if who.Ok? {
      AttributedTokens(tb.prompts, tb.dns, rules, who.value, e, t, key);
    }
  }

  lemma AttributedTokens(
    q: Queue, dns: Dns.Cache, rules: seq<Rule>, who: Process.Identity, e: Event, t: Readings, key: PromptKey)
    requires key in DecideAttributed(q, dns, rules, who, e, t).0.onceAllows
    ensures key in q.onceAllows && KeyOf(who, e) != key
    ensures DecideAttributed(q, dns, rules, who, e, t).0.onceAllows[key] == q.onceAllows[key]
  {
    hide TakeOnceAllow, ConsumeOnceDeny, Enqueue, Dns.NameOf, VerdictFor;
    var mine := KeyOf(who, e);
    var q1 := TakeOnceAllow(q, mine, t.token, t.check).0;
    var q2 := ConsumeOnceDeny(q1, mine, t.deny).0;
    StepTokens(q, mine, t.token, t.check, key);
    StepTokens(q1, mine, t.deny, t.deny, key);
    StepTokens(q2, mine, t.enqueue, t.create, key);
  }

  ghost predicate Carried(q: Queue, r: Queue, key: PromptKey) {
    key in r.onceAllows ==> key in q.onceAllows && r.onceAllows[key] == q.onceAllows[key]
  }

  lemma StepTokens(q: Queue, mine: PromptKey, now: nat, later: nat, key: PromptKey)
    ensures Carried(q, TakeOnceAllow(q, mine, now, later).0, key)
    ensures mine !in TakeOnceAllow(q, mine, now, later).0.onceAllows
    ensures Carried(q, ConsumeOnceDeny(q, mine, now).0, key)
    ensures Carried(q, Enqueue(q, mine, now, later).0, key)
  {
    hide Swept, Opened;
    OpenedAllows(Swept(q, now), mine, later);
    if key in Swept(q, now).onceAllows {
      SweptAllows(q, now, key);
    }
  }

  lemma OpenedAllows(s: Queue, key: PromptKey, later: nat)
    ensures Opened(s, key, later).onceAllows == s.onceAllows
  {
  }

  // ------------------------------------------------------------ provenance

  ghost predicate Stores(c: Config, acts: seq<Action>, m: nat, k: Pending.DestKey)
    requires 0 < c.limits.recentPerKey && m < |acts|
  {
    acts[m].Store? && At(c, acts, m).deciding.Some? && At(c, acts, m).deciding.value.key == k
  }

  ghost predicate Takes(c: Config, acts: seq<Action>, m: nat, k: Pending.DestKey)
    requires 0 < c.limits.recentPerKey && m < |acts|
  {
    var w := At(c, acts, m);
    acts[m].Attempt? && w.packet.Some? && w.packet.value.key == k && Lookup(c, w, acts[m]).1.Some?
  }

  /** No decision for `k` is stored or consumed strictly between `lo` and `hi`. */
  ghost predicate Undisturbed(c: Config, acts: seq<Action>, lo: nat, hi: nat, k: Pending.DestKey)
    requires 0 < c.limits.recentPerKey && hi <= |acts|
  {
    forall m :: lo < m < hi ==> !Stores(c, acts, m, k) && !Takes(c, acts, m, k)
  }

  /** A stored entry is the latest stored decision for its key and has not been consumed. */
  lemma {:induction false} PendingSource(c: Config, acts: seq<Action>, n: nat, k: Pending.DestKey) returns (s: nat)
    requires Run(c, acts) && n <= |acts| && k in At(c, acts, n).pending.entries
    ensures s < n && Stores(c, acts, s, k) && Undisturbed(c, acts, s, n, k)
    ensures At(c, acts, n).pending.entries[k] == Pending.Entry(At(c, acts, s).deciding.value.verdict, acts[s].later)
  {
    hide Run, Sane, Next, At, Enabled, Lookup;
    RunIsSane(c, acts);
    Start(c, acts);
    StepOf(c, acts, n - 1);
    PendingFrame(c, At(c, acts, n - 1), acts[n - 1], k);
    EnabledThreads(At(c, acts, n - 1), acts[n - 1]);
    if Stores(c, acts, n - 1, k) {
      s := n - 1;
    } else {
      s := PendingSource(c, acts, n - 1, k);
    }
  }

  /** Strictly between `lo` and `hi` the observer thread neither decides, stores nor loses a decision. */
  ghost predicate ObserverIdle(acts: seq<Action>, lo: nat, hi: nat)
    requires hi <= |acts|
  {
    forall m :: lo < m < hi ==> !acts[m].Decide? && !acts[m].Store? && !acts[m].Lose?
  }

  lemma {:induction false} DecidingSource(c: Config, acts: seq<Action>, n: nat) returns (i: nat)
    requires Run(c, acts) && n <= |acts| && At(c, acts, n).deciding.Some?
    ensures i < n && acts[i].Decide? && ObserverIdle(acts, i, n)
    ensures At(c, acts, n).deciding.value == DecisionAt(c, acts, i)
  {
    hide Run, Sane, Next, At, Enabled, Policy.Decide;
    RunIsSane(c, acts);
    Start(c, acts);
    StepOf(c, acts, n - 1);
    DecidingFrame(c, At(c, acts, n - 1), acts[n - 1]);
    if acts[n - 1].Decide? {
      i := n - 1;
    } else {
      i := DecidingSource(c, acts, n - 1);
    }
  }

  ghost predicate TokenIdle(c: Config, acts: seq<Action>, lo: nat, hi: nat, key: PromptKey)
    requires 0 < c.limits.recentPerKey && hi <= |acts|
  {
    forall m :: lo < m < hi ==> !Grants(At(c, acts, m), acts[m], key) && !Spends(c, At(c, acts, m), acts[m], key)
  }

  /** A token is the latest grant for its key and has not been spent. */
  lemma {:induction false} TokenSource(c: Config, acts: seq<Action>, n: nat, key: PromptKey) returns (h: nat)
    requires Run(c, acts) && n <= |acts| && key in At(c, acts, n).tables.prompts.onceAllows
    ensures h < n && Grants(At(c, acts, h), acts[h], key) && TokenIdle(c, acts, h, n, key)
    ensures At(c, acts, n).tables.prompts.onceAllows[key] == acts[h].later
  {
    hide Run, Sane, Next, At, Enabled, Grants, Spends;
    RunIsSane(c, acts);
    Start(c, acts);
    StepOf(c, acts, n - 1);
    TokenFrame(c, At(c, acts, n - 1), acts[n - 1], key);
    if Grants(At(c, acts, n - 1), acts[n - 1], key) {
      h := n - 1;
      GrantsIsAnswer(At(c, acts, n - 1), acts[n - 1], key);
    } else {
      h := TokenSource(c, acts, n - 1, key);
    }
  }

  lemma GrantsIsAnswer(w: World, a: Action, key: PromptKey)
    requires Grants(w, a, key)
    ensures a.Answer?
  {
  }
}

/** What every run of the pipeline guarantees about the packets it accepts. */
module FailClosed {
  import opened Wrappers
  import opened Collections
  import opened Rules
  import opened Prompts
  import opened Policy
  import opened Pipeline
  import Pending
  import Process
  import Dns
  import Ipc

  // ------------------------------------------------------------ state invariants along a run

  lemma {:induction false} ClockGrows(c: Config, acts: seq<Action>, m: nat, n: nat)
    requires Run(c, acts) && m <= n <= |acts| && Sane(c)
    ensures NotAfter(At(c, acts, m).clock, At(c, acts, n).clock)
    decreases n
  {
    hide Run, Sane, Next, At, Enabled;
    RunIsSane(c, acts);
    if m < n {
      ClockGrows(c, acts, m, n - 1);
      StepOf(c, acts, n - 1);
      ClockStep(c, At(c, acts, n - 1), acts[n - 1]);
    }
  }

  lemma ClockStep(c: Config, w: World, a: Action)
    requires Sane(c) && Enabled(w, a)
    ensures NotAfter(w.clock, Next(c, w, a).clock)
    ensures a.Store? ==> Next(c, w, a).clock.pending == a.later
    ensures a.Answer? ==> Next(c, w, a).clock.prompts == a.later
    ensures a.Attempt? ==> w.clock.pending <= a.now
    ensures a.Decide? ==> w.clock.prompts <= a.t.token
  {
    hide Policy.Decide, Prompts.Answer, Swept, Dns.Observed, Dns.Swept, Pending.Inserted, Pending.Taken,
         Ipc.Persisted, Ipc.Mutated;
  }

  lemma StartInvariants(c: Config, acts: seq<Action>)
    requires Sane(c)
    ensures var w := At(c, acts, 0);
            && WellFormed(w.rules) && Inv(w.tables.prompts) && w.tables.prompts.nextId == 1
            && w.tables.prompts.capacity == c.promptCapacity && w.tables.prompts.ttl == c.promptTtl
            && w.persisting == map[]
  {
    Start(c, acts);
    hide At;
  }

  lemma RulesStep(c: Config, w: World, a: Action)
    requires Sane(c) && Enabled(w, a) && WellFormed(w.rules)
    ensures WellFormed(Next(c, w, a).rules)
  {
    hide Policy.Decide, Prompts.Answer, Swept, Dns.Observed, Dns.Swept, Pending.Inserted, Pending.Taken, Ipc.Mutated;
    if a.Persist? {
      var r := Ipc.AnsweredRule(w.rules, w.persisting[a.id]);
      if Inserted(w.rules, r).Ok? {
        InsertKeepsWellFormed(w.rules, r);
      }
    }
    if a.Edit? {
      Ipc.MutatedKeepsWellFormed(w.rules, a.mutation);
    }
  }

  lemma {:induction false} RulesStayWellFormed(c: Config, acts: seq<Action>, n: nat)
    requires Run(c, acts) && n <= |acts| && Sane(c)
    ensures WellFormed(At(c, acts, n).rules)
  {
    hide Run, Sane, Next, At, Enabled, WellFormed;
    RunIsSane(c, acts);
    StartInvariants(c, acts);
    if n > 0 {
      RulesStayWellFormed(c, acts, n - 1);
      StepOf(c, acts, n - 1);
      RulesStep(c, At(c, acts, n - 1), acts[n - 1]);
    }
  }

  // ------------------------------------------------------------ the fail-closed theorem

  function NameAt(c: Config, acts: seq<Action>, i: nat): Option<string>
    requires 0 < c.limits.recentPerKey && i < |acts| && acts[i].Decide?
  {
    Dns.NameOf(At(c, acts, i).tables.dns, acts[i].event.ipv4, acts[i].t.dns).1
  }

  /** Decision `i` was attributed and rests on a live once-allow token, or on a top-precedence Allow rule. */
  ghost predicate Warranted(c: Config, acts: seq<Action>, i: nat)
    requires 0 < c.limits.recentPerKey && i < |acts| && acts[i].Decide?
  {
    var w, who := At(c, acts, i), WhoAt(c, acts, i);
    && who.Ok?
    && var key := KeyOf(who.value, acts[i].event);
       || TokenLive(w.tables.prompts, key, acts[i].t)
       || (!DenyLive(w.tables.prompts, key) &&
           RuleAllows(w.rules, ConnectionOf(who.value, acts[i].event, NameAt(c, acts, i))))
  }

  /** Step `n` accepted a packet on the strength of decision `i`, stored at step `s`. */
  ghost predicate Earned(c: Config, acts: seq<Action>, n: nat, s: nat, i: nat)
    requires 0 < c.limits.recentPerKey && n < |acts|
  {
    && i < s < n && acts[i].Decide? && acts[n].Attempt? && At(c, acts, n).packet.Some?
    && var k := At(c, acts, n).packet.value.key;
       && DecisionAt(c, acts, i).key == k && DecisionAt(c, acts, i).verdict.Accept? && DecisionAt(c, acts, i).attributed
       && Warranted(c, acts, i)
       && ObserverIdle(acts, i, s)
       && Stores(c, acts, s, k) && Undisturbed(c, acts, s, n, k)
       && acts[s].later <= acts[n].now <= acts[s].later + c.pendingTtl
       && Takes(c, acts, n, k)
  }

  lemma DecisionIsWarranted(c: Config, acts: seq<Action>, i: nat)
    requires Run(c, acts) && i < |acts| && acts[i].Decide? && 0 < c.limits.recentPerKey
    ensures DecisionAt(c, acts, i).verdict.Accept? <==> Warranted(c, acts, i)
    ensures DecisionAt(c, acts, i).key == DestOf(acts[i].event)
    ensures DecisionAt(c, acts, i).attributed <==> WhoAt(c, acts, i).Ok?
  {
    hide Run, Sane, At, Next, Enabled, Attribute, DecideAttributed, WellFormed, TokenLive, DenyLive, RuleAllows;
    RunIsSane(c, acts);
    StepOf(c, acts, i);
    EnabledThreads(At(c, acts, i), acts[i]);
    RulesStayWellFormed(c, acts, i);
    WellFormedIsUnique(At(c, acts, i).rules);
    var w, who := At(c, acts, i), WhoAt(c, acts, i);
    if who.Ok? {
      AcceptIffAllowed(w.tables.prompts, w.tables.dns, w.rules, who.value, acts[i].event, acts[i].t);
    }
  }

  lemma WellFormedIsUnique(rules: seq<Rule>)
    requires WellFormed(rules)
    ensures UniqueIds(rules)
  {
  }

  /** Only an attempt that takes a stored Accept makes the packet thread accept. */
  lemma AcceptTakes(c: Config, w: World, a: Action)
    requires Enabled(w, a)
    ensures Emitted(c, w, a) == Some(Pending.Accept) <==>
            a.Attempt? && var k := w.packet.value.key;
            && k in w.pending.entries && w.pending.entries[k].verdict.Accept?
            && a.now <= w.pending.entries[k].insertedAt + c.pendingTtl
    ensures Emitted(c, w, a) == Some(Pending.Accept) ==> w.packet.Some? && Lookup(c, w, a).1.Some?
  {
    if a.Attempt? {
      Pending.TakeIsFresh(w.pending, c.pendingTtl, w.packet.value.key, a.now);
    }
    hide Pending.Taken;
  }

  /**
   Fail closed: in every run, each Accept the packet thread returns consumes an earlier decision for
   that packet's destination, stored within the TTL and warranted when it was made.
   */
  lemma AcceptIsEarned(c: Config, acts: seq<Action>, n: nat) returns (s: nat, i: nat)
    requires Run(c, acts) && n < |acts| && 0 < c.limits.recentPerKey && Enabled(At(c, acts, n), acts[n])
    requires Emitted(c, At(c, acts, n), acts[n]) == Some(Pending.Accept)
    ensures Earned(c, acts, n, s, i)
  {
    hide Run, Sane, At, Next, Enabled, Emitted, Lookup, DecisionAt, Warranted, Stores, Undisturbed;
    RunIsSane(c, acts);
    AcceptTakes(c, At(c, acts, n), acts[n]);
    var k := At(c, acts, n).packet.value.key;
    s := PendingSource(c, acts, n, k);
    StoreThread(c, acts, s, k);
    i := DecidingSource(c, acts, s);
    DecisionIsWarranted(c, acts, i);
    AttributedIfWarranted(c, acts, i);
    ClockGrows(c, acts, s + 1, n);
    StepOf(c, acts, s);
    ClockStep(c, At(c, acts, s), acts[s]);
    ClockStep(c, At(c, acts, n), acts[n]);
  }

  lemma AttributedIfWarranted(c: Config, acts: seq<Action>, i: nat)
    requires 0 < c.limits.recentPerKey && i < |acts| && acts[i].Decide?
    ensures Warranted(c, acts, i) ==> WhoAt(c, acts, i).Ok?
  {
    hide At;
  }

  lemma StoreThread(c: Config, acts: seq<Action>, s: nat, k: Pending.DestKey)
    requires 0 < c.limits.recentPerKey && s < |acts| && Stores(c, acts, s, k)
    ensures acts[s].Store? && At(c, acts, s).deciding.Some? && At(c, acts, s).deciding.value.key == k
  {
    hide At;
  }

  /** No decision is spent twice: two accepted packets rest on different stores of different decisions. */
  lemma AcceptsAreDistinct(c: Config, acts: seq<Action>, n: nat, n': nat) returns (s: nat, i: nat, s': nat, i': nat)
    requires Run(c, acts) && n < n' < |acts| && 0 < c.limits.recentPerKey
    requires Enabled(At(c, acts, n), acts[n]) && Enabled(At(c, acts, n'), acts[n'])
    requires Emitted(c, At(c, acts, n), acts[n]) == Some(Pending.Accept)
    requires Emitted(c, At(c, acts, n'), acts[n']) == Some(Pending.Accept)
    ensures Earned(c, acts, n, s, i) && Earned(c, acts, n', s', i')
    ensures s != s' && i != i'
  {
    hide Run, Sane, At, Next, Enabled, Emitted, Warranted, DecisionAt, Lookup;
    s, i := AcceptIsEarned(c, acts, n);
    s', i' := AcceptIsEarned(c, acts, n');
  }

  // ------------------------------------------------------------ once-tokens

  /** Decision `i` spent the once-allow token that answer `h` granted, while it was fresh. */
  ghost predicate Bought(c: Config, acts: seq<Action>, i: nat, h: nat)
    requires 0 < c.limits.recentPerKey && i < |acts| && acts[i].Decide?
  {
    && h < i && WhoAt(c, acts, i).Ok?
    && var key := KeyOf(WhoAt(c, acts, i).value, acts[i].event);
       && Grants(At(c, acts, h), acts[h], key)
       && Spends(c, At(c, acts, i), acts[i], key)
       && TokenIdle(c, acts, h, i, key)
       && acts[h].later <= acts[i].t.check <= acts[h].later + c.promptTtl
  }

  /** Every decision that rests on a token rests on one fresh Allow/Once answer for its key. */
  lemma TokenIsBought(c: Config, acts: seq<Action>, i: nat) returns (h: nat)
    requires Run(c, acts) && i < |acts| && acts[i].Decide? && 0 < c.limits.recentPerKey && WhoAt(c, acts, i).Ok?
    requires TokenLive(At(c, acts, i).tables.prompts, KeyOf(WhoAt(c, acts, i).value, acts[i].event), acts[i].t)
    ensures Bought(c, acts, i, h)
  {
    hide Run, Sane, At, Next, Enabled, Grants, Attribute, Inv, TokenIdle;
    RunIsSane(c, acts);
    var key := KeyOf(WhoAt(c, acts, i).value, acts[i].event);
    h := TokenSource(c, acts, i, key);
    GrantsIsAnswer(At(c, acts, h), acts[h], key);
    PromptsKeep(c, acts, i);
    AnsweredBefore(c, acts, h, i);
  }

  /** A decision checks its token no earlier than any answer before it was given. */
  lemma AnsweredBefore(c: Config, acts: seq<Action>, h: nat, i: nat)
    requires Run(c, acts) && h < i < |acts| && acts[h].Answer? && acts[i].Decide?
    ensures acts[h].later <= acts[i].t.check
  {
    hide Run, Sane, At, Next, Enabled;
    RunIsSane(c, acts);
    ClockGrows(c, acts, h + 1, i);
    StepOf(c, acts, h);
    ClockStep(c, At(c, acts, h), acts[h]);
    StepOf(c, acts, i);
    ClockStep(c, At(c, acts, i), acts[i]);
    EnabledThreads(At(c, acts, i), acts[i]);
  }

  predicate RestsOnToken(c: Config, acts: seq<Action>, i: nat)
    requires 0 < c.limits.recentPerKey && i < |acts| && acts[i].Decide?
  {
    var who := WhoAt(c, acts, i);
    who.Ok? && TokenLive(At(c, acts, i).tables.prompts, KeyOf(who.value, acts[i].event), acts[i].t)
  }

  /** One fresh Allow/Once answer buys at most one decision. */
  lemma AnswersBuyOnce(c: Config, acts: seq<Action>, i: nat, i': nat) returns (h: nat, h': nat)
    requires Run(c, acts) && i < i' < |acts| && acts[i].Decide? && acts[i'].Decide? && 0 < c.limits.recentPerKey
    requires RestsOnToken(c, acts, i) && RestsOnToken(c, acts, i')
    ensures Bought(c, acts, i, h) && Bought(c, acts, i', h')
    ensures h != h'
  {
    hide Run, At, WhoAt, TokenLive;
    h := TokenIsBought(c, acts, i);
    h' := TokenIsBought(c, acts, i');
  }

  /** One fresh Allow/Once answer buys at most one accepted packet, and the decision in between keeps its TTL. */
  lemma AnswerBuysOneAccept(c: Config, acts: seq<Action>, n: nat, n': nat)
    returns (s: nat, i: nat, h: nat, s': nat, i': nat, h': nat)
    requires Run(c, acts) && n < n' < |acts| && 0 < c.limits.recentPerKey
    requires Enabled(At(c, acts, n), acts[n]) && Enabled(At(c, acts, n'), acts[n'])
    requires Emitted(c, At(c, acts, n), acts[n]) == Some(Pending.Accept)
    requires Emitted(c, At(c, acts, n'), acts[n']) == Some(Pending.Accept)
    ensures Earned(c, acts, n, s, i) && Earned(c, acts, n', s', i')
    ensures RestsOnToken(c, acts, i) ==> Bought(c, acts, i, h)
    ensures RestsOnToken(c, acts, i') ==> Bought(c, acts, i', h')
    ensures RestsOnToken(c, acts, i) && RestsOnToken(c, acts, i') ==> h != h'
  {
    s, i, s', i' := AcceptsAreDistinct(c, acts, n, n');
    EarnedOrder(c, acts, n, s, i);
    EarnedOrder(c, acts, n', s', i');
    hide Run, At, WhoAt, TokenLive, Earned, Bought, Emitted, Enabled;
    h, h' := 0, 0;
    if RestsOnToken(c, acts, i) && RestsOnToken(c, acts, i') {
      if i < i' {
        h, h' := AnswersBuyOnce(c, acts, i, i');
      } else {
        h', h := AnswersBuyOnce(c, acts, i', i);
      }
    } else if RestsOnToken(c, acts, i) {
      h := TokenIsBought(c, acts, i);
    } else if RestsOnToken(c, acts, i') {
      h' := TokenIsBought(c, acts, i');
    }
  }

  lemma EarnedOrder(c: Config, acts: seq<Action>, n: nat, s: nat, i: nat)
    requires 0 < c.limits.recentPerKey && n < |acts| && Earned(c, acts, n, s, i)
    ensures i < n && acts[i].Decide?
  {
    hide At, Warranted, DecisionAt;
  }

  // ------------------------------------------------------------ prompts along a run

  lemma PromptStep(c: Config, w: World, a: Action)
    requires Sane(c) && Enabled(w, a) && Inv(w.tables.prompts) && w.tables.prompts.nextId < U64_MAX
    ensures Inv(Next(c, w, a).tables.prompts) && Framed(w.tables.prompts, Next(c, w, a).tables.prompts)
    ensures SettledStays(w.tables.prompts, Next(c, w, a).tables.prompts)
  {
    hide Policy.Decide, Prompts.Answer, Swept, Dns.Observed, Dns.Swept, Pending.Inserted, Pending.Taken,
         Ipc.Persisted, Ipc.Mutated, Inv, Framed;
    var q := w.tables.prompts;
    match a
    case Decide(e, proc, t) => DecideStep(w.tables, w.rules, c.limits, e, proc, t);
    case Answer(id, verdict, scope, now, later) =>
      AnswerKeeps(q, id, verdict, scope, now, later);
      AnswerKeepsSettled(q, id, verdict, scope, now, later);
      AnswerFrame(q, id, verdict, scope, now, later);
    case ListPrompts(now) => SweptStep(q, now);
    case _ => FramedRefl(q);
  }

  lemma FramedRefl(q: Queue)
    ensures Framed(q, q)
  {
  }

  lemma AnswerFrame(q: Queue, id: nat, verdict: Verdict, scope: Scope, now: nat, later: nat)
    ensures Framed(q, Prompts.Answer(q, id, verdict, scope, now, later).0)
  {
    SweptTokens(q, now);
    hide Swept;
  }

  lemma SweptStep(q: Queue, now: nat)
    requires Inv(q)
    ensures Inv(Swept(q, now)) && Framed(q, Swept(q, now)) && SettledStays(q, Swept(q, now))
  {
    SweptTokens(q, now);
    SweptCore(q, now);
    SweptKeepsSettled(q, now);
    hide Swept, Core, OneRole;
  }

  lemma DecideStep(tb: Tables, rules: seq<Rule>, lim: Limits, e: Event, proc: Process.ProcRead, t: Readings)
    requires 0 < lim.recentPerKey && Inv(tb.prompts) && tb.prompts.nextId < U64_MAX
    ensures var q := Policy.Decide(tb, rules, lim, e, proc, t).0.prompts;
            Inv(q) && Framed(tb.prompts, q) && SettledStays(tb.prompts, q)
  {
    hide Attribute, DecideAttributed, Inv;
    var who := Attribute(tb.cache, lim.processes, e, proc).1;
    if who.Ok? {
      DecideKeepsPrompts(tb.prompts, tb.dns, rules, who.value, e, t);
      DecideSettled(tb.prompts, tb.dns, rules, who.value, e, t);
    }
  }

  lemma DecideSettled(q: Queue, dns: Dns.Cache, rules: seq<Rule>, who: Process.Identity, e: Event, t: Readings)
    requires Inv(q)
    ensures SettledStays(q, DecideAttributed(q, dns, rules, who, e, t).0)
    ensures q.nextId <= DecideAttributed(q, dns, rules, who, e, t).0.nextId
  {
    hide TakeOnceAllow, ConsumeOnceDeny, Enqueue, Inv, Dns.NameOf, VerdictFor;
    var key := KeyOf(who, e);
    var q1 := TakeOnceAllow(q, key, t.token, t.check).0;
    var q2 := ConsumeOnceDeny(q1, key, t.deny).0;
    TakeOnceAllowKeeps(q, key, t.token, t.check);
    ConsumeOnceDenyKeeps(q1, key, t.deny);
    TokensKeepSettled(q, key, t.token, t.check);
    TokensKeepSettled(q1, key, t.deny, t.deny);
    EnqueueStep(q2, key, t.enqueue, t.create);
  }

  lemma EnqueueStep(q: Queue, key: PromptKey, now: nat, later: nat)
    requires Inv(q)
    ensures SettledStays(q, Enqueue(q, key, now, later).0) && q.nextId <= Enqueue(q, key, now, later).0.nextId
  {
    EnqueueKeepsSettled(q, key, now, later);
    SweptTokens(q, now);
    hide Swept, SettledStays;
  }

  /**
   In every run the prompt queue keeps its invariant: `pending_by_key` is the inverse of the Pending
   prompts, every Pending id is queued in id order, the bound holds, and no key has two roles.
   */
  lemma {:induction false} PromptsKeep(c: Config, acts: seq<Action>, n: nat)
    requires Run(c, acts) && n <= |acts| && 0 < c.limits.recentPerKey
    ensures var q := At(c, acts, n).tables.prompts;
            Inv(q) && q.nextId <= n + 1 && q.capacity == c.promptCapacity && q.ttl == c.promptTtl
  {
    hide Run, Sane, At, Next, Enabled, Inv;
    RunIsSane(c, acts);
    StartInvariants(c, acts);
    RunIsShort(c, acts);
    if n > 0 {
      PromptsKeep(c, acts, n - 1);
      StepOf(c, acts, n - 1);
      PromptStep(c, At(c, acts, n - 1), acts[n - 1]);
    }
  }

  lemma RunIsShort(c: Config, acts: seq<Action>)
    requires Run(c, acts)
    ensures |acts| < U64_MAX - 1
  {
    hide At, Enabled;
  }

  /** An id leaves Pending at most once: from then on its state, verdict and scope are fixed. */
  lemma {:induction false} SettledForever(c: Config, acts: seq<Action>, m: nat, n: nat, id: nat)
    requires Run(c, acts) && m <= n <= |acts| && 0 < c.limits.recentPerKey
    requires id in At(c, acts, m).tables.prompts.prompts && !At(c, acts, m).tables.prompts.prompts[id].state.Pending?
    ensures id in At(c, acts, n).tables.prompts.prompts
    ensures At(c, acts, n).tables.prompts.prompts[id] == At(c, acts, m).tables.prompts.prompts[id]
    decreases n
  {
    hide Run, Sane, At, Next, Enabled, Inv;
    if m < n {
      RunIsSane(c, acts);
      RunIsShort(c, acts);
      SettledForever(c, acts, m, n - 1, id);
      PromptsKeep(c, acts, n - 1);
      StepOf(c, acts, n - 1);
      PromptStep(c, At(c, acts, n - 1), acts[n - 1]);
    }
  }
}

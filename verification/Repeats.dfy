/**
 Steps that leave no trace: a repeated answer, or a listing of the prompts, only sweeps what the next use of the queue
 would sweep anyway, so a run without it decides and accepts the same.
 */
module Repeats {
  import opened Wrappers
  import opened Collections
  import opened Rules
  import opened Prompts
  import opened Policy
  import opened Pipeline
  import opened FailClosed
  import opened Lifecycle
  import Pending
  import Process
  import Dns
  import Recent
  import Packet
  import Ipc

  // ------------------------------------------------------------ sweeping twice

  lemma {:induction false} KeptTwice<T(!new)>(s: seq<T>, a: set<T>, b: set<T>)
    requires b <= a
    ensures Kept(Kept(s, a), b) == Kept(s, b)
  {
    if s != [] {
      KeptTwice(s[1..], a, b);
      var tail := Kept(s[1..], a);
      assert ([s[0]] + tail)[1..] == tail;
    }
  }

  lemma AgedTwice(prompts: map<nat, Prompt>, now: nat, later: nat)
    requires now <= later
    ensures Aged(Aged(prompts, now), later) == Aged(prompts, later)
    ensures PendingIds(Aged(prompts, later)) <= PendingIds(Aged(prompts, now))
  {
  }

  /** The keys that two sweeps release are those that the later one alone releases. */
  lemma KeysReleased(prompts: map<nat, Prompt>, now: nat, later: nat)
    requires now <= later
    ensures var aged := Aged(prompts, now);
            KeysOf(prompts, OverdueIds(prompts, now)) + KeysOf(aged, OverdueIds(aged, later)) ==
            KeysOf(prompts, OverdueIds(prompts, later))
  {
    var first, rest, all := OverdueIds(prompts, now), OverdueIds(Aged(prompts, now), later), OverdueIds(prompts, later);
    assert all == first + rest;
    forall key ensures key in KeysOf(Aged(prompts, now), rest) <==> key in KeysOf(prompts, rest) {
      if key in KeysOf(Aged(prompts, now), rest) {
        var id :| id in rest && id in prompts && Aged(prompts, now)[id].key == key;
        assert prompts[id].key == key;
      }
      if key in KeysOf(prompts, rest) {
        var id :| id in rest && id in prompts && prompts[id].key == key;
        assert Aged(prompts, now)[id].key == key;
      }
    }
    assert KeysOf(prompts, first) + KeysOf(prompts, rest) == KeysOf(prompts, first + rest);
  }

  /** An earlier sweep makes no difference to a later one. */
  lemma SweptTwice(q: Queue, now: nat, later: nat)
    requires now <= later
    ensures Swept(Swept(q, now), later) == Swept(q, later)
  {
    AgedTwice(q.prompts, now, later);
    KeysReleased(q.prompts, now, later);
    KeptTwice(q.order, PendingIds(Aged(q.prompts, now)), PendingIds(Aged(q.prompts, later)));
    var tokens := q.onceAllows;
    assert FreshTokens(FreshTokens(tokens, q.ttl, now), q.ttl, later) == FreshTokens(tokens, q.ttl, later);
    hide Kept, KeysOf, Aged, FreshTokens, OverdueIds, PendingIds;
    var s := Swept(q, now);
    var first, rest := KeysOf(q.prompts, OverdueIds(q.prompts, now)), KeysOf(s.prompts, OverdueIds(s.prompts, later));
    assert q.pendingByKey - first - rest == q.pendingByKey - (first + rest);
  }

  /** Each operation on the queue sweeps first, so it gives the same from the queue swept before. */
  lemma OperationsIgnoreSweep(q: Queue, t: nat, key: PromptKey, now: nat, later: nat)
    requires t <= now
    ensures TakeOnceAllow(Swept(q, t), key, now, later) == TakeOnceAllow(q, key, now, later)
  {
    SweptTwice(q, t, now);
    SweptTokens(q, t);
    hide Swept;
  }

  lemma AnswerIgnoresSweep(q: Queue, t: nat, id: nat, verdict: Verdict, scope: Scope, now: nat, later: nat)
    requires t <= now
    ensures Prompts.Answer(Swept(q, t), id, verdict, scope, now, later) ==
            Prompts.Answer(q, id, verdict, scope, now, later)
  {
    SweptTwice(q, t, now);
    hide Swept, Settled;
  }

  /** A decision, and all it leaves behind, is the same from the queue swept before its first reading. */
  lemma DecisionIgnoresSweep(
    q: Queue, swept: nat, dns: Dns.Cache, rules: seq<Rule>, who: Process.Identity, e: Event, t: Readings)
    requires swept <= t.token
    ensures DecideAttributed(Swept(q, swept), dns, rules, who, e, t) == DecideAttributed(q, dns, rules, who, e, t)
  {
    OperationsIgnoreSweep(q, swept, KeyOf(who, e), t.token, t.check);
    hide Swept, TakeOnceAllow, ConsumeOnceDeny, Enqueue, Dns.NameOf, VerdictFor;
  }

  // ------------------------------------------------------------ worlds that differ by a sweep

  /** The same queue, or one that was swept at `t`. */
  ghost predicate SameUpToSweep(p: Queue, q: Queue, t: nat) {
    p == q || p == Swept(q, t)
  }

  /** `w` is `v` except that its prompts may have been swept at `t`, and its prompts clock may have moved on. */
  ghost predicate Alike(w: World, v: World, t: nat) {
    && w == v.(clock := v.clock.(prompts := w.clock.prompts), tables := v.tables.(prompts := w.tables.prompts))
    && v.clock.prompts <= w.clock.prompts && t <= w.clock.prompts
    && SameUpToSweep(w.tables.prompts, v.tables.prompts, t)
  }

  lemma AlikeEnabled(w: World, v: World, a: Action, t: nat)
    requires Alike(w, v, t) && Enabled(w, a)
    ensures Enabled(v, a)
  {
    hide SameUpToSweep;
  }

  /** The packet thread sees the same table and gives the same verdict. */
  lemma AlikeEmits(c: Config, w: World, v: World, a: Action, t: nat)
    requires Alike(w, v, t) && Enabled(w, a)
    ensures Enabled(v, a) && Emitted(c, w, a) == Emitted(c, v, a)
  {
    hide SameUpToSweep, Pending.Taken, Packet.TcpDestination;
    AlikeEnabled(w, v, a, t);
  }

  lemma AlikeDecides(
    tb: Tables, ub: Tables, swept: nat, rules: seq<Rule>, lim: Limits, e: Event, proc: Process.ProcRead, t: Readings)
    requires 0 < lim.recentPerKey && swept <= t.token
    requires tb == ub.(prompts := tb.prompts) && SameUpToSweep(tb.prompts, ub.prompts, swept)
    ensures var (after, d), (after', d') :=
              Policy.Decide(tb, rules, lim, e, proc, t), Policy.Decide(ub, rules, lim, e, proc, t);
            && d == d' && after == after'.(prompts := after.prompts)
            && SameUpToSweep(after.prompts, after'.prompts, swept)
  {
    hide Swept, DecideAttributed, Attribute, Recent.Recorded;
    var who := Attribute(ub.cache, lim.processes, e, proc).1;
    if who.Ok? {
      DecisionIgnoresSweep(ub.prompts, swept, ub.dns, rules, who.value, e, t);
    }
  }

  lemma AlikeAnswers(w: World, v: World, a: Action, t: nat)
    requires Alike(w, v, t) && Enabled(w, a) && a.Answer?
    ensures Prompts.Answer(w.tables.prompts, a.id, a.verdict, a.scope, a.now, a.later) ==
            Prompts.Answer(v.tables.prompts, a.id, a.verdict, a.scope, a.now, a.later)
  {
    AnswerIgnoresSweep(v.tables.prompts, t, a.id, a.verdict, a.scope, a.now, a.later);
    hide Swept, Prompts.Answer;
  }

  lemma AlikeDecideStep(c: Config, w: World, v: World, a: Action, t: nat)
    requires Sane(c) && Alike(w, v, t) && Enabled(w, a) && Enabled(v, a) && a.Decide?
    ensures Alike(Next(c, w, a), Next(c, v, a), t)
  {
    hide Policy.Decide, SameUpToSweep;
    AlikeDecides(w.tables, v.tables, t, w.rules, c.limits, a.event, a.proc, a.t);
  }

  lemma AlikeAnswerStep(c: Config, w: World, v: World, a: Action, t: nat)
    requires Sane(c) && Alike(w, v, t) && Enabled(w, a) && Enabled(v, a) && a.Answer?
    ensures Alike(Next(c, w, a), Next(c, v, a), t)
  {
    AlikeAnswers(w, v, a, t);
    hide Prompts.Answer, Swept;
  }

  lemma AlikeListStep(c: Config, w: World, v: World, a: Action, t: nat)
    requires Sane(c) && Alike(w, v, t) && Enabled(w, a) && Enabled(v, a) && a.ListPrompts?
    ensures Alike(Next(c, w, a), Next(c, v, a), t)
  {
    SweptTwice(v.tables.prompts, t, a.now);
    hide Swept;
  }

  /** Every step keeps worlds alike. */
  lemma AlikeStep(c: Config, w: World, v: World, a: Action, t: nat)
    requires Sane(c) && Alike(w, v, t) && Enabled(w, a)
    ensures Enabled(v, a) && Alike(Next(c, w, a), Next(c, v, a), t)
  {
    AlikeEnabled(w, v, a, t);
    if a.Decide? {
      hide *;
      AlikeDecideStep(c, w, v, a, t);
    } else if a.Answer? {
      hide *;
      AlikeAnswerStep(c, w, v, a, t);
    } else if a.ListPrompts? {
      hide *;
      AlikeListStep(c, w, v, a, t);
    } else {
      hide SameUpToSweep, Dns.Observed, Dns.Swept, Pending.Inserted, Pending.Taken, Ipc.Persisted, Ipc.Mutated,
           Packet.TcpDestination;
    }
  }

  // ------------------------------------------------------------ leaving a step out

  /** The run without its step `n`. */
  function Omitting(acts: seq<Action>, n: nat): (r: seq<Action>)
    requires n < |acts|
    ensures |r| == |acts| - 1
  {
    acts[..n] + acts[n + 1..]
  }

  lemma {:induction false} SamePast(c: Config, acts: seq<Action>, n: nat, k: nat)
    requires 0 < c.limits.recentPerKey && k <= n < |acts|
    ensures At(c, Omitting(acts, n), k) == At(c, acts, k)
  {
    hide Next, Enabled;
    if k > 0 {
      SamePast(c, acts, n, k - 1);
      assert Omitting(acts, n)[k - 1] == acts[k - 1];
    }
  }

  /** If step `n` only sweeps, every later world is alike without it. */
  lemma {:induction false} StayAlike(c: Config, acts: seq<Action>, n: nat, k: nat, t: nat)
    requires Run(c, acts) && 0 < c.limits.recentPerKey && n < k <= |acts|
    requires Alike(At(c, acts, n + 1), At(c, acts, n), t)
    ensures Alike(At(c, acts, k), At(c, Omitting(acts, n), k - 1), t)
    decreases k
  {
    hide Run, Sane, At, Next, Enabled, Alike;
    RunIsSane(c, acts);
    if k == n + 1 {
      SamePast(c, acts, n, n);
    } else {
      var rest := Omitting(acts, n);
      StayAlike(c, acts, n, k - 1, t);
      assert rest[k - 2] == acts[k - 1];
      StepOf(c, acts, k - 1);
      AlikeStep(c, At(c, acts, k - 1), At(c, rest, k - 2), acts[k - 1], t);
      StepTaken(c, rest, k - 2);
    }
  }

  lemma StepTaken(c: Config, acts: seq<Action>, n: nat)
    requires 0 < c.limits.recentPerKey && n < |acts| && Enabled(At(c, acts, n), acts[n])
    ensures At(c, acts, n + 1) == Next(c, At(c, acts, n), acts[n])
  {
    hide Next, Enabled;
  }

  /** The rest of the run is a run, and from step `n` on it decides and answers packets as the whole one does. */
  ghost predicate Invisible(c: Config, acts: seq<Action>, n: nat)
    requires 0 < c.limits.recentPerKey && n < |acts|
  {
    && Run(c, Omitting(acts, n))
    && forall k :: n < k < |acts| ==> Unchanged(c, acts, n, k)
  }

  /** Step `k` does the same without step `n`: it can be taken, on the same rules and pending verdicts, with the same
      decision and the same verdict for a packet. */
  ghost predicate Unchanged(c: Config, acts: seq<Action>, n: nat, k: nat)
    requires 0 < c.limits.recentPerKey && n < k < |acts|
  {
    var rest := Omitting(acts, n);
    var w, v := At(c, acts, k), At(c, rest, k - 1);
    && rest[k - 1] == acts[k] && Enabled(v, acts[k]) && v.rules == w.rules && v.pending == w.pending
    && (acts[k].Decide? ==> DecisionAt(c, rest, k - 1) == DecisionAt(c, acts, k))
    && (Enabled(w, acts[k]) ==> Emitted(c, v, acts[k]) == Emitted(c, w, acts[k]))
  }

  lemma AlikeUnchanged(c: Config, acts: seq<Action>, n: nat, k: nat, t: nat)
    requires Run(c, acts) && 0 < c.limits.recentPerKey && n < k < |acts|
    requires Alike(At(c, acts, n + 1), At(c, acts, n), t)
    ensures Enabled(At(c, Omitting(acts, n), k - 1), acts[k]) && Unchanged(c, acts, n, k)
  {
    hide Run, Sane, At, Next, Enabled, Emitted, Policy.Decide, SameUpToSweep;
    RunIsSane(c, acts);
    StepOf(c, acts, k);
    StayAlike(c, acts, n, k, t);
    var rest := Omitting(acts, n);
    var w, v := At(c, acts, k), At(c, rest, k - 1);
    assert rest[k - 1] == acts[k];
    AlikeEmits(c, w, v, acts[k], t);
    if acts[k].Decide? {
      DecideAfterSweep(w, acts[k], t);
      AlikeDecides(w.tables, v.tables, t, w.rules, c.limits, acts[k].event, acts[k].proc, acts[k].t);
    }
  }

  lemma DecideAfterSweep(w: World, a: Action, t: nat)
    requires Enabled(w, a) && a.Decide? && t <= w.clock.prompts
    ensures t <= a.t.token
  {
  }

  lemma SweepIsInvisible(c: Config, acts: seq<Action>, n: nat, t: nat)
    requires Run(c, acts) && 0 < c.limits.recentPerKey && n < |acts|
    requires Alike(At(c, acts, n + 1), At(c, acts, n), t)
    ensures Invisible(c, acts, n)
  {
    hide Sane, At, Next, Enabled, Alike, Unchanged;
    RunIsSane(c, acts);
    var rest := Omitting(acts, n);
    forall k | n < k < |acts| ensures Unchanged(c, acts, n, k) {
      AlikeUnchanged(c, acts, n, k, t);
    }
    forall j | 0 <= j < |rest| ensures Enabled(At(c, rest, j), rest[j]) {
      if j < n {
        SamePast(c, acts, n, j);
        assert rest[j] == acts[j];
      } else {
        AlikeUnchanged(c, acts, n, j + 1, t);
        assert rest[j] == acts[j + 1];
      }
    }
  }

  /**
   Repeating an answer changes nothing: leave the repetition out of any run, and the rest is a run in which every
   later decision, every later packet verdict, the rules and the pending verdicts are the same.
   */
  lemma RepeatIsInvisible(c: Config, acts: seq<Action>, m: nat, n: nat)
    requires Run(c, acts) && m < n < |acts| && 0 < c.limits.recentPerKey
    requires acts[m].Answer? && acts[n].Answer? && acts[m].id == acts[n].id && Fresh(At(c, acts, m), acts[m])
    ensures Invisible(c, acts, n)
  {
    hide Run, Sane, At, Next, Swept, Invisible, Fresh, Replied;
    RunIsSane(c, acts);
    RepeatsFirstAnswer(c, acts, m, n);
    StepOf(c, acts, n);
    SweepIsInvisible(c, acts, n, acts[n].now);
  }

  /** So does listing the prompts. */
  lemma ListingIsInvisible(c: Config, acts: seq<Action>, n: nat)
    requires Run(c, acts) && n < |acts| && 0 < c.limits.recentPerKey && acts[n].ListPrompts?
    ensures Invisible(c, acts, n)
  {
    hide Run, Sane, At, Swept, Invisible;
    RunIsSane(c, acts);
    StepOf(c, acts, n);
    SweepIsInvisible(c, acts, n, acts[n].now);
  }
}

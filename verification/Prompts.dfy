/** Bounded prompt lifecycle: ids, expiry, dedupe, idempotent answers, once-tokens (prompts.rs). */
module Prompts {
  import opened Wrappers
  import opened Collections
  import opened Rules

  datatype PromptKey = PromptKey(executable: string, ipv4: nat, port: nat)
  datatype PromptState = Pending | Answered | Expired

  datatype Prompt = Prompt(
    id: nat, key: PromptKey, state: PromptState, createdAt: nat, expiresAt: nat,
    answerVerdict: Option<Verdict>, answerScope: Option<Scope>)

  datatype EnqueueOutcome = Created(id: nat) | Deduped(id: nat) | Full
  datatype Reply = Reply(id: nat, key: PromptKey, verdict: Verdict, scope: Scope, duplicate: bool)
  datatype AnswerError = NotFound | PromptExpired

  datatype Queue = Queue(
    capacity: nat, ttl: nat, nextId: nat, order: seq<nat>,
    prompts: map<nat, Prompt>, pendingByKey: map<PromptKey, nat>,
    onceAllows: map<PromptKey, nat>, onceDenies: set<PromptKey>)

  function Empty(capacity: nat, ttl: nat): Queue {
    Queue(capacity, ttl, 1, [], map[], map[], map[], {})
  }

  // ------------------------------------------------------------ operations

  predicate Overdue(p: Prompt, now: nat) {
    p.state.Pending? && now > p.expiresAt
  }

  function OverdueIds(prompts: map<nat, Prompt>, now: nat): set<nat> {
    set id | id in prompts && Overdue(prompts[id], now)
  }

  function KeysOf(prompts: map<nat, Prompt>, ids: set<nat>): set<PromptKey> {
    set id | id in ids && id in prompts :: prompts[id].key
  }

  function PendingIds(prompts: map<nat, Prompt>): set<nat> {
    set id | id in prompts && prompts[id].state.Pending?
  }

  function Aged(prompts: map<nat, Prompt>, now: nat): map<nat, Prompt> {
    map id | id in prompts :: if Overdue(prompts[id], now) then prompts[id].(state := Expired) else prompts[id]
  }

  function FreshTokens(tokens: map<PromptKey, nat>, ttl: nat, now: nat): map<PromptKey, nat> {
    map k | k in tokens && now <= tokens[k] + ttl :: tokens[k]
  }

  /** `expire` with the clock at `now`. */
  function Swept(q: Queue, now: nat): Queue {
    var prompts := Aged(q.prompts, now);
    q.(prompts := prompts,
       pendingByKey := q.pendingByKey - KeysOf(q.prompts, OverdueIds(q.prompts, now)),
       order := Kept(q.order, PendingIds(prompts)),
       onceAllows := FreshTokens(q.onceAllows, q.ttl, now),
       onceDenies := if |q.onceDenies| > q.capacity then {} else q.onceDenies)
  }

  /** `take_once_allow`: expiry at `now`, then the token's age is checked again at `later`. */
  function TakeOnceAllow(q: Queue, key: PromptKey, now: nat, later: nat): (Queue, bool) {
    var s := Swept(q, now);
    (s.(onceAllows := s.onceAllows - {key}), key in s.onceAllows && later <= s.onceAllows[key] + q.ttl)
  }

  function ConsumeOnceDeny(q: Queue, key: PromptKey, now: nat): (Queue, bool) {
    var s := Swept(q, now);
    (s.(onceDenies := s.onceDenies - {key}), key in s.onceDenies)
  }

  function Enqueue(q: Queue, key: PromptKey, now: nat, later: nat): (Queue, EnqueueOutcome) {
    var s := Swept(q, now);
    if key in s.pendingByKey then (s, Deduped(s.pendingByKey[key]))
    else if |s.pendingByKey| >= s.capacity then (s, Full)
    else
      (Opened(s, key, later), Created(s.nextId))
  }

  /** The queue with a new Pending prompt for `key`. */
  function Opened(s: Queue, key: PromptKey, later: nat): Queue {
    var id := s.nextId;
    var p := Prompt.Prompt(id, key, Pending, later, later + s.ttl, None, None);
    s.(nextId := SaturatingInc(id), prompts := s.prompts[id := p], order := s.order + [id],
       pendingByKey := s.pendingByKey[key := id])
  }

  function Answer(q: Queue, id: nat, verdict: Verdict, scope: Scope, now: nat, later: nat)
    : (Queue, Result<Reply, AnswerError>)
  {
    var s := Swept(q, now);
    if id !in s.prompts then (s, Err(NotFound))
    else
      var p := s.prompts[id];
      match p.state
      case Expired => (s, Err(PromptExpired))
      case Answered =>
        (s, Ok(Reply(id, p.key, p.answerVerdict.GetOr(verdict), p.answerScope.GetOr(scope), true)))
      case Pending =>
        (Settled(s, id, verdict, scope, later), Ok(Reply(id, p.key, verdict, scope, false)))
  }

  /** The queue with prompt `id` answered, and its once-token issued if the answer is for once. */
  function Settled(s: Queue, id: nat, verdict: Verdict, scope: Scope, later: nat): Queue
    requires id in s.prompts
  {
    var p := s.prompts[id];
    s.(prompts := s.prompts[id := p.(state := Answered, answerVerdict := Some(verdict), answerScope := Some(scope))],
       pendingByKey := s.pendingByKey - {p.key},
       onceAllows := if verdict.Allow? && scope.Once? then s.onceAllows[p.key := later] else s.onceAllows,
       onceDenies := if verdict.Deny? && scope.Once? then s.onceDenies + {p.key} else s.onceDenies)
  }

  // ------------------------------------------------------------ invariant

  /** Ids are issued in order and an answered prompt remembers its answer. */
  ghost predicate IdsOk(q: Queue) {
    && (forall id :: id in q.prompts ==> q.prompts[id].id == id < q.nextId)
    && (forall id :: id in q.prompts && q.prompts[id].state.Answered? ==>
          q.prompts[id].answerVerdict.Some? && q.prompts[id].answerScope.Some?)
  }

  /** `pending_by_key` is exactly the inverse of the Pending prompts. */
  ghost predicate InverseOk(q: Queue) {
    && (forall k :: k in q.pendingByKey ==>
          q.pendingByKey[k] in PendingIds(q.prompts) && q.prompts[q.pendingByKey[k]].key == k)
    && (forall id :: id in PendingIds(q.prompts) ==>
          q.prompts[id].key in q.pendingByKey && q.pendingByKey[q.prompts[id].key] == id)
  }

  /** Every Pending id is queued, oldest id first. */
  ghost predicate OrderOk(q: Queue) {
    && Increasing(q.order)
    && (forall id :: id in q.order ==> id in q.prompts)
    && (forall id :: id in PendingIds(q.prompts) ==> id in q.order)
  }

  /** A key is pending, or holds an allow token, or holds a deny token, but never two of these. */
  ghost predicate OneRole(q: Queue) {
    && q.pendingByKey.Keys !! q.onceAllows.Keys
    && q.pendingByKey.Keys !! q.onceDenies
    && q.onceAllows.Keys !! q.onceDenies
  }

  ghost predicate Core(q: Queue) {
    0 < q.capacity && |q.pendingByKey| <= q.capacity && IdsOk(q) && InverseOk(q) && OrderOk(q)
  }

  ghost predicate Inv(q: Queue) {
    Core(q) && OneRole(q)
  }

  lemma SweptCore(q: Queue, now: nat)
    requires Core(q)
    ensures Core(Swept(q, now)) && (OneRole(q) ==> OneRole(Swept(q, now)))
  {
    var s := Swept(q, now);
    SubsetCard(s.pendingByKey.Keys, q.pendingByKey.Keys);
    assert |s.pendingByKey| == |s.pendingByKey.Keys| && |q.pendingByKey| == |q.pendingByKey.Keys|;
    SweptInverse(q, now);
    KeptIncreasing(q.order, PendingIds(s.prompts));
  }

  lemma SweptInverse(q: Queue, now: nat)
    requires IdsOk(q) && InverseOk(q)
    ensures InverseOk(Swept(q, now))
  {
    hide Kept;
    var s := Swept(q, now);
    var overdue := OverdueIds(q.prompts, now);
    forall k | k in s.pendingByKey
      ensures s.pendingByKey[k] in PendingIds(s.prompts) && s.prompts[s.pendingByKey[k]].key == k
    {
      var id := q.pendingByKey[k];
      assert id in PendingIds(q.prompts);
      assert id !in overdue;
    }
    forall id | id in PendingIds(s.prompts)
      ensures s.prompts[id].key in s.pendingByKey && s.pendingByKey[s.prompts[id].key] == id
    {
      var key := q.prompts[id].key;
      assert id in PendingIds(q.prompts);
      if key in KeysOf(q.prompts, overdue) {
        assert false;
      }
    }
  }

  /** The bounds are fixed and at most one id was issued. */
  predicate Framed(q: Queue, r: Queue) {
    r.capacity == q.capacity && r.ttl == q.ttl && q.nextId <= r.nextId <= q.nextId + 1
  }

  /** A sweep only removes. */
  lemma SweptTokens(q: Queue, now: nat)
    ensures var s := Swept(q, now);
            && s.onceAllows.Keys <= q.onceAllows.Keys && s.onceDenies <= q.onceDenies
            && s.pendingByKey.Keys <= q.pendingByKey.Keys
            && s.nextId == q.nextId && s.capacity == q.capacity && s.ttl == q.ttl
  {
  }

  /** Giving up tokens touches nothing else of the invariant. */
  lemma FewerTokens(s: Queue, allows: map<PromptKey, nat>, denies: set<PromptKey>)
    requires Inv(s) && allows.Keys <= s.onceAllows.Keys && denies <= s.onceDenies
    ensures Inv(s.(onceAllows := allows, onceDenies := denies))
  {
    CoreIgnoresTokens(s, allows, denies);
    hide Core;
  }

  lemma CoreIgnoresTokens(s: Queue, allows: map<PromptKey, nat>, denies: set<PromptKey>)
    requires Core(s)
    ensures Core(s.(onceAllows := allows, onceDenies := denies))
  {
  }

  lemma TakeOnceAllowKeeps(q: Queue, key: PromptKey, now: nat, later: nat)
    requires Inv(q)
    ensures Inv(TakeOnceAllow(q, key, now, later).0)
    ensures key !in TakeOnceAllow(q, key, now, later).0.onceAllows
    ensures Framed(q, TakeOnceAllow(q, key, now, later).0)
  {
    hide Swept, Core, OneRole;
    var s := Swept(q, now);
    SweptTokens(q, now);
    SweptCore(q, now);
    FewerTokens(s, s.onceAllows - {key}, s.onceDenies);
    assert s.(onceAllows := s.onceAllows - {key}, onceDenies := s.onceDenies) == TakeOnceAllow(q, key, now, later).0;
  }

  lemma ConsumeOnceDenyKeeps(q: Queue, key: PromptKey, now: nat)
    requires Inv(q)
    ensures Inv(ConsumeOnceDeny(q, key, now).0)
    ensures key !in ConsumeOnceDeny(q, key, now).0.onceDenies
    ensures ConsumeOnceDeny(q, key, now).0.onceAllows.Keys <= q.onceAllows.Keys
    ensures Framed(q, ConsumeOnceDeny(q, key, now).0)
  {
    hide Swept, Core, OneRole;
    var s := Swept(q, now);
    SweptTokens(q, now);
    SweptCore(q, now);
    FewerTokens(s, s.onceAllows, s.onceDenies - {key});
    assert s.(onceAllows := s.onceAllows, onceDenies := s.onceDenies - {key}) == ConsumeOnceDeny(q, key, now).0;
  }

  /** Enqueue keeps everything but the one-role rule unconditionally; that one it keeps if and
      only if it creates no prompt for a key that still holds a token. */
  lemma EnqueueKeeps(q: Queue, key: PromptKey, now: nat, later: nat)
    requires Inv(q) && q.nextId < U64_MAX
    ensures var (r, outcome) := Enqueue(q, key, now, later);
            && Core(r)
            && (OneRole(r) <==>
                  (outcome.Created? ==> key !in Swept(q, now).onceAllows && key !in Swept(q, now).onceDenies))
  {
    SweptCore(q, now);
    var s := Swept(q, now);
    assert s.nextId < U64_MAX;
    hide Swept, Core, Opened;
    if key !in s.pendingByKey && |s.pendingByKey| < s.capacity {
      OpenedCore(s, key, later);
    }
  }

  /** The one queue operation that can break the one-role rule does so here: a prompt opened over a held token. */
  lemma EnqueueOverToken(key: PromptKey) returns (q: Queue)
    ensures Inv(q) && key in q.onceAllows && Enqueue(q, key, 0, 0).1.Created? && !OneRole(Enqueue(q, key, 0, 0).0)
  {
    q := Empty(1, 0).(onceAllows := map[key := 0]);
    EnqueueKeeps(q, key, 0, 0);
    assert key in Swept(q, 0).onceAllows;
    assert |Swept(q, 0).pendingByKey| == 0;
  }

  lemma TokensIssueNoId(q: Queue, key: PromptKey, now: nat, later: nat)
    ensures TakeOnceAllow(q, key, now, later).0.nextId == q.nextId
    ensures ConsumeOnceDeny(q, key, now).0.nextId == q.nextId
  {
    SweptTokens(q, now);
    hide Swept;
  }

  lemma EnqueueWithoutTokens(q: Queue, key: PromptKey, now: nat, later: nat)
    requires Inv(q) && q.nextId < U64_MAX && key !in q.onceAllows && key !in q.onceDenies
    ensures Inv(Enqueue(q, key, now, later).0) && Framed(q, Enqueue(q, key, now, later).0)
  {
    hide Swept, Core, OneRole, Enqueue, Framed;
    SweptTokens(q, now);
    EnqueueKeeps(q, key, now, later);
    EnqueueFrame(q, key, now, later);
  }

  lemma EnqueueFrame(q: Queue, key: PromptKey, now: nat, later: nat)
    ensures Framed(q, Enqueue(q, key, now, later).0)
  {
    SweptTokens(q, now);
    hide Swept;
  }

  lemma OpenedCore(s: Queue, key: PromptKey, later: nat)
    requires Core(s) && OneRole(s)
    requires key !in s.pendingByKey && |s.pendingByKey| < s.capacity && s.nextId < U64_MAX
    ensures var r := Opened(s, key, later);
            Core(r) && (OneRole(r) <==> key !in s.onceAllows && key !in s.onceDenies)
  {
    hide IdsOk, InverseOk, OrderOk, OneRole;
    OpenedIds(s, key, later);
    OpenedInverse(s, key, later);
    OpenedOrder(s, key, later);
    OpenedRoles(s, key, later);
    OneMore(s.pendingByKey, key, s.nextId);
  }

  lemma OneMore<K, V>(m: map<K, V>, k: K, v: V)
    requires k !in m
    ensures |m[k := v]| == |m| + 1
  {
    assert m[k := v].Keys == m.Keys + {k};
    assert |m[k := v]| == |m[k := v].Keys| && |m| == |m.Keys|;
  }

  lemma NoMore<K, V>(m: map<K, V>, k: K)
    ensures |m - {k}| <= |m|
  {
    SubsetCard((m - {k}).Keys, m.Keys);
    assert |m - {k}| == |(m - {k}).Keys| && |m| == |m.Keys|;
  }

  lemma OpenedIds(s: Queue, key: PromptKey, later: nat)
    requires IdsOk(s) && s.nextId < U64_MAX
    ensures IdsOk(Opened(s, key, later))
  {
  }

  lemma OpenedInverse(s: Queue, key: PromptKey, later: nat)
    requires IdsOk(s) && InverseOk(s) && key !in s.pendingByKey && s.nextId < U64_MAX
    ensures InverseOk(Opened(s, key, later))
    ensures PendingIds(Opened(s, key, later).prompts) == PendingIds(s.prompts) + {s.nextId}
  {
    assert s.nextId !in s.prompts;
  }

  lemma OpenedRoles(s: Queue, key: PromptKey, later: nat)
    requires OneRole(s)
    ensures OneRole(Opened(s, key, later)) <==> key !in s.onceAllows && key !in s.onceDenies
  {
    assert Opened(s, key, later).pendingByKey.Keys == s.pendingByKey.Keys + {key};
  }

  lemma OpenedOrder(s: Queue, key: PromptKey, later: nat)
    requires IdsOk(s) && OrderOk(s)
    ensures OrderOk(Opened(s, key, later))
  {
    var r := Opened(s, key, later);
    assert s.nextId !in s.prompts;
    forall i | 0 <= i < |s.order| ensures s.order[i] < s.nextId {
      assert s.order[i] in s.prompts;
    }
  }

  lemma AnswerKeeps(q: Queue, id: nat, verdict: Verdict, scope: Scope, now: nat, later: nat)
    requires Inv(q)
    ensures Inv(Answer(q, id, verdict, scope, now, later).0)
  {
    SweptCore(q, now);
    var s := Swept(q, now);
    assert Inv(s);
    hide Swept, Inv, Core;
    if id in PendingIds(s.prompts) {
      SettledKeeps(s, id, verdict, scope, later);
    }
  }

  lemma SettledKeeps(s: Queue, id: nat, verdict: Verdict, scope: Scope, later: nat)
    requires Inv(s) && id in PendingIds(s.prompts)
    ensures Inv(Settled(s, id, verdict, scope, later))
  {
    hide IdsOk, InverseOk, OrderOk, OneRole;
    SettledIds(s, id, verdict, scope, later);
    SettledInverse(s, id, verdict, scope, later);
    SettledOrder(s, id, verdict, scope, later);
    SettledRoles(s, id, verdict, scope, later);
    NoMore(s.pendingByKey, s.prompts[id].key);
  }

  lemma SettledIds(s: Queue, id: nat, verdict: Verdict, scope: Scope, later: nat)
    requires IdsOk(s) && id in s.prompts
    ensures IdsOk(Settled(s, id, verdict, scope, later))
  {
  }

  lemma SettledRoles(s: Queue, id: nat, verdict: Verdict, scope: Scope, later: nat)
    requires InverseOk(s) && OneRole(s) && id in PendingIds(s.prompts)
    ensures OneRole(Settled(s, id, verdict, scope, later))
  {
    assert s.prompts[id].key in s.pendingByKey;
    hide InverseOk;
  }

  lemma SettledOrder(s: Queue, id: nat, verdict: Verdict, scope: Scope, later: nat)
    requires OrderOk(s) && id in PendingIds(s.prompts)
    ensures OrderOk(Settled(s, id, verdict, scope, later))
  {
    hide Increasing;
    assert PendingIds(Settled(s, id, verdict, scope, later).prompts) <= PendingIds(s.prompts);
  }

  lemma SettledInverse(s: Queue, id: nat, verdict: Verdict, scope: Scope, later: nat)
    requires InverseOk(s) && id in PendingIds(s.prompts)
    ensures InverseOk(Settled(s, id, verdict, scope, later))
  {
    var r := Settled(s, id, verdict, scope, later);
    assert PendingIds(r.prompts) == PendingIds(s.prompts) - {id};
  }

  // ------------------------------------------------------------ once settled, settled

  /** Nothing un-settles a prompt: an answered or expired one never changes again. */
  ghost predicate SettledStays(q: Queue, r: Queue) {
    forall id :: id in q.prompts && !q.prompts[id].state.Pending? ==> id in r.prompts && r.prompts[id] == q.prompts[id]
  }

  lemma SweptKeepsSettled(q: Queue, now: nat)
    ensures SettledStays(q, Swept(q, now))
    ensures Swept(q, now).nextId == q.nextId && Swept(q, now).prompts.Keys == q.prompts.Keys
  {
    hide Kept, KeysOf, FreshTokens;
  }

  lemma TokensKeepSettled(q: Queue, key: PromptKey, now: nat, later: nat)
    ensures SettledStays(q, TakeOnceAllow(q, key, now, later).0)
    ensures SettledStays(q, ConsumeOnceDeny(q, key, now).0)
  {
    hide Swept;
    SweptKeepsSettled(q, now);
  }

  lemma EnqueueKeepsSettled(q: Queue, key: PromptKey, now: nat, later: nat)
    requires IdsOk(q)
    ensures SettledStays(q, Enqueue(q, key, now, later).0)
  {
    hide Swept;
    SweptKeepsSettled(q, now);
  }

  lemma AnswerKeepsSettled(q: Queue, id: nat, verdict: Verdict, scope: Scope, now: nat, later: nat)
    ensures SettledStays(q, Answer(q, id, verdict, scope, now, later).0)
  {
    hide Swept;
    SweptKeepsSettled(q, now);
  }

  /** Answering again returns the first verdict and scope and settles nothing further. */
  lemma RepeatAnswer(q: Queue, id: nat, verdict: Verdict, scope: Scope, now: nat, later: nat)
    requires Inv(q) && id in q.prompts && q.prompts[id].state.Answered?
    ensures var p := q.prompts[id];
            Answer(q, id, verdict, scope, now, later) ==
            (Swept(q, now), Ok(Reply(id, p.key, p.answerVerdict.value, p.answerScope.value, true)))
  {
    hide Kept, KeysOf, FreshTokens;
  }

  /** An answer is fresh exactly for a prompt that is pending and not overdue. */
  lemma FreshAnswer(q: Queue, id: nat, verdict: Verdict, scope: Scope, now: nat, later: nat)
    requires IdsOk(q)
    ensures var reply := Answer(q, id, verdict, scope, now, later).1;
            && (reply.Ok? && !reply.value.duplicate <==>
                  id in q.prompts && q.prompts[id].state.Pending? && now <= q.prompts[id].expiresAt)
            && (reply.Ok? ==> id in q.prompts && reply.value.id == id && reply.value.key == q.prompts[id].key)
            && (reply.Ok? && !reply.value.duplicate ==> reply.value.verdict == verdict && reply.value.scope == scope)
  {
    hide Kept, KeysOf, FreshTokens;
  }

  /** A created prompt can be freshly answered for exactly its time to live. */
  lemma AnswerWindow(
    q: Queue, key: PromptKey, now: nat, later: nat, verdict: Verdict, scope: Scope, asked: nat, answered: nat)
    requires Inv(q) && q.nextId < U64_MAX
    requires Enqueue(q, key, now, later).1.Created?
    ensures var (r, outcome) := Enqueue(q, key, now, later);
            var reply := Answer(r, outcome.id, verdict, scope, asked, answered).1;
            reply.Ok? && !reply.value.duplicate && reply.value.key == key <==> asked <= later + q.ttl
  {
    EnqueueKeeps(q, key, now, later);
    var (r, outcome) := Enqueue(q, key, now, later);
    OpenedPrompt(Swept(q, now), key, later);
    assert outcome.id in r.prompts && r.prompts[outcome.id].state.Pending? && r.prompts[outcome.id].key == key;
    assert r.prompts[outcome.id].expiresAt == later + q.ttl;
    hide Swept, Enqueue, Answer;
    assert IdsOk(r);
    FreshAnswer(r, outcome.id, verdict, scope, asked, answered);
  }

  lemma OpenedPrompt(s: Queue, key: PromptKey, later: nat)
    ensures var p := Opened(s, key, later).prompts[s.nextId];
            p.state.Pending? && p.key == key && p.expiresAt == later + s.ttl
  {
  }

  /** The id an enqueue reports is that of a Pending prompt for the key. */
  lemma EnqueuedIsPending(q: Queue, key: PromptKey, now: nat, later: nat)
    requires Inv(q) && q.nextId < U64_MAX
    ensures var (r, outcome) := Enqueue(q, key, now, later);
            !outcome.Full? ==> outcome.id in PendingIds(r.prompts) && r.prompts[outcome.id].key == key
  {
    SweptCore(q, now);
    OpenedPrompt(Swept(q, now), key, later);
    hide Swept, OrderOk, OneRole;
  }

  // ------------------------------------------------------------ enqueue and answer, case by case

  /** The prompts that still wait for an answer at `now`. */
  function LiveIds(q: Queue, now: nat): set<nat> {
    set id | id in q.prompts && q.prompts[id].state == Pending && now <= q.prompts[id].expiresAt
  }

  lemma LiveIsPending(q: Queue, now: nat)
    ensures PendingIds(Swept(q, now).prompts) == LiveIds(q, now)
    ensures forall id :: id in LiveIds(q, now) ==>
              id in Swept(q, now).prompts && Swept(q, now).prompts[id] == q.prompts[id]
  {
    hide Kept;
  }

  /** `pending_by_key` has one entry for each Pending prompt. */
  lemma PendingCount(q: Queue)
    requires InverseOk(q)
    ensures |q.pendingByKey| == |PendingIds(q.prompts)|
  {
    OneToOne(q.pendingByKey, PendingIds(q.prompts));
    assert |q.pendingByKey| == |q.pendingByKey.Keys|;
  }

  /** A map without repeated values onto a set has as many entries as the set has elements. */
  lemma {:induction false} OneToOne(m: map<PromptKey, nat>, ids: set<nat>)
    requires forall k :: k in m ==> m[k] in ids
    requires forall id :: id in ids ==> exists k :: k in m && m[k] == id
    requires forall k, j :: k in m && j in m && m[k] == m[j] ==> k == j
    ensures |m| == |ids|
    decreases |ids|
  {
    if ids == {} {
      assert m == map[];
    } else {
      var id :| id in ids;
      var k :| k in m && m[k] == id;
      forall i | i in ids - {id} ensures exists j :: j in m - {k} && (m - {k})[j] == i {
        var j :| j in m && m[j] == i;
        assert j in m - {k};
      }
      OneToOne(m - {k}, ids - {id});
      assert (m - {k})[k := id] == m;
      OneMore(m - {k}, k, id);
    }
  }

  /**
   Enqueue, case by case: the prompt that already waits for the key; else nothing, when as many wait as fit; else a new
   prompt under the next id, which waits for the time to live from the moment it is created.
   */
  lemma EnqueueExactly(q: Queue, key: PromptKey, now: nat, later: nat)
    requires Inv(q)
    ensures var (r, outcome) := Enqueue(q, key, now, later);
            && (forall id :: id in LiveIds(q, now) && q.prompts[id].key == key ==>
                  outcome == Deduped(id) && r.nextId == q.nextId)
            && ((forall id :: id in LiveIds(q, now) ==> q.prompts[id].key != key) ==>
                  if |LiveIds(q, now)| >= q.capacity then outcome == Full && r.nextId == q.nextId
                  else
                    && outcome == Created(q.nextId) && r.nextId == SaturatingInc(q.nextId) && q.nextId in r.prompts
                    && r.prompts[q.nextId] == Prompt.Prompt(q.nextId, key, Pending, later, later + q.ttl, None, None))
            && (forall id :: id in LiveIds(q, now) && id != q.nextId ==>
                  id in r.prompts && r.prompts[id] == q.prompts[id])
  {
    hide Swept, LiveIds, Enqueue, Core;
    EnqueueByKey(q, key, now, later);
    LiveByKey(q, key, now);
    LiveStays(q, key, now, later);
    SweptTokens(q, now);
  }

  /** The case that `enqueue` is in, read off the swept queue. */
  lemma EnqueueByKey(q: Queue, key: PromptKey, now: nat, later: nat)
    ensures var s, (r, outcome) := Swept(q, now), Enqueue(q, key, now, later);
            if key in s.pendingByKey then outcome == Deduped(s.pendingByKey[key]) && r == s
            else if |s.pendingByKey| >= s.capacity then outcome == Full && r == s
            else
              && outcome == Created(s.nextId) && r.nextId == SaturatingInc(s.nextId) && s.nextId in r.prompts
              && r.prompts[s.nextId] == Prompt.Prompt(s.nextId, key, Pending, later, later + s.ttl, None, None)
  {
    hide Swept;
  }

  /** Whether the key is pending, and how many are, in terms of the live prompts. */
  lemma LiveByKey(q: Queue, key: PromptKey, now: nat)
    requires Inv(q)
    ensures var s, live := Swept(q, now), LiveIds(q, now);
            && |s.pendingByKey| == |live|
            && (key in s.pendingByKey ==> s.pendingByKey[key] in live && q.prompts[s.pendingByKey[key]].key == key)
            && (forall id :: id in live && q.prompts[id].key == key ==>
                  key in s.pendingByKey && s.pendingByKey[key] == id)
  {
    hide Swept, LiveIds, OrderOk, OneRole, IdsOk;
    LiveIsPending(q, now);
    SweptCore(q, now);
    PendingCount(Swept(q, now));
  }

  lemma LiveStays(q: Queue, key: PromptKey, now: nat, later: nat)
    ensures forall id :: id in LiveIds(q, now) && id != q.nextId ==>
              id in Enqueue(q, key, now, later).0.prompts && Enqueue(q, key, now, later).0.prompts[id] == q.prompts[id]
  {
    LiveIsPending(q, now);
    SweptTokens(q, now);
    hide Swept, LiveIds;
  }

  /** Answer, case by case, with what it records and the tokens it leaves. */
  lemma AnswerExactly(q: Queue, id: nat, verdict: Verdict, scope: Scope, now: nat, later: nat)
    requires IdsOk(q)
    ensures var (r, reply) := Answer(q, id, verdict, scope, now, later);
            if id !in q.prompts then reply == Err(NotFound)
            else
              var p := q.prompts[id];
              if p.state == Answered then
                reply == Ok(Reply(id, p.key, p.answerVerdict.value, p.answerScope.value, true))
              else if p.state == Expired || now > p.expiresAt then reply == Err(PromptExpired)
              else
                && reply == Ok(Reply(id, p.key, verdict, scope, false))
                && id in r.prompts && r.prompts[id].state == Answered
                && r.prompts[id].answerVerdict == Some(verdict) && r.prompts[id].answerScope == Some(scope)
                && (scope == Once && verdict == Allow ==> p.key in r.onceAllows && r.onceAllows[p.key] == later)
                && (scope == Once && verdict == Deny ==> p.key in r.onceDenies)
                && (forall k :: k in r.onceAllows && !(scope == Once && verdict == Allow && k == p.key) ==>
                      k in q.onceAllows && r.onceAllows[k] == q.onceAllows[k])
                && (forall k :: k in r.onceDenies && !(scope == Once && verdict == Deny && k == p.key) ==>
                      k in q.onceDenies)
  {
    hide Kept, KeysOf;
  }

  // ------------------------------------------------------------ the mutable queue

  /** The store itself: four cross-linked maps, an id queue and a counter. */
  class PromptQueue {
    const capacity: nat
    const ttl: nat
    var nextId: nat
    var order: seq<nat>
    var prompts: map<nat, Prompt>
    var pendingByKey: map<PromptKey, nat>
    var onceAllows: map<PromptKey, nat>
    var onceDenies: set<PromptKey>

    ghost function State(): Queue reads this {
      Queue(capacity, ttl, nextId, order, prompts, pendingByKey, onceAllows, onceDenies)
    }

    constructor (capacity: nat, ttl: nat)
      requires 0 < capacity
      ensures State() == Empty(capacity, ttl) && Inv(State())
    {
      this.capacity, this.ttl, nextId, order := capacity, ttl, 1, [];
      prompts, pendingByKey, onceAllows, onceDenies := map[], map[], map[], {};
    }

    method TakeAllowToken(key: PromptKey, now: nat, later: nat) returns (taken: bool)
      requires now <= later
      modifies this
      ensures (State(), taken) == TakeOnceAllow(old(State()), key, now, later)
    {
      hide Swept;
      Expire(now);
      taken := key in onceAllows && later <= onceAllows[key] + ttl;
      onceAllows := onceAllows - {key};
    }

    method TakeDenyToken(key: PromptKey, now: nat) returns (taken: bool)
      modifies this
      ensures (State(), taken) == ConsumeOnceDeny(old(State()), key, now)
    {
      hide Swept;
      Expire(now);
      taken := key in onceDenies;
      onceDenies := onceDenies - {key};
    }

    method Push(key: PromptKey, now: nat, later: nat) returns (outcome: EnqueueOutcome)
      requires now <= later
      modifies this
      ensures (State(), outcome) == Enqueue(old(State()), key, now, later)
    {
      hide Swept;
      Expire(now);
      if key in pendingByKey {
        return Deduped(pendingByKey[key]);
      }
      if |pendingByKey| >= capacity {
        return Full;
      }
      var id := nextId;
      nextId := SaturatingInc(nextId);
      prompts := prompts[id := Prompt.Prompt(id, key, Pending, later, later + ttl, None, None)];
      order := order + [id];
      pendingByKey := pendingByKey[key := id];
      outcome := Created(id);
    }

    method Respond(id: nat, verdict: Verdict, scope: Scope, now: nat, later: nat)
      returns (reply: Result<Reply, AnswerError>)
      requires now <= later
      modifies this
      ensures (State(), reply) == Answer(old(State()), id, verdict, scope, now, later)
    {
      hide Swept;
      Expire(now);
      if id !in prompts {
        return Err(NotFound);
      }
      var p := prompts[id];
      if p.state == Expired {
        return Err(PromptExpired);
      }
      if p.state == Answered {
        return Ok(Reply.Reply(id, p.key, p.answerVerdict.GetOr(verdict), p.answerScope.GetOr(scope), true));
      }
      prompts := prompts[id := p.(state := Answered, answerVerdict := Some(verdict), answerScope := Some(scope))];
      pendingByKey := pendingByKey - {p.key};
      match (verdict, scope) {
        case (Allow, Once) => onceAllows := onceAllows[p.key := later];
        case (Deny, Once) => onceDenies := onceDenies + {p.key};
        case _ =>
      }
      reply := Ok(Reply.Reply(id, p.key, verdict, scope, false));
    }

    /** Collect the overdue prompts, settle them one by one in any order, then retain. */
    method Expire(now: nat)
      modifies this
      ensures State() == Swept(old(State()), now)
    {
      prompts, pendingByKey := Lapse(prompts, pendingByKey, now);
      order := Kept(order, PendingIds(prompts));
      onceAllows := FreshTokens(onceAllows, ttl, now);
      if |onceDenies| > capacity {
        onceDenies := {};
      }
    }
  }

  lemma NoKeys(prompts: map<nat, Prompt>)
    ensures KeysOf(prompts, {}) == {}
  {
  }

  lemma KeysGrow(prompts: map<nat, Prompt>, overdue: set<nat>, todo: set<nat>, id: nat)
    requires todo <= overdue && id in todo && id in prompts
    ensures KeysOf(prompts, overdue - (todo - {id})) == KeysOf(prompts, overdue - todo) + {prompts[id].key}
  {
    assert overdue - (todo - {id}) == (overdue - todo) + {id};
  }

  method Lapse(prompts: map<nat, Prompt>, pendingByKey: map<PromptKey, nat>, now: nat)
    returns (aged: map<nat, Prompt>, left: map<PromptKey, nat>)
    ensures aged == Aged(prompts, now)
    ensures left == pendingByKey - KeysOf(prompts, OverdueIds(prompts, now))
  {
    var overdue := OverdueIds(prompts, now);
    var todo := overdue;
    aged, left := prompts, pendingByKey;
    hide KeysOf;
    NoKeys(prompts);
    assert overdue - todo == {};
    assert pendingByKey - {} == pendingByKey;
    while todo != {}
      invariant todo <= overdue
      invariant aged.Keys == prompts.Keys
      invariant forall id :: id in prompts ==>
        aged[id] == if id in overdue - todo then prompts[id].(state := Expired) else prompts[id]
      invariant left == pendingByKey - KeysOf(prompts, overdue - todo)
      decreases |todo|
    {
      var id :| id in todo;
      var key := prompts[id].key;
      KeysGrow(prompts, overdue, todo, id);
      aged := aged[id := aged[id].(state := Expired)];
      left := left - {key};
      todo := todo - {id};
    }
    assert overdue - todo == overdue;
  }
}

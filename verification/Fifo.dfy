/**
 The "map plus order queue" shape that the pending table, the DNS cache, the
 process cache, the recent-destination table and the five stats dimensions share:
 a map, and a queue of its keys in the order in which they became resident.
 */
module Fifo {
  import opened Wrappers
  import opened Collections

  datatype Fifo<K, V> = Fifo(entries: map<K, V>, order: seq<K>)

  /** `order` has no duplicates and covers the keys; it may still hold taken keys. */
  ghost predicate Covered<K(!new), V>(f: Fifo<K, V>) {
    NoDup(f.order) && forall k :: k in f.entries ==> k in f.order
  }

  /** `order` lists exactly the keys. */
  ghost predicate Exact<K(!new), V>(f: Fifo<K, V>) {
    NoDup(f.order) && f.entries.Keys == Elems(f.order)
  }

  lemma ExactSize<K(!new), V>(f: Fifo<K, V>)
    requires Exact(f)
    ensures |f.order| == |f.entries|
  {
    NoDupCard(f.order);
    assert |f.entries| == |f.entries.Keys|;
  }

  lemma ExactCovered<K(!new), V>(f: Fifo<K, V>)
    requires Exact(f)
    ensures Covered(f)
  {
    assert forall k :: k in f.entries ==> k in Elems(f.order);
  }

  /** Drop the keys in `dead` and every order slot whose entry is gone. */
  function Sweep<K(!new, ==), V>(f: Fifo<K, V>, dead: set<K>): Fifo<K, V> {
    Fifo(f.entries - dead, Kept(f.order, f.entries.Keys - dead))
  }

  lemma SweepExact<K(!new), V>(f: Fifo<K, V>, dead: set<K>)
    requires Covered(f)
    ensures Exact(Sweep(f, dead)) && |Sweep(f, dead).entries| <= |f.entries|
  {
    KeptNoDup(f.order, f.entries.Keys - dead);
    SubsetCard((f.entries - dead).Keys, f.entries.Keys);
    assert |Sweep(f, dead).entries| == |(f.entries - dead).Keys|;
  }

  lemma SweepNothing<K(!new), V>(f: Fifo<K, V>)
    requires Exact(f)
    ensures Sweep(f, {}) == f
  {
    KeptAll(f.order, f.entries.Keys - {});
  }

  /** Room for one more key: the front of the queue leaves when the map is full. */
  function Evicted<K(!new, ==), V>(f: Fifo<K, V>, cap: nat): Fifo<K, V> {
    if |f.entries| < cap || f.order == [] then f
    else Fifo(f.entries - {f.order[0]}, f.order[1..])
  }

  /** Update a resident key in place, or make it resident at the back of the queue. */
  function Put<K(!new, ==), V>(f: Fifo<K, V>, cap: nat, k: K, v: V): Fifo<K, V> {
    if k in f.entries then f.(entries := f.entries[k := v])
    else
      var e := Evicted(f, cap);
      Fifo(e.entries[k := v], e.order + [k])
  }

  lemma EvictedKeeps<K(!new), V>(f: Fifo<K, V>, cap: nat)
    requires Exact(f) && 0 < cap && |f.entries| <= cap
    ensures Exact(Evicted(f, cap)) && |Evicted(f, cap).entries| < cap
    ensures forall k :: k in Evicted(f, cap).entries ==> k in f.entries
  {
    ExactSize(f);
    if |f.entries| >= cap {
      var x, e := f.order[0], Evicted(f, cap);
      DropFirst(f.order);
      assert x in Elems(f.order);
      assert e.entries.Keys == f.entries.Keys - {x};
      assert |e.entries| == |e.entries.Keys|;
      assert |f.entries| == |f.entries.Keys|;
    }
  }

  lemma PutKeeps<K(!new), V>(f: Fifo<K, V>, cap: nat, k: K, v: V)
    requires Exact(f) && 0 < cap && |f.entries| <= cap
    ensures Exact(Put(f, cap, k, v)) && |Put(f, cap, k, v).entries| <= cap
  {
    hide Evicted;
    var p, e := Put(f, cap, k, v), Evicted(f, cap);
    if k in f.entries {
      assert p.entries.Keys == f.entries.Keys;
    } else {
      EvictedKeeps(f, cap);
      assert p.entries.Keys == e.entries.Keys + {k};
      assert Elems(p.order) == Elems(e.order) + {k};
      assert |e.entries| == |e.entries.Keys|;
      assert k !in e.order by { assert k !in e.entries.Keys; }
    }
    assert |p.entries| == |p.entries.Keys|;
    assert |f.entries| == |f.entries.Keys|;
  }

  /**
   The eviction loop of the five stores: pop the oldest key while the map is full,
   and clear everything if the queue runs dry. The fallback is unreachable.
   */
  method MakeRoom<K(!new, ==), V>(entries: map<K, V>, order: seq<K>, cap: nat)
    returns (left: map<K, V>, queue: seq<K>)
    requires Exact(Fifo(entries, order)) && 0 < cap && |entries| <= cap
    ensures Fifo(left, queue) == Evicted(Fifo(entries, order), cap)
    ensures |left| < cap
  {
    left, queue := entries, order;
    ghost var f := Fifo(entries, order);
    ExactSize(f);
    while |left| >= cap
      invariant Exact(Fifo(left, queue)) && |left| <= cap
      invariant Fifo(left, queue) == f || (|left| < cap <= |entries| && Fifo(left, queue) == Evicted(f, cap))
      decreases |queue|
    {
      if queue != [] {
        EvictedKeeps(Fifo(left, queue), cap);
        left, queue := left - {queue[0]}, queue[1..];
      } else {
        ExactSize(Fifo(left, queue));
        assert false;
        left := map[];
        break;
      }
    }
  }

  // ---------------------------------------------------------------- runs

  /** One call on a store: `dead` are the entries its expiry pass removes first. */
  datatype Op<K, !V> =
    | Insert(key: K, update: Option<V> -> V, dead: set<K>)
    | Remove(key: K, dead: set<K>)
    | Expire(dead: set<K>)

  function Lookup<K(!new, ==), V>(m: map<K, V>, k: K): Option<V> {
    if k in m then Some(m[k]) else None
  }

  function Apply<K(!new, ==), V>(f: Fifo<K, V>, cap: nat, op: Op<K, V>): Fifo<K, V> {
    var s := Sweep(f, op.dead);
    match op
    case Insert(k, update, _) => Put(s, cap, k, update(Lookup(s.entries, k)))
    case Remove(k, _) => s.(entries := s.entries - {k})
    case Expire(_) => s
  }

  /** The store after the first `n` calls, starting empty. */
  function At<K(!new, ==), V>(ops: seq<Op<K, V>>, cap: nat, n: nat): Fifo<K, V>
    requires n <= |ops|
  {
    if n == 0 then Fifo(map[], []) else Apply(At(ops, cap, n - 1), cap, ops[n - 1])
  }

  lemma ApplyKeeps<K(!new), V>(f: Fifo<K, V>, cap: nat, op: Op<K, V>)
    requires Covered(f) && 0 < cap && |f.entries| <= cap
    ensures Covered(Apply(f, cap, op)) && |Apply(f, cap, op).entries| <= cap
    ensures !op.Remove? ==> Exact(Apply(f, cap, op))
  {
    var s := Sweep(f, op.dead);
    SweepExact(f, op.dead);
    match op
    case Insert(k, update, _) => PutKeeps(s, cap, k, update(Lookup(s.entries, k)));
    case Remove(k, _) =>
      SubsetCard((s.entries - {k}).Keys, s.entries.Keys);
      assert |s.entries - {k}| == |(s.entries - {k}).Keys|;
    case Expire(_) =>
  }

  /** In every run the queue covers the map, has no duplicates, and the bound holds. */
  lemma {:induction false} RunKeeps<K(!new), V>(ops: seq<Op<K, V>>, cap: nat, n: nat)
    requires n <= |ops| && 0 < cap
    ensures Covered(At(ops, cap, n)) && |At(ops, cap, n).entries| <= cap
  {
    hide Apply;
    if n > 0 {
      hide Covered;
      RunKeeps(ops, cap, n - 1);
      ApplyKeeps(At(ops, cap, n - 1), cap, ops[n - 1]);
    }
  }

  /** The present residence of `k` after `n` calls began with call `b`. */
  ghost predicate Born<K(!new), V>(ops: seq<Op<K, V>>, cap: nat, n: nat, k: K, b: nat)
    requires n <= |ops|
  {
    && b < n
    && ops[b].Insert? && ops[b].key == k
    && k !in Sweep(At(ops, cap, b), ops[b].dead).entries
    && forall j :: b < j <= n ==> k in At(ops, cap, j).entries && (j < n ==> k !in ops[j].dead)
  }

  lemma BornUnique<K(!new), V>(ops: seq<Op<K, V>>, cap: nat, n: nat, k: K, b: nat, c: nat)
    requires n <= |ops| && Born(ops, cap, n, k, b) && Born(ops, cap, n, k, c)
    ensures b == c
  {
    hide At, Apply;
    if b != c {
      assert false;
    }
  }

  /** A key that the last call did not make resident was resident before it. */
  lemma Carried<K(!new), V>(f: Fifo<K, V>, cap: nat, op: Op<K, V>, k: K)
    requires k in Apply(f, cap, op).entries
    requires !(op.Insert? && op.key == k && k !in Sweep(f, op.dead).entries)
    ensures k in f.entries && k !in op.dead
  {
  }

  lemma {:induction false} BirthOf<K(!new), V>(ops: seq<Op<K, V>>, cap: nat, n: nat, k: K) returns (b: nat)
    requires n <= |ops| && k in At(ops, cap, n).entries
    ensures Born(ops, cap, n, k, b)
  {
    hide Apply, Sweep;
    var f, op := At(ops, cap, n - 1), ops[n - 1];
    if op.Insert? && op.key == k && k !in Sweep(f, op.dead).entries {
      b := n - 1;
    } else {
      Carried(f, cap, op, k);
      b := BirthOf(ops, cap, n - 1, k);
      Extend(ops, cap, n, k, b);
    }
  }

  /** Keys stay in the relative order in which they became resident. */
  lemma ApplyBefore<K(!new), V>(f: Fifo<K, V>, cap: nat, op: Op<K, V>, x: K, y: K)
    requires Covered(f) && 0 < cap && |f.entries| <= cap
    requires Before(Apply(f, cap, op).order, x, y)
    requires x in Apply(f, cap, op).entries && y in Apply(f, cap, op).entries
    ensures !(op.Insert? && op.key == x && x !in Sweep(f, op.dead).entries)
    ensures !(op.Insert? && op.key == y && y !in Sweep(f, op.dead).entries) ==> Before(f.order, x, y)
  {
    hide Sweep, Lookup, Exact;
    var s, g := Sweep(f, op.dead), Apply(f, cap, op);
    SweepExact(f, op.dead);
    var i, j :| 0 <= i < j < |g.order| && g.order[i] == x && g.order[j] == y;
    if op.Insert? && op.key !in s.entries {
      NewKeyLast(s, cap, op.key, op.update(Lookup(s.entries, op.key)), i, j);
    } else {
      assert g.order == s.order;
    }
    if !(op.Insert? && op.key == y && y !in s.entries) {
      SweepBefore(f, op.dead, x, y);
    }
  }

  lemma NewKeyLast<K(!new), V>(s: Fifo<K, V>, cap: nat, k: K, v: V, i: nat, j: nat)
    requires Exact(s) && k !in s.entries && 0 < cap && |s.entries| <= cap
    requires i < j < |Put(s, cap, k, v).order|
    ensures var p := Put(s, cap, k, v).order;
            p[i] != k && (p[j] != k ==> Before(s.order, p[i], p[j]))
  {
    hide Exact;
    var e, p := Evicted(s, cap), Put(s, cap, k, v).order;
    EvictedKeeps(s, cap);
    assert p == e.order + [k];
    OnlyKeysQueued(e, k);
    assert p[i] == e.order[i];
    if p[j] != k {
      var d := |s.order| - |e.order|;
      assert e.order == s.order[d..];
      assert s.order[i + d] == p[i] && s.order[j + d] == p[j];
    }
  }

  lemma OnlyKeysQueued<K(!new), V>(f: Fifo<K, V>, k: K)
    requires Exact(f) && k !in f.entries
    ensures k !in f.order
  {
    assert k !in Elems(f.order);
  }

  lemma SweepBefore<K(!new), V>(f: Fifo<K, V>, dead: set<K>, x: K, y: K)
    requires Before(Sweep(f, dead).order, x, y)
    ensures Before(f.order, x, y)
  {
    KeptBefore(f.order, f.entries.Keys - dead, x, y);
  }

  /** A residence that began with the last call began with an insertion of an absent key. */
  lemma BornNow<K(!new), V>(ops: seq<Op<K, V>>, cap: nat, n: nat, k: K, b: nat)
    requires 0 < n <= |ops| && Born(ops, cap, n, k, b)
    ensures b < n && k in At(ops, cap, n).entries
    ensures var f, op := At(ops, cap, n - 1), ops[n - 1];
            b == n - 1 <==> op.Insert? && op.key == k && k !in Sweep(f, op.dead).entries
  {
    hide At, Apply;
  }

  /** A residence that began before the last call was already the residence then. */
  lemma Older<K(!new), V>(ops: seq<Op<K, V>>, cap: nat, n: nat, k: K, b: nat)
    requires 0 < n <= |ops| && Born(ops, cap, n, k, b) && b < n - 1
    ensures Born(ops, cap, n - 1, k, b) && k in At(ops, cap, n - 1).entries
  {
    hide At, Apply, Sweep;
  }

  lemma {:induction false} OrderIsAge<K(!new), V>(
    ops: seq<Op<K, V>>, cap: nat, n: nat, x: K, y: K, b: nat, c: nat)
    requires n <= |ops| && 0 < cap
    requires Before(At(ops, cap, n).order, x, y)
    requires Born(ops, cap, n, x, b) && Born(ops, cap, n, y, c)
    ensures b < c
  {
    hide Apply, Sweep, Covered, Born;
    var f, op := At(ops, cap, n - 1), ops[n - 1];
    RunKeeps(ops, cap, n - 1);
    BornNow(ops, cap, n, x, b);
    BornNow(ops, cap, n, y, c);
    ApplyBefore(f, cap, op, x, y);
    if c != n - 1 {
      Older(ops, cap, n, x, b);
      Older(ops, cap, n, y, c);
      OrderIsAge(ops, cap, n - 1, x, y, b, c);
    }
  }

  lemma Extend<K(!new), V>(ops: seq<Op<K, V>>, cap: nat, n: nat, k: K, b: nat)
    requires 0 < n <= |ops| && Born(ops, cap, n - 1, k, b)
    requires k in At(ops, cap, n).entries && k !in ops[n - 1].dead
    ensures Born(ops, cap, n, k, b)
  {
    hide At, Sweep;
  }

  /**
   When an insertion evicts, the key that leaves is the one whose residence began first
   among those that survive the expiry pass, and it is the only one that leaves.
   */
  lemma EvictsLongestResident<K(!new), V>(
    ops: seq<Op<K, V>>, cap: nat, n: nat, gone: K, other: K, b: nat, c: nat)
    requires n < |ops| && 0 < cap && ops[n].Insert?
    requires var s := Sweep(At(ops, cap, n), ops[n].dead);
             gone in s.entries && gone !in At(ops, cap, n + 1).entries &&
             other in s.entries && other != gone
    requires Born(ops, cap, n, gone, b) && Born(ops, cap, n, other, c)
    ensures b < c && other in At(ops, cap, n + 1).entries
  {
    var f, op := At(ops, cap, n), ops[n];
    var s := Sweep(f, op.dead);
    RunKeeps(ops, cap, n);
    SweepExact(f, op.dead);
    assert op.key !in s.entries;
    assert |s.entries| >= cap && gone == s.order[0];
    assert other in s.order;
    var j :| 0 <= j < |s.order| && s.order[j] == other;
    assert Before(s.order, gone, other);
    KeptBefore(f.order, f.entries.Keys - op.dead, gone, other);
    OrderIsAge(ops, cap, n, gone, other, b, c);
  }

  // ------------------------------------------------------------ who is evicted

  lemma OneResidence<K(!new), V>(ops: seq<Op<K, V>>, cap: nat, n: nat, x: K, y: K, b: nat, c: nat)
    requires n <= |ops| && Born(ops, cap, n, x, b) && Born(ops, cap, n, y, c) && b < c
    ensures ResidentLonger(ops, cap, n, x, y)
  {
    hide Born;
    forall d: nat | Born(ops, cap, n, x, d) ensures d == b {
      BornUnique(ops, cap, n, x, b, d);
    }
    forall d: nat | Born(ops, cap, n, y, d) ensures d == c {
      BornUnique(ops, cap, n, y, c, d);
    }
  }

  /** The one residence that `x` has after `n` calls began before the one that `y` has. */
  ghost predicate ResidentLonger<K(!new), V>(ops: seq<Op<K, V>>, cap: nat, n: nat, x: K, y: K)
    requires n <= |ops|
  {
    && (exists b: nat, c: nat :: b < c && Born(ops, cap, n, x, b) && Born(ops, cap, n, y, c))
    && (forall b: nat, c: nat :: Born(ops, cap, n, x, b) && Born(ops, cap, n, y, c) ==> b < c)
  }

  lemma OnlyOneLonger<K(!new), V>(ops: seq<Op<K, V>>, cap: nat, n: nat, x: K, y: K)
    requires n <= |ops| && ResidentLonger(ops, cap, n, x, y)
    ensures !ResidentLonger(ops, cap, n, y, x)
  {
    hide Born;
  }

  /** Of the keys that survive the expiry pass of call `n`, `x` has been resident longest. */
  ghost predicate LongestResident<K(!new), V>(ops: seq<Op<K, V>>, cap: nat, n: nat, x: K)
    requires n < |ops|
  {
    forall other :: other in Sweep(At(ops, cap, n), ops[n].dead).entries && other != x ==>
      ResidentLonger(ops, cap, n, x, other)
  }

  /** A key that an insertion evicts has been resident longer than any other survivor, and the other one stays. */
  lemma EvictedIsOlder<K(!new), V>(ops: seq<Op<K, V>>, cap: nat, n: nat, gone: K, other: K)
    requires n < |ops| && 0 < cap && ops[n].Insert?
    requires var s := Sweep(At(ops, cap, n), ops[n].dead);
             gone in s.entries && other in s.entries && other != gone && gone !in At(ops, cap, n + 1).entries
    ensures ResidentLonger(ops, cap, n, gone, other) && other in At(ops, cap, n + 1).entries
  {
    hide Apply, Born, ResidentLonger;
    var b := BirthOf(ops, cap, n, gone);
    var c := BirthOf(ops, cap, n, other);
    EvictsLongestResident(ops, cap, n, gone, other, b, c);
    OneResidence(ops, cap, n, gone, other, b, c);
  }

  /**
   Exactly which key an insertion evicts: one that survives the expiry pass leaves if and only if the inserted key
   is new, the store is full, and no survivor has been resident longer.
   */
  lemma EvictionIsExact<K(!new), V>(ops: seq<Op<K, V>>, cap: nat, n: nat, gone: K)
    requires n < |ops| && 0 < cap && ops[n].Insert? && gone in Sweep(At(ops, cap, n), ops[n].dead).entries
    ensures var s := Sweep(At(ops, cap, n), ops[n].dead);
            gone !in At(ops, cap, n + 1).entries <==>
            ops[n].key !in s.entries && |s.entries| == cap && LongestResident(ops, cap, n, gone)
  {
    var f, op := At(ops, cap, n), ops[n];
    var s := Sweep(f, op.dead);
    RunKeeps(ops, cap, n);
    SweepExact(f, op.dead);
    PutEvicts(s, cap, op.key, op.update(Lookup(s.entries, op.key)), gone);
    hide Apply, Sweep, Exact, Covered, ResidentLonger, Put;
    assert At(ops, cap, n + 1).entries == Put(s, cap, op.key, op.update(Lookup(s.entries, op.key))).entries by {
      ApplyInsert(f, cap, op);
    }
    if gone !in At(ops, cap, n + 1).entries {
      forall other | other in s.entries && other != gone ensures ResidentLonger(ops, cap, n, gone, other) {
        EvictedIsOlder(ops, cap, n, gone, other);
      }
    } else if op.key !in s.entries && |s.entries| == cap {
      var first := s.order[0];
      EvictedIsOlder(ops, cap, n, first, gone);
      OnlyOneLonger(ops, cap, n, first, gone);
    }
  }

  lemma ApplyInsert<K(!new), V>(f: Fifo<K, V>, cap: nat, op: Op<K, V>)
    requires op.Insert?
    ensures var s := Sweep(f, op.dead); Apply(f, cap, op) == Put(s, cap, op.key, op.update(Lookup(s.entries, op.key)))
  {
  }

  /** An insertion into a full store drops the front of the queue and nothing else. */
  lemma PutEvicts<K(!new), V>(s: Fifo<K, V>, cap: nat, k: K, v: V, gone: K)
    requires Exact(s) && 0 < cap && |s.entries| <= cap && gone in s.entries
    ensures gone !in Put(s, cap, k, v).entries <==> k !in s.entries && |s.entries| == cap && gone == s.order[0]
    ensures s.order != [] && s.order[0] in s.entries
  {
    ExactSize(s);
    assert gone in Elems(s.order);
  }
}

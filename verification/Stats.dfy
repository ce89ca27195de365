/** Bounded in-memory connect aggregates (stats.rs). */
module Stats {
  import opened Wrappers
  import opened Collections
  import opened Fifo

  const MAX_STATS_KEYS: nat := 512

  datatype Counters = Counters(hits: nat, allow: nat, deny: nat, prompt: nat)

  const ZERO: Counters := Counters(0, 0, 0, 0)

  type Dim<!K> = Fifo<K, Counters>

  function Bumped(c: Counters, mark: string): Counters {
    var c := c.(hits := SaturatingInc(c.hits));
    if mark == "allow" then c.(allow := SaturatingInc(c.allow))
    else if mark == "deny" then c.(deny := SaturatingInc(c.deny))
    else if mark == "prompt" then c.(prompt := SaturatingInc(c.prompt))
    else c
  }

  function Bump<K(!new, ==)>(d: Dim<K>, key: K, mark: string): Dim<K> {
    Put(d, MAX_STATS_KEYS, key, Bumped(Lookup(d.entries, key).GetOr(ZERO), mark))
  }

  /** `bump_string`, `bump_port` and `bump_uid`, which differ only in the key type. */
  method BumpKey<K(!new, ==)>(d: Dim<K>, key: K, mark: string) returns (r: Dim<K>)
    requires Bounded(d)
    ensures r == Bump(d, key, mark) && Bounded(r)
  {
    hide Exact;
    PutKeeps(d, MAX_STATS_KEYS, key, Bumped(Lookup(d.entries, key).GetOr(ZERO), mark));
    var entries, order := d.entries, d.order;
    if key !in entries {
      entries, order := MakeRoom(entries, order, MAX_STATS_KEYS);
      order := order + [key];
      entries := entries[key := ZERO];
    }
    r := Fifo(entries[key := Bumped(entries[key], mark)], order);
  }

  datatype Hit = Hit(executable: string, host: string, ipv4: string, port: nat, uid: nat, mark: string)

  ghost predicate Bounded<K(!new)>(d: Dim<K>) {
    Exact(d) && |d.entries| <= MAX_STATS_KEYS
  }

  /** The two totals and the five dimensions, as a value. */
  datatype Book = Book(
    connections: nat, denied: nat,
    hosts: Dim<string>, procs: Dim<string>, addrs: Dim<string>, ports: Dim<nat>, users: Dim<nat>)

  /** `record`: every dimension counts the hit under its own key. */
  function Recorded(b: Book, hit: Hit): Book {
    Book(SaturatingInc(b.connections), if hit.mark == "deny" then SaturatingInc(b.denied) else b.denied,
         Bump(b.hosts, hit.host, hit.mark), Bump(b.procs, hit.executable, hit.mark), Bump(b.addrs, hit.ipv4, hit.mark),
         Bump(b.ports, hit.port, hit.mark), Bump(b.users, hit.uid, hit.mark))
  }

  /** `record_unattributed_deny`: only the totals know about it. */
  function Missed(b: Book): Book {
    b.(connections := SaturatingInc(b.connections), denied := SaturatingInc(b.denied))
  }

  /** The five dimensions and the two totals. */
  class StatsStore {
    var connections: nat
    var denied: nat
    var hosts: Dim<string>
    var procs: Dim<string>
    var addrs: Dim<string>
    var ports: Dim<nat>
    var users: Dim<nat>

    ghost predicate Valid() reads this {
      Bounded(hosts) && Bounded(procs) && Bounded(addrs) && Bounded(ports) && Bounded(users)
    }

    ghost function State(): Book reads this {
      Book(connections, denied, hosts, procs, addrs, ports, users)
    }

    constructor ()
      ensures Valid() && connections == 0 && denied == 0
      ensures hosts == procs == addrs == Fifo(map[], []) && ports == users == Fifo(map[], [])
    {
      connections, denied := 0, 0;
      hosts, procs, addrs := Fifo(map[], []), Fifo(map[], []), Fifo(map[], []);
      ports, users := Fifo(map[], []), Fifo(map[], []);
    }

    method Record(hit: Hit)
      requires Valid()
      modifies this
      ensures Valid() && State() == Recorded(old(State()), hit)
    {
      hide Bounded, Bump;
      connections := SaturatingInc(connections);
      if hit.mark == "deny" {
        denied := SaturatingInc(denied);
      }
      hosts := BumpKey(hosts, hit.host, hit.mark);
      procs := BumpKey(procs, hit.executable, hit.mark);
      addrs := BumpKey(addrs, hit.ipv4, hit.mark);
      ports := BumpKey(ports, hit.port, hit.mark);
      users := BumpKey(users, hit.uid, hit.mark);
    }

    method RecordUnattributedDeny()
      requires Valid()
      modifies this`connections, this`denied
      ensures Valid() && State() == Missed(old(State()))
    {
      hide Bounded;
      connections, denied := SaturatingInc(connections), SaturatingInc(denied);
    }
  }

  // ------------------------------------------------ counters against history

  function Capped(n: nat): nat { if n < U64_MAX then n else U64_MAX }

  /** Hits on `key` among calls `lo..hi`, all of them or only those with one verdict label. */
  function Count<K(==)>(history: seq<(K, string)>, lo: nat, hi: nat, key: K, mark: Option<string>): nat
    requires lo <= hi <= |history|
    decreases hi
  {
    if lo == hi then 0
    else
      var (k, l) := history[hi - 1];
      Count(history, lo, hi - 1, key, mark) +
      if k == key && (mark.None? || mark.value == l) then 1 else 0
  }

  function Update(mark: string): Option<Counters> -> Counters {
    (c: Option<Counters>) => Bumped(c.GetOr(ZERO), mark)
  }

  /** The history of one dimension as store calls; nothing ever expires. */
  function Calls<K(!new, ==)>(history: seq<(K, string)>): (ops: seq<Op<K, Counters>>)
    ensures |ops| == |history|
  {
    seq(|history|, i requires 0 <= i < |history| => Insert(history[i].0, Update(history[i].1), {}))
  }

  /** One bump is one store call, so `Fifo.At` over the calls is the dimension itself. */
  lemma BumpIsCall<K(!new)>(d: Dim<K>, key: K, mark: string)
    requires Exact(d)
    ensures Bump(d, key, mark) == Apply(d, MAX_STATS_KEYS, Insert(key, Update(mark), {}))
  {
    SweepNothing(d);
  }

  function Tally<K(==)>(history: seq<(K, string)>, lo: nat, hi: nat, key: K): Counters
    requires lo <= hi <= |history|
  {
    Counters(Capped(Count(history, lo, hi, key, None)),
             Capped(Count(history, lo, hi, key, Some("allow"))),
             Capped(Count(history, lo, hi, key, Some("deny"))),
             Capped(Count(history, lo, hi, key, Some("prompt"))))
  }

  lemma TallyStep<K(!new)>(history: seq<(K, string)>, lo: nat, hi: nat, key: K)
    requires lo < hi <= |history|
    ensures Tally(history, lo, hi, key) ==
            if history[hi - 1].0 == key then Bumped(Tally(history, lo, hi - 1, key), history[hi - 1].1)
            else Tally(history, lo, hi - 1, key)
  {
  }

  lemma TallyFirst<K(!new)>(history: seq<(K, string)>, n: nat, key: K)
    requires 0 < n <= |history| && history[n - 1].0 == key
    ensures Tally(history, n - 1, n, key) == Bumped(ZERO, history[n - 1].1)
  {
    assert Tally(history, n - 1, n - 1, key) == ZERO;
    TallyStep(history, n - 1, n, key);
  }

  /** Each resident counter is the tally of the hits on its key since it last became resident. */
  lemma {:induction false} CountersTallyResidence<K(!new)>(history: seq<(K, string)>, n: nat, key: K, b: nat)
    requires b < n <= |history| && key in At(Calls(history), MAX_STATS_KEYS, n).entries
    requires Born(Calls(history), MAX_STATS_KEYS, n, key, b)
    ensures At(Calls(history), MAX_STATS_KEYS, n).entries[key] == Tally(history, b, n, key)
  {
    hide *;
    var ops := Calls(history);
    BornNow(ops, MAX_STATS_KEYS, n, key, b);
    if b == n - 1 {
      FirstHit(history, n, key);
    } else {
      Older(ops, MAX_STATS_KEYS, n, key, b);
      CountersTallyResidence(history, n - 1, key, b);
      LaterHit(history, n, key);
      TallyStep(history, b, n, key);
    }
  }

  lemma FirstHit<K(!new)>(history: seq<(K, string)>, n: nat, key: K)
    requires 0 < n <= |history| && Born(Calls(history), MAX_STATS_KEYS, n, key, n - 1)
    ensures At(Calls(history), MAX_STATS_KEYS, n).entries[key] == Tally(history, n - 1, n, key)
  {
    hide *;
    var f := At(Calls(history), MAX_STATS_KEYS, n - 1);
    LastCall(history, n);
    RunExact(history, n - 1);
    SweepNothing(f);
    BornNow(Calls(history), MAX_STATS_KEYS, n, key, n - 1);
    StepValue(f, history[n - 1].0, history[n - 1].1, key);
    TallyFirst(history, n, key);
  }

  lemma LaterHit<K(!new)>(history: seq<(K, string)>, n: nat, key: K)
    requires 0 < n <= |history|
    requires key in At(Calls(history), MAX_STATS_KEYS, n - 1).entries
    requires key in At(Calls(history), MAX_STATS_KEYS, n).entries
    ensures var old', new' := At(Calls(history), MAX_STATS_KEYS, n - 1), At(Calls(history), MAX_STATS_KEYS, n);
            new'.entries[key] ==
            if history[n - 1].0 == key then Bumped(old'.entries[key], history[n - 1].1) else old'.entries[key]
  {
    hide *;
    LastCall(history, n);
    RunExact(history, n - 1);
    StepValue(At(Calls(history), MAX_STATS_KEYS, n - 1), history[n - 1].0, history[n - 1].1, key);
  }

  lemma LastCall<K(!new)>(history: seq<(K, string)>, n: nat)
    requires 0 < n <= |history|
    ensures var ops := Calls(history);
            && ops[n - 1] == Insert(history[n - 1].0, Update(history[n - 1].1), {})
            && At(ops, MAX_STATS_KEYS, n) == Apply(At(ops, MAX_STATS_KEYS, n - 1), MAX_STATS_KEYS, ops[n - 1])
  {
    hide Apply;
  }

  lemma StepValue<K(!new)>(f: Dim<K>, k: K, mark: string, key: K)
    requires Exact(f)
    requires key in Apply(f, MAX_STATS_KEYS, Insert(k, Update(mark), {})).entries
    requires key in f.entries || k == key
    ensures Apply(f, MAX_STATS_KEYS, Insert(k, Update(mark), {})).entries[key] ==
            if k != key then f.entries[key]
            else Bumped(if key in f.entries then f.entries[key] else ZERO, mark)
  {
    hide Bumped, Exact;
    SweepNothing(f);
  }

  lemma {:induction false} RunExact<K(!new)>(history: seq<(K, string)>, n: nat)
    requires n <= |history|
    ensures Exact(At(Calls(history), MAX_STATS_KEYS, n))
    ensures |At(Calls(history), MAX_STATS_KEYS, n).entries| <= MAX_STATS_KEYS
  {
    hide Apply;
    if n > 0 {
      hide Exact;
      RunExact(history, n - 1);
      var f := At(Calls(history), MAX_STATS_KEYS, n - 1);
      assert Covered(f) by { ExactCovered(f); }
      ApplyKeeps(f, MAX_STATS_KEYS, Calls(history)[n - 1]);
    }
  }

  /** One dimension after the first `n` hits of its history. */
  function Bumps<K(!new, ==)>(history: seq<(K, string)>, n: nat): Dim<K>
    requires n <= |history|
  {
    if n == 0 then Fifo(map[], []) else Bump(Bumps(history, n - 1), history[n - 1].0, history[n - 1].1)
  }

  lemma {:induction false} BumpsAreCalls<K(!new)>(history: seq<(K, string)>, n: nat)
    requires n <= |history|
    ensures Bumps(history, n) == At(Calls(history), MAX_STATS_KEYS, n)
  {
    hide Apply, Exact, Bump, Update;
    if n > 0 {
      BumpsAreCalls(history, n - 1);
      RunExact(history, n - 1);
      BumpIsCall(Bumps(history, n - 1), history[n - 1].0, history[n - 1].1);
    }
  }

  /** Every resident row of a dimension is the tally of the hits since its key last became resident. */
  lemma ResidentRowIsTally<K(!new)>(history: seq<(K, string)>, n: nat, key: K) returns (b: nat)
    requires n <= |history| && key in Bumps(history, n).entries
    ensures b < n && Born(Calls(history), MAX_STATS_KEYS, n, key, b)
    ensures forall other: nat :: Born(Calls(history), MAX_STATS_KEYS, n, key, other) ==> other == b
    ensures Bumps(history, n).entries[key] == Tally(history, b, n, key)
  {
    hide Bumps, At, Tally;
    BumpsAreCalls(history, n);
    b := BirthOf(Calls(history), MAX_STATS_KEYS, n, key);
    CountersTallyResidence(history, n, key, b);
    forall other: nat | Born(Calls(history), MAX_STATS_KEYS, n, key, other) ensures other == b {
      BornUnique(Calls(history), MAX_STATS_KEYS, n, key, b, other);
    }
  }

  /**
   In every history, a hit drives a row out of a dimension if and only if its own key is new, the dimension is full,
   and no row has been there longer.
   */
  lemma EvictsLongest<K(!new)>(history: seq<(K, string)>, n: nat, gone: K)
    requires n < |history| && gone in Bumps(history, n).entries
    ensures var d := Bumps(history, n);
            gone !in Bumps(history, n + 1).entries <==>
            && history[n].0 !in d.entries && |d.entries| == MAX_STATS_KEYS
            && forall other :: other in d.entries && other != gone ==>
                 ResidentLonger(Calls(history), MAX_STATS_KEYS, n, gone, other)
  {
    var ops := Calls(history);
    LastCall(history, n + 1);
    RunExact(history, n);
    BumpsAreCalls(history, n);
    BumpsAreCalls(history, n + 1);
    SweepNothing(Bumps(history, n));
    hide Bumps, Calls, Sweep, ResidentLonger, Exact, Update;
    EvictionIsExact(ops, MAX_STATS_KEYS, n, gone);
  }

  /** A bump, field by field: one more hit, one more of its own outcome, and no dimension holds more than 512 keys. */
  lemma BumpInWords<K(!new)>(d: Dim<K>, key: K, mark: string)
    requires Exact(d) && |d.entries| <= 512
    ensures var after := Bump(d, key, mark);
            var was := if key in d.entries then d.entries[key] else Counters(0, 0, 0, 0);
            && |after.entries| <= 512 && key in after.entries
            && after.entries[key] ==
               Counters(SaturatingInc(was.hits),
                        if mark == "allow" then SaturatingInc(was.allow) else was.allow,
                        if mark == "deny" then SaturatingInc(was.deny) else was.deny,
                        if mark == "prompt" then SaturatingInc(was.prompt) else was.prompt)
  {
    PutKeeps(d, 512, key, Bumped(Lookup(d.entries, key).GetOr(ZERO), mark));
    hide Exact;
  }

  // ------------------------------------------------ the whole store

  /** The store after a list of connects; an unattributed one is `None`. */
  function BookOf(calls: seq<Option<Hit>>): Book {
    if calls == [] then
      Book(0, 0, Fifo(map[], []), Fifo(map[], []), Fifo(map[], []), Fifo(map[], []), Fifo(map[], []))
    else
      var before, last := BookOf(calls[..|calls| - 1]), calls[|calls| - 1];
      if last.Some? then Recorded(before, last.value) else Missed(before)
  }

  /** The history of one dimension: the attributed hits, each under its key in that dimension. */
  function Projected<K>(calls: seq<Option<Hit>>, key: Hit -> K): seq<(K, string)> {
    if calls == [] then []
    else
      var last := calls[|calls| - 1];
      Projected(calls[..|calls| - 1], key) + if last.Some? then [(key(last.value), last.value.mark)] else []
  }

  predicate IsDeny(c: Option<Hit>) { c.None? || c.value.mark == "deny" }

  function Denials(calls: seq<Option<Hit>>): nat {
    if calls == [] then 0 else Denials(calls[..|calls| - 1]) + if IsDeny(calls[|calls| - 1]) then 1 else 0
  }

  /** A dimension after its whole history. */
  function Tabled<K(!new, ==)>(history: seq<(K, string)>): Dim<K> {
    Bumps(history, |history|)
  }

  lemma {:induction false} BumpsPrefix<K(!new)>(history: seq<(K, string)>, hit: (K, string), n: nat)
    requires n <= |history|
    ensures Bumps(history + [hit], n) == Bumps(history, n)
  {
    hide Bump;
    if n > 0 {
      BumpsPrefix(history, hit, n - 1);
    }
  }

  lemma TabledSnoc<K(!new)>(history: seq<(K, string)>, key: K, mark: string)
    ensures Tabled(history + [(key, mark)]) == Bump(Tabled(history), key, mark)
  {
    BumpsPrefix(history, (key, mark), |history|);
    hide Bump;
  }

  /** One more connect, seen from one dimension. */
  lemma ProjectedSnoc<K(!new)>(calls: seq<Option<Hit>>, key: Hit -> K)
    requires calls != []
    ensures var before, last := Tabled(Projected(calls[..|calls| - 1], key)), calls[|calls| - 1];
            Tabled(Projected(calls, key)) ==
            if last.Some? then Bump(before, key(last.value), last.value.mark) else before
  {
    var front, last := Projected(calls[..|calls| - 1], key), calls[|calls| - 1];
    hide Bump, Tabled;
    if last.Some? {
      TabledSnoc(front, key(last.value), last.value.mark);
    } else {
      assert front + [] == front;
    }
  }

  /**
   After any list of connects each dimension of the store is the table of its own history, so what is said above about
   rows and evictions holds of all five, and the totals count all connects and all denials.
   */
  lemma {:induction false} StoreIsItsHistories(calls: seq<Option<Hit>>)
    ensures var b := BookOf(calls);
            && b.connections == Capped(|calls|) && b.denied == Capped(Denials(calls))
            && b.hosts == Tabled(Projected(calls, (h: Hit) => h.host))
            && b.procs == Tabled(Projected(calls, (h: Hit) => h.executable))
            && b.addrs == Tabled(Projected(calls, (h: Hit) => h.ipv4))
            && b.ports == Tabled(Projected(calls, (h: Hit) => h.port))
            && b.users == Tabled(Projected(calls, (h: Hit) => h.uid))
  {
    hide Bump, Tabled, Projected;
    if calls == [] {
      EmptyHistory((h: Hit) => h.host);
      EmptyHistory((h: Hit) => h.executable);
      EmptyHistory((h: Hit) => h.ipv4);
      EmptyHistory((h: Hit) => h.port);
      EmptyHistory((h: Hit) => h.uid);
    } else {
      StoreIsItsHistories(calls[..|calls| - 1]);
      ProjectedSnoc(calls, (h: Hit) => h.host);
      ProjectedSnoc(calls, (h: Hit) => h.executable);
      ProjectedSnoc(calls, (h: Hit) => h.ipv4);
      ProjectedSnoc(calls, (h: Hit) => h.port);
      ProjectedSnoc(calls, (h: Hit) => h.uid);
    }
  }

  lemma EmptyHistory<K(!new)>(key: Hit -> K)
    ensures Tabled(Projected([], key)) == Fifo(map[], [])
  {
  }
}

/** Bounded, TTL-expiring store of packet verdicts keyed by destination (pending.rs). */
module Pending {
  import opened Wrappers
  import opened Collections
  import opened Fifo

  datatype Verdict = Accept | Drop
  datatype DestKey = DestKey(ipv4: nat, port: nat)
  datatype Entry = Entry(verdict: Verdict, insertedAt: nat)

  type Table = Fifo<DestKey, Entry>

  /** The keys an expiry pass at `now` removes (`duration_since` saturates at zero). */
  function Dead(t: Table, ttl: nat, now: nat): set<DestKey> {
    set k | k in t.entries && now > t.entries[k].insertedAt + ttl
  }

  function Swept(t: Table, ttl: nat, now: nat): Table {
    Sweep(t, Dead(t, ttl, now))
  }

  /** `insert`: the expiry pass reads the clock at `now`, the new entry at `later`. */
  function Inserted(t: Table, cap: nat, ttl: nat, k: DestKey, v: Verdict, now: nat, later: nat): Table {
    Put(Swept(t, ttl, now), cap, k, Entry(v, later))
  }

  /** `take`: a fresh verdict leaves the map; its queue slot stays until the next pass. */
  function Taken(t: Table, ttl: nat, k: DestKey, now: nat): (Table, Option<Verdict>) {
    var s := Swept(t, ttl, now);
    if k in s.entries then (s.(entries := s.entries - {k}), Some(s.entries[k].verdict))
    else (s, None)
  }

  /** A verdict is handed out exactly when one is stored and its age is within the TTL. */
  lemma TakeIsFresh(t: Table, ttl: nat, k: DestKey, now: nat)
    ensures var (after, v) := Taken(t, ttl, k, now);
            && (v.Some? <==> k in t.entries && now <= t.entries[k].insertedAt + ttl)
            && (v.Some? ==> v.value == t.entries[k].verdict)
            && k !in after.entries
            && (forall j :: j in after.entries <==> j != k && j in t.entries && now <= t.entries[j].insertedAt + ttl)
            && (forall j :: j in after.entries ==> after.entries[j] == t.entries[j])
  {
  }

  /** After an insertion only the new entry is new, and every other survivor is fresh. */
  lemma InsertIsLocal(t: Table, cap: nat, ttl: nat, k: DestKey, v: Verdict, now: nat, later: nat, j: DestKey)
    ensures var after := Inserted(t, cap, ttl, k, v, now, later);
            && k in after.entries && after.entries[k] == Entry(v, later)
            && (j != k && j in after.entries ==>
                  j in t.entries && after.entries[j] == t.entries[j] && now <= t.entries[j].insertedAt + ttl)
  {
    hide Kept;
  }

  /** The calls of this store are store calls in the sense of `Fifo.Op`, so every run theorem there applies. */
  lemma CallsAreOps(t: Table, cap: nat, ttl: nat, k: DestKey, v: Verdict, now: nat, later: nat)
    ensures Inserted(t, cap, ttl, k, v, now, later) == Apply(t, cap, Insert(k, _ => Entry(v, later), Dead(t, ttl, now)))
    ensures Taken(t, ttl, k, now).0 == Apply(t, cap, Remove(k, Dead(t, ttl, now)))
    ensures Swept(t, ttl, now) == Apply(t, cap, Op.Expire(Dead(t, ttl, now)))
  {
    hide Kept;
    var s := Swept(t, ttl, now);
    assert k !in s.entries ==> s.entries - {k} == s.entries;
  }

  // ------------------------------------------------------------ runs

  datatype Call =
    | Storing(key: DestKey, verdict: Verdict, now: nat, later: nat)
    | Taking(key: DestKey, now: nat)
    | Expiring(now: nat)

  function Called(t: Table, cap: nat, ttl: nat, c: Call): Table {
    match c
    case Storing(k, v, now, later) => Inserted(t, cap, ttl, k, v, now, later)
    case Taking(k, now) => Taken(t, ttl, k, now).0
    case Expiring(now) => Swept(t, ttl, now)
  }

  /** The call as a store call: it expires exactly the entries that are stale when it reads the clock. */
  function OpOf(t: Table, ttl: nat, c: Call): Op<DestKey, Entry> {
    match c
    case Storing(k, v, now, later) => Insert(k, _ => Entry(v, later), Dead(t, ttl, now))
    case Taking(k, now) => Remove(k, Dead(t, ttl, now))
    case Expiring(now) => Op.Expire(Dead(t, ttl, now))
  }

  /** The table after the first `n` calls, starting empty. */
  function After(calls: seq<Call>, cap: nat, ttl: nat, n: nat): Table
    requires n <= |calls|
  {
    if n == 0 then Fifo(map[], []) else Called(After(calls, cap, ttl, n - 1), cap, ttl, calls[n - 1])
  }

  function Ops(calls: seq<Call>, cap: nat, ttl: nat): (ops: seq<Op<DestKey, Entry>>)
    ensures |ops| == |calls|
    ensures forall n :: 0 <= n < |calls| ==> ops[n] == OpOf(After(calls, cap, ttl, n), ttl, calls[n])
  {
    seq(|calls|, n requires 0 <= n < |calls| => OpOf(After(calls, cap, ttl, n), ttl, calls[n]))
  }

  lemma {:induction false} AfterIsAt(calls: seq<Call>, cap: nat, ttl: nat, n: nat)
    requires n <= |calls|
    ensures After(calls, cap, ttl, n) == At(Ops(calls, cap, ttl), cap, n)
  {
    hide Called, OpOf, Apply, Ops;
    if n > 0 {
      AfterIsAt(calls, cap, ttl, n - 1);
      CalledIsOp(After(calls, cap, ttl, n - 1), cap, ttl, calls[n - 1]);
      assert Ops(calls, cap, ttl)[n - 1] == OpOf(After(calls, cap, ttl, n - 1), ttl, calls[n - 1]);
    }
  }

  lemma CalledIsOp(t: Table, cap: nat, ttl: nat, c: Call)
    ensures Called(t, cap, ttl, c) == Apply(t, cap, OpOf(t, ttl, c))
  {
    hide Inserted, Taken, Swept, Apply, Dead;
    match c
    case Storing(k, v, now, later) => CallsAreOps(t, cap, ttl, k, v, now, later);
    case Taking(k, now) => CallsAreOps(t, cap, ttl, k, Drop, now, now);
    case Expiring(now) => CallsAreOps(t, cap, ttl, DestKey(0, 0), Drop, now, now);
  }

  /** In every run the queue has no duplicates and covers the map, and the bound holds. */
  lemma RunKeepsBound(calls: seq<Call>, cap: nat, ttl: nat, n: nat)
    requires n <= |calls| && 0 < cap
    ensures Covered(After(calls, cap, ttl, n)) && |After(calls, cap, ttl, n).entries| <= cap
  {
    hide *;
    AfterIsAt(calls, cap, ttl, n);
    RunKeeps(Ops(calls, cap, ttl), cap, n);
  }

  /** The keys with a decision that is still within the TTL. */
  function Unexpired(t: Table, ttl: nat, now: nat): set<DestKey> {
    set k | k in t.entries && now <= t.entries[k].insertedAt + ttl
  }

  lemma SweptKeys(t: Table, ttl: nat, now: nat)
    ensures Swept(t, ttl, now).entries.Keys == Unexpired(t, ttl, now)
    ensures |Swept(t, ttl, now).entries| == |Unexpired(t, ttl, now)|
  {
    hide Kept;
    assert Swept(t, ttl, now).entries.Keys == Unexpired(t, ttl, now);
  }

  /**
   In every run, storing a decision drives an unexpired one out if and only if its destination is new, the table is
   full of unexpired decisions, and none of them has been there longer.
   */
  lemma EvictsLongest(calls: seq<Call>, cap: nat, ttl: nat, n: nat, gone: DestKey)
    requires n < |calls| && 0 < cap && calls[n].Storing?
    requires gone in Unexpired(After(calls, cap, ttl, n), ttl, calls[n].now)
    ensures var live := Unexpired(After(calls, cap, ttl, n), ttl, calls[n].now);
            gone !in After(calls, cap, ttl, n + 1).entries <==>
            && calls[n].key !in live && |live| == cap
            && forall other :: other in live && other != gone ==>
                 ResidentLonger(Ops(calls, cap, ttl), cap, n, gone, other)
  {
    var t, c, ops := After(calls, cap, ttl, n), calls[n], Ops(calls, cap, ttl);
    assert ops[n] == OpOf(t, ttl, c);
    SweptKeys(t, ttl, c.now);
    hide After, Ops, Unexpired, Dead, Sweep, ResidentLonger;
    AfterIsAt(calls, cap, ttl, n);
    AfterIsAt(calls, cap, ttl, n + 1);
    EvictionIsExact(ops, cap, n, gone);
  }

  class PendingTable {
    const capacity: nat
    const ttl: nat
    var entries: map<DestKey, Entry>
    var order: seq<DestKey>

    ghost function State(): Table reads this { Fifo(entries, order) }

    ghost predicate Valid() reads this {
      0 < capacity && Covered(State()) && |entries| <= capacity
    }

    constructor (capacity: nat, ttl: nat)
      requires 0 < capacity
      ensures Valid() && State() == Fifo(map[], []) && this.capacity == capacity && this.ttl == ttl
    {
      this.capacity, this.ttl := capacity, ttl;
      entries, order := map[], [];
    }

    method Insert(k: DestKey, v: Verdict, now: nat, later: nat)
      requires Valid() && now <= later
      modifies this
      ensures Valid() && State() == Inserted(old(State()), capacity, ttl, k, v, now, later)
    {
      hide Exact, Covered, Kept, Sweep, Dead;
      Expire(now);
      SweepExact(old(State()), Dead(old(State()), ttl, now));
      PutKeeps(State(), capacity, k, Entry(v, later));
      ExactCovered(Put(State(), capacity, k, Entry(v, later)));
      if k in entries {
        entries := entries[k := Entry(v, later)];
        return;
      }
      entries, order := MakeRoom(entries, order, capacity);
      order := order + [k];
      entries := entries[k := Entry(v, later)];
    }

    method Take(k: DestKey, now: nat) returns (v: Option<Verdict>)
      requires Valid()
      modifies this
      ensures Valid() && (State(), v) == Taken(old(State()), ttl, k, now)
    {
      Expire(now);
      if k in entries {
        v := Some(entries[k].verdict);
        SubsetCard((entries - {k}).Keys, entries.Keys);
        assert |entries - {k}| == |(entries - {k}).Keys|;
        entries := entries - {k};
      } else {
        v := None;
      }
    }

    method Expire(now: nat)
      requires Valid()
      modifies this
      ensures Valid() && State() == Swept(old(State()), ttl, now)
      ensures Exact(State())
    {
      SweepExact(State(), Dead(State(), ttl, now));
      entries, order := RetainFresh(entries, order, ttl, now);
    }
  }

  /** `order.retain`, whose closure also removes each stale entry from the map. */
  method RetainFresh(entries: map<DestKey, Entry>, order: seq<DestKey>, ttl: nat, now: nat)
    returns (left: map<DestKey, Entry>, kept: seq<DestKey>)
    requires Covered(Fifo(entries, order))
    ensures Fifo(left, kept) == Swept(Fifo(entries, order), ttl, now)
  {
    hide Covered;
    ghost var dead := Dead(Fifo(entries, order), ttl, now);
    ghost var keep := entries.Keys - dead;
    left, kept := entries, [];
    var i := 0;
    while i < |order|
      invariant 0 <= i <= |order|
      invariant left == entries - (dead * Elems(order[..i]))
      invariant kept == Kept(order[..i], keep)
    {
      var key := order[i];
      KeptPush(order[..i], key, keep);
      assert order[..i + 1] == order[..i] + [key];
      assert Elems(order[..i + 1]) == Elems(order[..i]) + {key};
      FreshSlot(Fifo(entries, order), i);
      if key in left {
        if now > left[key].insertedAt + ttl {
          assert key in dead;
          left := left - {key};
        } else {
          assert key !in dead;
          kept := kept + [key];
        }
      } else {
        assert key !in entries;
      }
      i := i + 1;
    }
    assert order[..i] == order;
    AllQueued(Fifo(entries, order), dead);
  }

  lemma FreshSlot(t: Table, i: nat)
    requires Covered(t) && i < |t.order|
    ensures t.order[i] !in Elems(t.order[..i])
  {
  }

  lemma AllQueued(t: Table, dead: set<DestKey>)
    requires Covered(t) && dead <= t.entries.Keys
    ensures dead * Elems(t.order) == dead
  {
  }

  lemma {:induction false} KeptPush<T(!new)>(s: seq<T>, x: T, keep: set<T>)
    ensures Kept(s + [x], keep) == Kept(s, keep) + if x in keep then [x] else []
  {
    if s == [] {
      assert [x][1..] == [];
    } else {
      KeptPush(s[1..], x, keep);
      assert (s + [x])[1..] == s[1..] + [x];
    }
  }
}

/** Observed IPv4 answers mapped to hostnames until they expire (dns.rs). */
module Dns {
  import opened Wrappers
  import opened Collections
  import opened Fifo

  datatype Entry = Entry(hostname: string, expiresAt: nat)

  type Cache = Fifo<nat, Entry>

  function Lower(c: char): char {
    if 'A' <= c <= 'Z' then c - 'A' + 'a' else c
  }

  function LowerCase(s: string): string {
    if s == "" then "" else [Lower(s[0])] + LowerCase(s[1..])
  }

  /** Only the letters `A` to `Z` change, each to its own small letter. */
  lemma {:induction false} LowerCaseLetters(s: string)
    ensures |LowerCase(s)| == |s|
    ensures forall i :: 0 <= i < |s| ==>
              LowerCase(s)[i] == if 'A' <= s[i] <= 'Z' then (s[i] as int + 32) as char else s[i]
  {
    if s != "" {
      LowerCaseLetters(s[1..]);
      assert forall i :: 0 < i < |s| ==> s[i] == s[1..][i - 1] && LowerCase(s)[i] == LowerCase(s[1..])[i - 1];
    }
  }

  function Dead(c: Cache, now: nat): set<nat> {
    set ip | ip in c.entries && now >= c.entries[ip].expiresAt
  }

  function Swept(c: Cache, now: nat): Cache {
    Sweep(c, Dead(c, now))
  }

  function Observed(c: Cache, cap: nat, hostname: string, ip: nat, ttl: nat, now: nat, later: nat): Cache {
    Put(Swept(c, now), cap, ip, Entry(LowerCase(hostname), later + ttl))
  }

  function NameOf(c: Cache, ip: nat, now: nat): (Cache, Option<string>) {
    var s := Swept(c, now);
    (s, if ip in s.entries then Some(s.entries[ip].hostname) else None)
  }

  /** A name is reported exactly while it is unexpired, so a stale name never reaches a rule. */
  lemma NamesAreFresh(c: Cache, ip: nat, now: nat)
    ensures NameOf(c, ip, now).1.Some? <==> ip in c.entries && now < c.entries[ip].expiresAt
    ensures NameOf(c, ip, now).1.Some? ==> NameOf(c, ip, now).1.value == c.entries[ip].hostname
  {
  }

  lemma CallsAreOps(c: Cache, cap: nat, hostname: string, ip: nat, ttl: nat, now: nat, later: nat)
    ensures Observed(c, cap, hostname, ip, ttl, now, later) ==
            Apply(c, cap, Insert(ip, _ => Entry(LowerCase(hostname), later + ttl), Dead(c, now)))
    ensures NameOf(c, ip, now).0 == Apply(c, cap, Op.Expire(Dead(c, now)))
  {
    hide Kept;
  }

  /** A noted name is reported, in lower case, for exactly its time to live. */
  lemma NotedNameExpires(c: Cache, cap: nat, hostname: string, ip: nat, ttl: nat, now: nat, later: nat, asked: nat)
    ensures NameOf(Observed(c, cap, hostname, ip, ttl, now, later), ip, asked).1 ==
            if asked < later + ttl then Some(LowerCase(hostname)) else None
  {
    hide Kept, LowerCase;
    NamesAreFresh(Observed(c, cap, hostname, ip, ttl, now, later), ip, asked);
  }

  // ------------------------------------------------------------ runs

  datatype Call =
    | Observing(hostname: string, ip: nat, ttl: nat, now: nat, later: nat)
    | Asking(ip: nat, now: nat)

  function Called(c: Cache, cap: nat, call: Call): Cache {
    match call
    case Observing(hostname, ip, ttl, now, later) => Observed(c, cap, hostname, ip, ttl, now, later)
    case Asking(ip, now) => NameOf(c, ip, now).0
  }

  /** The call as a store call: it expires exactly the names that are stale when it reads the clock. */
  function OpOf(c: Cache, call: Call): Op<nat, Entry> {
    match call
    case Observing(hostname, ip, ttl, now, later) =>
      Insert(ip, _ => Entry(LowerCase(hostname), later + ttl), Dead(c, now))
    case Asking(ip, now) => Op.Expire(Dead(c, now))
  }

  /** The cache after the first `n` calls, starting empty. */
  function After(calls: seq<Call>, cap: nat, n: nat): Cache
    requires n <= |calls|
  {
    if n == 0 then Fifo(map[], []) else Called(After(calls, cap, n - 1), cap, calls[n - 1])
  }

  function Ops(calls: seq<Call>, cap: nat): (ops: seq<Op<nat, Entry>>)
    ensures |ops| == |calls|
    ensures forall n :: 0 <= n < |calls| ==> ops[n] == OpOf(After(calls, cap, n), calls[n])
  {
    seq(|calls|, n requires 0 <= n < |calls| => OpOf(After(calls, cap, n), calls[n]))
  }

  lemma {:induction false} AfterIsAt(calls: seq<Call>, cap: nat, n: nat)
    requires n <= |calls|
    ensures After(calls, cap, n) == At(Ops(calls, cap), cap, n)
  {
    hide Called, OpOf, Apply, Ops;
    if n > 0 {
      AfterIsAt(calls, cap, n - 1);
      CalledIsOp(After(calls, cap, n - 1), cap, calls[n - 1]);
      assert Ops(calls, cap)[n - 1] == OpOf(After(calls, cap, n - 1), calls[n - 1]);
    }
  }

  lemma CalledIsOp(c: Cache, cap: nat, call: Call)
    ensures Called(c, cap, call) == Apply(c, cap, OpOf(c, call))
  {
    hide Observed, NameOf, Apply, Dead, LowerCase;
    match call
    case Observing(hostname, ip, ttl, now, later) => CallsAreOps(c, cap, hostname, ip, ttl, now, later);
    case Asking(ip, now) => CallsAreOps(c, cap, "", ip, 0, now, now);
  }

  /** In every run the queue has no duplicates and covers the map, and the bound holds. */
  lemma RunKeepsBound(calls: seq<Call>, cap: nat, n: nat)
    requires n <= |calls| && 0 < cap
    ensures Covered(After(calls, cap, n)) && |After(calls, cap, n).entries| <= cap
  {
    hide *;
    AfterIsAt(calls, cap, n);
    RunKeeps(Ops(calls, cap), cap, n);
  }

  /** The addresses with a name that is still good. */
  function Unexpired(c: Cache, now: nat): set<nat> {
    set ip | ip in c.entries && now < c.entries[ip].expiresAt
  }

  lemma SweptKeys(c: Cache, now: nat)
    ensures Swept(c, now).entries.Keys == Unexpired(c, now) && |Swept(c, now).entries| == |Unexpired(c, now)|
  {
    hide Kept;
    assert Swept(c, now).entries.Keys == Unexpired(c, now);
  }

  /**
   In every run, noting a name drives an unexpired one out if and only if its address is new, the cache is full of
   unexpired names, and none of them has been there longer.
   */
  lemma EvictsLongest(calls: seq<Call>, cap: nat, n: nat, gone: nat)
    requires n < |calls| && 0 < cap && calls[n].Observing? && gone in Unexpired(After(calls, cap, n), calls[n].now)
    ensures var live := Unexpired(After(calls, cap, n), calls[n].now);
            gone !in After(calls, cap, n + 1).entries <==>
            && calls[n].ip !in live && |live| == cap
            && forall other :: other in live && other != gone ==> ResidentLonger(Ops(calls, cap), cap, n, gone, other)
  {
    var c, call, ops := After(calls, cap, n), calls[n], Ops(calls, cap);
    assert ops[n] == OpOf(c, call);
    SweptKeys(c, call.now);
    hide After, Ops, Unexpired, Dead, Sweep, ResidentLonger, LowerCase;
    AfterIsAt(calls, cap, n);
    AfterIsAt(calls, cap, n + 1);
    EvictionIsExact(ops, cap, n, gone);
  }

  class DnsCache {
    const capacity: nat
    const defaultTtl: nat
    var byIp: map<nat, Entry>
    var order: seq<nat>

    ghost function State(): Cache reads this { Fifo(byIp, order) }

    ghost predicate Valid() reads this {
      0 < capacity && Exact(State()) && |byIp| <= capacity
    }

    constructor (capacity: nat, defaultTtl: nat)
      requires 0 < capacity
      ensures Valid() && State() == Fifo(map[], []) && this.capacity == capacity && this.defaultTtl == defaultTtl
    {
      this.capacity, this.defaultTtl := capacity, defaultTtl;
      byIp, order := map[], [];
    }

    method Observe(hostname: string, ip: nat, ttl: Option<nat>, now: nat, later: nat)
      requires Valid() && now <= later
      modifies this
      ensures Valid() && State() == Observed(old(State()), capacity, hostname, ip, ttl.GetOr(defaultTtl), now, later)
    {
      hide Exact, Kept;
      Expire(now);
      var entry := Entry(LowerCase(hostname), later + ttl.GetOr(defaultTtl));
      PutKeeps(State(), capacity, ip, entry);
      if ip in byIp {
        byIp := byIp[ip := entry];
        return;
      }
      byIp, order := MakeRoom(byIp, order, capacity);
      order := order + [ip];
      byIp := byIp[ip := entry];
    }

    method HostnameFor(ip: nat, now: nat) returns (name: Option<string>)
      requires Valid()
      modifies this
      ensures Valid() && (State(), name) == NameOf(old(State()), ip, now)
    {
      Expire(now);
      name := if ip in byIp then Some(byIp[ip].hostname) else None;
    }

    method Expire(now: nat)
      requires Valid()
      modifies this
      ensures Valid() && State() == Swept(old(State()), now)
    {
      SweepExact(State(), Dead(State(), now));
      byIp := DropExpired(byIp, now);
      order := Kept(order, byIp.Keys);
    }
  }

  /** Collect the expired addresses, then remove them one by one in any order. */
  method DropExpired(byIp: map<nat, Entry>, now: nat) returns (left: map<nat, Entry>)
    ensures left == byIp - Dead(Fifo(byIp, []), now)
    ensures left.Keys == byIp.Keys - Dead(Fifo(byIp, []), now)
  {
    var expired := Dead(Fifo(byIp, []), now);
    var todo := expired;
    left := byIp;
    while todo != {}
      invariant todo <= expired
      invariant left == byIp - (expired - todo)
      decreases |todo|
    {
      var ip :| ip in todo;
      assert (expired - todo) + {ip} == expired - (todo - {ip});
      left := left - {ip};
      todo := todo - {ip};
    }
    assert expired - todo == expired;
  }
}

/** Process identities keyed by pid and start time (process.rs). */
module Process {
  import opened Wrappers
  import opened Collections
  import opened Fifo

  datatype Identity = Identity(
    pid: nat, startTicks: nat, executable: string, commandLine: seq<string>, uid: nat, cgroup: string)

  datatype AttributionError = Io | MalformedStat | PidReused(expected: nat, actual: nat)

  type Cache = Fifo<(nat, nat), Identity>

  /** What `/proc/<pid>` said, or how reading it failed. */
  type ProcRead = Result<Identity, AttributionError>

  /** `resolve`: the start-tick check that refuses a reused pid. */
  function Resolve(pid: nat, expected: nat, proc: ProcRead): Result<Identity, AttributionError> {
    match proc
    case Err(e) => Err(e)
    case Ok(seen) =>
      if expected != 0 && seen.startTicks != expected then Err(PidReused(expected, seen.startTicks))
      else Ok(seen.(pid := pid))
  }

  function Cached(c: Cache, cap: nat, who: Identity): Cache {
    var key := (who.pid, who.startTicks);
    if key in c.entries then c else Put(c, cap, key, who)
  }

  /** Every cached identity is filed under its own pid and start time. */
  ghost predicate Filed(c: Cache) {
    forall key :: key in c.entries ==> c.entries[key].pid == key.0 && c.entries[key].startTicks == key.1
  }

  lemma CachedKeepsFiled(c: Cache, cap: nat, who: Identity)
    requires Filed(c)
    ensures Filed(Cached(c, cap, who))
  {
    hide Kept;
  }

  // ------------------------------------------------------------ runs

  /** The cache after the first `n` insertions, starting empty. */
  function After(calls: seq<Identity>, cap: nat, n: nat): Cache
    requires n <= |calls|
  {
    if n == 0 then Fifo(map[], []) else Cached(After(calls, cap, n - 1), cap, calls[n - 1])
  }

  /** An insertion as a store call: a known identity stays as it is, and nothing expires. */
  function OpOf(who: Identity): Op<(nat, nat), Identity> {
    Insert((who.pid, who.startTicks), (o: Option<Identity>) => o.GetOr(who), {})
  }

  function Ops(calls: seq<Identity>): (ops: seq<Op<(nat, nat), Identity>>)
    ensures |ops| == |calls| && forall n :: 0 <= n < |calls| ==> ops[n] == OpOf(calls[n])
  {
    seq(|calls|, n requires 0 <= n < |calls| => OpOf(calls[n]))
  }

  lemma CallsAreOps(c: Cache, cap: nat, who: Identity)
    requires Exact(c)
    ensures Cached(c, cap, who) == Apply(c, cap, OpOf(who))
  {
    SweepNothing(c);
    hide Kept, Exact;
  }

  /** A known identity stays as it was; a new one is there as given; and nobody else's record changes. */
  lemma CachedExactly(c: Cache, cap: nat, who: Identity, other: (nat, nat))
    ensures var after, key := Cached(c, cap, who), (who.pid, who.startTicks);
            && key in after.entries && after.entries[key] == (if key in c.entries then c.entries[key] else who)
            && (other != key && other in after.entries
                ==> other in c.entries && after.entries[other] == c.entries[other])
  {
  }

  lemma CachedKeeps(c: Cache, cap: nat, who: Identity)
    requires Exact(c) && |c.entries| <= cap && 0 < cap && Filed(c)
    ensures Exact(Cached(c, cap, who)) && |Cached(c, cap, who).entries| <= cap && Filed(Cached(c, cap, who))
  {
    hide Exact, Filed, Put;
    CachedKeepsFiled(c, cap, who);
    PutKeeps(c, cap, (who.pid, who.startTicks), who);
  }

  /** In every run queue and map agree exactly, the bound holds, and each identity is filed under its own key. */
  lemma {:induction false} RunStaysExact(calls: seq<Identity>, cap: nat, n: nat)
    requires n <= |calls| && 0 < cap
    ensures var c := After(calls, cap, n); Exact(c) && |c.entries| <= cap && Filed(c)
  {
    if n > 0 {
      hide Exact, Filed, Cached;
      RunStaysExact(calls, cap, n - 1);
      CachedKeeps(After(calls, cap, n - 1), cap, calls[n - 1]);
    }
  }

  lemma {:induction false} AfterIsAt(calls: seq<Identity>, cap: nat, n: nat)
    requires n <= |calls| && 0 < cap
    ensures After(calls, cap, n) == At(Ops(calls), cap, n)
  {
    hide Cached, Apply, Ops, Exact, Filed;
    if n > 0 {
      AfterIsAt(calls, cap, n - 1);
      RunStaysExact(calls, cap, n - 1);
      CallsAreOps(After(calls, cap, n - 1), cap, calls[n - 1]);
    }
  }

  /**
   In every run, an insertion drives an identity out if and only if the inserted one is new, the cache is full, and
   no identity has been there longer.
   */
  lemma EvictsLongest(calls: seq<Identity>, cap: nat, n: nat, gone: (nat, nat))
    requires n < |calls| && 0 < cap && gone in After(calls, cap, n).entries
    ensures var c, who := After(calls, cap, n), calls[n];
            gone !in After(calls, cap, n + 1).entries <==>
            && (who.pid, who.startTicks) !in c.entries && |c.entries| == cap
            && forall other :: other in c.entries && other != gone ==> ResidentLonger(Ops(calls), cap, n, gone, other)
  {
    var c, ops := After(calls, cap, n), Ops(calls);
    assert ops[n] == OpOf(calls[n]);
    RunStaysExact(calls, cap, n);
    SweepNothing(c);
    hide After, Ops, Sweep, ResidentLonger, Exact, Filed;
    AfterIsAt(calls, cap, n);
    AfterIsAt(calls, cap, n + 1);
    EvictionIsExact(ops, cap, n, gone);
  }

  class ProcessCache {
    const capacity: nat
    var entries: map<(nat, nat), Identity>
    var order: seq<(nat, nat)>

    ghost function State(): Cache reads this { Fifo(entries, order) }

    ghost predicate Valid() reads this {
      0 < capacity && Exact(State()) && |entries| <= capacity && Filed(State())
    }

    constructor (capacity: nat)
      requires 0 < capacity
      ensures Valid() && State() == Fifo(map[], []) && this.capacity == capacity
    {
      this.capacity := capacity;
      entries, order := map[], [];
    }

    method Insert(who: Identity)
      requires Valid()
      modifies this
      ensures Valid() && State() == Cached(old(State()), capacity, who)
    {
      var key := (who.pid, who.startTicks);
      PutKeeps(State(), capacity, key, who);
      CachedKeepsFiled(State(), capacity, who);
      ExactSize(State());
      if key in entries {
        return;
      }
      if |entries| == capacity {
        if order != [] {
          entries, order := entries - {order[0]}, order[1..];
        }
      }
      order := order + [key];
      entries := entries[key := who];
    }
  }
}

/** Recent destinations of each process identity, two bounded levels (recent.rs). */
module Recent {
  import opened Wrappers
  import opened Collections
  import opened Fifo

  datatype Dest = Dest(ipv4: nat, port: nat, verdict: string)

  type Table = Fifo<(nat, nat), seq<Dest>>

  predicate SameTarget(a: Dest, b: Dest) {
    a.ipv4 == b.ipv4 && a.port == b.port
  }

  predicate Targets(q: seq<Dest>, d: Dest) {
    exists i :: 0 <= i < |q| && SameTarget(q[i], d)
  }

  /** One row per target, at most `perKey` rows. */
  predicate Tidy(q: seq<Dest>, perKey: nat) {
    |q| <= perKey && forall i, j :: 0 <= i < j < |q| ==> !SameTarget(q[i], q[j])
  }

  /** Refresh the verdict of a known target in place, else append and drop the oldest. */
  function Noted(q: seq<Dest>, perKey: nat, d: Dest): seq<Dest>
    requires 0 < perKey
  {
    if Targets(q, d) then
      seq(|q|, i requires 0 <= i < |q| => if SameTarget(q[i], d) then q[i].(verdict := d.verdict) else q[i])
    else if |q| < perKey then q + [d]
    else q[|q| - (perKey - 1)..] + [d]
  }

  function Recorded(t: Table, cap: nat, perKey: nat, key: (nat, nat), d: Dest): Table
    requires 0 < perKey
  {
    Put(t, cap, key, Noted(Lookup(t.entries, key).GetOr([]), perKey, d))
  }

  /**
   The row for the target carries the newest verdict and the list stays tidy. A known target keeps its place and
   every other row; a new one goes last, and only the oldest row makes room for it.
   */
  lemma NotedKeeps(q: seq<Dest>, perKey: nat, d: Dest)
    requires Tidy(q, perKey) && 0 < perKey
    ensures Tidy(Noted(q, perKey, d), perKey) && d in Noted(q, perKey, d)
    ensures Targets(q, d) ==> |Noted(q, perKey, d)| == |q|
    ensures Targets(q, d) ==> forall i :: 0 <= i < |q| && !SameTarget(q[i], d) ==> Noted(q, perKey, d)[i] == q[i]
    ensures !Targets(q, d) ==> Noted(q, perKey, d) == (if |q| < perKey then q + [d] else (q + [d])[1..])
  {
    var r := Noted(q, perKey, d);
    if Targets(q, d) {
      var i :| 0 <= i < |q| && SameTarget(q[i], d);
      assert r[i] == d;
    } else {
      assert r[|r| - 1] == d;
    }
  }

  lemma RowIsThere(q: seq<Dest>, perKey: nat, d: Dest)
    requires 0 < perKey
    ensures d in Noted(q, perKey, d)
  {
    var r := Noted(q, perKey, d);
    if Targets(q, d) {
      var i :| 0 <= i < |q| && SameTarget(q[i], d);
      assert r[i] == d;
    } else {
      assert r[|r| - 1] == d;
    }
  }

  lemma FirstRow(perKey: nat, d: Dest)
    requires 0 < perKey
    ensures Noted([], perKey, d) == [d]
  {
  }

  /** Rows for another address or port are never touched, and only a missing row lengthens the list. */
  lemma OtherRowsStay(q: seq<Dest>, perKey: nat, d: Dest, i: nat)
    requires Tidy(q, perKey) && 0 < perKey && i < |q| && (q[i].ipv4 != d.ipv4 || q[i].port != d.port)
    ensures q[i] in Noted(q, perKey, d) || (i == 0 && |q| == perKey)
    ensures (exists j :: 0 <= j < |q| && q[j].ipv4 == d.ipv4 && q[j].port == d.port) ==>
              |Noted(q, perKey, d)| == |q| && Noted(q, perKey, d)[i] == q[i]
  {
    var r := Noted(q, perKey, d);
    if Targets(q, d) {
      assert r[i] == q[i];
    } else if |q| < perKey {
      assert r[i] == q[i];
    } else if i > 0 {
      assert r[i - 1] == q[i];
    }
  }

  lemma EmptyTidy(perKey: nat)
    ensures Tidy([], perKey)
  {
  }

  // ------------------------------------------------------------ runs

  datatype Call = Recording(key: (nat, nat), dest: Dest)

  /** The table after the first `n` records, starting empty. */
  function After(calls: seq<Call>, cap: nat, perKey: nat, n: nat): Table
    requires n <= |calls| && 0 < perKey
  {
    if n == 0 then Fifo(map[], [])
    else Recorded(After(calls, cap, perKey, n - 1), cap, perKey, calls[n - 1].key, calls[n - 1].dest)
  }

  /** A record as a store call: nothing expires. */
  function OpOf(perKey: nat, key: (nat, nat), d: Dest): Op<(nat, nat), seq<Dest>>
    requires 0 < perKey
  {
    Insert(key, (o: Option<seq<Dest>>) => Noted(o.GetOr([]), perKey, d), {})
  }

  function Ops(calls: seq<Call>, perKey: nat): (ops: seq<Op<(nat, nat), seq<Dest>>>)
    requires 0 < perKey
    ensures |ops| == |calls| && forall n :: 0 <= n < |calls| ==> ops[n] == OpOf(perKey, calls[n].key, calls[n].dest)
  {
    seq(|calls|, n requires 0 <= n < |calls| => OpOf(perKey, calls[n].key, calls[n].dest))
  }

  lemma CallsAreOps(t: Table, cap: nat, perKey: nat, key: (nat, nat), d: Dest)
    requires Exact(t) && 0 < perKey
    ensures Recorded(t, cap, perKey, key, d) == Apply(t, cap, OpOf(perKey, key, d))
  {
    SweepNothing(t);
    hide Kept, Exact, Noted;
  }

  ghost predicate AllTidy(t: Table, perKey: nat) {
    forall key :: key in t.entries ==> Tidy(t.entries[key], perKey)
  }

  lemma TidyRow(t: Table, perKey: nat, key: (nat, nat))
    requires AllTidy(t, perKey)
    ensures Tidy(Lookup(t.entries, key).GetOr([]), perKey)
  {
  }

  lemma RecordedKeeps(t: Table, cap: nat, perKey: nat, key: (nat, nat), d: Dest)
    requires 0 < cap && 0 < perKey && Exact(t) && |t.entries| <= cap && AllTidy(t, perKey)
    ensures var r := Recorded(t, cap, perKey, key, d); Exact(r) && |r.entries| <= cap && AllTidy(r, perKey)
  {
    hide Exact, Noted, Tidy;
    var q := Lookup(t.entries, key).GetOr([]);
    EmptyTidy(perKey);
    NotedKeeps(q, perKey, d);
    PutKeeps(t, cap, key, Noted(q, perKey, d));
  }

  /** In every run queue and map agree exactly, and both bounds hold with one row per target. */
  lemma {:induction false} RunStaysExact(calls: seq<Call>, cap: nat, perKey: nat, n: nat)
    requires n <= |calls| && 0 < cap && 0 < perKey
    ensures var t := After(calls, cap, perKey, n); Exact(t) && |t.entries| <= cap && AllTidy(t, perKey)
  {
    hide Exact, Recorded, AllTidy;
    if n == 0 {
      StartsTidy(perKey);
    } else {
      RunStaysExact(calls, cap, perKey, n - 1);
      RecordedKeeps(After(calls, cap, perKey, n - 1), cap, perKey, calls[n - 1].key, calls[n - 1].dest);
    }
  }

  lemma StartsTidy(perKey: nat)
    ensures var t: Table := Fifo(map[], []); Exact(t) && |t.entries| == 0 && AllTidy(t, perKey)
  {
  }

  lemma {:induction false} AfterIsAt(calls: seq<Call>, cap: nat, perKey: nat, n: nat)
    requires n <= |calls| && 0 < cap && 0 < perKey
    ensures After(calls, cap, perKey, n) == At(Ops(calls, perKey), cap, n)
  {
    hide Recorded, Apply, Ops, Exact, AllTidy;
    if n > 0 {
      AfterIsAt(calls, cap, perKey, n - 1);
      RunStaysExact(calls, cap, perKey, n - 1);
      CallsAreOps(After(calls, cap, perKey, n - 1), cap, perKey, calls[n - 1].key, calls[n - 1].dest);
    }
  }

  /**
   In every run, a record drives a process out if and only if its own process is new, the table is full, and no
   process has been there longer.
   */
  lemma EvictsLongest(calls: seq<Call>, cap: nat, perKey: nat, n: nat, gone: (nat, nat))
    requires n < |calls| && 0 < cap && 0 < perKey && gone in After(calls, cap, perKey, n).entries
    ensures var t := After(calls, cap, perKey, n);
            gone !in After(calls, cap, perKey, n + 1).entries <==>
            && calls[n].key !in t.entries && |t.entries| == cap
            && forall other :: other in t.entries && other != gone ==>
                 ResidentLonger(Ops(calls, perKey), cap, n, gone, other)
  {
    var t, ops := After(calls, cap, perKey, n), Ops(calls, perKey);
    assert ops[n] == OpOf(perKey, calls[n].key, calls[n].dest);
    RunStaysExact(calls, cap, perKey, n);
    SweepNothing(t);
    hide After, Ops, Sweep, ResidentLonger, Exact, AllTidy, Noted;
    AfterIsAt(calls, cap, perKey, n);
    AfterIsAt(calls, cap, perKey, n + 1);
    EvictionIsExact(ops, cap, n, gone);
  }

  class RecentConnects {
    const capacityKeys: nat
    const perKey: nat
    var order: seq<(nat, nat)>
    var entries: map<(nat, nat), seq<Dest>>

    ghost function State(): Table reads this { Fifo(entries, order) }

    ghost predicate Valid() reads this {
      && 0 < capacityKeys && 0 < perKey
      && Exact(State()) && |entries| <= capacityKeys && AllTidy(State(), perKey)
    }

    constructor (capacityKeys: nat, perKey: nat)
      requires 0 < capacityKeys && 0 < perKey
      ensures Valid() && State() == Fifo(map[], [])
      ensures this.capacityKeys == capacityKeys && this.perKey == perKey
    {
      this.capacityKeys, this.perKey := capacityKeys, perKey;
      entries, order := map[], [];
    }

    method Record(key: (nat, nat), d: Dest)
      requires Valid()
      modifies this
      ensures Valid() && State() == Recorded(old(State()), capacityKeys, perKey, key, d)
    {
      hide Exact, Noted, Tidy;
      ghost var q0 := Lookup(entries, key).GetOr([]);
      EmptyTidy(perKey);
      RecordedKeeps(State(), capacityKeys, perKey, key, d);
      hide AllTidy;
      assert Tidy(q0, perKey) by { TidyRow(State(), perKey, key); }
      if key !in entries {
        entries, order := MakeRoom(entries, order, capacityKeys);
        order := order + [key];
        entries := entries[key := []];
        assert entries[key := Noted(q0, perKey, d)]
            == Evicted(old(State()), capacityKeys).entries[key := Noted(q0, perKey, d)];
      }
      var queue := NoteDest(entries[key], perKey, d);
      entries := entries[key := queue];
      assert State() == Recorded(old(State()), capacityKeys, perKey, key, d);
    }
  }

  /** The inner queue: find the target, else pop until there is room and push. */
  method NoteDest(q: seq<Dest>, perKey: nat, d: Dest) returns (r: seq<Dest>)
    requires Tidy(q, perKey) && 0 < perKey
    ensures r == Noted(q, perKey, d)
  {
    var i := 0;
    while i < |q|
      invariant 0 <= i <= |q|
      invariant forall j :: 0 <= j < i ==> !SameTarget(q[j], d)
    {
      if SameTarget(q[i], d) {
        r := q[i := q[i].(verdict := d.verdict)];
        return;
      }
      i := i + 1;
    }
    r := q;
    while |r| >= perKey
      invariant |r| <= |q| && r == q[|q| - |r|..] && (|r| == |q| || |r| >= perKey - 1)
    {
      r := r[1..];
    }
    r := r + [d];
  }
}

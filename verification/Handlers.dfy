/** The two threads' bodies on the live structures (observe.rs, nfqueue_live.rs). */
module Handlers {
  import opened Wrappers
  import opened Collections
  import opened Text
  import opened Rules
  import opened Prompts
  import opened Policy
  import Fifo
  import Pending
  import Process
  import Dns
  import Recent
  import Packet
  import Stats
  import Audit

  // ------------------------------------------------------------ the observer thread

  /** Which locks can be taken; a poisoned one makes the handler stop or skip. */
  datatype Locks = Locks(tables: bool, pending: bool, stats: bool, audit: bool)

  /** The row of the statistics; `show` prints an address. */
  function HitOf(s: ConnectStats, show: nat -> string): Stats.Hit {
    Stats.Hit(s.executable, s.hostname.GetOr(show(s.ipv4)), show(s.ipv4), s.port, s.uid, s.outcome)
  }

  function Counted(b: Stats.Book, d: Decision, show: nat -> string): Stats.Book {
    if d.stats.Some? then Stats.Recorded(b, HitOf(d.stats.value, show)) else Stats.Missed(b)
  }

  /** The audit message of a connect. */
  function ConnectMessage(port: nat, attributed: bool, outcome: string): string {
    "connect port=" + Show(port) + " attributed=" + (if attributed then "true" else "false") + " outcome=" + outcome
  }

  function MessageOf(d: Decision): string {
    ConnectMessage(d.key.port, d.attributed, if d.stats.Some? then d.stats.value.outcome else "deny")
  }

  /** The second part of `handle_event`: store the verdict, count the connect and log it, each under its own lock. */
  method RecordDecision(
    d: Decision, pending: Pending.PendingTable, stats: Stats.StatsStore, audit: Audit.AuditLog,
    locks: Locks, now: nat, later: nat, show: nat -> string, io: Audit.Io)
    requires pending.Valid() && stats.Valid() && 0 < audit.maxRecords && now <= later
    modifies pending, stats, audit
    ensures pending.Valid() && stats.Valid()
    ensures pending.State() ==
            if locks.pending
            then Pending.Inserted(old(pending.State()), pending.capacity, pending.ttl, d.key, d.verdict, now, later)
            else old(pending.State())
    ensures stats.State() == if locks.stats then Counted(old(stats.State()), d, show) else old(stats.State())
    ensures audit.State() ==
            if locks.audit then Audit.Appended(audit.Bounds(), old(audit.State()), MessageOf(d), io)
            else old(audit.State())
  {
    hide Pending.Inserted, Stats.Recorded, Stats.Bounded, Audit.Appended, MessageOf;
    if locks.pending {
      pending.Insert(d.key, d.verdict, now, later);
    }
    if locks.stats {
      if d.stats.Some? {
        stats.Record(HitOf(d.stats.value, show));
      } else {
        stats.RecordUnattributedDeny();
      }
    }
    if locks.audit {
      audit.Append(MessageOf(d), io);
    }
  }

  /**
   `handle_event`: decide under the table locks, then store, count and log. A poisoned table lock ends it before
   anything happens; any other poisoned lock only skips what it guards.
   */
  method HandleEvent(
    e: Event, rules: RuleSet, cache: Process.ProcessCache, prompts: PromptQueue, dns: Dns.DnsCache,
    recent: Recent.RecentConnects, pending: Pending.PendingTable, stats: Stats.StatsStore, audit: Audit.AuditLog,
    locks: Locks, proc: Process.ProcRead, t: Readings, now: nat, later: nat, show: nat -> string, io: Audit.Io)
    requires cache.Valid() && dns.Valid() && recent.Valid() && pending.Valid() && stats.Valid() && 0 < audit.maxRecords
    requires t.Ordered() && t.create <= now <= later
    modifies cache, prompts, dns, recent, pending, stats, audit
    ensures cache.Valid() && dns.Valid() && recent.Valid() && pending.Valid() && stats.Valid()
    ensures !locks.tables ==>
              && Tables(cache.State(), prompts.State(), dns.State(), recent.State()) ==
                 old(Tables(cache.State(), prompts.State(), dns.State(), recent.State()))
              && pending.State() == old(pending.State()) && stats.State() == old(stats.State())
              && audit.State() == old(audit.State())
    ensures locks.tables ==>
              var (tables, d) :=
                Decide(old(Tables(cache.State(), prompts.State(), dns.State(), recent.State())), rules.rules,
                       Limits(cache.capacity, recent.capacityKeys, recent.perKey), e, proc, t);
              && Tables(cache.State(), prompts.State(), dns.State(), recent.State()) == tables
              && pending.State() ==
                 (if locks.pending
                  then Pending.Inserted(old(pending.State()), pending.capacity, pending.ttl,
                                        d.key, d.verdict, now, later)
                  else old(pending.State()))
              && stats.State() == (if locks.stats then Counted(old(stats.State()), d, show) else old(stats.State()))
              && audit.State() ==
                 (if locks.audit then Audit.Appended(audit.Bounds(), old(audit.State()), MessageOf(d), io)
                  else old(audit.State()))
  {
    hide Decide, Pending.Inserted, Counted, Audit.Appended, MessageOf, Stats.Bounded, Fifo.Exact, Fifo.Covered,
         Process.Filed, Recent.Tidy;
    if !locks.tables {
      return;
    }
    var d := DecideEvent(e, rules, cache, prompts, dns, recent, proc, t);
    RecordDecision(d, pending, stats, audit, locks, now, later, show, io);
  }

  /** An attributed connect is counted under its own process, name or else address, address, port and user. */
  lemma DecisionIsCounted(
    b: Stats.Book, q: Queue, dns: Dns.Cache, rules: seq<Rule>, who: Process.Identity, e: Event, t: Readings,
    show: nat -> string)
    requires t.Ordered()
    ensures var d := DecideAttributed(q, dns, rules, who, e, t).2;
            && d.stats.Some?
            && var outcome, after := d.stats.value.outcome, Counted(b, d, show);
               var host := match KnownName(dns, e.ipv4, t.dns) case Some(name) => name case None => show(e.ipv4);
               && (d.verdict.Accept? <==> outcome == "allow") && outcome in {"allow", "deny", "prompt"}
               && after.procs == Stats.Bump(b.procs, who.executable, outcome)
               && after.hosts == Stats.Bump(b.hosts, host, outcome)
               && after.addrs == Stats.Bump(b.addrs, show(e.ipv4), outcome)
               && after.ports == Stats.Bump(b.ports, e.port, outcome)
               && after.users == Stats.Bump(b.users, who.uid, outcome)
               && after.connections == SaturatingInc(b.connections)
               && after.denied == if outcome == "deny" then SaturatingInc(b.denied) else b.denied
  {
    DecisionExactly(q, dns, rules, who, e, t);
    hide DecideAttributed, VerdictFor, Stats.Bump;
  }

  // ------------------------------------------------------------ what it logs

  /** The message for one connect, letter by letter. */
  lemma MessageInWords(outcome: string)
    ensures ConnectMessage(7, true, outcome) == "connect port=7 attributed=true outcome=" + outcome
    ensures ConnectMessage(7, false, outcome) == "connect port=7 attributed=false outcome=" + outcome
  {
    MessageStart();
    hide Show;
    var head := "connect port=" + Show(7) + " attributed=";
    assert head + "true" + " outcome=" == "connect port=7 attributed=true outcome=";
    assert head + "false" + " outcome=" == "connect port=7 attributed=false outcome=";
  }

  lemma MessageStart()
    ensures "connect port=" + Show(7) + " attributed=" == "connect port=7 attributed="
  {
    assert Show(7) == "7";
    hide Show;
  }

  /** The daemon's own limits on the audit log. */
  const DAEMON_LOG: Audit.Config := Audit.Config(1_048_576, 2_000)

  predicate IsOutcome(s: string) { s == "allow" || s == "deny" || s == "prompt" }

  /** A message that `handle_event` writes. */
  ghost predicate IsConnectMessage(m: string) {
    exists port: nat, attributed, outcome ::
      port < 65536 && IsOutcome(outcome) && m == ConnectMessage(port, attributed, outcome)
  }

  lemma DecisionIsLogged(tb: Tables, rules: seq<Rule>, lim: Limits, e: Event, proc: Process.ProcRead, t: Readings)
    requires 0 < lim.recentPerKey && e.port < 65536
    ensures IsConnectMessage(MessageOf(Decide(tb, rules, lim, e, proc, t).1))
  {
    var d := Decide(tb, rules, lim, e, proc, t).1;
    var outcome := if d.stats.Some? then d.stats.value.outcome else "deny";
    assert IsOutcome(outcome) && d.key.port == e.port by {
      hide Attribute, TakeOnceAllow, ConsumeOnceDeny, Enqueue, Dns.NameOf, Recent.Recorded, VerdictFor;
    }
    hide Decide, ConnectMessage, IsOutcome;
    assert MessageOf(d) == ConnectMessage(d.key.port, d.attributed, outcome);
  }

  /** Every line the daemon logs is far below the cap and does not end in a carriage return. */
  lemma ConnectLineFits(m: string, sequence: nat)
    requires IsConnectMessage(m) && sequence <= U64_MAX
    ensures |Audit.Format(Audit.Record(sequence, m))| <= DAEMON_LOG.maxBytes && !Audit.EndsInCr(m)
  {
    var port: nat, attributed, outcome :|
      port < 65536 && IsOutcome(outcome) && m == ConnectMessage(port, attributed, outcome);
    assert Pow10(5) == 100000 && Pow10(20) == 100000000000000000000;
    ShowLength(port, 5);
    ShowLength(sequence, 20);
    hide Show, Pow10;
    assert |m| <= 100;
    assert m[|m| - 1] == outcome[|outcome| - 1];
  }

  /** The log of the running daemon: at any point of any run of connects and restarts, reopening restores it. */
  lemma {:induction false} DaemonLogRestores(steps: seq<Audit.Step>, n: nat)
    requires n <= |steps| < U64_MAX
    requires forall i :: 0 <= i < |steps| && steps[i].Append? ==> IsConnectMessage(steps[i].message)
    ensures var log := Audit.At(DAEMON_LOG, steps, n);
            var again := Audit.Opened(DAEMON_LOG, log.file);
            again.records == Audit.PlainAll(log.records) && again.nextSeq == log.nextSeq
  {
    hide Audit.At, Audit.Opened, Audit.Format, Audit.EndsInCr, Audit.Synced, IsConnectMessage;
    forall i | 0 <= i < |steps| && steps[i].Append? ensures !Audit.EndsInCr(steps[i].message) {
      ConnectLineFits(steps[i].message, 0);
    }
    forall i | 0 <= i < |steps| && steps[i].Append?
      ensures |Audit.Format(Audit.Record(Audit.At(DAEMON_LOG, steps, i).nextSeq, steps[i].message))| <=
              DAEMON_LOG.maxBytes
    {
      var disk := Audit.RunSyncs(DAEMON_LOG, steps, i);
      ConnectLineFits(steps[i].message, Audit.At(DAEMON_LOG, steps, i).nextSeq);
    }
    Audit.ReopenRestores(DAEMON_LOG, steps, n);
  }

  // ------------------------------------------------------------ the packet thread

  /** A decision that the observer thread stores. */
  datatype Put = Put(key: Pending.DestKey, verdict: Pending.Verdict, now: nat, later: nat)

  /** What comes before one attempt, whether its lock is poisoned, and its clock reading. */
  datatype Turn = Turn(puts: seq<Put>, poisoned: bool, now: nat)

  function Stored(t: Pending.Table, cap: nat, ttl: nat, puts: seq<Put>): Pending.Table {
    if puts == [] then t
    else
      var last := puts[|puts| - 1];
      Pending.Inserted(Stored(t, cap, ttl, puts[..|puts| - 1]), cap, ttl, last.key, last.verdict, last.now, last.later)
  }

  /** The table that attempt `n` finds if no earlier one found anything. */
  function Found(t: Pending.Table, cap: nat, ttl: nat, k: Pending.DestKey, turns: seq<Turn>, n: nat): Pending.Table
    requires n < |turns|
  {
    var before := if n == 0 then t else Pending.Taken(Found(t, cap, ttl, k, turns, n - 1), ttl, k, turns[n - 1].now).0;
    Stored(before, cap, ttl, turns[n].puts)
  }

  /** The table holds an unexpired decision for the key. */
  predicate Holds(t: Pending.Table, ttl: nat, k: Pending.DestKey, now: nat) {
    k in t.entries && now <= t.entries[k].insertedAt + ttl
  }

  predicate Ordered(turns: seq<Turn>) {
    forall i, j :: 0 <= i < |turns| && 0 <= j < |turns[i].puts| ==> turns[i].puts[j].now <= turns[i].puts[j].later
  }

  method StoreAll(pending: Pending.PendingTable, puts: seq<Put>)
    requires pending.Valid() && forall i :: 0 <= i < |puts| ==> puts[i].now <= puts[i].later
    modifies pending
    ensures pending.Valid() && pending.State() == Stored(old(pending.State()), pending.capacity, pending.ttl, puts)
  {
    hide Pending.Inserted;
    var i := 0;
    while i < |puts|
      invariant 0 <= i <= |puts| && pending.Valid()
      invariant pending.State() == Stored(old(pending.State()), pending.capacity, pending.ttl, puts[..i])
    {
      pending.Insert(puts[i].key, puts[i].verdict, puts[i].now, puts[i].later);
      assert puts[..i + 1][..i] == puts[..i];
      i := i + 1;
    }
    assert puts[..i] == puts;
  }

  /** Attempt `n` gets the lock and finds nothing. */
  ghost predicate Misses(t: Pending.Table, cap: nat, ttl: nat, k: Pending.DestKey, turns: seq<Turn>, n: nat)
    requires n < |turns|
  {
    !turns[n].poisoned && !Holds(Found(t, cap, ttl, k, turns, n), ttl, k, turns[n].now)
  }

  /**
   `lookup_verdict` on the live table, with the observer thread storing whatever it likes before each of the fifty
   attempts. A packet is accepted exactly when it parses and the first attempt that does not miss gets the lock and
   finds an unexpired Accept; that decision has then left the table.
   */
  method LookupVerdict(payload: seq<Packet.Byte>, pending: Pending.PendingTable, turns: seq<Turn>)
    returns (verdict: Pending.Verdict)
    requires pending.Valid() && |turns| == 50 && Ordered(turns)
    modifies pending
    ensures pending.Valid()
    ensures Packet.TcpDestination(payload).None? ==> verdict.Drop? && pending.State() == old(pending.State())
    ensures Packet.TcpDestination(payload).Some? ==>
              var k, t := Packet.TcpDestination(payload).value, old(pending.State());
              var cap, ttl := pending.capacity, pending.ttl;
              && (verdict.Accept? <==>
                    exists n :: 0 <= n < 50 && Accepts(t, cap, ttl, k, turns, n))
              && (verdict.Accept? ==> k !in pending.entries)
  {
    hide Packet.TcpDestination, Pending.Taken, Stored, Holds, Misses, Accepts, Fifo.Covered;
    var key := Packet.TcpDestination(payload);
    if key.None? {
      return Pending.Drop;
    }
    var k := key.value;
    ghost var t, cap, ttl := pending.State(), pending.capacity, pending.ttl;
    var attempt := 0;
    while attempt < 50
      invariant 0 <= attempt <= 50 && pending.Valid()
      invariant forall m :: 0 <= m < attempt ==> Misses(t, cap, ttl, k, turns, m)
      invariant pending.State() ==
                if attempt == 0 then t
                else Pending.Taken(Found(t, cap, ttl, k, turns, attempt - 1), ttl, k, turns[attempt - 1].now).0
    {
      var turn := turns[attempt];
      StoreAll(pending, turn.puts);
      AttemptOutcome(t, cap, ttl, k, turns, attempt);
      if turn.poisoned {
        return Pending.Drop;
      }
      var v := pending.Take(k, turn.now);
      if v.Some? {
        return v.value;
      }
      attempt := attempt + 1;
    }
    NoneAccepts(t, cap, ttl, k, turns);
    verdict := Pending.Drop;
  }

  /** After misses only, attempt `n` settles the matter unless it misses too. */
  lemma {:induction false} AttemptOutcome(
    t: Pending.Table, cap: nat, ttl: nat, k: Pending.DestKey, turns: seq<Turn>, n: nat)
    requires n < |turns| && forall m :: 0 <= m < n ==> Misses(t, cap, ttl, k, turns, m)
    ensures var (after, v) := Pending.Taken(Found(t, cap, ttl, k, turns, n), ttl, k, turns[n].now);
            && (turns[n].poisoned ==> forall j :: 0 <= j < |turns| ==> !Accepts(t, cap, ttl, k, turns, j))
            && (!turns[n].poisoned && v.None? ==> Misses(t, cap, ttl, k, turns, n))
            && (!turns[n].poisoned && v.Some? ==>
                  && k !in after.entries
                  && (v.value.Accept? <==> exists j :: 0 <= j < |turns| && Accepts(t, cap, ttl, k, turns, j)))
  {
    Pending.TakeIsFresh(Found(t, cap, ttl, k, turns, n), ttl, k, turns[n].now);
    FirstDecides(t, cap, ttl, k, turns, n);
    hide Found, Pending.Taken;
    var v := Pending.Taken(Found(t, cap, ttl, k, turns, n), ttl, k, turns[n].now).1;
    if !turns[n].poisoned && v == Some(Pending.Accept) {
      assert Accepts(t, cap, ttl, k, turns, n);
    }
  }

  lemma {:induction false} NoneAccepts(t: Pending.Table, cap: nat, ttl: nat, k: Pending.DestKey, turns: seq<Turn>)
    requires forall m :: 0 <= m < |turns| ==> Misses(t, cap, ttl, k, turns, m)
    ensures forall j :: 0 <= j < |turns| ==> !Accepts(t, cap, ttl, k, turns, j)
  {
    hide Found, Holds;
    forall j | 0 <= j < |turns| ensures !Accepts(t, cap, ttl, k, turns, j) {
      assert Misses(t, cap, ttl, k, turns, j);
    }
  }

  /** Every attempt before `n` misses, and attempt `n` takes an Accept. */
  ghost predicate Accepts(t: Pending.Table, cap: nat, ttl: nat, k: Pending.DestKey, turns: seq<Turn>, n: nat)
    requires n < |turns|
  {
    && (forall m :: 0 <= m < n ==> Misses(t, cap, ttl, k, turns, m))
    && !turns[n].poisoned
    && var found := Found(t, cap, ttl, k, turns, n);
       Holds(found, ttl, k, turns[n].now) && found.entries[k].verdict.Accept?
  }

  /** Once an attempt does not miss, only that attempt can accept. */
  lemma {:induction false} FirstDecides(
    t: Pending.Table, cap: nat, ttl: nat, k: Pending.DestKey, turns: seq<Turn>, n: nat)
    requires n < |turns| && forall m :: 0 <= m < n ==> Misses(t, cap, ttl, k, turns, m)
    ensures !Misses(t, cap, ttl, k, turns, n) ==>
              forall j :: 0 <= j < |turns| && Accepts(t, cap, ttl, k, turns, j) ==> j == n
  {
    hide Found, Holds;
    forall j | 0 <= j < |turns| && Accepts(t, cap, ttl, k, turns, j)
      ensures !Misses(t, cap, ttl, k, turns, j) && (n < j ==> Misses(t, cap, ttl, k, turns, n))
    {
    }
  }
}

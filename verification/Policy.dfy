/** Observation and rules mapped into packet verdicts, failing closed (policy.rs). */
module Policy {
  import opened Wrappers
  import opened Collections
  import opened Rules
  import opened Prompts
  import Fifo
  import Pending
  import Process
  import Dns
  import Recent

  datatype Event = Event(pid: nat, startTicks: nat, ipv4: nat, port: nat)

  /** The clock readings of one decision, in program order. */
  datatype Readings = Readings(token: nat, check: nat, deny: nat, dns: nat, enqueue: nat, create: nat) {
    predicate Ordered() { token <= check <= deny <= dns <= enqueue <= create }
  }

  datatype Limits = Limits(processes: nat, recentKeys: nat, recentPerKey: nat)

  datatype ConnectStats = ConnectStats(
    executable: string, hostname: Option<string>, ipv4: nat, port: nat, uid: nat, outcome: string)

  datatype Decision = Decision(
    key: Pending.DestKey, verdict: Pending.Verdict, attributed: bool, promptId: Option<nat>,
    stats: Option<ConnectStats>)

  datatype Tables = Tables(cache: Process.Cache, prompts: Queue, dns: Dns.Cache, recent: Recent.Table)

  function DestOf(e: Event): Pending.DestKey {
    Pending.DestKey(e.ipv4, e.port)
  }

  function KeyOf(who: Process.Identity, e: Event): PromptKey {
    PromptKey(who.executable, e.ipv4, e.port)
  }

  function ConnectionOf(who: Process.Identity, e: Event, hostname: Option<string>): Connection {
    Connection(who.executable, Tcp, Outbound, e.ipv4, hostname, e.port)
  }

  // ------------------------------------------------------------ attribution

  /** A cached identity is used only for a known start time; otherwise `/proc` is read. */
  function Attribute(c: Process.Cache, cap: nat, e: Event, proc: Process.ProcRead)
    : (Process.Cache, Result<Process.Identity, Process.AttributionError>)
  {
    if e.startTicks != 0 && (e.pid, e.startTicks) in c.entries then (c, Ok(c.entries[(e.pid, e.startTicks)]))
    else
      match Process.Resolve(e.pid, e.startTicks, proc)
      case Err(why) => (c, Err(why))
      case Ok(who) => (Process.Cached(c, cap, who), Ok(who))
  }

  /** Attribution never names another process: the pid is the event's, and so is a known start time. */
  lemma AttributionIsSound(c: Process.Cache, cap: nat, e: Event, proc: Process.ProcRead)
    requires Process.Filed(c)
    ensures var (c', who) := Attribute(c, cap, e, proc);
            && Process.Filed(c')
            && (who.Ok? ==> who.value.pid == e.pid && (e.startTicks != 0 ==> who.value.startTicks == e.startTicks))
  {
    var r := Process.Resolve(e.pid, e.startTicks, proc);
    if r.Ok? {
      Process.CachedKeepsFiled(c, cap, r.value);
    }
  }

  /**
   Attribution, case by case: a known start time that is cached needs nothing else; otherwise `/proc` is asked, and what
   it said is taken as it is, unless the start time is known and is not the one it found.
   */
  lemma AttributionExactly(c: Process.Cache, cap: nat, e: Event, proc: Process.ProcRead)
    ensures var who := Attribute(c, cap, e, proc).1;
            if e.startTicks != 0 && (e.pid, e.startTicks) in c.entries then who == Ok(c.entries[(e.pid, e.startTicks)])
            else
              match proc
              case Err(why) => who == Err(why)
              case Ok(seen) =>
                if e.startTicks == 0 || seen.startTicks == e.startTicks then
                  who == Ok(
                    Process.Identity(
                      e.pid, seen.startTicks, seen.executable, seen.commandLine, seen.uid, seen.cgroup))
                else who == Err(Process.PidReused(e.startTicks, seen.startTicks))
  {
    hide Process.Cached;
  }

  /** A process read from `/proc` is remembered: asked again under its own start time, nothing else is needed. */
  lemma AttributionIsCached(c: Process.Cache, cap: nat, e: Event, proc: Process.ProcRead, again: Process.ProcRead)
    requires Process.Filed(c)
    ensures var (after, who) := Attribute(c, cap, e, proc);
            who.Ok? && who.value.startTicks != 0 ==>
              Attribute(after, cap, Event(e.pid, who.value.startTicks, e.ipv4, e.port), again).1.Ok?
  {
  }

  // ------------------------------------------------------------ decision

  function Stats(who: Process.Identity, e: Event, hostname: Option<string>, outcome: string): Option<ConnectStats> {
    Some(ConnectStats(who.executable, hostname, e.ipv4, e.port, who.uid, outcome))
  }

  function DecideAttributed(q: Queue, dns: Dns.Cache, rules: seq<Rule>, who: Process.Identity, e: Event, t: Readings)
    : (Queue, Dns.Cache, Decision)
  {
    var key := KeyOf(who, e);
    var (q1, allowed) := TakeOnceAllow(q, key, t.token, t.check);
    var (dns', name) := Dns.NameOf(dns, e.ipv4, t.dns);
    if allowed then (q1, dns', Decision(DestOf(e), Pending.Accept, true, None, Stats(who, e, name, "allow")))
    else
      var (q2, denied) := ConsumeOnceDeny(q1, key, t.deny);
      if denied then (q2, dns', Decision(DestOf(e), Pending.Drop, true, None, Stats(who, e, name, "deny")))
      else
        match VerdictFor(rules, ConnectionOf(who, e, name))
        case Allow => (q2, dns', Decision(DestOf(e), Pending.Accept, true, None, Stats(who, e, name, "allow")))
        case Deny => (q2, dns', Decision(DestOf(e), Pending.Drop, true, None, Stats(who, e, name, "deny")))
        case Prompt =>
          var (q3, outcome) := Enqueue(q2, key, t.enqueue, t.create);
          var id := if outcome.Full? then None else Some(outcome.id);
          (q3, dns', Decision(DestOf(e), Pending.Drop, true, id, Stats(who, e, name, "prompt")))
  }

  function Unattributed(e: Event): Decision {
    Decision(DestOf(e), Pending.Drop, false, None, None)
  }

  function Decide(tb: Tables, rules: seq<Rule>, lim: Limits, e: Event, proc: Process.ProcRead, t: Readings)
    : (Tables, Decision)
    requires 0 < lim.recentPerKey
  {
    var (cache, who) := Attribute(tb.cache, lim.processes, e, proc);
    match who
    case Err(_) => (tb.(cache := cache), Unattributed(e))
    case Ok(id) =>
      var (q, dns, d) := DecideAttributed(tb.prompts, tb.dns, rules, id, e, t);
      var recent := Recent.Recorded(tb.recent, lim.recentKeys, lim.recentPerKey, (id.pid, id.startTicks),
                                    Recent.Dest(e.ipv4, e.port, d.stats.value.outcome));
      (Tables(cache, q, dns, recent), d)
  }

  /** A once-allow token for the connection exists and is still fresh when it is checked. */
  predicate TokenLive(q: Queue, key: PromptKey, t: Readings) {
    key in q.onceAllows && t.check <= q.onceAllows[key] + q.ttl
  }

  /** A once-deny token applies; an overfull set of them is forgotten first. */
  predicate DenyLive(q: Queue, key: PromptKey) {
    key in q.onceDenies && |q.onceDenies| <= q.capacity
  }

  /** Some rule that no matching rule outranks allows the connection. */
  ghost predicate RuleAllows(rules: seq<Rule>, c: Connection) {
    exists r :: Top(rules, c, r) && r.verdict.Allow?
  }

  lemma TokenOutcome(q: Queue, key: PromptKey, t: Readings)
    requires t.Ordered()
    ensures TakeOnceAllow(q, key, t.token, t.check).1 <==> TokenLive(q, key, t)
    ensures ConsumeOnceDeny(TakeOnceAllow(q, key, t.token, t.check).0, key, t.deny).1 <==> DenyLive(q, key)
  {
    hide Kept, KeysOf;
  }

  lemma AllowedByRule(rules: seq<Rule>, c: Connection)
    requires UniqueIds(rules)
    ensures VerdictFor(rules, c).Allow? <==> RuleAllows(rules, c)
  {
    BestIsTop(rules, c);
    if r :| Top(rules, c, r) && r.verdict.Allow? {
      TopDecides(rules, c, r);
    }
  }

  /**
   The whole decision, exactly: Accept means attributed, and either a live once-allow token, or no
   deny token and a top-precedence Allow rule. Everything else is Drop.
   */
  lemma AcceptIffAllowed(q: Queue, dns: Dns.Cache, rules: seq<Rule>, who: Process.Identity, e: Event, t: Readings)
    requires t.Ordered() && UniqueIds(rules)
    ensures var d := DecideAttributed(q, dns, rules, who, e, t).2;
            var key, c := KeyOf(who, e), ConnectionOf(who, e, Dns.NameOf(dns, e.ipv4, t.dns).1);
            && d.attributed && d.key == DestOf(e)
            && (d.verdict.Accept? <==> TokenLive(q, key, t) || (!DenyLive(q, key) && RuleAllows(rules, c)))
            && d.stats.Some? && (d.stats.value.outcome == "allow" <==> d.verdict.Accept?)
            && (d.promptId.Some? ==> d.stats.value.outcome == "prompt")
  {
    TokenOutcome(q, KeyOf(who, e), t);
    AllowedByRule(rules, ConnectionOf(who, e, Dns.NameOf(dns, e.ipv4, t.dns).1));
    hide TakeOnceAllow, ConsumeOnceDeny, Enqueue, VerdictFor, RuleAllows, TokenLive, DenyLive, Dns.NameOf;
  }

  // ------------------------------------------------------------ the decision in terms of the event

  /** The hostname on record for the address, as long as it has not expired. */
  function KnownName(dns: Dns.Cache, ipv4: nat, now: nat): Option<string> {
    if ipv4 in dns.entries && now < dns.entries[ipv4].expiresAt then Some(dns.entries[ipv4].hostname) else None
  }

  /** What the rules are asked about: the process, the address, its unexpired name, and the port. */
  function Asked(who: Process.Identity, e: Event, dns: Dns.Cache, now: nat): Connection {
    Connection(who.executable, Tcp, Outbound, e.ipv4, KnownName(dns, e.ipv4, now), e.port)
  }

  /** A once-allow token for this executable, address and port that is within its time to live. */
  predicate HoldsAllow(q: Queue, who: Process.Identity, e: Event, t: Readings) {
    var key := PromptKey(who.executable, e.ipv4, e.port);
    key in q.onceAllows && t.check <= q.onceAllows[key] + q.ttl
  }

  /** A once-deny token for this executable, address and port, among no more of them than prompts are allowed. */
  predicate HoldsDeny(q: Queue, who: Process.Identity, e: Event) {
    PromptKey(who.executable, e.ipv4, e.port) in q.onceDenies && |q.onceDenies| <= q.capacity
  }

  /**
   The whole decision in terms of the event, the tokens, the names and the rules: its outcome, its destination, the
   statistics row and the verdict.
   */
  lemma DecisionExactly(q: Queue, dns: Dns.Cache, rules: seq<Rule>, who: Process.Identity, e: Event, t: Readings)
    requires t.Ordered()
    ensures var d, asked := DecideAttributed(q, dns, rules, who, e, t).2, Asked(who, e, dns, t.dns);
            var outcome := if HoldsAllow(q, who, e, t) then "allow"
                           else if HoldsDeny(q, who, e) then "deny"
                           else match VerdictFor(rules, asked)
                                case Allow => "allow"
                                case Deny => "deny"
                                case Prompt => "prompt";
            && d.attributed && d.key == Pending.DestKey(e.ipv4, e.port)
            && d.stats ==
               Some(ConnectStats(who.executable, KnownName(dns, e.ipv4, t.dns), e.ipv4, e.port, who.uid, outcome))
            && d.verdict == (if outcome == "allow" then Pending.Accept else Pending.Drop)
            && (d.promptId.Some? ==> outcome == "prompt")
  {
    hide TakeOnceAllow, ConsumeOnceDeny, Enqueue, VerdictFor, Dns.NameOf, HoldsAllow, HoldsDeny;
    TokensInWords(q, who, e, t);
    NameInWords(dns, who, e, t);
  }

  /**
   The step as a whole: an event that cannot be attributed is dropped and leaves everything but the process cache alone;
   another one is decided for its process, and the destination and outcome go into that process's recent list.
   */
  lemma DecideExactly(tb: Tables, rules: seq<Rule>, lim: Limits, e: Event, proc: Process.ProcRead, t: Readings)
    requires 0 < lim.recentPerKey && t.Ordered()
    ensures var (after, d) := Decide(tb, rules, lim, e, proc, t);
            match Attribute(tb.cache, lim.processes, e, proc).1
            case Err(_) =>
              && d == Decision(Pending.DestKey(e.ipv4, e.port), Pending.Drop, false, None, None)
              && after.prompts == tb.prompts && after.dns == tb.dns && after.recent == tb.recent
            case Ok(who) =>
              && (after.prompts, after.dns, d) == DecideAttributed(tb.prompts, tb.dns, rules, who, e, t)
              && d.stats.Some?
              && var row, key := Recent.Dest(e.ipv4, e.port, d.stats.value.outcome), (who.pid, who.startTicks);
                 && key in after.recent.entries && row in after.recent.entries[key]
                 && (key !in tb.recent.entries ==> after.recent.entries[key] == [row])
  {
    hide DecideAttributed, Attribute, Recent.Noted;
    match Attribute(tb.cache, lim.processes, e, proc).1
    case Err(_) =>
    case Ok(who) =>
      DecisionExactly(tb.prompts, tb.dns, rules, who, e, t);
      var outcome := DecideAttributed(tb.prompts, tb.dns, rules, who, e, t).2.stats.value.outcome;
      var row, key := Recent.Dest(e.ipv4, e.port, outcome), (who.pid, who.startTicks);
      Recent.RowIsThere(Fifo.Lookup(tb.recent.entries, key).GetOr([]), lim.recentPerKey, row);
      Recent.FirstRow(lim.recentPerKey, row);
  }

  /** Without tokens, a rule that is decisive for what the rules are asked about decides. */
  lemma DecisiveRuleDecides(
    q: Queue, dns: Dns.Cache, rules: seq<Rule>, who: Process.Identity, e: Event, t: Readings, r: Rule)
    requires t.Ordered() && UniqueIds(rules) && !HoldsAllow(q, who, e, t) && !HoldsDeny(q, who, e)
    requires Decisive(rules, Asked(who, e, dns, t.dns), r)
    ensures DecideAttributed(q, dns, rules, who, e, t).2.verdict ==
            if r.verdict.Allow? then Pending.Accept else Pending.Drop
  {
    DecisionExactly(q, dns, rules, who, e, t);
    VerdictByFields(rules, Asked(who, e, dns, t.dns));
    hide DecideAttributed, Decisive, VerdictFor;
  }

  /**
   A rule that allows the executable in general and one that denies it the name of the destination: while the name is
   on record the connect is dropped, and as soon as it has expired the connect is accepted.
   */
  lemma NamedDenyHolds(
    q: Queue, dns: Dns.Cache, who: Process.Identity, e: Event, t: Readings, general: nat, named: nat)
    requires t.Ordered() && !HoldsAllow(q, who, e, t) && !HoldsDeny(q, who, e) && general != named
    requires e.ipv4 in dns.entries
    ensures var name := dns.entries[e.ipv4].hostname;
            var rules := [Rule(general, who.executable, None, None, None, None, None, Allow, Permanent),
                          Rule(named, who.executable, None, None, None, Some(name), None, Deny, Permanent)];
            DecideAttributed(q, dns, rules, who, e, t).2.verdict ==
            if t.dns < dns.entries[e.ipv4].expiresAt then Pending.Drop else Pending.Accept
  {
    var name := dns.entries[e.ipv4].hostname;
    var allow := Rule(general, who.executable, None, None, None, None, None, Allow, Permanent);
    var deny := Rule(named, who.executable, None, None, None, Some(name), None, Deny, Permanent);
    var asked := Asked(who, e, dns, t.dns);
    DecisionExactly(q, dns, [allow, deny], who, e, t);
    TwoRules(allow, deny, asked);
    hide DecideAttributed, VerdictFor;
  }

  /** The same for a rule that denies the destination's address, or another one. */
  lemma AddressDenyHolds(
    q: Queue, dns: Dns.Cache, who: Process.Identity, e: Event, t: Readings, general: nat, special: nat, address: nat)
    requires t.Ordered() && !HoldsAllow(q, who, e, t) && !HoldsDeny(q, who, e) && general != special
    ensures var rules := [Rule(general, who.executable, None, None, None, None, None, Allow, Permanent),
                          Rule(special, who.executable, None, None, Some(address), None, None, Deny, Permanent)];
            DecideAttributed(q, dns, rules, who, e, t).2.verdict ==
            if address == e.ipv4 then Pending.Drop else Pending.Accept
  {
    var allow := Rule(general, who.executable, None, None, None, None, None, Allow, Permanent);
    var deny := Rule(special, who.executable, None, None, Some(address), None, None, Deny, Permanent);
    DecisionExactly(q, dns, [allow, deny], who, e, t);
    TwoRules(allow, deny, Asked(who, e, dns, t.dns));
    hide DecideAttributed, VerdictFor;
  }

  /** A general rule and one with a single constraint more: the latter decides what it matches. */
  lemma TwoRules(general: Rule, special: Rule, c: Connection)
    requires Matches(general, c) && Constraints(general) < Constraints(special)
    ensures VerdictFor([general, special], c) == if Matches(special, c) then special.verdict else general.verdict
  {
    assert [general, special][..1] == [general] && [general][..0] == [] && Best([], c) == None;
    assert Best([general], c) == Some(general);
    hide Matches, Constraints;
  }

  /** A rule that names another value than the event has changes no decision at all. */
  lemma OtherRuleHasNoEffect(
    q: Queue, dns: Dns.Cache, rules: seq<Rule>, who: Process.Identity, e: Event, t: Readings, r: Rule)
    requires
      || r.executable != who.executable
      || r.protocol == Some(Udp) || r.direction == Some(Inbound)
      || (r.address.Some? && r.address.value != e.ipv4)
      || (r.hostname.Some? && KnownName(dns, e.ipv4, t.dns) != r.hostname)
      || (r.port.Some? && r.port.value != e.port)
    ensures DecideAttributed(q, dns, rules + [r], who, e, t) == DecideAttributed(q, dns, rules, who, e, t)
  {
    Dns.NamesAreFresh(dns, e.ipv4, t.dns);
    OtherValueHasNoEffect(rules, r, Asked(who, e, dns, t.dns));
    hide TakeOnceAllow, ConsumeOnceDeny, Enqueue, VerdictFor, Dns.NameOf;
  }

  /**
   A connect that the rules leave open is prompted for: it names the prompt that waits for it, or a new one under the
   next id if there is room, and none if there is not.
   */
  lemma PromptExactly(q: Queue, dns: Dns.Cache, rules: seq<Rule>, who: Process.Identity, e: Event, t: Readings)
    requires Inv(q) && q.nextId < U64_MAX && t.Ordered()
    requires !HoldsAllow(q, who, e, t) && !HoldsDeny(q, who, e) && VerdictFor(rules, Asked(who, e, dns, t.dns)).Prompt?
    ensures var (r, _, d) := DecideAttributed(q, dns, rules, who, e, t);
            var key, live := PromptKey(who.executable, e.ipv4, e.port), LiveIds(q, t.enqueue);
            && (forall id :: id in live && q.prompts[id].key == key ==> d.promptId == Some(id))
            && ((forall id :: id in live ==> q.prompts[id].key != key) ==>
                  if |live| >= q.capacity then d.promptId == None
                  else
                    && d.promptId == Some(q.nextId) && q.nextId in r.prompts && r.prompts[q.nextId].key == key
                    && r.prompts[q.nextId].state == PromptState.Pending
                    && r.prompts[q.nextId].expiresAt == t.create + q.ttl)
  {
    hide DecideAttributed, TakeOnceAllow, ConsumeOnceDeny, Enqueue, Inv, VerdictFor, LiveIds, HoldsAllow, HoldsDeny;
    var key := PromptKey(who.executable, e.ipv4, e.port);
    PromptedByEnqueue(q, dns, rules, who, e, t);
    var q1 := TakeOnceAllow(q, key, t.token, t.check).0;
    var q2 := ConsumeOnceDeny(q1, key, t.deny).0;
    LiveSurvives(q, key, t);
    TakeOnceAllowKeeps(q, key, t.token, t.check);
    ConsumeOnceDenyKeeps(q1, key, t.deny);
    TokensIssueNoId(q, key, t.token, t.check);
    TokensIssueNoId(q1, key, t.deny, t.deny);
    EnqueueExactly(q2, key, t.enqueue, t.create);
  }

  lemma PromptedByEnqueue(q: Queue, dns: Dns.Cache, rules: seq<Rule>, who: Process.Identity, e: Event, t: Readings)
    requires t.Ordered()
    requires !HoldsAllow(q, who, e, t) && !HoldsDeny(q, who, e) && VerdictFor(rules, Asked(who, e, dns, t.dns)).Prompt?
    ensures var key := PromptKey(who.executable, e.ipv4, e.port);
            var q2 := ConsumeOnceDeny(TakeOnceAllow(q, key, t.token, t.check).0, key, t.deny).0;
            var (r, outcome) := Enqueue(q2, key, t.enqueue, t.create);
            var (r', _, d) := DecideAttributed(q, dns, rules, who, e, t);
            r' == r && d.promptId == if outcome.Full? then None else Some(outcome.id)
  {
    hide TakeOnceAllow, ConsumeOnceDeny, Enqueue, Dns.NameOf, VerdictFor, HoldsAllow, HoldsDeny;
    TokensInWords(q, who, e, t);
    NameInWords(dns, who, e, t);
  }

  lemma TokensInWords(q: Queue, who: Process.Identity, e: Event, t: Readings)
    requires t.Ordered()
    ensures var key := KeyOf(who, e);
            && key == PromptKey(who.executable, e.ipv4, e.port)
            && (TakeOnceAllow(q, key, t.token, t.check).1 <==> HoldsAllow(q, who, e, t))
            && (ConsumeOnceDeny(TakeOnceAllow(q, key, t.token, t.check).0, key, t.deny).1 <==> HoldsDeny(q, who, e))
  {
    hide TakeOnceAllow, ConsumeOnceDeny;
    TokenOutcome(q, KeyOf(who, e), t);
  }

  lemma NameInWords(dns: Dns.Cache, who: Process.Identity, e: Event, t: Readings)
    ensures ConnectionOf(who, e, Dns.NameOf(dns, e.ipv4, t.dns).1) == Asked(who, e, dns, t.dns)
    ensures Dns.NameOf(dns, e.ipv4, t.dns).1 == KnownName(dns, e.ipv4, t.dns)
  {
    hide Dns.NameOf;
    Dns.NamesAreFresh(dns, e.ipv4, t.dns);
  }

  /** The token checks leave alone the prompts that are still live when it comes to prompting. */
  lemma LiveSurvives(q: Queue, key: PromptKey, t: Readings)
    requires t.Ordered()
    ensures var q2 := ConsumeOnceDeny(TakeOnceAllow(q, key, t.token, t.check).0, key, t.deny).0;
            && LiveIds(q2, t.enqueue) == LiveIds(q, t.enqueue)
            && forall id :: id in LiveIds(q, t.enqueue) ==> q2.prompts[id] == q.prompts[id]
  {
    hide Kept, KeysOf, FreshTokens;
  }

  /** The decision step keeps the prompt queue's invariant, including the one-role rule. */
  lemma DecideKeepsPrompts(q: Queue, dns: Dns.Cache, rules: seq<Rule>, who: Process.Identity, e: Event, t: Readings)
    requires Inv(q) && q.nextId < U64_MAX
    ensures var q' := DecideAttributed(q, dns, rules, who, e, t).0;
            Inv(q') && q'.nextId <= q.nextId + 1 && q'.capacity == q.capacity && q'.ttl == q.ttl
  {
    hide TakeOnceAllow, ConsumeOnceDeny, Enqueue, Inv, Dns.NameOf, VerdictFor;
    var key := KeyOf(who, e);
    var q1 := TakeOnceAllow(q, key, t.token, t.check).0;
    var q2 := ConsumeOnceDeny(q1, key, t.deny).0;
    TakeOnceAllowKeeps(q, key, t.token, t.check);
    ConsumeOnceDenyKeeps(q1, key, t.deny);
    TokensIssueNoId(q, key, t.token, t.check);
    TokensIssueNoId(q1, key, t.deny, t.deny);
    EnqueueWithoutTokens(q2, key, t.enqueue, t.create);
  }

  /** A decision that names a prompt names a Pending prompt for the connection. */
  lemma PromptedIsPending(q: Queue, dns: Dns.Cache, rules: seq<Rule>, who: Process.Identity, e: Event, t: Readings)
    requires Inv(q) && q.nextId < U64_MAX
    ensures var (q', _, d) := DecideAttributed(q, dns, rules, who, e, t);
            d.promptId.Some? ==>
              d.promptId.value in PendingIds(q'.prompts) && q'.prompts[d.promptId.value].key == KeyOf(who, e)
  {
    hide TakeOnceAllow, ConsumeOnceDeny, Enqueue, Inv, Dns.NameOf, VerdictFor;
    var key := KeyOf(who, e);
    var q1 := TakeOnceAllow(q, key, t.token, t.check).0;
    var q2 := ConsumeOnceDeny(q1, key, t.deny).0;
    TakeOnceAllowKeeps(q, key, t.token, t.check);
    ConsumeOnceDenyKeeps(q1, key, t.deny);
    TokensIssueNoId(q, key, t.token, t.check);
    TokensIssueNoId(q1, key, t.deny, t.deny);
    EnqueuedIsPending(q2, key, t.enqueue, t.create);
  }

  // ------------------------------------------------------------ the imperative step

  method AttributeEvent(cache: Process.ProcessCache, e: Event, proc: Process.ProcRead)
    returns (who: Result<Process.Identity, Process.AttributionError>)
    requires cache.Valid()
    modifies cache
    ensures cache.Valid() && (cache.State(), who) == Attribute(old(cache.State()), cache.capacity, e, proc)
  {
    if e.startTicks != 0 && (e.pid, e.startTicks) in cache.entries {
      return Ok(cache.entries[(e.pid, e.startTicks)]);
    }
    who := Process.Resolve(e.pid, e.startTicks, proc);
    if who.Ok? {
      cache.Insert(who.value);
    }
  }

  /** `decide`, on the live tables. */
  method DecideEvent(
    e: Event, rules: RuleSet, cache: Process.ProcessCache, prompts: PromptQueue, dns: Dns.DnsCache,
    recent: Recent.RecentConnects, proc: Process.ProcRead, t: Readings) returns (d: Decision)
    requires cache.Valid() && dns.Valid() && recent.Valid() && t.Ordered()
    modifies cache, prompts, dns, recent
    ensures cache.Valid() && dns.Valid() && recent.Valid()
    ensures (Tables(cache.State(), prompts.State(), dns.State(), recent.State()), d) ==
            Decide(old(Tables(cache.State(), prompts.State(), dns.State(), recent.State())), rules.rules,
                   Limits(cache.capacity, recent.capacityKeys, recent.perKey), e, proc, t)
  {
    hide TakeOnceAllow, ConsumeOnceDeny, Enqueue, VerdictFor, Dns.NameOf, Recent.Recorded, Attribute;
    var who := AttributeEvent(cache, e, proc);
    if who.Err? {
      return Unattributed(e);
    }
    d := DecideIdentity(who.value, e, rules, prompts, dns, t);
    recent.Record((who.value.pid, who.value.startTicks), Recent.Dest(e.ipv4, e.port, d.stats.value.outcome));
  }

  /** `decide_attributed` up to recording the destination. */
  method DecideIdentity(
    who: Process.Identity, e: Event, rules: RuleSet, prompts: PromptQueue, dns: Dns.DnsCache, t: Readings)
    returns (d: Decision)
    requires dns.Valid() && t.Ordered()
    modifies prompts, dns
    ensures dns.Valid() && d.stats.Some?
    ensures (prompts.State(), dns.State(), d) ==
            DecideAttributed(old(prompts.State()), old(dns.State()), rules.rules, who, e, t)
  {
    hide TakeOnceAllow, ConsumeOnceDeny, Enqueue, VerdictFor, Dns.NameOf;
    var key := KeyOf(who, e);
    var allowed := prompts.TakeAllowToken(key, t.token, t.check);
    if allowed {
      var name := dns.HostnameFor(e.ipv4, t.dns);
      return Decision(DestOf(e), Pending.Accept, true, None, Stats(who, e, name, "allow"));
    }
    var denied := prompts.TakeDenyToken(key, t.deny);
    var name := dns.HostnameFor(e.ipv4, t.dns);
    if denied {
      return Decision(DestOf(e), Pending.Drop, true, None, Stats(who, e, name, "deny"));
    }
    match VerdictFor(rules.rules, ConnectionOf(who, e, name)) {
      case Allow =>
        d := Decision(DestOf(e), Pending.Accept, true, None, Stats(who, e, name, "allow"));
      case Deny =>
        d := Decision(DestOf(e), Pending.Drop, true, None, Stats(who, e, name, "deny"));
      case Prompt =>
        var outcome := prompts.Push(key, t.enqueue, t.create);
        d := Decision(DestOf(e), Pending.Drop, true, if outcome.Full? then None else Some(outcome.id),
                      Stats(who, e, name, "prompt"));
    }
  }
}

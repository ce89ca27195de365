/** Subscribers of the audit log: bounded channels, replacement and removal (audit.rs). */
module AuditStream {
  import opened Collections
  import opened Audit

  const CHANNEL_CAPACITY: nat := 256

  datatype Event = Live(record: Record) | Replaced

  /**
   One attached stream. `start` is the position in the whole history at which it starts; `sent` is what its
   thread has written; the rest of the backlog and the channel are still to come.
   */
  datatype Sub = Sub(id: string, start: nat, backlog: seq<Record>, queue: seq<Event>, sent: seq<Record>, running: bool)

  /** The log, everything appended since it was opened, every stream ever attached, and who is registered. */
  datatype Hub = Hub(log: Log, history: seq<Record>, subs: seq<Sub>, registry: map<string, nat>)

  datatype Action =
    | Append(message: string, io: Io)
    | Attach(id: string, since: nat)
    | Remove(id: string)
    | Deliver(handle: nat)
    | WriteFails(handle: nat)

  /** `since`: the retained records with a larger sequence number. */
  function Since(records: seq<Record>, since: nat): seq<Record> {
    if records == [] then []
    else (if records[0].sequence > since then [records[0]] else []) + Since(records[1..], since)
  }

  predicate Registered(hub: Hub, h: nat) {
    h < |hub.subs| && hub.subs[h].id in hub.registry && hub.registry[hub.subs[h].id] == h
  }

  /** `try_send` succeeds on a live receiver with room. */
  predicate Accepts(s: Sub) {
    s.running && |s.queue| < CHANNEL_CAPACITY
  }

  function Sent(s: Sub, e: Event): Sub {
    if Accepts(s) then s.(queue := s.queue + [e]) else s
  }

  function Fanned(hub: Hub, r: Record): Hub {
    hub.(subs := seq(|hub.subs|, h requires 0 <= h < |hub.subs| =>
                   if Registered(hub, h) then Sent(hub.subs[h], Live(r)) else hub.subs[h]),
         registry := map id | id in hub.registry && hub.registry[id] < |hub.subs| && Accepts(hub.subs[hub.registry[id]])
                       :: hub.registry[id])
  }

  /** One step of a subscriber thread: the backlog first, then the channel, until replaced or cut off. */
  function Delivered(s: Sub, registered: bool): Sub {
    if !s.running then s
    else if s.backlog != [] then s.(sent := s.sent + [s.backlog[0]], backlog := s.backlog[1..])
    else if s.queue != [] then
      match s.queue[0]
      case Live(r) => s.(sent := s.sent + [r], queue := s.queue[1..])
      case Replaced => s.(running := false, queue := s.queue[1..])
    else s.(running := registered)
  }

  function Newcomer(hub: Hub, id: string, since: nat): Sub {
    var backlog := Since(hub.log.records, since);
    Sub(id, if |backlog| <= |hub.history| then |hub.history| - |backlog| else 0, backlog, [], [], true)
  }

  function Next(c: Config, hub: Hub, a: Action): Hub {
    match a
    case Append(message, io) =>
      var r := Record(hub.log.nextSeq, message);
      Fanned(hub.(log := Appended(c, hub.log, message, io), history := hub.history + [r]), r)
    case Attach(id, since) =>
      var subs := if id in hub.registry && hub.registry[id] < |hub.subs|
                  then hub.subs[hub.registry[id] := Sent(hub.subs[hub.registry[id]], Replaced)] else hub.subs;
      hub.(subs := subs + [Newcomer(hub, id, since)], registry := hub.registry[id := |hub.subs|])
    case Remove(id) => hub.(registry := hub.registry - {id})
    case Deliver(h) =>
      if h < |hub.subs| then hub.(subs := hub.subs[h := Delivered(hub.subs[h], Registered(hub, h))]) else hub
    case WriteFails(h) =>
      if h < |hub.subs| then hub.(subs := hub.subs[h := hub.subs[h].(running := false)]) else hub
  }

  // ------------------------------------------------------------ streams

  function RecordOf(e: Event): seq<Record> {
    if e.Live? then [e.record] else []
  }

  function Records(queue: seq<Event>): seq<Record> {
    if queue == [] then [] else RecordOf(queue[0]) + Records(queue[1..])
  }

  /** Everything the stream has carried or will still carry. */
  function Stream(s: Sub): seq<Record> {
    s.sent + s.backlog + Records(s.queue)
  }

  lemma {:induction false} RecordsSnoc(queue: seq<Event>, e: Event)
    ensures Records(queue + [e]) == Records(queue) + RecordOf(e)
  {
    hide RecordOf;
    if queue == [] {
      assert queue + [e] == [e] && [e][1..] == [];
      assert RecordOf(e) + [] == [] + RecordOf(e);
    } else {
      assert (queue + [e])[1..] == queue[1..] + [e];
      RecordsSnoc(queue[1..], e);
      assert RecordOf(queue[0]) + (Records(queue[1..]) + RecordOf(e)) == Records(queue) + RecordOf(e);
    }
  }

  /** The stream is one gap-free stretch of the history. */
  predicate Stretch(s: Sub, history: seq<Record>) {
    s.start + |Stream(s)| <= |history| && Stream(s) == history[s.start..s.start + |Stream(s)|]
  }

  /** The stream reaches up to the newest record. */
  predicate Current(s: Sub, history: seq<Record>) {
    s.start + |Stream(s)| == |history|
  }

  ghost predicate Inv(hub: Hub) {
    && EndsBelow(hub.history, hub.log.nextSeq)
    && |hub.log.records| <= |hub.history| && hub.log.records == hub.history[|hub.history| - |hub.log.records|..]
    && (forall h :: 0 <= h < |hub.subs| ==> Stretch(hub.subs[h], hub.history))
    && (forall id :: id in hub.registry ==>
          && hub.registry[id] < |hub.subs| && hub.subs[hub.registry[id]].id == id
          && Current(hub.subs[hub.registry[id]], hub.history))
  }

  lemma {:induction false} SequenceAt(rs: seq<Record>, i: nat)
    requires Consecutive(rs) && i < |rs|
    ensures rs[i].sequence == rs[0].sequence + i
  {
    if i > 0 {
      SequenceAt(rs, i - 1);
      assert rs[i - 1 + 1].sequence == rs[i - 1].sequence + 1;
    }
  }

  /** The records carry `first`, `first + 1`, and so on. */
  predicate Numbered(rs: seq<Record>, first: nat) {
    forall i :: 0 <= i < |rs| ==> rs[i].sequence == first + i
  }

  /** How many of `n` records numbered upwards of `first` are not after `since`. */
  function Skipped(first: nat, since: nat, n: nat): (k: nat)
    ensures k <= n
  {
    if since < first then 0 else if since - first + 1 < n then since - first + 1 else n
  }

  lemma {:induction false} SinceNumbered(rs: seq<Record>, first: nat, since: nat)
    requires Numbered(rs, first)
    ensures Since(rs, since) == rs[Skipped(first, since, |rs|)..]
  {
    if rs != [] {
      var rest := rs[1..];
      assert Numbered(rest, first + 1);
      SinceNumbered(rest, first + 1, since);
      hide Numbered;
      if rs[0].sequence > since {
        assert rs[0..] == [rs[0]] + rest[0..];
      } else {
        assert rs[Skipped(first, since, |rs|)..] == rest[Skipped(first + 1, since, |rest|)..];
      }
    }
  }

  lemma NumberedFrom(rs: seq<Record>, next: nat)
    requires EndsBelow(rs, next)
    ensures Numbered(rs, if rs == [] then next else rs[0].sequence)
  {
    forall i | 0 <= i < |rs| ensures rs[i].sequence == rs[0].sequence + i {
      SequenceAt(rs, i);
    }
  }

  lemma Longer(s: Sub, history: seq<Record>, r: Record)
    requires Stretch(s, history)
    ensures Stretch(s, history + [r])
  {
    hide Stream;
    var n := s.start + |Stream(s)|;
    assert (history + [r])[s.start..n] == history[s.start..n];
  }

  lemma SentLive(s: Sub, history: seq<Record>, r: Record)
    requires Stretch(s, history) && Current(s, history) && Accepts(s)
    ensures Stretch(Sent(s, Live(r)), history + [r]) && Current(Sent(s, Live(r)), history + [r])
  {
    RecordsSnoc(s.queue, Live(r));
    hide Records;
    assert Stream(Sent(s, Live(r))) == Stream(s) + [r];
    hide Stream;
    assert (history + [r])[s.start..|history| + 1] == history[s.start..|history|] + [r];
  }

  lemma SentReplaced(s: Sub)
    ensures Stream(Sent(s, Replaced)) == Stream(s) && Sent(s, Replaced).start == s.start && Sent(s, Replaced).id == s.id
  {
    RecordsSnoc(s.queue, Replaced);
    hide Records;
    assert Records(s.queue) + [] == Records(s.queue);
  }

  /** A thread's step moves a record from what is to come to what was sent, and nothing else. */
  lemma DeliveredStream(s: Sub, registered: bool)
    ensures var t := Delivered(s, registered);
            && Stream(t) == Stream(s) && t.start == s.start && t.id == s.id
            && |s.sent| <= |t.sent| && t.sent[..|s.sent|] == s.sent
  {
    var t := Delivered(s, registered);
    if s.running && s.backlog != [] {
      assert s.backlog == [s.backlog[0]] + s.backlog[1..];
      assert t.sent + t.backlog == s.sent + s.backlog;
    } else if s.running && s.queue != [] && s.queue[0].Live? {
      var r, rest := s.queue[0].record, Records(s.queue[1..]);
      assert Records(s.queue) == [r] + rest;
      assert s.backlog == [] && t.backlog == [];
      assert s.sent + [r] + [] + rest == s.sent + [] + ([r] + rest);
    } else if s.running && s.queue != [] {
      assert Records(s.queue) == [] + Records(s.queue[1..]);
    }
  }

  lemma MemoryIsSuffix(c: Config, log: Log, history: seq<Record>, message: string, io: Io)
    requires 0 < c.maxRecords && |log.records| <= |history| && log.records == history[|history| - |log.records|..]
    ensures var after, grown := Appended(c, log, message, io), history + [Record(log.nextSeq, message)];
            |after.records| <= |grown| && after.records == grown[|grown| - |after.records|..]
  {
    var r := Record(log.nextSeq, message);
    var grown, ring := history + [r], Pushed(log.records, r, c.maxRecords);
    hide Appended, Encoded, Trimmed, Pushed;
    AppendedRecords(c, log, message, io);
    RingIsSuffix(log.records, history, r, c.maxRecords);
    var k := TrimmedIsSuffix(ring, c.maxBytes);
    SuffixOfSuffix(grown, |grown| - |ring|, k);
  }

  lemma AppendedRecords(c: Config, log: Log, message: string, io: Io)
    ensures var ring := Pushed(log.records, Record(log.nextSeq, message), c.maxRecords);
            Appended(c, log, message, io).records in {ring, Trimmed(ring, c.maxBytes)}
  {
    hide Format, Encoded, Trimmed, Pushed;
  }

  lemma RingIsSuffix(records: seq<Record>, history: seq<Record>, r: Record, max: nat)
    requires |records| <= |history| && records == history[|history| - |records|..]
    ensures var ring, grown := Pushed(records, r, max), history + [r];
            |ring| <= |grown| && ring == grown[|grown| - |ring|..]
  {
  }

  lemma SuffixOfSuffix(s: seq<Record>, a: nat, k: nat)
    requires a <= |s| && k <= |s| - a
    ensures s[a..][k..] == s[a + k..] && |s[a..][k..]| == |s| - a - k
  {
  }

  lemma AppendKeeps(c: Config, hub: Hub, message: string, io: Io)
    requires Inv(hub) && 0 < c.maxRecords && hub.log.nextSeq < U64_MAX
    ensures Inv(Next(c, hub, Action.Append(message, io)))
  {
    hide Next, Appended, Stretch, Current, Accepts, Sent, EndsBelow, Fanned;
    var r := Record(hub.log.nextSeq, message);
    var mid := hub.(log := Appended(c, hub.log, message, io), history := hub.history + [r]);
    AppendShape(c, hub, message, io);
    FannedShape(mid, r);
    var after := Fanned(mid, r);
    forall h | 0 <= h < |after.subs| ensures Stretch(after.subs[h], after.history) {
      FannedSub(hub, mid, r, h);
    }
    forall id | id in after.registry
      ensures after.registry[id] < |after.subs| && after.subs[after.registry[id]].id == id &&
              Current(after.subs[after.registry[id]], after.history)
    {
      FannedEntry(hub, mid, r, id);
    }
  }

  lemma AppendShape(c: Config, hub: Hub, message: string, io: Io)
    requires Inv(hub) && 0 < c.maxRecords && hub.log.nextSeq < U64_MAX
    ensures var r := Record(hub.log.nextSeq, message);
            var mid := hub.(log := Appended(c, hub.log, message, io), history := hub.history + [r]);
            && Next(c, hub, Action.Append(message, io)) == Fanned(mid, r)
            && EndsBelow(mid.history, mid.log.nextSeq)
            && |mid.log.records| <= |mid.history|
            && mid.log.records == mid.history[|mid.history| - |mid.log.records|..]
  {
    hide Inv, Fanned, Appended, EndsBelow;
    InvHistory(hub);
    MemoryIsSuffix(c, hub.log, hub.history, message, io);
    AppendedNext(c, hub.log, message, io);
    GrownEnds(hub.history, hub.log.nextSeq, message);
  }

  lemma AppendedNext(c: Config, log: Log, message: string, io: Io)
    requires log.nextSeq < U64_MAX
    ensures Appended(c, log, message, io).nextSeq == log.nextSeq + 1
  {
    hide Encoded, Trimmed, Pushed, Format;
  }

  lemma GrownEnds(history: seq<Record>, next: nat, message: string)
    requires EndsBelow(history, next)
    ensures EndsBelow(history + [Record(next, message)], next + 1)
  {
  }

  lemma FannedShape(hub: Hub, r: Record)
    ensures |Fanned(hub, r).subs| == |hub.subs|
    ensures Fanned(hub, r).log == hub.log && Fanned(hub, r).history == hub.history
  {
  }

  lemma FannedSub(hub: Hub, mid: Hub, r: Record, h: nat)
    requires Inv(hub) && h < |hub.subs| && mid == hub.(log := mid.log, history := hub.history + [r])
    ensures |Fanned(mid, r).subs| == |hub.subs| && Stretch(Fanned(mid, r).subs[h], hub.history + [r])
  {
    hide Stretch, Current, Accepts, Sent, EndsBelow;
    Longer(hub.subs[h], hub.history, r);
    RefusedSame(hub.subs[h], Live(r));
    if Registered(hub, h) && Accepts(hub.subs[h]) {
      SentLive(hub.subs[h], hub.history, r);
    }
  }

  lemma FannedEntry(hub: Hub, mid: Hub, r: Record, id: string)
    requires Inv(hub) && mid == hub.(log := mid.log, history := hub.history + [r]) && id in Fanned(mid, r).registry
    ensures var after := Fanned(mid, r);
            after.registry[id] < |after.subs| && after.subs[after.registry[id]].id == id &&
            Current(after.subs[after.registry[id]], hub.history + [r])
  {
    hide Stretch, Current, Accepts, Sent, EndsBelow;
    var h := hub.registry[id];
    SentLive(hub.subs[h], hub.history, r);
    SentId(hub.subs[h], Live(r));
  }

  lemma RefusedSame(s: Sub, e: Event)
    ensures !Accepts(s) ==> Sent(s, e) == s
  {
  }

  lemma SentId(s: Sub, e: Event)
    ensures Sent(s, e).id == s.id
  {
  }

  /** The backlog of a new stream is the retained records after `since`, up to the newest. */
  lemma NewcomerStream(hub: Hub, id: string, since: nat)
    requires Inv(hub)
    ensures var s, base := Newcomer(hub, id, since), |hub.history| - |hub.log.records|;
            && base <= s.start <= |hub.history| && Stream(s) == hub.history[s.start..] && s.sent == [] && s.id == id
            && (forall i :: base <= i < |hub.history| ==> (i >= s.start <==> hub.history[i].sequence > since))
  {
    hide Inv, EndsBelow, Since, Skipped, Numbered, Stream;
    InvHistory(hub);
    var base, records := |hub.history| - |hub.log.records|, hub.log.records;
    SuffixEnds(hub.history, hub.log.nextSeq, base);
    NumberedFrom(records, hub.log.nextSeq);
    var first := if records == [] then hub.log.nextSeq else records[0].sequence;
    SinceNumbered(records, first, since);
    var k := Skipped(first, since, |records|);
    SuffixOfSuffix(hub.history, base, k);
    PlainStream(Newcomer(hub, id, since));
    forall i | base <= i < |hub.history| ensures i >= base + k <==> hub.history[i].sequence > since {
      assert hub.history[i] == records[i - base];
      AfterSince(records, first, since, i - base);
    }
  }

  lemma AfterSince(rs: seq<Record>, first: nat, since: nat, i: nat)
    requires Numbered(rs, first) && i < |rs|
    ensures i >= Skipped(first, since, |rs|) <==> rs[i].sequence > since
  {
  }

  lemma PlainStream(s: Sub)
    ensures s.sent == [] && s.queue == [] ==> Stream(s) == s.backlog
  {
    assert [] + s.backlog + [] == s.backlog;
  }

  lemma InvHistory(hub: Hub)
    requires Inv(hub)
    ensures EndsBelow(hub.history, hub.log.nextSeq)
    ensures |hub.log.records| <= |hub.history| && hub.log.records == hub.history[|hub.history| - |hub.log.records|..]
  {
    hide EndsBelow, Stretch, Current;
  }

  lemma AttachKeeps(c: Config, hub: Hub, id: string, since: nat)
    requires Inv(hub)
    ensures Inv(Next(c, hub, Attach(id, since)))
  {
    NewcomerStream(hub, id, since);
    var s := Newcomer(hub, id, since);
    if id in hub.registry {
      var h := hub.registry[id];
      assert h < |hub.subs|;
      hide Newcomer, Stream, Sent, Inv;
      SentReplaced(hub.subs[h]);
      SwapKeeps(hub, h, Sent(hub.subs[h], Replaced));
      AddKeeps(hub.(subs := hub.subs[h := Sent(hub.subs[h], Replaced)]), s);
    } else {
      hide Newcomer, Stream, Sent, Inv;
      AddKeeps(hub, s);
    }
  }

  lemma AddKeeps(hub: Hub, s: Sub)
    requires Inv(hub) && s.start <= |hub.history| && Stream(s) == hub.history[s.start..]
    ensures Inv(hub.(subs := hub.subs + [s], registry := hub.registry[s.id := |hub.subs|]))
  {
    hide Stream, EndsBelow;
    assert hub.history[s.start..|hub.history|] == hub.history[s.start..];
    assert Stretch(s, hub.history) && Current(s, hub.history);
    hide Stretch, Current;
  }

  /** Replacing one stream by one that carries the same records at the same place changes nothing that matters. */
  lemma SwapKeeps(hub: Hub, h: nat, t: Sub)
    requires Inv(hub) && h < |hub.subs|
    requires Stream(t) == Stream(hub.subs[h]) && t.start == hub.subs[h].start && t.id == hub.subs[h].id
    ensures Inv(hub.(subs := hub.subs[h := t]))
  {
    hide Stream, EndsBelow;
  }

  lemma OtherKeeps(c: Config, hub: Hub, a: Action)
    requires Inv(hub) && !a.Append? && !a.Attach?
    ensures Inv(Next(c, hub, a))
  {
    hide Stream, Delivered, Inv;
    if a.Remove? {
      RemoveKeeps(hub, a.id);
    } else if a.handle < |hub.subs| {
      var s := hub.subs[a.handle];
      DeliveredStream(s, Registered(hub, a.handle));
      StoppedStream(s);
      SwapKeeps(hub, a.handle, if a.Deliver? then Delivered(s, Registered(hub, a.handle)) else s.(running := false));
    }
  }

  lemma RemoveKeeps(hub: Hub, id: string)
    requires Inv(hub)
    ensures Inv(hub.(registry := hub.registry - {id}))
  {
    hide Stretch, Current, EndsBelow;
  }

  lemma StoppedStream(s: Sub)
    ensures Stream(s.(running := false)) == Stream(s)
  {
  }

  // ------------------------------------------------------------ runs

  function At(c: Config, start: Hub, acts: seq<Action>, n: nat): Hub
    requires n <= |acts|
  {
    if n == 0 then start else Next(c, At(c, start, acts, n - 1), acts[n - 1])
  }

  /** A freshly opened log with nobody attached: its window is consecutive up to the counter. */
  ghost predicate Fresh(c: Config, hub: Hub, acts: seq<Action>) {
    && 0 < c.maxRecords && EndsBelow(hub.log.records, hub.log.nextSeq)
    && hub.history == hub.log.records && hub.subs == [] && hub.registry == map[]
    && hub.log.nextSeq + |acts| < U64_MAX
  }

  /**
   Opening the file that any run of the log left, with no message ending in CR, gives a fresh start for streams: so
   what is said about them holds again after every restart.
   */
  lemma ReopenedIsFresh(c: Config, steps: seq<Step>, n: nat, acts: seq<Action>) returns (start: Hub)
    requires n <= |steps| < U64_MAX && 0 < c.maxRecords && NoCr(steps) && n + 1 + |acts| < U64_MAX
    ensures start.log == Opened(c, Audit.At(c, steps, n).file) && Fresh(c, start, acts)
  {
    hide Opened, Synced, EndsInCr, NoCr, AllFit, EndsBelow, Last, Audit.At;
    var log := Audit.At(c, steps, n);
    var disk := RunSyncs(c, steps, n);
    ReopenSyncs(c, log, disk);
    OpenedReads(c, log, disk);
    SyncedEnds(c, Opened(c, log.file), disk);
    SyncedSeq(c, log, disk);
    var again := Opened(c, log.file);
    LastEnds(disk, again.nextSeq, c.maxRecords);
    start := Hub(again, again.records, [], map[]);
  }

  lemma LastEnds(rs: seq<Record>, next: nat, max: nat)
    requires EndsBelow(rs, next)
    ensures EndsBelow(Last(rs, max), next)
  {
    hide EndsBelow;
    var k := |rs| - |Last(rs, max)|;
    SuffixEnds(rs, next, k);
    assert Last(rs, max) == rs[k..];
  }

  lemma SyncedEnds(c: Config, log: Log, disk: seq<Record>)
    requires Synced(c, log, disk)
    ensures EndsBelow(disk, log.nextSeq)
  {
  }

  lemma {:induction false} RunKeeps(c: Config, start: Hub, acts: seq<Action>, n: nat)
    requires Fresh(c, start, acts) && n <= |acts|
    ensures Inv(At(c, start, acts, n)) && At(c, start, acts, n).log.nextSeq <= start.log.nextSeq + n
  {
    hide Inv, Next, EndsBelow;
    if n == 0 {
      StartKeeps(start);
    } else {
      RunKeeps(c, start, acts, n - 1);
      var hub, a := At(c, start, acts, n - 1), acts[n - 1];
      SeqStep(c, hub, a);
      match a
      case Append(message, io) => AppendKeeps(c, hub, message, io);
      case Attach(id, since) => AttachKeeps(c, hub, id, since);
      case _ => OtherKeeps(c, hub, a);
    }
  }

  lemma StartKeeps(hub: Hub)
    requires EndsBelow(hub.log.records, hub.log.nextSeq)
    requires hub.history == hub.log.records && hub.subs == [] && hub.registry == map[]
    ensures Inv(hub)
  {
    hide EndsBelow;
    assert hub.history[0..] == hub.history;
  }

  lemma SeqStep(c: Config, hub: Hub, a: Action)
    ensures Next(c, hub, a).log.nextSeq <= hub.log.nextSeq + 1
  {
    hide Newcomer;
  }

  /**
   Gap-free streams: in every run of appends (whatever their disk work does), attachments, replacements, full
   channels, removals and write failures, what a subscriber was sent is one stretch of the history, its sequence
   numbers rise by exactly one, and a registered stream still reaches up to the newest record.
   */
  lemma StreamsAreGapFree(c: Config, start: Hub, acts: seq<Action>, n: nat, h: nat)
    requires Fresh(c, start, acts) && n <= |acts| && h < |At(c, start, acts, n).subs|
    ensures var hub, s := At(c, start, acts, n), At(c, start, acts, n).subs[h];
            && s.start + |s.sent| <= |hub.history| && s.sent == hub.history[s.start..s.start + |s.sent|]
            && (forall i :: 0 <= i < |s.sent| - 1 ==> s.sent[i + 1].sequence == s.sent[i].sequence + 1)
            && (Registered(hub, h) ==> s.sent + s.backlog + Records(s.queue) == hub.history[s.start..])
  {
    RunKeeps(c, start, acts, n);
    var hub := At(c, start, acts, n);
    var s := hub.subs[h];
    hide At, Records;
    assert Stretch(s, hub.history);
    assert s.sent == Stream(s)[..|s.sent|];
    forall i | 0 <= i < |s.sent| - 1 ensures s.sent[i + 1].sequence == s.sent[i].sequence + 1 {
      assert hub.history[s.start + i + 1].sequence == hub.history[s.start + i].sequence + 1;
    }
  }

  /** A step never takes back or reorders what was sent, and never moves a stream. */
  lemma SentOnlyGrows(c: Config, hub: Hub, a: Action, h: nat)
    requires Inv(hub) && h < |hub.subs|
    ensures var after := Next(c, hub, a);
            && h < |after.subs| && after.subs[h].start == hub.subs[h].start
            && |hub.subs[h].sent| <= |after.subs[h].sent|
            && after.subs[h].sent[..|hub.subs[h].sent|] == hub.subs[h].sent
  {
    hide Appended, Delivered, Newcomer, Sent, Stretch, Current, EndsBelow;
    var s := hub.subs[h];
    if a.Append? {
      SentKeepsSent(s, Live(Record(hub.log.nextSeq, a.message)));
    } else if a.Attach? {
      SentKeepsSent(s, Replaced);
    } else if a.Deliver? {
      DeliveredStream(s, Registered(hub, h));
    }
  }

  lemma HistoryStep(c: Config, hub: Hub, a: Action)
    ensures |hub.history| <= |Next(c, hub, a).history| && Next(c, hub, a).history[..|hub.history|] == hub.history
  {
    hide Appended, Newcomer, Delivered;
  }

  /** A stream stays where it started, and history is only added to. */
  lemma {:induction false} StreamStays(c: Config, start: Hub, acts: seq<Action>, m: nat, n: nat, h: nat)
    requires Fresh(c, start, acts) && m <= n <= |acts| && h < |At(c, start, acts, m).subs|
    ensures var before, after := At(c, start, acts, m), At(c, start, acts, n);
            && h < |after.subs| && after.subs[h].start == before.subs[h].start
            && |before.history| <= |after.history| && after.history[..|before.history|] == before.history
    decreases n
  {
    hide Next, Fresh, Inv;
    if m < n {
      StreamStays(c, start, acts, m, n - 1, h);
      RunKeeps(c, start, acts, n - 1);
      SentOnlyGrows(c, At(c, start, acts, n - 1), acts[n - 1], h);
      HistoryStep(c, At(c, start, acts, n - 1), acts[n - 1]);
      Prefixes(At(c, start, acts, m).history, At(c, start, acts, n - 1).history, At(c, start, acts, n).history);
    }
  }

  lemma Prefixes(a: seq<Record>, b: seq<Record>, c: seq<Record>)
    requires |a| <= |b| <= |c| && b[..|a|] == a && c[..|b|] == b
    ensures c[..|a|] == a
  {
  }

  /** The stream that an attachment opens, and where it starts. */
  lemma AttachOpens(c: Config, hub: Hub, id: string, since: nat)
    ensures var after := Next(c, hub, Attach(id, since));
            && |after.subs| == |hub.subs| + 1 && after.subs[|hub.subs|] == Newcomer(hub, id, since)
            && after.history == hub.history
  {
    hide Newcomer, Sent;
  }

  /**
   What a subscriber is sent, from attachment to any later point: the retained records after `since`, then the
   records appended afterwards, in order, up to the point where it is cut. While it is registered nothing is missing.
   */
  lemma AttachedStream(c: Config, start: Hub, acts: seq<Action>, m: nat, n: nat, id: string, since: nat)
    requires Fresh(c, start, acts) && m < n <= |acts| && acts[m] == Attach(id, since)
    ensures var hub, h := At(c, start, acts, m), |At(c, start, acts, m).subs|;
            && |hub.history| <= |At(c, start, acts, n).history| && h < |At(c, start, acts, n).subs|
            && var s := At(c, start, acts, n).subs[h];
               var full := Since(hub.log.records, since) + At(c, start, acts, n).history[|hub.history|..];
               && |s.sent| <= |full| && s.sent == full[..|s.sent|]
               && (Registered(At(c, start, acts, n), h) ==> s.sent + s.backlog + Records(s.queue) == full)
  {
    hide Next, Fresh, Inv, Records, Since, Registered;
    var hub, h := At(c, start, acts, m), |At(c, start, acts, m).subs|;
    RunKeeps(c, start, acts, m);
    AttachOpens(c, hub, id, since);
    NewcomerStream(hub, id, since);
    NewcomerBacklog(hub, id, since);
    assert At(c, start, acts, m + 1) == Next(c, hub, acts[m]);
    StreamStays(c, start, acts, m + 1, n, h);
    StreamsAreGapFree(c, start, acts, n, h);
    var later := At(c, start, acts, n);
    FromStart(hub.history, later.history, later.subs[h].start, |later.subs[h].sent|);
  }

  lemma NewcomerBacklog(hub: Hub, id: string, since: nat)
    ensures Stream(Newcomer(hub, id, since)) == Since(hub.log.records, since)
  {
    PlainStream(Newcomer(hub, id, since));
  }

  lemma FromStart(before: seq<Record>, after: seq<Record>, start: nat, n: nat)
    requires |before| <= |after| && after[..|before|] == before && start <= |before| && start + n <= |after|
    ensures after[start..] == before[start..] + after[|before|..]
    ensures after[start..start + n] == (before[start..] + after[|before|..])[..n]
  {
  }

  lemma SentKeepsSent(s: Sub, e: Event)
    ensures Sent(s, e).sent == s.sent && Sent(s, e).start == s.start
  {
  }

  // ------------------------------------------------------------ what is to come does come

  /** One step of a running thread with something to write: it writes exactly the next record of its stream. */
  lemma DeliversNext(s: Sub, registered: bool)
    requires s.running && (s.backlog != [] || (s.queue != [] && s.queue[0].Live?))
    ensures var t := Delivered(s, registered);
            && t.running && |t.sent| == |s.sent| + 1 && |s.sent| < |Stream(s)| && t.sent == Stream(s)[..|s.sent| + 1]
            && |t.backlog| + |t.queue| + 1 == |s.backlog| + |s.queue|
            && (forall e :: e in t.queue ==> e in s.queue)
  {
    DeliveredStream(s, registered);
    var t := Delivered(s, registered);
    assert t.sent == Stream(t)[..|t.sent|];
  }

  /** A thread that is told of its replacement stops without another record; one that is not running rests. */
  lemma StopsWhenReplaced(s: Sub, registered: bool)
    ensures s.running && s.backlog == [] && s.queue != [] && s.queue[0].Replaced? ==>
              !Delivered(s, registered).running && Delivered(s, registered).sent == s.sent
    ensures !s.running ==> Delivered(s, registered) == s
    ensures s.running && s.backlog == [] && s.queue == [] ==> Delivered(s, registered) == s.(running := registered)
  {
  }

  predicate AllLive(queue: seq<Event>) {
    forall e :: e in queue ==> e.Live?
  }

  /** The stream after `n` steps of its thread. */
  function DeliveredTimes(s: Sub, registered: bool, n: nat): Sub {
    if n == 0 then s else Delivered(DeliveredTimes(s, registered, n - 1), registered)
  }

  lemma {:induction false} DrainsSome(s: Sub, registered: bool, n: nat)
    requires s.running && AllLive(s.queue) && n <= |s.backlog| + |s.queue|
    ensures var t := DeliveredTimes(s, registered, n);
            && t.running && AllLive(t.queue) && Stream(t) == Stream(s) && |t.sent| == |s.sent| + n
            && |t.backlog| + |t.queue| + n == |s.backlog| + |s.queue| && t.id == s.id
  {
    hide Delivered, Stream;
    if n > 0 {
      DrainsSome(s, registered, n - 1);
      var t := DeliveredTimes(s, registered, n - 1);
      assert t.backlog == [] ==> t.queue != [] && t.queue[0] in t.queue;
      DeliversNext(t, registered);
      DeliveredStream(t, registered);
    }
  }

  /** Without a write failure or a replacement, as many steps as there is to come leave everything sent. */
  lemma DrainsAll(s: Sub, registered: bool)
    requires s.running && AllLive(s.queue)
    ensures DeliveredTimes(s, registered, |s.backlog| + |s.queue|).sent == Stream(s)
  {
    DrainsSome(s, registered, |s.backlog| + |s.queue|);
    var t := DeliveredTimes(s, registered, |s.backlog| + |s.queue|);
    hide DeliveredTimes;
    assert t.backlog == [] && t.queue == [];
    assert Stream(t) == t.sent;
  }

  /** The whole log after `k` steps of the thread of stream `h`. */
  function Turns(c: Config, hub: Hub, h: nat, k: nat): Hub {
    if k == 0 then hub else Next(c, Turns(c, hub, h, k - 1), Deliver(h))
  }

  lemma {:induction false} TurnsDeliver(c: Config, hub: Hub, h: nat, k: nat)
    requires h < |hub.subs|
    ensures var after := Turns(c, hub, h, k);
            && |after.subs| == |hub.subs| && after.registry == hub.registry
            && after.subs[h] == DeliveredTimes(hub.subs[h], Registered(hub, h), k) && after.subs[h].id == hub.subs[h].id
  {
    if k > 0 {
      TurnsDeliver(c, hub, h, k - 1);
      DeliveredStream(DeliveredTimes(hub.subs[h], Registered(hub, h), k - 1), Registered(hub, h));
      hide Delivered, Stream;
    }
  }

  /** The channel of a registered stream holds records only: a replaced stream is no longer registered. */
  ghost predicate ChannelsLive(hub: Hub) {
    forall h :: 0 <= h < |hub.subs| && Registered(hub, h) ==> AllLive(hub.subs[h].queue)
  }

  lemma DeliveredLive(s: Sub, registered: bool)
    ensures Delivered(s, registered).id == s.id
    ensures AllLive(s.queue) ==> AllLive(Delivered(s, registered).queue)
  {
  }

  lemma AttachKeepsLive(c: Config, hub: Hub, id: string, since: nat, h: nat)
    requires Inv(hub) && ChannelsLive(hub)
    ensures var after := Next(c, hub, Attach(id, since));
            h < |after.subs| && Registered(after, h) ==> AllLive(after.subs[h].queue)
  {
    hide Since, Stream, Stretch, Current;
    var after := Next(c, hub, Attach(id, since));
    if h < |hub.subs| && Registered(after, h) {
      assert hub.subs[h].id != id ==> Registered(hub, h);
    }
  }

  lemma ChannelStep(c: Config, hub: Hub, a: Action)
    requires Inv(hub) && ChannelsLive(hub)
    ensures ChannelsLive(Next(c, hub, a))
  {
    hide Appended, Since, Records, Inv, Delivered;
    var after := Next(c, hub, a);
    forall h | 0 <= h < |after.subs| && Registered(after, h) ensures AllLive(after.subs[h].queue) {
      match a {
        case Append(message, io) => assert Registered(hub, h);
        case Attach(id, since) => AttachKeepsLive(c, hub, id, since, h);
        case Remove(id) => assert Registered(hub, h);
        case Deliver(g) =>
          DeliveredLive(hub.subs[h], Registered(hub, h));
          assert Registered(hub, h);
        case WriteFails(g) => assert Registered(hub, h);
      }
    }
  }

  lemma {:induction false} ChannelsStayLive(c: Config, start: Hub, acts: seq<Action>, n: nat)
    requires Fresh(c, start, acts) && n <= |acts|
    ensures ChannelsLive(At(c, start, acts, n))
  {
    hide Next, Inv;
    if n > 0 {
      hide ChannelsLive, Fresh;
      ChannelsStayLive(c, start, acts, n - 1);
      RunKeeps(c, start, acts, n - 1);
      ChannelStep(c, At(c, start, acts, n - 1), acts[n - 1]);
    }
  }

  /** A stream that is registered after a step was so before, unless the step opened it. */
  lemma RegisteredBefore(c: Config, hub: Hub, a: Action, h: nat)
    requires h < |hub.subs| && Registered(Next(c, hub, a), h)
    ensures Registered(hub, h)
  {
    hide Appended, Since, Delivered;
    if a.Deliver? && a.handle < |hub.subs| {
      DeliveredLive(hub.subs[a.handle], Registered(hub, a.handle));
    }
  }

  lemma KeepsRunning(c: Config, hub: Hub, a: Action, h: nat)
    requires h < |hub.subs| && Registered(hub, h) && hub.subs[h].running && AllLive(hub.subs[h].queue)
    requires a != WriteFails(h)
    ensures h < |Next(c, hub, a).subs| && Next(c, hub, a).subs[h].running
  {
    hide Appended, Newcomer;
    if a.Deliver? && a.handle == h {
      var s := hub.subs[h];
      assert s.queue != [] ==> s.queue[0] in s.queue;
    }
  }

  /** From its attachment on, a stream that is still registered and met no write failure has a running thread. */
  lemma {:induction false} StillRuns(c: Config, start: Hub, acts: seq<Action>, m: nat, n: nat, id: string, since: nat)
    requires Fresh(c, start, acts) && m < n <= |acts| && acts[m] == Attach(id, since)
    requires var h := |At(c, start, acts, m).subs|;
             Registered(At(c, start, acts, n), h) && forall i :: m < i < n ==> acts[i] != WriteFails(h)
    ensures var h := |At(c, start, acts, m).subs|;
            h < |At(c, start, acts, n).subs| && At(c, start, acts, n).subs[h].running
    decreases n
  {
    hide Next, Fresh, AllLive, Since;
    var h := |At(c, start, acts, m).subs|;
    if n == m + 1 {
      AttachedExactly(c, At(c, start, acts, m), id, since);
    } else {
      var hub := At(c, start, acts, n - 1);
      assert h < |hub.subs| by {
        AttachedExactly(c, At(c, start, acts, m), id, since);
        StreamStays(c, start, acts, m + 1, n - 1, h);
      }
      RegisteredBefore(c, hub, acts[n - 1], h);
      StillRuns(c, start, acts, m, n - 1, id, since);
      ChannelsStayLive(c, start, acts, n - 1);
      KeepsRunning(c, hub, acts[n - 1], h);
    }
  }

  /**
   A subscriber that is still registered and met no write failure catches up: once its thread has taken a step for each
   record that is to come, it was sent the retained records after `since` and every record appended since it attached.
   */
  lemma SubscriberCatchesUp(c: Config, start: Hub, acts: seq<Action>, m: nat, n: nat, id: string, since: nat)
    requires Fresh(c, start, acts) && m < n <= |acts| && acts[m] == Attach(id, since)
    requires var h := |At(c, start, acts, m).subs|;
             Registered(At(c, start, acts, n), h) && forall i :: m < i < n ==> acts[i] != WriteFails(h)
    ensures var before, hub, h := At(c, start, acts, m), At(c, start, acts, n), |At(c, start, acts, m).subs|;
            && h < |hub.subs| && |before.history| <= |hub.history|
            && var after := Turns(c, hub, h, |hub.subs[h].backlog| + |hub.subs[h].queue|);
               && h < |after.subs|
               && after.subs[h].sent == Since(before.log.records, since) + hub.history[|before.history|..]
  {
    hide At, Next, Fresh, Turns, DeliveredTimes, Since, Records;
    AttachedStream(c, start, acts, m, n, id, since);
    StillRuns(c, start, acts, m, n, id, since);
    ChannelsStayLive(c, start, acts, n);
    var hub, h := At(c, start, acts, n), |At(c, start, acts, m).subs|;
    TurnsDeliver(c, hub, h, |hub.subs[h].backlog| + |hub.subs[h].queue|);
    DrainsAll(hub.subs[h], Registered(hub, h));
  }

  /** A registered stream that runs and has fewer than 256 events to come gets the record; another one is cut. */
  lemma FannedExactly(hub: Hub, r: Record, h: nat)
    requires Registered(hub, h)
    ensures var after := Fanned(hub, r);
            if hub.subs[h].running && |hub.subs[h].queue| < 256 then
              Registered(after, h) && after.subs[h] == hub.subs[h].(queue := hub.subs[h].queue + [Live(r)])
            else !Registered(after, h) && after.subs[h] == hub.subs[h]
  {
  }

  /** Attaching: the newcomer takes over the id, and a predecessor with room in its channel is told so. */
  lemma AttachedExactly(c: Config, hub: Hub, id: string, since: nat)
    ensures var after := Next(c, hub, Attach(id, since));
            && id in after.registry && after.registry[id] == |hub.subs| && |after.subs| == |hub.subs| + 1
            && (forall other :: other != id ==> (other in after.registry <==> other in hub.registry))
            && after.subs[|hub.subs|] ==
               Sub(id, after.subs[|hub.subs|].start, Since(hub.log.records, since), [], [], true)
            && (id in hub.registry && hub.registry[id] < |hub.subs| ==>
                  var h := hub.registry[id];
                  after.subs[h] == if hub.subs[h].running && |hub.subs[h].queue| < 256
                                   then hub.subs[h].(queue := hub.subs[h].queue + [Replaced]) else hub.subs[h])
  {
    hide Since;
  }

  /** Removal takes the id out of the registry, and a write failure stops its thread; nothing else happens. */
  lemma CutExactly(c: Config, hub: Hub, id: string, h: nat)
    ensures var after := Next(c, hub, Remove(id));
            && after == hub.(registry := after.registry) && id !in after.registry
            && forall other :: other != id ==> (other in after.registry <==> other in hub.registry) &&
                                               (other in hub.registry ==> after.registry[other] == hub.registry[other])
    ensures h < |hub.subs| ==>
              var after := Next(c, hub, WriteFails(h));
              && after == hub.(subs := after.subs) && |after.subs| == |hub.subs|
              && !after.subs[h].running && after.subs[h].sent == hub.subs[h].sent
              && (forall g :: 0 <= g < |hub.subs| && g != h ==> after.subs[g] == hub.subs[g])
  {
  }

  // ------------------------------------------------------------ the fan-out loop

  /** The streams after the senders of the ids in `done` were tried. */
  function Tried(hub: Hub, done: set<string>, r: Record): (subs: seq<Sub>)
    ensures |subs| == |hub.subs|
  {
    seq(|hub.subs|, h requires 0 <= h < |hub.subs| =>
      if Registered(hub, h) && hub.subs[h].id in done then Sent(hub.subs[h], Live(r)) else hub.subs[h])
  }

  function Dead(hub: Hub, done: set<string>): set<string> {
    set id | id in done && id in hub.registry && !(hub.registry[id] < |hub.subs| && Accepts(hub.subs[hub.registry[id]]))
  }

  ghost predicate Linked(hub: Hub) {
    forall id :: id in hub.registry ==> hub.registry[id] < |hub.subs| && hub.subs[hub.registry[id]].id == id
  }

  lemma TriedStep(hub: Hub, done: set<string>, id: string, r: Record)
    requires Linked(hub) && id in hub.registry && id !in done
    ensures var h := hub.registry[id];
            && h < |hub.subs| && Tried(hub, done, r)[h] == hub.subs[h]
            && Tried(hub, done + {id}, r) == Tried(hub, done, r)[h := Sent(hub.subs[h], Live(r))]
            && Dead(hub, done + {id}) == Dead(hub, done) + if Accepts(hub.subs[h]) then {} else {id}
  {
    hide Sent, Accepts;
  }

  lemma TriedAll(hub: Hub, r: Record)
    requires Linked(hub)
    ensures Fanned(hub, r) ==
            hub.(subs := Tried(hub, hub.registry.Keys, r), registry := hub.registry - Dead(hub, hub.registry.Keys))
  {
    hide Sent, Accepts;
    assert Fanned(hub, r).subs == Tried(hub, hub.registry.Keys, r);
    assert Fanned(hub, r).registry == hub.registry - Dead(hub, hub.registry.Keys);
  }

  lemma TriedNone(hub: Hub, r: Record)
    ensures Tried(hub, {}, r) == hub.subs && Dead(hub, {}) == {}
  {
  }

  /** `fanout`: try every sender in any order, then drop the dead ones. */
  method FanOut(hub: Hub, r: Record) returns (after: Hub)
    requires Linked(hub)
    ensures after == Fanned(hub, r)
  {
    hide Accepts, Sent, Tried, Dead, Linked, Fanned;
    TriedNone(hub, r);
    var todo, dead: set<string>, subs := hub.registry.Keys, {}, hub.subs;
    ghost var done: set<string> := {};
    while todo != {}
      invariant todo <= hub.registry.Keys && done == hub.registry.Keys - todo
      invariant subs == Tried(hub, done, r) && dead == Dead(hub, done)
      decreases |todo|
    {
      var id :| id in todo;
      TriedStep(hub, done, id, r);
      var h := hub.registry[id];
      if Accepts(subs[h]) {
        subs := subs[h := Sent(subs[h], Live(r))];
      } else {
        RefusedSame(subs[h], Live(r));
        assert subs == subs[h := subs[h]];
        dead := dead + {id};
      }
      todo := todo - {id};
      done := done + {id};
    }
    assert done == hub.registry.Keys;
    TriedAll(hub, r);
    after := hub.(subs := subs, registry := hub.registry - dead);
  }
}

/** The order in which the daemon's threads take its mutexes (observe.rs, ipc.rs, nfqueue_live.rs, shared.rs). */
module Locks {

  datatype Lock = Stats | Rules | ProcessCache | Prompts | Dns | Recent | Pending | Audit | MachineTraffic

  datatype Op = Acquire(lock: Lock) | Release(lock: Lock)

  /** What a thread runs: the event handler, the packet loop, or one IPC handler. */
  datatype Routine =
    | HandleEvent | PacketLookup | ProcessList | StatsSummary | PromptAnswer
    | StatsList | EditRules | ListPrompts | UseDns | UseAudit | ChangeModes

  /** One lock at a time: taken and released before the next. */
  function Alone(lock: Lock, times: nat): seq<Op> {
    if times == 0 then [] else [Acquire(lock), Release(lock)] + Alone(lock, times - 1)
  }

  function Program(r: Routine): seq<Op> {
    match r
    case HandleEvent =>
      [Acquire(Rules), Acquire(ProcessCache), Acquire(Prompts), Acquire(Dns), Acquire(Recent),
       Release(Recent), Release(Dns), Release(Prompts), Release(ProcessCache), Release(Rules),
       Acquire(Pending), Release(Pending), Acquire(Stats), Release(Stats), Acquire(Audit), Release(Audit)]
    case PacketLookup => Alone(Pending, 50)
    case ProcessList =>
      [Acquire(ProcessCache), Acquire(Recent), Acquire(Rules), Release(Rules), Release(Recent), Release(ProcessCache)]
    case StatsSummary => [Acquire(Stats), Acquire(Rules), Release(Rules), Release(Stats)]
    case PromptAnswer => [Acquire(Prompts), Release(Prompts), Acquire(Rules), Release(Rules)]
    case StatsList => Alone(Stats, 1)
    case EditRules => Alone(Rules, 1)
    case ListPrompts => Alone(Prompts, 1)
    case UseDns => Alone(Dns, 1)
    case UseAudit => Alone(Audit, 1)
    case ChangeModes => Alone(MachineTraffic, 2)
  }

  datatype Thread = Thread(routine: Routine, pc: nat)

  function HeldBy(ops: seq<Op>, pc: nat): set<Lock>
    requires pc <= |ops|
  {
    if pc == 0 then {}
    else
      var before := HeldBy(ops, pc - 1);
      match ops[pc - 1]
      case Acquire(l) => before + {l}
      case Release(l) => before - {l}
  }

  predicate Valid(t: Thread) { t.pc <= |Program(t.routine)| }

  function Held(t: Thread): set<Lock>
    requires Valid(t)
  {
    HeldBy(Program(t.routine), t.pc)
  }

  /** The thread's next operation is to take this lock. */
  predicate Wants(t: Thread, l: Lock) {
    t.pc < |Program(t.routine)| && Program(t.routine)[t.pc] == Acquire(l)
  }

  // ------------------------------------------------------------ two ranks

  /** The order that the event handler follows, and the one that the process listing follows. */
  datatype Order = ByEvent | ByListing

  function Rank(o: Order, l: Lock): nat {
    match l
    case Stats => 0
    case Rules => if o.ByEvent? then 1 else 4
    case ProcessCache => if o.ByEvent? then 2 else 1
    case Prompts => 3
    case Dns => if o.ByEvent? then 4 else 5
    case Recent => if o.ByEvent? then 5 else 2
    case Pending => 6
    case Audit => 7
    case MachineTraffic => 8
  }

  /** The one routine that does not follow the order. */
  function Outsider(o: Order): Routine {
    if o.ByEvent? then ProcessList else HandleEvent
  }

  /** From `pc` on, holding `held`, every lock is taken above all locks held. */
  predicate Climbs(o: Order, ops: seq<Op>, pc: nat, held: set<Lock>)
    requires pc <= |ops|
    decreases |ops| - pc
  {
    pc == |ops| ||
    match ops[pc]
    case Acquire(l) => (forall h :: h in held ==> Rank(o, h) < Rank(o, l)) && Climbs(o, ops, pc + 1, held + {l})
    case Release(l) => Climbs(o, ops, pc + 1, held - {l})
  }

  lemma {:induction false} AloneClimbs(o: Order, ops: seq<Op>, lock: Lock, times: nat, pc: nat)
    requires pc <= |ops| && ops[pc..] == Alone(lock, times)
    ensures Climbs(o, ops, pc, {})
    decreases times
  {
    if times > 0 {
      assert ops[pc..][0] == ops[pc] && ops[pc..][1] == ops[pc + 1];
      assert ops[pc + 2..] == ops[pc..][2..] == Alone(lock, times - 1);
      AloneClimbs(o, ops, lock, times - 1, pc + 2);
      var none: set<Lock> := {};
      assert none + {lock} == {lock} && {lock} - {lock} == none;
      assert ops[pc + 1] == Release(lock) && Climbs(o, ops, pc + 1 + 1, {lock} - {lock});
      assert Climbs(o, ops, pc + 1, {lock});
    }
  }

  lemma EventTail(ops: seq<Op>)
    requires ops == Program(HandleEvent)
    ensures Climbs(ByEvent, ops, 10, {})
  {
    assert {Audit} - {Audit} == {} && {Stats} - {Stats} == {} && {Pending} - {Pending} == {};
    assert Climbs(ByEvent, ops, 16, {});
    assert Climbs(ByEvent, ops, 14, {});
    assert Climbs(ByEvent, ops, 12, {});
  }

  lemma ClimbTake(o: Order, ops: seq<Op>, pc: nat, held: set<Lock>, after: set<Lock>)
    requires pc < |ops| && ops[pc].Acquire? && after == held + {ops[pc].lock} && Climbs(o, ops, pc + 1, after)
    requires forall h :: h in held ==> Rank(o, h) < Rank(o, ops[pc].lock)
    ensures Climbs(o, ops, pc, held)
  {
  }

  lemma ClimbDrop(o: Order, ops: seq<Op>, pc: nat, held: set<Lock>, after: set<Lock>)
    requires pc < |ops| && ops[pc].Release? && after == held - {ops[pc].lock} && Climbs(o, ops, pc + 1, after)
    ensures Climbs(o, ops, pc, held)
  {
  }

  lemma EventDrops(ops: seq<Op>)
    requires ops == Program(HandleEvent)
    ensures Climbs(ByEvent, ops, 5, {Rules, ProcessCache, Prompts, Dns, Recent})
  {
    hide Climbs;
    EventTail(ops);
    var s1, s2 := {Rules}, {Rules, ProcessCache};
    var s3, s4 := {Rules, ProcessCache, Prompts}, {Rules, ProcessCache, Prompts, Dns};
    ClimbDrop(ByEvent, ops, 9, s1, {});
    ClimbDrop(ByEvent, ops, 8, s2, s1);
    ClimbDrop(ByEvent, ops, 7, s3, s2);
    ClimbDrop(ByEvent, ops, 6, s4, s3);
    ClimbDrop(ByEvent, ops, 5, {Rules, ProcessCache, Prompts, Dns, Recent}, s4);
  }

  lemma EventClimbs(ops: seq<Op>)
    requires ops == Program(HandleEvent)
    ensures Climbs(ByEvent, ops, 0, {})
  {
    hide Climbs;
    EventDrops(ops);
    var s1, s2 := {Rules}, {Rules, ProcessCache};
    var s3, s4 := {Rules, ProcessCache, Prompts}, {Rules, ProcessCache, Prompts, Dns};
    ClimbTake(ByEvent, ops, 4, s4, {Rules, ProcessCache, Prompts, Dns, Recent});
    ClimbTake(ByEvent, ops, 3, s3, s4);
    ClimbTake(ByEvent, ops, 2, s2, s3);
    ClimbTake(ByEvent, ops, 1, s1, s2);
    ClimbTake(ByEvent, ops, 0, {}, s1);
  }

  lemma ListingClimbs(ops: seq<Op>)
    requires ops == Program(ProcessList)
    ensures Climbs(ByListing, ops, 0, {})
  {
    var s1 := {ProcessCache};
    var s2 := s1 + {Recent};
    var s3 := s2 + {Rules};
    assert s3 - {Rules} == s2 && s2 - {Recent} == s1 && s1 - {ProcessCache} == {};
    assert Climbs(ByListing, ops, 6, {}) && Climbs(ByListing, ops, 5, s1) && Climbs(ByListing, ops, 4, s2);
    assert Climbs(ByListing, ops, 3, s3) && Climbs(ByListing, ops, 2, s2) && Climbs(ByListing, ops, 1, s1);
    assert {} + {ProcessCache} == s1;
  }

  lemma ShortClimbs(o: Order, r: Routine)
    requires r.StatsSummary? || r.PromptAnswer?
    ensures Climbs(o, Program(r), 0, {})
  {
    var ops := Program(r);
    var first := ops[0].lock;
    assert {} + {first} == {first} && {first} - {first} == {};
    if r.StatsSummary? {
      assert {Stats} + {Rules} - {Rules} == {Stats};
      assert Climbs(o, ops, 4, {}) && Climbs(o, ops, 3, {Stats});
      assert Climbs(o, ops, 2, {Stats} + {Rules});
      assert Climbs(o, ops, 1, {Stats});
    } else {
      assert {} + {Rules} - {Rules} == {};
      assert Climbs(o, ops, 4, {}) && Climbs(o, ops, 3, {Rules});
      assert Climbs(o, ops, 2, {}) && Climbs(o, ops, 1, {Prompts});
    }
  }

  /** Every routine but the outsider takes its locks in rank order. */
  lemma RoutineClimbs(o: Order, r: Routine)
    requires r != Outsider(o)
    ensures Climbs(o, Program(r), 0, {})
  {
    var ops := Program(r);
    hide Climbs;
    assert ops[0..] == ops;
    match r
    case HandleEvent => EventClimbs(ops);
    case PacketLookup => AloneClimbs(o, ops, Pending, 50, 0);
    case ProcessList => ListingClimbs(ops);
    case StatsSummary => ShortClimbs(o, r);
    case PromptAnswer => ShortClimbs(o, r);
    case StatsList => AloneClimbs(o, ops, Stats, 1, 0);
    case EditRules => AloneClimbs(o, ops, Rules, 1, 0);
    case ListPrompts => AloneClimbs(o, ops, Prompts, 1, 0);
    case UseDns => AloneClimbs(o, ops, Dns, 1, 0);
    case UseAudit => AloneClimbs(o, ops, Audit, 1, 0);
    case ChangeModes => AloneClimbs(o, ops, MachineTraffic, 2, 0);
  }

  lemma {:induction false} ClimbsAt(o: Order, ops: seq<Op>, pc: nat)
    requires pc <= |ops| && Climbs(o, ops, 0, {})
    ensures Climbs(o, ops, pc, HeldBy(ops, pc))
  {
    if pc > 0 {
      ClimbsAt(o, ops, pc - 1);
    }
  }

  /** Such a thread never waits for a lock that is ranked below one it holds. */
  lemma WantsAbove(o: Order, t: Thread, l: Lock, h: Lock)
    requires Valid(t) && t.routine != Outsider(o) && Wants(t, l) && h in Held(t)
    ensures Rank(o, h) < Rank(o, l)
  {
    hide Program;
    RoutineClimbs(o, t.routine);
    ClimbsAt(o, Program(t.routine), t.pc);
  }

  // ------------------------------------------------------------ circular waits

  /** Each thread of the ring waits for a lock that the next one holds; `locks` names them. */
  ghost predicate CircularWait(ring: seq<Thread>, locks: seq<Lock>) {
    && 0 < |ring| == |locks|
    && (forall i :: 0 <= i < |ring| ==> Valid(ring[i]) && Wants(ring[i], locks[i]))
    && (forall i :: 0 <= i < |ring| - 1 ==> locks[i] in Held(ring[i + 1]))
    && locks[|ring| - 1] in Held(ring[0])
  }

  ghost predicate Runs(threads: seq<Thread>, r: Routine) {
    exists i :: 0 <= i < |threads| && threads[i].routine == r
  }

  lemma {:induction false} RanksRise(o: Order, ring: seq<Thread>, locks: seq<Lock>, i: nat)
    requires CircularWait(ring, locks) && i < |ring| && !Runs(ring, Outsider(o))
    ensures Rank(o, locks[0]) <= Rank(o, locks[i])
  {
    hide Wants, Held, Valid, Rank, Outsider;
    if i > 0 {
      RanksRise(o, ring, locks, i - 1);
      assert locks[i - 1] in Held(ring[i - 1 + 1]);
      WantsAbove(o, ring[i], locks[i], locks[i - 1]);
    }
  }

  lemma CircularWaitNeedsOutsider(o: Order, ring: seq<Thread>, locks: seq<Lock>)
    requires CircularWait(ring, locks)
    ensures Runs(ring, Outsider(o))
  {
    hide Held, Valid, Rank, Wants, Outsider;
    if !Runs(ring, Outsider(o)) {
      RanksRise(o, ring, locks, |ring| - 1);
      WantsAbove(o, ring[0], locks[0], locks[|ring| - 1]);
      assert false;
    }
  }

  /** Among any number of threads, every circular wait contains a process listing and an event handler. */
  lemma CircularWaitNeedsBoth(ring: seq<Thread>, locks: seq<Lock>)
    requires CircularWait(ring, locks)
    ensures Runs(ring, ProcessList) && Runs(ring, HandleEvent)
  {
    hide CircularWait, Runs;
    CircularWaitNeedsOutsider(ByEvent, ring, locks);
    CircularWaitNeedsOutsider(ByListing, ring, locks);
  }

  // ------------------------------------------------------------ reachable ones

  /** A thread goes on, or gives up early, as it does at a poisoned lock, and lets go of all it holds. */
  datatype Move = Go(thread: nat) | GiveUp(thread: nat)

  /** Thread `i` can take its next step; a lock must be free to be taken. */
  ghost predicate CanGo(threads: seq<Thread>, i: nat) {
    && i < |threads| && threads[i].pc < |Program(threads[i].routine)|
    && forall l :: Wants(threads[i], l) ==>
         forall j :: 0 <= j < |threads| && Valid(threads[j]) ==> l !in Held(threads[j])
  }

  ghost predicate CanMove(threads: seq<Thread>, m: Move) {
    m.thread < |threads| && (m.Go? ==> CanGo(threads, m.thread))
  }

  function Moved(threads: seq<Thread>, m: Move): seq<Thread>
    requires m.thread < |threads|
  {
    var t := threads[m.thread];
    threads[m.thread := t.(pc := if m.Go? then t.pc + 1 else |Program(t.routine)|)]
  }

  lemma {:induction false} AloneEndsEmpty(lock: Lock, times: nat)
    ensures HeldBy(Alone(lock, times), |Alone(lock, times)|) == {}
  {
    if times > 0 {
      var ops := Alone(lock, times - 1) + [Acquire(lock), Release(lock)];
      AloneSnoc(lock, times - 1);
      AloneEndsEmpty(lock, times - 1);
      HeldByPrefix(Alone(lock, times - 1), [Acquire(lock), Release(lock)], |ops| - 2);
      assert HeldBy(ops, |ops| - 1) == {lock};
    }
  }

  lemma {:induction false} AloneSnoc(lock: Lock, times: nat)
    ensures Alone(lock, times + 1) == Alone(lock, times) + [Acquire(lock), Release(lock)]
  {
    if times > 0 {
      AloneSnoc(lock, times - 1);
    }
  }

  lemma {:induction false} HeldByPrefix(a: seq<Op>, b: seq<Op>, pc: nat)
    requires pc <= |a|
    ensures HeldBy(a + b, pc) == HeldBy(a, pc)
  {
    if pc > 0 {
      HeldByPrefix(a, b, pc - 1);
    }
  }

  lemma HeldStep(ops: seq<Op>, pc: nat)
    requires pc < |ops|
    ensures HeldBy(ops, 0) == {}
    ensures HeldBy(ops, pc + 1) ==
            if ops[pc].Acquire? then HeldBy(ops, pc) + {ops[pc].lock} else HeldBy(ops, pc) - {ops[pc].lock}
  {
  }

  /** Taking a lock and letting it go at once changes nothing for a thread that holds nothing. */
  lemma PairEndsEmpty(ops: seq<Op>, pc: nat, lock: Lock)
    requires pc + 1 < |ops| && HeldBy(ops, pc) == {} && ops[pc] == Acquire(lock) && ops[pc + 1] == Release(lock)
    ensures HeldBy(ops, pc + 2) == {}
  {
    HeldStep(ops, pc);
    HeldStep(ops, pc + 1);
    hide HeldBy;
  }

  lemma EventEndsEmpty()
    ensures HeldBy(Program(HandleEvent), 16) == {}
  {
    var ops := Program(HandleEvent);
    hide HeldBy;
    EventTakes(ops);
    HeldStep(ops, 5);
    HeldStep(ops, 6);
    HeldStep(ops, 7);
    HeldStep(ops, 8);
    HeldStep(ops, 9);
    assert HeldBy(ops, 10) == {};
    PairEndsEmpty(ops, 10, Pending);
    PairEndsEmpty(ops, 12, Stats);
    PairEndsEmpty(ops, 14, Audit);
  }

  lemma EventTakes(ops: seq<Op>)
    requires ops == Program(HandleEvent)
    ensures HeldBy(ops, 5) == {Rules, ProcessCache, Prompts, Dns, Recent}
  {
    hide HeldBy;
    HeldStep(ops, 0);
    HeldStep(ops, 1);
    HeldStep(ops, 2);
    HeldStep(ops, 3);
    HeldStep(ops, 4);
  }

  lemma ListingEndsEmpty()
    ensures HeldBy(Program(ProcessList), 6) == {}
  {
    var ops := Program(ProcessList);
    assert HeldBy(ops, 2) == {ProcessCache, Recent};
    assert HeldBy(ops, 4) == {ProcessCache, Recent};
  }

  lemma ShortEndsEmpty(r: Routine)
    requires r.StatsSummary? || r.PromptAnswer?
    ensures |Program(r)| == 4 && HeldBy(Program(r), 4) == {}
  {
    assert HeldBy(Program(r), 1) == {Program(r)[0].lock};
    assert HeldBy(Program(r), 2) == if r.StatsSummary? then {Stats, Rules} else {};
  }

  /** A thread that is through, or has given up, holds nothing. */
  lemma DoneHoldsNothing(r: Routine)
    ensures Held(Thread(r, |Program(r)|)) == {}
  {
    hide HeldBy, Alone;
    match r
    case HandleEvent => EventEndsEmpty();
    case PacketLookup => AloneEndsEmpty(Pending, 50);
    case ProcessList => ListingEndsEmpty();
    case StatsSummary => ShortEndsEmpty(r);
    case PromptAnswer => ShortEndsEmpty(r);
    case StatsList => AloneEndsEmpty(Stats, 1);
    case EditRules => AloneEndsEmpty(Rules, 1);
    case ListPrompts => AloneEndsEmpty(Prompts, 1);
    case UseDns => AloneEndsEmpty(Dns, 1);
    case UseAudit => AloneEndsEmpty(Audit, 1);
    case ChangeModes => AloneEndsEmpty(MachineTraffic, 2);
  }

  ghost predicate Reachable(threads: seq<Thread>, schedule: seq<Move>, after: seq<Thread>)
    decreases |schedule|
  {
    if schedule == [] then threads == after
    else CanMove(threads, schedule[0]) && Reachable(Moved(threads, schedule[0]), schedule[1..], after)
  }

  /** Some of the threads, each named once, wait for each other in a circle. */
  ghost predicate Deadlocked(threads: seq<Thread>) {
    exists ring: seq<nat>, locks :: RingOf(threads, ring, locks)
  }

  function Picked(threads: seq<Thread>, ring: seq<nat>): seq<Thread>
    requires forall i :: 0 <= i < |ring| ==> ring[i] < |threads|
  {
    seq(|ring|, i requires 0 <= i < |ring| => threads[ring[i]])
  }

  ghost predicate RingOf(threads: seq<Thread>, ring: seq<nat>, locks: seq<Lock>) {
    && (forall i :: 0 <= i < |ring| ==> ring[i] < |threads|)
    && (forall i, j :: 0 <= i < j < |ring| ==> ring[i] != ring[j])
    && CircularWait(Picked(threads, ring), locks)
  }

  /** Some schedule of the threads ends in a deadlock. */
  ghost predicate CanDeadlock(threads: seq<Thread>) {
    exists schedule, after :: Reachable(threads, schedule, after) && Deadlocked(after)
  }

  lemma {:induction false} RoutinesStay(threads: seq<Thread>, schedule: seq<Move>, after: seq<Thread>, r: Routine)
    requires Reachable(threads, schedule, after)
    ensures Runs(after, r) ==> Runs(threads, r)
    decreases |schedule|
  {
    if schedule != [] {
      var m := schedule[0];
      RoutinesStay(Moved(threads, m), schedule[1..], after, r);
      hide CanGo;
      if Runs(Moved(threads, m), r) {
        var j :| 0 <= j < |threads| && Moved(threads, m)[j].routine == r;
        assert threads[j].routine == r;
      }
    }
  }

  lemma {:induction false} PickedRuns(threads: seq<Thread>, ring: seq<nat>, r: Routine)
    requires forall i :: 0 <= i < |ring| ==> ring[i] < |threads|
    requires Runs(Picked(threads, ring), r)
    ensures Runs(threads, r)
  {
    var i :| 0 <= i < |ring| && Picked(threads, ring)[i].routine == r;
    assert threads[ring[i]].routine == r;
  }

  lemma Starting(t: Thread)
    requires t.pc == 0
    ensures Valid(t) && Held(t) == {}
  {
  }

  lemma EventHolds()
    ensures var t := Thread(HandleEvent, 1);
            Valid(t) && Held(t) == {Rules} && Wants(t, ProcessCache) && forall l :: Wants(t, l) ==> l == ProcessCache
    ensures forall l :: Wants(Thread(HandleEvent, 0), l) ==> l == Rules
    ensures 1 < |Program(HandleEvent)|
  {
    assert HeldBy(Program(HandleEvent), 0) == {};
  }

  lemma ListingHolds()
    ensures var t := Thread(ProcessList, 1);
            Valid(t) && Held(t) == {ProcessCache} && forall l :: Wants(t, l) ==> l == Recent
    ensures var t := Thread(ProcessList, 2); Valid(t) && Held(t) == {ProcessCache, Recent} && Wants(t, Rules)
    ensures forall l :: Wants(Thread(ProcessList, 0), l) ==> l == ProcessCache
    ensures 2 < |Program(ProcessList)|
  {
    assert HeldBy(Program(ProcessList), 0) == {};
    assert HeldBy(Program(ProcessList), 1) == {ProcessCache};
  }

  /**
   An event handler and a process listing that start among any other starting threads can end up waiting for each
   other: the handler takes the rules, the listing takes the cache and the recent table.
   */
  lemma {:induction false} ProcessListCanDeadlock(threads: seq<Thread>, e: nat, p: nat)
    requires (forall i :: 0 <= i < |threads| ==> threads[i].pc == 0) && e < |threads| && p < |threads|
    requires threads[e].routine.HandleEvent? && threads[p].routine.ProcessList?
    ensures var after := threads[e := Thread(HandleEvent, 1)][p := Thread(ProcessList, 2)];
            Reachable(threads, [Go(e), Go(p), Go(p)], after) && RingOf(after, [e, p], [ProcessCache, Rules])
  {
    hide Held, Wants, Valid, Program;
    forall i | 0 <= i < |threads| ensures Valid(threads[i]) && Held(threads[i]) == {} {
      Starting(threads[i]);
    }
    EventHolds();
    ListingHolds();
    var ge, gp := Go(e), Go(p);
    var t1 := Moved(threads, ge);
    assert CanMove(threads, ge);
    var t2 := Moved(t1, gp);
    assert CanMove(t1, gp);
    var after := Moved(t2, gp);
    assert after == threads[e := Thread(HandleEvent, 1)][p := Thread(ProcessList, 2)];
    assert CanMove(t2, gp);
    assert [ge, gp, gp][1..] == [gp, gp] && [gp, gp][1..] == [gp] && [gp][1..] == [];
    assert Reachable(after, [], after);
    assert Reachable(t2, [gp], after);
    assert Reachable(t1, [gp, gp], after);
    assert Picked(after, [e, p]) == [Thread(HandleEvent, 1), Thread(ProcessList, 2)];
  }

  /**
   The exact condition: any number of threads about to start can deadlock if and only if an event handler and a
   process listing are among them.
   */
  lemma {:induction false} DeadlockNeedsExactlyBoth(threads: seq<Thread>)
    requires forall i :: 0 <= i < |threads| ==> threads[i].pc == 0
    ensures CanDeadlock(threads) <==> Runs(threads, HandleEvent) && Runs(threads, ProcessList)
  {
    hide Reachable, CircularWait;
    if CanDeadlock(threads) {
      var schedule, after :| Reachable(threads, schedule, after) && Deadlocked(after);
      var ring: seq<nat>, locks :| RingOf(after, ring, locks);
      CircularWaitNeedsBoth(Picked(after, ring), locks);
      PickedRuns(after, ring, HandleEvent);
      PickedRuns(after, ring, ProcessList);
      RoutinesStay(threads, schedule, after, HandleEvent);
      RoutinesStay(threads, schedule, after, ProcessList);
    }
    if Runs(threads, HandleEvent) && Runs(threads, ProcessList) {
      var e :| 0 <= e < |threads| && threads[e].routine == HandleEvent;
      var p :| 0 <= p < |threads| && threads[p].routine == ProcessList;
      ProcessListCanDeadlock(threads, e, p);
    }
  }
}

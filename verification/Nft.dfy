/**
 The owned nftables table: the preferences it is compiled from (traffic_mode.rs), its rules, their
 first-match meaning, and the case splits that choose what to install (nft.rs, shared.rs).
 */
module Nft {
  import opened Wrappers

  datatype Preference = Open | Out | In | All

  predicate IsBlocked(p: Preference) { !p.Open? }
  predicate WantsOut(p: Preference) { p.Out? || p.All? }
  predicate WantsIn(p: Preference) { p.In? || p.All? }

  datatype Hook = Output | Input

  predicate Blocks(p: Preference, hook: Hook) {
    if hook.Output? then WantsOut(p) else WantsIn(p)
  }

  /** Which preference blocks which direction. */
  lemma BlocksInWords(p: Preference, hook: Hook)
    ensures Blocks(p, hook) <==> p == All || (p == Out && hook == Output) || (p == In && hook == Input)
    ensures IsBlocked(p) <==> p != Open
  {
  }

  // ------------------------------------------------------------ tables and packets

  datatype NftRule = AcceptLoopback | AcceptEstablished | DropNew | DropNewFrom(uid: nat) | QueueNew

  /** The owned table, chain by chain; with neither chain the table is absent. */
  datatype Table = Table(output: Option<seq<NftRule>>, input: Option<seq<NftRule>>)

  const ABSENT: Table := Table(None, None)

  function Chain(t: Table, hook: Hook): Option<seq<NftRule>> {
    if hook.Output? then t.output else t.input
  }

  datatype CtState = New | Established | Related | Invalid | Untracked
  datatype Packet = Packet(hook: Hook, loopback: bool, tcp: bool, state: CtState, uid: Option<nat>)
  datatype Verdict = Accept | Drop | Queue

  predicate NewTcp(p: Packet) { p.tcp && p.state.New? }

  predicate Fires(r: NftRule, p: Packet) {
    match r
    case AcceptLoopback => p.loopback
    case AcceptEstablished => p.state.Established? || p.state.Related?
    case DropNew => NewTcp(p)
    case DropNewFrom(uid) => NewTcp(p) && p.uid == Some(uid)
    case QueueNew => NewTcp(p)
  }

  function Action(r: NftRule): Verdict {
    match r
    case AcceptLoopback => Accept
    case AcceptEstablished => Accept
    case DropNew => Drop
    case DropNewFrom(_) => Drop
    case QueueNew => Queue
  }

  /** The first rule that fires decides; the chain policy is accept. */
  function FirstMatch(rules: seq<NftRule>, p: Packet): Verdict {
    if rules == [] then Accept
    else if Fires(rules[0], p) then Action(rules[0])
    else FirstMatch(rules[1..], p)
  }

  function Eval(t: Table, p: Packet): Verdict {
    FirstMatch(Chain(t, p.hook).GetOr([]), p)
  }

  // ------------------------------------------------------------ the intended policy

  type Users = seq<(nat, Preference)>

  ghost predicate UserBlocks(users: Users, uid: Option<nat>, hook: Hook) {
    exists u :: u in users && Some(u.0) == uid && Blocks(u.1, hook)
  }

  /** What a packet should meet: only new non-loopback TCP is ever touched, and a block beats the queue. */
  ghost function Intended(machine: Preference, users: Users, active: bool, bound: bool, p: Packet): Verdict {
    if p.loopback || !NewTcp(p) then Accept
    else if Blocks(machine, p.hook) || UserBlocks(users, p.uid, p.hook) then Drop
    else if p.hook.Output? && active && bound then Queue
    else Accept
  }

  // ------------------------------------------------------------ composition

  function UserDrops(users: Users, hook: Hook): seq<NftRule> {
    if users == [] then []
    else (if Blocks(users[0].1, hook) then [DropNewFrom(users[0].0)] else []) + UserDrops(users[1..], hook)
  }

  const PREAMBLE: seq<NftRule> := [AcceptLoopback, AcceptEstablished]

  /** The rules of one chain after the preamble; an empty list means that the chain is not needed. */
  function Body(machine: Preference, users: Users, queues: bool, hook: Hook): seq<NftRule> {
    if Blocks(machine, hook) then [DropNew]
    else UserDrops(users, hook) + if queues && hook.Output? then [QueueNew] else []
  }

  function ChainFor(machine: Preference, users: Users, queues: bool, hook: Hook): Option<seq<NftRule>> {
    var body := Body(machine, users, queues, hook);
    if body == [] then None else Some(PREAMBLE + body)
  }

  function Composed(machine: Preference, users: Users, active: bool, bound: bool): Table {
    var queues := active && bound;
    Table(ChainFor(machine, users, queues, Output), ChainFor(machine, users, queues, Input))
  }

  /** The table `install` loads from its own fixed script. */
  const OWNED: Table := Table(Some([AcceptLoopback, QueueNew]), None)

  lemma {:induction false} FirstMatchAppend(a: seq<NftRule>, b: seq<NftRule>, p: Packet)
    ensures FirstMatch(a + b, p) ==
            if exists r :: r in a && Fires(r, p) then FirstMatch(a, p) else FirstMatch(b, p)
  {
    if a == [] {
      assert a + b == b;
    } else {
      assert (a + b)[1..] == a[1..] + b;
      FirstMatchAppend(a[1..], b, p);
      assert forall r :: r in a <==> r == a[0] || r in a[1..];
    }
  }

  lemma {:induction false} UserDropsMeaning(users: Users, hook: Hook, p: Packet)
    requires p.hook == hook
    ensures (exists r :: r in UserDrops(users, hook) && Fires(r, p)) <==> NewTcp(p) && UserBlocks(users, p.uid, hook)
    ensures NewTcp(p) && UserBlocks(users, p.uid, hook) ==> FirstMatch(UserDrops(users, hook), p) == Drop
  {
    if users != [] {
      var head := if Blocks(users[0].1, hook) then [DropNewFrom(users[0].0)] else [];
      UserDropsMeaning(users[1..], hook, p);
      FirstMatchAppend(head, UserDrops(users[1..], hook), p);
      assert forall u :: u in users <==> u == users[0] || u in users[1..];
      assert NewTcp(p) && UserBlocks(users, p.uid, hook) <==>
             (exists r :: r in head && Fires(r, p)) || (NewTcp(p) && UserBlocks(users[1..], p.uid, hook)) by {
        if Blocks(users[0].1, hook) {
          assert head[0] in head;
        }
      }
      assert forall r :: r in UserDrops(users, hook) <==> r in head || r in UserDrops(users[1..], hook);
    }
  }

  lemma BodyMeaning(machine: Preference, users: Users, queues: bool, p: Packet)
    requires !p.loopback && NewTcp(p)
    ensures FirstMatch(Body(machine, users, queues, p.hook), p) ==
            if Blocks(machine, p.hook) || UserBlocks(users, p.uid, p.hook) then Drop
            else if queues && p.hook.Output? then Queue
            else Accept
  {
    if !Blocks(machine, p.hook) {
      UserDropsMeaning(users, p.hook, p);
      FirstMatchAppend(UserDrops(users, p.hook), if queues && p.hook.Output? then [QueueNew] else [], p);
    }
  }

  lemma {:induction false} OnlyNewTcp(rules: seq<NftRule>, p: Packet)
    requires !NewTcp(p)
    ensures FirstMatch(rules, p) == Accept
  {
    if rules != [] {
      OnlyNewTcp(rules[1..], p);
    }
  }

  /** First-match evaluation of the composed table is the policy, for every preference, user list and packet. */
  lemma ComposedIsIntended(machine: Preference, users: Users, active: bool, bound: bool, p: Packet)
    ensures Eval(Composed(machine, users, active, bound), p) == Intended(machine, users, active, bound, p)
  {
    hide Body, FirstMatch;
    var queues := active && bound;
    var body := Body(machine, users, queues, p.hook);
    if !NewTcp(p) {
      OnlyNewTcp(Chain(Composed(machine, users, active, bound), p.hook).GetOr([]), p);
    } else {
      PreambleMeaning(body, p);
      EmptyAccepts(p);
      if !p.loopback {
        BodyMeaning(machine, users, queues, p);
      }
    }
  }

  lemma EmptyAccepts(p: Packet)
    ensures FirstMatch([], p) == Accept
  {
  }

  lemma PreambleMeaning(body: seq<NftRule>, p: Packet)
    requires NewTcp(p)
    ensures FirstMatch(PREAMBLE + body, p) == if p.loopback then Accept else FirstMatch(body, p)
  {
    assert (PREAMBLE + body)[1..] == [AcceptEstablished] + body;
    assert ([AcceptEstablished] + body)[1..] == body;
  }

  lemma OwnedIsIntended(p: Packet)
    ensures Eval(OWNED, p) == Intended(Open, [], true, true, p)
  {
    if p.hook.Output? {
      assert OWNED.output.value[1..] == [QueueNew];
      assert [QueueNew][1..] == [];
      assert FirstMatch([QueueNew], p) == if NewTcp(p) then Queue else Accept;
    }
  }

  /** A packet of the kinds that are never touched: on loopback, not TCP, or not new. */
  lemma UntouchedAccepted(machine: Preference, users: Users, active: bool, bound: bool, p: Packet)
    requires p.loopback || !p.tcp || p.state != New
    ensures Eval(Composed(machine, users, active, bound), p) == Accept
  {
    ComposedIsIntended(machine, users, active, bound, p);
    hide Composed;
  }

  /** A machine block and a user block act on just the directions that their words say. */
  lemma BlocksActInWords(machine: Preference, uid: nat, user: Preference, p: Packet)
    requires !p.loopback && p.tcp && p.state == New
    ensures Eval(Composed(machine, [(uid, user)], false, false), p) ==
            if machine == All || (machine == Out && p.hook == Output) || (machine == In && p.hook == Input) then Drop
            else if p.uid == Some(uid) && user == All then Drop
            else if p.uid == Some(uid) && user == Out && p.hook == Output then Drop
            else if p.uid == Some(uid) && user == In && p.hook == Input then Drop
            else Accept
  {
    ComposedIsIntended(machine, [(uid, user)], false, false, p);
    assert (uid, user) in [(uid, user)];
    hide Composed;
  }

  // ------------------------------------------------------------ the two case splits

  datatype Mode = Paused | Active

  datatype NftOp = RemoveTable | InstallOwned | InstallComposed(table: Table)

  /** What the operation leaves when `nft` does what it is told; an empty script removes the table. */
  function Target(op: NftOp): Table {
    match op
    case RemoveTable => ABSENT
    case InstallOwned => OWNED
    case InstallComposed(t) => t
  }

  predicate AnyBlocked(users: Users) {
    exists i :: 0 <= i < |users| && IsBlocked(users[i].1)
  }

  /** `Shared::reapply_table`. */
  function ReapplyOp(machine: Preference, users: Users, mode: Mode, bound: bool): NftOp {
    var active := mode.Active?;
    if !IsBlocked(machine) && !AnyBlocked(users) && !active then RemoveTable
    else if !IsBlocked(machine) && !AnyBlocked(users) && active then if bound then InstallOwned else RemoveTable
    else InstallComposed(Composed(machine, users, active && !WantsOut(machine), bound))
  }

  /** `apply_modes`, with its shortcut for a machine-wide outbound block. */
  function ApplyOp(machine: Preference, users: Users, mode: Mode, bound: bool): NftOp {
    var active := mode.Active?;
    if !IsBlocked(machine) && !AnyBlocked(users) && !active then RemoveTable
    else if !IsBlocked(machine) && !AnyBlocked(users) && active then if bound then InstallOwned else RemoveTable
    else if machine == Out && users == [] then InstallComposed(Composed(Out, [], false, false))
    else InstallComposed(Composed(machine, users, active && !WantsOut(machine), bound))
  }

  lemma OpenUsersBlockNothing(users: Users, uid: Option<nat>, hook: Hook)
    requires !AnyBlocked(users)
    ensures !UserBlocks(users, uid, hook)
  {
    forall u | u in users ensures !Blocks(u.1, hook) {
      var i :| 0 <= i < |users| && users[i] == u;
    }
  }

  /** Both hand-written case splits and unconditional composition denote the same packet function. */
  lemma CaseSplitsAgree(machine: Preference, users: Users, mode: Mode, bound: bool, p: Packet)
    ensures Eval(Target(ReapplyOp(machine, users, mode, bound)), p) == Intended(machine, users, mode.Active?, bound, p)
    ensures Eval(Target(ApplyOp(machine, users, mode, bound)), p) == Intended(machine, users, mode.Active?, bound, p)
    ensures Eval(Composed(machine, users, mode.Active?, bound), p) == Intended(machine, users, mode.Active?, bound, p)
  {
    ComposedIsIntended(machine, users, mode.Active?, bound, p);
    ComposedIsIntended(machine, users, mode.Active? && !WantsOut(machine), bound, p);
    ComposedIsIntended(Out, [], false, false, p);
    OwnedIsIntended(p);
    hide Composed;
    if !AnyBlocked(users) {
      OpenUsersBlockNothing(users, p.uid, p.hook);
    }
  }

  lemma {:induction false} NoUserDrops(users: Users, hook: Hook)
    requires forall u :: u in users ==> !Blocks(u.1, hook)
    ensures UserDrops(users, hook) == []
  {
    if users != [] {
      assert users[0] in users;
      NoUserDrops(users[1..], hook);
    }
  }

  /** A chain that has rules of its own acts on some packet. */
  lemma ChainActs(machine: Preference, users: Users, active: bool, bound: bool, hook: Hook) returns (p: Packet)
    requires Body(machine, users, active && !WantsOut(machine) && bound, hook) != []
    ensures Intended(machine, users, active, bound, p) != Accept
  {
    p := Packet(hook, false, true, New, None);
    if !Blocks(machine, hook) && !(hook.Output? && active && bound) {
      if forall u :: u in users ==> !Blocks(u.1, hook) {
        NoUserDrops(users, hook);
        assert false;
      }
      var u :| u in users && Blocks(u.1, hook);
      p := p.(uid := Some(u.0));
    }
  }

  /** A table is taken away exactly when the policy acts on no packet. */
  lemma TargetActs(machine: Preference, users: Users, mode: Mode, bound: bool)
    ensures Target(ReapplyOp(machine, users, mode, bound)) == ABSENT <==>
            forall p :: Intended(machine, users, mode.Active?, bound, p) == Accept
  {
    var target, active := Target(ReapplyOp(machine, users, mode, bound)), mode.Active?;
    if target == ABSENT {
      forall p ensures Intended(machine, users, active, bound, p) == Accept {
        CaseSplitsAgree(machine, users, mode, bound, p);
      }
    } else if target == OWNED && !AnyBlocked(users) && !IsBlocked(machine) {
      var p := Packet(Output, false, true, New, None);
      OpenUsersBlockNothing(users, None, Output);
      assert Intended(machine, users, active, bound, p) == Queue;
    } else {
      hide Body, Intended;
      var hook := if target.output.Some? then Output else Input;
      var p := ChainActs(machine, users, active, bound, hook);
    }
  }

  // ------------------------------------------------------------ loading into a table that was not removed

  function MergeChain(old': Option<seq<NftRule>>, new': Option<seq<NftRule>>): Option<seq<NftRule>> {
    if new'.None? then old' else Some(old'.GetOr([]) + new'.value)
  }

  /** `nft -f` adds the script's rules behind those of a table that is still there. */
  function Merged(old': Table, new': Table): Table {
    Table(MergeChain(old'.output, new'.output), MergeChain(old'.input, new'.input))
  }

  lemma MergedIntoAbsent(t: Table)
    ensures Merged(ABSENT, t) == t
  {
    assert t.output.Some? ==> [] + t.output.value == t.output.value;
    assert t.input.Some? ==> [] + t.input.value == t.input.value;
  }

  lemma {:induction false} FiringAccept(rules: seq<NftRule>, p: Packet)
    requires FirstMatch(rules, p) == Accept && (exists r :: r in rules && Fires(r, p))
    ensures p.loopback || !NewTcp(p)
  {
    if !Fires(rules[0], p) {
      assert forall r :: r in rules <==> r == rules[0] || r in rules[1..];
      FiringAccept(rules[1..], p);
    }
  }

  /** A policy merged behind a leftover table still acts wherever the leftover does not. */
  lemma MergedMeaning(old': Table, new': Table, machine: Preference, users: Users, active: bool, bound: bool, p: Packet)
    requires Eval(new', p) == Intended(machine, users, active, bound, p)
    ensures Eval(Merged(old', new'), p) == if Eval(old', p) == Accept then Eval(new', p) else Eval(old', p)
  {
    var a, b := Chain(old', p.hook).GetOr([]), Chain(new', p.hook).GetOr([]);
    FirstMatchAppend(a, b, p);
    if Chain(new', p.hook).None? {
      assert a + b == a;
    }
    if FirstMatch(a, p) == Accept && (exists r :: r in a && Fires(r, p)) {
      FiringAccept(a, p);
    }
    NothingFires(a, p);
  }

  lemma {:induction false} NothingFires(rules: seq<NftRule>, p: Packet)
    ensures (forall r :: r in rules ==> !Fires(r, p)) ==> FirstMatch(rules, p) == Accept
  {
    if rules != [] {
      NothingFires(rules[1..], p);
      assert forall r :: r in rules[1..] ==> r in rules;
    }
  }

  // ------------------------------------------------------------ the status label

  datatype Effective = EffectiveOpen | EffectiveMachine(machine: Preference) | EffectiveUser(uid: nat, user: Preference)

  /** `effective`: the machine preference wins; the user's applies only when the machine is open. */
  function EffectiveOf(machine: Preference, user: Preference, uid: nat): Effective {
    if IsBlocked(machine) then EffectiveMachine(machine)
    else if IsBlocked(user) then EffectiveUser(uid, user)
    else EffectiveOpen
  }

  predicate Names(e: Effective, hook: Hook) {
    match e
    case EffectiveOpen => false
    case EffectiveMachine(m) => Blocks(m, hook)
    case EffectiveUser(_, u) => Blocks(u, hook)
  }

  /** The preference that the label shows. */
  function Shown(machine: Preference, user: Preference): Preference {
    if machine.Open? then user else machine
  }

  lemma LabelNamesShown(machine: Preference, user: Preference, uid: nat, hook: Hook)
    ensures Names(EffectiveOf(machine, user, uid), hook) <==> Blocks(Shown(machine, user), hook)
  {
  }

  predicate Probe(p: Packet, uid: nat, hook: Hook) {
    p.hook == hook && !p.loopback && NewTcp(p) && p.uid == Some(uid)
  }

  /** What is dropped for a user: the machine blocks it, or an entry for the uid does. */
  lemma UserDropped(machine: Preference, users: Users, uid: nat, active: bool, bound: bool, p: Packet)
    requires Probe(p, uid, p.hook)
    ensures Eval(Composed(machine, users, active, bound), p) == Drop <==>
            Blocks(machine, p.hook) || exists u :: u in users && u.0 == uid && Blocks(u.1, p.hook)
  {
    ComposedIsIntended(machine, users, active, bound, p);
    hide Composed;
  }

  /** A direction of the label is covered: the machine blocks it, or an entry for the uid does. */
  ghost predicate Backed(machine: Preference, users: Users, uid: nat, hook: Hook) {
    Blocks(machine, hook) || exists u :: u in users && u.0 == uid && Blocks(u.1, hook)
  }

  /**
   Every direction the label names as blocked is dropped for that user if and only if the machine is blocked or some
   entry for the uid blocks each direction of the user's own preference.
   */
  lemma LabelIsDropped(machine: Preference, users: Users, uid: nat, user: Preference, active: bool, bound: bool)
    ensures (forall p: Packet :: Probe(p, uid, p.hook) && Names(EffectiveOf(machine, user, uid), p.hook) ==>
               Eval(Composed(machine, users, active, bound), p) == Drop)
            <==> !machine.Open? || forall hook :: Blocks(user, hook) ==> Backed(machine, users, uid, hook)
  {
    forall p: Packet | Probe(p, uid, p.hook)
      ensures Eval(Composed(machine, users, active, bound), p) == Drop <==> Backed(machine, users, uid, p.hook)
      ensures Names(EffectiveOf(machine, user, uid), p.hook) <==> Blocks(Shown(machine, user), p.hook)
    {
      UserDropped(machine, users, uid, active, bound, p);
      LabelNamesShown(machine, user, uid, p.hook);
    }
    hide Composed, Backed, Names;
    if machine.Open? && !forall hook :: Blocks(user, hook) ==> Backed(machine, users, uid, hook) {
      var hook :| Blocks(user, hook) && !Backed(machine, users, uid, hook);
      var p := Packet(hook, false, true, New, Some(uid));
      assert Probe(p, uid, p.hook);
    }
    if !machine.Open? {
      forall hook | Blocks(machine, hook) ensures Backed(machine, users, uid, hook) {
        MachineBacks(machine, users, uid, hook);
      }
    }
  }

  lemma MachineBacks(machine: Preference, users: Users, uid: nat, hook: Hook)
    ensures Blocks(machine, hook) ==> Backed(machine, users, uid, hook)
  {
  }

  predicate Covers(machine: Preference, user: Preference) {
    forall hook :: Blocks(user, hook) ==> Blocks(machine, hook)
  }

  /** The label names everything that is dropped exactly when it covers every entry for that uid. */
  lemma LabelIsComplete(machine: Preference, users: Users, uid: nat, user: Preference, active: bool, bound: bool)
    ensures (forall p: Packet :: Probe(p, uid, p.hook) && Eval(Composed(machine, users, active, bound), p) == Drop ==>
               Names(EffectiveOf(machine, user, uid), p.hook))
            <==> forall u :: u in users && u.0 == uid ==> Covers(Shown(machine, user), u.1)
  {
    forall p: Packet | Probe(p, uid, p.hook)
      ensures Eval(Composed(machine, users, active, bound), p) == Drop <==>
              Blocks(machine, p.hook) || exists u :: u in users && u.0 == uid && Blocks(u.1, p.hook)
      ensures Names(EffectiveOf(machine, user, uid), p.hook) <==> Blocks(Shown(machine, user), p.hook)
    {
      UserDropped(machine, users, uid, active, bound, p);
      LabelNamesShown(machine, user, uid, p.hook);
    }
    hide Composed, Names;
    if !forall u :: u in users && u.0 == uid ==> Covers(Shown(machine, user), u.1) {
      var u :| u in users && u.0 == uid && !Covers(Shown(machine, user), u.1);
      var hook :| Blocks(u.1, hook) && !Blocks(Shown(machine, user), hook);
      var p := Packet(hook, false, true, New, Some(uid));
      assert Probe(p, uid, p.hook);
    }
  }

  /** A machine that blocks outgoing and a user who blocks incoming traffic: the label keeps quiet about the latter. */
  lemma LabelOmitsDirection(uid: nat, active: bool, bound: bool)
    ensures var p := Packet(Input, false, true, New, Some(uid));
            && Eval(Composed(Out, [(uid, In)], active, bound), p) == Drop
            && !Names(EffectiveOf(Out, In, uid), Input)
  {
    var p := Packet(Input, false, true, New, Some(uid));
    ComposedIsIntended(Out, [(uid, In)], active, bound, p);
    assert (uid, In) in [(uid, In)];
    hide Composed;
  }
}

/** The mode controller: files, memory and the kernel table under serialised steps that may fail (shared.rs). */
module Controller {
  import opened Wrappers
  import opened Collections
  import opened Text
  import opened Nft
  import opened Modes

  datatype Bind = Unbound | Nfqueue | Degraded

  datatype Ctl = Ctl(
    paused: bool, machine: Preference, bind: Bind,
    modeFile: Option<string>, machineFile: Option<string>, userFiles: Files,
    kernel: Table)

  /** Which of the foreign calls of a step succeed: the file store, `nft delete table`, `nft -f -`. */
  datatype Io = Io(stores: bool, removes: bool, loads: bool)

  function ModeOf(s: Ctl): Mode { if s.paused then Paused else Active }

  // ------------------------------------------------------------ the kernel table

  /** `remove`, `install` and `install_composed`: an install ignores a failed delete and loads anyway. */
  function Performed(kernel: Table, op: NftOp, io: Io): (Table, bool) {
    if Target(op) == ABSENT then
      if io.removes then (ABSENT, true) else (kernel, false)
    else
      var base := if io.removes then ABSENT else kernel;
      if io.loads then (Merged(base, Target(op)), true) else (base, false)
  }

  /** `reapply_table` with the user blocks it read. */
  function Reapplied(s: Ctl, users: Users, io: Io): (Ctl, bool) {
    var (kernel, ok) := Performed(s.kernel, ReapplyOp(s.machine, users, ModeOf(s), s.bind.Nfqueue?), io);
    (s.(kernel := kernel), ok)
  }

  // ------------------------------------------------------------ commands

  datatype Scope = Machine | User

  datatype Cmd =
    | Pause
    | Resume
    | Block(scope: Scope, preference: Preference, uid: nat)
    | Unblock(scope: Scope, uid: nat)

  function Line(p: Preference): string { PrefText(p) + "\n" }

  /** The files and the memory a command writes before the table is reapplied. */
  function Written(s: Ctl, cmd: Cmd): Ctl {
    match cmd
    case Pause => s.(modeFile := Some(ModeText(Paused) + "\n"), paused := true)
    case Resume => s.(modeFile := Some(ModeText(Active) + "\n"), paused := false)
    case Block(scope, p, uid) =>
      if scope.Machine? then s.(machineFile := Some(Line(p)), machine := p)
      else s.(userFiles := s.userFiles[UserFile(uid) := Line(p)])
    case Unblock(scope, uid) =>
      if scope.Machine? then s.(machineFile := Some(Line(Open)), machine := Open)
      else s.(userFiles := s.userFiles[UserFile(uid) := Line(Open)])
  }

  /** A command is refused before anything is written. */
  predicate Refused(s: Ctl, cmd: Cmd) {
    (cmd.Resume? && !s.bind.Nfqueue?) || (cmd.Block? && cmd.preference.Open?)
  }

  function Commanded(s: Ctl, cmd: Cmd, users: Users, io: Io): (Ctl, bool) {
    if Refused(s, cmd) || !io.stores then (s, false) else Reapplied(Written(s, cmd), users, io)
  }

  // ------------------------------------------------------------ steps and runs

  datatype Step =
    | Command(cmd: Cmd, users: Users, io: Io)
    | SetBind(bind: Bind)
    | Serve(users: Users, io: Io)
    | Restart(modeReadable: bool, machineReadable: bool)

  /** The user blocks a step reads are those of the directory at that moment. */
  ghost predicate Reads(s: Ctl, step: Step) {
    match step
    case Command(cmd, users, _) => Listing(Written(s, cmd).userFiles, users)
    case Serve(users, _) => Listing(s.userFiles, users)
    case _ => true
  }

  /** `bind_and_serve` reads the preferences from disk and swallows a failed install. */
  function Stepped(s: Ctl, step: Step): (Ctl, bool) {
    match step
    case Command(cmd, users, io) => Commanded(s, cmd, users, io)
    case SetBind(b) => (s.(bind := b), true)
    case Serve(users, io) =>
      var op := ApplyOp(LoadPref(s.machineFile), users, LoadMode(s.modeFile), true);
      (s.(bind := Nfqueue, kernel := Performed(s.kernel, op, io).0), true)
    case Restart(modeReadable, machineReadable) =>
      (s.(paused := (if modeReadable then LoadMode(s.modeFile) else Paused).Paused?,
          machine := if machineReadable then LoadPref(s.machineFile) else Open,
          bind := Unbound), true)
  }

  function At(s: Ctl, steps: seq<Step>, n: nat): Ctl
    requires n <= |steps|
  {
    if n == 0 then s else Stepped(At(s, steps, n - 1), steps[n - 1]).0
  }

  ghost predicate Run(s: Ctl, steps: seq<Step>) {
    Agrees(s) && forall n :: 0 <= n < |steps| ==> Reads(At(s, steps, n), steps[n]) && Readable(steps[n])
  }

  predicate Readable(step: Step) {
    step.Restart? ==> step.modeReadable && step.machineReadable
  }

  // ------------------------------------------------------------ files and memory agree

  /** What is persisted is what is in memory. */
  predicate Agrees(s: Ctl) {
    LoadMode(s.modeFile) == ModeOf(s) && LoadPref(s.machineFile) == s.machine
  }

  lemma WrittenAgrees(s: Ctl, cmd: Cmd)
    requires Agrees(s)
    ensures Agrees(Written(s, cmd))
  {
    hide LoadMode, LoadPref, ModeText, PrefText;
    ModeRoundTrip(Paused);
    ModeRoundTrip(Active);
    PrefRoundTrip(Open);
    if cmd.Block? {
      PrefRoundTrip(cmd.preference);
    }
  }

  lemma StepAgrees(s: Ctl, step: Step)
    requires Agrees(s)
    ensures Readable(step) ==> Agrees(Stepped(s, step).0)
    ensures step.Restart? ==>
              (Agrees(Stepped(s, step).0) <==>
                && (step.modeReadable || LoadMode(s.modeFile) == Paused)
                && (step.machineReadable || LoadPref(s.machineFile) == Open))
  {
    hide LoadMode, LoadPref, Written, Performed;
    if step.Command? {
      WrittenAgrees(s, step.cmd);
    }
  }

  /** In every run with failing stores, failing `nft` calls and restarts, files and memory agree throughout. */
  lemma {:induction false} RunAgrees(s: Ctl, steps: seq<Step>, n: nat)
    requires Run(s, steps) && n <= |steps|
    ensures Agrees(At(s, steps, n))
  {
    hide Agrees, Stepped, Reads;
    if n > 0 {
      RunAgrees(s, steps, n - 1);
      StepAgrees(At(s, steps, n - 1), steps[n - 1]);
    }
  }

  // ------------------------------------------------------------ the table is the one the preferences fix

  ghost predicate DiskBlocks(files: Files, uid: Option<nat>, hook: Hook) {
    exists name, u :: BlockEntry(files, name, u) && Some(u.0) == uid && Blocks(u.1, hook)
  }

  /** The policy fixed by machine preference, user files, mode and a bind flag. */
  ghost function Fixed(s: Ctl, bound: bool, p: Packet): Verdict {
    if p.loopback || !NewTcp(p) then Accept
    else if Blocks(s.machine, p.hook) || DiskBlocks(s.userFiles, p.uid, p.hook) then Drop
    else if p.hook.Output? && !s.paused && bound then Queue
    else Accept
  }

  ghost predicate InSync(s: Ctl, bound: bool) {
    forall p :: Eval(s.kernel, p) == Fixed(s, bound, p)
  }

  /** Whatever this table drops or queues is treated the same by the policy that the preferences fix. */
  ghost predicate Harmless(kernel: Table, s: Ctl, bound: bool) {
    forall p :: Eval(kernel, p) != Accept ==> Eval(kernel, p) == Fixed(s, bound, p)
  }

  lemma ListedBlocks(files: Files, users: Users, uid: Option<nat>, hook: Hook)
    requires Listing(files, users)
    ensures UserBlocks(users, uid, hook) <==> DiskBlocks(files, uid, hook)
  {
    hide BlockEntry, SortedByUid;
    if UserBlocks(users, uid, hook) {
      var u :| u in users && Some(u.0) == uid && Blocks(u.1, hook);
      var name :| BlockEntry(files, name, u);
    }
    if DiskBlocks(files, uid, hook) {
      var name, u :| BlockEntry(files, name, u) && Some(u.0) == uid && Blocks(u.1, hook);
      assert u in users;
    }
  }

  lemma ListedIntent(s: Ctl, users: Users, bound: bool, p: Packet)
    requires Listing(s.userFiles, users)
    ensures Intended(s.machine, users, !s.paused, bound, p) == Fixed(s, bound, p)
  {
    hide Listing, UserBlocks, DiskBlocks;
    ListedBlocks(s.userFiles, users, p.uid, p.hook);
  }

  /** What `nft` leaves behind, case by case. */
  lemma PerformedMeaning(
    kernel: Table, op: NftOp, io: Io, machine: Preference, users: Users, active: bool, bound: bool, p: Packet)
    requires Eval(Target(op), p) == Intended(machine, users, active, bound, p)
    requires Performed(kernel, op, io).1
    ensures Eval(Performed(kernel, op, io).0, p) ==
            if !io.removes && Eval(kernel, p) != Accept then Eval(kernel, p)
            else Intended(machine, users, active, bound, p)
  {
    hide Intended, Target, Eval;
    MergedIntoAbsent(Target(op));
    MergedMeaning(kernel, Target(op), machine, users, active, bound, p);
  }

  /** After a successful reapply the table is the fixed policy, except where an undeleted old table still acts. */
  lemma ReappliedMeaning(s: Ctl, users: Users, io: Io, p: Packet)
    requires Listing(s.userFiles, users) && Reapplied(s, users, io).1
    ensures var after := Reapplied(s, users, io).0;
            Eval(after.kernel, p) ==
            if !io.removes && Eval(s.kernel, p) != Accept then Eval(s.kernel, p) else Fixed(s, s.bind.Nfqueue?, p)
  {
    hide Listing, Fixed, Intended, Performed, Eval, ReapplyOp;
    CaseSplitsAgree(s.machine, users, ModeOf(s), s.bind.Nfqueue?, p);
    ListedIntent(s, users, s.bind.Nfqueue?, p);
    PerformedMeaning(s.kernel, ReapplyOp(s.machine, users, ModeOf(s), s.bind.Nfqueue?), io,
                     s.machine, users, ModeOf(s).Active?, s.bind.Nfqueue?, p);
  }

  lemma WrittenFrame(s: Ctl, cmd: Cmd)
    ensures Written(s, cmd).kernel == s.kernel && Written(s, cmd).bind == s.bind
  {
  }

  /**
   A successful command leaves the table of its new preferences if and only if the old table was deleted, or
   everything the old table dropped or queued is treated the same by the new policy.
   */
  lemma SuccessSyncs(s: Ctl, cmd: Cmd, users: Users, io: Io)
    requires Listing(Written(s, cmd).userFiles, users) && Commanded(s, cmd, users, io).1
    ensures var after := Commanded(s, cmd, users, io).0;
            InSync(after, after.bind.Nfqueue?) <==>
            io.removes || Harmless(s.kernel, Written(s, cmd), s.bind.Nfqueue?)
  {
    hide Listing, Written, Eval;
    var w, after := Written(s, cmd), Commanded(s, cmd, users, io).0;
    WrittenFrame(s, cmd);
    forall p
      ensures Eval(after.kernel, p) ==
              if !io.removes && Eval(s.kernel, p) != Accept then Eval(s.kernel, p) else Fixed(after, s.bind.Nfqueue?, p)
    {
      hide Fixed;
      ReappliedMeaning(w, users, io, p);
      SameInputs(w, after, s.bind.Nfqueue?, p);
    }
    forall p ensures Fixed(w, s.bind.Nfqueue?, p) == Fixed(after, s.bind.Nfqueue?, p) {
      SameInputs(w, after, s.bind.Nfqueue?, p);
    }
    hide Fixed;
  }

  lemma SameInputs(s: Ctl, t: Ctl, bound: bool, p: Packet)
    requires t == s.(kernel := t.kernel)
    ensures Fixed(s, bound, p) == Fixed(t, bound, p)
  {
  }

  /** Loading over a table that could not be deleted can keep dropping what was just unblocked. */
  lemma FailedDeleteKeepsDropping() returns (s: Ctl, users: Users, p: Packet)
    ensures var io := Io(true, false, true);
            && Listing(Written(s, Unblock(Machine, 0)).userFiles, users)
            && Commanded(s, Unblock(Machine, 0), users, io).1
            && Eval(Commanded(s, Unblock(Machine, 0), users, io).0.kernel, p) == Drop
            && Fixed(Commanded(s, Unblock(Machine, 0), users, io).0, true, p) != Drop
  {
    users := [];
    s := Ctl(false, Out, Nfqueue, Some("active\n"), Some("out\n"), map[], Composed(Out, [], false, false));
    p := Packet(Output, false, true, New, None);
    var w := Written(s, Unblock(Machine, 0));
    var io := Io(true, false, true);
    assert Listing(w.userFiles, users);
    assert w.kernel == s.kernel && w.machine == Open && ModeOf(w) == Active && w.bind.Nfqueue?;
    assert ReapplyOp(Open, [], Active, true) == InstallOwned;
    assert Reapplied(w, users, io).1;
    ReappliedMeaning(w, users, io, p);
    ComposedIsIntended(Out, [], false, false, p);
  }

  /** Steps that leave the table and everything it depends on alone. */
  predicate Quiet(s: Ctl, step: Step) {
    match step
    case Command(cmd, _, io) => Refused(s, cmd) || !io.stores
    case SetBind(_) => true
    case Serve(_, _) => false
    case Restart(_, _) => Readable(step)
  }

  lemma QuietStep(s: Ctl, step: Step, bound: bool)
    requires Agrees(s) && Quiet(s, step)
    ensures InSync(Stepped(s, step).0, bound) <==> InSync(s, bound)
  {
    hide LoadMode, LoadPref, Eval, DiskBlocks;
    var t := Stepped(s, step).0;
    assert t == s.(bind := t.bind);
    forall p ensures Fixed(t, bound, p) == Fixed(s, bound, p) {
      SamePreferences(s, t, bound, p);
    }
    hide Fixed;
  }

  /**
   From a successful command on, through refused commands, commands whose file store fails, bind changes and
   restarts, the table is the one fixed by the current preferences and the bind flag of that command, if and only if
   the command deleted the old table or the old table was harmless.
   */
  lemma {:induction false} TableFollowsPreferences(s: Ctl, steps: seq<Step>, i: nat, n: nat)
    requires Run(s, steps) && i < n <= |steps| && steps[i].Command? && Stepped(At(s, steps, i), steps[i]).1
    requires forall j :: i < j < n ==> Quiet(At(s, steps, j), steps[j])
    ensures var w := At(s, steps, i);
            InSync(At(s, steps, n), w.bind.Nfqueue?) <==>
            steps[i].io.removes || Harmless(w.kernel, Written(w, steps[i].cmd), w.bind.Nfqueue?)
    decreases n
  {
    hide Run, At, Stepped, Agrees, InSync, Quiet, Reads, Harmless;
    RunStep(s, steps, n - 1);
    if n == i + 1 {
      CommandSyncs(At(s, steps, i), steps[i]);
    } else {
      TableFollowsPreferences(s, steps, i, n - 1);
      RunAgrees(s, steps, n - 1);
      QuietStep(At(s, steps, n - 1), steps[n - 1], At(s, steps, i).bind.Nfqueue?);
    }
  }

  lemma RunStep(s: Ctl, steps: seq<Step>, n: nat)
    requires Run(s, steps) && n < |steps|
    ensures Reads(At(s, steps, n), steps[n]) && At(s, steps, n + 1) == Stepped(At(s, steps, n), steps[n]).0
  {
    hide Stepped, Reads, Agrees;
  }

  lemma CommandSyncs(s: Ctl, step: Step)
    requires step.Command? && Reads(s, step) && Stepped(s, step).1
    ensures InSync(Stepped(s, step).0, s.bind.Nfqueue?) <==>
            step.io.removes || Harmless(s.kernel, Written(s, step.cmd), s.bind.Nfqueue?)
  {
    hide Commanded, InSync, Harmless;
    SuccessSyncs(s, step.cmd, step.users, step.io);
    CommandKeepsBind(s, step.cmd, step.users, step.io);
  }

  lemma CommandKeepsBind(s: Ctl, cmd: Cmd, users: Users, io: Io)
    ensures Commanded(s, cmd, users, io).0.bind == s.bind
  {
    hide Performed;
  }

  /** Binding the queue installs the policy of the files, with the queue bound, under the same exact condition. */
  lemma ServeSyncs(s: Ctl, users: Users, io: Io)
    requires Agrees(s) && Listing(s.userFiles, users)
    requires Performed(s.kernel, ApplyOp(LoadPref(s.machineFile), users, LoadMode(s.modeFile), true), io).1
    ensures InSync(Stepped(s, Serve(users, io)).0, true) <==> io.removes || Harmless(s.kernel, s, true)
  {
    hide Listing, LoadMode, LoadPref, Eval, ApplyOp, Performed, Fixed;
    var op, after := ApplyOp(s.machine, users, ModeOf(s), true), Stepped(s, Serve(users, io)).0;
    forall p
      ensures Fixed(after, true, p) == Fixed(s, true, p)
      ensures Eval(after.kernel, p) ==
              if !io.removes && Eval(s.kernel, p) != Accept then Eval(s.kernel, p) else Fixed(s, true, p)
    {
      CaseSplitsAgree(s.machine, users, ModeOf(s), true, p);
      PerformedMeaning(s.kernel, op, io, s.machine, users, ModeOf(s).Active?, true, p);
      ListedIntent(s, users, true, p);
      SamePreferences(s, after, true, p);
    }
  }

  lemma SamePreferences(s: Ctl, t: Ctl, bound: bool, p: Packet)
    requires t == s.(kernel := t.kernel, bind := t.bind)
    ensures Fixed(s, bound, p) == Fixed(t, bound, p)
  {
  }

  /** A user block is on disk in every direction it names. */
  lemma UserBlockOnDisk(s: Ctl, preference: Preference, uid: nat, hook: Hook)
    requires uid <= U32_MAX && Blocks(preference, hook)
    ensures DiskBlocks(Written(s, Block(User, preference, uid)).userFiles, Some(uid), hook)
  {
    UserFileNames(uid);
    PrefRoundTrip(preference);
    hide UidOf, LoadPref, UserFile, PrefText;
    assert BlockEntry(Written(s, Block(User, preference, uid)).userFiles, UserFile(uid), (uid, preference));
  }

  /** Unblocking a user clears the user's block exactly when no other file name stands for the same uid. */
  lemma UserUnblockClears(s: Ctl, uid: nat, hook: Hook)
    requires uid <= U32_MAX
    ensures DiskBlocks(Written(s, Unblock(User, uid)).userFiles, Some(uid), hook) <==>
            exists name :: name in s.userFiles && name != UserFile(uid) && UidOf(name) == Some(uid) &&
                           Blocks(LoadPref(Some(s.userFiles[name])), hook)
  {
    UserFileNames(uid);
    PrefRoundTrip(Open);
    hide UidOf, LoadPref, UserFile, PrefText;
    var after := Written(s, Unblock(User, uid)).userFiles;
    if name :| name in s.userFiles && name != UserFile(uid) && UidOf(name) == Some(uid) &&
               Blocks(LoadPref(Some(s.userFiles[name])), hook) {
      assert BlockEntry(after, name, (uid, LoadPref(Some(s.userFiles[name]))));
    }
  }

  /** `traffic.user.007` stands for uid 7 but is not the file that a command for uid 7 writes. */
  lemma AliasName()
    ensures UidOf("traffic.user.007") == Some(7) && UserFile(7) != "traffic.user.007"
  {
    var name, digits := "traffic.user.007", "007";
    assert name == UserPrefix() + digits;
    assert name[|UserPrefix()|..] == digits;
    assert Value("007"[..2]) == 0 by {
      assert "007"[..2] == "00" && "00"[..1] == "0" && "0"[..0] == "";
    }
    assert Parse(digits, U32_MAX) == Some(7);
    assert |Show(7)| == 1;
  }

  /** A directory in which unblocking uid 7 succeeds and leaves its block in force. */
  lemma AliasKeepsBlocking(s: Ctl, hook: Hook)
    requires s.userFiles == map["traffic.user.007" := Line(All)]
    ensures DiskBlocks(Written(s, Unblock(User, 7)).userFiles, Some(7), hook)
  {
    AliasName();
    PrefRoundTrip(All);
    UserUnblockClears(s, 7, hook);
    hide UidOf, LoadPref, UserFile, PrefText;
    assert "traffic.user.007" in s.userFiles;
  }

  /** What a successful command leaves, packet by packet. */
  lemma CommandedMeaning(s: Ctl, cmd: Cmd, users: Users, io: Io, p: Packet)
    requires Listing(Written(s, cmd).userFiles, users) && Commanded(s, cmd, users, io).1
    ensures Eval(Commanded(s, cmd, users, io).0.kernel, p) ==
            if !io.removes && Eval(s.kernel, p) != Accept then Eval(s.kernel, p)
            else Fixed(Written(s, cmd), s.bind.Nfqueue?, p)
  {
    hide Listing, Written, Eval, Fixed;
    WrittenFrame(s, cmd);
    ReappliedMeaning(Written(s, cmd), users, io, p);
  }

  /**
   After a successful user block no new TCP packet of that uid in a direction it names is accepted: it is dropped,
   unless a table that could not be deleted already dropped or queued it.
   */
  lemma UserBlockTakes(s: Ctl, preference: Preference, uid: nat, users: Users, io: Io, p: Packet)
    requires uid <= U32_MAX && Blocks(preference, p.hook) && Probe(p, uid, p.hook)
    requires var block := Block(User, preference, uid);
             Listing(Written(s, block).userFiles, users) && Commanded(s, block, users, io).1
    ensures Eval(Commanded(s, Block(User, preference, uid), users, io).0.kernel, p) ==
            if !io.removes && Eval(s.kernel, p) != Accept then Eval(s.kernel, p) else Drop
  {
    hide Commanded, Eval, DiskBlocks, Listing, Written;
    UserBlockOnDisk(s, preference, uid, p.hook);
    CommandedMeaning(s, Block(User, preference, uid), users, io, p);
  }

  /** Another file name that stands for the uid blocks the direction. */
  ghost predicate AliasBlocks(files: Files, uid: nat, hook: Hook) {
    exists name :: name in files && name != UserFile(uid) && UidOf(name) == Some(uid) &&
                   Blocks(LoadPref(Some(files[name])), hook)
  }

  /**
   After a successful user unblock a new TCP packet of that uid passes, to the queue or freely, if and only if neither
   the machine nor an alias of the user's file blocks it; over a table that could not be deleted it also has to be one
   that the old table did not drop, and one that the old table queued is still queued.
   */
  lemma UserUnblockTakes(s: Ctl, uid: nat, users: Users, io: Io, p: Packet)
    requires uid <= U32_MAX && Probe(p, uid, p.hook)
    requires Listing(Written(s, Unblock(User, uid)).userFiles, users) && Commanded(s, Unblock(User, uid), users, io).1
    ensures var after := Eval(Commanded(s, Unblock(User, uid), users, io).0.kernel, p);
            after != Drop <==>
            if !io.removes && Eval(s.kernel, p) != Accept then Eval(s.kernel, p) == Queue
            else !Blocks(s.machine, p.hook) && !AliasBlocks(s.userFiles, uid, p.hook)
  {
    UserUnblockClears(s, uid, p.hook);
    CommandedMeaning(s, Unblock(User, uid), users, io, p);
    hide Commanded, Eval, DiskBlocks, Listing, UserFile, UidOf, LoadPref, PrefText;
  }

  /** What a pause or resume will drop, whatever the mode: the drops that the preferences fix. */
  ghost predicate FixedDrop(s: Ctl, p: Packet) { Fixed(s, false, p) == Drop }

  /**
   A successful pause or resume leaves what is dropped unchanged if and only if the preferences fix just what the
   table drops or, where the old table could not be deleted, nothing that it accepts.
   */
  lemma PauseChangesDrops(s: Ctl, cmd: Cmd, users: Users, io: Io)
    requires (cmd.Pause? || cmd.Resume?) && Listing(Written(s, cmd).userFiles, users) && Commanded(s, cmd, users, io).1
    ensures (forall p :: Eval(Commanded(s, cmd, users, io).0.kernel, p) == Drop <==> Eval(s.kernel, p) == Drop) <==>
            forall p :: if io.removes then FixedDrop(s, p) <==> Eval(s.kernel, p) == Drop
                        else FixedDrop(s, p) ==> Eval(s.kernel, p) != Accept
  {
    hide Commanded, Eval, DiskBlocks, Listing;
    var after := Commanded(s, cmd, users, io).0.kernel;
    forall p
      ensures Eval(after, p) == Drop <==>
              if !io.removes && Eval(s.kernel, p) != Accept then Eval(s.kernel, p) == Drop else FixedDrop(s, p)
    {
      CommandedMeaning(s, cmd, users, io, p);
    }
    hide FixedDrop;
  }

  /** From a table in sync, pausing and resuming never change what is dropped, deleted or not. */
  lemma PauseKeepsDrops(s: Ctl, bound: bool, cmd: Cmd, users: Users, io: Io, p: Packet)
    requires InSync(s, bound) && (cmd.Pause? || cmd.Resume?)
    requires Listing(Written(s, cmd).userFiles, users) && Commanded(s, cmd, users, io).1
    ensures Eval(Commanded(s, cmd, users, io).0.kernel, p) == Drop <==> Eval(s.kernel, p) == Drop
  {
    hide Commanded, Eval, DiskBlocks, Listing;
    PauseChangesDrops(s, cmd, users, io);
    forall p ensures FixedDrop(s, p) <==> Eval(s.kernel, p) == Drop {
      assert Eval(s.kernel, p) == Fixed(s, bound, p);
    }
    hide FixedDrop;
  }

  /** A daemon just started with a persisted outgoing block has no table yet: the first pause starts dropping. */
  lemma PauseStartsDropping(p: Packet)
    requires !p.loopback && NewTcp(p) && p.hook.Output?
    ensures var files := Ctl(false, Open, Unbound, Some("paused\n"), Some("out\n"), map[], ABSENT);
            var s := Stepped(files, Restart(true, true)).0;
            && Commanded(s, Pause, [], Io(true, true, true)).1 && Listing(Written(s, Pause).userFiles, [])
            && Eval(s.kernel, p) == Accept && Eval(Commanded(s, Pause, [], Io(true, true, true)).0.kernel, p) == Drop
  {
    var files := Ctl(false, Open, Unbound, Some("paused\n"), Some("out\n"), map[], ABSENT);
    var s, io := Stepped(files, Restart(true, true)).0, Io(true, true, true);
    StartedBlocked();
    assert s == Ctl(true, Out, Unbound, Some("paused\n"), Some("out\n"), map[], ABSENT);
    hide LoadMode, LoadPref, ModeText;
    assert Listing(s.userFiles, []);
    assert Commanded(s, Pause, [], io).1;
    CommandedMeaning(s, Pause, [], io, p);
  }

  lemma StartedBlocked()
    ensures LoadMode(Some("paused\n")) == Paused && LoadPref(Some("out\n")) == Out
  {
    assert ModeText(Paused) + "\n" == "paused\n" && PrefText(Out) + "\n" == "out\n";
    hide LoadMode, LoadPref;
    ModeRoundTrip(Paused);
    PrefRoundTrip(Out);
  }

  lemma CommandedFrame(s: Ctl, cmd: Cmd, users: Users, io: Io)
    requires Commanded(s, cmd, users, io).1
    ensures Commanded(s, cmd, users, io).0 == Written(s, cmd).(kernel := Commanded(s, cmd, users, io).0.kernel)
  {
    hide Performed, Written;
  }

  /** Both commands succeed, one after the other, each reading the directory as it finds it. */
  ghost predicate BlocksThenUnblocks(
    s: Ctl, preference: Preference, uid: nat, users: Users, io: Io, users': Users, io': Io) {
    var block, unblock := Block(Machine, preference, uid), Unblock(Machine, uid);
    && Listing(Written(s, block).userFiles, users) && Commanded(s, block, users, io).1
    && var mid := Commanded(s, block, users, io).0;
       Listing(Written(mid, unblock).userFiles, users') && Commanded(mid, unblock, users', io').1
  }

  function Restored(s: Ctl, preference: Preference, uid: nat, users: Users, io: Io, users': Users, io': Io): Table {
    Commanded(Commanded(s, Block(Machine, preference, uid), users, io).0, Unblock(Machine, uid), users', io').0.kernel
  }

  /** The verdict of one packet after both commands, whatever the table was before. */
  lemma RestoredMeaning(
    s: Ctl, preference: Preference, uid: nat, users: Users, io: Io, users': Users, io': Io, p: Packet)
    requires BlocksThenUnblocks(s, preference, uid, users, io, users', io')
    ensures var was, bound := Eval(s.kernel, p), s.bind.Nfqueue?;
            var mid := if !io.removes && was != Accept then was else Fixed(s.(machine := preference), bound, p);
            Eval(Restored(s, preference, uid, users, io, users', io'), p) ==
            if !io'.removes && mid != Accept then mid else Fixed(s.(machine := Open), bound, p)
  {
    hide Listing, Eval, DiskBlocks, Performed, Reapplied;
    var block, unblock := Block(Machine, preference, uid), Unblock(Machine, uid);
    var mid := Commanded(s, block, users, io).0;
    CommandedFrame(s, block, users, io);
    CommandedMeaning(s, block, users, io, p);
    CommandedMeaning(mid, unblock, users', io', p);
  }

  /** What the blocked machine accepts, the open one accepts. */
  lemma BlockAcceptsLess(s: Ctl, preference: Preference, bound: bool, p: Packet)
    ensures Fixed(s.(machine := preference), bound, p) == Accept ==> Fixed(s.(machine := Open), bound, p) == Accept
  {
    hide DiskBlocks;
  }

  /** The table already denotes what the pair leaves: the open policy, or what an undeleted table makes of it. */
  ghost predicate Restores(s: Ctl, preference: Preference, io: Io, io': Io) {
    var bound := s.bind.Nfqueue?;
    if io'.removes then InSync(s.(machine := Open), bound)
    else if io.removes then InSync(s.(machine := preference), bound)
    else forall p :: Fixed(s.(machine := preference), bound, p) != Accept ==> Eval(s.kernel, p) != Accept
  }

  /**
   Blocking the whole machine and unblocking it again restores the meaning of the table, from any state, if and only
   if the table was in sync with the open policy, where the unblock deletes; with the blocked policy, where only the
   block deletes; or, where neither does, acted on all that the blocked policy acts on.
   */
  lemma BlockThenUnblock(s: Ctl, preference: Preference, uid: nat, users: Users, io: Io, users': Users, io': Io)
    requires BlocksThenUnblocks(s, preference, uid, users, io, users', io')
    ensures (forall p :: Eval(Restored(s, preference, uid, users, io, users', io'), p) == Eval(s.kernel, p)) <==>
            Restores(s, preference, io, io')
  {
    BlockIsBlock(s, preference, uid, users, io, users', io');
    var after, bound := Restored(s, preference, uid, users, io, users', io'), s.bind.Nfqueue?;
    forall p
      ensures Fixed(s.(machine := preference), bound, p) == Accept ==> Fixed(s.(machine := Open), bound, p) == Accept
      ensures var was := Eval(s.kernel, p);
              var mid := if !io.removes && was != Accept then was else Fixed(s.(machine := preference), bound, p);
              Eval(after, p) == if !io'.removes && mid != Accept then mid else Fixed(s.(machine := Open), bound, p)
    {
      hide Restored, BlocksThenUnblocks, Eval, Fixed;
      RestoredMeaning(s, preference, uid, users, io, users', io', p);
      BlockAcceptsLess(s, preference, bound, p);
    }
    hide Restored, BlocksThenUnblocks, Eval, Fixed;
  }

  lemma BlockIsBlock(s: Ctl, preference: Preference, uid: nat, users: Users, io: Io, users': Users, io': Io)
    requires BlocksThenUnblocks(s, preference, uid, users, io, users', io')
    ensures !preference.Open?
  {
    hide Reapplied, Listing, Written;
  }

  /** The block does not delete the old table and has nothing to add to it. */
  predicate Idle(s: Ctl, preference: Preference, io: Io) {
    !io.removes && preference.Out? && !s.paused && s.bind.Nfqueue?
  }

  /**
   For a table in sync on an open machine this comes to the flags alone: the unblock deleted the old table, or the
   block neither deleted it nor had anything to add: an outgoing block over rules that are active and bound, where
   every new outgoing connection was dropped or queued before.
   */
  lemma SyncedBlockThenUnblock(s: Ctl, preference: Preference, uid: nat, users: Users, io: Io, users': Users, io': Io)
    requires InSync(s, s.bind.Nfqueue?) && s.machine.Open?
    requires BlocksThenUnblocks(s, preference, uid, users, io, users', io')
    ensures (forall p :: Eval(Restored(s, preference, uid, users, io, users', io'), p) == Eval(s.kernel, p)) <==>
            io'.removes || Idle(s, preference, io)
  {
    BlockIsBlock(s, preference, uid, users, io, users', io');
    BlockThenUnblock(s, preference, uid, users, io, users', io');
    hide Restored, BlocksThenUnblocks, DiskBlocks, Eval;
    assert s.(machine := Open) == s;
    var bound := s.bind.Nfqueue?;
    if Idle(s, preference, io) {
      forall p ensures Fixed(s.(machine := preference), bound, p) != Accept ==> Eval(s.kernel, p) != Accept {
        assert Eval(s.kernel, p) == Fixed(s, bound, p);
      }
    } else if !io'.removes {
      var p := NewlyDropped(s, preference, io);
    }
  }

  /** A packet without an owner, in a direction that the block names, that the block turns from accepted to dropped. */
  lemma NewlyDropped(s: Ctl, preference: Preference, io: Io) returns (p: Packet)
    requires InSync(s, s.bind.Nfqueue?) && s.machine.Open? && !preference.Open? && !Idle(s, preference, io)
    ensures Fixed(s.(machine := preference), s.bind.Nfqueue?, p) == Drop && Eval(s.kernel, p) != Drop
    ensures !io.removes ==> Eval(s.kernel, p) == Accept
  {
    hide DiskBlocks, Eval;
    p := Packet(if WantsIn(preference) then Input else Output, false, true, New, None);
    NobodyBlocks(s.userFiles, p.hook);
    assert Eval(s.kernel, p) == Fixed(s, s.bind.Nfqueue?, p);
  }

  /** An active daemon with an open machine that binds its queue, loses it, and is blocked and unblocked. */
  function LostQueueSteps(): seq<Step> {
    var ok := Io(true, true, true);
    [Serve([], ok), SetBind(Degraded), Command(Block(Machine, Out, 0), [], ok), Command(Unblock(Machine, 0), [], ok)]
  }

  function LostQueueStart(): Ctl {
    Ctl(false, Open, Unbound, Some("active\n"), Some("open\n"), map[], ABSENT)
  }

  lemma StartedOpen()
    ensures LoadMode(Some("active\n")) == Active && LoadPref(Some("open\n")) == Open
  {
    assert ModeText(Active) + "\n" == "active\n" && PrefText(Open) + "\n" == "open\n";
    hide LoadMode, LoadPref;
    ModeRoundTrip(Active);
    PrefRoundTrip(Open);
  }

  /** Serving installs the queue rule. */
  lemma QueueServed()
    ensures var s := LostQueueStart();
            Agrees(s) && Stepped(s, LostQueueSteps()[0]).0 == s.(bind := Nfqueue, kernel := OWNED)
  {
    StartedOpen();
    hide LoadMode, LoadPref;
    assert !AnyBlocked([]);
    MergedIntoAbsent(OWNED);
  }

  /** Without users, the block succeeds over any table that is deleted. */
  lemma LostBlock(s: Ctl)
    requires s.userFiles == map[] && s.bind.Degraded? && !s.paused
    ensures var cmd, io := Block(Machine, Out, 0), Io(true, true, true);
            && Commanded(s, cmd, [], io).1
            && Commanded(s, cmd, [], io).0 == s.(machineFile := Some(Line(Out)), machine := Out,
                                                 kernel := Commanded(s, cmd, [], io).0.kernel)
  {
    hide Line;
  }

  /** With the queue lost, the unblock removes the table. */
  lemma LostUnblock(s: Ctl)
    requires s.userFiles == map[] && s.bind.Degraded? && !s.paused
    ensures var (after, ok) := Commanded(s, Unblock(Machine, 0), [], Io(true, true, true));
            ok && after.kernel == ABSENT
  {
    assert !AnyBlocked([]);
    hide Line;
  }

  lemma AtStep(s: Ctl, steps: seq<Step>, n: nat)
    requires n < |steps|
    ensures At(s, steps, 0) == s && At(s, steps, n + 1) == Stepped(At(s, steps, n), steps[n]).0
  {
    hide Stepped;
  }

  lemma StepsAre()
    ensures var steps, ok := LostQueueSteps(), Io(true, true, true);
            && |steps| == 4 && steps[0] == Serve([], ok) && steps[1] == SetBind(Degraded)
            && steps[2] == Command(Block(Machine, Out, 0), [], ok) && steps[3] == Command(Unblock(Machine, 0), [], ok)
  {
  }

  lemma LostQueueStates()
    ensures var s, steps := LostQueueStart(), LostQueueSteps();
            && Agrees(s) && |steps| == 4 && At(s, steps, 0) == s
            && At(s, steps, 1) == s.(bind := Nfqueue, kernel := OWNED)
            && At(s, steps, 2) == s.(bind := Degraded, kernel := OWNED) && Stepped(At(s, steps, 2), steps[2]).1
            && At(s, steps, 3).userFiles == map[] && Stepped(At(s, steps, 3), steps[3]).1
            && At(s, steps, 4).kernel == ABSENT
  {
    hide Commanded, LostQueueSteps, At, Agrees, Line, LoadMode, LoadPref, Performed;
    var s, steps := LostQueueStart(), LostQueueSteps();
    StepsAre();
    QueueServed();
    AtStep(s, steps, 0);
    AtStep(s, steps, 1);
    AtStep(s, steps, 2);
    AtStep(s, steps, 3);
    LostBlock(At(s, steps, 2));
    LostUnblock(At(s, steps, 3));
  }

  lemma NoFiles()
    ensures Listing(map[], [])
  {
  }

  /** Every call of that run succeeds, and yet a new outgoing packet that was queued before the pair passes after it. */
  lemma LostQueueIsNotRestored(p: Packet)
    requires !p.loopback && NewTcp(p) && p.hook.Output?
    ensures var s, steps := LostQueueStart(), LostQueueSteps();
            && Run(s, steps) && (forall n :: 0 <= n < 4 ==> Stepped(At(s, steps, n), steps[n]).1)
            && Eval(At(s, steps, 2).kernel, p) == Queue && Eval(At(s, steps, 4).kernel, p) == Accept
  {
    var s := LostQueueStart();
    LostQueueStates();
    StepsAre();
    NoFiles();
    OwnedIsIntended(p);
    EmptyAccepts(p);
    hide Commanded, LostQueueSteps, At, Agrees, Line, LoadMode, LoadPref, Performed, FirstMatch, Listing;
  }

  /** A packet without an owner is never dropped for a user. */
  lemma NobodyBlocks(files: Files, hook: Hook)
    ensures !DiskBlocks(files, None, hook)
  {
  }

  // ------------------------------------------------------------ what each command does

  /** A restart right now: what mode and machine preference it would read. */
  function Restarted(s: Ctl): Ctl { Stepped(s, Restart(true, true)).0 }

  /**
   After a successful pause the daemon is paused, now and after a restart; nothing else changed; and no packet is
   queued, unless a table that could not be deleted queued it before.
   */
  lemma PauseTakes(s: Ctl, users: Users, io: Io, p: Packet)
    requires Listing(Written(s, Pause).userFiles, users) && Commanded(s, Pause, users, io).1
    ensures var after := Commanded(s, Pause, users, io).0;
            && after.paused && Restarted(after).paused
            && after.machine == s.machine && after.machineFile == s.machineFile && after.userFiles == s.userFiles
            && after.bind == s.bind
            && (Eval(after.kernel, p) == Queue ==> !io.removes && Eval(s.kernel, p) == Queue)
  {
    CommandedFrame(s, Pause, users, io);
    CommandedMeaning(s, Pause, users, io, p);
    ModeRoundTrip(Paused);
    hide Commanded, Eval, DiskBlocks, Listing, LoadMode, LoadPref, ModeText;
  }

  /** Whether the machine or a user file blocks the packet's direction for its owner. */
  ghost predicate Blocked(s: Ctl, p: Packet) {
    Blocks(s.machine, p.hook) || DiskBlocks(s.userFiles, p.uid, p.hook)
  }

  /**
   A resume succeeds only with the queue bound. Then the daemon is active, now and after a restart; nothing else
   changed; and a new outgoing packet that nobody blocks is queued, unless an undeleted table acted on it.
   */
  lemma ResumeTakes(s: Ctl, users: Users, io: Io, p: Packet)
    requires Listing(Written(s, Resume).userFiles, users) && Commanded(s, Resume, users, io).1
    ensures var after := Commanded(s, Resume, users, io).0;
            && s.bind == Nfqueue && !after.paused && !Restarted(after).paused
            && after.machine == s.machine && after.machineFile == s.machineFile && after.userFiles == s.userFiles
            && after.bind == s.bind
            && (!p.loopback && p.tcp && p.state == New && p.hook == Output && !Blocked(s, p) ==>
                  Eval(after.kernel, p) ==
                  if !io.removes && Eval(s.kernel, p) != Accept then Eval(s.kernel, p) else Queue)
  {
    assert s.bind == Nfqueue by { hide Reapplied, Written, Listing; }
    CommandedFrame(s, Resume, users, io);
    CommandedMeaning(s, Resume, users, io, p);
    ModeRoundTrip(Active);
    hide Commanded, Eval, DiskBlocks, Listing, LoadMode, LoadPref, ModeText;
  }

  /**
   After a successful machine block the machine has that preference, now and after a restart; mode and user files are
   as before; and a new packet in a blocked direction is dropped, unless an undeleted table already acted on it.
   */
  lemma MachineBlockTakes(s: Ctl, preference: Preference, uid: nat, users: Users, io: Io, p: Packet)
    requires var block := Block(Machine, preference, uid);
             Listing(Written(s, block).userFiles, users) && Commanded(s, block, users, io).1
    ensures var after := Commanded(s, Block(Machine, preference, uid), users, io).0;
            && preference != Open && after.machine == preference && Restarted(after).machine == preference
            && after.paused == s.paused && after.modeFile == s.modeFile && after.userFiles == s.userFiles
            && after.bind == s.bind
            && (!p.loopback && p.tcp && p.state == New && Blocks(preference, p.hook) ==>
                  Eval(after.kernel, p) ==
                  if !io.removes && Eval(s.kernel, p) != Accept then Eval(s.kernel, p) else Drop)
  {
    var block := Block(Machine, preference, uid);
    assert preference != Open by { hide Reapplied, Written, Listing; }
    CommandedFrame(s, block, users, io);
    CommandedMeaning(s, block, users, io, p);
    PrefRoundTrip(preference);
    hide Commanded, Eval, DiskBlocks, Listing, LoadMode, LoadPref, PrefText;
  }

  /**
   After a successful machine unblock the machine is open, now and after a restart; mode and user files are as before;
   and a packet that no user file blocks is not dropped, unless an undeleted table drops it.
   */
  lemma MachineUnblockTakes(s: Ctl, uid: nat, users: Users, io: Io, p: Packet)
    requires var unblock := Unblock(Machine, uid);
             Listing(Written(s, unblock).userFiles, users) && Commanded(s, unblock, users, io).1
    ensures var after := Commanded(s, Unblock(Machine, uid), users, io).0;
            && after.machine == Open && Restarted(after).machine == Open
            && after.paused == s.paused && after.modeFile == s.modeFile && after.userFiles == s.userFiles
            && after.bind == s.bind
            && (!DiskBlocks(s.userFiles, p.uid, p.hook) && Eval(after.kernel, p) == Drop ==>
                  !io.removes && Eval(s.kernel, p) == Drop)
  {
    var unblock := Unblock(Machine, uid);
    CommandedFrame(s, unblock, users, io);
    CommandedMeaning(s, unblock, users, io, p);
    PrefRoundTrip(Open);
    hide Commanded, Eval, DiskBlocks, Listing, LoadMode, LoadPref, PrefText;
  }

  /** A user command writes the one file of its uid, with a word that reads back as the preference, and nothing else. */
  lemma UserCommandWrites(s: Ctl, cmd: Cmd, users: Users, io: Io)
    requires (cmd.Block? || cmd.Unblock?) && cmd.scope == User && Commanded(s, cmd, users, io).1
    ensures var after, name := Commanded(s, cmd, users, io).0, "traffic.user." + Show(cmd.uid);
            && after.paused == s.paused && after.modeFile == s.modeFile && after.bind == s.bind
            && after.machine == s.machine && after.machineFile == s.machineFile
            && name in after.userFiles && after.userFiles == s.userFiles[name := after.userFiles[name]]
            && LoadPref(Some(after.userFiles[name])) == if cmd.Block? then cmd.preference else Open
  {
    CommandedFrame(s, cmd, users, io);
    PrefRoundTrip(Open);
    if cmd.Block? {
      PrefRoundTrip(cmd.preference);
    }
    hide Commanded, LoadPref, PrefText, Show;
  }

  /**
   A resume without a bound queue, a block that says open, and a command whose file cannot be stored change nothing. A
   command that fails later has stored its preference, and leaves the old table or none.
   */
  lemma FailedCommand(s: Ctl, cmd: Cmd, users: Users, io: Io)
    requires !Commanded(s, cmd, users, io).1
    ensures var after := Commanded(s, cmd, users, io).0;
            var refused := (cmd.Resume? && s.bind != Nfqueue) || (cmd.Block? && cmd.preference == Open);
            if refused || !io.stores then after == s
            else
              && after == Commanded(s, cmd, users, Io(true, true, true)).0.(kernel := after.kernel)
              && after.kernel == if io.removes then ABSENT else s.kernel
  {
    hide Composed;
    WrittenFrame(s, cmd);
    hide Written;
  }

  /**
   A command succeeds exactly when it is not refused, its file can be stored, and `nft` does the one thing that counts:
   load the new table, or, where the new preferences act on no packet, delete the old one.
   */
  lemma SucceedsExactly(s: Ctl, cmd: Cmd, users: Users, io: Io)
    requires Listing(Written(s, cmd).userFiles, users)
    ensures var refused := (cmd.Resume? && s.bind != Nfqueue) || (cmd.Block? && cmd.preference == Open);
            Commanded(s, cmd, users, io).1 <==>
            && !refused && io.stores
            && if (forall p :: Fixed(Written(s, cmd), s.bind.Nfqueue?, p) == Accept) then io.removes else io.loads
  {
    hide Written, Listing, Fixed, Intended, ReapplyOp;
    WrittenFrame(s, cmd);
    var after, bound := Written(s, cmd), s.bind.Nfqueue?;
    TargetActs(after.machine, users, ModeOf(after), bound);
    forall p ensures Fixed(after, bound, p) == Intended(after.machine, users, ModeOf(after).Active?, bound, p) {
      ListedIntent(after, users, bound, p);
    }
  }

  // ------------------------------------------------------------ the status label, from the files

  /** `user_preference`: only the file that commands write is read. */
  function UserPreference(files: Files, uid: nat): Preference {
    var name := UserFile(uid);
    LoadPref(if name in files then Some(files[name]) else None)
  }

  /** `traffic_effective` never names a direction that the installed policy does not drop. */
  lemma StatusIsDropped(s: Ctl, users: Users, uid: nat, active: bool, bound: bool, p: Packet)
    requires uid <= U32_MAX && Listing(s.userFiles, users) && Probe(p, uid, p.hook)
    requires Names(EffectiveOf(s.machine, UserPreference(s.userFiles, uid), uid), p.hook)
    ensures Eval(Composed(s.machine, users, active, bound), p) == Drop
  {
    var user := UserPreference(s.userFiles, uid);
    UserFileNames(uid);
    LabelNamesShown(s.machine, user, uid, p.hook);
    UserDropped(s.machine, users, uid, active, bound, p);
    if s.machine.Open? {
      assert LoadPref(None) == Open;
      hide UidOf, UserFile, Composed, Names;
      assert BlockEntry(s.userFiles, UserFile(uid), (uid, user)) by { hide LoadPref; }
      assert (uid, user) in users;
    }
  }

  /**
   `traffic_effective` names everything that is dropped for a uid if and only if what it shows covers the preference
   in every file whose name stands for the uid.
   */
  lemma StatusIsComplete(s: Ctl, users: Users, uid: nat, active: bool, bound: bool)
    requires Listing(s.userFiles, users)
    ensures var user := UserPreference(s.userFiles, uid);
            (forall p: Packet :: Probe(p, uid, p.hook) && Eval(Composed(s.machine, users, active, bound), p) == Drop ==>
               Names(EffectiveOf(s.machine, user, uid), p.hook))
            <==> forall name :: name in s.userFiles && UidOf(name) == Some(uid) ==>
                   Covers(Shown(s.machine, user), LoadPref(Some(s.userFiles[name])))
  {
    var user := UserPreference(s.userFiles, uid);
    LabelIsComplete(s.machine, users, uid, user, active, bound);
    hide Composed, Names, UserPreference, UidOf, LoadPref;
    var shown := Shown(s.machine, user);
    if forall name :: name in s.userFiles && UidOf(name) == Some(uid) ==>
                        Covers(shown, LoadPref(Some(s.userFiles[name]))) {
      forall u | u in users && u.0 == uid ensures Covers(shown, u.1) {
        var name :| BlockEntry(s.userFiles, name, u);
      }
    }
    if forall u :: u in users && u.0 == uid ==> Covers(shown, u.1) {
      forall name | name in s.userFiles && UidOf(name) == Some(uid)
        ensures Covers(shown, LoadPref(Some(s.userFiles[name])))
      {
        var preference := LoadPref(Some(s.userFiles[name]));
        if IsBlocked(preference) {
          assert BlockEntry(s.userFiles, name, (uid, preference));
          assert (uid, preference) in users;
        }
      }
    }
  }

  /** With only `traffic.user.007` in the directory, the status of uid 7 is open and everything of uid 7 is dropped. */
  lemma AliasIsNotShown(s: Ctl, users: Users, active: bool, bound: bool, p: Packet)
    requires s.machine.Open? && s.userFiles == map["traffic.user.007" := Line(All)] && Listing(s.userFiles, users)
    requires Probe(p, 7, p.hook)
    ensures EffectiveOf(s.machine, UserPreference(s.userFiles, 7), 7) == EffectiveOpen
    ensures Eval(Composed(s.machine, users, active, bound), p) == Drop
  {
    AliasName();
    PrefRoundTrip(All);
    assert LoadPref(None) == Open;
    hide UidOf, LoadPref, UserFile, PrefText, Composed;
    UserDropped(s.machine, users, 7, active, bound, p);
    assert BlockEntry(s.userFiles, "traffic.user.007", (7, All));
    assert (7, All) in users;
  }

  // ------------------------------------------------------------ the live object

  /** `Shared`, as far as the modes are concerned, together with the files and the kernel table it drives. */
  class Shared {
    var paused: bool
    var machineTraffic: Preference
    var bindState: Bind
    var modeFile: Option<string>
    var machineFile: Option<string>
    var userFiles: Files
    var kernel: Table

    ghost function State(): Ctl reads this {
      Ctl(paused, machineTraffic, bindState, modeFile, machineFile, userFiles, kernel)
    }

    /** Starting over: memory is read back from the files, and nothing is bound yet. */
    constructor (modeFile: Option<string>, machineFile: Option<string>, userFiles: Files, kernel: Table)
      ensures Agrees(State()) && State() ==
        Stepped(Ctl(false, Open, Unbound, modeFile, machineFile, userFiles, kernel), Restart(true, true)).0
    {
      paused := LoadMode(modeFile).Paused?;
      machineTraffic := LoadPref(machineFile);
      bindState := Unbound;
      this.modeFile, this.machineFile, this.userFiles, this.kernel := modeFile, machineFile, userFiles, kernel;
    }

    method SetEnforcement(b: Bind)
      modifies this
      ensures State() == Stepped(old(State()), SetBind(b)).0
    {
      bindState := b;
    }

    method RemoveTable(io: Io) returns (ok: bool)
      modifies this`kernel
      ensures (kernel, ok) == Performed(old(kernel), NftOp.RemoveTable, io)
    {
      if io.removes {
        kernel := ABSENT;
      }
      ok := io.removes;
    }

    method Install(t: Table, io: Io) returns (ok: bool)
      requires t != ABSENT
      modifies this`kernel
      ensures (kernel, ok) == Performed(old(kernel), InstallComposed(t), io)
    {
      var removed := RemoveTable(io);
      if io.loads {
        kernel := Merged(kernel, t);
      }
      ok := io.loads;
    }

    method InstallComposedTable(t: Table, io: Io) returns (ok: bool)
      modifies this`kernel
      ensures (kernel, ok) == Performed(old(kernel), InstallComposed(t), io)
    {
      if t == ABSENT {
        ok := RemoveTable(io);
      } else {
        ok := Install(t, io);
      }
    }

    method ReapplyTable(io: Io) returns (ok: bool, ghost users: Users)
      modifies this`kernel
      ensures Listing(userFiles, users) && (State(), ok) == Reapplied(old(State()), users, io)
    {
      hide Listing, Composed;
      var blocks := LoadUserBlocks(userFiles);
      users := blocks;
      var machineBlocks, usersBlock, active := IsBlocked(machineTraffic), AnyBlocked(blocks), !paused;
      if !machineBlocks && !usersBlock && !active {
        ok := RemoveTable(io);
        return;
      }
      if !machineBlocks && !usersBlock && active {
        if bindState.Nfqueue? {
          ok := Install(OWNED, io);
        } else {
          ok := RemoveTable(io);
        }
        return;
      }
      ok := InstallComposedTable(
        Composed(machineTraffic, blocks, active && !WantsOut(machineTraffic), bindState.Nfqueue?), io);
    }

    /** `pause`, `resume`, `traffic_block` and `traffic_unblock`. */
    method Do(cmd: Cmd, io: Io) returns (ok: bool, ghost users: Users)
      modifies this
      ensures (State(), ok) == Commanded(old(State()), cmd, users, io)
      ensures ok ==> Listing(Written(old(State()), cmd).userFiles, users)
      ensures old(Agrees(State())) ==> Agrees(State())
    {
      hide Listing, LoadMode, LoadPref, Performed, ReapplyOp;
      if Agrees(State()) {
        WrittenAgrees(State(), cmd);
      }
      users := [];
      if cmd.Resume? && !bindState.Nfqueue? {
        return false, users;
      }
      if cmd.Block? && cmd.preference.Open? {
        return false, users;
      }
      if !io.stores {
        return false, users;
      }
      match cmd {
        case Pause =>
          modeFile := Some(ModeText(Paused) + "\n");
          paused := true;
        case Resume =>
          modeFile := Some(ModeText(Active) + "\n");
          paused := false;
        case Block(scope, preference, uid) =>
          if scope.Machine? {
            machineFile := Some(Line(preference));
            machineTraffic := preference;
          } else {
            userFiles := userFiles[UserFile(uid) := Line(preference)];
          }
        case Unblock(scope, uid) =>
          if scope.Machine? {
            machineFile := Some(Line(Open));
            machineTraffic := Open;
          } else {
            userFiles := userFiles[UserFile(uid) := Line(Open)];
          }
      }
      assert State() == Written(old(State()), cmd);
      ok, users := ReapplyTable(io);
    }
  }
}

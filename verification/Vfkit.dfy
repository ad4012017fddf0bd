/**
 The two-phase VM supervisor of macOS (providers/vfkit/vfkit.go) as a protocol
 between Create, concurrent calls of Start (the install watchdog's among them)
 and the reboot watcher. One VM is followed; every action between two points
 where another goroutine can run is one step, and every provider error, time
 out and process exit may happen at any of its points.
 */
module Vfkit {
  import opened Text

  datatype Phase = Install | Run
  datatype Boot = LinuxKernel | EFI
  datatype Role = Creator | Starter | Watcher

  datatype PC =
    | SetInstall                          // Create: about to write the install phase
    | CheckRunning                        // Start: about to look at the pid file
    | CheckPhase                          // Start: about to read the phase
    | SetRun                              // Start and transitionToRun: about to write the run phase
    | ReadPhase                           // launch: about to read the phase
    | Spawn(phase: Phase)                 // launch: sidecar, then cmd.Start
    | KeepHandle(phase: Phase, pid: nat)  // launch: about to store the process handle
    | Watch                               // launch in the install phase: about to see to a watcher
    | Poll                                // watcher: deadline, phase and console
    | TakeHandle                          // forceStop: about to take the handle and kill
    | AwaitExit(pid: nat)                 // forceStop: waiting for the killed process
    | Leave                               // watcher: about to clear watching

  datatype Thread = Thread(role: Role, pc: PC)

  datatype State = State(
    phase: Phase,                  // the phase file; missing reads as install
    watching: bool,
    handle: Option<nat>,           // procs[name]
    pidFile: Option<nat>,
    live: map<nat, Boot>,          // running vfkit processes
    spawned: seq<Boot>,            // what was spawned since the last Create wrote the install phase
    nextPid: nat,
    threads: map<nat, Thread>)

  datatype Choice = Proceed | Fail | Rebooted | TimedOut

  datatype Label =
    | BeginCreate(id: nat)
    | BeginStart(id: nat)
    | Go(id: nat, choice: Choice, watcher: nat)   // watcher: the goroutine to start, if one is
    | PidWritten(pid: nat)
    | Exited(pid: nat)
    | NewCommand                          // the command ends and the next one starts; processes and files stay

  function BootOf(p: Phase): Boot {
    if p == Run then EFI else LinuxKernel
  }

  function At(s: State, id: nat, pc: PC): State
    requires id in s.threads
  {
    s.(threads := s.threads[id := Thread(s.threads[id].role, pc)])
  }

  /** A call returns: a launch inside the watcher goes on to its deferred clean-up. */
  function Return(s: State, id: nat): State
    requires id in s.threads
  {
    if s.threads[id].role == Watcher then At(s, id, Leave) else s.(threads := s.threads - {id})
  }

  function GoStep(s: State, id: nat, choice: Choice, watcher: nat): State
    requires id in s.threads
  {
    match s.threads[id].pc
    case SetInstall =>
      if choice == Fail then Return(s, id) else At(s.(phase := Install, spawned := []), id, ReadPhase)
    case CheckRunning =>
      if s.pidFile.Some? && s.pidFile.value in s.live then Return(s, id) else At(s, id, CheckPhase)
    case CheckPhase => At(s, id, if s.phase == Install then SetRun else ReadPhase)
    case SetRun => if choice == Fail then Return(s, id) else At(s.(phase := Run), id, ReadPhase)
    case ReadPhase => if choice == Fail then Return(s, id) else At(s, id, Spawn(s.phase))
    case Spawn(p) =>
      if choice == Fail then Return(s, id)
      else At(s.(live := s.live[s.nextPid := BootOf(p)], spawned := s.spawned + [BootOf(p)], nextPid := s.nextPid + 1),
              id, KeepHandle(p, s.nextPid))
    case KeepHandle(p, pid) =>
      var s' := s.(handle := Some(pid));
      if p == Install then At(s', id, Watch) else Return(s', id)
    case Watch =>
      if s.watching || watcher in s.threads then Return(s, id)
      else Return(s.(watching := true, threads := s.threads[watcher := Thread(Watcher, Poll)]), id)
    case Poll =>
      if choice == TimedOut || s.phase != Install then At(s, id, Leave)
      else if choice == Rebooted then At(s, id, TakeHandle)
      else s
    case TakeHandle =>
      if s.handle.Some? then At(s.(handle := None), id, AwaitExit(s.handle.value))
      else if s.pidFile.Some? then At(s, id, AwaitExit(s.pidFile.value))
      else At(s, id, SetRun)
    case AwaitExit(pid) =>
      // The wait is bounded: it ends with the process reaped or with the deadline.
      At(if choice == TimedOut then s else s.(live := s.live - {pid}), id, SetRun)
    case Leave => s.(watching := false, threads := s.threads - {id})
  }

  function Step(s: State, l: Label): State {
    match l
    case BeginCreate(id) =>
      if id in s.threads then s else s.(threads := s.threads[id := Thread(Creator, SetInstall)])
    case BeginStart(id) =>
      if id in s.threads then s else s.(threads := s.threads[id := Thread(Starter, CheckRunning)])
    case Go(id, choice, watcher) => if id in s.threads then GoStep(s, id, choice, watcher) else s
    case PidWritten(pid) => s.(pidFile := Some(pid))
    case Exited(pid) => s.(live := s.live - {pid})
    case NewCommand => s.(watching := false, handle := None, threads := map[])
  }

  function Steps(s: State, ls: seq<Label>): State
    decreases |ls|
  {
    if ls == [] then s else Step(Steps(s, ls[..|ls| - 1]), ls[|ls| - 1])
  }

  // ----- what runs must respect -----

  /** Another goroutine has written the run phase but not yet read it back for its launch. */
  ghost predicate BetweenPhases(s: State) {
    exists id :: id in s.threads && s.threads[id].role != Creator && s.threads[id].pc == ReadPhase
  }

  ghost predicate HasCreator(s: State) {
    exists id :: id in s.threads && s.threads[id].role == Creator
  }

  /** One Create at a time, and none that writes its phase into the middle of another call's launch. */
  ghost predicate Orderly(s: State, l: Label) {
    && (l.BeginCreate? ==> !HasCreator(s))
    && (l.Go? && l.id in s.threads && s.threads[l.id].pc == SetInstall && l.choice != Fail ==> !BetweenPhases(s))
    && (l.Go? && l.id in s.threads && s.threads[l.id].pc == Watch && !s.watching ==> l.watcher !in s.threads)
  }

  ghost predicate OrderlyRun(s: State, ls: seq<Label>)
    decreases |ls|
  {
    ls == [] || (OrderlyRun(s, ls[..|ls| - 1]) && Orderly(Steps(s, ls[..|ls| - 1]), ls[|ls| - 1]))
  }

  // ----- the invariant -----

  predicate LinuxAtMostOnce(log: seq<Boot>) {
    forall i, j :: 0 <= i < j < |log| && log[i] == LinuxKernel ==> log[j] == EFI
  }

  /** What each goroutine may rely on at its point. */
  predicate ThreadOk(phase: Phase, spawned: seq<Boot>, t: Thread) {
    match t.role
    case Creator =>
      && (t.pc.SetInstall? || t.pc.ReadPhase? || t.pc.Spawn? || t.pc.KeepHandle? || t.pc.Watch?)
      && (t.pc.ReadPhase? || t.pc.Spawn? ==> LinuxKernel !in spawned)
    case Starter =>
      && (t.pc.CheckRunning? || t.pc.CheckPhase? || Launching(t.pc))
      && ReadsRun(phase, t.pc)
    case Watcher =>
      && (t.pc.Poll? || t.pc.TakeHandle? || t.pc.AwaitExit? || t.pc.Leave? || Launching(t.pc))
      && ReadsRun(phase, t.pc)
  }

  predicate Launching(pc: PC) {
    pc.SetRun? || pc.ReadPhase? || pc.Spawn? || pc.KeepHandle?
  }

  predicate ReadsRun(phase: Phase, pc: PC) {
    && (pc.ReadPhase? ==> phase == Run)
    && (pc.Spawn? || pc.KeepHandle? ==> pc.phase == Run)
  }

  function Roles(s: State): map<nat, Role> {
    map id | id in s.threads :: s.threads[id].role
  }

  /** One Create and one watcher at most; the watcher lives exactly while watching is set. */
  ghost predicate Shape(watching: bool, roles: map<nat, Role>) {
    && (forall a, b :: a in roles && b in roles && roles[a] == roles[b] != Starter ==> a == b)
    && (watching <==> exists id :: id in roles && roles[id] == Watcher)
  }

  ghost predicate Inv(s: State) {
    && (forall id :: id in s.threads ==> ThreadOk(s.phase, s.spawned, s.threads[id]))
    && Shape(s.watching, Roles(s))
    && LinuxAtMostOnce(s.spawned)
  }

  /** A goroutine that only moves: same role, a point it may be at. */
  lemma MoveKeeps(s: State, id: nat, pc: PC)
    requires Inv(s) && id in s.threads && ThreadOk(s.phase, s.spawned, Thread(s.threads[id].role, pc))
    ensures Inv(At(s, id, pc))
  {
    assert Roles(At(s, id, pc)) == Roles(s);
  }

  lemma DropKeeps(s: State, id: nat)
    requires Inv(s) && id in s.threads
    ensures s.threads[id].role != Watcher ==> Inv(s.(threads := s.threads - {id}))
    ensures s.threads[id].role == Watcher ==> Inv(s.(watching := false, threads := s.threads - {id}))
  {
    var s' := s.(threads := s.threads - {id});
    var roles := Roles(s);
    assert Roles(s') == roles - {id};
    if s.threads[id].role != Watcher && s.watching {
      var w :| w in roles && roles[w] == Watcher;
      assert w in roles - {id};
    }
    if s.threads[id].role == Watcher {
      assert roles[id] == Watcher;
      assert forall k :: k in roles - {id} ==> roles[k] != Watcher;
    }
  }

  lemma ReturnKeeps(s: State, id: nat)
    requires Inv(s) && id in s.threads
    ensures Inv(Return(s, id))
  {
    if s.threads[id].role == Watcher { MoveKeeps(s, id, Leave); } else { DropKeeps(s, id); }
  }

  lemma AddKeeps(s: State, id: nat, t: Thread)
    requires Inv(s) && id !in s.threads && ThreadOk(s.phase, s.spawned, t)
    requires t.role == Creator ==> !HasCreator(s)
    requires t.role == Watcher ==> !s.watching
    ensures Inv(s.(threads := s.threads[id := t], watching := s.watching || t.role == Watcher))
  {
    var s' := s.(threads := s.threads[id := t], watching := s.watching || t.role == Watcher);
    var roles := Roles(s);
    assert Roles(s') == roles[id := t.role];
    if t.role == Creator {
      assert forall k :: k in roles ==> roles[k] != Creator by {
        assert forall k :: k in s.threads ==> s.threads[k].role != Creator;
      }
    }
    if s'.watching {
      if t.role == Watcher {
        assert id in Roles(s') && Roles(s')[id] == Watcher;
      } else {
        var w :| w in roles && roles[w] == Watcher;
        assert w in Roles(s') && Roles(s')[w] == Watcher;
      }
    }
  }

  lemma InstallKeeps(s: State, id: nat)
    requires Inv(s) && id in s.threads && s.threads[id].pc == SetInstall && !BetweenPhases(s)
    ensures Inv(At(s.(phase := Install, spawned := []), id, ReadPhase))
  {
    var s' := At(s.(phase := Install, spawned := []), id, ReadPhase);
    assert Roles(s') == Roles(s);
    forall k | k in s'.threads ensures ThreadOk(s'.phase, s'.spawned, s'.threads[k]) {
      assert ThreadOk(s.phase, s.spawned, s.threads[k]);
    }
  }

  lemma SpawnKeeps(s: State, id: nat, p: Phase)
    requires Inv(s) && id in s.threads && s.threads[id].pc == Spawn(p)
    ensures Inv(GoStep(s, id, Proceed, 0))
  {
    var s' := GoStep(s, id, Proceed, 0);
    assert Roles(s') == Roles(s);
    assert ThreadOk(s.phase, s.spawned, s.threads[id]);
    forall k | k in s'.threads ensures ThreadOk(s'.phase, s'.spawned, s'.threads[k]) {
      assert ThreadOk(s.phase, s.spawned, s.threads[k]);
      if k != id && s.threads[k].role == Creator {
        assert Roles(s)[k] == Creator && Roles(s)[id] == s.threads[id].role;
        assert s.threads[id].role != Creator;
      }
    }
  }

  lemma GoKeeps(s: State, id: nat, choice: Choice, watcher: nat)
    requires Inv(s) && id in s.threads && Orderly(s, Go(id, choice, watcher))
    ensures Inv(GoStep(s, id, choice, watcher))
  {
    hide Shape, LinuxAtMostOnce;
    assert ThreadOk(s.phase, s.spawned, s.threads[id]);
    match s.threads[id].pc
    case SetInstall => if choice == Fail { ReturnKeeps(s, id); } else { InstallKeeps(s, id); }
    case CheckRunning =>
      ReturnKeeps(s, id);
      MoveKeeps(s, id, CheckPhase);
    case CheckPhase => MoveKeeps(s, id, if s.phase == Install then SetRun else ReadPhase);
    case SetRun =>
      ReturnKeeps(s, id);
      var s' := s.(phase := Run);
      assert Roles(s') == Roles(s);
      MoveKeeps(s', id, ReadPhase);
    case ReadPhase =>
      ReturnKeeps(s, id);
      MoveKeeps(s, id, Spawn(s.phase));
    case Spawn(p) => if choice == Fail { ReturnKeeps(s, id); } else { SpawnKeeps(s, id, p); }
    case KeepHandle(p, pid) =>
      var s' := s.(handle := Some(pid));
      assert Roles(s') == Roles(s);
      ReturnKeeps(s', id);
      if p == Install { MoveKeeps(s', id, Watch); }
    case Watch =>
      if s.watching || watcher in s.threads {
        ReturnKeeps(s, id);
      } else {
        AddKeeps(s, watcher, Thread(Watcher, Poll));
        ReturnKeeps(s.(watching := true, threads := s.threads[watcher := Thread(Watcher, Poll)]), id);
      }
    case Poll =>
      MoveKeeps(s, id, Leave);
      MoveKeeps(s, id, TakeHandle);
    case TakeHandle =>
      var s' := s.(handle := None);
      assert Roles(s') == Roles(s);
      if s.handle.Some? { MoveKeeps(s', id, AwaitExit(s.handle.value)); }
      else if s.pidFile.Some? { MoveKeeps(s, id, AwaitExit(s.pidFile.value)); }
      else { MoveKeeps(s, id, SetRun); }
    case AwaitExit(pid) =>
      var s' := s.(live := s.live - {pid});
      assert Roles(s') == Roles(s);
      MoveKeeps(s, id, SetRun);
      MoveKeeps(s', id, SetRun);
    case Leave => DropKeeps(s, id);
  }

  lemma StepKeeps(s: State, l: Label)
    requires Inv(s) && Orderly(s, l)
    ensures Inv(Step(s, l))
  {
    hide GoStep, ThreadOk;
    match l
    case Go(id, choice, watcher) => if id in s.threads { GoKeeps(s, id, choice, watcher); }
    case BeginCreate(id) => if id !in s.threads { AddsKeep(s, id, Thread(Creator, SetInstall)); }
    case BeginStart(id) => if id !in s.threads { AddsKeep(s, id, Thread(Starter, CheckRunning)); }
    case NewCommand => assert Roles(Step(s, l)) == map[];
    case _ => assert Roles(Step(s, l)) == Roles(s);
  }

  lemma AddsKeep(s: State, id: nat, t: Thread)
    requires Inv(s) && id !in s.threads && t in {Thread(Creator, SetInstall), Thread(Starter, CheckRunning)}
    requires t.role == Creator ==> !HasCreator(s)
    ensures Inv(s.(threads := s.threads[id := t]))
  {
    AddKeeps(s, id, t);
  }

  lemma {:induction false} RunKeeps(s: State, ls: seq<Label>)
    requires Inv(s) && OrderlyRun(s, ls)
    ensures Inv(Steps(s, ls))
    decreases |ls|
  {
    if ls != [] {
      RunKeeps(s, ls[..|ls| - 1]);
      StepKeeps(Steps(s, ls[..|ls| - 1]), ls[|ls| - 1]);
    }
  }

  // ----- what follows for every run -----

  /** A command that has just started: no goroutine of its own, whatever is on disk or still running. */
  predicate NewProcess(s: State) {
    s.threads == map[] && !s.watching && s.handle == None && s.spawned == []
  }

  /**
   Over every orderly interleaving the Linux bootloader is spawned at most once
   per Create and everything after it boots through EFI; two live watchers are
   one, and a watcher lives exactly while watching is set.
   */
  lemma TwoPhases(s: State, ls: seq<Label>)
    requires NewProcess(s) && OrderlyRun(s, ls)
    ensures LinuxAtMostOnce(Steps(s, ls).spawned)
    ensures var t := Steps(s, ls);
      && (t.watching <==> exists id :: id in t.threads && t.threads[id].role == Watcher)
      && (forall a, b :: a in t.threads && b in t.threads ==>
            t.threads[a].role == t.threads[b].role == Watcher ==> a == b)
  {
    assert Roles(s) == map[];
    RunKeeps(s, ls);
    var t := Steps(s, ls);
    var roles := Roles(t);
    assert forall id :: id in t.threads <==> id in roles;
  }

  /** Past the hand-over: the run phase is written and nobody is about to undo or ignore it. */
  ghost predicate HandedOver(s: State) {
    s.phase == Run && forall id :: id in s.threads ==>
        s.threads[id].pc != SetInstall && s.threads[id].pc != Spawn(Install)
  }

  predicate AllEFI(log: seq<Boot>) {
    forall i :: 0 <= i < |log| ==> log[i] == EFI
  }

  /** Until the next Create the run phase is final, and every spawn boots the installed disk. */
  lemma {:induction false} RunPhaseIsFinal(s: State, ls: seq<Label>)
    requires HandedOver(s) && forall l :: l in ls ==> !l.BeginCreate?
    ensures HandedOver(Steps(s, ls))
    ensures |s.spawned| <= |Steps(s, ls).spawned| && Steps(s, ls).spawned[..|s.spawned|] == s.spawned
    ensures AllEFI(Steps(s, ls).spawned[|s.spawned|..])
    decreases |ls|
  {
    if ls != [] {
      RunPhaseIsFinal(s, ls[..|ls| - 1]);
      var t := Steps(s, ls[..|ls| - 1]);
      FinalStep(t, ls[|ls| - 1]);
    }
  }

  lemma FinalStep(s: State, l: Label)
    requires HandedOver(s) && !l.BeginCreate?
    ensures HandedOver(Step(s, l))
    ensures Step(s, l).spawned == s.spawned || Step(s, l).spawned == s.spawned + [EFI]
  {
    if l.Go? && l.id in s.threads {
      hide GoStep;
      GoFrame(s, l.id, l.choice, l.watcher);
      FinalGo(s, l.id, l.choice, l.watcher);
    }
  }

  /** One goroutine's step leaves the others where they are, but for a watcher it starts. */
  lemma GoFrame(s: State, id: nat, choice: Choice, watcher: nat)
    requires id in s.threads
    ensures var s' := GoStep(s, id, choice, watcher);
      forall k :: k in s'.threads && k != id ==>
        (k in s.threads && s'.threads[k] == s.threads[k])
        || (k == watcher && s.threads[id].pc == Watch && s'.threads[k] == Thread(Watcher, Poll))
  {
  }

  lemma FinalGo(s: State, id: nat, choice: Choice, watcher: nat)
    requires HandedOver(s) && id in s.threads
    ensures var s' := GoStep(s, id, choice, watcher);
      && s'.phase == Run && (s'.spawned == s.spawned || s'.spawned == s.spawned + [EFI])
      && (id in s'.threads ==> s'.threads[id].pc != SetInstall && s'.threads[id].pc != Spawn(Install))
  {
    assert s.threads[id].pc != SetInstall && s.threads[id].pc != Spawn(Install);
  }

  lemma StepsSnoc(s: State, ls: seq<Label>, l: Label)
    ensures Steps(s, []) == s
    ensures Steps(s, ls + [l]) == Step(Steps(s, ls), l)
  {
    assert (ls + [l])[..|ls|] == ls;
  }

  /** The guard in Orderly is needed: a Create that writes its phase into a launch lets Linux start twice. */
  lemma CreateIntoALaunch(s: State, creator: nat, other: nat, watcher: nat)
    requires creator in s.threads && s.threads[creator] == Thread(Creator, SetInstall)
    requires other in s.threads && s.threads[other].role != Creator && s.threads[other].pc == ReadPhase
    ensures exists ls :: Steps(s, ls).spawned == [LinuxKernel, LinuxKernel]
  {
    hide Steps;
    var c, o := Go(creator, Proceed, watcher), Go(other, Proceed, watcher);
    StepsSnoc(s, [], c);
    assert [] + [c] == [c];
    StepsSnoc(s, [c], c);
    StepsSnoc(s, [c] + [c], c);
    StepsSnoc(s, [c] + [c] + [c], o);
    StepsSnoc(s, [c] + [c] + [c] + [o], o);
    assert Steps(s, [c] + [c] + [c]).spawned == [LinuxKernel];
    assert Steps(s, [c] + [c] + [c] + [o] + [o]).spawned == [LinuxKernel, LinuxKernel];
  }
}

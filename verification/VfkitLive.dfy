/**
 One vfkit process per disk image (providers/vfkit/vfkit.go): the exact
 condition on each step of the protocol under which two processes never run at
 once. Steps that meet it keep an invariant; after any step that does not, the
 goroutines that are there can go on to a second process beside the first.
 */
module VfkitLive {
  import opened Text
  import opened Vfkit

  // ----- who can still launch -----

  /** A goroutine at this point can start a process without asking again whether one runs. */
  predicate CanLaunch(phase: Phase, pc: PC) {
    match pc
    case CheckRunning | Leave => false
    case KeepHandle(p, _) => p == Install && phase == Install
    case Watch | Poll => phase == Install
    case _ => true
  }

  /** No other goroutine can. */
  ghost predicate AloneToLaunch(s: State, id: nat) {
    forall k :: k in s.threads && k != id ==> !CanLaunch(s.phase, s.threads[k].pc)
  }

  predicate Resting(pc: PC) {
    pc.CheckRunning? || pc.Leave?
  }

  ghost predicate OthersRest(s: State, id: nat) {
    forall k :: k in s.threads && k != id ==> Resting(s.threads[k].pc)
  }

  /**
   A Create, which never asks, begins when nothing runs and every other
   goroutine rests; a Start that finds nothing running is right about it and
   alone to launch; a forced stop gives up waiting only if nothing runs.
   */
  ghost predicate Calm(s: State, l: Label) {
    match l
    case BeginCreate(id) => id in s.threads || (s.live == map[] && OthersRest(s, id))
    case Go(id, choice, _) =>
      id in s.threads ==>
        && (s.threads[id].pc.AwaitExit? && choice == TimedOut ==> s.live == map[])
        && (s.threads[id].pc.CheckRunning? ==>
              (s.pidFile.Some? && s.pidFile.value in s.live) || (s.live == map[] && AloneToLaunch(s, id)))
    case _ => true
  }

  ghost predicate CalmRun(s: State, ls: seq<Label>)
    decreases |ls|
  {
    ls == [] || (CalmRun(s, ls[..|ls| - 1]) && Calm(Steps(s, ls[..|ls| - 1]), ls[|ls| - 1]))
  }

  predicate OneLive(s: State) {
    forall a, b :: a in s.live && b in s.live ==> a == b
  }

  // ----- the invariant -----

  /** Where a goroutine that can launch stands says which process can be running. */
  predicate KnowsLive(s: State, pc: PC) {
    match pc
    case CheckRunning | Leave => true
    case SetInstall | CheckPhase | SetRun | ReadPhase | Spawn(_) => s.live == map[]
    case KeepHandle(_, pid) => s.live.Keys <= {pid}
    case Watch | Poll | TakeHandle => s.handle.Some? && s.live.Keys <= {s.handle.value}
    case AwaitExit(pid) => s.live.Keys <= {pid}
  }

  /** Process numbers are used once. */
  predicate OldPids(s: State) {
    && (forall p :: p in s.live ==> p < s.nextPid)
    && (s.handle.Some? ==> s.handle.value < s.nextPid)
    && (forall k :: k in s.threads && s.threads[k].pc.KeepHandle? ==> s.threads[k].pc.pid < s.nextPid)
  }

  ghost predicate Watched(s: State) {
    s.watching ==> exists k :: k in s.threads && s.threads[k].role == Watcher
  }

  /** What holds of the goroutine `id`, if it is the one that can launch. */
  ghost predicate LaunchOk(s: State, id: nat)
    requires id in s.threads
  {
    CanLaunch(s.phase, s.threads[id].pc) ==>
      && AloneToLaunch(s, id) && KnowsLive(s, s.threads[id].pc)
      && (s.threads[id].role != Starter ==> OthersRest(s, id))
  }

  ghost predicate Lone(s: State) {
    && OneLive(s) && OldPids(s) && Watched(s)
    && (forall k :: k in s.threads ==> ThreadOk(s.phase, [], s.threads[k]) && LaunchOk(s, k))
  }

  /** A new command, whatever processes of earlier ones are still there. */
  lemma NewProcessIsLone(s: State)
    requires NewProcess(s) && OneLive(s) && OldPids(s)
    ensures Lone(s)
  {
  }

  // ----- calm steps keep it -----

  lemma LoneStart(s: State, id: nat)
    requires Lone(s) && id !in s.threads
    ensures Lone(Step(s, BeginStart(id)))
  {
    var s' := Step(s, BeginStart(id));
    KeepsWatched(s, s');
    forall k | k in s'.threads ensures ThreadOk(s'.phase, [], s'.threads[k]) && LaunchOk(s', k) {
      if k != id {
        assert s'.threads[k] == s.threads[k];
        assert LaunchOk(s, k);
      }
    }
  }

  lemma KeepsWatched(s: State, s': State)
    requires Watched(s) && s'.watching == s.watching
    requires forall k :: k in s.threads ==> k in s'.threads && s'.threads[k].role == s.threads[k].role
    ensures Watched(s')
  {
    if s.watching {
      var k :| k in s.threads && s.threads[k].role == Watcher;
      assert k in s'.threads && s'.threads[k].role == Watcher;
    }
  }

  lemma LoneCreate(s: State, id: nat)
    requires Lone(s) && id !in s.threads && s.live == map[] && OthersRest(s, id)
    ensures Lone(Step(s, BeginCreate(id)))
  {
    var s' := Step(s, BeginCreate(id));
    KeepsWatched(s, s');
    forall k | k in s'.threads ensures ThreadOk(s'.phase, [], s'.threads[k]) && LaunchOk(s', k) {
      if k != id {
        assert s'.threads[k] == s.threads[k] && Resting(s.threads[k].pc);
      }
    }
  }

  /** What a goroutine's step does to the shared state, and to itself. */
  ghost predicate OwnStep(s: State, s': State, id: nat)
    requires id in s.threads
  {
    && OneLive(s') && (s'.phase == s.phase || s'.phase == Run || OthersRest(s, id))
    && (id in s'.threads ==>
          && ThreadOk(s'.phase, [], s'.threads[id]) && s'.threads[id].role == s.threads[id].role
          && (CanLaunch(s'.phase, s'.threads[id].pc) ==>
                && KnowsLive(s', s'.threads[id].pc) && AloneToLaunch(s, id)
                && (s.threads[id].role != Starter ==> OthersRest(s, id))))
  }

  predicate LaunchPoint(pc: PC) {
    Launching(pc) || pc.SetInstall? || pc.CheckPhase?
  }

  lemma OwnCheck(s: State, id: nat, choice: Choice, watcher: nat)
    requires id in s.threads && s.threads[id].pc.CheckRunning? && Calm(s, Go(id, choice, watcher))
    requires ThreadOk(s.phase, [], s.threads[id]) && OneLive(s)
    ensures OwnStep(s, GoStep(s, id, choice, watcher), id)
  {
    hide AloneToLaunch, OthersRest;
  }

  lemma OwnLaunch(s: State, id: nat, choice: Choice, watcher: nat)
    requires id in s.threads && LaunchPoint(s.threads[id].pc)
    requires ThreadOk(s.phase, [], s.threads[id]) && OneLive(s) && LaunchOk(s, id)
    ensures OwnStep(s, GoStep(s, id, choice, watcher), id)
  {
    hide AloneToLaunch, OthersRest;
  }

  lemma OwnWatch(s: State, id: nat, choice: Choice, watcher: nat)
    requires id in s.threads && s.threads[id].pc.Watch?
    requires ThreadOk(s.phase, [], s.threads[id]) && OneLive(s)
    ensures OwnStep(s, GoStep(s, id, choice, watcher), id)
  {
    hide AloneToLaunch, OthersRest;
  }

  lemma OwnWatcher(s: State, id: nat, choice: Choice, watcher: nat)
    requires id in s.threads && Calm(s, Go(id, choice, watcher))
    requires var pc := s.threads[id].pc; pc.Poll? || pc.TakeHandle? || pc.AwaitExit? || pc.Leave?
    requires ThreadOk(s.phase, [], s.threads[id]) && OneLive(s) && LaunchOk(s, id)
    ensures OwnStep(s, GoStep(s, id, choice, watcher), id)
  {
    hide AloneToLaunch, OthersRest;
    if s.threads[id].pc.AwaitExit? { assert GoStep(s, id, choice, watcher).live == map[]; }
  }

  lemma Own(s: State, id: nat, choice: Choice, watcher: nat)
    requires Lone(s) && id in s.threads && Calm(s, Go(id, choice, watcher))
    ensures OwnStep(s, GoStep(s, id, choice, watcher), id)
  {
    hide GoStep, OwnStep, LaunchOk, ThreadOk, Calm, OldPids, Watched;
    if s.threads[id].pc.CheckRunning? { OwnCheck(s, id, choice, watcher); }
    else if s.threads[id].pc.Watch? { OwnWatch(s, id, choice, watcher); }
    else if LaunchPoint(s.threads[id].pc) { OwnLaunch(s, id, choice, watcher); }
    else { OwnWatcher(s, id, choice, watcher); }
  }

  /** The others stand where they stood, but for a watcher that was started. */
  lemma Stands(s: State, id: nat, choice: Choice, watcher: nat, k: nat)
    requires id in s.threads && k != id
    ensures var s' := GoStep(s, id, choice, watcher);
            && (k in s.threads ==> k in s'.threads && s'.threads[k] == s.threads[k])
            && (k in s'.threads && k !in s.threads ==>
                  k == watcher && s.threads[id].pc.Watch? && s'.threads[k] == Thread(Watcher, Poll))
  {
  }

  /** A step of a goroutine that cannot launch disturbs none that can. */
  lemma Harmless(s: State, id: nat, choice: Choice, watcher: nat)
    requires id in s.threads && !CanLaunch(s.phase, s.threads[id].pc) && ThreadOk(s.phase, [], s.threads[id])
    requires s.threads[id].pc.CheckRunning? ==> s.pidFile.Some? && s.pidFile.value in s.live
    ensures var s' := GoStep(s, id, choice, watcher);
            && s'.phase == s.phase && s'.live == s.live
            && (id in s'.threads ==> !CanLaunch(s'.phase, s'.threads[id].pc))
            && (Resting(s.threads[id].pc) ==> id !in s'.threads && s'.handle == s.handle)
  {
  }

  /** A phase that is written leaves the others as little able to launch as they were. */
  lemma StillIdle(s: State, id: nat, phase: Phase, k: nat)
    requires id in s.threads && AloneToLaunch(s, id) && k in s.threads && k != id
    requires phase == s.phase || phase == Run || OthersRest(s, id)
    requires ThreadOk(s.phase, [], s.threads[k])
    ensures !CanLaunch(phase, s.threads[k].pc) && ThreadOk(phase, [], s.threads[k])
  {
  }

  /** Another goroutine that can launch still may. */
  lemma OtherLaunch(s: State, id: nat, choice: Choice, watcher: nat, k: nat)
    requires Lone(s) && id in s.threads && Calm(s, Go(id, choice, watcher))
    requires k in s.threads && k != id && CanLaunch(s.phase, s.threads[k].pc)
    ensures var s' := GoStep(s, id, choice, watcher);
            k in s'.threads && s'.threads[k] == s.threads[k] && s'.phase == s.phase && LaunchOk(s', k)
  {
    assert ThreadOk(s.phase, [], s.threads[k]) && LaunchOk(s, k);
    assert ThreadOk(s.phase, [], s.threads[id]);
    assert !CanLaunch(s.phase, s.threads[id].pc);
    hide GoStep, Lone, AloneToLaunch, OthersRest;
    Harmless(s, id, choice, watcher);
    StandAround(s, id, choice, watcher, k);
  }

  /** ... since all it relies on about the others is what they cannot do. */
  lemma StandAround(s: State, id: nat, choice: Choice, watcher: nat, k: nat)
    requires id in s.threads && k in s.threads && k != id
    requires AloneToLaunch(s, k) && !CanLaunch(s.phase, s.threads[id].pc)
    requires var s' := GoStep(s, id, choice, watcher);
             && s'.phase == s.phase && (id in s'.threads ==> !CanLaunch(s'.phase, s'.threads[id].pc))
             && (Resting(s.threads[id].pc) ==> id !in s'.threads)
    ensures var s' := GoStep(s, id, choice, watcher);
            && k in s'.threads && s'.threads[k] == s.threads[k] && AloneToLaunch(s', k)
            && (OthersRest(s, k) ==> OthersRest(s', k))
  {
    hide GoStep, CanLaunch;
    var s' := GoStep(s, id, choice, watcher);
    Stands(s, id, choice, watcher, k);
    forall j | j in s'.threads && j != k && j != id
      ensures !CanLaunch(s'.phase, s'.threads[j].pc) && (OthersRest(s, k) ==> Resting(s'.threads[j].pc))
    {
      Stands(s, id, choice, watcher, j);
      if j !in s.threads {
        assert !CanLaunch(s.phase, Poll) by { PollLikeWatch(s.phase); }
      }
    }
  }

  lemma PollLikeWatch(phase: Phase)
    ensures CanLaunch(phase, Poll) == CanLaunch(phase, Watch)
  {
  }

  /** A goroutine that cannot launch cannot launch after another's step either. */
  lemma OtherIdle(s: State, id: nat, choice: Choice, watcher: nat, k: nat)
    requires Lone(s) && id in s.threads && Calm(s, Go(id, choice, watcher))
    requires OwnStep(s, GoStep(s, id, choice, watcher), id)
    requires k in s.threads && k != id && !CanLaunch(s.phase, s.threads[k].pc)
    ensures var s' := GoStep(s, id, choice, watcher);
            && k in s'.threads && s'.threads[k] == s.threads[k]
            && !CanLaunch(s'.phase, s.threads[k].pc) && ThreadOk(s'.phase, [], s.threads[k])
  {
    assert ThreadOk(s.phase, [], s.threads[k]) && ThreadOk(s.phase, [], s.threads[id]) && LaunchOk(s, id);
    Stands(s, id, choice, watcher, k);
    PhaseWritten(s, id, choice, watcher);
    hide GoStep, Lone;
    if CanLaunch(s.phase, s.threads[id].pc) {
      StillIdle(s, id, GoStep(s, id, choice, watcher).phase, k);
    }
  }

  lemma PhaseWritten(s: State, id: nat, choice: Choice, watcher: nat)
    requires id in s.threads
    ensures GoStep(s, id, choice, watcher).phase != s.phase ==> CanLaunch(s.phase, s.threads[id].pc)
  {
  }

  /** The watcher that a Create starts is then the one that can launch. */
  lemma NewWatcher(s: State, id: nat, choice: Choice, watcher: nat)
    requires Lone(s) && id in s.threads && s.threads[id].pc.Watch? && watcher !in s.threads
    requires watcher in GoStep(s, id, choice, watcher).threads
    ensures var s' := GoStep(s, id, choice, watcher);
            && ThreadOk(s'.phase, [], s'.threads[watcher]) && LaunchOk(s', watcher)
  {
    assert ThreadOk(s.phase, [], s.threads[id]) && LaunchOk(s, id);
    var s' := GoStep(s, id, choice, watcher);
    assert id !in s'.threads && s'.phase == s.phase && s'.live == s.live && s'.handle == s.handle;
    assert s'.threads[watcher] == Thread(Watcher, Poll);
    if s.phase == Install {
      hide GoStep, Lone, ThreadOk;
      forall k | k in s'.threads && k != watcher
        ensures Resting(s'.threads[k].pc) && !CanLaunch(s'.phase, s'.threads[k].pc)
      {
        Stands(s, id, choice, watcher, k);
      }
    }
  }

  lemma SelfLaunch(s: State, id: nat, choice: Choice, watcher: nat)
    requires Lone(s) && id in s.threads && Calm(s, Go(id, choice, watcher))
    requires OwnStep(s, GoStep(s, id, choice, watcher), id) && id in GoStep(s, id, choice, watcher).threads
    ensures LaunchOk(GoStep(s, id, choice, watcher), id)
  {
    var s' := GoStep(s, id, choice, watcher);
    assert ThreadOk(s.phase, [], s.threads[id]);
    hide GoStep, ThreadOk, KnowsLive;
    if s.threads[id].pc.Watch? {
      WatchReturns(s, id, choice, watcher);
    }
    if CanLaunch(s'.phase, s'.threads[id].pc) {
      forall k | k in s'.threads && k != id
        ensures !CanLaunch(s'.phase, s'.threads[k].pc)
        ensures s.threads[id].role != Starter ==> Resting(s'.threads[k].pc)
      {
        Stands(s, id, choice, watcher, k);
        OtherIdle(s, id, choice, watcher, k);
      }
    }
  }

  lemma WatchReturns(s: State, id: nat, choice: Choice, watcher: nat)
    requires id in s.threads && s.threads[id].pc.Watch? && ThreadOk(s.phase, [], s.threads[id])
    ensures id !in GoStep(s, id, choice, watcher).threads
  {
  }

  lemma LivePids(s: State, id: nat, choice: Choice, watcher: nat)
    requires id in s.threads
    ensures var s' := GoStep(s, id, choice, watcher);
            || (s'.live.Keys <= s.live.Keys && s'.nextPid == s.nextPid)
            || (s'.live.Keys == s.live.Keys + {s.nextPid} && s'.nextPid == s.nextPid + 1)
  {
  }

  lemma HandlePids(s: State, id: nat, choice: Choice, watcher: nat)
    requires id in s.threads
    ensures var s' := GoStep(s, id, choice, watcher);
            || s'.handle in {s.handle, None}
            || (s.threads[id].pc.KeepHandle? && s'.handle == Some(s.threads[id].pc.pid))
  {
  }

  lemma KeptPids(s: State, id: nat, choice: Choice, watcher: nat)
    requires id in s.threads
    ensures var s' := GoStep(s, id, choice, watcher);
            id in s'.threads && s'.threads[id].pc.KeepHandle? ==>
              s'.threads[id].pc.pid == s.nextPid && s'.nextPid == s.nextPid + 1
  {
  }

  lemma PidsKept(s: State, id: nat, choice: Choice, watcher: nat)
    requires OldPids(s) && id in s.threads
    ensures OldPids(GoStep(s, id, choice, watcher))
  {
    hide GoStep;
    HandlePids(s, id, choice, watcher);
    KeptPids(s, id, choice, watcher);
    var s' := GoStep(s, id, choice, watcher);
    LivePids(s, id, choice, watcher);
    forall k | k in s'.threads && s'.threads[k].pc.KeepHandle? ensures s'.threads[k].pc.pid < s'.nextPid {
      if k != id {
        Stands(s, id, choice, watcher, k);
      }
    }
  }

  /** A watcher stays until it clears watching, and watching is set only for one. */
  lemma WatcherKept(s: State, id: nat, choice: Choice, watcher: nat)
    requires id in s.threads
    ensures var s' := GoStep(s, id, choice, watcher);
            && (s'.watching && !s.watching ==>
                  watcher !in s.threads && watcher in s'.threads && s'.threads[watcher].role == Watcher)
            && (s'.watching && s.threads[id].role == Watcher ==> id in s'.threads && s'.threads[id].role == Watcher)
  {
  }

  lemma WatchedKept(s: State, id: nat, choice: Choice, watcher: nat)
    requires Watched(s) && id in s.threads
    ensures Watched(GoStep(s, id, choice, watcher))
  {
    hide GoStep;
    WatcherKept(s, id, choice, watcher);
    if s.watching {
      var k :| k in s.threads && s.threads[k].role == Watcher;
      if k != id {
        Stands(s, id, choice, watcher, k);
      }
    }
  }

  lemma LoneGo(s: State, id: nat, choice: Choice, watcher: nat)
    requires Lone(s) && id in s.threads && Calm(s, Go(id, choice, watcher))
    ensures Lone(GoStep(s, id, choice, watcher))
  {
    var s' := GoStep(s, id, choice, watcher);
    Own(s, id, choice, watcher);
    assert OldPids(s) && Watched(s) && ThreadOk(s.phase, [], s.threads[id]);
    PidsKept(s, id, choice, watcher);
    WatchedKept(s, id, choice, watcher);
    hide GoStep, Calm, OldPids, Watched, ThreadOk;
    forall k | k in s'.threads ensures ThreadOk(s'.phase, [], s'.threads[k]) && LaunchOk(s', k) {
      if k == id {
        SelfLaunch(s, id, choice, watcher);
      } else if k !in s.threads {
        Stands(s, id, choice, watcher, k);
        NewWatcher(s, id, choice, watcher);
      } else if CanLaunch(s.phase, s.threads[k].pc) {
        OtherLaunch(s, id, choice, watcher, k);
      } else {
        OtherIdle(s, id, choice, watcher, k);
      }
    }
  }

  lemma LoneStep(s: State, l: Label)
    requires Lone(s) && Calm(s, l)
    ensures Lone(Step(s, l))
  {
    match l
    case Go(id, choice, watcher) => if id in s.threads { LoneGo(s, id, choice, watcher); }
    case BeginCreate(id) => if id !in s.threads { LoneCreate(s, id); }
    case BeginStart(id) => if id !in s.threads { LoneStart(s, id); }
    case PidWritten(_) => LoneOutside(s, Step(s, l));
    case Exited(_) => LoneOutside(s, Step(s, l));
    case NewCommand =>
  }

  /** What vfkit processes do on their own: write the pid file, exit. */
  lemma LoneOutside(s: State, s': State)
    requires Lone(s) && s' == s.(pidFile := s'.pidFile, live := s'.live) && s'.live.Keys <= s.live.Keys
    ensures Lone(s')
  {
    KeepsWatched(s, s');
    forall k | k in s'.threads ensures ThreadOk(s'.phase, [], s'.threads[k]) && LaunchOk(s', k) {
      assert LaunchOk(s, k);
      assert s.live == map[] ==> s'.live == map[];
    }
  }

  /** While every step is calm, two vfkit processes never hold the disk image at once. */
  lemma {:induction false} OneProcess(s: State, ls: seq<Label>)
    requires Lone(s) && CalmRun(s, ls)
    ensures OneLive(Steps(s, ls)) && Lone(Steps(s, ls))
    decreases |ls|
  {
    if ls != [] {
      OneProcess(s, ls[..|ls| - 1]);
      LoneStep(Steps(s, ls[..|ls| - 1]), ls[|ls| - 1]);
    }
  }
}

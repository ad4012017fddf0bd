/**
 The other half of VfkitLive: after a step that is not calm, the goroutines that
 are there can go on to two vfkit processes on one disk image, without any
 further Create or Start. And such steps are reached from a first command.
 */
module VfkitRace {
  import opened Text
  import opened Vfkit
  import opened VfkitLive

  /** From s the goroutines alone can go on to t. */
  ghost predicate Leads(s: State, t: State) {
    exists ls: seq<Label> :: (forall l :: l in ls ==> l.Go?) && Steps(s, ls) == t
  }

  lemma LeadsSelf(s: State)
    ensures Leads(s, s)
  {
    var ls: seq<Label> := [];
    assert (forall l :: l in ls ==> l.Go?) && Steps(s, ls) == s;
  }

  lemma LeadsOn(s: State, t: State, id: nat, choice: Choice, watcher: nat)
    requires Leads(s, t) && id in t.threads
    ensures Leads(s, GoStep(t, id, choice, watcher))
  {
    hide GoStep;
    var ls: seq<Label> :| (forall l :: l in ls ==> l.Go?) && Steps(s, ls) == t;
    StepsSnoc(s, ls, Go(id, choice, watcher));
    var more := ls + [Go(id, choice, watcher)];
    assert (forall l :: l in more ==> l.Go?) && Steps(s, more) == GoStep(t, id, choice, watcher);
  }

  // ----- from any point on to a spawn -----

  /** How many steps a goroutine is from having spawned. */
  function Distance(pc: PC): nat {
    match pc
    case Poll => 6 case TakeHandle => 5 case AwaitExit(_) => 4 case CheckPhase => 4
    case SetInstall => 3 case SetRun => 3 case ReadPhase => 2 case Spawn(_) => 1
    case _ => 0
  }

  predicate CanSpawn(phase: Phase, pc: PC) {
    CanLaunch(phase, pc) && Distance(pc) > 0
  }

  function Onwards(pc: PC): Choice {
    if pc == Poll then Rebooted else Proceed
  }

  /** The process a forced stop on the way would take down. */
  predicate Victim(t: State, pc: PC, p: nat) {
    match pc
    case AwaitExit(pid) => p == pid
    case Poll | TakeHandle => if t.handle.Some? then p == t.handle.value else t.pidFile == Some(p)
    case _ => false
  }

  ghost predicate OthersSame(t: State, t': State, c: nat) {
    forall k :: k in t.threads && k != c ==> k in t'.threads && t'.threads[k] == t.threads[k]
  }

  ghost predicate LiveKept(t: State, pc: PC, t': State, pc': PC) {
    forall p :: p in t.live && !Victim(t, pc, p) ==> p in t'.live && !Victim(t', pc', p)
  }

  lemma OneCloser(t: State, c: nat)
    requires c in t.threads && CanSpawn(t.phase, t.threads[c].pc) && !t.threads[c].pc.Spawn?
    ensures var pc := t.threads[c].pc;
            var t' := GoStep(t, c, Onwards(pc), 0);
            && t' == t.(phase := t'.phase, spawned := t'.spawned, handle := t'.handle, live := t'.live,
                        threads := t.threads[c := t'.threads[c]])
            && t'.threads[c].role == t.threads[c].role
            && CanSpawn(t'.phase, t'.threads[c].pc) && Distance(t'.threads[c].pc) < Distance(pc)
  {
  }

  lemma OneCloserLive(t: State, c: nat)
    requires c in t.threads && CanSpawn(t.phase, t.threads[c].pc) && !t.threads[c].pc.Spawn?
    ensures var pc := t.threads[c].pc;
            var t' := GoStep(t, c, Onwards(pc), 0);
            c in t'.threads && LiveKept(t, pc, t', t'.threads[c].pc)
  {
  }

  lemma Spawns(t: State, c: nat)
    requires c in t.threads && t.threads[c].pc.Spawn?
    ensures var t' := GoStep(t, c, Proceed, 0);
            && t'.live.Keys == t.live.Keys + {t.nextPid} && t'.nextPid == t.nextPid + 1
            && OthersSame(t, t', c)
  {
  }

  /** A goroutine that is past all questions spawns, whatever the others do meanwhile. */
  lemma {:induction false} SpawnsOne(s: State, t: State, c: nat) returns (t': State)
    requires Leads(s, t) && c in t.threads && CanSpawn(t.phase, t.threads[c].pc)
    ensures Leads(s, t') && OthersSame(t, t', c)
    ensures t'.nextPid == t.nextPid + 1 && t.nextPid in t'.live
    ensures forall p :: p in t.live && !Victim(t, t.threads[c].pc, p) ==> p in t'.live
    decreases Distance(t.threads[c].pc)
  {
    var pc := t.threads[c].pc;
    var t1 := GoStep(t, c, Onwards(pc), 0);
    LeadsOn(s, t, c, Onwards(pc), 0);
    hide GoStep, Victim, Leads, CanLaunch;
    if pc.Spawn? {
      Spawns(t, c);
      t' := t1;
    } else {
      OneCloser(t, c);
      OneCloserLive(t, c);
      t' := SpawnsOne(s, t1, c);
    }
  }

  /** ... beside any process that it does not stop on the way. */
  lemma SpawnsBeside(s: State, t: State, c: nat, p: nat) returns (t': State)
    requires Leads(s, t) && c in t.threads && CanSpawn(t.phase, t.threads[c].pc)
    requires p in t.live && p < t.nextPid && !Victim(t, t.threads[c].pc, p)
    ensures Leads(s, t') && !OneLive(t')
  {
    t' := SpawnsOne(s, t, c);
    assert p in t'.live && t.nextPid in t'.live;
  }

  // ----- a watcher that has finished, and one that is started -----

  lemma Fresh(used: set<nat>) returns (w: nat)
    ensures w !in used
  {
    w := Above(used);
  }

  lemma {:induction false} Above(used: set<nat>) returns (w: nat)
    ensures forall k :: k in used ==> k < w
    decreases |used|
  {
    if used == {} {
      w := 0;
    } else {
      var k :| k in used;
      var v := Above(used - {k});
      w := if v <= k then k + 1 else v;
      assert forall j :: j in used ==> j == k || j in used - {k};
    }
  }

  /** A watcher at the end of its launch or its loop clears watching and is gone. */
  lemma RunOut(s: State, t: State, e: nat) returns (t': State)
    requires Leads(s, t) && e in t.threads && t.threads[e].role == Watcher
    requires t.threads[e].pc.Leave? || (t.threads[e].pc.KeepHandle? && t.threads[e].pc.phase == Run)
    ensures Leads(s, t') && e !in t'.threads && OthersSame(t, t', e)
    ensures t' == t.(watching := false, handle := t'.handle, threads := t'.threads)
    ensures t'.handle == t.handle || (t.threads[e].pc.KeepHandle? && t'.handle == Some(t.threads[e].pc.pid))
  {
    hide Leads;
    t' := t;
    if t.threads[e].pc.KeepHandle? {
      LeadsOn(s, t', e, Proceed, 0);
      t' := GoStep(t', e, Proceed, 0);
    }
    LeadsOn(s, t', e, Proceed, 0);
    t' := GoStep(t', e, Proceed, 0);
  }

  /** Everyone is where its role can be. */
  ghost predicate Placed(t: State) {
    Watched(t) && forall k :: k in t.threads ==> ThreadOk(t.phase, [], t.threads[k])
  }

  /** What a launch leaves as it was: one goroutine that waits for its turn. */
  ghost predicate Launched(s: State, t: State, t': State, waits: nat)
    requires waits in t.threads
  {
    && Leads(s, t') && t'.nextPid == t.nextPid + 1 && t.nextPid in t'.live
    && waits in t'.threads && t'.threads[waits] == t.threads[waits]
  }

  lemma StartsWatcher(s: State, t: State, c: nat) returns (t': State, w: nat)
    requires Leads(s, t) && c in t.threads && t.threads[c] == Thread(Creator, Watch) && !t.watching
    ensures Leads(s, t') && w !in t.threads && w in t'.threads && t'.threads[w].pc == Poll
    ensures t' == t.(watching := true, threads := t'.threads) && OthersSame(t, t', c)
  {
    w := Fresh(t.threads.Keys);
    LeadsOn(s, t, c, Proceed, w);
    t' := GoStep(t, c, Proceed, w);
  }

  lemma WatchLaunches(s: State, t: State, c: nat, waits: nat) returns (t': State)
    requires Leads(s, t) && Placed(t) && c in t.threads && t.threads[c].pc.Watch? && t.phase == Install
    requires waits in t.threads && waits != c && t.threads[waits].role != Watcher
    ensures Launched(s, t, t', waits)
  {
    assert t.threads[c] == Thread(Creator, Watch) by { assert ThreadOk(t.phase, [], t.threads[c]); }
    var t1 := t;
    if t.watching {
      var e :| e in t.threads && t.threads[e].role == Watcher;
      assert ThreadOk(t.phase, [], t.threads[e]);
      if CanSpawn(t.phase, t.threads[e].pc) {
        t' := SpawnsOne(s, t, e);
        return;
      }
      t1 := RunOut(s, t, e);
    }
    hide Leads, GoStep, Placed;
    var t2, w := StartsWatcher(s, t1, c);
    t' := SpawnsOne(s, t2, w);
  }

  /** Whoever can launch can go on to a spawn while another goroutine waits. */
  lemma LaunchesOne(s: State, t: State, c: nat, waits: nat) returns (t': State)
    requires Leads(s, t) && Placed(t) && c in t.threads && CanLaunch(t.phase, t.threads[c].pc)
    requires waits in t.threads && waits != c && t.threads[waits].role != Watcher
    ensures Launched(s, t, t', waits)
  {
    var pc := t.threads[c].pc;
    if CanSpawn(t.phase, pc) {
      t' := SpawnsOne(s, t, c);
    } else if pc.Watch? {
      t' := WatchLaunches(s, t, c, waits);
    } else {
      assert ThreadOk(t.phase, [], t.threads[c]);
      LeadsOn(s, t, c, Proceed, 0);
      var t1 := GoStep(t, c, Proceed, 0);
      assert t1 == t.(handle := Some(pc.pid), threads := t.threads[c := Thread(Creator, Watch)]);
      PlacedAgain(t, t1);
      t' := WatchLaunches(s, t1, c, waits);
    }
  }

  lemma PlacedAgain(t: State, t': State)
    requires Placed(t) && t'.watching == t.watching
    requires forall k :: k in t.threads ==> k in t'.threads && t'.threads[k].role == t.threads[k].role
    requires forall k :: k in t'.threads ==> ThreadOk(t'.phase, [], t'.threads[k])
    ensures Placed(t')
  {
    KeepsWatched(t, t');
  }

  /** Two launches, one after the other. */
  lemma TwoLaunches(s: State, t: State, c: nat, waits: nat) returns (t': State)
    requires Leads(s, t) && Placed(t) && c in t.threads && CanLaunch(t.phase, t.threads[c].pc)
    requires waits in t.threads && waits != c && t.threads[waits].role != Watcher
    requires var pc := t.threads[waits].pc; pc.CheckPhase? || pc.SetInstall? || pc.ReadPhase?
    ensures Leads(s, t') && !OneLive(t')
  {
    var t1 := LaunchesOne(s, t, c, waits);
    t' := SpawnsBeside(s, t1, waits, t.nextPid);
  }

  // ----- a Create that does not begin alone -----

  /** From its first step to the one where it would start the watcher. */
  lemma CreatorToWatch(s: State, t: State, c: nat) returns (t': State)
    requires Leads(s, t) && c in t.threads && t.threads[c] == Thread(Creator, ReadPhase) && t.phase == Install
    ensures Leads(s, t')
    ensures t' == t.(live := t.live[t.nextPid := LinuxKernel], spawned := t.spawned + [LinuxKernel],
                     nextPid := t.nextPid + 1, handle := Some(t.nextPid),
                     threads := t.threads[c := Thread(Creator, Watch)])
  {
    hide Leads;
    LeadsOn(s, t, c, Proceed, 0);
    var t1 := GoStep(t, c, Proceed, 0);
    assert t1 == t.(threads := t.threads[c := Thread(Creator, Spawn(Install))]);
    LeadsOn(s, t1, c, Proceed, 0);
    var t2 := GoStep(t1, c, Proceed, 0);
    assert t2.threads == t.threads[c := Thread(Creator, KeepHandle(Install, t.nextPid))];
    LeadsOn(s, t2, c, Proceed, 0);
    t' := GoStep(t2, c, Proceed, 0);
    assert t'.threads == t.threads[c := Thread(Creator, Watch)];
  }

  /** A launch that had spawned stores its handle late, and is done but for a watcher's clean-up. */
  lemma StoresLate(s: State, t: State, o: nat) returns (t': State)
    requires Leads(s, t) && o in t.threads && t.threads[o].pc.KeepHandle? && t.threads[o].pc.phase == Run
    ensures Leads(s, t') && OthersSame(t, t', o)
    ensures t' == t.(handle := Some(t.threads[o].pc.pid), threads := t'.threads)
    ensures t'.threads == if t.threads[o].role == Watcher then t.threads[o := Thread(Watcher, Leave)]
                          else t.threads - {o}
  {
    LeadsOn(s, t, o, Proceed, 0);
    t' := GoStep(t, o, Proceed, 0);
  }

  /** A watcher that will not touch the process p. */
  predicate Done(pc: PC, p: nat) {
    pc.Leave? || (pc.KeepHandle? && pc.phase == Run && pc.pid != p)
  }

  /** With another handle in place of its own, the new watcher stops the wrong process and boots a second one. */
  lemma LateHandle(s: State, t: State, c: nat, p: nat) returns (t': State)
    requires Leads(s, t) && Watched(t) && c in t.threads && t.threads[c] == Thread(Creator, Watch)
    requires t.phase == Install && p in t.live && p < t.nextPid && t.handle.Some? && t.handle.value != p
    requires forall k :: k in t.threads && t.threads[k].role == Watcher ==> Done(t.threads[k].pc, p)
    ensures Leads(s, t') && !OneLive(t')
  {
    hide Leads;
    var t1 := t;
    if t.watching {
      var e :| e in t.threads && t.threads[e].role == Watcher;
      assert Done(t.threads[e].pc, p);
      t1 := RunOut(s, t, e);
    }
    var t2, w := StartsWatcher(s, t1, c);
    t' := SpawnsBeside(s, t2, w, p);
  }

  predicate Storing(pc: PC) {
    pc.KeepHandle? && pc.phase == Run
  }

  lemma CreateBesideStore(s: State, t: State, c: nat, o: nat) returns (t': State)
    requires Leads(s, t) && Watched(t) && OldPids(t) && t.phase == Install
    requires c in t.threads && t.threads[c] == Thread(Creator, ReadPhase)
    requires o in t.threads && o != c && Storing(t.threads[o].pc)
    requires forall k :: k in t.threads && k != c ==> Resting(t.threads[k].pc) || Storing(t.threads[k].pc)
    requires forall k :: k in t.threads && t.threads[k].role == Watcher ==> !t.threads[k].pc.CheckRunning?
    ensures Leads(s, t') && !OneLive(t')
  {
    hide Leads;
    var p := t.nextPid;
    var t1 := CreatorToWatch(s, t, c);
    assert forall k :: k in t.threads ==> k in t1.threads && t1.threads[k].role == t.threads[k].role;
    KeepsWatched(t, t1);
    var t2 := StoresLate(s, t1, o);
    forall k | k in t2.threads && t2.threads[k].role == Watcher ensures Done(t2.threads[k].pc, p) {
      if k != o {
        assert k in t1.threads && t2.threads[k] == t1.threads[k] == t.threads[k];
      }
    }
    WatcherStays(t1, t2, o);
    t' := LateHandle(s, t2, c, p);
  }

  lemma WatcherStays(t: State, t': State, o: nat)
    requires Watched(t) && o in t.threads && t'.watching == t.watching && OthersSame(t, t', o)
    requires t.threads[o].role == Watcher ==> o in t'.threads && t'.threads[o].role == Watcher
    ensures Watched(t')
  {
    if t.watching {
      var k :| k in t.threads && t.threads[k].role == Watcher;
      assert k in t'.threads && t'.threads[k].role == Watcher;
    }
  }

  lemma CreateRaces(s: State, id: nat) returns (t: State)
    requires Lone(s) && id !in s.threads && !Calm(s, BeginCreate(id))
    ensures Leads(Step(s, BeginCreate(id)), t) && !OneLive(t)
  {
    var s1 := Step(s, BeginCreate(id));
    LeadsSelf(s1);
    KeepsWatched(s, s1);
    assert Placed(s1);
    if s.live != map[] {
      var p :| p in s.live;
      t := SpawnsBeside(s1, s1, id, p);
    } else if k :| k in s.threads && CanLaunch(s.phase, s.threads[k].pc) {
      t := TwoLaunches(s1, s1, k, id);
    } else {
      t := CreateBesideIdle(s, id);
    }
  }

  lemma IdleStaysPlaced(s: State, s': State, id: nat)
    requires Lone(s) && forall k :: k in s.threads ==> !CanLaunch(s.phase, s.threads[k].pc)
    requires s'.threads == s.threads[id := Thread(Creator, ReadPhase)]
    ensures forall k :: k in s'.threads ==> ThreadOk(Install, [], s'.threads[k])
  {
    forall k | k in s'.threads ensures ThreadOk(Install, [], s'.threads[k]) {
      if k != id {
        assert ThreadOk(s.phase, [], s.threads[k]) && !CanLaunch(s.phase, s.threads[k].pc);
      }
    }
  }

  /** A Create that has written its phase beside a goroutine that does not rest. */
  lemma CreateBeside(s: State, t: State, id: nat, o: nat) returns (t': State)
    requires Leads(s, t) && Placed(t) && OldPids(t) && t.phase == Install
    requires id in t.threads && t.threads[id] == Thread(Creator, ReadPhase)
    requires o in t.threads && o != id && !Resting(t.threads[o].pc)
    requires forall k :: k in t.threads && k != id ==>
               CanLaunch(Install, t.threads[k].pc) || Resting(t.threads[k].pc) || Storing(t.threads[k].pc)
    ensures Leads(s, t') && !OneLive(t')
  {
    hide Leads;
    if k :| k in t.threads && k != id && CanLaunch(Install, t.threads[k].pc) {
      t' := TwoLaunches(s, t, k, id);
    } else {
      t' := CreateBesideStore(s, t, id, o);
    }
  }

  lemma InstallWritten(s: State, id: nat) returns (t: State)
    requires id !in s.threads
    ensures Leads(Step(s, BeginCreate(id)), t)
    ensures t == s.(phase := Install, spawned := [], threads := s.threads[id := Thread(Creator, ReadPhase)])
  {
    var s1 := Step(s, BeginCreate(id));
    LeadsSelf(s1);
    LeadsOn(s1, s1, id, Proceed, 0);
    t := GoStep(s1, id, Proceed, 0);
  }

  lemma CreateBesideIdle(s: State, id: nat) returns (t: State)
    requires Lone(s) && id !in s.threads
    requires exists k :: k in s.threads && !Resting(s.threads[k].pc)
    requires forall k :: k in s.threads ==> !CanLaunch(s.phase, s.threads[k].pc)
    ensures Leads(Step(s, BeginCreate(id)), t) && !OneLive(t)
  {
    hide Step, Leads;
    var s2 := InstallWritten(s, id);
    IdleStaysPlaced(s, s2, id);
    assert OldPids(s2);
    hide Lone;
    KeepsWatched(s, s2);
    var o :| o in s.threads && !Resting(s.threads[o].pc);
    OnlyStoring(s, s2, id);
    t := CreateBeside(Step(s, BeginCreate(id)), s2, id, o);
  }

  lemma OnlyStoring(s: State, s': State, id: nat)
    requires s'.threads == s.threads[id := Thread(Creator, ReadPhase)]
    requires forall k :: k in s.threads ==> !CanLaunch(s.phase, s.threads[k].pc)
    ensures forall k :: k in s'.threads && k != id ==>
              CanLaunch(Install, s'.threads[k].pc) || Resting(s'.threads[k].pc) || Storing(s'.threads[k].pc)
  {
    forall k | k in s'.threads && k != id
      ensures CanLaunch(Install, s'.threads[k].pc) || Resting(s'.threads[k].pc) || Storing(s'.threads[k].pc)
    {
      assert k in s.threads && s'.threads[k] == s.threads[k];
    }
  }

  // ----- the other steps -----

  lemma StartRaces(s: State, id: nat, choice: Choice, watcher: nat) returns (t: State)
    requires Lone(s) && id in s.threads && s.threads[id].pc.CheckRunning? && !Calm(s, Go(id, choice, watcher))
    ensures Leads(GoStep(s, id, choice, watcher), t) && !OneLive(t)
  {
    assert ThreadOk(s.phase, [], s.threads[id]);
    var s1 := GoStep(s, id, choice, watcher);
    assert s1 == s.(threads := s.threads[id := Thread(Starter, CheckPhase)]);
    LeadsSelf(s1);
    KeepsWatched(s, s1);
    assert Placed(s1);
    if s.live != map[] {
      var p :| p in s.live;
      t := SpawnsBeside(s1, s1, id, p);
    } else {
      var k :| k in s.threads && k != id && CanLaunch(s.phase, s.threads[k].pc);
      t := TwoLaunches(s1, s1, k, id);
    }
  }

  lemma StopRaces(s: State, id: nat, choice: Choice, watcher: nat) returns (t: State)
    requires Lone(s) && id in s.threads && s.threads[id].pc.AwaitExit? && !Calm(s, Go(id, choice, watcher))
    ensures Leads(GoStep(s, id, choice, watcher), t) && !OneLive(t)
  {
    var s1 := GoStep(s, id, choice, watcher);
    assert s1 == At(s, id, SetRun);
    LeadsSelf(s1);
    var p :| p in s.live;
    t := SpawnsBeside(s1, s1, id, p);
  }

  /**
   The condition is exact. Wherever calm steps lead, one more calm step leaves
   at most one process whatever calm steps follow; and one that is not calm lets
   the goroutines that are there start a second process beside the first.
   */
  lemma CalmIsExact(s: State, l: Label)
    requires Lone(s)
    ensures Calm(s, l) ==> Lone(Step(s, l))
    ensures !Calm(s, l) ==> exists t :: Leads(Step(s, l), t) && !OneLive(t)
  {
    if Calm(s, l) {
      LoneStep(s, l);
    } else if l.BeginCreate? {
      var t := CreateRaces(s, l.id);
    } else if s.threads[l.id].pc.CheckRunning? {
      var t := StartRaces(s, l.id, l.choice, l.watcher);
    } else {
      var t := StopRaces(s, l.id, l.choice, l.watcher);
    }
  }

  // ----- such steps are reached -----

  /** The first command on a new machine. */
  function FirstCommand(): State {
    State(Install, false, None, None, map[], [], 0, map[])
  }

  /** A run in which every step is orderly and calm. */
  ghost predicate Gets(s: State, ls: seq<Label>, t: State) {
    OrderlyRun(s, ls) && CalmRun(s, ls) && Steps(s, ls) == t
  }

  lemma GetsOn(s: State, ls: seq<Label>, t: State, l: Label)
    requires Gets(s, ls, t) && Orderly(t, l) && Calm(t, l)
    ensures Gets(s, ls + [l], Step(t, l))
  {
    hide Step, Orderly, Calm;
    StepsSnoc(s, ls, l);
    assert (ls + [l])[..|ls|] == ls;
  }

  /** Create boots Linux and leaves its watcher polling. */
  lemma CreatePolls() returns (ls: seq<Label>)
    ensures Gets(FirstCommand(), ls, State(Install, true, Some(0), None, map[0 := LinuxKernel], [LinuxKernel], 1,
                                           map[1 := Thread(Watcher, Poll)]))
  {
    hide Gets, CalmRun, OrderlyRun;
    var s := FirstCommand();
    ls := Begun(BeginCreate(0));
    var t := s.(threads := map[0 := Thread(Creator, SetInstall)]);
    assert Step(s, BeginCreate(0)) == t;
    var next := [t.(threads := map[0 := Thread(Creator, ReadPhase)]),
                 t.(threads := map[0 := Thread(Creator, Spawn(Install))]),
                 State(Install, false, None, None, map[0 := LinuxKernel], [LinuxKernel], 1,
                       map[0 := Thread(Creator, KeepHandle(Install, 0))]),
                 State(Install, false, Some(0), None, map[0 := LinuxKernel], [LinuxKernel], 1,
                       map[0 := Thread(Creator, Watch)])];
    for i := 0 to 4
      invariant Gets(s, ls, t)
      invariant t == if i == 0 then s.(threads := map[0 := Thread(Creator, SetInstall)]) else next[i - 1]
    {
      assert Step(t, Go(0, Proceed, 1)) == next[i];
      GetsOn(s, ls, t, Go(0, Proceed, 1));
      ls := ls + [Go(0, Proceed, 1)];
      t := next[i];
    }
    GetsOn(s, ls, t, Go(0, Proceed, 1));
    ls := ls + [Go(0, Proceed, 1)];
    assert Step(t, Go(0, Proceed, 1)).threads == map[1 := Thread(Watcher, Poll)];
  }

  lemma Begun(l: Label) returns (ls: seq<Label>)
    requires l.BeginCreate? || l.BeginStart?
    ensures Gets(FirstCommand(), ls, Step(FirstCommand(), l))
  {
    ls := [] + [l];
    GetsOn(FirstCommand(), [], FirstCommand(), l);
  }

  /** The installer rebooted: the watcher has taken the handle and waits for the process to end. */
  lemma CreateAwaits() returns (ls: seq<Label>)
    ensures Gets(FirstCommand(), ls, State(Install, true, None, None, map[0 := LinuxKernel], [LinuxKernel], 1,
                                           map[1 := Thread(Watcher, AwaitExit(0))]))
  {
    hide Gets, CalmRun, OrderlyRun;
    var s := FirstCommand();
    ls := CreatePolls();
    var t := State(Install, true, Some(0), None, map[0 := LinuxKernel], [LinuxKernel], 1,
                   map[1 := Thread(Watcher, Poll)]);
    GetsOn(s, ls, t, Go(1, Rebooted, 0));
    ls := ls + [Go(1, Rebooted, 0)];
    var t1 := t.(threads := map[1 := Thread(Watcher, TakeHandle)]);
    assert Step(t, Go(1, Rebooted, 0)) == t1;
    GetsOn(s, ls, t1, Go(1, Proceed, 0));
    ls := ls + [Go(1, Proceed, 0)];
    assert Step(t1, Go(1, Proceed, 0)).threads == map[1 := Thread(Watcher, AwaitExit(0))];
  }

  /** A forced stop that gives up waiting after an otherwise calm run: a second process beside the first. */
  lemma StopTimesOut() returns (ls: seq<Label>, t: State)
    ensures OrderlyRun(FirstCommand(), ls) && CalmRun(FirstCommand(), ls)
    ensures Leads(Step(Steps(FirstCommand(), ls), Go(1, TimedOut, 0)), t) && !OneLive(t)
  {
    ls := CreateAwaits();
    NewProcessIsLone(FirstCommand());
    OneProcess(FirstCommand(), ls);
    assert 0 in Steps(FirstCommand(), ls).live;
    t := StopRaces(Steps(FirstCommand(), ls), 1, TimedOut, 0);
  }

  /** A Start that asks while the watcher is between the processes sees none, and launches beside it. */
  lemma StartBesideWatcher() returns (ls: seq<Label>, t: State)
    ensures OrderlyRun(FirstCommand(), ls) && CalmRun(FirstCommand(), ls)
    ensures Leads(Step(Steps(FirstCommand(), ls), Go(2, Proceed, 0)), t) && !OneLive(t)
  {
    var s := FirstCommand();
    ls := CreateAwaits();
    var t0 := Steps(s, ls);
    NewProcessIsLone(s);
    GetsOn(s, ls, t0, Go(1, Proceed, 0));
    ls := ls + [Go(1, Proceed, 0)];
    var t1 := Steps(s, ls);
    assert t1.threads == map[1 := Thread(Watcher, SetRun)] && t1.live == map[];
    GetsOn(s, ls, t1, BeginStart(2));
    ls := ls + [BeginStart(2)];
    OneProcess(s, ls);
    var t2 := Steps(s, ls);
    assert t2.threads == map[1 := Thread(Watcher, SetRun), 2 := Thread(Starter, CheckRunning)];
    t := StartRaces(t2, 2, Proceed, 0);
  }

  /** A Create may find another call between writing the run phase and reading it back. */
  lemma CreateMeetsLaunch() returns (ls: seq<Label>)
    ensures OrderlyRun(FirstCommand(), ls) && !Orderly(Steps(FirstCommand(), ls), Go(1, Proceed, 2))
    ensures exists more :: Steps(Steps(FirstCommand(), ls), more).spawned == [LinuxKernel, LinuxKernel]
  {
    hide Gets, CalmRun, OrderlyRun;
    var s := FirstCommand();
    ls := Begun(BeginStart(0));
    var t := s.(threads := map[0 := Thread(Starter, CheckRunning)]);
    assert Step(s, BeginStart(0)) == t;
    var next := [t.(threads := map[0 := Thread(Starter, CheckPhase)]),
                 t.(threads := map[0 := Thread(Starter, SetRun)]),
                 t.(phase := Run, threads := map[0 := Thread(Starter, ReadPhase)])];
    for i := 0 to 3
      invariant Gets(s, ls, t)
      invariant t == if i == 0 then s.(threads := map[0 := Thread(Starter, CheckRunning)]) else next[i - 1]
    {
      assert Step(t, Go(0, Proceed, 1)) == next[i];
      GetsOn(s, ls, t, Go(0, Proceed, 1));
      ls := ls + [Go(0, Proceed, 1)];
      t := next[i];
    }
    ls := CreateBegins(ls, t);
    assert Steps(s, ls).threads[0].pc == ReadPhase;
    CreateIntoALaunch(Steps(s, ls), 1, 0, 2);
  }

  lemma CreateBegins(before: seq<Label>, t: State) returns (ls: seq<Label>)
    requires Gets(FirstCommand(), before, t) && t.threads == map[0 := Thread(Starter, ReadPhase)]
    ensures OrderlyRun(FirstCommand(), ls)
    ensures Steps(FirstCommand(), ls).threads ==
              map[0 := Thread(Starter, ReadPhase), 1 := Thread(Creator, SetInstall)]
  {
    ls := before + [BeginCreate(1)];
    StepsSnoc(FirstCommand(), before, BeginCreate(1));
    assert ls[..|before|] == before;
  }
}

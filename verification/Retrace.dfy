/**
 A delete retraces the create step by step. Wherever between two stages the
 delete of a finished cluster stops, it leaves what a create stopped at the same
 place leaves, and creating the cluster again brings back the very cluster that
 was being deleted, addresses included (app/runner.go, app/manager.go).
 */
module Retrace {
  import opened Text
  import opened Addresses
  import opened Model
  import opened NatReset
  import opened Lifecycle
  import opened Safety
  import opened Reservations
  import opened RoundTrip
  import opened Resume
  import opened Retry

  /** The delete of a cluster whose stages are all recorded, after n rollbacks that nothing disturbs. */
  function UndoneBy(w: World, name: string, n: nat): World {
    if n == 0 then Step(w, BeginDelete(name, true))
    else Step(Step(UndoneBy(w, name, n - 1), UndoStage(true, true)), Erase)
  }

  /** A finished create. */
  function Created(w0: World, spec: Cluster, draws: seq<Draw>): World {
    Step(CreateUpTo(w0, spec, draws, |Pipeline(w0.os)|), FinishCreate(true))
  }

  /** The shared network stays once it was made. */
  function NetLeft(w0: World, spec: Cluster): Net {
    if spec.isNAT && w0.os.Linux? then Ensure(w0.net) else w0.net
  }

  // ----- the way back, in closed form -----

  /** Stopped first, then creating; the ISO volume is forgotten, the macOS command line is not. */
  function EntryBack(w0: World, spec: Cluster, draws: seq<Draw>, k: nat): Cluster {
    var ref := BootRef(w0.os, spec.name);
    EntryAt(w0.mem, spec, draws, k, ref)
      .(state := if k >= 18 then Stopped else Creating, boot := if k >= 10 || w0.os.Darwin? then ref else "")
  }

  function CfgBack(w0: World, spec: Cluster, draws: seq<Draw>, k: nat): Cfg {
    CfgAt(w0.mem, spec, draws, k, "")
      .(clusters := if k >= 1 then w0.mem.clusters + [EntryBack(w0, spec, draws, k)] else w0.mem.clusters)
  }

  function NetBack(w0: World, spec: Cluster, draws: seq<Draw>, k: nat): Net {
    if k >= 11 then NetAt(w0, spec, draws, k) else NetLeft(w0, spec)
  }

  function ViewBack(w0: World, spec: Cluster, draws: seq<Draw>, k: nat): View {
    View(EntryBack(w0, spec, draws, k), CfgBack(w0, spec, draws, k), NetBack(w0, spec, draws, k),
         VmsAt(w0, spec, draws, k, BootRef(w0.os, spec.name)))
  }

  function Back(w0: World, spec: Cluster, draws: seq<Draw>, k: nat): World
    requires k <= |Pipeline(w0.os)|
  {
    var v, rec := ViewBack(w0, spec, draws, k), Prefix(w0.os, k);
    World(w0.os, v.cfg, v.cfg, w0.recs[spec.name := rec], v.net, v.vms, Undoing(v.cur, rec, k, false))
  }

  /** What a create of a new cluster that can finish finds. */
  ghost predicate Fits(w0: World, spec: Cluster, draws: seq<Draw>) {
    && CanStart(w0, spec) && AllocOk(w0.mem, spec, draws)
    && (!spec.isNAT ==> spec.masterMAC !in w0.mem.usedMACs && spec.masterIP !in w0.mem.usedIPs)
    && (spec.isNAT ==>
          forall h :: h in Hosts(w0.net) ==> !Clash(h, Reservation(EntryAt(w0.mem, spec, draws, 11, ""))))
  }

  lemma FreshFits(w0: World, spec: Cluster, draws: seq<Draw>)
    requires FreshCreate(w0, spec) && AllocOk(w0.mem, spec, draws)
    ensures Fits(w0, spec, draws)
  {
    if spec.isNAT {
      AllocMACsFresh(w0.mem.usedMACs, draws, spec.nodes);
      AllocIPsFresh(w0.mem.usedIPs, spec.nodes);
      AllocatedSomething(w0.mem, spec, draws);
      MemSafe(w0);
      FreshReservation(w0.mem, w0.net, EntryAt(w0.mem, spec, draws, 11, ""));
    }
  }

  lemma CreatedIs(w0: World, spec: Cluster, draws: seq<Draw>)
    requires CanStart(w0, spec) && AllocOk(w0.mem, spec, draws)
    ensures Created(w0, spec, draws) == FinalWorld(w0, spec, draws)
  {
    hide CanStart, AllocOk, Reached, CreateUpTo, FinalWorld;
    var g := CleanAt(w0, spec, draws, 18);
    ThroughIsFinal(w0, spec, g, CreateUpTo(w0, spec, draws, 18));
  }

  /** A stage rolled back, saved and erased, given what its Rollback does. */
  lemma UndoneAndErased(w: World, v': View)
    requires w.proc.Undoing? && !w.proc.done && 0 < w.proc.k <= |Pipeline(w.os)|
    requires Pipeline(w.os)[w.proc.k - 1] in w.proc.rec
    requires Undo(w.os, Pipeline(w.os)[w.proc.k - 1], ViewOf(w)) == v' && v'.cur.name == w.proc.cur.name
    ensures var s := Pipeline(w.os)[w.proc.k - 1];
            var rec := w.proc.rec - {s};
            Step(Step(w, UndoStage(true, true)), Erase) ==
            World(w.os, v'.cfg, if UndoSaves(s) then v'.cfg else w.disk, w.recs[w.proc.cur.name := rec], v'.net, v'.vms,
                  Undoing(v'.cur, rec, w.proc.k - 1, false))
  {
    hide Undo, UndoSaves;
    var w1 := UndoStageStep(w, true, true);
    assert Step(w, UndoStage(true, true)) == w1;
    assert Step(w1, Erase) == EraseStep(w1);
    var rec := w.proc.rec - {Pipeline(w.os)[w.proc.k - 1]};
    assert (w.recs - {w.proc.cur.name})[w.proc.cur.name := rec] == w.recs[w.proc.cur.name := rec];
  }

  /** One stage back, given what its Rollback does to the view. */
  lemma StageBack(w0: World, spec: Cluster, draws: seq<Draw>, k: nat)
    requires 0 < k <= 18
    requires Undo(w0.os, Pipeline(w0.os)[k - 1], ViewBack(w0, spec, draws, k)) == ViewBack(w0, spec, draws, k - 1)
    requires ViewBack(w0, spec, draws, k).cur.name == ViewBack(w0, spec, draws, k - 1).cur.name == spec.name
    requires ViewBack(w0, spec, draws, k).cfg == ViewBack(w0, spec, draws, k - 1).cfg ||
             UndoSaves(Pipeline(w0.os)[k - 1])
    ensures Step(Step(Back(w0, spec, draws, k), UndoStage(true, true)), Erase) == Back(w0, spec, draws, k - 1)
  {
    hide Undo, UndoSaves, ViewBack, Step;
    PrefixStep(w0.os, k - 1);
    PrefixMember(w0.os, k, k - 1);
    var w := Back(w0, spec, draws, k);
    hide Pipeline;
    UndoneAndErased(w, ViewBack(w0, spec, draws, k - 1));
    assert w0.recs[spec.name := w.proc.rec][spec.name := Prefix(w0.os, k - 1)] ==
           w0.recs[spec.name := Prefix(w0.os, k - 1)];
  }

  // ----- stage by stage -----

  lemma RegisterBack(w0: World, spec: Cluster, draws: seq<Draw>)
    requires Fits(w0, spec, draws)
    ensures Undo(w0.os, RegisterCluster, ViewBack(w0, spec, draws, 1)) == ViewBack(w0, spec, draws, 0)
  {
    SpliceAppend(w0.mem.clusters, EntryBack(w0, spec, draws, 1));
    hide Macs, IPs, AllocOk, BootRef, Splice, Has;
  }

  /** Releasing gives back exactly what allocating took. */
  lemma MarksBack(w0: World, spec: Cluster, draws: seq<Draw>)
    requires Fits(w0, spec, draws)
    ensures var at, ips := CfgAt(w0.mem, spec, draws, 2, ""), Elems(IPs(w0.mem, spec));
            && at.usedMACs - Elems(Macs(w0.mem, spec, draws)) == w0.mem.usedMACs
            && at.usedIPs - ips == w0.mem.usedIPs
  {
    if spec.isNAT {
      AllocMACsFresh(w0.mem.usedMACs, draws, spec.nodes);
      AllocIPsFresh(w0.mem.usedIPs, spec.nodes);
    }
  }

  lemma AllocateBack(w0: World, spec: Cluster, draws: seq<Draw>)
    requires Fits(w0, spec, draws)
    ensures Undo(w0.os, AllocateNetwork, ViewBack(w0, spec, draws, 2)) == ViewBack(w0, spec, draws, 1)
  {
    MarksBack(w0, spec, draws);
    PutLast(w0.mem.clusters, EntryBack(w0, spec, draws, 2), EntryBack(w0, spec, draws, 1));
    hide Elems, Macs, IPs, AllocOk, BootRef, Put, Has;
  }

  lemma BootMediaBack(w0: World, spec: Cluster, draws: seq<Draw>)
    requires Fits(w0, spec, draws)
    ensures var s := if w0.os.Darwin? then PublishPXEAssets else EmbedIgnitionISO;
            Undo(w0.os, s, ViewBack(w0, spec, draws, 10)) == ViewBack(w0, spec, draws, 9)
    ensures w0.os.Darwin? ==> ViewBack(w0, spec, draws, 10) == ViewBack(w0, spec, draws, 9)
  {
    PutLast(w0.mem.clusters, EntryBack(w0, spec, draws, 10), EntryBack(w0, spec, draws, 9));
    hide Macs, IPs, AllocOk, BootRef, Put, Has;
  }

  lemma FinalizeBack(w0: World, spec: Cluster, draws: seq<Draw>)
    requires Fits(w0, spec, draws)
    ensures Undo(w0.os, Finalize, ViewBack(w0, spec, draws, 18)) == ViewBack(w0, spec, draws, 17)
  {
    PutLast(w0.mem.clusters, EntryBack(w0, spec, draws, 18), EntryBack(w0, spec, draws, 17));
    LevelsStable(w0, spec, draws, 17, BootRef(w0.os, spec.name));
    hide Macs, IPs, AllocOk, BootRef, Put, Has;
  }

  /** The reservation that was added clashes with none that was there, so removing it leaves those. */
  lemma NetworkBack(w0: World, spec: Cluster, draws: seq<Draw>)
    requires Fits(w0, spec, draws)
    ensures Undo(w0.os, CreateNetwork, ViewBack(w0, spec, draws, 11)) == ViewBack(w0, spec, draws, 10)
  {
    if spec.isNAT && w0.os.Linux? {
      ReservationBack(w0, spec, draws);
    }
    assert CfgBack(w0, spec, draws, 11) == CfgBack(w0, spec, draws, 10);
    hide AllocOk, BootRef, AddHost, RemoveHost, Ensure, CfgBack, Reservation;
  }

  lemma ReservationBack(w0: World, spec: Cluster, draws: seq<Draw>)
    requires Fits(w0, spec, draws) && spec.isNAT && w0.os.Linux?
    ensures RemoveHost(NetAt(w0, spec, draws, 11), Reservation(EntryBack(w0, spec, draws, 11))) == Ensure(w0.net)
  {
    var r := Reservation(EntryAt(w0.mem, spec, draws, 11, ""));
    assert Reservation(EntryBack(w0, spec, draws, 11)) == r;
    hide AllocOk, Macs, IPs, Reservation;
    assert r !in Hosts(w0.net);
    WithoutAppend(Hosts(w0.net), r);
  }

  lemma VMsBack(w0: World, spec: Cluster, draws: seq<Draw>)
    requires Fits(w0, spec, draws)
    ensures Undo(w0.os, CreateMasterVMs, ViewBack(w0, spec, draws, 12)) == ViewBack(w0, spec, draws, 11)
  {
    var vm := VM(FirstOrEmpty(Macs(w0.mem, spec, draws)), BootRef(w0.os, spec.name));
    assert w0.vms[spec.name := vm] - {spec.name} == w0.vms;
    assert CfgBack(w0, spec, draws, 12) == CfgBack(w0, spec, draws, 11);
    assert Reservation(EntryAt(w0.mem, spec, draws, 12, "")) == Reservation(EntryAt(w0.mem, spec, draws, 11, ""));
    hide Macs, IPs, AllocOk, BootRef, CfgBack, AddHost, Ensure, Reservation;
  }

  lemma QuietBack(w0: World, spec: Cluster, draws: seq<Draw>, k: nat)
    requires 0 < k <= 18 && k !in {1, 2, 10, 11, 12, 18}
    ensures Undo(w0.os, Pipeline(w0.os)[k - 1], ViewBack(w0, spec, draws, k)) == ViewBack(w0, spec, draws, k)
    ensures ViewBack(w0, spec, draws, k) == ViewBack(w0, spec, draws, k - 1)
  {
    SameBack(w0, spec, draws, k);
    StagesDistinct(w0.os);
    var s := Pipeline(w0.os)[k - 1];
    assert Position(s) == k - 1;
    hide ViewBack, Pipeline;
  }

  lemma SameBack(w0: World, spec: Cluster, draws: seq<Draw>, k: nat)
    requires 0 < k <= 18 && k !in {1, 2, 10, 11, 12, 18}
    ensures ViewBack(w0, spec, draws, k) == ViewBack(w0, spec, draws, k - 1)
  {
    LevelsStable(w0, spec, draws, k - 1, BootRef(w0.os, spec.name));
    assert EntryBack(w0, spec, draws, k) == EntryBack(w0, spec, draws, k - 1);
    hide Macs, IPs, BootRef, EntryBack;
  }

  lemma NamedBack(w0: World, spec: Cluster, draws: seq<Draw>, k: nat)
    ensures ViewBack(w0, spec, draws, k).cur.name == spec.name
    ensures k == 11 || k == 12 ==> ViewBack(w0, spec, draws, k).cfg == ViewBack(w0, spec, draws, k - 1).cfg
  {
  }

  lemma OneBack(w0: World, spec: Cluster, draws: seq<Draw>, k: nat)
    requires Fits(w0, spec, draws) && 0 < k <= 18
    ensures Step(Step(Back(w0, spec, draws, k), UndoStage(true, true)), Erase) == Back(w0, spec, draws, k - 1)
  {
    hide Fits, Step, Back, ViewBack, Undo, UndoSaves, Pipeline;
    NamedBack(w0, spec, draws, k);
    NamedBack(w0, spec, draws, k - 1);
    OneViewBack(w0, spec, draws, k);
    StageBack(w0, spec, draws, k);
  }

  lemma OneViewBack(w0: World, spec: Cluster, draws: seq<Draw>, k: nat)
    requires Fits(w0, spec, draws) && 0 < k <= |Pipeline(w0.os)|
    ensures Undo(w0.os, Pipeline(w0.os)[k - 1], ViewBack(w0, spec, draws, k)) == ViewBack(w0, spec, draws, k - 1)
    ensures ViewBack(w0, spec, draws, k).cfg == ViewBack(w0, spec, draws, k - 1).cfg ||
            UndoSaves(Pipeline(w0.os)[k - 1])
  {
    WhichStage(w0.os, k);
    NamedBack(w0, spec, draws, k);
    hide Fits, ViewBack, Undo, Pipeline;
    if k == 1 { RegisterBack(w0, spec, draws); }
    else if k == 2 { AllocateBack(w0, spec, draws); }
    else if k == 10 { BootMediaBack(w0, spec, draws); }
    else if k == 11 { NetworkBack(w0, spec, draws); }
    else if k == 12 { VMsBack(w0, spec, draws); }
    else if k == 18 { FinalizeBack(w0, spec, draws); }
    else { QuietBack(w0, spec, draws, k); }
  }

  lemma WhichStage(os: OS, k: nat)
    requires 0 < k <= |Pipeline(os)|
    ensures k == 1 ==> Pipeline(os)[k - 1] == RegisterCluster
    ensures k == 2 ==> Pipeline(os)[k - 1] == AllocateNetwork
    ensures k == 10 ==> Pipeline(os)[k - 1] == if os.Darwin? then PublishPXEAssets else EmbedIgnitionISO
    ensures k == 11 ==> Pipeline(os)[k - 1] == CreateNetwork
    ensures k == 12 ==> Pipeline(os)[k - 1] == CreateMasterVMs
    ensures k == 18 ==> Pipeline(os)[k - 1] == Finalize
    ensures |Pipeline(os)| == 18
  {
  }

  /** After n rollbacks the delete of a finished cluster is exactly there. */
  lemma {:induction false} BackAt(w0: World, spec: Cluster, draws: seq<Draw>, n: nat)
    requires Fits(w0, spec, draws) && n <= 18
    ensures UndoneBy(Created(w0, spec, draws), spec.name, n) == Back(w0, spec, draws, 18 - n)
  {
    hide Step, Fits, Created, Back;
    if n == 0 {
      StartsBack(w0, spec, draws);
    } else {
      BackAt(w0, spec, draws, n - 1);
      OneBack(w0, spec, draws, 18 - n + 1);
    }
  }

  lemma StartsBack(w0: World, spec: Cluster, draws: seq<Draw>)
    requires Fits(w0, spec, draws)
    ensures Step(Created(w0, spec, draws), BeginDelete(spec.name, true)) == Back(w0, spec, draws, 18)
  {
    CreatedIs(w0, spec, draws);
    var ref := BootRef(w0.os, spec.name);
    BeginDeleteEffect(FinalWorld(w0, spec, draws), w0.mem.clusters, EntryAt(w0.mem, spec, draws, 18, ref));
    hide Step, Created, Macs, IPs, AllocOk, BootRef, Has, NetAt, VmsAt;
  }

  // ----- what a stopped delete leaves -----

  /** The same world with another boot reference in the last entry of config.json. */
  function Booted(w: World, boot: string): World
    requires w.mem.clusters != [] && w.mem == w.disk
  {
    var n := |w.mem.clusters| - 1;
    var m := w.mem.(clusters := w.mem.clusters[n := w.mem.clusters[n].(boot := boot)]);
    w.(mem := m, disk := m)
  }

  /** What is left when a process ends with the cluster at level k. */
  function LevelLeft(w0: World, spec: Cluster, draws: seq<Draw>, k: nat, boot: string): World
    requires k <= |Pipeline(w0.os)|
  {
    var cfg := CfgAt(w0.mem, spec, draws, k, boot);
    World(w0.os, cfg, cfg, RecsAt(w0, spec.name, k), NetAt(w0, spec, draws, k),
          VmsAt(w0, spec, draws, k, BootRef(w0.os, spec.name)), Idle)
  }

  /** A create stopped after k stages, in closed form. */
  lemma AheadAt(w0: World, spec: Cluster, draws: seq<Draw>, k: nat) returns (boot: string)
    requires CanStart(w0, spec) && AllocOk(w0.mem, spec, draws) && 1 <= k < 18
    ensures Step(CreateUpTo(w0, spec, draws, k), Crash) == LevelLeft(w0, spec, draws, k, boot)
    ensures w0.os.Linux? ==> boot == BootRef(w0.os, spec.name)
  {
    hide CanStart, AllocOk, CreateUpTo, Reached, LevelLeft, Step;
    var g := CleanAt(w0, spec, draws, k);
    boot := g.diskBoot;
    LevelIs(w0, spec, g, CreateUpTo(w0, spec, draws, k), draws);
  }

  lemma LevelIs(w0: World, spec: Cluster, g: At, w: World, draws: seq<Draw>)
    requires Reached(w0, spec, g, w) && w.proc.Applying? && !w.proc.done && !g.lost && 1 <= g.n == g.e < 18
    requires w.net == NetAt(w0, spec, g.draws, g.n) && w.vms == VmsAt(w0, spec, g.draws, g.n, g.vmBoot)
    requires g.n >= 2 ==> g.draws == draws
    ensures Step(w, Crash) == LevelLeft(w0, spec, draws, g.n, g.diskBoot)
    ensures w0.os.Linux? ==> g.diskBoot == BootRef(w0.os, spec.name)
  {
    if g.n == 1 {
      SameFirstLevel(w0, spec, g.draws, draws, g.diskBoot);
    }
    hide CfgAt, NetAt, VmsAt, RecsAt, NetOk, VmsOk, ApplyingAt, AllocOk, BootRef;
  }

  /** Before the addresses are drawn, the draws do not matter. */
  lemma SameFirstLevel(w0: World, spec: Cluster, a: seq<Draw>, b: seq<Draw>, boot: string)
    ensures CfgAt(w0.mem, spec, a, 1, boot) == CfgAt(w0.mem, spec, b, 1, boot)
    ensures NetAt(w0, spec, a, 1) == NetAt(w0, spec, b, 1)
    ensures forall vmBoot :: VmsAt(w0, spec, a, 1, vmBoot) == VmsAt(w0, spec, b, 1, vmBoot)
  {
  }

  /**
   Stopped before any stage it still has to roll back but finalize, the delete
   of a finished cluster leaves the world that a create stopped after the same
   stage leaves, beside the shared network; on macOS the command line stays too.
   */
  lemma Retraces(w0: World, spec: Cluster, draws: seq<Draw>, k: nat)
    requires FreshCreate(w0, spec) && AllocOk(w0.mem, spec, draws) && 1 <= k < 18
    ensures var left := Step(UndoneBy(Created(w0, spec, draws), spec.name, 18 - k), Crash);
            var ahead := Step(CreateUpTo(w0.(net := NetLeft(w0, spec)), spec, draws, k), Crash);
            && ahead.mem == ahead.disk && ahead.mem.clusters != []
            && (w0.os.Linux? ==> left == ahead)
            && (w0.os.Darwin? ==> left == Booted(ahead, BootRef(w0.os, spec.name)))
  {
    FreshFits(w0, spec, draws);
    var w0' := w0.(net := NetLeft(w0, spec));
    BackAt(w0, spec, draws, 18 - k);
    var boot := AheadAt(w0', spec, draws, k);
    LeftIs(w0, spec, draws, k, boot);
    hide FreshCreate, AllocOk, CreateUpTo, UndoneBy, LevelLeft, Back, Created, BootRef, Step, Fits;
  }

  lemma LeftIs(w0: World, spec: Cluster, draws: seq<Draw>, k: nat, boot: string)
    requires 1 <= k < 18 && (w0.os.Linux? ==> boot == BootRef(w0.os, spec.name))
    ensures var left := Step(Back(w0, spec, draws, k), Crash);
            var ahead := LevelLeft(w0.(net := NetLeft(w0, spec)), spec, draws, k, boot);
            && ahead.mem == ahead.disk && ahead.mem.clusters != []
            && (w0.os.Linux? ==> left == ahead)
            && (w0.os.Darwin? ==> left == Booted(ahead, BootRef(w0.os, spec.name)))
  {
    SameLevels(w0, spec, draws, k);
    EntryBooted(w0, spec, draws, k, boot);
    hide NetAt, VmsAt, EntryAt, EntryBack, NetBack, BootRef;
  }

  lemma EntryBooted(w0: World, spec: Cluster, draws: seq<Draw>, k: nat, boot: string)
    requires 1 <= k < 18
    ensures var ref := BootRef(w0.os, spec.name);
            var e := EntryAt(w0.mem, spec, draws, k, boot);
            && (w0.os.Darwin? ==> EntryBack(w0, spec, draws, k) == e.(boot := ref))
            && (w0.os.Linux? && boot == ref ==> EntryBack(w0, spec, draws, k) == e)
  {
  }

  lemma SameLevels(w0: World, spec: Cluster, draws: seq<Draw>, k: nat)
    requires k <= 18
    ensures var w0' := w0.(net := NetLeft(w0, spec));
            && NetAt(w0', spec, draws, k) == NetBack(w0, spec, draws, k)
            && forall boot :: VmsAt(w0', spec, draws, k, boot) == VmsAt(w0, spec, draws, k, boot)
  {
  }

  // ----- creating it again -----

  /** What a stopped delete leaves is a place that attempts to create the cluster can be in. */
  lemma LeftReached(w0: World, spec: Cluster, draws: seq<Draw>, k: nat) returns (g: At)
    requires Fits(w0, spec, draws) && 1 <= k < 18 && (w0.os.Linux? || k >= 10)
    ensures var w0', left := w0.(net := NetLeft(w0, spec)), Step(Back(w0, spec, draws, k), Crash);
            && left.proc.Idle? && CanStart(w0', spec) && Reached(w0', spec, g, left) && AllocOk(w0'.mem, spec, draws)
            && NoVM(w0', spec, g, left)
    ensures g.n == g.e == k && g.draws == draws && !g.lost
  {
    var ref := BootRef(w0.os, spec.name);
    g := At(draws, k, k, ref, ref, false);
    SameLevels(w0, spec, draws, k);
    EntryBooted(w0, spec, draws, k, ref);
    hide NetAt, EntryAt, EntryBack, NetBack, BootRef, AllocOk;
  }

  /**
   Undone by halves, the cluster comes back: after a delete that stopped between
   two stages, one undisturbed create, whatever it would draw, restores exactly
   the world with the finished cluster, its addresses, reservation, VM and
   records, if its addresses were not released yet.
   */
  lemma UndoneAndRedone(w0: World, spec: Cluster, draws: seq<Draw>, k: nat, other: seq<Draw>)
    requires FreshCreate(w0, spec) && AllocOk(w0.mem, spec, draws) && 2 <= k < 18 && (w0.os.Linux? || k >= 10)
    ensures var left := Step(UndoneBy(Created(w0, spec, draws), spec.name, 18 - k), Crash);
            var end := Undisturbed(left, spec, other, 18);
            Through(end) && Step(end, FinishCreate(true)) == Created(w0, spec, draws)
  {
    hide FreshCreate, AllocOk, UndoneBy, Back, Created, BootRef, Step, FinalWorld, Undisturbed, Fits;
    FreshFits(w0, spec, draws);
    BackAt(w0, spec, draws, 18 - k);
    CreatedIs(w0, spec, draws);
    BackAndAgain(w0, spec, draws, k, other);
  }

  lemma BackAndAgain(w0: World, spec: Cluster, draws: seq<Draw>, k: nat, other: seq<Draw>)
    requires Fits(w0, spec, draws) && 2 <= k < 18 && (w0.os.Linux? || k >= 10)
    ensures var end := Undisturbed(Step(Back(w0, spec, draws, k), Crash), spec, other, 18);
            Through(end) && Step(end, FinishCreate(true)) == FinalWorld(w0, spec, draws)
  {
    var g := LeftReached(w0, spec, draws, k);
    var w0' := w0.(net := NetLeft(w0, spec));
    var left := Step(Back(w0, spec, draws, k), Crash);
    hide Fits, AllocOk, Back, BootRef, Step, Reached, CanStart, NoVM, FinalWorld, Undisturbed, NetLeft;
    var g' := Redone(w0', spec, g, left, other);
    ThroughIsFinal(w0', spec, g', Undisturbed(left, spec, other, 18));
    SameEnd(w0, spec, draws);
  }

  lemma Redone(w0: World, spec: Cluster, g: At, w: World, draws: seq<Draw>) returns (g': At)
    requires CanStart(w0, spec) && Reached(w0, spec, g, w) && w.proc.Idle? && 2 <= g.e < 18 && NoVM(w0, spec, g, w)
    ensures Retry.AtStage(w0, spec, g', Undisturbed(w, spec, draws, 18), 18)
    ensures g'.draws == g.draws && g'.lost == g.lost
  {
    g' := NothingInTheWay(w0, spec, g, w, draws, 18);
  }

  /** An ensured network makes no difference to where a create ends. */
  lemma SameEnd(w0: World, spec: Cluster, draws: seq<Draw>)
    ensures FinalWorld(w0.(net := NetLeft(w0, spec)), spec, draws) == FinalWorld(w0, spec, draws)
  {
    SameLevels(w0, spec, draws, 18);
    hide NetAt, CfgAt, VmsAt, BootRef;
  }
}

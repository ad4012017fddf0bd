/**
 The cluster lifecycle as a state machine over one persisted world.

 A world holds config.json twice (in the memory of the running process and on
 disk), the state.json of every cluster, the shared NAT network, the master
 VMs, and where the current command is. Every step is one atomic action of
 app/runner.go, app/manager.go or app/natreset.go; Crash is process death (the
 next process reads memory back from disk), Abort is an error return after
 which the same process may go on to another command.
 */
module Lifecycle {
  import opened Text
  import opened Addresses
  import opened Model
  import opened NatReset

  datatype OS = Linux | Darwin

  datatype Stage =
    | RegisterCluster | AllocateNetwork | UpsertDNS | EnsureClusterDir
    | DownloadBinaries | DownloadRHCOS | BakeImageStore | GenerateSSHKey | GenerateIgnition
    | EmbedIgnitionISO | PublishPXEAssets
    | CreateNetwork | CreateMasterVMs | VerifyMasterIP | WaitForInstall
    | ApplyTLSCerts | MergeKubeconfig | InstallODF | Finalize

  /** buildStages: only the boot-media stage depends on the host OS. */
  function Pipeline(os: OS): (r: seq<Stage>)
    ensures |r| == 18
  {
    [RegisterCluster, AllocateNetwork, UpsertDNS, EnsureClusterDir,
     DownloadBinaries, DownloadRHCOS, BakeImageStore, GenerateSSHKey, GenerateIgnition,
     if os.Darwin? then PublishPXEAssets else EmbedIgnitionISO,
     CreateNetwork, CreateMasterVMs, VerifyMasterIP, WaitForInstall,
     ApplyTLSCerts, MergeKubeconfig, InstallODF, Finalize]
  }

  /** The stages recorded after the first n of the pipeline succeeded. */
  function Prefix(os: OS, n: nat): set<Stage>
    requires n <= |Pipeline(os)|
  {
    set s | s in Pipeline(os)[..n]
  }

  // ----- what stages do to memory, network and VMs -----

  /** What a stage reads and writes: its cluster, the config in memory, the network, the VMs. */
  datatype View = View(cur: Cluster, cfg: Cfg, net: Net, vms: map<string, VM>)
  {
    predicate Attached() {
      Has(cfg.clusters, cur.name)
    }

    /** Assigning fields of sc.Cluster, which config.json's list may point to. */
    function Set(c: Cluster): View {
      this.(cur := c, cfg := cfg.(clusters := Put(cfg.clusters, c)))
    }
  }

  function BootRef(os: OS, name: string): string {
    (if os.Darwin? then "cmdline:" else "iso:") + name
  }

  /** Clusters never share boot media, nor do the two systems, and none is nameless. */
  lemma BootRefInjective(a: OS, b: OS, x: string, y: string)
    ensures BootRef(a, x) != ""
    ensures BootRef(a, x) == BootRef(b, y) <==> a == b && x == y
  {
    var r, t := BootRef(a, x), BootRef(b, y);
    assert r[0] == if a.Darwin? then 'c' else 'i';
    assert t[0] == if b.Darwin? then 'c' else 'i';
    assert x == r[|r| - |x|..] && y == t[|t| - |y|..];
  }

  /** allocator.allocate followed by the rest of allocate-network's Apply in NAT mode. */
  function AllocateNAT(v: View, draws: seq<Draw>): (View, bool) {
    var m := AllocMACs(v.cfg.usedMACs, draws, v.cur.nodes);
    var v1 := v.(cfg := v.cfg.(usedMACs := m.used));
    if m.got.None? then (v1, false)
    else
      var v2 := v1.Set(v.cur.(macs := m.got.value));
      var p := AllocIPs(v2.cfg.usedIPs, v.cur.nodes);
      var v3 := v2.(cfg := v2.cfg.(usedIPs := p.used));
      if p.got.None? then (v3, false)
      else (v3.Set(v3.cur.(ips := p.got.value)), true)
  }

  function AllocateBridge(v: View): View {
    v.(cfg := v.cfg.(usedMACs := v.cfg.usedMACs + {v.cur.masterMAC}))
     .Set(v.cur.(macs := [v.cur.masterMAC], ips := [v.cur.masterIP]))
  }

  /** A stage's Apply: the view afterwards and whether it reached its end (or its Save). */
  function Apply(os: OS, s: Stage, draws: seq<Draw>, v: View): (View, bool) {
    match s
    case RegisterCluster =>
      if v.Attached() then (v, true)
      else
        var c := v.cur.(state := Creating);
        (v.(cur := c, cfg := v.cfg.(clusters := v.cfg.clusters + [c])), true)
    case AllocateNetwork =>
      if v.cur.macs != [] then (v, true)
      else if !v.cur.isNAT then (AllocateBridge(v), true)
      else AllocateNAT(v, draws)
    case EmbedIgnitionISO =>
      // StaticNetworkKeyfile needs both addresses.
      if PrimaryMAC(v.cur) == "" || PrimaryIP(v.cur) == "" then (v, false)
      else (v.Set(v.cur.(boot := BootRef(os, v.cur.name))), true)
    case PublishPXEAssets => (v.Set(v.cur.(boot := BootRef(os, v.cur.name))), true)
    case CreateNetwork =>
      if !v.cur.isNAT || os.Darwin? then (v, true)
      else (v.(net := AddHost(Ensure(v.net), Reservation(v.cur))), true)
    case CreateMasterVMs =>
      // virt-install refuses a name that is already defined; vfkit overwrites.
      if os.Linux? && v.cur.name in v.vms then (v, false)
      else (v.(vms := v.vms[v.cur.name := VM(FirstOrEmpty(v.cur.macs), v.cur.boot)]), true)
    case Finalize => (v.Set(v.cur.(state := Running)), true)
    case _ => (v, true)
  }

  /** Whether Apply ends with Config.Save on this view. */
  predicate Saves(s: Stage, v: View) {
    match s
    case RegisterCluster => !v.Attached()
    case AllocateNetwork => v.cur.macs == []
    case EmbedIgnitionISO => true
    case MergeKubeconfig => true
    case Finalize => true
    case _ => false
  }

  /** What a stage that fails part-way may already have done outside memory. */
  function PartialNet(os: OS, s: Stage, v: View): Net {
    if s == CreateNetwork && v.cur.isNAT && os.Linux? then Ensure(v.net) else v.net
  }

  /** A stage's Rollback when its provider calls succeed. */
  function Undo(os: OS, s: Stage, v: View): View {
    match s
    case RegisterCluster => v.(cfg := v.cfg.(clusters := Splice(v.cfg.clusters, v.cur.name)))
    case AllocateNetwork =>
      v.(cfg := v.cfg.(usedIPs := v.cfg.usedIPs - Elems(v.cur.ips), usedMACs := v.cfg.usedMACs - Elems(v.cur.macs)))
       .Set(v.cur.(ips := [], macs := []))
    case EmbedIgnitionISO => v.Set(v.cur.(boot := ""))
    case CreateNetwork =>
      if !v.cur.isNAT || os.Darwin? then v else v.(net := RemoveHost(v.net, Reservation(v.cur)))
    case CreateMasterVMs => v.(vms := v.vms - {v.cur.name})
    case Finalize => v.Set(v.cur.(state := Creating))
    case _ => v
  }

  predicate UndoSaves(s: Stage) {
    s in {RegisterCluster, AllocateNetwork, EmbedIgnitionISO, MergeKubeconfig, Finalize}
  }

  // ----- the world -----

  datatype Proc =
    | Idle
    | Failed                                                            // an error is on its way to the caller
    | Applying(cur: Cluster, rec: set<Stage>, k: nat, done: bool)       // done: stage k applied, not yet recorded
    | Undoing(cur: Cluster, rec: set<Stage>, k: nat,
        done: bool)        // stages k.. handled; done: stage k-1 undone, not yet erased
    | Resetting(plan: Plan, todo: seq<Action>)

  datatype World = World(
    os: OS,
    mem: Cfg,
    disk: Cfg,
    recs: map<string, set<Stage>>,   // state.json per cluster name; no entry, no file
    net: Net,
    vms: map<string, VM>,
    proc: Proc)

  /** loadState: no file, no stage. */
  function StagesOf(recs: map<string, set<Stage>>, name: string): set<Stage> {
    if name in recs then recs[name] else {}
  }

  function Recorded(w: World, name: string): set<Stage> {
    StagesOf(w.recs, name)
  }

  function ViewOf(w: World): View
    requires w.proc.Applying? || w.proc.Undoing?
  {
    View(w.proc.cur, w.mem, w.net, w.vms)
  }

  datatype Label =
    | BeginCreate(spec: Cluster)
    | DoStage(draws: seq<Draw>, saved: bool)
    | FailStage(partial: bool)
    | Record
    | Skip
    | FinishCreate(saved: bool)
    | BeginDelete(name: string, saved: bool)
    | UndoStage(ok: bool, saved: bool)
    | Erase
    | SkipUndo
    | FinishDelete(saved: bool)
    | Start(name: string, saved: bool)
    | Stop(name: string, saved: bool)
    | BeginReset(up: set<string>, force: bool)
    | ResetStep(saved: bool)
    | Crash
    | Abort

  /** applyDefaults and validateNew, for the fields of the model; commands leave the rest unset. */
  predicate NewSpec(c: Cluster) {
    && c.name != ""
    && c.nodes == 1
    && c.ips == [] && c.macs == [] && c.boot == "" && c.state == NoState
    && (if c.isNAT then c.masterMAC == "" && c.masterIP == "" else c.masterMAC != "" && c.masterIP != "")
  }

  function BeginCreateStep(w: World, spec: Cluster): (w': World)
    ensures w'.os == w.os
  {
    if spec.name == "" then w
    else
      match Find(w.mem.clusters, spec.name)
      case Some(c) =>
        if c.state == Running then w
        else w.(proc := Applying(c, Recorded(w, c.name), 0, false))
      case None =>
        if NewSpec(spec) && |w.mem.clusters| < CLUSTERS_MAX
        then w.(proc := Applying(spec, Recorded(w, spec.name), 0, false))
        else w
  }

  function DoStageStep(w: World, draws: seq<Draw>, saved: bool): (w': World)
    requires w.proc.Applying? && w.proc.k < |Pipeline(w.os)|
    ensures w'.os == w.os
  {
    var s := Pipeline(w.os)[w.proc.k];
    var v := ViewOf(w);
    var (v', ok) := Apply(w.os, s, draws, v);
    var w' := w.(mem := v'.cfg, net := v'.net, vms := v'.vms);
    if !ok || (Saves(s, v) && !saved) then w'.(proc := Failed)
    else w'.(disk := if Saves(s, v) then v'.cfg else w.disk, proc := Applying(v'.cur, w.proc.rec, w.proc.k, true))
  }

  function FailStageStep(w: World, partial: bool): (w': World)
    requires w.proc.Applying? && w.proc.k < |Pipeline(w.os)|
    ensures w'.os == w.os
  {
    var s := Pipeline(w.os)[w.proc.k];
    var v := ViewOf(w);
    if partial then
      w.(net := PartialNet(w.os, s, v), disk := if s == MergeKubeconfig then w.mem else w.disk, proc := Failed)
    else w.(proc := Failed)
  }

  function RecordStep(w: World): (w': World)
    requires w.proc.Applying? && w.proc.k < |Pipeline(w.os)|
    ensures w'.os == w.os
  {
    var rec := w.proc.rec + {Pipeline(w.os)[w.proc.k]};
    w.(recs := w.recs[w.proc.cur.name := rec], proc := Applying(w.proc.cur, rec, w.proc.k + 1, false))
  }

  function FinishCreateStep(w: World, saved: bool): (w': World)
    requires w.proc.Applying?
    ensures w'.os == w.os
  {
    if w.proc.cur.state == Running then w.(proc := Idle)
    else
      var m := w.mem.(clusters := Put(w.mem.clusters, w.proc.cur.(state := Running)));
      w.(mem := m, disk := if saved then m else w.disk, proc := Idle)
  }

  /** Start and Stop once their VM calls returned: the state changes in memory, then Save. */
  function SetStateStep(w: World, name: string, from: set<ClusterState>, to: ClusterState, saved: bool): (w': World)
    ensures w'.os == w.os
  {
    match Find(w.mem.clusters, name)
    case None => w
    case Some(c) =>
      if c.state !in from then w
      else
        var m := w.mem.(clusters := Put(w.mem.clusters, c.(state := to)));
        w.(mem := m, disk := if saved then m else w.disk)
  }

  function BeginDeleteStep(w: World, name: string, saved: bool): (w': World)
    ensures w'.os == w.os
  {
    match Find(w.mem.clusters, name)
    case None => w
    case Some(c) =>
      var w' := SetStateStep(w, name, {Running}, Stopped, saved);
      if c.state == Running && !saved then w'.(proc := Failed)
      else
        var cur := if c.state == Running then c.(state := Stopped) else c;
        w'.(proc := Undoing(cur, Recorded(w, name), |Pipeline(w.os)|, false))
  }

  function UndoStageStep(w: World, ok: bool, saved: bool): (w': World)
    requires w.proc.Undoing? && 0 < w.proc.k <= |Pipeline(w.os)|
    ensures w'.os == w.os
  {
    if !ok then w.(proc := Undoing(w.proc.cur, w.proc.rec, w.proc.k, true))
    else
      var s := Pipeline(w.os)[w.proc.k - 1];
      var v := Undo(w.os, s, ViewOf(w));
      w.(mem := v.cfg, net := v.net, vms := v.vms,
         disk := if UndoSaves(s) && saved then v.cfg else w.disk,
         recs := if s == EnsureClusterDir then w.recs - {w.proc.cur.name} else w.recs,
         proc := Undoing(v.cur, w.proc.rec, w.proc.k, true))
  }

  function EraseStep(w: World): (w': World)
    requires w.proc.Undoing? && 0 < w.proc.k <= |Pipeline(w.os)|
    ensures w'.os == w.os
  {
    var rec := w.proc.rec - {Pipeline(w.os)[w.proc.k - 1]};
    w.(recs := w.recs[w.proc.cur.name := rec], proc := Undoing(w.proc.cur, rec, w.proc.k - 1, false))
  }

  function FinishDeleteStep(w: World, saved: bool): (w': World)
    requires w.proc.Undoing?
    ensures w'.os == w.os
  {
    w.(recs := w.recs - {w.proc.cur.name}, disk := if saved then w.mem else w.disk, proc := Idle)
  }

  function BeginResetStep(w: World, up: set<string>, force: bool): (w': World)
    ensures w'.os == w.os
  {
    var plan := MakePlan(w.mem, w.net, up, force);
    if !plan.HasWork() || plan.blocked then w
    else w.(proc := Resetting(plan, Actions(plan, w.mem.clusters)))
  }

  function ResetStepStep(w: World, saved: bool): (w': World)
    requires w.proc.Resetting? && w.proc.todo != []
    ensures w'.os == w.os
  {
    var a := w.proc.todo[0];
    var w' := w.(net := ActOnNet(w.net, a));
    if a.Prune? then
      var m := PruneCfg(w.mem, w.proc.plan);
      w'.(mem := m, disk := if saved then m else w.disk, proc := Idle)
    else w'.(proc := Resetting(w.proc.plan, w.proc.todo[1..]))
  }

  /** One atomic action; an action that is not enabled changes nothing. */
  function Step(w: World, l: Label): (w': World)
    ensures w'.os == w.os
  {
    var stages := Pipeline(w.os);
    match l
    case BeginCreate(spec) => if w.proc.Idle? then BeginCreateStep(w, spec) else w
    case DoStage(draws, saved) =>
      if w.proc.Applying? && !w.proc.done && w.proc.k < |stages| && stages[w.proc.k] !in w.proc.rec
      then DoStageStep(w, draws, saved) else w
    case FailStage(partial) =>
      if w.proc.Applying? && !w.proc.done && w.proc.k < |stages| && stages[w.proc.k] !in w.proc.rec
      then FailStageStep(w, partial) else w
    case Record => if w.proc.Applying? && w.proc.done && w.proc.k < |stages| then RecordStep(w) else w
    case Skip =>
      if w.proc.Applying? && !w.proc.done && w.proc.k < |stages| && stages[w.proc.k] in w.proc.rec
      then w.(proc := Applying(w.proc.cur, w.proc.rec, w.proc.k + 1, false)) else w
    case FinishCreate(saved) => if w.proc.Applying? && w.proc.k == |stages| then FinishCreateStep(w, saved) else w
    case BeginDelete(name, saved) => if w.proc.Idle? then BeginDeleteStep(w, name, saved) else w
    case UndoStage(ok, saved) =>
      if w.proc.Undoing? && !w.proc.done && 0 < w.proc.k <= |stages| && stages[w.proc.k - 1] in w.proc.rec
      then UndoStageStep(w, ok, saved) else w
    case Erase => if w.proc.Undoing? && w.proc.done && 0 < w.proc.k <= |stages| then EraseStep(w) else w
    case SkipUndo =>
      if w.proc.Undoing? && !w.proc.done && 0 < w.proc.k <= |stages| && stages[w.proc.k - 1] !in w.proc.rec
      then w.(proc := Undoing(w.proc.cur, w.proc.rec, w.proc.k - 1, false)) else w
    case FinishDelete(saved) => if w.proc.Undoing? && w.proc.k == 0 then FinishDeleteStep(w, saved) else w
    case Start(name, saved) =>
      if w.proc.Idle? then SetStateStep(w, name, {NoState, Creating, Stopped}, Running, saved) else w
    case Stop(name, saved) => if w.proc.Idle? then SetStateStep(w, name, {Running}, Stopped, saved) else w
    case BeginReset(up, force) => if w.proc.Idle? then BeginResetStep(w, up, force) else w
    case ResetStep(saved) => if w.proc.Resetting? && w.proc.todo != [] then ResetStepStep(w, saved) else w
    case Crash => w.(mem := w.disk, proc := Idle)
    case Abort => w.(proc := Idle)
  }

  function Run(w: World, ls: seq<Label>): World {
    if ls == [] then w else Step(Run(w, ls[..|ls| - 1]), ls[|ls| - 1])
  }

  lemma RunSnoc(w: World, ls: seq<Label>, l: Label)
    ensures Run(w, ls + [l]) == Step(Run(w, ls), l)
  {
    assert (ls + [l])[..|ls|] == ls;
  }

  lemma {:induction false} RunAppend(w: World, a: seq<Label>, b: seq<Label>)
    ensures Run(w, a + b) == Run(Run(w, a), b)
  {
    if b == [] {
      assert a + b == a;
    } else {
      var n := |b| - 1;
      assert (a + b)[..|a + b| - 1] == a + b[..n];
      RunAppend(w, a, b[..n]);
    }
  }

  /** A fresh installation: LoadConfig's default, no network, no VM. */
  function Fresh(os: OS): World {
    World(os, Cfg([], {}, {}), Cfg([], {}, {}), map[], Absent, map[], Idle)
  }

  // ----- commands that meet no failure -----

  /** The next turn of the stage loop: a recorded stage is skipped, another one applied, saved and recorded. */
  function NextStage(w: World, draws: seq<Draw>): World {
    if w.proc.Applying? && w.proc.k < |Pipeline(w.os)| && Pipeline(w.os)[w.proc.k] in w.proc.rec then Step(w, Skip)
    else Step(Step(w, DoStage(draws, true)), Record)
  }

  /** The stage loop after j turns that no failure disturbs. */
  function Staged(w: World, draws: seq<Draw>, j: nat): World {
    if j == 0 then w else NextStage(Staged(w, draws, j - 1), draws)
  }

  /** A create after j such turns. */
  function Undisturbed(w: World, spec: Cluster, draws: seq<Draw>, j: nat): World {
    Staged(Step(w, BeginCreate(spec)), draws, j)
  }

  predicate Through(w: World) {
    w.proc.Applying? && w.proc.k == |Pipeline(w.os)|
  }

  /** A command that has failed, or has not begun, does not get on. */
  lemma NextStageIdle(w: World, draws: seq<Draw>)
    requires w.proc.Failed? || w.proc.Idle?
    ensures NextStage(w, draws) == w
  {
  }

  lemma {:induction false} StagedIdle(w: World, draws: seq<Draw>, i: nat, j: nat)
    requires i <= j && (Staged(w, draws, i).proc.Failed? || Staged(w, draws, i).proc.Idle?)
    ensures Staged(w, draws, j) == Staged(w, draws, i)
  {
    hide NextStage;
    if i < j {
      StagedIdle(w, draws, i, j - 1);
      NextStageIdle(Staged(w, draws, i), draws);
    }
  }

  /** Only allocate-network draws. */
  lemma SameWhateverDrawn(w: World, a: seq<Draw>, b: seq<Draw>, saved: bool)
    requires w.proc.Applying? && w.proc.k < |Pipeline(w.os)| && Pipeline(w.os)[w.proc.k] != AllocateNetwork
    ensures Step(w, DoStage(a, saved)) == Step(w, DoStage(b, saved))
  {
  }

  // ----- facts about the pipeline used throughout -----

  /** Stages that can fail, or whose save can, call no network or VM provider. */
  lemma FailingApply(os: OS, s: Stage, draws: seq<Draw>, v: View)
    requires !Apply(os, s, draws, v).1 || Saves(s, v)
    ensures Apply(os, s, draws, v).0.net == v.net && Apply(os, s, draws, v).0.vms == v.vms
  {
  }

  function Position(s: Stage): nat {
    match s
    case RegisterCluster => 0  case AllocateNetwork => 1  case UpsertDNS => 2  case EnsureClusterDir => 3
    case DownloadBinaries => 4  case DownloadRHCOS => 5  case BakeImageStore => 6  case GenerateSSHKey => 7
    case GenerateIgnition => 8  case EmbedIgnitionISO => 9  case PublishPXEAssets => 9  case CreateNetwork => 10
    case CreateMasterVMs => 11  case VerifyMasterIP => 12  case WaitForInstall => 13  case ApplyTLSCerts => 14
    case MergeKubeconfig => 15  case InstallODF => 16  case Finalize => 17
  }

  lemma StagesDistinct(os: OS)
    ensures forall i :: 0 <= i < |Pipeline(os)| ==> Position(Pipeline(os)[i]) == i
  {
  }

  lemma PrefixStep(os: OS, n: nat)
    requires n < |Pipeline(os)|
    ensures Pipeline(os)[n] !in Prefix(os, n)
    ensures Prefix(os, n + 1) == Prefix(os, n) + {Pipeline(os)[n]}
    ensures Prefix(os, n + 1) - {Pipeline(os)[n]} == Prefix(os, n)
  {
    StagesDistinct(os);
    assert Pipeline(os)[..n + 1] == Pipeline(os)[..n] + [Pipeline(os)[n]];
  }

  /** Membership in a prefix is position below its length. */
  lemma PrefixMember(os: OS, n: nat, i: nat)
    requires n <= |Pipeline(os)| && i < |Pipeline(os)|
    ensures Pipeline(os)[i] in Prefix(os, n) <==> i < n
  {
    StagesDistinct(os);
    if i < n {
      assert Pipeline(os)[..n][i] == Pipeline(os)[i];
    }
  }
}

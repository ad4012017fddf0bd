/**
 Resuming refines one clean run. However often a create is attempted, with
 stages failing and processes dying anywhere in between, the attempt that gets
 through ends in exactly the world one uninterrupted create would have reached
 with the MAC draws that were persisted; on macOS, if and only if no process
 ended while the kernel command line was recorded as published but not saved.
 */
module Resume {
  import opened Text
  import opened Addresses
  import opened Model
  import opened NatReset
  import opened Lifecycle
  import opened Records
  import opened RoundTrip

  // ----- the levels of an uninterrupted create, in closed form -----

  predicate AllocOk(base: Cfg, spec: Cluster, draws: seq<Draw>) {
    spec.isNAT ==> AllocMACs(base.usedMACs, draws, spec.nodes).got.Some? && AllocIPs(base.usedIPs, spec.nodes).got.Some?
  }

  function Macs(base: Cfg, spec: Cluster, draws: seq<Draw>): seq<string> {
    if !spec.isNAT then [spec.masterMAC] else AllocMACs(base.usedMACs, draws, spec.nodes).got.GetOr([])
  }

  function IPs(base: Cfg, spec: Cluster): seq<string> {
    if !spec.isNAT then [spec.masterIP] else AllocIPs(base.usedIPs, spec.nodes).got.GetOr([])
  }

  /** The cluster's entry at level e, with `boot` where boot media has been set. */
  function EntryAt(base: Cfg, spec: Cluster, draws: seq<Draw>, e: nat, boot: string): Cluster {
    spec.(state := if e >= 18 then Running else Creating,
          macs := if e >= 2 then Macs(base, spec, draws) else [],
          ips := if e >= 2 then IPs(base, spec) else [],
          boot := if e >= 10 then boot else "")
  }

  function CfgAt(base: Cfg, spec: Cluster, draws: seq<Draw>, e: nat, boot: string): Cfg {
    Cfg(if e >= 1 then base.clusters + [EntryAt(base, spec, draws, e, boot)] else base.clusters,
        if e >= 2 && spec.isNAT then AllocIPs(base.usedIPs, spec.nodes).used else base.usedIPs,
        if e < 2 then base.usedMACs
        else if spec.isNAT then AllocMACs(base.usedMACs, draws, spec.nodes).used
        else base.usedMACs + {spec.masterMAC})
  }

  function NetAt(w0: World, spec: Cluster, draws: seq<Draw>, e: nat): Net {
    if e >= 11 && spec.isNAT && w0.os.Linux?
    then AddHost(Ensure(w0.net), Reservation(EntryAt(w0.mem, spec, draws, e, ""))) else w0.net
  }

  function VmsAt(w0: World, spec: Cluster, draws: seq<Draw>, e: nat, boot: string): map<string, VM> {
    if e >= 12 then w0.vms[spec.name := VM(FirstOrEmpty(Macs(w0.mem, spec, draws)), boot)] else w0.vms
  }

  function RecsAt(w0: World, name: string, n: nat): map<string, set<Stage>>
    requires n <= |Pipeline(w0.os)|
  {
    if n == 0 then w0.recs else w0.recs[name := Prefix(w0.os, n)]
  }

  ghost predicate CanStart(w0: World, spec: Cluster) {
    && w0.proc.Idle? && w0.mem == w0.disk
    && NewSpec(spec) && !Has(w0.mem.clusters, spec.name) && |w0.mem.clusters| < CLUSTERS_MAX
    && spec.name !in w0.recs && spec.name !in w0.vms
  }

  // ----- where a sequence of attempts can be -----

  /** Ghost description: n stages recorded, config at level e (n or n + 1), boots on disk and in the VM. */
  datatype At = At(draws: seq<Draw>, n: nat, e: nat, diskBoot: string, vmBoot: string, lost: bool)

  ghost predicate NetOk(w0: World, spec: Cluster, g: At, net: Net) {
    || net == NetAt(w0, spec, g.draws, g.n)
    || net == NetAt(w0, spec, g.draws, g.n + 1)
    || (g.n == 10 && spec.isNAT && w0.os.Linux? && net == Ensure(w0.net))
  }

  ghost predicate VmsOk(w0: World, spec: Cluster, g: At, vms: map<string, VM>) {
    || vms == VmsAt(w0, spec, g.draws, g.n, g.vmBoot)
    || vms == VmsAt(w0, spec, g.draws, g.n + 1, g.vmBoot)
  }

  ghost predicate BootsOk(w0: World, spec: Cluster, g: At, p: Proc) {
    var ref := BootRef(w0.os, spec.name);
    (g.diskBoot == "" || g.diskBoot == ref) &&
    if g.lost then
      w0.os.Darwin? && g.n >= 10 && g.diskBoot == "" && (p.Applying? ==> p.cur.boot == "")
    else
      && (g.vmBoot == ref)
      && (w0.os.Linux? ==> g.diskBoot == ref)
      && (g.n >= 16 || (g.n == 15 && p.Applying? && p.done) || (p.Idle? && g.n >= 10) ==> g.diskBoot == ref)
      && (p.Applying? && (g.n >= 10 || (g.n == 9 && p.done)) ==> p.cur.boot == ref)
  }

  ghost predicate ApplyingAt(w0: World, spec: Cluster, g: At, w: World)
    requires w.proc.Applying? && g.n <= |Pipeline(w0.os)|
  {
    var p := w.proc;
    && p.rec == Prefix(w0.os, g.n) && p.k <= g.n
    && (p.done ==> p.k == g.n < 18 && g.e == g.n + 1
                   && w.net == NetAt(w0, spec, g.draws, g.n + 1) &&
                       w.vms == VmsAt(w0, spec, g.draws, g.n + 1, g.vmBoot))
    && (if g.e == 0 then p.cur == spec && w.mem == w0.mem
        else p.cur == EntryAt(w0.mem, spec, g.draws, g.e, p.cur.boot)
             && w.mem == CfgAt(w0.mem, spec, g.draws, g.e, p.cur.boot))
  }

  ghost predicate Reached(w0: World, spec: Cluster, g: At, w: World) {
    && g.n <= 18 && g.n <= g.e <= g.n + 1 && g.e <= 18
    && w.os == w0.os && w.recs == RecsAt(w0, spec.name, g.n)
    && (g.e >= 2 ==> AllocOk(w0.mem, spec, g.draws))
    && w.disk == CfgAt(w0.mem, spec, g.draws, g.e, g.diskBoot)
    && NetOk(w0, spec, g, w.net) && VmsOk(w0, spec, g, w.vms)
    && BootsOk(w0, spec, g, w.proc)
    && (w.proc.Idle? || w.proc.Failed? || w.proc.Applying?)
    && (w.proc.Idle? ==> w.mem == w.disk)
    && (w.proc.Applying? ==> ApplyingAt(w0, spec, g, w))
  }

  /** The labels of attempts to create spec: no in-process retry, no other command. */
  predicate Attempt(l: Label, spec: Cluster) {
    match l
    case BeginCreate(s) => s == spec
    case DoStage(_, _) => true
    case FailStage(_) => true
    case Record => true
    case Skip => true
    case FinishCreate(_) => true
    case Crash => true
    case _ => false
  }

  /** Boot media recorded as published, but config.json holds no command line. */
  predicate Unsaved(w: World, name: string) {
    && PublishPXEAssets in Recorded(w, name)
    && (exists i :: 0 <= i < |w.disk.clusters| && w.disk.clusters[i].name == name && w.disk.clusters[i].boot == "")
  }

  /** Whether some process of the run ended in that situation. */
  predicate LostRun(w0: World, ls: seq<Label>, name: string)
    decreases |ls|
  {
    ls != [] && (LostRun(w0, ls[..|ls| - 1], name) ||
                 (ls[|ls| - 1].Crash? && Unsaved(Run(w0, ls[..|ls| - 1]), name)))
  }

  // ----- levels that look alike -----

  /** Only register, allocate, boot media and finalize change config.json. */
  lemma CfgStable(base: Cfg, spec: Cluster, draws: seq<Draw>, n: nat, boot: string)
    requires n !in {0, 1, 9, 17} || (n == 9 && boot == "")
    ensures CfgAt(base, spec, draws, n, boot) == CfgAt(base, spec, draws, n + 1, boot)
    ensures EntryAt(base, spec, draws, n, boot) == EntryAt(base, spec, draws, n + 1, boot)
  {
  }

  /** Only create-network changes the network, only create-master-vms the VMs. */
  lemma LevelsStable(w0: World, spec: Cluster, draws: seq<Draw>, n: nat, boot: string)
    ensures n != 10 ==> NetAt(w0, spec, draws, n) == NetAt(w0, spec, draws, n + 1)
    ensures n != 11 ==> VmsAt(w0, spec, draws, n, boot) == VmsAt(w0, spec, draws, n + 1, boot)
  {
    assert Reservation(EntryAt(w0.mem, spec, draws, n, "")) ==
        Reservation(EntryAt(w0.mem, spec, draws, n + 1, "")) || n < 2;
  }

  lemma AllocatedSomething(base: Cfg, spec: Cluster, draws: seq<Draw>)
    requires NewSpec(spec) && AllocOk(base, spec, draws)
    ensures |Macs(base, spec, draws)| == 1 && Macs(base, spec, draws)[0] != ""
    ensures |IPs(base, spec)| == 1 && IPs(base, spec)[0] != ""
  {
    if spec.isNAT {
      AllocMACsFresh(base.usedMACs, draws, spec.nodes);
      AllocIPsFresh(base.usedIPs, spec.nodes);
      var m, p := Macs(base, spec, draws), IPs(base, spec);
      assert m[0] in m && p[0] in p;
      assert Generated(m[0]) && p[0] in Pool();
    }
  }

  lemma BootRefNonempty(os: OS, name: string)
    ensures BootRef(os, name) != ""
  {
    assert |BootRef(os, name)| >= 4;
  }

  /** Rewriting the entry of the cluster being created. */
  lemma PutEntry(base: Cfg, spec: Cluster, draws: seq<Draw>, e: nat, boot: string, c: Cluster)
    requires !Has(base.clusters, spec.name) && c.name == spec.name && e >= 1
    ensures Put(CfgAt(base, spec, draws, e, boot).clusters, c) == base.clusters + [c]
  {
    PutLast(base.clusters, EntryAt(base, spec, draws, e, boot), c);
  }

  // ----- one stage, from wherever the attempts are -----

  ghost predicate Working(w0: World, spec: Cluster, g: At, w: World) {
    && CanStart(w0, spec) && Reached(w0, spec, g, w)
    && w.proc.Applying? && !w.proc.done && w.proc.k == g.n < 18
  }

  /** A stage that came back with an error, or whose save failed, left nothing new behind. */
  lemma FailedStage(w0: World, spec: Cluster, g: At, w: World, draws: seq<Draw>, saved: bool)
    requires Working(w0, spec, g, w)
    requires DoStageStep(w, draws, saved).proc.Failed?
    ensures Reached(w0, spec, g, DoStageStep(w, draws, saved))
  {
    hide Apply, Saves, CfgAt, NetAt, VmsAt;
    FailingApply(w.os, Pipeline(w.os)[g.n], draws, ViewOf(w));
  }

  lemma RegisterAt(w0: World, spec: Cluster, g: At, w: World, draws: seq<Draw>)
    requires Working(w0, spec, g, w) && g.n == 0
    ensures DoStageStep(w, draws, true).proc.Applying?
    ensures Reached(w0, spec, g.(e := 1), DoStageStep(w, draws, true))
  {
    LevelsStable(w0, spec, g.draws, 0, g.vmBoot);
    if g.e == 1 {
      HasLast(w0.mem.clusters, EntryAt(w0.mem, spec, g.draws, 1, w.proc.cur.boot));
    }
  }

  /** Addresses that are already in the entry are kept; only a first allocation can run out of them. */
  lemma AllocateAt(w0: World, spec: Cluster, g: At, w: World, draws: seq<Draw>) returns (g': At)
    requires Working(w0, spec, g, w) && g.n == 1
    ensures g' == g.(e := 2, draws := if g.e == 2 then g.draws else draws)
    ensures DoStageStep(w, draws, true).proc.Failed? <==> g.e == 1 && !AllocOk(w0.mem, spec, draws)
    ensures !DoStageStep(w, draws, true).proc.Failed? ==> Reached(w0, spec, g', DoStageStep(w, draws, true))
  {
    g' := g.(e := 2, draws := if g.e == 2 then g.draws else draws);
    if g.e == 1 {
      FirstAllocation(w0, spec, g, w, draws);
    }
    if !DoStageStep(w, draws, true).proc.Failed? {
      var _ := AllocatedAt(w0, spec, g, w, draws);
    }
  }

  lemma FirstAllocation(w0: World, spec: Cluster, g: At, w: World, draws: seq<Draw>)
    requires Working(w0, spec, g, w) && g.n == 1 && g.e == 1
    ensures DoStageStep(w, draws, true).proc.Failed? <==> !AllocOk(w0.mem, spec, draws)
  {
    var v := ViewOf(w);
    assert Pipeline(w.os)[1] == AllocateNetwork;
    assert v.cur.macs == [] && v.cur.isNAT == spec.isNAT && v.cur.nodes == spec.nodes;
    assert v.cfg.usedMACs == w0.mem.usedMACs && v.cfg.usedIPs == w0.mem.usedIPs;
    AllocatesExact(v, draws);
  }

  lemma AllocatesExact(v: View, draws: seq<Draw>)
    requires v.cur.macs == []
    ensures Apply(Linux, AllocateNetwork, draws, v).1
            <==> (v.cur.isNAT ==> AllocMACs(v.cfg.usedMACs, draws, v.cur.nodes).got.Some?
                                  && AllocIPs(v.cfg.usedIPs, v.cur.nodes).got.Some?)
    ensures forall os: OS :: Apply(os, AllocateNetwork, draws, v) == Apply(Linux, AllocateNetwork, draws, v)
  {
  }

  lemma AllocatedAt(w0: World, spec: Cluster, g: At, w: World, draws: seq<Draw>) returns (g': At)
    requires Working(w0, spec, g, w) && g.n == 1
    requires !DoStageStep(w, draws, true).proc.Failed?
    ensures g' == g.(e := 2, draws := if g.e == 2 then g.draws else draws)
    ensures Reached(w0, spec, g', DoStageStep(w, draws, true))
  {
    if g.e == 2 {
      g' := g;
      AllocatedSomething(w0.mem, spec, g.draws);
      LevelsStable(w0, spec, g.draws, 1, g.vmBoot);
    } else {
      g' := g.(e := 2, draws := draws);
      var v := ViewOf(w);
      assert v.cfg == CfgAt(w0.mem, spec, g.draws, 1, v.cur.boot);
      assert v.cur.macs == [] && v.cfg.usedMACs == w0.mem.usedMACs && v.cfg.usedIPs == w0.mem.usedIPs;
      var (v', ok) := Apply(w.os, AllocateNetwork, draws, v);
      AllocateResult(v, draws);
      PutEntry(w0.mem, spec, g.draws, 1, v.cur.boot, v'.cur);
    }
  }

  /** What allocate-network leaves when it succeeds on a cluster without addresses. */
  lemma AllocateResult(v: View, draws: seq<Draw>)
    requires v.cur.macs == [] && Apply(Linux, AllocateNetwork, draws, v).1
    ensures var v' := Apply(Linux, AllocateNetwork, draws, v).0;
            && v'.net == v.net && v'.vms == v.vms
            && v'.cfg.clusters == Put(v.cfg.clusters, v'.cur)
            && (v.cur.isNAT ==>
                  var m, p := AllocMACs(v.cfg.usedMACs, draws, v.cur.nodes), AllocIPs(v.cfg.usedIPs, v.cur.nodes);
                  && m.got.Some? && p.got.Some?
                  && v'.cur == v.cur.(macs := m.got.value, ips := p.got.value)
                  && v'.cfg.usedMACs == m.used && v'.cfg.usedIPs == p.used)
  {
    if v.cur.isNAT {
      var m := AllocMACs(v.cfg.usedMACs, draws, v.cur.nodes);
      var c1 := v.cur.(macs := m.got.value);
      var v' := Apply(Linux, AllocateNetwork, draws, v).0;
      assert Put(Put(v.cfg.clusters, c1), v'.cur) == Put(v.cfg.clusters, v'.cur);
    }
  }

  /** On macOS the command line stays in memory; on Linux the volume path is saved. */
  lemma BootMediaAt(w0: World, spec: Cluster, g: At, w: World, draws: seq<Draw>) returns (g': At)
    requires Working(w0, spec, g, w) && g.n == 9
    ensures g' == g.(e := 10, diskBoot := g'.diskBoot)
    ensures DoStageStep(w, draws, true).proc.Applying?
    ensures Reached(w0, spec, g', DoStageStep(w, draws, true))
  {
    var ref := BootRef(w.os, spec.name);
    g' := g.(e := 10, diskBoot := if w.os.Darwin? && g.e == 9 then "" else g.diskBoot);
    CfgStable(w0.mem, spec, g.draws, 9, "");
    LevelsStable(w0, spec, g.draws, 9, g.vmBoot);
    BootRefNonempty(w.os, spec.name);
    PutEntry(w0.mem, spec, g.draws, g.e, w.proc.cur.boot, w.proc.cur.(boot := ref));
    assert w.proc.cur.(boot := ref) == EntryAt(w0.mem, spec, g.draws, 10, ref);
    AllocatedSomething(w0.mem, spec, g.draws);
    BootMediaEffect(w, draws);
    hide DoStageStep, AllocOk, Macs, IPs;
  }

  lemma BootMediaEffect(w: World, draws: seq<Draw>)
    requires w.proc.Applying? && w.proc.k == 9 && PrimaryMAC(w.proc.cur) != "" && PrimaryIP(w.proc.cur) != ""
    ensures var c := w.proc.cur.(boot := BootRef(w.os, w.proc.cur.name));
            var m := w.mem.(clusters := Put(w.mem.clusters, c));
            DoStageStep(w, draws, true) ==
            w.(mem := m, disk := if w.os.Linux? then m else w.disk, proc := Applying(c, w.proc.rec, 9, true))
  {
    hide Put, BootRef;
  }

  lemma NetworkAt(w0: World, spec: Cluster, g: At, w: World, draws: seq<Draw>)
    requires Working(w0, spec, g, w) && g.n == 10
    ensures DoStageStep(w, draws, true).proc.Applying?
    ensures Reached(w0, spec, g.(e := 11), DoStageStep(w, draws, true))
  {
    LevelsStable(w0, spec, g.draws, 10, g.vmBoot);
    CfgStable(w0.mem, spec, g.draws, 10, g.diskBoot);
    CfgStable(w0.mem, spec, g.draws, 10, w.proc.cur.boot);
    if spec.isNAT && w.os.Linux? {
      var r := Reservation(w.proc.cur);
      assert r == Reservation(EntryAt(w0.mem, spec, g.draws, 11, ""));
      AddTwice(w0.net, r);
    }
  }

  /** AddHost after EnsureNetwork absorbs whatever an earlier try already did. */
  lemma AddTwice(net: Net, r: DHCPHost)
    ensures Ensure(Ensure(net)) == Ensure(net)
    ensures var n := AddHost(Ensure(net), r); Ensure(n) == n && AddHost(n, r) == n
  {
    var n := AddHost(Ensure(net), r);
    if n != Ensure(net) {
      assert n.hosts[|n.hosts| - 1] == r;
      assert r in n.hosts && Clash(r, r);
    }
  }

  /** virt-install refuses the VM an earlier attempt made without recording it; vfkit makes it again. */
  lemma VMsAt(w0: World, spec: Cluster, g: At, w: World, draws: seq<Draw>) returns (g': At)
    requires Working(w0, spec, g, w) && g.n == 11
    ensures g' == g.(e := 12, vmBoot := w.proc.cur.boot)
    ensures DoStageStep(w, draws, true).proc.Failed? <==> w.os.Linux? && spec.name in w.vms
    ensures !DoStageStep(w, draws, true).proc.Failed? ==> Reached(w0, spec, g', DoStageStep(w, draws, true))
  {
    g' := g.(e := 12, vmBoot := w.proc.cur.boot);
    if !DoStageStep(w, draws, true).proc.Failed? {
      var _ := MadeVMsAt(w0, spec, g, w, draws);
    }
  }

  lemma MadeVMsAt(w0: World, spec: Cluster, g: At, w: World, draws: seq<Draw>) returns (g': At)
    requires Working(w0, spec, g, w) && g.n == 11
    requires !DoStageStep(w, draws, true).proc.Failed?
    ensures g' == g.(e := 12, vmBoot := w.proc.cur.boot)
    ensures Reached(w0, spec, g', DoStageStep(w, draws, true))
  {
    g' := g.(e := 12, vmBoot := w.proc.cur.boot);
    CfgStable(w0.mem, spec, g.draws, 11, g.diskBoot);
    CfgStable(w0.mem, spec, g.draws, 11, w.proc.cur.boot);
    LevelsStable(w0, spec, g.draws, 11, g.vmBoot);
    assert w.proc.cur.macs == Macs(w0.mem, spec, g.draws);
    var w' := DoStageStep(w, draws, true);
    assert w'.vms == VmsAt(w0, spec, g.draws, 12, g'.vmBoot);
  }

  lemma FinalizeAt(w0: World, spec: Cluster, g: At, w: World, draws: seq<Draw>)
    requires Working(w0, spec, g, w) && g.n == 17
    ensures DoStageStep(w, draws, true).proc.Applying?
    ensures Reached(w0, spec, g.(e := 18, diskBoot := w.proc.cur.boot), DoStageStep(w, draws, true))
  {
    LevelsStable(w0, spec, g.draws, 17, g.vmBoot);
    PutEntry(w0.mem, spec, g.draws, g.e, w.proc.cur.boot, w.proc.cur.(state := Running));
    assert w.proc.cur.(state := Running) == EntryAt(w0.mem, spec, g.draws, 18, w.proc.cur.boot);
  }

  lemma QuietAt(w0: World, spec: Cluster, g: At, w: World, draws: seq<Draw>)
    requires Working(w0, spec, g, w) && g.n !in {0, 1, 9, 10, 11, 17}
    ensures DoStageStep(w, draws, true).proc.Applying?
    ensures Reached(w0, spec, g.(e := g.n + 1, diskBoot := if g.n == 15 then w.proc.cur.boot else g.diskBoot),
                    DoStageStep(w, draws, true))
  {
    hide DoStageStep;
    QuietEffect(w, draws);
    LevelsStable(w0, spec, g.draws, g.n, g.vmBoot);
    CfgStable(w0.mem, spec, g.draws, g.n, g.diskBoot);
    CfgStable(w0.mem, spec, g.draws, g.n, w.proc.cur.boot);
  }

  lemma QuietEffect(w: World, draws: seq<Draw>)
    requires w.proc.Applying? && w.proc.k < 18 && w.proc.k !in {0, 1, 9, 10, 11, 17}
    ensures DoStageStep(w, draws, true) ==
              w.(disk := if w.proc.k == 15 then w.mem else w.disk,
                 proc := Applying(w.proc.cur, w.proc.rec, w.proc.k, true))
  {
    hide Apply, Saves;
    QuietIs(w.os, Pipeline(w.os)[w.proc.k], draws, ViewOf(w));
    StagesDistinct(w.os);
    assert Pipeline(w.os)[w.proc.k] == MergeKubeconfig <==> w.proc.k == 15;
  }

  lemma QuietIs(os: OS, s: Stage, draws: seq<Draw>, v: View)
    requires s !in {RegisterCluster, AllocateNetwork, EmbedIgnitionISO, PublishPXEAssets, CreateNetwork,
        CreateMasterVMs, Finalize}
    ensures Apply(os, s, draws, v) == (v, true) && (Saves(s, v) <==> s == MergeKubeconfig)
  {
  }

  /** The two errors a stage of an attempt can come back with: no address left, or the VM is there already. */
  ghost predicate Refused(w0: World, spec: Cluster, g: At, w: World, draws: seq<Draw>) {
    || (g.n == 1 && g.e == 1 && !AllocOk(w0.mem, spec, draws))
    || (g.n == 11 && w.os.Linux? && spec.name in w.vms)
  }

  /**
   Retry tolerance, exactly: from any world attempts can be in, the next stage
   is applied and reaches its level, unless the allocator is exhausted on the
   first allocation or virt-install meets a VM that was never recorded.
   */
  lemma RetryAt(w0: World, spec: Cluster, g: At, w: World, draws: seq<Draw>) returns (g': At)
    requires Working(w0, spec, g, w)
    ensures DoStageStep(w, draws, true).proc.Failed? <==> Refused(w0, spec, g, w, draws)
    ensures !Refused(w0, spec, g, w, draws) ==>
              && DoStageStep(w, draws, true).proc.Applying? && DoStageStep(w, draws, true).proc.done
              && Reached(w0, spec, g', DoStageStep(w, draws, true))
    ensures g'.n == g.n && g'.lost == g.lost && g'.draws == if g.n == 1 && g.e == 1 then draws else g.draws
  {
    assert g.n <= g.e <= g.n + 1;
    hide AllocOk, Reached, CanStart;
    if g.n == 0 { RegisterAt(w0, spec, g, w, draws); g' := g.(e := 1); }
    else if g.n == 1 { g' := AllocateAt(w0, spec, g, w, draws); }
    else if g.n == 9 { g' := BootMediaAt(w0, spec, g, w, draws); }
    else if g.n == 10 { NetworkAt(w0, spec, g, w, draws); g' := g.(e := 11); }
    else if g.n == 11 { g' := VMsAt(w0, spec, g, w, draws); }
    else if g.n == 17 { FinalizeAt(w0, spec, g, w, draws); g' := g.(e := 18, diskBoot := w.proc.cur.boot); }
    else {
      QuietAt(w0, spec, g, w, draws);
      g' := g.(e := g.n + 1, diskBoot := if g.n == 15 then w.proc.cur.boot else g.diskBoot);
    }
  }

  /** ... and with its save failing as well: a stage comes back applied or leaves nothing new behind. */
  lemma StageAt(w0: World, spec: Cluster, g: At, w: World, draws: seq<Draw>, saved: bool) returns (g': At)
    requires Working(w0, spec, g, w)
    ensures DoStageStep(w, draws, saved).proc.Failed?
            <==> Refused(w0, spec, g, w, draws) || (Saves(Pipeline(w.os)[g.n], ViewOf(w)) && !saved)
    ensures DoStageStep(w, draws, saved).proc.Failed? ==> g' == g
    ensures !DoStageStep(w, draws, saved).proc.Failed? ==> g'.draws == if g.n == 1 && g.e == 1 then draws else g.draws
    ensures g'.n == g.n && g'.lost == g.lost
    ensures Reached(w0, spec, g', DoStageStep(w, draws, saved))
  {
    var g1 := RetryAt(w0, spec, g, w, draws);
    hide Apply, AllocOk, Reached, CanStart, Saves;
    if DoStageStep(w, draws, saved).proc.Failed? {
      FailedStage(w0, spec, g, w, draws, saved);
      g' := g;
    } else {
      assert DoStageStep(w, draws, saved) == DoStageStep(w, draws, true);
      g' := g1;
    }
  }

  // ----- the other actions of an attempt -----

  lemma RecordAt(w0: World, spec: Cluster, g: At, w: World)
    requires CanStart(w0, spec) && Reached(w0, spec, g, w) && w.proc.Applying? && w.proc.done
    ensures Reached(w0, spec, g.(n := g.n + 1), RecordStep(w))
  {
    hide CfgAt, NetAt, VmsAt;
    PrefixStep(w0.os, g.n);
    var w' := RecordStep(w);
    assert w'.proc.rec == Prefix(w0.os, g.n + 1);
    assert w'.recs == RecsAt(w0, spec.name, g.n + 1);
  }

  /** A stage that fails part-way may have made the network, or saved config.json. */
  lemma FailEffect(w: World, partial: bool)
    requires w.proc.Applying? && w.proc.k < 18
    ensures FailStageStep(w, partial) ==
              w.(net := if partial && w.proc.k == 10 && w.proc.cur.isNAT && w.os.Linux? then Ensure(w.net) else w.net,
                 disk := if partial && w.proc.k == 15 then w.mem else w.disk,
                 proc := Failed)
  {
    hide Ensure;
    StagesDistinct(w.os);
    assert Pipeline(w.os)[w.proc.k] == MergeKubeconfig <==> w.proc.k == 15;
    assert Pipeline(w.os)[w.proc.k] == CreateNetwork <==> w.proc.k == 10;
  }

  lemma FailAt(w0: World, spec: Cluster, g: At, w: World, partial: bool) returns (g': At)
    requires Working(w0, spec, g, w)
    ensures g' == g.(diskBoot := g'.diskBoot)
    ensures Reached(w0, spec, g', FailStageStep(w, partial))
  {
    hide CfgAt, VmsAt, FailStageStep;
    g' := if partial && g.n == 15 then g.(diskBoot := w.proc.cur.boot) else g;
    FailEffect(w, partial);
    if g.n == 10 && spec.isNAT && w.os.Linux? {
      AddTwice(w0.net, Reservation(EntryAt(w0.mem, spec, g.draws, 11, "")));
    }
  }

  lemma FindEntry(w0: World, spec: Cluster, g: At, w: World)
    requires CanStart(w0, spec) && Reached(w0, spec, g, w) && w.proc.Idle?
    ensures Find(w.mem.clusters, spec.name) ==
              if g.e == 0 then None else Some(EntryAt(w0.mem, spec, g.draws, g.e, g.diskBoot))
  {
    if g.e > 0 {
      FindLast(w0.mem.clusters, EntryAt(w0.mem, spec, g.draws, g.e, g.diskBoot));
    }
  }

  lemma BeginAt(w0: World, spec: Cluster, g: At, w: World)
    requires CanStart(w0, spec) && Reached(w0, spec, g, w) && w.proc.Idle?
    ensures Reached(w0, spec, g, BeginCreateStep(w, spec))
  {
    FindEntry(w0, spec, g, w);
    assert Prefix(w0.os, 0) == {};
    assert Recorded(w, spec.name) == Prefix(w0.os, g.n);
  }

  lemma FinishAt(w0: World, spec: Cluster, g: At, w: World, saved: bool)
    requires CanStart(w0, spec) && Reached(w0, spec, g, w) && w.proc.Applying? && w.proc.k == 18
    ensures Reached(w0, spec, g, FinishCreateStep(w, saved))
    ensures FinishCreateStep(w, saved) == w.(proc := Idle)
  {
  }

  /** Dying in the macOS window, and only there, loses the command line. */
  lemma CrashAt(w0: World, spec: Cluster, g: At, w: World)
    requires CanStart(w0, spec) && Reached(w0, spec, g, w)
    ensures Reached(w0, spec, g.(lost := g.lost || Unsaved(w, spec.name)), Step(w, Crash))
    ensures g.lost ==> Unsaved(w, spec.name)
  {
    UnsavedExact(w0, spec, g, w);
    BootRefNonempty(w0.os, spec.name);
  }

  lemma UnsavedExact(w0: World, spec: Cluster, g: At, w: World)
    requires CanStart(w0, spec) && Reached(w0, spec, g, w)
    ensures Unsaved(w, spec.name) <==> w0.os.Darwin? && g.n >= 10 && g.diskBoot == ""
  {
    assert Prefix(w0.os, 0) == {};
    assert Recorded(w, spec.name) == Prefix(w0.os, g.n);
    if w0.os.Darwin? {
      PrefixMember(w0.os, g.n, 9);
      assert Pipeline(w0.os)[9] == PublishPXEAssets;
    } else {
      NoPublishOnLinux(w0.os, g.n);
    }
    if g.e >= 10 {
      var cs := w.disk.clusters;
      assert cs[|cs| - 1] == EntryAt(w0.mem, spec, g.draws, g.e, g.diskBoot);
      assert forall i :: 0 <= i < |cs| - 1 ==> cs[i] == w0.mem.clusters[i] && cs[i].name != spec.name;
    }
  }

  lemma NoPublishOnLinux(os: OS, n: nat)
    requires os.Linux? && n <= |Pipeline(os)|
    ensures PublishPXEAssets !in Prefix(os, n)
  {
    assert forall i :: 0 <= i < n ==> Pipeline(os)[..n][i] == Pipeline(os)[i] != PublishPXEAssets;
  }

  lemma AtWorking(w0: World, spec: Cluster, g: At, w: World)
    requires CanStart(w0, spec) && Reached(w0, spec, g, w)
    requires w.proc.Applying? && !w.proc.done && w.proc.k < |Pipeline(w.os)|
    ensures Pipeline(w.os)[w.proc.k] in w.proc.rec <==> w.proc.k < g.n
  {
    PrefixMember(w0.os, g.n, w.proc.k);
  }

  lemma SkipAt(w0: World, spec: Cluster, g: At, w: World)
    requires CanStart(w0, spec) && Reached(w0, spec, g, w) && w.proc.Applying? && !w.proc.done && w.proc.k < g.n
    ensures Reached(w0, spec, g, w.(proc := Applying(w.proc.cur, w.proc.rec, w.proc.k + 1, false)))
  {
  }

  lemma StepAt(w0: World, spec: Cluster, g: At, w: World, l: Label) returns (g': At)
    requires CanStart(w0, spec) && Reached(w0, spec, g, w) && Attempt(l, spec)
    ensures Reached(w0, spec, g', Step(w, l))
    ensures g'.lost <==> g.lost || (l.Crash? && Unsaved(w, spec.name))
  {
    hide BeginCreateStep, DoStageStep, FailStageStep, RecordStep, FinishCreateStep, Unsaved, NetOk, VmsOk, BootsOk;
    g' := g;
    if w.proc.Applying? && !w.proc.done && w.proc.k < |Pipeline(w.os)| {
      AtWorking(w0, spec, g, w);
    }
    match l
    case BeginCreate(_) => if w.proc.Idle? { BeginAt(w0, spec, g, w); }
    case DoStage(draws, saved) =>
      if w.proc.Applying? && !w.proc.done && w.proc.k == g.n < 18 { g' := StageAt(w0, spec, g, w, draws, saved); }
    case FailStage(partial) =>
      if w.proc.Applying? && !w.proc.done && w.proc.k == g.n < 18 { g' := FailAt(w0, spec, g, w, partial); }
    case Record =>
      if w.proc.Applying? && w.proc.done {
        RecordAt(w0, spec, g, w);
        g' := g.(n := g.n + 1);
      }
    case Skip => if w.proc.Applying? && !w.proc.done && w.proc.k < g.n { SkipAt(w0, spec, g, w); }
    case FinishCreate(saved) => if w.proc.Applying? && w.proc.k == 18 { FinishAt(w0, spec, g, w, saved); }
    case Crash =>
      CrashAt(w0, spec, g, w);
      g' := g.(lost := g.lost || Unsaved(w, spec.name));
  }

  lemma {:induction false} RunAt(w0: World, spec: Cluster, ls: seq<Label>) returns (g: At)
    requires CanStart(w0, spec) && forall l :: l in ls ==> Attempt(l, spec)
    ensures Reached(w0, spec, g, Run(w0, ls))
    ensures g.lost <==> LostRun(w0, ls, spec.name)
    decreases |ls|
  {
    hide Step, Unsaved;
    if ls == [] {
      g := At([], 0, 0, BootRef(w0.os, spec.name), BootRef(w0.os, spec.name), false);
    } else {
      var n := |ls| - 1;
      assert forall l :: l in ls[..n] ==> l in ls;
      g := RunAt(w0, spec, ls[..n]);
      g := StepAt(w0, spec, g, Run(w0, ls[..n]), ls[n]);
    }
  }

  // ----- the end of an attempt that gets through -----

  /** The whole world is determined by the draws once all stages are through and nothing was lost. */
  function FinalWorld(w0: World, spec: Cluster, draws: seq<Draw>): World {
    var ref := BootRef(w0.os, spec.name);
    var cfg := CfgAt(w0.mem, spec, draws, 18, ref);
    World(w0.os, cfg, cfg, RecsAt(w0, spec.name, 18), NetAt(w0, spec, draws, 18), VmsAt(w0, spec, draws, 18, ref), Idle)
  }

  lemma ThroughIsFinal(w0: World, spec: Cluster, g: At, w: World)
    requires CanStart(w0, spec) && Reached(w0, spec, g, w) && w.proc.Applying? && w.proc.k == 18
    ensures AllocOk(w0.mem, spec, g.draws)
    ensures !g.lost ==> Step(w, FinishCreate(true)) == FinalWorld(w0, spec, g.draws)
    ensures g.lost ==> forall draws :: Step(w, FinishCreate(true)) != FinalWorld(w0, spec, draws)
  {
    FinishAt(w0, spec, g, w, true);
    LevelsStable(w0, spec, g.draws, 18, g.vmBoot);
    if g.lost {
      forall draws ensures Step(w, FinishCreate(true)) != FinalWorld(w0, spec, draws) {
        BootRefNonempty(w0.os, spec.name);
        var n := |w0.mem.clusters|;
        assert w.disk.clusters[n].boot == "";
        assert FinalWorld(w0, spec, draws).disk.clusters[n].boot == BootRef(w0.os, spec.name);
      }
    }
  }

  lemma CleanStart(w0: World, spec: Cluster, draws: seq<Draw>) returns (g: At)
    requires CanStart(w0, spec)
    ensures var w := Step(w0, BeginCreate(spec));
            && Reached(w0, spec, g, w) && w.proc.Applying? && !w.proc.done && w.proc.k == g.n == g.e == 0
            && w.net == w0.net && w.vms == w0.vms && !g.lost
  {
    g := At(draws, 0, 0, BootRef(w0.os, spec.name), BootRef(w0.os, spec.name), false);
    assert Find(w0.mem.clusters, spec.name).None?;
    assert Reached(w0, spec, g, w0);
    BeginAt(w0, spec, g, w0);
    assert Step(w0, BeginCreate(spec)) == BeginCreateStep(w0, spec);
  }

  /** An uninterrupted create with enough addresses is at level j after j stages. */
  lemma {:induction false} CleanAt(w0: World, spec: Cluster, draws: seq<Draw>, j: nat) returns (g: At)
    requires CanStart(w0, spec) && AllocOk(w0.mem, spec, draws) && j <= 18
    ensures var w := CreateUpTo(w0, spec, draws, j);
            && Reached(w0, spec, g, w) && w.proc.Applying? && !w.proc.done && w.proc.k == j == g.n == g.e
            && w.net == NetAt(w0, spec, g.draws, j) && w.vms == VmsAt(w0, spec, g.draws, j, g.vmBoot)
    ensures !g.lost && (j >= 2 ==> g.draws == draws)
  {
    hide Step;
    if j == 0 {
      g := CleanStart(w0, spec, draws);
    } else {
      g := CleanAt(w0, spec, draws, j - 1);
      g := CleanStep(w0, spec, g, CreateUpTo(w0, spec, draws, j - 1), draws);
    }
  }

  lemma CleanStep(w0: World, spec: Cluster, g: At, w: World, draws: seq<Draw>) returns (g': At)
    requires Working(w0, spec, g, w) && g.e == g.n && AllocOk(w0.mem, spec, draws)
    requires w.vms == VmsAt(w0, spec, g.draws, g.n, g.vmBoot)
    ensures var w' := Step(Step(w, DoStage(draws, true)), Record);
            && Reached(w0, spec, g', w') && w'.proc.Applying? && !w'.proc.done && w'.proc.k == g'.n == g'.e == g.n + 1
            && w'.net == NetAt(w0, spec, g'.draws, g'.n) && w'.vms == VmsAt(w0, spec, g'.draws, g'.n, g'.vmBoot)
    ensures g'.lost == g.lost && g'.draws == if g.n == 1 then draws else g.draws
  {
    AtWorking(w0, spec, g, w);
    var w1 := DoStageStep(w, draws, true);
    assert Step(w, DoStage(draws, true)) == w1;
    g' := RetryAt(w0, spec, g, w, draws);
    RecordAt(w0, spec, g', w1);
    assert Step(w1, Record) == RecordStep(w1);
    g' := g'.(n := g.n + 1);
  }

  /**
   Any run of attempts to create one new cluster, at the moment an attempt is
   through all stages: finishing it gives exactly the world that an
   uninterrupted create ends in for some MAC draws, if and only if no process
   of the run ended with the command line published but unsaved.
   */
  lemma ResumeRefinesCleanRun(w0: World, spec: Cluster, ls: seq<Label>)
    requires CanStart(w0, spec) && forall l :: l in ls ==> Attempt(l, spec)
    requires Run(w0, ls).proc.Applying? && Run(w0, ls).proc.k == |Pipeline(w0.os)|
    ensures (exists draws :: AllocOk(w0.mem, spec, draws) &&
                 Step(Run(w0, ls), FinishCreate(true)) ==
                 Step(CreateUpTo(w0, spec, draws, |Pipeline(w0.os)|), FinishCreate(true)))
            <==> !LostRun(w0, ls, spec.name)
  {
    var g := RunAt(w0, spec, ls);
    ThroughIsFinal(w0, spec, g, Run(w0, ls));
    forall draws | AllocOk(w0.mem, spec, draws)
      ensures Step(CreateUpTo(w0, spec, draws, |Pipeline(w0.os)|), FinishCreate(true)) == FinalWorld(w0, spec, draws)
    {
      var c := CleanAt(w0, spec, draws, 18);
      ThroughIsFinal(w0, spec, c, CreateUpTo(w0, spec, draws, 18));
    }
  }

  /** On Linux nothing is ever lost. */
  lemma {:induction false} LinuxNeverLoses(w0: World, ls: seq<Label>, name: string)
    requires w0.os.Linux? && RecordsOk(w0)
    ensures !LostRun(w0, ls, name)
    decreases |ls|
  {
    if ls != [] {
      var n := |ls| - 1;
      LinuxNeverLoses(w0, ls[..n], name);
      var w := Run(w0, ls[..n]);
      RunRecords(w0, ls[..n]);
      OsKept(w0, ls[..n]);
      RecordedIsPrefix(w, name);
      var k :| 0 <= k <= |Pipeline(w.os)| && Recorded(w, name) == Prefix(w.os, k);
      NoPublishOnLinux(w.os, k);
    }
  }
}

/**
 Create followed by Delete is the identity on everything easyshift owns: the
 cluster list, the address marks, the reservations, state.json and the VMs,
 whether Create succeeded or failed at whatever stage.
 */
module RoundTrip {
  import opened Text
  import opened Addresses
  import opened Model
  import opened NatReset
  import opened Lifecycle
  import opened Safety
  import opened Records
  import opened Reservations

  // ----- the two commands, as runs of the state machine -----

  /** A create whose first j stages succeed and are recorded. */
  function CreateUpTo(w: World, spec: Cluster, draws: seq<Draw>, j: nat): World {
    if j == 0 then Step(w, BeginCreate(spec))
    else Step(Step(CreateUpTo(w, spec, draws, j - 1), DoStage(draws, true)), Record)
  }

  /** ... and which then finishes, or fails in its next stage; the process ends either way. */
  function CreateCommand(w: World, spec: Cluster, draws: seq<Draw>, j: nat, partial: bool): World {
    var w1 := CreateUpTo(w, spec, draws, j);
    Step(Step(w1, if j == |Pipeline(w.os)| then FinishCreate(true) else FailStage(partial)), Crash)
  }

  /** Runner.Rollback to its end, then the rest of Delete, no provider failing. */
  function RollbackLoop(w: World): World
    requires w.proc.Undoing? && !w.proc.done && w.proc.k <= |Pipeline(w.os)|
    decreases w.proc.k
  {
    if w.proc.k == 0 then Step(w, FinishDelete(true))
    else if Pipeline(w.os)[w.proc.k - 1] in w.proc.rec then
      RollbackLoop(EraseStep(UndoStageStep(w, true, true)))
    else RollbackLoop(Step(w, SkipUndo))
  }

  function DeleteCommand(w: World, name: string): World {
    var w1 := Step(w, BeginDelete(name, true));
    if w1.proc.Undoing? && !w1.proc.done && w1.proc.k <= |Pipeline(w1.os)| then Step(RollbackLoop(w1), Crash) else w1
  }

  // ----- the world in between -----

  /** What config.json looks like when j stages of creating `c` have been applied on top of `base`. */
  ghost predicate CfgMid(base: Cfg, cfg: Cfg, c: Cluster, j: nat) {
    && cfg.clusters == (if j >= 1 then base.clusters + [c] else base.clusters)
    && (j < 2 ==> c.ips == [] && c.macs == [])
    && c.nodes == 1 && (c.isNAT && j >= 2 ==> Addressed(c)) && (c.isNAT ==> c.masterMAC == "" && c.masterIP == "")
    && (!c.isNAT ==> c.masterMAC != "" && c.masterIP != "")
    && Elems(c.macs) !! base.usedMACs && Elems(c.ips) !! base.usedIPs
    && cfg.usedMACs == base.usedMACs + Elems(c.macs)
    && cfg.usedIPs == base.usedIPs + (if c.isNAT then Elems(c.ips) else {})
  }

  /** ... the network ... */
  predicate NetMid(os: OS, base: Net, net: Net, c: Cluster, j: nat) {
    && (base.Defined? ==> net.Defined? && net.start == base.start)
    && Hosts(net) == (if j >= 11 && c.isNAT && os.Linux? then Hosts(base) + [Reservation(c)] else Hosts(base))
    && (forall h :: h in Hosts(base) ==> h.hostname != MasterName(c.name))
    && (c.isNAT && j >= 2 ==> forall h :: h in Hosts(base) ==> !Clash(h, Reservation(c)))
  }

  /** ... and the VMs. */
  predicate VmsMid(base: map<string, VM>, vms: map<string, VM>, c: Cluster, j: nat) {
    c.name !in base && (if j >= 12 then vms - {c.name} == base else vms == base)
  }

  predicate SameEntry(a: Cluster, b: Cluster) {
    a == b.(boot := a.boot, state := a.state)
  }

  ghost predicate Mid(w: World, w1: World, c: Cluster, d: Cluster, j: nat) {
    && w1.os == w.os
    && CfgMid(w.mem, w1.mem, c, j) && CfgMid(w.mem, w1.disk, d, j) && SameEntry(c, d)
    && !Has(w.mem.clusters, c.name)
    && NetMid(w.os, w.net, w1.net, c, j)
    && VmsMid(w.vms, w1.vms, c, j)
    && c.name !in w.recs && w1.recs - {c.name} == w.recs
    && (!c.isNAT ==> c.masterMAC !in w.mem.usedMACs && c.masterIP !in w.mem.usedIPs)
  }

  lemma PutLast(base: seq<Cluster>, a: Cluster, b: Cluster)
    requires !Has(base, b.name) && a.name == b.name
    ensures Put(base + [a], b) == base + [b]
  {
    assert forall i :: 0 <= i < |base| ==> base[i].name != b.name;
  }

  lemma {:induction false} FindLast(base: seq<Cluster>, c: Cluster)
    requires !Has(base, c.name)
    ensures Find(base + [c], c.name) == Some(c)
  {
    if base != [] {
      assert base[0].name != c.name;
      assert (base + [c])[1..] == base[1..] + [c];
      assert forall i :: 0 < i < |base| ==> base[i] == base[1..][i - 1];
      FindLast(base[1..], c);
    }
  }

  lemma HasLast(base: seq<Cluster>, c: Cluster)
    ensures Has(base + [c], c.name)
  {
    assert (base + [c])[|base|] == c;
  }

  /** Freshly allocated addresses cannot clash with a reservation of a registered cluster. */
  lemma FreshReservation(base: Cfg, net: Net, c: Cluster)
    requires SafeList(base.clusters, base.usedIPs, base.usedMACs) && NoForeign(base.clusters, net)
    requires !Has(base.clusters, c.name)
    ensures forall h :: h in Hosts(net) ==> h.hostname != MasterName(c.name)
    ensures c.isNAT && c.masterIP == "" && Addressed(c)
            && Elems(c.macs) !! base.usedMACs && Elems(c.ips) !! base.usedIPs ==>
              forall h :: h in Hosts(net) ==> !Clash(h, Reservation(c))
  {
    forall h | h in Hosts(net) ensures h.hostname != MasterName(c.name) {
      var b :| b in base.clusters && b.isNAT && Addressed(b) && h == Reservation(b);
      if MasterName(b.name) == MasterName(c.name) {
        MasterNameInjective(b.name, c.name);
      }
    }
    if c.isNAT && c.masterIP == "" && Addressed(c) && Elems(c.macs) !! base.usedMACs && Elems(c.ips) !! base.usedIPs {
      forall h | h in Hosts(net) ensures !Clash(h, Reservation(c)) {
        var b :| b in base.clusters && b.isNAT && Addressed(b) && h == Reservation(b);
        assert OkCluster(b, base.usedIPs, base.usedMACs);
        assert c.macs[0] in Elems(c.macs) && c.ips[0] in Elems(c.ips);
        assert b.macs[0] in b.macs && b.ips[0] in b.ips;
      }
    }
  }

  // ----- forward -----

  /** The allocator is not exhausted. */
  ghost predicate Enough(base: Cfg, c: Cluster, draws: seq<Draw>) {
    c.isNAT ==> AllocMACs(base.usedMACs, draws, 1).got.Some? && AllocIPs(base.usedIPs, 1).got.Some?
  }

  ghost predicate Boundary(w: World, w1: World, d: Cluster, j: nat) {
    && j <= |Pipeline(w.os)|
    && w1.proc.Applying? && w1.proc == Applying(w1.proc.cur, Prefix(w.os, j), j, false)
    && Recorded(w1, w1.proc.cur.name) == Prefix(w.os, j)
    && (j == 0 ==> w1.proc.cur.name !in w1.recs)
    && Mid(w, w1, w1.proc.cur, d, j)
  }

  /** A stage applied and recorded, given what its Apply does. */
  lemma AppliedAndRecorded(w1: World, draws: seq<Draw>, v': View)
    requires w1.proc.Applying? && !w1.proc.done && w1.proc.k < |Pipeline(w1.os)|
    requires Pipeline(w1.os)[w1.proc.k] !in w1.proc.rec
    requires Apply(w1.os, Pipeline(w1.os)[w1.proc.k], draws, ViewOf(w1)) == (v', true) && v'.cur.name ==
        w1.proc.cur.name
    ensures var s := Pipeline(w1.os)[w1.proc.k];
            var rec := w1.proc.rec + {s};
            Step(Step(w1, DoStage(draws, true)), Record) ==
            World(w1.os, v'.cfg, if Saves(s, ViewOf(w1)) then v'.cfg else w1.disk, w1.recs[w1.proc.cur.name := rec],
                  v'.net, v'.vms, Applying(v'.cur, rec, w1.proc.k + 1, false))
  {
    var w2 := DoStageStep(w1, draws, true);
    assert Step(w1, DoStage(draws, true)) == w2;
    assert Step(w2, Record) == RecordStep(w2);
  }

  /** A successful stage: from the view it leaves to the next boundary. */
  lemma NextBoundary(w: World, w1: World, d: Cluster, draws: seq<Draw>, j: nat, v': View, d': Cluster)
    requires Boundary(w, w1, d, j) && j < |Pipeline(w.os)|
    requires Apply(w.os, Pipeline(w.os)[j], draws, ViewOf(w1)) == (v', true)
    requires v'.cur.name == w1.proc.cur.name && v'.cur.isNAT == w1.proc.cur.isNAT
    requires v'.cur.masterMAC == w1.proc.cur.masterMAC && v'.cur.masterIP == w1.proc.cur.masterIP
    requires CfgMid(w.mem, v'.cfg, v'.cur, j + 1)
    requires CfgMid(w.mem, if Saves(Pipeline(w.os)[j], ViewOf(w1)) then v'.cfg else w1.disk, d', j + 1)
    requires SameEntry(v'.cur, d')
    requires NetMid(w.os, w.net, v'.net, v'.cur, j + 1) && VmsMid(w.vms, v'.vms, v'.cur, j + 1)
    ensures var w2 := Step(Step(w1, DoStage(draws, true)), Record);
            Boundary(w, w2, d', j + 1) && w2.proc.cur == v'.cur
  {
    hide CfgMid, NetMid, VmsMid, Apply, Saves, Step, SameEntry;
    PrefixStep(w.os, j);
    AppliedAndRecorded(w1, draws, v');
    assert w1.recs[w1.proc.cur.name := Prefix(w.os, j + 1)] - {w1.proc.cur.name} == w1.recs - {w1.proc.cur.name};
  }

  lemma ForwardRegister(w: World, w1: World, d: Cluster, draws: seq<Draw>) returns (d': Cluster)
    requires Boundary(w, w1, d, 0)
    ensures Boundary(w, Step(Step(w1, DoStage(draws, true)), Record), d', 1)
  {
    d' := w1.proc.cur.(state := Creating);
    HasLast(w.mem.clusters, d');
    NextBoundary(w, w1, d, draws, 0, Apply(w.os, RegisterCluster, draws, ViewOf(w1)).0, d');
  }

  lemma AllocationAddressed(v: View, draws: seq<Draw>)
    requires v.cur.isNAT && v.cur.nodes == 1 && AllocateNAT(v, draws).1
    ensures var c := AllocateNAT(v, draws).0.cur;
            && |c.macs| == 1 && |c.ips| == 1 && Addressed(c)
            && c == v.cur.(macs := c.macs, ips := c.ips)
            && Elems(c.macs) !! v.cfg.usedMACs && Elems(c.ips) !! v.cfg.usedIPs
            && AllocateNAT(v, draws).0.cfg.usedMACs == v.cfg.usedMACs + Elems(c.macs)
            && AllocateNAT(v, draws).0.cfg.usedIPs == v.cfg.usedIPs + Elems(c.ips)
  {
    AllocMACsFresh(v.cfg.usedMACs, draws, 1);
    AllocIPsFresh(v.cfg.usedIPs, 1);
    var c := AllocateNAT(v, draws).0.cur;
    assert c.macs[0] in c.macs && c.ips[0] in c.ips;
    assert Generated(c.macs[0]);
    assert c.ips[0] in Pool();
  }

  lemma ForwardAllocate(w: World, w1: World, d: Cluster, draws: seq<Draw>) returns (d': Cluster)
    requires Boundary(w, w1, d, 1) && Enough(w.mem, w1.proc.cur, draws)
    requires SafeList(w.mem.clusters, w.mem.usedIPs, w.mem.usedMACs) && NoForeign(w.mem.clusters, w.net)
    ensures Boundary(w, Step(Step(w1, DoStage(draws, true)), Record), d', 2)
  {
    var v := ViewOf(w1);
    var cur := v.cur;
    assert Elems(cur.macs) == {} && Elems(cur.ips) == {};
    assert v.cfg.usedMACs == w.mem.usedMACs && v.cfg.usedIPs == w.mem.usedIPs;
    var v' := Apply(w.os, AllocateNetwork, draws, v).0;
    d' := v'.cur;
    if cur.isNAT {
      AllocationAddressed(v, draws);
      AllocateIsPut(v, draws);
      FreshReservation(w.mem, w.net, d');
    } else {
      assert Elems([cur.masterMAC]) == {cur.masterMAC};
      assert Elems([cur.masterIP]) == {cur.masterIP};
    }
    PutLast(w.mem.clusters, cur, d');
    assert CfgMid(w.mem, v'.cfg, d', 2) && NetMid(w.os, w.net, v'.net, d', 2) && VmsMid(w.vms, v'.vms, d', 2);
    hide Boundary, CfgMid, NetMid, VmsMid, AllocateNAT, SafeList, NoForeign, Enough;
    NextBoundary(w, w1, d, draws, 1, v', d');
  }

  lemma ForwardPlain(w: World, w1: World, d: Cluster, draws: seq<Draw>, j: nat) returns (d': Cluster)
    requires Boundary(w, w1, d, j) && (j == 9 || j == 17)
    ensures Boundary(w, Step(Step(w1, DoStage(draws, true)), Record), d', j + 1)
  {
    var v := ViewOf(w1);
    var s := Pipeline(w.os)[j];
    var c := if j == 9 then v.cur.(boot := BootRef(w.os, v.cur.name)) else v.cur.(state := Running);
    var v' := v.Set(c);
    assert Apply(w.os, s, draws, v) == (v', true);
    PutLast(w.mem.clusters, v.cur, c);
    d' := if Saves(s, v) then c else d;
    NextBoundary(w, w1, d, draws, j, v', d');
  }

  lemma ForwardNetwork(w: World, w1: World, d: Cluster, draws: seq<Draw>) returns (d': Cluster)
    requires Boundary(w, w1, d, 10)
    ensures Boundary(w, Step(Step(w1, DoStage(draws, true)), Record), d', 11)
  {
    d' := d;
    NextBoundary(w, w1, d, draws, 10, Apply(w.os, CreateNetwork, draws, ViewOf(w1)).0, d');
  }

  lemma ForwardVMs(w: World, w1: World, d: Cluster, draws: seq<Draw>) returns (d': Cluster)
    requires Boundary(w, w1, d, 11)
    ensures Boundary(w, Step(Step(w1, DoStage(draws, true)), Record), d', 12)
  {
    d' := d;
    var v' := Apply(w.os, CreateMasterVMs, draws, ViewOf(w1)).0;
    assert v'.vms - {w1.proc.cur.name} == w.vms;
    NextBoundary(w, w1, d, draws, 11, v', d');
  }

  lemma ForwardQuiet(w: World, w1: World, d: Cluster, draws: seq<Draw>, j: nat) returns (d': Cluster)
    requires Boundary(w, w1, d, j) && j < |Pipeline(w.os)| && Quiet(Pipeline(w.os)[j]) && j != 11
    ensures Boundary(w, Step(Step(w1, DoStage(draws, true)), Record), d', j + 1)
  {
    var s, v := Pipeline(w.os)[j], ViewOf(w1);
    QuietApply(w.os, s, draws, v);
    assert s != CreateMasterVMs;
    assert Apply(w.os, s, draws, v) == (v, true);
    assert j > 1 && j != 10;
    d' := if Saves(s, v) then v.cur else d;
    NextBoundary(w, w1, d, draws, j, v, d');
  }

  lemma ForwardStage(w: World, w1: World, d: Cluster, draws: seq<Draw>, j: nat) returns (d': Cluster)
    requires Boundary(w, w1, d, j) && j < |Pipeline(w.os)| && (j == 1 ==> Enough(w.mem, w1.proc.cur, draws))
    requires SafeList(w.mem.clusters, w.mem.usedIPs, w.mem.usedMACs) && NoForeign(w.mem.clusters, w.net)
    ensures Boundary(w, Step(Step(w1, DoStage(draws, true)), Record), d', j + 1)
  {
    if j == 0 { d' := ForwardRegister(w, w1, d, draws); }
    else if j == 1 { d' := ForwardAllocate(w, w1, d, draws); }
    else if j == 9 || j == 17 { d' := ForwardPlain(w, w1, d, draws, j); }
    else if j == 10 { d' := ForwardNetwork(w, w1, d, draws); }
    else if j == 11 { d' := ForwardVMs(w, w1, d, draws); }
    else { d' := ForwardQuiet(w, w1, d, draws, j); }
  }

  /** When a create of a new cluster can start. */
  ghost predicate FreshCreate(w: World, spec: Cluster) {
    && AddressSafe(w) && w.proc.Idle? && w.mem == w.disk && NoForeign(w.mem.clusters, w.net)
    && NewSpec(spec) && !Has(w.mem.clusters, spec.name) && |w.mem.clusters| < CLUSTERS_MAX
    && spec.name !in w.recs && spec.name !in w.vms
    && (!spec.isNAT ==> spec.masterMAC !in w.mem.usedMACs && spec.masterIP !in w.mem.usedIPs)
  }

  lemma StartBoundary(w: World, spec: Cluster)
    requires FreshCreate(w, spec)
    ensures Boundary(w, Step(w, BeginCreate(spec)), spec, 0)
  {
    assert Find(w.mem.clusters, spec.name).None?;
    assert Prefix(w.os, 0) == {};
    assert Elems([]) == {};
    FreshReservation(w.mem, w.net, spec);
  }

  lemma {:induction false} CreateBoundary(w: World, spec: Cluster, draws: seq<Draw>, j: nat) returns (d: Cluster)
    requires FreshCreate(w, spec) && j <= |Pipeline(w.os)| && (j >= 2 ==> Enough(w.mem, spec, draws))
    ensures Boundary(w, CreateUpTo(w, spec, draws, j), d, j)
    ensures var c := CreateUpTo(w, spec, draws, j).proc.cur; c.name == spec.name && c.isNAT == spec.isNAT
  {
    if j == 0 {
      StartBoundary(w, spec);
      d := spec;
    } else {
      d := CreateBoundary(w, spec, draws, j - 1);
      var w1 := CreateUpTo(w, spec, draws, j - 1);
      MemSafe(w);
      d := ForwardStage(w, w1, d, draws, j - 1);
      StageKeepsIdentity(w1, draws);
    }
  }

  lemma ApplyIdentity(os: OS, s: Stage, draws: seq<Draw>, v: View)
    ensures Apply(os, s, draws, v).0.cur.name == v.cur.name && Apply(os, s, draws, v).0.cur.isNAT == v.cur.isNAT
  {
  }

  lemma StageKeepsIdentity(w1: World, draws: seq<Draw>)
    requires w1.proc.Applying?
    requires var w2 := Step(Step(w1, DoStage(draws, true)), Record); w2.proc.Applying?
    ensures var w2 := Step(Step(w1, DoStage(draws, true)), Record);
            w2.proc.cur.name == w1.proc.cur.name && w2.proc.cur.isNAT == w1.proc.cur.isNAT
  {
    if w1.proc.k < |Pipeline(w1.os)| {
      ApplyIdentity(w1.os, Pipeline(w1.os)[w1.proc.k], draws, ViewOf(w1));
    }
  }

  // ----- backward -----

  ghost predicate UndoBoundary(w: World, w1: World, d: Cluster, j: nat) {
    && w1.proc.Undoing? && !w1.proc.done && j <= w1.proc.k <= |Pipeline(w.os)|
    && w1.proc.rec == Prefix(w.os, j)
    && Mid(w, w1, w1.proc.cur, d, j)
  }

  lemma ErasedRecs(w1: World)
    requires w1.proc.Undoing? && 0 < w1.proc.k <= |Pipeline(w1.os)|
    requires Undo(w1.os, Pipeline(w1.os)[w1.proc.k - 1], ViewOf(w1)).cur.name == w1.proc.cur.name
    ensures EraseStep(UndoStageStep(w1, true, true)).recs - {w1.proc.cur.name} == w1.recs - {w1.proc.cur.name}
  {
  }

  /** A rolled-back stage: from the view it leaves to the boundary before it. */
  lemma PreviousBoundary(w: World, w1: World, d: Cluster, j: nat, d': Cluster)
    requires UndoBoundary(w, w1, d, j) && 0 < j == w1.proc.k
    requires var s := Pipeline(w.os)[j - 1];
             var v' := Undo(w.os, s, ViewOf(w1));
             && v'.cur.name == w1.proc.cur.name
             && CfgMid(w.mem, v'.cfg, v'.cur, j - 1)
             && CfgMid(w.mem, if UndoSaves(s) then v'.cfg else w1.disk, d', j - 1) && SameEntry(v'.cur, d')
             && NetMid(w.os, w.net, v'.net, v'.cur, j - 1) && VmsMid(w.vms, v'.vms, v'.cur, j - 1)
             && v'.cur.isNAT == w1.proc.cur.isNAT
             && v'.cur.masterMAC == w1.proc.cur.masterMAC && v'.cur.masterIP == w1.proc.cur.masterIP
    ensures UndoBoundary(w, EraseStep(UndoStageStep(w1, true, true)), d', j - 1)
    ensures EraseStep(UndoStageStep(w1, true, true)).proc.k == j - 1
  {
    PrefixStep(w.os, j - 1);
    ErasedRecs(w1);
    var v' := Undo(w.os, Pipeline(w.os)[j - 1], ViewOf(w1));
    var w3 := EraseStep(UndoStageStep(w1, true, true));
    assert w3.proc == Undoing(v'.cur, Prefix(w.os, j - 1), j - 1, false);
    assert Mid(w, w3, v'.cur, d', j - 1);
  }

  lemma BackwardRegister(w: World, w1: World, d: Cluster) returns (d': Cluster)
    requires UndoBoundary(w, w1, d, 1) && w1.proc.k == 1
    ensures UndoBoundary(w, EraseStep(UndoStageStep(w1, true, true)), d', 0)
  {
    d' := w1.proc.cur;
    SpliceAppend(w.mem.clusters, d');
    PreviousBoundary(w, w1, d, 1, d');
  }

  lemma BackwardAllocate(w: World, w1: World, d: Cluster) returns (d': Cluster)
    requires UndoBoundary(w, w1, d, 2) && w1.proc.k == 2
    ensures UndoBoundary(w, EraseStep(UndoStageStep(w1, true, true)), d', 1)
  {
    d' := w1.proc.cur.(ips := [], macs := []);
    PutLast(w.mem.clusters, w1.proc.cur, d');
    assert Elems(d'.ips) == {} && Elems(d'.macs) == {};
    PreviousBoundary(w, w1, d, 2, d');
  }

  lemma BackwardPlain(w: World, w1: World, d: Cluster, j: nat) returns (d': Cluster)
    requires UndoBoundary(w, w1, d, j) && w1.proc.k == j && (j == 10 || j == 18)
    ensures UndoBoundary(w, EraseStep(UndoStageStep(w1, true, true)), d', j - 1)
  {
    var s, v := Pipeline(w.os)[j - 1], ViewOf(w1);
    if s == PublishPXEAssets {
      assert Undo(w.os, s, v) == v;
      d' := d;
    } else {
      d' := if j == 10 then v.cur.(boot := "") else v.cur.(state := Creating);
      assert Undo(w.os, s, v) == v.Set(d');
      PutLast(w.mem.clusters, v.cur, d');
    }
    PreviousBoundary(w, w1, d, j, d');
  }

  lemma BackwardNetwork(w: World, w1: World, d: Cluster) returns (d': Cluster)
    requires UndoBoundary(w, w1, d, 11) && w1.proc.k == 11
    ensures UndoBoundary(w, EraseStep(UndoStageStep(w1, true, true)), d', 10)
  {
    d' := d;
    if w1.proc.cur.isNAT && w.os.Linux? {
      WithoutAppend(Hosts(w.net), Reservation(w1.proc.cur));
    }
    PreviousBoundary(w, w1, d, 11, d');
  }

  lemma BackwardQuiet(w: World, w1: World, d: Cluster, j: nat) returns (d': Cluster)
    requires UndoBoundary(w, w1, d, j) && w1.proc.k == j > 0 && QuietUndo(Pipeline(w.os)[j - 1]) && j != 10
    ensures UndoBoundary(w, EraseStep(UndoStageStep(w1, true, true)), d', j - 1)
  {
    var s := Pipeline(w.os)[j - 1];
    QuietUndoApply(w.os, s, ViewOf(w1));
    assert j > 2 && j != 11;
    assert s == CreateMasterVMs <==> j == 12;
    d' := if UndoSaves(s) then w1.proc.cur else d;
    PreviousBoundary(w, w1, d, j, d');
  }

  lemma BackwardStage(w: World, w1: World, d: Cluster, j: nat) returns (d': Cluster)
    requires UndoBoundary(w, w1, d, j) && w1.proc.k == j > 0
    ensures UndoBoundary(w, EraseStep(UndoStageStep(w1, true, true)), d', j - 1)
  {
    if j == 1 { d' := BackwardRegister(w, w1, d); }
    else if j == 2 { d' := BackwardAllocate(w, w1, d); }
    else if j == 10 || j == 18 { d' := BackwardPlain(w, w1, d, j); }
    else if j == 11 { d' := BackwardNetwork(w, w1, d); }
    else { d' := BackwardQuiet(w, w1, d, j); }
  }

  /** Everything easyshift owns is as it was; an ensured shared network may remain. */
  predicate Restored(w: World, w': World) {
    && w' == w.(net := w'.net)
    && Hosts(w'.net) == Hosts(w.net)
    && (w.net.Defined? ==> w'.net == w.net)
  }

  lemma NothingLeft(w: World, w1: World, d: Cluster)
    requires UndoBoundary(w, w1, d, 0) && w1.proc.k == 0 && w.proc.Idle? && w.mem == w.disk
    ensures Restored(w, Step(w1, FinishDelete(true)))
  {
    assert Elems(w1.proc.cur.ips) == {} && Elems(w1.proc.cur.macs) == {};
    assert Step(w1, FinishDelete(true)) == FinishDeleteStep(w1, true);
  }

  lemma SkippedBoundary(w: World, w1: World, d: Cluster, j: nat)
    requires UndoBoundary(w, w1, d, j) && j < w1.proc.k
    ensures UndoBoundary(w, Step(w1, SkipUndo), d, j) && Step(w1, SkipUndo).proc.k == w1.proc.k - 1
  {
    PrefixMember(w.os, j, w1.proc.k - 1);
  }

  lemma {:induction false} RollbackRestores(w: World, w1: World, d: Cluster, j: nat)
    requires UndoBoundary(w, w1, d, j) && w.proc.Idle? && w.mem == w.disk
    ensures Restored(w, RollbackLoop(w1))
    decreases w1.proc.k
  {
    var k := w1.proc.k;
    if k == 0 {
      NothingLeft(w, w1, d);
    } else {
      PrefixMember(w.os, j, k - 1);
      if j == k {
        var d' := BackwardStage(w, w1, d, j);
        RollbackRestores(w, EraseStep(UndoStageStep(w1, true, true)), d', j - 1);
      } else {
        SkippedBoundary(w, w1, d, j);
        RollbackRestores(w, Step(w1, SkipUndo), d, j);
      }
    }
  }

  /** The process ended after j recorded stages, with whatever outcome. */
  ghost predicate Ended(w: World, w1: World, d: Cluster, j: nat) {
    && w1.proc.Idle? && w1.mem == w1.disk && j <= |Pipeline(w.os)|
    && Recorded(w1, d.name) == Prefix(w.os, j)
    && (j == 0 ==> d.name !in w1.recs)
    && Mid(w, w1, d, d, j)
  }

  lemma FinishedCreate(w: World, w1: World, d: Cluster) returns (d': Cluster)
    requires Boundary(w, w1, d, |Pipeline(w.os)|)
    ensures Ended(w, Step(Step(w1, FinishCreate(true)), Crash), d', |Pipeline(w.os)|)
    ensures d'.name == w1.proc.cur.name
  {
    var cur := w1.proc.cur;
    var w2 := FinishCreateStep(w1, true);
    assert Step(w1, FinishCreate(true)) == w2;
    if cur.state == Running {
      d' := d;
    } else {
      d' := cur.(state := Running);
      PutLast(w.mem.clusters, cur, d');
    }
    assert CfgMid(w.mem, w2.disk, d', |Pipeline(w.os)|);
  }

  /** A failed stage changes at most: the network exists now, or config.json was saved. */
  lemma PartialEffects(w1: World, partial: bool) returns (net': Net, saved: bool)
    requires w1.proc.Applying? && w1.proc.k < |Pipeline(w1.os)|
    ensures FailStageStep(w1, partial) ==
              w1.(net := net', disk := if saved then w1.mem else w1.disk, proc := Failed)
    ensures Hosts(net') == Hosts(w1.net) && (w1.net.Defined? ==> net' == w1.net)
  {
    net' := FailStageStep(w1, partial).net;
    saved := partial && Pipeline(w1.os)[w1.proc.k] == MergeKubeconfig;
  }

  lemma FailedCreate(w: World, w1: World, d: Cluster, j: nat, partial: bool) returns (d': Cluster)
    requires Boundary(w, w1, d, j) && j < |Pipeline(w.os)|
    ensures Ended(w, Step(Step(w1, FailStage(partial)), Crash), d', j)
    ensures d'.name == w1.proc.cur.name && d'.isNAT == w1.proc.cur.isNAT
  {
    PrefixStep(w.os, j);
    assert Step(w1, FailStage(partial)) == FailStageStep(w1, partial);
    var net', saved := PartialEffects(w1, partial);
    d' := if saved then w1.proc.cur else d;
    FailedEnd(w, w1, d, j, net', saved, d');
  }

  lemma FailedEnd(w: World, w1: World, d: Cluster, j: nat, net': Net, saved: bool, d': Cluster)
    requires Boundary(w, w1, d, j) && d' == (if saved then w1.proc.cur else d)
    requires Hosts(net') == Hosts(w1.net) && (w1.net.Defined? ==> net' == w1.net)
    ensures var disk' := if saved then w1.mem else w1.disk;
            Ended(w, w1.(net := net', mem := disk', disk := disk', proc := Idle), d', j)
  {
  }

  lemma EndOfCreate(w: World, w1: World, d: Cluster, j: nat, partial: bool) returns (d': Cluster)
    requires Boundary(w, w1, d, j)
    ensures Ended(w, Step(Step(w1, if j ==
        |Pipeline(w.os)| then FinishCreate(true) else FailStage(partial)), Crash), d', j)
    ensures d'.name == w1.proc.cur.name
  {
    if j == |Pipeline(w.os)| {
      d' := FinishedCreate(w, w1, d);
    } else {
      d' := FailedCreate(w, w1, d, j, partial);
    }
  }

  /** A delete of the last listed cluster: stopped, if it was running, and about to be rolled back. */
  lemma BeginDeleteEffect(w1: World, base: seq<Cluster>, d: Cluster)
    requires w1.proc.Idle? && w1.mem == w1.disk && w1.mem.clusters == base + [d] && !Has(base, d.name)
    ensures var d2 := if d.state == Running then d.(state := Stopped) else d;
            var m := w1.mem.(clusters := base + [d2]);
            Step(w1, BeginDelete(d.name, true)) ==
            w1.(mem := m, disk := m, proc := Undoing(d2, Recorded(w1, d.name), |Pipeline(w1.os)|, false))
  {
    FindLast(base, d);
    PutLast(base, d, d.(state := Stopped));
    hide Put, Find, Has, Pipeline;
    assert Step(w1, BeginDelete(d.name, true)) == BeginDeleteStep(w1, d.name, true);
  }

  /** Starting the delete of what a create left behind. */
  lemma DeleteStarts(w: World, w1: World, d: Cluster, j: nat) returns (d2: Cluster)
    requires Ended(w, w1, d, j) && 0 < j
    ensures var w2 := Step(w1, BeginDelete(d.name, true));
            && UndoBoundary(w, w2, d2, j) && Recorded(w2, d.name) == Prefix(w.os, j)
            && w2.proc.cur.name == d.name && w2.proc.cur.isNAT == d.isNAT
  {
    hide Step, Has;
    BeginDeleteEffect(w1, w.mem.clusters, d);
    d2 := if d.state == Running then d.(state := Stopped) else d;
    assert CfgMid(w.mem, w1.mem.(clusters := w.mem.clusters + [d2]), d2, j);
    assert NetMid(w.os, w.net, w1.net, d2, j) by { SameReservation(d, d2); }
  }

  lemma SameReservation(d: Cluster, d2: Cluster)
    requires SameEntry(d, d2)
    ensures Reservation(d) == Reservation(d2) && (Addressed(d) <==> Addressed(d2))
  {
  }

  /** A create that failed before registering left no cluster to delete, and nothing else. */
  lemma NothingToDelete(w: World, w1: World, d: Cluster)
    requires Ended(w, w1, d, 0) && w.proc.Idle? && w.mem == w.disk
    ensures Restored(w, w1) && DeleteCommand(w1, d.name) == w1
  {
    assert Elems(d.ips) == {} && Elems(d.macs) == {};
    assert Find(w1.mem.clusters, d.name).None?;
    assert w1.recs - {d.name} == w1.recs;
  }

  lemma DeleteRestores(w: World, w1: World, d: Cluster, j: nat)
    requires Ended(w, w1, d, j) && w.proc.Idle? && w.mem == w.disk
    ensures Restored(w, DeleteCommand(w1, d.name))
  {
    if j == 0 {
      NothingToDelete(w, w1, d);
    } else {
      var d2 := DeleteStarts(w, w1, d, j);
      RollbackRestores(w, Step(w1, BeginDelete(d.name, true)), d2, j);
    }
  }

  /**
   Create, however far it gets, then Delete: nothing is left of the cluster.
   The create may succeed (j == 18) or fail in stage j, with or without that
   stage's partial effects.
   */
  lemma CreateThenDelete(w: World, spec: Cluster, draws: seq<Draw>, j: nat, partial: bool)
    requires FreshCreate(w, spec) && j <= |Pipeline(w.os)| && (j >= 2 ==> Enough(w.mem, spec, draws))
    ensures Restored(w, DeleteCommand(CreateCommand(w, spec, draws, j, partial), spec.name))
  {
    var d := CreateBoundary(w, spec, draws, j);
    d := EndOfCreate(w, CreateUpTo(w, spec, draws, j), d, j, partial);
    DeleteRestores(w, CreateCommand(w, spec, draws, j, partial), d, j);
  }
}

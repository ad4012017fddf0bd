/**
 The stages that touch the modelled world, as they run: they write fields of
 the cluster object through the pointer the config's list may share, call
 providers that may fail, and save. Each is proved against Apply and Undo.
 (stages/registercluster, stages/allocatenetwork, stages/createnetwork,
 stages/createmastervms, stages/embedignitioniso, stages/publishpxeassets,
 stages/ensureclusterdir, stages/mergekubeconfig, stages/finalize.)
 */
module Stages {
  import opened Text
  import opened Addresses
  import opened Model
  import opened Lifecycle
  import opened Config
  import opened Allocator

  /** The host outside the process: state files, the shared network, the VMs. Any call may fail. */
  class Host {
    var StateFiles: map<string, set<Stage>>
    var Net: Net
    var VMs: map<string, VM>
    ghost var Trouble: bool   // some call or write has failed

    /** A call to a provider, a tool or the file system that changes nothing modelled. */
    method Call() returns (ok: bool)
      modifies this`Trouble
      ensures Trouble == (old(Trouble) || !ok)
    {
      ok := *;
      if !ok {
        Trouble := true;
      }
    }

    method EnsureNetwork() returns (ok: bool)
      modifies this`Net, this`Trouble
      ensures Net == if ok then Ensure(old(Net)) else old(Net)
      ensures Trouble == (old(Trouble) || !ok)
    {
      ok := Call();
      if ok {
        Net := Ensure(Net);
      }
    }

    method AddReservation(h: DHCPHost) returns (ok: bool)
      modifies this`Net, this`Trouble
      ensures Net == if ok then AddHost(old(Net), h) else old(Net)
      ensures Trouble == (old(Trouble) || !ok)
    {
      ok := Call();
      if ok {
        Net := AddHost(Net, h);
      }
    }

    method RemoveReservation(h: DHCPHost) returns (ok: bool)
      modifies this`Net, this`Trouble
      ensures Net == if ok then RemoveHost(old(Net), h) else old(Net)
      ensures Trouble == (old(Trouble) || !ok)
    {
      ok := Call();
      if ok {
        Net := RemoveHost(Net, h);
      }
    }

    /** virt-install refuses a defined name; vfkit overwrites. Either may fail otherwise. */
    method CreateVM(os: OS, name: string, vm: VM) returns (ok: bool, ghost refused: bool)
      modifies this`VMs, this`Trouble
      ensures refused == (os.Linux? && name in old(VMs))
      ensures refused ==> !ok
      ensures VMs == if ok then old(VMs)[name := vm] else old(VMs)
      ensures Trouble == (old(Trouble) || (!ok && !refused))
    {
      refused := os.Linux? && name in VMs;
      if os.Linux? && name in VMs {
        ok := false;
      } else {
        ok := Call();
        if ok {
          VMs := VMs[name := vm];
        }
      }
    }

    method DeleteVM(name: string) returns (ok: bool)
      modifies this`VMs, this`Trouble
      ensures VMs == if ok then old(VMs) - {name} else old(VMs)
      ensures Trouble == (old(Trouble) || !ok)
    {
      ok := Call();
      if ok {
        VMs := VMs - {name};
      }
    }

    /** os.RemoveAll of the cluster directory, which holds state.json. */
    method RemoveClusterDir(name: string) returns (ok: bool)
      modifies this`StateFiles, this`Trouble
      ensures StateFiles == if ok then old(StateFiles) - {name} else old(StateFiles)
      ensures Trouble == (old(Trouble) || !ok)
    {
      ok := Call();
      if ok {
        StateFiles := StateFiles - {name};
      }
    }
  }

  /** What came of running a stage's Apply, as the state machine's label says it. */
  ghost predicate Applied(os: OS, s: Stage, l: Label, v: View, file: Cfg, v': View, file': Cfg, ok: bool) {
    match l
    case DoStage(draws, saved) =>
      var (a, done) := Apply(os, s, draws, v);
      v' == a && ok == (done && (Saves(s, v) ==> saved)) && file' == if ok && Saves(s, v) then a.cfg else file
    case FailStage(partial) =>
      !ok && v' == v.(net := if partial then PartialNet(os, s, v) else v.net)
      && file' == if partial && s == MergeKubeconfig then v.cfg else file
    case _ => false
  }

  /** ... and of running its Rollback. */
  ghost predicate Undone(os: OS, s: Stage, l: Label, v: View, file: Cfg, v': View, file': Cfg) {
    match l
    case UndoStage(ok, saved) =>
      if ok then v' == Undo(os, s, v) && file' == if UndoSaves(s) && saved then v'.cfg else file
      else v' == v && file' == file
    case _ => false
  }

  class Context {
    const os: OS
    const cfg: Config
    const alloc: Allocator
    const host: Host

    constructor (os: OS, cfg: Config, alloc: Allocator, host: Host)
      requires alloc.cfg == cfg
      ensures this.os == os && this.cfg == cfg && this.alloc == alloc && this.host == host
    {
      this.os, this.cfg, this.alloc, this.host := os, cfg, alloc, host;
    }

    /** Some call or write has failed. */
    ghost predicate Trouble()
      reads cfg`Trouble, host`Trouble
    {
      cfg.Trouble || host.Trouble
    }

    /** The view the specification functions work on. */
    ghost function V(c: ClusterConfig): View
      reads cfg, cfg.Clusters, c, host
    {
      View(c.Value(), cfg.Memory(), host.Net, host.VMs)
    }

    ghost predicate Ready(c: ClusterConfig)
      reads cfg, cfg.Clusters, c
    {
      alloc.cfg == cfg && cfg.Valid() && cfg.Points(c)
    }

    method RegisterApply(c: ClusterConfig) returns (ok: bool, ghost l: Label)
      requires Ready(c)
      modifies cfg`Clusters, cfg`File, cfg`Trouble, c`State
      ensures Ready(c)
      ensures Applied(os, RegisterCluster, l, old(V(c)), old(cfg.File), V(c), cfg.File, ok)
      ensures (old(Trouble()) ==> Trouble()) && (!Trouble() ==> l == DoStage([], true))
    {
      hide Applied;
      RegisterIsApplied(os, V(c), cfg.File);
      var known := cfg.FindCluster(c.Name);
      if known != null {
        return true, DoStage([], true);
      }
      Enlist(c);
      ok := cfg.Save();
      l := DoStage([], ok);
    }

    method Enlist(c: ClusterConfig)
      requires Ready(c) && c !in cfg.Clusters
      modifies cfg`Clusters, c`State
      ensures Ready(c) && Values(cfg.Clusters) == old(Values(cfg.Clusters)) + [c.Value()]
      ensures c.Value() == old(c.Value()).(state := Creating)
    {
      ghost var before, listed := Values(cfg.Clusters), cfg.Clusters;
      c.State := Creating;
      cfg.Clusters := cfg.Clusters + [c];
      assert Values(cfg.Clusters) == before + [c.Value()];
      UniqueSnoc(before, c.Value());
      assert cfg.Clusters[|listed|] == c && c !in listed;
    }

    /** One field of the cluster object changes, and nothing else in memory. */
    lemma FieldWritten(c: ClusterConfig, before: seq<Cluster>, v: Cluster)
      requires alloc.cfg == cfg && |before| == |cfg.Clusters| && Unique(before) && c.Name == v.name
      requires Has(before, v.name) <==> c in cfg.Clusters
      requires forall i :: 0 <= i < |before| ==>
                 if cfg.Clusters[i] == c then before[i].name == v.name else before[i] == cfg.Clusters[i].Value()
      requires DistinctObjects(cfg.Clusters)
      requires c.Value() == v
      ensures Values(cfg.Clusters) == Put(before, v) && Ready(c)
    {
      PutByPointer(cfg.Clusters, c, v, before, Values(cfg.Clusters));
    }

    method AllocateApply(c: ClusterConfig) returns (ok: bool, ghost l: Label)
      requires Ready(c)
      modifies alloc`random, cfg`UsedIPs, cfg`UsedMACs, cfg`File, cfg`Trouble, c`MACAddresses, c`IPAddresses
      ensures Ready(c)
      ensures Applied(os, AllocateNetwork, l, old(V(c)), old(cfg.File), V(c), cfg.File, ok)
      ensures (old(Trouble()) ==> Trouble()) && (!Trouble() ==> l == DoStage(old(alloc.random), true))
    {
      ghost var draws := alloc.random;
      if |c.MACAddresses| > 0 {
        return true, DoStage(draws, true);
      }
      ghost var before := Values(cfg.Clusters);
      if !c.IsNAT {
        c.MACAddresses := [c.MasterMAC];
        c.IPAddresses := [c.MasterIP];
        cfg.UsedMACs := cfg.UsedMACs + {c.MasterMAC};
        FieldWritten(c, before, c.Value());
        ok := cfg.Save();
        l := DoStage(draws, ok);
      } else {
        AllocateFrame(V(c), draws);
        ok := alloc.Allocate(c);
        l := DoStage(draws, true);
        if ok {
          ok := cfg.Save();
          l := DoStage(draws, ok);
        }
      }
    }

    method BootMediaApply(c: ClusterConfig) returns (ok: bool, ghost l: Label)
      requires Ready(c)
      modifies cfg`File, cfg`Trouble, host`Trouble, c`Boot
      ensures Ready(c)
      ensures Applied(os, if os.Darwin? then PublishPXEAssets else EmbedIgnitionISO, l,
                      old(V(c)), old(cfg.File), V(c), cfg.File, ok)
      ensures (old(Trouble()) ==> Trouble()) && (!Trouble() ==> l == DoStage([], true))
    {
      ghost var before := Values(cfg.Clusters);
      if os.Linux? && (PrimaryMAC(c.Value()) == "" || PrimaryIP(c.Value()) == "") {
        return false, DoStage([], true);
      }
      var tools := host.Call();   // the installer, the file copies and the pool upload
      if !tools {
        return false, FailStage(false);
      }
      c.Boot := BootRef(os, c.Name);
      FieldWritten(c, before, c.Value());
      if os.Linux? {
        ok := cfg.Save();
        l := DoStage([], ok);
      } else {
        ok, l := true, DoStage([], true);
      }
    }

    method CreateNetworkApply(c: ClusterConfig) returns (ok: bool, ghost l: Label)
      requires Ready(c)
      modifies host`Net, host`Trouble
      ensures Ready(c)
      ensures Applied(os, CreateNetwork, l, old(V(c)), old(cfg.File), V(c), cfg.File, ok)
      ensures (old(Trouble()) ==> Trouble()) && (!Trouble() ==> l == DoStage([], true))
    {
      if !c.IsNAT || os.Darwin? {
        return true, DoStage([], true);
      }
      ok := host.EnsureNetwork();
      if !ok {
        return false, FailStage(false);
      }
      ok := host.AddReservation(Reservation(c.Value()));
      l := if ok then DoStage([], true) else FailStage(true);
    }

    method CreateVMsApply(c: ClusterConfig) returns (ok: bool, ghost l: Label)
      requires Ready(c)
      modifies host`VMs, host`Trouble
      ensures Ready(c)
      ensures Applied(os, CreateMasterVMs, l, old(V(c)), old(cfg.File), V(c), cfg.File, ok)
      ensures (old(Trouble()) ==> Trouble()) && (!Trouble() ==> l == DoStage([], true))
    {
      ghost var refused: bool;
      ok, refused := host.CreateVM(os, c.Name, VM(FirstOrEmpty(c.MACAddresses), c.Boot));
      l := if ok || refused then DoStage([], true) else FailStage(false);
    }

    method MergeKubeconfigApply(c: ClusterConfig) returns (ok: bool, ghost l: Label)
      requires Ready(c)
      modifies cfg`File, cfg`Trouble, host`Trouble
      ensures Ready(c)
      ensures Applied(os, MergeKubeconfig, l, old(V(c)), old(cfg.File), V(c), cfg.File, ok)
      ensures (old(Trouble()) ==> Trouble()) && (!Trouble() ==> l == DoStage([], true))
    {
      ok := cfg.Save();
      if !ok {
        return false, DoStage([], false);
      }
      ok := host.Call();   // the oc config commands
      l := if ok then DoStage([], true) else FailStage(true);
    }

    method FinalizeApply(c: ClusterConfig) returns (ok: bool, ghost l: Label)
      requires Ready(c)
      modifies cfg`File, cfg`Trouble, c`State
      ensures Ready(c)
      ensures Applied(os, Finalize, l, old(V(c)), old(cfg.File), V(c), cfg.File, ok)
      ensures (old(Trouble()) ==> Trouble()) && (!Trouble() ==> l == DoStage([], true))
    {
      ghost var before := Values(cfg.Clusters);
      c.State := Running;
      FieldWritten(c, before, c.Value());
      ok := cfg.Save();
      l := DoStage([], ok);
    }

    // ----- rollbacks -----

    /** The loop of register-cluster's Rollback: splice out the first entry with the name. */
    method Unlist(name: string)
      requires cfg.Valid()
      modifies cfg`Clusters
      ensures cfg.Valid() && Values(cfg.Clusters) == Splice(old(Values(cfg.Clusters)), name)
      ensures forall d :: d in cfg.Clusters ==> d in old(cfg.Clusters) && d.Name != name
    {
      ghost var before := Values(cfg.Clusters);
      var i := 0;
      while i < |cfg.Clusters| && cfg.Clusters[i].Name != name
        invariant 0 <= i <= |cfg.Clusters|
        invariant forall k :: 0 <= k < i ==> before[k].name != name
      {
        i := i + 1;
      }
      SpliceAt(before, name, i);
      SpliceMembers(before, name);
      if i < |cfg.Clusters| {
        CutOne(cfg.Clusters, i);
        cfg.Clusters := cfg.Clusters[..i] + cfg.Clusters[i + 1..];
      }
      forall d | d in cfg.Clusters ensures d.Name != name {
        ValueListed(cfg.Clusters, d);
      }
    }

    method RegisterRollback(c: ClusterConfig) returns (ghost l: Label)
      requires Ready(c)
      modifies cfg`Clusters, cfg`File, cfg`Trouble
      ensures Ready(c) && l.UndoStage?
      ensures forall d :: d in cfg.Clusters ==> d in old(cfg.Clusters)
      ensures Undone(os, RegisterCluster, l, old(V(c)), old(cfg.File), V(c), cfg.File)
      ensures (old(Trouble()) ==> Trouble()) && (!Trouble() ==> l == UndoStage(true, true))
    {
      SpliceMembers(Values(cfg.Clusters), c.Name);
      Unlist(c.Name);
      var ok := cfg.Save();
      l := UndoStage(true, ok);
    }

    method AllocateRollback(c: ClusterConfig) returns (ghost l: Label)
      requires Ready(c)
      modifies cfg`UsedIPs, cfg`UsedMACs, cfg`File, cfg`Trouble, c`MACAddresses, c`IPAddresses
      ensures Ready(c) && l.UndoStage?
      ensures Undone(os, AllocateNetwork, l, old(V(c)), old(cfg.File), V(c), cfg.File)
      ensures (old(Trouble()) ==> Trouble()) && (!Trouble() ==> l == UndoStage(true, true))
    {
      ghost var before := Values(cfg.Clusters);
      alloc.Release(c);
      c.IPAddresses, c.MACAddresses := [], [];
      FieldWritten(c, before, c.Value());
      var ok := cfg.Save();
      l := UndoStage(true, ok);
    }

    method BootMediaRollback(c: ClusterConfig) returns (ghost l: Label)
      requires Ready(c)
      modifies cfg`File, cfg`Trouble, c`Boot
      ensures Ready(c) && l.UndoStage?
      ensures Undone(os, if os.Darwin? then PublishPXEAssets else EmbedIgnitionISO, l,
                     old(V(c)), old(cfg.File), V(c), cfg.File)
      ensures (old(Trouble()) ==> Trouble()) && (!Trouble() ==> l == UndoStage(true, true))
    {
      if os.Darwin? {
        return UndoStage(true, true);
      }
      ghost var before := Values(cfg.Clusters);
      c.Boot := "";
      FieldWritten(c, before, c.Value());
      var ok := cfg.Save();
      l := UndoStage(true, ok);
    }

    method CreateNetworkRollback(c: ClusterConfig) returns (ghost l: Label)
      requires Ready(c)
      modifies host`Net, host`Trouble
      ensures Ready(c) && l.UndoStage?
      ensures Undone(os, CreateNetwork, l, old(V(c)), old(cfg.File), V(c), cfg.File)
      ensures (old(Trouble()) ==> Trouble()) && (!Trouble() ==> l == UndoStage(true, true))
    {
      if !c.IsNAT || os.Darwin? {
        return UndoStage(true, true);
      }
      var ok := host.RemoveReservation(Reservation(c.Value()));
      l := UndoStage(ok, true);
    }

    method CreateVMsRollback(c: ClusterConfig) returns (ghost l: Label)
      requires Ready(c)
      modifies host`VMs, host`Trouble
      ensures Ready(c) && l.UndoStage?
      ensures Undone(os, CreateMasterVMs, l, old(V(c)), old(cfg.File), V(c), cfg.File)
      ensures (old(Trouble()) ==> Trouble()) && (!Trouble() ==> l == UndoStage(true, true))
    {
      var ok := host.DeleteVM(c.Name);
      l := UndoStage(ok, true);
    }

    method MergeKubeconfigRollback(c: ClusterConfig) returns (ghost l: Label)
      requires Ready(c)
      modifies cfg`File, cfg`Trouble
      ensures Ready(c) && l.UndoStage?
      ensures Undone(os, MergeKubeconfig, l, old(V(c)), old(cfg.File), V(c), cfg.File)
      ensures (old(Trouble()) ==> Trouble()) && (!Trouble() ==> l == UndoStage(true, true))
    {
      var ok := cfg.Save();
      l := UndoStage(true, ok);
    }

    method FinalizeRollback(c: ClusterConfig) returns (ghost l: Label)
      requires Ready(c)
      modifies cfg`File, cfg`Trouble, c`State
      ensures Ready(c) && l.UndoStage?
      ensures Undone(os, Finalize, l, old(V(c)), old(cfg.File), V(c), cfg.File)
      ensures (old(Trouble()) ==> Trouble()) && (!Trouble() ==> l == UndoStage(true, true))
    {
      ghost var before := Values(cfg.Clusters);
      c.State := Creating;
      FieldWritten(c, before, c.Value());
      var ok := cfg.Save();
      l := UndoStage(true, ok);
    }
  }

  /** What register-cluster's Apply is to the state machine. */
  lemma RegisterIsApplied(os: OS, v: View, file: Cfg)
    ensures v.Attached() ==> Applied(os, RegisterCluster, DoStage([], true), v, file, v, file, true)
    ensures !v.Attached() ==>
      var c := v.cur.(state := Creating);
      var v' := v.(cur := c, cfg := v.cfg.(clusters := v.cfg.clusters + [c]));
      && Applied(os, RegisterCluster, DoStage([], true), v, file, v', v'.cfg, true)
      && Applied(os, RegisterCluster, DoStage([], false), v, file, v', file, false)
  {
  }

  lemma UniqueSnoc(cs: seq<Cluster>, c: Cluster)
    requires Unique(cs) && !Has(cs, c.name)
    ensures Unique(cs + [c]) && Has(cs + [c], c.name)
  {
    assert (cs + [c])[|cs|].name == c.name;
    assert forall i :: 0 <= i < |cs| ==> (cs + [c])[i] == cs[i] && cs[i].name != c.name;
  }

  /** Cutting out the first entry with the name. */
  lemma {:induction false} SpliceAt(cs: seq<Cluster>, name: string, i: nat)
    requires i <= |cs| && forall k :: 0 <= k < i ==> cs[k].name != name
    requires i < |cs| ==> cs[i].name == name
    ensures Splice(cs, name) == if i < |cs| then cs[..i] + cs[i + 1..] else cs[..i]
    ensures i == |cs| ==> cs[..i] == cs
  {
    if cs != [] && i > 0 {
      var rest := cs[1..];
      assert rest[i - 1..] == cs[i..];
      SpliceAt(rest, name, i - 1);
      SpliceRest(cs, i);
    }
  }

  lemma SpliceRest(cs: seq<Cluster>, i: nat)
    requires 0 < i <= |cs|
    ensures [cs[0]] + cs[1..][..i - 1] == cs[..i]
    ensures i < |cs| ==> [cs[0]] + (cs[1..][..i - 1] + cs[1..][i..]) == cs[..i] + cs[i + 1..]
  {
    assert i < |cs| ==> cs[1..][i..] == cs[i + 1..];
  }

  /** Allocation does not look at the network or the VMs. */
  lemma AllocateFrame(v: View, draws: seq<Draw>)
    ensures var (a, ok) := AllocateNAT(v.(net := Absent, vms := map[]), draws);
            AllocateNAT(v, draws) == (a.(net := v.net, vms := v.vms), ok)
  {
  }
}

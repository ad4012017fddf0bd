/**
 Address safety over every run: whatever commands are started, whichever
 stages or saves fail, wherever processes die, no two registered NAT clusters
 hold a common IP or MAC, and every address a registered NAT cluster holds is
 marked used, in memory and on disk alike.
 */
module Safety {
  import opened Text
  import opened Addresses
  import opened Model
  import opened NatReset
  import opened Lifecycle

  /** A bridge address no allocation can ever produce. */
  predicate OutsidePools(c: Cluster) {
    c.masterIP !in Pool() && !Generated(c.masterMAC)
  }

  ghost predicate OkCluster(c: Cluster, uips: set<string>, umacs: set<string>) {
    && c.nodes == 1 && |c.ips| <= 1 && |c.macs| <= 1
    && (if c.isNAT then
          && c.masterMAC == "" && c.masterIP == ""
          && (forall ip :: ip in c.ips ==> ip in Pool() && ip in uips)
          && (forall mac :: mac in c.macs ==> Generated(mac) && mac in umacs)
        else
          && OutsidePools(c)
          && (forall ip :: ip in c.ips ==> ip !in Pool())
          && (forall mac :: mac in c.macs ==> !Generated(mac)))
  }

  /** Two NAT clusters have no address in common. */
  predicate Disjoint(a: Cluster, b: Cluster) {
    a.isNAT && b.isNAT ==> Elems(a.ips) !! Elems(b.ips) && Elems(a.macs) !! Elems(b.macs)
  }

  ghost predicate SafeList(cs: seq<Cluster>, uips: set<string>, umacs: set<string>) {
    && Unique(cs)
    && (forall c :: c in cs ==> OkCluster(c, uips, umacs))
    && (forall a, b :: a in cs && b in cs && a.name != b.name ==> Disjoint(a, b))
  }

  // ----- one command's view -----

  /** Every cluster that matters while a command works: the list, plus its own cluster while unlisted. */
  function Live(cs: seq<Cluster>, cur: Cluster): seq<Cluster> {
    if Has(cs, cur.name) then cs else cs + [cur]
  }

  ghost predicate ViewOk(v: View) {
    && SafeList(Live(v.cfg.clusters, v.cur), v.cfg.usedIPs, v.cfg.usedMACs)
    && (v.Attached() ==> v.cur in v.cfg.clusters)
  }

  lemma UniqueName(cs: seq<Cluster>, a: Cluster, b: Cluster)
    requires Unique(cs) && a in cs && b in cs && a.name == b.name
    ensures a == b
  {
    var i :| 0 <= i < |cs| && cs[i] == a;
    var j :| 0 <= j < |cs| && cs[j] == b;
    assert !(i < j) && !(j < i);
  }

  lemma PutMembers(cs: seq<Cluster>, c: Cluster)
    ensures forall d :: d in Put(cs, c) <==> (d in cs && d.name != c.name) || (d == c && Has(cs, c.name))
    ensures forall n :: Has(Put(cs, c), n) <==> Has(cs, n)
    ensures Unique(cs) ==> Unique(Put(cs, c))
  {
    var r := Put(cs, c);
    assert forall i :: 0 <= i < |cs| ==> r[i].name == cs[i].name;
    forall d | d in cs && d.name != c.name ensures d in r {
      var i :| 0 <= i < |cs| && cs[i] == d;
      assert r[i] == d;
    }
    if Has(cs, c.name) {
      var i :| 0 <= i < |cs| && cs[i].name == c.name;
      assert r[i] == c;
    }
    forall n ensures Has(r, n) <==> Has(cs, n) {
      if Has(cs, n) {
        var i :| 0 <= i < |cs| && cs[i].name == n;
        assert r[i].name == n;
      }
    }
  }

  /** Rewriting the command's own cluster, with new marks, keeps the view safe. */
  lemma SetOk(v: View, c: Cluster, uips: set<string>, umacs: set<string>)
    requires ViewOk(v) && c.name == v.cur.name
    requires OkCluster(c, uips, umacs)
    requires forall d :: d in v.cfg.clusters && d.name != c.name ==> OkCluster(d, uips, umacs) && Disjoint(c, d)
    ensures ViewOk(v.(cfg := v.cfg.(usedIPs := uips, usedMACs := umacs)).Set(c))
  {
    var cs := v.cfg.clusters;
    PutMembers(cs, c);
    if !v.Attached() {
      assert Put(cs, c) == cs;
      UniqueAppend(cs, v.cur, c);
    }
  }

  /** The listed entries and the command's own cluster, one by one. */
  lemma LiveMembers(cs: seq<Cluster>, cur: Cluster)
    ensures forall d :: d in Live(cs, cur) <==> d in cs || (d == cur && !Has(cs, cur.name))
    ensures Unique(Live(cs, cur)) ==> Unique(cs)
  {
    var l := Live(cs, cur);
    assert forall i :: 0 <= i < |cs| ==> l[i] == cs[i];
    if !Has(cs, cur.name) {
      assert l[|cs|] == cur;
    }
  }

  lemma UniqueAppend(cs: seq<Cluster>, a: Cluster, b: Cluster)
    requires Unique(cs + [a]) && a.name == b.name
    ensures Unique(cs + [b])
  {
    assert forall i :: 0 <= i < |cs| + 1 ==> (cs + [b])[i].name == (cs + [a])[i].name;
  }

  lemma AllocateOk(v: View, draws: seq<Draw>)
    requires ViewOk(v) && v.cur.isNAT && v.cur.macs == []
    ensures ViewOk(AllocateNAT(v, draws).0)
  {
    var m := AllocMACs(v.cfg.usedMACs, draws, v.cur.nodes);
    AllocMACsFresh(v.cfg.usedMACs, draws, v.cur.nodes);
    assert v.cur in Live(v.cfg.clusters, v.cur);
    if m.got.None? {
      OthersDisjoint(v, v.cur, v.cfg.usedIPs, m.used);
      SetOk(v, v.cur, v.cfg.usedIPs, m.used);
      PutSame(v);
    } else {
      var c1 := v.cur.(macs := m.got.value);
      OthersDisjoint(v, c1, v.cfg.usedIPs, m.used);
      SetOk(v, c1, v.cfg.usedIPs, m.used);
      var v2 := v.(cfg := v.cfg.(usedMACs := m.used)).Set(c1);
      var p := AllocIPs(v2.cfg.usedIPs, v.cur.nodes);
      AllocIPsFresh(v2.cfg.usedIPs, v.cur.nodes);
      assert v2.cur in Live(v2.cfg.clusters, v2.cur);
      if p.got.None? {
        OthersDisjoint(v2, v2.cur, p.used, m.used);
        SetOk(v2, v2.cur, p.used, m.used);
        PutSame(v2);
      } else {
        var c2 := c1.(ips := p.got.value);
        OthersDisjoint(v2, c2, p.used, m.used);
        SetOk(v2, c2, p.used, m.used);
      }
    }
  }

  lemma PutSame(v: View)
    requires ViewOk(v)
    ensures Put(v.cfg.clusters, v.cur) == v.cfg.clusters
  {
    forall i | 0 <= i < |v.cfg.clusters| && v.cfg.clusters[i].name == v.cur.name
      ensures v.cfg.clusters[i] == v.cur
    {
      UniqueName(v.cfg.clusters, v.cfg.clusters[i], v.cur);
    }
  }

  /** Addresses that were unmarked before are held by no other cluster. */
  lemma OthersDisjoint(v: View, c: Cluster, uips: set<string>, umacs: set<string>)
    requires ViewOk(v) && c.name == v.cur.name && c.isNAT && v.cur.isNAT
    requires v.cfg.usedIPs <= uips && v.cfg.usedMACs <= umacs
    requires c.ips == v.cur.ips || Elems(c.ips) !! v.cfg.usedIPs
    requires c.macs == v.cur.macs || Elems(c.macs) !! v.cfg.usedMACs
    ensures forall d :: d in v.cfg.clusters && d.name != c.name ==> OkCluster(d, uips, umacs) && Disjoint(c, d)
  {
    assert v.cur in Live(v.cfg.clusters, v.cur);
    forall d | d in v.cfg.clusters && d.name != c.name
      ensures OkCluster(d, uips, umacs) && Disjoint(c, d)
    {
      assert d in Live(v.cfg.clusters, v.cur);
      assert Disjoint(v.cur, d);
      assert OkCluster(d, v.cfg.usedIPs, v.cfg.usedMACs);
      if d.isNAT {
        assert forall x :: x in Elems(d.ips) ==> x in v.cfg.usedIPs;
        assert forall x :: x in Elems(d.macs) ==> x in v.cfg.usedMACs;
      }
    }
  }

  /** Rewriting fields of the command's own cluster other than its addresses. */
  lemma SetPlainOk(v: View, c: Cluster)
    requires ViewOk(v)
    requires c == v.cur.(boot := c.boot, state := c.state)
    ensures ViewOk(v.Set(c))
  {
    LiveMembers(v.cfg.clusters, v.cur);
    assert OkCluster(v.cur, v.cfg.usedIPs, v.cfg.usedMACs);
    forall d | d in v.cfg.clusters && d.name != c.name ensures Disjoint(c, d) {
      assert Disjoint(v.cur, d);
    }
    SetOk(v, c, v.cfg.usedIPs, v.cfg.usedMACs);
  }

  lemma RegisterOk(v: View)
    requires ViewOk(v) && !v.Attached()
    ensures var c := v.cur.(state := Creating);
            ViewOk(v.(cur := c, cfg := v.cfg.(clusters := v.cfg.clusters + [c])))
  {
    var cs := v.cfg.clusters;
    var c := v.cur.(state := Creating);
    LiveMembers(cs, v.cur);
    UniqueAppend(cs, v.cur, c);
    var cs' := cs + [c];
    assert cs'[|cs|] == c;
    assert Live(cs', c) == cs';
    assert OkCluster(v.cur, v.cfg.usedIPs, v.cfg.usedMACs);
    forall d | d in cs && d.name != c.name ensures Disjoint(c, d) && Disjoint(d, c) {
      assert Disjoint(v.cur, d);
    }
  }

  lemma BridgeOk(v: View)
    requires ViewOk(v) && !v.cur.isNAT && v.cur.macs == []
    ensures ViewOk(AllocateBridge(v))
  {
    LiveMembers(v.cfg.clusters, v.cur);
    assert OkCluster(v.cur, v.cfg.usedIPs, v.cfg.usedMACs);
    SetOk(v, v.cur.(macs := [v.cur.masterMAC], ips := [v.cur.masterIP]),
          v.cfg.usedIPs, v.cfg.usedMACs + {v.cur.masterMAC});
  }

  lemma ApplyOk(os: OS, s: Stage, draws: seq<Draw>, v: View)
    requires ViewOk(v)
    ensures ViewOk(Apply(os, s, draws, v).0)
  {
    match s
    case RegisterCluster => if !v.Attached() { RegisterOk(v); }
    case AllocateNetwork =>
      if v.cur.macs == [] {
        if v.cur.isNAT {
          AllocateOk(v, draws);
        } else {
          BridgeOk(v);
        }
      }
    case EmbedIgnitionISO => SetPlainOk(v, v.cur.(boot := BootRef(os, v.cur.name)));
    case PublishPXEAssets => SetPlainOk(v, v.cur.(boot := BootRef(os, v.cur.name)));
    case Finalize => SetPlainOk(v, v.cur.(state := Running));
    case _ =>
  }

  lemma SetShape(v: View, c: Cluster)
    requires c.name == v.cur.name
    ensures v.Set(c).Attached() == v.Attached() && |v.Set(c).cfg.clusters| == |v.cfg.clusters|
  {
    PutMembers(v.cfg.clusters, c);
  }

  /** Apply never drops an entry, and adds one only to list the command's own cluster. */
  lemma ApplyShape(os: OS, s: Stage, draws: seq<Draw>, v: View)
    ensures var v' := Apply(os, s, draws, v).0;
            && v'.cur.name == v.cur.name
            && (if s == RegisterCluster && !v.Attached()
                then v'.Attached() && |v'.cfg.clusters| == |v.cfg.clusters| + 1
                else v'.Attached() == v.Attached() && |v'.cfg.clusters| == |v.cfg.clusters|)
  {
    match s
    case RegisterCluster =>
      if !v.Attached() {
        assert (v.cfg.clusters + [v.cur.(state := Creating)])[|v.cfg.clusters|].name == v.cur.name;
      }
    case AllocateNetwork =>
      if v.cur.macs == [] {
        if v.cur.isNAT {
          AllocateShape(v, draws);
        } else {
          var v1 := v.(cfg := v.cfg.(usedMACs := v.cfg.usedMACs + {v.cur.masterMAC}));
          SetShape(v1, v.cur.(macs := [v.cur.masterMAC], ips := [v.cur.masterIP]));
        }
      }
    case EmbedIgnitionISO => SetShape(v, v.cur.(boot := BootRef(os, v.cur.name)));
    case PublishPXEAssets => SetShape(v, v.cur.(boot := BootRef(os, v.cur.name)));
    case Finalize => SetShape(v, v.cur.(state := Running));
    case _ =>
  }

  lemma AllocateShape(v: View, draws: seq<Draw>)
    ensures var v' := AllocateNAT(v, draws).0;
            v'.cur.name == v.cur.name && v'.Attached() == v.Attached() && |v'.cfg.clusters| == |v.cfg.clusters|
  {
    var m := AllocMACs(v.cfg.usedMACs, draws, v.cur.nodes);
    var v1 := v.(cfg := v.cfg.(usedMACs := m.used));
    if m.got.Some? {
      var v2 := v1.Set(v.cur.(macs := m.got.value));
      SetShape(v1, v2.cur);
      var p := AllocIPs(v2.cfg.usedIPs, v.cur.nodes);
      if p.got.Some? {
        SetShape(v2.(cfg := v2.cfg.(usedIPs := p.used)), v2.cur.(ips := p.got.value));
      }
    }
  }

  /** Releasing one cluster's addresses takes no mark away from the others. */
  lemma ReleaseOk(v: View)
    requires ViewOk(v)
    ensures ViewOk(Undo(Linux, AllocateNetwork, v))
  {
    assert v.cur in Live(v.cfg.clusters, v.cur);
    var ui := v.cfg.usedIPs - Elems(v.cur.ips);
    var um := v.cfg.usedMACs - Elems(v.cur.macs);
    var c := v.cur.(ips := [], macs := []);
    forall d | d in v.cfg.clusters && d.name != c.name ensures OkCluster(d, ui, um) && Disjoint(c, d) {
      assert d in Live(v.cfg.clusters, v.cur);
      assert Disjoint(v.cur, d);
      if d.isNAT {
        forall x | x in d.ips ensures x !in Elems(v.cur.ips) { assert x in Elems(d.ips); }
        forall x | x in d.macs ensures x !in Elems(v.cur.macs) { assert x in Elems(d.macs); }
      }
    }
    SetOk(v, c, ui, um);
  }

  lemma UnregisterOk(v: View)
    requires ViewOk(v)
    ensures ViewOk(v.(cfg := v.cfg.(clusters := Splice(v.cfg.clusters, v.cur.name))))
    ensures |Splice(v.cfg.clusters, v.cur.name)| <= |v.cfg.clusters|
  {
    var cs := v.cfg.clusters;
    LiveMembers(cs, v.cur);
    SpliceMembers(cs, v.cur.name);
    var r := Splice(cs, v.cur.name);
    LiveMembers(r, v.cur);
    assert forall i :: 0 <= i < |r| ==> r[i] in r;
    assert Unique(r + [v.cur]);
  }

  lemma UndoOk(os: OS, s: Stage, v: View)
    requires ViewOk(v)
    ensures ViewOk(Undo(os, s, v))
    ensures Undo(os, s, v).cur.name == v.cur.name
    ensures |Undo(os, s, v).cfg.clusters| <= |v.cfg.clusters|
  {
    match s
    case RegisterCluster => UnregisterOk(v);
    case AllocateNetwork => ReleaseOk(v);
    case EmbedIgnitionISO => SetPlainOk(v, v.cur.(boot := ""));
    case Finalize => SetPlainOk(v, v.cur.(state := Creating));
    case _ =>
  }

  // ----- the invariant -----

  /** The clusters memory answers for, including the one a command works on while it is unlisted. */
  function LiveMem(w: World): seq<Cluster> {
    if w.proc.Applying? || w.proc.Undoing? then Live(w.mem.clusters, w.proc.cur) else w.mem.clusters
  }

  ghost predicate AddressSafe(w: World) {
    && SafeList(LiveMem(w), w.mem.usedIPs, w.mem.usedMACs)
    && SafeList(w.disk.clusters, w.disk.usedIPs, w.disk.usedMACs)
    && |w.mem.clusters| <= CLUSTERS_MAX && |w.disk.clusters| <= CLUSTERS_MAX
    && ((w.proc.Applying? || w.proc.Undoing?) && Has(w.mem.clusters, w.proc.cur.name) ==> w.proc.cur in w.mem.clusters)
    && (w.proc.Applying? && !Has(w.mem.clusters, w.proc.cur.name) ==> |w.mem.clusters| < CLUSTERS_MAX)
    && (w.proc.Resetting? ==>
          && w.proc.plan.leakedIPs == MakePlan(w.mem, w.net, {}, true).leakedIPs
          && w.proc.plan.leakedMACs == MakePlan(w.mem, w.net, {}, true).leakedMACs)
  }

  /** The one thing runs must respect: bridge clusters bring addresses from outside the pools. */
  predicate BridgeOutside(l: Label) {
    l.BeginCreate? && !l.spec.isNAT ==> OutsidePools(l.spec)
  }

  /** Dropping the command's own unlisted cluster, or keeping the listed one, is safe. */
  lemma MemSafe(w: World)
    requires AddressSafe(w)
    ensures SafeList(w.mem.clusters, w.mem.usedIPs, w.mem.usedMACs)
  {
    if w.proc.Applying? || w.proc.Undoing? {
      LiveMembers(w.mem.clusters, w.proc.cur);
    }
  }

  lemma SetStateSafe(w: World, name: string, from: set<ClusterState>, to: ClusterState, saved: bool)
    requires AddressSafe(w) && w.proc.Idle?
    ensures AddressSafe(SetStateStep(w, name, from, to, saved))
  {
    match Find(w.mem.clusters, name)
    case None =>
    case Some(c) =>
      var v := View(c, w.mem, w.net, w.vms);
      assert ViewOk(v);
      SetPlainOk(v, c.(state := to));
      PutMembers(w.mem.clusters, c.(state := to));
      hide SafeList, Put;
  }

  lemma SafeAppend(cs: seq<Cluster>, uips: set<string>, umacs: set<string>, c: Cluster)
    requires SafeList(cs, uips, umacs) && !Has(cs, c.name) && OkCluster(c, uips, umacs)
    requires c.ips == [] && c.macs == []
    ensures SafeList(cs + [c], uips, umacs)
  {
    var live := cs + [c];
    assert forall d :: d in live <==> d in cs || d == c;
    assert forall i :: 0 <= i < |cs| ==> live[i].name != c.name;
  }

  lemma BeginCreateSafe(w: World, spec: Cluster)
    requires AddressSafe(w) && w.proc.Idle? && BridgeOutside(BeginCreate(spec))
    ensures AddressSafe(BeginCreateStep(w, spec))
  {
    hide SafeList;
    if BeginCreateStep(w, spec).proc.Applying? && Find(w.mem.clusters, spec.name).None? {
      SafeAppend(w.mem.clusters, w.mem.usedIPs, w.mem.usedMACs, spec);
    }
  }

  lemma BeginDeleteSafe(w: World, name: string, saved: bool)
    requires AddressSafe(w) && w.proc.Idle?
    ensures AddressSafe(BeginDeleteStep(w, name, saved))
  {
    match Find(w.mem.clusters, name)
    case None =>
    case Some(c) =>
      hide SafeList, Put, Pipeline;
      SetStateSafe(w, name, {Running}, Stopped, saved);
      PutMembers(w.mem.clusters, c.(state := Stopped));
  }

  lemma ResetStepSafe(w: World, saved: bool)
    requires AddressSafe(w) && w.proc.Resetting? && w.proc.todo != []
    ensures AddressSafe(ResetStepStep(w, saved))
  {
    if w.proc.todo[0].Prune? {
      var m := PruneCfg(w.mem, w.proc.plan);
      forall c | c in w.mem.clusters ensures OkCluster(c, m.usedIPs, m.usedMACs) {
        assert OkCluster(c, w.mem.usedIPs, w.mem.usedMACs);
        forall ip | ip in c.ips ensures ip in KnownIPs(w.mem.clusters) {}
        forall mac | mac in c.macs ensures Lower(mac) in KnownMACs(w.mem.clusters) {}
      }
    }
  }

  lemma DoStageSafe(w: World, draws: seq<Draw>, saved: bool)
    requires AddressSafe(w) && w.proc.Applying? && w.proc.k < |Pipeline(w.os)|
    ensures AddressSafe(DoStageStep(w, draws, saved))
  {
    var s := Pipeline(w.os)[w.proc.k];
    var v := ViewOf(w);
    assert ViewOk(v);
    ApplyOk(w.os, s, draws, v);
    ApplyShape(w.os, s, draws, v);
    var v' := Apply(w.os, s, draws, v).0;
    LiveMembers(v'.cfg.clusters, v'.cur);
  }

  lemma UndoStageSafe(w: World, ok: bool, saved: bool)
    requires AddressSafe(w) && w.proc.Undoing? && 0 < w.proc.k <= |Pipeline(w.os)|
    ensures AddressSafe(UndoStageStep(w, ok, saved))
  {
    var s := Pipeline(w.os)[w.proc.k - 1];
    var v := ViewOf(w);
    assert ViewOk(v);
    UndoOk(w.os, s, v);
    var v' := Undo(w.os, s, v);
    LiveMembers(v'.cfg.clusters, v'.cur);
  }

  lemma FinishCreateSafe(w: World, saved: bool)
    requires AddressSafe(w) && w.proc.Applying?
    ensures AddressSafe(FinishCreateStep(w, saved))
  {
    var v := ViewOf(w);
    assert ViewOk(v);
    var c := w.proc.cur.(state := Running);
    SetPlainOk(v, c);
    LiveMembers(v.Set(c).cfg.clusters, c);
  }

  /** Every action of every command keeps addresses safe. */
  lemma StepSafe(w: World, l: Label)
    requires AddressSafe(w) && BridgeOutside(l)
    ensures AddressSafe(Step(w, l))
  {
    hide BeginCreateStep, DoStageStep, FinishCreateStep, SetStateStep, BeginDeleteStep, UndoStageStep, ResetStepStep;
    MemSafe(w);
    match l
    case DoStage(draws, saved) =>
      if w.proc.Applying? && w.proc.k < |Pipeline(w.os)| { DoStageSafe(w, draws, saved); }
    case UndoStage(ok, saved) =>
      if w.proc.Undoing? && 0 < w.proc.k <= |Pipeline(w.os)| { UndoStageSafe(w, ok, saved); }
    case FinishCreate(saved) => if w.proc.Applying? { FinishCreateSafe(w, saved); }
    case BeginCreate(spec) => if w.proc.Idle? { BeginCreateSafe(w, spec); }
    case BeginDelete(name, saved) => if w.proc.Idle? { BeginDeleteSafe(w, name, saved); }
    case Start(name, saved) =>
      if w.proc.Idle? { SetStateSafe(w, name, {NoState, Creating, Stopped}, Running, saved); }
    case Stop(name, saved) => if w.proc.Idle? { SetStateSafe(w, name, {Running}, Stopped, saved); }
    case ResetStep(saved) => if w.proc.Resetting? && w.proc.todo != [] { ResetStepSafe(w, saved); }
    case _ =>
  }

  /** Address safety over every run, from any safe world. */
  lemma {:induction false} RunSafe(w: World, ls: seq<Label>)
    requires AddressSafe(w)
    requires forall l :: l in ls ==> BridgeOutside(l)
    ensures AddressSafe(Run(w, ls))
    decreases |ls|
  {
    if ls != [] {
      var n := |ls| - 1;
      assert forall l :: l in ls[..n] ==> l in ls;
      RunSafe(w, ls[..n]);
      StepSafe(Run(w, ls[..n]), ls[n]);
    }
  }

  /** In the words of a user: distinct NAT clusters share no address, and every address held is marked. */
  ghost predicate NeverShared(m: Cfg) {
    && (forall a, b :: a in m.clusters && b in m.clusters && a != b && a.isNAT && b.isNAT ==>
          Elems(a.ips) !! Elems(b.ips) && Elems(a.macs) !! Elems(b.macs))
    && (forall a :: a in m.clusters && a.isNAT ==> Marked(a, m))
  }

  lemma SafeMeansNeverShared(m: Cfg)
    requires SafeList(m.clusters, m.usedIPs, m.usedMACs)
    ensures NeverShared(m)
  {
    forall a, b | a in m.clusters && b in m.clusters && a != b && a.isNAT && b.isNAT
      ensures Elems(a.ips) !! Elems(b.ips) && Elems(a.macs) !! Elems(b.macs)
    {
      if a.name == b.name {
        UniqueName(m.clusters, a, b);
      }
      assert Disjoint(a, b);
    }
    forall a | a in m.clusters && a.isNAT ensures Marked(a, m) {
      assert OkCluster(a, m.usedIPs, m.usedMACs);
    }
  }

  /** Both copies of config.json, after any run of a fresh installation. */
  lemma AddressesNeverShared(os: OS, ls: seq<Label>)
    requires forall l :: l in ls ==> BridgeOutside(l)
    ensures NeverShared(Run(Fresh(os), ls).mem) && NeverShared(Run(Fresh(os), ls).disk)
  {
    RunSafe(Fresh(os), ls);
    var w := Run(Fresh(os), ls);
    MemSafe(w);
    SafeMeansNeverShared(w.mem);
    SafeMeansNeverShared(w.disk);
  }

  ghost predicate Marked(c: Cluster, cfg: Cfg) {
    Elems(c.ips) <= cfg.usedIPs && Elems(c.macs) <= cfg.usedMACs
  }

  /**
   Why bridge addresses must come from elsewhere: allocate-network followed by
   its rollback on a bridge cluster keeps another cluster's addresses marked
   exactly when that cluster holds neither of the bridge cluster's addresses.
   */
  lemma BridgeReleaseExact(v: View, d: Cluster)
    requires !v.cur.isNAT && v.cur.macs == [] && Marked(d, v.cfg)
    ensures Marked(d, Undo(Linux, AllocateNetwork, AllocateBridge(v)).cfg)
            <==> v.cur.masterIP !in d.ips && v.cur.masterMAC !in d.macs
  {
    var v1 := AllocateBridge(v);
    var v2 := Undo(Linux, AllocateNetwork, v1);
    assert Elems(v1.cur.ips) == {v.cur.masterIP} by { assert v1.cur.ips[0] in v1.cur.ips; }
    assert Elems(v1.cur.macs) == {v.cur.masterMAC} by { assert v1.cur.macs[0] in v1.cur.macs; }
    assert v2.cfg.usedIPs == v.cfg.usedIPs - {v.cur.masterIP};
    assert v2.cfg.usedMACs == v.cfg.usedMACs + {v.cur.masterMAC} - {v.cur.masterMAC};
    if v.cur.masterIP in d.ips { assert v.cur.masterIP in Elems(d.ips); }
    if v.cur.masterMAC in d.macs { assert v.cur.masterMAC in Elems(d.macs); }
  }

  // ----- the pool is large enough -----

  lemma KnownIPsCons(c: Cluster, cs: seq<Cluster>)
    ensures KnownIPs([c] + cs) == KnownIPs(cs) + Elems(c.ips)
  {
    assert forall d :: d in [c] + cs <==> d == c || d in cs;
  }

  lemma {:induction false} KnownIPsBound(cs: seq<Cluster>)
    requires forall c :: c in cs ==> |c.ips| <= 1
    ensures |KnownIPs(cs)| <= |cs|
  {
    if cs == [] {
      assert KnownIPs(cs) == {};
    } else {
      assert cs == [cs[0]] + cs[1..];
      KnownIPsBound(cs[1..]);
      KnownIPsCons(cs[0], cs[1..]);
      var e := Elems(cs[0].ips);
      if cs[0].ips != [] {
        SubsetSize(e, {cs[0].ips[0]});
      }
    }
  }

  /**
   In every reachable world, once a reset has pruned the marks, allocating for
   one more single-master cluster succeeds as long as a fresh MAC is drawn.
   */
  lemma AllocationAfterReset(w: World, c: Cluster, draws: seq<Draw>)
    requires AddressSafe(w) && w.proc.Idle?
    requires c.isNAT && c.nodes == 1 && c.macs == []
    requires draws != [] && MacOf(draws[0]) !in w.mem.usedMACs
    ensures var cfg := PruneCfg(w.mem, MakePlan(w.mem, w.net, {}, true));
            AllocateNAT(View(c, cfg, w.net, w.vms), draws).1
  {
    var cfg := PruneCfg(w.mem, MakePlan(w.mem, w.net, {}, true));
    var known := KnownIPs(w.mem.clusters);
    KnownIPsBound(w.mem.clusters);
    assert cfg.usedIPs == w.mem.usedIPs * known;
    SubsetSize(cfg.usedIPs, known);
    AllocationSucceeds(cfg.usedIPs);
    assert AllocMACs(cfg.usedMACs, draws, 1).got.Some?;
    assert AllocIPs(cfg.usedIPs, 1).got.Some?;
  }

  /**
   When the pool is used up, and only then, allocate-network fails for a new
   single-master cluster whose MAC draw is fresh, and a retry in the same process
   reports success for a cluster that still has no address.
   */
  lemma ExhaustedRetry(os: OS, v: View, draws: seq<Draw>, again: seq<Draw>)
    requires v.cur.isNAT && v.cur.nodes == 1 && v.cur.macs == [] && v.cur.ips == []
    requires draws != [] && MacOf(draws[0]) !in v.cfg.usedMACs
    ensures var (failed, ok) := Apply(os, AllocateNetwork, draws, v);
      var (retried, okAgain) := Apply(os, AllocateNetwork, again, failed);
      (!ok && okAgain && retried.cur.ips == [])
      <==> (forall k :: NETWORK_START <= k <= NETWORK_END ==> PoolIP(k) in v.cfg.usedIPs)
  {
    hide AllocMACs, AllocIPs, MacOf;
    AllocOneMAC(v.cfg.usedMACs, draws);
    AllocOneIP(v.cfg.usedIPs);
  }
}

/**
 DHCP reservations against config.json and state.json on Linux: a registered
 NAT cluster recorded past create-network has its reservation, and the network
 holds no others. Clean runs keep this from any consistent world on, whatever
 stages and saves fail. Of what Clean asks, where a process may not die is exact
 (DeathExact); the rest is sufficient.
 */
module Reservations {
  import opened Text
  import opened Addresses
  import opened Model
  import opened NatReset
  import opened Lifecycle
  import opened Safety
  import opened Records

  /** Every reservation belongs to a registered NAT cluster. */
  ghost predicate NoForeign(cs: seq<Cluster>, net: Net) {
    forall h :: h in Hosts(net) ==> exists c :: c in cs && c.isNAT && Addressed(c) && h == Reservation(c)
  }

  /** The cluster whose reservation was just removed and whose record still lists create-network. */
  function BeingUndone(w: World): set<string> {
    if w.proc.Undoing? && w.proc.done && w.proc.k == 11 then {w.proc.cur.name} else {}
  }

  /** Registered NAT clusters recorded past create-network have their reservation, but for `except`. */
  ghost predicate AllReserved(cs: seq<Cluster>, recs: map<string, set<Stage>>, net: Net, except: set<string>) {
    forall c :: c in cs && c.isNAT && CreateNetwork in StagesOf(recs, c.name) && c.name !in except ==>
                  Reservation(c) in Hosts(net)
  }

  /** Past embed-ignition-iso a NAT cluster has both addresses. */
  ghost predicate AllAddressed(cs: seq<Cluster>, recs: map<string, set<Stage>>) {
    forall c :: c in cs && c.isNAT && EmbedIgnitionISO in StagesOf(recs, c.name) ==> Addressed(c)
  }

  /** The network a reset that runs to its end will leave; otherwise the network as it is. */
  function EndNet(w: World): Net {
    if w.proc.Resetting? then ActAll(w.net, w.proc.todo) else w.net
  }

  /** The user-level statement, about what is persisted. */
  ghost predicate NetConsistent(w: World) {
    && NoForeign(w.disk.clusters, w.net)
    && AllReserved(w.disk.clusters, w.recs, w.net, {})
  }

  predicate EndsInPrune(todo: seq<Action>) {
    |todo| > 0 && todo[|todo| - 1] == Prune && forall i :: 0 <= i < |todo| - 1 ==> todo[i] != Prune
  }

  predicate NoRepeat(todo: seq<Action>) {
    forall i, j :: 0 <= i < j < |todo| ==> todo[i] != todo[j]
  }

  ghost predicate ApplyingOk(w: World)
    requires w.proc.Applying?
  {
    var p := w.proc;
    && p.rec == Recorded(w, p.cur.name)
    && (Has(w.mem.clusters, p.cur.name) || (p.k == 0 && !p.done && p.rec == {}))
    && (p.cur.isNAT && (p.k >= 10 || (p.k == 9 && p.done)) ==> Addressed(p.cur))
    && (p.cur.isNAT && p.k == 10 && p.done ==> Reservation(p.cur) in Hosts(w.net))
  }

  /** The entry config.json still has for a cluster: same mode, same reservation. */
  ghost predicate Twin(cs: seq<Cluster>, cur: Cluster) {
    exists e :: e in cs && e.name == cur.name && e.isNAT == cur.isNAT && Reservation(e) == Reservation(cur)
  }

  ghost predicate UndoingOk(w: World)
    requires w.proc.Undoing?
  {
    var p := w.proc;
    && ListsOk(w.mem.clusters, w.recs, w.net, BeingUndone(w))
    && (p.rec == Recorded(w, p.cur.name) || (Recorded(w, p.cur.name) == {} && p.k == 4 && p.done))
    && (Has(w.mem.clusters, p.cur.name) || p.k == 0 || (p.k == 1 && p.done))
    && (Reservation(p.cur) in Hosts(w.net) ==> CreateNetwork in p.rec && !(p.done && p.k == 11))
    && (p.k > 2 || (p.k == 2 && !p.done) ==> Twin(w.disk.clusters, p.cur))
  }

  ghost predicate ResetOk(w: World)
    requires w.proc.Resetting?
  {
    && EndsInPrune(w.proc.todo)
    && NoForeign(w.disk.clusters, EndNet(w))
    && (forall h :: Restore(h) in w.proc.todo ==>
          exists c :: c in w.disk.clusters && c.isNAT && Addressed(c) && h == Reservation(c))
    && (!w.proc.plan.recreate ==> w.proc.todo == [Prune])
    && NoRepeat(w.proc.todo)
    && (TearDown in w.proc.todo ==> AllReserved(w.disk.clusters, w.recs, w.net, {}))
    && (TearDown !in w.proc.todo ==> forall h :: Restore(h) in w.proc.todo ==> h !in Hosts(w.net))
    && (TearDown in w.proc.todo ==> w.proc.todo[0] == TearDown)
  }

  ghost predicate ResOk(w: World) {
    w.os.Linux? && AddressSafe(w) && RecordsOk(w) && ResCore(w)
  }

  ghost predicate ResCore(w: World) {
    && (w.proc.Applying? || w.proc.Resetting? ==> w.mem == w.disk)
    && NoForeign(w.disk.clusters, w.net)
    && AllReserved(w.disk.clusters, w.recs, EndNet(w), BeingUndone(w))
    && AllAddressed(w.disk.clusters, w.recs)
    && (w.proc.Applying? ==> ApplyingOk(w))
    && (w.proc.Undoing? ==> UndoingOk(w))
    && (w.proc.Resetting? ==> ResetOk(w))
  }

  /** The facts about a cluster list that a step may rewrite together. */
  ghost predicate ListsOk(cs: seq<Cluster>, recs: map<string, set<Stage>>, net: Net, except: set<string>) {
    NoForeign(cs, net) && AllReserved(cs, recs, net, except) && AllAddressed(cs, recs)
  }

  /**
   The windows in full: a NAT reservation was removed and its record not yet
   erased, or the network was torn down and the reservation of a cluster
   recorded past create-network is still to be restored.
   */
  ghost predicate Exposed(w: World) {
    || (w.proc.Undoing? && w.proc.done && w.proc.k == 11 && w.proc.cur.isNAT)
    || (w.proc.Resetting? && TearDown !in w.proc.todo &&
        exists c :: c in w.disk.clusters && c.isNAT && CreateNetwork in StagesOf(w.recs, c.name) &&
                    Restore(Reservation(c)) in w.proc.todo)
  }

  /**
   What a run must respect at each step. A command is started by a process that
   holds what is on disk, which every new process does; not on a state.json of
   an unregistered cluster, and a delete not on a reservation its state.json
   does not know. No rollback fails to remove a reservation that is there. And
   no process ends where that exposes a cluster. Stages, providers and saves may
   fail everywhere else.
   */
  ghost predicate Clean(w: World, l: Label) {
    BridgeOutside(l) &&
    match l
    case BeginCreate(spec) => w.mem == w.disk && (Has(w.mem.clusters, spec.name) || spec.name !in w.recs)
    case BeginDelete(name, _) => w.mem == w.disk && KnownToDelete(w, name)
    case BeginReset(_, _) => w.mem == w.disk
    case Start(_, _) => w.mem == w.disk
    case Stop(_, _) => w.mem == w.disk
    case UndoStage(ok, _) =>
      ok || (w.proc.Undoing? && 0 < w.proc.k <= |Pipeline(w.os)| && MayFailToUndo(w, Pipeline(w.os)[w.proc.k - 1]))
    case Crash => !Exposed(w)
    case Abort => !Exposed(w)
    case _ => true
  }

  /** A reservation of the cluster is on the network only if create-network is recorded. */
  ghost predicate KnownToDelete(w: World, name: string) {
    forall c :: c in w.mem.clusters && c.name == name && Reservation(c) in Hosts(w.net) ==>
                  CreateNetwork in Recorded(w, name)
  }

  /** Releasing and unregistering call no provider; removing a reservation does. */
  predicate MayFailToUndo(w: World, s: Stage)
    requires w.proc.Undoing?
  {
    s !in {AllocateNetwork, RegisterCluster} && (s == CreateNetwork ==> Reservation(w.proc.cur) !in Hosts(w.net))
  }

  // ----- consequences of address safety -----

  /** Reservations of different registered NAT clusters never clash. */
  lemma DistinctReservations(cs: seq<Cluster>, uips: set<string>, umacs: set<string>, a: Cluster, b: Cluster)
    requires SafeList(cs, uips, umacs) && a in cs && b in cs && a.isNAT && b.isNAT && a.name != b.name
    requires Addressed(a) && Addressed(b)
    ensures !Clash(Reservation(a), Reservation(b))
  {
    assert Disjoint(a, b);
    assert a.ips[0] in Elems(a.ips) && b.ips[0] in Elems(b.ips);
    assert a.macs[0] in Elems(a.macs) && b.macs[0] in Elems(b.macs);
    if MasterName(a.name) == MasterName(b.name) {
      MasterNameInjective(a.name, b.name);
    }
  }

  lemma SafeClashFree(cs: seq<Cluster>, uips: set<string>, umacs: set<string>)
    requires SafeList(cs, uips, umacs)
    ensures ClashFree(cs) && NatPlain(cs)
  {
    forall i, j | 0 <= i < j < |cs| && cs[i].isNAT && cs[j].isNAT && Addressed(cs[i]) && Addressed(cs[j])
      ensures !Clash(Reservation(cs[i]), Reservation(cs[j]))
    {
      DistinctReservations(cs, uips, umacs, cs[i], cs[j]);
    }
  }

  // ----- the create side -----

  /** The "already" answer is harmless exactly when no other entry shares MAC, IP or name. */
  lemma CreateNetworkExact(v: View, draws: seq<Draw>)
    requires v.cur.isNAT
    ensures Reservation(v.cur) in Hosts(Apply(Linux, CreateNetwork, draws, v).0.net)
            <==> Reservation(v.cur) in Hosts(v.net) || forall h :: h in Hosts(v.net) ==> !Clash(h, Reservation(v.cur))
  {
    var net := Ensure(v.net);
    assert Hosts(net) == Hosts(v.net);
    if !exists g :: g in net.hosts && Clash(g, Reservation(v.cur)) {
      assert Reservation(v.cur) in net.hosts + [Reservation(v.cur)];
    }
  }

  /** At create-network, nothing on the network clashes with the cluster's reservation but itself. */
  lemma NoOtherClash(w: World)
    requires ResOk(w) && w.proc.Applying? && !w.proc.done && w.proc.k == 10 && w.proc.cur.isNAT
    ensures forall h :: h in Hosts(w.net) && Clash(h, Reservation(w.proc.cur)) ==> h == Reservation(w.proc.cur)
  {
    var cur := w.proc.cur;
    MemSafe(w);
    forall h | h in Hosts(w.net) && Clash(h, Reservation(cur)) ensures h == Reservation(cur) {
      var c :| c in w.disk.clusters && c.isNAT && Addressed(c) && h == Reservation(c);
      if c.name != cur.name {
        DistinctReservations(w.mem.clusters, w.mem.usedIPs, w.mem.usedMACs, c, cur);
      } else {
        UniqueName(w.mem.clusters, c, cur);
      }
    }
  }

  /** The command's cluster is the entry of its name, if there is one. */
  ghost predicate Linked(v: View) {
    Unique(v.cfg.clusters) && (v.Attached() ==> v.cur in v.cfg.clusters)
  }

  /** Rewriting fields other than addresses in the command's own entry. */
  lemma PlainLists(v: View, c: Cluster, recs: map<string, set<Stage>>, net: Net, except: set<string>)
    requires Linked(v) && c == v.cur.(boot := c.boot, state := c.state)
    requires ListsOk(v.cfg.clusters, recs, net, except)
    ensures ListsOk(v.Set(c).cfg.clusters, recs, net, except)
  {
    var cs := v.cfg.clusters;
    var cs' := v.Set(c).cfg.clusters;
    PutMembers(cs, c);
    forall h | h in Hosts(net) ensures exists d :: d in cs' && d.isNAT && Addressed(d) && h == Reservation(d) {
      var d :| d in cs && d.isNAT && Addressed(d) && h == Reservation(d);
      if d.name == c.name {
        assert Has(cs, c.name);
        UniqueName(cs, d, v.cur);
        assert c in cs' && Reservation(c) == h;
      } else {
        assert d in cs';
      }
    }
  }

  /** Changing the addresses of a cluster without reservation, recorded neither past embed nor past create-network. */
  lemma AddressLists(v: View, c: Cluster, recs: map<string, set<Stage>>, net: Net, except: set<string>)
    requires Linked(v) && c.name == v.cur.name
    requires Reservation(v.cur) !in Hosts(net) || !(v.cur.isNAT && Addressed(v.cur))
    requires EmbedIgnitionISO !in StagesOf(recs, c.name) && CreateNetwork !in StagesOf(recs, c.name)
    requires ListsOk(v.cfg.clusters, recs, net, except)
    ensures ListsOk(Put(v.cfg.clusters, c), recs, net, except)
  {
    var cs := v.cfg.clusters;
    var cs' := Put(cs, c);
    PutMembers(cs, c);
    forall h | h in Hosts(net) ensures exists d :: d in cs' && d.isNAT && Addressed(d) && h == Reservation(d) {
      var d :| d in cs && d.isNAT && Addressed(d) && h == Reservation(d);
      if d.name == c.name {
        assert Has(cs, c.name);
        UniqueName(cs, d, v.cur);
        assert false;
      }
      assert d in cs';
    }
  }

  // ----- one stage applied -----

  /** The part of the invariant a stage's proof needs, once it is known where the runner is. */
  ghost predicate StageFacts(w: World) {
    && w.os.Linux? && w.proc.Applying? && !w.proc.done && w.proc.k < 18
    && w.mem == w.disk && Linked(ViewOf(w))
    && w.proc.rec == StagesOf(w.recs, w.proc.cur.name)
    && (w.proc.k > 0 ==> Has(w.mem.clusters, w.proc.cur.name))
    && (CreateNetwork in w.proc.rec <==> 10 < w.proc.k)
    && (EmbedIgnitionISO in w.proc.rec <==> 9 < w.proc.k)
    && ListsOk(w.disk.clusters, w.recs, w.net, {})
    && (w.proc.cur.isNAT && w.proc.k >= 10 ==> Addressed(w.proc.cur))
    && (w.proc.cur.isNAT ==> w.proc.cur.masterMAC == "" && w.proc.cur.masterIP == "")
  }

  ghost predicate AtStage(w: World) {
    && ResOk(w) && w.proc.Applying? && !w.proc.done && w.proc.k < |Pipeline(w.os)|
    && Pipeline(w.os)[w.proc.k] !in w.proc.rec
  }

  lemma StageFactsHold(w: World)
    requires AtStage(w)
    ensures StageFacts(w)
  {
    PrefixNext(w.os, w.proc.rec, w.proc.k);
    PrefixMember(w.os, w.proc.k, 10);
    PrefixMember(w.os, w.proc.k, 9);
    assert Pipeline(w.os)[10] == CreateNetwork && Pipeline(w.os)[9] == EmbedIgnitionISO;
    LiveMembers(w.mem.clusters, w.proc.cur);
    assert OkCluster(w.proc.cur, w.mem.usedIPs, w.mem.usedMACs);
    MemSafe(w);
  }

  /** What must be known about the world after a stage succeeded, whatever the stage. */
  lemma AppliedCore(w: World, w': World)
    requires StageFacts(w)
    requires w'.recs == w.recs && w'.mem == w'.disk
    requires w'.proc.Applying? && w'.proc == Applying(w'.proc.cur, w.proc.rec, w.proc.k, true)
    requires w'.proc.cur.name == w.proc.cur.name && Has(w'.mem.clusters, w.proc.cur.name)
    requires ListsOk(w'.disk.clusters, w.recs, w'.net, {})
    requires w'.proc.cur.isNAT && w.proc.k >= 9 ==> Addressed(w'.proc.cur)
    requires w'.proc.cur.isNAT && w.proc.k == 10 ==> Reservation(w'.proc.cur) in Hosts(w'.net)
    ensures ResCore(w')
  {
  }

  lemma FailedCore(w: World, w': World)
    requires StageFacts(w)
    requires w'.proc.Failed? && w'.disk == w.disk && w'.recs == w.recs && Hosts(w'.net) == Hosts(w.net)
    ensures ResCore(w')
  {
  }

  /** Stages that leave the config and the network alone. */
  predicate Quiet(s: Stage) {
    s !in {RegisterCluster, AllocateNetwork, EmbedIgnitionISO, PublishPXEAssets, CreateNetwork, Finalize}
  }

  lemma QuietApply(os: OS, s: Stage, draws: seq<Draw>, v: View)
    requires Quiet(s)
    ensures var v' := Apply(os, s, draws, v).0; v'.cfg == v.cfg && v'.net == v.net && v'.cur == v.cur
  {
  }

  lemma QuietRes(w: World, draws: seq<Draw>)
    requires StageFacts(w) && Quiet(Pipeline(w.os)[w.proc.k])
    ensures ResCore(DoStageStep(w, draws, true))
  {
    var s := Pipeline(w.os)[w.proc.k];
    assert w.proc.k > 0 && w.proc.k != 9 && w.proc.k != 10;
    QuietApply(w.os, s, draws, ViewOf(w));
    var w' := DoStageStep(w, draws, true);
    if w'.proc.Failed? {
      FailedCore(w, w');
    } else {
      AppliedCore(w, w');
    }
  }

  lemma RegisterRes(w: World, draws: seq<Draw>)
    requires StageFacts(w) && w.proc.k == 0
    requires !Has(w.mem.clusters, w.proc.cur.name) ==> StagesOf(w.recs, w.proc.cur.name) == {}
    ensures ResCore(DoStageStep(w, draws, true))
  {
    var cur := w.proc.cur;
    var w' := DoStageStep(w, draws, true);
    if !Has(w.mem.clusters, cur.name) {
      var c := cur.(state := Creating);
      assert w'.disk.clusters == w.mem.clusters + [c];
      assert w'.disk.clusters[|w.mem.clusters|] == c;
      assert forall d :: d in w'.disk.clusters <==> d in w.disk.clusters || d == c;
      assert StagesOf(w.recs, c.name) == {};
      assert NoForeign(w'.disk.clusters, w.net);
    }
    AppliedCore(w, w');
  }

  lemma AllocatedCore(w: World, w': World)
    requires StageFacts(w) && w.proc.k == 1 && w.proc.cur.macs == []
    requires w'.recs == w.recs && w'.mem == w'.disk && w'.net == w.net
    requires w'.proc.Applying? && w'.proc == Applying(w'.proc.cur, w.proc.rec, 1, true)
    requires w'.proc.cur.name == w.proc.cur.name
    requires w'.mem.clusters == Put(w.mem.clusters, w'.proc.cur)
    ensures ResCore(w')
  {
    AddressLists(ViewOf(w), w'.proc.cur, w.recs, w.net, {});
    PutMembers(w.mem.clusters, w'.proc.cur);
    AppliedCore(w, w');
  }

  lemma AllocateRes(w: World, draws: seq<Draw>)
    requires StageFacts(w) && w.proc.k == 1
    ensures ResCore(DoStageStep(w, draws, true))
  {
    var w' := DoStageStep(w, draws, true);
    if w.proc.cur.macs == [] {
      AllocateIsPut(ViewOf(w), draws);
      if w'.proc.Failed? {
        FailedCore(w, w');
      } else {
        AllocatedCore(w, w');
      }
    } else {
      AppliedCore(w, w');
    }
  }

  /** A successful allocation rewrites just the command's own entry; a failed one calls no provider. */
  lemma AllocateIsPut(v: View, draws: seq<Draw>)
    requires v.cur.macs == []
    ensures var (v', ok) := Apply(Linux, AllocateNetwork, draws, v);
            && v'.net == v.net && v'.cur.name == v.cur.name
            && (ok ==> v'.cfg.clusters == Put(v.cfg.clusters, v'.cur))
  {
    var (v', ok) := Apply(Linux, AllocateNetwork, draws, v);
    if ok && v.cur.isNAT {
      var m := AllocMACs(v.cfg.usedMACs, draws, v.cur.nodes);
      var c1 := v.cur.(macs := m.got.value);
      assert Put(Put(v.cfg.clusters, c1), v'.cur) == Put(v.cfg.clusters, v'.cur);
    }
  }

  lemma NetworkRes(w: World, draws: seq<Draw>)
    requires StageFacts(w) && w.proc.k == 10
    requires w.proc.cur.isNAT ==>
               forall h :: h in Hosts(w.net) && Clash(h, Reservation(w.proc.cur)) ==> h == Reservation(w.proc.cur)
    ensures ResCore(DoStageStep(w, draws, true))
  {
    var w' := DoStageStep(w, draws, true);
    var cur := w.proc.cur;
    if cur.isNAT {
      CreateNetworkExact(ViewOf(w), draws);
      assert forall h :: h in Hosts(w'.net) ==> h in Hosts(w.net) || h == Reservation(cur);
      assert forall h :: h in Hosts(w.net) ==> h in Hosts(w'.net);
      assert NoForeign(w.disk.clusters, w'.net) by {
        assert cur in w.disk.clusters && Addressed(cur);
      }
      assert AllReserved(w.disk.clusters, w.recs, w'.net, {});
    }
    AppliedCore(w, w');
  }

  /** embed-ignition-iso and finalize: one field of the own entry, no address. */
  lemma PlainRes(w: World, draws: seq<Draw>)
    requires StageFacts(w) && (w.proc.k == 9 || w.proc.k == 17)
    ensures ResCore(DoStageStep(w, draws, true))
  {
    var v := ViewOf(w);
    var w' := DoStageStep(w, draws, true);
    if w.proc.k == 9 && (PrimaryMAC(v.cur) == "" || PrimaryIP(v.cur) == "") {
      FailedCore(w, w');
    } else {
      var c := if w.proc.k == 9 then v.cur.(boot := BootRef(w.os, v.cur.name)) else v.cur.(state := Running);
      assert Apply(w.os, Pipeline(w.os)[w.proc.k], draws, v) == (v.Set(c), true);
      PlainCore(w, w', c);
    }
  }

  lemma PlainCore(w: World, w': World, c: Cluster)
    requires StageFacts(w) && (w.proc.k == 9 || w.proc.k == 17)
    requires c == w.proc.cur.(boot := c.boot, state := c.state)
    requires w.proc.k == 9 ==> PrimaryMAC(c) != "" && PrimaryIP(c) != ""
    requires w'.mem == w'.disk == ViewOf(w).Set(c).cfg && w'.recs == w.recs && w'.net == w.net
    requires w'.proc == Applying(c, w.proc.rec, w.proc.k, true)
    ensures ResCore(w')
  {
    PlainLists(ViewOf(w), c, w.recs, w.net, {});
    PutMembers(w.mem.clusters, c);
    AppliedCore(w, w');
  }

  lemma FailRes(w: World, partial: bool)
    requires StageFacts(w)
    ensures ResCore(FailStageStep(w, partial))
  {
    FailedCore(w, FailStageStep(w, partial));
  }

  /** A stage that came back with an error, or whose save failed, changed nothing persisted. */
  lemma FailedStageRes(w: World, draws: seq<Draw>, saved: bool)
    requires StageFacts(w) && DoStageStep(w, draws, saved).proc.Failed?
    ensures ResCore(DoStageStep(w, draws, saved))
  {
    hide Apply, Saves;
    FailingApply(w.os, Pipeline(w.os)[w.proc.k], draws, ViewOf(w));
    FailedCore(w, DoStageStep(w, draws, saved));
  }

  lemma DoStageRes(w: World, draws: seq<Draw>, saved: bool)
    requires AtStage(w)
    ensures ResCore(DoStageStep(w, draws, saved))
  {
    StageFactsHold(w);
    if DoStageStep(w, draws, saved).proc.Failed? {
      FailedStageRes(w, draws, saved);
    } else {
      SavedRes(w, draws);
    }
  }

  lemma SavedRes(w: World, draws: seq<Draw>)
    requires AtStage(w) && StageFacts(w)
    ensures ResCore(DoStageStep(w, draws, true))
  {
    if w.proc.k == 0 {
      RegisterRes(w, draws);
    } else if w.proc.k == 1 {
      AllocateRes(w, draws);
    } else if w.proc.k == 9 || w.proc.k == 17 {
      PlainRes(w, draws);
    } else if w.proc.k == 10 {
      if w.proc.cur.isNAT {
        NoOtherClash(w);
      }
      NetworkRes(w, draws);
    } else {
      QuietRes(w, draws);
    }
  }

  // ----- one stage rolled back -----

  ghost predicate UndoFacts(w: World) {
    && w.os.Linux? && w.proc.Undoing? && !w.proc.done && 0 < w.proc.k <= 18
    && Unique(w.mem.clusters) && w.proc.cur in w.mem.clusters
    && w.proc.rec == StagesOf(w.recs, w.proc.cur.name)
    && (CreateNetwork in w.proc.rec <==> 10 < w.proc.k)
    && (EmbedIgnitionISO in w.proc.rec <==> 9 < w.proc.k)
    && ListsOk(w.mem.clusters, w.recs, w.net, {}) && ListsOk(w.disk.clusters, w.recs, w.net, {})
    && (Reservation(w.proc.cur) in Hosts(w.net) ==> 10 < w.proc.k)
    && (w.proc.k >= 2 ==> Twin(w.disk.clusters, w.proc.cur))
  }

  ghost predicate AtUndo(w: World) {
    && ResOk(w) && w.proc.Undoing? && !w.proc.done && 0 < w.proc.k <= |Pipeline(w.os)|
    && Pipeline(w.os)[w.proc.k - 1] in w.proc.rec
  }

  lemma UndoRec(os: OS, rec: set<Stage>, k: nat)
    requires os.Linux? && 0 < k <= |Pipeline(os)| && PrefixBetween(os, rec, 0, k) && Pipeline(os)[k - 1] in rec
    ensures (CreateNetwork in rec <==> 10 < k) && (EmbedIgnitionISO in rec <==> 9 < k)
  {
    PrefixLast(os, rec, k);
    PrefixMember(os, k, 10);
    PrefixMember(os, k, 9);
    assert Pipeline(os)[10] == CreateNetwork && Pipeline(os)[9] == EmbedIgnitionISO;
  }

  lemma UndoFactsHold(w: World)
    requires AtUndo(w)
    ensures UndoFacts(w)
  {
    UndoRec(w.os, w.proc.rec, w.proc.k);
    MemSafe(w);
  }

  /** What must be known about the world after a rollback step, whatever the stage and its save. */
  lemma UndoneCore(w: World, w': World)
    requires UndoFacts(w)
    requires w'.os == w.os && (w'.disk == w'.mem || w'.disk == w.disk)
    requires w'.recs == w.recs || (w.proc.k == 4 && w'.recs == w.recs - {w.proc.cur.name})
    requires w'.proc.Undoing? && w'.proc == Undoing(w'.proc.cur, w.proc.rec, w.proc.k, true)
    requires w'.proc.cur.name == w.proc.cur.name
    requires Has(w'.mem.clusters, w.proc.cur.name) || w.proc.k == 1
    requires ListsOk(w'.mem.clusters, w.recs, w'.net, if w.proc.k == 11 then {w.proc.cur.name} else {})
    requires ListsOk(w.disk.clusters, w.recs, w'.net, if w.proc.k == 11 then {w.proc.cur.name} else {})
    requires Reservation(w'.proc.cur) in Hosts(w'.net) ==> w.proc.k > 11
    requires w.proc.k > 2 ==> w'.proc.cur in w'.mem.clusters && w'.proc.cur.isNAT == w.proc.cur.isNAT
                              && Reservation(w'.proc.cur) == Reservation(w.proc.cur)
    ensures ResCore(w')
  {
    assert forall n :: StagesOf(w'.recs, n) <= StagesOf(w.recs, n);
    if w.proc.k > 2 && w'.disk == w.disk {
      var e :| e in w.disk.clusters && e.name == w.proc.cur.name && e.isNAT == w.proc.cur.isNAT
               && Reservation(e) == Reservation(w.proc.cur);
      assert Twin(w'.disk.clusters, w'.proc.cur);
    }
  }

  predicate QuietUndo(s: Stage) {
    s !in {RegisterCluster, AllocateNetwork, EmbedIgnitionISO, CreateNetwork, Finalize}
  }

  lemma QuietUndoApply(os: OS, s: Stage, v: View)
    requires QuietUndo(s)
    ensures var v' := Undo(os, s, v); v'.cfg == v.cfg && v'.net == v.net && v'.cur == v.cur
  {
  }

  lemma QuietUndoRes(w: World, ok: bool, saved: bool)
    requires UndoFacts(w)
    requires QuietUndo(Pipeline(w.os)[w.proc.k - 1]) || (!ok && MayFailToUndo(w, Pipeline(w.os)[w.proc.k - 1]))
    ensures ResCore(UndoStageStep(w, ok, saved))
  {
    var s := Pipeline(w.os)[w.proc.k - 1];
    assert w.proc.k > 2 && (s == CreateNetwork <==> w.proc.k == 11);
    assert s == EnsureClusterDir <==> w.proc.k == 4;
    if ok {
      QuietUndoApply(w.os, s, ViewOf(w));
    }
    UndoneCore(w, UndoStageStep(w, ok, saved));
  }

  lemma PlainUndoRes(w: World, saved: bool)
    requires UndoFacts(w) && (w.proc.k == 10 || w.proc.k == 18)
    ensures ResCore(UndoStageStep(w, true, saved))
  {
    var v := ViewOf(w);
    var c := if w.proc.k == 10 then v.cur.(boot := "") else v.cur.(state := Creating);
    assert Undo(w.os, Pipeline(w.os)[w.proc.k - 1], v) == v.Set(c);
    PlainUndoneCore(w, UndoStageStep(w, true, saved), c);
  }

  lemma PlainUndoneCore(w: World, w': World, c: Cluster)
    requires UndoFacts(w) && (w.proc.k == 10 || w.proc.k == 18)
    requires c == w.proc.cur.(boot := c.boot, state := c.state)
    requires w'.os == w.os && w'.mem == ViewOf(w).Set(c).cfg && (w'.disk == w'.mem || w'.disk == w.disk)
    requires w'.recs == w.recs && w'.net == w.net
    requires w'.proc == Undoing(c, w.proc.rec, w.proc.k, true)
    ensures ResCore(w')
  {
    PlainLists(ViewOf(w), c, w.recs, w.net, {});
    PutMembers(w.mem.clusters, c);
    assert Reservation(c) == Reservation(w.proc.cur);
    UndoneCore(w, w');
  }

  /** A list without one reservation, but for the cluster it belongs to. */
  lemma RemovedLists(cs: seq<Cluster>, recs: map<string, set<Stage>>, net: Net, cur: Cluster)
    requires ListsOk(cs, recs, net, {})
    ensures ListsOk(cs, recs, RemoveHost(net, Reservation(cur)), {cur.name})
  {
    var net' := RemoveHost(net, Reservation(cur));
    assert forall h :: h in Hosts(net') ==> h in Hosts(net);
    forall c | c in cs && c.isNAT && CreateNetwork in StagesOf(recs, c.name) && c.name != cur.name
      ensures Reservation(c) in Hosts(net')
    {
      if Reservation(c) == Reservation(cur) {
        MasterNameInjective(c.name, cur.name);
      }
    }
  }

  /** A bridge cluster's would-be reservation is never on the network. */
  lemma NoBridgeReservation(cs: seq<Cluster>, net: Net, cur: Cluster)
    requires Unique(cs) && cur in cs && !cur.isNAT && NoForeign(cs, net)
    ensures Reservation(cur) !in Hosts(net)
  {
    if Reservation(cur) in Hosts(net) {
      var d :| d in cs && d.isNAT && Addressed(d) && Reservation(cur) == Reservation(d);
      MasterNameInjective(d.name, cur.name);
      UniqueName(cs, d, cur);
    }
  }

  lemma NetworkUndone(w: World, saved: bool)
    requires w.os.Linux? && w.proc.Undoing? && w.proc.k == 11
    ensures var net' := if w.proc.cur.isNAT then RemoveHost(w.net, Reservation(w.proc.cur)) else w.net;
            UndoStageStep(w, true, saved) ==
            w.(net := net', proc := Undoing(w.proc.cur, w.proc.rec, 11, true))
  {
    hide Without;
    assert Pipeline(w.os)[10] == CreateNetwork;
  }

  lemma NetworkUndoRes(w: World, saved: bool)
    requires UndoFacts(w) && w.proc.k == 11
    ensures ResCore(UndoStageStep(w, true, saved))
  {
    hide UndoStageStep, NoForeign, AllReserved, AllAddressed, ResCore;
    NetworkUndone(w, saved);
    var cur := w.proc.cur;
    if cur.isNAT {
      RemovedLists(w.mem.clusters, w.recs, w.net, cur);
      RemovedLists(w.disk.clusters, w.recs, w.net, cur);
    } else {
      NoBridgeReservation(w.mem.clusters, w.net, cur);
      ExceptMore(w.mem.clusters, w.recs, w.net, {cur.name});
      ExceptMore(w.disk.clusters, w.recs, w.net, {cur.name});
    }
    UndoneCore(w, UndoStageStep(w, true, saved));
  }

  lemma ExceptMore(cs: seq<Cluster>, recs: map<string, set<Stage>>, net: Net, except: set<string>)
    requires ListsOk(cs, recs, net, {})
    ensures ListsOk(cs, recs, net, except)
  {
  }

  lemma ReleaseRes(w: World, saved: bool)
    requires UndoFacts(w) && w.proc.k == 2
    ensures ResCore(UndoStageStep(w, true, saved))
  {
    var v := ViewOf(w);
    var w' := UndoStageStep(w, true, saved);
    var c := w'.proc.cur;
    assert w'.mem.clusters == Put(v.cfg.clusters, c);
    AddressLists(v, c, w.recs, w.net, {});
    PutMembers(v.cfg.clusters, c);
    EmptyForeign(w.mem.clusters, w.net, c);
    UndoneCore(w, w');
  }

  /** No reservation is without a MAC. */
  lemma EmptyForeign(cs: seq<Cluster>, net: Net, c: Cluster)
    requires NoForeign(cs, net) && FirstOrEmpty(c.macs) == ""
    ensures Reservation(c) !in Hosts(net)
  {
  }

  /** Dropping an entry whose reservation is gone. */
  lemma SpliceLists(cs: seq<Cluster>, cur: Cluster, recs: map<string, set<Stage>>, net: Net)
    requires Unique(cs) && cur in cs && Reservation(cur) !in Hosts(net) && ListsOk(cs, recs, net, {})
    ensures ListsOk(Splice(cs, cur.name), recs, net, {})
  {
    SpliceMembers(cs, cur.name);
    forall h | h in Hosts(net)
      ensures exists c :: c in Splice(cs, cur.name) && c.isNAT && Addressed(c) && h == Reservation(c)
    {
      var c :| c in cs && c.isNAT && Addressed(c) && h == Reservation(c);
      if c.name == cur.name {
        UniqueName(cs, c, cur);
      }
      assert c in Splice(cs, cur.name);
    }
  }

  lemma UnregisterRes(w: World, saved: bool)
    requires UndoFacts(w) && w.proc.k == 1
    ensures ResCore(UndoStageStep(w, true, saved))
  {
    SpliceLists(w.mem.clusters, w.proc.cur, w.recs, w.net);
    UndoneCore(w, UndoStageStep(w, true, saved));
  }

  lemma UndoStageRes(w: World, ok: bool, saved: bool)
    requires UndoFacts(w)
    requires ok || MayFailToUndo(w, Pipeline(w.os)[w.proc.k - 1])
    ensures ResCore(UndoStageStep(w, ok, saved))
  {
    if QuietUndo(Pipeline(w.os)[w.proc.k - 1]) || !ok {
      QuietUndoRes(w, ok, saved);
    } else if w.proc.k == 11 {
      NetworkUndoRes(w, saved);
    } else if w.proc.k == 2 {
      ReleaseRes(w, saved);
    } else if w.proc.k == 1 {
      UnregisterRes(w, saved);
    } else {
      PlainUndoRes(w, saved);
    }
  }

  // ----- records -----

  lemma RecordRes(w: World)
    requires ResOk(w) && w.proc.Applying? && w.proc.done && w.proc.k < |Pipeline(w.os)|
    ensures ResCore(RecordStep(w))
  {
    var w' := RecordStep(w);
    var cur := w.proc.cur;
    MemSafe(w);
    forall c | c in w.disk.clusters && c.isNAT
      ensures CreateNetwork in StagesOf(w'.recs, c.name) ==> Reservation(c) in Hosts(w.net)
      ensures EmbedIgnitionISO in StagesOf(w'.recs, c.name) ==> Addressed(c)
    {
      if c.name == cur.name {
        UniqueName(w.mem.clusters, c, cur);
        StagesDistinct(w.os);
      }
    }
  }

  lemma SkipRes(w: World)
    requires ResOk(w) && w.proc.Applying? && !w.proc.done && w.proc.k < |Pipeline(w.os)|
    requires Pipeline(w.os)[w.proc.k] in w.proc.rec
    ensures ResCore(w.(proc := Applying(w.proc.cur, w.proc.rec, w.proc.k + 1, false)))
  {
    assert w.proc.cur in w.disk.clusters;
  }

  lemma EraseRes(w: World)
    requires ResCore(w) && w.os.Linux? && w.proc.Undoing? && w.proc.done && 0 < w.proc.k <= |Pipeline(w.os)|
    requires w.proc.rec == Prefix(w.os, w.proc.k)
    ensures ResCore(EraseStep(w))
  {
    hide Prefix, Hosts;
    StagesDistinct(w.os);
    PrefixMember(w.os, w.proc.k, 10);
    PrefixMember(w.os, w.proc.k, 9);
    assert Pipeline(w.os)[10] == CreateNetwork && Pipeline(w.os)[9] == EmbedIgnitionISO;
  }

  // ----- commands -----

  lemma SetStateRes(w: World, name: string, from: set<ClusterState>, to: ClusterState, saved: bool)
    requires ResOk(w) && w.proc.Idle? && w.mem == w.disk
    ensures ResCore(SetStateStep(w, name, from, to, saved))
  {
    match Find(w.mem.clusters, name)
    case None =>
    case Some(c) => PlainLists(View(c, w.mem, w.net, w.vms), c.(state := to), w.recs, w.net, {});
  }

  lemma BeginCreateRes(w: World, spec: Cluster)
    requires ResOk(w) && w.proc.Idle? && Clean(w, BeginCreate(spec))
    ensures ResCore(BeginCreateStep(w, spec))
  {
  }

  lemma BeginDeleteRes(w: World, name: string, saved: bool)
    requires ResOk(w) && w.proc.Idle? && Clean(w, BeginDelete(name, saved))
    ensures ResCore(BeginDeleteStep(w, name, saved))
  {
    match Find(w.mem.clusters, name)
    case None =>
    case Some(c) =>
      if c.state == Running {
        var c' := c.(state := Stopped);
        PlainLists(View(c, w.mem, w.net, w.vms), c', w.recs, w.net, {});
        PutMembers(w.mem.clusters, c');
        assert Reservation(c') == Reservation(c);
      }
  }

  lemma FinishCreateRes(w: World, saved: bool)
    requires ResOk(w) && w.proc.Applying? && w.proc.k == |Pipeline(w.os)|
    ensures ResCore(FinishCreateStep(w, saved))
  {
    var v := ViewOf(w);
    PlainLists(v, w.proc.cur.(state := Running), w.recs, w.net, {});
  }

  lemma FinishDeleteRes(w: World, saved: bool)
    requires ResOk(w) && w.proc.Undoing? && w.proc.k == 0
    ensures ResCore(FinishDeleteStep(w, saved))
  {
    assert forall n :: StagesOf(w.recs - {w.proc.cur.name}, n) <= StagesOf(w.recs, n);
  }

  // ----- reset -----

  lemma {:induction false} RestoresAreReservations(nats: seq<Cluster>)
    requires forall c :: c in nats ==> c.masterMAC == "" && c.masterIP == ""
    ensures forall h :: Restore(h) in Restores(nats) ==> exists c :: c in nats && Addressed(c) && h == Reservation(c)
    ensures Prune !in Restores(nats)
  {
    if nats != [] {
      RestoresAreReservations(nats[1..]);
      assert forall c :: c in nats[1..] ==> c in nats;
      assert nats[0] in nats;
    }
  }

  lemma {:induction false} RestoresNoRepeat(nats: seq<Cluster>)
    requires Unique(nats)
    ensures NoRepeat(Restores(nats))
    ensures forall a :: a in Restores(nats) ==>
              a.Restore? && exists i :: 0 <= i < |nats| && a.host.hostname == MasterName(nats[i].name)
  {
    if nats != [] {
      var rest := nats[1..];
      RestoresNoRepeat(rest);
      assert forall i :: 0 <= i < |rest| ==> rest[i] == nats[i + 1];
      forall a | a in Restores(rest) ensures a.host.hostname != MasterName(nats[0].name) {
        var i :| 0 <= i < |rest| && a.host.hostname == MasterName(rest[i].name);
        if MasterName(rest[i].name) == MasterName(nats[0].name) {
          MasterNameInjective(rest[i].name, nats[0].name);
        }
      }
    }
  }

  lemma {:induction false} NatClustersUnique(cs: seq<Cluster>)
    requires Unique(cs)
    ensures Unique(NatClusters(cs))
  {
    if cs != [] {
      var rest := cs[1..];
      assert forall i :: 0 <= i < |rest| ==> rest[i] == cs[i + 1];
      NatClustersUnique(rest);
      var r := NatClusters(rest);
      forall j | 0 <= j < |r| ensures r[j].name != cs[0].name {
        assert r[j] in r;
      }
    }
  }

  lemma BeginResetRes(w: World, up: set<string>, force: bool)
    requires ResOk(w) && w.proc.Idle? && w.mem == w.disk
    ensures ResCore(BeginResetStep(w, up, force))
  {
    var plan := MakePlan(w.mem, w.net, up, force);
    var cs := w.mem.clusters;
    if plan.HasWork() && !plan.blocked {
      MemSafe(w);
      SafeClashFree(cs, w.mem.usedIPs, w.mem.usedMACs);
      var todo := Actions(plan, cs);
      if plan.recreate {
        BeginRecreateRes(w, up, force);
      } else {
        forall h | h in Hosts(w.net) ensures !Orphan(h, cs) {
          var c :| c in cs && c.isNAT && Addressed(c) && h == Reservation(c);
          ReservationKnown(cs, c);
        }
        NoOrphans(Hosts(w.net), cs);
        assert todo == [Prune];
        assert ActAll(w.net, todo) == ActAll(w.net, todo[1..]) == w.net;
      }
    }
  }

  /** The actions of a recreate. */
  lemma RecreateTodo(cs: seq<Cluster>, plan: Plan)
    requires plan.recreate && Unique(cs) && NatPlain(cs)
    ensures var todo := Actions(plan, cs); EndsInPrune(todo) && NoRepeat(todo) && todo[0] == TearDown
  {
    hide EndsInPrune, NoRepeat;
    var mid := RebuildPart(cs);
    RebuildPartOk(cs);
    assert Actions(plan, cs) == [TearDown] + mid + [Prune];
    Bracketed(mid);
  }

  function RebuildPart(cs: seq<Cluster>): seq<Action> {
    if NatClusters(cs) == [] then [] else [Rebuild] + Restores(NatClusters(cs))
  }

  lemma RebuildPartOk(cs: seq<Cluster>)
    requires Unique(cs) && NatPlain(cs)
    ensures NoRepeat(RebuildPart(cs)) && TearDown !in RebuildPart(cs) && Prune !in RebuildPart(cs)
  {
    var nats := NatClusters(cs);
    RestoresAreReservations(nats);
    NatClustersUnique(cs);
    RestoresNoRepeat(nats);
    var mid := RebuildPart(cs);
    if nats != [] {
      assert forall i :: 0 < i < |mid| ==> mid[i] == Restores(nats)[i - 1] && mid[i] in Restores(nats);
    }
  }

  lemma RecreateRestores(cs: seq<Cluster>, plan: Plan, h: DHCPHost)
    requires plan.recreate && NatPlain(cs) && Restore(h) in Actions(plan, cs)
    ensures exists c :: c in cs && c.isNAT && Addressed(c) && h == Reservation(c)
  {
    var nats := NatClusters(cs);
    RestoresAreReservations(nats);
    assert Restore(h) in Restores(nats);
  }

  lemma Bracketed(mid: seq<Action>)
    requires NoRepeat(mid) && TearDown !in mid && Prune !in mid
    ensures EndsInPrune([TearDown] + mid + [Prune]) && NoRepeat([TearDown] + mid + [Prune])
  {
    var todo := [TearDown] + mid + [Prune];
    assert forall i :: 0 < i < |todo| - 1 ==> todo[i] == mid[i - 1] && todo[i] in mid;
  }

  lemma BeginRecreateRes(w: World, up: set<string>, force: bool)
    requires ResOk(w) && w.proc.Idle? && w.mem == w.disk && ClashFree(w.mem.clusters) && NatPlain(w.mem.clusters)
    requires var plan := MakePlan(w.mem, w.net, up, force); plan.recreate && !plan.blocked
    ensures ResCore(BeginResetStep(w, up, force))
  {
    var plan := MakePlan(w.mem, w.net, up, force);
    var cs := w.mem.clusters;
    ResetHosts(w.mem, w.net, up, force);
    MemSafe(w);
    RecreateTodo(cs, plan);
    forall h | Restore(h) in Actions(plan, cs)
      ensures exists c :: c in cs && c.isNAT && Addressed(c) && h == Reservation(c)
    {
      RecreateRestores(cs, plan, h);
    }
    forall c | c in cs && c.isNAT && CreateNetwork in StagesOf(w.recs, c.name) ensures Addressed(c) {
      EmbedBeforeNetwork(w, c.name);
    }
    var w' := BeginResetStep(w, up, force);
    assert EndNet(w') == After(w.mem, w.net, up, force).1;
  }

  lemma EmbedBeforeNetwork(w: World, name: string)
    requires RecordsOk(w) && w.os.Linux? && CreateNetwork in StagesOf(w.recs, name)
    ensures EmbedIgnitionISO in StagesOf(w.recs, name)
  {
    RecordedIsPrefix(w, name);
    var n :| 0 <= n <= |Pipeline(w.os)| && Recorded(w, name) == Prefix(w.os, n);
    PrefixMember(w.os, n, 10);
    PrefixMember(w.os, n, 9);
    assert Pipeline(w.os)[10] == CreateNetwork && Pipeline(w.os)[9] == EmbedIgnitionISO;
  }

  lemma ResetStepRes(w: World, saved: bool)
    requires ResCore(w) && w.proc.Resetting? && w.proc.todo != []
    ensures ResCore(ResetStepStep(w, saved))
  {
    var a := w.proc.todo[0];
    if a.Prune? {
      assert |w.proc.todo| == 1;
      assert ActAll(w.net, w.proc.todo) == ActAll(w.net, w.proc.todo[1..]) == w.net;
    } else {
      ResetActionRes(w);
      assert ResetStepStep(w, saved) == ResetStepStep(w, true);
    }
  }

  /** A reset's next action puts no foreign reservation on the network. */
  lemma ActionOwn(cs: seq<Cluster>, net: Net, todo: seq<Action>)
    requires todo != [] && NoForeign(cs, net)
    requires forall h :: Restore(h) in todo ==> exists c :: c in cs && c.isNAT && Addressed(c) && h == Reservation(c)
    ensures NoForeign(cs, ActOnNet(net, todo[0]))
  {
    var net' := ActOnNet(net, todo[0]);
    if todo[0].Restore? {
      assert Restore(todo[0].host) in todo;
      assert forall h :: h in Hosts(net') ==> h in Hosts(net) || h == todo[0].host;
    } else {
      assert forall h :: h in Hosts(net') ==> h in Hosts(net);
    }
  }

  /** What is still to be restored is not on the network yet. */
  lemma PendingStep(net: Net, todo: seq<Action>)
    requires todo != [] && NoRepeat(todo)
    requires TearDown in todo ==> todo[0] == TearDown
    requires TearDown !in todo ==> forall h :: Restore(h) in todo ==> h !in Hosts(net)
    ensures NoRepeat(todo[1..]) && TearDown !in todo[1..]
    ensures forall h :: Restore(h) in todo[1..] ==> h !in Hosts(ActOnNet(net, todo[0]))
  {
    var rest := todo[1..];
    assert forall j :: 0 <= j < |rest| ==> rest[j] == todo[j + 1];
    assert forall b :: b in rest ==> b in todo && b != todo[0];
    var net' := ActOnNet(net, todo[0]);
    if todo[0].Restore? {
      assert forall h :: h in Hosts(net') ==> h in Hosts(net) || h == todo[0].host;
    }
  }

  lemma ResetActionRes(w: World)
    requires ResCore(w) && w.proc.Resetting? && w.proc.todo != [] && !w.proc.todo[0].Prune?
    ensures ResCore(ResetStepStep(w, true))
  {
    var a, todo' := w.proc.todo[0], w.proc.todo[1..];
    assert EndsInPrune(todo');
    assert forall b :: b in todo' ==> b in w.proc.todo;
    PendingStep(w.net, w.proc.todo);
    ActionOwn(w.disk.clusters, w.net, w.proc.todo);
    assert ActAll(ActOnNet(w.net, a), todo') == ActAll(w.net, w.proc.todo);
    hide ActAll, ActOnNet, Hosts, Reservation, Addressed;
  }

  /** A process that ends outside the windows, its memory gone or not. */
  lemma InterruptRes(w: World, w': World)
    requires ResOk(w) && !Exposed(w)
    requires w' == w.(mem := w'.mem, proc := Idle)
    ensures ResCore(w')
  {
    hide AddressSafe, RecordsOk, ResCore, Exposed;
    if w.proc.Resetting? {
      InterruptReset(w, w');
    } else if w.proc.Undoing? && w.proc.done && w.proc.k == 11 {
      InterruptedRollback(w);
      InterruptRollback(w, w');
    } else {
      InterruptPlain(w, w');
    }
  }

  lemma InterruptReset(w: World, w': World)
    requires ResCore(w) && w.proc.Resetting? && !Exposed(w)
    requires w' == w.(mem := w'.mem, proc := Idle)
    ensures ResCore(w')
  {
    hide AllReserved, NoForeign, AllAddressed, ResetOk, Exposed;
    DeathInReset(w);
    assert NetConsistent(Step(w, Crash));
  }

  lemma InterruptRollback(w: World, w': World)
    requires ResCore(w) && w.proc.Undoing? && w.proc.done && w.proc.k == 11
    requires forall c :: c in w.disk.clusters && c.name == w.proc.cur.name ==> !c.isNAT
    requires w' == w.(mem := w'.mem, proc := Idle)
    ensures ResCore(w')
  {
    hide NoForeign, AllAddressed, UndoingOk;
  }

  lemma InterruptPlain(w: World, w': World)
    requires ResCore(w) && !w.proc.Resetting? && BeingUndone(w) == {}
    requires w' == w.(mem := w'.mem, proc := Idle)
    ensures ResCore(w')
  {
    hide AllReserved, NoForeign, AllAddressed, ApplyingOk, UndoingOk;
  }

  lemma InterruptedRollback(w: World)
    requires ResOk(w) && !Exposed(w) && w.proc.Undoing? && w.proc.done && w.proc.k == 11
    ensures forall c :: c in w.disk.clusters && c.name == w.proc.cur.name ==> !c.isNAT
  {
    hide NoForeign, AllReserved, AllAddressed, RecordsOk;
    assert Unique(w.disk.clusters);
    var e :| e in w.disk.clusters && e.name == w.proc.cur.name && e.isNAT == w.proc.cur.isNAT;
    forall c | c in w.disk.clusters && c.name == w.proc.cur.name ensures !c.isNAT {
      UniqueName(w.disk.clusters, c, e);
    }
  }

  /** In a recreate, what is not there at the end of the actions so far is still to be restored. */
  lemma {:induction false} PendingRestore(net: Net, todo: seq<Action>, h: DHCPHost)
    requires h in Hosts(ActAll(net, todo)) && h !in Hosts(net)
    ensures Restore(h) in todo
    decreases |todo|
  {
    if todo != [] {
      var net' := ActOnNet(net, todo[0]);
      if h !in Hosts(net') {
        PendingRestore(net', todo[1..], h);
      }
    }
  }

  lemma DeathInReset(w: World)
    requires ResCore(w) && w.proc.Resetting?
    ensures NetConsistent(Step(w, Crash)) <==> !Exposed(w)
  {
    if TearDown !in w.proc.todo {
      forall c | c in w.disk.clusters && c.isNAT && CreateNetwork in StagesOf(w.recs, c.name)
        ensures Reservation(c) !in Hosts(w.net) <==> Restore(Reservation(c)) in w.proc.todo
      {
        if Reservation(c) !in Hosts(w.net) {
          PendingRestore(w.net, w.proc.todo, Reservation(c));
        }
      }
    }
  }

  lemma SkipUndoRes(w: World)
    requires ResCore(w) && w.proc.Undoing? && !w.proc.done && 0 < w.proc.k
    ensures ResCore(w.(proc := Undoing(w.proc.cur, w.proc.rec, w.proc.k - 1, false)))
  {
  }

  lemma ApplyingRes(w: World, l: Label)
    requires ResOk(w) && Clean(w, l) && w.proc.Applying? && !l.Crash? && !l.Abort?
    ensures ResCore(Step(w, l))
  {
    hide BeginCreateStep, DoStageStep, FailStageStep, RecordStep, FinishCreateStep, SetStateStep;
    hide BeginDeleteStep, UndoStageStep, EraseStep, FinishDeleteStep, BeginResetStep, ResetStepStep;
    hide ResCore, RecordsOk, AddressSafe, Clean;
    var stages := Pipeline(w.os);
    match l
    case DoStage(draws, saved) =>
      if !w.proc.done && w.proc.k < |stages| && stages[w.proc.k] !in w.proc.rec { DoStageRes(w, draws, saved); }
    case FailStage(partial) =>
      if !w.proc.done && w.proc.k < |stages| && stages[w.proc.k] !in w.proc.rec {
        StageFactsHold(w);
        FailRes(w, partial);
      }
    case Record => if w.proc.done && w.proc.k < |stages| { RecordRes(w); }
    case Skip => if !w.proc.done && w.proc.k < |stages| && stages[w.proc.k] in w.proc.rec { SkipRes(w); }
    case FinishCreate(saved) => if w.proc.k == |stages| { FinishCreateRes(w, saved); }
    case _ =>
  }

  lemma DoneRec(w: World)
    requires RecordsOk(w) && w.proc.Undoing? && w.proc.done
    ensures w.proc.rec == Prefix(w.os, w.proc.k)
  {
  }

  lemma UndoingRes(w: World, l: Label)
    requires ResOk(w) && Clean(w, l) && w.proc.Undoing? && !l.Crash? && !l.Abort?
    ensures ResCore(Step(w, l))
  {
    hide BeginCreateStep, DoStageStep, FailStageStep, RecordStep, FinishCreateStep, SetStateStep;
    hide BeginDeleteStep, UndoStageStep, EraseStep, FinishDeleteStep, BeginResetStep, ResetStepStep;
    hide ResCore, RecordsOk, AddressSafe, MayFailToUndo, Exposed, BridgeOutside;
    var stages := Pipeline(w.os);
    match l
    case UndoStage(ok, saved) =>
      if !w.proc.done && 0 < w.proc.k <= |stages| && stages[w.proc.k - 1] in w.proc.rec {
        UndoFactsHold(w);
        UndoStageRes(w, ok, saved);
      }
    case Erase =>
      if w.proc.done && 0 < w.proc.k <= |stages| {
        DoneRec(w);
        EraseRes(w);
      }
    case SkipUndo =>
      if !w.proc.done && 0 < w.proc.k <= |stages| && stages[w.proc.k - 1] !in w.proc.rec { SkipUndoRes(w); }
    case FinishDelete(saved) => if w.proc.k == 0 { FinishDeleteRes(w, saved); }
    case _ =>
  }

  lemma IdleRes(w: World, l: Label)
    requires ResOk(w) && Clean(w, l) && !w.proc.Applying? && !w.proc.Undoing? && !l.Crash? && !l.Abort?
    ensures ResCore(Step(w, l))
  {
    hide BeginCreateStep, DoStageStep, FailStageStep, RecordStep, FinishCreateStep, SetStateStep;
    hide BeginDeleteStep, UndoStageStep, EraseStep, FinishDeleteStep, BeginResetStep, ResetStepStep;
    match l
    case BeginCreate(spec) => if w.proc.Idle? { BeginCreateRes(w, spec); }
    case BeginDelete(name, saved) => if w.proc.Idle? { BeginDeleteRes(w, name, saved); }
    case Start(name, saved) =>
      if w.proc.Idle? { SetStateRes(w, name, {NoState, Creating, Stopped}, Running, saved); }
    case Stop(name, saved) => if w.proc.Idle? { SetStateRes(w, name, {Running}, Stopped, saved); }
    case BeginReset(up, force) => if w.proc.Idle? { BeginResetRes(w, up, force); }
    case ResetStep(saved) => if w.proc.Resetting? && w.proc.todo != [] { ResetStepRes(w, saved); }
    case _ =>
  }

  /** Every clean step keeps reservations consistent. */
  lemma StepRes(w: World, l: Label)
    requires ResOk(w) && Clean(w, l)
    ensures ResOk(Step(w, l))
  {
    StepSafe(w, l);
    StepRecords(w, l);
    if l.Crash? || l.Abort? {
      InterruptRes(w, Step(w, l));
    } else if w.proc.Applying? {
      ApplyingRes(w, l);
    } else if w.proc.Undoing? {
      UndoingRes(w, l);
    } else {
      IdleRes(w, l);
    }
  }

  ghost predicate CleanRun(w: World, ls: seq<Label>)
    decreases |ls|
  {
    ls == [] || (CleanRun(w, ls[..|ls| - 1]) && Clean(Run(w, ls[..|ls| - 1]), ls[|ls| - 1]))
  }

  lemma {:induction false} RunRes(w: World, ls: seq<Label>)
    requires ResOk(w) && CleanRun(w, ls)
    ensures ResOk(Run(w, ls))
    decreases |ls|
  {
    if ls != [] {
      RunRes(w, ls[..|ls| - 1]);
      StepRes(Run(w, ls[..|ls| - 1]), ls[|ls| - 1]);
    }
  }

  /** A host between commands: every NAT cluster has what its records say, and the network holds nothing else. */
  ghost predicate Consistent(w: World) {
    && w.os.Linux? && w.proc.Idle? && AddressSafe(w) && RecordsOk(w)
    && NetConsistent(w) && AllAddressed(w.disk.clusters, w.recs)
  }

  /** A host without clusters is consistent, whatever DHCP range an earlier version left. */
  lemma FreshConsistent(net: Net)
    requires Hosts(net) == []
    ensures Consistent(Fresh(Linux).(net := net))
  {
  }

  /**
   Reservation consistency over every clean run from any consistent host:
   whenever no command is in progress, each registered NAT cluster recorded past
   create-network has its reservation and the network holds no others.
   */
  lemma ReservationsConsistent(w: World, ls: seq<Label>)
    requires Consistent(w) && CleanRun(w, ls)
    ensures Run(w, ls).proc.Idle? ==> Consistent(Run(w, ls))
  {
    RunRes(w, ls);
  }

  /**
   The windows are exact: a process that ends at any point a clean run reaches
   leaves the persisted world consistent if and only if it is not inside one.
   */
  lemma DeathExact(w: World)
    requires ResOk(w)
    ensures NetConsistent(Step(w, Crash)) <==> !Exposed(w)
  {
    if !Exposed(w) {
      InterruptRes(w, Step(w, Crash));
    } else if w.proc.Resetting? {
      DeathInReset(w);
    } else {
      hide UndoingOk, NetConsistent;
      RecordedAtNetwork(w);
      ExposedByRollback(w);
    }
  }

  lemma ExposedByRollback(w: World)
    requires w.proc.Undoing? && w.proc.done && w.proc.k == 11 && w.proc.cur.isNAT
    requires UndoingOk(w) && CreateNetwork in w.proc.rec
    ensures !NetConsistent(Step(w, Crash))
  {
    hide ListsOk, NoForeign;
    var e :| e in w.disk.clusters && e.name == w.proc.cur.name && e.isNAT == w.proc.cur.isNAT
             && Reservation(e) == Reservation(w.proc.cur);
    assert CreateNetwork in StagesOf(w.recs, e.name) && Reservation(e) !in Hosts(w.net);
  }

  lemma RecordedAtNetwork(w: World)
    requires RecordsOk(w) && w.os.Linux? && w.proc.Undoing? && w.proc.done && w.proc.k == 11
    ensures CreateNetwork in w.proc.rec
  {
    PrefixMember(w.os, 11, 10);
    assert Pipeline(w.os)[10] == CreateNetwork;
  }

  /**
   Why a delete must know the reservation: releasing a cluster's addresses
   leaves no foreign reservation if and only if its own is already gone.
   */
  lemma ReleaseExact(v: View)
    requires Linked(v) && v.Attached() && v.cur.isNAT && Addressed(v.cur)
    requires NoForeign(v.cfg.clusters, v.net)
    ensures NoForeign(Undo(Linux, AllocateNetwork, v).cfg.clusters, v.net) <==> Reservation(v.cur) !in Hosts(v.net)
  {
    var c := v.cur.(ips := [], macs := []);
    var cs' := Put(v.cfg.clusters, c);
    PutMembers(v.cfg.clusters, c);
    if Reservation(v.cur) in Hosts(v.net) {
      forall d | d in cs' && d.isNAT && Addressed(d) ensures Reservation(d) != Reservation(v.cur) {
        if Reservation(d) == Reservation(v.cur) {
          MasterNameInjective(d.name, v.cur.name);
        }
      }
    } else {
      forall h | h in Hosts(v.net) ensures exists d :: d in cs' && d.isNAT && Addressed(d) && h == Reservation(d) {
        var d :| d in v.cfg.clusters && d.isNAT && Addressed(d) && h == Reservation(d);
        if d.name == c.name {
          UniqueName(v.cfg.clusters, d, v.cur);
        }
        assert d in cs';
      }
    }
  }
}

/**
 `nat-network reset`: the drift plan and the actions that carry it out
 (app/natreset.go), with proofs that a carried-out plan leaves nothing to do
 and touches nothing a registered cluster owns.
 */
module NatReset {
  import opened Text
  import opened Addresses
  import opened Model

  datatype Plan = Plan(
    rangeOutdated: bool,
    orphans: seq<DHCPHost>,
    leakedIPs: set<string>,
    leakedMACs: set<string>,
    running: set<string>,
    recreate: bool,
    blocked: bool)
  {
    predicate HasWork() {
      recreate || |orphans| > 0 || leakedIPs != {} || leakedMACs != {}
    }
  }

  function KnownIPs(cs: seq<Cluster>): set<string> {
    set c, ip | c in cs && ip in c.ips :: ip
  }

  function KnownMACs(cs: seq<Cluster>): set<string> {
    set c, mac | c in cs && mac in c.macs :: Lower(mac)
  }

  predicate Orphan(h: DHCPHost, cs: seq<Cluster>) {
    Lower(h.mac) !in KnownMACs(cs) && h.ip !in KnownIPs(cs)
  }

  function Orphans(hs: seq<DHCPHost>, cs: seq<Cluster>): (r: seq<DHCPHost>)
    ensures forall h :: h in r <==> h in hs && Orphan(h, cs)
  {
    if hs == [] then []
    else if Orphan(hs[0], cs) then [hs[0]] + Orphans(hs[1..], cs)
    else Orphans(hs[1..], cs)
  }

  function NatClusters(cs: seq<Cluster>): (r: seq<Cluster>)
    ensures forall c :: c in r <==> c in cs && c.isNAT
  {
    if cs == [] then []
    else if cs[0].isNAT then [cs[0]] + NatClusters(cs[1..])
    else NatClusters(cs[1..])
  }

  /** A defined network whose range start is present and not the current one. */
  predicate Outdated(net: Net) {
    net.Defined? && net.start != "" && net.start != RANGE_START
  }

  /** PlanNATReset; `up` is what the VM manager answers for each cluster's master. */
  function MakePlan(cfg: Cfg, net: Net, up: set<string>, force: bool): Plan {
    var outdated := Outdated(net);
    var running := set c | c in cfg.clusters && outdated && c.isNAT && c.name in up :: c.name;
    Plan(outdated,
         Orphans(Hosts(net), cfg.clusters),
         cfg.usedIPs - KnownIPs(cfg.clusters),
         (set m | m in cfg.usedMACs && Lower(m) !in KnownMACs(cfg.clusters)),
         running,
         outdated,
         running != {} && !force)
  }

  // ----- when a reset has work, and when it is blocked -----

  /** The network exists with a DHCP range that starts elsewhere than the current one. */
  ghost predicate MustRecreate(net: Net) {
    net.Defined? && net.start != "" && net.start != "192.168.126.100"
  }

  ghost predicate OwnsIP(cs: seq<Cluster>, ip: string) {
    exists c :: c in cs && ip in c.ips
  }

  /** MACs are compared without case. */
  ghost predicate OwnsMAC(cs: seq<Cluster>, mac: string) {
    exists c, m :: c in cs && m in c.macs && Lower(m) == Lower(mac)
  }

  /** A range to replace, or a reservation or a mark without a cluster. */
  ghost predicate SomethingToDo(cfg: Cfg, net: Net) {
    || MustRecreate(net)
    || (exists h :: h in Hosts(net) && !OwnsIP(cfg.clusters, h.ip) && !OwnsMAC(cfg.clusters, h.mac))
    || (exists ip :: ip in cfg.usedIPs && !OwnsIP(cfg.clusters, ip))
    || (exists mac :: mac in cfg.usedMACs && !OwnsMAC(cfg.clusters, mac))
  }

  /** Recreating the network would cut off a NAT cluster whose master is up. */
  ghost predicate WouldDisrupt(cfg: Cfg, net: Net, up: set<string>) {
    MustRecreate(net) && exists c :: c in cfg.clusters && c.isNAT && c.name in up
  }

  lemma PlanExact(cfg: Cfg, net: Net, up: set<string>, force: bool)
    ensures var plan := MakePlan(cfg, net, up, force);
            && (plan.recreate <==> MustRecreate(net))
            && (plan.HasWork() <==> SomethingToDo(cfg, net))
            && (plan.blocked <==> WouldDisrupt(cfg, net, up) && !force)
  {
    var plan := MakePlan(cfg, net, up, force);
    assert RANGE_START == "192.168.126.100";
    assert forall ip :: ip in KnownIPs(cfg.clusters) <==> OwnsIP(cfg.clusters, ip);
    forall mac ensures Lower(mac) in KnownMACs(cfg.clusters) <==> OwnsMAC(cfg.clusters, mac) {
      OwnedMAC(cfg.clusters, mac);
    }
    if plan.orphans != [] {
      assert plan.orphans[0] in plan.orphans;
    }
    if c :| c in cfg.clusters && c.isNAT && c.name in up {
      assert plan.recreate ==> c.name in plan.running;
    }
    LeakedExact(cfg, net, up, force);
  }

  lemma OwnedMAC(cs: seq<Cluster>, mac: string)
    ensures Lower(mac) in KnownMACs(cs) <==> OwnsMAC(cs, mac)
  {
  }

  lemma LeakedExact(cfg: Cfg, net: Net, up: set<string>, force: bool)
    ensures var plan := MakePlan(cfg, net, up, force);
            && (forall ip :: ip in plan.leakedIPs <==> ip in cfg.usedIPs && ip !in KnownIPs(cfg.clusters))
            && (forall m :: m in plan.leakedMACs <==> m in cfg.usedMACs && Lower(m) !in KnownMACs(cfg.clusters))
            && (forall n :: n in plan.running <==>
                  Outdated(net) && exists c :: c in cfg.clusters && c.isNAT && c.name in up && c.name == n)
  {
  }

  /** ApplyNATReset as the list of its externally visible actions, in order. */
  datatype Action = TearDown | Rebuild | Restore(host: DHCPHost) | Remove(host: DHCPHost) | Prune

  function Restores(nats: seq<Cluster>): seq<Action> {
    if nats == [] then []
    else
      var mac, ip := PrimaryMAC(nats[0]), PrimaryIP(nats[0]);
      (if mac == "" || ip == "" then [] else [Restore(DHCPHost(mac, ip, MasterName(nats[0].name)))])
      + Restores(nats[1..])
  }

  function Removes(orphans: seq<DHCPHost>): seq<Action> {
    seq(|orphans|, i requires 0 <= i < |orphans| => Remove(orphans[i]))
  }

  function Actions(plan: Plan, cs: seq<Cluster>): seq<Action> {
    if plan.recreate then
      var nats := NatClusters(cs);
      [TearDown] + (if nats == [] then [] else [Rebuild] + Restores(nats)) + [Prune]
    else Removes(plan.orphans) + [Prune]
  }

  function ActOnNet(net: Net, a: Action): Net {
    match a
    case TearDown => Absent
    case Rebuild => Ensure(net)
    case Restore(h) => AddHost(net, h)
    case Remove(h) => RemoveHost(net, h)
    case Prune => net
  }

  function ActAll(net: Net, acts: seq<Action>): Net
    decreases |acts|
  {
    if acts == [] then net else ActAll(ActOnNet(net, acts[0]), acts[1..])
  }

  function PruneCfg(cfg: Cfg, plan: Plan): Cfg {
    cfg.(usedIPs := cfg.usedIPs - plan.leakedIPs, usedMACs := cfg.usedMACs - plan.leakedMACs)
  }

  lemma {:induction false} ActAllAppend(net: Net, a: seq<Action>, b: seq<Action>)
    ensures ActAll(net, a + b) == ActAll(ActAll(net, a), b)
    decreases |a|
  {
    if a == [] {
      assert a + b == b;
    } else {
      assert (a + b)[1..] == a[1..] + b;
      ActAllAppend(ActOnNet(net, a[0]), a[1..], b);
    }
  }

  // ----- the shape validated clusters have -----

  /** NAT clusters carry no user-supplied address (validateNew). */
  ghost predicate NatPlain(cs: seq<Cluster>) {
    forall c :: c in cs && c.isNAT ==> c.masterMAC == "" && c.masterIP == ""
  }

  ghost predicate Addressed(c: Cluster) {
    FirstOrEmpty(c.macs) != "" && FirstOrEmpty(c.ips) != ""
  }

  /** No two NAT clusters' reservations clash. */
  ghost predicate ClashFree(cs: seq<Cluster>) {
    forall i, j :: 0 <= i < j < |cs| && cs[i].isNAT && cs[j].isNAT && Addressed(cs[i]) && Addressed(cs[j]) ==>
                     !Clash(Reservation(cs[i]), Reservation(cs[j]))
  }

  // ----- in place -----

  lemma {:induction false} RemovesEffect(net: Net, orphans: seq<DHCPHost>)
    requires net.Defined?
    ensures var n := ActAll(net, Removes(orphans));
            n.Defined? && n.start == net.start && forall h :: h in n.hosts <==> h in net.hosts && h !in orphans
    decreases |orphans|
  {
    if orphans != [] {
      assert Removes(orphans)[1..] == Removes(orphans[1..]);
      assert forall h :: h in orphans <==> h == orphans[0] || h in orphans[1..];
      RemovesEffect(RemoveHost(net, orphans[0]), orphans[1..]);
    }
  }

  lemma {:induction false} RemovesOnAbsent(orphans: seq<DHCPHost>)
    ensures ActAll(Absent, Removes(orphans)) == Absent
  {
    if orphans != [] {
      assert Removes(orphans)[1..] == Removes(orphans[1..]);
      RemovesOnAbsent(orphans[1..]);
    }
  }

  // ----- recreate -----

  /** Restoring reservations keeps what is there, adds only NAT reservations, and misses none. */
  lemma {:induction false} RestoresEffect(net: Net, nats: seq<Cluster>)
    requires net.Defined?
    requires forall c :: c in nats ==> c.isNAT && c.masterMAC == "" && c.masterIP == ""
    requires ClashFree(nats)
    requires forall h, c :: h in net.hosts && c in nats && Addressed(c) ==> !Clash(h, Reservation(c))
    ensures var n := ActAll(net, Restores(nats));
            && n.Defined? && n.start == net.start
            && (forall h :: h in n.hosts <==>
                  h in net.hosts || exists c :: c in nats && Addressed(c) && h == Reservation(c))
    decreases |nats|
  {
    if nats != [] {
      var c0, rest := nats[0], nats[1..];
      assert c0 in nats;
      assert forall c :: c in nats <==> c == c0 || c in rest;
      assert forall i :: 0 <= i < |rest| ==> rest[i] == nats[i + 1];
      if Addressed(c0) {
        var acts := Restores(nats);
        assert acts[0] == Restore(Reservation(c0)) && acts[1..] == Restores(rest);
        var n1 := AddHost(net, Reservation(c0));
        assert n1.hosts == net.hosts + [Reservation(c0)];
        forall h, c | h in n1.hosts && c in rest && Addressed(c) ensures !Clash(h, Reservation(c)) {
          if h == Reservation(c0) {
            var j :| 0 <= j < |rest| && rest[j] == c;
            assert nats[0] == c0 && nats[j + 1] == c;
          }
        }
        RestoresEffect(n1, rest);
      } else {
        assert Restores(nats) == Restores(rest);
        RestoresEffect(net, rest);
      }
    }
  }

  lemma {:induction false} NatClustersClashFree(cs: seq<Cluster>)
    requires ClashFree(cs)
    ensures ClashFree(NatClusters(cs))
  {
    if cs != [] {
      assert forall i :: 0 <= i < |cs[1..]| ==> cs[1..][i] == cs[i + 1];
      NatClustersClashFree(cs[1..]);
      var r := NatClusters(cs[1..]);
      if cs[0].isNAT {
        forall j | 0 <= j < |r| && Addressed(cs[0]) && Addressed(r[j])
          ensures !Clash(Reservation(cs[0]), Reservation(r[j]))
        {
          assert r[j] in r;
          var k :| 0 <= k < |cs[1..]| && cs[1..][k] == r[j];
          assert cs[k + 1] == r[j];
        }
      }
    }
  }

  // ----- what a completed reset means -----

  /** The network and config after an unblocked plan was carried out to the end. */
  function After(cfg: Cfg, net: Net, up: set<string>, force: bool): (Cfg, Net) {
    var plan := MakePlan(cfg, net, up, force);
    (PruneCfg(cfg, plan), ActAll(net, Actions(plan, cfg.clusters)))
  }

  /** The reservations left by a completed reset, on both branches. */
  lemma ResetHosts(cfg: Cfg, net: Net, up: set<string>, force: bool)
    requires NatPlain(cfg.clusters) && ClashFree(cfg.clusters)
    ensures var net' := After(cfg, net, up, force).1;
            && !Outdated(net')
            && (forall h :: h in Hosts(net') <==>
                  if Outdated(net) then exists c :: c in cfg.clusters && c.isNAT && Addressed(c) && h == Reservation(c)
                  else h in Hosts(net) && !Orphan(h, cfg.clusters))
  {
    var plan := MakePlan(cfg, net, up, force);
    var cs := cfg.clusters;
    if plan.recreate {
      var nats := NatClusters(cs);
      if nats == [] {
        assert Actions(plan, cs) == [TearDown, Prune];
        assert ActAll(net, [TearDown, Prune]) == ActAll(Absent, [TearDown, Prune][1..]);
      } else {
        var acts := Actions(plan, cs);
        assert acts == [TearDown, Rebuild] + (Restores(nats) + [Prune]);
        ActAllAppend(net, [TearDown, Rebuild], Restores(nats) + [Prune]);
        assert ActAll(net, [TearDown, Rebuild]) == ActAll(Absent, [TearDown, Rebuild][1..]) == Defined(RANGE_START, []);
        ActAllAppend(Defined(RANGE_START, []), Restores(nats), [Prune]);
        NatClustersClashFree(cs);
        RestoresEffect(Defined(RANGE_START, []), nats);
      }
    } else {
      ActAllAppend(net, Removes(plan.orphans), [Prune]);
      if net.Defined? {
        RemovesEffect(net, plan.orphans);
      } else {
        RemovesOnAbsent(plan.orphans);
      }
    }
  }

  lemma {:induction false} NoOrphans(hs: seq<DHCPHost>, cs: seq<Cluster>)
    requires forall h :: h in hs ==> !Orphan(h, cs)
    ensures Orphans(hs, cs) == []
  {
    if hs != [] {
      NoOrphans(hs[1..], cs);
    }
  }

  /** A host naming an address of a registered cluster is no orphan. */
  lemma ReservationKnown(cs: seq<Cluster>, c: Cluster)
    requires c in cs && c.masterIP == "" && Addressed(c)
    ensures !Orphan(Reservation(c), cs)
  {
    assert c.ips[0] in c.ips;
    assert c.ips[0] in KnownIPs(cs);
  }

  /**
   After a reset has been carried out a fresh plan has no work, whoever is
   running and whatever --force says then.
   */
  lemma ResetConverges(cfg: Cfg, net: Net, up: set<string>, force: bool, up': set<string>, force': bool)
    requires NatPlain(cfg.clusters) && ClashFree(cfg.clusters)
    ensures var (cfg', net') := After(cfg, net, up, force);
            !MakePlan(cfg', net', up', force').HasWork()
  {
    var (cfg', net') := After(cfg, net, up, force);
    var again := MakePlan(cfg', net', up', force');
    ResetHosts(cfg, net, up, force);
    forall h | h in Hosts(net') ensures !Orphan(h, cfg.clusters) {
      if Outdated(net) {
        var c :| c in cfg.clusters && c.isNAT && Addressed(c) && h == Reservation(c);
        ReservationKnown(cfg.clusters, c);
      }
    }
    NoOrphans(Hosts(net'), cfg.clusters);
    assert again.leakedIPs == {};
    assert again.leakedMACs == {};
  }

  /**
   Frame of a completed reset: the cluster list is untouched, exactly the
   allocation marks of registered clusters survive, and a registered NAT
   cluster's reservation is there afterwards if it was there before or the
   network was recreated.
   */
  lemma ResetFrames(cfg: Cfg, net: Net, up: set<string>, force: bool)
    requires NatPlain(cfg.clusters) && ClashFree(cfg.clusters)
    ensures var (cfg', net') := After(cfg, net, up, force);
            && cfg'.clusters == cfg.clusters
            && cfg'.usedIPs == cfg.usedIPs * KnownIPs(cfg.clusters)
            && (forall m :: m in cfg'.usedMACs <==> m in cfg.usedMACs && Lower(m) in KnownMACs(cfg.clusters))
            && (forall c :: c in cfg.clusters && c.isNAT && Addressed(c) ==>
                  (Reservation(c) in Hosts(net') <==> Outdated(net) || Reservation(c) in Hosts(net)))
  {
    ResetHosts(cfg, net, up, force);
    forall c | c in cfg.clusters && c.isNAT && Addressed(c)
      ensures Reservation(c) in Hosts(After(cfg, net, up, force).1) <==> Outdated(net) || Reservation(c) in Hosts(net)
    {
      ReservationKnown(cfg.clusters, c);
    }
  }

  /** Whatever is built after a tear-down has the current range. */
  lemma {:induction false} CurrentKept(net: Net, acts: seq<Action>)
    requires net.Absent? || net.start == RANGE_START
    ensures var n := ActAll(net, acts); n.Absent? || n.start == RANGE_START
    decreases |acts|
  {
    if acts != [] {
      CurrentKept(ActOnNet(net, acts[0]), acts[1..]);
    }
  }

  /**
   What reset does not repair: when a recreate stops anywhere after its
   tear-down, carrying out a fresh plan to the end brings back no reservation
   that was not restored before the interruption.
   */
  lemma RerunRestoresNothing(cfg: Cfg, net: Net, up: set<string>, force: bool, k: nat, up': set<string>, force': bool)
    requires NatPlain(cfg.clusters) && ClashFree(cfg.clusters) && Outdated(net)
    requires 1 <= k <= |Actions(MakePlan(cfg, net, up, force), cfg.clusters)|
    ensures var stopped := ActAll(net, Actions(MakePlan(cfg, net, up, force), cfg.clusters)[..k]);
            var again := After(cfg, stopped, up', force').1;
            forall c :: c in cfg.clusters && c.isNAT && Addressed(c) ==>
                          (Reservation(c) in Hosts(again) <==> Reservation(c) in Hosts(stopped))
  {
    var acts := Actions(MakePlan(cfg, net, up, force), cfg.clusters);
    var stopped := ActAll(net, acts[..k]);
    assert acts[..k][0] == TearDown;
    CurrentKept(Absent, acts[..k][1..]);
    assert stopped == ActAll(Absent, acts[..k][1..]);
    assert !Outdated(stopped);
    ResetFrames(cfg, stopped, up', force');
  }

  /** Stopped right after its tear-down, none is there to bring back. */
  lemma StoppedAtTearDown(cfg: Cfg, net: Net, up: set<string>, force: bool)
    requires Outdated(net)
    ensures ActAll(net, Actions(MakePlan(cfg, net, up, force), cfg.clusters)[..1]) == Absent
  {
    var acts := Actions(MakePlan(cfg, net, up, force), cfg.clusters);
    assert acts[..1] == [TearDown];
    assert ActAll(net, [TearDown]) == ActAll(Absent, [TearDown][1..]);
  }
}

/**
 The values the lifecycle works on: cluster entries and config.json
 (config/config.go), the shared NAT network (interfaces/interfaces.go) and
 master VMs, with the list operations the code uses on them.
 */
module Model {
  import opened Text
  import opened Addresses

  const CLUSTERS_MAX := 3

  datatype ClusterState = NoState | Creating | Running | Stopped

  /** One entry of config.json: the fields the lifecycle reads or writes. */
  datatype Cluster = Cluster(
    name: string,
    isNAT: bool,            // NetworkMode == "nat"; otherwise bridge
    masterMAC: string,    // bridge mode only
    masterIP: string,     // bridge mode only
    nodes: nat,           // MasterCount + WorkerCount
    ips: seq<string>,
    macs: seq<string>,
    boot: string,         // BootISOVolPath (Linux) or InstallKernelCmdline (macOS)
    state: ClusterState)

  datatype Cfg = Cfg(clusters: seq<Cluster>, usedIPs: set<string>, usedMACs: set<string>)

  datatype DHCPHost = DHCPHost(mac: string, ip: string, hostname: string)

  /** The shared NAT network: undefined, or defined with a DHCP range start and reservations. */
  datatype Net = Absent | Defined(start: string, hosts: seq<DHCPHost>)

  datatype VM = VM(mac: string, boot: string)

  // ----- clusters -----

  predicate Has(cs: seq<Cluster>, name: string) {
    exists i :: 0 <= i < |cs| && cs[i].name == name
  }

  /** ClusterManager.find: the first entry with the name. */
  function Find(cs: seq<Cluster>, name: string): (r: Option<Cluster>)
    ensures r.Some? <==> Has(cs, name)
    ensures r.Some? ==> r.value in cs && r.value.name == name
  {
    if cs == [] then None
    else if cs[0].name == name then Some(cs[0])
    else
      assert forall i :: 0 < i < |cs| ==> cs[i] == cs[1..][i - 1];
      Find(cs[1..], name)
  }

  /** Writing through the pointer to the entry called c.name. */
  function Put(cs: seq<Cluster>, c: Cluster): (r: seq<Cluster>) {
    seq(|cs|, i requires 0 <= i < |cs| => if cs[i].name == c.name then c else cs[i])
  }

  /** Splicing out the first entry with the name. */
  function Splice(cs: seq<Cluster>, name: string): seq<Cluster> {
    if cs == [] then []
    else if cs[0].name == name then cs[1..]
    else [cs[0]] + Splice(cs[1..], name)
  }

  predicate Unique(cs: seq<Cluster>) {
    forall i, j :: 0 <= i < j < |cs| ==> cs[i].name != cs[j].name
  }

  lemma {:induction false} SpliceKeeps(cs: seq<Cluster>, name: string)
    requires Unique(cs)
    ensures forall c :: c in Splice(cs, name) <==> c in cs && c.name != name
  {
    if cs != [] {
      assert forall i :: 0 < i < |cs| ==> cs[i] == cs[1..][i - 1];
      if cs[0].name != name {
        SpliceKeeps(cs[1..], name);
      }
    }
  }

  lemma {:induction false} SpliceUnique(cs: seq<Cluster>, name: string)
    requires Unique(cs)
    ensures Unique(Splice(cs, name)) && |Splice(cs, name)| <= |cs|
  {
    if cs != [] && cs[0].name != name {
      assert forall i :: 0 < i < |cs| ==> cs[i] == cs[1..][i - 1];
      SpliceUnique(cs[1..], name);
      SpliceKeeps(cs[1..], name);
      var r := Splice(cs[1..], name);
      forall j | 0 <= j < |r| ensures r[j].name != cs[0].name {
        assert r[j] in r;
      }
    }
  }

  lemma SpliceMembers(cs: seq<Cluster>, name: string)
    requires Unique(cs)
    ensures Unique(Splice(cs, name)) && !Has(Splice(cs, name), name)
    ensures forall c :: c in Splice(cs, name) <==> c in cs && c.name != name
    ensures |Splice(cs, name)| <= |cs|
  {
    SpliceKeeps(cs, name);
    SpliceUnique(cs, name);
    var r := Splice(cs, name);
    assert forall i :: 0 <= i < |r| ==> r[i] in r;
  }

  /** Appending an entry and splicing it out again restores the list. */
  lemma {:induction false} SpliceAppend(cs: seq<Cluster>, c: Cluster)
    requires !Has(cs, c.name)
    ensures Splice(cs + [c], c.name) == cs
  {
    if cs != [] {
      assert cs[0].name != c.name;
      assert (cs + [c])[1..] == cs[1..] + [c];
      assert forall i :: 0 < i < |cs| ==> cs[i] == cs[1..][i - 1];
      SpliceAppend(cs[1..], c);
    }
  }

  /** A user-supplied address, or the first allocated one, or none. */
  function Primary(given: string, handedOut: seq<string>): string {
    if given != "" then given else FirstOrEmpty(handedOut)
  }

  /** PrimaryMasterIP and PrimaryMasterMAC (config/cluster.go). */
  function PrimaryIP(c: Cluster): string {
    Primary(c.masterIP, c.ips)
  }

  function PrimaryMAC(c: Cluster): string {
    Primary(c.masterMAC, c.macs)
  }

  function FirstOrEmpty(xs: seq<string>): string {
    if |xs| > 0 then xs[0] else ""
  }

  function MasterName(cluster: string): string {
    "master-0-" + cluster
  }

  /** masterReservation (stages/createnetwork/stage.go). */
  function Reservation(c: Cluster): DHCPHost {
    DHCPHost(FirstOrEmpty(c.macs), PrimaryIP(c), MasterName(c.name))
  }

  // ----- network -----

  const RANGE_START := BASE_NETWORK_RANGE + ".100"

  function Hosts(net: Net): seq<DHCPHost> {
    if net.Absent? then [] else net.hosts
  }

  /** EnsureNetwork: an existing definition is left alone. */
  function Ensure(net: Net): Net {
    if net.Absent? then Defined(RANGE_START, []) else net
  }

  /** Two reservations the DHCP server will not hold side by side. */
  predicate Clash(a: DHCPHost, b: DHCPHost) {
    a.mac == b.mac || a.ip == b.ip || a.hostname == b.hostname
  }

  /** AddHost: a clash with a present entry is the "already" answer, taken as success. */
  function AddHost(net: Net, h: DHCPHost): Net {
    if net.Absent? || exists g :: g in net.hosts && Clash(g, h) then net
    else net.(hosts := net.hosts + [h])
  }

  function Without(hs: seq<DHCPHost>, h: DHCPHost): (r: seq<DHCPHost>)
    ensures forall g :: g in r <==> g in hs && g != h
  {
    if hs == [] then []
    else if hs[0] == h then Without(hs[1..], h)
    else [hs[0]] + Without(hs[1..], h)
  }

  /** RemoveHost: deletes the entry equal to h; a missing one is success. */
  function RemoveHost(net: Net, h: DHCPHost): Net {
    if net.Absent? then net else net.(hosts := Without(net.hosts, h))
  }

  lemma {:induction false} WithoutAbsent(hs: seq<DHCPHost>, h: DHCPHost)
    requires h !in hs
    ensures Without(hs, h) == hs
  {
    if hs != [] {
      WithoutAbsent(hs[1..], h);
    }
  }

  lemma {:induction false} WithoutAppend(hs: seq<DHCPHost>, h: DHCPHost)
    requires h !in hs
    ensures Without(hs + [h], h) == hs
  {
    if hs != [] {
      assert (hs + [h])[1..] == hs[1..] + [h];
      WithoutAppend(hs[1..], h);
    } else {
      assert (hs + [h])[1..] == [];
    }
  }

  lemma MasterNameInjective(a: string, b: string)
    requires MasterName(a) == MasterName(b)
    ensures a == b
  {
    assert a == MasterName(a)[9..] && b == MasterName(b)[9..];
  }
}

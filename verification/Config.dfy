/**
 The config as the process holds it (config/config.go): cluster objects shared
 by pointer between the list and the command working on one of them, the
 allocation marks, and config.json.
 */
module Config {
  import opened Text
  import opened Addresses
  import opened Model

  class ClusterConfig {
    var Name: string
    var IsNAT: bool
    var MasterMAC: string
    var MasterIP: string
    var Nodes: nat
    var IPAddresses: seq<string>
    var MACAddresses: seq<string>
    var Boot: string
    var State: ClusterState

    function Value(): Cluster
      reads this
    {
      Cluster(Name, IsNAT, MasterMAC, MasterIP, Nodes, IPAddresses, MACAddresses, Boot, State)
    }

    constructor (v: Cluster)
      ensures Value() == v
    {
      Name, IsNAT, MasterMAC, MasterIP, Nodes := v.name, v.isNAT, v.masterMAC, v.masterIP, v.nodes;
      IPAddresses, MACAddresses, Boot, State := v.ips, v.macs, v.boot, v.state;
    }
  }

  function Values(cs: seq<ClusterConfig>): (r: seq<Cluster>)
    reads cs
    ensures |r| == |cs|
  {
    seq(|cs|, i requires 0 <= i < |cs| reads cs => cs[i].Value())
  }

  class Config {
    var Clusters: seq<ClusterConfig>
    var UsedIPs: set<string>
    var UsedMACs: set<string>
    var File: Cfg   // config.json
    ghost var Trouble: bool   // some write of config.json has failed

    function Memory(): Cfg
      reads this, Clusters
    {
      Cfg(Values(Clusters), UsedIPs, UsedMACs)
    }

    /** No object is listed twice and no two listed clusters share a name. */
    ghost predicate Valid()
      reads this, Clusters
    {
      && DistinctObjects(Clusters)
      && Unique(Values(Clusters))
    }

    /** A command's cluster object is the listed one of its name, if the name is listed. */
    ghost predicate Points(c: ClusterConfig)
      reads this, Clusters, c
    {
      Has(Values(Clusters), c.Name) <==> c in Clusters
    }

    /** Save: the write happens or it does not. */
    method Save() returns (ok: bool)
      modifies this`File, this`Trouble
      ensures File == if ok then Memory() else old(File)
      ensures Trouble == (old(Trouble) || !ok)
    {
      ok := *;
      if ok {
        File := Memory();
      } else {
        Trouble := true;
      }
    }

    /** LoadConfig in a new process: fresh objects holding what config.json says. */
    constructor Load(file: Cfg)
      ensures File == file && Memory() == file && !Trouble
      ensures fresh(Clusters) && DistinctObjects(Clusters)
    {
      File, UsedIPs, UsedMACs := file, file.usedIPs, file.usedMACs;
      Trouble := false;
      Clusters := [];
      new;
      var cs: seq<ClusterConfig> := [];
      for k := 0 to |file.clusters|
        invariant |cs| == k && fresh(cs)
        invariant forall i :: 0 <= i < k ==> cs[i].Value() == file.clusters[i]
        invariant forall i, j :: 0 <= i < j < k ==> cs[i] != cs[j]
        invariant File == file && !Trouble && UsedIPs == file.usedIPs && UsedMACs == file.usedMACs
      {
        var c := new ClusterConfig(file.clusters[k]);
        cs := cs + [c];
      }
      Clusters := cs;
      assert Values(Clusters) == file.clusters;
    }

    /** ClusterManager.find. */
    method FindCluster(name: string) returns (c: ClusterConfig?)
      requires Valid()
      ensures c == null <==> Find(Values(Clusters), name).None?
      ensures c != null ==> c in Clusters && c.Name == name && Find(Values(Clusters), name) == Some(c.Value())
    {
      ghost var vs := Values(Clusters);
      for i := 0 to |Clusters|
        invariant forall k :: 0 <= k < i ==> vs[k].name != name
      {
        if Clusters[i].Name == name {
          FoundFirst(vs, name, i);
          return Clusters[i];
        }
      }
      c := null;
    }
  }

  ghost predicate DistinctObjects(cs: seq<ClusterConfig>) {
    forall i, j :: 0 <= i < j < |cs| ==> cs[i] != cs[j]
  }

  /** Cutting one object out of the list, seen through the values. */
  lemma CutOne(cs: seq<ClusterConfig>, i: nat)
    requires i < |cs| && DistinctObjects(cs)
    ensures DistinctObjects(cs[..i] + cs[i + 1..])
    ensures Values(cs[..i] + cs[i + 1..]) == Values(cs)[..i] + Values(cs)[i + 1..]
    ensures forall d :: d in cs[..i] + cs[i + 1..] ==> d in cs
  {
    var r := cs[..i] + cs[i + 1..];
    assert forall k :: 0 <= k < |r| ==> r[k] == cs[if k < i then k else k + 1];
  }

  lemma ValueListed(cs: seq<ClusterConfig>, d: ClusterConfig)
    requires d in cs
    ensures d.Value() in Values(cs)
  {
    var k :| 0 <= k < |cs| && cs[k] == d;
    assert Values(cs)[k] == d.Value();
  }

  /** Writing fields of one listed object, seen through the values before and after, is what Put describes. */
  lemma PutByPointer(cs: seq<ClusterConfig>, c: ClusterConfig, v: Cluster, before: seq<Cluster>, after: seq<Cluster>)
    requires |before| == |after| == |cs| && Unique(before)
    requires Has(before, v.name) <==> c in cs
    requires forall i :: 0 <= i < |cs| ==>
               if cs[i] == c then after[i] == v && before[i].name == v.name else after[i] == before[i]
    ensures after == Put(before, v) && Unique(after) && (Has(after, v.name) <==> c in cs)
  {
    forall i | 0 <= i < |cs| ensures after[i] == Put(before, v)[i] && after[i].name == before[i].name {
      if before[i].name == v.name {
        assert Has(before, v.name);
        var k :| 0 <= k < |cs| && cs[k] == c;
        assert before[k].name == v.name;
        assert !(i < k) && !(k < i);
      }
    }
    assert Has(after, v.name) <==> Has(before, v.name);
  }

  lemma {:induction false} FoundFirst(vs: seq<Cluster>, name: string, i: nat)
    requires i < |vs| && vs[i].name == name && forall k :: 0 <= k < i ==> vs[k].name != name
    ensures Find(vs, name) == Some(vs[i])
  {
    if i > 0 {
      FoundFirst(vs[1..], name, i - 1);
    }
  }
}

/**
 The allocator as it runs (stages/allocatenetwork/allocator.go): loops that
 scan the pool, draw MACs and mark what they take. Each method is proved to do
 what the scan functions of Addresses say. The system's random bytes are a
 stream of draws; reading past its end is the error of a failed read.
 */
module Allocator {
  import opened Text
  import opened Addresses
  import opened Model
  import opened Config
  import opened Lifecycle

  class Allocator {
    const cfg: Config
    var random: seq<Draw>

    constructor (cfg: Config, random: seq<Draw>)
      ensures this.cfg == cfg && this.random == random
    {
      this.cfg, this.random := cfg, random;
    }

    method AllocateIP() returns (ip: Option<string>)
      modifies cfg`UsedIPs
      ensures ip == FreeIP(old(cfg.UsedIPs), NETWORK_START)
      ensures cfg.UsedIPs == if ip.Some? then old(cfg.UsedIPs) + {ip.value} else old(cfg.UsedIPs)
      ensures ip.None? <==> forall k :: 5 <= k <= 20 ==> PoolIP(k) in old(cfg.UsedIPs)
    {
      FreeIPNone(cfg.UsedIPs, NETWORK_START);
      for i := NETWORK_START to NETWORK_END + 1
        invariant FreeIP(cfg.UsedIPs, NETWORK_START) == FreeIP(cfg.UsedIPs, i)
        invariant cfg.UsedIPs == old(cfg.UsedIPs)
      {
        var candidate := PoolIP(i);
        if candidate !in cfg.UsedIPs {
          cfg.UsedIPs := cfg.UsedIPs + {candidate};
          return Some(candidate);
        }
      }
      ip := None;
    }

    /** generateMAC: three bytes from the system, or an error. */
    method GenerateMAC() returns (mac: Option<string>)
      modifies this`random
      ensures old(random) == [] ==> mac.None? && random == []
      ensures old(random) != [] ==> mac == Some(MacOf(old(random)[0])) && random == old(random)[1..]
    {
      if random == [] {
        return None;
      }
      mac := Some(MacOf(random[0]));
      random := random[1..];
    }

    method AllocateMAC() returns (mac: Option<string>)
      modifies cfg`UsedMACs, this`random
      ensures (mac, random) == FreeMAC(old(cfg.UsedMACs), old(random), MAC_ATTEMPTS)
      ensures cfg.UsedMACs == if mac.Some? then old(cfg.UsedMACs) + {mac.value} else old(cfg.UsedMACs)
      ensures mac.None? <==>
              forall i :: 0 <= i < 100 && i < |old(random)| ==> MacOf(old(random)[i]) in old(cfg.UsedMACs)
    {
      FreeMACNone(cfg.UsedMACs, random, MAC_ATTEMPTS);
      for attempt := 0 to MAC_ATTEMPTS
        invariant cfg.UsedMACs == old(cfg.UsedMACs)
        invariant FreeMAC(cfg.UsedMACs, old(random), MAC_ATTEMPTS) ==
            FreeMAC(cfg.UsedMACs, random, MAC_ATTEMPTS - attempt)
      {
        mac := GenerateMAC();
        if mac.None? {
          return;
        }
        if mac.value !in cfg.UsedMACs {
          cfg.UsedMACs := cfg.UsedMACs + {mac.value};
          return;
        }
      }
      mac := None;
    }

    /** allocate in NAT mode: MACs for every node, then IPs; marks stay when it fails half-way. */
    method Allocate(c: ClusterConfig) returns (ok: bool)
      requires cfg.Valid() && cfg.Points(c) && c.IsNAT
      modifies this`random, cfg`UsedIPs, cfg`UsedMACs, c`MACAddresses, c`IPAddresses
      ensures cfg.Valid() && cfg.Points(c)
      ensures (View(c.Value(), cfg.Memory(), Absent, map[]), ok) ==
              AllocateNAT(old(View(c.Value(), cfg.Memory(), Absent, map[])), old(random))
    {
      ghost var before := Values(cfg.Clusters);
      var macs := AllocateMACs(c.Nodes);
      assert Values(cfg.Clusters) == before;
      if macs.None? {
        return false;
      }
      c.MACAddresses := macs.value;
      ghost var between := Values(cfg.Clusters);
      PutByPointer(cfg.Clusters, c, c.Value(), before, between);
      var ips := AllocateIPs(c.Nodes);
      assert Values(cfg.Clusters) == between;
      if ips.None? {
        return false;
      }
      c.IPAddresses := ips.value;
      PutByPointer(cfg.Clusters, c, c.Value(), between, Values(cfg.Clusters));
      ok := true;
    }

    method AllocateMACs(total: nat) returns (macs: Option<seq<string>>)
      modifies this`random, cfg`UsedMACs
      ensures Batch(macs, cfg.UsedMACs) == AllocMACs(old(cfg.UsedMACs), old(random), total)
    {
      var got: seq<string> := [];
      PrependNothing(AllocMACs(cfg.UsedMACs, random, total));
      for i := 0 to total
        invariant AllocMACs(old(cfg.UsedMACs), old(random), total) ==
                  Prepend(got, AllocMACs(cfg.UsedMACs, random, total - i))
      {
        var mac := AllocateMAC();
        if mac.None? {
          return None;
        }
        PrependNext(got, mac.value, AllocMACs(cfg.UsedMACs, random, total - i - 1));
        got := got + [mac.value];
      }
      assert got + [] == got;
      macs := Some(got);
    }

    method AllocateIPs(total: nat) returns (ips: Option<seq<string>>)
      modifies cfg`UsedIPs
      ensures Batch(ips, cfg.UsedIPs) == AllocIPs(old(cfg.UsedIPs), total)
    {
      var got: seq<string> := [];
      PrependNothing(AllocIPs(cfg.UsedIPs, total));
      for i := 0 to total
        invariant AllocIPs(old(cfg.UsedIPs), total) == Prepend(got, AllocIPs(cfg.UsedIPs, total - i))
      {
        var ip := AllocateIP();
        if ip.None? {
          return None;
        }
        PrependNext(got, ip.value, AllocIPs(cfg.UsedIPs, total - i - 1));
        got := got + [ip.value];
      }
      assert got + [] == got;
      ips := Some(got);
    }

    /** release: the cluster's addresses lose their marks, nothing else does. */
    method Release(c: ClusterConfig)
      modifies cfg`UsedIPs, cfg`UsedMACs
      ensures cfg.UsedIPs == old(cfg.UsedIPs) - Elems(c.IPAddresses)
      ensures cfg.UsedMACs == old(cfg.UsedMACs) - Elems(c.MACAddresses)
    {
      for i := 0 to |c.IPAddresses|
        invariant cfg.UsedIPs == old(cfg.UsedIPs) - Elems(c.IPAddresses[..i])
        invariant cfg.UsedMACs == old(cfg.UsedMACs)
      {
        cfg.UsedIPs := cfg.UsedIPs - {c.IPAddresses[i]};
        assert c.IPAddresses[..i + 1] == c.IPAddresses[..i] + [c.IPAddresses[i]];
      }
      assert c.IPAddresses[..|c.IPAddresses|] == c.IPAddresses;
      for i := 0 to |c.MACAddresses|
        invariant cfg.UsedMACs == old(cfg.UsedMACs) - Elems(c.MACAddresses[..i])
        invariant cfg.UsedIPs == old(cfg.UsedIPs) - Elems(c.IPAddresses)
      {
        cfg.UsedMACs := cfg.UsedMACs - {c.MACAddresses[i]};
        assert c.MACAddresses[..i + 1] == c.MACAddresses[..i] + [c.MACAddresses[i]];
      }
      assert c.MACAddresses[..|c.MACAddresses|] == c.MACAddresses;
    }
  }

  /** A batch whose first addresses are already in hand. */
  ghost function Prepend(got: seq<string>, rest: Batch): Batch {
    Batch(if rest.got.Some? then Some(got + rest.got.value) else None, rest.used)
  }

  lemma PrependNothing(b: Batch)
    ensures Prepend([], b) == b
  {
    if b.got.Some? {
      assert [] + b.got.value == b.got.value;
    }
  }

  lemma PrependNext(got: seq<string>, x: string, b: Batch)
    ensures Prepend(got, Batch(if b.got.Some? then Some([x] + b.got.value) else None, b.used)) == Prepend(got + [x], b)
  {
    if b.got.Some? {
      assert got + ([x] + b.got.value) == got + [x] + b.got.value;
    }
  }
}

/**
 What a new cluster's settings go through before its first stage
 (app/manager.go:237-389): defaults, validation, and what allocate-network and
 the keyfile renderer later find in them (stages/allocatenetwork/stage.go,
 config/cluster.go:29-179).
 */
module Defaults {
  import opened Text
  import opened Ipv4
  import opened Addresses
  import opened Model

  const DEFAULT_OCP_VERSION := "stable"
  const DEFAULT_STORAGE_POOL := "default"
  const ODF_MIN_CPUS := 8
  const ODF_MIN_RAM_MIB := 24576

  datatype Settings = Settings(
    networkMode: string, magicDNS: string, domain: string, dnsProvider: string, bridge: string,
    masterMAC: string, masterIP: string, machineCIDR: string, gateway: string, dns: string,
    ocpVersion: string, storagePool: string, masterCount: int, workerCount: int,
    sizes: Sizes)

  datatype Sizes = Sizes(
    masterCPUs: int, workerCPUs: int, masterRAM: int, masterDisk: int, workerDisk: int, odf: bool, odfDisk: int)

  // ----- applyDefaults as a function -----

  function Or(s: string, default: string): string {
    if s == "" then default else s
  }

  function OrInt(n: int, default: int): int {
    if n == 0 then default else n
  }

  function Max(a: int, b: int): int {
    if a < b then b else a
  }

  /** resolveMagicDNS. */
  function Resolved(v: Settings): Settings {
    if v.magicDNS in {"", "auto"} then
      v.(magicDNS := if v.networkMode == "nat" && v.domain == "" then "sslip.io" else "")
    else if v.magicDNS == "off" then v.(magicDNS := "")
    else v
  }

  function Sized(z: Sizes): Sizes {
    Sizes(
      if z.odf then Max(OrInt(z.masterCPUs, 4), ODF_MIN_CPUS) else OrInt(z.masterCPUs, 4),
      OrInt(z.workerCPUs, 2),
      if z.odf then Max(z.masterRAM, ODF_MIN_RAM_MIB) else z.masterRAM,
      OrInt(z.masterDisk, 120),
      OrInt(z.workerDisk, 120),
      z.odf,
      if z.odf then OrInt(z.odfDisk, 100) else z.odfDisk)
  }

  function Named(v: Settings): Settings {
    var r := Resolved(v.(networkMode := Or(v.networkMode, "nat")));
    r.(domain := if r.magicDNS == "" then Or(r.domain, "local") else r.domain,
       ocpVersion := Or(r.ocpVersion, DEFAULT_OCP_VERSION),
       storagePool := Or(r.storagePool, DEFAULT_STORAGE_POOL),
       sizes := Sized(r.sizes))
  }

  function WithCIDR(v: Settings, v6: string -> bool): Settings {
    if v.networkMode == "bridge" && v.machineCIDR == "" && v.masterIP != ""
    then v.(machineCIDR := MachineCIDROf(v.masterIP, v6).GetOr(""))
    else v
  }

  function WithGateway(v: Settings, v6: string -> bool): Settings {
    if v.networkMode == "bridge" && v.gateway == "" && v.machineCIDR != ""
    then v.(gateway := GatewayOf(v.machineCIDR, v6).GetOr(""))
    else v
  }

  function Defaulted(v: Settings, v6: string -> bool): Settings {
    WithGateway(WithCIDR(Named(v), v6), v6)
  }

  // ----- the code, in place -----

  class NewCluster {
    var networkMode: string
    var magicDNS: string
    var domain: string
    var dnsProvider: string
    var bridge: string
    var masterMAC: string
    var masterIP: string
    var machineCIDR: string
    var gateway: string
    var dns: string
    var ocpVersion: string
    var storagePool: string
    var masterCount: int
    var workerCount: int
    var sizes: Sizes

    function View(): Settings
      reads this
    {
      Settings(networkMode, magicDNS, domain, dnsProvider, bridge, masterMAC, masterIP, machineCIDR, gateway, dns,
               ocpVersion, storagePool, masterCount, workerCount, sizes)
    }

    method ResolveMagicDNS()
      modifies this
      ensures View() == Resolved(old(View()))
    {
      if magicDNS == "" || magicDNS == "auto" {
        if networkMode == "nat" && domain == "" { magicDNS := "sslip.io"; } else { magicDNS := ""; }
      } else if magicDNS == "off" {
        magicDNS := "";
      }
    }

    method ApplySizes()
      modifies this
      ensures View() == old(View()).(ocpVersion := Or(old(ocpVersion), DEFAULT_OCP_VERSION), sizes := Sized(old(sizes)))
    {
      if ocpVersion == "" { ocpVersion := DEFAULT_OCP_VERSION; }
      var z := sizes;
      if z.masterCPUs == 0 { z := z.(masterCPUs := 4); }
      if z.workerCPUs == 0 { z := z.(workerCPUs := 2); }
      if z.masterDisk == 0 { z := z.(masterDisk := 120); }
      if z.workerDisk == 0 { z := z.(workerDisk := 120); }
      if z.odf {
        if z.masterCPUs < ODF_MIN_CPUS { z := z.(masterCPUs := ODF_MIN_CPUS); }
        if z.masterRAM < ODF_MIN_RAM_MIB { z := z.(masterRAM := ODF_MIN_RAM_MIB); }
        if z.odfDisk == 0 { z := z.(odfDisk := 100); }
      }
      sizes := z;
    }

    method ApplyNames()
      modifies this
      ensures View() == Named(old(View()))
    {
      hide Sized;
      if networkMode == "" { networkMode := "nat"; }
      ResolveMagicDNS();
      if magicDNS == "" && domain == "" { domain := "local"; }
      ApplySizes();
      if storagePool == "" { storagePool := DEFAULT_STORAGE_POOL; }
    }

    method ApplyDefaults(v6: string -> bool)
      modifies this
      ensures View() == Defaulted(old(View()), v6)
    {
      hide Named, MachineCIDROf, GatewayOf;
      ApplyNames();
      label Done:
      if networkMode == "bridge" && machineCIDR == "" && masterIP != "" {
        var cidr := MachineCIDROf(masterIP, v6);
        if cidr.Some? { machineCIDR := cidr.value; }
      }
      assert View() == WithCIDR(old@Done(View()), v6);
      if networkMode == "bridge" && gateway == "" && machineCIDR != "" {
        var gw := DeriveGateway(machineCIDR, v6);
        if gw.Some? { gateway := gw.value; }
      }
    }

    method CheckServers(v6: string -> bool) returns (ok: bool)
      ensures ok == ServersOk(dns, v6)
    {
      var entries := Split(dns, ',');
      for i := 0 to |entries|
        invariant forall k :: 0 <= k < i ==> ServerOk(entries[k], v6)
      {
        var e := TrimSpaces(entries[i]);
        assert entries[i] in entries;
        if e != "" && ParseIP(e, v6).BadAddr? { return false; }
      }
      ok := true;
    }

    method ValidateNew(clusters: nat, v6: string -> bool, mac: string -> bool) returns (ok: bool)
      ensures ok == Acceptable(View(), clusters, v6, mac)
    {
      if clusters >= CLUSTERS_MAX { return false; }
      if magicDNS !in {"", "sslip.io", "nip.io"} { return false; }
      if magicDNS != "" {
        if dnsProvider != "" { return false; }
        if domain != "" { return false; }
      }
      if masterCount != 1 { return false; }
      if workerCount != 0 { return false; }
      if networkMode == "nat" {
        if bridge != "" { return false; }
        if masterMAC != "" || masterIP != "" || machineCIDR != "" || gateway != "" || dns != "" { return false; }
      } else if networkMode == "bridge" {
        if bridge == "" { return false; }
        if masterMAC == "" { return false; }
        if !mac(masterMAC) { return false; }
        if masterIP == "" { return false; }
        if ParseIP(masterIP, v6).BadAddr? { return false; }
        if machineCIDR == "" { return false; }
        if ParseCIDR(machineCIDR, v6).BadCidr? { return false; }
        if gateway != "" && ParseIP(gateway, v6).BadAddr? { return false; }
        var servers := CheckServers(v6);
        if !servers { return false; }
      } else {
        return false;
      }
      if !sizes.odf && sizes.odfDisk != 0 { return false; }
      if sizes.odf && sizes.odfDisk != 0 && sizes.odfDisk < 12 { return false; }
      return true;
    }
  }

  // ----- what validation promises -----

  function TrimSpaces(s: string): string {
    if s != "" && s[0] in {' ', '\t', '\n', '\r'} then TrimSpaces(s[1..])
    else if s != "" && s[|s| - 1] in {' ', '\t', '\n', '\r'} then TrimSpaces(s[..|s| - 1])
    else s
  }

  /** Every non-blank entry of the comma-separated list is an address. */
  predicate ServersOk(dns: string, v6: string -> bool) {
    forall e :: e in Split(dns, ',') ==> ServerOk(e, v6)
  }

  predicate ServerOk(entry: string, v6: string -> bool) {
    var e := TrimSpaces(entry);
    e == "" || !ParseIP(e, v6).BadAddr?
  }

  predicate NATOk(v: Settings) {
    v.bridge == "" && v.masterMAC == "" && v.masterIP == "" && v.machineCIDR == "" && v.gateway == "" && v.dns == ""
  }

  predicate BridgeOk(v: Settings, v6: string -> bool, mac: string -> bool) {
    && v.bridge != "" && v.masterMAC != "" && mac(v.masterMAC)
    && v.masterIP != "" && !ParseIP(v.masterIP, v6).BadAddr?
    && v.machineCIDR != "" && !ParseCIDR(v.machineCIDR, v6).BadCidr?
    && (v.gateway == "" || !ParseIP(v.gateway, v6).BadAddr?)
    && ServersOk(v.dns, v6)
  }

  predicate Acceptable(v: Settings, clusters: nat, v6: string -> bool, mac: string -> bool) {
    && clusters < CLUSTERS_MAX
    && v.magicDNS in {"", "sslip.io", "nip.io"}
    && (v.magicDNS != "" ==> v.dnsProvider == "" && v.domain == "")
    && v.masterCount == 1 && v.workerCount == 0
    && ((v.networkMode == "nat" && NATOk(v)) || (v.networkMode == "bridge" && BridgeOk(v, v6, mac)))
    && (if v.sizes.odf then v.sizes.odfDisk == 0 || v.sizes.odfDisk >= 12 else v.sizes.odfDisk == 0)
  }

  // ----- what the defaults are -----

  /** A count that was not given gets its default; one that was given stays, unless ODF needs more. */
  lemma SizesExact(z: Sizes)
    ensures var r := Sized(z);
            var cpus := if z.masterCPUs == 0 then 4 else z.masterCPUs;
            && r.odf == z.odf
            && (!z.odf || cpus >= 8 ==> r.masterCPUs == cpus) && (z.odf && cpus < 8 ==> r.masterCPUs == 8)
            && (!z.odf || z.masterRAM >= 24576 ==> r.masterRAM == z.masterRAM)
            && (z.odf && z.masterRAM < 24576 ==> r.masterRAM == 24576)
            && r.workerCPUs == (if z.workerCPUs == 0 then 2 else z.workerCPUs)
            && r.masterDisk == (if z.masterDisk == 0 then 120 else z.masterDisk)
            && r.workerDisk == (if z.workerDisk == 0 then 120 else z.workerDisk)
            && r.odfDisk == if z.odf && z.odfDisk == 0 then 100 else z.odfDisk
  {
  }

  /** Every accepted cluster with ODF has the CPUs, the memory and the disk ODF needs; others have no such disk. */
  lemma AcceptedSizes(u: Settings, clusters: nat, v6: string -> bool, mac: string -> bool)
    requires Acceptable(Defaulted(u, v6), clusters, v6, mac)
    ensures var r := Defaulted(u, v6).sizes;
            && r == Sized(u.sizes)
            && (u.sizes.odf ==> r.masterCPUs >= 8 && r.masterRAM >= 24576 && r.odfDisk >= 12)
            && (!u.sizes.odf ==> r.odfDisk == 0)
  {
    hide MachineCIDROf, GatewayOf, BridgeOk;
  }

  /** The texts that were not given. */
  lemma NamesExact(u: Settings, v6: string -> bool)
    ensures var v := Defaulted(u, v6);
            && v.networkMode == (if u.networkMode == "" then "nat" else u.networkMode)
            && v.ocpVersion == (if u.ocpVersion == "" then "stable" else u.ocpVersion)
            && v.storagePool == (if u.storagePool == "" then "default" else u.storagePool)
            && (u.magicDNS in {"sslip.io", "nip.io"} ==> v.magicDNS == u.magicDNS)
            && (u.magicDNS == "off" ==> v.magicDNS == "")
            && (u.magicDNS in {"", "auto"} ==>
                  v.magicDNS == if v.networkMode == "nat" && u.domain == "" then "sslip.io" else "")
            && (u.domain != "" || v.magicDNS != "" ==> v.domain == u.domain)
            && (u.domain == "" && v.magicDNS == "" ==> v.domain == "local")
            && v.bridge == u.bridge && v.dnsProvider == u.dnsProvider
            && v.masterCount == u.masterCount && v.workerCount == u.workerCount
  {
    hide MachineCIDROf, GatewayOf, Sized;
  }

  // ----- applying the defaults twice -----

  /** resolveMagicDNS alone turns "off" into auto when it meets its own result again, and only then changes its mind. */
  lemma ResolveTwice(v: Settings)
    ensures Resolved(Resolved(v)) == Resolved(v) <==> !(v.magicDNS == "off" && v.networkMode == "nat" && v.domain == "")
  {
  }

  lemma NamedTwice(v: Settings)
    ensures Named(Named(v)) == Named(v)
  {
    var n := Named(v);
    assert n.networkMode != "" && (n.magicDNS == "" ==> n.domain != "");
    assert Resolved(n) == n;
    assert Sized(Sized(v.sizes)) == Sized(v.sizes);
  }

  lemma WithCIDRTwice(v: Settings, v6: string -> bool)
    ensures WithCIDR(WithCIDR(v, v6), v6) == WithCIDR(v, v6)
  {
    hide MachineCIDROf;
  }

  lemma WithGatewayTwice(v: Settings, v6: string -> bool)
    ensures WithGateway(WithGateway(v, v6), v6) == WithGateway(v, v6)
  {
    hide GatewayOf;
  }

  /** applyDefaults as a whole is idempotent: the domain it sets stops the second resolution. */
  lemma DefaultsTwice(v: Settings, v6: string -> bool)
    ensures Defaulted(Defaulted(v, v6), v6) == Defaulted(v, v6)
  {
    var n := Named(v);
    NamedTwice(v);
    var c := WithCIDR(n, v6);
    var g := WithGateway(c, v6);
    WithCIDRTwice(n, v6);
    WithGatewayTwice(c, v6);
    hide MachineCIDROf, GatewayOf, Resolved, Sized;
    assert Named(g) == g by {
      assert g == n.(machineCIDR := g.machineCIDR, gateway := g.gateway);
      NamedIgnoresNetwork(n, g.machineCIDR, g.gateway);
    }
    assert WithCIDR(g, v6) == g;
  }

  lemma NamedIgnoresNetwork(v: Settings, cidr: string, gateway: string)
    ensures Named(v.(machineCIDR := cidr, gateway := gateway)) == Named(v).(machineCIDR := cidr, gateway := gateway)
  {
  }

  // ----- through allocate-network to the keyfile -----

  datatype Addressed = Addressed(settings: Settings, ips: seq<string>, macs: seq<string>)
  {
    /** PrimaryMasterIP and PrimaryMasterMAC. */
    function MasterIP(): string {
      Primary(settings.masterIP, ips)
    }

    function MasterMAC(): string {
      Primary(settings.masterMAC, macs)
    }
  }

  function WithMagicDomain(a: Addressed): Addressed {
    if a.settings.magicDNS == "" || a.settings.domain != "" || a.MasterIP() == "" then a
    else a.(settings := a.settings.(domain := a.MasterIP() + "." + a.settings.magicDNS))
  }

  /** allocate-network on a fresh cluster, given what a successful allocation handed out. */
  function AfterAllocate(v: Settings, ips: seq<string>, macs: seq<string>): Addressed {
    if v.networkMode == "bridge" then WithMagicDomain(Addressed(v, [v.masterIP], [v.masterMAC]))
    else WithMagicDomain(Addressed(v.(machineCIDR := BASE_NETWORK_RANGE + ".0/24"), ips, macs))
  }

  /** The allocator's outcome for a cluster's nodes, from these marks and random draws. */
  predicate Allocated(cfg: Cfg, draws: seq<Draw>, v: Settings, ips: seq<string>, macs: seq<string>) {
    var nodes := v.masterCount + v.workerCount;
    && nodes >= 0
    && AllocIPs(cfg.usedIPs, nodes).got == Some(ips)
    && AllocMACs(cfg.usedMACs, draws, nodes).got == Some(macs)
  }

  /** Allocated addresses are never empty texts. */
  lemma AllocatedNonempty(cfg: Cfg, draws: seq<Draw>, v: Settings, ips: seq<string>, macs: seq<string>)
    requires Allocated(cfg, draws, v, ips, macs)
    ensures |ips| == |macs| == v.masterCount + v.workerCount
    ensures ips != [] ==> ips[0] != "" && macs[0] != ""
  {
    AllocIPsFresh(cfg.usedIPs, v.masterCount + v.workerCount);
    AllocMACsFresh(cfg.usedMACs, draws, v.masterCount + v.workerCount);
    hide AllocIPs, AllocMACs, Elems, NoDup;
    if ips != [] {
      assert ips[0] in ips && macs[0] in macs;
      assert ips[0] in Pool() && Generated(macs[0]);
    }
  }

  /** strings.ReplaceAll of commas by semicolons. */
  function Replaced(s: string): string {
    seq(|s|, i requires 0 <= i < |s| => if s[i] == ',' then ';' else s[i])
  }

  function Semicolons(s: string): string {
    var t := Replaced(s);
    if t != "" && t[|t| - 1] == ';' then t else t + ";"
  }

  datatype Keyfile = Keyfile(mac: string, ip: string, prefix: nat, gateway: string, dns: string)

  function PrefixOf(cidr: string, v6: string -> bool): Option<nat> {
    match ParseCIDR(cidr, v6)
    case Net4(_, n) => Some(n)
    case Net6 => ParsePrefix(Cut(cidr, '/').1.GetOr(""), 128)
    case BadCidr => None
  }

  /** StaticNetworkKeyfile, up to the fixed text around its five values; MAC upper-casing left to the renderer. */
  function StaticNetworkKeyfile(a: Addressed, v6: string -> bool): Option<Keyfile> {
    var mac, ip, v := a.MasterMAC(), a.MasterIP(), a.settings;
    if mac == "" || ip == "" then None else
    var prefix := PrefixOf(v.machineCIDR, v6);
    if prefix.None? then None else
    var gateway := if v.gateway != "" then Some(v.gateway) else GatewayOf(v.machineCIDR, v6);
    if gateway.None? then None else
    Some(Keyfile(mac, ip, prefix.value, gateway.value, Semicolons(Or(v.dns, gateway.value))))
  }

  /** Every cluster validation lets in leaves allocate-network with a domain, a MAC and an IP. */
  lemma AcceptedIsAddressed(u: Settings, clusters: nat, cfg: Cfg, draws: seq<Draw>, ips: seq<string>,
      macs: seq<string>, v6: string -> bool, mac: string -> bool)
    requires Acceptable(Defaulted(u, v6), clusters, v6, mac)
    requires Defaulted(u, v6).networkMode == "nat" ==> Allocated(cfg, draws, Defaulted(u, v6), ips, macs)
    ensures var a := AfterAllocate(Defaulted(u, v6), ips, macs);
      && a.settings.domain != "" && a.MasterIP() != "" && a.MasterMAC() != ""
      && (a.settings.magicDNS != "" ==> a.settings.domain == a.MasterIP() + "." + a.settings.magicDNS)
  {
    hide MachineCIDROf, GatewayOf, ParseCIDR, ParseIP, ServersOk, Sized, AllocIPs, AllocMACs;
    var v := Defaulted(u, v6);
    assert v.magicDNS == "" ==> v.domain != "";
    if v.networkMode == "nat" { AllocatedNonempty(cfg, draws, v, ips, macs); }
  }

  /**
   The keyfile can be rendered for every accepted cluster but one kind: an IPv6
   machine network with no gateway given, which validation lets through.
   */
  lemma KeyfileExact(u: Settings, clusters: nat, cfg: Cfg, draws: seq<Draw>, ips: seq<string>,
      macs: seq<string>, v6: string -> bool, mac: string -> bool)
    requires Acceptable(Defaulted(u, v6), clusters, v6, mac)
    requires Defaulted(u, v6).networkMode == "nat" ==> Allocated(cfg, draws, Defaulted(u, v6), ips, macs)
    ensures StaticNetworkKeyfile(AfterAllocate(Defaulted(u, v6), ips, macs), v6).None?
      <==> u.networkMode == "bridge" && u.gateway == "" && ParseCIDR(Defaulted(u, v6).machineCIDR, v6).Net6?
  {
    AcceptedIsAddressed(u, clusters, cfg, draws, ips, macs, v6, mac);
    NATNetwork(v6);
    var v := Defaulted(u, v6);
    var a := AfterAllocate(v, ips, macs);
    KeyfileFails(a, v6);
    hide ServersOk, Sized, ParseIP, ParseCIDR, GatewayOf, MachineCIDROf, StaticNetworkKeyfile, Allocated, Named;
    GatewayStored(u, v6);
    if v.networkMode == "bridge" {
      assert a.settings.machineCIDR == v.machineCIDR && a.settings.gateway == v.gateway;
    } else {
      assert a.settings.machineCIDR == BASE_NETWORK_RANGE + ".0/24" && a.settings.gateway == "";
    }
  }

  /** After the defaults a bridge cluster lacks a gateway only if none was given and none could be derived. */
  lemma GatewayStored(u: Settings, v6: string -> bool)
    ensures var v := Defaulted(u, v6);
      && v.networkMode == Or(u.networkMode, "nat")
      && (v.networkMode == "bridge" && ParseCIDR(v.machineCIDR, v6).Net4? ==> v.gateway != "")
      && (v.networkMode == "bridge" && !ParseCIDR(v.machineCIDR, v6).Net4? ==> v.gateway == u.gateway)
  {
    hide ParseCIDR, MachineCIDROf, Sized, GatewayOf;
    var c := WithCIDR(Named(u), v6);
    PrefixExact(c.machineCIDR, v6);
    GatewayNonempty(c.machineCIDR, v6);
  }

  lemma GatewayNonempty(cidr: string, v6: string -> bool)
    ensures GatewayOf(cidr, v6) != Some("")
    ensures cidr == "" ==> ParseCIDR(cidr, v6).BadCidr?
  {
  }

  /** The renderer fails on a bad machine network, or without a gateway where none can be derived. */
  lemma KeyfileFails(a: Addressed, v6: string -> bool)
    requires a.MasterMAC() != "" && a.MasterIP() != ""
    ensures var cidr := ParseCIDR(a.settings.machineCIDR, v6);
      StaticNetworkKeyfile(a, v6).None? <==> cidr.BadCidr? || (a.settings.gateway == "" && !cidr.Net4?)
  {
    PrefixExact(a.settings.machineCIDR, v6);
    hide ParseCIDR, PrefixOf, GatewayOf, Semicolons;
  }

  lemma PrefixExact(cidr: string, v6: string -> bool)
    ensures PrefixOf(cidr, v6).None? <==> ParseCIDR(cidr, v6).BadCidr?
    ensures GatewayOf(cidr, v6).Some? <==> ParseCIDR(cidr, v6).Net4?
  {
  }

  lemma NATAddress()
    ensures Dotted(Quad(192, 168, 126, 0)) == "192.168.126.0"
  {
    assert Field(192) == "192" && Field(168) == "168" && Field(126) == "126" && Field(0) == "0" by {
      assert Decimal(19) == "1" + "9" && Decimal(16) == "1" + "6" && Decimal(12) == "1" + "2";
    }
  }

  /** The shared NAT network's CIDR is an IPv4 one. */
  lemma NATNetwork(v6: string -> bool)
    ensures ParseCIDR(BASE_NETWORK_RANGE + ".0/24", v6) == Net4(Quad(192, 168, 126, 0), 24)
  {
    hide Decimal, Cut, Octet, ParseV4, ParsePrefix, MaskOctet;
    var q := Quad(192, 168, 126, 0);
    NATAddress();
    ParseDotted(q);
    Zero24(q);
    assert Field(192) + "." + Field(168) + "." + Field(126) + ".0/24" == BASE_NETWORK_RANGE + ".0/24" by {
      assert "192.168.126.0/24" == Dotted(q) + "/24";
      assert Dotted(q) + "/24" == Field(192) + "." + Field(168) + "." + Field(126) + ".0/24" by { FieldZero(); }
    }
    NATMask();
  }

  lemma NATMask()
    ensures Masked(Quad(192, 168, 126, 0), 24) == Quad(192, 168, 126, 0)
  {
    MaskedOctet(192, 8);
    MaskedOctet(168, 8);
    MaskedOctet(126, 8);
  }

  /** A cluster saved before gateways were stored renders the same keyfile as one that went through the defaults. */
  lemma FallbackGatewaySame(a: Addressed, v6: string -> bool)
    requires a.settings.networkMode == "bridge" && a.settings.gateway == ""
    ensures StaticNetworkKeyfile(a, v6) == StaticNetworkKeyfile(a.(settings := WithGateway(a.settings, v6)), v6)
  {
    hide PrefixOf, Semicolons, ParseIP;
    GatewayParses(a.settings.machineCIDR, v6);
  }
}

/**
 Which settings of a new cluster `create` accepts, and the base domain it gets,
 stated on what the user typed: through the defaults and the checks of
 app/manager.go:237-389 and the domain of stages/allocatenetwork/stage.go:20-56.
 */
module CommandLine {
  import opened Text
  import opened Ipv4
  import opened Addresses
  import opened Model
  import opened Defaults
  import opened Keyfiles

  predicate SaysNAT(u: Settings) {
    u.networkMode == "" || u.networkMode == "nat"
  }

  /** A wildcard DNS service is named, or it is left to easyshift, which takes one on NAT without a domain. */
  predicate UsesService(u: Settings) {
    || u.magicDNS == "sslip.io" || u.magicDNS == "nip.io"
    || ((u.magicDNS == "" || u.magicDNS == "auto") && SaysNAT(u) && u.domain == "")
  }

  predicate SaysNothingOfNetwork(u: Settings) {
    u.bridge == "" && u.masterMAC == "" && u.masterIP == "" && u.machineCIDR == "" && u.gateway == "" && u.dns == ""
  }

  /** A bridge, the master's own addresses, a machine network given or to be told from its IPv4 address. */
  predicate SaysBridge(u: Settings, v6: string -> bool, mac: string -> bool) {
    && u.bridge != "" && u.masterMAC != "" && mac(u.masterMAC)
    && u.masterIP != "" && (ParseV4(u.masterIP).Some? || v6(u.masterIP))
    && (if u.machineCIDR == "" then ParseV4(u.masterIP).Some? else !ParseCIDR(u.machineCIDR, v6).BadCidr?)
    && (u.gateway == "" || ParseV4(u.gateway).Some? || v6(u.gateway))
    && (forall e :: e in Split(u.dns, ',') ==> SaysServer(e, v6))
  }

  /** An address with blanks around it, or only blanks. */
  predicate SaysServer(entry: string, v6: string -> bool) {
    var server := TrimSpaces(entry);
    server == "" || ParseV4(server).Some? || v6(server)
  }

  predicate Sensible(u: Settings, clusters: nat, v6: string -> bool, mac: string -> bool) {
    && clusters < 3 && u.masterCount == 1 && u.workerCount == 0
    && u.magicDNS in {"", "auto", "off", "sslip.io", "nip.io"}
    && (UsesService(u) ==> u.dnsProvider == "" && u.domain == "")
    && ((SaysNAT(u) && SaysNothingOfNetwork(u)) || (u.networkMode == "bridge" && SaysBridge(u, v6, mac)))
    && (u.sizes.odfDisk == 0 || (u.sizes.odf && u.sizes.odfDisk >= 12))
  }

  lemma ServersMean(dns: string, v6: string -> bool)
    ensures ServersOk(dns, v6) <==> forall e :: e in Split(dns, ',') ==> SaysServer(e, v6)
  {
    forall e ensures ServerOk(e, v6) <==> SaysServer(e, v6) {
      hide ParseV4, TrimSpaces;
    }
    hide ServerOk, SaysServer, Split;
  }

  /** What the defaults fill in passes the checks that what was given has passed. */
  lemma FilledIn(u: Settings, v6: string -> bool)
    requires u.networkMode == "bridge" && u.masterIP != ""
    ensures var v := Defaulted(u, v6);
            && (v.machineCIDR != "" && !ParseCIDR(v.machineCIDR, v6).BadCidr? <==>
                  if u.machineCIDR == "" then ParseV4(u.masterIP).Some? else !ParseCIDR(u.machineCIDR, v6).BadCidr?)
            && (v.gateway == "" || !ParseIP(v.gateway, v6).BadAddr? <==>
                  u.gateway == "" || ParseV4(u.gateway).Some? || v6(u.gateway))
  {
    BridgeDefaults(u, v6);
    var v := Defaulted(u, v6);
    MachineNetwork(u.masterIP, v6);
    GatewayParses(v.machineCIDR, v6);
    hide Defaulted, ParseCIDR, MachineCIDROf, GatewayOf, ParseV4;
  }

  lemma BridgeExact(u: Settings, v6: string -> bool, mac: string -> bool)
    requires u.networkMode == "bridge"
    ensures BridgeOk(Defaulted(u, v6), v6, mac) <==> SaysBridge(u, v6, mac)
  {
    BridgeDefaults(u, v6);
    NamesExact(u, v6);
    ServersMean(u.dns, v6);
    if u.masterIP != "" {
      FilledIn(u, v6);
    }
    hide Defaulted, ParseCIDR, MachineCIDROf, GatewayOf, ParseV4, ServersOk, Split, TrimSpaces;
  }

  lemma NATExact(u: Settings, v6: string -> bool)
    requires SaysNAT(u)
    ensures NATOk(Defaulted(u, v6)) <==> SaysNothingOfNetwork(u)
  {
    hide MachineCIDROf, GatewayOf, Sized;
  }

  lemma ServiceExact(u: Settings, v6: string -> bool)
    ensures var v := Defaulted(u, v6);
            && (v.magicDNS in {"", "sslip.io", "nip.io"} <==> u.magicDNS in {"", "auto", "off", "sslip.io", "nip.io"})
            && (u.magicDNS in {"", "auto", "off", "sslip.io", "nip.io"} ==> (v.magicDNS != "" <==> UsesService(u)))
            && v.sizes == Sized(u.sizes)
  {
    hide MachineCIDROf, GatewayOf, Sized;
  }

  /**
   Every check on a new cluster, with the defaults it runs behind: the settings
   are accepted if and only if what was typed is sensible.
   */
  lemma AcceptedExact(u: Settings, clusters: nat, v6: string -> bool, mac: string -> bool)
    ensures Acceptable(Defaulted(u, v6), clusters, v6, mac) <==> Sensible(u, clusters, v6, mac)
  {
    NamesExact(u, v6);
    ServiceExact(u, v6);
    if SaysNAT(u) {
      NATExact(u, v6);
    } else if u.networkMode == "bridge" {
      BridgeExact(u, v6, mac);
    }
    hide Defaulted, NATOk, BridgeOk, SaysBridge, SaysNothingOfNetwork;
  }

  // ----- the base domain -----

  /** What the user gave, or the master's address under the service, or "local". */
  lemma DomainExact(u: Settings, clusters: nat, cfg: Cfg, draws: seq<Draw>, ips: seq<string>,
      macs: seq<string>, v6: string -> bool, mac: string -> bool)
    requires AcceptedAllocated(u, clusters, cfg, draws, ips, macs, v6, mac)
    ensures var a := AfterAllocate(Defaulted(u, v6), ips, macs);
            a.settings.domain ==
            if u.domain != "" then u.domain
            else if !UsesService(u) then "local"
            else (if u.networkMode == "bridge" then u.masterIP else a.ips[0]) + "." +
                 (if u.magicDNS == "nip.io" then "nip.io" else "sslip.io")
  {
    var v := Defaulted(u, v6);
    NamesExact(u, v6);
    ServiceExact(u, v6);
    if u.networkMode == "bridge" {
      BridgeDefaults(u, v6);
    } else {
      AllocatedNonempty(cfg, draws, v, ips, macs);
    }
    AcceptedIsAddressed(u, clusters, cfg, draws, ips, macs, v6, mac);
    hide Defaulted, Allocated, BridgeOk, Sized;
  }

  /**
   The domain is derived once. When a delete gave the addresses back and stopped,
   and the cluster is created again, its domain names its new master address if
   and only if it was handed the old one again.
   */
  lemma DomainOfFirstAddress(v: Settings, ips: seq<string>, macs: seq<string>, ips': seq<string>, macs': seq<string>)
    requires v.networkMode == "nat" && NATOk(v) && v.magicDNS != "" && v.domain == ""
    requires ips != [] && ips[0] != "" && ips' != [] && ips'[0] != ""
    ensures var first := AfterAllocate(v, ips, macs);
            var again := AfterAllocate(first.settings, ips', macs');
            && first.settings.domain == ips[0] + "." + v.magicDNS
            && (again.settings.domain == again.MasterIP() + "." + v.magicDNS <==> ips'[0] == ips[0])
  {
    var tail := "." + v.magicDNS;
    var a, b := ips[0] + "." + v.magicDNS, ips'[0] + "." + v.magicDNS;
    assert a == ips[0] + tail && b == ips'[0] + tail;
    assert a[..|a| - |tail|] == ips[0] && b[..|b| - |tail|] == ips'[0];
  }
}

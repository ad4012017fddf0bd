/**
 What the static-network keyfile of an accepted cluster says
 (config/cluster.go:134-179), stated on the settings the user gave and the
 addresses that were handed out, value by value.
 */
module Keyfiles {
  import opened Text
  import opened Ipv4
  import opened Addresses
  import opened Model
  import opened Defaults

  /** Texts that are IPv6 addresses hold none of the characters lists are separated by. */
  ghost predicate PlainV6(v6: string -> bool) {
    forall s :: v6(s) ==> ',' !in s && ';' !in s
  }

  // ----- the list of name servers -----

  lemma {:induction false} CutReplaced(s: string)
    requires ';' !in s
    ensures var f := Cut(s, ',');
            && ';' !in f.0 && (f.1.Some? ==> ';' !in f.1.value)
            && Cut(Replaced(s), ';') == (f.0, if f.1.None? then None else Some(Replaced(f.1.value)))
  {
    if s != "" {
      assert Replaced(s)[1..] == Replaced(s[1..]);
      if s[0] != ',' {
        CutReplaced(s[1..]);
      }
    }
  }

  lemma {:induction false} SplitReplaced(s: string)
    requires ';' !in s
    ensures Split(Replaced(s), ';') == Split(s, ',')
    decreases |s|
  {
    CutReplaced(s);
    var f := Cut(s, ',');
    if f.1.Some? {
      CutShrinks(s, ',');
      SplitReplaced(f.1.value);
    }
  }

  lemma {:induction false} CutClosed(s: string)
    ensures var f := Cut(s, ';');
            Cut(s + ";", ';') == (f.0, if f.1.None? then Some("") else Some(f.1.value + ";"))
  {
    if s == "" {
      assert s + ";" == ";" && ";"[1..] == "";
    } else {
      assert (s + ";")[1..] == s[1..] + ";";
      if s[0] != ';' {
        CutClosed(s[1..]);
      }
    }
  }

  lemma {:induction false} SplitClosed(s: string)
    ensures Split(s + ";", ';') == Split(s, ';') + [""]
    decreases |s|
  {
    CutClosed(s);
    var f := Cut(s, ';');
    if f.1.Some? {
      CutShrinks(s, ';');
      SplitClosed(f.1.value);
    } else {
      assert Split("", ';') == [""];
    }
  }

  /** The last part is empty exactly when the text is, or ends in a separator. */
  lemma {:induction false} LastPart(s: string)
    ensures var parts := Split(s, ';');
            parts[|parts| - 1] == "" <==> s == "" || s[|s| - 1] == ';'
    decreases |s|
  {
    var f := Cut(s, ';');
    CutSplits(s, ';');
    if f.1.Some? {
      CutShrinks(s, ';');
      LastPart(f.1.value);
    }
  }

  /** The entries of a list, each closed by a semicolon: a list that ends in a comma is closed already. */
  function Closed(parts: seq<string>): seq<string> {
    if parts != [] && parts[|parts| - 1] == "" then parts else parts + [""]
  }

  lemma SemicolonsExact(s: string)
    requires s != "" && ';' !in s
    ensures Split(Semicolons(s), ';') == Closed(Split(s, ','))
  {
    SplitReplaced(s);
    LastPart(Replaced(s));
    SplitClosed(Replaced(s));
  }

  // ----- accepted lists hold no semicolon -----

  lemma {:induction false} TrimKeeps(s: string, c: char)
    requires c in s && c !in {' ', '\t', '\n', '\r'}
    ensures c in TrimSpaces(s)
    decreases |s|
  {
    if s[0] in {' ', '\t', '\n', '\r'} {
      assert s == [s[0]] + s[1..];
      TrimKeeps(s[1..], c);
    } else if s[|s| - 1] in {' ', '\t', '\n', '\r'} {
      assert s == s[..|s| - 1] + [s[|s| - 1]];
      TrimKeeps(s[..|s| - 1], c);
    }
  }

  predicate Plain(s: string) {
    ',' !in s && ';' !in s
  }

  lemma CutPlain(s: string)
    requires var f := Cut(s, '.'); Plain(f.0) && f.1.Some? && Plain(f.1.value)
    ensures Plain(s)
  {
    CutSplits(s, '.');
  }

  lemma OctetPlain(s: string)
    requires Octet(s).Some?
    ensures Plain(s)
  {
  }

  /** A dotted address is digits and dots. */
  lemma V4Plain(s: string)
    requires ParseV4(s).Some?
    ensures Plain(s)
  {
    hide Octet, Cut, Plain;
    var f0 := Cut(s, '.');
    var f1 := Cut(f0.1.value, '.');
    var f2 := Cut(f1.1.value, '.');
    OctetPlain(f0.0);
    OctetPlain(f1.0);
    OctetPlain(f2.0);
    OctetPlain(f2.1.value);
    CutPlain(f1.1.value);
    CutPlain(f0.1.value);
    CutPlain(s);
  }

  lemma AddressPlain(s: string, v6: string -> bool)
    requires PlainV6(v6) && !ParseIP(s, v6).BadAddr?
    ensures Plain(s)
  {
    hide ParseV4;
    if ParseV4(s).Some? {
      V4Plain(s);
    }
  }

  lemma {:induction false} JoinPlain(parts: seq<string>)
    requires forall e :: e in parts ==> ';' !in e
    ensures ';' !in Join(parts, ',')
  {
    if |parts| > 1 {
      JoinPlain(parts[1..]);
    }
  }

  lemma ServersPlain(dns: string, v6: string -> bool)
    requires PlainV6(v6) && ServersOk(dns, v6)
    ensures ';' !in dns
  {
    var parts := Split(dns, ',');
    forall e | e in parts ensures ';' !in e {
      assert ServerOk(e, v6);
      if ';' in e {
        TrimKeeps(e, ';');
        AddressPlain(TrimSpaces(e), v6);
      }
    }
    JoinPlain(parts);
    SplitExact(dns, ',');
  }

  // ----- the keyfile, value by value -----

  /** An accepted cluster after a successful allocation. */
  ghost predicate AcceptedAllocated(u: Settings, clusters: nat, cfg: Cfg, draws: seq<Draw>, ips: seq<string>,
      macs: seq<string>, v6: string -> bool, mac: string -> bool) {
    && Acceptable(Defaulted(u, v6), clusters, v6, mac)
    && (Defaulted(u, v6).networkMode == "nat" ==> Allocated(cfg, draws, Defaulted(u, v6), ips, macs))
  }

  /** The prefix length of a machine network is the number behind its slash. */
  ghost predicate PrefixIs(cidr: string, prefix: nat) {
    var f := Cut(cidr, '/');
    f.1.Some? && f.1.value != "" && Digits(f.1.value) && DecimalValue(f.1.value) == prefix
  }

  /** The gateway of a machine network: its first host, which lies in it unless it is a single address. */
  ghost predicate FirstHost(gateway: string, net: Quad, prefix: nat) {
    var g := ParseV4(gateway);
    g.Some? && (prefix <= 31 ==> Number(g.value) == Number(net) + 1 && In(g.value, net, prefix))
  }

  lemma PrefixSays(cidr: string, v6: string -> bool)
    ensures PrefixOf(cidr, v6).Some? ==> PrefixIs(cidr, PrefixOf(cidr, v6).value)
    ensures ParseCIDR(cidr, v6).Net4? ==> PrefixOf(cidr, v6) == Some(ParseCIDR(cidr, v6).prefix)
  {
  }

  lemma CidrMasked(cidr: string, v6: string -> bool) returns (q: Quad)
    requires ParseCIDR(cidr, v6).Net4?
    ensures var c := ParseCIDR(cidr, v6); c.prefix <= 32 && c.net == Masked(q, c.prefix)
  {
    q := ParseIP(Cut(cidr, '/').0, v6).quad;
  }

  lemma GatewaySays(cidr: string, v6: string -> bool)
    requires ParseCIDR(cidr, v6).Net4?
    ensures GatewayOf(cidr, v6).Some?
    ensures FirstHost(GatewayOf(cidr, v6).value, ParseCIDR(cidr, v6).net, ParseCIDR(cidr, v6).prefix)
  {
    GatewayParses(cidr, v6);
    var q := CidrMasked(cidr, v6);
    GatewayIsFirstHost(q, ParseCIDR(cidr, v6).prefix);
  }

  /** A rendered keyfile is made of the addresses, machine network, gateway and name servers of its settings. */
  lemma RenderedFrom(a: Addressed, v6: string -> bool)
    requires StaticNetworkKeyfile(a, v6).Some?
    ensures var k := StaticNetworkKeyfile(a, v6).value;
            && k.mac == a.MasterMAC() && k.ip == a.MasterIP()
            && PrefixIs(a.settings.machineCIDR, k.prefix)
            && (ParseCIDR(a.settings.machineCIDR, v6).Net4? ==>
                  k.prefix == ParseCIDR(a.settings.machineCIDR, v6).prefix)
            && (a.settings.gateway != "" ==> k.gateway == a.settings.gateway)
            && (a.settings.gateway == "" ==>
                  var cidr := ParseCIDR(a.settings.machineCIDR, v6);
                  cidr.Net4? && FirstHost(k.gateway, cidr.net, cidr.prefix))
            && k.dns == Semicolons(if a.settings.dns != "" then a.settings.dns else k.gateway)
  {
    PrefixSays(a.settings.machineCIDR, v6);
    PrefixExact(a.settings.machineCIDR, v6);
    if ParseCIDR(a.settings.machineCIDR, v6).Net4? {
      GatewaySays(a.settings.machineCIDR, v6);
    }
    hide ParseCIDR, PrefixOf, GatewayOf, Semicolons, PrefixIs, FirstHost;
  }

  /** What the defaults make of the network settings of a bridge cluster. */
  lemma BridgeDefaults(u: Settings, v6: string -> bool)
    requires u.networkMode == "bridge"
    ensures var v := Defaulted(u, v6);
            && v.networkMode == "bridge" && v.masterMAC == u.masterMAC && v.masterIP == u.masterIP && v.dns == u.dns
            && (u.machineCIDR != "" ==> v.machineCIDR == u.machineCIDR)
            && (u.machineCIDR == "" && u.masterIP != "" ==>
                  v.machineCIDR == MachineCIDROf(u.masterIP, v6).GetOr(""))
            && (u.gateway != "" ==> v.gateway == u.gateway)
            && (u.gateway == "" ==> v.gateway == if v.machineCIDR == "" then "" else
                                                   GatewayOf(v.machineCIDR, v6).GetOr(""))
  {
    hide MachineCIDROf, GatewayOf, Sized;
  }

  lemma AddressesGiven(v: Settings, ips: seq<string>, macs: seq<string>)
    requires v.networkMode == "bridge" && v.masterIP != "" && v.masterMAC != ""
    ensures var a := AfterAllocate(v, ips, macs);
            && a.MasterMAC() == v.masterMAC && a.MasterIP() == v.masterIP
            && a.settings == v.(domain := a.settings.domain)
  {
  }

  lemma AddressesHandedOut(v: Settings, ips: seq<string>, macs: seq<string>)
    requires v.networkMode == "nat" && NATOk(v) && ips != [] && macs != []
    ensures var a := AfterAllocate(v, ips, macs);
            && a.MasterMAC() == macs[0] && a.MasterIP() == ips[0]
            && a.settings == v.(domain := a.settings.domain, machineCIDR := "192.168.126.0/24")
  {
    assert BASE_NETWORK_RANGE + ".0/24" == "192.168.126.0/24";
  }

  /** A list with one entry, closed. */
  lemma OneServer(gateway: string)
    requires Plain(gateway) && gateway != ""
    ensures Split(Semicolons(gateway), ';') == [gateway, ""]
  {
    CutNone(gateway, ',');
    assert Split(gateway, ',') == [gateway];
    SemicolonsExact(gateway);
  }

  lemma FirstHostPlain(gateway: string, net: Quad, prefix: nat)
    requires FirstHost(gateway, net, prefix)
    ensures Plain(gateway) && gateway != ""
  {
    V4Plain(gateway);
  }

  /**
   The keyfile of an accepted NAT cluster: the MAC and the IP that were handed
   out, the shared network's prefix, and its .1 as gateway and only name server.
   */
  lemma NATKeyfile(u: Settings, clusters: nat, cfg: Cfg, draws: seq<Draw>, ips: seq<string>,
      macs: seq<string>, v6: string -> bool, mac: string -> bool)
    requires AcceptedAllocated(u, clusters, cfg, draws, ips, macs, v6, mac) && Defaulted(u, v6).networkMode == "nat"
    ensures var k := StaticNetworkKeyfile(AfterAllocate(Defaulted(u, v6), ips, macs), v6);
            && k.Some? && ips != [] && macs != []
            && k.value.mac == macs[0] && k.value.ip == ips[0] && k.value.prefix == 24
            && ParseV4(k.value.gateway) == Some(Quad(192, 168, 126, 1))
            && Split(k.value.dns, ';') == [k.value.gateway, ""]
  {
    var v := Defaulted(u, v6);
    AllocatedNonempty(cfg, draws, v, ips, macs);
    KeyfileExact(u, clusters, cfg, draws, ips, macs, v6, mac);
    GatewayStored(u, v6);
    assert v.masterCount == 1 && v.workerCount == 0 && NATOk(v);
    hide Defaulted, Allocated, AfterAllocate, StaticNetworkKeyfile, ParseCIDR, ParseV4, Semicolons, Split, FirstHost;
    AddressesHandedOut(v, ips, macs);
    var a := AfterAllocate(v, ips, macs);
    NATNetwork(v6);
    assert BASE_NETWORK_RANGE + ".0/24" == "192.168.126.0/24";
    RenderedFrom(a, v6);
    var k := StaticNetworkKeyfile(a, v6).value;
    FirstHostPlain(k.gateway, Quad(192, 168, 126, 0), 24);
    OneServer(k.gateway);
    SharedGateway(k.gateway);
  }

  lemma SharedGateway(gateway: string)
    requires FirstHost(gateway, Quad(192, 168, 126, 0), 24)
    ensures ParseV4(gateway) == Some(Quad(192, 168, 126, 1))
  {
    NumberExact(ParseV4(gateway).value, Quad(192, 168, 126, 1));
  }

  /** Numbers written in base 256 determine their digits. */
  lemma Base256(a: nat, b: nat, c: nat, d: nat, e: nat, f: nat, g: nat, h: nat)
    requires a < 256 && b < 256 && c < 256 && d < 256 && e < 256 && f < 256 && g < 256 && h < 256
    requires ((a * 256 + b) * 256 + c) * 256 + d == ((e * 256 + f) * 256 + g) * 256 + h
    ensures a == e && b == f && c == g && d == h
  {
  }

  /** Addresses with one number are one address. */
  lemma NumberExact(a: Quad, b: Quad)
    requires Number(a) == Number(b)
    ensures a == b
  {
    SameByte(a.a, b.a);
    SameByte(a.b, b.b);
    SameByte(a.c, b.c);
    SameByte(a.d, b.d);
    hide Value;
    Base256(Value(a.a), Value(a.b), Value(a.c), Value(a.d), Value(b.a), Value(b.b), Value(b.c), Value(b.d));
  }

  lemma SameByte(a: bv8, b: bv8)
    ensures Value(a) < 256 && Value(b) < 256
    ensures Value(a) == Value(b) ==> a == b
  {
    assert Value(a) == Value(b) ==> (a as nat) as bv8 == (b as nat) as bv8;
  }

  /** The machine network of an accepted bridge cluster is the given one or the /24 around its IPv4 address. */
  lemma GivenNetwork(u: Settings, v: Settings, v6: string -> bool)
    requires u.masterIP != "" && v.machineCIDR != ""
    requires u.machineCIDR != "" ==> v.machineCIDR == u.machineCIDR
    requires u.machineCIDR == "" ==> v.machineCIDR == MachineCIDROf(u.masterIP, v6).GetOr("")
    ensures u.machineCIDR == "" ==>
              var q := ParseV4(u.masterIP);
              && q.Some? && ParseCIDR(v.machineCIDR, v6) == Net4(Quad(q.value.a, q.value.b, q.value.c, 0), 24)
              && GatewayOf(v.machineCIDR, v6) == Some(Dotted(Quad(q.value.a, q.value.b, q.value.c, 1)))
  {
    hide ParseCIDR, GatewayOf, MachineCIDROf;
    MachineNetwork(u.masterIP, v6);
  }

  /** A gateway that was not given is the machine network's first host, whether it was stored or is derived now. */
  lemma GatewayWritten(a: Addressed, u: Settings, v6: string -> bool)
    requires StaticNetworkKeyfile(a, v6).Some? && u.gateway == "" ==>
               a.settings.gateway == if a.settings.machineCIDR == "" then ""
                                     else GatewayOf(a.settings.machineCIDR, v6).GetOr("")
    requires StaticNetworkKeyfile(a, v6).Some?
    ensures u.gateway == "" ==>
              var k, cidr := StaticNetworkKeyfile(a, v6).value, ParseCIDR(a.settings.machineCIDR, v6);
              && cidr.Net4? && FirstHost(k.gateway, cidr.net, cidr.prefix)
              && GatewayOf(a.settings.machineCIDR, v6) == Some(k.gateway)
  {
    if u.gateway == "" {
      var cidr := ParseCIDR(a.settings.machineCIDR, v6);
      PrefixExact(a.settings.machineCIDR, v6);
      if cidr.Net4? {
        GatewaySays(a.settings.machineCIDR, v6);
      }
      hide ParseCIDR, GatewayOf, PrefixOf, FirstHost, Semicolons;
    }
  }

  lemma ServersWritten(a: Addressed, v6: string -> bool, mac: string -> bool)
    requires BridgeOk(a.settings, v6, mac) && PlainV6(v6) && StaticNetworkKeyfile(a, v6).Some?
    ensures var k := StaticNetworkKeyfile(a, v6).value;
            Split(k.dns, ';') == if a.settings.dns != "" then Closed(Split(a.settings.dns, ',')) else [k.gateway, ""]
  {
    RenderedFrom(a, v6);
    var v, k := a.settings, StaticNetworkKeyfile(a, v6).value;
    hide StaticNetworkKeyfile, Split, Semicolons, ParseIP, ServersOk, PlainV6, ParseCIDR;
    if v.dns != "" {
      ServersPlain(v.dns, v6);
      SemicolonsExact(v.dns);
    } else {
      if v.gateway != "" {
        AddressPlain(v.gateway, v6);
      } else {
        var cidr := ParseCIDR(v.machineCIDR, v6);
        FirstHostPlain(k.gateway, cidr.net, cidr.prefix);
      }
      OneServer(k.gateway);
    }
  }

  /**
   The keyfile of an accepted bridge cluster: the MAC and the IP the user gave;
   the prefix of the machine network given, or 24; the gateway given, or else the
   first host of that network; and the name servers given, entry by entry, or
   else the gateway alone.
   */
  lemma BridgeKeyfile(u: Settings, clusters: nat, cfg: Cfg, draws: seq<Draw>, ips: seq<string>,
      macs: seq<string>, v6: string -> bool, mac: string -> bool)
    requires AcceptedAllocated(u, clusters, cfg, draws, ips, macs, v6, mac) && PlainV6(v6)
    requires u.networkMode == "bridge" && StaticNetworkKeyfile(AfterAllocate(Defaulted(u, v6), ips, macs), v6).Some?
    ensures var k := StaticNetworkKeyfile(AfterAllocate(Defaulted(u, v6), ips, macs), v6).value;
            && k.mac == u.masterMAC && k.ip == u.masterIP
            && (if u.machineCIDR != "" then PrefixIs(u.machineCIDR, k.prefix)
                else ParseV4(u.masterIP).Some? && k.prefix == 24)
            && (u.gateway != "" ==> k.gateway == u.gateway)
            && (u.gateway == "" && u.machineCIDR != "" ==>
                  var cidr := ParseCIDR(u.machineCIDR, v6);
                  cidr.Net4? && FirstHost(k.gateway, cidr.net, cidr.prefix))
            && (u.gateway == "" && u.machineCIDR == "" ==>
                  var q := ParseV4(u.masterIP);
                  q.Some? && k.gateway == Dotted(Quad(q.value.a, q.value.b, q.value.c, 1)))
            && Split(k.dns, ';') == if u.dns != "" then Closed(Split(u.dns, ',')) else [k.gateway, ""]
  {
    var v := Defaulted(u, v6);
    BridgeDefaults(u, v6);
    assert BridgeOk(v, v6, mac);
    hide Defaulted, Allocated, StaticNetworkKeyfile, AfterAllocate, ParseCIDR, ParseV4, ParseIP, Split, PlainV6;
    hide MachineCIDROf, GatewayOf, FirstHost, PrefixIs, ServersOk, Acceptable;
    AddressesGiven(v, ips, macs);
    var a := AfterAllocate(v, ips, macs);
    RenderedFrom(a, v6);
    GivenNetwork(u, v, v6);
    GatewayWritten(a, u, v6);
    ServersWritten(a, v6, mac);
  }
}

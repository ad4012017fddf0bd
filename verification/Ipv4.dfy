/**
 IPv4 addresses and networks as config/cluster.go:69-110 uses them: the text
 forms net.ParseIP and net.ParseCIDR accept, the /24 of an address and the
 conventional gateway. Whether a text is an IPv6 address is a parameter.
 */
module Ipv4 {
  import opened Text

  datatype Quad = Quad(a: bv8, b: bv8, c: bv8, d: bv8)

  datatype Addr = V4(quad: Quad) | V6 | BadAddr
  datatype Cidr = Net4(net: Quad, prefix: nat) | Net6 | BadCidr

  // ----- text -----

  function Field(o: bv8): string {
    Decimal(o as nat)
  }

  function Dotted(q: Quad): string {
    Field(q.a) + "." + Field(q.b) + "." + Field(q.c) + "." + Field(q.d)
  }

  /** The text up to the first separator, and what follows it if there is one. */
  function Cut(s: string, sep: char): (r: (string, Option<string>)) {
    if s == "" then ("", None)
    else if s[0] == sep then ("", Some(s[1..]))
    else var t := Cut(s[1..], sep); ([s[0]] + t.0, t.1)
  }

  lemma {:induction false} CutShrinks(s: string, sep: char)
    ensures Cut(s, sep).1.Some? ==> |Cut(s, sep).1.value| < |s|
    decreases |s|
  {
    if s != "" && s[0] != sep { CutShrinks(s[1..], sep); }
  }

  /** strings.Split on one character. */
  function Split(s: string, sep: char): (r: seq<string>)
    ensures r != []
    decreases |s|
  {
    var f := Cut(s, sep);
    CutShrinks(s, sep);
    if f.1.None? then [f.0] else [f.0] + Split(f.1.value, sep)
  }

  function Join(parts: seq<string>, sep: char): string {
    if parts == [] then "" else if |parts| == 1 then parts[0] else parts[0] + [sep] + Join(parts[1..], sep)
  }

  lemma {:induction false} CutSplits(s: string, sep: char)
    ensures var f := Cut(s, sep);
            sep !in f.0 && s == f.0 + if f.1.None? then "" else [sep] + f.1.value
  {
    if s != "" && s[0] != sep {
      CutSplits(s[1..], sep);
    }
  }

  /** The parts hold no separator, and joining them gives the text back: no other list does both. */
  lemma {:induction false} SplitExact(s: string, sep: char)
    ensures Join(Split(s, sep), sep) == s && forall e :: e in Split(s, sep) ==> sep !in e
    decreases |s|
  {
    var f := Cut(s, sep);
    CutSplits(s, sep);
    if f.1.Some? {
      CutShrinks(s, sep);
      SplitExact(f.1.value, sep);
      assert ([f.0] + Split(f.1.value, sep))[1..] == Split(f.1.value, sep);
    }
  }

  predicate Digits(s: string) {
    forall i :: 0 <= i < |s| ==> '0' <= s[i] <= '9'
  }

  /** One decimal octet: one to three digits, no leading zero, at most 255. */
  function Octet(s: string): Option<bv8> {
    if 1 <= |s| <= 3 && Digits(s) && (|s| == 1 || s[0] != '0') && DecimalValue(s) <= 255
    then Some(DecimalValue(s) as bv8)
    else None
  }

  function ParseV4(s: string): Option<Quad> {
    var f0 := Cut(s, '.');
    if f0.1.None? then None else
    var f1 := Cut(f0.1.value, '.');
    if f1.1.None? then None else
    var f2 := Cut(f1.1.value, '.');
    if f2.1.None? then None else
    var a, b, c, d := Octet(f0.0), Octet(f1.0), Octet(f2.0), Octet(f2.1.value);
    if a.Some? && b.Some? && c.Some? && d.Some? then Some(Quad(a.value, b.value, c.value, d.value)) else None
  }

  function ParseIP(s: string, v6: string -> bool): Addr {
    if ParseV4(s).Some? then V4(ParseV4(s).value) else if v6(s) then V6 else BadAddr
  }

  /** The prefix length after the slash: digits, within the address width. */
  function ParsePrefix(s: string, width: nat): Option<nat> {
    if s != "" && Digits(s) && DecimalValue(s) <= width then Some(DecimalValue(s)) else None
  }

  function ParseCIDR(s: string, v6: string -> bool): Cidr {
    var f := Cut(s, '/');
    if f.1.None? then BadCidr else
    match ParseIP(f.0, v6)
    case V4(q) =>
      var p := ParsePrefix(f.1.value, 32);
      if p.Some? then Net4(Masked(q, p.value), p.value) else BadCidr
    case V6 => if ParsePrefix(f.1.value, 128).Some? then Net6 else BadCidr
    case BadAddr => BadCidr
  }

  // ----- masks -----

  /** How many mask bits fall into the octet that starts at bit k. */
  function MaskBits(prefix: nat, k: nat): nat {
    if prefix <= k then 0 else if prefix >= k + 8 then 8 else prefix - k
  }

  function MaskByte(bits: nat): bv8
    requires bits <= 8
  {
    [0x00, 0x80, 0xC0, 0xE0, 0xF0, 0xF8, 0xFC, 0xFE, 0xFF][bits]
  }

  /** ip[i] & mask[i]. */
  function MaskOctet(o: bv8, bits: nat): bv8
    requires bits <= 8
  {
    o & MaskByte(bits)
  }

  function Masked(q: Quad, prefix: nat): Quad {
    Quad(MaskOctet(q.a, MaskBits(prefix, 0)), MaskOctet(q.b, MaskBits(prefix, 8)),
         MaskOctet(q.c, MaskBits(prefix, 16)), MaskOctet(q.d, MaskBits(prefix, 24)))
  }

  function Value(o: bv8): nat {
    o as nat
  }

  function Number(q: Quad): nat {
    ((Value(q.a) * 256 + Value(q.b)) * 256 + Value(q.c)) * 256 + Value(q.d)
  }

  /** An address lies in a network when masking it gives the network. */
  predicate In(q: Quad, net: Quad, prefix: nat) {
    Masked(q, prefix) == net
  }

  // ----- the code -----

  function MachineCIDROf(masterIP: string, v6: string -> bool): Option<string> {
    match ParseIP(masterIP, v6)
    case V4(q) => Some(Field(q.a) + "." + Field(q.b) + "." + Field(q.c) + ".0/24")
    case _ => None
  }

  /** gw[3]++ on a byte, which wraps at 255. */
  function Bump(o: bv8): bv8 {
    o + 1
  }

  function Next(q: Quad): Quad {
    q.(d := Bump(q.d))
  }

  function GatewayOf(cidr: string, v6: string -> bool): Option<string> {
    match ParseCIDR(cidr, v6)
    case Net4(net, _) => Some(Dotted(Next(net)))
    case _ => None
  }

  method DeriveGateway(cidr: string, v6: string -> bool) returns (gateway: Option<string>)
    ensures gateway == GatewayOf(cidr, v6)
  {
    match ParseCIDR(cidr, v6) {
      case Net4(net, _) =>
        var gw := new bv8[] [net.a, net.b, net.c, net.d];
        gw[3] := gw[3] + 1;
        gateway := Some(Dotted(Quad(gw[0], gw[1], gw[2], gw[3])));
      case _ => gateway := None;
    }
  }

  // ----- the gateway is the first host -----

  lemma MaskedOctet(o: bv8, bits: nat)
    requires bits <= 8
    ensures var m := MaskOctet(o, bits);
      && MaskOctet(m, bits) == m
      && (bits == 8 ==> m == o)
      && (bits <= 7 ==> MaskOctet(Bump(m), bits) == m && Value(Bump(m)) == Value(m) + 1)
      && (bits == 8 ==> MaskOctet(Bump(m), bits) != m)
  {
    var m := MaskOctet(o, bits);
    if bits <= 7 { BumpValue(m); }
  }

  lemma BumpValue(o: bv8)
    requires o != 255
    ensures Value(Bump(o)) == Value(o) + 1
  {
  }

  /**
   Network address plus one: it is the next address, without a carry, and lies
   in the network exactly when the network has more than one address.
   */
  lemma GatewayIsFirstHost(q: Quad, prefix: nat)
    requires prefix <= 32
    ensures var net := Masked(q, prefix);
      && In(net, net, prefix)
      && (In(Next(net), net, prefix) <==> prefix <= 31)
      && (prefix <= 31 ==> Number(Next(net)) == Number(net) + 1)
  {
    hide MaskOctet, Value, Bump;
    MaskedOctet(q.a, MaskBits(prefix, 0));
    MaskedOctet(q.b, MaskBits(prefix, 8));
    MaskedOctet(q.c, MaskBits(prefix, 16));
    MaskedOctet(q.d, MaskBits(prefix, 24));
  }

  // ----- reading back what was printed -----

  lemma {:induction false} CutAt(x: string, sep: char, y: string)
    requires sep !in x
    ensures Cut(x + [sep] + y, sep) == (x, Some(y))
    decreases |x|
  {
    var s := x + [sep] + y;
    if x == "" {
      assert s[1..] == y;
    } else {
      assert s[1..] == x[1..] + [sep] + y;
      CutAt(x[1..], sep, y);
      assert [x[0]] + x[1..] == x;
    }
  }

  lemma {:induction false} CutNone(x: string, sep: char)
    requires sep !in x
    ensures Cut(x, sep) == (x, None)
    decreases |x|
  {
    if x != "" {
      CutNone(x[1..], sep);
      assert [x[0]] + x[1..] == x;
    }
  }

  lemma {:induction false} DecimalShape(n: nat)
    ensures n < 10 ==> |Decimal(n)| == 1
    ensures n >= 10 ==> |Decimal(n)| == 1 + |Decimal(n / 10)| && Decimal(n)[0] != '0'
  {
    if n >= 100 { DecimalShape(n / 10); }
  }

  lemma DecimalOctet(n: nat)
    requires n < 256
    ensures Octet(Decimal(n)) == Some(n as bv8) && '.' !in Decimal(n) && '/' !in Decimal(n)
  {
    hide Decimal, DecimalValue;
    DecimalRoundTrip(n);
    DecimalShape(n);
    DecimalShape(n / 10);
    DecimalShape(n / 100);
  }

  lemma FieldOctet(o: bv8)
    ensures Octet(Field(o)) == Some(o) && '.' !in Field(o) && '/' !in Field(o)
  {
    DecimalOctet(o as nat);
  }

  /** A printed address parses back to itself. */
  lemma ParseDotted(q: Quad)
    ensures ParseV4(Dotted(q)) == Some(q) && '/' !in Dotted(q)
  {
    hide Field, Octet;
    var a, b, c, d := Field(q.a), Field(q.b), Field(q.c), Field(q.d);
    FieldOctet(q.a);
    FieldOctet(q.b);
    FieldOctet(q.c);
    FieldOctet(q.d);
    assert Dotted(q) == a + ['.'] + (b + ['.'] + (c + ['.'] + d));
    CutAt(a, '.', b + ['.'] + (c + ['.'] + d));
    CutAt(b, '.', c + ['.'] + d);
    CutAt(c, '.', d);
  }

  lemma {:induction false} LeadingDigit(s: string)
    requires s != "" && Digits(s) && s[0] != '0'
    ensures DecimalValue(s) > 0
  {
    var n := |s| - 1;
    if n > 0 {
      LeadingDigit(s[..n]);
    }
  }

  lemma DecimalNext(v: nat, d: nat)
    requires v > 0 && d < 10
    ensures Decimal(v * 10 + d) == Decimal(v) + [Digit(d)]
  {
    assert (v * 10 + d) / 10 == v && (v * 10 + d) % 10 == d;
  }

  lemma DigitRead(c: char)
    requires '0' <= c <= '9'
    ensures Digit((c - '0') as nat) == c
  {
  }

  lemma OneDigit(c: char)
    requires '0' <= c <= '9'
    ensures Decimal(DecimalValue([c])) == [c]
  {
    assert [c][..0] == "";
  }

  lemma NextDigit(s: string, c: char)
    requires Digits(s) && DecimalValue(s) > 0 && '0' <= c <= '9'
    ensures Decimal(DecimalValue(s + [c])) == Decimal(DecimalValue(s)) + [c]
  {
    hide Decimal, Digit;
    assert (s + [c])[..|s|] == s;
    DigitRead(c);
    DecimalNext(DecimalValue(s), (c - '0') as nat);
  }

  /** Digits without a leading zero are the rendering of their value. */
  lemma {:induction false} DecimalCanonical(s: string)
    requires s != "" && Digits(s) && (|s| == 1 || s[0] != '0')
    ensures Decimal(DecimalValue(s)) == s
  {
    var n := |s| - 1;
    if n == 0 {
      OneDigit(s[0]);
    } else {
      hide Decimal, Digit, DecimalValue;
      DecimalCanonical(s[..n]);
      LeadingDigit(s[..n]);
      NextDigit(s[..n], s[n]);
      assert s == s[..n] + [s[n]];
    }
  }

  lemma ByteBack(o: bv8)
    ensures Value(o) < 256 && Value(o) as bv8 == o
  {
  }

  /** A number below 256 is the value of its byte: counting up from zero. */
  lemma {:induction false} ByteOf(n: nat)
    requires n < 256
    ensures Value(n as bv8) == n
  {
    if n > 0 {
      hide Value, Bump;
      ByteOf(n - 1);
      var p := (n - 1) as bv8;
      Bumped(p);
      ByteBack(Bump(p));
    }
  }

  lemma Bumped(p: bv8)
    requires Value(p) < 255
    ensures Value(Bump(p)) == Value(p) + 1
  {
    assert Value(255) == 255;
    BumpValue(p);
  }

  lemma OctetExact(s: string, o: bv8)
    ensures Octet(s) == Some(o) <==> s == Field(o)
  {
    hide Decimal, DecimalValue;
    FieldOctet(o);
    if Octet(s) == Some(o) {
      DecimalCanonical(s);
      ByteOf(DecimalValue(s));
    }
  }

  /** The four parts of an address. */
  lemma PartsJoined(s: string)
    requires ParseV4(s).Some?
    ensures var f0 := Cut(s, '.');
            var f1 := Cut(f0.1.value, '.');
            var f2 := Cut(f1.1.value, '.');
            s == f0.0 + "." + f1.0 + "." + f2.0 + "." + f2.1.value
  {
    hide Octet, Cut;
    var f0 := Cut(s, '.');
    var f1 := Cut(f0.1.value, '.');
    CutSplits(s, '.');
    CutSplits(f0.1.value, '.');
    CutSplits(f1.1.value, '.');
  }

  /** The texts that are IPv4 addresses are the printed ones: four numbers up to 255 without leading zeros. */
  lemma ParseV4Exact(s: string, q: Quad)
    ensures ParseV4(s) == Some(q) <==> s == Dotted(q)
  {
    ParseDotted(q);
    hide Octet, Field, Cut;
    if ParseV4(s) == Some(q) {
      var f0 := Cut(s, '.');
      var f1 := Cut(f0.1.value, '.');
      var f2 := Cut(f1.1.value, '.');
      OctetExact(f0.0, q.a);
      OctetExact(f1.0, q.b);
      OctetExact(f2.0, q.c);
      OctetExact(f2.1.value, q.d);
      PartsJoined(s);
    }
  }

  /** The texts that are IPv4 networks: an address, a slash and digits that say 32 at most. */
  lemma ParseCIDRExact(s: string, v6: string -> bool)
    ensures ParseCIDR(s, v6).Net4? <==> exists q, d :: Network(s, q, d)
    ensures forall q, d :: Network(s, q, d) ==> ParseCIDR(s, v6) == Net4(Masked(q, DecimalValue(d)), DecimalValue(d))
  {
    hide ParseV4, Dotted, Masked, DecimalValue;
    forall q, d | Network(s, q, d)
      ensures ParseCIDR(s, v6) == Net4(Masked(q, DecimalValue(d)), DecimalValue(d))
    {
      ParseDotted(q);
      CutAt(Dotted(q), '/', d);
    }
    if ParseCIDR(s, v6).Net4? {
      var f := Cut(s, '/');
      CutSplits(s, '/');
      var q := ParseV4(f.0).value;
      ParseV4Exact(f.0, q);
      assert Network(s, q, f.1.value);
    }
  }

  ghost predicate Network(s: string, q: Quad, d: string) {
    s == Dotted(q) + "/" + d && d != "" && Digits(d) && DecimalValue(d) <= 32
  }

  /** The gateway of any accepted IPv4 CIDR is itself a valid IPv4 address. */
  lemma GatewayParses(cidr: string, v6: string -> bool)
    ensures ParseCIDR(cidr, v6).Net4? <==> GatewayOf(cidr, v6).Some?
    ensures GatewayOf(cidr, v6).Some? ==>
      ParseV4(GatewayOf(cidr, v6).value) == Some(Next(ParseCIDR(cidr, v6).net))
  {
    if ParseCIDR(cidr, v6).Net4? { ParseDotted(Next(ParseCIDR(cidr, v6).net)); }
  }

  /** The machine network of an IPv4 address is the /24 around it, and its gateway is the .1. */
  lemma MachineNetwork(masterIP: string, v6: string -> bool)
    ensures MachineCIDROf(masterIP, v6).Some? <==> ParseV4(masterIP).Some?
    ensures MachineCIDROf(masterIP, v6).Some? ==>
      var q := ParseV4(masterIP).value;
      var cidr := MachineCIDROf(masterIP, v6).value;
      && ParseCIDR(cidr, v6) == Net4(Quad(q.a, q.b, q.c, 0), 24)
      && In(q, Quad(q.a, q.b, q.c, 0), 24)
      && GatewayOf(cidr, v6) == Some(Dotted(Quad(q.a, q.b, q.c, 1)))
  {
    hide ParseV4, Cut, Field, ParsePrefix, MaskOctet;
    if ParseV4(masterIP).Some? {
      var q := ParseV4(masterIP).value;
      var n := Quad(q.a, q.b, q.c, 0);
      Zero24(q);
      MaskedOctet(q.a, 8);
      MaskedOctet(q.b, 8);
      MaskedOctet(q.c, 8);
      MaskedNone(q.d);
      MaskedNone(0);
      assert Masked(q, 24) == n == Masked(n, 24);
    }
  }

  lemma FieldZero()
    ensures Field(0) == "0"
  {
  }

  lemma MaskedNone(o: bv8)
    ensures MaskOctet(o, 0) == 0
  {
  }

  /** The printed /24 parses to its network. */
  lemma Zero24(q: Quad)
    ensures var s := Field(q.a) + "." + Field(q.b) + "." + Field(q.c) + ".0/24";
      var f := Cut(s, '/');
      f.1 == Some("24") && ParseV4(f.0) == Some(Quad(q.a, q.b, q.c, 0)) && ParsePrefix("24", 32) == Some(24)
  {
    hide ParseV4, Field;
    var n := Quad(q.a, q.b, q.c, 0);
    var abc := Field(q.a) + "." + Field(q.b) + "." + Field(q.c);
    ParseDotted(n);
    FieldZero();
    assert abc + ".0/24" == Dotted(n) + ['/'] + "24";
    CutAt(Dotted(n), '/', "24");
    assert DecimalValue("24") == 24 by { assert "24"[..1] == "2"; assert "2"[..0] == ""; }
  }
}

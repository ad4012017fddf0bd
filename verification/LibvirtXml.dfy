/**
 The text form of the shared NAT network (providers/libvirt/libvirt.go:299-465):
 what easyshift prints into it and what its regular expressions read back. The
 lifecycle's network value is exactly what the parsers see in the printed text.
 */
module LibvirtXml {
  import opened Text
  import opened Addresses
  import opened Model
  import opened Ipv4
  import NatReset

  const DHCP_DYNAMIC_START := 100
  const DHCP_DYNAMIC_END := 254

  // ----- the regular expressions -----

  /** \b after "<host". */
  predicate WordChar(c: char) {
    'a' <= c <= 'z' || 'A' <= c <= 'Z' || '0' <= c <= '9' || c == '_'
  }

  predicate HostAt(s: string) {
    && |s| > 5 && s[..5] == "<host" && !WordChar(s[5])
    && Cut(s, '>').1.Some?
  }

  /** reHostLine.FindAllString: <host\b[^>]*\/?> from left to right, without overlap. */
  function HostLines(s: string): seq<string>
    decreases |s|
  {
    if s == "" then []
    else if HostAt(s) then (CutShrinks(s, '>'); [Cut(s, '>').0 + ">"] + HostLines(Cut(s, '>').1.value))
    else HostLines(s[1..])
  }

  /** key='([^']{least,})': the first attribute text that matches. */
  function Attribute(s: string, key: string, least: nat): Option<string>
    decreases |s|
  {
    if s == "" then None
    else if AttributeAt(s, key, least) then Some(Cut(s[|key| + 2..], '\'').0)
    else Attribute(s[1..], key, least)
  }

  predicate AttributeAt(s: string, key: string, least: nat) {
    && |key| + 2 <= |s| && s[..|key| + 2] == key + "='"
    && Cut(s[|key| + 2..], '\'').1.Some? && |Cut(s[|key| + 2..], '\'').0| >= least
  }

  predicate Blank(c: char) {
    c in {' ', '\t', '\n', '\r', 12 as char}
  }

  /** \s+: what follows a non-empty run of white space. */
  function AfterBlanks(s: string): Option<string> {
    if s == "" || !Blank(s[0]) then None
    else if |s| > 1 && Blank(s[1]) then AfterBlanks(s[1..])
    else Some(s[1..])
  }

  /** key='([^']+)' at the front: its value and what follows. */
  function QuotedAt(s: string, key: string): Option<(string, string)> {
    if |key| + 2 <= |s| && s[..|key| + 2] == key + "='" then
      var v := Cut(s[|key| + 2..], '\'');
      if v.1.Some? && v.0 != "" then Some((v.0, v.1.value)) else None
    else None
  }

  function RangeAt(s: string): Option<(string, string)> {
    if |s| < 6 || s[..6] != "<range" then None else
    var s1 := AfterBlanks(s[6..]);
    if s1.None? then None else
    var start := QuotedAt(s1.value, "start");
    if start.None? then None else
    var s2 := AfterBlanks(start.value.1);
    if s2.None? then None else
    var end := QuotedAt(s2.value, "end");
    if end.None? then None else Some((start.value.0, end.value.0))
  }

  /** parseDHCPRange: the first range element, or two empty strings. */
  function ParseDHCPRange(s: string): (string, string)
    decreases |s|
  {
    if s == "" then ("", "")
    else if RangeAt(s).Some? then RangeAt(s).value
    else ParseDHCPRange(s[1..])
  }

  function ParseHost(line: string): DHCPHost {
    DHCPHost(Attribute(line, "mac", 1).GetOr(""), Attribute(line, "ip", 1).GetOr(""), Attribute(line, "name",
        0).GetOr(""))
  }

  function HostsOf(lines: seq<string>): seq<DHCPHost> {
    if lines == [] then []
    else
      var h := ParseHost(lines[|lines| - 1]);
      HostsOf(lines[..|lines| - 1]) + if h.mac != "" || h.ip != "" then [h] else []
  }

  method ParseReservations(xml: string) returns (hosts: seq<DHCPHost>)
    ensures hosts == HostsOf(HostLines(xml))
  {
    var lines := HostLines(xml);
    hosts := [];
    for i := 0 to |lines|
      invariant hosts == HostsOf(lines[..i])
    {
      assert lines[..i + 1][..i] == lines[..i];
      var h := DHCPHost("", "", "");
      var m := Attribute(lines[i], "mac", 1);
      if m.Some? { h := h.(mac := m.value); }
      m := Attribute(lines[i], "ip", 1);
      if m.Some? { h := h.(ip := m.value); }
      m := Attribute(lines[i], "name", 0);
      if m.Some? { h := h.(hostname := m.value); }
      if h.mac != "" || h.ip != "" { hosts := hosts + [h]; }
    }
    assert lines[..|lines|] == lines;
  }

  // ----- what is printed -----

  /** The reservation entry AddHost and RemoveHost hand to virsh. */
  function Entry(h: DHCPHost): string {
    "<host mac='" + h.mac + "' name='" + h.hostname + "' ip='" + h.ip + "'/>"
  }

  datatype NetworkSpec = NetworkSpec(name: string, subnet: string, bridge: string, domain: string)

  function BridgeElement(bridge: string): string {
    if bridge == "" then "<bridge stp='on' delay='0'/>" else "<bridge name='" + bridge + "' stp='on' delay='0'/>"
  }

  function DomainElement(domain: string): string {
    if domain == "" then "" else "\n  " + "<domain name='" + domain + "' localOnly='yes'/>"
  }

  function Concat(pieces: seq<string>): string {
    if pieces == [] then "" else pieces[0] + Concat(pieces[1..])
  }

  /** The definition up to its range element, line by line. */
  function HeadLines(spec: NetworkSpec): seq<string> {
    ["<network>\n  <name>", spec.name, "</name>\n  <forward mode='nat'>\n    ", "<nat>\n      ",
     "<port start='1024' end='65535'/>\n    ", "</nat>\n  </forward>\n  ",
     BridgeElement(spec.bridge), DomainElement(spec.domain), "\n  <ip address='", spec.subnet,
     ".1' netmask='255.255.255.0'>\n    ", "<dhcp>\n      "]
  }

  function Head(spec: NetworkSpec): string {
    Concat(HeadLines(spec))
  }

  function RangeElement(subnet: string): string {
    "<range start='" + subnet + "." + Decimal(DHCP_DYNAMIC_START)
    + "' end='" + subnet + "." + Decimal(DHCP_DYNAMIC_END) + "'/>"
  }

  const TAIL := "\n    </dhcp>\n  </ip>\n</network>"

  /** buildNetworkXML. */
  function BuildNetworkXML(spec: NetworkSpec): string {
    Head(spec) + RangeElement(spec.subnet) + TAIL
  }

  /** Reservations each behind some text of the definition's own. */
  function Entries(hs: seq<(string, DHCPHost)>): string {
    if hs == [] then "" else hs[0].0 + Entry(hs[0].1) + Entries(hs[1..])
  }

  /** The definition after reservations were added to its dhcp element. */
  function Dump(spec: NetworkSpec, hs: seq<(string, DHCPHost)>): string {
    Head(spec) + RangeElement(spec.subnet) + (Entries(hs) + TAIL)
  }

  // ----- what is safe to print -----

  /** Text that keeps its place inside an attribute. */
  predicate Safe(s: string) {
    forall i :: 0 <= i < |s| ==> s[i] !in {'<', '>', '\'', '='}
  }

  predicate SafeHost(h: DHCPHost) {
    Safe(h.mac) && Safe(h.ip) && Safe(h.hostname) && h.mac != "" && h.ip != ""
  }

  predicate SafeSpec(spec: NetworkSpec) {
    Safe(spec.name) && Safe(spec.subnet) && Safe(spec.bridge) && Safe(spec.domain)
  }

  /** No element that starts with this letter begins in the text. */
  predicate NoElement(s: string, c: char) {
    forall i :: 0 <= i < |s| && s[i] == '<' ==> i + 1 < |s| && s[i + 1] != c
  }

  lemma NoElementPlus(a: string, b: string, c: char)
    requires NoElement(a, c) && NoElement(b, c)
    ensures NoElement(a + b, c)
  {
    forall i | 0 <= i < |a + b| && (a + b)[i] == '<' ensures i + 1 < |a + b| && (a + b)[i + 1] != c {
      if i < |a| { assert a[i] == '<'; } else { assert b[i - |a|] == '<'; }
    }
  }

  lemma {:induction false} NoElementConcat(pieces: seq<string>, c: char)
    requires forall i :: 0 <= i < |pieces| ==> NoElement(pieces[i], c)
    ensures NoElement(Concat(pieces), c)
    decreases |pieces|
  {
    if pieces != [] {
      NoElementConcat(pieces[1..], c);
      NoElementPlus(pieces[0], Concat(pieces[1..]), c);
    }
  }

  lemma SafeNoElement(s: string, c: char)
    requires Safe(s)
    ensures NoElement(s, c)
  {
  }

  lemma FixedLines(c: char)
    requires c == 'h' || c == 'r'
    ensures NoElement("<network>\n  <name>", c) && NoElement("</name>\n  <forward mode='nat'>\n    ", c)
    ensures NoElement("<nat>\n      ", c) && NoElement("</nat>\n  </forward>\n  ", c)
    ensures NoElement("\n  <ip address='", c) && NoElement("<dhcp>\n      ", c)
  {
  }

  lemma FixedLines2(c: char)
    requires c == 'h' || c == 'r'
    ensures NoElement("<port start='1024' end='65535'/>\n    ", c)
    ensures NoElement(".1' netmask='255.255.255.0'>\n    ", c)
    ensures NoElement(TAIL, c)
  {
  }

  lemma BridgeLine(bridge: string, c: char)
    requires Safe(bridge) && (c == 'h' || c == 'r')
    ensures NoElement(BridgeElement(bridge), c)
  {
    if bridge == "" {
      assert NoElement("<bridge stp='on' delay='0'/>", c);
    } else {
      assert NoElement("<bridge name='", c) && NoElement("' stp='on' delay='0'/>", c);
      NoElementPlus("<bridge name='", bridge, c);
      NoElementPlus("<bridge name='" + bridge, "' stp='on' delay='0'/>", c);
    }
  }

  lemma DomainLine(domain: string, c: char)
    requires Safe(domain) && (c == 'h' || c == 'r')
    ensures NoElement(DomainElement(domain), c)
  {
    if domain != "" {
      assert NoElement("\n  ", c) && NoElement("<domain name='", c) && NoElement("' localOnly='yes'/>", c);
      NoElementPlus("\n  ", "<domain name='", c);
      NoElementPlus("\n  " + "<domain name='", domain, c);
      NoElementPlus("\n  " + "<domain name='" + domain, "' localOnly='yes'/>", c);
    }
  }

  /** Nothing in the fixed part of a definition looks like a host or a range. */
  lemma HeadHasNone(spec: NetworkSpec, c: char)
    requires SafeSpec(spec) && (c == 'h' || c == 'r')
    ensures NoElement(Head(spec), c)
  {
    hide NoElement, Concat, BridgeElement, DomainElement;
    FixedLines(c);
    FixedLines2(c);
    SafeNoElement(spec.name, c);
    SafeNoElement(spec.subnet, c);
    BridgeLine(spec.bridge, c);
    DomainLine(spec.domain, c);
    NoElementConcat(HeadLines(spec), c);
  }

  // ----- reading it back -----

  lemma {:induction false} NoHostHere(a: string, rest: string)
    requires NoElement(a, 'h')
    ensures HostLines(a + rest) == HostLines(rest)
    decreases |a|
  {
    var s := a + rest;
    if a == "" {
      assert s == rest;
    } else {
      assert s[1..] == a[1..] + rest;
      assert NoElement(a[1..], 'h') by { NoElementDrop(a, 'h'); }
      NoHostHere(a[1..], rest);
      if |s| > 5 { assert s[..5][0] == s[0] && s[..5][1] == s[1]; }
    }
  }

  lemma NoElementDrop(a: string, c: char)
    requires NoElement(a, c) && a != ""
    ensures NoElement(a[1..], c)
  {
    forall i | 0 <= i < |a[1..]| && a[1..][i] == '<' ensures i + 1 < |a[1..]| && a[1..][i + 1] != c {
      assert a[i + 1] == '<';
    }
  }

  lemma {:induction false} NoRangeHere(a: string, rest: string)
    requires NoElement(a, 'r')
    ensures ParseDHCPRange(a + rest) == ParseDHCPRange(rest)
    decreases |a|
  {
    var s := a + rest;
    if a == "" {
      assert s == rest;
    } else {
      assert s[1..] == a[1..] + rest;
      assert NoElement(a[1..], 'r') by { NoElementDrop(a, 'r'); }
      NoRangeHere(a[1..], rest);
      if |s| > 6 { assert s[..6][0] == s[0] && s[..6][1] == s[1]; }
    }
  }

  function Quote(key: string, v: string): string {
    key + "='" + v + "'"
  }

  lemma QuotedRead(key: string, v: string, rest: string)
    requires Safe(v) && v != ""
    ensures QuotedAt(Quote(key, v) + rest, key) == Some((v, rest))
  {
    var s := Quote(key, v) + rest;
    assert s[..|key| + 2] == key + "='";
    assert s[|key| + 2..] == v + ['\''] + rest;
    CutAt(v, '\'', rest);
  }

  lemma RangeShape(subnet: string, rest: string)
    ensures RangeElement(subnet) + rest
         == "<range" + (" " + (Quote("start", subnet + ".100") + (" " + (Quote("end",
             subnet + ".254") + ("/>" + rest)))))
  {
    hide Decimal;
    RangeNumbers();
  }

  /** The range easyshift prints is the one it reads. */
  lemma RangeRead(subnet: string, rest: string)
    requires Safe(subnet)
    ensures ParseDHCPRange(RangeElement(subnet) + rest) == (subnet + ".100", subnet + ".254")
  {
    hide Decimal, QuotedAt, AfterBlanks, Cut, RangeElement, Quote, Safe;
    var start, end := subnet + ".100", subnet + ".254";
    SafeRange(subnet);
    var s4 := Quote("end", end) + ("/>" + rest);
    var s2 := Quote("start", start) + (" " + s4);
    RangeShape(subnet, rest);
    RangeHere("<range", " " + s2);
    StartsQuote("start", start, " " + s4);
    StartsQuote("end", end, "/>" + rest);
    BlankThen(s2);
    QuotedRead("start", start, " " + s4);
    BlankThen(s4);
    QuotedRead("end", end, "/>" + rest);
  }

  lemma SafeRange(subnet: string)
    requires Safe(subnet)
    ensures Safe(subnet + ".100") && Safe(subnet + ".254")
  {
  }

  lemma RangeHere(tag: string, rest: string)
    requires tag == "<range"
    ensures var s := tag + rest; |s| >= 6 && s[..6] == tag && s[6..] == rest
  {
  }

  lemma StartsQuote(key: string, v: string, rest: string)
    requires key != "" && !Blank(key[0])
    ensures var s := Quote(key, v) + rest; s != "" && !Blank(s[0])
  {
  }

  lemma BlankThen(s: string)
    requires s != "" && !Blank(s[0])
    ensures AfterBlanks(" " + s) == Some(s)
  {
    assert (" " + s)[1..] == s;
  }

  lemma RangeNumbers()
    ensures Decimal(100) == "100" && Decimal(254) == "254"
  {
    assert Decimal(10) == "1" + "0" && Decimal(25) == "2" + "5";
  }

  // ----- reservations -----

  /** Which letters stand right before an equals sign. */
  predicate KeyEnds(s: string, letters: set<char>) {
    forall j :: 0 < j < |s| && s[j] == '=' ==> s[j - 1] in letters
  }

  lemma KeyEndsPlus(a: string, b: string, letters: set<char>)
    requires KeyEnds(a, letters) && KeyEnds(b, letters) && b != "" && b[0] != '='
    ensures KeyEnds(a + b, letters)
  {
    var s := a + b;
    forall j | 0 < j < |s| && s[j] == '=' ensures s[j - 1] in letters {
      if j < |a| { assert a[j] == '='; } else { assert b[j - |a|] == '='; }
    }
  }

  lemma NotBefore(s: string, t: string, key: string, least: nat, letters: set<char>)
    requires key != "" && |t| > |key| && t <= s && KeyEnds(t, letters) && key[|key| - 1] !in letters
    ensures !AttributeAt(s, key, least)
  {
    assert t[|key|] == s[|key|] && t[|key| - 1] == s[|key| - 1];
    assert (key + "='")[|key|] == '=' && (key + "='")[|key| - 1] == key[|key| - 1];
    if |key| + 2 <= |s| {
      assert s[..|key| + 2][|key|] == s[|key|] && s[..|key| + 2][|key| - 1] == s[|key| - 1];
    }
  }

  lemma AttributeHere(key: string, v: string, rest: string, least: nat)
    requires Safe(v) && |v| >= least
    ensures Attribute(Quote(key, v) + rest, key, least) == Some(v)
  {
    var s := Quote(key, v) + rest;
    assert s[..|key| + 2] == key + "='";
    assert s[|key| + 2..] == v + ['\''] + rest;
    CutAt(v, '\'', rest);
  }

  /** The first attribute whose key is not hidden in what stands before it. */
  lemma {:induction false} AttributeAfter(t: string, key: string, v: string, rest: string, least: nat,
      letters: set<char>)
    requires key != "" && KeyEnds(t + key, letters) && key[|key| - 1] !in letters && Safe(v) && |v| >= least
    ensures Attribute(t + (Quote(key, v) + rest), key, least) == Some(v)
    decreases |t|
  {
    hide Quote, AttributeAt;
    var tail := Quote(key, v) + rest;
    var s := t + tail;
    if t == "" {
      AttributeHere(key, v, rest, least);
      assert s == tail;
    } else {
      assert t + key <= s by { KeyFirst(key, v, rest); assert s == t + key + (Quote(key, v) + rest)[|key|..]; }
      NotBefore(s, t + key, key, least, letters);
      assert (t + key)[1..] == t[1..] + key && s[1..] == t[1..] + tail;
      assert KeyEnds(t[1..] + key, letters) by {
        forall j | 0 < j < |t[1..] + key| && (t[1..] + key)[j] == '=' ensures (t[1..] + key)[j - 1] in letters {
          assert (t + key)[j + 1] == '=' && (t + key)[j] in letters;
        }
      }
      AttributeAfter(t[1..], key, v, rest, least, letters);
    }
  }

  lemma KeyFirst(key: string, v: string, rest: string)
    ensures |Quote(key, v) + rest| >= |key| && (Quote(key, v) + rest)[..|key|] == key
  {
  }

  /** An entry reads back as the host it was printed for. */
  lemma EntryRead(h: DHCPHost)
    requires SafeHost(h)
    ensures ParseHost(Entry(h)) == h
  {
    hide Attribute, KeyEnds, Quote, Safe;
    var nameOn := Quote("name", h.hostname) + (" " + (Quote("ip", h.ip) + "/>"));
    var beforeName := "<host " + Quote("mac", h.mac) + " ";
    var beforeIp := beforeName + Quote("name", h.hostname) + " ";
    EntryShape(h);
    BeforeKeys(h);
    AttributeAfter("<host ", "mac", h.mac, " " + nameOn, 1, {});
    AttributeAfter(beforeName, "name", h.hostname, " " + (Quote("ip", h.ip) + "/>"), 0, {'c'});
    AttributeAfter(beforeIp, "ip", h.ip, "/>", 1, {'c', 'e'});
  }

  lemma EntryShape(h: DHCPHost)
    ensures var nameOn := Quote("name", h.hostname) + (" " + (Quote("ip", h.ip) + "/>"));
      var beforeName := "<host " + Quote("mac", h.mac) + " ";
      && Entry(h) == "<host " + (Quote("mac", h.mac) + (" " + nameOn)) == beforeName + nameOn
      && Entry(h) == (beforeName + Quote("name", h.hostname) + " ") + (Quote("ip", h.ip) + "/>")
  {
    EntryQuotes(h);
    hide Entry, Quote;
    Regroup("<host ", Quote("mac", h.mac), Quote("name", h.hostname), Quote("ip", h.ip));
  }

  lemma EntryQuotes(h: DHCPHost)
    ensures Entry(h) ==
              "<host " + Quote("mac", h.mac) + " " + Quote("name", h.hostname) + " " + Quote("ip", h.ip) + "/>"
  {
    var mac := "<host mac='" + h.mac + "'";
    assert mac == "<host " + Quote("mac", h.mac);
    assert mac + " name='" + h.hostname + "'" == mac + " " + Quote("name", h.hostname);
    var name := mac + " name='" + h.hostname + "'";
    assert name + " ip='" + h.ip + "'/>" == name + " " + Quote("ip", h.ip) + "/>";
    assert Entry(h) == name + " ip='" + h.ip + "'/>";
  }

  lemma Regroup(a: string, m: string, n: string, i: string)
    ensures a + m + " " + n + " " + i + "/>" == a + (m + (" " + (n + (" " + (i + "/>")))))
    ensures a + m + " " + n + " " + i + "/>" == (a + m + " ") + (n + (" " + (i + "/>")))
    ensures a + m + " " + n + " " + i + "/>" == (a + m + " " + n + " ") + (i + "/>")
  {
  }

  lemma BeforeKeys(h: DHCPHost)
    requires SafeHost(h)
    ensures var beforeName := "<host " + Quote("mac", h.mac) + " ";
      && KeyEnds("<host " + "mac", {})
      && KeyEnds(beforeName + "name", {'c'})
      && KeyEnds(beforeName + Quote("name", h.hostname) + " " + "ip", {'c', 'e'})
  {
    hide KeyEnds, Quote, Safe;
    var m, n := Quote("mac", h.mac), Quote("name", h.hostname);
    KeyOf("mac", h.mac, {'c'});
    KeyOf("mac", h.mac, {'c', 'e'});
    KeyOf("name", h.hostname, {'c', 'e'});
    Plain("<host ");
    Plain(" ");
    Plain("name");
    Plain("ip");
    Plain("<host mac");
    assert "<host " + "mac" == "<host mac";
    KeyEndsPlus("<host ", m, {'c'});
    KeyEndsPlus("<host " + m, " ", {'c'});
    KeyEndsPlus("<host " + m + " ", "name", {'c'});
    KeyEndsPlus("<host ", m, {'c', 'e'});
    KeyEndsPlus("<host " + m, " ", {'c', 'e'});
    KeyEndsPlus("<host " + m + " ", n, {'c', 'e'});
    KeyEndsPlus("<host " + m + " " + n, " ", {'c', 'e'});
    KeyEndsPlus("<host " + m + " " + n + " ", "ip", {'c', 'e'});
  }

  lemma KeyOf(key: string, v: string, letters: set<char>)
    requires key in {"mac", "name"} && Safe(v) && key[|key| - 1] in letters
    ensures KeyEnds(Quote(key, v), letters) && Quote(key, v) != "" && Quote(key, v)[0] != '='
  {
    var s := Quote(key, v);
    assert s == key + "='" + (v + "'");
    assert forall j :: |key| + 2 <= j < |s| ==> s[j] == (v + "'")[j - |key| - 2];
  }

  lemma Plain(s: string)
    requires '=' !in s
    ensures forall letters :: KeyEnds(s, letters)
  {
  }

  /** An entry is one host line, whatever follows it. */
  lemma EntryLine(h: DHCPHost, rest: string)
    requires SafeHost(h)
    ensures HostLines(Entry(h) + rest) == [Entry(h)] + HostLines(rest)
  {
    var body := "<host mac='" + h.mac + "' name='" + h.hostname + "' ip='" + h.ip + "'/";
    var s := Entry(h) + rest;
    assert '>' !in body by { BodyClosed(h); }
    assert s == body + ['>'] + rest && Entry(h) == body + ">";
    CutAt(body, '>', rest);
    assert s[..5] == "<host" && s[5] == ' ';
  }

  lemma BodyClosed(h: DHCPHost)
    requires SafeHost(h)
    ensures '>' !in "<host mac='" + h.mac + "' name='" + h.hostname + "' ip='" + h.ip + "'/"
  {
  }

  function SecondsOf(hs: seq<(string, DHCPHost)>): seq<DHCPHost> {
    if hs == [] then [] else [hs[0].1] + SecondsOf(hs[1..])
  }

  function LinesOf(hs: seq<(string, DHCPHost)>): seq<string> {
    if hs == [] then [] else [Entry(hs[0].1)] + LinesOf(hs[1..])
  }

  ghost predicate SafeEntries(hs: seq<(string, DHCPHost)>) {
    forall i :: 0 <= i < |hs| ==> NoElement(hs[i].0, 'h') && SafeHost(hs[i].1)
  }

  lemma {:induction false} EntriesLines(hs: seq<(string, DHCPHost)>, rest: string)
    requires SafeEntries(hs)
    ensures HostLines(Entries(hs) + rest) == LinesOf(hs) + HostLines(rest)
    decreases |hs|
  {
    hide HostLines, Entry, NoElement, SafeHost;
    if hs == [] {
      assert Entries(hs) + rest == rest;
    } else {
      var tail := Entries(hs[1..]) + rest;
      assert Entries(hs) + rest == hs[0].0 + (Entry(hs[0].1) + tail);
      NoHostHere(hs[0].0, Entry(hs[0].1) + tail);
      EntryLine(hs[0].1, tail);
      EntriesLines(hs[1..], rest);
      assert LinesOf(hs) + HostLines(rest) == [Entry(hs[0].1)] + (LinesOf(hs[1..]) + HostLines(rest));
    }
  }

  lemma {:induction false} HostsOfLines(hs: seq<(string, DHCPHost)>)
    requires SafeEntries(hs)
    ensures HostsOf(LinesOf(hs)) == SecondsOf(hs)
    decreases |hs|
  {
    hide Entry, ParseHost, NoElement;
    if hs != [] {
      var init, last := hs[..|hs| - 1], hs[|hs| - 1];
      HostsOfLines(init);
      LinesSnoc(init, last);
      assert hs == init + [last];
      EntryRead(last.1);
    }
  }

  lemma {:induction false} LinesSnoc(hs: seq<(string, DHCPHost)>, h: (string, DHCPHost))
    ensures LinesOf(hs + [h]) == LinesOf(hs) + [Entry(h.1)]
    ensures SecondsOf(hs + [h]) == SecondsOf(hs) + [h.1]
    decreases |hs|
  {
    if hs != [] {
      assert (hs + [h])[1..] == hs[1..] + [h];
      LinesSnoc(hs[1..], h);
    } else {
      assert [h][1..] == [];
    }
  }

  /** What InspectNetwork makes of a definition: the range start and the reservations. */
  function Inspect(xml: string): Net {
    Defined(ParseDHCPRange(xml).0, HostsOf(HostLines(xml)))
  }

  /**
   Round trip: the definition easyshift builds, with any reservations added to
   it, is inspected as the built range and exactly those reservations in order.
   */
  lemma InspectPrinted(spec: NetworkSpec, hs: seq<(string, DHCPHost)>)
    requires SafeSpec(spec) && SafeEntries(hs)
    ensures Inspect(Dump(spec, hs)) == Defined(spec.subnet + ".100", SecondsOf(hs))
    ensures ParseDHCPRange(Dump(spec, hs)).1 == spec.subnet + ".254"
    ensures hs == [] ==> Dump(spec, hs) == BuildNetworkXML(spec)
  {
    hide Head, HostLines, ParseDHCPRange, Entries, RangeElement, NoElement;
    var range, after := RangeElement(spec.subnet), Entries(hs) + TAIL;
    assert Dump(spec, hs) == Head(spec) + (range + after);
    HeadHasNone(spec, 'r');
    NoRangeHere(Head(spec), range + after);
    RangeRead(spec.subnet, after);
    HeadHasNone(spec, 'h');
    NoHostHere(Head(spec), range + after);
    RangeNoHost(spec.subnet);
    NoHostHere(range, after);
    EntriesLines(hs, TAIL);
    TailNoHost();
    HostsOfLines(hs);
    assert LinesOf(hs) + [] == LinesOf(hs);
    if hs == [] { NoEntries(); assert "" + TAIL == TAIL; }
  }

  lemma NoEntries()
    ensures Entries([]) == ""
  {
  }

  lemma RangeNoHost(subnet: string)
    requires Safe(subnet)
    ensures NoElement(RangeElement(subnet), 'h')
  {
    hide Decimal;
    RangeNumbers();
    SafeRange(subnet);
    assert NoElement("<range start='", 'h') && NoElement("' end='", 'h') && NoElement("'/>", 'h');
    NoElementPlus("<range start='", subnet + ".100", 'h');
    NoElementPlus("<range start='" + (subnet + ".100"), "' end='", 'h');
    NoElementPlus("<range start='" + (subnet + ".100") + "' end='", subnet + ".254", 'h');
    NoElementPlus("<range start='" + (subnet + ".100") + "' end='" + (subnet + ".254"), "'/>", 'h');
    assert RangeElement(subnet) == "<range start='" + (subnet + ".100") + "' end='" + (subnet + ".254") + "'/>";
  }

  lemma TailNoHost()
    ensures HostLines(TAIL) == []
  {
    FixedLines2('h');
    NoHostHere(TAIL, "");
    assert TAIL + "" == TAIL;
  }

  /** The range the definition gives to unknown guests starts and ends beside the pool that masters get theirs from. */
  lemma LeasesOutsidePool(spec: NetworkSpec, j: nat)
    requires SafeSpec(spec) && spec.subnet == BASE_NETWORK_RANGE
    ensures ParseDHCPRange(BuildNetworkXML(spec)) == (PoolIP(100), PoolIP(254))
    ensures 100 <= j <= 254 ==> PoolIP(j) !in Pool()
  {
    hide ParseDHCPRange, BuildNetworkXML, HostLines, SafeSpec, PoolIP;
    PoolText();
    InspectPrinted(spec, []);
    if PoolIP(j) in Pool() {
      var i :| NETWORK_START <= i <= NETWORK_END && PoolIP(i) == PoolIP(j);
      PoolIPInjective(i, j);
    }
  }

  lemma PoolText()
    ensures PoolIP(100) == BASE_NETWORK_RANGE + ".100" && PoolIP(254) == BASE_NETWORK_RANGE + ".254"
  {
    hide Decimal;
    RangeNumbers();
    assert "." + "100" == ".100" && "." + "254" == ".254";
  }

  /**
   The network create-network builds is, to the reset that inspects it, the
   lifecycle model's fresh network: current range, no reservation, nothing outdated.
   */
  lemma FreshNetworkIsCurrent(spec: NetworkSpec)
    requires SafeSpec(spec) && spec.subnet == BASE_NETWORK_RANGE
    ensures Inspect(BuildNetworkXML(spec)) == Ensure(Absent)
    ensures !NatReset.Outdated(Inspect(BuildNetworkXML(spec)))
  {
    InspectPrinted(spec, []);
  }
}

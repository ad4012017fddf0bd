/**
 The address pools of the shared NAT network and the scan that allocates from
 them (stages/allocatenetwork/allocator.go, config/config.go).
 */
module Addresses {
  import opened Text

  const BASE_NETWORK_RANGE := "192.168.126"
  const NETWORK_START := 5
  const NETWORK_END := 20
  const MAC_PREFIX := "52:54:00"
  const MAC_ATTEMPTS := 100

  function PoolIP(i: nat): string {
    BASE_NETWORK_RANGE + "." + Decimal(i)
  }

  /** Every address the allocator may hand out. */
  function Pool(): set<string> {
    set i | NETWORK_START <= i <= NETWORK_END :: PoolIP(i)
  }

  lemma PoolIPInjective(i: nat, j: nat)
    requires PoolIP(i) == PoolIP(j)
    ensures i == j
  {
    var n := |BASE_NETWORK_RANGE + "."|;
    assert Decimal(i) == PoolIP(i)[n..] && Decimal(j) == PoolIP(j)[n..];
    DecimalRoundTrip(i);
    DecimalRoundTrip(j);
  }

  /** The three random bytes of one generateMAC call. */
  datatype Draw = Draw(b0: byte, b1: byte, b2: byte)

  function MacOf(d: Draw): string {
    MAC_PREFIX + ":" + Hex2(d.b0 as nat) + ":" + Hex2(d.b1 as nat) + ":" + Hex2(d.b2 as nat)
  }

  /** The namespace generated MACs live in. */
  predicate Generated(mac: string) {
    |mac| >= 9 && mac[..9] == MAC_PREFIX + ":"
  }

  lemma MacOfGenerated(d: Draw)
    ensures Generated(MacOf(d)) && Lower(MacOf(d)) == MacOf(d)
  {
    var m := MacOf(d);
    assert m[..9] == MAC_PREFIX + ":";
  }

  /** The byte that two hexadecimal digits at position i of a text stand for. */
  function HexByte(s: string, i: nat): Option<nat>
    requires i + 1 < |s|
  {
    match (HexValue(s[i]), HexValue(s[i + 1]))
    case (Some(hi), Some(lo)) => Some(hi * 16 + lo)
    case _ => None
  }

  /** A generated MAC is the prefix and the three random bytes, each of which can be read back. */
  lemma MacReadsBack(d: Draw)
    ensures var m := MacOf(d);
            && |m| == 17 && m[..9] == "52:54:00:" && m[11] == ':' && m[14] == ':'
            && HexByte(m, 9) == Some(d.b0 as nat)
            && HexByte(m, 12) == Some(d.b1 as nat)
            && HexByte(m, 15) == Some(d.b2 as nat)
  {
    Hex2RoundTrip(d.b0 as nat);
    Hex2RoundTrip(d.b1 as nat);
    Hex2RoundTrip(d.b2 as nat);
  }

  /** Different draws are different addresses. */
  lemma MacInjective(d: Draw, e: Draw)
    ensures MacOf(d) == MacOf(e) <==> d == e
  {
    MacReadsBack(d);
    MacReadsBack(e);
  }

  /** allocateIP: the scan for the first unused pool address, from offset i. */
  function FreeIP(used: set<string>, i: nat): (r: Option<string>)
    decreases NETWORK_END + 1 - i
  {
    if i > NETWORK_END then None
    else if PoolIP(i) !in used then Some(PoolIP(i))
    else FreeIP(used, i + 1)
  }

  /** The scan fails only when every address it looks at is used. */
  lemma {:induction false} FreeIPNone(used: set<string>, i: nat)
    ensures FreeIP(used, i).None? <==> forall k :: i <= k <= NETWORK_END ==> PoolIP(k) in used
    decreases NETWORK_END + 1 - i
  {
    if i <= NETWORK_END && PoolIP(i) in used {
      FreeIPNone(used, i + 1);
    }
  }

  /** The scan returns the lowest free address. */
  lemma {:induction false} FreeIPIsLowest(used: set<string>, i: nat) returns (k: nat)
    requires FreeIP(used, i).Some?
    ensures i <= k <= NETWORK_END && FreeIP(used, i).value == PoolIP(k) && PoolIP(k) !in used
    ensures forall j :: i <= j < k ==> PoolIP(j) in used
    decreases NETWORK_END + 1 - i
  {
    if PoolIP(i) !in used {
      k := i;
    } else {
      k := FreeIPIsLowest(used, i + 1);
    }
  }

  /** allocateMAC: the first draw that is not in use, within the attempt budget. */
  function FreeMAC(used: set<string>, draws: seq<Draw>, attempts: nat): (r: (Option<string>, seq<Draw>))
    ensures r.0.Some? ==> r.0.value !in used && Generated(r.0.value)
  {
    if attempts == 0 || draws == [] then (None, draws)
    else
      MacOfGenerated(draws[0]);
      if MacOf(draws[0]) !in used then (Some(MacOf(draws[0])), draws[1..])
      else FreeMAC(used, draws[1..], attempts - 1)
  }

  /** It fails exactly when each draw within the budget is in use; otherwise it takes the first one that is not. */
  lemma {:induction false} FreeMACFirst(used: set<string>, draws: seq<Draw>, attempts: nat) returns (k: nat)
    ensures var (m, rest) := FreeMAC(used, draws, attempts);
            && k <= attempts && k <= |draws|
            && (forall i :: 0 <= i < k ==> MacOf(draws[i]) in used)
            && (m.None? ==> rest == draws[k..] && (k == attempts || k == |draws|))
            && (m.Some? ==> k < attempts && k < |draws| && m == Some(MacOf(draws[k])) && rest == draws[k + 1..] &&
                            MacOf(draws[k]) !in used)
    decreases attempts
  {
    hide MacOf;
    if attempts == 0 || draws == [] || MacOf(draws[0]) !in used {
      k := 0;
    } else {
      var j := FreeMACFirst(used, draws[1..], attempts - 1);
      k := j + 1;
      assert forall i :: 0 < i < k ==> draws[i] == draws[1..][i - 1];
    }
  }

  lemma FreeMACNone(used: set<string>, draws: seq<Draw>, attempts: nat)
    ensures FreeMAC(used, draws, attempts).0.None?
            <==> forall i :: 0 <= i < attempts && i < |draws| ==> MacOf(draws[i]) in used
  {
    var _ := FreeMACFirst(used, draws, attempts);
  }

  /** Different draws never compete: more of them than there are marks, within the budget, cannot all be refused. */
  lemma DistinctDrawsSuffice(used: set<string>, draws: seq<Draw>, attempts: nat)
    requires forall i, j :: 0 <= i < j < |draws| ==> draws[i] != draws[j]
    requires |used| < |draws| <= attempts
    ensures FreeMAC(used, draws, attempts).0.Some?
  {
    hide MacOf, FreeMAC;
    FreeMACNone(used, draws, attempts);
    if FreeMAC(used, draws, attempts).0.None? {
      DistinctMACs(draws, |draws|);
      var macs := set i | 0 <= i < |draws| :: MacOf(draws[i]);
      assert macs <= used;
      SubsetSize(macs, used);
    }
  }

  lemma {:induction false} DistinctMACs(draws: seq<Draw>, n: nat)
    requires n <= |draws| && forall i, j :: 0 <= i < j < |draws| ==> draws[i] != draws[j]
    ensures |set i | 0 <= i < n :: MacOf(draws[i])| == n
  {
    hide MacOf;
    var macs := set i | 0 <= i < n :: MacOf(draws[i]);
    if n == 0 {
      assert macs == {};
    } else {
      DistinctMACs(draws, n - 1);
      var before := set i | 0 <= i < n - 1 :: MacOf(draws[i]);
      assert macs == before + {MacOf(draws[n - 1])};
      if MacOf(draws[n - 1]) in before {
        var i :| 0 <= i < n - 1 && MacOf(draws[i]) == MacOf(draws[n - 1]);
        MacInjective(draws[i], draws[n - 1]);
      }
    }
  }

  predicate NoDup(xs: seq<string>) {
    forall i, j :: 0 <= i < j < |xs| ==> xs[i] != xs[j]
  }

  function Elems(xs: seq<string>): set<string> {
    set x | x in xs
  }

  /** What a batch of allocations did: the addresses when all succeeded, and the marks made either way. */
  datatype Batch = Batch(got: Option<seq<string>>, used: set<string>)

  /** n addresses were fresh, distinct, from `ns`, and are exactly the new marks. */
  ghost predicate FreshBatch(b: Batch, before: set<string>, n: nat, ns: iset<string>) {
    && before <= b.used
    && (b.got.Some? ==>
          && |b.got.value| == n
          && NoDup(b.got.value)
          && Elems(b.got.value) !! before
          && (forall x :: x in b.got.value ==> x in ns)
          && b.used == before + Elems(b.got.value))
  }

  function AllocIPs(used: set<string>, n: nat): Batch
    decreases n
  {
    if n == 0 then Batch(Some([]), used)
    else
      match FreeIP(used, NETWORK_START)
      case None => Batch(None, used)
      case Some(ip) =>
        var b := AllocIPs(used + {ip}, n - 1);
        Batch(if b.got.Some? then Some([ip] + b.got.value) else None, b.used)
  }

  function AllocMACs(used: set<string>, draws: seq<Draw>, n: nat): Batch
    decreases n
  {
    if n == 0 then Batch(Some([]), used)
    else
      var (m, rest) := FreeMAC(used, draws, MAC_ATTEMPTS);
      match m
      case None => Batch(None, used)
      case Some(mac) =>
        var b := AllocMACs(used + {mac}, rest, n - 1);
        Batch(if b.got.Some? then Some([mac] + b.got.value) else None, b.used)
  }

  lemma BatchCons(x: string, before: set<string>, b: Batch, n: nat, ns: iset<string>)
    requires x !in before && x in ns
    requires FreshBatch(b, before + {x}, n, ns)
    ensures FreshBatch(Batch(if b.got.Some? then Some([x] + b.got.value) else None, b.used), before, n + 1, ns)
  {
    if b.got.Some? {
      assert Elems([x] + b.got.value) == {x} + Elems(b.got.value);
      assert x !in b.got.value by { assert x !in Elems(b.got.value); }
    }
  }

  ghost function PoolNs(): iset<string> { iset x | x in Pool() }
  ghost function MacNs(): iset<string> { iset x | Generated(x) }

  lemma {:induction false} AllocIPsFresh(used: set<string>, n: nat)
    ensures FreshBatch(AllocIPs(used, n), used, n, PoolNs())
    decreases n
  {
    if n > 0 {
      match FreeIP(used, NETWORK_START)
      case None =>
      case Some(ip) =>
        var k := FreeIPIsLowest(used, NETWORK_START);
        AllocIPsFresh(used + {ip}, n - 1);
        BatchCons(ip, used, AllocIPs(used + {ip}, n - 1), n - 1, PoolNs());
    }
  }

  lemma {:induction false} AllocMACsFresh(used: set<string>, draws: seq<Draw>, n: nat)
    ensures FreshBatch(AllocMACs(used, draws, n), used, n, MacNs())
    decreases n
  {
    if n > 0 {
      var (m, rest) := FreeMAC(used, draws, MAC_ATTEMPTS);
      match m
      case None =>
      case Some(mac) =>
        AllocMACsFresh(used + {mac}, rest, n - 1);
        BatchCons(mac, used, AllocMACs(used + {mac}, rest, n - 1), n - 1, MacNs());
    }
  }

  /** One MAC: a fresh draw is taken as it is. */
  lemma AllocOneMAC(used: set<string>, draws: seq<Draw>)
    requires draws != [] && MacOf(draws[0]) !in used
    ensures AllocMACs(used, draws, 1) == Batch(Some([MacOf(draws[0])]), used + {MacOf(draws[0])})
  {
    var mac := MacOf(draws[0]);
    var (m, rest) := FreeMAC(used, draws, MAC_ATTEMPTS);
    assert m == Some(mac);
    assert AllocMACs(used + {mac}, rest, 0) == Batch(Some([]), used + {mac});
    assert [mac] + [] == [mac];
  }

  /** One IP: refused exactly when every address of the pool is marked. */
  lemma AllocOneIP(used: set<string>)
    ensures AllocIPs(used, 1).got.None? <==> forall k :: NETWORK_START <= k <= NETWORK_END ==> PoolIP(k) in used
    ensures AllocIPs(used, 1).got.Some? ==> |AllocIPs(used, 1).got.value| == 1
  {
    FreeIPNone(used, NETWORK_START);
  }

  /** The pool has exactly 16 addresses. */
  lemma {:induction false} PoolSize(n: nat)
    requires NETWORK_START <= n <= NETWORK_END + 1
    ensures |set i | NETWORK_START <= i < n :: PoolIP(i)| == n - NETWORK_START
  {
    var s := set i | NETWORK_START <= i < n :: PoolIP(i);
    if n == NETWORK_START {
      assert s == {};
    } else {
      PoolSize(n - 1);
      var t := set i | NETWORK_START <= i < n - 1 :: PoolIP(i);
      assert s == t + {PoolIP(n - 1)};
      if PoolIP(n - 1) in t {
        var i :| NETWORK_START <= i < n - 1 && PoolIP(i) == PoolIP(n - 1);
        PoolIPInjective(i, n - 1);
      }
    }
  }

  /** Pigeonhole: with fewer than 16 marks the scan cannot fail. */
  lemma AllocationSucceeds(used: set<string>)
    requires |used| < NETWORK_END - NETWORK_START + 1
    ensures FreeIP(used, NETWORK_START).Some?
  {
    FreeIPNone(used, NETWORK_START);
    if FreeIP(used, NETWORK_START).None? {
      PoolSize(NETWORK_END + 1);
      var s := set i | NETWORK_START <= i < NETWORK_END + 1 :: PoolIP(i);
      assert s <= used;
      SubsetSize(s, used);
    }
  }

  lemma {:induction false} SubsetSize<T>(a: set<T>, b: set<T>)
    requires a <= b
    ensures |a| <= |b|
  {
    if a != {} {
      var x :| x in a;
      SubsetSize(a - {x}, b - {x});
    }
  }
}

/**
 The API-managed DNS records of clusters (providers/dns/manager.go:51-125) over
 a zone whose provider follows the libdns contract: SetRecords replaces what a
 (name, type) pair holds, DeleteRecords removes exact records.
 */
module Dns {
  import opened Text
  import opened Ipv4

  datatype Kind = A | AAAA | Other(name: string)
  datatype Record = Record(kind: Kind, name: string, data: string)

  // ----- names -----

  /** strings.TrimSuffix. */
  function TrimSuffix(s: string, suffix: string): (r: string)
    ensures r == s || r + suffix == s
  {
    if |suffix| <= |s| && s[|s| - |suffix|..] == suffix then s[..|s| - |suffix|] else s
  }

  function TrimDot(s: string): string {
    TrimSuffix(s, ".")
  }

  predicate IsSubdomain(fqdn: string, zone: string) {
    var f, z := TrimDot(fqdn), "." + TrimDot(zone);
    f != TrimDot(zone) && |z| <= |f| && f[|f| - |z|..] == z
  }

  /** libdns.RelativeName. */
  function RelativeName(fqdn: string, zone: string): string {
    var rel := TrimDot(TrimSuffix(TrimDot(fqdn), TrimDot(zone)));
    if rel == "" then "@" else rel
  }

  const LABELS: seq<string> := ["api.", "api-int.", "*.apps."]

  /** The three names of a cluster, relative to the zone. */
  function Names(fqdn: string, zone: string): set<string> {
    {RelativeName("api." + fqdn, zone), RelativeName("api-int." + fqdn, zone), RelativeName("*.apps." + fqdn, zone)}
  }

  /** What is in front of the zone: an FQDN in the zone is this stem, a dot and the zone. */
  function Stem(fqdn: string, zone: string): string
    requires IsSubdomain(fqdn, zone)
  {
    TrimDot(fqdn)[..|TrimDot(fqdn)| - |TrimDot(zone)| - 1]
  }

  lemma StemSplits(fqdn: string, zone: string)
    requires IsSubdomain(fqdn, zone)
    ensures TrimDot(fqdn) == Stem(fqdn, zone) + "." + TrimDot(zone)
  {
    var f, z := TrimDot(fqdn), "." + TrimDot(zone);
    assert f == f[..|f| - |z|] + f[|f| - |z|..];
    assert Stem(fqdn, zone) + ("." + TrimDot(zone)) == Stem(fqdn, zone) + "." + TrimDot(zone);
  }

  lemma SuffixOff(s: string, suffix: string)
    ensures TrimSuffix(s + suffix, suffix) == s
  {
    assert (s + suffix)[|s|..] == suffix;
  }

  lemma RelativeLabel(tag: string, fqdn: string, zone: string)
    requires IsSubdomain(fqdn, zone) && tag in LABELS
    ensures RelativeName(tag + fqdn, zone) == tag + Stem(fqdn, zone)
  {
    hide Stem, IsSubdomain;
    var stem := Stem(fqdn, zone);
    StemSplits(fqdn, zone);
    LabelTrim(tag, fqdn);
    assert TrimDot(tag + fqdn) == (tag + stem + ".") + TrimDot(zone);
    SuffixOff(tag + stem + ".", TrimDot(zone));
    SuffixOff(tag + stem, ".");
  }

  /** A trailing dot belongs to the name, not to the label in front of it. */
  lemma LabelTrim(tag: string, fqdn: string)
    requires TrimDot(fqdn) != ""
    ensures TrimDot(tag + fqdn) == tag + TrimDot(fqdn)
  {
    var s := tag + fqdn;
    assert s[|s| - 1..] == fqdn[|fqdn| - 1..];
    if fqdn[|fqdn| - 1..] == "." { assert s[..|s| - 1] == tag + fqdn[..|fqdn| - 1]; }
  }

  lemma NamesAreStems(fqdn: string, zone: string)
    requires IsSubdomain(fqdn, zone)
    ensures var p := Stem(fqdn, zone); Names(fqdn, zone) == {"api." + p, "api-int." + p, "*.apps." + p}
  {
    RelativeLabel(LABELS[0], fqdn, zone);
    RelativeLabel(LABELS[1], fqdn, zone);
    RelativeLabel(LABELS[2], fqdn, zone);
  }

  /** A label is read back from the front of a name. */
  lemma LabelsDiffer(k: nat, m: nat, p: string, q: string)
    requires k < 3 && m < 3 && LABELS[k] + p == LABELS[m] + q
    ensures k == m && p == q
  {
    var s := LABELS[k] + p;
    assert s[0] == LABELS[k][0] == LABELS[m][0] && s[3] == LABELS[k][3] == LABELS[m][3];
    assert p == s[|LABELS[k]|..] && q == s[|LABELS[m]|..];
  }

  /** Two clusters of one zone share a record name only if they are one FQDN, a trailing dot aside. */
  lemma NamesIsolated(f: string, g: string, zone: string)
    requires IsSubdomain(f, zone) && IsSubdomain(g, zone)
    ensures Names(f, zone) !! Names(g, zone) <==> TrimDot(f) != TrimDot(g)
    ensures |Names(f, zone)| == 3
  {
    hide RelativeName, IsSubdomain, Names, Stem, TrimSuffix;
    NamesAreStems(f, zone);
    NamesAreStems(g, zone);
    StemSplits(f, zone);
    StemSplits(g, zone);
    var p, q := Stem(f, zone), Stem(g, zone);
    forall k, m | 0 <= k < 3 && 0 <= m < 3 && LABELS[k] + p == LABELS[m] + q ensures p == q && k == m {
      LabelsDiffer(k, m, p, q);
    }
    ThreeNames(p);
    if TrimDot(f) == TrimDot(g) {
      assert p + "." + TrimDot(zone) == p + ("." + TrimDot(zone)) &&
          q + "." + TrimDot(zone) == q + ("." + TrimDot(zone));
      StemUnique(p, q, "." + TrimDot(zone));
      assert "api." + p in Names(f, zone) && "api." + p in Names(g, zone);
    } else {
      ThreeNames(q);
      assert forall n :: n in Names(f, zone) ==> n !in Names(g, zone);
    }
  }

  lemma StemUnique(p: string, q: string, tail: string)
    requires p + tail == q + tail
    ensures p == q
  {
    assert p == (p + tail)[..|p|];
    assert q == (q + tail)[..|q|];
  }

  lemma ThreeNames(p: string)
    ensures var s := {"api." + p, "api-int." + p, "*.apps." + p};
      && |s| == 3 && forall n :: n in s ==> exists k :: 0 <= k < 3 && n == LABELS[k] + p
  {
    var a, b, c := LABELS[0] + p, LABELS[1] + p, LABELS[2] + p;
    assert a[3] == '.' && b[3] == '-' && a[0] == b[0] == 'a' && c[0] == '*';
  }

  // ----- the zone -----

  function Filter(rs: seq<Record>, keep: Record -> bool): seq<Record> {
    if rs == [] then []
    else (if keep(rs[0]) then [rs[0]] else []) + Filter(rs[1..], keep)
  }

  /** The records without those of one type at some names. */
  function Drop(rs: seq<Record>, kind: Kind, names: set<string>): seq<Record> {
    Filter(rs, Spares(kind, names))
  }

  function Spares(kind: Kind, names: set<string>): Record -> bool {
    (r: Record) => !(r.kind == kind && r.name in names)
  }

  function Outside(victims: seq<Record>): Record -> bool {
    (r: Record) => r !in victims
  }

  /** The type of a libdns.Address. */
  function KindOf(ip: string, v6: string -> bool): Kind {
    if ParseIP(ip, v6).V4? then A else AAAA
  }

  function ClusterRecords(fqdn: string, zone: string, ip: string, v6: string -> bool): seq<Record> {
    var kind := KindOf(ip, v6);
    [Record(kind, RelativeName("api." + fqdn, zone), ip),
     Record(kind, RelativeName("api-int." + fqdn, zone), ip),
     Record(kind, RelativeName("*.apps." + fqdn, zone), ip)]
  }

  predicate Accepts(op: Op, zone: string, v6: string -> bool) {
    IsSubdomain(op.fqdn, zone) && op.done && (op.Upsert? ==> !ParseIP(op.ip, v6).BadAddr?)
  }

  /** One call; done is false when the provider refused it, which leaves the zone as it was. */
  datatype Op = Upsert(fqdn: string, ip: string, done: bool) | Delete(fqdn: string, done: bool)

  function Apply(rs: seq<Record>, op: Op, zone: string, v6: string -> bool): seq<Record> {
    if !Accepts(op, zone, v6) then rs
    else if op.Upsert? then
      Drop(rs, KindOf(op.ip, v6), Names(op.fqdn, zone)) + ClusterRecords(op.fqdn, zone, op.ip, v6)
    else Drop(rs, A, Names(op.fqdn, zone))
  }

  function Run(rs: seq<Record>, ops: seq<Op>, zone: string, v6: string -> bool): seq<Record>
    decreases |ops|
  {
    if ops == [] then rs else Apply(Run(rs, ops[..|ops| - 1], zone, v6), ops[|ops| - 1], zone, v6)
  }

  // ----- the code -----

  class DnsManager {
    const zone: string
    var records: seq<Record>

    constructor (zone: string, records: seq<Record>)
      ensures this.zone == zone && this.records == records
    {
      this.zone, this.records := zone, records;
    }

    /** DeleteRecords of the provider: exact matches go. */
    method DeleteRecords(victims: seq<Record>)
      modifies this`records
      ensures records == Filter(old(records), Outside(victims))
    {
      records := Filter(records, Outside(victims));
    }

    method SetRecords(wanted: seq<Record>)
      requires wanted != [] && forall i :: 0 <= i < |wanted| ==> wanted[i].kind == wanted[0].kind
      modifies this`records
      ensures records == Drop(old(records), wanted[0].kind, set w | w in wanted :: w.name) + wanted
    {
      var names := set w | w in wanted :: w.name;
      records := Drop(records, wanted[0].kind, names) + wanted;
    }

    method Upsert(fqdn: string, ip: string, done: bool, v6: string -> bool) returns (ok: bool)
      modifies this`records
      ensures ok == Accepts(Op.Upsert(fqdn, ip, done), zone, v6)
      ensures records == Apply(old(records), Op.Upsert(fqdn, ip, done), zone, v6)
    {
      hide RelativeName, IsSubdomain, ParseIP;
      if ParseIP(ip, v6).BadAddr? { return false; }
      if !IsSubdomain(fqdn, zone) { return false; }
      var wanted: seq<Record> := [];
      var names := ["api." + fqdn, "api-int." + fqdn, "*.apps." + fqdn];
      for i := 0 to |names|
        invariant |wanted| == i
        invariant forall k :: 0 <= k < i ==> wanted[k] == Record(KindOf(ip, v6), RelativeName(names[k], zone), ip)
      {
        wanted := wanted + [Record(KindOf(ip, v6), RelativeName(names[i], zone), ip)];
      }
      if !done { return false; }
      assert wanted == ClusterRecords(fqdn, zone, ip, v6);
      assert (set w | w in wanted :: w.name) == Names(fqdn, zone) by { RecordNames(fqdn, zone, ip, v6); }
      SetRecords(wanted);
      return true;
    }

    /** When the provider refuses, "not found" counts as deleted and anything else is an error. */
    method Delete(fqdn: string, done: bool, notFound: bool, v6: string -> bool) returns (ok: bool)
      modifies this`records
      ensures records == Apply(old(records), Op.Delete(fqdn, done), zone, v6)
      ensures ok == (IsSubdomain(fqdn, zone)
        && (done || notFound || Drop(old(records), A, Names(fqdn, zone)) == old(records)))
    {
      hide RelativeName, IsSubdomain;
      if !IsSubdomain(fqdn, zone) { return false; }
      var want := {RelativeName("api." + fqdn, zone), RelativeName("api-int." + fqdn, zone),
          RelativeName("*.apps." + fqdn, zone)};
      var victims: seq<Record> := [];
      for i := 0 to |records|
        invariant forall r :: r in victims <==> r in records[..i] && r.kind == A && r.name in want
      {
        assert records[..i + 1] == records[..i] + [records[i]];
        if records[i].kind == A && records[i].name in want { victims := victims + [records[i]]; }
      }
      assert records[..|records|] == records;
      FilterSame(records, Outside(victims), Spares(A, want));
      if victims == [] {
        FilterAll(records, Outside(victims));
        return true;
      }
      if !done {
        DropSome(records, victims[0], want);
        return notFound;
      }
      DeleteRecords(victims);
      return true;
    }
  }

  lemma RecordNames(fqdn: string, zone: string, ip: string, v6: string -> bool)
    ensures (set w | w in ClusterRecords(fqdn, zone, ip, v6) :: w.name) == Names(fqdn, zone)
  {
    hide RelativeName;
    var rs := ClusterRecords(fqdn, zone, ip, v6);
    assert rs[0] in rs && rs[1] in rs && rs[2] in rs;
  }

  lemma {:induction false} FilterSame(rs: seq<Record>, p: Record -> bool, q: Record -> bool)
    requires forall r :: r in rs ==> p(r) == q(r)
    ensures Filter(rs, p) == Filter(rs, q)
    decreases |rs|
  {
    if rs != [] { FilterSame(rs[1..], p, q); }
  }

  lemma {:induction false} FilterAll(rs: seq<Record>, p: Record -> bool)
    ensures (forall r :: r in rs ==> p(r)) ==> Filter(rs, p) == rs
    ensures |Filter(rs, p)| <= |rs|
    ensures (exists r :: r in rs && !p(r)) ==> |Filter(rs, p)| < |rs|
    decreases |rs|
  {
    if rs != [] { FilterAll(rs[1..], p); }
  }

  lemma DropSome(rs: seq<Record>, r: Record, names: set<string>)
    requires r in rs && r.kind == A && r.name in names
    ensures Drop(rs, A, names) != rs
  {
    FilterAll(rs, Spares(A, names));
  }

  lemma {:induction false} FilterPlus(rs: seq<Record>, ts: seq<Record>, p: Record -> bool)
    ensures Filter(rs + ts, p) == Filter(rs, p) + Filter(ts, p)
    decreases |rs|
  {
    if rs == [] {
      assert rs + ts == ts;
    } else {
      assert (rs + ts)[1..] == rs[1..] + ts;
      FilterPlus(rs[1..], ts, p);
      var first := if p(rs[0]) then [rs[0]] else [];
      assert Filter(rs + ts, p) == first + (Filter(rs[1..], p) + Filter(ts, p));
      assert first + (Filter(rs[1..], p) + Filter(ts, p)) == first + Filter(rs[1..], p) + Filter(ts, p);
    }
  }

  /** A filter does not see what an earlier, wider filter took out. */
  lemma {:induction false} FilterThrough(rs: seq<Record>, wide: Record -> bool, p: Record -> bool)
    requires forall r :: p(r) ==> wide(r)
    ensures Filter(Filter(rs, wide), p) == Filter(rs, p)
    decreases |rs|
  {
    if rs != [] {
      FilterThrough(rs[1..], wide, p);
      FilterPlus(if wide(rs[0]) then [rs[0]] else [], Filter(rs[1..], wide), p);
    }
  }

  lemma {:induction false} FilterTwice(rs: seq<Record>, p: Record -> bool, q: Record -> bool)
    ensures Filter(Filter(rs, p), q) == Filter(rs, r => p(r) && q(r))
    decreases |rs|
  {
    if rs != [] {
      FilterTwice(rs[1..], p, q);
      FilterPlus(if p(rs[0]) then [rs[0]] else [], Filter(rs[1..], p), q);
    }
  }

  lemma {:induction false} FilterNone(rs: seq<Record>, p: Record -> bool)
    requires forall r :: r in rs ==> !p(r)
    ensures Filter(rs, p) == []
    decreases |rs|
  {
    if rs != [] { FilterNone(rs[1..], p); }
  }

  // ----- isolation over runs -----

  /** One call changes nothing at names that are not its cluster's, and no record but an address. */
  lemma ApplyElsewhere(rs: seq<Record>, op: Op, zone: string, v6: string -> bool, p: Record -> bool)
    requires forall r :: p(r) ==> r.name !in Names(op.fqdn, zone) || r.kind.Other?
    ensures Filter(Apply(rs, op, zone, v6), p) == Filter(rs, p)
  {
    hide RelativeName, IsSubdomain, ParseIP;
    if Accepts(op, zone, v6) {
      var names := Names(op.fqdn, zone);
      var kind := if op.Upsert? then KindOf(op.ip, v6) else A;
      FilterThrough(rs, Spares(kind, names), p);
      if op.Upsert? {
        var added := ClusterRecords(op.fqdn, zone, op.ip, v6);
        FilterNone(added, p);
        FilterPlus(Drop(rs, kind, names), added, p);
      }
    }
  }

  function OpsOn(ops: seq<Op>, fqdn: string): seq<Op> {
    if ops == [] then []
    else OpsOn(ops[..|ops| - 1], fqdn) + if TrimDot(ops[|ops| - 1].fqdn) == TrimDot(fqdn) then [ops[|ops| - 1]] else []
  }

  function AtNames(names: set<string>): Record -> bool {
    (r: Record) => r.name in names
  }

  lemma RunSnoc(rs: seq<Record>, ops: seq<Op>, op: Op, zone: string, v6: string -> bool)
    ensures Run(rs, ops + [op], zone, v6) == Apply(Run(rs, ops, zone, v6), op, zone, v6)
  {
    assert (ops + [op])[..|ops|] == ops;
  }

  /**
   Isolation: whatever clusters of the zone are created and deleted in between,
   what stands at one cluster's names is what its own calls alone would leave.
   */
  lemma {:induction false} RunsAreIsolated(rs: seq<Record>, ops: seq<Op>, fqdn: string, zone: string,
      v6: string -> bool)
    requires IsSubdomain(fqdn, zone)
    ensures Filter(Run(rs, ops, zone, v6), AtNames(Names(fqdn, zone)))
         == Filter(Run(rs, OpsOn(ops, fqdn), zone, v6), AtNames(Names(fqdn, zone)))
    decreases |ops|
  {
    hide RelativeName, IsSubdomain, Names, Apply;
    if ops != [] {
      var before, op := ops[..|ops| - 1], ops[|ops| - 1];
      var p := AtNames(Names(fqdn, zone));
      RunsAreIsolated(rs, before, fqdn, zone, v6);
      var a, b := Run(rs, before, zone, v6), Run(rs, OpsOn(before, fqdn), zone, v6);
      if TrimDot(op.fqdn) == TrimDot(fqdn) {
        RunSnoc(rs, OpsOn(before, fqdn), op, zone, v6);
        ApplyAtNames(a, b, op, fqdn, zone, v6);
      } else {
        assert OpsOn(ops, fqdn) == OpsOn(before, fqdn);
        ApplyApart(a, op, fqdn, zone, v6);
      }
    }
  }

  lemma ApplyApart(rs: seq<Record>, op: Op, fqdn: string, zone: string, v6: string -> bool)
    requires IsSubdomain(fqdn, zone) && TrimDot(op.fqdn) != TrimDot(fqdn)
    ensures Filter(Apply(rs, op, zone, v6), AtNames(Names(fqdn, zone))) == Filter(rs, AtNames(Names(fqdn, zone)))
  {
    hide RelativeName, Names, IsSubdomain;
    if IsSubdomain(op.fqdn, zone) {
      NamesIsolated(op.fqdn, fqdn, zone);
      ApplyElsewhere(rs, op, zone, v6, AtNames(Names(fqdn, zone)));
    }
  }

  /** A call on the cluster itself depends only on what stands at its names. */
  lemma ApplyAtNames(a: seq<Record>, b: seq<Record>, op: Op, fqdn: string, zone: string, v6: string -> bool)
    requires IsSubdomain(fqdn, zone) && TrimDot(op.fqdn) == TrimDot(fqdn)
    requires Filter(a, AtNames(Names(fqdn, zone))) == Filter(b, AtNames(Names(fqdn, zone)))
    ensures Filter(Apply(a, op, zone, v6), AtNames(Names(fqdn, zone)))
         == Filter(Apply(b, op, zone, v6), AtNames(Names(fqdn, zone)))
  {
    hide RelativeName, IsSubdomain, Names, ParseIP;
    var p := AtNames(Names(fqdn, zone));
    if Accepts(op, zone, v6) {
      var kind := if op.Upsert? then KindOf(op.ip, v6) else A;
      DropAt(a, b, kind, Names(op.fqdn, zone), p);
      if op.Upsert? {
        var added := ClusterRecords(op.fqdn, zone, op.ip, v6);
        FilterPlus(Drop(a, kind, Names(op.fqdn, zone)), added, p);
        FilterPlus(Drop(b, kind, Names(op.fqdn, zone)), added, p);
      }
    }
  }

  lemma DropAt(a: seq<Record>, b: seq<Record>, kind: Kind, names: set<string>, p: Record -> bool)
    requires Filter(a, p) == Filter(b, p)
    ensures Filter(Drop(a, kind, names), p) == Filter(Drop(b, kind, names), p)
  {
    var q := Spares(kind, names);
    Swap(a, q, p);
    Swap(b, q, p);
  }

  lemma Swap(rs: seq<Record>, p: Record -> bool, q: Record -> bool)
    ensures Filter(Filter(rs, p), q) == Filter(Filter(rs, q), p)
  {
    FilterTwice(rs, p, q);
    FilterTwice(rs, q, p);
    FilterSame(rs, r => p(r) && q(r), r => q(r) && p(r));
  }

  /**
   Upsert then Delete leaves the zone as Delete alone would, exactly when the
   address is IPv4: for an IPv6 master the three AAAA records stay behind.
   */
  lemma UpsertThenDelete(rs: seq<Record>, fqdn: string, ip: string, zone: string, v6: string -> bool)
    requires IsSubdomain(fqdn, zone) && !ParseIP(ip, v6).BadAddr?
    ensures var up, del := Op.Upsert(fqdn, ip, true), Op.Delete(fqdn, true);
      var left := Apply(Apply(rs, up, zone, v6), del, zone, v6);
      && (ParseIP(ip, v6).V4? ==> left == Apply(rs, del, zone, v6))
      && (ParseIP(ip, v6).V6? ==>
            left == Drop(Apply(rs, del, zone, v6), AAAA, Names(fqdn, zone)) + ClusterRecords(fqdn, zone, ip, v6))
  {
    hide RelativeName, IsSubdomain, ParseIP;
    var names := Names(fqdn, zone);
    var added := ClusterRecords(fqdn, zone, ip, v6);
    var kind := KindOf(ip, v6);
    var p := Spares(A, names);
    FilterPlus(Drop(rs, kind, names), added, p);
    if kind == A {
      FilterNone(added, p);
      FilterThrough(rs, p, p);
      assert Filter(Drop(rs, A, names), p) == Drop(rs, A, names);
    } else {
      FilterAll(added, p);
      Swap(rs, Spares(AAAA, names), p);
    }
  }

  /** Which of two types an address's records have. */
  ghost predicate KindFor(kind: Kind, ip: string) {
    kind == if ParseV4(ip).Some? then A else AAAA
  }

  /**
   After a successful Upsert each of the cluster's three names, read in full,
   has one answer of the address's type: the address that was given.
   */
  lemma UpsertResolves(rs: seq<Record>, fqdn: string, zone: string, ip: string, v6: string -> bool, tag: string)
      returns (name: string, kind: Kind)
    requires Accepts(Op.Upsert(fqdn, ip, true), zone, v6) && tag in ["api.", "api-int.", "*.apps."]
    ensures name + "." + TrimDot(zone) == TrimDot(tag + fqdn) && KindFor(kind, ip)
    ensures var rs' := Apply(rs, Op.Upsert(fqdn, ip, true), zone, v6);
            && Record(kind, name, ip) in rs'
            && forall r :: r in rs' && r.kind == kind && r.name == name ==> r.data == ip
  {
    name, kind := RelativeName(tag + fqdn, zone), KindOf(ip, v6);
    FullName(tag, fqdn, zone);
    RecordsSay(fqdn, zone, ip, v6, tag);
    FilterMembers(rs, Spares(kind, Names(fqdn, zone)));
    hide RelativeName, IsSubdomain, ParseIP, ClusterRecords, Names, Filter;
    assert Apply(rs, Op.Upsert(fqdn, ip, true), zone, v6) ==
           Drop(rs, kind, Names(fqdn, zone)) + ClusterRecords(fqdn, zone, ip, v6);
  }

  lemma RecordsSay(fqdn: string, zone: string, ip: string, v6: string -> bool, tag: string)
    requires tag in LABELS
    ensures var records := ClusterRecords(fqdn, zone, ip, v6);
            && RelativeName(tag + fqdn, zone) in Names(fqdn, zone)
            && Record(KindOf(ip, v6), RelativeName(tag + fqdn, zone), ip) in records
            && forall r :: r in records ==> r.kind == KindOf(ip, v6) && r.data == ip
  {
    hide RelativeName, KindOf;
    var records := ClusterRecords(fqdn, zone, ip, v6);
    assert records[0] in records && records[1] in records && records[2] in records;
  }

  lemma FullName(tag: string, fqdn: string, zone: string)
    requires IsSubdomain(fqdn, zone) && tag in LABELS
    ensures RelativeName(tag + fqdn, zone) + "." + TrimDot(zone) == TrimDot(tag + fqdn)
  {
    hide RelativeName, IsSubdomain, TrimDot, Stem;
    RelativeLabel(tag, fqdn, zone);
    StemSplits(fqdn, zone);
    SubdomainNonempty(fqdn, zone);
    LabelTrim(tag, fqdn);
    assert tag + (Stem(fqdn, zone) + "." + TrimDot(zone)) == tag + Stem(fqdn, zone) + "." + TrimDot(zone);
  }

  lemma SubdomainNonempty(fqdn: string, zone: string)
    requires IsSubdomain(fqdn, zone)
    ensures TrimDot(fqdn) != ""
  {
  }

  lemma {:induction false} FilterMembers(rs: seq<Record>, keep: Record -> bool)
    ensures forall r :: r in Filter(rs, keep) <==> r in rs && keep(r)
    decreases |rs|
  {
    if rs != [] {
      FilterMembers(rs[1..], keep);
      assert forall r :: r in rs <==> r == rs[0] || r in rs[1..];
    }
  }
}

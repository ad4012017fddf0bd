/**
 The systemd unit name of a mount path (providers/openshift/baker.go:380-400),
 on bytes as Go indexes strings. Decoding the name gives back the path without
 its outer slashes, so two mounts share a unit name only if they are the same
 path, the root's "-" included.
 */
module SystemdEscape {
  import opened Text

  const SLASH: byte := 47
  const DOT: byte := 46

  // ----- the code -----

  predicate Plain(c: byte) {
    48 <= c <= 57 || 65 <= c <= 90 || 97 <= c <= 122 || c == 95
  }

  function Quoted(c: byte): (s: string)
    ensures |s| == 4
  {
    "\\x" + Hex2(c as int)
  }

  function EscapeByte(c: byte): string {
    if c == SLASH then "-" else if Plain(c) then [c as int as char] else Quoted(c)
  }

  function EscapeAll(p: seq<byte>): string {
    if p == [] then "" else EscapeAll(p[..|p| - 1]) + EscapeByte(p[|p| - 1])
  }

  function TrimLeft(p: seq<byte>): (r: seq<byte>)
    ensures r == [] || r[0] != SLASH
    ensures |r| <= |p| && r == p[|p| - |r|..] && forall i :: 0 <= i < |p| - |r| ==> p[i] == SLASH
  {
    if p != [] && p[0] == SLASH then TrimLeft(p[1..]) else p
  }

  function TrimRight(p: seq<byte>): (r: seq<byte>)
    ensures r == [] || r[|r| - 1] != SLASH
    ensures |r| <= |p| && r == p[..|r|] && forall i :: |r| <= i < |p| ==> p[i] == SLASH
  {
    if p != [] && p[|p| - 1] == SLASH then TrimRight(p[..|p| - 1]) else p
  }

  /** strings.Trim(p, "/"). */
  function Trim(p: seq<byte>): (r: seq<byte>)
    ensures r != [] ==> r[0] != SLASH && r[|r| - 1] != SLASH
  {
    TrimRight(TrimLeft(p))
  }

  function Escape(p: seq<byte>): string {
    if Trim(p) == [] then "-" else EscapeAll(Trim(p))
  }

  lemma QuotedDot()
    ensures EscapeByte(DOT) == "\\x2e"
  {
    assert HexDigit(2) == '2' && HexDigit(14) == 'e';
    assert Hex2(46) == [HexDigit(2), HexDigit(14)];
    assert "\\x" + "2e" == "\\x2e";
  }

  lemma EscapeNone()
    ensures EscapeAll([]) == ""
  {
  }

  lemma EscapeNext(p: seq<byte>, i: nat)
    requires i < |p|
    ensures EscapeAll(p[..i + 1]) == EscapeAll(p[..i]) + EscapeByte(p[i])
  {
    assert p[..i + 1][..i] == p[..i];
  }

  method EscapePath(path: seq<byte>) returns (name: string)
    ensures name == Escape(path)
  {
    hide EscapeAll, Quoted, Trim;
    var p := Trim(path);
    if p == [] { return "-"; }
    name := "";
    EscapeNone();
    assert p[..0] == [];
    for i := 0 to |p|
      invariant name == EscapeAll(p[..i])
    {
      EscapeNext(p, i);
      var c := p[i];
      if c == SLASH { name := name + "-"; }
      else if c == DOT && i == 0 { QuotedDot(); name := name + "\\x2e"; }
      else if Plain(c) { name := name + [c as int as char]; }
      else { name := name + Quoted(c); }
    }
    assert p[..|p|] == p;
  }

  // ----- the inverse -----

  function DecodeAll(s: string): Option<seq<byte>> {
    if s == "" then Some([])
    else if s[0] == '-' then Cons(SLASH, DecodeAll(s[1..]))
    else if s[0] == '\\' then
      if |s| >= 4 && s[1] == 'x' && HexValue(s[2]).Some? && HexValue(s[3]).Some?
      then Cons((HexValue(s[2]).value * 16 + HexValue(s[3]).value) as byte, DecodeAll(s[4..]))
      else None
    else if s[0] < 256 as char && Plain(s[0] as int as byte) then Cons(s[0] as int as byte, DecodeAll(s[1..]))
    else None
  }

  function Cons(c: byte, rest: Option<seq<byte>>): Option<seq<byte>> {
    if rest.Some? then Some([c] + rest.value) else None
  }

  /** systemd-escape -u -p without its leading slash: the unit name's path. */
  function Decode(s: string): Option<seq<byte>> {
    if s == "-" then Some([]) else DecodeAll(s)
  }

  lemma DecodeByte(c: byte, rest: string)
    ensures DecodeAll(EscapeByte(c) + rest) == Cons(c, DecodeAll(rest))
  {
    var e := EscapeByte(c);
    var s := e + rest;
    if c != SLASH && !Plain(c) {
      Hex2RoundTrip(c as int);
      assert e[2..] == Hex2(c as int);
      assert s[2] == Hex2(c as int)[0] && s[3] == Hex2(c as int)[1];
      assert s[4..] == rest;
    } else {
      assert s[1..] == rest;
    }
  }

  function Join(p: seq<byte>, rest: Option<seq<byte>>): Option<seq<byte>> {
    if rest.Some? then Some(p + rest.value) else None
  }

  lemma {:induction false} DecodeEscaped(p: seq<byte>, rest: string)
    ensures DecodeAll(EscapeAll(p) + rest) == Join(p, DecodeAll(rest))
    decreases |p|
  {
    hide DecodeAll, EscapeByte;
    if p != [] {
      var c := p[|p| - 1];
      assert EscapeAll(p) + rest == EscapeAll(p[..|p| - 1]) + (EscapeByte(c) + rest);
      DecodeEscaped(p[..|p| - 1], EscapeByte(c) + rest);
      DecodeByte(c, rest);
      assert p == p[..|p| - 1] + [c];
      if DecodeAll(rest).Some? {
        assert p[..|p| - 1] + ([c] + DecodeAll(rest).value) == p + DecodeAll(rest).value;
      }
    } else {
      assert "" + rest == rest;
      if DecodeAll(rest).Some? { assert p + DecodeAll(rest).value == DecodeAll(rest).value; }
    }
  }

  lemma DecodeDash()
    ensures DecodeAll("-") == Some([SLASH]) && DecodeAll("") == Some([])
  {
    DecodeByte(SLASH, "");
    assert EscapeByte(SLASH) + "" == "-";
    assert [SLASH] + [] == [SLASH];
  }

  /** Decoding undoes escaping up to the outer slashes, for every path including the root. */
  lemma EscapeRoundTrip(p: seq<byte>)
    ensures Decode(Escape(p)) == Some(Trim(p))
  {
    hide DecodeAll, EscapeAll, Trim;
    var t := Trim(p);
    if t != [] {
      DecodeEscaped(t, "");
      DecodeDash();
      assert EscapeAll(t) + "" == EscapeAll(t);
      assert t + [] == t;
      // Only "/" alone would be confused with the root, and trimming never leaves it.
      assert t[0] != SLASH;
    }
  }

  /** Two paths get the same unit name exactly when they differ in outer slashes only. */
  lemma EscapeCollides(p: seq<byte>, q: seq<byte>)
    ensures Escape(p) == Escape(q) <==> Trim(p) == Trim(q)
  {
    EscapeRoundTrip(p);
    EscapeRoundTrip(q);
  }

  /** A unit name: no slash, no dot, nothing outside [A-Za-z0-9_], "-" and the escapes. */
  predicate NameChar(c: char) {
    c == '-' || c == '\\' || (c < 256 as char && Plain(c as int as byte))
  }

  lemma {:induction false} EscapedNames(p: seq<byte>)
    ensures forall i :: 0 <= i < |EscapeAll(p)| ==> NameChar(EscapeAll(p)[i])
    ensures |p| <= |EscapeAll(p)| <= 4 * |p|
    decreases |p|
  {
    if p != [] {
      EscapedNames(p[..|p| - 1]);
      ByteName(p[|p| - 1]);
    }
  }

  lemma EscapedSomething(p: seq<byte>)
    ensures Escape(p) != ""
  {
    EscapedNames(Trim(p));
  }

  lemma ByteName(c: byte)
    ensures 1 <= |EscapeByte(c)| <= 4 && forall i :: 0 <= i < |EscapeByte(c)| ==> NameChar(EscapeByte(c)[i])
  {
    if c != SLASH && !Plain(c) {
      var h := Hex2(c as int);
      assert EscapeByte(c) == ['\\', 'x', h[0], h[1]];
      assert NameChar(h[0]) && NameChar(h[1]);
    }
  }

  // ----- what is kept as it is -----

  /** A letter, a digit or an underscore. */
  predicate Letter(c: char) {
    'a' <= c <= 'z' || 'A' <= c <= 'Z' || '0' <= c <= '9' || c == '_'
  }

  /** The path's bytes as characters. */
  function AsText(p: seq<byte>): string {
    seq(|p|, i requires 0 <= i < |p| => p[i] as int as char)
  }

  lemma ByteKept(c: byte)
    ensures |EscapeByte(c)| >= 1
    ensures EscapeByte(c) == [c as int as char] <==> Letter(c as int as char)
  {
  }

  /** Escaping keeps a path as it is if and only if it is made of letters, digits and underscores. */
  lemma {:induction false} EscapeVerbatim(p: seq<byte>)
    ensures EscapeAll(p) == AsText(p) <==> forall i :: 0 <= i < |p| ==> Letter(p[i] as int as char)
    decreases |p|
  {
    hide EscapeByte, Letter;
    if p != [] {
      var n := |p| - 1;
      EscapeVerbatim(p[..n]);
      EscapedNames(p[..n]);
      ByteKept(p[n]);
      assert AsText(p) == AsText(p[..n]) + [p[n] as int as char];
      if EscapeAll(p) == AsText(p) {
        assert |EscapeByte(p[n])| == 1;
        assert EscapeAll(p)[..n] == EscapeAll(p[..n]) && AsText(p)[..n] == AsText(p[..n]);
        assert EscapeAll(p)[n] == EscapeByte(p[n])[0];
        assert EscapeByte(p[n]) == [p[n] as int as char];
      }
    }
  }

  // ----- the documented rule -----

  /** The comment above the function: dots are kept, except a leading one. */
  function DocumentedAll(p: seq<byte>): string {
    if p == [] then ""
    else
      var c := p[|p| - 1];
      DocumentedAll(p[..|p| - 1]) + if c == DOT && |p| > 1 then "." else EscapeByte(c)
  }

  function Documented(p: seq<byte>): string {
    if Trim(p) == [] then "-" else DocumentedAll(Trim(p))
  }

  lemma {:induction false} DocumentedLength(p: seq<byte>)
    ensures |DocumentedAll(p)| <= |EscapeAll(p)|
    ensures DOT in (if p == [] then [] else p[1..]) ==> |DocumentedAll(p)| < |EscapeAll(p)|
    ensures DOT !in (if p == [] then [] else p[1..]) ==> DocumentedAll(p) == EscapeAll(p)
    decreases |p|
  {
    if p != [] {
      DocumentedLength(p[..|p| - 1]);
      if |p| > 1 {
        assert p[1..] == p[..|p| - 1][1..] + [p[|p| - 1]];
      }
    }
  }

  /** Code and comment agree exactly on the paths without an inner dot. */
  lemma DocumentedExact(p: seq<byte>)
    ensures Escape(p) == Documented(p) <==> Trim(p) == [] || DOT !in Trim(p)[1..]
  {
    DocumentedLength(Trim(p));
  }
}

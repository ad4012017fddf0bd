/**
 Adding the local CA to the admin kubeconfig (stages/applytlscerts/stage.go:182-244).
 A PEM bundle is a text in which certificate blocks stand on lines of their own;
 decoding yields the first block and the text behind its line.
 */
module CaBundle {
  import opened Text

  type Der = string

  /** A character, or one whole block from its BEGIN to its END marker without the line end. */
  datatype Item = Char(c: char) | Block(der: Der)

  const NEWLINE := Char('\n')

  // ----- pem -----

  /** pem.Decode: the first block that has its lines to itself; `start` says a line starts here. */
  function DecodeFrom(s: seq<Item>, start: bool): Option<(Der, seq<Item>)>
    decreases |s|
  {
    if s == [] then None
    else match s[0]
      case Char(c) => DecodeFrom(s[1..], c == '\n')
      case Block(d) =>
        if start && (|s| == 1 || s[1] == NEWLINE) then Some((d, if |s| == 1 then [] else s[2..]))
        else DecodeFrom(s[1..], false)
  }

  function Decode(s: seq<Item>): Option<(Der, seq<Item>)> {
    DecodeFrom(s, true)
  }

  lemma {:induction false} DecodeShrinks(s: seq<Item>, start: bool)
    ensures DecodeFrom(s, start).Some? ==> |DecodeFrom(s, start).value.1| < |s|
    decreases |s|
  {
    if s != [] {
      DecodeShrinks(s[1..], s[0] == NEWLINE);
      DecodeShrinks(s[1..], false);
    }
  }

  /** Every block a decoding loop sees, in order. */
  function Blocks(s: seq<Item>): seq<Der>
    decreases |s|
  {
    DecodeShrinks(s, true);
    if Decode(s).None? then [] else [Decode(s).value.0] + Blocks(Decode(s).value.1)
  }

  /** pem.EncodeToMemory. */
  function Encode(d: Der): seq<Item> {
    [Block(d), NEWLINE]
  }

  // ----- the code -----

  /** Our CA behind the bundle, on a line of its own. */
  function Appended(bundle: seq<Item>, ca: Der): seq<Item> {
    bundle + (if bundle != [] && bundle[|bundle| - 1] != NEWLINE then [NEWLINE] else []) + Encode(ca)
  }

  /** The kubeconfig: the cluster's decoded CA bundle and everything else. */
  datatype Kubeconfig = Kubeconfig(bundle: seq<Item>, other: string)

  datatype Files = Files(kubeconfig: Kubeconfig, backup: Option<Kubeconfig>)

  /** One call: which local CA it was given and whether its last command fails. */
  datatype Call = Call(ca: Der, fails: bool)

  function AfterCall(f: Files, call: Call): Files {
    var bundle := f.kubeconfig.bundle;
    if bundle == [] || call.ca in Blocks(bundle) then f
    else Files(if call.fails then f.kubeconfig else f.kubeconfig.(bundle := Appended(bundle, call.ca)),
               Some(f.backup.GetOr(f.kubeconfig)))
  }

  class Stage {
    var files: Files

    constructor (files: Files)
      ensures this.files == files
    {
      this.files := files;
    }

    /** appendLocalCAToKubeconfig; the bundle is an error when missing. */
    method AppendLocalCA(ca: Der, fails: bool) returns (ok: bool)
      modifies this
      ensures files == AfterCall(old(files), Call(ca, fails))
      ensures ok == (old(files).kubeconfig.bundle != [] && (ca in Blocks(old(files).kubeconfig.bundle) || !fails))
    {
      hide DecodeFrom;
      var bundle := files.kubeconfig.bundle;
      if bundle == [] { return false; }
      var rest := bundle;
      ghost var seen: seq<Der> := [];
      while true
        invariant files == old(files) && bundle == files.kubeconfig.bundle
        invariant Blocks(bundle) == seen + Blocks(rest) && ca !in seen
        decreases |rest|
      {
        var block := Decode(rest);
        if block.None? { break; }
        DecodeShrinks(rest, true);
        if block.value.0 == ca {
          assert ca in Blocks(rest);
          return true;
        }
        assert Blocks(rest) == [block.value.0] + Blocks(block.value.1);
        seen := seen + [block.value.0];
        rest := block.value.1;
      }
      assert Blocks(rest) == [];
      if files.backup.None? { files := files.(backup := Some(files.kubeconfig)); }
      assert files == Files(old(files).kubeconfig, Some(old(files).backup.GetOr(old(files).kubeconfig)));
      if bundle[|bundle| - 1] != NEWLINE { bundle := bundle + [NEWLINE]; }
      var newBundle := bundle + Encode(ca);
      if fails { return false; }
      files := files.(kubeconfig := files.kubeconfig.(bundle := newBundle));
      return true;
    }
  }

  // ----- appending adds exactly one block, at the end -----

  lemma {:induction false} DecodeAppended(s: seq<Item>, start: bool, ca: Der)
    requires s == [] ==> start
    ensures var s' := Appended(s, ca);
      if DecodeFrom(s, start).None? then DecodeFrom(s', start) == Some((ca, []))
      else DecodeFrom(s', start) == Some((DecodeFrom(s, start).value.0, Appended(DecodeFrom(s, start).value.1, ca)))
    decreases |s|
  {
    var s' := Appended(s, ca);
    if s == [] {
      assert s' == Encode(ca);
      assert s'[2..] == [];
    } else if s[0].Block? && start && (|s| == 1 || s[1] == NEWLINE) {
      if |s| == 1 {
        assert s' == [s[0], NEWLINE] + Encode(ca);
        assert s'[2..] == Encode(ca) == Appended([], ca);
      } else {
        assert s'[2..] == Appended(s[2..], ca) by {
          if |s| == 2 { assert s[2..] == []; } else { assert s[2..][|s| - 3] == s[|s| - 1]; }
        }
      }
    } else if |s| == 1 {
      LastItem(s[0], start, ca);
    } else {
      assert s'[0] == s[0] && s'[1..] == Appended(s[1..], ca) by { assert s[1..][|s| - 2] == s[|s| - 1]; }
      assert s'[1] == s[1];
      DecodeAppended(s[1..], s[0] == NEWLINE, ca);
    }
  }

  /** Behind a last item that is not a block of its own. */
  lemma LastItem(item: Item, start: bool, ca: Der)
    requires !(item.Block? && start)
    ensures DecodeFrom([item], start).None? && DecodeFrom(Appended([item], ca), start) == Some((ca, []))
  {
    var s' := Appended([item], ca);
    var e := Encode(ca);
    assert e[2..] == [];
    assert DecodeFrom(e, true) == Some((ca, []));
    assert [item][1..] == [];
    if item == NEWLINE {
      assert s' == [item] + e && s'[1..] == e;
    } else {
      assert s' == [item] + ([NEWLINE] + e);
      assert s'[1..] == [NEWLINE] + e && s'[1..][1..] == e;
      assert DecodeFrom([NEWLINE] + e, item == NEWLINE) == DecodeFrom(e, true);
    }
  }

  lemma {:induction false} BlocksAppended(s: seq<Item>, ca: Der)
    ensures Blocks(Appended(s, ca)) == Blocks(s) + [ca]
    decreases |s|
  {
    hide DecodeFrom, Appended;
    DecodeAppended(s, true, ca);
    if Decode(s).None? {
      NoBlocks();
      assert Blocks(Appended(s, ca)) == [ca] + Blocks([]) == [ca];
    } else {
      DecodeShrinks(s, true);
      BlocksAppended(Decode(s).value.1, ca);
      assert Blocks(Appended(s, ca)) == [Decode(s).value.0] + (Blocks(Decode(s).value.1) + [ca]);
    }
  }

  lemma NoBlocks()
    ensures Blocks([]) == []
  {
  }

  // ----- any number of calls -----

  function AfterCalls(f: Files, calls: seq<Call>): Files
    decreases |calls|
  {
    if calls == [] then f else AfterCall(AfterCalls(f, calls[..|calls| - 1]), calls[|calls| - 1])
  }

  /** The block list every successful call leaves: each CA once, in the order they first succeeded. */
  function Trusted(blocks: seq<Der>, calls: seq<Call>): seq<Der>
    decreases |calls|
  {
    if calls == [] then blocks
    else
      var before, call := Trusted(blocks, calls[..|calls| - 1]), calls[|calls| - 1];
      if call.fails || call.ca in before then before else before + [call.ca]
  }

  /**
   Any number of calls, failing or not: the decoded bundle is the original block
   list with each CA that was added once behind it, the rest of the kubeconfig is
   untouched, and the backup is the first original for ever.
   */
  lemma {:induction false} CallsKeepOriginal(f: Files, calls: seq<Call>)
    requires f.kubeconfig.bundle != []
    ensures var g := AfterCalls(f, calls);
      && Blocks(g.kubeconfig.bundle) == Trusted(Blocks(f.kubeconfig.bundle), calls)
      && g.kubeconfig.bundle != [] && f.kubeconfig.bundle <= g.kubeconfig.bundle
      && g.kubeconfig.other == f.kubeconfig.other
      && (f.backup.Some? ==> g.backup == f.backup)
      && (f.backup.None? ==> g.backup in {None, Some(f.kubeconfig)})
      && (f.backup.None? && g.backup.None? ==> g.kubeconfig == f.kubeconfig)
      && (f.backup.None? ==>
            (g.backup.None? <==> forall i :: 0 <= i < |calls| ==> calls[i].ca in Blocks(f.kubeconfig.bundle)))
    decreases |calls|
  {
    hide Blocks;
    if calls != [] {
      CallsKeepOriginal(f, calls[..|calls| - 1]);
      var b := AfterCalls(f, calls[..|calls| - 1]);
      BlocksAppended(b.kubeconfig.bundle, calls[|calls| - 1].ca);
    }
  }

  /** Repeating the call with one CA is a fixed point after its first success. */
  lemma {:induction false} AppendIsFixedPoint(f: Files, calls: seq<Call>, ca: Der)
    requires f.kubeconfig.bundle != [] && forall i :: 0 <= i < |calls| ==> calls[i].ca == ca
    ensures var blocks := Blocks(f.kubeconfig.bundle);
      Trusted(blocks, calls) ==
        if ca in blocks || forall i :: 0 <= i < |calls| ==> calls[i].fails then blocks else blocks + [ca]
    ensures var g := AfterCalls(f, calls);
      ca in Blocks(g.kubeconfig.bundle) ==> forall fails :: AfterCall(g, Call(ca, fails)) == g
    decreases |calls|
  {
    hide Blocks;
    if calls != [] { AppendIsFixedPoint(f, calls[..|calls| - 1], ca); }
  }
}

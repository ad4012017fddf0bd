/**
 Structural edits of the live ignition (stages/publishpxeassets/stage.go:58-145,
 providers/openshift/baker.go:307-355, providers/openshift/installer.go:174-189,
 stages/embedignitioniso/stage.go:33-47) and what repeating a stage does to them.
 */
module Ignition {
  import opened Text
  import SystemdEscape

  datatype Json =
    | Null
    | Bool(b: bool)
    | Number(n: int)
    | Str(s: string)
    | Arr(items: seq<Json>)
    | Obj(fields: map<string, Json>)

  type Object = map<string, Json>

  // ----- what the code reads -----

  /** m[key].(map[string]any): an absent or differently typed value reads as nothing. */
  function Section(m: Object, key: string): Object {
    if key in m && m[key].Obj? then m[key].fields else map[]
  }

  function List(m: Object, key: string): seq<Json> {
    if key in m && m[key].Arr? then m[key].items else []
  }

  function Files(ignition: Object): seq<Json> {
    List(Section(ignition, "storage"), "files")
  }

  function Units(ignition: Object): seq<Json> {
    List(Section(ignition, "systemd"), "units")
  }

  // ----- what the code writes -----

  /** Append an entry to a list of a section, making both when they are missing. */
  function AppendTo(m: Object, section: string, list: string, entry: Json): Object {
    var s := Section(m, section);
    m[section := Obj(s[list := Arr(List(s, list) + [entry])])]
  }

  function InjectStaticNetwork(ignition: Object, keyfile: Json): Object {
    AppendTo(ignition, "storage", "files", keyfile)
  }

  function MergeBakedStore(ignition: Object, dropin: Json, unit: Json): Object {
    AppendTo(AppendTo(ignition, "storage", "files", dropin), "systemd", "units", unit)
  }

  /** The fixed entries of one cluster: its keyfile, the CRI-O drop-in and the mount unit. */
  datatype Entries = Entries(keyfile: Json, dropin: Json, unit: Json)

  /** RenderMountUnit names the unit after the path it mounts. */
  function UnitName(path: seq<byte>): string {
    SystemdEscape.Escape(path) + ".mount"
  }

  /** What a finished publish-pxe-assets serves. */
  function Published(source: Object, e: Entries, bake: bool): Object {
    var pinned := InjectStaticNetwork(source, e.keyfile);
    if bake then MergeBakedStore(pinned, e.dropin, e.unit) else pinned
  }

  // ----- the stages -----

  /** How far one attempt gets before something outside fails. */
  datatype Fault = NoFault | BeforeWrite | BeforeMerge | InMerge

  function AfterPublish(source: Option<Object>, served: Option<Object>, e: Entries, bake: bool,
      fault: Fault): Option<Object> {
    if fault.BeforeWrite? || source.None? then served
    else if fault.NoFault? then Some(Published(source.value, e, bake))
    else Some(InjectStaticNetwork(source.value, e.keyfile))
  }

  /** publish-pxe-assets: the file generated by the installer is read, the served copy is written. */
  class PublishPxeAssets {
    const source: Option<Object>    // None: missing, or not a JSON object
    var served: Option<Object>
    var cmdline: string

    constructor (source: Option<Object>, cmdline: string)
      ensures this.source == source && served == None && this.cmdline == cmdline
    {
      this.source, served, this.cmdline := source, None, cmdline;
    }

    method InjectInto(e: Entries) returns (m: Object)
      requires source.Some?
      ensures m == InjectStaticNetwork(source.value, e.keyfile)
    {
      m := source.value;
      var storage := Section(m, "storage");
      var files := List(storage, "files");
      storage := storage["files" := Arr(files + [e.keyfile])];
      m := m["storage" := Obj(storage)];
    }

    /** MergeImageStoreIntoLiveISOIgnition on the served file. */
    method MergeServed(e: Entries)
      requires served.Some?
      modifies this`served
      ensures served == Some(MergeBakedStore(old(served).value, e.dropin, e.unit))
    {
      var cfg := served.value;
      var storage := Section(cfg, "storage");
      storage := storage["files" := Arr(List(storage, "files") + [e.dropin])];
      cfg := cfg["storage" := Obj(storage)];
      var systemd := Section(cfg, "systemd");
      systemd := systemd["units" := Arr(List(systemd, "units") + [e.unit])];
      cfg := cfg["systemd" := Obj(systemd)];
      served := Some(cfg);
    }

    method Apply(e: Entries, bake: bool, newCmdline: string, fault: Fault) returns (ok: bool)
      modifies this
      ensures served == AfterPublish(source, old(served), e, bake, fault)
      ensures ok == (source.Some? && (fault.NoFault? || (fault.InMerge? && !bake)))
      ensures cmdline == if ok then newCmdline else old(cmdline)
    {
      if fault.BeforeWrite? { return false; }
      if source.None? { return false; }
      var merged := InjectInto(e);
      served := Some(merged);
      if fault.BeforeMerge? { return false; }
      if bake {
        if fault.InMerge? { return false; }
        MergeServed(e);
      }
      cmdline := newCmdline;
      return true;
    }
  }

  // ----- what an edit keeps -----

  lemma AppendKeeps(m: Object, section: string, list: string, entry: Json)
    ensures var r := AppendTo(m, section, list, entry);
      && List(Section(r, section), list) == List(Section(m, section), list) + [entry]
      && Section(r, section) - {list} == Section(m, section) - {list}
      && r - {section} == m - {section}
      && forall other :: other != section ==> Section(r, other) == Section(m, other)
  {
  }

  lemma WithoutBoth(a: Object, b: Object, k: string, other: string)
    requires a - {k} == b - {k}
    ensures a - {k, other} == b - {k, other} == b - {other, k}
  {
    assert a - {k, other} == (a - {k}) - {other} == (b - {k}) - {other} == b - {k, other};
  }

  /**
   Publishing preserves the installer's ignition: every field outside
   storage.files and systemd.units is what it was, the original files and units
   come first, and behind them are one keyfile and, only when baking, one
   drop-in and one mount unit.
   */
  lemma PublishedKeepsSource(source: Object, e: Entries, bake: bool)
    ensures var p := Published(source, e, bake);
      && Files(p) == Files(source) + [e.keyfile] + (if bake then [e.dropin] else [])
      && Units(p) == Units(source) + (if bake then [e.unit] else [])
      && p - {"storage", "systemd"} == source - {"storage", "systemd"}
      && Section(p, "storage") - {"files"} == Section(source, "storage") - {"files"}
      && Section(p, "systemd") - {"units"} == Section(source, "systemd") - {"units"}
      && (!bake ==> p - {"storage"} == source - {"storage"})
  {
    hide AppendTo;
    AppendKeeps(source, "storage", "files", e.keyfile);
    var pinned := InjectStaticNetwork(source, e.keyfile);
    if bake {
      AppendKeeps(pinned, "storage", "files", e.dropin);
      var stored := AppendTo(pinned, "storage", "files", e.dropin);
      AppendKeeps(stored, "systemd", "units", e.unit);
      var p := Published(source, e, bake);
      WithoutBoth(p, stored, "systemd", "storage");
      WithoutBoth(stored, pinned, "storage", "systemd");
      WithoutBoth(pinned, source, "storage", "systemd");
    } else {
      WithoutBoth(pinned, source, "storage", "systemd");
    }
  }

  /** A mount unit is named by exactly the path it mounts, as systemd demands, so two mounts never share one. */
  lemma MountUnitNamesItsPath(path: seq<byte>, other: seq<byte>)
    ensures SystemdEscape.Decode(SystemdEscape.Escape(path)) == Some(SystemdEscape.Trim(path))
    ensures UnitName(path) == UnitName(other) <==> SystemdEscape.Trim(path) == SystemdEscape.Trim(other)
    ensures var u := UnitName(path); |u| > 6 && u[|u| - 6..] == ".mount"
  {
    SystemdEscape.EscapedSomething(path);
    hide SystemdEscape.Escape, SystemdEscape.Decode, SystemdEscape.Trim;
    SystemdEscape.EscapeRoundTrip(path);
    SystemdEscape.EscapeCollides(path, other);
    StemUnique(SystemdEscape.Escape(path), SystemdEscape.Escape(other));
  }

  lemma StemUnique(a: string, b: string)
    ensures a + ".mount" == b + ".mount" <==> a == b
  {
    if a + ".mount" == b + ".mount" {
      assert |a| == |b|;
      assert (a + ".mount")[..|a|] == a && (b + ".mount")[..|b|] == b;
    }
  }

  // ----- repeating the stages -----

  function AfterPublishes(source: Option<Object>, served: Option<Object>, e: Entries, bake: bool,
      faults: seq<Fault>): Option<Object>
    decreases |faults|
  {
    if faults == [] then served
    else AfterPublish(source, AfterPublishes(source, served, e, bake, faults[..|faults| - 1]), e, bake,
        faults[|faults| - 1])
  }

  /** How the last attempt that wrote the served file ended, if one did. */
  function LastWrite(faults: seq<Fault>): Option<Fault>
    decreases |faults|
  {
    if faults == [] then None
    else if faults[|faults| - 1].BeforeWrite? then LastWrite(faults[..|faults| - 1])
    else Some(faults[|faults| - 1])
  }

  /** The source with one keyfile behind its files and, when merged, one drop-in and one mount unit. */
  ghost predicate Carries(p: Object, source: Object, e: Entries, merged: bool) {
    && Files(p) == Files(source) + [e.keyfile] + (if merged then [e.dropin] else [])
    && Units(p) == Units(source) + (if merged then [e.unit] else [])
    && p - {"storage", "systemd"} == source - {"storage", "systemd"}
    && Section(p, "storage") - {"files"} == Section(source, "storage") - {"files"}
    && Section(p, "systemd") - {"units"} == Section(source, "systemd") - {"units"}
  }

  /**
   What is served after any attempts, failed ones and a failed last one
   included: the file from before if none got to write, otherwise the source with
   exactly one keyfile, and one drop-in and one unit if and only if the last
   attempt that wrote got through its merge. Nothing piles up.
   */
  lemma {:induction false} ServedAfterAttempts(source: Object, served: Option<Object>, e: Entries, bake: bool,
      faults: seq<Fault>)
    ensures var g := AfterPublishes(Some(source), served, e, bake, faults);
      match LastWrite(faults)
      case None => g == served
      case Some(fault) => g.Some? && Carries(g.value, source, e, bake && fault.NoFault?)
    decreases |faults|
  {
    hide Carries;
    if faults != [] {
      var fault := faults[|faults| - 1];
      if fault.BeforeWrite? {
        ServedAfterAttempts(source, served, e, bake, faults[..|faults| - 1]);
      } else {
        PublishedCarries(source, e, bake && fault.NoFault?);
      }
    }
  }

  lemma PublishedCarries(source: Object, e: Entries, merged: bool)
    ensures Carries(Published(source, e, merged), source, e, merged)
  {
    PublishedKeepsSource(source, e, merged);
    assert Files(source) + [e.keyfile] + [] == Files(source) + [e.keyfile] && Units(source) + [] == Units(source);
  }

  /** embed-ignition-iso merges into the generated file itself, once per attempt that reaches the merge. */
  function Embedded(ignition: Object, e: Entries, bake: bool, attempts: nat): Object {
    if attempts == 0 || !bake then ignition
    else MergeBakedStore(Embedded(ignition, e, bake, attempts - 1), e.dropin, e.unit)
  }

  function Copies(entry: Json, n: nat): seq<Json> {
    seq(n, i => entry)
  }

  /** So the drop-in and the mount unit pile up: one pair per attempt. */
  lemma {:induction false} EmbeddedPilesUp(ignition: Object, e: Entries, attempts: nat)
    ensures var m := Embedded(ignition, e, true, attempts);
      && Files(m) == Files(ignition) + Copies(e.dropin, attempts)
      && Units(m) == Units(ignition) + Copies(e.unit, attempts)
    decreases attempts
  {
    hide AppendTo;
    if attempts > 0 {
      EmbeddedPilesUp(ignition, e, attempts - 1);
      var m := Embedded(ignition, e, true, attempts - 1);
      AppendKeeps(m, "storage", "files", e.dropin);
      var stored := AppendTo(m, "storage", "files", e.dropin);
      AppendKeeps(stored, "systemd", "units", e.unit);
      assert Copies(e.dropin, attempts) == Copies(e.dropin, attempts - 1) + [e.dropin];
      assert Copies(e.unit, attempts) == Copies(e.unit, attempts - 1) + [e.unit];
    }
  }

  /** embed-ignition-iso embeds the same ignition on a retry exactly when the image store is not baked. */
  lemma EmbedRetryExact(ignition: Object, e: Entries, bake: bool, attempts: nat)
    requires attempts >= 1
    ensures Embedded(ignition, e, bake, attempts + 1) == Embedded(ignition, e, bake, attempts) <==> !bake
  {
    if bake {
      EmbeddedPilesUp(ignition, e, attempts);
      EmbeddedPilesUp(ignition, e, attempts + 1);
      assert |Copies(e.unit, attempts)| != |Copies(e.unit, attempts + 1)|;
    }
  }
}

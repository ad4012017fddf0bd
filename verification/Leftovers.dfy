/**
 What an unlucky death leaves behind, and the runs that lead there: a state.json
 whose cluster is gone, a VM whose stage was never recorded, a command line that
 was never saved, and a network without a reservation it should hold. Each run
 starts wherever a create of a new cluster can start, a fresh host included.
 */
module Leftovers {
  import opened Text
  import opened Addresses
  import opened Model
  import opened NatReset
  import opened Lifecycle
  import opened Safety
  import opened Records
  import opened Reservations
  import opened RoundTrip
  import opened Resume
  import opened Retry
  import opened Traces

  // ----- runs, put together from pieces -----

  /** The labels of CreateUpTo. */
  function CreateLabels(spec: Cluster, draws: seq<Draw>, j: nat): (ls: seq<Label>)
    ensures forall l :: l in ls ==> l == BeginCreate(spec) || l == DoStage(draws, true) || l == Record
  {
    if j == 0 then [BeginCreate(spec)] else CreateLabels(spec, draws, j - 1) + [DoStage(draws, true), Record]
  }

  lemma RunTwo(w: World, l: Label, m: Label)
    ensures Run(w, [l]) == Step(w, l) && Run(w, [l, m]) == Step(Step(w, l), m)
  {
    assert [l] == [] + [l] && [l, m] == [l] + [m];
    RunSnoc(w, [], l);
    RunSnoc(w, [l], m);
  }

  lemma {:induction false} CreateIsRun(w: World, spec: Cluster, draws: seq<Draw>, j: nat)
    ensures Run(w, CreateLabels(spec, draws, j)) == CreateUpTo(w, spec, draws, j)
  {
    hide Step;
    if j == 0 {
      RunTwo(w, BeginCreate(spec), Record);
    } else {
      CreateIsRun(w, spec, draws, j - 1);
      RunAppend(w, CreateLabels(spec, draws, j - 1), [DoStage(draws, true), Record]);
      RunTwo(CreateUpTo(w, spec, draws, j - 1), DoStage(draws, true), Record);
    }
  }

  lemma CreateAndTwo(w: World, spec: Cluster, draws: seq<Draw>, j: nat, l: Label, m: Label) returns (ls: seq<Label>)
    ensures ls == CreateLabels(spec, draws, j) + [l, m]
    ensures Run(w, ls) == Step(Step(CreateUpTo(w, spec, draws, j), l), m)
  {
    hide Step;
    ls := CreateLabels(spec, draws, j) + [l, m];
    CreateIsRun(w, spec, draws, j);
    RunAppend(w, CreateLabels(spec, draws, j), [l, m]);
    RunTwo(CreateUpTo(w, spec, draws, j), l, m);
  }

  /** A create can start on a fresh host. */
  lemma FreshStarts(os: OS, net: Net, spec: Cluster, draws: seq<Draw>)
    requires NewSpec(spec) && Hosts(net) == []
    ensures var w := Fresh(os).(net := net);
            CanStart(w, spec) && FreshCreate(w, spec) && (draws != [] ==> Enough(w.mem, spec, draws))
  {
    if draws != [] {
      AllocOneMAC({}, draws);
      AllocOneIP({});
      assert PoolIP(NETWORK_START) !in {};
    }
  }

  // ----- a record without a cluster -----

  /** While stages are worked off: the cluster is listed from registration on, unless registration was skipped. */
  ghost predicate ListedAsRecorded(w: World, name: string, before: set<Stage>) {
    w.proc.Applying? ==>
      && w.proc.cur.name == name && (w.proc.k == 0 && !w.proc.done ==> w.proc.rec == before)
      && (Has(w.mem.clusters, name) <==> (w.proc.k > 0 || w.proc.done) && RegisterCluster !in before)
  }

  lemma ListedStep(w: World, name: string, before: set<Stage>, l: Label)
    requires ListedAsRecorded(w, name, before) && OfCreate(l)
    ensures ListedAsRecorded(Step(w, l), name, before)
  {
    hide Apply;
    if w.proc.Applying? && l.DoStage? && w.proc.k < |Pipeline(w.os)| {
      ApplyShape(w.os, Pipeline(w.os)[w.proc.k], l.draws, ViewOf(w));
      StagesDistinct(w.os);
      assert Pipeline(w.os)[w.proc.k] == RegisterCluster <==> w.proc.k == 0;
    }
  }

  /**
   A create of an unlisted name lists the cluster if and only if no state.json
   says it was registered: past the first stage, whatever succeeded, failed or
   was skipped on the way.
   */
  lemma {:induction false} StaleRecordExact(w: World, spec: Cluster, ls: seq<Label>)
    requires w.proc.Idle? && !Has(w.mem.clusters, spec.name) && Step(w, BeginCreate(spec)).proc.Applying?
    requires forall l :: l in ls ==> OfCreate(l)
    ensures var w' := Run(Step(w, BeginCreate(spec)), ls);
            w'.proc.Applying? && w'.proc.k > 0 ==>
              (Has(w'.mem.clusters, spec.name) <==> RegisterCluster !in Recorded(w, spec.name))
  {
    ListedRun(w, spec, ls);
  }

  lemma {:induction false} ListedRun(w: World, spec: Cluster, ls: seq<Label>)
    requires w.proc.Idle? && !Has(w.mem.clusters, spec.name) && Step(w, BeginCreate(spec)).proc.Applying?
    requires forall l :: l in ls ==> OfCreate(l)
    ensures ListedAsRecorded(Run(Step(w, BeginCreate(spec)), ls), spec.name, Recorded(w, spec.name))
    decreases |ls|
  {
    if ls == [] {
      assert Find(w.mem.clusters, spec.name).None?;
    } else {
      var n := |ls| - 1;
      assert forall l :: l in ls[..n] ==> l in ls;
      ListedRun(w, spec, ls[..n]);
      ListedStep(Run(Step(w, BeginCreate(spec)), ls[..n]), spec.name, Recorded(w, spec.name), ls[n]);
    }
  }

  lemma BoundaryK(w: World, w1: World, d: Cluster, j: nat)
    requires UndoBoundary(w, w1, d, j)
    ensures j <= w1.proc.k && Step(w1, SkipUndo).proc.Undoing? && Step(w1, SkipUndo).proc.cur == w1.proc.cur
    ensures Step(w1, SkipUndo) == w1.(proc := Step(w1, SkipUndo).proc)
  {
  }

  /** Going back over stages that are not recorded, down to stage j. */
  lemma {:induction false} SkipDown(w: World, w1: World, d: Cluster, j: nat) returns (ls: seq<Label>)
    requires UndoBoundary(w, w1, d, j)
    ensures forall l :: l in ls ==> l == SkipUndo
    ensures var w2 := Run(w1, ls);
            UndoBoundary(w, w2, d, j) && w2 == w1.(proc := w2.proc) && w2.proc.k == j && w2.proc.cur == w1.proc.cur
    decreases w1.proc.k
  {
    hide UndoBoundary;
    BoundaryK(w, w1, d, j);
    if w1.proc.k == j {
      ls := [];
    } else {
      SkippedBoundary(w, w1, d, j);
      var rest := SkipDown(w, Step(w1, SkipUndo), d, j);
      ls := [SkipUndo] + rest;
      RunAppend(w1, [SkipUndo], rest);
      RunTwo(w1, SkipUndo, SkipUndo);
    }
  }

  /** A create that ends after j stages. */
  lemma EndsAfter(w: World, spec: Cluster, draws: seq<Draw>, j: nat) returns (d: Cluster)
    requires FreshCreate(w, spec) && j < |Pipeline(w.os)| && (j >= 2 ==> Enough(w.mem, spec, draws))
    ensures Ended(w, Step(Step(CreateUpTo(w, spec, draws, j), FailStage(false)), Crash), d, j)
    ensures d.name == spec.name && d.isNAT == spec.isNAT
  {
    hide Step, FreshCreate, Enough;
    d := CreateBoundary(w, spec, draws, j);
    var w1 := CreateUpTo(w, spec, draws, j);
    d := FailedCreate(w, w1, d, j, false);
  }

  /** ... and a delete of it that is about to roll back stage j. */
  lemma DeleteDownTo(w: World, spec: Cluster, draws: seq<Draw>, j: nat)
      returns (ls: seq<Label>, skips: seq<Label>, d: Cluster)
    requires FreshCreate(w, spec) && 1 <= j < |Pipeline(w.os)| && (j >= 2 ==> Enough(w.mem, spec, draws))
    ensures ls == CreateLabels(spec, draws, j) + [FailStage(false), Crash] + [BeginDelete(spec.name, true)] + skips
    ensures forall l :: l in skips ==> l == SkipUndo
    ensures var w' := Run(w, ls);
            UndoBoundary(w, w', d, j) && w'.proc.k == j && Recorded(w', spec.name) == Prefix(w.os, j)
            && w'.proc.cur.name == spec.name && w'.proc.cur.isNAT == spec.isNAT
  {
    hide Step, Run, FreshCreate, Enough, UndoBoundary;
    d := EndsAfter(w, spec, draws, j);
    var start := CreateAndTwo(w, spec, draws, j, FailStage(false), Crash);
    var w1 := Run(w, start);
    d := DeleteStarts(w, w1, d, j);
    var w2 := Step(w1, BeginDelete(spec.name, true));
    RunSnoc(w, start, BeginDelete(spec.name, true));
    skips := SkipDown(w, w2, d, j);
    ls := start + [BeginDelete(spec.name, true)] + skips;
    RunAppend(w, start + [BeginDelete(spec.name, true)], skips);
  }

  /** The delete that dies between unregistering the cluster and recording it leaves the record behind. */
  lemma LeftOverRecord(w: World, spec: Cluster, draws: seq<Draw>) returns (ls: seq<Label>)
    requires FreshCreate(w, spec)
    ensures var w' := Run(w, ls);
            && w'.proc.Idle? && w'.mem == w'.disk && !Has(w'.mem.clusters, spec.name)
            && Recorded(w', spec.name) == {RegisterCluster}
  {
    hide Step, Run, UndoBoundary, AddressSafe, NoForeign;
    var start, _, d := DeleteDownTo(w, spec, draws, 1);
    ls := start + [UndoStage(true, true), Crash];
    RunAppend(w, start, [UndoStage(true, true), Crash]);
    RunTwo(Run(w, start), UndoStage(true, true), Crash);
    UnregisteredNotErased(w, Run(w, start), d);
  }

  lemma UnregisteredNotErased(w: World, w1: World, d: Cluster)
    requires UndoBoundary(w, w1, d, 1) && w1.proc.k == 1 && Recorded(w1, w1.proc.cur.name) == Prefix(w.os, 1)
    requires !Has(w.mem.clusters, w1.proc.cur.name)
    ensures var w' := Step(Step(w1, UndoStage(true, true)), Crash);
            && w'.proc.Idle? && w'.mem == w'.disk && !Has(w'.mem.clusters, w1.proc.cur.name)
            && Recorded(w', w1.proc.cur.name) == {RegisterCluster}
  {
    PrefixMember(w.os, 1, 0);
    assert Pipeline(w.os)[..1] == [RegisterCluster];
    assert Prefix(w.os, 1) == {RegisterCluster};
    assert Step(w1, UndoStage(true, true)) == UndoStageStep(w1, true, true);
    SpliceAppend(w.mem.clusters, w1.proc.cur);
  }

  // ----- a VM without a record -----

  lemma StuckReachable(w0: World, spec: Cluster, draws: seq<Draw>) returns (ls: seq<Label>)
    requires CanStart(w0, spec) && w0.os.Linux? && AllocOk(w0.mem, spec, draws)
    ensures (forall l :: l in ls ==> Attempt(l, spec)) && Run(w0, ls).proc.Idle? && Stuck(Run(w0, ls), spec.name)
  {
    hide Step, Run, CanStart, AllocOk, Reached, Stuck;
    ls := CreateAndTwo(w0, spec, draws, 11, DoStage(draws, true), Crash);
    var w := CreateUpTo(w0, spec, draws, 11);
    var g := CleanAt(w0, spec, draws, 11);
    MadeNotRecorded(w0, spec, g, w, draws);
  }

  lemma MadeNotRecorded(w0: World, spec: Cluster, g: At, w: World, draws: seq<Draw>)
    requires Working(w0, spec, g, w) && g.n == g.e == 11 && w0.os.Linux?
    requires w.vms == VmsAt(w0, spec, g.draws, 11, g.vmBoot)
    ensures var w' := Step(Step(w, DoStage(draws, true)), Crash); w'.proc.Idle? && Stuck(w', spec.name)
  {
    AtWorking(w0, spec, g, w);
    assert spec.name !in w.vms;
    var g' := RetryAt(w0, spec, g, w, draws);
    hide DoStageStep, Reached, CanStart, VmsAt;
    MadeIsUnrecorded(w0, spec, g', DoStageStep(w, draws, true));
    assert Step(w, DoStage(draws, true)) == DoStageStep(w, draws, true);
  }

  lemma MadeIsUnrecorded(w0: World, spec: Cluster, g: At, w: World)
    requires CanStart(w0, spec) && Reached(w0, spec, g, w) && w0.os.Linux?
    requires w.proc.Applying? && w.proc.done && g.n == 11
    ensures Stuck(Step(w, Crash), spec.name)
  {
    StuckIs(w0, spec, g, w);
    assert w.vms == VmsAt(w0, spec, g.draws, 12, g.vmBoot);
  }

  // ----- a command line that was not saved -----

  /** The labels of an undisturbed attempt. */
  lemma {:induction false} UndisturbedIsRun(w: World, spec: Cluster, draws: seq<Draw>, j: nat) returns (ls: seq<Label>)
    ensures Run(w, ls) == Undisturbed(w, spec, draws, j) && forall l :: l in ls ==> Attempt(l, spec)
  {
    hide Step;
    if j == 0 {
      ls := [BeginCreate(spec)];
      RunTwo(w, BeginCreate(spec), Record);
    } else {
      var before := UndisturbedIsRun(w, spec, draws, j - 1);
      var w1 := Run(w, before);
      if w1.proc.Applying? && w1.proc.k < |Pipeline(w1.os)| && Pipeline(w1.os)[w1.proc.k] in w1.proc.rec {
        ls := before + [Skip];
        RunSnoc(w, before, Skip);
      } else {
        ls := before + [DoStage(draws, true), Record];
        RunAppend(w, before, [DoStage(draws, true), Record]);
        RunTwo(w1, DoStage(draws, true), Record);
      }
    }
  }

  lemma {:induction false} LostStays(w: World, a: seq<Label>, b: seq<Label>, name: string)
    requires LostRun(w, a, name)
    ensures LostRun(w, a + b, name)
    decreases |b|
  {
    if b == [] {
      assert a + b == a;
    } else {
      var n := |b| - 1;
      assert (a + b)[..|a + b| - 1] == a + b[..n];
      LostStays(w, a, b[..n], name);
    }
  }

  /** On macOS, boot media recorded and not yet saved by merge-kubeconfig. */
  lemma UnsavedAfterPublish(w0: World, spec: Cluster, draws: seq<Draw>)
    requires CanStart(w0, spec) && w0.os.Darwin? && AllocOk(w0.mem, spec, draws)
    ensures Unsaved(CreateUpTo(w0, spec, draws, 10), spec.name)
  {
    hide Step, AllocOk, CanStart;
    var g9 := CleanAt(w0, spec, draws, 9);
    var g := CleanAt(w0, spec, draws, 10);
    var w9, w := CreateUpTo(w0, spec, draws, 9), CreateUpTo(w0, spec, draws, 10);
    DiskKeptByPublish(w9, draws);
    EmptyBoot(w0, spec, g9, w9);
    PublishRecorded(w0, spec, g, w);
  }

  lemma DiskKeptByPublish(w: World, draws: seq<Draw>)
    requires w.os.Darwin? && w.proc.Applying? && w.proc.k == 9
    ensures Step(Step(w, DoStage(draws, true)), Record).disk == w.disk
  {
  }

  lemma EmptyBoot(w0: World, spec: Cluster, g: At, w: World)
    requires Reached(w0, spec, g, w) && g.e == 9
    ensures exists i :: 0 <= i < |w.disk.clusters| && w.disk.clusters[i].name == spec.name &&
                        w.disk.clusters[i].boot == ""
  {
    assert w.disk.clusters[|w.disk.clusters| - 1] == EntryAt(w0.mem, spec, g.draws, 9, g.diskBoot);
  }

  lemma PublishRecorded(w0: World, spec: Cluster, g: At, w: World)
    requires Reached(w0, spec, g, w) && g.n == 10 && w0.os.Darwin?
    ensures PublishPXEAssets in Recorded(w, spec.name)
  {
    assert Pipeline(w0.os)[9] == PublishPXEAssets;
    PrefixMember(w0.os, 10, 9);
  }

  /** A run that loses the command line and still gets through. */
  lemma LostReachable(w0: World, spec: Cluster, draws: seq<Draw>) returns (ls: seq<Label>)
    requires CanStart(w0, spec) && w0.os.Darwin? && AllocOk(w0.mem, spec, draws)
    ensures (forall l :: l in ls ==> Attempt(l, spec)) && Through(Run(w0, ls)) && LostRun(w0, ls, spec.name)
  {
    hide Step, Run, CanStart, AllocOk, Reached, Unsaved, Through;
    var a := Losing(w0, spec, draws);
    var g := CleanAt(w0, spec, draws, 10);
    var w := CreateUpTo(w0, spec, draws, 10);
    var w1, g' := Step(w, Crash), g.(lost := g.lost || Unsaved(w, spec.name));
    CrashAt(w0, spec, g, w);
    assert w1.proc.Idle? by { Interrupted(w); }
    var g2 := NothingInTheWay(w0, spec, g', w1, draws, 18);
    var b := UndisturbedIsRun(w1, spec, draws, 18);
    ReachedOs(w0, spec, g2, Run(w1, b));
    ls := a + b;
    RunAppend(w0, a, b);
    LostStays(w0, a, b, spec.name);
    assert Through(Run(w0, ls)) by { IsThrough(Run(w0, ls)); }
  }

  lemma IsThrough(w: World)
    requires w.proc.Applying? && w.proc.k == 18
    ensures Through(w)
  {
  }

  lemma Interrupted(w: World)
    ensures Step(w, Crash) == w.(mem := w.disk, proc := Idle)
  {
  }

  lemma Losing(w0: World, spec: Cluster, draws: seq<Draw>) returns (a: seq<Label>)
    requires CanStart(w0, spec) && w0.os.Darwin? && AllocOk(w0.mem, spec, draws)
    ensures (forall l :: l in a ==> Attempt(l, spec)) && LostRun(w0, a, spec.name)
    ensures Run(w0, a) == Step(CreateUpTo(w0, spec, draws, 10), Crash)
  {
    hide Step, Run, CanStart, AllocOk, Unsaved;
    a := CreateLabels(spec, draws, 10) + [Crash];
    CreateIsRun(w0, spec, draws, 10);
    RunSnoc(w0, CreateLabels(spec, draws, 10), Crash);
    UnsavedAfterPublish(w0, spec, draws);
    assert a[..|a| - 1] == CreateLabels(spec, draws, 10);
  }

  // ----- a reservation that is missing -----

  lemma {:induction false} CleanAppend(w: World, a: seq<Label>, b: seq<Label>)
    requires CleanRun(w, a) && CleanRun(Run(w, a), b)
    ensures CleanRun(w, a + b)
    decreases |b|
  {
    hide Step, Clean;
    if b == [] {
      assert a + b == a;
    } else {
      var n := |b| - 1;
      assert (a + b)[..|a + b| - 1] == a + b[..n];
      CleanAppend(w, a, b[..n]);
      RunAppend(w, a, b[..n]);
    }
  }

  lemma CleanSnoc(w: World, a: seq<Label>, l: Label)
    requires CleanRun(w, a) && Clean(Run(w, a), l)
    ensures CleanRun(w, a + [l])
  {
    hide Step, Clean;
    assert (a + [l])[..|a|] == a;
  }

  lemma CleanTwo(w: World, a: seq<Label>, l: Label, m: Label)
    requires CleanRun(w, a) && Clean(Run(w, a), l) && Clean(Step(Run(w, a), l), m)
    ensures CleanRun(w, a + [l, m])
  {
    hide Step, Clean, CleanRun;
    CleanSnoc(w, a, l);
    RunSnoc(w, a, l);
    CleanSnoc(w, a + [l], m);
    assert a + [l] + [m] == a + [l, m];
  }

  /** Labels Clean asks nothing of. */
  predicate Unconditional(l: Label) {
    || l.DoStage? || l.FailStage? || l.Record? || l.Skip? || l.FinishCreate?
    || (l.UndoStage? && l.ok) || l.SkipUndo? || l.Erase? || l.FinishDelete? || l.ResetStep?
  }

  lemma UnconditionalIsClean(w: World, l: Label)
    requires Unconditional(l)
    ensures Clean(w, l)
  {
  }

  lemma {:induction false} UnconditionalRun(w: World, ls: seq<Label>)
    requires forall l :: l in ls ==> Unconditional(l)
    ensures CleanRun(w, ls)
    decreases |ls|
  {
    hide Step, Clean;
    if ls != [] {
      assert forall l :: l in ls[..|ls| - 1] ==> l in ls;
      UnconditionalRun(w, ls[..|ls| - 1]);
      UnconditionalIsClean(Run(w, ls[..|ls| - 1]), ls[|ls| - 1]);
    }
  }

  lemma {:induction false} CleanCreate(w: World, spec: Cluster, draws: seq<Draw>, j: nat)
    requires Clean(w, BeginCreate(spec))
    ensures CleanRun(w, CreateLabels(spec, draws, j))
  {
    hide Step, Clean;
    if j == 0 {
      CleanSnoc(w, [], BeginCreate(spec));
      assert [] + [BeginCreate(spec)] == [BeginCreate(spec)];
    } else {
      CleanCreate(w, spec, draws, j - 1);
      UnconditionalRun(Run(w, CreateLabels(spec, draws, j - 1)), [DoStage(draws, true), Record]);
      CleanAppend(w, CreateLabels(spec, draws, j - 1), [DoStage(draws, true), Record]);
    }
  }

  lemma StartIsClean(w: World, spec: Cluster)
    requires FreshCreate(w, spec) && spec.isNAT
    ensures Clean(w, BeginCreate(spec))
  {
  }

  lemma CrashIsClean(w: World)
    requires !w.proc.Undoing? && !w.proc.Resetting?
    ensures Clean(w, Crash)
  {
  }

  lemma NotRollingBack(w: World, w1: World, d: Cluster, j: nat)
    requires Boundary(w, w1, d, j)
    ensures var p := Step(w1, FailStage(false)).proc; !p.Undoing? && !p.Resetting?
  {
  }

  /** A create that dies after j stages is clean. */
  lemma CleanDeath(w: World, spec: Cluster, draws: seq<Draw>, j: nat)
    requires FreshCreate(w, spec) && spec.isNAT && j < |Pipeline(w.os)| && Enough(w.mem, spec, draws)
    ensures CleanRun(w, CreateLabels(spec, draws, j) + [FailStage(false), Crash])
  {
    hide Step, Run, Clean, FreshCreate, Enough, Boundary, CleanRun, CreateLabels, CreateUpTo;
    StartIsClean(w, spec);
    CleanCreate(w, spec, draws, j);
    CreateIsRun(w, spec, draws, j);
    var d := CreateBoundary(w, spec, draws, j);
    var w1 := CreateUpTo(w, spec, draws, j);
    NotRollingBack(w, w1, d, j);
    UnconditionalIsClean(w1, FailStage(false));
    CrashIsClean(Step(w1, FailStage(false)));
    CleanTwo(w, CreateLabels(spec, draws, j), FailStage(false), Crash);
  }

  /** A clean run into the first window: a delete that has removed the reservation and not yet said so. */
  lemma RollbackWindowReachable(w: World, spec: Cluster, draws: seq<Draw>) returns (ls: seq<Label>)
    requires FreshCreate(w, spec) && spec.isNAT && w.os.Linux? && Enough(w.mem, spec, draws)
    ensures CleanRun(w, ls) && Exposed(Run(w, ls))
  {
    hide Step, Run, Clean, FreshCreate, Enough, CleanRun, Exposed, UndoBoundary;
    var start, skips, d := DeleteDownTo(w, spec, draws, 11);
    CleanDelete(w, spec, draws, skips);
    ls := start + [UndoStage(true, true)];
    RunSnoc(w, start, UndoStage(true, true));
    RemovedNotErased(w, Run(w, start), d);
    CleanSnoc(w, start, UndoStage(true, true));
  }

  lemma RemovedNotErased(w: World, w1: World, d: Cluster)
    requires UndoBoundary(w, w1, d, 11) && w1.proc.k == 11 && w1.proc.cur.isNAT && w.os.Linux?
    ensures Clean(w1, UndoStage(true, true)) && Exposed(Step(w1, UndoStage(true, true)))
  {
    PrefixMember(w.os, 11, 10);
    assert Step(w1, UndoStage(true, true)) == UndoStageStep(w1, true, true);
    assert Pipeline(w.os)[10] == CreateNetwork;
  }

  lemma RecordedPastNetwork(w: World, w1: World, d: Cluster)
    requires Ended(w, w1, d, 11)
    ensures CreateNetwork in Recorded(w1, d.name)
    ensures Clean(w1, BeginDelete(d.name, true)) && Clean(w1, BeginReset({}, true))
  {
    PrefixMember(w.os, 11, 10);
    assert Pipeline(w.os)[10] == CreateNetwork;
  }

  lemma CleanDelete(w: World, spec: Cluster, draws: seq<Draw>, skips: seq<Label>)
    requires FreshCreate(w, spec) && spec.isNAT && Enough(w.mem, spec, draws)
    requires forall l :: l in skips ==> l == SkipUndo
    ensures CleanRun(w, CreateLabels(spec, draws, 11) + [FailStage(false), Crash] +
                        [BeginDelete(spec.name, true)] + skips)
  {
    hide Step, Run, Clean, FreshCreate, Enough, CleanRun, Ended;
    CleanDeath(w, spec, draws, 11);
    var d := EndsAfter(w, spec, draws, 11);
    var a := CreateAndTwo(w, spec, draws, 11, FailStage(false), Crash);
    RecordedPastNetwork(w, Run(w, a), d);
    CleanSnoc(w, a, BeginDelete(spec.name, true));
    UnconditionalRun(Run(w, a + [BeginDelete(spec.name, true)]), skips);
    CleanAppend(w, a + [BeginDelete(spec.name, true)], skips);
  }

  lemma {:induction false} RestoresMember(nats: seq<Cluster>, c: Cluster)
    requires c in nats && PrimaryMAC(c) != "" && PrimaryIP(c) != ""
    ensures Restore(DHCPHost(PrimaryMAC(c), PrimaryIP(c), MasterName(c.name))) in Restores(nats)
  {
    if nats[0] != c {
      RestoresMember(nats[1..], c);
    }
  }

  lemma {:induction false} NoTearDown(nats: seq<Cluster>)
    ensures TearDown !in Restores(nats)
  {
    if nats != [] {
      NoTearDown(nats[1..]);
    }
  }

  /** A clean run into the second: a reset that has torn down a network with an old range. */
  lemma RecreateWindowReachable(w: World, spec: Cluster, draws: seq<Draw>) returns (ls: seq<Label>)
    requires FreshCreate(w, spec) && spec.isNAT && w.os.Linux? && Enough(w.mem, spec, draws) && Outdated(w.net)
    ensures CleanRun(w, ls) && Exposed(Run(w, ls))
  {
    hide Step, Run, Clean, FreshCreate, Enough, CleanRun, Ended, Exposed;
    CleanDeath(w, spec, draws, 11);
    var d := EndsAfter(w, spec, draws, 11);
    var a := CreateAndTwo(w, spec, draws, 11, FailStage(false), Crash);
    RecordedPastNetwork(w, Run(w, a), d);
    CleanSnoc(w, a, BeginReset({}, true));
    RunSnoc(w, a, BeginReset({}, true));
    var b := a + [BeginReset({}, true)];
    UnconditionalIsClean(Run(w, b), ResetStep(true));
    CleanSnoc(w, b, ResetStep(true));
    RunSnoc(w, b, ResetStep(true));
    TornDown(w, Run(w, a), d);
    ls := b + [ResetStep(true)];
  }

  lemma EndedEntry(w: World, w1: World, d: Cluster)
    requires Ended(w, w1, d, 11) && d.isNAT
    ensures w1.proc.Idle? && w1.mem == w1.disk && d in w1.mem.clusters
    ensures w.net.Defined? ==> w1.net.Defined? && w1.net.start == w.net.start
    ensures Addressed(d) && d.masterMAC == ""
  {
    hide Addressed, Reservation, Prefix;
    var cs := w1.mem.clusters;
    assert cs[|cs| - 1] == d;
  }

  lemma ResetStarts(w: World)
    requires w.proc.Idle? && Outdated(w.net)
    ensures var plan := MakePlan(w.mem, w.net, {}, true);
            && plan.recreate
            && Step(w, BeginReset({}, true)) == w.(proc := Resetting(plan, Actions(plan, w.mem.clusters)))
  {
    hide Orphans, KnownIPs, KnownMACs, Actions;
    assert Step(w, BeginReset({}, true)) == BeginResetStep(w, {}, true);
  }

  lemma TornDown(w: World, w1: World, d: Cluster)
    requires Ended(w, w1, d, 11) && d.isNAT && w.os.Linux? && Outdated(w.net)
    ensures Exposed(Step(Step(w1, BeginReset({}, true)), ResetStep(true)))
  {
    hide Step, MakePlan, Clean, Ended, Exposed;
    EndedEntry(w, w1, d);
    ResetStarts(w1);
    RecordedPastNetwork(w, w1, d);
    var nats := NatClusters(w1.mem.clusters);
    RestoresMember(nats, d);
    NoTearDown(nats);
    var plan := MakePlan(w1.mem, w1.net, {}, true);
    AfterTearDown(w1.(proc := Resetting(plan, Actions(plan, w1.mem.clusters))), d, nats);
  }

  lemma AfterTearDown(w: World, d: Cluster, nats: seq<Cluster>)
    requires w.proc.Resetting? && nats != [] && w.proc.todo == [TearDown] + ([Rebuild] + Restores(nats)) + [Prune]
    requires TearDown !in Restores(nats) && Restore(Reservation(d)) in Restores(nats)
    requires d in w.disk.clusters && d.isNAT && CreateNetwork in Recorded(w, d.name)
    ensures Exposed(Step(w, ResetStep(true)))
  {
    hide Reservation, Restores;
    var rest := [Rebuild] + Restores(nats) + [Prune];
    assert w.proc.todo[1..] == rest;
    assert Restore(Reservation(d)) in rest && TearDown !in rest;
    assert Step(w, ResetStep(true)) == ResetStepStep(w, true);
  }
}

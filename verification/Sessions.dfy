/**
 Processes that run one command each (cmd/): load config.json, create or
 delete, end. What the theorems about runs say of their traces, wherever the
 process ends: by returning, with an error, or by dying in between.
 */
module Sessions {
  import opened Text
  import opened Addresses
  import opened Model
  import opened NatReset
  import opened Lifecycle
  import opened Safety
  import opened Records
  import opened Reservations
  import opened RoundTrip
  import opened Resume
  import opened Retry
  import opened Leftovers
  import opened Traces

  // ----- the end of a process -----

  /** A trace without the error return that may end it. */
  function Settled(trace: seq<Label>): seq<Label> {
    if trace != [] && trace[|trace| - 1] == Abort then trace[..|trace| - 1] else trace
  }

  lemma GivesUp(w: World)
    ensures Step(w, Abort) == w.(proc := Idle)
  {
  }

  lemma SettledExact(trace: seq<Label>)
    ensures Settled(trace) == trace || Settled(trace) + [Abort] == trace
  {
  }

  lemma SettledWorld(w: World, trace: seq<Label>)
    ensures Run(w, trace) == Run(w, Settled(trace)).(proc := Run(w, trace).proc)
  {
    hide Run, Step, Settled;
    SettledExact(trace);
    RunSnoc(w, Settled(trace), Abort);
    GivesUp(Run(w, Settled(trace)));
  }

  /** For the next process it makes no difference whether the last one gave up or died. */
  lemma ProcessEnds(w: World, trace: seq<Label>)
    ensures Step(Run(w, trace), Crash) == Run(w, Settled(trace) + [Crash])
    ensures Step(Run(w, trace), Crash) == Run(w, trace).(mem := Run(w, trace).disk, proc := Idle)
  {
    hide Run, Step, Settled;
    SettledWorld(w, trace);
    RunSnoc(w, Settled(trace), Crash);
    Interrupted(Run(w, trace));
    Interrupted(Run(w, Settled(trace)));
  }

  /** What a create may have done when its process ends. */
  predicate CreatePart(spec: Cluster, part: seq<Label>) {
    part != [] ==> part[0] == BeginCreate(spec)
                   && forall i :: 1 <= i < |part| ==> OfCreate(part[i]) || part[i].FinishCreate?
  }

  /** ... and a delete. */
  predicate DeletePart(name: string, part: seq<Label>) {
    part != [] ==> part[0].BeginDelete? && part[0].name == name
                   && forall i :: 1 <= i < |part| ==> OfDelete(part[i]) || part[i].FinishDelete?
  }

  /** Death may cut a create short after any number of actions. */
  lemma PartOfCreate(spec: Cluster, trace: seq<Label>, ok: bool, k: nat)
    requires CreateTrace(spec, trace, ok) && k <= |trace|
    ensures CreatePart(spec, Settled(trace[..k]))
  {
    var part := Settled(trace[..k]);
    forall i | 1 <= i < |part| ensures OfCreate(part[i]) || part[i].FinishCreate? {
      assert part[i] == trace[i] == trace[1..][i - 1];
    }
  }

  lemma PartOfDelete(name: string, trace: seq<Label>, ok: bool, k: nat)
    requires DeleteTrace(name, trace, ok) && k <= |trace|
    ensures DeletePart(name, Settled(trace[..k]))
  {
    var part := Settled(trace[..k]);
    forall i | 1 <= i < |part| ensures OfDelete(part[i]) || part[i].FinishDelete? {
      assert part[i] == trace[i] == trace[1..][i - 1];
    }
  }

  // ----- creates, one after the other -----

  lemma CreatesAreAttempts(spec: Cluster, part: seq<Label>)
    requires CreatePart(spec, part)
    ensures forall l :: l in part + [Crash] ==> Attempt(l, spec)
  {
  }

  /** The labels with which a create that is through ends, and its process. */
  function Finished(pre: seq<Label>): seq<Label> {
    pre + [FinishCreate(true)] + [Crash]
  }

  /** After a process that finished its create the host is as one clean create leaves it, unless something was lost. */
  lemma FinishedIsClean(w0: World, spec: Cluster, pre: seq<Label>)
    requires CanStart(w0, spec) && (forall l :: l in pre ==> Attempt(l, spec)) && Through(Run(w0, pre))
    ensures (exists draws :: AllocOk(w0.mem, spec, draws) &&
                             Run(w0, Finished(pre)) == CreateCommand(w0, spec, draws, |Pipeline(w0.os)|, false))
            <==> !LostRun(w0, Finished(pre), spec.name)
  {
    hide Step, Run, CanStart, Reached, AllocOk, LostRun, CreateCommand, FinalWorld, Finished;
    var g := FinishedLevel(w0, spec, pre);
    FinishedExact(w0, spec, g, Run(w0, Finished(pre)));
    forall draws | AllocOk(w0.mem, spec, draws)
      ensures CreateCommand(w0, spec, draws, |Pipeline(w0.os)|, false) == FinalWorld(w0, spec, draws)
    {
      CleanCommand(w0, spec, draws);
    }
  }

  lemma FinishedLevel(w0: World, spec: Cluster, pre: seq<Label>) returns (g: At)
    requires CanStart(w0, spec) && (forall l :: l in pre ==> Attempt(l, spec)) && Through(Run(w0, pre))
    ensures Reached(w0, spec, g, Run(w0, Finished(pre))) && Run(w0, Finished(pre)).proc.Idle? && g.n == 18
    ensures g.lost <==> LostRun(w0, Finished(pre), spec.name)
  {
    hide Step, Run, CanStart, Reached, Unsaved, LostRun;
    g := RunAt(w0, spec, pre);
    RunSnoc(w0, pre, FinishCreate(true));
    RunSnoc(w0, pre + [FinishCreate(true)], Crash);
    LostByPrefix(w0, pre, spec.name);
    g := FinishedAt(w0, spec, g, Run(w0, pre));
  }

  /** Finishing, and the process ending, after the last stage. */
  lemma FinishedAt(w0: World, spec: Cluster, g: At, w: World) returns (g': At)
    requires CanStart(w0, spec) && Reached(w0, spec, g, w) && w.proc.Applying? && w.proc.k == 18
    ensures var w1 := Step(w, FinishCreate(true));
            && Reached(w0, spec, g', Step(w1, Crash)) && Step(w1, Crash).proc.Idle? && g'.n == 18 && g'.draws == g.draws
            && (g'.lost <==> g.lost || Unsaved(w1, spec.name))
  {
    var w1 := FinishCreateStep(w, true);
    FinishAt(w0, spec, g, w, true);
    assert Step(w, FinishCreate(true)) == w1;
    CrashAt(w0, spec, g, w1);
    g' := g.(lost := g.lost || Unsaved(w1, spec.name));
  }

  lemma FinishedExact(w0: World, spec: Cluster, g: At, w: World)
    requires CanStart(w0, spec) && Reached(w0, spec, g, w) && w.proc.Idle? && g.n == 18
    ensures AllocOk(w0.mem, spec, g.draws)
    ensures !g.lost ==> w == FinalWorld(w0, spec, g.draws)
    ensures g.lost ==> forall draws :: w != FinalWorld(w0, spec, draws)
  {
    LevelsStable(w0, spec, g.draws, 18, g.vmBoot);
    if g.lost {
      BootRefNonempty(w0.os, spec.name);
      var n := |w0.mem.clusters|;
      assert w.disk.clusters[n].boot == "";
      forall draws ensures w != FinalWorld(w0, spec, draws) {
        assert FinalWorld(w0, spec, draws).disk.clusters[n].boot == BootRef(w0.os, spec.name);
      }
    }
  }

  lemma LostByPrefix(w: World, pre: seq<Label>, name: string)
    ensures var w1 := Run(w, pre + [FinishCreate(true)]);
            LostRun(w, pre + [FinishCreate(true)] + [Crash], name) <==> LostRun(w, pre, name) || Unsaved(w1, name)
  {
    hide Run, Unsaved;
    var a := pre + [FinishCreate(true)];
    assert a[..|a| - 1] == pre && (a + [Crash])[..|a|] == a;
  }

  lemma CleanCommand(w0: World, spec: Cluster, draws: seq<Draw>)
    requires CanStart(w0, spec) && AllocOk(w0.mem, spec, draws)
    ensures CreateCommand(w0, spec, draws, |Pipeline(w0.os)|, false) == FinalWorld(w0, spec, draws)
  {
    hide Step, CanStart, AllocOk, Reached;
    var c := CleanAt(w0, spec, draws, 18);
    ThroughIsFinal(w0, spec, c, CreateUpTo(w0, spec, draws, 18));
    FinalStays(w0, spec, draws);
  }

  lemma FinalStays(w0: World, spec: Cluster, draws: seq<Draw>)
    ensures Step(FinalWorld(w0, spec, draws), Crash) == FinalWorld(w0, spec, draws)
  {
  }

  // ----- reservations -----

  lemma {:induction false} CreateStays(w: World, spec: Cluster, part: seq<Label>)
    requires w.proc.Idle? && CreatePart(spec, part)
    ensures var p := Run(w, part).proc; !p.Undoing? && !p.Resetting?
    decreases |part|
  {
    hide Step;
    if part != [] {
      var n := |part| - 1;
      CreateStays(w, spec, part[..n]);
      StillCreating(Run(w, part[..n]), part[n]);
    }
  }

  lemma StillCreating(w: World, l: Label)
    requires !w.proc.Undoing? && !w.proc.Resetting? && (l.BeginCreate? || OfCreate(l) || l.FinishCreate?)
    ensures !Step(w, l).proc.Undoing? && !Step(w, l).proc.Resetting?
  {
  }

  /** What a create relies on, besides bridge addresses from outside the pools: no state.json without a cluster. */
  ghost predicate NoStaleRecord(w: World, name: string) {
    Has(w.mem.clusters, name) || name !in w.recs
  }

  /** Wherever a create's process ends, even by dying, reservations are consistent. */
  lemma CreateStaysConsistent(w: World, spec: Cluster, part: seq<Label>)
    requires Consistent(w) && w.mem == w.disk && CreatePart(spec, part)
    requires BridgeOutside(BeginCreate(spec)) && NoStaleRecord(w, spec.name)
    ensures CleanRun(w, part + [Crash]) && Consistent(Run(w, part + [Crash]))
  {
    assert w.proc.Idle? && (part != [] ==> Clean(w, BeginCreate(spec)));
    hide Step, Run, Clean, CleanRun, Consistent;
    CreateIsClean(w, spec, part);
    CreateStays(w, spec, part);
    CrashIsClean(Run(w, part));
    CleanSnoc(w, part, Crash);
    EndsIdle(w, part);
    ReservationsConsistent(w, part + [Crash]);
  }

  lemma EndsIdle(w: World, part: seq<Label>)
    ensures Run(w, part + [Crash]).proc.Idle? && Run(w, part + [Crash]) == Step(Run(w, part), Crash)
    ensures var w' := Run(w, part + [Crash]); w'.mem == w'.disk
  {
    hide Run;
    RunSnoc(w, part, Crash);
  }

  lemma CreateIsClean(w: World, spec: Cluster, part: seq<Label>)
    requires CreatePart(spec, part) && (part != [] ==> Clean(w, BeginCreate(spec)))
    ensures CleanRun(w, part)
  {
    if part != [] {
      FirstThenRest(w, part);
    }
  }

  /** A clean first label, and others Clean asks nothing of. */
  lemma FirstThenRest(w: World, part: seq<Label>)
    requires part != [] && Clean(w, part[0]) && forall i :: 1 <= i < |part| ==> Unconditional(part[i])
    ensures CleanRun(w, part)
  {
    hide Step, Clean, Unconditional;
    var rest := part[1..];
    CleanSnoc(w, [], part[0]);
    UnconditionalRun(Run(w, [part[0]]), rest);
    assert [] + [part[0]] == [part[0]];
    CleanAppend(w, [part[0]], rest);
    assert [part[0]] + rest == part;
  }

  /**
   A delete whose rollbacks came back without error: wherever its process ends,
   reservations are consistent unless that is inside the window; a delete that
   ran to its end never is.
   */
  lemma DeleteStaysConsistent(w: World, name: string, part: seq<Label>)
    requires Consistent(w) && w.mem == w.disk && KnownToDelete(w, name) && DeletePart(name, part) && Answered(part)
    ensures NetConsistent(Run(w, part + [Crash])) <==> !Exposed(Run(w, part))
    ensures !Exposed(Run(w, part)) ==> Consistent(Run(w, part + [Crash]))
    ensures Run(w, part).proc.Idle? ==> !Exposed(Run(w, part))
  {
    assert part != [] ==> Clean(w, part[0]);
    assert Run(w, part).proc.Idle? ==> !Exposed(Run(w, part));
    hide Step, Run, Clean, CleanRun, Consistent, Exposed;
    DeleteIsClean(w, name, part);
    ConsistentIsRes(w);
    RunRes(w, part);
    EndsIdle(w, part);
    DeathExact(Run(w, part));
    if !Exposed(Run(w, part)) {
      DeathIsClean(Run(w, part));
      CleanSnoc(w, part, Crash);
      ReservationsConsistent(w, part + [Crash]);
    }
  }

  lemma DeathIsClean(w: World)
    requires !Exposed(w)
    ensures Clean(w, Crash)
  {
  }

  lemma ConsistentIsRes(w: World)
    requires Consistent(w)
    ensures ResOk(w)
  {
  }

  lemma DeleteIsClean(w: World, name: string, part: seq<Label>)
    requires DeletePart(name, part) && Answered(part) && (part != [] ==> Clean(w, part[0]))
    ensures CleanRun(w, part)
  {
    hide Clean, CleanRun;
    if part != [] {
      forall i | 1 <= i < |part| ensures Unconditional(part[i]) {
        assert part[i] in part;
      }
      FirstThenRest(w, part);
    } else {
      NothingIsClean(w);
    }
  }

  lemma NothingIsClean(w: World)
    ensures CleanRun(w, [])
  {
  }

  // ----- create, then delete -----

  /** Which create of RoundTrip a process is following: draws, stages done, and how the next one failed. */
  datatype Track = Track(draws: seq<Draw>, j: nat, partial: bool)

  ghost predicate Follows(w: World, spec: Cluster, x: World, t: Track) {
    && x.os == w.os && t.j <= |Pipeline(w.os)| && (t.j >= 2 ==> Enough(w.mem, spec, t.draws))
    && match x.proc
       case Applying(_, _, _, done) =>
         var c := CreateUpTo(w, spec, t.draws, t.j);
         if done then t.j < |Pipeline(w.os)| && c.proc.Applying? && c.proc.k == t.j && c.os == w.os
                      && x == DoStageStep(c, t.draws, true) && (t.j == 1 ==> Enough(w.mem, spec, t.draws))
         else x == c
       case Failed | Idle => Step(x, Crash) == CreateCommand(w, spec, t.draws, t.j, t.partial)
       case _ => false
  }

  lemma BoundaryShape(w: World, spec: Cluster, t: Track)
    requires FreshCreate(w, spec) && t.j <= |Pipeline(w.os)| && (t.j >= 2 ==> Enough(w.mem, spec, t.draws))
    ensures var x := CreateUpTo(w, spec, t.draws, t.j);
            && x.os == w.os && x.proc.Applying? && !x.proc.done && x.proc.k == t.j
            && (t.j < |Pipeline(w.os)| ==> Pipeline(w.os)[t.j] !in x.proc.rec)
  {
    var d := CreateBoundary(w, spec, t.draws, t.j);
    if t.j < |Pipeline(w.os)| {
      PrefixMember(w.os, t.j, t.j);
    }
  }

  /** Only allocate-network draws. */
  lemma DrawsIrrelevant(os: OS, s: Stage, a: seq<Draw>, b: seq<Draw>, v: View)
    requires s != AllocateNetwork
    ensures Apply(os, s, a, v) == Apply(os, s, b, v)
  {
  }

  lemma EarlySame(w: World, spec: Cluster, a: seq<Draw>, b: seq<Draw>)
    requires FreshCreate(w, spec)
    ensures CreateUpTo(w, spec, a, 1) == CreateUpTo(w, spec, b, 1)
  {
    BoundaryShape(w, spec, Track(a, 0, false));
    var x := CreateUpTo(w, spec, a, 0);
    DrawsIrrelevant(w.os, RegisterCluster, a, b, ViewOf(x));
    assert Step(x, DoStage(a, true)) == DoStageStep(x, a, true) == DoStageStep(x, b, true) == Step(x, DoStage(b, true));
  }

  /** What a first allocation finds. */
  lemma BeforeAllocation(w: World, spec: Cluster, a: seq<Draw>)
    requires FreshCreate(w, spec)
    ensures var x := CreateUpTo(w, spec, a, 1);
            && x.proc.Applying? && x.proc.k == 1
            && x.proc.cur.macs == [] && x.proc.cur.nodes == 1 && x.proc.cur.isNAT == spec.isNAT
            && x.mem.usedMACs == w.mem.usedMACs && x.mem.usedIPs == w.mem.usedIPs
  {
    var d := CreateBoundary(w, spec, a, 1);
    hide FreshCreate, NetMid, VmsMid, CreateUpTo;
    assert Elems([]) == {};
  }

  /** An allocation that succeeded had enough addresses. */
  lemma SucceededHadEnough(w: World, spec: Cluster, a: seq<Draw>, b: seq<Draw>)
    requires FreshCreate(w, spec)
    ensures var x := CreateUpTo(w, spec, a, 1);
            x.proc.Applying? && x.proc.k == 1 && (!DoStageStep(x, b, true).proc.Failed? ==> Enough(w.mem, spec, b))
  {
    hide FreshCreate, CreateUpTo;
    BeforeAllocation(w, spec, a);
    var x := CreateUpTo(w, spec, a, 1);
    AllocatesExact(ViewOf(x), b);
    hide Apply, Saves;
    assert Pipeline(x.os)[1] == AllocateNetwork;
  }

  /** A stage that came back with an error, from whatever cause, leaves the next process what a failed stage leaves. */
  lemma FailedIsFailed(x: World, draws: seq<Draw>, saved: bool)
    requires x.proc.Applying? && x.proc.k < |Pipeline(x.os)| && DoStageStep(x, draws, saved).proc.Failed?
    ensures Step(DoStageStep(x, draws, saved), Crash) == Step(FailStageStep(x, false), Crash)
  {
    FailingApply(x.os, Pipeline(x.os)[x.proc.k], draws, ViewOf(x));
    hide Apply, Saves;
  }

  lemma StageFollows(w: World, spec: Cluster, t: Track, draws: seq<Draw>, saved: bool) returns (t': Track)
    requires FreshCreate(w, spec) && t.j < |Pipeline(w.os)| && (t.j >= 2 ==> Enough(w.mem, spec, t.draws))
    ensures Follows(w, spec, Step(CreateUpTo(w, spec, t.draws, t.j), DoStage(draws, saved)), t')
  {
    var x := CreateUpTo(w, spec, t.draws, t.j);
    BoundaryShape(w, spec, t);
    hide CreateUpTo, FreshCreate, Enough;
    assert Step(x, DoStage(draws, saved)) == DoStageStep(x, draws, saved);
    assert Step(x, FailStage(false)) == FailStageStep(x, false);
    if DoStageStep(x, draws, saved).proc.Failed? {
      FailedIsFailed(x, draws, saved);
      t' := t.(partial := false);
      FailsAs(w, spec, t', DoStageStep(x, draws, saved));
    } else {
      assert DoStageStep(x, draws, saved) == DoStageStep(x, draws, true);
      t' := AppliesAs(w, spec, t, draws);
    }
  }

  lemma FailsAs(w: World, spec: Cluster, t: Track, x': World)
    requires t.j < |Pipeline(w.os)| && (t.j >= 2 ==> Enough(w.mem, spec, t.draws))
    requires x'.proc.Failed? && x'.os == w.os
    requires Step(x', Crash) == Step(Step(CreateUpTo(w, spec, t.draws, t.j), FailStage(t.partial)), Crash)
    ensures Follows(w, spec, x', t)
  {
    hide Step, CreateUpTo, Enough;
  }

  lemma AppliesAs(w: World, spec: Cluster, t: Track, draws: seq<Draw>) returns (t': Track)
    requires FreshCreate(w, spec) && t.j < |Pipeline(w.os)| && (t.j >= 2 ==> Enough(w.mem, spec, t.draws))
    requires var x := CreateUpTo(w, spec, t.draws, t.j);
             x.proc.Applying? && x.proc.k == t.j && x.os == w.os && !DoStageStep(x, draws, true).proc.Failed?
    ensures Follows(w, spec, DoStageStep(CreateUpTo(w, spec, t.draws, t.j), draws, true), t')
  {
    var x := CreateUpTo(w, spec, t.draws, t.j);
    if t.j == 1 {
      t' := t.(draws := draws);
      EarlySame(w, spec, t.draws, draws);
      SucceededHadEnough(w, spec, t.draws, draws);
    } else {
      t' := t;
      StagesDistinct(w.os);
      assert Pipeline(w.os)[t.j] != AllocateNetwork;
      DrawsIrrelevant(w.os, Pipeline(w.os)[t.j], draws, t.draws, ViewOf(x));
    }
    hide CreateUpTo, FreshCreate, Enough, Apply, Saves;
  }

  lemma {:induction false} RecordFollows(w: World, spec: Cluster, t: Track)
    requires FreshCreate(w, spec) && t.j < |Pipeline(w.os)| && (t.j >= 1 ==> Enough(w.mem, spec, t.draws))
    ensures var x := CreateUpTo(w, spec, t.draws, t.j);
            && x.proc.Applying? && x.proc.k < |Pipeline(x.os)|
            && Follows(w, spec, Step(DoStageStep(x, t.draws, true), Record), t.(j := t.j + 1))
  {
    BoundaryShape(w, spec, t);
    BoundaryShape(w, spec, t.(j := t.j + 1));
    hide FreshCreate, Enough, DoStageStep;
    var x := CreateUpTo(w, spec, t.draws, t.j);
    assert Step(x, DoStage(t.draws, true)) == DoStageStep(x, t.draws, true);
  }

  /** Finalize has set the state, so finishing a create is only its end. */
  lemma RunningAtEnd(w: World, spec: Cluster, draws: seq<Draw>)
    requires FreshCreate(w, spec) && Enough(w.mem, spec, draws)
    ensures var x := CreateUpTo(w, spec, draws, 18); x.proc.Applying? && x.proc.cur.state == Running
  {
    BoundaryShape(w, spec, Track(draws, 17, false));
    BoundaryShape(w, spec, Track(draws, 18, false));
    var x := CreateUpTo(w, spec, draws, 17);
    hide FreshCreate, Enough;
    assert Step(x, DoStage(draws, true)) == DoStageStep(x, draws, true);
    FinalizeSets(x, draws);
    assert CreateUpTo(w, spec, draws, 18) == Step(Step(x, DoStage(draws, true)), Record);
  }

  lemma FinalizeSets(x: World, draws: seq<Draw>)
    requires x.proc.Applying? && x.proc.k == 17
    ensures var x' := DoStageStep(x, draws, true);
            x'.proc.Applying? && x'.proc.done && x'.proc.k == 17 && x'.proc.cur.state == Running
  {
  }

  /** From the boundary between two stages, whatever comes next. */
  lemma BoundaryFollows(w: World, spec: Cluster, t: Track, l: Label) returns (t': Track)
    requires FreshCreate(w, spec) && t.j <= |Pipeline(w.os)| && (t.j >= 2 ==> Enough(w.mem, spec, t.draws))
    requires OfCreate(l) || l.FinishCreate?
    ensures Follows(w, spec, Step(CreateUpTo(w, spec, t.draws, t.j), l), t')
  {
    var x := CreateUpTo(w, spec, t.draws, t.j);
    BoundaryShape(w, spec, t);
    t' := t;
    if t.j < |Pipeline(w.os)| {
      if l.DoStage? {
        t' := StageFollows(w, spec, t, l.draws, l.saved);
      } else if l.FailStage? {
        t' := t.(partial := l.partial);
        hide CreateUpTo, FreshCreate, Enough;
        FailsAs(w, spec, t', Step(x, l));
      }
    } else if l.FinishCreate? {
      RunningAtEnd(w, spec, t.draws);
      hide CreateUpTo, FreshCreate, Enough;
      assert Step(x, l) == x.(proc := Idle) == Step(x, FinishCreate(true));
    }
  }

  lemma FollowsOn(w: World, spec: Cluster, x: World, t: Track, l: Label) returns (t': Track)
    requires FreshCreate(w, spec) && Follows(w, spec, x, t) && (OfCreate(l) || l.FinishCreate?)
    ensures Follows(w, spec, Step(x, l), t')
  {
    t' := t;
    if x.proc.Applying? {
      if !x.proc.done {
        t' := BoundaryFollows(w, spec, t, l);
      } else if l.Record? {
        RecordFollows(w, spec, t);
        t' := t.(j := t.j + 1);
      } else {
        StageIsDone(CreateUpTo(w, spec, t.draws, t.j), t.draws, l);
      }
    }
  }

  lemma StageIsDone(c: World, draws: seq<Draw>, l: Label)
    requires c.proc.Applying? && c.proc.k < |Pipeline(c.os)| && (OfCreate(l) || l.FinishCreate?) && !l.Record?
    requires DoStageStep(c, draws, true).proc.Applying?
    ensures Step(DoStageStep(c, draws, true), l) == DoStageStep(c, draws, true)
  {
    hide Apply, Saves;
  }

  lemma {:induction false} FollowsRun(w: World, spec: Cluster, part: seq<Label>) returns (t: Track)
    requires FreshCreate(w, spec) && CreatePart(spec, part) && part != []
    ensures Follows(w, spec, Run(w, part), t)
    decreases |part|
  {
    var n := |part| - 1;
    if n == 0 {
      t := Track([], 0, false);
      BoundaryShape(w, spec, t);
      assert part[..0] == [] && Run(w, part) == CreateUpTo(w, spec, [], 0);
    } else {
      t := FollowsRun(w, spec, part[..n]);
      hide Step, FreshCreate, Follows;
      t := FollowsOn(w, spec, Run(w, part[..n]), t, part[n]);
    }
  }

  /** A stage was applied, but state.json does not say so. */
  predicate Unrecorded(w: World) {
    w.proc.Applying? && w.proc.done
  }

  /**
   Wherever the process of a create ends, unless between a stage and its
   record, it leaves what a create of RoundTrip leaves.
   */
  lemma CreateEndsAsCommand(w: World, spec: Cluster, part: seq<Label>) returns (t: Track)
    requires FreshCreate(w, spec) && CreatePart(spec, part) && !Unrecorded(Run(w, part))
    ensures t.j <= |Pipeline(w.os)| && (t.j >= 2 ==> Enough(w.mem, spec, t.draws))
    ensures Run(w, part + [Crash]) == CreateCommand(w, spec, t.draws, t.j, t.partial)
  {
    EndsIdle(w, part);
    if part == [] {
      t := Track([], 0, false);
      BoundaryShape(w, spec, t);
      StoppedBetween(CreateUpTo(w, spec, [], 0));
      StartAndDie(w, spec);
    } else {
      t := FollowsRun(w, spec, part);
      var x := Run(w, part);
      if x.proc.Applying? {
        t := t.(partial := false);
        BoundaryShape(w, spec, t);
        StoppedBetween(x);
        if t.j == |Pipeline(w.os)| {
          RunningAtEnd(w, spec, t.draws);
          StoppedAtEnd(x);
        }
      }
    }
  }

  /** Dying between two stages, and failing without effect in the next one. */
  lemma StoppedBetween(x: World)
    requires x.proc.Applying? && !x.proc.done
    requires x.proc.k < |Pipeline(x.os)| ==> Pipeline(x.os)[x.proc.k] !in x.proc.rec
    ensures x.proc.k < |Pipeline(x.os)| ==> Step(x, Crash) == Step(Step(x, FailStage(false)), Crash)
  {
  }

  lemma StoppedAtEnd(x: World)
    requires x.proc.Applying? && x.proc.k == |Pipeline(x.os)| && x.proc.cur.state == Running
    ensures Step(x, Crash) == Step(Step(x, FinishCreate(true)), Crash)
  {
  }

  lemma StartAndDie(w: World, spec: Cluster)
    requires w.proc.Idle? && w.mem == w.disk
    ensures Step(Step(w, BeginCreate(spec)), Crash) == w == Step(w, Crash)
  {
  }

  /** A delete on its way: what rolling back the rest leads to does not change. */
  ghost predicate Unwinding(x: World, end: World) {
    x.proc.Undoing? && x.proc.k <= |Pipeline(x.os)| &&
    if x.proc.done then x.proc.k > 0 && RollbackLoop(EraseStep(x)) == end else RollbackLoop(x) == end
  }

  /** The last save makes up for those that failed on the way. */
  lemma {:induction false} LoopIgnoresDisk(x: World, disk: Cfg)
    requires x.proc.Undoing? && !x.proc.done && x.proc.k <= |Pipeline(x.os)|
    ensures RollbackLoop(x.(disk := disk)) == RollbackLoop(x)
    decreases x.proc.k
  {
    var y := x.(disk := disk);
    if x.proc.k > 0 {
      if Pipeline(x.os)[x.proc.k - 1] in x.proc.rec {
        var x1, y1 := EraseStep(UndoStageStep(x, true, true)), EraseStep(UndoStageStep(y, true, true));
        assert y1 == x1.(disk := y1.disk);
        LoopIgnoresDisk(x1, y1.disk);
      } else {
        assert Step(y, SkipUndo) == Step(x, SkipUndo).(disk := disk);
        LoopIgnoresDisk(Step(x, SkipUndo), disk);
      }
    }
  }

  lemma UnwindingOn(x: World, end: World, l: Label)
    requires Unwinding(x, end) && OfDelete(l) && (l.UndoStage? ==> l.ok)
    ensures Unwinding(Step(x, l), end)
  {
    if l.UndoStage? && !x.proc.done && x.proc.k > 0 && Pipeline(x.os)[x.proc.k - 1] in x.proc.rec {
      var x1 := UndoStageStep(x, true, l.saved);
      var y1 := UndoStageStep(x, true, true);
      assert Step(x, l) == x1;
      assert EraseStep(x1) == EraseStep(y1).(disk := x1.disk);
      LoopIgnoresDisk(EraseStep(y1), x1.disk);
    }
  }

  lemma {:induction false} UnwindingRun(x: World, end: World, ls: seq<Label>)
    requires Unwinding(x, end) && Answered(ls) && forall i :: 0 <= i < |ls| ==> OfDelete(ls[i])
    ensures Unwinding(Run(x, ls), end)
    decreases |ls|
  {
    if ls != [] {
      var n := |ls| - 1;
      assert forall l :: l in ls[..n] ==> l in ls;
      UnwindingRun(x, end, ls[..n]);
      hide Step, Unwinding;
      assert ls[n] in ls;
      UnwindingOn(Run(x, ls[..n]), end, ls[n]);
    }
  }

  /** A delete that ran to its end, no rollback failing, leaves what the delete of RoundTrip leaves. */
  lemma DeleteEndsAsCommand(w: World, name: string, steps: seq<Label>)
    requires Answered(steps) && Ending(steps, false, FinishDelete(true))
    requires var w1 := Step(w, BeginDelete(name, true));
             w1.proc.Undoing? && !w1.proc.done && w1.proc.k == |Pipeline(w1.os)|
    requires var last := Run(Step(w, BeginDelete(name, true)), steps[..|steps| - 1]).proc; last.Undoing? && last.k == 0
    ensures Step(Run(Step(w, BeginDelete(name, true)), steps), Crash) == DeleteCommand(w, name)
  {
    hide Step;
    var w1 := Step(w, BeginDelete(name, true));
    var n := |steps| - 1;
    assert forall l :: l in steps[..n] ==> l in steps;
    UnwindingRun(w1, RollbackLoop(w1), steps[..n]);
  }

  lemma NotListed(w: World, spec: Cluster, part: seq<Label>)
    requires FreshCreate(w, spec) && CreatePart(spec, part) && !Unrecorded(Run(w, part))
    requires !Has(Run(w, part + [Crash]).mem.clusters, spec.name)
    ensures Restored(w, Run(w, part + [Crash]))
  {
    EndsIdle(w, part);
    var t := CreateEndsAsCommand(w, spec, part);
    hide Run, FreshCreate, Unrecorded, CreatePart, CreateCommand;
    CreateThenDelete(w, spec, t.draws, t.j, t.partial);
    NothingListed(Run(w, part + [Crash]), spec.name);
  }

  lemma NothingListed(w: World, name: string)
    requires w.proc.Idle? && !Has(w.mem.clusters, name)
    ensures DeleteCommand(w, name) == w
  {
  }

  /**
   A create and then a delete, each in its own process. However the create's
   process ended, as long as that was not between a stage and its record, and
   whatever saves the delete met: if the delete ran to its end and no rollback
   failed, everything easyshift owns is as it was.
   */
  lemma ProcessesRestore(w: World, spec: Cluster, part: seq<Label>, steps: seq<Label>)
    requires FreshCreate(w, spec) && CreatePart(spec, part) && !Unrecorded(Run(w, part))
    requires Has(Run(w, part + [Crash]).mem.clusters, spec.name)
    requires Answered(steps) && Ending(steps, false, FinishDelete(true))
    requires var last := Run(Step(Run(w, part + [Crash]), BeginDelete(spec.name, true)), steps[..|steps| - 1]).proc;
             last.Undoing? && last.k == 0
    ensures Restored(w, Step(Run(Step(Run(w, part + [Crash]), BeginDelete(spec.name, true)), steps), Crash))
  {
    EndsIdle(w, part);
    var t := CreateEndsAsCommand(w, spec, part);
    var w1 := Run(w, part + [Crash]);
    hide Run, FreshCreate, Unrecorded, CreatePart;
    CreateThenDelete(w, spec, t.draws, t.j, t.partial);
    BeginsUndoing(w1, spec.name);
    DeleteEndsAsCommand(w1, spec.name, steps);
  }

  lemma BeginsUndoing(w: World, name: string)
    requires w.proc.Idle? && Has(w.mem.clusters, name)
    ensures var w1 := Step(w, BeginDelete(name, true));
            w1.proc.Undoing? && !w1.proc.done && w1.proc.k == |Pipeline(w1.os)|
  {
  }
}

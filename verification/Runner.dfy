/**
 The resumable stage engine as it runs (app/runner.go): loops over the
 pipeline that keep state.json in step. Every execution is proved to be a run
 of the state machine of Lifecycle, so what is proved of runs holds of it.
 */
module Runner {
  import opened Text
  import opened Addresses
  import opened Model
  import opened Lifecycle
  import opened Traces
  import opened Config
  import opened Allocator
  import opened Stages

  /** The recorded stages from position i on, last first: what Rollback has called when it gets down to i. */
  function Called(stages: seq<Stage>, rec: set<Stage>, i: nat): seq<Stage>
    requires i <= |stages|
    decreases |stages| - i
  {
    if i == |stages| then []
    else Called(stages, rec, i + 1) + (if stages[i] in rec then [stages[i]] else [])
  }

  /** Each system's pipeline has its own boot media stage. */
  lemma OneBootStage(os: OS, s: Stage)
    requires s in Pipeline(os)
    ensures s == PublishPXEAssets ==> os.Darwin?
    ensures s == EmbedIgnitionISO ==> os.Linux?
  {
  }

  class Runner {
    const ctx: Context
    ghost var Where: Proc   // where the running command is

    constructor (ctx: Context)
      ensures this.ctx == ctx && Where == Idle
    {
      this.ctx := ctx;
      Where := Idle;
    }

    /** The world of the state machine that this process and its host are in. */
    ghost function W(): World
      reads this, ctx.cfg, ctx.cfg.Clusters, ctx.host
    {
      World(ctx.os, ctx.cfg.Memory(), ctx.cfg.File, ctx.host.StateFiles, ctx.host.Net, ctx.host.VMs, Where)
    }

    method LoadState(name: string) returns (state: set<Stage>)
      ensures state == Recorded(W(), name)
    {
      state := if name in ctx.host.StateFiles then ctx.host.StateFiles[name] else {};
    }

    method SaveState(name: string, state: set<Stage>) returns (ok: bool)
      modifies ctx.host`StateFiles, ctx.host`Trouble
      ensures ctx.host.StateFiles == if ok then old(ctx.host.StateFiles)[name := state] else old(ctx.host.StateFiles)
      ensures ctx.host.Trouble == (old(ctx.host.Trouble) || !ok)
    {
      ok := ctx.host.Call();
      if ok {
        ctx.host.StateFiles := ctx.host.StateFiles[name := state];
      }
    }

    /** s.Apply for each stage of the pipeline; stages outside the model may fail but change nothing modelled. */
    method ApplyStage(c: ClusterConfig, s: Stage) returns (ok: bool, ghost l: Label)
      requires ctx.Ready(c) && s in Pipeline(ctx.os)
      modifies ctx.cfg, c, ctx.alloc, ctx.host`Net, ctx.host`VMs, ctx.host`Trouble
      ensures ctx.Ready(c) && c.Name == old(c.Name)
      ensures Applied(ctx.os, s, l, old(ctx.V(c)), old(ctx.cfg.File), ctx.V(c), ctx.cfg.File, ok)
      ensures old(ctx.Trouble()) ==> ctx.Trouble()
      ensures !ctx.Trouble() ==> l == DoStage(if s == AllocateNetwork then old(ctx.alloc.random) else [], true)
      ensures s != AllocateNetwork ==> ctx.alloc.random == old(ctx.alloc.random)
    {
      hide Lifecycle.Apply, Saves, Applied, Pipeline;
      if s in {RegisterCluster, AllocateNetwork, EmbedIgnitionISO, PublishPXEAssets, MergeKubeconfig, Finalize} {
        ok, l := ConfigApply(c, s);
      } else {
        ok, l := HostApply(c, s);
      }
    }

    /** The stages that work on the config. */
    method ConfigApply(c: ClusterConfig, s: Stage) returns (ok: bool, ghost l: Label)
      requires ctx.Ready(c) && s in Pipeline(ctx.os)
      requires s in {RegisterCluster, AllocateNetwork, EmbedIgnitionISO, PublishPXEAssets, MergeKubeconfig, Finalize}
      modifies ctx.cfg, c, ctx.alloc, ctx.host`Trouble
      ensures ctx.Ready(c) && c.Name == old(c.Name)
      ensures Applied(ctx.os, s, l, old(ctx.V(c)), old(ctx.cfg.File), ctx.V(c), ctx.cfg.File, ok)
      ensures old(ctx.Trouble()) ==> ctx.Trouble()
      ensures !ctx.Trouble() ==> l == DoStage(if s == AllocateNetwork then old(ctx.alloc.random) else [], true)
      ensures s != AllocateNetwork ==> ctx.alloc.random == old(ctx.alloc.random)
    {
      hide Lifecycle.Apply, Saves, Applied, Pipeline;
      if s == RegisterCluster { ok, l := ctx.RegisterApply(c); return; }
      if s == AllocateNetwork { ok, l := ctx.AllocateApply(c); return; }
      ok, l := FieldApply(c, s);
    }

    /** Those of them that write one field of the cluster, or save it. */
    method FieldApply(c: ClusterConfig, s: Stage) returns (ok: bool, ghost l: Label)
      requires ctx.Ready(c) && s in Pipeline(ctx.os)
      requires s in {EmbedIgnitionISO, PublishPXEAssets, MergeKubeconfig, Finalize}
      modifies ctx.cfg`File, ctx.cfg`Trouble, c, ctx.host`Trouble
      ensures ctx.Ready(c) && c.Name == old(c.Name)
      ensures Applied(ctx.os, s, l, old(ctx.V(c)), old(ctx.cfg.File), ctx.V(c), ctx.cfg.File, ok)
      ensures (old(ctx.Trouble()) ==> ctx.Trouble()) && (!ctx.Trouble() ==> l == DoStage([], true))
    {
      OneBootStage(ctx.os, s);
      hide Lifecycle.Apply, Saves, Applied, Pipeline;
      if s == MergeKubeconfig { ok, l := ctx.MergeKubeconfigApply(c); return; }
      if s == Finalize { ok, l := ctx.FinalizeApply(c); return; }
      ok, l := ctx.BootMediaApply(c);
    }

    /** The stages that work on the host only, and those outside the model. */
    method HostApply(c: ClusterConfig, s: Stage) returns (ok: bool, ghost l: Label)
      requires ctx.Ready(c)
      requires s !in {RegisterCluster, AllocateNetwork, EmbedIgnitionISO, PublishPXEAssets, MergeKubeconfig, Finalize}
      modifies ctx.host`Net, ctx.host`VMs, ctx.host`Trouble
      ensures ctx.Ready(c)
      ensures Applied(ctx.os, s, l, old(ctx.V(c)), old(ctx.cfg.File), ctx.V(c), ctx.cfg.File, ok)
      ensures (old(ctx.Trouble()) ==> ctx.Trouble()) && (!ctx.Trouble() ==> l == DoStage([], true))
    {
      if s == CreateNetwork { ok, l := ctx.CreateNetworkApply(c); return; }
      if s == CreateMasterVMs { ok, l := ctx.CreateVMsApply(c); return; }
      ok := ctx.host.Call();
      l := if ok then DoStage([], true) else FailStage(false);
    }

    /** The stages whose Rollback works on the config. */
    method ConfigRollback(c: ClusterConfig, s: Stage) returns (ghost l: Label)
      requires ctx.Ready(c) && s in Pipeline(ctx.os)
      requires s in {RegisterCluster, AllocateNetwork, EmbedIgnitionISO, PublishPXEAssets, Finalize}
      modifies ctx.cfg, c
      ensures ctx.Ready(c) && c.Name == old(c.Name) && l.UndoStage?
      ensures Undone(ctx.os, s, l, old(ctx.V(c)), old(ctx.cfg.File), ctx.V(c), ctx.cfg.File)
      ensures (old(ctx.Trouble()) ==> ctx.Trouble()) && (!ctx.Trouble() ==> l == UndoStage(true, true))
    {
      OneBootStage(ctx.os, s);
      hide Undo, UndoSaves, Undone, Pipeline;
      if s == RegisterCluster { l := ctx.RegisterRollback(c); return; }
      if s == AllocateNetwork { l := ctx.AllocateRollback(c); return; }
      if s == Finalize { l := ctx.FinalizeRollback(c); return; }
      l := ctx.BootMediaRollback(c);
    }

    method RollbackStage(c: ClusterConfig, s: Stage) returns (ghost l: Label)
      requires ctx.Ready(c) && s in Pipeline(ctx.os)
      modifies ctx.cfg, c, ctx.host
      ensures ctx.Ready(c) && c.Name == old(c.Name) && l.UndoStage?
      ensures Undone(ctx.os, s, l, old(ctx.V(c)), old(ctx.cfg.File), ctx.V(c), ctx.cfg.File)
      ensures ctx.host.StateFiles ==
              if s == EnsureClusterDir && l.ok then old(ctx.host.StateFiles) - {c.Name} else old(ctx.host.StateFiles)
      ensures (old(ctx.Trouble()) ==> ctx.Trouble()) && (!ctx.Trouble() ==> l == UndoStage(true, true))
    {
      hide Undo, UndoSaves, Undone, Pipeline;
      if s in {RegisterCluster, AllocateNetwork, EmbedIgnitionISO, PublishPXEAssets, Finalize} {
        l := ConfigRollback(c, s);
      } else {
        l := HostRollback(c, s);
      }
    }

    /** merge-kubeconfig, the stages that work on the host, and those whose Rollback changes nothing modelled. */
    method HostRollback(c: ClusterConfig, s: Stage) returns (ghost l: Label)
      requires ctx.Ready(c)
      requires s !in {RegisterCluster, AllocateNetwork, EmbedIgnitionISO, PublishPXEAssets, Finalize}
      modifies ctx.host, ctx.cfg`File, ctx.cfg`Trouble
      ensures ctx.Ready(c) && l.UndoStage?
      ensures Undone(ctx.os, s, l, old(ctx.V(c)), old(ctx.cfg.File), ctx.V(c), ctx.cfg.File)
      ensures ctx.host.StateFiles ==
              if s == EnsureClusterDir && l.ok then old(ctx.host.StateFiles) - {c.Name} else old(ctx.host.StateFiles)
      ensures (old(ctx.Trouble()) ==> ctx.Trouble()) && (!ctx.Trouble() ==> l == UndoStage(true, true))
    {
      if s == MergeKubeconfig { l := ctx.MergeKubeconfigRollback(c); return; }
      if s == CreateNetwork { l := ctx.CreateNetworkRollback(c); return; }
      if s == CreateMasterVMs { l := ctx.CreateVMsRollback(c); return; }
      l := UndoStage(true, true);
      if s == EnsureClusterDir {
        var ok := ctx.host.RemoveClusterDir(c.Name);
        l := UndoStage(ok, true);
      }
    }

    /** One unrecorded stage: apply it, then record it. */
    method ApplyNext(c: ClusterConfig, state: set<Stage>, i: nat) returns (ok: bool, ghost steps: seq<Label>)
      requires ctx.Ready(c) && Where == Applying(c.Value(), state, i, false)
      requires i < |Pipeline(ctx.os)| && Pipeline(ctx.os)[i] !in state
      modifies this, ctx.cfg, c, ctx.alloc, ctx.host
      ensures W() == Run(old(W()), steps)
      ensures ctx.Ready(c) && c.Name == old(c.Name)
      ensures Where == if ok then Applying(c.Value(), state + {Pipeline(ctx.os)[i]}, i + 1, false) else Idle
      ensures |steps| == 2 && OfCreate(steps[0]) && steps[1] == if ok then Record else Abort
      ensures old(ctx.Trouble()) ==> ctx.Trouble()
      ensures Pipeline(ctx.os)[i] != AllocateNetwork ==> ctx.alloc.random == old(ctx.alloc.random)
      ensures !ctx.Trouble() ==>
                var next := NextStage(old(W()), old(ctx.alloc.random));
                if ok then W() == next else next.proc.Failed? && W() == Step(next, Abort)
    {
      hide Step, Run, Pipeline, NextStage;
      ghost var w0, draws := W(), ctx.alloc.random;
      ghost var l: Label;
      ok, l := TryStage(c, state, i);
      steps := [l];
      RunOne(w0, l);
      ghost var last := if ok then Record else Abort;
      if ok {
        ok := RecordNext(c, state, i);
        last := if ok then Record else Abort;
      } else {
        AbortIsStep(W());
        Where := Idle;
      }
      RunSnoc(w0, steps, last);
      steps := steps + [last];
      if !ctx.Trouble() {
        NextIs(w0, draws, l, ok);
      }
    }

    /** Its Apply alone. */
    method TryStage(c: ClusterConfig, state: set<Stage>, i: nat) returns (ok: bool, ghost l: Label)
      requires ctx.Ready(c) && Where == Applying(c.Value(), state, i, false)
      requires i < |Pipeline(ctx.os)| && Pipeline(ctx.os)[i] !in state
      modifies this, ctx.cfg, c, ctx.alloc, ctx.host`Net, ctx.host`VMs, ctx.host`Trouble
      ensures W() == Step(old(W()), l) && OfCreate(l)
      ensures ctx.Ready(c) && c.Name == old(c.Name)
      ensures Where == if ok then Applying(c.Value(), state, i, true) else Failed
      ensures old(ctx.Trouble()) ==> ctx.Trouble()
      ensures Pipeline(ctx.os)[i] != AllocateNetwork ==> ctx.alloc.random == old(ctx.alloc.random)
      ensures !ctx.Trouble() ==>
                l == DoStage(if Pipeline(ctx.os)[i] == AllocateNetwork then old(ctx.alloc.random) else [], true)
    {
      hide Step, Applied, Pipeline;
      ghost var w0 := W();
      ok, l := ApplyStage(c, Pipeline(ctx.os)[i]);
      AppliedIsStep(w0, l, ctx.V(c), ctx.cfg.File, ok);
      Where := if ok then Applying(c.Value(), state, i, true) else Failed;
    }

    /** Write the stage just applied to state.json, or give up. */
    method RecordNext(c: ClusterConfig, state: set<Stage>, i: nat) returns (ok: bool)
      requires ctx.Ready(c) && Where == Applying(c.Value(), state, i, true) && i < |Pipeline(ctx.os)|
      modifies this, ctx.host`StateFiles, ctx.host`Trouble
      ensures W() == Step(old(W()), if ok then Record else Abort)
      ensures Where == if ok then Applying(c.Value(), state + {Pipeline(ctx.os)[i]}, i + 1, false) else Idle
      ensures ctx.host.Trouble == (old(ctx.host.Trouble) || !ok)
    {
      hide Step, Pipeline;
      RecordIsStep(W());
      var done := state + {Pipeline(ctx.os)[i]};
      ok := SaveState(c.Name, done);
      Where := if ok then Applying(c.Value(), done, i + 1, false) else Idle;
    }

    /** One turn of the loop: a recorded stage is skipped, another one applied and recorded. */
    method Turn(c: ClusterConfig, state: set<Stage>, i: nat, ghost draws: seq<Draw>)
        returns (ok: bool, ghost steps: seq<Label>)
      requires ctx.Ready(c) && Where == Applying(c.Value(), state, i, false) && i < |Pipeline(ctx.os)|
      requires i <= 1 ==> ctx.alloc.random == draws
      modifies this, ctx.cfg, c, ctx.alloc, ctx.host
      ensures W() == Run(old(W()), steps)
      ensures ctx.Ready(c) && c.Name == old(c.Name)
      ensures Where == if ok then Applying(c.Value(), state + {Pipeline(ctx.os)[i]}, i + 1, false) else Idle
      ensures if ok then Looping(steps, true) else Ending(steps, true, Abort)
      ensures old(ctx.Trouble()) ==> ctx.Trouble()
      ensures i == 0 ==> ctx.alloc.random == draws
      ensures !ctx.Trouble() ==>
                var next := NextStage(old(W()), draws);
                if ok then W() == next else next.proc.Failed? && W() == Step(next, Abort)
    {
      hide Run, Step, Pipeline, Ending, NextStage, Looping;
      AllocateIsSecond(ctx.os);
      NothingYet();
      ghost var w0 := W();
      if Pipeline(ctx.os)[i] in state {
        SkipIsStep(w0);
        NextIsSkip(w0, draws);
        RunOne(w0, Skip);
        steps := [] + [Skip];
        Passed([], true);
        assert [] + [Skip] == [Skip];
        assert state + {Pipeline(ctx.os)[i]} == state;
        Where := Applying(c.Value(), state, i + 1, false);
        return true, steps;
      }
      if i > 1 {
        NextWhateverDrawn(w0, ctx.alloc.random, draws);
      }
      ok, steps := ApplyNext(c, state, i);
      Joined([], steps, true, if ok then Record else Abort);
      assert [] + steps == steps;
    }

    /** Runner.Apply: skip what is recorded, apply the rest in order, record each success. */
    method Apply(c: ClusterConfig) returns (ok: bool, ghost trace: seq<Label>)
      requires ctx.Ready(c) && Where == Applying(c.Value(), Recorded(W(), c.Name), 0, false)
      modifies this, ctx.cfg, c, ctx.alloc, ctx.host
      ensures W() == Run(old(W()), trace)
      ensures ctx.Ready(c) && c.Name == old(c.Name)
      ensures if ok then Where.Applying? && Where.k == |Pipeline(ctx.os)| && !Where.done &&
          Where.cur == c.Value() else Where.Idle?
      ensures if ok then Looping(trace, true) else Ending(trace, true, Abort)
      ensures old(ctx.Trouble()) ==> ctx.Trouble()
      ensures !ctx.Trouble() ==>
                var end := Staged(old(W()), old(ctx.alloc.random), |Pipeline(ctx.os)|);
                if ok then W() == end else end.proc.Failed? && W() == Step(end, Abort)
    {
      hide Run, Step, Pipeline, Ending, NextStage, Looping, Staged;
      NothingYet();
      StagedNone(W(), ctx.alloc.random);
      ghost var w0, draws := W(), ctx.alloc.random;
      AllocateIsSecond(ctx.os);
      trace := [];
      RunNone(w0);
      var stages := Pipeline(ctx.os);
      var state := LoadState(c.Name);
      var i := 0;
      while i < |stages|
        invariant 0 <= i <= |stages|
        invariant ctx.Ready(c) && c.Name == old(c.Name)
        invariant W() == Run(w0, trace) && Where == Applying(c.Value(), state, i, false)
        invariant Looping(trace, true)
        invariant old(ctx.Trouble()) ==> ctx.Trouble()
        invariant i <= 1 ==> ctx.alloc.random == draws
        invariant !ctx.Trouble() ==> W() == Staged(w0, draws, i)
      {
        StagedNext(w0, draws, i);
        ghost var steps: seq<Label>;
        ok, steps := Turn(c, state, i, draws);
        RunAppend(w0, trace, steps);
        JoinedOn(trace, steps, true, Abort);
        trace := trace + steps;
        if !ok {
          if !ctx.Trouble() {
            StagedIdle(w0, draws, i + 1, |stages|);
          }
          return false, trace;
        }
        state := state + {stages[i]};
        i := i + 1;
      }
      ok := true;
    }

    /** One recorded stage: roll it back, then erase it, whatever its Rollback answered. */
    method RollbackNext(c: ClusterConfig, state: set<Stage>, i: nat) returns (ok: bool, ghost steps: seq<Label>)
      requires ctx.Ready(c) && Where == Undoing(c.Value(), state, i, false)
      requires 0 < i <= |Pipeline(ctx.os)| && Pipeline(ctx.os)[i - 1] in state
      modifies this, ctx.cfg, c, ctx.host
      ensures W() == Run(old(W()), steps)
      ensures ctx.Ready(c) && c.Name == old(c.Name)
      ensures Where == if ok then Undoing(c.Value(), state - {Pipeline(ctx.os)[i - 1]}, i - 1, false) else Idle
      ensures |steps| == 2 && OfDelete(steps[0]) && steps[1] == if ok then Erase else Abort
      ensures old(ctx.Trouble()) ==> ctx.Trouble()
      ensures !ctx.Trouble() ==> ok && steps[0] == UndoStage(true, true)
    {
      hide Step, Undone, Undo, EraseStep, Run, Pipeline;
      var s := Pipeline(ctx.os)[i - 1];
      ghost var w0 := W();
      ghost var l := RollbackStage(c, s);
      UndoneIsStep(w0, l, ctx.V(c), ctx.cfg.File);
      Where := Undoing(c.Value(), state, i, true);
      steps := [l];
      RunOne(w0, l);
      ok := EraseNext(c, state, i);
      ghost var last := if ok then Erase else Abort;
      RunSnoc(w0, steps, last);
      steps := steps + [last];
    }

    /** Strike the stage just rolled back from state.json, or give up. */
    method EraseNext(c: ClusterConfig, state: set<Stage>, i: nat) returns (ok: bool)
      requires ctx.Ready(c) && Where == Undoing(c.Value(), state, i, true) && 0 < i <= |Pipeline(ctx.os)|
      modifies this, ctx.host`StateFiles, ctx.host`Trouble
      ensures W() == Step(old(W()), if ok then Erase else Abort)
      ensures Where == if ok then Undoing(c.Value(), state - {Pipeline(ctx.os)[i - 1]}, i - 1, false) else Idle
      ensures ctx.host.Trouble == (old(ctx.host.Trouble) || !ok)
    {
      hide Step, Pipeline;
      EraseIsStep(W());
      var left := state - {Pipeline(ctx.os)[i - 1]};
      ok := SaveState(c.Name, left);
      Where := if ok then Undoing(c.Value(), left, i - 1, false) else Idle;
    }

    /** One turn of the loop: a recorded stage is rolled back and erased, another one skipped. */
    method RollbackTurn(c: ClusterConfig, state: set<Stage>, i: nat) returns (ok: bool, ghost steps: seq<Label>)
      requires ctx.Ready(c) && Where == Undoing(c.Value(), state, i, false) && 0 < i <= |Pipeline(ctx.os)|
      modifies this, ctx.cfg, c, ctx.host
      ensures W() == Run(old(W()), steps)
      ensures ctx.Ready(c) && c.Name == old(c.Name)
      ensures Where == if ok then Undoing(c.Value(), state - {Pipeline(ctx.os)[i - 1]}, i - 1, false) else Idle
      ensures if ok then Looping(steps, false) else Ending(steps, false, Abort)
      ensures old(ctx.Trouble()) ==> ctx.Trouble()
      ensures !ctx.Trouble() ==> ok && Answered(steps)
    {
      hide Run, Step, Pipeline, Ending, Looping, Answered;
      NothingYet();
      ghost var w0 := W();
      if Pipeline(ctx.os)[i - 1] !in state {
        SkipUndoIsStep(w0);
        RunOne(w0, SkipUndo);
        steps := [] + [SkipUndo];
        Passed([], false);
        assert [] + [SkipUndo] == [SkipUndo];
        assert state - {Pipeline(ctx.os)[i - 1]} == state;
        Where := Undoing(c.Value(), state, i - 1, false);
        return true, steps;
      }
      ok, steps := RollbackNext(c, state, i);
      Joined([], steps, false, if ok then Erase else Abort);
      assert [] + steps == steps;
    }

    /**
     Runner.Rollback: every recorded stage once, last first, past stage errors;
     only a failing state.json write ends it early.
     */
    method Rollback(c: ClusterConfig) returns (ok: bool, ghost trace: seq<Label>, ghost calls: seq<Stage>)
      requires ctx.Ready(c) && Where == Undoing(c.Value(), Recorded(W(), c.Name), |Pipeline(ctx.os)|, false)
      modifies this, ctx.cfg, c, ctx.host
      ensures W() == Run(old(W()), trace)
      ensures ctx.Ready(c) && c.Name == old(c.Name)
      ensures if ok then
                && Where.Undoing? && Where.k == 0 && !Where.done && Where.cur == c.Value()
                && calls == Called(Pipeline(ctx.os), old(Where).rec, 0)
                && Where.rec == old(Where).rec - Listed(Pipeline(ctx.os))
              else Where.Idle?
      ensures if ok then Looping(trace, false) else Ending(trace, false, Abort)
      ensures old(ctx.Trouble()) ==> ctx.Trouble()
      ensures !ctx.Trouble() ==> ok && Answered(trace)
    {
      hide Run, Step, Pipeline, Ending, Recorded, Looping, Answered;
      NothingYet();
      ghost var w0 := W();
      ghost var rec0 := Where.rec;
      trace, calls := [], [];
      RunNone(w0);
      var stages := Pipeline(ctx.os);
      StagesDistinct(ctx.os);
      var state := LoadState(c.Name);
      var i := |stages|;
      assert Listed(stages[i..]) == {} && Called(stages, rec0, i) == [];
      hide Listed, Called;
      while i > 0
        invariant 0 <= i <= |stages|
        invariant ctx.Ready(c) && c.Name == old(c.Name)
        invariant W() == Run(w0, trace) && Where == Undoing(c.Value(), state, i, false)
        invariant calls == Called(stages, rec0, i)
        invariant state == rec0 - Listed(stages[i..])
        invariant Looping(trace, false)
        invariant old(ctx.Trouble()) ==> ctx.Trouble()
        invariant !ctx.Trouble() ==> Answered(trace)
      {
        OneMore(stages, rec0, i);
        ghost var steps: seq<Label>;
        ok, steps := RollbackTurn(c, state, i);
        RunAppend(w0, trace, steps);
        JoinedOn(trace, steps, false, Abort);
        trace := trace + steps;
        calls := calls + (if stages[i - 1] in state then [stages[i - 1]] else []);
        if !ok {
          return false, trace, calls;
        }
        state := state - {stages[i - 1]};
        i := i - 1;
      }
      assert stages[0..] == stages;
      ok := true;
    }
  }

  function Listed(stages: seq<Stage>): set<Stage> {
    set s | s in stages
  }

  // ----- what one action of the code is as a step -----

  lemma AppliedIsStep(w: World, l: Label, v': View, file': Cfg, ok: bool)
    requires w.proc.Applying? && !w.proc.done && w.proc.k < |Pipeline(w.os)|
    requires Pipeline(w.os)[w.proc.k] !in w.proc.rec
    requires Applied(w.os, Pipeline(w.os)[w.proc.k], l, ViewOf(w), w.disk, v', file', ok)
    ensures l.DoStage? || l.FailStage?
    ensures Step(w, l) == World(w.os, v'.cfg, file', w.recs, v'.net, v'.vms,
                                if ok then Applying(v'.cur, w.proc.rec, w.proc.k, true) else Failed)
  {
    hide Apply, Saves;
  }

  /** A stage applied without trouble, and recorded, is the next turn of an undisturbed create. */
  lemma NextIs(w: World, draws: seq<Draw>, l: Label, ok: bool)
    requires w.proc.Applying? && !w.proc.done && w.proc.k < |Pipeline(w.os)|
    requires Pipeline(w.os)[w.proc.k] !in w.proc.rec
    requires l == DoStage(if Pipeline(w.os)[w.proc.k] == AllocateNetwork then draws else [], true)
    ensures NextStage(w, draws) == Step(Step(w, l), Record)
    ensures Step(w, l).proc.Failed? ==> NextStage(w, draws) == Step(w, l)
  {
    if Pipeline(w.os)[w.proc.k] != AllocateNetwork {
      SameWhateverDrawn(w, draws, [], true);
    }
    hide DoStageStep, Pipeline;
  }

  lemma StagedNone(w: World, draws: seq<Draw>)
    ensures Staged(w, draws, 0) == w
  {
  }

  lemma StagedNext(w: World, draws: seq<Draw>, i: nat)
    ensures Staged(w, draws, i + 1) == NextStage(Staged(w, draws, i), draws)
  {
  }

  lemma NextIsSkip(w: World, draws: seq<Draw>)
    requires w.proc.Applying? && w.proc.k < |Pipeline(w.os)| && Pipeline(w.os)[w.proc.k] in w.proc.rec
    ensures NextStage(w, draws) == Step(w, Skip)
  {
  }

  lemma NextWhateverDrawn(w: World, a: seq<Draw>, b: seq<Draw>)
    requires w.proc.Applying? && w.proc.k < |Pipeline(w.os)| && Pipeline(w.os)[w.proc.k] != AllocateNetwork
    ensures NextStage(w, a) == NextStage(w, b)
  {
    SameWhateverDrawn(w, a, b, true);
    hide Step;
  }

  lemma AllocateIsSecond(os: OS)
    ensures forall i :: 0 <= i < |Pipeline(os)| ==> (Pipeline(os)[i] == AllocateNetwork <==> i == 1)
  {
  }

  lemma RecordIsStep(w: World)
    ensures w.proc.Applying? && w.proc.done && w.proc.k < |Pipeline(w.os)| ==> Step(w, Record) == RecordStep(w)
    ensures Step(w, Abort) == w.(proc := Idle)
  {
  }

  lemma AbortIsStep(w: World)
    ensures Step(w, Abort) == w.(proc := Idle)
  {
  }

  lemma SkipIsStep(w: World)
    requires w.proc.Applying? && !w.proc.done && w.proc.k < |Pipeline(w.os)| && Pipeline(w.os)[w.proc.k] in w.proc.rec
    ensures Step(w, Skip) == w.(proc := Applying(w.proc.cur, w.proc.rec, w.proc.k + 1, false))
  {
  }

  lemma UndoneIsStep(w: World, l: Label, v': View, file': Cfg)
    requires w.proc.Undoing? && !w.proc.done && 0 < w.proc.k <= |Pipeline(w.os)|
    requires Pipeline(w.os)[w.proc.k - 1] in w.proc.rec
    requires Undone(w.os, Pipeline(w.os)[w.proc.k - 1], l, ViewOf(w), w.disk, v', file')
    ensures l.UndoStage?
    ensures var s := Pipeline(w.os)[w.proc.k - 1];
            Step(w, l) == World(w.os, v'.cfg, file',
                                if s == EnsureClusterDir && l.ok then w.recs - {w.proc.cur.name} else w.recs,
                                v'.net, v'.vms, Undoing(v'.cur, w.proc.rec, w.proc.k, true))
  {
    hide Undo;
  }

  lemma EraseIsStep(w: World)
    ensures w.proc.Undoing? && w.proc.done && 0 < w.proc.k <= |Pipeline(w.os)| ==>
              var rec := w.proc.rec - {Pipeline(w.os)[w.proc.k - 1]};
              Step(w, Erase) == World(w.os, w.mem, w.disk, w.recs[w.proc.cur.name := rec], w.net, w.vms,
                                      Undoing(w.proc.cur, rec, w.proc.k - 1, false))
    ensures Step(w, Abort) == w.(proc := Idle)
  {
  }

  lemma SkipUndoIsStep(w: World)
    requires w.proc.Undoing? && !w.proc.done && 0 < w.proc.k <= |Pipeline(w.os)| &&
        Pipeline(w.os)[w.proc.k - 1] !in w.proc.rec
    ensures Step(w, SkipUndo) == w.(proc := Undoing(w.proc.cur, w.proc.rec, w.proc.k - 1, false))
  {
  }

  /** Two actions more: both of the loop, or the second one ends the command. */
  lemma Joined(trace: seq<Label>, steps: seq<Label>, create: bool, last: Label)
    requires Looping(trace, create)
    requires |steps| == 2 && steps[1] == last && if create then OfCreate(steps[0]) else OfDelete(steps[0])
    ensures Ending(trace + steps, create, last)
    ensures last == (if create then Record else Erase) ==> Looping(trace + steps, create)
    ensures Answered(trace) && last == Erase && steps[0] == UndoStage(true, true) ==> Answered(trace + steps)
  {
  }

  /** More actions of the loop, ended by another one or not. */
  lemma JoinedOn(trace: seq<Label>, steps: seq<Label>, create: bool, last: Label)
    requires Looping(trace, create)
    ensures Looping(steps, create) ==> Looping(trace + steps, create)
    ensures Ending(steps, create, last) ==> Ending(trace + steps, create, last)
    ensures Answered(trace) && Answered(steps) ==> Answered(trace + steps)
  {
  }

  lemma Passed(trace: seq<Label>, create: bool)
    requires Looping(trace, create)
    ensures Looping(trace + [if create then Skip else SkipUndo], create)
    ensures Answered(trace) ==> Answered(trace + [SkipUndo])
  {
  }

  lemma NothingYet()
    ensures Looping([], true) && Looping([], false) && Answered([])
  {
  }

  lemma RunNone(w: World)
    ensures Run(w, []) == w
  {
  }

  lemma RunOne(w: World, l: Label)
    ensures Run(w, [l]) == Step(w, l)
  {
    hide Step;
    RunNone(w);
    RunSnoc(w, [], l);
    assert [] + [l] == [l];
  }

  /** One stage further down the list. */
  lemma OneMore(stages: seq<Stage>, rec: set<Stage>, i: nat)
    requires 0 < i <= |stages|
    requires forall k :: 0 <= k < |stages| ==> Position(stages[k]) == k
    ensures Called(stages, rec, i - 1) ==
        Called(stages, rec, i) + (if stages[i - 1] in rec then [stages[i - 1]] else [])
    ensures Listed(stages[i - 1..]) == Listed(stages[i..]) + {stages[i - 1]}
    ensures stages[i - 1] !in Listed(stages[i..])
  {
    assert stages[i - 1..] == [stages[i - 1]] + stages[i..];
    assert forall k :: 0 <= k < |stages| - i ==> Position(stages[i..][k]) == i + k;
  }
}

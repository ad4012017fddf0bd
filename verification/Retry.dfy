/**
 When a create gets through. After any sequence of attempts, one more that
 nothing disturbs applies every remaining stage, with two exceptions: the
 addresses may have run out, and on Linux a VM may exist whose stage was never
 recorded. The second lasts: virt-install refuses the name, so no number of
 further attempts gets past create-master-vms (app/runner.go,
 providers/libvirt/libvirt.go).
 */
module Retry {
  import opened Text
  import opened Addresses
  import opened Model
  import opened NatReset
  import opened Lifecycle
  import opened Records
  import opened RoundTrip
  import opened Resume

  /** The VM is there, its stage is not recorded, and virt-install does not define a name twice. */
  predicate Stuck(w: World, name: string) {
    w.os.Linux? && name in w.vms && CreateMasterVMs !in Recorded(w, name)
  }

  ghost predicate HasAddresses(w: World, name: string) {
    exists c :: c in w.mem.clusters && c.name == name && c.macs != []
  }

  ghost predicate IsRunning(w: World, name: string) {
    exists c :: c in w.mem.clusters && c.name == name && c.state == Running
  }

  // ----- the same, at the levels of Resume -----

  ghost predicate NoVM(w0: World, spec: Cluster, g: At, w: World) {
    w0.os.Linux? && g.n <= 11 ==> spec.name !in w.vms
  }

  ghost predicate CanAllocate(w0: World, spec: Cluster, g: At, draws: seq<Draw>) {
    g.e <= 1 ==> AllocOk(w0.mem, spec, draws)
  }

  ghost predicate AtStage(w0: World, spec: Cluster, g: At, w: World, j: nat) {
    CanStart(w0, spec) && Reached(w0, spec, g, w) && w.proc.Applying? && !w.proc.done && w.proc.k == j
  }

  lemma StuckIs(w0: World, spec: Cluster, g: At, w: World)
    requires CanStart(w0, spec) && Reached(w0, spec, g, w)
    ensures Stuck(w, spec.name) <==> !NoVM(w0, spec, g, w)
    ensures Stuck(w, spec.name) ==> g.n == 11
  {
    assert Prefix(w0.os, 0) == {};
    assert Recorded(w, spec.name) == Prefix(w0.os, g.n);
    assert Pipeline(w0.os)[11] == CreateMasterVMs;
    PrefixMember(w0.os, g.n, 11);
  }

  lemma EntryIs(w0: World, spec: Cluster, g: At, w: World)
    requires CanStart(w0, spec) && Reached(w0, spec, g, w) && w.proc.Idle?
    ensures HasAddresses(w, spec.name) <==> g.e >= 2
    ensures IsRunning(w, spec.name) <==> g.e >= 18
    ensures g.e < 2 ==> forall draws :: AllocOk(w.mem, spec, draws) <==> AllocOk(w0.mem, spec, draws)
  {
    var cs := w.mem.clusters;
    if g.e >= 1 {
      assert cs[|cs| - 1] == EntryAt(w0.mem, spec, g.draws, g.e, g.diskBoot);
      assert forall i :: 0 <= i < |cs| - 1 ==> cs[i] == w0.mem.clusters[i] && cs[i].name != spec.name;
    }
    if g.e >= 2 {
      AllocatedSomething(w0.mem, spec, g.draws);
    }
  }

  /** One turn: refused, or one stage further. */
  lemma Turn(w0: World, spec: Cluster, g: At, w: World, draws: seq<Draw>) returns (g': At)
    requires w.proc.Applying? && AtStage(w0, spec, g, w, w.proc.k) && w.proc.k < 18
    ensures w.proc.k == g.n && Refused(w0, spec, g, w, draws) ==> NextStage(w, draws).proc.Failed?
    ensures !(w.proc.k == g.n && Refused(w0, spec, g, w, draws)) ==>
              AtStage(w0, spec, g', NextStage(w, draws), w.proc.k + 1)
    ensures w.proc.k < g.n ==> g' == g && NextStage(w, draws).vms == w.vms
    ensures w.proc.k == g.n ==> g'.n == g'.e == g.n + 1
    ensures w.proc.k == g.n <= 10 && !Refused(w0, spec, g, w, draws) ==> NextStage(w, draws).vms == w0.vms
    ensures g'.lost == g.lost && (g.e >= 2 ==> g'.draws == g.draws && g'.e >= 2)
  {
    AtWorking(w0, spec, g, w);
    if w.proc.k < g.n {
      SkipAt(w0, spec, g, w);
      g' := g;
    } else {
      g' := RetryAt(w0, spec, g, w, draws);
      Applied(w0, spec, g, w, draws, g');
      g' := g'.(n := g.n + 1, e := g.n + 1);
    }
  }

  lemma Applied(w0: World, spec: Cluster, g: At, w: World, draws: seq<Draw>, g1: At)
    requires Working(w0, spec, g, w) && g1.n == g.n
    requires var w1 := DoStageStep(w, draws, true);
             w1.proc.Failed? || (w1.proc.Applying? && w1.proc.done && Reached(w0, spec, g1, w1))
    requires Pipeline(w.os)[w.proc.k] !in w.proc.rec
    ensures DoStageStep(w, draws, true).proc.Failed? ==> NextStage(w, draws).proc.Failed?
    ensures !DoStageStep(w, draws, true).proc.Failed? ==>
              AtStage(w0, spec, g1.(n := g.n + 1, e := g.n + 1), NextStage(w, draws), w.proc.k + 1)
    ensures !DoStageStep(w, draws, true).proc.Failed? && g.n <= 10 ==> NextStage(w, draws).vms == w0.vms
  {
    hide CfgAt, NetAt, BootsOk, AllocOk;
    var w1 := DoStageStep(w, draws, true);
    assert Step(w, DoStage(draws, true)) == w1;
    if !w1.proc.Failed? {
      RecordAt(w0, spec, g1, w1);
      assert g1.e == g.n + 1;
      assert Step(w1, Record) == RecordStep(w1);
    }
  }

  /** Nothing makes a VM before its stage. */
  lemma NoVMBefore(w0: World, spec: Cluster, g: At, w: World)
    requires CanStart(w0, spec) && Reached(w0, spec, g, w) && g.n <= 10
    ensures NoVM(w0, spec, g, w)
  {
  }

  lemma {:induction false} NothingInTheWay(w0: World, spec: Cluster, g0: At, w: World, draws: seq<Draw>, j: nat)
      returns (g: At)
    requires CanStart(w0, spec) && Reached(w0, spec, g0, w) && w.proc.Idle? && g0.e < 18 && j <= 18
    requires NoVM(w0, spec, g0, w) && CanAllocate(w0, spec, g0, draws)
    ensures var w' := Undisturbed(w, spec, draws, j);
            AtStage(w0, spec, g, w', j) && NoVM(w0, spec, g, w') && CanAllocate(w0, spec, g, draws)
    ensures g.lost == g0.lost && (g0.e >= 2 ==> g.draws == g0.draws && g.e >= 2)
  {
    hide Step, NextStage, AllocOk, Reached, CanStart;
    if j == 0 {
      g := Begins(w0, spec, g0, w);
    } else {
      var g1 := NothingInTheWay(w0, spec, g0, w, draws, j - 1);
      var w1 := Undisturbed(w, spec, draws, j - 1);
      ReachedOs(w0, spec, g1, w1);
      g := Turn(w0, spec, g1, w1, draws);
      VMsKept(w0, spec, g1, w1, draws, g);
    }
  }

  lemma ReachedOs(w0: World, spec: Cluster, g: At, w: World)
    requires Reached(w0, spec, g, w)
    ensures w.os == w0.os && g.n <= 18 && g.n <= g.e <= g.n + 1
    ensures w.proc.Applying? ==> w.proc.k <= g.n
  {
  }

  lemma VMsKept(w0: World, spec: Cluster, g1: At, w1: World, draws: seq<Draw>, g: At)
    requires CanStart(w0, spec) && w1.proc.Applying? && w1.proc.k <= g1.n && NoVM(w0, spec, g1, w1)
    requires w1.proc.k < g1.n ==> g == g1 && NextStage(w1, draws).vms == w1.vms
    requires w1.proc.k == g1.n ==> g.n == g1.n + 1 && (g1.n <= 10 ==> NextStage(w1, draws).vms == w0.vms)
    ensures NoVM(w0, spec, g, NextStage(w1, draws))
  {
    hide NextStage;
  }

  lemma Begins(w0: World, spec: Cluster, g0: At, w: World) returns (g: At)
    requires CanStart(w0, spec) && Reached(w0, spec, g0, w) && w.proc.Idle? && g0.e < 18
    ensures g == g0 && AtStage(w0, spec, g, Step(w, BeginCreate(spec)), 0) && Step(w, BeginCreate(spec)).vms == w.vms
  {
    g := g0;
    BeginAt(w0, spec, g0, w);
    FindEntry(w0, spec, g0, w);
    assert Step(w, BeginCreate(spec)) == BeginCreateStep(w, spec);
  }

  /** An attempt that something is in the way of fails there, and stays failed. */
  lemma {:induction false} InTheWay(w0: World, spec: Cluster, g0: At, w: World, draws: seq<Draw>, j: nat)
      returns (g: At)
    requires CanStart(w0, spec) && Reached(w0, spec, g0, w) && w.proc.Idle? && g0.e < 18 && j <= 18
    requires !NoVM(w0, spec, g0, w) || !CanAllocate(w0, spec, g0, draws)
    ensures var w' := Undisturbed(w, spec, draws, j);
            || w'.proc.Failed?
            || (AtStage(w0, spec, g, w', j) && g.n <= 11 &&
                (!NoVM(w0, spec, g, w') || !CanAllocate(w0, spec, g, draws)))
  {
    hide Step, NextStage, AllocOk, Reached, CanStart;
    if j == 0 {
      g := Begins(w0, spec, g0, w);
      ReachedOs(w0, spec, g, w);
    } else {
      g := InTheWay(w0, spec, g0, w, draws, j - 1);
      var w1 := Undisturbed(w, spec, draws, j - 1);
      if w1.proc.Failed? {
        NextStageIdle(w1, draws);
      } else {
        ReachedOs(w0, spec, g, w1);
        if g.n <= 10 {
          NoVMBefore(w0, spec, g, w1);
        }
        g := Turn(w0, spec, g, w1, draws);
      }
    }
  }

  /**
   After any attempts, one that nothing disturbs finds the cluster running or
   gets through all stages, if and only if no VM is there unrecorded (Linux)
   and the addresses were or can be allocated.
   */
  lemma ResumeGetsThrough(w0: World, spec: Cluster, ls: seq<Label>, draws: seq<Draw>)
    requires CanStart(w0, spec) && forall l :: l in ls ==> Attempt(l, spec)
    requires Run(w0, ls).proc.Idle?
    ensures var w := Run(w0, ls);
            IsRunning(w, spec.name) || Through(Undisturbed(w, spec, draws, |Pipeline(w.os)|))
            <==> !Stuck(w, spec.name) && (HasAddresses(w, spec.name) || AllocOk(w.mem, spec, draws))
  {
    var g := RunAt(w0, spec, ls);
    var w := Run(w0, ls);
    StuckIs(w0, spec, g, w);
    EntryIs(w0, spec, g, w);
    hide AllocOk, Reached, CanStart;
    if g.e >= 18 {
      ReachedOs(w0, spec, g, w);
    } else if NoVM(w0, spec, g, w) && CanAllocate(w0, spec, g, draws) {
      var _ := NothingInTheWay(w0, spec, g, w, draws, 18);
    } else {
      var g' := InTheWay(w0, spec, g, w, draws, 18);
      if !Undisturbed(w, spec, draws, 18).proc.Failed? {
        ReachedOs(w0, spec, g', Undisturbed(w, spec, draws, 18));
      }
    }
  }

  // ----- once stuck, stuck for ever -----

  ghost predicate StuckAt(w0: World, spec: Cluster, g: At, w: World) {
    && CanStart(w0, spec) && Reached(w0, spec, g, w) && w0.os.Linux?
    && g.n == 11 && spec.name in w.vms && !(w.proc.Applying? && w.proc.done)
  }

  lemma StuckStep(w0: World, spec: Cluster, g: At, w: World, l: Label) returns (g': At)
    requires StuckAt(w0, spec, g, w) && Attempt(l, spec)
    ensures StuckAt(w0, spec, g', Step(w, l))
  {
    g' := StepAt(w0, spec, g, w, l);
    RefusedStep(w0, spec, g, w, l);
    SameLevel(w0, spec, g, g', w, Step(w, l));
  }

  /** create-master-vms is refused, so no step goes past it. */
  lemma RefusedStep(w0: World, spec: Cluster, g: At, w: World, l: Label)
    requires StuckAt(w0, spec, g, w) && Attempt(l, spec)
    ensures Step(w, l).vms == w.vms && Step(w, l).recs == w.recs
    ensures !(Step(w, l).proc.Applying? && Step(w, l).proc.done)
  {
    if l.DoStage? {
      RefusedStage(w0, spec, g, w, l.draws, l.saved);
    } else {
      hide Reached, CanStart, Find;
      UnrelatedStep(w, l);
    }
  }

  lemma RefusedStage(w0: World, spec: Cluster, g: At, w: World, draws: seq<Draw>, saved: bool)
    requires StuckAt(w0, spec, g, w)
    ensures var w' := Step(w, DoStage(draws, saved));
            w'.vms == w.vms && w'.recs == w.recs && !(w'.proc.Applying? && w'.proc.done)
  {
    if w.proc.Applying? && w.proc.k < |Pipeline(w.os)| {
      AtWorking(w0, spec, g, w);
      if w.proc.k == 11 {
        var _ := VMsAt(w0, spec, g, w, draws);
        var _ := StageAt(w0, spec, g, w, draws, saved);
        hide Reached, CanStart, Apply, Saves;
        assert Pipeline(w.os)[11] == CreateMasterVMs;
        FailingApply(w.os, CreateMasterVMs, draws, ViewOf(w));
      }
    }
  }

  lemma UnrelatedStep(w: World, l: Label)
    requires !(w.proc.Applying? && w.proc.done) && !w.proc.Undoing? && !w.proc.Resetting?
    requires l.BeginCreate? || l.FailStage? || l.Record? || l.Skip? || l.FinishCreate? || l.Crash?
    ensures Step(w, l).vms == w.vms && Step(w, l).recs == w.recs
    ensures !(Step(w, l).proc.Applying? && Step(w, l).proc.done)
  {
  }

  lemma SameLevel(w0: World, spec: Cluster, g: At, g': At, w: World, w': World)
    requires StuckAt(w0, spec, g, w) && Reached(w0, spec, g', w') && w'.recs == w.recs
    ensures g'.n == 11
  {
    assert Recorded(w, spec.name) == Prefix(w0.os, 11);
    assert Prefix(w0.os, 0) == {};
    assert Recorded(w', spec.name) == Prefix(w0.os, g'.n);
    PrefixMember(w0.os, 11, 10);
    PrefixMember(w0.os, g'.n, 10);
    PrefixMember(w0.os, 11, 11);
    PrefixMember(w0.os, g'.n, 11);
  }

  /** Whatever attempts follow, the cluster stays stuck and none of them gets through. */
  lemma {:induction false} StuckForEver(w0: World, spec: Cluster, ls: seq<Label>, more: seq<Label>)
    requires CanStart(w0, spec) && forall l :: l in ls + more ==> Attempt(l, spec)
    requires Run(w0, ls).proc.Idle? && Stuck(Run(w0, ls), spec.name)
    ensures Stuck(Run(w0, ls + more), spec.name) && !Through(Run(w0, ls + more))
  {
    assert forall l :: l in ls ==> l in ls + more;
    assert forall l :: l in more ==> l in ls + more;
    var g := RunAt(w0, spec, ls);
    StuckIs(w0, spec, g, Run(w0, ls));
    g := StuckRun(w0, spec, g, Run(w0, ls), more);
    RunAppend(w0, ls, more);
    StuckIs(w0, spec, g, Run(w0, ls + more));
  }

  lemma {:induction false} StuckRun(w0: World, spec: Cluster, g: At, w: World, more: seq<Label>) returns (g': At)
    requires StuckAt(w0, spec, g, w) && forall l :: l in more ==> Attempt(l, spec)
    ensures StuckAt(w0, spec, g', Run(w, more))
    decreases |more|
  {
    if more == [] {
      g' := g;
    } else {
      var n := |more| - 1;
      assert forall l :: l in more[..n] ==> l in more;
      g' := StuckRun(w0, spec, g, w, more[..n]);
      g' := StuckStep(w0, spec, g', Run(w, more[..n]), more[n]);
    }
  }
}

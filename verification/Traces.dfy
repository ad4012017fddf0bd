/**
 What the commands do, as sequences of actions (app/manager.go, app/runner.go):
 the shape of the trace that a create or a delete leaves behind, and what a
 delete that reports success has done to the cluster list.
 */
module Traces {
  import opened Text
  import opened Addresses
  import opened Model
  import opened NatReset
  import opened Lifecycle
  import opened Safety

  /** The actions of the stage loop of a create. */
  predicate OfCreate(l: Label) {
    l.DoStage? || l.FailStage? || l.Record? || l.Skip?
  }

  /** The actions of the rollback loop of a delete. */
  predicate OfDelete(l: Label) {
    l.UndoStage? || l.Erase? || l.SkipUndo?
  }

  /** Actions of one loop only. */
  predicate Looping(steps: seq<Label>, create: bool) {
    forall i :: 0 <= i < |steps| ==> if create then OfCreate(steps[i]) else OfDelete(steps[i])
  }

  /** Actions of one loop and then the one that ends the command. */
  predicate Ending(steps: seq<Label>, create: bool, last: Label) {
    && steps != [] && steps[|steps| - 1] == last
    && forall i :: 0 <= i < |steps| - 1 ==> if create then OfCreate(steps[i]) else OfDelete(steps[i])
  }

  /** What a create has done: nothing, if it was refused; or it began, worked on stages, and finished or gave up. */
  predicate CreateTrace(spec: Cluster, trace: seq<Label>, ok: bool) {
    (trace == [] && !ok) ||
    (|trace| >= 2 && trace[0] == BeginCreate(spec) &&
     (Ending(trace[1..], true, FinishCreate(ok)) || (!ok && Ending(trace[1..], true, Abort))))
  }

  /** What a delete has done: likewise, with every label's own answer. */
  predicate DeleteTrace(name: string, trace: seq<Label>, ok: bool) {
    (trace == [] && !ok) ||
    (|trace| >= 2 && trace[0].BeginDelete? && trace[0].name == name &&
     (Ending(trace[1..], false, FinishDelete(ok)) || (!ok && Ending(trace[1..], false, Abort))))
  }

  /** Every rollback of a delete came back without an error. */
  predicate Answered(trace: seq<Label>) {
    forall l :: l in trace && l.UndoStage? ==> l.ok
  }

  lemma EndsHere(steps: seq<Label>, create: bool, last: Label)
    requires Looping(steps, create)
    ensures Ending(steps + [last], create, last)
  {
  }

  lemma CreateTraceOf(spec: Cluster, steps: seq<Label>, ok: bool)
    requires Ending(steps, true, FinishCreate(ok)) || (!ok && Ending(steps, true, Abort))
    ensures CreateTrace(spec, [BeginCreate(spec)] + steps, ok)
  {
    assert ([BeginCreate(spec)] + steps)[1..] == steps;
  }

  lemma DeleteTraceOf(begin: Label, steps: seq<Label>, ok: bool)
    requires begin.BeginDelete?
    requires Ending(steps, false, FinishDelete(ok)) || (!ok && Ending(steps, false, Abort))
    ensures DeleteTrace(begin.name, [begin] + steps, ok)
  {
    assert ([begin] + steps)[1..] == steps;
  }

  // ----- what becomes of the entry of a deleted cluster -----

  /** Down to the first stage the cluster is listed; past it, exactly if its registration was not recorded. */
  ghost predicate Unlisting(w: World, name: string, before: set<Stage>) {
    w.proc.Undoing? ==>
      var p := w.proc;
      && p.cur.name == name && Unique(w.mem.clusters) && p.k <= |Pipeline(w.os)|
      && (p.k > 1 || (p.k == 1 && !p.done) ==>
            Has(w.mem.clusters, name) && (RegisterCluster in p.rec <==> RegisterCluster in before))
      && (p.k == 1 && p.done ==> !Has(w.mem.clusters, name) && RegisterCluster in before)
      && (p.k == 0 ==> (Has(w.mem.clusters, name) <==> RegisterCluster !in before))
  }

  lemma UndoKeepsListed(os: OS, s: Stage, v: View)
    requires Unique(v.cfg.clusters) && s != RegisterCluster
    ensures var v' := Undo(os, s, v);
            && v'.cur.name == v.cur.name && Unique(v'.cfg.clusters)
            && forall n :: Has(v'.cfg.clusters, n) <==> Has(v.cfg.clusters, n)
  {
    match s
    case AllocateNetwork => PutMembers(v.cfg.clusters, v.cur.(ips := [], macs := []));
    case EmbedIgnitionISO => PutMembers(v.cfg.clusters, v.cur.(boot := ""));
    case Finalize => PutMembers(v.cfg.clusters, v.cur.(state := Creating));
    case _ =>
  }

  lemma UnlistingStep(w: World, name: string, before: set<Stage>, l: Label)
    requires Unlisting(w, name, before) && OfDelete(l) && (l.UndoStage? ==> l.ok)
    ensures Unlisting(Step(w, l), name, before)
  {
    hide Undo, Splice;
    if w.proc.Undoing? && 0 < w.proc.k <= |Pipeline(w.os)| {
      StagesDistinct(w.os);
      var s := Pipeline(w.os)[w.proc.k - 1];
      assert s == RegisterCluster <==> w.proc.k == 1;
      if l.UndoStage? {
        if s == RegisterCluster {
          SpliceMembers(w.mem.clusters, name);
          UndoRegister(w.os, ViewOf(w));
        } else {
          UndoKeepsListed(w.os, s, ViewOf(w));
        }
      }
    }
  }

  lemma UndoRegister(os: OS, v: View)
    ensures Undo(os, RegisterCluster, v) == v.(cfg := v.cfg.(clusters := Splice(v.cfg.clusters, v.cur.name)))
  {
  }

  lemma {:induction false} UnlistingRun(w: World, name: string, before: set<Stage>, ls: seq<Label>)
    requires Unlisting(w, name, before) && Answered(ls) && forall i :: 0 <= i < |ls| ==> OfDelete(ls[i])
    ensures Unlisting(Run(w, ls), name, before)
    decreases |ls|
  {
    if ls != [] {
      var n := |ls| - 1;
      assert forall l :: l in ls[..n] ==> l in ls;
      UnlistingRun(w, name, before, ls[..n]);
      assert ls[n] in ls;
      UnlistingStep(Run(w, ls[..n]), name, before, ls[n]);
    }
  }

  lemma UnlistingBegins(w: World, name: string)
    requires w.proc.Idle? && Unique(w.mem.clusters)
    ensures var w' := Step(w, BeginDelete(name, true));
            Unlisting(w', name, Recorded(w, name)) && w'.recs == w.recs
  {
    hide Put;
    if Find(w.mem.clusters, name).Some? {
      PutMembers(w.mem.clusters, Find(w.mem.clusters, name).value.(state := Stopped));
    }
  }

  /** A delete that ran to its end, no rollback failing, leaves the cluster listed exactly if it was not recorded. */
  lemma DeleteUnlists(w: World, name: string, steps: seq<Label>)
    requires w.proc.Idle? && Unique(w.mem.clusters) && Answered(steps) && Ending(steps, false, FinishDelete(true))
    requires var last := Run(Step(w, BeginDelete(name, true)), steps[..|steps| - 1]).proc; last.Undoing? && last.k == 0
    ensures var w' := Run(Step(w, BeginDelete(name, true)), steps);
            Has(w'.disk.clusters, name) <==> RegisterCluster !in Recorded(w, name)
  {
    hide Unlisting, Step, Pipeline, Recorded;
    var n := |steps| - 1;
    var w1 := Step(w, BeginDelete(name, true));
    UnlistingBegins(w, name);
    assert forall l :: l in steps[..n] ==> l in steps;
    UnlistingRun(w1, name, Recorded(w, name), steps[..n]);
    Unlisted(Run(w1, steps[..n]), name, Recorded(w, name));
  }

  lemma Unlisted(w: World, name: string, before: set<Stage>)
    requires Unlisting(w, name, before) && w.proc.Undoing? && w.proc.k == 0
    ensures Has(Step(w, FinishDelete(true)).disk.clusters, name) <==> RegisterCluster !in before
  {
  }
}

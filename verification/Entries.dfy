/**
 Which commands start, on what, and what the cluster's entry in config.json
 says in between (app/manager.go, app/natreset.go, stages/finalize): stated on
 the cluster list, so that a user can tell before the call. A create takes up
 any listed cluster that is not running, and wherever a delete stops, what it
 leaves is such a cluster.
 */
module Entries {
  import opened Text
  import opened Addresses
  import opened Model
  import opened NatReset
  import opened Lifecycle
  import opened Traces
  import Safety
  import Defaults

  ghost predicate FirstOf(cs: seq<Cluster>, name: string, i: int) {
    0 <= i < |cs| && cs[i].name == name && forall j :: 0 <= j < i ==> cs[j].name != name
  }

  ghost predicate Unlisted(cs: seq<Cluster>, name: string) {
    forall j :: 0 <= j < |cs| ==> cs[j].name != name
  }

  lemma {:induction false} FoundAt(cs: seq<Cluster>, name: string, i: int)
    requires FirstOf(cs, name, i)
    ensures Find(cs, name) == Some(cs[i])
  {
    if i > 0 {
      assert cs[0].name != name;
      FoundAt(cs[1..], name, i - 1);
    }
  }

  lemma FoundIs(cs: seq<Cluster>, name: string)
    ensures forall i :: FirstOf(cs, name, i) ==> Find(cs, name) == Some(cs[i])
    ensures Unlisted(cs, name) ==> Find(cs, name) == None
  {
    forall i | FirstOf(cs, name, i) ensures Find(cs, name) == Some(cs[i]) {
      FoundAt(cs, name, i);
    }
  }

  lemma {:induction false} FirstExists(cs: seq<Cluster>, name: string) returns (i: nat)
    requires Has(cs, name)
    ensures FirstOf(cs, name, i)
  {
    if cs[0].name == name {
      i := 0;
    } else {
      assert forall j :: 0 < j < |cs| ==> cs[j] == cs[1..][j - 1];
      i := FirstExists(cs[1..], name);
      i := i + 1;
    }
  }

  // ----- what a create starts on -----

  /** Settings of one node, with both of its addresses if and only if the user brings the network. */
  ghost predicate Blank(c: Cluster) {
    && c.nodes == 1 && |c.ips| == 0 && |c.macs| == 0 && c.boot == "" && c.state == NoState
    && (c.isNAT ==> c.masterMAC == "" && c.masterIP == "")
    && (!c.isNAT ==> c.masterMAC != "" && c.masterIP != "")
  }

  /**
   A create starts on the first listed cluster of the name, whatever its state
   unless that is running; with none listed, on the spec, if and only if it is
   acceptable and fewer than three clusters are listed. Otherwise nothing happens.
   */
  lemma CreateBegins(w: World, spec: Cluster)
    requires w.proc.Idle?
    ensures var w', cs := Step(w, BeginCreate(spec)), w.mem.clusters;
            var rec := if spec.name in w.recs then w.recs[spec.name] else {};
            && (spec.name == "" ==> w' == w)
            && (forall i :: spec.name != "" && FirstOf(cs, spec.name, i) ==>
                  w' == if cs[i].state == Running then w else w.(proc := Applying(cs[i], rec, 0, false)))
            && (spec.name != "" && Unlisted(cs, spec.name) ==>
                  w' == if Blank(spec) && |cs| < 3 then w.(proc := Applying(spec, rec, 0, false)) else w)
  {
    FoundIs(w.mem.clusters, spec.name);
    hide Find;
  }

  /** The cluster that settings describe, as far as the lifecycle looks at it. */
  function SpecOf(name: string, v: Defaults.Settings): Cluster
    requires v.masterCount + v.workerCount >= 0
  {
    Cluster(name, v.networkMode == "nat", v.masterMAC, v.masterIP, v.masterCount + v.workerCount, [], [], "", NoState)
  }

  /** Settings that validation accepts with so many clusters listed describe a cluster a create starts on. */
  lemma AcceptedBegins(w: World, name: string, u: Defaults.Settings, v6: string -> bool, mac: string -> bool)
    requires w.proc.Idle? && name != "" && Unlisted(w.mem.clusters, name)
    requires Defaults.Acceptable(Defaults.Defaulted(u, v6), |w.mem.clusters|, v6, mac)
    ensures var v := Defaults.Defaulted(u, v6);
            && v.masterCount + v.workerCount == 1
            && Step(w, BeginCreate(SpecOf(name, v))) ==
               w.(proc := Applying(SpecOf(name, v), Recorded(w, name), 0, false))
  {
    hide Defaults.Defaulted;
    CreateBegins(w, SpecOf(name, Defaults.Defaulted(u, v6)));
  }

  // ----- a create with nothing left to do -----

  ghost predicate AllRecorded(os: OS, rec: set<Stage>) {
    forall s :: s in Pipeline(os) ==> s in rec
  }

  lemma SkipsNext(w: World, draws: seq<Draw>)
    requires w.proc.Applying? && !w.proc.done && w.proc.k < 18 && AllRecorded(w.os, w.proc.rec)
    ensures NextStage(w, draws) == w.(proc := Applying(w.proc.cur, w.proc.rec, w.proc.k + 1, false))
  {
    assert Pipeline(w.os)[w.proc.k] in Pipeline(w.os);
    hide Pipeline;
  }

  lemma {:induction false} AllSkipped(w: World, draws: seq<Draw>, j: nat)
    requires w.proc.Applying? && w.proc.k == 0 && !w.proc.done && AllRecorded(w.os, w.proc.rec) && j <= 18
    ensures Staged(w, draws, j) == w.(proc := Applying(w.proc.cur, w.proc.rec, j, false))
  {
    hide NextStage, AllRecorded, Pipeline, Step;
    if j > 0 {
      AllSkipped(w, draws, j - 1);
      SkipsNext(Staged(w, draws, j - 1), draws);
    }
  }

  lemma PutAt(cs: seq<Cluster>, i: nat, c: Cluster)
    requires Unique(cs) && i < |cs| && cs[i].name == c.name
    ensures Put(cs, c) == cs[i := c]
  {
  }

  /**
   A create of a stopped cluster that was once finished runs no stage and draws
   no address: it ends with the entry running, in memory and on disk, and
   nothing else changed. The VM is not booted.
   */
  lemma StoppedResumes(w: World, spec: Cluster, i: nat, draws: seq<Draw>)
    requires w.proc.Idle? && Unique(w.mem.clusters) && spec.name != "" && FirstOf(w.mem.clusters, spec.name, i)
    requires w.mem.clusters[i].state != Running && AllRecorded(w.os, Recorded(w, spec.name))
    ensures var end := Undisturbed(w, spec, draws, 18);
            var m := w.mem.(clusters := w.mem.clusters[i := w.mem.clusters[i].(state := Running)]);
            Through(end) && Step(end, FinishCreate(true)) == w.(mem := m, disk := m)
  {
    CreateBegins(w, spec);
    AllSkipped(Step(w, BeginCreate(spec)), draws, 18);
    PutAt(w.mem.clusters, i, w.mem.clusters[i].(state := Running));
    hide Put, BeginCreateStep;
  }

  // ----- start, stop, reset -----

  /** Start and stop change the state of the first entry of the name, and only that, if it is not running or is. */
  lemma StateSet(w: World, name: string, i: nat, saved: bool)
    requires w.proc.Idle? && Unique(w.mem.clusters) && FirstOf(w.mem.clusters, name, i)
    ensures var c := w.mem.clusters[i];
            var up := w.mem.(clusters := w.mem.clusters[i := c.(state := Running)]);
            var down := w.mem.(clusters := w.mem.clusters[i := c.(state := Stopped)]);
            && Step(w, Start(name, saved)) == (if c.state == Running then w
                                               else w.(mem := up, disk := if saved then up else w.disk))
            && Step(w, Stop(name, saved)) == (if c.state != Running then w
                                              else w.(mem := down, disk := if saved then down else w.disk))
  {
    var c := w.mem.clusters[i];
    FoundIs(w.mem.clusters, name);
    PutAt(w.mem.clusters, i, c.(state := Running));
    PutAt(w.mem.clusters, i, c.(state := Stopped));
    hide Put, Find;
  }

  /**
   A reset starts if and only if there is something to do and it would not cut
   off a running cluster without --force; planning it changes nothing.
   */
  lemma ResetBegins(w: World, up: set<string>, force: bool)
    requires w.proc.Idle?
    ensures var w' := Step(w, BeginReset(up, force));
            && w' == w.(proc := w'.proc)
            && (w'.proc.Resetting? <==> SomethingToDo(w.mem, w.net) && !(WouldDisrupt(w.mem, w.net, up) && !force))
            && (!w'.proc.Resetting? ==> w' == w)
  {
    PlanExact(w.mem, w.net, up, force);
    hide MakePlan, SomethingToDo, WouldDisrupt;
  }

  // ----- the entry of a cluster that is being deleted -----

  /** Whatever entry has the name, its state is one of these. */
  ghost predicate StateIn(cfg: Cfg, name: string, states: set<ClusterState>) {
    forall c :: c in cfg.clusters && c.name == name ==> c.state in states
  }

  /** What a delete does once begun, up to the end of its process. */
  predicate OfItsDelete(l: Label) {
    OfDelete(l) || l.FinishDelete? || l.Abort? || l.Crash?
  }

  /** The entry in memory is in one of these states, and on disk too unless config.json is as it was. */
  ghost predicate Held(w: World, name: string, states: set<ClusterState>, was: set<Cfg>) {
    && Creating in states
    && StateIn(w.mem, name, states)
    && (StateIn(w.disk, name, states) || w.disk in was)
    && (w.proc.Undoing? ==> w.proc.cur.name == name && w.proc.cur.state in states)
  }

  lemma {:induction false} SpliceSubset(cs: seq<Cluster>, name: string)
    ensures forall c :: c in Splice(cs, name) ==> c in cs
  {
    if cs != [] {
      SpliceSubset(cs[1..], name);
    }
  }

  lemma PutStates(cfg: Cfg, c: Cluster, states: set<ClusterState>)
    requires c.state in states
    ensures StateIn(cfg.(clusters := Put(cfg.clusters, c)), c.name, states)
  {
  }

  lemma UndoStates(os: OS, s: Stage, v: View, states: set<ClusterState>)
    requires v.cur.state in states && Creating in states && StateIn(v.cfg, v.cur.name, states)
    ensures var v' := Undo(os, s, v);
            v'.cur.name == v.cur.name && v'.cur.state in states && StateIn(v'.cfg, v.cur.name, states)
  {
    hide Splice, Put;
    match s
    case RegisterCluster => SpliceSubset(v.cfg.clusters, v.cur.name);
    case AllocateNetwork => PutStates(v.cfg, v.cur.(ips := [], macs := []), states);
    case EmbedIgnitionISO => PutStates(v.cfg, v.cur.(boot := ""), states);
    case Finalize => PutStates(v.cfg, v.cur.(state := Creating), states);
    case _ =>
  }

  lemma HeldStep(w: World, name: string, states: set<ClusterState>, was: set<Cfg>, l: Label)
    requires Held(w, name, states, was) && OfItsDelete(l) && (l.Crash? ==> was == {})
    ensures Held(Step(w, l), name, states, was)
  {
    if l.UndoStage? && w.proc.Undoing? && 0 < w.proc.k <= |Pipeline(w.os)| {
      UndoStates(w.os, Pipeline(w.os)[w.proc.k - 1], ViewOf(w), states);
    }
    hide Undo, StateIn, Pipeline;
  }

  lemma {:induction false} HeldRun(w: World, name: string, states: set<ClusterState>, was: set<Cfg>, ls: seq<Label>)
    requires Held(w, name, states, was)
    requires forall l :: l in ls ==> OfItsDelete(l) && (l.Crash? ==> was == {})
    ensures Held(Run(w, ls), name, states, was)
    decreases |ls|
  {
    if ls != [] {
      var n := |ls| - 1;
      assert forall l :: l in ls[..n] ==> l in ls;
      HeldRun(w, name, states, was, ls[..n]);
      assert ls[n] in ls;
      HeldStep(Run(w, ls[..n]), name, states, was, ls[n]);
    }
  }

  const NOT_RUNNING: set<ClusterState> := {NoState, Creating, Stopped}

  lemma DeleteBegins(w: World, name: string)
    requires w.proc.Idle? && Unique(w.mem.clusters) && Has(w.mem.clusters, name)
    ensures var w' := Step(w, BeginDelete(name, true));
            && w'.proc.Undoing? && w'.proc.k == 18 && !w'.proc.done && w'.proc.rec == Recorded(w, name)
            && w'.proc.cur.name == name && w'.os == w.os && w'.recs == w.recs
            && Unique(w'.mem.clusters) && Has(w'.mem.clusters, name)
            && (w'.disk == w'.mem || w'.disk == w.disk) && (w.disk == w.mem ==> w'.disk == w'.mem)
            && Held(w', name, NOT_RUNNING, if w.disk == w.mem then {} else {w.disk})
  {
    var c := Find(w.mem.clusters, name).value;
    EntryStopped(w.mem, name, c);
    hide Put, Find, StateIn, Has, Unique;
  }

  /** The one entry of the name, as it is and marked stopped. */
  lemma EntryStopped(cfg: Cfg, name: string, c: Cluster)
    requires Unique(cfg.clusters) && c in cfg.clusters && c.name == name
    ensures c.state != Running ==> StateIn(cfg, name, NOT_RUNNING)
    ensures var m := cfg.(clusters := Put(cfg.clusters, c.(state := Stopped)));
            Unique(m.clusters) && (Has(m.clusters, name) <==> Has(cfg.clusters, name)) && StateIn(m, name, NOT_RUNNING)
  {
    PutStates(cfg, c.(state := Stopped), NOT_RUNNING);
    Safety.PutMembers(cfg.clusters, c.(state := Stopped));
    assert forall d :: d in cfg.clusters && d.name == name ==> d == c;
    hide Put, Has;
  }

  /**
   While a cluster is being deleted, through any rollbacks, failures and failed
   saves, its entry is not running in memory, nor on disk once anything was
   saved; and if the command found config.json as it was in memory, it is
   running neither there nor here, whatever process comes next.
   */
  lemma DeletingIsNotRunning(w: World, name: string, ls: seq<Label>)
    requires w.proc.Idle? && Unique(w.mem.clusters) && Has(w.mem.clusters, name)
    requires forall l :: l in ls ==> OfItsDelete(l)
    ensures var w' := Run(Step(w, BeginDelete(name, true)), ls);
            && ((forall l :: l in ls ==> !l.Crash?) ==>
                  StateIn(w'.mem, name, NOT_RUNNING) && (StateIn(w'.disk, name, NOT_RUNNING) || w'.disk == w.disk))
            && (w.disk == w.mem ==> StateIn(w'.mem, name, NOT_RUNNING) && StateIn(w'.disk, name, NOT_RUNNING))
  {
    DeleteBegins(w, name);
    hide Step, StateIn;
    if w.disk == w.mem {
      HeldRun(Step(w, BeginDelete(name, true)), name, NOT_RUNNING, {}, ls);
    } else if forall l :: l in ls ==> !l.Crash? {
      HeldRun(Step(w, BeginDelete(name, true)), name, NOT_RUNNING, {w.disk}, ls);
    }
  }

  lemma FinalizeUndone(w: World, name: string)
    requires w.proc.Undoing? && w.proc.k == 18 && !w.proc.done && Finalize in w.proc.rec && w.proc.cur.name == name
    ensures Held(Step(w, UndoStage(true, true)), name, {Creating}, {})
  {
    assert Pipeline(w.os)[17] == Finalize;
    PutStates(w.mem, w.proc.cur.(state := Creating), {Creating});
    hide Put, Pipeline;
  }

  /**
   Once finalize's rollback has run and been saved, whatever the rest of the
   delete does and wherever its process ends, a state the entry has is creating.
   */
  lemma HalfDeletedIsCreating(w: World, name: string, ls: seq<Label>)
    requires w.proc.Idle? && Unique(w.mem.clusters) && Has(w.mem.clusters, name) && Finalize in Recorded(w, name)
    requires forall l :: l in ls ==> OfItsDelete(l)
    ensures var w' := Run(Step(Step(w, BeginDelete(name, true)), UndoStage(true, true)), ls);
            StateIn(w'.mem, name, {Creating}) && StateIn(w'.disk, name, {Creating})
  {
    DeleteBegins(w, name);
    hide Step, StateIn;
    var w1 := Step(w, BeginDelete(name, true));
    FinalizeUndone(w1, name);
    HeldRun(Step(w1, UndoStage(true, true)), name, {Creating}, {}, ls);
  }

  /**
   The rollbacks that write config.json: a saved one brings it level with memory;
   it stays as it was under the others, and under a failed rollback or save.
   */
  lemma RollbackSaves(w: World, ok: bool, saved: bool)
    requires w.proc.Undoing? && !w.proc.done && 0 < w.proc.k <= 18 && Pipeline(w.os)[w.proc.k - 1] in w.proc.rec
    ensures var s, w' := Pipeline(w.os)[w.proc.k - 1], Step(w, UndoStage(ok, saved));
            w'.disk ==
            if ok && saved && s in {RegisterCluster, AllocateNetwork, EmbedIgnitionISO, MergeKubeconfig, Finalize}
            then w'.mem else w.disk
  {
    hide Undo, Pipeline;
    PipelineSize(w.os);
    assert Step(w, UndoStage(ok, saved)) == UndoStageStep(w, ok, saved);
  }

  lemma PipelineSize(os: OS)
    ensures |Pipeline(os)| == 18
  {
  }

  // ----- until it is unregistered, it stays listed -----

  ghost predicate StillListed(w: World, name: string) {
    && Unique(w.mem.clusters)
    && (w.proc.Undoing? ==> w.proc.cur.name == name && w.proc.k <= 18)
    && (w.proc.Undoing? && (w.proc.k > 1 || (w.proc.k == 1 && !w.proc.done)) ==>
          Has(w.mem.clusters, name) && Has(w.disk.clusters, name))
  }

  lemma StillListedStep(w: World, name: string, l: Label)
    requires StillListed(w, name) && OfDelete(l)
    ensures StillListed(Step(w, l), name)
  {
    if w.proc.Undoing? && 0 < w.proc.k <= |Pipeline(w.os)| {
      StagesDistinct(w.os);
      var s := Pipeline(w.os)[w.proc.k - 1];
      assert s == RegisterCluster <==> w.proc.k == 1;
      if l.UndoStage? {
        if s == RegisterCluster {
          SpliceMembers(w.mem.clusters, name);
          UndoRegister(w.os, ViewOf(w));
        } else {
          UndoKeepsListed(w.os, s, ViewOf(w));
        }
      }
    }
    hide Undo, Pipeline, Has, Unique;
  }

  lemma {:induction false} StillListedRun(w: World, name: string, ls: seq<Label>)
    requires StillListed(w, name) && forall l :: l in ls ==> OfDelete(l)
    ensures StillListed(Run(w, ls), name)
    decreases |ls|
  {
    if ls != [] {
      var n := |ls| - 1;
      assert forall l :: l in ls[..n] ==> l in ls;
      StillListedRun(w, name, ls[..n]);
      assert ls[n] in ls;
      StillListedStep(Run(w, ls[..n]), name, ls[n]);
    }
  }

  /**
   Wherever the process of a delete ends before it unregisters the cluster,
   through any failures and failed saves, `create` of the name starts on what is left.
   */
  lemma InterruptedDeleteResumes(w: World, name: string, ls: seq<Label>, spec: Cluster)
    requires w.proc.Idle? && w.mem == w.disk && Unique(w.mem.clusters) && Has(w.mem.clusters, name)
    requires (forall l :: l in ls ==> OfDelete(l)) && spec.name == name != ""
    requires var p := Run(Step(w, BeginDelete(name, true)), ls).proc; p.Undoing? && (p.k > 1 || (p.k == 1 && !p.done))
    ensures StartsOn(Step(Run(Step(w, BeginDelete(name, true)), ls), Crash), spec)
  {
    DeleteBegins(w, name);
    var w1 := Step(w, BeginDelete(name, true));
    StillListedRun(w1, name, ls);
    DeletingIsNotRunning(w, name, ls);
    hide StateIn, Step;
    DeadIsIdle(Run(w1, ls));
    StartsOnWhatIsLeft(Step(Run(w1, ls), Crash), spec);
  }

  /** A create of the spec's name takes up the entry that is listed. */
  ghost predicate StartsOn(w: World, spec: Cluster) {
    exists i :: FirstOf(w.mem.clusters, spec.name, i) &&
                Step(w, BeginCreate(spec)) ==
                w.(proc := Applying(w.mem.clusters[i], Recorded(w, spec.name), 0, false))
  }

  lemma StartsOnWhatIsLeft(w: World, spec: Cluster)
    requires w.proc.Idle? && Has(w.mem.clusters, spec.name) && spec.name != ""
    requires StateIn(w.mem, spec.name, NOT_RUNNING)
    ensures StartsOn(w, spec)
  {
    var i := FirstExists(w.mem.clusters, spec.name);
    CreateBegins(w, spec);
    assert w.mem.clusters[i].state in NOT_RUNNING;
    hide Step;
  }

  lemma DeadIsIdle(w: World)
    ensures Step(w, Crash) == w.(mem := w.disk, proc := Idle)
  {
  }

  /** The same of the whole of a command, as it leaves its labels behind. */
  lemma DeleteLeavesNotRunning(w: World, name: string, trace: seq<Label>, ok: bool)
    requires w.proc.Idle? && w.mem == w.disk && Unique(w.mem.clusters) && Has(w.mem.clusters, name)
    requires DeleteTrace(name, trace, ok) && trace != [] && trace[0].saved
    ensures StateIn(Run(w, trace).disk, name, NOT_RUNNING)
  {
    var steps := trace[1..];
    forall l | l in steps ensures OfItsDelete(l) {
      var i :| 0 <= i < |steps| && steps[i] == l;
    }
    assert trace == [trace[0]] + steps && trace[0] == BeginDelete(name, true);
    RunAppend(w, [trace[0]], steps);
    assert [trace[0]] == [] + [trace[0]];
    RunSnoc(w, [], trace[0]);
    DeletingIsNotRunning(w, name, steps);
    hide StateIn, Step;
  }
}

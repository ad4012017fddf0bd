/**
 state.json over every run: the stages recorded for a cluster are always the
 first few of the pipeline, whatever fails or crashes while they are applied
 or rolled back (app/runner.go).
 */
module Records {
  import opened Addresses
  import opened Model
  import opened NatReset
  import opened Lifecycle

  /** The first n stages, for some n between lo and hi. */
  ghost predicate PrefixBetween(os: OS, rec: set<Stage>, lo: nat, hi: nat) {
    exists n :: lo <= n <= hi && n <= |Pipeline(os)| && rec == Prefix(os, n)
  }

  ghost predicate RecordsOk(w: World) {
    var total := |Pipeline(w.os)|;
    && (forall name :: name in w.recs ==> PrefixBetween(w.os, w.recs[name], 0, total))
    && (w.proc.Applying? ==>
          && w.proc.k <= total
          && PrefixBetween(w.os, w.proc.rec, w.proc.k, if w.proc.done then w.proc.k else total)
          && (w.proc.done ==> w.proc.k < total))
    && (w.proc.Undoing? ==>
          && w.proc.k <= total
          && PrefixBetween(w.os, w.proc.rec, if w.proc.done then w.proc.k else 0, w.proc.k)
          && (w.proc.done ==> 0 < w.proc.k))
  }

  lemma RecordedIsPrefix(w: World, name: string)
    requires RecordsOk(w)
    ensures PrefixBetween(w.os, Recorded(w, name), 0, |Pipeline(w.os)|)
  {
    assert Prefix(w.os, 0) == {};
  }

  /** A stage outside a prefix that reaches up to it is the next one; inside, the prefix goes past it. */
  lemma PrefixNext(os: OS, rec: set<Stage>, k: nat)
    requires k < |Pipeline(os)| && PrefixBetween(os, rec, k, |Pipeline(os)|)
    ensures Pipeline(os)[k] !in rec ==> rec == Prefix(os, k)
    ensures Pipeline(os)[k] in rec ==> PrefixBetween(os, rec, k + 1, |Pipeline(os)|)
  {
    var n :| k <= n <= |Pipeline(os)| && rec == Prefix(os, n);
    PrefixMember(os, n, k);
  }

  lemma PrefixLast(os: OS, rec: set<Stage>, k: nat)
    requires 0 < k <= |Pipeline(os)| && PrefixBetween(os, rec, 0, k)
    ensures Pipeline(os)[k - 1] in rec ==> rec == Prefix(os, k)
    ensures Pipeline(os)[k - 1] !in rec ==> PrefixBetween(os, rec, 0, k - 1)
  {
    var n :| 0 <= n <= k && n <= |Pipeline(os)| && rec == Prefix(os, n);
    PrefixMember(os, n, k - 1);
  }

  lemma DoStageRecords(w: World, draws: seq<Draw>, saved: bool)
    requires RecordsOk(w) && w.proc.Applying? && !w.proc.done && w.proc.k < |Pipeline(w.os)|
    requires Pipeline(w.os)[w.proc.k] !in w.proc.rec
    ensures RecordsOk(DoStageStep(w, draws, saved))
  {
    PrefixNext(w.os, w.proc.rec, w.proc.k);
  }

  lemma SkipRecords(w: World)
    requires RecordsOk(w) && w.proc.Applying? && !w.proc.done && w.proc.k < |Pipeline(w.os)|
    requires Pipeline(w.os)[w.proc.k] in w.proc.rec
    ensures RecordsOk(w.(proc := Applying(w.proc.cur, w.proc.rec, w.proc.k + 1, false)))
  {
    PrefixNext(w.os, w.proc.rec, w.proc.k);
  }

  lemma RecordRecords(w: World)
    requires RecordsOk(w) && w.proc.Applying? && w.proc.done
    ensures RecordsOk(RecordStep(w))
  {
    PrefixStep(w.os, w.proc.k);
    var rec := w.proc.rec + {Pipeline(w.os)[w.proc.k]};
    assert rec == Prefix(w.os, w.proc.k + 1);
    assert PrefixBetween(w.os, rec, w.proc.k + 1, |Pipeline(w.os)|);
  }

  lemma UndoStageRecords(w: World, ok: bool, saved: bool)
    requires RecordsOk(w) && w.proc.Undoing? && !w.proc.done && 0 < w.proc.k
    requires Pipeline(w.os)[w.proc.k - 1] in w.proc.rec
    ensures RecordsOk(UndoStageStep(w, ok, saved))
  {
    PrefixLast(w.os, w.proc.rec, w.proc.k);
  }

  lemma SkipUndoRecords(w: World)
    requires RecordsOk(w) && w.proc.Undoing? && !w.proc.done && 0 < w.proc.k
    requires Pipeline(w.os)[w.proc.k - 1] !in w.proc.rec
    ensures RecordsOk(w.(proc := Undoing(w.proc.cur, w.proc.rec, w.proc.k - 1, false)))
  {
    PrefixLast(w.os, w.proc.rec, w.proc.k);
  }

  lemma EraseRecords(w: World)
    requires RecordsOk(w) && w.proc.Undoing? && w.proc.done
    ensures RecordsOk(EraseStep(w))
  {
    PrefixStep(w.os, w.proc.k - 1);
    var rec := w.proc.rec - {Pipeline(w.os)[w.proc.k - 1]};
    assert rec == Prefix(w.os, w.proc.k - 1);
    assert PrefixBetween(w.os, rec, 0, w.proc.k - 1);
  }

  lemma BeginCreateRecords(w: World, spec: Cluster)
    requires RecordsOk(w) && w.proc.Idle?
    ensures RecordsOk(BeginCreateStep(w, spec))
  {
    RecordedIsPrefix(w, spec.name);
  }

  lemma BeginDeleteRecords(w: World, name: string, saved: bool)
    requires RecordsOk(w) && w.proc.Idle?
    ensures RecordsOk(BeginDeleteStep(w, name, saved))
  {
    RecordedIsPrefix(w, name);
  }

  lemma ApplyingRecords(w: World, l: Label)
    requires RecordsOk(w) && w.proc.Applying? && (l.DoStage? || l.Skip? || l.Record?)
    ensures RecordsOk(Step(w, l))
  {
    hide DoStageStep, RecordStep;
    var stages := Pipeline(w.os);
    if w.proc.k < |stages| {
      match l
      case DoStage(draws, saved) =>
        if !w.proc.done && stages[w.proc.k] !in w.proc.rec { DoStageRecords(w, draws, saved); }
      case Skip => if !w.proc.done && stages[w.proc.k] in w.proc.rec { SkipRecords(w); }
      case Record => if w.proc.done { RecordRecords(w); }
    }
  }

  lemma UndoingRecords(w: World, l: Label)
    requires RecordsOk(w) && w.proc.Undoing? && (l.UndoStage? || l.SkipUndo? || l.Erase?)
    ensures RecordsOk(Step(w, l))
  {
    hide UndoStageStep, EraseStep;
    var stages := Pipeline(w.os);
    if 0 < w.proc.k <= |stages| {
      match l
      case UndoStage(ok, saved) =>
        if !w.proc.done && stages[w.proc.k - 1] in w.proc.rec { UndoStageRecords(w, ok, saved); }
      case SkipUndo => if !w.proc.done && stages[w.proc.k - 1] !in w.proc.rec { SkipUndoRecords(w); }
      case Erase => if w.proc.done { EraseRecords(w); }
    }
  }

  lemma OtherRecords(w: World, l: Label)
    requires RecordsOk(w) && !l.BeginCreate? && !l.BeginDelete?
    requires !l.DoStage? && !l.Skip? && !l.Record? && !l.UndoStage? && !l.SkipUndo? && !l.Erase?
    ensures RecordsOk(Step(w, l))
  {
  }

  lemma StepRecords(w: World, l: Label)
    requires RecordsOk(w)
    ensures RecordsOk(Step(w, l))
  {
    if l.BeginCreate? {
      if w.proc.Idle? { BeginCreateRecords(w, l.spec); }
    } else if l.BeginDelete? {
      if w.proc.Idle? { BeginDeleteRecords(w, l.name, l.saved); }
    } else if l.DoStage? || l.Skip? || l.Record? {
      if w.proc.Applying? { ApplyingRecords(w, l); }
    } else if l.UndoStage? || l.SkipUndo? || l.Erase? {
      if w.proc.Undoing? { UndoingRecords(w, l); }
    } else {
      OtherRecords(w, l);
    }
  }

  /** Recorded stages form a prefix of the pipeline in every reachable world. */
  lemma {:induction false} RunRecords(w: World, ls: seq<Label>)
    requires RecordsOk(w)
    ensures RecordsOk(Run(w, ls))
    decreases |ls|
  {
    if ls != [] {
      var n := |ls| - 1;
      RunRecords(w, ls[..n]);
      StepRecords(Run(w, ls[..n]), ls[n]);
    }
  }

  lemma RecordedStagesArePrefix(os: OS, ls: seq<Label>, name: string)
    ensures exists n :: 0 <= n <= |Pipeline(os)| && Recorded(Run(Fresh(os), ls), name) == Prefix(os, n)
  {
    RunRecords(Fresh(os), ls);
    OsKept(Fresh(os), ls);
    RecordedIsPrefix(Run(Fresh(os), ls), name);
  }

  lemma {:induction false} OsKept(w: World, ls: seq<Label>)
    ensures Run(w, ls).os == w.os
    decreases |ls|
  {
    if ls != [] {
      OsKept(w, ls[..|ls| - 1]);
    }
  }

  /** A create that is through its pipeline has every stage recorded. */
  lemma ThroughMeansRecorded(os: OS, ls: seq<Label>)
    requires var p := Run(Fresh(os), ls).proc; p.Applying? && p.k == |Pipeline(os)|
    ensures Run(Fresh(os), ls).proc.rec == set s | s in Pipeline(os)
  {
    RunRecords(Fresh(os), ls);
    OsKept(Fresh(os), ls);
    assert Pipeline(os)[..|Pipeline(os)|] == Pipeline(os);
  }
}

/**
 A host on which commands run one after the other, each in a process of its own
 (cmd/): it loads config.json, creates or deletes, and ends. The theorems about
 runs, for what these commands do.
 */
module Commands {
  import opened Text
  import opened Addresses
  import opened Model
  import opened Lifecycle
  import opened Safety
  import opened Reservations
  import opened RoundTrip
  import opened Resume
  import opened Traces
  import opened Sessions
  import Leftovers
  import Entries
  import opened Config
  import opened Allocator
  import opened Stages
  import opened Runner
  import opened Manager

  class Machine {
    const os: OS
    const host: Host
    var File: Cfg   // config.json
    ghost var SaveFailed: bool

    constructor (os: OS, host: Host, file: Cfg)
      ensures this.os == os && this.host == host && File == file && !SaveFailed
    {
      this.os, this.host, File, SaveFailed := os, host, file, false;
    }

    /** Some call or write of some process has failed. */
    ghost predicate Trouble()
      reads this`SaveFailed, host`Trouble
    {
      SaveFailed || host.Trouble
    }

    /** What the next process finds. */
    ghost function W(): World
      reads this, host
    {
      World(os, File, File, host.StateFiles, host.Net, host.VMs, Idle)
    }

    /** LoadConfig and the managers of a new process. */
    method NewManager(random: seq<Draw>) returns (m: ClusterManager)
      requires Unique(File.clusters)
      ensures fresh(m) && fresh(m.runner) && fresh(m.cfg) && fresh(m.cfg.Clusters) && fresh(m.ctx.alloc)
      ensures m.AtRest() && m.W() == W() && m.ctx.host == host && m.ctx.os == os
      ensures !m.cfg.Trouble && m.ctx.alloc.random == random
    {
      var cfg := new Config.Load(File);
      var alloc := new Allocator(cfg, random);
      var ctx := new Context(os, cfg, alloc, host);
      var runner := new Runner(ctx);
      m := new ClusterManager(runner);
    }

    /** The process of a create, up to its end; `file` is config.json as it leaves it. */
    method RunCreate(spec: Cluster, random: seq<Draw>) returns (ok: bool, file: Cfg, ghost trace: seq<Label>)
      requires AddressSafe(W()) && BridgeOutside(BeginCreate(spec))
      modifies `SaveFailed, host
      ensures World(os, file, file, host.StateFiles, host.Net, host.VMs, Idle) == Step(Run(old(W()), trace), Crash)
      ensures AddressSafe(Run(old(W()), trace))
      ensures CreateTrace(spec, trace, ok) && (ok ==> Finishes(old(W()), trace))
      ensures old(Trouble()) ==> Trouble()
      ensures !Trouble() ==> (ok <==> Through(Undisturbed(old(W()), spec, random, |Pipeline(os)|)))
    {
      UniqueFile(W());
      hide AddressSafe, Run, CreateTrace, Finishes, Step, BridgeOutside, Through, Undisturbed, Pipeline;
      var m := NewManager(random);
      ok, trace := CreateIn(m, spec);
      SaveFailed := SaveFailed || m.cfg.Trouble;
      file := m.cfg.File;
      Leftovers.Interrupted(m.W());
    }

    /** `create cluster`: the process ends by returning, with or without an error. */
    method Create(spec: Cluster, random: seq<Draw>) returns (ok: bool, ghost trace: seq<Label>)
      requires AddressSafe(W()) && BridgeOutside(BeginCreate(spec))
      modifies this, host
      ensures AddressSafe(W()) && W() == Run(old(W()), Settled(trace) + [Crash])
      ensures CreateTrace(spec, trace, ok) && (ok ==> Finishes(old(W()), trace))
      ensures old(Trouble()) ==> Trouble()
      ensures !Trouble() ==> (ok <==> Through(Undisturbed(old(W()), spec, random, |Pipeline(os)|)))
    {
      hide AddressSafe, Run, Settled, CreateTrace, Finishes, Step, BridgeOutside, Through, Undisturbed, Pipeline;
      ghost var w0 := W();
      var file;
      ok, file, trace := RunCreate(spec, random);
      File := file;
      ProcessEnds(w0, trace);
      EndsSafe(Run(w0, trace));
    }

    /** The process of a delete, likewise. */
    method RunDelete(name: string) returns (ok: bool, file: Cfg, ghost trace: seq<Label>)
      requires AddressSafe(W())
      modifies `SaveFailed, host
      ensures World(os, file, file, host.StateFiles, host.Net, host.VMs, Idle) == Step(Run(old(W()), trace), Crash)
      ensures AddressSafe(Run(old(W()), trace))
      ensures DeleteTrace(name, trace, ok) && (trace == [] <==> !Has(File.clusters, name))
      ensures ok ==> trace[0] == BeginDelete(name, true) && Erases(old(W()), trace)
      ensures old(Trouble()) ==> Trouble()
      ensures !Trouble() ==> (ok <==> Has(File.clusters, name)) && Answered(trace)
      ensures trace != [] && trace[0].saved ==> Entries.StateIn(file, name, Entries.NOT_RUNNING)
    {
      UniqueFile(W());
      hide AddressSafe, Run, DeleteTrace, Erases, Step, Has, Answered, Entries.StateIn;
      ghost var w0 := W();
      StartsTrace(name);
      var m := NewManager([]);
      ok, trace := DeleteIn(m, name);
      SaveFailed := SaveFailed || m.cfg.Trouble;
      file := m.cfg.File;
      Leftovers.Interrupted(m.W());
      if trace != [] && trace[0].saved {
        Entries.DeleteLeavesNotRunning(w0, name, trace, ok);
      }
    }

    /** `delete cluster`, likewise. */
    method Delete(name: string) returns (ok: bool, ghost trace: seq<Label>)
      requires AddressSafe(W())
      modifies this, host
      ensures AddressSafe(W()) && W() == Run(old(W()), Settled(trace) + [Crash])
      ensures DeleteTrace(name, trace, ok) && (trace == [] <==> !Has(old(File.clusters), name))
      ensures ok ==> trace[0] == BeginDelete(name, true) && Erases(old(W()), trace)
      ensures old(Trouble()) ==> Trouble()
      ensures !Trouble() ==> (ok <==> Has(old(File.clusters), name)) && Answered(trace)
      ensures trace != [] && trace[0].saved ==> Entries.StateIn(File, name, Entries.NOT_RUNNING)
    {
      hide AddressSafe, Run, Settled, DeleteTrace, Erases, Step, Has, Answered;
      ghost var w0 := W();
      var file;
      ok, file, trace := RunDelete(name);
      File := file;
      ProcessEnds(w0, trace);
      EndsSafe(Run(w0, trace));
    }

    /**
     Creates of one new cluster, each in a process of its own, until one
     succeeds: then the host is as one clean create leaves it, if and only if no
     process ended with the command line published but unsaved.
     */
    method RetryCreate(spec: Cluster, tries: seq<seq<Draw>>) returns (ok: bool, ghost ls: seq<Label>)
      requires CanStart(W(), spec) && AddressSafe(W()) && BridgeOutside(BeginCreate(spec))
      modifies this, host
      ensures W() == Run(old(W()), ls) && forall l :: l in ls ==> Attempt(l, spec)
      ensures ok ==>
                ((exists draws :: AllocOk(old(File), spec, draws) &&
                                  W() == CreateCommand(old(W()), spec, draws, |Pipeline(os)|, false))
                 <==> !LostRun(old(W()), ls, spec.name))
    {
      ghost var w0 := W();
      hide CanStart, AddressSafe, Run, LostRun, Attempt, CreateTrace, Finishes, Finished, Settled;
      ls, ok := [], false;
      ghost var pre: seq<Label> := [];
      RunNone(w0);
      var i := 0;
      while i < |tries| && !ok
        invariant W() == Run(w0, ls) && AddressSafe(W()) && forall l :: l in ls ==> Attempt(l, spec)
        invariant ok ==> ls == Finished(pre) && (forall l :: l in pre ==> Attempt(l, spec)) &&
                         Through(Run(w0, pre))
      {
        ghost var trace: seq<Label>;
        ok, trace := Create(spec, tries[i]);
        pre := OneMoreProcess(w0, spec, ls, trace, ok);
        RunAppend(w0, ls, Settled(trace) + [Crash]);
        ls := ls + (Settled(trace) + [Crash]);
        i := i + 1;
      }
      if ok {
        FinishedIsClean(w0, spec, pre);
      }
    }

    /** One command of a user. */
    method Execute(cmd: Command) returns (ghost e: Event)
      requires AddressSafe(W()) && (cmd.CreateCluster? ==> BridgeOutside(BeginCreate(cmd.spec)))
      modifies this, host
      ensures e.before == old(W()) && e.cmd == cmd && W() == HostAfter(e) && AddressSafe(W())
      ensures Careful(e) && Consistent(e.before) ==> Consistent(W())
    {
      hide AddressSafe, Consistent, Careful, Run, Settled, CreateTrace, DeleteTrace, BridgeOutside, Finishes, Erases;
      ghost var before := W();
      var ok;
      ghost var trace;
      match cmd {
        case CreateCluster(spec, random) => ok, trace := Create(spec, random);
        case DeleteCluster(name) => ok, trace := Delete(name);
      }
      e := Event(before, cmd, trace, ok);
      CarefulKeeps(e);
    }

    /** Any commands, one after the other: all keep addresses safe, and careful ones keep reservations consistent. */
    method RunAll(cmds: seq<Command>) returns (ghost history: seq<Event>)
      requires AddressSafe(W())
      requires forall c :: c in cmds && c.CreateCluster? ==> BridgeOutside(BeginCreate(c.spec))
      modifies this, host
      ensures Happened(old(W()), history, W()) && |history| == |cmds|
      ensures forall i :: 0 <= i < |cmds| ==> history[i].cmd == cmds[i]
      ensures AddressSafe(W())
      ensures old(Consistent(W())) && (forall e :: e in history ==> Careful(e)) ==> Consistent(W())
    {
      ghost var w0 := W();
      hide AddressSafe, Consistent, Careful, HostAfter, BridgeOutside;
      history := [];
      for i := 0 to |cmds|
        invariant Happened(w0, history, W()) && |history| == i && AddressSafe(W())
        invariant forall j :: 0 <= j < i ==> history[j].cmd == cmds[j]
        invariant Consistent(w0) && (forall e :: e in history ==> Careful(e)) ==> Consistent(W())
      {
        assert cmds[i] in cmds;
        ghost var e := Execute(cmds[i]);
        Continues(w0, history, e);
        history := history + [e];
      }
    }

    /**
     `create cluster` and then `delete cluster`, each in its process: if no
     write of state.json failed under the create, and the delete succeeds or
     finds nothing, no rollback failing, all easyshift owns is as it was.
     */
    method CreateAndDelete(spec: Cluster, random: seq<Draw>)
        returns (deleted: bool, ghost created: seq<Label>, ghost undone: seq<Label>)
      requires FreshCreate(W(), spec) && BridgeOutside(BeginCreate(spec))
      modifies this, host
      ensures !Unrecorded(Run(old(W()), Settled(created))) && Answered(undone) && (deleted || undone == []) ==>
                Restored(old(W()), W())
      ensures !Trouble() ==> Answered(undone) && (deleted || undone == [])
    {
      ghost var w0 := W();
      StartsSafe(w0, spec);
      hide AddressSafe, FreshCreate, Run, Settled, CreateTrace, DeleteTrace, Unrecorded, Answered, Erases, Finishes;
      var ok;
      ok, created := Create(spec, random);
      ghost var mid := W();
      deleted, undone := Delete(spec.name);
      if !Unrecorded(Run(w0, Settled(created))) && Answered(undone) {
        CreatedPart(spec, created, ok);
        if undone == [] {
          RunNone(mid);
          NothingDone(mid);
          NotListed(w0, spec, Settled(created));
        } else if deleted {
          DeletedSteps(mid, spec.name, undone);
          ProcessesRestore(w0, spec, Settled(created), undone[1..]);
        }
      }
    }
  }

  // ----- what commands are -----

  datatype Command = CreateCluster(spec: Cluster, random: seq<Draw>) | DeleteCluster(name: string)

  /** A command that has run: the host before it, what it did, and whether it reported success. */
  datatype Event = Event(before: World, cmd: Command, trace: seq<Label>, ok: bool)

  ghost function HostAfter(e: Event): World {
    Run(e.before, Settled(e.trace) + [Crash])
  }

  ghost predicate Happened(w: World, history: seq<Event>, end: World)
    decreases |history|
  {
    if history == [] then end == w
    else
      var last := history[|history| - 1];
      Happened(w, history[..|history| - 1], last.before) && end == HostAfter(last)
  }

  lemma Continues(w: World, history: seq<Event>, e: Event)
    requires Happened(w, history, e.before)
    ensures Happened(w, history + [e], HostAfter(e))
  {
    assert (history + [e])[..|history|] == history;
  }

  /**
   A create meets no state.json of an unlisted cluster; a delete knows the
   cluster's reservation if there is one, no rollback fails, and it succeeds or
   at least does not end between removing a reservation and saying so.
   */
  ghost predicate Careful(e: Event) {
    match e.cmd
    case CreateCluster(spec, _) =>
      CreateTrace(spec, e.trace, e.ok) && BridgeOutside(BeginCreate(spec)) && NoStaleRecord(e.before, spec.name)
    case DeleteCluster(name) =>
      DeleteTrace(name, e.trace, e.ok) && KnownToDelete(e.before, name) && Answered(e.trace) &&
      (e.ok || !Exposed(Run(e.before, Settled(e.trace))))
  }

  /** The cluster object of a create is the process's own. */
  method CreateIn(m: ClusterManager, spec: Cluster) returns (ok: bool, ghost trace: seq<Label>)
    requires m.AtRest() && AddressSafe(m.W()) && BridgeOutside(BeginCreate(spec))
    modifies m.runner, m.cfg, m.cfg.Clusters, m.ctx.alloc, m.ctx.host
    ensures m.AtRest() && m.W() == Run(old(m.W()), trace) && AddressSafe(m.W())
    ensures CreateTrace(spec, trace, ok) && (ok ==> Finishes(old(m.W()), trace))
    ensures old(m.ctx.Trouble()) ==> m.ctx.Trouble()
    ensures !m.ctx.Trouble() ==>
              (ok <==> Through(Undisturbed(old(m.W()), spec, old(m.ctx.alloc.random), |Pipeline(m.ctx.os)|)))
  {
    hide AddressSafe, Run, CreateTrace, Finishes, BridgeOutside, Through, Undisturbed, Pipeline;
    var c := new ClusterConfig(spec);
    ok, trace := m.Create(c);
  }

  method DeleteIn(m: ClusterManager, name: string) returns (ok: bool, ghost trace: seq<Label>)
    requires m.AtRest() && AddressSafe(m.W())
    modifies m.runner, m.cfg, m.cfg.Clusters, m.ctx.host
    ensures m.AtRest() && m.W() == Run(old(m.W()), trace) && AddressSafe(m.W())
    ensures DeleteTrace(name, trace, ok) && (trace == [] <==> !Has(old(m.W()).mem.clusters, name))
    ensures ok ==> trace[0] == BeginDelete(name, true) && Erases(old(m.W()), trace)
    ensures old(m.ctx.Trouble()) ==> m.ctx.Trouble()
    ensures !m.ctx.Trouble() ==> (ok <==> Has(old(m.W()).mem.clusters, name)) && Answered(trace)
  {
    hide AddressSafe, Run, DeleteTrace, Erases, Called, Answered, Recorded, Has;
    ghost var calls: seq<Stage>;
    ok, trace, calls := m.Delete(name);
  }

  lemma StartsTrace(name: string)
    ensures forall trace: seq<Label>, ok :: DeleteTrace(name, trace, ok) && trace != [] ==> trace[0].BeginDelete?
  {
  }

  lemma UniqueFile(w: World)
    requires AddressSafe(w)
    ensures Unique(w.disk.clusters)
  {
  }

  lemma EndsSafe(w: World)
    requires AddressSafe(w)
    ensures AddressSafe(Step(w, Crash))
  {
    StepSafe(w, Crash);
  }

  lemma OneMoreProcess(w0: World, spec: Cluster, ls: seq<Label>, trace: seq<Label>, ok: bool) returns (pre: seq<Label>)
    requires CreateTrace(spec, trace, ok) && (forall l :: l in ls ==> Attempt(l, spec))
    requires ok ==> Finishes(Run(w0, ls), trace)
    ensures forall l :: l in ls + (Settled(trace) + [Crash]) ==> Attempt(l, spec)
    ensures ok ==> ls + (Settled(trace) + [Crash]) == Finished(pre) && (forall l :: l in pre ==> Attempt(l, spec)) &&
                   Through(Run(w0, pre))
  {
    hide Run, CreateTrace, Attempt;
    CreatedPart(spec, trace, ok);
    CreatesAreAttempts(spec, Settled(trace));
    pre := [];
    if ok {
      var n := |trace| - 1;
      pre := ls + trace[..n];
      RunAppend(w0, ls, trace[..n]);
      assert trace == trace[..n] + [FinishCreate(true)];
      assert forall l :: l in trace[..n] ==> l in Settled(trace) + [Crash];
    }
  }

  lemma CreatedPart(spec: Cluster, trace: seq<Label>, ok: bool)
    requires CreateTrace(spec, trace, ok)
    ensures CreatePart(spec, Settled(trace))
  {
    PartOfCreate(spec, trace, ok, |trace|);
    assert trace[..|trace|] == trace;
  }

  lemma CarefulKeeps(e: Event)
    requires e.before.proc.Idle? && e.before.mem == e.before.disk
    requires e.ok && e.cmd.DeleteCluster? ==> Erases(e.before, e.trace)
    ensures Careful(e) && Consistent(e.before) ==> Consistent(HostAfter(e))
  {
    hide Consistent, Run, KnownToDelete, NoStaleRecord, BridgeOutside, Erases, Settled, Exposed;
    if Careful(e) && Consistent(e.before) {
      match e.cmd
      case CreateCluster(spec, _) =>
        CreatedPart(spec, e.trace, e.ok);
        CreateStaysConsistent(e.before, spec, Settled(e.trace));
      case DeleteCluster(name) =>
        PartOfDelete(name, e.trace, e.ok, |e.trace|);
        assert e.trace[..|e.trace|] == e.trace;
        if e.ok { ErasedIsIdle(e.before, e.trace); }
        StillAnswered(e.trace);
        DeleteStaysConsistent(e.before, name, Settled(e.trace));
    }
  }

  lemma StillAnswered(trace: seq<Label>)
    requires Answered(trace)
    ensures Answered(Settled(trace))
  {
    assert forall l :: l in Settled(trace) ==> l in trace;
  }

  lemma ErasedIsIdle(w: World, trace: seq<Label>)
    requires Erases(w, trace)
    ensures Run(w, Settled(trace)).proc.Idle?
  {
  }

  lemma StartsSafe(w: World, spec: Cluster)
    requires FreshCreate(w, spec)
    ensures AddressSafe(w)
  {
  }

  lemma NothingDone(w: World)
    requires w.proc.Idle? && w.mem == w.disk
    ensures Run(w, Settled([]) + [Crash]) == w
  {
    EndsIdle(w, []);
  }

  lemma DeletedSteps(w: World, name: string, trace: seq<Label>)
    requires DeleteTrace(name, trace, true) && Answered(trace) && Erases(w, trace)
    requires trace[0] == BeginDelete(name, true)
    ensures var steps := trace[1..];
            && Ending(steps, false, FinishDelete(true)) && Answered(steps)
            && var last := Run(Step(w, trace[0]), steps[..|steps| - 1]).proc; last.Undoing? && last.k == 0
    ensures Run(w, Settled(trace) + [Crash]) == Step(Run(Step(w, trace[0]), trace[1..]), Crash)
  {
    hide Step, Ending;
    var steps := trace[1..];
    RunOne(w, trace[0]);
    RunAppend(w, [trace[0]], steps);
    RunAppend(w, [trace[0]], steps[..|steps| - 1]);
    assert [trace[0]] + steps == trace;
    assert [trace[0]] + steps[..|steps| - 1] == trace[..|trace| - 1];
    EndsIdle(w, trace);
  }
}

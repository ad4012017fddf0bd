/**
 The cluster commands as they run (app/manager.go, app/natreset.go): Create,
 Start, Stop, Delete and `nat-network reset`. Each execution is proved to be a
 run of the state machine, so every command keeps addresses safe.
 */
module Manager {
  import opened Text
  import opened Addresses
  import opened Model
  import opened NatReset
  import opened Lifecycle
  import opened Traces
  import opened Safety
  import opened Config
  import opened Allocator
  import opened Stages
  import opened Runner

  class ClusterManager {
    const runner: Runner
    const ctx: Context
    const cfg: Config

    constructor (runner: Runner)
      ensures this.runner == runner && ctx == runner.ctx && cfg == runner.ctx.cfg
    {
      this.runner, ctx, cfg := runner, runner.ctx, runner.ctx.cfg;
    }

    ghost predicate AtRest()
      reads runner, cfg, cfg.Clusters
    {
      runner.ctx == ctx && ctx.cfg == cfg && ctx.alloc.cfg == cfg && cfg.Valid() && runner.Where == Idle
    }

    ghost function W(): World
      reads runner, runner.ctx.cfg, runner.ctx.cfg.Clusters, runner.ctx.host
    {
      runner.W()
    }

    lemma ListedPoint(c: ClusterConfig)
      requires cfg.Valid() && c in cfg.Clusters
      ensures cfg.Points(c)
    {
      ValueListed(cfg.Clusters, c);
      assert Has(Values(cfg.Clusters), c.Name) by {
        var k :| 0 <= k < |cfg.Clusters| && cfg.Clusters[k] == c;
        assert Values(cfg.Clusters)[k].name == c.Name;
      }
    }

    /** Create: a new cluster, or the resumption of a registered one that is not running. */
    method Create(spec: ClusterConfig) returns (ok: bool, ghost trace: seq<Label>)
      requires AtRest() && spec !in cfg.Clusters
      modifies runner, cfg, cfg.Clusters, spec, ctx.alloc, ctx.host
      ensures AtRest() && W() == Run(old(W()), trace)
      ensures CreateTrace(old(spec.Value()), trace, ok)
      ensures old(AddressSafe(W())) && BridgeOutside(BeginCreate(old(spec.Value()))) ==> AddressSafe(W())
      ensures ok ==> Finishes(old(W()), trace)
      ensures trace != [] ==> Step(old(W()), BeginCreate(old(spec.Value()))).proc.Applying?
      ensures old(ctx.Trouble()) ==> ctx.Trouble()
      ensures !ctx.Trouble() ==>
                var end := Undisturbed(old(W()), old(spec.Value()), old(ctx.alloc.random), |Pipeline(ctx.os)|);
                && (ok <==> Through(end))
                && W() == Step(end, if ok then FinishCreate(true) else Abort)
                && (trace == [] <==> Step(old(W()), BeginCreate(old(spec.Value()))) == old(W()))
    {
      hide Run, Step, AddressSafe, BridgeOutside, Through, Ending, Staged, Pipeline;
      ghost var w0 := W();
      ghost var begin := BeginCreate(spec.Value());
      trace := [];
      RunNone(w0);
      var c := PickCluster(spec);
      if c == null {
        if !ctx.Trouble() {
          RefusedIsIdle(w0, ctx.alloc.random, |Pipeline(ctx.os)|);
        }
        return false, trace;
      }
      runner.Where := Applying(c.Value(), Recorded(w0, c.Name), 0, false);
      RunOne(w0, begin);
      ghost var steps: seq<Label>;
      ok, steps := ApplyAll(c);
      trace := [begin] + steps;
      CreateTraceOf(begin.spec, steps, ok);
      RunAppend(w0, [begin], steps);
      CreateKeepsSafe(w0, begin, steps, ok);
      if ok { FinishesBehind(w0, begin, steps); }
    }

    /** The checks before anything is changed, and the cluster object to work on. */
    method PickCluster(spec: ClusterConfig) returns (c: ClusterConfig?)
      requires AtRest() && spec !in cfg.Clusters
      modifies ctx.host`Trouble
      ensures c != null ==> (c == spec || c in cfg.Clusters) && ctx.Ready(c)
      ensures c == null && !ctx.Trouble() ==> Step(W(), BeginCreate(spec.Value())) == W()
      ensures old(ctx.Trouble()) ==> ctx.Trouble()
      ensures c != null ==> Step(W(), BeginCreate(spec.Value())) ==
                            W().(proc := Applying(c.Value(), Recorded(W(), c.Name), 0, false))
    {
      if spec.Name == "" {
        return null;
      }
      c := cfg.FindCluster(spec.Name);
      if c != null {
        if c.State == Running {
          return null;
        }
        ListedPoint(c);
      } else {
        if !NewSpec(spec.Value()) || |cfg.Clusters| >= CLUSTERS_MAX {
          return null;
        }
        c := spec;
      }
      var passed := ctx.host.Call();   // the pull secret, the version lookup and the preflight checks
      if !passed {
        return null;
      }
    }

    method ApplyAll(c: ClusterConfig) returns (ok: bool, ghost steps: seq<Label>)
      requires runner.ctx == ctx && ctx.cfg == cfg && ctx.alloc.cfg == cfg && ctx.Ready(c)
      requires runner.Where == Applying(c.Value(), Recorded(W(), c.Name), 0, false)
      modifies runner, cfg, c, ctx.alloc, ctx.host
      ensures AtRest() && W() == Run(old(W()), steps)
      ensures Ending(steps, true, FinishCreate(ok)) || (!ok && Ending(steps, true, Abort))
      ensures ok ==> Finishes(old(W()), steps)
      ensures old(ctx.Trouble()) ==> ctx.Trouble()
      ensures !ctx.Trouble() ==>
                var end := Staged(old(W()), old(ctx.alloc.random), |Pipeline(ctx.os)|);
                (ok <==> Through(end)) && W() == Step(end, if ok then FinishCreate(true) else Abort)
    {
      hide Step, Run, Pipeline, FinishCreateStep, Staged, Looping, Ending;
      ghost var w0 := W();
      ok, steps := runner.Apply(c);
      if ok {
        assert (steps + [FinishCreate(true)])[..|steps|] == steps;
        EndsHere(steps, true, FinishCreate(true));
        EndsHere(steps, true, FinishCreate(false));
        FinishCreateIsStep(W());
        ok := FinishCreating(c);
        RunSnoc(w0, steps, FinishCreate(ok));
        steps := steps + [FinishCreate(ok)];
      }
    }

    /** After the last stage: re-assert the running state if a resume skipped finalize. */
    method FinishCreating(c: ClusterConfig) returns (saved: bool)
      requires runner.ctx == ctx && ctx.cfg == cfg && ctx.Ready(c) && ctx.alloc.cfg == cfg
      requires runner.Where.Applying? && runner.Where.cur == c.Value()
      modifies runner, cfg`File, cfg`Trouble, c`State
      ensures AtRest() && cfg.Trouble == (old(cfg.Trouble) || !saved)
      ensures W() == FinishCreateStep(old(W()), saved)
    {
      runner.Where := Idle;
      if c.State == Running {
        return true;
      }
      ghost var before := Values(cfg.Clusters);
      c.State := Running;
      ctx.FieldWritten(c, before, c.Value());
      saved := cfg.Save();
    }

    /** The state change and save shared by Start, Stop and Delete. */
    method SetState(c: ClusterConfig, to: ClusterState) returns (saved: bool)
      requires AtRest() && c in cfg.Clusters
      modifies cfg`File, cfg`Trouble, c`State
      ensures AtRest() && cfg.Trouble == (old(cfg.Trouble) || !saved)
      ensures c.Value() == old(c.Value()).(state := to)
      ensures Values(cfg.Clusters) == Put(old(Values(cfg.Clusters)), c.Value())
      ensures cfg.File == if saved then cfg.Memory() else old(cfg.File)
    {
      ListedPoint(c);
      ghost var before := Values(cfg.Clusters);
      c.State := to;
      ctx.FieldWritten(c, before, c.Value());
      saved := cfg.Save();
    }

    /** vmNames: the masters' VMs and then the workers'; an accepted cluster has one, the one its reservation names. */
    method VMNames(name: string, masters: nat, workers: nat) returns (names: seq<string>)
      ensures |names| == masters + workers
      ensures forall i :: 0 <= i < masters ==> names[i] == "master-" + Decimal(i) + "-" + name
      ensures forall i :: 0 <= i < workers ==> names[masters + i] == "worker-" + Decimal(i) + "-" + name
      ensures masters == 1 && workers == 0 ==> names == [MasterName(name)]
    {
      names := [];
      for i := 0 to masters
        invariant |names| == i && forall j :: 0 <= j < i ==> names[j] == "master-" + Decimal(j) + "-" + name
      {
        names := names + ["master-" + Decimal(i) + "-" + name];
      }
      for i := 0 to workers
        invariant |names| == masters + i
        invariant forall j :: 0 <= j < masters ==> names[j] == "master-" + Decimal(j) + "-" + name
        invariant forall j :: 0 <= j < i ==> names[masters + j] == "worker-" + Decimal(j) + "-" + name
      {
        names := names + ["worker-" + Decimal(i) + "-" + name];
      }
      FirstMaster(name);
    }

    method StartCluster(name: string) returns (ok: bool, ghost trace: seq<Label>)
      requires AtRest()
      modifies cfg`File, cfg`Trouble, cfg.Clusters, ctx.host`Trouble
      ensures AtRest() && W() == Run(old(W()), trace)
      ensures old(AddressSafe(W())) ==> AddressSafe(W())
      ensures ok ==> trace == [Start(name, true)]
      ensures ok ==> var c := Find(old(Values(cfg.Clusters)), name); c.Some? && c.value.state != Running
      ensures old(ctx.Trouble()) ==> ctx.Trouble()
      ensures !ctx.Trouble() ==>
                (ok <==> var c := Find(old(Values(cfg.Clusters)), name); c.Some? && c.value.state != Running)
    {
      hide Run, Step, AddressSafe, Put, Find, Pipeline;
      ghost var w0 := W();
      trace := [];
      RunNone(w0);
      var c := cfg.FindCluster(name);
      if c == null || c.State == Running {
        return false, trace;
      }
      var booted := ctx.host.Call();
      if !booted {
        return false, trace;
      }
      StartIsStep(w0, c.Value(), name);
      ok := SetState(c, Running);
      trace := [Start(name, ok)];
      RunOne(w0, trace[0]);
      KeepsSafe(w0, trace);
      if ok {
        ok := ctx.host.Call();   // convergeAfterStart: the cluster stays marked running whatever it answers
      }
    }

    method StopCluster(name: string) returns (ok: bool, ghost trace: seq<Label>)
      requires AtRest()
      modifies cfg`File, cfg`Trouble, cfg.Clusters
      ensures AtRest() && W() == Run(old(W()), trace)
      ensures old(AddressSafe(W())) ==> AddressSafe(W())
      ensures ok ==> trace == [Stop(name, true)]
      ensures ok ==> var c := Find(old(Values(cfg.Clusters)), name); c.Some? && c.value.state == Running
      ensures old(ctx.Trouble()) ==> ctx.Trouble()
      ensures !ctx.Trouble() ==>
                (ok <==> var c := Find(old(Values(cfg.Clusters)), name); c.Some? && c.value.state == Running)
    {
      hide Run, Step, AddressSafe, Put, Find, Pipeline;
      ghost var w0 := W();
      trace := [];
      RunNone(w0);
      var c := cfg.FindCluster(name);
      if c == null || c.State != Running {
        return false, trace;
      }
      StopIsStep(w0, c.Value(), name);
      ok := SetState(c, Stopped);
      trace := [Stop(name, ok)];
      RunOne(w0, trace[0]);
      KeepsSafe(w0, trace);
    }

    /** Delete: stop, roll everything recorded back, wipe the directory, save. */
    method Delete(name: string) returns (ok: bool, ghost trace: seq<Label>, ghost calls: seq<Stage>)
      requires AtRest()
      modifies runner, cfg, cfg.Clusters, ctx.host
      ensures AtRest() && W() == Run(old(W()), trace)
      ensures old(AddressSafe(W())) ==> AddressSafe(W())
      ensures DeleteTrace(name, trace, ok) && (trace == [] <==> !Has(old(Values(cfg.Clusters)), name))
      ensures ok ==> trace[0] == BeginDelete(name, true) && Erases(old(W()), trace)
      ensures ok ==> calls == Called(Pipeline(ctx.os), Recorded(old(W()), name), 0)
      ensures ok ==> name !in ctx.host.StateFiles && cfg.File == cfg.Memory()
      ensures old(ctx.Trouble()) ==> ctx.Trouble()
      ensures !ctx.Trouble() ==> (ok <==> Has(old(Values(cfg.Clusters)), name)) && Answered(trace)
      ensures ok && Answered(trace) ==>
                (Has(cfg.File.clusters, name) <==> RegisterCluster !in Recorded(old(W()), name))
    {
      hide Run, Step, AddressSafe, Erases, Find, Pipeline, Put, Ending, Called, Answered;
      ghost var w0 := W();
      trace, calls := [], [];
      RunNone(w0);
      NothingYet();
      var c := cfg.FindCluster(name);
      if c == null {
        return false, trace, calls;
      }
      assert Has(Values(cfg.Clusters), name);
      ghost var begin: Label, steps: seq<Label>;
      ok, begin, steps, calls := DeleteListed(c);
      trace := [begin] + steps;
      BeginsAnswered(begin, steps);
      DeleteTraceOf(begin, steps, ok);
      DeleteKeepsSafe(w0, begin, steps, ok);
      if ok {
        DeleteEnds(w0, name, steps, trace);
      }
    }

    /** The rest of Delete once the cluster is found. */
    method DeleteListed(c: ClusterConfig)
        returns (ok: bool, ghost begin: Label, ghost steps: seq<Label>, ghost calls: seq<Stage>)
      requires AtRest() && c in cfg.Clusters && Find(Values(cfg.Clusters), c.Name) == Some(c.Value())
      modifies runner, cfg, c, ctx.host
      ensures AtRest() && W() == Run(old(W()), [begin] + steps)
      ensures begin.BeginDelete? && begin.name == old(c.Name) && (ok ==> begin.saved)
      ensures Ending(steps, false, FinishDelete(ok)) || (!ok && Ending(steps, false, Abort))
      ensures ok ==> Erases(Run(old(W()), [begin]), steps)
      ensures ok ==> calls == Called(Pipeline(ctx.os), Recorded(old(W()), old(c.Name)), 0)
      ensures ok ==> old(c.Name) !in ctx.host.StateFiles && cfg.File == cfg.Memory()
      ensures old(ctx.Trouble()) ==> ctx.Trouble()
      ensures !ctx.Trouble() ==> ok && Answered(steps)
    {
      hide Run, Step, Erases, Find, Pipeline, Put, Ending, Called, Answered, Looping;
      ghost var w0 := W();
      ListedPoint(c);
      ok, begin := BeginDeleting(c);
      RunOne(w0, begin);
      calls := [];
      if ok {
        ok, steps, calls := RollbackAll(c);
      } else {
        steps := [Abort];
        EndsHere([], false, Abort);
        assert [] + [Abort] == steps;
        RunOne(W(), Abort);
        AbortIsStep(W());
        runner.Where := Idle;
      }
      RunAppend(w0, [begin], steps);
    }

    /** Stop a running cluster first; a failed save ends the command. */
    method BeginDeleting(c: ClusterConfig) returns (ok: bool, ghost begin: Label)
      requires AtRest() && c in cfg.Clusters && Find(Values(cfg.Clusters), c.Name) == Some(c.Value())
      modifies runner, cfg`File, cfg`Trouble, c`State
      ensures cfg.Trouble == (old(cfg.Trouble) || !ok)
      ensures begin == BeginDelete(c.Name, ok) && W() == Step(old(W()), begin)
      ensures runner.ctx == ctx && ctx.cfg == cfg && ctx.alloc.cfg == cfg && cfg.Valid() && c in cfg.Clusters &&
          ctx.Ready(c)
      ensures runner.Where == if ok then Undoing(c.Value(), Recorded(W(), c.Name), |Pipeline(ctx.os)|,
          false) else Failed
    {
      hide Step, Pipeline, Find, Put;
      BeginDeleteIsStep(W(), c.Value(), c.Name);
      ListedPoint(c);
      ok := true;
      if c.State == Running {
        ok := SetState(c, Stopped);
        ListedPoint(c);
      }
      begin := BeginDelete(c.Name, ok);
      runner.Where := if ok then Undoing(c.Value(), Recorded(W(), c.Name), |Pipeline(ctx.os)|, false) else Failed;
    }

    method RollbackAll(c: ClusterConfig) returns (ok: bool, ghost steps: seq<Label>, ghost calls: seq<Stage>)
      requires runner.ctx == ctx && ctx.cfg == cfg && ctx.alloc.cfg == cfg && ctx.Ready(c)
      requires runner.Where == Undoing(c.Value(), Recorded(W(), c.Name), |Pipeline(ctx.os)|, false)
      modifies runner, cfg, c, ctx.host
      ensures AtRest() && W() == Run(old(W()), steps)
      ensures Ending(steps, false, FinishDelete(ok)) || (!ok && Ending(steps, false, Abort))
      ensures ok ==> Erases(old(W()), steps) && calls == Called(Pipeline(ctx.os), old(runner.Where).rec, 0)
      ensures ok ==> c.Name !in ctx.host.StateFiles && cfg.File == cfg.Memory() && c.Name == old(c.Name)
      ensures old(ctx.Trouble()) ==> ctx.Trouble()
      ensures !ctx.Trouble() ==> ok && Answered(steps)
    {
      hide Step, Run, Pipeline, Looping, Ending, Answered;
      ghost var w0 := W();
      ok, steps, calls := runner.Rollback(c);
      if ok {
        assert (steps + [FinishDelete(true)])[..|steps|] == steps;
        EndsHere(steps, false, FinishDelete(true));
        EndsHere(steps, false, FinishDelete(false));
        FinishDeleteIsStep(W());
        ok := FinishDeleting(c);
        RunSnoc(w0, steps, FinishDelete(ok));
        StillAllAnswered(steps, FinishDelete(ok));
        steps := steps + [FinishDelete(ok)];
      }
    }

    /** After the rollback: wipe the cluster directory, save. */
    method FinishDeleting(c: ClusterConfig) returns (saved: bool)
      requires runner.ctx == ctx && ctx.cfg == cfg && ctx.Ready(c) && ctx.alloc.cfg == cfg
      requires runner.Where.Undoing? && runner.Where.cur == c.Value()
      modifies runner, cfg`File, cfg`Trouble, ctx.host`StateFiles
      ensures AtRest() && cfg.Trouble == (old(cfg.Trouble) || !saved)
      ensures W() == FinishDeleteStep(old(W()), saved)
      ensures c.Name !in ctx.host.StateFiles && (saved ==> cfg.File == cfg.Memory())
    {
      ctx.host.StateFiles := ctx.host.StateFiles - {c.Name};
      saved := cfg.Save();
      runner.Where := Idle;
    }

    // ----- nat-network reset (app/natreset.go) -----

    /** knownAddrs. */
    method KnownAddrs() returns (ips: set<string>, macs: set<string>)
      ensures ips == KnownIPs(Values(cfg.Clusters)) && macs == KnownMACs(Values(cfg.Clusters))
    {
      ghost var vs := Values(cfg.Clusters);
      ips, macs := {}, {};
      for i := 0 to |cfg.Clusters|
        invariant ips == KnownIPs(vs[..i]) && macs == KnownMACs(vs[..i])
      {
        var c := cfg.Clusters[i];
        for j := 0 to |c.IPAddresses|
          invariant ips == KnownIPs(vs[..i]) + Elems(c.IPAddresses[..j])
        {
          ips := ips + {c.IPAddresses[j]};
          assert c.IPAddresses[..j + 1] == c.IPAddresses[..j] + [c.IPAddresses[j]];
        }
        for j := 0 to |c.MACAddresses|
          invariant macs == KnownMACs(vs[..i]) + Lowered(c.MACAddresses[..j])
        {
          macs := macs + {Lower(c.MACAddresses[j])};
          assert c.MACAddresses[..j + 1] == c.MACAddresses[..j] + [c.MACAddresses[j]];
        }
        assert c.IPAddresses[..|c.IPAddresses|] == vs[i].ips && c.MACAddresses[..|c.MACAddresses|] == vs[i].macs;
        KnownSnoc(vs, i);
      }
      assert vs[..|vs|] == vs;
    }

    method OrphanReservations(ips: set<string>, macs: set<string>) returns (orphans: seq<DHCPHost>)
      requires ips == KnownIPs(Values(cfg.Clusters)) && macs == KnownMACs(Values(cfg.Clusters))
      ensures orphans == Orphans(Hosts(ctx.host.Net), Values(cfg.Clusters))
    {
      ghost var vs := Values(cfg.Clusters);
      var hs := Hosts(ctx.host.Net);
      orphans := [];
      for i := 0 to |hs|
        invariant orphans == Orphans(hs[..i], vs)
      {
        if Lower(hs[i].mac) !in macs && hs[i].ip !in ips {
          orphans := orphans + [hs[i]];
        }
        OrphansSnoc(hs, i, vs);
      }
      assert hs[..|hs|] == hs;
    }

    method LeakedMACs(macs: set<string>) returns (leaked: set<string>)
      ensures leaked == set m | m in cfg.UsedMACs && Lower(m) !in macs
    {
      leaked := {};
      var todo := cfg.UsedMACs;
      while todo != {}
        invariant todo <= cfg.UsedMACs
        invariant leaked == set m | m in cfg.UsedMACs - todo && Lower(m) !in macs
        decreases |todo|
      {
        var m :| m in todo;
        todo := todo - {m};
        if Lower(m) !in macs {
          leaked := leaked + {m};
        }
      }
    }

    /** The NAT clusters whose master is up; asked only when the network must be recreated. */
    method RunningClusters(up: set<string>) returns (running: set<string>)
      ensures running == set c | c in Values(cfg.Clusters) && c.isNAT && c.name in up :: c.name
    {
      ghost var vs := Values(cfg.Clusters);
      running := {};
      for i := 0 to |cfg.Clusters|
        invariant running == set c | c in vs[..i] && c.isNAT && c.name in up :: c.name
      {
        assert vs[..i + 1] == vs[..i] + [vs[i]];
        var c := cfg.Clusters[i];
        if c.IsNAT && c.Name in up {
          running := running + {c.Name};
        }
      }
      assert vs[..|vs|] == vs;
    }

    method PlanNATReset(up: set<string>, force: bool) returns (plan: Plan)
      ensures plan == MakePlan(cfg.Memory(), ctx.host.Net, up, force)
    {
      var net := ctx.host.Net;
      var ips, macs := KnownAddrs();
      var outdated := net.Defined? && net.start != "" && net.start != RANGE_START;
      var orphans := OrphanReservations(ips, macs);
      var leaked := LeakedMACs(macs);
      var running: set<string> := {};
      if outdated {
        running := RunningClusters(up);
      }
      plan := Plan(outdated, orphans, cfg.UsedIPs - ips, leaked, running, outdated, running != {} && !force);
    }

    /**
     `nat-network reset`: inspect, plan, and carry the plan out when there is
     work and nothing blocks it. Where it would cut off a running cluster
     without --force, nothing changes.
     */
    method ResetNATNetwork(up: set<string>, force: bool) returns (ok: bool, ghost trace: seq<Label>)
      requires AtRest()
      modifies runner, cfg`UsedIPs, cfg`UsedMACs, cfg`File, cfg`Trouble, ctx.host`Net, ctx.host`Trouble
      ensures AtRest() && W() == Run(old(W()), trace)
      ensures old(AddressSafe(W())) ==> AddressSafe(W())
      ensures ok ==> (cfg.Memory(), ctx.host.Net) == After(old(cfg.Memory()), old(ctx.host.Net), up, force)
      ensures ok && trace != [] ==> cfg.File == cfg.Memory()
      ensures WouldDisrupt(old(cfg.Memory()), old(ctx.host.Net), up) && !force ==> !ok && W() == old(W())
      ensures trace != [] ==> SomethingToDo(old(cfg.Memory()), old(ctx.host.Net))
      ensures old(ctx.Trouble()) ==> ctx.Trouble()
      ensures !ctx.Trouble() ==>
                && (ok <==> !(WouldDisrupt(old(cfg.Memory()), old(ctx.host.Net), up) && !force))
                && (trace != [] <==> ok && SomethingToDo(old(cfg.Memory()), old(ctx.host.Net)))
    {
      hide Run, Step, AddressSafe, ActAll, MakePlan, Actions, SomethingToDo, WouldDisrupt, After;
      ghost var w0 := W();
      trace := [];
      RunNone(w0);
      var inspected := ctx.host.Call();
      if !inspected {
        return false, trace;
      }
      PlanExact(cfg.Memory(), ctx.host.Net, up, force);
      AsPlanned(cfg.Memory(), ctx.host.Net, up, force);
      var plan := PlanNATReset(up, force);
      if !plan.HasWork() {
        return true, trace;
      }
      if plan.blocked {
        return false, trace;
      }
      ghost var begin := BeginReset(up, force);
      BeginResetIsStep(w0, up, force);
      RunOne(w0, begin);
      runner.Where := Resetting(plan, Actions(plan, Values(cfg.Clusters)));
      ghost var steps: seq<Label>;
      ok, steps := ApplyNATReset(plan);
      trace := [begin] + steps;
      RunAppend(w0, [begin], steps);
      KeepsSafe(w0, trace);
    }

    /** One provider call of a reset: it happens, or the command ends. */
    method ResetAction(ghost rest: seq<Action>, a: Action) returns (ok: bool, ghost l: Label)
      requires runner.ctx == ctx && ctx.cfg == cfg && ctx.alloc.cfg == cfg && cfg.Valid() && a != Prune
      requires runner.Where.Resetting? && runner.Where.todo == [a] + rest
      modifies runner, ctx.host`Net, ctx.host`Trouble
      ensures W() == Step(old(W()), l) && !l.BeginCreate?
      ensures cfg.Valid() && ctx.host.Trouble == (old(ctx.host.Trouble) || !ok)
      ensures if ok then runner.Where == Resetting(old(runner.Where.plan), rest) &&
          ctx.host.Net == ActOnNet(old(ctx.host.Net), a)
              else runner.Where == Idle && ctx.host.Net == old(ctx.host.Net)
    {
      assert ([a] + rest)[1..] == rest;
      ok := ctx.host.Call();
      if ok {
        ctx.host.Net := ActOnNet(ctx.host.Net, a);
        runner.Where := Resetting(runner.Where.plan, rest);
        l := ResetStep(true);
      } else {
        runner.Where := Idle;
        l := Abort;
      }
    }

    method ApplyNATReset(plan: Plan) returns (ok: bool, ghost steps: seq<Label>)
      requires runner.ctx == ctx && ctx.cfg == cfg && ctx.alloc.cfg == cfg && cfg.Valid()
      requires runner.Where == Resetting(plan, Actions(plan, Values(cfg.Clusters)))
      modifies runner, cfg`UsedIPs, cfg`UsedMACs, cfg`File, cfg`Trouble, ctx.host`Net, ctx.host`Trouble
      ensures AtRest() && W() == Run(old(W()), steps)
      ensures forall l :: l in steps ==> !l.BeginCreate?
      ensures ctx.Trouble() == (old(ctx.Trouble()) || !ok)
      ensures ok ==> cfg.Memory() == PruneCfg(old(cfg.Memory()), plan) && cfg.File == cfg.Memory()
                     && ctx.host.Net == ActAll(old(ctx.host.Net), Actions(plan, old(Values(cfg.Clusters))))
    {
      hide Run, Step, ActAll, Restores, NatClusters, PruneCfg;
      ghost var w0 := W();
      if plan.recreate {
        ok, steps := RecreateNetwork(plan);
      } else {
        ok, steps := RemoveOrphans(plan);
      }
      if ok {
        PruneNet(ctx.host.Net);
        ok := PruneAddresses(plan);
        RunSnoc(w0, steps, ResetStep(ok));
        steps := steps + [ResetStep(ok)];
      }
    }

    /** The last action: drop the leaked addresses and save. */
    method PruneAddresses(plan: Plan) returns (saved: bool)
      requires runner.ctx == ctx && ctx.cfg == cfg && ctx.alloc.cfg == cfg && cfg.Valid()
      requires runner.Where == Resetting(plan, [Prune])
      modifies runner, cfg`UsedIPs, cfg`UsedMACs, cfg`File, cfg`Trouble
      ensures cfg.Trouble == (old(cfg.Trouble) || !saved)
      ensures AtRest() && W() == Step(old(W()), ResetStep(saved))
      ensures cfg.Memory() == PruneCfg(old(cfg.Memory()), plan) && (saved ==> cfg.File == cfg.Memory())
    {
      hide Step;
      PruneIsStep(W());
      cfg.UsedIPs := cfg.UsedIPs - plan.leakedIPs;
      cfg.UsedMACs := cfg.UsedMACs - plan.leakedMACs;
      saved := cfg.Save();
      runner.Where := Idle;
    }

    method RemoveOrphans(plan: Plan) returns (ok: bool, ghost steps: seq<Label>)
      requires runner.ctx == ctx && ctx.cfg == cfg && ctx.alloc.cfg == cfg && cfg.Valid()
      requires runner.Where == Resetting(plan, Removes(plan.orphans) + [Prune])
      modifies runner, ctx.host`Net, ctx.host`Trouble
      ensures cfg.Valid() && W() == Run(old(W()), steps)
      ensures ctx.host.Trouble == (old(ctx.host.Trouble) || !ok)
      ensures forall l :: l in steps ==> !l.BeginCreate?
      ensures if ok then
                runner.Where == Resetting(plan, [Prune]) &&
                ActAll(ctx.host.Net, [Prune]) == ActAll(old(ctx.host.Net), Removes(plan.orphans) + [Prune])
              else runner.Where == Idle
    {
      hide Run, Step, Removes;
      ghost var w0 := W();
      steps := [];
      RunNone(w0);
      var i := 0;
      assert plan.orphans[0..] == plan.orphans;
      while i < |plan.orphans|
        invariant 0 <= i <= |plan.orphans| && cfg.Valid() && ctx.host.Trouble == old(ctx.host.Trouble)
        invariant runner.Where == Resetting(plan, Removes(plan.orphans[i..]) + [Prune])
        invariant W() == Run(w0, steps)
        invariant forall l :: l in steps ==> !l.BeginCreate?
        invariant ActAll(ctx.host.Net, Removes(plan.orphans[i..]) + [Prune]) ==
                  ActAll(old(ctx.host.Net), Removes(plan.orphans) + [Prune])
      {
        var a := Remove(plan.orphans[i]);
        ghost var rest := Removes(plan.orphans[i + 1..]) + [Prune];
        RemovesFrom(plan.orphans, i);
        assert [a] + Removes(plan.orphans[i + 1..]) + [Prune] == [a] + rest;
        ActOne(ctx.host.Net, a, rest);
        ghost var l: Label;
        ok, l := ResetAction(rest, a);
        RunSnoc(w0, steps, l);
        steps := steps + [l];
        if !ok {
          return false, steps;
        }
        i := i + 1;
      }
      RemovesNone(plan.orphans[i..]);
      ok := true;
    }

    /** natClusters. */
    method NatObjects() returns (nats: seq<ClusterConfig>)
      ensures Values(nats) == NatClusters(Values(cfg.Clusters))
    {
      ghost var vs := Values(cfg.Clusters);
      nats := [];
      for i := 0 to |cfg.Clusters|
        invariant Values(nats) == NatClusters(vs[..i])
      {
        NatSnoc(vs, i);
        if cfg.Clusters[i].IsNAT {
          assert Values(nats + [cfg.Clusters[i]]) == Values(nats) + [vs[i]];
          nats := nats + [cfg.Clusters[i]];
        }
      }
      assert vs[..|vs|] == vs;
    }

    method RecreateNetwork(plan: Plan) returns (ok: bool, ghost steps: seq<Label>)
      requires runner.ctx == ctx && ctx.cfg == cfg && ctx.alloc.cfg == cfg && cfg.Valid() && plan.recreate
      requires runner.Where == Resetting(plan, Actions(plan, Values(cfg.Clusters)))
      modifies runner, ctx.host`Net, ctx.host`Trouble
      ensures cfg.Valid() && W() == Run(old(W()), steps)
      ensures ctx.host.Trouble == (old(ctx.host.Trouble) || !ok)
      ensures forall l :: l in steps ==> !l.BeginCreate?
      ensures if ok then
                runner.Where == Resetting(plan, [Prune]) &&
                ActAll(ctx.host.Net, [Prune]) == ActAll(old(ctx.host.Net), Actions(plan, Values(cfg.Clusters)))
              else runner.Where == Idle
    {
      hide Run, Step, ActAll, ActOnNet, Actions, Restores, NatClusters;
      ghost var w0 := W();
      var nats := NatObjects();
      ghost var rest := if |nats| == 0 then [Prune] else [Rebuild] + (Restores(Values(nats)) + [Prune]);
      RecreateList(plan, Values(cfg.Clusters), Values(nats));
      ActOne(ctx.host.Net, TearDown, rest);
      ghost var l: Label;
      ok, l := ResetAction(rest, TearDown);
      steps := [l];
      RunOne(w0, l);
      if ok && |nats| > 0 {
        ghost var more: seq<Label>;
        ok, more := RebuildNetwork(plan, nats);
        RunAppend(w0, steps, more);
        steps := steps + more;
      }
    }

    method RebuildNetwork(plan: Plan, nats: seq<ClusterConfig>) returns (ok: bool, ghost steps: seq<Label>)
      requires runner.ctx == ctx && ctx.cfg == cfg && ctx.alloc.cfg == cfg && cfg.Valid()
      requires runner.Where == Resetting(plan, [Rebuild] + (Restores(Values(nats)) + [Prune]))
      modifies runner, ctx.host`Net, ctx.host`Trouble
      ensures cfg.Valid() && W() == Run(old(W()), steps)
      ensures ctx.host.Trouble == (old(ctx.host.Trouble) || !ok)
      ensures forall l :: l in steps ==> !l.BeginCreate?
      ensures if ok then
                runner.Where == Resetting(plan, [Prune]) &&
                ActAll(ctx.host.Net, [Prune]) ==
                ActAll(old(ctx.host.Net), [Rebuild] + (Restores(Values(nats)) + [Prune]))
              else runner.Where == Idle
    {
      hide Run, Step, ActAll, ActOnNet, Restores;
      ghost var w0 := W();
      ghost var l: Label;
      ActOne(ctx.host.Net, Rebuild, Restores(Values(nats)) + [Prune]);
      ok, l := ResetAction(Restores(Values(nats)) + [Prune], Rebuild);
      steps := [l];
      RunOne(w0, l);
      if ok {
        ghost var more: seq<Label>;
        ok, more := RestoreReservations(plan, nats);
        RunAppend(w0, steps, more);
        steps := steps + more;
      }
    }

    method RestoreReservations(plan: Plan, nats: seq<ClusterConfig>) returns (ok: bool, ghost steps: seq<Label>)
      requires runner.ctx == ctx && ctx.cfg == cfg && ctx.alloc.cfg == cfg && cfg.Valid()
      requires runner.Where == Resetting(plan, Restores(Values(nats)) + [Prune])
      modifies runner, ctx.host`Net, ctx.host`Trouble
      ensures cfg.Valid() && W() == Run(old(W()), steps)
      ensures ctx.host.Trouble == (old(ctx.host.Trouble) || !ok)
      ensures forall l :: l in steps ==> !l.BeginCreate?
      ensures if ok then
                runner.Where == Resetting(plan, [Prune]) &&
                ActAll(ctx.host.Net, [Prune]) == ActAll(old(ctx.host.Net), Restores(Values(nats)) + [Prune])
              else runner.Where == Idle
    {
      hide Run, Step, ActAll, ActOnNet, Restores, MasterName;
      ghost var w0, vs := W(), Values(nats);
      steps := [];
      RunNone(w0);
      assert vs[0..] == vs;
      var i := 0;
      while i < |nats|
        invariant 0 <= i <= |nats| && cfg.Valid() && Values(nats) == vs && ctx.host.Trouble == old(ctx.host.Trouble)
        invariant runner.Where == Resetting(plan, Restores(vs[i..]) + [Prune])
        invariant W() == Run(w0, steps)
        invariant forall l :: l in steps ==> !l.BeginCreate?
        invariant ActAll(ctx.host.Net, Restores(vs[i..]) + [Prune]) == ActAll(old(ctx.host.Net), Restores(vs) + [Prune])
      {
        RestoresFrom(vs, i);
        var mac, ip := PrimaryMAC(nats[i].Value()), PrimaryIP(nats[i].Value());
        if mac != "" && ip != "" {
          var a := Restore(DHCPHost(mac, ip, MasterName(nats[i].Name)));
          ghost var rest := Restores(vs[i + 1..]) + [Prune];
          assert Restores(vs[i..]) + [Prune] == [a] + rest;
          ActOne(ctx.host.Net, a, rest);
          ghost var l: Label;
          ok, l := ResetAction(rest, a);
          RunSnoc(w0, steps, l);
          steps := steps + [l];
          if !ok {
            return false, steps;
          }
        }
        i := i + 1;
      }
      RestoresNone(vs[i..]);
      ok := true;
    }
  }

  lemma FirstMaster(name: string)
    ensures MasterName(name) == "master-" + Decimal(0) + "-" + name
  {
    assert Decimal(0) == "0";
    assert "master-" + "0" + "-" == "master-0-";
  }

  /** The run ends by finishing a create that is through. */
  ghost predicate Finishes(w: World, trace: seq<Label>) {
    trace != [] && trace[|trace| - 1] == FinishCreate(true) && Through(Run(w, trace[..|trace| - 1]))
  }

  lemma FinishesBehind(w: World, begin: Label, steps: seq<Label>)
    requires Finishes(Run(w, [begin]), steps)
    ensures Finishes(w, [begin] + steps)
  {
    var n := |steps| - 1;
    assert ([begin] + steps)[..n + 1] == [begin] + steps[..n];
    RunAppend(w, [begin], steps[..n]);
  }

  /** The run ends by finishing a delete whose rollback is through. */
  ghost predicate Erases(w: World, trace: seq<Label>) {
    && trace != [] && trace[|trace| - 1] == FinishDelete(true)
    && var last := Run(w, trace[..|trace| - 1]);
       last.proc.Undoing? && last.proc.k == 0 && !last.proc.done
  }

  /** What a successful delete has done to the list. */
  lemma DeleteEnds(w: World, name: string, steps: seq<Label>, trace: seq<Label>)
    requires w.proc.Idle? && Unique(w.mem.clusters) && trace == [BeginDelete(name, true)] + steps
    requires Ending(steps, false, FinishDelete(true)) && Erases(Run(w, [BeginDelete(name, true)]), steps)
    ensures Erases(w, trace)
    ensures Answered(trace) ==> (Has(Run(w, trace).disk.clusters, name) <==> RegisterCluster !in Recorded(w, name))
  {
    hide Step, Ending;
    var begin := BeginDelete(name, true);
    RunOne(w, begin);
    RunAppend(w, [begin], steps);
    ErasesBehind(w, begin, steps);
    if Answered(trace) {
      assert forall l :: l in steps ==> l in trace;
      DeleteUnlists(w, name, steps);
    }
  }

  lemma StillAllAnswered(steps: seq<Label>, l: Label)
    requires !l.UndoStage?
    ensures Answered(steps) ==> Answered(steps + [l])
  {
  }

  lemma BeginsAnswered(begin: Label, steps: seq<Label>)
    requires begin.BeginDelete?
    ensures Answered(steps) ==> Answered([begin] + steps)
  {
  }

  /** A command that could not begin does not get on. */
  lemma RefusedIsIdle(w: World, draws: seq<Draw>, j: nat)
    requires w.proc.Idle?
    ensures Staged(w, draws, j) == w && Step(w, Abort) == w && !Through(w)
  {
    StagedNone(w, draws);
    StagedIdle(w, draws, 0, j);
  }

  lemma ErasesBehind(w: World, begin: Label, steps: seq<Label>)
    requires Erases(Run(w, [begin]), steps)
    ensures Erases(w, [begin] + steps)
  {
    var n := |steps| - 1;
    assert ([begin] + steps)[..n + 1] == [begin] + steps[..n];
    RunAppend(w, [begin], steps[..n]);
  }

  // ----- lists grown from the end -----

  function Lowered(macs: seq<string>): set<string> {
    set m | m in macs :: Lower(m)
  }

  lemma KnownSnoc(vs: seq<Cluster>, i: nat)
    requires i < |vs|
    ensures KnownIPs(vs[..i + 1]) == KnownIPs(vs[..i]) + Elems(vs[i].ips)
    ensures KnownMACs(vs[..i + 1]) == KnownMACs(vs[..i]) + Lowered(vs[i].macs)
  {
    assert vs[..i + 1] == vs[..i] + [vs[i]];
    assert forall c :: c in vs[..i + 1] <==> c in vs[..i] || c == vs[i];
  }

  lemma {:induction false} OrphansAppend(a: seq<DHCPHost>, h: DHCPHost, cs: seq<Cluster>)
    ensures Orphans(a + [h], cs) == Orphans(a, cs) + (if Orphan(h, cs) then [h] else [])
  {
    if a == [] {
      assert [] + [h] == [h] && [h][1..] == [];
    } else {
      assert (a + [h])[1..] == a[1..] + [h];
      OrphansAppend(a[1..], h, cs);
    }
  }

  lemma OrphansSnoc(hs: seq<DHCPHost>, i: nat, cs: seq<Cluster>)
    requires i < |hs|
    ensures Orphans(hs[..i + 1], cs) == Orphans(hs[..i], cs) + (if Orphan(hs[i], cs) then [hs[i]] else [])
  {
    assert hs[..i + 1] == hs[..i] + [hs[i]];
    OrphansAppend(hs[..i], hs[i], cs);
  }

  lemma {:induction false} NatAppend(a: seq<Cluster>, c: Cluster)
    ensures NatClusters(a + [c]) == NatClusters(a) + (if c.isNAT then [c] else [])
  {
    if a == [] {
      assert [] + [c] == [c] && [c][1..] == [];
    } else {
      assert (a + [c])[1..] == a[1..] + [c];
      NatAppend(a[1..], c);
    }
  }

  lemma NatSnoc(vs: seq<Cluster>, i: nat)
    requires i < |vs|
    ensures NatClusters(vs[..i + 1]) == NatClusters(vs[..i]) + (if vs[i].isNAT then [vs[i]] else [])
  {
    assert vs[..i + 1] == vs[..i] + [vs[i]];
    NatAppend(vs[..i], vs[i]);
  }

  /** What carrying out a plan comes to; one without work changes nothing. */
  lemma AsPlanned(cfg: Cfg, net: Net, up: set<string>, force: bool)
    ensures var plan := MakePlan(cfg, net, up, force);
            && After(cfg, net, up, force) == (PruneCfg(cfg, plan), ActAll(net, Actions(plan, cfg.clusters)))
            && (!plan.HasWork() ==> After(cfg, net, up, force) == (cfg, net))
            && (WouldDisrupt(cfg, net, up) ==> plan.HasWork())
  {
    hide ActAll;
    var plan := MakePlan(cfg, net, up, force);
    PlanExact(cfg, net, up, force);
    if !plan.HasWork() {
      RemovesNone(plan.orphans);
      PruneNet(net);
      assert cfg.usedIPs - plan.leakedIPs == cfg.usedIPs && cfg.usedMACs - plan.leakedMACs == cfg.usedMACs;
    }
  }

  lemma RemovesNone(orphans: seq<DHCPHost>)
    requires orphans == []
    ensures Removes(orphans) + [Prune] == [Prune]
  {
  }

  lemma RestoresNone(vs: seq<Cluster>)
    requires vs == []
    ensures Restores(vs) + [Prune] == [Prune]
  {
  }

  lemma RestoresFrom(vs: seq<Cluster>, i: nat)
    requires i < |vs|
    ensures var mac, ip := PrimaryMAC(vs[i]), PrimaryIP(vs[i]);
      Restores(vs[i..]) ==
        (if mac == "" || ip == "" then [] else [Restore(DHCPHost(mac, ip,
            MasterName(vs[i].name)))]) + Restores(vs[i + 1..])
    ensures PrimaryMAC(vs[i]) == "" || PrimaryIP(vs[i]) == "" ==> Restores(vs[i..]) == Restores(vs[i + 1..])
  {
    assert vs[i..][1..] == vs[i + 1..] && vs[i..][0] == vs[i];
  }

  lemma RemovesFrom(orphans: seq<DHCPHost>, i: nat)
    requires i < |orphans|
    ensures Removes(orphans[i..]) == [Remove(orphans[i])] + Removes(orphans[i + 1..])
  {
    var all, rest := orphans[i..], orphans[i + 1..];
    assert all == [orphans[i]] + rest;
  }

  lemma PruneNet(net: Net)
    ensures ActAll(net, [Prune]) == net
  {
    assert ActAll(net, [Prune]) == ActAll(net, [Prune][1..]);
  }

  lemma RecreateList(plan: Plan, cs: seq<Cluster>, nats: seq<Cluster>)
    requires plan.recreate && nats == NatClusters(cs)
    ensures Actions(plan, cs) == [TearDown] + (if |nats| == 0 then [Prune] else [Rebuild] + (Restores(nats) + [Prune]))
  {
  }

  lemma ActOne(net: Net, a: Action, rest: seq<Action>)
    ensures ActAll(net, [a] + rest) == ActAll(ActOnNet(net, a), rest)
  {
    assert ([a] + rest)[1..] == rest;
  }

  // ----- what a command's own actions are as steps -----

  lemma FinishCreateIsStep(w: World)
    requires w.proc.Applying? && w.proc.k == |Pipeline(w.os)|
    ensures forall saved :: Step(w, FinishCreate(saved)) == FinishCreateStep(w, saved)
  {
  }

  lemma StartIsStep(w: World, c: Cluster, name: string)
    requires w.proc.Idle? && Find(w.mem.clusters, name) == Some(c) && c.state != Running
    ensures forall saved ::
              var m := w.mem.(clusters := Put(w.mem.clusters, c.(state := Running)));
              Step(w, Start(name, saved)) == w.(mem := m, disk := if saved then m else w.disk)
  {
  }

  lemma StopIsStep(w: World, c: Cluster, name: string)
    requires w.proc.Idle? && Find(w.mem.clusters, name) == Some(c) && c.state == Running
    ensures forall saved ::
              var m := w.mem.(clusters := Put(w.mem.clusters, c.(state := Stopped)));
              Step(w, Stop(name, saved)) == w.(mem := m, disk := if saved then m else w.disk)
  {
  }

  lemma BeginDeleteIsStep(w: World, c: Cluster, name: string)
    requires w.proc.Idle? && Find(w.mem.clusters, name) == Some(c)
    ensures forall saved ::
              var c' := if c.state == Running then c.(state := Stopped) else c;
              var m := if c.state == Running then w.mem.(clusters := Put(w.mem.clusters, c')) else w.mem;
              Step(w, BeginDelete(name, saved)) ==
              w.(mem := m, disk := if c.state == Running && saved then m else w.disk,
                 proc := if c.state == Running && !saved then Failed
                         else Undoing(c', Recorded(w, name), |Pipeline(w.os)|, false))
  {
  }

  lemma FinishDeleteIsStep(w: World)
    requires w.proc.Undoing? && w.proc.k == 0
    ensures forall saved :: Step(w, FinishDelete(saved)) == FinishDeleteStep(w, saved)
  {
  }

  lemma BeginResetIsStep(w: World, up: set<string>, force: bool)
    requires w.proc.Idle?
    ensures Step(w, BeginReset(up, force)) == BeginResetStep(w, up, force)
  {
  }

  lemma PruneIsStep(w: World)
    requires w.proc.Resetting? && w.proc.todo == [Prune]
    ensures forall saved :: Step(w, ResetStep(saved)) ==
                            w.(mem := PruneCfg(w.mem, w.proc.plan),
                               disk := if saved then PruneCfg(w.mem, w.proc.plan) else w.disk, proc := Idle)
  {
  }

  lemma KeepsSafe(w: World, trace: seq<Label>)
    requires forall l :: l in trace ==> !l.BeginCreate?
    ensures AddressSafe(w) ==> AddressSafe(Run(w, trace))
  {
    if AddressSafe(w) {
      RunSafe(w, trace);
    }
  }

  lemma DeleteKeepsSafe(w: World, begin: Label, steps: seq<Label>, ok: bool)
    requires begin.BeginDelete? && (Ending(steps, false, FinishDelete(ok)) || Ending(steps, false, Abort))
    ensures AddressSafe(w) ==> AddressSafe(Run(w, [begin] + steps))
  {
    assert forall i :: 0 <= i < |steps| ==> !steps[i].BeginCreate?;
    KeepsSafe(w, [begin] + steps);
  }

  lemma CreateKeepsSafe(w: World, begin: Label, steps: seq<Label>, ok: bool)
    requires Ending(steps, true, FinishCreate(ok)) || Ending(steps, true, Abort)
    ensures AddressSafe(w) && BridgeOutside(begin) ==> AddressSafe(Run(w, [begin] + steps))
  {
    assert forall i :: 0 <= i < |steps| ==> !steps[i].BeginCreate?;
    if AddressSafe(w) && BridgeOutside(begin) {
      RunSafe(w, [begin] + steps);
    }
  }
}

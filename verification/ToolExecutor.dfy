/**
 The executor object: it fills its message, record and artifact lists as it
 dispatches the groups of one assistant message, alone or on a worker pool.
 */
module ToolExecutor {
  import opened ToolDispatch
  import opened DispatchRefinement
  import opened DispatchReport

  class Executor {
    const kit: Kit
    var world: World
    var toolMessages: seq<ToolMessage>
    var toolRecords: seq<ToolRecord>
    var toolArtifacts: map<string, string>
    var crashed: bool

    constructor (kit: Kit, world: World)
      ensures this.kit == kit && View() == Exec(world, [], [], map[], false)
    {
      this.kit, this.world := kit, world;
      toolMessages, toolRecords, toolArtifacts, crashed := [], [], map[], false;
    }

    ghost function View(): Exec
      reads this
    {
      Exec(world, toolMessages, toolRecords, toolArtifacts, crashed)
    }

    method AppendResult(id: string, name: string, content: string, reason: string, ok: bool)
      modifies this`toolMessages, this`toolRecords
      ensures View() == Append(old(View()), ToolMessage(id, content, reason, ok), name)
    {
      toolMessages := toolMessages + [ToolMessage(id, content, reason, ok)];
      toolRecords := toolRecords + [ToolRecord(id, name, ok)];
    }

    /** Runs one tool on the calling thread to its end. */
    method InvokeTool(c: Call) returns (raw: Raw)
      modifies this`world
      ensures var r := Invoke(kit, c, Waiting, old(world), Total(kit, c));
              raw == RawOf(r.0) && View() == old(View()).(world := r.1)
    {
      var s := Waiting;
      var total := Total(kit, c);
      for n := 0 to total
        invariant Invoke(kit, c, Waiting, old(world), total) == Invoke(kit, c, s, world, total - n)
        invariant View() == old(View()).(world := world)
      {
        var r := WorkerStep(kit, c, s, world);
        s, world := r.0, r.1;
      }
      raw := RawOf(s);
    }

    method AfterToolCall(c: Call, raw: Raw)
      modifies this
      ensures View() == AfterCall(kit, old(View()), c, raw)
    {
      match raw
      case Crash => crashed := true;
      case Blocked(reason) => AppendResult(c.id, c.name, "", reason, false);
      case Reduced => AppendResult(c.id, c.name, "", "reduced", false);
      case Ran(output, ok, untrusted, isArtifact) =>
        var content := output;
        if isArtifact {
          toolArtifacts := toolArtifacts[c.id := output];
          var bounded := kit.bound(output, world.store);
          content := bounded.0;
          if bounded.1 { world := world.(store := world.store[c.id := output]); }
        }
        content := Presented(kit, content, isArtifact);
        if ok && untrusted {
          world := world.(untrusted := true);
          content := Framed(kit, content);
        }
        if c.name == "bash" && ok && kit.cloneCommand(c.command) { world := world.(cloned := true); }
        AppendResult(c.id, c.name, content, "ran", ok);
    }

    method DispatchOneCall(c: Call)
      requires !crashed
      modifies this
      ensures View() == DispatchOne(kit, old(View()), c)
    {
      if c.parseError.Some? {
        AppendResult(c.id, c.name, c.parseError.value, "parse_error", false);
        return;
      }
      var raw := InvokeTool(c);
      AfterToolCall(c, raw);
    }

    /** Overlaps the group's invocations as scheduled, then processes results in call order. */
    method DispatchOverlapped(group: seq<Call>, schedule: seq<nat>)
      requires !crashed
      modifies this
      ensures View() == DispatchParallel(kit, old(View()), group, schedule)
    {
      var workers := Waiters(|group|);
      for n := 0 to |schedule|
        invariant |workers| == |group| && View() == old(View()).(world := world)
        invariant RunWorkers(kit, group, Waiters(|group|), old(world), schedule)
               == RunWorkers(kit, group, workers, world, schedule[n..])
      {
        var i := schedule[n];
        assert schedule[n..][0] == i && schedule[n..][1..] == schedule[n + 1..];
        if i < |group| {
          var r := WorkerStep(kit, group[i], workers[i], world);
          workers, world := workers[i := r.0], r.1;
        }
      }
      ghost var x := View();
      for n := 0 to |group|
        invariant View() == AfterAll(kit, x, group[..n], workers[..n])
      {
        assert group[..n + 1][..n] == group[..n] && workers[..n + 1][..n] == workers[..n];
        if !crashed { AfterToolCall(group[n], RawOf(workers[n])); }
      }
      assert group[..|group|] == group && workers[..|group|] == workers;
    }

    /**
     Dispatches every call of the message, groups in order, each group of
     readers under the given interleaving. For readers this is one-by-one
     dispatch of the calls exactly when the reduction gates agree.
     */
    method Run(calls: seq<Call>, schedules: seq<seq<nat>>) returns (groups: seq<seq<Call>>)
      modifies this
      ensures IsPlan(Overlap(kit), calls, groups)
      ensures |groups| == |schedules| ==> View() == DispatchPlan(kit, old(View()), groups, schedules)
      ensures SafeCallsOnlyRead(kit) && PlanReads(kit, groups, schedules) ==>
                (View() == DispatchAll(kit, old(View()), calls) <==> PlanQuiet(kit, old(View()), groups, |groups|))
      ensures SafeCallsOnlyRead(kit) && PlanReads(kit, groups, schedules) && PlanQuiet(kit, old(View()), groups, |groups|) && !crashed ==>
                Reported(kit, old(View()), calls, View())
      ensures |groups| == |schedules| && !old(crashed) && !crashed ==>
                Tells(kit, old(View()), calls, View(), PlanSaid(kit, old(View()), groups, schedules))
    {
      groups := PlanGroups(kit, calls);
      if |groups| != |schedules| { return; }
      ghost var x := View();
      for g := 0 to |groups|
        invariant View() == DispatchPlan(kit, x, groups[..g], schedules[..g])
      {
        assert groups[..g + 1][..g] == groups[..g] && schedules[..g + 1][..g] == schedules[..g];
        var group := groups[g];
        if crashed {
          CrashedStays(kit, View(), group);
        } else if |group| > 1 {
          DispatchOverlapped(group, schedules[g]);
        } else {
          assert GroupOk(Overlap(kit), group) && |group| == 1 && group[..0] == [];
          SingletonDispatch(kit, View(), group);
          DispatchOneCall(group[0]);
        }
      }
      assert groups[..|groups|] == groups && schedules[..|groups|] == schedules;
      if !x.crashed && !crashed { PlanTells(kit, x, groups, schedules); }
      if SafeCallsOnlyRead(kit) && PlanReads(kit, groups, schedules) {
        PlanRefinesIff(kit, x, groups, schedules);
        if PlanQuiet(kit, x, groups, |groups|) && !crashed {
          if x.crashed { CrashedStays(kit, x, calls); }
          DispatchReports(kit, x, calls);
        }
      }
    }
  }

  lemma SingletonDispatch(kit: Kit, x: Exec, group: seq<Call>)
    requires |group| == 1
    ensures DispatchAll(kit, x, group) == DispatchOne(kit, x, group[0])
  {
    assert group[..|group| - 1] == [] && DispatchAll(kit, x, group[..|group| - 1]) == x;
  }
}

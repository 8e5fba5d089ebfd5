/**
 Overlapped dispatch refines one-by-one dispatch: no interleaving of a group's
 invocations can be told from running its calls in order, as long as no gate
 of the group turns on a latch that the group itself sets.
 */
module DispatchRefinement {
  import opened Prelude
  import opened ToolDispatch

  // ------------------------------------------------- interleavings of readers

  ghost predicate AllSafe(kit: Kit, group: seq<Call>) {
    forall i :: 0 <= i < |group| ==> Overlappable(kit, group[i])
  }

  lemma ReaderLeavesWorld(kit: Kit, c: Call, s: Worker, w: World)
    requires SafeCallsOnlyRead(kit) && IsParallelSafe(kit, c)
    ensures WorkerStep(kit, c, s, w).1 == w
  {
    if s.Active? { assert kit.step(c, s.state, w.files, w.store).1 == w.files; }
  }

  lemma {:induction false} InvokeLeavesWorld(kit: Kit, c: Call, s: Worker, w: World, n: nat)
    requires SafeCallsOnlyRead(kit) && IsParallelSafe(kit, c)
    ensures Invoke(kit, c, s, w, n).1 == w
    decreases n
  {
    if n > 0 {
      ReaderLeavesWorld(kit, c, s, w);
      InvokeLeavesWorld(kit, c, WorkerStep(kit, c, s, w).0, w, n - 1);
    }
  }

  /**
   Under any schedule each reader gets exactly as far as its own share of the
   actions takes it alone, and the world stays put.
   */
  lemma {:induction false} WorkersAreIndependent(kit: Kit, group: seq<Call>, workers: seq<Worker>, w: World, schedule: seq<nat>)
    requires SafeCallsOnlyRead(kit) && AllSafe(kit, group) && |workers| == |group|
    ensures var r := RunWorkers(kit, group, workers, w, schedule);
            && r.1 == w
            && forall k :: 0 <= k < |group| ==>
                 r.0[k] == Invoke(kit, group[k], workers[k], w, Count(schedule, k)).0
    decreases |schedule|
  {
    if schedule != [] {
      var i := schedule[0];
      if i >= |group| {
        WorkersAreIndependent(kit, group, workers, w, schedule[1..]);
      } else {
        ReaderLeavesWorld(kit, group[i], workers[i], w);
        var moved := workers[i := WorkerStep(kit, group[i], workers[i], w).0];
        WorkersAreIndependent(kit, group, moved, w, schedule[1..]);
      }
    }
  }

  // ------------------------------------------- what an invocation depends on

  /** Two worlds look the same to a call: same files, same store but for the given artifacts, same gate. */
  ghost predicate LooksSame(kit: Kit, c: Call, w: World, v: World, ids: set<string>) {
    w.files == v.files && SameBut(w.store, v.store, ids) && IsReduced(kit, c, w) == IsReduced(kit, c, v)
  }

  lemma {:induction false} InvokeSeesTheSame(kit: Kit, c: Call, s: Worker, w: World, v: World, ids: set<string>, n: nat)
    requires SafeCallsOnlyRead(kit) && IsParallelSafe(kit, c) && BlindTo(kit, c, ids) && LooksSame(kit, c, w, v, ids)
    ensures Invoke(kit, c, s, w, n).0 == Invoke(kit, c, s, v, n).0
    decreases n
  {
    if n > 0 {
      ReaderLeavesWorld(kit, c, s, w);
      ReaderLeavesWorld(kit, c, s, v);
      if s.Active? { assert kit.step(c, s.state, w.files, w.store).0 == kit.step(c, s.state, w.files, v.store).0; }
      InvokeSeesTheSame(kit, c, WorkerStep(kit, c, s, w).0, w, v, ids, n - 1);
    }
  }

  lemma {:induction false} NotReducedOnceActive(kit: Kit, c: Call, s: Worker, w: World, n: nat)
    requires s.Active? || (s.Finished? && !s.raw.Reduced?)
    ensures !RawOf(Invoke(kit, c, s, w, n).0).Reduced?
    decreases n
  {
    if n > 0 {
      var r := WorkerStep(kit, c, s, w);
      NotReducedOnceActive(kit, c, r.0, r.1, n - 1);
    }
  }

  lemma {:induction false} FinishedStays(kit: Kit, c: Call, raw: Raw, w: World, n: nat)
    ensures Invoke(kit, c, Finished(raw), w, n) == (Finished(raw), w)
    decreases n
  {
    if n > 0 { FinishedStays(kit, c, raw, w, n - 1); }
  }

  /** The reduction gate decides the result alone. */
  lemma ReducedIff(kit: Kit, c: Call, w: World)
    ensures RawOf(Invoke(kit, c, Waiting, w, Total(kit, c)).0).Reduced? <==> IsReduced(kit, c, w)
  {
    var r := WorkerStep(kit, c, Waiting, w);
    if IsReduced(kit, c, w) {
      FinishedStays(kit, c, Reduced, w, kit.actions(c));
    } else {
      NotReducedOnceActive(kit, c, r.0, r.1, kit.actions(c));
    }
  }

  // ------------------------------------------------ one group, call by call

  /** The state of one-by-one dispatch before call j of the group. */
  function Before(kit: Kit, x: Exec, group: seq<Call>, j: nat): Exec
    requires j <= |group|
  {
    DispatchAll(kit, x, group[..j])
  }

  lemma BeforeNext(kit: Kit, x: Exec, group: seq<Call>, j: nat)
    requires j < |group|
    ensures Before(kit, x, group, j + 1) == DispatchOne(kit, Before(kit, x, group, j), group[j])
  {
    assert group[..j + 1][..j] == group[..j];
  }

  lemma ReaderDrift(kit: Kit, y: Exec, c: Call)
    requires SafeCallsOnlyRead(kit) && Overlappable(kit, c)
    ensures var z := DispatchOne(kit, y, c);
            z.world.files == y.world.files && SameBut(y.world.store, z.world.store, {c.id})
  {
    InvokeLeavesWorld(kit, c, Waiting, y.world, Total(kit, c));
  }

  /** Processing results moves no file and writes no artifact but the group's own. */
  lemma {:induction false} GroupWorldDrift(kit: Kit, x: Exec, group: seq<Call>, j: nat)
    requires SafeCallsOnlyRead(kit) && AllSafe(kit, group) && j <= |group|
    ensures var y := Before(kit, x, group, j);
            y.world.files == x.world.files && SameBut(x.world.store, y.world.store, Ids(group[..j]))
  {
    if j > 0 {
      var c := group[j - 1];
      assert Overlappable(kit, c);
      GroupWorldDrift(kit, x, group, j - 1);
      BeforeNext(kit, x, group, j - 1);
      ReaderDrift(kit, Before(kit, x, group, j - 1), c);
      assert c in group[..j] && forall d :: d in group[..j - 1] ==> d in group[..j];
    }
  }

  /** The exact condition: call j meets the reduction gate as it stood when the group began. */
  ghost predicate GateAgrees(kit: Kit, x: Exec, group: seq<Call>, j: nat)
    requires j < |group|
  {
    var y := Before(kit, x, group, j);
    y.crashed || IsReduced(kit, group[j], y.world) == IsReduced(kit, group[j], x.world)
  }

  /** The worker of call j, alone in the world the group began in. */
  ghost predicate AloneAt(kit: Kit, x: Exec, group: seq<Call>, workers: seq<Worker>)
    requires |workers| == |group|
  {
    forall k :: 0 <= k < |group| ==>
      workers[k] == Invoke(kit, group[k], Waiting, x.world, Total(kit, group[k])).0
  }

  lemma ScheduleIsAlone(kit: Kit, x: Exec, group: seq<Call>, schedule: seq<nat>)
    requires SafeCallsOnlyRead(kit) && AllSafe(kit, group) && Complete(kit, group, schedule)
    ensures var r := RunWorkers(kit, group, Waiters(|group|), x.world, schedule);
            r.1 == x.world && AloneAt(kit, x, group, r.0)
  {
    WorkersAreIndependent(kit, group, Waiters(|group|), x.world, schedule);
  }

  function Processed(kit: Kit, x: Exec, group: seq<Call>, workers: seq<Worker>, j: nat): Exec
    requires |workers| == |group| && j <= |group|
  {
    AfterAll(kit, x, group[..j], workers[..j])
  }

  lemma ProcessedNext(kit: Kit, x: Exec, group: seq<Call>, workers: seq<Worker>, j: nat)
    requires |workers| == |group| && j < |group|
    ensures var p := Processed(kit, x, group, workers, j);
            Processed(kit, x, group, workers, j + 1) ==
            if p.crashed then p else AfterCall(kit, p, group[j], RawOf(workers[j]))
  {
    assert group[..j + 1][..j] == group[..j] && workers[..j + 1][..j] == workers[..j];
  }

  /** One-by-one dispatch of a reader only adds its processed result. */
  lemma ReaderDispatch(kit: Kit, y: Exec, c: Call)
    requires SafeCallsOnlyRead(kit) && Overlappable(kit, c) && !y.crashed
    ensures DispatchOne(kit, y, c) == AfterCall(kit, y, c, RawOf(Invoke(kit, c, Waiting, y.world, Total(kit, c)).0))
  {
    InvokeLeavesWorld(kit, c, Waiting, y.world, Total(kit, c));
    assert y.(world := y.world) == y;
  }

  /** As long as the gates agree, processing and one-by-one dispatch are in the same state. */
  lemma {:induction false} StepByStep(kit: Kit, x: Exec, group: seq<Call>, workers: seq<Worker>, j: nat)
    requires SafeCallsOnlyRead(kit) && AllSafe(kit, group) && GroupBlind(kit, group)
    requires |workers| == |group| && AloneAt(kit, x, group, workers) && !x.crashed && j <= |group|
    requires forall k :: 0 <= k < j ==> GateAgrees(kit, x, group, k)
    ensures Processed(kit, x, group, workers, j) == Before(kit, x, group, j)
  {
    if j > 0 {
      var k := j - 1;
      StepByStep(kit, x, group, workers, k);
      ProcessedNext(kit, x, group, workers, k);
      BeforeNext(kit, x, group, k);
      var y, c := Before(kit, x, group, k), group[k];
      if !y.crashed {
        assert GateAgrees(kit, x, group, k) && Overlappable(kit, c);
        GroupWorldDrift(kit, x, group, k);
        InvokeSeesTheSame(kit, c, Waiting, x.world, y.world, Ids(group[..k]), Total(kit, c));
        ReaderDispatch(kit, y, c);
      }
    }
  }

  // --------------------------------------------------- a mismatch stays visible

  lemma DispatchOneGrows(kit: Kit, y: Exec, c: Call)
    ensures var z := DispatchOne(kit, y, c); y.messages <= z.messages && (y.crashed ==> z == y)
  {
  }

  lemma {:induction false} BeforeGrows(kit: Kit, x: Exec, group: seq<Call>, j: nat, k: nat)
    requires j <= k <= |group|
    ensures Before(kit, x, group, j).messages <= Before(kit, x, group, k).messages
    ensures Before(kit, x, group, j).crashed ==> Before(kit, x, group, k) == Before(kit, x, group, j)
  {
    if j < k {
      BeforeGrows(kit, x, group, j, k - 1);
      BeforeNext(kit, x, group, k - 1);
      DispatchOneGrows(kit, Before(kit, x, group, k - 1), group[k - 1]);
    }
  }

  lemma {:induction false} ProcessedGrows(kit: Kit, x: Exec, group: seq<Call>, workers: seq<Worker>, j: nat, k: nat)
    requires |workers| == |group| && j <= k <= |group|
    ensures Processed(kit, x, group, workers, j).messages <= Processed(kit, x, group, workers, k).messages
    ensures Processed(kit, x, group, workers, j).crashed ==>
              Processed(kit, x, group, workers, k) == Processed(kit, x, group, workers, j)
  {
    if j < k {
      ProcessedGrows(kit, x, group, workers, j, k - 1);
      ProcessedNext(kit, x, group, workers, k - 1);
    }
  }

  /** Does the n-th message report a reduced call? */
  ghost predicate ReportsReduced(x: Exec, n: nat) { n < |x.messages| && x.messages[n].reason == "reduced" }

  lemma ReportIff(kit: Kit, y: Exec, c: Call, raw: Raw)
    requires kit.blocked(c).None? && !raw.Blocked?
    ensures var z := AfterCall(kit, y, c, raw);
            && (ReportsReduced(z, |y.messages|) <==> raw.Reduced?)
            && (z.crashed && !y.crashed ==> raw.Crash? && z.messages == y.messages)
            && (|z.messages| == |y.messages| ==> z.crashed)
  {
  }

  lemma {:induction false} NeverBlocked(kit: Kit, c: Call, s: Worker, w: World, n: nat)
    requires kit.blocked(c).None? && !(s.Finished? && s.raw.Blocked?)
    ensures !RawOf(Invoke(kit, c, s, w, n).0).Blocked?
    decreases n
  {
    if n > 0 {
      var r := WorkerStep(kit, c, s, w);
      NeverBlocked(kit, c, r.0, r.1, n - 1);
    }
  }

  /** Nothing written is taken back, and after a crash nothing happens. */
  ghost predicate Grew(y: Exec, z: Exec) {
    y.messages <= z.messages && (y.crashed ==> z == y)
  }

  /** What the n-th message reports will not change any more. */
  ghost predicate Decided(y: Exec, n: nat) { n < |y.messages| || y.crashed }

  lemma ReportStays(y: Exec, z: Exec, n: nat)
    requires Grew(y, z) && Decided(y, n)
    ensures Decided(z, n) && (ReportsReduced(z, n) <==> ReportsReduced(y, n))
  {
  }

  /** Two states that report differently on one call, for good. */
  ghost predicate DifferAt(p: Exec, q: Exec, n: nat) {
    Decided(p, n) && Decided(q, n) && (ReportsReduced(p, n) <==> !ReportsReduced(q, n))
  }

  ghost predicate Differ(p: Exec, q: Exec) { exists n: nat :: DifferAt(p, q, n) }

  lemma DifferenceStays(p: Exec, q: Exec, p': Exec, q': Exec)
    requires Differ(p, q) && Grew(p, p') && Grew(q, q')
    ensures Differ(p', q') && p' != q'
  {
    var n: nat :| DifferAt(p, q, n);
    ReportStays(p, p', n);
    ReportStays(q, q', n);
    assert DifferAt(p', q', n);
  }

  lemma FirstMismatchShows(kit: Kit, x: Exec, group: seq<Call>, workers: seq<Worker>, j: nat)
    requires SafeCallsOnlyRead(kit) && AllSafe(kit, group) && GroupBlind(kit, group)
    requires |workers| == |group| && AloneAt(kit, x, group, workers) && !x.crashed && j < |group|
    requires forall k :: 0 <= k < j ==> GateAgrees(kit, x, group, k)
    requires !GateAgrees(kit, x, group, j)
    ensures Differ(Processed(kit, x, group, workers, |group|), Before(kit, x, group, |group|))
  {
    StepByStep(kit, x, group, workers, j);
    var y, c := Before(kit, x, group, j), group[j];
    var n := |y.messages|;
    assert Overlappable(kit, c);
    var rawSeq := RawOf(Invoke(kit, c, Waiting, y.world, Total(kit, c)).0);
    var rawPar := RawOf(workers[j]);
    ReducedIff(kit, c, x.world);
    ReducedIff(kit, c, y.world);
    NeverBlocked(kit, c, Waiting, x.world, Total(kit, c));
    NeverBlocked(kit, c, Waiting, y.world, Total(kit, c));
    ReaderDispatch(kit, y, c);
    BeforeNext(kit, x, group, j);
    ProcessedNext(kit, x, group, workers, j);
    ReportIff(kit, y, c, rawSeq);
    ReportIff(kit, y, c, rawPar);
    BeforeGrows(kit, x, group, j + 1, |group|);
    ProcessedGrows(kit, x, group, workers, j + 1, |group|);
    assert DifferAt(Processed(kit, x, group, workers, j + 1), Before(kit, x, group, j + 1), n);
    DifferenceStays(Processed(kit, x, group, workers, j + 1), Before(kit, x, group, j + 1),
                    Processed(kit, x, group, workers, |group|), Before(kit, x, group, |group|));
  }

  lemma {:induction false} LeastMismatch(kit: Kit, x: Exec, group: seq<Call>, n: nat) returns (j: nat)
    requires n <= |group| && exists k :: 0 <= k < n && !GateAgrees(kit, x, group, k)
    ensures j < n && !GateAgrees(kit, x, group, j) && forall k :: 0 <= k < j ==> GateAgrees(kit, x, group, k)
  {
    if exists k :: 0 <= k < n - 1 && !GateAgrees(kit, x, group, k) {
      j := LeastMismatch(kit, x, group, n - 1);
    } else {
      j := n - 1;
    }
  }

  /**
   The exact refinement of one group. For readers that do not read each
   other's artifacts, every complete interleaving ends in the state of
   one-by-one dispatch - messages, records, artifacts and world - if and only
   if every call met the reduction gate as it stood when the group began.
   */
  lemma GroupRefinesIff(kit: Kit, x: Exec, group: seq<Call>, schedule: seq<nat>)
    requires SafeCallsOnlyRead(kit) && AllSafe(kit, group) && GroupBlind(kit, group)
    requires Complete(kit, group, schedule) && !x.crashed
    ensures DispatchParallel(kit, x, group, schedule) == DispatchAll(kit, x, group)
            <==> forall j :: 0 <= j < |group| ==> GateAgrees(kit, x, group, j)
    ensures DispatchParallel(kit, x, group, schedule) != DispatchAll(kit, x, group) ==>
              Differ(DispatchParallel(kit, x, group, schedule), DispatchAll(kit, x, group))
  {
    ScheduleIsAlone(kit, x, group, schedule);
    var workers := RunWorkers(kit, group, Waiters(|group|), x.world, schedule).0;
    assert x.(world := x.world) == x;
    assert group[..|group|] == group && workers[..|group|] == workers;
    if forall j :: 0 <= j < |group| ==> GateAgrees(kit, x, group, j) {
      StepByStep(kit, x, group, workers, |group|);
    } else {
      var j := LeastMismatch(kit, x, group, |group|);
      FirstMismatchShows(kit, x, group, workers, j);
    }
  }

  // ------------------------------------------------------------ whole messages

  lemma {:induction false} DispatchAllConcat(kit: Kit, x: Exec, a: seq<Call>, b: seq<Call>)
    ensures DispatchAll(kit, x, a + b) == DispatchAll(kit, DispatchAll(kit, x, a), b)
  {
    if b == [] {
      assert a + b == a;
    } else {
      var n := |b| - 1;
      DispatchAllConcat(kit, x, a, b[..n]);
      DispatchAllSnoc(kit, x, a + b[..n], b[n]);
      assert a + b == (a + b[..n]) + [b[n]] && b == b[..n] + [b[n]];
      DispatchAllSnoc(kit, DispatchAll(kit, x, a), b[..n], b[n]);
    }
  }

  lemma DispatchAllSnoc(kit: Kit, x: Exec, calls: seq<Call>, c: Call)
    ensures DispatchAll(kit, x, calls + [c]) == DispatchOne(kit, DispatchAll(kit, x, calls), c)
  {
    assert (calls + [c])[..|calls|] == calls;
  }

  lemma {:induction false} CrashedStays(kit: Kit, x: Exec, calls: seq<Call>)
    requires x.crashed
    ensures DispatchAll(kit, x, calls) == x
  {
    if calls != [] { CrashedStays(kit, x, calls[..|calls| - 1]); }
  }

  /** An overlapped group is one of readers that do not read each other's artifacts, run to completion. */
  ghost predicate GroupReads(kit: Kit, group: seq<Call>, schedule: seq<nat>) {
    |group| > 1 ==> AllSafe(kit, group) && GroupBlind(kit, group) && Complete(kit, group, schedule)
  }

  ghost predicate PlanReads(kit: Kit, groups: seq<seq<Call>>, schedules: seq<seq<nat>>) {
    |groups| == |schedules| && forall g :: 0 <= g < |groups| ==> GroupReads(kit, groups[g], schedules[g])
  }

  /** Each call of an overlapped group g meets the reduction gate as it stood when the group began. */
  ghost predicate GroupQuiet(kit: Kit, x: Exec, groups: seq<seq<Call>>, g: nat)
    requires g < |groups|
  {
    |groups[g]| > 1 ==>
      forall j :: 0 <= j < |groups[g]| ==> GateAgrees(kit, DispatchAll(kit, x, Concat(groups[..g])), groups[g], j)
  }

  ghost predicate PlanQuiet(kit: Kit, x: Exec, groups: seq<seq<Call>>, n: nat)
    requires n <= |groups|
  {
    forall g :: 0 <= g < n ==> GroupQuiet(kit, x, groups, g)
  }

  /** Both dispatches of the first n groups. */
  ghost function Overlapped(kit: Kit, x: Exec, groups: seq<seq<Call>>, schedules: seq<seq<nat>>, n: nat): Exec
    requires |groups| == |schedules| && n <= |groups|
  {
    DispatchPlan(kit, x, groups[..n], schedules[..n])
  }

  ghost function OneByOne(kit: Kit, x: Exec, groups: seq<seq<Call>>, n: nat): Exec
    requires n <= |groups|
  {
    DispatchAll(kit, x, Concat(groups[..n]))
  }

  lemma NextGroup(kit: Kit, x: Exec, groups: seq<seq<Call>>, schedules: seq<seq<nat>>, n: nat)
    requires |groups| == |schedules| && n < |groups|
    ensures Overlapped(kit, x, groups, schedules, n + 1)
         == DispatchGroup(kit, Overlapped(kit, x, groups, schedules, n), groups[n], schedules[n])
    ensures OneByOne(kit, x, groups, n + 1) == DispatchAll(kit, OneByOne(kit, x, groups, n), groups[n])
  {
    assert groups[..n + 1][..n] == groups[..n] && schedules[..n + 1][..n] == schedules[..n];
    DispatchAllConcat(kit, x, Concat(groups[..n]), groups[n]);
  }

  lemma AllGrows(kit: Kit, x: Exec, calls: seq<Call>)
    ensures Grew(x, DispatchAll(kit, x, calls))
  {
    BeforeGrows(kit, x, calls, 0, |calls|);
    assert calls[..0] == [] && calls[..|calls|] == calls;
  }

  lemma GroupGrows(kit: Kit, x: Exec, group: seq<Call>, schedule: seq<nat>)
    ensures Grew(x, DispatchGroup(kit, x, group, schedule))
  {
    if |group| <= 1 {
      AllGrows(kit, x, group);
    } else if !x.crashed {
      var r := RunWorkers(kit, group, Waiters(|group|), x.world, schedule);
      ProcessedGrows(kit, x.(world := r.1), group, r.0, 0, |group|);
      assert group[..0] == [] && group[..|group|] == group && r.0[..|group|] == r.0;
    }
  }

  /** A group that agrees keeps the two dispatches together; one that does not parts them visibly. */
  lemma OneGroup(kit: Kit, x: Exec, groups: seq<seq<Call>>, schedules: seq<seq<nat>>, n: nat)
    requires SafeCallsOnlyRead(kit) && PlanReads(kit, groups, schedules) && n < |groups|
    requires Overlapped(kit, x, groups, schedules, n) == OneByOne(kit, x, groups, n)
    ensures GroupQuiet(kit, x, groups, n) ==> Overlapped(kit, x, groups, schedules, n + 1) == OneByOne(kit, x, groups, n + 1)
    ensures !GroupQuiet(kit, x, groups, n) ==> Differ(Overlapped(kit, x, groups, schedules, n + 1), OneByOne(kit, x, groups, n + 1))
  {
    NextGroup(kit, x, groups, schedules, n);
    var y, group := OneByOne(kit, x, groups, n), groups[n];
    assert GroupReads(kit, group, schedules[n]);
    if |group| > 1 {
      if y.crashed {
        CrashedStays(kit, y, group);
        forall j | 0 <= j < |group| ensures GateAgrees(kit, y, group, j) { CrashedStays(kit, y, group[..j]); }
      } else {
        GroupRefinesIff(kit, y, group, schedules[n]);
      }
    }
  }

  lemma QuietNext(kit: Kit, x: Exec, groups: seq<seq<Call>>, n: nat)
    requires n < |groups|
    ensures PlanQuiet(kit, x, groups, n + 1) <==> PlanQuiet(kit, x, groups, n) && GroupQuiet(kit, x, groups, n)
  {
  }

  lemma StillDiffer(kit: Kit, x: Exec, groups: seq<seq<Call>>, schedules: seq<seq<nat>>, n: nat)
    requires |groups| == |schedules| && n < |groups|
    requires Differ(Overlapped(kit, x, groups, schedules, n), OneByOne(kit, x, groups, n))
    ensures Differ(Overlapped(kit, x, groups, schedules, n + 1), OneByOne(kit, x, groups, n + 1))
  {
    var p, q := Overlapped(kit, x, groups, schedules, n), OneByOne(kit, x, groups, n);
    NextGroup(kit, x, groups, schedules, n);
    GroupGrows(kit, p, groups[n], schedules[n]);
    AllGrows(kit, q, groups[n]);
    DifferenceStays(p, q, Overlapped(kit, x, groups, schedules, n + 1), OneByOne(kit, x, groups, n + 1));
  }

  lemma {:induction false} PlanStep(kit: Kit, x: Exec, groups: seq<seq<Call>>, schedules: seq<seq<nat>>, n: nat)
    requires SafeCallsOnlyRead(kit) && PlanReads(kit, groups, schedules) && n <= |groups|
    ensures PlanQuiet(kit, x, groups, n) ==> Overlapped(kit, x, groups, schedules, n) == OneByOne(kit, x, groups, n)
    ensures !PlanQuiet(kit, x, groups, n) ==> Differ(Overlapped(kit, x, groups, schedules, n), OneByOne(kit, x, groups, n))
  {
    if n > 0 {
      PlanStep(kit, x, groups, schedules, n - 1);
      QuietNext(kit, x, groups, n - 1);
      if PlanQuiet(kit, x, groups, n - 1) {
        OneGroup(kit, x, groups, schedules, n - 1);
      } else {
        StillDiffer(kit, x, groups, schedules, n - 1);
      }
    }
  }

  /**
   Concurrent dispatch refines sequential dispatch, exactly: for every message, every
   grouping into runs of readers and every interleaving within each group, the executor
   ends where dispatching the calls one by one ends if and only if every call of every
   overlapped group met the reduction gate as it stood when its group began.
   */
  lemma PlanRefinesIff(kit: Kit, x: Exec, groups: seq<seq<Call>>, schedules: seq<seq<nat>>)
    requires SafeCallsOnlyRead(kit) && PlanReads(kit, groups, schedules)
    ensures DispatchPlan(kit, x, groups, schedules) == DispatchAll(kit, x, Concat(groups)) <==> PlanQuiet(kit, x, groups, |groups|)
  {
    PlanStep(kit, x, groups, schedules, |groups|);
    assert groups[..|groups|] == groups && schedules[..|groups|] == schedules;
    var p := DispatchPlan(kit, x, groups, schedules);
    if !PlanQuiet(kit, x, groups, |groups|) { DifferenceStays(p, DispatchAll(kit, x, Concat(groups)), p, DispatchAll(kit, x, Concat(groups))); }
  }

  /** A rule a reader can check on the calls alone: no build command after the first call of a group. */
  ghost predicate NoLateBuild(kit: Kit, group: seq<Call>) {
    forall j :: 1 <= j < |group| ==> !(group[j].name == "bash" && kit.buildCommand(group[j].command))
  }

  lemma NoLateBuildIsQuiet(kit: Kit, x: Exec, group: seq<Call>, j: nat)
    requires NoLateBuild(kit, group) && j < |group|
    ensures GateAgrees(kit, x, group, j)
  {
    if j == 0 { assert group[..0] == []; }
  }

  // ------------------------------------------------------------ a latch at work

  /** A page fetch, whose result is untrusted, and a search that mentions a build command. */
  const FETCH := Call("a", "fetch_web", "", None)
  const GREP := Call("b", "bash", "grep make f", None)

  const LATCH_KIT := Kit(
    command => true,
    (c: Call, state: string, files: map<string, string>, store: map<string, string>) =>
      (Returned("", true, c.name == "fetch_web", false), files, store),
    (c: Call) => 1,
    (c: Call) => None,
    command => command == "grep make f",
    command => false,
    (output: string, store: map<string, string>) => (output, false),
    text => text == "",
    "",
    ("<", ">"))

  const AFTER_CLONE := Exec(World(map[], map[], false, true), [], [], map[], false)

  /**
   Without the gate hypothesis the refinement is false: after a clone, a fetch
   followed by a read-only grep for a build word is refused one by one, and
   runs when the two are overlapped.
   */
  lemma LatchBreaksRefinement(schedule: seq<nat>)
    requires Complete(LATCH_KIT, [FETCH, GREP], schedule)
    ensures AllSafe(LATCH_KIT, [FETCH, GREP]) && GroupBlind(LATCH_KIT, [FETCH, GREP])
    ensures DispatchParallel(LATCH_KIT, AFTER_CLONE, [FETCH, GREP], schedule)
         != DispatchAll(LATCH_KIT, AFTER_CLONE, [FETCH, GREP])
  {
    var group := [FETCH, GREP];
    assert SafeCallsOnlyRead(LATCH_KIT);
    forall j | 0 <= j < |group| ensures BlindTo(LATCH_KIT, group[j], Ids(group[..j])) { }
    assert group[..1] == [FETCH] && group[..1][..0] == [];
    var fetched := Invoke(LATCH_KIT, FETCH, Waiting, AFTER_CLONE.world, 2);
    assert WorkerStep(LATCH_KIT, FETCH, Waiting, AFTER_CLONE.world) == (Active(""), AFTER_CLONE.world);
    assert Invoke(LATCH_KIT, FETCH, Active(""), AFTER_CLONE.world, 1).0 == Finished(Ran("", true, true, false));
    BeforeNext(LATCH_KIT, AFTER_CLONE, group, 0);
    var y := Before(LATCH_KIT, AFTER_CLONE, group, 1);
    assert y == DispatchOne(LATCH_KIT, AFTER_CLONE, FETCH);
    assert y.world.untrusted && y.world.cloned && !y.crashed;
    assert !GateAgrees(LATCH_KIT, AFTER_CLONE, group, 1);
    GroupRefinesIff(LATCH_KIT, AFTER_CLONE, group, schedule);
  }
}

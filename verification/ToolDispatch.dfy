/**
 Tool dispatch: how the calls of one message are grouped, what one-by-one
 dispatch does, and why overlapping the calls of a group, in any interleaving,
 ends in the same place.
 */
module ToolDispatch {
  import opened Prelude

  datatype Call = Call(id: string, name: string, command: string, parseError: Option<string>)

  /** What an invocation hands back to the main thread. */
  datatype Raw =
    | Ran(output: string, ok: bool, untrusted: bool, isArtifact: bool)
    | Blocked(reason: string)
    | Reduced
    | Crash

  datatype World = World(files: map<string, string>, store: map<string, string>, untrusted: bool, cloned: bool)

  /** One action of a tool: go on, return, or raise something unrecoverable. */
  datatype StepOut =
    | More(state: string)
    | Returned(output: string, ok: bool, untrusted: bool, isArtifact: bool)
    | Raised

  /**
   What the model leaves open: each tool as a sequence of atomic actions on
   the files and the artifact store, the stateless gates, the text patterns
   the gates look for, how an output is bounded against the stored ones, which
   outputs are blank, and the wording put after a cut and around untrusted text.
   */
  datatype Kit = Kit(
    readOnlyCommand: string -> bool,
    step: (Call, string, map<string, string>, map<string, string>) -> (StepOut, map<string, string>, map<string, string>),
    actions: Call -> nat,
    blocked: Call -> Option<string>,
    buildCommand: string -> bool,
    cloneCommand: string -> bool,
    bound: (string, map<string, string>) -> (string, bool),
    blank: string -> bool,
    cutNotice: string,
    framing: (string, string))

  const MAX_TOOL_OUTPUT_CHARS: nat := 40000

  const READ_ONLY_TOOLS: set<string> := {"read_file", "fetch_web"}

  predicate IsParallelSafe(kit: Kit, c: Call) {
    c.name in READ_ONLY_TOOLS || (c.name == "bash" && kit.readOnlyCommand(c.command))
  }

  predicate Overlappable(kit: Kit, c: Call) { c.parseError.None? && IsParallelSafe(kit, c) }

  function Overlap(kit: Kit): Call -> bool { c => Overlappable(kit, c) }

  // ------------------------------------------------------------------ grouping

  function Concat(groups: seq<seq<Call>>): seq<Call> {
    if groups == [] then [] else Concat(groups[..|groups| - 1]) + groups[|groups| - 1]
  }

  ghost predicate AllOverlap(overlap: Call -> bool, group: seq<Call>) {
    forall i :: 0 <= i < |group| ==> overlap(group[i])
  }

  ghost predicate GroupOk(overlap: Call -> bool, group: seq<Call>) {
    group != [] && (|group| == 1 || AllOverlap(overlap, group))
  }

  /**
   A partition in call order into singletons and runs of overlappable calls,
   no two neighbouring runs of which could be joined.
   */
  ghost predicate IsPlan(overlap: Call -> bool, calls: seq<Call>, groups: seq<seq<Call>>) {
    && Concat(groups) == calls
    && (forall g :: 0 <= g < |groups| ==> GroupOk(overlap, groups[g]))
    && (forall g :: 0 <= g < |groups| - 1 ==> Breaks(overlap, groups, g))
  }

  /** Group g and the next one could not be one run. */
  ghost predicate Breaks(overlap: Call -> bool, groups: seq<seq<Call>>, g: nat)
    requires g + 1 < |groups|
  {
    !(AllOverlap(overlap, groups[g]) && AllOverlap(overlap, groups[g + 1]))
  }

  /** Mid-way: the finished groups end at a barrier, and run is the overlappable tail of what was read. */
  ghost predicate Planned(overlap: Call -> bool, read: seq<Call>, groups: seq<seq<Call>>, run: seq<Call>) {
    && Concat(groups) + run == read && AllOverlap(overlap, run)
    && IsPlan(overlap, Concat(groups), groups)
    && (groups != [] ==> !AllOverlap(overlap, groups[|groups| - 1]))
  }

  lemma RunGrows(overlap: Call -> bool, read: seq<Call>, groups: seq<seq<Call>>, run: seq<Call>, item: Call)
    requires Planned(overlap, read, groups, run) && overlap(item)
    ensures Planned(overlap, read + [item], groups, run + [item])
  {
    assert Concat(groups) + (run + [item]) == Concat(groups) + run + [item];
  }

  function Flushed(groups: seq<seq<Call>>, run: seq<Call>): seq<seq<Call>> {
    if run == [] then groups else groups + [run]
  }

  lemma FlushKeepsPlan(overlap: Call -> bool, read: seq<Call>, groups: seq<seq<Call>>, run: seq<Call>)
    requires Planned(overlap, read, groups, run)
    ensures Concat(Flushed(groups, run)) == read && IsPlan(overlap, read, Flushed(groups, run))
  {
    if run == [] {
      assert Concat(groups) + run == Concat(groups);
    } else {
      PlanGrows(overlap, groups, run);
    }
  }

  lemma BarrierGrows(overlap: Call -> bool, read: seq<Call>, groups: seq<seq<Call>>, run: seq<Call>, item: Call)
    requires Planned(overlap, read, groups, run) && !overlap(item)
    ensures Planned(overlap, read + [item], Flushed(groups, run) + [[item]], [])
  {
    FlushKeepsPlan(overlap, read, groups, run);
    assert [item][0] == item;
    PlanGrows(overlap, Flushed(groups, run), [item]);
    assert read + [item] + [] == read + [item];
  }

  method PlanGroups(kit: Kit, calls: seq<Call>) returns (groups: seq<seq<Call>>)
    ensures IsPlan(Overlap(kit), calls, groups)
  {
    groups := [];
    var run: seq<Call> := [];
    for i := 0 to |calls|
      invariant Planned(Overlap(kit), calls[..i], groups, run)
    {
      var item := calls[i];
      assert calls[..i + 1] == calls[..i] + [item];
      var safe := item.parseError.None? && IsParallelSafe(kit, item);
      if safe {
        RunGrows(Overlap(kit), calls[..i], groups, run, item);
        run := run + [item];
        continue;
      }
      BarrierGrows(Overlap(kit), calls[..i], groups, run, item);
      if run != [] {
        groups := groups + [run];
        run := [];
      }
      groups := groups + [[item]];
    }
    assert calls[..|calls|] == calls;
    FlushKeepsPlan(Overlap(kit), calls, groups, run);
    if run != [] { groups := groups + [run]; }
  }

  lemma PlanGrows(overlap: Call -> bool, groups: seq<seq<Call>>, group: seq<Call>)
    requires IsPlan(overlap, Concat(groups), groups) && GroupOk(overlap, group)
    requires groups != [] && AllOverlap(overlap, group) ==> !AllOverlap(overlap, groups[|groups| - 1])
    ensures Concat(groups + [group]) == Concat(groups) + group
    ensures IsPlan(overlap, Concat(groups + [group]), groups + [group])
  {
    assert (groups + [group])[..|groups|] == groups;
    GroupsStayApart(overlap, groups, group);
    forall g | 0 <= g < |groups + [group]| ensures GroupOk(overlap, (groups + [group])[g]) {
      if g < |groups| { assert (groups + [group])[g] == groups[g]; }
    }
  }

  lemma GroupsStayApart(overlap: Call -> bool, groups: seq<seq<Call>>, group: seq<Call>)
    requires forall g :: 0 <= g < |groups| - 1 ==> Breaks(overlap, groups, g)
    requires groups != [] && AllOverlap(overlap, group) ==> !AllOverlap(overlap, groups[|groups| - 1])
    ensures forall g :: 0 <= g < |groups| ==> Breaks(overlap, groups + [group], g)
  {
    var grown := groups + [group];
    forall g | 0 <= g < |groups| ensures Breaks(overlap, grown, g) {
      if g < |groups| - 1 { assert Breaks(overlap, groups, g) && grown[g] == groups[g] && grown[g + 1] == groups[g + 1]; }
    }
  }

  lemma {:induction false} ConcatHead(groups: seq<seq<Call>>)
    requires groups != []
    ensures Concat(groups) == groups[0] + Concat(groups[1..])
  {
    var n := |groups| - 1;
    if n > 0 {
      ConcatHead(groups[..n]);
      assert groups[..n][1..] == groups[1..][..n - 1];
    }
  }

  lemma PlanTail(overlap: Call -> bool, calls: seq<Call>, groups: seq<seq<Call>>)
    requires IsPlan(overlap, calls, groups) && groups != []
    ensures calls == groups[0] + Concat(groups[1..]) && IsPlan(overlap, Concat(groups[1..]), groups[1..])
  {
    ConcatHead(groups);
    var tail := groups[1..];
    forall g | 0 <= g < |tail| - 1 ensures Breaks(overlap, tail, g) {
      assert Breaks(overlap, groups, g + 1);
      assert tail[g] == groups[g + 1] && tail[g + 1] == groups[g + 2];
    }
  }

  /** What follows a plan's first run of overlappable calls does not start with one. */
  lemma NextGroupBreaks(overlap: Call -> bool, calls: seq<Call>, groups: seq<seq<Call>>)
    requires IsPlan(overlap, calls, groups) && groups != [] && AllOverlap(overlap, groups[0])
    ensures |groups[0]| < |calls| ==> !overlap(calls[|groups[0]|])
  {
    PlanTail(overlap, calls, groups);
    if |groups| > 1 {
      assert groups[1] == groups[1..][0];
      PlanTail(overlap, Concat(groups[1..]), groups[1..]);
      assert calls[|groups[0]|] == groups[1][0];
      assert Breaks(overlap, groups, 0) && GroupOk(overlap, groups[1]);
    } else {
      assert groups[1..] == [];
    }
  }

  lemma FirstGroupNoLonger(overlap: Call -> bool, calls: seq<Call>, a: seq<seq<Call>>, b: seq<seq<Call>>)
    requires IsPlan(overlap, calls, a) && IsPlan(overlap, calls, b) && a != [] && b != []
    ensures |a[0]| <= |b[0]|
  {
    PlanTail(overlap, calls, a);
    PlanTail(overlap, calls, b);
    assert GroupOk(overlap, a[0]) && GroupOk(overlap, b[0]);
    if |a[0]| > 1 {
      assert b[0][0] == calls[0] == a[0][0];
      if |b[0]| < |a[0]| {
        assert AllOverlap(overlap, b[0]) by {
          forall i | 0 <= i < |b[0]| ensures overlap(b[0][i]) { assert b[0][i] == calls[i] == a[0][i]; }
        }
        assert calls[|b[0]|] == a[0][|b[0]|];
        NextGroupBreaks(overlap, calls, b);
      }
    }
  }

  /** The grouping is forced: any two plans of the same calls are the same plan. */
  lemma {:induction false} PlanIsUnique(overlap: Call -> bool, calls: seq<Call>, a: seq<seq<Call>>, b: seq<seq<Call>>)
    requires IsPlan(overlap, calls, a) && IsPlan(overlap, calls, b)
    ensures a == b
    decreases |a|
  {
    if a != [] { PlanTail(overlap, calls, a); assert GroupOk(overlap, a[0]); }
    if b != [] { PlanTail(overlap, calls, b); assert GroupOk(overlap, b[0]); }
    if a != [] && b != [] {
      FirstGroupNoLonger(overlap, calls, a, b);
      FirstGroupNoLonger(overlap, calls, b, a);
      assert a[0] == calls[..|a[0]|] == b[0];
      assert Concat(a[1..]) == calls[|a[0]|..] == Concat(b[1..]);
      PlanIsUnique(overlap, Concat(a[1..]), a[1..], b[1..]);
      assert a == [a[0]] + a[1..] && b == [b[0]] + b[1..];
    }
  }

  /** A call that only reads: a parsed file or page read, or a read-only shell command. */
  predicate Reads(kit: Kit, c: Call) {
    && c.parseError.None?
    && (c.name == "read_file" || c.name == "fetch_web" || (c.name == "bash" && kit.readOnlyCommand(c.command)))
  }

  /** Only readers ever overlap, and of two neighbouring groups at least one is a single call that is no reader. */
  lemma OnlyReadersOverlap(kit: Kit, calls: seq<Call>, groups: seq<seq<Call>>, g: nat)
    requires IsPlan(Overlap(kit), calls, groups) && g < |groups|
    ensures |groups[g]| > 1 ==> forall i :: 0 <= i < |groups[g]| ==> Reads(kit, groups[g][i])
    ensures g + 1 < |groups| ==>
              (|groups[g]| == 1 && !Reads(kit, groups[g][0])) || (|groups[g + 1]| == 1 && !Reads(kit, groups[g + 1][0]))
  {
    assert GroupOk(Overlap(kit), groups[g]);
    if |groups[g]| > 1 {
      forall i | 0 <= i < |groups[g]| ensures Reads(kit, groups[g][i]) { assert Overlap(kit)(groups[g][i]); }
    }
    if g + 1 < |groups| {
      assert GroupOk(Overlap(kit), groups[g + 1]) && Breaks(Overlap(kit), groups, g);
    }
  }

  // ---------------------------------------------------------------- one worker

  datatype Worker = Waiting | Active(state: string) | Finished(raw: Raw)

  /** The capability reduction: the one gate that reads run-scoped latches. */
  predicate IsReduced(kit: Kit, c: Call, w: World) {
    kit.blocked(c).None? && c.name == "bash" && w.untrusted && w.cloned && kit.buildCommand(c.command)
  }

  function AfterStep(out: StepOut): Worker {
    match out
    case More(state) => Active(state)
    case Returned(output, ok, untrusted, isArtifact) => Finished(Ran(output, ok, untrusted, isArtifact))
    case Raised => Finished(Crash)
  }

  /** One atomic action of an invocation: the gates first, then the tool's own actions. */
  function WorkerStep(kit: Kit, c: Call, s: Worker, w: World): (Worker, World) {
    match s
    case Waiting =>
      if kit.blocked(c).Some? then (Finished(Blocked(kit.blocked(c).value)), w)
      else if IsReduced(kit, c, w) then (Finished(Reduced), w)
      else (Active(""), w)
    case Active(state) =>
      var r := kit.step(c, state, w.files, w.store);
      (AfterStep(r.0), w.(files := r.1, store := r.2))
    case Finished(_) => (s, w)
  }

  /** The gate check plus the tool's own actions. */
  function Total(kit: Kit, c: Call): nat { 1 + kit.actions(c) }

  function Invoke(kit: Kit, c: Call, s: Worker, w: World, n: nat): (Worker, World)
    decreases n
  {
    if n == 0 then (s, w) else
      var r := WorkerStep(kit, c, s, w);
      Invoke(kit, c, r.0, r.1, n - 1)
  }

  /** An invocation that does not return within its actions never returns normally. */
  function RawOf(s: Worker): Raw { if s.Finished? then s.raw else Crash }

  // ------------------------------------------------- processing one result

  datatype ToolMessage = ToolMessage(id: string, content: string, reason: string, ok: bool)

  datatype ToolRecord = ToolRecord(id: string, name: string, ok: bool)

  datatype Exec = Exec(
    world: World, messages: seq<ToolMessage>, records: seq<ToolRecord>,
    artifacts: map<string, string>, crashed: bool)

  function Append(x: Exec, m: ToolMessage, name: string): Exec {
    x.(messages := x.messages + [m], records := x.records + [ToolRecord(m.id, name, m.ok)])
  }

  /** Blank outputs are replaced, and long ones cut unless they are previews already. */
  function Presented(kit: Kit, text: string, isPreview: bool): string {
    if kit.blank(text) then "(tool returned empty output)"
    else if !isPreview && |text| > MAX_TOOL_OUTPUT_CHARS then text[..MAX_TOOL_OUTPUT_CHARS] + kit.cutNotice
    else text
  }

  /** Untrusted content is framed as data. */
  function Framed(kit: Kit, text: string): string { kit.framing.0 + text + kit.framing.1 }

  /** After the call, on the main thread: bound the output against the store, envelope it, move the latches. */
  function AfterCall(kit: Kit, x: Exec, c: Call, raw: Raw): Exec {
    match raw
    case Crash => x.(crashed := true)
    case Blocked(reason) => Append(x, ToolMessage(c.id, "", reason, false), c.name)
    case Reduced => Append(x, ToolMessage(c.id, "", "reduced", false), c.name)
    case Ran(output, ok, untrusted, isArtifact) =>
      var bounded := if isArtifact then kit.bound(output, x.world.store) else (output, false);
      var shown := Presented(kit, bounded.0, isArtifact);
      var store := if bounded.1 then x.world.store[c.id := output] else x.world.store;
      var world := x.world.(
        store := store,
        untrusted := x.world.untrusted || (ok && untrusted),
        cloned := x.world.cloned || (c.name == "bash" && ok && kit.cloneCommand(c.command)));
      Append(x.(world := world, artifacts := if isArtifact then x.artifacts[c.id := output] else x.artifacts),
             ToolMessage(c.id, if ok && untrusted then Framed(kit, shown) else shown, "ran", ok), c.name)
  }

  function ParseFailure(x: Exec, c: Call): Exec
    requires c.parseError.Some?
  {
    Append(x, ToolMessage(c.id, c.parseError.value, "parse_error", false), c.name)
  }

  /** One call through the sequential path; after an unrecoverable exception nothing more happens. */
  function DispatchOne(kit: Kit, x: Exec, c: Call): Exec {
    if x.crashed then x
    else if c.parseError.Some? then ParseFailure(x, c)
    else
      var r := Invoke(kit, c, Waiting, x.world, Total(kit, c));
      AfterCall(kit, x.(world := r.1), c, RawOf(r.0))
  }

  /** One-by-one dispatch, the reference. */
  function DispatchAll(kit: Kit, x: Exec, calls: seq<Call>): Exec {
    if calls == [] then x else DispatchOne(kit, DispatchAll(kit, x, calls[..|calls| - 1]), calls[|calls| - 1])
  }

  // -------------------------------------------------------------- overlapping

  /** Any interleaving: each entry lets one worker take one action. */
  function RunWorkers(kit: Kit, group: seq<Call>, workers: seq<Worker>, w: World, schedule: seq<nat>): (r: (seq<Worker>, World))
    requires |workers| == |group|
    ensures |r.0| == |group|
    decreases |schedule|
  {
    if schedule == [] then (workers, w)
    else if schedule[0] >= |group| then RunWorkers(kit, group, workers, w, schedule[1..])
    else
      var i := schedule[0];
      var r := WorkerStep(kit, group[i], workers[i], w);
      RunWorkers(kit, group, workers[i := r.0], r.1, schedule[1..])
  }

  function Count(schedule: seq<nat>, i: nat): nat {
    if schedule == [] then 0 else (if schedule[0] == i then 1 else 0) + Count(schedule[1..], i)
  }

  /** The pool is left only when every invocation has returned. */
  ghost predicate Complete(kit: Kit, group: seq<Call>, schedule: seq<nat>) {
    forall i :: 0 <= i < |group| ==> Count(schedule, i) == Total(kit, group[i])
  }

  function Waiters(n: nat): (r: seq<Worker>)
    ensures |r| == n && forall i :: 0 <= i < n ==> r[i] == Waiting
  {
    seq(n, i => Waiting)
  }

  /** Results are processed strictly in call order, whatever the finish order. */
  function AfterAll(kit: Kit, x: Exec, calls: seq<Call>, workers: seq<Worker>): Exec
    requires |calls| == |workers|
  {
    if calls == [] then x else
      var n := |calls| - 1;
      var before := AfterAll(kit, x, calls[..n], workers[..n]);
      if before.crashed then before else AfterCall(kit, before, calls[n], RawOf(workers[n]))
  }

  function DispatchParallel(kit: Kit, x: Exec, group: seq<Call>, schedule: seq<nat>): Exec {
    if x.crashed then x else
      var r := RunWorkers(kit, group, Waiters(|group|), x.world, schedule);
      AfterAll(kit, x.(world := r.1), group, r.0)
  }

  function DispatchGroup(kit: Kit, x: Exec, group: seq<Call>, schedule: seq<nat>): Exec {
    if |group| > 1 then DispatchParallel(kit, x, group, schedule) else DispatchAll(kit, x, group)
  }

  /** The executor's run: the groups in order, each under some schedule. */
  function DispatchPlan(kit: Kit, x: Exec, groups: seq<seq<Call>>, schedules: seq<seq<nat>>): Exec
    requires |groups| == |schedules|
  {
    if groups == [] then x else
      var n := |groups| - 1;
      DispatchGroup(kit, DispatchPlan(kit, x, groups[..n], schedules[..n]), groups[n], schedules[n])
  }

  // --------------------------------------------------------------- hypotheses

  /** Calls classified as safe do not write. */
  ghost predicate SafeCallsOnlyRead(kit: Kit) {
    forall c, state, files, store :: IsParallelSafe(kit, c) ==>
      kit.step(c, state, files, store).1 == files && kit.step(c, state, files, store).2 == store
  }

  ghost predicate SameBut(s: map<string, string>, t: map<string, string>, ids: set<string>) {
    forall id :: id !in ids ==> (id in s <==> id in t) && (id in s && id in t ==> s[id] == t[id])
  }

  /** Call c does not read the artifacts of the given calls. */
  ghost predicate BlindTo(kit: Kit, c: Call, ids: set<string>) {
    forall state, files, s, t {:trigger kit.step(c, state, files, s), kit.step(c, state, files, t)} ::
      SameBut(s, t, ids) ==> kit.step(c, state, files, s).0 == kit.step(c, state, files, t).0
  }

  function Ids(calls: seq<Call>): set<string> { set c | c in calls :: c.id }

  /** No call of a group reads an artifact that an earlier call of the group writes. */
  ghost predicate GroupBlind(kit: Kit, group: seq<Call>) {
    forall j :: 0 <= j < |group| ==> BlindTo(kit, group[j], Ids(group[..j]))
  }
}

/**
 What a dispatched message leaves behind, call by call: what each tool message and record
 says, which artifacts are kept, and what moves the two latches of a run.
 */
module DispatchReport {
  import opened ToolDispatch
  import opened DispatchRefinement

  /** What the invocation of call i gives in its turn, and the world it leaves. */
  function Invoked(kit: Kit, x: Exec, calls: seq<Call>, i: nat): (Raw, World)
    requires i < |calls|
  {
    var r := Invoke(kit, calls[i], Waiting, Before(kit, x, calls, i).world, Total(kit, calls[i]));
    (RawOf(r.0), r.1)
  }

  /** Call i was run and gave this. */
  ghost predicate Gave(kit: Kit, x: Exec, calls: seq<Call>, i: nat, raw: Raw) {
    i < |calls| && calls[i].parseError.None? && Invoked(kit, x, calls, i).0 == raw
  }

  // ------------------------------------------------------- messages and records

  /** The text shown for an output: blank, cut, or word for word. */
  ghost predicate Shows(kit: Kit, content: string, output: string, isPreview: bool) {
    && (kit.blank(output) ==> content == "(tool returned empty output)")
    && (!kit.blank(output) && (isPreview || |output| <= 40000) ==> content == output)
    && (!kit.blank(output) && !isPreview && |output| > 40000 ==>
          |content| == 40000 + |kit.cutNotice| && content[..40000] == output[..40000] && content[40000..] == kit.cutNotice)
  }

  ghost predicate ShowsIn(kit: Kit, content: string, output: string, isPreview: bool, framed: bool) {
    if framed
    then exists inner :: Shows(kit, inner, output, isPreview) && content == kit.framing.0 + inner + kit.framing.1
    else Shows(kit, content, output, isPreview)
  }

  /** The message of a call: what it did, or why it did not run. */
  ghost predicate MessageSays(kit: Kit, c: Call, raw: Raw, store: map<string, string>, m: ToolMessage) {
    m.id == c.id &&
    if c.parseError.Some? then m.content == c.parseError.value && !m.ok && m.reason == "parse_error"
    else match raw
      case Crash => false
      case Blocked(reason) => !m.ok && m.reason == reason
      case Reduced => !m.ok && m.reason == "reduced"
      case Ran(output, ok, untrusted, isArtifact) =>
        && m.ok == ok && m.reason == "ran"
        && ShowsIn(kit, m.content, if isArtifact then kit.bound(output, store).0 else output, isArtifact, ok && untrusted)
  }

  ghost predicate ReportedAt(kit: Kit, x: Exec, calls: seq<Call>, z: Exec, i: nat)
    requires i < |calls|
  {
    var m, r := |x.messages| + i, |x.records| + i;
    && m < |z.messages| && r < |z.records|
    && MessageSays(kit, calls[i], Invoked(kit, x, calls, i).0, Invoked(kit, x, calls, i).1.store, z.messages[m])
    && z.records[r] == ToolRecord(calls[i].id, calls[i].name, z.messages[m].ok)
  }

  /** One message and one record per call, in call order, each saying what its call did. */
  ghost predicate Reported(kit: Kit, x: Exec, calls: seq<Call>, z: Exec) {
    && |z.messages| == |x.messages| + |calls| && x.messages <= z.messages
    && |z.records| == |x.records| + |calls| && x.records <= z.records
    && forall i :: 0 <= i < |calls| ==> ReportedAt(kit, x, calls, z, i)
  }

  lemma CallReports(kit: Kit, y: Exec, c: Call)
    requires !y.crashed && !DispatchOne(kit, y, c).crashed
    ensures var z, r := DispatchOne(kit, y, c), Invoke(kit, c, Waiting, y.world, Total(kit, c));
            && |z.messages| == |y.messages| + 1 && y.messages <= z.messages
            && |z.records| == |y.records| + 1 && y.records <= z.records
            && MessageSays(kit, c, RawOf(r.0), r.1.store, z.messages[|y.messages|])
            && z.records[|y.records|] == ToolRecord(c.id, c.name, z.messages[|y.messages|].ok)
  {
    var r := Invoke(kit, c, Waiting, y.world, Total(kit, c));
    var raw := RawOf(r.0);
    if c.parseError.None? && raw.Ran? {
      var text := if raw.isArtifact then kit.bound(raw.output, r.1.store).0 else raw.output;
      assert Shows(kit, Presented(kit, text, raw.isArtifact), text, raw.isArtifact);
    }
  }

  /**
   The report: as long as nothing crashed, one-by-one dispatch leaves exactly one message and
   one record per call, in call order, and each says what its call did: a plain output word
   for word unless it is blank or too long, an artifact as it was bounded, untrusted text in
   its frame, and a failure for a call that was blocked, refused or could not be parsed.
   */
  lemma {:induction false} DispatchReports(kit: Kit, x: Exec, calls: seq<Call>)
    requires !x.crashed && !DispatchAll(kit, x, calls).crashed
    ensures Reported(kit, x, calls, DispatchAll(kit, x, calls))
  {
    if calls != [] {
      var n := |calls| - 1;
      var y, z := DispatchAll(kit, x, calls[..n]), DispatchAll(kit, x, calls);
      DispatchReports(kit, x, calls[..n]);
      CallReports(kit, y, calls[n]);
      forall i | 0 <= i < |calls| ensures ReportedAt(kit, x, calls, z, i) {
        if i < n {
          assert ReportedAt(kit, x, calls[..n], y, i);
          InvokedInPrefix(kit, x, calls, n, i);
        }
      }
    }
  }

  lemma InvokedInPrefix(kit: Kit, x: Exec, calls: seq<Call>, n: nat, i: nat)
    requires i < n <= |calls|
    ensures Invoked(kit, x, calls[..n], i) == Invoked(kit, x, calls, i)
  {
    assert calls[..n][..i] == calls[..i];
  }

  // ------------------------------------------------- overlapped or not

  /** What an invocation gave, and the store its output was bounded against. */
  datatype Said = Said(raw: Raw, store: map<string, string>)

  ghost predicate TellsAt(kit: Kit, x: Exec, calls: seq<Call>, z: Exec, said: seq<Said>, i: nat)
    requires i < |calls| && i < |said|
  {
    var m, r := |x.messages| + i, |x.records| + i;
    && m < |z.messages| && r < |z.records|
    && MessageSays(kit, calls[i], said[i].raw, said[i].store, z.messages[m])
    && z.records[r] == ToolRecord(calls[i].id, calls[i].name, z.messages[m].ok)
  }

  /** One message and one record per call, in call order, each saying what was given for its call. */
  ghost predicate Tells(kit: Kit, x: Exec, calls: seq<Call>, z: Exec, said: seq<Said>) {
    && |z.messages| == |x.messages| + |calls| && x.messages <= z.messages
    && |z.records| == |x.records| + |calls| && x.records <= z.records
    && |said| == |calls| && forall i :: 0 <= i < |calls| ==> TellsAt(kit, x, calls, z, said, i)
  }

  /** What the invocations give when the calls are dispatched one by one. */
  function CallsSaid(kit: Kit, x: Exec, calls: seq<Call>): seq<Said> {
    seq(|calls|, i requires 0 <= i < |calls| => Said(Invoked(kit, x, calls, i).0, Invoked(kit, x, calls, i).1.store))
  }

  /** What the workers gave, each bounded against the store as the results before it left it. */
  function WorkersSaid(kit: Kit, x: Exec, calls: seq<Call>, workers: seq<Worker>): seq<Said>
    requires |calls| == |workers|
  {
    if calls == [] then [] else
      var n := |calls| - 1;
      WorkersSaid(kit, x, calls[..n], workers[..n]) + [Said(RawOf(workers[n]), AfterAll(kit, x, calls[..n], workers[..n]).world.store)]
  }

  function GroupSaid(kit: Kit, x: Exec, group: seq<Call>, schedule: seq<nat>): seq<Said> {
    if |group| > 1
    then var r := RunWorkers(kit, group, Waiters(|group|), x.world, schedule); WorkersSaid(kit, x.(world := r.1), group, r.0)
    else CallsSaid(kit, x, group)
  }

  /** What the invocations of a whole message give, each group under its schedule. */
  function PlanSaid(kit: Kit, x: Exec, groups: seq<seq<Call>>, schedules: seq<seq<nat>>): seq<Said>
    requires |groups| == |schedules|
  {
    if groups == [] then [] else
      var n := |groups| - 1;
      PlanSaid(kit, x, groups[..n], schedules[..n])
      + GroupSaid(kit, DispatchPlan(kit, x, groups[..n], schedules[..n]), groups[n], schedules[n])
  }

  lemma ReportedTells(kit: Kit, x: Exec, calls: seq<Call>, z: Exec)
    requires Reported(kit, x, calls, z)
    ensures Tells(kit, x, calls, z, CallsSaid(kit, x, calls))
  {
    var said := CallsSaid(kit, x, calls);
    forall i | 0 <= i < |calls| ensures TellsAt(kit, x, calls, z, said, i) { assert ReportedAt(kit, x, calls, z, i); }
  }

  lemma TellsMore(kit: Kit, x: Exec, a: seq<Call>, y: Exec, s: seq<Said>, b: seq<Call>, z: Exec, t: seq<Said>)
    requires Tells(kit, x, a, y, s) && Tells(kit, y, b, z, t)
    ensures Tells(kit, x, a + b, z, s + t)
  {
    forall i | 0 <= i < |a + b| ensures TellsAt(kit, x, a + b, z, s + t, i) {
      if i < |a| { assert TellsAt(kit, x, a, y, s, i); } else { assert TellsAt(kit, y, b, z, t, i - |a|); }
    }
  }

  /** The processing of one result, whatever state it is processed in. */
  lemma AfterCallTells(kit: Kit, y: Exec, c: Call, raw: Raw)
    requires c.parseError.None? && !AfterCall(kit, y, c, raw).crashed
    ensures !y.crashed && Tells(kit, y, [c], AfterCall(kit, y, c, raw), [Said(raw, y.world.store)])
  {
    if raw.Ran? {
      var text := if raw.isArtifact then kit.bound(raw.output, y.world.store).0 else raw.output;
      assert Shows(kit, Presented(kit, text, raw.isArtifact), text, raw.isArtifact);
    }
    assert TellsAt(kit, y, [c], AfterCall(kit, y, c, raw), [Said(raw, y.world.store)], 0);
  }

  lemma {:induction false} AllTell(kit: Kit, x: Exec, calls: seq<Call>, workers: seq<Worker>)
    requires |calls| == |workers| && AllSafe(kit, calls) && !AfterAll(kit, x, calls, workers).crashed
    ensures !x.crashed && Tells(kit, x, calls, AfterAll(kit, x, calls, workers), WorkersSaid(kit, x, calls, workers))
  {
    if calls != [] {
      var n := |calls| - 1;
      assert Overlappable(kit, calls[n]);
      AfterOne(kit, x, calls, workers, n);
      var y := AfterAll(kit, x, calls[..n], workers[..n]);
      AllTell(kit, x, calls[..n], workers[..n]);
      TellsMore(kit, x, calls[..n], y, WorkersSaid(kit, x, calls[..n], workers[..n]),
                [calls[n]], AfterAll(kit, x, calls, workers), [Said(RawOf(workers[n]), y.world.store)]);
      assert calls[..n] + [calls[n]] == calls;
    }
  }

  lemma AfterOne(kit: Kit, x: Exec, calls: seq<Call>, workers: seq<Worker>, n: nat)
    requires |calls| == |workers| == n + 1 && calls[n].parseError.None? && !AfterAll(kit, x, calls, workers).crashed
    ensures var y := AfterAll(kit, x, calls[..n], workers[..n]);
            !y.crashed && Tells(kit, y, [calls[n]], AfterAll(kit, x, calls, workers), [Said(RawOf(workers[n]), y.world.store)])
  {
    AfterCallTells(kit, AfterAll(kit, x, calls[..n], workers[..n]), calls[n], RawOf(workers[n]));
  }

  lemma GroupTells(kit: Kit, x: Exec, group: seq<Call>, schedule: seq<nat>)
    requires GroupOk(Overlap(kit), group) && !DispatchGroup(kit, x, group, schedule).crashed
    ensures !x.crashed && Tells(kit, x, group, DispatchGroup(kit, x, group, schedule), GroupSaid(kit, x, group, schedule))
  {
    GroupGrows(kit, x, group, schedule);
    if |group| > 1 {
      assert AllSafe(kit, group) by { forall i | 0 <= i < |group| ensures Overlappable(kit, group[i]) { assert Overlap(kit)(group[i]); } }
      var r := RunWorkers(kit, group, Waiters(|group|), x.world, schedule);
      AllTell(kit, x.(world := r.1), group, r.0);
      WorldAside(kit, x, r.1, group, DispatchGroup(kit, x, group, schedule), WorkersSaid(kit, x.(world := r.1), group, r.0));
    } else {
      DispatchReports(kit, x, group);
      ReportedTells(kit, x, group, DispatchGroup(kit, x, group, schedule));
    }
  }

  lemma WorldAside(kit: Kit, x: Exec, w: World, calls: seq<Call>, z: Exec, said: seq<Said>)
    requires Tells(kit, x.(world := w), calls, z, said)
    ensures Tells(kit, x, calls, z, said)
  {
    forall i | 0 <= i < |calls| ensures TellsAt(kit, x, calls, z, said, i) { assert TellsAt(kit, x.(world := w), calls, z, said, i); }
  }

  /**
   The report of a whole message, overlapped or not and whatever the gates say: as long as
   nothing crashed there is one message and one record per call, in call order, each saying
   what the invocation of its call gave.
   */
  lemma {:induction false} PlanTells(kit: Kit, x: Exec, groups: seq<seq<Call>>, schedules: seq<seq<nat>>)
    requires |groups| == |schedules| && forall g :: 0 <= g < |groups| ==> GroupOk(Overlap(kit), groups[g])
    requires !x.crashed && !DispatchPlan(kit, x, groups, schedules).crashed
    ensures Tells(kit, x, Concat(groups), DispatchPlan(kit, x, groups, schedules), PlanSaid(kit, x, groups, schedules))
  {
    if groups != [] {
      var n := |groups| - 1;
      var y := DispatchPlan(kit, x, groups[..n], schedules[..n]);
      GroupTells(kit, y, groups[n], schedules[n]);
      PlanTells(kit, x, groups[..n], schedules[..n]);
      TellsMore(kit, x, Concat(groups[..n]), y, PlanSaid(kit, x, groups[..n], schedules[..n]),
                groups[n], DispatchPlan(kit, x, groups, schedules), GroupSaid(kit, y, groups[n], schedules[n]));
    }
  }

  // --------------------------------------------------- artifacts and the store

  /** Call i returned this output as an artifact. */
  ghost predicate Produced(kit: Kit, x: Exec, calls: seq<Call>, i: nat, output: string) {
    && i < |calls| && calls[i].parseError.None?
    && var raw := Invoked(kit, x, calls, i).0; raw.Ran? && raw.isArtifact && raw.output == output
  }

  ghost predicate ProducedFor(kit: Kit, x: Exec, calls: seq<Call>, id: string, i: nat, output: string) {
    Produced(kit, x, calls, i, output) && calls[i].id == id
  }

  /** No call of this id from k on returned an artifact. */
  ghost predicate NoneFrom(kit: Kit, x: Exec, calls: seq<Call>, id: string, k: nat) {
    forall i: nat, o :: i >= k ==> !ProducedFor(kit, x, calls, id, i, o)
  }

  /** Under this id the artifact of the last call of the id that returned one, else what was there before. */
  ghost predicate KeepsLast(kit: Kit, x: Exec, calls: seq<Call>, id: string, kept: map<string, string>) {
    && (forall i: nat, o :: ProducedFor(kit, x, calls, id, i, o) && NoneFrom(kit, x, calls, id, i + 1) ==> id in kept && kept[id] == o)
    && (NoneFrom(kit, x, calls, id, 0) ==>
          (id in kept <==> id in x.artifacts) && (id in kept && id in x.artifacts ==> kept[id] == x.artifacts[id]))
  }

  lemma ProducedInPrefix(kit: Kit, x: Exec, calls: seq<Call>, id: string, n: nat, i: nat, output: string)
    requires n <= |calls|
    ensures ProducedFor(kit, x, calls[..n], id, i, output) <==> i < n && ProducedFor(kit, x, calls, id, i, output)
  {
    if i < n { InvokedInPrefix(kit, x, calls, n, i); }
  }

  lemma NoneInPrefix(kit: Kit, x: Exec, calls: seq<Call>, id: string, n: nat, k: nat)
    requires n <= |calls| && NoneFrom(kit, x, calls, id, k)
    ensures NoneFrom(kit, x, calls[..n], id, k)
  {
    forall i: nat, o | i >= k ensures !ProducedFor(kit, x, calls[..n], id, i, o) { ProducedInPrefix(kit, x, calls, id, n, i, o); }
  }

  /** Call n puts its artifact, if any, under its id, and leaves other ids alone. */
  ghost predicate Puts(kit: Kit, x: Exec, calls: seq<Call>, id: string, n: nat, y: map<string, string>, z: map<string, string>) {
    if exists o :: ProducedFor(kit, x, calls, id, n, o)
    then id in z && ProducedFor(kit, x, calls, id, n, z[id])
    else (id in z <==> id in y) && (id in z && id in y ==> z[id] == y[id])
  }

  lemma ArtifactNext(kit: Kit, x: Exec, calls: seq<Call>, n: nat, id: string)
    requires |calls| == n + 1 && !DispatchAll(kit, x, calls).crashed
    ensures Puts(kit, x, calls, id, n, DispatchAll(kit, x, calls[..n]).artifacts, DispatchAll(kit, x, calls).artifacts)
  {
    var c, raw := calls[n], Invoked(kit, x, calls, n).0;
    if c.parseError.None? && raw.Ran? && raw.isArtifact && c.id == id { assert ProducedFor(kit, x, calls, id, n, raw.output); }
  }

  lemma ProducesOne(kit: Kit, x: Exec, calls: seq<Call>, id: string, n: nat, o: string, p: string)
    requires ProducedFor(kit, x, calls, id, n, o) && ProducedFor(kit, x, calls, id, n, p)
    ensures o == p
  {
  }

  lemma LastStays(kit: Kit, x: Exec, calls: seq<Call>, n: nat, id: string, y: map<string, string>, z: map<string, string>, i: nat, o: string)
    requires |calls| == n + 1 && KeepsLast(kit, x, calls[..n], id, y) && Puts(kit, x, calls, id, n, y, z)
    requires ProducedFor(kit, x, calls, id, i, o) && NoneFrom(kit, x, calls, id, i + 1)
    ensures id in z && z[id] == o
  {
    if i == n {
      ProducesOne(kit, x, calls, id, n, o, z[id]);
    } else {
      NoneInPrefix(kit, x, calls, id, n, i + 1);
      ProducedInPrefix(kit, x, calls, id, n, i, o);
    }
  }

  lemma KeepsLastNext(kit: Kit, x: Exec, calls: seq<Call>, n: nat, id: string, y: map<string, string>, z: map<string, string>)
    requires |calls| == n + 1 && KeepsLast(kit, x, calls[..n], id, y) && Puts(kit, x, calls, id, n, y, z)
    ensures KeepsLast(kit, x, calls, id, z)
  {
    forall i: nat, o | ProducedFor(kit, x, calls, id, i, o) && NoneFrom(kit, x, calls, id, i + 1) ensures id in z && z[id] == o {
      LastStays(kit, x, calls, n, id, y, z, i, o);
    }
    if NoneFrom(kit, x, calls, id, 0) { NoneInPrefix(kit, x, calls, id, n, 0); }
  }

  /** The artifacts kept are exactly those returned, under the ids of the calls that returned them. */
  lemma {:induction false} ArtifactsAreKept(kit: Kit, x: Exec, calls: seq<Call>, id: string)
    requires !x.crashed && !DispatchAll(kit, x, calls).crashed
    ensures KeepsLast(kit, x, calls, id, DispatchAll(kit, x, calls).artifacts)
  {
    if calls != [] {
      var n := |calls| - 1;
      ArtifactsAreKept(kit, x, calls[..n], id);
      ArtifactNext(kit, x, calls, n, id);
      KeepsLastNext(kit, x, calls, n, id, DispatchAll(kit, x, calls[..n]).artifacts, DispatchAll(kit, x, calls).artifacts);
    }
  }

  /** Files and store after a call are as its tool left them, but for an artifact that bounding asks to store. */
  lemma StoreAfterCall(kit: Kit, x: Exec, calls: seq<Call>, i: nat)
    requires i < |calls| && !Before(kit, x, calls, i + 1).crashed
    ensures var c, r, w := calls[i], Invoked(kit, x, calls, i), Before(kit, x, calls, i + 1).world;
            if c.parseError.Some? then w == Before(kit, x, calls, i).world
            else
              && w.files == r.1.files
              && w.store == if r.0.Ran? && r.0.isArtifact && kit.bound(r.0.output, r.1.store).1
                            then r.1.store[c.id := r.0.output] else r.1.store
  {
    BeforeNext(kit, x, calls, i);
  }

  // -------------------------------------------------------------- the latches

  /** Call i succeeded and returned untrusted content. */
  ghost predicate Tainted(kit: Kit, x: Exec, calls: seq<Call>, i: nat) {
    && i < |calls| && calls[i].parseError.None?
    && var raw := Invoked(kit, x, calls, i).0; raw.Ran? && raw.ok && raw.untrusted
  }

  /** Call i was a successful shell command that clones a repository. */
  ghost predicate ClonedBy(kit: Kit, x: Exec, calls: seq<Call>, i: nat) {
    && i < |calls| && calls[i].parseError.None? && calls[i].name == "bash" && kit.cloneCommand(calls[i].command)
    && var raw := Invoked(kit, x, calls, i).0; raw.Ran? && raw.ok
  }

  lemma {:induction false} InvokeKeepsLatches(kit: Kit, c: Call, s: Worker, w: World, n: nat)
    ensures var w' := Invoke(kit, c, s, w, n).1; w'.untrusted == w.untrusted && w'.cloned == w.cloned
    decreases n
  {
    if n > 0 {
      var r := WorkerStep(kit, c, s, w);
      InvokeKeepsLatches(kit, c, r.0, r.1, n - 1);
    }
  }

  lemma LatchesNext(kit: Kit, x: Exec, calls: seq<Call>, i: nat)
    requires i < |calls| && !Before(kit, x, calls, i + 1).crashed
    ensures var w, w' := Before(kit, x, calls, i).world, Before(kit, x, calls, i + 1).world;
            && (w'.untrusted <==> w.untrusted || Tainted(kit, x, calls, i))
            && (w'.cloned <==> w.cloned || ClonedBy(kit, x, calls, i))
  {
    BeforeNext(kit, x, calls, i);
    InvokeKeepsLatches(kit, calls[i], Waiting, Before(kit, x, calls, i).world, Total(kit, calls[i]));
  }

  lemma NotCrashedBefore(kit: Kit, x: Exec, calls: seq<Call>, j: nat, k: nat)
    requires j <= k <= |calls| && !Before(kit, x, calls, k).crashed
    ensures !Before(kit, x, calls, j).crashed
  {
    BeforeGrows(kit, x, calls, j, k);
  }

  /** The latches are set exactly by the successful calls that bring untrusted content in, or clone. */
  lemma {:induction false} LatchesAreSetBy(kit: Kit, x: Exec, calls: seq<Call>, n: nat)
    requires n <= |calls| && !Before(kit, x, calls, n).crashed
    ensures Before(kit, x, calls, n).world.untrusted <==> x.world.untrusted || exists i :: 0 <= i < n && Tainted(kit, x, calls, i)
    ensures Before(kit, x, calls, n).world.cloned <==> x.world.cloned || exists i :: 0 <= i < n && ClonedBy(kit, x, calls, i)
  {
    if n == 0 {
      assert calls[..0] == [];
    } else {
      NotCrashedBefore(kit, x, calls, n - 1, n);
      LatchesAreSetBy(kit, x, calls, n - 1);
      LatchesNext(kit, x, calls, n - 1);
    }
  }

  /** A call is blocked exactly when a stateless gate blocks it, for the reason that gate gives. */
  lemma BlockedIff(kit: Kit, x: Exec, calls: seq<Call>, i: nat)
    requires i < |calls|
    ensures Invoked(kit, x, calls, i).0.Blocked? <==> kit.blocked(calls[i]).Some?
    ensures kit.blocked(calls[i]).Some? ==> Invoked(kit, x, calls, i) == (Blocked(kit.blocked(calls[i]).value), Before(kit, x, calls, i).world)
  {
    var c, w := calls[i], Before(kit, x, calls, i).world;
    if kit.blocked(c).Some? {
      FinishedStays(kit, c, Blocked(kit.blocked(c).value), w, kit.actions(c));
    } else {
      NeverBlocked(kit, c, Waiting, w, Total(kit, c));
    }
  }

  /**
   Refusal over a whole message: a call is refused by the capability reduction exactly when
   no stateless gate blocks it, it is a shell command that builds or installs, and by then
   untrusted content had come in and a repository had been cloned, by successful earlier
   calls or before the message.
   */
  lemma RefusedIff(kit: Kit, x: Exec, calls: seq<Call>, i: nat)
    requires i < |calls| && !Before(kit, x, calls, i).crashed
    ensures Invoked(kit, x, calls, i).0.Reduced? <==>
              && kit.blocked(calls[i]).None? && calls[i].name == "bash" && kit.buildCommand(calls[i].command)
              && (x.world.untrusted || exists k :: 0 <= k < i && Tainted(kit, x, calls, k))
              && (x.world.cloned || exists k :: 0 <= k < i && ClonedBy(kit, x, calls, k))
  {
    ReducedIff(kit, calls[i], Before(kit, x, calls, i).world);
    LatchesAreSetBy(kit, x, calls, i);
  }

  /** Dispatch crashes exactly when some call does, the first of which ends it. */
  lemma {:induction false} CrashesIff(kit: Kit, x: Exec, calls: seq<Call>, n: nat)
    requires n <= |calls| && !x.crashed
    ensures Before(kit, x, calls, n).crashed <==>
              exists i :: 0 <= i < n && !Before(kit, x, calls, i).crashed && Gave(kit, x, calls, i, Crash)
  {
    if n == 0 {
      assert calls[..0] == [];
    } else {
      CrashesIff(kit, x, calls, n - 1);
      BeforeNext(kit, x, calls, n - 1);
    }
  }
}

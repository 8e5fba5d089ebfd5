/**
 Declarative workflow graphs: parsing the pipeline section of a run config,
 the prompt stages it builds, and why an accepted config never takes an
 undeclared transition.
 */
module StageConfig {
  import opened Prelude
  import opened WorkflowGraph
  import opened PipelineEngine
  import opened StepBudget

  // --------------------------------------------------------------- raw sections

  datatype RawNode =
    | NotANode
    | RawNode(unknownKeys: bool, name: Option<string>, prompt: Option<string>,
              system: Option<string>, receivesFrom: Option<string>, accept: Option<string>)

  datatype RawTransition =
    | NotATransition
    | RawTransition(unknownKeys: bool, source: Option<string>, target: Option<string>, maxRounds: Option<int>)

  /** A value where a list is expected: nothing (or an empty non-list), something else, or a list. */
  datatype RawList<T> = NotGiven | NotAList | Items(items: seq<T>)

  datatype RawSection =
    | Absent
    | NotASection
    | RawSection(unknownKeys: bool, nodes: RawList<RawNode>, transitions: RawList<RawTransition>)

  datatype Problem =
    | SectionNotMapping | SectionUnknownKeys | TransitionsNotList
    | NodesMissing | NodeNotMapping(index: nat) | NodeUnknownKeys(index: nat) | NodeNameMissing(index: nat)
    | NodePromptMissing(index: nat) | DuplicateName(name: string)
    | TransitionNotMapping(index: nat) | TransitionUnknownKeys(index: nat) | TransitionEndsMissing(index: nat)
    | SourceUndeclared(index: nat) | TargetUndeclared(index: nat)
    | DecisionWithoutTransition(name: string) | ReceivesFromUndeclared(name: string)

  datatype Spec = Spec(
    name: string, prompt: string, system: Option<string>, receivesFrom: Option<string>, accept: Option<string>)

  /** One prompt stage; a decision stage when accept is set, even to the empty string. */
  datatype Stage = Stage(
    name: string, prompt: string, system: Option<string>, seed: Option<string>,
    receivesFrom: Option<string>, accept: Option<string>, jumpTarget: Option<string>)

  predicate Given(s: Option<string>) { s.Some? && s.value != "" }

  // -------------------------------------------------- what a section declares

  function SpecOf(n: RawNode): Spec
    requires n.RawNode? && n.name.Some? && n.prompt.Some?
  {
    Spec(n.name.value, n.prompt.value, n.system, n.receivesFrom, n.accept)
  }

  /** Node i is complete, has no unknown key, and is the first of its name. */
  predicate NodeOk(raw: seq<RawNode>, i: nat)
    requires i < |raw|
  {
    && raw[i].RawNode? && !raw[i].unknownKeys && Given(raw[i].name) && Given(raw[i].prompt)
    && forall k :: 0 <= k < i ==> !(raw[k].RawNode? && raw[k].name == raw[i].name)
  }

  ghost predicate NodesOk(raw: seq<RawNode>, n: nat)
    requires n <= |raw|
  {
    forall i :: 0 <= i < n ==> NodeOk(raw, i)
  }

  function SpecsOf(raw: seq<RawNode>): (specs: seq<Spec>)
    requires NodesOk(raw, |raw|)
    ensures |specs| == |raw| && forall i :: 0 <= i < |raw| ==> NodeOk(raw, i) && specs[i] == SpecOf(raw[i])
  {
    seq(|raw|, i requires 0 <= i < |raw| => assert NodeOk(raw, i); SpecOf(raw[i]))
  }

  function NamesOf(specs: seq<Spec>): (names: seq<string>)
    ensures |names| == |specs| && forall i :: 0 <= i < |specs| ==> names[i] == specs[i].name
  {
    seq(|specs|, i requires 0 <= i < |specs| => specs[i].name)
  }

  predicate RawTransitionOk(r: RawTransition, names: seq<string>) {
    && r.RawTransition? && !r.unknownKeys && Given(r.source) && Given(r.target)
    && r.source.value in names && r.target.value in names
  }

  ghost predicate RawTransitionsOk(raw: seq<RawTransition>, names: seq<string>, n: nat)
    requires n <= |raw|
  {
    forall i :: 0 <= i < n ==> RawTransitionOk(raw[i], names)
  }

  function TransitionOf(r: RawTransition): Transition
    requires r.RawTransition? && r.source.Some? && r.target.Some?
  {
    Transition(r.source.value, r.target.value, r.maxRounds)
  }

  function TransitionsOf(raw: seq<RawTransition>, names: seq<string>): (ts: seq<Transition>)
    requires RawTransitionsOk(raw, names, |raw|)
    ensures |ts| == |raw|
    ensures forall i :: 0 <= i < |raw| ==> RawTransitionOk(raw[i], names) && ts[i] == TransitionOf(raw[i])
  {
    seq(|raw|, i requires 0 <= i < |raw| => assert RawTransitionOk(raw[i], names); TransitionOf(raw[i]))
  }

  /** Each source jumps to the target of the last transition declared for it. */
  function JumpsOf(ts: seq<Transition>): (jumpTo: map<string, string>)
    ensures forall s :: s in jumpTo <==> exists k :: 0 <= k < |ts| && ts[k].source == s
    ensures forall s :: s in jumpTo ==> exists k :: LastOf(ts, s, k) && ts[k].target == jumpTo[s]
  {
    if ts == [] then map[] else
      var n := |ts| - 1;
      var before := JumpsOf(ts[..n]);
      assert LastOf(ts, ts[n].source, n);
      assert forall s, k :: s != ts[n].source && LastOf(ts[..n], s, k) ==> LastOf(ts, s, k);
      before[ts[n].source := ts[n].target]
  }

  ghost predicate LastOf(ts: seq<Transition>, s: string, k: int) {
    0 <= k < |ts| && ts[k].source == s && forall j :: k < j < |ts| ==> ts[j].source != s
  }

  /** A decision stage has somewhere to jump to, and a stage receives only from a declared one. */
  predicate SpecFits(spec: Spec, names: seq<string>, jumpTo: map<string, string>) {
    && (Given(spec.accept) ==> spec.name in jumpTo)
    && (spec.receivesFrom.Some? ==> spec.receivesFrom.value in names)
  }

  ghost predicate SpecsFit(specs: seq<Spec>, names: seq<string>, jumpTo: map<string, string>) {
    forall i :: 0 <= i < |specs| ==> SpecFits(specs[i], names, jumpTo)
  }

  /** The stage of a spec; only the entry stage is given the task. */
  function StageOf(spec: Spec, jumpTo: map<string, string>, seed: Option<string>): Stage {
    Stage(spec.name, spec.prompt, spec.system, seed, spec.receivesFrom, spec.accept,
          if Given(spec.accept) && spec.name in jumpTo then Some(jumpTo[spec.name]) else None)
  }

  function SeedAt(i: int, task: string): Option<string> { if i == 0 then Some(task) else None }

  function StagesOf(specs: seq<Spec>, jumpTo: map<string, string>, task: string): (stages: seq<Stage>)
    ensures |stages| == |specs| && forall i :: 0 <= i < |specs| ==> stages[i] == StageOf(specs[i], jumpTo, SeedAt(i, task))
  {
    seq(|specs|, i requires 0 <= i < |specs| => StageOf(specs[i], jumpTo, SeedAt(i, task)))
  }

  // -------------------------------------------------------------------- parsing

  /** Collects every problem; a node with a problem that names it is dropped. */
  method ParseNodeSpecs(raw: seq<RawNode>, problems0: seq<Problem>)
    returns (names: seq<string>, specs: seq<Spec>, problems: seq<Problem>)
    ensures problems0 <= problems && names == NamesOf(specs)
    ensures problems == problems0 <==> NodesOk(raw, |raw|)
    ensures problems == problems0 ==> specs == SpecsOf(raw)
    ensures forall p :: p in problems[|problems0|..] <==> NodeProblem(raw, |raw|, p)
  {
    names, specs, problems := [], [], problems0;
    for i := 0 to |raw|
      invariant problems0 <= problems && names == NamesOf(specs)
      invariant problems == problems0 <==> NodesOk(raw, i)
      invariant problems == problems0 ==> SpecsSoFar(raw, specs, i)
      invariant forall name :: name in names <==> Taken(raw, i, name)
      invariant forall p :: p in problems[|problems0|..] <==> NodeProblem(raw, i, p)
    {
      var n := raw[i];
      NextNode(raw, specs, i);
      ghost var names0, reported := names, problems[|problems0|..];
      var found, spec := ParseNode(raw, i, names);
      problems := problems + found;
      assert problems[|problems0|..] == reported + found;
      forall p ensures NodeProblem(raw, i + 1, p) <==> NodeProblem(raw, i, p) || ProblemAt(raw, i, p) { ProblemNext(raw, i, p); }
      forall name ensures Taken(raw, i + 1, name) <==> Taken(raw, i, name) || Usable(raw, i + 1, i, name) { TakenNext(raw, i, name); }
      if spec.Some? {
        names := names + [spec.value.name];
        specs := specs + [spec.value];
      }
    }
  }

  /** The checks of one entry: what is wrong with it, and its spec unless it is dropped. */
  method ParseNode(raw: seq<RawNode>, i: nat, names: seq<string>) returns (found: seq<Problem>, spec: Option<Spec>)
    requires i < |raw| && forall name :: name in names <==> Taken(raw, i, name)
    ensures forall p :: p in found <==> ProblemAt(raw, i, p)
    ensures found == [] <==> raw[i].RawNode? && !raw[i].unknownKeys && Given(raw[i].name) && Given(raw[i].prompt) && raw[i].name.value !in names
    ensures spec.Some? <==> raw[i].RawNode? && Given(raw[i].name) && Given(raw[i].prompt) && raw[i].name.value !in names
    ensures spec.Some? ==> spec.value == SpecOf(raw[i])
  {
    found, spec := [], None;
    var n := raw[i];
    if n.NotANode? { return [NodeNotMapping(i)], None; }
    if n.unknownKeys { found := found + [NodeUnknownKeys(i)]; }
    if !Given(n.name) { found := found + [NodeNameMissing(i)]; return; }
    if !Given(n.prompt) { found := found + [NodePromptMissing(i)]; return; }
    if n.name.value in names { found := found + [DuplicateName(n.name.value)]; return; }
    spec := Some(Spec(n.name.value, n.prompt.value, n.system, n.receivesFrom, n.accept));
  }

  /** Entry k of the first n has this name, and a prompt. */
  ghost predicate Usable(raw: seq<RawNode>, n: int, k: int, name: string) {
    0 <= k < n <= |raw| && raw[k].RawNode? && raw[k].name == Some(name) && name != "" && Given(raw[k].prompt)
  }

  ghost predicate Taken(raw: seq<RawNode>, n: int, name: string) { exists k :: Usable(raw, n, k, name) }

  /** What is wrong with entry i. */
  ghost predicate ProblemAt(raw: seq<RawNode>, i: nat, p: Problem)
    requires i < |raw|
  {
    match p
    case NodeNotMapping(k) => k == i && raw[i].NotANode?
    case NodeUnknownKeys(k) => k == i && raw[i].RawNode? && raw[i].unknownKeys
    case NodeNameMissing(k) => k == i && raw[i].RawNode? && !Given(raw[i].name)
    case NodePromptMissing(k) => k == i && raw[i].RawNode? && Given(raw[i].name) && !Given(raw[i].prompt)
    case DuplicateName(name) => Usable(raw, i + 1, i, name) && Taken(raw, i, name)
    case _ => false
  }

  ghost predicate NodeProblem(raw: seq<RawNode>, n: nat, p: Problem) {
    exists i: nat {:trigger ProblemAt(raw, i, p)} :: i < n && i < |raw| && ProblemAt(raw, i, p)
  }

  lemma ProblemNext(raw: seq<RawNode>, n: nat, p: Problem)
    requires n < |raw|
    ensures NodeProblem(raw, n + 1, p) <==> NodeProblem(raw, n, p) || ProblemAt(raw, n, p)
  {
  }

  lemma TakenNext(raw: seq<RawNode>, n: nat, name: string)
    requires n < |raw|
    ensures Taken(raw, n + 1, name) <==> Taken(raw, n, name) || Usable(raw, n + 1, n, name)
  {
    if Taken(raw, n + 1, name) {
      var more := n + 1;
      var k :| Usable(raw, more, k, name);
      assert k == n || Usable(raw, n, k, name);
    }
    if Taken(raw, n, name) {
      var k :| Usable(raw, n, k, name);
      assert Usable(raw, n + 1, k, name);
    }
  }

  ghost predicate SpecsSoFar(raw: seq<RawNode>, specs: seq<Spec>, n: nat)
    requires n <= |raw| && NodesOk(raw, n)
  {
    |specs| == n && forall i :: 0 <= i < n ==> NodeOk(raw, i) && specs[i] == SpecOf(raw[i])
  }

  /** After nothing but complete nodes, the next one is complete exactly when none of the checks finds fault with it. */
  lemma NextNode(raw: seq<RawNode>, specs: seq<Spec>, i: nat)
    requires i < |raw| && (NodesOk(raw, i) ==> SpecsSoFar(raw, specs, i))
    ensures NodesOk(raw, i + 1) <==> NodesOk(raw, i) && NodeOk(raw, i)
    ensures NodesOk(raw, i) ==>
              (NodeOk(raw, i) <==> raw[i].RawNode? && !raw[i].unknownKeys && Given(raw[i].name) && Given(raw[i].prompt)
                                   && raw[i].name.value !in NamesOf(specs))
  {
    if NodesOk(raw, i) {
      forall k | 0 <= k < i ensures raw[k].RawNode? && raw[k].name == Some(NamesOf(specs)[k]) { assert NodeOk(raw, k); }
    }
  }

  method ParseTransitions(raw: seq<RawTransition>, names: seq<string>, problems0: seq<Problem>)
    returns (ts: seq<Transition>, jumpTo: map<string, string>, problems: seq<Problem>)
    ensures problems0 <= problems && jumpTo == JumpsOf(ts)
    ensures problems == problems0 <==> RawTransitionsOk(raw, names, |raw|)
    ensures problems == problems0 ==> ts == TransitionsOf(raw, names)
    ensures forall p :: p in problems[|problems0|..] <==> TransitionProblem(raw, names, |raw|, p)
  {
    ts, jumpTo, problems := [], map[], problems0;
    for i := 0 to |raw|
      invariant problems0 <= problems && jumpTo == JumpsOf(ts)
      invariant problems == problems0 <==> RawTransitionsOk(raw, names, i)
      invariant problems == problems0 ==>
        |ts| == i && forall k :: 0 <= k < i ==> RawTransitionOk(raw[k], names) && ts[k] == TransitionOf(raw[k])
      invariant forall p :: p in problems[|problems0|..] <==> TransitionProblem(raw, names, i, p)
    {
      var r := raw[i];
      NextTransition(raw, names, i);
      ghost var reported := problems[|problems0|..];
      var found := CheckEnds(r, names, i);
      problems := problems + found;
      assert problems[|problems0|..] == reported + found;
      if r.RawTransition? && Given(r.source) && Given(r.target) {
        JumpsNext(ts, Transition(r.source.value, r.target.value, r.maxRounds));
        ts := ts + [Transition(r.source.value, r.target.value, r.maxRounds)];
        jumpTo := jumpTo[r.source.value := r.target.value];
      }
    }
  }

  /** The checks of one transition. */
  method CheckEnds(r: RawTransition, names: seq<string>, i: nat) returns (found: seq<Problem>)
    ensures forall p :: p in found <==> EndsProblem(r, names, i, p)
    ensures found == [] <==> RawTransitionOk(r, names)
  {
    found := [];
    if r.NotATransition? { return [TransitionNotMapping(i)]; }
    if r.unknownKeys { found := found + [TransitionUnknownKeys(i)]; }
    if !Given(r.source) || !Given(r.target) { found := found + [TransitionEndsMissing(i)]; return; }
    if r.source.value !in names { found := found + [SourceUndeclared(i)]; }
    if r.target.value !in names { found := found + [TargetUndeclared(i)]; }
  }

  /** What is wrong with transition i. */
  ghost predicate EndsProblem(r: RawTransition, names: seq<string>, i: nat, p: Problem) {
    match p
    case TransitionNotMapping(k) => k == i && r.NotATransition?
    case TransitionUnknownKeys(k) => k == i && r.RawTransition? && r.unknownKeys
    case TransitionEndsMissing(k) => k == i && r.RawTransition? && !(Given(r.source) && Given(r.target))
    case SourceUndeclared(k) => k == i && r.RawTransition? && Given(r.source) && Given(r.target) && r.source.value !in names
    case TargetUndeclared(k) => k == i && r.RawTransition? && Given(r.source) && Given(r.target) && r.target.value !in names
    case _ => false
  }

  ghost predicate TransitionProblem(raw: seq<RawTransition>, names: seq<string>, n: nat, p: Problem) {
    exists i: nat {:trigger raw[i]} :: i < n && i < |raw| && EndsProblem(raw[i], names, i, p)
  }

  lemma NextTransition(raw: seq<RawTransition>, names: seq<string>, i: nat)
    requires i < |raw|
    ensures RawTransitionsOk(raw, names, i + 1) <==> RawTransitionsOk(raw, names, i) && RawTransitionOk(raw[i], names)
  {
  }

  lemma JumpsNext(ts: seq<Transition>, t: Transition)
    ensures JumpsOf(ts + [t]) == JumpsOf(ts)[t.source := t.target]
  {
    assert (ts + [t])[..|ts|] == ts;
  }

  method BuildNodes(specs: seq<Spec>, names: seq<string>, jumpTo: map<string, string>, task: string, problems0: seq<Problem>)
    returns (stages: seq<Stage>, problems: seq<Problem>)
    ensures problems0 <= problems && stages == StagesOf(specs, jumpTo, task)
    ensures problems == problems0 <==> SpecsFit(specs, names, jumpTo)
    ensures forall p :: p in problems[|problems0|..] <==> exists i :: 0 <= i < |specs| && FitProblem(specs[i], names, jumpTo, p)
  {
    stages, problems := [], problems0;
    for i := 0 to |specs|
      invariant problems0 <= problems && |stages| == i
      invariant forall k :: 0 <= k < i ==> stages[k] == StageOf(specs[k], jumpTo, SeedAt(k, task))
      invariant problems == problems0 <==> forall k :: 0 <= k < i ==> SpecFits(specs[k], names, jumpTo)
      invariant forall p :: p in problems[|problems0|..] <==> exists k :: 0 <= k < i && FitProblem(specs[k], names, jumpTo, p)
    {
      var spec := specs[i];
      ghost var reported := problems[|problems0|..];
      var found, jumpTarget := CheckSpec(spec, names, jumpTo);
      problems := problems + found;
      assert problems[|problems0|..] == reported + found;
      var seed := if i == 0 then Some(task) else None;
      stages := stages + [Stage(spec.name, spec.prompt, spec.system, seed, spec.receivesFrom, spec.accept, jumpTarget)];
    }
  }

  /** The checks of one spec, and where its stage jumps to. */
  method CheckSpec(spec: Spec, names: seq<string>, jumpTo: map<string, string>) returns (found: seq<Problem>, jumpTarget: Option<string>)
    ensures forall p :: p in found <==> FitProblem(spec, names, jumpTo, p)
    ensures found == [] <==> SpecFits(spec, names, jumpTo)
    ensures jumpTarget == if Given(spec.accept) && spec.name in jumpTo then Some(jumpTo[spec.name]) else None
  {
    found := [];
    jumpTarget := if Given(spec.accept) && spec.name in jumpTo then Some(jumpTo[spec.name]) else None;
    if Given(spec.accept) && jumpTarget.None? { found := found + [DecisionWithoutTransition(spec.name)]; }
    if spec.receivesFrom.Some? && spec.receivesFrom.value !in names { found := found + [ReceivesFromUndeclared(spec.name)]; }
  }

  /** A decision stage without a transition, or an input from a stage that is not declared. */
  ghost predicate FitProblem(spec: Spec, names: seq<string>, jumpTo: map<string, string>, p: Problem) {
    || (p == DecisionWithoutTransition(spec.name) && spec.accept.Some? && spec.accept.value != "" && spec.name !in jumpTo)
    || (p == ReceivesFromUndeclared(spec.name) && spec.receivesFrom.Some? && spec.receivesFrom.value !in names)
  }

  // -------------------------------------------------------------------- stages

  /** What the model answers a stage's call with. */
  datatype Reply = CallFails | EmptyMessage | Content(text: string)

  /** Upper-casing, character by character; one character may become several. */
  type UpperCase = char -> string

  function Upper(s: string, up: UpperCase): string {
    if s == "" then "" else up(s[0]) + Upper(s[1..], up)
  }

  predicate Accepts(accept: string, text: string, up: UpperCase) {
    Contains(Upper(text, up), Upper(accept, up))
  }

  /** A decision stage's reply that holds the accept text, whatever its case, and one that does not. */
  predicate Approves(stage: Stage, reply: Reply, up: UpperCase) {
    reply.Content? && stage.accept.Some? && Contains(Upper(reply.text, up), Upper(stage.accept.value, up))
  }

  predicate Rejects(stage: Stage, reply: Reply, up: UpperCase) {
    reply.Content? && stage.accept.Some? && !Contains(Upper(reply.text, up), Upper(stage.accept.value, up))
  }

  /** A stage's run, as the engine sees it. */
  function StageEffect(stage: Stage, c: Ctx, reply: Reply, up: UpperCase): Effect {
    match reply
    case CallFails => Raise(LlmFailure, 1)
    case EmptyMessage => Effect(CONTINUE, c.jumpTarget, 1, c.stopReason)
    case Content(text) =>
      if stage.accept.None? then Effect(CONTINUE, c.jumpTarget, 1, c.stopReason)
      else if Accepts(stage.accept.value, text, up) then Effect(STOP, c.jumpTarget, 1, Reason("stop"))
      else if stage.jumpTarget.None? then Raise(MissingJumpTarget, 1)
      else Effect(JUMP, stage.jumpTarget.value, 1, c.stopReason)
  }

  datatype Line = Line(role: string, content: string)

  /** The stages' private threads, their last replies, and the run's audit trail. */
  datatype Book = Book(threads: map<string, seq<Line>>, outputs: map<string, string>, audit: seq<Line>)

  function Opened(stage: Stage): seq<Line> {
    (if Given(stage.system) then [Line("system", stage.system.value)] else [])
    + if Given(stage.seed) then [Line("user", stage.seed.value)] else []
  }

  function ThreadIn(book: Book, name: string): seq<Line> {
    if name in book.threads then book.threads[name] else []
  }

  /** What the stage's call is given: its own thread, opened on first use, its input, and its prompt. */
  function Asked(stage: Stage, book: Book): seq<Line> {
    var own := if ThreadIn(book, stage.name) == [] then Opened(stage) else ThreadIn(book, stage.name);
    var incoming := if stage.receivesFrom.Some? && stage.receivesFrom.value in book.outputs
                    then [Line("user", book.outputs[stage.receivesFrom.value])] else [];
    own + incoming + [Line("user", stage.prompt)]
  }

  function Written(stage: Stage, book: Book, reply: Reply): Book {
    var asked := Asked(stage, book);
    if !reply.Content? then book.(threads := book.threads[stage.name := asked])
    else
      var answer := Line("assistant", reply.text);
      Book(book.threads[stage.name := asked + [answer]], book.outputs[stage.name := reply.text], book.audit + [answer])
  }

  class StageBook {
    var nodeThreads: map<string, seq<Line>>
    var nodeOutputs: map<string, string>
    var messages: seq<Line>

    constructor ()
      ensures View() == Book(map[], map[], [])
    {
      nodeThreads, nodeOutputs, messages := map[], map[], [];
    }

    ghost function View(): Book
      reads this
    {
      Book(nodeThreads, nodeOutputs, messages)
    }

    /** The stage's private thread, opened on first use. */
    method OwnThread(stage: Stage) returns (thread: seq<Line>)
      ensures thread == if ThreadIn(View(), stage.name) == [] then Opened(stage) else ThreadIn(View(), stage.name)
    {
      thread := if stage.name in nodeThreads then nodeThreads[stage.name] else [];
      if thread == [] {
        if Given(stage.system) { thread := thread + [Line("system", stage.system.value)]; }
        if Given(stage.seed) { thread := thread + [Line("user", stage.seed.value)]; }
      }
    }

    method Write(stage: Stage, reply: Reply)
      modifies this
      ensures View() == Written(stage, old(View()), reply)
    {
      var thread := OwnThread(stage);
      if stage.receivesFrom.Some? && stage.receivesFrom.value in nodeOutputs {
        thread := thread + [Line("user", nodeOutputs[stage.receivesFrom.value])];
      }
      thread := thread + [Line("user", stage.prompt)];
      assert thread == Asked(stage, old(View()));
      if reply.Content? {
        thread := thread + [Line("assistant", reply.text)];
        nodeOutputs := nodeOutputs[stage.name := reply.text];
        messages := messages + [Line("assistant", reply.text)];
      }
      nodeThreads := nodeThreads[stage.name := thread];
    }
  }

  /** The node itself: its own thread and output, then the run context, step by step. */
  method RunStage(stage: Stage, ctx: RunContext, book: StageBook, reply: Reply, up: UpperCase) returns (raised: Option<Fault>)
    requires ctx.signal == CONTINUE
    modifies ctx, book
    ensures book.View() == Written(stage, old(book.View()), reply)
    ensures var e := StageEffect(stage, old(ctx.View()), reply, up);
            ctx.View() == Apply(old(ctx.View()), e) && raised == if e.Raise? then Some(e.fault) else None
    ensures ctx.stepNum == old(ctx.stepNum) + 1
    ensures raised == Some(LlmFailure) <==> reply.CallFails?
    ensures raised == Some(MissingJumpTarget) <==> Rejects(stage, reply, up) && stage.jumpTarget.None?
    ensures raised.None? ==>
              && (ctx.signal == STOP <==> Approves(stage, reply, up))
              && (ctx.signal == JUMP <==> Rejects(stage, reply, up)) && ctx.signal != RESET
              && (ctx.signal == STOP ==> ctx.stopReason == Reason("stop"))
              && (ctx.signal == JUMP ==> Some(ctx.jumpTarget) == stage.jumpTarget)
  {
    ctx.stepNum := ctx.stepNum + 1;
    book.Write(stage, reply);
    if reply.CallFails? { return Some(LlmFailure); }
    if reply.EmptyMessage? { ctx.signal := CONTINUE; return None; }
    if stage.accept.None? { ctx.signal := CONTINUE; return None; }
    if Accepts(stage.accept.value, reply.text, up) {
      ctx.stopReason := Reason("stop");
      ctx.signal := STOP;
      return None;
    }
    if stage.jumpTarget.None? { return Some(MissingJumpTarget); }
    ctx.signal := JUMP;
    ctx.jumpTarget := stage.jumpTarget.value;
    return None;
  }

  lemma EmptyIsAlwaysAccepted(text: string, up: UpperCase)
    ensures Accepts("", text, up)
  {
    assert OccursAt(Upper(text, up), 0, "");
  }

  lemma {:induction false} UpperConcat(s: string, t: string, up: UpperCase)
    ensures Upper(s + t, up) == Upper(s, up) + Upper(t, up)
  {
    if s == "" {
      assert s + t == t;
    } else {
      assert (s + t)[1..] == s[1..] + t;
      UpperConcat(s[1..], t, up);
    }
  }

  /** A reply that holds the accept text as it is written is accepted, however characters are upper-cased. */
  lemma LiteralIsAccepted(accept: string, text: string, up: UpperCase)
    requires Contains(text, accept)
    ensures Accepts(accept, text, up)
  {
    var p :| 0 <= p <= |text| && OccursAt(text, p, accept);
    var a, c := text[..p], text[p + |accept|..];
    assert text == a + (accept + c);
    UpperConcat(a, accept + c, up);
    UpperConcat(accept, c, up);
    assert Upper(text, up) == Upper(a, up) + Upper(accept, up) + Upper(c, up);
    assert OccursAt(Upper(text, up), |Upper(a, up)|, Upper(accept, up));
  }

  /** Character by character, case does not matter: texts that upper-case alike are judged alike. */
  lemma {:induction false} CaseIsIgnored(accept: string, text: string, other: string, up: UpperCase)
    requires |text| == |other| && forall i :: 0 <= i < |text| ==> up(text[i]) == up(other[i])
    ensures Upper(text, up) == Upper(other, up)
    ensures Accepts(accept, text, up) <==> Accepts(accept, other, up)
    ensures Accepts(text, accept, up) <==> Accepts(other, accept, up)
  {
    if text != "" { CaseIsIgnored(accept, text[1..], other[1..], up); }
  }

  /** The stages fit the graph: every decision stage that can reject has a declared jump. */
  ghost predicate Fits(g: Graph, stages: seq<Stage>) {
    && |stages| == |g.names|
    && forall i :: 0 <= i < |stages| ==>
         && stages[i].name == g.names[i]
         && (Given(stages[i].accept) ==>
               stages[i].jumpTarget.Some? && (g.names[i], stages[i].jumpTarget.value) in g.pairs)
  }

  /** A run of the stages: each node run is the effect of the stage that is up, on the next reply. */
  ghost function StageRun(g: Graph, stages: seq<Stage>, s: Engine, replies: seq<Reply>, up: UpperCase): (r: Engine)
    requires Validated(g) && Ready(g, s) && |stages| == |g.names|
    ensures Ready(g, r)
    decreases |replies|
  {
    if replies == [] || s.status != Running then s else
      StageRun(g, stages, Tick(g, s, StageEffect(stages[s.idx], s.ctx, replies[0], up)), replies[1..], up)
  }

  ghost function StageScriptOf(g: Graph, stages: seq<Stage>, s: Engine, replies: seq<Reply>, up: UpperCase): seq<Effect>
    requires Validated(g) && Ready(g, s) && |stages| == |g.names|
    decreases |replies|
  {
    if replies == [] || s.status != Running then [] else
      var e := StageEffect(stages[s.idx], s.ctx, replies[0], up);
      [e] + StageScriptOf(g, stages, Tick(g, s, e), replies[1..], up)
  }

  /** A stage run is an engine run in which every node counts one step. */
  lemma {:induction false} StageRunIsRun(g: Graph, stages: seq<Stage>, s: Engine, replies: seq<Reply>, up: UpperCase)
    requires Validated(g) && Ready(g, s) && |stages| == |g.names|
    ensures var script := StageScriptOf(g, stages, s, replies, up);
            && StageRun(g, stages, s, replies, up) == Run(g, s, script)
            && forall i :: 0 <= i < |script| ==> script[i].bump == 1
    decreases |replies|
  {
    if replies != [] && s.status == Running {
      var e := StageEffect(stages[s.idx], s.ctx, replies[0], up);
      StageRunIsRun(g, stages, Tick(g, s, e), replies[1..], up);
      assert StageScriptOf(g, stages, s, replies, up)[1..] == StageScriptOf(g, stages, Tick(g, s, e), replies[1..], up);
    }
  }

  ghost predicate NoTransitionError(s: Engine) {
    s.status != UndeclaredTransition && s.status != NodeRaised(MissingJumpTarget)
  }

  lemma StageTickIsClean(g: Graph, stages: seq<Stage>, s: Engine, reply: Reply, up: UpperCase)
    requires Validated(g) && Ready(g, s) && s.status == Running && Fits(g, stages)
    ensures NoTransitionError(Tick(g, s, StageEffect(stages[s.idx], s.ctx, reply, up)))
  {
    var stage := stages[s.idx];
    if reply.Content? && stage.accept == Some("") { EmptyIsAlwaysAccepted(reply.text, up); }
  }

  /** Stages that fit their graph never raise a transition error, whatever the replies. */
  lemma {:induction false} FittingStagesRunClean(g: Graph, stages: seq<Stage>, s: Engine, replies: seq<Reply>, up: UpperCase)
    requires Validated(g) && Ready(g, s) && Fits(g, stages) && NoTransitionError(s)
    ensures NoTransitionError(StageRun(g, stages, s, replies, up))
    decreases |replies|
  {
    if replies != [] && s.status == Running {
      StageTickIsClean(g, stages, s, replies[0], up);
      FittingStagesRunClean(g, stages, Tick(g, s, StageEffect(stages[s.idx], s.ctx, replies[0], up)), replies[1..], up);
    }
  }

  /** The run after one more reply. */
  ghost function Replied(g: Graph, stages: seq<Stage>, s: Engine, reply: Reply, up: UpperCase): (r: Engine)
    requires Validated(g) && Ready(g, s) && |stages| == |g.names|
    ensures Ready(g, r)
  {
    StageRun(g, stages, s, [reply], up)
  }

  lemma RepliedIsTick(g: Graph, stages: seq<Stage>, s: Engine, reply: Reply, up: UpperCase)
    requires Validated(g) && Ready(g, s) && s.status == Running && |stages| == |g.names|
    ensures Replied(g, stages, s, reply, up) == Tick(g, s, StageEffect(stages[s.idx], s.ctx, reply, up))
  {
    var s' := Tick(g, s, StageEffect(stages[s.idx], s.ctx, reply, up));
    assert [reply][1..] == [] && StageRun(g, stages, s', [], up) == s';
  }

  /**
   The verdict decides, in every run: an approving reply ends the run, checkpointed, for the
   reason stop; a rejecting one leads to the node the stage jumps to unless the rounds of the
   pair are used up, which ends the run for that reason; a failed call raises; any other reply
   leads on to the next node or round to the first. Each counts one step.
   */
  lemma VerdictDecides(g: Graph, stages: seq<Stage>, s: Engine, reply: Reply, up: UpperCase)
    requires Validated(g) && Ready(g, s) && s.status == Running && Fits(g, stages)
    ensures var stage, s' := stages[s.idx], Replied(g, stages, s, reply, up);
            && s'.ctx.step == s.ctx.step + 1
            && (reply.CallFails? <==> s'.status == NodeRaised(LlmFailure))
            && (Approves(stage, reply, up) ==>
                  s'.status == Returned && s'.ctx.signal == STOP && s'.ctx.stopReason == Reason("stop") && s'.saved == Some(s'.ctx))
            && (Rejects(stage, reply, up) ==>
                  && stage.jumpTarget.Some? && s'.saved == s.saved
                  && if s'.ctx.signal == STOP
                     then s'.status == Returned && s'.ctx.stopReason == LoopBound(stage.name, stage.jumpTarget.value)
                     else s'.idx < |g.names| && g.names[s'.idx] == stage.jumpTarget.value
                          && s'.status == if s'.ctx.step < s'.ctx.maxSteps then Running else Returned)
            && (!reply.CallFails? && !Approves(stage, reply, up) && !Rejects(stage, reply, up) ==>
                  && s'.ctx == s.ctx.(step := s.ctx.step + 1)
                  && if s.idx + 1 < |g.names| then s'.status == Running && s'.idx == s.idx + 1
                     else s'.saved == Some(s'.ctx) && s'.idx == 0
                          && s'.status == if s'.ctx.step < s'.ctx.maxSteps then Running else Returned)
  {
    RepliedIsTick(g, stages, s, reply, up);
    var stage := stages[s.idx];
    if Rejects(stage, reply, up) {
      if stage.accept == Some("") { EmptyIsAlwaysAccepted(reply.text, up); }
      var t := g.pairs[(g.names[s.idx], stage.jumpTarget.value)];
      assert TransitionOk(g, t);
    }
  }

  // ------------------------------------------------------------ private threads

  /** A stage run and what the model replied. */
  datatype Turn = Turn(stage: nat, reply: Reply)

  function BookAfter(stages: seq<Stage>, turns: seq<Turn>): Book
    requires forall t :: t in turns ==> t.stage < |stages|
  {
    if turns == [] then Book(map[], map[], [])
    else
      var last := turns[|turns| - 1];
      Written(stages[last.stage], BookAfter(stages, turns[..|turns| - 1]), last.reply)
  }

  /** Stage k has replied with this text. */
  ghost predicate Said(turns: seq<Turn>, k: nat, text: string) {
    exists n :: 0 <= n < |turns| && turns[n] == Turn(k, Content(text))
  }

  /** A line stage k may find in its thread: its opening, its prompt, its own reply, or a reply of the stage it receives from. */
  ghost predicate OwnLine(stages: seq<Stage>, turns: seq<Turn>, k: nat, line: Line)
    requires k < |stages|
  {
    || line in Opened(stages[k]) || line == Line("user", stages[k].prompt)
    || (line.role == "assistant" && Said(turns, k, line.content))
    || (line.role == "user" && exists m: nat :: Feeds(stages, m, k) && Said(turns, m, line.content))
  }

  predicate Feeds(stages: seq<Stage>, m: nat, k: nat)
    requires k < |stages|
  {
    m < |stages| && stages[k].receivesFrom == Some(stages[m].name)
  }

  ghost predicate DistinctStages(stages: seq<Stage>) {
    forall i, j :: 0 <= i < j < |stages| ==> stages[i].name != stages[j].name
  }

  ghost predicate Isolated(stages: seq<Stage>, turns: seq<Turn>, book: Book, k: nat)
    requires k < |stages|
  {
    && (forall line :: line in ThreadIn(book, stages[k].name) ==> OwnLine(stages, turns, k, line))
    && (stages[k].name in book.outputs ==> Said(turns, k, book.outputs[stages[k].name]))
  }

  ghost predicate AllIsolated(stages: seq<Stage>, turns: seq<Turn>, book: Book) {
    && (forall k :: 0 <= k < |stages| ==> Isolated(stages, turns, book, k))
    && (forall name :: name in book.outputs ==> exists m: nat :: m < |stages| && stages[m].name == name)
  }

  lemma MoreWasSaid(stages: seq<Stage>, turns: seq<Turn>, t: Turn, book: Book, k: nat)
    requires k < |stages| && Isolated(stages, turns, book, k)
    ensures Isolated(stages, turns + [t], book, k)
  {
    forall m: nat, text | Said(turns, m, text) ensures Said(turns + [t], m, text) {
      var n :| 0 <= n < |turns| && turns[n] == Turn(m, Content(text));
      assert (turns + [t])[n] == turns[n];
    }
  }

  lemma AskedIsOwn(stages: seq<Stage>, turns: seq<Turn>, book: Book, k: nat)
    requires k < |stages| && AllIsolated(stages, turns, book)
    ensures forall line :: line in Asked(stages[k], book) ==> OwnLine(stages, turns, k, line)
  {
    assert Isolated(stages, turns, book, k);
    var from := stages[k].receivesFrom;
    if from.Some? && from.value in book.outputs {
      var m: nat :| m < |stages| && stages[m].name == from.value;
      assert Isolated(stages, turns, book, m) && Feeds(stages, m, k);
      assert OwnLine(stages, turns, k, Line("user", book.outputs[from.value]));
    }
  }

  lemma TurnKeepsIsolation(stages: seq<Stage>, turns: seq<Turn>, t: Turn, book: Book)
    requires DistinctStages(stages) && t.stage < |stages| && AllIsolated(stages, turns, book)
    ensures AllIsolated(stages, turns + [t], Written(stages[t.stage], book, t.reply))
  {
    var book', stage := Written(stages[t.stage], book, t.reply), stages[t.stage];
    AskedIsOwn(stages, turns, book, t.stage);
    if t.reply.Content? { assert (turns + [t])[|turns|] == t && Said(turns + [t], t.stage, t.reply.text); }
    forall k | 0 <= k < |stages| ensures Isolated(stages, turns + [t], book', k) {
      assert Isolated(stages, turns, book, k);
      if k == t.stage {
        var asked := Book(map[stage.name := Asked(stage, book)], map[], []);
        assert Isolated(stages, turns, asked, k);
        MoreWasSaid(stages, turns, t, asked, k);
        MoreWasSaid(stages, turns, t, book, k);
      } else {
        assert stages[k].name != stage.name;
        MoreWasSaid(stages, turns, t, book, k);
      }
    }
  }

  /**
   Each stage keeps its own conversation: over any order of stage runs and any replies, a
   stage's thread holds only its own opening - the task only for the entry stage - its own
   prompt, its own replies, and replies of the one stage it declares to receive from.
   */
  lemma {:induction false} ThreadsArePrivate(stages: seq<Stage>, turns: seq<Turn>)
    requires DistinctStages(stages) && forall t :: t in turns ==> t.stage < |stages|
    ensures AllIsolated(stages, turns, BookAfter(stages, turns))
  {
    if turns != [] {
      var n := |turns| - 1;
      ThreadsArePrivate(stages, turns[..n]);
      TurnKeepsIsolation(stages, turns[..n], turns[n], BookAfter(stages, turns[..n]));
      assert turns == turns[..n] + [turns[n]];
    }
  }

  /** The last text stage k has replied with. */
  function LastSaid(turns: seq<Turn>, k: nat): Option<string> {
    if turns == [] then None else
      var n := |turns| - 1;
      if turns[n].stage == k && turns[n].reply.Content? then Some(turns[n].reply.text) else LastSaid(turns[..n], k)
  }

  /** What stage k is told when it runs next: the last reply of the stage it receives from. */
  ghost function Heard(stages: seq<Stage>, turns: seq<Turn>, k: nat): seq<Line>
    requires k < |stages|
  {
    if m: nat :| Feeds(stages, m, k) && LastSaid(turns, m).Some? then [Line("user", LastSaid(turns, m).value)] else []
  }

  /** The conversation of stage k, from its own turns: opened once, then input, prompt and reply of each turn. */
  ghost function History(stages: seq<Stage>, turns: seq<Turn>, k: nat): seq<Line>
    requires k < |stages|
  {
    if turns == [] then [] else
      var n := |turns| - 1;
      var before, reply := History(stages, turns[..n], k), turns[n].reply;
      if turns[n].stage != k then before else
        var opening := (if Given(stages[k].system) then [Line("system", stages[k].system.value)] else [])
                       + (if Given(stages[k].seed) then [Line("user", stages[k].seed.value)] else []);
        (if before == [] then opening else before) + Heard(stages, turns[..n], k) + [Line("user", stages[k].prompt)]
        + if reply.Content? then [Line("assistant", reply.text)] else []
  }

  function AllSaid(turns: seq<Turn>): seq<Line> {
    if turns == [] then [] else
      var n := |turns| - 1;
      AllSaid(turns[..n]) + if turns[n].reply.Content? then [Line("assistant", turns[n].reply.text)] else []
  }

  /** The book holds the stages' histories, their last replies, and all replies in order. */
  ghost predicate Keeps(stages: seq<Stage>, turns: seq<Turn>, book: Book) {
    && (forall k :: 0 <= k < |stages| ==> KeepsStage(stages, turns, book, k))
    && (forall name :: name in book.outputs ==> exists m: nat :: m < |stages| && stages[m].name == name)
    && book.audit == AllSaid(turns)
  }

  ghost predicate KeepsStage(stages: seq<Stage>, turns: seq<Turn>, book: Book, k: nat)
    requires k < |stages|
  {
    && ThreadIn(book, stages[k].name) == History(stages, turns, k)
    && LastSaid(turns, k) == if stages[k].name in book.outputs then Some(book.outputs[stages[k].name]) else None
  }

  lemma AskedIsHeard(stages: seq<Stage>, turns: seq<Turn>, book: Book, k: nat)
    requires DistinctStages(stages) && k < |stages| && Keeps(stages, turns, book)
    ensures Heard(stages, turns, k) ==
            if stages[k].receivesFrom.Some? && stages[k].receivesFrom.value in book.outputs
            then [Line("user", book.outputs[stages[k].receivesFrom.value])] else []
  {
    var from := stages[k].receivesFrom;
    forall m: nat | Feeds(stages, m, k)
      ensures KeepsStage(stages, turns, book, m) && LastSaid(turns, m) == if from.value in book.outputs then Some(book.outputs[from.value]) else None
    {
    }
    if from.Some? && from.value in book.outputs {
      var m: nat :| m < |stages| && stages[m].name == from.value;
      assert Feeds(stages, m, k);
    }
  }

  lemma TurnKeepsOther(stages: seq<Stage>, turns: seq<Turn>, t: Turn, book: Book, k: nat)
    requires DistinctStages(stages) && t.stage < |stages| && k < |stages| && k != t.stage && Keeps(stages, turns, book)
    ensures KeepsStage(stages, turns + [t], Written(stages[t.stage], book, t.reply), k)
  {
    assert (turns + [t])[..|turns|] == turns;
    assert KeepsStage(stages, turns, book, k) && stages[k].name != stages[t.stage].name;
  }

  lemma TurnKeepsOwn(stages: seq<Stage>, turns: seq<Turn>, t: Turn, book: Book)
    requires DistinctStages(stages) && t.stage < |stages| && Keeps(stages, turns, book)
    ensures KeepsStage(stages, turns + [t], Written(stages[t.stage], book, t.reply), t.stage)
  {
    assert (turns + [t])[..|turns|] == turns;
    assert KeepsStage(stages, turns, book, t.stage);
    AskedIsHeard(stages, turns, book, t.stage);
  }

  /**
   What each stage's conversation is, over any order of stage runs and any replies: its
   opening once, and for each of its own turns the last reply of the stage it receives from
   if there is one, its prompt, and its reply if the call gave one. The audit trail is all
   replies in order.
   */
  lemma {:induction false} ThreadsAreHistories(stages: seq<Stage>, turns: seq<Turn>)
    requires DistinctStages(stages) && forall t :: t in turns ==> t.stage < |stages|
    ensures Keeps(stages, turns, BookAfter(stages, turns))
  {
    if turns != [] {
      var n := |turns| - 1;
      var t, book := turns[n], BookAfter(stages, turns[..n]);
      ThreadsAreHistories(stages, turns[..n]);
      assert turns == turns[..n] + [t];
      forall k | 0 <= k < |stages| ensures KeepsStage(stages, turns, BookAfter(stages, turns), k) {
        if k == t.stage { TurnKeepsOwn(stages, turns[..n], t, book); } else { TurnKeepsOther(stages, turns[..n], t, book, k); }
      }
    }
  }

  // --------------------------------------------------------------- end to end

  function ItemsOf<T>(list: RawList<T>): seq<T> { if list.Items? then list.items else [] }

  /** The section as a whole is well-formed; transitions may be left out, nodes may not. */
  ghost predicate SectionOk(c: RawSection) {
    && c.RawSection? && !c.unknownKeys && !c.transitions.NotAList? && ItemsOf(c.nodes) != []
    && NodesOk(ItemsOf(c.nodes), |ItemsOf(c.nodes)|)
    && RawTransitionsOk(ItemsOf(c.transitions), DeclaredNames(c), |ItemsOf(c.transitions)|)
    && SpecsFit(DeclaredSpecs(c), DeclaredNames(c), JumpsOf(DeclaredTransitions(c)))
  }

  ghost function DeclaredSpecs(c: RawSection): seq<Spec>
    requires c.RawSection? && NodesOk(ItemsOf(c.nodes), |ItemsOf(c.nodes)|)
  {
    SpecsOf(ItemsOf(c.nodes))
  }

  ghost function DeclaredNames(c: RawSection): seq<string>
    requires c.RawSection? && NodesOk(ItemsOf(c.nodes), |ItemsOf(c.nodes)|)
  {
    NamesOf(DeclaredSpecs(c))
  }

  ghost function DeclaredTransitions(c: RawSection): seq<Transition>
    requires c.RawSection? && NodesOk(ItemsOf(c.nodes), |ItemsOf(c.nodes)|)
    requires RawTransitionsOk(ItemsOf(c.transitions), DeclaredNames(c), |ItemsOf(c.transitions)|)
  {
    TransitionsOf(ItemsOf(c.transitions), DeclaredNames(c))
  }

  ghost function DeclaredGraph(c: RawSection): Graph
    requires SectionOk(c)
  {
    Build(DeclaredNames(c), DeclaredTransitions(c), ArrowKey)
  }

  ghost function DeclaredStages(c: RawSection, task: string): seq<Stage>
    requires SectionOk(c)
  {
    StagesOf(DeclaredSpecs(c), JumpsOf(DeclaredTransitions(c)), task)
  }

  /** An accepted config: a well-formed section whose backward transitions are all bounded. */
  ghost predicate Accepted(c: RawSection) {
    SectionOk(c) && forall t :: t in DeclaredTransitions(c) ==> TransitionOk(DeclaredGraph(c), t)
  }

  // ------------------------------------------- acceptance, read off the raw section

  ghost predicate NodeComplete(n: RawNode) {
    && n.RawNode? && !n.unknownKeys
    && n.name.Some? && n.name.value != "" && n.prompt.Some? && n.prompt.value != ""
  }

  /** Raw node a is called this. */
  ghost predicate Named(nodes: seq<RawNode>, a: int, name: Option<string>) {
    0 <= a < |nodes| && nodes[a].RawNode? && name.Some? && nodes[a].name == name
  }

  ghost predicate IsName(nodes: seq<RawNode>, name: Option<string>) { exists a :: Named(nodes, a, name) }

  ghost predicate TransitionComplete(nodes: seq<RawNode>, r: RawTransition) {
    r.RawTransition? && !r.unknownKeys && IsName(nodes, r.source) && IsName(nodes, r.target)
  }

  /** No bound, or bound zero, only from an earlier node to a later one. */
  ghost predicate BoundedOrForward(nodes: seq<RawNode>, r: RawTransition) {
    r.RawTransition? && (r.maxRounds == None || r.maxRounds == Some(0)) ==>
      exists a, b :: Named(nodes, a, r.source) && Named(nodes, b, r.target) && a < b
  }

  ghost predicate LeavesFrom(ts: seq<RawTransition>, name: Option<string>) {
    exists k :: 0 <= k < |ts| && ts[k].RawTransition? && ts[k].source == name
  }

  ghost predicate NodeFits(nodes: seq<RawNode>, ts: seq<RawTransition>, n: RawNode) {
    n.RawNode? ==>
      && (n.accept.Some? && n.accept.value != "" ==> LeavesFrom(ts, n.name))
      && (n.receivesFrom.Some? ==> IsName(nodes, n.receivesFrom))
  }

  ghost predicate DistinctNames(nodes: seq<RawNode>) {
    forall i, k :: 0 <= i < k < |nodes| && nodes[i].RawNode? && nodes[k].RawNode? ==> nodes[i].name != nodes[k].name
  }

  lemma NodesOkIff(nodes: seq<RawNode>)
    ensures NodesOk(nodes, |nodes|) <==> (forall i :: 0 <= i < |nodes| ==> NodeComplete(nodes[i])) && DistinctNames(nodes)
  {
    if NodesOk(nodes, |nodes|) {
      forall i, k | 0 <= i < k < |nodes| && nodes[i].RawNode? && nodes[k].RawNode? ensures nodes[i].name != nodes[k].name {
        assert NodeOk(nodes, k) && NodeOk(nodes, i);
      }
      forall i | 0 <= i < |nodes| ensures NodeComplete(nodes[i]) { assert NodeOk(nodes, i); }
    }
    if (forall i :: 0 <= i < |nodes| ==> NodeComplete(nodes[i])) && DistinctNames(nodes) {
      forall i | 0 <= i < |nodes| ensures NodeOk(nodes, i) { assert NodeComplete(nodes[i]); }
    }
  }

  lemma NameIff(nodes: seq<RawNode>, name: Option<string>)
    requires NodesOk(nodes, |nodes|)
    ensures IsName(nodes, name) <==> name.Some? && name.value in NamesOf(SpecsOf(nodes))
    ensures IsName(nodes, name) ==> name.value != ""
    ensures forall a :: Named(nodes, a, name) <==> 0 <= a < |nodes| && name.Some? && NamesOf(SpecsOf(nodes))[a] == name.value
  {
    var names := NamesOf(SpecsOf(nodes));
    forall a | 0 <= a < |nodes| ensures nodes[a].RawNode? && nodes[a].name == Some(names[a]) && names[a] != "" { assert NodeOk(nodes, a); }
    if name.Some? && name.value in names {
      var a :| 0 <= a < |names| && names[a] == name.value;
      assert Named(nodes, a, name);
    }
  }

  lemma TransitionsOkIff(nodes: seq<RawNode>, ts: seq<RawTransition>)
    requires NodesOk(nodes, |nodes|)
    ensures RawTransitionsOk(ts, NamesOf(SpecsOf(nodes)), |ts|) <==> forall i :: 0 <= i < |ts| ==> TransitionComplete(nodes, ts[i])
  {
    var names := NamesOf(SpecsOf(nodes));
    forall i | 0 <= i < |ts| ensures RawTransitionOk(ts[i], names) <==> TransitionComplete(nodes, ts[i]) {
      if ts[i].RawTransition? {
        NameIff(nodes, ts[i].source);
        NameIff(nodes, ts[i].target);
      }
    }
  }

  lemma LeavesIff(ts: seq<RawTransition>, names: seq<string>, name: string)
    requires RawTransitionsOk(ts, names, |ts|)
    ensures LeavesFrom(ts, Some(name)) <==> name in JumpsOf(TransitionsOf(ts, names))
  {
    var declared := TransitionsOf(ts, names);
    forall k | 0 <= k < |ts| ensures ts[k].RawTransition? && ts[k].source == Some(declared[k].source) {
      assert RawTransitionOk(ts[k], names);
    }
  }

  lemma FitsIff(nodes: seq<RawNode>, ts: seq<RawTransition>)
    requires NodesOk(nodes, |nodes|) && RawTransitionsOk(ts, NamesOf(SpecsOf(nodes)), |ts|)
    ensures SpecsFit(SpecsOf(nodes), NamesOf(SpecsOf(nodes)), JumpsOf(TransitionsOf(ts, NamesOf(SpecsOf(nodes)))))
            <==> forall i :: 0 <= i < |nodes| ==> NodeFits(nodes, ts, nodes[i])
  {
    var names, specs := NamesOf(SpecsOf(nodes)), SpecsOf(nodes);
    var jumpTo := JumpsOf(TransitionsOf(ts, names));
    forall i | 0 <= i < |nodes| ensures SpecFits(specs[i], names, jumpTo) <==> NodeFits(nodes, ts, nodes[i]) {
      assert NodeOk(nodes, i) && specs[i] == SpecOf(nodes[i]);
      NameIff(nodes, nodes[i].receivesFrom);
      LeavesIff(ts, names, specs[i].name);
    }
  }

  lemma ForwardIff(nodes: seq<RawNode>, ts: seq<RawTransition>)
    requires NodesOk(nodes, |nodes|) && RawTransitionsOk(ts, NamesOf(SpecsOf(nodes)), |ts|)
    ensures var names := NamesOf(SpecsOf(nodes));
            (forall t :: t in TransitionsOf(ts, names) ==> Sensible(names, t))
            <==> forall i :: 0 <= i < |ts| ==> BoundedOrForward(nodes, ts[i])
  {
    var names := NamesOf(SpecsOf(nodes));
    var declared := TransitionsOf(ts, names);
    forall i | 0 <= i < |ts| ensures Sensible(names, declared[i]) <==> BoundedOrForward(nodes, ts[i]) {
      OneForwardIff(nodes, ts, i);
    }
    if forall i :: 0 <= i < |ts| ==> BoundedOrForward(nodes, ts[i]) {
      forall t | t in declared ensures Sensible(names, t) {
        var i :| 0 <= i < |declared| && declared[i] == t;
        assert BoundedOrForward(nodes, ts[i]);
      }
    }
  }

  lemma OneForwardIff(nodes: seq<RawNode>, ts: seq<RawTransition>, i: nat)
    requires NodesOk(nodes, |nodes|) && RawTransitionsOk(ts, NamesOf(SpecsOf(nodes)), |ts|) && i < |ts|
    ensures var names := NamesOf(SpecsOf(nodes));
            Sensible(names, TransitionsOf(ts, names)[i]) <==> BoundedOrForward(nodes, ts[i])
  {
    var names := NamesOf(SpecsOf(nodes));
    var r, t := ts[i], TransitionsOf(ts, names)[i];
    assert RawTransitionOk(r, names) && t == TransitionOf(r);
    NameIff(nodes, r.source);
    NameIff(nodes, r.target);
    NamesAreDistinct(nodes);
    if GoesForward(names, t) {
      var a :| 0 <= a < |names| && names[a] == t.source;
      var b :| 0 <= b < |names| && names[b] == t.target && forall k :: 0 <= k < |names| && names[k] == t.source ==> k < b;
      assert Named(nodes, a, r.source) && Named(nodes, b, r.target) && a < b;
    }
    if a, b :| Named(nodes, a, r.source) && Named(nodes, b, r.target) && a < b {
      assert names[a] == t.source && names[b] == t.target;
      assert GoesForward(names, t);
    }
  }

  lemma NamesAreDistinct(nodes: seq<RawNode>)
    requires NodesOk(nodes, |nodes|)
    ensures var names := NamesOf(SpecsOf(nodes)); forall i, k :: 0 <= i < k < |names| ==> names[i] != names[k]
  {
    var names := NamesOf(SpecsOf(nodes));
    forall i, k | 0 <= i < k < |names| ensures names[i] != names[k] { assert NodeOk(nodes, i) && NodeOk(nodes, k); }
  }

  /**
   What is accepted, in terms of the section as it is written: some nodes, each complete, with
   distinct names; transitions, if any, between them; a transition for every decision stage;
   inputs that are nodes; and no transition backward without a bound.
   */
  lemma AcceptedIff(c: RawSection)
    ensures Accepted(c) <==>
              && c.RawSection? && !c.unknownKeys && c.nodes.Items? && c.nodes.items != [] && !c.transitions.NotAList?
              && var nodes, ts := c.nodes.items, if c.transitions.Items? then c.transitions.items else [];
                 && (forall i :: 0 <= i < |nodes| ==> NodeComplete(nodes[i]) && NodeFits(nodes, ts, nodes[i])) && DistinctNames(nodes)
                 && (forall i :: 0 <= i < |ts| ==> TransitionComplete(nodes, ts[i]) && BoundedOrForward(nodes, ts[i]))
  {
    if c.RawSection? {
      var nodes, ts := ItemsOf(c.nodes), ItemsOf(c.transitions);
      NodesOkIff(nodes);
      if NodesOk(nodes, |nodes|) {
        TransitionsOkIff(nodes, ts);
        if RawTransitionsOk(ts, NamesOf(SpecsOf(nodes)), |ts|) {
          FitsIff(nodes, ts);
          ForwardIff(nodes, ts);
          forall t ensures TransitionOk(Build(NamesOf(SpecsOf(nodes)), TransitionsOf(ts, NamesOf(SpecsOf(nodes))), ArrowKey), t)
                           <==> Sensible(NamesOf(SpecsOf(nodes)), t) {
            TransitionOkIff(NamesOf(SpecsOf(nodes)), TransitionsOf(ts, NamesOf(SpecsOf(nodes))), ArrowKey, t);
          }
        }
      }
    }
  }

  /**
   The stages of an accepted section are its nodes as written; the first alone is given the
   task, and a stage with a non-empty accept text jumps to the target of the last transition
   from it.
   */
  lemma StagesAreDeclared(c: RawSection, task: string, i: nat)
    requires Accepted(c) && i < |c.nodes.items|
    ensures |DeclaredStages(c, task)| == |c.nodes.items|
    ensures var raw, stage := c.nodes.items[i], DeclaredStages(c, task)[i];
            && raw.RawNode? && raw.name == Some(stage.name) && raw.prompt == Some(stage.prompt) && raw.system == stage.system
            && raw.receivesFrom == stage.receivesFrom && raw.accept == stage.accept
            && stage.seed == (if i == 0 then Some(task) else None)
            && (stage.jumpTarget.Some? <==> stage.accept.Some? && stage.accept.value != "")
    ensures var stage, ts := DeclaredStages(c, task)[i], ItemsOf(c.transitions);
            forall k :: LastFrom(ts, k, stage.name) && stage.jumpTarget.Some? ==> ts[k].target == stage.jumpTarget
  {
    var nodes, ts := ItemsOf(c.nodes), ItemsOf(c.transitions);
    var names, declared := DeclaredNames(c), DeclaredTransitions(c);
    assert NodeOk(nodes, i) && SpecFits(DeclaredSpecs(c)[i], names, JumpsOf(declared));
    var name := DeclaredStages(c, task)[i].name;
    forall k | LastFrom(ts, k, name) ensures LastOf(declared, name, k) && ts[k].target == Some(declared[k].target) {
      forall j | 0 <= j < |ts| ensures ts[j].RawTransition? && ts[j].source == Some(declared[j].source) && ts[j].target == Some(declared[j].target) {
        assert RawTransitionOk(ts[j], names);
      }
    }
  }

  /** Raw transition k is the last one from this node. */
  ghost predicate LastFrom(ts: seq<RawTransition>, k: int, name: string) {
    && 0 <= k < |ts| && ts[k].RawTransition? && ts[k].source == Some(name)
    && forall j :: k < j < |ts| ==> !(ts[j].RawTransition? && ts[j].source == Some(name))
  }

  // ---------------------------------------------------------------- loading

  /**
   Loading a pipeline section and building its graph: the section has a graph exactly when
   it is accepted, and then the graph and the stages are those it declares.
   */
  method LoadPipeline(c: RawSection, task: string) returns (stages: seq<Stage>, problems: seq<Problem>, built: Option<Pipeline>)
    ensures problems == [] <==> c.Absent? || SectionOk(c)
    ensures built.Some? <==> Accepted(c)
    ensures built.Some? ==> built.value.Valid() && fresh(built.value) && built.value.saved == None
    ensures built.Some? ==> built.value.graph == DeclaredGraph(c) && stages == DeclaredStages(c, task)
  {
    stages, problems, built := [], [], None;
    if c.Absent? { return; }
    if c.NotASection? { problems := [SectionNotMapping]; return; }
    if c.unknownKeys { problems := [SectionUnknownKeys]; }
    if !c.nodes.Items? || c.nodes.items == [] { problems := problems + [NodesMissing]; return; }
    var names, specs, ts;
    names, specs, ts, stages, problems := ParsePipeline(c.nodes.items, c.transitions, task, problems);
    if problems != [] { return; }
    var made := Pipeline.Make(names, ts, ArrowKey);
    if made.Ok? { built := Some(made.value); }
  }

  method ParsePipeline(nodes: seq<RawNode>, transitions: RawList<RawTransition>, task: string, problems0: seq<Problem>)
    returns (names: seq<string>, specs: seq<Spec>, ts: seq<Transition>, stages: seq<Stage>, problems: seq<Problem>)
    ensures problems0 <= problems
    ensures problems == problems0 <==> PartsOk(nodes, transitions)
    ensures problems == problems0 ==>
              && specs == SpecsOf(nodes) && names == NamesOf(specs)
              && ts == TransitionsOf(ItemsOf(transitions), names) && stages == StagesOf(specs, JumpsOf(ts), task)
  {
    names, specs, problems := ParseNodeSpecs(nodes, problems0);
    var problems1 := problems;
    if transitions.NotAList? { problems := problems + [TransitionsNotList]; }
    var problems2, jumpTo := problems, map[];
    ts, jumpTo, problems := ParseTransitions(ItemsOf(transitions), names, problems);
    var problems3 := problems;
    stages, problems := BuildNodes(specs, names, jumpTo, task, problems);
    PrefixChain(problems0, problems1, problems2, problems3, problems);
  }

  /** As long as each list extends the one before, nothing was added in all exactly when nothing was added at each step. */
  lemma PrefixChain(a: seq<Problem>, b: seq<Problem>, c: seq<Problem>, d: seq<Problem>, e: seq<Problem>)
    requires a <= b <= c <= d <= e
    ensures a == e <==> a == b == c == d == e
  {
  }

  ghost predicate PartsOk(nodes: seq<RawNode>, transitions: RawList<RawTransition>) {
    && NodesOk(nodes, |nodes|) && !transitions.NotAList?
    && var specs := SpecsOf(nodes);
       var names := NamesOf(specs);
       && RawTransitionsOk(ItemsOf(transitions), names, |ItemsOf(transitions)|)
       && SpecsFit(specs, names, JumpsOf(TransitionsOf(ItemsOf(transitions), names)))
  }

  lemma AcceptedFits(c: RawSection, task: string)
    requires Accepted(c)
    ensures Validated(DeclaredGraph(c)) && Fits(DeclaredGraph(c), DeclaredStages(c, task))
  {
    var g, stages, ts, specs := DeclaredGraph(c), DeclaredStages(c, task), DeclaredTransitions(c), DeclaredSpecs(c);
    BuildTables(g.names, g.transitions, ArrowKey);
    forall i | 0 <= i < |stages| && Given(stages[i].accept)
      ensures stages[i].jumpTarget.Some? && (g.names[i], stages[i].jumpTarget.value) in g.pairs
    {
      assert SpecFits(specs[i], g.names, JumpsOf(ts));
      var k :| LastOf(ts, specs[i].name, k) && ts[k].target == JumpsOf(ts)[specs[i].name];
      assert ts[k] in g.transitions;
    }
  }

  /**
   An accepted config runs without transition errors to its end: for all replies, from
   every start below the ceiling, no undeclared or missing jump is ever hit, the steps stay
   within the ceiling plus N - 1, and enough replies finish the run.
   */
  lemma AcceptedConfigRunsClean(config: RawSection, task: string, c: Ctx, replies: seq<Reply>, up: UpperCase)
    requires Accepted(config) && c.step < c.maxSteps
    ensures var g, stages := DeclaredGraph(config), DeclaredStages(config, task);
            && Validated(g) && |stages| == |g.names|
            && var s := StageRun(g, stages, Start(c), replies, up);
               && NoTransitionError(s)
               && s.ctx.step <= c.maxSteps + |g.names| - 1
               && (|replies| >= c.maxSteps - c.step + |g.names| - 1 ==> s.status != Running)
  {
    AcceptedFits(config, task);
    FittingConfigRunsClean(DeclaredGraph(config), DeclaredStages(config, task), c, replies, up);
  }

  lemma FittingConfigRunsClean(g: Graph, stages: seq<Stage>, c: Ctx, replies: seq<Reply>, up: UpperCase)
    requires Validated(g) && Fits(g, stages) && c.step < c.maxSteps
    ensures var s := StageRun(g, stages, Start(c), replies, up);
            && NoTransitionError(s)
            && s.ctx.step <= c.maxSteps + |g.names| - 1
            && (|replies| >= c.maxSteps - c.step + |g.names| - 1 ==> s.status != Running)
  {
    FittingStagesRunClean(g, stages, Start(c), replies, up);
    StageRunIsRun(g, stages, Start(c), replies, up);
    var script := StageScriptOf(g, stages, Start(c), replies, up);
    StageOvershoot(g, c, script);
    StageScriptLength(g, stages, Start(c), replies, up);
    if |script| == |replies| >= c.maxSteps - c.step + |g.names| - 1 { StageRunsFinish(g, c, script); }
  }

  /** Replies are used up one per node run, until the run is over. */
  lemma {:induction false} StageScriptLength(g: Graph, stages: seq<Stage>, s: Engine, replies: seq<Reply>, up: UpperCase)
    requires Validated(g) && Ready(g, s) && |stages| == |g.names|
    ensures StageRun(g, stages, s, replies, up).status != Running || |StageScriptOf(g, stages, s, replies, up)| == |replies|
    decreases |replies|
  {
    if replies != [] && s.status == Running {
      StageScriptLength(g, stages, Tick(g, s, StageEffect(stages[s.idx], s.ctx, replies[0], up)), replies[1..], up);
    }
  }
}

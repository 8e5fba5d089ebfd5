/**
 The engine itself: construction with its validation, one pass over the nodes,
 jump resolution, and the outer loop, each proved against the machine of
 WorkflowGraph.
 */
module PipelineEngine {
  import opened Prelude
  import opened WorkflowGraph

  class RunContext {
    var signal: Signal
    var jumpTarget: string
    var stepNum: int
    const maxSteps: int
    var stopReason: StopReason
    var roundCounters: map<string, int>
    var transitionLog: seq<TransitionRow>

    constructor (stepNum: int, maxSteps: int, roundCounters: map<string, int>)
      ensures View() == Ctx(CONTINUE, "", stepNum, maxSteps, Reason("max_steps"), roundCounters, [])
    {
      signal, jumpTarget, this.stepNum, this.maxSteps := CONTINUE, "", stepNum, maxSteps;
      stopReason, this.roundCounters, transitionLog := Reason("max_steps"), roundCounters, [];
    }

    ghost function View(): Ctx
      reads this
    {
      Ctx(signal, jumpTarget, stepNum, maxSteps, stopReason, roundCounters, transitionLog)
    }

    /** A node's run: whatever it writes, and whether it raises. */
    method RunNode(e: Effect) returns (raised: Option<Fault>)
      modifies this
      ensures View() == Apply(old(View()), e)
      ensures raised == if e.Raise? then Some(e.fault) else None
    {
      stepNum := stepNum + e.bump;
      if e.Raise? { return Some(e.fault); }
      signal, jumpTarget, stopReason := e.signal, e.jumpTarget, e.stopReason;
      return None;
    }
  }

  datatype BuildError = UnknownSource(t: Transition) | UnknownTarget(t: Transition) | UnboundedLoop(t: Transition)

  /** The name index: a dictionary filled in step order, so the last node of a name wins. */
  method BuildIndex(names: seq<string>) returns (index: map<string, nat>)
    ensures index == IndexByName(names)
  {
    index := map[];
    for i := 0 to |names|
      invariant index == IndexByName(names[..i])
    {
      index := index[names[i] := i];
      assert names[..i + 1][..i] == names[..i];
    }
    assert names[..|names|] == names;
  }

  /** One pass of the outer loop stopped at idx, with the signal the context now shows. */
  datatype PassEnd = PassEnd(idx: nat, used: nat, raised: Option<Fault>)

  /** A pass over the nodes from idx, as far as the script goes. */
  ghost function Pass(g: Graph, c: Ctx, idx: nat, script: seq<Effect>): (Ctx, PassEnd)
    decreases |script|
  {
    if idx >= |g.names| || script == [] then (c, PassEnd(idx, 0, None)) else
      var c1 := Apply(c, script[0]);
      if script[0].Raise? then (c1, PassEnd(idx, 1, Some(script[0].fault)))
      else if c1.signal != CONTINUE then (c1, PassEnd(idx, 1, None))
      else
        var r := Pass(g, c1, idx + 1, script[1..]);
        (r.0, r.1.(used := r.1.used + 1))
  }

  /** How the machine goes on once a pass has ended this way. */
  ghost function AfterPass(g: Graph, s: Engine, c: Ctx, end: PassEnd): Engine
    requires Validated(g) && (c.signal != CONTINUE ==> end.idx < |g.names|)
  {
    var last := if end.idx < |g.names| then end.idx else |g.names| - 1;
    var s1 := s.(ran := s.ran + end.used, idx := last);
    if end.raised.Some? then s1.(ctx := c, status := NodeRaised(end.raised.value))
    else if c.signal == CONTINUE && end.idx < |g.names| then s1.(ctx := c)
    else Settle(g, s1, c, last)
  }

  /** A pass of the engine is a stretch of the machine's run. */
  lemma {:induction false} PassIsRun(g: Graph, s: Engine, script: seq<Effect>)
    requires Validated(g) && Ready(g, s) && s.status == Running
    ensures var r := Pass(g, s.ctx, s.idx, script);
            && r.1.used <= |script|
            && (r.0.signal != CONTINUE ==> r.1.idx < |g.names|)
            && (r.1.raised.None? && r.0.signal == CONTINUE && r.1.idx < |g.names| ==> r.1.used == |script|)
            && Ready(g, AfterPass(g, s, r.0, r.1))
            && Run(g, s, script) == Run(g, AfterPass(g, s, r.0, r.1), script[r.1.used..])
    decreases |script|
  {
    if script != [] {
      var e := script[0];
      if e.Effect? && e.signal == CONTINUE && s.idx + 1 < |g.names| {
        var s1 := Tick(g, s, e);
        PassIsRun(g, s1, script[1..]);
        var r := Pass(g, s1.ctx, s1.idx, script[1..]);
        assert script[1..][r.1.used..] == script[r.1.used + 1..];
        PassGoesOn(g, s, e, r.0, r.1);
      } else {
        PassStops(g, s, script);
      }
    }
  }

  /** A node that continues only moves the start of the rest of the pass. */
  lemma PassGoesOn(g: Graph, s: Engine, e: Effect, c: Ctx, end: PassEnd)
    requires Validated(g) && Ready(g, s) && s.status == Running
    requires e.Effect? && e.signal == CONTINUE && s.idx + 1 < |g.names|
    requires c.signal != CONTINUE ==> end.idx < |g.names|
    ensures AfterPass(g, s, c, end.(used := end.used + 1)) == AfterPass(g, Tick(g, s, e), c, end)
  {
  }

  /** A node that ends the pass is one tick of the machine. */
  lemma PassStops(g: Graph, s: Engine, script: seq<Effect>)
    requires Validated(g) && Ready(g, s) && s.status == Running && script != []
    requires !(script[0].Effect? && script[0].signal == CONTINUE && s.idx + 1 < |g.names|)
    ensures var r := Pass(g, s.ctx, s.idx, script);
            && r.1.used == 1 && (r.0.signal != CONTINUE ==> r.1.idx < |g.names|)
            && (r.1.raised.None? && r.0.signal == CONTINUE ==> r.1.idx == |g.names|)
            && AfterPass(g, s, r.0, r.1) == Tick(g, s, script[0])
  {
    var c1 := Apply(s.ctx, script[0]);
    assert script[1..] == [] || s.idx + 1 >= |g.names| || script[0].Raise? || c1.signal != CONTINUE;
  }

  /** The outer loop at its test: the context, the last checkpoint, what is left of the script, and whether it goes on. */
  datatype LoopHead = LoopHead(ctx: Ctx, saved: Option<Ctx>, script: seq<Effect>, goesOn: bool)

  predicate LoopTest(c: Ctx) { c.step < c.maxSteps && c.signal == CONTINUE }

  /** The outer loop over an empty node list after up to n rounds: a pass, and a checkpoint unless it reset. */
  ghost function Rounds(g: Graph, c: Ctx, script: seq<Effect>, n: nat): LoopHead
    requires g.names == []
  {
    if n == 0 then LoopHead(c, None, script, LoopTest(c)) else
      var h := Rounds(g, c, script, n - 1);
      if !h.goesOn then h else
        var r := Pass(g, h.ctx, 0, h.script);
        LoopHead(r.0, if r.0.signal == RESET then h.saved else Some(r.0), if r.1.used <= |h.script| then h.script[r.1.used..] else [],
                 LoopTest(r.0))
  }

  /**
   With no nodes the outer loop is still going after any number of rounds exactly if a step
   was left to begin with; no round uses or changes anything but the checkpoint it writes.
   */
  lemma {:induction false} EmptyRoundsStandStill(g: Graph, c: Ctx, script: seq<Effect>, n: nat)
    requires g.names == [] && c.signal == CONTINUE
    ensures var h := Rounds(g, c, script, n);
            && (h.goesOn <==> c.step < c.maxSteps) && h.ctx == c && h.script == script
            && h.saved == if n > 0 && h.goesOn then Some(c) else None
  {
    if n > 0 { EmptyRoundsStandStill(g, c, script, n - 1); }
  }

  lemma ByPairSnoc(ts: seq<Transition>, i: nat)
    requires i < |ts|
    ensures ByPair(ts[..i + 1]) == ByPair(ts[..i])[(ts[i].source, ts[i].target) := ts[i]]
  {
    assert ts[..i + 1][..i] == ts[..i];
  }

  ghost predicate AllOk(g: Graph, ts: seq<Transition>) {
    forall t :: t in ts ==> TransitionOk(g, t)
  }

  lemma AllOkSnoc(g: Graph, ts: seq<Transition>, i: nat)
    requires i < |ts| && AllOk(g, ts[..i]) && TransitionOk(g, ts[i])
    ensures AllOk(g, ts[..i + 1])
  {
    assert ts[..i + 1] == ts[..i] + [ts[i]];
  }

  ghost predicate FirstNotOk(g: Graph, ts: seq<Transition>, i: int) {
    0 <= i < |ts| && !TransitionOk(g, ts[i]) && AllOk(g, ts[..i])
  }

  lemma AllSensible(names: seq<string>, ts: seq<Transition>, key: (string, string) -> string)
    ensures AllOk(Build(names, ts, key), ts) <==> forall t :: t in ts ==> Sensible(names, t)
  {
    forall t ensures TransitionOk(Build(names, ts, key), t) <==> Sensible(names, t) { TransitionOkIff(names, ts, key, t); }
  }

  lemma FirstNotSensible(names: seq<string>, ts: seq<Transition>, key: (string, string) -> string, t: Transition)
    requires exists i :: FirstNotOk(Build(names, ts, key), ts, i) && ts[i] == t
    ensures exists i :: 0 <= i < |ts| && ts[i] == t && !Sensible(names, ts[i]) && forall k :: 0 <= k < i ==> Sensible(names, ts[k])
  {
    var i :| FirstNotOk(Build(names, ts, key), ts, i) && ts[i] == t;
    forall k | 0 <= k < i ensures Sensible(names, ts[k]) {
      assert ts[..i][k] == ts[k];
      TransitionOkIff(names, ts, key, ts[k]);
    }
    TransitionOkIff(names, ts, key, t);
  }

  /** An unknown source is reported before an unknown target, and that before a missing bound. */
  predicate Complaint(names: set<string>, e: BuildError) {
    match e
    case UnknownSource(t) => t.source !in names
    case UnknownTarget(t) => t.source in names && t.target !in names
    case UnboundedLoop(t) => t.source in names && t.target in names
  }

  /** The error is about the first transition that is not sensible, and says what is wrong with it. */
  ghost predicate FirstBad(names: seq<string>, ts: seq<Transition>, e: BuildError) {
    && Complaint((set n | n in names), e)
    && exists i :: 0 <= i < |ts| && ts[i] == e.t && !Sensible(names, ts[i]) && forall k :: 0 <= k < i ==> Sensible(names, ts[k])
  }

  class Pipeline {
    const graph: Graph
    var saved: Option<Ctx>

    ghost predicate Valid() { Validated(graph) }

    constructor Unchecked(graph: Graph)
      ensures this.graph == graph && saved == None
    {
      this.graph := graph;
      saved := None;
    }

    /** Construction: rejects unknown names and backward transitions without a bound, in declaration order. */
    static method Make(names: seq<string>, transitions: seq<Transition>, key: (string, string) -> string)
      returns (r: Result<Pipeline, BuildError>)
      ensures r.Ok? <==> forall t :: t in transitions ==> TransitionOk(Build(names, transitions, key), t)
      ensures r.Ok? <==> forall t :: t in transitions ==> Sensible(names, t)
      ensures r.Ok? ==> fresh(r.value) && (names != [] ==> r.value.Valid()) && r.value.saved == None
                        && r.value.graph == Build(names, transitions, key)
      ensures r.Err? ==> FirstBad(names, transitions, r.error)
    {
      AllSensible(names, transitions, key);
      var index := BuildIndex(names);
      var bad, pairs := ValidateTransitions(transitions, index, Build(names, transitions, key));
      if bad.Some? {
        assert Build(names, transitions, key).index.Keys == set n | n in names;
        FirstNotSensible(names, transitions, key, bad.value.t);
        return Err(bad.value);
      }
      BuildTables(names, transitions, key);
      var p := new Pipeline.Unchecked(Graph(names, transitions, key, index, pairs));
      return Ok(p);
    }

    static method CheckTransition(t: Transition, index: map<string, nat>, ghost g: Graph) returns (bad: Option<BuildError>)
      requires index == g.index
      ensures bad.None? <==> TransitionOk(g, t)
      ensures bad.Some? ==> bad.value.t == t && Complaint(g.index.Keys, bad.value)
    {
      if t.source !in index { return Some(UnknownSource(t)); }
      if t.target !in index { return Some(UnknownTarget(t)); }
      var isBackward := index[t.target] <= index[t.source];
      if isBackward && !Truthy(t.maxRounds) { return Some(UnboundedLoop(t)); }
      return None;
    }

    static method ValidateTransitions(transitions: seq<Transition>, index: map<string, nat>, ghost g: Graph)
      returns (bad: Option<BuildError>, pairs: map<(string, string), Transition>)
      requires index == g.index
      ensures bad.None? ==> pairs == ByPair(transitions) && AllOk(g, transitions)
      ensures bad.Some? ==> Complaint(g.index.Keys, bad.value) && exists i :: FirstNotOk(g, transitions, i) && transitions[i] == bad.value.t
    {
      pairs := map[];
      for i := 0 to |transitions|
        invariant AllOk(g, transitions[..i])
        invariant pairs == ByPair(transitions[..i])
      {
        var t := transitions[i];
        bad := CheckTransition(t, index, g);
        if bad.Some? {
          assert FirstNotOk(g, transitions, i);
          return;
        }
        ByPairSnoc(transitions, i);
        AllOkSnoc(g, transitions, i);
        pairs := pairs[(t.source, t.target) := t];
      }
      assert transitions[..|transitions|] == transitions;
      return None, pairs;
    }

    /** Runs nodes from startIdx until one of them sets a signal, raises, or the script is cut off. */
    method RunStep(ctx: RunContext, startIdx: nat, script: seq<Effect>) returns (end: PassEnd)
      modifies ctx
      ensures (ctx.View(), end) == Pass(graph, old(ctx.View()), startIdx, script)
    {
      var idx: nat, used: nat := startIdx, 0;
      ghost var c0 := ctx.View();
      while idx < |graph.names| && used < |script|
        invariant used <= |script|
        invariant Pass(graph, c0, startIdx, script) ==
                  var r := Pass(graph, ctx.View(), idx, script[used..]);
                  (r.0, r.1.(used := r.1.used + used))
        decreases |script| - used
      {
        var raised := ctx.RunNode(script[used]);
        used := used + 1;
        if raised.Some? || ctx.signal != CONTINUE { return PassEnd(idx, used, raised); }
        idx := idx + 1;
      }
      return PassEnd(idx, used, None);
    }

    /** The engine's answer to JUMP, or nothing when the pair was never declared. */
    method ResolveJumpTo(ctx: RunContext, source: string) returns (idx: Option<nat>)
      requires Valid() && source in graph.index
      modifies ctx
      ensures var jump := ResolveJump(graph, old(ctx.View()), source);
              && (jump.None? ==> idx == None && ctx.View() == old(ctx.View()))
              && (jump.Some? ==> idx == Some(jump.value.1) && ctx.View() == jump.value.0)
    {
      var target := ctx.jumpTarget;
      if (source, target) !in graph.pairs { return None; }
      var t := graph.pairs[(source, target)];
      assert TransitionOk(graph, t);
      var round := 0;
      if t.maxRounds.Some? {
        var counterKey := graph.key(source, target);
        var current := if counterKey in ctx.roundCounters then ctx.roundCounters[counterKey] else 0;
        if current >= t.maxRounds.value {
          ctx.stopReason := LoopBound(source, target);
          ctx.signal := STOP;
          ctx.transitionLog := ctx.transitionLog + [TransitionRow(source, target, current, BoundExhausted, ctx.stepNum)];
          return Some(graph.index[source]);
        }
        round := current + 1;
        ctx.roundCounters := ctx.roundCounters[counterKey := round];
      }
      ctx.transitionLog := ctx.transitionLog + [TransitionRow(source, target, round, JumpTaken, ctx.stepNum)];
      ctx.signal := CONTINUE;
      ctx.jumpTarget := "";
      return Some(graph.index[target]);
    }

    /** What the loop body does once its pass has ended: jump, return, or checkpoint and go round. */
    method FinishPass(ctx: RunContext, end: PassEnd, ghost s: Engine) returns (status: Status, idx: nat)
      requires Valid() && end.raised.None? && (ctx.signal != CONTINUE ==> end.idx < |graph.names|)
      requires s.status == Running && saved == s.saved && !(ctx.signal == CONTINUE && end.idx < |graph.names|)
      modifies this, ctx
      ensures var s' := AfterPass(graph, s, old(ctx.View()), end);
              && status == s'.status && ctx.View() == s'.ctx && saved == s'.saved
              && (status == Running ==> idx == s'.idx)
    {
      idx := 0;
      if ctx.signal == JUMP {
        var next := ResolveJumpTo(ctx, graph.names[end.idx]);
        if next.None? { return UndeclaredTransition, 0; }
        idx := next.value;
      } else if ctx.signal == RESET {
        return Returned, 0;
      } else {
        saved := Some(Ctx(ctx.signal, ctx.jumpTarget, ctx.stepNum, ctx.maxSteps, ctx.stopReason,
                          ctx.roundCounters, ctx.transitionLog));
        if ctx.signal == STOP { return Returned, 0; }
      }
      status := if ctx.stepNum < ctx.maxSteps && ctx.signal == CONTINUE then Running else Returned;
    }

    /**
     The outer loop: the run of the machine, for every script of node effects. With no
     nodes it returns only if no step is left to begin with; otherwise it is still going
     after any number of rounds (see EmptyRoundsStandStill).
     */
    method Execute(ctx: RunContext, script: seq<Effect>) returns (status: Status)
      requires graph.names != [] ==> Valid()
      requires graph.names == [] ==> ctx.stepNum >= ctx.maxSteps
      requires saved == None
      modifies this, ctx
      ensures graph.names != [] ==>
                var s := Run(graph, Start(old(ctx.View())), script);
                status == s.status && ctx.View() == s.ctx && saved == s.saved
      ensures graph.names == [] ==>
                status == Returned && ctx.View() == old(ctx.View()).(signal := CONTINUE) && saved == None
    {
      ctx.signal := CONTINUE;
      if ctx.stepNum >= ctx.maxSteps { return Returned; }
      status := Loop(ctx, script);
    }

    method Loop(ctx: RunContext, script: seq<Effect>) returns (status: Status)
      requires Valid() && saved == None && ctx.signal == CONTINUE
      modifies this, ctx
      ensures var s := Run(graph, Start(old(ctx.View())), script);
              status == s.status && ctx.View() == s.ctx && saved == s.saved
    {
      var idx: nat, used: nat := 0, 0;
      ghost var s0 := Start(old(ctx.View()));
      ghost var s := s0;
      status := if ctx.stepNum < ctx.maxSteps then Running else Returned;
      while status == Running && used < |script|
        invariant used <= |script| && Ready(graph, s)
        invariant ctx.View() == s.ctx && saved == s.saved && status == s.status
        invariant status == Running ==> s.idx == idx
        invariant Run(graph, s0, script) == Run(graph, s, script[used..])
        decreases |script| - used
      {
        var taken;
        status, idx, taken, s := Round(ctx, idx, script[used..], s);
        assert script[used..][taken..] == script[used + taken..];
        used := used + taken;
      }
    }

    /** One pass of the nodes and what the engine does after it. */
    method Round(ctx: RunContext, start: nat, script: seq<Effect>, ghost s: Engine)
      returns (status: Status, idx: nat, used: nat, ghost s': Engine)
      requires Valid() && Ready(graph, s) && s.status == Running && s.idx == start && script != []
      requires ctx.View() == s.ctx && saved == s.saved
      modifies this, ctx
      ensures 0 < used <= |script| && Ready(graph, s') && Run(graph, s, script) == Run(graph, s', script[used..])
      ensures ctx.View() == s'.ctx && saved == s'.saved && status == s'.status && (status == Running ==> s'.idx == idx)
    {
      PassIsRun(graph, s, script);
      PassUses(graph, s.ctx, s.idx, script);
      var end := RunStep(ctx, start, script);
      used := end.used;
      ghost var c := ctx.View();
      status, idx := Running, start;
      if end.raised.Some? {
        status := NodeRaised(end.raised.value);
      } else if ctx.signal == CONTINUE && end.idx < |graph.names| {
        idx := end.idx;
      } else {
        status, idx := FinishPass(ctx, end, s);
      }
      s' := AfterPass(graph, s, c, end);
    }
  }

  lemma PassUses(g: Graph, c: Ctx, idx: nat, script: seq<Effect>)
    requires idx < |g.names| && script != []
    ensures Pass(g, c, idx, script).1.used > 0
  {
  }
}

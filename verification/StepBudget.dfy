/**
 Step budgets: how far the step counter of a prompt-stage run can go, and the
 exact accounting of the default five-node pipeline over a chain of context
 resets.
 */
module StepBudget {
  import opened WorkflowGraph
  import opened GraphTermination

  // -------------------------------------------------------------- prompt stages

  /** Every prompt stage counts one step, whatever its reply; also when its call fails. */
  ghost predicate StageScript(script: seq<Effect>) {
    forall i :: 0 <= i < |script| ==> script[i].bump == 1
  }

  /** Within a pass the counter exceeds the ceiling by no more than the nodes run since the last check. */
  ghost predicate PassInBudget(g: Graph, s: Engine, start: int) {
    && s.ctx.step == start + s.ran
    && (s.status == Running ==> s.entry <= s.idx && s.ctx.step < s.ctx.maxSteps + (s.idx - s.entry))
    && (s.ran > 0 ==> s.ctx.step < s.ctx.maxSteps + |g.names|)
  }

  lemma {:induction false} StageRunInBudget(g: Graph, s: Engine, script: seq<Effect>, start: int)
    requires Validated(g) && Ready(g, s) && StageScript(script) && PassInBudget(g, s, start)
    ensures PassInBudget(g, Run(g, s, script), start)
    ensures Run(g, s, script).ctx.maxSteps == s.ctx.maxSteps
    decreases |script|
  {
    if script != [] && s.status == Running {
      assert PassInBudget(g, Tick(g, s, script[0]), start);
      StageRunInBudget(g, Tick(g, s, script[0]), script[1..], start);
    }
  }

  /** A prompt-stage run of N nodes that starts below the ceiling ends at most N - 1 steps above it. */
  lemma StageOvershoot(g: Graph, c: Ctx, script: seq<Effect>)
    requires Validated(g) && StageScript(script) && c.step < c.maxSteps
    ensures var s := Run(g, Start(c), script);
            s.ctx.step == c.step + s.ran && s.ctx.step <= c.maxSteps + |g.names| - 1
  {
    StageRunInBudget(g, Start(c), script, c.step);
  }

  lemma {:induction false} RanIsScriptWhileRunning(g: Graph, s: Engine, script: seq<Effect>)
    requires Validated(g) && Ready(g, s)
    ensures Run(g, s, script).status == Running ==> Run(g, s, script).ran == s.ran + |script|
    decreases |script|
  {
    if script != [] && s.status == Running {
      RanIsScriptWhileRunning(g, Tick(g, s, script[0]), script[1..]);
    }
  }

  /** So every prompt-stage run finishes, after at most the steps left plus N - 1 node runs. */
  lemma StageRunsFinish(g: Graph, c: Ctx, script: seq<Effect>)
    requires Validated(g) && StageScript(script) && c.step < c.maxSteps
    requires |script| >= c.maxSteps - c.step + |g.names| - 1
    ensures Run(g, Start(c), script).status != Running
  {
    StageRunInBudget(g, Start(c), script, c.step);
    RanIsScriptWhileRunning(g, Start(c), script);
  }

  // ------------------------------------------------------- the default pipeline

  const GUARD: nat := 0
  const LLM_CALL: nat := 1
  const FINALIZE: nat := 4

  const DEFAULT_PIPELINE := Build(
    ["context_guard", "llm_call", "tool_dispatch", "anomaly_detect", "finalize_step"], [], ArrowKey)

  /** Five nodes, no declared jumps. */
  ghost predicate IsDefault(g: Graph) { Validated(g) && |g.names| == 5 && g.pairs == map[] }

  /** What each of the five nodes may do to the step counter and the signal. */
  ghost predicate DefaultNode(idx: nat, c: Ctx, e: Effect) {
    && e.bump == (if idx == LLM_CALL then 1 else 0)
    && (e.Effect? ==>
          if idx == GUARD then e.signal in {CONTINUE, STOP, RESET}
          else if idx == FINALIZE then
            if c.step >= c.maxSteps then e.signal == STOP else e.signal in {CONTINUE, STOP}
          else e.signal == CONTINUE)
  }

  /** The script is one the default nodes can produce. */
  ghost predicate DefaultScript(g: Graph, s: Engine, script: seq<Effect>)
    requires IsDefault(g) && Ready(g, s)
    decreases |script|
  {
    script == [] || s.status != Running ||
    (DefaultNode(s.idx, s.ctx, script[0]) && DefaultScript(g, Tick(g, s, script[0]), script[1..]))
  }

  /** Answered main calls: runs of the call node that did not raise. */
  ghost function MainCalls(g: Graph, s: Engine, script: seq<Effect>): nat
    requires IsDefault(g) && Ready(g, s)
    decreases |script|
  {
    if script == [] || s.status != Running then 0 else
      (if s.idx == LLM_CALL && script[0].Effect? then 1 else 0)
      + MainCalls(g, Tick(g, s, script[0]), script[1..])
  }

  lemma DefaultIsValid()
    ensures IsDefault(DEFAULT_PIPELINE)
  {
    BuildTables(DEFAULT_PIPELINE.names, DEFAULT_PIPELINE.transitions, ArrowKey);
  }

  /** The default pipeline ends from every start below its ceiling, as long as its call node counts a step. */
  lemma DefaultFinishes()
    ensures IsDefault(DEFAULT_PIPELINE) && AlwaysFinishes(DEFAULT_PIPELINE, {LLM_CALL})
  {
    DefaultIsValid();
    NoWayAroundTheCall(DEFAULT_PIPELINE, 5);
    FinishesIff(DEFAULT_PIPELINE, {LLM_CALL});
  }

  lemma {:induction false} NoWayAroundTheCall(g: Graph, i: nat)
    requires IsDefault(g) && i > LLM_CALL
    ensures !FreeReach(g, {LLM_CALL}, i)
  {
    forall j: nat | j < i && FreeReach(g, {LLM_CALL}, j) ensures !FreeEdge(g, {LLM_CALL}, j, i) {
      if j > LLM_CALL { NoWayAroundTheCall(g, j); }
    }
  }

  /** Before the call node there is always a step left; after it the ceiling may be reached, never passed. */
  ghost predicate WithinCeiling(s: Engine) {
    && s.ctx.step <= s.ctx.maxSteps
    && (s.status == Running && s.idx <= LLM_CALL ==> s.ctx.step < s.ctx.maxSteps)
    && (s.status == Returned && s.ctx.signal == RESET ==> s.ctx.step < s.ctx.maxSteps)
  }

  lemma DefaultTick(g: Graph, s: Engine, e: Effect)
    requires IsDefault(g)
    requires s.status == Running && Ready(g, s) && WithinCeiling(s) && DefaultNode(s.idx, s.ctx, e)
    ensures var s' := Tick(g, s, e);
            WithinCeiling(s') && s'.ctx.maxSteps == s.ctx.maxSteps && s'.ctx.step == s.ctx.step + e.bump
  {
  }

  ghost predicate Answered(script: seq<Effect>) {
    forall i :: 0 <= i < |script| ==> script[i].Effect?
  }

  /**
   In the default pipeline the step counter never passes the ceiling, and the
   main calls are at most the steps taken, exactly those when no node fails.
   */
  lemma {:induction false} CallsAreSteps(g: Graph, s: Engine, script: seq<Effect>)
    requires IsDefault(g) && Ready(g, s)
    requires WithinCeiling(s) && DefaultScript(g, s, script)
    ensures var s' := Run(g, s, script);
            && WithinCeiling(s') && s'.ctx.maxSteps == s.ctx.maxSteps
            && MainCalls(g, s, script) <= s'.ctx.step - s.ctx.step
            && (Answered(script) ==> MainCalls(g, s, script) == s'.ctx.step - s.ctx.step)
    decreases |script|
  {
    if script != [] && s.status == Running {
      DefaultTick(g, s, script[0]);
      CallsAreSteps(g, Tick(g, s, script[0]), script[1..]);
      assert Answered(script) ==> Answered(script[1..]);
    }
  }

  /** No call fails, the guard lets every pass through, and the model never finishes on its own. */
  ghost predicate NeverEndsEarly(g: Graph, s: Engine, script: seq<Effect>)
    requires IsDefault(g) && Ready(g, s)
    decreases |script|
  {
    script == [] || s.status != Running ||
    (&& DefaultNode(s.idx, s.ctx, script[0]) && script[0].Effect?
     && (s.ctx.step < s.ctx.maxSteps ==> script[0].signal == CONTINUE)
     && NeverEndsEarly(g, Tick(g, s, script[0]), script[1..]))
  }

  /** Such a run makes exactly the main calls it was given steps for, and ends at the ceiling. */
  lemma {:induction false} RunsExactlyMaxSteps(g: Graph, s: Engine, script: seq<Effect>)
    requires IsDefault(g) && Ready(g, s) && WithinCeiling(s) && NeverEndsEarly(g, s, script)
    ensures var s' := Run(g, s, script);
            && MainCalls(g, s, script) == s'.ctx.step - s.ctx.step
            && (s.status == Running && s'.status != Running ==> s'.status == Returned && s'.ctx.step == s.ctx.maxSteps)
    decreases |script|
  {
    if script != [] && s.status == Running {
      DefaultTick(g, s, script[0]);
      var s1 := Tick(g, s, script[0]);
      RunsExactlyMaxSteps(g, s1, script[1..]);
    }
  }

  // ---------------------------------------------------------------- reset chains

  /** A run, and the run of its continuation if its guard reset the context, and so on. */
  datatype Chain = Last(script: seq<Effect>) | Reset(script: seq<Effect>, next: Chain)

  ghost function Fresh(step: int, maxSteps: int): Ctx {
    Ctx(CONTINUE, "", step, maxSteps, Reason("max_steps"), map[], [])
  }

  /** The ceiling a continuation is given. */
  function ContinuationSteps(maxSteps: int, step: int): int {
    if maxSteps - step >= 1 then maxSteps - step else 1
  }

  ghost predicate ChainOk(g: Graph, chain: Chain, step: int, maxSteps: int)
    requires IsDefault(g)
    decreases chain
  {
    var s := Start(Fresh(step, maxSteps));
    && DefaultScript(g, s, chain.script)
    && (chain.Reset? ==>
          var s' := Run(g, s, chain.script);
          && s'.status == Returned && s'.ctx.signal == RESET
          && ChainOk(g, chain.next, 0, ContinuationSteps(maxSteps, s'.ctx.step)))
  }

  ghost function ChainCalls(g: Graph, chain: Chain, step: int, maxSteps: int): nat
    requires IsDefault(g)
    decreases chain
  {
    var s := Start(Fresh(step, maxSteps));
    MainCalls(g, s, chain.script)
    + if chain.Last? then 0
      else ChainCalls(g, chain.next, 0, ContinuationSteps(maxSteps, Run(g, s, chain.script).ctx.step))
  }

  /** The floor of one step for a continuation is never what decides. */
  ghost predicate FloorNeverBinds(g: Graph, chain: Chain, step: int, maxSteps: int)
    requires IsDefault(g)
    decreases chain
  {
    chain.Last? ||
    var left := maxSteps - Run(g, Start(Fresh(step, maxSteps)), chain.script).ctx.step;
    left >= 1 && FloorNeverBinds(g, chain.next, 0, left)
  }

  ghost function EndStep(g: Graph, script: seq<Effect>, step: int, maxSteps: int): int
    requires IsDefault(g)
  {
    Run(g, Start(Fresh(step, maxSteps)), script).ctx.step
  }

  lemma RunWithinBudget(g: Graph, script: seq<Effect>, step: int, maxSteps: int)
    requires IsDefault(g) && step <= maxSteps
    requires DefaultScript(g, Start(Fresh(step, maxSteps)), script)
    ensures var s := Start(Fresh(step, maxSteps));
            var s' := Run(g, s, script);
            && MainCalls(g, s, script) <= s'.ctx.step - step
            && s'.ctx.step <= maxSteps
            && (s'.status == Returned && s'.ctx.signal == RESET ==> s'.ctx.step < maxSteps)
  {
    CallsAreSteps(g, Start(Fresh(step, maxSteps)), script);
  }

  /**
   The step budget survives every chain of context resets: all main calls of a
   run and its continuations together stay within the steps it was given, and
   no continuation is granted a step that was not left.
   */
  lemma {:induction false} ChainWithinBudget(g: Graph, chain: Chain, step: int, maxSteps: int)
    requires IsDefault(g) && ChainOk(g, chain, step, maxSteps) && step <= maxSteps
    ensures ChainCalls(g, chain, step, maxSteps) <= maxSteps - step
    ensures FloorNeverBinds(g, chain, step, maxSteps)
    decreases chain
  {
    RunWithinBudget(g, chain.script, step, maxSteps);
    if chain.Reset? {
      var left := maxSteps - EndStep(g, chain.script, step, maxSteps);
      ChainWithinBudget(g, chain.next, 0, left);
    }
  }
}

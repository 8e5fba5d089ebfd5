/**
 Runs that never end: how to show that a script keeps the engine going, and a valid
 graph on which one does.
 */
module EndlessRuns {
  import opened Prelude
  import opened WorkflowGraph

  /** From a state that fits time k the script's k-th effect leads to one that fits the next. */
  ghost predicate GoesOn(g: Graph, script: nat -> Effect, at: (nat, Engine) -> bool, k: nat, r: Engine)
    requires Validated(g)
  {
    Ready(g, r) && at(k, r) ==> r.status == Running && at(k + 1, Tick(g, r, script(k)))
  }

  /** What one tick of the script keeps, every state of the run has. */
  lemma {:induction false} KeepsGoing(g: Graph, s: Engine, script: nat -> Effect, at: (nat, Engine) -> bool, n: nat)
    requires Validated(g) && Ready(g, s) && at(0, s)
    requires forall k, r :: GoesOn(g, script, at, k, r)
    ensures at(n, StateAt(g, s, script, n))
  {
    if n == 0 {
      assert Prefix(script, 0) == [];
    } else {
      KeepsGoing(g, s, script, at, n - 1);
      StateAtNext(g, s, script, n - 1);
      assert GoesOn(g, script, at, n - 1, StateAt(g, s, script, n - 1));
    }
  }

  // ------------------------------------------- a graph that never finishes

  const SKIPPING := Build(["route", "work", "end"], [Transition("route", "end", None)], ArrowKey)

  const SKIP_SCRIPT: nat -> Effect := i =>
    if i % 2 == 0 then Effect(JUMP, "end", 0, Reason("max_steps")) else Effect(CONTINUE, "", 0, Reason("max_steps"))

  ghost predicate AtRoute(s: Engine) {
    s.status == Running && s.idx == 0 && s.ctx.signal == CONTINUE && s.ctx.counters == map[] && s.ctx.step < s.ctx.maxSteps
  }

  lemma SkippingTables()
    ensures Validated(SKIPPING)
    ensures SKIPPING.index["route"] == 0 && SKIPPING.index["end"] == 2
    ensures SKIPPING.pairs[("route", "end")] == Transition("route", "end", None)
  {
    BuildTables(SKIPPING.names, SKIPPING.transitions, ArrowKey);
    var t := Transition("route", "end", None);
    assert SKIPPING.transitions == [t] && SKIPPING.names[0] == "route" && SKIPPING.names[2] == "end";
    forall u | u in SKIPPING.transitions ensures TransitionOk(SKIPPING, u) { assert u == t; }
  }

  /** Before every other node run at the first node, in between at the last, and no step taken. */
  predicate Skipping(n: nat, s: Engine) {
    && s.status == Running && s.ctx.signal == CONTINUE && s.ctx.counters == map[] && s.ctx.step < s.ctx.maxSteps
    && s.idx == if n % 2 == 0 then 0 else 2
  }

  lemma SkippingJumps(n: nat, s: Engine)
    requires Skipping(n, s) && n % 2 == 0 && Validated(SKIPPING)
    ensures Skipping(n + 1, Tick(SKIPPING, s, SKIP_SCRIPT(n)))
  {
    SkippingTables();
  }

  lemma SkippingWraps(n: nat, s: Engine)
    requires Skipping(n, s) && n % 2 == 1 && Validated(SKIPPING)
    ensures Skipping(n + 1, Tick(SKIPPING, s, SKIP_SCRIPT(n)))
  {
    assert |SKIPPING.names| == 3;
  }

  lemma SkippingGoesOn(n: nat, s: Engine)
    requires Skipping(n, s)
    ensures Validated(SKIPPING) && Skipping(n + 1, Tick(SKIPPING, s, SKIP_SCRIPT(n)))
  {
    SkippingTables();
    if n % 2 == 0 { SkippingJumps(n, s); } else { SkippingWraps(n, s); }
  }

  /** A validated graph with an unbounded forward jump over the only working node: it runs forever. */
  lemma SkippingRunsForever(s: Engine, n: nat)
    requires AtRoute(s)
    ensures Validated(SKIPPING) && Ready(SKIPPING, s)
    ensures Skipping(n, StateAt(SKIPPING, s, SKIP_SCRIPT, n)) && StateAt(SKIPPING, s, SKIP_SCRIPT, n).status == Running
  {
    SkippingTables();
    forall k, r ensures GoesOn(SKIPPING, SKIP_SCRIPT, Skipping, k, r) {
      if Skipping(k, r) { SkippingGoesOn(k, r); }
    }
    KeepsGoing(SKIPPING, s, SKIP_SCRIPT, Skipping, n);
  }

  lemma SkippingNeverHalts(s: Engine)
    requires AtRoute(s)
    ensures Validated(SKIPPING) && Ready(SKIPPING, s) && !Halts(SKIPPING, s, SKIP_SCRIPT)
  {
    SkippingTables();
    forall n: nat ensures StateAt(SKIPPING, s, SKIP_SCRIPT, n).status == Running {
      SkippingRunsForever(s, n);
    }
  }
}

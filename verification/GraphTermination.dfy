/**
 Which graphs finish: given the nodes that count steps, a condition on the declared
 graph alone decides whether every run of it ends.
 */
module GraphTermination {
  import opened WorkflowGraph
  import opened EndlessRuns

  /** A jump that no bound limits: an undeclared bound, hence a forward transition. */
  ghost predicate FreeJump(g: Graph, i: nat, target: string)
    requires Validated(g) && i < |g.names|
  {
    (g.names[i], target) in g.pairs && g.pairs[(g.names[i], target)].maxRounds.None?
  }

  /** From node i the run may come to node j next, as often as it likes. */
  ghost predicate Edge(g: Graph, i: nat, j: nat)
    requires Validated(g) && i < |g.names|
  {
    j == i + 1 || exists target :: FreeJump(g, i, target) && g.index[target] == j
  }

  ghost predicate FreeEdge(g: Graph, counts: set<nat>, i: nat, j: nat)
    requires Validated(g)
  {
    i < |g.names| && i !in counts && Edge(g, i, j)
  }

  /** Node i can be come to from the first node without running a node that counts steps. */
  ghost predicate FreeReach(g: Graph, counts: set<nat>, i: nat)
    requires Validated(g)
  {
    i == 0 || exists j: nat :: j < i && FreeReach(g, counts, j) && FreeEdge(g, counts, j, i)
  }

  /** Every node in counts takes at least one step, and no node takes one back. */
  ghost predicate Counts(counts: set<nat>, idx: nat, e: Effect) {
    e.bump >= if idx in counts then 1 else 0
  }

  ghost predicate Respects(g: Graph, s: Engine, script: nat -> Effect, counts: set<nat>)
    requires Validated(g) && Ready(g, s)
  {
    forall n {:trigger StateAt(g, s, script, n)} ::
      var r := StateAt(g, s, script, n); r.status == Running ==> Counts(counts, r.idx, script(n))
  }

  /** Whatever the nodes do, as long as those in counts count, every run from below the ceiling ends. */
  ghost predicate AlwaysFinishes(g: Graph, counts: set<nat>)
    requires Validated(g)
  {
    forall c: Ctx, script: nat -> Effect :: c.step < c.maxSteps && Respects(g, Start(c), script, counts) ==> Halts(g, Start(c), script)
  }

  lemma FreeJumpsGoForward(g: Graph, i: nat, target: string)
    requires Validated(g) && i < |g.names| && FreeJump(g, i, target)
    ensures target in g.index && i < g.index[target] < |g.names|
  {
    var t := g.pairs[(g.names[i], target)];
    assert TransitionOk(g, t) && i <= g.index[g.names[i]];
  }

  // ---------------------------------------------- without a free round, runs end

  /** A step-counting node has been run, or a bounded jump taken, since the last wrap-around. */
  ghost function Earned(g: Graph, counts: set<nat>, idx: nat): nat
    requires Validated(g)
  {
    if FreeReach(g, counts, idx) then 0 else 1
  }

  /** Rounds and steps left, plus what was already paid of them for the wrap-arounds so far. */
  ghost function Potential(g: Graph, counts: set<nat>, s: Engine): int
    requires Validated(g)
  {
    s.wraps + Remaining(g, s.ctx.counters) + s.ctx.maxSteps - s.ctx.step + Earned(g, counts, s.idx)
  }

  /** Coming to node j from node i: if it was free so far, it stays free or a step was counted. */
  lemma MoveKeepsEarned(g: Graph, counts: set<nat>, i: nat, j: nat, bump: int)
    requires Validated(g) && i < j && i < |g.names| && Edge(g, i, j) && bump >= if i in counts then 1 else 0
    ensures Earned(g, counts, j) <= Earned(g, counts, i) + bump
  {
    if FreeReach(g, counts, i) && i !in counts { assert FreeEdge(g, counts, i, j); }
  }

  ghost predicate WithinPotential(g: Graph, counts: set<nat>, s: Engine, most: int)
    requires Validated(g)
  {
    s.wraps <= most + 1 && (s.status == Running ==> s.wraps <= most && Potential(g, counts, s) <= most)
  }

  lemma JumpKeepsPotential(g: Graph, counts: set<nat>, s: Engine, e: Effect, most: int)
    requires Validated(g) && s.status == Running && Ready(g, s) && Counts(counts, s.idx, e)
    requires WithinPotential(g, counts, s, most) && e.Effect? && e.signal == JUMP
    ensures WithinPotential(g, counts, Tick(g, s, e), most)
  {
    var c := Apply(s.ctx, e);
    var pair := (g.names[s.idx], c.jumpTarget);
    if pair in g.pairs {
      var t := g.pairs[pair];
      if t.maxRounds.None? {
        FreeJumpsGoForward(g, s.idx, c.jumpTarget);
        assert FreeJump(g, s.idx, c.jumpTarget);
        MoveKeepsEarned(g, counts, s.idx, g.index[c.jumpTarget], e.bump);
      } else if CounterOf(g, t, c.counters) < t.maxRounds.value {
        BoundedJumpSpends(g, g.transitions, c.counters, t);
      }
    }
  }

  lemma WrapKeepsPotential(g: Graph, counts: set<nat>, s: Engine, e: Effect, most: int)
    requires Validated(g) && s.status == Running && Ready(g, s) && Counts(counts, s.idx, e)
    requires WithinPotential(g, counts, s, most) && e.Effect? && e.signal == CONTINUE && s.idx + 1 == |g.names|
    requires !FreeReach(g, counts, |g.names|)
    ensures WithinPotential(g, counts, Tick(g, s, e), most)
  {
    MoveKeepsEarned(g, counts, s.idx, |g.names|, e.bump);
    assert FreeReach(g, counts, 0);
  }

  lemma TickKeepsPotential(g: Graph, counts: set<nat>, s: Engine, e: Effect, most: int)
    requires Validated(g) && s.status == Running && Ready(g, s) && Counts(counts, s.idx, e)
    requires WithinPotential(g, counts, s, most) && !FreeReach(g, counts, |g.names|)
    ensures WithinPotential(g, counts, Tick(g, s, e), most)
  {
    if e.Raise? {
    } else if e.signal == JUMP {
      JumpKeepsPotential(g, counts, s, e, most);
    } else if e.signal == CONTINUE {
      if s.idx + 1 == |g.names| {
        WrapKeepsPotential(g, counts, s, e, most);
      } else {
        MoveKeepsEarned(g, counts, s.idx, s.idx + 1, e.bump);
      }
    }
  }

  lemma {:induction false} RunKeepsPotential(g: Graph, counts: set<nat>, s: Engine, script: nat -> Effect, n: nat, most: int)
    requires Validated(g) && Ready(g, s) && Respects(g, s, script, counts) && !FreeReach(g, counts, |g.names|)
    requires WithinPotential(g, counts, s, most)
    ensures WithinPotential(g, counts, StateAt(g, s, script, n), most)
  {
    if n == 0 {
      assert Prefix(script, 0) == [];
    } else {
      RunKeepsPotential(g, counts, s, script, n - 1, most);
      StateAtNext(g, s, script, n - 1);
      var r := StateAt(g, s, script, n - 1);
      if r.status == Running { TickKeepsPotential(g, counts, r, script(n - 1), most); }
    }
  }

  /** If every round meets a node that counts, every run ends. */
  lemma NoFreeRoundFinishes(g: Graph, counts: set<nat>, c: Ctx, script: nat -> Effect)
    requires Validated(g) && !FreeReach(g, counts, |g.names|) && c.step < c.maxSteps
    requires Respects(g, Start(c), script, counts)
    ensures Halts(g, Start(c), script)
  {
    var s := Start(c);
    assert FreeReach(g, counts, 0);
    var most := Potential(g, counts, s);
    forall n: nat ensures StateAt(g, s, script, n).wraps <= most + 1 {
      RunKeepsPotential(g, counts, s, script, n, most);
    }
    assert WrapsAtMost(g, s, script, most + 1);
    HaltsIffWrapsBounded(g, s, script);
  }

  // ------------------------------------------------- with one, some run never ends

  /** A free round: nodes from the first one on, each come to from the one before, none of which counts. */
  ghost predicate IsRoute(g: Graph, counts: set<nat>, route: seq<nat>, end: nat)
    requires Validated(g)
  {
    |route| > 0 && route[0] == 0 && forall k :: 0 <= k < |route| ==> StepsOn(g, counts, route, end, k)
  }

  function After(route: seq<nat>, end: nat, k: nat): nat {
    if k + 1 < |route| then route[k + 1] else end
  }

  ghost predicate StepsOn(g: Graph, counts: set<nat>, route: seq<nat>, end: nat, k: nat)
    requires Validated(g) && k < |route|
  {
    FreeEdge(g, counts, route[k], After(route, end, k))
  }

  lemma {:induction false} RouteTo(g: Graph, counts: set<nat>, end: nat) returns (route: seq<nat>)
    requires Validated(g) && FreeReach(g, counts, end) && end > 0
    ensures IsRoute(g, counts, route, end)
    decreases end
  {
    var j: nat :| j < end && FreeReach(g, counts, j) && FreeEdge(g, counts, j, end);
    if j == 0 {
      route := [0];
    } else {
      var before := RouteTo(g, counts, j);
      route := before + [j];
      forall k | 0 <= k < |route| ensures StepsOn(g, counts, route, end, k) {
        if k < |before| { assert StepsOn(g, counts, before, j, k); }
      }
    }
  }

  ghost function TargetTo(g: Graph, i: nat, j: nat): (target: string)
    requires Validated(g) && i < |g.names| && Edge(g, i, j) && j != i + 1
    ensures FreeJump(g, i, target) && g.index[target] == j
  {
    var target :| FreeJump(g, i, target) && g.index[target] == j; target
  }

  /** What a node does to come to node j next without counting a step. */
  ghost function GoTo(g: Graph, counts: set<nat>, i: nat, j: nat): Effect
    requires Validated(g) && FreeEdge(g, counts, i, j)
  {
    if j == i + 1 then Effect(CONTINUE, "", 0, Reason("")) else Effect(JUMP, TargetTo(g, i, j), 0, Reason(""))
  }

  predicate Circling(s: Engine, at: nat) {
    s.status == Running && s.idx == at && s.ctx.signal == CONTINUE && s.ctx.step < s.ctx.maxSteps
  }

  lemma CirclingGoesOn(g: Graph, counts: set<nat>, s: Engine, i: nat, j: nat)
    requires Validated(g) && FreeEdge(g, counts, i, j) && Circling(s, i)
    ensures Circling(Tick(g, s, GoTo(g, counts, i, j)), if j == |g.names| then 0 else j)
  {
    if j != i + 1 {
      FreeJumpsGoForward(g, i, TargetTo(g, i, j));
    }
  }

  /** Where on a route of m nodes a run that circles it is after n node runs. */
  function Position(n: nat, m: nat): (k: nat)
    requires m > 0
    ensures k < m
  {
    if n == 0 || Position(n - 1, m) + 1 == m then 0 else Position(n - 1, m) + 1
  }

  /** Round and round the route. */
  ghost function Circle(g: Graph, counts: set<nat>, route: seq<nat>): nat -> Effect
    requires Validated(g) && IsRoute(g, counts, route, |g.names|)
  {
    (n: nat) =>
      var k := Position(n, |route|);
      assert StepsOn(g, counts, route, |g.names|, k);
      GoTo(g, counts, route[k], After(route, |g.names|, k))
  }

  lemma CirclesOn(g: Graph, counts: set<nat>, route: seq<nat>, r: Engine, n: nat, e: Effect)
    requires Validated(g) && IsRoute(g, counts, route, |g.names|) && Circling(r, route[Position(n, |route|)]) && Ready(g, r)
    requires e == Circle(g, counts, route)(n)
    ensures Circling(Tick(g, r, e), route[Position(n + 1, |route|)])
  {
    var k := Position(n, |route|);
    assert StepsOn(g, counts, route, |g.names|, k);
    CirclingGoesOn(g, counts, r, route[k], After(route, |g.names|, k));
    if k + 1 < |route| { assert StepsOn(g, counts, route, |g.names|, k + 1); }
  }

  lemma CirclesForever(g: Graph, counts: set<nat>, route: seq<nat>, s: Engine, script: nat -> Effect, n: nat)
    requires Validated(g) && IsRoute(g, counts, route, |g.names|) && Circling(s, 0) && Ready(g, s)
    requires script == Circle(g, counts, route)
    ensures Circling(StateAt(g, s, script, n), route[Position(n, |route|)])
  {
    var at := (k: nat, r: Engine) => Circling(r, route[Position(k, |route|)]);
    forall k, r ensures GoesOn(g, script, at, k, r) {
      if Ready(g, r) && at(k, r) { CirclesOn(g, counts, route, r, k, script(k)); }
    }
    KeepsGoing(g, s, script, at, n);
  }

  lemma FreeRoundNeverFinishes(g: Graph, counts: set<nat>)
    requires Validated(g) && FreeReach(g, counts, |g.names|)
    ensures !AlwaysFinishes(g, counts)
  {
    var route := RouteTo(g, counts, |g.names|);
    var c := Ctx(CONTINUE, "", 0, 1, Reason(""), map[], []);
    var s, script := Start(c), Circle(g, counts, route);
    forall n: nat
      ensures StateAt(g, s, script, n).status == Running && Counts(counts, StateAt(g, s, script, n).idx, script(n))
    {
      CirclesForever(g, counts, route, s, script, n);
      assert StepsOn(g, counts, route, |g.names|, Position(n, |route|));
    }
    assert Respects(g, s, script, counts) && !Halts(g, s, script);
  }

  /**
   The exact condition for termination, to be read off the declared graph: whatever the
   nodes do, as long as those in counts count steps, every run that starts below the
   ceiling ends, if and only if every way from the first node past the last one, along the
   step order and unbounded jumps, runs a node that counts. Bounded loops never matter.
   */
  lemma FinishesIff(g: Graph, counts: set<nat>)
    requires Validated(g)
    ensures AlwaysFinishes(g, counts) <==> !FreeReach(g, counts, |g.names|)
  {
    if FreeReach(g, counts, |g.names|) {
      FreeRoundNeverFinishes(g, counts);
    } else {
      forall c: Ctx, script: nat -> Effect | c.step < c.maxSteps && Respects(g, Start(c), script, counts) ensures Halts(g, Start(c), script) {
        NoFreeRoundFinishes(g, counts, c, script);
      }
    }
  }
}

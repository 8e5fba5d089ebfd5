/**
 The workflow-graph engine as a machine over node runs: what one node run and
 the engine's answer to its signal do to the run, and what every run keeps.
 A run is driven by a script of node effects, so a theorem about all scripts
 is a theorem about all node behaviours, stopped or killed anywhere.
 */
module WorkflowGraph {
  import opened Prelude
  import opened Multiples

  datatype Transition = Transition(source: string, target: string, maxRounds: Option<int>)

  /**
   Node names in step order, the declared transitions, how a pair names its
   counter, and the two lookup tables the engine builds from them.
   */
  datatype Graph = Graph(
    names: seq<string>, transitions: seq<Transition>, key: (string, string) -> string,
    index: map<string, nat>, pairs: map<(string, string), Transition>)

  function Build(names: seq<string>, transitions: seq<Transition>, key: (string, string) -> string): Graph {
    Graph(names, transitions, key, IndexByName(names), ByPair(transitions))
  }

  /** The engine's counter name; two pairs can share it when a name contains the arrow. */
  function ArrowKey(source: string, target: string): string { source + "->" + target }

  datatype StopReason = Reason(text: string) | LoopBound(source: string, target: string)

  datatype Signal = CONTINUE | STOP | RESET | JUMP

  datatype Fault = LlmFailure | MissingJumpTarget | OtherFault

  /** What running one node does to the run context. */
  datatype Effect =
    | Effect(signal: Signal, jumpTarget: string, bump: int, stopReason: StopReason)
    | Raise(fault: Fault, bump: int)

  datatype Outcome = JumpTaken | BoundExhausted

  datatype TransitionRow = TransitionRow(source: string, target: string, round: int, outcome: Outcome, step: int)

  datatype Ctx = Ctx(
    signal: Signal, jumpTarget: string, step: int, maxSteps: int, stopReason: StopReason,
    counters: map<string, int>, log: seq<TransitionRow>)

  datatype Status = Running | Returned | UndeclaredTransition | NodeRaised(fault: Fault)

  /**
   The engine between node runs: the next node, where the current pass was
   entered, how many nodes ran and passes completed, and the last checkpoint.
   */
  datatype Engine = Engine(
    ctx: Ctx, idx: nat, entry: nat, status: Status,
    ran: nat, wraps: nat, saved: Option<Ctx>)

  // ---------------------------------------------------------------- the graph

  /** Later nodes of the same name win, as in the name index of the engine. */
  function IndexByName(names: seq<string>): (r: map<string, nat>)
    ensures forall n :: n in r <==> n in names
    ensures forall n :: n in r ==> r[n] < |names| && names[r[n]] == n
    ensures forall i :: 0 <= i < |names| ==> i <= r[names[i]]
  {
    if names == [] then map[] else
      var n := |names| - 1;
      IndexByName(names[..n])[names[n] := n]
  }

  /** Later declarations of the same pair win. */
  function ByPair(ts: seq<Transition>): (r: map<(string, string), Transition>)
    ensures forall p :: p in r ==> r[p] in ts && p == (r[p].source, r[p].target)
    ensures forall t :: t in ts ==> (t.source, t.target) in r
  {
    if ts == [] then map[] else
      var n := |ts| - 1;
      ByPair(ts[..n])[(ts[n].source, ts[n].target) := ts[n]]
  }

  /** The last declaration of a pair. */
  ghost predicate LastOfPair(ts: seq<Transition>, k: int) {
    0 <= k < |ts| && forall j :: k < j < |ts| ==> !(ts[j].source == ts[k].source && ts[j].target == ts[k].target)
  }

  lemma {:induction false} LastDeclarationWins(ts: seq<Transition>, k: int)
    requires LastOfPair(ts, k)
    ensures (ts[k].source, ts[k].target) in ByPair(ts) && ByPair(ts)[(ts[k].source, ts[k].target)] == ts[k]
  {
    var n := |ts| - 1;
    if k < n { LastDeclarationWins(ts[..n], k); }
  }

  predicate Truthy(bound: Option<int>) { bound.Some? && bound.value != 0 }

  predicate Declared(g: Graph, t: Transition) { t.source in g.index && t.target in g.index }

  predicate IsBackward(g: Graph, t: Transition)
    requires Declared(g, t)
  {
    g.index[t.target] <= g.index[t.source]
  }

  predicate TransitionOk(g: Graph, t: Transition) {
    Declared(g, t) && (IsBackward(g, t) ==> Truthy(t.maxRounds))
  }

  /** The names are declared, and a transition with no bound, or bound zero, only goes forward: past every node of its source's name. */
  ghost predicate Sensible(names: seq<string>, t: Transition) {
    && t.source in names && t.target in names
    && (t.maxRounds == None || t.maxRounds == Some(0) ==> GoesForward(names, t))
  }

  ghost predicate GoesForward(names: seq<string>, t: Transition) {
    exists j :: 0 <= j < |names| && names[j] == t.target && forall i :: 0 <= i < |names| && names[i] == t.source ==> i < j
  }

  lemma ForwardIff(names: seq<string>, t: Transition)
    requires t.source in names && t.target in names
    ensures GoesForward(names, t) <==> IndexByName(names)[t.source] < IndexByName(names)[t.target]
  {
    var index := IndexByName(names);
    assert names[index[t.source]] == t.source && names[index[t.target]] == t.target;
    if GoesForward(names, t) {
      var j :| 0 <= j < |names| && names[j] == t.target && forall i :: 0 <= i < |names| && names[i] == t.source ==> i < j;
      assert index[t.source] < j <= index[names[j]];
    }
  }

  /** What the engine checks of a transition, read off the declared names. */
  lemma TransitionOkIff(names: seq<string>, ts: seq<Transition>, key: (string, string) -> string, t: Transition)
    ensures TransitionOk(Build(names, ts, key), t) <==> Sensible(names, t)
  {
    if t.source in names && t.target in names { ForwardIff(names, t); }
  }

  ghost predicate IndexOk(g: Graph) {
    && (forall n :: n in g.index ==> g.index[n] < |g.names| && g.names[g.index[n]] == n)
    && (forall i :: 0 <= i < |g.names| ==> g.names[i] in g.index && i <= g.index[g.names[i]])
  }

  ghost predicate PairsOk(g: Graph) {
    && (forall p :: p in g.pairs ==> g.pairs[p] in g.transitions && p == (g.pairs[p].source, g.pairs[p].target))
    && (forall t :: t in g.transitions ==> (t.source, t.target) in g.pairs)
  }

  /** What construction guarantees. */
  ghost predicate Validated(g: Graph) {
    && |g.names| > 0 && IndexOk(g) && PairsOk(g)
    && forall t :: t in g.transitions ==> TransitionOk(g, t)
  }

  function Counter(counters: map<string, int>, key: string): int {
    if key in counters then counters[key] else 0
  }

  // -------------------------------------------------------------- one node run

  function Apply(c: Ctx, e: Effect): Ctx {
    match e
    case Effect(signal, jumpTarget, bump, stopReason) =>
      c.(signal := signal, jumpTarget := jumpTarget, step := c.step + bump, stopReason := stopReason)
    case Raise(_, bump) => c.(step := c.step + bump)
  }

  /** The engine's answer to a JUMP: the context after it and the next index, or nothing if undeclared. */
  ghost function ResolveJump(g: Graph, c: Ctx, source: string): Option<(Ctx, nat)>
    requires Validated(g) && source in g.index
  {
    var pair := (source, c.jumpTarget);
    if pair !in g.pairs then None else
      var t := g.pairs[pair];
      var key := g.key(source, c.jumpTarget);
      var current := Counter(c.counters, key);
      if t.maxRounds.Some? && current >= t.maxRounds.value then
        Some((c.(stopReason := LoopBound(source, c.jumpTarget), signal := STOP,
                 log := c.log + [TransitionRow(source, c.jumpTarget, current, BoundExhausted, c.step)]),
              g.index[source]))
      else
        var round := if t.maxRounds.Some? then current + 1 else 0;
        Some((c.(counters := if t.maxRounds.Some? then c.counters[key := round] else c.counters,
                 log := c.log + [TransitionRow(source, c.jumpTarget, round, JumpTaken, c.step)],
                 signal := CONTINUE, jumpTarget := ""),
              g.index[c.jumpTarget]))
  }

  /** The loop head: run on from idx while steps are left and nothing stopped the run. */
  function Resume(s: Engine, c: Ctx, idx: nat): Engine {
    s.(ctx := c, idx := idx, entry := idx,
       status := if c.step < c.maxSteps && c.signal == CONTINUE then Running else Returned)
  }

  /** A pass ended at node idx (or ran off the end): jump, return, or checkpoint and go round. */
  ghost function Settle(g: Graph, s: Engine, c: Ctx, idx: nat): Engine
    requires Validated(g) && (c.signal == JUMP ==> idx < |g.names|)
  {
    match c.signal
    case JUMP =>
      var jump := ResolveJump(g, c, g.names[idx]);
      if jump.None? then s.(ctx := c, status := UndeclaredTransition)
      else Resume(s, jump.value.0, jump.value.1)
    case RESET => s.(ctx := c, status := Returned)
    case STOP => s.(ctx := c, status := Returned, saved := Some(c))
    case CONTINUE => Resume(s.(wraps := s.wraps + 1, saved := Some(c)), c, 0)
  }

  predicate Ready(g: Graph, s: Engine) { s.status == Running ==> s.idx < |g.names| && s.ctx.signal == CONTINUE }

  /** One node run and everything the engine does before the next one. */
  ghost function Tick(g: Graph, s: Engine, e: Effect): (r: Engine)
    requires Validated(g) && s.status == Running && Ready(g, s)
    ensures Ready(g, r)
  {
    var c := Apply(s.ctx, e);
    var s1 := s.(ran := s.ran + 1);
    if e.Raise? then s1.(ctx := c, status := NodeRaised(e.fault))
    else if c.signal == CONTINUE && s.idx + 1 < |g.names| then s1.(ctx := c, idx := s.idx + 1)
    else Settle(g, s1, c, s.idx)
  }

  ghost function Run(g: Graph, s: Engine, script: seq<Effect>): (r: Engine)
    requires Validated(g) && Ready(g, s)
    ensures Ready(g, r)
    decreases |script|
  {
    if script == [] || s.status != Running then s else Run(g, Tick(g, s, script[0]), script[1..])
  }

  function Start(c: Ctx): Engine {
    var c0 := c.(signal := CONTINUE);
    Engine(c0, 0, 0, if c.step < c.maxSteps then Running else Returned, 0, 0, None)
  }

  lemma {:induction false} RunSnoc(g: Graph, s: Engine, script: seq<Effect>, e: Effect)
    requires Validated(g) && Ready(g, s)
    ensures var r := Run(g, s, script);
            Run(g, s, script + [e]) == if r.status == Running then Tick(g, r, e) else r
    decreases |script|
  {
    if script != [] && s.status == Running {
      assert (script + [e])[1..] == script[1..] + [e];
      RunSnoc(g, Tick(g, s, script[0]), script[1..], e);
    }
  }

  // --------------------------------------------------------- jumps are bounded

  function CounterOf(g: Graph, t: Transition, counters: map<string, int>): int {
    Counter(counters, g.key(t.source, t.target))
  }

  function Slack(g: Graph, t: Transition, counters: map<string, int>): nat {
    if t.maxRounds.None? then 0 else
      var left := t.maxRounds.value - CounterOf(g, t, counters);
      if left < 0 then 0 else left
  }

  /** The rounds left over all declared transitions. */
  function RemainingIn(g: Graph, ts: seq<Transition>, counters: map<string, int>): nat {
    if ts == [] then 0 else Slack(g, ts[0], counters) + RemainingIn(g, ts[1..], counters)
  }

  function Remaining(g: Graph, counters: map<string, int>): nat { RemainingIn(g, g.transitions, counters) }

  /** Taking a bounded transition uses up a round of it, and gives none back to any other. */
  lemma {:induction false} BoundedJumpSpends(g: Graph, ts: seq<Transition>, counters: map<string, int>, t: Transition)
    requires t.maxRounds.Some? && CounterOf(g, t, counters) < t.maxRounds.value
    ensures var after := counters[g.key(t.source, t.target) := CounterOf(g, t, counters) + 1];
            && RemainingIn(g, ts, after) <= RemainingIn(g, ts, counters)
            && (t in ts ==> RemainingIn(g, ts, after) < RemainingIn(g, ts, counters))
  {
    if ts != [] { BoundedJumpSpends(g, ts[1..], counters, t); }
  }

  /** Nodes still affordable before the run returns or goes round. */
  ghost function Budget(g: Graph, s: Engine): int {
    |g.names| * Remaining(g, s.ctx.counters) + |g.names| - s.idx
  }

  /** A jump taken from node idx lands further on, or spends a round. */
  lemma JumpSpends(g: Graph, c: Ctx, idx: nat)
    requires Validated(g) && idx < |g.names|
    ensures var jump := ResolveJump(g, c, g.names[idx]);
            jump.Some? && jump.value.0.signal == CONTINUE ==>
              |g.names| * Remaining(g, jump.value.0.counters) + |g.names| - jump.value.1 + 1
              <= |g.names| * Remaining(g, c.counters) + |g.names| - idx
  {
    var pair := (g.names[idx], c.jumpTarget);
    if pair in g.pairs {
      var t := g.pairs[pair];
      assert TransitionOk(g, t) && idx <= g.index[t.source];
      if t.maxRounds.Some? && CounterOf(g, t, c.counters) < t.maxRounds.value {
        BoundedJumpSpends(g, g.transitions, c.counters, t);
        var after := ResolveJump(g, c, g.names[idx]).value.0.counters;
        MulNext(|g.names|, Remaining(g, after));
        MulAtMost(|g.names|, Remaining(g, after) + 1, Remaining(g, c.counters));
      }
    }
  }

  lemma JumpSettles(g: Graph, s: Engine, c: Ctx, idx: nat)
    requires Validated(g) && idx < |g.names| && c.signal == JUMP
    requires s.idx == idx && c.counters == s.ctx.counters
    ensures var s' := Settle(g, s, c, idx);
            && s'.ran == s.ran && s'.wraps == s.wraps
            && (s'.status == Running ==> Budget(g, s') + 1 <= Budget(g, s))
  {
    JumpSpends(g, c, idx);
  }

  lemma WrapSettles(g: Graph, s: Engine, c: Ctx, idx: nat)
    requires Validated(g) && idx + 1 == |g.names| && c.signal == CONTINUE
    requires s.idx == idx && c.counters == s.ctx.counters
    ensures var s' := Settle(g, s, c, idx);
            && s'.ran == s.ran && s'.wraps == s.wraps + 1
            && (s'.status == Running ==> Budget(g, s') + 1 <= Budget(g, s) + |g.names|)
  {
  }

  lemma SettleSpends(g: Graph, s: Engine, c: Ctx, idx: nat)
    requires Validated(g) && idx < |g.names| && (c.signal == CONTINUE ==> idx + 1 == |g.names| && c.counters == s.ctx.counters)
    requires s.idx == idx && c.counters == s.ctx.counters
    ensures var s' := Settle(g, s, c, idx);
            && s'.ran == s.ran && s'.wraps >= s.wraps
            && (s'.status == Running ==> Budget(g, s') + 1 <= Budget(g, s) + |g.names| * (s'.wraps - s.wraps))
  {
    TimesOneOrNone(|g.names|);
    match c.signal
    case JUMP => JumpSettles(g, s, c, idx);
    case CONTINUE => WrapSettles(g, s, c, idx);
    case RESET =>
    case STOP =>
  }

  /** The measure: every node run spends some of the budget; going round buys N more. */
  lemma TickSpends(g: Graph, s: Engine, e: Effect)
    requires Validated(g) && s.status == Running && Ready(g, s)
    ensures var s' := Tick(g, s, e);
            && s'.ran == s.ran + 1
            && s'.wraps >= s.wraps
            && (s'.status == Running ==>
                  Budget(g, s') + 1 <= Budget(g, s) + |g.names| * (s'.wraps - s.wraps))
  {
    var c := Apply(s.ctx, e);
    var s1 := s.(ran := s.ran + 1);
    if e.Raise? {
    } else if c.signal == CONTINUE && s.idx + 1 < |g.names| {
    } else {
      SettleSpends(g, s1, c, s.idx);
    }
  }

  /**
   Jump termination. Whatever the nodes do, a run of N nodes with R rounds
   left executes at most N * (1 + R) nodes between two wrap-arounds, and at
   most N * (1 + R + W) nodes over W wrap-arounds; also with duplicate node
   names or transitions that share a counter.
   */
  lemma {:induction false} NodeRunsBounded(g: Graph, s: Engine, script: seq<Effect>)
    requires Validated(g) && Ready(g, s)
    ensures var s' := Run(g, s, script);
            && s'.wraps >= s.wraps
            && (s.status == Running ==> s'.ran - s.ran <= Budget(g, s) + |g.names| * (s'.wraps - s.wraps))
            && (s.status == Running && s'.status == Running ==>
                  s'.ran - s.ran + Budget(g, s') <= Budget(g, s) + |g.names| * (s'.wraps - s.wraps))
    decreases |script|
  {
    if script != [] && s.status == Running {
      var s1 := Tick(g, s, script[0]);
      TickSpends(g, s, script[0]);
      NodeRunsBounded(g, s1, script[1..]);
      var s' := Run(g, s, script);
      BudgetIsPositive(g, s);
      MulSplit(|g.names|, s.wraps, s1.wraps, s'.wraps);
    } else if s.status == Running {
      BudgetIsPositive(g, s);
    }
  }

  lemma BudgetIsPositive(g: Graph, s: Engine)
    requires Validated(g) && s.status == Running && Ready(g, s)
    ensures Budget(g, s) >= 1
  {
    assert |g.names| * Remaining(g, s.ctx.counters) >= 0;
  }

  // ------------------------------------------------------- when a run finishes

  function Prefix(script: nat -> Effect, n: nat): seq<Effect> { seq(n, i requires 0 <= i < n => script(i)) }

  ghost function StateAt(g: Graph, s: Engine, script: nat -> Effect, n: nat): (r: Engine)
    requires Validated(g) && Ready(g, s)
    ensures Ready(g, r)
  {
    Run(g, s, Prefix(script, n))
  }

  lemma StateAtNext(g: Graph, s: Engine, script: nat -> Effect, n: nat)
    requires Validated(g) && Ready(g, s)
    ensures var r := StateAt(g, s, script, n);
            StateAt(g, s, script, n + 1) == if r.status == Running then Tick(g, r, script(n)) else r
  {
    assert Prefix(script, n + 1) == Prefix(script, n) + [script(n)];
    RunSnoc(g, s, Prefix(script, n), script(n));
  }

  lemma {:induction false} RunningMeansAllRan(g: Graph, s: Engine, script: nat -> Effect, n: nat)
    requires Validated(g) && Ready(g, s)
    ensures StateAt(g, s, script, n).status == Running ==> StateAt(g, s, script, n).ran == s.ran + n
  {
    if n > 0 {
      RunningMeansAllRan(g, s, script, n - 1);
      StateAtNext(g, s, script, n - 1);
    }
  }

  lemma {:induction false} HaltedStays(g: Graph, s: Engine, script: nat -> Effect, m: nat, n: nat)
    requires Validated(g) && Ready(g, s) && m <= n && StateAt(g, s, script, m).status != Running
    ensures StateAt(g, s, script, n) == StateAt(g, s, script, m)
  {
    if m < n {
      HaltedStays(g, s, script, m, n - 1);
      StateAtNext(g, s, script, n - 1);
    }
  }

  lemma {:induction false} WrapsGrow(g: Graph, s: Engine, script: nat -> Effect, m: nat, n: nat)
    requires Validated(g) && Ready(g, s) && m <= n
    ensures StateAt(g, s, script, m).wraps <= StateAt(g, s, script, n).wraps
  {
    if m < n {
      WrapsGrow(g, s, script, m, n - 1);
      StateAtNext(g, s, script, n - 1);
      var r := StateAt(g, s, script, n - 1);
      if r.status == Running { TickSpends(g, r, script(n - 1)); }
    }
  }

  ghost predicate Halts(g: Graph, s: Engine, script: nat -> Effect)
    requires Validated(g) && Ready(g, s)
  {
    exists n :: StateAt(g, s, script, n).status != Running
  }

  ghost predicate WrapsAtMost(g: Graph, s: Engine, script: nat -> Effect, w: nat)
    requires Validated(g) && Ready(g, s)
  {
    forall n :: StateAt(g, s, script, n).wraps <= w
  }

  /**
   The engine's loops are bounded, its outer loop is not: a run finishes if
   and only if it goes round finitely often.
   */
  lemma HaltsIffWrapsBounded(g: Graph, s: Engine, script: nat -> Effect)
    requires Validated(g) && Ready(g, s)
    ensures Halts(g, s, script) <==> exists w :: WrapsAtMost(g, s, script, w)
  {
    if Halts(g, s, script) {
      var n :| StateAt(g, s, script, n).status != Running;
      forall m: nat ensures StateAt(g, s, script, m).wraps <= StateAt(g, s, script, n).wraps {
        if m <= n { WrapsGrow(g, s, script, m, n); } else { HaltedStays(g, s, script, n, m); }
      }
      assert WrapsAtMost(g, s, script, StateAt(g, s, script, n).wraps);
    }
    if exists w :: WrapsAtMost(g, s, script, w) {
      var w :| WrapsAtMost(g, s, script, w);
      assert StateAt(g, s, script, 0) == s;
      if s.status == Running {
        BudgetIsPositive(g, s);
        var n := Budget(g, s) + |g.names| * w + 1;
        BoundedWrapsHalt(g, s, script, w, n);
      }
    }
  }

  lemma BoundedWrapsHalt(g: Graph, s: Engine, script: nat -> Effect, w: nat, n: nat)
    requires Validated(g) && Ready(g, s) && s.status == Running && WrapsAtMost(g, s, script, w)
    requires n > Budget(g, s) + |g.names| * w
    ensures StateAt(g, s, script, n).status != Running
  {
    RunningMeansAllRan(g, s, script, n);
    NodeRunsBounded(g, s, Prefix(script, n));
    var s' := StateAt(g, s, script, n);
    MulAtMost(|g.names|, s'.wraps - s.wraps, w);
  }

  lemma BuildTables(names: seq<string>, ts: seq<Transition>, key: (string, string) -> string)
    ensures IndexOk(Build(names, ts, key)) && PairsOk(Build(names, ts, key))
  {
  }
}

/**
 What a run writes down and where it goes, node run by node run: the checkpoint is the
 context at the last completed pass, and a jump lands on the node it names.
 */
module PassBoundaries {
  import opened Prelude
  import opened WorkflowGraph

  /** The engine after the first n node runs of the script. */
  ghost function At(g: Graph, c: Ctx, script: seq<Effect>, n: nat): (s: Engine)
    requires Validated(g) && n <= |script|
    ensures Ready(g, s)
  {
    Run(g, Start(c), script[..n])
  }

  lemma AtNext(g: Graph, c: Ctx, script: seq<Effect>, n: nat)
    requires Validated(g) && n < |script|
    ensures var s := At(g, c, script, n);
            At(g, c, script, n + 1) == if s.status == Running then Tick(g, s, script[n]) else s
  {
    assert script[..n + 1] == script[..n] + [script[n]];
    RunSnoc(g, Start(c), script[..n], script[n]);
  }

  /** A run begins at the first node, with nothing saved, if a step is left. */
  lemma RunBegins(g: Graph, c: Ctx, script: seq<Effect>)
    requires Validated(g)
    ensures var s := At(g, c, script, 0);
            && s.ctx == c.(signal := CONTINUE) && s.idx == 0 && s.saved.None? && s.wraps == 0
            && s.status == if c.step < c.maxSteps then Running else Returned
  {
  }

  /** The n-th node run happens and the node does not raise. */
  ghost predicate Completes(g: Graph, c: Ctx, script: seq<Effect>, n: nat)
    requires Validated(g)
  {
    n < |script| && At(g, c, script, n).status == Running && script[n].Effect?
  }

  /** The context as the n-th node run leaves it. */
  ghost function LeftBy(g: Graph, c: Ctx, script: seq<Effect>, n: nat): Ctx
    requires Validated(g) && Completes(g, c, script, n)
  {
    var was, e := At(g, c, script, n).ctx, script[n];
    Ctx(e.signal, e.jumpTarget, was.step + e.bump, was.maxSteps, e.stopReason, was.counters, was.log)
  }

  /** The n-th node run completes a pass: the last node goes on, or some node stops. */
  ghost predicate Boundary(g: Graph, c: Ctx, script: seq<Effect>, n: nat)
    requires Validated(g)
  {
    && Completes(g, c, script, n)
    && (script[n].signal == STOP || (script[n].signal == CONTINUE && At(g, c, script, n).idx + 1 == |g.names|))
  }

  ghost predicate LastBoundary(g: Graph, c: Ctx, script: seq<Effect>, n: nat, k: nat)
    requires Validated(g)
  {
    k < n && Boundary(g, c, script, k) && forall m :: k < m < n ==> !Boundary(g, c, script, m)
  }

  /** One node run saves what it leaves if it completes a pass, and nothing otherwise. */
  lemma SavesAtBoundary(g: Graph, c: Ctx, script: seq<Effect>, n: nat)
    requires Validated(g) && n < |script|
    ensures At(g, c, script, n + 1).saved ==
            if Boundary(g, c, script, n) then Some(LeftBy(g, c, script, n)) else At(g, c, script, n).saved
    ensures At(g, c, script, n + 1).wraps == At(g, c, script, n).wraps +
            if Boundary(g, c, script, n) && script[n].signal == CONTINUE then 1 else 0
    ensures Completes(g, c, script, n) && script[n].signal == STOP ==>
              At(g, c, script, n + 1).status == Returned && At(g, c, script, n + 1).ctx == LeftBy(g, c, script, n)
  {
    AtNext(g, c, script, n);
  }

  /**
   The checkpoint, over every run: it is the context at the last completed pass, and there is
   none exactly while no pass has been completed. Jumps, exhausted bounds, resets and raises
   leave it alone; a run that has gone round has one; a run that a node stopped has
   checkpointed the very context it ended in.
   */
  lemma {:induction false} SavedIsLastBoundary(g: Graph, c: Ctx, script: seq<Effect>, n: nat)
    requires Validated(g) && n <= |script|
    ensures var s := At(g, c, script, n);
            && (s.saved.None? <==> forall k :: 0 <= k < n ==> !Boundary(g, c, script, k))
            && (forall k: nat :: LastBoundary(g, c, script, n, k) ==> s.saved == Some(LeftBy(g, c, script, k)))
            && (s.wraps > 0 ==> s.saved.Some?)
            && (forall k :: 0 <= k < n && Completes(g, c, script, k) && script[k].signal == STOP ==>
                  s.status == Returned && s.saved == Some(s.ctx))
  {
    if n > 0 {
      SavedIsLastBoundary(g, c, script, n - 1);
      SavesAtBoundary(g, c, script, n - 1);
      AtNext(g, c, script, n - 1);
      forall k: nat | LastBoundary(g, c, script, n, k) && k < n - 1 ensures LastBoundary(g, c, script, n - 1, k) {
        assert !Boundary(g, c, script, n - 1);
      }
    }
  }

  // -------------------------------------------------------------------- jumps

  /** The n-th node run asks for a jump. */
  ghost predicate Jumps(g: Graph, c: Ctx, script: seq<Effect>, n: nat)
    requires Validated(g)
  {
    Completes(g, c, script, n) && script[n].signal == JUMP
  }

  ghost predicate DeclaredJump(g: Graph, source: string, target: string, t: Transition) {
    && (source, target) in g.pairs && g.pairs[(source, target)] == t
    && t in g.transitions && t.source == source && t.target == target
  }

  /** A jump that no transition declares ends the run with an error and changes nothing else. */
  lemma UndeclaredJumpFails(g: Graph, c: Ctx, script: seq<Effect>, n: nat)
    requires Validated(g) && Jumps(g, c, script, n)
    ensures var s, s' := At(g, c, script, n), At(g, c, script, n + 1);
            && s'.saved == s.saved
            && (s'.status == UndeclaredTransition <==>
                  forall t :: t in g.transitions ==> !(t.source == g.names[s.idx] && t.target == script[n].jumpTarget))
            && (s'.status == UndeclaredTransition ==> s'.ctx == LeftBy(g, c, script, n))
  {
    AtNext(g, c, script, n);
  }

  /** The bound of the pair is used up: its counter stands at it. */
  ghost predicate UsedUp(g: Graph, c: Ctx, t: Transition) {
    t.maxRounds.Some? && Counter(c.counters, g.key(t.source, t.target)) >= t.maxRounds.value
  }

  /** A declared jump whose bound is used up stops the run, for that reason, and moves no counter. */
  lemma UsedUpJumpStops(g: Graph, c: Ctx, script: seq<Effect>, n: nat, t: Transition)
    requires Validated(g) && Jumps(g, c, script, n)
    requires DeclaredJump(g, g.names[At(g, c, script, n).idx], script[n].jumpTarget, t) && UsedUp(g, At(g, c, script, n).ctx, t)
    ensures var s, s', left := At(g, c, script, n), At(g, c, script, n + 1), LeftBy(g, c, script, n);
            && s'.status == Returned && s'.saved == s.saved && s'.wraps == s.wraps
            && s'.ctx == left.(signal := STOP, stopReason := LoopBound(t.source, t.target),
                               log := left.log + [TransitionRow(t.source, t.target, Counter(left.counters, g.key(t.source, t.target)), BoundExhausted, left.step)])
  {
    AtNext(g, c, script, n);
  }

  /** What a jump that is taken leaves: one more round of its pair, one more row, and the signal reset. */
  ghost predicate JumpedFrom(g: Graph, left: Ctx, after: Ctx, t: Transition) {
    var key := g.key(t.source, t.target);
    && (forall k :: Counter(after.counters, k) == Counter(left.counters, k) + if t.maxRounds.Some? && k == key then 1 else 0)
    && |after.log| == |left.log| + 1 && left.log <= after.log
    && after.log[|left.log|] ==
         TransitionRow(t.source, t.target, if t.maxRounds.Some? then Counter(after.counters, key) else 0, JumpTaken, left.step)
    && after.signal == CONTINUE && after.jumpTarget == ""
    && after.step == left.step && after.maxSteps == left.maxSteps && after.stopReason == left.stopReason
  }

  /**
   A jump that is taken lands on the last node of the name it gives, which runs next if a
   step is left; it counts one round of its own pair if that is bounded and no other.
   */
  lemma JumpLands(g: Graph, c: Ctx, script: seq<Effect>, n: nat, t: Transition)
    requires Validated(g) && Jumps(g, c, script, n)
    requires DeclaredJump(g, g.names[At(g, c, script, n).idx], script[n].jumpTarget, t) && !UsedUp(g, At(g, c, script, n).ctx, t)
    ensures var s, s' := At(g, c, script, n), At(g, c, script, n + 1);
            && JumpedFrom(g, LeftBy(g, c, script, n), s'.ctx, t)
            && s'.saved == s.saved && s'.wraps == s.wraps
            && s'.status == (if s'.ctx.step < s'.ctx.maxSteps then Running else Returned)
            && s'.idx < |g.names| && g.names[s'.idx] == script[n].jumpTarget
            && forall i :: s'.idx < i < |g.names| ==> g.names[i] != script[n].jumpTarget
  {
    AtNext(g, c, script, n);
    assert TransitionOk(g, t);
  }

  /** Every other node run: on to the next node, round to the first, or the end of the run. */
  lemma NodeLeadsOn(g: Graph, c: Ctx, script: seq<Effect>, n: nat)
    requires Validated(g) && n < |script| && At(g, c, script, n).status == Running && !Jumps(g, c, script, n)
    ensures var s, s', e := At(g, c, script, n), At(g, c, script, n + 1), script[n];
            && s'.ctx == (if e.Effect? then LeftBy(g, c, script, n) else s.ctx.(step := s.ctx.step + e.bump))
            && (e.Raise? ==> s'.status == NodeRaised(e.fault))
            && (e.Effect? && e.signal != CONTINUE ==> s'.status == Returned)
            && (e.Effect? && e.signal == CONTINUE ==>
                  if s.idx + 1 < |g.names| then s'.status == Running && s'.idx == s.idx + 1
                  else if s'.ctx.step < s'.ctx.maxSteps then s'.status == Running && s'.idx == 0
                  else s'.status == Returned)
  {
    AtNext(g, c, script, n);
  }
}

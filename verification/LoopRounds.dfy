/**
 Round counters, the transition log and resume: what the log says about each
 loop, in one run and over a chain of runs resumed from checkpoints.
 */
module LoopRounds {
  import opened WorkflowGraph

  /** A row that took a bounded transition counted under this key. */
  ghost predicate CountedUnder(g: Graph, row: TransitionRow, key: string) {
    && row.outcome == JumpTaken && (row.source, row.target) in g.pairs
    && g.pairs[(row.source, row.target)].maxRounds.Some? && g.key(row.source, row.target) == key
  }

  /** The rounds logged under one counter, in order. */
  ghost function Rounds(g: Graph, log: seq<TransitionRow>, key: string): seq<int> {
    if log == [] then [] else
      var n := |log| - 1;
      Rounds(g, log[..n], key) + if CountedUnder(g, log[n], key) then [log[n].round] else []
  }

  function Consecutive(from: int, n: nat): (r: seq<int>)
    ensures |r| == n && forall i :: 0 <= i < n ==> r[i] == from + 1 + i
  {
    seq(n, i => from + 1 + i)
  }

  /** Under one counter the log reads from+1, from+2, ... and the counter stands at the last of them. */
  ghost predicate RoundsOk(g: Graph, c: Ctx, key: string, from: int) {
    && Counter(c.counters, key) >= from
    && Rounds(g, c.log, key) == Consecutive(from, Counter(c.counters, key) - from)
  }

  lemma RoundsSnoc(g: Graph, log: seq<TransitionRow>, row: TransitionRow, key: string)
    ensures Rounds(g, log + [row], key) == Rounds(g, log, key) + if CountedUnder(g, row, key) then [row.round] else []
  {
    assert (log + [row])[..|log|] == log;
  }

  lemma ConsecutiveSnoc(from: int, n: nat)
    ensures Consecutive(from, n) + [from + 1 + n] == Consecutive(from, n + 1)
  {
  }

  lemma JumpRow(g: Graph, c: Ctx, source: string) returns (row: TransitionRow)
    requires Validated(g) && source in g.index && ResolveJump(g, c, source).Some?
    ensures var after := ResolveJump(g, c, source).value.0;
            && after.log == c.log + [row]
            && forall key :: if CountedUnder(g, row, key)
                 then row.round == Counter(c.counters, key) + 1 == Counter(after.counters, key)
                 else Counter(after.counters, key) == Counter(c.counters, key)
  {
    row := ResolveJump(g, c, source).value.0.log[|c.log|];
  }

  /** Resolving a jump appends one row and moves one counter by one, or stops the run. */
  lemma JumpKeepsRounds(g: Graph, c: Ctx, source: string, key: string, from: int)
    requires Validated(g) && source in g.index && RoundsOk(g, c, key, from)
    ensures var jump := ResolveJump(g, c, source);
            jump.Some? ==> RoundsOk(g, jump.value.0, key, from)
  {
    var jump := ResolveJump(g, c, source);
    if jump.Some? {
      var row := JumpRow(g, c, source);
      RoundsSnoc(g, c.log, row, key);
      ConsecutiveSnoc(from, Counter(c.counters, key) - from);
      assert Rounds(g, c.log, key) + [] == Rounds(g, c.log, key);
    }
  }

  /** The engine's context and its last checkpoint both have property RoundsOk. */
  ghost predicate AllRoundsOk(g: Graph, s: Engine, key: string, from: int) {
    RoundsOk(g, s.ctx, key, from) && (s.saved.Some? ==> RoundsOk(g, s.saved.value, key, from))
  }

  lemma TickKeepsRounds(g: Graph, s: Engine, e: Effect, key: string, from: int)
    requires Validated(g) && s.status == Running && Ready(g, s) && AllRoundsOk(g, s, key, from)
    ensures AllRoundsOk(g, Tick(g, s, e), key, from)
  {
    var c := Apply(s.ctx, e);
    assert RoundsOk(g, c, key, from);
    JumpKeepsRounds(g, c, g.names[s.idx], key, from);
  }

  /**
   The log tells the counters: in every run, at its end and at each
   checkpoint, the rounds logged under a counter are init+1, init+2, ... up to
   the counter's value.
   */
  lemma {:induction false} LoggedRoundsAreConsecutive(g: Graph, s: Engine, script: seq<Effect>, key: string, from: int)
    requires Validated(g) && Ready(g, s) && AllRoundsOk(g, s, key, from)
    ensures AllRoundsOk(g, Run(g, s, script), key, from)
    decreases |script|
  {
    if script != [] && s.status == Running {
      TickKeepsRounds(g, s, script[0], key, from);
      LoggedRoundsAreConsecutive(g, Tick(g, s, script[0]), script[1..], key, from);
    }
  }

  lemma FreshRunCountsFromItsStart(g: Graph, c: Ctx, script: seq<Effect>, key: string)
    requires Validated(g) && c.log == []
    ensures var s := Run(g, Start(c), script);
            AllRoundsOk(g, s, key, Counter(c.counters, key))
  {
    LoggedRoundsAreConsecutive(g, Start(c), script, key, Counter(c.counters, key));
  }

  // ------------------------------------------------------------ exhausted bounds

  ghost predicate OnlyJumps(log: seq<TransitionRow>) {
    forall i :: 0 <= i < |log| ==> log[i].outcome == JumpTaken
  }

  /** An exhausted bound is the last thing logged, and it ended the run for that reason. */
  ghost predicate ExhaustionIsFinal(s: Engine) {
    var log := s.ctx.log;
    && (s.status == Running ==> OnlyJumps(log))
    && (log != [] ==> OnlyJumps(log[..|log| - 1]))
    && (log != [] && log[|log| - 1].outcome == BoundExhausted ==>
          && s.status == Returned && s.ctx.signal == STOP
          && s.ctx.stopReason == LoopBound(log[|log| - 1].source, log[|log| - 1].target))
    && (s.saved.Some? ==> OnlyJumps(s.saved.value.log))
  }

  lemma TickKeepsExhaustion(g: Graph, s: Engine, e: Effect)
    requires Validated(g) && s.status == Running && Ready(g, s) && ExhaustionIsFinal(s)
    ensures ExhaustionIsFinal(Tick(g, s, e))
  {
    var s', log := Tick(g, s, e), s.ctx.log;
    assert s'.ctx.log == log || (|s'.ctx.log| == |log| + 1 && s'.ctx.log[..|log|] == log);
  }

  /** At most one bound is ever exhausted in a run; that row comes last and is never checkpointed. */
  lemma {:induction false} ExhaustionEndsTheRun(g: Graph, s: Engine, script: seq<Effect>)
    requires Validated(g) && Ready(g, s) && ExhaustionIsFinal(s)
    ensures ExhaustionIsFinal(Run(g, s, script))
    decreases |script|
  {
    if script != [] && s.status == Running {
      TickKeepsExhaustion(g, s, script[0]);
      ExhaustionEndsTheRun(g, Tick(g, s, script[0]), script[1..]);
    }
  }

  // -------------------------------------------------------- how often one pair

  /** How often the pair was taken, by the log. */
  ghost function Taken(log: seq<TransitionRow>, t: Transition): nat {
    if log == [] then 0 else
      var n := |log| - 1;
      Taken(log[..n], t)
      + if log[n].outcome == JumpTaken && log[n].source == t.source && log[n].target == t.target then 1 else 0
  }

  function Cap(bound: int, x: int): int {
    var b := if bound < 0 then 0 else bound;
    if x < b then x else b
  }

  ghost predicate IsBounded(g: Graph, t: Transition) {
    (t.source, t.target) in g.pairs && g.pairs[(t.source, t.target)] == t && t.maxRounds.Some?
  }

  /** The pair was taken at most as often as its counter moved below its bound. */
  ghost predicate TakenOk(g: Graph, c: Ctx, t: Transition, from: int)
    requires IsBounded(g, t)
  {
    && CounterOf(g, t, c.counters) >= from
    && Taken(c.log, t) <= Cap(t.maxRounds.value, CounterOf(g, t, c.counters)) - Cap(t.maxRounds.value, from)
  }

  ghost predicate AllTakenOk(g: Graph, s: Engine, t: Transition, from: int)
    requires IsBounded(g, t)
  {
    TakenOk(g, s.ctx, t, from) && (s.saved.Some? ==> TakenOk(g, s.saved.value, t, from))
  }

  lemma JumpKeepsTaken(g: Graph, c: Ctx, source: string, t: Transition, from: int)
    requires Validated(g) && source in g.index && IsBounded(g, t) && TakenOk(g, c, t, from)
    ensures var jump := ResolveJump(g, c, source);
            jump.Some? ==> TakenOk(g, jump.value.0, t, from)
  {
    var jump := ResolveJump(g, c, source);
    if jump.Some? { assert jump.value.0.log[..|c.log|] == c.log; }
  }

  lemma TickKeepsTaken(g: Graph, s: Engine, e: Effect, t: Transition, from: int)
    requires Validated(g) && s.status == Running && Ready(g, s) && IsBounded(g, t) && AllTakenOk(g, s, t, from)
    ensures AllTakenOk(g, Tick(g, s, e), t, from)
  {
    var c := Apply(s.ctx, e);
    assert TakenOk(g, c, t, from);
    JumpKeepsTaken(g, c, g.names[s.idx], t, from);
  }

  lemma {:induction false} RunKeepsTaken(g: Graph, s: Engine, script: seq<Effect>, t: Transition, from: int)
    requires Validated(g) && Ready(g, s) && IsBounded(g, t) && AllTakenOk(g, s, t, from)
    ensures AllTakenOk(g, Run(g, s, script), t, from)
    decreases |script|
  {
    if script != [] && s.status == Running {
      TickKeepsTaken(g, s, script[0], t, from);
      RunKeepsTaken(g, Tick(g, s, script[0]), script[1..], t, from);
    }
  }

  // ---------------------------------------------------------------- resumption

  /** One process's run: the context it started from and the node effects until it ended or was killed. */
  datatype Segment = Segment(start: Ctx, script: seq<Effect>)

  ghost function End(g: Graph, seg: Segment): Engine
    requires Validated(g)
  {
    Run(g, Start(seg.start), seg.script)
  }

  /** Each run starts with a clean log from the counters of its predecessor's last checkpoint. */
  ghost predicate Lineage(g: Graph, segs: seq<Segment>)
    requires Validated(g)
  {
    && (forall i :: 0 <= i < |segs| ==> segs[i].start.log == [])
    && (segs != [] ==> segs[0].start.counters == map[])
    && forall i :: 0 <= i < |segs| - 1 ==> ResumesNext(g, segs, i)
  }

  ghost predicate ResumesNext(g: Graph, segs: seq<Segment>, i: nat)
    requires Validated(g) && i < |segs| - 1
  {
    var saved := End(g, segs[i]).saved;
    saved.Some? && segs[i + 1].start.counters == saved.value.counters
  }

  lemma LineagePrefix(g: Graph, segs: seq<Segment>)
    requires Validated(g) && Lineage(g, segs) && |segs| > 1
    ensures Lineage(g, segs[..|segs| - 1]) && ResumesNext(g, segs, |segs| - 2)
  {
    var front := segs[..|segs| - 1];
    assert ResumesNext(g, segs, |segs| - 2);
    forall i | 0 <= i < |front| - 1 ensures ResumesNext(g, front, i) { assert ResumesNext(g, segs, i); }
  }

  /** Jumps of the pair that the checkpoints of all earlier runs carry forward. */
  ghost function CarriedJumps(g: Graph, segs: seq<Segment>, t: Transition): nat
    requires Validated(g) && Lineage(g, segs)
  {
    if |segs| <= 1 then 0 else
      var n := |segs| - 1;
      LineagePrefix(g, segs);
      CarriedJumps(g, segs[..n], t) + Taken(End(g, segs[n - 1]).saved.value.log, t)
  }

  lemma SegmentTaken(g: Graph, seg: Segment, t: Transition)
    requires Validated(g) && IsBounded(g, t) && seg.start.log == []
    ensures AllTakenOk(g, End(g, seg), t, CounterOf(g, t, seg.start.counters))
  {
    RunKeepsTaken(g, Start(seg.start), seg.script, t, CounterOf(g, t, seg.start.counters));
  }

  lemma {:induction false} CarriedAtMostCounter(g: Graph, segs: seq<Segment>, t: Transition)
    requires Validated(g) && Lineage(g, segs) && segs != [] && IsBounded(g, t)
    ensures CarriedJumps(g, segs, t) <= Cap(t.maxRounds.value, CounterOf(g, t, segs[|segs| - 1].start.counters))
  {
    if |segs| > 1 {
      var n := |segs| - 1;
      LineagePrefix(g, segs);
      CarriedAtMostCounter(g, segs[..n], t);
      SegmentTaken(g, segs[n - 1], t);
      assert segs[..n][n - 1] == segs[n - 1];
    }
  }

  /**
   The bound survives resumption: over the checkpointed part of every earlier
   run of a lineage plus the whole last run, a pair is taken at most
   max_rounds times.
   */
  lemma BoundHoldsAcrossResumes(g: Graph, segs: seq<Segment>, t: Transition)
    requires Validated(g) && Lineage(g, segs) && segs != [] && IsBounded(g, t)
    ensures CarriedJumps(g, segs, t) + Taken(End(g, segs[|segs| - 1]).ctx.log, t)
            <= if t.maxRounds.value < 0 then 0 else t.maxRounds.value
  {
    CarriedAtMostCounter(g, segs, t);
    SegmentTaken(g, segs[|segs| - 1], t);
  }

  // -------------------------------------------------------------- counter names

  predicate HasArrow(s: string) {
    exists i {:trigger s[i]} :: 0 <= i < |s| - 1 && s[i] == '-' && s[i + 1] == '>'
  }

  /** Counter names tell pairs apart as long as source names do not contain the arrow. */
  lemma ArrowKeyInjective(a: string, b: string, c: string, d: string)
    requires ArrowKey(a, b) == ArrowKey(c, d) && !HasArrow(a) && !HasArrow(c)
    ensures a == c && b == d
  {
    if |a| < |c| {
      LongerSourceHasArrow(a, b, c, d);
    } else if |c| < |a| {
      LongerSourceHasArrow(c, d, a, b);
    } else {
      var k := ArrowKey(a, b);
      assert a == k[..|a|] == c && b == k[|a| + 2..] == d;
    }
  }

  lemma LongerSourceHasArrow(a: string, b: string, c: string, d: string)
    requires ArrowKey(a, b) == ArrowKey(c, d) && |a| < |c|
    ensures HasArrow(c)
  {
    var k := ArrowKey(c, d);
    var n := |a|;
    assert k[n] == '-' && k[n + 1] == '>';
    assert k[|c|] == '-';
    assert c[n] == '-';
    assert n + 1 < |c| ==> c[n + 1] == '>';
  }

  /** Without that, two different loops share one counter. */
  lemma ArrowKeyCollision()
    ensures ArrowKey("a->b", "c") == ArrowKey("a", "b->c")
  {
    assert "a->b" + "->" + "c" == "a" + "->" + "b->c";
  }
}

/**
 Crash, resume, reset and delegation over many sessions: a protocol of completed
 steps, kills, endings, context resets, resumptions and delegated runs over the
 checkpoints on disk.
 */
module Lifecycle {
  import opened Prelude
  import opened Checkpoints

  /** A conversation state at the end of a completed step. */
  type State = Checkpoint

  /** A resumed run starts from the checkpoint it loads; a continuation or a delegated run starts afresh. */
  datatype Session = Session(
    root: Sid, resumedFrom: Option<Sid>, start: Option<State>, continues: bool,
    completed: seq<State>, didReset: bool, failed: bool, ended: Option<Outcome>)

  /**
   stack holds the runs of the live process, the innermost last: first its own runs, each a
   continuation of the one before, as many as main says; then, while a step delegates, the
   delegated run and its continuations. delegated holds the runs delegated to since the
   process's own run last completed a step.
   */
  datatype Sys = Sys(
    disk: map<Sid, Stored>, clock: nat, sessions: map<Sid, Session>,
    stack: seq<Sid>, main: nat, delegated: set<Sid>)

  datatype Event =
    | Launch(s: Sid)
    | ResumeFrom(s: Sid, source: Sid)
    | CompleteStep(state: State)
    | Delegate(s: Sid)
    | ResetInto(s: Sid)
    | EndRun(outcome: Outcome)
    | Unwind
    | Kill
    | KillInCleanUp(outcome: Outcome)

  const INIT := Sys(map[], 0, map[], [], 0, {})

  function Fresh(root: Sid, continues: bool): Session {
    Session(root, None, None, continues, [], false, false, None)
  }

  function Top(y: Sys): Sid
    requires y.stack != []
  {
    y.stack[|y.stack| - 1]
  }

  /** Where the innermost lineage of the stack begins. */
  function Base(y: Sys): nat { if y.main < |y.stack| then y.main else 0 }

  /** The process's own run, delegated runs aside. */
  function MainRun(y: Sys): Sid
    requires 0 < y.main <= |y.stack|
  {
    y.stack[y.main - 1]
  }

  ghost predicate Known(y: Sys) {
    && y.main <= |y.stack| && (y.stack != [] ==> y.main > 0)
    && (forall i :: 0 <= i < |y.stack| ==> y.stack[i] in y.sessions)
    && (forall s :: s in y.disk ==> s in y.sessions)
  }

  /** What can happen next. A run that has reset can only end after its continuation; only the process's own run can delegate. */
  ghost predicate Enabled(y: Sys, e: Event)
    requires Known(y)
  {
    match e
    case Launch(s) => y.stack == [] && s !in y.sessions
    case ResumeFrom(s, source) => y.stack == [] && s !in y.sessions && source in y.disk
    case CompleteStep(state) => Working(y) && state.session == Top(y)
    case Delegate(s) => Working(y) && y.main == |y.stack| && s !in y.sessions
    case ResetInto(s) => Working(y) && s !in y.sessions
    case EndRun(_) => Working(y)
    case Unwind => Unwinding(y)
    case Kill => y.stack != []
    case KillInCleanUp(outcome) => Working(y) || (Unwinding(y) && outcome == UnwindOutcome(y))
  }

  ghost predicate Working(y: Sys)
    requires Known(y)
  {
    y.stack != [] && !y.sessions[Top(y)].didReset
  }

  ghost predicate Unwinding(y: Sys)
    requires Known(y)
  {
    y.stack != [] && y.sessions[Top(y)].didReset
  }

  ghost function EndTop(y: Sys, outcome: Outcome): Sys
    requires Known(y) && y.stack != []
  {
    var s := Top(y);
    var n := y.sessions[s];
    var ended := y.sessions[s := n.(ended := Some(outcome))];
    y.(disk := y.disk - Dropped(s, n.resumedFrom, n.didReset, outcome),
       sessions := if |y.stack| > 1 && n.continues && outcome.Failure? then ParentFails(ended, y.stack[|y.stack| - 2]) else ended,
       stack := y.stack[..|y.stack| - 1],
       main := if y.main == |y.stack| then y.main - 1 else y.main)
  }

  /** The process dies between the two removals of a clean-up: its own checkpoint is gone, its source's is not. */
  ghost function DieInCleanUp(y: Sys, outcome: Outcome): Sys
    requires Known(y) && y.stack != []
  {
    var s := Top(y);
    var n := y.sessions[s];
    y.(disk := y.disk - (Dropped(s, n.resumedFrom, n.didReset, outcome) * {s}),
       sessions := y.sessions[s := n.(ended := Some(outcome))],
       stack := [], main := 0, delegated := {})
  }

  /** A failure of a continuation becomes a failure of the run that reset into it; one of a delegated run does not spread. */
  function ParentFails(sessions: map<Sid, Session>, parent: Sid): map<Sid, Session> {
    if parent in sessions then sessions[parent := sessions[parent].(failed := true)] else sessions
  }

  function UnwindOutcome(y: Sys): Outcome
    requires y.stack != [] && Top(y) in y.sessions
  {
    if y.sessions[Top(y)].failed then Failure else Other
  }

  ghost function Step(y: Sys, e: Event): Sys
    requires Known(y) && Enabled(y, e)
  {
    match e
    case Launch(s) =>
      y.(sessions := y.sessions[s := Fresh(s, false)], stack := [s], main := 1, delegated := {})
    case ResumeFrom(s, source) =>
      var c := y.disk[source].checkpoint;
      var n := Fresh(y.sessions[source].root, false).(resumedFrom := Some(c.session), start := Some(c));
      y.(sessions := y.sessions[s := n], stack := [s], main := 1, delegated := {})
    case CompleteStep(state) =>
      var s := Top(y);
      y.(clock := y.clock + 1,
         disk := y.disk[s := Stored(state, y.clock + 1)],
         sessions := y.sessions[s := y.sessions[s].(completed := y.sessions[s].completed + [state])],
         delegated := if y.main == |y.stack| then {} else y.delegated)
    case Delegate(s) =>
      y.(sessions := y.sessions[s := Fresh(s, false)], stack := y.stack + [s], delegated := y.delegated + {s})
    case ResetInto(c) =>
      var s := Top(y);
      y.(sessions := y.sessions[s := y.sessions[s].(didReset := true)][c := Fresh(y.sessions[s].root, true)],
         stack := y.stack + [c],
         main := if y.main == |y.stack| then y.main + 1 else y.main)
    case EndRun(outcome) => EndTop(y, outcome)
    case Unwind => EndTop(y, UnwindOutcome(y))
    case Kill => y.(stack := [], main := 0, delegated := {})
    case KillInCleanUp(outcome) => DieInCleanUp(y, outcome)
  }

  /** The hypothesis: a continuation that ends on its own, not cleanly, has completed a step. */
  ghost predicate ContinuationsReachCheckpoint(y: Sys, e: Event)
    requires Known(y)
  {
    e.EndRun? && !e.outcome.Clean? && y.stack != [] && y.sessions[Top(y)].continues ==>
      y.sessions[Top(y)].completed != []
  }

  // ---------------------------------------------------------------- invariants

  ghost predicate Member(y: Sys, s: Sid, root: Sid) { s in y.sessions && y.sessions[s].root == root }

  ghost predicate Progressed(y: Sys, root: Sid) {
    exists s: Sid :: Member(y, s, root) && y.sessions[s].completed != []
  }

  ghost predicate Superseded(y: Sys, root: Sid) {
    exists s: Sid :: Member(y, s, root) && y.sessions[s].ended == Some(Clean)
  }

  ghost predicate Resumable(y: Sys, root: Sid) {
    exists s: Sid :: Member(y, s, root) && s in y.disk
  }

  /** The run finished cleanly, or reset and came back to its clean-up. */
  predicate LeavesNone(n: Session) { n.ended.Some? && (n.ended.value.Clean? || n.didReset) }

  /** Every checkpoint is its session's last completed step and names that session; ended-clean and unwound sessions have none. */
  ghost predicate DiskOk(y: Sys) {
    && Known(y)
    && (forall s :: s in y.disk ==>
          && y.sessions[s].completed != [] && y.disk[s].checkpoint.session == s
          && y.disk[s].checkpoint == y.sessions[s].completed[|y.sessions[s].completed| - 1]
          && y.disk[s].mtime <= y.clock)
    && (forall s :: s in y.sessions && LeavesNone(y.sessions[s]) ==> s !in y.disk)
  }

  /** The live process: its own lineage and at most one it delegated to, no run ended, all but the last of each suspended in a reset. */
  ghost predicate StackOk(y: Sys)
    requires Known(y)
  {
    && (forall i, j :: 0 <= i < j < |y.stack| ==> y.stack[i] != y.stack[j])
    && (forall i :: 0 <= i < |y.stack| ==> OnStackOk(y, i))
  }

  /** Run i of the stack is the first of its lineage there. */
  predicate Begins(y: Sys, i: nat) { i == 0 || i == y.main }

  ghost predicate OnStackOk(y: Sys, i: nat)
    requires Known(y) && i < |y.stack|
  {
    var n := y.sessions[y.stack[i]];
    && n.ended.None? && (n.continues <==> !Begins(y, i))
    && (!Begins(y, i) ==> n.root == y.sessions[y.stack[i - 1]].root)
    && (i + 1 < |y.stack| ==> (n.didReset <==> !Begins(y, i + 1)))
    && (i < |y.stack| - 1 || !n.didReset ==> !n.failed)
    && (i > 0 ==> n.resumedFrom.None?)
    && (n.root in y.delegated <==> i >= y.main)
    && (n.completed != [] ==> y.stack[i] in y.disk)
    && (n.resumedFrom.Some? ==> Member(y, n.resumedFrom.value, n.root) && n.resumedFrom.value !in y.stack)
  }

  /** A checkpoint of the lineage that the clean-ups still to come on the stack will not delete. */
  ghost predicate SafeFromUnwinding(y: Sys, s: Sid)
    requires Known(y)
  {
    s in y.disk && s !in y.stack
    && forall i :: 0 <= i < |y.stack| ==> y.sessions[y.stack[i]].resumedFrom != Some(s)
  }

  ghost predicate NothingLost(y: Sys)
    requires Known(y)
  {
    && (forall root :: Progressed(y, root) && !Superseded(y, root) ==> Resumable(y, root))
    && (Unwinding(y) && !Superseded(y, y.sessions[Top(y)].root) ==>
          exists s: Sid :: Member(y, s, y.sessions[Top(y)].root) && SafeFromUnwinding(y, s))
  }

  /** Once the process's own run has a checkpoint, those of the runs it has delegated to since are newer, and all others older. */
  ghost predicate NewestOk(y: Sys)
    requires Known(y)
  {
    y.stack != [] && MainRun(y) in y.disk && !y.sessions[MainRun(y)].didReset ==>
      forall s :: s in y.disk && s != MainRun(y) ==>
        if y.sessions[s].root in y.delegated then y.disk[s].mtime > y.disk[MainRun(y)].mtime
        else y.disk[s].mtime < y.disk[MainRun(y)].mtime
  }

  /** A resumed run started in the state its source had reached, and the source has not moved since. */
  ghost predicate StartOk(y: Sys, s: Sid)
    requires s in y.sessions
  {
    var n := y.sessions[s];
    n.resumedFrom.Some? ==>
      && n.resumedFrom.value in y.sessions && n.resumedFrom.value !in y.stack
      && var done := y.sessions[n.resumedFrom.value].completed; done != [] && n.start == Some(done[|done| - 1])
  }

  ghost predicate RootOk(y: Sys, s: Sid)
    requires s in y.sessions
  {
    y.sessions[s].root in y.sessions
  }

  ghost predicate StartsOk(y: Sys) {
    forall s {:trigger StartOk(y, s)} {:trigger RootOk(y, s)} :: s in y.sessions ==> StartOk(y, s) && RootOk(y, s)
  }

  ghost predicate Inv(y: Sys) { DiskOk(y) && StackOk(y) && NewestOk(y) && StartsOk(y) }

  lemma TopFacts(y: Sys)
    requires Inv(y) && y.stack != []
    ensures y.sessions[Top(y)].ended.None?
    ensures |y.stack| > 1 ==> (y.sessions[y.stack[|y.stack| - 2]].didReset <==> y.sessions[Top(y)].continues)
  {
    assert OnStackOk(y, |y.stack| - 1);
    if |y.stack| > 1 { assert OnStackOk(y, |y.stack| - 2); }
  }

  lemma EndKeepsDisk(y: Sys, outcome: Outcome)
    requires Inv(y) && y.stack != [] && (y.sessions[Top(y)].didReset ==> !outcome.Clean?)
    ensures DiskOk(EndTop(y, outcome))
  {
    TopFacts(y);
    var y' := EndTop(y, outcome);
    forall s | s in y'.disk ensures s in y.disk && y'.disk[s] == y.disk[s] && y'.sessions[s].completed == y.sessions[s].completed { }
    forall s | s in y'.sessions && LeavesNone(y'.sessions[s]) ensures s !in y'.disk {
      if s != Top(y) { assert LeavesNone(y.sessions[s]); }
    }
  }

  lemma WorkKeepsDisk(y: Sys, state: State)
    requires Inv(y) && Enabled(y, CompleteStep(state))
    ensures DiskOk(Step(y, CompleteStep(state)))
  {
    TopFacts(y);
    var y', s := Step(y, CompleteStep(state)), Top(y);
    assert y'.sessions[s].completed[|y'.sessions[s].completed| - 1] == state;
  }

  lemma ResetKeepsDisk(y: Sys, s: Sid)
    requires Inv(y) && Enabled(y, ResetInto(s))
    ensures DiskOk(Step(y, ResetInto(s)))
  {
    TopFacts(y);
  }

  lemma StepKeepsDisk(y: Sys, e: Event)
    requires Inv(y) && Enabled(y, e)
    ensures DiskOk(Step(y, e))
  {
    match e
    case CompleteStep(state) => WorkKeepsDisk(y, state);
    case ResetInto(s) => ResetKeepsDisk(y, s);
    case EndRun(outcome) => EndKeepsDisk(y, outcome);
    case Unwind => EndKeepsDisk(y, UnwindOutcome(y));
    case KillInCleanUp(outcome) => DyingKeepsDisk(y, outcome);
    case _ =>
  }

  lemma DyingKeepsDisk(y: Sys, outcome: Outcome)
    requires Inv(y) && Enabled(y, KillInCleanUp(outcome))
    ensures DiskOk(DieInCleanUp(y, outcome))
  {
    TopFacts(y);
    var y' := DieInCleanUp(y, outcome);
    forall s | s in y'.sessions && LeavesNone(y'.sessions[s]) ensures s !in y'.disk {
      if s != Top(y) { assert LeavesNone(y.sessions[s]); }
    }
  }

  lemma WorkKeepsNewest(y: Sys, state: State)
    requires Inv(y) && Enabled(y, CompleteStep(state)) && Known(Step(y, CompleteStep(state)))
    ensures NewestOk(Step(y, CompleteStep(state)))
  {
    assert OnStackOk(y, |y.stack| - 1);
    if y.main < |y.stack| { assert y.stack[y.main - 1] != Top(y); }
  }

  lemma DelegationKeepsNewest(y: Sys, s: Sid)
    requires Inv(y) && Enabled(y, Delegate(s)) && Known(Step(y, Delegate(s)))
    ensures NewestOk(Step(y, Delegate(s)))
  {
    var y' := Step(y, Delegate(s));
    assert MainRun(y') == MainRun(y);
    forall t | t in y.disk ensures y'.sessions[t] == y.sessions[t] && y.sessions[t].root != s { assert RootOk(y, t); }
  }

  lemma EndKeepsNewest(y: Sys, outcome: Outcome)
    requires Inv(y) && y.stack != [] && Known(EndTop(y, outcome))
    ensures NewestOk(EndTop(y, outcome))
  {
    var y' := EndTop(y, outcome);
    if y'.stack != [] {
      assert OnStackOk(y, |y.stack| - 1) && OnStackOk(y, |y.stack| - 2);
      forall t | t in y'.disk ensures t in y.disk && y'.disk[t] == y.disk[t] && y'.sessions[t].root == y.sessions[t].root { }
      if y.main < |y.stack| {
        assert MainRun(y') == MainRun(y) && MainRun(y) != Top(y);
      } else {
        assert y'.sessions[MainRun(y')].didReset;
      }
    }
  }

  lemma StepKeepsNewest(y: Sys, e: Event)
    requires Inv(y) && Enabled(y, e) && Known(Step(y, e))
    ensures NewestOk(Step(y, e))
  {
    match e
    case CompleteStep(state) => WorkKeepsNewest(y, state);
    case Delegate(s) => DelegationKeepsNewest(y, s);
    case EndRun(outcome) => EndKeepsNewest(y, outcome);
    case Unwind => EndKeepsNewest(y, UnwindOutcome(y));
    case _ =>
  }

  lemma PushKeepsStack(y: Sys, e: Event)
    requires Inv(y) && Enabled(y, e) && (e.ResetInto? || e.Delegate?)
    ensures Known(Step(y, e)) && StackOk(Step(y, e))
  {
    var y' := Step(y, e);
    assert y'.stack == y.stack + [e.s];
    forall i | 0 <= i < |y'.stack| ensures OnStackOk(y', i) {
      assert OnStackOk(y, if i < |y.stack| then i else |y.stack| - 1);
      if i < |y.stack| { assert y.stack[i] != e.s && RootOk(y, y.stack[i]); }
    }
  }

  lemma PopKeepsStack(y: Sys, outcome: Outcome)
    requires Inv(y) && y.stack != []
    ensures Known(EndTop(y, outcome)) && StackOk(EndTop(y, outcome))
  {
    var y' := EndTop(y, outcome);
    assert OnStackOk(y, |y.stack| - 1);
    forall i | 0 <= i < |y'.stack| ensures OnStackOk(y', i) {
      assert OnStackOk(y, i);
      assert y.stack[i] != Top(y);
    }
  }

  lemma WorkKeepsStack(y: Sys, state: State)
    requires Inv(y) && Enabled(y, CompleteStep(state))
    ensures Known(Step(y, CompleteStep(state))) && StackOk(Step(y, CompleteStep(state)))
  {
    var y' := Step(y, CompleteStep(state));
    forall i | 0 <= i < |y'.stack| ensures OnStackOk(y', i) { assert OnStackOk(y, i); }
  }

  lemma StepKeepsStack(y: Sys, e: Event)
    requires Inv(y) && Enabled(y, e)
    ensures Known(Step(y, e)) && StackOk(Step(y, e))
  {
    match e
    case CompleteStep(state) => WorkKeepsStack(y, state);
    case Delegate(_) => PushKeepsStack(y, e);
    case ResetInto(_) => PushKeepsStack(y, e);
    case EndRun(outcome) => PopKeepsStack(y, outcome);
    case Unwind => PopKeepsStack(y, UnwindOutcome(y));
    case _ =>
  }

  lemma StepKeepsStarts(y: Sys, e: Event)
    requires Inv(y) && Enabled(y, e)
    ensures StartsOk(Step(y, e))
  {
    var y' := Step(y, e);
    match e {
      case ResumeFrom(_, source) => assert RootOk(y, source);
      case ResetInto(_) => assert RootOk(y, Top(y));
      case _ =>
    }
    forall s | s in y'.sessions ensures StartOk(y', s) && RootOk(y', s) {
      if s in y.sessions { assert StartOk(y, s) && RootOk(y, s); }
    }
  }

  lemma StepKeepsInv(y: Sys, e: Event)
    requires Inv(y) && Enabled(y, e)
    ensures Inv(Step(y, e))
  {
    StepKeepsDisk(y, e);
    StepKeepsStack(y, e);
    StepKeepsNewest(y, e);
    StepKeepsStarts(y, e);
  }

  // -------------------------------------------------------------- nothing lost

  /** Sessions keep their lineage, their progress and a clean end. */
  lemma StepKeepsSessions(y: Sys, e: Event, s: Sid)
    requires Inv(y) && Enabled(y, e) && s in y.sessions
    ensures var y' := Step(y, e);
            && s in y'.sessions && y'.sessions[s].root == y.sessions[s].root
            && y.sessions[s].completed <= y'.sessions[s].completed
            && (y.sessions[s].ended == Some(Clean) ==> y'.sessions[s].ended == Some(Clean))
            && (y'.sessions[s].completed != y.sessions[s].completed ==> s in y'.disk)
  {
    if y.stack != [] { TopFacts(y); }
  }

  /** Progress and supersession are never forgotten; new progress comes with a checkpoint. */
  lemma LineageMoves(y: Sys, e: Event, root: Sid)
    requires Inv(y) && Enabled(y, e)
    ensures Superseded(y, root) ==> Superseded(Step(y, e), root)
    ensures Progressed(Step(y, e), root) ==> Progressed(y, root) || Resumable(Step(y, e), root)
  {
    var y' := Step(y, e);
    if Superseded(y, root) {
      var s: Sid :| Member(y, s, root) && y.sessions[s].ended == Some(Clean);
      StepKeepsSessions(y, e, s);
      assert Member(y', s, root);
    }
    if Progressed(y', root) {
      var s: Sid :| Member(y', s, root) && y'.sessions[s].completed != [];
      if s in y.sessions {
        StepKeepsSessions(y, e, s);
        if y.sessions[s].completed != [] { assert Member(y, s, root); }
        else { assert Member(y', s, root) && s in y'.disk; }
      }
    }
  }

  /** A checkpoint that is not deleted keeps its lineage resumable. */
  lemma SurvivorKeepsResumable(y: Sys, e: Event, root: Sid, s: Sid)
    requires Inv(y) && Enabled(y, e) && Member(y, s, root) && s in y.disk && s in Step(y, e).disk
    ensures Resumable(Step(y, e), root)
  {
    StepKeepsSessions(y, e, s);
    assert Member(Step(y, e), s, root);
  }

  /** A clean end supersedes the lineage, and the unwinding after it owes it nothing. */
  lemma CleanEndLosesNothing(y: Sys)
    requires Inv(y) && NothingLost(y) && Enabled(y, EndRun(Clean))
    ensures NothingLost(Step(y, EndRun(Clean)))
  {
    var e := EndRun(Clean);
    var y', s := Step(y, e), Top(y);
    StepKeepsInv(y, e);
    assert OnStackOk(y, |y.stack| - 1);
    assert Member(y', s, y.sessions[s].root) && y'.sessions[s].ended == Some(Clean);
    forall r | Progressed(y', r) && !Superseded(y', r) ensures Resumable(y', r) {
      OthersKeepTheirs(y, e, r);
    }
    if Unwinding(y') { assert OnStackOk(y', |y'.stack| - 1) && OnStackOk(y, |y.stack| - 2); }
  }

  /** Any other end deletes nothing. */
  lemma OtherEndKeepsResumable(y: Sys, outcome: Outcome, r: Sid)
    requires Inv(y) && NothingLost(y) && Enabled(y, EndRun(outcome)) && !outcome.Clean?
    requires Progressed(Step(y, EndRun(outcome)), r) && !Superseded(Step(y, EndRun(outcome)), r)
    ensures Resumable(Step(y, EndRun(outcome)), r)
  {
    var e := EndRun(outcome);
    assert Step(y, e).disk == y.disk;
    LineageMoves(y, e, r);
    if Resumable(y, r) {
      var t: Sid :| Member(y, t, r) && t in y.disk;
      SurvivorKeepsResumable(y, e, r, t);
    }
  }

  /** The checkpoint of a continuation that ended is out of reach of the unwinding. */
  lemma EndedContinuationIsSafe(y: Sys, outcome: Outcome)
    requires Inv(y) && Enabled(y, EndRun(outcome)) && !outcome.Clean? && y.sessions[Top(y)].continues
    requires ContinuationsReachCheckpoint(y, EndRun(outcome)) && Known(Step(y, EndRun(outcome)))
    ensures var y' := Step(y, EndRun(outcome));
            y'.stack != [] && Member(y', Top(y), y'.sessions[Top(y')].root) && SafeFromUnwinding(y', Top(y))
  {
    var y', s := Step(y, EndRun(outcome)), Top(y);
    assert OnStackOk(y, |y.stack| - 1) && OnStackOk(y, |y.stack| - 2);
    forall i | 0 <= i < |y'.stack| ensures y'.sessions[y'.stack[i]].resumedFrom != Some(s) { assert OnStackOk(y, i); }
  }

  lemma EndRunLosesNothing(y: Sys, outcome: Outcome)
    requires Inv(y) && NothingLost(y) && Enabled(y, EndRun(outcome)) && ContinuationsReachCheckpoint(y, EndRun(outcome))
    ensures NothingLost(Step(y, EndRun(outcome)))
  {
    if outcome.Clean? {
      CleanEndLosesNothing(y);
    } else {
      var y' := Step(y, EndRun(outcome));
      StepKeepsInv(y, EndRun(outcome));
      forall r | Progressed(y', r) && !Superseded(y', r) ensures Resumable(y', r) { OtherEndKeepsResumable(y, outcome, r); }
      TopFacts(y);
      if y.sessions[Top(y)].continues { EndedContinuationIsSafe(y, outcome); }
    }
  }

  /** Checkpoints of other lineages are never deleted. */
  lemma OthersKeepTheirs(y: Sys, e: Event, root: Sid)
    requires Inv(y) && NothingLost(y) && Enabled(y, e) && (e.EndRun? || e.Unwind? || e.KillInCleanUp?)
    requires Progressed(Step(y, e), root) && !Superseded(Step(y, e), root) && root != y.sessions[Top(y)].root
    ensures Resumable(Step(y, e), root)
  {
    LineageMoves(y, e, root);
    if Resumable(y, root) {
      var t: Sid :| Member(y, t, root) && t in y.disk;
      assert OnStackOk(y, |y.stack| - 1);
      SurvivorKeepsResumable(y, e, root, t);
    }
  }

  /** Unwinding leaves the checkpoint that was safe from it. */
  lemma UnwindLosesNothing(y: Sys)
    requires Inv(y) && NothingLost(y) && Enabled(y, Unwind)
    ensures NothingLost(Step(y, Unwind))
  {
    var y' := Step(y, Unwind);
    var root := y.sessions[Top(y)].root;
    StepKeepsInv(y, Unwind);
    assert OnStackOk(y, |y.stack| - 1);
    LineageMoves(y, Unwind, root);
    if !Superseded(y', root) {
      var s: Sid :| Member(y, s, root) && SafeFromUnwinding(y, s);
      SurvivorKeepsResumable(y, Unwind, root, s);
      TopFacts(y);
      if y.sessions[Top(y)].continues { StillSafe(y, s); }
    }
    forall r | Progressed(y', r) && !Superseded(y', r) ensures Resumable(y', r) {
      if r != root { OthersKeepTheirs(y, Unwind, r); }
    }
    if y'.stack != [] { assert OnStackOk(y, |y.stack| - 2); }
  }

  lemma StillSafe(y: Sys, s: Sid)
    requires Inv(y) && Enabled(y, Unwind) && y.sessions[Top(y)].continues && Known(Step(y, Unwind))
    requires Member(y, s, y.sessions[Top(y)].root) && SafeFromUnwinding(y, s)
    ensures var y' := Step(y, Unwind);
            y'.stack != [] && Member(y', s, y'.sessions[Top(y')].root) && SafeFromUnwinding(y', s)
  {
    var y' := Step(y, Unwind);
    assert OnStackOk(y, |y.stack| - 1) && OnStackOk(y, |y.stack| - 2);
    forall i | 0 <= i < |y'.stack| ensures y'.sessions[y'.stack[i]].resumedFrom != Some(s) {
      assert y.sessions[y.stack[i]].resumedFrom != Some(s);
    }
  }

  /** Dying in a clean-up deletes no more than the clean-up would have. */
  lemma DyingLosesNothing(y: Sys, outcome: Outcome)
    requires Inv(y) && NothingLost(y) && Enabled(y, KillInCleanUp(outcome))
    ensures Known(Step(y, KillInCleanUp(outcome))) && NothingLost(Step(y, KillInCleanUp(outcome)))
  {
    var e := KillInCleanUp(outcome);
    var y', s := Step(y, e), Top(y);
    var root := y.sessions[s].root;
    StepKeepsInv(y, e);
    assert OnStackOk(y, |y.stack| - 1);
    if outcome.Clean? { assert Member(y', s, root) && y'.sessions[s].ended == Some(Clean); }
    forall r | Progressed(y', r) && !Superseded(y', r) ensures Resumable(y', r) {
      LineageMoves(y, e, r);
      if r != root {
        OthersKeepTheirs(y, e, r);
      } else if Unwinding(y) {
        var t: Sid :| Member(y, t, r) && SafeFromUnwinding(y, t);
        SurvivorKeepsResumable(y, e, r, t);
      } else if Resumable(y, r) {
        var t: Sid :| Member(y, t, r) && t in y.disk;
        SurvivorKeepsResumable(y, e, r, t);
      }
    }
  }

  /** Every other event only adds checkpoints. */
  lemma GrowthLosesNothing(y: Sys, e: Event)
    requires Inv(y) && NothingLost(y) && Enabled(y, e) && !e.EndRun? && !e.Unwind? && !e.KillInCleanUp?
    ensures Known(Step(y, e)) && NothingLost(Step(y, e))
  {
    var y' := Step(y, e);
    StepKeepsInv(y, e);
    forall r | Progressed(y', r) && !Superseded(y', r) ensures Resumable(y', r) {
      LineageMoves(y, e, r);
      if Resumable(y, r) {
        var t: Sid :| Member(y, t, r) && t in y.disk;
        SurvivorKeepsResumable(y, e, r, t);
      }
    }
  }

  lemma StepLosesNothing(y: Sys, e: Event)
    requires Inv(y) && NothingLost(y) && Enabled(y, e) && ContinuationsReachCheckpoint(y, e)
    ensures Inv(Step(y, e)) && NothingLost(Step(y, e))
  {
    StepKeepsInv(y, e);
    match e
    case EndRun(outcome) => EndRunLosesNothing(y, outcome);
    case Unwind => UnwindLosesNothing(y);
    case KillInCleanUp(outcome) => DyingLosesNothing(y, outcome);
    case _ => GrowthLosesNothing(y, e);
  }

  // ------------------------------------------------------------------ all runs

  ghost predicate Takes(y: Sys, e: Event, y': Sys) { Known(y) && Enabled(y, e) && y' == Step(y, e) }

  ghost predicate Reaches(events: seq<Event>, y: Sys)
    decreases |events|
  {
    if events == [] then y == INIT else
      var n := |events| - 1;
      exists before :: Reaches(events[..n], before) && Takes(before, events[n], y)
  }

  /** As Reaches, where every continuation that ends on its own has completed a step. */
  ghost predicate ReachesWithProgress(events: seq<Event>, y: Sys)
    decreases |events|
  {
    if events == [] then y == INIT else
      var n := |events| - 1;
      exists before :: ReachesWithProgress(events[..n], before) && Takes(before, events[n], y)
                       && ContinuationsReachCheckpoint(before, events[n])
  }

  lemma {:induction false} ReachableInv(events: seq<Event>, y: Sys)
    requires Reaches(events, y)
    ensures Inv(y)
  {
    if events != [] {
      var n := |events| - 1;
      var before :| Reaches(events[..n], before) && Takes(before, events[n], y);
      ReachableInv(events[..n], before);
      StepKeepsInv(before, events[n]);
    }
  }

  /**
   Checkpoint safety, over every interleaving of steps, endings, resets, resumptions,
   delegations and kills, also in a clean-up: each checkpoint is exactly its session's
   state after its last completed step and names that session, and a session that
   finished cleanly, or reset and reached its clean-up, has none.
   */
  lemma CheckpointsAreCompletedSteps(events: seq<Event>, y: Sys, s: Sid)
    requires Reaches(events, y)
    ensures s in y.disk ==>
              && s in y.sessions && y.sessions[s].completed != [] && y.disk[s].checkpoint.session == s
              && y.disk[s].checkpoint == y.sessions[s].completed[|y.sessions[s].completed| - 1]
              && !LeavesNone(y.sessions[s])
  {
    ReachableInv(events, y);
  }

  /**
   No progress is lost: a lineage that completed a step and was not finished
   cleanly still has a checkpoint, if each continuation reaches one.
   */
  lemma {:induction false} ProgressIsResumable(events: seq<Event>, y: Sys)
    requires ReachesWithProgress(events, y)
    ensures Inv(y) && NothingLost(y)
  {
    if events != [] {
      var n := |events| - 1;
      var before :| ReachesWithProgress(events[..n], before) && Takes(before, events[n], y)
                    && ContinuationsReachCheckpoint(before, events[n]);
      ProgressIsResumable(events[..n], before);
      StepLosesNothing(before, events[n]);
    }
  }

  /** A resumed run starts exactly where its source stopped: in the state after the source's last completed step. */
  lemma ResumesWhereSourceStopped(events: seq<Event>, y: Sys, s: Sid)
    requires Reaches(events, y) && s in y.sessions && y.sessions[s].resumedFrom.Some?
    ensures var source := y.sessions[s].resumedFrom.value;
            && source in y.sessions && y.sessions[source].completed != []
            && y.sessions[s].start == Some(y.sessions[source].completed[|y.sessions[source].completed| - 1])
  {
    ReachableInv(events, y);
    assert StartOk(y, s);
  }

  /** The newest checkpoint is the process's own run's exactly if no delegated run is resumable. */
  lemma NewestIsOwnIff(y: Sys, listing: seq<Sid>, newest: Sid)
    requires Inv(y) && y.stack != [] && MainRun(y) in y.disk && !y.sessions[MainRun(y)].didReset
    requires IsNewest(y.disk, listing, newest) && forall s :: s in y.disk ==> s in listing
    ensures newest == MainRun(y) <==> !exists d :: d in y.delegated && Resumable(y, d)
    ensures newest != MainRun(y) ==> y.sessions[newest].root in y.delegated
  {
    var own := MainRun(y);
    if newest != own { assert Member(y, newest, y.sessions[newest].root); }
    if d :| newest == own && d in y.delegated && Resumable(y, d) {
      var t: Sid :| Member(y, t, d) && t in y.disk;
      assert own in listing && t in listing && y.disk[t].mtime <= y.disk[own].mtime;
      OwnLineage(y);
      assert false;
    }
  }

  /** The process's own run is not of a lineage it delegated to. */
  lemma OwnLineage(y: Sys)
    requires Inv(y) && y.stack != []
    ensures y.sessions[MainRun(y)].root !in y.delegated
  {
    assert OnStackOk(y, y.main - 1);
  }

  /**
   Killed at any point after its first completed step, the process's own run is what the
   search for the newest checkpoint returns if and only if no run it has delegated to since
   its last completed step has left a checkpoint; otherwise the search returns such a run.
   */
  lemma KilledRunIsNewestIff(events: seq<Event>, y: Sys, listing: seq<Sid>, newest: Sid)
    requires Reaches(events, y) && Known(y) && y.stack != []
    requires y.sessions[MainRun(y)].completed != [] && !y.sessions[MainRun(y)].didReset
    requires IsNewest(Step(y, Kill).disk, listing, newest) && forall s :: s in y.disk ==> s in listing
    ensures newest == MainRun(y) <==> !exists d :: d in y.delegated && Resumable(y, d)
    ensures newest != MainRun(y) ==> newest in y.sessions && y.sessions[newest].root in y.delegated
  {
    ReachableInv(events, y);
    assert OnStackOk(y, y.main - 1);
    NewestIsOwnIff(y, listing, newest);
  }

  // ------------------------------------------------------ where it stops short

  /** The runs of the innermost lineage of the stack. */
  function Innermost(y: Sys): seq<Sid>
    requires y.main <= |y.stack|
  {
    y.stack[Base(y)..]
  }

  /** The clean-ups that follow at once, innermost first, each after the continuation it reset into. */
  ghost function UnwindAll(y: Sys): Sys
    requires Inv(y)
    decreases |y.stack|
  {
    if !Unwinding(y) then y
    else
      StepKeepsInv(y, Unwind);
      UnwindAll(Step(y, Unwind))
  }

  /** A run ends, and with it every run that had reset into it. */
  ghost function EndAll(y: Sys, outcome: Outcome): Sys
    requires Inv(y) && Enabled(y, EndRun(outcome))
  {
    StepKeepsInv(y, EndRun(outcome));
    UnwindAll(Step(y, EndRun(outcome)))
  }

  /**
   Unwinding deletes the checkpoints of the innermost lineage's runs on the stack and, unless
   a failure is passed on, of the run it was resumed from.
   */
  ghost predicate Unwound(y: Sys, t: Sid)
    requires Known(y)
  {
    && t in y.disk
    && (Unwinding(y) ==>
          && t !in Innermost(y)
          && (y.sessions[y.stack[Base(y)]].resumedFrom == Some(t) ==> y.sessions[Top(y)].failed))
  }

  lemma InnermostPops(y: Sys, y': Sys)
    requires Known(y) && Known(y') && y.stack != [] && y'.stack == y.stack[..|y.stack| - 1]
    requires y'.main == if y.main == |y.stack| then y.main - 1 else y.main
    ensures !Begins(y, |y.stack| - 1) ==> Base(y') == Base(y) && Innermost(y) == Innermost(y') + [Top(y)]
    ensures Begins(y, |y.stack| - 1) ==> Base(y) == |y.stack| - 1 && Innermost(y) == [Top(y)]
  {
  }

  /** The run that reset into a continuation is next to clean up, and knows whether it failed. */
  lemma ContinuationHandsBack(y: Sys, outcome: Outcome)
    requires Inv(y) && y.stack != [] && !Begins(y, |y.stack| - 1)
    ensures var y' := EndTop(y, outcome);
            Known(y') && Unwinding(y') && (y'.sessions[Top(y')].failed <==> outcome.Failure?)
  {
    assert OnStackOk(y, |y.stack| - 1) && OnStackOk(y, |y.stack| - 2);
    assert y.stack[|y.stack| - 2] != Top(y);
    PopKeepsStack(y, outcome);
  }

  lemma FirstStays(y: Sys, outcome: Outcome)
    requires Inv(y) && y.stack != [] && !Begins(y, |y.stack| - 1)
    ensures var y', first := EndTop(y, outcome), y.stack[Base(y)];
            && Known(y') && y'.stack != [] && y'.stack[Base(y')] == first
            && y'.sessions[first].resumedFrom == y.sessions[first].resumedFrom
            && Innermost(y) == Innermost(y') + [Top(y)] && Top(y) !in Innermost(y')
            && y.sessions[first].resumedFrom != Some(Top(y))
  {
    PopKeepsStack(y, outcome);
    InnermostPops(y, EndTop(y, outcome));
    assert OnStackOk(y, Base(y)) && Top(y) in y.stack;
  }

  lemma UnwindFirst(y: Sys, t: Sid)
    requires Inv(y) && Unwinding(y) && Begins(y, |y.stack| - 1)
    ensures Known(Step(y, Unwind)) && (Unwound(Step(y, Unwind), t) <==> Unwound(y, t))
  {
    var y' := Step(y, Unwind);
    InnermostPops(y, y');
    assert OnStackOk(y, |y.stack| - 1);
    if y'.stack != [] {
      assert OnStackOk(y, |y.stack| - 2) && y.stack[|y.stack| - 2] != Top(y);
      assert !Unwinding(y');
    }
  }

  lemma UnwindContinuation(y: Sys, t: Sid)
    requires Inv(y) && Unwinding(y) && !Begins(y, |y.stack| - 1)
    ensures Known(Step(y, Unwind)) && (Unwound(Step(y, Unwind), t) <==> Unwound(y, t))
  {
    ContinuationHandsBack(y, UnwindOutcome(y));
    FirstStays(y, UnwindOutcome(y));
    assert OnStackOk(y, |y.stack| - 1);
  }

  lemma UnwindOne(y: Sys, t: Sid)
    requires Inv(y) && Unwinding(y)
    ensures var y' := Step(y, Unwind);
            Known(y') && (Unwound(y', t) <==> Unwound(y, t)) && forall root :: Member(y', t, root) <==> Member(y, t, root)
  {
    if Begins(y, |y.stack| - 1) { UnwindFirst(y, t); } else { UnwindContinuation(y, t); }
  }

  lemma {:induction false} UnwindAllKeeps(y: Sys, t: Sid)
    requires Inv(y)
    ensures t in UnwindAll(y).disk <==> Unwound(y, t)
    ensures forall root :: Member(UnwindAll(y), t, root) <==> Member(y, t, root)
    decreases |y.stack|
  {
    if Unwinding(y) {
      UnwindOne(y, t);
      StepKeepsInv(y, Unwind);
      UnwindAllKeeps(Step(y, Unwind), t);
    }
  }

  /**
   What the end of the live run and the clean-ups that follow at once leave on disk: of the
   runs of its lineage on the stack only the innermost one's checkpoint, and only if it did
   not finish cleanly; the checkpoint the process was resumed from, unless the run finished
   cleanly or was a continuation that did not fail; and every other checkpoint.
   */
  ghost predicate Left(y: Sys, outcome: Outcome, t: Sid)
    requires Known(y) && y.stack != []
  {
    && t in y.disk
    && (t in Innermost(y) ==> t == Top(y) && !outcome.Clean?)
    && (y.sessions[y.stack[Base(y)]].resumedFrom == Some(t) ==>
          if |Innermost(y)| == 1 then !outcome.Clean? else outcome.Failure?)
  }

  lemma EndOfFirst(y: Sys, outcome: Outcome, t: Sid)
    requires Inv(y) && Enabled(y, EndRun(outcome)) && Begins(y, |y.stack| - 1)
    requires Inv(EndTop(y, outcome))
    ensures Unwound(EndTop(y, outcome), t) <==> Left(y, outcome, t)
  {
    var y' := EndTop(y, outcome);
    InnermostPops(y, y');
    if y'.stack != [] {
      assert OnStackOk(y, |y.stack| - 1) && OnStackOk(y, |y.stack| - 2);
      assert !Unwinding(y');
    }
  }

  lemma EndOfContinuation(y: Sys, outcome: Outcome, t: Sid)
    requires Inv(y) && Enabled(y, EndRun(outcome)) && !Begins(y, |y.stack| - 1)
    ensures Known(EndTop(y, outcome)) && (Unwound(EndTop(y, outcome), t) <==> Left(y, outcome, t))
  {
    ContinuationHandsBack(y, outcome);
    FirstStays(y, outcome);
    assert OnStackOk(y, |y.stack| - 1);
  }

  lemma EndThenUnwind(y: Sys, outcome: Outcome, t: Sid)
    requires Inv(y) && Enabled(y, EndRun(outcome))
    ensures var y' := Step(y, EndRun(outcome));
            Known(y') && (Unwound(y', t) <==> Left(y, outcome, t)) && forall root :: Member(y', t, root) <==> Member(y, t, root)
  {
    StepKeepsInv(y, EndRun(outcome));
    if Begins(y, |y.stack| - 1) { EndOfFirst(y, outcome, t); } else { EndOfContinuation(y, outcome, t); }
  }

  /**
   The exact condition, for a run with any number of resets behind it, delegated or not, and
   any way its innermost continuation ends: after the clean-ups that follow a lineage is
   resumable if and only if it has a checkpoint that they leave.
   */
  lemma EndKeepsIff(y: Sys, outcome: Outcome, root: Sid)
    requires Inv(y) && Enabled(y, EndRun(outcome))
    ensures Resumable(EndAll(y, outcome), root) <==> exists t: Sid :: Member(y, t, root) && Left(y, outcome, t)
  {
    StepKeepsInv(y, EndRun(outcome));
    var y' := Step(y, EndRun(outcome));
    forall t: Sid
      ensures (t in UnwindAll(y').disk <==> Left(y, outcome, t)) && (Member(UnwindAll(y'), t, root) <==> Member(y, t, root))
    {
      EndThenUnwind(y, outcome, t);
      UnwindAllKeeps(y', t);
    }
  }

  lemma {:induction false} SameRoot(y: Sys, i: nat)
    requires Inv(y) && y.stack != [] && Base(y) <= i < |y.stack|
    ensures y.sessions[y.stack[i]].root == y.sessions[y.stack[Base(y)]].root
  {
    if i > Base(y) {
      assert OnStackOk(y, i);
      SameRoot(y, i - 1);
    }
  }

  /**
   A run that has reset and does not finish its task keeps its lineage resumable if and only
   if its innermost continuation completed a step, or another checkpoint is left.
   */
  lemma ResetKeepsIff(y: Sys, outcome: Outcome)
    requires Inv(y) && Enabled(y, EndRun(outcome)) && y.sessions[Top(y)].continues && !outcome.Clean?
    ensures var root := y.sessions[Top(y)].root;
            Resumable(EndAll(y, outcome), root) <==>
            y.sessions[Top(y)].completed != [] || exists t: Sid :: t != Top(y) && Member(y, t, root) && Left(y, outcome, t)
  {
    assert OnStackOk(y, |y.stack| - 1) && OnStackOk(y, Base(y));
    EndKeepsIff(y, outcome, y.sessions[Top(y)].root);
    if y.sessions[Top(y)].completed != [] { assert Left(y, outcome, Top(y)); }
  }

  /**
   A clean finish, after any number of resets, leaves its lineage without a checkpoint if and
   only if it had none besides those of its runs on the stack and the run it resumed from.
   */
  lemma CleanFinishClearsIff(y: Sys)
    requires Inv(y) && Enabled(y, EndRun(Clean))
    ensures var root := y.sessions[Top(y)].root;
            !Resumable(EndAll(y, Clean), root) <==>
            forall t: Sid :: Member(y, t, root) && t in y.disk ==>
              t in Innermost(y) || y.sessions[y.stack[Base(y)]].resumedFrom == Some(t)
  {
    EndKeepsIff(y, Clean, y.sessions[Top(y)].root);
    forall t: Sid
      ensures Left(y, Clean, t) <==> t in y.disk && t !in Innermost(y) && y.sessions[y.stack[Base(y)]].resumedFrom != Some(t)
    {
    }
  }

  lemma Then(events: seq<Event>, y: Sys, e: Event) returns (events': seq<Event>, y': Sys)
    requires Reaches(events, y) && Known(y) && Enabled(y, e)
    ensures Reaches(events', y') && y' == Step(y, e)
  {
    events', y' := events + [e], Step(y, e);
    assert events'[..|events|] == events && Takes(y, e, y');
  }

  /** A session that has completed one step. */
  function Stepped(root: Sid, resumedFrom: Option<Sid>, start: Option<State>, state: State): Session {
    Session(root, resumedFrom, start, false, [state], false, false, None)
  }

  /** One session, one completed step, still running. */
  function OneStepIn(state: State): Sys {
    Sys(map[1 := Stored(state, 1)], 1, map[1 := Stepped(1, None, None, state)], [1], 1, {})
  }

  lemma ReachOneStepIn(state: State) returns (events: seq<Event>, y: Sys)
    requires state.session == 1
    ensures Reaches(events, y) && y == OneStepIn(state)
  {
    events, y := Then([], INIT, Launch(1));
    events, y := Then(events, y, CompleteStep(state));
    assert y.sessions[1].completed == [state];
    assert y.disk == OneStepIn(state).disk && y.sessions == OneStepIn(state).sessions;
  }

  /** Session 1 has reset into session 2 after its first step. */
  function ResetOnce(state: State): Sys {
    OneStepIn(state).(sessions := map[1 := Stepped(1, None, None, state).(didReset := true), 2 := Fresh(1, true)], stack := [1, 2], main := 2)
  }

  lemma ReachResetOnce(state: State) returns (events: seq<Event>, y: Sys)
    requires state.session == 1
    ensures Reaches(events, y) && y == ResetOnce(state)
  {
    events, y := ReachOneStepIn(state);
    events, y := Then(events, y, ResetInto(2));
    assert y.sessions == ResetOnce(state).sessions && y.stack == [1, 2];
  }

  /** A run that completed a step, reset, and whose continuation failed at once: nothing to resume from. */
  lemma FailedContinuationLosesProgress(state: State) returns (events: seq<Event>, y: Sys)
    requires state.session == 1
    ensures Reaches(events, y) && Progressed(y, 1) && !Superseded(y, 1) && !Resumable(y, 1)
  {
    events, y := ReachResetOnce(state);
    events, y := Then(events, y, EndRun(Failure));
    events, y := Then(events, y, Unwind);
    assert y.disk == map[];
    assert Member(y, 1, 1) && y.sessions[1].completed == [state];
  }

  /** Session 2, resumed from killed session 1, has completed a step and is killed too. */
  function TwoKilled(a: State, b: State): Sys {
    Sys(map[1 := Stored(a, 1), 2 := Stored(b, 2)], 2,
        map[1 := Stepped(1, None, None, a), 2 := Stepped(1, Some(1), Some(a), b)], [], 0, {})
  }

  lemma ReachTwoKilled(a: State, b: State) returns (events: seq<Event>, y: Sys)
    requires a.session == 1 && b.session == 2
    ensures Reaches(events, y) && y == TwoKilled(a, b)
  {
    events, y := ReachOneStepIn(a);
    events, y := Then(events, y, Kill);
    events, y := Then(events, y, ResumeFrom(2, 1));
    assert y == OneStepIn(a).(sessions := y.sessions, stack := [2]);
    events, y := Then(events, y, CompleteStep(b));
    assert y.sessions[2].completed == [b];
    assert y.disk == TwoKilled(a, b).disk && y.sessions == TwoKilled(a, b).sessions && y.clock == 2;
    events, y := Then(events, y, Kill);
  }

  /** Resumed twice, then finished: the first session's checkpoint is still there to be resumed. */
  lemma SourceOfSourceStays(a: State, b: State) returns (events: seq<Event>, y: Sys)
    requires a.session == 1 && b.session == 2
    ensures Reaches(events, y) && Superseded(y, 1) && Resumable(y, 1)
  {
    events, y := ReachTwoKilled(a, b);
    events, y := Then(events, y, ResumeFrom(3, 2));
    events, y := Then(events, y, EndRun(Clean));
    assert Member(y, 3, 1) && Member(y, 1, 1) && 1 in y.disk;
  }

  /** Session 1 delegates to session 2 in its second step; session 2 has completed a step. */
  function Delegating(a: State, b: State): Sys {
    Sys(map[1 := Stored(a, 1), 2 := Stored(b, 2)], 2,
        map[1 := Stepped(1, None, None, a), 2 := Stepped(2, None, None, b)], [1, 2], 1, {2})
  }

  lemma ReachDelegating(a: State, b: State) returns (events: seq<Event>, y: Sys)
    requires a.session == 1 && b.session == 2
    ensures Reaches(events, y) && y == Delegating(a, b)
  {
    events, y := ReachOneStepIn(a);
    events, y := Then(events, y, Delegate(2));
    assert y.stack == [1, 2];
    events, y := Then(events, y, CompleteStep(b));
    assert y.sessions[2].completed == [b];
    assert y.disk == Delegating(a, b).disk && y.sessions == Delegating(a, b).sessions;
  }

  /**
   A run that delegates and is killed before its step completes is not what the search
   returns: the delegated run stopped at its budget and left a newer checkpoint.
   */
  lemma DelegationHidesKilledRun(a: State, b: State) returns (events: seq<Event>, y: Sys)
    requires a.session == 1 && b.session == 2
    ensures Reaches(events, y) && y.stack == [1] && 1 in y.sessions && 2 in y.sessions
    ensures y.sessions[1].completed == [a] && !y.sessions[1].didReset
    ensures IsNewest(Step(y, Kill).disk, [1, 2], 2) && y.sessions[2].ended == Some(Other)
  {
    events, y := ReachDelegating(a, b);
    events, y := Then(events, y, EndRun(Other));
    assert y.disk == Delegating(a, b).disk;
  }
}

/**
 Resume checkpoints on disk, and the clean-up an agent run does when it ends.
 */
module Checkpoints {
  import opened Prelude

  /** Session ids are unique; numbers stand for them. */
  type Sid = nat

  datatype Checkpoint = Checkpoint(session: Sid, step: int, promptTokens: int, messages: seq<string>, counters: map<string, int>)

  datatype Stored = Stored(checkpoint: Checkpoint, mtime: nat)

  datatype CheckpointError = Missing(session: Sid)

  ghost predicate IsNewest(finals: map<Sid, Stored>, listing: seq<Sid>, s: Sid) {
    && s in listing && s in finals
    && forall t :: t in listing && t in finals ==> finals[t].mtime <= finals[s].mtime
  }

  class CheckpointStore {
    var finals: map<Sid, Stored>
    var temps: map<Sid, Checkpoint>
    var clock: nat

    constructor ()
      ensures finals == map[] && temps == map[]
    {
      finals, temps, clock := map[], map[], 0;
    }

    /** No checkpoint is newer than the clock. */
    ghost predicate Valid()
      reads this
    {
      forall s :: s in finals ==> finals[s].mtime <= clock
    }

    /** Writes the temporary file, then renames it into place; a kill in between changes no final file. */
    method Save(s: Sid, c: Checkpoint, killedMidWrite: bool)
      requires Valid()
      modifies this
      ensures Valid()
      ensures finals == if killedMidWrite then old(finals) else old(finals)[s := Stored(c, old(clock) + 1)]
      ensures !killedMidWrite ==> forall t :: t in finals && t != s ==> finals[t].mtime < finals[s].mtime
    {
      temps := temps[s := c];
      if killedMidWrite { return; }
      clock := clock + 1;
      finals := finals[s := Stored(c, clock)];
      temps := temps - {s};
    }

    /** Best-effort delete; nothing happens when there is no checkpoint. */
    method Remove(s: Sid)
      requires Valid()
      modifies this`finals
      ensures Valid() && finals == old(finals) - {s}
    {
      finals := finals - {s};
    }

    /** The checkpoint as last saved, or an error that names the session. */
    method Load(s: Sid) returns (r: Result<Checkpoint, CheckpointError>)
      ensures r == if s in finals then Ok(finals[s].checkpoint) else Err(Missing(s))
    {
      r := if s in finals then Ok(finals[s].checkpoint) else Err(Missing(s));
    }

    /** The newest checkpoint in a directory listing, or nothing if no listed session has one. */
    method FindLastResumable(listing: seq<Sid>) returns (newest: Option<Sid>)
      ensures newest.None? <==> forall s :: s in listing ==> s !in finals
      ensures newest.Some? ==> IsNewest(finals, listing, newest.value)
    {
      newest := None;
      for i := 0 to |listing|
        invariant newest.None? <==> forall s :: s in listing[..i] ==> s !in finals
        invariant newest.Some? ==> IsNewest(finals, listing[..i], newest.value)
      {
        var child := listing[i];
        if child !in finals { continue; }
        if newest.None? || finals[child].mtime > finals[newest.value].mtime {
          newest := Some(child);
        }
      }
    }
  }

  /** How a run ended: the model finished it, an unrecoverable LLM failure, or anything else. */
  datatype Outcome = Clean | Failure | Other

  /** Which checkpoints a run's final clean-up deletes. */
  function Dropped(s: Sid, resumedFrom: Option<Sid>, didContextReset: bool, outcome: Outcome): set<Sid> {
    var source := if resumedFrom.Some? then {resumedFrom.value} else {};
    if didContextReset then {s} + (if outcome.Failure? then {} else source)
    else if outcome.Clean? then {s} + source
    else {}
  }

  const CLEAN_FINISH_REASONS: set<string> := {"stop", "exit", "quit"}

  class AgentRun {
    const session: Sid
    const resumedFrom: Option<Sid>
    /** The state a resumed run starts from; a new run has none. */
    const start: Option<Checkpoint>
    var didContextReset: bool
    var failed: bool
    var stopReason: string

    constructor (session: Sid, resumedFrom: Option<Sid>, start: Option<Checkpoint>)
      ensures this.session == session && this.resumedFrom == resumedFrom && this.start == start
      ensures !didContextReset && !failed && stopReason == "max_steps"
    {
      this.session, this.resumedFrom, this.start := session, resumedFrom, start;
      didContextReset, failed, stopReason := false, false, "max_steps";
    }

    /**
     A new run from the checkpoint of a dead one. The run it links back to is the one named
     inside the checkpoint. Without a checkpoint nothing is built and nothing touched.
     */
    static method FromCheckpoint(session: Sid, store: CheckpointStore, source: Sid) returns (r: Result<AgentRun, CheckpointError>)
      ensures r.Ok? <==> source in store.finals
      ensures r.Err? ==> r.error == Missing(source)
      ensures r.Ok? ==>
                && var run, c := r.value, store.finals[source].checkpoint;
                fresh(run) && run.session == session && run.resumedFrom == Some(c.session) && run.start == Some(c)
                && !run.didContextReset && !run.failed
    {
      var loaded := store.Load(source);
      match loaded
      case Err(e) => return Err(e);
      case Ok(c) =>
        var run := new AgentRun(session, Some(c.session), Some(c));
        return Ok(run);
    }

    function HowEnded(): Outcome
      reads this
    {
      if failed then Failure else if stopReason in CLEAN_FINISH_REASONS then Clean else Other
    }

    /** A reset run hands over to its continuation and takes over a failure of it. */
    method HandleContextReset(continuationFailed: bool)
      modifies this
      ensures didContextReset && failed == (old(failed) || continuationFailed) && stopReason == old(stopReason)
    {
      didContextReset := true;
      if continuationFailed { failed := true; }
    }

    /** The ordered clean-up rules at the end of execute. */
    method CleanUp(store: CheckpointStore)
      requires store.Valid()
      modifies store
      ensures store.Valid()
      ensures store.finals == old(store.finals) - Dropped(session, resumedFrom, didContextReset, HowEnded())
      ensures var finished := !failed && stopReason in CLEAN_FINISH_REASONS;
              store.finals == old(store.finals)
                - (if didContextReset || finished then {session} else {})
                - (if resumedFrom.Some? && !failed && (didContextReset || finished) then {resumedFrom.value} else {})
    {
      var cleanFinish := !failed && stopReason in CLEAN_FINISH_REASONS;
      if didContextReset {
        store.Remove(session);
        if resumedFrom.Some? && !failed { store.Remove(resumedFrom.value); }
      } else if cleanFinish {
        store.Remove(session);
        if resumedFrom.Some? { store.Remove(resumedFrom.value); }
      }
    }

    /**
     A run that reset leaves no checkpoint of its own, whatever became of its continuation;
     the one it was resumed from survives exactly when the continuation failed, and no other
     session's is touched.
     */
    method FinishAfterReset(store: CheckpointStore, continuationFailed: bool)
      requires store.Valid() && !failed && resumedFrom != Some(session)
      modifies this, store
      ensures store.Valid() && session !in store.finals
      ensures forall s :: s != session && Some(s) != resumedFrom ==>
                (s in store.finals <==> s in old(store.finals)) && (s in store.finals ==> store.finals[s] == old(store.finals)[s])
      ensures resumedFrom.Some? ==>
                (resumedFrom.value in store.finals <==> resumedFrom.value in old(store.finals) && continuationFailed)
    {
      HandleContextReset(continuationFailed);
      CleanUp(store);
    }
  }
}

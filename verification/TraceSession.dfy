/**
 Whole sessions: any interleaving of edits of live conversations and recorded
 calls, against a description of the same session without heap or identity.
 */
module TraceSession {
  import opened Prelude
  import opened TraceCodec
  import opened TraceRecorder

  /** What a session does to its conversations between and around calls. */
  datatype Op =
    | Append(thread: string, body: Value)
    | Splice(thread: string, index: nat, body: Value)
    | Reset(thread: string)
    | Copy(thread: string, from: string)
    | Call(thread: string, kind: string, answered: bool)

  // ------------------------------------------------------- the session on values

  /** An answered call and the messages it was given. */
  datatype Given = Given(kind: string, messages: seq<Value>)

  function Thread(threads: map<string, seq<Value>>, name: string): seq<Value> {
    if name in threads then threads[name] else []
  }

  function Edited(threads: map<string, seq<Value>>, op: Op): map<string, seq<Value>> {
    var now := Thread(threads, op.thread);
    match op
    case Append(t, body) => threads[t := now + [body]]
    case Splice(t, index, body) => if index < |now| then threads[t := now[index := body]] else threads
    case Reset(t) => threads[t := []]
    case Copy(t, from) => threads[t := Thread(threads, from)]
    case Call(_, _, _) => threads
  }

  function ThreadsAfter(ops: seq<Op>): map<string, seq<Value>> {
    if ops == [] then map[] else Edited(ThreadsAfter(ops[..|ops| - 1]), ops[|ops| - 1])
  }

  /** The answered calls of a session, in order, each with what its conversation said then. */
  function AnsweredIn(ops: seq<Op>): seq<Given> {
    if ops == [] then [] else
      var before, op := ops[..|ops| - 1], ops[|ops| - 1];
      AnsweredIn(before) +
      if op.Call? && op.answered then [Given(op.kind, Thread(ThreadsAfter(before), op.thread))] else []
  }

  // ------------------------------------------------------------- the live lists

  ghost predicate Says(c: Conversation, messages: seq<Value>)
    reads c, c.messages
  {
    Serialise(c.messages) == messages
  }

  ghost function Owned(live: map<string, Conversation>): set<Message>
    reads live.Values
  {
    set n, i | n in live && 0 <= i < |live[n].messages| :: live[n].messages[i]
  }

  ghost predicate OwnsAll(live: map<string, Conversation>, n: string)
    requires n in live
    reads live.Values
  {
    forall i :: 0 <= i < |live[n].messages| ==> live[n].messages[i] in Owned(live)
  }

  /** The live lists are distinct objects, and each says what its thread says. */
  ghost predicate Tracks(live: map<string, Conversation>, threads: map<string, seq<Value>>)
    reads live.Values, Owned(live)
  {
    && (forall n :: n in live ==> OwnsAll(live, n) && Says(live[n], Thread(threads, n)))
    && (forall n :: n !in live ==> Thread(threads, n) == [])
    && (forall m, n :: m in live && n in live && m != n ==> live[m] != live[n])
  }

  /** The live list of a name; a new, empty one if there is none yet. */
  method ThreadOf(live: map<string, Conversation>, name: string, ghost threads: map<string, seq<Value>>)
    returns (live': map<string, Conversation>)
    requires Tracks(live, threads)
    ensures Tracks(live', threads) && name in live'
    ensures forall n :: n in live' ==> (n in live && live'[n] == live[n]) || fresh(live'[n])
    ensures forall n :: n in live ==> n in live'
  {
    live' := live;
    if name !in live {
      var c := new Conversation();
      live' := live[name := c];
    }
  }

  /** A list that says something new, while the others say what they said. */
  lemma Retrack(live: map<string, Conversation>, name: string, threads: map<string, seq<Value>>, now: seq<Value>)
    requires name in live && Says(live[name], now)
    requires forall n :: n in live && n != name ==> Says(live[n], Thread(threads, n))
    requires forall n :: n !in live ==> Thread(threads, n) == []
    requires forall m, n :: m in live && n in live && m != n ==> live[m] != live[n]
    ensures Tracks(live, threads[name := now])
  {
    forall n | n in live ensures OwnsAll(live, n) && Says(live[n], Thread(threads[name := now], n)) { }
  }

  method AppendSays(c: Conversation, body: Value, ghost messages: seq<Value>)
    requires Says(c, messages)
    modifies c
    ensures Says(c, messages + [body])
  {
    c.Append(body);
  }

  method SpliceSays(c: Conversation, index: nat, body: Value, ghost messages: seq<Value>)
    requires Says(c, messages) && index < |messages|
    modifies c
    ensures Says(c, messages[index := body])
  {
    c.Splice(index, body);
  }

  method CopySays(c: Conversation, source: Conversation, ghost messages: seq<Value>)
    requires Says(source, messages)
    modifies c
    ensures Says(c, messages)
  {
    c.CopyFrom(source);
  }

  method ResetTo(live: map<string, Conversation>, name: string, ghost threads: map<string, seq<Value>>)
    returns (live': map<string, Conversation>)
    requires Tracks(live, threads)
    ensures Tracks(live', threads[name := []])
    ensures forall n :: n in live' ==> (n in live && live'[n] == live[n]) || fresh(live'[n])
  {
    var empty := new Conversation();
    live' := live[name := empty];
  }

  method AppendTo(live: map<string, Conversation>, t: string, body: Value, ghost threads: map<string, seq<Value>>)
    requires Tracks(live, threads) && t in live
    modifies live[t]
    ensures Tracks(live, threads[t := Thread(threads, t) + [body]])
  {
    AppendSays(live[t], body, Thread(threads, t));
    Retrack(live, t, threads, Thread(threads, t) + [body]);
  }

  method SpliceIn(live: map<string, Conversation>, t: string, index: nat, body: Value, ghost threads: map<string, seq<Value>>)
    requires Tracks(live, threads) && t in live
    modifies live[t]
    ensures Tracks(live, if index < |Thread(threads, t)| then threads[t := Thread(threads, t)[index := body]] else threads)
  {
    assert Says(live[t], Thread(threads, t));
    if index < |live[t].messages| {
      SpliceSays(live[t], index, body, Thread(threads, t));
      Retrack(live, t, threads, Thread(threads, t)[index := body]);
    }
  }

  method CopyTo(live: map<string, Conversation>, t: string, from: string, ghost threads: map<string, seq<Value>>)
    requires Tracks(live, threads) && t in live && from in live
    modifies live[t]
    ensures Tracks(live, threads[t := Thread(threads, from)])
  {
    CopySays(live[t], live[from], Thread(threads, from));
    Retrack(live, t, threads, Thread(threads, from));
  }

  method Edit(live: map<string, Conversation>, op: Op, ghost threads: map<string, seq<Value>>)
    returns (live': map<string, Conversation>)
    requires Tracks(live, threads) && !op.Call? && op.thread in live
    modifies live[op.thread]
    ensures Tracks(live', Edited(threads, op))
    ensures forall n :: n in live' ==> (n in live && live'[n] == live[n]) || fresh(live'[n])
  {
    live' := live;
    match op
    case Append(t, body) => AppendTo(live, t, body, threads);
    case Splice(t, index, body) => SpliceIn(live, t, index, body, threads);
    case Reset(t) => live' := ResetTo(live, t, threads);
    case Copy(t, from) =>
      live' := ThreadOf(live, from, threads);
      CopyTo(live', t, from, threads);
  }

  method EditThread(live: map<string, Conversation>, op: Op, ghost threads: map<string, seq<Value>>)
    returns (live': map<string, Conversation>)
    requires Tracks(live, threads) && !op.Call?
    modifies live.Values
    ensures Tracks(live', Edited(threads, op))
    ensures forall n :: n in live' ==> (n in live && live'[n] == live[n]) || fresh(live'[n])
  {
    live' := ThreadOf(live, op.thread, threads);
    live' := Edit(live', op, threads);
  }

  // -------------------------------------------------------------- the session

  ghost predicate LoggedAt(log: seq<Emission<Message>>, given: seq<Given>, j: nat)
    requires j < |log| == |given|
  {
    log[j].call == j + 1 && log[j].kind == given[j].kind && Bodies(log[j].items) == given[j].messages
  }

  /** The log holds the answered calls, numbered from one. */
  ghost predicate Logged(log: seq<Emission<Message>>, given: seq<Given>) {
    |log| == |given| && forall j :: 0 <= j < |log| ==> LoggedAt(log, given, j)
  }

  lemma LogGrows(log: seq<Emission<Message>>, given: seq<Given>, e: Emission<Message>, g: Given)
    requires Logged(log, given) && e.call == |log| + 1 && e.kind == g.kind && Bodies(e.items) == g.messages
    ensures Logged(log + [e], given + [g])
  {
    forall j | 0 <= j < |log| + 1 ensures LoggedAt(log + [e], given + [g], j) {
      if j < |log| { assert LoggedAt(log, given, j); }
    }
  }

  method Ask(llm: Llm, c: Conversation, kind: string, answered: bool, ghost given: seq<Given>, ghost messages: seq<Value>)
    requires llm.recorder.Valid() && llm.recorder.Unedited() && llm.Numbered()
    requires Says(c, messages) && Logged(llm.recorder.log, given)
    modifies llm, llm.recorder
    ensures llm.recorder.Valid() && llm.recorder.Unedited() && llm.Numbered()
    ensures Logged(llm.recorder.log, given + if answered then [Given(kind, messages)] else [])
  {
    ghost var log := llm.recorder.log;
    var ok := llm.ChatCompletion(c, kind, answered);
    if answered {
      LogGrows(log, given, Emission(|log| + 1, kind, c.Items()), Given(kind, messages));
    } else {
      assert llm.recorder.log == log && given + [] == given;
    }
  }

  /** Row j, read back, is the j-th answered call with exactly what it was given. */
  ghost predicate ReadsAs(rows: seq<Row>, given: seq<Given>, j: nat)
    requires j < |rows| == |given|
  {
    var r := Resolve(rows)[j];
    && r.LlmCall? && r.call == j + 1 && r.kind == given[j].kind
    && (r.kind in FULL_PAYLOAD_KINDS ==> r.messages == Some(given[j].messages))
  }

  lemma LoggedIsUnique(log: seq<Emission<Message>>, given: seq<Given>)
    requires Logged(log, given)
    ensures UniqueCalls(log)
  {
    forall a, b | 0 <= a < |log| && 0 <= b < |log| && log[a].call == log[b].call ensures a == b {
      assert LoggedAt(log, given, a) && LoggedAt(log, given, b);
    }
  }

  /** Reading back changes no row's call number or kind. */
  lemma RowKeepsIdentity(log: seq<Emission<Message>>, j: nat)
    requires j < |log|
    ensures var r := Resolve(Encode(log))[j]; r.LlmCall? && r.call == log[j].call && r.kind == log[j].kind
  {
    EncodeAt(log, j);
    ResolveAt(Encode(log), j);
  }

  lemma LoggedReadsBack(log: seq<Emission<Message>>, given: seq<Given>, j: nat)
    requires Logged(log, given) && UniqueCalls(log) && Faithful(log) && j < |log|
    ensures ReadsAs(Encode(log), given, j)
  {
    assert LoggedAt(log, given, j);
    RowKeepsIdentity(log, j);
    RoundTripAt(log, j);
  }

  lemma NextOp(ops: seq<Op>, i: nat)
    requires i < |ops|
    ensures ThreadsAfter(ops[..i + 1]) == Edited(ThreadsAfter(ops[..i]), ops[i])
    ensures AnsweredIn(ops[..i + 1]) == AnsweredIn(ops[..i]) +
              if ops[i].Call? && ops[i].answered then [Given(ops[i].kind, Thread(ThreadsAfter(ops[..i]), ops[i].thread))] else []
  {
    assert ops[..i + 1][..i] == ops[..i];
  }

  method Do(live: map<string, Conversation>, llm: Llm, op: Op, ghost threads: map<string, seq<Value>>, ghost given: seq<Given>)
    returns (live': map<string, Conversation>)
    requires llm.recorder.Valid() && llm.recorder.Unedited() && llm.Numbered()
    requires Tracks(live, threads) && Logged(llm.recorder.log, given)
    modifies live.Values, llm, llm.recorder
    ensures llm.recorder.Valid() && llm.recorder.Unedited() && llm.Numbered()
    ensures Tracks(live', Edited(threads, op))
    ensures Logged(llm.recorder.log, given + if op.Call? && op.answered then [Given(op.kind, Thread(threads, op.thread))] else [])
    ensures forall n :: n in live' ==> (n in live && live'[n] == live[n]) || fresh(live'[n])
  {
    if op.Call? {
      live' := ThreadOf(live, op.thread, threads);
      Ask(llm, live'[op.thread], op.kind, op.answered, given, Thread(threads, op.thread));
    } else {
      live' := EditThread(live, op, threads);
      assert given + [] == given;
    }
  }

  /**
   Every session: any sequence of appends, splices, resets, copies and calls of
   any kinds over any number of live lists. The rows it leaves, read back, are
   the answered calls in order with exactly the messages each was given, as the
   session on values says, though rows are decided by object identity.
   */
  method Session(ops: seq<Op>) returns (rows: seq<Row>)
    ensures |rows| == |AnsweredIn(ops)|
    ensures forall j :: 0 <= j < |rows| ==> ReadsAs(rows, AnsweredIn(ops), j)
  {
    var recorder := new Recorder();
    var llm := new Llm(recorder);
    var live: map<string, Conversation> := map[];
    for i := 0 to |ops|
      invariant fresh(recorder) && fresh(llm) && llm.recorder == recorder
      invariant forall n :: n in live ==> fresh(live[n])
      invariant recorder.Valid() && recorder.Unedited() && llm.Numbered()
      invariant Tracks(live, ThreadsAfter(ops[..i])) && Logged(recorder.log, AnsweredIn(ops[..i]))
    {
      NextOp(ops, i);
      live := Do(live, llm, ops[i], ThreadsAfter(ops[..i]), AnsweredIn(ops[..i]));
    }
    assert ops[..|ops|] == ops;
    rows := recorder.rows;
    recorder.UneditedIsAppendOrReplace();
    AppendOrReplaceIsFaithful(recorder.log);
    LoggedIsUnique(recorder.log, AnsweredIn(ops));
    forall j | 0 <= j < |rows| ensures ReadsAs(rows, AnsweredIn(ops), j) {
      LoggedReadsBack(recorder.log, AnsweredIn(ops), j);
    }
  }
}

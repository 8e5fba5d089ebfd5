/**
 The trace codec: the recorder logs each LLM call's conversation as a full
 snapshot or as a suffix against the last snapshot of the same kind, and the
 reader rebuilds the full conversations from the rows that survive on disk.
 */
module TraceCodec {
  import opened Prelude

  /** What one message serialises to. */
  datatype Value = Value(role: string, content: string)

  datatype DeltaRef = DeltaRef(baseCall: int, prefixLen: nat, suffix: seq<Value>)

  datatype Row =
    | LlmCall(call: int, kind: string, messages: Option<seq<Value>>, delta: Option<DeltaRef>)
    | OtherRow

  /** A list element at emit time: the message object and what it serialised to then. */
  datatype Item<+R> = Item(obj: R, body: Value)

  datatype Emission<+R> = Emission(call: int, kind: string, items: seq<Item<R>>)

  datatype Snapshot<+R> = Snapshot(call: int, objs: seq<R>)

  const FULL_PAYLOAD_KINDS: set<string> :=
    {"main", "handoff", "report", "tool_router", "tool_arg_correction",
     "artifact_query", "generator", "evaluator"}

  function Objs<R>(items: seq<Item<R>>): (r: seq<R>)
    ensures |r| == |items| && forall i :: 0 <= i < |r| ==> r[i] == items[i].obj
  {
    seq(|items|, i requires 0 <= i < |items| => items[i].obj)
  }

  function Bodies<R>(items: seq<Item<R>>): (r: seq<Value>)
    ensures |r| == |items| && forall i :: 0 <= i < |r| ==> r[i] == items[i].body
  {
    seq(|items|, i requires 0 <= i < |items| => items[i].body)
  }

  // ---------------------------------------------------------------- writing

  ghost predicate HasPayload<R>(e: Emission<R>) { e.kind in FULL_PAYLOAD_KINDS }

  /** The branch that emits a suffix only: every base object is still in place. */
  ghost predicate Extends<R>(last: map<string, Snapshot<R>>, e: Emission<R>) {
    e.kind in last && last[e.kind].objs <= Objs(e.items)
  }

  ghost function EncodeRow<R>(last: map<string, Snapshot<R>>, e: Emission<R>): Row {
    if !HasPayload(e) then
      LlmCall(e.call, e.kind, None, None)
    else if Extends(last, e) then
      var p := |last[e.kind].objs|;
      LlmCall(e.call, e.kind, None, Some(DeltaRef(last[e.kind].call, p, Bodies(e.items)[p..])))
    else
      LlmCall(e.call, e.kind, Some(Bodies(e.items)), None)
  }

  ghost function LastAfter<R>(log: seq<Emission<R>>): map<string, Snapshot<R>> {
    if log == [] then map[] else
      var before, e := LastAfter(log[..|log| - 1]), log[|log| - 1];
      if HasPayload(e) then before[e.kind := Snapshot(e.call, Objs(e.items))] else before
  }

  ghost function Encode<R>(log: seq<Emission<R>>): (rows: seq<Row>)
    ensures |rows| == |log|
  {
    if log == [] then [] else
      var before := log[..|log| - 1];
      Encode(before) + [EncodeRow(LastAfter(before), log[|log| - 1])]
  }

  // ---------------------------------------------------------------- reading

  function ResolveRow(snaps: map<int, seq<Value>>, row: Row): Row {
    if row.OtherRow? || row.delta.None? then row else
      var d := row.delta.value;
      if d.baseCall in snaps then
        var base := snaps[d.baseCall];
        var prefix := if d.prefixLen <= |base| then base[..d.prefixLen] else base;
        row.(messages := Some(prefix + d.suffix))
      else
        row.(messages := None)
  }

  function NoteRow(snaps: map<int, seq<Value>>, resolved: Row): map<int, seq<Value>> {
    if resolved.LlmCall? && resolved.messages.Some?
    then snaps[resolved.call := resolved.messages.value] else snaps
  }

  ghost function SnapsAfter(rows: seq<Row>): map<int, seq<Value>> {
    if rows == [] then map[] else
      var snaps := SnapsAfter(rows[..|rows| - 1]);
      NoteRow(snaps, ResolveRow(snaps, rows[|rows| - 1]))
  }

  ghost function Resolve(rows: seq<Row>): (r: seq<Row>)
    ensures |r| == |rows|
  {
    if rows == [] then [] else
      var before := rows[..|rows| - 1];
      Resolve(before) + [ResolveRow(SnapsAfter(before), rows[|rows| - 1])]
  }

  /** The reader's loop: rewrites each event's messages in place, in file order. */
  method ResolveMessageDeltas(events: array<Row>)
    modifies events
    ensures events[..] == Resolve(old(events[..]))
  {
    ghost var raw := events[..];
    var snaps: map<int, seq<Value>> := map[];
    for i := 0 to events.Length
      invariant snaps == SnapsAfter(raw[..i])
      invariant events[..i] == Resolve(raw[..i])
      invariant events[i..] == raw[i..]
    {
      assert events[i] == raw[i] by { assert events[i..][0] == raw[i..][0]; }
      assert raw[..i + 1][..i] == raw[..i];
      events[i] := ResolveRow(snaps, events[i]);
      snaps := NoteRow(snaps, events[i]);
      assert events[..i + 1] == events[..i] + [events[i]];
      assert events[i + 1..] == raw[i + 1..];
    }
    assert raw[..events.Length] == raw && events[..events.Length] == events[..];
  }

  // ---------------------------------------------------------- per-index view

  lemma {:induction false} EncodeAt<R>(log: seq<Emission<R>>, j: nat)
    requires j < |log|
    ensures Encode(log)[j] == EncodeRow(LastAfter(log[..j]), log[j])
  {
    var n := |log| - 1;
    if j < n {
      EncodeAt(log[..n], j);
      assert log[..n][..j] == log[..j];
    }
  }

  lemma {:induction false} ResolveAt(rows: seq<Row>, i: nat)
    requires i < |rows|
    ensures Resolve(rows)[i] == ResolveRow(SnapsAfter(rows[..i]), rows[i])
  {
    var n := |rows| - 1;
    if i < n {
      ResolveAt(rows[..n], i);
      assert rows[..n][..i] == rows[..i];
    }
  }

  /** p is the last payload emission of kind k before position j. */
  ghost predicate IsLatest<R>(log: seq<Emission<R>>, k: string, p: int, j: nat) {
    && 0 <= p < j <= |log|
    && HasPayload(log[p]) && log[p].kind == k
    && forall q :: p < q < j ==> !(HasPayload(log[q]) && log[q].kind == k)
  }

  ghost predicate Unseen<R>(log: seq<Emission<R>>, k: string, j: nat)
    requires j <= |log|
  {
    forall q :: 0 <= q < j ==> !(HasPayload(log[q]) && log[q].kind == k)
  }

  /** The recorder's per-kind snapshot is always the latest payload call of that kind. */
  lemma {:induction false} LastIsLatest<R>(log: seq<Emission<R>>, k: string, j: nat) returns (p: int)
    requires j <= |log|
    ensures k !in LastAfter(log[..j]) ==> Unseen(log, k, j)
    ensures k in LastAfter(log[..j]) ==>
      IsLatest(log, k, p, j) && LastAfter(log[..j])[k] == Snapshot(log[p].call, Objs(log[p].items))
  {
    p := 0;
    if j != 0 {
      assert log[..j][..j - 1] == log[..j - 1];
      var e := log[j - 1];
      p := LastIsLatest(log, k, j - 1);
      if HasPayload(e) && e.kind == k { p := j - 1; }
    }
  }

  /**
   What is written, by kind and object identity alone. A call of a kind without payload logs
   no messages; the first payload call of a kind logs them all; a later one logs what follows
   the objects of the latest call of its kind if these are still its first objects, and all
   of them otherwise.
   */
  lemma RowByIdentity<R>(log: seq<Emission<R>>, j: nat, p: int)
    requires j < |log|
    ensures var e, row := log[j], Encode(log)[j];
            && row.LlmCall? && row.call == e.call && row.kind == e.kind
            && (e.kind !in FULL_PAYLOAD_KINDS ==> row.messages.None? && row.delta.None?)
            && (e.kind in FULL_PAYLOAD_KINDS && Unseen(log, e.kind, j) ==> row.messages == Some(Bodies(e.items)) && row.delta.None?)
            && (e.kind in FULL_PAYLOAD_KINDS && IsLatest(log, e.kind, p, j) ==>
                  if Objs(log[p].items) <= Objs(e.items)
                  then row.messages.None? && row.delta == Some(DeltaRef(log[p].call, |log[p].items|, Bodies(e.items)[|log[p].items|..]))
                  else row.messages == Some(Bodies(e.items)) && row.delta.None?)
  {
    EncodeAt(log, j);
    var q := LastIsLatest(log, log[j].kind, j);
  }

  // ------------------------------------------------------------- assumptions

  ghost predicate UniqueCalls<R>(log: seq<Emission<R>>) {
    forall i, j :: 0 <= i < j < |log| ==> log[i].call != log[j].call
  }

  /** A message object, once logged, is never edited in place. */
  ghost predicate AppendOrReplace<R>(log: seq<Emission<R>>) {
    forall i, j, a, b ::
      0 <= i < |log| && 0 <= j < |log| && 0 <= a < |log[i].items| && 0 <= b < |log[j].items| ==>
        log[i].items[a].obj == log[j].items[b].obj ==> log[i].items[a].body == log[j].items[b].body
  }

  ghost predicate IsDelta<R>(log: seq<Emission<R>>, j: nat)
    requires j < |log|
  {
    HasPayload(log[j]) && Extends(LastAfter(log[..j]), log[j])
  }

  /** When call j is logged as a suffix, the shared objects still serialise as they did at the base call. */
  ghost predicate PrefixUnedited<R>(log: seq<Emission<R>>, j: nat)
    requires j < |log|
  {
    forall p :: IsDelta(log, j) && IsLatest(log, log[j].kind, p, j) ==>
      Bodies(log[p].items) <= Bodies(log[j].items)
  }

  ghost predicate Faithful<R>(log: seq<Emission<R>>) {
    forall j :: 0 <= j < |log| ==> PrefixUnedited(log, j)
  }

  lemma {:induction false} AppendOrReplaceIsFaithful<R>(log: seq<Emission<R>>)
    requires AppendOrReplace(log)
    ensures Faithful(log)
  {
    forall j, p | 0 <= j < |log| && IsDelta(log, j) && IsLatest(log, log[j].kind, p, j)
      ensures Bodies(log[p].items) <= Bodies(log[j].items)
    {
      var p' := LastIsLatest(log, log[j].kind, j);
      assert p' == p;
      forall a | 0 <= a < |log[p].items|
        ensures Bodies(log[p].items)[a] == Bodies(log[j].items)[a]
      {
        assert Objs(log[p].items)[a] == Objs(log[j].items)[a];
      }
    }
  }

  // --------------------------------------------------------- loss of any rows

  /** The positions of the rows that survive on disk, in file order. */
  ghost predicate Survivors(kept: seq<nat>, n: nat) {
    && (forall i :: 0 <= i < |kept| ==> kept[i] < n)
    && (forall i, j :: 0 <= i < j < |kept| ==> kept[i] < kept[j])
  }

  ghost function Select(rows: seq<Row>, kept: seq<nat>): (r: seq<Row>)
    requires Survivors(kept, |rows|)
  {
    seq(|kept|, i requires 0 <= i < |kept| => rows[kept[i]])
  }

  /** Row j and every base it leans on, transitively, survive. */
  ghost predicate ChainKept<R>(log: seq<Emission<R>>, kept: seq<nat>, j: nat)
    requires j < |log|
    decreases j
  {
    && j in kept && HasPayload(log[j])
    && (IsDelta(log, j) ==>
          exists p: nat :: p < j && IsLatest(log, log[j].kind, p, j) && ChainKept(log, kept, p))
  }

  /** The reader's snapshot map after the first i surviving rows. */
  ghost predicate SnapsExact<R>(log: seq<Emission<R>>, kept: seq<nat>, i: nat, snaps: map<int, seq<Value>>)
    requires Survivors(kept, |log|) && i <= |kept|
  {
    && (forall q :: 0 <= q < i && ChainKept(log, kept, kept[q]) ==>
          log[kept[q]].call in snaps && snaps[log[kept[q]].call] == Bodies(log[kept[q]].items))
    && (forall c :: c in snaps ==>
          exists q :: 0 <= q < i && ChainKept(log, kept, kept[q]) && log[kept[q]].call == c)
  }

  lemma KeptBefore(kept: seq<nat>, n: nat, i: nat, p: nat)
    requires Survivors(kept, n) && i < |kept| && p < kept[i] && p in kept
    ensures exists q :: 0 <= q < i && kept[q] == p
  {
    var q :| 0 <= q < |kept| && kept[q] == p;
    assert q < i;
  }

  /** A suffix row leans on the latest call of its kind and on nothing else. */
  lemma {:induction false} ChainStep<R>(log: seq<Emission<R>>, kept: seq<nat>, j: nat, p: nat)
    requires j < |log| && IsDelta(log, j) && IsLatest(log, log[j].kind, p, j)
    ensures ChainKept(log, kept, j) <==> j in kept && ChainKept(log, kept, p)
  {
    if ChainKept(log, kept, j) {
      var p' :| 0 <= p' < j && IsLatest(log, log[j].kind, p', j) && ChainKept(log, kept, p');
      assert p' == p;
    }
  }

  lemma HeldMeansChainKept<R>(log: seq<Emission<R>>, kept: seq<nat>, i: nat, snaps: map<int, seq<Value>>, p: nat)
    requires UniqueCalls(log) && p < |log| && log[p].call in snaps
    requires Survivors(kept, |log|) && i <= |kept| && SnapsExact(log, kept, i, snaps)
    ensures ChainKept(log, kept, p)
  {
    var q :| 0 <= q < i && ChainKept(log, kept, kept[q]) && log[kept[q]].call == log[p].call;
    assert kept[q] == p;
  }

  /** One surviving row: it decodes exactly when its chain survives, else to nothing. */
  lemma {:induction false} RowExact<R>(log: seq<Emission<R>>, kept: seq<nat>, i: nat, snaps: map<int, seq<Value>>)
    requires UniqueCalls(log) && Faithful(log)
    requires Survivors(kept, |log|) && i < |kept| && SnapsExact(log, kept, i, snaps)
    ensures ResolveRow(snaps, Encode(log)[kept[i]]).LlmCall?
    ensures ResolveRow(snaps, Encode(log)[kept[i]]).call == log[kept[i]].call
    ensures ResolveRow(snaps, Encode(log)[kept[i]]).messages ==
            if ChainKept(log, kept, kept[i]) then Some(Bodies(log[kept[i]].items)) else None
  {
    var j := kept[i];
    EncodeAt(log, j);
    if IsDelta(log, j) {
      var p := LastIsLatest(log, log[j].kind, j);
      var d := Encode(log)[j].delta.value;
      assert d.baseCall == log[p].call && PrefixUnedited(log, j);
      ChainStep(log, kept, j, p);
      if ChainKept(log, kept, p) {
        KeptBefore(kept, |log|, i, p);
        var pb, jb := Bodies(log[p].items), Bodies(log[j].items);
        assert pb[..d.prefixLen] == pb && pb + jb[d.prefixLen..] == jb;
      } else if d.baseCall in snaps {
        HeldMeansChainKept(log, kept, i, snaps, p);
      }
    }
  }

  lemma {:induction false} SnapsStayExact<R>(log: seq<Emission<R>>, kept: seq<nat>, i: nat)
    requires UniqueCalls(log) && Faithful(log)
    requires Survivors(kept, |log|) && i <= |kept|
    ensures SnapsExact(log, kept, i, SnapsAfter(Select(Encode(log), kept)[..i]))
  {
    var rows := Select(Encode(log), kept);
    if i > 0 {
      SnapsStayExact(log, kept, i - 1);
      var before := SnapsAfter(rows[..i - 1]);
      RowExact(log, kept, i - 1, before);
      assert rows[..i][..i - 1] == rows[..i - 1];
      SnapsStep(log, kept, i - 1, before, ResolveRow(before, rows[i - 1]));
    }
  }

  lemma {:induction false} SnapsStep<R>(log: seq<Emission<R>>, kept: seq<nat>, i: nat,
                                        snaps: map<int, seq<Value>>, resolved: Row)
    requires UniqueCalls(log)
    requires Survivors(kept, |log|) && i < |kept| && SnapsExact(log, kept, i, snaps)
    requires resolved.LlmCall? && resolved.call == log[kept[i]].call
    requires resolved.messages ==
             if ChainKept(log, kept, kept[i]) then Some(Bodies(log[kept[i]].items)) else None
    ensures SnapsExact(log, kept, i + 1, NoteRow(snaps, resolved))
  {
    var after := NoteRow(snaps, resolved);
    forall q | 0 <= q < i + 1 && ChainKept(log, kept, kept[q])
      ensures log[kept[q]].call in after && after[log[kept[q]].call] == Bodies(log[kept[q]].items)
    {
      if q < i { assert log[kept[q]].call != log[kept[i]].call; }
    }
    forall c | c in after
      ensures exists q :: 0 <= q < i + 1 && ChainKept(log, kept, kept[q]) && log[kept[q]].call == c
    {
      if c in snaps {
        var q :| 0 <= q < i && ChainKept(log, kept, kept[q]) && log[kept[q]].call == c;
      } else {
        assert ChainKept(log, kept, kept[i]) && log[kept[i]].call == c;
      }
    }
  }

  /**
   Loss soundness. Delete any rows of a log: each surviving payload row decodes
   to exactly the conversation at emit time when its chain of bases survives,
   and to nothing otherwise. It never decodes to a wrong list.
   */
  lemma {:induction false} LossSoundness<R>(log: seq<Emission<R>>, kept: seq<nat>, i: nat)
    requires UniqueCalls(log) && Faithful(log)
    requires Survivors(kept, |log|) && i < |kept|
    ensures Resolve(Select(Encode(log), kept))[i].LlmCall?
    ensures Resolve(Select(Encode(log), kept))[i].messages ==
            if ChainKept(log, kept, kept[i]) then Some(Bodies(log[kept[i]].items)) else None
  {
    var rows := Select(Encode(log), kept);
    SnapsStayExact(log, kept, i);
    ResolveAt(rows, i);
    EncodeAt(log, kept[i]);
    RowExact(log, kept, i, SnapsAfter(rows[..i]));
  }

  // -------------------------------------------------------------- round trip

  /** Payload call j reads back as the conversation it was given. */
  ghost predicate ReadsBack<R>(log: seq<Emission<R>>, j: nat)
    requires j < |log|
  {
    HasPayload(log[j]) ==>
      Resolve(Encode(log))[j].LlmCall? && Resolve(Encode(log))[j].messages == Some(Bodies(log[j].items))
  }

  ghost function AllOf(n: nat): seq<nat> { seq(n, i requires 0 <= i < n => i) }

  lemma {:induction false} WholeChainKept<R>(log: seq<Emission<R>>, j: nat)
    requires j < |log| && HasPayload(log[j])
    ensures ChainKept(log, AllOf(|log|), j)
    decreases j
  {
    assert AllOf(|log|)[j] == j;
    if IsDelta(log, j) {
      var p := LastIsLatest(log, log[j].kind, j);
      WholeChainKept(log, p);
    }
  }

  lemma {:induction false} RoundTripAt<R>(log: seq<Emission<R>>, j: nat)
    requires UniqueCalls(log) && Faithful(log) && j < |log|
    ensures ReadsBack(log, j)
  {
    var all := AllOf(|log|);
    assert Select(Encode(log), all) == Encode(log);
    LossSoundness(log, all, j);
    if HasPayload(log[j]) { WholeChainKept(log, j); }
  }

  lemma {:induction false} EncodePrefix<R>(log: seq<Emission<R>>, n: nat)
    requires n <= |log|
    ensures Encode(log[..n]) == Encode(log)[..n]
  {
    forall i | 0 <= i < n ensures Encode(log[..n])[i] == Encode(log)[i] {
      EncodeAt(log, i);
      EncodeAt(log[..n], i);
      assert log[..n][..i] == log[..i];
    }
  }

  lemma {:induction false} DeltaPrefixLocal<R>(log: seq<Emission<R>>, n: nat, j: nat)
    requires j < n <= |log|
    ensures PrefixUnedited(log[..n], j) <==> PrefixUnedited(log, j)
  {
    assert log[..n][..j] == log[..j];
    forall p ensures IsLatest(log[..n], log[j].kind, p, j) <==> IsLatest(log, log[j].kind, p, j) { }
  }

  /**
   The exact condition. With unique call numbers, every payload call reads back
   as written if and only if no suffix-encoded call shares an object that was
   edited in place since its base call. The identity check alone does not
   detect such an edit.
   */
  lemma {:induction false} RoundTripIff<R>(log: seq<Emission<R>>)
    requires UniqueCalls(log)
    ensures (forall j :: 0 <= j < |log| ==> ReadsBack(log, j)) <==> Faithful(log)
  {
    if Faithful(log) {
      forall j | 0 <= j < |log| ensures ReadsBack(log, j) { RoundTripAt(log, j); }
    }
    if forall j :: 0 <= j < |log| ==> ReadsBack(log, j) {
      ReadingBackNeedsFaith(log, |log|);
    }
  }

  lemma {:induction false} ReadingBackNeedsFaith<R>(log: seq<Emission<R>>, n: nat)
    requires UniqueCalls(log) && n <= |log|
    requires forall j :: 0 <= j < |log| ==> ReadsBack(log, j)
    ensures forall j :: 0 <= j < n ==> PrefixUnedited(log, j)
  {
    if n > 0 {
      var j := n - 1;
      ReadingBackNeedsFaith(log, j);
      var p := LastIsLatest(log, log[j].kind, j);
      if IsDelta(log, j) {
        SnapshotOfLatest(log, j, p);
        EncodePrefix(log, j);
        EncodeAt(log, j);
        ResolveAt(Encode(log), j);
        assert ReadsBack(log, j);
        var pb, jb := Bodies(log[p].items), Bodies(log[j].items);
        assert pb + jb[|pb|..] == jb;
      }
      assert PrefixUnedited(log, j);
    }
  }

  /** When the rows before j are faithful, the reader holds the base of j exactly. */
  lemma {:induction false} SnapshotOfLatest<R>(log: seq<Emission<R>>, j: nat, p: nat)
    requires UniqueCalls(log) && j < |log| && IsLatest(log, log[j].kind, p, j)
    requires forall i :: 0 <= i < j ==> PrefixUnedited(log, i)
    ensures log[p].call in SnapsAfter(Encode(log[..j]))
    ensures SnapsAfter(Encode(log[..j]))[log[p].call] == Bodies(log[p].items)
  {
    var before, all := log[..j], AllOf(j);
    forall i | 0 <= i < j ensures PrefixUnedited(before, i) { DeltaPrefixLocal(log, j, i); }
    assert Select(Encode(before), all) == Encode(before) == Encode(before)[..j];
    SnapsStayExact(before, all, j);
    WholeChainKept(before, p);
    assert all[p] == p;
  }

  /**
   The recorder's own remark says an in-place edit falls back to a full
   snapshot. Two calls of any kind with one object, edited between them in any
   way: the second row is a suffix, and it reads back with the old text.
   */
  lemma EditedInPlaceReadsBackWrong<R>(kind: string, obj: R, before: Value, after: Value)
    requires kind in FULL_PAYLOAD_KINDS && before != after
    ensures var log := [Emission(1, kind, [Item(obj, before)]), Emission(2, kind, [Item(obj, after)])];
            UniqueCalls(log) && IsDelta(log, 1) && !ReadsBack(log, 1)
  {
    var e0, e1 := Emission(1, kind, [Item(obj, before)]), Emission(2, kind, [Item(obj, after)]);
    var log := [e0, e1];
    assert log[..1] == [e0];
    assert HasPayload(e0) && HasPayload(e1);
    assert LastAfter([e0]) == map[kind := Snapshot(1, [obj])] by { assert Objs(e0.items) == [obj]; }
    assert Objs(e1.items) == [obj];
    assert IsDelta(log, 1);
    RoundTripIff(log);
    assert IsLatest(log, kind, 0, 1);
    assert Bodies(e0.items)[0] != Bodies(e1.items)[0];
    assert !PrefixUnedited(log, 1);
    EncodeAt(log, 0);
    ResolveAt(Encode(log), 0);
    assert ReadsBack(log, 0);
  }

  // --------------------------------------------------------------- any rows

  /** Row q, resolved, gives messages for this call number. */
  ghost predicate Gives(rows: seq<Row>, q: int, call: int) {
    0 <= q < |rows| && Resolve(rows)[q].LlmCall? && Resolve(rows)[q].call == call && Resolve(rows)[q].messages.Some?
  }

  ghost predicate LastGives(rows: seq<Row>, i: nat, q: int, call: int) {
    0 <= q < i && Gives(rows, q, call) && forall k :: q < k < i ==> !Gives(rows, k, call)
  }

  lemma {:induction false} SnapIsLastGiven(rows: seq<Row>, i: nat, call: int) returns (q: int)
    requires i <= |rows|
    ensures call in SnapsAfter(rows[..i]) ==>
              LastGives(rows, i, q, call) && SnapsAfter(rows[..i])[call] == Resolve(rows)[q].messages.value
    ensures call !in SnapsAfter(rows[..i]) ==> forall k :: 0 <= k < i ==> !Gives(rows, k, call)
  {
    q := 0;
    if i > 0 {
      q := SnapIsLastGiven(rows, i - 1, call);
      assert rows[..i][..i - 1] == rows[..i - 1];
      ResolveAt(rows, i - 1);
      if Gives(rows, i - 1, call) { q := i - 1; }
    }
  }

  /**
   What any file of rows reads as, written by the recorder or not: a row without a delta stays
   as it is; one with a delta gets the first messages of the latest earlier row that gives any
   for the base call, and its own suffix; without such a row it gets none.
   */
  lemma ReadsFromEarlierRow(rows: seq<Row>, i: nat, q: int)
    requires i < |rows|
    ensures rows[i].OtherRow? || rows[i].delta.None? ==> Resolve(rows)[i] == rows[i]
    ensures rows[i].LlmCall? && rows[i].delta.Some? ==>
              var d := rows[i].delta.value;
              && Resolve(rows)[i].LlmCall? && Resolve(rows)[i].call == rows[i].call && Resolve(rows)[i].kind == rows[i].kind
              && ((forall k :: 0 <= k < i ==> !Gives(rows, k, d.baseCall)) ==> Resolve(rows)[i].messages.None?)
              && (LastGives(rows, i, q, d.baseCall) ==>
                    var base := Resolve(rows)[q].messages.value;
                    Resolve(rows)[i].messages == Some((if d.prefixLen <= |base| then base[..d.prefixLen] else base) + d.suffix))
  {
    ResolveAt(rows, i);
    if rows[i].LlmCall? && rows[i].delta.Some? {
      var p := SnapIsLastGiven(rows, i, rows[i].delta.value.baseCall);
      if LastGives(rows, i, q, rows[i].delta.value.baseCall) { assert p == q; }
    }
  }

  // ------------------------------------------------------- size of the stream

  ghost function WrittenIn(row: Row, k: string): nat {
    if row.OtherRow? || row.kind != k then 0
    else if row.delta.Some? then |row.delta.value.suffix|
    else if row.messages.Some? then |row.messages.value| else 0
  }

  ghost function Written(rows: seq<Row>, k: string): nat {
    if rows == [] then 0 else Written(rows[..|rows| - 1], k) + WrittenIn(rows[|rows| - 1], k)
  }

  /** Each call of kind k begins with the objects of the latest call of that kind before it. */
  ghost predicate AppendOnly<R>(log: seq<Emission<R>>, k: string) {
    forall p, j: nat :: IsLatest(log, k, p, j) && j < |log| && log[j].kind == k ==> Objs(log[p].items) <= Objs(log[j].items)
  }

  lemma LatestInPrefix<R>(log: seq<Emission<R>>, n: nat, k: string, p: int, j: nat)
    requires j <= n <= |log|
    ensures IsLatest(log[..n], k, p, j) <==> IsLatest(log, k, p, j)
    ensures Unseen(log[..n], k, j) <==> Unseen(log, k, j)
  {
    assert forall q :: 0 <= q < j ==> log[..n][q] == log[q];
  }

  lemma AppendOnlyPrefix<R>(log: seq<Emission<R>>, n: nat, k: string)
    requires n <= |log| && AppendOnly(log, k)
    ensures AppendOnly(log[..n], k)
  {
    forall p, j: nat | IsLatest(log[..n], k, p, j) && j < n && log[..n][j].kind == k
      ensures Objs(log[..n][p].items) <= Objs(log[..n][j].items)
    {
      LatestInPrefix(log, n, k, p, j);
      assert IsLatest(log, k, p, j);
    }
  }

  /** The messages of kind k written so far are those of the latest call of that kind. */
  ghost predicate WrittenOnce<R>(log: seq<Emission<R>>, k: string) {
    && (Unseen(log, k, |log|) ==> Written(Encode(log), k) == 0)
    && forall p :: IsLatest(log, k, p, |log|) ==> Written(Encode(log), k) == |log[p].items|
  }

  /** What the last call of kind k adds to what was written before it. */
  lemma OwnKindWrites<R>(log: seq<Emission<R>>, k: string, n: nat)
    requires |log| == n + 1 && log[n].kind == k && k in FULL_PAYLOAD_KINDS && AppendOnly(log, k)
    requires WrittenOnce(log[..n], k)
    ensures Written(Encode(log[..n]), k) + WrittenIn(Encode(log)[n], k) == |log[n].items|
  {
    var p := LastIsLatest(log, k, n);
    LatestInPrefix(log, n, k, p, n);
    RowByIdentity(log, n, p);
    if IsLatest(log, k, p, n) {
      assert Objs(log[p].items) <= Objs(log[n].items);
      assert log[..n][p] == log[p];
    }
  }

  lemma LatestAfterOwn<R>(log: seq<Emission<R>>, k: string, n: nat, q: int)
    requires |log| == n + 1 && log[n].kind == k && k in FULL_PAYLOAD_KINDS
    ensures !Unseen(log, k, |log|) && (IsLatest(log, k, q, |log|) ==> q == n)
  {
    assert HasPayload(log[n]);
  }

  lemma LatestAfterOther<R>(log: seq<Emission<R>>, k: string, n: nat, q: int)
    requires |log| == n + 1 && log[n].kind != k
    ensures Unseen(log, k, |log|) ==> Unseen(log[..n], k, n)
    ensures IsLatest(log, k, q, |log|) ==> IsLatest(log[..n], k, q, n) && log[..n][q] == log[q]
  {
    LatestInPrefix(log, n, k, q, n);
  }

  lemma WrittenNext<R>(log: seq<Emission<R>>, k: string)
    requires log != [] && k in FULL_PAYLOAD_KINDS && AppendOnly(log, k) && WrittenOnce(log[..|log| - 1], k)
    ensures WrittenOnce(log, k)
  {
    var n := |log| - 1;
    EncodePrefix(log, n);
    assert Written(Encode(log), k) == Written(Encode(log[..n]), k) + WrittenIn(Encode(log)[n], k);
    if log[n].kind == k {
      OwnKindWrites(log, k, n);
      forall q | IsLatest(log, k, q, |log|) ensures q == n { LatestAfterOwn(log, k, n, q); }
      LatestAfterOwn(log, k, n, n);
    } else {
      EncodeAt(log, n);
      forall q | IsLatest(log, k, q, |log|) ensures IsLatest(log[..n], k, q, n) && log[..n][q] == log[q] {
        LatestAfterOther(log, k, n, q);
      }
      LatestAfterOther(log, k, n, 0);
    }
  }

  /** On an append-only run each message of a kind is written exactly once. */
  lemma {:induction false} AppendOnlyWritesEachMessageOnce<R>(log: seq<Emission<R>>, k: string)
    requires k in FULL_PAYLOAD_KINDS && AppendOnly(log, k)
    ensures WrittenOnce(log, k)
  {
    if log != [] {
      AppendOnlyPrefix(log, |log| - 1, k);
      AppendOnlyWritesEachMessageOnce(log[..|log| - 1], k);
      WrittenNext(log, k);
    }
  }
}

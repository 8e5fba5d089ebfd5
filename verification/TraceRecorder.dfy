/**
 The recorder and the LLM client on the heap: message objects, live
 conversation lists that are appended to, spliced and reset in place, and
 the rows the recorder appends as calls go by.
 */
module TraceRecorder {
  import opened Prelude
  import opened TraceCodec

  class Message {
    var body: Value

    constructor (body: Value)
      ensures this.body == body
    {
      this.body := body;
    }
  }

  function Serialise(ms: seq<Message>): (r: seq<Value>)
    reads ms
    ensures |r| == |ms| && forall i :: 0 <= i < |ms| ==> r[i] == ms[i].body
  {
    seq(|ms|, i requires 0 <= i < |ms| reads ms => ms[i].body)
  }

  /** A live message list, shared by everyone who holds the reference. */
  class Conversation {
    var messages: seq<Message>

    constructor ()
      ensures messages == []
    {
      messages := [];
    }

    ghost function Items(): (r: seq<Item<Message>>)
      reads this, messages
      ensures Objs(r) == messages && Bodies(r) == Serialise(messages)
    {
      seq(|messages|, i requires 0 <= i < |messages| reads this, messages => Item(messages[i], messages[i].body))
    }

    method Append(body: Value)
      modifies this
      ensures |messages| == |old(messages)| + 1 && messages[..|old(messages)|] == old(messages)
      ensures fresh(messages[|old(messages)|]) && messages[|old(messages)|].body == body
    {
      var m := new Message(body);
      messages := messages + [m];
    }

    /** Supersession: a new object takes the place, the old one is left alone. */
    method Splice(i: nat, body: Value)
      requires i < |messages|
      modifies this
      ensures |messages| == |old(messages)|
      ensures messages == old(messages)[i := messages[i]]
      ensures fresh(messages[i]) && messages[i].body == body
    {
      var m := new Message(body);
      messages := messages[i := m];
    }

    /** A new list over the same objects (a handoff prompt, a resumed run). */
    method CopyFrom(other: Conversation)
      modifies this
      ensures messages == old(other.messages)
    {
      messages := other.messages;
    }
  }

  lemma EncodeSnoc(log: seq<Emission<Message>>, e: Emission<Message>)
    ensures Encode(log + [e]) == Encode(log) + [EncodeRow(LastAfter(log), e)]
    ensures LastAfter(log + [e]) ==
            if HasPayload(e) then LastAfter(log)[e.kind := Snapshot(e.call, Objs(e.items))] else LastAfter(log)
  {
    assert (log + [e])[..|log|] == log;
  }

  class Recorder {
    var lastSnapshot: map<string, Snapshot<Message>>
    var rows: seq<Row>
    ghost var log: seq<Emission<Message>>

    constructor ()
      ensures Valid() && Unedited() && log == []
    {
      lastSnapshot, rows, log := map[], [], [];
    }

    ghost predicate Valid()
      reads this
    {
      lastSnapshot == LastAfter(log) && rows == Encode(log)
    }

    ghost function Seen(): set<Message>
      reads this
    {
      set j, a | 0 <= j < |log| && 0 <= a < |log[j].items| :: log[j].items[a].obj
    }

    /** No message object has been edited in place since it was logged. */
    ghost predicate Unedited()
      reads this, Seen()
    {
      forall j, a :: 0 <= j < |log| && 0 <= a < |log[j].items| ==>
        log[j].items[a].obj in Seen() && log[j].items[a].obj.body == log[j].items[a].body
    }

    /** The delta-or-full decision; the snapshot keeps a copy of the list, never the live list. */
    method EncodeMessages(kind: string, call: int, conversation: Conversation)
      returns (messages: Option<seq<Value>>, delta: Option<DeltaRef>)
      requires kind in FULL_PAYLOAD_KINDS
      modifies this`lastSnapshot
      ensures var e := Emission(call, kind, conversation.Items());
              EncodeRow(old(lastSnapshot), e) == LlmCall(call, kind, messages, delta)
      ensures if kind in old(lastSnapshot) && old(lastSnapshot)[kind].objs <= conversation.messages
              then var base := old(lastSnapshot)[kind];
                   && messages.None?
                   && delta == Some(DeltaRef(base.call, |base.objs|, Serialise(conversation.messages)[|base.objs|..]))
              else delta.None? && messages == Some(Serialise(conversation.messages))
      ensures lastSnapshot == old(lastSnapshot)[kind := Snapshot(call, conversation.messages)]
    {
      messages, delta := None, None;
      if kind in lastSnapshot {
        var base := lastSnapshot[kind];
        var prefixLen := |base.objs|;
        if base.objs <= conversation.messages {
          delta := Some(DeltaRef(base.call, prefixLen, Serialise(conversation.messages)[prefixLen..]));
        } else {
          messages := Some(Serialise(conversation.messages));
        }
      } else {
        messages := Some(Serialise(conversation.messages));
      }
      lastSnapshot := lastSnapshot[kind := Snapshot(call, conversation.messages)];
    }

    method RowFor(kind: string, call: int, conversation: Conversation) returns (row: Row)
      modifies this`lastSnapshot
      ensures var e := Emission(call, kind, conversation.Items());
              && row == EncodeRow(old(lastSnapshot), e)
              && lastSnapshot == if kind in FULL_PAYLOAD_KINDS
                   then old(lastSnapshot)[kind := Snapshot(call, conversation.messages)] else old(lastSnapshot)
    {
      row := LlmCall(call, kind, None, None);
      if kind in FULL_PAYLOAD_KINDS {
        var messages, delta := EncodeMessages(kind, call, conversation);
        row := LlmCall(call, kind, messages, delta);
      }
    }

    method RecordLlmCall(kind: string, call: int, conversation: Conversation)
      requires Valid()
      modifies this
      ensures Valid()
      ensures log == old(log) + [Emission(call, kind, conversation.Items())]
      ensures old(Unedited()) ==> Unedited()
    {
      ghost var e := Emission(call, kind, conversation.Items());
      ghost var before := log;
      EncodeSnoc(log, e);
      var row := RowFor(kind, call, conversation);
      rows := rows + [row];
      log := log + [e];
      if old(Unedited()) { OneMoreUnedited(before, e); }
    }

    lemma OneMoreUnedited(before: seq<Emission<Message>>, e: Emission<Message>)
      requires log == before + [e]
      requires forall j, a :: 0 <= j < |before| && 0 <= a < |before[j].items| ==>
                 before[j].items[a].obj.body == before[j].items[a].body
      requires forall a :: 0 <= a < |e.items| ==> e.items[a].obj.body == e.items[a].body
      ensures Unedited()
    {
      forall j, a | 0 <= j < |log| && 0 <= a < |log[j].items|
        ensures log[j].items[a].obj in Seen() && log[j].items[a].obj.body == log[j].items[a].body
      {
        if j < |before| { assert log[j] == before[j]; }
      }
    }

    /** Nobody edited a logged message: the log has the append-or-replace property. */
    lemma UneditedIsAppendOrReplace()
      requires Unedited()
      ensures AppendOrReplace(log)
    {
    }
  }

  /** One session's client: numbers its calls and hands each answered one to the recorder. */
  class Llm {
    var llmCalls: nat
    const recorder: Recorder

    constructor (recorder: Recorder)
      ensures this.recorder == recorder && llmCalls == 0
    {
      llmCalls := 0;
      this.recorder := recorder;
    }

    /** Every recorded call carries its own position, so call numbers never repeat. */
    ghost predicate Numbered()
      reads this, recorder
    {
      && |recorder.log| == llmCalls
      && forall j :: 0 <= j < |recorder.log| ==> recorder.log[j].call == j + 1
    }

    /** A failed call raises before anything is counted or logged. */
    method ChatCompletion(conversation: Conversation, kind: string, answered: bool) returns (ok: bool)
      requires recorder.Valid() && Numbered()
      modifies this, recorder
      ensures recorder.Valid() && Numbered() && ok == answered
      ensures recorder.log == old(recorder.log) +
              (if answered then [Emission(old(llmCalls) + 1, kind, conversation.Items())] else [])
      ensures old(recorder.Unedited()) ==> recorder.Unedited()
    {
      var callNum := llmCalls + 1;
      if !answered { return false; }
      llmCalls := llmCalls + 1;
      recorder.RecordLlmCall(kind, callNum, conversation);
      return true;
    }
  }
}

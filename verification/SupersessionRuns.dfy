/**
 Whole runs: any sequence of dispatched tool calls, other messages and guard
 passes. Each retired result leads, through what superseded it, to a result
 that is still in the conversation word for word.
 */
module SupersessionRuns {
  import opened Prelude
  import opened Supersession
  import opened SupersessionPass

  datatype Link = Link(superseder: nat, reason: Case)

  /**
   The run's records and messages, with the history the code does not keep:
   where each record's message sits, what it said when dispatched, and which
   record retired it.
   */
  datatype Run = Run(
    records: seq<Record>, messages: seq<Msg>,
    pos: seq<nat>, original: seq<string>, link: map<nat, Link>)

  datatype Step =
    | Dispatch(record: Record, content: string)
    | Say(msg: Msg)
    | Pass(ret: map<nat, Retirement>, stubs: StubBuilder)

  /** Fresh tool-call ids; a pass retires exactly what the finders report. */
  ghost predicate Admissible(s: Run, step: Step, floor: nat) {
    match step
    case Dispatch(record, _) =>
      forall i :: 0 <= i < |s.messages| && IsToolMessage(s.messages[i]) ==> s.messages[i].callId.value != record.id
    case Say(msg) => !IsToolMessage(msg)
    case Pass(ret, stubs) => Prefixed(stubs) && Correct(s.records, s.messages, IndexOf(s.messages), floor, ret)
  }

  ghost function RecordNamed(rs: seq<Record>, id: string): nat {
    if exists j: nat :: j < |rs| && rs[j].id == id then
      var j: nat :| j < |rs| && rs[j].id == id; j
    else 0
  }

  ghost function LinksAfter(s: Run, ret: map<nat, Retirement>): map<nat, Link> {
    map r: nat | r < |s.records| && r < |s.pos| && (r in s.link || s.pos[r] in ret) ::
      if r in s.link then s.link[r]
      else Link(RecordNamed(s.records, ret[s.pos[r]].superseder), ret[s.pos[r]].reason)
  }

  ghost function After(s: Run, step: Step): Run {
    match step
    case Dispatch(record, content) =>
      s.(records := s.records + [record],
         messages := s.messages + [Msg("tool", Some(record.id), Some(content))],
         pos := s.pos + [|s.messages|],
         original := s.original + [content])
    case Say(msg) => s.(messages := s.messages + [msg])
    case Pass(ret, stubs) =>
      s.(messages := Rewrite(s.messages, ret, stubs), link := LinksAfter(s, ret))
  }

  ghost predicate Placed(s: Run) {
    && |s.pos| == |s.records| == |s.original|
    && (forall r :: 0 <= r < |s.records| ==>
          s.pos[r] < |s.messages| && IsToolMessage(s.messages[s.pos[r]])
          && s.messages[s.pos[r]].callId.value == s.records[r].id)
    && (forall r, q :: 0 <= r < q < |s.records| ==> s.records[r].id != s.records[q].id)
    && (forall i, k :: 0 <= i < k < |s.messages| && IsToolMessage(s.messages[i]) && IsToolMessage(s.messages[k]) ==>
          s.messages[i].callId != s.messages[k].callId)
  }

  /** What the case of a link says of the two records: the same call again, or the same artifact read again. */
  ghost predicate SameSubject(rs: seq<Record>, r: nat, l: Link)
    requires r < |rs| && l.superseder < |rs|
  {
    match l.reason
    case IdenticalCall => rs[r].signature == rs[l.superseder].signature
    case IncompleteExtract => rs[r].name == "read_tool_artifact" && rs[r].target == rs[l.superseder].target != ""
    case Containment => rs[r].ok
  }

  /** A retired result is a stub whose superseder is a successful, strictly later record. */
  ghost predicate LinkOk(s: Run, r: nat)
    requires Placed(s)
  {
    r in s.link ==>
      && r < s.link[r].superseder < |s.records| && s.records[s.link[r].superseder].ok
      && SameSubject(s.records, r, s.link[r])
      && STUB_PREFIX <= TextAt(s.messages, s.pos[r])
  }

  ghost predicate Inv(s: Run) {
    && Placed(s)
    && (forall r :: r in s.link ==> LinkOk(s, r))
    && (forall r :: 0 <= r < |s.records| && r !in s.link ==> s.messages[s.pos[r]].content == Some(s.original[r]))
  }

  lemma IndexIsPos(s: Run, r: nat)
    requires Placed(s) && r < |s.records|
    ensures s.records[r].id in IndexOf(s.messages) && IndexOf(s.messages)[s.records[r].id] == s.pos[r]
  {
    assert IsIndex(s.messages, IndexOf(s.messages));
  }

  /** What a pass says about the message of record r, read as a fact about records. */
  ghost predicate NewLinkOk(s: Run, floor: nat, ret: map<nat, Retirement>, r: nat)
    requires Placed(s) && r < |s.records| && s.pos[r] in ret
  {
    var j := RecordNamed(s.records, ret[s.pos[r]].superseder);
    && r < j < |s.records| && s.records[j].ok && r !in s.link
    && SameSubject(s.records, r, Link(j, ret[s.pos[r]].reason))
    && |TextAt(s.messages, s.pos[r])| >= floor
    && (ret[s.pos[r]].reason == Containment ==>
          Contains(TextAt(s.messages, s.pos[j]), TextAt(s.messages, s.pos[r])))
  }

  ghost predicate NewLinksOk(s: Run, floor: nat, ret: map<nat, Retirement>)
    requires Placed(s)
  {
    forall r :: 0 <= r < |s.records| && s.pos[r] in ret ==> NewLinkOk(s, floor, ret, r)
  }

  lemma RetiredRecord(s: Run, floor: nat, ret: map<nat, Retirement>, r: nat)
    requires Inv(s) && Correct(s.records, s.messages, IndexOf(s.messages), floor, ret)
    requires r < |s.records| && s.pos[r] in ret
    ensures NewLinkOk(s, floor, ret, r)
  {
    var i, j := PassJustifies(s.records, s.messages, floor, ret, s.pos[r]);
    SamePlaceSameRecord(s, i, r);
    NamesOne(s, j, ret[s.pos[r]].superseder);
    IndexIsPos(s, j);
    assert r in s.link ==> LinkOk(s, r);
  }

  lemma SamePlaceSameRecord(s: Run, i: nat, r: nat)
    requires Placed(s) && i < |s.records| && r < |s.records|
    requires s.records[i].id in IndexOf(s.messages) && IndexOf(s.messages)[s.records[i].id] == s.pos[r]
    ensures i == r
  {
    IndexIsPos(s, i);
  }

  lemma NamesOne(s: Run, j: nat, id: string)
    requires Placed(s) && j < |s.records| && s.records[j].id == id
    ensures RecordNamed(s.records, id) == j
  {
    IndexIsPos(s, j);
    IndexIsPos(s, RecordNamed(s.records, id));
  }

  lemma PassLinks(s: Run, floor: nat, ret: map<nat, Retirement>)
    requires Inv(s) && Correct(s.records, s.messages, IndexOf(s.messages), floor, ret)
    ensures NewLinksOk(s, floor, ret)
  {
    forall r | 0 <= r < |s.records| && s.pos[r] in ret ensures NewLinkOk(s, floor, ret, r) {
      RetiredRecord(s, floor, ret, r);
    }
  }

  lemma PassKeepsInv(s: Run, ret: map<nat, Retirement>, stubs: StubBuilder, floor: nat)
    requires Inv(s) && NewLinksOk(s, floor, ret) && Prefixed(stubs)
    ensures Inv(After(s, Pass(ret, stubs)))
  {
    var s' := After(s, Pass(ret, stubs));
    PassKeepsPlaced(s, ret, stubs);
    forall r | r in s'.link ensures LinkOk(s', r) { PassKeepsLink(s, ret, stubs, floor, r); }
  }

  lemma PassKeepsLink(s: Run, ret: map<nat, Retirement>, stubs: StubBuilder, floor: nat, r: nat)
    requires Inv(s) && NewLinksOk(s, floor, ret) && Prefixed(stubs)
    requires r in LinksAfter(s, ret) && Placed(After(s, Pass(ret, stubs)))
    ensures LinkOk(After(s, Pass(ret, stubs)), r)
  {
    assert r in s.link ==> LinkOk(s, r);
    assert r !in s.link ==> NewLinkOk(s, floor, ret, r);
  }

  lemma PassKeepsPlaced(s: Run, ret: map<nat, Retirement>, stubs: StubBuilder)
    requires Placed(s)
    ensures Placed(After(s, Pass(ret, stubs)))
  {
  }

  lemma StepKeepsInv(s: Run, step: Step, floor: nat)
    requires Inv(s) && Admissible(s, step, floor)
    ensures Inv(After(s, step))
  {
    match step
    case Dispatch(record, content) => DispatchKeepsInv(s, record, content, floor);
    case Say(_) =>
      var s' := After(s, step);
      assert Placed(s');
      forall r | r in s'.link ensures LinkOk(s', r) { assert LinkOk(s, r); }
    case Pass(ret, stubs) =>
      PassLinks(s, floor, ret);
      PassKeepsInv(s, ret, stubs, floor);
  }

  lemma DispatchKeepsInv(s: Run, record: Record, content: string, floor: nat)
    requires Inv(s) && Admissible(s, Dispatch(record, content), floor)
    ensures Inv(After(s, Dispatch(record, content)))
  {
    var s' := After(s, Dispatch(record, content));
    assert Placed(s');
    forall r | r in s'.link ensures LinkOk(s', r) { assert LinkOk(s, r); }
  }

  // ----------------------------------------------------------------- all runs

  /** A run over an opening conversation whose tool messages, if any, have distinct ids. */
  ghost predicate Opening(ms: seq<Msg>) {
    forall i, k :: 0 <= i < k < |ms| && IsToolMessage(ms[i]) && IsToolMessage(ms[k]) ==> ms[i].callId != ms[k].callId
  }

  ghost predicate Takes(s: Run, step: Step, floor: nat, s': Run) {
    Admissible(s, step, floor) && s' == After(s, step)
  }

  ghost predicate Reaches(ms: seq<Msg>, steps: seq<Step>, floor: nat, s: Run)
    decreases |steps|
  {
    if steps == [] then s == Run([], ms, [], [], map[]) else
      var n := |steps| - 1;
      exists before :: Reaches(ms, steps[..n], floor, before) && Takes(before, steps[n], floor, s)
  }

  lemma {:induction false} RunKeepsInv(ms: seq<Msg>, steps: seq<Step>, floor: nat, s: Run)
    requires Opening(ms) && Reaches(ms, steps, floor, s)
    ensures Inv(s)
  {
    if steps != [] {
      var n := |steps| - 1;
      var before :| Reaches(ms, steps[..n], floor, before) && Takes(before, steps[n], floor, s);
      RunKeepsInv(ms, steps[..n], floor, before);
      StepKeepsInv(before, steps[n], floor);
    } else {
      assert Placed(s);
    }
  }

  /** Where following superseders from record r ends. */
  ghost function Root(s: Run, r: nat): nat
    decreases |s.records| - r
  {
    if r in s.link && r < s.link[r].superseder < |s.records| then Root(s, s.link[r].superseder) else r
  }

  /** Record r's tool message is in the conversation, saying what it said when it was dispatched. */
  ghost predicate IsLive(s: Run, r: nat) {
    && r < |s.records| && r < |s.pos| && r < |s.original| && r !in s.link && s.pos[r] < |s.messages|
    && s.messages[s.pos[r]] == Msg("tool", Some(s.records[r].id), Some(s.original[r]))
  }

  /**
   The live root. In every run, following superseders from any record ends at
   a record whose message is still in the conversation with its original
   content; when the start was retired, the end is a strictly later success.
   */
  lemma {:induction false} LiveRoot(ms: seq<Msg>, steps: seq<Step>, floor: nat, s: Run, r: nat)
    requires Opening(ms) && Reaches(ms, steps, floor, s) && r < |s.records|
    ensures IsLive(s, Root(s, r))
    ensures r in s.link ==> r < Root(s, r) && s.records[Root(s, r)].ok
    decreases |s.records| - r
  {
    RunKeepsInv(ms, steps, floor, s);
    if r in s.link {
      assert LinkOk(s, r);
      LiveRoot(ms, steps, floor, s, s.link[r].superseder);
    }
  }

  // ------------------------------------------------------- containment chains

  /** With stubs below the floor, a containment link still means what it says. */
  ghost predicate Held(s: Run, floor: nat) {
    && Placed(s)
    && forall r :: r in s.link && r < |s.records| ==> LinkHeld(s, floor, r)
  }

  ghost predicate StubsShort(step: Step, floor: nat) {
    step.Pass? ==> ShortStubs(floor, step.ret, step.stubs)
  }

  lemma StepKeepsHeld(s: Run, step: Step, floor: nat)
    requires Inv(s) && Held(s, floor) && Admissible(s, step, floor) && StubsShort(step, floor)
    ensures Held(After(s, step), floor)
  {
    if step.Pass? {
      PassLinks(s, floor, step.ret);
      PassKeepsHeld(s, step.ret, step.stubs, floor);
    } else {
      StepKeepsInv(s, step, floor);
      GrowthKeepsHeld(s, step, floor);
    }
  }

  /** What is only appended to keeps its links' meaning. */
  lemma GrowthKeepsHeld(s: Run, step: Step, floor: nat)
    requires Inv(s) && Held(s, floor) && !step.Pass? && Placed(After(s, step))
    ensures Held(After(s, step), floor)
  {
    var s' := After(s, step);
    forall r | r in s'.link && r < |s'.records|
      ensures LinkHeld(s', floor, r)
    {
      assert LinkOk(s, r) && LinkHeld(s, floor, r);
    }
  }

  lemma PassKeepsHeld(s: Run, ret: map<nat, Retirement>, stubs: StubBuilder, floor: nat)
    requires Inv(s) && Held(s, floor) && NewLinksOk(s, floor, ret) && Prefixed(stubs) && ShortStubs(floor, ret, stubs)
    ensures Held(After(s, Pass(ret, stubs)), floor)
  {
    PassKeepsPlaced(s, ret, stubs);
    var s' := After(s, Pass(ret, stubs));
    forall r | r in s'.link && r < |s'.records|
      ensures LinkHeld(s', floor, r)
    {
      LinkStaysHeld(s, ret, stubs, floor, r);
    }
  }

  /** What Held says of one link. */
  ghost predicate LinkHeld(s: Run, floor: nat, r: nat)
    requires Placed(s) && r in s.link && r < |s.records|
  {
    && |TextAt(s.messages, s.pos[r])| < floor
    && (s.link[r].reason == Containment && s.link[r].superseder < |s.records| ==>
          Contains(s.original[s.link[r].superseder], s.original[r]))
  }

  lemma LinkStaysHeld(s: Run, ret: map<nat, Retirement>, stubs: StubBuilder, floor: nat, r: nat)
    requires Inv(s) && Held(s, floor) && NewLinksOk(s, floor, ret) && ShortStubs(floor, ret, stubs)
    requires r in LinksAfter(s, ret) && Placed(After(s, Pass(ret, stubs)))
    ensures LinkHeld(After(s, Pass(ret, stubs)), floor, r)
  {
    if r in s.link { OldLinkStaysHeld(s, ret, stubs, floor, r); } else { NewLinkIsHeld(s, ret, stubs, floor, r); }
  }

  lemma OldLinkStaysHeld(s: Run, ret: map<nat, Retirement>, stubs: StubBuilder, floor: nat, r: nat)
    requires Placed(s) && Held(s, floor) && ShortStubs(floor, ret, stubs)
    requires r in s.link && r < |s.records| && Placed(After(s, Pass(ret, stubs)))
    ensures LinkHeld(After(s, Pass(ret, stubs)), floor, r)
  {
    var k := s.pos[r];
    assert LinkHeld(s, floor, r);
    assert TextAt(Rewrite(s.messages, ret, stubs), k) == if k in ret then StubFor(ret, stubs, k) else TextAt(s.messages, k);
  }

  lemma NewLinkIsHeld(s: Run, ret: map<nat, Retirement>, stubs: StubBuilder, floor: nat, r: nat)
    requires Inv(s) && Held(s, floor) && NewLinksOk(s, floor, ret) && ShortStubs(floor, ret, stubs)
    requires r in LinksAfter(s, ret) && r !in s.link && Placed(After(s, Pass(ret, stubs)))
    ensures LinkHeld(After(s, Pass(ret, stubs)), floor, r)
  {
    var k := s.pos[r];
    assert NewLinkOk(s, floor, ret, r);
    NewLinkHolds(s, ret, floor, r);
    assert TextAt(Rewrite(s.messages, ret, stubs), k) == StubFor(ret, stubs, k);
  }

  lemma NewLinkHolds(s: Run, ret: map<nat, Retirement>, floor: nat, r: nat)
    requires Inv(s) && Held(s, floor) && r < |s.records| && s.pos[r] in ret && NewLinkOk(s, floor, ret, r)
    ensures ret[s.pos[r]].reason == Containment ==> Contains(s.original[LinksAfter(s, ret)[r].superseder], s.original[r])
  {
    if ret[s.pos[r]].reason == Containment {
      var j := LinksAfter(s, ret)[r].superseder;
      var held, part := TextAt(s.messages, s.pos[j]), TextAt(s.messages, s.pos[r]);
      if |part| > |held| { LongerIsNotContained(held, part); }
    }
  }

  lemma {:induction false} RunKeepsHeld(ms: seq<Msg>, steps: seq<Step>, floor: nat, s: Run)
    requires Opening(ms) && Reaches(ms, steps, floor, s)
    requires forall n :: 0 <= n < |steps| ==> StubsShort(steps[n], floor)
    ensures Held(s, floor)
  {
    if steps != [] {
      var n := |steps| - 1;
      var before :| Reaches(ms, steps[..n], floor, before) && Takes(before, steps[n], floor, s);
      RunKeepsInv(ms, steps[..n], floor, before);
      RunKeepsHeld(ms, steps[..n], floor, before);
      StepKeepsHeld(before, steps[n], floor);
    }
  }

  /** Where a chain of links of one case only ends. */
  ghost function CaseEnd(s: Run, c: Case, r: nat): nat
    decreases |s.records| - r
  {
    if r in s.link && s.link[r].reason == c && r < s.link[r].superseder < |s.records|
    then CaseEnd(s, c, s.link[r].superseder) else r
  }

  /**
   Superseders stay on the subject: a chain of identical-call links keeps to one call
   signature and a chain of incomplete-extract links to one artifact, over every run.
   */
  lemma {:induction false} ChainsKeepSubject(ms: seq<Msg>, steps: seq<Step>, floor: nat, s: Run, c: Case, r: nat)
    requires Opening(ms) && Reaches(ms, steps, floor, s) && r < |s.records|
    ensures var e := CaseEnd(s, c, r);
            && r <= e < |s.records| && (e != r ==> s.records[e].ok)
            && (c == IdenticalCall ==> s.records[e].signature == s.records[r].signature)
            && (c == IncompleteExtract ==> s.records[e].target == s.records[r].target)
    decreases |s.records| - r
  {
    RunKeepsInv(ms, steps, floor, s);
    if r in s.link && s.link[r].reason == c {
      assert LinkOk(s, r);
      ChainsKeepSubject(ms, steps, floor, s, c, s.link[r].superseder);
    }
  }

  /**
   When every stub is below the floor, a chain of containment links ends at a
   result whose original text contains the retired text; if that end was not
   itself retired for another reason, the text is still in the conversation.
   */
  lemma {:induction false} ContainmentKeepsText(ms: seq<Msg>, steps: seq<Step>, floor: nat, s: Run, r: nat)
    requires Opening(ms) && Reaches(ms, steps, floor, s) && r < |s.records|
    requires forall n :: 0 <= n < |steps| ==> StubsShort(steps[n], floor)
    ensures var e := CaseEnd(s, Containment, r);
            && r <= e < |s.records| == |s.original| && Contains(s.original[e], s.original[r])
            && (e in s.link || IsLive(s, e))
            && (e in s.link ==> s.link[e].reason != Containment)
    decreases |s.records| - r
  {
    RunKeepsInv(ms, steps, floor, s);
    RunKeepsHeld(ms, steps, floor, s);
    if r in s.link && s.link[r].reason == Containment {
      assert LinkOk(s, r) && LinkHeld(s, floor, r);
      var j := s.link[r].superseder;
      ContainmentKeepsText(ms, steps, floor, s, j);
      ContainsTransitive(s.original[CaseEnd(s, Containment, r)], s.original[j], s.original[r]);
    } else {
      assert OccursAt(s.original[r], 0, s.original[r]);
    }
  }
}

/**
 Applying the retirements: one pass over the live conversation, its stubs, what a
 second pass would do, and what the pass frees.
 */
module SupersessionPass {
  import opened Prelude
  import opened Supersession

  function CaseName(c: Case): string {
    match c
    case IdenticalCall => "identical_call"
    case IncompleteExtract => "incomplete_extract"
    case Containment => "containment"
  }

  function Quoted(s: string): string { "'" + s + "'" }

  function Retiree(r: Retirement): string { " " + r.name + " result (tool_call_id=" + Quoted(r.id) + ")" }

  function Cause(r: Retirement): string {
    " retired as " + CaseName(r.reason) + ", superseded by tool_call_id=" + Quoted(r.superseder) + "."
  }

  function Location(path: Option<string>): string {
    if path.Some? && path.value != "" then " On disk at " + path.value + "." else ""
  }

  function Recovery(r: Retirement): string {
    " Recover via read_tool_artifact(tool_call_id=" + Quoted(r.id) + ") or the run trace."
  }

  /** The one-line, recoverable stub. It always carries the prefix that later passes leave alone. */
  function BuildStub(r: Retirement, path: Option<string>): (stub: string)
    ensures STUB_PREFIX <= stub
  {
    STUB_PREFIX + Retiree(r) + Cause(r) + Location(path) + Recovery(r)
  }

  lemma MiddleOccurs(a: string, b: string, c: string)
    ensures Contains(a + b + c, b)
  {
    assert OccursAt(a + b + c, |a|, b);
  }

  lemma PartsOccur(p: string, a: string, b: string, c: string, d: string)
    ensures Contains(p + a + b + c + d, a) && Contains(p + a + b + c + d, b) && Contains(p + a + b + c + d, d)
  {
    MiddleOccurs(p, a, b + c + d);
    MiddleOccurs(p + a, b, c + d);
    MiddleOccurs(p + a + b + c, d, "");
    assert p + a + (b + c + d) == p + a + b + c + d == p + a + b + (c + d) == p + a + b + c + d + "";
  }

  lemma FirstOccurs(b: string, c: string)
    ensures Contains(b + c, b)
  {
    assert OccursAt(b + c, 0, b);
  }

  /** A stub says which result it stands for, by which rule and call it was replaced, and which call gets it back. */
  lemma StubIsRecoverable(r: Retirement, path: Option<string>)
    ensures Contains(BuildStub(r, path), " " + r.name + " result (tool_call_id=" + Quoted(r.id))
    ensures Contains(BuildStub(r, path), " retired as " + CaseName(r.reason) + ", superseded by tool_call_id=" + Quoted(r.superseder))
    ensures Contains(BuildStub(r, path), " Recover via read_tool_artifact(tool_call_id=" + Quoted(r.id))
  {
    PartsOccur(STUB_PREFIX, Retiree(r), Cause(r), Location(path), Recovery(r));
    WithinStub(BuildStub(r, path), " " + r.name + " result (tool_call_id=" + Quoted(r.id), ")");
    WithinStub(BuildStub(r, path), " retired as " + CaseName(r.reason) + ", superseded by tool_call_id=" + Quoted(r.superseder), ".");
    WithinStub(BuildStub(r, path), " Recover via read_tool_artifact(tool_call_id=" + Quoted(r.id), ") or the run trace.");
  }

  lemma WithinStub(stub: string, part: string, rest: string)
    requires Contains(stub, part + rest)
    ensures Contains(stub, part)
  {
    FirstOccurs(part, rest);
    ContainsTransitive(stub, part + rest, part);
  }

  /** What a stub costs beyond the names in it, and what an artifact path adds to itself. */
  const STUB_FRAME: nat := 149
  const PATH_FRAME: nat := 13

  lemma StubLength(r: Retirement, path: Option<string>)
    ensures |BuildStub(r, path)| == STUB_FRAME + |r.name| + 2 * |r.id| + |r.superseder| + |CaseName(r.reason)| + |Location(path)|
    ensures |Location(path)| == if path.Some? && path.value != "" then PATH_FRAME + |path.value| else 0
    ensures |CaseName(r.reason)| <= 18
  {
    assert |Retiree(r)| == 26 + |r.name| + |r.id|;
    assert |Cause(r)| == 44 + |CaseName(r.reason)| + |r.superseder|;
    assert |Recovery(r)| == 66 + |r.id|;
  }

  /** Where the artifact of a call lies on disk, if anywhere. */
  type PathHint = string -> Option<string>

  /** How a retirement is worded; every stub starts with the prefix. */
  type StubBuilder = Retirement -> string

  ghost predicate Prefixed(stubs: StubBuilder) {
    forall r :: STUB_PREFIX <= stubs(r)
  }

  function StubsWith(paths: PathHint): (stubs: StubBuilder)
    ensures Prefixed(stubs)
  {
    var f := (r: Retirement) => BuildStub(r, paths(r.id));
    assert forall r :: f(r) == BuildStub(r, paths(r.id));
    f
  }

  function StubFor(ret: map<nat, Retirement>, stubs: StubBuilder, i: nat): string
    requires i in ret
  {
    stubs(ret[i])
  }

  function Rewrite(ms: seq<Msg>, ret: map<nat, Retirement>, stubs: StubBuilder): (r: seq<Msg>)
    ensures |r| == |ms|
    ensures forall i :: 0 <= i < |ms| ==> r[i].role == ms[i].role && r[i].callId == ms[i].callId
    ensures forall i :: 0 <= i < |ms| ==>
              r[i].content == if i in ret then Some(StubFor(ret, stubs, i)) else ms[i].content
  {
    seq(|ms|, i requires 0 <= i < |ms| =>
      if i in ret then ms[i].(content := Some(StubFor(ret, stubs, i))) else ms[i])
  }

  datatype Event = SupersessionEvent(id: string, name: string, reason: Case, superseder: string, size: nat, step: nat)

  class GuardContext {
    var messages: seq<Msg>
    var toolRecords: seq<Record>
    var events: seq<Event>
    var stepNum: nat

    constructor (messages: seq<Msg>, toolRecords: seq<Record>, stepNum: nat)
      ensures this.messages == messages && this.toolRecords == toolRecords && this.stepNum == stepNum && events == []
    {
      this.messages, this.toolRecords, this.stepNum, events := messages, toolRecords, stepNum, [];
    }

    /** The guard's pass: a no-op under the kill switch, else one stub and one event per retirement. */
    method RetireSupersededResults(enabled: bool, paths: PathHint, floor: nat := SIZE_FLOOR)
      returns (ret: map<nat, Retirement>, listed: seq<Retirement>)
      modifies this`messages, this`events
      ensures !enabled ==> ret == map[] && listed == []
      ensures enabled ==> Correct(toolRecords, old(messages), IndexOf(old(messages)), floor, ret)
      ensures forall r :: r in listed <==> r.messageIndex in ret && ret[r.messageIndex] == r
      ensures forall a, b :: 0 <= a < b < |listed| ==> listed[a].messageIndex < listed[b].messageIndex
      ensures messages == Rewrite(old(messages), ret, StubsWith(paths))
      ensures events == old(events) + EventsFor(listed, stepNum)
    {
      ret, listed := map[], [];
      if enabled {
        ret, listed := FindRetirements(toolRecords, messages, floor);
        CorrectInRange(toolRecords, messages, floor, ret);
      }
      Apply(ret, listed, StubsWith(paths));
    }

    method Apply(ret: map<nat, Retirement>, listed: seq<Retirement>, stubs: StubBuilder)
      requires forall k :: k in ret ==> ret[k].messageIndex == k < |messages| && ret[k] in listed
      requires forall r :: r in listed ==> r.messageIndex in ret && ret[r.messageIndex] == r
      modifies this`messages, this`events
      ensures messages == Rewrite(old(messages), ret, stubs)
      ensures events == old(events) + EventsFor(listed, stepNum)
    {
      ghost var ms := messages;
      for a := 0 to |listed|
        invariant Partly(ms, messages, ret, listed[..a], stubs)
        invariant events == old(events) + EventsFor(listed[..a], stepNum)
      {
        var r := listed[a];
        assert r in listed && listed[..a + 1] == listed[..a] + [r];
        PartlyStep(ms, messages, ret, listed[..a], r, stubs);
        messages := Retired(messages, r, stubs);
        events := events + [SupersessionEvent(r.id, r.name, r.reason, r.superseder, r.size, stepNum)];
      }
      assert listed[..|listed|] == listed;
      PartlyDone(ms, messages, ret, listed, stubs);
    }
  }

  /** A pass names only tool messages of the conversation. */
  lemma CorrectInRange(rs: seq<Record>, ms: seq<Msg>, floor: nat, ret: map<nat, Retirement>)
    requires Correct(rs, ms, IndexOf(ms), floor, ret)
    ensures forall k :: k in ret ==> ret[k].messageIndex == k < |ms| && ms[k].role == "tool"
    ensures forall k :: k in ret ==> ret[k].size == |TextAt(ms, k)| >= floor
  {
    forall k | k in ret
      ensures ret[k].messageIndex == k < |ms| && ms[k].role == "tool" && ret[k].size == |TextAt(ms, k)| >= floor
    {
      assert Explained(rs, ms, IndexOf(ms), floor, ret[k]);
    }
  }

  /** What the case of retirement e claims of the records i and j and of the retired text. */
  ghost predicate CaseHolds(rs: seq<Record>, ms: seq<Msg>, e: Retirement, i: int, j: int)
    requires 0 <= i < j < |rs|
  {
    match e.reason
    case IdenticalCall =>
      rs[i].signature == rs[j].signature && rs[i].id != rs[j].id && forall k :: j < k < |rs| ==> rs[k].signature != rs[j].signature
    case IncompleteExtract =>
      && rs[i].name == "read_tool_artifact" && rs[i].target == rs[j].target != ""
      && Contains(TextAt(ms, e.messageIndex), INCOMPLETE_MARKER)
      && forall k :: i < k < j ==> !(rs[k].ok && rs[k].target == rs[i].target)
    case Containment =>
      rs[i].ok && Contains(TextOf(ms, IndexOf(ms), e.superseder), TextAt(ms, e.messageIndex))
  }

  /** Retirement e is about records i and j: a later success supersedes an earlier call, for the reason given. */
  ghost predicate Justified(rs: seq<Record>, ms: seq<Msg>, floor: nat, e: Retirement, i: int, j: int) {
    && 0 <= i < j < |rs| && rs[j].ok && rs[i].id == e.id && rs[i].name == e.name && rs[j].id == e.superseder
    && e.messageIndex < |ms| && IsToolMessage(ms[e.messageIndex]) && ms[e.messageIndex].callId.value == e.id
    && !(STUB_PREFIX <= TextAt(ms, e.messageIndex)) && |TextAt(ms, e.messageIndex)| >= floor
    && e.size == |TextAt(ms, e.messageIndex)|
    && CaseHolds(rs, ms, e, i, j)
  }

  lemma PassJustifies(rs: seq<Record>, ms: seq<Msg>, floor: nat, ret: map<nat, Retirement>, k: nat) returns (i: int, j: int)
    requires Correct(rs, ms, IndexOf(ms), floor, ret) && k in ret
    ensures ret[k].messageIndex == k && Justified(rs, ms, floor, ret[k], i, j)
  {
    assert Explained(rs, ms, IndexOf(ms), floor, ret[k]);
    i, j :| Supersedes(rs, ms, IndexOf(ms), ret[k].reason, i, j) && Names(rs, ret[k], i, j);
    if ret[k].reason == IncompleteExtract {
      forall x | i < x < j ensures !(rs[x].ok && rs[x].target == rs[i].target) { assert !ReReads(rs, ms, IndexOf(ms), i, x); }
    }
  }

  /** The last message that answers a call is at p. */
  ghost predicate AnsweredAt(ms: seq<Msg>, id: string, p: nat) {
    && p < |ms| && IsToolMessage(ms[p]) && ms[p].callId.value == id
    && forall q :: p < q < |ms| ==> !(IsToolMessage(ms[q]) && ms[q].callId.value == id)
  }

  lemma AnswerIsIndexed(ms: seq<Msg>, id: string, p: nat)
    requires AnsweredAt(ms, id, p)
    ensures id in IndexOf(ms) && IndexOf(ms)[id] == p && TextOf(ms, IndexOf(ms), id) == TextAt(ms, p)
  {
    assert IsIndex(ms, IndexOf(ms));
  }

  /** Without a first re-read there is none at all. */
  lemma {:induction false} NoFirstReReadNoReRead(rs: seq<Record>, ms: seq<Msg>, index: map<string, nat>, i: int, n: nat)
    requires forall k :: !FirstReRead(rs, ms, index, i, k)
    ensures forall k :: k < n ==> !ReReads(rs, ms, index, i, k)
  {
    if n > 0 {
      NoFirstReReadNoReRead(rs, ms, index, i, n - 1);
      assert !FirstReRead(rs, ms, index, i, n - 1);
    }
  }

  /** A message long enough, and no stub, is retired if its call is superseded in case c. */
  lemma SupersededIsRetired(rs: seq<Record>, ms: seq<Msg>, floor: nat, ret: map<nat, Retirement>, p: nat, c: Case, i: int, j: int)
    requires Correct(rs, ms, IndexOf(ms), floor, ret) && Supersedes(rs, ms, IndexOf(ms), c, i, j) && AnsweredAt(ms, rs[i].id, p)
    requires !(STUB_PREFIX <= TextAt(ms, p)) && |TextAt(ms, p)| >= floor
    ensures p in ret && Rank(ret[p].reason) <= Rank(c)
  {
    AnswerIsIndexed(ms, rs[i].id, p);
    assert CaseDone(rs, ms, IndexOf(ms), floor, ret, c) && Handled(ms, IndexOf(ms), floor, ret, rs[i].id);
  }

  /** An older call of a signature whose newest call succeeded is retired, as an identical call. */
  lemma RepeatedIsRetired(rs: seq<Record>, ms: seq<Msg>, floor: nat, ret: map<nat, Retirement>, p: nat, i: nat, j: nat)
    requires Correct(rs, ms, IndexOf(ms), floor, ret) && i < j < |rs| && AnsweredAt(ms, rs[i].id, p)
    requires !(STUB_PREFIX <= TextAt(ms, p)) && |TextAt(ms, p)| >= floor
    requires rs[i].signature == rs[j].signature && rs[j].ok && rs[i].id != rs[j].id
    requires forall k :: j < k < |rs| ==> rs[k].signature != rs[j].signature
    ensures p in ret && ret[p].reason == IdenticalCall
  {
    assert Supersedes(rs, ms, IndexOf(ms), IdenticalCall, i, j);
    SupersededIsRetired(rs, ms, floor, ret, p, IdenticalCall, i, j);
  }

  /** A marked-incomplete extract is retired once its artifact has been read again. */
  lemma ReReadIsRetired(rs: seq<Record>, ms: seq<Msg>, floor: nat, ret: map<nat, Retirement>, p: nat, i: nat, j: nat)
    requires Correct(rs, ms, IndexOf(ms), floor, ret) && i < j < |rs| && AnsweredAt(ms, rs[i].id, p)
    requires !(STUB_PREFIX <= TextAt(ms, p)) && |TextAt(ms, p)| >= floor
    requires rs[i].name == "read_tool_artifact" && Contains(TextAt(ms, p), INCOMPLETE_MARKER)
    requires rs[j].ok && rs[i].target == rs[j].target != ""
    ensures p in ret && ret[p].reason != Containment
  {
    var index := IndexOf(ms);
    AnswerIsIndexed(ms, rs[i].id, p);
    assert ReReads(rs, ms, index, i, j);
    if forall k :: !FirstReRead(rs, ms, index, i, k) { NoFirstReReadNoReRead(rs, ms, index, i, j + 1); }
    var x :| FirstReRead(rs, ms, index, i, x);
    SupersededIsRetired(rs, ms, floor, ret, p, IncompleteExtract, i, x);
  }

  /** A success whose text is part of the text of a later success is retired. */
  lemma ContainedIsRetired(rs: seq<Record>, ms: seq<Msg>, floor: nat, ret: map<nat, Retirement>, p: nat, i: nat, q: nat, j: nat)
    requires Correct(rs, ms, IndexOf(ms), floor, ret) && i < j < |rs| && AnsweredAt(ms, rs[i].id, p) && AnsweredAt(ms, rs[j].id, q)
    requires !(STUB_PREFIX <= TextAt(ms, p)) && |TextAt(ms, p)| >= floor
    requires rs[i].ok && rs[j].ok && TextAt(ms, p) != "" && Contains(TextAt(ms, q), TextAt(ms, p))
    ensures p in ret
  {
    var index := IndexOf(ms);
    AnswerIsIndexed(ms, rs[i].id, p);
    AnswerIsIndexed(ms, rs[j].id, q);
    assert Covers(rs, ms, index, i, j);
    if forall k :: !FirstCover(rs, ms, index, i, k) { NoFirstCoverNoCover(rs, ms, index, i, j + 1); }
    var x :| FirstCover(rs, ms, index, i, x);
    SupersededIsRetired(rs, ms, floor, ret, p, Containment, i, x);
  }

  function EventsFor(listed: seq<Retirement>, step: nat): (r: seq<Event>)
    ensures |r| == |listed|
    ensures forall a :: 0 <= a < |r| ==>
              && r[a].id == listed[a].id && r[a].name == listed[a].name && r[a].superseder == listed[a].superseder
              && r[a].reason == listed[a].reason && r[a].size == listed[a].size && r[a].step == step
  {
    seq(|listed|, a requires 0 <= a < |listed| => var r := listed[a];
      SupersessionEvent(r.id, r.name, r.reason, r.superseder, r.size, step))
  }

  /** A new message object in the place of the retired one, everything but the content carried over. */
  function Retired(ms: seq<Msg>, r: Retirement, stubs: StubBuilder): seq<Msg>
    requires r.messageIndex < |ms|
  {
    ms[r.messageIndex := ms[r.messageIndex].(content := Some(stubs(r)))]
  }

  /** The conversation once the retirements in done have been applied. */
  ghost predicate Partly(ms: seq<Msg>, now: seq<Msg>, ret: map<nat, Retirement>, done: seq<Retirement>, stubs: StubBuilder) {
    && |now| == |ms|
    && forall i :: 0 <= i < |ms| ==>
         now[i] == if i in ret && ret[i] in done then ms[i].(content := Some(StubFor(ret, stubs, i))) else ms[i]
  }

  lemma PartlyStep(ms: seq<Msg>, now: seq<Msg>, ret: map<nat, Retirement>, done: seq<Retirement>, r: Retirement, stubs: StubBuilder)
    requires Partly(ms, now, ret, done, stubs)
    requires forall k :: k in ret ==> ret[k].messageIndex == k
    requires r.messageIndex < |ms| && r.messageIndex in ret && ret[r.messageIndex] == r
    ensures Partly(ms, Retired(now, r, stubs), ret, done + [r], stubs)
  {
    assert forall x :: x in done + [r] <==> x in done || x == r;
  }

  lemma PartlyDone(ms: seq<Msg>, now: seq<Msg>, ret: map<nat, Retirement>, done: seq<Retirement>, stubs: StubBuilder)
    requires Partly(ms, now, ret, done, stubs) && forall k :: k in ret ==> ret[k] in done
    ensures now == Rewrite(ms, ret, stubs)
  {
    forall i | 0 <= i < |ms| ensures now[i] == Rewrite(ms, ret, stubs)[i] { }
  }

  // ------------------------------------------------------------- idempotence

  /**
   Record i is still retirable after the pass, and the stub just written over
   the message of a later success j happens to contain its text.
   */
  ghost predicate StubLeak(rs: seq<Record>, ms: seq<Msg>, floor: nat, ret: map<nat, Retirement>, stubs: StubBuilder, i: int, j: int) {
    var index := IndexOf(ms);
    && 0 <= i < j < |rs| && rs[i].ok && rs[j].ok
    && rs[i].id in index && index[rs[i].id] !in ret && Eligible(ms, floor, index[rs[i].id])
    && TextOf(ms, index, rs[i].id) != ""
    && rs[j].id in index && index[rs[j].id] in ret
    && Contains(StubFor(ret, stubs, index[rs[j].id]), TextOf(ms, index, rs[i].id))
  }

  lemma {:induction false} RewriteKeepsIndex(ms: seq<Msg>, ms': seq<Msg>)
    requires |ms| == |ms'|
    requires forall i :: 0 <= i < |ms| ==> ms'[i].role == ms[i].role && ms'[i].callId == ms[i].callId
    ensures IndexOf(ms') == IndexOf(ms)
  {
    if ms != [] {
      var n := |ms| - 1;
      RewriteKeepsIndex(ms[..n], ms'[..n]);
    }
  }

  /** Without a first cover there is no cover at all. */
  lemma {:induction false} NoFirstCoverNoCover(rs: seq<Record>, ms: seq<Msg>, index: map<string, nat>, i: int, n: nat)
    requires forall k :: !FirstCover(rs, ms, index, i, k)
    ensures forall k :: k < n ==> !Covers(rs, ms, index, i, k)
  {
    if n > 0 {
      NoFirstCoverNoCover(rs, ms, index, i, n - 1);
      assert !FirstCover(rs, ms, index, i, n - 1);
    }
  }

  /** What a pass leaves live and retirable, nothing supersedes. */
  lemma LiveIsNotSuperseded(rs: seq<Record>, ms: seq<Msg>, floor: nat, ret: map<nat, Retirement>, i: nat)
    requires Correct(rs, ms, IndexOf(ms), floor, ret) && i < |rs|
    requires !Handled(ms, IndexOf(ms), floor, ret, rs[i].id)
    ensures forall c, j :: !Supersedes(rs, ms, IndexOf(ms), c, i, j)
    ensures forall j :: !Covers(rs, ms, IndexOf(ms), i, j)
  {
    var index := IndexOf(ms);
    forall c, j ensures !Supersedes(rs, ms, index, c, i, j) { assert CaseDone(rs, ms, index, floor, ret, c); }
    forall k ensures !FirstCover(rs, ms, index, i, k) { assert !Supersedes(rs, ms, index, Containment, i, k); }
    NoFirstCoverNoCover(rs, ms, index, i, |rs|);
  }

  /** Whatever a second pass would retire is a leak through a stub of the first. */
  lemma SecondPassNeedsLeak(rs: seq<Record>, ms: seq<Msg>, floor: nat, ret: map<nat, Retirement>, stubs: StubBuilder,
                            c: Case, i: int, j: int)
    requires Prefixed(stubs) && Correct(rs, ms, IndexOf(ms), floor, ret)
    requires Supersedes(rs, Rewrite(ms, ret, stubs), IndexOf(ms), c, i, j) && rs[i].id in IndexOf(ms)
    requires Eligible(Rewrite(ms, ret, stubs), floor, IndexOf(ms)[rs[i].id])
    ensures StubLeak(rs, ms, floor, ret, stubs, i, j)
  {
    var index, ms' := IndexOf(ms), Rewrite(ms, ret, stubs);
    assert index[rs[i].id] !in ret && !Handled(ms, index, floor, ret, rs[i].id);
    SameRelations(rs, ms, ms', index, i);
    LiveIsNotSuperseded(rs, ms, floor, ret, i);
    assert c == Containment && TextOf(ms', index, rs[j].id) != TextOf(ms, index, rs[j].id);
  }

  /** Rewriting other messages does not touch the cases that look at record i's own text. */
  lemma SameRelations(rs: seq<Record>, ms: seq<Msg>, ms': seq<Msg>, index: map<string, nat>, i: nat)
    requires i < |rs| && TextOf(ms', index, rs[i].id) == TextOf(ms, index, rs[i].id)
    ensures forall j :: Supersedes(rs, ms', index, IdenticalCall, i, j) ==> Supersedes(rs, ms, index, IdenticalCall, i, j)
    ensures forall j :: Supersedes(rs, ms', index, IncompleteExtract, i, j) ==> Supersedes(rs, ms, index, IncompleteExtract, i, j)
    ensures forall j :: Covers(rs, ms', index, i, j) && TextOf(ms', index, rs[j].id) == TextOf(ms, index, rs[j].id) ==>
              Covers(rs, ms, index, i, j)
  {
    assert forall x :: ReReads(rs, ms', index, i, x) <==> ReReads(rs, ms, index, i, x);
  }

  /** And every leak is something a second pass retires. */
  lemma LeakFeedsSecondPass(rs: seq<Record>, ms: seq<Msg>, floor: nat, ret: map<nat, Retirement>, stubs: StubBuilder,
                            again: map<nat, Retirement>, i: int, j: int)
    requires StubLeak(rs, ms, floor, ret, stubs, i, j)
    requires CaseDone(rs, Rewrite(ms, ret, stubs), IndexOf(ms), floor, again, Containment)
    ensures again != map[]
  {
    var index, ms' := IndexOf(ms), Rewrite(ms, ret, stubs);
    assert Covers(rs, ms', index, i, j);
    if forall k :: !FirstCover(rs, ms', index, i, k) { NoFirstCoverNoCover(rs, ms', index, i, j + 1); }
    var x :| FirstCover(rs, ms', index, i, x);
    assert Supersedes(rs, ms', index, Containment, i, x);
    assert Handled(ms', index, floor, again, rs[i].id);
  }

  /**
   Idempotence, exactly: a second pass over the rewritten messages with the
   same records retires nothing if and only if no stub of the first pass
   contains the text of an earlier result that is still live.
   */
  lemma SecondPassIff(rs: seq<Record>, ms: seq<Msg>, floor: nat, ret: map<nat, Retirement>, stubs: StubBuilder,
                      again: map<nat, Retirement>)
    requires Prefixed(stubs) && Correct(rs, ms, IndexOf(ms), floor, ret)
    requires Correct(rs, Rewrite(ms, ret, stubs), IndexOf(Rewrite(ms, ret, stubs)), floor, again)
    ensures again == map[] <==> !exists i, j :: StubLeak(rs, ms, floor, ret, stubs, i, j)
  {
    var index, ms' := IndexOf(ms), Rewrite(ms, ret, stubs);
    RewriteKeepsIndex(ms, ms');
    if again != map[] {
      var k :| k in again;
      assert Explained(rs, ms', index, floor, again[k]);
      var i, j :| Supersedes(rs, ms', index, again[k].reason, i, j) && Names(rs, again[k], i, j);
      SecondPassNeedsLeak(rs, ms, floor, ret, stubs, again[k].reason, i, j);
    } else {
      forall i, j ensures !StubLeak(rs, ms, floor, ret, stubs, i, j) {
        if StubLeak(rs, ms, floor, ret, stubs, i, j) { LeakFeedsSecondPass(rs, ms, floor, ret, stubs, again, i, j); }
      }
    }
  }

  /** Every stub this pass writes is below the size floor. */
  ghost predicate ShortStubs(floor: nat, ret: map<nat, Retirement>, stubs: StubBuilder) {
    forall k :: k in ret ==> |StubFor(ret, stubs, k)| < floor
  }

  /** When that is so, from the names alone: 167 characters of frame and rule, and the names within the rest. */
  lemma ShortNamesMeanShortStubs(floor: nat, ret: map<nat, Retirement>, paths: PathHint)
    requires forall k :: k in ret ==>
               STUB_FRAME + 18 + |ret[k].name| + 2 * |ret[k].id| + |ret[k].superseder| + |Location(paths(ret[k].id))| < floor
    ensures ShortStubs(floor, ret, StubsWith(paths))
  {
    forall k | k in ret ensures |StubFor(ret, StubsWith(paths), k)| < floor {
      StubLength(ret[k], paths(ret[k].id));
    }
  }

  lemma LongerIsNotContained(text: string, part: string)
    requires |part| > |text|
    ensures !Contains(text, part)
  {
  }

  lemma ShortStubsDoNotLeak(rs: seq<Record>, ms: seq<Msg>, floor: nat, ret: map<nat, Retirement>, stubs: StubBuilder, i: int, j: int)
    requires ShortStubs(floor, ret, stubs)
    ensures !StubLeak(rs, ms, floor, ret, stubs, i, j)
  {
    var index := IndexOf(ms);
    if 0 <= i < j < |rs| && rs[i].id in index && rs[j].id in index && index[rs[j].id] in ret && Eligible(ms, floor, index[rs[i].id]) {
      LongerIsNotContained(StubFor(ret, stubs, index[rs[j].id]), TextOf(ms, index, rs[i].id));
    }
  }

  /** With short stubs, a second pass retires nothing. */
  lemma ShortStubsMeanIdempotent(rs: seq<Record>, ms: seq<Msg>, floor: nat, ret: map<nat, Retirement>, stubs: StubBuilder,
                                 again: map<nat, Retirement>)
    requires Prefixed(stubs) && Correct(rs, ms, IndexOf(ms), floor, ret) && ShortStubs(floor, ret, stubs)
    requires Correct(rs, Rewrite(ms, ret, stubs), IndexOf(Rewrite(ms, ret, stubs)), floor, again)
    ensures again == map[]
  {
    SecondPassIff(rs, ms, floor, ret, stubs, again);
    forall i, j ensures !StubLeak(rs, ms, floor, ret, stubs, i, j) {
      ShortStubsDoNotLeak(rs, ms, floor, ret, stubs, i, j);
    }
  }

  // --------------------------------------------------------------- shrinkage

  function TotalSize(ms: seq<Msg>): nat {
    if ms == [] then 0 else TotalSize(ms[..|ms| - 1]) + |TextAt(ms, |ms| - 1)|
  }

  /** Retired characters minus stub characters, over the first n positions. */
  function Freed(ret: map<nat, Retirement>, stubs: StubBuilder, n: nat): int {
    if n == 0 then 0 else
      Freed(ret, stubs, n - 1) + if n - 1 in ret then ret[n - 1].size - |StubFor(ret, stubs, n - 1)| else 0
  }

  lemma {:induction false} TotalOfPrefix(ms: seq<Msg>, n: nat)
    requires n < |ms|
    ensures TotalSize(ms[..n + 1]) == TotalSize(ms[..n]) + |TextAt(ms, n)|
  {
    assert ms[..n + 1][..n] == ms[..n];
  }

  lemma {:induction false} RewriteFrees(ms: seq<Msg>, ret: map<nat, Retirement>, stubs: StubBuilder, n: nat)
    requires n <= |ms| && forall k :: k in ret ==> ret[k].size == |TextAt(ms, k)|
    ensures TotalSize(Rewrite(ms, ret, stubs)[..n]) == TotalSize(ms[..n]) - Freed(ret, stubs, n)
  {
    if n > 0 {
      RewriteFrees(ms, ret, stubs, n - 1);
      TotalOfPrefix(ms, n - 1);
      TotalOfPrefix(Rewrite(ms, ret, stubs), n - 1);
    }
  }

  lemma {:induction false} FreedIsPositive(floor: nat, ret: map<nat, Retirement>, stubs: StubBuilder, n: nat)
    requires ShortStubs(floor, ret, stubs) && forall k :: k in ret ==> ret[k].size >= floor
    ensures Freed(ret, stubs, n) >= 0
    ensures (exists k :: k in ret && k < n) ==> Freed(ret, stubs, n) > 0
  {
    if n > 0 { FreedIsPositive(floor, ret, stubs, n - 1); }
  }

  /** A pass shortens the conversation by exactly the retired text minus the stubs, and by something. */
  lemma PassShrinks(rs: seq<Record>, ms: seq<Msg>, floor: nat, ret: map<nat, Retirement>, stubs: StubBuilder)
    requires Correct(rs, ms, IndexOf(ms), floor, ret)
    ensures TotalSize(Rewrite(ms, ret, stubs)) == TotalSize(ms) - Freed(ret, stubs, |ms|)
    ensures ShortStubs(floor, ret, stubs) && ret != map[] ==> TotalSize(Rewrite(ms, ret, stubs)) < TotalSize(ms)
  {
    CorrectInRange(rs, ms, floor, ret);
    RewriteFrees(ms, ret, stubs, |ms|);
    assert Rewrite(ms, ret, stubs)[..|ms|] == Rewrite(ms, ret, stubs) && ms[..|ms|] == ms;
    if ShortStubs(floor, ret, stubs) && ret != map[] {
      FreedIsPositive(floor, ret, stubs, |ms|);
      var k :| k in ret;
    }
  }

  /** Only tool messages are touched. */
  lemma OnlyToolMessagesRetired(rs: seq<Record>, ms: seq<Msg>, floor: nat, ret: map<nat, Retirement>, stubs: StubBuilder, i: nat)
    requires Correct(rs, ms, IndexOf(ms), floor, ret) && i < |ms| && ms[i].role != "tool"
    ensures Rewrite(ms, ret, stubs)[i] == ms[i]
  {
    CorrectInRange(rs, ms, floor, ret);
  }
}

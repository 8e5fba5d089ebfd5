/**
 The supersession pass of the context guard: which tool results are provably
 obsolete, and what replacing them by stubs keeps, over one pass and over
 every run of dispatches and passes.
 */
module Supersession {
  import opened Prelude

  const STUB_PREFIX := "[Superseded —"
  const INCOMPLETE_MARKER := "[Extract incomplete —"
  const SIZE_FLOOR := 500

  datatype Case = IdenticalCall | IncompleteExtract | Containment

  /**
   A tool-call record. The signature is the tool name and the canonical JSON of
   the arguments; target is the artifact named in them, "" when there is none.
   */
  datatype Record = Record(name: string, signature: string, target: string, ok: bool, id: string)

  datatype Msg = Msg(role: string, callId: Option<string>, content: Option<string>)

  datatype Retirement = Retirement(
    messageIndex: nat, id: string, name: string, reason: Case, superseder: string, size: nat)

  // ------------------------------------------------------------ the messages

  predicate IsToolMessage(m: Msg) { m.role == "tool" && m.callId.Some? }

  /** The position of the last tool message answering each call. */
  function IndexOf(ms: seq<Msg>): (r: map<string, nat>)
    ensures IsIndex(ms, r)
  {
    if ms == [] then map[] else
      var n := |ms| - 1;
      var before := IndexOf(ms[..n]);
      if IsToolMessage(ms[n]) then before[ms[n].callId.value := n] else before
  }

  ghost predicate IsIndex(ms: seq<Msg>, index: map<string, nat>) {
    && (forall id :: id in index ==> index[id] < |ms| && IsToolMessage(ms[index[id]]) && ms[index[id]].callId.value == id)
    && (forall i :: 0 <= i < |ms| && IsToolMessage(ms[i]) ==>
          ms[i].callId.value in index && i <= index[ms[i].callId.value])
  }

  function TextAt(ms: seq<Msg>, i: nat): string {
    if i < |ms| && ms[i].content.Some? then ms[i].content.value else ""
  }

  function TextOf(ms: seq<Msg>, index: map<string, nat>, id: string): string {
    if id in index then TextAt(ms, index[id]) else ""
  }

  /** Neither a stub already nor too short to be worth retiring. */
  predicate Eligible(ms: seq<Msg>, floor: nat, i: nat) {
    !(STUB_PREFIX <= TextAt(ms, i)) && |TextAt(ms, i)| >= floor
  }

  // ------------------------------------------------------ what supersedes what

  /** Case C: j is the newest of a signature, it succeeded, and i is an older call of it. */
  predicate Repeats(rs: seq<Record>, i: int, j: int) {
    && 0 <= i < j < |rs| && rs[i].signature == rs[j].signature
    && (forall k :: j < k < |rs| ==> rs[k].signature != rs[j].signature)
    && rs[j].ok && rs[i].id != rs[j].id
  }

  /** Case A: i left a marked-incomplete extract, j later read the same artifact. */
  predicate ReReads(rs: seq<Record>, ms: seq<Msg>, index: map<string, nat>, i: int, j: int) {
    && 0 <= i < j < |rs| && rs[i].name == "read_tool_artifact" && rs[i].target != ""
    && Contains(TextOf(ms, index, rs[i].id), INCOMPLETE_MARKER)
    && rs[j].ok && rs[j].target == rs[i].target
  }

  /** Case B: the text of i is part of the text of a later successful j. */
  predicate Covers(rs: seq<Record>, ms: seq<Msg>, index: map<string, nat>, i: int, j: int) {
    && 0 <= i < j < |rs| && rs[i].ok && rs[j].ok && TextOf(ms, index, rs[i].id) != ""
    && Contains(TextOf(ms, index, rs[j].id), TextOf(ms, index, rs[i].id))
  }

  predicate FirstReRead(rs: seq<Record>, ms: seq<Msg>, index: map<string, nat>, i: int, j: int) {
    ReReads(rs, ms, index, i, j) && forall k :: i < k < j ==> !ReReads(rs, ms, index, i, k)
  }

  predicate FirstCover(rs: seq<Record>, ms: seq<Msg>, index: map<string, nat>, i: int, j: int) {
    Covers(rs, ms, index, i, j) && forall k :: i < k < j ==> !Covers(rs, ms, index, i, k)
  }

  /** Record j is the one named as superseding record i in case c. */
  predicate Supersedes(rs: seq<Record>, ms: seq<Msg>, index: map<string, nat>, c: Case, i: int, j: int) {
    match c
    case IdenticalCall => Repeats(rs, i, j)
    case IncompleteExtract => FirstReRead(rs, ms, index, i, j)
    case Containment => FirstCover(rs, ms, index, i, j)
  }

  ghost predicate Names(rs: seq<Record>, r: Retirement, i: int, j: int) {
    && 0 <= i < |rs| && 0 <= j < |rs|
    && rs[i].id == r.id && rs[i].name == r.name && rs[j].id == r.superseder
  }

  ghost predicate Explained(rs: seq<Record>, ms: seq<Msg>, index: map<string, nat>, floor: nat, r: Retirement) {
    && Eligible(ms, floor, r.messageIndex) && r.size == |TextAt(ms, r.messageIndex)|
    && r.id in index && index[r.id] == r.messageIndex
    && exists i, j :: Supersedes(rs, ms, index, r.reason, i, j) && Names(rs, r, i, j)
  }

  ghost predicate Sound(rs: seq<Record>, ms: seq<Msg>, index: map<string, nat>, floor: nat, ret: map<nat, Retirement>) {
    forall k :: k in ret ==> ret[k].messageIndex == k && Explained(rs, ms, index, floor, ret[k])
  }

  /** A superseded message is retired, unless it is a stub or below the floor. */
  ghost predicate Handled(ms: seq<Msg>, index: map<string, nat>, floor: nat, ret: map<nat, Retirement>, id: string) {
    id in index && Eligible(ms, floor, index[id]) ==> index[id] in ret
  }

  ghost predicate CaseDone(rs: seq<Record>, ms: seq<Msg>, index: map<string, nat>, floor: nat,
                           ret: map<nat, Retirement>, c: Case) {
    forall i, j :: Supersedes(rs, ms, index, c, i, j) ==> Handled(ms, index, floor, ret, rs[i].id)
  }

  function Rank(c: Case): nat {
    match c case IdenticalCall => 0 case IncompleteExtract => 1 case Containment => 2
  }

  /** Cases are tried in order: a retirement is filed under the first case that applies. */
  ghost predicate FirstCaseWins(rs: seq<Record>, ms: seq<Msg>, index: map<string, nat>, ret: map<nat, Retirement>) {
    forall k, c, i, j :: k in ret && Rank(c) < Rank(ret[k].reason) && Supersedes(rs, ms, index, c, i, j) ==>
      rs[i].id !in index || index[rs[i].id] != k
  }

  /** The full answer of one pass: nothing unexplained, nothing missing, filed under the first case. */
  ghost predicate Correct(rs: seq<Record>, ms: seq<Msg>, index: map<string, nat>, floor: nat, ret: map<nat, Retirement>) {
    && Sound(rs, ms, index, floor, ret)
    && (forall c :: CaseDone(rs, ms, index, floor, ret, c))
    && FirstCaseWins(rs, ms, index, ret)
  }

  // --------------------------------------------------------------- the finders

  function Consider(ms: seq<Msg>, index: map<string, nat>, floor: nat, ret: map<nat, Retirement>,
                    c: Case, older: Record, superseder: string): map<nat, Retirement> {
    if older.id !in index || index[older.id] in ret || !Eligible(ms, floor, index[older.id]) then ret else
      var k := index[older.id];
      ret[k := Retirement(k, older.id, older.name, c, superseder, |TextAt(ms, k)|)]
  }

  ghost predicate Grows(before: map<nat, Retirement>, after: map<nat, Retirement>, c: Case) {
    && (forall k :: k in before ==> k in after && after[k] == before[k])
    && (forall k :: k in after && k !in before ==> after[k].reason == c)
  }

  lemma ConsiderStep(rs: seq<Record>, ms: seq<Msg>, index: map<string, nat>, floor: nat,
                     ret0: map<nat, Retirement>, ret: map<nat, Retirement>, c: Case, i: int, j: int)
    requires Sound(rs, ms, index, floor, ret) && Grows(ret0, ret, c) && Supersedes(rs, ms, index, c, i, j)
    ensures var ret' := Consider(ms, index, floor, ret, c, rs[i], rs[j].id);
            && Sound(rs, ms, index, floor, ret') && Grows(ret0, ret', c)
            && Handled(ms, index, floor, ret', rs[i].id) && forall k :: k in ret ==> k in ret'
  {
    if rs[i].id in index && Eligible(ms, floor, index[rs[i].id]) {
      EntryExplained(rs, ms, index, floor, c, i, j);
    }
  }

  lemma EntryExplained(rs: seq<Record>, ms: seq<Msg>, index: map<string, nat>, floor: nat, c: Case, i: int, j: int)
    requires Supersedes(rs, ms, index, c, i, j) && rs[i].id in index && Eligible(ms, floor, index[rs[i].id])
    ensures var k := index[rs[i].id];
            Explained(rs, ms, index, floor, Retirement(k, rs[i].id, rs[i].name, c, rs[j].id, |TextAt(ms, k)|))
  {
    var k := index[rs[i].id];
    assert Names(rs, Retirement(k, rs[i].id, rs[i].name, c, rs[j].id, |TextAt(ms, k)|), i, j);
  }

  /** The positions of a signature's records among the first n, in call order. */
  ghost predicate IsGroup(rs: seq<Record>, n: int, sig: string, group: seq<nat>) {
    && 0 <= n <= |rs|
    && (forall a :: 0 <= a < |group| ==> group[a] < n && rs[group[a]].signature == sig)
    && (forall a, b :: 0 <= a < b < |group| ==> group[a] < group[b])
    && (forall i :: 0 <= i < n && rs[i].signature == sig ==> i in group)
  }

  lemma GroupGrows(rs: seq<Record>, n: nat, sig: string, group: seq<nat>)
    requires n < |rs| && IsGroup(rs, n, sig, group)
    ensures IsGroup(rs, n + 1, sig, if rs[n].signature == sig then group + [n] else group)
  {
    var grown := group + [n];
    forall i | 0 <= i < n + 1 && rs[i].signature == sig ensures i in grown {
      if i < n {
        var a :| 0 <= a < |group| && group[a] == i;
        assert grown[a] == i;
      } else {
        assert grown[|group|] == i;
      }
    }
  }

  ghost predicate AllGroups(rs: seq<Record>, n: int, groups: map<string, seq<nat>>) {
    && 0 <= n <= |rs|
    && (forall i :: 0 <= i < n ==> rs[i].signature in groups)
    && (forall sig :: sig in groups ==> IsGroup(rs, n, sig, groups[sig]))
  }

  function PutInGroup(groups: map<string, seq<nat>>, sig: string, n: nat): map<string, seq<nat>> {
    groups[sig := (if sig in groups then groups[sig] else []) + [n]]
  }

  lemma GroupsGrow(rs: seq<Record>, n: nat, groups: map<string, seq<nat>>)
    requires n < |rs| && AllGroups(rs, n, groups)
    ensures AllGroups(rs, n + 1, PutInGroup(groups, rs[n].signature, n))
  {
    var grown := PutInGroup(groups, rs[n].signature, n);
    forall sig | sig in grown ensures IsGroup(rs, n + 1, sig, grown[sig]) {
      GroupGrows(rs, n, sig, if sig in groups then groups[sig] else []);
    }
  }

  method GroupBySignature(rs: seq<Record>) returns (order: seq<string>, groups: map<string, seq<nat>>)
    ensures AllGroups(rs, |rs|, groups) && forall sig :: sig in groups <==> sig in order
  {
    order, groups := [], map[];
    for n := 0 to |rs|
      invariant AllGroups(rs, n, groups) && forall sig :: sig in groups <==> sig in order
    {
      GroupsGrow(rs, n, groups);
      if rs[n].signature !in groups { order := order + [rs[n].signature]; }
      groups := PutInGroup(groups, rs[n].signature, n);
    }
  }

  /** Within a group, every pair (older, newest) is a repeat, and there is no other repeat. */
  lemma GroupRepeats(rs: seq<Record>, sig: string, group: seq<nat>, i: int, j: int)
    requires IsGroup(rs, |rs|, sig, group) && 0 <= i < |rs| && rs[i].signature == sig
    ensures Repeats(rs, i, j) <==>
      |group| >= 2 && j == group[|group| - 1] && rs[j].ok && i in group[..|group| - 1] && rs[i].id != rs[j].id
  {
    assert i in group;
    var last := group[|group| - 1];
    var a :| 0 <= a < |group| && group[a] == i;
    if i != last { assert a < |group| - 1 && group[..|group| - 1][a] == i; }
    forall k | last < k < |rs| && k in group ensures false {
      var b :| 0 <= b < |group| && group[b] == k;
    }
  }

  method FindIdenticalCalls(rs: seq<Record>, ms: seq<Msg>, index: map<string, nat>, floor: nat)
    returns (ret: map<nat, Retirement>)
    ensures Sound(rs, ms, index, floor, ret) && Grows(map[], ret, IdenticalCall)
    ensures CaseDone(rs, ms, index, floor, ret, IdenticalCall)
  {
    ret := map[];
    var order, groups := GroupBySignature(rs);
    for g := 0 to |order|
      invariant Sound(rs, ms, index, floor, ret) && Grows(map[], ret, IdenticalCall)
      invariant forall i, j :: Repeats(rs, i, j) && rs[i].signature in order[..g] ==>
        Handled(ms, index, floor, ret, rs[i].id)
    {
      var sig := order[g];
      ghost var ret0 := ret;
      ret := RetireGroup(rs, ms, index, floor, sig, groups[sig], ret);
      forall i, j | Repeats(rs, i, j) && rs[i].signature in order[..g + 1]
        ensures Handled(ms, index, floor, ret, rs[i].id)
      {
        if rs[i].signature in order[..g] { assert Handled(ms, index, floor, ret0, rs[i].id); }
      }
    }
    forall i, j | Repeats(rs, i, j) ensures Handled(ms, index, floor, ret, rs[i].id) {
      assert rs[i].signature in order[..|order|];
    }
  }

  method RetireGroup(rs: seq<Record>, ms: seq<Msg>, index: map<string, nat>, floor: nat,
                     sig: string, group: seq<nat>, ret0: map<nat, Retirement>)
    returns (ret: map<nat, Retirement>)
    requires IsGroup(rs, |rs|, sig, group)
    requires Sound(rs, ms, index, floor, ret0) && Grows(map[], ret0, IdenticalCall)
    ensures Sound(rs, ms, index, floor, ret) && Grows(map[], ret, IdenticalCall)
    ensures forall k :: k in ret0 ==> k in ret
    ensures forall i, j :: Repeats(rs, i, j) && rs[i].signature == sig ==> Handled(ms, index, floor, ret, rs[i].id)
  {
    ret := ret0;
    forall i, j | Repeats(rs, i, j) && rs[i].signature == sig
      ensures |group| >= 2 && rs[group[|group| - 1]].ok && j == group[|group| - 1] && i in group[..|group| - 1]
    {
      GroupRepeats(rs, sig, group, i, j);
    }
    if |group| < 2 { return; }
    var newest := group[|group| - 1];
    if !rs[newest].ok { return; }
    var olders := group[..|group| - 1];
    for a := 0 to |olders|
      invariant Sound(rs, ms, index, floor, ret) && Grows(map[], ret, IdenticalCall)
      invariant forall k :: k in ret0 ==> k in ret
      invariant forall i :: i in olders[..a] && rs[i].id != rs[newest].id ==> Handled(ms, index, floor, ret, rs[i].id)
    {
      var older := rs[olders[a]];
      if older.id != rs[newest].id {
        GroupRepeats(rs, sig, group, olders[a], newest);
        ConsiderStep(rs, ms, index, floor, map[], ret, IdenticalCall, olders[a], newest);
        ret := Consider(ms, index, floor, ret, IdenticalCall, older, rs[newest].id);
      }
    }
    assert olders[..|olders|] == olders;
  }

  method FindIncompleteExtracts(rs: seq<Record>, ms: seq<Msg>, index: map<string, nat>, floor: nat,
                                ret0: map<nat, Retirement>)
    returns (ret: map<nat, Retirement>)
    requires Sound(rs, ms, index, floor, ret0)
    ensures Sound(rs, ms, index, floor, ret) && Grows(ret0, ret, IncompleteExtract)
    ensures CaseDone(rs, ms, index, floor, ret, IncompleteExtract)
  {
    ret := ret0;
    for i := 0 to |rs|
      invariant Sound(rs, ms, index, floor, ret) && Grows(ret0, ret, IncompleteExtract)
      invariant forall a, j :: 0 <= a < i && FirstReRead(rs, ms, index, a, j) ==> Handled(ms, index, floor, ret, rs[a].id)
    {
      var j := FindReRead(rs, ms, index, i);
      if j < |rs| {
        ConsiderStep(rs, ms, index, floor, ret0, ret, IncompleteExtract, i, j);
        ret := Consider(ms, index, floor, ret, IncompleteExtract, rs[i], rs[j].id);
      }
    }
  }

  /** The first later successful read of the same artifact, or the end of the list. */
  method FindReRead(rs: seq<Record>, ms: seq<Msg>, index: map<string, nat>, i: nat) returns (j: nat)
    requires i < |rs|
    ensures if j < |rs| then FirstReRead(rs, ms, index, i, j) else forall k :: !ReReads(rs, ms, index, i, k)
  {
    if rs[i].name != "read_tool_artifact" { return |rs|; }
    if !Contains(TextOf(ms, index, rs[i].id), INCOMPLETE_MARKER) { return |rs|; }
    if rs[i].target == "" { return |rs|; }
    j := i + 1;
    while j < |rs| && !(rs[j].ok && rs[j].target == rs[i].target)
      invariant i < j <= |rs|
      invariant forall k :: i < k < j ==> !(rs[k].ok && rs[k].target == rs[i].target)
    {
      j := j + 1;
    }
  }

  /** The positions of the successful records among the first n, in call order. */
  ghost predicate IsSuccesses(rs: seq<Record>, n: int, s: seq<nat>) {
    && 0 <= n <= |rs|
    && (forall a :: 0 <= a < |s| ==> s[a] < n && rs[s[a]].ok)
    && (forall a, b :: 0 <= a < b < |s| ==> s[a] < s[b])
    && (forall i :: 0 <= i < n && rs[i].ok ==> i in s)
  }

  method Successes(rs: seq<Record>) returns (s: seq<nat>)
    ensures IsSuccesses(rs, |rs|, s)
  {
    s := [];
    for n := 0 to |rs|
      invariant IsSuccesses(rs, n, s)
    {
      ghost var s0 := s;
      if rs[n].ok {
        s := s + [n];
        assert n in s && forall i :: i in s0 ==> i in s;
      }
    }
  }

  method FindContainments(rs: seq<Record>, ms: seq<Msg>, index: map<string, nat>, floor: nat,
                          ret0: map<nat, Retirement>)
    returns (ret: map<nat, Retirement>)
    requires Sound(rs, ms, index, floor, ret0)
    ensures Sound(rs, ms, index, floor, ret) && Grows(ret0, ret, Containment)
    ensures CaseDone(rs, ms, index, floor, ret, Containment)
  {
    ret := ret0;
    var s := Successes(rs);
    for a := 0 to |s|
      invariant Sound(rs, ms, index, floor, ret) && Grows(ret0, ret, Containment)
      invariant forall i, j :: i in s[..a] && FirstCover(rs, ms, index, i, j) ==> Handled(ms, index, floor, ret, rs[i].id)
    {
      var j := FindCover(rs, ms, index, s, a);
      if j < |rs| {
        ConsiderStep(rs, ms, index, floor, ret0, ret, Containment, s[a], j);
        ret := Consider(ms, index, floor, ret, Containment, rs[s[a]], rs[j].id);
      }
    }
    forall i, j | FirstCover(rs, ms, index, i, j) ensures Handled(ms, index, floor, ret, rs[i].id) {
      assert i in s[..|s|];
    }
  }

  /** The first later success whose text holds the text of the a-th success, or the end of the list. */
  method FindCover(rs: seq<Record>, ms: seq<Msg>, index: map<string, nat>, s: seq<nat>, a: nat) returns (j: nat)
    requires IsSuccesses(rs, |rs|, s) && a < |s|
    ensures if j < |rs| then FirstCover(rs, ms, index, s[a], j) else forall k :: !Covers(rs, ms, index, s[a], k)
  {
    var earlier := TextOf(ms, index, rs[s[a]].id);
    if earlier == "" { return |rs|; }
    var b := a + 1;
    while b < |s| && !(|TextOf(ms, index, rs[s[b]].id)| >= |earlier| && Contains(TextOf(ms, index, rs[s[b]].id), earlier))
      invariant a < b <= |s|
      invariant forall c :: a < c < b ==> !Covers(rs, ms, index, s[a], s[c])
    {
      b := b + 1;
    }
    j := if b < |s| then s[b] else |rs|;
    forall k | s[a] < k < j ensures !Covers(rs, ms, index, s[a], k) {
      if k < |rs| && rs[k].ok { var c :| 0 <= c < |s| && s[c] == k; }
    }
  }

  /** All three finders, in order; the answer is listed by message position, each position once. */
  method FindRetirements(rs: seq<Record>, ms: seq<Msg>, floor: nat)
    returns (ret: map<nat, Retirement>, listed: seq<Retirement>)
    ensures Correct(rs, ms, IndexOf(ms), floor, ret)
    ensures forall r :: r in listed <==> r.messageIndex in ret && ret[r.messageIndex] == r
    ensures forall a, b :: 0 <= a < b < |listed| ==> listed[a].messageIndex < listed[b].messageIndex
  {
    var index := IndexOf(ms);
    var identical := FindIdenticalCalls(rs, ms, index, floor);
    var extracts := FindIncompleteExtracts(rs, ms, index, floor, identical);
    ret := FindContainments(rs, ms, index, floor, extracts);
    CasesCompose(rs, ms, index, floor, identical, extracts, ret);
    listed := SortByMessage(|ms|, ret);
  }

  lemma CasesCompose(rs: seq<Record>, ms: seq<Msg>, index: map<string, nat>, floor: nat,
                     identical: map<nat, Retirement>, extracts: map<nat, Retirement>, ret: map<nat, Retirement>)
    requires Sound(rs, ms, index, floor, identical) && Sound(rs, ms, index, floor, ret)
    requires Grows(map[], identical, IdenticalCall) && CaseDone(rs, ms, index, floor, identical, IdenticalCall)
    requires Grows(identical, extracts, IncompleteExtract) && CaseDone(rs, ms, index, floor, extracts, IncompleteExtract)
    requires Grows(extracts, ret, Containment) && CaseDone(rs, ms, index, floor, ret, Containment)
    ensures Correct(rs, ms, index, floor, ret)
  {
    forall c ensures CaseDone(rs, ms, index, floor, ret, c) {
      forall i, j | Supersedes(rs, ms, index, c, i, j) ensures Handled(ms, index, floor, ret, rs[i].id) {
        match c
        case IdenticalCall => assert Handled(ms, index, floor, identical, rs[i].id);
        case IncompleteExtract => assert Handled(ms, index, floor, extracts, rs[i].id);
        case Containment =>
      }
    }
    forall k, c, i, j | k in ret && Rank(c) < Rank(ret[k].reason) && Supersedes(rs, ms, index, c, i, j)
      ensures rs[i].id !in index || index[rs[i].id] != k
    {
      assert Eligible(ms, floor, k);
      if c == IdenticalCall { assert Handled(ms, index, floor, identical, rs[i].id); }
      else { assert Handled(ms, index, floor, extracts, rs[i].id); }
    }
  }

  method SortByMessage(n: nat, ret: map<nat, Retirement>) returns (listed: seq<Retirement>)
    requires forall k :: k in ret ==> ret[k].messageIndex == k < n
    ensures forall r :: r in listed <==> r.messageIndex in ret && ret[r.messageIndex] == r
    ensures forall a, b :: 0 <= a < b < |listed| ==> listed[a].messageIndex < listed[b].messageIndex
  {
    listed := [];
    for k := 0 to n
      invariant forall r :: r in listed <==> r.messageIndex < k && r.messageIndex in ret && ret[r.messageIndex] == r
      invariant forall a, b :: 0 <= a < b < |listed| ==> listed[a].messageIndex < listed[b].messageIndex
    {
      if k in ret {
        assert forall a :: 0 <= a < |listed| ==> listed[a] in listed;
        listed := listed + [ret[k]];
      }
    }
  }
}

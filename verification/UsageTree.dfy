/** Token usage over a tree of delegated agents, and the check of the saved sessions. */
module UsageTree {
  import opened Prelude

  datatype Tokens = Tokens(prompt: int, completion: int, total: int) {
    function Plus(t: Tokens): Tokens { Tokens(prompt + t.prompt, completion + t.completion, total + t.total) }

    function Minus(t: Tokens): Tokens { Tokens(prompt - t.prompt, completion - t.completion, total - t.total) }
  }

  const NONE: Tokens := Tokens(0, 0, 0)

  /** A call row; a row without a kind counts as a main call. */
  datatype Call = Call(kind: Option<string>, used: Tokens) {
    function Kind(): string { if kind.Some? then kind.value else "main" }
  }

  /** One key of a per-kind dictionary, in insertion order. */
  datatype Entry = Entry(kind: string, sums: Tokens)

  datatype Summary = Summary(id: string, byKind: seq<Entry>, descendants: seq<Summary>, grandTotal: Tokens)

  // ------------------------------------------------------- per-kind dictionary

  function Find(entries: seq<Entry>, kind: string): (k: nat)
    ensures k <= |entries|
    ensures k < |entries| ==> entries[k].kind == kind
    ensures forall j :: 0 <= j < k ==> entries[j].kind != kind
  {
    if entries == [] then 0
    else
      var k := Find(entries[..|entries| - 1], kind);
      if k < |entries| - 1 || entries[|entries| - 1].kind == kind then k else |entries|
  }

  /** The row's figures go to its kind's entry, which is created at zero first if need be. */
  function AddRow(entries: seq<Entry>, c: Call): seq<Entry> {
    var k := Find(entries, c.Kind());
    if k < |entries| then entries[k := Entry(c.Kind(), entries[k].sums.Plus(c.used))]
    else entries + [Entry(c.Kind(), NONE.Plus(c.used))]
  }

  function ByKind(calls: seq<Call>): seq<Entry> {
    if calls == [] then [] else AddRow(ByKind(calls[..|calls| - 1]), calls[|calls| - 1])
  }

  function SumEntries(entries: seq<Entry>): Tokens {
    if entries == [] then NONE else SumEntries(entries[..|entries| - 1]).Plus(entries[|entries| - 1].sums)
  }

  function SumCalls(calls: seq<Call>): Tokens {
    if calls == [] then NONE else SumCalls(calls[..|calls| - 1]).Plus(calls[|calls| - 1].used)
  }

  function OfKind(calls: seq<Call>, kind: string): seq<Call> {
    if calls == [] then [] else
      var last := calls[|calls| - 1];
      OfKind(calls[..|calls| - 1], kind) + if last.Kind() == kind then [last] else []
  }

  method AddToKind(byKind: seq<Entry>, c: Call) returns (byKind': seq<Entry>)
    ensures byKind' == AddRow(byKind, c)
  {
    var kind := c.Kind();
    var k := Find(byKind, kind);
    byKind' := if k == |byKind| then byKind + [Entry(kind, NONE)] else byKind;
    byKind' := byKind'[k := Entry(kind, byKind'[k].sums.Plus(c.used))];
  }

  method SumCallsByKind(calls: seq<Call>) returns (byKind: seq<Entry>)
    ensures byKind == ByKind(calls)
  {
    byKind := [];
    var i := 0;
    while i < |calls|
      invariant 0 <= i <= |calls|
      invariant byKind == ByKind(calls[..i])
    {
      byKind := AddToKind(byKind, calls[i]);
      assert calls[..i + 1][..i] == calls[..i];
      i := i + 1;
    }
    assert calls[..i] == calls;
  }

  method SumTotals(byKind: seq<Entry>) returns (total: Tokens)
    ensures total == SumEntries(byKind)
  {
    total := NONE;
    var i := 0;
    while i < |byKind|
      invariant 0 <= i <= |byKind|
      invariant total == SumEntries(byKind[..i])
    {
      assert byKind[..i + 1][..i] == byKind[..i];
      total := total.Plus(byKind[i].sums);
      i := i + 1;
    }
    assert byKind[..i] == byKind;
  }

  lemma {:induction false} SumAfterUpdate(entries: seq<Entry>, k: nat, t: Tokens)
    requires k < |entries|
    ensures SumEntries(entries[k := Entry(entries[k].kind, entries[k].sums.Plus(t))]) == SumEntries(entries).Plus(t)
  {
    var n := |entries| - 1;
    var updated := entries[k := Entry(entries[k].kind, entries[k].sums.Plus(t))];
    if k == n {
      assert updated[..n] == entries[..n];
    } else {
      SumAfterUpdate(entries[..n], k, t);
      assert updated[..n] == entries[..n][k := updated[k]];
    }
  }

  lemma SumAfterRow(entries: seq<Entry>, c: Call)
    ensures SumEntries(AddRow(entries, c)) == SumEntries(entries).Plus(c.used)
  {
    var k := Find(entries, c.Kind());
    if k < |entries| {
      SumAfterUpdate(entries, k, c.used);
    } else {
      assert AddRow(entries, c)[..|entries|] == entries;
    }
  }

  /** Splitting the rows by kind loses and invents nothing. */
  lemma {:induction false} KindsAddUp(calls: seq<Call>)
    ensures SumEntries(ByKind(calls)) == SumCalls(calls)
  {
    if calls != [] {
      KindsAddUp(calls[..|calls| - 1]);
      SumAfterRow(ByKind(calls[..|calls| - 1]), calls[|calls| - 1]);
    }
  }

  ghost predicate Distinct(entries: seq<Entry>) {
    forall j, k :: 0 <= j < k < |entries| ==> entries[j].kind != entries[k].kind
  }

  lemma AddRowDistinct(entries: seq<Entry>, c: Call)
    requires Distinct(entries)
    ensures Distinct(AddRow(entries, c))
    ensures forall k :: 0 <= k < |AddRow(entries, c)| ==>
              AddRow(entries, c)[k].kind == c.Kind() || (k < |entries| && AddRow(entries, c)[k] == entries[k])
  {
  }

  ghost predicate EntryHolds(entries: seq<Entry>, calls: seq<Call>, k: nat)
    requires k < |entries|
  {
    OfKind(calls, entries[k].kind) != [] && entries[k].sums == SumCalls(OfKind(calls, entries[k].kind))
  }

  lemma OfKindNext(calls: seq<Call>, c: Call, kind: string)
    ensures OfKind(calls + [c], kind) == if c.Kind() == kind then OfKind(calls, kind) + [c] else OfKind(calls, kind)
    ensures c.Kind() == kind ==> SumCalls(OfKind(calls + [c], kind)) == SumCalls(OfKind(calls, kind)).Plus(c.used)
  {
    assert (calls + [c])[..|calls|] == calls;
    assert (OfKind(calls, kind) + [c])[..|OfKind(calls, kind)|] == OfKind(calls, kind);
    assert OfKind(calls, kind) + [] == OfKind(calls, kind);
  }

  lemma {:induction false} NoEntryNoRows(calls: seq<Call>, kind: string)
    requires Find(ByKind(calls), kind) == |ByKind(calls)|
    ensures OfKind(calls, kind) == []
  {
    if calls != [] {
      var n := |calls| - 1;
      var before := ByKind(calls[..n]);
      var k := Find(before, calls[n].Kind());
      assert ByKind(calls)[k].kind == calls[n].Kind();
      assert forall j :: 0 <= j < |before| ==> ByKind(calls)[j].kind == before[j].kind;
      NoEntryNoRows(calls[..n], kind);
    }
  }

  lemma EntryKept(entries: seq<Entry>, calls: seq<Call>, c: Call, k: nat)
    requires k < |entries| && Distinct(entries) && EntryHolds(entries, calls, k)
    ensures EntryHolds(AddRow(entries, c), calls + [c], k)
  {
    OfKindNext(calls, c, entries[k].kind);
    var f := Find(entries, c.Kind());
    if f == k {
      assert AddRow(entries, c)[k] == Entry(c.Kind(), entries[k].sums.Plus(c.used));
    } else {
      assert entries[k].kind != c.Kind();
      assert AddRow(entries, c)[k] == entries[k];
    }
  }

  lemma EntryNew(entries: seq<Entry>, calls: seq<Call>, c: Call)
    requires Find(entries, c.Kind()) == |entries| && OfKind(calls, c.Kind()) == []
    ensures EntryHolds(AddRow(entries, c), calls + [c], |entries|)
  {
    OfKindNext(calls, c, c.Kind());
  }

  lemma RowKeepsEntries(entries: seq<Entry>, calls: seq<Call>, c: Call)
    requires Distinct(entries) && EntriesOk(entries, calls)
    requires Find(entries, c.Kind()) == |entries| ==> OfKind(calls, c.Kind()) == []
    ensures EntriesOk(AddRow(entries, c), calls + [c])
  {
    forall k | 0 <= k < |AddRow(entries, c)| ensures EntryHolds(AddRow(entries, c), calls + [c], k) {
      if k < |entries| {
        EntryKept(entries, calls, c, k);
      } else {
        EntryNew(entries, calls, c);
      }
    }
  }

  lemma NextRowHolds(calls: seq<Call>, c: Call)
    requires Distinct(ByKind(calls)) && EntriesOk(ByKind(calls), calls)
    ensures Distinct(AddRow(ByKind(calls), c)) && EntriesOk(AddRow(ByKind(calls), c), calls + [c])
  {
    AddRowDistinct(ByKind(calls), c);
    if Find(ByKind(calls), c.Kind()) == |ByKind(calls)| { NoEntryNoRows(calls, c.Kind()); }
    RowKeepsEntries(ByKind(calls), calls, c);
  }

  lemma {:induction false} EachEntryHolds(calls: seq<Call>)
    ensures Distinct(ByKind(calls)) && EntriesOk(ByKind(calls), calls)
  {
    if calls != [] {
      var n := |calls| - 1;
      EachEntryHolds(calls[..n]);
      NextRowHolds(calls[..n], calls[n]);
      assert calls == calls[..n] + [calls[n]];
    }
  }

  /** The dictionary has one entry for each kind that occurs, holding the sum of that kind's rows. */
  lemma EntriesHold(calls: seq<Call>)
    ensures Distinct(ByKind(calls)) && KindsHold(ByKind(calls), calls)
  {
    EachEntryHolds(calls);
    forall kind | OfKind(calls, kind) != [] ensures Find(ByKind(calls), kind) < |ByKind(calls)| {
      if Find(ByKind(calls), kind) == |ByKind(calls)| { NoEntryNoRows(calls, kind); }
    }
  }

  ghost predicate EntriesOk(entries: seq<Entry>, calls: seq<Call>) {
    forall k :: 0 <= k < |entries| ==> EntryHolds(entries, calls, k)
  }

  /** Every entry is the sum of its kind's rows, and no kind that has rows is missing. */
  ghost predicate KindsHold(entries: seq<Entry>, calls: seq<Call>) {
    EntriesOk(entries, calls) && NoneMissing(entries, calls)
  }

  ghost predicate NoneMissing(entries: seq<Entry>, calls: seq<Call>) {
    forall kind :: OfKind(calls, kind) != [] ==> Find(entries, kind) < |entries|
  }

  predicate SameDictionary(d: seq<Entry>, e: seq<Entry>) {
    (forall x | x in d :: x in e) && (forall x | x in e :: x in d)
  }

  lemma HoldsIsContained(d: seq<Entry>, e: seq<Entry>, calls: seq<Call>)
    requires KindsHold(d, calls) && KindsHold(e, calls)
    ensures forall x :: x in d ==> x in e
  {
    forall x | x in d ensures x in e {
      var k :| 0 <= k < |d| && d[k] == x;
      assert EntryHolds(d, calls, k);
      var j := Find(e, x.kind);
      assert EntryHolds(e, calls, j) && e[j] == x;
    }
  }

  /** A persisted dictionary equals the recomputed one exactly when it says the right thing about every kind. */
  lemma SameDictionaryIff(calls: seq<Call>, e: seq<Entry>)
    ensures SameDictionary(ByKind(calls), e) <==> KindsHold(e, calls)
  {
    var d := ByKind(calls);
    EntriesHold(calls);
    if KindsHold(e, calls) {
      HoldsIsContained(d, e, calls);
      HoldsIsContained(e, d, calls);
    }
    if SameDictionary(d, e) {
      forall k | 0 <= k < |e| ensures EntryHolds(e, calls, k) {
        assert e[k] in d;
        var j :| 0 <= j < |d| && d[j] == e[k];
        assert EntryHolds(d, calls, j);
      }
      forall kind | OfKind(calls, kind) != [] ensures Find(e, kind) < |e| {
        assert d[Find(d, kind)] in e;
      }
    }
  }

  // --------------------------------------------------------------- the agents

  class AgentNode {
    const id: string
    var llmCalls: seq<Call>
    var childRollups: seq<Summary>

    constructor (id: string)
      ensures this.id == id && llmCalls == [] && childRollups == []
    {
      this.id := id;
      llmCalls, childRollups := [], [];
    }

    method RecordCall(c: Call)
      modifies this`llmCalls
      ensures llmCalls == old(llmCalls) + [c]
    {
      llmCalls := llmCalls + [c];
    }

    method AddChildUsage(summary: Summary)
      modifies this`childRollups
      ensures childRollups == old(childRollups) + [summary]
    {
      childRollups := childRollups + [summary];
    }

    method GrandTotal(own: Tokens) returns (total: Tokens)
      ensures total == own.Plus(SumGrandTotals(childRollups))
    {
      total := AddGrandTotals(own, childRollups);
    }

    method UsageSummary() returns (summary: Summary)
      ensures summary == Summarize(id, llmCalls, childRollups)
      ensures summary.id == id && summary.descendants == childRollups && summary.byKind == ByKind(llmCalls)
    {
      var byKind := SumCallsByKind(llmCalls);
      var own := SumTotals(byKind);
      var grand := GrandTotal(own);
      summary := Summary(id, byKind, childRollups, grand);
    }
  }

  method AddGrandTotals(own: Tokens, children: seq<Summary>) returns (total: Tokens)
    ensures total == own.Plus(SumGrandTotals(children))
  {
    total := own;
    var i := 0;
    while i < |children|
      invariant 0 <= i <= |children|
      invariant total == own.Plus(SumGrandTotals(children[..i]))
    {
      assert children[..i + 1][..i] == children[..i];
      total := total.Plus(children[i].grandTotal);
      i := i + 1;
    }
    assert children[..i] == children;
  }

  function SumGrandTotals(children: seq<Summary>): Tokens {
    if children == [] then NONE else SumGrandTotals(children[..|children| - 1]).Plus(children[|children| - 1].grandTotal)
  }

  function Summarize(id: string, calls: seq<Call>, children: seq<Summary>): Summary {
    var byKind := ByKind(calls);
    Summary(id, byKind, children, SumEntries(byKind).Plus(SumGrandTotals(children)))
  }

  /** A finished agent: its own call rows and the agents it delegated to, in the order they finished. */
  datatype Agent = Agent(id: string, calls: seq<Call>, children: seq<Agent>)

  function Rollups(agents: seq<Agent>): (summaries: seq<Summary>)
    ensures |summaries| == |agents|
  {
    if agents == [] then [] else Rollups(agents[..|agents| - 1]) + [Rollup(agents[|agents| - 1])]
  }

  function Rollup(a: Agent): Summary { Summarize(a.id, a.calls, Rollups(a.children)) }

  /** Each child's summary is the one the child itself would give. */
  lemma {:induction false} RollupsAt(agents: seq<Agent>, k: nat)
    requires k < |agents|
    ensures Rollups(agents)[k] == Rollup(agents[k])
  {
    if k < |agents| - 1 { RollupsAt(agents[..|agents| - 1], k); }
  }

  /** Every call row of every agent in the tree. */
  function TreeTokens(a: Agent): Tokens { SumCalls(a.calls).Plus(ForestTokens(a.children)) }

  function ForestTokens(agents: seq<Agent>): Tokens {
    if agents == [] then NONE else ForestTokens(agents[..|agents| - 1]).Plus(TreeTokens(agents[|agents| - 1]))
  }

  lemma {:induction false} ForestConserved(agents: seq<Agent>)
    ensures SumGrandTotals(Rollups(agents)) == ForestTokens(agents)
  {
    if agents != [] {
      ForestConserved(agents[..|agents| - 1]);
      TreeConserved(agents[|agents| - 1]);
      assert Rollups(agents)[..|agents| - 1] == Rollups(agents[..|agents| - 1]);
    }
  }

  /** The root's grand total is the sum of all call rows of all agents below it, at any depth. */
  lemma {:induction false} TreeConserved(a: Agent)
    ensures Rollup(a).grandTotal == TreeTokens(a)
  {
    ForestConserved(a.children);
    KindsAddUp(a.calls);
  }

  // -------------------------------------------------------------- field by field

  function Prompt(): Tokens -> int { (t: Tokens) => t.prompt }
  function Completion(): Tokens -> int { (t: Tokens) => t.completion }
  function Reported(): Tokens -> int { (t: Tokens) => t.total }

  function SumBy(calls: seq<Call>, field: Tokens -> int): int {
    if calls == [] then 0 else SumBy(calls[..|calls| - 1], field) + field(calls[|calls| - 1].used)
  }

  ghost predicate SumsOf(t: Tokens, calls: seq<Call>) {
    t.prompt == SumBy(calls, Prompt()) && t.completion == SumBy(calls, Completion()) && t.total == SumBy(calls, Reported())
  }

  lemma {:induction false} SumByConcat(a: seq<Call>, b: seq<Call>, field: Tokens -> int)
    ensures SumBy(a + b, field) == SumBy(a, field) + SumBy(b, field)
  {
    if b == [] {
      assert a + b == a;
    } else {
      var n := |b| - 1;
      assert (a + b)[..|a| + n] == a + b[..n];
      SumByConcat(a, b[..n], field);
    }
  }

  lemma {:induction false} SumCallsIsFieldwise(calls: seq<Call>)
    ensures SumsOf(SumCalls(calls), calls)
  {
    if calls != [] { SumCallsIsFieldwise(calls[..|calls| - 1]); }
  }

  lemma SumsConcat(s: Tokens, a: seq<Call>, t: Tokens, b: seq<Call>)
    requires SumsOf(s, a) && SumsOf(t, b)
    ensures SumsOf(s.Plus(t), a + b)
  {
    SumByConcat(a, b, Prompt());
    SumByConcat(a, b, Completion());
    SumByConcat(a, b, Reported());
  }

  /** All call rows of an agent and of all agents below it. */
  function AllRows(a: Agent): seq<Call> { a.calls + RowsBelow(a.children) }

  function RowsBelow(agents: seq<Agent>): seq<Call> {
    if agents == [] then [] else RowsBelow(agents[..|agents| - 1]) + AllRows(agents[|agents| - 1])
  }

  lemma {:induction false} ForestSumsRows(agents: seq<Agent>)
    ensures SumsOf(ForestTokens(agents), RowsBelow(agents))
  {
    if agents != [] {
      var n := |agents| - 1;
      ForestSumsRows(agents[..n]);
      TreeSumsRows(agents[n]);
      SumsConcat(ForestTokens(agents[..n]), RowsBelow(agents[..n]), TreeTokens(agents[n]), AllRows(agents[n]));
    }
  }

  lemma {:induction false} TreeSumsRows(a: Agent)
    ensures SumsOf(TreeTokens(a), AllRows(a))
  {
    SumCallsIsFieldwise(a.calls);
    ForestSumsRows(a.children);
    SumsConcat(SumCalls(a.calls), a.calls, ForestTokens(a.children), RowsBelow(a.children));
  }

  /** The root's grand total, figure by figure: the prompt, completion and total tokens of all call rows in the tree. */
  lemma RootSumsRows(a: Agent)
    ensures SumsOf(Rollup(a).grandTotal, AllRows(a))
  {
    TreeConserved(a);
    TreeSumsRows(a);
  }

  /** The rows of a kind, in order; rows without a kind are main calls. */
  function RowsOf(calls: seq<Call>, kind: string): seq<Call> {
    if calls == [] then [] else
      var last := calls[|calls| - 1];
      RowsOf(calls[..|calls| - 1], kind) + if last.kind == Some(kind) || (last.kind.None? && kind == "main") then [last] else []
  }

  lemma {:induction false} OfKindIsRowsOf(calls: seq<Call>, kind: string)
    ensures OfKind(calls, kind) == RowsOf(calls, kind)
  {
    if calls != [] { OfKindIsRowsOf(calls[..|calls| - 1], kind); }
  }

  /** Each entry of the dictionary, figure by figure. */
  lemma EntrySums(calls: seq<Call>, k: nat)
    requires k < |ByKind(calls)|
    ensures RowsOf(calls, ByKind(calls)[k].kind) != [] && SumsOf(ByKind(calls)[k].sums, RowsOf(calls, ByKind(calls)[k].kind))
  {
    EntriesHold(calls);
    assert EntryHolds(ByKind(calls), calls, k);
    OfKindIsRowsOf(calls, ByKind(calls)[k].kind);
    SumCallsIsFieldwise(RowsOf(calls, ByKind(calls)[k].kind));
  }

  // -------------------------------------------------------- the saved sessions

  /** What a session's file holds for the sum check: its own rows and its rollup. */
  datatype Saved = Saved(calls: seq<Call>, rollup: Summary)

  /** The session's own record is right: the rows per kind, and the total with the descendants' totals. */
  ghost predicate Adds(s: Saved) {
    KindsHold(s.rollup.byKind, s.calls) && GrandTotalHolds(s)
  }

  ghost predicate GrandTotalHolds(s: Saved) {
    s.rollup.grandTotal == SumCalls(s.calls).Plus(SumGrandTotals(s.rollup.descendants))
  }

  /** Checks (a) and (b) of one session pass exactly when its record is right. */
  method CheckSession(s: Saved) returns (passes: bool, byKindReason: bool, grandTotalReason: bool)
    ensures passes <==> Adds(s)
    ensures byKindReason <==> !KindsHold(s.rollup.byKind, s.calls)
    ensures grandTotalReason <==> !GrandTotalHolds(s)
  {
    passes, byKindReason, grandTotalReason := true, false, false;
    var computed := SumCallsByKind(s.calls);
    SameDictionaryIff(s.calls, s.rollup.byKind);
    if !SameDictionary(computed, s.rollup.byKind) { passes, byKindReason := false, true; }
    var own := SumTotals(computed);
    KindsAddUp(s.calls);
    var expected := AddGrandTotals(own, s.rollup.descendants);
    if expected != s.rollup.grandTotal { passes, grandTotalReason := false, true; }
  }

  /** Every session an agent saves passes both checks. */
  lemma SavedSessionsPass(id: string, calls: seq<Call>, children: seq<Summary>)
    ensures Adds(Saved(calls, Summarize(id, calls, children)))
  {
    EntriesHold(calls);
    KindsAddUp(calls);
  }

  /** A saved session with the saved sessions of the descendants its rollup names. */
  datatype Files = Files(session: Saved, children: seq<Files>)

  /** The check of a whole tree, following each rollup's descendants to their own files. */
  ghost predicate TreePasses(f: Files) {
    && |f.children| == |f.session.rollup.descendants|
    && Adds(f.session)
    && forall c :: c in f.children ==> TreePasses(c)
  }

  function FileTokens(f: Files): Tokens { SumCalls(f.session.calls).Plus(FilesTokens(f.children)) }

  function FilesTokens(files: seq<Files>): Tokens {
    if files == [] then NONE else FilesTokens(files[..|files| - 1]).Plus(FileTokens(files[|files| - 1]))
  }

  /** What the parent's copies say more than the children's own files, over every edge of the tree. */
  function Drift(f: Files): Tokens
    decreases f
  {
    if |f.children| == |f.session.rollup.descendants| then DriftOver(f.children, f.session.rollup.descendants) else NONE
  }

  function DriftOver(files: seq<Files>, copies: seq<Summary>): Tokens
    requires |files| == |copies|
    decreases files
  {
    if files == [] then NONE else
      var n := |files| - 1;
      var edge := copies[n].grandTotal.Minus(files[n].session.rollup.grandTotal);
      DriftOver(files[..n], copies[..n]).Plus(edge).Plus(Drift(files[n]))
  }

  /** The grand totals are right, file by file. */
  ghost predicate TotalsHold(f: Files)
    decreases f
  {
    && |f.children| == |f.session.rollup.descendants|
    && GrandTotalHolds(f.session)
    && forall c :: c in f.children ==> TotalsHold(c)
  }

  lemma {:induction false} PassingTotalsHold(f: Files)
    requires TreePasses(f)
    ensures TotalsHold(f)
    decreases f
  {
    forall c | c in f.children ensures TotalsHold(c) { PassingTotalsHold(c); }
  }

  lemma {:induction false} CopiesDrift(files: seq<Files>, copies: seq<Summary>)
    requires |files| == |copies| && forall f :: f in files ==> TotalsHold(f)
    ensures SumGrandTotals(copies) == FilesTokens(files).Plus(DriftOver(files, copies))
    decreases files
  {
    if files != [] {
      var n := |files| - 1;
      CopiesDrift(files[..n], copies[..n]);
      TreeDrifts(files[n]);
    }
  }

  /** A root accounts for every row of every file, plus the drift of the copies below it. */
  lemma {:induction false} TreeDrifts(f: Files)
    requires TotalsHold(f)
    ensures f.session.rollup.grandTotal == FileTokens(f).Plus(Drift(f))
    decreases f
  {
    CopiesDrift(f.children, f.session.rollup.descendants);
  }

  /**
   What passing means for a whole tree, of any shape and depth: the root accounts for
   every row of every file exactly when the parents' copies of their children's totals
   differ from the children's own files by nothing in sum. The check does not compare
   the copies, so it does not decide this.
   */
  lemma CopyIsNotChecked(f: Files)
    requires TreePasses(f)
    ensures f.session.rollup.grandTotal == FileTokens(f) <==> Drift(f) == NONE
  {
    PassingTotalsHold(f);
    TreeDrifts(f);
  }

  /** The parent's copy of each descendant's grand total is the one in the descendant's own file. */
  ghost predicate CopiesAgree(f: Files)
    decreases f
  {
    && |f.children| == |f.session.rollup.descendants|
    && (forall k :: 0 <= k < |f.children| ==> CopyAgrees(f.children, f.session.rollup.descendants, k))
    && forall c :: c in f.children ==> CopiesAgree(c)
  }

  ghost predicate CopyAgrees(files: seq<Files>, copies: seq<Summary>, k: nat)
    requires k < |files| && k < |copies|
  {
    files[k].session.rollup.grandTotal == copies[k].grandTotal
  }

  ghost predicate AllAgree(files: seq<Files>, copies: seq<Summary>) {
    && |files| == |copies| && (forall k :: 0 <= k < |files| ==> CopyAgrees(files, copies, k))
    && forall f :: f in files ==> CopiesAgree(f)
  }

  lemma AgreePrefix(files: seq<Files>, copies: seq<Summary>, n: nat)
    requires AllAgree(files, copies) && n <= |files|
    ensures AllAgree(files[..n], copies[..n])
    ensures n < |files| ==> CopiesAgree(files[n]) && files[n].session.rollup.grandTotal == copies[n].grandTotal
  {
    if n < |files| { assert CopyAgrees(files, copies, n) && files[n] in files; }
    forall k | 0 <= k < n ensures CopyAgrees(files[..n], copies[..n], k) { assert CopyAgrees(files, copies, k); }
  }

  lemma DriftNext(files: seq<Files>, copies: seq<Summary>, n: nat)
    requires |files| == |copies| == n + 1
    ensures
      && DriftOver(files[..n], copies[..n]) == NONE && Drift(files[n]) == NONE
      && files[n].session.rollup.grandTotal == copies[n].grandTotal
      ==> DriftOver(files, copies) == NONE
  {
  }

  lemma {:induction false} AgreeingCopiesDoNotDrift(files: seq<Files>, copies: seq<Summary>)
    requires AllAgree(files, copies)
    ensures DriftOver(files, copies) == NONE
    decreases files
  {
    if files != [] {
      var n := |files| - 1;
      AgreePrefix(files, copies, n);
      AgreeingCopiesDoNotDrift(files[..n], copies[..n]);
      AgreeingTreeDoesNotDrift(files[n]);
      DriftNext(files, copies, n);
    }
  }

  lemma {:induction false} AgreeingTreeDoesNotDrift(f: Files)
    requires CopiesAgree(f)
    ensures Drift(f) == NONE
    decreases f
  {
    AgreeingCopiesDoNotDrift(f.children, f.session.rollup.descendants);
  }

  /** So a tree that passes, and whose copies agree, accounts for every row of every file. */
  lemma PassedTreesAddUp(f: Files)
    requires TreePasses(f) && CopiesAgree(f)
    ensures f.session.rollup.grandTotal == FileTokens(f)
  {
    AgreeingTreeDoesNotDrift(f);
    CopyIsNotChecked(f);
  }

  lemma MinusIsNone(a: Tokens, b: Tokens)
    ensures a.Minus(b) == NONE <==> a == b
  {
  }

  lemma SavedPasses(id: string, calls: seq<Call>, copies: seq<Summary>, children: seq<Files>) returns (f: Files)
    requires |copies| == |children| && forall c :: c in children ==> TreePasses(c)
    ensures f == Files(Saved(calls, Summarize(id, calls, copies)), children) && TreePasses(f)
    ensures f.session.rollup.descendants == copies
  {
    f := Files(Saved(calls, Summarize(id, calls, copies)), children);
    SavedSessionsPass(id, calls, copies);
  }

  lemma DriftOfOneLeaf(f: Files, leaf: Files)
    requires f.children == [leaf] && |f.session.rollup.descendants| == 1
    requires leaf.children == [] && leaf.session.rollup.descendants == []
    ensures Drift(f) == f.session.rollup.descendants[0].grandTotal.Minus(leaf.session.rollup.grandTotal)
  {
    var files, copies := f.children, f.session.rollup.descendants;
    assert DriftOver(files[..0], copies[..0]) == NONE && Drift(leaf) == NONE;
  }

  lemma GrandOfLeaf(id: string, calls: seq<Call>)
    ensures Summarize(id, calls, []).grandTotal == SumCalls(calls)
  {
    KindsAddUp(calls);
  }

  /**
   And drift is possible: a parent's file whose copy sums other rows than the child's file
   holds passes together with it, and its grand total does not account for the child's rows.
   */
  lemma StaleCopyPasses(root: string, child: string, calls: seq<Call>, copied: seq<Call>, held: seq<Call>) returns (f: Files)
    requires SumCalls(copied) != SumCalls(held)
    ensures TreePasses(f) && f.session.rollup.grandTotal != FileTokens(f)
  {
    var leaf := SavedPasses(child, held, [], []);
    var copy := Summarize(child, copied, []);
    GrandOfLeaf(child, held);
    GrandOfLeaf(child, copied);
    f := SavedPasses(root, calls, [copy], [leaf]);
    CopyIsNotChecked(f);
    DriftOfOneLeaf(f, leaf);
    MinusIsNone(copy.grandTotal, leaf.session.rollup.grandTotal);
  }
}

/** Replay of the same-signature failure streak over a finished run's tool calls. */
module Streaks {
  import opened Prelude

  const STREAK_THRESHOLD: nat := 3

  /** A tool-call record: a success, or a failure with the signature of its class. */
  datatype Call = Success | Failure(signature: string)

  datatype Streak = Streak(signature: string, length: nat, indexes: seq<nat>)

  datatype Score = Score(value: real, events: seq<Streak>)

  /** Where the unbroken run of records equal to records[i] that ends at i begins. */
  function Start(records: seq<Call>, i: nat): (s: nat)
    requires i < |records|
    ensures s <= i
    ensures forall k :: s <= k <= i ==> records[k] == records[i]
    ensures s == 0 || records[s - 1] != records[i]
  {
    if i == 0 || records[i - 1] != records[i] then i else Start(records, i - 1)
  }

  function Range(lo: nat, hi: nat): (s: seq<nat>)
    requires lo <= hi
    ensures |s| == hi - lo && forall k :: 0 <= k < |s| ==> s[k] == lo + k
  {
    seq(hi - lo, k requires 0 <= k < hi - lo => lo + k)
  }

  /** The streak that ends at record i, if that record is a failure. */
  function StreakAt(records: seq<Call>, i: nat): Option<Streak>
    requires i < |records|
  {
    if records[i].Success? then None
    else Some(Streak(records[i].signature, i + 1 - Start(records, i), Range(Start(records, i), i + 1)))
  }

  method Reverse(s: seq<nat>) returns (r: seq<nat>)
    ensures |r| == |s| && forall k :: 0 <= k < |s| ==> r[k] == s[|s| - 1 - k]
  {
    r := seq(|s|, k requires 0 <= k < |s| => s[|s| - 1 - k]);
  }

  /** The backward scan: it stops at a success, at another signature, or at the front. */
  method TrailingStreak(records: seq<Call>) returns (streak: Option<Streak>)
    ensures streak == if records == [] then None else StreakAt(records, |records| - 1)
    ensures streak.None? <==> records == [] || records[|records| - 1].Success?
    ensures streak.Some? ==>
              var n, k := |records|, streak.value.length;
              && 1 <= k <= n && k == |streak.value.indexes| && records[n - 1] == Failure(streak.value.signature)
              && (forall i :: 0 <= i < k ==> streak.value.indexes[i] == n - k + i && records[n - k + i] == records[n - 1])
              && (k < n ==> records[n - k - 1] != records[n - 1])
  {
    if records == [] { return None; }
    var last := records[|records| - 1];
    if last.Success? { return None; }
    var members: seq<nat> := [];
    ghost var stop: int := Start(records, |records| - 1);
    var i := |records| - 1;
    while i >= 0
      invariant -1 <= i < |records|
      invariant i >= stop - 1
      invariant |members| == |records| - 1 - i
      invariant forall k :: 0 <= k < |members| ==> members[k] == |records| - 1 - k
    {
      if records[i].Success? { break; }
      if records[i].signature != last.signature { break; }
      members := members + [i];
      i := i - 1;
    }
    assert i == stop - 1;
    members := Reverse(members);
    assert members == Range(stop, |records|);
    streak := Some(Streak(last.signature, |members|, members));
  }

  // ------------------------------------------------------------------- replay

  /** A run of equal failures begins at s and has at least three members. */
  ghost predicate Ignored(records: seq<Call>, s: nat) {
    && s + STREAK_THRESHOLD <= |records|
    && records[s].Failure?
    && (forall k :: s <= k < s + STREAK_THRESHOLD ==> records[k] == records[s])
    && (s == 0 || records[s - 1] != records[s])
  }

  function Event(records: seq<Call>, s: nat): Streak
    requires s + STREAK_THRESHOLD <= |records| && records[s].Failure?
  {
    Streak(records[s].signature, STREAK_THRESHOLD, [s, s + 1, s + 2])
  }

  ghost predicate EventAt(records: seq<Call>, events: seq<Streak>, k: nat) {
    && k < |events| && |events[k].indexes| == STREAK_THRESHOLD
    && Ignored(records, events[k].indexes[0]) && events[k] == Event(records, events[k].indexes[0])
  }

  /** One event, of length three, for each ignored streak whose third member is before n, in order. */
  ghost predicate Replayed(records: seq<Call>, events: seq<Streak>, n: nat) {
    && (forall k :: 0 <= k < |events| ==> EventAt(records, events, k) && events[k].indexes[0] + STREAK_THRESHOLD <= n)
    && (forall j, k :: 0 <= j < k < |events| ==> events[j].indexes[0] + STREAK_THRESHOLD <= events[k].indexes[0])
    && (forall s: nat :: s + STREAK_THRESHOLD <= n && Ignored(records, s) ==> HasStart(events, s))
  }

  ghost predicate HasStart(events: seq<Streak>, s: nat) {
    exists k :: 0 <= k < |events| && |events[k].indexes| > 0 && events[k].indexes[0] == s
  }

  /** Two ignored streaks that begin at different places share no member. */
  lemma IgnoredAreDisjoint(records: seq<Call>, s: nat, t: nat)
    requires Ignored(records, s) && Ignored(records, t) && s < t
    ensures s + STREAK_THRESHOLD <= t
  {
  }

  lemma StartInPrefix(records: seq<Call>, n: nat, i: nat)
    requires i < n <= |records|
    ensures Start(records[..n], i) == Start(records, i)
  {
    if !(i == 0 || records[i - 1] != records[i]) { StartInPrefix(records, n, i - 1); }
  }

  /** The streak ending at i is new, and long enough, exactly when i is the third member of an ignored streak. */
  lemma ThirdMember(records: seq<Call>, i: nat)
    requires i < |records| && records[i].Failure? && i + 1 - Start(records, i) >= STREAK_THRESHOLD
    ensures Ignored(records, Start(records, i))
  {
  }

  lemma IgnoredStart(records: seq<Call>, s: nat)
    requires Ignored(records, s)
    ensures Start(records, s + 2) == s
  {
  }

  /** A streak seen for the first time has exactly its third member here, so its recorded length is three. */
  lemma FirstSighting(records: seq<Call>, events: seq<Streak>, i: nat)
    requires i < |records| && Replayed(records, events, i)
    requires records[i].Failure? && i + 1 - Start(records, i) >= STREAK_THRESHOLD && !HasStart(events, Start(records, i))
    ensures i == Start(records, i) + 2 && Ignored(records, Start(records, i))
  {
    ThirdMember(records, i);
  }

  lemma ThirdIsEvent(records: seq<Call>, i: nat)
    requires i < |records| && records[i].Failure? && i == Start(records, i) + 2
    ensures StreakAt(records, i) == Some(Event(records, i - 2))
  {
    assert Range(i - 2, i + 1) == [i - 2, i - 1, i];
  }

  lemma StreakInPrefix(records: seq<Call>, i: nat)
    requires i < |records|
    ensures StreakAt(records[..i + 1], i) == StreakAt(records, i)
    ensures StreakAt(records, i).Some? ==> StreakAt(records, i).value.indexes != [] && StreakAt(records, i).value.indexes[0] == Start(records, i)
  {
    StartInPrefix(records, i + 1, i);
  }

  /** The starts already reported. */
  ghost predicate Seen(seen: set<nat>, events: seq<Streak>) {
    forall s :: s in seen <==> HasStart(events, s)
  }

  lemma SeenGrows(seen: set<nat>, events: seq<Streak>, e: Streak)
    requires Seen(seen, events) && e.indexes != []
    ensures Seen(seen + {e.indexes[0]}, events + [e])
  {
    var longer := events + [e];
    forall s ensures s in seen + {e.indexes[0]} <==> HasStart(longer, s) {
      if HasStart(events, s) {
        var k :| 0 <= k < |events| && |events[k].indexes| > 0 && events[k].indexes[0] == s;
        assert longer[k] == events[k];
      }
      if s == e.indexes[0] { assert longer[|events|] == e; }
    }
  }

  lemma StartsBefore(records: seq<Call>, events: seq<Streak>, i: nat, s: nat, k: nat)
    requires Replayed(records, events, i) && k < |events|
    requires Ignored(records, s) && s + STREAK_THRESHOLD > i
    ensures events[k].indexes[0] + STREAK_THRESHOLD <= s
  {
    assert EventAt(records, events, k);
    IgnoredAreDisjoint(records, events[k].indexes[0], s);
  }

  lemma AddEvent(records: seq<Call>, events: seq<Streak>, i: nat, s: nat)
    requires i < |records| && s + 2 == i && Replayed(records, events, i) && Ignored(records, s)
    ensures Replayed(records, events + [Event(records, s)], i + 1)
  {
    var longer := events + [Event(records, s)];
    forall k | 0 <= k < |events| ensures EventAt(records, longer, k) && longer[k].indexes[0] + STREAK_THRESHOLD <= s {
      assert EventAt(records, events, k);
      StartsBefore(records, events, i, s, k);
    }
    assert EventAt(records, longer, |events|);
    forall t: nat | t + STREAK_THRESHOLD <= i + 1 && Ignored(records, t) ensures HasStart(longer, t) {
      if t == s { assert longer[|events|].indexes[0] == t; }
      else {
        assert HasStart(events, t);
        var k :| 0 <= k < |events| && |events[k].indexes| > 0 && events[k].indexes[0] == t;
        assert longer[k].indexes[0] == t;
      }
    }
  }

  /** Nothing new ends here, so the events so far also cover the longer prefix. */
  lemma NoNewEvent(records: seq<Call>, events: seq<Streak>, i: nat)
    requires i < |records| && Replayed(records, events, i)
    requires records[i].Failure? && i + 1 - Start(records, i) >= STREAK_THRESHOLD ==> HasStart(events, Start(records, i))
    ensures Replayed(records, events, i + 1)
  {
    forall t: nat | t + STREAK_THRESHOLD <= i + 1 && Ignored(records, t) ensures HasStart(events, t) {
      if t + STREAK_THRESHOLD == i + 1 { IgnoredStart(records, t); }
    }
  }

  function SumLengths(events: seq<Streak>): nat {
    if events == [] then 0 else SumLengths(events[..|events| - 1]) + events[|events| - 1].length
  }

  lemma {:induction false} LengthsOfFirst(records: seq<Call>, events: seq<Streak>, k: nat)
    requires k <= |events| && Replayed(records, events, |records|)
    ensures SumLengths(events[..k]) == STREAK_THRESHOLD * k
    ensures STREAK_THRESHOLD * k <= if k == 0 then 0 else events[k - 1].indexes[0] + STREAK_THRESHOLD
  {
    if k > 0 {
      LengthsOfFirst(records, events, k - 1);
      assert events[..k][..k - 1] == events[..k - 1];
      assert EventAt(records, events, k - 1);
      if k > 1 { assert EventAt(records, events, k - 2); }
    }
  }

  /** Three calls per event, and no call in two events: the summed lengths never exceed the calls. */
  lemma EventsFit(records: seq<Call>, events: seq<Streak>)
    requires Replayed(records, events, |records|)
    ensures SumLengths(events) == STREAK_THRESHOLD * |events| <= |records|
  {
    LengthsOfFirst(records, events, |events|);
    assert events[..|events|] == events;
    if events != [] { assert EventAt(records, events, |events| - 1); }
  }

  /** One event for exactly the runs of three or more equal failures, whatever else the calls hold. */
  lemma StartsAreIgnored(records: seq<Call>, events: seq<Streak>)
    requires Replayed(records, events, |records|)
    ensures forall s: nat :: HasStart(events, s) <==> Ignored(records, s)
  {
    forall s: nat | HasStart(events, s) ensures Ignored(records, s) {
      var k :| 0 <= k < |events| && |events[k].indexes| > 0 && events[k].indexes[0] == s;
      assert EventAt(records, events, k);
    }
  }

  lemma PenaltyInRange(lengths: nat, total: nat)
    requires 0 < total && lengths <= total
    ensures 0.0 <= lengths as real / total as real <= 1.0
    ensures (1.0 - lengths as real / total as real) * total as real == (total - lengths) as real
  {
  }

  /** One prefix: the streak it ends on is reported if it is long enough and new. */
  method ScorePrefix(records: seq<Call>, i: nat, events: seq<Streak>, seen: set<nat>) returns (events': seq<Streak>, seen': set<nat>)
    requires i < |records| && Replayed(records, events, i) && Seen(seen, events)
    ensures Replayed(records, events', i + 1) && Seen(seen', events')
  {
    events', seen' := events, seen;
    var streak := TrailingStreak(records[..i + 1]);
    StreakInPrefix(records, i);
    if streak.Some? && streak.value.length >= STREAK_THRESHOLD && streak.value.indexes[0] !in seen {
      FirstSighting(records, events, i);
      ThirdIsEvent(records, i);
      AddEvent(records, events, i, i - 2);
      SeenGrows(seen, events, streak.value);
      seen' := seen + {streak.value.indexes[0]};
      events' := events + [streak.value];
    } else {
      NoNewEvent(records, events, i);
    }
  }

  /** The cap on the penalty is never reached. */
  method Penalised(lengths: nat, total: nat) returns (value: real)
    requires 0 < total && lengths <= total
    ensures 0.0 <= value <= 1.0 && value * total as real == (total - lengths) as real
  {
    PenaltyInRange(lengths, total);
    var penalty := lengths as real / total as real;
    value := 1.0 - if penalty > 1.0 then 1.0 else penalty;
  }

  lemma NothingYet(records: seq<Call>)
    ensures Replayed(records, [], 0) && Seen({}, [])
  {
  }

  method Replay(records: seq<Call>) returns (events: seq<Streak>)
    ensures Replayed(records, events, |records|)
  {
    var seen: set<nat> := {};
    events := [];
    NothingYet(records);
    var i := 0;
    while i < |records|
      invariant 0 <= i <= |records|
      invariant Replayed(records, events, i) && Seen(seen, events)
    {
      events, seen := ScorePrefix(records, i, events, seen);
      i := i + 1;
    }
  }

  method ScoreErrorHandling(records: seq<Call>) returns (score: Score)
    ensures Replayed(records, score.events, |records|)
    ensures records == [] ==> score.value == 1.0
    ensures score.value * |records| as real == (|records| - STREAK_THRESHOLD * |score.events|) as real
    ensures 0.0 <= score.value <= 1.0
  {
    if records == [] {
      NothingYet(records);
      return Score(1.0, []);
    }
    var events := Replay(records);
    EventsFit(records, events);
    var value := Penalised(SumLengths(events), |records|);
    score := Score(value, events);
  }
}

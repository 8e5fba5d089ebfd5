/** Riding out a language-model server outage: fast retries inside patient, capped backoff. */
module Outage {
  const HTTP_RETRIES: nat := 3
  const HTTP_BACKOFF: real := 0.5
  const PATIENT_BACKOFF_CAP: real := 30.0
  const DEFAULT_OUTAGE_TOLERANCE: real := 300.0

  /** A response body: not JSON, JSON that is not an object, or an object with or without choices. */
  datatype Body = NotJson | OtherJson | Object(choices: bool)

  /** What one HTTP request gives: a response, a connection or timeout failure, or some other exception. */
  datatype Reply = Response(status: int, body: Body) | Transient | Foreign

  datatype Failure = Transport | HttpStatus(status: int) | MalformedBody

  /** One probe of the server, classified. */
  datatype Probe = Answered(status: int) | Failed(failure: Failure) | Escaped

  datatype Wait = Wait(attempt: nat, failure: Failure, delay: real, elapsed: real)

  predicate Retryable(f: Failure) {
    match f
    case Transport => true
    case HttpStatus(status) => status == 429 || 500 <= status < 600
    case MalformedBody => false
  }

  function ValidateResponse(status: int, body: Body): (p: Probe)
    ensures p.Answered? <==> 200 <= status < 300 && body == Object(true)
  {
    if !(200 <= status < 300) then Failed(HttpStatus(status))
    else match body
      case NotJson => Failed(MalformedBody)
      case OtherJson => Escaped
      case Object(choices) => if choices then Answered(status) else Failed(MalformedBody)
  }

  function Classify(r: Reply): Probe {
    match r
    case Response(status, body) => ValidateResponse(status, body)
    case Transient => Failed(Transport)
    case Foreign => Escaped
  }

  function Min(a: real, b: real): real { if b < a then b else a }

  function PowerOfTwo(k: nat): (p: int)
    ensures p >= 1
  {
    if k == 0 then 1 else 2 * PowerOfTwo(k - 1)
  }

  /** The k-th patient wait when the deadline leaves room for it. */
  function Backoff(k: nat): (d: real)
    ensures HTTP_BACKOFF <= d <= PATIENT_BACKOFF_CAP
  {
    Min(PATIENT_BACKOFF_CAP, HTTP_BACKOFF * PowerOfTwo(k) as real)
  }

  function BackoffSum(k: nat): real { if k == 0 then 0.0 else BackoffSum(k - 1) + Backoff(k - 1) }

  // ----------------------------------------------------- the server and the clock

  /** Any server and any clock: what each request gives and how long it takes, and how late each sleep wakes. */
  datatype Script = Script(reply: nat -> Reply, took: nat -> real, late: nat -> real)

  ghost predicate Ok(script: Script) {
    forall i :: script.took(i) >= 0.0 && script.late(i) >= 0.0
  }

  /** Requests take no time, and sleeps wake when they should. */
  ghost predicate Exact(script: Script) {
    forall i :: script.took(i) == 0.0 && script.late(i) == 0.0
  }

  /** The monotonic clock, and how many requests and sleeps there have been. */
  datatype Net = Net(now: real, sent: nat, slept: nat)

  function Sent(script: Script, net: Net): Net {
    net.(now := net.now + script.took(net.sent), sent := net.sent + 1)
  }

  function Slept(script: Script, net: Net, delay: real): Net {
    net.(now := net.now + delay + script.late(net.slept), slept := net.slept + 1)
  }

  function FastDelay(attempt: nat): real { if attempt == 0 then HTTP_BACKOFF else 2.0 * FastDelay(attempt - 1) }

  /** The fast retries of one probe from some attempt on; its reply is that of the last request sent. */
  ghost function Retried(script: Script, net: Net, attempt: nat): (after: Net)
    requires Ok(script) && attempt < HTTP_RETRIES
    ensures after.now >= net.now && net.sent < after.sent <= net.sent + (HTTP_RETRIES - attempt)
    decreases HTTP_RETRIES - attempt
  {
    var net1 := Sent(script, net);
    if !script.reply(net.sent).Transient? || attempt == HTTP_RETRIES - 1 then net1
    else
      assert FastDelay(attempt) >= 0.0;
      Retried(script, Slept(script, net1, FastDelay(attempt)), attempt + 1)
  }

  /** The requests of one probe, first up to but not including end, and how the probe was classified. */
  datatype ProbeRow = ProbeRow(first: nat, end: nat, result: Probe)

  datatype Trace = Trace(net: Net, probes: seq<ProbeRow>, waits: seq<Wait>)

  /** One probe, through the fast retries and the classification of the reply they end on. */
  ghost function Probed(script: Script, t: Trace): (r: Trace)
    requires Ok(script)
    ensures r.net.now >= t.net.now && |r.probes| == |t.probes| + 1 && r.waits == t.waits
    ensures r.net.sent > t.net.sent
  {
    var net := Retried(script, t.net, 0);
    Trace(net, t.probes + [ProbeRow(t.net.sent, net.sent, Classify(script.reply(net.sent - 1)))], t.waits)
  }

  ghost function Result(t: Trace): Probe
    requires t.probes != []
  {
    t.probes[|t.probes| - 1].result
  }

  /** The call ends at this probe: answered, escaped, not worth retrying, or out of time. */
  ghost predicate Ends(t: Trace, start: real, tolerance: real)
    requires t.probes != []
  {
    !Result(t).Failed? || !Retryable(Result(t).failure) || t.net.now - start >= tolerance
  }

  /** The patient wait after a failed probe. */
  ghost function Waited(script: Script, t: Trace, start: real, tolerance: real): Trace
    requires t.probes != [] && Result(t).Failed?
  {
    var elapsed := t.net.now - start;
    var delay := Min(Backoff(|t.probes| - 1), tolerance - elapsed);
    t.(net := Slept(script, t.net, delay), waits := t.waits + [Wait(|t.probes|, Result(t).failure, delay, elapsed)])
  }

  /** The recovery loop from some point on. */
  ghost function Recover(script: Script, t: Trace, start: real, tolerance: real): (r: Trace)
    requires Ok(script)
    ensures |r.probes| > |t.probes| && r.net.sent > t.net.sent
    decreases if t.net.now - start < tolerance then 1 else 0, 2.0 * (tolerance - (t.net.now - start))
  {
    var t1 := Probed(script, t);
    if Ends(t1, start, tolerance) then t1 else Recover(script, Waited(script, t1, start, tolerance), start, tolerance)
  }

  lemma OneRound(script: Script, t: Trace, start: real, tolerance: real)
    requires Ok(script)
    ensures var t1 := Probed(script, t);
            Recover(script, t, start, tolerance) ==
            if Ends(t1, start, tolerance) then t1 else Recover(script, Waited(script, t1, start, tolerance), start, tolerance)
  {
  }

  function Begin(net: Net): Trace { Trace(net, [], []) }

  /** One chat completion of a client in this state. */
  ghost function Chat(script: Script, net: Net, tolerance: real): (r: Trace)
    requires Ok(script)
    ensures r.probes != [] && r.net.sent > net.sent
  {
    Recover(script, Begin(net), net.now, tolerance)
  }

  // ------------------------------------------------------------------- client

  class Client {
    const script: Script
    /** What the server and the clock have seen. */
    var net: Net
    /** The wait rows written to the trace. */
    var waits: seq<Wait>

    constructor (script: Script, start: real)
      ensures this.script == script && net == Net(start, 0, 0) && waits == []
    {
      this.script, net, waits := script, Net(start, 0, 0), [];
    }

    method Sleep(delay: real)
      modifies this`net
      ensures net == Slept(script, old(net), delay)
    {
      net := Slept(script, net, delay);
    }

    method Request() returns (r: Reply)
      modifies this`net
      ensures net == Sent(script, old(net)) && r == script.reply(old(net).sent)
    {
      r := script.reply(net.sent);
      net := Sent(script, net);
    }

    /**
     One request with fast retries: the reply is that of the last request sent, one to
     three were sent, all before the last were transient, and a transient result means
     that all three were.
     */
    method RequestWithRetry() returns (r: Reply)
      requires Ok(script)
      modifies this`net
      ensures net == Retried(script, old(net), 0) && r == script.reply(net.sent - 1)
      ensures Segment(script, old(net).sent, net.sent)
      ensures net.now >= old(net).now + FastWait(net.sent - old(net).sent - 1)
      ensures Exact(script) ==> net.now == old(net).now + FastWait(net.sent - old(net).sent - 1)
    {
      var attempt := 0;
      ghost var net0 := net;
      while true
        invariant 0 <= attempt < HTTP_RETRIES
        invariant Retried(script, net0, 0) == Retried(script, net, attempt)
        decreases HTTP_RETRIES - attempt
      {
        r := Request();
        if !r.Transient? || attempt == HTTP_RETRIES - 1 { break; }
        Sleep(FastDelay(attempt));
        attempt := attempt + 1;
      }
      RetriedIsSegment(script, net0, 0);
    }

    /**
     One chat completion, ridden through an outage of at most tolerance seconds. For
     every server and clock: it ends; each probe is one segment of the requests sent,
     classified by its last reply; all probes but the last failed in a way worth
     retrying; it is answered exactly when the last reply is a valid completion; and a
     failure worth retrying is only raised once the tolerance is used up.
     */
    method PostChatWithRecovery(tolerance: real) returns (outcome: Probe)
      requires Ok(script)
      modifies this
      ensures var t := Chat(script, old(net), tolerance);
              && net == t.net && waits == old(waits) + t.waits && outcome == Result(t)
              && Traced(script, old(net), t) && Patient(t.waits, tolerance) && WaitsFor(t.waits, t.probes)
              && |t.probes| == |t.waits| + 1
      ensures net.sent > old(net).sent && (outcome.Answered? <==> IsCompletion(script.reply(net.sent - 1)))
      ensures outcome.Failed? && Retryable(outcome.failure) ==> net.now - old(net).now >= tolerance
    {
      ghost var net0 := net;
      outcome := Loop(tolerance, Chat(script, net, tolerance));
      ChatIsTraced(script, net0, tolerance);
      AnsweredIff(script.reply(net.sent - 1));
    }

    /** The loop over probes and waits. */
    method Loop(tolerance: real, ghost goal: Trace) returns (outcome: Probe)
      requires Ok(script) && goal == Chat(script, net, tolerance)
      modifies this
      ensures net == goal.net && waits == old(waits) + goal.waits && outcome == Result(goal)
    {
      var start, attempt, done := net.now, 0, false;
      ghost var w0, t := waits, Begin(net);
      outcome := Escaped;
      while !done
        invariant !done ==> attempt == |t.probes| && goal == Recover(script, t, start, tolerance)
        invariant done ==> goal == t && t.probes != [] && outcome == Result(t)
        invariant net == t.net && waits == w0 + t.waits
        decreases !done, if net.now - start < tolerance then 1 else 0, 2.0 * (tolerance - (net.now - start))
      {
        attempt := attempt + 1;
        OneRound(script, t, start, tolerance);
        outcome, done := Round(attempt, start, tolerance, t);
        t := Probed(script, t);
        if !done { t := Waited(script, t, start, tolerance); }
      }
    }

    /** One probe and, unless the call ends with it, the patient wait after it. */
    method Round(attempt: nat, start: real, tolerance: real, ghost t: Trace) returns (outcome: Probe, done: bool)
      requires Ok(script) && net == t.net && attempt == |t.probes| + 1
      modifies this
      ensures var t1 := Probed(script, t);
              && outcome == Result(t1) && done == Ends(t1, start, tolerance)
              && (done ==> net == t1.net && waits == old(waits))
              && (!done ==> var t2 := Waited(script, t1, start, tolerance);
                            net == t2.net && waits == old(waits) + t2.waits[|t1.waits|..])
    {
      var reply := RequestWithRetry();
      outcome := Classify(reply);
      if !outcome.Failed? || !Retryable(outcome.failure) { return outcome, true; }
      var elapsed := net.now - start;
      if elapsed >= tolerance { return outcome, true; }
      var delay := Min(PATIENT_BACKOFF_CAP, HTTP_BACKOFF * PowerOfTwo(attempt - 1) as real);
      delay := Min(delay, tolerance - elapsed);
      waits := waits + [Wait(attempt, outcome.failure, delay, elapsed)];
      Sleep(delay);
      return outcome, false;
    }
  }

  /** A 2xx response whose body is a JSON object with choices. */
  predicate IsCompletion(r: Reply) {
    r.Response? && 200 <= r.status < 300 && r.body == Object(true)
  }

  lemma AnsweredIff(r: Reply)
    ensures Classify(r).Answered? <==> IsCompletion(r)
  {
  }

  // ------------------------------------------------------------ what a probe is

  /** The requests of one probe: one to three, all before the last transient, three if the last is transient too. */
  ghost predicate Segment(script: Script, first: nat, end: nat) {
    && first < end <= first + HTTP_RETRIES
    && (forall i :: first <= i < end - 1 ==> script.reply(i).Transient?)
    && (script.reply(end - 1).Transient? ==> end == first + HTTP_RETRIES)
  }

  function FastWait(sleeps: int): real { if sleeps <= 0 then 0.0 else if sleeps == 1 then 0.5 else 1.5 }

  lemma RetriedIsSegment(script: Script, net: Net, attempt: nat)
    requires Ok(script) && attempt < HTTP_RETRIES
    ensures var after := Retried(script, net, attempt);
            && (forall i :: net.sent <= i < after.sent - 1 ==> script.reply(i).Transient?)
            && (script.reply(after.sent - 1).Transient? ==> after.sent == net.sent + (HTTP_RETRIES - attempt))
            && after.now >= net.now + FastWait(attempt + after.sent - net.sent - 1) - FastWait(attempt)
            && (Exact(script) ==> after.now == net.now + FastWait(attempt + after.sent - net.sent - 1) - FastWait(attempt))
    decreases HTTP_RETRIES - attempt
  {
    var net1 := Sent(script, net);
    assert FastDelay(0) == 0.5 && FastDelay(1) == 1.0;
    if script.reply(net.sent).Transient? && attempt < HTTP_RETRIES - 1 {
      RetriedIsSegment(script, Slept(script, net1, FastDelay(attempt)), attempt + 1);
    }
  }

  ghost predicate RowOk(script: Script, probes: seq<ProbeRow>, from: nat, k: nat)
    requires k < |probes|
  {
    && probes[k].first == (if k == 0 then from else probes[k - 1].end)
    && Segment(script, probes[k].first, probes[k].end)
    && probes[k].result == Classify(script.reply(probes[k].end - 1))
  }

  /** The probes split the requests of the call into consecutive segments, each classified by its last reply. */
  ghost predicate Traced(script: Script, net: Net, t: Trace) {
    && (forall k :: 0 <= k < |t.probes| ==> RowOk(script, t.probes, net.sent, k))
    && t.net.sent == if t.probes == [] then net.sent else t.probes[|t.probes| - 1].end
  }

  // --------------------------------------------------------------- the waits

  ghost predicate PatientAt(waits: seq<Wait>, tolerance: real, k: nat)
    requires k < |waits|
  {
    && waits[k].attempt == k + 1
    && waits[k].elapsed < tolerance
    && waits[k].delay == Min(Backoff(k), tolerance - waits[k].elapsed)
    && waits[k].elapsed >= (if k == 0 then 0.0 else waits[k - 1].elapsed + waits[k - 1].delay)
  }

  /** Each wait is the capped backoff cut to the deadline, and begins after the one before has ended. */
  ghost predicate Patient(waits: seq<Wait>, tolerance: real) {
    forall k :: 0 <= k < |waits| ==> PatientAt(waits, tolerance, k)
  }

  lemma PatientGrows(waits: seq<Wait>, tolerance: real, w: Wait)
    requires Patient(waits, tolerance)
    requires w.attempt == |waits| + 1 && w.elapsed < tolerance && w.delay == Min(Backoff(|waits|), tolerance - w.elapsed)
    requires w.elapsed >= if waits == [] then 0.0 else waits[|waits| - 1].elapsed + waits[|waits| - 1].delay
    ensures Patient(waits + [w], tolerance)
  {
    var more := waits + [w];
    forall k | 0 <= k < |more| ensures PatientAt(more, tolerance, k) {
      if k < |waits| { assert PatientAt(waits, tolerance, k); }
    }
  }

  /** Each wait follows a failed probe that is worth retrying. */
  ghost predicate WaitsFor(waits: seq<Wait>, probes: seq<ProbeRow>) {
    |waits| <= |probes| &&
    forall k :: 0 <= k < |waits| ==> probes[k].result == Failed(waits[k].failure) && Retryable(waits[k].failure)
  }

  /** No sleep asks to wake after the deadline. */
  lemma NeverOversleeps(waits: seq<Wait>, tolerance: real, k: nat)
    requires Patient(waits, tolerance) && k < |waits|
    ensures 0.0 < waits[k].delay && waits[k].elapsed + waits[k].delay <= tolerance
  {
    assert PatientAt(waits, tolerance, k);
  }

  /** Every wait but the last is a full one, so the waits before the k-th have used up their whole schedule. */
  lemma {:induction false} WaitsAreFull(waits: seq<Wait>, tolerance: real, k: nat)
    requires Patient(waits, tolerance) && k < |waits|
    ensures waits[k].elapsed >= BackoffSum(k)
    ensures k + 1 < |waits| ==> waits[k].delay == Backoff(k)
  {
    assert PatientAt(waits, tolerance, k);
    if k + 1 < |waits| { assert PatientAt(waits, tolerance, k + 1); }
    if k > 0 { WaitsAreFull(waits, tolerance, k - 1); }
  }

  lemma {:induction false} SumsIncrease(j: nat, k: nat)
    requires j <= k
    ensures BackoffSum(j) <= BackoffSum(k)
  {
    if j < k { SumsIncrease(j, k - 1); }
  }

  /** A schedule that covers the tolerance bounds the waits, and with them the probes. */
  lemma WaitsBounded(waits: seq<Wait>, tolerance: real, k: nat)
    requires Patient(waits, tolerance) && BackoffSum(k) >= tolerance
    ensures |waits| <= k
  {
    if |waits| > k {
      WaitsAreFull(waits, tolerance, |waits| - 1);
      assert PatientAt(waits, tolerance, |waits| - 1);
      SumsIncrease(k, |waits| - 1);
    }
  }

  /** The schedule: it doubles from half a second until it reaches the cap at the seventh wait. */
  lemma {:induction false} Schedule(k: nat)
    ensures k < 6 ==> PowerOfTwo(k) == [1, 2, 4, 8, 16, 32][k]
    ensures k >= 6 ==> PowerOfTwo(k) >= 64
    ensures k >= 6 ==> Backoff(k) == PATIENT_BACKOFF_CAP
    ensures BackoffSum(k) == if k <= 6 then 0.5 * (PowerOfTwo(k) - 1) as real else 31.5 + 30.0 * (k - 6) as real
  {
    if k > 0 { Schedule(k - 1); }
  }

  // ------------------------------------------------------------ the whole call

  /** What holds of the recovery loop at its head. */
  ghost predicate AtHead(script: Script, net: Net, t: Trace, tolerance: real) {
    && Traced(script, net, t) && |t.waits| == |t.probes|
    && Patient(t.waits, tolerance) && WaitsFor(t.waits, t.probes)
    && t.net.now - net.now >= if t.waits == [] then 0.0 else t.waits[|t.waits| - 1].elapsed + t.waits[|t.waits| - 1].delay
  }

  lemma ProbeIsTraced(script: Script, net: Net, t: Trace)
    requires Ok(script) && Traced(script, net, t)
    ensures Traced(script, net, Probed(script, t))
  {
    var t1 := Probed(script, t);
    RetriedIsSegment(script, t.net, 0);
    forall k | 0 <= k < |t1.probes| ensures RowOk(script, t1.probes, net.sent, k) {
      if k < |t.probes| { assert RowOk(script, t.probes, net.sent, k); }
    }
  }

  lemma RoundKeepsHead(script: Script, net: Net, t: Trace, tolerance: real)
    requires Ok(script) && AtHead(script, net, t, tolerance) && !Ends(Probed(script, t), net.now, tolerance)
    ensures AtHead(script, net, Waited(script, Probed(script, t), net.now, tolerance), tolerance)
  {
    var t1 := Probed(script, t);
    var t2 := Waited(script, t1, net.now, tolerance);
    ProbeIsTraced(script, net, t);
    PatientGrows(t.waits, tolerance, t2.waits[|t.waits|]);
    assert Traced(script, net, t2);
  }

  lemma {:induction false} RecoverIsTraced(script: Script, net: Net, t: Trace, tolerance: real)
    requires Ok(script) && AtHead(script, net, t, tolerance)
    ensures var r := Recover(script, t, net.now, tolerance);
            && Traced(script, net, r) && Patient(r.waits, tolerance) && WaitsFor(r.waits, r.probes)
            && |r.probes| == |r.waits| + 1 && Ends(r, net.now, tolerance)
    decreases if t.net.now - net.now < tolerance then 1 else 0, 2.0 * (tolerance - (t.net.now - net.now))
  {
    var t1 := Probed(script, t);
    if Ends(t1, net.now, tolerance) {
      ProbeIsTraced(script, net, t);
    } else {
      RoundKeepsHead(script, net, t, tolerance);
      RecoverIsTraced(script, net, Waited(script, t1, net.now, tolerance), tolerance);
    }
  }

  /** Every call: its requests fall into probes, its waits follow the schedule, and it ends for one of the reasons. */
  lemma ChatIsTraced(script: Script, net: Net, tolerance: real)
    requires Ok(script)
    ensures var t := Chat(script, net, tolerance);
            && Traced(script, net, t) && Patient(t.waits, tolerance) && WaitsFor(t.waits, t.probes)
            && |t.probes| == |t.waits| + 1 && Ends(t, net.now, tolerance)
            && Result(t) == Classify(script.reply(t.net.sent - 1))
  {
    RecoverIsTraced(script, net, Begin(net), tolerance);
    ResultIsOfLast(script, net, Chat(script, net, tolerance));
  }

  lemma ResultIsOfLast(script: Script, net: Net, t: Trace)
    requires Traced(script, net, t) && t.probes != []
    ensures t.net.sent > 0 && Result(t) == Classify(script.reply(t.net.sent - 1))
  {
    assert RowOk(script, t.probes, net.sent, |t.probes| - 1);
  }

  /** Worth retrying: a connection failure or timeout, status 429, or a server error. */
  predicate Passing(r: Reply) {
    r.Transient? || (r.Response? && (r.status == 429 || (500 <= r.status && r.status <= 599)))
  }

  /** A 2xx response that is no completion, and why. */
  ghost predicate OutcomeSays(r: Reply, outcome: Probe) {
    match outcome
    case Answered(status) => IsCompletion(r) && r.status == status
    case Failed(Transport) => r.Transient?
    case Failed(HttpStatus(status)) => r.Response? && r.status == status && !(200 <= status && status <= 299)
    case Failed(MalformedBody) => r.Response? && 200 <= r.status && r.status <= 299 && (r.body.NotJson? || r.body == Object(false))
    case Escaped => r.Foreign? || (r.Response? && 200 <= r.status && r.status <= 299 && r.body.OtherJson?)
  }

  /**
   What a call goes on from, and what it ends in: all probes but the last ended on a reply
   worth retrying; the call's outcome is what the last reply of all says; and if that was
   still worth retrying, the tolerance is used up.
   */
  lemma WhatIsRetried(script: Script, net: Net, tolerance: real)
    requires Ok(script)
    ensures var t := Chat(script, net, tolerance);
            && (forall k :: 0 <= k < |t.probes| - 1 ==> t.probes[k].end > 0 && Passing(script.reply(t.probes[k].end - 1)))
            && OutcomeSays(script.reply(t.net.sent - 1), Result(t))
            && (Passing(script.reply(t.net.sent - 1)) ==> t.net.now - net.now >= tolerance)
  {
    ChatIsTraced(script, net, tolerance);
    var t := Chat(script, net, tolerance);
    forall k | 0 <= k < |t.probes| - 1 ensures t.probes[k].end > 0 && Passing(script.reply(t.probes[k].end - 1)) {
      assert RowOk(script, t.probes, net.sent, k);
    }
  }

  /** At the default tolerance of 300 seconds a call makes at most 16 probes, whatever the server does. */
  lemma SixteenProbes(script: Script, net: Net)
    requires Ok(script)
    ensures |Chat(script, net, DEFAULT_OUTAGE_TOLERANCE).probes| <= 16
  {
    ChatIsTraced(script, net, DEFAULT_OUTAGE_TOLERANCE);
    Schedule(15);
    WaitsBounded(Chat(script, net, DEFAULT_OUTAGE_TOLERANCE).waits, DEFAULT_OUTAGE_TOLERANCE, 15);
  }

  // ------------------------------------------------------------ the bound is met

  /** A server that answers every request at once with the same retryable status, under an exact clock. */
  function Refusing(status: int): Script {
    Script(i => Response(status, NotJson), i => 0.0, i => 0.0)
  }

  /** After k refusals the schedule's first k waits have passed, cut to the deadline. */
  ghost predicate Refused(t: Trace, start: real, tolerance: real, k: nat) {
    |t.probes| == k && t.net.now - start == Min(BackoffSum(k), tolerance)
  }

  lemma OneRefusal(status: int, t: Trace, start: real, tolerance: real, k: nat)
    requires Retryable(HttpStatus(status)) && Refused(t, start, tolerance, k)
    ensures var t1 := Probed(Refusing(status), t);
            && Result(t1) == Failed(HttpStatus(status)) && t1.net.now == t.net.now
            && (Ends(t1, start, tolerance) <==> BackoffSum(k) >= tolerance)
            && (!Ends(t1, start, tolerance) ==> Refused(Waited(Refusing(status), t1, start, tolerance), start, tolerance, k + 1))
  {
  }

  lemma {:induction false} RefusalsFrom(status: int, t: Trace, start: real, tolerance: real, k: nat, last: nat)
    requires Retryable(HttpStatus(status)) && Refused(t, start, tolerance, k) && k <= last
    requires BackoffSum(last) >= tolerance && (last > 0 ==> BackoffSum(last - 1) < tolerance)
    ensures |Recover(Refusing(status), t, start, tolerance).probes| == last + 1
    decreases last - k
  {
    OneRefusal(status, t, start, tolerance, k);
    var t1 := Probed(Refusing(status), t);
    if k < last {
      SumsIncrease(k, last - 1);
      RefusalsFrom(status, Waited(Refusing(status), t1, start, tolerance), start, tolerance, k + 1, last);
    }
  }

  /**
   The bound is exact for every tolerance: against a server that refuses at once with a
   retryable status, a call makes one probe more than the waits it takes to cover the
   tolerance.
   */
  lemma ProbesReached(status: int, net: Net, tolerance: real, last: nat)
    requires Retryable(HttpStatus(status)) && tolerance >= 0.0
    requires BackoffSum(last) >= tolerance && (last > 0 ==> BackoffSum(last - 1) < tolerance)
    ensures |Chat(Refusing(status), net, tolerance).probes| == last + 1
  {
    RefusalsFrom(status, Begin(net), net.now, tolerance, 0, last);
  }

  /** Sixteen probes at the default tolerance, against a server that answers 503 at once. */
  lemma SixteenProbesReached(net: Net)
    ensures |Chat(Refusing(503), net, DEFAULT_OUTAGE_TOLERANCE).probes| == 16
  {
    Schedule(14);
    Schedule(15);
    ProbesReached(503, net, DEFAULT_OUTAGE_TOLERANCE, 15);
  }
}

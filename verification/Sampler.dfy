/** The machine-wide resource sampler: an evicting ring that must still report on the whole run. */
module Sampler {
  import opened Prelude

  datatype Sample = Sample(t: real, ram: real, cpu: real, gpu: Option<real>, net: int, disk: int)

  datatype Gauge = Gauge(avg: real, peak: real)

  datatype Report = Report(count: nat, ram: Gauge, cpu: Gauge, gpu: Option<Gauge>, net: int, disk: int)

  /** A sum, a peak and a count folded over readings; every peak starts from zero. */
  datatype Tally = Tally(count: nat, sum: real, peak: real) {
    function Add(v: real): Tally { Tally(count + 1, sum + v, Max(peak, v)) }

    function AddOption(v: Option<real>): Tally { if v.Some? then Add(v.value) else this }

    function Figures(): Gauge
      requires count > 0
    {
      Gauge(sum / count as real, peak)
    }
  }

  datatype Rollup = Rollup(ram: Tally, cpu: Tally, gpu: Tally) {
    function Fold(s: Sample): Rollup { Rollup(ram.Add(s.ram), cpu.Add(s.cpu), gpu.AddOption(s.gpu)) }
  }

  const ZERO: Tally := Tally(0, 0.0, 0.0)
  const NOTHING: Rollup := Rollup(ZERO, ZERO, ZERO)

  function Max(a: real, b: real): real { if b > a then b else a }

  function FoldAll(r: Rollup, samples: seq<Sample>): Rollup {
    if samples == [] then r else FoldAll(r, samples[..|samples| - 1]).Fold(samples[|samples| - 1])
  }

  /** The report over a whole history: the folded gauges and the deltas from the first sample to the last. */
  function SessionReport(history: seq<Sample>): Option<Report> {
    if history == [] then None else
      FoldCounts(history);
      var all, last := FoldAll(NOTHING, history), history[|history| - 1];
      Some(Report(all.ram.count, all.ram.Figures(), all.cpu.Figures(),
                  if all.gpu.count > 0 then Some(all.gpu.Figures()) else None,
                  last.net - history[0].net, last.disk - history[0].disk))
  }

  // ------------------------------------------------- the one-shot summary

  function Values(samples: seq<Sample>, f: Sample -> Option<real>): seq<real> {
    if samples == [] then [] else
      var rest, v := Values(samples[..|samples| - 1], f), f(samples[|samples| - 1]);
      if v.Some? then rest + [v.value] else rest
  }

  function SumOf(values: seq<real>): real {
    if values == [] then 0.0 else SumOf(values[..|values| - 1]) + values[|values| - 1]
  }

  function MaxOf(values: seq<real>): (m: real)
    requires values != []
    ensures m in values && forall v :: v in values ==> v <= m
  {
    var last := values[|values| - 1];
    assert values == values[..|values| - 1] + [last];
    if |values| == 1 then last else Max(MaxOf(values[..|values| - 1]), last)
  }

  function GaugeOf(values: seq<real>): Gauge
    requires values != []
  {
    Gauge(SumOf(values) / |values| as real, MaxOf(values))
  }

  function Ram(): Sample -> Option<real> { (s: Sample) => Some(s.ram) }
  function Cpu(): Sample -> Option<real> { (s: Sample) => Some(s.cpu) }
  function Gpu(): Sample -> Option<real> { (s: Sample) => s.gpu }

  lemma {:induction false} EveryReadingCounts(samples: seq<Sample>)
    ensures |Values(samples, Ram())| == |Values(samples, Cpu())| == |samples|
  {
    if samples != [] { EveryReadingCounts(samples[..|samples| - 1]); }
  }

  /** Gauges as average and peak of the readings, counters as the difference of the edges. */
  function Summarize(samples: seq<Sample>): Report
    requires samples != []
  {
    EveryReadingCounts(samples);
    var gpu := Values(samples, Gpu());
    Report(|samples|, GaugeOf(Values(samples, Ram())), GaugeOf(Values(samples, Cpu())),
           if gpu == [] then None else Some(GaugeOf(gpu)),
           samples[|samples| - 1].net - samples[0].net, samples[|samples| - 1].disk - samples[0].disk)
  }

  // ---------------------------------------------------------------- the class

  function Slots(interval: real, ringSeconds: real): (n: nat)
    requires interval > 0.0
    ensures n >= 1 && ringSeconds / interval < n as real + 1.0 && (n > 1 ==> n as real <= ringSeconds / interval)
  {
    var slots := (ringSeconds / interval).Floor;
    if slots > 1 then slots else 1
  }

  class ResourceSampler {
    const capacity: nat
    var samples: seq<Sample>
    var live: bool
    var refcount: int
    var disabled: bool
    var rollup: Rollup
    var firstNet: Option<int>
    var lastNet: Option<int>
    var firstDisk: Option<int>
    var lastDisk: Option<int>
    /** Every sample ever added, evicted or not. */
    ghost var history: seq<Sample>

    ghost predicate Valid() reads this {
      && capacity >= 1 && |samples| <= capacity && |samples| <= |history|
      && RingHolds()
      && (|history| > |samples| ==> |samples| == capacity)
      && EdgesHold()
      && refcount >= 0 && (live ==> refcount > 0)
    }

    /** The ring holds the latest samples and the rollup has folded the rest. */
    ghost predicate RingHolds() reads this {
      && |samples| <= |history|
      && samples == history[|history| - |samples|..]
      && rollup == FoldAll(NOTHING, history[..|history| - |samples|])
    }

    /** The byte counters of the first and the last sample ever added. */
    ghost predicate EdgesHold() reads this {
      if history == [] then firstNet.None? && firstDisk.None? && lastNet.None? && lastDisk.None?
      else
        && firstNet == Some(history[0].net) && firstDisk == Some(history[0].disk)
        && lastNet == Some(history[|history| - 1].net) && lastDisk == Some(history[|history| - 1].disk)
    }

    constructor (interval: real, ringSeconds: real)
      requires interval > 0.0
      ensures Valid() && history == [] && !live && !disabled && refcount == 0
      ensures capacity == Slots(interval, ringSeconds)
    {
      capacity := Slots(interval, ringSeconds);
      samples, live, refcount, disabled := [], false, 0, false;
      rollup, history := NOTHING, [];
      firstNet, lastNet, firstDisk, lastDisk := None, None, None, None;
    }

    /** One more user; the thread is started unless it runs already or capture is disabled. */
    method Start()
      requires Valid()
      modifies this`refcount, this`live
      ensures Valid() && refcount == old(refcount) + 1 && live == (old(live) || !disabled)
    {
      refcount := refcount + 1;
      if disabled || live { return; }
      live := true;
    }

    /** One user fewer; the thread is stopped when the last one leaves. */
    method Stop()
      requires Valid()
      modifies this`refcount, this`live
      ensures Valid() && refcount == (if old(refcount) == 0 then 0 else old(refcount) - 1)
      ensures live == (old(live) && old(refcount) > 1)
    {
      refcount := if refcount - 1 > 0 then refcount - 1 else 0;
      if refcount == 0 && live { live := false; }
    }

    /** A sampling tick: a reading is added, a failed reading disables capture for good. */
    method Tick(reading: Option<Sample>)
      requires Valid()
      modifies this
      ensures Valid() && live == old(live) && refcount == old(refcount)
      ensures disabled == (old(disabled) || reading.None?)
      ensures history == old(history) + (if reading.Some? then [reading.value] else [])
    {
      if reading.None? {
        disabled := true;
        return;
      }
      AddSample(reading.value);
    }

    method NoteEdges(s: Sample)
      requires EdgesHold()
      modifies this`firstNet, this`firstDisk, this`lastNet, this`lastDisk
      ensures lastNet == Some(s.net) && lastDisk == Some(s.disk)
      ensures firstNet == Some(if history == [] then s.net else history[0].net)
      ensures firstDisk == Some(if history == [] then s.disk else history[0].disk)
    {
      if firstNet.None? {
        firstNet, firstDisk := Some(s.net), Some(s.disk);
      }
      lastNet, lastDisk := Some(s.net), Some(s.disk);
    }

    method AddSample(s: Sample)
      requires Valid()
      modifies this
      ensures Valid() && live == old(live) && refcount == old(refcount) && disabled == old(disabled)
      ensures history == old(history) + [s]
    {
      NoteEdges(s);
      Append(s);
      assert history[|history| - 1] == s && history[0] == if old(history) == [] then s else old(history)[0];
      assert EdgesHold();
      Evict();
      assert EdgesHold();
    }

    method Append(s: Sample)
      requires RingHolds()
      modifies this`samples, this`history
      ensures RingHolds() && samples == old(samples) + [s] && history == old(history) + [s]
    {
      samples := samples + [s];
      history := history + [s];
      assert history[..|history| - |samples|] == old(history[..|history| - |samples|]);
    }

    method Evict()
      requires RingHolds() && 1 <= capacity && |samples| <= capacity + 1
      requires |history| > |samples| ==> |samples| >= capacity
      modifies this`samples, this`rollup
      ensures RingHolds() && |samples| <= capacity && (|history| > |samples| ==> |samples| == capacity)
    {
      while |samples| > capacity
        invariant RingHolds() && |samples| <= capacity + 1
        invariant |history| > |samples| ==> |samples| >= capacity
      {
        FoldNext(history, |history| - |samples|);
        rollup := rollup.Fold(samples[0]);
        samples := samples[1..];
      }
    }

    /** The whole run, evicted samples included, whatever the ring's capacity; nothing once disabled. */
    method SessionRollup() returns (report: Option<Report>)
      requires Valid()
      ensures report == if disabled then None else SessionReport(history)
    {
      if disabled { return None; }
      var all := rollup;
      var k := |history| - |samples|;
      var i := 0;
      while i < |samples|
        invariant 0 <= i <= |samples|
        invariant all == FoldAll(NOTHING, history[..k + i])
      {
        FoldNext(history, k + i);
        all := all.Fold(samples[i]);
        i := i + 1;
      }
      assert history[..k + i] == history;
      FoldCounts(history);
      if all.ram.count == 0 { return None; }
      report := Some(Report(all.ram.count, all.ram.Figures(), all.cpu.Figures(),
        if all.gpu.count > 0 then Some(all.gpu.Figures()) else None,
        if firstNet.Some? && lastNet.Some? then lastNet.value - firstNet.value else 0,
        if firstDisk.Some? && lastDisk.Some? then lastDisk.value - firstDisk.value else 0));
    }

    /**
     The samples still in the ring that fall in a window, or one fresh reading if there
     are none; a failed fresh reading disables capture. Figures for evicted samples are
     not available here.
     */
    method SummarizeWindow(start: real, end: real, snapshot: Option<Sample>) returns (report: Option<Report>)
      requires Valid()
      modifies this`disabled
      ensures Valid()
      ensures var seen := InWindow(samples, start, end);
              if old(disabled) then report.None? && disabled
              else if seen != [] then report == Some(Summarize(seen)) && !disabled
              else if snapshot.Some? then report == Some(Summarize([snapshot.value])) && !disabled
              else report.None? && disabled
    {
      if disabled { return None; }
      var seen := InWindow(samples, start, end);
      if seen == [] {
        if snapshot.None? {
          disabled := true;
          return None;
        }
        seen := [snapshot.value];
      }
      report := Some(Summarize(seen));
    }
  }

  function InWindow(samples: seq<Sample>, start: real, end: real): seq<Sample> {
    if samples == [] then [] else
      var last := samples[|samples| - 1];
      InWindow(samples[..|samples| - 1], start, end) + if start <= last.t <= end then [last] else []
  }

  /** The samples at these positions, in order, and the positions are those of the samples taken in the window. */
  ghost predicate Picks(samples: seq<Sample>, start: real, end: real, seen: seq<Sample>, picks: seq<nat>) {
    && |picks| == |seen| && (forall j, k :: 0 <= j < k < |picks| ==> picks[j] < picks[k])
    && (forall k :: 0 <= k < |picks| ==> picks[k] < |samples| && seen[k] == samples[picks[k]])
    && (forall i :: 0 <= i < |samples| && start <= samples[i].t && samples[i].t <= end ==> i in picks)
    && (forall k :: 0 <= k < |picks| ==> start <= samples[picks[k]].t && samples[picks[k]].t <= end)
  }

  lemma PickNext(samples: seq<Sample>, start: real, end: real, seen: seq<Sample>, picks: seq<nat>, s: Sample)
    requires Picks(samples, start, end, seen, picks)
    ensures if start <= s.t && s.t <= end
            then Picks(samples + [s], start, end, seen + [s], picks + [|samples|])
            else Picks(samples + [s], start, end, seen, picks)
  {
    var more := samples + [s];
    var longer := picks + [|samples|];
    forall i | 0 <= i < |samples| && start <= more[i].t && more[i].t <= end ensures i in longer { assert i in picks; }
    assert longer[|picks|] == |samples|;
  }

  /** The window holds, in order, exactly the samples taken within it. */
  lemma {:induction false} InWindowPicks(samples: seq<Sample>, start: real, end: real) returns (picks: seq<nat>)
    ensures Picks(samples, start, end, InWindow(samples, start, end), picks)
  {
    picks := [];
    if samples != [] {
      var n := |samples| - 1;
      picks := InWindowPicks(samples[..n], start, end);
      PickNext(samples[..n], start, end, InWindow(samples[..n], start, end), picks, samples[n]);
      assert samples == samples[..n] + [samples[n]];
      if start <= samples[n].t && samples[n].t <= end {
        picks := picks + [n];
      } else {
        assert InWindow(samples[..n], start, end) + [] == InWindow(samples[..n], start, end);
      }
    }
  }

  lemma {:induction false} ReadingsInOrder(samples: seq<Sample>)
    ensures |Values(samples, Ram())| == |samples| && |Values(samples, Cpu())| == |samples|
    ensures forall i :: 0 <= i < |samples| ==> Values(samples, Ram())[i] == samples[i].ram && Values(samples, Cpu())[i] == samples[i].cpu
    ensures forall v :: v in Values(samples, Gpu()) <==> exists i :: 0 <= i < |samples| && samples[i].gpu == Some(v)
  {
    if samples != [] {
      var n := |samples| - 1;
      ReadingsInOrder(samples[..n]);
      forall v ensures v in Values(samples, Gpu()) <==> exists i :: 0 <= i < |samples| && samples[i].gpu == Some(v) {
        assert v in Values(samples, Gpu()) <==> v in Values(samples[..n], Gpu()) || samples[n].gpu == Some(v);
        if v in Values(samples[..n], Gpu()) {
          var i :| 0 <= i < n && samples[..n][i].gpu == Some(v);
          assert samples[i].gpu == Some(v);
        }
        if i :| 0 <= i < |samples| && samples[i].gpu == Some(v) {
          if i < n { assert samples[..n][i].gpu == Some(v); }
        }
      }
    }
  }

  /** A gauge says how the readings add up and which is the greatest. */
  ghost predicate GaugeSays(g: Gauge, values: seq<real>) {
    && values != [] && g.avg * |values| as real == SumOf(values)
    && g.peak in values && forall v :: v in values ==> v <= g.peak
  }

  lemma GaugeOfSays(values: seq<real>)
    requires values != []
    ensures GaugeSays(GaugeOf(values), values)
  {
  }

  lemma NoGpuReading(samples: seq<Sample>)
    ensures Values(samples, Gpu()) == [] ==> forall i :: 0 <= i < |samples| ==> samples[i].gpu.None?
  {
    ReadingsInOrder(samples);
    forall i | 0 <= i < |samples| && samples[i].gpu.Some? ensures Values(samples, Gpu()) != [] {
      var v := samples[i].gpu.value;
      assert samples[i].gpu == Some(v) && v in Values(samples, Gpu());
    }
  }

  /** What a one-shot summary says of its samples: readings as average and peak, counters as last minus first. */
  lemma SummaryFigures(samples: seq<Sample>)
    requires samples != []
    ensures var r, n := Summarize(samples), |samples| - 1;
            && r.count == |samples|
            && GaugeSays(r.ram, Values(samples, Ram())) && GaugeSays(r.cpu, Values(samples, Cpu()))
            && (if r.gpu.Some? then GaugeSays(r.gpu.value, Values(samples, Gpu())) else forall i :: 0 <= i <= n ==> samples[i].gpu.None?)
            && r.net + samples[0].net == samples[n].net && r.disk + samples[0].disk == samples[n].disk
  {
    EveryReadingCounts(samples);
    GaugeOfSays(Values(samples, Ram()));
    GaugeOfSays(Values(samples, Cpu()));
    if Values(samples, Gpu()) != [] { GaugeOfSays(Values(samples, Gpu())); }
    NoGpuReading(samples);
  }

  // --------------------------------------------------------------- properties

  lemma FoldNext(history: seq<Sample>, k: nat)
    requires k < |history|
    ensures FoldAll(NOTHING, history[..k + 1]) == FoldAll(NOTHING, history[..k]).Fold(history[k])
  {
    assert history[..k + 1][..k] == history[..k];
  }

  lemma {:induction false} FoldCounts(history: seq<Sample>)
    ensures FoldAll(NOTHING, history).ram.count == FoldAll(NOTHING, history).cpu.count == |history|
  {
    if history != [] { FoldCounts(history[..|history| - 1]); }
  }

  /** A tally agrees with a list of values; its peak is the larger of zero and the greatest value. */
  ghost predicate Tallies(t: Tally, values: seq<real>) {
    && t.count == |values| && t.sum == SumOf(values)
    && t.peak == if values == [] then 0.0 else Max(0.0, MaxOf(values))
  }

  lemma TallyNext(t: Tally, values: seq<real>, v: real)
    requires Tallies(t, values)
    ensures Tallies(t.Add(v), values + [v])
  {
    var more := values + [v];
    assert more[..|values|] == values;
  }

  lemma {:induction false} FoldTallies(history: seq<Sample>)
    ensures Tallies(FoldAll(NOTHING, history).ram, Values(history, Ram()))
    ensures Tallies(FoldAll(NOTHING, history).cpu, Values(history, Cpu()))
    ensures Tallies(FoldAll(NOTHING, history).gpu, Values(history, Gpu()))
  {
    if history != [] {
      var n := |history| - 1;
      var s, r := history[n], FoldAll(NOTHING, history[..n]);
      FoldTallies(history[..n]);
      TallyNext(r.ram, Values(history[..n], Ram()), s.ram);
      TallyNext(r.cpu, Values(history[..n], Cpu()), s.cpu);
      if s.gpu.Some? { TallyNext(r.gpu, Values(history[..n], Gpu()), s.gpu.value); }
    }
  }

  /** A gauge's peak is the greatest reading exactly when some reading is not negative. */
  lemma PeakIsGreatestIff(t: Tally, values: seq<real>)
    requires Tallies(t, values) && values != []
    ensures t.peak == MaxOf(values) <==> exists v :: v in values && v >= 0.0
  {
    if v :| v in values && v >= 0.0 { assert MaxOf(values) >= v; }
    assert MaxOf(values) in values;
  }

  ghost predicate SomeNonNegative(values: seq<real>) { exists v :: v in values && v >= 0.0 }

  /**
   The rollup over an evicting ring is the one-shot summary of everything ever
   sampled, exactly when each gauge that was read has had a reading of at least zero,
   as percentages have.
   */
  lemma RollupIsSummaryIff(history: seq<Sample>)
    requires history != []
    ensures SessionReport(history) == Some(Summarize(history)) <==>
            && SomeNonNegative(Values(history, Ram())) && SomeNonNegative(Values(history, Cpu()))
            && (Values(history, Gpu()) != [] ==> SomeNonNegative(Values(history, Gpu())))
  {
    FoldCounts(history);
    FoldTallies(history);
    EveryReadingCounts(history);
    var all := FoldAll(NOTHING, history);
    PeakIsGreatestIff(all.ram, Values(history, Ram()));
    PeakIsGreatestIff(all.cpu, Values(history, Cpu()));
    if Values(history, Gpu()) != [] { PeakIsGreatestIff(all.gpu, Values(history, Gpu())); }
  }
}

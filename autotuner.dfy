/**
  The autotuner: it picks, among a fixed list of launch parameters, the one
  whose kernel runs fastest. Each call to End() records the elapsed time of
  the kernel launched with the current parameter (while timing) and advances
  the sampling schedule; whenever a round of timings completes, the median
  time of every parameter is taken and the parameter with the smallest median
  (lowest index on a tie) becomes the current one.
*/
module Tuning {
  import opened Outcomes
  import opened TunerSchedule
  import opened OrderStatistics

  /** A 32-bit unsigned integer. */
  type uint32 = x: nat | x < 0x1_0000_0000

  /** The sample count both constructors settle on: an even count is bumped to the next odd one. */
  function OddSamples(nsamples: uint32): (r: nat)
    ensures r % 2 == 1 && 0 < r < U32
    ensures nsamples % 2 == 1 ==> r == nsamples
    ensures nsamples % 2 == 0 ==> r == nsamples + 1
  {
    if nsamples % 2 == 0 then nsamples + 1 else nsamples
  }

  /**
    The number of parameters of the range constructor, (end - start) / step + 1
    evaluated in 32-bit unsigned arithmetic: the difference wraps when
    end < start, and the sum wraps to 0 when the quotient is the largest value.
  */
  function RangeCount(start: uint32, end: uint32, step: uint32): nat
    requires step > 0
  {
    (((end - start) % U32) / step + 1) % U32
  }

  /** Parameter i of the range constructor: start advanced i times by step, wrapping at 2^32 on each addition. */
  function RangeValue(start: uint32, step: uint32, i: nat): uint32 {
    if i == 0 then start else (RangeValue(start, step, i - 1) + step) % U32
  }

  /**
    The parameter list of the range constructor: RangeCount values starting at
    start and spaced by step.
  */
  method BuildRange(start: uint32, end: uint32, step: uint32) returns (ps: seq<uint32>)
    requires step > 0
    ensures |ps| == RangeCount(start, end, step)
    ensures forall i :: 0 <= i < |ps| ==> ps[i] == RangeValue(start, step, i)
  {
    var n := RangeCount(start, end, step);
    ps := [];
    var cur: uint32 := start;
    var i := 0;
    while i < n
      invariant 0 <= i <= n && |ps| == i
      invariant cur == RangeValue(start, step, i)
      invariant forall k :: 0 <= k < i ==> ps[k] == RangeValue(start, step, k)
    {
      ps := ps + [cur];
      cur := (cur + step) % U32;
      i := i + 1;
    }
  }

  /**
    The documented result of the range constructor: when start <= end and the
    count does not wrap, the parameters are exactly the values start,
    start + step, ... that lie in [start, end], and the next one would exceed end.
  */
  lemma RangeWithinBounds(start: uint32, end: uint32, step: uint32)
    requires step > 0 && start <= end
    requires (end - start) / step + 1 < U32
    ensures RangeCount(start, end, step) == (end - start) / step + 1
    ensures forall i :: 0 <= i < RangeCount(start, end, step) ==>
      RangeValue(start, step, i) == start + i * step && start <= RangeValue(start, step, i) <= end
    ensures end < start + RangeCount(start, end, step) * step
  {
    var q := (end - start) / step;
    assert (end - start) % U32 == end - start;
    assert RangeCount(start, end, step) == q + 1;
    forall i | 0 <= i <= q
      ensures RangeValue(start, step, i) == start + i * step <= end
    {
      RangeNoWrap(start, end, step, i);
    }
    DivBounds(end - start, step);
  }

  /** Below the quotient no addition wraps, so parameter i is start + i * step. */
  lemma {:induction false} RangeNoWrap(start: uint32, end: uint32, step: uint32, i: nat)
    requires step > 0 && start <= end && i <= (end - start) / step
    ensures RangeValue(start, step, i) == start + i * step <= end
  {
    DivBounds(end - start, step);
    MulMonotone(i, (end - start) / step, step);
    if i > 0 {
      RangeNoWrap(start, end, step, i - 1);
      MulSucc(i - 1, step);
    }
  }

  /** The quotient q of d by step satisfies q * step <= d < (q + 1) * step. */
  lemma DivBounds(d: nat, step: nat)
    requires step > 0
    ensures (d / step) * step <= d < (d / step + 1) * step
  {
    var q := d / step;
    assert d == q * step + d % step;
    MulSucc(q, step);
  }

  lemma MulSucc(i: nat, step: nat)
    ensures (i + 1) * step == i * step + step
  {
  }

  lemma MulMonotone(i: nat, q: nat, step: nat)
    requires i <= q
    ensures i * step <= q * step
  {
  }

  class Autotuner {
    const parameters: seq<uint32>     // the candidate launch parameters
    const nsamples: nat               // timings kept per parameter (odd)
    const period: uint32              // idle calls between scans
    var enabled: bool                 // a disabled tuner ignores End()
    var samples: seq<seq<int>>        // samples[e][s]: timing s of parameter e
    var sampleMedian: seq<int>        // median timing per parameter, as of the last completed round
    var phase: Phase
    var currentSample: nat
    var currentElement: nat
    var calls: nat
    var currentParam: uint32          // the parameter the next launch uses

    /** The schedule position held in the counter fields. */
    function Position(): Counters
      reads this
    {
      Counters(phase, currentSample, currentElement, calls)
    }

    /**
      The result of a completed round: every median is that of its parameter's
      samples, and the current parameter has the smallest median, the lowest
      index winning a tie.
    */
    ghost predicate Tuned()
      reads this
      requires |sampleMedian| == |parameters| == |samples| > 0
    {
      && (forall i :: 0 <= i < |parameters| ==> IsMedian(samples[i], sampleMedian[i]))
      && currentParam == parameters[LowestArgMin(sampleMedian)]
    }

    ghost predicate Valid()
      reads this
    {
      && |parameters| > 0
      && nsamples % 2 == 1 && nsamples < U32
      && |samples| == |parameters|
      && (forall i :: 0 <= i < |samples| ==> |samples[i]| == nsamples)
      && |sampleMedian| == |parameters|
      && InBounds(Position(), nsamples, |parameters|, period)
      && (phase != Idle ==> currentParam == parameters[currentElement])
      && (phase == Idle ==> Tuned())
    }

    /**
      A tuner over a non-empty parameter list, enabled, in start-up at sample
      0 of parameter 0, with every timing slot zeroed.
    */
    constructor (parameters: seq<uint32>, nsamples: uint32, period: uint32)
      requires |parameters| > 0
      ensures Valid()
      ensures this.parameters == parameters && this.nsamples == OddSamples(nsamples) && this.period == period
      ensures enabled && Position() == Init && currentParam == parameters[0]
      ensures samples == seq(|parameters|, _ => seq(OddSamples(nsamples), _ => 0))
    {
      var ns := OddSamples(nsamples);
      var rows: seq<seq<int>> := [];
      var i := 0;
      while i < |parameters|
        invariant 0 <= i <= |parameters|
        invariant rows == seq(i, _ => seq(ns, _ => 0))
      {
        rows := rows + [seq(ns, _ => 0)];
        i := i + 1;
      }
      this.parameters := parameters;
      this.nsamples := ns;
      this.period := period;
      enabled := true;
      samples := rows;
      sampleMedian := seq(|parameters|, _ => 0);
      phase, currentSample, currentElement, calls := Startup, 0, 0, 0;
      currentParam := parameters[0];
    }

    /** Construction from a parameter list, which fails when the list is empty. */
    static method Create(parameters: seq<uint32>, nsamples: uint32, period: uint32) returns (r: Option<Autotuner>)
      ensures r.None? <==> |parameters| == 0
      ensures r.Some? ==> fresh(r.value) && r.value.Valid()
      ensures r.Some? ==> r.value.parameters == parameters && r.value.nsamples == OddSamples(nsamples)
      ensures r.Some? ==> r.value.period == period
      ensures r.Some? ==> r.value.enabled && r.value.Position() == Init && r.value.currentParam == parameters[0]
    {
      if |parameters| == 0 {
        return None;
      }
      var t := new Autotuner(parameters, nsamples, period);
      r := Some(t);
    }

    /** Construction from the range [start, end] with spacing step; fails when the count is 0. */
    static method CreateRange(start: uint32, end: uint32, step: uint32, nsamples: uint32, period: uint32)
      returns (r: Option<Autotuner>)
      requires step > 0
      ensures r.None? <==> RangeCount(start, end, step) == 0
      ensures r.Some? ==> fresh(r.value) && r.value.Valid() && |r.value.parameters| == RangeCount(start, end, step)
      ensures r.Some? ==> forall i :: 0 <= i < |r.value.parameters| ==> r.value.parameters[i] == RangeValue(start, step, i)
      ensures r.Some? ==> r.value.nsamples == OddSamples(nsamples) && r.value.period == period
      ensures r.Some? ==> r.value.enabled && r.value.Position() == Init && r.value.currentParam == r.value.parameters[0]
    {
      var ps := BuildRange(start, end, step);
      r := Create(ps, nsamples, period);
    }

    method SetEnabled(enable: bool)
      modifies this`enabled
      ensures enabled == enable
    {
      enabled := enable;
    }

    /**
      The parameter for the next launch: while timing, the parameter being
      timed; while resting, the one with the smallest median.
    */
    function GetParam(): (p: uint32)
      reads this
      requires Valid()
      ensures p in parameters
      ensures phase != Idle ==> p == parameters[currentElement]
      ensures phase == Idle ==> p == parameters[LowestArgMin(sampleMedian)]
    {
      currentParam
    }

    /**
      The medians of all parameters' samples, each taken on a copy with
      nth_element, and the lowest index of the smallest median.
    */
    method ComputeOptimalParameter() returns (opt: nat)
      requires |samples| == |parameters| > 0 && |sampleMedian| == |parameters|
      requires forall i :: 0 <= i < |samples| ==> |samples[i]| > 0
      modifies this`sampleMedian
      ensures |sampleMedian| == |parameters|
      ensures forall i :: 0 <= i < |parameters| ==> IsMedian(samples[i], sampleMedian[i])
      ensures opt == LowestArgMin(sampleMedian) && opt < |parameters|
    {
      var i := 0;
      while i < |parameters|
        invariant 0 <= i <= |parameters| && |sampleMedian| == |parameters|
        invariant forall k :: 0 <= k < i ==> IsMedian(samples[k], sampleMedian[k])
      {
        var m := Median(samples[i]);
        sampleMedian := sampleMedian[i := m];
        i := i + 1;
      }
      opt := LowestMinIndex(sampleMedian);
    }

    /**
      The end of a kernel launch that took time t. A disabled tuner does
      nothing. Otherwise, while timing, t is stored in the current sample slot
      of the current parameter; the counters then advance by one Step; and a
      step that completes a round recomputes the medians and makes the
      fastest parameter current.
    */
    method End(t: int)
      requires Valid()
      modifies this
      ensures Valid()
      ensures !old(enabled) ==> unchanged(this)
      ensures enabled == old(enabled)
      ensures old(enabled) ==> Position() == Step(old(Position()), nsamples, |parameters|, period)
      ensures old(enabled) && old(phase) != Idle ==>
        samples == old(samples[currentElement := samples[currentElement][currentSample := t]])
      ensures old(phase) == Idle ==> samples == old(samples)
      ensures !(old(enabled) && Finishes(old(Position()), nsamples, |parameters|, period)) ==>
        sampleMedian == old(sampleMedian)
    {
      if !enabled {
        return;
      }
      if phase != Idle {
        samples := samples[currentElement := samples[currentElement][currentSample := t]];
      }
      match phase
      case Startup => StepStartup();
      case Scanning => StepScanning();
      case Idle => StepIdle();
    }

    /** Ends a round: the medians are recomputed and the fastest parameter becomes current. */
    method FinishRound()
      requires |samples| == |parameters| > 0 && |sampleMedian| == |parameters|
      requires forall i :: 0 <= i < |samples| ==> |samples[i]| > 0
      modifies this`sampleMedian, this`currentParam
      ensures |sampleMedian| == |parameters|
      ensures Tuned()
    {
      var opt := ComputeOptimalParameter();
      currentParam := parameters[opt];
    }

    /** Start-up: the next sample slot, or the next parameter, or Idle after the last. */
    method StepStartup()
      requires Valid() && phase == Startup
      modifies this
      ensures Valid()
      ensures Position() == Step(old(Position()), nsamples, |parameters|, period)
      ensures samples == old(samples) && enabled == old(enabled)
      ensures !Finishes(old(Position()), nsamples, |parameters|, period) ==> sampleMedian == old(sampleMedian)
    {
      currentSample := currentSample + 1;
      if currentSample >= nsamples {
        currentSample := 0;
        currentElement := currentElement + 1;
        if currentElement >= |parameters| {
          currentElement := 0;
          phase := Idle;
          FinishRound();
        } else {
          currentParam := parameters[currentElement];
        }
      }
    }

    /** Scanning: the next parameter, or Idle at the next sample slot after the last. */
    method StepScanning()
      requires Valid() && phase == Scanning
      modifies this
      ensures Valid()
      ensures Position() == Step(old(Position()), nsamples, |parameters|, period)
      ensures samples == old(samples) && enabled == old(enabled)
      ensures !Finishes(old(Position()), nsamples, |parameters|, period) ==> sampleMedian == old(sampleMedian)
    {
      currentElement := currentElement + 1;
      if currentElement >= |parameters| {
        currentElement := 0;
        phase := Idle;
        FinishRound();
        currentSample := (currentSample + 1) % nsamples;
      } else {
        currentParam := parameters[currentElement];
      }
    }

    /** Idle: count the call, and start a scan once the count exceeds the period. */
    method StepIdle()
      requires Valid() && phase == Idle
      modifies this
      ensures Valid()
      ensures Position() == Step(old(Position()), nsamples, |parameters|, period)
      ensures samples == old(samples) && enabled == old(enabled) && sampleMedian == old(sampleMedian)
    {
      calls := (calls + 1) % U32;
      if calls > period {
        calls := 0;
        currentParam := parameters[currentElement];
        phase := Scanning;
      }
    }
  }

  /**
    Start-up from a new tuner: after nsamples * |parameters| calls to End()
    the tuner rests at sample slot 0, timing s of parameter e is the one fed
    in at call nsamples * e + s, every median is that of its parameter's
    samples, and the current parameter is the fastest one.
  */
  method RunStartup(t: Autotuner, times: seq<int>)
    requires t.Valid() && t.enabled && t.Position() == Init
    requires |times| == t.nsamples * |t.parameters|
    modifies t
    ensures t.Valid() && t.Position() == Counters(Idle, 0, 0, 0)
    ensures forall e, s :: 0 <= e < |t.parameters| && 0 <= s < t.nsamples ==>
      t.samples[e][s] == times[StartupCall(t.nsamples, |t.parameters|, e, s)]
    ensures forall i :: 0 <= i < |t.parameters| ==> IsMedian(t.samples[i], t.sampleMedian[i])
    ensures t.GetParam() == t.parameters[LowestArgMin(t.sampleMedian)]
  {
    var ns, np := t.nsamples, |t.parameters|;
    StartupCompletes(ns, np, t.period);
    var i := 0;
    while i < |times|
      invariant 0 <= i <= |times|
      invariant t.Valid() && t.enabled
      invariant t.Position() == StepN(Init, i, ns, np, t.period)
      invariant RecordedUpTo(t.samples, times, ns, np, i)
    {
      ghost var e0, s0 := StartupSlot(i, ns, np, t.period);
      ghost var before := t.samples;
      t.End(times[i]);
      RecordStep(before, t.samples, times, ns, np, i, e0, s0);
      i := i + 1;
    }
    RecordedAll(t.samples, times, ns, np);
  }

  /** Every timing slot filled by the first i calls of start-up holds the time fed in at that call. */
  ghost predicate RecordedUpTo(samples: seq<seq<int>>, times: seq<int>, ns: nat, np: nat, i: nat)
    requires |samples| == np && forall e :: 0 <= e < np ==> |samples[e]| == ns
    requires i <= |times|
  {
    forall e, s :: 0 <= e < np && 0 <= s < ns && ns * e + s < i ==> samples[e][s] == times[ns * e + s]
  }

  /** Call i of start-up, which times slot s0 of parameter e0, extends the recorded prefix by one. */
  lemma RecordStep(before: seq<seq<int>>, after: seq<seq<int>>, times: seq<int>, ns: nat, np: nat,
                   i: nat, e0: nat, s0: nat)
    requires |before| == np && forall e :: 0 <= e < np ==> |before[e]| == ns
    requires i < |times| && e0 < np && s0 < ns && i == ns * e0 + s0
    requires RecordedUpTo(before, times, ns, np, i)
    requires after == before[e0 := before[e0][s0 := times[i]]]
    ensures |after| == np && forall e :: 0 <= e < np ==> |after[e]| == ns
    ensures RecordedUpTo(after, times, ns, np, i + 1)
  {
    forall e, s | 0 <= e < np && 0 <= s < ns && ns * e + s < i + 1
      ensures after[e][s] == times[ns * e + s]
    {
      if e != e0 || s != s0 {
        SlotUnique(ns, e, s, e0, s0);
      }
    }
  }

  lemma RecordedAll(samples: seq<seq<int>>, times: seq<int>, ns: nat, np: nat)
    requires |samples| == np && forall e :: 0 <= e < np ==> |samples[e]| == ns
    requires |times| == ns * np
    requires RecordedUpTo(samples, times, ns, np, |times|)
    ensures forall e, s :: 0 <= e < np && 0 <= s < ns ==> samples[e][s] == times[StartupCall(ns, np, e, s)]
  {
    forall e, s | 0 <= e < np && 0 <= s < ns
      ensures samples[e][s] == times[StartupCall(ns, np, e, s)]
    {
      var k := StartupCall(ns, np, e, s);
      assert k < |times|;
    }
  }

  /** The call of start-up, counting from 0, that times slot s of parameter e: ns * e + s, before the last call. */
  function StartupCall(ns: nat, np: nat, e: nat, s: nat): (k: nat)
    requires e < np && s < ns
    ensures k == ns * e + s && k < ns * np
  {
    MulMonotone(e + 1, np, ns);
    MulSucc(e, ns);
    ns * e + s
  }

  /** Distinct (parameter, sample slot) pairs are timed at distinct start-up calls. */
  lemma SlotUnique(ns: nat, e: nat, s: nat, e0: nat, s0: nat)
    requires s < ns && s0 < ns && (e != e0 || s != s0)
    ensures ns * e + s != ns * e0 + s0
  {
    if e < e0 {
      MulMonotone(e + 1, e0, ns);
      MulSucc(e, ns);
    } else if e0 < e {
      MulMonotone(e0 + 1, e, ns);
      MulSucc(e0, ns);
    }
  }
}

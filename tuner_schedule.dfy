/**
  The sampling schedule of the autotuner: which parameter is timed, in which
  sample slot, and when the tuner rests. Every call to end() advances the
  counters by one Step; the tuner starts by timing every parameter nsamples
  times (Startup), then alternates between resting for period calls (Idle)
  and timing each parameter once more (Scanning).
*/
module TunerSchedule {

  /** 2^32: the counters of the tuner are 32-bit unsigned integers. */
  const U32: nat := 0x1_0000_0000

  datatype Phase = Startup | Idle | Scanning

  /** The tuner's position: phase, sample slot, parameter index and idle-call count. */
  datatype Counters = Counters(phase: Phase, sample: nat, element: nat, calls: nat)

  /** The counters of a newly constructed tuner. */
  const Init: Counters := Counters(Startup, 0, 0, 0)

  /**
    The counters a well-formed tuner can have with nsamples samples per
    parameter, nparams parameters and the given idle period.
  */
  predicate InBounds(c: Counters, nsamples: nat, nparams: nat, period: nat) {
    && c.sample < nsamples
    && c.element < nparams
    && (c.phase == Idle ==> c.element == 0 && c.calls <= period)
    && (c.phase != Idle ==> c.calls == 0)
  }

  /**
    One call to end(): Startup moves through the sample slots of one
    parameter and then on to the next parameter, and enters Idle after the
    last; Scanning moves on to the next parameter, and after the last enters
    Idle with the next sample slot; Idle counts calls (wrapping at 2^32) and
    starts a scan once the count exceeds period.
  */
  function Step(c: Counters, nsamples: nat, nparams: nat, period: nat): (r: Counters)
    requires nsamples > 0
    ensures InBounds(c, nsamples, nparams, period) && period < U32 ==> InBounds(r, nsamples, nparams, period)
  {
    match c.phase
    case Startup =>
      if c.sample + 1 >= nsamples then
        if c.element + 1 >= nparams then Counters(Idle, 0, 0, c.calls)
        else Counters(Startup, 0, c.element + 1, c.calls)
      else Counters(Startup, c.sample + 1, c.element, c.calls)
    case Scanning =>
      if c.element + 1 >= nparams then Counters(Idle, (c.sample + 1) % nsamples, 0, c.calls)
      else Counters(Scanning, c.sample, c.element + 1, c.calls)
    case Idle =>
      var calls := (c.calls + 1) % U32;
      if calls > period then Counters(Scanning, c.sample, c.element, 0)
      else Counters(Idle, c.sample, c.element, calls)
  }

  /** Whether the step from c ends a round of timings, so the optimal parameter is recomputed. */
  predicate Finishes(c: Counters, nsamples: nat, nparams: nat, period: nat)
    requires nsamples > 0
  {
    c.phase != Idle && Step(c, nsamples, nparams, period).phase == Idle
  }

  /** The counters after n calls to end(). */
  function StepN(c: Counters, n: nat, nsamples: nat, nparams: nat, period: nat): Counters
    requires nsamples > 0
  {
    if n == 0 then c else Step(StepN(c, n - 1, nsamples, nparams, period), nsamples, nparams, period)
  }

  /** Running a + b steps is running a steps and then b steps. */
  lemma {:induction false} StepNAdd(c: Counters, a: nat, b: nat, nsamples: nat, nparams: nat, period: nat)
    requires nsamples > 0
    ensures StepN(c, a + b, nsamples, nparams, period)
         == StepN(StepN(c, a, nsamples, nparams, period), b, nsamples, nparams, period)
    decreases b
  {
    if b > 0 {
      StepNAdd(c, a, b - 1, nsamples, nparams, period);
    }
  }

  /** Within one parameter's row of start-up, s further calls reach sample slot s. */
  lemma {:induction false} StartupRow(base: nat, e: nat, s: nat, nsamples: nat, nparams: nat, period: nat)
    requires nsamples > 0 && e < nparams && s < nsamples
    requires StepN(Init, base, nsamples, nparams, period) == Counters(Startup, 0, e, 0)
    ensures StepN(Init, base + s, nsamples, nparams, period) == Counters(Startup, s, e, 0)
  {
    if s > 0 {
      StartupRow(base, e, s - 1, nsamples, nparams, period);
    }
  }

  /** Start-up reaches the row of parameter e after nsamples * e calls. */
  lemma {:induction false} StartupRowStart(e: nat, nsamples: nat, nparams: nat, period: nat)
    requires nsamples > 0 && e < nparams
    ensures StepN(Init, nsamples * e, nsamples, nparams, period) == Counters(Startup, 0, e, 0)
  {
    if e > 0 {
      StartupRowStart(e - 1, nsamples, nparams, period);
      StartupRow(nsamples * (e - 1), e - 1, nsamples - 1, nsamples, nparams, period);
      MulPred(nsamples, e);
    }
  }

  /**
    During start-up, after nsamples * e + s calls the tuner times sample slot
    s of parameter e.
  */
  lemma StartupReaches(e: nat, s: nat, nsamples: nat, nparams: nat, period: nat)
    requires e < nparams && s < nsamples
    ensures StepN(Init, nsamples * e + s, nsamples, nparams, period) == Counters(Startup, s, e, 0)
  {
    StartupRowStart(e, nsamples, nparams, period);
    StartupRow(nsamples * e, e, s, nsamples, nparams, period);
  }

  lemma MulPred(a: nat, b: nat)
    requires b > 0
    ensures a * b == a * (b - 1) + a
  {
  }

  /** Every call before the last of start-up leaves the tuner in start-up. */
  lemma StartupPhase(k: nat, nsamples: nat, nparams: nat, period: nat)
    requires nsamples > 0 && k < nsamples * nparams
    ensures StepN(Init, k, nsamples, nparams, period).phase == Startup
  {
    SplitCall(k, nsamples, nparams);
    StartupReaches(k / nsamples, k % nsamples, nsamples, nparams, period);
  }

  /**
    Start-up takes exactly nsamples * nparams calls: the last of them ends the
    round, and the tuner then rests at sample slot 0 with no idle calls.
  */
  lemma StartupCompletes(nsamples: nat, nparams: nat, period: nat)
    requires nsamples > 0 && nparams > 0
    ensures var before := StepN(Init, nsamples * nparams - 1, nsamples, nparams, period);
      before.phase == Startup && Finishes(before, nsamples, nparams, period)
    ensures StepN(Init, nsamples * nparams, nsamples, nparams, period) == Counters(Idle, 0, 0, 0)
    ensures forall k :: 0 <= k < nsamples * nparams ==> StepN(Init, k, nsamples, nparams, period).phase == Startup
  {
    MulPred(nsamples, nparams);
    StartupReaches(nparams - 1, nsamples - 1, nsamples, nparams, period);
    forall k | 0 <= k < nsamples * nparams
      ensures StepN(Init, k, nsamples, nparams, period).phase == Startup
    {
      StartupPhase(k, nsamples, nparams, period);
    }
  }

  /** Call k of start-up, before its end, times sample slot s of parameter e, where k == nsamples * e + s. */
  lemma StartupSlot(k: nat, nsamples: nat, nparams: nat, period: nat) returns (e: nat, s: nat)
    requires nsamples > 0 && k < nsamples * nparams
    ensures e < nparams && s < nsamples && k == nsamples * e + s
    ensures StepN(Init, k, nsamples, nparams, period) == Counters(Startup, s, e, 0)
  {
    SplitCall(k, nsamples, nparams);
    e, s := k / nsamples, k % nsamples;
    StartupReaches(e, s, nsamples, nparams, period);
  }

  /** Call k of start-up is sample slot k % nsamples of parameter k / nsamples. */
  lemma SplitCall(k: nat, nsamples: nat, nparams: nat)
    requires nsamples > 0 && k < nsamples * nparams
    ensures k / nsamples < nparams && k % nsamples < nsamples
    ensures k == nsamples * (k / nsamples) + k % nsamples
  {
  }

  /** Resting: j <= period calls after entering Idle the tuner has counted j calls. */
  lemma {:induction false} IdleCounts(s: nat, j: nat, nsamples: nat, nparams: nat, period: nat)
    requires nsamples > 0 && j <= period < U32
    ensures StepN(Counters(Idle, s, 0, 0), j, nsamples, nparams, period) == Counters(Idle, s, 0, j)
  {
    if j > 0 {
      IdleCounts(s, j - 1, nsamples, nparams, period);
    }
  }

  /**
    The idle period: a tuner entering Idle rests for period calls and starts
    a scan of parameter 0 at the next one, keeping its sample slot. When
    period is the largest 32-bit value the count wraps to 0 instead and the
    tuner never scans again.
  */
  lemma IdleThenScan(s: nat, nsamples: nat, nparams: nat, period: nat)
    requires nsamples > 0 && period < U32
    ensures period < U32 - 1 ==>
      StepN(Counters(Idle, s, 0, 0), period + 1, nsamples, nparams, period) == Counters(Scanning, s, 0, 0)
    ensures period == U32 - 1 ==>
      StepN(Counters(Idle, s, 0, 0), period + 1, nsamples, nparams, period) == Counters(Idle, s, 0, 0)
  {
    IdleCounts(s, period, nsamples, nparams, period);
  }

  /** Scanning: e < nparams calls into a scan the tuner times parameter e. */
  lemma {:induction false} ScanReaches(s: nat, e: nat, nsamples: nat, nparams: nat, period: nat)
    requires nsamples > 0 && e < nparams
    ensures StepN(Counters(Scanning, s, 0, 0), e, nsamples, nparams, period) == Counters(Scanning, s, e, 0)
  {
    if e > 0 {
      ScanReaches(s, e - 1, nsamples, nparams, period);
    }
  }

  /**
    A scan takes exactly nparams calls, the last of which ends the round; the
    tuner then rests at the next sample slot, modulo nsamples.
  */
  lemma ScanCompletes(s: nat, nsamples: nat, nparams: nat, period: nat)
    requires nsamples > 0 && nparams > 0
    ensures Finishes(StepN(Counters(Scanning, s, 0, 0), nparams - 1, nsamples, nparams, period), nsamples, nparams, period)
    ensures StepN(Counters(Scanning, s, 0, 0), nparams, nsamples, nparams, period)
         == Counters(Idle, (s + 1) % nsamples, 0, 0)
  {
    ScanReaches(s, nparams - 1, nsamples, nparams, period);
  }

  /**
    A full cycle after start-up: resting and one scan take period + 1 +
    nparams calls and bring the tuner back to Idle at the next sample slot.
  */
  lemma IdleCycle(s: nat, nsamples: nat, nparams: nat, period: nat)
    requires nsamples > 0 && nparams > 0 && period < U32 - 1
    ensures StepN(Counters(Idle, s, 0, 0), period + 1 + nparams, nsamples, nparams, period)
         == Counters(Idle, (s + 1) % nsamples, 0, 0)
  {
    IdleThenScan(s, nsamples, nparams, period);
    ScanCompletes(s, nsamples, nparams, period);
    StepNAdd(Counters(Idle, s, 0, 0), period + 1, nparams, nsamples, nparams, period);
  }
}

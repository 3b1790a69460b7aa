/** What the output pulse sequencer guarantees: the blink timing stays well
    formed, the pin is never written with the value it already holds, a
    blink of n pulses produces exactly n high/low cycles and then settles,
    and the corner cases of the counter. */
module PulseProperties {
  import opened DigitalCommon
  import opened Time
  import opened PulseSequencer

  // ---------------------------------------------------------------------
  // Blink timing

  /** The timing init installs is well formed, with equal halves. */
  lemma InitialTimingIsValid()
    ensures ValidPeriod(INITIAL)
    ensures PhaseMs(INITIAL.(pulseState := true)) == PhaseMs(INITIAL.(pulseState := false)) == 250
  {
  }

  /** config_blink accepts exactly the well-formed timings, installs them, and
      leaves the record untouched when it refuses. */
  lemma ConfigBlinkOutcome(s: OutputState, periodMs: U16, onMs: U16)
    ensures ConfigBlink(s, periodMs, onMs).status == Ok <==> 0 < onMs < periodMs
    ensures ConfigBlink(s, periodMs, onMs).status == Ok ==>
              ValidPeriod(ConfigBlink(s, periodMs, onMs).next) &&
              ConfigBlink(s, periodMs, onMs).next == s.(pulsePeriodMs := periodMs, pulseOnMs := onMs)
    ensures ConfigBlink(s, periodMs, onMs).status != Ok ==>
              ConfigBlink(s, periodMs, onMs).status == ErInval && ConfigBlink(s, periodMs, onMs).next == s
  {
  }

  /** Every operation keeps a well-formed timing well formed. */
  lemma OperationsKeepTiming(s: OutputState, value: bool, count: I32, now: U64, periodMs: U16, onMs: U16)
    requires ValidPeriod(s)
    ensures ValidPeriod(Tick(s, now).next)
    ensures ValidPeriod(Set(s, value).next)
    ensures ValidPeriod(StartBlink(s, count, now).next)
    ensures ValidPeriod(StopBlink(s).next)
    ensures ValidPeriod(ConfigBlink(s, periodMs, onMs).next)
  {
  }

  /** With a well-formed timing both phases last a positive time that adds up
      to the period, so no half-cycle is skipped by the uint16_t subtraction. */
  lemma PhasesSplitThePeriod(s: OutputState)
    requires ValidPeriod(s)
    ensures PhaseMs(s.(pulseState := true)) > 0 && PhaseMs(s.(pulseState := false)) > 0
    ensures PhaseMs(s.(pulseState := true)) + PhaseMs(s.(pulseState := false)) == s.pulsePeriodMs
  {
  }

  /** A poll tick changes nothing while idle or inside the current phase. */
  lemma IdleOrUnexpiredTickIsNoOp(s: OutputState, now: U64)
    requires s.pulseCount == 0 || s.tlPulseMs <= now < s.tlPulseMs + PhaseMs(s)
    ensures Tick(s, now) == Driven(s, [])
  {
  }

  /** A tick that fires restarts the phase timer, and the count moves only
      at the end of a low phase with a positive count, by exactly one. */
  lemma FiringTickPhases(s: OutputState, now: U64)
    requires s.pulseCount != 0 && IsTimeExpiredEx(s.tlPulseMs, PhaseMs(s), now)
    ensures Tick(s, now).next.tlPulseMs == now
    ensures s.pulseState ==> Tick(s, now).next == s.(tlPulseMs := now, pulseState := false, hwState := false)
    ensures !s.pulseState && s.pulseCount > 1 ==>
              Tick(s, now).next == s.(tlPulseMs := now, pulseState := true, hwState := true, pulseCount := s.pulseCount - 1)
    ensures !s.pulseState && s.pulseCount == 1 ==>
              Tick(s, now).next == s.(tlPulseMs := now, pulseCount := 0, hwState := s.state)
    ensures !s.pulseState && s.pulseCount < 0 ==>
              Tick(s, now).next == s.(tlPulseMs := now, pulseState := true, hwState := true)
  {
  }

  // ---------------------------------------------------------------------
  // The pin is written only with a new value

  /** The level the pin shows after the writes `w`, starting from `h`. */
  function LastLevel(h: bool, w: seq<bool>): bool
  {
    if w == [] then h else w[|w| - 1]
  }

  /** Each write differs from the level before it. */
  predicate Alternating(h: bool, w: seq<bool>)
  {
    (w != [] ==> w[0] != h) && forall k :: 0 < k < |w| ==> w[k] != w[k - 1]
  }

  /** The recorded hw_state tracks the pin, and no write repeats the pin's
      level. */
  predicate Faithful(s: OutputState, d: Driven)
  {
    Alternating(s.hwState, d.writes) && LastLevel(s.hwState, d.writes) == d.next.hwState
  }

  /** set_output writes at most once, and exactly when the value is new. */
  lemma SetOutputSuppressesRepeats(s: OutputState, value: bool)
    ensures SetOutput(s, value).writes != [] <==> value != s.hwState
    ensures |SetOutput(s, value).writes| <= 1
    ensures SetOutput(s, value).next.hwState == value
    ensures Faithful(s, SetOutput(s, value))
  {
  }

  /** Every single operation is faithful to the pin. */
  lemma OperationsAreFaithful(s: OutputState, value: bool, count: I32, now: U64)
    ensures Faithful(s, Tick(s, now))
    ensures Faithful(s, Set(s, value))
    ensures Faithful(s, StartBlink(s, count, now))
    ensures Faithful(s, StopBlink(s))
  {
  }

  /** Faithful segments chain. */
  lemma {:induction false} AlternatingConcat(h: bool, w1: seq<bool>, w2: seq<bool>)
    requires Alternating(h, w1) && Alternating(LastLevel(h, w1), w2)
    ensures Alternating(h, w1 + w2)
    ensures LastLevel(h, w1 + w2) == LastLevel(LastLevel(h, w1), w2)
  {
    var w := w1 + w2;
    forall k | 0 < k < |w|
      ensures w[k] != w[k - 1]
    {
      if k < |w1| {
        assert w[k] == w1[k] && w[k - 1] == w1[k - 1];
      } else if k == |w1| {
        assert w[k] == w2[0] && w[k - 1] == w1[|w1| - 1];
      } else {
        assert w[k] == w2[k - |w1|] && w[k - 1] == w2[k - |w1| - 1];
      }
    }
    if w1 == [] {
      assert w == w2;
    } else {
      assert w[0] == w1[0];
    }
    if w2 == [] {
      assert w == w1;
    } else {
      assert w[|w| - 1] == w2[|w2| - 1];
    }
  }

  /** A whole run of the poller never writes the level the pin already has,
      and hw_state ends equal to the last level written. */
  lemma {:induction false} RunIsFaithful(s: OutputState, times: seq<U64>)
    ensures Faithful(s, Run(s, times))
    decreases |times|
  {
    if times != [] {
      var d := Tick(s, times[0]);
      OperationsAreFaithful(s, false, 0, times[0]);
      RunIsFaithful(d.next, times[1..]);
      AlternatingConcat(s.hwState, d.writes, Run(d.next, times[1..]).writes);
    }
  }

  // ---------------------------------------------------------------------
  // Run composition

  /** A run while idle does nothing. */
  lemma {:induction false} IdleRunIsNoOp(s: OutputState, times: seq<U64>)
    requires s.pulseCount == 0
    ensures Run(s, times) == Driven(s, [])
    decreases |times|
  {
    if times != [] {
      IdleRunIsNoOp(s, times[1..]);
    }
  }

  // ---------------------------------------------------------------------
  // Blink trains

  /** The length of `cycles` periods, written as a sum. */
  function Span(periodMs: U16, cycles: nat): nat
  {
    if cycles == 0 then 0 else periodMs + Span(periodMs, cycles - 1)
  }

  /** The sum is the product. */
  lemma {:induction false} SpanIsProduct(periodMs: U16, cycles: nat)
    ensures Span(periodMs, cycles) == cycles * periodMs
  {
    if cycles > 0 {
      SpanIsProduct(periodMs, cycles - 1);
    }
  }

  /** The instants at which a blink of `cycles` cycles started at `t` changes
      phase: on-time after each cycle start, then the period. */
  function BlinkTimes(t: U64, onMs: U16, periodMs: U16, cycles: nat): (r: seq<U64>)
    requires onMs <= periodMs
    requires t + Span(periodMs, cycles) < 0x1_0000_0000_0000_0000
    ensures |r| == 2 * cycles
    decreases cycles
  {
    if cycles == 0 then []
    else
      [t + onMs, t + periodMs] + BlinkTimes(t + periodMs, onMs, periodMs, cycles - 1)
  }

  /** The writes of `cycles` full cycles begun in the high phase: low, then
      high and low again for each further cycle. */
  function Cycles(cycles: nat): (r: seq<bool>)
    requires cycles >= 1
    ensures |r| == 2 * cycles - 1
  {
    if cycles == 1 then [false] else [false, true] + Cycles(cycles - 1)
  }

  /** The writes of a train alternate low, high, ..., low. */
  lemma {:induction false} CyclesAlternate(cycles: nat)
    requires cycles >= 1
    ensures forall k :: 0 <= k < |Cycles(cycles)| ==> Cycles(cycles)[k] == (k % 2 == 1)
  {
    if cycles > 1 {
      CyclesAlternate(cycles - 1);
      var r := Cycles(cycles);
      forall k | 0 <= k < |r|
        ensures r[k] == (k % 2 == 1)
      {
        if k >= 2 {
          assert r[k] == Cycles(cycles - 1)[k - 2];
        }
      }
    }
  }

  /** A run is its first tick followed by the run of the remaining times. */
  lemma RunCons(s: OutputState, a: U64, rest: seq<U64>, first: Driven)
    requires Tick(s, a) == first
    ensures Run(s, [a] + rest) == Driven(Run(first.next, rest).next, first.writes + Run(first.next, rest).writes)
  {
    assert ([a] + rest)[0] == a;
    assert ([a] + rest)[1..] == rest;
  }

  /** The end of a high phase: low is written. */
  lemma HighPhaseEnds(s: OutputState, now: U64)
    requires s.pulseState && s.hwState && s.pulseCount != 0
    requires IsTimeExpiredEx(s.tlPulseMs, s.pulseOnMs, now)
    ensures Tick(s, now) == Driven(s.(tlPulseMs := now, pulseState := false, hwState := false), [false])
  {
  }

  /** The end of a low phase with a positive count: high again while cycles
      remain, else the settled state. */
  lemma LowPhaseEnds(s: OutputState, now: U64)
    requires !s.pulseState && !s.hwState && s.pulseCount > 0
    requires IsTimeExpiredEx(s.tlPulseMs, PhaseMs(s), now)
    ensures s.pulseCount == 1 ==>
              Tick(s, now) == Driven(s.(tlPulseMs := now, pulseCount := 0, hwState := s.state),
                                     if s.state then [true] else [])
    ensures s.pulseCount > 1 ==>
              Tick(s, now) == Driven(s.(tlPulseMs := now, pulseCount := s.pulseCount - 1,
                                        pulseState := true, hwState := true), [true])
  {
  }

  /** The phase boundaries of a train: the first cycle's two, then those of
      the remaining cycles. */
  lemma BlinkTimesUnfold(t: U64, onMs: U16, periodMs: U16, cycles: nat)
    requires onMs <= periodMs && cycles > 0
    requires t + Span(periodMs, cycles) < 0x1_0000_0000_0000_0000
    ensures t + periodMs + Span(periodMs, cycles - 1) < 0x1_0000_0000_0000_0000
    ensures BlinkTimes(t, onMs, periodMs, cycles) ==
              [t + onMs] + ([t + periodMs] + BlinkTimes(t + periodMs, onMs, periodMs, cycles - 1))
  {
  }

  /** The first cycle of a train, ticked at its two boundaries and then at
      any later times: low at the end of the on-time, then high again with
      one cycle fewer to go, or the settled state after the last cycle. */
  lemma FirstCycle(s: OutputState, t: U64, rest: seq<U64>)
    requires ValidPeriod(s) && s.pulseState && s.hwState && s.pulseCount > 0 && s.tlPulseMs == t
    requires t + s.pulsePeriodMs < 0x1_0000_0000_0000_0000
    ensures var on, p, c := s.pulseOnMs, s.pulsePeriodMs, s.pulseCount;
            var after := if c == 1 then s.(pulseCount := 0, pulseState := false, hwState := s.state, tlPulseMs := t + p)
                         else s.(tlPulseMs := t + p, pulseCount := c - 1);
            var tail := Run(after, rest);
            Run(s, [t + on] + ([t + p] + rest)) ==
              Driven(tail.next, [false] + ((if c == 1 then (if s.state then [true] else []) else [true]) + tail.writes))
  {
    var on, p, c := s.pulseOnMs, s.pulsePeriodMs, s.pulseCount;
    var first := Driven(s.(tlPulseMs := t + on, pulseState := false, hwState := false), [false]);
    var second := if c == 1 then Driven(s.(pulseCount := 0, pulseState := false, hwState := s.state, tlPulseMs := t + p),
                                        if s.state then [true] else [])
                  else Driven(s.(tlPulseMs := t + p, pulseCount := c - 1), [true]);
    assert Tick(s, t + on) == first by {
      HighPhaseEnds(s, t + on);
    }
    assert Tick(first.next, t + p) == second by {
      assert PhaseMs(first.next) == p - on;
      LowPhaseEnds(first.next, t + p);
    }
    RunCons(first.next, t + p, rest, second);
    RunCons(s, t + on, [t + p] + rest, first);
  }

  /** A train ticked at its boundaries: the first cycle, then the run of the
      remaining cycles from the state the first cycle leaves. */
  lemma TrainHead(s: OutputState, t: U64)
    requires ValidPeriod(s) && s.pulseState && s.hwState && s.pulseCount > 0 && s.tlPulseMs == t
    requires t + Span(s.pulsePeriodMs, s.pulseCount) < 0x1_0000_0000_0000_0000
    ensures t + s.pulsePeriodMs + Span(s.pulsePeriodMs, s.pulseCount - 1) < 0x1_0000_0000_0000_0000
    ensures var on, p, c := s.pulseOnMs, s.pulsePeriodMs, s.pulseCount;
            var after := if c == 1 then s.(pulseCount := 0, pulseState := false, hwState := s.state, tlPulseMs := t + p)
                         else s.(tlPulseMs := t + p, pulseCount := c - 1);
            var tail := Run(after, BlinkTimes(t + p, on, p, c - 1));
            Run(s, BlinkTimes(t, on, p, c)) ==
              Driven(tail.next, [false] + ((if c == 1 then (if s.state then [true] else []) else [true]) + tail.writes))
  {
    BlinkTimesUnfold(t, s.pulseOnMs, s.pulsePeriodMs, s.pulseCount);
    FirstCycle(s, t, BlinkTimes(t + s.pulsePeriodMs, s.pulseOnMs, s.pulsePeriodMs, s.pulseCount - 1));
  }

  /** A pulse train with a positive count, ticked exactly at its phase
      boundaries, emits one low/high pair per cycle and then settles: idle,
      low phase, pin at the settled state, the timer at the last boundary. */
  lemma {:induction false} BlinkTrain(s: OutputState, t: U64)
    requires ValidPeriod(s) && s.pulseState && s.hwState && s.pulseCount > 0 && s.tlPulseMs == t
    requires t + Span(s.pulsePeriodMs, s.pulseCount) < 0x1_0000_0000_0000_0000
    ensures Run(s, BlinkTimes(t, s.pulseOnMs, s.pulsePeriodMs, s.pulseCount)) ==
              Driven(s.(pulseCount := 0, pulseState := false, hwState := s.state,
                        tlPulseMs := t + Span(s.pulsePeriodMs, s.pulseCount)),
                     Cycles(s.pulseCount) + (if s.state then [true] else []))
    decreases s.pulseCount
  {
    var on, p, c := s.pulseOnMs, s.pulsePeriodMs, s.pulseCount;
    var settled := if s.state then [true] else [];
    TrainHead(s, t);
    var rest := BlinkTimes(t + p, on, p, c - 1);
    if c == 1 {
      var after := s.(pulseCount := 0, pulseState := false, hwState := s.state, tlPulseMs := t + p);
      assert Run(after, rest) == Driven(after, []);
      assert [false] + (settled + []) == Cycles(c) + settled;
    } else {
      var after := s.(tlPulseMs := t + p, pulseCount := c - 1);
      var tail := Run(after, rest);
      assert tail == Driven(after.(pulseCount := 0, pulseState := false, hwState := s.state,
                                   tlPulseMs := t + p + Span(p, c - 1)),
                            Cycles(c - 1) + settled) by {
        BlinkTrain(after, t + p);
      }
      assert [false] + ([true] + tail.writes) == Cycles(c) + settled by {
        assert Cycles(c) == [false, true] + Cycles(c - 1);
      }
      assert t + p + Span(p, c - 1) == t + Span(p, c);
    }
  }

  /** start_blink(n) with n > 0 on a well-formed timing, followed by ticks at
      the phase boundaries: the pin goes high (unless already high), pulses n
      times and finally shows the settled state, and the record is idle. */
  lemma StartBlinkTrain(s: OutputState, n: I32, t: U64)
    requires ValidPeriod(s) && n > 0
    requires t + Span(s.pulsePeriodMs, n) < 0x1_0000_0000_0000_0000
    ensures var started := StartBlink(s, n, t);
            var run := Run(started.next, BlinkTimes(t, s.pulseOnMs, s.pulsePeriodMs, n));
            started.writes + run.writes ==
              (if s.hwState then [] else [true]) + Cycles(n) + (if s.state then [true] else []) &&
            run.next == s.(pulseCount := 0, pulseState := false, hwState := s.state,
                           tlPulseMs := t + Span(s.pulsePeriodMs, n))
  {
    BlinkTrain(StartBlink(s, n, t).next, t);
  }

  /** From init, start_blink(2) at time 0 with the default 500/250 timing
      writes high at 0, low at 250, high at 500, low at 750; the tick at 1000
      ends the train with no further write because the settled state is low.
      Each tick is stated with the record it leaves, a tick one millisecond
      before a phase boundary does nothing, and the record left at 1000 is
      idle for good. */
  lemma DefaultDoubleBlink()
    ensures var s0 := OutputState(false, true, 2, 500, 250, 0, true);
            var s1 := OutputState(false, false, 2, 500, 250, 250, false);
            var s2 := OutputState(false, true, 1, 500, 250, 500, true);
            var s3 := OutputState(false, false, 1, 500, 250, 750, false);
            StartBlink(INITIAL, 2, 0) == Driven(s0, [true]) &&
            Tick(s0, 249) == Driven(s0, []) &&
            Tick(s0, 250) == Driven(s1, [false]) &&
            Tick(s1, 499) == Driven(s1, []) &&
            Tick(s1, 500) == Driven(s2, [true]) &&
            Tick(s2, 750) == Driven(s3, [false]) &&
            Tick(s3, 1000) == Driven(INITIAL.(tlPulseMs := 1000), [])
    ensures forall t: U64 :: Tick(INITIAL.(tlPulseMs := 1000), t) == Driven(INITIAL.(tlPulseMs := 1000), [])
    ensures BlinkTimes(0, 250, 500, 2) == [250, 500, 750, 1000]
    ensures Run(StartBlink(INITIAL, 2, 0).next, [250, 500, 750, 1000]) ==
              Driven(INITIAL.(tlPulseMs := 1000), [false, true, false])
  {
    StartBlinkTrain(INITIAL, 2, 0);
  }

  // ---------------------------------------------------------------------
  // Counter corner cases

  /** A negative count is never decremented: the output pulses until stopped. */
  lemma {:induction false} NegativeCountPulsesForever(s: OutputState, times: seq<U64>)
    requires s.pulseCount < 0
    ensures Run(s, times).next.pulseCount == s.pulseCount
    decreases |times|
  {
    if times != [] {
      assert Tick(s, times[0]).next.pulseCount == s.pulseCount;
      NegativeCountPulsesForever(Tick(s, times[0]).next, times[1..]);
    }
  }

  /** start_blink(0) is not a stop: it drives the pin high and leaves the
      record idle, so no later tick ever brings back the settled state. */
  lemma StartBlinkZeroHoldsHigh(s: OutputState, now: U64, times: seq<U64>)
    ensures StartBlink(s, 0, now).next.hwState
    ensures Run(StartBlink(s, 0, now).next, times) == Driven(StartBlink(s, 0, now).next, [])
    ensures !s.state ==> StartBlink(s, 0, now).next.hwState != StopBlink(s).next.hwState
  {
    IdleRunIsNoOp(StartBlink(s, 0, now).next, times);
  }

  // ---------------------------------------------------------------------
  // set and stop_blink

  /** set reaches the pin at once only when idle; during a blink it only
      records the settled state, which stop_blink or the end of the train
      later restores. */
  lemma SetOutcome(s: OutputState, value: bool)
    ensures Set(s, value).next.state == value
    ensures s.pulseCount == 0 ==> Set(s, value).next.hwState == value
    ensures s.pulseCount != 0 ==> Set(s, value) == Driven(s.(state := value), [])
    ensures Set(s, value).next.(state := s.state, hwState := s.hwState) == s
  {
  }

  /** stop_blink leaves the record idle with the pin at the settled state, and
      the poller then leaves it alone. */
  lemma StopBlinkSettles(s: OutputState, times: seq<U64>)
    ensures StopBlink(s).next.pulseCount == 0
    ensures StopBlink(s).next.hwState == s.state
    ensures StopBlink(s).next.(pulseCount := s.pulseCount, hwState := s.hwState) == s
    ensures Run(StopBlink(s).next, times) == Driven(StopBlink(s).next, [])
  {
    IdleRunIsNoOp(StopBlink(s).next, times);
  }
}

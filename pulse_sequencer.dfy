/** The output pulse sequencer of digital_output.c as functions over the
    per-line record. Every physical write the record would issue is
    returned, in order, beside the new record. */
module PulseSequencer {
  import opened DigitalCommon
  import opened Time

  /** DEFAULT_PULSE_PERIOD_MS and DEFAULT_BLINK_ON_MS (half the period). */
  const DEFAULT_PULSE_PERIOD_MS: U16 := 500
  const DEFAULT_BLINK_ON_MS: U16 := DEFAULT_PULSE_PERIOD_MS / 2

  /** The mutable part of struct ZtlDigitalOutput (everything but the GPIO).
      A pulse count of 0 means idle, a negative one pulsing until stopped. */
  datatype OutputState = OutputState(
    state: bool,
    hwState: bool,
    pulseCount: I32,
    pulsePeriodMs: U16,
    pulseOnMs: U16,
    tlPulseMs: U64,
    pulseState: bool)

  /** The record after an operation and the values written to the pin. */
  datatype Driven = Driven(next: OutputState, writes: seq<bool>)

  /** The record as init leaves it: zeroed, with the default blink timing. */
  const INITIAL := OutputState(false, false, 0, DEFAULT_PULSE_PERIOD_MS, DEFAULT_BLINK_ON_MS, 0, false)

  /** The on-time is positive and shorter than the period. */
  predicate ValidPeriod(s: OutputState)
  {
    0 < s.pulseOnMs < s.pulsePeriodMs
  }

  /** set_output: write only when the value differs from the last write. */
  function SetOutput(s: OutputState, value: bool): Driven
  {
    if value != s.hwState then Driven(s.(hwState := value), [value]) else Driven(s, [])
  }

  /** The duration of the current half-cycle: the on-time in the high phase,
      the rest of the period in the low phase. The subtraction is truncated
      to uint16_t, so an on-time longer than the period wraps. */
  function PhaseMs(s: OutputState): U16
  {
    if s.pulseState then s.pulseOnMs
    else if s.pulseOnMs <= s.pulsePeriodMs then s.pulsePeriodMs - s.pulseOnMs
    else s.pulsePeriodMs - s.pulseOnMs + 0x1_0000
  }

  /** The body of handle_output once the current phase has expired (the
      timer already restarted): a low phase completing with a positive count
      decrements it, and reaching zero restores the settled state; otherwise
      the phase flips and its level is written. */
  function EndPhase(s: OutputState): Driven
  {
    if !s.pulseState && s.pulseCount > 0 && s.pulseCount - 1 == 0 then
      SetOutput(s.(pulseCount := 0), s.state)
    else
      var u := if !s.pulseState && s.pulseCount > 0 then s.(pulseCount := s.pulseCount - 1) else s;
      SetOutput(u.(pulseState := !u.pulseState), !u.pulseState)
  }

  /** handle_output: when pulsing and the current phase has expired, restart
      the phase timer and end the phase. */
  function Tick(s: OutputState, now: U64): Driven
  {
    if s.pulseCount != 0 && IsTimeExpiredEx(s.tlPulseMs, PhaseMs(s), now) then
      EndPhase(s.(tlPulseMs := now))
    else Driven(s, [])
  }

  /** ztl_digital_output__set: written at once only when idle; the settled
      state is updated either way. */
  function Set(s: OutputState, value: bool): Driven
  {
    var d := if s.pulseCount == 0 then SetOutput(s, value) else Driven(s, []);
    Driven(d.next.(state := value), d.writes)
  }

  /** ztl_digital_output__start_blink: start in the high phase now. */
  function StartBlink(s: OutputState, count: I32, now: U64): Driven
  {
    SetOutput(s.(pulseCount := count, pulseState := true, tlPulseMs := now), true)
  }

  datatype Configured = Configured(status: Status, next: OutputState)

  /** ztl_digital_output__config_blink: refuse a zero on-time or an on-time
      not shorter than the period. */
  function ConfigBlink(s: OutputState, periodMs: U16, onMs: U16): Configured
  {
    if onMs == 0 || onMs >= periodMs then Configured(ErInval, s)
    else Configured(Ok, s.(pulsePeriodMs := periodMs, pulseOnMs := onMs))
  }

  /** ztl_digital_output__stop_blink: go idle and restore the settled state. */
  function StopBlink(s: OutputState): Driven
  {
    SetOutput(s.(pulseCount := 0), s.state)
  }

  /** The poller ticking the record at each of the given times. */
  function Run(s: OutputState, times: seq<U64>): Driven
    decreases |times|
  {
    if times == [] then Driven(s, [])
    else
      var d := Tick(s, times[0]);
      var rest := Run(d.next, times[1..]);
      Driven(rest.next, d.writes + rest.writes)
  }
}

/** The input debounce and event engine of digital_input.c as functions over
    the per-line record: one evaluation of handle_input, the catch-up guard,
    the query calls and the subscriber table. Subscriber callbacks are not
    run; each dispatch is recorded as a Notify(slot, event) in order. */
module InputEngine {
  import opened DigitalCommon
  import opened Time

  /** Identity of a subscriber function and of its opaque argument. */
  type Callback = nat
  type Arg = nat

  /** Default debounce window set by init (DEFAULT_DEBOUNCE_DURATION_MS). */
  const DEFAULT_DEBOUNCE_MS: U16 := 100

  datatype EventType =
    | ChangeStateToActive
    | ChangeStateToInactive
    | ChangeStateToActiveDebounced
    | ChangeStateToInactiveDebounced
    | ActiveDuration
    | InactiveDuration

  /** The six subscription predicates of one subscriber; a duration of 0
      disables that duration condition. */
  datatype Conditions = Conditions(
    toActive: bool,
    toInactive: bool,
    toActiveDebounced: bool,
    toInactiveDebounced: bool,
    activeDurationMs: U32,
    inactiveDurationMs: U32)

  /** One callback_descriptors slot; a None callback is a free slot. */
  datatype Descriptor = Descriptor(callback: Option<Callback>, conditions: Conditions, arg: Arg)

  const NO_CONDITIONS := Conditions(false, false, false, false, 0, 0)

  /** A slot as memset leaves it. */
  const EMPTY_DESCRIPTOR := Descriptor(None, NO_CONDITIONS, 0)

  /** A callback invocation: the subscriber slot and the event it receives. */
  datatype Notify = Notify(slot: nat, event: EventType)

  /** The mutable part of struct ZtlDigitalInput (everything but the GPIO). */
  datatype InputState = InputState(
    debounceMs: U16,
    clumpMs: U16,
    activeLevel: Level,
    descriptors: seq<Descriptor>,
    prevState: bool,
    prevStateDebounced: bool,
    isStateChanged: bool,
    isStateChangedDebounced: bool,
    isStateChangedDebouncedButton: bool,
    tlStateChange: U64,
    tlHandling: U64,
    isSubsCalledForDuration: bool)

  /** `n` free subscriber slots. */
  function Blank(n: nat): (r: seq<Descriptor>)
    ensures |r| == n
    ensures forall i :: 0 <= i < n ==> r[i] == EMPTY_DESCRIPTOR
  {
    if n == 0 then [] else Blank(n - 1) + [EMPTY_DESCRIPTOR]
  }

  /** The record as init leaves it: zeroed, with the default debounce window
      and the active level read from the pin configuration. */
  function Initial(activeLevel: Level, subscribers: nat): InputState
  {
    InputState(DEFAULT_DEBOUNCE_MS, 0, activeLevel, Blank(subscribers),
               false, false, false, false, false, 0, 0, false)
  }

  // ---------------------------------------------------------------------------
  // Dispatch scans over the subscriber table
  // ---------------------------------------------------------------------------

  /** The event one occupied slot receives on a raw edge (`debounced` false)
      or a debounced edge (`debounced` true) to `level`, if it asked for it. */
  function EdgeCall(slot: nat, d: Descriptor, level: bool, debounced: bool): seq<Notify>
  {
    if d.callback.None? then []
    else if !debounced && level && d.conditions.toActive then [Notify(slot, ChangeStateToActive)]
    else if !debounced && !level && d.conditions.toInactive then [Notify(slot, ChangeStateToInactive)]
    else if debounced && level && d.conditions.toActiveDebounced then [Notify(slot, ChangeStateToActiveDebounced)]
    else if debounced && !level && d.conditions.toInactiveDebounced then [Notify(slot, ChangeStateToInactiveDebounced)]
    else []
  }

  /** The calls of one edge scan over the slots, in slot order. */
  function EdgeCalls(descs: seq<Descriptor>, level: bool, debounced: bool): seq<Notify>
  {
    if descs == [] then []
    else EdgeCalls(descs[..|descs| - 1], level, debounced) +
         EdgeCall(|descs| - 1, descs[|descs| - 1], level, debounced)
  }

  /** The event a slot expects on an edge of the given kind to `level`. */
  function EdgeEvent(level: bool, debounced: bool): EventType
  {
    if debounced then (if level then ChangeStateToActiveDebounced else ChangeStateToInactiveDebounced)
    else (if level then ChangeStateToActive else ChangeStateToInactive)
  }

  /** Slot `d` subscribed to an edge of this kind towards `level`. */
  predicate WantsEdge(d: Descriptor, level: bool, debounced: bool)
  {
    d.callback.Some? &&
    if debounced then (if level then d.conditions.toActiveDebounced else d.conditions.toInactiveDebounced)
    else (if level then d.conditions.toActive else d.conditions.toInactive)
  }

  /** The duration scan threads the "called for duration" flag from slot to
      slot: a slot is called only if the flag is already set on entry. */
  datatype DurationScan = DurationScan(calls: seq<Notify>, fired: bool)

  function DurationCall(slot: nat, d: Descriptor, level: bool, fired: bool, held: U64): DurationScan
  {
    if d.callback.None? then DurationScan([], fired)
    else
      var activeCheck := level && d.conditions.activeDurationMs != 0 && fired;
      var inactiveCheck := !level && d.conditions.inactiveDurationMs != 0 && fired;
      if activeCheck && held >= d.conditions.activeDurationMs then
        DurationScan([Notify(slot, ActiveDuration)], true)
      else if inactiveCheck && held >= d.conditions.inactiveDurationMs then
        DurationScan([Notify(slot, InactiveDuration)], true)
      else DurationScan([], fired)
  }

  function DurationCalls(descs: seq<Descriptor>, level: bool, fired: bool, held: U64): DurationScan
  {
    if descs == [] then DurationScan([], fired)
    else
      var before := DurationCalls(descs[..|descs| - 1], level, fired, held);
      var last := DurationCall(|descs| - 1, descs[|descs| - 1], level, before.fired, held);
      DurationScan(before.calls + last.calls, last.fired)
  }

  // ---------------------------------------------------------------------------
  // handle_input and handle_if_needed
  // ---------------------------------------------------------------------------

  /** The record after an evaluation and the callbacks it dispatched. */
  datatype Handled = Handled(next: InputState, calls: seq<Notify>)

  /** handle_input: one evaluation of the record with the raw sample at `now`. */
  function Step(s: InputState, sample: bool, now: U64): Handled
  {
    var stamped := s.(tlHandling := now);
    if sample != s.prevState then
      Handled(stamped.(prevState := sample, tlStateChange := now, isStateChanged := true,
                       isSubsCalledForDuration := false),
              EdgeCalls(s.descriptors, sample, false))
    else
      var held := Elapsed(now, s.tlStateChange);
      var checked := DebounceCheck(stamped, held);
      var scanned := DurationPass(checked.next, held);
      Handled(scanned.next, checked.calls + scanned.calls)
  }

  /** The debounced part of an evaluation without a raw edge: once the raw
      level has been held for the window and differs from the debounced
      level, it becomes the debounced level, both debounced changed flags are
      raised and the debounced subscribers are called. */
  function DebounceCheck(s: InputState, held: U64): Handled
  {
    if held >= s.debounceMs && s.prevStateDebounced != s.prevState then
      Handled(s.(prevStateDebounced := s.prevState, isStateChangedDebounced := true,
                 isStateChangedDebouncedButton := true),
              EdgeCalls(s.descriptors, s.prevState, true))
    else Handled(s, [])
  }

  /** The duration part of an evaluation without a raw edge: the scan over
      the slots, leaving the "called for duration" flag as it ends. */
  function DurationPass(s: InputState, held: U64): Handled
  {
    var scan := DurationCalls(s.descriptors, s.prevState, s.isSubsCalledForDuration, held);
    Handled(s.(isSubsCalledForDuration := scan.fired), scan.calls)
  }

  /** handle_if_needed (and the poller's per-object test): evaluate only if the
      record has not been evaluated at this millisecond yet. */
  function HandleIfNeeded(s: InputState, sample: bool, now: U64): Handled
  {
    if s.tlHandling != now then Step(s, sample, now) else Handled(s, [])
  }

  // ---------------------------------------------------------------------------
  // Query calls: catch up, then read (and possibly clear a flag)
  // ---------------------------------------------------------------------------

  /** A query's answer, the record afterwards and the callbacks its catch-up
      evaluation dispatched. */
  datatype Read<T> = Read(value: T, next: InputState, calls: seq<Notify>)

  /** enum ZtlButtonState; Released stands for ZTL_BUTTON_STATE__NONE. */
  datatype ButtonState = Released | Pushed | Clumped

  /** ztl_digital_input__state. */
  function ReadState(s: InputState, sample: bool, now: U64): Read<bool>
  {
    var h := HandleIfNeeded(s, sample, now);
    Read(h.next.prevState, h.next, h.calls)
  }

  /** ztl_digital_input__is_state_changed: (changed, raw state); the raw
      changed flag is consumed. */
  function ReadChanged(s: InputState, sample: bool, now: U64): Read<(bool, bool)>
  {
    var h := HandleIfNeeded(s, sample, now);
    Read((h.next.isStateChanged, h.next.prevState), h.next.(isStateChanged := false), h.calls)
  }

  /** ztl_digital_input__state_duration: (raw state, time since the last raw
      edge); both clock reads of the source are the same instant here. */
  function ReadDuration(s: InputState, sample: bool, now: U64): Read<(bool, U64)>
  {
    var h := HandleIfNeeded(s, sample, now);
    Read((h.next.prevState, Elapsed(now, h.next.tlStateChange)), h.next, h.calls)
  }

  /** ztl_digital_input__state_debounced. */
  function ReadDebounced(s: InputState, sample: bool, now: U64): Read<bool>
  {
    var h := HandleIfNeeded(s, sample, now);
    Read(h.next.prevStateDebounced, h.next, h.calls)
  }

  /** ztl_digital_input__is_state_changed_debounced: (changed, debounced
      state); the debounced changed flag is consumed. */
  function ReadChangedDebounced(s: InputState, sample: bool, now: U64): Read<(bool, bool)>
  {
    var h := HandleIfNeeded(s, sample, now);
    Read((h.next.isStateChangedDebounced, h.next.prevStateDebounced),
         h.next.(isStateChangedDebounced := false), h.calls)
  }

  /** ztl_digital_input__state_button. */
  function ReadButton(s: InputState, sample: bool, now: U64): Read<ButtonState>
  {
    var h := HandleIfNeeded(s, sample, now);
    var t := h.next;
    if t.isStateChangedDebouncedButton && t.prevStateDebounced then
      Read(Pushed, t.(isStateChangedDebouncedButton := false), h.calls)
    else if t.prevState && Elapsed(now, t.tlStateChange) >= t.clumpMs then
      Read(Clumped, t, h.calls)
    else
      Read(Released, t, h.calls)
  }

  /** ztl_digital_input__state_to_level: the physical level that stands for a
      logical state, given the active level. */
  function StateToLevel(activeLevel: Level, state: bool): (r: Level)
    ensures (r == activeLevel) == state
  {
    if state then activeLevel else InvertLevel(activeLevel)
  }

  // ---------------------------------------------------------------------------
  // The subscriber table
  // ---------------------------------------------------------------------------

  /** A slot subscribe may write: free, or already holding this callback. */
  predicate Fits(d: Descriptor, cb: Option<Callback>)
  {
    d.callback.None? || d.callback == cb
  }

  /** The first slot at or after `from` that subscribe may write. */
  function FirstFitFrom(descs: seq<Descriptor>, cb: Option<Callback>, from: nat): (r: Option<nat>)
    requires from <= |descs|
    ensures r.Some? ==> from <= r.value < |descs| && Fits(descs[r.value], cb)
    ensures r.Some? ==> forall j :: from <= j < r.value ==> !Fits(descs[j], cb)
    ensures r.None? ==> forall j :: from <= j < |descs| ==> !Fits(descs[j], cb)
    decreases |descs| - from
  {
    if from == |descs| then None
    else if Fits(descs[from], cb) then Some(from)
    else FirstFitFrom(descs, cb, from + 1)
  }

  datatype Subscribed = Subscribed(status: Status, descriptors: seq<Descriptor>)

  /** ztl_digital_input__subscribe: write the first fitting slot, or report
      ER_NO_MEM and change nothing. */
  function Subscribe(descs: seq<Descriptor>, conditions: Conditions, cb: Option<Callback>, arg: Arg): Subscribed
  {
    match FirstFitFrom(descs, cb, 0)
    case Some(i) => Subscribed(Ok, descs[i := Descriptor(cb, conditions, arg)])
    case None => Subscribed(ErNoMem, descs)
  }

  /** The conditions the three subscribe wrappers pass. */
  function EdgeConditions(toActive: bool, toInactive: bool): Conditions
  {
    NO_CONDITIONS.(toActive := toActive, toInactive := toInactive)
  }

  function DebouncedConditions(toActive: bool, toInactive: bool): Conditions
  {
    NO_CONDITIONS.(toActiveDebounced := toActive, toInactiveDebounced := toInactive)
  }

  function DurationConditions(activeMs: U32, inactiveMs: U32): Conditions
  {
    NO_CONDITIONS.(activeDurationMs := activeMs, inactiveDurationMs := inactiveMs)
  }

  /** Occupied slots form a prefix of the table. */
  predicate OccupiedPrefix(descs: seq<Descriptor>)
  {
    forall i, j :: 0 <= i < j < |descs| && descs[j].callback.Some? ==> descs[i].callback.Some?
  }

  /** A callback occupies at most one slot. */
  predicate UniqueCallbacks(descs: seq<Descriptor>)
  {
    forall i, j :: 0 <= i < j < |descs| && descs[i].callback.Some? ==> descs[i].callback != descs[j].callback
  }
}

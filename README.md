# Digital input and output stacks of ztl, modelled in Dafny

This project models the two timer-driven state machines of the ztl Zephyr
library and the fixed-slot registries that hold them:

- **Digital input** (`digital_input.c`):
  - each line's record turns raw pin samples into raw edges, a debounced level and subscriber callbacks;
  - the queries catch the record up and then read it, and two of them consume a changed flag;
  - `state_button` classifies the line as pushed, clumped or neither;
  - `subscribe` fills a first-fit table of callback descriptors;
  - `init` claims the lowest free registry slot and rejects a line that is already registered;
  - on each pass, the poller thread evaluates every record registered in the first `CONFIG_ZTL_DIGITAL_OUTPUT_MAX_COUNT` slots (the output registry's capacity) that was not yet evaluated in the current millisecond.
- **Digital output** (`digital_output.c`):
  - each line's record holds a settled state and the last level written;
  - a blink counter and a half-cycle phase with its timer drive a pulse train that ends by restoring the settled state;
  - writes that would not change the pin are suppressed;
  - `set`, `start_blink`, `config_blink` and `stop_blink` are the controls, and `init` and the poller mirror the input side.
- **Helpers:** `ztl_digital__invert_level` (`digital_common.h`) and the wrap-tolerant expiry test `IS_TIME_EXPIRED_EX` (`time.h`).

The model is sequential:

- the clock is a parameter `now`, and a raw pin sample is a parameter;
- every subscriber call is appended to a ghost log `notified` as a (slot, event) pair;
- every pin write is appended to a ghost log `written`.

Modules:

| module | file | contents |
|---|---|---|
| `DigitalCommon` | digital_common.dfy | `Level`, the GPIO line identity, result codes, `InvertLevel` |
| `Time` | time.dfy | fixed-width integer types, the wrapping `uint64_t` difference, `IsTimeExpiredEx` |
| `Registry` | registry.dfy | the slot-claiming logic shared by both `init` calls, over the line held by each slot |
| `InputEngine` | input_engine.dfy | `handle_input`, `handle_if_needed`, the queries and `subscribe` as functions over a record value |
| `InputProperties` | input_properties.dfy | what an evaluation dispatches, debounce, consuming reads, the button classifier, the subscriber table |
| `DigitalInput` | digital_input.dfy | class `Input` (`struct ZtlDigitalInput`, updated in place) and class `InputRegistry` (`g_inputs`) |
| `PulseSequencer` | pulse_sequencer.dfy | `set_output`, `handle_output` and the controls as functions over a record value |
| `PulseProperties` | pulse_properties.dfy | timing invariant, write suppression, the exact pulse train, counter corner cases |
| `DigitalOutput` | digital_output.dfy | class `Output` (`struct ZtlDigitalOutput`, updated in place) and class `OutputRegistry` (`g_outputs`) |

Each class method has the same effect as its C function. Most follow the C
statements in order. The two `init` functions are reordered: the C code
stores the record in its slot first and then clears and configures it, while
`Admit` clears and configures the record and `Store` puts it in the slot
last. The final state and the status are the same, since nothing in between
reads the slot. Each method's contract ties the record's new state (`Model()`) and the log entries it adds
to the matching function of `InputEngine` or `PulseSequencer` applied to the
old state. The properties are proved about those functions. Each registry's
`Init` is proved against `Registry.Register` and `Registry.Registered`, and
its `Valid()` invariant keeps every line in at most one slot. On the output
side `Valid()` also keeps every registered record's blink timing well formed.

Where the code and the library's stated intent differ, the model follows the
code:

- **Duration events never fire.** The duration-event guard requires the "called for duration" flag to be set already (digital_input.c:85-88). Init clears that flag, every raw edge clears it, and only the guarded branch sets it. `InputProperties.DurationEventsNeverFire` proves that no duration event is ever dispatched.
- **The input poller's bound.** The input poller loops up to the output registry's capacity (digital_input.c:106). `InputRegistry.PollPass` takes that bound as a parameter.
- **`start_blink(0)` is not a stop.** It drives the pin high and leaves the record idle, so the settled state is never restored.
- **Settling happens one low phase later than one might expect.** A blink of n cycles settles at the end of the n-th low phase. With the default 500/250 timing and n = 2, it writes high at 0, low at 250, high at 500 and low at 750, and settles at 1000.
- **The clump test is inclusive.** It uses `>=`. Init leaves the threshold at 0, so CLUMPED is reported whenever the raw level is active and no push is pending.
- **Elapsed times wrap.** The input path's `now - tl_state_change` is an unsigned 64-bit subtraction. It is modelled with its wrap (`Time.Elapsed`), not with a `now >= tl_state_change` precondition.

## Model

| member | source | states |
|---|---|---|
| DigitalCommon.InvertLevel | digital_common.h:14-20 | the inverted level always differs from its argument |
| DigitalCommon.InvertLowIsHigh | digital_common.h:15-16 | LOW inverts to HIGH |
| DigitalCommon.InvertHighIsLow | digital_common.h:17-18 | HIGH inverts to LOW |
| DigitalCommon.InvertLevelInvolution | digital_common.h:14-20 | inverting twice gives the level back |
| Time.ElapsedIsUint64Difference | digital_input.c:58 | the elapsed time is `(now - since) mod 2^64`, the `uint64_t` subtraction |
| Time.IsTimeExpiredEx | time.h:8 | the test is false exactly when `tle <= now < tle + period`, so it holds when `now - tle >= period` with `now >= tle` and whenever `now < tle` |
| Time.ExpiredWhenClockBehind | time.h:8 | a clock behind the timestamp (a wrap) counts as expired |
| Time.ExpiredWithZeroPeriod | time.h:8 | with a zero period the test always holds |
| Time.ExpiryIsMonotone | time.h:8 | with the clock at or ahead of the timestamp, once expired it stays expired as the clock advances |
| Registry.FirstFreeFrom | digital_input.c:137-138 | the slot found is NULL and every slot scanned before it is occupied; None only when every scanned slot is occupied |
| Registry.PinClaimed | digital_input.c:131-135 | some occupied slot has the line; RegisterOutcome ties it to ER_ALREADY |
| Registry.FirstFree | digital_input.c:137-138 | the lowest free slot; FirstFreeFrom states its contract |
| Registry.Register | digital_input.c:131-154 | the status and the slot init's two scans decide; RegisterOutcome states them |
| Registry.Registered | digital_input.c:139-140 | the slots after init stores the record; RegisterOutcome and RegisterKeepsPinsDistinct state its properties |
| Registry.RegisterOutcome | digital_input.c:131-154 | the status is one of OK, ER_ALREADY and ER_NO_MEM; ER_ALREADY exactly when an occupied slot has the same (port, pin); ER_NO_MEM exactly when the line is new and every slot is occupied, and then nothing changes; OK exactly when the line is new and some slot is free, and then the lowest free slot is claimed and only it changes |
| Registry.RegisterKeepsPinsDistinct | digital_output.c:82-90 | registration keeps every line in at most one slot, and the newly claimed line is then registered |
| InputEngine.Blank | digital_input.c:141 | the zeroed table has the capacity's length and every slot is free |
| InputEngine.StateToLevel | digital_input.c:311-322 | the level equals the active level exactly when the logical state is true, and is its inverse otherwise |
| InputEngine.FirstFitFrom | digital_input.c:336-343 | the slot found is free or holds the same callback, and no earlier slot is; None only when no slot fits |
| InputEngine.Initial | digital_input.c:141-149 | the record init leaves: zeroed, a free table, the 100 ms window and the configured active level; its properties are InitialNeverFiresDuration and Input.Clear |
| InputEngine.EdgeCalls | digital_input.c:45-54 | the calls of an edge scan; EdgeCallsExact states which slots are called and in what order |
| InputEngine.DurationCalls | digital_input.c:80-98 | the calls of a duration scan; DurationCallsAreDurationEvents and DurationScanNeedsFlag state what it dispatches |
| InputEngine.Step | digital_input.c:36-100 | one handle_input evaluation; RawEdgeStep, StepFrame, DebounceCommit, DebouncedDispatch and SteadyStep state its effect and its calls |
| InputEngine.DebounceCheck | digital_input.c:58-77 | the debounced check of a steady evaluation; DebounceCommit and DebouncedDispatch state when it commits and whom it calls |
| InputEngine.DurationPass | digital_input.c:79-98 | the duration part of a steady evaluation; DurationScanNeedsFlag and DurationEventsNeverFire state that it never dispatches |
| InputEngine.HandleIfNeeded | digital_input.c:116-121 | the catch-up before a query; SameMillisecondIsNoOp and StampedAfterCatchUp state its properties |
| InputEngine.ReadState | digital_input.c:163-173 | state; QueriesReportCaughtUpRecord states what it reports |
| InputEngine.ReadChanged | digital_input.c:192-205 | is_state_changed; ChangedReadIsConsumed states that it consumes the flag |
| InputEngine.ReadDuration | digital_input.c:207-219 | state_duration; QueriesReportCaughtUpRecord states what it reports |
| InputEngine.ReadDebounced | digital_input.c:221-231 | state_debounced; QueriesReportCaughtUpRecord states what it reports |
| InputEngine.ReadButton | digital_input.c:233-255 | state_button; ButtonClassifier, PushReportedOnce and ZeroClumpThreshold state its answers |
| InputEngine.ReadChangedDebounced | digital_input.c:274-287 | is_state_changed_debounced; DebouncedChangedReadIsConsumed states that it consumes the flag |
| InputEngine.Subscribe | digital_input.c:324-353 | subscribe on the table; SubscribeOutcome, SubscribeKeepsTableShape and ResubscribeOverwritesInPlace state its outcome |
| InputProperties.EdgeCallExact | digital_input.c:47-53 | one occupied slot gets at most one call on an edge, exactly when its condition for that edge and level is set, with that edge's event |
| InputProperties.EdgeCallsExact | digital_input.c:45-54 | an edge scan calls exactly the occupied slots that asked for the edge, each with the edge's event, once each, in increasing slot order |
| InputProperties.DurationCallsAreDurationEvents | digital_input.c:80-98 | the duration scan dispatches only ACTIVE_DURATION and INACTIVE_DURATION |
| InputProperties.DurationScanNeedsFlag | digital_input.c:85-96 | the duration flag leaves the scan as it entered it, and a scan entered with the flag clear calls nobody |
| InputProperties.RawEdgeStep | digital_input.c:38-55 | on a raw edge: the new level is recorded with its time, the changed flag is raised, the duration flag is cleared, the debounced view is untouched, and exactly the subscribers that asked for this raw edge are called once each in slot order |
| InputProperties.StepFrame | digital_input.c:36-100 | every evaluation stamps `tl_handling := now`, records the sample as the raw level, and leaves the configuration and the subscriber table alone |
| InputProperties.DebounceCommit | digital_input.c:56-77 | the debounced level changes iff there is no raw edge, the level has been held for the window and the debounced level differs; it then equals the raw level and both debounced flags are raised, otherwise they are kept |
| InputProperties.DebouncedDispatch | digital_input.c:59-76 | a committing evaluation first calls exactly the subscribers that asked for the debounced edge to the new level |
| InputProperties.SameMillisecondIsNoOp | digital_input.c:116-121 | a second evaluation in the same millisecond changes nothing and calls nobody, whatever the pin reads |
| InputProperties.StampedAfterCatchUp | digital_input.c:116-121 | after the catch-up the record is stamped with the current millisecond |
| InputProperties.SteadyStep | digital_input.c:56-99 | an evaluation without a raw edge keeps the raw level, its timestamp and the raw changed flag, and keeps the debounced changed flag when nothing is pending |
| InputProperties.DurationEventsNeverFire | digital_input.c:79-98 | from a record with the duration flag clear, no sequence of evaluations ever dispatches a duration event, and the flag stays clear |
| InputProperties.InitialNeverFiresDuration | digital_input.c:137-143 | a record as init leaves it never dispatches a duration event |
| InputProperties.ShortBouncesNeverCommit | digital_input.c:56-77 | bounces shorter than the debounce window never move the debounced level, never raise its flags and never call a debounced subscriber |
| InputProperties.BounceScenario | digital_input.c:36-77 | with a 100 ms window and raw edges at 0, 50 and 60, each edge is recorded and dispatched, and the debounced level turns high at t exactly when t >= 160 |
| InputProperties.QueriesReportCaughtUpRecord | digital_input.c:163-231 | a query in a new millisecond reports the sample just taken; after a raw edge the held time is 0 and the debounced level is the one from before the edge; once the raw level has been held for the window the debounced query reports it; in an evaluated millisecond a query reports the record as it stands |
| InputProperties.ChangedReadIsConsumed | digital_input.c:192-205 | a second is_state_changed with no intervening raw edge reports no change, and the button flag is untouched |
| InputProperties.DebouncedChangedReadIsConsumed | digital_input.c:274-287 | a second is_state_changed_debounced reports a change exactly when its own catch-up commits a new debounced level, so raw edges and a pending level leave it false; the button flag is untouched |
| InputProperties.ButtonClassifier | digital_input.c:233-255 | PUSHED iff the button flag is set and the debounced level is active, which consumes the flag; otherwise CLUMPED iff the raw level is active and held for the clump threshold; otherwise NONE, with the record unchanged |
| InputProperties.PushReportedOnce | digital_input.c:242-244 | a push is reported once: a second read in the same millisecond is not PUSHED |
| InputProperties.ZeroClumpThreshold | digital_input.c:245-249 | with the zero threshold init leaves, CLUMPED is reported whenever the raw level is active and no push is pending |
| InputProperties.SubscribeOutcome | digital_input.c:324-353 | the status is OK or ER_NO_MEM; OK exactly when some slot is free or holds the same callback, and then the first such slot gets callback, conditions and argument and nothing else changes; ER_NO_MEM exactly when every slot holds another callback, and then nothing changes |
| InputProperties.SubscribeKeepsTableShape | digital_input.c:336-344 | occupied slots stay a prefix and each callback stays in at most one slot |
| InputProperties.ResubscribeOverwritesInPlace | digital_input.c:337-342 | re-subscribing a registered callback rewrites its own slot and succeeds |
| DigitalInput.Input.Clear | digital_input.c:141-143 | the record is the zeroed record with the default 100 ms debounce window and the given line |
| DigitalInput.Input.ClearTable | digital_input.c:141 | every callback descriptor is free |
| DigitalInput.Input.CallEdgeSubscribers | digital_input.c:45-54 | the loop logs exactly the calls of the edge scan, in slot order |
| DigitalInput.Input.CallDurationSubscribers | digital_input.c:80-98 | the loop logs the duration scan's calls and leaves the duration flag as the scan does |
| DigitalInput.Input.HandleEdge | digital_input.c:38-55 | the raw-edge branch of handle_input has the effect and the calls of the engine's evaluation |
| DigitalInput.Input.CheckDebounce | digital_input.c:58-77 | the debounced check commits and dispatches as the engine's check does |
| DigitalInput.Input.HandleSteady | digital_input.c:56-99 | the steady branch of handle_input has the effect and the calls of the engine's evaluation |
| DigitalInput.Input.HandleInput | digital_input.c:36-100 | handle_input has the effect and the calls of one engine evaluation |
| DigitalInput.Input.HandleIfNeeded | digital_input.c:116-121 | evaluates only when the record was not evaluated at `now` |
| DigitalInput.Input.State | digital_input.c:163-173 | catches up, then returns the raw level |
| DigitalInput.Input.IsStateChanged | digital_input.c:192-205 | catches up, returns the raw changed flag and the raw level, and clears the flag |
| DigitalInput.Input.StateDuration | digital_input.c:207-219 | catches up, then returns the raw level and the time since the last raw edge |
| DigitalInput.Input.StateDebounced | digital_input.c:221-231 | catches up, then returns the debounced level |
| DigitalInput.Input.StateButton | digital_input.c:233-255 | catches up, then answers as the button classifier |
| DigitalInput.Input.IsStateChangedDebounced | digital_input.c:274-287 | catches up, returns the debounced changed flag and the debounced level, and clears the flag |
| DigitalInput.Input.SetDebounceDuration | digital_input.c:289-298 | a zero window is refused with ER_INVAL and changes nothing; otherwise it is installed |
| DigitalInput.Input.SetClumpDuration | digital_input.c:300-309 | a zero threshold is refused with ER_INVAL and changes nothing; otherwise it is installed |
| DigitalInput.Input.Subscribe | digital_input.c:324-353 | the slot loop has the status and the table of the engine's subscribe |
| DigitalInput.Input.SubscribeToStateChange | digital_input.c:355-372 | subscribes with only the two raw-edge conditions |
| DigitalInput.Input.SubscribeToStateChangeDebounced | digital_input.c:374-391 | subscribes with only the two debounced-edge conditions |
| DigitalInput.Input.SubscribeToStateDuration | digital_input.c:393-410 | subscribes with only the two duration thresholds |
| DigitalInput.InputRegistry.IsPinClaimed | digital_input.c:131-135 | true exactly when an occupied slot drives the same (port, pin) |
| DigitalInput.InputRegistry.FreeSlot | digital_input.c:137-138 | returns the lowest NULL slot, if any |
| DigitalInput.InputRegistry.Init | digital_input.c:123-161 | ER_ALREADY or ER_NO_MEM with registry and record unchanged, as the registry decides; otherwise the lowest free slot holds the record, zeroed with a 100 ms window and the active level from the pin configuration; a driver failure returns an error and keeps the slot; the registry stays valid |
| DigitalInput.InputRegistry.Admit | digital_input.c:139-150 | the chosen slot holds the cleared record with its active level, and the registry stays valid |
| DigitalInput.InputRegistry.Store | digital_input.c:140 | storing a cleared record in the lowest free slot registers its line and keeps the registry valid |
| DigitalInput.InputRegistry.PollPass | digital_input.c:102-114 | each record in the first `bound` slots not yet evaluated at `now` is evaluated once with its sample, and the rest are untouched |
| PulseSequencer.SetOutput | digital_output.c:28-35 | set_output on the record; SetOutputSuppressesRepeats states its contract |
| PulseSequencer.PhaseMs | digital_output.c:38 | the current half-cycle's duration with the `uint16_t` truncation; PhasesSplitThePeriod states its properties |
| PulseSequencer.EndPhase | digital_output.c:41-53 | the end of an expired phase; HighPhaseEnds, LowPhaseEnds and FiringTickPhases state its cases |
| PulseSequencer.Tick | digital_output.c:37-57 | handle_output; IdleOrUnexpiredTickIsNoOp, FiringTickPhases, OperationsKeepTiming and OperationsAreFaithful state its properties |
| PulseSequencer.Set | digital_output.c:109-126 | set; SetOutcome states its contract |
| PulseSequencer.StartBlink | digital_output.c:128-144 | start_blink; StartBlinkTrain and StartBlinkZeroHoldsHigh state what follows it |
| PulseSequencer.ConfigBlink | digital_output.c:146-163 | config_blink; ConfigBlinkOutcome states its contract |
| PulseSequencer.StopBlink | digital_output.c:165-179 | stop_blink; StopBlinkSettles states its contract |
| PulseSequencer.Run | digital_output.c:59-71 | the poller's passes over one record; RunIsFaithful, IdleRunIsNoOp and BlinkTrain state its properties |
| PulseProperties.InitialTimingIsValid | digital_output.c:93-94 | init's 500/250 timing is well formed, with two 250 ms halves |
| PulseProperties.ConfigBlinkOutcome | digital_output.c:146-163 | config_blink accepts exactly `0 < on < period` and installs it; otherwise ER_INVAL with the record unchanged |
| PulseProperties.OperationsKeepTiming | digital_output.c:37-179 | every operation keeps `0 < on < period` |
| PulseProperties.PhasesSplitThePeriod | digital_output.c:38 | with a well-formed timing both phase durations are positive and add up to the period |
| PulseProperties.IdleOrUnexpiredTickIsNoOp | digital_output.c:38-40 | a tick changes nothing while idle or inside the current phase |
| PulseProperties.FiringTickPhases | digital_output.c:40-53 | a firing tick restarts the timer; a high phase ends low with the count kept; a low phase with count > 1 goes high with the count decremented, with count 1 settles, and with a negative count goes high with the count unchanged |
| PulseProperties.SetOutputSuppressesRepeats | digital_output.c:28-35 | set_output writes at most once, exactly when the value differs from `hw_state`, and leaves `hw_state` equal to the value |
| PulseProperties.OperationsAreFaithful | digital_output.c:28-179 | no operation writes the level the pin already has, and `hw_state` ends at the last level written |
| PulseProperties.RunIsFaithful | digital_output.c:59-71 | the same holds for any sequence of poller ticks |
| PulseProperties.IdleRunIsNoOp | digital_output.c:40 | an idle record is never changed by the poller |
| PulseProperties.CyclesAlternate | digital_output.c:41-53 | a train's writes alternate low, high, ..., low |
| PulseProperties.HighPhaseEnds | digital_output.c:40-53 | the end of a high phase writes low and keeps the count |
| PulseProperties.LowPhaseEnds | digital_output.c:42-53 | the end of a low phase goes high again while cycles remain, or settles after the last one |
| PulseProperties.FirstCycle | digital_output.c:37-57 | ticked at its two boundaries, a cycle writes low, then high with one cycle fewer to go, or settles after the last cycle |
| PulseProperties.BlinkTrain | digital_output.c:37-57 | ticked at its phase boundaries, a train of n > 0 cycles writes low, high, ..., low (n lows) and then the settled state if high; it ends idle, in the low phase, with the pin at the settled state and the timer at the last boundary |
| PulseProperties.StartBlinkTrain | digital_output.c:128-144 | start_blink(n > 0) followed by ticks at the boundaries writes high (unless already high), then n low and n - 1 high phases, then the settled state, n periods after the start |
| PulseProperties.DefaultDoubleBlink | digital_output.c:37-57 | from init, start_blink(2) at 0 writes high at 0; each tick is stated with the record it leaves: low at 250, high at 500 with one cycle left, low at 750, and at 1000 the record is back to init's with no write; ticks at 249 and 499 do nothing, and the settled record is idle at every later time |
| PulseProperties.NegativeCountPulsesForever | digital_output.c:44 | a negative count is never changed by the poller |
| PulseProperties.StartBlinkZeroHoldsHigh | digital_output.c:134-137 | start_blink(0) leaves the pin high and the record idle, so no tick restores the settled state, unlike stop_blink |
| PulseProperties.SetOutcome | digital_output.c:109-126 | set always records the settled state, reaches the pin only when idle, and never touches the blink fields |
| PulseProperties.StopBlinkSettles | digital_output.c:165-179 | stop_blink leaves the record idle with the pin at the settled state, and the poller then leaves it alone |
| DigitalOutput.Output.Clear | digital_output.c:91-94 | the record is the zeroed record with the default 500/250 timing and the given line |
| DigitalOutput.Output.SetOutput | digital_output.c:28-35 | updates `hw_state` and logs a write exactly as set_output decides |
| DigitalOutput.Output.HandleOutput | digital_output.c:37-57 | handle_output's statements have the effect and the writes of one tick, and keep a well-formed timing |
| DigitalOutput.Output.Set | digital_output.c:109-126 | effect and writes of set |
| DigitalOutput.Output.StartBlink | digital_output.c:128-144 | effect and writes of start_blink with the clock reading |
| DigitalOutput.Output.ConfigBlink | digital_output.c:146-163 | status and effect of config_blink; on success the timing is well formed |
| DigitalOutput.Output.StopBlink | digital_output.c:165-179 | effect and writes of stop_blink |
| DigitalOutput.OutputRegistry.IsPinClaimed | digital_output.c:82-86 | true exactly when an occupied slot drives the same (port, pin) |
| DigitalOutput.OutputRegistry.FreeSlot | digital_output.c:88-89 | returns the lowest NULL slot, if any |
| DigitalOutput.OutputRegistry.Init | digital_output.c:74-107 | ER_ALREADY or ER_NO_MEM with registry and record unchanged, as the registry decides; otherwise the lowest free slot holds the zeroed record with 500/250 timing, and the initial low is written if configuring succeeded; a driver failure returns an error and keeps the slot; the registry stays valid |
| DigitalOutput.OutputRegistry.Admit | digital_output.c:89-97 | the chosen slot holds the cleared record and the initial state is written after a successful configure |
| DigitalOutput.OutputRegistry.Store | digital_output.c:90 | storing a cleared record in the lowest free slot registers its line and keeps the registry valid |
| DigitalOutput.OutputRegistry.PollPass | digital_output.c:59-71 | every registered record is ticked once with the same clock reading, and timings stay well formed |

## Left out

- The poller threads, their infinite loops and sleeps (digital_input.c:102-114, digital_output.c:59-71): scheduling only. One pass of each loop is modelled.
- The mutexes, and the unlock around each callback in `call_subs` (digital_input.c:26-34): these are about concurrency. Callbacks are recorded in a log and never run, so a callback that re-enters the library is not modelled.
- `wait_state` and `wait_state_debounced` (digital_input.c:175-190, 257-272): unbounded sleep-and-poll loops. Their exit test is a `State` or `StateDebounced` read comparing equal to the awaited level.
- The GPIO driver (`gpio_pin_get_dt`, `gpio_pin_get_config_dt`, `gpio_pin_configure_dt`, `gpio_pin_set_dt`): foreign calls. The raw sample and the active-high flag are parameters, and the outcome of each init driver call is a boolean parameter. Any driver error becomes `ErHardware`. In Zephyr's devicetree bindings `GPIO_ACTIVE_HIGH` is 0, so the source's `gpio_cfg & GPIO_ACTIVE_HIGH` test (digital_input.c:145) is false in practice and the active level is always LOW; the `activeHigh` parameter covers both outcomes.
- `k_uptime_get`: the clock is a parameter. `state_duration` and `state_button` read the clock a second time after catching up; the model uses the same `now` for both reads.
- DigitalOutput.Output.SetOutput: treats `gpio_pin_set_dt` as always succeeding. On failure the source has already updated `hw_state` and returns the error through handle_output, set, start_blink and stop_blink. The poller ignores that error.
- DigitalInput.InputRegistry.PollPass: requires the bound to be at most the registry's capacity. The source passes the output registry's capacity; when that is larger, it reads past the end of `g_inputs`.
- DigitalInput.InputRegistry.Init: a record that is already registered may be initialised again only with the line it already drives, which returns ER_ALREADY. Re-initialising it with a different line is excluded: the source would then store it in a second slot.
- DigitalOutput.OutputRegistry.Init: the same restriction on re-initialising a registered record, for the same reason.
- The NULL checks (`ASSERT`): Dafny references are never null, so these `ER_INVAL` paths cannot occur.
- The `uint8_t` loop counters over the registries and the descriptor table: capacities are taken to be below 256, where the counters cannot wrap.
- `handle_output`'s `int64_t` clock: it is taken as a non-negative `U64`, as an uptime is.
- PulseProperties.BlinkTrain: covers only trains whose last boundary fits in 64 bits. It also covers only polling exactly at the phase boundaries. Late ticks shift later boundaries, and only the single-tick lemmas describe that case.
- The prototypes in digital_output.h:23-27 (`start_pulse`, `config_pulse`, `stop_pulse`, `is_pulse_run`, `wait_pulse_end`) have no implementation, so they are not part of this model.
- The unused enums `ZtlDigitalInputPull` and `ZtlDigitalState` are not part of this model.
- Logging (`LOG_MODULE_REGISTER`) is not part of this model.

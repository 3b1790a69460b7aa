/** The input stack of digital_input.c: the per-line record updated in place
    and the registry of records with its polling pass. The raw pin sample and
    the clock are parameters; callback invocations are appended to the
    record's `notified` log. */
module DigitalInput {
  import opened DigitalCommon
  import opened Time
  import opened InputEngine
  import Registry

  /** struct ZtlDigitalInput. */
  class Input {
    var gpio: Gpio
    var debounceMs: U16
    var clumpMs: U16
    var activeLevel: Level
    /** The inline callback_descriptors array. */
    const descriptors: array<Descriptor>
    var prevState: bool
    var prevStateDebounced: bool
    var isStateChanged: bool
    var isStateChangedDebounced: bool
    var isStateChangedDebouncedButton: bool
    var tlStateChange: U64
    var tlHandling: U64
    var isSubsCalledForDuration: bool
    /** Every subscriber call made on behalf of this record, in order. */
    ghost var notified: seq<Notify>

    /** The record's mutable state as a value. */
    function Model(): InputState
      reads this, descriptors
    {
      InputState(debounceMs, clumpMs, activeLevel, descriptors[..], prevState, prevStateDebounced,
                 isStateChanged, isStateChangedDebounced, isStateChangedDebouncedButton,
                 tlStateChange, tlHandling, isSubsCalledForDuration)
    }

    /** Zero-filled storage for a record with `subscribers` callback slots, as
        a static object is before init. */
    constructor (subscribers: nat)
      ensures fresh(descriptors) && descriptors.Length == subscribers
      ensures Model() == Initial(Low, subscribers).(debounceMs := 0)
      ensures notified == []
    {
      gpio := Gpio(0, 0);
      debounceMs, clumpMs, activeLevel := 0, 0, Low;
      descriptors := new Descriptor[subscribers](_ => EMPTY_DESCRIPTOR);
      prevState, prevStateDebounced := false, false;
      isStateChanged, isStateChangedDebounced, isStateChangedDebouncedButton := false, false, false;
      tlStateChange, tlHandling, isSubsCalledForDuration := 0, 0, false;
      notified := [];
      new;
      assert descriptors[..] == Blank(subscribers);
    }

    /** memset of the record followed by the two assignments of init. */
    method Clear(line: Gpio)
      modifies this, descriptors
      ensures gpio == line && Model() == Initial(Low, descriptors.Length)
      ensures notified == old(notified)
    {
      ClearTable();
      gpio := line;
      debounceMs, clumpMs, activeLevel := DEFAULT_DEBOUNCE_MS, 0, Low;
      prevState, prevStateDebounced := false, false;
      isStateChanged, isStateChangedDebounced, isStateChangedDebouncedButton := false, false, false;
      tlStateChange, tlHandling, isSubsCalledForDuration := 0, 0, false;
    }

    /** The memset's effect on callback_descriptors: every slot free. */
    method ClearTable()
      modifies descriptors
      ensures descriptors[..] == Blank(descriptors.Length)
    {
      forall i | 0 <= i < descriptors.Length {
        descriptors[i] := EMPTY_DESCRIPTOR;
      }
      assert descriptors[..] == Blank(descriptors.Length);
    }

    /** The scan over callback_descriptors on a raw edge (`debounced` false)
        or a debounced edge (`debounced` true) to `level`: every occupied slot
        whose matching condition is set is called with that edge's event. */
    method CallEdgeSubscribers(level: bool, debounced: bool)
      modifies this`notified
      ensures notified == old(notified) + EdgeCalls(descriptors[..], level, debounced)
    {
      ghost var calls: seq<Notify> := [];
      for i := 0 to descriptors.Length
        invariant calls == EdgeCalls(descriptors[..i], level, debounced)
      {
        var d := descriptors[i];
        if d.callback.Some? {
          if !debounced {
            if level && d.conditions.toActive {
              calls := calls + [Notify(i, ChangeStateToActive)];
            } else if !level && d.conditions.toInactive {
              calls := calls + [Notify(i, ChangeStateToInactive)];
            }
          } else {
            if level && d.conditions.toActiveDebounced {
              calls := calls + [Notify(i, ChangeStateToActiveDebounced)];
            } else if !level && d.conditions.toInactiveDebounced {
              calls := calls + [Notify(i, ChangeStateToInactiveDebounced)];
            }
          }
        }
        assert descriptors[..i + 1][..i] == descriptors[..i];
      }
      assert descriptors[..descriptors.Length] == descriptors[..];
      notified := notified + calls;
    }

    /** The duration scan: a slot is called only when the "called for
        duration" flag is already set, and calling it sets the flag. */
    method CallDurationSubscribers(held: U64)
      modifies this`notified, this`isSubsCalledForDuration
      ensures Model() == DurationPass(old(Model()), held).next
      ensures notified == old(notified) + DurationPass(old(Model()), held).calls
    {
      ghost var calls: seq<Notify> := [];
      for i := 0 to descriptors.Length
        invariant notified == old(notified)
        invariant DurationScan(calls, isSubsCalledForDuration) ==
                  DurationCalls(descriptors[..i], prevState, old(isSubsCalledForDuration), held)
      {
        var d := descriptors[i];
        if d.callback.Some? {
          var activeDur := d.conditions.activeDurationMs;
          var inactiveDur := d.conditions.inactiveDurationMs;
          var activeCheck := prevState && activeDur != 0 && isSubsCalledForDuration;
          var inactiveCheck := !prevState && inactiveDur != 0 && isSubsCalledForDuration;
          if activeCheck && held >= activeDur {
            calls := calls + [Notify(i, ActiveDuration)];
            isSubsCalledForDuration := true;
          } else if inactiveCheck && held >= inactiveDur {
            calls := calls + [Notify(i, InactiveDuration)];
            isSubsCalledForDuration := true;
          }
        }
        assert descriptors[..i + 1][..i] == descriptors[..i];
      }
      assert descriptors[..descriptors.Length] == descriptors[..];
      notified := notified + calls;
    }

    /** handle_input on a raw edge: record it and call the raw subscribers. */
    method HandleEdge(sample: bool, now: U64)
      requires sample != prevState
      modifies this`tlHandling, this`tlStateChange, this`isStateChanged, this`isSubsCalledForDuration
      modifies this`prevState, this`notified
      ensures Model() == Step(old(Model()), sample, now).next
      ensures notified == old(notified) + Step(old(Model()), sample, now).calls
    {
      tlHandling := now;
      tlStateChange := now;
      isStateChanged := true;
      isSubsCalledForDuration := false;
      CallEdgeSubscribers(sample, false);
      prevState := sample;
    }

    /** The debounced check of handle_input. */
    method CheckDebounce(held: U64)
      modifies this`prevStateDebounced, this`isStateChangedDebounced, this`isStateChangedDebouncedButton
      modifies this`notified
      ensures Model() == DebounceCheck(old(Model()), held).next
      ensures notified == old(notified) + DebounceCheck(old(Model()), held).calls
    {
      if held >= debounceMs {
        if prevStateDebounced != prevState {
          prevStateDebounced := prevState;
          isStateChangedDebounced := true;
          isStateChangedDebouncedButton := true;
          CallEdgeSubscribers(prevState, true);
          prevStateDebounced := prevState;
        }
      }
    }

    /** handle_input without a raw edge: the debounced check, then the
        duration scan. */
    method HandleSteady(sample: bool, now: U64)
      requires sample == prevState
      modifies this`tlHandling, this`notified, this`isSubsCalledForDuration
      modifies this`prevStateDebounced, this`isStateChangedDebounced, this`isStateChangedDebouncedButton
      ensures Model() == Step(old(Model()), sample, now).next
      ensures notified == old(notified) + Step(old(Model()), sample, now).calls
    {
      tlHandling := now;
      var held := Elapsed(now, tlStateChange);
      CheckDebounce(held);
      CallDurationSubscribers(held);
    }

    /** handle_input: evaluate the record with the pin reading `sample` at
        `now`, calling the matching subscribers in slot order. */
    method HandleInput(sample: bool, now: U64)
      modifies this
      ensures Model() == Step(old(Model()), sample, now).next
      ensures notified == old(notified) + Step(old(Model()), sample, now).calls
      ensures gpio == old(gpio)
    {
      if sample != prevState {
        HandleEdge(sample, now);
      } else {
        HandleSteady(sample, now);
      }
    }

    /** handle_if_needed: evaluate unless already evaluated this millisecond. */
    method HandleIfNeeded(sample: bool, now: U64)
      modifies this
      ensures Model() == InputEngine.HandleIfNeeded(old(Model()), sample, now).next
      ensures notified == old(notified) + InputEngine.HandleIfNeeded(old(Model()), sample, now).calls
      ensures gpio == old(gpio)
    {
      if tlHandling != now {
        HandleInput(sample, now);
      }
    }

    /** ztl_digital_input__state. */
    method State(sample: bool, now: U64) returns (state: bool)
      modifies this
      ensures var r := ReadState(old(Model()), sample, now);
              state == r.value && Model() == r.next && notified == old(notified) + r.calls
      ensures gpio == old(gpio)
    {
      HandleIfNeeded(sample, now);
      state := prevState;
    }

    /** ztl_digital_input__is_state_changed: a consuming read of the raw
        changed flag. */
    method IsStateChanged(sample: bool, now: U64) returns (changed: bool, state: bool)
      modifies this
      ensures var r := ReadChanged(old(Model()), sample, now);
              (changed, state) == r.value && Model() == r.next && notified == old(notified) + r.calls
      ensures gpio == old(gpio)
    {
      HandleIfNeeded(sample, now);
      changed := isStateChanged;
      isStateChanged := false;
      state := prevState;
    }

    /** ztl_digital_input__state_duration. */
    method StateDuration(sample: bool, now: U64) returns (state: bool, durationMs: U64)
      modifies this
      ensures var r := ReadDuration(old(Model()), sample, now);
              (state, durationMs) == r.value && Model() == r.next && notified == old(notified) + r.calls
      ensures gpio == old(gpio)
    {
      HandleIfNeeded(sample, now);
      state := prevState;
      durationMs := Elapsed(now, tlStateChange);
    }

    /** ztl_digital_input__state_debounced. */
    method StateDebounced(sample: bool, now: U64) returns (state: bool)
      modifies this
      ensures var r := ReadDebounced(old(Model()), sample, now);
              state == r.value && Model() == r.next && notified == old(notified) + r.calls
      ensures gpio == old(gpio)
    {
      HandleIfNeeded(sample, now);
      state := prevStateDebounced;
    }

    /** ztl_digital_input__state_button. */
    method StateButton(sample: bool, now: U64) returns (state: ButtonState)
      modifies this
      ensures var r := ReadButton(old(Model()), sample, now);
              state == r.value && Model() == r.next && notified == old(notified) + r.calls
      ensures gpio == old(gpio)
    {
      state := Released;
      HandleIfNeeded(sample, now);
      if isStateChangedDebouncedButton && prevStateDebounced {
        state := Pushed;
        isStateChangedDebouncedButton := false;
      } else if prevState {
        var stateDur := Elapsed(now, tlStateChange);
        if stateDur >= clumpMs {
          state := Clumped;
        }
      }
    }

    /** ztl_digital_input__is_state_changed_debounced: a consuming read of the
        debounced changed flag. */
    method IsStateChangedDebounced(sample: bool, now: U64) returns (changed: bool, state: bool)
      modifies this
      ensures var r := ReadChangedDebounced(old(Model()), sample, now);
              (changed, state) == r.value && Model() == r.next && notified == old(notified) + r.calls
      ensures gpio == old(gpio)
    {
      HandleIfNeeded(sample, now);
      changed := isStateChangedDebounced;
      isStateChangedDebounced := false;
      state := prevStateDebounced;
    }

    /** ztl_digital_input__set_debounce_duration: a zero window is refused. */
    method SetDebounceDuration(ms: U16) returns (rc: Status)
      modifies this
      ensures rc == (if ms > 0 then Ok else ErInval)
      ensures Model() == if ms > 0 then old(Model()).(debounceMs := ms) else old(Model())
      ensures gpio == old(gpio) && notified == old(notified)
    {
      if ms == 0 {
        return ErInval;
      }
      debounceMs := ms;
      return Ok;
    }

    /** ztl_digital_input__set_clump_duration: a zero threshold is refused. */
    method SetClumpDuration(ms: U16) returns (rc: Status)
      modifies this
      ensures rc == (if ms > 0 then Ok else ErInval)
      ensures Model() == if ms > 0 then old(Model()).(clumpMs := ms) else old(Model())
      ensures gpio == old(gpio) && notified == old(notified)
    {
      if ms == 0 {
        return ErInval;
      }
      clumpMs := ms;
      return Ok;
    }

    /** ztl_digital_input__subscribe: first free or same-callback slot. */
    method Subscribe(conditions: Conditions, cb: Option<Callback>, arg: Arg) returns (rc: Status)
      modifies descriptors
      ensures var r := InputEngine.Subscribe(old(descriptors[..]), conditions, cb, arg);
              rc == r.status && descriptors[..] == r.descriptors
    {
      for i := 0 to descriptors.Length
        invariant descriptors[..] == old(descriptors[..])
        invariant forall j :: 0 <= j < i ==> !Fits(descriptors[j], cb)
      {
        if descriptors[i].callback.None? || descriptors[i].callback == cb {
          descriptors[i] := Descriptor(cb, conditions, arg);
          return Ok;
        }
      }
      return ErNoMem;
    }

    /** ztl_digital_input__subscribe_to_state_change. */
    method SubscribeToStateChange(toActive: bool, toInactive: bool, cb: Option<Callback>, arg: Arg)
      returns (rc: Status)
      modifies descriptors
      ensures var r := InputEngine.Subscribe(old(descriptors[..]), EdgeConditions(toActive, toInactive), cb, arg);
              rc == r.status && descriptors[..] == r.descriptors
    {
      rc := Subscribe(EdgeConditions(toActive, toInactive), cb, arg);
    }

    /** ztl_digital_input__subscribe_to_state_change_debounced. */
    method SubscribeToStateChangeDebounced(toActive: bool, toInactive: bool, cb: Option<Callback>, arg: Arg)
      returns (rc: Status)
      modifies descriptors
      ensures var r := InputEngine.Subscribe(old(descriptors[..]), DebouncedConditions(toActive, toInactive), cb, arg);
              rc == r.status && descriptors[..] == r.descriptors
    {
      rc := Subscribe(DebouncedConditions(toActive, toInactive), cb, arg);
    }

    /** ztl_digital_input__subscribe_to_state_duration. */
    method SubscribeToStateDuration(activeMs: U32, inactiveMs: U32, cb: Option<Callback>, arg: Arg)
      returns (rc: Status)
      modifies descriptors
      ensures var r := InputEngine.Subscribe(old(descriptors[..]), DurationConditions(activeMs, inactiveMs), cb, arg);
              rc == r.status && descriptors[..] == r.descriptors
    {
      rc := Subscribe(DurationConditions(activeMs, inactiveMs), cb, arg);
    }
  }

  /** g_inputs: a fixed array of record references; NULL is a free slot. */
  class InputRegistry {
    const slots: array<Input?>

    constructor (capacity: nat)
      ensures fresh(slots) && slots.Length == capacity
      ensures forall i :: 0 <= i < capacity ==> slots[i] == null
    {
      slots := new Input?[capacity](_ => null);
    }

    ghost function Objects(): set<Input>
      reads slots
    {
      set i | 0 <= i < slots.Length && slots[i] != null :: slots[i]
    }

    /** The line each slot drives. */
    ghost function Pins(): seq<Option<Gpio>>
      reads slots, Objects()
    {
      seq(slots.Length, i requires 0 <= i < slots.Length reads slots, Objects() =>
        if slots[i] == null then None else Some(slots[i].gpio))
    }

    /** Distinct slots hold distinct records driving distinct lines. */
    ghost predicate Valid()
      reads slots, Objects()
    {
      (forall i, j :: 0 <= i < j < slots.Length && slots[i] != null ==> slots[i] != slots[j]) &&
      Registry.DistinctPins(Pins())
    }

    /** init's first scan: is the line already registered? */
    method IsPinClaimed(line: Gpio) returns (claimed: bool)
      ensures claimed == Registry.PinClaimed(Pins(), line)
      ensures !claimed ==> forall o :: o in Objects() ==> o.gpio != line
    {
      for i := 0 to slots.Length
        invariant forall j :: 0 <= j < i ==> Pins()[j] != Some(line)
      {
        var o := slots[i];
        if o != null && o.gpio.port == line.port && o.gpio.pin == line.pin {
          assert Pins()[i] == Some(line);
          return true;
        }
      }
      forall o | o in Objects()
        ensures o.gpio != line
      {
        var j :| 0 <= j < slots.Length && slots[j] == o;
        assert Pins()[j] == Some(o.gpio);
      }
      return false;
    }

    /** init's second scan: the lowest free slot. */
    method FreeSlot() returns (slot: Option<nat>)
      ensures slot == Registry.FirstFree(Pins())
    {
      for i := 0 to slots.Length
        invariant forall j :: 0 <= j < i ==> Pins()[j].Some?
      {
        if slots[i] == null {
          assert Pins()[i].None?;
          return Some(i);
        }
      }
      return None;
    }

    /** ztl_digital_input__init. `activeHigh` is the pin configuration's
        active-high test, `configOk` and `configureOk` the outcomes of the two
        driver calls. A claimed slot stays claimed when a driver call fails. */
    method Init(self: Input, line: Gpio, activeHigh: bool, configOk: bool, configureOk: bool)
      returns (rc: Status)
      requires Valid()
      requires self !in Objects() || self.gpio == line
      modifies slots, self, self.descriptors
      ensures Valid()
      ensures Pins() == Registry.Registered(old(Pins()), line)
      ensures var claim := Registry.Register(old(Pins()), line);
              rc == (if claim.slot.None? then claim.status
                     else if configOk && configureOk then Ok else ErHardware)
      ensures var claim := Registry.Register(old(Pins()), line);
              claim.slot.Some? ==>
                claim.slot.value < slots.Length &&
                slots[..] == old(slots[..])[claim.slot.value := self] && self.gpio == line &&
                self.Model() == Initial(if configOk && activeHigh then High else Low, self.descriptors.Length)
      ensures Registry.Register(old(Pins()), line).slot.None? ==>
                slots[..] == old(slots[..]) && unchanged(self, self.descriptors)
      ensures self.notified == old(self.notified)
    {
      var claimed := IsPinClaimed(line);
      if claimed {
        return ErAlready;
      }
      assert self !in Objects();
      var free := FreeSlot();
      if free.None? {
        return ErNoMem;
      }
      var i := free.value;
      assert Registry.Register(Pins(), line) == Registry.Claim(Ok, Some(i));
      Admit(self, i, line, if configOk && activeHigh then High else Low);
      rc := if configOk && configureOk then Ok else ErHardware;
    }

    /** The rest of init once slot `i` is chosen: clear the record, set the
        active level read from the pin configuration, then store the record. */
    method Admit(self: Input, i: nat, line: Gpio, activeLevel: Level)
      requires Valid() && self !in Objects()
      requires Registry.Register(Pins(), line) == Registry.Claim(Ok, Some(i))
      modifies slots, self, self.descriptors
      ensures Valid()
      ensures Pins() == Registry.Registered(old(Pins()), line)
      ensures i < slots.Length && slots[..] == old(slots[..])[i := self]
      ensures self.gpio == line && self.Model() == Initial(activeLevel, self.descriptors.Length)
      ensures self.notified == old(self.notified)
    {
      self.Clear(line);
      self.activeLevel := activeLevel;
      assert Pins() == old(Pins());
      Store(self, i);
    }

    /** The slot assignment of init: `self`, already cleared, takes the
        lowest free slot; the registry stays valid. */
    method Store(self: Input, i: nat)
      requires Valid() && self !in Objects()
      requires !Registry.PinClaimed(Pins(), self.gpio) && Registry.FirstFree(Pins()) == Some(i)
      modifies slots
      ensures Valid()
      ensures Pins() == Registry.Registered(old(Pins()), self.gpio)
      ensures i < slots.Length && slots[..] == old(slots[..])[i := self]
    {
      ghost var before := Pins();
      ghost var objects := Objects();
      ghost var oldSlots := slots[..];
      slots[i] := self;
      assert slots[..] == oldSlots[i := self];
      forall o | o in objects
        ensures o in Objects()
      {
        var j :| 0 <= j < slots.Length && oldSlots[j] == o;
        assert slots[j] == o;
      }
      assert Objects() == objects + {self};
      forall j | 0 <= j < slots.Length
        ensures Pins()[j] == before[i := Some(self.gpio)][j]
      {
        if j != i && slots[j] != null {
          assert slots[j] in objects;
        }
      }
      assert Pins() == before[i := Some(self.gpio)];
      Registry.RegisterKeepsPinsDistinct(before, self.gpio);
    }

    /** One pass of input_handler over the first `bound` slots: every record
        there not yet evaluated this millisecond is evaluated with its slot's
        sample; records beyond `bound` are untouched. The source's poller
        passes the output registry's capacity as the bound. */
    method PollPass(bound: nat, samples: seq<bool>, now: U64)
      requires Valid()
      requires bound <= slots.Length && |samples| == slots.Length
      modifies Objects()
      ensures Valid()
      ensures forall i :: 0 <= i < slots.Length && slots[i] != null ==>
                var h := if i < bound then InputEngine.HandleIfNeeded(old(slots[i].Model()), samples[i], now)
                         else Handled(old(slots[i].Model()), []);
                slots[i].Model() == h.next && slots[i].notified == old(slots[i].notified) + h.calls
    {
      for k := 0 to bound
        invariant forall i :: 0 <= i < slots.Length && slots[i] != null ==> slots[i].gpio == old(slots[i].gpio)
        invariant forall i :: 0 <= i < slots.Length && slots[i] != null ==>
                    var h := if i < k then InputEngine.HandleIfNeeded(old(slots[i].Model()), samples[i], now)
                             else Handled(old(slots[i].Model()), []);
                    slots[i].Model() == h.next && slots[i].notified == old(slots[i].notified) + h.calls
      {
        var o := slots[k];
        if o != null && o.tlHandling != now {
          o.HandleInput(samples[k], now);
        }
      }
      assert Pins() == old(Pins());
    }
  }
}

/** The output stack of digital_output.c: the per-line record updated in
    place and the registry of records with its polling pass. The clock is a
    parameter; the values written to the pin are appended to the record's
    `written` log. */
module DigitalOutput {
  import opened DigitalCommon
  import opened Time
  import opened PulseSequencer
  import Registry

  /** struct ZtlDigitalOutput. */
  class Output {
    var gpio: Gpio
    var state: bool
    var hwState: bool
    var pulseCount: I32
    var pulsePeriodMs: U16
    var pulseOnMs: U16
    var tlPulseMs: U64
    var pulseState: bool
    /** Every value written to the pin on behalf of this record, in order. */
    ghost var written: seq<bool>

    /** The record's mutable state as a value. */
    function Model(): OutputState
      reads this
    {
      OutputState(state, hwState, pulseCount, pulsePeriodMs, pulseOnMs, tlPulseMs, pulseState)
    }

    /** Zero-filled storage, as a static object is before init. */
    constructor ()
      ensures Model() == OutputState(false, false, 0, 0, 0, 0, false)
      ensures written == []
    {
      gpio := Gpio(0, 0);
      state, hwState, pulseCount := false, false, 0;
      pulsePeriodMs, pulseOnMs, tlPulseMs, pulseState := 0, 0, 0, false;
      written := [];
    }

    /** memset of the record followed by the three assignments of init. */
    method Clear(line: Gpio)
      modifies this
      ensures gpio == line && Model() == INITIAL
      ensures written == old(written)
    {
      gpio := line;
      state, hwState, pulseCount := false, false, 0;
      pulsePeriodMs, pulseOnMs := DEFAULT_PULSE_PERIOD_MS, DEFAULT_BLINK_ON_MS;
      tlPulseMs, pulseState := 0, false;
    }

    /** set_output. */
    method SetOutput(value: bool)
      modifies this`hwState, this`written
      ensures Model() == PulseSequencer.SetOutput(old(Model()), value).next
      ensures written == old(written) + PulseSequencer.SetOutput(old(Model()), value).writes
    {
      if value != hwState {
        hwState := value;
        written := written + [hwState];
      }
    }

    /** handle_output. */
    method HandleOutput(now: U64)
      modifies this
      ensures Model() == Tick(old(Model()), now).next
      ensures written == old(written) + Tick(old(Model()), now).writes
      ensures gpio == old(gpio)
      ensures ValidPeriod(old(Model())) ==> ValidPeriod(Model())
    {
      var period: U16 := if pulseState then pulseOnMs else (pulsePeriodMs - pulseOnMs) % 0x1_0000;
      if pulseCount != 0 && IsTimeExpiredEx(tlPulseMs, period, now) {
        tlPulseMs := now;
        if !pulseState {
          if pulseCount > 0 {
            pulseCount := pulseCount - 1;
            if pulseCount == 0 {
              SetOutput(state);
              return;
            }
          }
        }
        pulseState := !pulseState;
        SetOutput(pulseState);
      }
    }

    /** ztl_digital_output__set. */
    method Set(value: bool)
      modifies this
      ensures Model() == PulseSequencer.Set(old(Model()), value).next
      ensures written == old(written) + PulseSequencer.Set(old(Model()), value).writes
      ensures gpio == old(gpio)
      ensures ValidPeriod(old(Model())) ==> ValidPeriod(Model())
    {
      if pulseCount == 0 {
        SetOutput(value);
      }
      state := value;
    }

    /** ztl_digital_output__start_blink; `now` is the clock read. */
    method StartBlink(count: I32, now: U64)
      modifies this
      ensures Model() == PulseSequencer.StartBlink(old(Model()), count, now).next
      ensures written == old(written) + PulseSequencer.StartBlink(old(Model()), count, now).writes
      ensures gpio == old(gpio)
      ensures ValidPeriod(old(Model())) ==> ValidPeriod(Model())
    {
      pulseCount := count;
      pulseState := true;
      tlPulseMs := now;
      SetOutput(pulseState);
    }

    /** ztl_digital_output__config_blink. */
    method ConfigBlink(periodMs: U16, onMs: U16) returns (rc: Status)
      modifies this
      ensures rc == PulseSequencer.ConfigBlink(old(Model()), periodMs, onMs).status
      ensures Model() == PulseSequencer.ConfigBlink(old(Model()), periodMs, onMs).next
      ensures written == old(written) && gpio == old(gpio)
      ensures rc == Ok ==> ValidPeriod(Model())
      ensures ValidPeriod(old(Model())) ==> ValidPeriod(Model())
    {
      if onMs == 0 || onMs >= periodMs {
        return ErInval;
      }
      pulsePeriodMs := periodMs;
      pulseOnMs := onMs;
      rc := Ok;
    }

    /** ztl_digital_output__stop_blink. */
    method StopBlink()
      modifies this
      ensures Model() == PulseSequencer.StopBlink(old(Model())).next
      ensures written == old(written) + PulseSequencer.StopBlink(old(Model())).writes
      ensures gpio == old(gpio)
      ensures ValidPeriod(old(Model())) ==> ValidPeriod(Model())
    {
      pulseCount := 0;
      SetOutput(state);
    }
  }

  /** g_outputs: a fixed array of record references; NULL is a free slot. */
  class OutputRegistry {
    const slots: array<Output?>

    constructor (capacity: nat)
      ensures fresh(slots) && slots.Length == capacity
      ensures forall i :: 0 <= i < capacity ==> slots[i] == null
    {
      slots := new Output?[capacity](_ => null);
    }

    ghost function Objects(): set<Output>
      reads slots
    {
      set i | 0 <= i < slots.Length && slots[i] != null :: slots[i]
    }

    /** The line each slot drives. */
    ghost function Pins(): seq<Option<Gpio>>
      reads slots, Objects()
    {
      seq(slots.Length, i requires 0 <= i < slots.Length reads slots, Objects() =>
        if slots[i] == null then None else Some(slots[i].gpio))
    }

    /** Distinct slots hold distinct records driving distinct lines, and every
        registered record has a well-formed blink timing. */
    ghost predicate Valid()
      reads slots, Objects()
    {
      (forall i, j :: 0 <= i < j < slots.Length && slots[i] != null ==> slots[i] != slots[j]) &&
      Registry.DistinctPins(Pins()) &&
      (forall o :: o in Objects() ==> ValidPeriod(o.Model()))
    }

    /** init's first scan: is the line already registered? */
    method IsPinClaimed(line: Gpio) returns (claimed: bool)
      ensures claimed == Registry.PinClaimed(Pins(), line)
      ensures !claimed ==> forall o :: o in Objects() ==> o.gpio != line
    {
      for i := 0 to slots.Length
        invariant forall j :: 0 <= j < i ==> Pins()[j] != Some(line)
      {
        var o := slots[i];
        if o != null && o.gpio.port == line.port && o.gpio.pin == line.pin {
          assert Pins()[i] == Some(line);
          return true;
        }
      }
      forall o | o in Objects()
        ensures o.gpio != line
      {
        var j :| 0 <= j < slots.Length && slots[j] == o;
        assert Pins()[j] == Some(o.gpio);
      }
      return false;
    }

    /** init's second scan: the lowest free slot. */
    method FreeSlot() returns (slot: Option<nat>)
      ensures slot == Registry.FirstFree(Pins())
    {
      for i := 0 to slots.Length
        invariant forall j :: 0 <= j < i ==> Pins()[j].Some?
      {
        if slots[i] == null {
          assert Pins()[i].None?;
          return Some(i);
        }
      }
      return None;
    }

    /** ztl_digital_output__init. `configureOk` and `writeOk` are the outcomes
        of configuring the pin as an output and of writing the initial state.
        A claimed slot stays claimed when a driver call fails. */
    method Init(self: Output, line: Gpio, configureOk: bool, writeOk: bool) returns (rc: Status)
      requires Valid()
      requires self !in Objects() || self.gpio == line
      modifies slots, self
      ensures Valid()
      ensures Pins() == Registry.Registered(old(Pins()), line)
      ensures var claim := Registry.Register(old(Pins()), line);
              rc == (if claim.slot.None? then claim.status
                     else if configureOk && writeOk then Ok else ErHardware)
      ensures var claim := Registry.Register(old(Pins()), line);
              claim.slot.Some? ==>
                claim.slot.value < slots.Length &&
                slots[..] == old(slots[..])[claim.slot.value := self] && self.gpio == line &&
                self.Model() == INITIAL &&
                self.written == old(self.written) + (if configureOk then [INITIAL.state] else [])
      ensures Registry.Register(old(Pins()), line).slot.None? ==>
                slots[..] == old(slots[..]) && unchanged(self)
    {
      var claimed := IsPinClaimed(line);
      if claimed {
        return ErAlready;
      }
      assert self !in Objects();
      var free := FreeSlot();
      if free.None? {
        return ErNoMem;
      }
      var i := free.value;
      assert Registry.Register(Pins(), line) == Registry.Claim(Ok, Some(i));
      Admit(self, i, line, configureOk);
      rc := if configureOk && writeOk then Ok else ErHardware;
    }

    /** The rest of init once slot `i` is chosen: clear the record, configure
        the pin and write the initial state, then store the record. */
    method Admit(self: Output, i: nat, line: Gpio, configureOk: bool)
      requires Valid() && self !in Objects()
      requires Registry.Register(Pins(), line) == Registry.Claim(Ok, Some(i))
      modifies slots, self
      ensures Valid()
      ensures Pins() == Registry.Registered(old(Pins()), line)
      ensures i < slots.Length && slots[..] == old(slots[..])[i := self]
      ensures self.gpio == line && self.Model() == INITIAL
      ensures self.written == old(self.written) + (if configureOk then [INITIAL.state] else [])
    {
      self.Clear(line);
      if configureOk {
        self.written := self.written + [self.state];
      }
      assert Pins() == old(Pins());
      Store(self, i);
    }

    /** The slot assignment of init: `self`, already cleared, takes the
        lowest free slot; the registry stays valid. */
    method Store(self: Output, i: nat)
      requires Valid() && self !in Objects() && ValidPeriod(self.Model())
      requires !Registry.PinClaimed(Pins(), self.gpio) && Registry.FirstFree(Pins()) == Some(i)
      modifies slots
      ensures Valid()
      ensures Pins() == Registry.Registered(old(Pins()), self.gpio)
      ensures i < slots.Length && slots[..] == old(slots[..])[i := self]
    {
      ghost var before := Pins();
      ghost var objects := Objects();
      ghost var oldSlots := slots[..];
      slots[i] := self;
      assert slots[..] == oldSlots[i := self];
      forall o | o in objects
        ensures o in Objects()
      {
        var j :| 0 <= j < slots.Length && oldSlots[j] == o;
        assert slots[j] == o;
      }
      assert Objects() == objects + {self};
      forall j | 0 <= j < slots.Length
        ensures Pins()[j] == before[i := Some(self.gpio)][j]
      {
        if j != i && slots[j] != null {
          assert slots[j] in objects;
        }
      }
      assert Pins() == before[i := Some(self.gpio)];
      Registry.RegisterKeepsPinsDistinct(before, self.gpio);
    }

    /** One pass of output_handler: every registered record is ticked with the
        same clock reading. */
    method PollPass(now: U64)
      requires Valid()
      modifies Objects()
      ensures Valid()
      ensures forall i :: 0 <= i < slots.Length && slots[i] != null ==>
                var d := Tick(old(slots[i].Model()), now);
                slots[i].Model() == d.next && slots[i].written == old(slots[i].written) + d.writes
    {
      for k := 0 to slots.Length
        invariant forall i :: 0 <= i < slots.Length && slots[i] != null ==> slots[i].gpio == old(slots[i].gpio)
        invariant forall o :: o in Objects() ==> ValidPeriod(o.Model())
        invariant forall i :: 0 <= i < slots.Length && slots[i] != null ==>
                    var d := if i < k then Tick(old(slots[i].Model()), now) else Driven(old(slots[i].Model()), []);
                    slots[i].Model() == d.next && slots[i].written == old(slots[i].written) + d.writes
      {
        var o := slots[k];
        if o != null {
          o.HandleOutput(now);
        }
      }
      assert Pins() == old(Pins());
    }
  }
}

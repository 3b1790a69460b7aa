/** The fixed-capacity registry that both stacks keep (g_inputs, g_outputs),
    seen through the pin each slot holds: None is a NULL slot, Some(g) a slot
    whose object drives line g. Only the slot-claiming logic of the two init
    calls lives here; the hardware steps that follow are in the stacks. */
module Registry {
  import opened DigitalCommon

  /** Some occupied slot already drives line g. */
  predicate PinClaimed(pins: seq<Option<Gpio>>, g: Gpio)
  {
    exists i :: 0 <= i < |pins| && pins[i] == Some(g)
  }

  /** At most one slot refers to a given line. */
  predicate DistinctPins(pins: seq<Option<Gpio>>)
  {
    forall i, j :: 0 <= i < j < |pins| && pins[i].Some? ==> pins[i] != pins[j]
  }

  /** The lowest NULL slot at or after `from`. */
  function FirstFreeFrom(pins: seq<Option<Gpio>>, from: nat): (r: Option<nat>)
    requires from <= |pins|
    ensures r.Some? ==> from <= r.value < |pins| && pins[r.value].None?
    ensures r.Some? ==> forall j :: from <= j < r.value ==> pins[j].Some?
    ensures r.None? ==> forall j :: from <= j < |pins| ==> pins[j].Some?
    decreases |pins| - from
  {
    if from == |pins| then None
    else if pins[from].None? then Some(from)
    else FirstFreeFrom(pins, from + 1)
  }

  /** The lowest NULL slot of the registry, if any. */
  function FirstFree(pins: seq<Option<Gpio>>): Option<nat>
  {
    FirstFreeFrom(pins, 0)
  }

  /** Outcome of the slot-claiming part of init: the status it would return if
      the hardware steps succeed, and the slot it claims. */
  datatype Claim = Claim(status: Status, slot: Option<nat>)

  /** Init's two scans: ER_ALREADY when the line is registered, else the
      lowest free slot, else ER_NO_MEM. */
  function Register(pins: seq<Option<Gpio>>, g: Gpio): Claim
  {
    if PinClaimed(pins, g) then Claim(ErAlready, None)
    else match FirstFree(pins)
      case Some(i) => Claim(Ok, Some(i))
      case None => Claim(ErNoMem, None)
  }

  /** The registry after init: the claimed slot now holds line g. */
  function Registered(pins: seq<Option<Gpio>>, g: Gpio): seq<Option<Gpio>>
  {
    match Register(pins, g).slot
    case Some(i) => if i < |pins| then pins[i := Some(g)] else pins
    case None => pins
  }

  /** What init decides, case by case: a duplicate line is refused and nothing
      changes; otherwise the lowest free slot is claimed; a full registry is
      refused and nothing changes. */
  lemma RegisterOutcome(pins: seq<Option<Gpio>>, g: Gpio)
    ensures Register(pins, g).status == ErAlready <==> PinClaimed(pins, g)
    ensures Register(pins, g).status == ErNoMem <==>
              !PinClaimed(pins, g) && forall j :: 0 <= j < |pins| ==> pins[j].Some?
    ensures Register(pins, g).status == Ok <==>
              !PinClaimed(pins, g) && exists j :: 0 <= j < |pins| && pins[j].None?
    ensures Register(pins, g).status == Ok || Register(pins, g).status == ErAlready ||
            Register(pins, g).status == ErNoMem
    ensures Register(pins, g).status == Ok <==> Register(pins, g).slot.Some?
    ensures Register(pins, g).slot.None? ==> Registered(pins, g) == pins
    ensures Register(pins, g).slot.Some? ==>
              var i := Register(pins, g).slot.value;
              i < |pins| && pins[i].None? && (forall j :: 0 <= j < i ==> pins[j].Some?) &&
              Registered(pins, g) == pins[i := Some(g)]
  {
    if !PinClaimed(pins, g) {
      match FirstFree(pins)
      case None =>
        assert forall j :: 0 <= j < |pins| ==> pins[j].Some?;
      case Some(i) =>
        assert pins[i].None?;
    }
  }

  /** Registration keeps every line in at most one slot, and the new line is
      then claimed. */
  lemma {:induction false} RegisterKeepsPinsDistinct(pins: seq<Option<Gpio>>, g: Gpio)
    requires DistinctPins(pins)
    ensures DistinctPins(Registered(pins, g))
    ensures Register(pins, g).slot.Some? ==> PinClaimed(Registered(pins, g), g)
  {
    match Register(pins, g).slot
    case None =>
    case Some(i) =>
      var after := pins[i := Some(g)];
      assert !PinClaimed(pins, g);
      forall a, b | 0 <= a < b < |after| && after[a].Some?
        ensures after[a] != after[b]
      {
        if a == i {
          assert pins[b] != Some(g);
        } else if b == i {
          assert pins[a] != Some(g);
        }
      }
      assert after[i] == Some(g);
  }
}

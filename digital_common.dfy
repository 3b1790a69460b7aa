/** Types shared by the input and the output stacks: the physical line level,
    the identity of a GPIO line, the result codes of the public calls and an
    optional value (a reference that may be NULL). */
module DigitalCommon {

  /** Physical level of a line (enum ZtlLevel). */
  datatype Level = Low | High

  /** A line of a GPIO controller: the controller device and the pin
      number. Two registrations clash when both parts are equal. */
  datatype Gpio = Gpio(port: nat, pin: nat)

  /** Result codes of the public calls: 0, ER_INVAL, ER_ALREADY, ER_NO_MEM and
      a negative error returned by the GPIO driver. */
  datatype Status = Ok | ErInval | ErAlready | ErNoMem | ErHardware

  /** A value that may be absent, for the source's references that may be NULL. */
  datatype Option<T> = None | Some(value: T)

  /** ztl_digital__invert_level: LOW maps to HIGH and anything else to LOW,
      so the result always differs from the argument. */
  function InvertLevel(level: Level): (r: Level)
    ensures r != level
  {
    if level == Low then High else Low
  }

  lemma InvertLowIsHigh()
    ensures InvertLevel(Low) == High
  {
  }

  lemma InvertHighIsLow()
    ensures InvertLevel(High) == Low
  {
  }

  /** Inverting twice gives the level back. */
  lemma InvertLevelInvolution(level: Level)
    ensures InvertLevel(InvertLevel(level)) == level
  {
  }
}

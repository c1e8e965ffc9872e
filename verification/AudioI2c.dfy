/**
 The shared I2C bus as the audio code uses it: the TCA9554 expander whose pin 7
 drives the speaker amplifier. A write that reports failure may still have
 landed; a write that reports success has landed.
 */
module AudioI2c {

  datatype I2cResult = Ok | Busy | ReadFailed | WriteFailed

  datatype Register = Config | Output

  /** An eight-bit register, as the set of its one bits. */
  type Bits = set<nat>

  const SPEAKER_AMP_PIN: nat := 7

  /** static_cast<uint8_t>(1u << pin): no bit at all beyond pin 7. */
  function PinMask(pin: nat): Bits {
    if pin < 8 then {pin} else {}
  }

  /** What a pin shows: it is driven high only as an output whose bit is set. */
  datatype AmpPort = AmpPort(high: bool, isOutput: bool) {
    predicate Asserted() { high && isOutput }
  }

  function PortView(config: Bits, output: Bits, pin: nat): AmpPort {
    AmpPort(pin in output, pin !in config)
  }

  /** Every way one attempt to switch the amplifier may end. */
  predicate AmpOutcome(before: AmpPort, enable: bool, result: I2cResult, after: AmpPort) {
    match result
    case Ok => after == AmpPort(enable, true)
    case Busy => after == before
    case ReadFailed => after == before
    case WriteFailed =>
      || after == before
      || after == AmpPort(enable, before.isOutput)
      || after == AmpPort(enable, true)
  }

  /** The bus transactions of one attempt: each is tried only if the one before it succeeded. */
  predicate Attempted(answers: seq<I2cResult>, result: I2cResult) {
    && 1 <= |answers| <= 4 && answers[|answers| - 1] == result
    && (forall i :: 0 <= i < |answers| - 1 ==> answers[i] == Ok)
    && (result == Ok ==> |answers| == 4)
    && (result == ReadFailed ==> |answers| <= 2)
    && (result == WriteFailed ==> |answers| >= 3)
    && result != Busy
  }

  class Expander {
    var config: Bits
    var output: Bits
    ghost var answers: seq<I2cResult>    // how every transaction so far ended

    method ReadRegister(reg: Register) returns (result: I2cResult, value: Bits)
      modifies this`answers
      ensures result == Ok || result == ReadFailed
      ensures result == Ok ==> value == (if reg == Config then config else output)
      ensures answers == old(answers) + [result]
    {
      var answered: bool := *;
      result := if answered then Ok else ReadFailed;
      value := if !answered then {} else if reg == Config then config else output;
      answers := answers + [result];
    }

    method WriteRegister(reg: Register, value: Bits) returns (result: I2cResult)
      modifies this
      ensures result == Ok || result == WriteFailed
      ensures reg == Config ==> output == old(output) && (config == value || config == old(config))
      ensures reg == Output ==> config == old(config) && (output == value || output == old(output))
      ensures result == Ok ==> (if reg == Config then config else output) == value
      ensures answers == old(answers) + [result]
    {
      var landed: bool := *;
      var acknowledged: bool := *;
      if landed || acknowledged {
        if reg == Config { config := value; } else { output := value; }
      }
      result := if acknowledged then Ok else WriteFailed;
      answers := answers + [result];
    }

    /**
     audioI2cSetTca9554Pin, with the bus lock held: whatever fails, no other pin
     is disturbed and this pin ends in one of the states AmpOutcome lists. It gives
     up exactly at the first transaction that fails.
     */
    method SetPin(pin: nat, high: bool) returns (result: I2cResult)
      modifies this
      ensures old(answers) <= answers && Attempted(answers[|old(answers)|..], result)
      ensures output - PinMask(pin) == old(output) - PinMask(pin)
      ensures config - PinMask(pin) == old(config) - PinMask(pin)
      ensures pin < 8 ==>
                AmpOutcome(PortView(old(config), old(output), pin), high, result, PortView(config, output, pin))
    {
      var c, o;
      result, c := ReadRegister(Config);
      assert answers[|old(answers)|..] == [result];
      if result != Ok { return; }
      result, o := ReadRegister(Output);
      assert answers[|old(answers)|..] == [Ok, result];
      if result != Ok { return; }
      if high { o := o + PinMask(pin); } else { o := o - PinMask(pin); }
      result := WriteRegister(Output, o);
      assert answers[|old(answers)|..] == [Ok, Ok, result];
      if result != Ok { return; }
      c := c - PinMask(pin);
      result := WriteRegister(Config, c);
      assert answers[|old(answers)|..] == [Ok, Ok, Ok, result];
    }

    /** set_speaker_amp: Busy exactly if the lock was not got in time, and then nothing was touched. */
    method SetSpeakerAmp(enable: bool, locked: bool) returns (result: I2cResult)
      modifies this
      ensures result == Busy <==> !locked
      ensures !locked ==> answers == old(answers)
      ensures locked ==> old(answers) <= answers && Attempted(answers[|old(answers)|..], result)
      ensures AmpOutcome(PortView(old(config), old(output), SPEAKER_AMP_PIN), enable, result,
                         PortView(config, output, SPEAKER_AMP_PIN))
      ensures output - {SPEAKER_AMP_PIN} == old(output) - {SPEAKER_AMP_PIN}
      ensures config - {SPEAKER_AMP_PIN} == old(config) - {SPEAKER_AMP_PIN}
    {
      if !locked { return Busy; }
      result := SetPin(SPEAKER_AMP_PIN, enable);
    }
  }
}

/**
 * The parameter store of src/app/ledStripDriver.cpp: a driver whose fluent setters
 * each record one parameter of the lighting pattern, and whose timer handler writes
 * the "on" colour to the strip through the configured callback.
 */
module LedStrip {
  import opened Prelude
  import Colours

  /** The lighting patterns a driver can be asked to show. */
  datatype Pattern = Blink | Colour | Gradient | Progress | Pulse | Snake | Strobe

  /** Which way the snake pattern runs: first LED to last, or last to first. */
  datatype Direction = Forward | Reverse

  /**
   * The strip configuration the driver keeps a pointer to. Its `writeValueFn`
   * callback is not a field here: the driver's ghost `written` log records every
   * buffer handed to it.
   */
  datatype StripConfig = StripConfig(numLeds: u32, resolutionMs: u32)

  /** The per-tick state the timer passes in, a plain record. Its `double dutyCycle` is not modelled. */
  class TickState {
    var counter: u32
    var dutyDirection: i32
  }

  /** The colour both colour parameters start as: white. */
  const COLOUR_DEFAULT := Colours.FromBytes(255, 255, 255)

  /** Number of bytes onTimerFired writes: one colour, three channels. */
  const VALUES_LENGTH := 3

  class LedStripDriver {
    const config: StripConfig
    var periodMs: u32
    var colourOn: Colours.Colour
    var colourOff: Colours.Colour
    var pattern: Pattern
    var pulseDutyCycle: u8
    var snakeDirection: Direction
    var snakeLength: u32
    var progressInitial: u32
    var progressIncrement: u32
    var progressDelayMs: u32

    /** Every buffer passed to the write callback so far, oldest first. */
    ghost var written: seq<seq<u8>>

    /**
     * The fields stored from `uint8_t` setter arguments (and the defaults) always
     * hold byte values, although they are declared `uint32_t`.
     */
    ghost predicate Valid()
      reads this
    {
      snakeLength < U8_LIMIT && progressInitial < U8_LIMIT && progressIncrement < U8_LIMIT
    }

    /** A driver with the default parameters, which has written nothing yet. */
    constructor(config: StripConfig)
      ensures this.config == config
      ensures periodMs == 1000 && pattern == Colour
      ensures colourOn == COLOUR_DEFAULT && colourOff == COLOUR_DEFAULT
      ensures pulseDutyCycle == 50
      ensures snakeDirection == Forward && snakeLength == 3
      ensures progressInitial == 0 && progressIncrement == 1 && progressDelayMs == 1000
      ensures written == []
      ensures Valid()
    {
      this.config := config;
      periodMs := 1000;
      colourOn := COLOUR_DEFAULT;
      colourOff := COLOUR_DEFAULT;
      pattern := Colour;
      pulseDutyCycle := 50;
      snakeDirection := Forward;
      snakeLength := 3;
      progressInitial := 0;
      progressIncrement := 1;
      progressDelayMs := 1000;
      written := [];
    }

    /**
     * onTimerFired: copies the channels of the "on" colour into a three-byte buffer
     * and hands it to the write callback. The tick state is neither read nor changed.
     */
    method OnTimerFired(state: TickState)
      requires Valid()
      modifies this`written
      ensures written == old(written) + [[colourOn.red, colourOn.green, colourOn.blue]]
      ensures |written[|written| - 1]| == VALUES_LENGTH
      ensures Valid()
    {
      var values := new u8[VALUES_LENGTH];
      values[0] := colourOn.red;
      values[1] := colourOn.green;
      values[2] := colourOn.blue;
      assert values[..] == [colourOn.red, colourOn.green, colourOn.blue];
      written := written + [values[..]];
    }

    method Period(valueMs: u32) returns (self: LedStripDriver)
      requires Valid()
      modifies this`periodMs
      ensures periodMs == valueMs && self == this && Valid()
    {
      periodMs := valueMs;
      return this;
    }

    method DutyCycle(value: u8) returns (self: LedStripDriver)
      requires Valid()
      modifies this`pulseDutyCycle
      ensures pulseDutyCycle == value && self == this && Valid()
    {
      pulseDutyCycle := value;
      return this;
    }

    method ColourOn(colour: Colours.Colour) returns (self: LedStripDriver)
      requires Valid()
      modifies this`colourOn
      ensures colourOn == colour && self == this && Valid()
    {
      colourOn := colour;
      return this;
    }

    method ColourOff(colour: Colours.Colour) returns (self: LedStripDriver)
      requires Valid()
      modifies this`colourOff
      ensures colourOff == colour && self == this && Valid()
    {
      colourOff := colour;
      return this;
    }

    /** Selects a pattern; no other parameter is reset. */
    method Pattern(p: Pattern) returns (self: LedStripDriver)
      requires Valid()
      modifies this`pattern
      ensures pattern == p && self == this && Valid()
    {
      pattern := p;
      return this;
    }

    /** The snake's length in LEDs, given as a byte. */
    method Length(numLeds: u8) returns (self: LedStripDriver)
      requires Valid()
      modifies this`snakeLength
      ensures snakeLength == numLeds && self == this && Valid()
    {
      snakeLength := numLeds;
      return this;
    }

    method Direction(direction: Direction) returns (self: LedStripDriver)
      requires Valid()
      modifies this`snakeDirection
      ensures snakeDirection == direction && self == this && Valid()
    {
      snakeDirection := direction;
      return this;
    }

    /** The initial progress value, given as a byte. */
    method Initial(progress: u8) returns (self: LedStripDriver)
      requires Valid()
      modifies this`progressInitial
      ensures progressInitial == progress && self == this && Valid()
    {
      progressInitial := progress;
      return this;
    }

    /** LEDs per progress increment, given as a byte. */
    method Increment(leds: u8) returns (self: LedStripDriver)
      requires Valid()
      modifies this`progressIncrement
      ensures progressIncrement == leds && self == this && Valid()
    {
      progressIncrement := leds;
      return this;
    }

    /** Milliseconds between progress increments. */
    method Delay(delayMs: u32) returns (self: LedStripDriver)
      requires Valid()
      modifies this`progressDelayMs
      ensures progressDelayMs == delayMs && self == this && Valid()
    {
      progressDelayMs := delayMs;
      return this;
    }
  }

  /**
   * A chain of setters as a caller writes it: the later of two writes to a field wins,
   * selecting a pattern keeps the parameters set before it, and the next tick writes
   * the colour set last.
   */
  method ConfigureAndFire(driver: LedStripDriver, state: TickState, first: u32, second: u32,
                          on: Colours.Colour, p: Pattern, length: u8)
    requires driver.Valid()
    modifies driver
    ensures driver.periodMs == second && driver.colourOn == on && driver.pattern == p
    ensures driver.snakeLength == length
    ensures driver.colourOff == old(driver.colourOff) && driver.pulseDutyCycle == old(driver.pulseDutyCycle)
    ensures driver.snakeDirection == old(driver.snakeDirection) && driver.progressInitial == old(driver.progressInitial)
    ensures driver.progressIncrement == old(driver.progressIncrement) && driver.progressDelayMs == old(driver.progressDelayMs)
    ensures driver.written == old(driver.written) + [[on.red, on.green, on.blue]]
    ensures driver.Valid()
  {
    var d := driver.Period(first);
    d := d.ColourOn(on);
    d := d.Length(length);
    d := d.Period(second);
    d := d.Pattern(p);
    d.OnTimerFired(state);
  }
}

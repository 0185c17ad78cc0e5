# Obelisk LED controller core, modelled in Dafny

This project models the deterministic core of the Obelisk LED strip controller firmware:

- **Hex** (`hex.dfy`): `convertChar` and `hexStrToInt`. They turn a string of hexadecimal digits into a `uint32_t`. The code weighs the digit at distance `pos` from the end by `16 * pos`, not by `16^pos`. The model keeps that weighting and wraps every addition at 2^32.
- **Colours** (`colours.dfy`): the `Colour` value type.
  - Built from three bytes, or parsed from a `#RRGGBB` string.
  - Read through its getters.
  - Compared channel by channel by `==` and `!=`.
- **ArgParser** (`arg_parser.dfy`): the cloud-function argument layer.
  - `tokeniseArgs` splits a comma-delimited string into an array of tokens. It counts them in a `uint8_t`.
  - `parseAndValidateArgs` checks the token count against a schema and range-checks each number argument.
- **LedStrip** (`led_strip.dfy`): the `LedStripDriver` parameter store.
  - A constructor with defaults.
  - Chained setters, each assigning one field.
  - `onTimerFired`, which writes the "on" colour's three channels through the configured callback.
- **Prelude** (`prelude.dfy`): the machine integer ranges (`uint8_t`, `uint32_t`, `int32_t`) and an `Option` type.

Some of the source is pure and some works step by step, and the model follows it:
- Pure code is modelled as datatypes and functions.
- `hexStrToInt`, `tokeniseArgs` and `parseAndValidateArgs` are loops. Each is a method with loop invariants, proved against a specification function:
  - `HexValue`, which is proved equal to the plain sum of the weighted digits modulo 2^32;
  - `TokeniseResult` and `ValidationResult`, which state the outcome from the comma-separated pieces of the input.
- `tokeniseArgs` writes an `array`.
- The driver is a class whose setters modify only their own field.

The outcomes of `tokeniseArgs` are stated on `Split(args)`, the comma-separated pieces of the input:
- Too many arguments: more than `LoopLimit` commas, or exactly that many followed by non-empty text. `LoopLimit` is `argLimit`, except that it is 1 for a limit of 0.
- Too few arguments: fewer than `argLimit` commas with an empty last piece.
- Otherwise: the number of pieces modulo 256.

## Model

| member | source | states |
|---|---|---|
| Hex.ConvertChar | src/app/hexStrToInt.cpp:16-28 | '0'-'9' map to 0-9, 'a'-'f' and 'A'-'F' to 10-15; every other character gives 255 (the `uint8_t` holding -1); the result is below 16 exactly for hex digits |
| Hex.HexValue | src/app/hexStrToInt.cpp:30-42 | the result is the sum of the weighted digits `WeightedSum` reduced modulo 2^32; the empty string reads 0, one digit reads its value, two digits d0 d1 read 16*d0 + d1 |
| Hex.AccumulatedIsWrappedSum | src/app/hexStrToInt.cpp:30-42 | wrapping the `uint32_t` accumulator after every addition gives the same value as adding all weighted digits without wrap-around and reducing once modulo 2^32 |
| Hex.HexStrToInt | src/app/hexStrToInt.cpp:30-42 | the loop returns `HexValue`: digit i adds `16*(len-i-1)*digit` (just `digit` for the last), every addition wrapping at 2^32 |
| Hex.ShortStringsArePositional | src/app/hexStrToInt.cpp:34-39 | on strings of at most two hex digits the linear weighting equals ordinary base-16 reading, and the value fits in a byte |
| Hex.HexValueExamples | src/test/hexStringToInt.tst.cpp:13-31 | "f" reads 15, "A" 10, "0" 0 and "F5" 245 |
| Hex.LinearWeightCounterexample | src/app/hexStrToInt.cpp:38 | "100" reads 32, while its base-16 value is 256 |
| Hex.PositionalValueRoundTrip | src/app/hexStrToInt.cpp:30-42 | base-16 reading inverts formatting: any n below 16^width, written in width hex digits of either case, reads back as n |
| Colours.FromBytes | src/app/colour.cpp:8-13 | the byte constructor stores the three channels unchanged and marks the colour valid |
| Colours.HexColourStrValToInt | src/app/colour.cpp:4-6 | a two-character channel reads (16*d0 + d1) mod 256, the `uint8_t` cast of hexStrToInt |
| Colours.HexChannelIsPositional | src/app/colour.cpp:4-6 | two hex digits read as their base-16 value |
| Colours.Parse | src/app/colour.cpp:16-29 | valid exactly when the string has 7 characters and starts with '#'; then red, green and blue come from characters 1-2, 3-4 and 5-6; otherwise the colour equals black |
| Colours.Equals | src/app/colour.cpp:47-53 | `==` holds exactly when the colours agree in everything but the validity flag |
| Colours.NotEquals | src/app/colour.cpp:55-57 | `!=` holds exactly when some channel differs |
| Colours.EqualsIsEquivalence | src/app/colour.cpp:47-53 | `==` is reflexive, symmetric and transitive, so two parses of one string compare equal |
| Colours.FromBytesInjective | src/app/colour.cpp:8-13 | two byte-built colours are `==` exactly when their bytes agree, and the getters return the bytes given |
| Colours.ParseHexDigits | src/app/colour.cpp:20-26 | a well-formed string of hex digits parses to the base-16 values of its three digit pairs |
| Colours.ParseFormatRoundTrip | src/app/colour.cpp:16-29 | formatting any colour as `#RRGGBB` (upper or lower case) and parsing it gives back its channels, valid |
| Colours.NonHexDigitsAccepted | src/app/colour.cpp:16-28 | only the length and the '#' are checked: six copies of any non-hex character, "#GGGGGG" for one, give a valid colour with every channel 239 |
| Colours.ParseMalformedExamples | src/test/colour.tst.cpp:16-32 | "saohetu" and "#1122334" are invalid and read as black |
| Colours.ParseRedExample | src/test/colour.tst.cpp:34-38 | "#11FFA5" has red 17 |
| Colours.ParseGreenExample | src/test/colour.tst.cpp:40-44 | "#00FEA5" has green 254 |
| Colours.ParseBlueExample | src/test/colour.tst.cpp:46-50 | "#00FFA5" has blue 165 |
| ArgParser.FindDelimiter | src/app/argParser.cpp:27 | `s.find(",")` gives an index no greater than the length, the length standing for `npos`; FindDelimiterIsFirst shows it is the first comma |
| ArgParser.FindDelimiterIsFirst | src/app/argParser.cpp:27 | the position `find` returns holds the first comma, and no comma comes before it |
| ArgParser.SplitPiecesCommaFree | src/app/argParser.cpp:27-44 | no token contains the delimiter |
| ArgParser.JoinSplit | src/app/argParser.cpp:20-45 | joining the tokens with commas gives back the input |
| ArgParser.SplitJoin | src/app/argParser.cpp:20-45 | comma-free tokens joined with commas split back into the same tokens |
| ArgParser.LastPieceEmpty | src/app/argParser.cpp:37-41 | the text left after the last comma is empty exactly when the input is empty or ends with a comma |
| ArgParser.Increment | src/app/argParser.cpp:29 | `++argCount` adds one, and wraps from 255 to 0 |
| ArgParser.TokeniseResult | src/app/argParser.cpp:20-45 | tokenising never reports an invalid argument; a success counts all the pieces (mod 256), of which there are at most `LoopLimit + 1` |
| ArgParser.WrittenSlots | src/app/argParser.cpp:28-41 | tokeniseArgs fills at most as many slots as there are pieces, and at most `LoopLimit + 1` |
| ArgParser.TokeniseArgs | src/app/argParser.cpp:20-45 | given an `output` with room for the slots it writes, returns `TokeniseResult`; the first `WrittenSlots` slots of `output` hold the pieces in order and every other slot is unchanged |
| ArgParser.OverrunInputs | src/app/argParser.cpp:14-44 | for a positive limit, more than `argLimit` slots are written exactly when the input splits into `argLimit + 1` pieces and the last is empty, i.e. `argLimit` commas with the last one trailing; a limit of 0 is overrun by every input |
| ArgParser.TrailingCommaOverrun | src/app/argParser.cpp:41-44 | `argLimit` commas make tokeniseArgs write `argLimit + 1` slots and return `argLimit + 1` (mod 256) |
| ArgParser.EmptyInputTooFew | src/app/argParser.cpp:37-39 | empty input has too few arguments for any positive limit |
| ArgParser.TrailingCommaTooFew | src/app/argParser.cpp:37-39 | input that is empty or ends in a comma, with no more pieces than the limit, has too few arguments |
| ArgParser.ExactCountAccepted | src/app/argParser.cpp:27-44 | with exactly `argLimit` pieces the result is success iff the last piece is non-empty, and too few otherwise |
| ArgParser.TooManyPieces | src/app/argParser.cpp:32-34 | more pieces than the limit are refused as too many, unless there is just one extra piece and it is empty |
| ArgParser.ValidationResult | src/app/argParser.cpp:47-79 | validation succeeds only with 0 |
| ArgParser.ParseAndValidateArgs | src/app/argParser.cpp:47-79 | a tokeniser error is returned unchanged; a count other than `length` is too few; 0 exactly when the count is right and every argument is accepted; `output` is never written |
| ArgParser.ValidationPropagatesCountErrors | src/app/argParser.cpp:51-57 | tokeniser errors pass through validation, and a wrong count becomes too few |
| ArgParser.NumberArgumentRejected | src/app/argParser.cpp:59-75 | a correctly counted input is invalid as soon as one number argument fails to convert or lies outside its `[min, max]` |
| ArgParser.ColourArgumentNeverRejected | src/app/argParser.cpp:69-72 | a schema of colour arguments only accepts every correctly counted input, since constructing a Colour never fails |
| ArgParser.BlinkFieldCounts | src/app/cloudFunctions.cpp:90-133 | for the four-argument blink schema, up to four fields tokenise to their count, more are too many, and any count but four fails validation |
| LedStrip.LedStripDriver.constructor | src/app/ledStripDriver.cpp:6-21 | period 1000, both colours white, pattern colour, duty cycle 50, snake forward of length 3, progress 0 / 1 / 1000 ms, nothing written |
| LedStrip.LedStripDriver.OnTimerFired | src/app/ledStripDriver.cpp:23-29 | exactly one three-byte buffer, the "on" colour's red, green and blue, goes to the callback; nothing else changes |
| LedStrip.LedStripDriver.Period | src/app/ledStripDriver.cpp:31-34 | sets the period only and returns the same driver |
| LedStrip.LedStripDriver.DutyCycle | src/app/ledStripDriver.cpp:36-39 | sets the pulse duty cycle only and returns the same driver |
| LedStrip.LedStripDriver.ColourOn | src/app/ledStripDriver.cpp:41-44 | sets the "on" colour only and returns the same driver |
| LedStrip.LedStripDriver.ColourOff | src/app/ledStripDriver.cpp:46-49 | sets the "off" colour only and returns the same driver |
| LedStrip.LedStripDriver.Pattern | src/app/ledStripDriver.cpp:51-54 | sets the pattern only, resetting no other parameter, and returns the same driver |
| LedStrip.LedStripDriver.Length | src/app/ledStripDriver.cpp:57-60 | sets the snake length from a byte only, so it stays below 256 |
| LedStrip.LedStripDriver.Direction | src/app/ledStripDriver.cpp:67-70 | sets the snake direction only and returns the same driver |
| LedStrip.LedStripDriver.Initial | src/app/ledStripDriver.cpp:73-76 | sets the initial progress from a byte only, so it stays below 256 |
| LedStrip.LedStripDriver.Increment | src/app/ledStripDriver.cpp:79-82 | sets the progress increment from a byte only, so it stays below 256 |
| LedStrip.LedStripDriver.Delay | src/app/ledStripDriver.cpp:85-88 | sets the progress delay only and returns the same driver |
| LedStrip.ConfigureAndFire | src/app/ledStripDriver.cpp:31-88 | in a setter chain the later write to a field wins, choosing a pattern keeps earlier parameters, the fields the chain does not set (`colourOff`, `pulseDutyCycle`, `snakeDirection` and the three progress parameters) keep their values, and the next tick writes the colour set last |

## Left out

- src/app/dmx.cpp, src/app/main.cpp and the Particle registration in src/app/cloudFunctions.cpp: hardware I/O, timers and wiring. The blink schema from cloudFunctions.cpp is reused as an example.
- The lighting-pattern formulas (pulse, blink, strobe, progress, gradient, snake). Their implementation is not part of this model: `onTimerFired` as written only outputs the "on" colour.
- The `writeValueFn` callback: each buffer handed to it is appended to the driver's ghost `written` log.
- `strToInt` is not part of this model. It is a parameter that returns `None` where the real one fails (throws). Only success or failure and the converted value matter.
- The numeric values of the `RET_VAL_*` codes are not part of this model. The `int32_t` result is the datatype `RetVal`: a count, or one of three named errors.
- ArgParser.TokeniseArgs: requires `argLimit < 256`. Larger `uint32_t` limits, where the `uint8_t` counter could wrap inside the loop, are not modelled. It also requires `output` to hold the `WrittenSlots(args, argLimit)` slots the call writes, so the model never writes past the array. The inputs that need more than the documented `argLimit` slots (for a positive limit, `argLimit` commas with the last one trailing; for a limit of 0, every input) are excluded by this requirement, not modelled as an overrun (see Findings and OverrunInputs).
- ArgParser.ParseAndValidateArgs: allocates `LoopLimit(length) + 1` token slots, not the `length` slots of the source, so the model has no out-of-bounds write (see Findings).
- Strings are sequences of characters, and each `char` stands for one byte of the source's `String`/`std::string`. Multi-byte (non-ASCII) input is not modelled: for example "#ééé" is seven bytes, which colour.cpp:17 accepts, but it is four characters here, so `Parse` calls it malformed.
- Hex.HexStrToInt: requires the string length to fit in a `uint32_t`, as `hexStr.length()` is stored in one.
- Colours.Parse: for a malformed string the source leaves the channels uninitialised. The model pins them to 0, the black the unit tests expect (src/test/colour.tst.cpp:16-32).
- The `Colour*` pointers the driver stores are modelled as colour values. Colours are never mutated through them, but aliasing and lifetime are not captured.
- The `double dutyCycle` of the tick state (floating point, unused by the shown code) and `initState`, which the header declares but the driver source does not define.
- Where the driver header and source disagree, the source is followed:
  - `onTimerFired` takes only the state.
  - The duty-cycle field is `mPulseDutyCycle`.
  - `length`, `initial` and `increment` take `uint8_t`.

## Findings

| source | as written | input that shows it | evidently intended | confidence | as-written member | corrected member |
|---|---|---|---|---|---|---|
| src/app/hexStrToInt.cpp:38 | digit at distance `pos` from the end weighs `16 * pos` | "100" reads 32 | weight `16^pos`, so "100" reads 256 | not executed | Hex.LinearWeightCounterexample | Hex.PositionalValueRoundTrip |
| src/app/argParser.cpp:41 | the final token is stored at `output[argCount]` with `argCount` up to `argLimit`, but `output` is documented (line 14) and allocated (line 48) with `argLimit` slots | `argLimit` = 2 and args ",," write `output[2]` and return 3 | `argLimit + 1` slots, or a bound check before the final store | not executed | ArgParser.TrailingCommaOverrun | ArgParser.ParseAndValidateArgs |

# WLED Studio, modelled in Dafny

WLED Studio simulates a WLED LED controller. A WLED JSON command (an
envelope of segments with their effects, speeds, intensities and colours)
is rendered at a simulated time into the RGB value of every LED of a strip
or matrix. The studio also imports untrusted JSON and repairs it, validates
what it exports as WLED's `presets.json` and `cfg.json`, normalises
playlists, lays out the LEDs of a topology, and lets the user edit a list of
segments. Two effect engines produce frames: a TypeScript software engine
and a native C++ bridge. The bridge runs on the host against stand-ins for
the Arduino core, FastLED, NeoPixelBus and upstream WLED.

This project models that core, one Dafny module per source file:

- `SegmentComposer` resolves segments and maps each physical LED to a virtual pixel. It renders each segment through an abstract engine and overlays the results; the last segment written wins.
- `SoftwareEngine` is the TypeScript engine, a class over a frame array. `WledBridge` is the C++ bridge, a class over its pixel buffer. `BridgeJson` holds the bridge's cursor-based key scanners.
- `Sanitize`, `Schema` and `JsonIo` cover import repair, export validation and the export artifacts.
- `Playlist` is playlist normalisation and the Fisher–Yates shuffle.
- `LedTopology` and `Visualization` cover the physical index map, LED positions and the allocation of segment ranges to strips.
- `StudioStore` covers segment-list editing: a `Studio` class whose actions update its fields. It also has the `key=value` effect-defaults parser.
- `ControlDeck` converts between hex colours and RGB.
- `HostStubs`, `Arduino`, `MockArduino`, `FastLedRuntime` and `NeoPixelBus` are the native stand-ins.
- `JsValues` holds parsed JSON values and the JavaScript coercions. `Frames`, `Arithmetic` and `Wrappers` are shared definitions.

Code that changes state step by step is written as classes and methods with
loops. Each method is proved against a function that states what it computes.
Pure code is written as functions with lemmas.

## Model

| member | source | states |
|---|---|---|
| Arduino.Constrain | src/headless/Arduino.h:48-50 | the result lies in [low, high], equals the value inside the range and the nearer bound outside it |
| Arduino.ConstrainIdempotentMonotone | src/headless/Arduino.h:48-50 | constraining twice is constraining once, and constrain keeps the order of its inputs |
| Arduino.MinMaxChoose | src/headless/Arduino.h:52-60 | min and max each return one of their arguments, min ≤ max, and min + max is the sum of the two |
| Arduino.Map | src/headless/Arduino.h:62-67 | an empty input range maps everything to outMin |
| Arduino.MapEndpoints | src/headless/Arduino.h:62-67 | inMin maps to outMin and inMax to outMax |
| Arduino.MapBetween | src/headless/Arduino.h:62-67 | a value inside an increasing input range lands inside an increasing output range, with C's truncating division |
| Arduino.TruncDivExact | src/headless/Arduino.h:66 | truncating division of an exact multiple loses nothing |
| Arduino.WordBytes | src/headless/Arduino.h:69-71 | word(high, low) is high·256 + low, and both bytes can be read back from it |
| Arithmetic.TruncDivRemainder | src/headless/Arduino.h:66 | C's truncating quotient and remainder recompose the dividend, with the remainder's sign that of the dividend |
| MockArduino.ClockReadings | src/headless/Mock_Arduino.h:31-37 | millis() is the 64-bit counter modulo 2^32, and micros() is counter·1000 taken modulo 2^64 and then 2^32 |
| MockArduino.MillisAdvance | src/headless/Mock_Arduino.h:31-41 | advancing the 64-bit counter by ms advances millis() by ms modulo 2^32 |
| MockArduino.MockClock.SetMockMillis | src/headless/Mock_Arduino.h:26-28 | the counter takes the value, and millis() reads it modulo 2^32 |
| MockArduino.MockClock.Delay | src/headless/Mock_Arduino.h:39-41 | the counter moves on by exactly ms modulo 2^64, and millis() by ms modulo 2^32 |
| MockArduino.Random | src/headless/Mock_Arduino.h:43-48 | random(max) is 0 for max ≤ 0 and otherwise lies in [0, max) |
| MockArduino.RandomBetween | src/headless/Mock_Arduino.h:50-55 | random(min, max) is min when max ≤ min and otherwise lies in [min, max) |
| FastLedRuntime.RuntimeClock.Delay | src/headless/upstream_fastled_runtime.cpp:30-34 | a positive ms moves the counter on by ms modulo 2^64; zero or negative leaves it alone |
| FastLedRuntime.RuntimeClock.DelayMicroseconds | src/headless/upstream_fastled_runtime.cpp:36-40 | a positive us moves the counter on by us / 1000 whole milliseconds; zero or negative leaves it alone |
| FastLedRuntime.Advance | src/headless/upstream_fastled_runtime.cpp:30-40 | the milliseconds a delay adds: none for a non-positive argument, else the whole units it contains |
| FastLedRuntime.AdvanceNeverBackwards | src/headless/upstream_fastled_runtime.cpp:30-40 | no delay moves the counter backwards while it is below the wrap point |
| NeoPixelBus.Bus.constructor | src/headless/Mock_NeoPixelBus.h:20-21 | a zeroed buffer of three bytes per LED, no external buffer, and every LED reads black |
| NeoPixelBus.Bus.PixelCount | src/headless/Mock_NeoPixelBus.h:58-60 | the LED count given at construction |
| NeoPixelBus.Bus.AttachBuffer | src/headless/Mock_NeoPixelBus.h:26-29 | the external buffer and its size are recorded and the pixel buffer is untouched |
| NeoPixelBus.Bus.SetPixelColor | src/headless/Mock_NeoPixelBus.h:31-48 | LED idx and only it reads c afterwards when it is on the strip; an attached buffer gets the same three bytes when they fit |
| NeoPixelBus.Bus.GetPixelColor | src/headless/Mock_NeoPixelBus.h:50-56 | black off the strip, otherwise the three stored bytes |
| NeoPixelBus.MirrorWrite | src/headless/Mock_NeoPixelBus.h:43-47 | the external buffer changes in exactly LED idx's three bytes, and only when they are below its size |
| Frames.PixelFrameSet | src/headless/Mock_NeoPixelBus.h:36-41 | writing LED idx's three bytes yields the frame with that one LED changed |
| Frames.SetPixelBytes | src/headless/Mock_NeoPixelBus.h:36-41 | the three bytes of LED idx hold the colour and every other byte is unchanged |
| Frames.PixelAtSet | src/headless/Mock_NeoPixelBus.h:31-56 | reading back after a write gives c at idx when on the strip and the old colour everywhere else |
| HostStubs.Rgbw32 | src/headless/upstream_host_stubs.cpp:46 | packing four channels into one colour lets each channel be read back unchanged |
| HostStubs.ChannelsDetermine | src/headless/upstream_host_stubs.cpp:40-64 | two colours with the same four channels are the same colour |
| HostStubs.PackChannels | src/headless/upstream_host_stubs.cpp:46 | packing the channels of a colour gives the colour back |
| HostStubs.Mix | src/headless/upstream_host_stubs.cpp:42-45 | a blended channel lies between the two input channels |
| HostStubs.ColorBlend | src/headless/upstream_host_stubs.cpp:40-47 | each channel of the result is the weighted average of the two inputs' channels, weight blend/255 |
| HostStubs.ColorBlendEnds | src/headless/upstream_host_stubs.cpp:40-47 | blend 0 gives the first colour, blend 255 the second, and a colour blended with itself is unchanged |
| HostStubs.Saturate | src/headless/upstream_host_stubs.cpp:50-53 | an added channel is the sum, or 255 when the sum exceeds 255 |
| HostStubs.ColorAdd | src/headless/upstream_host_stubs.cpp:49-55 | every channel is the saturated sum of the two inputs' channels |
| HostStubs.ColorAddCommutes | src/headless/upstream_host_stubs.cpp:49-55 | adding colours is commutative and never darkens a channel |
| HostStubs.Scale | src/headless/upstream_host_stubs.cpp:59-62 | a faded channel is never brighter than before |
| HostStubs.ColorFade | src/headless/upstream_host_stubs.cpp:57-64 | no channel of a faded colour increases |
| HostStubs.ColorFadeEnds | src/headless/upstream_host_stubs.cpp:57-64 | fading by 0 keeps the colour and fading by 255 gives black |
| HostStubs.WithOptionExactlyBitN | src/headless/upstream_host_stubs.cpp:290-294 | setOption sets (val) or clears (!val) bit n and keeps every other bit; bit numbers from 16 to 31 change nothing in the 16-bit word |
| HostStubs.Segment.SetOption | src/headless/upstream_host_stubs.cpp:290-294 | the option word becomes WithOption of the old one and nothing else changes |
| HostStubs.Segment.SetColor | src/headless/upstream_host_stubs.cpp:275-278 | slot < NUM_COLORS takes the colour and every other slot is kept; a larger slot changes nothing |
| HostStubs.Segment.SetCct | src/headless/upstream_host_stubs.cpp:280-283 | cct becomes min(k, 255) and nothing else changes |
| HostStubs.Segment.GetPixelColor | src/headless/upstream_host_stubs.cpp:322-323 | 0 for a clipped index (i < 0 or i ≥ length) or without a buffer, otherwise the stored colour |
| HostStubs.Segment.SetPixelColor | src/headless/upstream_host_stubs.cpp:325-330 | the buffer changes at index i alone and only when i is inside the segment |
| HostStubs.Segment.Fill | src/headless/upstream_host_stubs.cpp:357-360 | the first length pixels take the colour and the rest of the buffer is kept |
| HostStubs.Segment.FadeOut | src/headless/upstream_host_stubs.cpp:362-365 | each of the first length pixels becomes its color_fade, the rest is kept |
| HostStubs.Segment.FadeToSecondaryBy | src/headless/upstream_host_stubs.cpp:367-373 | each of the first length pixels is blended towards colour slot 1, the rest is kept |
| HostStubs.FadedEnds | src/headless/upstream_host_stubs.cpp:362-365 | fading a segment by 0 leaves its buffer alone and by 255 blackens every pixel of the segment |
| HostStubs.MaxStop | src/headless/upstream_host_stubs.cpp:466-467 | the largest segment stop: at least every stop and equal to one of them (0 without segments) |
| HostStubs.Fx.GetLengthPhysical | src/headless/upstream_host_stubs.cpp:465-469 | the largest segment stop, or the configured length when that is 0 |
| HostStubs.MainSegmentFor | src/headless/upstream_host_stubs.cpp:431 | with 1 to 256 segments, min(n, size − 1); with none, size − 1 wraps in size_t and the result is n modulo 256 |
| HostStubs.Fx.SetMainSegmentId | src/headless/upstream_host_stubs.cpp:431 | the main segment becomes MainSegmentFor(n, segment count) and the segments are kept |
| HostStubs.MainSegmentClamps | src/headless/upstream_host_stubs.cpp:431 | the main segment is a valid index: n when n names a segment, otherwise the last segment |
| HostStubs.MonthStr | src/headless/upstream_host_stubs.cpp:121-125 | the month's name for 1..12 and "January" for any other number |
| HostStubs.MonthShortStr | src/headless/upstream_host_stubs.cpp:115-119 | the month's abbreviation for 1..12 and "Jan" for any other number |
| HostStubs.DayStr | src/headless/upstream_host_stubs.cpp:132-136 | the weekday's name for 1..7 (1 is Sunday) and "Sunday" for any other number |
| HostStubs.DayShortStr | src/headless/upstream_host_stubs.cpp:138-142 | the weekday's abbreviation for 1..7 and "Sun" for any other number |
| HostStubs.ShortNamesAbbreviate | src/headless/upstream_host_stubs.cpp:115-142 | every short name is the first three letters of the long name, and an out-of-range number reads as month 1 or day 1 |
| HostStubs.MonthNamesDistinct | src/headless/upstream_host_stubs.cpp:115-125 | different months in 1..12 have different names and abbreviations |
| HostStubs.DayNamesDistinct | src/headless/upstream_host_stubs.cpp:132-142 | different days in 1..7 have different names and abbreviations |
| WledBridge.DimIsFloor | src/headless/wled_bridge.cpp:184-190 | a dimmed channel is the floor of c·bri/255: never brighter than c, unchanged at 255, black at 0, and monotone in the brightness |
| WledBridge.DimBelowRounded | src/headless/wled_bridge.cpp:184-190 | the TypeScript engine's rounded channel is the bridge's floored channel or one more |
| WledBridge.DimDiffersFromRounded | src/headless/wled_bridge.cpp:184-190 | the two engines do differ: channel 1 at brightness 128 is 0 in the bridge and 1 in the TypeScript engine |
| WledBridge.HashNoiseAgrees | src/headless/wled_bridge.cpp:278-283 | the bridge's hash and the TypeScript engine's agree whenever the intermediate value stays below 2^31 |
| WledBridge.HashNoiseHigh | src/headless/wled_bridge.cpp:278-283 | the bridge hashes 0x8000_0000 to 0x8008_4000 (unsigned right shift) |
| WledBridge.HashNoiseHighSigned | src/engine/softwareEngine.ts:56-62 | the TypeScript engine hashes 0x8000_0000 to 0x8007_C000 (signed right shift), so the two hashes differ there |
| WledBridge.ByteField | src/headless/wled_bridge.cpp:621-646 | a byte field becomes the clamped integer written after its key, or keeps its value when the key is absent |
| WledBridge.ColorField | src/headless/wled_bridge.cpp:648-657 | a colour field becomes the colour in its slot of `col`, or keeps its value when the slot is absent |
| WledBridge.CommandIdempotent | src/headless/wled_bridge.cpp:606-666 | sending the same command twice is sending it once |
| WledBridge.CommandSetsBrightness | src/headless/wled_bridge.cpp:621-624 | a command whose first "bri" is followed by the digits of an n in int range sets the brightness to clamp_u8(n) |
| WledBridge.CommandSetsColors | src/headless/wled_bridge.cpp:648-654 | a command whose first "col" starts with the encodings of colours a and b sets the primary to a and the secondary to b |
| WledBridge.EffectOf | src/headless/wled_bridge.cpp:491-530 | effect ids 8, 37, 41, 45, 57, 63 choose the rainbow, and every id outside the switch's cases chooses the mapped effect |
| WledBridge.ChaseStride | src/headless/wled_bridge.cpp:386 | the chase stride lies in [2, 16] |
| WledBridge.ChaseHead | src/headless/wled_bridge.cpp:387 | the chase head is an LED index of the strip |
| WledBridge.SpeedFactor | src/headless/wled_bridge.cpp:369 | the sparkle time multiplier lies in [1, 62] |
| WledBridge.SparkleIndex | src/headless/wled_bridge.cpp:373-374 | every sparkle lands on an LED of the strip |
| WledBridge.SparkleIndexOfSeed | src/headless/wled_bridge.cpp:373-374 | the index fill_sparkle derives from its wrapping 32-bit seed is SparkleIndex |
| WledBridge.EffectFrame | src/headless/wled_bridge.cpp:491-530 | the frame holds three bytes per LED and is all zero with the power off |
| WledBridge.SolidUniform | src/headless/wled_bridge.cpp:285-294 | without custom1 (and always at LED 0) fill_solid lights the LED with the dimmed primary colour |
| WledBridge.ChasePeriodic | src/headless/wled_bridge.cpp:385-407 | the chase pattern repeats along the strip with the period of its stride |
| WledBridge.ChaseLitAtStride | src/headless/wled_bridge.cpp:392-395 | an LED whose phase is a multiple of the stride shows the dimmed primary colour |
| WledBridge.SparkleMissed | src/headless/wled_bridge.cpp:366-383 | an LED that no sparkle hits keeps its fill_solid colour |
| WledBridge.SparkleLastWins | src/headless/wled_bridge.cpp:372-382 | an LED several sparkles hit shows the colour of the last one |
| WledBridge.SparkleStep | src/headless/wled_bridge.cpp:372-382 | painting sparkle i over the frame of the first i sparkles gives the frame of the first i + 1 |
| WledBridge.InitSnapshot | src/headless/wled_bridge.cpp:595-604 | the count is clamped into [1, 100000], the frame is zeroed, the time and the error are reset, and the settings are kept |
| WledBridge.CommandSnapshot | src/headless/wled_bridge.cpp:606-666 | a null command only sets the error; any other clears the error and applies the command; the frame, count and time are kept |
| WledBridge.Render | src/headless/wled_bridge.cpp:668-680 | the corrected render: the time is t, an empty buffer is first initialised to one LED, and the frame is the effect frame for the settings |
| WledBridge.RenderAgreesOnceInitialised | src/headless/wled_bridge.cpp:668-680 | the render as written and the corrected one agree once the buffer exists |
| WledBridge.RenderAsWrittenIgnoresTime | src/headless/wled_bridge.cpp:668-673 | rendering on an empty buffer as written runs at time 0 whatever t is: the blink frame at t = 882 is the lit one of t = 0, where Render gives the dark one |
| WledBridge.Bridge.constructor | src/headless/wled_bridge.cpp:36-54 | the bridge starts in the initial state with no buffer |
| WledBridge.Bridge.Init | src/headless/wled_bridge.cpp:595-604 | the state becomes InitSnapshot of the old one, in a fresh buffer |
| WledBridge.Bridge.JsonCommand | src/headless/wled_bridge.cpp:606-666 | the state becomes CommandSnapshot of the old one and the frame is untouched |
| WledBridge.Bridge.ParseCommand | src/headless/wled_bridge.cpp:616-657 | the settings the field-by-field updates produce are Command of the old settings |
| WledBridge.Bridge.ReadByteField | src/headless/wled_bridge.cpp:621-646 | one byte-field update is ByteField |
| WledBridge.Bridge.ReadColorField | src/headless/wled_bridge.cpp:648-657 | one colour-slot update is ColorField |
| WledBridge.Bridge.RenderFrame | src/headless/wled_bridge.cpp:668-680 | in the source's order (time stored, then wled_init on an empty buffer): the state becomes RenderAsWritten of the old one, so the first frame is rendered at time 0; once a buffer exists it is Render; the buffer is returned |
| WledBridge.RenderAsWritten | src/headless/wled_bridge.cpp:668-673 | the settings are kept and the frame is the effect frame of the resulting state; with a buffer the time becomes t and the rest is kept; without one the strip becomes one LED, the error is cleared and the time is reset to 0 |
| WledBridge.Bridge.GetBufferSize | src/headless/wled_bridge.cpp:682-684 | three bytes per LED |
| WledBridge.Bridge.RenderEffect | src/headless/wled_bridge.cpp:491-530 | the buffer holds the effect frame for the current settings, count and time |
| WledBridge.Bridge.FillPixels | src/headless/wled_bridge.cpp:286-293 | the per-LED loop leaves the frame of its pixel function |
| WledBridge.Bridge.SetPixel | src/headless/wled_bridge.cpp:212-221 | LED idx's three bytes take the colour when idx is on the strip, every other byte is kept |
| WledBridge.Bridge.RenderBlink | src/headless/wled_bridge.cpp:296-308 | the buffer holds the blink frame |
| WledBridge.Bridge.RenderChase | src/headless/wled_bridge.cpp:385-407 | the buffer holds the chase frame |
| WledBridge.Bridge.RenderSparkle | src/headless/wled_bridge.cpp:366-383 | the buffer holds the sparkle frame |
| WledBridge.Bridge.PaintSparkles | src/headless/wled_bridge.cpp:372-382 | after the sparkle loop the buffer holds the frame of all the sparkles over fill_solid |
| BridgeJson.ClampU8 | src/headless/wled_bridge.cpp:56-58 | values inside [0, 255] are kept, below become 0, above become 255 |
| BridgeJson.Find | src/headless/wled_bridge.cpp:62 | a found position lies at or after the start and leaves room for the whole pattern |
| BridgeJson.FindIsFirst | src/headless/wled_bridge.cpp:62 | find returns an occurrence, the first one, and nothing only when there is none |
| BridgeJson.FindChar | src/headless/wled_bridge.cpp:67 | a found position holds the character and lies at or after the start |
| BridgeJson.SkipSpace | src/headless/wled_bridge.cpp:73-75 | the index of the first non-white-space character at or after i |
| BridgeJson.DigitsEnd | src/headless/wled_bridge.cpp:81-83 | the end of the run of decimal digits that starts at i: everything before it is a digit and it is not |
| BridgeJson.FindValueStart | src/headless/wled_bridge.cpp:61-75 | the key search, the ':' search and the white-space loop end where ValueStart says |
| BridgeJson.ScanDigits | src/headless/wled_bridge.cpp:81-83 | the digit loop stops at DigitsEnd |
| BridgeJson.AtoiOfScan | src/headless/wled_bridge.cpp:77-89 | the scanned characters form a signed decimal, and atoi of them is its signed value |
| BridgeJson.ExtractInt | src/headless/wled_bridge.cpp:60-91 | extract_int yields IntField: nothing without the key, the ':' or at least one digit |
| BridgeJson.IntField | src/headless/wled_bridge.cpp:60-91 | no value when the key or its ':' is missing |
| BridgeJson.IntFieldRoundTrip | src/headless/wled_bridge.cpp:60-91 | an integer in int range written right after the ':' of the first occurrence of its key is read back exactly |
| BridgeJson.Substr | src/headless/wled_bridge.cpp:110-115 | substr yields at most count characters |
| BridgeJson.ExtractBool | src/headless/wled_bridge.cpp:93-126 | extract_bool yields BoolField |
| BridgeJson.BoolField | src/headless/wled_bridge.cpp:93-126 | no value when the key or its ':' is missing |
| BridgeJson.BoolFieldAccepts | src/headless/wled_bridge.cpp:110-125 | extract_bool succeeds exactly when the value begins with true, false, 0 or 1, and reads true for true and 1 |
| BridgeJson.BoolFieldRoundTrip | src/headless/wled_bridge.cpp:93-126 | true or false written right after the ':' of the first occurrence of the key is read back |
| BridgeJson.ReadChannel | src/headless/wled_bridge.cpp:153-167 | a channel read consumes at least one digit and stays inside the text; its value is the exact value of the digits, which matches atoi for channels in int range (see Left out) |
| BridgeJson.ReadChannels | src/headless/wled_bridge.cpp:152-168 | reading count channels yields count values and a cursor inside the text |
| BridgeJson.ReadTriple | src/headless/wled_bridge.cpp:145-174 | a bracketed colour yields three channels and moves the cursor forward |
| BridgeJson.ColorSlot | src/headless/wled_bridge.cpp:128-182 | a negative slot or a text without "col" gives no colour |
| BridgeJson.ReadChannelAt | src/headless/wled_bridge.cpp:153-167 | the separator and digit loops read ReadChannel |
| BridgeJson.ReadChannelsThree | src/headless/wled_bridge.cpp:152-168 | the three-channel loop is ThreeChannels |
| BridgeJson.ThreeChannelsFrom | src/headless/wled_bridge.cpp:152-168 | the channel loop reads ThreeChannels: three channels or nothing |
| BridgeJson.ReadTripleAt | src/headless/wled_bridge.cpp:145-174 | one pass of the slot loop reads ReadTriple |
| BridgeJson.NthTripleAt | src/headless/wled_bridge.cpp:143-181 | the slot loop reads the slot-th triple |
| BridgeJson.ExtractColorSlot | src/headless/wled_bridge.cpp:128-182 | extract_color_slot yields ColorSlot |
| BridgeJson.IntToDecimalSpells | src/headless/wled_bridge.cpp:89 | the decimal text of an integer is a sign and digits whose value is the integer |
| BridgeJson.IntAtDecimal | src/headless/wled_bridge.cpp:77-89 | the decimal text of n followed by a non-digit reads as n |
| BridgeJson.BoolAtWord | src/headless/wled_bridge.cpp:110-118 | true or false at the value start reads as that value |
| BridgeJson.EncodedTriple | src/headless/wled_bridge.cpp:145-174 | a colour written as [r,g,b] is read back with its three channels |
| BridgeJson.ClampedBytes | src/headless/wled_bridge.cpp:177 | clamping channels that are already bytes keeps the colour |
| BridgeJson.ColorSlotAt | src/headless/wled_bridge.cpp:133-144 | the slot-th colour is the slot-th triple after the first '[' that follows "col" |
| BridgeJson.ColorSlotsRoundTrip | src/headless/wled_bridge.cpp:128-182 | two colours written as the start of the "col" array are read back as slots 0 and 1 |
| SoftwareEngine.ClampByte | src/engine/softwareEngine.ts:23-28 | a non-finite value gives the fallback; a finite one is rounded to within one half and clamped into [0, 255] |
| SoftwareEngine.ScaleBounds | src/engine/softwareEngine.ts:222-229 | a brightened channel is c·bri/255 rounded half up, never brighter than c, unchanged at 255 and black at 0 |
| SoftwareEngine.ShiftRightSigned17 | src/engine/softwareEngine.ts:57 | below 2^31 the signed shift is plain division by 2^17 |
| SoftwareEngine.NumberField | src/engine/softwareEngine.ts:96-98 | a field that is not a number leaves the setting unchanged |
| SoftwareEngine.CommandColor | src/engine/softwareEngine.ts:99-101 | the colour is unchanged unless col[0] is an array of at least three entries, which sets the three channels, each clamped into [0, 255] with 0 for a non-finite channel |
| SoftwareEngine.FailedCommandKeepsSettings | src/engine/softwareEngine.ts:82-106 | a payload JSON.parse rejects changes nothing but the last error, which reads "json parse failed: " and the message |
| SoftwareEngine.ParsedCommandFields | src/engine/softwareEngine.ts:82-102 | a parsed command clears the error, sets on only from a boolean and bri only from a number, and touches fx/sx/ix/colour only through a truthy segment; a non-numeric fx, sx or ix keeps its value, and a truthy segment sets the colour by CommandColor |
| SoftwareEngine.CommandSetsEffect | src/engine/softwareEngine.ts:94-96 | a command whose seg sets fx to a byte stores that effect |
| SoftwareEngine.BlinkInterval | src/engine/softwareEngine.ts:159 | the blink interval lies between 120 and 1650 ms; fill_blink in wled_bridge.cpp uses the same cycle |
| SoftwareEngine.ChaseStride | src/engine/softwareEngine.ts:209 | the chase stride lies in [2, 14] |
| SoftwareEngine.ChaseHead | src/engine/softwareEngine.ts:210 | the chase head is an LED index |
| SoftwareEngine.SparkleCount | src/engine/softwareEngine.ts:196 | every frame gets at least one sparkle; fill_sparkle in wled_bridge.cpp counts them the same way |
| SoftwareEngine.SparkleIndex | src/engine/softwareEngine.ts:198-199 | every sparkle lands on an LED of the strip |
| SoftwareEngine.RainbowSaturation | src/engine/softwareEngine.ts:180 | the rainbow saturation lies in [180, 244] |
| SoftwareEngine.FrameOf | src/engine/softwareEngine.ts:108-138 | the frame has three bytes per LED and is all zero when the strip is off |
| SoftwareEngine.SolidIsUniform | src/engine/softwareEngine.ts:148-156 | fx 0 lights every LED with the brightened colour |
| SoftwareEngine.BreathIsUniform | src/engine/softwareEngine.ts:170-177 | fx 2 is the solid frame at the breath brightness |
| SoftwareEngine.SparkleStageZero | src/engine/softwareEngine.ts:195 | before any sparkle the frame is the solid one |
| SoftwareEngine.SparkleStageStep | src/engine/softwareEngine.ts:197-205 | sparkle i paints exactly its LED with brightened white |
| SoftwareEngine.SparkleFrame | src/engine/softwareEngine.ts:194-206 | fx 20 is the frame after all of its sparkles |
| SoftwareEngine.BlinkAlternates | src/engine/softwareEngine.ts:158-168 | one interval later every LED has toggled, two intervals later it is back, in both engines |
| SoftwareEngine.ChaseSpacing | src/engine/softwareEngine.ts:208-220 | a lit LED is followed by stride − 1 dark ones and then a lit one |
| SoftwareEngine.FirstSparkleIsWhite | src/engine/softwareEngine.ts:194-206 | the LED of the first sparkle always shows brightened white |
| SoftwareEngine.SparkledStep | src/engine/softwareEngine.ts:197-205 | one more sparkle marks exactly its own LED on top of the earlier ones |
| SoftwareEngine.SoftwareWledEngine.constructor | src/engine/softwareEngine.ts:63-73 | one LED, a zeroed three-byte frame and the initial settings |
| SoftwareEngine.SoftwareWledEngine.Init | src/engine/softwareEngine.ts:75-80 | the count is the rounded request clamped into [1, 100000], the frame is fresh and zeroed, the error is cleared and the rest of the settings kept |
| SoftwareEngine.SoftwareWledEngine.JsonCommand | src/engine/softwareEngine.ts:82-106 | the settings become Command of the old ones; the frame and count are kept |
| SoftwareEngine.SoftwareWledEngine.GetBufferSize | src/engine/softwareEngine.ts:140-142 | three bytes per LED |
| SoftwareEngine.SoftwareWledEngine.RenderFrame | src/engine/softwareEngine.ts:108-138 | the frame becomes FrameOf the settings at time t, in the same array, and the settings are unchanged |
| SoftwareEngine.SoftwareWledEngine.FillPixels | src/engine/softwareEngine.ts:150-155 | the per-LED loop leaves the frame of its pixel function |
| SoftwareEngine.SoftwareWledEngine.SetPixel | src/engine/softwareEngine.ts:151-154 | LED idx's three bytes take the colour and the rest of the frame is kept |
| SoftwareEngine.SoftwareWledEngine.RenderSolid | src/engine/softwareEngine.ts:148-156 | every LED shows the brightened colour |
| SoftwareEngine.SoftwareWledEngine.RenderBlink | src/engine/softwareEngine.ts:158-168 | the frame is the blink frame |
| SoftwareEngine.SoftwareWledEngine.RenderBreath | src/engine/softwareEngine.ts:170-177 | the frame is the breath frame and the brightness is restored afterwards |
| SoftwareEngine.SoftwareWledEngine.RenderSparkle | src/engine/softwareEngine.ts:194-206 | the frame is the sparkle frame |
| SoftwareEngine.SoftwareWledEngine.PaintSparkles | src/engine/softwareEngine.ts:197-205 | after the loop the frame holds all the sparkles over the solid frame |
| SoftwareEngine.SoftwareWledEngine.RenderChase | src/engine/softwareEngine.ts:208-220 | the frame is the chase frame |
| SoftwareEngine.SoftwareWledEngine.RenderRainbow | src/engine/softwareEngine.ts:179-192 | the frame is the rainbow frame |
| SegmentComposer.ClampByte | src/engine/segmentComposer.ts:25-30 | a non-finite value gives the fallback; a finite one is rounded to within one half and clamped into [0, 255] |
| SegmentComposer.ClampNonNegative | src/engine/segmentComposer.ts:32-37 | a non-finite value gives the fallback; a non-negative one is rounded to within one half |
| SegmentComposer.SafeCount | src/engine/segmentComposer.ts:50 | the LED count is at least 1 and is the rounded ledCount when that is at least 1 |
| SegmentComposer.AsSegments | src/engine/segmentComposer.ts:39-47 | the segment list is never empty; it is the `seg` array itself when that array is non-empty, `[seg]` for any other truthy seg, and one empty segment object when seg is absent, falsy or an empty array |
| SegmentComposer.VirtualLength | src/engine/segmentComposer.ts:67 | a segment's virtual length is at least 1 |
| SegmentComposer.VirtualLengthIsCeil | src/engine/segmentComposer.ts:67 | the integer division computes max(1, ceil(length / max(1, grp + spc))) |
| SegmentComposer.ColorSlot | src/engine/segmentComposer.ts:77-87 | a colour entry that is an array keeps at most three channels; any other entry takes the slot's default |
| SegmentComposer.SegmentColors | src/engine/segmentComposer.ts:77-87 | there are always three colour slots, and the defaults when `col` is not an array |
| SegmentComposer.SegmentStart | src/engine/segmentComposer.ts:56 | the start lies inside the strip |
| SegmentComposer.SegmentStop | src/engine/segmentComposer.ts:57-58 | the stop lies after the start and no further than the strip's end |
| SegmentComposer.SegmentGrouping | src/engine/segmentComposer.ts:64 | grouping is at least 1 |
| SegmentComposer.ResolveSegmentWellFormed | src/engine/segmentComposer.ts:56-104 | every resolved segment is well formed on the strip (bounds, length, grouping, virtual length, offset below it) and keeps its index |
| SegmentComposer.ResolveAll | src/engine/segmentComposer.ts:52-105 | one resolved segment per source segment |
| SegmentComposer.ResolvedSegments | src/engine/segmentComposer.ts:49-140 | resolving a command yields at least one segment, one per entry of its segment list |
| SegmentComposer.ResolvedSegmentsWellFormed | src/engine/segmentComposer.ts:49-140 | every segment the command resolves to is well formed on the strip |
| SegmentComposer.ResolveAllPrefix | src/engine/segmentComposer.ts:52-105 | resolving one more source segment appends exactly its resolution |
| SegmentComposer.NormalizeSegments | src/engine/segmentComposer.ts:49-140 | the loop returns the resolution of every segment of the command on the rounded LED count |
| SegmentComposer.DefaultSegmentCoversStrip | src/engine/segmentComposer.ts:39-104 | every command whose seg is absent, falsy or an empty array gives one segment over the whole strip, on, brightness 125, effect 8, default colours |
| SegmentComposer.InRangeBoundsKept | src/engine/segmentComposer.ts:56-58 | integer bounds already inside the strip are kept as given |
| SegmentComposer.StopClamped | src/engine/segmentComposer.ts:57-58 | a stop past the strip's end becomes the end; a stop at or before the start becomes start + 1 |
| SegmentComposer.MappedIndex | src/engine/segmentComposer.ts:148-153 | the reversed or mirrored position stays inside the segment |
| SegmentComposer.VirtualIndexAt | src/engine/segmentComposer.ts:146-166 | each LED maps to -1 (a gap) or to a virtual pixel below the virtual length |
| SegmentComposer.MapOf | src/engine/segmentComposer.ts:142-170 | the map has one entry per LED of the segment and a positive virtual length |
| SegmentComposer.BuildSegmentMap | src/engine/segmentComposer.ts:142-170 | the loop builds exactly the specified map, every entry a gap or a valid virtual pixel |
| SegmentComposer.GroupingExample | src/engine/segmentComposer.ts:155-163 | grouping 2 with spacing 1 over nine LEDs shows each virtual pixel twice followed by one gap |
| SegmentComposer.PlainMapIsIdentity | src/engine/segmentComposer.ts:142-170 | with no grouping, spacing, offset, reversal or mirroring each LED shows its own pixel |
| SegmentComposer.ReverseReadsFromOtherEnd | src/engine/segmentComposer.ts:148 | reversing makes each LED show what the LED at the other end showed |
| SegmentComposer.MirrorIsSymmetric | src/engine/segmentComposer.ts:150-153 | a mirrored segment shows the same pixel at positions equally far from both ends |
| SegmentComposer.EveryVirtualPixelShown | src/engine/segmentComposer.ts:155-163 | without mirroring every virtual pixel is shown by some LED |
| SegmentComposer.UndoOffset | src/engine/segmentComposer.ts:161-163 | adding the offset modulo the virtual length reaches every virtual pixel |
| SegmentComposer.GroupStartInside | src/engine/segmentComposer.ts:67 | the first LED of every group lies inside the segment |
| SegmentComposer.EffectiveBrightnessBounds | src/engine/segmentComposer.ts:178 | the effective brightness is at most both the global and the segment brightness, and full global brightness passes the segment's through |
| SegmentComposer.MakeSegmentCommand | src/engine/segmentComposer.ts:172-192 | the per-segment command is on, carries the effective brightness and the segment's effect |
| SegmentComposer.RenderAll | src/engine/segmentComposer.ts:215-224 | one rendered frame per segment |
| SegmentComposer.WriteSegment | src/engine/segmentComposer.ts:226-240 | writing a segment keeps the frame's length |
| SegmentComposer.Paint | src/engine/segmentComposer.ts:209-241 | painting the segments in order keeps the frame's length |
| SegmentComposer.LastCover | src/engine/segmentComposer.ts:209-241 | the index found is the last segment covering the LED, and None means no segment covers it |
| SegmentComposer.PaintLastWriteWins | src/engine/segmentComposer.ts:209-241 | each byte comes from the last segment covering its LED, or from the base frame when none covers it |
| SegmentComposer.ComposeSegments | src/engine/segmentComposer.ts:201-241 | the composed frame holds three bytes per LED |
| SegmentComposer.ComposedFrame | src/engine/segmentComposer.ts:194-244 | the composited frame holds three bytes per LED of the rounded count |
| SegmentComposer.GlobalOffIsBlack | src/engine/segmentComposer.ts:203-207 | power off or zero brightness yields an all-black frame and leaves the engine untouched |
| SegmentComposer.ComposedPixel | src/engine/segmentComposer.ts:209-241 | an uncovered LED is black, an LED whose last covering segment is off is black, otherwise it shows that segment's render |
| SegmentComposer.MapCache.constructor | src/engine/segmentComposer.ts:211-213 | the cache starts empty and coherent |
| SegmentComposer.Scatter | src/engine/segmentComposer.ts:226-240 | the scatter loop writes exactly the segment's bytes into the frame |
| SegmentComposer.CompositeSegment | src/engine/segmentComposer.ts:211-240 | one segment: the cache stays coherent and only grows, the engine renders the segment, the frame receives it |
| SegmentComposer.CompositeAll | src/engine/segmentComposer.ts:209-241 | the loop over all segments produces the composed frame and engine state |
| SegmentComposer.RenderCompositedFrame | src/engine/segmentComposer.ts:194-244 | the method returns a fresh frame equal to the specified composited frame, keeping the cache coherent |
| Sanitize.ClampByte | src/io/sanitize.ts:4-10 | a non-numeric value gives the fallback; a number is clamped into [0, 255] and lies within one half of the input inside that range |
| Sanitize.ClampNonNegativeInt | src/io/sanitize.ts:12-18 | absent exactly when the value is not a finite number; negatives give 0, others round to within one half |
| Sanitize.ClampText | src/io/sanitize.ts:20-25 | present exactly for strings, and then the prefix of length min(|s|, maxLength) |
| Sanitize.BoolOf | src/io/sanitize.ts:53-55 | a flag is kept exactly when it is a boolean |
| Sanitize.PresentByte | src/io/sanitize.ts:50-52 | an absent field stays absent; a present one is clamped with its fallback |
| Sanitize.RepairedStop | src/io/sanitize.ts:67-74 | the stop is absent exactly when given absent, lies after a present start, and is kept when already after it |
| Sanitize.ParsedColor | src/io/sanitize.ts:80 | an array entry keeps its first three channels, each clamped; anything else becomes black |
| Sanitize.ParsedColors | src/io/sanitize.ts:78-80 | at most the first three entries, each parsed |
| Sanitize.SegmentColors | src/io/sanitize.ts:76-87 | three colours of at most three channels; the default palette when `col` is not an array; parsed entries padded with black otherwise |
| Sanitize.SanitizedSegment | src/io/sanitize.ts:34-90 | start precedes stop and startY precedes stopY whenever both are present, three colour slots, the flags kept only when boolean |
| Sanitize.CheckFlag | src/io/sanitize.ts:53-65 | the flag is read and a warning appended exactly for a present non-boolean |
| Sanitize.RepairBounds | src/io/sanitize.ts:67-74 | the stop is repaired and a warning appended exactly when a repair took place |
| Sanitize.ParseColors | src/io/sanitize.ts:76-87 | the colours are parsed and a warning appended exactly for a present non-array `col` |
| Sanitize.SanitizeSegment | src/io/sanitize.ts:34-90 | the method yields the specified segment and appends the specified warnings |
| Sanitize.SegmentWarningsExact | src/io/sanitize.ts:57-87 | each segment warning is raised exactly when its field is invalid |
| Sanitize.FallbackSegment | src/io/sanitize.ts:34-90 | an absent segment gives effect 0, speed and intensity 128, the default palette, no bounds and no warnings |
| Sanitize.OnField | src/io/sanitize.ts:96-101 | `on` accepts a boolean, 1 (true) or 0 (false) and nothing else |
| Sanitize.SanitizedSegments | src/io/sanitize.ts:111 | each array entry is sanitized in place |
| Sanitize.SanitizedSegField | src/io/sanitize.ts:108-117 | a list exactly for a non-empty array, of the same length |
| Sanitize.SanitizeSegField | src/io/sanitize.ts:108-117 | the method yields the specified `seg` field and its warnings |
| Sanitize.PlaylistPayload | src/io/sanitize.ts:125-136 | the payload handed on always has a `ps` array, the numbers of the source's `ps` or empty |
| Sanitize.Numbers | src/io/sanitize.ts:126-131 | each entry mapped through Number() |
| Sanitize.Wrapped | src/io/sanitize.ts:137 | every playlist warning carried over in order |
| Sanitize.PlaylistField | src/io/sanitize.ts:119-140 | no playlist and no warning when absent; a warning for a non-object; for an object the warnings are exactly the normalisation's, each prefixed, and a playlist exists exactly when some preset id is valid, its ps the first 100 ids and its timings, repeat, shuffle and end those normalisation derives from the rebuilt payload |
| Sanitize.SanitizeWledEnvelope | src/io/sanitize.ts:92-146 | on, bri (fallback 128), seg and np are the specified fields; the warnings are the head warnings followed exactly by the prefixed playlist warnings; the playlist is the normalisation of the rebuilt payload |
| Sanitize.HeadFields | src/io/sanitize.ts:93-117 | the method reads on, bri and seg and collects their warnings |
| Sanitize.EmptySegWarned | src/io/sanitize.ts:112-114 | an empty `seg` array raises its warning |
| Sanitize.RoundedAtLeast | src/io/sanitize.ts:157-159 | the dimension is at least its lower bound, the fallback when not numeric, the rounded value otherwise |
| Sanitize.CandidateGaps | src/io/sanitize.ts:165-170 | one candidate per entry, present exactly for objects |
| Sanitize.PositiveGaps | src/io/sanitize.ts:171 | only gaps of positive length remain, in order |
| Sanitize.PositiveGapsMembers | src/io/sanitize.ts:171 | a gap survives the filter exactly when it is a candidate of positive length |
| Sanitize.KeptGaps | src/io/sanitize.ts:163-172 | every kept gap has a non-negative start and a positive length |
| Sanitize.KeptGapsMembers | src/io/sanitize.ts:163-172 | a gap is kept exactly when some object entry produces it with a positive length |
| Sanitize.SanitizeTopology | src/io/sanitize.ts:148-189 | positive dimensions, matrix mode exactly for "matrix", valid gaps only, and each warning exactly when its field is invalid |
| Sanitize.DefaultLedCount | src/io/sanitize.ts:159 | a missing LED count defaults to width times height |
| Schema.IsByteExactly | src/io/schema.ts:8-10 | a value is a byte exactly when it is the number of some integer in [0, 255] |
| Schema.CheckField | src/io/schema.ts:27-44 | an error is appended exactly for a present byte field that is not a byte |
| Schema.CheckCol | src/io/schema.ts:45-55 | a present `col` that is not a non-empty array gives one error; otherwise one error per colour that is not three byte channels |
| Schema.CheckSegment | src/io/schema.ts:27-55 | the segment checks append the specified errors in source order |
| Schema.ValidateWledEnvelope | src/io/schema.ts:12-59 | the errors are those the envelope's fields specify, and the result is valid exactly when there are none |
| Schema.ColorErrorsExact | src/io/schema.ts:49-53 | an error names index i exactly when colour i is not three byte channels |
| Schema.ColorErrorsEmpty | src/io/schema.ts:49-53 | no colour errors exactly when every colour has three byte channels |
| Schema.SegmentErrorsEmpty | src/io/schema.ts:27-55 | a segment has no errors exactly when every byte field is absent or a byte and `col` is absent or a non-empty list of RGB colours |
| Schema.EnvelopeValidExactly | src/io/schema.ts:12-59 | an envelope is valid exactly when `on` is absent or boolean, `bri` absent or a byte, and the checked segment is present and passes |
| Schema.OnlyFirstSegmentChecked | src/io/schema.ts:23 | only the first entry of a `seg` array is validated |
| Schema.MissingSegInvalid | src/io/schema.ts:23-25 | a missing segment, or an empty `seg` array, gives the "seg is required" error |
| Schema.CheckPositive | src/io/schema.ts:67-75 | an error is appended exactly when the value is not a positive integer |
| Schema.ValidateTopology | src/io/schema.ts:61-78 | the errors are those the topology's fields specify, and the result is valid exactly when there are none |
| Schema.TopologyValidExactly | src/io/schema.ts:61-78 | a topology is valid exactly when its mode is strip or matrix and its three counts are positive integers |
| Schema.PositiveIntegerExactly | src/io/schema.ts:67-75 | a value is a positive integer exactly when it is the number of some n >= 1 |
| Schema.TopologyValue | src/io/schema.ts:61-78 | the value handed to the validator carries the topology's mode, counts and serpentine flag |
| Schema.SanitizedTopologyValid | src/io/sanitize.ts:148-189 | every sanitized topology passes validation |
| Playlist.ClampInt | src/state/playlist.ts:18-22 | a non-numeric value gives the fallback; a number lands in [min, max] and is the rounded value when already inside |
| Playlist.Repeat | src/state/playlist.ts:45 | k copies of the last value |
| Playlist.RawTiming | src/state/playlist.ts:32-41 | the clamped timing list is never empty (a single fallback replaces an empty array) |
| Playlist.FitShape | src/state/playlist.ts:43-52 | fitting gives exactly the playlist's length, keeping the leading values and repeating the last one to pad |
| Playlist.FitInRange | src/state/playlist.ts:43-52 | fitting keeps every value in its range |
| Playlist.RawTimingInRange | src/state/playlist.ts:34-36 | every clamped timing lies in [0, max] |
| Playlist.NormalizeTimingField | src/state/playlist.ts:24-55 | the method returns the fitted timing list and warns of extension or truncation exactly when each happened |
| Playlist.PresetIds | src/state/playlist.ts:67-69 | only preset ids in [1, 250] survive, in order |
| Playlist.PresetIdsAppend | src/state/playlist.ts:67-69 | the id filter distributes over concatenation |
| Playlist.PresetIdsMembers | src/state/playlist.ts:67-69 | an id survives exactly when some entry clamps to it and it lies in [1, 250] |
| Playlist.NormalizePlaylistPayload | src/state/playlist.ts:57-113 | valid exactly when ps is an array with a valid id, and a playlist exactly when valid; an invalid payload gets the one warning of its case (ps not an array, or no valid id); a valid one gets the first 100 ids, timings fitted to them and in range, negative repeat turned into infinite shuffle, end in 251..254 reset to 0, and exactly the warnings of those repairs in the source's order |
| Playlist.NormalizeValid | src/state/playlist.ts:67-99 | for a payload with a valid id: the normalised playlist and the repair warnings in order (clamp, dur, transition, repeat, end) |
| Playlist.NormalizeTimings | src/state/playlist.ts:84-85 | dur and transition fitted to the playlist's length and in [0, 65530], with the dur warning before the transition warning |
| Playlist.RepeatAndEnd | src/state/playlist.ts:87-99 | repeat below 0 becomes 0 with shuffle on, else shuffle is the truthiness of r; end in 251..254 becomes 0; a warning for each repair, repeat first |
| Playlist.TimingWarnings | src/state/playlist.ts:43-52 | no warning exactly when the list already has the playlist's length; "extended" when shorter, "truncated" when longer |
| Playlist.RepairWarningsExact | src/state/playlist.ts:79-99 | a warning is among the repair warnings exactly when its condition holds: more than 100 ids, a short or long dur or transition list, a negative repeat, an end in 251..254 |
| Playlist.ShortTimingPadded | src/state/playlist.ts:43-47 | two examples at length 3: the list [1] and the single number 100 are each repeated three times; the general padding is FitShape |
| Playlist.ShufflePlaylistOrder | src/state/playlist.ts:115-124 | the shuffled order is a permutation of the input |
| HostStubs.Segment.IsPixelClipped | src/headless/upstream_host_stubs.cpp:322 | an index is clipped exactly when it lies outside [0, length); GetPixelColor and SetPixelColor state their behaviour through it |
| HostStubs.Segment.constructor | src/headless/upstream_host_stubs.cpp:269-272 | a segment of len pixels with no options, no colour temperature, black colour slots, and a cleared buffer of len pixels (none when len is 0) |
| HostStubs.Fx.constructor | src/headless/wled_bridge.cpp:551-552 | a strip with the given segment stops and configured length, main segment 0 |
| SoftwareEngine.ApplyBrightness | src/engine/softwareEngine.ts:222-229 | no channel grows; full brightness keeps the colour and zero gives black (each channel is ScaleBounds' rounded c * bri / 255) |
| WledBridge.ApplyBrightness | src/headless/wled_bridge.cpp:184-190 | no channel grows; full brightness keeps the colour and zero gives black (each channel is DimIsFloor's floor of c * bri / 255) |
| SoftwareEngine.HashNoise | src/engine/softwareEngine.ts:54-60 | zero (modulo 2^32) hashes to zero; WledBridge.HashNoiseAgrees and HashNoiseHighSigned relate it to the bridge's hash |
| WledBridge.HashNoise | src/headless/wled_bridge.cpp:278-283 | zero hashes to zero; WledBridge.HashNoiseAgrees and HashNoiseHigh relate it to the TypeScript engine's hash |
| SoftwareEngine.Command | src/engine/softwareEngine.ts:82-105 | the error is cleared exactly when the payload parses to a non-null value; a failed command changes nothing but the error |
| WledBridge.Command | src/headless/wled_bridge.cpp:606-657 | a command without a quote finds no key and changes nothing; CommandIdempotent, CommandSetsBrightness and CommandSetsColors state the rest |
| Arduino.Word | src/headless/Arduino.h:69-71 | the word is high * 256 + low, so both bytes can be read back |
| Schema.IsByte | src/io/schema.ts:8-10 | see Schema.IsByteExactly: accepted exactly for the numbers 0, 1, ..., 255 |
| MockArduino.MockClock.Millis | src/headless/Mock_Arduino.h:31-33 | the counter modulo 2^32 |
| MockArduino.MockClock.Micros | src/headless/Mock_Arduino.h:35-37 | the counter times 1000 modulo 2^32 (the 64-bit wrap of the product does not change it) |
| FastLedRuntime.RuntimeClock.Millis | src/headless/upstream_fastled_runtime.cpp:22-24 | the counter modulo 2^32 |
| FastLedRuntime.RuntimeClock.Micros | src/headless/upstream_fastled_runtime.cpp:26-28 | the counter times 1000 modulo 2^32 |
| JsonIo.BuildCfgJson | src/io/jsonIO.ts:9-28 | fails with the validator's errors exactly when the topology is invalid; otherwise the LED block carries the positive LED count and sets matrix exactly for matrix mode |
| JsonIo.SanitizedTopologyExports | src/io/jsonIO.ts:9-28 | every topology that went through the import sanitiser exports, with its LED count and matrix flag |
| JsonIo.Shortened | src/io/jsonIO.ts:34-35 | shortening one field keeps every key and every other field |
| JsonIo.SanitizePresetForExport | src/io/jsonIO.ts:30-37 | the exported copy keeps every key and field, except that a string name is cut to 32 and a quick-load label to 8 characters |
| JsonIo.SanitizePresetIdempotent | src/io/jsonIO.ts:30-37 | shortening an already shortened entry changes nothing |
| JsonIo.ExportKeepsErrors | src/io/jsonIO.ts:30-37 | shortening does not change the validator's verdict |
| JsonIo.ExportableExactly | src/io/jsonIO.ts:58-63 | an entry is exported exactly when its id is an integer in [0, 250] and the entry passes the validator |
| JsonIo.DefaultEntryValid | src/io/jsonIO.ts:67-82 | the fallback preset passes the validator |
| JsonIo.ExportOne | src/io/jsonIO.ts:59-64 | one step of the loop decides exportability and builds the shortened entry |
| JsonIo.Survivors | src/io/jsonIO.ts:57-65 | the loop keeps, under its id, the shortened copy of every exportable entry and nothing else |
| JsonIo.BuildPresetsJsonFromLibrary | src/io/jsonIO.ts:56-85 | the export is never empty and every entry passes the validator; it is the survivors when some entry survives, and only the default preset "0" otherwise |
| JsonIo.BuildPresetsJson | src/io/jsonIO.ts:39-54 | fails with the validator's errors exactly when the envelope is invalid; otherwise exports it alone as preset "0", named "Studio Export" unless it has a name |
| JsonIo.ExportSingle | src/io/jsonIO.ts:44-53 | a library of one exportable entry exports that entry alone |
| JsonIo.ZeroAccepted | src/io/jsonIO.ts:60 | the id "0" is accepted |
| JsonIo.Named | src/io/jsonIO.ts:46-49 | the payload's own fields win over the default name, which is added only when missing |
| JsonIo.NamedErrors | src/io/jsonIO.ts:39-49 | adding the name does not change the validator's verdict |
| JsonIo.BuildExportArtifacts | src/io/jsonIO.ts:87-92 | an invalid topology fails first; then the library's export when a library is given, otherwise the single envelope's export, with its failure |
| ControlDeck.HexDigit | src/components/ControlDeck.tsx:19 | each nibble gets a lower-case hexadecimal digit worth exactly that nibble |
| ControlDeck.ToHexString | src/components/ControlDeck.tsx:19 | toString(16) yields at least one digit, all hexadecimal |
| ControlDeck.ChannelByte | src/components/ControlDeck.tsx:19 | a channel is rounded and clamped: 0 at or below 0, 255 at or above 255, rounded in between |
| ControlDeck.ToHexChannel | src/components/ControlDeck.tsx:18-20 | always two hexadecimal digits whose value is the rounded, clamped channel |
| ControlDeck.ByteHex | src/components/ControlDeck.tsx:19 | a byte padded to two digits is its high nibble followed by its low nibble |
| ControlDeck.RgbToHex | src/components/ControlDeck.tsx:22-27 | always '#' and six hexadecimal digits; "#000000" for a missing or shorter-than-three array |
| ControlDeck.RemoveFirstHash | src/components/ControlDeck.tsx:30 | only the first '#' is removed; a leading '#' leaves the rest |
| ControlDeck.HexPrefix | src/components/ControlDeck.tsx:34-36 | parseInt reads the longest run of hexadecimal digits |
| ControlDeck.HexToRgb | src/components/ControlDeck.tsx:29-33 | any length other than six after removing the '#' gives black |
| ControlDeck.SpaceBeforeDigit | src/components/ControlDeck.tsx:34 | parseInt skips leading JavaScript white space, the ideographic space U+3000 included: "#\u3000f0000" reads 15 in red |
| ControlDeck.ParseTwoDigits | src/components/ControlDeck.tsx:34-36 | two hexadecimal digits parse to 16 times the first plus the second |
| ControlDeck.HexTextRoundTrip | src/components/ControlDeck.tsx:29-38 | '#' followed by three digit pairs reads back as the three pair values |
| ControlDeck.HexRoundTrip | src/components/ControlDeck.tsx:18-38 | converting any colour to hex and back gives its rounded, clamped channels |
| ControlDeck.ByteRoundTrip | src/components/ControlDeck.tsx:18-38 | every byte triple survives rgbToHex followed by hexToRgb unchanged |
| ControlDeck.RoundInteger | src/components/ControlDeck.tsx:19 | a byte needs no rounding or clamping |
| ControlDeck.HexToRgbRange | src/components/ControlDeck.tsx:34-37 | every channel hexToRgb returns lies in [-15, 255] (a sign is accepted) |
| ControlDeck.ParsePairRange | src/components/ControlDeck.tsx:34-37 | parseInt on two characters yields a value in [-15, 255] or NaN |
| ControlDeck.NegativeChannel | src/components/ControlDeck.tsx:29-38 | "#-1-1-1" reads as -1 in every channel |
| ControlDeck.PairByte | src/components/ControlDeck.tsx:34-37 | a digit pair reads as its value; any other pair reads as 0 |
| ControlDeck.HexToRgbChecked | src/components/ControlDeck.tsx:29-38 | the checked reading gives byte channels, and black for a wrong length |
| ControlDeck.CheckedAgreesOnDigits | src/components/ControlDeck.tsx:29-38 | on six hexadecimal digits the checked reading equals hexToRgb |
| ControlDeck.CheckedByteRoundTrip | src/components/ControlDeck.tsx:18-38 | every byte triple survives rgbToHex followed by the checked reading |
| LedTopology.Insert | src/rendering/topology.ts:3-5 | inserting a gap into a list sorted by start keeps it sorted and adds exactly that gap |
| LedTopology.SortedGaps | src/rendering/topology.ts:3-5 | the gaps sorted by start are a permutation of the input |
| LedTopology.GapOffsetAppend | src/rendering/topology.ts:14-17 | the shift at an index is additive over the gap list |
| LedTopology.GapOffsetPermutation | src/rendering/topology.ts:3-17 | the shift at an index does not depend on the order of the gaps |
| LedTopology.AllGapsCount | src/rendering/topology.ts:14-17 | once every gap starts at or before the index, the shift is the total gap length |
| LedTopology.LaterGapsIgnored | src/rendering/topology.ts:14 | gaps of a sorted list that start after the index do not shift it |
| LedTopology.PhysicalIndexMap | src/rendering/topology.ts:7-22 | one entry per LED, each the logical index shifted by the lengths of the gaps starting at or before it |
| LedTopology.BuildPhysicalIndexMap | src/rendering/topology.ts:7-22 | the loop over LEDs with its gap cursor yields exactly the specified map |
| LedTopology.PassGaps | src/rendering/topology.ts:14-17 | the inner loop advances the cursor past exactly the gaps starting at or before the index, adding their lengths |
| LedTopology.OffsetAtCursor | src/rendering/topology.ts:14-18 | the running offset at the cursor equals the specified shift of the index |
| LedTopology.GapExample | src/rendering/topology.ts:7-22 | eight LEDs with a gap of two slots at index 3 sit at slots 0, 1, 2, 5, 6, 7, 8, 9 |
| LedTopology.OffsetMonotone | src/rendering/topology.ts:14-17 | with non-negative gap lengths the shift is non-negative and grows with the index |
| LedTopology.MapIncreasing | src/rendering/topology.ts:7-22 | with non-negative gap lengths the map is strictly increasing and never below the logical index |
| LedTopology.MapIgnoresGapOrder | src/rendering/topology.ts:3-22 | reordering the gaps does not change the map |
| LedTopology.BuildLedPositions | src/rendering/topology.ts:24-50 | one position per mapped LED, all in the plane z = 0, and on the axis y = 0 for a strip |
| LedTopology.StripCentered | src/rendering/topology.ts:27-31 | a gapless strip is symmetric about x = 0 |
| LedTopology.StripInOrder | src/rendering/topology.ts:27-31 | along a strip LEDs lie left to right in logical order |
| LedTopology.ColumnInRange | src/rendering/topology.ts:34-39 | the column lies in [0, width - 1] and is reversed exactly on odd rows of a serpentine matrix |
| LedTopology.SerpentineContinuity | src/rendering/topology.ts:34-39 | in a serpentine matrix consecutive LEDs are neighbours: same column across a row break, one column apart within a row |
| LedTopology.ColumnOf | src/rendering/topology.ts:34-39 | slot q·width + r lies on row q, in column r or, on an odd serpentine row, width - 1 - r |
| LedTopology.SerpentineExample | src/rendering/topology.ts:33-49 | a 3 x 2 serpentine matrix is laid out with its second row running right to left |
| Visualization.SegmentArray | src/rendering/visualization.ts:10-14 | one segment per entry of a `seg` array, a lone segment wrapped, and the default segment when `seg` is absent |
| Visualization.LastLinkExactly | src/rendering/visualization.ts:59-60 | a strip has a link exactly when some link names it, and then it is the last link naming it |
| Visualization.IndexLinks | src/rendering/visualization.ts:59-60 | the loop filling the map keeps, for every linked strip, its last link and nothing else |
| Visualization.Estimated | src/rendering/visualization.ts:66 | the estimated LED count of a strip is at least 2 |
| Visualization.MappedOf | src/rendering/visualization.ts:63-68 | a strip is mapped exactly when it is linked and has at least two points; then it carries a positive LED count, the estimate when its own count is not positive |
| Visualization.MappedExactly | src/rendering/visualization.ts:62-68 | the mapped list holds exactly the linked strips with at least two points |
| Visualization.CollectMapped | src/rendering/visualization.ts:62-68 | the loop over strips collects exactly the mapped list |
| Visualization.InsertMapped | src/rendering/visualization.ts:70 | inserting into a list sorted by segment index and creation time keeps it sorted and adds exactly that entry |
| Visualization.SortMapped | src/rendering/visualization.ts:70 | the sorted list is ordered by segment index, then creation time, and is a permutation of the input |
| Visualization.Leds | src/rendering/visualization.ts:94-99 | each strip contributes at least one LED |
| Visualization.Points | src/rendering/visualization.ts:94-99 | one derived point per LED |
| Visualization.LedsBefore | src/rendering/visualization.ts:86-108 | the cursor before a segment is never negative |
| Visualization.PointsBefore | src/rendering/visualization.ts:86-108 | one derived point per LED before the segment |
| Visualization.LayOut | src/rendering/visualization.ts:94-99 | laying out a segment's strips advances the cursor by their LEDs and appends their points |
| Visualization.Allocation | src/rendering/visualization.ts:89-108 | the allocation keeps the number of segments |
| Visualization.AllocationAt | src/rendering/visualization.ts:89-108 | segments already visited are allocated; the rest are untouched |
| Visualization.Allocate | src/rendering/visualization.ts:86-108 | the allocation loop gives every segment its allocation and ends with the cursor and points of all segments |
| Visualization.PlaceSegment | src/rendering/visualization.ts:90-107 | a segment with no strips is skipped; otherwise it is placed at the cursor, and the cursor and points advance by its strips |
| Visualization.LargestStop | src/rendering/visualization.ts:74 | the LED count without drawn strips is the largest stop, at least 1 |
| Visualization.HighestSegment | src/rendering/visualization.ts:81 | the result is non-negative and at least the segment index of every drawn strip |
| Visualization.HighestSegmentAttained | src/rendering/visualization.ts:81 | the highest index is 0 or the segment index some drawn strip is linked to |
| Visualization.ExtendSegments | src/rendering/visualization.ts:82-84 | the segments are padded with copies of the last one up to the highest linked index, keeping the existing ones |
| Visualization.RecomputeVisualizationSync | src/rendering/visualization.ts:56-118 | with no drawn strip the command's segments pass through; otherwise every linked segment is allocated its strips' range, and the derived index map is the identity over the derived points |
| Visualization.SyncDrawn | src/rendering/visualization.ts:81-117 | the sync with drawn strips: padded segments, their allocations, the derived points and the LED count, equal to all drawn LEDs when indices are not negative |
| Visualization.IndexOfLinks | src/rendering/visualization.ts:59-60 | the map the loop builds is the link index |
| Visualization.ExtensionExactly | src/rendering/visualization.ts:82-84 | the padded segment list is the specified extension |
| Visualization.LedsAppend | src/rendering/visualization.ts:94-99 | LED counts add over concatenation |
| Visualization.LedsPermutation | src/rendering/visualization.ts:70 | sorting does not change the number of LEDs |
| Visualization.LedsBeforeCountsBelow | src/rendering/visualization.ts:89-99 | the cursor before segment n counts the LEDs of every strip linked below n |
| Visualization.EveryLedPlaced | src/rendering/visualization.ts:86-113 | once all segments are visited the cursor counts every drawn LED |
| Visualization.LedsBeforeMonotone | src/rendering/visualization.ts:86-99 | the cursor never moves back |
| Visualization.SegmentRange | src/rendering/visualization.ts:93-104 | a segment with strips gets [cursor before it, cursor after it), a non-empty range |
| Visualization.SegmentDefaults | src/rendering/visualization.ts:105-106 | an allocated segment is on and at brightness 125 unless it says otherwise, and keeps its other fields |
| Visualization.SegmentPoints | src/rendering/visualization.ts:94-99 | the points of a segment's range are the points of its strips |
| Visualization.RangesDisjoint | src/rendering/visualization.ts:86-108 | ranges of different segments do not overlap and follow segment order |
| Visualization.ExampleRanges | src/rendering/visualization.ts:56-118 | strips of 8 and 6 LEDs linked to segments 0 and 1 give them [0, 8) and [8, 14) |
| StudioStore.CloneEntry | src/state/studioStore.ts:82 | a cloned colour is an array of at most three channels, a prefix of the original when it was an array |
| StudioStore.CloneSegment | src/state/studioStore.ts:79-84 | cloning keeps every field and as many colour slots, each a prefix of at most three channels |
| StudioStore.CloneIdempotent | src/state/studioStore.ts:79-84 | cloning a clone changes nothing |
| StudioStore.CommandSegments | src/state/studioStore.ts:86-94 | the segment list is never empty: the cloned array when non-empty, the cloned lone segment, or the cloned default |
| StudioStore.CommandSegmentsCloned | src/state/studioStore.ts:86-94 | every listed segment is already a clone |
| StudioStore.NormalizeCommandSegments | src/state/studioStore.ts:96-101 | one segment is stored as an object, two or more as an array |
| StudioStore.NormalizeRoundTrip | src/state/studioStore.ts:86-101 | storing a non-empty list of clones and reading it back gives the same list |
| StudioStore.ClampSegmentIndex | src/state/studioStore.ts:103-105 | the index is never negative, lies below a positive count, is the rounded index when in range and the last index when above |
| StudioStore.ClampInRange | src/state/studioStore.ts:103-105 | an index already in range is kept |
| StudioStore.NormalizeDimensions | src/state/studioStore.ts:122-135 | a strip is one row of max(1, round(ledCount)) LEDs; a matrix has rounded dimensions of at least 1 and as many LEDs as cells |
| StudioStore.NormalizeDimensionsIdempotent | src/state/studioStore.ts:122-135 | normalising normal dimensions changes nothing |
| StudioStore.ClampByte | src/state/studioStore.ts:107-109 | the value lies in [0, 255] and is the rounded value when that is in range |
| StudioStore.ClampNonNegativeInt | src/state/studioStore.ts:111-113 | the value is not negative and is the rounded value when that is not negative |
| StudioStore.RepairRange | src/state/studioStore.ts:342-347 | after the repair the stop lies after the start; nothing else changes, and a range already in order is left as is |
| StudioStore.FieldSetEffect | src/state/studioStore.ts:332-358 | the field gets its clamped value (a stop may be pushed past its start), both ranges end after they begin, other fields are kept |
| StudioStore.Split | src/state/studioStore.ts:142 | splitting yields at least one piece |
| StudioStore.SplitJoin | src/state/studioStore.ts:142 | joining the pieces of a split gives the string back, and no piece holds the separator |
| StudioStore.JoinLast | src/state/studioStore.ts:142 | joining is the join of all but the last piece, the separator and the last piece |
| StudioStore.DefaultsBlobAfterLastSemicolon | src/state/studioStore.ts:142 | the defaults blob is the text after the last ';' of the metadata |
| StudioStore.FindEffect | src/state/studioStore.ts:140 | the entry found is in the catalog with the effect's id; none is found exactly when no entry has it |
| StudioStore.EffectSetting | src/state/studioStore.ts:147-158 | a setting read from the tokens lies in [0, 255] |
| StudioStore.ParseEffectDefaults | src/state/studioStore.ts:139-160 | the defaults hold exactly the keys sx, ix, pal, c1, c2 that a `key=value` token sets, each to its last clamped value |
| StudioStore.TakeToken | src/state/studioStore.ts:148-157 | one token sets its key to its clamped value when the key is known and the value numeric, and leaves the rest |
| StudioStore.Studio.constructor | src/state/studioStore.ts:162-174 | the store starts with the default topology and command and segment 0 selected |
| StudioStore.Studio.Segments | src/state/studioStore.ts:86-94 | the store always has at least one segment |
| StudioStore.Studio.Selected | src/state/studioStore.ts:115-120 | the selected segment's index is in range |
| StudioStore.Studio.SetMode | src/state/studioStore.ts:176-186 | the mode is set and the dimensions normalised for it; the command and selection are kept |
| StudioStore.Studio.SetDimensions | src/state/studioStore.ts:188-197 | the dimensions are normalised for the current mode; the command and selection are kept |
| StudioStore.Studio.SetLedCount | src/state/studioStore.ts:199-213 | a matrix is left unchanged; a strip becomes one row of max(1, round(count)) LEDs |
| StudioStore.Studio.SetSelectedSegment | src/state/studioStore.ts:399-408 | the selection becomes the clamped index, in range; nothing else changes |
| StudioStore.Studio.SetSegmentNumericField | src/state/studioStore.ts:332-358 | only the selected segment changes, by the field update; the count and the other segments are kept |
| StudioStore.Studio.AddSegment | src/state/studioStore.ts:410-432 | a copy of the selected segment with i = the old count is appended and selected |
| StudioStore.Studio.RemoveSelectedSegment | src/state/studioStore.ts:434-457 | with one segment nothing changes; otherwise exactly the selected segment goes and the selection stays in range |
| StudioStore.AddedSegments | src/state/studioStore.ts:414-417 | the list grows by one, keeps its prefix and ends with the selected segment's copy, renumbered |
| StudioStore.RemovedSegments | src/state/studioStore.ts:442 | the list shrinks by one, dropping exactly the selected index |
| StudioStore.RemoveUndoesAdd | src/state/studioStore.ts:410-457 | removing the segment just added restores the list |
| StudioStore.RemovedSelection | src/state/studioStore.ts:441-443 | after removal the selection keeps its index, or moves to the new last segment when the last was removed |
| JsValues.Round | src/engine/softwareEngine.ts:27 | Math.round gives an integer within one half of x, halves rounding up |
| JsValues.Ceil | src/engine/segmentComposer.ts:67 | Math.ceil gives the least integer not below x |
| JsValues.DecimalKeyRoundTrip | src/io/jsonIO.ts:58-60 | a non-negative integer written as a decimal key reads back through Number() as itself |
| HostStubs.MonthShortNamesDistinct | src/headless/upstream_host_stubs.cpp:115-119 | different months in 1..12 have different abbreviations |
| MockArduino.MockClock.constructor | src/headless/Mock_Arduino.h:24 | the simulated clock starts at 0 |
| FastLedRuntime.RuntimeClock.constructor | src/headless/upstream_fastled_runtime.cpp:19 | the simulated clock starts at 0 |
| StudioStore.Studio.EditField | src/state/studioStore.ts:336-347 | the edit of one segment is the specified field update |

## Left out

- JavaScript numbers are exact reals. Floating-point rounding is not modelled, and neither is any non-finite value other than the single `NaN` value that `Number()` and the validators produce.
- Floating-point effects are parameters of the model rather than computed by it:
  - in `SoftwareEngine`, `hsvToRgb` and `Math.sin` are the functions `hsv` and `wave`;
  - in `WledBridge`, `blend_color`, `scale_color`, the chase fade, the breath level and the rainbow and mapped effects are the functions of a `FloatOps` value.
- `Math.random` and `rand()` are parameters: the shuffle receives its swap indices, and `MockArduino.Random` receives the raw random value.
- Arduino.Map: the `long` overflow of `(x - in_min) * (out_max - out_min)` is not modelled; the product is exact.
- ControlDeck.HexToRgbRange: states only that every channel lies in [-15, 255], because `parseInt` accepts a sign. See Findings.
- ControlDeck: a non-finite channel given to `rgbToHex` is not modelled, since numbers are exact reals.
- JsValues.ToNumber: `Number(string)` is approximated. It trims the JavaScript white space and line terminators (ASCII white space, U+00A0, U+1680, U+2000 to U+200A, U+2028, U+2029, U+202F, U+205F, U+3000 and U+FEFF), maps "" to 0 and reads a sign, digits and a fraction. Exponents, hexadecimal and `Infinity` give `NaN`.
- BridgeJson.AtoiOfScan: `std::atoi`'s result goes into an `int` (src/headless/wled_bridge.cpp:89). A digit run outside [-2^31, 2^31) is undefined behaviour there, and the model gives its exact value. IntFieldRoundTrip and CommandSetsBrightness are therefore stated only inside that range.
- BridgeJson.ReadChannel: `extract_color_slot` also stores `std::atoi` of each channel's digits into an `int` (src/headless/wled_bridge.cpp:166) before `clamp_u8` (:176). A channel outside [-2^31, 2^31) is undefined behaviour there. The model takes its exact value and clamps that, so, for example, 4294967296 reads as 255. The channel read-back (EncodedTriple, ColorSlotsRoundTrip, CommandSetsColors) is stated for byte channels only.
- SoftwareEngine.FrameOf and SoftwareEngine.SoftwareWledEngine.RenderFrame take the time as a `nat`, where `renderFrame` accepts any number (src/engine/softwareEngine.ts:108). Its callers pass a time that starts at 0 and grows by a positive whole tick (src/engine/sim.worker.ts:37-56). Negative and fractional times are not modelled.
- BridgeJson.ColorSlotsRoundTrip: the read-back of colours is stated for the first two slots of `col`, the primary and secondary colours the bridge reads. The third slot is read by the same code and is not stated separately.
- String lengths and `slice` count characters, where JavaScript counts UTF-16 code units.
- A strip of zero length, whose positions JavaScript computes as `NaN`, is not modelled for positions.
- `JSON.stringify`, `JSON.parse` and the raw-JSON text editor are not modelled. Parsed JSON is the `JsValue` datatype, and artifacts are values rather than text.
- JsonIo.SanitizePresetForExport: a truthy `n` or `ql` that is not a string is kept unchanged. In the source, `slice` would throw on a number and would cut an array.
- Object key order (`Object.entries`) is not modelled. Objects are maps, so any output whose order follows key order is stated as a map.
- JsonIo.BuildExportArtifacts: the source's truthiness test of `presets` is taken as an optional library (`None` for a missing one).
- Schema and SegmentComposer: a `null` or `undefined` payload, on which property access throws in the source, is excluded by the `Readable` precondition.
- LedTopology: `buildPhysicalIndexMap` is modelled, and `buildLedPositions` takes the map as a parameter.
- Visualization: `interpolatePolyline` is abstracted as the `count` points it returns (`DerivedPoint`), and `polylineLength` as each strip's `pathLength`. Non-integer segment stops are not modelled.
- StudioStore: the effect catalog is a parameter. The numeric fields of store segments are taken to be numbers.
- StudioStore: the store actions that are not named in the core are not modelled. These are `setControl`, `setSegmentColor`, `setGaps`, `setSerpentine`, `setColorScheme`, `setSegmentName`, `setSegmentBooleanField`, `setRawJson`, `applyRawJson`, `setRunning`, `resetClock`, `setFrame`, `replaceTopology`, `replaceCommand`, `toggleDrawer`, and the raw-JSON text each action refreshes.
- HostStubs: `length()` is a field of the segment. FX.h is not part of this model. The option word is taken as upstream WLED's 16-bit `options`.
- HostStubs: the following are not modelled:
  - `Segment::setPixelColor`'s forwarding to the strip;
  - the `Segment` copy and move constructors;
  - the buffer allocation in `setGeometry`, and `allocateData`;
  - `service`, palettes and `localtime`;
  - `setRange`, `purgeSegments`, `getActiveSegmentsNum` and the other `WS2812FX` stand-ins that are not named in the core;
  - the `WLED_STUDIO_USE_UPSTREAM` blocks.
- The user interface, the render worker, the WebAssembly client and the persistence of the store are not modelled.
- The timed playlist scheduler (`tickPlaylist`) is not defined in the store source and is not modelled.

## Findings

| source | as written | input that shows it | evidently intended | confidence | as-written member | corrected member |
|---|---|---|---|---|---|---|
| src/headless/wled_bridge.cpp:668-673 | `wled_render_frame` stores the time and then calls `wled_init` on an empty buffer, which resets the time to 0 | effect 1 (blink) at the default speed 128, time 882, before any `wled_init`: the lit first phase is rendered where the dark phase is due | the frame is rendered at the time passed in | not executed; high, because the reset is unconditional on the first frame | WledBridge.RenderAsWritten (exhibited by WledBridge.RenderAsWrittenIgnoresTime) | WledBridge.Render |
| src/components/ControlDeck.tsx:29-38 | `hexToRgb` reads each pair with `parseInt(…, 16)`, which accepts a leading sign | `#-1-1-1` gives the channels (-1, -1, -1) | every channel is a byte in [0, 255] | not executed; low, because the colour input only yields `#rrggbb` | ControlDeck.NegativeChannel (with ControlDeck.HexToRgbRange) | ControlDeck.HexToRgbChecked (with ControlDeck.CheckedByteRoundTrip and ControlDeck.CheckedAgreesOnDigits) |

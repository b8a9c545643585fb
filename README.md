# emb-class lessons: displays, calculators, traffic light, debouncing and blinkers

This project models the core of a series of microcontroller lessons (Arduino
sketches and ESP-IDF components) and proves properties of the model. Each
lesson becomes one Dafny module:

- **Seven-segment display, lesson 39** (`S7Digit`, `S7Glyphs`, `S7Display`).
  - The digit and letter glyph tables, with the active-high/active-low digit wiring.
  - `Hide` and `Refresh` as one `gpio_output_set` call each: a set mask and a clear mask over pins.
  - The display class with its digit buffer, its scroll/frame animation buffer, its counters, and the two timer ticks.
  - `PrintNumber`, `PrintText`, `PrintSegments`, `StartAnimation`, `PrintTest` and `PrintWaitIndicator`.
- **Seven-segment display, lesson 33** (`Display33`): the same tables, but digits are driven pin by pin. It prints numbers with a decimal point and without an overflow check.
- **Calculators** (`CalcCore`, `Calculator33`, `Calculator38`).
  - Both are the four-state machine FirstArg → Operator → SecondArg → Result over a digit array, driven by an encoder (lesson 33) or by seven-character UART commands (lesson 38).
  - Every display call is recorded in a log.
- **Clock adjuster, lesson 39** (`ClockAdjuster`): the click walks through the fields of a `struct tm`, the encoder steps the current field, and a three-character label is printed for each step.
- **Traffic light, lesson 25** (`TrafficLight`, `TrafficApp`, `Button`, `Debounce`): the mode machine with its tick countdown and green-blink counter, the button callback that cycles the device mode, and the debounced push button.
- **Interrupt debouncing, lesson 22 ESP-IDF** (`HandlerBase`): the shared handler, its sample buffer and log, and the three counting strategies (state based, time based, none).
- **LED mode sketches, lessons 14 and 18** (`LedModes`, `LedModes14`, `LedModes18`): the loop-counter scheduler, the mode cycle, the police flash pattern, and the edge-detected buttons.
- **Blinkers, lessons 21 and 22** (`BlinkRule`, `CStyle`, `CppStyle`, `ButtonBlink`): the two-deadline blink rule over the 32-bit `millis()` clock, in its C-style and C++-style forms, and the button that parks and resumes an LED.
- **Melody player, lesson 31** (`MelodyPlayer`): `Play`, `Stop` and the metronome tick over a note range.

**How the model represents the hardware**
- GPIO, LEDC and display calls are not performed. Each call is appended to a recorded sequence.
- `Io.Apply`/`ApplyAll` give the pin levels that a sequence of writes leaves.
- Time stamps and button levels are parameters of the methods that read them.
- C arithmetic is written out:
  - `/` truncates toward zero (`CalcCore.CDiv`) and `%` keeps the sign of the dividend (`ClockAdjuster.CRem`);
  - `ulong`/`uint` arithmetic wraps modulo 2^32 (`Io.Wrap32`);
  - signed overflow, which is undefined in C++, is excluded by preconditions (`IsInt32`) where an input causes it;
  - the lesson-39 display's reported duration `duration * period * 100` is taken with the two's-complement wrap of the boards' 32-bit multiply (`Io.WrapInt32`), because the default timings overflow it.

**Where the model follows the code rather than the lessons' own descriptions**
- **Short text on the lesson-39 display.**
  - A static text shorter than the display is read past its terminator.
  - "AB" on three digits shows the terminator's glyph, `SEG_D`, at the rightmost digit instead of a blank.
  - A four-digit display shows the three-character overflow text "---" with `SEG_D` at the rightmost digit (`S7Display.OverflowTextGlyphs`).
- **The shifter tick** tests for an empty buffer and for an exhausted duration before it increments its counter.
- **Lesson-39 `PrintNumber` has no decimal point.**
  - Its second argument is a zero-padding position.
  - A zero printed with the default position of -1 is all blank.
  - A negative number whose padding reaches the last digit loses its minus sign (`S7Glyphs.PrintedNumberReadsBack`).
- **The time-based debounce guard** is `50 * 1000` microseconds (50 ms), although its comment says 50 us.

## Model

| member | source | states |
|---|---|---|
| Io.Apply | lesson-39-i2c-oled/main/S7_Digit.cpp:74 | `gpio_output_set` drives the set mask high and the clear mask low; a write touches exactly its own pins and leaves every other level as it was |
| Io.Wrap32 | lesson-22/src/main.cpp:69 | `ulong` addition: a sum below 2^32 is kept, one in the next range loses 2^32 |
| S7Digit.SegmentsAreDistinctBits | lesson-39-i2c-oled/main/S7_Digit.h:34-42 | the segment constants A..G, DP are the bits 0..7, one each, and None is 0 |
| S7Digit.DigitTableShape | lesson-39-i2c-oled/main/S7_Digit.h:44-55 | the digit table has ten pairwise different glyphs; none is blank or uses the decimal point; 8 lights all seven segments |
| S7Digit.LetterTableShape | lesson-39-i2c-oled/main/S7_Digit.h:86-113 | the letter table has 26 glyphs without decimal point; S is drawn as 5 and Z as 2 |
| S7Digit.BitMaskIsSegmentPins | lesson-39-i2c-oled/main/S7_Digit.h:21-30 | `bit_mask` holds exactly the eight segment pins; with distinct pins the common pin is not among them |
| S7Digit.LitPinsExactly | lesson-39-i2c-oled/main/S7_Digit.cpp:40-48 | segment pin k is in the lit set exactly when bit k of the glyph is set |
| S7Digit.LitPinsInBitMask | lesson-39-i2c-oled/main/S7_Digit.cpp:40-49 | the lit pins are always among the digit's segment pins |
| S7Digit.RefreshPartitionsPins | lesson-39-i2c-oled/main/S7_Digit.cpp:32-62 | for a non-blank glyph, Refresh's set and clear masks are disjoint and together cover the segment pins and the common pin |
| S7Digit.RefreshLevels | lesson-39-i2c-oled/main/S7_Digit.cpp:32-75 | after Refresh each segment pin is at the active level exactly when its bit is lit and the common pin is on; a blank glyph only switches the common pin off and leaves every other pin alone |
| S7Digit.RefreshSegmentAt | lesson-39-i2c-oled/main/S7_Digit.cpp:40-62 | after Refresh of a non-blank glyph, segment pin k shows bit k under the digit's active level |
| S7Digit.HideLevels | lesson-39-i2c-oled/main/S7_Digit.cpp:22-30 | after Hide every segment pin is inactive and the common pin is off, for either wiring |
| S7Digit.ComOnOppositeToLit | lesson-39-i2c-oled/main/S7_Digit.h:127-129 | `set_active` maps "on" and "off" to opposite levels, so a lit common and a lit segment are driven oppositely |
| S7Digit.Digit.constructor | lesson-39-i2c-oled/main/S7_Digit.h:125 | a new digit shows no segments |
| S7Digit.Digit.SetConfig | lesson-39-i2c-oled/main/S7_Digit.cpp:12-15 | the configuration is replaced and the glyph kept |
| S7Digit.Digit.SetSegments | lesson-39-i2c-oled/main/S7_Digit.cpp:17-20 | the glyph is replaced and the configuration kept |
| S7Digit.Digit.Hide | lesson-39-i2c-oled/main/S7_Digit.cpp:22-30 | one output-set call: common pin to the "off" level, segment pins to the inactive one, by the digit's active level |
| S7Digit.Digit.Refresh | lesson-39-i2c-oled/main/S7_Digit.cpp:32-75 | one output-set call; a blank glyph touches only the common pin; otherwise set and clear partition the segment and common pins |
| S7Glyphs.StrLen | lesson-39-i2c-oled/main/S7_Display.cpp:180-181 | `strlen` is the index of the first NUL: everything before it is non-NUL |
| S7Glyphs.DigitGlyphRoundTrip | lesson-39-i2c-oled/main/S7_Digit.h:44-55 | reading a digit glyph back gives its digit; blank and minus are not digits |
| S7Glyphs.NotDigitGlyphs | lesson-39-i2c-oled/main/S7_Digit.h:44-55 | the blank and minus glyphs do not occur in the digit table |
| S7Glyphs.DigitCharRoundTrip | lesson-39-i2c-oled/main/S7_Display.cpp:118-119 | a character '0'..'9' is drawn as the glyph that reads back as its value |
| S7Glyphs.LetterCharGlyphs | lesson-39-i2c-oled/main/S7_Display.cpp:116-133 | lower case is drawn as upper case, an upper-case letter by its table entry, space as blank and '-' as segment G |
| S7Glyphs.UpperLetterGlyph | lesson-39-i2c-oled/main/S7_Display.cpp:121-123 | an upper-case letter is drawn by its letter-table entry |
| S7Glyphs.LowerLetterGlyph | lesson-39-i2c-oled/main/S7_Display.cpp:121-123 | a lower-case letter is drawn like its upper-case form |
| S7Glyphs.UnknownCharGlyphs | lesson-39-i2c-oled/main/S7_Display.cpp:130-132 | characters with no glyph (NUL, '@', '[', '`', '{') are drawn as segment D |
| S7Glyphs.CharGlyphHasNoPoint | lesson-39-i2c-oled/main/S7_Display.cpp:116-133 | no character glyph lights the decimal point |
| S7Glyphs.DigitGlyphAt | lesson-39-i2c-oled/main/S7_Display.cpp:154-172 | below the minus position, position i shows digit i of the magnitude or the zero padding |
| S7Glyphs.NonDigitGlyphAt | lesson-39-i2c-oled/main/S7_Display.cpp:160-165 | from the minus position on, a negative number shows the minus there and blanks after it; nothing there reads as a digit |
| S7Glyphs.TailAfterDigits | lesson-39-i2c-oled/main/S7_Display.cpp:157-165 | after the digit run comes exactly one minus sign followed by blanks (negative number, room left) or only blanks |
| S7Glyphs.PrintedNumberReadsBack | lesson-39-i2c-oled/main/S7_Display.cpp:135-173 | a number that fits reads back from the display as itself; only when the zero padding covers the last digit is the minus sign lost |
| S7Glyphs.SignKept | lesson-39-i2c-oled/main/S7_Display.cpp:160-162 | the minus sign is drawn exactly when the number is negative and the padding leaves it a position |
| S7Glyphs.PrintedTail | lesson-39-i2c-oled/main/S7_Display.cpp:157-165 | the glyphs after the digits are a minus and blanks, or blanks only, as the sign requires |
| S7Glyphs.MinusShownIff | lesson-39-i2c-oled/main/S7_Display.cpp:149-162 | for a fitting negative number the minus sign has a position exactly when the padding stops before the last digit |
| S7Glyphs.PrintedDigitsRead | lesson-39-i2c-oled/main/S7_Display.cpp:154-172 | the digit glyphs of a fitting number form one run that reads as its magnitude |
| S7Glyphs.DigitsBeforeMinus | lesson-39-i2c-oled/main/S7_Display.cpp:146-152 | a fitting number's digits fit both the display and the positions before the minus |
| S7Glyphs.NumberDigitValues | lesson-39-i2c-oled/main/S7_Display.cpp:154-172 | each of the first d glyphs reads as the corresponding decimal digit of the magnitude and the next is not a digit |
| S7Glyphs.ZeroPrintsBlank | lesson-39-i2c-oled/main/S7_Display.cpp:154-172 | zero with the default padding position leaves every digit blank |
| S7Glyphs.MinusNextToDigits | lesson-39-i2c-oled/main/S7_Display.cpp:160-162 | without padding beyond the digits, the minus sits right after the most significant digit |
| S7Display.StaticGlyphs | lesson-39-i2c-oled/main/S7_Display.cpp:196-205 | a static text is drawn reversed: character i goes to digit numDigits-1-i |
| S7Display.Display.constructor | lesson-39-i2c-oled/main/S7_Display.cpp:11-87 | all digits blank, no animation, all counters 0, period 1 and duration INT32_MAX, one digit per configuration |
| S7Display.Display.PrintNumber | lesson-39-i2c-oled/main/S7_Display.cpp:135-173 | a fitting number is drawn; an overflowing one shows "---", statically on three or more digits and as a scroll otherwise; the animation is reset |
| S7Display.Display.WriteNumber | lesson-39-i2c-oled/main/S7_Display.cpp:154-172 | the digit loop fills the whole digit buffer with the number's glyphs |
| S7Display.Display.PrintText | lesson-39-i2c-oled/main/S7_Display.cpp:175-207 | a text longer than the display starts a scroll of its encoded characters and returns its duration in ms (exact when it fits an int, wrapped otherwise); a shorter one is drawn reversed and returns 0 |
| S7Display.Display.WriteText | lesson-39-i2c-oled/main/S7_Display.cpp:196-205 | the static loop draws the text reversed into the digit buffer |
| S7Display.Display.PrintSegments | lesson-39-i2c-oled/main/S7_Display.cpp:209-233 | more glyphs than digits start a scroll and return its duration in ms (exact when it fits an int, wrapped otherwise); fewer fill the leftmost digits, the first glyph on the leftmost digit, and keep the others |
| S7Display.Display.StartAnimation | lesson-39-i2c-oled/main/S7_Display.cpp:235-246 | a frame animation over the given glyphs starts from frame 0 and reports its duration in ms, exact when it fits an int and wrapped to 32 bits otherwise |
| S7Display.Display.PrintTest | lesson-39-i2c-oled/main/S7_Display.cpp:248-271 | the test runs one frame per segment, every digit lighting that segment, with period 2 |
| S7Display.Display.BuildTestPattern | lesson-39-i2c-oled/main/S7_Display.cpp:262-267 | the nested loops lay out frame after frame, each a copy of one segment per digit |
| S7Display.Display.FillFrame | lesson-39-i2c-oled/main/S7_Display.cpp:264-266 | the inner loop writes one frame of equal glyphs |
| S7Display.Display.PrintWaitIndicator | lesson-39-i2c-oled/main/S7_Display.cpp:273-284 | the wait indicator is a frame animation over its fixed pattern, with the timings kept; it needs nothing of the timings, so it runs with the defaults too |
| S7Display.Display.SetAnimationTimings | lesson-39-i2c-oled/main/S7_Display.cpp:286-290 | only period and duration change |
| S7Display.Display.SwitcherTick | lesson-39-i2c-oled/main/S7_Display.cpp:292-300 | the previously shown digit is hidden, then the next one refreshed, in one step of the round robin; the 32-bit `size_t` switch index wraps modulo 2^32 |
| S7Display.Display.ShifterTick | lesson-39-i2c-oled/main/S7_Display.cpp:302-334 | nothing moves without a buffer or duration; otherwise the counter advances and, on a period boundary, the next window is drawn, the duration decremented and the shift advanced by one (scroll) or a whole frame; the shift index and the window position `shift + i` are 32-bit `size_t` values that wrap modulo 2^32 |
| S7Display.SwitchIndexWrapRepeatsDigit | lesson-39-i2c-oled/main/S7_Display.cpp:296-297 | below 2^32-1 the index steps to the next digit; at the wrap on three digits, digit 0 is hidden and shown again |
| S7Display.DefaultTimingsOverflow | lesson-39-i2c-oled/main/S7_Display.h:52-53 | with the default timings, the reported duration `duration * period * 100` overflows an int and wraps to -100 |
| S7Display.OverflowTextLength | lesson-39-i2c-oled/main/S7_Display.cpp:149-152 | the overflow text is three minus signs |
| S7Display.OverflowTextGlyphs | lesson-39-i2c-oled/main/S7_Display.cpp:149-152 | "---" fills three digits; on four the rightmost shows the terminator's glyph |
| S7Display.WindowWithoutWrap | lesson-39-i2c-oled/main/S7_Display.cpp:319-323 | a window inside the buffer shows that slice reversed |
| S7Display.ScrollEndsOnLastSymbol | lesson-39-i2c-oled/main/S7_Display.cpp:190-192 | a scroll lasts length-numDigits+1 steps and its last window shows the last symbols |
| S7Display.TestPatternAt | lesson-39-i2c-oled/main/S7_Display.cpp:262-267 | entry f*numDigits+r of the test pattern is segment f |
| S7Display.TestFrames | lesson-39-i2c-oled/main/S7_Display.cpp:248-271 | frame f of the test lights segment f on every digit |
| S7Display.WaitIndicatorFrames | lesson-39-i2c-oled/main/S7_Display.cpp:273-284 | the wait indicator's frames on three digits, and that it repeats after five frames |
| S7Display.WindowOfThree | lesson-39-i2c-oled/main/S7_Display.cpp:319-323 | on three digits a window shows three consecutive symbols: the first on the leftmost digit, the third on the rightmost |
| S7Display.WindowWrapsAround | lesson-39-i2c-oled/main/S7_Display.cpp:319-323 | a shift by the buffer length shows the first window again |
| S7Display.DashAndTerminatorGlyphs | lesson-39-i2c-oled/main/S7_Display.cpp:127-132 | '-' is segment G and the terminator is segment D |
| S7Display.ShortTextShowsTerminator | lesson-39-i2c-oled/main/S7_Display.cpp:196-205 | a two-character text on three digits shows the terminator's glyph at the rightmost digit |
| S7Display.RefreshTouchesOwnPins | lesson-39-i2c-oled/main/S7_Digit.cpp:32-75 | Refresh leaves every pin outside its own digit unchanged |
| S7Display.HideDarkensAll | lesson-39-i2c-oled/main/S7_Display.cpp:296 | hiding the one lit digit leaves every digit dark |
| S7Display.RefreshLightsOnlyItself | lesson-39-i2c-oled/main/S7_Display.cpp:297 | refreshing a digit while all are dark leaves only that digit's common on |
| S7Display.SwitcherKeepsOneDigitLit | lesson-39-i2c-oled/main/S7_Display.cpp:292-300 | a switcher tick moves the single lit digit to the one the wrapped index selects: no two commons are ever on together, even across the wrap |
| Display33.TextGlyphs33 | lesson-33-encoder+led/main/S7_Display.cpp:87-100 | a text is drawn on as many digits as the display has |
| Display33.Digit.constructor | lesson-33-encoder+led/main/S7_Display.cpp:9-64 | a digit holds its configuration, no glyph and no writes |
| Display33.Digit.SetSegments | lesson-33-encoder+led/main/S7_Digit.cpp:17-20 | the glyph is replaced, nothing is written |
| Display33.Digit.Hide | lesson-33-encoder+led/main/S7_Digit.cpp:22-26 | one output-set call drives every segment pin low, then the common is set to its off level |
| Display33.Digit.Refresh | lesson-33-encoder+led/main/S7_Digit.cpp:28-43 | Refresh writes common off, then each segment's level, then common on, or only common off for a blank glyph |
| Display33.Display.constructor | lesson-33-encoder+led/main/S7_Display.cpp:9-64 | one blank digit per configuration, index 0, nothing written |
| Display33.Display.PrintText | lesson-33-encoder+led/main/S7_Display.cpp:87-100 | the digits hold the text's glyphs |
| Display33.Display.PrintNumber | lesson-33-encoder+led/main/S7_Display.cpp:102-124 | the digits hold the number's glyphs with the decimal point at the requested position |
| Display33.Display.TimerTick | lesson-33-encoder+led/main/S7_Display.cpp:126-134 | the previous digit is hidden and the next refreshed; the 32-bit `size_t` index wraps modulo 2^32 |
| Display33.CharEncodersAgree | lesson-33-encoder+led/main/S7_Display.cpp:87-100 | lesson 33 draws characters as lesson 39 does, except space and '-', which it draws as segment D |
| Display33.DecimalPointOnlyAtPoint | lesson-33-encoder+led/main/S7_Display.cpp:109-121 | the point is lit exactly at the requested position, unless the minus sign is there; without it the glyphs are those of the plain number |
| Display33.FittingNumberAsLesson39 | lesson-33-encoder+led/main/S7_Display.cpp:102-124 | a number that fits is drawn exactly as the lesson-39 display draws it |
| Display33.NumberDigitValues33 | lesson-33-encoder+led/main/S7_Display.cpp:119-122 | the first glyphs read as the magnitude's decimal digits, as many as fit |
| Display33.TailAfterDigits33 | lesson-33-encoder+led/main/S7_Display.cpp:111-116 | after the digits come a minus and blanks when room is left for it, otherwise blanks |
| Display33.PrintedNumberReadsBack33 | lesson-33-encoder+led/main/S7_Display.cpp:102-124 | the display reads back as the number when it fits with its sign, otherwise as the low digits of its magnitude, unsigned |
| Display33.PrintedDigitsRead33 | lesson-33-encoder+led/main/S7_Display.cpp:119-122 | the digit run reads as the low numDigits digits of the magnitude |
| Display33.ZeroRendersBlank | lesson-33-encoder+led/main/S7_Display.cpp:107-117 | zero is drawn all blank except for the decimal point |
| Display33.RefreshLevels33 | lesson-33-encoder+led/main/S7_Digit.cpp:28-43 | after Refresh each segment shows its bit and common is on, or common is off for a blank glyph; other pins keep their levels |
| Display33.RefreshShape | lesson-33-encoder+led/main/S7_Digit.cpp:28-43 | the order of Refresh's writes: common off first, the eight segments in order, common on last |
| Display33.RefreshSegmentLevel | lesson-33-encoder+led/main/S7_Digit.cpp:33-39 | after Refresh segment pin k shows bit k |
| Display33.RefreshAgreesWithLesson39 | lesson-33-encoder+led/main/S7_Digit.cpp:28-43 | the per-pin writes leave every pin as lesson 39's single output-set call does |
| Display33.RefreshPinAgrees | lesson-33-encoder+led/main/S7_Digit.cpp:28-43 | pin by pin, the two Refresh implementations leave the same level |
| Display33.RefreshOtherPinKept | lesson-39-i2c-oled/main/S7_Digit.cpp:32-75 | lesson 39's Refresh leaves pins outside the digit alone |
| Display33.HideLevels33 | lesson-33-encoder+led/main/S7_Digit.cpp:22-26 | after Hide the common is off and every segment pin low |
| Display33.HideDarkensAll33 | lesson-33-encoder+led/main/S7_Display.cpp:130 | hiding the one lit digit leaves all dark |
| Display33.RefreshLightsOnlyItself33 | lesson-33-encoder+led/main/S7_Display.cpp:131 | refreshing a digit while all are dark lights only it |
| Display33.TickKeepsOneDigitLit | lesson-33-encoder+led/main/S7_Display.cpp:126-134 | a timer tick moves the single lit digit to the one the wrapped index selects |
| CalcCore.OpIndex | lesson-38-uart-slave/main/Calculator.h:15-22 | every operator's value is below OpCount |
| CalcCore.OpOf | lesson-38-uart-slave/main/Calculator.h:15-22 | the cast from an index in range gives the operator with that value |
| CalcCore.OpIndexRoundTrip | lesson-38-uart-slave/main/Calculator.h:15-22 | operator and index convert back and forth without loss |
| CalcCore.RotateOpInverse | lesson-38-uart-slave/main/Calculator.cpp:136-167 | rotating back undoes rotating forward; four steps return; a step always changes the operator |
| CalcCore.RotateDigitProperties | lesson-38-uart-slave/main/Calculator.cpp:136-167 | a digit stays 0..9, wraps 9→0 and 0→9, and the directions undo each other |
| CalcCore.ClicksAppend | lesson-38-uart-slave/main/Calculator.cpp:169-193 | click sequences compose |
| CalcCore.ArgumentClicks | lesson-38-uart-slave/main/Calculator.cpp:169-193 | inside an argument, clicks only move the cursor |
| CalcCore.ClickCycle | lesson-38-uart-slave/main/Calculator.cpp:169-193 | from a fresh start n clicks reach Operator, one more the second argument, n more Result, one more the start: a cycle of 2n+2 |
| CalcCore.DigitsValueAppend | lesson-38-uart-slave/main/Calculator.cpp:50-56 | a new most significant digit adds its place value |
| CalcCore.DigitsValueBounds | lesson-38-uart-slave/main/Calculator.cpp:50-56 | n decimal digits give a value in 0..10^n-1 |
| CalcCore.DigitsValueDigits | lesson-38-uart-slave/main/Calculator.cpp:50-56 | digit i of the computed argument is the i-th entered digit |
| CalcCore.ShortNumberLength | lesson-38-uart-slave/main/Calculator.cpp:50-56 | an argument below 10^n has at most n decimal digits, so it fits the display |
| CalcCore.ZeroDigitsValue | lesson-38-uart-slave/main/Calculator.cpp:45-48 | cleared digits stand for 0 |
| CalcCore.CDivMagnitude | lesson-38-uart-slave/main/Calculator.cpp:58-76 | C++ division's quotient has size abs(a)/abs(b) |
| CalcCore.CDivSign | lesson-38-uart-slave/main/Calculator.cpp:58-76 | the quotient is positive only for operands of equal sign and negative only for opposite signs |
| CalcCore.CDivOfNonNegative | lesson-38-uart-slave/main/Calculator.cpp:58-76 | for non-negative operands C++ and Euclidean division agree |
| CalcCore.CDivDiffersFromEuclidean | lesson-38-uart-slave/main/Calculator.cpp:58-76 | for -7/2 C++ gives -3 where Euclidean division gives -4 |
| CalcCore.EnteredArgumentsDefined | lesson-38-uart-slave/main/Calculator.cpp:58-76 | with at most nine digits, addition, subtraction and division by a non-zero argument cannot overflow an int |
| Calculator33.Calculator.constructor | lesson-33-encoder+led/main/Calculator.cpp:8-21 | first argument, Add, all digits 0, and 0 shown with the point at digit 0 |
| Calculator33.Calculator.Reset | lesson-33-encoder+led/main/Calculator.cpp:28-36 | the state machine and arguments return to the start and the digits are cleared |
| Calculator33.Calculator.ClearDigits | lesson-33-encoder+led/main/Calculator.cpp:38-41 | every digit is 0 |
| Calculator33.Calculator.Calculate | lesson-33-encoder+led/main/Calculator.cpp:43-49 | the loop computes the digits' value, in 0..10^n-1 |
| Calculator33.Calculator.UpdateDisplay | lesson-33-encoder+led/main/Calculator.cpp:71-105 | an argument state computes and shows its argument with the cursor; Operator shows its name; Result shows the result without point |
| Calculator33.Calculator.OnRotate | lesson-33-encoder+led/main/Calculator.cpp:107-138 | an argument state rotates the digit at the cursor, recomputes that argument and shows it, leaving the other argument as it was; Operator rotates the operator and keeps both arguments; Result ignores the encoder |
| Calculator33.Calculator.OnEncoderTurn | lesson-33-encoder+led/main/Calculator.cpp:11 | the encoder callback rotates in the opposite direction |
| Calculator33.Calculator.OnClick | lesson-33-encoder+led/main/Calculator.cpp:140-164 | one step of the click machine with its display: cursor moves, the second argument starts cleared, the last digit shows the result, Result starts over |
| Calculator33.EnteredArgumentShown | lesson-33-encoder+led/main/Calculator.cpp:71-81 | while an argument is entered, each position up to its top digit shows the entered digit, and the display reads back as the argument |
| Calculator33.ZeroDivisorReachable | lesson-33-encoder+led/main/Calculator.cpp:65 | from Operator, n+1 clicks without rotation reach Result with a zero second argument, and DIV by it is undefined |
| Calculator33.NegativeResultLosesSign | lesson-33-encoder+led/main/Calculator.cpp:99-103 | 0 SUB 9999 on four digits reads as 9999 |
| Calculator33.WideSumLosesTopDigit | lesson-33-encoder+led/main/Calculator.cpp:99-103 | 9999 ADD 9999 on four digits reads as 9998 |
| Calculator38.CStr | lesson-38-uart-slave/main/Calculator.cpp:11-14 | a command constant is its characters followed by one NUL |
| Calculator38.Calculator.constructor | lesson-38-uart-slave/main/Calculator.cpp:18-28 | first argument, Add, all digits 0, and 0 shown with the point at digit 0 |
| Calculator38.Calculator.Reset | lesson-38-uart-slave/main/Calculator.cpp:35-43 | the state machine and arguments return to the start and the digits are cleared |
| Calculator38.Calculator.ClearDigits | lesson-38-uart-slave/main/Calculator.cpp:45-48 | every digit is 0 |
| Calculator38.Calculator.Calculate | lesson-38-uart-slave/main/Calculator.cpp:50-56 | the loop computes the digits' value, in 0..10^n-1 |
| Calculator38.Calculator.UpdateDisplay | lesson-38-uart-slave/main/Calculator.cpp:78-117 | as in lesson 33, but Result shows "ERR" for division by zero and marks a zero result with the point |
| Calculator38.Calculator.OnRotate | lesson-38-uart-slave/main/Calculator.cpp:136-167 | an argument state rotates the digit at the cursor, recomputes that argument and shows it, leaving the other argument as it was; Operator rotates the operator and keeps both arguments; Result ignores it |
| Calculator38.Calculator.OnClick | lesson-38-uart-slave/main/Calculator.cpp:169-193 | one step of the click machine with its display; a zero divisor needs no precondition |
| Calculator38.Calculator.OnCommandReceived | lesson-38-uart-slave/main/Calculator.cpp:119-134 | a command is recognised exactly when it matches one of the three, tested in the order ENC_CCW, ENC_CWS, ENC_KEY; the first has the whole effect of a counter-clockwise turn, the second of a clockwise turn and the third of a click (state, cursor, digits, operator, both arguments and the display log); anything else changes nothing |
| Calculator38.ResultCallCases | lesson-38-uart-slave/main/Calculator.cpp:107-112 | "ERR" is shown exactly for division by zero; otherwise the result, with the point at 0 exactly when it is 0 |
| Calculator38.StrNEqualExact | lesson-38-uart-slave/main/Calculator.cpp:119-134 | comparing a whole NUL-terminated command with `strncmp` means equality |
| Calculator38.ReceivedCommand | lesson-38-uart-slave/main/Calculator.cpp:119-134 | an eight-byte buffer matches a command exactly when it is that command; the three commands differ |
| ClockAdjuster.DecimalString | lesson-39-i2c-oled/main/ClockAdjuster.cpp:110-145 | a number's decimal text is never empty |
| ClockAdjuster.TwoDigits | lesson-39-i2c-oled/main/ClockAdjuster.cpp:118-141 | a two-digit field always takes two characters |
| ClockAdjuster.Label | lesson-39-i2c-oled/main/ClockAdjuster.cpp:110-145 | every field's label is three characters, one digit position each |
| ClockAdjuster.Adjuster.constructor | lesson-39-i2c-oled/main/ClockAdjuster.cpp:8-19 | the adjuster waits, with a zero time, and shows the wait indicator |
| ClockAdjuster.Adjuster.UpdateDisplay | lesson-39-i2c-oled/main/ClockAdjuster.cpp:110-145 | the display calls are those the state and time call for |
| ClockAdjuster.Adjuster.OnRotate | lesson-39-i2c-oled/main/ClockAdjuster.cpp:48-76 | the current field is stepped up or down and shown; the state stays |
| ClockAdjuster.Adjuster.OnClick | lesson-39-i2c-oled/main/ClockAdjuster.cpp:78-108 | the state advances; Wait loads the time with a one-based month; Minute hands it back with the month zero-based again |
| ClockAdjuster.ClickCycle | lesson-39-i2c-oled/main/ClockAdjuster.h:12-20 | seven clicks return to the same state and each click changes it |
| ClockAdjuster.WeekDayStaysInRange | lesson-39-i2c-oled/main/ClockAdjuster.cpp:62-65 | the weekday stays in 0..6, wraps at both ends, and the two directions undo each other |
| ClockAdjuster.CRemOfNegative | lesson-39-i2c-oled/main/ClockAdjuster.cpp:62-65 | C++ gives -1 % 7 = -1, which is why the code adds 7 before taking the remainder |
| ClockAdjuster.RotateOnlyTheField | lesson-39-i2c-oled/main/ClockAdjuster.cpp:48-76 | a rotation changes only the current field, and rotating back restores the time |
| ClockAdjuster.MonthKeptOutsideMonth | lesson-39-i2c-oled/main/ClockAdjuster.cpp:48-76 | rotations in other states never touch the month |
| ClockAdjuster.SessionHandsBackMonth | lesson-39-i2c-oled/main/ClockAdjuster.cpp:81-105 | a session that does not adjust the month hands back the month it loaded |
| ClockAdjuster.DecimalStringOfSmall | lesson-39-i2c-oled/main/ClockAdjuster.cpp:110-145 | numbers below 100 print as one or two digits |
| ClockAdjuster.TwoDigitsOfSmall | lesson-39-i2c-oled/main/ClockAdjuster.cpp:118-141 | 0..99 print as tens then units |
| ClockAdjuster.YearLabelOfCentury | lesson-39-i2c-oled/main/ClockAdjuster.cpp:118-121 | the year label is 'Y' and the year within the century |
| ClockAdjuster.MonthLabelIsOneBased | lesson-39-i2c-oled/main/ClockAdjuster.cpp:122-125 | the month label shows the loaded zero-based month plus one |
| ClockAdjuster.DayNamesDistinct | lesson-39-i2c-oled/main/ClockAdjuster.cpp:21-46 | the seven day names are three characters each and pairwise different |
| TrafficLight.TrafficLight.constructor | lesson-25-traffic-light/main/TrafficLight.cpp:4-5 | Off, counters 0, all dark, pins not connected |
| TrafficLight.TrafficLight.Init | lesson-25-traffic-light/main/TrafficLight.cpp:7-14 | the pins are configured with their LEDs written dark, then Off is entered |
| TrafficLight.TrafficLight.SetMode | lesson-25-traffic-light/main/TrafficLight.cpp:16-50 | the mode's countdown and lights are entered and written out |
| TrafficLight.TrafficLight.ProcessState | lesson-25-traffic-light/main/TrafficLight.cpp:52-90 | one tick of the mode machine; the lights are written only on a timeout |
| TrafficLight.TrafficLight.TickAndCheckTimeout | lesson-25-traffic-light/main/TrafficLight.cpp:92-98 | the countdown goes down by one unless at 0, and times out at 0 |
| TrafficLight.TrafficLight.SetLights | lesson-25-traffic-light/main/TrafficLight.cpp:101-106 | red, yellow and green take the given status and are written active low |
| TrafficLight.LedLevelActiveLow | lesson-25-traffic-light/main/LED.cpp:31-35 | a lit LED is driven to 0 and a dark one to 1 |
| TrafficLight.TickDownNeverNegative | lesson-25-traffic-light/main/TrafficLight.cpp:92-98 | the countdown never goes negative and times out exactly from 1 or 0 |
| TrafficLight.OffIsInert | lesson-25-traffic-light/main/TrafficLight.cpp:52-90 | a tick in Off changes nothing |
| TrafficLight.ProcessNAppend | lesson-25-traffic-light/main/TrafficLight.cpp:52-90 | tick sequences compose |
| TrafficLight.CountingDown | lesson-25-traffic-light/main/TrafficLight.cpp:92-98 | before the timeout, ticks only count down |
| TrafficLight.ProcessOne | lesson-25-traffic-light/main/TrafficLight.cpp:52-90 | one tick is process_state |
| TrafficLight.RunPhase | lesson-25-traffic-light/main/TrafficLight.cpp:52-98 | a phase with countdown t ends after exactly t ticks as a single timed-out tick would |
| TrafficLight.TimesOutOnTthTick | lesson-25-traffic-light/main/TrafficLight.cpp:92-98 | a phase times out on its t-th tick and not before |
| TrafficLight.GreenBlinkPhases | lesson-25-traffic-light/main/TrafficLight.cpp:67-82 | green blinks in six half-second phases, alternating dark and lit, then turns yellow |
| TrafficLight.NormalCycle | lesson-25-traffic-light/main/TrafficLight.cpp:16-90 | red, red-yellow, green, green-blink and yellow follow each other every 3 s and return to red after 15 s |
| TrafficLight.InactiveBlinksForever | lesson-25-traffic-light/main/TrafficLight.cpp:45-60 | inactive mode toggles yellow every half second and never leaves |
| TrafficApp.App.constructor | lesson-25-traffic-light/main/app_main.cpp:25-37 | the device and the light start Off on the given pins |
| TrafficApp.App.OnButton | lesson-25-traffic-light/main/app_main.cpp:53-69 | a press moves the device mode on and enters the matching light mode, writing the lights |
| TrafficApp.App.TimerCallback | lesson-25-traffic-light/main/app_main.cpp:102-107 | an alarm runs one process_state and wakes no task |
| TrafficApp.ConsistentKeptByPress | lesson-25-traffic-light/main/app_main.cpp:53-69 | a press keeps the device mode and the light mode in step |
| TrafficApp.ConsistentKeptByTick | lesson-25-traffic-light/main/app_main.cpp:102-107 | a tick keeps them in step: Normal stays in the normal cycle, Inactive blinks, Off stays off |
| TrafficApp.ThreePressesTurnOff | lesson-25-traffic-light/main/app_main.cpp:53-69 | three presses return to the same device mode; a press from Inactive turns the light off |
| TrafficApp.FirstPressStartsRed | lesson-25-traffic-light/main/app_main.cpp:53-69 | the first press starts the cycle on red for 3 s |
| Button.Button.constructor | lesson-25-traffic-light/main/Button.cpp:11-12 | no pin, no clicks, all stamps 0 |
| Button.Button.Init | lesson-25-traffic-light/main/Button.cpp:26-69 | the pin is taken and the stamps set as at start-up |
| Button.Button.Handler | lesson-25-traffic-light/main/Button.cpp:71-99 | the sample updates the stamps, and the callback runs (one click) exactly on a guarded press |
| Debounce.Sampled | lesson-25-traffic-light/main/Button.cpp:77-91 | the sample records the level and the time |
| Debounce.SampledCases | lesson-25-traffic-light/main/Button.cpp:77-91 | a repeated level clears its opposite stamp; a new level stamps its own edge |
| Debounce.PressOnlyOnFallingEdge | lesson-25-traffic-light/main/Button.cpp:93-98 | a press is seen only on a fall to low, and then exactly when the pin was high for longer than the guard |
| Debounce.HeldButtonCountsOnce | lesson-25-traffic-light/main/Button.cpp:77-98 | a second low sample without release never counts again |
| Debounce.ShortHighBlocksPress | lesson-25-traffic-light/main/Button.cpp:93-98 | a bounce that stays high no longer than 10 ms is not a press |
| Debounce.FirstPressAfterInit | lesson-25-traffic-light/main/Button.cpp:63-66 | after init the first press counts exactly when it comes more than 10 ms after start |
| HandlerBase.LogLines | lesson-22-espidf/main/handler_base.cpp:112-134 | one log line per buffered sample |
| HandlerBase.Handler.constructor | lesson-22-espidf/main/handler_base.cpp:13-15 | counter, index and stamps 0, an empty buffer of 100 samples |
| HandlerBase.Handler.Init | lesson-22-espidf/main/handler_base.cpp:33-73 | the strategy's interrupt edge is configured and the stamps set as at start-up |
| HandlerBase.Handler.Handler | lesson-22-espidf/main/handler_base.cpp:75-110 | the stamps are updated, the strategy counts, and a sample is stored while the buffer has room |
| HandlerBase.Handler.HandlerImpl | lesson-22-espidf/main/state_based.cpp:14-22 | the counter goes up by one exactly when the strategy counts; the time-based one remembers the interrupt time |
| HandlerBase.Handler.HandleAll | lesson-22-espidf/main/time_based.cpp:12-18 | a run of interrupts, one handler call each, leaves the time-based counter grown by exactly the time-based count over their times, and the no-debounce counter by their number; no strategy counts more than once per interrupt |
| HandlerBase.Handler.LogSamples | lesson-22-espidf/main/handler_base.cpp:112-134 | buffered samples are logged in order and the buffer emptied; an empty buffer logs nothing |
| HandlerBase.LogLinesGaps | lesson-22-espidf/main/handler_base.cpp:112-134 | each line shows the sample's time and its distance from the previous one |
| HandlerBase.StateBasedCountsPresses | lesson-22-espidf/main/state_based.cpp:14-22 | the state-based strategy counts exactly the guarded presses, which are falling edges |
| HandlerBase.SameGuardAsButton | lesson-22-espidf/main/time_based.hpp:17 | the state guard is 10 ms and the time guard 50 ms |
| HandlerBase.BurstCountsOnce | lesson-22-espidf/main/time_based.cpp:12-18 | a burst of interrupts closer than 50 ms counts at most once, and not at all right after a counted one |
| HandlerBase.SpacedInterruptsAllCount | lesson-22-espidf/main/time_based.cpp:12-18 | interrupts more than 50 ms apart all count, as without debouncing |
| HandlerBase.TimeBasedAtMostAll | lesson-22-espidf/main/no_debounce.cpp:12-15 | time-based counting never counts more than counting every interrupt |
| LedModes.ModeIndex | lesson-18/src/main.cpp:31-39 | every mode's value is below the mode count |
| LedModes.ModeOf | lesson-18/src/main.cpp:31-39 | the cast from a value in range gives the mode with that value |
| LedModes.OutputWrites | lesson-14/src/main.cpp:202-206 | one write per LED |
| LedModes.ModeIndexRoundTrip | lesson-14/src/main.cpp:7-12 | modes and their values convert back and forth |
| LedModes.PoliceFlashShape | lesson-18/src/main.cpp:61-64 | red flashes three times, then blue three times, never both at once |
| LedModes.OutputShowsLeds | lesson-14/src/main.cpp:202-206 | after the output step each pin shows its LED's status |
| LedModes14.Sketch.constructor | lesson-14/src/main.cpp:58-67 | setup enters the first mode and writes both LEDs dark |
| LedModes14.Sketch.ProcessOutputPins | lesson-14/src/main.cpp:202-206 | the LED statuses are written out |
| LedModes14.Sketch.CycleLedMode | lesson-14/src/main.cpp:91-121 | the next mode is entered with its period and step 0 |
| LedModes14.Sketch.ProcessState | lesson-14/src/main.cpp:124-200 | on a due loop count the mode advances one step, and the result says so |
| LedModes14.Sketch.ProcessInputPins | lesson-14/src/main.cpp:77-89 | a new low button level cycles the mode |
| LedModes14.Sketch.Loop | lesson-14/src/main.cpp:69-75 | one loop pass: count, input, state, and outputs when the state changed |
| LedModes14.LoopKeepsValid | lesson-14/src/main.cpp:69-75 | a loop pass keeps the mode, step and period consistent |
| LedModes14.CycleOrder | lesson-14/src/main.cpp:91-121 | the mode cycles None→Red→Blue→Police→None, None darkens the LEDs, other modes keep them |
| LedModes14.PoliceCaseIsPattern | lesson-14/src/main.cpp:142-197 | each step of the police switch shows the police flash pattern |
| LedModes14.PoliceRun | lesson-14/src/main.cpp:142-197 | k police steps from step j show pattern j+k-1 and land on (j+k) mod 12 |
| LedModes14.NoneIsIdle | lesson-14/src/main.cpp:124-200 | mode None is due every loop and changes nothing |
| LedModes14.SolidModesToggle | lesson-14/src/main.cpp:124-141 | Red and Blue toggle their LED each step and keep the other dark |
| LedModes14.ModeChangesOnlyOnPress | lesson-14/src/main.cpp:77-89 | the mode changes in a loop pass only on a press |
| LedModes18.NextIndex | lesson-18/src/main.cpp:141-166 | the next mode value, forward or backward, stays in range |
| LedModes18.Sketch.constructor | lesson-18/src/main.cpp:97-107 | setup enters the first mode and writes both LEDs dark |
| LedModes18.Sketch.ProcessOutputPins | lesson-18/src/main.cpp:202-206 | the LED statuses are written out |
| LedModes18.Sketch.CycleLedModes | lesson-18/src/main.cpp:141-166 | the next or previous mode is entered with its period |
| LedModes18.Sketch.ProcessState | lesson-18/src/main.cpp:169-200 | on a due loop count the mode advances one step |
| LedModes18.Sketch.ProcessInputPins | lesson-18/src/main.cpp:117-139 | every time unit, a fall on button 1 cycles forward and on button 2 backward |
| LedModes18.Sketch.Loop | lesson-18/src/main.cpp:109-115 | one loop pass: count, input, state, and outputs when the state changed |
| LedModes18.LoopKeepsValid | lesson-18/src/main.cpp:109-115 | a loop pass keeps the state consistent |
| LedModes18.CounterStepKeepsValid | lesson-18/src/main.cpp:109-115 | the 32-bit wrap of the loop counter keeps it consistent |
| LedModes18.LoopStepParts | lesson-18/src/main.cpp:109-115 | a loop pass is the counter step, then input, then the state step when due |
| LedModes18.DueStepKeepsValid | lesson-18/src/main.cpp:169-200 | the state step keeps it consistent |
| LedModes18.InputStepKeepsValid | lesson-18/src/main.cpp:117-139 | the input step keeps it consistent |
| LedModes18.ButtonStepKeepsValid | lesson-18/src/main.cpp:117-139 | one button's handling keeps it consistent |
| LedModes18.AdvanceKeepsValid | lesson-18/src/main.cpp:169-200 | a mode step keeps it consistent |
| LedModes18.CycleIsModular | lesson-18/src/main.cpp:141-166 | forward and backward cycling are ±1 modulo the mode count and undo each other |
| LedModes18.CycleSetsPeriod | lesson-18/src/main.cpp:141-166 | cycling sets the new mode's period, restarts police at 0 and keeps the LEDs |
| LedModes18.PatternIsPoliceFlash | lesson-18/src/main.cpp:61-64 | the police table is the police flash pattern, never both LEDs lit |
| LedModes18.PoliceStep | lesson-18/src/main.cpp:190-197 | a police step shows the current table entry and moves on modulo the table size |
| LedModes18.NoneParks | lesson-18/src/main.cpp:175-179 | None darkens the LEDs and parks the period at UINT32_MAX, so it is due only at counter 0 or UINT32_MAX |
| LedModes18.EnteringNoneDarkensNext | lesson-18/src/main.cpp:141-166 | entering None is due at once, and its step darkens the LEDs |
| LedModes18.SolidModesToggle | lesson-18/src/main.cpp:181-189 | Red and Blue toggle their LED each step and keep the other dark |
| LedModes18.ButtonsMoveTheMode | lesson-18/src/main.cpp:117-139 | off the time unit inputs change nothing; on it, the mode moves +1 for a fall on button 1 and -1 for button 2 |
| BlinkRule.Rule | lesson-21/src/c_style_impl.cpp:19-33 | the deadlines stay 32-bit, and change only if a branch fires |
| BlinkRule.RuleWrites | lesson-21/src/c_style_impl.cpp:19-33 | at most two writes, all to the handler's own pin |
| BlinkRule.CHandler.constructor | lesson-21/src/c_style_impl.cpp:19-33 | the statics start at 0 |
| BlinkRule.CHandler.Handle | lesson-21/src/c_style_impl.cpp:19-33 | one call applies the rule to the deadlines and returns its writes |
| BlinkRule.RuleWritesCases | lesson-21/src/c_style_impl.cpp:19-33 | both branches write LOW then HIGH, one writes LOW or HIGH, neither writes nothing and changes nothing |
| BlinkRule.RuleStaysOnGrid | lesson-21/src/c_style_impl.cpp:19-33 | without wrap-around the on deadline stays a multiple of the period and moves on at most one period: lateness does not drift |
| BlinkRule.ParkedNeverFires | lesson-22/src/main.cpp:55-66 | deadlines at ULONG_MAX never fire for a 32-bit time |
| CStyle.Sketch.constructor | lesson-21/src/c_style_impl.cpp:5-17 | three handlers on pins 6, 8, 12 with their durations, deadlines 0 |
| CStyle.Sketch.Loop | lesson-21/src/c_style_impl.cpp:46-53 | one time stamp; each handler applies the rule to its own deadlines, writes in order 1, 2, 3 |
| CStyle.PinsIndependent | lesson-21/src/c_style_impl.cpp:46-53 | each LED's pin ends as its own handler left it, whatever the other two handlers write |
| CppStyle.LedHandler.constructor | lesson-21/src/cpp_style_impl.h:8-12 | deadlines 0, off, nothing to write |
| CppStyle.LedHandler.ScheduleWork | lesson-21/src/cpp_style_impl.cpp:15-28 | the deadlines follow the rule; it is time to write when a branch fired, and the off branch wins |
| CppStyle.LedHandler.DoWork | lesson-21/src/cpp_style_impl.cpp:30-35 | one write when it is time, LOW for on |
| CppStyle.Sketch.constructor | lesson-21/src/cpp_style_impl.cpp:5-7 | handlers (6, 10, 200), (8, 10, 500), (12, 10, 1000) |
| CppStyle.Sketch.Loop | lesson-21/src/cpp_style_impl.cpp:44-57 | all three are scheduled on one time stamp, then each writes at most once |
| CppStyle.ScheduledCases | lesson-21/src/cpp_style_impl.cpp:15-28 | time to write exactly when a branch fired; otherwise only the flag changes; the off branch ends off |
| CppStyle.AgreesWithCStyle | lesson-21/src/cpp_style_impl.cpp:15-35 | the C++ split reaches the C-style deadlines and leaves the pin at the same level |
| ButtonBlink.Sketch.constructor | lesson-22/src/main.cpp:3-15 | two handlers with their pins and durations, deadlines 0, no press pending |
| ButtonBlink.Sketch.ButtonHandler | lesson-22/src/main.cpp:17-22 | the interrupt raises the press flag and nothing else |
| ButtonBlink.Sketch.Led1Handler | lesson-22/src/main.cpp:35-48 | LED 1 follows the blink rule |
| ButtonBlink.Sketch.Led2Handler | lesson-22/src/main.cpp:50-76 | the press flag is consumed and toggles parking, then the rule runs |
| ButtonBlink.Sketch.Loop | lesson-22/src/main.cpp:78-84 | one time stamp, LED 1 then LED 2 |
| ButtonBlink.PressParks | lesson-22/src/main.cpp:55-66 | a press on a running LED drives it HIGH and parks it; a parked LED stays put without a press |
| ButtonBlink.PressResumes | lesson-22/src/main.cpp:55-66 | a press on a parked LED restarts it from 0: it lights at once |
| ButtonBlink.TwoPressesRestart | lesson-22/src/main.cpp:55-66 | two presses from a running LED bring the deadlines back to the start |
| MelodyPlayer.Tick | lesson-31-buzzer-2/main/MelodyPlayer.cpp:94-105 | a tick moves the progress by at most one |
| MelodyPlayer.Ticks | lesson-31-buzzer-2/main/MelodyPlayer.cpp:94-105 | k ticks move the progress by at most k |
| MelodyPlayer.MelodyPlayer.constructor | lesson-31-buzzer-2/main/MelodyPlayer.h:31-33 | an empty range, not playing |
| MelodyPlayer.MelodyPlayer.Play | lesson-31-buzzer-2/main/MelodyPlayer.cpp:51-68 | the range is taken, the metronome started with the alarm for the note duration, and the first note played |
| MelodyPlayer.MelodyPlayer.Stop | lesson-31-buzzer-2/main/MelodyPlayer.cpp:70-74 | the metronome stops and the output is silenced; the progress stays |
| MelodyPlayer.MelodyPlayer.PlayNote | lesson-31-buzzer-2/main/MelodyPlayer.cpp:76-92 | a note's driver calls are made and the progress moves on |
| MelodyPlayer.MelodyPlayer.OnMetronomeTick | lesson-31-buzzer-2/main/MelodyPlayer.cpp:94-105 | a tick plays the next note, or silences the output after the last |
| MelodyPlayer.NoteCallsCases | lesson-31-buzzer-2/main/MelodyPlayer.cpp:76-92 | a note sets its frequency and half duty; a pause sets duty 0 and no frequency; both end with an update |
| MelodyPlayer.PlayedSplit | lesson-31-buzzer-2/main/MelodyPlayer.cpp:94-105 | the calls for a range are those of its two halves in order |
| MelodyPlayer.PlaysInOrder | lesson-31-buzzer-2/main/MelodyPlayer.cpp:94-105 | k ticks within the melody play the next k notes in order, each once |
| MelodyPlayer.TickPlaysNext | lesson-31-buzzer-2/main/MelodyPlayer.cpp:98-99 | a tick within the melody plays the note at the progress |
| MelodyPlayer.SilentAfterTheEnd | lesson-31-buzzer-2/main/MelodyPlayer.cpp:101-103 | past the end each tick only silences the output |
| MelodyPlayer.PlayingUntilTheLastTick | lesson-31-buzzer-2/main/MelodyPlayer.cpp:51-105 | after Play and k ticks it plays exactly while k+1 < n, and the whole melody has been played once, in order, when it stops |
| MelodyPlayer.TicksAppend | lesson-31-buzzer-2/main/MelodyPlayer.cpp:94-105 | tick sequences compose |
| MelodyPlayer.AlarmCountPerMs | lesson-31-buzzer-2/main/MelodyPlayer.cpp:59 | at the 100 kHz resolution the alarm is 100 counts per ms while the 32-bit product does not wrap |

## Left out

- **Hardware setup.** The following are not modelled: timer and gptimer setup, the LEDC timer and channel configuration, GPIO direction and pull settings, glitch filters, interrupt installation, the destructors, and `Start`/`Stop` of the displays. They only configure hardware.
- **Logging.** Serial and `ESP_LOG` printing are left out. `LogSamples` records the lines it would print rather than formatting them. The core ID is a parameter.
- **Concurrency.** Interrupt handlers and timer callbacks run as ordinary sequential calls. Interleaving with the main loop is not modelled.
- **Time.** `esp_timer_get_time` values are taken as naturals (64-bit microseconds do not wrap in practice). `millis()` is taken as a 32-bit value.
- **Pins.** `Pin` is below 31, because the C++ computes `1 << pin` as an int.
- **Lesson-38 UART.** The lesson-38 `S7_Display` and `UartReceiver` are not part of this model. The calculator's display calls are recorded as values.
- **Applications.** The applications' `app_main` wiring of lessons 33, 38 and 39 (encoder, UART, I2C OLED, environment monitor) lies outside the modelled core.
- S7Display.Display.StartAnimation returns the wrapped product when `duration * period * 100` overflows an int. C++ leaves that overflow undefined, so this is the boards' behaviour, not the language's. With the default timings the value is -100 (`DefaultTimingsOverflow`). The same holds for `PrintText` and `PrintSegments`.
- S7Display.Display.PrintNumber requires `n != INT32_MIN`, whose negation overflows.
- S7Display.Display.PrintNumber also requires, for a number that does not fit, at most as many digits as "---" has characters, because on five or more digits `Print("---")` reads past the four-byte literal. The only display in lesson 39 has three digits.
- S7Display.Display.SetAnimationTimings requires a period of at least 1, because the shifter tick takes its counter modulo the period. The only call passes 2.
- S7Display.Display.ShifterTick keeps the `uint64_t` shifter counter `m_shifter_counter` as an unbounded `nat`. At one tick per 100 ms it would take far longer than the board's lifetime to wrap.
- Display33.Display.PrintNumber requires `n != INT32_MIN`, whose negation overflows.
- **Characters.** Text is a sequence of Unicode characters, and the glyph tables test them against ASCII ranges. The C++ `isdigit` and `toupper` act on `char` bytes. The two agree on ASCII input, which is all the modelled programs pass.
- S7Digit.Digit.constructor leaves the configuration unset, as the C++ default constructor does.
- Calculator33.Calculator.constructor:
  - limits the digit count to 1..9, so that `calculate` cannot overflow an int;
  - the same holds for `Calculator38`.
- Calculator33.Calculator.OnClick requires the result of the last click to be defined in C++: no division by zero and no int overflow. The zero divisor is reachable (see Findings).
- Calculator38.Calculator.OnClick requires that the result does not overflow an int.
- Calculator38.Calculator.OnCommandReceived requires the received size to be at most the command length plus the NUL, the bound the `strncmp` calls read.
- ClockAdjuster.Adjuster.OnClick:
  - requires a loaded month below INT32_MAX and a month above INT32_MIN when it is handed back;
  - requires a weekday in 0..6 on entering WeekDay, because `get_day_of_week` leaves the label unwritten otherwise;
  - the get and set callbacks become a parameter (`loaded`) and a record of handed-back times (`sent`).
- ClockAdjuster.Adjuster.OnRotate requires the stepped field not to overflow an int.
- ClockAdjuster.Adjuster.UpdateDisplay takes `IsAnimationRunning` as a parameter.
- MelodyPlayer.MelodyPlayer.Play:
  - requires a non-empty range, because the C++ reads the first note unconditionally;
  - the note range is a sequence rather than a begin/end pair of addresses.
- HandlerBase.Handler.constructor:
  - the three lesson-22 subclasses (state based, time based, no debounce) become one class with a strategy field;
  - `HandlerImpl` branches on the strategy.
- HandlerBase.Handler.Handler requires the counter to stay below INT32_MAX when it counts.
- TrafficLight.TrafficLight.ProcessState requires the blink counter to be above INT32_MIN when green blinks time out, because the counter is decremented there.
- TrafficLight.TrafficLight.Init requires pins below 64. The LED `init` writes level 1, recorded as writes.

## Findings

| source | as written | input that shows it | evidently intended | confidence | as-written member | corrected member |
|---|---|---|---|---|---|---|
| lesson-33-encoder+led/main/Calculator.cpp:65 | the Result state divides by the second argument without checking it | choose DIV, then click through the second argument without turning the encoder: all its digits stay 0 | show "ERR" for a zero divisor, as lesson-38-uart-slave/main/Calculator.cpp:107-109 does | high; not executed | Calculator33.ZeroDivisorReachable | Calculator38.ResultCallCases |
| lesson-33-encoder+led/main/S7_Display.cpp:102-124 | `Print(int)` has no overflow check: a negative result as wide as the display loses its minus sign | four digits, 0 SUB 9999: the display shows 9999 | show an overflow marker, as lesson-39-i2c-oled/main/S7_Display.cpp:149-152 does with "---" | medium; not executed | Calculator33.NegativeResultLosesSign | S7Glyphs.PrintedNumberReadsBack |
| lesson-33-encoder+led/main/S7_Display.cpp:102-124 | a result wider than the display is cut to its low digits | four digits, 9999 ADD 9999: the display shows 9998 | show an overflow marker, as lesson 39 does | medium; not executed | Calculator33.WideSumLosesTopDigit | S7Display.Display.PrintNumber |

/**
 * The lesson-39 multi-digit display (S7_Display.h / S7_Display.cpp).
 *
 * The display owns one segment mask per digit (digit 0 is the rightmost),
 * a scan index for multiplexing, and a shifter that scrolls text or plays
 * frame animations from a segment buffer. The two hardware timer callbacks
 * are the methods SwitcherTick and ShifterTick; the GPIO writes of the
 * multiplexer are recorded in `gpio`.
 */
module S7Display {
  import opened Io
  import opened S7Digit
  import opened S7Glyphs

  datatype ShifterMode = None | Scroll | Frame

  /** The text PrintNumber shows when the number does not fit ("---" and its terminator). */
  const OVERFLOW_TEXT: seq<char> := "---\0"

  /** The nine test frames of PrintTest: each single segment, then blank. */
  const TEST_SEGMENTS: seq<bv8> := [SEG_A, SEG_B, SEG_C, SEG_D, SEG_E, SEG_F, SEG_G, SEG_DP, SEG_NONE]

  /** The five three-digit frames of PrintWaitIndicator. */
  const WAIT_PATTERN: seq<bv8> := [
    SEG_A, SEG_NONE, SEG_D,
    SEG_NONE, SEG_A | SEG_D, SEG_NONE,
    SEG_D, SEG_NONE, SEG_A,
    SEG_E, SEG_NONE, SEG_B,
    SEG_F, SEG_NONE, SEG_C]

  /** The number of characters PrintText takes: `len`, or `strlen` when len is -1. */
  function TextLength(text: seq<char>, len: int): nat
    requires len >= -1
    requires len == -1 ==> '\0' in text
  {
    if len == -1 then StrLen(text) else len
  }

  /** What a short text leaves on the digits: its first numDigits characters, the first on the left. */
  function StaticGlyphs(text: seq<char>, numDigits: nat): (r: seq<bv8>)
    requires |text| >= numDigits
    ensures |r| == numDigits
    ensures forall i :: 0 <= i < numDigits ==> r[numDigits - 1 - i] == CharToSegments(text[i])
  {
    Reverse(Encode(text[..numDigits]))
  }

  /** The scroll duration: -1 asks for one step per position, ending on the last symbol. */
  function ScrollDuration(duration: int, len: nat, numDigits: nat): int {
    if duration == -1 then len - numDigits + 1 else duration
  }

  /**
   * The numDigits segments starting at `shift` (wrapping around the buffer),
   * in digit order: the first one goes to the leftmost digit, numDigits - 1.
   * The position `shift + i` is a `size_t` sum, taken modulo 2^32 before the
   * remainder by the buffer length.
   */
  function Window(buffer: seq<bv8>, shift: nat, numDigits: nat): (r: seq<bv8>)
    requires |buffer| > 0
    ensures |r| == numDigits
  {
    seq(numDigits, j requires 0 <= j < numDigits => buffer[Wrap32(shift + (numDigits - 1 - j)) % |buffer|])
  }

  /** The PrintTest pattern: frame i repeats TEST_SEGMENTS[i] on every digit. */
  function TestPattern(numDigits: nat, frames: nat): (r: seq<bv8>)
    requires frames <= |TEST_SEGMENTS|
    ensures |r| == frames * numDigits
  {
    if frames == 0 then []
    else TestPattern(numDigits, frames - 1) + seq(numDigits, _ => TEST_SEGMENTS[frames - 1])
  }

  /** Digit wiring that multiplexing relies on: own pins distinct, COM pins distinct and never a segment pin. */
  predicate WellWired(configs: seq<DigitConfig>) {
    && (forall i :: 0 <= i < |configs| ==> configs[i].DistinctPins())
    && (forall i, j :: 0 <= i < j < |configs| ==> configs[i].pinCom != configs[j].pinCom)
    && (forall i, j :: 0 <= i < |configs| && 0 <= j < |configs| ==> configs[i].pinCom !in configs[j].BitMask())
  }

  /** Every digit other than `shown` has its COM pin at the off level. */
  predicate OthersDark(levels: map<Pin, int>, configs: seq<DigitConfig>, shown: int) {
    forall j :: 0 <= j < |configs| && j != shown ==>
      configs[j].pinCom in levels && levels[configs[j].pinCom] == configs[j].SetActive(1)
  }

  class Display {
    const numDigits: nat
    const configs: seq<DigitConfig>
    /** The segment mask of each digit (`m_digits[i].m_segments`). */
    const digits: array<bv8>
    /** `m_switch_index` and `m_shift_index`: 32-bit `size_t` counters that wrap. */
    var switchIndex: U32
    var shiftIndex: U32
    var mode: ShifterMode
    var period: int
    var duration: int
    var counter: nat
    var buffer: seq<bv8>
    /** The GPIO writes of the multiplexer so far. */
    var gpio: seq<GpioWrite>

    ghost predicate Valid()
      reads this
    {
      && numDigits >= 1
      && digits.Length == numDigits
      && |configs| == numDigits
      && period >= 1
      && (mode == None ==> buffer == [])
    }

    function IsAnimationRunning(): bool
      reads this
    {
      mode != None
    }

    function NumDigits(): nat {
      numDigits
    }

    /** Builds the display with one configuration per digit, all digits blank and the shifter idle. */
    constructor (configs: seq<DigitConfig>)
      requires |configs| >= 1
      ensures Valid() && fresh(digits)
      ensures numDigits == |configs| && this.configs == configs
      ensures forall i :: 0 <= i < numDigits ==> digits[i] == SEG_NONE
      ensures mode == None && !IsAnimationRunning() && buffer == []
      ensures switchIndex == 0 && shiftIndex == 0 && counter == 0 && gpio == []
      ensures period == 1 && duration == INT32_MAX
    {
      numDigits := |configs|;
      this.configs := configs;
      digits := new bv8[|configs|](_ => SEG_NONE);
      switchIndex, shiftIndex := 0, 0;
      mode := None;
      period, duration := 1, INT32_MAX;
      counter := 0;
      buffer := [];
      gpio := [];
    }

    /**
     * Shows n right-aligned, padded with zeros up to inputPosition, with a minus
     * sign after the digits; a number that does not fit shows "---".
     */
    method PrintNumber(n: int, inputPosition: int := -1)
      requires Valid()
      requires IsInt32(n) && n != INT32_MIN
      requires Overflows(n, numDigits) ==> numDigits <= |OVERFLOW_TEXT|
      modifies this, digits
      ensures Valid()
      ensures shiftIndex == 0
      ensures period == old(period) && counter == old(counter) && switchIndex == old(switchIndex) && gpio == old(gpio)
      ensures !Overflows(n, numDigits) ==>
        && mode == None && buffer == [] && duration == old(duration)
        && digits[..] == NumberGlyphs(n, inputPosition, numDigits)
      ensures Overflows(n, numDigits) && numDigits >= 3 ==>
        && mode == None && buffer == [] && duration == old(duration)
        && digits[..] == StaticGlyphs(OVERFLOW_TEXT, numDigits)
      ensures Overflows(n, numDigits) && numDigits < 3 ==>
        && mode == Scroll && buffer == [SEG_G, SEG_G, SEG_G]
        && duration == ScrollDuration(old(duration), 3, numDigits)
        && digits[..] == old(digits[..])
    {
      mode := None;
      shiftIndex := 0;
      buffer := [];

      var isNeg := n < 0;
      var m: nat := if isNeg then -n else n;

      var k := 0;
      var t := m;
      while t != 0
        invariant k <= DecimalLength(m) && t == DropDigits(m, k)
        modifies {}
        decreases t
      {
        DropDigitsZero(m, k);
        DropDigitsStep(m, k);
        t := t / 10;
        k := k + 1;
      }
      DropDigitsZero(m, k);
      assert m == Abs(n) && k == DecimalLength(m);
      if k > numDigits || (isNeg && k > numDigits - 1) {
        OverflowTextLength();
        var _ := PrintText(OVERFLOW_TEXT);
        return;
      }

      WriteNumber(n, inputPosition);
    }

    /** The digit loop of PrintNumber for a number that fits: digits, zero padding up to the cursor, the minus sign, blanks. */
    method WriteNumber(n: int, inputPosition: int)
      requires digits.Length == numDigits
      requires n != INT32_MIN && IsInt32(n) && !Overflows(n, numDigits)
      modifies digits
      ensures digits[..] == NumberGlyphs(n, inputPosition, numDigits)
    {
      var isNeg := n < 0;
      var m: nat := Abs(n);
      var k := DecimalLength(m);
      var v := m;
      var skipRest := m == 0;
      var i := 0;
      while i < numDigits
        invariant 0 <= i <= numDigits
        invariant v == DropDigits(m, i)
        invariant skipRest <==> i >= k
        invariant isNeg <==> n < 0 && i <= MinusPosition(n, inputPosition)
        invariant forall j :: 0 <= j < i ==> digits[j] == NumberGlyph(n, inputPosition, j)
        modifies digits
      {
        NumberGlyphStep(n, inputPosition, i);
        if skipRest {
          if i <= inputPosition {
            digits[i] := DIGIT[0];
          } else if isNeg {
            isNeg := false;
            digits[i] := SEG_G;
          } else {
            digits[i] := SEG_NONE;
          }
        } else {
          digits[i] := DIGIT[v % 10];
          v := v / 10;
          skipRest := v == 0;
        }
        i := i + 1;
      }
      assert digits[..] == NumberGlyphs(n, inputPosition, numDigits);
    }

    /**
     * Shows a text: one that fits is written once, the first character on the
     * leftmost digit, always reading numDigits characters; a longer one scrolls.
     * Returns how long the scroll takes in milliseconds (0 for static text).
     */
    method PrintText(text: seq<char>, len: int := -1) returns (durationMs: int)
      requires Valid()
      requires len >= -1
      requires len == -1 ==> '\0' in text
      requires TextLength(text, len) > numDigits ==> |text| >= TextLength(text, len)
      requires TextLength(text, len) <= numDigits ==> |text| >= numDigits
      modifies this, digits
      ensures Valid()
      ensures period == old(period) && counter == old(counter) && switchIndex == old(switchIndex) && gpio == old(gpio)
      ensures var l := TextLength(text, len);
        if l > numDigits then
          && mode == Scroll && shiftIndex == 0 && buffer == Encode(text[..l])
          && duration == ScrollDuration(old(duration), l, numDigits)
          && durationMs == WrapInt32(duration * period * 100)
          && (IsInt32(duration * period * 100) ==> durationMs == duration * period * 100)
          && digits[..] == old(digits[..])
        else
          && mode == None && buffer == [] && shiftIndex == old(shiftIndex)
          && duration == old(duration) && durationMs == 0
          && digits[..] == StaticGlyphs(text, numDigits)
    {
      var l := TextLength(text, len);
      if l > numDigits {
        shiftIndex := 0;
        mode := Scroll;
        buffer := Encode(text[..l]);
        if duration == -1 {
          duration := l - numDigits + 1;
        }
        durationMs := WrapInt32(duration * period * 100);
      } else {
        mode := None;
        buffer := [];
        WriteText(text);
        durationMs := 0;
      }
    }

    /** The static branch of PrintText: character i goes to digit numDigits - 1 - i. */
    method WriteText(text: seq<char>)
      requires digits.Length == numDigits && |text| >= numDigits
      modifies digits
      ensures digits[..] == StaticGlyphs(text, numDigits)
    {
      var i := 0;
      while i < numDigits
        invariant 0 <= i <= numDigits
        invariant forall p :: 0 <= p < i ==> digits[numDigits - 1 - p] == CharToSegments(text[p])
      {
        digits[numDigits - 1 - i] := CharToSegments(text[i]);
        i := i + 1;
      }
      assert forall j :: 0 <= j < numDigits ==> digits[j] == CharToSegments(text[numDigits - 1 - j]);
    }

    /**
     * Shows raw segment masks: count of them that fit go to the leftmost digits
     * (the rest keep their masks); more than numDigits scroll.
     */
    method PrintSegments(segments: seq<bv8>, count: nat) returns (durationMs: int)
      requires Valid()
      requires count <= |segments|
      modifies this, digits
      ensures Valid()
      ensures period == old(period) && counter == old(counter) && switchIndex == old(switchIndex) && gpio == old(gpio)
      ensures duration == old(duration)
      ensures if count > numDigits then
          && mode == Scroll && shiftIndex == 0 && buffer == segments[..count]
          && durationMs == WrapInt32(duration * period * 100)
          && (IsInt32(duration * period * 100) ==> durationMs == duration * period * 100)
          && digits[..] == old(digits[..])
        else
          && mode == None && buffer == [] && shiftIndex == old(shiftIndex) && durationMs == 0
          && forall j :: 0 <= j < numDigits ==>
               digits[j] == if j >= numDigits - count then segments[numDigits - 1 - j] else old(digits[j])
    {
      if count > numDigits {
        shiftIndex := 0;
        mode := Scroll;
        buffer := segments[..count];
        durationMs := WrapInt32(duration * period * 100);
      } else {
        mode := None;
        buffer := [];
        var i := 0;
        while i < count
          invariant 0 <= i <= count
          invariant forall p :: 0 <= p < i ==> digits[numDigits - 1 - p] == segments[p]
          invariant forall j :: 0 <= j < numDigits - i ==> digits[j] == old(digits[j])
          modifies digits
        {
          digits[numDigits - 1 - i] := segments[i];
          i := i + 1;
        }
        durationMs := 0;
      }
    }

    /** Plays `count` segments as frames of numDigits masks each. */
    method StartAnimation(segments: seq<bv8>, count: nat) returns (durationMs: int)
      requires Valid()
      requires count <= |segments|
      modifies this
      ensures Valid()
      ensures period == old(period) && counter == old(counter) && switchIndex == old(switchIndex) && gpio == old(gpio)
      ensures duration == old(duration)
      ensures mode == Frame && IsAnimationRunning() && shiftIndex == 0 && buffer == segments[..count]
      ensures durationMs == WrapInt32(duration * period * 100)
      ensures IsInt32(duration * period * 100) ==> durationMs == duration * period * 100
    {
      shiftIndex := 0;
      mode := Frame;
      buffer := segments[..count];
      durationMs := WrapInt32(duration * period * 100);
    }

    /** Lights each segment on every digit in turn, two shifter steps per frame, nine frames. */
    method PrintTest()
      requires Valid()
      modifies this
      ensures Valid()
      ensures counter == old(counter) && switchIndex == old(switchIndex) && gpio == old(gpio)
      ensures period == 2 && duration == |TEST_SEGMENTS|
      ensures mode == Frame && shiftIndex == 0 && buffer == TestPattern(numDigits, |TEST_SEGMENTS|)
    {
      var pattern := BuildTestPattern(numDigits);
      SetAnimationTimings(2, |TEST_SEGMENTS|);
      var _ := StartAnimation(pattern[..], pattern.Length);
    }

    /** The frame buffer of PrintTest, frame after frame. */
    static method BuildTestPattern(numDigits: nat) returns (pattern: array<bv8>)
      ensures fresh(pattern) && pattern[..] == TestPattern(numDigits, |TEST_SEGMENTS|)
    {
      pattern := new bv8[numDigits * |TEST_SEGMENTS|];
      var i := 0;
      while i < |TEST_SEGMENTS|
        invariant 0 <= i <= |TEST_SEGMENTS|
        invariant pattern[..i * numDigits] == TestPattern(numDigits, i)
        modifies pattern
      {
        FrameFits(numDigits, i);
        FillFrame(pattern, numDigits, i);
        i := i + 1;
      }
      assert pattern[..] == pattern[..|TEST_SEGMENTS| * numDigits];
    }

    /** Frame i of the test pattern: every digit shows TEST_SEGMENTS[i]; the frames before stay. */
    static method FillFrame(pattern: array<bv8>, numDigits: nat, i: nat)
      requires i < |TEST_SEGMENTS| && (i + 1) * numDigits <= pattern.Length
      requires (i + 1) * numDigits == i * numDigits + numDigits
      modifies pattern
      ensures pattern[..(i + 1) * numDigits] == old(pattern[..i * numDigits]) + seq(numDigits, _ => TEST_SEGMENTS[i])
    {
      var j := 0;
      while j < numDigits
        invariant 0 <= j <= numDigits
        invariant pattern[..i * numDigits] == old(pattern[..i * numDigits])
        invariant forall q :: i * numDigits <= q < i * numDigits + j ==> pattern[q] == TEST_SEGMENTS[i]
      {
        pattern[i * numDigits + j] := TEST_SEGMENTS[i];
        j := j + 1;
      }
    }

    /** Starts the five-frame wait animation. */
    method PrintWaitIndicator()
      requires Valid()
      modifies this
      ensures Valid()
      ensures period == old(period) && duration == old(duration)
      ensures counter == old(counter) && switchIndex == old(switchIndex) && gpio == old(gpio)
      ensures mode == Frame && shiftIndex == 0 && buffer == WAIT_PATTERN
    {
      var _ := StartAnimation(WAIT_PATTERN, |WAIT_PATTERN|);
    }

    /** Sets the shifter period (in 100 ms steps) and how many steps it runs. */
    method SetAnimationTimings(period: int, duration: int := INT32_MAX)
      requires Valid()
      requires period >= 1
      modifies this
      ensures Valid()
      ensures this.period == period && this.duration == duration
      ensures mode == old(mode) && buffer == old(buffer) && shiftIndex == old(shiftIndex)
      ensures counter == old(counter) && switchIndex == old(switchIndex) && gpio == old(gpio)
    {
      this.period := period;
      this.duration := duration;
    }

    /** The 1 ms multiplexing step: hide the current digit, then show the next one. */
    method SwitcherTick()
      requires Valid()
      modifies this
      ensures Valid()
      ensures switchIndex == Wrap32(old(switchIndex) + 1)
      ensures gpio == old(gpio) + [
        HideWrite(configs[old(switchIndex) % numDigits]),
        RefreshWrite(digits[switchIndex % numDigits], configs[switchIndex % numDigits])]
      ensures mode == old(mode) && buffer == old(buffer) && shiftIndex == old(shiftIndex)
      ensures period == old(period) && duration == old(duration) && counter == old(counter)
    {
      var hidden := switchIndex % numDigits;
      switchIndex := Wrap32(switchIndex + 1);
      var shown := switchIndex % numDigits;
      gpio := gpio + [HideWrite(configs[hidden]), RefreshWrite(digits[shown], configs[shown])];
    }

    /**
     * The 100 ms shifter step: with segments to show and duration left, every
     * period-th call copies the window at shiftIndex to the digits, spends one
     * unit of duration and advances by one symbol (scroll) or one frame.
     */
    method ShifterTick()
      requires Valid()
      modifies this, digits
      ensures Valid()
      ensures mode == old(mode) && buffer == old(buffer) && period == old(period)
      ensures switchIndex == old(switchIndex) && gpio == old(gpio)
      ensures if old(buffer) == [] || old(duration) == 0 then
          && counter == old(counter) && duration == old(duration) && shiftIndex == old(shiftIndex)
          && digits[..] == old(digits[..])
        else if (old(counter) + 1) % period != 0 then
          && counter == old(counter) + 1 && duration == old(duration) && shiftIndex == old(shiftIndex)
          && digits[..] == old(digits[..])
        else
          && counter == old(counter) + 1 && duration == old(duration) - 1
          && digits[..] == Window(buffer, old(shiftIndex), numDigits)
          && shiftIndex == Wrap32(old(shiftIndex) + (if mode == Scroll then 1 else numDigits))
    {
      if buffer == [] || duration == 0 {
        return;
      }
      counter := counter + 1;
      if counter % period != 0 {
        return;
      }
      var i := 0;
      while i < numDigits
        invariant 0 <= i <= numDigits
        invariant forall j :: numDigits - i <= j < numDigits ==>
          digits[j] == buffer[Wrap32(shiftIndex + (numDigits - 1 - j)) % |buffer|]
        invariant forall j :: 0 <= j < numDigits - i ==> digits[j] == old(digits[j])
        modifies digits
      {
        digits[numDigits - 1 - i] := buffer[Wrap32(shiftIndex + i) % |buffer|];
        i := i + 1;
      }
      duration := duration - 1;
      if mode == Scroll {
        shiftIndex := Wrap32(shiftIndex + 1);
      } else {
        shiftIndex := Wrap32(shiftIndex + numDigits);
      }
    }
  }

  // ----- Lemmas -----

  /**
   * With the initial timings (period 1, duration INT32_MAX) an animation's
   * duration in milliseconds does not fit in an int: the reported value wraps
   * to -100.
   */
  lemma DefaultTimingsOverflow()
    ensures !IsInt32(INT32_MAX * 1 * 100)
    ensures WrapInt32(INT32_MAX * 1 * 100) == -100
  {
    assert INT32_MAX * 1 * 100 == 50 * TWO_32 - 100;
    assert (INT32_MAX * 1 * 100) % TWO_32 == TWO_32 - 100;
  }

  /** "---" is three characters long and encodes as three middle bars. */
  lemma OverflowTextLength()
    ensures TextLength(OVERFLOW_TEXT, -1) == 3
    ensures Encode(OVERFLOW_TEXT[..3]) == [SEG_G, SEG_G, SEG_G]
  {
    assert OVERFLOW_TEXT[1..][1..][1..] == ['\0'];
  }

  /** A window that does not run past the end is the stretch of the buffer, back to front. */
  lemma WindowWithoutWrap(buffer: seq<bv8>, shift: nat, numDigits: nat)
    requires shift + numDigits <= |buffer| && shift + numDigits <= TWO_32
    requires |buffer| > 0
    ensures Window(buffer, shift, numDigits) == Reverse(buffer[shift..shift + numDigits])
  {
    var w := Window(buffer, shift, numDigits);
    var r := Reverse(buffer[shift..shift + numDigits]);
    forall j | 0 <= j < numDigits
      ensures w[j] == r[j]
    {
      var x := shift + (numDigits - 1 - j);
      assert Wrap32(x) == x;
      SmallMod(x, |buffer|);
    }
  }

  lemma SmallMod(x: nat, m: nat)
    requires x < m
    ensures x % m == x
  {
  }

  /**
   * A text scroll with the duration computed from -1 steps through every
   * position without wrapping, and its last step shows the last numDigits symbols.
   */
  lemma ScrollEndsOnLastSymbol(buffer: seq<bv8>, numDigits: nat)
    requires |buffer| > numDigits && |buffer| <= TWO_32
    ensures var steps := ScrollDuration(-1, |buffer|, numDigits);
      && steps == |buffer| - numDigits + 1
      && (forall s :: 0 <= s < steps ==> Window(buffer, s, numDigits) == Reverse(buffer[s..s + numDigits]))
      && Window(buffer, steps - 1, numDigits) == Reverse(buffer[|buffer| - numDigits..])
  {
    var steps := ScrollDuration(-1, |buffer|, numDigits);
    forall s | 0 <= s < steps
      ensures Window(buffer, s, numDigits) == Reverse(buffer[s..s + numDigits])
    {
      WindowWithoutWrap(buffer, s, numDigits);
    }
    assert buffer[steps - 1..steps - 1 + numDigits] == buffer[|buffer| - numDigits..];
  }

  /** Frame i of the test pattern lies inside the nine frames. */
  lemma FrameFits(numDigits: nat, i: nat)
    requires i < |TEST_SEGMENTS|
    ensures (i + 1) * numDigits <= numDigits * |TEST_SEGMENTS|
    ensures (i + 1) * numDigits == i * numDigits + numDigits
  {
    assert (|TEST_SEGMENTS| - (i + 1)) * numDigits >= 0;
  }

  lemma {:induction false} TestPatternAt(numDigits: nat, frames: nat, f: nat, r: nat)
    requires frames <= |TEST_SEGMENTS| && f < frames && r < numDigits
    ensures f * numDigits + r < frames * numDigits
    ensures TestPattern(numDigits, frames)[f * numDigits + r] == TEST_SEGMENTS[f]
  {
    var prev := TestPattern(numDigits, frames - 1);
    assert |prev| == (frames - 1) * numDigits;
    if f == frames - 1 {
      assert f * numDigits + r == |prev| + r;
    } else {
      TestPatternAt(numDigits, frames - 1, f, r);
    }
  }

  /** Frame f of the test pattern lights segment f (or nothing, for the last) on every digit. */
  lemma TestFrames(numDigits: nat, f: nat)
    requires numDigits >= 1 && f < |TEST_SEGMENTS| && numDigits * |TEST_SEGMENTS| <= TWO_32
    ensures Window(TestPattern(numDigits, |TEST_SEGMENTS|), f * numDigits, numDigits)
         == seq(numDigits, _ => TEST_SEGMENTS[f])
  {
    var pattern := TestPattern(numDigits, |TEST_SEGMENTS|);
    forall j | 0 <= j < numDigits
      ensures Window(pattern, f * numDigits, numDigits)[j] == TEST_SEGMENTS[f]
    {
      TestPatternAt(numDigits, |TEST_SEGMENTS|, f, numDigits - 1 - j);
      assert |TEST_SEGMENTS| * numDigits == numDigits * |TEST_SEGMENTS|;
      assert Wrap32(f * numDigits + (numDigits - 1 - j)) == f * numDigits + (numDigits - 1 - j);
      SmallMod(f * numDigits + (numDigits - 1 - j), |pattern|);
    }
  }

  /** The wait indicator on three digits: a top bar walks down, then side bars sweep across. */
  lemma WaitIndicatorFrames()
    ensures Window(WAIT_PATTERN, 0, 3) == [SEG_D, SEG_NONE, SEG_A]
    ensures Window(WAIT_PATTERN, 3, 3) == [SEG_NONE, SEG_A | SEG_D, SEG_NONE]
    ensures Window(WAIT_PATTERN, 6, 3) == [SEG_A, SEG_NONE, SEG_D]
    ensures Window(WAIT_PATTERN, 12, 3) == [SEG_C, SEG_NONE, SEG_F]
    ensures Window(WAIT_PATTERN, 15, 3) == Window(WAIT_PATTERN, 0, 3)
  {
    var w := WAIT_PATTERN;
    WindowOfThree(w, 0);
    WindowOfThree(w, 3);
    WindowOfThree(w, 6);
    WindowOfThree(w, 12);
    WindowWrapsAround(w, 3);
  }

  /** Three digits of a window that does not wrap: digit 0, the rightmost, shows the last of the three and digit 2, the leftmost, the first. */
  lemma WindowOfThree(buffer: seq<bv8>, shift: nat)
    requires shift + 3 <= |buffer| && shift + 3 <= TWO_32
    ensures Window(buffer, shift, 3) == [buffer[shift + 2], buffer[shift + 1], buffer[shift]]
  {
    assert Wrap32(shift) == shift && Wrap32(shift + 1) == shift + 1 && Wrap32(shift + 2) == shift + 2;
    SmallMod(shift, |buffer|);
    SmallMod(shift + 1, |buffer|);
    SmallMod(shift + 2, |buffer|);
  }

  /** A window shifted by the whole buffer length is the window at 0. */
  lemma WindowWrapsAround(buffer: seq<bv8>, numDigits: nat)
    requires 0 < numDigits <= |buffer| && |buffer| + numDigits <= TWO_32
    ensures Window(buffer, |buffer|, numDigits) == Window(buffer, 0, numDigits)
  {
    forall j | 0 <= j < numDigits
      ensures Window(buffer, |buffer|, numDigits)[j] == Window(buffer, 0, numDigits)[j]
    {
      var x := numDigits - 1 - j;
      assert Wrap32(|buffer| + x) == |buffer| + x && Wrap32(x) == x;
      ModOnce(|buffer| + x, |buffer|);
      SmallMod(x, |buffer|);
    }
  }

  /** A remainder from between one and two moduli. */
  lemma ModOnce(a: nat, m: nat)
    requires 0 < m <= a < 2 * m
    ensures a % m == a - m
  {
    var q := a / m;
    assert a == q * m + a % m;
  }

  /**
   * "---" on a four-digit display reads the terminator for the rightmost digit,
   * which shows the unknown glyph SEG_D rather than a blank.
   */
  lemma OverflowTextGlyphs()
    ensures StaticGlyphs(OVERFLOW_TEXT, 3) == [SEG_G, SEG_G, SEG_G]
    ensures StaticGlyphs(OVERFLOW_TEXT, 4) == [SEG_D, SEG_G, SEG_G, SEG_G]
  {
    DashAndTerminatorGlyphs();
    var g3 := StaticGlyphs(OVERFLOW_TEXT, 3);
    var g4 := StaticGlyphs(OVERFLOW_TEXT, 4);
    assert g3[0] == g3[1] == g3[2] == SEG_G;
    assert g4[0] == SEG_D && g4[1] == g4[2] == g4[3] == SEG_G;
  }

  /** A dash is the middle bar; the terminator is an unknown character. */
  lemma DashAndTerminatorGlyphs()
    ensures CharToSegments('-') == SEG_G && CharToSegments('\0') == SEG_D
  {
    assert ToUpper('-') == '-' && ToUpper('\0') == '\0';
  }

  /**
   * A two-character text on a three-digit display shows both characters
   * on the left and the unknown glyph (from the terminator) on the right.
   */
  lemma ShortTextShowsTerminator(a: char, b: char)
    requires a != '\0' && b != '\0'
    ensures StaticGlyphs([a, b, '\0'], 3) == [SEG_D, CharToSegments(b), CharToSegments(a)]
  {
  }

  /** After Refresh only the refreshed digit's own pins may have changed. */
  lemma RefreshTouchesOwnPins(levels: map<Pin, int>, segments: bv8, c: DigitConfig, p: Pin)
    requires p in levels && p != c.pinCom && p !in c.BitMask()
    ensures p in Apply(levels, RefreshWrite(segments, c)) && Apply(levels, RefreshWrite(segments, c))[p] == levels[p]
  {
    LitPinsInBitMask(segments, c);
  }

  /** Hiding the digit that may be lit leaves every digit dark. */
  lemma HideDarkensAll(levels: map<Pin, int>, configs: seq<DigitConfig>, shown: nat)
    requires shown < |configs| && WellWired(configs)
    requires OthersDark(levels, configs, shown)
    ensures OthersDark(Apply(levels, HideWrite(configs[shown])), configs, -1)
  {
    HideLevels(levels, configs[shown]);
  }

  /** Refreshing one digit of an all-dark display leaves every other digit dark. */
  lemma RefreshLightsOnlyItself(levels: map<Pin, int>, configs: seq<DigitConfig>, segments: bv8, shown: nat)
    requires shown < |configs| && WellWired(configs)
    requires OthersDark(levels, configs, -1)
    ensures OthersDark(Apply(levels, RefreshWrite(segments, configs[shown])), configs, shown)
  {
    forall j | 0 <= j < |configs| && j != shown
      ensures configs[j].pinCom in Apply(levels, RefreshWrite(segments, configs[shown]))
      ensures Apply(levels, RefreshWrite(segments, configs[shown]))[configs[j].pinCom] == configs[j].SetActive(1)
    {
      RefreshTouchesOwnPins(levels, segments, configs[shown], configs[j].pinCom);
    }
  }

  /**
   * Multiplexing keeps at most one digit lit: if every digit but the current
   * one is dark, then after SwitcherTick's two writes every digit but the next
   * one (by the wrapped 32-bit index) is dark.
   */
  lemma SwitcherKeepsOneDigitLit(levels: map<Pin, int>, configs: seq<DigitConfig>, segments: bv8, index: U32)
    requires |configs| >= 1 && WellWired(configs)
    requires OthersDark(levels, configs, index % |configs|)
    ensures var n := |configs|;
      var next := Wrap32(index + 1) % n;
      OthersDark(
        ApplyAll(levels, [HideWrite(configs[index % n]), RefreshWrite(segments, configs[next])]),
        configs, next)
  {
    var n := |configs|;
    var next := Wrap32(index + 1) % n;
    var mid := Apply(levels, HideWrite(configs[index % n]));
    HideDarkensAll(levels, configs, index % n);
    RefreshLightsOnlyItself(mid, configs, segments, next);
    ApplyTwo(levels, HideWrite(configs[index % n]), RefreshWrite(segments, configs[next]));
  }

  /**
   * When the 32-bit switch index wraps on a three-digit display, digit 0 is
   * hidden and then shown again: digits 1 and 2 miss one turn.
   */
  lemma SwitchIndexWrapRepeatsDigit()
    ensures (TWO_32 - 1) % 3 == 0 && Wrap32(TWO_32 - 1 + 1) % 3 == 0
    ensures forall i: U32 :: i < TWO_32 - 1 ==> Wrap32(i + 1) % 3 == (i % 3 + 1) % 3
  {
  }
}

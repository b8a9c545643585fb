/**
 * The lesson-33 display (S7_Digit.cpp and S7_Display.cpp of the encoder
 * lesson): the same digit tables and pin configuration as lesson 39, but
 * digits are driven pin by pin, text has no space or dash glyph, and numbers
 * are printed without an overflow check, with an optional decimal point.
 */
module Display33 {
  import opened Io
  import opened S7Digit
  import opened S7Glyphs
  import S7Display

  // ----- Digit output -----

  /** The writes of `Hide`: every segment pin low, then COM to its off level. */
  function HideSequence(c: DigitConfig): seq<GpioWrite> {
    [OutputSet({}, c.BitMask()), SetLevel(c.pinCom, c.SetActive(1))]
  }

  /** One write per segment pin, in pin order A .. DP, each at the level that shows its bit. */
  function SegmentSequence(segments: bv8, c: DigitConfig): seq<GpioWrite> {
    [ SetLevel(c.pinA, c.SetActive(segments & SEG_A)),
      SetLevel(c.pinB, c.SetActive(segments & SEG_B)),
      SetLevel(c.pinC, c.SetActive(segments & SEG_C)),
      SetLevel(c.pinD, c.SetActive(segments & SEG_D)),
      SetLevel(c.pinE, c.SetActive(segments & SEG_E)),
      SetLevel(c.pinF, c.SetActive(segments & SEG_F)),
      SetLevel(c.pinG, c.SetActive(segments & SEG_G)),
      SetLevel(c.pinDP, c.SetActive(segments & SEG_DP)) ]
  }

  /** The writes of `Refresh`: COM off; then, for a nonzero mask, the segments and COM on. */
  function RefreshSequence(segments: bv8, c: DigitConfig): seq<GpioWrite> {
    [SetLevel(c.pinCom, c.SetActive(1))]
      + if segments != 0 then SegmentSequence(segments, c) + [SetLevel(c.pinCom, c.SetActive(0))] else []
  }

  /** `S7_Digit` of lesson 33: a stored mask, driven pin by pin. */
  class Digit {
    var config: DigitConfig
    var segments: bv8
    /** The writes this digit has performed. */
    var gpio: seq<GpioWrite>

    constructor (config: DigitConfig)
      ensures this.config == config && segments == SEG_NONE && gpio == []
    {
      this.config := config;
      segments := SEG_NONE;
      gpio := [];
    }

    /** Stores the mask; no output. */
    method SetSegments(s: bv8)
      modifies this
      ensures segments == s && config == old(config) && gpio == old(gpio)
    {
      segments := s;
    }

    method Hide()
      modifies this
      ensures gpio == old(gpio) + HideSequence(config)
      ensures segments == old(segments) && config == old(config)
    {
      gpio := gpio + [OutputSet({}, config.BitMask())];
      gpio := gpio + [SetLevel(config.pinCom, config.SetActive(1))];
    }

    method Refresh()
      modifies this
      ensures gpio == old(gpio) + RefreshSequence(segments, config)
      ensures segments == old(segments) && config == old(config)
    {
      var ws := [SetLevel(config.pinCom, config.SetActive(1))];
      if segments != 0 {
        ws := ws + SegmentSequence(segments, config);
        ws := ws + [SetLevel(config.pinCom, config.SetActive(0))];
      }
      gpio := gpio + ws;
    }
  }

  // ----- Rendering -----

  /** Lesson 33's character encoder: digits and letters only; everything else is SEG_D. */
  function CharToSegments33(c: char): bv8 {
    if '0' <= c <= '9' then DIGIT[c as int - '0' as int]
    else if 'A' <= ToUpper(c) <= 'Z' then LETTER[ToUpper(c) as int - 'A' as int]
    else SEG_D
  }

  /** The first numDigits characters of `text`, the first on the leftmost digit. */
  function TextGlyphs33(text: seq<char>, numDigits: nat): (r: seq<bv8>)
    requires |text| >= numDigits
    ensures |r| == numDigits
  {
    seq(numDigits, j requires 0 <= j < numDigits => CharToSegments33(text[numDigits - 1 - j]))
  }

  /** The glyph at position i for `Print(n, point)`; no overflow check and no zero padding. */
  function NumberGlyph33(n: int, point: int, i: nat): bv8 {
    var m := Abs(n);
    var k := DecimalLength(m);
    var dp := if i == point then SEG_DP else SEG_NONE;
    if i < k then dp | DIGIT[DropDigits(m, i) % 10]
    else if n < 0 && i == k then SEG_G
    else dp
  }

  function NumberGlyphs33(n: int, point: int, numDigits: nat): (r: seq<bv8>)
    ensures |r| == numDigits
  {
    seq(numDigits, i requires 0 <= i < numDigits => NumberGlyph33(n, point, i))
  }

  class Display {
    const numDigits: nat
    const configs: seq<DigitConfig>
    /** The stored mask of each digit; digit 0 is the rightmost. */
    const digits: array<bv8>
    /** `m_index`: a 32-bit `size_t` that wraps. */
    var index: U32
    var gpio: seq<GpioWrite>

    ghost predicate Valid()
      reads this
    {
      numDigits >= 1 && digits.Length == numDigits && |configs| == numDigits
    }

    constructor (configs: seq<DigitConfig>)
      requires |configs| >= 1
      ensures Valid() && fresh(digits)
      ensures numDigits == |configs| && this.configs == configs
      ensures forall i :: 0 <= i < numDigits ==> digits[i] == SEG_NONE
      ensures index == 0 && gpio == []
    {
      numDigits := |configs|;
      this.configs := configs;
      digits := new bv8[|configs|](_ => SEG_NONE);
      index := 0;
      gpio := [];
    }

    /** `Print(const char*)`: reads exactly numDigits characters. */
    method PrintText(text: seq<char>)
      requires Valid()
      requires |text| >= numDigits
      modifies digits
      ensures digits[..] == TextGlyphs33(text, numDigits)
    {
      var i := 0;
      while i < numDigits
        invariant 0 <= i <= numDigits
        invariant forall j :: numDigits - i <= j < numDigits ==> digits[j] == CharToSegments33(text[numDigits - 1 - j])
      {
        digits[numDigits - i - 1] := CharToSegments33(text[i]);
        i := i + 1;
      }
    }

    /** `Print(int, int)`: the low digits of n right-aligned, a minus after them, DP at `point`. */
    method PrintNumber(n: int, point: int := -1)
      requires Valid()
      requires IsInt32(n) && n != INT32_MIN
      modifies digits
      ensures digits[..] == NumberGlyphs33(n, point, numDigits)
    {
      var isNeg := n < 0;
      var m: nat := if isNeg then -n else n;
      var v := m;
      var skipRest := m == 0;
      var i := 0;
      while i < numDigits
        invariant 0 <= i <= numDigits
        invariant v == DropDigits(m, i)
        invariant skipRest <==> i >= DecimalLength(m)
        invariant isNeg <==> n < 0 && i <= DecimalLength(m)
        invariant forall j :: 0 <= j < i ==> digits[j] == NumberGlyph33(n, point, j)
      {
        DropDigitsZero(m, i);
        DropDigitsZero(m, i + 1);
        DropDigitsStep(m, i);
        var dp := if i == point then SEG_DP else SEG_NONE;
        if skipRest {
          if isNeg {
            isNeg := false;
            digits[i] := SEG_G;
          } else {
            digits[i] := dp | SEG_NONE;
          }
        } else {
          digits[i] := dp | DIGIT[v % 10];
          v := v / 10;
          skipRest := v == 0;
        }
        i := i + 1;
      }
      assert digits[..] == NumberGlyphs33(n, point, numDigits);
    }

    /** The 1 ms multiplexing step. */
    method TimerTick()
      requires Valid()
      modifies this
      ensures index == Wrap32(old(index) + 1)
      ensures gpio == old(gpio) + HideSequence(configs[old(index) % numDigits])
                                + RefreshSequence(digits[index % numDigits], configs[index % numDigits])
    {
      var hidden := index % numDigits;
      index := Wrap32(index + 1);
      var shown := index % numDigits;
      gpio := gpio + HideSequence(configs[hidden]) + RefreshSequence(digits[shown], configs[shown]);
    }
  }

  // ----- Lemmas -----

  /** Lesson 33 encodes like lesson 39 except that space and '-' become SEG_D. */
  lemma CharEncodersAgree(c: char)
    ensures c != ' ' && c != '-' ==> CharToSegments33(c) == CharToSegments(c)
    ensures CharToSegments33(' ') == SEG_D && CharToSegments33('-') == SEG_D
    ensures CharToSegments(' ') == SEG_NONE && CharToSegments('-') == SEG_G
  {
  }

  /**
   * The decimal point appears exactly at `point`, except on the minus sign;
   * removing it leaves the rendering without a point.
   */
  lemma DecimalPointOnlyAtPoint(n: int, point: int, numDigits: nat, i: nat)
    requires i < numDigits
    ensures var g := NumberGlyphs33(n, point, numDigits)[i];
      && (g & SEG_DP != 0 <==> i == point && !(n < 0 && i == DecimalLength(Abs(n))))
      && g & !SEG_DP == NumberGlyphs33(n, -1, numDigits)[i]
  {
    DigitTableShape();
  }

  /** Without a point, a number that fits renders exactly as lesson 39 renders it. */
  lemma FittingNumberAsLesson39(n: int, numDigits: nat)
    requires !Overflows(n, numDigits)
    ensures NumberGlyphs33(n, -1, numDigits) == NumberGlyphs(n, -1, numDigits)
  {
  }

  /** The glyphs of `Print(n)` decode to the digits of |n| up to the first position not shown. */
  lemma NumberDigitValues33(n: int, numDigits: nat, d: nat)
    requires d <= numDigits && d <= DecimalLength(Abs(n))
    requires d == numDigits || d == DecimalLength(Abs(n))
    ensures var ds := DigitValues(NumberGlyphs33(n, -1, numDigits));
      ShowsDigits(ds, Abs(n), 0, d) && (d == numDigits || ds[d] < 0)
  {
    var g := NumberGlyphs33(n, -1, numDigits);
    var ds := DigitValues(g);
    var m := Abs(n);
    forall j | 0 <= j < d
      ensures ds[j] == DropDigits(m, j) % 10
    {
      assert g[j] == NumberGlyph33(n, -1, j);
      DigitGlyphRoundTrip(DropDigits(m, j) % 10);
    }
    if d < numDigits {
      DigitGlyphRoundTrip(0);
      assert g[d] == NumberGlyph33(n, -1, d);
    }
    ShowsDigitsOf(ds, m, d, 0);
  }

  /** Everything past the shown digits: at most a minus sign, then blanks. */
  lemma TailAfterDigits33(n: int, numDigits: nat, d: nat)
    requires d <= numDigits
    requires d == numDigits || d == DecimalLength(Abs(n))
    ensures var rest := NumberGlyphs33(n, -1, numDigits)[d..];
      if n < 0 && d < numDigits then rest[0] == SEG_G && AllBlank(rest[1..]) else AllBlank(rest)
  {
    var rest := NumberGlyphs33(n, -1, numDigits)[d..];
    forall j | 0 <= j < |rest|
      ensures rest[j] == (if n < 0 && j == 0 then SEG_G else SEG_NONE)
    {
      assert rest[j] == NumberGlyph33(n, -1, d + j);
    }
  }

  /**
   * What `Print(n)` shows reads back as the low numDigits digits of |n|, with
   * the minus sign only when a position is left for it.
   */
  lemma PrintedNumberReadsBack33(n: int, numDigits: nat)
    requires numDigits >= 1
    ensures ReadNumber(NumberGlyphs33(n, -1, numDigits))
        == Number(if n < 0 && DecimalLength(Abs(n)) < numDigits then n else LowDigits(Abs(n), numDigits))
    ensures DecimalLength(Abs(n)) <= numDigits ==> LowDigits(Abs(n), numDigits) == Abs(n)
  {
    var m := Abs(n);
    var k := DecimalLength(m);
    var g := NumberGlyphs33(n, -1, numDigits);
    var d := if k < numDigits then k else numDigits;
    PrintedDigitsRead33(n, numDigits);
    TailAfterDigits33(n, numDigits, d);
    ReadsAs(g, d, LowDigits(m, numDigits), n < 0 && d < numDigits);
  }

  /** The digit glyphs of `Print(n)` read as the low digits of |n|, as many as fit. */
  lemma PrintedDigitsRead33(n: int, numDigits: nat)
    ensures var ds := DigitValues(NumberGlyphs33(n, -1, numDigits));
      var k := DecimalLength(Abs(n));
      && DigitCount(ds) == (if k < numDigits then k else numDigits)
      && DigitValue(ds) == LowDigits(Abs(n), numDigits)
      && (k <= numDigits ==> LowDigits(Abs(n), numDigits) == Abs(n))
  {
    var m := Abs(n);
    var k := DecimalLength(m);
    var ds := DigitValues(NumberGlyphs33(n, -1, numDigits));
    var d := if k < numDigits then k else numDigits;
    NumberDigitValues33(n, numDigits, d);
    ReadDigitRun(ds, m, d, 0);
    assert ds[0..] == ds;
    if k <= numDigits {
      LowDigitsOfShortNumber(m, d);
      LowDigitsOfShortNumber(m, numDigits);
    }
  }

  /** Zero renders all blank, apart from the decimal point. */
  lemma ZeroRendersBlank(point: int, numDigits: nat, i: nat)
    requires i < numDigits
    ensures NumberGlyphs33(0, point, numDigits)[i] == if i == point then SEG_DP else SEG_NONE
  {
  }

  /**
   * The pin levels after `Refresh`: with a nonzero mask every segment pin shows
   * its bit and COM is on; with mask 0 COM is off and nothing else moves.
   */
  lemma RefreshLevels33(levels: map<Pin, int>, segments: bv8, c: DigitConfig)
    requires c.DistinctPins()
    ensures var after := ApplyAll(levels, RefreshSequence(segments, c));
      && (segments != 0 ==>
            && (forall k :: 0 <= k < 8 ==>
                  c.SegmentPins()[k] in after && after[c.SegmentPins()[k]] == c.SetActive(segments & SEGMENTS[k]))
            && c.pinCom in after && after[c.pinCom] == c.SetActive(0))
      && (segments == 0 ==> c.pinCom in after && after[c.pinCom] == c.SetActive(1))
      && forall p :: p !in c.SegmentPins() && p != c.pinCom ==>
            (p in after <==> p in levels) && (p in levels ==> after[p] == levels[p])
  {
    var rs := RefreshSequence(segments, c);
    if segments != 0 {
      forall k | 0 <= k < 8
        ensures c.SegmentPins()[k] in ApplyAll(levels, rs)
          && ApplyAll(levels, rs)[c.SegmentPins()[k]] == c.SetActive(segments & SEGMENTS[k])
      {
        RefreshSegmentLevel(levels, segments, c, k);
      }
      RefreshShape(segments, c);
      ApplyAllLastWrite(levels, rs, 9);
    } else {
      assert rs == [SetLevel(c.pinCom, c.SetActive(1))];
      ApplyAllLastWrite(levels, rs, 0);
    }
    forall p: Pin | p !in c.SegmentPins() && p != c.pinCom
      ensures (p in ApplyAll(levels, rs) <==> p in levels) && (p in levels ==> ApplyAll(levels, rs)[p] == levels[p])
    {
      RefreshShape(segments, c);
      ApplyAllUntouched(levels, rs, p);
    }
  }

  /** The writes of a refresh, position by position: COM off, the eight segments in pin order, COM on. */
  lemma RefreshShape(segments: bv8, c: DigitConfig)
    ensures var rs := RefreshSequence(segments, c);
      && rs[0] == SetLevel(c.pinCom, c.SetActive(1))
      && (segments == 0 ==> |rs| == 1)
      && (segments != 0 ==>
            && |rs| == 10
            && (forall j :: 1 <= j < 9 ==> rs[j] == SetLevel(c.SegmentPins()[j - 1], c.SetActive(segments & SEGMENTS[j - 1])))
            && rs[9] == SetLevel(c.pinCom, c.SetActive(0)))
  {
  }

  /** Segment `k` ends at the level that shows its bit: its one write is the last write to its pin. */
  lemma RefreshSegmentLevel(levels: map<Pin, int>, segments: bv8, c: DigitConfig, k: int)
    requires c.DistinctPins() && segments != 0 && 0 <= k < 8
    ensures var after := ApplyAll(levels, RefreshSequence(segments, c));
      c.SegmentPins()[k] in after && after[c.SegmentPins()[k]] == c.SetActive(segments & SEGMENTS[k])
  {
    var rs := RefreshSequence(segments, c);
    var all := c.SegmentPins() + [c.pinCom];
    RefreshShape(segments, c);
    assert forall j :: 1 <= j < 10 ==> rs[j].SetLevel? && rs[j].pin == all[j - 1];
    ApplyAllLastWrite(levels, rs, k + 1);
  }

  /** Both `Refresh` versions leave every pin at the same level. */
  lemma RefreshAgreesWithLesson39(levels: map<Pin, int>, segments: bv8, c: DigitConfig)
    requires c.DistinctPins()
    ensures ApplyAll(levels, RefreshSequence(segments, c)) == Apply(levels, RefreshWrite(segments, c))
  {
    var a := ApplyAll(levels, RefreshSequence(segments, c));
    var b := Apply(levels, RefreshWrite(segments, c));
    forall p: Pin
      ensures (p in a <==> p in b) && (p in a ==> a[p] == b[p])
    {
      RefreshPinAgrees(levels, segments, c, p);
    }
    assert a.Keys == b.Keys;
  }

  /** One pin at a time: both `Refresh` versions leave pin p at the same level, or both leave it unset. */
  lemma RefreshPinAgrees(levels: map<Pin, int>, segments: bv8, c: DigitConfig, p: Pin)
    requires c.DistinctPins()
    ensures var a := ApplyAll(levels, RefreshSequence(segments, c));
      var b := Apply(levels, RefreshWrite(segments, c));
      (p in a <==> p in b) && (p in a ==> a[p] == b[p])
  {
    RefreshLevels33(levels, segments, c);
    RefreshLevels(levels, segments, c);
    if p in c.SegmentPins() {
      var k :| 0 <= k < 8 && c.SegmentPins()[k] == p;
    } else if p != c.pinCom {
      RefreshOtherPinKept(levels, segments, c, p);
    }
  }

  /** A pin that is neither a segment nor COM keeps its level through lesson 39's `Refresh`. */
  lemma RefreshOtherPinKept(levels: map<Pin, int>, segments: bv8, c: DigitConfig, p: Pin)
    requires p !in c.SegmentPins() && p != c.pinCom
    ensures var b := Apply(levels, RefreshWrite(segments, c));
      (p in b <==> p in levels) && (p in levels ==> b[p] == levels[p])
  {
    BitMaskIsSegmentPins(c);
    LitPinsInBitMask(segments, c);
  }

  /**
   * Lesson 33's `Hide` turns COM off like lesson 39's, but drives every segment
   * pin low whatever the polarity, where lesson 39 drives them to the unlit level.
   */
  lemma HideLevels33(levels: map<Pin, int>, c: DigitConfig)
    requires c.DistinctPins()
    ensures var after := ApplyAll(levels, HideSequence(c));
      && c.pinCom in after && after[c.pinCom] == c.SetActive(1)
      && forall p :: p in c.BitMask() ==> p in after && after[p] == LOW
  {
    ApplyTwo(levels, OutputSet({}, c.BitMask()), SetLevel(c.pinCom, c.SetActive(1)));
    BitMaskIsSegmentPins(c);
  }

  /** Hiding the digit that may be lit leaves every digit dark. */
  lemma HideDarkensAll33(levels: map<Pin, int>, configs: seq<DigitConfig>, shown: nat)
    requires shown < |configs| && S7Display.WellWired(configs)
    requires S7Display.OthersDark(levels, configs, shown)
    ensures S7Display.OthersDark(ApplyAll(levels, HideSequence(configs[shown])), configs, -1)
  {
    var c := configs[shown];
    ApplyTwo(levels, OutputSet({}, c.BitMask()), SetLevel(c.pinCom, c.SetActive(1)));
    HideLevels33(levels, c);
  }

  /** Refreshing one digit of an all-dark display leaves every other digit dark. */
  lemma RefreshLightsOnlyItself33(levels: map<Pin, int>, configs: seq<DigitConfig>, segments: bv8, shown: nat)
    requires shown < |configs| && S7Display.WellWired(configs)
    requires S7Display.OthersDark(levels, configs, -1)
    ensures S7Display.OthersDark(ApplyAll(levels, RefreshSequence(segments, configs[shown])), configs, shown)
  {
    var c := configs[shown];
    RefreshLevels33(levels, segments, c);
    BitMaskIsSegmentPins(c);
  }

  /**
   * Multiplexing keeps at most one digit lit: if every digit but the current one
   * is dark, then after a timer tick every digit but the next one is dark.
   */
  lemma TickKeepsOneDigitLit(levels: map<Pin, int>, configs: seq<DigitConfig>, segments: bv8, index: U32)
    requires |configs| >= 1 && S7Display.WellWired(configs)
    requires S7Display.OthersDark(levels, configs, index % |configs|)
    ensures var next := Wrap32(index + 1) % |configs|;
      S7Display.OthersDark(
        ApplyAll(levels, HideSequence(configs[index % |configs|]) + RefreshSequence(segments, configs[next])),
        configs, next)
  {
    var n := |configs|;
    var next := Wrap32(index + 1) % n;
    var hideWrites := HideSequence(configs[index % n]);
    ApplyAllAppend(levels, hideWrites, RefreshSequence(segments, configs[next]));
    HideDarkensAll33(levels, configs, index % n);
    RefreshLightsOnlyItself33(ApplyAll(levels, hideWrites), configs, segments, next);
  }
}

/**
 * One seven-segment digit of the lesson-39 display (S7_Digit.h, S7_Digit.cpp):
 * the segment bit constants, the DIGIT and LETTER glyph tables, the pin
 * configuration, and the GPIO set/clear masks that Hide and Refresh write.
 */
module S7Digit {
  import opened Io

  const SEG_NONE: bv8 := 0
  const SEG_A: bv8 := 1
  const SEG_B: bv8 := 2
  const SEG_C: bv8 := 4
  const SEG_D: bv8 := 8
  const SEG_E: bv8 := 16
  const SEG_F: bv8 := 32
  const SEG_G: bv8 := 64
  const SEG_DP: bv8 := 128

  /** The eight segment bits, in pin order A, B, C, D, E, F, G, DP. */
  const SEGMENTS: seq<bv8> := [SEG_A, SEG_B, SEG_C, SEG_D, SEG_E, SEG_F, SEG_G, SEG_DP]

  /** Glyphs of the decimal digits 0..9. */
  const DIGIT: seq<bv8> := [
    SEG_A | SEG_B | SEG_C | SEG_D | SEG_E | SEG_F,
    SEG_B | SEG_C,
    SEG_A | SEG_B | SEG_G | SEG_E | SEG_D,
    SEG_A | SEG_B | SEG_G | SEG_C | SEG_D,
    SEG_F | SEG_G | SEG_B | SEG_C,
    SEG_A | SEG_F | SEG_G | SEG_C | SEG_D,
    SEG_A | SEG_F | SEG_G | SEG_E | SEG_C | SEG_D,
    SEG_A | SEG_B | SEG_C,
    SEG_A | SEG_B | SEG_C | SEG_D | SEG_E | SEG_F | SEG_G,
    SEG_A | SEG_B | SEG_C | SEG_D | SEG_F | SEG_G
  ]

  /** Indices of the LETTER table (`enum class Letter`), A = 0 .. Z = 25. */
  const LETTER_S: nat := 18
  const LETTER_Z: nat := 25

  /** Approximate glyphs of the letters A..Z. */
  const LETTER: seq<bv8> := [
    SEG_A | SEG_B | SEG_C | SEG_E | SEG_F | SEG_G,   // A
    SEG_C | SEG_D | SEG_E | SEG_F | SEG_G,           // b
    SEG_D | SEG_E | SEG_G,                           // c
    SEG_B | SEG_C | SEG_D | SEG_E | SEG_G,           // d
    SEG_A | SEG_D | SEG_E | SEG_F | SEG_G,           // E
    SEG_A | SEG_E | SEG_F | SEG_G,                   // F
    SEG_A | SEG_C | SEG_D | SEG_E | SEG_F,           // G
    SEG_C | SEG_E | SEG_F | SEG_G,                   // h
    SEG_C,                                           // i
    SEG_B | SEG_C | SEG_D | SEG_E,                   // J
    SEG_E | SEG_F | SEG_G,                           // K
    SEG_D | SEG_E | SEG_F,                           // L
    SEG_A | SEG_C | SEG_E | SEG_G,                   // m
    SEG_C | SEG_E | SEG_G,                           // n
    SEG_C | SEG_D | SEG_E | SEG_G,                   // o
    SEG_A | SEG_B | SEG_E | SEG_F | SEG_G,           // P
    SEG_A | SEG_B | SEG_C | SEG_F | SEG_G,           // q
    SEG_E | SEG_G,                                   // r
    SEG_A | SEG_F | SEG_G | SEG_C | SEG_D,           // S, drawn as 5
    SEG_D | SEG_E | SEG_F | SEG_G,                   // t
    SEG_C | SEG_D | SEG_E,                           // u
    SEG_B | SEG_C | SEG_D | SEG_E | SEG_F,           // V
    SEG_B | SEG_D | SEG_F | SEG_G,                   // W
    SEG_B | SEG_C | SEG_E | SEG_F | SEG_G,           // X
    SEG_B | SEG_C | SEG_D | SEG_F | SEG_G,           // y
    SEG_A | SEG_B | SEG_G | SEG_E | SEG_D            // Z, drawn as 2
  ]

  /** `digit_config_t`: the polarity and the nine pins of one digit. */
  datatype DigitConfig = DigitConfig(
    activeLevel: int,
    pinA: Pin, pinB: Pin, pinC: Pin, pinD: Pin,
    pinE: Pin, pinF: Pin, pinG: Pin, pinDP: Pin,
    pinCom: Pin)
  {
    /** The segment pins in the order of SEGMENTS. */
    function SegmentPins(): (ps: seq<Pin>)
      ensures |ps| == 8
    {
      [pinA, pinB, pinC, pinD, pinE, pinF, pinG, pinDP]
    }

    /** No two of the nine pins coincide. */
    predicate DistinctPins() {
      var ps := SegmentPins() + [pinCom];
      forall i, j :: 0 <= i < j < |ps| ==> ps[i] != ps[j]
    }

    /** `bit_mask()`: the OR of `1 << pin` over the eight segment pins. */
    function BitMask(): set<Pin> {
      {pinA} + {pinB} + {pinC} + {pinD} + {pinE} + {pinF} + {pinG} + {pinDP}
    }

    /** `set_active(x)`: the level that makes a segment with bit value x lit. */
    function SetActive(x: bv8): int {
      if activeLevel != 0 then (if x != 0 then 1 else 0) else (if x == 0 then 1 else 0)
    }
  }

  /** The OR of `1 << pin` over the segments whose bit is set in `segments`. */
  function LitPins(segments: bv8, c: DigitConfig): set<Pin> {
    (if segments & SEG_A != 0 then {c.pinA} else {})
    + (if segments & SEG_B != 0 then {c.pinB} else {})
    + (if segments & SEG_C != 0 then {c.pinC} else {})
    + (if segments & SEG_D != 0 then {c.pinD} else {})
    + (if segments & SEG_E != 0 then {c.pinE} else {})
    + (if segments & SEG_F != 0 then {c.pinF} else {})
    + (if segments & SEG_G != 0 then {c.pinG} else {})
    + (if segments & SEG_DP != 0 then {c.pinDP} else {})
  }

  /** The single `gpio_output_set` call of `Hide`. */
  function HideWrite(c: DigitConfig): GpioWrite {
    if c.activeLevel != 0 then OutputSet({c.pinCom}, c.BitMask())
    else OutputSet(c.BitMask(), {c.pinCom})
  }

  /** The single `gpio_output_set` call of `Refresh` for the stored segment mask. */
  function RefreshWrite(segments: bv8, c: DigitConfig): GpioWrite {
    if segments != 0 then
      var lit := LitPins(segments, c);
      if c.activeLevel != 0 then OutputSet(lit, {c.pinCom} + (c.BitMask() - lit))
      else OutputSet({c.pinCom} + (c.BitMask() - lit), lit)
    else
      if c.activeLevel != 0 then OutputSet({c.pinCom}, {}) else OutputSet({}, {c.pinCom})
  }

  /** `S7_Digit`: the stored configuration and segment mask of one digit. */
  class Digit {
    var config: DigitConfig
    var segments: bv8

    /** A new digit shows nothing; its configuration is left unset until SetConfig. */
    constructor ()
      ensures segments == SEG_NONE
    {
      config := *;
      segments := SEG_NONE;
    }

    /** Stores the configuration; no output. */
    method SetConfig(c: DigitConfig)
      modifies this
      ensures config == c && segments == old(segments)
    {
      config := c;
    }

    /** Stores the segment mask; no output. */
    method SetSegments(s: bv8)
      modifies this
      ensures segments == s && config == old(config)
    {
      segments := s;
    }

    /** Switches the digit off; returns the one GPIO write it performs. */
    method Hide() returns (w: GpioWrite)
      ensures config.activeLevel != 0 ==> w == OutputSet({config.pinCom}, config.BitMask())
      ensures config.activeLevel == 0 ==> w == OutputSet(config.BitMask(), {config.pinCom})
    {
      w := HideWrite(config);
    }

    /** Shows the stored mask; returns the one GPIO write it performs. */
    method Refresh() returns (w: GpioWrite)
      ensures w == RefreshWrite(segments, config)
      ensures segments == 0 ==> w.setMask + w.clearMask == {config.pinCom}
      ensures segments != 0 && config.DistinctPins() ==>
        w.setMask !! w.clearMask && w.setMask + w.clearMask == config.BitMask() + {config.pinCom}
    {
      w := RefreshWrite(segments, config);
      if segments != 0 && config.DistinctPins() {
        RefreshPartitionsPins(segments, config);
      }
    }
  }

  // ----- Properties of the tables -----

  lemma SegmentsAreDistinctBits()
    ensures forall i :: 0 <= i < 8 ==> SEGMENTS[i] == (1 as bv8) << i
    ensures SEG_NONE == 0
  {
  }

  /** The ten digit glyphs are pairwise distinct, 8 lights A..G, and none uses DP. */
  lemma DigitTableShape()
    ensures |DIGIT| == 10
    ensures forall i, j :: 0 <= i < j < 10 ==> DIGIT[i] != DIGIT[j]
    ensures DIGIT[8] == SEG_A | SEG_B | SEG_C | SEG_D | SEG_E | SEG_F | SEG_G
    ensures forall i :: 0 <= i < 10 ==> DIGIT[i] & SEG_DP == 0 && DIGIT[i] != 0
  {
  }

  /** 26 letter glyphs, none with DP; S is drawn as 5 and Z as 2. */
  lemma LetterTableShape()
    ensures |LETTER| == 26
    ensures forall i :: 0 <= i < 26 ==> LETTER[i] & SEG_DP == 0
    ensures LETTER[LETTER_S] == DIGIT[5] && LETTER[LETTER_Z] == DIGIT[2]
  {
  }

  // ----- Properties of the pin configuration and the writes -----

  /** `bit_mask()` holds exactly the eight segment pins, so not COM when the pins are distinct. */
  lemma BitMaskIsSegmentPins(c: DigitConfig)
    ensures forall p :: p in c.BitMask() <==> p in c.SegmentPins()
    ensures c.DistinctPins() ==> c.pinCom !in c.BitMask()
  {
    if c.DistinctPins() {
      var ps := c.SegmentPins() + [c.pinCom];
      assert ps[8] == c.pinCom;
      assert ps[0] != ps[8] && ps[1] != ps[8] && ps[2] != ps[8] && ps[3] != ps[8];
      assert ps[4] != ps[8] && ps[5] != ps[8] && ps[6] != ps[8] && ps[7] != ps[8];
    }
  }

  /** A segment is lit iff its bit is set in the mask. */
  lemma LitPinsExactly(segments: bv8, c: DigitConfig, k: nat)
    requires k < 8 && c.DistinctPins()
    ensures c.SegmentPins()[k] in LitPins(segments, c) <==> segments & SEGMENTS[k] != 0
  {
    var ps := c.SegmentPins();
    var all := ps + [c.pinCom];
    forall j | 0 <= j < 8 && j != k ensures ps[j] != ps[k] {
      assert all[j] == ps[j] && all[k] == ps[k];
      if j < k { assert all[j] != all[k]; } else { assert all[k] != all[j]; }
    }
    LitPinsMember(segments, c, ps[k]);
  }

  /** Membership in the lit pins, one segment at a time. */
  lemma LitPinsMember(segments: bv8, c: DigitConfig, p: Pin)
    ensures var ps := c.SegmentPins();
      p in LitPins(segments, c) <==> exists j :: 0 <= j < 8 && ps[j] == p && segments & SEGMENTS[j] != 0
  {
    var ps := c.SegmentPins();
    if p in LitPins(segments, c) {
      var j := LitWitness(segments, c, p);
    } else {
      forall j | 0 <= j < 8 && ps[j] == p
        ensures segments & SEGMENTS[j] == 0
      {
        if segments & SEGMENTS[j] != 0 {
          SegmentLit(segments, c, j);
          assert false;
        }
      }
    }
  }

  /** The segment a lit pin belongs to. */
  lemma LitWitness(segments: bv8, c: DigitConfig, p: Pin) returns (j: nat)
    requires p in LitPins(segments, c)
    ensures j < 8 && c.SegmentPins()[j] == p && segments & SEGMENTS[j] != 0
  {
    if p == c.pinA && segments & SEG_A != 0 { j := 0; }
    else if p == c.pinB && segments & SEG_B != 0 { j := 1; }
    else if p == c.pinC && segments & SEG_C != 0 { j := 2; }
    else if p == c.pinD && segments & SEG_D != 0 { j := 3; }
    else if p == c.pinE && segments & SEG_E != 0 { j := 4; }
    else if p == c.pinF && segments & SEG_F != 0 { j := 5; }
    else if p == c.pinG && segments & SEG_G != 0 { j := 6; }
    else { j := 7; }
  }

  /** A segment whose bit is set has its pin lit. */
  lemma SegmentLit(segments: bv8, c: DigitConfig, j: nat)
    requires j < 8 && segments & SEGMENTS[j] != 0
    ensures c.SegmentPins()[j] in LitPins(segments, c)
  {
  }

  /** Only segment pins are ever lit. */
  lemma LitPinsInBitMask(segments: bv8, c: DigitConfig)
    ensures LitPins(segments, c) <= c.BitMask()
  {
  }

  /** For a nonzero mask, Refresh splits the segment pins and COM between set and clear. */
  lemma RefreshPartitionsPins(segments: bv8, c: DigitConfig)
    requires segments != 0 && c.DistinctPins()
    ensures var w := RefreshWrite(segments, c);
      w.setMask !! w.clearMask && w.setMask + w.clearMask == c.BitMask() + {c.pinCom}
  {
    var lit := LitPins(segments, c);
    var rest := {c.pinCom} + (c.BitMask() - lit);
    BitMaskIsSegmentPins(c);
    LitPinsInBitMask(segments, c);
    assert lit !! rest;
    assert lit + rest == c.BitMask() + {c.pinCom};
  }

  /**
   * What the pins show after Refresh: with a nonzero mask every segment pin is at
   * `set_active(bit)` and COM at its on level `set_active(0)`; with mask 0 only COM
   * moves, to its off level `set_active(1)`.
   */
  lemma {:induction false} RefreshLevels(levels: map<Pin, int>, segments: bv8, c: DigitConfig)
    requires c.DistinctPins()
    ensures var after := Apply(levels, RefreshWrite(segments, c));
      && (segments != 0 ==>
            && (forall k :: 0 <= k < 8 ==>
                  c.SegmentPins()[k] in after && after[c.SegmentPins()[k]] == c.SetActive(segments & SEGMENTS[k]))
            && c.pinCom in after && after[c.pinCom] == c.SetActive(0))
      && (segments == 0 ==>
            && c.pinCom in after && after[c.pinCom] == c.SetActive(1)
            && forall p :: p in levels && p != c.pinCom ==> p in after && after[p] == levels[p])
  {
    var after := Apply(levels, RefreshWrite(segments, c));
    BitMaskIsSegmentPins(c);
    if segments != 0 {
      forall k | 0 <= k < 8
        ensures c.SegmentPins()[k] in after && after[c.SegmentPins()[k]] == c.SetActive(segments & SEGMENTS[k])
      {
        RefreshSegmentAt(levels, segments, c, k);
      }
      LitPinsInBitMask(segments, c);
    }
  }

  /** Segment `k` after Refresh with a nonzero mask: set when its bit shows it lit, cleared otherwise. */
  lemma RefreshSegmentAt(levels: map<Pin, int>, segments: bv8, c: DigitConfig, k: nat)
    requires c.DistinctPins() && segments != 0 && k < 8
    ensures var after := Apply(levels, RefreshWrite(segments, c));
      c.SegmentPins()[k] in after && after[c.SegmentPins()[k]] == c.SetActive(segments & SEGMENTS[k])
  {
    var p := c.SegmentPins()[k];
    var lit := LitPins(segments, c);
    BitMaskIsSegmentPins(c);
    LitPinsExactly(segments, c, k);
    assert p in c.BitMask() && p != c.pinCom;
    if p in lit {
      assert p !in {c.pinCom} + (c.BitMask() - lit);
    } else {
      assert p in {c.pinCom} + (c.BitMask() - lit);
    }
  }

  /** After Hide the digit is dark: COM at its off level and every segment pin at the unlit level. */
  lemma HideLevels(levels: map<Pin, int>, c: DigitConfig)
    requires c.DistinctPins()
    ensures var after := Apply(levels, HideWrite(c));
      && c.pinCom in after && after[c.pinCom] == c.SetActive(1)
      && forall k :: 0 <= k < 8 ==>
           c.SegmentPins()[k] in after && after[c.SegmentPins()[k]] == c.SetActive(0)
  {
    BitMaskIsSegmentPins(c);
  }

  /** COM's on level is the opposite of a lit segment's level. */
  lemma ComOnOppositeToLit(c: DigitConfig, x: bv8)
    requires x != 0
    ensures c.SetActive(0) == 1 - c.SetActive(x)
    ensures c.SetActive(0) != c.SetActive(1)
  {
  }
}

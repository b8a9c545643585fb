/**
 * Rendering text and numbers as segment masks for the lesson-39 display
 * (S7_Display.cpp: `char_to_segments` and the digit arithmetic of
 * `PrintNumber`), together with a reader that turns rendered glyphs back
 * into a number, used to state what `PrintNumber` shows.
 */
module S7Glyphs {
  import opened Io
  import opened S7Digit

  /** `toupper` in the C locale. */
  function ToUpper(c: char): char {
    if 'a' <= c <= 'z' then (c as int - 32) as char else c
  }

  /**
   * `char_to_segments`: a decimal digit, then a letter of either case, then space,
   * then '-'; anything else (including '\0') is the "unknown" glyph SEG_D.
   */
  function CharToSegments(c: char): bv8 {
    if '0' <= c <= '9' then DIGIT[c as int - '0' as int]
    else if 'A' <= ToUpper(c) <= 'Z' then LETTER[ToUpper(c) as int - 'A' as int]
    else if c == ' ' then SEG_NONE
    else if c == '-' then SEG_G
    else SEG_D
  }

  /** The glyphs of each character of `text`, in text order. */
  function Encode(text: seq<char>): (r: seq<bv8>)
    ensures |r| == |text| && forall i :: 0 <= i < |text| ==> r[i] == CharToSegments(text[i])
  {
    seq(|text|, i requires 0 <= i < |text| => CharToSegments(text[i]))
  }

  /** `s` back to front. */
  function Reverse<T>(s: seq<T>): (r: seq<T>)
    ensures |r| == |s| && forall j :: 0 <= j < |s| ==> r[j] == s[|s| - 1 - j]
  {
    seq(|s|, j requires 0 <= j < |s| => s[|s| - 1 - j])
  }

  /** The position of `g` in `t`, or -1 when it does not occur. */
  function IndexOf(t: seq<bv8>, g: bv8): (r: int)
    ensures -1 <= r < |t|
    ensures r == -1 <==> g !in t
    ensures r >= 0 ==> t[r] == g && g !in t[..r]
  {
    if t == [] then -1
    else if t[0] == g then 0
    else
      var r := IndexOf(t[1..], g);
      assert t[1..][..if r < 0 then 0 else r] == t[1..1 + if r < 0 then 0 else r];
      if r < 0 then -1 else 1 + r
  }

  /** `strlen`: the position of the first '\0'. */
  function StrLen(text: seq<char>): (r: nat)
    requires '\0' in text
    ensures r < |text| && text[r] == '\0' && '\0' !in text[..r]
  {
    if text[0] == '\0' then 0
    else
      var r := StrLen(text[1..]);
      assert text[1..][..r] == text[1..r + 1];
      1 + r
  }

  // ----- Decimal digits -----

  /** The value left after dividing by ten `i` times, as the rendering loops do. */
  function DropDigits(m: nat, i: nat): nat {
    if i == 0 then m else DropDigits(m / 10, i - 1)
  }

  /** The number of decimal digits of m; 0 for m = 0 (the loop in PrintNumber never runs). */
  function DecimalLength(m: nat): nat {
    if m == 0 then 0 else 1 + DecimalLength(m / 10)
  }

  /** The value of the lowest `count` decimal digits of m. */
  function LowDigits(m: nat, count: nat): nat {
    if count == 0 then 0 else m % 10 + 10 * LowDigits(m / 10, count - 1)
  }

  function Abs(n: int): nat { if n < 0 then -n else n }

  /** PrintNumber's overflow test: too many digits, or no room left for the minus sign. */
  predicate Overflows(n: int, numDigits: nat) {
    var k := DecimalLength(Abs(n));
    k > numDigits || (n < 0 && k > numDigits - 1)
  }

  /** Where PrintNumber puts the minus sign: the first position past both the digits and the cursor. */
  function MinusPosition(n: int, inputPosition: int): int {
    var k := DecimalLength(Abs(n));
    if k >= inputPosition + 1 then k else inputPosition + 1
  }

  /** The glyph PrintNumber writes at position i (0 is the rightmost digit). */
  function NumberGlyph(n: int, inputPosition: int, i: nat): bv8 {
    var m := Abs(n);
    if i < DecimalLength(m) then DIGIT[DropDigits(m, i) % 10]
    else if i <= inputPosition then DIGIT[0]
    else if n < 0 && i == MinusPosition(n, inputPosition) then SEG_G
    else SEG_NONE
  }

  /** The glyphs PrintNumber writes to digits 0 .. numDigits-1 when the number fits. */
  function NumberGlyphs(n: int, inputPosition: int, numDigits: nat): (r: seq<bv8>)
    ensures |r| == numDigits
  {
    seq(numDigits, i requires 0 <= i < numDigits => NumberGlyph(n, inputPosition, i))
  }

  // ----- Reading a rendered number back -----

  datatype Reading = Number(value: int) | Unreadable

  /** The digit each glyph shows, or -1 for a glyph that is not a digit. */
  function DigitValues(g: seq<bv8>): (r: seq<int>)
    ensures |r| == |g| && forall j :: 0 <= j < |g| ==> r[j] == IndexOf(DIGIT, g[j])
  {
    seq(|g|, j requires 0 <= j < |g| => IndexOf(DIGIT, g[j]))
  }

  /** How many digits `ds` starts with. */
  function DigitCount(ds: seq<int>): (r: nat)
    ensures r <= |ds|
  {
    if ds == [] || ds[0] < 0 then 0 else DigitCount(ds[1..]) + 1
  }

  /** The value of the digits `ds` starts with, position 0 least significant. */
  function DigitValue(ds: seq<int>): nat {
    if ds == [] || ds[0] < 0 then 0 else ds[0] + 10 * DigitValue(ds[1..])
  }

  predicate AllBlank(g: seq<bv8>) { forall i :: 0 <= i < |g| ==> g[i] == SEG_NONE }

  /**
   * What a reader sees on the digits: decimal digit glyphs from the right, then
   * optionally a minus glyph, then blanks. An all-blank display reads as 0.
   */
  function ReadNumber(g: seq<bv8>): Reading {
    var ds := DigitValues(g);
    var v := DigitValue(ds);
    var c := DigitCount(ds);
    var rest := g[c..];
    if AllBlank(rest) then Number(v)
    else if rest[0] == SEG_G && AllBlank(rest[1..]) then Number(-(v as int))
    else Unreadable
  }

  // ----- Lemmas -----

  lemma {:induction false} IndexOfDistinct(t: seq<bv8>, d: nat)
    requires d < |t|
    requires forall i, j :: 0 <= i < j < |t| ==> t[i] != t[j]
    ensures IndexOf(t, t[d]) == d
  {
    if d > 0 {
      assert t[0] != t[d];
      assert t[1..][d - 1] == t[d];
      IndexOfDistinct(t[1..], d - 1);
    }
  }

  /** Decoding a digit glyph gives its digit back; blank and minus are not digits. */
  lemma DigitGlyphRoundTrip(d: nat)
    requires d < 10
    ensures IndexOf(DIGIT, DIGIT[d]) == d
    ensures IndexOf(DIGIT, SEG_NONE) == -1 && IndexOf(DIGIT, SEG_G) == -1
  {
    DigitTableShape();
    IndexOfDistinct(DIGIT, d);
    NotDigitGlyphs();
  }

  /** Neither the blank nor the middle bar is a digit glyph. */
  lemma NotDigitGlyphs()
    ensures SEG_NONE !in DIGIT && SEG_G !in DIGIT
  {
    forall i | 0 <= i < |DIGIT|
      ensures DIGIT[i] != SEG_NONE && DIGIT[i] != SEG_G
    {
      DigitTableShape();
    }
  }

  /** A decimal character's glyph decodes back to the character's value. */
  lemma DigitCharRoundTrip(c: char)
    requires '0' <= c <= '9'
    ensures IndexOf(DIGIT, CharToSegments(c)) == c as int - '0' as int
  {
    DigitGlyphRoundTrip(c as int - '0' as int);
  }

  /** Letters are case-insensitive and use the letter table; space is blank and '-' the middle bar. */
  lemma LetterCharGlyphs(c: char)
    ensures 'a' <= c <= 'z' ==> CharToSegments(c) == CharToSegments((c as int - 32) as char)
    ensures 'A' <= c <= 'Z' ==> CharToSegments(c) == LETTER[c as int - 'A' as int]
    ensures CharToSegments(' ') == SEG_NONE && CharToSegments('-') == SEG_G
  {
    if 'a' <= c <= 'z' {
      LowerLetterGlyph(c);
    } else if 'A' <= c <= 'Z' {
      UpperLetterGlyph(c);
    }
    assert ToUpper(' ') == ' ' && ToUpper('-') == '-';
  }

  /** A capital letter indexes the letter table. */
  lemma UpperLetterGlyph(c: char)
    requires 'A' <= c <= 'Z'
    ensures CharToSegments(c) == LETTER[c as int - 'A' as int]
  {
    assert ToUpper(c) == c;
    assert !('0' <= c <= '9');
  }

  /** A small letter shows as its capital. */
  lemma LowerLetterGlyph(c: char)
    requires 'a' <= c <= 'z'
    ensures CharToSegments(c) == CharToSegments((c as int - 32) as char)
  {
    var u := (c as int - 32) as char;
    assert ToUpper(c) == u && ToUpper(u) == u;
    assert !('0' <= c <= '9') && !('0' <= u <= '9');
  }

  /** '\0' and the neighbours of the letters, '@' and '[', are shown as the unknown glyph. */
  lemma UnknownCharGlyphs()
    ensures CharToSegments('\0') == SEG_D && CharToSegments('@') == SEG_D && CharToSegments('[') == SEG_D
    ensures CharToSegments('`') == SEG_D && CharToSegments('{') == SEG_D
  {
  }

  /** No character lights the decimal point. */
  lemma CharGlyphHasNoPoint(c: char)
    ensures CharToSegments(c) & SEG_DP == 0
  {
    DigitTableShape();
    LetterTableShape();
    if '0' <= c <= '9' {
      var d := c as int - '0' as int;
      assert DIGIT[d] & SEG_DP == 0;
    } else if 'A' <= ToUpper(c) <= 'Z' {
      var l := ToUpper(c) as int - 'A' as int;
      assert LETTER[l] & SEG_DP == 0;
    }
  }

  lemma {:induction false} DropDigitsStep(m: nat, i: nat)
    ensures DropDigits(m, i + 1) == DropDigits(m, i) / 10
  {
    if i > 0 {
      DropDigitsStep(m / 10, i - 1);
    }
  }

  /** Dividing by ten i times reaches 0 exactly when i covers every digit. */
  lemma {:induction false} DropDigitsZero(m: nat, i: nat)
    ensures DropDigits(m, i) == 0 <==> i >= DecimalLength(m)
  {
    if i > 0 && m > 0 {
      DropDigitsZero(m / 10, i - 1);
    } else if i > 0 {
      DropDigitsOfZero(i);
    }
  }

  lemma {:induction false} DropDigitsOfZero(i: nat)
    ensures DropDigits(0, i) == 0
  {
    if i > 0 {
      DropDigitsOfZero(i - 1);
    }
  }

  /** Below the minus position every glyph is the digit of the (zero-padded) number. */
  lemma {:induction false} DigitGlyphAt(n: int, inputPosition: int, i: nat)
    requires i < MinusPosition(n, inputPosition)
    ensures NumberGlyph(n, inputPosition, i) == DIGIT[DropDigits(Abs(n), i) % 10]
  {
    DropDigitsZero(Abs(n), i);
  }

  /** One step of PrintNumber's digit loop: the digits left after i and i + 1 places, and the glyph at i. */
  lemma NumberGlyphStep(n: int, inputPosition: int, i: nat)
    ensures var m := Abs(n);
      && (DropDigits(m, i) == 0 <==> i >= DecimalLength(m))
      && (DropDigits(m, i + 1) == 0 <==> i + 1 >= DecimalLength(m))
      && DropDigits(m, i + 1) == DropDigits(m, i) / 10
      && (i < DecimalLength(m) ==> NumberGlyph(n, inputPosition, i) == DIGIT[DropDigits(m, i) % 10])
  {
    DropDigitsZero(Abs(n), i);
    DropDigitsZero(Abs(n), i + 1);
    DropDigitsStep(Abs(n), i);
  }

  /** From the minus position on there is no digit glyph. */
  lemma {:induction false} NonDigitGlyphAt(n: int, inputPosition: int, i: nat)
    requires i >= MinusPosition(n, inputPosition)
    ensures NumberGlyph(n, inputPosition, i) == (if n < 0 && i == MinusPosition(n, inputPosition) then SEG_G else SEG_NONE)
    ensures IndexOf(DIGIT, NumberGlyph(n, inputPosition, i)) == -1
  {
    DigitGlyphRoundTrip(0);
  }

  /** Positions i .. d-1 hold the decimal digits of x, least significant first. */
  predicate ShowsDigits(ds: seq<int>, x: nat, i: nat, d: nat)
    decreases d - i
  {
    i >= d || (i < |ds| && ds[i] == x % 10 && ShowsDigits(ds, x / 10, i + 1, d))
  }

  /** The digits of x at i .. d-1, followed by a non-digit or the end, read as the low d - i digits of x. */
  lemma {:induction false} ReadDigitRun(ds: seq<int>, x: nat, d: nat, i: nat)
    requires i <= d <= |ds|
    requires ShowsDigits(ds, x, i, d)
    requires d == |ds| || ds[d] < 0
    ensures DigitValue(ds[i..]) == LowDigits(x, d - i)
    ensures DigitCount(ds[i..]) == d - i
    decreases d - i
  {
    if i == d {
      if d == |ds| {
        assert ds[d..] == [];
      } else {
        assert ds[d..][0] == ds[d];
      }
    } else {
      ReadDigitRun(ds, x / 10, d, i + 1);
      assert ds[i..][1..] == ds[i + 1..];
    }
  }

  /** Digit j of m at each position j from i to d - 1 shows the digits of m from position i on. */
  lemma {:induction false} ShowsDigitsOf(ds: seq<int>, m: nat, d: nat, i: nat)
    requires i <= d <= |ds|
    requires forall j :: i <= j < d ==> ds[j] == DropDigits(m, j) % 10
    ensures ShowsDigits(ds, DropDigits(m, i), i, d)
    decreases d - i
  {
    if i < d {
      ShowsDigitsOf(ds, m, d, i + 1);
      DropDigitsStep(m, i);
    }
  }

  /** Keeping at least as many digits as m has keeps all of m. */
  lemma {:induction false} LowDigitsOfShortNumber(m: nat, count: nat)
    requires DecimalLength(m) <= count
    ensures LowDigits(m, count) == m
  {
    if count > 0 {
      LowDigitsOfShortNumber(m / 10, count - 1);
    }
  }

  /** Everything past the digit glyphs: at most a minus sign, then blanks. */
  lemma TailAfterDigits(n: int, inputPosition: int, numDigits: nat, d: nat)
    requires d == MinusPosition(n, inputPosition) && d <= numDigits
    ensures var rest := NumberGlyphs(n, inputPosition, numDigits)[d..];
      if n < 0 && d < numDigits then rest[0] == SEG_G && AllBlank(rest[1..]) else AllBlank(rest)
  {
    var rest := NumberGlyphs(n, inputPosition, numDigits)[d..];
    forall j | 0 <= j < |rest|
      ensures rest[j] == (if n < 0 && j == 0 then SEG_G else SEG_NONE)
    {
      NonDigitGlyphAt(n, inputPosition, d + j);
    }
  }

  /**
   * What PrintNumber shows reads back as the number it was given, except that a
   * negative number loses its minus sign when the cursor covers every position.
   */
  lemma PrintedNumberReadsBack(n: int, inputPosition: int, numDigits: nat)
    requires numDigits >= 1 && !Overflows(n, numDigits)
    ensures ReadNumber(NumberGlyphs(n, inputPosition, numDigits))
         == Number(if n < 0 && inputPosition >= numDigits - 1 then -n else n)
  {
    var g := NumberGlyphs(n, inputPosition, numDigits);
    var mp := MinusPosition(n, inputPosition);
    var d := if mp < numDigits then mp else numDigits;
    var negative := n < 0 && mp < numDigits;
    PrintedDigitsRead(n, inputPosition, numDigits, g, d);
    PrintedTail(n, inputPosition, numDigits, g, d, negative);
    ReadsAs(g, d, Abs(n), negative);
    SignKept(n, inputPosition, numDigits);
  }

  /** The sign read back: a negative number keeps it exactly when its minus sign has a position. */
  lemma SignKept(n: int, inputPosition: int, numDigits: nat)
    requires numDigits >= 1 && !Overflows(n, numDigits)
    ensures var negative := n < 0 && MinusPosition(n, inputPosition) < numDigits;
      (if negative then -(Abs(n) as int) else Abs(n)) == (if n < 0 && inputPosition >= numDigits - 1 then -n else n)
  {
    MinusShownIff(n, inputPosition, numDigits);
  }

  /** Past the `d` digit glyphs PrintNumber leaves the minus sign, when it has a position, and blanks. */
  lemma PrintedTail(n: int, inputPosition: int, numDigits: nat, g: seq<bv8>, d: nat, negative: bool)
    requires g == NumberGlyphs(n, inputPosition, numDigits)
    requires d == (if MinusPosition(n, inputPosition) < numDigits then MinusPosition(n, inputPosition) else numDigits)
    requires negative == (n < 0 && MinusPosition(n, inputPosition) < numDigits)
    ensures d <= |g|
    ensures negative ==> |g| > d && g[d..][0] == SEG_G && AllBlank(g[d..][1..])
    ensures !negative ==> AllBlank(g[d..])
  {
    var mp := MinusPosition(n, inputPosition);
    if mp <= numDigits {
      TailAfterDigits(n, inputPosition, numDigits, mp);
    } else {
      assert g[numDigits..] == [];
    }
  }

  /** With the number fitting, the minus sign has a position left exactly when the cursor does not cover the last one. */
  lemma MinusShownIff(n: int, inputPosition: int, numDigits: nat)
    requires numDigits >= 1 && !Overflows(n, numDigits)
    ensures n < 0 ==> (MinusPosition(n, inputPosition) < numDigits <==> inputPosition < numDigits - 1)
  {
  }

  /**
   * The reader's rule: `d` digit glyphs of value v, then a minus glyph and
   * blanks (`negative`) or only blanks, read as -v or v.
   */
  lemma ReadsAs(g: seq<bv8>, d: nat, v: nat, negative: bool)
    requires d <= |g| && DigitCount(DigitValues(g)) == d && DigitValue(DigitValues(g)) == v
    requires negative ==> |g| > d && g[d..][0] == SEG_G && AllBlank(g[d..][1..])
    requires !negative ==> AllBlank(g[d..])
    ensures ReadNumber(g) == Number(if negative then -(v as int) else v)
  {
    if negative {
      ReadsNegative(g, d, v);
    } else {
      ReadsNonNegative(g, d, v);
    }
  }

  /** `d` digit glyphs of value v followed by blanks read as v. */
  lemma ReadsNonNegative(g: seq<bv8>, d: nat, v: nat)
    requires d <= |g| && DigitCount(DigitValues(g)) == d && DigitValue(DigitValues(g)) == v
    requires AllBlank(g[d..])
    ensures ReadNumber(g) == Number(v)
  {
  }

  /** `d` digit glyphs of value v followed by a minus glyph and blanks read as -v. */
  lemma ReadsNegative(g: seq<bv8>, d: nat, v: nat)
    requires d <= |g| && DigitCount(DigitValues(g)) == d && DigitValue(DigitValues(g)) == v
    requires |g| > d && g[d..][0] == SEG_G && AllBlank(g[d..][1..])
    ensures ReadNumber(g) == Number(-(v as int))
  {
    assert g[d..][0] != SEG_NONE;
  }

  /** The digit glyphs PrintNumber writes, up to the minus position or the last digit, read as |n|. */
  lemma PrintedDigitsRead(n: int, inputPosition: int, numDigits: nat, g: seq<bv8>, d: nat)
    requires !Overflows(n, numDigits)
    requires g == NumberGlyphs(n, inputPosition, numDigits)
    requires d == (if MinusPosition(n, inputPosition) < numDigits then MinusPosition(n, inputPosition) else numDigits)
    ensures DigitCount(DigitValues(g)) == d && DigitValue(DigitValues(g)) == Abs(n)
  {
    NumberDigitValues(n, inputPosition, numDigits, d);
    DigitsBeforeMinus(n, inputPosition, numDigits);
    WholeDigitRun(DigitValues(g), Abs(n), d);
  }

  /** The digits of |n| all come before the minus position and within the display. */
  lemma DigitsBeforeMinus(n: int, inputPosition: int, numDigits: nat)
    requires !Overflows(n, numDigits)
    ensures DecimalLength(Abs(n)) <= MinusPosition(n, inputPosition) && DecimalLength(Abs(n)) <= numDigits
  {
  }

  /** A run of all the digits of x from position 0, ended by a non-digit or the end, reads as x. */
  lemma WholeDigitRun(ds: seq<int>, x: nat, d: nat)
    requires d <= |ds| && ShowsDigits(ds, x, 0, d) && (d == |ds| || ds[d] < 0)
    requires DecimalLength(x) <= d
    ensures DigitCount(ds) == d && DigitValue(ds) == x
  {
    ReadDigitRun(ds, x, d, 0);
    assert ds[0..] == ds;
    LowDigitsOfShortNumber(x, d);
  }

  /** The printed glyphs decode to the digits of |n| up to the minus position. */
  lemma NumberDigitValues(n: int, inputPosition: int, numDigits: nat, d: nat)
    requires d <= numDigits && d <= MinusPosition(n, inputPosition)
    requires d == numDigits || d == MinusPosition(n, inputPosition)
    ensures var ds := DigitValues(NumberGlyphs(n, inputPosition, numDigits));
      ShowsDigits(ds, Abs(n), 0, d) && (d == numDigits || ds[d] < 0)
  {
    var ds := DigitValues(NumberGlyphs(n, inputPosition, numDigits));
    var m := Abs(n);
    forall j | 0 <= j < d
      ensures ds[j] == DropDigits(m, j) % 10
    {
      DigitGlyphAt(n, inputPosition, j);
      DigitGlyphRoundTrip(DropDigits(m, j) % 10);
    }
    if d < numDigits {
      NonDigitGlyphAt(n, inputPosition, d);
    }
    ShowsDigitsOf(ds, m, d, 0);
  }

  /** Zero with the default cursor -1 leaves every digit blank. */
  lemma ZeroPrintsBlank(numDigits: nat)
    ensures AllBlank(NumberGlyphs(0, -1, numDigits))
  {
  }

  /** A negative number's minus sign goes right after its most significant digit when the cursor is behind it. */
  lemma MinusNextToDigits(n: int, inputPosition: int, numDigits: nat)
    requires n < 0 && !Overflows(n, numDigits) && inputPosition < DecimalLength(Abs(n))
    ensures DecimalLength(Abs(n)) < numDigits
    ensures NumberGlyphs(n, inputPosition, numDigits)[DecimalLength(Abs(n))] == SEG_G
  {
  }
}

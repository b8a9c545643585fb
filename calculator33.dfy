/**
 * The lesson-33 calculator (Calculator.cpp of the encoder lesson): digits are
 * entered one position at a time with the rotary encoder, a click moves on,
 * and the four-state machine FirstArg -> Operator -> SecondArg -> Result
 * prints every step on the seven-segment display.
 */
module Calculator33 {
  import opened Io
  import opened S7Digit
  import opened S7Glyphs
  import opened CalcCore
  import Display33

  class Calculator {
    const numDigits: nat
    /** `m_digits`: the digits being entered, digit 0 least significant. */
    const digits: array<int>
    var digIndex: int
    var arg1: int
    var arg2: int
    var op: Op
    var state: CalcState
    /** The display calls made so far. */
    var log: seq<DisplayCall>

    ghost predicate Valid()
      reads this, digits
    {
      && 1 <= numDigits <= 9 && digits.Length == numDigits
      && AllDecimal(digits[..])
      && (state == FirstArg || state == SecondArg ==> 0 <= digIndex < numDigits)
      && (state == Operator || state == Result ==> digIndex == numDigits)
      && (state == FirstArg || state == Operator ==> arg1 == DigitsValue(digits[..]))
      && (state == SecondArg || state == Result ==> arg2 == DigitsValue(digits[..]))
      && 0 <= arg1 < Pow10(numDigits) && 0 <= arg2 < Pow10(numDigits)
    }

    /** Builds the calculator, resets it and shows the first argument, 0. */
    constructor (numDigits: nat)
      requires 1 <= numDigits <= 9
      ensures Valid() && fresh(digits)
      ensures this.numDigits == numDigits
      ensures state == FirstArg && digIndex == 0 && op == Add && arg1 == 0 && arg2 == 0
      ensures forall i :: 0 <= i < numDigits ==> digits[i] == 0
      ensures log == [PrintNumber(0, 0)]
    {
      this.numDigits := numDigits;
      digits := new int[numDigits];
      log := [];
      new;
      Reset();
      ZeroDigitsValue(digits[..]);
      UpdateDisplay();
    }

    /** `reset`: both arguments, the cursor and the digits to zero, operator Add, state FirstArg. */
    method Reset()
      requires digits.Length == numDigits
      modifies this, digits
      ensures arg1 == 0 && arg2 == 0 && digIndex == 0 && op == Add && state == FirstArg
      ensures forall i :: 0 <= i < numDigits ==> digits[i] == 0
      ensures log == old(log)
    {
      arg1 := 0;
      arg2 := 0;
      digIndex := 0;
      op := Add;
      state := FirstArg;
      ClearDigits();
    }

    /** `clear_digits`: every digit to zero. */
    method ClearDigits()
      modifies digits
      ensures forall i :: 0 <= i < digits.Length ==> digits[i] == 0
    {
      forall i | 0 <= i < digits.Length {
        digits[i] := 0;
      }
    }

    /** `calculate`: the value of the digits, accumulated with a running power of ten. */
    method Calculate() returns (arg: int)
      requires digits.Length == numDigits <= 9 && AllDecimal(digits[..])
      ensures arg == DigitsValue(digits[..])
      ensures 0 <= arg < Pow10(numDigits)
    {
      arg := 0;
      var i := 0;
      var n := 1;
      while i < numDigits
        invariant 0 <= i <= numDigits
        invariant n == Pow10(i)
        invariant arg == DigitsValue(digits[..i])
      {
        assert digits[..i + 1] == digits[..i] + [digits[i]];
        DigitsValueAppend(digits[..i], digits[i]);
        arg := arg + n * digits[i];
        i := i + 1;
        n := n * 10;
      }
      assert digits[..numDigits] == digits[..];
      DigitsValueBounds(digits[..]);
    }

    /** `update_display`: the current argument with the point at the cursor, the operator's name, or the result. */
    method UpdateDisplay()
      requires digits.Length == numDigits <= 9 && AllDecimal(digits[..])
      requires state == Result ==> Defined(op, arg1, arg2)
      modifies this
      ensures state == old(state) && op == old(op) && digIndex == old(digIndex)
      ensures state == FirstArg ==> arg1 == DigitsValue(digits[..]) && arg2 == old(arg2)
                                    && 0 <= arg1 < Pow10(numDigits)
                                    && log == old(log) + [PrintNumber(arg1, digIndex)]
      ensures state == SecondArg ==> arg2 == DigitsValue(digits[..]) && arg1 == old(arg1)
                                     && 0 <= arg2 < Pow10(numDigits)
                                     && log == old(log) + [PrintNumber(arg2, digIndex)]
      ensures state == Operator ==> arg1 == old(arg1) && arg2 == old(arg2)
                                    && log == old(log) + [PrintText(OpName(op))]
      ensures state == Result ==> arg1 == old(arg1) && arg2 == old(arg2)
                                  && log == old(log) + [PrintNumber(Evaluate(op, arg1, arg2), -1)]
    {
      match state
      case FirstArg =>
        arg1 := Calculate();
        log := log + [PrintNumber(arg1, digIndex)];
      case SecondArg =>
        arg2 := Calculate();
        log := log + [PrintNumber(arg2, digIndex)];
      case Operator =>
        log := log + [PrintText(OpName(op))];
      case Result =>
        var result := Evaluate(op, arg1, arg2);
        log := log + [PrintNumber(result, -1)];
    }

    /** `on_rotate`: step the digit at the cursor or the operator, then redisplay; nothing in Result. */
    method OnRotate(increase: bool)
      requires Valid()
      modifies this, digits
      ensures Valid()
      ensures state == old(state) && digIndex == old(digIndex)
      ensures old(state) == FirstArg || old(state) == SecondArg ==>
        && digits[..] == old(digits[..])[digIndex := RotateDigit(old(digits[digIndex]), increase)]
        && op == old(op)
        && log == old(log) + [PrintNumber(DigitsValue(digits[..]), digIndex)]
      ensures old(state) == FirstArg ==> arg1 == DigitsValue(digits[..]) && arg2 == old(arg2)
      ensures old(state) == SecondArg ==> arg2 == DigitsValue(digits[..]) && arg1 == old(arg1)
      ensures old(state) == Operator ==>
        && digits[..] == old(digits[..]) && op == RotateOp(old(op), increase)
        && log == old(log) + [PrintText(OpName(op))]
        && arg1 == old(arg1) && arg2 == old(arg2)
      ensures old(state) == Result ==>
        digits[..] == old(digits[..]) && op == old(op) && log == old(log)
        && arg1 == old(arg1) && arg2 == old(arg2)
    {
      match state
      case FirstArg =>
        RotateDigitProperties(digits[digIndex]);
        digits[digIndex] := RotateDigit(digits[digIndex], increase);
        UpdateDisplay();
      case SecondArg =>
        RotateDigitProperties(digits[digIndex]);
        digits[digIndex] := RotateDigit(digits[digIndex], increase);
        UpdateDisplay();
      case Operator =>
        op := RotateOp(op, increase);
        UpdateDisplay();
      case Result =>
    }

    /** The encoder callback: the encoder's direction is inverted before `on_rotate`. */
    method OnEncoderTurn(increase: bool)
      requires Valid()
      modifies this, digits
      ensures Valid()
      ensures state == old(state) && digIndex == old(digIndex)
      ensures old(state) == FirstArg || old(state) == SecondArg ==>
        && digits[..] == old(digits[..])[digIndex := RotateDigit(old(digits[digIndex]), !increase)]
        && log == old(log) + [PrintNumber(DigitsValue(digits[..]), digIndex)]
      ensures old(state) == Operator ==> op == RotateOp(old(op), !increase)
    {
      OnRotate(!increase);
    }

    /**
     * `on_click`: advance the cursor (moving on after the last digit), start the
     * second argument, or reset after a result. Showing the result needs the
     * operation to be defined: no division by zero and no int overflow.
     */
    method OnClick()
      requires Valid()
      requires state == SecondArg && digIndex + 1 >= numDigits ==> Defined(op, arg1, DigitsValue(digits[..]))
      modifies this, digits
      ensures Valid()
      ensures Cursor(state, digIndex) == Click(Cursor(old(state), old(digIndex)), numDigits)
      ensures old(state) == FirstArg ==>
        && digIndex == old(digIndex) + 1 && digits[..] == old(digits[..]) && op == old(op)
        && state == (if digIndex >= numDigits then Operator else FirstArg)
        && log == old(log) + [if state == Operator then PrintText(OpName(op)) else PrintNumber(arg1, digIndex)]
      ensures old(state) == Operator ==>
        && state == SecondArg && digIndex == 0 && op == old(op) && arg1 == old(arg1) && arg2 == 0
        && (forall i :: 0 <= i < numDigits ==> digits[i] == 0)
        && log == old(log) + [PrintNumber(0, 0)]
      ensures old(state) == SecondArg ==>
        && digIndex == old(digIndex) + 1 && digits[..] == old(digits[..]) && op == old(op)
        && arg1 == old(arg1) && arg2 == old(arg2)
        && state == (if digIndex >= numDigits then Result else SecondArg)
        && log == old(log) + [if state == Result then PrintNumber(Evaluate(op, arg1, arg2), -1)
                              else PrintNumber(arg2, digIndex)]
      ensures old(state) == Result ==>
        && state == FirstArg && digIndex == 0 && op == Add && arg1 == 0 && arg2 == 0
        && (forall i :: 0 <= i < numDigits ==> digits[i] == 0)
        && log == old(log) + [PrintNumber(0, 0)]
    {
      match state
      case FirstArg =>
        digIndex := digIndex + 1;
        if digIndex >= numDigits {
          state := Operator;
        }
        UpdateDisplay();
      case Operator =>
        digIndex := 0;
        state := SecondArg;
        ClearDigits();
        ZeroDigitsValue(digits[..]);
        UpdateDisplay();
      case SecondArg =>
        digIndex := digIndex + 1;
        if digIndex >= numDigits {
          state := Result;
        }
        UpdateDisplay();
      case Result =>
        Reset();
        ZeroDigitsValue(digits[..]);
        UpdateDisplay();
    }
  }

  // ----- What the display shows -----

  /**
   * An argument printed while it is entered shows, at every position up to its
   * most significant digit, exactly the digit entered there (the decimal point
   * aside), and reads back as the argument.
   */
  lemma EnteredArgumentShown(ds: seq<int>, cursor: int, i: nat)
    requires 1 <= |ds| && AllDecimal(ds) && i < |ds|
    ensures var v := DigitsValue(ds);
      && v >= 0
      && (i < DecimalLength(v) ==> Display33.NumberGlyphs33(v, cursor, |ds|)[i] & !SEG_DP == DIGIT[ds[i]])
      && ReadNumber(Display33.NumberGlyphs33(v, -1, |ds|)) == Number(v)
  {
    var v := DigitsValue(ds);
    DigitsValueBounds(ds);
    DigitsValueDigits(ds, i);
    ShortNumberLength(v, |ds|);
    Display33.DecimalPointOnlyAtPoint(v, cursor, |ds|, i);
    Display33.PrintedNumberReadsBack33(v, |ds|);
  }

  // ----- Where the code goes wrong -----

  /**
   * From the Operator state, n + 1 clicks without turning the encoder reach
   * Result with every digit of the second argument still 0 (the Operator click
   * clears them), so `get_result` divides by zero when the operator is DIV.
   */
  lemma ZeroDivisorReachable(a: int, n: nat)
    requires n >= 1
    ensures Clicks(Cursor(Operator, n), 1, n) == Cursor(SecondArg, 0)
    ensures Clicks(Cursor(Operator, n), n + 1, n) == Cursor(Result, n)
    ensures DigitsValue(seq(n, _ => 0)) == 0
    ensures !Defined(Divide, a, DigitsValue(seq(n, _ => 0)))
  {
    var c := Cursor(Operator, n);
    ArgumentClicks(SecondArg, 0, n - 1, n);
    ClicksAppend(c, 1, n - 1, n);
    ClicksAppend(c, n, 1, n);
    ZeroDigitsValue(seq(n, _ => 0));
  }

  /**
   * A result too wide for the display is shown wrong rather than flagged: on
   * four digits, 0 SUB 9999 reads as 9999, because the minus sign has no
   * position left.
   */
  lemma NegativeResultLosesSign()
    ensures Evaluate(Subtract, 0, 9999) == -9999
    ensures ReadNumber(Display33.NumberGlyphs33(-9999, -1, 4)) == Number(9999)
  {
    FourDigits(9999);
    Display33.PrintedNumberReadsBack33(-9999, 4);
  }

  /** Likewise 9999 ADD 9999 reads as 9998 on four digits: the top digit is cut off. */
  lemma WideSumLosesTopDigit()
    ensures Evaluate(Add, 9999, 9999) == 19998
    ensures ReadNumber(Display33.NumberGlyphs33(19998, -1, 4)) == Number(9998)
  {
    Display33.PrintedNumberReadsBack33(19998, 4);
    LowFourDigitsOfWideSum();
  }

  /** The four low digits of 19998 are 9998. */
  lemma LowFourDigitsOfWideSum()
    ensures LowDigits(19998, 4) == 9998
  {
    assert LowDigits(1, 0) == 0;
    assert LowDigits(19, 1) == 9;
    assert LowDigits(199, 2) == 99;
    assert LowDigits(1999, 3) == 999;
  }

  /** The numbers 1000..9999 have four decimal digits. */
  lemma FourDigits(m: nat)
    requires 1000 <= m <= 9999
    ensures DecimalLength(m) == 4
  {
    assert DecimalLength(m / 1000) == 1;
    assert DecimalLength(m / 100) == 2;
    assert DecimalLength(m / 10) == 3;
  }
}

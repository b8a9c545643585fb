/**
 * The lesson-38 calculator (Calculator.cpp of the UART lesson): the same
 * digit-entry machine as lesson 33, driven by seven-character commands read
 * from the UART, and guarding the Result state against division by zero.
 */
module Calculator38 {
  import opened Io
  import opened CalcCore

  /** The commands, without their terminating NUL. */
  const ENC_CWS: string := "ENC_CWS"
  const ENC_CCW: string := "ENC_CCW"
  const ENC_KEY: string := "ENC_KEY"
  const CMD_LEN: nat := 7

  /** A C string literal: its characters and the terminating NUL. */
  function CStr(s: string): (r: string)
    ensures |r| == |s| + 1 && r[|s|] == '\0' && r[..|s|] == s
  {
    s + ['\0']
  }

  /**
   * `strncmp(a, b, n) == 0`: the first n characters agree, stopping early at a
   * NUL both strings share.
   */
  predicate StrNEqual(a: string, b: string, n: nat)
    requires n <= |a| && n <= |b|
  {
    n == 0 || (a[0] == b[0] && (a[0] == '\0' || StrNEqual(a[1..], b[1..], n - 1)))
  }

  class Calculator {
    const numDigits: nat
    /** `m_digits`: the digits being entered, digit 0 least significant. */
    const digits: array<int>
    var digIndex: int
    var arg1: int
    var arg2: int
    var op: Op
    var state: CalcState
    /** The display calls made so far. */
    var log: seq<DisplayCall>

    ghost predicate Valid()
      reads this, digits
    {
      && 1 <= numDigits <= 9 && digits.Length == numDigits
      && AllDecimal(digits[..])
      && (state == FirstArg || state == SecondArg ==> 0 <= digIndex < numDigits)
      && (state == Operator || state == Result ==> digIndex == numDigits)
      && (state == FirstArg || state == Operator ==> arg1 == DigitsValue(digits[..]))
      && (state == SecondArg || state == Result ==> arg2 == DigitsValue(digits[..]))
      && 0 <= arg1 < Pow10(numDigits) && 0 <= arg2 < Pow10(numDigits)
    }

    /** The click that ends the second argument computes a result that fits an int, unless it is the guarded division by zero. */
    ghost predicate ResultDefined()
      reads this, digits
    {
      var v := DigitsValue(digits[..]);
      state == SecondArg && digIndex + 1 >= numDigits && !(op == Divide && v == 0) ==> Defined(op, arg1, v)
    }

    /** Builds the calculator, resets it and shows the first argument, 0. */
    constructor (numDigits: nat)
      requires 1 <= numDigits <= 9
      ensures Valid() && fresh(digits)
      ensures this.numDigits == numDigits
      ensures state == FirstArg && digIndex == 0 && op == Add && arg1 == 0 && arg2 == 0
      ensures forall i :: 0 <= i < numDigits ==> digits[i] == 0
      ensures log == [PrintNumber(0, 0)]
    {
      this.numDigits := numDigits;
      digits := new int[numDigits];
      log := [];
      new;
      Reset();
      ZeroDigitsValue(digits[..]);
      UpdateDisplay();
    }

    /** `reset`: both arguments, the cursor and the digits to zero, operator Add, state FirstArg. */
    method Reset()
      requires digits.Length == numDigits
      modifies this, digits
      ensures arg1 == 0 && arg2 == 0 && digIndex == 0 && op == Add && state == FirstArg
      ensures forall i :: 0 <= i < numDigits ==> digits[i] == 0
      ensures log == old(log)
    {
      arg1 := 0;
      arg2 := 0;
      digIndex := 0;
      op := Add;
      state := FirstArg;
      ClearDigits();
    }

    /** `clear_digits`: every digit to zero. */
    method ClearDigits()
      modifies digits
      ensures forall i :: 0 <= i < digits.Length ==> digits[i] == 0
    {
      forall i | 0 <= i < digits.Length {
        digits[i] := 0;
      }
    }

    /** `calculate`: the value of the digits, accumulated with a running power of ten. */
    method Calculate() returns (arg: int)
      requires digits.Length == numDigits <= 9 && AllDecimal(digits[..])
      ensures arg == DigitsValue(digits[..])
      ensures 0 <= arg < Pow10(numDigits)
    {
      arg := 0;
      var i := 0;
      var n := 1;
      while i < numDigits
        invariant 0 <= i <= numDigits
        invariant n == Pow10(i)
        invariant arg == DigitsValue(digits[..i])
      {
        assert digits[..i + 1] == digits[..i] + [digits[i]];
        DigitsValueAppend(digits[..i], digits[i]);
        arg := arg + n * digits[i];
        i := i + 1;
        n := n * 10;
      }
      assert digits[..numDigits] == digits[..];
      DigitsValueBounds(digits[..]);
    }

    /** `update_display`: the current argument with the point at the cursor, the operator's name, or the result. */
    method UpdateDisplay()
      requires digits.Length == numDigits <= 9 && AllDecimal(digits[..])
      requires state == Result && !(op == Divide && arg2 == 0) ==> Defined(op, arg1, arg2)
      modifies this
      ensures state == old(state) && op == old(op) && digIndex == old(digIndex)
      ensures state == FirstArg ==> arg1 == DigitsValue(digits[..]) && arg2 == old(arg2)
                                    && 0 <= arg1 < Pow10(numDigits)
                                    && log == old(log) + [PrintNumber(arg1, digIndex)]
      ensures state == SecondArg ==> arg2 == DigitsValue(digits[..]) && arg1 == old(arg1)
                                     && 0 <= arg2 < Pow10(numDigits)
                                     && log == old(log) + [PrintNumber(arg2, digIndex)]
      ensures state == Operator ==> arg1 == old(arg1) && arg2 == old(arg2)
                                    && log == old(log) + [PrintText(OpName(op))]
      ensures state == Result ==> arg1 == old(arg1) && arg2 == old(arg2)
                                  && log == old(log) + [ResultCall(op, arg1, arg2)]
    {
      match state
      case FirstArg =>
        arg1 := Calculate();
        log := log + [PrintNumber(arg1, digIndex)];
      case SecondArg =>
        arg2 := Calculate();
        log := log + [PrintNumber(arg2, digIndex)];
      case Operator =>
        log := log + [PrintText(OpName(op))];
      case Result =>
        if op == Divide && arg2 == 0 {
          log := log + [PrintText("ERR")];
        } else {
          var result := Evaluate(op, arg1, arg2);
          log := log + [PrintNumber(result, if result != 0 then -1 else 0)];
        }
    }

    /** `on_rotate`: step the digit at the cursor or the operator, then redisplay; nothing in Result. */
    method OnRotate(increase: bool)
      requires Valid()
      modifies this, digits
      ensures Valid()
      ensures state == old(state) && digIndex == old(digIndex)
      ensures old(state) == FirstArg || old(state) == SecondArg ==>
        && digits[..] == old(digits[..])[digIndex := RotateDigit(old(digits[digIndex]), increase)]
        && op == old(op)
        && log == old(log) + [PrintNumber(DigitsValue(digits[..]), digIndex)]
      ensures old(state) == FirstArg ==> arg1 == DigitsValue(digits[..]) && arg2 == old(arg2)
      ensures old(state) == SecondArg ==> arg2 == DigitsValue(digits[..]) && arg1 == old(arg1)
      ensures old(state) == Operator ==>
        && digits[..] == old(digits[..]) && op == RotateOp(old(op), increase)
        && log == old(log) + [PrintText(OpName(op))]
        && arg1 == old(arg1) && arg2 == old(arg2)
      ensures old(state) == Result ==>
        digits[..] == old(digits[..]) && op == old(op) && log == old(log)
        && arg1 == old(arg1) && arg2 == old(arg2)
    {
      match state
      case FirstArg =>
        RotateDigitProperties(digits[digIndex]);
        digits[digIndex] := RotateDigit(digits[digIndex], increase);
        UpdateDisplay();
      case SecondArg =>
        RotateDigitProperties(digits[digIndex]);
        digits[digIndex] := RotateDigit(digits[digIndex], increase);
        UpdateDisplay();
      case Operator =>
        op := RotateOp(op, increase);
        UpdateDisplay();
      case Result =>
    }

    /**
     * `on_click`: advance the cursor (moving on after the last digit), start the
     * second argument, or reset after a result. A result other than the
     * guarded division by zero must fit an int.
     */
    method OnClick()
      requires Valid()
      requires ResultDefined()
      modifies this, digits
      ensures Valid()
      ensures Cursor(state, digIndex) == Click(Cursor(old(state), old(digIndex)), numDigits)
      ensures old(state) == FirstArg ==>
        && digIndex == old(digIndex) + 1 && digits[..] == old(digits[..]) && op == old(op)
        && state == (if digIndex >= numDigits then Operator else FirstArg)
        && log == old(log) + [if state == Operator then PrintText(OpName(op)) else PrintNumber(arg1, digIndex)]
      ensures old(state) == Operator ==>
        && state == SecondArg && digIndex == 0 && op == old(op) && arg1 == old(arg1) && arg2 == 0
        && (forall i :: 0 <= i < numDigits ==> digits[i] == 0)
        && log == old(log) + [PrintNumber(0, 0)]
      ensures old(state) == SecondArg ==>
        && digIndex == old(digIndex) + 1 && digits[..] == old(digits[..]) && op == old(op)
        && arg1 == old(arg1) && arg2 == old(arg2)
        && state == (if digIndex >= numDigits then Result else SecondArg)
        && log == old(log) + [if state == Result then ResultCall(op, arg1, arg2)
                              else PrintNumber(arg2, digIndex)]
      ensures old(state) == Result ==>
        && state == FirstArg && digIndex == 0 && op == Add && arg1 == 0 && arg2 == 0
        && (forall i :: 0 <= i < numDigits ==> digits[i] == 0)
        && log == old(log) + [PrintNumber(0, 0)]
    {
      match state
      case FirstArg =>
        digIndex := digIndex + 1;
        if digIndex >= numDigits {
          state := Operator;
        }
        UpdateDisplay();
      case Operator =>
        digIndex := 0;
        state := SecondArg;
        ClearDigits();
        ZeroDigitsValue(digits[..]);
        UpdateDisplay();
      case SecondArg =>
        digIndex := digIndex + 1;
        if digIndex >= numDigits {
          state := Result;
        }
        UpdateDisplay();
      case Result =>
        Reset();
        ZeroDigitsValue(digits[..]);
        UpdateDisplay();
    }
  
    /**
     * `on_command_received`: rotate down, rotate up or click for the three
     * commands, compared with `strncmp` over `size` characters; anything else is
     * refused and changes nothing.
     */
    method OnCommandReceived(command: string, size: nat) returns (recognised: bool)
      requires Valid()
      requires size <= |command| && size <= CMD_LEN + 1
      requires (!StrNEqual(command, CStr(ENC_CCW), size) && !StrNEqual(command, CStr(ENC_CWS), size)
                && StrNEqual(command, CStr(ENC_KEY), size)) ==> ResultDefined()
      modifies this, digits
      ensures Valid()
      ensures recognised <==> StrNEqual(command, CStr(ENC_CCW), size)
                              || StrNEqual(command, CStr(ENC_CWS), size)
                              || StrNEqual(command, CStr(ENC_KEY), size)
      // "ENC_CCW": a counter-clockwise step, as `OnRotate(false)`.
      ensures StrNEqual(command, CStr(ENC_CCW), size) ==>
        && state == old(state) && digIndex == old(digIndex)
        && (old(state) == FirstArg || old(state) == SecondArg ==>
              && digits[..] == old(digits[..])[digIndex := RotateDigit(old(digits[digIndex]), false)]
              && op == old(op)
              && log == old(log) + [PrintNumber(DigitsValue(digits[..]), digIndex)])
        && (old(state) == FirstArg ==> arg1 == DigitsValue(digits[..]) && arg2 == old(arg2))
        && (old(state) == SecondArg ==> arg2 == DigitsValue(digits[..]) && arg1 == old(arg1))
        && (old(state) == Operator ==>
              && digits[..] == old(digits[..]) && op == RotateOp(old(op), false)
              && log == old(log) + [PrintText(OpName(op))]
              && arg1 == old(arg1) && arg2 == old(arg2))
        && (old(state) == Result ==>
              && digits[..] == old(digits[..]) && op == old(op) && log == old(log)
              && arg1 == old(arg1) && arg2 == old(arg2))
      // "ENC_CWS": a clockwise step, as `OnRotate(true)`.
      ensures !StrNEqual(command, CStr(ENC_CCW), size) && StrNEqual(command, CStr(ENC_CWS), size) ==>
        && state == old(state) && digIndex == old(digIndex)
        && (old(state) == FirstArg || old(state) == SecondArg ==>
              && digits[..] == old(digits[..])[digIndex := RotateDigit(old(digits[digIndex]), true)]
              && op == old(op)
              && log == old(log) + [PrintNumber(DigitsValue(digits[..]), digIndex)])
        && (old(state) == FirstArg ==> arg1 == DigitsValue(digits[..]) && arg2 == old(arg2))
        && (old(state) == SecondArg ==> arg2 == DigitsValue(digits[..]) && arg1 == old(arg1))
        && (old(state) == Operator ==>
              && digits[..] == old(digits[..]) && op == RotateOp(old(op), true)
              && log == old(log) + [PrintText(OpName(op))]
              && arg1 == old(arg1) && arg2 == old(arg2))
        && (old(state) == Result ==>
              && digits[..] == old(digits[..]) && op == old(op) && log == old(log)
              && arg1 == old(arg1) && arg2 == old(arg2))
      // "ENC_KEY": a press of the key, as `OnClick()`.
      ensures !StrNEqual(command, CStr(ENC_CCW), size) && !StrNEqual(command, CStr(ENC_CWS), size)
              && StrNEqual(command, CStr(ENC_KEY), size) ==>
        && Cursor(state, digIndex) == Click(Cursor(old(state), old(digIndex)), numDigits)
        && (old(state) == FirstArg ==>
              && digIndex == old(digIndex) + 1 && digits[..] == old(digits[..]) && op == old(op)
              && state == (if digIndex >= numDigits then Operator else FirstArg)
              && log == old(log) + [if state == Operator then PrintText(OpName(op)) else PrintNumber(arg1, digIndex)])
        && (old(state) == Operator ==>
              && state == SecondArg && digIndex == 0 && op == old(op) && arg1 == old(arg1) && arg2 == 0
              && (forall i :: 0 <= i < numDigits ==> digits[i] == 0)
              && log == old(log) + [PrintNumber(0, 0)])
        && (old(state) == SecondArg ==>
              && digIndex == old(digIndex) + 1 && digits[..] == old(digits[..]) && op == old(op)
              && arg1 == old(arg1) && arg2 == old(arg2)
              && state == (if digIndex >= numDigits then Result else SecondArg)
              && log == old(log) + [if state == Result then ResultCall(op, arg1, arg2)
                                    else PrintNumber(arg2, digIndex)])
        && (old(state) == Result ==>
              && state == FirstArg && digIndex == 0 && op == Add && arg1 == 0 && arg2 == 0
              && (forall i :: 0 <= i < numDigits ==> digits[i] == 0)
              && log == old(log) + [PrintNumber(0, 0)])
      ensures !recognised ==>
        && state == old(state) && digIndex == old(digIndex) && op == old(op)
        && arg1 == old(arg1) && arg2 == old(arg2) && log == old(log) && digits[..] == old(digits[..])
    {
      recognised := true;
      if StrNEqual(command, CStr(ENC_CCW), size) {
        OnRotate(false);
      } else if StrNEqual(command, CStr(ENC_CWS), size) {
        OnRotate(true);
      } else if StrNEqual(command, CStr(ENC_KEY), size) {
        OnClick();
      } else {
        recognised := false;
      }
    }
  }

  /** What `update_display` prints in Result: "ERR" for a division by zero, else the result, with the point on a zero result. */
  function ResultCall(op: Op, a: int, b: int): DisplayCall {
    if op == Divide && b == 0 then PrintText("ERR")
    else var r := Evaluate(op, a, b); PrintNumber(r, if r != 0 then -1 else 0)
  }

  /** "ERR" is shown exactly for a division by zero; a number is shown with the point at 0 exactly when it is 0. */
  lemma ResultCallCases(op: Op, a: int, b: int)
    ensures ResultCall(op, a, b).PrintText? <==> op == Divide && b == 0
    ensures ResultCall(op, a, b).PrintText? ==> ResultCall(op, a, b).text == "ERR"
    ensures ResultCall(op, a, b).PrintNumber? ==>
      && ResultCall(op, a, b).n == Evaluate(op, a, b)
      && (ResultCall(op, a, b).point == 0 <==> ResultCall(op, a, b).n == 0)
      && (ResultCall(op, a, b).point != 0 ==> ResultCall(op, a, b).point == -1)
  {
  }

  /**
   * Comparing a whole buffer against a literal whose only NUL is its last
   * character succeeds exactly when the buffer is that literal.
   */
  lemma {:induction false} StrNEqualExact(a: string, b: string)
    requires |a| == |b| >= 1 && b[|b| - 1] == '\0'
    requires forall i :: 0 <= i < |b| - 1 ==> b[i] != '\0'
    ensures StrNEqual(a, b, |b|) <==> a == b
    decreases |b|
  {
    if |b| > 1 {
      StrNEqualExact(a[1..], b[1..]);
      if a[0] == b[0] && a[1..] == b[1..] {
        assert a == [a[0]] + a[1..] && b == [b[0]] + b[1..];
      }
    }
  }

  /**
   * The receiver hands over its whole eight-byte buffer (seven characters read
   * into a zeroed buffer): a command is recognised exactly when the buffer holds
   * that command and its NUL, and at most one of the three matches.
   */
  lemma ReceivedCommand(buf: string)
    requires |buf| == CMD_LEN + 1
    ensures StrNEqual(buf, CStr(ENC_CCW), |buf|) <==> buf == CStr(ENC_CCW)
    ensures StrNEqual(buf, CStr(ENC_CWS), |buf|) <==> buf == CStr(ENC_CWS)
    ensures StrNEqual(buf, CStr(ENC_KEY), |buf|) <==> buf == CStr(ENC_KEY)
    ensures CStr(ENC_CCW) != CStr(ENC_CWS) && CStr(ENC_CWS) != CStr(ENC_KEY) && CStr(ENC_CCW) != CStr(ENC_KEY)
  {
    StrNEqualExact(buf, CStr(ENC_CCW));
    StrNEqualExact(buf, CStr(ENC_CWS));
    StrNEqualExact(buf, CStr(ENC_KEY));
    assert CStr(ENC_CCW)[5] != CStr(ENC_CWS)[5];
    assert CStr(ENC_CCW)[4] != CStr(ENC_KEY)[4];
    assert CStr(ENC_CWS)[4] != CStr(ENC_KEY)[4];
  }
}

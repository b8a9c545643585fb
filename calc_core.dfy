/**
 * What the lesson-33 and lesson-38 calculators share: their states and
 * operators (Calculator.h), digit and operator rotation, the value of the
 * entered digits, the arithmetic of `get_result`, and the display calls they
 * make, recorded as values.
 */
module CalcCore {
  import opened Io
  import opened S7Glyphs

  /** `state_t`, in declaration order. */
  datatype CalcState = FirstArg | Operator | SecondArg | Result

  /** `operator_t`, in declaration order; `{}` is Add. */
  datatype Op = Add | Subtract | Multiply | Divide

  const OP_COUNT: nat := 4

  /** The enumerator's value. */
  function OpIndex(op: Op): (r: nat)
    ensures r < OP_COUNT
  {
    match op
    case Add => 0
    case Subtract => 1
    case Multiply => 2
    case Divide => 3
  }

  /** `static_cast<operator_t>(i)` for an i in range. */
  function OpOf(i: nat): (op: Op)
    requires i < OP_COUNT
    ensures OpIndex(op) == i
  {
    if i == 0 then Add else if i == 1 then Subtract else if i == 2 then Multiply else Divide
  }

  /** Operator rotation: one step forward or back, wrapping modulo OpCount. */
  function RotateOp(op: Op, increase: bool): Op {
    if increase then OpOf((OpIndex(op) + 1) % OP_COUNT)
    else OpOf((OpIndex(op) + OP_COUNT - 1) % OP_COUNT)
  }

  /** Digit rotation: one step forward or back, wrapping modulo 10. */
  function RotateDigit(d: int, increase: bool): int
    requires 0 <= d <= 9
  {
    if increase then (d + 1) % 10 else (d + 10 - 1) % 10
  }

  /** Where the click machine is: the state and the digit cursor. */
  datatype Cursor = Cursor(state: CalcState, index: int)

  /**
   * `on_click` on the state and cursor of a calculator with n digits: an
   * argument state advances the cursor and moves on once it reaches n, the
   * Operator state starts the second argument, a result starts over.
   */
  function Click(c: Cursor, n: int): Cursor {
    match c.state
    case FirstArg => Cursor(if c.index + 1 >= n then Operator else FirstArg, c.index + 1)
    case Operator => Cursor(SecondArg, 0)
    case SecondArg => Cursor(if c.index + 1 >= n then Result else SecondArg, c.index + 1)
    case Result => Cursor(FirstArg, 0)
  }

  /** k clicks in a row. */
  function Clicks(c: Cursor, k: nat, n: int): Cursor
    decreases k
  {
    if k == 0 then c else Clicks(Click(c, n), k - 1, n)
  }

  /** The display calls a calculator makes. */
  datatype DisplayCall = PrintNumber(n: int, point: int) | PrintText(text: string)

  /** The label `update_display` prints in the Operator state. */
  function OpName(op: Op): string {
    match op
    case Add => "ADD"
    case Subtract => "SUB"
    case Multiply => "MUL"
    case Divide => "DIV"
  }

  /** The number the digits stand for, digit 0 least significant: the sum of ds[i] * 10^i. */
  function DigitsValue(ds: seq<int>): int {
    if ds == [] then 0 else ds[0] + 10 * DigitsValue(ds[1..])
  }

  predicate AllDecimal(ds: seq<int>) {
    forall i :: 0 <= i < |ds| ==> 0 <= ds[i] <= 9
  }

  /** C++ `/` on int: the quotient truncated toward zero. */
  function CDiv(a: int, b: int): int
    requires b != 0
  {
    var q := Abs(a) / Abs(b);
    if (a < 0) == (b < 0) then q else -q
  }

  /** `get_result`: the operator applied to the two arguments. */
  function Evaluate(op: Op, a: int, b: int): int
    requires op == Divide ==> b != 0
  {
    match op
    case Add => a + b
    case Subtract => a - b
    case Multiply => a * b
    case Divide => CDiv(a, b)
  }

  /** The operation is defined in C++: no division by zero and no int overflow. */
  predicate Defined(op: Op, a: int, b: int) {
    (op == Divide ==> b != 0) && IsInt32(Evaluate(op, a, b))
  }

  // ----- Lemmas -----

  /** The operator enumeration and its index are inverse. */
  lemma OpIndexRoundTrip(op: Op, i: nat)
    requires i < OP_COUNT
    ensures OpOf(OpIndex(op)) == op
    ensures OpIndex(OpOf(i)) == i
  {
  }

  /** Rotating the operator back undoes rotating it forward, and four steps return to the start. */
  lemma RotateOpInverse(op: Op)
    ensures RotateOp(RotateOp(op, true), false) == op
    ensures RotateOp(RotateOp(op, false), true) == op
    ensures RotateOp(RotateOp(RotateOp(RotateOp(op, true), true), true), true) == op
    ensures RotateOp(op, true) != op && RotateOp(op, false) != op
  {
  }

  /** Digit rotation stays within 0..9, wraps 9 -> 0 and 0 -> 9, and the two directions undo each other. */
  lemma RotateDigitProperties(d: int)
    requires 0 <= d <= 9
    ensures 0 <= RotateDigit(d, true) <= 9 && 0 <= RotateDigit(d, false) <= 9
    ensures RotateDigit(d, true) == if d == 9 then 0 else d + 1
    ensures RotateDigit(d, false) == if d == 0 then 9 else d - 1
    ensures RotateDigit(RotateDigit(d, true), false) == d
    ensures RotateDigit(RotateDigit(d, false), true) == d
  {
  }

  /** Clicks in two batches. */
  lemma {:induction false} ClicksAppend(c: Cursor, a: nat, b: nat, n: int)
    ensures Clicks(c, a + b, n) == Clicks(Clicks(c, a, n), b, n)
    decreases a
  {
    if a > 0 {
      ClicksAppend(Click(c, n), a - 1, b, n);
    }
  }

  /** In an argument state, clicks that stay below n only move the cursor. */
  lemma {:induction false} ArgumentClicks(st: CalcState, i: nat, k: nat, n: int)
    requires st == FirstArg || st == SecondArg
    requires i + k < n
    ensures Clicks(Cursor(st, i), k, n) == Cursor(st, i + k)
    decreases k
  {
    if k > 0 {
      ArgumentClicks(st, i + 1, k - 1, n);
    }
  }

  /**
   * The click order: from a fresh start, n clicks enter the first argument and
   * reach Operator, one more starts the second argument, n more reach Result,
   * and one more starts over: the cycle has 2n + 2 clicks.
   */
  lemma ClickCycle(n: nat)
    requires n >= 1
    ensures Clicks(Cursor(FirstArg, 0), n, n) == Cursor(Operator, n)
    ensures Clicks(Cursor(FirstArg, 0), n + 1, n) == Cursor(SecondArg, 0)
    ensures Clicks(Cursor(FirstArg, 0), 2 * n + 1, n) == Cursor(Result, n)
    ensures Clicks(Cursor(FirstArg, 0), 2 * n + 2, n) == Cursor(FirstArg, 0)
  {
    var start := Cursor(FirstArg, 0);
    ArgumentClicks(FirstArg, 0, n - 1, n);
    ClicksAppend(start, n - 1, 1, n);
    ClicksAppend(start, n, 1, n);
    ArgumentClicks(SecondArg, 0, n - 1, n);
    ClicksAppend(start, n + 1, n - 1, n);
    ClicksAppend(start, 2 * n, 1, n);
    ClicksAppend(start, 2 * n + 1, 1, n);
  }

  /** Adding a most significant digit adds it times its place value. */
  lemma {:induction false} DigitsValueAppend(ds: seq<int>, x: int)
    ensures DigitsValue(ds + [x]) == DigitsValue(ds) + Pow10(|ds|) * x
  {
    if ds == [] {
      assert [x][1..] == [];
    } else {
      assert (ds + [x])[1..] == ds[1..] + [x];
      DigitsValueAppend(ds[1..], x);
      assert Pow10(|ds|) * x == 10 * (Pow10(|ds| - 1) * x);
    }
  }

  /** Decimal digits make a number below 10^|ds|. */
  lemma {:induction false} DigitsValueBounds(ds: seq<int>)
    requires AllDecimal(ds)
    ensures 0 <= DigitsValue(ds) < Pow10(|ds|)
  {
    if ds != [] {
      DigitsValueBounds(ds[1..]);
    }
  }

  /** Digit i of the number is the i-th entered digit: rendering shows what was entered. */
  lemma {:induction false} DigitsValueDigits(ds: seq<int>, i: nat)
    requires AllDecimal(ds) && i < |ds|
    ensures DigitsValue(ds) >= 0
    ensures DropDigits(DigitsValue(ds), i) % 10 == ds[i]
  {
    DigitsValueBounds(ds);
    DigitsValueBounds(ds[1..]);
    var v := DigitsValue(ds);
    assert v / 10 == DigitsValue(ds[1..]) && v % 10 == ds[0];
    if i > 0 {
      DigitsValueDigits(ds[1..], i - 1);
    }
  }

  /** A number below 10^count has at most count decimal digits. */
  lemma {:induction false} ShortNumberLength(v: nat, count: nat)
    requires v < Pow10(count)
    ensures DecimalLength(v) <= count
  {
    if v > 0 {
      ShortNumberLength(v / 10, count - 1);
    }
  }

  /** All-zero digits stand for 0. */
  lemma {:induction false} ZeroDigitsValue(ds: seq<int>)
    requires forall i :: 0 <= i < |ds| ==> ds[i] == 0
    ensures DigitsValue(ds) == 0
  {
    if ds != [] {
      ZeroDigitsValue(ds[1..]);
    }
  }

  /** C++ division truncates toward zero: the quotient's size is |a| / |b|. */
  lemma CDivMagnitude(a: int, b: int)
    requires b != 0
    ensures Abs(CDiv(a, b)) == Abs(a) / Abs(b)
  {
  }

  /** The quotient's sign is that of a * b (or it is zero). */
  lemma CDivSign(a: int, b: int)
    requires b != 0
    ensures CDiv(a, b) > 0 ==> (a < 0) == (b < 0)
    ensures CDiv(a, b) < 0 ==> (a < 0) != (b < 0)
  {
    var q := Abs(a) / Abs(b);
    DivNonNegative(Abs(a), Abs(b));
    if (a < 0) == (b < 0) {
      assert CDiv(a, b) == q;
    } else {
      assert CDiv(a, b) == -q;
    }
  }

  /** Dividing a natural number by a positive one gives a natural number. */
  lemma DivNonNegative(x: int, y: int)
    requires x >= 0 && y > 0
    ensures x / y >= 0
  {
  }

  /** On non-negative operands C++ and Dafny division agree. */
  lemma CDivOfNonNegative(a: int, b: int)
    requires a >= 0 && b > 0
    ensures CDiv(a, b) == a / b
  {
  }

  /** Where C++ and Dafny division differ: -7 / 2 is -3 in C++ and -4 in Dafny. */
  lemma CDivDiffersFromEuclidean()
    ensures CDiv(-7, 2) == -3 && (-7) / 2 == -4
  {
  }

  /** On digit-entered arguments the sum and difference never overflow an int. */
  lemma EnteredArgumentsDefined(op: Op, a: int, b: int)
    requires 0 <= a < Pow10(9) && 0 <= b < Pow10(9)
    requires op == Add || op == Subtract || (op == Divide && b != 0)
    ensures Defined(op, a, b)
  {
    assert Pow10(9) == 1000000000;
    if op == Divide {
      CDivOfNonNegative(a, b);
      assert a / b <= a by {
        DivBound(a, b);
      }
    }
  }

  lemma DivBound(a: nat, b: nat)
    requires b > 0
    ensures a / b <= a
  {
    var q := a / b;
    assert q * b <= a;
    MulMonotone(q, b);
  }

  lemma MulMonotone(q: nat, b: nat)
    requires b >= 1
    ensures q <= q * b
  {
    assert q * b == q + q * (b - 1);
  }
}

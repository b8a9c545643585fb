/**
 * Hardware effects shared by the lessons, reduced to "what was written".
 *
 * A GPIO pin number is a bit position in the 32-bit output register; the
 * sources build masks with `1 << pin` on an `int`, which is only defined for
 * pins below 31. A register mask is modelled as the set of its bit positions:
 * `1 << p` is `{p}`, `|` is union, `a & ~b` is difference.
 */
module Io {

  /** A pin that `1 << pin` can address without overflowing an `int`. */
  type Pin = p: int | 0 <= p < 31

  const LOW: int := 0
  const HIGH: int := 1

  /** One output operation on the GPIO peripheral. */
  datatype GpioWrite =
    | OutputSet(setMask: set<Pin>, clearMask: set<Pin>)   // gpio_output_set(set, clear, 0, 0)
    | SetLevel(pin: Pin, level: int)                       // gpio_set_level / digitalWrite

  /** The pin levels after one write: the set mask is written first, then the clear mask. */
  function Apply(levels: map<Pin, int>, w: GpioWrite): (r: map<Pin, int>)
    ensures w.OutputSet? ==> r.Keys == levels.Keys + w.setMask + w.clearMask
    ensures w.SetLevel? ==> r.Keys == levels.Keys + {w.pin} && r[w.pin] == w.level
  {
    match w
    case OutputSet(s, c) =>
      map p | p in levels.Keys + s + c :: if p in c then LOW else if p in s then HIGH else levels[p]
    case SetLevel(p, v) => levels[p := v]
  }

  /** The pin levels after a sequence of writes, performed in order. */
  function ApplyAll(levels: map<Pin, int>, ws: seq<GpioWrite>): map<Pin, int>
    decreases |ws|
  {
    if ws == [] then levels else ApplyAll(Apply(levels, ws[0]), ws[1..])
  }

  /** Writes performed one batch after another. */
  lemma {:induction false} ApplyAllAppend(levels: map<Pin, int>, ws: seq<GpioWrite>, vs: seq<GpioWrite>)
    ensures ApplyAll(levels, ws + vs) == ApplyAll(ApplyAll(levels, ws), vs)
    decreases |ws|
  {
    if ws != [] {
      assert (ws + vs)[0] == ws[0];
      assert (ws + vs)[1..] == ws[1..] + vs;
      ApplyAllAppend(Apply(levels, ws[0]), ws[1..], vs);
    } else {
      assert ws + vs == vs;
    }
  }

  /** A pin that no write of `ws` sets keeps its level. */
  lemma {:induction false} ApplyAllUntouched(levels: map<Pin, int>, ws: seq<GpioWrite>, p: Pin)
    requires forall j :: 0 <= j < |ws| ==> ws[j].SetLevel? && ws[j].pin != p
    ensures p in ApplyAll(levels, ws) <==> p in levels
    ensures p in levels ==> ApplyAll(levels, ws)[p] == levels[p]
    decreases |ws|
  {
    if ws != [] {
      ApplyAllUntouched(Apply(levels, ws[0]), ws[1..], p);
    }
  }

  /** Two level maps agree on pin `p`: both lack it, or both hold the same level. */
  predicate SameAt(a: map<Pin, int>, b: map<Pin, int>, p: Pin) {
    (p in a <==> p in b) && (p in a ==> a[p] == b[p])
  }

  /** The level a sequence of writes leaves on a pin depends only on that pin's level before them. */
  lemma {:induction false} ApplyAllSameAt(a: map<Pin, int>, b: map<Pin, int>, ws: seq<GpioWrite>, p: Pin)
    requires SameAt(a, b, p)
    ensures SameAt(ApplyAll(a, ws), ApplyAll(b, ws), p)
    decreases |ws|
  {
    if ws != [] {
      ApplyAllSameAt(Apply(a, ws[0]), Apply(b, ws[0]), ws[1..], p);
    }
  }

  /** A pin ends at the level of the last write that sets it. */
  lemma {:induction false} ApplyAllLastWrite(levels: map<Pin, int>, ws: seq<GpioWrite>, k: nat)
    requires k < |ws| && ws[k].SetLevel?
    requires forall j :: k < j < |ws| ==> ws[j].SetLevel? && ws[j].pin != ws[k].pin
    ensures ws[k].pin in ApplyAll(levels, ws) && ApplyAll(levels, ws)[ws[k].pin] == ws[k].level
    decreases k
  {
    if k == 0 {
      ApplyAllUntouched(Apply(levels, ws[0]), ws[1..], ws[0].pin);
    } else {
      assert ws[1..][k - 1] == ws[k];
      ApplyAllLastWrite(Apply(levels, ws[0]), ws[1..], k - 1);
    }
  }

  /** Two writes in a row. */
  lemma ApplyTwo(levels: map<Pin, int>, a: GpioWrite, b: GpioWrite)
    ensures ApplyAll(levels, [a, b]) == Apply(Apply(levels, a), b)
  {
    var mid := Apply(levels, a);
    assert [a, b][1..] == [b];
    assert [b][1..] == [];
    assert ApplyAll(levels, [a, b]) == ApplyAll(mid, [b]);
    assert ApplyAll(mid, [b]) == ApplyAll(Apply(mid, b), []);
  }

  /** 2^32: the modulus of the 32-bit unsigned types (`uint32_t`, and `ulong` on these boards). */
  const TWO_32: int := 0x1_0000_0000
  const UINT32_MAX: int := TWO_32 - 1
  const INT32_MIN: int := -0x8000_0000
  const INT32_MAX: int := 0x7FFF_FFFF

  type U32 = x: int | 0 <= x < TWO_32

  /** Unsigned 32-bit wrap-around, as `uint32_t` arithmetic does. */
  function Wrap32(x: int): (r: U32)
    ensures 0 <= x < TWO_32 ==> r == x
    ensures TWO_32 <= x < 2 * TWO_32 ==> r == x - TWO_32
  {
    x % TWO_32
  }

  predicate IsInt32(x: int) { INT32_MIN <= x <= INT32_MAX }

  /**
   * A product that overflows `int`, taken as the 32-bit two's-complement
   * multiply of these boards leaves it: the value congruent to x modulo 2^32
   * that lies in the int range.
   */
  function WrapInt32(x: int): (r: int)
    ensures IsInt32(r)
    ensures IsInt32(x) ==> r == x
    ensures (x - r) % TWO_32 == 0
  {
    var m := x % TWO_32;
    if m > INT32_MAX then m - TWO_32 else m
  }

  /** 10^e */
  function Pow10(e: nat): (r: nat)
    ensures r >= 1
  {
    if e == 0 then 1 else 10 * Pow10(e - 1)
  }
}

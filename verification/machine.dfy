/**
 * Machine-level value types shared by every part of the emulator: the
 * unsigned widths the Rust code uses (`u8`, `u16`, a 4-bit field), the
 * `Option` the key poll produces, and the bitwise operators on `u8`.
 *
 * Values are unbounded Dafny integers restricted by subset types, so every
 * wrap-around the Rust code performs is written out explicitly where it
 * happens.
 */
module Machine {

  /** A `u8`. */
  type Byte = b: int | 0 <= b < 0x100

  /** A `u16`. */
  type Word = w: int | 0 <= w < 0x1_0000

  /** A 4-bit field of an instruction word: a register number or a nibble immediate. */
  type Nibble = n: int | 0 <= n < 0x10

  /** Rust's `Option`, used for the result of a key poll. */
  datatype Option<+T> = None | Some(value: T)

  /** 2 to the power `k`. */
  function Pow2(k: nat): nat
  {
    if k == 0 then 1 else 2 * Pow2(k - 1)
  }

  /** The `k` low bits of `a & b`, computed least significant bit first. */
  function AndBits(a: nat, b: nat, k: nat): (r: nat)
    ensures r < Pow2(k)
    ensures r <= a && r <= b
  {
    if k == 0 then 0
    else 2 * AndBits(a / 2, b / 2, k - 1) + (if a % 2 == 1 && b % 2 == 1 then 1 else 0)
  }

  /** The `k` low bits of `a | b`. */
  function OrBits(a: nat, b: nat, k: nat): (r: nat)
    ensures r < Pow2(k)
    ensures a < Pow2(k) ==> a <= r
    ensures b < Pow2(k) ==> b <= r
  {
    if k == 0 then 0
    else 2 * OrBits(a / 2, b / 2, k - 1) + (if a % 2 == 1 || b % 2 == 1 then 1 else 0)
  }

  /** The `k` low bits of `a ^ b`. */
  function XorBits(a: nat, b: nat, k: nat): (r: nat)
    ensures r < Pow2(k)
  {
    if k == 0 then 0
    else 2 * XorBits(a / 2, b / 2, k - 1) + (if a % 2 != b % 2 then 1 else 0)
  }

  lemma Pow2Eight()
    ensures Pow2(8) == 0x100
  {
    assert Pow2(2) == 4;
    assert Pow2(4) == 16;
    assert Pow2(6) == 64;
  }

  /** Bit `e` of `a`, counted from the least significant end: the remainder
      by two after `e` halvings, the same bit as `(a >> e) & 1`. */
  function BitOf(a: nat, e: nat): (r: nat)
    ensures r <= 1
  {
    if e == 0 then a % 2 else BitOf(a / 2, e - 1)
  }

  /** The bits of `2 * r + b` are `b` followed by the bits of `r`. */
  lemma BitOfShifted(r: nat, b: nat, e: nat)
    requires b <= 1
    ensures BitOf(2 * r + b, 0) == b
    ensures BitOf(2 * r + b, e + 1) == BitOf(r, e)
  {
    assert (2 * r + b) / 2 == r;
  }

  lemma {:induction false} AndBitsBit(a: nat, b: nat, k: nat, e: nat)
    requires e < k
    ensures BitOf(AndBits(a, b, k), e) == if BitOf(a, e) == 1 && BitOf(b, e) == 1 then 1 else 0
  {
    var r := AndBits(a / 2, b / 2, k - 1);
    var bit := if a % 2 == 1 && b % 2 == 1 then 1 else 0;
    BitOfShifted(r, bit, if e == 0 then 0 else e - 1);
    if e > 0 {
      AndBitsBit(a / 2, b / 2, k - 1, e - 1);
    }
  }

  lemma {:induction false} OrBitsBit(a: nat, b: nat, k: nat, e: nat)
    requires e < k
    ensures BitOf(OrBits(a, b, k), e) == if BitOf(a, e) == 1 || BitOf(b, e) == 1 then 1 else 0
  {
    var r := OrBits(a / 2, b / 2, k - 1);
    var bit := if a % 2 == 1 || b % 2 == 1 then 1 else 0;
    BitOfShifted(r, bit, if e == 0 then 0 else e - 1);
    if e > 0 {
      OrBitsBit(a / 2, b / 2, k - 1, e - 1);
    }
  }

  lemma {:induction false} XorBitsBit(a: nat, b: nat, k: nat, e: nat)
    requires e < k
    ensures BitOf(XorBits(a, b, k), e) == if BitOf(a, e) != BitOf(b, e) then 1 else 0
  {
    var r := XorBits(a / 2, b / 2, k - 1);
    var bit := if a % 2 != b % 2 then 1 else 0;
    BitOfShifted(r, bit, if e == 0 then 0 else e - 1);
    if e > 0 {
      XorBitsBit(a / 2, b / 2, k - 1, e - 1);
    }
  }

  lemma AndBitsEveryBit(a: nat, b: nat)
    ensures forall e :: 0 <= e < 8 ==>
              BitOf(AndBits(a, b, 8), e) == if BitOf(a, e) == 1 && BitOf(b, e) == 1 then 1 else 0
  {
    forall e | 0 <= e < 8
      ensures BitOf(AndBits(a, b, 8), e) == if BitOf(a, e) == 1 && BitOf(b, e) == 1 then 1 else 0
    {
      AndBitsBit(a, b, 8, e);
    }
  }

  lemma OrBitsEveryBit(a: nat, b: nat)
    ensures forall e :: 0 <= e < 8 ==>
              BitOf(OrBits(a, b, 8), e) == if BitOf(a, e) == 1 || BitOf(b, e) == 1 then 1 else 0
  {
    forall e | 0 <= e < 8
      ensures BitOf(OrBits(a, b, 8), e) == if BitOf(a, e) == 1 || BitOf(b, e) == 1 then 1 else 0
    {
      OrBitsBit(a, b, 8, e);
    }
  }

  lemma XorBitsEveryBit(a: nat, b: nat)
    ensures forall e :: 0 <= e < 8 ==>
              BitOf(XorBits(a, b, 8), e) == if BitOf(a, e) != BitOf(b, e) then 1 else 0
  {
    forall e | 0 <= e < 8
      ensures BitOf(XorBits(a, b, 8), e) == if BitOf(a, e) != BitOf(b, e) then 1 else 0
    {
      XorBitsBit(a, b, 8, e);
    }
  }

  /** `a & b` on `u8`: each of the eight bits is set exactly when it is set in both. */
  function And(a: Byte, b: Byte): (r: Byte)
    ensures forall e :: 0 <= e < 8 ==>
              BitOf(r, e) == if BitOf(a, e) == 1 && BitOf(b, e) == 1 then 1 else 0
    ensures r <= a && r <= b
  {
    Pow2Eight();
    AndBitsEveryBit(a, b);
    AndBits(a, b, 8)
  }

  /** `a | b` on `u8`: each of the eight bits is set exactly when it is set in either. */
  function Or(a: Byte, b: Byte): (r: Byte)
    ensures forall e :: 0 <= e < 8 ==>
              BitOf(r, e) == if BitOf(a, e) == 1 || BitOf(b, e) == 1 then 1 else 0
    ensures a <= r && b <= r
  {
    Pow2Eight();
    OrBitsEveryBit(a, b);
    OrBits(a, b, 8)
  }

  /** `a ^ b` on `u8`: each of the eight bits is set exactly when the two differ there. */
  function Xor(a: Byte, b: Byte): (r: Byte)
    ensures forall e :: 0 <= e < 8 ==> BitOf(r, e) == if BitOf(a, e) != BitOf(b, e) then 1 else 0
  {
    Pow2Eight();
    XorBitsEveryBit(a, b);
    XorBits(a, b, 8)
  }

  lemma {:induction false} XorBitsCancel(a: nat, b: nat, k: nat)
    requires a < Pow2(k)
    ensures XorBits(XorBits(a, b, k), b, k) == a
  {
    if k > 0 {
      var r := XorBits(a / 2, b / 2, k - 1);
      var bit := if a % 2 != b % 2 then 1 else 0;
      assert XorBits(a, b, k) == 2 * r + bit;
      assert (2 * r + bit) / 2 == r && (2 * r + bit) % 2 == bit;
      XorBitsCancel(a / 2, b / 2, k - 1);
    }
  }

  /** Xor with the same byte twice gives back the original byte. */
  lemma XorCancel(a: Byte, b: Byte)
    ensures Xor(Xor(a, b), b) == a
  {
    Pow2Eight();
    XorBitsCancel(a, b, 8);
  }

  lemma {:induction false} AndBitsSelf(a: nat, k: nat)
    requires a < Pow2(k)
    ensures AndBits(a, a, k) == a
  {
    if k > 0 {
      AndBitsSelf(a / 2, k - 1);
    }
  }

  lemma {:induction false} OrBitsSelf(a: nat, k: nat)
    requires a < Pow2(k)
    ensures OrBits(a, a, k) == a
  {
    if k > 0 {
      OrBitsSelf(a / 2, k - 1);
    }
  }

  lemma {:induction false} AndBitsAllOnes(a: nat, k: nat)
    requires a < Pow2(k)
    ensures AndBits(a, Pow2(k) - 1, k) == a
  {
    if k > 0 {
      assert (Pow2(k) - 1) / 2 == Pow2(k - 1) - 1;
      assert (Pow2(k) - 1) % 2 == 1;
      AndBitsAllOnes(a / 2, k - 1);
    }
  }

  /** `a & a == a` and `a | a == a` on bytes. */
  lemma Idempotent(a: Byte)
    ensures And(a, a) == a && Or(a, a) == a
  {
    Pow2Eight();
    AndBitsSelf(a, 8);
    OrBitsSelf(a, 8);
  }

  /** Masking with 0xFF keeps a byte, masking with 0 clears it. */
  lemma MaskExtremes(a: Byte)
    ensures And(a, 0xFF) == a
    ensures And(a, 0) == 0
  {
    Pow2Eight();
    AndBitsAllOnes(a, 8);
  }
}

/**
 * The register handlers of `Cpu`: loads, the byte arithmetic of families
 * 6, 7 and 8, the random mask of CXKK and the timer moves of FX07, FX15
 * and FX18.
 *
 * Each handler writes the flag register VF exactly where the Rust code
 * does, in the same order as the write of Vx, so that the x = 0xF cases
 * come out as they do in the source.
 */
module Registers {
  import opened Machine
  import opened State

  /** `set_vx`: Vx := kk. */
  function SetVX(c: Cpu, x: Nibble, kk: Byte): (c': Cpu)
    requires Valid(c)
    ensures Valid(c') && OnlyRegsChanged(c, c') && RegsKept(c, c', {x})
    ensures c'.reg[x] == kk
  {
    c.(reg := c.reg[x := kk])
  }

  /** `add_vx`: Vx := (Vx + kk) mod 256; VF is left alone unless it is Vx. */
  function AddVX(c: Cpu, x: Nibble, kk: Byte): (c': Cpu)
    requires Valid(c)
    ensures Valid(c') && OnlyRegsChanged(c, c') && RegsKept(c, c', {x})
    ensures c'.reg[x] < c.reg[x] <==> c.reg[x] as int + kk > 0xFF
    ensures (c'.reg[x] as int - c.reg[x] - kk) % 0x100 == 0
  {
    var res := (c.reg[x] as int + kk) % 0x100;
    c.(reg := c.reg[x := res])
  }

  /** Adding kk and then 256 - kk gives the register back. */
  lemma AddVXInverse(c: Cpu, x: Nibble, kk: Byte)
    requires Valid(c)
    ensures AddVX(AddVX(c, x, kk), x, (0x100 - kk) % 0x100) == c
  {
    var c1 := AddVX(c, x, kk);
    var c2 := AddVX(c1, x, (0x100 - kk) % 0x100);
    assert c2.reg == c.reg;
  }

  /** Two additions are one addition of the wrapped sum. */
  lemma AddVXCompose(c: Cpu, x: Nibble, a: Byte, b: Byte)
    requires Valid(c)
    ensures AddVX(AddVX(c, x, a), x, b) == AddVX(c, x, (a + b) % 0x100)
  {
    WrappedSum(c.reg[x], a, b);
    assert AddVX(AddVX(c, x, a), x, b).reg == AddVX(c, x, (a + b) % 0x100).reg;
  }

  /** Wrapping after each byte addition is wrapping once at the end. */
  lemma WrappedSum(v: Byte, a: Byte, b: Byte)
    ensures ((v as int + a) % 0x100 + b) % 0x100 == (v as int + (a + b) % 0x100) % 0x100
  {
    var t := v as int + a + b;
    var l := if v as int + a >= 0x100 then t - 0x100 else t;
    var r := if a as int + b >= 0x100 then t - 0x100 else t;
    assert (v as int + a) % 0x100 + b == l;
    assert v as int + (a + b) % 0x100 == r;
    assert l % 0x100 == t % 0x100 == r % 0x100;
  }

  /** `set_vx_to_vy`: Vx := Vy. */
  function SetVXToVY(c: Cpu, x: Nibble, y: Nibble): (c': Cpu)
    requires Valid(c)
    ensures Valid(c') && OnlyRegsChanged(c, c') && RegsKept(c, c', {x})
    ensures c'.reg[x] == c'.reg[y] == c.reg[y]
  {
    c.(reg := c.reg[x := c.reg[y]])
  }

  /** `binary_or`: Vx := Vx | Vy. */
  function BinaryOr(c: Cpu, x: Nibble, y: Nibble): (c': Cpu)
    requires Valid(c)
    ensures Valid(c') && OnlyRegsChanged(c, c') && RegsKept(c, c', {x})
    ensures c'.reg[x] == Or(c.reg[x], c.reg[y])
    ensures c'.reg[x] >= c.reg[x] && c'.reg[x] >= c.reg[y]
  {
    c.(reg := c.reg[x := Or(c.reg[x], c.reg[y])])
  }

  /** `binary_and`: Vx := Vx & Vy. */
  function BinaryAnd(c: Cpu, x: Nibble, y: Nibble): (c': Cpu)
    requires Valid(c)
    ensures Valid(c') && OnlyRegsChanged(c, c') && RegsKept(c, c', {x})
    ensures c'.reg[x] == And(c.reg[x], c.reg[y])
    ensures c'.reg[x] <= c.reg[x] && c'.reg[x] <= c.reg[y]
  {
    c.(reg := c.reg[x := And(c.reg[x], c.reg[y])])
  }

  /** `binary_xor`: Vx := Vx ^ Vy. */
  function BinaryXor(c: Cpu, x: Nibble, y: Nibble): (c': Cpu)
    requires Valid(c)
    ensures Valid(c') && OnlyRegsChanged(c, c') && RegsKept(c, c', {x})
    ensures c'.reg[x] == Xor(c.reg[x], c.reg[y])
    ensures x == y ==> c'.reg[x] == 0
  {
    XorSelf(c.reg[x]);
    c.(reg := c.reg[x := Xor(c.reg[x], c.reg[y])])
  }

  lemma {:induction false} XorBitsSelf(a: nat, k: nat)
    ensures XorBits(a, a, k) == 0
  {
    if k > 0 {
      XorBitsSelf(a / 2, k - 1);
    }
  }

  lemma XorSelf(a: Byte)
    ensures Xor(a, a) == 0
  {
    XorBitsSelf(a, 8);
  }

  /** 8XY3 twice with two different registers leaves the machine as it was. */
  lemma XorTwiceRestores(c: Cpu, x: Nibble, y: Nibble)
    requires Valid(c) && x != y
    ensures BinaryXor(BinaryXor(c, x, y), x, y) == c
  {
    XorCancel(c.reg[x], c.reg[y]);
    assert BinaryXor(BinaryXor(c, x, y), x, y).reg == c.reg;
  }

  /** 8XY1 and 8XY2 a second time change nothing. */
  lemma OrAndIdempotent(c: Cpu, x: Nibble, y: Nibble)
    requires Valid(c)
    ensures BinaryOr(BinaryOr(c, x, y), x, y) == BinaryOr(c, x, y)
    ensures BinaryAnd(BinaryAnd(c, x, y), x, y) == BinaryAnd(c, x, y)
  {
    Idempotent(c.reg[x]);
    var o := BinaryOr(c, x, y);
    OrAbsorbs(c.reg[x], c.reg[y]);
    assert BinaryOr(o, x, y).reg == o.reg;
    var a := BinaryAnd(c, x, y);
    AndAbsorbs(c.reg[x], c.reg[y]);
    assert BinaryAnd(a, x, y).reg == a.reg;
  }

  lemma {:induction false} OrBitsAbsorbs(a: nat, b: nat, k: nat)
    ensures OrBits(OrBits(a, b, k), b, k) == OrBits(a, b, k)
  {
    if k > 0 {
      var r := OrBits(a / 2, b / 2, k - 1);
      var bit := if a % 2 == 1 || b % 2 == 1 then 1 else 0;
      assert (2 * r + bit) / 2 == r && (2 * r + bit) % 2 == bit;
      OrBitsAbsorbs(a / 2, b / 2, k - 1);
    }
  }

  lemma {:induction false} AndBitsAbsorbs(a: nat, b: nat, k: nat)
    ensures AndBits(AndBits(a, b, k), b, k) == AndBits(a, b, k)
  {
    if k > 0 {
      var r := AndBits(a / 2, b / 2, k - 1);
      var bit := if a % 2 == 1 && b % 2 == 1 then 1 else 0;
      assert (2 * r + bit) / 2 == r && (2 * r + bit) % 2 == bit;
      AndBitsAbsorbs(a / 2, b / 2, k - 1);
    }
  }

  lemma OrAbsorbs(a: Byte, b: Byte)
    ensures Or(Or(a, b), b) == Or(a, b)
  {
    OrBitsAbsorbs(a, b, 8);
  }

  lemma AndAbsorbs(a: Byte, b: Byte)
    ensures And(And(a, b), b) == And(a, b)
  {
    AndBitsAbsorbs(a, b, 8);
  }

  /**
   * `add_vy_to_vx`: VF := 1 when Vx + Vy exceeds 255, else 0; then
   * Vx := (Vx + Vy) mod 256, so with x = 0xF the sum wins over the flag.
   */
  function AddVYToVX(c: Cpu, x: Nibble, y: Nibble): (c': Cpu)
    requires Valid(c)
    ensures Valid(c') && OnlyRegsChanged(c, c') && RegsKept(c, c', {x, VF})
    ensures x != VF ==> c'.reg[x] as int + 0x100 * (c'.reg[VF] as int) == c.reg[x] as int + c.reg[y]
    ensures x != VF ==> (c'.reg[VF] == 1 <==> c.reg[x] as int + c.reg[y] > 0xFF)
    ensures x == VF ==> c'.reg[VF] == (c.reg[x] as int + c.reg[y]) % 0x100
  {
    var sum := c.reg[x] as int + c.reg[y];
    if sum > 0xFF then
      c.(reg := c.reg[VF := 1][x := sum % 0x100])
    else
      c.(reg := c.reg[VF := 0][x := sum])
  }

  /**
   * Shared body of `sub_vy_from_vx` and `sub_vx_from_vy`: VF := 0 and
   * Vx := 256 - (s - m) on a borrow, else VF := 1 and Vx := m - s.
   */
  function Subtract(c: Cpu, x: Nibble, minuend: Byte, subtrahend: Byte): (c': Cpu)
    requires Valid(c)
    ensures Valid(c') && OnlyRegsChanged(c, c') && RegsKept(c, c', {x, VF})
    ensures x != VF ==> c'.reg[x] == minuend as int - subtrahend + 0x100 * (1 - c'.reg[VF] as int)
    ensures x != VF ==> c'.reg[VF] == if minuend >= subtrahend then 1 else 0
    ensures x == VF ==> c'.reg[VF] == (minuend as int - subtrahend) % 0x100
  {
    if minuend < subtrahend then
      c.(reg := c.reg[VF := 0][x := 0x100 - (subtrahend - minuend)])
    else
      c.(reg := c.reg[VF := 1][x := minuend - subtrahend])
  }

  /** `sub_vy_from_vx`: Vx := (Vx - Vy) mod 256, VF := 1 when Vx >= Vy. */
  function SubVYFromVX(c: Cpu, x: Nibble, y: Nibble): (c': Cpu)
    requires Valid(c)
    ensures Valid(c') && OnlyRegsChanged(c, c') && RegsKept(c, c', {x, VF})
    ensures x != VF ==> c'.reg[x] == (c.reg[x] as int - c.reg[y]) % 0x100
    ensures x != VF ==> c'.reg[VF] == if c.reg[x] >= c.reg[y] then 1 else 0
    ensures x == VF ==> c'.reg[VF] == (c.reg[x] as int - c.reg[y]) % 0x100
  {
    Subtract(c, x, c.reg[x], c.reg[y])
  }

  /** `sub_vx_from_vy`: Vx := (Vy - Vx) mod 256, VF := 1 when Vy >= Vx. */
  function SubVXFromVY(c: Cpu, x: Nibble, y: Nibble): (c': Cpu)
    requires Valid(c)
    ensures Valid(c') && OnlyRegsChanged(c, c') && RegsKept(c, c', {x, VF})
    ensures x != VF ==> c'.reg[x] == (c.reg[y] as int - c.reg[x]) % 0x100
    ensures x != VF ==> c'.reg[VF] == if c.reg[y] >= c.reg[x] then 1 else 0
    ensures x == VF ==> c'.reg[VF] == (c.reg[y] as int - c.reg[x]) % 0x100
  {
    Subtract(c, x, c.reg[y], c.reg[x])
  }

  /**
   * Adding Vy back after 8XY5-style subtraction restores Vx, and the carry
   * of the addition is exactly the borrow of the subtraction.
   */
  lemma SubThenAddRestores(c: Cpu, x: Nibble, y: Nibble)
    requires Valid(c) && x != y && x != VF && y != VF
    ensures AddVYToVX(SubVYFromVX(c, x, y), x, y).reg[x] == c.reg[x]
    ensures AddVYToVX(SubVYFromVX(c, x, y), x, y).reg[VF] == 1 - SubVYFromVX(c, x, y).reg[VF]
  {
  }

  /**
   * `shift_right`: VF := the bit shifted out, Vx := Vx >> 1; Vy is not
   * read and the flag is written last, so with x = 0xF the flag wins.
   */
  function ShiftRight(c: Cpu, x: Nibble, y: Nibble): (c': Cpu)
    requires Valid(c)
    ensures Valid(c') && OnlyRegsChanged(c, c') && RegsKept(c, c', {x, VF})
    ensures c'.reg[VF] == c.reg[x] % 2
    ensures x != VF ==> c'.reg[x] == c.reg[x] / 2
    ensures x != VF ==> 2 * (c'.reg[x] as int) + c'.reg[VF] == c.reg[x]
  {
    var flag := c.reg[x] % 2;
    c.(reg := c.reg[x := c.reg[x] / 2][VF := flag])
  }

  /**
   * `shift_left`: VF := the bit shifted out, Vx := (Vx << 1) truncated to
   * 8 bits; Vy is not read and the flag is written last.
   */
  function ShiftLeft(c: Cpu, x: Nibble, y: Nibble): (c': Cpu)
    requires Valid(c)
    ensures Valid(c') && OnlyRegsChanged(c, c') && RegsKept(c, c', {x, VF})
    ensures c'.reg[VF] == c.reg[x] / 0x80
    ensures x != VF ==> c'.reg[x] == 2 * (c.reg[x] as int) % 0x100
    ensures x != VF ==> 0x100 * (c'.reg[VF] as int) + c'.reg[x] == 2 * (c.reg[x] as int)
  {
    var flag := c.reg[x] / 0x80;
    c.(reg := c.reg[x := (c.reg[x] as int) * 2 % 0x100][VF := flag])
  }

  /** Shifting right and back left clears the low bit of Vx. */
  lemma ShiftRightThenLeft(c: Cpu, x: Nibble, y: Nibble)
    requires Valid(c) && x != VF
    ensures ShiftLeft(ShiftRight(c, x, y), x, y).reg[x] == c.reg[x] - c.reg[x] % 2
    ensures ShiftLeft(ShiftRight(c, x, y), x, y).reg[VF] == 0
  {
  }

  /** `random`: Vx := r & kk, where r is the random byte drawn by the source. */
  function Random(c: Cpu, x: Nibble, kk: Byte, r: Byte): (c': Cpu)
    requires Valid(c)
    ensures Valid(c') && OnlyRegsChanged(c, c') && RegsKept(c, c', {x})
    ensures c'.reg[x] == And(r, kk)
    ensures c'.reg[x] <= kk && c'.reg[x] <= r
  {
    c.(reg := c.reg[x := And(r, kk)])
  }

  /** A mask of 0xFF passes the random byte through; a mask of 0 gives 0. */
  lemma RandomMaskExtremes(c: Cpu, x: Nibble, r: Byte)
    requires Valid(c)
    ensures Random(c, x, 0xFF, r).reg[x] == r
    ensures Random(c, x, 0, r).reg[x] == 0
  {
    MaskExtremes(r);
  }

  /** `set_vx_to_dt`: Vx := dt. */
  function SetVXToDT(c: Cpu, x: Nibble): (c': Cpu)
    requires Valid(c)
    ensures Valid(c') && OnlyRegsChanged(c, c') && RegsKept(c, c', {x})
    ensures c'.reg[x] == c.dt
  {
    c.(reg := c.reg[x := c.dt])
  }

  /** `set_dt_to_vx`: dt := Vx. */
  function SetDTToVX(c: Cpu, x: Nibble): (c': Cpu)
    requires Valid(c)
    ensures Valid(c') && c' == c.(dt := c'.dt)
    ensures c'.dt == c.reg[x]
  {
    c.(dt := c.reg[x])
  }

  /** `set_st_to_vx`: st := Vx. */
  function SetSTToVX(c: Cpu, x: Nibble): (c': Cpu)
    requires Valid(c)
    ensures Valid(c') && c' == c.(st := c'.st)
    ensures c'.st == c.reg[x]
  {
    c.(st := c.reg[x])
  }

  /** FX15 then FY07 copies Vx to Vy through the delay timer. */
  lemma DelayTimerRoundTrip(c: Cpu, x: Nibble, y: Nibble)
    requires Valid(c)
    ensures SetVXToDT(SetDTToVX(c, x), y).reg[y] == c.reg[x]
    ensures SetVXToDT(SetDTToVX(c, x), y) == SetVXToVY(c, y, x).(dt := c.reg[x])
  {
  }
}

/**
 * The unit tests at the end of cpu.rs, stated as lemmas about `Execute` on
 * a fresh `Cpu::new()` with a few registers set (the bitwise tests on any
 * state with the two registers set). Each lemma states what the
 * model computes; all agree with the Rust assertions except the 8XY5 case,
 * where the decoder's pairing of 8XY5 with `SubVXFromVY` gives the reverse
 * of what the test expects.
 */
module Scenarios {
  import opened Machine
  import opened State
  import opened Interpreter
  import Decoder

  /** `Cpu::new()` with register `i` set to `v`. */
  function With(c: Cpu, i: Nibble, v: Byte): Cpu
    requires Valid(c)
  {
    c.(reg := c.reg[i := v])
  }

  /** `test_jump`: 1234 sets pc to 0x234. */
  lemma JumpExample(key: Option<Byte>, rnd: Byte)
    ensures CanExecute(New(), 0x1234, key)
    ensures var r := Execute(New(), 0x1234, key, rnd); r.Ran? && r.cpu.pc == 0x234
  {
  }

  /** `test_return_sub`: 00EE with 0x222 in slot 0 returns to 0x222. */
  lemma ReturnExample(key: Option<Byte>, rnd: Byte)
    ensures var c := New().(stack := New().stack[0 := 0x222]);
            && CanExecute(c, 0x00EE, key)
            && var r := Execute(c, 0x00EE, key, rnd);
               r.Ran? && r.cpu.pc == 0x222 && r.cpu.stack[0] == 0
  {
    var c := New().(stack := New().stack[0 := 0x222]);
    ExecuteControl(c, 0x00EE, key, rnd);
  }

  /** `test_goto_sub`: 2123 at pc 1 jumps to 0x123 and saves 1 in slot 0. */
  lemma CallExample(key: Option<Byte>, rnd: Byte)
    ensures var c := New().(pc := 1);
            && CanExecute(c, 0x2123, key)
            && var r := Execute(c, 0x2123, key, rnd);
               r.Ran? && r.cpu.pc == 0x123 && r.cpu.stack[0] == 1
  {
  }

  /** `test_skip_equal` and `test_skip_not_equal`: 3001 with V0 = 1 and 4001 with V0 = 2 skip. */
  lemma ImmediateSkipExamples(key: Option<Byte>, rnd: Byte)
    ensures CanExecute(With(New(), 0, 1), 0x3001, key)
    ensures Execute(With(New(), 0, 1), 0x3001, key, rnd).cpu.pc == 0x202
    ensures CanExecute(With(New(), 0, 2), 0x4001, key)
    ensures Execute(With(New(), 0, 2), 0x4001, key, rnd).cpu.pc == 0x202
  {
  }

  /** `test_skip_vx_equal_vy`: 5010 skips when V0 = V1 = 1. */
  lemma RegisterSkipEqualExample(key: Option<Byte>, rnd: Byte)
    ensures var c := With(With(New(), 0, 1), 1, 1);
            CanExecute(c, 0x5010, key) && Execute(c, 0x5010, key, rnd).cpu.pc == 0x202
  {
  }

  /**
   * `test_skip_vx_not_equal_vy`: 9010 skips when V0 = 1 and V1 = 0, and
   * not once V1 = 1.
   */
  lemma RegisterSkipNotEqualExamples(key: Option<Byte>, rnd: Byte)
    ensures var c := With(New(), 0, 1);
            CanExecute(c, 0x9010, key) && Execute(c, 0x9010, key, rnd).cpu.pc == 0x202
    ensures var c := With(With(New(), 0, 1), 1, 1).(pc := 0x202);
            CanExecute(c, 0x9010, key) && Execute(c, 0x9010, key, rnd).cpu.pc == 0x202
  {
  }

  /** `test_set_vx`: 6012 loads 0x12 into V0. */
  lemma SetVXExample(key: Option<Byte>, rnd: Byte)
    ensures CanExecute(New(), 0x6012, key)
    ensures Execute(New(), 0x6012, key, rnd).cpu.reg[0] == 0x12
  {
    ExecuteLoad(New(), 0x6012, key, rnd);
  }

  /** `test_add_without_carry`: 7112 adds 0x12 to V1 = 1 and leaves VF at 0. */
  lemma AddWithoutCarryExample(key: Option<Byte>, rnd: Byte)
    ensures CanExecute(With(New(), 1, 1), 0x7112, key)
    ensures var r := Execute(With(New(), 1, 1), 0x7112, key, rnd);
            r.cpu.reg[1] == 0x13 && r.cpu.reg[VF] == 0
  {
    ExecuteLoad(With(New(), 1, 1), 0x7112, key, rnd);
  }

  /** `test_set_vx_to_vy`: 8010 copies V1 = 2 into V0. */
  lemma MoveExample(key: Option<Byte>, rnd: Byte)
    ensures var c := With(With(New(), 0, 1), 1, 2);
            CanExecute(c, 0x8010, key) && Execute(c, 0x8010, key, rnd).cpu.reg[0] == 2
  {
  }

  /** `test_binary_or`: 0b010 | 0b110 == 0b110. Stated for any state with V0 = 2 and V1 = 6. */
  lemma OrExample(c: Cpu, key: Option<Byte>, rnd: Byte)
    requires Valid(c) && c.reg[0] == 2 && c.reg[1] == 6
    ensures CanExecute(c, 0x8011, key) && Execute(c, 0x8011, key, rnd).cpu.reg[0] == 6
  {
    Family8Word(0x8011);
    ExecuteArithmetic(c, 0x8011, key, rnd);
    OrValue(c.reg[0], c.reg[1]);
  }

  /** `test_binary_and`: 0b011 & 0b110 == 0b010. Stated for any state with V0 = 3 and V1 = 6. */
  lemma AndExample(c: Cpu, key: Option<Byte>, rnd: Byte)
    requires Valid(c) && c.reg[0] == 3 && c.reg[1] == 6
    ensures CanExecute(c, 0x8012, key) && Execute(c, 0x8012, key, rnd).cpu.reg[0] == 2
  {
    Family8Word(0x8012);
    ExecuteArithmetic(c, 0x8012, key, rnd);
    AndValue(c.reg[0], c.reg[1]);
  }

  /** `test_binary_xor`: 0b011 ^ 0b111 == 0b100. Stated for any state with V0 = 3 and V1 = 7. */
  lemma XorExample(c: Cpu, key: Option<Byte>, rnd: Byte)
    requires Valid(c) && c.reg[0] == 3 && c.reg[1] == 7
    ensures CanExecute(c, 0x8013, key) && Execute(c, 0x8013, key, rnd).cpu.reg[0] == 4
  {
    Family8Word(0x8013);
    ExecuteArithmetic(c, 0x8013, key, rnd);
    XorValue(c.reg[0], c.reg[1]);
  }

  /** The fields and the decoding of the bitwise test words 801N. */
  lemma Family8Word(inst: Word)
    requires 0x8011 <= inst <= 0x8013
    ensures var f := Decoder.Split(inst); f.x == 0 && f.y == 1 && f.n == inst - 0x8010
    ensures inst == 0x8011 ==> Decoder.DecodeWord(inst) == Decoder.Decoded(Decoder.BinaryOr)
    ensures inst == 0x8012 ==> Decoder.DecodeWord(inst) == Decoder.Decoded(Decoder.BinaryAnd)
    ensures inst == 0x8013 ==> Decoder.DecodeWord(inst) == Decoder.Decoded(Decoder.BinaryXor)
  {
  }

  /** The bit arithmetic behind `test_binary_or`. */
  lemma OrValue(a: Byte, b: Byte)
    requires a == 2 && b == 6
    ensures Or(a, b) == 6
  {
    LowBitsZero(5);
    assert OrBits(0, 1, 6) == 1;
    assert OrBits(1, 3, 7) == 3;
  }

  /** The bit arithmetic behind `test_binary_and`. */
  lemma AndValue(a: Byte, b: Byte)
    requires a == 3 && b == 6
    ensures And(a, b) == 2
  {
    LowBitsZero(5);
    assert AndBits(0, 1, 6) == 0;
    assert AndBits(1, 3, 7) == 1;
  }

  /** The bit arithmetic behind `test_binary_xor`. */
  lemma XorValue(a: Byte, b: Byte)
    requires a == 3 && b == 7
    ensures Xor(a, b) == 4
  {
    LowBitsZero(5);
    assert XorBits(0, 1, 6) == 1;
    assert XorBits(1, 3, 7) == 2;
  }

  /** Every bit operation on two zeros is zero. */
  lemma {:induction false} LowBitsZero(k: nat)
    ensures AndBits(0, 0, k) == 0 && OrBits(0, 0, k) == 0 && XorBits(0, 0, k) == 0
  {
    if k > 0 {
      LowBitsZero(k - 1);
    }
  }

  /** `test_add_with_carry`: 128 + 128 gives 0 with VF = 1; 2 + 3 gives 5 with VF = 0. */
  lemma CarryExamples(key: Option<Byte>, rnd: Byte)
    ensures var c := With(With(New(), 0, 128), 1, 128);
            && CanExecute(c, 0x8014, key)
            && var r := Execute(c, 0x8014, key, rnd); r.cpu.reg[0] == 0 && r.cpu.reg[VF] == 1
    ensures var c := With(With(New(), 0, 2), 1, 3);
            && CanExecute(c, 0x8014, key)
            && var r := Execute(c, 0x8014, key, rnd); r.cpu.reg[0] == 5 && r.cpu.reg[VF] == 0
  {
  }

  /**
   * `test_sub_vy_from_vx` expects 8015 with V0 = 4, V1 = 2 to give V0 = 2,
   * VF = 1. The decoder sends 8XY5 to `SubVXFromVY`, which computes
   * V1 - V0 instead: V0 = 0xFE with VF = 0, and the second case of the
   * test is reversed the same way.
   */
  lemma SubtractionExampleReversed(key: Option<Byte>, rnd: Byte)
    ensures var c := With(With(New(), 0, 4), 1, 2);
            && CanExecute(c, 0x8015, key)
            && var r := Execute(c, 0x8015, key, rnd); r.cpu.reg[0] == 0xFE && r.cpu.reg[VF] == 0
    ensures var c := With(With(New(), 0, 2), 1, 4);
            && CanExecute(c, 0x8015, key)
            && var r := Execute(c, 0x8015, key, rnd); r.cpu.reg[0] == 2 && r.cpu.reg[VF] == 1
  {
  }

  /**
   * Under the decoder the enum's comments describe, the four assertions of
   * `test_sub_vy_from_vx` hold: 8015 on V0 = 4, V1 = 2 gives V0 = 2 with
   * VF = 1, and on V0 = 2, V1 = 4 gives V0 = 254 with VF = 0.
   */
  lemma SubtractionExampleIntended(key: Option<Byte>, rnd: Byte)
    ensures var c := With(With(New(), 0, 4), 1, 2);
            && CanExecute(c, 0x8015, key)
            && var r := ExecuteIntended(c, 0x8015, key, rnd); r.cpu.reg[0] == 2 && r.cpu.reg[VF] == 1
    ensures var c := With(With(New(), 0, 2), 1, 4);
            && CanExecute(c, 0x8015, key)
            && var r := ExecuteIntended(c, 0x8015, key, rnd); r.cpu.reg[0] == 254 && r.cpu.reg[VF] == 0
  {
  }

  /** `test_shift_right`: 8016 on V0 = 0xFF gives 0x7F with VF = 1. */
  lemma ShiftRightExample(key: Option<Byte>, rnd: Byte)
    ensures var c := With(New(), 0, 0xFF);
            && CanExecute(c, 0x8016, key)
            && var r := Execute(c, 0x8016, key, rnd); r.cpu.reg[0] == 0x7F && r.cpu.reg[VF] == 1
  {
  }

  /** `test_shift_left`: 801E on V0 = 0xFF gives 0xFE with VF = 1. */
  lemma ShiftLeftExample(key: Option<Byte>, rnd: Byte)
    ensures var c := With(New(), 0, 0xFF);
            && CanExecute(c, 0x801E, key)
            && var r := Execute(c, 0x801E, key, rnd); r.cpu.reg[0] == 0xFE && r.cpu.reg[VF] == 1
  {
  }

  /** `test_set_index`: A123 sets I to 0x123. */
  lemma SetIndexExample(key: Option<Byte>, rnd: Byte)
    ensures CanExecute(New(), 0xA123, key)
    ensures Execute(New(), 0xA123, key, rnd).cpu.index == 0x123
  {
  }

  /** `test_jump_with_offset`: B123 with V0 = 1 jumps to 0x124. */
  lemma JumpWithOffsetExample(key: Option<Byte>, rnd: Byte)
    ensures CanExecute(With(New(), 0, 1), 0xB123, key)
    ensures Execute(With(New(), 0, 1), 0xB123, key, rnd).cpu.pc == 0x124
  {
  }
}

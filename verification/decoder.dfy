/**
 * The instruction decoder: the operand split that `Cpu::execute_instruction`
 * performs on a 16-bit instruction word, and the conversion
 * `From<&RawOpcode> for Opcode` that names the instruction.
 *
 * Decoding is total over every `RawOpcode`, with three outcomes besides a
 * named instruction: `None` for a family-0 word that is neither 00E0 nor
 * 00EE, `Error` for a family above 0xF (impossible for a split word), and
 * `Unreachable` for the three `unreachable!()` arms, which panic.
 */
module Decoder {
  import opened Machine

  /** The fields `execute_instruction` cuts out of one instruction word. */
  datatype Fields = Fields(op: Nibble, x: Nibble, y: Nibble, n: Nibble, kk: Byte, nnn: Word)

  /**
   * `op = inst >> 12`, `x = (inst & 0x0F00) >> 8`, `y = (inst & 0x00F0) >> 4`,
   * `n = inst & 0xF`, `kk = inst & 0xFF`, `nnn = inst & 0xFFF`; on a
   * non-negative number masking the low bits is a remainder and shifting
   * right is a division.
   */
  function Split(inst: Word): (f: Fields)
    ensures f.op * 0x1000 + f.x * 0x100 + f.y * 0x10 + f.n == inst
    ensures f.kk == f.y * 0x10 + f.n
    ensures f.nnn == f.x * 0x100 + f.kk
    ensures f.nnn <= 0xFFF
  {
    NibbleSteps(inst);
    Fields(inst / 0x1000, inst % 0x1000 / 0x100, inst % 0x100 / 0x10,
           inst % 0x10, inst % 0x100, inst % 0x1000)
  }

  /** Each mask of `Split` is a remainder of the next wider one. */
  lemma NibbleSteps(inst: Word)
    ensures inst == inst / 0x1000 * 0x1000 + inst % 0x1000
    ensures inst % 0x1000 == inst % 0x1000 / 0x100 * 0x100 + inst % 0x100
    ensures inst % 0x100 == inst % 0x100 / 0x10 * 0x10 + inst % 0x10
  {
    var q, r := inst / 0x1000, inst % 0x1000;
    assert inst == 0x100 * (0x10 * q) + r;
    assert inst % 0x100 == r % 0x100;
    var q', r' := inst / 0x100, inst % 0x100;
    assert inst == 0x10 * (0x10 * q') + r';
    assert inst % 0x10 == r' % 0x10;
  }

  /** The instruction word whose four nibbles are `op`, `x`, `y` and `n`. */
  function Join(op: Nibble, x: Nibble, y: Nibble, n: Nibble): (inst: Word)
    ensures inst / 0x1000 == op
  {
    op * 0x1000 + x * 0x100 + y * 0x10 + n
  }

  /** Splitting the word built from four nibbles gives those nibbles back. */
  lemma SplitJoin(op: Nibble, x: Nibble, y: Nibble, n: Nibble)
    ensures Split(Join(op, x, y, n))
            == Fields(op, x, y, n, y * 0x10 + n, x * 0x100 + y * 0x10 + n)
  {
    var f := Split(Join(op, x, y, n));
    NibblesUnique(op, x, y, n, f.op, f.x, f.y, f.n);
  }

  lemma NibblesUnique(a: Nibble, b: Nibble, c: Nibble, d: Nibble,
                      a': Nibble, b': Nibble, c': Nibble, d': Nibble)
    requires a * 0x1000 + b * 0x100 + c * 0x10 + d == a' * 0x1000 + b' * 0x100 + c' * 0x10 + d'
    ensures a == a' && b == b' && c == c' && d == d'
  {
  }

  /** The `RawOpcode` the decoder is handed; the Rust fields are all `u16`. */
  datatype RawOpcode = RawOpcode(op: Word, x: Word, y: Word, n: Word, kk: Word)

  function RawOf(f: Fields): RawOpcode
  {
    RawOpcode(f.op, f.x, f.y, f.n, f.kk)
  }

  /** The 34 instructions of the Rust `Opcode` enum, plus its `None` and `Error`. */
  datatype Opcode =
    | Clear
    | Jump
    | ReturnSub
    | GotoSub
    | SkipEqual
    | SkipNotEqual
    | SkipVXEqualVY
    | SkipVXNotEqualVY
    | SkipIfKey
    | SkipIfNotKey
    | GetKey
    | SetVX
    | AddVX
    | SetI
    | AddI
    | JumpWithOffset
    | Random
    | Draw
    | FontCharacter
    | SetVXToVY
    | BinaryOr
    | BinaryAnd
    | BinaryXor
    | AddVYToVX
    | SubVYFromVX
    | SubVXFromVY
    | ShiftRight
    | ShiftLeft
    | BinaryCodedDecimalConversion
    | SetVXToDT
    | SetDTToVX
    | SetSTToVX
    | SaveRegisterToMemory
    | LoadRegisterFromMemory
    | None
    | Error

  /** The decoder's outcome: an `Opcode`, or the panic of an `unreachable!()` arm. */
  datatype Decoded = Decoded(opcode: Opcode) | Unreachable

  predicate IsInstruction(o: Opcode)
  {
    o != Opcode.None && o != Opcode.Error
  }

  /** The sub-operations of family 8, selected by `n`. */
  predicate IsArithmeticN(n: int)
  {
    0 <= n <= 7 || n == 0xE
  }

  /** The sub-operations of family F, selected by `kk`. */
  predicate IsMiscKk(kk: int)
  {
    || kk == 0x07 || kk == 0x15 || kk == 0x18 || kk == 0x1E || kk == 0x0A
    || kk == 0x29 || kk == 0x33 || kk == 0x55 || kk == 0x65
  }

  /** `Opcode::from(&RawOpcode)`. */
  function Decode(raw: RawOpcode): (d: Decoded)
    ensures d == Decoded(Opcode.Error) <==> raw.op > 0xF
    ensures d == Decoded(Opcode.None) ==> raw.op == 0
    ensures d == Unreachable <==>
              || (raw.op == 8 && !IsArithmeticN(raw.n))
              || (raw.op == 0xE && raw.kk != 0x9E && raw.kk != 0xA1)
              || (raw.op == 0xF && !IsMiscKk(raw.kk))
  {
    match raw.op
    case 0 =>
      if raw.x == 0 && raw.y == 0xE && raw.n == 0 then Decoded(Clear)
      else if raw.x == 0 && raw.y == 0xE && raw.n == 0xE then Decoded(ReturnSub)
      else Decoded(Opcode.None)
    case 1 => Decoded(Jump)
    case 2 => Decoded(GotoSub)
    case 3 => Decoded(SkipEqual)
    case 4 => Decoded(SkipNotEqual)
    case 5 => Decoded(SkipVXEqualVY)
    case 6 => Decoded(SetVX)
    case 7 => Decoded(AddVX)
    case 8 =>
      (match raw.n
       case 0 => Decoded(SetVXToVY)
       case 1 => Decoded(BinaryOr)
       case 2 => Decoded(BinaryAnd)
       case 3 => Decoded(BinaryXor)
       case 4 => Decoded(AddVYToVX)
       case 5 => Decoded(SubVXFromVY)
       case 6 => Decoded(ShiftRight)
       case 7 => Decoded(SubVYFromVX)
       case 0xE => Decoded(ShiftLeft)
       case _ => Unreachable)
    case 9 => Decoded(SkipVXNotEqualVY)
    case 0xA => Decoded(SetI)
    case 0xB => Decoded(JumpWithOffset)
    case 0xC => Decoded(Random)
    case 0xD => Decoded(Draw)
    case 0xE =>
      (match raw.kk
       case 0x9E => Decoded(SkipIfKey)
       case 0xA1 => Decoded(SkipIfNotKey)
       case _ => Unreachable)
    case 0xF =>
      (match raw.kk
       case 0x07 => Decoded(SetVXToDT)
       case 0x15 => Decoded(SetDTToVX)
       case 0x18 => Decoded(SetSTToVX)
       case 0x1E => Decoded(AddI)
       case 0x0A => Decoded(GetKey)
       case 0x29 => Decoded(FontCharacter)
       case 0x33 => Decoded(BinaryCodedDecimalConversion)
       case 0x55 => Decoded(SaveRegisterToMemory)
       case 0x65 => Decoded(LoadRegisterFromMemory)
       case _ => Unreachable)
    case _ => Decoded(Opcode.Error)
  }

  /**
   * Decoding the fields of a 16-bit instruction word. A word's family is at
   * most 0xF, so the `Error` arm is never taken, and only family 0 decodes
   * to `None`.
   */
  function DecodeWord(inst: Word): (d: Decoded)
    ensures d != Decoded(Opcode.Error)
    ensures d == Decoded(Opcode.None) ==> inst < 0x1000
  {
    Decode(RawOf(Split(inst)))
  }

  /** The families decoded from `op` alone. */
  predicate IsFixedFamily(op: int)
  {
    1 <= op <= 7 || 9 <= op <= 0xD
  }

  /**
   * Families 1-7 and 9-D name one instruction whatever the other fields
   * hold: 5XY1 is still `SkipVXEqualVY`.
   */
  lemma FixedFamilyIgnoresOperands(a: RawOpcode, b: RawOpcode)
    requires a.op == b.op && IsFixedFamily(a.op)
    ensures Decode(a) == Decode(b)
    ensures Decode(a).Decoded? && IsInstruction(Decode(a).opcode)
  {
  }

  /** Family 0 is 00E0, 00EE, or nothing at all. */
  lemma FamilyZero(raw: RawOpcode)
    requires raw.op == 0
    ensures Decode(raw) == Decoded(Clear) <==> (raw.x, raw.y, raw.n) == (0, 0xE, 0)
    ensures Decode(raw) == Decoded(ReturnSub) <==> (raw.x, raw.y, raw.n) == (0, 0xE, 0xE)
    ensures Decode(raw) == Decoded(Opcode.None) <==>
              (raw.x, raw.y, raw.n) != (0, 0xE, 0) && (raw.x, raw.y, raw.n) != (0, 0xE, 0xE)
  {
  }

  /** Family 8 looks only at `n`. */
  lemma FamilyEightSelectsOnN(a: RawOpcode, b: RawOpcode)
    requires a.op == 8 && b.op == 8 && a.n == b.n
    ensures Decode(a) == Decode(b)
  {
  }

  /** Families E and F look only at `kk`. */
  lemma FamiliesEFSelectOnKk(a: RawOpcode, b: RawOpcode)
    requires a.op == b.op && (a.op == 0xE || a.op == 0xF) && a.kk == b.kk
    ensures Decode(a) == Decode(b)
  {
  }

  /**
   * The decoder pairs 8XY5 with `SubVXFromVY` and 8XY7 with `SubVYFromVX`,
   * the reverse of the comments on the enum.
   */
  lemma SubtractionsSwapped(x: Nibble, y: Nibble)
    ensures DecodeWord(Join(8, x, y, 5)) == Decoded(SubVXFromVY)
    ensures DecodeWord(Join(8, x, y, 7)) == Decoded(SubVYFromVX)
  {
    SplitJoin(8, x, y, 5);
    SplitJoin(8, x, y, 7);
  }

  /**
   * The decoder with the two subtractions paired as the comments on the enum
   * and `test_sub_vy_from_vx` pair them: 8XY5 is `SubVYFromVX` (Vx - Vy)
   * and 8XY7 is `SubVXFromVY` (Vy - Vx). Every other word decodes as before.
   */
  function DecodeIntended(raw: RawOpcode): (d: Decoded)
    ensures d == Decoded(SubVYFromVX) <==> raw.op == 8 && raw.n == 5
    ensures d == Decoded(SubVXFromVY) <==> raw.op == 8 && raw.n == 7
    ensures !(raw.op == 8 && (raw.n == 5 || raw.n == 7)) ==> d == Decode(raw)
  {
    if raw.op == 8 && raw.n == 5 then Decoded(SubVYFromVX)
    else if raw.op == 8 && raw.n == 7 then Decoded(SubVXFromVY)
    else Decode(raw)
  }

  /** `DecodeIntended` on the fields of a 16-bit instruction word. */
  function DecodeWordIntended(inst: Word): (d: Decoded)
    ensures d != Decoded(Opcode.Error)
  {
    DecodeIntended(RawOf(Split(inst)))
  }

  /**
   * The two decoders disagree on exactly the words 8XY5 and 8XY7, and there
   * each gives the subtraction the other one gives.
   */
  lemma IntendedSwapsSubtractions(inst: Word)
    ensures var f := Split(inst);
            DecodeWordIntended(inst) != DecodeWord(inst) <==> f.op == 8 && (f.n == 5 || f.n == 7)
    ensures DecodeWordIntended(inst) == Decoded(SubVYFromVX) <==> DecodeWord(inst) == Decoded(SubVXFromVY)
    ensures DecodeWordIntended(inst) == Decoded(SubVXFromVY) <==> DecodeWord(inst) == Decoded(SubVYFromVX)
  {
  }

  /**
   * The four nibbles of the instruction word of `o` with register fields
   * `x`, `y` and low nibble `n`: the family and selector nibbles are fixed
   * by `o` (0x00E0, 0x8XY5, 0xFX33, ...) and the others come from `x`, `y`, `n`.
   */
  function Nibbles(o: Opcode, x: Nibble, y: Nibble, n: Nibble): (Nibble, Nibble, Nibble, Nibble)
    requires IsInstruction(o)
  {
    match o
    case Clear => (0, 0, 0xE, 0)
    case ReturnSub => (0, 0, 0xE, 0xE)
    case Jump => (1, x, y, n)
    case GotoSub => (2, x, y, n)
    case SkipEqual => (3, x, y, n)
    case SkipNotEqual => (4, x, y, n)
    case SkipVXEqualVY => (5, x, y, n)
    case SetVX => (6, x, y, n)
    case AddVX => (7, x, y, n)
    case SetVXToVY => (8, x, y, 0)
    case BinaryOr => (8, x, y, 1)
    case BinaryAnd => (8, x, y, 2)
    case BinaryXor => (8, x, y, 3)
    case AddVYToVX => (8, x, y, 4)
    case SubVXFromVY => (8, x, y, 5)
    case ShiftRight => (8, x, y, 6)
    case SubVYFromVX => (8, x, y, 7)
    case ShiftLeft => (8, x, y, 0xE)
    case SkipVXNotEqualVY => (9, x, y, n)
    case SetI => (0xA, x, y, n)
    case JumpWithOffset => (0xB, x, y, n)
    case Random => (0xC, x, y, n)
    case Draw => (0xD, x, y, n)
    case SkipIfKey => (0xE, x, 9, 0xE)
    case SkipIfNotKey => (0xE, x, 0xA, 1)
    case SetVXToDT => (0xF, x, 0, 7)
    case SetDTToVX => (0xF, x, 1, 5)
    case SetSTToVX => (0xF, x, 1, 8)
    case AddI => (0xF, x, 1, 0xE)
    case GetKey => (0xF, x, 0, 0xA)
    case FontCharacter => (0xF, x, 2, 9)
    case BinaryCodedDecimalConversion => (0xF, x, 3, 3)
    case SaveRegisterToMemory => (0xF, x, 5, 5)
    case LoadRegisterFromMemory => (0xF, x, 6, 5)
  }

  /** The instruction word of `o` with operands `x`, `y` and `n`. */
  function Assemble(o: Opcode, x: Nibble, y: Nibble, n: Nibble): Word
    requires IsInstruction(o)
  {
    var (a, b, c, d) := Nibbles(o, x, y, n);
    Join(a, b, c, d)
  }

  /** The raw opcode of the nibbles of `o` decodes to `o`. */
  lemma DecodeNibbles(o: Opcode, x: Nibble, y: Nibble, n: Nibble)
    requires IsInstruction(o)
    ensures var (a, b, c, d) := Nibbles(o, x, y, n);
            Decode(RawOpcode(a, b, c, d, c * 0x10 + d)) == Decoded(o)
  {
  }

  /** Every instruction is decoded from the word assembled for it. */
  lemma DecodeAssemble(o: Opcode, x: Nibble, y: Nibble, n: Nibble)
    requires IsInstruction(o)
    ensures DecodeWord(Assemble(o, x, y, n)) == Decoded(o)
  {
    var (a, b, c, d) := Nibbles(o, x, y, n);
    SplitJoin(a, b, c, d);
    DecodeNibbles(o, x, y, n);
  }

  /**
   * The nibbles of a decoded instruction, with its own x, y and n as
   * operands, are the nibbles it was decoded from.
   */
  lemma NibblesOfDecoded(f: Fields)
    requires f.kk == f.y * 0x10 + f.n
    requires Decode(RawOf(f)).Decoded? && IsInstruction(Decode(RawOf(f)).opcode)
    ensures Nibbles(Decode(RawOf(f)).opcode, f.x, f.y, f.n) == (f.op, f.x, f.y, f.n)
  {
  }

  /**
   * Conversely, a word that decodes to an instruction is the word assembled
   * for that instruction from the word's own x, y and n fields: the decoder
   * loses nothing but the fields an instruction does not select on.
   */
  lemma AssembleDecode(inst: Word)
    requires DecodeWord(inst).Decoded? && IsInstruction(DecodeWord(inst).opcode)
    ensures var f := Split(inst); Assemble(DecodeWord(inst).opcode, f.x, f.y, f.n) == inst
  {
    NibblesOfDecoded(Split(inst));
  }
}

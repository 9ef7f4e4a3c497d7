/**
 * `Cpu::execute_instruction`: split the word into its fields, decode it and
 * run the matching handler, returning the message the driver forwards to
 * the terminal.
 *
 * The key the Rust handlers poll and the random byte `random` draws are
 * parameters. A Rust panic is the `Panicked` outcome when it comes from the
 * decoder, and a precondition (`CanExecute`) when it comes from an index or
 * an overflow inside a handler.
 */
module Interpreter {
  import opened Machine
  import opened State
  import opened Decoder
  import Registers
  import Control
  import Memory
  import Sprite
  import SpriteFacts

  /** `Chip8Message`; the drawn display travels with `DrawScreen`. */
  datatype Message = None | ClearScreen | DrawScreen(display: Display)

  /** A state and a message, or the panic of an `unreachable!()` or `Error` arm. */
  datatype Outcome = Ran(cpu: Cpu, msg: Message) | Panicked

  /** The handlers that may move pc. */
  predicate MovesPc(o: Opcode)
  {
    o.Jump? || o.ReturnSub? || o.GotoSub? || o.SkipEqual? || o.SkipNotEqual?
    || o.SkipVXEqualVY? || o.SkipVXNotEqualVY? || o.SkipIfKey? || o.SkipIfNotKey?
    || o.GetKey? || o.JumpWithOffset?
  }

  /** The handlers that may write the stack. */
  predicate WritesStack(o: Opcode)
  {
    o.GotoSub? || o.ReturnSub?
  }

  /** The handlers that may write I. */
  predicate WritesIndex(o: Opcode)
  {
    o.SetI? || o.AddI? || o.FontCharacter?
  }

  /** The handlers that may write memory. */
  predicate WritesMemory(o: Opcode)
  {
    o.BinaryCodedDecimalConversion? || o.SaveRegisterToMemory?
  }

  /** The handlers that may write the timers. */
  predicate WritesTimers(o: Opcode)
  {
    o.SetDTToVX? || o.SetSTToVX?
  }

  /** The handlers that leave the registers V0..VF alone. */
  predicate KeepsRegisters(o: Opcode)
  {
    || (MovesPc(o) && !o.GetKey?)
    || WritesStack(o) || WritesMemory(o) || WritesTimers(o)
    || o.Clear? || o.SetI? || o.FontCharacter? || o.None?
  }

  /**
   * What the handler of `o` needs so that it does not panic: a pc that does
   * not overflow on a skip or underflow on a key wait, an I that does not
   * overflow, and memory and display indices in bounds.
   */
  predicate HandlerSafe(c: Cpu, o: Opcode, f: Fields, key: Option<Byte>)
    requires Valid(c)
  {
    match o
    case SkipEqual => c.reg[f.x] == f.kk ==> c.pc + 2 <= 0xFFFF
    case SkipNotEqual => c.reg[f.x] != f.kk ==> c.pc + 2 <= 0xFFFF
    case SkipVXEqualVY => c.reg[f.x] == c.reg[f.y] ==> c.pc + 2 <= 0xFFFF
    case SkipVXNotEqualVY => c.reg[f.x] != c.reg[f.y] ==> c.pc + 2 <= 0xFFFF
    case SkipIfKey => key == Some(c.reg[f.x]) ==> c.pc + 2 <= 0xFFFF
    case SkipIfNotKey => key != Some(c.reg[f.x]) ==> c.pc + 2 <= 0xFFFF
    case GetKey => key.None? ==> c.pc >= 2
    case AddI => c.index + c.reg[f.x] <= 0xFFFF
    case Draw => Sprite.DrawSafe(c, f.x, f.y, f.n)
    case BinaryCodedDecimalConversion => c.index + 2 < MEMORY_SIZE
    case SaveRegisterToMemory => c.index + f.x < MEMORY_SIZE
    case LoadRegisterFromMemory => c.index + f.x < MEMORY_SIZE
    case _ => true
  }

  /** No handler of the decoded word panics. */
  predicate CanExecute(c: Cpu, inst: Word, key: Option<Byte>)
    requires Valid(c)
  {
    DecodeWord(inst).Decoded? ==> HandlerSafe(c, DecodeWord(inst).opcode, Split(inst), key)
  }

  /** The byte operations of family 8. */
  predicate ArithmeticOp(o: Opcode)
  {
    o.SetVXToVY? || o.BinaryOr? || o.BinaryAnd? || o.BinaryXor? || o.AddVYToVX?
    || o.SubVYFromVX? || o.SubVXFromVY? || o.ShiftRight? || o.ShiftLeft?
  }

  /** The loads, the random mask and the timer moves. */
  predicate LoadOp(o: Opcode)
  {
    o.SetVX? || o.AddVX? || o.Random? || o.SetVXToDT? || o.SetDTToVX? || o.SetSTToVX?
  }

  /** The handlers of `Memory`, which work through I. */
  predicate IndexOp(o: Opcode)
  {
    o.SetI? || o.AddI? || o.FontCharacter? || o.BinaryCodedDecimalConversion?
    || o.SaveRegisterToMemory? || o.LoadRegisterFromMemory?
  }

  /** Each part of the state changes only under the handlers that own it. */
  predicate Framed(c: Cpu, c': Cpu, o: Opcode)
  {
    && (c'.disp != c.disp ==> o.Draw?)
    && (c'.pc != c.pc ==> MovesPc(o))
    && (c'.stack != c.stack ==> WritesStack(o))
    && (c'.index != c.index ==> WritesIndex(o))
    && (c'.mem != c.mem ==> WritesMemory(o))
    && (c'.dt != c.dt || c'.st != c.st ==> WritesTimers(o))
    && (KeepsRegisters(o) ==> c'.reg == c.reg)
  }

  /** The arms of the jumps, calls, skips and key wait. */
  function RunControl(c: Cpu, o: Opcode, inst: Word, key: Option<Byte>): (c': Cpu)
    requires Valid(c) && HandlerSafe(c, o, Split(inst), key)
    ensures Valid(c') && Framed(c, c', o)
    ensures c' == c.(pc := c'.pc, stack := c'.stack, reg := c'.reg)
    ensures !WritesStack(o) ==> c'.stack == c.stack
    ensures !o.GetKey? ==> c'.reg == c.reg
  {
    var f := Split(inst);
    match o
    case Jump => Control.Jump(c, f.nnn)
    case ReturnSub => Control.ReturnSub(c)
    case GotoSub => Control.GotoSub(c, f.nnn)
    case SkipEqual => Control.SkipEqual(c, f.x, f.kk)
    case SkipNotEqual => Control.SkipNotEqual(c, f.x, f.kk)
    case SkipVXEqualVY => Control.SkipVXEqualVY(c, f.x, f.y)
    case SkipVXNotEqualVY => Control.SkipVXNotEqualVY(c, f.x, f.y)
    case SkipIfKey => Control.SkipIfKey(c, f.x, key)
    case SkipIfNotKey => Control.SkipIfNotKey(c, f.x, key)
    case GetKey => Control.GetKey(c, f.x, key)
    case JumpWithOffset => Control.JumpWithOffset(c, f.nnn)
    case _ => c
  }

  /** The arms of the loads, the random mask and the timer moves. */
  function RunLoad(c: Cpu, o: Opcode, inst: Word, rnd: Byte): (c': Cpu)
    requires Valid(c)
    ensures Valid(c') && Framed(c, c', o)
    ensures c' == c.(reg := c'.reg, dt := c'.dt, st := c'.st)
    ensures WritesTimers(o) ==> c'.reg == c.reg
    ensures !WritesTimers(o) ==> c'.dt == c.dt && c'.st == c.st
  {
    var f := Split(inst);
    match o
    case SetVX => Registers.SetVX(c, f.x, f.kk)
    case AddVX => Registers.AddVX(c, f.x, f.kk)
    case Random => Registers.Random(c, f.x, f.kk, rnd)
    case SetVXToDT => Registers.SetVXToDT(c, f.x)
    case SetDTToVX => Registers.SetDTToVX(c, f.x)
    case SetSTToVX => Registers.SetSTToVX(c, f.x)
    case _ => c
  }

  /** The arms of family 8. */
  function RunArithmetic(c: Cpu, o: Opcode, inst: Word): (c': Cpu)
    requires Valid(c)
    ensures Valid(c') && Framed(c, c', o) && OnlyRegsChanged(c, c')
  {
    var f := Split(inst);
    match o
    case SetVXToVY => Registers.SetVXToVY(c, f.x, f.y)
    case BinaryOr => Registers.BinaryOr(c, f.x, f.y)
    case BinaryAnd => Registers.BinaryAnd(c, f.x, f.y)
    case BinaryXor => Registers.BinaryXor(c, f.x, f.y)
    case AddVYToVX => Registers.AddVYToVX(c, f.x, f.y)
    case SubVYFromVX => Registers.SubVYFromVX(c, f.x, f.y)
    case SubVXFromVY => Registers.SubVXFromVY(c, f.x, f.y)
    case ShiftRight => Registers.ShiftRight(c, f.x, f.y)
    case ShiftLeft => Registers.ShiftLeft(c, f.x, f.y)
    case _ => c
  }

  /** The arms of the instructions that work through I. */
  function RunMemory(c: Cpu, o: Opcode, inst: Word, key: Option<Byte>): (c': Cpu)
    requires Valid(c) && HandlerSafe(c, o, Split(inst), key)
    ensures Valid(c') && Framed(c, c', o)
    ensures c' == c.(index := c'.index, mem := c'.mem, reg := c'.reg)
    ensures !WritesIndex(o) ==> c'.index == c.index
    ensures !WritesMemory(o) ==> c'.mem == c.mem
    ensures !o.AddI? && !o.LoadRegisterFromMemory? ==> c'.reg == c.reg
  {
    var f := Split(inst);
    match o
    case SetI => Memory.SetI(c, f.nnn)
    case AddI => Memory.AddI(c, f.x)
    case FontCharacter => Memory.FontCharacter(c, f.x)
    case BinaryCodedDecimalConversion => Memory.BinaryCodedDecimalConversion(c, f.x)
    case SaveRegisterToMemory => Memory.SaveRegisterToMemory(c, f.x)
    case LoadRegisterFromMemory => Memory.LoadRegisterFromMemory(c, f.x)
    case _ => c
  }

  /** The arm of DXYN. */
  function RunDraw(c: Cpu, inst: Word): (c': Cpu)
    requires Valid(c) && var f := Split(inst); Sprite.DrawSafe(c, f.x, f.y, f.n)
    ensures Valid(c') && Framed(c, c', Opcode.Draw)
  {
    var f := Split(inst);
    Sprite.Draw(c, f.x, f.y, f.n)
  }

  /**
   * The arms of the `match opcode` that do not panic. Only `Draw` sends
   * `DrawScreen` and only `Clear` sends `ClearScreen`, and `Clear` leaves
   * the display as it was.
   */
  function Dispatch(c: Cpu, o: Opcode, inst: Word, key: Option<Byte>, rnd: Byte): (r: (Cpu, Message))
    requires Valid(c) && o != Opcode.Error && HandlerSafe(c, o, Split(inst), key)
    ensures Valid(r.0) && Framed(c, r.0, o)
    ensures r.1 == ClearScreen <==> o.Clear?
    ensures r.1.DrawScreen? <==> o.Draw?
    ensures r.1.DrawScreen? ==> r.1.display == r.0.disp
  {
    if MovesPc(o) then (RunControl(c, o, inst, key), Message.None)
    else if LoadOp(o) then (RunLoad(c, o, inst, rnd), Message.None)
    else if ArithmeticOp(o) then (RunArithmetic(c, o, inst), Message.None)
    else if IndexOp(o) then (RunMemory(c, o, inst, key), Message.None)
    else if o.Draw? then
      var c' := RunDraw(c, inst);
      (c', DrawScreen(c'.disp))
    else if o.Clear? then (c, ClearScreen)
    else (c, Message.None)
  }

  /**
   * `execute_instruction`: decode the fields of `inst` and run the arm of
   * the decoded opcode. The `Error` arm is never reached, so a word panics
   * exactly when it falls into an `unreachable!()` arm of the decoder.
   */
  function Execute(c: Cpu, inst: Word, key: Option<Byte>, rnd: Byte): (r: Outcome)
    requires Valid(c) && CanExecute(c, inst, key)
    ensures r.Panicked? <==> DecodeWord(inst) == Unreachable
    ensures r.Ran? ==> var o := DecodeWord(inst).opcode;
              && Valid(r.cpu) && Framed(c, r.cpu, o)
              && (r.msg == ClearScreen <==> o.Clear?)
              && (r.msg.DrawScreen? <==> o.Draw?)
              && (r.msg.DrawScreen? ==> r.msg.display == r.cpu.disp)
  {
    match DecodeWord(inst)
    case Unreachable => Panicked
    case Decoded(o) =>
      if o == Opcode.Error then Panicked
      else
        var (c', m) := Dispatch(c, o, inst, key, rnd);
        Ran(c', m)
  }

  /**
   * `execute_instruction` over `DecodeWordIntended`: 8XY5 runs
   * `sub_vy_from_vx` and 8XY7 runs `sub_vx_from_vy`, and every other word
   * runs as in `Execute`.
   */
  function ExecuteIntended(c: Cpu, inst: Word, key: Option<Byte>, rnd: Byte): (r: Outcome)
    requires Valid(c) && CanExecute(c, inst, key)
    ensures var f := Split(inst);
            !(f.op == 8 && (f.n == 5 || f.n == 7)) ==> r == Execute(c, inst, key, rnd)
    ensures var f := Split(inst);
            f.op == 8 && f.n == 5 ==> r == Ran(Registers.SubVYFromVX(c, f.x, f.y), Message.None)
    ensures var f := Split(inst);
            f.op == 8 && f.n == 7 ==> r == Ran(Registers.SubVXFromVY(c, f.x, f.y), Message.None)
  {
    IntendedSwapsSubtractions(inst);
    match DecodeWordIntended(inst)
    case Unreachable => Panicked
    case Decoded(o) =>
      var (c', m) := Dispatch(c, o, inst, key, rnd);
      Ran(c', m)
  }

  /** A family-8 word runs its arithmetic arm and sends nothing. */
  lemma ExecuteArithmetic(c: Cpu, inst: Word, key: Option<Byte>, rnd: Byte)
    requires Valid(c) && DecodeWord(inst).Decoded? && ArithmeticOp(DecodeWord(inst).opcode)
    ensures CanExecute(c, inst, key)
    ensures Execute(c, inst, key, rnd) == Ran(RunArithmetic(c, DecodeWord(inst).opcode, inst), Message.None)
  {
  }

  /** A load, random or timer word runs its arm and sends nothing. */
  lemma ExecuteLoad(c: Cpu, inst: Word, key: Option<Byte>, rnd: Byte)
    requires Valid(c) && DecodeWord(inst).Decoded? && LoadOp(DecodeWord(inst).opcode)
    ensures CanExecute(c, inst, key)
    ensures Execute(c, inst, key, rnd) == Ran(RunLoad(c, DecodeWord(inst).opcode, inst, rnd), Message.None)
  {
  }

  /** A jump, call, return, skip or key-wait word that does not panic runs its arm and sends nothing. */
  lemma ExecuteControl(c: Cpu, inst: Word, key: Option<Byte>, rnd: Byte)
    requires Valid(c) && DecodeWord(inst).Decoded? && MovesPc(DecodeWord(inst).opcode)
    requires HandlerSafe(c, DecodeWord(inst).opcode, Split(inst), key)
    ensures CanExecute(c, inst, key)
    ensures Execute(c, inst, key, rnd) == Ran(RunControl(c, DecodeWord(inst).opcode, inst, key), Message.None)
  {
  }

  /** 2NNN pushes the pc it is given and jumps to NNN. */
  lemma ExecuteCall(c: Cpu, inst: Word, key: Option<Byte>, rnd: Byte)
    requires Valid(c) && DecodeWord(inst) == Decoded(Opcode.GotoSub)
    ensures CanExecute(c, inst, key) && Execute(c, inst, key, rnd).Ran?
    ensures Execute(c, inst, key, rnd).cpu.stack == c.stack[Control.FirstEmpty(c.stack, 0) := c.pc]
    ensures Execute(c, inst, key, rnd).cpu.pc == Split(inst).nnn
  {
  }

  /** FX15 copies Vx into the delay timer. */
  lemma ExecuteSetDelay(c: Cpu, inst: Word, key: Option<Byte>, rnd: Byte)
    requires Valid(c) && DecodeWord(inst) == Decoded(Opcode.SetDTToVX)
    ensures CanExecute(c, inst, key) && Execute(c, inst, key, rnd).Ran?
    ensures Execute(c, inst, key, rnd).cpu.dt == c.reg[Split(inst).x]
  {
  }

  /** DXY0 runs with any I, past memory included: VF becomes 0 and the unchanged display is sent. */
  lemma ExecuteEmptySprite(c: Cpu, inst: Word, key: Option<Byte>, rnd: Byte)
    requires Valid(c) && 0xD000 <= inst < 0xE000 && inst % 0x10 == 0
    ensures CanExecute(c, inst, key)
    ensures Execute(c, inst, key, rnd) == Ran(c.(reg := c.reg[VF := 0]), DrawScreen(c.disp))
  {
    var f := Split(inst);
    SpriteFacts.EmptySpriteReadsNoMemory(c, f.x, f.y);
  }

  /** 00E0 sends `ClearScreen` and changes nothing: the display stays as it was. */
  lemma ClearKeepsDisplay(c: Cpu, key: Option<Byte>, rnd: Byte)
    requires Valid(c)
    ensures CanExecute(c, 0x00E0, key)
    ensures Execute(c, 0x00E0, key, rnd) == Ran(c, ClearScreen)
  {
  }

  /** A family-0 word other than 00E0 and 00EE changes nothing and sends nothing. */
  lemma MachineRoutineIgnored(c: Cpu, inst: Word, key: Option<Byte>, rnd: Byte)
    requires Valid(c) && inst < 0x1000 && inst != 0x00E0 && inst != 0x00EE
    ensures CanExecute(c, inst, key)
    ensures Execute(c, inst, key, rnd) == Ran(c, Message.None)
  {
    var f := Split(inst);
    FamilyZero(RawOf(f));
  }

  /**
   * The word assembled for instruction `o` runs the arm of `o` with the
   * operands it was assembled from.
   */
  lemma ExecuteAssembled(c: Cpu, o: Opcode, x: Nibble, y: Nibble, n: Nibble, key: Option<Byte>, rnd: Byte)
    requires Valid(c) && IsInstruction(o) && HandlerSafe(c, o, Split(Assemble(o, x, y, n)), key)
    ensures CanExecute(c, Assemble(o, x, y, n), key)
    ensures Execute(c, Assemble(o, x, y, n), key, rnd).Ran?
    ensures var r := Execute(c, Assemble(o, x, y, n), key, rnd);
            (r.cpu, r.msg) == Dispatch(c, o, Assemble(o, x, y, n), key, rnd)
  {
    DecodeAssemble(o, x, y, n);
  }
}

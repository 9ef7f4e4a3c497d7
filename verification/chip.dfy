/**
 * The driver `Chip8`: copying the font and a ROM into memory, the 60 Hz
 * countdown of the two timers, and one turn of the `run` loop (fetch,
 * execute, forward the message, tick).
 *
 * The wall clock is the boolean `due` ("more than 1/60 s has passed since
 * the last tick"); the ROM file is its bytes; the channel send is the
 * message returned with the new state.
 */
module Chip {
  import opened Machine
  import opened State
  import opened Decoder
  import opened Interpreter
  import Memory
  import Control

  /** The size of the font table, sixteen glyphs of five bytes. */
  const FONT_BYTES := 80

  /** The largest ROM that fits between 0x200 and the end of memory. */
  const MAX_ROM := MEMORY_SIZE - START

  /** Memory with the font at 0x50 and everything else as it was. */
  function WithFont(mem: seq<Byte>): (m: seq<Byte>)
    requires |mem| == MEMORY_SIZE
    ensures |m| == MEMORY_SIZE
    ensures m[FONT_START..FONT_START + FONT_BYTES] == FONT_SET
    ensures m[..FONT_START] == mem[..FONT_START]
    ensures m[FONT_START + FONT_BYTES..] == mem[FONT_START + FONT_BYTES..]
  {
    seq(MEMORY_SIZE, a requires 0 <= a < MEMORY_SIZE =>
      if FONT_START <= a < FONT_START + FONT_BYTES then FONT_SET[a - FONT_START] else mem[a])
  }

  /** Memory with `rom` at 0x200 and everything else as it was. */
  function WithRom(mem: seq<Byte>, rom: seq<Byte>): (m: seq<Byte>)
    requires |mem| == MEMORY_SIZE && |rom| <= MAX_ROM
    ensures |m| == MEMORY_SIZE
    ensures m[START..START + |rom|] == rom
    ensures m[..START] == mem[..START]
    ensures m[START + |rom|..] == mem[START + |rom|..]
  {
    seq(MEMORY_SIZE, a requires 0 <= a < MEMORY_SIZE =>
      if START <= a < START + |rom| then rom[a - START] else mem[a])
  }

  /** `load_font_set`: mem[i + 0x50] := FONT_SET[i] for every i. */
  method LoadFontSet(c: Cpu) returns (c': Cpu)
    requires Valid(c)
    ensures Valid(c') && c' == c.(mem := c'.mem)
    ensures c'.mem[FONT_START..FONT_START + FONT_BYTES] == FONT_SET
    ensures c'.mem == WithFont(c.mem)
  {
    var mem := c.mem;
    var i := 0;
    while i < |FONT_SET|
      invariant 0 <= i <= FONT_BYTES && |mem| == MEMORY_SIZE
      invariant forall a :: 0 <= a < MEMORY_SIZE ==>
                  mem[a] == if FONT_START <= a < FONT_START + i then FONT_SET[a - FONT_START] else c.mem[a]
    {
      mem := mem[i + FONT_START := FONT_SET[i]];
      i := i + 1;
    }
    c' := c.(mem := mem);
  }

  /**
   * The copy loop of `load_rom`: mem[i + 0x200] := rom[i] for every i. A ROM
   * longer than 0xE00 bytes indexes past memory and panics in Rust.
   */
  method LoadRom(c: Cpu, rom: seq<Byte>) returns (c': Cpu)
    requires Valid(c) && |rom| <= MAX_ROM
    ensures Valid(c') && c' == c.(mem := c'.mem)
    ensures c'.mem[START..START + |rom|] == rom
    ensures c'.mem == WithRom(c.mem, rom)
  {
    var mem := c.mem;
    var i := 0;
    while i < |rom|
      invariant 0 <= i <= |rom| && |mem| == MEMORY_SIZE
      invariant forall a :: 0 <= a < MEMORY_SIZE ==>
                  mem[a] == if START <= a < START + i then rom[a - START] else c.mem[a]
    {
      mem := mem[i + START := rom[i]];
      i := i + 1;
    }
    c' := c.(mem := mem);
  }

  /** The timer step of `run`: when a tick is due, each non-zero timer goes down by one. */
  function TickTimers(c: Cpu, due: bool): (c': Cpu)
    ensures c' == c.(dt := c'.dt, st := c'.st)
    ensures due ==> c'.dt == if c.dt == 0 then 0 else c.dt - 1
    ensures due ==> c'.st == if c.st == 0 then 0 else c.st - 1
    ensures !due ==> c' == c
  {
    if !due then c
    else
      var dt := if c.dt > 0 then c.dt - 1 else c.dt;
      var st := if c.st > 0 then c.st - 1 else c.st;
      c.(dt := dt, st := st)
  }

  /** `k` ticks in a row. */
  function Ticks(c: Cpu, k: nat): (c': Cpu)
    ensures c' == c.(dt := c'.dt, st := c'.st)
    decreases k
  {
    if k == 0 then c else Ticks(TickTimers(c, true), k - 1)
  }

  /**
   * After `k` ticks each timer has gone down by `k` or stopped at 0: it
   * never wraps below zero.
   */
  lemma {:induction false} TicksCountDown(c: Cpu, k: nat)
    ensures Ticks(c, k).dt == if c.dt <= k then 0 else c.dt - k
    ensures Ticks(c, k).st == if c.st <= k then 0 else c.st - k
    decreases k
  {
    if k > 0 {
      TicksCountDown(TickTimers(c, true), k - 1);
    }
  }

  /** Both bytes at pc are in memory, and the decoded instruction does not panic in its handler. */
  predicate CanCycle(c: Cpu, key: Option<Byte>)
  {
    && Valid(c) && CanFetch(c)
    && var (inst, c1) := FetchNext(c); CanExecute(c1, inst, key)
  }

  /** The instruction word at pc. */
  function Current(c: Cpu): Word
    requires CanFetch(c)
  {
    FetchNext(c).0
  }

  /**
   * One turn of the `run` loop: fetch the word at pc (pc += 2), execute it
   * with the polled key and random byte, forward its message, and tick the
   * timers when a tick is due.
   */
  function Cycle(c: Cpu, key: Option<Byte>, rnd: Byte, due: bool): (r: Outcome)
    requires CanCycle(c, key)
    ensures r.Panicked? <==> DecodeWord(Current(c)) == Unreachable
    ensures r.Ran? ==> var o := DecodeWord(Current(c)).opcode;
              && Valid(r.cpu)
              && (!MovesPc(o) ==> r.cpu.pc == c.pc + 2)
              && (r.msg.DrawScreen? <==> o.Draw?)
              && (r.msg == ClearScreen <==> o.Clear?)
              && (r.cpu.mem != c.mem ==> WritesMemory(o))
              && (!due && !WritesTimers(o) ==> r.cpu.dt == c.dt && r.cpu.st == c.st)
              && (due && !WritesTimers(o) ==>
                    && r.cpu.dt == (if c.dt == 0 then 0 else c.dt - 1)
                    && r.cpu.st == (if c.st == 0 then 0 else c.st - 1))
  {
    var (inst, c1) := FetchNext(c);
    match Execute(c1, inst, key, rnd)
    case Panicked => Panicked
    case Ran(c2, msg) => Ran(TickTimers(c2, due), msg)
  }

  /**
   * 2NNN pushes the address of the instruction after the call, pc + 2, into
   * the first empty stack slot (slot 0 when none is empty) and jumps to NNN.
   */
  lemma CallPushesNextInstruction(c: Cpu, key: Option<Byte>, rnd: Byte, due: bool)
    requires CanCycle(c, key) && DecodeWord(Current(c)) == Decoded(Opcode.GotoSub)
    ensures Cycle(c, key, rnd, due).Ran?
    ensures Cycle(c, key, rnd, due).cpu.stack == c.stack[Control.FirstEmpty(c.stack, 0) := c.pc + 2]
    ensures Cycle(c, key, rnd, due).cpu.pc == Split(Current(c)).nnn
  {
    var (inst, c1) := FetchNext(c);
    ExecuteCall(c1, inst, key, rnd);
  }

  /**
   * FX15 and a due tick in the same turn: the delay timer is loaded from Vx
   * first and then counts down once, so it reads Vx - 1, or 0 when Vx = 0.
   */
  lemma DelayTimerTicksAfterLoad(c: Cpu, key: Option<Byte>, rnd: Byte)
    requires CanCycle(c, key) && DecodeWord(Current(c)) == Decoded(Opcode.SetDTToVX)
    ensures Cycle(c, key, rnd, true).Ran?
    ensures var v := c.reg[Split(Current(c)).x];
            Cycle(c, key, rnd, true).cpu.dt == if v == 0 then 0 else v - 1
  {
    var (inst, c1) := FetchNext(c);
    ExecuteSetDelay(c1, inst, key, rnd);
  }

  /**
   * FX0A with no key pressed leaves pc on the same instruction, so the
   * next turn fetches it again: the wait is a busy loop of `run`.
   */
  lemma KeyWaitRepeats(c: Cpu, rnd: Byte, due: bool)
    requires CanCycle(c, Option.None) && DecodeWord(Current(c)) == Decoded(Opcode.GetKey)
    ensures Cycle(c, Option.None, rnd, due).Ran?
    ensures Cycle(c, Option.None, rnd, due).cpu.pc == c.pc
    ensures Cycle(c, Option.None, rnd, due).cpu.reg == c.reg
  {
  }

  /** The state `main` starts `run` from: `Cpu::new`, then the font, then the ROM. */
  function Boot(rom: seq<Byte>): (c: Cpu)
    requires |rom| <= MAX_ROM
    ensures c == New().(mem := c.mem)
  {
    var c := New();
    c.(mem := WithRom(WithFont(c.mem), rom))
  }

  /**
   * Loading the ROM after the font keeps the font: every glyph lies below
   * 0x200, and the ROM starts at 0x200 where pc does.
   */
  lemma BootKeepsFont(rom: seq<Byte>)
    requires |rom| <= MAX_ROM
    ensures Valid(Boot(rom)) && Boot(rom).pc == START
    ensures Boot(rom).mem[FONT_START..FONT_START + FONT_BYTES] == FONT_SET
    ensures Boot(rom).mem[START..START + |rom|] == rom
    ensures forall a :: FONT_START + FONT_BYTES <= a < START ==> Boot(rom).mem[a] == 0
  {
    var m := Boot(rom).mem;
    assert forall a :: FONT_START <= a < FONT_START + FONT_BYTES ==> m[a] == FONT_SET[a - FONT_START];
    assert forall a :: START <= a < START + |rom| ==> m[a] == rom[a - START];
  }

  /**
   * With the font loaded, FX29 on a digit d < 16 points I at the five bytes
   * of glyph d, so a DXY5 after it draws that digit.
   */
  lemma FontCharacterFindsGlyph(c: Cpu, x: Nibble)
    requires Valid(c) && c.mem[FONT_START..FONT_START + FONT_BYTES] == FONT_SET && c.reg[x] < 16
    ensures var i := Memory.FontCharacter(c, x).index;
            i + 5 <= MEMORY_SIZE && c.mem[i..i + 5] == FONT_SET[5 * c.reg[x]..5 * c.reg[x] + 5]
  {
    var d := 5 * c.reg[x];
    var i := Memory.FontCharacter(c, x).index;
    assert i == FONT_START + d;
    var glyph, font := c.mem[i..i + 5], FONT_SET[d..d + 5];
    forall k | 0 <= k < 5
      ensures glyph[k] == font[k]
    {
      assert c.mem[FONT_START..FONT_START + FONT_BYTES][d + k] == FONT_SET[d + k];
    }
    assert glyph == font;
  }
}

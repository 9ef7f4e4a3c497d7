/**
 * The CPU state of `struct Cpu`, its constructor `Cpu::new`, the fetch of
 * the next instruction word, and the fixed font table.
 *
 * The Rust arrays become sequences whose lengths `Valid` pins down; the
 * display is indexed `disp[column][row]`, 64 columns of 32 rows.
 */
module State {
  import opened Machine

  const MEMORY_SIZE := 0x1000
  const COLUMNS := 64
  const ROWS := 32
  const REGISTERS := 16
  const STACK_SLOTS := 16

  /** The flag register VF. */
  const VF := 0xF

  /** All CHIP-8 programs start the program counter here. */
  const START := 0x200

  /** Where the driver copies the font. */
  const FONT_START := 0x50

  /** Sixteen 5-byte glyphs for the hexadecimal digits 0 to F. */
  const FONT_SET: seq<Byte> := [
    0xF0, 0x90, 0x90, 0x90, 0xF0, // 0
    0x20, 0x60, 0x20, 0x20, 0x70, // 1
    0xF0, 0x10, 0xF0, 0x80, 0xF0, // 2
    0xF0, 0x10, 0xF0, 0x10, 0xF0, // 3
    0x90, 0x90, 0xF0, 0x10, 0x10, // 4
    0xF0, 0x80, 0xF0, 0x10, 0xF0, // 5
    0xF0, 0x80, 0xF0, 0x90, 0xF0, // 6
    0xF0, 0x10, 0x20, 0x40, 0x40, // 7
    0xF0, 0x90, 0xF0, 0x90, 0xF0, // 8
    0xF0, 0x90, 0xF0, 0x10, 0xF0, // 9
    0xF0, 0x90, 0xF0, 0x90, 0x90, // A
    0xE0, 0x90, 0xE0, 0x90, 0xE0, // B
    0xF0, 0x80, 0x80, 0x80, 0xF0, // C
    0xE0, 0x90, 0x90, 0x90, 0xE0, // D
    0xF0, 0x80, 0xF0, 0x80, 0xF0, // E
    0xF0, 0x80, 0xF0, 0x80, 0x80  // F
  ]

  type Display = seq<seq<Byte>>

  datatype Cpu = Cpu(
    mem: seq<Byte>,
    disp: Display,
    index: Word,
    stack: seq<Word>,
    dt: Byte,
    st: Byte,
    reg: seq<Byte>,
    pc: Word)

  /** 64 columns of 32 rows, every pixel 0 or 1. */
  predicate ValidDisplay(d: Display)
  {
    && |d| == COLUMNS
    && (forall col :: 0 <= col < COLUMNS ==> |d[col]| == ROWS)
    && (forall col, row :: 0 <= col < COLUMNS && 0 <= row < ROWS ==> d[col][row] <= 1)
  }

  /** Two displays of the right shape that agree on every pixel are equal. */
  lemma DisplayExt(d: Display, d': Display)
    requires ValidDisplay(d) && ValidDisplay(d')
    requires forall col, row :: 0 <= col < COLUMNS && 0 <= row < ROWS ==> d[col][row] == d'[col][row]
    ensures d == d'
  {
    forall col | 0 <= col < COLUMNS
      ensures d[col] == d'[col]
    {
      assert forall row :: 0 <= row < ROWS ==> d[col][row] == d'[col][row];
    }
  }

  /** The array sizes of `struct Cpu`, and pixels that are 0 or 1. */
  predicate Valid(c: Cpu)
  {
    && |c.mem| == MEMORY_SIZE
    && ValidDisplay(c.disp)
    && |c.stack| == STACK_SLOTS
    && |c.reg| == REGISTERS
  }

  /** Registers outside `xs` keep their values. */
  predicate RegsKept(c: Cpu, c': Cpu, xs: set<int>)
    requires |c.reg| == REGISTERS && |c'.reg| == REGISTERS
  {
    forall i :: 0 <= i < REGISTERS && i !in xs ==> c'.reg[i] == c.reg[i]
  }

  /** Only the registers changed. */
  predicate OnlyRegsChanged(c: Cpu, c': Cpu)
  {
    c' == c.(reg := c'.reg)
  }

  /** Only the program counter changed. */
  predicate OnlyPcChanged(c: Cpu, c': Cpu)
  {
    c' == c.(pc := c'.pc)
  }

  /** `Cpu::new`: zeroed memory, display, registers, stack and timers; pc at 0x200. */
  function New(): (c: Cpu)
    ensures Valid(c)
    ensures c.pc == START && c.index == 0 && c.dt == 0 && c.st == 0
    ensures forall a :: 0 <= a < MEMORY_SIZE ==> c.mem[a] == 0
    ensures forall i :: 0 <= i < REGISTERS ==> c.reg[i] == 0
    ensures forall i :: 0 <= i < STACK_SLOTS ==> c.stack[i] == 0
    ensures forall col, row :: 0 <= col < COLUMNS && 0 <= row < ROWS ==> c.disp[col][row] == 0
  {
    Cpu(seq(MEMORY_SIZE, _ => 0), seq(COLUMNS, _ => seq(ROWS, _ => 0)), 0,
        seq(STACK_SLOTS, _ => 0), 0, 0, seq(REGISTERS, _ => 0), START)
  }

  /** Both bytes of the instruction at pc are inside memory. */
  predicate CanFetch(c: Cpu)
  {
    |c.mem| == MEMORY_SIZE && c.pc + 1 < MEMORY_SIZE
  }

  /**
   * `Cpu::fetch_next`: the big-endian word at pc and pc, pc+1, with pc
   * advanced by 2. An index past memory panics in Rust, hence `CanFetch`.
   */
  function FetchNext(c: Cpu): (r: (Word, Cpu))
    requires CanFetch(c)
    ensures r.0 / 0x100 == c.mem[c.pc] && r.0 % 0x100 == c.mem[c.pc + 1]
    ensures r.1.pc == c.pc + 2 && OnlyPcChanged(c, r.1)
  {
    var hi: int := c.mem[c.pc];
    var lo: int := c.mem[c.pc + 1];
    (hi * 0x100 + lo, c.(pc := c.pc + 2))
  }
}

/**
 * The handlers of `Cpu` that work through the index register I: setting
 * and advancing it, pointing it at a font glyph, and the BCD, save and
 * load instructions that write or read memory at I.
 *
 * A memory index past 0xFFF and an overflow of the `u16` I panic in Rust;
 * the handlers require that neither happens.
 */
module Memory {
  import opened Machine
  import opened State

  /** `set_i`: I := nnn. */
  function SetI(c: Cpu, nnn: Word): (c': Cpu)
    requires Valid(c)
    ensures Valid(c') && c' == c.(index := c'.index) && c'.index == nnn
  {
    c.(index := nnn)
  }

  /**
   * `add_i`: I := I + Vx, then VF := 1 when I has reached 0x1000. VF is
   * never cleared, and Vx is read before VF is written.
   */
  function AddI(c: Cpu, x: Nibble): (c': Cpu)
    requires Valid(c) && c.index + c.reg[x] <= 0xFFFF
    ensures Valid(c') && c' == c.(index := c'.index, reg := c'.reg)
    ensures c'.index - c.index == c.reg[x]
    ensures c'.index >= 0x1000 ==> c'.reg == c.reg[VF := 1]
    ensures c'.index < 0x1000 ==> c'.reg == c.reg
  {
    var index := c.index + c.reg[x];
    if index >= 0x1000 then c.(index := index, reg := c.reg[VF := 1])
    else c.(index := index)
  }

  /**
   * `font_character`: I := Vx * 5 + 0x50, the glyph of digit Vx. Vx is not
   * masked to a hex digit, so Vx >= 16 points I past the font.
   */
  function FontCharacter(c: Cpu, x: Nibble): (c': Cpu)
    requires Valid(c)
    ensures Valid(c') && c' == c.(index := c'.index)
    ensures (c'.index - FONT_START) % 5 == 0 && (c'.index - FONT_START) / 5 == c.reg[x]
    ensures c'.index >= FONT_START + |FONT_SET| <==> c.reg[x] >= 0x10
  {
    c.(index := c.reg[x] as int * 5 + FONT_START)
  }

  /**
   * `binary_coded_decimal_conversion`: mem[I] := Vx / 100,
   * mem[I+1] := Vx / 10, mem[I+2] := Vx % 10. The middle byte is the
   * whole quotient by ten, not the tens digit, so it is a digit only
   * when Vx < 100.
   */
  function BinaryCodedDecimalConversion(c: Cpu, x: Nibble): (c': Cpu)
    requires Valid(c) && c.index + 2 < MEMORY_SIZE
    ensures Valid(c') && c' == c.(mem := c'.mem)
    ensures forall a :: 0 <= a < MEMORY_SIZE && !(c.index <= a <= c.index + 2) ==> c'.mem[a] == c.mem[a]
    ensures c'.mem[c.index] < 3 && c'.mem[c.index + 2] < 10
    ensures 10 * (c'.mem[c.index + 1] as int) + c'.mem[c.index + 2] == c.reg[x]
    ensures 100 * (c'.mem[c.index] as int) + 10 * (c'.mem[c.index + 1] as int % 10) + c'.mem[c.index + 2] == c.reg[x]
    ensures c'.mem[c.index + 1] < 10 <==> c.reg[x] < 100
  {
    var n := c.reg[x];
    var hundreds := n / 100;
    var tens := n / 10;
    var ones := n % 10;
    c.(mem := c.mem[c.index := hundreds][c.index + 1 := tens][c.index + 2 := ones])
  }

  /** The loop of `save_register_to_memory` from register `i` on. */
  function SaveLoop(mem: seq<Byte>, reg: seq<Byte>, index: nat, i: nat, x: Nibble): (m: seq<Byte>)
    requires |reg| == REGISTERS && i <= x + 1 && index + x < |mem|
    ensures |m| == |mem|
    ensures forall a :: 0 <= a < |mem| ==>
              m[a] == if index + i <= a <= index + x then reg[a - index] else mem[a]
    decreases x + 1 - i
  {
    if i > x then mem
    else SaveLoop(mem[index + i := reg[i]], reg, index, i + 1, x)
  }

  /** `save_register_to_memory`: mem[I..=I+x] := V0..=Vx. */
  function SaveRegisterToMemory(c: Cpu, x: Nibble): (c': Cpu)
    requires Valid(c) && c.index + x < MEMORY_SIZE
    ensures Valid(c') && c' == c.(mem := c'.mem)
    ensures forall i :: 0 <= i <= x ==> c'.mem[c.index + i] == c.reg[i]
    ensures forall a :: 0 <= a < MEMORY_SIZE && !(c.index <= a <= c.index + x) ==> c'.mem[a] == c.mem[a]
  {
    c.(mem := SaveLoop(c.mem, c.reg, c.index, 0, x))
  }

  /** The loop of `load_register_from_memory` from register `i` on. */
  function LoadLoop(reg: seq<Byte>, mem: seq<Byte>, index: nat, i: nat, x: Nibble): (r: seq<Byte>)
    requires |reg| == REGISTERS && i <= x + 1 && index + x < |mem|
    ensures |r| == REGISTERS
    ensures forall j :: 0 <= j < REGISTERS ==>
              r[j] == if i <= j <= x then mem[index + j] else reg[j]
    decreases x + 1 - i
  {
    if i > x then reg
    else LoadLoop(reg[i := mem[index + i]], mem, index, i + 1, x)
  }

  /** `load_register_from_memory`: V0..=Vx := mem[I..=I+x]. */
  function LoadRegisterFromMemory(c: Cpu, x: Nibble): (c': Cpu)
    requires Valid(c) && c.index + x < MEMORY_SIZE
    ensures Valid(c') && OnlyRegsChanged(c, c')
    ensures forall i :: 0 <= i <= x ==> c'.reg[i] == c.mem[c.index + i]
    ensures forall i :: x < i < REGISTERS ==> c'.reg[i] == c.reg[i]
  {
    c.(reg := LoadLoop(c.reg, c.mem, c.index, 0, x))
  }

  /** FX65 right after FX55 finds the registers already equal to memory. */
  lemma LoadAfterSave(c: Cpu, x: Nibble)
    requires Valid(c) && c.index + x < MEMORY_SIZE
    ensures LoadRegisterFromMemory(SaveRegisterToMemory(c, x), x) == SaveRegisterToMemory(c, x)
  {
    var s := SaveRegisterToMemory(c, x);
    assert LoadRegisterFromMemory(s, x).reg == s.reg;
  }

  /** FX55 right after FX65 finds memory already equal to the registers. */
  lemma SaveAfterLoad(c: Cpu, x: Nibble)
    requires Valid(c) && c.index + x < MEMORY_SIZE
    ensures SaveRegisterToMemory(LoadRegisterFromMemory(c, x), x) == LoadRegisterFromMemory(c, x)
  {
    var l := LoadRegisterFromMemory(c, x);
    assert SaveRegisterToMemory(l, x).mem == l.mem;
  }

  /** Saving V0..=Vx and loading them back after other changes restores them. */
  lemma SaveThenLoadRestores(c: Cpu, x: Nibble, other: seq<Byte>)
    requires Valid(c) && c.index + x < MEMORY_SIZE && |other| == REGISTERS
    ensures var s := SaveRegisterToMemory(c, x);
            forall i :: 0 <= i <= x ==> LoadRegisterFromMemory(s.(reg := other), x).reg[i] == c.reg[i]
  {
  }
}

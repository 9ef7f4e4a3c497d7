/**
 * The control-flow handlers of `Cpu`: jumps, the subroutine stack, the
 * conditional skips and the key-driven instructions.
 *
 * The stack is sixteen `u16` slots in which 0 marks an empty slot; there is
 * no depth counter. A call fills the lowest empty slot (slot 0 when none is
 * empty) and a return takes the lowest non-empty slot, so returns are not
 * last-in-first-out once calls nest.
 *
 * The key-driven handlers receive the polled key, already mapped to a CHIP-8
 * key code, as a parameter.
 */
module Control {
  import opened Machine
  import opened State
  import Registers

  /** `jump`: pc := nnn. */
  function Jump(c: Cpu, nnn: Word): (c': Cpu)
    requires Valid(c)
    ensures Valid(c') && OnlyPcChanged(c, c') && c'.pc == nnn
  {
    c.(pc := nnn)
  }

  /** `jump_with_offset`: pc := nnn + V0, with no mask to 12 bits. */
  function JumpWithOffset(c: Cpu, nnn: Word): (c': Cpu)
    requires Valid(c) && nnn <= 0xFFF
    ensures Valid(c') && OnlyPcChanged(c, c')
    ensures c'.pc - c.reg[0] == nnn
    ensures c'.pc <= 0xFFF + 0xFF
  {
    c.(pc := nnn + c.reg[0])
  }

  /** BNNN is the jump 1MMM with MMM = NNN + V0. */
  lemma JumpWithOffsetIsJump(c: Cpu, nnn: Word)
    requires Valid(c) && nnn <= 0xFFF
    ensures JumpWithOffset(c, nnn) == Jump(c, nnn + c.reg[0])
    ensures c.reg[0] == 0 ==> JumpWithOffset(c, nnn) == Jump(c, nnn)
  {
  }

  /**
   * The forward scan of `goto_sub`: the first slot at or after `i` that
   * holds 0, or 0 when there is none.
   */
  function FirstEmpty(s: seq<Word>, i: nat): (k: nat)
    requires i <= |s|
    ensures |s| > 0 ==> k < |s|
    ensures k == 0 || i <= k
    ensures (exists j :: i <= j < |s| && s[j] == 0) ==>
              s[k] == 0 && forall j :: i <= j < k ==> s[j] != 0
    ensures (forall j :: i <= j < |s| ==> s[j] != 0) ==> k == 0
    decreases |s| - i
  {
    if i == |s| then 0
    else if s[i] == 0 then i
    else FirstEmpty(s, i + 1)
  }

  /** `goto_sub`: store pc in the first empty slot (slot 0 if none), then pc := nnn. */
  function GotoSub(c: Cpu, nnn: Word): (c': Cpu)
    requires Valid(c)
    ensures Valid(c') && c' == c.(pc := c'.pc, stack := c'.stack)
    ensures c'.pc == nnn
    ensures forall k :: 0 <= k < STACK_SLOTS && c.stack[k] == 0
                        && (forall j :: 0 <= j < k ==> c.stack[j] != 0) ==>
              c'.stack == c.stack[k := c.pc]
    ensures (forall j :: 0 <= j < STACK_SLOTS ==> c.stack[j] != 0) ==>
              c'.stack == c.stack[0 := c.pc]
  {
    var stop := FirstEmpty(c.stack, 0);
    c.(stack := c.stack[stop := c.pc], pc := nnn)
  }

  /**
   * The reverse walk of `return_sub` over slots `k - 1` down to 0: every
   * non-empty slot overwrites the carried pc and stop index, so the lowest
   * one wins.
   */
  function ReturnScan(s: seq<Word>, k: nat, pc: Word, stop: nat): (r: (Word, nat))
    requires k <= |s|
    ensures (exists j :: 0 <= j < k && s[j] != 0) ==>
              r.1 < k && r.0 == s[r.1] && s[r.1] != 0 && forall j :: 0 <= j < r.1 ==> s[j] == 0
    ensures (forall j :: 0 <= j < k ==> s[j] == 0) ==> r == (pc, stop)
    decreases k
  {
    if k == 0 then (pc, stop)
    else if s[k - 1] != 0 then ReturnScan(s, k - 1, s[k - 1], k - 1)
    else ReturnScan(s, k - 1, pc, stop)
  }

  /**
   * `return_sub`: pc := the lowest non-empty slot, which is emptied; with
   * every slot empty nothing changes.
   */
  function ReturnSub(c: Cpu): (c': Cpu)
    requires Valid(c)
    ensures Valid(c') && c' == c.(pc := c'.pc, stack := c'.stack)
    ensures forall k :: 0 <= k < STACK_SLOTS && c.stack[k] != 0
                        && (forall j :: 0 <= j < k ==> c.stack[j] == 0) ==>
              c'.pc == c.stack[k] && c'.stack == c.stack[k := 0]
    ensures (forall j :: 0 <= j < STACK_SLOTS ==> c.stack[j] == 0) ==> c' == c
  {
    var (pc, stop) := ReturnScan(c.stack, STACK_SLOTS, c.pc, 0);
    c.(pc := pc, stack := c.stack[stop := 0])
  }

  predicate EmptyStack(c: Cpu)
    requires Valid(c)
  {
    forall j :: 0 <= j < STACK_SLOTS ==> c.stack[j] == 0
  }

  /** From an empty stack, a call and a return give back pc and stack. */
  lemma CallThenReturn(c: Cpu, nnn: Word)
    requires Valid(c) && EmptyStack(c) && c.pc != 0
    ensures ReturnSub(GotoSub(c, nnn)) == c
  {
    var c1 := GotoSub(c, nnn);
    assert c1.stack == c.stack[0 := c.pc];
    var c2 := ReturnSub(c1);
    assert c2.stack == c1.stack[0 := 0];
    assert c2.stack == c.stack;
  }

  /** A call whose first empty slot is `k` stores pc in slot `k`. */
  lemma PushAt(c: Cpu, nnn: Word, k: nat)
    requires Valid(c) && k < STACK_SLOTS && c.stack[k] == 0
    requires forall j :: 0 <= j < k ==> c.stack[j] != 0
    ensures GotoSub(c, nnn).stack == c.stack[k := c.pc] && GotoSub(c, nnn).pc == nnn
  {
  }

  /** A return whose lowest non-empty slot is `k` resumes there and empties it. */
  lemma PopAt(c: Cpu, k: nat)
    requires Valid(c) && k < STACK_SLOTS && c.stack[k] != 0
    requires forall j :: 0 <= j < k ==> c.stack[j] == 0
    ensures ReturnSub(c).stack == c.stack[k := 0] && ReturnSub(c).pc == c.stack[k]
  {
  }

  /**
   * Two nested calls from an empty stack: the first return goes back to the
   * outer caller, not the inner one, and the inner return address stays.
   */
  lemma ReturnIsNotLifo(c: Cpu, a: Word, b: Word)
    requires Valid(c) && EmptyStack(c) && c.pc != 0 && a != 0
    ensures ReturnSub(GotoSub(GotoSub(c, a), b)).pc == c.pc
    ensures ReturnSub(GotoSub(GotoSub(c, a), b)).stack == c.stack[1 := a]
  {
    var c1 := GotoSub(c, a);
    PushAt(c, a, 0);
    var c2 := GotoSub(c1, b);
    PushAt(c1, b, 1);
    PopAt(c2, 0);
    assert c.stack[0] == 0;
    RestoreFirst(c.stack, c.pc, a);
  }

  /** Writing slot 0, then slot 1, then slot 0's old value back leaves only slot 1 written. */
  lemma RestoreFirst(s: seq<Word>, v: Word, w: Word)
    requires |s| > 1
    ensures s[0 := v][1 := w][0 := s[0]] == s[1 := w]
  {
  }

  /** Sixteen nested calls fill the stack; a seventeenth overwrites slot 0. */
  lemma FullStackOverwritesSlotZero(c: Cpu, nnn: Word)
    requires Valid(c) && forall j :: 0 <= j < STACK_SLOTS ==> c.stack[j] != 0
    ensures GotoSub(c, nnn).stack[0] == c.pc
    ensures forall j :: 1 <= j < STACK_SLOTS ==> GotoSub(c, nnn).stack[j] == c.stack[j]
  {
  }

  /** `skip_equal`: pc += 2 when Vx == kk. */
  function SkipEqual(c: Cpu, x: Nibble, kk: Byte): (c': Cpu)
    requires Valid(c) && (c.reg[x] == kk ==> c.pc + 2 <= 0xFFFF)
    ensures Valid(c') && OnlyPcChanged(c, c')
    ensures c'.pc == c.pc + 2 <==> c.reg[x] == kk
    ensures c'.pc == c.pc || c'.pc == c.pc + 2
  {
    if c.reg[x] == kk then c.(pc := c.pc + 2) else c
  }

  /** `skip_not_equal`: pc += 2 when Vx != kk. */
  function SkipNotEqual(c: Cpu, x: Nibble, kk: Byte): (c': Cpu)
    requires Valid(c) && (c.reg[x] != kk ==> c.pc + 2 <= 0xFFFF)
    ensures Valid(c') && OnlyPcChanged(c, c')
    ensures c'.pc == c.pc + 2 <==> c.reg[x] != kk
    ensures c'.pc == c.pc || c'.pc == c.pc + 2
  {
    if c.reg[x] != kk then c.(pc := c.pc + 2) else c
  }

  /** `skip_vx_equal_vy`: pc += 2 when Vx == Vy. */
  function SkipVXEqualVY(c: Cpu, x: Nibble, y: Nibble): (c': Cpu)
    requires Valid(c) && (c.reg[x] == c.reg[y] ==> c.pc + 2 <= 0xFFFF)
    ensures Valid(c') && OnlyPcChanged(c, c')
    ensures c'.pc == c.pc + 2 <==> c.reg[x] == c.reg[y]
    ensures c'.pc == c.pc || c'.pc == c.pc + 2
  {
    if c.reg[x] == c.reg[y] then c.(pc := c.pc + 2) else c
  }

  /** `skip_vx_not_equal_vy`: pc += 2 when Vx != Vy. */
  function SkipVXNotEqualVY(c: Cpu, x: Nibble, y: Nibble): (c': Cpu)
    requires Valid(c) && (c.reg[x] != c.reg[y] ==> c.pc + 2 <= 0xFFFF)
    ensures Valid(c') && OnlyPcChanged(c, c')
    ensures c'.pc == c.pc + 2 <==> c.reg[x] != c.reg[y]
    ensures c'.pc == c.pc || c'.pc == c.pc + 2
  {
    if c.reg[x] != c.reg[y] then c.(pc := c.pc + 2) else c
  }

  /** Of 3XKK and 4XKK on the same state, exactly one skips. */
  lemma ImmediateSkipsComplementary(c: Cpu, x: Nibble, kk: Byte)
    requires Valid(c) && c.pc + 2 <= 0xFFFF
    ensures SkipEqual(c, x, kk).pc != SkipNotEqual(c, x, kk).pc
    ensures SkipEqual(c, x, kk).pc + SkipNotEqual(c, x, kk).pc == 2 * c.pc + 2
  {
  }

  /** Of 5XY0 and 9XY0 on the same state, exactly one skips. */
  lemma RegisterSkipsComplementary(c: Cpu, x: Nibble, y: Nibble)
    requires Valid(c) && c.pc + 2 <= 0xFFFF
    ensures SkipVXEqualVY(c, x, y).pc + SkipVXNotEqualVY(c, x, y).pc == 2 * c.pc + 2
  {
  }

  /** After 8XY0, 5XY0 always skips. */
  lemma MoveThenSkipEqual(c: Cpu, x: Nibble, y: Nibble)
    requires Valid(c) && c.pc + 2 <= 0xFFFF
    ensures SkipVXEqualVY(Registers.SetVXToVY(c, x, y), x, y).pc == c.pc + 2
  {
  }

  /** `skip_if_key`: pc += 2 only when a key was read and it equals Vx. */
  function SkipIfKey(c: Cpu, x: Nibble, key: Option<Byte>): (c': Cpu)
    requires Valid(c) && (key == Some(c.reg[x]) ==> c.pc + 2 <= 0xFFFF)
    ensures Valid(c') && OnlyPcChanged(c, c')
    ensures c'.pc == c.pc + 2 <==> key == Some(c.reg[x])
    ensures c'.pc == c.pc || c'.pc == c.pc + 2
  {
    match key
    case Some(k) => if k == c.reg[x] then c.(pc := c.pc + 2) else c
    case None => c
  }

  /** `skip_if_not_key`: pc += 2 when no key was read or it differs from Vx. */
  function SkipIfNotKey(c: Cpu, x: Nibble, key: Option<Byte>): (c': Cpu)
    requires Valid(c) && (key != Some(c.reg[x]) ==> c.pc + 2 <= 0xFFFF)
    ensures Valid(c') && OnlyPcChanged(c, c')
    ensures c'.pc == c.pc + 2 <==> key != Some(c.reg[x])
    ensures c'.pc == c.pc || c'.pc == c.pc + 2
  {
    match key
    case Some(k) => if k != c.reg[x] then c.(pc := c.pc + 2) else c
    case None => c.(pc := c.pc + 2)
  }

  /** For every key, exactly one of EX9E and EXA1 skips. */
  lemma KeySkipsComplementary(c: Cpu, x: Nibble, key: Option<Byte>)
    requires Valid(c) && c.pc + 2 <= 0xFFFF
    ensures SkipIfKey(c, x, key).pc + SkipIfNotKey(c, x, key).pc == 2 * c.pc + 2
  {
  }

  /**
   * `get_key`: Vx := the key read; with no key, pc -= 2 so that the same
   * instruction is fetched again, and nothing else changes.
   */
  function GetKey(c: Cpu, x: Nibble, key: Option<Byte>): (c': Cpu)
    requires Valid(c) && (key.None? ==> c.pc >= 2)
    ensures Valid(c')
    ensures key.Some? ==> OnlyRegsChanged(c, c') && RegsKept(c, c', {x}) && c'.reg[x] == key.value
    ensures key.None? ==> OnlyPcChanged(c, c') && c'.pc + 2 == c.pc
  {
    match key
    case Some(k) => c.(reg := c.reg[x := k])
    case None => c.(pc := c.pc - 2)
  }
}

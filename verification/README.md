# CHIP-8 interpreter core, modelled in Dafny

This project models the core of `chippers`, a CHIP-8 emulator written in Rust. The core is:

- the instruction decoder `Opcode::from(&RawOpcode)`;
- the `Cpu` (memory, display, index register I, sixteen-slot stack, delay and sound timers, V0..VF, pc), with `Cpu::new`, `fetch_next`, `execute_instruction` and its thirty-odd handlers;
- the parts of the `Chip8` driver that touch CPU state: `load_font_set`, the ROM copy loop, and one turn of `run` (fetch, execute, forward the message, tick the 60 Hz timers).

The model keeps the program's behaviour exactly as written, quirks included:

- 00E0 only sends `ClearScreen` and does not clear the display.
- 8XY5 decodes to `SubVXFromVY` and 8XY7 to `SubVYFromVX`.
- The stack is a zero-sentinel array, so returns are not last-in-first-out once calls nest.
- DXYN sets VF from the last pixel it flips, clips at column 63 and stops after row 30.
- The middle byte of FX33 is Vx / 10.
- FX1E sets VF on overflow but never clears it.
- FX29 does not mask Vx to a digit.

The modules are:

| file | module | what it holds |
|---|---|---|
| machine.dfy | `Machine` | `u8`/`u16`/nibble subset types, `Option`, the bitwise operators on bytes |
| state.dfy | `State` | `Cpu`, `Cpu::new`, `fetch_next`, the font table |
| decoder.dfy | `Decoder` | the operand split, `RawOpcode`, `Opcode`, the decoder, and an encoder (`Assemble`) that is its inverse |
| control.dfy | `Control` | jumps, the subroutine stack, skips, key wait |
| registers.dfy | `Registers` | loads, family-8 arithmetic, random mask, timer moves |
| memory.dfy | `Memory` | the handlers that work through I |
| keys.dfy | `Keys` | the character-to-key table |
| sprite.dfy | `Sprite`, `SpriteFacts` | DXYN as the nested loops, its closed-form effect, and facts about it |
| execute.dfy | `Interpreter` | `execute_instruction` and the message it returns |
| chip.dfy | `Chip` | font and ROM loading, the timer tick, one turn of `run` |
| scenarios.dfy | `Scenarios` | the unit tests of cpu.rs, as lemmas about `Execute` |

The environment enters as parameters:

- The key poll becomes `key: Option<Byte>`, already mapped through the key table.
- `rand::random::<u8>()` becomes `rnd: Byte`.
- "More than 1/60 s has passed" becomes `due: bool`.
- The channel send becomes the `Message` returned with the new state.

A Rust panic inside a handler becomes a precondition:

- an index past memory or the display;
- `pc` or `I` overflowing a `u16`;
- `pc -= 2` underflowing.

A panic of the decoder (`unreachable!()`), and the `Error` arm, become the `Panicked` outcome of `Execute`.

## Model

| member | source | states |
|---|---|---|
| State.New | src/cpu.rs:49-69 | the new CPU has the right array sizes, pc = 0x200, and zero memory, registers, stack, timers and display |
| State.FetchNext | src/cpu.rs:71-76 | the word is the big-endian pair mem[pc], mem[pc+1], and only pc changes, by +2 |
| Decoder.Split | src/cpu.rs:79-84 | op, x, y, n recombine to the instruction word; kk is y·16 + n; nnn is x·256 + kk and fits in 12 bits |
| Decoder.SplitJoin | src/cpu.rs:79-84 | splitting the word built from four nibbles gives back those nibbles and the kk, nnn they imply |
| Decoder.Decode | src/opcode.rs:68-128 | `Error` exactly when op > 0xF; `None` only in family 0; `unreachable!()` exactly for the unlisted n of family 8 and the unlisted kk of families E and F |
| Decoder.DecodeWord | src/cpu.rs:79-86 | the decoder applied to the split word never yields `Error`, and yields `None` only for words below 0x1000 |
| Decoder.FixedFamilyIgnoresOperands | src/opcode.rs:81-87 | families 1-7 and 9-D name one instruction whatever x, y, n and kk hold |
| Decoder.FamilyZero | src/opcode.rs:72-80 | family 0 is 00E0 exactly for x,y,n = 0,E,0, 00EE exactly for 0,E,E, and `None` otherwise |
| Decoder.FamilyEightSelectsOnN | src/opcode.rs:88-99 | in family 8 only n selects the instruction |
| Decoder.FamiliesEFSelectOnKk | src/opcode.rs:105-121 | in families E and F only kk selects the instruction |
| Decoder.SubtractionsSwapped | src/opcode.rs:94-96 | 8XY5 decodes to `SubVXFromVY` and 8XY7 to `SubVYFromVX`, the reverse of the enum's comments |
| Decoder.DecodeIntended | src/opcode.rs:54-55 | the corrected decoder gives `SubVYFromVX` exactly for 8XY5 and `SubVXFromVY` exactly for 8XY7, as the enum's comments say, and agrees with `Decode` on every other word |
| Decoder.DecodeWordIntended | src/opcode.rs:54-55 | the corrected decoder applied to the split word never yields `Error` |
| Decoder.IntendedSwapsSubtractions | src/opcode.rs:94-96 | the two decoders differ exactly on 8XY5 and 8XY7, where each gives the subtraction the other gives |
| Decoder.DecodeNibbles | src/opcode.rs:68-128 | the fields `Nibbles` gives an instruction decode to that instruction |
| Decoder.DecodeAssemble | src/opcode.rs:68-128 | every one of the 34 instructions is decoded from the word `Assemble` builds for it |
| Decoder.NibblesOfDecoded | src/opcode.rs:68-128 | the nibbles of a decoded instruction, with the word's own x, y, n, are the word's nibbles |
| Decoder.AssembleDecode | src/opcode.rs:68-128 | a word that decodes to an instruction is the word `Assemble` builds from that instruction and the word's x, y, n |
| Control.Jump | src/cpu.rs:229-231 | pc := nnn and nothing else changes |
| Control.JumpWithOffset | src/cpu.rs:425-427 | pc - V0 = nnn, with no mask to 12 bits; nothing else changes |
| Control.JumpWithOffsetIsJump | src/cpu.rs:425-427 | BNNN is the plain jump to NNN + V0, and the jump to NNN when V0 = 0 |
| Control.FirstEmpty | src/cpu.rs:245-251 | the scan finds the first empty slot from i on, or 0 when all are full |
| Control.GotoSub | src/cpu.rs:244-254 | pc is stored in the lowest empty slot (slot 0 when none is empty) and pc := nnn |
| Control.ReturnScan | src/cpu.rs:234-240 | the reverse walk ends on the lowest non-empty slot, or keeps pc and stop when all are empty |
| Control.ReturnSub | src/cpu.rs:233-242 | pc := the lowest non-empty slot, which is emptied; with an empty stack nothing changes |
| Control.PushAt | src/cpu.rs:244-254 | a call whose first empty slot is k stores pc in slot k and jumps |
| Control.PopAt | src/cpu.rs:233-242 | a return whose lowest non-empty slot is k resumes at that address and empties slot k |
| Control.CallThenReturn | src/cpu.rs:233-254 | from an empty stack, 2NNN then 00EE gives back the original state |
| Control.ReturnIsNotLifo | src/cpu.rs:233-254 | after two nested calls the first return goes to the outer caller and leaves the inner address in slot 1 |
| Control.FullStackOverwritesSlotZero | src/cpu.rs:244-254 | a call on a full stack overwrites slot 0 and keeps slots 1-15 |
| Control.SkipEqual | src/cpu.rs:256-260 | pc += 2 exactly when Vx = kk, and only pc changes |
| Control.SkipNotEqual | src/cpu.rs:262-266 | pc += 2 exactly when Vx ≠ kk, and only pc changes |
| Control.SkipVXEqualVY | src/cpu.rs:268-272 | pc += 2 exactly when Vx = Vy, and only pc changes |
| Control.SkipVXNotEqualVY | src/cpu.rs:274-278 | pc += 2 exactly when Vx ≠ Vy, and only pc changes |
| Control.ImmediateSkipsComplementary | src/cpu.rs:256-266 | on one state exactly one of 3XKK and 4XKK skips |
| Control.RegisterSkipsComplementary | src/cpu.rs:268-278 | on one state exactly one of 5XY0 and 9XY0 skips |
| Control.MoveThenSkipEqual | src/cpu.rs:268-272 | after 8XY0, 5XY0 always skips |
| Control.SkipIfKey | src/cpu.rs:280-316 | pc += 2 exactly when a key was read and equals Vx |
| Control.SkipIfNotKey | src/cpu.rs:318-361 | pc += 2 exactly when no key was read or it differs from Vx |
| Control.KeySkipsComplementary | src/cpu.rs:280-361 | for every poll result exactly one of EX9E and EXA1 skips |
| Control.GetKey | src/cpu.rs:363-402 | a key is stored in Vx and nothing else changes; with no key, pc goes back 2 and nothing else changes |
| Keys.KeyOfChar | src/cpu.rs:288-309 | every mapped character yields a key below 16, never 0xE |
| Keys.MappedCharacters | src/cpu.rs:288-309 | exactly the sixteen listed characters produce a key |
| Keys.KeyCoverage | src/cpu.rs:288-309 | every key but 0xE is produced by some character, and 'f' and 'v' both give 0xF |
| Registers.SetVX | src/cpu.rs:404-406 | Vx := kk; no other register or state changes |
| Registers.AddVX | src/cpu.rs:408-412 | Vx grows by kk mod 256, wrapping exactly when the sum passes 255; VF is untouched unless it is Vx |
| Registers.AddVXInverse | src/cpu.rs:408-412 | 7XKK then 7X(256-KK) gives back the original state |
| Registers.AddVXCompose | src/cpu.rs:408-412 | two 7X additions are one addition of the wrapped sum |
| Registers.SetVXToVY | src/cpu.rs:467-469 | Vx := Vy; only Vx changes |
| Registers.BinaryOr | src/cpu.rs:471-473 | Vx becomes `Or` of Vx and Vy (each bit set exactly when it is set in either), which is at least both operands; only Vx changes |
| Registers.BinaryAnd | src/cpu.rs:475-477 | Vx becomes `And` of Vx and Vy (each bit set exactly when it is set in both), which is at most both operands; only Vx changes |
| Registers.BinaryXor | src/cpu.rs:479-481 | Vx becomes `Xor` of Vx and Vy (each bit set exactly when the two differ there), which is 0 when x = y; only Vx changes |
| Registers.XorTwiceRestores | src/cpu.rs:479-481 | 8XY3 twice with x ≠ y gives back the original state |
| Registers.OrAndIdempotent | src/cpu.rs:471-477 | 8XY1 and 8XY2 applied a second time change nothing |
| Registers.AddVYToVX | src/cpu.rs:483-492 | Vx + 256·VF is the true sum, VF = 1 exactly on carry; with x = F the sum overwrites the flag |
| Registers.Subtract | src/cpu.rs:494-516 | the shared body: the result is m - s, plus 256 when VF = 0 on a borrow; VF is 1 when m ≥ s and 0 otherwise; with x = F the difference overwrites the flag |
| Registers.SubVYFromVX | src/cpu.rs:494-504 | Vx := (Vx - Vy) mod 256, then VF is 1 when Vx ≥ Vy and 0 otherwise; with x = F the difference overwrites the flag |
| Registers.SubVXFromVY | src/cpu.rs:506-516 | Vx := (Vy - Vx) mod 256, then VF is 1 when Vy ≥ Vx and 0 otherwise; with x = F the difference overwrites the flag |
| Registers.SubThenAddRestores | src/cpu.rs:483-504 | adding Vy back after subtracting it restores Vx, and the carry equals the no-borrow flag's complement |
| Registers.ShiftRight | src/cpu.rs:518-522 | VF ends as the old low bit of Vx even when x = F, because the flag is written last; for x ≠ F, Vx' = Vx / 2 and 2·Vx' + VF = Vx; Vy is ignored |
| Registers.ShiftLeft | src/cpu.rs:524-529 | VF ends as the old high bit of Vx even when x = F, because the flag is written last; for x ≠ F, Vx' = 2·Vx mod 256 and 256·VF + Vx' = 2·Vx; Vy is ignored |
| Registers.ShiftRightThenLeft | src/cpu.rs:518-529 | 8XY6 then 8XYE clears the low bit of Vx and leaves VF = 0 |
| Registers.Random | src/cpu.rs:429-432 | Vx becomes `And` of the random byte and kk, at most both; only Vx changes |
| Registers.RandomMaskExtremes | src/cpu.rs:429-432 | mask 0xFF passes the random byte through; mask 0 gives 0 |
| Registers.SetVXToDT | src/cpu.rs:541-543 | Vx := dt; only Vx changes |
| Registers.SetDTToVX | src/cpu.rs:545-547 | dt := Vx; nothing else changes |
| Registers.SetSTToVX | src/cpu.rs:549-551 | st := Vx; nothing else changes |
| Registers.DelayTimerRoundTrip | src/cpu.rs:541-547 | FX15 then FY07 is 8YX0 with dt set to Vx |
| Machine.And | src/cpu.rs:475-477 | each of the eight bits of a & b is set exactly when it is set in a and in b; the result is at most each operand |
| Machine.Or | src/cpu.rs:471-473 | each of the eight bits of a \| b is set exactly when it is set in a or in b; the result is at least each operand |
| Machine.Xor | src/cpu.rs:479-481 | each of the eight bits of a ^ b is set exactly when a and b differ there |
| Machine.AndBitsBit | src/cpu.rs:475-477 | bit e of the k-bit AND, for e < k, is the AND of bit e of the operands |
| Machine.OrBitsBit | src/cpu.rs:471-473 | bit e of the k-bit OR, for e < k, is the OR of bit e of the operands |
| Machine.XorBitsBit | src/cpu.rs:479-481 | bit e of the k-bit XOR, for e < k, is 1 exactly when bit e of the operands differ |
| Machine.XorCancel | src/cpu.rs:479-481 | (a ^ b) ^ b = a |
| Machine.Idempotent | src/cpu.rs:471-477 | a & a = a and a \| a = a |
| Machine.MaskExtremes | src/cpu.rs:429-432 | a & 0xFF = a and a & 0 = 0 |
| Memory.SetI | src/cpu.rs:414-416 | I := nnn and nothing else changes |
| Memory.AddI | src/cpu.rs:418-423 | I grows by Vx; VF := 1 exactly when the new I is at least 0x1000, and the registers are otherwise untouched |
| Memory.FontCharacter | src/cpu.rs:434-437 | I = 0x50 + 5·Vx, past the font exactly when Vx ≥ 16 |
| Memory.BinaryCodedDecimalConversion | src/cpu.rs:531-539 | three bytes at I hold Vx/100, Vx/10 and Vx%10; the middle one is a digit exactly when Vx < 100; no other byte changes |
| Memory.SaveLoop | src/cpu.rs:554-556 | the loop from i on writes V_i..=V_x to mem[I+i..=I+x] and nothing else |
| Memory.SaveRegisterToMemory | src/cpu.rs:553-557 | mem[I+i] = V_i for i ≤ x; every other byte is kept |
| Memory.LoadLoop | src/cpu.rs:560-562 | the loop from i on reads mem[I+i..=I+x] into V_i..=V_x and nothing else |
| Memory.LoadRegisterFromMemory | src/cpu.rs:559-563 | V_i = mem[I+i] for i ≤ x; higher registers are kept |
| Memory.LoadAfterSave | src/cpu.rs:553-563 | FX65 right after FX55 changes nothing |
| Memory.SaveAfterLoad | src/cpu.rs:553-563 | FX55 right after FX65 changes nothing |
| Memory.SaveThenLoadRestores | src/cpu.rs:553-563 | saving V0..=Vx and loading them back after the registers change restores them |
| Sprite.Width | src/cpu.rs:455-458 | the bit loop draws between 1 and 8 columns and never past column 63 |
| Sprite.RowsEnd | src/cpu.rs:461-464 | the row loop reads all n rows from row 31, otherwise none past display row 30 |
| Sprite.LastSet | src/cpu.rs:447 | the last set bit of a range, in `Msb0` order |
| Sprite.BitStep | src/cpu.rs:448-453 | one bit of the inner loop keeps the display 64 columns of 32 rows, so every later index stays in bounds; its effect is `Sprite.BitStepEffect` |
| Sprite.BitStepEffect | src/cpu.rs:448-455 | a set bit flips its pixel and puts the old pixel in VF; a clear bit does nothing |
| Sprite.RowPass | src/cpu.rs:447-459 | the inner loop keeps the display 64 by 32 from any starting bit; its effect is `Sprite.RowPassEffect` |
| Sprite.RowPassDisplay | src/cpu.rs:447-460 | one pass over a sprite byte flips exactly the drawn pixels under its set bits |
| Sprite.RowPassFlag | src/cpu.rs:447-460 | after one pass VF is the old value of the last pixel flipped, or unchanged |
| Sprite.RowPassEffect | src/cpu.rs:444-460 | a whole pass flips the row's pixels under set bits, keeps other rows, and leaves the flag of the last flip |
| Sprite.LastHitFrame | src/cpu.rs:442-464 | the final flag depends only on the display rows the sprite covers |
| Sprite.RowsLoop | src/cpu.rs:444-464 | the outer loop keeps the display 64 by 32 from any starting row; its effect is `Sprite.RowsLoopDisplay` and `Sprite.RowsLoopFlag` |
| Sprite.RowsLoopDisplay | src/cpu.rs:442-464 | the row loop flips exactly the pixels under set sprite bits in the drawn rows and columns |
| Sprite.RowsLoopFlag | src/cpu.rs:442-464 | after the row loop VF is the old value of the last pixel flipped, or 0 |
| Sprite.Draw | src/cpu.rs:439-465 | DXYN flips exactly the pixels under set bits, keeps every other pixel, and sets VF to the old value of the last flip (0 when none); only the display and VF change |
| SpriteFacts.DrawSafeAwayFromBottom | src/cpu.rs:461-464 | below row 31 DXYN cannot index past the display |
| SpriteFacts.EmptySpriteReadsNoMemory | src/cpu.rs:439-446 | DXY0 reads no sprite byte, so it is in bounds with any I, even past memory, and only sets VF to 0 |
| SpriteFacts.DrawDoesNotWrap | src/cpu.rs:455-462 | pixels left of or above the origin are never touched |
| SpriteFacts.BottomRowOnlyFromBottom | src/cpu.rs:461-464 | row 31 changes only when drawing starts on it |
| SpriteFacts.DrawTwiceRestores | src/cpu.rs:439-465 | drawing the same sprite twice restores the display |
| SpriteFacts.SecondDrawCollides | src/cpu.rs:439-465 | on a blank display the first draw reports no collision and the second reports one when any bit is drawn |
| SpriteFacts.CollisionCanBeMasked | src/cpu.rs:448-455 | a sprite that erases a lit pixel and then lights a dark one ends with VF = 0 |
| Interpreter.Dispatch | src/cpu.rs:87-225 | every non-panicking arm keeps each part of the state unless it owns it; only 00E0 sends `ClearScreen`; only DXYN sends `DrawScreen`, carrying the new display |
| Interpreter.RunControl | src/cpu.rs:94-153 | the jump, call, skip and key-wait arms keep every part of the state but pc, the stack and the registers; only 2NNN and 00EE touch the stack and only FX0A the registers |
| Interpreter.RunLoad | src/cpu.rs:134-217 | the 6XKK, 7XKK, CXKK and timer arms change only registers and timers; the timer writes keep the registers and the others keep the timers |
| Interpreter.RunArithmetic | src/cpu.rs:166-201 | the family-8 arms change only the registers |
| Interpreter.RunMemory | src/cpu.rs:142-225 | the arms through I change only I, memory and registers; only ANNN, FX1E and FX29 write I, only FX33 and FX55 write memory, and only FX1E and FX65 write registers |
| Interpreter.RunDraw | src/cpu.rs:162-165 | DXYN changes only the display and VF |
| Interpreter.Execute | src/cpu.rs:78-226 | a word panics exactly when the decoder reaches `unreachable!()`, since no word decodes to `Error`; otherwise the state is framed by its instruction and the message matches it |
| Interpreter.ExecuteIntended | src/cpu.rs:494-516 | with the corrected decoder, 8XY5 runs `sub_vy_from_vx` and 8XY7 runs `sub_vx_from_vy`; every other word runs as in `Execute` |
| Interpreter.ExecuteArithmetic | src/cpu.rs:166-201 | a word that decodes to a family-8 instruction never panics, runs its arm and sends no message |
| Interpreter.ExecuteLoad | src/cpu.rs:134-217 | a word that decodes to a load, CXKK or timer instruction never panics, runs its arm and sends no message |
| Interpreter.ExecuteControl | src/cpu.rs:94-153 | a jump, call, return, skip or key-wait word whose handler does not panic runs its arm and sends no message |
| Interpreter.ExecuteCall | src/cpu.rs:102-105 | 2NNN pushes the pc it is given into the first empty slot and jumps to NNN |
| Interpreter.ExecuteSetDelay | src/cpu.rs:210-213 | FX15 copies Vx into the delay timer |
| Interpreter.ExecuteEmptySprite | src/cpu.rs:162-165 | a DXY0 word runs whatever I holds: VF becomes 0 and `DrawScreen` carries the unchanged display |
| Interpreter.ClearKeepsDisplay | src/cpu.rs:93 | 00E0 sends `ClearScreen` and leaves the whole state, display included, as it was |
| Interpreter.MachineRoutineIgnored | src/cpu.rs:88 | a family-0 word other than 00E0 and 00EE changes nothing and sends nothing |
| Interpreter.ExecuteAssembled | src/cpu.rs:78-226 | executing the word built for an instruction runs that instruction's arm |
| Chip.WithFont | src/chip.rs:78-82 | memory with the 80 font bytes at 0x50 and every other byte as before |
| Chip.WithRom | src/chip.rs:87-89 | memory with the ROM at 0x200 and every other byte as before |
| Chip.LoadFontSet | src/chip.rs:78-82 | memory at 0x50..0xA0 holds the font and every other byte is kept |
| Chip.LoadRom | src/chip.rs:87-89 | memory at 0x200.. holds the ROM and every other byte is kept |
| Chip.TickTimers | src/chip.rs:65-73 | when a tick is due each non-zero timer drops by one; otherwise nothing changes |
| Chip.Ticks | src/chip.rs:65-73 | k ticks in a row change only the two timers |
| Chip.TicksCountDown | src/chip.rs:65-73 | after k ticks each timer has dropped by k or stopped at 0 |
| Chip.Cycle | src/chip.rs:57-73 | one turn panics exactly when the decoder does; otherwise pc moves past the word unless the instruction moves it, the message and memory change only as the instruction allows, and a timer the instruction does not write is kept without a tick and drops by one (stopping at 0) with one |
| Chip.CallPushesNextInstruction | src/chip.rs:57-58 | a turn on 2NNN pushes pc + 2, the address after the call, into the first empty slot (slot 0 when none is empty) and jumps to NNN |
| Chip.DelayTimerTicksAfterLoad | src/chip.rs:57-73 | FX15 and a due tick in one turn leave dt = Vx - 1, or 0 when Vx = 0: the load comes before the tick |
| Chip.KeyWaitRepeats | src/cpu.rs:363-402 | a turn on FX0A with no key leaves pc on the same instruction and the registers unchanged |
| Chip.Boot | src/main.rs:13-19 | the start state is `Cpu::new` with only memory changed |
| Chip.BootKeepsFont | src/main.rs:13-19 | after `new`, the font and the ROM copy, pc = 0x200, the font and ROM are in place and the gap between them is zero |
| Chip.FontCharacterFindsGlyph | src/cpu.rs:434-437 | with the font loaded, FX29 on a digit d points I at the five bytes of glyph d |
| Scenarios.JumpExample | src/cpu.rs:570-575 | 1234 sets pc to 0x234 |
| Scenarios.ReturnExample | src/cpu.rs:577-583 | 00EE with 0x222 in slot 0 returns to 0x222 and empties the slot |
| Scenarios.CallExample | src/cpu.rs:585-592 | 2123 at pc 1 jumps to 0x123 and saves 1 in slot 0 |
| Scenarios.ImmediateSkipExamples | src/cpu.rs:594-608 | 3001 with V0 = 1 and 4001 with V0 = 2 both skip to 0x202 |
| Scenarios.RegisterSkipEqualExample | src/cpu.rs:610-617 | 5010 with V0 = V1 = 1 skips to 0x202 |
| Scenarios.RegisterSkipNotEqualExamples | src/cpu.rs:723-732 | 9010 skips to 0x202 when V0 = 1 and V1 = 0, and does not skip once V1 = 1 |
| Scenarios.SetVXExample | src/cpu.rs:619-624 | 6012 loads 0x12 into V0 |
| Scenarios.AddWithoutCarryExample | src/cpu.rs:626-633 | 7112 turns V1 = 1 into 0x13 and leaves VF at 0 |
| Scenarios.MoveExample | src/cpu.rs:635-642 | 8010 copies V1 = 2 into V0 |
| Scenarios.OrExample | src/cpu.rs:644-651 | 8011 turns V0 = 0b010 into 0b110 when V1 = 0b110 |
| Scenarios.AndExample | src/cpu.rs:653-660 | 8012 turns V0 = 0b011 into 0b010 when V1 = 0b110 |
| Scenarios.XorExample | src/cpu.rs:662-669 | 8013 turns V0 = 0b011 into 0b100 when V1 = 0b111 |
| Scenarios.CarryExamples | src/cpu.rs:671-686 | 128 + 128 gives 0 with VF = 1; 2 + 3 gives 5 with VF = 0 |
| Scenarios.SubtractionExampleReversed | src/cpu.rs:688-703 | 8015 computes V1 - V0: with V0 = 4, V1 = 2 it gives 0xFE, VF = 0, and with V0 = 2, V1 = 4 it gives 2, VF = 1 |
| Scenarios.SubtractionExampleIntended | src/cpu.rs:688-703 | under the corrected decoder all four assertions of the test hold: V0 = 4, V1 = 2 gives 2 with VF = 1, and V0 = 2, V1 = 4 gives 254 with VF = 0 |
| Scenarios.ShiftRightExample | src/cpu.rs:705-712 | 8016 on 0xFF gives 0x7F with VF = 1 |
| Scenarios.ShiftLeftExample | src/cpu.rs:714-721 | 801E on 0xFF gives 0xFE with VF = 1 |
| Scenarios.SetIndexExample | src/cpu.rs:734-739 | A123 sets I to 0x123 |
| Scenarios.JumpWithOffsetExample | src/cpu.rs:741-747 | B123 with V0 = 1 jumps to 0x124 |

## Left out

- The terminal renderer (src/terminal.rs) and `main`'s argument parsing, raw mode and file reading are outside the core. The ROM file is a byte sequence.
- The key poll (`crossterm::event::poll`/`read`) is a parameter: each key handler receives `Option<Byte>`, already mapped through the key table (`Keys.KeyOfChar`). Non-character events and unmapped characters both give `None`, which the Rust code treats the same way.
- The clock is the boolean `due` of `Chip.Cycle`. `rand::random` is the `rnd` parameter. `Clock::tick`'s pacing sleep is left out; it changes no state.
- The channel: `run` sends each non-`None` message on a channel, and the send's error ends the loop. `Cycle` returns the message instead, and the initial `ClearScreen` of `run` (src/chip.rs:55) is not modelled. The loop itself is one `Cycle`; there is no model of the infinite loop.
- `println!` of the unknown opcode and of the CPU state, and the `Debug`/`Display` impls, are left out.
- The sources do not agree on some signatures: `Chip8::new(rx)` calls `Cpu::new(rx)` (src/chip.rs:38-39) while `Cpu::new()` takes no argument, `main` calls `Chip8::new()`, and `Opcode::Draw` returns `Chip8Message::DrawScreen` without its payload (src/cpu.rs:162-165). The model follows `Cpu::new()` and sends the display with `DrawScreen`, as the enum at src/chip.rs:93-98 declares.
- Handler panics are preconditions:
  - an index past memory in DXYN with N ≥ 1, FX33, FX55 and FX65 (DXY0 reads no sprite byte, so it runs with any I);
  - an index past the display in DXYN from row 31;
  - `pc += 2` or `I += Vx` overflowing `u16`;
  - `pc -= 2` underflowing.
  An index past an array panics in every build. The `u16` overflow and underflow panic only when overflow checks are on, as in the debug profile; a release build wraps instead. `CanExecute` and `CanCycle` collect these preconditions.
- Release-build wrap-around of `pc += 2`, `pc -= 2` and `I += Vx` is not modelled: those states are excluded by the preconditions instead of wrapping modulo 0x10000.
- A ROM longer than 0xE00 bytes indexes past memory; `Chip.LoadRom` requires that it fits.
- Where the code departs from Cowgod's Chip-8 Technical Reference, the model follows the code:
  - 00E0 does not clear the display.
  - A set bit over a dark pixel writes VF := 0.
  - The row loop stops after row 30, not 31.
  - The stack is a zero-sentinel array with no overflow or underflow error: a call on a full stack overwrites slot 0, and a return on an empty stack changes nothing.
  - An unknown family panics rather than being reported.
  - The middle BCD byte is Vx / 10.
  - 8XY5 runs `SubVXFromVY` (see Findings).
- `test_draw` (src/cpu.rs:749-753) asserts nothing and has no lemma.

## Findings

| source | as written | input that shows it | evidently intended | confidence | as-written member | corrected member |
|---|---|---|---|---|---|---|
| src/opcode.rs:94-96 | 8XY5 decodes to `SubVXFromVY` (Vx := Vy - Vx) and 8XY7 to `SubVYFromVX` (Vx := Vx - Vy) | 8015 with V0 = 4, V1 = 2 gives V0 = 0xFE, VF = 0, where `test_sub_vy_from_vx` (src/cpu.rs:688-703) expects V0 = 2, VF = 1 | 8XY5 is `SubVYFromVX` and 8XY7 is `SubVXFromVY`, as the comments on the enum (src/opcode.rs:54-55) and the test say | high; not executed | Decoder.SubtractionsSwapped, Scenarios.SubtractionExampleReversed | Decoder.DecodeIntended, Interpreter.ExecuteIntended, Scenarios.SubtractionExampleIntended |

`Interpreter.Execute` and `Chip.Cycle` keep the decoder as written, so the rest of the model describes the program as it runs. `Interpreter.ExecuteIntended` is the same step over the corrected decoder, and the two differ only on 8XY5 and 8XY7 (`Decoder.IntendedSwapsSubtractions`).

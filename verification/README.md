# CHIP-8 virtual CPU

A Dafny model of the CHIP-8 interpreter core in `src/chip8.c`: the
resident hexadecimal font, the reset of the machine (`vm_init`), the copy
of a program image to address 0x200 (`load_program`), and one machine
cycle (`vm_cycle`) — fetch of the big-endian opcode at PC, decode by the
two-level switch on the opcode's fields, execution of the 34 instructions,
and the tick of the delay and sound timers that ends every cycle.

The machine state is an immutable datatype (`Machine.State`) holding the
4096-byte memory, the sixteen 8-bit V registers, the 16-bit index
register I and program counter, the sixteen-entry return stack and its
pointer, the two timers, the 2048-cell frame buffer with its redraw flag,
and the sixteen keys. A cycle is the pure function `Cpu.Step`; the value
`rand()` would return is its parameter `rnd`. Decoding (`Opcode.Decode`)
is kept apart from execution (`Cpu.Exec`), and `Cpu.Run` is the part of a
cycle after fetch and decode. Where the C code would index an array out
of its bounds, the model stops with an explicit outcome instead
(`Cpu.Outcome.FetchOutOfRange`, `Cpu.Fault`).

Modules, in dependency order: `Font` (the glyph table), `Memory` (byte
block copies), `Display` (frame buffer and sprite blit), `Machine` (state,
reset, loader, timers), `Opcode` (decoder and an encoder that inverts
it), `Alu` (family-8 arithmetic, RND, BCD), `Cpu` (one cycle) and `Cycle`
(what the cycle does, instruction by instruction, and properties over
several cycles).

The behaviour is the code's as written, including where it departs from
the usual CHIP-8 description:

- 5xy0 compares register V[n] (the low nibble) with the number y itself.
  This is because `opcode & 0x0F00 >> 8` binds as `opcode & 0x0F`, so it
  is not a test of Vx against Vy (`Cycle.RunSeReg`, `Cycle.SeRegIgnoresVx`).
- Fx0A writes 1 into Vx, not the number of the key that is down. With no
  key down, the cycle returns before the timers tick (`Cycle.WaitKeyStalls`).
- An unknown opcode leaves PC where it is, but the timers still tick
  (`Cycle.RunUnknown`, `Cycle.UnknownRepeats`).
- RND reduces the random value modulo 0xFF, so the result is never 0xFF
  (`Alu.RandomRange`).
- Dxyn does not wrap sprites at the screen edges. A set pixel past
  column 63 lands on the following row's cells, and one whose cell index
  is 2048 or more is an out-of-range access. Only the set pixels are
  checked, so a sprite with blank columns may hang past the edge.
- A program image is copied only when it is shorter than 3584 bytes.
- 2nnn pushes the address of the CALL itself. 00EE adds 2 to the popped
  address.
- Bnnn does not reduce nnn + V0 to 12 bits.
- 5xyn and 9xyn do not check their low nibble.

## Model

| member | source | states |
|---|---|---|
| Machine.Init | src/chip8.c:48-68 | the reset state: PC = 0x200, I, sp, timers, registers, stack, keys zero, blank screen, no redraw, the font in bytes 0..79 and zeros above |
| Machine.LoadRom | src/chip8.c:95-99 | an image shorter than 3584 bytes lands at 0x200..0x200+len-1 with all other memory and every other field kept; a longer one changes nothing |
| Machine.LoadKeepsFont | src/chip8.c:64-65 | loading any image into the reset machine leaves the font in bytes 0..79 |
| Machine.Wrap16 | src/chip8.c:28-29 | storing into a 16-bit PC or I keeps values below 2^16 and subtracts 2^16 from those just above |
| Machine.Countdown | src/chip8.c:348-354 | a timer at zero stays zero; any other timer goes down by exactly one |
| Machine.Tick | src/chip8.c:348-354 | the end of a cycle changes only the two timers, each decremented by one unless already zero |
| Memory.WriteFrom | src/chip8.c:96-97 | copying from byte i on puts bytes[a - addr] at each address a of addr+i..addr+len-1 and keeps every other address |
| Memory.Write | src/chip8.c:96-97 | after a block copy the window holds the bytes and every address outside it is unchanged |
| Display.Blank | src/chip8.c:55-56 | 2048 cells, all zero |
| Display.PixelSetIsMaskTest | src/chip8.c:250 | pixel `col` of a sprite row is set iff the row ANDed with `0x80 >> col` is nonzero |
| Display.DrawRow | src/chip8.c:249-255 | the column loop keeps the buffer's length |
| Display.DrawRows | src/chip8.c:247-256 | the row loop keeps the buffer's length |
| Display.Draw | src/chip8.c:246-256 | the blit gives a buffer of 2048 cells |
| Display.DrawOnBlank | src/chip8.c:246-256 | blitting on the blank buffer never collides: the cells under set pixels become 1 and all others stay 0 |
| Display.DrawRowKeeps | src/chip8.c:249-255 | the column loop leaves every cell not under a set bit of the row as it was |
| Display.DrawRowFlips | src/chip8.c:249-255 | the column loop flips the low bit of the cell under each set bit |
| Display.DrawRowFlag | src/chip8.c:249-255 | after the column loop the flag is 0 or 1, and it is 1 iff it was 1 before or some set bit met a nonzero cell |
| Display.DrawRowsKeeps | src/chip8.c:247-256 | the row loop leaves alone every cell under no set pixel of the remaining rows |
| Display.DrawRowsFlips | src/chip8.c:247-256 | the row loop flips the cell under each set pixel of the remaining rows exactly once, since rows never share a cell |
| Display.DrawRowsFlag | src/chip8.c:246-256 | the flag after the row loop is 1 iff it was 1 or some remaining set pixel met a nonzero cell |
| Display.DrawCells | src/chip8.c:247-256 | the blit flips the cell under every set sprite pixel and keeps every uncovered cell |
| Display.DrawFlag | src/chip8.c:246-256 | the blit's VF is 0 or 1, and 1 iff some set pixel landed on a nonzero cell |
| Display.DrawKeepsBinary | src/chip8.c:253 | blitting into a buffer of zeros and ones leaves zeros and ones |
| Display.DrawTwice | src/chip8.c:246-256 | blitting the same sprite at the same place twice gives back the original buffer; the second flag is 1 iff some covered cell was not 1 |
| Opcode.RoundTripJump | src/chip8.c:121-137 | decoding the encoding of 00EE, 1nnn, 2nnn or Bnnn gives that instruction back |
| Opcode.RoundTripTest | src/chip8.c:138-155 | decoding the encoding of 3xkk, 4xkk, 5xyn, 9xyn, Ex9E or ExA1 gives it back |
| Opcode.RoundTripLoad | src/chip8.c:156-163 | decoding the encoding of 6xkk, 7xkk, Cxkk or Fx07 gives it back |
| Opcode.RoundTripArith | src/chip8.c:164-216 | decoding the encoding of each family-8 operation gives it back |
| Opcode.RoundTripScreen | src/chip8.c:114-120 | decoding the encoding of 00E0 or Dxyn gives it back |
| Opcode.RoundTripIo | src/chip8.c:285-304 | decoding the encoding of Fx0A, Fx15 or Fx18 gives it back |
| Opcode.RoundTripIndex | src/chip8.c:305-337 | decoding the encoding of Annn, Fx1E, Fx29, Fx33, Fx55 or Fx65 gives it back |
| Opcode.Decode | src/chip8.c:111-346 | an opcode no case of the switch matches comes out as an unknown instruction carrying that opcode |
| Opcode.Encode | src/chip8.c:338-345 | an unknown instruction encodes as the opcode it carries |
| Opcode.DecodeCanonical | src/chip8.c:111-346 | the canonical opcode of any decoded instruction decodes to the same instruction |
| Opcode.DecodeEncode | src/chip8.c:111-346 | the decoder recovers every instruction from its opcode, so each instruction has a distinct opcode in the switch |
| Alu.Carry | src/chip8.c:183-186 | the 8xy4 flag is 0 or 1, and 1 iff the exact sum exceeds 0xFF |
| Alu.CarrySum | src/chip8.c:182-187 | the flag times 256 plus the truncated sum is the exact sum |
| Alu.NoBorrow | src/chip8.c:191-194 | the 8xy5/8xy7 flag is 0 or 1, and 1 iff the minuend is at least the subtrahend |
| Alu.BorrowDifference | src/chip8.c:190-197 | the truncated difference plus the subtrahend is the minuend, plus 256 iff the flag is 0 |
| Alu.OrBits | src/chip8.c:170-173 | bit i of `a \| b` is set iff bit i of a or of b is set |
| Alu.AndBits | src/chip8.c:174-177 | bit i of `a & b` is set iff bit i of both a and b is set |
| Alu.XorBits | src/chip8.c:178-181 | bit i of `a ^ b` is set iff exactly one of a and b has bit i set |
| Alu.Or | src/chip8.c:170-173 | 8xy1 changes only Vx (VF too only when x is F); each bit of the new Vx is set iff it was set in Vx or in Vy |
| Alu.And | src/chip8.c:174-177 | 8xy2 changes only Vx (VF too only when x is F); each bit of the new Vx is set iff it was set in both Vx and Vy |
| Alu.Xor | src/chip8.c:178-181 | 8xy3 changes only Vx (VF too only when x is F); each bit of the new Vx is set iff exactly one of Vx and Vy had it set |
| Alu.AddCarry | src/chip8.c:182-189 | 8xy4 keeps registers other than Vx and VF, sets VF to the carry and Vx to the wrapped sum; for x or y = F, the flag written first is what the addition reads |
| Alu.SubBorrow | src/chip8.c:190-197 | 8xy5 keeps registers other than Vx and VF, sets VF to no-borrow and Vx to Vx - Vy mod 256; the aliasing cases with F as stated |
| Alu.SubReverse | src/chip8.c:203-211 | 8xy7 keeps registers other than Vx and VF, sets VF to no-borrow of Vy - Vx and Vx to Vy - Vx mod 256; aliasing cases with F |
| Alu.ShiftRight | src/chip8.c:198-202 | 8xy6 sets VF to the low bit of Vx and halves Vx; V[F] itself becomes 0 |
| Alu.ShiftLeft | src/chip8.c:212-216 | 8xyE sets VF to the top bit of Vx and doubles Vx mod 256; V[F] itself becomes 0 or 2 |
| Alu.HalveParts | src/chip8.c:198-202 | the halved byte and the low bit put back together give the byte |
| Alu.DoubleParts | src/chip8.c:212-216 | the doubled byte and the top bit put back together give twice the byte |
| Alu.AddByte | src/chip8.c:160-163 | 7xkk changes only Vx, VF included; the new Vx plus 256 when the sum carries out of the byte is exactly Vx + kk |
| Alu.AddByteUndo | src/chip8.c:160-163 | adding kk to Vx and then the negation of kk modulo 256 gives every register back |
| Alu.Residue | src/chip8.c:236 | the random value modulo 0xFF is never 0xFF |
| Alu.OwnResidue | src/chip8.c:236 | every byte below 0xFF is the residue of itself |
| Alu.Random | src/chip8.c:235-238 | the RND result has no bit outside kk and is never 0xFF |
| Alu.RandomReaches | src/chip8.c:236 | every byte inside the mask other than 0xFF comes from some random value |
| Alu.RandomRange | src/chip8.c:235-238 | a byte can come out of RND iff it lies inside the mask and is not 0xFF |
| Alu.Bcd | src/chip8.c:316-321 | the three stored bytes are decimal digits whose value is Vx, and every other address is kept |
| Cpu.Fetch | src/chip8.c:108 | the opcode's high byte is the byte at PC and its low byte the byte at PC + 1 |
| Cpu.Skip | src/chip8.c:138-143 | only PC changes: it becomes PC + 4 when skipping and PC + 2 otherwise, less 2^16 when that passes 0xFFFF; the two outcomes always differ |
| Cpu.DrawSprite | src/chip8.c:239-259 | Dxyn completes iff the sprite can be read (n = 0, or I + n within memory) and every set pixel lands in the buffer; otherwise it faults with a memory fault first and a display fault second; on completion only the buffer, VF (to 0 or 1) and the redraw request change, and PC moves on |
| Cpu.ClearScreen | src/chip8.c:114-120 | 00E0 zeroes every cell, requests a redraw and moves on, nothing else changed |
| Cpu.Return | src/chip8.c:121-125 | 00EE faults iff the stack is empty |
| Cpu.CallTo | src/chip8.c:133-137 | 2nnn faults iff the stack is full |
| Cpu.SkipKey | src/chip8.c:262-273 | Ex9E/ExA1 fault iff the register holds no key number; otherwise only PC changes: it becomes PC + 4 (in 16 bits) iff the key's state matches the test (down for Ex9E, up for ExA1), and PC + 2 otherwise |
| Cpu.AddIndex | src/chip8.c:305-311 | Fx1E always completes: I becomes I + Vx mod 2^16, VF becomes 1 iff that I exceeds 0xFFF and 0 otherwise, PC moves on by 2, and nothing else changes |
| Cpu.StoreBcd | src/chip8.c:316-321 | Fx33 faults iff I + 2 lies past the end of memory; otherwise I..I+2 hold three decimal digits whose value is Vx, every other address is kept, PC moves on by 2 and nothing else changes |
| Cpu.StoreRegs | src/chip8.c:322-329 | Fx55 faults iff I + x lies past the end of memory; otherwise I..I+x hold V0..Vx, every other address is kept, I moves up by x + 1, PC by 2, and nothing else changes |
| Cpu.LoadRegs | src/chip8.c:330-337 | Fx65 faults iff I + x lies past the end of memory; otherwise V0..Vx hold the bytes at I..I+x, the higher registers are kept, I moves up by x + 1, PC by 2, and nothing else changes |
| Cpu.ExecJump | src/chip8.c:121-137 | the control transfers never wait for a key and leave the timers and the screen alone |
| Cpu.ExecTest | src/chip8.c:138-155 | the skips never wait for a key and leave the timers and the screen alone |
| Cpu.ExecLoad | src/chip8.c:156-163 | the loads into Vx always complete and leave the timers and the screen alone |
| Cpu.ExecArith | src/chip8.c:164-216 | the family-8 operations always complete and leave the timers and the screen alone |
| Cpu.ExecScreen | src/chip8.c:114-120 | 00E0 and Dxyn never wait for a key and leave the timers alone |
| Cpu.ExecIo | src/chip8.c:285-304 | only Fx0A with no key down waits; none of these faults or touches the screen |
| Cpu.ExecIndex | src/chip8.c:305-337 | the index operations never wait and leave the timers and the screen alone |
| Cpu.Exec | src/chip8.c:111-346 | only Fx0A with no key down waits; only Fx0A/Fx15/Fx18 can change the timers and only 00E0/Dxyn the screen |
| Cpu.Step | src/chip8.c:107-355 | a cycle keeps the state well formed, and the fetch fails iff PC + 1 lies past the end of memory |
| Cpu.Run | src/chip8.c:111-355 | executing a decoded instruction keeps the state well formed and never fails the fetch |
| Cpu.Finish | src/chip8.c:348-354 | ending a cycle never reports a fetch failure and keeps the state well formed |
| Cycle.StepRuns | src/chip8.c:107-111 | a cycle runs the instruction that the opcode at PC decodes to |
| Cycle.FetchBigEndian | src/chip8.c:108 | the bytes at PC and PC + 1 holding the high and low halves of an opcode make Fetch return it |
| Cycle.StepRunsEncoded | src/chip8.c:107-111 | with the encoding of an instruction at PC, a cycle runs that instruction |
| Cycle.TimersCountDown | src/chip8.c:348-354 | every completed instruction other than Fx0A/Fx15/Fx18 leaves each timer decremented by one unless zero |
| Cycle.RunSetDelay | src/chip8.c:297-300 | Fx15 loads the delay timer from Vx, then the timers tick |
| Cycle.RunSetSound | src/chip8.c:301-304 | Fx18 loads the sound timer from Vx, then the timers tick |
| Cycle.RunReadDelay | src/chip8.c:281-284 | Fx07 copies the delay timer, as it was before the tick, to Vx |
| Cycle.DelayThenRead | src/chip8.c:281-300 | Fx15 then Fx07 puts Vx, one tick down, into the second register, and leaves the delay timer two ticks down |
| Cycle.WaitKeyStalls | src/chip8.c:285-294 | Fx0A with no key down leaves the whole machine as it was, PC and timers included |
| Cycle.WaitKeyStepStalls | src/chip8.c:285-294 | a machine fetching Fx0A with no key down is a fixed point of the cycle and fetches Fx0A again |
| Cycle.WaitKeyPressed | src/chip8.c:285-296 | Fx0A with a key down sets Vx to 1, moves PC on by 2 and ticks both timers |
| Cycle.RunLdReg | src/chip8.c:166-169 | 8xy0 sets Vx to Vy and moves PC on by 2; every other register (VF too unless x is F), I, memory, the stack, the screen and the keys are kept |
| Cycle.RunAddReg | src/chip8.c:182-189 | 8xy4 (x, y not F): Vx = Vx + Vy mod 256, VF = 1 iff the exact sum exceeds 0xFF, others kept |
| Cycle.RunSub | src/chip8.c:190-197 | 8xy5 (x, y not F): Vx = Vx - Vy mod 256, VF = 1 iff Vx >= Vy, others kept |
| Cycle.RunSubn | src/chip8.c:203-211 | 8xy7 (x, y not F): Vx = Vy - Vx mod 256, VF = 1 iff Vy >= Vx, others kept |
| Cycle.AddRegResult | src/chip8.c:182-189 | for x, y not F, the completed 8xy4 state has Vx = Vx + Vy mod 256, VF = 1 iff the exact sum exceeds 0xFF, the other registers kept and PC + 2 |
| Cycle.SubResult | src/chip8.c:190-197 | for x, y not F, the completed 8xy5 state has Vx = Vx - Vy mod 256, VF = 1 iff Vx >= Vy, the other registers kept and PC + 2 |
| Cycle.SubnResult | src/chip8.c:203-211 | for x, y not F, the completed 8xy7 state has Vx = Vy - Vx mod 256, VF = 1 iff Vy >= Vx, the other registers kept and PC + 2 |
| Cycle.RunLoadByte | src/chip8.c:156-159 | 6xkk sets Vx to kk and moves on |
| Cycle.RunAddByte | src/chip8.c:160-163 | 7xkk adds kk to Vx mod 256 and moves on, with VF untouched |
| Cycle.AddByteThenUndo | src/chip8.c:160-163 | 7xkk followed by 7xkk' with kk' the negation of kk modulo 256 gives every register back |
| Cycle.RunRnd | src/chip8.c:235-238 | Cxkk sets Vx to a value with no bit outside kk and never 0xFF, and moves on |
| Cycle.RunJump | src/chip8.c:130-132 | 1nnn sets PC to nnn and changes nothing else but the timers |
| Cycle.JumpToSelfRepeats | src/chip8.c:130-132 | a 1nnn whose target is its own address is fetched again on every cycle, with only the timers changing |
| Cycle.RunJumpOffset | src/chip8.c:232-234 | Bnnn sets PC to nnn + V0, unreduced |
| Cycle.RunCall | src/chip8.c:133-137 | 2nnn faults iff the stack is full; otherwise it pushes PC, increments sp and jumps |
| Cycle.RunRet | src/chip8.c:121-125 | 00EE faults iff the stack is empty; otherwise it pops and continues two bytes after the popped address |
| Cycle.CallThenRet | src/chip8.c:121-137 | a CALL followed by a RET at its target resumes just after the CALL with sp, registers, I and memory as before, and the stack changed only in the popped entry |
| Cycle.RunSeByte | src/chip8.c:138-143 | 3xkk moves PC by 4 iff Vx = kk, else by 2 |
| Cycle.RunSneByte | src/chip8.c:144-149 | 4xkk moves PC by 4 iff Vx differs from kk, else by 2 |
| Cycle.RunSeReg | src/chip8.c:150-155 | 5xyn moves PC by 4 iff V[n] equals the number y, else by 2 |
| Cycle.SeRegIgnoresVx | src/chip8.c:150-155 | with V0 = V1 = 7, opcode 5010 does not skip |
| Cycle.RunSneReg | src/chip8.c:222-227 | 9xyn moves PC by 4 iff Vx differs from Vy, else by 2 |
| Cycle.RunSkp | src/chip8.c:262-267 | Ex9E faults iff Vx is 16 or more; otherwise it moves PC by 4 iff key Vx is down, else by 2 |
| Cycle.RunSknp | src/chip8.c:268-273 | ExA1 faults iff Vx is 16 or more; otherwise it moves PC by 4 iff key Vx is up, else by 2 |
| Cycle.SeSneExclusive | src/chip8.c:138-149 | of 3xkk and 4xkk with the same x and kk exactly one skips, and their results differ only in PC |
| Cycle.SkpSknpExclusive | src/chip8.c:262-273 | of Ex9E and ExA1 on a key number exactly one skips, and their results differ only in PC |
| Cycle.LoadThenTest | src/chip8.c:138-159 | after 6xkk, 3xkk with the same x and kk always skips and 4xkk never does |
| Cycle.CopyThenSneReg | src/chip8.c:164-169 | after 8xy0, 9xy0 with the same x and y never skips |
| Cycle.ScreenUntouched | src/chip8.c:111-346 | no instruction but 00E0 and Dxyn changes the frame buffer or the redraw flag |
| Cycle.RunCls | src/chip8.c:114-120 | 00E0 zeroes all 2048 cells, requests a redraw and moves on |
| Cycle.ClsTwice | src/chip8.c:114-120 | a second 00E0 leaves the cleared frame buffer as it is |
| Cycle.ClsThenDraw | src/chip8.c:114-120 | after 00E0 a drawable Dxyn sets VF to 0, puts 1 in the cells under set sprite pixels and leaves all others 0 |
| Cycle.DrawShape | src/chip8.c:239-259 | a drawable Dxyn completes with the blit's buffer and flag, a redraw request and PC moved on by 2 |
| Cycle.RunDrawFaults | src/chip8.c:247-253 | Dxyn faults iff n > 0 and a sprite byte lies past the end of memory, or a set pixel lands past the last cell |
| Cycle.RunDrawNothing | src/chip8.c:239-259 | Dxy0 completes whatever I holds: VF becomes 0, a redraw is requested, the buffer is kept and PC moves on |
| Cycle.RunDraw | src/chip8.c:239-259 | drawable Dxyn flips the low bit of exactly the cells under set sprite pixels; VF is 1 iff one of them was nonzero; draw is set; the other registers are kept; PC moves on by 2 |
| Cycle.RunDrawTwice | src/chip8.c:239-259 | running the same Dxyn twice (x, y not F) restores the frame buffer |
| Cycle.DrawTwiceStep | src/chip8.c:239-259 | two cycles that each fetch the same Dxyn (x, y not F) restore the frame buffer |
| Cycle.RunDrawKeepsBinary | src/chip8.c:253 | a frame buffer of zeros and ones stays one after Dxyn |
| Cycle.RunKeepsBinary | src/chip8.c:111-346 | no instruction puts a value other than 0 or 1 into a frame buffer of zeros and ones |
| Cycle.StepKeepsBinary | src/chip8.c:107-355 | a buffer of zeros and ones stays so across every cycle |
| Cycle.RunLoadIndex | src/chip8.c:228-231 | Annn sets I to nnn and moves on |
| Cycle.RunAddIndex | src/chip8.c:305-311 | Fx1E sets I to I + Vx mod 2^16 and VF to 1 iff that I exceeds 0xFFF |
| Cycle.IndexThenAdd | src/chip8.c:228-311 | after Annn, Fx1E leaves I at exactly nnn + Vx and VF at 1 iff that exceeds 0xFFF, 0 otherwise |
| Cycle.GlyphInMemory | src/chip8.c:64-65 | with the font in low memory, the five bytes at 5d are the glyph of digit d |
| Cycle.RunFont | src/chip8.c:312-315 | Fx29 sets I to 5 * Vx |
| Cycle.FontThenDraw | src/chip8.c:239-259 | with the font in low memory and Vx < 16, after Fx29 the five bytes Dxy5 reads are the glyph of digit Vx, and a Dxy5 that fits draws them |
| Cycle.BcdResult | src/chip8.c:316-321 | the completed Fx33 state satisfies the digit properties |
| Cycle.RunBcd | src/chip8.c:316-321 | Fx33 faults iff I + 2 is past memory; otherwise the digits of Vx lie at I..I+2, the rest of memory is kept and PC + 2 |
| Cycle.RunStoreRegs | src/chip8.c:322-329 | Fx55 faults iff I + x is past memory; otherwise V0..Vx lie at I..I+x, the rest of memory is kept and I moves up by x + 1 |
| Cycle.RunLoadRegs | src/chip8.c:330-337 | Fx65 faults iff I + x is past memory; otherwise V0..Vx come from I..I+x, higher registers are kept and I moves up by x + 1 |
| Cycle.StoreThenLoad | src/chip8.c:322-337 | Fx55, then Fx65 with the same x and I set back, restores V0..Vx and leaves I at its post-store value |
| Cycle.RunUnknown | src/chip8.c:126-345 | an unknown opcode changes only the timers; PC stays |
| Cycle.UnknownRepeats | src/chip8.c:338-345 | a machine fetching an unknown opcode fetches it again on the next cycle |

## Left out

- File I/O of `load_program`: opening, sizing, reading and closing the file, and its error returns. The loader takes the image's bytes.
- `srand` and `rand`: the value `rand()` returns is the parameter `rnd` of the cycle.
- Logging to stdout and stderr, the `debug` memory dump, and the BEEP message: they are output only.
- The global `opcode` variable: it is a local value of the cycle.
- `src/main.c` and `src/chip8.h` are not part of this model.
- Out-of-bounds array accesses are undefined behaviour in C. The model faults before making any change instead of modelling partial writes.
- The stack pointer is a natural number. It cannot pass 16 without a fault, so its 16-bit wrap is never reached.
- The redraw flag `draw` is a boolean. The code only ever stores 0 and 1 in it.
- Field extraction with masks and shifts is modelled as division and remainder by powers of two. These agree on unsigned 16-bit values.
- Cycle.RunAddReg: stated for x and y other than F. The cases with F are in the contract of Alu.AddCarry.
- Cycle.RunSub: stated for x and y other than F. The cases with F are in the contract of Alu.SubBorrow.
- Cycle.RunSubn: stated for x and y other than F. The cases with F are in the contract of Alu.SubReverse.
- Cycle.AddRegResult: stated for x and y other than F. The cases with F are in the contract of Alu.AddCarry.
- Cycle.SubResult: stated for x and y other than F. The cases with F are in the contract of Alu.SubBorrow.
- Cycle.SubnResult: stated for x and y other than F. The cases with F are in the contract of Alu.SubReverse.
- Cycle.RunDrawTwice: stated for x and y other than F. When VF holds a coordinate, the first draw moves the second one.
- Cycle.DrawTwiceStep: stated for x and y other than F, for the same reason.
- Cpu.Return: the contract states only when it faults. The popped state is stated by Cycle.RunRet.
- Cpu.CallTo: the contract states only when it faults. The pushed state is stated by Cycle.RunCall.
- Cpu.WaitKey: no row of its own. Its contract follows its body, so Fx0A is stated by Cycle.WaitKeyStalls, Cycle.WaitKeyPressed and Cycle.WaitKeyStepStalls.
- Cpu.DrawSprite: the contract states when it faults and what it leaves alone. The cells drawn and the flag are stated by Cycle.RunDraw.
- Display.Draw: the contract states only the buffer's length. The blit's effect is stated by Display.DrawCells and Display.DrawFlag.
- Display.DrawRow: the contract states only the buffer's length. The loop's effect is stated by Display.DrawRowKeeps, Display.DrawRowFlips and Display.DrawRowFlag.
- Display.DrawRows: the contract states only the buffer's length. The loop's effect is stated by Display.DrawRowsKeeps, Display.DrawRowsFlips and Display.DrawRowsFlag.
- Opcode.Decode: the contract states only the unknown case. That every known instruction is decoded from its opcode is stated by Opcode.DecodeEncode.
- Opcode.Encode: the contract states only the unknown case. That the decoder inverts it is stated by Opcode.DecodeEncode.

# CHIP-8 interpreter core, modelled in Dafny

This project models the CPU core of a small CHIP-8 interpreter written in C:
`cpu.c` together with the machine state `struct chip8` of `cpu.h`. That is
4 KiB of memory, sixteen byte registers V0..VF, the address register I, the
delay and sound timers, a 16-slot return stack with its stack pointer, the
program counter, a 16-bit key bitmap, a 64 x 32 one-bit display packed eight
pixels per byte, and the key-wait latch.

The model has two layers.

* Module `Semantics` gives every handler and entry point of `cpu.c` as a pure
  function over a `Machine` value (module `MachineState`). These functions
  carry contracts that state what each instruction means: flags as carries
  and borrows, wrapped pixel flips, BCD digits, ranges of memory written.
  Module `Properties` proves the properties that need several steps.
* Module `Cpu` is the interpreter in the form the C code has. Class `Chip8`
  has array fields `mem`, `v`, `stack` and `disp`, and one method per handler
  and per entry point. Those methods update the arrays in place, with loops
  where the C code has loops: the register dump and reload, the two sprite
  loops of Dxyn. Each method is proved to change the state exactly as its
  function in `Semantics` says, measured on the abstract value `Abs()`.

Supporting modules:

* `Fields`: the opcode field helpers.
* `Decoder`: the `decode` dispatch, as a datatype `Instr`. `Decode`
  returns `None` for the words that reach `dummy_instr`. An encoder `Encode`
  makes it possible to prove a round trip in both directions.
* `Display`: pixel addressing and the sprite fold.
* `Bits`: the C bitwise operators on unsigned integers, bit by bit.

Faithfulness choices:

* Registers, I, pc, the timers and the key bitmap are bounded integers.
  Every C truncation to `uint8_t` or `uint16_t` is written out with `U8` or
  `U16`.
* A C `assert` that stops the program becomes a `Fault` in the `Outcome` of
  a step. These are the two stack asserts and `dummy_instr`. For
  `cpu_load_rom` and `cpu_set_key_state` the failed assert becomes `None`.
* Undefined behaviour becomes a precondition, collected in `Defined` and
  `CycleDefined`. This covers memory accesses past `mem[4095]` and a key
  shift `1 << Vx` with Vx >= 31.

Behaviours of the code that the model keeps as written:

* The stack holds at most 15 return addresses. CALL asserts `sp < 0xf` and
  RET asserts `0 < sp <= 0xf`, so slot 15 is never written.
* `cpu_reset` clears 0xf registers and 0xf stack slots. VF and `stack[15]`
  survive a reset.
* `cpu_init` clears 0xfff bytes of memory, so `mem[0xFFF]` is kept.
* Cxkk computes `rand() % 0xff`, so the random byte lies in 0..254, never 255.
* 8xyE shifts Vy, not Vx. 8xy6 shifts Vx.
* 8xy5 and 8xy7 set VF with `>=`: equal operands give VF = 1. The comment
  above each handler says `>`.
* In 8xy4..8xyE the result is written before the flag, so when x = F the
  flag is what VF ends up holding.
* The comment above `xor_pixel` says it returns true when the pixel was
  already lit. The code returns the masked byte after the flip, which is 0
  exactly when the pixel was lit before. Dxyn uses it that way.
* Ex9E and ExA1 build a `uint16_t` mask from `1 << Vx`. For
  16 <= Vx <= 30 the mask is 0: ExA1 skips and Ex9E does not.
* The key-wait latch reacts to every key-down event, including a key that
  is already held. Key-up events leave it set.
* Fx55 and Fx65 leave I unchanged.

## Model

| member | source | states |
|---|---|---|
| Fields.Nibs2Addr | cpu.c:38-45 | the word built from four nibbles has exactly those nibbles, leftmost first, and is below 0x1000 when the first is 0 |
| Fields.Bytes2Opcode | cpu.c:47-52 | the big-endian word of two bytes splits back into the high and the low byte |
| Fields.Nibs2Byte | cpu.c:55-60 | the byte's high nibble is nib0 and its low nibble nib1 |
| Fields.Opcode2NibIsShift | cpu.c:31-35 | the nibble table equals opcode2nib's formula: the word shifted right by 4 * (3 - n), masked with 0xF |
| Fields.OpcodeSplitJoin | cpu.c:31-45 | splitting a word with opcode2nib and rejoining with nibs2addr gives the word back |
| Decoder.Decode | cpu.c:502-596 | only words whose leading nibble is 5, 8, 9, E or F can reach dummy_instr; leading nibble 0 dispatches to SYS, CLS or RET |
| Decoder.DecodeNibs | cpu.c:502-596 | the nibble switch falls to dummy_instr only in the 5, 8, 9, E and F families, and family 0 gives SYS, CLS or RET |
| Decoder.DecodeEncode | cpu.c:502-596 | every instruction (other than the SYS words that are 00E0/00EE) decodes from its own opcode word |
| Decoder.EncodeDecode | cpu.c:502-596 | every word that decodes is exactly the encoding of the instruction it decodes to (the dispatch reads the fields it claims) |
| Decoder.NibblesDecode | cpu.c:502-596 | each case of the nibble switch produces an instruction with exactly the nibbles switched on |
| Display.GetPixel | cpu.c:658-670 | cpu_get_pixel returns 0 or the pixel's mask, and nonzero exactly when the wrapped pixel is lit |
| Display.XorPixel | cpu.c:316-333 | xor_pixel returns 0 exactly when the pixel was lit before the flip |
| Display.XorPixelFlipsOne | cpu.c:316-333 | xor_pixel flips the wrapped pixel (x, y) and no other pixel |
| Display.TargetByte | cpu.c:319-323 | the byte of the wrapped pixel always lies inside the 256-byte display |
| Display.PixelAddressInjective | cpu.c:319-326 | two grid pixels with the same byte and the same mask are the same pixel |
| Display.BitMaskIsShift | cpu.c:326 | the per-column mask table is `128 >> b`, as in xor_pixel and at cpu.c:353 |
| Display.DisplayFromPixels | cpu.h:18 | two 256-byte displays with the same 64 x 32 pixels are equal |
| Display.DrawRow | cpu.c:349-363 | the inner pixel loop as a fold; the display keeps its 256 bytes (what the fold does is stated by DrawRowPixels and DrawRowHits) |
| Display.DrawRows | cpu.c:346-364 | the outer row loop as a fold; the display keeps its 256 bytes (what it does is stated by DrawRowsPixels and DrawRowsHits) |
| Display.DrawRowPixels | cpu.c:349-363 | after the inner loop of Dxyn exactly the pixels of the row under set sprite bits are flipped |
| Display.DrawRowHits | cpu.c:349-363 | the inner loop reports a collision exactly when a set bit lands on a lit pixel |
| Display.DrawRowsPixels | cpu.c:346-364 | after the outer loop exactly the pixels covered by set sprite bits (wrapped) are flipped |
| Display.DrawRowsHits | cpu.c:346-364 | the outer loop reports a collision exactly when some set bit lands on a lit pixel |
| Display.DrawnPixelAt | cpu.c:346-364 | the pixel under bit p of row r ends flipped exactly when that bit is set |
| Display.HitsAfterDraw | cpu.c:346-364 | after one draw, the same sprite hits exactly where the first draw missed |
| Display.DrawTwiceRestores | cpu.c:316-366 | drawing a sprite twice at the same place gives the display back |
| Display.DrawTwice | cpu.c:316-366 | drawing twice restores the display, and the second draw collides exactly when a set bit fell on a dark pixel |
| Semantics.SkipIf | cpu.c:120-149 | the skips change only pc, by +2 (wrapping at 16 bits) exactly when the condition holds |
| Semantics.Cls | cpu.c:79-83 | 00E0 darkens every pixel and changes nothing else |
| Semantics.Ret | cpu.c:87-94 | 00EE faults exactly when not 0 < sp <= 15 and otherwise pops stack[sp-1] into pc |
| Semantics.Jump | cpu.c:98-103 | 1nnn sets pc to nnn and nothing else |
| Semantics.Call | cpu.c:107-116 | 2nnn faults exactly when sp >= 15; otherwise it stores pc in slot sp and only there, increments sp and jumps |
| Semantics.SeByte | cpu.c:120-127 | 3xkk skips exactly when Vx == kk |
| Semantics.SneByte | cpu.c:131-138 | 4xkk skips exactly when Vx != kk |
| Semantics.SeReg | cpu.c:143-149 | 5xy0 skips exactly when Vx == Vy, always when x = y |
| Semantics.SneReg | cpu.c:274-280 | 9xy0 skips exactly when Vx != Vy, never when x = y |
| Semantics.LdByte | cpu.c:153-159 | 6xkk sets Vx to kk, no other register |
| Semantics.AddByte | cpu.c:163-170 | 7xkk adds kk to Vx modulo 256 and leaves VF alone |
| Semantics.WriteWithCarry | cpu.c:62-66 | the flag is written last: VF = carry, and dest = val unless dest is VF |
| Semantics.LdReg | cpu.c:174-179 | 8xy0 copies Vy to Vx |
| Semantics.Logic8 | cpu.c:183-206 | each of the 8 result bits is the operator applied to the operands' bits |
| Semantics.Or | cpu.c:183-188 | 8xy1: each bit of Vx becomes the OR of the bits of Vx and Vy |
| Semantics.And | cpu.c:192-197 | 8xy2: each bit of Vx becomes the AND of the bits of Vx and Vy |
| Semantics.Xor | cpu.c:201-206 | 8xy3: each bit of Vx becomes the XOR of the bits of Vx and Vy |
| Semantics.AddReg | cpu.c:210-218 | 8xy4: VF = 1 exactly when Vx + Vy > 255, and (VF, Vx) is the 9-bit sum when x != F |
| Semantics.Sub | cpu.c:222-231 | 8xy5: VF = 1 exactly when Vx >= Vy; Vx is Vx - Vy with the borrow added back |
| Semantics.Shr | cpu.c:235-244 | 8xy6: VF is the low bit of Vx and 2 * Vx' + VF is the old Vx |
| Semantics.Subn | cpu.c:248-257 | 8xy7: VF = 1 exactly when Vy >= Vx; Vx is Vy - Vx with the borrow added back |
| Semantics.Shl | cpu.c:261-270 | 8xyE: VF = 1 exactly when Vy >= 0x80, and (VF, Vx) is 2 * Vy when x != F |
| Semantics.LdI | cpu.c:284-290 | Annn sets I to nnn and nothing else |
| Semantics.JpV0 | cpu.c:294-300 | Bnnn jumps to nnn + V0 with no wrap |
| Semantics.Rnd | cpu.c:304-310 | Cxkk: each bit of Vx is set exactly when it is set in both rand % 255 and kk; hence Vx is at most 254 and at most kk |
| Semantics.Sprite | cpu.c:348 | the sprite has n rows, row k being the byte at I + k, which lies inside memory |
| Semantics.Draw | cpu.c:337-366 | Dxyn changes only the display and VF; it demands the sprite bytes lie in memory only when n > 0, so Dxy0 is defined for every I |
| Semantics.DrawEffect | cpu.c:337-366 | Dxyn flips exactly the wrapped pixels the sprite at I covers, and VF = 1 exactly when a set bit lands on a lit pixel |
| Semantics.KeyBits | cpu.c:676-690 | a key-down sets and a key-up clears the bit of that key, leaving the other keys' bits |
| Semantics.KeyMask | cpu.c:374 | `(uint16_t)(1 << Vx)` has bit Vx and no other when Vx < 16, and no bit at all for 16 <= Vx <= 30 |
| Semantics.KeyHeld | cpu.c:370-392 | `(keys & (uint16_t)(1 << Vx)) != 0` holds exactly when Vx < 16 and key Vx is down |
| Semantics.Skp | cpu.c:370-379 | Ex9E skips exactly when Vx names a key that is down |
| Semantics.Sknp | cpu.c:383-392 | ExA1 skips exactly when Vx does not name a key that is down (including 16..30) |
| Semantics.LdVxDt | cpu.c:396-401 | Fx07 copies DT to Vx |
| Semantics.LdVxKey | cpu.c:405-411 | Fx0A sets the wait latch and the target register and nothing else |
| Semantics.LdDtVx | cpu.c:415-420 | Fx15 sets DT to Vx |
| Semantics.LdStVx | cpu.c:424-429 | Fx18 sets ST to Vx |
| Semantics.AddI | cpu.c:433-438 | Fx1E adds Vx to I modulo 2^16 and leaves VF alone |
| Semantics.LdFont | cpu.c:442-447 | Fx29 points I at 0x100 + 5 * Vx |
| Semantics.Bcd | cpu.c:451-458 | Fx33 writes three decimal digits at I..I+2 whose value is Vx, and no other byte |
| Semantics.DecimalDigits | cpu.c:455-457 | the three digits Fx33 writes are each below 10 and make up the byte |
| Semantics.StoreRegs | cpu.c:462-470 | Fx55 writes V0..Vx to mem[I..I+x] and no other byte |
| Semantics.LoadRegs | cpu.c:474-482 | Fx65 reads mem[I..I+x] into V0..Vx and leaves the other registers |
| Semantics.ExecuteFlow | cpu.c:70-116 | 0nnn does nothing; the flow instructions change at most pc, sp, the stack and the display; only CALL and RET fault, leaving the machine as it was |
| Semantics.ExecuteSkip | cpu.c:120-149 | a skip instruction changes only pc, by 0 or 2 |
| Semantics.ExecuteLoad | cpu.c:153-206 | the load and logic instructions change at most Vx |
| Semantics.ExecuteArith | cpu.c:210-270 | the arithmetic instructions change at most Vx and VF |
| Semantics.ExecuteIndex | cpu.c:284-447 | the I, timer and key-wait instructions leave memory, stack and display alone |
| Semantics.ExecuteMem | cpu.c:337-482 | Dxyn, Fx33, Fx55 and Fx65 change only memory, registers and display |
| Semantics.Execute | cpu.c:598-604 | only CALL (at sp >= 15) and RET (unless 0 < sp <= 15) fault, and a fault leaves the machine unchanged |
| Semantics.Fetch | cpu.c:492-499 | the opcode's high byte is mem[pc] and its low byte mem[pc+1]; pc advances by 2 |
| Semantics.Cycle | cpu.c:606-612 | a waiting machine is unchanged; otherwise the cycle stops with NotImplemented exactly when the fetched word has no handler |
| Semantics.Tick60Hz | cpu.c:614-618 | each timer goes down by 1 unless it is 0 |
| Semantics.Reset | cpu.c:620-634 | the font is at 0x100, V0..VE and stack[0..14] are zeroed while VF and stack[15] are kept, the display is dark, pc = 0x200, and other memory is kept |
| Semantics.Init | cpu.c:636-641 | every byte below 0xFFF outside the font is 0 and mem[0xFFF] is kept; the font is at 0x100; every other field is what cpu_reset gives (V0..VE and stack[0..14] zero, pc = 0x200, display dark, timers, I, sp and keys 0) |
| Semantics.LoadRom | cpu.c:643-656 | fails exactly when the ROM is longer than 0xDFF bytes; otherwise the ROM sits at 0x200 and nothing else changes |
| Semantics.SetKeyState | cpu.c:672-692 | fails exactly when key > 0xF; sets or clears only the key's bit; a press while waiting stores the key in the latched register and ends the wait |
| Properties.CycleRunsInstrAtPc | cpu.c:492-612 | a cycle on an encoded instruction at pc fetches its word, decodes it back, and executes it with pc + 2 |
| Properties.FirstFetchIsRomStart | cpu.c:620-656 | after load and reset, the first fetch reads the ROM's first two bytes |
| Properties.CallThenReturn | cpu.c:87-116 | CALL then RET in the callee returns to the instruction after the CALL with sp restored, leaving only the return address in the stack |
| Properties.CallAtDepth15Stops | cpu.c:107-116 | a CALL with 15 addresses on the stack stops the program |
| Properties.ExecuteKeepsStackBound | cpu.c:87-116 | no instruction takes sp above 15 or writes stack slot 15 |
| Properties.DrawNoRows | cpu.c:337-366 | Dxy0 only clears VF, whatever I holds |
| Properties.DrawTwiceRestores | cpu.c:337-366 | Dxyn twice restores the display, and the second VF is 1 exactly when a set bit fell on a pixel dark before the first |
| Properties.RedrawOnBlankCollides | cpu.c:337-366 | on a blank display the first draw of a non-empty sprite does not collide and the second does |
| Properties.WaitingStalls | cpu.c:606-612 | while a key is awaited, a cycle changes nothing |
| Properties.KeyWaitReleasedByPress | cpu.c:405-411 | Fx0A then a key-down stores the key in Vx, marks it down, ends the wait, and leaves other registers |
| Properties.PressHeldKey | cpu.c:676-678 | pressing a key that is already down leaves the bitmap unchanged |
| Properties.KeyReleaseKeepsWaiting | cpu.c:687-690 | a key-up event leaves the wait latched and the key up |
| Properties.TicksFloorAtZero | cpu.c:614-618 | after k ticks each timer is max(t - k, 0) and nothing else changed |
| Properties.ResetIdempotent | cpu.c:620-634 | resetting twice is resetting once |
| Properties.FontAfterInit | cpu.c:442-447 | after init, Fx29 points I at the five glyph bytes of the digit in Vx |
| Properties.StoreThenLoad | cpu.c:462-482 | Fx55 then Fx65 with the same x and I gives back the registers |
| Properties.LoadThenStore | cpu.c:462-482 | Fx65 then Fx55 with the same x and I leaves memory as it was |
| Cpu.Chip8.constructor | cpu.h:7-21 | a new object is the zero-initialised `struct chip8` |
| Cpu.Chip8.Cls | cpu.c:79-83 | the in-place memset gives the state of Semantics.Cls |
| Cpu.Chip8.Ret | cpu.c:87-94 | the new state and the fault are those of Semantics.Ret |
| Cpu.Chip8.Jump | cpu.c:98-103 | the new state is that of Semantics.Jump |
| Cpu.Chip8.Call | cpu.c:107-116 | the new state and the fault are those of Semantics.Call |
| Cpu.Chip8.SkipIf | cpu.c:120-149 | the conditional `pc += 2` in place gives the state of Semantics.SkipIf |
| Cpu.Chip8.SeByte | cpu.c:120-127 | the new state is that of Semantics.SeByte |
| Cpu.Chip8.SneByte | cpu.c:131-138 | the new state is that of Semantics.SneByte |
| Cpu.Chip8.SeReg | cpu.c:143-149 | the new state is that of Semantics.SeReg |
| Cpu.Chip8.SneReg | cpu.c:274-280 | the new state is that of Semantics.SneReg |
| Cpu.Chip8.LdByte | cpu.c:153-159 | the new state is that of Semantics.LdByte |
| Cpu.Chip8.AddByte | cpu.c:163-170 | the new state is that of Semantics.AddByte |
| Cpu.Chip8.WriteWithCarry | cpu.c:62-66 | the new state is that of Semantics.WriteWithCarry |
| Cpu.Chip8.LdReg | cpu.c:174-179 | the new state is that of Semantics.LdReg |
| Cpu.Chip8.Or | cpu.c:183-188 | the new state is that of Semantics.Or |
| Cpu.Chip8.And | cpu.c:192-197 | the new state is that of Semantics.And |
| Cpu.Chip8.Xor | cpu.c:201-206 | the new state is that of Semantics.Xor |
| Cpu.Chip8.AddReg | cpu.c:210-218 | the new state is that of Semantics.AddReg |
| Cpu.Chip8.Sub | cpu.c:222-231 | the new state is that of Semantics.Sub |
| Cpu.Chip8.Shr | cpu.c:235-244 | the new state is that of Semantics.Shr |
| Cpu.Chip8.Subn | cpu.c:248-257 | the new state is that of Semantics.Subn |
| Cpu.Chip8.Shl | cpu.c:261-270 | the new state is that of Semantics.Shl |
| Cpu.Chip8.LdI | cpu.c:284-290 | the new state is that of Semantics.LdI |
| Cpu.Chip8.JpV0 | cpu.c:294-300 | the new state is that of Semantics.JpV0 |
| Cpu.Chip8.Rnd | cpu.c:304-310 | the new state is that of Semantics.Rnd for the value rand() returned |
| Cpu.Chip8.XorPixel | cpu.c:316-333 | the in-place flip and the returned byte are those of Display.XorPixel |
| Cpu.Chip8.DrawSpriteRow | cpu.c:349-363 | the inner pixel loop leaves the display and collision of the fold Display.DrawRow |
| Cpu.Chip8.DrawSprite | cpu.c:346-364 | the outer row loop leaves the display and collision of the fold Display.DrawRows |
| Cpu.Chip8.Draw | cpu.c:337-366 | the new state is that of Semantics.Draw |
| Cpu.Chip8.Skp | cpu.c:370-379 | the new state is that of Semantics.Skp |
| Cpu.Chip8.Sknp | cpu.c:383-392 | the new state is that of Semantics.Sknp |
| Cpu.Chip8.LdVxDt | cpu.c:396-401 | the new state is that of Semantics.LdVxDt |
| Cpu.Chip8.LdVxKey | cpu.c:405-411 | the new state is that of Semantics.LdVxKey |
| Cpu.Chip8.LdDtVx | cpu.c:415-420 | the new state is that of Semantics.LdDtVx |
| Cpu.Chip8.LdStVx | cpu.c:424-429 | the new state is that of Semantics.LdStVx |
| Cpu.Chip8.AddI | cpu.c:433-438 | the new state is that of Semantics.AddI |
| Cpu.Chip8.LdFont | cpu.c:442-447 | the new state is that of Semantics.LdFont |
| Cpu.Chip8.Bcd | cpu.c:451-458 | the new state is that of Semantics.Bcd |
| Cpu.Chip8.StoreRegs | cpu.c:462-470 | the register-dump loop gives the state of Semantics.StoreRegs |
| Cpu.Chip8.LoadRegs | cpu.c:474-482 | the register-reload loop gives the state of Semantics.LoadRegs |
| Cpu.Chip8.ExecuteFlow | cpu.c:70-116 | running 0nnn .. 2nnn and Bnnn in place gives the state and fault of Semantics.ExecuteFlow |
| Cpu.Chip8.ExecuteSkip | cpu.c:120-149 | running a skip in place gives the state of Semantics.ExecuteSkip |
| Cpu.Chip8.ExecuteLoad | cpu.c:153-310 | running a load, logic or random instruction in place gives the state of Semantics.ExecuteLoad |
| Cpu.Chip8.ExecuteArith | cpu.c:210-270 | running 8xy4 .. 8xyE in place gives the state of Semantics.ExecuteArith |
| Cpu.Chip8.ExecuteIndex | cpu.c:284-447 | running an I, timer or key-wait instruction in place gives the state of Semantics.ExecuteIndex |
| Cpu.Chip8.ExecuteMem | cpu.c:337-482 | running Dxyn, Fx33, Fx55 or Fx65 in place gives the state of Semantics.ExecuteMem |
| Cpu.Chip8.Execute | cpu.c:598-604 | the new state and fault are those of Semantics.Execute |
| Cpu.Chip8.Cycle | cpu.c:606-612 | the new state and fault are those of Semantics.Cycle |
| Cpu.Chip8.Tick60Hz | cpu.c:614-618 | the new state is that of Semantics.Tick60Hz |
| Cpu.Chip8.CopyFont | cpu.c:625 | the memcpy puts the 80 font bytes at 0x100 and leaves the rest of memory |
| Cpu.Chip8.Reset | cpu.c:620-634 | the memsets and the font memcpy give the state of Semantics.Reset |
| Cpu.Chip8.Init | cpu.c:636-641 | the new state is that of Semantics.Init |
| Cpu.Chip8.LoadRom | cpu.c:643-656 | succeeds exactly when Semantics.LoadRom does, with its state; a failure changes nothing |
| Cpu.Chip8.GetPixel | cpu.c:658-670 | the result is Display.GetPixel of the display |
| Cpu.Chip8.SetKeyState | cpu.c:672-692 | succeeds exactly when Semantics.SetKeyState does, with its state; a failure changes nothing |

## Left out

- `media.c`, `media.h` and `chippy.c` (SDL window, audio, event loop, main) are not part of this model.
- The file handling of `cpu_load_rom` (fopen, fseek, ftell, the fread loop, fclose) is left out. `LoadRom` takes the ROM bytes as a sequence, and the size assert is its failure case.
- `rand()` and `srand(1234)`: the random number is a parameter `rand` of `Rnd`, `Execute` and `Cycle`. Seeding is not modelled.
- `printf` traces, `cpu_dump_state` and the "not implemented" message of `dummy_instr` are left out. An exit from `dummy_instr` or a failed assert is a `Fault`.
- Cpu.Chip8.GetPixel: negative coordinates are not modelled. C's `%` keeps the sign and the byte index would be negative, which reads outside `disp`.
- Semantics.Defined: memory accesses past `mem[4095]` are undefined behaviour in C, and so are Ex9E/ExA1 with Vx >= 31. They are preconditions, not modelled behaviour. This covers Dxyn with n > 0, Fx33, Fx55 and Fx65 when I is too large. Dxy0 reads no memory, so it is defined for every I.
- Semantics.CycleDefined: a fetch with pc >= 0xFFF reads past memory. That is undefined behaviour in C, so it is a precondition.
- `wait_key` is a `bool` (C only ever stores 0 or 1), and `key_vx` is a register index (C only stores a nibble there).
- Cpu.Chip8.Draw: sets VF once after the sprite loops, not inside the inner loop. The result is the same because nothing in the loops reads VF. The function `Semantics.Draw` it is proved against clears VF first, as the C code does.
- Concurrency between the cycle, the 60 Hz tick and key events is not modelled. Each entry point is a separate atomic step.

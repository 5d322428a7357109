# CHIP-8 interpreter core, modelled in Dafny

This project models the core of a small CHIP-8 interpreter written in Rust.
The repository contains two interpreters, and both are modelled.

- **The structured engine** (`src/instruction.rs`, `src/state.rs`, `src/cartridge.rs`).
  - An opcode is first decoded into an `Instruction` value (`from_opcode`).
  - `Chip8State::run_instruction` then executes that value against a program counter, an index register `I`, a call stack and a `Register` bank.
  - The bank holds V0–VF, the keyboard latch, and the delay and sound timers.
  - The machine also owns a 64×32 `TermDisplay` and a 0xF00-byte `Cartridge`.
- **The legacy engine** (`src/main.rs`).
  - One `Chip8State` struct holds everything.
  - `run_address` fetches and executes an opcode directly from a memory array.
  - It records clear and sprite requests in a `drawop` word.
  - `draw` carries out those requests later.

The model assumes Rust's debug profile, so every `u8`/`u16` overflow is a panic. A failed `unwrap` and an out-of-bounds index panic in any profile. The model treats each panic as a failed step:

- `None` in the specification functions;
- `ok == false` in the methods.

The machine state after a panic is left unspecified.

Words are integers constrained to their width (`Byte`, `Word`).

- Masks and shifts with contiguous masks are written as division and remainder.
- AND, OR and XOR are computed bit by bit (`Words.Bitwise`).

Layout:

- **Pure parts:**
  - `words.dfy`: bit-level arithmetic;
  - `instruction.dfy`: the decoder;
  - `sprite.dfy`: XOR sprite drawing;
  - `machine.dfy`: `run_instruction` as a function `Exec` on a `Machine` value;
  - `legacy.dfy`, first half: `run_address` and `draw` as functions `Step` and `DrawPending` on an `LState` value.
- **Imperative parts:** these are classes whose methods update fields and arrays in place.
  - `cartridge.dfy`;
  - `register.dfy`;
  - `display.dfy`;
  - `chip8.dfy`;
  - the `Legacy.Chip8State` class at the end of `legacy.dfy`.

  Each class method is proved against the corresponding function. Its contract is `ok <==> Spec(old(state)).Some?` and `ok ==> state == Spec(old(state)).value`.

## Model

| member | source | states |
|---|---|---|
| Words.Bitwise | src/state.rs:181-183 | the bitwise combination of two numbers on `width` bits is below 2^width |
| Words.BitwiseBit | src/state.rs:181-183 | bit k of the combination is the operator applied to bit k of each operand (proved by induction on k) |
| Words.BitwiseBits8 | src/state.rs:181-183 | on 8 bits the combination is a byte, and every one of its 8 bits is the operator applied to the operands' bits |
| Words.And8 | src/state.rs:182 | bitwise AND on bytes: each result bit is set iff it is set in both operands |
| Words.Or8 | src/state.rs:181 | bitwise OR on bytes: each result bit is set iff it is set in either operand |
| Words.Xor8 | src/state.rs:183 | bitwise XOR on bytes: each result bit is set iff the operands' bits differ |
| Words.WrappingAdd8 | src/state.rs:105-108 | `wrapping_add` on `u8`: the plain sum below 256, the sum minus 256 otherwise |
| Words.FromBeBytes | src/cartridge.rs:44 | `u16::from_be_bytes`: the high byte is the quotient by 256 and the low byte the remainder |
| Instructions.Family | src/instruction.rs:129 | the top nibble `opcode & 0xf000` is below 16 |
| Instructions.GetX | src/instruction.rs:60-62 | `get_0x00` always names one of V0..VF |
| Instructions.GetY | src/instruction.rs:64-66 | `get_00y0` always names one of V0..VF |
| Instructions.GetN | src/instruction.rs:68-70 | `get_000n` is at most 0xF |
| Instructions.GetNN | src/instruction.rs:72-74 | `get_00nn` is the third nibble times 16 plus `get_000n` |
| Instructions.GetNNN | src/instruction.rs:76-78 | `get_0nnn` is at most 0xFFF |
| Instructions.FieldsRoundTrip | src/instruction.rs:60-78 | the four nibbles recompose to the opcode, and NN and NNN are made of the lower nibbles |
| Instructions.ComposeFields | src/instruction.rs:60-78 | the field extractors recover every nibble of an opcode built from four nibbles |
| Instructions.Decode | src/instruction.rs:125-171 | `from_opcode`: every decoded instruction names only registers V0..VF, a decoded sprite height is below 16, and every error carries the opcode. The lemmas DecodeFamilyZero, DecodeAddressFamilies, DecodeImmediateFamilies, DecodeRegisterFamilies, DecodeMissingFamilies, DecodeKeyboardFamily and DecodeSpecialFamily give its value for every opcode family |
| Instructions.DecodeFamilyZero | src/instruction.rs:126-130 | 0x00E0 decodes to ClearDraw, 0x00EE to ReturnFromSubroutine, and every other 0NNN to RCARoutine(NNN) |
| Instructions.DecodeAddressFamilies | src/instruction.rs:131-132 | 1NNN, 2NNN and ANNN decode to goto, call and `I := NNN` with the 12-bit address (ANNN is line 149) |
| Instructions.DecodeImmediateFamilies | src/instruction.rs:133-136 | 3XNN and 4XNN decode to the two skips against NN; 6XNN, 7XNN and CXNN decode to Set, IncrementNoCarry and Randomize on VX (CXNN is line 150) |
| Instructions.DecodeFamilyFields | src/instruction.rs:125-129 | an opcode with a non-zero family is neither 0x00E0 nor 0x00EE, and its fields are its nibbles |
| Instructions.DecodeRegisterFamilies | src/instruction.rs:137-151 | 8XYN decodes to the operation for N = 0..7 and is an error for N ≥ 8; 9XY? decodes to SkipNextIfVarsNeq(VX, VY); DXYN decodes to DrawSpriteXYH(VX, VY, N) |
| Instructions.DecodeMissingFamilies | src/instruction.rs:168 | opcodes of families 5 and B are errors |
| Instructions.DecodeKeyboardFamily | src/instruction.rs:152-156 | EX9E and EXA1 decode to the keyboard skips; any other EXNN is an error |
| Instructions.DecodeSpecialFamily | src/instruction.rs:157-167 | each of FX07, FX15, FX18, FX1E, FX29, FX33, FX55 and FX65 decodes to its instruction; FF1E is an error because VF is not allowed; any other FXNN is an error |
| Cartridges.LoadImage | src/cartridge.rs:13-21 | the memory image holds the program bytes at 0x200.., and elsewhere the font bytes from address 0 or zero |
| Cartridges.Cartridge.constructor | src/cartridge.rs:13-21 | memory is the loaded image, and `fin` is 0x200 plus the program length |
| Cartridges.Cartridge.Start | src/cartridge.rs:23-25 | the start address is 0x200 and never exceeds `len()` |
| Cartridges.Cartridge.Len | src/cartridge.rs:27-29 | `len()` lies between 0x200 and the memory size |
| Cartridges.Cartridge.SetMemory | src/cartridge.rs:31-33 | writes exactly one byte, and fails (the index panic) iff the address is outside memory |
| Cartridges.Cartridge.GetMemory | src/cartridge.rs:35-37 | returns the byte at the address, and fails iff the address is outside memory |
| Cartridges.Cartridge.GetOpcodeFrom | src/cartridge.rs:39-46 | end-of-file iff the address is past `fin`; out-of-bounds iff the second byte is outside memory; otherwise the opcode's high and low bytes are the two memory bytes |
| Registers.Read | src/state.rs:75-82 | `Register::get` on the bank value (no contract of its own); its laws are stated through `Write` (get-after-set), `ZeroBank` and the bank operations below |
| Registers.Write | src/state.rs:96-103 | writing a handle changes that register and no other |
| Registers.ZeroBank | src/state.rs:71-73 | every register of a new bank reads 0 |
| Registers.Ticked | src/state.rs:84-86 | the delay timer drops by one if positive and stays at zero otherwise; nothing else changes |
| Registers.AddedNoCarry | src/state.rs:105-108 | the target becomes the sum modulo 256; nothing else changes |
| Registers.CopiedVar | src/state.rs:110-112 | the target takes the source's value; nothing else changes |
| Registers.FlipDecremented | src/state.rs:114-118 | fails iff vs > vi (the `u8` underflow); otherwise vs becomes vi − vs and nothing else changes |
| Registers.BorrowDecremented | src/state.rs:120-125 | fails iff vs < vi (the `u16` underflow); otherwise vs becomes vs − vi, VF becomes 0 and nothing else changes |
| Registers.ShiftedRight | src/state.rs:127-131 | vs is halved, VF takes the old low bit (unless vs is VF), and nothing else changes |
| Registers.Combined | src/state.rs:181-183 | each bit of the target is OR/AND/XOR of the operands' bits; nothing else changes |
| Registers.Register.Model | src/state.rs:63-68 | the abstract bank of a valid register holds sixteen bytes |
| Registers.Register.constructor | src/state.rs:71-73 | a new bank is all zeros |
| Registers.Register.Get | src/state.rs:75-82 | `get` returns the modelled value of the handle |
| Registers.Register.Tick | src/state.rs:84-86 | the new bank is `Ticked` of the old one |
| Registers.Register.VarsAreEqual | src/state.rs:88-90 | true iff the two handles hold equal values |
| Registers.Register.VarEqualsVal | src/state.rs:92-94 | true iff the handle holds the value |
| Registers.Register.Set | src/state.rs:96-103 | the new bank is `Write` of the old one |
| Registers.Register.IncNoCarry | src/state.rs:105-108 | the new bank is `AddedNoCarry` of the old one |
| Registers.Register.SetToVar | src/state.rs:110-112 | the new bank is `CopiedVar` of the old one |
| Registers.Register.DecrementAndFlip | src/state.rs:114-118 | succeeds exactly when `FlipDecremented` does, and then yields its bank |
| Registers.Register.DecrementWithBorrow | src/state.rs:120-125 | succeeds exactly when `BorrowDecremented` does, and then yields its bank |
| Registers.Register.BitshiftAndStore | src/state.rs:127-131 | the new bank is `ShiftedRight` of the old one |
| Display.GetIdx | src/state.rs:27-32 | the index lies on the screen: its column is x mod 64 and its row y mod 32 |
| Display.SameCell | src/state.rs:27-32 | two coordinates share a cell iff they agree modulo 64 and modulo 32 |
| Display.PixelAfterSet | src/state.rs:34-46 | after `set_pixel`, `get_pixel` reads the new value at every wrapped alias of the point and the old value everywhere else |
| Display.Blank | src/state.rs:19-25 | the blank screen has 2048 pixels, all off |
| Display.TermDisplay.constructor | src/state.rs:19-21 | a new display is blank |
| Display.TermDisplay.Clear | src/state.rs:23-25 | after `clear` the display is blank |
| Display.TermDisplay.GetPixel | src/state.rs:34-37 | reads the cell at `get_idx(x, y)`. The contract exposes the read on the sequence view, where PixelAfterSet states get-after-set and SameCell the wrapping |
| Display.TermDisplay.SetPixel | src/state.rs:43-46 | writes exactly the cell at `get_idx(x, y)` |
| Sprites.DrawBits | src/state.rs:236-248 | the inner `for q in 0..8` loop. Its own contract only keeps a 2048-pixel screen; DrawBitsXor states what it computes (the row's cells XORed, the collision flag) |
| Sprites.DrawRows | src/state.rs:232-249 | the outer `for p in 0..h` loop. Its own contract only keeps a 2048-pixel screen; DrawRowsSome states when it fails and DrawRowsXor what it computes |
| Sprites.DrawSprite | src/state.rs:227-251 | the whole DXYN draw. Its own contract only keeps a 2048-pixel screen; DrawSpriteSome states when it fails and DrawSpriteXor what it computes |
| Sprites.Cell | src/state.rs:234-243 | the cell hit by bit q of row p lies on the screen |
| Sprites.SpriteCell | src/state.rs:228-243 | the same, for a sprite at (VX, VY) |
| Sprites.BitCellsStep | src/state.rs:236-247 | a row's set of flipped cells is the cell of bit q, if that bit is set, plus the cells of the later bits |
| Sprites.ToggleOne | src/state.rs:241-246 | flipping one more cell extends the set of toggled cells, and the collision flag records whether that cell was lit |
| Sprites.BitCellsAfter | src/state.rs:236-237 | within one row the cell of bit q is not the cell of any later bit |
| Sprites.DrawBitsXor | src/state.rs:236-248 | drawing a row XORs exactly that row's cells, and the flag is set iff a lit cell among them was turned off (induction) |
| Sprites.RowCells | src/state.rs:232-249 | the cells a sprite flips lie on the screen |
| Sprites.RowCellsStep | src/state.rs:232-234 | a sprite's cells are its first row's cells plus the cells of the remaining rows |
| Sprites.ModDistinct | src/state.rs:28-29 | distinct rows or columns closer than the screen size wrap to distinct cells |
| Sprites.CellInjective | src/state.rs:27-32 | for a sprite of at most 32 rows, different (row, bit) pairs land on different cells |
| Sprites.RowCellsDisjoint | src/state.rs:232-249 | the cells of different rows do not overlap (so no cell is flipped twice) |
| Sprites.DrawRowsSome | src/state.rs:232-234 | drawing rows fails iff a row number overflows a byte or a row byte lies outside memory |
| Sprites.DrawRowsStep | src/state.rs:232-249 | drawing rows p.. is drawing row p and then rows p+1.. |
| Sprites.AnyLitUnion | src/state.rs:244-246 | "some cell was lit" over a union is the disjunction over its parts |
| Sprites.AnyLitAgree | src/state.rs:244-246 | screens that agree on a set of cells agree on whether one of them is lit |
| Sprites.ToggleTwice | src/state.rs:232-249 | toggling two disjoint sets in turn toggles their union, and toggling the first set does not change what is lit in the second |
| Sprites.DrawRowsXorStep | src/state.rs:232-249 | one induction step: a first row plus the rest gives the XOR of the whole sprite's cells and the combined flag |
| Sprites.DrawRowsXor | src/state.rs:232-249 | drawing rows XORs exactly the sprite's cells, and the flag is set iff a lit cell among them was turned off (induction) |
| Sprites.SpriteCells | src/state.rs:227-251 | the cells of a DXYN sprite lie on the screen |
| Sprites.DrawSpriteSome | src/state.rs:228-234 | DXYN fails iff VX + 7 overflows, a row number overflows, or a sprite byte lies outside memory |
| Sprites.SpriteCellsAt | src/state.rs:232-241 | the cell of row p, bit q belongs to the sprite iff that bit of the row byte is set |
| Sprites.DrawSpriteXor | src/state.rs:227-250 | each sprite cell becomes old XOR bit; every other cell is unchanged; the flag is set iff some set bit hit a lit cell |
| Machines.OnValue | src/state.rs:167-175 | only Set, IncrementNoCarry and Randomize succeed; they set VX to NN, to VX + NN mod 256, or to rnd AND NN; nothing else changes |
| Machines.OnVariable | src/state.rs:176-186 | IncrementWithCarry, Randomize and SpriteMultiply fail; DecrementAndFlip and DecrementWithBorrow fail on underflow; Set copies and IncrementNoCarry adds mod 256 |
| Machines.OnI | src/state.rs:190-195 | I := V, I += V (fails on `u16` overflow) and I := 5·V; any other operation fails; only I changes |
| Machines.DecimalDigits | src/state.rs:197-202 | the three digits computed are at most 2, 9 and 9 and recompose to the value |
| Machines.StoreDecimal | src/state.rs:196-204 | fails iff I+2 is outside memory; otherwise memory at I, I+1, I+2 holds the decimal digits of V and nothing else changes |
| Machines.CopiedOut | src/state.rs:208-210 | memory at `at..at+count` holds the registers; the rest of memory is unchanged |
| Machines.CopiedIn | src/state.rs:218-220 | registers `0..count` hold the memory bytes; the other registers are unchanged |
| Machines.Dump | src/state.rs:205-214 | fails iff the handle is not a V register or I+X is outside memory; otherwise memory I..I+X holds V0..VX and nothing else changes |
| Machines.Load | src/state.rs:215-224 | fails iff the handle is not a V register or I+X is outside memory; otherwise V0..VX hold memory I..I+X and nothing else changes |
| Machines.Draw | src/state.rs:227-251 | fails iff the sprite is out of range; otherwise only the screen and VF change, and VF is 0 or 1 |
| Machines.DrawUnfold | src/state.rs:227-251 | DXYN is the sprite draw followed by writing the collision flag into VF |
| Machines.Exec | src/state.rs:153-253 | `run_instruction`: a successful step leaves a well-formed machine, and the initial `pc += 2` fails on `u16` overflow. ExecPanics, ExecFrame, ExecSkip, ExecSequential, CallThenReturn, DumpThenLoad, LoadThenDump and ExecDraw characterise it |
| Machines.ExecPanics | src/state.rs:153-253 | `run_instruction` fails exactly in the cases of an independent enumeration of its panics (`Panics`) |
| Machines.CallThenReturn | src/state.rs:159-160 | a call pushes the return address and jumps; the following return comes back to the instruction after the call with the stack restored |
| Machines.ExecSkip | src/state.rs:162-165 | a skip advances pc by 4 when its comparison holds and by 2 otherwise, failing on `u16` overflow |
| Machines.ExecSequential | src/state.rs:154-253 | every instruction other than jumps, calls, returns and skips advances pc by exactly 2 and leaves the stack unchanged |
| Machines.ExecFrame | src/state.rs:153-253 | only FX33/FX55 change memory, only 00E0/DXYN change the screen, only ANNN/FX1E/FX29 change I, and 00E0 blanks the screen |
| Machines.DumpThenLoad | src/state.rs:205-224 | FX55 followed by FX65 restores the registers, so the load changes only pc |
| Machines.LoadThenDump | src/state.rs:205-224 | FX65 followed by FX55 writes back the same bytes, so the dump changes only pc |
| Machines.ExecCopy | src/state.rs:205-224 | FX55 and FX65 are the block copies `CopiedOut` and `CopiedIn` after the pc increment |
| Machines.CopiedInOfCopiedOut | src/state.rs:205-224 | reading back registers just copied out returns the same registers |
| Machines.CopiedOutOfCopiedIn | src/state.rs:205-224 | copying out registers just copied in leaves memory as it was |
| Machines.ExecDraw | src/state.rs:227-251 | after DXYN each sprite cell is old XOR bit, other cells are unchanged, and VF = 1 iff some set bit hit a lit cell (VF = 0 otherwise) |
| Chip8.Chip8State.Abs | src/state.rs:135-143 | the abstract machine of a valid state is well formed |
| Chip8.Chip8State.constructor | src/state.rs:147-151 | a new machine has pc 0x200, I 0, an empty stack, a zero bank, a blank screen and the cartridge's memory |
| Chip8.Chip8State.SkipNext | src/state.rs:162-165 | the conditional `pc += 2` of a skip agrees with `Exec` |
| Chip8.Chip8State.RunOnValue | src/state.rs:167-175 | the register update agrees with `OnValue`, including its failures |
| Chip8.Chip8State.RunOnVariable | src/state.rs:176-186 | the register update agrees with `OnVariable`, including its failures |
| Chip8.Chip8State.RunBitwise | src/state.rs:181-183 | the bank becomes `Combined` of the old bank |
| Chip8.Chip8State.RunOnI | src/state.rs:189-195 | the update of I agrees with `OnI` |
| Chip8.Chip8State.StoreDecimalDigits | src/state.rs:196-204 | the three memory writes agree with `StoreDecimal` |
| Chip8.Chip8State.DumpVariables | src/state.rs:205-214 | the `for` loop of stores agrees with `Dump` |
| Chip8.Chip8State.LoadVariables | src/state.rs:215-224 | the `for` loop of loads agrees with `Load` |
| Chip8.Chip8State.DrawRow | src/state.rs:236-248 | the inner loop over 8 bits computes `DrawBits` on the display array |
| Chip8.Chip8State.DrawSpriteXY | src/state.rs:227-251 | the DXYN arm agrees with `Draw` |
| Chip8.Chip8State.DrawSpriteRows | src/state.rs:231-249 | the outer loop over rows computes `DrawRows` on the display array and cartridge memory |
| Chip8.Chip8State.RunInstruction | src/state.rs:153-253 | `run_instruction` succeeds exactly when `Exec` does, and then leaves the machine `Exec` describes |
| Chip8.Chip8State.RunFlow | src/state.rs:154-165 | the RCA, goto, call, return and skip arms agree with `Exec` |
| Chip8.Chip8State.RunEffect | src/state.rs:167-251 | the register, index, memory and display arms agree with `Exec` |
| Legacy.GetOpcode | src/main.rs:28-30 | the first byte is the high byte and the second the low byte |
| Legacy.Get0x00 | src/main.rs:32-34 | the second nibble, below 16 |
| Legacy.Get00y0 | src/main.rs:36-38 | the third nibble, below 16 |
| Legacy.Get00nn | src/main.rs:40-42 | the low byte |
| Legacy.ExtractorsAgree | src/main.rs:32-42 | the legacy extractors return the same fields as the decoder's `get_0x00`, `get_00y0` and `get_00nn` |
| Legacy.Initial | src/main.rs:46-50 | `init`: pc 0x200, and I, registers, timer, keyboard, drawop, stack and display all zero, empty or off |
| Legacy.PixelIndex | src/main.rs:56 | an on-screen point's index has column x and row y |
| Legacy.PixelAt | src/main.rs:52-59 | `get_pixel` is false off screen |
| Legacy.PixelSet | src/main.rs:61-67 | `set_pixel` panics iff the point is off screen |
| Legacy.SetThenGet | src/main.rs:52-67 | after `set_pixel`, `get_pixel` reads the new value at that point and the old value at every other point (no wrap-around) |
| Legacy.Cell | src/main.rs:88-94 | an on-screen sprite bit's cell is a display index |
| Legacy.FlipBits | src/main.rs:90-107 | the inner `while q < 8` loop. Its own contract only keeps a 2048-pixel display; FlipBitsSome states when it fails and FlipBitsXor what it computes |
| Legacy.FlipRows | src/main.rs:85-109 | the outer `while p < h` loop. Its own contract only keeps a 2048-pixel display; FlipRowsSome states when it fails, and FlipRowsXor, FlipRowsCells and FlipRowsFlag what it computes |
| Legacy.SpriteFitsNext | src/main.rs:85-109 | a sprite that fits from row p has row p fitting and fits from row p+1 |
| Legacy.FlipBitsSome | src/main.rs:90-104 | drawing a row fails (the `set_pixel` panic) iff one of its set bits lands off screen |
| Legacy.FlipRowsStep | src/main.rs:85-109 | drawing rows p.. is drawing row p and then rows p+1.. |
| Legacy.FlipRowsSome | src/main.rs:85-109 | drawing rows fails iff a row byte lies outside memory, a row number overflows, or a set bit lands off screen |
| Legacy.BitCellsStep | src/main.rs:90-107 | a row's flipped cells are the cell of bit q, if that bit is set, plus the cells of the later bits |
| Legacy.BitCellsAfter | src/main.rs:91 | within one row the cell of bit q is not the cell of any later bit |
| Legacy.FlipBitsStep | src/main.rs:97-104 | a set bit flips its cell and records whether the cell was lit |
| Legacy.FlipBitsXor | src/main.rs:90-107 | a row that fits XORs exactly its cells, and the flag is set iff a lit cell among them was turned off (induction) |
| Legacy.RowCellsStep | src/main.rs:85-109 | a sprite's cells are its first row's cells plus the cells of the remaining rows |
| Legacy.RowCellsDisjoint | src/main.rs:85-109 | different rows land on different cells (no wrap-around) |
| Legacy.FlipRowsCombine | src/main.rs:85-109 | one induction step: a first row plus the rest gives the XOR of the sprite's cells and the combined flag |
| Legacy.FlipRowsXor | src/main.rs:85-109 | a sprite that fits XORs exactly its cells, and the flag is set iff a lit cell among them was turned off (induction) |
| Legacy.FlipRowsXorRest | src/main.rs:85-109 | the step case of `FlipRowsXor` after the first row |
| Legacy.RowCellsAt | src/main.rs:86-93 | the cell of row p, bit q belongs to the sprite iff that bit of the row byte is set |
| Legacy.DrawPending | src/main.rs:69-115 | a successful `draw` resets drawop to 0, changes only the display and VF, and keeps V0..VE |
| Legacy.DrawSome | src/main.rs:72-112 | `draw` succeeds iff drawop is a clear request, or a sprite request whose VX + 7 fits a byte and whose sprite fits |
| Legacy.DrawClear | src/main.rs:73-77 | a clear request blanks the display and keeps the registers |
| Legacy.FlipRowsCells | src/main.rs:85-109 | each sprite cell becomes old XOR bit, and every other cell is unchanged |
| Legacy.FlipRowsFlag | src/main.rs:84-110 | the flag is set iff some set bit hit a lit cell |
| Legacy.DrawSpriteXor | src/main.rs:78-111 | a sprite request XORs exactly the sprite's cells, and VF is 1 iff some set bit hit a lit cell and 0 otherwise |
| Legacy.RegisterOp | src/main.rs:182-200 | 8XY0–8XY3 copy/OR/AND/XOR; 8XY4 adds and fails on overflow; 8XY5 and 8XY7 subtract and fail on underflow; every other N fails; only VX changes |
| Legacy.ControlArm | src/main.rs:127-166 | families 0, 1, 2, 3, 4, 9 and E touch only pc, the stack and drawop |
| Legacy.DataArm | src/main.rs:168-260 | families 6, 7, 8, A, C, D and F touch only the registers, I, the delay timer and drawop |
| Legacy.Dispatch | src/main.rs:126-262 | no opcode changes the display or the keyboard |
| Legacy.OpcodeAt | src/main.rs:118-119 | the fetch: the byte at pc is the opcode's high byte and the next byte its low byte |
| Legacy.SkipTaken | src/main.rs:153-156 | the taken skip `pc += 4; return` (no contract of its own); StepSkip states its effect and its `u16` overflow within `run_address` |
| Legacy.Step | src/main.rs:117-265 | fetching past the end of memory fails; a successful step changes neither the display nor the keyboard |
| Legacy.StepControl | src/main.rs:126-264 | a control opcode either jumps (`return`) or continues with `pc += 2` |
| Legacy.StepData | src/main.rs:126-264 | a data opcode always continues with `pc += 2` |
| Legacy.StepGoto | src/main.rs:138-142 | 1NNN sets pc to NNN and nothing else |
| Legacy.CallThenReturn | src/main.rs:132-148 | 2NNN pushes the current pc and jumps to NNN; a 00EE there returns to the instruction after the call |
| Legacy.StepSkip | src/main.rs:149-166 | a skip advances pc by 4 when its comparison holds and by 2 otherwise |
| Legacy.StepSetsRegister | src/main.rs:168-179 | 6XNN sets VX := NN, 7XNN adds NN mod 256 and CXNN sets rnd AND NN; only VX and pc change (CXNN is lines 212-217) |
| Legacy.StepRegisterOp | src/main.rs:180-201 | 8XYN applies `RegisterOp` to the registers named by the nibbles of drawop, not of the opcode |
| Legacy.CopyAfterDraw | src/main.rs:180-183 | when drawop is 0, 8XY0 copies V0 onto itself and only pc changes |
| Legacy.StepRecordsDraw | src/main.rs:128-129 | 00E0 records 0xE000 in drawop and DXYN records the opcode (line 218); only pc changes besides |
| Legacy.ClearThenDraw | src/main.rs:73-77 | the `draw` after 00E0 blanks the display and resets drawop |
| Legacy.StepIndexAndTimer | src/main.rs:210-258 | ANNN sets I; FX07 and FX15 copy the delay timer; FX1E adds VX to I, failing for VF or on `u16` overflow |
| Legacy.StepPanics | src/main.rs:126-261 | the unimplemented opcodes, a return on an empty stack and FF1E all fail |
| Legacy.Chip8State.Abs | src/main.rs:15-25 | the abstract state of a valid object is well formed |
| Legacy.Chip8State.Init | src/main.rs:46-50 | the new object is `Initial()` |
| Legacy.Chip8State.GetPixel | src/main.rs:52-59 | agrees with `PixelAt` on the display array. This bridges the array to the sequence view, where SetThenGet states get-after-set |
| Legacy.Chip8State.SetPixel | src/main.rs:61-67 | fails iff off screen; otherwise the array becomes `PixelSet` of the old one |
| Legacy.Chip8State.FlipRow | src/main.rs:89-107 | the inner loop computes `FlipBits` on the display array |
| Legacy.Chip8State.Draw | src/main.rs:69-115 | `draw` succeeds exactly when `DrawPending` does, and then leaves its state |
| Legacy.Chip8State.DrawSprite | src/main.rs:83-109 | the outer loop computes `FlipRows` on the display array |
| Legacy.Chip8State.SkipNext | src/main.rs:153-156 | the taken-skip `pc += 4` agrees with `SkipTaken` |
| Legacy.Chip8State.RunRegisterOp | src/main.rs:182-200 | the 8XYN arm on the register array agrees with `RegisterOp` |
| Legacy.Chip8State.RunControl | src/main.rs:127-166 | the control arms agree with `ControlArm`, including whether they return early |
| Legacy.Chip8State.RunData | src/main.rs:168-260 | the data arms agree with `DataArm` |
| Legacy.Chip8State.RunAddress | src/main.rs:117-265 | `run_address` succeeds exactly when `Step` does, and then leaves the state `Step` describes |

## Left out

- `main` in both binaries, file and terminal I/O, the SDL window and canvas calls inside `draw`, `print!` tracing, `src/window.rs`, and the `fmt::Display` implementations. None of these affects machine state.
- Reading the ROM and font files: `Cartridges.Cartridge.constructor` takes the font and program bytes as sequences. A failed `File::open` or `read` is not modelled.
- `ThreadRng`: both engines take the random byte as a parameter `rnd`.
- The keyboard is a plain byte that the source never updates on its own; no key events are modelled.
- The state after a panic is unspecified because the Rust process aborts. A method that fails may have applied the effects the source performs before the panic point.
- Integer semantics are those of a debug build: `u8`/`u16` `+`, `-` and `+=` overflow is a failure, not a wrap-around.
- Registers.BorrowDecremented: release-build wrap-around of `u16` subtraction, and the borrow flag 1 it would then produce, are not modelled; in a debug build the subtraction panics before the flag is computed.
- Machines.ExecDraw: states the XOR picture only for heights up to 32. The decoder only produces heights below 16 (`Instructions.Decode`).
- Sprites.DrawSpriteXor: also requires a height of at most 32, for the same reason.
- `Varset::V(n)` with n ≥ 16 is excluded by a precondition (`Resolvable`) rather than modelled as an index panic. The decoder never produces such a handle (`Instructions.Decode`).
- The sound timer is stored and written by FX18, but no sound is modelled; `tick` only decrements the delay timer, as in the source.

# CHIP-8 interpreter core, modelled and verified in Dafny

This project models the interpreter engine of `emulator.py`: the `Emulator`
class without its pyglet window. The engine has:

- a machine state: 4096 memory cells, sixteen registers V0-VF, the index
  register I, the program counter, a call stack, a 64 x 32 display buffer,
  sixteen keys, the delay and sound timers, and the `should_draw` flag;
- `init`, which clears that state, copies the font to address 0, starts the
  program counter at 0x200 and builds the two-level handler table
  `function_map`;
- `cycle`, which fetches an opcode, moves the program counter past it, reads
  its x and y fields, dispatches it through the table and ticks the timers;
- the four family dispatchers `_0000`, `_8XXX`, `_EXXX` and `_FXXX`, and the
  thirty-five instruction handlers `_00E0` … `_FX65`;
- `get_key`, and the copy loop of `load`.

The project has two layers.

- **Values.** `Semantics` (semantics.dfy) describes each handler, the table
  lookup and a whole cycle as functions on a `Machine` value.
- **Object.** `Interpreter.Emulator` (emulator.dfy) is the object itself. Its
  fields and arrays are updated in place by methods shaped like the Python
  methods. Each method is proved to leave exactly the state the
  corresponding `Semantics` function computes. The handler and dispatch
  methods also leave the current `opcode`, `vx` and `vy` as they found
  them, as the Python handlers never write them.

Three more modules sit around those layers:

- `Decoding` (decoding.dfy) reads the handler off the opcode's nibbles
  independently. It proves that the two-level table lookup reaches the same
  handler.
- `Properties` (properties.dfy) proves what the instructions promise across
  one or several steps.
- `Bits` (bits.dfy) defines the bitwise operators on unbounded naturals and
  relates masks and shifts to arithmetic.

Registers, memory cells and I are unbounded naturals, like Python integers.
A value is reduced modulo 256 or 4096 only where a handler applies
`& 0xFF` / `& 0xFFF`. So `7XKK` and `8XY6` leave unmasked values, as the
source does.

## Model

| member | source | states |
|---|---|---|
| Semantics.Op00E0 | emulator.py:117-120 | every display cell becomes 0 and `should_draw` is set; nothing else changes |
| Semantics.Op00EE | emulator.py:122-124 | with a non-empty stack, PC becomes the popped top and the stack loses it; with an empty stack the raised error is swallowed and the machine is unchanged |
| Semantics.Op1NNN | emulator.py:126-128 | PC becomes the low 12 bits of the opcode; nothing else changes |
| Semantics.Op2NNN | emulator.py:130-132 | the already advanced PC is pushed and PC becomes NNN |
| Semantics.Op3XKK | emulator.py:134-136 | PC moves by 2 exactly when Vx equals KK, and otherwise stays |
| Semantics.Op4XKK | emulator.py:138-140 | PC moves by 2 exactly when Vx differs from KK |
| Semantics.Op5XY0 | emulator.py:142-144 | PC moves by 2 exactly when Vx equals Vy |
| Semantics.Op6XKK | emulator.py:146-148 | only Vx changes, and it becomes KK |
| Semantics.Op7XKK | emulator.py:150-151 | only Vx changes, to Vx + KK with no mask and no carry flag |
| Semantics.Op8XY0 | emulator.py:153-155 | only Vx changes, to Vy mod 256 |
| Semantics.Op8XY1 | emulator.py:157-159 | only Vx changes, to (Vx OR Vy) mod 256 |
| Semantics.Op8XY2 | emulator.py:161-163 | only Vx changes, to (Vx AND Vy) mod 256 |
| Semantics.Op8XY3 | emulator.py:165-167 | only Vx changes, to (Vx XOR Vy) mod 256 |
| Semantics.Op8XY4 | emulator.py:169-176 | Vx ends below 256; for x, y other than F, only Vx and VF change: VF is 1 iff Vx + Vy > 255 and Vx is the sum mod 256 |
| Semantics.Op8XY5 | emulator.py:178-185 | Vx ends below 256; for x, y other than F, VF is 1 iff Vx > Vy (strict) and Vx is (Vx - Vy) mod 256 |
| Semantics.Op8XY6 | emulator.py:187-189 | for x other than F, VF is Vx mod 2 and Vx is Vx div 2 (no mask) |
| Semantics.Op8XY7 | emulator.py:191-198 | for x, y other than F, VF is 1 iff Vy > Vx and Vx is (Vy - Vx) mod 256 |
| Semantics.Op8XYE | emulator.py:200-203 | for x other than F, VF is `(Vx & 0xF0) >> 7` and Vx is (Vx << 1) mod 256 |
| Semantics.Op9XXX | emulator.py:113-115 | PC moves by 2 exactly when Vx differs from Vy |
| Semantics.OpANNN | emulator.py:209-210 | I becomes NNN; nothing else changes |
| Semantics.OpBNNN | emulator.py:212-213 | PC becomes NNN + V0 |
| Semantics.OpCXKK | emulator.py:215-218 | only Vx changes, to `rnd & KK`, which is at most KK and at most rnd |
| Semantics.VisibleRows | emulator.py:234 | counts the sprite rows above the bottom edge: all rows before it are on screen, the next (if any) is not |
| Semantics.VisibleCols | emulator.py:234 | counts the sprite columns left of the right edge, in the same way |
| Semantics.DrawFlag | emulator.py:243-246 | VF after a draw is 0 or 1 |
| Semantics.DrawnDisplay | emulator.py:228-248 | only that the screen keeps its 2048 cells; cell by cell it is stated by Properties.DrawnCell and Properties.DrawOnlyUnderSprite, and Interpreter.Emulator.DrawSprite proves the loops compute it |
| Semantics.OpDXYN | emulator.py:220-249 | only the display, VF and `should_draw` change; `should_draw` becomes true, VF is 0 or 1 and V0-VE keep their values |
| Semantics.OpEX9E | emulator.py:258-261 | PC moves by 2 exactly when key `Vx & 0xF` is down |
| Semantics.OpEXA1 | emulator.py:263-266 | PC moves by 2 exactly when key `Vx & 0xF` is up |
| Semantics.OpFX07 | emulator.py:275-276 | only Vx changes, to the delay timer |
| Semantics.GetKey | emulator.py:501-505 | the result is -1 iff no key is down; otherwise that key is down and no lower key is |
| Semantics.OpFX0A | emulator.py:278-283 | with a key down, only Vx changes, to the lowest key down; with none, PC goes back by 2 and nothing else changes |
| Semantics.OpFX15 | emulator.py:285-286 | the delay timer becomes Vx; nothing else changes |
| Semantics.OpFX18 | emulator.py:288-289 | the sound timer becomes Vx; nothing else changes |
| Semantics.OpFX1E | emulator.py:291-297 | I becomes (I + Vx) mod 4096; VF is 1 iff I + Vx passed 0xFFF; V0-VE keep their values |
| Semantics.OpFX29 | emulator.py:299-300 | only I changes, to (5 * Vx) mod 4096 for every Vx; for a digit Vx below 16 that is the address of the digit's five-byte glyph |
| Semantics.Digits | emulator.py:302-305 | the three values are decimal digits (the last two below 10) that spell the value as 100h + 10t + o |
| Semantics.OpFX33 | emulator.py:302-305 | memory at I, I+1 and I+2 spells Vx in decimal; no other cell changes |
| Semantics.OpFX55 | emulator.py:307-313 | memory[I + j] = Vj for j ≤ x; every other cell keeps its value; I becomes I + x + 1 |
| Semantics.OpFX65 | emulator.py:316-322 | Vj = memory[I + j] for j ≤ x; registers above x keep their values; I becomes I + x + 1 |
| Semantics.Lookup | emulator.py:98-111 | a second-level lookup never runs a dispatcher again: a key that finds one, like a missing key, runs nothing |
| Semantics.Resolve | emulator.py:466-471 | the two-level lookup never yields a dispatcher |
| Chip8.FunctionMap | emulator.py:389-428 | the table itself, with no contract of its own; Decoding.LookupFamily0/8/E/F and Decoding.ResolveDecode state what it maps each opcode to |
| Semantics.Fetch | emulator.py:459 | the opcode `(memory[pc] << 8) \| memory[pc + 1]`, with no contract of its own; Decoding.FetchValue and Properties.FirstFetch state its value |
| Semantics.Execute | emulator.py:389-428 | only that the called handler keeps the machine well formed; each handler's effect is its own Op row, and Interpreter.Emulator.Execute proves the method dispatch equal to it |
| Semantics.Cycle | emulator.py:458-477 | only that the machine stays well formed; its meaning is stated by Properties.CycleDecoded and the timer, call and key lemmas below |
| Semantics.Run | emulator.py:468-471 | when no handler is found, the machine is unchanged |
| Semantics.TickTimers | emulator.py:473-477 | each timer above 0 goes down by exactly 1, a timer at 0 stays 0, and nothing else changes |
| Semantics.Initial | emulator.py:324-388 | the state after `init`: font at address 0, memory above it zero, registers, display and keys cleared, PC 0x200, empty stack, timers 0 |
| Semantics.LoadProgram | emulator.py:439-440 | program byte i is at 0x200 + i, and every other cell keeps its value |
| Semantics.SetKey | emulator.py:482-495 | only key k changes, to the given state |
| Decoding.RegisterFields | emulator.py:463-464 | x is bits 8-11 and y is bits 4-7 of the opcode |
| Decoding.FetchValue | emulator.py:459 | the fetched opcode is `memory[pc] * 256 + memory[pc + 1]` |
| Decoding.LookupFamily0 | emulator.py:98-103 | in family 0, the low byte 0xE0 finds 00E0, 0xEE finds 00EE, and anything else runs nothing |
| Decoding.LookupFamily8 | emulator.py:105-111 | in family 8, the low nibble picks 8XY0-8XY7 or 8XYE, and anything else runs nothing |
| Decoding.LookupFamilyE | emulator.py:251-256 | in family E, low nibble E finds EX9E, 1 finds EXA1, and anything else runs nothing |
| Decoding.LookupFamilyF | emulator.py:268-273 | in family F, the low byte picks FX07 … FX65, and anything else runs nothing |
| Decoding.ResolveDecode | emulator.py:389-428 | the two-level table lookup equals the handler read off the opcode's nibbles, for every opcode |
| Properties.CycleDecoded | emulator.py:458-477 | a cycle runs the handler the nibbles name, on the machine with PC + 2, with x and y from bits 8-11 and 4-7, and then ticks the timers |
| Properties.UnknownOpcodeIsNoOp | emulator.py:466-471 | an opcode that names no handler only advances PC by 2 and ticks the timers |
| Properties.UnknownOpcode8 | emulator.py:105-111 | 8XY8 names no handler |
| Properties.UnknownOpcodeE | emulator.py:251-256 | E??5 names no handler |
| Properties.UnknownOpcodeF | emulator.py:268-273 | F?99 names no handler |
| Properties.DispatcherKey0 | emulator.py:98-103 | 0x0?00 names no handler, because its second-level key finds `_0000` again |
| Properties.DispatcherKeyE | emulator.py:251-256 | E??0 names no handler, because its second-level key finds `_EXXX` again |
| Properties.DispatcherKeyF | emulator.py:268-273 | F?00 names no handler, because its second-level key finds `_FXXX` again |
| Properties.IgnoredNibbles | emulator.py:98-103 | the masks drop nibbles: 0x0?E0 clears the screen, E??E is EX9E, and 5XY? and 9XY? ignore their low nibble |
| Properties.DelayTimerSetThenTicked | emulator.py:285-286 | after a cycle running FX15, the delay timer is Vx - 1 (or 0) |
| Properties.SoundTimerSetThenTicked | emulator.py:288-289 | after a cycle running FX18, the sound timer is Vx - 1 (or 0) |
| Properties.ReturnUndoesCall | emulator.py:122-132 | 00EE right after 2NNN restores the machine exactly |
| Properties.CallThenReturn | emulator.py:122-132 | a call cycle followed by a return cycle resumes at the call's address + 2, with the stack as before |
| Properties.ReturnOnEmptyStack | emulator.py:122-124 | a return on an empty stack only advances PC by 2 and ticks the timers |
| Properties.AddWithCarry | emulator.py:169-176 | on byte operands, 256 * VF + Vx is the exact sum |
| Properties.SubtractWithFlag | emulator.py:178-185 | on byte operands, Vx is the difference with a borrow of 256 added, and VF = 1 iff Vx > Vy |
| Properties.AddIntoFlag | emulator.py:169-176 | when x is F, the sum is taken over the flag just written, not the old VF |
| Properties.ShiftLeftFlag | emulator.py:200-203 | VF is bit 7 of Vx, and Vx is 2 * Vx mod 256 |
| Properties.ShiftRightFlag | emulator.py:187-189 | VF is bit 0 of Vx |
| Properties.DrawCell | emulator.py:220-249 | each on-screen sprite cell (x+c, y+r) is XOR-ed with bit 7 - c of memory[I + r], where x and y are read after VF is cleared (so DFYN and DXFN draw at column or row 0) |
| Properties.DrawnCell | emulator.py:232-241 | one cell of the drawn screen: the on-screen cell (x0+c, y0+r) is the old cell XOR bit 7 - c of sprite row r |
| Properties.DrawOnlyUnderSprite | emulator.py:220-249 | no cell outside the sprite's rectangle changes, there is no wrap-around, and x and y are read after VF is cleared |
| Properties.StoreThenLoad | emulator.py:307-322 | FX55, then resetting I, then FX65 gives back the registers, and leaves I at I + x + 1 |
| Properties.LoadThenStore | emulator.py:307-322 | FX65, then resetting I, then FX55 leaves memory as it was |
| Properties.WaitForKey | emulator.py:278-283 | with no key down a FX0A cycle leaves PC on the instruction; otherwise Vx is the lowest key down and PC moves on |
| Properties.PressedKeyIsTaken | emulator.py:482-490 | pressing key k when no key is down makes k the key `get_key` returns |
| Properties.GlyphAddress | emulator.py:299-300 | with the font still at address 0, FX29 points I at the five glyph rows of digit Vx |
| Properties.FirstFetch | emulator.py:435-440 | after `init` and `load`, the first fetch is the program's first two bytes, big-endian |
| Bcd.AsWrittenDigits | emulator.py:302-305 | the values `/` stores: hundreds and tens as reals, ones as an integer below 10 |
| Bcd.AsWrittenHundreds | emulator.py:303 | the stored hundreds value is the hundreds digit exactly when the value is a multiple of 100 |
| Bcd.AsWrittenExample | emulator.py:302-305 | 123 is stored as 1.23, 2.3 and 3, while the digits are 1, 2 and 3 |
| Bcd.DigitsUnique | emulator.py:302-305 | for values below 1000, three digits spell v exactly when they are Digits(v) |
| Interpreter.Emulator.Init | emulator.py:324-388 | the new object's state is `Semantics.Initial()` |
| Interpreter.Emulator.FontMemory | emulator.py:386-387 | a fresh memory array holding the font at address 0 and zeros elsewhere |
| Interpreter.Emulator.Load | emulator.py:439-440 | the copy loop leaves the state `LoadProgram` computes |
| Interpreter.Emulator.SetKey | emulator.py:482-495 | the state becomes `SetKey` of the old one |
| Interpreter.Emulator.GetKey | emulator.py:501-505 | the scan returns `Semantics.GetKey` of the keys |
| Interpreter.Emulator.Op00E0 | emulator.py:117-120 | the state becomes `Op00E0` of the old one |
| Interpreter.Emulator.Op00EE | emulator.py:122-124 | the state becomes `Op00EE` of the old one |
| Interpreter.Emulator.Op1NNN | emulator.py:126-128 | the state becomes `Op1NNN` of the old one |
| Interpreter.Emulator.Op2NNN | emulator.py:130-132 | the state becomes `Op2NNN` of the old one |
| Interpreter.Emulator.Op3XKK | emulator.py:134-136 | the state becomes `Op3XKK` of the old one |
| Interpreter.Emulator.Op4XKK | emulator.py:138-140 | the state becomes `Op4XKK` of the old one |
| Interpreter.Emulator.Op5XY0 | emulator.py:142-144 | the state becomes `Op5XY0` of the old one |
| Interpreter.Emulator.Op6XKK | emulator.py:146-148 | the state becomes `Op6XKK` of the old one |
| Interpreter.Emulator.Op7XKK | emulator.py:150-151 | the state becomes `Op7XKK` of the old one |
| Interpreter.Emulator.Op8XY0 | emulator.py:153-155 | the state becomes `Op8XY0` of the old one |
| Interpreter.Emulator.Op8XY1 | emulator.py:157-159 | the state becomes `Op8XY1` of the old one |
| Interpreter.Emulator.Op8XY2 | emulator.py:161-163 | the state becomes `Op8XY2` of the old one |
| Interpreter.Emulator.Op8XY3 | emulator.py:165-167 | the state becomes `Op8XY3` of the old one |
| Interpreter.Emulator.Op8XY4 | emulator.py:169-176 | the state becomes `Op8XY4` of the old one |
| Interpreter.Emulator.Op8XY5 | emulator.py:178-185 | the state becomes `Op8XY5` of the old one |
| Interpreter.Emulator.Op8XY6 | emulator.py:187-189 | the state becomes `Op8XY6` of the old one |
| Interpreter.Emulator.Op8XY7 | emulator.py:191-198 | the state becomes `Op8XY7` of the old one |
| Interpreter.Emulator.Op8XYE | emulator.py:200-203 | the state becomes `Op8XYE` of the old one |
| Interpreter.Emulator.Op9XXX | emulator.py:113-115 | the state becomes `Op9XXX` of the old one |
| Interpreter.Emulator.OpANNN | emulator.py:209-210 | the state becomes `OpANNN` of the old one |
| Interpreter.Emulator.OpBNNN | emulator.py:212-213 | the state becomes `OpBNNN` of the old one |
| Interpreter.Emulator.OpCXKK | emulator.py:215-218 | the state becomes `OpCXKK` of the old one, for the given random byte |
| Interpreter.Emulator.OpDXYN | emulator.py:220-249 | the state becomes `OpDXYN` of the old one |
| Interpreter.Emulator.DrawSprite | emulator.py:226-248 | the row loop leaves the display `DrawnDisplay` computes and VF as `DrawFlag` says, and V0-VE unchanged |
| Interpreter.Emulator.DrawRow | emulator.py:229-248 | one pass of the column loop carries the partly drawn display and VF from one row to the next |
| Interpreter.Emulator.DrawPixel | emulator.py:232-246 | one pixel step: the cell is XOR-ed only when on screen, and VF records whether it ended as 0 |
| Interpreter.Emulator.OpEX9E | emulator.py:258-261 | the state becomes `OpEX9E` of the old one |
| Interpreter.Emulator.OpEXA1 | emulator.py:263-266 | the state becomes `OpEXA1` of the old one |
| Interpreter.Emulator.OpFX07 | emulator.py:275-276 | the state becomes `OpFX07` of the old one |
| Interpreter.Emulator.OpFX0A | emulator.py:278-283 | the state becomes `OpFX0A` of the old one |
| Interpreter.Emulator.OpFX15 | emulator.py:285-286 | the state becomes `OpFX15` of the old one |
| Interpreter.Emulator.OpFX18 | emulator.py:288-289 | the state becomes `OpFX18` of the old one |
| Interpreter.Emulator.OpFX1E | emulator.py:291-297 | the state becomes `OpFX1E` of the old one |
| Interpreter.Emulator.OpFX29 | emulator.py:299-300 | the state becomes `OpFX29` of the old one |
| Interpreter.Emulator.OpFX33 | emulator.py:302-305 | the state becomes `OpFX33` of the old one (integer digits; see Findings) |
| Interpreter.Emulator.OpFX55 | emulator.py:307-313 | the store loop leaves the state `OpFX55` computes |
| Interpreter.Emulator.OpFX65 | emulator.py:316-322 | the load loop leaves the state `OpFX65` computes |
| Interpreter.Emulator.Execute | emulator.py:389-428 | calling the table entry for a handler leaves the state `Semantics.Execute` computes |
| Interpreter.Emulator.Dispatch | emulator.py:100-103 | a second-level lookup and call, with a failed lookup swallowed, leaves the state `Run(Lookup(key))` computes |
| Interpreter.Emulator.Op0000 | emulator.py:98-103 | re-keys with `& 0xF0FF` and runs what the table finds there |
| Interpreter.Emulator.Op8XXX | emulator.py:105-111 | re-keys with `(& 0xF00F) + 0xFF0` and runs what the table finds there |
| Interpreter.Emulator.OpEXXX | emulator.py:251-256 | re-keys with `& 0xF00F` and runs what the table finds there |
| Interpreter.Emulator.OpFXXX | emulator.py:268-273 | re-keys with `& 0xF0FF` and runs what the table finds there |
| Interpreter.Emulator.DispatchFamily | emulator.py:466-471 | the first-level lookup on `& 0xF000` and call leave the state `Run(Resolve(opcode))` computes |
| Interpreter.Emulator.FetchOpcode | emulator.py:459-464 | the opcode is `Fetch` of the old state, PC has moved by 2, and vx and vy are its x and y fields |
| Interpreter.Emulator.TickTimers | emulator.py:473-477 | the state becomes `TickTimers` of the old one |
| Interpreter.Emulator.Cycle | emulator.py:458-477 | one cycle leaves the state `Semantics.Cycle` computes, with the fetched opcode and its x and y fields kept in `opcode`, `vx` and `vy` |

## Left out

- The pyglet layer is not modelled: the window, the sprites, `render`, `main_loop` and the screen handlers in `init`.
- Key codes are not modelled. `KEY_MAP` and the press/release handlers become `SetKey(k, down)` on a key number, and the never-read `key_wait` is dropped.
- Keys are booleans. The source only ever stores 0 or 1 in them.
- File reading in `load` is not modelled. The model copies a given byte sequence of at most 3584 bytes, because a longer one raises partway through the loop.
- `Logger` output is not modelled, because it has no effect on the state.
- CXKK's `random.randint` is not modelled. The random byte is a parameter of `OpCXKK`, `Execute` and `Cycle`.
- Exceptions raised partway through a handler are excluded by preconditions rather than modelled with their partial writes. `Semantics.Safe` and `CycleSafe` require that DXYN's rows lie in memory, that FX33's three cells exist, that FX55/FX65's x + 1 cells exist, and that FX0A has PC ≥ 2.
- A fetch with PC ≥ 4095 crashes outside the `try`, so `Fetch` and `Cycle` require PC + 1 < 4096.
- A BNNN jump beyond memory is not excluded. It only shows on the next fetch, which the precondition above then rejects.
- A second-level key that finds a dispatcher again, such as 0x0?00, recurses until Python's recursion limit raises, and the error is swallowed. The model treats it as running nothing (`Semantics.Lookup`).
- The class-level attribute lists shared between instances are modelled as ordinary fields of one object.
- `_9XY0` is not modelled. The table maps 0x9000 to `_9XXX`, and `_9XY0` is an unreachable duplicate with the same effect.
- Semantics.OpFX33 and Interpreter.Emulator.OpFX33: these store integer digits where the source stores the floats of true division. See Findings.
- Semantics.OpDXYN: its own contract states only the frame of the instruction. The cell-by-cell effect is in `Properties.DrawCell` and `Properties.DrawOnlyUnderSprite`. The flag is `Semantics.DrawFlag`, which `Interpreter.Emulator.DrawSprite` connects to the pixel loop.

## Findings

| source | as written | input that shows it | evidently intended | confidence | as-written member | corrected member |
|---|---|---|---|---|---|---|
| emulator.py:303-304 | FX33 stores `Vx / 100` and `(Vx % 100) / 10` with Python 3 true division, so the hundreds and tens cells receive fractions | Vx = 123 stores 1.23, 2.3 and 3 at I, I+1 and I+2 | the three decimal digits 1, 2 and 3 (integer division `//`) | not executed | Bcd.AsWrittenExample | Bcd.DigitsUnique |

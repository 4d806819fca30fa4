# CHIP-8 interpreter core, modelled and verified in Dafny

This project models the core of a small CHIP-8 interpreter written in Rust:

- the opcode field extractors of `src/decoder.rs`;
- the `Chip8` machine record of `src/chip8.rs`, with:
  - its constructor, `load_font`, the memory copy of `load_rom`;
  - `fetch`, `execute` and `cycle`;
  - the repaint-flag reset of `print_screen`.

`execute` implements four instruction classes:

- `1nnn`, jump;
- `6xkk`, load a register;
- `Annn`, set I;
- `Dxyn`, XOR-draw a sprite with collision detection.

Every other word is reported as invalid and ignored.

Layout:

- `uint.dfy` (`Uint`): the unsigned 8- and 16-bit integer types.
- `arith.dfy` (`Arith`): division facts.
- `decoder.dfy` (`Decoder`): the field extractors.
  - They are written with division and remainder on a 16-bit integer.
  - `MasksAgree` proves that each one takes exactly the bits of the source's mask and shift on the 16-bit word.
- `semantics.dfy` (`Semantics`): the machine as a value (`State`).
  - Each source operation is a function on it: `Fetch`, `Execute`, `Draw`, `Cycle`.
  - The preconditions of these functions are `CanFetch`, `CanExecute` and `CanDraw`.
  - `CanFetch` holds exactly when reading the two instruction bytes does not panic.
  - `CanExecute` asks for a jump target of at least 2 and, for `Dxyn`, `CanDraw`.
  - `CanDraw` asks for the sprite rows in memory and every set bit on screen, where the source would otherwise panic.
  - `CanDraw` also excludes x or y equal to 0xF. The source does not panic then, but it moves the sprite mid-draw (see "## Left out").
- `machine.dfy` (`Machine`): the class `Chip8`, with arrays for memory, framebuffer, keys and registers, and methods that update them in place.
  - `Fetch`, `Execute`, `DrawSprite` and `Cycle` are proved to change `Model()` exactly as `Semantics.Fetch`, `Execute`, `Draw` and `Cycle` say.
  - The constructor, `LoadFont`, `LoadRom` and `PrintScreen` have no counterpart in `Semantics`. Their contracts state the new state directly.
  - The two nested drawing loops of `Dxyn` are:
    - `BlitRows`, the rows;
    - `BlitRow`, the eight columns;
    - `PlotBit`, one sprite bit of the row that `BlitRow` read.
- `properties.dfy` (`Properties`): what the drawing loop computes, position by position, and that after all `8*n` positions it has produced `Blit` with VF equal to `Collides`.
- `effects.dfy` (`Effects`): what each instruction, a cycle, and drawing the same sprite twice do to the state.

The usual description of these instructions differs from this code in places. One such description is Cowgod's Chip-8 Technical Reference, section 3.1:

- 00E0 clears the display;
- Dxyn wraps a sprite around the screen edges;
- Dxyn sets VF to 1 exactly when the draw erases a pixel.

From that last point comes the common expectation that drawing a sprite twice makes the second draw report VF = 1. The model follows the code:

- **The clear-screen arm never runs.** `execute` matches on `opcode & 0xF000`, so its `0x00E0` arm can never match. `00E0` therefore falls into the invalid arm and changes nothing (`Effects.ClearScreenIsInvalid`).
- **Pixels past an edge do not wrap.**
  - V[x] is reduced modulo 64 and V[y] modulo 32, in place, and only when strictly greater than the bound. A value of exactly 64 or 32 is kept.
  - Each pixel is then addressed linearly as `V[x] + dx + (V[y] + dy)*64`, with no wrap. A column past the right edge lands on the next row, and an index past the end of the framebuffer is the source's out-of-range panic.
- **A second draw need not report a collision.**
  - Drawing a sprite twice restores the screen.
  - The second draw reports a collision exactly when some touched cell was off before the first draw (`Effects.DrawTwice`).
  - So the expectation above holds on a blank screen for a sprite with a set bit (`Effects.DrawTwiceOnBlank`), not in general.

Representation:

- Memory and framebuffer cells are `bv8`.
- Registers are `u8` and `I` and the opcode are `u16`: newtypes over `int`, so the decoder's arithmetic stays in integers.
- The program counter is a `nat`, standing for the source's `usize`.

## Model

| member | source | states |
|---|---|---|
| Decoder.X | src/decoder.rs:3-5 | the x field is below 16 |
| Decoder.Y | src/decoder.rs:6-8 | the y field is below 16 |
| Decoder.KK | src/decoder.rs:9-11 | the kk field differs from the word by a multiple of 256 (and is below 256 by its type): it is the low byte |
| Decoder.NNN | src/decoder.rs:12-14 | the nnn field is below 4096 |
| Decoder.N | src/decoder.rs:15-17 | the n field is below 16 |
| Decoder.Class | src/chip8.rs:107 | the class bits are a multiple of 0x1000 and the word lies in [class, class + 0x1000) |
| Decoder.MasksAgree | src/decoder.rs:3-17 | on every 16-bit word, each extractor equals the source's mask and shift: `(op & 0xF00) >> 8`, `(op & 0xF0) >> 4`, `op & 0xFF`, `op & 0xFFF`, `op & 0xF`; the class bits equal `op & 0xF000` |
| Decoder.FieldsNest | src/decoder.rs:9-14 | `nnn == x*256 + kk`, `kk == y*16 + n`, and the word is its class bits plus nnn |
| Semantics.FetchWord | src/chip8.rs:93 | the shift-and-or of the two bytes at pc is the big-endian word `mem[pc]*256 + mem[pc+1]` |
| Semantics.Wrap | src/chip8.rs:138-143 | the in-place reduction keeps the residue, leaves a value up to the bound unchanged, and brings a larger one below the bound |
| Semantics.Fetch | src/chip8.rs:92-95 | the opcode becomes the big-endian word `mem[pc]*256 + mem[pc+1]`; nothing else changes |
| Semantics.DrawRegisters | src/chip8.rs:135-143 | after the Dxyn prologue, with VF cleared first: V[x] is the reduction `Wrap` of V[x] by 64 and V[y] that of V[y] by 32; when x == y the register is reduced by 64, then by 32; V[x] <= 64 and V[y] <= 32; VF is 0 (x, y != 0xF); every other register is unchanged |
| Semantics.Draw | src/chip8.rs:134-160 | Dxyn leaves VF at 0 or 1, V[x] and V[y] reduced as by `DrawRegisters`, and the repaint flag raised; memory, I, pc, keys, timers and opcode are unchanged (what happens to the screen is stated by `Effects.DrawEffect`) |
| Semantics.ColumnMaskShift | src/chip8.rs:148 | the column selector is `0x80 >> dx` |
| Semantics.Blit | src/chip8.rs:145-157 | the blitted framebuffer has the framebuffer's size |
| Semantics.Execute | src/chip8.rs:97-163 | executing keeps every array at its fixed size; no implemented instruction writes memory, keys, timers or the opcode (what each class does is stated by the Effects lemmas) |
| Semantics.Cycle | src/chip8.rs:86-90 | a cycle leaves the fetched big-endian word in opcode; memory, keys and timers are unchanged (the program counter is stated by `Effects.CyclePc`) |
| Machine.Chip8.constructor | src/chip8.rs:28-42 | memory, framebuffer, keys, registers, I, timers, opcode and repaint flag are zero or false; pc is 0x200 |
| Machine.Chip8.LoadFont | src/chip8.rs:44-65 | `mem[0..80]` holds the 80-byte glyph table, the rest of memory and every other field are unchanged |
| Machine.Chip8.LoadRom | src/chip8.rs:76-77 | memory is the old bytes below 0x200, then the ROM, then the old bytes after it; nothing else changes |
| Machine.Chip8.Fetch | src/chip8.rs:92-95 | opcode becomes `mem[pc]*256 + mem[pc+1]`; nothing else changes |
| Machine.Chip8.Execute | src/chip8.rs:97-163 | the record changes exactly as `Semantics.Execute` says (the 00E0 arm is shown unreachable) |
| Machine.Chip8.DrawSprite | src/chip8.rs:134-160 | the Dxyn arm changes the record exactly as `Semantics.Draw`, and the framebuffer stays binary |
| Machine.Chip8.BlitSprite | src/chip8.rs:145-157 | the two loops leave the framebuffer equal to `Blit` of the old one and VF equal to 1 iff `Collides`, other registers unchanged |
| Machine.Chip8.BlitRows | src/chip8.rs:145-157 | the row loop takes the drawing state from before row 0 to after row n |
| Machine.Chip8.BlitRow | src/chip8.rs:146-156 | the sprite row is read once, then the column loop takes the drawing state from the start of row dy to the start of row dy+1 |
| Machine.Chip8.PlotBit | src/chip8.rs:148-155 | one sprite bit takes the drawing state from position (dy, dx) to (dy, dx+1): XOR of the addressed pixel when the bit is set, VF raised when that pixel was lit |
| Machine.Chip8.Cycle | src/chip8.rs:86-90 | the record changes exactly as `Semantics.Cycle`: fetch, execute, pc + 2 |
| Machine.Chip8.PrintScreen | src/chip8.rs:184-186 | the repaint flag is false afterwards; nothing else changes |
| Properties.BlitPrefix | src/chip8.rs:145-157 | the framebuffer as the drawing loop leaves it at row dy, column dx; only cells from the anchor up to the current position `anchor + dy*64 + dx` can differ from the framebuffer before the draw |
| Properties.FlagPrefix | src/chip8.rs:145-157 | VF as the drawing loop leaves it at row dy, column dx; it is raised only if some sprite row is non-zero |
| Properties.PrefixStep | src/chip8.rs:148-154 | one loop position XORs its cell when the bit is set and the cell is on screen, and raises the flag when that cell was lit |
| Properties.PositionCell | src/chip8.rs:150 | position (dy, dx) addresses a cell in row dy, column dx of the sprite window, at rank dy*8 + dx |
| Properties.ToggleStep | src/chip8.rs:145-154 | position dy*8 + dx adds exactly its own cell to the toggled set, and that cell was not toggled before |
| Properties.ToggledRank | src/chip8.rs:145-154 | the cells toggled when the loop reaches (dy, dx) are the set-bit cells of rank below dy*8 + dx |
| Properties.NotYetToggled | src/chip8.rs:145-154 | no position before (dy, dx) touches the cell of (dy, dx) |
| Properties.PrefixCell | src/chip8.rs:145-157 | at each loop point a cell is XOR-ed iff it has been toggled so far |
| Properties.CollideStep | src/chip8.rs:150-153 | a position adds a collision iff its bit is set and its cell was lit before the draw |
| Properties.PrefixFlag | src/chip8.rs:145-157 | at each loop point VF is 1 iff some cell toggled so far was lit before the draw |
| Properties.PrefixAll | src/chip8.rs:145-157 | after all positions the loop's framebuffer is `Blit` and its flag is `Collides` |
| Properties.BlitBinary | src/chip8.rs:154 | XOR with 1 keeps a 0/1 framebuffer 0/1 |
| Effects.CyclePc | src/chip8.rs:86-90 | a cycle leaves the fetched word in opcode and advances pc by 2, except a jump, after which pc == nnn |
| Effects.InvalidCycle | src/chip8.rs:89 | a cycle on an unimplemented word changes only opcode and pc, which advances by 2 |
| Effects.Jump | src/chip8.rs:114-119 | 1nnn sets pc to nnn - 2 and changes nothing else |
| Effects.LoadRegister | src/chip8.rs:122-126 | 6xkk sets V[x] to kk; every other register and field is unchanged |
| Effects.SetIndex | src/chip8.rs:128-132 | Annn sets I to nnn and changes nothing else |
| Effects.Invalid | src/chip8.rs:161 | an unimplemented word leaves the state unchanged |
| Effects.ClearScreenIsInvalid | src/chip8.rs:107-112 | no word has class bits 0x00E0; 00E0 has class 0 and leaves the state unchanged |
| Effects.DrawEffect | src/chip8.rs:134-160 | Dxyn changes exactly the touched cells; the screen stays 0/1; VF is 0 or 1, and 1 iff some pixel went from on to off; registers other than V[x], V[y] and VF, memory, I, pc, keys, timers and opcode are unchanged; the repaint flag is set |
| Effects.BlitTwice | src/chip8.rs:154 | blitting the same sprite twice at the same place restores the framebuffer |
| Effects.DrawRegistersTwice | src/chip8.rs:138-143 | a second Dxyn prologue leaves V[x] and V[y] as the first left them |
| Effects.DrawTwice | src/chip8.rs:134-160 | drawing the same Dxyn twice restores the framebuffer; the second draw reports VF = 1 iff some touched cell was off before the first |
| Effects.SetBitTouches | src/chip8.rs:145-150 | when every set bit is on screen, the sprite has a set bit iff some cell is touched |
| Effects.DrawTwiceOnBlank | src/chip8.rs:134-160 | on a blank screen the first draw reports no collision, and the second reports one iff the sprite has a set bit |

## Left out

- `src/input.rs`, `src/graphics.rs`, `src/dir.rs` and `src/main.rs` are not part of this model. They are SDL event and canvas handling, filesystem walking, and the stdin-driven driver loop: host I/O only.
- `load_rom`: opening, reading and measuring the file, and closing it, are left out. The ROM bytes are a parameter of `Machine.Chip8.LoadRom`.
- `load_rom` on a ROM longer than 3584 bytes: the source's slice panics. `Machine.Chip8.LoadRom` requires `|rom| <= 3584` instead.
- All `println!` tracing, `print_registers`, and the terminal rendering in `print_screen` are output only and are left out. `Machine.Chip8.PrintScreen` keeps the repaint-flag reset.
- The clear-screen body is left out because it is unreachable. Were it reachable, it would panic: it clears a 4096-cell range of the 2048-cell framebuffer.
- `keys`, `dt` and `st` are only initialised, because the source never reads or updates them.
- Instructions the source does not implement are not modelled. They fall into the invalid arm like every other unimplemented word.
- Machine.Chip8.Fetch: requires `pc + 1 < 4096`, where the source panics on an out-of-range index.
- Machine.Chip8.Execute: a jump requires `nnn >= 2`. The source computes `pc - 2` on an unsigned `usize`, which panics in a debug build and wraps in a release build. The wrap is not modelled.
- Machine.Chip8.DrawSprite: requires `I + n <= 4096` and that every set sprite bit addresses a cell below 2048; otherwise the source's indexing panics.
- Machine.Chip8.DrawSprite: requires x and y to differ from 0xF. With x or y equal to 0xF the source re-reads VF as a coordinate for every pixel, after a collision may have set it to 1, so the sprite moves mid-draw. That case is not modelled.
- Machine.Chip8.Cycle: the program counter is unbounded, so the `usize` overflow of `pc += 2` is not modelled.

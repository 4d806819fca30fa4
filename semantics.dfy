/** The interpreter's behaviour as pure functions on a machine snapshot
    (src/chip8.rs). The `Chip8` class in module Machine is proved to follow
    these definitions step for step; the lemmas in module Properties state
    what they mean. */
module Semantics {
  import opened Uint
  import opened Decoder
  import Arith

  const MEM_SIZE: nat := 4096
  const DISP_X: nat := 64
  const DISP_Y: nat := 32
  const GFX_SIZE: nat := 2048      // DISP_X * DISP_Y
  const NUM_VREGS: nat := 16
  const NUM_KEYS: nat := 16
  const ROM_START: nat := 0x200
  const VF: nat := 0xF             // the flag register

  /** The sixteen hexadecimal digit glyphs, five rows of eight pixels each. */
  const FONT: seq<bv8> := [
    0xF0, 0x90, 0x90, 0x90, 0xF0, // 0
    0x20, 0x60, 0x20, 0x20, 0x70, // 1
    0xF0, 0x10, 0xF0, 0x80, 0xF0, // 2
    0xF0, 0x10, 0xF0, 0x10, 0xF0, // 3
    0x90, 0x90, 0xF0, 0x10, 0x10, // 4
    0xF0, 0x80, 0xF0, 0x10, 0xF0, // 5
    0xF0, 0x80, 0xF0, 0x90, 0xF0, // 6
    0xF0, 0x10, 0x20, 0x40, 0x40, // 7
    0xF0, 0x90, 0xF0, 0x90, 0xF0, // 8
    0xF0, 0x90, 0xF0, 0x10, 0xF0, // 9
    0xF0, 0x90, 0xF0, 0x90, 0x90, // A
    0xE0, 0x90, 0xE0, 0x90, 0xE0, // B
    0xF0, 0x80, 0x80, 0x80, 0xF0, // C
    0xE0, 0x90, 0x90, 0x90, 0xE0, // D
    0xF0, 0x80, 0xF0, 0x80, 0xF0, // E
    0xF0, 0x80, 0xF0, 0x80, 0x80  // F
  ]

  /** A snapshot of every field of the machine record: memory, the 64x32
      framebuffer (one byte per pixel, row-major), keypad, the repaint flag,
      V0..VF, I, the program counter (a `usize`), the two timers and the
      current opcode. */
  datatype State = State(mem: seq<bv8>, gfx: seq<bv8>, keys: seq<bool>, drawFlag: bool,
                         v: seq<u8>, i: u16, pc: nat, dt: u8, st: u8, opcode: u16)

  /** Every fixed-size array has its fixed size. */
  predicate WellFormed(s: State)
  {
    |s.mem| == MEM_SIZE && |s.gfx| == GFX_SIZE && |s.keys| == NUM_KEYS && |s.v| == NUM_VREGS
  }

  /** Every pixel is off (0) or on (1). */
  predicate Binary(gfx: seq<bv8>)
  {
    forall c :: 0 <= c < |gfx| ==> gfx[c] == 0 || gfx[c] == 1
  }

  // ---------------------------------------------------------------- fetch

  /** Shifting the high byte up by eight and or-ing in the low byte is
      the base-256 number `hi lo`. */
  lemma JoinBytes(hi: bv8, lo: bv8)
    ensures (((hi as bv16) << 8) | (lo as bv16)) as int == hi as int * 256 + lo as int
  {
  }

  /** The two bytes at `pc` joined by the source's shift and or: the
      big-endian word, high byte first. */
  function FetchWord(mem: seq<bv8>, pc: nat): (w: u16)
    requires pc + 1 < |mem|
    ensures w as int == mem[pc] as int * 256 + mem[pc + 1] as int
  {
    JoinBytes(mem[pc], mem[pc + 1]);
    ((((mem[pc] as bv16) << 8) | (mem[pc + 1] as bv16)) as int) as u16
  }

  /** Both bytes of the instruction must lie in memory, or the indexing panics. */
  predicate CanFetch(s: State)
  {
    WellFormed(s) && s.pc + 1 < MEM_SIZE
  }

  /** `fetch`: the big-endian word at pc becomes the opcode; nothing else
      changes. */
  function Fetch(s: State): (r: State)
    requires CanFetch(s)
    ensures WellFormed(r)
    ensures r.opcode as int == s.mem[s.pc] as int * 256 + s.mem[s.pc + 1] as int
    ensures r.(opcode := s.opcode) == s
  {
    s.(opcode := FetchWord(s.mem, s.pc))
  }

  // ------------------------------------------------------------ sprites

  /** The in-place reduction Dxyn applies to a coordinate register: modulo
      `bound` (a screen dimension), but only when the value is strictly
      greater than `bound`, so a value equal to the bound is left as it is. */
  function Wrap(r: u8, bound: u8): (w: u8)
    requires bound > 0
    ensures w <= bound
    ensures w % bound == r % bound
    ensures r <= bound ==> w == r
    ensures r > bound ==> w < bound
  {
    Arith.ModTwice(r as int, bound as int);
    if r > bound then r % bound else r
  }

  /** The registers after the prologue of Dxyn: VF cleared, then V[x] reduced
      modulo 64, then V[y] reduced modulo 32, each in place and in that order
      (so with `x == y` the register is reduced twice). */
  function DrawRegisters(v: seq<u8>, x: nat, y: nat): (r: seq<u8>)
    requires |v| == NUM_VREGS && x < NUM_VREGS && y < NUM_VREGS
    ensures |r| == NUM_VREGS
    ensures r[x] <= 64 && r[y] <= 32
    ensures x != y ==> r[x] == Wrap(v[VF := 0][x], 64) && r[y] == Wrap(v[VF := 0][y], 32)
    ensures x == y ==> r[x] == Wrap(Wrap(v[VF := 0][x], 64), 32)
    ensures x != VF && y != VF ==> r[VF] == 0
    ensures forall k :: 0 <= k < NUM_VREGS && k != x && k != y && k != VF ==> r[k] == v[k]
  {
    var v1 := v[VF := 0];
    var v2 := v1[x := Wrap(v1[x], 64)];
    v2[y := Wrap(v2[y], 32)]
  }

  /** The framebuffer index of the sprite's top-left pixel. */
  function Anchor(v: seq<u8>, x: nat, y: nat): int
    requires |v| == NUM_VREGS && x < NUM_VREGS && y < NUM_VREGS
  {
    v[x] as int + v[y] as int * DISP_X
  }

  /** The bit that selects column `dx` of a sprite row, most significant bit
      first: `0x80 >> dx`. */
  function ColumnMask(dx: nat): (b: bv8)
    requires dx < 8
  {
    if dx == 0 then 0x80 else if dx == 1 then 0x40 else if dx == 2 then 0x20
    else if dx == 3 then 0x10 else if dx == 4 then 0x08 else if dx == 5 then 0x04
    else if dx == 6 then 0x02 else 0x01
  }

  /** `ColumnMask` is the source's shift `0x80 >> dx`. */
  lemma ColumnMaskShift(dx: nat)
    requires dx < 8
    ensures ColumnMask(dx) == 0x80 >> dx
  {
  }

  /** Column `dx` of a sprite row is set. */
  predicate SpriteBit(row: bv8, dx: nat)
    requires dx < 8
  {
    row & ColumnMask(dx) != 0
  }

  /** Cell `c` lies in the 8-wide, `n`-tall window that starts at `anchor`,
      under the linear addressing `anchor + dx + dy*64` (no wrapping: a column
      past the right edge is the next row's first cell). */
  predicate InWindow(anchor: int, n: nat, c: int)
  {
    c >= anchor && (c - anchor) % DISP_X < 8 && (c - anchor) / DISP_X < n
  }

  /** Cell `c` is under a set bit of the `n`-row sprite stored at `mem[i..]`. */
  predicate Touched(mem: seq<bv8>, i: int, anchor: int, n: nat, c: int)
    requires 0 <= i && (n == 0 || i + n <= |mem|)
  {
    InWindow(anchor, n, c) && SpriteBit(mem[i + (c - anchor) / DISP_X], (c - anchor) % DISP_X)
  }

  /** Every set sprite bit addresses a framebuffer cell (`anchor + dx + dy*64`
      below 2048); otherwise the source's indexing panics. */
  predicate InScreen(mem: seq<bv8>, i: int, anchor: int, n: nat)
    requires 0 <= i && (n == 0 || i + n <= |mem|)
  {
    forall a: int, dx: int :: i <= a < i + n && 0 <= dx < 8 && SpriteBit(mem[a], dx)
      ==> anchor + dx + (a - i) * DISP_X < GFX_SIZE
  }

  /** The framebuffer with every touched cell XOR-ed with 1. */
  function Blit(gfx: seq<bv8>, mem: seq<bv8>, i: int, anchor: int, n: nat): (r: seq<bv8>)
    requires 0 <= i && (n == 0 || i + n <= |mem|)
    ensures |r| == |gfx|
  {
    seq(|gfx|, c requires 0 <= c < |gfx| =>
      if Touched(mem, i, anchor, n, c) then gfx[c] ^ 1 else gfx[c])
  }

  /** Some touched cell was lit (non-zero) before the blit. */
  predicate Collides(gfx: seq<bv8>, mem: seq<bv8>, i: int, anchor: int, n: nat)
    requires 0 <= i && (n == 0 || i + n <= |mem|)
  {
    exists c :: 0 <= c < |gfx| && Touched(mem, i, anchor, n, c) && gfx[c] != 0
  }

  /** What Dxyn needs so that the source neither panics nor moves the sprite
      mid-draw: x and y are not VF (the source re-reads V[x] and V[y] for every
      pixel, after it may have written VF), the `n` sprite rows lie in memory,
      and every set bit addresses a framebuffer cell. */
  predicate CanDraw(s: State)
    requires WellFormed(s)
  {
    var x, y, n := X(s.opcode), Y(s.opcode), N(s.opcode) as nat;
    x != VF && y != VF
    && (n == 0 || s.i as int + n <= MEM_SIZE)
    && InScreen(s.mem, s.i as int, Anchor(DrawRegisters(s.v, x, y), x, y), n)
  }

  /** Dxyn: the sprite of `n` bytes at I is XOR-blitted at (V[x], V[y]) after the
      prologue; VF reports a collision; the repaint flag is raised. */
  function Draw(s: State): (r: State)
    requires WellFormed(s) && CanDraw(s)
    ensures WellFormed(r)
    ensures r.v[VF] == 0 || r.v[VF] == 1
    ensures X(s.opcode) != Y(s.opcode) ==>
      r.v[X(s.opcode)] == Wrap(s.v[X(s.opcode)], 64) && r.v[Y(s.opcode)] == Wrap(s.v[Y(s.opcode)], 32)
    ensures X(s.opcode) == Y(s.opcode) ==> r.v[X(s.opcode)] == Wrap(Wrap(s.v[X(s.opcode)], 64), 32)
    ensures r.drawFlag
    ensures r.(gfx := s.gfx, v := s.v, drawFlag := s.drawFlag) == s
  {
    var x, y, n := X(s.opcode), Y(s.opcode), N(s.opcode) as nat;
    var v := DrawRegisters(s.v, x, y);
    var anchor := Anchor(v, x, y);
    s.(gfx := Blit(s.gfx, s.mem, s.i as int, anchor, n),
       v := v[VF := if Collides(s.gfx, s.mem, s.i as int, anchor, n) then 1 else 0],
       drawFlag := true)
  }

  // ---------------------------------------------------- execute and cycle

  /** What the source demands for `execute` not to panic: a jump target of at
      least 2 (`pc` is unsigned and the jump stores `nnn - 2`), and a
      drawable Dxyn. */
  predicate CanExecute(s: State)
    requires WellFormed(s)
  {
    var cls := Class(s.opcode);
    (cls == 0x1000 ==> NNN(s.opcode) >= 2)
    && (cls == 0xD000 ==> CanDraw(s))
  }

  /** `execute`: dispatch on `opcode & 0xF000`. Only 1nnn, 6xkk, Annn and Dxyn
      are implemented; every other word, 00E0 included, is reported as invalid
      and changes nothing. */
  function Execute(s: State): (r: State)
    requires WellFormed(s) && CanExecute(s)
    ensures WellFormed(r)
    ensures r.mem == s.mem && r.keys == s.keys && r.opcode == s.opcode
    ensures r.dt == s.dt && r.st == s.st
  {
    var op := s.opcode;
    var cls := Class(op);
    if cls == 0x1000 then s.(pc := NNN(op) as int - 2)
    else if cls == 0x6000 then s.(v := s.v[X(op) := KK(op)])
    else if cls == 0xA000 then s.(i := NNN(op))
    else if cls == 0xD000 then Draw(s)
    else s
  }

  predicate CanCycle(s: State)
  {
    CanFetch(s) && CanExecute(Fetch(s))
  }

  /** `cycle`: fetch, execute, then advance the program counter by 2. No
      implemented instruction writes memory, and the fetched word stays in
      `opcode`. */
  function Cycle(s: State): (r: State)
    requires CanCycle(s)
    ensures WellFormed(r)
    ensures r.opcode == FetchWord(s.mem, s.pc)
    ensures r.mem == s.mem && r.keys == s.keys && r.dt == s.dt && r.st == s.st
  {
    var e := Execute(Fetch(s));
    e.(pc := e.pc + 2)
  }
}

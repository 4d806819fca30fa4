/** The `Chip8` machine record and its methods (src/chip8.rs), updated in
    place. `Model()` reads the whole record as a `Semantics.State`; each
    method is proved to change it exactly as the matching definition in
    module Semantics says. */
module Machine {
  import opened Uint
  import opened Decoder
  import opened Semantics
  import Properties

  class Chip8 {
    var mem: array<bv8>
    var gfx: array<bv8>
    var keys: array<bool>
    var drawFlag: bool
    var v: array<u8>
    var i: u16
    var pc: nat
    var dt: u8
    var st: u8
    var opcode: u16

    /** The fixed sizes, distinct arrays, and every pixel 0 or 1. */
    ghost predicate Valid()
      reads this, gfx
    {
      mem.Length == MEM_SIZE && gfx.Length == GFX_SIZE && keys.Length == NUM_KEYS
      && v.Length == NUM_VREGS && mem != gfx
      && keys as object != mem && keys as object != gfx && keys as object != v
      && mem as object != v && gfx as object != v
      && Binary(gfx[..])
    }

    /** The record as a value. */
    ghost function Model(): (s: State)
      reads this, mem, gfx, keys, v
      requires Valid()
      ensures WellFormed(s)
    {
      State(mem[..], gfx[..], keys[..], drawFlag, v[..], i, pc, dt, st, opcode)
    }

    /** `new`: everything zero or false, except the program counter at 0x200. */
    constructor ()
      ensures Valid() && fresh(mem) && fresh(gfx) && fresh(keys) && fresh(v)
      ensures forall a :: 0 <= a < MEM_SIZE ==> mem[a] == 0
      ensures forall c :: 0 <= c < GFX_SIZE ==> gfx[c] == 0
      ensures forall k :: 0 <= k < NUM_KEYS ==> !keys[k]
      ensures forall r :: 0 <= r < NUM_VREGS ==> v[r] == 0
      ensures !drawFlag && i == 0 && pc == ROM_START && dt == 0 && st == 0 && opcode == 0
    {
      mem := new bv8[MEM_SIZE](_ => 0);
      gfx := new bv8[GFX_SIZE](_ => 0);
      keys := new bool[NUM_KEYS](_ => false);
      drawFlag := false;
      v := new u8[NUM_VREGS](_ => 0);
      i := 0;
      pc := ROM_START;
      dt := 0;
      st := 0;
      opcode := 0;
    }

    /** `load_font`: the glyph table goes to `mem[0..80]`; the rest of memory
        is untouched. */
    method LoadFont()
      requires Valid()
      modifies mem
      ensures Valid()
      ensures mem[..|FONT|] == FONT && mem[|FONT|..] == old(mem[|FONT|..])
      ensures Model() == old(Model()).(mem := FONT + old(mem[|FONT|..]))
    {
      forall a | 0 <= a < |FONT| {
        mem[a] := FONT[a];
      }
      assert mem[..] == mem[..|FONT|] + mem[|FONT|..];
    }

    /** The copy in `load_rom`: the ROM bytes go to memory from 0x200 on;
        the bytes before and after them are untouched. */
    method LoadRom(rom: seq<bv8>)
      requires Valid()
      requires |rom| <= MEM_SIZE - ROM_START
      modifies mem
      ensures Valid()
      ensures mem[..] == old(mem[..ROM_START]) + rom + old(mem[ROM_START + |rom|..])
      ensures Model() == old(Model()).(mem := mem[..])
    {
      forall a | 0 <= a < |rom| {
        mem[ROM_START + a] := rom[a];
      }
      assert mem[..] == mem[..ROM_START] + mem[ROM_START..ROM_START + |rom|] + mem[ROM_START + |rom|..];
    }

    /** `fetch`: the opcode is the big-endian word at `pc`; nothing else changes. */
    method Fetch()
      requires Valid() && CanFetch(Model())
      modifies this`opcode
      ensures Valid()
      ensures opcode as int == mem[pc] as int * 256 + mem[pc + 1] as int
      ensures Model() == Semantics.Fetch(old(Model()))
    {
      opcode := FetchWord(mem[..], pc);
    }

    /** `execute`: decode the fields, then dispatch on `opcode & 0xF000`. */
    method Execute()
      requires Valid() && CanExecute(Model())
      modifies this`pc, this`i, this`drawFlag, v, gfx
      ensures Valid()
      ensures Model() == Semantics.Execute(old(Model()))
    {
      ghost var s0 := Model();
      var x := X(opcode);
      var y := Y(opcode);
      var kk := KK(opcode);
      var nnn := NNN(opcode);
      var n := N(opcode);
      var cls := Class(opcode);
      if cls == 0x00E0 {
        // The clear-screen arm: the class bits are a multiple of 0x1000, never 0x00E0.
        assert false;
      } else if cls == 0x1000 {
        pc := nnn as int;
        pc := pc - 2;
        assert Model() == s0.(pc := NNN(s0.opcode) as int - 2);
      } else if cls == 0x6000 {
        v[x] := kk;
        assert Model() == s0.(v := s0.v[X(s0.opcode) := KK(s0.opcode)]);
      } else if cls == 0xA000 {
        i := nnn;
        assert Model() == s0.(i := NNN(s0.opcode));
      } else if cls == 0xD000 {
        DrawSprite(x, y, n);
      } else {
        // Invalid opcode: only reported.
        assert Model() == s0;
      }
    }

    /** The Dxyn arm of `execute`: clear VF, reduce V[x] and V[y] onto the
        screen, blit the sprite, raise the repaint flag. */
    method DrawSprite(x: nat, y: nat, n: u8)
      requires Valid() && x == X(opcode) && y == Y(opcode) && n == N(opcode)
      requires CanDraw(Model())
      modifies this`drawFlag, v, gfx
      ensures Valid()
      ensures Model() == Draw(old(Model()))
    {
      ghost var s0 := Model();
      v[VF] := 0;
      if v[x] > DISP_X as u8 {
        v[x] := v[x] % DISP_X as u8;
      }
      if v[y] > DISP_Y as u8 {
        v[y] := v[y] % DISP_Y as u8;
      }
      ghost var regs := v[..];
      assert regs == DrawRegisters(s0.v, x, y);
      ghost var anchor := Anchor(regs, x, y);
      BlitSprite(x, y, n as nat);
      drawFlag := true;
      Properties.BlitBinary(s0.gfx, s0.mem, s0.i as int, anchor, n as nat);
    }

    /** The drawing loop has reached row dy, column dx: the framebuffer and VF
        are what the positions before it made of them, and every other
        register still holds its value from before the loop. */
    ghost predicate Drawn(g0: seq<bv8>, m: seq<bv8>, base: int, anchor: int, n: nat,
                          regs: seq<u8>, dy: nat, dx: nat)
      reads this, v, gfx
    {
      0 <= base && (n == 0 || base + n <= |m|) && Properties.LoopPoint(n, dy, dx)
      && gfx.Length == GFX_SIZE && v.Length == NUM_VREGS && |regs| == NUM_VREGS
      && (forall r :: 0 <= r < NUM_VREGS && r != VF ==> v[r] == regs[r])
      && gfx[..] == Properties.BlitPrefix(g0, m, base, anchor, n, dy, dx)
      && v[VF] == if Properties.FlagPrefix(g0, m, base, anchor, n, dy, dx) then 1 else 0
    }

    /** The two nested loops of Dxyn: for each of the `n` sprite rows at I and
        each of its 8 columns, plot one sprite bit. */
    method BlitSprite(x: nat, y: nat, n: nat)
      requires mem.Length == MEM_SIZE && gfx.Length == GFX_SIZE && v.Length == NUM_VREGS
      requires mem != gfx && mem as object != v && gfx as object != v
      requires x < NUM_VREGS && y < NUM_VREGS && x != VF && y != VF && v[VF] == 0
      requires n == 0 || i as int + n <= MEM_SIZE
      requires InScreen(mem[..], i as int, Anchor(v[..], x, y), n)
      modifies v, gfx
      ensures gfx[..] == Blit(old(gfx[..]), mem[..], i as int, Anchor(old(v[..]), x, y), n)
      ensures v[..] == old(v[..])[VF :=
        if Collides(old(gfx[..]), mem[..], i as int, Anchor(old(v[..]), x, y), n) then 1 else 0]
    {
      ghost var g0, regs, m, base := gfx[..], v[..], mem[..], i as int;
      ghost var anchor := Anchor(regs, x, y);
      BlitRows(x, y, n, g0, m, base, anchor, regs);
      assert mem[..] == m && old(gfx[..]) == g0 && old(v[..]) == regs;
      assert gfx[..] == Properties.BlitPrefix(g0, m, base, anchor, n, n, 0);
      assert v[VF] == if Properties.FlagPrefix(g0, m, base, anchor, n, n, 0) then 1 else 0;
      assert v[..] == regs[VF := v[VF]];
      Properties.PrefixAll(g0, m, base, anchor, n);
    }

    /** The outer loop of Dxyn: the `n` sprite rows, top to bottom. */
    method BlitRows(x: nat, y: nat, n: nat, ghost g0: seq<bv8>, ghost m: seq<bv8>,
                    ghost base: int, ghost anchor: int, ghost regs: seq<u8>)
      requires mem.Length == MEM_SIZE && mem != gfx && mem as object != v && gfx as object != v
      requires x < NUM_VREGS && y < NUM_VREGS && x != VF && y != VF
      requires m == mem[..] && base == i as int && Drawn(g0, m, base, anchor, n, regs, 0, 0)
      requires anchor == Anchor(regs, x, y)
      requires InScreen(m, base, anchor, n)
      modifies v, gfx
      ensures Drawn(g0, m, base, anchor, n, regs, n, 0)
    {
      var dy := 0;
      while dy < n
        invariant 0 <= dy <= n
        invariant mem[..] == m
        invariant Drawn(g0, m, base, anchor, n, regs, dy, 0)
      {
        BlitRow(x, y, dy, g0, m, base, anchor, n, regs);
        dy := dy + 1;
      }
    }

    /** The inner loop of Dxyn: sprite row dy is read once, then its 8
        columns are plotted left to right. */
    method BlitRow(x: nat, y: nat, dy: nat, ghost g0: seq<bv8>, ghost m: seq<bv8>,
                   ghost base: int, ghost anchor: int, ghost n: nat, ghost regs: seq<u8>)
      requires mem.Length == MEM_SIZE && mem != gfx && mem as object != v && gfx as object != v
      requires x < NUM_VREGS && y < NUM_VREGS && x != VF && y != VF && dy < n
      requires m == mem[..] && base == i as int && Drawn(g0, m, base, anchor, n, regs, dy, 0)
      requires anchor == Anchor(regs, x, y)
      requires InScreen(m, base, anchor, n)
      modifies v, gfx
      ensures Drawn(g0, m, base, anchor, n, regs, dy + 1, 0)
    {
      var px := mem[i as int + dy];
      var dx := 0;
      while dx < 8
        invariant 0 <= dx <= 8
        invariant Drawn(g0, m, base, anchor, n, regs, dy, dx)
      {
        PlotBit(x, y, px, dy, dx, g0, m, base, anchor, n, regs);
        dx := dx + 1;
      }
    }

    /** One pass of the inner loop of Dxyn: when bit `0x80 >> dx` of sprite row
        dy (read by the caller into `px`) is set, the pixel at `V[x] + dx + (V[y] + dy)*64` is XOR-ed with 1,
        and VF becomes 1 if that pixel was lit. V[x] and V[y] are re-read, as in
        the source. */
    method PlotBit(x: nat, y: nat, px: bv8, dy: nat, dx: nat, ghost g0: seq<bv8>, ghost m: seq<bv8>,
                   ghost base: int, ghost anchor: int, ghost n: nat, ghost regs: seq<u8>)
      requires mem.Length == MEM_SIZE && mem != gfx && mem as object != v && gfx as object != v
      requires x < NUM_VREGS && y < NUM_VREGS && x != VF && y != VF && dy < n && dx < 8
      requires m == mem[..] && base == i as int && Drawn(g0, m, base, anchor, n, regs, dy, dx)
      requires 0 <= base + dy < |m| && px == m[base + dy]
      requires anchor == Anchor(regs, x, y)
      requires InScreen(m, base, anchor, n)
      modifies v, gfx
      ensures Drawn(g0, m, base, anchor, n, regs, dy, dx + 1)
    {
      ColumnMaskShift(dx);
      ghost var p := anchor + dx + dy * DISP_X;
      ghost var before := gfx[..];
      Properties.PrefixStep(g0, m, base, anchor, n, dy, dx, p);
      if px & (0x80 >> dx) != 0 {
        assert SpriteBit(m[base + dy], dx);
        var idx := v[x] as int + dx + (v[y] as int + dy) * DISP_X;
        assert idx == p < GFX_SIZE;
        if gfx[idx] != 0 {
          v[VF] := 1;
        }
        gfx[idx] := gfx[idx] ^ 1;
        assert gfx[..] == before[p := before[p] ^ 1];
      } else {
        assert !SpriteBit(m[base + dy], dx) && gfx[..] == before;
      }
    }

    /** `cycle`: fetch, execute, then step the program counter by 2. */
    method Cycle()
      requires Valid() && CanCycle(Model())
      modifies this`opcode, this`pc, this`i, this`drawFlag, v, gfx
      ensures Valid()
      ensures Model() == Semantics.Cycle(old(Model()))
    {
      Fetch();
      Execute();
      pc := pc + 2;
    }

    /** The part of `print_screen` that belongs to the machine: after the
        screen has been painted the repaint flag is lowered. */
    method PrintScreen()
      requires Valid()
      modifies this`drawFlag
      ensures Valid()
      ensures !drawFlag
      ensures Model() == old(Model()).(drawFlag := false)
    {
      if drawFlag {
        drawFlag := false;
      }
    }
  }
}

/** What each instruction, the cycle and a repeated draw do to the machine
    state, stated on the definitions of module Semantics (src/chip8.rs). */
module Effects {
  import opened Uint
  import opened Decoder
  import opened Semantics
  import Properties

  /** The four instruction classes `execute` implements. */
  predicate Handled(op: u16)
  {
    var cls := Class(op);
    cls == 0x1000 || cls == 0x6000 || cls == 0xA000 || cls == 0xD000
  }

  // ------------------------------------------------------------------ cycle

  /** A cycle leaves the fetched word in `opcode` and moves the program
      counter on by 2, except after a jump, which lands exactly on `nnn`. */
  lemma CyclePc(s: State)
    requires CanCycle(s)
    ensures var op := FetchWord(s.mem, s.pc);
      Cycle(s).opcode == op
      && Cycle(s).pc == if Class(op) == 0x1000 then NNN(op) as int else s.pc + 2
  {
  }

  /** A word outside the implemented classes changes nothing but `opcode`
      and the program counter, which still advances by 2. */
  lemma InvalidCycle(s: State)
    requires CanCycle(s) && !Handled(FetchWord(s.mem, s.pc))
    ensures Cycle(s) == s.(opcode := FetchWord(s.mem, s.pc), pc := s.pc + 2)
  {
  }

  // ---------------------------------------------------- single instructions

  /** 1nnn: the program counter becomes `nnn - 2`, nothing else changes. */
  lemma Jump(s: State)
    requires WellFormed(s) && Class(s.opcode) == 0x1000 && NNN(s.opcode) >= 2
    ensures Execute(s).pc + 2 == NNN(s.opcode) as int
    ensures Execute(s).(pc := s.pc) == s
  {
  }

  /** 6xkk: V[x] becomes kk; every other register and field is unchanged. */
  lemma LoadRegister(s: State)
    requires WellFormed(s) && Class(s.opcode) == 0x6000
    ensures Execute(s).v[X(s.opcode)] == KK(s.opcode)
    ensures forall k :: 0 <= k < NUM_VREGS && k != X(s.opcode) ==> Execute(s).v[k] == s.v[k]
    ensures Execute(s).(v := s.v) == s
  {
  }

  /** Annn: I becomes nnn; nothing else changes. */
  lemma SetIndex(s: State)
    requires WellFormed(s) && Class(s.opcode) == 0xA000
    ensures Execute(s).i == NNN(s.opcode)
    ensures Execute(s).(i := s.i) == s
  {
  }

  /** Every other word is reported as invalid and leaves the state as it was. */
  lemma Invalid(s: State)
    requires WellFormed(s) && !Handled(s.opcode)
    ensures Execute(s) == s
  {
  }

  /** 00E0 falls into the invalid arm: its class bits are 0, and the class
      bits of no word equal 0x00E0, so the clear-screen arm never runs. */
  lemma ClearScreenIsInvalid(s: State)
    requires WellFormed(s) && s.opcode == 0x00E0
    ensures forall op: u16 :: Class(op) != 0x00E0
    ensures Class(s.opcode) == 0 && Execute(s) == s
  {
    Decoder.FieldsOf(s.opcode, 0, 0, 14, 0);
  }

  // ------------------------------------------------------------------ Dxyn

  /** Dxyn on a binary screen: exactly the touched cells change; the screen
      stays binary; VF is 0 or 1, and 1 exactly when some pixel went from on
      to off; the registers other than V[x], V[y] and VF keep their values;
      the repaint flag is raised; memory, I, the program counter, keys,
      timers and opcode are untouched. */
  lemma DrawEffect(s: State)
    requires WellFormed(s) && CanDraw(s) && Binary(s.gfx)
    ensures var r, x, y := Draw(s), X(s.opcode), Y(s.opcode);
      forall c :: 0 <= c < GFX_SIZE ==>
        (r.gfx[c] != s.gfx[c] <==> Touched(s.mem, s.i as int, Anchor(DrawRegisters(s.v, x, y), x, y), N(s.opcode) as nat, c))
    ensures Binary(Draw(s).gfx)
    ensures Draw(s).v[VF] == 0 || Draw(s).v[VF] == 1
    ensures Draw(s).v[VF] == 1 <==> exists c :: 0 <= c < GFX_SIZE && s.gfx[c] == 1 && Draw(s).gfx[c] == 0
    ensures forall k :: 0 <= k < NUM_VREGS && k != X(s.opcode) && k != Y(s.opcode) && k != VF ==>
      Draw(s).v[k] == s.v[k]
    ensures Draw(s).drawFlag
    ensures Draw(s).(gfx := s.gfx, v := s.v, drawFlag := s.drawFlag) == s
  {
    var x, y, n := X(s.opcode), Y(s.opcode), N(s.opcode) as nat;
    var anchor := Anchor(DrawRegisters(s.v, x, y), x, y);
    var r := Draw(s);
    Properties.BlitBinary(s.gfx, s.mem, s.i as int, anchor, n);
    if Collides(s.gfx, s.mem, s.i as int, anchor, n) {
      var c :| 0 <= c < |s.gfx| && Touched(s.mem, s.i as int, anchor, n, c) && s.gfx[c] != 0;
      assert s.gfx[c] == 1 && r.gfx[c] == 0;
    }
    if exists c :: 0 <= c < GFX_SIZE && s.gfx[c] == 1 && r.gfx[c] == 0 {
      var c :| 0 <= c < GFX_SIZE && s.gfx[c] == 1 && r.gfx[c] == 0;
      assert Touched(s.mem, s.i as int, anchor, n, c);
    }
  }

  /** Blitting the same sprite twice at the same place restores the screen. */
  lemma BlitTwice(gfx: seq<bv8>, mem: seq<bv8>, i: int, anchor: int, n: nat)
    requires 0 <= i && (n == 0 || i + n <= |mem|)
    ensures Blit(Blit(gfx, mem, i, anchor, n), mem, i, anchor, n) == gfx
  {
    var once := Blit(gfx, mem, i, anchor, n);
    var twice := Blit(once, mem, i, anchor, n);
    forall c | 0 <= c < |gfx|
      ensures twice[c] == gfx[c]
    {
      if Touched(mem, i, anchor, n, c) {
        assert twice[c] == (gfx[c] ^ 1) ^ 1;
      }
    }
  }

  /** The prologue of Dxyn is idempotent: once V[x] and V[y] are on the
      screen, a second prologue leaves them there, whatever VF held. */
  lemma DrawRegistersTwice(v: seq<u8>, x: nat, y: nat, b: u8)
    requires |v| == NUM_VREGS && x < NUM_VREGS && y < NUM_VREGS && x != VF && y != VF
    ensures DrawRegisters(DrawRegisters(v, x, y)[VF := b], x, y) == DrawRegisters(v, x, y)
  {
    var once := DrawRegisters(v, x, y);
    var twice := DrawRegisters(once[VF := b], x, y);
    var v1 := v[VF := 0];
    var w := Wrap(v1[x], 64);
    var v2 := v1[x := w];
    assert once == v2[y := Wrap(v2[y], 32)];
    if x == y {
      assert once[x] == Wrap(w, 32) <= 32;
    } else {
      assert once[x] == w <= 64 && once[y] == Wrap(v[y], 32) <= 32;
    }
    assert Wrap(once[x], 64) == once[x];
    assert twice[x] == once[x] && twice[y] == once[y];
    assert twice == once;
  }

  /** Drawing the same Dxyn twice returns the screen to what it was. The
      second draw reports a collision exactly when some cell under a set bit
      was off before the first draw. */
  lemma DrawTwice(s: State)
    requires WellFormed(s) && CanDraw(s) && Binary(s.gfx)
    ensures CanDraw(Draw(s))
    ensures Draw(Draw(s)).gfx == s.gfx
    ensures var x, y := X(s.opcode), Y(s.opcode);
      Draw(Draw(s)).v[VF] == 1 <==>
        exists c :: 0 <= c < GFX_SIZE && s.gfx[c] == 0
          && Touched(s.mem, s.i as int, Anchor(DrawRegisters(s.v, x, y), x, y), N(s.opcode) as nat, c)
  {
    var x, y, n := X(s.opcode), Y(s.opcode), N(s.opcode) as nat;
    var regs := DrawRegisters(s.v, x, y);
    var anchor := Anchor(regs, x, y);
    var s1 := Draw(s);
    var b: u8 := if Collides(s.gfx, s.mem, s.i as int, anchor, n) then 1 else 0;
    DrawRegistersTwice(s.v, x, y, b);
    assert DrawRegisters(s1.v, x, y) == regs;
    BlitTwice(s.gfx, s.mem, s.i as int, anchor, n);
    Properties.BlitBinary(s.gfx, s.mem, s.i as int, anchor, n);
    if Collides(s1.gfx, s1.mem, s1.i as int, anchor, n) {
      var c :| 0 <= c < |s1.gfx| && Touched(s.mem, s.i as int, anchor, n, c) && s1.gfx[c] != 0;
      assert s.gfx[c] == 0;
    }
    if exists c :: 0 <= c < GFX_SIZE && s.gfx[c] == 0 && Touched(s.mem, s.i as int, anchor, n, c) {
      var c :| 0 <= c < GFX_SIZE && s.gfx[c] == 0 && Touched(s.mem, s.i as int, anchor, n, c);
      assert s1.gfx[c] == 1;
    }
  }

  /** Under `InScreen`, the sprite has a set bit exactly when some
      framebuffer cell is touched. */
  lemma SetBitTouches(mem: seq<bv8>, i: int, anchor: int, n: nat)
    requires 0 <= i && (n == 0 || i + n <= |mem|) && anchor >= 0 && InScreen(mem, i, anchor, n)
    ensures (exists a, dx :: i <= a < i + n && 0 <= dx < 8 && SpriteBit(mem[a], dx))
      <==> exists c :: 0 <= c < GFX_SIZE && Touched(mem, i, anchor, n, c)
  {
    if exists a, dx :: i <= a < i + n && 0 <= dx < 8 && SpriteBit(mem[a], dx) {
      var a, dx :| i <= a < i + n && 0 <= dx < 8 && SpriteBit(mem[a], dx);
      var c := anchor + dx + (a - i) * DISP_X;
      Properties.PositionCell(anchor, n, a - i, dx);
      assert Touched(mem, i, anchor, n, c);
    }
    if exists c :: 0 <= c < GFX_SIZE && Touched(mem, i, anchor, n, c) {
      var c :| 0 <= c < GFX_SIZE && Touched(mem, i, anchor, n, c);
      var a, dx := i + (c - anchor) / DISP_X, (c - anchor) % DISP_X;
      assert SpriteBit(mem[a], dx);
    }
  }

  /** On a blank screen the first draw of a sprite reports no collision, and
      drawing it again reports one exactly when the sprite has a set bit. */
  lemma DrawTwiceOnBlank(s: State)
    requires WellFormed(s) && CanDraw(s)
    requires forall c :: 0 <= c < GFX_SIZE ==> s.gfx[c] == 0
    ensures Draw(s).v[VF] == 0
    ensures CanDraw(Draw(s))
    ensures Draw(Draw(s)).v[VF] == 1 <==>
      exists a, dx :: s.i as int <= a < s.i as int + N(s.opcode) as int && 0 <= dx < 8 && SpriteBit(s.mem[a], dx)
  {
    var x, y, n := X(s.opcode), Y(s.opcode), N(s.opcode) as nat;
    var anchor := Anchor(DrawRegisters(s.v, x, y), x, y);
    assert Binary(s.gfx);
    DrawTwice(s);
    SetBitTouches(s.mem, s.i as int, anchor, n);
  }
}

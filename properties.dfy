/** What the interpreter's definitions promise: the sprite-order facts the
    drawing loop relies on, and the behaviour of each instruction, of the
    cycle and of a repeated draw. */
module Properties {
  import opened Decoder
  import opened Semantics
  import Arith

  // ------------------------------------------------ sprite drawing order

  /** (dy, dx) is a point of the drawing loop: within row dy < n after dx
      of its 8 columns, or at the end with all n rows done. */
  predicate LoopPoint(n: nat, dy: nat, dx: nat)
  {
    (dy < n && dx <= 8) || (dy == n && dx == 0)
  }

  /** The framebuffer when the drawing loop reaches row dy, column dx: every
      earlier position (ry, rx) XORs cell `anchor + rx + ry*64` with 1 when its
      sprite bit is set (a cell outside the framebuffer would be the source's
      out-of-range panic, and is skipped here). Only cells from the anchor up
      to the current position can have changed. */
  function BlitPrefix(gfx: seq<bv8>, mem: seq<bv8>, i: int, anchor: int, n: nat, dy: nat, dx: nat): (r: seq<bv8>)
    requires 0 <= i && (n == 0 || i + n <= |mem|) && LoopPoint(n, dy, dx)
    ensures |r| == |gfx|
    ensures forall c :: 0 <= c < |r| && (c < anchor || anchor + dy * DISP_X + dx <= c) ==> r[c] == gfx[c]
    decreases dy, dx
  {
    if dx == 0 then
      if dy == 0 then gfx else BlitPrefix(gfx, mem, i, anchor, n, dy - 1, 8)
    else
      var prev := BlitPrefix(gfx, mem, i, anchor, n, dy, dx - 1);
      var p := anchor + (dx - 1) + dy * DISP_X;
      if SpriteBit(mem[i + dy], dx - 1) && 0 <= p < |gfx| then prev[p := prev[p] ^ 1] else prev
  }

  /** VF when the drawing loop reaches row dy, column dx: some earlier set
      bit met a lit cell. So a sprite whose rows are all zero never raises it. */
  predicate FlagPrefix(gfx: seq<bv8>, mem: seq<bv8>, i: int, anchor: int, n: nat, dy: nat, dx: nat)
    requires 0 <= i && (n == 0 || i + n <= |mem|) && LoopPoint(n, dy, dx)
    ensures FlagPrefix(gfx, mem, i, anchor, n, dy, dx) ==> exists a :: i <= a < i + n && mem[a] != 0
    decreases dy, dx
  {
    if dx == 0 then
      dy != 0 && FlagPrefix(gfx, mem, i, anchor, n, dy - 1, 8)
    else
      var prev := BlitPrefix(gfx, mem, i, anchor, n, dy, dx - 1);
      var p := anchor + (dx - 1) + dy * DISP_X;
      FlagPrefix(gfx, mem, i, anchor, n, dy, dx - 1)
      || (SpriteBit(mem[i + dy], dx - 1) && 0 <= p < |gfx| && prev[p] != 0)
  }

  /** One iteration of the drawing loop, at row dy and column dx. */
  lemma PrefixStep(gfx: seq<bv8>, mem: seq<bv8>, i: int, anchor: int, n: nat, dy: nat, dx: nat, p: int)
    requires 0 <= i && (n == 0 || i + n <= |mem|) && dy < n && dx < 8
    requires p == anchor + dx + dy * DISP_X
    ensures var before := BlitPrefix(gfx, mem, i, anchor, n, dy, dx);
      BlitPrefix(gfx, mem, i, anchor, n, dy, dx + 1)
        == if SpriteBit(mem[i + dy], dx) && 0 <= p < |gfx| then before[p := before[p] ^ 1] else before
    ensures var before := BlitPrefix(gfx, mem, i, anchor, n, dy, dx);
      FlagPrefix(gfx, mem, i, anchor, n, dy, dx + 1)
        == (FlagPrefix(gfx, mem, i, anchor, n, dy, dx) || (SpriteBit(mem[i + dy], dx) && 0 <= p < |gfx| && before[p] != 0))
  {
  }

  /** Cell `c` is addressed by a set sprite bit at one of the positions the
      drawing loop has passed when it reaches row dy, column dx. */
  predicate ToggledAt(mem: seq<bv8>, i: int, anchor: int, n: nat, c: int, dy: nat, dx: nat)
    requires 0 <= i && (n == 0 || i + n <= |mem|) && LoopPoint(n, dy, dx)
    decreases dy, dx
  {
    if dx == 0 then
      dy != 0 && ToggledAt(mem, i, anchor, n, c, dy - 1, 8)
    else
      ToggledAt(mem, i, anchor, n, c, dy, dx - 1)
      || (c == anchor + (dx - 1) + dy * DISP_X && SpriteBit(mem[i + dy], dx - 1))
  }

  /** Some cell the loop has toggled when it reaches (dy, dx) was lit before the draw. */
  predicate CollidesAt(gfx: seq<bv8>, mem: seq<bv8>, i: int, anchor: int, n: nat, dy: nat, dx: nat)
    requires 0 <= i && (n == 0 || i + n <= |mem|) && LoopPoint(n, dy, dx)
  {
    exists c :: 0 <= c < |gfx| && ToggledAt(mem, i, anchor, n, c, dy, dx) && gfx[c] != 0
  }

  /** The position of a window cell in drawing order, row after row, 8 per row. */
  function Rank(anchor: int, c: int): int
    requires c >= anchor
  {
    (c - anchor) / DISP_X * 8 + (c - anchor) % DISP_X
  }

  /** Cell `c` is toggled by one of the first `k` sprite positions in drawing order. */
  predicate ToggledBy(mem: seq<bv8>, i: int, anchor: int, n: nat, c: int, k: int)
    requires 0 <= i && (n == 0 || i + n <= |mem|)
  {
    InWindow(anchor, n, c) && Rank(anchor, c) < k
    && SpriteBit(mem[i + (c - anchor) / DISP_X], (c - anchor) % DISP_X)
  }

  /** The cell that sprite position (dy, dx) addresses lies in the window,
      in row dy and column dx. */
  lemma PositionCell(anchor: int, n: nat, dy: int, dx: int)
    requires 0 <= dy < n && 0 <= dx < 8
    ensures InWindow(anchor, n, anchor + dx + dy * DISP_X)
    ensures (dx + dy * DISP_X) / DISP_X == dy && (dx + dy * DISP_X) % DISP_X == dx
    ensures Rank(anchor, anchor + dx + dy * DISP_X) == dy * 8 + dx
  {
    Arith.DivMod(dx + dy * DISP_X, DISP_X, dy, dx);
  }

  /** Drawing position k = dy*8 + dx toggles exactly the cell
      `anchor + dx + dy*64`, and only when its sprite bit is set; no earlier
      position reached that cell. */
  lemma ToggleStep(mem: seq<bv8>, i: int, anchor: int, n: nat, dy: int, dx: int, c: int)
    requires 0 <= i && (n == 0 || i + n <= |mem|)
    requires 0 <= dy < n && 0 <= dx < 8
    ensures ToggledBy(mem, i, anchor, n, c, dy * 8 + dx + 1) <==>
      (ToggledBy(mem, i, anchor, n, c, dy * 8 + dx)
       || (c == anchor + dx + dy * DISP_X && SpriteBit(mem[i + dy], dx)))
    ensures !ToggledBy(mem, i, anchor, n, anchor + dx + dy * DISP_X, dy * 8 + dx)
  {
    var k := dy * 8 + dx;
    PositionCell(anchor, n, dy, dx);
    if c != anchor + dx + dy * DISP_X && InWindow(anchor, n, c) && Rank(anchor, c) == k {
      var row, col := (c - anchor) / DISP_X, (c - anchor) % DISP_X;
      Arith.DivMod(k, 8, row, col);
      Arith.DivMod(k, 8, dy, dx);
      assert false;
    }
  }

  /** The cells toggled by the time the loop reaches (dy, dx) are those of
      rank below dy*8 + dx under a set bit. */
  lemma {:induction false} ToggledRank(mem: seq<bv8>, i: int, anchor: int, n: nat, c: int, dy: nat, dx: nat)
    requires 0 <= i && (n == 0 || i + n <= |mem|) && LoopPoint(n, dy, dx)
    ensures ToggledAt(mem, i, anchor, n, c, dy, dx) <==> ToggledBy(mem, i, anchor, n, c, dy * 8 + dx)
    decreases dy, dx
  {
    if dx == 0 {
      if dy > 0 {
        ToggledRank(mem, i, anchor, n, c, dy - 1, 8);
        assert (dy - 1) * 8 + 8 == dy * 8;
      }
    } else {
      ToggledRank(mem, i, anchor, n, c, dy, dx - 1);
      ToggleStep(mem, i, anchor, n, dy, dx - 1, c);
      assert dy * 8 + (dx - 1) + 1 == dy * 8 + dx;
    }
  }

  /** The cell of position (dy, dx) has not been toggled before the loop reaches it. */
  lemma NotYetToggled(mem: seq<bv8>, i: int, anchor: int, n: nat, dy: nat, dx: nat)
    requires 0 <= i && (n == 0 || i + n <= |mem|) && dy < n && dx < 8
    ensures !ToggledAt(mem, i, anchor, n, anchor + dx + dy * DISP_X, dy, dx)
  {
    ToggledRank(mem, i, anchor, n, anchor + dx + dy * DISP_X, dy, dx);
    ToggleStep(mem, i, anchor, n, dy, dx, anchor + dx + dy * DISP_X);
  }

  /** Cell `c` of the loop's framebuffer at (dy, dx) is XOR-ed exactly when
      the loop has toggled it. */
  lemma {:induction false} PrefixCell(gfx: seq<bv8>, mem: seq<bv8>, i: int, anchor: int, n: nat, dy: nat, dx: nat, c: int)
    requires 0 <= i && (n == 0 || i + n <= |mem|) && LoopPoint(n, dy, dx) && 0 <= c < |gfx|
    ensures BlitPrefix(gfx, mem, i, anchor, n, dy, dx)[c]
      == if ToggledAt(mem, i, anchor, n, c, dy, dx) then gfx[c] ^ 1 else gfx[c]
    decreases dy, dx
  {
    if dx == 0 {
      if dy > 0 {
        PrefixCell(gfx, mem, i, anchor, n, dy - 1, 8, c);
      }
    } else {
      PrefixCell(gfx, mem, i, anchor, n, dy, dx - 1, c);
      NotYetToggled(mem, i, anchor, n, dy, dx - 1);
    }
  }

  /** The collision flag gains position (dy, dx) exactly when its bit is set
      and its cell was lit before the draw. */
  lemma CollideStep(gfx: seq<bv8>, mem: seq<bv8>, i: int, anchor: int, n: nat, dy: nat, dx: nat)
    requires 0 <= i && (n == 0 || i + n <= |mem|) && dy < n && dx < 8
    ensures var p := anchor + dx + dy * DISP_X;
      CollidesAt(gfx, mem, i, anchor, n, dy, dx + 1) <==>
        (CollidesAt(gfx, mem, i, anchor, n, dy, dx)
         || (SpriteBit(mem[i + dy], dx) && 0 <= p < |gfx| && gfx[p] != 0))
  {
    var p := anchor + dx + dy * DISP_X;
    if CollidesAt(gfx, mem, i, anchor, n, dy, dx + 1) {
      var c :| 0 <= c < |gfx| && ToggledAt(mem, i, anchor, n, c, dy, dx + 1) && gfx[c] != 0;
    }
    if SpriteBit(mem[i + dy], dx) && 0 <= p < |gfx| && gfx[p] != 0 {
      assert ToggledAt(mem, i, anchor, n, p, dy, dx + 1);
    }
    if CollidesAt(gfx, mem, i, anchor, n, dy, dx) {
      var c :| 0 <= c < |gfx| && ToggledAt(mem, i, anchor, n, c, dy, dx) && gfx[c] != 0;
      assert ToggledAt(mem, i, anchor, n, c, dy, dx + 1);
    }
  }

  /** The loop's flag at (dy, dx) is raised exactly when a cell it toggled
      was lit before the draw. */
  lemma {:induction false} PrefixFlag(gfx: seq<bv8>, mem: seq<bv8>, i: int, anchor: int, n: nat, dy: nat, dx: nat)
    requires 0 <= i && (n == 0 || i + n <= |mem|) && LoopPoint(n, dy, dx)
    ensures FlagPrefix(gfx, mem, i, anchor, n, dy, dx) <==> CollidesAt(gfx, mem, i, anchor, n, dy, dx)
    decreases dy, dx
  {
    if dx == 0 {
      if dy > 0 {
        PrefixFlag(gfx, mem, i, anchor, n, dy - 1, 8);
        if CollidesAt(gfx, mem, i, anchor, n, dy - 1, 8) {
          var c :| 0 <= c < |gfx| && ToggledAt(mem, i, anchor, n, c, dy - 1, 8) && gfx[c] != 0;
          assert ToggledAt(mem, i, anchor, n, c, dy, 0);
        }
      }
    } else {
      PrefixFlag(gfx, mem, i, anchor, n, dy, dx - 1);
      CollideStep(gfx, mem, i, anchor, n, dy, dx - 1);
      var p := anchor + (dx - 1) + dy * DISP_X;
      if 0 <= p < |gfx| {
        PrefixCell(gfx, mem, i, anchor, n, dy, dx - 1, p);
        NotYetToggled(mem, i, anchor, n, dy, dx - 1);
      }
    }
  }

  /** After all 8*n positions the loop has produced `Blit` and its flag is `Collides`. */
  lemma PrefixAll(gfx: seq<bv8>, mem: seq<bv8>, i: int, anchor: int, n: nat)
    requires 0 <= i && (n == 0 || i + n <= |mem|)
    ensures BlitPrefix(gfx, mem, i, anchor, n, n, 0) == Blit(gfx, mem, i, anchor, n)
    ensures FlagPrefix(gfx, mem, i, anchor, n, n, 0) <==> Collides(gfx, mem, i, anchor, n)
  {
    PrefixFlag(gfx, mem, i, anchor, n, n, 0);
    forall c | 0 <= c < |gfx|
      ensures BlitPrefix(gfx, mem, i, anchor, n, n, 0)[c] == Blit(gfx, mem, i, anchor, n)[c]
      ensures ToggledAt(mem, i, anchor, n, c, n, 0) <==> Touched(mem, i, anchor, n, c)
    {
      PrefixCell(gfx, mem, i, anchor, n, n, 0, c);
      ToggledRank(mem, i, anchor, n, c, n, 0);
    }
    if Collides(gfx, mem, i, anchor, n) {
      var c :| 0 <= c < |gfx| && Touched(mem, i, anchor, n, c) && gfx[c] != 0;
      assert ToggledAt(mem, i, anchor, n, c, n, 0);
    }
    assert BlitPrefix(gfx, mem, i, anchor, n, n, 0) == Blit(gfx, mem, i, anchor, n);
  }

  /** XOR-blitting keeps every pixel 0 or 1. */
  lemma BlitBinary(gfx: seq<bv8>, mem: seq<bv8>, i: int, anchor: int, n: nat)
    requires 0 <= i && (n == 0 || i + n <= |mem|)
    requires Binary(gfx)
    ensures Binary(Blit(gfx, mem, i, anchor, n))
  {
  }
}

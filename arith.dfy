/** Small facts about integer division, shared by the decoder and the sprite blit. */
module Arith {

  /** Quotient and remainder are unique: if `w == q*m + r` with `0 <= r < m`,
      then Euclidean division of `w` by `m` gives exactly `q` and `r`. */
  lemma DivMod(w: int, m: int, q: int, r: int)
    requires m > 0 && 0 <= r < m && w == q * m + r
    ensures w / m == q && w % m == r
  {
    var q', r' := w / m, w % m;
    assert (q - q') * m == r' - r;
    if q > q' {
      assert (q - q') * m >= m by { MulAtLeast(q - q', m); }
    } else if q < q' {
      assert (q' - q) * m >= m by { MulAtLeast(q' - q, m); }
    }
  }

  lemma MulAtLeast(k: int, m: int)
    requires k >= 1 && m > 0
    ensures k * m >= m
  {
  }

  /** A 16-bit value written as four base-16 digits `a b c d` yields each digit,
      and each low part, back under division and remainder. */
  lemma Digits(w: int, a: int, b: int, c: int, d: int)
    requires 0 <= a < 16 && 0 <= b < 16 && 0 <= c < 16 && 0 <= d < 16
    requires w == a * 4096 + b * 256 + c * 16 + d
    ensures w / 4096 == a && (w / 256) % 16 == b && (w / 16) % 16 == c && w % 16 == d
    ensures w % 256 == c * 16 + d && w % 4096 == b * 256 + c * 16 + d
  {
    DivMod(w, 4096, a, b * 256 + c * 16 + d);
    DivMod(w, 256, a * 16 + b, c * 16 + d);
    DivMod(a * 16 + b, 16, a, b);
    DivMod(w, 16, a * 256 + b * 16 + c, d);
    DivMod(a * 256 + b * 16 + c, 16, a * 16 + b, c);
  }

  /** Taking a remainder twice changes nothing. */
  lemma ModTwice(a: int, m: int)
    requires a >= 0 && m > 0
    ensures 0 <= a % m < m && (a % m) % m == a % m
  {
    DivMod(a % m, m, 0, a % m);
  }
}

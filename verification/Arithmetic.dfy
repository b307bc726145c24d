/** Facts about division that the solver does not find by itself. */
module Arithmetic {
  lemma DivIs(n: int, d: int, q: int, r: int)
    requires 0 <= r < d && n == q * d + r
    ensures n / d == q && n % d == r
  {
    var k := n / d - q;
    assert k * d == r - n % d;
    assert k >= 1 ==> k * d >= d;
    assert k <= -1 ==> k * d <= -d;
  }

  lemma DivMonotone(a: nat, b: nat, d: nat)
    requires d > 0 && a <= b
    ensures a / d <= b / d
  {
    var p, q := a / d, b / d;
    assert p > q ==> p * d >= (q + 1) * d;
  }

  lemma DivBelow(a: nat, w: nat, d: nat)
    requires d > 0 && a < w * d
    ensures a / d < w
  {
  }

  lemma DivAtLeast(t: nat, q: nat, w: nat)
    requires w > 0
    ensures t >= q * w <==> t / w >= q
  {
    assert t == t / w * w + t % w;
    assert t / w >= q ==> t / w * w >= q * w;
    assert t / w + 1 <= q ==> (t / w + 1) * w <= q * w;
  }

  lemma DivExact(t: nat, q: nat, w: nat)
    requires w > 0
    ensures q * w <= t < q * w + w <==> t / w == q
  {
    DivAtLeast(t, q, w);
    DivAtLeast(t, q + 1, w);
    assert (q + 1) * w == q * w + w;
  }

  lemma DivShift(t: nat, q: nat, w: nat)
    requires w > 0 && t >= q * w
    ensures (t - q * w) / w + q == t / w
  {
    var y := t - q * w;
    assert t == (y / w + q) * w + y % w;
    DivIs(t, w, y / w + q, y % w);
  }

  lemma DivNext(t: nat, f: nat, w: nat)
    requires w > 0 && t >= f + w
    ensures t / w >= f / w + 1
  {
    DivAtLeast(t, f / w + 1, w);
    assert (f / w + 1) * w == f / w * w + w;
  }

  lemma DivInterval(t: nat, f: nat, k: nat, w: nat)
    requires w > 0
    ensures f / w * w + k * w <= t < f / w * w + k * w + w <==> t / w == f / w + k
  {
    DivExact(t, f / w + k, w);
    assert (f / w + k) * w == f / w * w + k * w;
  }

  /** The cell of a tick on a line of w cells of d ticks each. */
  lemma NestedDiv(t: nat, w: nat, d: nat)
    requires w > 0 && d > 0
    ensures w * d > 0 && t % (w * d) / d == t / d % w
    ensures t % d == 0 ==> t % (w * d) % d == 0
  {
    assert w * d > 0;
    var q, r := t / (w * d), t % (w * d);
    var a, b := r / d, r % d;
    assert q * (w * d) == (q * w) * d;
    assert t == (q * w + a) * d + b;
    DivIs(t, d, q * w + a, b);
    DivBelow(r, w, d);
    DivIs(q * w + a, w, q, a);
  }

  /** Two numbers less than d apart have different remainders. */
  lemma NearbyRemainders(s: nat, t: nat, d: nat)
    requires d > 0 && s < t < s + d
    ensures s % d != t % d
  {
    var k, r := s / d, s % d;
    assert s == k * d + r;
    if t < k * d + d {
      DivIs(t, d, k, t - k * d);
    } else {
      assert t == (k + 1) * d + (t - k * d - d);
      DivIs(t, d, k + 1, t - k * d - d);
    }
  }
}

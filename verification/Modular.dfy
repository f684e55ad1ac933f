/** Ring positions modulo the capacity. */
module Modular {
  lemma MulAtLeast(cap: nat, k: nat)
    requires k >= 1
    ensures cap * k >= cap
  {
    assert cap * k == cap * (k - 1) + cap;
  }

  lemma SmallMultiple(cap: int, k: int)
    requires cap > 0 && -cap < cap * k < cap
    ensures k == 0
  {
    if k >= 1 {
      MulAtLeast(cap, k);
    } else if k <= -1 {
      assert cap * (-k) == -(cap * k);
      MulAtLeast(cap, -k);
    }
  }

  lemma Remainder(cap: nat, x: nat, b: int, t: nat)
    requires t < cap && x == cap * b + t
    ensures x % cap == t
  {
    var b', t' := x / cap, x % cap;
    assert x == cap * b' + t';
    assert cap * (b - b') == cap * b - cap * b';
    SmallMultiple(cap, b - b');
  }

  /** Two positions less than a lap apart use different cells. */
  lemma CellsDiffer(p: nat, q: nat, cap: nat)
    requires cap > 0 && p < q < p + cap
    ensures p % cap != q % cap
  {
    var a, b := p / cap, q / cap;
    assert p == cap * a + p % cap && q == cap * b + q % cap;
    if p % cap == q % cap {
      assert q - p == cap * b - cap * a == cap * (b - a);
      SmallMultiple(cap, b - a);
    }
  }

  /** A position one lap on uses the same cell. */
  lemma NextLap(p: nat, cap: nat)
    requires cap > 0
    ensures (p + cap) % cap == p % cap
  {
    assert p == cap * (p / cap) + p % cap;
    assert cap * (p / cap + 1) == cap * (p / cap) + cap;
    Remainder(cap, p + cap, p / cap + 1, p % cap);
  }

  /** Every cell serves one position of any given lap. */
  lemma InLap(from: nat, pos: nat, cap: nat) returns (q: nat)
    requires cap > 0
    ensures from <= q < from + cap && q % cap == pos % cap
  {
    var r, t := pos % cap, from % cap;
    var a := from / cap;
    assert from == cap * a + t;
    if t <= r {
      q := from + (r - t);
      Remainder(cap, q, a, r);
    } else {
      q := from + (cap + r - t);
      assert cap * (a + 1) == cap * a + cap;
      Remainder(cap, q, a + 1, r);
    }
  }
}

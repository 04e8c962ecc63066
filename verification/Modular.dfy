// Division facts that the ring buffers, the wheels and the codecs share.
module Modular {

  lemma {:induction false} MulAtLeast(n: int, x: int)
    requires n > 0 && x >= 1
    ensures n * x >= n
  {
    assert n * x == n + n * (x - 1);
  }

  lemma {:induction false} DivModUnique(n: int, q: int, r: int)
    requires n > 0 && 0 <= r < n
    ensures (n * q + r) / n == q && (n * q + r) % n == r
  {
    var v := n * q + r;
    var d := v / n - q;
    assert v == n * (v / n) + v % n;
    assert n * d == r - v % n;
    if d >= 1 {
      MulAtLeast(n, d);
    } else if d <= -1 {
      assert n * -d == -(n * d);
      MulAtLeast(n, -d);
    }
  }

  lemma {:induction false} SameModWithinOneLap(n: int, p: int, q: int)
    requires 0 < n && p < q <= p + n
    ensures p % n == q % n <==> q == p + n
  {
    if p % n == q % n {
      var d := q / n - p / n;
      assert p == n * (p / n) + p % n && q == n * (q / n) + q % n;
      assert q - p == n * d;
      if d >= 2 {
        MulAtLeast(n, d - 1);
      } else if d < 0 {
        MulAtLeast(n, -d);
      }
    }
    if q == p + n {
      assert q == n * (p / n + 1) + p % n;
      DivModUnique(n, p / n + 1, p % n);
    }
  }

  lemma {:induction false} SameModIffDifferenceDivides(n: int, p: int, q: int)
    requires 0 < n
    ensures p % n == q % n <==> (q - p) % n == 0
  {
    var a, b := p / n, q / n;
    assert p == n * a + p % n && q == n * b + q % n;
    assert q - p == n * (b - a) + (q % n - p % n);
    if q % n >= p % n {
      DivModUnique(n, b - a, q % n - p % n);
    } else {
      assert q - p == n * (b - a - 1) + (n + q % n - p % n);
      DivModUnique(n, b - a - 1, n + q % n - p % n);
    }
  }
}

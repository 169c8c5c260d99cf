/**
 Masked ring indices.  The ring keeps its four indices as `ticket & mask`, where
 the size is a power of two and the mask is the size minus one
 (src/util/mercury_atomic_queue.c, hg_atomic_queue_alloc).  The lemmas here turn
 the bit mask into a remainder and say when two tickets with the same masked
 value are the same ticket.
 */
module Masking {

  function Pow2(k: nat): (r: nat)
    ensures r >= 1
  {
    if k == 0 then 1 else 2 * Pow2(k - 1)
  }

  ghost predicate IsPow2(n: nat)
  {
    exists k: nat :: n == Pow2(k)
  }

  /** Bitwise AND of two naturals, bit by bit. */
  function BitAnd(x: nat, y: nat): nat
  {
    if x == 0 || y == 0 then 0
    else (if x % 2 == 1 && y % 2 == 1 then 1 else 0) + 2 * BitAnd(x / 2, y / 2)
  }

  lemma {:induction false} HalvesMod(x: nat, m: nat)
    requires m >= 1
    ensures x % (2 * m) == x % 2 + 2 * ((x / 2) % m)
  {
    var q, r := (x / 2) / m, (x / 2) % m;
    assert x / 2 == q * m + r;
    assert x == (2 * m) * q + (x % 2 + 2 * r);
    RemainderIs(x, 2 * m, q, x % 2 + 2 * r);
  }

  lemma RemainderIs(x: nat, n: nat, q: int, r: nat)
    requires n >= 1 && x == n * q + r && r < n
    ensures x % n == r
  {
    var d := x / n - q;
    assert x == n * (x / n) + x % n;
    assert n * d == r - x % n;
    MultipleSize(n, d);
  }

  /** A non-zero multiple of `n` is at least `n` away from zero. */
  lemma MultipleSize(n: int, d: int)
    requires n >= 1
    ensures d >= 1 ==> n * d >= n
    ensures d <= -1 ==> n * d <= -n
  {
    if d >= 1 {
      assert n * d == n + n * (d - 1);
    } else if d <= -1 {
      assert n * d == -n + n * (d + 1);
    }
  }

  /** `x & (2^k - 1)` is `x mod 2^k`. */
  lemma {:induction false} MaskIsMod(x: nat, k: nat)
    ensures BitAnd(x, Pow2(k) - 1) == x % Pow2(k)
  {
    if k == 0 || x == 0 {
      assert x % 1 == 0;
    } else {
      var m := Pow2(k - 1);
      var y := 2 * m - 1;
      assert y % 2 == 1 && y / 2 == m - 1;
      MaskIsMod(x / 2, k - 1);
      HalvesMod(x, m);
      assert x % 2 == 0 || x % 2 == 1;
    }
  }

  lemma MaskedBySize(x: nat, mask: nat)
    requires IsPow2(mask + 1)
    ensures BitAnd(x, mask) == x % (mask + 1)
  {
    var k: nat :| mask + 1 == Pow2(k);
    MaskIsMod(x, k);
  }

  /** Two tickets less than one revolution apart with the same masked value are equal. */
  lemma SameResidue(t: nat, u: nat, n: nat)
    requires n >= 1 && t <= u < t + n && t % n == u % n
    ensures t == u
  {
    var d := u / n - t / n;
    assert u - t == n * d by {
      assert u == n * (u / n) + u % n;
      assert t == n * (t / n) + t % n;
    }
    MultipleSize(n, d);
  }

  /** Advancing a masked index and masking again is masking the advanced ticket. */
  lemma SuccResidue(t: nat, n: nat)
    requires n >= 1
    ensures (t % n + 1) % n == (t + 1) % n
  {
    var q, r := t / n, t % n;
    assert t == n * q + r;
    if r + 1 < n {
      RemainderIs(t + 1, n, q, r + 1);
      RemainderIs(r + 1, n, 0, r + 1);
    } else {
      assert t + 1 == n * (q + 1) + 0 by {
        assert n * (q + 1) == n * q + n;
      }
      RemainderIs(t + 1, n, q + 1, 0);
      RemainderIs(n, n, 1, 0);
    }
  }

  /** One whole revolution later the masked value is the same. */
  lemma Revolution(t: nat, n: nat)
    requires n >= 1
    ensures (t + n) % n == t % n
  {
    var q, r := t / n, t % n;
    assert t + n == n * (q + 1) + r by {
      assert t == n * q + r;
      assert n * (q + 1) == n * q + n;
    }
    RemainderIs(t + n, n, q + 1, r);
  }

  /** The difference of two residues, kept positive, leaves the residue of the difference. */
  lemma ResidueOfDifference(a: nat, b: nat, n: nat)
    requires n >= 1
    ensures n + b % n - a % n >= 0 && (n + b % n - a % n) % n == (b - a) % n
    ensures (b - a) % n == b - a <==> 0 <= b - a < n
  {
    var qa, qb, q, r := a / n, b / n, (b - a) / n, (b - a) % n;
    assert a == n * qa + a % n && b == n * qb + b % n && b - a == n * q + r;
    assert n + b % n - a % n == n * (1 + qa - qb + q) + r;
    RemainderIs(n + b % n - a % n, n, 1 + qa - qb + q, r);
    if 0 <= b - a < n {
      RemainderIs(b - a, n, 0, b - a);
    }
  }
}

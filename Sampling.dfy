/**
 * The sample size `PhotosLoader.decodeFile` picks: starting from the image's
 * bounds it halves both dimensions (Java `int` division) and doubles the scale
 * for as long as both halves stay at least REQUIRED_SIZE.
 */
module Sampling {
  import opened JavaLang

  const REQUIRED_SIZE: int := 85

  function Pow2(k: nat): (p: int)
    ensures p >= 1
  {
    if k == 0 then 1 else 2 * Pow2(k - 1)
  }

  /** A dimension after `k` rounds of `x /= 2`. */
  function Halve(a: int, k: nat): int
  {
    if k == 0 then a else Quot(Halve(a, k - 1), 2)
  }

  /** Whether the loop stops before halving (`width_tmp / 2 < REQUIRED_SIZE || height_tmp / 2 < REQUIRED_SIZE`). */
  predicate Stops(w: int, h: int)
  {
    Quot(w, 2) < REQUIRED_SIZE || Quot(h, 2) < REQUIRED_SIZE
  }

  /** How many times the loop halves, starting from the dimensions `w` by `h`. */
  function Rounds(w: int, h: int): nat
    decreases w
  {
    if Stops(w, h) then 0 else 1 + Rounds(Quot(w, 2), Quot(h, 2))
  }

  /** The `inSampleSize` the loop computes. */
  function SampleSize(w: int, h: int): int
  {
    Pow2(Rounds(w, h))
  }

  predicate IsPowerOfTwo(n: int)
    decreases if n > 0 then n else 0
  {
    n == 1 || (n > 1 && n % 2 == 0 && IsPowerOfTwo(n / 2))
  }

  lemma {:induction false} Pow2IsPowerOfTwo(k: nat)
    ensures IsPowerOfTwo(Pow2(k))
  {
    if k > 0 {
      Pow2IsPowerOfTwo(k - 1);
    }
  }

  /** Halving `k + 1` times is halving once and then `k` more times. */
  lemma {:induction false} HalveShift(a: int, k: nat)
    ensures Halve(Quot(a, 2), k) == Halve(a, k + 1)
  {
    if k > 0 {
      HalveShift(a, k - 1);
    }
  }

  /** Halving keeps a non-negative dimension non-negative. */
  lemma {:induction false} HalveNonNegative(a: int, k: nat)
    requires a >= 0
    ensures Halve(a, k) >= 0
  {
    if k > 0 {
      HalveNonNegative(a, k - 1);
    }
  }

  /** Halving never makes a non-negative dimension larger, so later rounds see smaller values. */
  lemma {:induction false} HalveMonotone(a: int, j: nat, k: nat)
    requires a >= 0 && j <= k
    ensures 0 <= Halve(a, k) <= Halve(a, j)
    decreases k
  {
    HalveNonNegative(a, k);
    if j < k {
      HalveMonotone(a, j, k - 1);
    }
  }

  lemma {:induction false} MulAtLeast(x: int, d: int)
    requires x >= 1 && d > 0
    ensures x * d >= d
    decreases x
  {
    if x > 1 {
      MulAtLeast(x - 1, d);
      assert x * d == (x - 1) * d + d;
    }
  }

  /** Euclidean division has one quotient: any `q` with `a == q * d + r` and `0 <= r < d` is `a / d`. */
  lemma DivUnique(a: int, d: int, q: int, r: int)
    requires d > 0 && a == q * d + r && 0 <= r < d
    ensures a / d == q
  {
    var Q, R := a / d, a % d;
    assert a == Q * d + R;
    assert (Q - q) * d == r - R;
    if Q > q {
      MulAtLeast(Q - q, d);
    } else if Q < q {
      MulAtLeast(q - Q, d);
    }
  }

  lemma DivDiv(a: int, m: int)
    requires a >= 0 && m > 0
    ensures (a / m) / 2 == a / (2 * m)
  {
    var q, r := a / m, a % m;
    var q2, r2 := q / 2, q % 2;
    assert a == q * m + r;
    assert q * m == q2 * (2 * m) + r2 * m by {
      assert q == 2 * q2 + r2;
    }
    if r2 == 0 {
      DivUnique(a, 2 * m, q2, r);
    } else {
      DivUnique(a, 2 * m, q2, m + r);
    }
  }

  /** Truncating division twice is truncating division by the product, on either side of zero. */
  lemma QuotQuot(a: int, p: int)
    requires p > 0
    ensures Quot(Quot(a, p), 2) == Quot(a, 2 * p)
  {
    if a >= 0 {
      DivDiv(a, p);
    } else {
      var x := (-a) / p;
      assert x >= 0;
      assert Quot(a, p) == -x;
      DivDiv(-a, p);
      assert x / 2 == (-a) / (2 * p);
    }
  }

  /** Repeated halving is one truncating division by the scale: `width_tmp == outWidth / scale`. */
  lemma {:induction false} HalveIsQuot(a: int, k: nat)
    ensures Halve(a, k) == Quot(a, Pow2(k))
  {
    if k > 0 {
      HalveIsQuot(a, k - 1);
      QuotQuot(a, Pow2(k - 1));
    }
  }

  /** The halved dimensions after `Rounds` rounds are where the loop leaves. */
  lemma {:induction false} RoundsExit(w: int, h: int)
    ensures Stops(Halve(w, Rounds(w, h)), Halve(h, Rounds(w, h)))
    ensures Rounds(w, h) > 0 ==> Halve(w, Rounds(w, h)) >= REQUIRED_SIZE && Halve(h, Rounds(w, h)) >= REQUIRED_SIZE
    decreases w
  {
    if !Stops(w, h) {
      var k := Rounds(Quot(w, 2), Quot(h, 2));
      RoundsExit(Quot(w, 2), Quot(h, 2));
      HalveShift(w, k);
      HalveShift(h, k);
    }
  }

  /** Part 2 of the loop's promise: how it leaves, and what that means for the scale. */
  lemma SampleSizeExit(w: int, h: int)
    ensures IsPowerOfTwo(SampleSize(w, h))
    ensures Stops(Quot(w, SampleSize(w, h)), Quot(h, SampleSize(w, h)))
    ensures SampleSize(w, h) > 1 ==> Quot(w, SampleSize(w, h)) >= REQUIRED_SIZE && Quot(h, SampleSize(w, h)) >= REQUIRED_SIZE
    ensures w < 2 * REQUIRED_SIZE || h < 2 * REQUIRED_SIZE ==> SampleSize(w, h) == 1
  {
    var k := Rounds(w, h);
    Pow2IsPowerOfTwo(k);
    RoundsExit(w, h);
    HalveIsQuot(w, k);
    HalveIsQuot(h, k);
  }

  /**
   * The scale is the largest power of two the loop could reach: any larger one
   * would bring a dimension below REQUIRED_SIZE.
   */
  lemma SampleSizeMaximal(w: int, h: int, j: nat)
    requires Pow2(j) > SampleSize(w, h)
    ensures Quot(w, Pow2(j)) < REQUIRED_SIZE || Quot(h, Pow2(j)) < REQUIRED_SIZE
  {
    var k := Rounds(w, h);
    Pow2Monotone(j, k);
    RoundsExit(w, h);
    HalveIsQuot(w, j);
    HalveIsQuot(h, j);
    HalveShift(w, k);
    HalveShift(h, k);
    if w >= 0 && h >= 0 {
      HalveMonotone(w, k + 1, j);
      HalveMonotone(h, k + 1, j);
    } else if w < 0 {
      HalveNegative(w, j);
    } else {
      HalveNegative(h, j);
    }
  }

  lemma {:induction false} Pow2Monotone(j: nat, k: nat)
    requires Pow2(j) > Pow2(k)
    ensures j > k
  {
    if j <= k {
      Pow2Grows(j, k);
    }
  }

  lemma {:induction false} Pow2Grows(j: nat, k: nat)
    requires j <= k
    ensures Pow2(j) <= Pow2(k)
    decreases k
  {
    if j < k {
      Pow2Grows(j, k - 1);
    }
  }

  lemma {:induction false} HalveNegative(a: int, k: nat)
    requires a <= 0
    ensures Halve(a, k) <= 0
  {
    if k > 0 {
      HalveNegative(a, k - 1);
    }
  }

  /** The scale never exceeds what the dimension can absorb: `scale * width_tmp <= outWidth`. */
  lemma {:induction false} ScaleBound(a: int, k: nat)
    requires a >= 0
    ensures Pow2(k) * Halve(a, k) <= a
  {
    if k > 0 {
      ScaleBound(a, k - 1);
      var p, x := Pow2(k - 1), Halve(a, k - 1);
      HalveNonNegative(a, k - 1);
      assert Halve(a, k) == x / 2;
      assert Pow2(k) * Halve(a, k) == p * (2 * (x / 2));
      assert p * (2 * (x / 2)) <= p * x by {
        assert p * x - p * (2 * (x / 2)) == p * (x % 2);
      }
    }
  }

  /** When the loop goes round once more, the doubled scale still fits in the dimension. */
  lemma NextScaleFits(a: int, k: nat)
    requires Quot(Halve(a, k), 2) >= REQUIRED_SIZE
    ensures a > 0 && Pow2(k + 1) <= a
  {
    if a <= 0 {
      HalveNegative(a, k);
    }
    ScaleBound(a, k + 1);
    MulAtLeast(Halve(a, k + 1), Pow2(k + 1));
    assert Halve(a, k + 1) * Pow2(k + 1) == Pow2(k + 1) * Halve(a, k + 1);
  }

  /**
   * The loop of `decodeFile` on Java `int`s, from the bounds of the image.
   * `break` leaves when either halved dimension would drop below REQUIRED_SIZE.
   */
  method ComputeScale(outWidth: int32, outHeight: int32) returns (scale: int32, widthTmp: int32, heightTmp: int32)
    ensures scale as int == SampleSize(outWidth as int, outHeight as int)
    ensures widthTmp as int == Quot(outWidth as int, scale as int)
    ensures heightTmp as int == Quot(outHeight as int, scale as int)
    ensures IsPowerOfTwo(scale as int)
    ensures Quot(widthTmp as int, 2) < REQUIRED_SIZE || Quot(heightTmp as int, 2) < REQUIRED_SIZE
    ensures scale > 1 ==> widthTmp as int >= REQUIRED_SIZE && heightTmp as int >= REQUIRED_SIZE
  {
    widthTmp, heightTmp := outWidth, outHeight;
    scale := 1;
    ghost var k: nat := 0;
    while true
      invariant widthTmp as int == Halve(outWidth as int, k) && heightTmp as int == Halve(outHeight as int, k)
      invariant scale as int == Pow2(k)
      invariant Rounds(outWidth as int, outHeight as int) == k + Rounds(widthTmp as int, heightTmp as int)
      decreases widthTmp as int
    {
      if Quot(widthTmp as int, 2) < REQUIRED_SIZE || Quot(heightTmp as int, 2) < REQUIRED_SIZE {
        break;
      }
      NextScaleFits(outWidth as int, k);
      widthTmp := Quot(widthTmp as int, 2) as int32;
      heightTmp := Quot(heightTmp as int, 2) as int32;
      scale := scale * 2;
      k := k + 1;
    }
    HalveIsQuot(outWidth as int, k);
    HalveIsQuot(outHeight as int, k);
    SampleSizeExit(outWidth as int, outHeight as int);
  }
}

/**
  The unsigned 16-bit float in which ACK delays are sent (quic-go/internal/utils/float16.go): 5 bits of
  exponent with bias 1, 11 bits of mantissa, an implicit leading bit, and denormals.
 */
module Float16 {
  import opened Basics

  /** The largest representable value, 4095 * 2^30. */
  const MAX_VALUE: nat := 0x3FFC0000000

  function Pow2(n: nat): (p: nat)
    ensures p >= 1
  {
    if n == 0 then 1 else 2 * Pow2(n - 1)
  }

  /** The value that 16 bits stand for. */
  function Decode(w: u16): nat {
    if w < 4096 then w
    else
      var exponent := w / 2048 - 1;
      (w - exponent * 2048) * Pow2(exponent)
  }

  /** Shift right one bit at a time until the highest bit is in position 11, counting the shifts. */
  function Normalize(value: nat, exponent: nat): nat {
    if value < 4096 then value + exponent * 2048 else Normalize(value / 2, exponent + 1)
  }

  /** The 16 bits for a value, by single shifts. */
  function Encode(value: nat): (w: u16) {
    if value < 4096 then value
    else if value >= MAX_VALUE then 0xFFFF
    else
      NormalizeBounds(value, 0);
      Normalize(value, 0)
  }

  // ----- Decoding -----

  /** The exponent with which a code is decoded. */
  function Exponent(w: u16): nat {
    if w < 2048 then 0 else w / 2048 - 1
  }

  /** The values of neighbouring codes differ by one unit of the lower code's last place. */
  lemma {:induction false} DecodeStep(w: u16)
    requires w < 0xFFFF
    ensures Decode(w + 1) == Decode(w) + Pow2(Exponent(w))
  {
    var e := Exponent(w);
    if 2048 <= w {
      var m := w - e * 2048;
      assert Decode(w) == m * Pow2(e);
      if m < 4095 {
        assert (w + 1) / 2048 == w / 2048;
        assert Decode(w + 1) == (m + 1) * Pow2(e);
      } else {
        assert (w + 1) / 2048 == w / 2048 + 1;
        assert Decode(w + 1) == 2048 * Pow2(e + 1);
      }
    }
  }

  lemma {:induction false} DecodeMonotone(w: u16, w': u16)
    requires w <= w'
    ensures Decode(w) <= Decode(w')
    ensures w < w' ==> Decode(w) < Decode(w')
    decreases w' - w
  {
    if w < w' {
      DecodeStep(w);
      DecodeMonotone(w + 1, w');
    }
  }

  // ----- Encoding -----

  /** The code found for `value` holds the leading bits of `value * 2^exponent`. */
  lemma {:induction false} NormalizeBounds(value: nat, exponent: nat)
    requires 2048 <= value && value * Pow2(exponent) < MAX_VALUE
    ensures 2048 <= Normalize(value, exponent) < 0xFFFF
    ensures var w := Normalize(value, exponent);
      Decode(w) <= value * Pow2(exponent) < (value + 1) * Pow2(exponent) <= Decode(w) + Pow2(Exponent(w))
    decreases value
  {
    var p := Pow2(exponent);
    if value < 4096 {
      ExponentBound(value, exponent);
    } else {
      var half := value / 2;
      assert half * Pow2(exponent + 1) == (2 * half) * p;
      assert (2 * half) * p <= value * p by { MulMonotone(2 * half, value, p); }
      assert (half + 1) * Pow2(exponent + 1) == (2 * half + 2) * p;
      assert (value + 1) * p <= (2 * half + 2) * p by { MulMonotone(value + 1, 2 * half + 2, p); }
      NormalizeBounds(half, exponent + 1);
      MulMonotone(value, value + 1, p);
    }
  }

  lemma {:induction false} MulMonotone(a: nat, b: nat, p: nat)
    requires a <= b
    ensures a * p <= b * p
    ensures a < b && 0 < p ==> a * p < b * p
  {
  }

  lemma {:induction false} Pow2Monotone(a: nat, b: nat)
    requires a <= b
    ensures Pow2(a) <= Pow2(b)
    decreases b - a
  {
    if a < b {
      Pow2Monotone(a + 1, b);
    }
  }

  lemma {:induction false} ExponentBound(value: nat, exponent: nat)
    requires 2048 <= value < 4096 && value * Pow2(exponent) < MAX_VALUE
    ensures exponent <= 30 && value + exponent * 2048 < 0xFFFF
    ensures Decode(value + exponent * 2048) == value * Pow2(exponent)
    ensures Exponent(value + exponent * 2048) == exponent
  {
    assert Pow2(30) == 0x4000_0000 && Pow2(31) == 0x8000_0000 by { Pow2Values(); }
    if exponent >= 31 {
      Pow2Monotone(31, exponent);
      MulMonotone(2048, value, Pow2(exponent));
    }
    assert 4095 * Pow2(30) == MAX_VALUE;
  }

  lemma {:induction false} Pow2Values()
    ensures Pow2(30) == 0x4000_0000 && Pow2(31) == 0x8000_0000
  {
    assert Pow2(5) == 32;
    assert Pow2(10) == 1024;
    assert Pow2(15) == 32768;
    assert Pow2(20) == 0x10_0000;
    assert Pow2(25) == 0x200_0000;
  }

  lemma {:induction false} DecodeMax()
    ensures Decode(0xFFFF) == MAX_VALUE
  {
    Pow2Values();
  }

  /** A code whose own value is not above `value`, while the next code's value is, is the best one. */
  lemma {:induction false} BestCode(value: nat, r: u16, w: u16)
    requires Decode(r) <= value && (r < 0xFFFF ==> value < Decode(r) + Pow2(Exponent(r)))
    ensures Decode(w) <= value ==> Decode(w) <= Decode(r)
  {
    if r < w {
      DecodeStep(r);
      DecodeMonotone(r + 1, w);
    } else {
      DecodeMonotone(w, r);
    }
  }

  /** The code stands for the largest representable value that is not above the given one. */
  lemma {:induction false} BestLowerApproximation(value: nat, w: u16)
    ensures Decode(Encode(value)) <= value
    ensures Decode(w) <= value ==> Decode(w) <= Decode(Encode(value))
  {
    if value >= MAX_VALUE {
      DecodeMax();
    } else if value >= 4096 {
      NormalizeBounds(value, 0);
    }
    BestCode(value, Encode(value), w);
  }

  /** Up to the largest value, the relative error is below one part in 2^11. */
  lemma {:induction false} RelativeError(value: nat)
    requires value <= MAX_VALUE
    ensures (value - Decode(Encode(value))) * 2048 < value || (value == 0 && Decode(Encode(value)) == 0)
  {
    BestLowerApproximation(value, 0);
    if value == MAX_VALUE {
      DecodeMax();
    } else if value >= 4096 {
      NormalizeBounds(value, 0);
      var w := Encode(value);
      var e := Exponent(w);
      assert Decode(w) == (w - e * 2048) * Pow2(e);
      MulMonotone(2048, w - e * 2048, Pow2(e));
    }
  }

  lemma {:induction false} EncodeMonotone(v: nat, v': nat)
    requires v <= v'
    ensures Encode(v) <= Encode(v')
  {
    BestLowerApproximation(v, 0);
    BestLowerApproximation(v', Encode(v));
    if Encode(v') < Encode(v) {
      DecodeMonotone(Encode(v'), Encode(v));
    }
  }

  /** Representable values survive the round trip. */
  lemma {:induction false} DecodeEncode(w: u16)
    ensures Encode(Decode(w)) == w
  {
    BestLowerApproximation(Decode(w), w);
    var r := Encode(Decode(w));
    DecodeMonotone(if r < w then r else w, if r < w then w else r);
  }

  // ----- The encoder's binary search -----

  lemma {:induction false} DivTwice(v: nat, m: nat)
    requires m > 0
    ensures (v / 2) / m == v / (2 * m)
  {
    var q, r := v / (2 * m), v % (2 * m);
    assert v == q * (2 * m) + r;
    assert v / 2 == q * m + r / 2 by { assert v == 2 * (q * m) + r; }
    assert r / 2 < m;
    QuotientUnique(v / 2, m, q, r / 2);
  }

  lemma {:induction false} QuotientUnique(v: nat, m: nat, q: nat, r: nat)
    requires v == q * m + r && r < m
    ensures v / m == q
  {
    var q', r' := v / m, v % m;
    assert v == q' * m + r' && (q' + 1) * m == q' * m + m && (q + 1) * m == q * m + m;
    if q' < q {
      MulMonotone(q' + 1, q, m);
    } else if q < q' {
      MulMonotone(q + 1, q', m);
    }
  }

  /** A shift by several bits is that many single shifts. */
  lemma {:induction false} NormalizeShift(value: nat, exponent: nat, k: nat)
    requires value >= 2048 * Pow2(k)
    ensures Normalize(value, exponent) == Normalize(value / Pow2(k), exponent + k)
    ensures value / Pow2(k) >= 2048
    decreases k
  {
    if k > 0 {
      assert value / 2 >= 2048 * Pow2(k - 1);
      NormalizeShift(value / 2, exponent + 1, k - 1);
      DivTwice(value, Pow2(k - 1));
    }
  }

  /** The loop that finds the exponent by halving the shift from 16 down to 1. */
  method EncodeFast(v: nat) returns (w: u16)
    requires v <= MAX_U64
    ensures w == Encode(v)
  {
    if v < 4096 {
      return v;
    }
    if v >= MAX_VALUE {
      return 0xFFFF;
    }
    var value, exponent, offset := v, 0, 16;
    assert 4096 * Pow2(31) == 0x800_0000_0000 by { Pow2Values(); }
    while offset > 0
      invariant offset in {0, 1, 2, 4, 8, 16}
      invariant 2048 <= value < if offset == 0 then 4096 else 4096 * Pow2(2 * offset - 1)
      invariant Normalize(v, 0) == Normalize(value, exponent)
      decreases offset
    {
      if value >= 2048 * Pow2(offset) {
        NormalizeShift(value, exponent, offset);
        ShiftBound(value, offset);
        exponent := exponent + offset;
        value := value / Pow2(offset);
      }
      offset := offset / 2;
    }
    NormalizeBounds(v, 0);
    w := value + exponent * 2048;
  }

  lemma {:induction false} ShiftBound(value: nat, offset: nat)
    requires offset > 0 && value < 4096 * Pow2(2 * offset - 1)
    ensures value / Pow2(offset) < 2048 * Pow2(offset)
  {
    Pow2Sum(offset, offset - 1);
    var p := Pow2(offset);
    if value / p >= 2048 * p {
      MulMonotone(2048 * p, value / p, p);
      assert (value / p) * p <= value;
      assert (2048 * p) * p == 4096 * (p * Pow2(offset - 1));
    }
  }

  lemma {:induction false} Pow2Sum(a: nat, b: nat)
    ensures Pow2(a + b) == Pow2(a) * Pow2(b)
    decreases a
  {
    if a > 0 {
      Pow2Sum(a - 1, b);
      assert Pow2(a + b) == 2 * Pow2(a - 1 + b);
    }
  }
}

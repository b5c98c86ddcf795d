/** Which bucket an identifier belongs to. Buckets are numbered by byte first and by bit within the
    byte second, so the order of indices is not the order of distances; the numbering is still a
    bijection with the powers of two. */
module DhtBuckets {
  import opened Counting
  import opened DhtIds

  function LeadingZeros8(x: Byte): (z: nat)
    ensures z <= 8 && (z == 8 <==> x == 0)
    ensures x > 0 ==> Pow2(7 - z) <= x < Pow2(8 - z)
  {
    assert Pow2(8) == 256 && Pow2(7) == 128 && Pow2(6) == 64 && Pow2(5) == 32;
    assert Pow2(4) == 16 && Pow2(3) == 8 && Pow2(2) == 4 && Pow2(1) == 2;
    if x >= 128 then 0 else if x >= 64 then 1 else if x >= 32 then 2 else if x >= 16 then 3
    else if x >= 8 then 4 else if x >= 4 then 5 else if x >= 2 then 6 else if x >= 1 then 7 else 8
  }

  /** The first byte, at or after `from`, in which the identifiers differ. */
  function FirstDifference(a: NodeID, b: NodeID, from: nat): (i: nat)
    requires from <= ID_LENGTH
    ensures from <= i <= ID_LENGTH
    ensures forall j :: from <= j < i ==> a[j] == b[j]
    ensures i < ID_LENGTH ==> a[i] != b[i]
    decreases ID_LENGTH - from
  {
    if from == ID_LENGTH || a[from] != b[from] then from else FirstDifference(a, b, from + 1)
  }

  lemma XorByteZero(a: Byte, b: Byte)
    ensures XorByte(a, b) == 0 <==> a == b
  {
    var x := XorBits(Bits(a, 8), Bits(b, 8));
    ValueZero(x);
    XorPrefixZero(Bits(a, 8), Bits(b, 8), 8);
    assert x[..8] == x && Bits(a, 8)[..8] == Bits(a, 8) && Bits(b, 8)[..8] == Bits(b, 8);
    assert Pow2(8) == 256;
    ValueOfBits(a, 8);
    ValueOfBits(b, 8);
  }

  function BucketIndex(local: NodeID, peer: NodeID): (j: nat)
    ensures j < ID_BITS
  {
    var i := FirstDifference(local, peer, 0);
    if i == ID_LENGTH then ID_BITS - 1
    else
      XorByteZero(local[i], peer[i]);
      8 * i + 7 - LeadingZeros8(XorByte(local[i], peer[i]))
  }

  /** The power of two that bucket `j` starts at. */
  function Exponent(j: nat): nat
    requires j < ID_BITS
  {
    8 * (19 - j / 8) + j % 8
  }

  /** The numbering is a bijection on 0..159; it is its own inverse. */
  lemma ExponentIsInvolution(j: nat)
    requires j < ID_BITS
    ensures Exponent(j) < ID_BITS && Exponent(Exponent(j)) == j
  {
  }

  ghost predicate InRange(a: NodeID, b: NodeID, e: nat) {
    Pow2(e) <= Distance(a, b) < Pow2(e + 1)
  }

  lemma IdBitsConcat(a: seq<Byte>, b: seq<Byte>)
    ensures IdBits(a + b) == IdBits(a) + IdBits(b)
  {
    if |b| == 0 {
      assert a + b == a;
    } else {
      var n := |b| - 1;
      IdBitsConcat(a, b[..n]);
      assert (a + b)[..|a + b| - 1] == a + b[..n];
    }
  }

  lemma BigEndianConcat(a: seq<Byte>, b: seq<Byte>)
    ensures BigEndian(a + b) == BigEndian(a) * Pow2(8 * |b|) + BigEndian(b)
    ensures BigEndian(b) < Pow2(8 * |b|)
  {
    BigEndianIsValue(a);
    BigEndianIsValue(b);
    BigEndianIsValue(a + b);
    IdBitsConcat(a, b);
    ValueConcat(IdBits(a), IdBits(b));
    ValueBound(IdBits(b));
  }

  lemma BigEndianZeros(bytes: seq<Byte>)
    requires forall i :: 0 <= i < |bytes| ==> bytes[i] == 0
    ensures BigEndian(bytes) == 0
  {
  }

  /** The first differing byte decides the magnitude of the distance. */
  lemma DistanceByFirstByte(a: NodeID, b: NodeID, i: nat)
    requires i < ID_LENGTH && (forall j :: 0 <= j < i ==> a[j] == b[j])
    ensures var x, unit := XorByte(a[i], b[i]), Pow2(8 * (19 - i));
            x * unit <= Distance(a, b) < (x + 1) * unit
  {
    var d := XorBytes(a, b);
    forall j | 0 <= j < i ensures d[..i][j] == 0 {
      XorByteZero(a[j], b[j]);
    }
    LeadingByteDecides(d, i);
  }

  lemma LeadingByteDecides(d: seq<Byte>, i: nat)
    requires i < |d| && (forall j :: 0 <= j < i ==> d[..i][j] == 0)
    ensures var unit := Pow2(8 * (|d| - 1 - i));
            d[i] * unit <= BigEndian(d) < (d[i] + 1) * unit
  {
    var head, tail := d[..i + 1], d[i + 1..];
    BigEndianZeros(d[..i]);
    assert d == head + tail && head[..i] == d[..i];
    BigEndianConcat(head, tail);
    assert BigEndian(head) == d[i];
    Within(d[i], Pow2(8 * |tail|), BigEndian(tail));
  }

  lemma Within(x: nat, unit: nat, rest: nat)
    requires rest < unit
    ensures x * unit <= x * unit + rest < (x + 1) * unit
  {
    MulStep(unit, x);
  }

  lemma ScaleBounds(x: nat, lo: nat, hi: nat, unit: nat, d: nat)
    requires lo <= x < hi && x * unit <= d < (x + 1) * unit
    ensures lo * unit <= d < hi * unit
  {
    Scale(unit, lo, x);
    Scale(unit, x + 1, hi);
  }

  lemma BucketBounds(a: NodeID, b: NodeID)
    requires a != b
    ensures InRange(a, b, Exponent(BucketIndex(a, b)))
  {
    var i, bit := BucketIndexMeans(a, b);
    DistanceByFirstByte(a, b, i);
    ScaledRange(XorByte(a[i], b[i]), bit, 8 * (19 - i), Distance(a, b));
  }

  lemma BucketIndexMeans(a: NodeID, b: NodeID) returns (i: nat, bit: nat)
    requires a != b
    ensures i < ID_LENGTH && (forall j :: 0 <= j < i ==> a[j] == b[j])
    ensures Pow2(bit) <= XorByte(a[i], b[i]) < Pow2(bit + 1)
    ensures Exponent(BucketIndex(a, b)) == bit + 8 * (19 - i)
  {
    i := FirstDifference(a, b, 0);
    assert i < ID_LENGTH;
    XorByteZero(a[i], b[i]);
    var x := XorByte(a[i], b[i]);
    bit := 7 - LeadingZeros8(x);
    ExponentOf(i, bit);
  }

  lemma ExponentOf(i: nat, bit: nat)
    requires i < ID_LENGTH && bit < 8
    ensures Exponent(8 * i + bit) == bit + 8 * (19 - i)
  {
  }

  lemma ScaledRange(x: nat, bit: nat, shift: nat, d: nat)
    requires Pow2(bit) <= x < Pow2(bit + 1) && x * Pow2(shift) <= d < (x + 1) * Pow2(shift)
    ensures Pow2(bit + shift) <= d < Pow2(bit + shift + 1)
  {
    ScaleBounds(x, Pow2(bit), Pow2(bit + 1), Pow2(shift), d);
    Pow2Adds(bit, shift);
    Pow2Adds(bit + 1, shift);
  }

  lemma SameMagnitude(d: nat, e: nat, f: nat)
    requires Pow2(e) <= d < Pow2(e + 1) && Pow2(f) <= d < Pow2(f + 1)
    ensures e == f
  {
    if e < f {
      Pow2Monotone(e + 1, f);
    } else if f < e {
      Pow2Monotone(f + 1, e);
    }
  }

  /** For distinct identifiers, bucket `j` is exactly the range of distances from 2^e to 2^(e+1). */
  lemma BucketArithmetic(a: NodeID, b: NodeID, j: nat)
    requires a != b && j < ID_BITS
    ensures BucketIndex(a, b) == j <==> Pow2(Exponent(j)) <= Distance(a, b) < Pow2(Exponent(j) + 1)
  {
    BucketBounds(a, b);
    if Pow2(Exponent(j)) <= Distance(a, b) < Pow2(Exponent(j) + 1) {
      SameMagnitude(Distance(a, b), Exponent(j), Exponent(BucketIndex(a, b)));
      ExponentIsInvolution(j);
      ExponentIsInvolution(BucketIndex(a, b));
    }
  }

  // ---------------------------------------------------------------- the byte loops

  method ComputeBucketIndex(local: NodeID, peer: NodeID) returns (j: nat)
    ensures j == BucketIndex(local, peer)
    ensures local != peer ==> Pow2(Exponent(j)) <= Distance(local, peer) < Pow2(Exponent(j) + 1)
    ensures local == peer ==> j == ID_BITS - 1
  {
    if local != peer {
      BucketBounds(local, peer);
    }
    for i := 0 to ID_LENGTH
      invariant FirstDifference(local, peer, 0) == FirstDifference(local, peer, i)
    {
      var xorByte := XorByte(local[i], peer[i]);
      XorByteZero(local[i], peer[i]);
      if xorByte != 0 {
        var bitPos := 7 - LeadingZeros8(xorByte);
        return i * 8 + bitPos;
      }
    }
    return ID_LENGTH * 8 - 1;
  }

  method ComputeDistance(a: NodeID, b: NodeID) returns (d: nat)
    ensures d == Distance(a, b)
  {
    var buf: seq<Byte> := [];
    d := 0;
    for i := 0 to ID_LENGTH
      invariant buf == XorBytes(a, b)[..i]
      invariant d == BigEndian(buf)
    {
      var x := XorByte(a[i], b[i]);
      assert (buf + [x])[..|buf|] == buf;
      buf := buf + [x];
      d := 256 * d + x;
    }
    assert XorBytes(a, b)[..ID_LENGTH] == XorBytes(a, b);
  }

  // ---------------------------------------------------------------- halving

  /** Two peers in the same range of `q` are closer to each other than that range's lower bound. */
  lemma SameRangeIsClose(q: NodeID, g: NodeID, p: NodeID, e: nat)
    requires e < ID_BITS && InRange(q, g, e) && InRange(q, p, e)
    ensures Distance(p, g) < Pow2(e)
  {
    CloseMeansAgree(q, g, e + 1);
    CloseMeansAgree(q, p, e + 1);
    CloseMeansAgree(q, g, e);
    CloseMeansAgree(q, p, e);
    CloseMeansAgree(p, g, e);
    ThirdBitAgrees(IdBits(q), IdBits(g), IdBits(p), ID_BITS - e - 1);
  }

  lemma ThirdBitAgrees(q: seq<bool>, g: seq<bool>, p: seq<bool>, m: nat)
    requires m < |q| == |g| == |p|
    requires q[..m] == g[..m] && q[..m] == p[..m]
    requires q[..m + 1] != g[..m + 1] && q[..m + 1] != p[..m + 1]
    ensures p[..m + 1] == g[..m + 1]
  {
    assert q[..m + 1] == q[..m] + [q[m]] && g[..m + 1] == g[..m] + [g[m]] && p[..m + 1] == p[..m] + [p[m]];
    assert q[m] != g[m] && q[m] != p[m];
  }

  /** Anything between `g` and `p` in distance from the target is as close to `g` as `p` is. */
  lemma BetweenIsClose(target: NodeID, g: NodeID, x: NodeID, p: NodeID, e: nat)
    requires e <= ID_BITS && Distance(p, g) < Pow2(e)
    requires Distance(target, g) <= Distance(target, x) <= Distance(target, p)
    ensures Distance(x, g) < Pow2(e)
  {
    DistanceSymmetric(target, g);
    DistanceSymmetric(target, x);
    DistanceSymmetric(target, p);
    CloseMeansAgree(p, g, e);
    AgreeMeansSameQuotient(p, g, target, e);
    QuotientMonotone(Distance(g, target), Distance(x, target), Pow2(e));
    QuotientMonotone(Distance(x, target), Distance(p, target), Pow2(e));
    AgreeMeansSameQuotient(x, g, target, e);
    CloseMeansAgree(x, g, e);
  }

  lemma QuotientBounds(n: nat, d: nat)
    requires d > 0
    ensures n / d * d <= n < (n / d + 1) * d
  {
    assert n == d * (n / d) + n % d;
    MulStep(d, n / d);
  }

  lemma QuotientMonotone(a: nat, b: nat, d: nat)
    requires d > 0 && a <= b
    ensures a / d <= b / d
  {
    QuotientBounds(a, d);
    QuotientBounds(b, d);
    if a / d > b / d {
      Scale(d, b / d + 1, a / d);
    }
  }

  /** If `g` is nearer the target than `q`, so is every peer in the range of `q` that `g` belongs to. */
  lemma SameRangeIsNearer(target: NodeID, q: NodeID, g: NodeID, p: NodeID, e: nat)
    requires e < ID_BITS && InRange(q, g, e) && InRange(q, p, e)
    requires Distance(target, g) <= Distance(target, q)
    ensures Distance(target, p) < Distance(target, q)
  {
    DistanceSymmetric(target, g);
    DistanceSymmetric(target, q);
    DistanceSymmetric(target, p);
    SameRangeIsClose(q, g, p, e);
    CloseMeansAgree(q, g, e);
    CloseMeansAgree(p, g, e);
    AgreeMeansSameQuotient(q, g, target, e);
    AgreeMeansSameQuotient(p, g, target, e);
    QuotientMonotone(Distance(g, target), Distance(q, target), Pow2(e));
    if Distance(p, target) >= Distance(q, target) {
      QuotientMonotone(Distance(q, target), Distance(p, target), Pow2(e));
    }
  }

  /** One hop: the nearest peer `x` that `q` knows is at least as near the target as a peer `p` in the
      range of `q` that `g` belongs to, so its distance to `g` loses the top bit that the distance
      from `q` has. */
  lemma HopHalves(target: NodeID, q: NodeID, g: NodeID, p: NodeID, x: NodeID, e: nat, f: nat)
    requires e <= ID_BITS && f < ID_BITS && InRange(q, g, f) && InRange(q, p, f)
    requires Distance(q, g) < Pow2(e)
    requires Distance(target, g) <= Distance(target, q)
    requires Distance(target, g) <= Distance(target, x) <= Distance(target, p)
    ensures e > 0 && Distance(x, g) < Pow2(e - 1)
    ensures Distance(target, x) < Distance(target, q)
  {
    if f >= e {
      Pow2Monotone(e, f);
    }
    SameRangeIsClose(q, g, p, f);
    SameRangeIsNearer(target, q, g, p, f);
    BetweenIsClose(target, g, x, p, f);
    Pow2Monotone(f, e - 1);
  }
}

/** 160-bit identifiers and the XOR metric. */
module DhtIds {
  import opened Counting

  const ID_LENGTH := 20
  const ID_BITS := 160

  type Byte = x: int | 0 <= x < 256

  type NodeID = s: seq<Byte> | |s| == ID_LENGTH witness seq(ID_LENGTH, _ => 0)

  const ZERO: NodeID := [0, 0, 0, 0, 0, 0, 0, 0, 0, 0, 0, 0, 0, 0, 0, 0, 0, 0, 0, 0]

  datatype Peer = Peer(id: NodeID, addr: string)

  function Pow2(n: nat): (p: nat)
    ensures p >= 1
  {
    if n == 0 then 1 else 2 * Pow2(n - 1)
  }

  // ---------------------------------------------------------------- bits

  /** The `n` low-order bits of `x`, most significant first. */
  function Bits(x: nat, n: nat): (bits: seq<bool>)
    ensures |bits| == n
  {
    if n == 0 then [] else Bits(x / 2, n - 1) + [x % 2 == 1]
  }

  function Value(bits: seq<bool>): nat {
    if |bits| == 0 then 0 else 2 * Value(bits[..|bits| - 1]) + (if bits[|bits| - 1] then 1 else 0)
  }

  function XorBits(a: seq<bool>, b: seq<bool>): (bits: seq<bool>)
    requires |a| == |b|
    ensures |bits| == |a|
  {
    seq(|a|, i requires 0 <= i < |a| => a[i] != b[i])
  }

  function IdBits(bytes: seq<Byte>): (bits: seq<bool>)
    ensures |bits| == 8 * |bytes|
  {
    if |bytes| == 0 then [] else IdBits(bytes[..|bytes| - 1]) + Bits(bytes[|bytes| - 1], 8)
  }

  lemma Pow2Of8()
    ensures Pow2(8) == 256
  {
  }

  lemma Pow2Adds(m: nat, n: nat)
    ensures Pow2(m + n) == Pow2(m) * Pow2(n)
  {
    if m > 0 {
      Pow2Adds(m - 1, n);
    }
  }

  lemma Pow2Monotone(m: nat, n: nat)
    requires m <= n
    ensures Pow2(m) <= Pow2(n)
  {
    if m < n {
      Pow2Monotone(m, n - 1);
    }
  }

  lemma ValueBound(bits: seq<bool>)
    ensures Value(bits) < Pow2(|bits|)
  {
  }

  lemma {:induction false} ValueConcat(a: seq<bool>, b: seq<bool>)
    ensures Value(a + b) == Value(a) * Pow2(|b|) + Value(b)
  {
    if |b| == 0 {
      assert a + b == a;
    } else {
      var b1 := b[..|b| - 1];
      assert (a + b)[..|a + b| - 1] == a + b1;
      ValueConcat(a, b1);
      Doubled(Value(a), Pow2(|b1|));
    }
  }

  lemma Doubled(x: nat, y: nat)
    ensures x * (2 * y) == 2 * (x * y)
  {
  }

  lemma ValueInjective(a: seq<bool>, b: seq<bool>)
    requires |a| == |b| && Value(a) == Value(b)
    ensures a == b
  {
    if |a| > 0 {
      var n := |a| - 1;
      ValueInjective(a[..n], b[..n]);
      assert a == a[..n] + [a[n]] && b == b[..n] + [b[n]];
    }
  }

  lemma ValueOfBits(x: nat, n: nat)
    requires x < Pow2(n)
    ensures Value(Bits(x, n)) == x
  {
    if n > 0 {
      ValueOfBits(x / 2, n - 1);
      assert Bits(x, n)[..n - 1] == Bits(x / 2, n - 1);
    }
  }

  /** The high-order part of a value is the value of the high-order bits. */
  lemma ValueOfPrefix(bits: seq<bool>, e: nat)
    requires e <= |bits|
    ensures Value(bits) / Pow2(e) == Value(bits[..|bits| - e])
  {
    var m := |bits| - e;
    assert bits == bits[..m] + bits[m..];
    ValueConcat(bits[..m], bits[m..]);
    ValueBound(bits[m..]);
    QuotientUnique(Value(bits), Pow2(e), Value(bits[..m]), Value(bits[m..]));
  }

  lemma QuotientUnique(n: nat, d: nat, q: nat, r: nat)
    requires d > 0 && n == q * d + r && r < d
    ensures n / d == q
  {
    var k := n / d;
    if k < q {
      Scale(d, k + 1, q);
    } else if k > q {
      Scale(d, q + 1, k);
    }
  }

  lemma ValueZero(bits: seq<bool>)
    ensures Value(bits) == 0 <==> forall i :: 0 <= i < |bits| ==> !bits[i]
  {
    if |bits| > 0 {
      ValueZero(bits[..|bits| - 1]);
      if Value(bits) == 0 {
        forall i | 0 <= i < |bits| ensures !bits[i] {
          assert i < |bits| - 1 ==> bits[..|bits| - 1][i] == bits[i];
        }
      }
    }
  }

  // ---------------------------------------------------------------- the metric

  /** Byte-wise exclusive or. */
  function XorByte(a: Byte, b: Byte): (x: Byte)
  {
    var bits := XorBits(Bits(a, 8), Bits(b, 8));
    ValueBound(bits);
    Pow2Of8();
    Value(bits)
  }

  function XorBytes(a: seq<Byte>, b: seq<Byte>): (x: seq<Byte>)
    requires |a| == |b|
    ensures |x| == |a|
  {
    seq(|a|, i requires 0 <= i < |a| => XorByte(a[i], b[i]))
  }

  /** Bytes read as one big-endian integer. */
  function BigEndian(bytes: seq<Byte>): nat {
    if |bytes| == 0 then 0 else 256 * BigEndian(bytes[..|bytes| - 1]) + bytes[|bytes| - 1]
  }

  function Distance(a: NodeID, b: NodeID): nat {
    BigEndian(XorBytes(a, b))
  }

  lemma ValueOfOneMoreByte(bytes: seq<Byte>, b: Byte)
    ensures Value(IdBits(bytes) + Bits(b, 8)) == 256 * Value(IdBits(bytes)) + b
  {
    Pow2Of8();
    ValueOfBits(b, 8);
    EightMoreBits(IdBits(bytes), Bits(b, 8));
  }

  lemma EightMoreBits(high: seq<bool>, low: seq<bool>)
    requires |low| == 8
    ensures Value(high + low) == 256 * Value(high) + Value(low)
  {
    Pow2Of8();
    ValueConcat(high, low);
  }

  lemma BigEndianIsValue(bytes: seq<Byte>)
    ensures BigEndian(bytes) == Value(IdBits(bytes))
  {
    if |bytes| > 0 {
      var n := |bytes| - 1;
      BigEndianIsValue(bytes[..n]);
      ValueOfOneMoreByte(bytes[..n], bytes[n]);
    }
  }

  lemma XorOfBytes(a: seq<Byte>, b: seq<Byte>)
    requires |a| == |b|
    ensures IdBits(XorBytes(a, b)) == XorBits(IdBits(a), IdBits(b))
  {
    if |a| > 0 {
      var n := |a| - 1;
      XorOfBytes(a[..n], b[..n]);
      assert XorBytes(a, b)[..n] == XorBytes(a[..n], b[..n]);
      var bits := XorBits(Bits(a[n], 8), Bits(b[n], 8));
      Pow2Of8();
      ValueOfBits(XorByte(a[n], b[n]), 8);
      ValueInjective(Bits(XorByte(a[n], b[n]), 8), bits);
    }
  }

  lemma IdBitsSplit(a: seq<Byte>)
    requires |a| > 0
    ensures var n := |a| - 1; IdBits(a)[..8 * n] == IdBits(a[..n]) && IdBits(a)[8 * n..] == Bits(a[n], 8)
  {
  }

  lemma ByteOfBits(x: Byte, y: Byte)
    requires Bits(x, 8) == Bits(y, 8)
    ensures x == y
  {
    Pow2Of8();
    ValueOfBits(x, 8);
    ValueOfBits(y, 8);
  }

  lemma IdBitsInjective(a: seq<Byte>, b: seq<Byte>)
    requires |a| == |b| && IdBits(a) == IdBits(b)
    ensures a == b
  {
    if |a| > 0 {
      var n := |a| - 1;
      IdBitsSplit(a);
      IdBitsSplit(b);
      IdBitsInjective(a[..n], b[..n]);
      ByteOfBits(a[n], b[n]);
      assert a == a[..n] + [a[n]] && b == b[..n] + [b[n]];
    }
  }

  lemma DistanceIsValue(a: NodeID, b: NodeID)
    ensures Distance(a, b) == Value(XorBits(IdBits(a), IdBits(b)))
  {
    BigEndianIsValue(XorBytes(a, b));
    XorOfBytes(a, b);
  }

  lemma DistanceBound(a: NodeID, b: NodeID)
    ensures Distance(a, b) < Pow2(ID_BITS)
  {
    DistanceIsValue(a, b);
    ValueBound(XorBits(IdBits(a), IdBits(b)));
  }

  lemma DistanceSymmetric(a: NodeID, b: NodeID)
    ensures Distance(a, b) == Distance(b, a)
  {
    DistanceIsValue(a, b);
    DistanceIsValue(b, a);
    assert XorBits(IdBits(a), IdBits(b)) == XorBits(IdBits(b), IdBits(a));
  }

  /** Two identifiers agree on all bits of weight 2^e and above. */
  ghost predicate AgreeAbove(a: NodeID, b: NodeID, e: nat)
    requires e <= ID_BITS
  {
    IdBits(a)[..ID_BITS - e] == IdBits(b)[..ID_BITS - e]
  }

  lemma CloseMeansAgree(a: NodeID, b: NodeID, e: nat)
    requires e <= ID_BITS
    ensures Distance(a, b) < Pow2(e) <==> AgreeAbove(a, b, e)
  {
    var x, m := XorBits(IdBits(a), IdBits(b)), ID_BITS - e;
    DistanceIsValue(a, b);
    ValueOfPrefix(x, e);
    ValueZero(x[..m]);
    SmallQuotient(Value(x), Pow2(e));
    XorPrefixZero(IdBits(a), IdBits(b), m);
  }

  lemma SmallQuotient(n: nat, d: nat)
    requires d > 0
    ensures n < d <==> n / d == 0
  {
  }

  lemma XorPrefixZero(a: seq<bool>, b: seq<bool>, m: nat)
    requires |a| == |b| && m <= |a|
    ensures (forall i :: 0 <= i < m ==> !XorBits(a, b)[..m][i]) <==> a[..m] == b[..m]
  {
    if a[..m] == b[..m] {
      forall i | 0 <= i < m ensures !XorBits(a, b)[..m][i] {
        assert a[..m][i] == b[..m][i];
      }
    }
    if forall i :: 0 <= i < m ==> !XorBits(a, b)[..m][i] {
      forall i | 0 <= i < m ensures a[..m][i] == b[..m][i] {
        assert !XorBits(a, b)[..m][i];
      }
    }
  }

  /** Agreeing above 2^e is having the same distance, up to 2^e, from any third identifier. */
  lemma AgreeMeansSameQuotient(a: NodeID, b: NodeID, t: NodeID, e: nat)
    requires e <= ID_BITS
    ensures AgreeAbove(a, b, e) <==> Distance(a, t) / Pow2(e) == Distance(b, t) / Pow2(e)
  {
    var m := ID_BITS - e;
    var x, y := XorBits(IdBits(a), IdBits(t)), XorBits(IdBits(b), IdBits(t));
    DistanceIsValue(a, t);
    DistanceIsValue(b, t);
    ValueOfPrefix(x, e);
    ValueOfPrefix(y, e);
    if Distance(a, t) / Pow2(e) == Distance(b, t) / Pow2(e) {
      ValueInjective(x[..m], y[..m]);
      forall i | 0 <= i < m ensures IdBits(a)[..m][i] == IdBits(b)[..m][i] {
        assert x[..m][i] == y[..m][i];
      }
    }
    if AgreeAbove(a, b, e) {
      forall i | 0 <= i < m ensures x[..m][i] == y[..m][i] {
        assert IdBits(a)[..m][i] == IdBits(b)[..m][i];
      }
      assert x[..m] == y[..m];
    }
  }

  /** Distance to a fixed target tells identifiers apart. */
  lemma DistanceInjective(target: NodeID, a: NodeID, b: NodeID)
    requires Distance(target, a) == Distance(target, b)
    ensures a == b
  {
    DistanceSymmetric(target, a);
    DistanceSymmetric(target, b);
    AgreeMeansSameQuotient(a, b, target, 0);
    assert IdBits(a)[..ID_BITS] == IdBits(a) && IdBits(b)[..ID_BITS] == IdBits(b);
    IdBitsInjective(a, b);
  }

  lemma DistanceZero(a: NodeID, b: NodeID)
    ensures Distance(a, b) == 0 <==> a == b
  {
    CloseMeansAgree(a, b, 0);
    assert IdBits(a)[..ID_BITS] == IdBits(a) && IdBits(b)[..ID_BITS] == IdBits(b);
    if Distance(a, b) == 0 {
      IdBitsInjective(a, b);
    }
  }
}

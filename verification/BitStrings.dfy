/** Building a bit string from a set of bit positions, and reading single bits back. */
module BitStrings {
  /** Bytes, most significant bit first, with the number of unused bits of the last byte. */
  datatype BitString = BitString(data: seq<bv8>, unusedBits: nat) {
    function Length(): int {
      |data| * 8 - unusedBits
    }
  }

  function Mask(bitIndex: nat): bv8
    requires bitIndex < 8
  {
    1 << bitIndex
  }

  /** The reader of the audit filter: a position past the data is not set. */
  predicate TestBit(data: seq<bv8>, position: nat) {
    var byteIndex := position / 8;
    var bitIndex := 7 - position % 8;
    byteIndex < |data| && data[byteIndex] & Mask(bitIndex) != 0
  }

  /** Exactly the positions of s are set, and no byte or significant bit is superfluous. */
  ghost predicate Represents(b: BitString, s: set<nat>) {
    && (forall n: nat :: TestBit(b.data, n) <==> n in s)
    && b.unusedBits <= 7
    && (if s == {} then b == BitString([0], 0)
        else (exists top :: top in s && b.Length() == top + 1) && forall n :: n in s ==> n < b.Length())
  }

  lemma MaskValues()
    ensures Mask(0) == 1 && Mask(1) == 2 && Mask(2) == 4 && Mask(3) == 8
    ensures Mask(4) == 16 && Mask(5) == 32 && Mask(6) == 64 && Mask(7) == 128
  {
    assert (1 as bv8) << 0 == 1 && (1 as bv8) << 1 == 2 && (1 as bv8) << 2 == 4 && (1 as bv8) << 3 == 8;
    assert (1 as bv8) << 4 == 16 && (1 as bv8) << 5 == 32 && (1 as bv8) << 6 == 64 && (1 as bv8) << 7 == 128;
  }

  /** Position 0 is the most significant bit of the first byte, position 7 its least, position 8 starts the next. */
  lemma TestBitExactly(data: seq<bv8>, n: nat)
    ensures TestBit(data, n) <==>
              n / 8 < |data| && data[n / 8] & [0x80, 0x40, 0x20, 0x10, 0x08, 0x04, 0x02, 0x01][n % 8] != 0
  {
    MaskValues();
  }

  /** Setting bit i of a byte sets bit i and leaves the others alone. */
  lemma SetBit(b: bv8, i: nat, j: nat)
    requires i < 8 && j < 8
    ensures (b | Mask(i)) & Mask(j) != 0 <==> i == j || b & Mask(j) != 0
  {
    MaskValues();
  }

  lemma ClearByte(j: nat)
    requires j < 8
    ensures 0 & Mask(j) == 0
  {
  }

  /** A byte is determined by its bits. */
  lemma SameBits(b: bv8, c: bv8)
    requires forall j: nat :: j < 8 ==> (b & Mask(j) != 0 <==> c & Mask(j) != 0)
    ensures b == c
  {
    MaskValues();
    assert b & Mask(0) != 0 <==> c & Mask(0) != 0;
    assert b & Mask(1) != 0 <==> c & Mask(1) != 0;
    assert b & Mask(2) != 0 <==> c & Mask(2) != 0;
    assert b & Mask(3) != 0 <==> c & Mask(3) != 0;
    assert b & Mask(4) != 0 <==> c & Mask(4) != 0;
    assert b & Mask(5) != 0 <==> c & Mask(5) != 0;
    assert b & Mask(6) != 0 <==> c & Mask(6) != 0;
    assert b & Mask(7) != 0 <==> c & Mask(7) != 0;
  }

  method MaxOf(s: set<nat>) returns (top: nat)
    requires s != {}
    ensures top in s && forall n :: n in s ==> n <= top
  {
    top :| top in s;
    var rest := s - {top};
    while rest != {}
      invariant rest <= s && top in s
      invariant forall n :: n in s && n !in rest ==> n <= top
      decreases rest
    {
      var n :| n in rest;
      rest := rest - {n};
      if n > top {
        top := n;
      }
    }
  }

  method OrBit(buf: array<bv8>, bit: nat)
    requires bit / 8 < buf.Length
    modifies buf
    ensures buf[..] == old(buf[..])[bit / 8 := old(buf[bit / 8]) | Mask(7 - bit % 8)]
  {
    var byteIndex := bit / 8;
    var bitIndex := 7 - bit % 8;
    buf[byteIndex] := buf[byteIndex] | (1 << bitIndex);
  }

  lemma SamePosition(n: nat, bit: nat)
    ensures n == bit <==> n / 8 == bit / 8 && 7 - n % 8 == 7 - bit % 8
  {
  }

  lemma SetAt(before: seq<bv8>, bit: nat, n: nat)
    requires bit / 8 < |before|
    ensures var after := before[bit / 8 := before[bit / 8] | Mask(7 - bit % 8)];
            TestBit(after, n) <==> n == bit || TestBit(before, n)
  {
    SamePosition(n, bit);
    SetBit(before[bit / 8], 7 - bit % 8, 7 - n % 8);
  }

  lemma SetInBytes(before: seq<bv8>, bit: nat, after: seq<bv8>)
    requires bit / 8 < |before|
    requires after == before[bit / 8 := before[bit / 8] | Mask(7 - bit % 8)]
    ensures forall n: nat :: TestBit(after, n) <==> n == bit || TestBit(before, n)
  {
    forall n: nat
      ensures TestBit(after, n) <==> n == bit || TestBit(before, n)
    {
      SetAt(before, bit, n);
    }
  }

  /** The loop that sets one bit after the other, in whatever order the set yields them. */
  method SetBits(bitPositions: set<nat>, byteCount: nat) returns (data: seq<bv8>)
    requires forall bit :: bit in bitPositions ==> bit / 8 < byteCount
    ensures |data| == byteCount
    ensures forall n: nat :: TestBit(data, n) <==> n in bitPositions
  {
    var buf := new bv8[byteCount](_ => 0);
    forall n: nat
      ensures !TestBit(buf[..], n)
    {
      ClearByte(7 - n % 8);
    }
    var rest := bitPositions;
    while rest != {}
      invariant rest <= bitPositions
      invariant forall n: nat :: TestBit(buf[..], n) <==> n in bitPositions && n !in rest
      decreases rest
    {
      var bit :| bit in rest;
      rest := rest - {bit};
      ghost var before := buf[..];
      OrBit(buf, bit);
      SetInBytes(before, bit, buf[..]);
    }
    return buf[..];
  }

  method BitStringFromBits(bitPositions: set<nat>) returns (b: BitString)
    ensures Represents(b, bitPositions)
  {
    if bitPositions == {} {
      forall n: nat
        ensures !TestBit([0], n)
      {
        ClearByte(7 - n % 8);
      }
      return BitString([0], 0);
    }
    var maxBit := MaxOf(bitPositions);
    var byteCount := maxBit / 8 + 1;
    var unusedBits := byteCount * 8 - (maxBit + 1);
    var data := SetBits(bitPositions, byteCount);
    return BitString(data, unusedBits);
  }

  lemma SameByte(data: seq<bv8>, data': seq<bv8>, i: nat)
    requires i < |data| == |data'|
    requires forall n: nat :: TestBit(data, n) <==> TestBit(data', n)
    ensures data[i] == data'[i]
  {
    forall j: nat | j < 8
      ensures data[i] & Mask(j) != 0 <==> data'[i] & Mask(j) != 0
    {
      var n := i * 8 + (7 - j);
      assert n / 8 == i && 7 - n % 8 == j;
      assert TestBit(data, n) <==> TestBit(data', n);
    }
    SameBits(data[i], data'[i]);
  }

  /** The bit string does not depend on the order in which the set is walked. */
  lemma {:induction false} RepresentationIsUnique(b: BitString, c: BitString, s: set<nat>)
    requires Represents(b, s) && Represents(c, s)
    ensures b == c
  {
    if s != {} {
      var top :| top in s && b.Length() == top + 1;
      var top' :| top' in s && c.Length() == top' + 1;
      assert top == top';
      assert |b.data| == |c.data|;
      forall i | 0 <= i < |b.data|
        ensures b.data[i] == c.data[i]
      {
        SameByte(b.data, c.data, i);
      }
    }
  }

  /**
   * The bytes are as few as they can be and the unused bits are zero: any other bytes with the
   * same bits set are at least as long, and no position from the length on is set.
   */
  lemma RepresentationIsMinimal(b: BitString, s: set<nat>, data: seq<bv8>)
    requires Represents(b, s) && s != {}
    requires forall n: nat :: TestBit(data, n) <==> n in s
    ensures |b.data| <= |data|
    ensures forall n: nat :: b.Length() <= n ==> !TestBit(b.data, n)
  {
    var top :| top in s && b.Length() == top + 1;
    assert TestBit(data, top);
  }
}

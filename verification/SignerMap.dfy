/** The wire form of a signer bitmap: the number of bits, and the bits as bytes.  Bit k of the
map, counted from its end, is bit k % 8 of byte k / 8, counted from the end of the bytes. */
module SignerMaps {
  import opened SignatureSums
  import opened SeqSets

  type Byte = bv8

  datatype DecodeResult = Decoded(bits: seq<bool>) | TooManySigners | WrongNumberOfBytes

  const U32_LIMIT := 0x1_0000_0000

  function ByteCount(numBits: nat): (n: nat) {
    (numBits + 7) / 8
  }

  predicate BitAt(byte: Byte, k: nat)
    requires k < 8
  {
    (byte >> k) & 1 == 1
  }

  /** Bit `k` of a byte string, counted from its end. */
  predicate BitFromBack(bytes: seq<Byte>, k: nat)
    requires k < 8 * |bytes|
  {
    BitAt(bytes[|bytes| - 1 - k / 8], k % 8)
  }

  /** A byte is determined by its bits. */
  lemma ByteExtensional(a: Byte, b: Byte)
    requires forall i :: 0 <= i < 8 ==> (BitAt(a, i) <==> BitAt(b, i))
    ensures a == b
  {
    assert BitAt(a, 0) <==> BitAt(b, 0);
    assert BitAt(a, 1) <==> BitAt(b, 1);
    assert BitAt(a, 2) <==> BitAt(b, 2);
    assert BitAt(a, 3) <==> BitAt(b, 3);
    assert BitAt(a, 4) <==> BitAt(b, 4);
    assert BitAt(a, 5) <==> BitAt(b, 5);
    assert BitAt(a, 6) <==> BitAt(b, 6);
    assert BitAt(a, 7) <==> BitAt(b, 7);
  }

  /** `bytes` is the wire form of `bits`: every bit in its place, and zero padding. */
  ghost predicate Encodes(bits: seq<bool>, bytes: seq<Byte>) {
    && |bytes| == ByteCount(|bits|)
    && forall k :: 0 <= k < 8 * |bytes| ==> (BitFromBack(bytes, k) <==> k < |bits| && bits[|bits| - 1 - k])
  }

  /** Walk over the map from its end and set one bit of the buffer at a time. */
  method Encode(bits: seq<bool>) returns (numBits: nat, bytes: seq<Byte>)
    ensures numBits == |bits| % U32_LIMIT
    ensures Encodes(bits, bytes)
  {
    numBits := |bits| % U32_LIMIT;
    bytes := seq(ByteCount(|bits|), _ => 0);
    ZeroBytes(bytes);
    for i := 0 to |bits|
      invariant |bytes| == ByteCount(|bits|)
      invariant forall k :: 0 <= k < 8 * |bytes| ==> (BitFromBack(bytes, k) <==> k < i && bits[|bits| - 1 - k])
    {
      if bits[|bits| - 1 - i] {
        forall k | 0 <= k < 8 * |bytes|
          ensures BitFromBack(WithBit(bytes, i), k) <==> k == i || BitFromBack(bytes, k)
        {
          WithBitAt(bytes, i, k);
        }
        bytes := WithBit(bytes, i);
      }
    }
  }

  lemma ZeroBytes(bytes: seq<Byte>)
    requires forall i :: 0 <= i < |bytes| ==> bytes[i] == 0
    ensures forall k :: 0 <= k < 8 * |bytes| ==> !BitFromBack(bytes, k)
  {
  }

  /** Sets bit `i`, counting bytes from the back and bits from the lowest. */
  function WithBit(bytes: seq<Byte>, i: nat): (r: seq<Byte>)
    requires i < 8 * |bytes|
    ensures |r| == |bytes|
  {
    var at := |bytes| - 1 - i / 8;
    bytes[at := bytes[at] | (1 << (i % 8))]
  }

  lemma WithBitAt(bytes: seq<Byte>, i: nat, k: nat)
    requires i < 8 * |bytes| && k < 8 * |bytes|
    ensures BitFromBack(WithBit(bytes, i), k) <==> k == i || BitFromBack(bytes, k)
  {
  }

  function Decode(numBits: nat, bytes: seq<Byte>): (r: DecodeResult) {
    if numBits > MAX_SIGNERS_LEN then TooManySigners
    else if |bytes| != ByteCount(numBits) then WrongNumberOfBytes
    else Decoded(seq(numBits, i requires 0 <= i < numBits => BitFromBack(bytes, numBits - 1 - i)))
  }

  /** The decoding loop: push the bits from the last to the first, then reverse. */
  method DecodeLoop(numBits: nat, bytes: seq<Byte>) returns (r: DecodeResult)
    ensures r == Decode(numBits, bytes)
  {
    if numBits > MAX_SIGNERS_LEN {
      return TooManySigners;
    }
    if |bytes| != ByteCount(numBits) {
      return WrongNumberOfBytes;
    }
    var bits := [];
    while |bits| < numBits
      invariant |bits| <= numBits
      invariant forall k :: 0 <= k < |bits| ==> bits[k] == BitFromBack(bytes, k)
    {
      var k := |bits|;
      var byte := bytes[|bytes| - 1 - k / 8];
      bits := bits + [(byte >> (k % 8)) & 1 == 1];
    }
    r := Decoded(Reversed(bits));
  }

  /** Decoding what was encoded gives the map back exactly when it is not too long; a longer
      map is rejected, even when its length wraps around in 32 bits. */
  lemma DecodeOfEncode(bits: seq<bool>, bytes: seq<Byte>)
    requires Encodes(bits, bytes)
    ensures Decode(|bits| % U32_LIMIT, bytes) == Decoded(bits) <==> |bits| <= 16384
    ensures |bits| > MAX_SIGNERS_LEN ==> !Decode(|bits| % U32_LIMIT, bytes).Decoded?
  {
  }

  /** Encoding what was decoded gives the bytes back with the padding cleared, hence the
      same bytes exactly when the padding was clear. */
  lemma EncodeOfDecode(numBits: nat, bytes: seq<Byte>, bytes': seq<Byte>)
    requires Decode(numBits, bytes).Decoded?
    requires Encodes(Decode(numBits, bytes).bits, bytes')
    ensures |bytes'| == |bytes|
    ensures forall k :: 0 <= k < 8 * |bytes| ==> (BitFromBack(bytes', k) <==> k < numBits && BitFromBack(bytes, k))
    ensures bytes' == bytes <==> forall k :: numBits <= k < 8 * |bytes| ==> !BitFromBack(bytes, k)
  {
    var bits := Decode(numBits, bytes).bits;
    forall k | 0 <= k < 8 * |bytes| ensures BitFromBack(bytes', k) <==> k < numBits && BitFromBack(bytes, k) {
      if k < numBits {
        assert bits[numBits - 1 - k] == BitFromBack(bytes, numBits - 1 - (numBits - 1 - k));
      }
    }
    if forall k :: numBits <= k < 8 * |bytes| ==> !BitFromBack(bytes, k) {
      forall b | 0 <= b < |bytes| ensures bytes'[b] == bytes[b] {
        forall i | 0 <= i < 8 ensures BitAt(bytes'[b], i) <==> BitAt(bytes[b], i) {
          var k := 8 * (|bytes| - 1 - b) + i;
          assert k / 8 == |bytes| - 1 - b && k % 8 == i;
          assert BitFromBack(bytes', k) <==> BitFromBack(bytes, k);
        }
        ByteExtensional(bytes'[b], bytes[b]);
      }
    }
  }
}

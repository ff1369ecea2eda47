/** The XOR checksum shared by both wire formats. */
module Checksum {
  import opened Bytes

  function Pow2(n: nat): (p: nat)
    ensures p > 0
  {
    if n == 0 then 1 else 2 * Pow2(n - 1)
  }

  /** Exclusive or of the lowest `n` bits. */
  function XorBits(a: nat, b: nat, n: nat): (r: nat)
    ensures r < Pow2(n)
    decreases n
  {
    if n == 0 then 0 else 2 * XorBits(a / 2, b / 2, n - 1) + (if a % 2 != b % 2 then 1 else 0)
  }

  lemma {:induction false} EightBits()
    ensures Pow2(8) == 256
  {
    assert Pow2(4) == 16;
    assert Pow2(6) == 4 * Pow2(4);
  }

  function Xor(a: Byte, b: Byte): Byte {
    EightBits();
    XorBits(a, b, 8)
  }

  lemma {:induction false} XorBitsCommutes(a: nat, b: nat, n: nat)
    ensures XorBits(a, b, n) == XorBits(b, a, n)
    decreases n
  {
    if n > 0 { XorBitsCommutes(a / 2, b / 2, n - 1); }
  }

  lemma {:induction false} XorBitsAssociates(a: nat, b: nat, c: nat, n: nat)
    ensures XorBits(XorBits(a, b, n), c, n) == XorBits(a, XorBits(b, c, n), n)
    decreases n
  {
    if n > 0 { XorBitsAssociates(a / 2, b / 2, c / 2, n - 1); }
  }

  lemma {:induction false} XorBitsInverse(a: nat, n: nat)
    requires a < Pow2(n)
    ensures XorBits(a, a, n) == 0 && XorBits(0, a, n) == a
    decreases n
  {
    if n > 0 { XorBitsInverse(a / 2, n - 1); }
  }

  /** XOR is an Abelian group on bytes in which every element is its own inverse. */
  lemma {:induction false} XorGroup(a: Byte, b: Byte, c: Byte)
    ensures Xor(a, b) == Xor(b, a)
    ensures Xor(Xor(a, b), c) == Xor(a, Xor(b, c))
    ensures Xor(a, a) == 0 && Xor(0, a) == a && Xor(a, 0) == a
  {
    EightBits();
    XorBitsCommutes(a, b, 8);
    XorBitsCommutes(a, 0, 8);
    XorBitsAssociates(a, b, c, 8);
    XorBitsInverse(a, 8);
    hide XorBits;
  }

  lemma {:induction false} XorCancels(a: Byte, b: Byte, c: Byte)
    requires Xor(a, b) == Xor(a, c)
    ensures b == c
  {
    hide Xor;
    XorGroup(a, a, b);
    XorGroup(a, a, c);
    XorGroup(b, 0, 0);
    XorGroup(c, 0, 0);
  }

  /** What folding XOR over the bytes from left to right computes. */
  function XorAll(s: seq<Byte>): Byte
    decreases |s|
  {
    if s == [] then 0 else Xor(XorAll(s[..|s| - 1]), s[|s| - 1])
  }

  lemma {:induction false} XorAllAppend(s: seq<Byte>, t: seq<Byte>)
    ensures XorAll(s + t) == Xor(XorAll(s), XorAll(t))
    decreases |t|
  {
    hide Xor;
    XorGroup(XorAll(s), 0, 0);
    if t == [] {
      assert s + t == s;
    } else {
      var n := |t| - 1;
      XorAllAppend(s, t[..n]);
      assert (s + t)[..|s + t| - 1] == s + t[..n];
      XorGroup(XorAll(s), XorAll(t[..n]), t[n]);
    }
  }

  /** The accumulating loop both formats use. */
  method ComputeChecksum(data: seq<Byte>) returns (checksum: Byte)
    ensures checksum == XorAll(data)
  {
    checksum := 0;
    for i := 0 to |data|
      invariant checksum == XorAll(data[..i])
    {
      assert data[..i + 1][..i] == data[..i];
      checksum := Xor(checksum, data[i]);
    }
    assert data[..|data|] == data;
  }

  /** The packet check: the last byte is the checksum of the others. */
  predicate ChecksumOk(data: seq<Byte>) {
    |data| >= 1 && XorAll(data[..|data| - 1]) == data[|data| - 1]
  }

  method VerifyChecksum(data: seq<Byte>) returns (ok: bool)
    ensures ok == ChecksumOk(data)
  {
    if |data| < 1 {
      return false;
    }
    var calculated := ComputeChecksum(data[..|data| - 1]);
    return calculated == data[|data| - 1];
  }

  /** A packet passes exactly when it is not empty and its bytes XOR to zero. */
  lemma {:induction false} ChecksumOkIffZero(data: seq<Byte>)
    ensures ChecksumOk(data) <==> data != [] && XorAll(data) == 0
  {
    hide Xor;
    if data != [] {
      var n := |data| - 1;
      XorGroup(data[n], 0, 0);
      XorGroup(data[n], XorAll(data[..n]), 0);
      if XorAll(data) == 0 {
        XorCancels(data[n], XorAll(data[..n]), data[n]);
      }
    }
  }

  /** Appending the checksum of any bytes gives a packet that passes. */
  lemma {:induction false} SealedPasses(body: seq<Byte>)
    ensures ChecksumOk(body + [XorAll(body)])
  {
    assert (body + [XorAll(body)])[..|body|] == body;
  }

  /** Changing exactly one byte of a passing packet, wherever, makes it fail. */
  lemma {:induction false} OneByteChangeDetected(data: seq<Byte>, i: nat, b: Byte)
    requires ChecksumOk(data) && i < |data| && b != data[i]
    ensures !ChecksumOk(data[i := b])
  {
    hide Xor, XorAll, ChecksumOk;
    var before, after := data[..i], data[i + 1..];
    assert data == before + [data[i]] + after && data[i := b] == before + [b] + after;
    ThreeParts(before, data[i], after);
    ThreeParts(before, b, after);
    ChecksumOkIffZero(data);
    ChecksumOkIffZero(data[i := b]);
    if XorAll(data[i := b]) == 0 {
      SameFold(XorAll(before), data[i], b, XorAll(after));
    }
  }

  lemma {:induction false} SameFold(p: Byte, b: Byte, c: Byte, q: Byte)
    requires Xor(Xor(p, b), q) == Xor(Xor(p, c), q)
    ensures b == c
  {
    hide Xor;
    XorGroup(Xor(p, b), q, 0);
    XorGroup(Xor(p, c), q, 0);
    XorCancels(q, Xor(p, b), Xor(p, c));
    XorCancels(p, b, c);
  }

  lemma {:induction false} ThreeParts(before: seq<Byte>, b: Byte, after: seq<Byte>)
    ensures XorAll(before + [b] + after) == Xor(Xor(XorAll(before), b), XorAll(after))
  {
    hide Xor;
    XorAllAppend(before + [b], after);
    XorAllAppend(before, [b]);
    XorGroup(b, 0, 0);
  }
}

/** Big-endian unsigned integers over bytes: the MaxMind DB data section stores
    every unsigned integer, size continuation and pointer payload this way. */
module Bytes {

  type byte = b: int | 0 <= b < 256

  /** 2^64: Go's uint64 arithmetic wraps modulo this value. */
  const Word: nat := 0x1_0000_0000_0000_0000

  type uint64 = x: int | 0 <= x < Word

  function Pow256(n: nat): (r: nat)
    ensures r >= 1
  {
    if n == 0 then 1 else 256 * Pow256(n - 1)
  }

  /** The mathematical value of s read as a big-endian unsigned number. */
  function BigEndian(s: seq<byte>): (r: nat)
    ensures r < Pow256(|s|)
  {
    if s == [] then 0 else BigEndian(s[..|s| - 1]) * 256 + s[|s| - 1]
  }

  /** One step `acc<<8 | b` of the Go code, in uint64: the shift drops the
      high byte, and the low byte of the shifted value is zero so `|` adds. */
  function ShiftIn(acc: uint64, b: byte): uint64
  {
    (acc * 256) % Word + b
  }

  /** The left fold the unrolled `switch len(buffer)` cases compute. */
  function Fold(acc: uint64, s: seq<byte>): uint64
  {
    if s == [] then acc else ShiftIn(Fold(acc, s[..|s| - 1]), s[|s| - 1])
  }

  lemma {:induction false} FoldValue(acc: uint64, s: seq<byte>)
    ensures Fold(acc, s) == (acc * Pow256(|s|) + BigEndian(s)) % Word
  {
    if s != [] {
      var init, last := s[..|s| - 1], s[|s| - 1];
      FoldValue(acc, init);
      ShiftInValue(acc, Pow256(|init|), BigEndian(init), last, Fold(acc, init));
    }
  }

  /** The arithmetic of one ShiftIn step of FoldValue. */
  lemma ShiftInValue(acc: nat, p: nat, e: nat, last: byte, f: uint64)
    requires f == (acc * p + e) % Word
    ensures ShiftIn(f, last) == (acc * (256 * p) + (e * 256 + last)) % Word
  {
    var x := acc * p + e;
    ModMulShift(x);
    AddLowByte(x * 256, last);
    assert x * 256 + last == acc * (256 * p) + (e * 256 + last) by {
      assert x * 256 == acc * p * 256 + e * 256;
      assert acc * p * 256 == acc * (256 * p);
    }
  }

  lemma ModMulShift(x: nat)
    ensures (x % Word * 256) % Word == (x * 256) % Word
  {
    var q, r := x / Word, x % Word;
    assert x * 256 == (q * 256) * Word + r * 256;
  }

  /** Adding a byte to a multiple of 256 commutes with reduction modulo 2^64. */
  lemma AddLowByte(y: nat, b: byte)
    requires y % 256 == 0
    ensures (y % Word) + b == (y + b) % Word
  {
    var q, r := y / Word, y % Word;
    assert y == q * Word + r;
    assert r % 256 == 0 by {
      assert Word == 256 * 0x100_0000_0000_0000;
      assert y == 256 * (q * 0x100_0000_0000_0000 + r / 256) + r % 256;
    }
    assert r + b < Word;
    assert y + b == q * Word + (r + b);
  }

  lemma SmallModulus(x: nat, m: nat)
    requires x < m
    ensures x % m == x
  {
  }

  lemma Pow256Bound(n: nat)
    requires n <= 8
    ensures Pow256(n) <= Word
    decreases 8 - n
  {
    if n == 8 {
      assert Pow256(8) == Word;
    } else {
      Pow256Bound(n + 1);
    }
  }

  /** bytesToUInt64: the big-endian value of 1 to 8 bytes, and 0 for any
      other length. */
  function BytesToUInt64(buffer: seq<byte>): (r: uint64)
    ensures 1 <= |buffer| <= 8 ==> r == BigEndian(buffer)
    ensures (|buffer| == 0 || |buffer| > 8) ==> r == 0
  {
    if 1 <= |buffer| <= 8 then
      FoldValue(0, buffer);
      Pow256Bound(|buffer|);
      Fold(0, buffer)
    else 0
  }

  /** bytesToUInt64WithPrefix: prefix·256^n + BE(buffer) in uint64 for
      n <= 8 bytes, the prefix itself for no bytes, 0 for more than 8. */
  function BytesToUInt64WithPrefix(prefix: uint64, buffer: seq<byte>): (r: uint64)
    ensures |buffer| <= 8 ==> r == (prefix * Pow256(|buffer|) + BigEndian(buffer)) % Word
    ensures |buffer| == 0 ==> r == prefix
    ensures |buffer| > 8 ==> r == 0
  {
    if |buffer| <= 8 then
      FoldValue(prefix, buffer);
      Fold(prefix, buffer)
    else 0
  }

  /** The n-byte big-endian encoding of v (the inverse of BigEndian). */
  function EncodeBigEndian(v: nat, n: nat): (s: seq<byte>)
    ensures |s| == n
  {
    if n == 0 then [] else EncodeBigEndian(v / 256, n - 1) + [v % 256]
  }

  lemma {:induction false} DecodeEncodeBigEndian(v: nat, n: nat)
    requires v < Pow256(n)
    ensures BigEndian(EncodeBigEndian(v, n)) == v
  {
    if n > 0 {
      var s := EncodeBigEndian(v, n);
      assert s[..n - 1] == EncodeBigEndian(v / 256, n - 1);
      assert v / 256 < Pow256(n - 1);
      DecodeEncodeBigEndian(v / 256, n - 1);
      assert BigEndian(s) == (v / 256) * 256 + v % 256;
    }
  }

  lemma {:induction false} EncodeDecodeBigEndian(s: seq<byte>)
    ensures EncodeBigEndian(BigEndian(s), |s|) == s
  {
    if s != [] {
      var init := s[..|s| - 1];
      EncodeDecodeBigEndian(init);
      assert BigEndian(s) / 256 == BigEndian(init);
      assert s == init + [s[|s| - 1]];
    }
  }
}

/** The writer's side of the MaxMind DB data section, as the format defines
    it, and the round trips that show the decoder reads back what a writer
    puts there. Nothing in the source writes the format; these encoders are
    the reference against which the readers are checked. */
module Encoding {
  import opened Bytes
  import opened Transliterate
  import opened Decoder
  import opened DecoderLemmas

  /** One more than the largest size a control byte can announce. */
  const MaxSize: nat := 65821 + 0x100_0000

  /** The low 5 bits of the control byte for a payload size. */
  function SizeField(size: nat): nat
  {
    if size < 29 then size else if size < 285 then 29 else if size < 65821 then 30 else 31
  }

  /** The size continuation bytes for a payload size. */
  function SizeBytes(size: nat): seq<byte>
  {
    if size < 29 then []
    else if size < 285 then EncodeBigEndian(size - 29, 1)
    else if size < 65821 then EncodeBigEndian(size - 285, 2)
    else EncodeBigEndian(size - 65821, 3)
  }

  /** The control bytes of a value of dataType with size bytes of payload:
      types 1 to 7 in the top 3 bits, higher types as an extended-type byte
      holding the type minus 7. */
  function EncodeControl(dataType: byte, size: nat): (e: seq<byte>)
    requires dataType != TypeExtended && size < MaxSize
    ensures 1 <= |e| <= 5
  {
    if dataType <= 7 then [dataType * 32 + SizeField(size)] + SizeBytes(size)
    else [SizeField(size), dataType - 7] + SizeBytes(size)
  }

  /** The shortest pointer to target: 1 to 3 bytes after the control byte
      with 3 high bits in it for targets below 526336 + 2^27, else 4 bytes. */
  function EncodePointer(target: nat): (e: seq<byte>)
    requires target < 0x1_0000_0000
    ensures 2 <= |e| <= 5
  {
    if target < 2048 then
      [0x20 + target / 0x100] + EncodeBigEndian(target % 0x100, 1)
    else if target < 526336 then
      [0x28 + (target - 2048) / 0x1_0000] + EncodeBigEndian((target - 2048) % 0x1_0000, 2)
    else if target < 526336 + 0x800_0000 then
      [0x30 + (target - 526336) / 0x100_0000] + EncodeBigEndian((target - 526336) % 0x100_0000, 3)
    else
      [0x38] + EncodeBigEndian(target, 4)
  }

  lemma AtConcat(buffer: seq<byte>, offset: nat, a: seq<byte>, b: seq<byte>)
    requires At(buffer, offset, a + b)
    ensures At(buffer, offset, a) && At(buffer, offset + |a|, b)
  {
    assert buffer[offset..offset + |a|] == (a + b)[..|a|];
    assert buffer[offset + |a|..offset + |a| + |b|] == (a + b)[|a|..];
  }

  lemma AtIndex(buffer: seq<byte>, offset: nat, e: seq<byte>, i: nat)
    requires At(buffer, offset, e) && i < |e|
    ensures buffer[offset + i] == e[i]
  {
    assert buffer[offset..offset + |e|][i] == e[i];
  }

  lemma Pow256Small()
    ensures Pow256(1) == 0x100 && Pow256(2) == 0x1_0000
    ensures Pow256(3) == 0x100_0000 && Pow256(4) == 0x1_0000_0000
  {
  }

  /** Reading the size continuation bytes a writer puts after the control
      byte gives back the size. */
  lemma SizeBytesRoundTrip(size: nat)
    requires 29 <= size < MaxSize
    ensures |SizeBytes(size)| == SizeField(size) - 28
    ensures BigEndian(SizeBytes(size)) + SizeBias(SizeField(size) - 28) == size
  {
    Pow256Small();
    if size < 285 {
      DecodeEncodeBigEndian(size - 29, 1);
    } else if size < 65821 {
      DecodeEncodeBigEndian(size - 285, 2);
    } else {
      DecodeEncodeBigEndian(size - 65821, 3);
    }
  }

  /** The bytes EncodeControl puts at offset, one by one. */
  lemma ControlBytes(buffer: seq<byte>, offset: nat, dataType: byte, size: nat)
    requires dataType != TypeExtended && size < MaxSize
    requires At(buffer, offset, EncodeControl(dataType, size))
    ensures offset < |buffer|
    ensures dataType <= 7 ==> buffer[offset] == dataType * 32 + SizeField(size)
    ensures dataType > 7 ==> offset + 1 < |buffer| && buffer[offset] == SizeField(size) && buffer[offset + 1] == dataType - 7
    ensures At(buffer, offset + (if dataType <= 7 then 1 else 2), SizeBytes(size))
  {
    var e := EncodeControl(dataType, size);
    var k := if dataType <= 7 then 1 else 2;
    assert e == e[..k] + SizeBytes(size);
    AtConcat(buffer, offset, e[..k], SizeBytes(size));
    AtIndex(buffer, offset, e, 0);
    if dataType > 7 {
      AtIndex(buffer, offset, e, 1);
    }
  }

  /** readControl reads back every type and size a writer encodes. */
  lemma ControlRoundTrip(buffer: seq<byte>, offset: nat, dataType: byte, size: nat)
    requires dataType != TypeExtended && size < MaxSize
    requires At(buffer, offset, EncodeControl(dataType, size))
    ensures ReadControl(buffer, offset) == Ok(Header(dataType, size), offset + |EncodeControl(dataType, size)|)
  {
    ControlBytes(buffer, offset, dataType, size);
    var k := if dataType <= 7 then 1 else 2;
    ControlType(buffer, offset, dataType, SizeField(size));
    if size >= 29 {
      SizeBytesRoundTrip(size);
      LargeSize(buffer, offset, dataType, k, SizeBytes(size));
    }
  }

  /** The type and the 5-bit size field readControl sees in bytes written by
      EncodeControl. */
  lemma ControlType(buffer: seq<byte>, offset: nat, dataType: byte, field: nat)
    requires dataType != TypeExtended && field < 32 && offset < |buffer|
    requires dataType <= 7 ==> buffer[offset] == dataType * 32 + field
    requires dataType > 7 ==> offset + 1 < |buffer| && buffer[offset] == field && buffer[offset + 1] == dataType - 7
    ensures var r := ReadControl(buffer, offset);
            !r.Panic? && buffer[offset] % 32 == field &&
            AfterType(buffer, offset) == offset + (if dataType <= 7 then 1 else 2) &&
            (r.Ok? ==> r.value.dataType == dataType) &&
            (field < 29 ==> r == Ok(Header(dataType, field), AfterType(buffer, offset)))
  {
  }

  /** The size readControl reads from size continuation bytes. */
  lemma LargeSize(buffer: seq<byte>, offset: nat, dataType: byte, k: nat, sizeBytes: seq<byte>)
    requires offset < |buffer| && buffer[offset] % 32 >= 29 && |sizeBytes| == buffer[offset] % 32 - 28
    requires !ReadControl(buffer, offset).Panic? && dataType != TypeExtended
    requires AfterType(buffer, offset) == offset + k
    requires ReadControl(buffer, offset).Ok? ==> ReadControl(buffer, offset).value.dataType == dataType
    requires buffer[offset] >= 32 || ExtendedType(buffer[offset + 1]) != TypeExtended
    requires At(buffer, offset + k, sizeBytes)
    ensures ReadControl(buffer, offset)
         == Ok(Header(dataType, BigEndian(sizeBytes) + SizeBias(|sizeBytes|)), offset + k + |sizeBytes|)
  {
  }

  /** readControl and readPointer read back every pointer a writer encodes. */
  lemma PointerRoundTrip(buffer: seq<byte>, offset: nat, target: nat)
    requires target < 0x1_0000_0000
    requires At(buffer, offset, EncodePointer(target))
    ensures ReadControl(buffer, offset) == Ok(Header(TypePointer, EncodePointer(target)[0] % 32), offset + 1)
    ensures ReadPointer(buffer, EncodePointer(target)[0] % 32, offset + 1)
         == Ok(target, offset + |EncodePointer(target)|)
  {
    var e := EncodePointer(target);
    var rest := e[1..];
    assert e == [e[0]] + rest;
    AtConcat(buffer, offset, [e[0]], rest);
    AtIndex(buffer, offset, e, 0);
    var size := e[0] % 32;
    var w := |rest|;
    var bias := PointerBias(w);
    var high := if w == 4 then 0 else size % 8;
    PointerParts(target, size, w, high, bias);
    PointerControl(buffer, offset);
    var low := (target - bias) % Pow256(w);
    DecodeEncodeBigEndian(low, w);
    PointerRead(buffer, offset + 1, size, rest, target);
  }

  /** A control byte of type Pointer with a size below 29 stands alone. */
  lemma PointerControl(buffer: seq<byte>, offset: nat)
    requires offset < |buffer| && buffer[offset] / 32 == TypePointer && buffer[offset] % 32 < 29
    ensures ReadControl(buffer, offset) == Ok(Header(TypePointer, buffer[offset] % 32), offset + 1)
  {
  }

  lemma PointerRead(buffer: seq<byte>, offset: nat, size: nat, rest: seq<byte>, value: nat)
    requires At(buffer, offset, rest) && |rest| == PointerWidth(size)
    requires value == (if |rest| == 4 then 0 else size % 8) * Pow256(|rest|) + BigEndian(rest) + PointerBias(|rest|)
    ensures ReadPointer(buffer, size, offset) == Ok(value, offset + |rest|)
  {
  }

  /** The arithmetic of EncodePointer: the width the control byte announces,
      and the high bits and the low bytes that add up to the target. */
  lemma PointerParts(target: nat, size: nat, w: nat, high: nat, bias: nat)
    requires target < 0x1_0000_0000
    requires size == EncodePointer(target)[0] % 32 && w == |EncodePointer(target)| - 1
    requires bias == PointerBias(w) && high == (if w == 4 then 0 else size % 8)
    ensures PointerWidth(size) == w && bias <= target && EncodePointer(target)[0] / 32 == TypePointer && size < 29
    ensures high * Pow256(w) + (target - bias) % Pow256(w) + bias == target
    ensures EncodePointer(target)[1..] == EncodeBigEndian((target - bias) % Pow256(w), w)
  {
    if target < 2048 {
      PointerParts1(target, size, w, high, bias);
    } else if target < 526336 {
      PointerParts2(target, size, w, high, bias);
    } else if target < 526336 + 0x800_0000 {
      PointerParts3(target, size, w, high, bias);
    } else {
      PointerParts4(target, size, w, high, bias);
    }
  }

  lemma PointerParts1(target: nat, size: nat, w: nat, high: nat, bias: nat)
    requires target < 2048
    requires target < 0x1_0000_0000
    requires size == EncodePointer(target)[0] % 32 && w == |EncodePointer(target)| - 1
    requires bias == PointerBias(w) && high == (if w == 4 then 0 else size % 8)
    ensures PointerWidth(size) == w && bias <= target && EncodePointer(target)[0] / 32 == TypePointer && size < 29
    ensures high * Pow256(w) + (target - bias) % Pow256(w) + bias == target
    ensures EncodePointer(target)[1..] == EncodeBigEndian((target - bias) % Pow256(w), w)
  {
    var e := EncodePointer(target);
    assert e == [0x20 + target / 0x100] + EncodeBigEndian(target % 0x100, 1);
    assert size == target / 0x100 && w == 1 && bias == 0 && high == size;
    assert Pow256(w) == 0x100;
  }

  lemma PointerParts2(target: nat, size: nat, w: nat, high: nat, bias: nat)
    requires 2048 <= target < 526336
    requires target < 0x1_0000_0000
    requires size == EncodePointer(target)[0] % 32 && w == |EncodePointer(target)| - 1
    requires bias == PointerBias(w) && high == (if w == 4 then 0 else size % 8)
    ensures PointerWidth(size) == w && bias <= target && EncodePointer(target)[0] / 32 == TypePointer && size < 29
    ensures high * Pow256(w) + (target - bias) % Pow256(w) + bias == target
    ensures EncodePointer(target)[1..] == EncodeBigEndian((target - bias) % Pow256(w), w)
  {
    var d := target - 2048;
    var q, low := d / 0x1_0000, d % 0x1_0000;
    assert EncodePointer(target) == [0x28 + q] + EncodeBigEndian(low, 2);
    assert q < 8 && size == 8 + q && w == 2 && bias == 2048 && high == q;
    assert q * 0x1_0000 + low == d;
    assert Pow256(w) == 0x1_0000 by { Pow256Small(); }
  }

  lemma PointerParts3(target: nat, size: nat, w: nat, high: nat, bias: nat)
    requires 526336 <= target < 526336 + 0x800_0000
    requires target < 0x1_0000_0000
    requires size == EncodePointer(target)[0] % 32 && w == |EncodePointer(target)| - 1
    requires bias == PointerBias(w) && high == (if w == 4 then 0 else size % 8)
    ensures PointerWidth(size) == w && bias <= target && EncodePointer(target)[0] / 32 == TypePointer && size < 29
    ensures high * Pow256(w) + (target - bias) % Pow256(w) + bias == target
    ensures EncodePointer(target)[1..] == EncodeBigEndian((target - bias) % Pow256(w), w)
  {
    var d := target - 526336;
    var q, low := d / 0x100_0000, d % 0x100_0000;
    assert EncodePointer(target) == [0x30 + q] + EncodeBigEndian(low, 3);
    assert q < 8 && size == 16 + q && w == 3 && bias == 526336 && high == q;
    assert q * 0x100_0000 + low == d;
    assert Pow256(w) == 0x100_0000 by { Pow256Small(); }
  }

  lemma PointerParts4(target: nat, size: nat, w: nat, high: nat, bias: nat)
    requires 526336 + 0x800_0000 <= target
    requires target < 0x1_0000_0000
    requires size == EncodePointer(target)[0] % 32 && w == |EncodePointer(target)| - 1
    requires bias == PointerBias(w) && high == (if w == 4 then 0 else size % 8)
    ensures PointerWidth(size) == w && bias <= target && EncodePointer(target)[0] / 32 == TypePointer && size < 29
    ensures high * Pow256(w) + (target - bias) % Pow256(w) + bias == target
    ensures EncodePointer(target)[1..] == EncodeBigEndian((target - bias) % Pow256(w), w)
  {
    var e := EncodePointer(target);
    assert e == [0x38] + EncodeBigEndian(target, 4);
    assert size == 24 && w == 4 && bias == 0 && high == 0;
    assert Pow256(w) == 0x1_0000_0000 by { Pow256Small(); }
  }

  /** An inline string decodes to its transliteration and the reader
      continues right after it. */
  lemma StringRoundTrip(buffer: seq<byte>, offset: nat, s: seq<byte>, start: nat)
    requires |s| < MaxSize
    requires At(buffer, offset, EncodeControl(TypeString, |s|))
    requires start == offset + |EncodeControl(TypeString, |s|)| && At(buffer, start, s)
    ensures ReadString(buffer, offset) == Ok(ToIso88591(s), start + |s|)
  {
    ControlRoundTrip(buffer, offset, TypeString, |s|);
    InlineString(buffer, offset, s, start);
  }

  /** A string behind a pointer decodes to the same value as the string
      stored inline, and the reader continues right after the pointer. */
  lemma StringThroughPointer(buffer: seq<byte>, offset: nat, target: nat, s: seq<byte>, start: nat)
    requires target < 0x1_0000_0000 && |s| < MaxSize
    requires At(buffer, offset, EncodePointer(target))
    requires At(buffer, target, EncodeControl(TypeString, |s|))
    requires start == target + |EncodeControl(TypeString, |s|)| && At(buffer, start, s)
    ensures ReadString(buffer, offset) == Ok(ToIso88591(s), offset + |EncodePointer(target)|)
  {
    PointerRoundTrip(buffer, offset, target);
    ControlRoundTrip(buffer, target, TypeString, |s|);
    PointerString(buffer, offset, EncodePointer(target)[0] % 32, offset + 1, target,
                  offset + |EncodePointer(target)|, s, start);
  }

  /** An inline uint16 of up to 2 bytes decodes to its value. */
  lemma UInt16RoundTrip(buffer: seq<byte>, offset: nat, v: nat, n: nat)
    requires n <= 2 && v < Pow256(n)
    requires At(buffer, offset, EncodeControl(TypeUint16, n))
    requires At(buffer, offset + 1, EncodeBigEndian(v, n))
    ensures ReadUInt16(buffer, offset) == Ok(v, offset + 1 + n)
  {
    ControlRoundTrip(buffer, offset, TypeUint16, n);
    InlineUInt16(buffer, offset, EncodeBigEndian(v, n), offset + 1);
    Pow256Monotone(n, 2);
    Pow256Small();
    SmallValue(v, n, 0x1_0000);
  }

  /** An inline uint32 of up to 4 bytes decodes to its value. */
  lemma UInt32RoundTrip(buffer: seq<byte>, offset: nat, v: nat, n: nat)
    requires n <= 4 && v < Pow256(n)
    requires At(buffer, offset, EncodeControl(TypeUint32, n))
    requires At(buffer, offset + 1, EncodeBigEndian(v, n))
    ensures ReadUInt32(buffer, offset) == Ok(v, offset + 1 + n)
  {
    ControlRoundTrip(buffer, offset, TypeUint32, n);
    InlineUInt32(buffer, offset, EncodeBigEndian(v, n), offset + 1);
    Pow256Monotone(n, 4);
    Pow256Small();
    SmallValue(v, n, 0x1_0000_0000);
  }

  /** bytesToUInt64 reads back a value written in at most four bytes, and
      cutting it to a modulus above its range changes nothing. */
  lemma SmallValue(v: nat, n: nat, modulus: nat)
    requires n <= 4 && v < Pow256(n) <= modulus
    ensures BytesToUInt64(EncodeBigEndian(v, n)) % modulus == v
  {
    var s := EncodeBigEndian(v, n);
    if n == 0 {
      assert BytesToUInt64(s) == 0 == v;
    } else {
      DecodeEncodeBigEndian(v, n);
      assert BytesToUInt64(s) == v;
    }
    SmallModulus(v, modulus);
  }


  lemma {:induction false} Pow256Monotone(m: nat, n: nat)
    requires m <= n
    ensures Pow256(m) <= Pow256(n)
    decreases n - m
  {
    if m < n {
      Pow256Monotone(m + 1, n);
    }
  }

  /** A boolean is an extended type whose size is its value. */
  lemma BoolRoundTrip(buffer: seq<byte>, offset: nat, b: bool)
    requires At(buffer, offset, EncodeControl(TypeBool, if b then 1 else 0))
    ensures ReadBool(buffer, offset) == Ok(b, offset + 2)
  {
    ControlRoundTrip(buffer, offset, TypeBool, if b then 1 else 0);
    InlineBool(buffer, offset, if b then 1 else 0, offset + 2);
  }

  /** An inline key decodes to its raw bytes. */
  lemma MapKeyRoundTrip(buffer: seq<byte>, offset: nat, k: seq<byte>, start: nat)
    requires |k| < MaxSize
    requires At(buffer, offset, EncodeControl(TypeString, |k|))
    requires start == offset + |EncodeControl(TypeString, |k|)| && At(buffer, start, k)
    ensures ReadMapKey(buffer, offset) == Ok(k, start + |k|)
  {
    ControlRoundTrip(buffer, offset, TypeString, |k|);
    InlineMapKey(buffer, offset, k, start);
  }

  /** An entry written as an inline String key followed by an inline String
      value decodes to the raw key and value. */
  lemma EntryRoundTrip(buffer: seq<byte>, offset: nat, k: seq<byte>, keyStart: nat,
                       v: seq<byte>, valueOffset: nat, valueStart: nat)
    requires |k| < MaxSize && |v| < MaxSize
    requires At(buffer, offset, EncodeControl(TypeString, |k|))
    requires keyStart == offset + |EncodeControl(TypeString, |k|)| && At(buffer, keyStart, k)
    requires valueOffset == keyStart + |k| && At(buffer, valueOffset, EncodeControl(TypeString, |v|))
    requires valueStart == valueOffset + |EncodeControl(TypeString, |v|)| && At(buffer, valueStart, v)
    ensures ReadEntry(buffer, offset) == Ok((k, v), valueStart + |v|)
  {
    ControlRoundTrip(buffer, offset, TypeString, |k|);
    ControlRoundTrip(buffer, valueOffset, TypeString, |v|);
    InlineEntry(buffer, offset, k, keyStart, v, valueOffset, valueStart);
  }

  /** A map holding one string entry decodes to that entry, its key converted
      as the key mode says and its value transliterated. */
  lemma StringMapRoundTrip(mode: KeyMode, buffer: seq<byte>, offset: nat, k: seq<byte>, keyStart: nat,
                           v: seq<byte>, valueOffset: nat, valueStart: nat)
    requires |k| < MaxSize && |v| < MaxSize
    requires At(buffer, offset, EncodeControl(TypeMap, 1))
    requires At(buffer, offset + 1, EncodeControl(TypeString, |k|))
    requires keyStart == offset + 1 + |EncodeControl(TypeString, |k|)| && At(buffer, keyStart, k)
    requires valueOffset == keyStart + |k| && At(buffer, valueOffset, EncodeControl(TypeString, |v|))
    requires valueStart == valueOffset + |EncodeControl(TypeString, |v|)| && At(buffer, valueStart, v)
    ensures ReadStringMap(mode, buffer, offset) == Ok(map[KeyString(mode, k) := ToIso88591(v)], valueStart + |v|)
  {
    ControlRoundTrip(buffer, offset, TypeMap, 1);
    InlineStringMap(mode, buffer, offset, 1, offset + 1);
    EntryRoundTrip(buffer, offset + 1, k, keyStart, v, valueOffset, valueStart);
    OneEntry(mode, EntryReader(buffer), offset + 1, k, v, valueStart + |v|);
  }

  lemma OneEntry(mode: KeyMode, entries: nat -> Outcome<(seq<byte>, seq<byte>)>, offset: nat,
                 k: seq<byte>, v: seq<byte>, next: nat)
    requires entries(offset) == Ok((k, v), next)
    ensures StringMapMapFrom(mode, entries, 1, offset, map[]) == Ok(map[KeyString(mode, k) := ToIso88591(v)], next)
  {
    assert map[][KeyString(mode, k) := ToIso88591(v)] == map[KeyString(mode, k) := ToIso88591(v)];
  }
}

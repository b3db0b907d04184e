/** The data-section decoder of the MaxMind DB File Format Specification 2.0
    ("Data Field Format", "Pointer - 1", "Extended Types"): control bytes,
    pointers, and the typed readers that accept a value either inline or
    behind one pointer. The packages geoip2 and geoip2_iso88591 hold two
    copies of it that differ only in how string-map keys are converted, which
    is the KeyMode parameter here. */
module Decoder {
  import opened Bytes
  import opened Transliterate
  import opened TransliterateLemmas

  // The data types, numbered as the format specifies.
  const TypeExtended: byte := 0
  const TypePointer: byte := 1
  const TypeString: byte := 2
  const TypeDouble: byte := 3
  const TypeBytes: byte := 4
  const TypeUint16: byte := 5
  const TypeUint32: byte := 6
  const TypeMap: byte := 7
  const TypeInt32: byte := 8
  const TypeUint64: byte := 9
  const TypeUint128: byte := 10
  const TypeSlice: byte := 11
  const TypeContainer: byte := 12
  const TypeEndMarker: byte := 13
  const TypeBool: byte := 14
  const TypeFloat32: byte := 15

  /** The errors the decoder returns; Message gives the Go text of each. */
  datatype Error =
    | InvalidOffset
    | InvalidType(reader: string, dataType: byte)
    | InvalidPointerType(reader: string, dataType: byte)
    | MapKeyNotString(dataType: byte)
    | InvalidKeyDataType(key: seq<byte>, dataType: byte)
    | UnknownKey(record: string, key: seq<byte>)
    | WrongDatabaseType(databaseType: seq<byte>)
    | External(message: string)

  /** A decoded value with the offset to continue from, an error the code
      returns, or a Go runtime panic (an index or slice out of range that the
      code does not check). */
  datatype Outcome<+T> = Ok(value: T, next: nat) | Fail(error: Error) | Panic

  /** The type and payload size a control byte announces. */
  datatype Header = Header(dataType: byte, size: nat)

  /** How readStringMapMap turns a raw key into a map key: geoip2
      transliterates keys like values, geoip2_iso88591 keeps their bytes. */
  datatype KeyMode = Transliterated | Raw

  function Decimal(n: nat): string
  {
    if n < 10 then [('0' as int + n) as char]
    else Decimal(n / 10) + [('0' as int + n % 10) as char]
  }

  /** Go's `string(b)` of a byte slice, shown as characters. */
  function Chars(b: seq<byte>): string
  {
    seq(|b|, i requires 0 <= i < |b| => b[i] as char)
  }

  /** The bytes of a literal Go string of Latin-1 characters. */
  function Ascii(s: string): (b: seq<byte>)
    requires forall i :: 0 <= i < |s| ==> s[i] as int < 256
    ensures |b| == |s|
  {
    seq(|s|, i requires 0 <= i < |s| => s[i] as int)
  }

  function Message(e: Error): string
  {
    match e
    case InvalidOffset => "invalid offset"
    case InvalidType(reader, t) => "invalid " + reader + " type: " + Decimal(t)
    case InvalidPointerType(reader, t) => "invalid " + reader + " pointer type: " + Decimal(t)
    case MapKeyNotString(t) => "map key must be a string, got: " + Decimal(t)
    case InvalidKeyDataType(key, t) => "invalid data type of key " + Chars(key) + ": " + Decimal(t)
    case UnknownKey(record, key) => "unknown " + record + " key: " + Chars(key)
    case WrongDatabaseType(t) => "wrong MaxMind DB ISP type: " + Chars(t)
    case External(m) => m
  }

  /** Whether e sits in buffer at offset. */
  predicate At(buffer: seq<byte>, offset: nat, e: seq<byte>)
  {
    offset + |e| <= |buffer| && buffer[offset..offset + |e|] == e
  }

  // ---------------------------------------------------------------------
  // Control bytes

  /** What is added to the continuation bytes of a size of 29, 30 or 31. */
  function SizeBias(bytesToRead: nat): nat
  {
    if bytesToRead == 1 then 29 else if bytesToRead == 2 then 285 else 65821
  }

  /** `buffer[offset] + 7` on a Go byte: the real type of an extended type. */
  function ExtendedType(b: byte): byte
  {
    (b as int + 7) % 256
  }

  /** The offset after the control byte and the extended-type byte, if any. */
  function AfterType(buffer: seq<byte>, offset: nat): nat
    requires offset < |buffer|
  {
    if buffer[offset] / 32 == TypeExtended then offset + 2 else offset + 1
  }

  /** readControl: the type is the top 3 bits of the first byte, or, when
      they are 0, the next byte plus 7 in 8-bit arithmetic; the size is the
      low 5 bits, or 1, 2 or 3 big-endian continuation bytes plus a bias when
      those bits are 29, 30 or 31. */
  function ReadControl(buffer: seq<byte>, offset: nat): (r: Outcome<Header>)
    ensures r.Panic? <==> offset >= |buffer| || (buffer[offset] < 32 && offset + 1 >= |buffer|)
    ensures r.Fail? ==> r.error == InvalidOffset
    ensures r.Ok? ==> offset < r.next <= |buffer|
    ensures r.Ok? ==>
      r.value.dataType == (if buffer[offset] >= 32 then buffer[offset] / 32 else ExtendedType(buffer[offset + 1]))
    ensures r.Ok? && (buffer[offset] % 32 < 29 || r.value.dataType == TypeExtended) ==>
      r.value.size == buffer[offset] % 32 && r.next == AfterType(buffer, offset)
    ensures (!r.Panic? && buffer[offset] % 32 >= 29 &&
             (buffer[offset] >= 32 || ExtendedType(buffer[offset + 1]) != TypeExtended)) ==>
      var start, n := AfterType(buffer, offset), buffer[offset] % 32 - 28;
      (r.Fail? <==> start + n > |buffer|) &&
      (r.Ok? ==> r.next == start + n && r.value.size == BigEndian(buffer[start..r.next]) + SizeBias(n))
  {
    if offset >= |buffer| then Panic
    else
      var control := buffer[offset];
      if control / 32 == TypeExtended && offset + 1 >= |buffer| then Panic
      else
        var dataType := if control / 32 == TypeExtended then ExtendedType(buffer[offset + 1]) else control / 32;
        var start := AfterType(buffer, offset);
        var size := control % 32;
        if dataType == TypeExtended || size < 29 then Ok(Header(dataType, size), start)
        else
          var bytesToRead := size - 28;
          var newOffset := start + bytesToRead;
          if newOffset > |buffer| then Fail(InvalidOffset)
          else Ok(Header(dataType, BytesToUInt64(buffer[start..newOffset]) + SizeBias(bytesToRead)), newOffset)
  }

  // ---------------------------------------------------------------------
  // Pointers

  /** `((size >> 3) & 0x3) + 1`. */
  function PointerWidth(size: nat): (w: nat)
    ensures 1 <= w <= 4
  {
    (size / 8) % 4 + 1
  }

  function PointerBias(width: nat): nat
  {
    if width == 2 then 2048 else if width == 3 then 526336 else 0
  }

  lemma PointerValueFits(prefix: nat, width: nat, rest: seq<byte>)
    requires prefix < 8 && 1 <= width <= 4 && |rest| == width
    ensures prefix * Pow256(width) + BigEndian(rest) < 0x8_0000_0000
    ensures prefix * Pow256(width) + BigEndian(rest) < Word
  {
    assert Pow256(width) <= 0x1_0000_0000 by {
      assert Pow256(1) == 256;
      assert Pow256(4) == 0x1_0000_0000;
    }
  }

  /** readPointer: width bytes after the control byte; for widths 1 to 3 the
      low 3 bits of the size are the high bits of the value; the width's bias
      is added. */
  function ReadPointer(buffer: seq<byte>, size: nat, offset: nat): (r: Outcome<nat>)
    ensures !r.Panic?
    ensures r.Fail? <==> offset + PointerWidth(size) > |buffer|
    ensures r.Fail? ==> r.error == InvalidOffset
    ensures r.Ok? ==> r.next == offset + PointerWidth(size)
    ensures r.Ok? ==>
      var w := PointerWidth(size);
      r.value == (if w == 4 then 0 else size % 8) * Pow256(w) + BigEndian(buffer[offset..r.next]) + PointerBias(w)
  {
    var pointerSize := PointerWidth(size);
    var newOffset := offset + pointerSize;
    if newOffset > |buffer| then Fail(InvalidOffset)
    else
      var prefix := if pointerSize != 4 then size % 8 else 0;
      var rest := buffer[offset..newOffset];
      PointerValueFits(prefix, pointerSize, rest);
      SmallModulus(prefix * Pow256(pointerSize) + BigEndian(rest), Word);
      var unpacked := BytesToUInt64WithPrefix(prefix, rest);
      Ok(unpacked + PointerBias(pointerSize), newOffset)
  }

  // ---------------------------------------------------------------------
  // Typed readers

  /** The protocol every typed reader follows: an inline value of the
      expected type is decoded by payload; a pointer is followed once, the
      value there must have the expected type, and the reader continues
      right after the pointer; any other type is an error. */
  function ReadValue<T>(buffer: seq<byte>, offset: nat, expected: byte, reader: string,
                        payload: (Header, nat) -> Outcome<T>): (r: Outcome<T>)
    ensures ReadControl(buffer, offset).Panic? ==> r.Panic?
    ensures ReadControl(buffer, offset).Fail? ==> r == Fail(InvalidOffset)
    ensures ReadControl(buffer, offset).Ok? && ReadControl(buffer, offset).value.dataType !in {expected, TypePointer} ==>
              r == Fail(InvalidType(reader, ReadControl(buffer, offset).value.dataType))
  {
    match ReadControl(buffer, offset)
    case Panic => Panic
    case Fail(e) => Fail(e)
    case Ok(h, start) =>
      if h.dataType == expected then payload(h, start)
      else if h.dataType == TypePointer then
        match ReadPointer(buffer, h.size, start)
        case Panic => Panic
        case Fail(e) => Fail(e)
        case Ok(target, afterPointer) =>
          match ReadControl(buffer, target)
          case Panic => Panic
          case Fail(e) => Fail(e)
          case Ok(h2, start2) =>
            if h2.dataType != expected then Fail(InvalidPointerType(reader, h2.dataType))
            else
              match payload(h2, start2)
              case Panic => Panic
              case Fail(e) => Fail(e)
              case Ok(v, _) => Ok(v, afterPointer)
      else Fail(InvalidType(reader, h.dataType))
  }

  /** A payload decoder that ends between its start and bound, and whose
      values satisfy keeps. */
  ghost predicate PayloadWithin<T>(payload: (Header, nat) -> Outcome<T>, bound: nat, keeps: T -> bool)
  {
    forall h: Header, start: nat {:trigger payload(h, start)} ::
      start <= bound && payload(h, start).Ok? ==>
        start <= payload(h, start).next <= bound && keeps(payload(h, start).value)
  }

  /** What a typed reader returns comes from its payload decoder, inline or
      at the pointer's target, and it always ends after the offset. */
  lemma ReadValueWithin<T>(buffer: seq<byte>, offset: nat, expected: byte, reader: string,
                           payload: (Header, nat) -> Outcome<T>, keeps: T -> bool)
    requires PayloadWithin(payload, |buffer|, keeps)
    ensures var r := ReadValue(buffer, offset, expected, reader, payload);
            r.Ok? ==> offset < r.next <= |buffer| && keeps(r.value)
  {
  }

  /** The property every value has. */
  function Anything<T>(): T -> bool
  {
    (v: T) => true
  }

  function Below(m: nat): nat -> bool
  {
    (v: nat) => v < m
  }

  function Bytes8(): seq<byte> -> bool
  {
    (v: seq<byte>) => |v| == 8
  }

  /** The `size` payload bytes at start; slicing past the end panics. */
  function Payload(buffer: seq<byte>, h: Header, start: nat): (r: Outcome<seq<byte>>)
    ensures r.Ok? ==> r.next == start + h.size <= |buffer| && r.value == buffer[start..r.next]
    ensures r.Panic? <==> start + h.size > |buffer|
    ensures !r.Fail?
  {
    if start + h.size > |buffer| then Panic else Ok(buffer[start..start + h.size], start + h.size)
  }

  /** readString's slice of `size` bytes, transliterated: never longer than
      the slice, and the reader continues right after it. */
  function StringPayload(buffer: seq<byte>, h: Header, start: nat): (r: Outcome<seq<byte>>)
    ensures r.Ok? ==> r.next == start + h.size <= |buffer| && |r.value| <= h.size
    ensures r.Panic? <==> start + h.size > |buffer|
    ensures !r.Fail?
  {
    match Payload(buffer, h, start)
    case Ok(b, next) => Ok(ToIso88591(b), next)
    case Fail(e) => Fail(e)
    case Panic => Panic
  }

  function Uint16Payload(buffer: seq<byte>, h: Header, start: nat): Outcome<nat>
  {
    match Payload(buffer, h, start)
    case Ok(b, next) => Ok(BytesToUInt64(b) % 0x1_0000, next)
    case Fail(e) => Fail(e)
    case Panic => Panic
  }

  function Uint32Payload(buffer: seq<byte>, h: Header, start: nat): Outcome<nat>
  {
    match Payload(buffer, h, start)
    case Ok(b, next) => Ok(BytesToUInt64(b) % 0x1_0000_0000, next)
    case Fail(e) => Fail(e)
    case Panic => Panic
  }

  /** bytesToFloat64 reinterprets the first 8 payload bytes and panics on
      fewer; the model keeps those 8 bytes. */
  function Float64Payload(buffer: seq<byte>, h: Header, start: nat): Outcome<seq<byte>>
  {
    match Payload(buffer, h, start)
    case Ok(b, next) => if |b| < 8 then Panic else Ok(b[..8], next)
    case Fail(e) => Fail(e)
    case Panic => Panic
  }

  // The payload decoders as values, one per typed reader.
  function AsUint16(buffer: seq<byte>): (Header, nat) -> Outcome<nat>
  {
    (h: Header, start: nat) => Uint16Payload(buffer, h, start)
  }

  function AsUint32(buffer: seq<byte>): (Header, nat) -> Outcome<nat>
  {
    (h: Header, start: nat) => Uint32Payload(buffer, h, start)
  }

  function AsFloat64(buffer: seq<byte>): (Header, nat) -> Outcome<seq<byte>>
  {
    (h: Header, start: nat) => Float64Payload(buffer, h, start)
  }

  function AsString(buffer: seq<byte>): (Header, nat) -> Outcome<seq<byte>>
  {
    (h: Header, start: nat) => StringPayload(buffer, h, start)
  }

  /** A boolean has no payload: its value is `size != 0`. */
  function BoolPayload(h: Header, start: nat): Outcome<bool>
  {
    Ok(h.size != 0, start)
  }

  /** readUInt16: the payload as a big-endian number, truncated to 16 bits. */
  function ReadUInt16(buffer: seq<byte>, offset: nat): (r: Outcome<nat>)
    ensures r.Ok? ==> offset < r.next <= |buffer| && r.value < 0x1_0000
  {
    assert PayloadWithin(AsUint16(buffer), |buffer|, Below(0x1_0000));
    ReadValueWithin(buffer, offset, TypeUint16, "uint16", AsUint16(buffer), Below(0x1_0000));
    ReadValue(buffer, offset, TypeUint16, "uint16", AsUint16(buffer))
  }

  /** readUInt32: the payload as a big-endian number, truncated to 32 bits. */
  function ReadUInt32(buffer: seq<byte>, offset: nat): (r: Outcome<nat>)
    ensures r.Ok? ==> offset < r.next <= |buffer| && r.value < 0x1_0000_0000
  {
    assert PayloadWithin(AsUint32(buffer), |buffer|, Below(0x1_0000_0000));
    ReadValueWithin(buffer, offset, TypeUint32, "uint32", AsUint32(buffer), Below(0x1_0000_0000));
    ReadValue(buffer, offset, TypeUint32, "uint32", AsUint32(buffer))
  }

  /** readFloat64, with the 8 bytes of the IEEE-754 value left uninterpreted. */
  function ReadFloat64(buffer: seq<byte>, offset: nat): (r: Outcome<seq<byte>>)
    ensures r.Ok? ==> offset < r.next <= |buffer| && |r.value| == 8
  {
    assert PayloadWithin(AsFloat64(buffer), |buffer|, Bytes8());
    ReadValueWithin(buffer, offset, TypeDouble, "float64", AsFloat64(buffer), Bytes8());
    ReadValue(buffer, offset, TypeDouble, "float64", AsFloat64(buffer))
  }

  /** readBool: consumes no payload bytes. */
  function ReadBool(buffer: seq<byte>, offset: nat): (r: Outcome<bool>)
    ensures r.Ok? ==> offset < r.next <= |buffer|
  {
    assert PayloadWithin(BoolPayload, |buffer|, Anything());
    ReadValueWithin(buffer, offset, TypeBool, "bool", BoolPayload, Anything());
    ReadValue(buffer, offset, TypeBool, "bool", BoolPayload)
  }

  /** readString: the payload transliterated to ISO-8859-1 (bytesToString). */
  function ReadString(buffer: seq<byte>, offset: nat): (r: Outcome<seq<byte>>)
    ensures r.Ok? ==> offset < r.next <= |buffer|
  {
    assert PayloadWithin(AsString(buffer), |buffer|, Anything());
    ReadValueWithin(buffer, offset, TypeString, "string", AsString(buffer), Anything());
    ReadValue(buffer, offset, TypeString, "string", AsString(buffer))
  }

  /** readMapKey: the raw bytes of a String key, inline or behind one
      pointer; only the inline branch checks that the key fits the buffer. */
  function ReadMapKey(buffer: seq<byte>, offset: nat): (r: Outcome<seq<byte>>)
    ensures r.Ok? ==> offset < r.next <= |buffer|
  {
    match ReadControl(buffer, offset)
    case Panic => Panic
    case Fail(e) => Fail(e)
    case Ok(h, start) =>
      if h.dataType == TypePointer then
        match ReadPointer(buffer, h.size, start)
        case Panic => Panic
        case Fail(e) => Fail(e)
        case Ok(target, afterPointer) =>
          match ReadControl(buffer, target)
          case Panic => Panic
          case Fail(e) => Fail(e)
          case Ok(h2, start2) =>
            if h2.dataType != TypeString then Fail(MapKeyNotString(h2.dataType))
            else if start2 + h2.size > |buffer| then Panic
            else Ok(buffer[start2..start2 + h2.size], afterPointer)
      else if h.dataType != TypeString then Fail(MapKeyNotString(h.dataType))
      else if start + h.size > |buffer| then Fail(InvalidOffset)
      else Ok(buffer[start..start + h.size], start + h.size)
  }

  // ---------------------------------------------------------------------
  // String maps and string slices

  /** bytesToKeyString in geoip2_iso88591, bytesToString in geoip2: never
      longer than the key, and an ASCII key is kept as it is in both modes. */
  function KeyString(mode: KeyMode, key: seq<byte>): (r: seq<byte>)
    ensures |r| <= |key|
    ensures AllAscii(key) ==> r == key
  {
    if mode == Transliterated then
      if AllAscii(key) then AsciiIdentity(key); ToIso88591(key) else ToIso88591(key)
    else key
  }

  /** One iteration of readStringMapMap: a key, then a String value inline
      or behind one pointer; both raw. */
  function ReadEntry(buffer: seq<byte>, offset: nat): (r: Outcome<(seq<byte>, seq<byte>)>)
    ensures r.Ok? ==> offset < r.next <= |buffer|
  {
    match ReadMapKey(buffer, offset)
    case Panic => Panic
    case Fail(e) => Fail(e)
    case Ok(key, afterKey) => EntryValue(buffer, key, afterKey)
  }

  /** The value half of an entry, at afterKey: a String inline or behind
      one pointer, its bytes raw. */
  function EntryValue(buffer: seq<byte>, key: seq<byte>, afterKey: nat): (r: Outcome<(seq<byte>, seq<byte>)>)
    ensures r.Ok? ==> afterKey < r.next <= |buffer| && r.value.0 == key
  {
    match ReadControl(buffer, afterKey)
    case Panic => Panic
    case Fail(e) => Fail(e)
    case Ok(h, start) =>
      if h.dataType == TypePointer then
        match ReadPointer(buffer, h.size, start)
        case Panic => Panic
        case Fail(e) => Fail(e)
        case Ok(target, afterPointer) =>
          match ReadControl(buffer, target)
          case Panic => Panic
          case Fail(e) => Fail(e)
          case Ok(h2, valueOffset) =>
            // the source reports a value of the wrong type with its map-key message
            if h2.dataType != TypeString then Fail(MapKeyNotString(h2.dataType))
            else if valueOffset + h2.size > |buffer| then Panic
            else Ok((key, buffer[valueOffset..valueOffset + h2.size]), afterPointer)
      else if h.dataType == TypeString then
        if start + h.size > |buffer| then Panic
        else Ok((key, buffer[start..start + h.size]), start + h.size)
      else Fail(InvalidKeyDataType(key, h.dataType))
  }

  /** ReadEntry as a function of the offset: the step of the map loop. */
  function EntryReader(buffer: seq<byte>): nat -> Outcome<(seq<byte>, seq<byte>)>
  {
    (o: nat) => ReadEntry(buffer, o)
  }

  /** Whether every successful read of step moves forward and stays within
      the first bound bytes. */
  ghost predicate Advances<T>(step: nat -> Outcome<T>, bound: nat)
  {
    forall o: nat :: step(o).Ok? ==> o < step(o).next <= bound
  }

  lemma EntryReaderAdvances(buffer: seq<byte>)
    ensures Advances(EntryReader(buffer), |buffer|)
  {
  }

  /** The remaining iterations of readStringMapMap's loop, each reading an
      entry with entries, from the map built so far: a later entry
      overwrites an earlier one with the same key. */
  function StringMapMapFrom(mode: KeyMode, entries: nat -> Outcome<(seq<byte>, seq<byte>)>, remaining: nat,
                            offset: nat, acc: map<seq<byte>, seq<byte>>): (r: Outcome<map<seq<byte>, seq<byte>>>)
    ensures r.Ok? ==> acc.Keys <= r.value.Keys
    decreases remaining
  {
    if remaining == 0 then Ok(acc, offset)
    else
      match entries(offset)
      case Panic => Panic
      case Fail(e) => Fail(e)
      case Ok(kv, next) =>
        StringMapMapFrom(mode, entries, remaining - 1, next, acc[KeyString(mode, kv.0) := ToIso88591(kv.1)])
  }

  /** readStringMapMap as a function of its inputs. */
  function StringMapMap(mode: KeyMode, buffer: seq<byte>, mapSize: nat, offset: nat): Outcome<map<seq<byte>, seq<byte>>>
  {
    StringMapMapFrom(mode, EntryReader(buffer), mapSize, offset, map[])
  }

  /** A completed loop has moved at least one byte per entry, and ends
      within the bound of its reads once it reads anything. */
  lemma {:induction false} StringMapMapFromBounds(mode: KeyMode, entries: nat -> Outcome<(seq<byte>, seq<byte>)>,
                                                  bound: nat, remaining: nat, offset: nat, acc: map<seq<byte>, seq<byte>>)
    requires Advances(entries, bound)
    ensures var r := StringMapMapFrom(mode, entries, remaining, offset, acc);
            r.Ok? ==> offset + remaining <= r.next && (remaining > 0 ==> r.next <= bound)
    decreases remaining
  {
    if remaining > 0 && entries(offset).Ok? {
      var e := entries(offset);
      StringMapMapFromBounds(mode, entries, bound, remaining - 1, e.next,
                             acc[KeyString(mode, e.value.0) := ToIso88591(e.value.1)]);
    }
  }

  /** readStringMapMap: the loop of StringMapMapLoop over the entries of the
      buffer. */
  method ReadStringMapMap(mode: KeyMode, buffer: seq<byte>, mapSize: nat, offset: nat)
    returns (r: Outcome<map<seq<byte>, seq<byte>>>)
    ensures r == StringMapMap(mode, buffer, mapSize, offset)
  {
    r := StringMapMapLoop(mode, EntryReader(buffer), mapSize, offset);
  }

  /** The loop of readStringMapMap: mapSize entries, each read by entries
      (a key, then its String value) where the previous one ended. */
  method StringMapMapLoop(mode: KeyMode, entries: nat -> Outcome<(seq<byte>, seq<byte>)>, mapSize: nat, offset: nat)
    returns (r: Outcome<map<seq<byte>, seq<byte>>>)
    ensures r == StringMapMapFrom(mode, entries, mapSize, offset, map[])
  {
    var result: map<seq<byte>, seq<byte>> := map[];
    var off := offset;
    var i := 0;
    while i < mapSize
      invariant 0 <= i <= mapSize
      invariant StringMapMapFrom(mode, entries, mapSize - i, off, result)
             == StringMapMapFrom(mode, entries, mapSize, offset, map[])
    {
      var entry := entries(off);
      match entry {
        case Panic =>
          return Panic;
        case Fail(e) =>
          return Fail(e);
        case Ok(kv, next) =>
          result := result[KeyString(mode, kv.0) := ToIso88591(kv.1)];
          off := next;
      }
      i := i + 1;
    }
    return Ok(result, off);
  }

  /** The contents of a map with h.size entries read from start. */
  function AsStringMap(mode: KeyMode, buffer: seq<byte>): (Header, nat) -> Outcome<map<seq<byte>, seq<byte>>>
  {
    (h: Header, start: nat) => StringMapMap(mode, buffer, h.size, start)
  }

  /** readStringMap: an inline Map is read from just past its control byte;
      behind a pointer, the reader continues right after the pointer and the
      offset reached after the map contents is discarded. */
  function ReadStringMap(mode: KeyMode, buffer: seq<byte>, offset: nat): (r: Outcome<map<seq<byte>, seq<byte>>>)
    ensures r.Ok? ==> offset < r.next <= |buffer|
  {
    EntryReaderAdvances(buffer);
    assert PayloadWithin(AsStringMap(mode, buffer), |buffer|, Anything()) by {
      forall h: Header, start: nat {
        StringMapMapFromBounds(mode, EntryReader(buffer), |buffer|, h.size, start, map[]);
      }
    }
    ReadValueWithin(buffer, offset, TypeMap, "stringMap", AsStringMap(mode, buffer), Anything());
    ReadValue(buffer, offset, TypeMap, "stringMap", AsStringMap(mode, buffer))
  }

  /** ReadString as a function of the offset: the step of the slice loop. */
  function StringReader(buffer: seq<byte>): nat -> Outcome<seq<byte>>
  {
    (o: nat) => ReadString(buffer, o)
  }

  /** The remaining iterations of readStringSlice's loop, each reading a
      string with strings, after the strings read so far. */
  function StringSliceFrom(strings: nat -> Outcome<seq<byte>>, remaining: nat, offset: nat,
                           acc: seq<seq<byte>>): (r: Outcome<seq<seq<byte>>>)
    ensures r.Ok? ==> |r.value| == |acc| + remaining && r.value[..|acc|] == acc
    decreases remaining
  {
    if remaining == 0 then Ok(acc, offset)
    else
      match strings(offset)
      case Panic => Panic
      case Fail(e) => Fail(e)
      case Ok(v, next) => StringSliceFrom(strings, remaining - 1, next, acc + [v])
  }

  function StringSlice(buffer: seq<byte>, sliceSize: nat, offset: nat): Outcome<seq<seq<byte>>>
  {
    StringSliceFrom(StringReader(buffer), sliceSize, offset, [])
  }

  /** readStringSlice: the loop of StringSliceLoop over the strings of the
      buffer. */
  method ReadStringSlice(buffer: seq<byte>, sliceSize: nat, offset: nat) returns (r: Outcome<seq<seq<byte>>>)
    ensures r == StringSlice(buffer, sliceSize, offset)
    ensures r.Ok? ==> |r.value| == sliceSize
  {
    r := StringSliceLoop(StringReader(buffer), sliceSize, offset);
  }

  /** The loop of readStringSlice: fills a slice of sliceSize strings, each
      read by strings where the previous one ended. */
  method StringSliceLoop(strings: nat -> Outcome<seq<byte>>, sliceSize: nat, offset: nat) returns (r: Outcome<seq<seq<byte>>>)
    ensures r == StringSliceFrom(strings, sliceSize, offset, [])
    ensures r.Ok? ==> |r.value| == sliceSize
  {
    var result := new seq<byte>[sliceSize];
    var off := offset;
    var i := 0;
    while i < sliceSize
      invariant 0 <= i <= sliceSize
      invariant StringSliceFrom(strings, sliceSize - i, off, result[..i]) == StringSliceFrom(strings, sliceSize, offset, [])
    {
      match strings(off) {
        case Panic => return Panic;
        case Fail(e) => return Fail(e);
        case Ok(v, next) =>
          result[i] := v;
          assert result[..i + 1] == result[..i] + [v];
          off := next;
      }
      i := i + 1;
    }
    assert result[..] == result[..sliceSize];
    return Ok(result[..], off);
  }
}

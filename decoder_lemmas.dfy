/** Properties of the decoder that relate several reads: how pointers are
    followed, and how the string-map loop builds its map. */
module DecoderLemmas {
  import opened Bytes
  import opened Transliterate
  import opened Decoder

  /** A value of the expected type stored inline is decoded by the payload
      function right after its control bytes. */
  lemma ReadValueInline<T>(buffer: seq<byte>, offset: nat, expected: byte, reader: string,
                           payload: (Header, nat) -> Outcome<T>, h: Header, start: nat)
    requires ReadControl(buffer, offset) == Ok(h, start) && h.dataType == expected
    ensures ReadValue(buffer, offset, expected, reader, payload) == payload(h, start)
  {
  }

  /** The payload decoder reads what is at start. */
  lemma PayloadAt(buffer: seq<byte>, h: Header, payload: seq<byte>, start: nat)
    requires h.size == |payload| && At(buffer, start, payload)
    ensures Payload(buffer, h, start) == Ok(payload, start + |payload|)
  {
  }

  /** An inline String decodes to the transliteration of its payload. */
  lemma InlineString(buffer: seq<byte>, offset: nat, payload: seq<byte>, start: nat)
    requires ReadControl(buffer, offset) == Ok(Header(TypeString, |payload|), start)
    requires At(buffer, start, payload)
    ensures ReadString(buffer, offset) == Ok(ToIso88591(payload), start + |payload|)
  {
    PayloadAt(buffer, Header(TypeString, |payload|), payload, start);
    ReadValueInline(buffer, offset, TypeString, "string", AsString(buffer), Header(TypeString, |payload|), start);
  }

  /** An inline String whose payload runs past the buffer panics. */
  lemma InlineStringOverrun(buffer: seq<byte>, offset: nat, n: nat, start: nat)
    requires ReadControl(buffer, offset) == Ok(Header(TypeString, n), start)
    requires start + n > |buffer|
    ensures ReadString(buffer, offset) == Panic
  {
    ReadValueInline(buffer, offset, TypeString, "string", AsString(buffer), Header(TypeString, n), start);
  }

  /** An inline uint16 decodes to its big-endian payload, cut to 16 bits. */
  lemma InlineUInt16(buffer: seq<byte>, offset: nat, payload: seq<byte>, start: nat)
    requires ReadControl(buffer, offset) == Ok(Header(TypeUint16, |payload|), start)
    requires At(buffer, start, payload)
    ensures ReadUInt16(buffer, offset) == Ok(BytesToUInt64(payload) % 0x1_0000, start + |payload|)
  {
    PayloadAt(buffer, Header(TypeUint16, |payload|), payload, start);
    ReadValueInline(buffer, offset, TypeUint16, "uint16", AsUint16(buffer), Header(TypeUint16, |payload|), start);
  }

  /** An inline uint32 decodes to its big-endian payload, cut to 32 bits. */
  lemma InlineUInt32(buffer: seq<byte>, offset: nat, payload: seq<byte>, start: nat)
    requires ReadControl(buffer, offset) == Ok(Header(TypeUint32, |payload|), start)
    requires At(buffer, start, payload)
    ensures ReadUInt32(buffer, offset) == Ok(BytesToUInt64(payload) % 0x1_0000_0000, start + |payload|)
  {
    PayloadAt(buffer, Header(TypeUint32, |payload|), payload, start);
    ReadValueInline(buffer, offset, TypeUint32, "uint32", AsUint32(buffer), Header(TypeUint32, |payload|), start);
  }

  /** An inline bool is its size, and nothing follows its control bytes. */
  lemma InlineBool(buffer: seq<byte>, offset: nat, size: nat, start: nat)
    requires ReadControl(buffer, offset) == Ok(Header(TypeBool, size), start)
    ensures ReadBool(buffer, offset) == Ok(size != 0, start)
  {
    ReadValueInline(buffer, offset, TypeBool, "bool", BoolPayload, Header(TypeBool, size), start);
  }

  /** An inline String key decodes to its raw payload. */
  lemma InlineMapKey(buffer: seq<byte>, offset: nat, payload: seq<byte>, start: nat)
    requires ReadControl(buffer, offset) == Ok(Header(TypeString, |payload|), start)
    requires At(buffer, start, payload)
    ensures ReadMapKey(buffer, offset) == Ok(payload, start + |payload|)
  {
  }

  /** An inline Map is read entry by entry from right after its control
      bytes. */
  lemma InlineStringMap(mode: KeyMode, buffer: seq<byte>, offset: nat, n: nat, start: nat)
    requires ReadControl(buffer, offset) == Ok(Header(TypeMap, n), start)
    ensures ReadStringMap(mode, buffer, offset) == StringMapMap(mode, buffer, n, start)
  {
    ReadValueInline(buffer, offset, TypeMap, "stringMap", AsStringMap(mode, buffer), Header(TypeMap, n), start);
  }

  /** An entry of an inline String key and an inline String value decodes to
      the raw key and value. */
  lemma InlineEntry(buffer: seq<byte>, offset: nat, key: seq<byte>, keyStart: nat,
                    value: seq<byte>, valueOffset: nat, valueStart: nat)
    requires ReadControl(buffer, offset) == Ok(Header(TypeString, |key|), keyStart)
    requires At(buffer, keyStart, key) && valueOffset == keyStart + |key|
    requires ReadControl(buffer, valueOffset) == Ok(Header(TypeString, |value|), valueStart)
    requires At(buffer, valueStart, value)
    ensures ReadEntry(buffer, offset) == Ok((key, value), valueStart + |value|)
  {
    InlineMapKey(buffer, offset, key, keyStart);
    InlineEntryValue(buffer, key, valueOffset, value, valueStart);
  }

  lemma InlineEntryValue(buffer: seq<byte>, key: seq<byte>, valueOffset: nat, value: seq<byte>, valueStart: nat)
    requires ReadControl(buffer, valueOffset) == Ok(Header(TypeString, |value|), valueStart)
    requires At(buffer, valueStart, value)
    ensures EntryValue(buffer, key, valueOffset) == Ok((key, value), valueStart + |value|)
  {
  }

  /** A key behind a pointer is the raw String at the pointer's target, and
      reading continues right after the pointer. */
  lemma PointerMapKey(buffer: seq<byte>, offset: nat, size: nat, start: nat, target: nat, afterPointer: nat,
                      key: seq<byte>, keyStart: nat)
    requires ReadControl(buffer, offset) == Ok(Header(TypePointer, size), start)
    requires ReadPointer(buffer, size, start) == Ok(target, afterPointer)
    requires ReadControl(buffer, target) == Ok(Header(TypeString, |key|), keyStart)
    requires At(buffer, keyStart, key)
    ensures ReadMapKey(buffer, offset) == Ok(key, afterPointer)
  {
  }

  /** A key whose bytes run past the buffer: inline, the bound is checked
      and it is "invalid offset"; behind a pointer, it is not, and the slice
      panics. */
  lemma MapKeyOverrun(buffer: seq<byte>, offset: nat, h: Header, start: nat)
    requires ReadControl(buffer, offset) == Ok(h, start)
    ensures h.dataType == TypeString && start + h.size > |buffer| ==> ReadMapKey(buffer, offset) == Fail(InvalidOffset)
    ensures h.dataType == TypePointer ==>
              var p := ReadPointer(buffer, h.size, start);
              p.Ok? && ReadControl(buffer, p.value).Ok? ==>
                var h2 := ReadControl(buffer, p.value).value;
                var start2 := ReadControl(buffer, p.value).next;
                h2.dataType == TypeString && start2 + h2.size > |buffer| ==> ReadMapKey(buffer, offset) == Panic
  {
  }

  /** A key that is not a String, inline or behind a pointer, is "map key
      must be a string" with the type found. */
  lemma KeyNotStringFails(buffer: seq<byte>, offset: nat, h: Header, start: nat)
    requires ReadControl(buffer, offset) == Ok(h, start)
    ensures h.dataType != TypeString && h.dataType != TypePointer ==>
              ReadMapKey(buffer, offset) == Fail(MapKeyNotString(h.dataType)) &&
              Message(MapKeyNotString(h.dataType)) == "map key must be a string, got: " + Decimal(h.dataType)
    ensures h.dataType == TypePointer ==>
              var p := ReadPointer(buffer, h.size, start);
              p.Ok? && ReadControl(buffer, p.value).Ok? && ReadControl(buffer, p.value).value.dataType != TypeString ==>
                ReadMapKey(buffer, offset) == Fail(MapKeyNotString(ReadControl(buffer, p.value).value.dataType))
  {
  }

  /** A value behind a pointer is the raw String at the pointer's target,
      and the map loop continues right after the pointer. */
  lemma EntryThroughPointer(buffer: seq<byte>, key: seq<byte>, afterKey: nat, size: nat, start: nat,
                            target: nat, afterPointer: nat, value: seq<byte>, valueStart: nat)
    requires ReadControl(buffer, afterKey) == Ok(Header(TypePointer, size), start)
    requires ReadPointer(buffer, size, start) == Ok(target, afterPointer)
    requires ReadControl(buffer, target) == Ok(Header(TypeString, |value|), valueStart)
    requires At(buffer, valueStart, value)
    ensures EntryValue(buffer, key, afterKey) == Ok((key, value), afterPointer)
  {
  }

  /** A value behind a pointer that is not a String: readStringMapMap
      reports it with its map-key message. */
  lemma EntryPointerNotString(buffer: seq<byte>, key: seq<byte>, afterKey: nat, size: nat, start: nat,
                              target: nat, afterPointer: nat, h2: Header, valueStart: nat)
    requires ReadControl(buffer, afterKey) == Ok(Header(TypePointer, size), start)
    requires ReadPointer(buffer, size, start) == Ok(target, afterPointer)
    requires ReadControl(buffer, target) == Ok(h2, valueStart) && h2.dataType != TypeString
    ensures EntryValue(buffer, key, afterKey) == Fail(MapKeyNotString(h2.dataType))
    ensures Message(EntryValue(buffer, key, afterKey).error) == "map key must be a string, got: " + Decimal(h2.dataType)
  {
  }

  /** An inline value that is neither a String nor a Pointer is "invalid
      data type of key" naming the key and the type. */
  lemma EntryInvalidType(buffer: seq<byte>, key: seq<byte>, afterKey: nat, h: Header, start: nat)
    requires ReadControl(buffer, afterKey) == Ok(h, start)
    requires h.dataType != TypeString && h.dataType != TypePointer
    ensures EntryValue(buffer, key, afterKey) == Fail(InvalidKeyDataType(key, h.dataType))
    ensures Message(EntryValue(buffer, key, afterKey).error)
         == "invalid data type of key " + Chars(key) + ": " + Decimal(h.dataType)
  {
  }

  /** A String value whose bytes run past the buffer panics, inline or
      behind a pointer: neither slice is checked. */
  lemma EntryValueOverrun(buffer: seq<byte>, key: seq<byte>, afterKey: nat, h: Header, start: nat)
    requires ReadControl(buffer, afterKey) == Ok(h, start)
    ensures h.dataType == TypeString && start + h.size > |buffer| ==> EntryValue(buffer, key, afterKey) == Panic
    ensures h.dataType == TypePointer ==>
              var p := ReadPointer(buffer, h.size, start);
              p.Ok? && ReadControl(buffer, p.value).Ok? ==>
                var h2 := ReadControl(buffer, p.value).value;
                var start2 := ReadControl(buffer, p.value).next;
                h2.dataType == TypeString && start2 + h2.size > |buffer| ==> EntryValue(buffer, key, afterKey) == Panic
  {
  }

  /** An entry that does not read ends readStringMapMap with its error or
      panic, nothing of the map returned. */
  lemma MapEntryFails(mode: KeyMode, buffer: seq<byte>, mapSize: nat, offset: nat)
    requires mapSize > 0 && !ReadEntry(buffer, offset).Ok?
    ensures StringMapMap(mode, buffer, mapSize, offset)
         == (if ReadEntry(buffer, offset).Panic? then Panic else Fail(ReadEntry(buffer, offset).error))
  {
    assert EntryReader(buffer)(offset) == ReadEntry(buffer, offset);
  }

  /** A pointer is transparent: reading through it gives what reading at its
      target gives, except that the reader continues right after the
      pointer. */
  lemma {:induction false} PointerTransparent<T>(buffer: seq<byte>, offset: nat, expected: byte, reader: string,
                                                 payload: (Header, nat) -> Outcome<T>, size: nat, start: nat,
                                                 target: nat, afterPointer: nat)
    requires expected != TypePointer
    requires ReadControl(buffer, offset) == Ok(Header(TypePointer, size), start)
    requires ReadPointer(buffer, size, start) == Ok(target, afterPointer)
    requires ReadControl(buffer, target).Ok? && ReadControl(buffer, target).value.dataType == expected
    ensures var atTarget := ReadValue(buffer, target, expected, reader, payload);
            ReadValue(buffer, offset, expected, reader, payload)
            == (if atTarget.Ok? then Ok(atTarget.value, afterPointer) else atTarget)
  {
    var c := ReadControl(buffer, target);
    ReadValueInline(buffer, target, expected, reader, payload, c.value, c.next);
  }

  /** A pointer to an inline String reads that string and continues after
      the pointer. */
  lemma PointerString(buffer: seq<byte>, offset: nat, size: nat, start: nat, target: nat,
                      afterPointer: nat, payload: seq<byte>, payloadStart: nat)
    requires ReadControl(buffer, offset) == Ok(Header(TypePointer, size), start)
    requires ReadPointer(buffer, size, start) == Ok(target, afterPointer)
    requires ReadControl(buffer, target) == Ok(Header(TypeString, |payload|), payloadStart)
    requires At(buffer, payloadStart, payload)
    ensures ReadString(buffer, offset) == Ok(ToIso88591(payload), afterPointer)
  {
    PayloadAt(buffer, Header(TypeString, |payload|), payload, payloadStart);
    assert AsString(buffer)(Header(TypeString, |payload|), payloadStart)
        == Ok(ToIso88591(payload), payloadStart + |payload|);
  }

  /** A pointer whose target is not of the expected type is an error naming
      the reader and the type found there. */
  lemma PointerWrongTypeFails<T>(buffer: seq<byte>, offset: nat, expected: byte, reader: string,
                                 payload: (Header, nat) -> Outcome<T>, size: nat, start: nat,
                                 target: nat, afterPointer: nat, h2: Header, start2: nat)
    requires expected != TypePointer
    requires ReadControl(buffer, offset) == Ok(Header(TypePointer, size), start)
    requires ReadPointer(buffer, size, start) == Ok(target, afterPointer)
    requires ReadControl(buffer, target) == Ok(h2, start2) && h2.dataType != expected
    ensures ReadValue(buffer, offset, expected, reader, payload) == Fail(InvalidPointerType(reader, h2.dataType))
  {
  }

  /** Pointers are followed once: a pointer to a pointer is an error. */
  lemma PointerToPointerFails<T>(buffer: seq<byte>, offset: nat, expected: byte, reader: string,
                                 payload: (Header, nat) -> Outcome<T>, size: nat, start: nat,
                                 target: nat, afterPointer: nat)
    requires expected != TypePointer
    requires ReadControl(buffer, offset) == Ok(Header(TypePointer, size), start)
    requires ReadPointer(buffer, size, start) == Ok(target, afterPointer)
    requires ReadControl(buffer, target).Ok? && ReadControl(buffer, target).value.dataType == TypePointer
    ensures ReadValue(buffer, offset, expected, reader, payload) == Fail(InvalidPointerType(reader, TypePointer))
  {
    var c := ReadControl(buffer, target);
    PointerWrongTypeFails(buffer, offset, expected, reader, payload, size, start, target, afterPointer, c.value, c.next);
  }

  /** readControl extends the size field of every control byte, a Pointer's
      included: the pointer 0x3D carries size field 29, which the format
      reads as a four-byte pointer (to 0x3070000), but the decoder first
      consumes one byte as a size extension, making the size 32, and then
      reads a one-byte pointer to 7 that ends at offset 3. */
  lemma PointerSizeExtended()
    ensures var buffer: seq<byte> := [0x3D, 3, 7, 0, 0];
            PointerWidth(buffer[0] % 32) == 4 &&
            ReadControl(buffer, 0) == Ok(Header(TypePointer, 32), 2) &&
            ReadPointer(buffer, 32, 2) == Ok(7, 3)
  {
  }

  /** A value that is neither of the expected type nor a pointer is an error
      naming the reader and the type found. */
  lemma WrongTypeFails<T>(buffer: seq<byte>, offset: nat, expected: byte, reader: string,
                          payload: (Header, nat) -> Outcome<T>)
    requires ReadControl(buffer, offset).Ok?
    requires var t := ReadControl(buffer, offset).value.dataType; t != expected && t != TypePointer
    ensures ReadValue(buffer, offset, expected, reader, payload)
         == Fail(InvalidType(reader, ReadControl(buffer, offset).value.dataType))
  {
  }

  /** The Go error message of each error a typed reader reports. */
  lemma ReaderMessages(reader: string, dataType: byte)
    ensures Message(InvalidType(reader, dataType)) == "invalid " + reader + " type: " + Decimal(dataType)
    ensures Message(InvalidPointerType(reader, dataType)) == "invalid " + reader + " pointer type: " + Decimal(dataType)
  {
  }

  /** The map readStringMapMap starts its loop from only contributes the keys
      the entries do not overwrite. */
  function Prepend(acc: map<seq<byte>, seq<byte>>, r: Outcome<map<seq<byte>, seq<byte>>>): Outcome<map<seq<byte>, seq<byte>>>
  {
    if r.Ok? then Ok(acc + r.value, r.next) else r
  }

  /** Running the loop from a non-empty map is running it from the empty map
      and letting its entries overwrite the starting map. */
  lemma {:induction false} StringMapMapFromAccumulator(mode: KeyMode, entries: nat -> Outcome<(seq<byte>, seq<byte>)>,
                                                       remaining: nat, offset: nat, acc: map<seq<byte>, seq<byte>>)
    ensures StringMapMapFrom(mode, entries, remaining, offset, acc)
         == Prepend(acc, StringMapMapFrom(mode, entries, remaining, offset, map[]))
    decreases remaining
  {
    if remaining == 0 {
      assert acc + map[] == acc;
    } else if entries(offset).Ok? {
      var e := entries(offset);
      var k, v := KeyString(mode, e.value.0), ToIso88591(e.value.1);
      StringMapMapFromAccumulator(mode, entries, remaining - 1, e.next, acc[k := v]);
      StringMapMapFromAccumulator(mode, entries, remaining - 1, e.next, map[k := v]);
      var tail := StringMapMapFrom(mode, entries, remaining - 1, e.next, map[]);
      assert map[][k := v] == map[k := v];
      assert StringMapMapFrom(mode, entries, remaining, offset, map[])
          == StringMapMapFrom(mode, entries, remaining - 1, e.next, map[k := v]);
      assert StringMapMapFrom(mode, entries, remaining, offset, acc)
          == StringMapMapFrom(mode, entries, remaining - 1, e.next, acc[k := v]);
      if tail.Ok? {
        UpdateThenMerge(acc, k, v, tail.value);
      }
    }
  }

  lemma UpdateThenMerge(acc: map<seq<byte>, seq<byte>>, k: seq<byte>, v: seq<byte>, m: map<seq<byte>, seq<byte>>)
    ensures acc[k := v] + m == acc + (map[k := v] + m)
  {
  }

  /** The loop over n1 + n2 entries is the loop over n1 entries followed by
      the loop over the n2 entries after them. */
  lemma {:induction false} StringMapMapFromSplit(mode: KeyMode, entries: nat -> Outcome<(seq<byte>, seq<byte>)>,
                                                 n1: nat, n2: nat, offset: nat, acc: map<seq<byte>, seq<byte>>)
    ensures var first := StringMapMapFrom(mode, entries, n1, offset, acc);
            StringMapMapFrom(mode, entries, n1 + n2, offset, acc)
            == (if first.Ok? then StringMapMapFrom(mode, entries, n2, first.next, first.value) else first)
    decreases n1
  {
    if n1 > 0 && entries(offset).Ok? {
      var e := entries(offset);
      StringMapMapFromSplit(mode, entries, n1 - 1, n2, e.next, acc[KeyString(mode, e.value.0) := ToIso88591(e.value.1)]);
    }
  }

  /** The entry read last decides the value of its key, and the loop stops
      right after it. */
  lemma LastEntryWins(mode: KeyMode, entries: nat -> Outcome<(seq<byte>, seq<byte>)>, n: nat, offset: nat,
                      acc: map<seq<byte>, seq<byte>>)
    requires StringMapMapFrom(mode, entries, n, offset, acc).Ok?
    requires entries(StringMapMapFrom(mode, entries, n, offset, acc).next).Ok?
    ensures var e := entries(StringMapMapFrom(mode, entries, n, offset, acc).next);
            var whole := StringMapMapFrom(mode, entries, n + 1, offset, acc);
            whole.Ok? && KeyString(mode, e.value.0) in whole.value &&
            whole.value[KeyString(mode, e.value.0)] == ToIso88591(e.value.1) &&
            whole.next == e.next
  {
    StringMapMapFromSplit(mode, entries, n, 1, offset, acc);
  }

  /** The keys of a map as geoip2 builds them from the keys geoip2_iso88591
      builds. */
  function TransliteratedKeys(keys: set<seq<byte>>): set<seq<byte>>
  {
    set k | k in keys :: ToIso88591(k)
  }

  /** Adding a key to the raw map and its transliteration to the other keeps
      the keys of the one the transliterations of the keys of the other. */
  lemma TransliteratedKeysUpdate(accRaw: map<seq<byte>, seq<byte>>, accIso: map<seq<byte>, seq<byte>>,
                                 k: seq<byte>, v: seq<byte>)
    requires accIso.Keys == TransliteratedKeys(accRaw.Keys)
    ensures accIso[ToIso88591(k) := v].Keys == TransliteratedKeys(accRaw[k := v].Keys)
  {
    assert accRaw[k := v].Keys == accRaw.Keys + {k};
    assert accIso[ToIso88591(k) := v].Keys == accIso.Keys + {ToIso88591(k)};
  }

  /** Both key modes read the same entries: they fail, panic and stop at the
      same places, and the keys of one are the transliterations of the keys of
      the other. */
  lemma {:induction false} KeyModesAgree(entries: nat -> Outcome<(seq<byte>, seq<byte>)>, remaining: nat, offset: nat,
                                         accRaw: map<seq<byte>, seq<byte>>, accIso: map<seq<byte>, seq<byte>>)
    requires accIso.Keys == TransliteratedKeys(accRaw.Keys)
    ensures var raw := StringMapMapFrom(Raw, entries, remaining, offset, accRaw);
            var iso := StringMapMapFrom(Transliterated, entries, remaining, offset, accIso);
            (raw.Ok? <==> iso.Ok?) && (raw.Panic? <==> iso.Panic?) &&
            (raw.Fail? ==> iso == raw) &&
            (raw.Ok? ==> iso.next == raw.next && iso.value.Keys == TransliteratedKeys(raw.value.Keys))
    decreases remaining
  {
    if remaining > 0 && entries(offset).Ok? {
      var e := entries(offset);
      var kv := e.value;
      var rawAcc := accRaw[kv.0 := ToIso88591(kv.1)];
      var isoAcc := accIso[ToIso88591(kv.0) := ToIso88591(kv.1)];
      TransliteratedKeysUpdate(accRaw, accIso, kv.0, ToIso88591(kv.1));
      KeyModesAgree(entries, remaining - 1, e.next, rawAcc, isoAcc);
    }
  }

  /** The slice built so far is kept in front of the strings read next. */
  function Append(acc: seq<seq<byte>>, r: Outcome<seq<seq<byte>>>): Outcome<seq<seq<byte>>>
  {
    if r.Ok? then Ok(acc + r.value, r.next) else r
  }

  /** The strings already read stay in front of the strings read next. */
  lemma {:induction false} StringSliceFromAccumulator(strings: nat -> Outcome<seq<byte>>, remaining: nat, offset: nat,
                                                      acc: seq<seq<byte>>)
    ensures StringSliceFrom(strings, remaining, offset, acc)
         == Append(acc, StringSliceFrom(strings, remaining, offset, []))
    decreases remaining
  {
    if remaining == 0 {
      assert acc + [] == acc;
    } else if strings(offset).Ok? {
      var s := strings(offset);
      StringSliceFromAccumulator(strings, remaining - 1, s.next, acc + [s.value]);
      StringSliceFromAccumulator(strings, remaining - 1, s.next, [s.value]);
      var tail := StringSliceFrom(strings, remaining - 1, s.next, []);
      assert [] + [s.value] == [s.value];
      if tail.Ok? {
        assert (acc + [s.value]) + tail.value == acc + ([s.value] + tail.value);
      }
    }
  }

  /** readStringSlice reads its strings one after the other: the first is
      the string at its offset and the rest are read right after it; an
      error or panic in the first read is the outcome of the whole. */
  lemma StringSliceFirst(buffer: seq<byte>, sliceSize: nat, offset: nat)
    requires sliceSize > 0
    ensures var first := ReadString(buffer, offset);
            StringSlice(buffer, sliceSize, offset)
            == (if first.Ok? then Append([first.value], StringSlice(buffer, sliceSize - 1, first.next))
                else if first.Panic? then Panic else Fail(first.error))
  {
    SliceFromFirst(StringReader(buffer), sliceSize, offset);
  }

  lemma SliceFromFirst(strings: nat -> Outcome<seq<byte>>, sliceSize: nat, offset: nat)
    requires sliceSize > 0
    ensures var first := strings(offset);
            StringSliceFrom(strings, sliceSize, offset, [])
            == (if first.Ok? then Append([first.value], StringSliceFrom(strings, sliceSize - 1, first.next, []))
                else if first.Panic? then Panic else Fail(first.error))
  {
    var first := strings(offset);
    if first.Ok? {
      assert [] + [first.value] == [first.value];
      StringSliceFromAccumulator(strings, sliceSize - 1, first.next, [first.value]);
    }
  }
}

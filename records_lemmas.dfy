/** What the record assemblers promise: they read exactly the pairs they are
    told to and stay within the buffer, an unknown key stops them with an
    error, a failed read clears the field it was meant for, the last pair
    for a field wins, and a record written in the format is read back. */
module RecordsLemmas {
  import opened Bytes
  import opened Transliterate
  import opened Decoder
  import opened Encoding
  import opened Records

  // ---------------------------------------------------------------------
  // Bounds

  lemma DomainStepAdvances(buffer: seq<byte>)
    ensures StepAdvances(DomainStep(buffer), |buffer|)
  {
    forall rec: DomainRecord, o: nat
      ensures DomainStep(buffer)(rec, o).1.Done? ==> o < DomainStep(buffer)(rec, o).1.next <= |buffer|
    {
      DomainPairAdvances(buffer, rec, o);
    }
  }

  lemma DomainPairAdvances(buffer: seq<byte>, rec: DomainRecord, o: nat)
    ensures DomainPair(buffer, rec, o).1.Done? ==> o < DomainPair(buffer, rec, o).1.next <= |buffer|
  {
  }

  /** A completed readDomainMap has consumed at least one byte per pair and
      ends within the buffer. */
  lemma DomainMapBounds(buffer: seq<byte>, mapSize: nat, offset: nat, rec: DomainRecord)
    ensures var r := DomainMap(buffer, mapSize, offset, rec);
            r.1.Done? ==> offset + mapSize <= r.1.next && (mapSize > 0 ==> r.1.next <= |buffer|)
  {
    DomainStepAdvances(buffer);
    AssembleBounds(DomainStep(buffer), |buffer|, mapSize, offset, rec);
  }

  lemma AsnStepAdvances(buffer: seq<byte>)
    ensures StepAdvances(AsnStep(buffer), |buffer|)
  {
    forall rec: AsnRecord, o: nat
      ensures AsnStep(buffer)(rec, o).1.Done? ==> o < AsnStep(buffer)(rec, o).1.next <= |buffer|
    {
      AsnPairAdvances(buffer, rec, o);
    }
  }

  lemma AsnPairAdvances(buffer: seq<byte>, rec: AsnRecord, o: nat)
    ensures AsnPair(buffer, rec, o).1.Done? ==> o < AsnPair(buffer, rec, o).1.next <= |buffer|
  {
  }

  /** A completed readASNMap has consumed at least one byte per pair and
      ends within the buffer. */
  lemma AsnMapBounds(buffer: seq<byte>, mapSize: nat, offset: nat, rec: AsnRecord)
    ensures var r := AsnMap(buffer, mapSize, offset, rec);
            r.1.Done? ==> offset + mapSize <= r.1.next && (mapSize > 0 ==> r.1.next <= |buffer|)
  {
    AsnStepAdvances(buffer);
    AssembleBounds(AsnStep(buffer), |buffer|, mapSize, offset, rec);
  }

  lemma ConnectionTypeStepAdvances(buffer: seq<byte>)
    ensures StepAdvances(ConnectionTypeStep(buffer), |buffer|)
  {
    forall rec: ConnectionTypeRecord, o: nat
      ensures ConnectionTypeStep(buffer)(rec, o).1.Done? ==> o < ConnectionTypeStep(buffer)(rec, o).1.next <= |buffer|
    {
      ConnectionTypePairAdvances(buffer, rec, o);
    }
  }

  lemma ConnectionTypePairAdvances(buffer: seq<byte>, rec: ConnectionTypeRecord, o: nat)
    ensures ConnectionTypePair(buffer, rec, o).1.Done? ==> o < ConnectionTypePair(buffer, rec, o).1.next <= |buffer|
  {
  }

  /** A completed readConnectionTypeMap has consumed at least one byte per
      pair and ends within the buffer. */
  lemma ConnectionTypeMapBounds(buffer: seq<byte>, mapSize: nat, offset: nat, rec: ConnectionTypeRecord)
    ensures var r := ConnectionTypeMap(buffer, mapSize, offset, rec);
            r.1.Done? ==> offset + mapSize <= r.1.next && (mapSize > 0 ==> r.1.next <= |buffer|)
  {
    ConnectionTypeStepAdvances(buffer);
    AssembleBounds(ConnectionTypeStep(buffer), |buffer|, mapSize, offset, rec);
  }

  // ---------------------------------------------------------------------
  // One pair

  /** One readDomainMap pair: an unknown key is an error, a domain value
      that does not read stores "", one that reads is stored. */
  lemma DomainPairCases(buffer: seq<byte>, rec: DomainRecord, o: nat, key: seq<byte>, afterKey: nat)
    requires ReadMapKey(buffer, o) == Ok(key, afterKey)
    ensures key != DomainKey ==> DomainStep(buffer)(rec, o) == (rec, Failed(UnknownKey("domain", key)))
    ensures key == DomainKey ==>
              match ReadString(buffer, afterKey)
              case Ok(v, next) => DomainStep(buffer)(rec, o) == (DomainRecord(v), Done(next))
              case Fail(e) => DomainStep(buffer)(rec, o) == (DomainRecord([]), Failed(e))
              case Panic => DomainStep(buffer)(rec, o) == (rec, Panicked)
  {
    assert DomainStep(buffer)(rec, o) == DomainPair(buffer, rec, o);
  }

  /** The two ASN field names differ. */
  lemma AsnKeysDiffer()
    ensures NumberKey != OrganizationKey
  {
    assert |NumberKey| == 24 && |OrganizationKey| == 30;
  }

  /** One readASNMap pair: an unknown key is an error; a known key's value
      is stored in its own field, its reader's zero value when it does not
      read, and the other field is kept. */
  lemma AsnPairCases(buffer: seq<byte>, rec: AsnRecord, o: nat, key: seq<byte>, afterKey: nat)
    requires ReadMapKey(buffer, o) == Ok(key, afterKey)
    ensures key != NumberKey && key != OrganizationKey ==>
              AsnStep(buffer)(rec, o) == (rec, Failed(UnknownKey("asn", key)))
    ensures key == NumberKey ==>
              match ReadUInt32(buffer, afterKey)
              case Ok(v, next) => AsnStep(buffer)(rec, o) == (AsnRecord(v, rec.organization), Done(next))
              case Fail(e) => AsnStep(buffer)(rec, o) == (AsnRecord(0, rec.organization), Failed(e))
              case Panic => AsnStep(buffer)(rec, o) == (rec, Panicked)
    ensures key == OrganizationKey ==>
              match ReadString(buffer, afterKey)
              case Ok(v, next) => AsnStep(buffer)(rec, o) == (AsnRecord(rec.number, v), Done(next))
              case Fail(e) => AsnStep(buffer)(rec, o) == (AsnRecord(rec.number, []), Failed(e))
              case Panic => AsnStep(buffer)(rec, o) == (rec, Panicked)
  {
    AsnKeysDiffer();
    assert AsnStep(buffer)(rec, o) == AsnPair(buffer, rec, o);
  }

  /** One ASN pair changes only the field its key names. */
  lemma AsnPairFrame(buffer: seq<byte>, rec: AsnRecord, offset: nat)
    ensures var r := AsnPair(buffer, rec, offset).0;
            var key := ReadMapKey(buffer, offset);
            (r.number != rec.number ==> key.Ok? && key.value == NumberKey) &&
            (r.organization != rec.organization ==> key.Ok? && key.value == OrganizationKey)
  {
    AsnKeysDiffer();
  }

  /** One readConnectionTypeMap pair. */
  lemma ConnectionTypePairCases(buffer: seq<byte>, rec: ConnectionTypeRecord, o: nat, key: seq<byte>, afterKey: nat)
    requires ReadMapKey(buffer, o) == Ok(key, afterKey)
    ensures key != ConnectionTypeKey ==>
              ConnectionTypeStep(buffer)(rec, o) == (rec, Failed(UnknownKey("connectionType", key)))
    ensures key == ConnectionTypeKey ==>
              match ReadString(buffer, afterKey)
              case Ok(v, next) => ConnectionTypeStep(buffer)(rec, o) == (ConnectionTypeRecord(v), Done(next))
              case Fail(e) => ConnectionTypeStep(buffer)(rec, o) == (ConnectionTypeRecord([]), Failed(e))
              case Panic => ConnectionTypeStep(buffer)(rec, o) == (rec, Panicked)
  {
    assert ConnectionTypeStep(buffer)(rec, o) == ConnectionTypePair(buffer, rec, o);
  }

  /** The messages of the three unknown-key errors. */
  lemma UnknownKeyMessages(key: seq<byte>)
    ensures Message(UnknownKey("domain", key)) == "unknown domain key: " + Chars(key)
    ensures Message(UnknownKey("asn", key)) == "unknown asn key: " + Chars(key)
    ensures Message(UnknownKey("connectionType", key)) == "unknown connectionType key: " + Chars(key)
  {
    assert "unknown " + "domain" + " key: " == "unknown domain key: ";
    assert "unknown " + "asn" + " key: " == "unknown asn key: ";
    assert "unknown " + "connectionType" + " key: " == "unknown connectionType key: ";
  }

  // ---------------------------------------------------------------------
  // Unknown keys and failed reads

  /** A key other than "domain" ends readDomainMap with "unknown domain key",
      the record untouched. */
  lemma DomainUnknownKey(buffer: seq<byte>, mapSize: nat, offset: nat, rec: DomainRecord,
                         key: seq<byte>, afterKey: nat)
    requires mapSize > 0 && ReadMapKey(buffer, offset) == Ok(key, afterKey) && key != DomainKey
    ensures DomainMap(buffer, mapSize, offset, rec) == (rec, Failed(UnknownKey("domain", key)))
    ensures Message(DomainMap(buffer, mapSize, offset, rec).1.error) == "unknown domain key: " + Chars(key)
  {
    AssembleStep(DomainStep(buffer), mapSize, offset, rec);
    DomainPairCases(buffer, rec, offset, key, afterKey);
    UnknownKeyMessages(key);
  }

  /** A domain value that does not read stores "" and ends the loop with the
      reader's error. */
  lemma DomainValueFails(buffer: seq<byte>, mapSize: nat, offset: nat, rec: DomainRecord,
                         afterKey: nat, e: Error)
    requires mapSize > 0 && ReadMapKey(buffer, offset) == Ok(DomainKey, afterKey)
    requires ReadString(buffer, afterKey) == Fail(e)
    ensures DomainMap(buffer, mapSize, offset, rec) == (DomainRecord([]), Failed(e))
  {
    AssembleStep(DomainStep(buffer), mapSize, offset, rec);
    DomainPairCases(buffer, rec, offset, DomainKey, afterKey);
  }

  /** A key other than the two ASN field names ends readASNMap with "unknown
      asn key", the record untouched. */
  lemma AsnUnknownKey(buffer: seq<byte>, mapSize: nat, offset: nat, rec: AsnRecord,
                      key: seq<byte>, afterKey: nat)
    requires mapSize > 0 && ReadMapKey(buffer, offset) == Ok(key, afterKey)
    requires key != NumberKey && key != OrganizationKey
    ensures AsnMap(buffer, mapSize, offset, rec) == (rec, Failed(UnknownKey("asn", key)))
    ensures Message(AsnMap(buffer, mapSize, offset, rec).1.error) == "unknown asn key: " + Chars(key)
  {
    AssembleStep(AsnStep(buffer), mapSize, offset, rec);
    AsnPairCases(buffer, rec, offset, key, afterKey);
    UnknownKeyMessages(key);
  }

  /** A number that does not read stores 0 and ends the loop with the
      reader's error; the organization is kept. */
  lemma AsnNumberFails(buffer: seq<byte>, mapSize: nat, offset: nat, rec: AsnRecord,
                       afterKey: nat, e: Error)
    requires mapSize > 0 && ReadMapKey(buffer, offset) == Ok(NumberKey, afterKey)
    requires ReadUInt32(buffer, afterKey) == Fail(e)
    ensures AsnMap(buffer, mapSize, offset, rec) == (AsnRecord(0, rec.organization), Failed(e))
  {
    AssembleStep(AsnStep(buffer), mapSize, offset, rec);
    AsnPairCases(buffer, rec, offset, NumberKey, afterKey);
  }

  /** An organization that does not read stores "" and ends the loop with
      the reader's error; the number is kept. */
  lemma AsnOrganizationFails(buffer: seq<byte>, mapSize: nat, offset: nat, rec: AsnRecord,
                             afterKey: nat, e: Error)
    requires mapSize > 0 && ReadMapKey(buffer, offset) == Ok(OrganizationKey, afterKey)
    requires ReadString(buffer, afterKey) == Fail(e)
    ensures AsnMap(buffer, mapSize, offset, rec) == (AsnRecord(rec.number, []), Failed(e))
  {
    AssembleStep(AsnStep(buffer), mapSize, offset, rec);
    AsnPairCases(buffer, rec, offset, OrganizationKey, afterKey);
  }

  /** A key other than "connection_type" ends readConnectionTypeMap with
      "unknown connectionType key", the record untouched. */
  lemma ConnectionTypeUnknownKey(buffer: seq<byte>, mapSize: nat, offset: nat, rec: ConnectionTypeRecord,
                                 key: seq<byte>, afterKey: nat)
    requires mapSize > 0 && ReadMapKey(buffer, offset) == Ok(key, afterKey) && key != ConnectionTypeKey
    ensures ConnectionTypeMap(buffer, mapSize, offset, rec) == (rec, Failed(UnknownKey("connectionType", key)))
    ensures Message(ConnectionTypeMap(buffer, mapSize, offset, rec).1.error)
         == "unknown connectionType key: " + Chars(key)
  {
    AssembleStep(ConnectionTypeStep(buffer), mapSize, offset, rec);
    ConnectionTypePairCases(buffer, rec, offset, key, afterKey);
    UnknownKeyMessages(key);
  }

  /** A connection type that does not read stores "" and ends the loop with
      the reader's error. */
  lemma ConnectionTypeValueFails(buffer: seq<byte>, mapSize: nat, offset: nat, rec: ConnectionTypeRecord,
                                 afterKey: nat, e: Error)
    requires mapSize > 0 && ReadMapKey(buffer, offset) == Ok(ConnectionTypeKey, afterKey)
    requires ReadString(buffer, afterKey) == Fail(e)
    ensures ConnectionTypeMap(buffer, mapSize, offset, rec) == (ConnectionTypeRecord([]), Failed(e))
  {
    AssembleStep(ConnectionTypeStep(buffer), mapSize, offset, rec);
    ConnectionTypePairCases(buffer, rec, offset, ConnectionTypeKey, afterKey);
  }

  /** A key that does not read ends readDomainMap with that error or panic,
      the record untouched. */
  lemma DomainKeyFails(buffer: seq<byte>, mapSize: nat, offset: nat, rec: DomainRecord)
    requires mapSize > 0 && !ReadMapKey(buffer, offset).Ok?
    ensures DomainMap(buffer, mapSize, offset, rec)
         == (rec, if ReadMapKey(buffer, offset).Fail? then Failed(ReadMapKey(buffer, offset).error) else Panicked)
  {
    AssembleStep(DomainStep(buffer), mapSize, offset, rec);
  }

  /** A key that does not read ends readASNMap with that error or panic,
      the record untouched. */
  lemma AsnKeyFails(buffer: seq<byte>, mapSize: nat, offset: nat, rec: AsnRecord)
    requires mapSize > 0 && !ReadMapKey(buffer, offset).Ok?
    ensures AsnMap(buffer, mapSize, offset, rec)
         == (rec, if ReadMapKey(buffer, offset).Fail? then Failed(ReadMapKey(buffer, offset).error) else Panicked)
  {
    AssembleStep(AsnStep(buffer), mapSize, offset, rec);
  }

  /** A key that does not read ends readConnectionTypeMap with that error or
      panic, the record untouched. */
  lemma ConnectionTypeKeyFails(buffer: seq<byte>, mapSize: nat, offset: nat, rec: ConnectionTypeRecord)
    requires mapSize > 0 && !ReadMapKey(buffer, offset).Ok?
    ensures ConnectionTypeMap(buffer, mapSize, offset, rec)
         == (rec, if ReadMapKey(buffer, offset).Fail? then Failed(ReadMapKey(buffer, offset).error) else Panicked)
  {
    AssembleStep(ConnectionTypeStep(buffer), mapSize, offset, rec);
  }

  // ---------------------------------------------------------------------
  // The same at any pair: done pairs read, the failing pair next

  /** A key other than "domain" after done pairs ends readDomainMap with
      "unknown domain key", the record as those pairs left it. */
  lemma DomainUnknownKeyAt(buffer: seq<byte>, done: nat, rest: nat, offset: nat, rec: DomainRecord,
                           key: seq<byte>, afterKey: nat)
    requires rest > 0 && DomainMap(buffer, done, offset, rec).1.Done?
    requires ReadMapKey(buffer, DomainMap(buffer, done, offset, rec).1.next) == Ok(key, afterKey) && key != DomainKey
    ensures DomainMap(buffer, done + rest, offset, rec)
         == (DomainMap(buffer, done, offset, rec).0, Failed(UnknownKey("domain", key)))
  {
    var before := DomainMap(buffer, done, offset, rec);
    AssembleSplit(DomainStep(buffer), done, rest, offset, rec);
    DomainUnknownKey(buffer, rest, before.1.next, before.0, key, afterKey);
  }

  /** A domain value after done pairs that does not read stores "" and ends
      the loop with the reader's error. */
  lemma DomainValueFailsAt(buffer: seq<byte>, done: nat, rest: nat, offset: nat, rec: DomainRecord,
                           afterKey: nat, e: Error)
    requires rest > 0 && DomainMap(buffer, done, offset, rec).1.Done?
    requires ReadMapKey(buffer, DomainMap(buffer, done, offset, rec).1.next) == Ok(DomainKey, afterKey)
    requires ReadString(buffer, afterKey) == Fail(e)
    ensures DomainMap(buffer, done + rest, offset, rec) == (DomainRecord([]), Failed(e))
  {
    var before := DomainMap(buffer, done, offset, rec);
    AssembleSplit(DomainStep(buffer), done, rest, offset, rec);
    DomainValueFails(buffer, rest, before.1.next, before.0, afterKey, e);
  }

  /** An unknown key after done pairs ends readASNMap with "unknown asn
      key", the record as those pairs left it. */
  lemma AsnUnknownKeyAt(buffer: seq<byte>, done: nat, rest: nat, offset: nat, rec: AsnRecord,
                        key: seq<byte>, afterKey: nat)
    requires rest > 0 && AsnMap(buffer, done, offset, rec).1.Done?
    requires ReadMapKey(buffer, AsnMap(buffer, done, offset, rec).1.next) == Ok(key, afterKey)
    requires key != NumberKey && key != OrganizationKey
    ensures AsnMap(buffer, done + rest, offset, rec)
         == (AsnMap(buffer, done, offset, rec).0, Failed(UnknownKey("asn", key)))
  {
    var before := AsnMap(buffer, done, offset, rec);
    AssembleSplit(AsnStep(buffer), done, rest, offset, rec);
    AsnUnknownKey(buffer, rest, before.1.next, before.0, key, afterKey);
  }

  /** A number after done pairs that does not read stores 0, keeps the
      organization those pairs left, and ends with the reader's error. */
  lemma AsnNumberFailsAt(buffer: seq<byte>, done: nat, rest: nat, offset: nat, rec: AsnRecord,
                         afterKey: nat, e: Error)
    requires rest > 0 && AsnMap(buffer, done, offset, rec).1.Done?
    requires ReadMapKey(buffer, AsnMap(buffer, done, offset, rec).1.next) == Ok(NumberKey, afterKey)
    requires ReadUInt32(buffer, afterKey) == Fail(e)
    ensures AsnMap(buffer, done + rest, offset, rec)
         == (AsnRecord(0, AsnMap(buffer, done, offset, rec).0.organization), Failed(e))
  {
    var before := AsnMap(buffer, done, offset, rec);
    AssembleSplit(AsnStep(buffer), done, rest, offset, rec);
    AsnNumberFails(buffer, rest, before.1.next, before.0, afterKey, e);
  }

  /** An organization after done pairs that does not read stores "", keeps
      the number those pairs left, and ends with the reader's error. */
  lemma AsnOrganizationFailsAt(buffer: seq<byte>, done: nat, rest: nat, offset: nat, rec: AsnRecord,
                               afterKey: nat, e: Error)
    requires rest > 0 && AsnMap(buffer, done, offset, rec).1.Done?
    requires ReadMapKey(buffer, AsnMap(buffer, done, offset, rec).1.next) == Ok(OrganizationKey, afterKey)
    requires ReadString(buffer, afterKey) == Fail(e)
    ensures AsnMap(buffer, done + rest, offset, rec)
         == (AsnRecord(AsnMap(buffer, done, offset, rec).0.number, []), Failed(e))
  {
    var before := AsnMap(buffer, done, offset, rec);
    AssembleSplit(AsnStep(buffer), done, rest, offset, rec);
    AsnOrganizationFails(buffer, rest, before.1.next, before.0, afterKey, e);
  }

  /** A key other than "connection_type" after done pairs ends
      readConnectionTypeMap with "unknown connectionType key", the record as
      those pairs left it. */
  lemma ConnectionTypeUnknownKeyAt(buffer: seq<byte>, done: nat, rest: nat, offset: nat, rec: ConnectionTypeRecord,
                                   key: seq<byte>, afterKey: nat)
    requires rest > 0 && ConnectionTypeMap(buffer, done, offset, rec).1.Done?
    requires ReadMapKey(buffer, ConnectionTypeMap(buffer, done, offset, rec).1.next) == Ok(key, afterKey)
    requires key != ConnectionTypeKey
    ensures ConnectionTypeMap(buffer, done + rest, offset, rec)
         == (ConnectionTypeMap(buffer, done, offset, rec).0, Failed(UnknownKey("connectionType", key)))
  {
    var before := ConnectionTypeMap(buffer, done, offset, rec);
    AssembleSplit(ConnectionTypeStep(buffer), done, rest, offset, rec);
    ConnectionTypeUnknownKey(buffer, rest, before.1.next, before.0, key, afterKey);
  }

  /** A connection type after done pairs that does not read stores "" and
      ends the loop with the reader's error. */
  lemma ConnectionTypeValueFailsAt(buffer: seq<byte>, done: nat, rest: nat, offset: nat, rec: ConnectionTypeRecord,
                                   afterKey: nat, e: Error)
    requires rest > 0 && ConnectionTypeMap(buffer, done, offset, rec).1.Done?
    requires ReadMapKey(buffer, ConnectionTypeMap(buffer, done, offset, rec).1.next) == Ok(ConnectionTypeKey, afterKey)
    requires ReadString(buffer, afterKey) == Fail(e)
    ensures ConnectionTypeMap(buffer, done + rest, offset, rec) == (ConnectionTypeRecord([]), Failed(e))
  {
    var before := ConnectionTypeMap(buffer, done, offset, rec);
    AssembleSplit(ConnectionTypeStep(buffer), done, rest, offset, rec);
    ConnectionTypeValueFails(buffer, rest, before.1.next, before.0, afterKey, e);
  }

  /** A key after done pairs that does not read ends readDomainMap with that
      error or panic, the record as those pairs left it. */
  lemma DomainKeyFailsAt(buffer: seq<byte>, done: nat, rest: nat, offset: nat, rec: DomainRecord)
    requires rest > 0 && DomainMap(buffer, done, offset, rec).1.Done?
    requires !ReadMapKey(buffer, DomainMap(buffer, done, offset, rec).1.next).Ok?
    ensures var before := DomainMap(buffer, done, offset, rec);
            var key := ReadMapKey(buffer, before.1.next);
            DomainMap(buffer, done + rest, offset, rec) == (before.0, if key.Fail? then Failed(key.error) else Panicked)
  {
    var before := DomainMap(buffer, done, offset, rec);
    AssembleSplit(DomainStep(buffer), done, rest, offset, rec);
    DomainKeyFails(buffer, rest, before.1.next, before.0);
  }

  /** A key after done pairs that does not read ends readASNMap with that
      error or panic, the record as those pairs left it. */
  lemma AsnKeyFailsAt(buffer: seq<byte>, done: nat, rest: nat, offset: nat, rec: AsnRecord)
    requires rest > 0 && AsnMap(buffer, done, offset, rec).1.Done?
    requires !ReadMapKey(buffer, AsnMap(buffer, done, offset, rec).1.next).Ok?
    ensures var before := AsnMap(buffer, done, offset, rec);
            var key := ReadMapKey(buffer, before.1.next);
            AsnMap(buffer, done + rest, offset, rec) == (before.0, if key.Fail? then Failed(key.error) else Panicked)
  {
    var before := AsnMap(buffer, done, offset, rec);
    AssembleSplit(AsnStep(buffer), done, rest, offset, rec);
    AsnKeyFails(buffer, rest, before.1.next, before.0);
  }

  /** A key after done pairs that does not read ends readConnectionTypeMap
      with that error or panic, the record as those pairs left it. */
  lemma ConnectionTypeKeyFailsAt(buffer: seq<byte>, done: nat, rest: nat, offset: nat, rec: ConnectionTypeRecord)
    requires rest > 0 && ConnectionTypeMap(buffer, done, offset, rec).1.Done?
    requires !ReadMapKey(buffer, ConnectionTypeMap(buffer, done, offset, rec).1.next).Ok?
    ensures var before := ConnectionTypeMap(buffer, done, offset, rec);
            var key := ReadMapKey(buffer, before.1.next);
            ConnectionTypeMap(buffer, done + rest, offset, rec)
            == (before.0, if key.Fail? then Failed(key.error) else Panicked)
  {
    var before := ConnectionTypeMap(buffer, done, offset, rec);
    AssembleSplit(ConnectionTypeStep(buffer), done, rest, offset, rec);
    ConnectionTypeKeyFails(buffer, rest, before.1.next, before.0);
  }

  // ---------------------------------------------------------------------
  // The last pair wins

  /** When a repeated "domain" key is the last of mapSize pairs, its value
      is the domain, whatever the earlier pairs held. */
  lemma DomainLastWins(buffer: seq<byte>, mapSize: nat, offset: nat, rec: DomainRecord,
                       afterKey: nat, v: seq<byte>, next: nat)
    requires mapSize > 0
    requires DomainMap(buffer, mapSize - 1, offset, rec).1.Done?
    requires ReadMapKey(buffer, DomainMap(buffer, mapSize - 1, offset, rec).1.next) == Ok(DomainKey, afterKey)
    requires ReadString(buffer, afterKey) == Ok(v, next)
    ensures DomainMap(buffer, mapSize, offset, rec) == (DomainRecord(v), Done(next))
  {
    AssembleLast(DomainStep(buffer), mapSize, offset, rec);
    var before := DomainMap(buffer, mapSize - 1, offset, rec);
    DomainPairCases(buffer, before.0, before.1.next, DomainKey, afterKey);
  }

  /** The same for the organization of an ASN record: the number read by
      the earlier pairs is kept. */
  lemma AsnOrganizationLastWins(buffer: seq<byte>, mapSize: nat, offset: nat, rec: AsnRecord,
                                afterKey: nat, v: seq<byte>, next: nat)
    requires mapSize > 0
    requires AsnMap(buffer, mapSize - 1, offset, rec).1.Done?
    requires ReadMapKey(buffer, AsnMap(buffer, mapSize - 1, offset, rec).1.next) == Ok(OrganizationKey, afterKey)
    requires ReadString(buffer, afterKey) == Ok(v, next)
    ensures AsnMap(buffer, mapSize, offset, rec)
         == (AsnRecord(AsnMap(buffer, mapSize - 1, offset, rec).0.number, v), Done(next))
  {
    AssembleLast(AsnStep(buffer), mapSize, offset, rec);
    var before := AsnMap(buffer, mapSize - 1, offset, rec);
    AsnPairCases(buffer, before.0, before.1.next, OrganizationKey, afterKey);
  }

  // ---------------------------------------------------------------------
  // Round trips

  /** The pair "domain" and v, written in the format, reads back as the
      key and the transliterated v; with DomainOnePair, readDomainMap reads
      that record back. */
  lemma DomainPairRoundTrip(buffer: seq<byte>, offset: nat, keyStart: nat,
                            v: seq<byte>, valueOffset: nat, valueStart: nat)
    requires |v| < MaxSize
    requires At(buffer, offset, EncodeControl(TypeString, |DomainKey|))
    requires keyStart == offset + |EncodeControl(TypeString, |DomainKey|)| && At(buffer, keyStart, DomainKey)
    requires valueOffset == keyStart + |DomainKey| && At(buffer, valueOffset, EncodeControl(TypeString, |v|))
    requires valueStart == valueOffset + |EncodeControl(TypeString, |v|)| && At(buffer, valueStart, v)
    ensures ReadMapKey(buffer, offset) == Ok(DomainKey, valueOffset)
    ensures ReadString(buffer, valueOffset) == Ok(ToIso88591(v), valueStart + |v|)
  {
    MapKeyRoundTrip(buffer, offset, DomainKey, keyStart);
    StringRoundTrip(buffer, valueOffset, v, valueStart);
  }

  /** A map whose one pair is "domain" and v gives the record of v, and
      ends after v. */
  lemma DomainOnePair(buffer: seq<byte>, offset: nat, rec: DomainRecord, afterKey: nat, v: seq<byte>, next: nat)
    requires ReadMapKey(buffer, offset) == Ok(DomainKey, afterKey) && ReadString(buffer, afterKey) == Ok(v, next)
    ensures DomainMap(buffer, 1, offset, rec) == (DomainRecord(v), Done(next))
  {
    AssembleStep(DomainStep(buffer), 1, offset, rec);
    DomainPairCases(buffer, rec, offset, DomainKey, afterKey);
  }
}

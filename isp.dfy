/** The ISP reader of package geoip2_iso88591: opening checks the database
    type in the metadata, and a lookup dispatches on the control byte at the
    offset the search tree gives for an address. The search tree, the
    metadata parser and the ISP record assembler live outside this model and
    enter as parameters: the result newReader gives, the offset getOffset
    gives, and readISPMap as a function of the record it fills. */
module Isp {
  import opened Bytes
  import opened Decoder
  import opened DecoderLemmas
  import opened Records

  /** "GeoIP2-ISP" */
  const IspDatabaseType: seq<byte> := Ascii("GeoIP2-ISP")

  datatype Metadata = Metadata(databaseType: seq<byte>)

  /** What an ISP lookup uses of an opened database. */
  datatype Reader = Reader(metadata: Metadata, decoderBuffer: seq<byte>)

  /** What newReader gives: an opened database or its error. */
  datatype Opened = Opened(reader: Reader) | OpenFailed(error: Error)

  /** What NewISPReader gives. */
  datatype IspReader = IspReader(reader: Reader) | IspReaderFailed(error: Error)

  /** What getOffset gives for an address: the data-section offset of its
      record, or its error. */
  datatype Located = Located(offset: nat) | NotLocated(error: Error)

  /** What Lookup gives: the filled record, an error, or a Go runtime
      panic. */
  datatype LookupResult<R> = Found(record: R) | LookupFailed(error: Error) | LookupPanicked

  /** NewISPReader: a database opens as an ISP reader exactly when newReader
      succeeds and its metadata names the GeoIP2-ISP type. */
  function NewISPReader(loaded: Opened): (r: IspReader)
    ensures r.IspReader? <==> loaded.Opened? && loaded.reader.metadata.databaseType == IspDatabaseType
    ensures r.IspReader? ==> r.reader == loaded.reader
    ensures loaded.OpenFailed? ==> r == IspReaderFailed(loaded.error)
    ensures loaded.Opened? && loaded.reader.metadata.databaseType != IspDatabaseType
            ==> r == IspReaderFailed(WrongDatabaseType(loaded.reader.metadata.databaseType))
  {
    match loaded
    case OpenFailed(e) => IspReaderFailed(e)
    case Opened(reader) =>
      if reader.metadata.databaseType != IspDatabaseType then
        IspReaderFailed(WrongDatabaseType(reader.metadata.databaseType))
      else IspReader(reader)
  }

  /** How a lookup ends once readISPMap has run on the fresh record. */
  function Filled<R>(assembled: (R, Status)): LookupResult<R>
  {
    match assembled.1
    case Done(_) => Found(assembled.0)
    case Failed(e) => LookupFailed(e)
    case Panicked => LookupPanicked
  }

  /** ISPReader.Lookup: a Map at the offset is assembled from right after its
      control bytes into the fresh record empty; a Pointer there is followed
      once and must land on a Map; any other type is an error. */
  function Lookup<R>(reader: Reader, located: Located, empty: R,
                     readISPMap: (R, seq<byte>, nat, nat) -> (R, Status)): (r: LookupResult<R>)
    ensures located.NotLocated? ==> r == LookupFailed(located.error)
    ensures located.Located? && ReadControl(reader.decoderBuffer, located.offset).Fail? ==> r == LookupFailed(InvalidOffset)
    ensures located.Located? && ReadControl(reader.decoderBuffer, located.offset).Panic? ==> r == LookupPanicked
    ensures r.Found? ==>
              exists size: nat, start: nat :: readISPMap(empty, reader.decoderBuffer, size, start).1.Done? &&
                                              readISPMap(empty, reader.decoderBuffer, size, start).0 == r.record
  {
    var buffer := reader.decoderBuffer;
    match located
    case NotLocated(e) => LookupFailed(e)
    case Located(offset) =>
      match ReadControl(buffer, offset)
      case Panic => LookupPanicked
      case Fail(e) => LookupFailed(e)
      case Ok(h, start) =>
        if h.dataType == TypeMap then Filled(readISPMap(empty, buffer, h.size, start))
        else if h.dataType == TypePointer then
          match ReadPointer(buffer, h.size, start)
          case Panic => LookupPanicked
          case Fail(e) => LookupFailed(e)
          case Ok(pointer, _) =>
            match ReadControl(buffer, pointer)
            case Panic => LookupPanicked
            case Fail(e) => LookupFailed(e)
            case Ok(h2, start2) =>
              if h2.dataType != TypeMap then LookupFailed(InvalidPointerType("ISP", h2.dataType))
              else Filled(readISPMap(empty, buffer, h2.size, start2))
        else LookupFailed(InvalidType("ISP", h.dataType))
  }

  // ---------------------------------------------------------------------
  // Lookup is a typed read

  /** readISPMap's result as a decoded value. */
  function AsOutcome<R>(assembled: (R, Status)): Outcome<R>
  {
    match assembled.1
    case Done(next) => Ok(assembled.0, next)
    case Failed(e) => Fail(e)
    case Panicked => Panic
  }

  /** A decoded value as a lookup result; the offset is dropped. */
  function AsLookup<R>(o: Outcome<R>): LookupResult<R>
  {
    match o
    case Ok(v, _) => Found(v)
    case Fail(e) => LookupFailed(e)
    case Panic => LookupPanicked
  }

  /** readISPMap on the fresh record as the payload decoder of a Map. */
  function IspPayload<R>(buffer: seq<byte>, empty: R, readISPMap: (R, seq<byte>, nat, nat) -> (R, Status))
    : (Header, nat) -> Outcome<R>
  {
    (h: Header, start: nat) => AsOutcome(readISPMap(empty, buffer, h.size, start))
  }

  /** Lookup at an offset follows the protocol of every typed reader, with
      Map as the expected type, "ISP" as the reader's name and readISPMap as
      the payload decoder. */
  lemma LookupIsTypedRead<R>(reader: Reader, offset: nat, empty: R,
                             readISPMap: (R, seq<byte>, nat, nat) -> (R, Status))
    ensures Lookup(reader, Located(offset), empty, readISPMap)
         == AsLookup(ReadValue(reader.decoderBuffer, offset, TypeMap, "ISP", IspPayload(reader.decoderBuffer, empty, readISPMap)))
  {
    var buffer := reader.decoderBuffer;
    var payload := IspPayload(buffer, empty, readISPMap);
    match ReadControl(buffer, offset)
    case Panic =>
    case Fail(e) =>
    case Ok(h, start) =>
      if h.dataType == TypeMap {
        assert payload(h, start) == AsOutcome(readISPMap(empty, buffer, h.size, start));
      } else if h.dataType == TypePointer {
        match ReadPointer(buffer, h.size, start)
        case Panic =>
        case Fail(e) =>
        case Ok(pointer, _) =>
          match ReadControl(buffer, pointer)
          case Panic =>
          case Fail(e) =>
          case Ok(h2, start2) =>
            assert payload(h2, start2) == AsOutcome(readISPMap(empty, buffer, h2.size, start2));
      }
  }

  // ---------------------------------------------------------------------
  // The branches of Lookup

  /** A Map at the offset is assembled from right after its control bytes. */
  lemma LookupMap<R>(reader: Reader, offset: nat, empty: R, readISPMap: (R, seq<byte>, nat, nat) -> (R, Status),
                     size: nat, start: nat)
    requires ReadControl(reader.decoderBuffer, offset) == Ok(Header(TypeMap, size), start)
    ensures Lookup(reader, Located(offset), empty, readISPMap) == Filled(readISPMap(empty, reader.decoderBuffer, size, start))
  {
  }

  /** A Pointer to a Map is transparent: the lookup gives what a lookup at
      the pointer's target gives. */
  lemma LookupThroughPointer<R>(reader: Reader, offset: nat, empty: R,
                                readISPMap: (R, seq<byte>, nat, nat) -> (R, Status),
                                size: nat, start: nat, target: nat, afterPointer: nat)
    requires ReadControl(reader.decoderBuffer, offset) == Ok(Header(TypePointer, size), start)
    requires ReadPointer(reader.decoderBuffer, size, start) == Ok(target, afterPointer)
    requires ReadControl(reader.decoderBuffer, target).Ok? && ReadControl(reader.decoderBuffer, target).value.dataType == TypeMap
    ensures Lookup(reader, Located(offset), empty, readISPMap) == Lookup(reader, Located(target), empty, readISPMap)
  {
    var payload := IspPayload(reader.decoderBuffer, empty, readISPMap);
    LookupIsTypedRead(reader, offset, empty, readISPMap);
    LookupIsTypedRead(reader, target, empty, readISPMap);
    PointerTransparent(reader.decoderBuffer, offset, TypeMap, "ISP", payload, size, start, target, afterPointer);
  }

  /** A Pointer to anything but a Map is "invalid ISP pointer type". */
  lemma LookupPointerToNonMap<R>(reader: Reader, offset: nat, empty: R,
                                 readISPMap: (R, seq<byte>, nat, nat) -> (R, Status),
                                 size: nat, start: nat, target: nat, afterPointer: nat, h: Header, start2: nat)
    requires ReadControl(reader.decoderBuffer, offset) == Ok(Header(TypePointer, size), start)
    requires ReadPointer(reader.decoderBuffer, size, start) == Ok(target, afterPointer)
    requires ReadControl(reader.decoderBuffer, target) == Ok(h, start2) && h.dataType != TypeMap
    ensures Lookup(reader, Located(offset), empty, readISPMap) == LookupFailed(InvalidPointerType("ISP", h.dataType))
  {
  }

  /** Any type but Map or Pointer at the offset is "invalid ISP type". */
  lemma LookupWrongType<R>(reader: Reader, offset: nat, empty: R,
                           readISPMap: (R, seq<byte>, nat, nat) -> (R, Status), h: Header, start: nat)
    requires ReadControl(reader.decoderBuffer, offset) == Ok(h, start)
    requires h.dataType != TypeMap && h.dataType != TypePointer
    ensures Lookup(reader, Located(offset), empty, readISPMap) == LookupFailed(InvalidType("ISP", h.dataType))
  {
  }

  /** The messages of the two type errors of Lookup name the type found. */
  lemma LookupMessages(dataType: byte)
    ensures Message(InvalidType("ISP", dataType)) == "invalid ISP type: " + Decimal(dataType)
    ensures Message(InvalidPointerType("ISP", dataType)) == "invalid ISP pointer type: " + Decimal(dataType)
  {
    ReaderMessages("ISP", dataType);
    assert "invalid " + "ISP" + " type: " == "invalid ISP type: ";
    assert "invalid " + "ISP" + " pointer type: " == "invalid ISP pointer type: ";
  }

  /** The message a wrong database type gives names the type found. */
  lemma WrongDatabaseTypeMessage(loaded: Opened)
    requires loaded.Opened? && loaded.reader.metadata.databaseType != IspDatabaseType
    ensures NewISPReader(loaded).IspReaderFailed?
    ensures Message(NewISPReader(loaded).error)
         == "wrong MaxMind DB ISP type: " + Chars(loaded.reader.metadata.databaseType)
  {
  }
}

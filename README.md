# traefikgeoip: the MaxMind DB decoder core, in Dafny

traefikgeoip is a Traefik plugin that looks up the client address in
MaxMind GeoIP2/GeoLite2 databases and copies country, city and ASN fields
into request headers. This project models its core, the part that turns
bytes into values:

- **The data-section decoder** of the MaxMind DB format, in its two copies
  `geoip2/common.go` and `geoip2_iso88591/common.go`:
  - control bytes (`readControl`) and pointers (`readPointer`);
  - the big-endian packers `bytesToUInt64` and `bytesToUInt64WithPrefix`;
  - the typed readers, which take a value inline or behind exactly one
    pointer and report a wrong type as an error;
  - the string-map and string-slice loops.
  The two copies differ only in how a string-map key is converted. `geoip2`
  transliterates it. `geoip2_iso88591` keeps its bytes. This is the
  `KeyMode` parameter.
- **The transliterators** between UTF-8 and ISO-8859-1 (Latin-1):
  `utf8ToIso88591` and `bytesUtf8ToIso88591`, the same loop in three files,
  and `bytesIso88591ToUtf8` with the `lib` string wrappers.
- **The record assemblers** `readDomainMap`, `readASNMap` and
  `readConnectionTypeMap`. Each reads a fixed number of key/value pairs into
  an object, in place.
- **The ISP reader**: the database-type check of `NewISPReader` and the
  dispatch of `ISPReader.Lookup`.

Files:

| file | module | what it holds |
|---|---|---|
| `bytes.dfy` | `Bytes` | `byte`, `uint64` wrap-around, the big-endian packers |
| `transliterate.dfy` | `Transliterate` | the transliterations as functions and as the source's loops |
| `transliterate_lemmas.dfy` | `TransliterateLemmas` | lengths, both round trips, concatenation |
| `decoder.dfy` | `Decoder` | control bytes, pointers, the typed readers, the map and slice loops |
| `decoder_lemmas.dfy` | `DecoderLemmas` | inline and pointer reads, map and slice loop properties |
| `encoding.dfy` | `Encoding` | a writer for the format, used as the reference the readers are checked against |
| `records.dfy` | `Records` | the three record assemblers, as classes filled by a loop |
| `records_lemmas.dfy` | `RecordsLemmas` | bounds, unknown keys, zero-on-error, last pair wins, round trip |
| `isp.dfy` | `Isp` | `NewISPReader` and `ISPReader.Lookup` |

### Modelling choices

- A Go `byte` is an `int` in `0..255`. Bit operations are written with `/`
  and `%`. 8-bit wrap-around is explicit wherever it happens:
  - the extended type `buffer[offset] + 7`;
  - the shift in `(b & 0x1F) << 6`, which keeps only the low 8 bits.
- The `uint64` arithmetic of `bytesToUInt64WithPrefix` is modelled modulo
  2^64.
- Every decoder function returns an `Outcome`. It has three cases:
  - `Ok(value, next)`;
  - `Fail(error)`, an error the Go code returns (`Message` gives its text);
  - `Panic`, an index or slice out of range that the Go code does not
    check.
- The record assemblers return a `Status` with the same three cases. Each
  assembler is a class whose fields its loop method writes in place. The
  loop is specified by `AssembleFrom`, a generic function that takes one
  step per key/value pair. Each record supplies its step (`DomainPair`,
  `AsnPair`, `ConnectionTypePair`).
- `readFloat64` keeps the 8 payload bytes instead of reinterpreting them as
  a float.
- Byte slices are `seq<byte>`. A Go `string` built from bytes
  is the same sequence.
- `readControl` extends the size field of every control byte, Pointers
  included (`geoip2_iso88591/common.go:22-35`). A Pointer whose size field
  is 29 to 31 therefore consumes 1 to 3 extension bytes before its pointer
  bytes, and the extended size then selects the pointer width. The format
  reads such a byte as a four-byte pointer with no extension. The model
  follows the code; `DecoderLemmas.PointerSizeExtended` shows the
  difference on the bytes 0x3D 3 7 0 0. The encoder in `Encoding` never
  writes such a Pointer, so its round trips are unaffected.

## Model

| member | source | states |
|---|---|---|
| Bytes.BytesToUInt64 | geoip2_iso88591/common.go:311-331 | 1 to 8 bytes pack big-endian into their number; any other length gives 0 |
| Bytes.BytesToUInt64WithPrefix | geoip2_iso88591/common.go:333-355 | up to 8 bytes pack below the prefix: `(prefix * 256^n + value) mod 2^64`; no bytes give the prefix; more than 8 give 0 |
| Bytes.FoldValue | geoip2_iso88591/common.go:333-355 | the chain of `acc<<8 \| b` steps on a uint64 is `acc * 256^n + value` reduced mod 2^64 |
| Bytes.BigEndian | geoip2_iso88591/common.go:311-331 | the number n bytes denote is below 256^n |
| Bytes.DecodeEncodeBigEndian | geoip2_iso88591/common.go:311-331 | a number below 256^n written as n big-endian bytes reads back as itself |
| Bytes.EncodeDecodeBigEndian | geoip2_iso88591/common.go:311-331 | n bytes written back from the number they denote are the same bytes |
| Transliterate.ToIso88591 | lib/utils.go:32-51 | the output is never longer than the input |
| Transliterate.ToUtf8 | lib/utils.go:16-29 | every input byte becomes one or two output bytes |
| Transliterate.BytesUtf8ToIso88591 | lib/utils.go:32-51 | the loop emits exactly ToIso88591 of its input |
| Transliterate.BytesIso88591ToUtf8 | lib/utils.go:16-29 | the loop emits exactly ToUtf8 of its input |
| Transliterate.StringUtf8ToIso88591 | lib/utils.go:4-7 | the string wrapper converts the string's bytes with the same transliteration |
| Transliterate.StringIso88591ToUtf8 | lib/utils.go:10-13 | the string wrapper converts the string's bytes with the same conversion |
| Transliterate.ToUtf8Concat | lib/utils.go:16-29 | the conversion to UTF-8 works byte by byte: it distributes over concatenation |
| TransliterateLemmas.ToUtf8Length | lib/utils.go:16-29 | the UTF-8 output has one extra byte per input byte of 0x80 or more |
| TransliterateLemmas.ToIso88591Length | lib/utils.go:32-51 | the Latin-1 output is one byte shorter per collapsed two-byte pair |
| TransliterateLemmas.ToUtf8IsLatin1Utf8 | lib/utils.go:16-29 | the UTF-8 output is well-formed UTF-8 of characters U+0000..U+00FF only |
| TransliterateLemmas.RoundTrip | lib/utils.go:16-51 | Latin-1 to UTF-8 and back gives back every byte sequence |
| TransliterateLemmas.ReverseRoundTrip | lib/utils.go:16-51 | UTF-8 to Latin-1 and back is the identity on text whose characters are U+0000..U+00FF |
| TransliterateLemmas.ReverseRoundTripExactly | lib/utils.go:16-51 | that reverse round trip holds if and only if the text is such UTF-8 |
| TransliterateLemmas.AsciiIdentity | lib/utils.go:16-51 | both conversions leave ASCII text unchanged |
| TransliterateLemmas.ToIso88591Concat | geoip2_iso88591/common.go:377-396 | transliterating a + b is transliterating each, when b does not start with a continuation byte |
| TransliterateLemmas.DanglingLead | geoip2_iso88591/common.go:385-392 | a lead byte in the last position, with no continuation, becomes `'?'` |
| TransliterateLemmas.CollapseTruncates | geoip2/common.go:396-400 | a collapsed pair gives its code point mod 256, so U+0100..U+07FF become unrelated bytes rather than `'?'` |
| TransliterateLemmas.ExpandCollapse | lib/utils.go:25 | expanding the byte a pair led by 0xC2 or 0xC3 collapses to gives back the pair |
| Decoder.ReadControl | geoip2_iso88591/common.go:10-37 | panics exactly when the control byte, or the extended-type byte it needs, is past the end; the type is the top 3 bits or the next byte + 7 mod 256; the size is the low 5 bits, or 1 to 3 continuation bytes plus 29, 285 or 65821, and continuation bytes past the end are "invalid offset" |
| Decoder.ReadPointer | geoip2_iso88591/common.go:39-60 | never panics; fails with "invalid offset" exactly when the 1 to 4 pointer bytes overrun the buffer; else the value is the 3 high bits (widths 1 to 3), then the bytes, plus the width's bias 0, 2048, 526336 or 0 |
| Decoder.PointerValueFits | geoip2_iso88591/common.go:45-49 | the 3 prefix bits and the pointer bytes packed below them stay below 2^35, so the uint64 packing of readPointer never wraps |
| Decoder.Payload | geoip2_iso88591/common.go:175-177 | the payload is the `size` bytes after the control bytes, and slicing past the end panics |
| Decoder.ReadValue | geoip2_iso88591/common.go:169-194 | the shared dispatch of the typed readers: control bytes past the end panic, continuation bytes past the end are "invalid offset", and a type neither expected nor Pointer is "invalid … type" naming the reader and the type |
| Decoder.StringPayload | geoip2_iso88591/common.go:175-177 | the String payload panics exactly when its `size` bytes overrun the buffer, never fails, and is never longer than they are; reading continues right after them |
| Decoder.ReadValueWithin | geoip2_iso88591/common.go:169-194 | a typed read that succeeds moves forward and stays within the buffer, whatever the payload decoder, if that decoder does |
| Decoder.ReadUInt16 | geoip2_iso88591/common.go:89-114 | a successful read moves forward within the buffer and gives a value below 2^16 |
| Decoder.ReadUInt32 | geoip2_iso88591/common.go:116-141 | a successful read moves forward within the buffer and gives a value below 2^32 |
| Decoder.ReadFloat64 | geoip2_iso88591/common.go:62-87 | a successful read moves forward within the buffer and gives 8 bytes |
| Decoder.ReadBool | geoip2_iso88591/common.go:143-167 | a successful read moves forward within the buffer |
| Decoder.ReadString | geoip2_iso88591/common.go:169-194 | a successful read moves forward within the buffer |
| Decoder.ReadMapKey | geoip2_iso88591/common.go:268-295 | a successful read moves forward within the buffer (its cases: InlineMapKey, PointerMapKey, MapKeyOverrun, KeyNotStringFails) |
| Decoder.KeyString | geoip2_iso88591/common.go:367-373 | a map key, kept raw (bytesToKeyString) or transliterated (bytesToString), is never longer than its bytes, and an ASCII key is the same in both modes |
| Decoder.ReadStringMap | geoip2_iso88591/common.go:196-224 | a successful read moves forward within the buffer |
| Decoder.ReadEntry | geoip2_iso88591/common.go:233-263 | a successful entry read moves forward within the buffer |
| Decoder.EntryValue | geoip2_iso88591/common.go:237-263 | a successful value read moves past the key, stays within the buffer and keeps the key (its cases: InlineEntryValue, EntryThroughPointer, EntryPointerNotString, EntryInvalidType, EntryValueOverrun) |
| Decoder.EntryReaderAdvances | geoip2_iso88591/common.go:232-264 | every successful entry read moves forward within the buffer |
| Decoder.StringMapMapFrom | geoip2_iso88591/common.go:232-265 | the map loop only adds keys: every key of the map it starts from is in the map it returns |
| Decoder.StringMapMapFromBounds | geoip2_iso88591/common.go:232-265 | a completed map loop has moved at least one byte per entry and ends within the buffer |
| Decoder.ReadStringMapMap | geoip2_iso88591/common.go:226-266 | the loop computes exactly the map StringMapMap specifies |
| Decoder.StringMapMapLoop | geoip2_iso88591/common.go:231-265 | the loop over any entry reader computes StringMapMapFrom from the empty map |
| Decoder.StringSliceFrom | geoip2_iso88591/common.go:297-309 | a completed slice keeps the strings read so far in front and has one string per remaining iteration |
| Decoder.ReadStringSlice | geoip2_iso88591/common.go:297-309 | the loop computes exactly StringSlice, and a completed slice has sliceSize strings |
| Decoder.StringSliceLoop | geoip2_iso88591/common.go:300-308 | the loop over an array of sliceSize strings computes StringSliceFrom from the empty slice |
| DecoderLemmas.ReadValueInline | geoip2_iso88591/common.go:174-177 | an inline value of the expected type is decoded by the payload decoder from right after its control bytes |
| DecoderLemmas.InlineString | geoip2_iso88591/common.go:175-177 | an inline String reads as its transliterated payload and ends after it |
| DecoderLemmas.InlineStringOverrun | geoip2_iso88591/common.go:176-177 | an inline String whose size overruns the buffer panics |
| DecoderLemmas.InlineUInt16 | geoip2_iso88591/common.go:94-97 | an inline Uint16 reads as its payload packed and cut to 16 bits |
| DecoderLemmas.InlineUInt32 | geoip2_iso88591/common.go:121-124 | an inline Uint32 reads as its payload packed and cut to 32 bits |
| DecoderLemmas.InlineBool | geoip2_iso88591/common.go:148-150 | an inline Bool is `size != 0` and consumes no payload |
| DecoderLemmas.InlineMapKey | geoip2_iso88591/common.go:287-294 | an inline String key reads as its raw bytes and ends after them |
| DecoderLemmas.PointerMapKey | geoip2_iso88591/common.go:273-285 | a key behind a pointer is the raw String at the target, and reading continues right after the pointer |
| DecoderLemmas.MapKeyOverrun | geoip2_iso88591/common.go:285-292 | an inline key past the end is "invalid offset"; a key behind a pointer past the end panics, as that slice is unchecked |
| DecoderLemmas.KeyNotStringFails | geoip2_iso88591/common.go:282-288 | a key that is not a String, inline or at the pointer's target, is "map key must be a string, got: " with the type found |
| DecoderLemmas.InlineStringMap | geoip2_iso88591/common.go:202-203 | an inline Map is read by readStringMapMap from right after its control bytes |
| DecoderLemmas.InlineEntry | geoip2_iso88591/common.go:233-260 | an inline key followed by an inline String value reads as both raw byte sequences |
| DecoderLemmas.InlineEntryValue | geoip2_iso88591/common.go:256-260 | an inline String value after a key reads as its raw bytes, keeps the key and ends after the value |
| DecoderLemmas.EntryThroughPointer | geoip2_iso88591/common.go:242-255 | a value behind a pointer is the raw String at the target, and the loop continues right after the pointer |
| DecoderLemmas.EntryPointerNotString | geoip2_iso88591/common.go:247-253 | a value behind a pointer that is not a String is reported as "map key must be a string, got: " with the type found |
| DecoderLemmas.EntryInvalidType | geoip2_iso88591/common.go:261-262 | an inline value that is neither String nor Pointer is "invalid data type of key K: N" |
| DecoderLemmas.EntryValueOverrun | geoip2_iso88591/common.go:255-258 | a String value past the end panics, inline or behind a pointer, as neither slice is checked |
| DecoderLemmas.MapEntryFails | geoip2_iso88591/common.go:233-263 | an entry that does not read ends readStringMapMap with its error or panic, and no map is returned |
| DecoderLemmas.PointerTransparent | geoip2_iso88591/common.go:178-190 | reading through a pointer gives what reading at its target gives, continuing right after the pointer |
| DecoderLemmas.PointerString | geoip2_iso88591/common.go:178-190 | a pointer to an inline String reads that string and continues after the pointer |
| DecoderLemmas.PointerWrongTypeFails | geoip2_iso88591/common.go:183-189 | a pointer whose target is not of the reader's type is "invalid … pointer type" naming that type, for every typed reader |
| DecoderLemmas.PointerToPointerFails | geoip2_iso88591/common.go:183-189 | pointers are followed once: a pointer to a pointer is "invalid … pointer type: 1" |
| DecoderLemmas.PointerSizeExtended | geoip2_iso88591/common.go:10-58 | readControl extends the size of a Pointer control byte too: 0x3D with size field 29 becomes a pointer of size 32 after one extension byte, read as a one-byte pointer |
| DecoderLemmas.WrongTypeFails | geoip2_iso88591/common.go:191-193 | a value neither of the expected type nor a pointer is "invalid … type" naming the type found |
| DecoderLemmas.ReaderMessages | geoip2_iso88591/common.go:187-192 | the messages of those two errors |
| DecoderLemmas.StringMapMapFromAccumulator | geoip2_iso88591/common.go:231-265 | running the map loop from a non-empty map lets the entries read overwrite that map |
| DecoderLemmas.StringMapMapFromSplit | geoip2_iso88591/common.go:232-264 | the loop over n1 + n2 entries is the loop over n1 entries followed by the loop over the next n2 |
| DecoderLemmas.LastEntryWins | geoip2_iso88591/common.go:255-260 | the entry read last decides its key's value, and the loop ends right after it |
| DecoderLemmas.TransliteratedKeysUpdate | geoip2/common.go:255-260 | storing an entry under its raw key in one map and under its transliterated key in the other keeps the second map's keys the transliterations of the first's |
| DecoderLemmas.KeyModesAgree | geoip2/common.go:255-260 | the two key modes fail, panic and stop at the same places, and the geoip2 keys are the transliterations of the geoip2_iso88591 keys |
| DecoderLemmas.StringSliceFromAccumulator | geoip2_iso88591/common.go:301-307 | the strings already read stay in front of the strings read next |
| DecoderLemmas.StringSliceFirst | geoip2_iso88591/common.go:301-307 | a slice is its first string followed by the slice read right after it; an error in the first read is the outcome of the whole |
| DecoderLemmas.SliceFromFirst | geoip2_iso88591/common.go:301-307 | a non-empty slice read is its first string in front of the rest, or the first read's error or panic |
| Encoding.EncodeControl | geoip2_iso88591/common.go:10-37 | control bytes are 1 to 5 bytes long |
| Encoding.ControlRoundTrip | geoip2_iso88591/common.go:10-37 | control bytes written for a type and a size read back as that type and size, ending after them |
| Encoding.ControlType | geoip2_iso88591/common.go:10-20 | a control byte with a standard type, or an extended-type byte holding type - 7, reads as that type without panicking, and a size field under 29 is the size |
| Encoding.SizeBytesRoundTrip | geoip2_iso88591/common.go:22-35 | the size continuation bytes plus the bias read back as the size |
| Encoding.LargeSize | geoip2_iso88591/common.go:22-36 | a size field of 29 to 31 takes 1 to 3 continuation bytes after the type |
| Encoding.PointerRoundTrip | geoip2_iso88591/common.go:39-60 | the shortest pointer to any 32-bit target reads back as that target and ends after it |
| Encoding.PointerParts | geoip2_iso88591/common.go:40-58 | the encoded pointer's width, high bits and bias recombine to the target |
| Encoding.StringRoundTrip | geoip2_iso88591/common.go:169-177 | a String written in the format reads back as its transliteration |
| Encoding.StringThroughPointer | geoip2_iso88591/common.go:178-190 | a pointer to a written String reads back as its transliteration and ends after the pointer |
| Encoding.UInt16RoundTrip | geoip2_iso88591/common.go:89-114 | a number below 256^n for n up to 2, written in n bytes, reads back as itself |
| Encoding.UInt32RoundTrip | geoip2_iso88591/common.go:116-141 | a number below 256^n for n up to 4, written in n bytes, reads back as itself |
| Encoding.BoolRoundTrip | geoip2_iso88591/common.go:143-167 | a written Bool reads back and ends after its two control bytes |
| Encoding.MapKeyRoundTrip | geoip2_iso88591/common.go:268-295 | a written String key reads back as its bytes |
| Encoding.EntryRoundTrip | geoip2_iso88591/common.go:233-260 | a written key and String value read back as one entry |
| Encoding.StringMapRoundTrip | geoip2_iso88591/common.go:196-266 | a written one-entry map reads back as that entry, the key converted as the key mode says and the value transliterated |
| Encoding.OneEntry | geoip2_iso88591/common.go:232-265 | a one-entry map loop gives the map of that one key, converted as the key mode says, to the transliterated value |
| Records.AssembleStep | geoip2/domain.go:8-23 | one iteration of an assembler loop, unfolded |
| Records.AssembleSplit | geoip2/domain.go:8-23 | a loop of n1 + n2 pairs is a loop of n1 pairs followed, if it completes, by a loop of n2 |
| Records.AssembleBounds | geoip2/domain.go:8-23 | when every step moves forward within the buffer, a completed loop has moved at least one byte per pair and ends within it |
| Records.AssembleLast | geoip2/domain.go:8-23 | the record a loop of n pairs gives is what the last step makes of the record the first n - 1 left |
| Records.DomainPair | geoip2/domain.go:9-21 | a pair completes only under the key "domain", moving forward within the buffer; an unknown key leaves the record untouched |
| Records.Domain.constructor | geoip2/domain.go:5-24 | a fresh Domain has an empty domain |
| Records.ReadDomainMap | geoip2/domain.go:5-24 | the fields written and the status are exactly DomainMap of the record the caller passed |
| Records.FillDomain | geoip2/domain.go:8-23 | the loop, writing the field each iteration, computes AssembleFrom for any step |
| Records.AsnPair | geoip2_iso88591/asn.go:9-26 | a pair completes only under one of the two field names, moving forward within the buffer; it changes at most one field, and an unknown key leaves the record untouched |
| Records.ASN.constructor | geoip2_iso88591/asn.go:5-29 | a fresh ASN has number 0 and an empty organization |
| Records.ReadASNMap | geoip2_iso88591/asn.go:5-29 | the fields written and the status are exactly AsnMap of the record the caller passed |
| Records.FillASN | geoip2_iso88591/asn.go:8-28 | the loop, writing both fields each iteration, computes AssembleFrom for any step |
| Records.ConnectionTypePair | geoip2_iso88591/connection_type.go:9-21 | a pair completes only under the key "connection_type", moving forward within the buffer; an unknown key leaves the record untouched |
| Records.ConnectionType.constructor | geoip2_iso88591/connection_type.go:5-24 | a fresh ConnectionType has an empty connection type |
| Records.ReadConnectionTypeMap | geoip2_iso88591/connection_type.go:5-24 | the field written and the status are exactly ConnectionTypeMap of the record the caller passed |
| Records.FillConnectionType | geoip2_iso88591/connection_type.go:8-23 | the loop, writing the field each iteration, computes AssembleFrom for any step |
| RecordsLemmas.DomainStepAdvances | geoip2/domain.go:9-18 | every completed domain pair moves forward within the buffer |
| RecordsLemmas.DomainMapBounds | geoip2/domain.go:8-23 | a completed readDomainMap moved at least one byte per pair and ends within the buffer |
| RecordsLemmas.AsnStepAdvances | geoip2_iso88591/asn.go:9-23 | every completed ASN pair moves forward within the buffer |
| RecordsLemmas.AsnMapBounds | geoip2_iso88591/asn.go:8-28 | a completed readASNMap moved at least one byte per pair and ends within the buffer |
| RecordsLemmas.ConnectionTypeStepAdvances | geoip2_iso88591/connection_type.go:9-18 | every completed connection-type pair moves forward within the buffer |
| RecordsLemmas.ConnectionTypeMapBounds | geoip2_iso88591/connection_type.go:8-23 | a completed readConnectionTypeMap moved at least one byte per pair and ends within the buffer |
| RecordsLemmas.DomainPairCases | geoip2/domain.go:9-21 | one pair: an unknown key is an error; a "domain" value is stored, or "" when it does not read |
| RecordsLemmas.AsnPairCases | geoip2_iso88591/asn.go:9-26 | one pair: an unknown key is an error; each known key's value goes to its own field, its reader's zero value when it does not read; the other field is kept |
| RecordsLemmas.AsnPairFrame | geoip2_iso88591/asn.go:13-25 | a pair changes the number only under the number key and the organization only under the organization key |
| RecordsLemmas.ConnectionTypePairCases | geoip2_iso88591/connection_type.go:9-21 | one pair: an unknown key is an error; a "connection_type" value is stored, or "" when it does not read |
| RecordsLemmas.UnknownKeyMessages | geoip2/domain.go:20 | the texts "unknown domain key: ", "unknown asn key: " and "unknown connectionType key: " followed by the key |
| RecordsLemmas.DomainUnknownKey | geoip2/domain.go:19-20 | a first key other than "domain" ends readDomainMap with that error, the record untouched |
| RecordsLemmas.DomainValueFails | geoip2/domain.go:14-18 | a domain value that does not read stores "" and ends the loop with the reader's error |
| RecordsLemmas.AsnUnknownKey | geoip2_iso88591/asn.go:24-25 | a first key other than the two field names ends readASNMap with that error, the record untouched |
| RecordsLemmas.AsnNumberFails | geoip2_iso88591/asn.go:14-18 | a number that does not read stores 0, keeps the organization and ends with the reader's error |
| RecordsLemmas.AsnOrganizationFails | geoip2_iso88591/asn.go:19-23 | an organization that does not read stores "", keeps the number and ends with the reader's error |
| RecordsLemmas.ConnectionTypeUnknownKey | geoip2_iso88591/connection_type.go:19-20 | a first key other than "connection_type" ends readConnectionTypeMap with that error, the record untouched |
| RecordsLemmas.ConnectionTypeValueFails | geoip2_iso88591/connection_type.go:14-18 | a value that does not read stores "" and ends the loop with the reader's error |
| RecordsLemmas.DomainKeyFails | geoip2/domain.go:9-12 | a first key that does not read ends readDomainMap with its error or panic, the record untouched |
| RecordsLemmas.AsnKeyFails | geoip2_iso88591/asn.go:9-12 | a first key that does not read ends readASNMap with its error or panic, the record untouched |
| RecordsLemmas.ConnectionTypeKeyFails | geoip2_iso88591/connection_type.go:9-12 | a first key that does not read ends readConnectionTypeMap with its error or panic, the record untouched |
| RecordsLemmas.DomainUnknownKeyAt | geoip2/domain.go:8-21 | after any number of read pairs, a key other than "domain" ends readDomainMap with that error, the record as those pairs left it |
| RecordsLemmas.DomainValueFailsAt | geoip2/domain.go:8-18 | after any number of read pairs, a domain value that does not read stores "" and ends the loop with the reader's error |
| RecordsLemmas.AsnUnknownKeyAt | geoip2_iso88591/asn.go:8-25 | after any number of read pairs, an unknown key ends readASNMap with that error, the record as those pairs left it |
| RecordsLemmas.AsnNumberFailsAt | geoip2_iso88591/asn.go:8-18 | after any number of read pairs, a number that does not read stores 0, keeps the organization and ends with the reader's error |
| RecordsLemmas.AsnOrganizationFailsAt | geoip2_iso88591/asn.go:8-23 | after any number of read pairs, an organization that does not read stores "", keeps the number and ends with the reader's error |
| RecordsLemmas.ConnectionTypeUnknownKeyAt | geoip2_iso88591/connection_type.go:8-21 | after any number of read pairs, a key other than "connection_type" ends the loop with that error, the record as those pairs left it |
| RecordsLemmas.ConnectionTypeValueFailsAt | geoip2_iso88591/connection_type.go:8-18 | after any number of read pairs, a value that does not read stores "" and ends the loop with the reader's error |
| RecordsLemmas.DomainKeyFailsAt | geoip2/domain.go:8-12 | after any number of read pairs, a key that does not read ends readDomainMap with its error or panic, the record as those pairs left it |
| RecordsLemmas.AsnKeyFailsAt | geoip2_iso88591/asn.go:8-12 | after any number of read pairs, a key that does not read ends readASNMap with its error or panic, the record as those pairs left it |
| RecordsLemmas.ConnectionTypeKeyFailsAt | geoip2_iso88591/connection_type.go:8-12 | after any number of read pairs, a key that does not read ends readConnectionTypeMap with its error or panic, the record as those pairs left it |
| RecordsLemmas.DomainLastWins | geoip2/domain.go:8-23 | when the last of the pairs is "domain", its value is the domain, whatever came before |
| RecordsLemmas.AsnOrganizationLastWins | geoip2_iso88591/asn.go:8-28 | when the last pair is the organization, its value is the organization and the number the earlier pairs left is kept |
| RecordsLemmas.DomainPairRoundTrip | geoip2/domain.go:9-18 | the pair "domain" and v, written in the format, reads back as the key and the transliterated v |
| RecordsLemmas.DomainOnePair | geoip2/domain.go:5-24 | a map whose one pair is "domain" and v gives the record of v and ends after v |
| Isp.NewISPReader | geoip2_iso88591/reader_isp.go:52-63 | the reader opens if and only if newReader succeeds and the database type is "GeoIP2-ISP"; otherwise newReader's error or "wrong MaxMind DB ISP type" with the type found |
| Isp.WrongDatabaseTypeMessage | geoip2_iso88591/reader_isp.go:57-59 | the message of a wrong database type is "wrong MaxMind DB ISP type: " followed by the type |
| Isp.Lookup | geoip2_iso88591/reader_isp.go:14-50 | a getOffset error is returned; a control-byte error is "invalid offset" and an overrun panics; a found record is what readISPMap made of the fresh record, for some size and offset |
| Isp.LookupIsTypedRead | geoip2_iso88591/reader_isp.go:19-48 | the dispatch is the typed-read protocol of every reader, with Map as the expected type, "ISP" as the name and readISPMap as the payload decoder |
| Isp.LookupMap | geoip2_iso88591/reader_isp.go:25-29 | a Map at the offset is assembled from right after its control bytes |
| Isp.LookupThroughPointer | geoip2_iso88591/reader_isp.go:30-45 | a pointer to a Map gives what a lookup at its target gives |
| Isp.LookupPointerToNonMap | geoip2_iso88591/reader_isp.go:39-41 | a pointer to anything but a Map is "invalid ISP pointer type" with the type found |
| Isp.LookupWrongType | geoip2_iso88591/reader_isp.go:46-47 | any type but Map or Pointer is "invalid ISP type" with the type found |
| Isp.LookupMessages | geoip2_iso88591/reader_isp.go:40-47 | the texts of those two errors |

## Left out

- Floating point: `bytesToFloat32`/`bytesToFloat64` and the IEEE-754
  reinterpretation in `readFloat64`. The reader keeps the 8 bytes it would
  reinterpret. `readFloat64` panics on fewer than 8 payload bytes, and the
  model does too.
- `NewISPReaderFromFile` and every other file read: file I/O.
- `getOffset` (the search-tree walk), `newReader` (the metadata parser) and
  `readISPMap` are not part of this model. They enter `Isp.Lookup` and
  `Isp.NewISPReader` as parameters.
- The ISP record's fields are not part of this model: `Isp.Lookup` is
  generic in the record type, and `&ISP{}` is the parameter `empty`.
- `Isp.Lookup` is a function. It returns the record `readISPMap` filled
  instead of a pointer to it.
- The middleware, the header plumbing and `net.ParseIP`: these are HTTP
  glue outside the decoder. Those files set the ASN headers to the lookup
  values on the error branch and to "Unknown" on success
  (`middleware.go:122-129` and `144-150`). That looks like a defect. It is
  outside the modelled core and is not modelled.
- Decoder.Payload, DecoderLemmas.InlineStringOverrun, DecoderLemmas.MapKeyOverrun, DecoderLemmas.EntryValueOverrun:
  a Go slice `buffer[a:b]` panics only when `b` exceeds the slice's
  capacity, not its length. The model takes the decoder buffer's capacity to
  equal its length, so every slice past the end is `Panic`. The buffer is
  built by `newReader`, which is not part of this model. With a larger
  capacity the Go code would read bytes past the data section instead.
- Go `uint` offsets and sizes are `nat`. Offsets are bounded by the buffer
  length, so no sum in the decoder wraps in practice. `uint64`
  wrap-around is modelled where the source can reach it, in
  `bytesToUInt64WithPrefix`.
- Records.ReadDomainMap, Records.ReadASNMap, Records.ReadConnectionTypeMap:
  on an error the Go code returns offset 0. The model returns `Failed`
  with the error instead, because the offset carries no information then.
- Records.FillDomain, Records.FillASN, Records.FillConnectionType: each
  iteration reads its pair through the pure step function and then writes
  the fields. Go assigns the field in the same statement as the read. The
  values written and the order of writes between pairs are the same.
- The Go code has three copies of the UTF-8 to Latin-1 loop: `lib/utils.go`,
  `geoip2_iso88591/common.go` and `geoip2/common.go` (`utf8ToIso88591`).
  They are the same loop, so `Transliterate.BytesUtf8ToIso88591` models all
  three.
- The two decoder copies are one model with `KeyMode` as the difference.
- `geoip2/domain.go` calls `bytesToKeyString`, but `geoip2/common.go` does
  not define it. Its definition is not part of this model. The model compares
  the raw key bytes with `"domain"`, as the `geoip2_iso88591` definition does.
- The comment in the conversion loop (`lib/utils.go:46`) says characters
  outside ISO-8859-1 are replaced by `'?'`. The code does that per byte, not
  per character: every byte that neither is ASCII nor starts a collapsible
  pair becomes one `'?'`. The model follows the code. A three-byte character therefore
  becomes three `'?'` (see `TransliterateLemmas.ToIso88591Concat` and
  `DanglingLead`).
- A pair led by 0xC4..0xDF does not become `'?'`. It becomes its code point
  cut to 8 bits (`TransliterateLemmas.CollapseTruncates`). This is stated as
  the code's behaviour, not as a defect: the two-byte branch
  (`lib/utils.go:40-44`) accepts every lead byte 0xC0..0xDF.
- The round trip of a whole domain map through the writer is stated in two
  halves: `RecordsLemmas.DomainPairRoundTrip` and
  `RecordsLemmas.DomainOnePair`. No single lemma combines them.

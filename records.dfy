/** The closed-schema record assemblers readDomainMap, readASNMap and
    readConnectionTypeMap: each reads exactly mapSize key/value pairs of a map
    whose control bytes the caller has already read, matches every key
    exactly against the record's field names, and writes the field it names
    in place. An unknown key is an error. */
module Records {
  import opened Bytes
  import opened Transliterate
  import opened Decoder

  /** How an assembler ends: the offset after the last value, an error (the
      Go code returns offset 0 with it), or a Go runtime panic. */
  datatype Status = Done(next: nat) | Failed(error: Error) | Panicked

  /** The iterations of an assembler's loop still to run: each step reads a
      pair at the offset and gives the record as it leaves it; the loop
      stops at the first step that does not continue. */
  function AssembleFrom<R>(step: (R, nat) -> (R, Status), remaining: nat, offset: nat, rec: R): (R, Status)
    decreases remaining
  {
    if remaining == 0 then (rec, Done(offset))
    else
      var after := step(rec, offset);
      if after.1.Done? then AssembleFrom(step, remaining - 1, after.1.next, after.0) else after
  }

  /** One iteration of an assembler's loop, unfolded. */
  lemma AssembleStep<R>(step: (R, nat) -> (R, Status), remaining: nat, offset: nat, rec: R)
    requires remaining > 0
    ensures AssembleFrom(step, remaining, offset, rec)
         == (var after := step(rec, offset);
             if after.1.Done? then AssembleFrom(step, remaining - 1, after.1.next, after.0) else after)
  {
  }

  /** A loop of n1 + n2 pairs is a loop of n1 pairs followed, if it
      completes, by a loop of n2 pairs from where it stopped. */
  lemma {:induction false} AssembleSplit<R>(step: (R, nat) -> (R, Status), n1: nat, n2: nat, offset: nat, rec: R)
    ensures AssembleFrom(step, n1 + n2, offset, rec)
         == (var first := AssembleFrom(step, n1, offset, rec);
             if first.1.Done? then AssembleFrom(step, n2, first.1.next, first.0) else first)
    decreases n1
  {
    if n1 > 0 {
      var after := step(rec, offset);
      AssembleStep(step, n1 + n2, offset, rec);
      AssembleStep(step, n1, offset, rec);
      if after.1.Done? {
        AssembleSplit(step, n1 - 1, n2, after.1.next, after.0);
      }
    }
  }

  /** A step that, when it continues, ends after where it started and
      within bound. */
  ghost predicate StepAdvances<R(!new)>(step: (R, nat) -> (R, Status), bound: nat)
  {
    forall rec: R, o: nat {:trigger step(rec, o)} :: step(rec, o).1.Done? ==> o < step(rec, o).1.next <= bound
  }

  /** A completed loop ends at or after its offset, and within the buffer
      once it has read a pair. */
  lemma {:induction false} AssembleBounds<R(!new)>(step: (R, nat) -> (R, Status), bound: nat, remaining: nat, offset: nat, rec: R)
    requires StepAdvances(step, bound)
    ensures var r := AssembleFrom(step, remaining, offset, rec);
            r.1.Done? ==> offset + remaining <= r.1.next && (remaining > 0 ==> r.1.next <= bound)
    decreases remaining
  {
    if remaining > 0 {
      var after := step(rec, offset);
      if after.1.Done? {
        AssembleBounds(step, bound, remaining - 1, after.1.next, after.0);
      }
    }
  }

  /** The record as a loop of n pairs leaves it is the record as the last
      step leaves it, from where the first n - 1 pairs left it. */
  lemma AssembleLast<R>(step: (R, nat) -> (R, Status), n: nat, offset: nat, rec: R)
    requires n > 0
    ensures var before := AssembleFrom(step, n - 1, offset, rec);
            AssembleFrom(step, n, offset, rec)
            == (if before.1.Done? then step(before.0, before.1.next) else before)
  {
    AssembleSplit(step, n - 1, 1, offset, rec);
    var before := AssembleFrom(step, n - 1, offset, rec);
    if before.1.Done? {
      AssembleStep(step, 1, before.1.next, before.0);
    }
  }

  // ---------------------------------------------------------------------
  // readDomainMap

  datatype DomainRecord = DomainRecord(domain: seq<byte>)

  const DomainKey: seq<byte> := Ascii("domain")

  /** One iteration of readDomainMap. `result.Domain, offset, err =
      readString(...)` stores readString's zero value "" when it fails. */
  function DomainPair(buffer: seq<byte>, rec: DomainRecord, offset: nat): (r: (DomainRecord, Status))
    ensures r.1.Done? ==> offset < r.1.next <= |buffer| && ReadMapKey(buffer, offset).Ok? &&
                          ReadMapKey(buffer, offset).value == DomainKey
    ensures r.1.Failed? && r.1.error.UnknownKey? ==> r.0 == rec
  {
    match ReadMapKey(buffer, offset)
    case Panic => (rec, Panicked)
    case Fail(e) => (rec, Failed(e))
    case Ok(key, afterKey) =>
      if key == DomainKey then
        match ReadString(buffer, afterKey)
        case Panic => (rec, Panicked)
        case Fail(e) => (rec.(domain := []), Failed(e))
        case Ok(v, next) => (rec.(domain := v), Done(next))
      else (rec, Failed(UnknownKey("domain", key)))
  }

  function DomainStep(buffer: seq<byte>): (DomainRecord, nat) -> (DomainRecord, Status)
  {
    (rec: DomainRecord, o: nat) => DomainPair(buffer, rec, o)
  }

  /** What readDomainMap computes: the record and how the loop ended. */
  function DomainMap(buffer: seq<byte>, mapSize: nat, offset: nat, rec: DomainRecord): (DomainRecord, Status)
  {
    AssembleFrom(DomainStep(buffer), mapSize, offset, rec)
  }

  class Domain {
    var domain: seq<byte>

    constructor ()
      ensures domain == []
    {
      domain := [];
    }

    function Record(): DomainRecord
      reads this
    {
      DomainRecord(domain)
    }
  }

  /** readDomainMap: fills result in place and returns how the loop ended. */
  method ReadDomainMap(result: Domain, buffer: seq<byte>, mapSize: nat, offset: nat) returns (status: Status)
    modifies result
    ensures (result.Record(), status) == DomainMap(buffer, mapSize, offset, old(result.Record()))
  {
    status := FillDomain(result, DomainStep(buffer), mapSize, offset);
  }

  /** The loop of readDomainMap, with the reading of one pair as step. */
  method FillDomain(result: Domain, step: (DomainRecord, nat) -> (DomainRecord, Status), mapSize: nat, offset: nat)
    returns (status: Status)
    modifies result
    ensures (result.Record(), status) == AssembleFrom(step, mapSize, offset, old(result.Record()))
  {
    ghost var rec0 := result.Record();
    var i := 0;
    var off := offset;
    while i < mapSize
      invariant 0 <= i <= mapSize
      invariant AssembleFrom(step, mapSize - i, off, result.Record()) == AssembleFrom(step, mapSize, offset, rec0)
    {
      AssembleStep(step, mapSize - i, off, result.Record());
      var after := step(result.Record(), off);
      result.domain := after.0.domain;
      assert result.Record() == after.0;
      if !after.1.Done? {
        return after.1;
      }
      off := after.1.next;
      i := i + 1;
    }
    status := Done(off);
  }

  // ---------------------------------------------------------------------
  // readASNMap

  datatype AsnRecord = AsnRecord(number: nat, organization: seq<byte>)

  const NumberKey: seq<byte> := Ascii("autonomous_system_number")
  const OrganizationKey: seq<byte> := Ascii("autonomous_system_organization")

  /** One iteration of readASNMap; a failed read stores the reader's zero
      value (0 or "") in the field it was meant for. */
  function AsnPair(buffer: seq<byte>, rec: AsnRecord, offset: nat): (r: (AsnRecord, Status))
    ensures r.1.Done? ==> offset < r.1.next <= |buffer| && ReadMapKey(buffer, offset).Ok? &&
                          ReadMapKey(buffer, offset).value in {NumberKey, OrganizationKey}
    ensures r.0.number == rec.number || r.0.organization == rec.organization
    ensures r.1.Failed? && r.1.error.UnknownKey? ==> r.0 == rec
  {
    match ReadMapKey(buffer, offset)
    case Panic => (rec, Panicked)
    case Fail(e) => (rec, Failed(e))
    case Ok(key, afterKey) =>
      if key == NumberKey then
        match ReadUInt32(buffer, afterKey)
        case Panic => (rec, Panicked)
        case Fail(e) => (rec.(number := 0), Failed(e))
        case Ok(v, next) => (rec.(number := v), Done(next))
      else if key == OrganizationKey then
        match ReadString(buffer, afterKey)
        case Panic => (rec, Panicked)
        case Fail(e) => (rec.(organization := []), Failed(e))
        case Ok(v, next) => (rec.(organization := v), Done(next))
      else (rec, Failed(UnknownKey("asn", key)))
  }

  function AsnStep(buffer: seq<byte>): (AsnRecord, nat) -> (AsnRecord, Status)
  {
    (rec: AsnRecord, o: nat) => AsnPair(buffer, rec, o)
  }

  /** What readASNMap computes. */
  function AsnMap(buffer: seq<byte>, mapSize: nat, offset: nat, rec: AsnRecord): (AsnRecord, Status)
  {
    AssembleFrom(AsnStep(buffer), mapSize, offset, rec)
  }

  class ASN {
    var autonomousSystemNumber: nat
    var autonomousSystemOrganization: seq<byte>

    constructor ()
      ensures autonomousSystemNumber == 0 && autonomousSystemOrganization == []
    {
      autonomousSystemNumber := 0;
      autonomousSystemOrganization := [];
    }

    function Record(): AsnRecord
      reads this
    {
      AsnRecord(autonomousSystemNumber, autonomousSystemOrganization)
    }
  }

  /** readASNMap: fills result in place and returns how the loop ended. */
  method ReadASNMap(result: ASN, buffer: seq<byte>, mapSize: nat, offset: nat) returns (status: Status)
    modifies result
    ensures (result.Record(), status) == AsnMap(buffer, mapSize, offset, old(result.Record()))
  {
    status := FillASN(result, AsnStep(buffer), mapSize, offset);
  }

  /** The loop of readASNMap, with the reading of one pair as step. */
  method FillASN(result: ASN, step: (AsnRecord, nat) -> (AsnRecord, Status), mapSize: nat, offset: nat)
    returns (status: Status)
    modifies result
    ensures (result.Record(), status) == AssembleFrom(step, mapSize, offset, old(result.Record()))
  {
    ghost var rec0 := result.Record();
    var i := 0;
    var off := offset;
    while i < mapSize
      invariant 0 <= i <= mapSize
      invariant AssembleFrom(step, mapSize - i, off, result.Record()) == AssembleFrom(step, mapSize, offset, rec0)
    {
      AssembleStep(step, mapSize - i, off, result.Record());
      var after := step(result.Record(), off);
      result.autonomousSystemNumber, result.autonomousSystemOrganization := after.0.number, after.0.organization;
      assert result.Record() == after.0;
      if !after.1.Done? {
        return after.1;
      }
      off := after.1.next;
      i := i + 1;
    }
    status := Done(off);
  }

  // ---------------------------------------------------------------------
  // readConnectionTypeMap

  datatype ConnectionTypeRecord = ConnectionTypeRecord(connectionType: seq<byte>)

  const ConnectionTypeKey: seq<byte> := Ascii("connection_type")

  /** One iteration of readConnectionTypeMap. */
  function ConnectionTypePair(buffer: seq<byte>, rec: ConnectionTypeRecord, offset: nat)
    : (r: (ConnectionTypeRecord, Status))
    ensures r.1.Done? ==> offset < r.1.next <= |buffer| && ReadMapKey(buffer, offset).Ok? &&
                          ReadMapKey(buffer, offset).value == ConnectionTypeKey
    ensures r.1.Failed? && r.1.error.UnknownKey? ==> r.0 == rec
  {
    match ReadMapKey(buffer, offset)
    case Panic => (rec, Panicked)
    case Fail(e) => (rec, Failed(e))
    case Ok(key, afterKey) =>
      if key == ConnectionTypeKey then
        match ReadString(buffer, afterKey)
        case Panic => (rec, Panicked)
        case Fail(e) => (rec.(connectionType := []), Failed(e))
        case Ok(v, next) => (rec.(connectionType := v), Done(next))
      else (rec, Failed(UnknownKey("connectionType", key)))
  }

  function ConnectionTypeStep(buffer: seq<byte>): (ConnectionTypeRecord, nat) -> (ConnectionTypeRecord, Status)
  {
    (rec: ConnectionTypeRecord, o: nat) => ConnectionTypePair(buffer, rec, o)
  }

  /** What readConnectionTypeMap computes. */
  function ConnectionTypeMap(buffer: seq<byte>, mapSize: nat, offset: nat, rec: ConnectionTypeRecord)
    : (ConnectionTypeRecord, Status)
  {
    AssembleFrom(ConnectionTypeStep(buffer), mapSize, offset, rec)
  }

  class ConnectionType {
    var connectionType: seq<byte>

    constructor ()
      ensures connectionType == []
    {
      connectionType := [];
    }

    function Record(): ConnectionTypeRecord
      reads this
    {
      ConnectionTypeRecord(connectionType)
    }
  }

  /** readConnectionTypeMap: fills result in place and returns how the loop ended. */
  method ReadConnectionTypeMap(result: ConnectionType, buffer: seq<byte>, mapSize: nat, offset: nat) returns (status: Status)
    modifies result
    ensures (result.Record(), status) == ConnectionTypeMap(buffer, mapSize, offset, old(result.Record()))
  {
    status := FillConnectionType(result, ConnectionTypeStep(buffer), mapSize, offset);
  }

  /** The loop of readConnectionTypeMap, with the reading of one pair as step. */
  method FillConnectionType(result: ConnectionType, step: (ConnectionTypeRecord, nat) -> (ConnectionTypeRecord, Status), mapSize: nat, offset: nat)
    returns (status: Status)
    modifies result
    ensures (result.Record(), status) == AssembleFrom(step, mapSize, offset, old(result.Record()))
  {
    ghost var rec0 := result.Record();
    var i := 0;
    var off := offset;
    while i < mapSize
      invariant 0 <= i <= mapSize
      invariant AssembleFrom(step, mapSize - i, off, result.Record()) == AssembleFrom(step, mapSize, offset, rec0)
    {
      AssembleStep(step, mapSize - i, off, result.Record());
      var after := step(result.Record(), off);
      result.connectionType := after.0.connectionType;
      assert result.Record() == after.0;
      if !after.1.Done? {
        return after.1;
      }
      off := after.1.next;
      i := i + 1;
    }
    status := Done(off);
  }
}

/** What parsing a COL file means: an exact description of every outcome, the agreement of the two
    parsers, and the round trip from records to bytes and back. */
module ColTheorems {
  import opened Common
  import opened ColFormat

  // ---- a record, read off the bytes ----

  // The record's header stands at its offset, and the whole record lies inside the file.
  predicate StandsAt(reader: NameReader, bytes: seq<byte>, r: Record) {
    && HEADER <= r.totalSize && r.offset + r.totalSize <= |bytes|
    && bytes[r.offset..r.offset + 4] == FourCC(r.version)
    && ReadU32LE(bytes[r.offset + 4..r.offset + 8]) + 8 == r.totalSize
    && reader(bytes[r.offset + 8..r.offset + 30]) == Some(r.name)
    && ReadI16LE(bytes[r.offset + 30..r.offset + 32]) == r.modelId
    && r.bodyOffset == r.offset + HEADER
    && r.bodyOffset + r.bodySize == r.offset + r.totalSize
  }

  lemma VersionIff(s: seq<byte>, v: Version)
    ensures DecodeVersion(s) == Some(v) <==> s == FourCC(v)
  {
    if DecodeVersion(s) == Some(v) || s == FourCC(v) {
      assert s[3] == FourCC(v)[3];
    }
  }

  lemma HeaderSlices(bytes: seq<byte>, at: nat)
    requires at + HEADER <= |bytes|
    ensures
      var header := bytes[at..at + HEADER];
      && header[0..4] == bytes[at..at + 4]
      && header[4..8] == bytes[at + 4..at + 8]
      && header[8..30] == bytes[at + 8..at + 30]
      && header[30..32] == bytes[at + 30..at + 32]
  {
    SliceOfSlice(bytes, at, at + HEADER, 0, 4);
    SliceOfSlice(bytes, at, at + HEADER, 4, 8);
    SliceOfSlice(bytes, at, at + HEADER, 8, 30);
    SliceOfSlice(bytes, at, at + HEADER, 30, 32);
  }

  lemma RecordIff(reader: NameReader, bytes: seq<byte>, at: nat, r: Record)
    requires at <= |bytes|
    ensures ReadRecord(reader, bytes, at) == Got(r) <==> r.offset == at && StandsAt(reader, bytes, r)
  {
    hide FourCC, DecodeVersion, ReadU32LE, ReadI16LE, AllZero;
    if at + HEADER <= |bytes| {
      HeaderSlices(bytes, at);
      var header := bytes[at..at + HEADER];
      VersionIff(header[0..4], r.version);
      if AllZero(header) {
        MagicIsNotZero(header, r.version);
      } else if r.offset == at && StandsAt(reader, bytes, r) {
        assert DecodeVersion(header[0..4]) == Some(r.version);
        assert reader(header[8..30]) == Some(r.name);
      }
    }
  }

  lemma MagicIsNotZero(header: seq<byte>, v: Version)
    requires |header| == HEADER && AllZero(header)
    ensures header[0..4] != FourCC(v)
  {
    assert header[0..4][0] == 0 != FourCC(v)[0];
  }

  // ---- a whole file ----

  // Where the records end.
  function EndOf(records: seq<Record>): nat {
    if records == [] then 0 else records[|records| - 1].offset + records[|records| - 1].totalSize
  }

  // The records lie one after the other from the file's start.
  predicate Tiles(reader: NameReader, bytes: seq<byte>, records: seq<Record>) {
    forall i | 0 <= i < |records| ::
      records[i].offset == EndOf(records[..i]) && StandsAt(reader, bytes, records[i])
  }

  // No record is sought here: end of file, a short tail of zeros, or a header of zeros.
  predicate StopsAt(bytes: seq<byte>, at: nat) {
    at <= |bytes| && if |bytes| - at < HEADER then AllZero(bytes[at..]) else AllZero(bytes[at..at + HEADER])
  }

  predicate Explains(reader: NameReader, bytes: seq<byte>, o: Outcome) {
    && Tiles(reader, bytes, o.records)
    && match o.code
       case EmptyFile => bytes == [] && o.records == []
       case NoRecords => bytes != [] && o.records == [] && StopsAt(bytes, 0)
       case Success => 1 <= |o.records| <= MAX_RECORDS && StopsAt(bytes, EndOf(o.records))
       case _ =>
         || (o.code == InvalidRecordSize && |o.records| == MAX_RECORDS + 1)
         || (|o.records| <= MAX_RECORDS && EndOf(o.records) <= |bytes|
             && ReadRecord(reader, bytes, EndOf(o.records)) == Fail(o.code))
  }

  lemma TilesSnoc(reader: NameReader, bytes: seq<byte>, records: seq<Record>, r: Record)
    requires Tiles(reader, bytes, records)
    requires r.offset == EndOf(records) && StandsAt(reader, bytes, r)
    ensures Tiles(reader, bytes, records + [r])
  {
    hide StandsAt;
    var all := records + [r];
    forall i | 0 <= i < |all|
      ensures all[i].offset == EndOf(all[..i]) && StandsAt(reader, bytes, all[i])
    {
      assert all[..i] == records[..i];
      assert records[..|records|] == records;
    }
  }

  lemma StopIff(reader: NameReader, bytes: seq<byte>, at: nat)
    requires at <= |bytes|
    ensures ReadRecord(reader, bytes, at) == Stop <==> StopsAt(bytes, at)
  {
    hide DecodeVersion, ReadU32LE, ReadI16LE;
  }

  lemma {:induction false} ScanExplains(reader: NameReader, bytes: seq<byte>, at: nat, records: seq<Record>)
    requires bytes != [] && Tiles(reader, bytes, records) && |records| <= MAX_RECORDS
    requires at == EndOf(records) <= |bytes|
    ensures Explains(reader, bytes, Scan(reader, bytes, at, records))
    decreases |bytes| - at
  {
    hide ReadRecord, StandsAt, Tiles;
    StopIff(reader, bytes, at);
    assert at == |bytes| ==> bytes[at..] == [];
    if at < |bytes| && ReadRecord(reader, bytes, at).Got? {
      var r := ReadRecord(reader, bytes, at).record;
      RecordIff(reader, bytes, at, r);
      TilesSnoc(reader, bytes, records, r);
      if |records| < MAX_RECORDS {
        ScanExplains(reader, bytes, at + r.totalSize, records + [r]);
      }
    }
  }

  lemma TilesAt(reader: NameReader, bytes: seq<byte>, records: seq<Record>, i: nat)
    requires Tiles(reader, bytes, records) && i < |records|
    ensures records[i].offset == EndOf(records[..i]) && StandsAt(reader, bytes, records[i])
    ensures EndOf(records[..i + 1]) == records[i].offset + records[i].totalSize
  {
    hide StandsAt;
  }

  lemma {:induction false} ScanFollows(reader: NameReader, bytes: seq<byte>, o: Outcome, n: nat)
    requires bytes != [] && Explains(reader, bytes, o) && n <= |o.records| && n <= MAX_RECORDS
    requires EndOf(o.records[..n]) <= |bytes|
    ensures Scan(reader, bytes, EndOf(o.records[..n]), o.records[..n]) == o
    decreases |o.records| - n
  {
    hide ReadRecord, StandsAt, Tiles;
    var at := EndOf(o.records[..n]);
    StopIff(reader, bytes, at);
    if n < |o.records| {
      var r := o.records[n];
      TilesAt(reader, bytes, o.records, n);
      RecordIff(reader, bytes, at, r);
      assert at < |bytes| by { InsideFile(reader, bytes, r); }
      assert o.records[..n] + [r] == o.records[..n + 1];
      if n < MAX_RECORDS {
        ScanFollows(reader, bytes, o, n + 1);
      } else {
        assert o.records[..n + 1] == o.records;
      }
    } else {
      assert o.records[..n] == o.records;
      FailsInside(reader, bytes, at);
    }
  }

  lemma InsideFile(reader: NameReader, bytes: seq<byte>, r: Record)
    requires StandsAt(reader, bytes, r)
    ensures r.offset < r.offset + r.totalSize <= |bytes|
  {
  }

  lemma FailsInside(reader: NameReader, bytes: seq<byte>, at: nat)
    requires at <= |bytes|
    ensures ReadRecord(reader, bytes, at).Fail? ==> at < |bytes|
  {
  }

  /** Every outcome, exactly. In particular success means: 1 to 256 records, one after the other
      from offset 0, each inside the file, then end of file, a short zero tail or a zero header. */
  lemma ParseIff(reader: NameReader, bytes: seq<byte>, o: Outcome)
    ensures Parse(reader, bytes) == o <==> Explains(reader, bytes, o)
  {
    hide ReadRecord, StandsAt;
    assert o.records[..0] == [];
    if bytes != [] {
      ScanExplains(reader, bytes, 0, []);
      if Explains(reader, bytes, o) {
        ScanFollows(reader, bytes, o, 0);
      }
    } else if Explains(reader, bytes, o) && o.records != [] {
      InsideFile(reader, bytes, o.records[0]);
    } else {
      FailsInside(reader, bytes, 0);
    }
  }

  /** The first record of a file that parses, in terms of the file's first bytes: the four letters COLL,
      COL2, COL3 or COL4 for its version, its size with the low byte first, and its model id likewise,
      signed. */
  lemma FirstBytesDecide(reader: NameReader, bytes: seq<byte>)
    requires Parse(reader, bytes).code == Success
    ensures
      var records := Parse(reader, bytes).records;
      && records != [] && |bytes| >= HEADER
      && var r, id := records[0], ByteAt(bytes, 30) + 0x100 * ByteAt(bytes, 31);
         && r.offset == 0
         && bytes[..4] == (match r.version
                           case COL1 => [0x43, 0x4F, 0x4C, 0x4C]
                           case COL2 => [0x43, 0x4F, 0x4C, 0x32]
                           case COL3 => [0x43, 0x4F, 0x4C, 0x33]
                           case COL4 => [0x43, 0x4F, 0x4C, 0x34])
         && r.totalSize == 8 + ByteAt(bytes, 4) + 0x100 * ByteAt(bytes, 5) + 0x1_0000 * ByteAt(bytes, 6)
                           + 0x100_0000 * ByteAt(bytes, 7)
         && r.modelId == if id < 0x8000 then id else id - 0x1_0000
  {
    hide Parse, ReadRecord;
    var o := Parse(reader, bytes);
    ParseIff(reader, bytes, o);
    var r := o.records[0];
    assert bytes[0..4] == bytes[..4];
    var size := bytes[4..8];
    assert size[0] == bytes[4] && size[1] == bytes[5] && size[2] == bytes[6] && size[3] == bytes[7];
    assert bytes[30..32][0] == bytes[30] && bytes[30..32][1] == bytes[31];
  }

  // ---- client and server ----

  // The client's record for the server's.
  function ForClient(r: Record): Record {
    if |r.name| <= 23 then r.(name := r.name + Zeros(23 - |r.name|)) else r
  }

  predicate SameRecords(client: seq<Record>, server: seq<Record>) {
    |client| == |server| && forall i | 0 <= i < |server| :: client[i] == ForClient(server[i])
  }

  lemma ReadingsAgree(bytes: seq<byte>, at: nat)
    requires at <= |bytes|
    ensures
      ReadRecord(ClientName, bytes, at) ==
        match ReadRecord(NameText, bytes, at)
        case Got(r) => Got(ForClient(r))
        case other => other
  {
    hide NameText, DecodeVersion, ReadU32LE, ReadI16LE;
  }

  lemma {:induction false} ScansAgree(bytes: seq<byte>, at: nat, client: seq<Record>, server: seq<Record>)
    requires at <= |bytes| && SameRecords(client, server)
    ensures
      var c, s := Scan(ClientName, bytes, at, client), Scan(NameText, bytes, at, server);
      c.code == s.code && SameRecords(c.records, s.records)
    decreases |bytes| - at
  {
    hide ReadRecord, ForClient;
    ReadingsAgree(bytes, at);
    if at < |bytes| && ReadRecord(NameText, bytes, at).Got? && |server| < MAX_RECORDS {
      var r := ReadRecord(NameText, bytes, at).record;
      assert ForClient(r).totalSize == r.totalSize by { SameSize(r); }
      ScansAgree(bytes, at + r.totalSize, client + [ForClient(r)], server + [r]);
    }
  }

  lemma SameSize(r: Record)
    ensures ForClient(r).totalSize == r.totalSize
  {
  }

  /** The client and the server give the same result code and the same records, those before a
      failure included: only the name's padding differs, and no name exceeds its field. */
  lemma ParsersAgree(bytes: seq<byte>)
    ensures
      var c, s := Parse(ClientName, bytes), Parse(NameText, bytes);
      && c.code == s.code
      && SameRecords(c.records, s.records)
      && forall r :: r in s.records ==> |r.name| <= NAME_LENGTH
  {
    hide Scan, SameRecords;
    assert SameRecords([], []) by { NoRecordsDiffer(); }
    if bytes != [] {
      ScansAgree(bytes, 0, [], []);
    }
    NamesFit(bytes);
  }

  lemma NoRecordsDiffer()
    ensures SameRecords([], [])
  {
  }

  lemma NamesFit(bytes: seq<byte>)
    ensures forall r :: r in Parse(NameText, bytes).records ==> |r.name| <= NAME_LENGTH
  {
    hide Parse, NameText;
    var s := Parse(NameText, bytes);
    ParseIff(NameText, bytes, s);
    forall i | 0 <= i < |s.records|
      ensures |s.records[i].name| <= NAME_LENGTH
    {
      NameTextLength(bytes[s.records[i].offset + 8..s.records[i].offset + 30]);
    }
  }

  // ---- round trip ----

  datatype Item = Item(version: Version, name: seq<byte>, modelId: int, body: seq<byte>)

  // What a record can hold: its size field has 32 bits.
  predicate Fits(i: Item) {
    && |i.name| <= NAME_LENGTH && (forall c :: c in i.name ==> PrintableByte(c))
    && -0x8000 <= i.modelId < 0x8000
    && 24 + |i.body| < TWO32
  }

  predicate AllFit(items: seq<Item>) { forall i | 0 <= i < |items| :: Fits(items[i]) }

  function SizeOf(i: Item): nat { HEADER + |i.body| }

  function Serialise(i: Item): (s: seq<byte>)
    requires Fits(i)
    ensures |s| == SizeOf(i)
  {
    FourCC(i.version) + U32LE(24 + |i.body|) + i.name + Zeros(NAME_LENGTH - |i.name|) + I16LE(i.modelId) + i.body
  }

  function SerialiseAll(items: seq<Item>): seq<byte>
    requires AllFit(items)
  {
    if items == [] then [] else Serialise(items[0]) + SerialiseAll(items[1..])
  }

  function RecordOf(at: nat, i: Item): Record {
    Record(i.version, at, SizeOf(i), at + HEADER, |i.body|, i.modelId, i.name)
  }

  function RecordsOf(at: nat, items: seq<Item>): (records: seq<Record>)
    ensures |records| == |items|
    decreases |items|
  {
    if items == [] then [] else [RecordOf(at, items[0])] + RecordsOf(at + SizeOf(items[0]), items[1..])
  }

  lemma U32ReadsBack(n: uint32)
    ensures ReadU32LE(U32LE(n)) == n
  {
  }

  lemma I16ReadsBack(n: int)
    requires -0x8000 <= n < 0x8000
    ensures ReadI16LE(I16LE(n)) == n
  {
  }

  lemma NameReadsBack(name: seq<byte>, n: nat)
    requires forall c :: c in name ==> PrintableByte(c)
    ensures NameText(name + Zeros(n)) == Some(name)
  {
    var field := name + Zeros(n);
    assert TextSoFar(field, |name|);
    NameTextStops(field, |name|);
    assert field[..|name|] == name;
  }

  // The serialisation of an item, wherever it is.
  lemma ItemStandsAt(before: seq<byte>, i: Item, after: seq<byte>)
    requires Fits(i)
    ensures StandsAt(NameText, before + Serialise(i) + after, RecordOf(|before|, i))
  {
    hide FourCC, U32LE, I16LE, NameText, ReadU32LE, ReadI16LE;
    var at, bytes := |before|, before + Serialise(i) + after;
    var field := i.name + Zeros(NAME_LENGTH - |i.name|);
    assert bytes == before + FourCC(i.version) + U32LE(24 + |i.body|) + field + I16LE(i.modelId) + i.body + after;
    assert bytes[at..at + 4] == FourCC(i.version);
    assert bytes[at + 4..at + 8] == U32LE(24 + |i.body|);
    assert bytes[at + 8..at + 30] == field;
    assert bytes[at + 30..at + 32] == I16LE(i.modelId);
    U32ReadsBack(24 + |i.body|);
    I16ReadsBack(i.modelId);
    NameReadsBack(i.name, NAME_LENGTH - |i.name|);
  }

  lemma {:induction false} ScanSerialised(before: seq<byte>, items: seq<Item>, zeros: nat, records: seq<Record>)
    requires AllFit(items) && |records| <= MAX_RECORDS
    ensures
      var all := records + RecordsOf(|before|, items);
      Scan(NameText, before + SerialiseAll(items) + Zeros(zeros), |before|, records) ==
        if |all| <= MAX_RECORDS then Finish(all) else Outcome(InvalidRecordSize, all[..MAX_RECORDS + 1])
    decreases |items|
  {
    hide ReadRecord, Serialise, StandsAt;
    var at, bytes := |before|, before + SerialiseAll(items) + Zeros(zeros);
    if items == [] {
      assert bytes[at..] == Zeros(zeros);
      StopIff(NameText, bytes, at);
      assert records + RecordsOf(at, items) == records;
    } else {
      var i, rest := items[0], items[1..];
      var r, before' := RecordOf(at, i), before + Serialise(i);
      assert bytes == before' + SerialiseAll(rest) + Zeros(zeros);
      assert bytes == before + Serialise(i) + (SerialiseAll(rest) + Zeros(zeros));
      ItemStandsAt(before, i, SerialiseAll(rest) + Zeros(zeros));
      RecordIff(NameText, bytes, at, r);
      assert records + RecordsOf(at, items) == (records + [r]) + RecordsOf(at + SizeOf(i), rest);
      if |records| < MAX_RECORDS {
        ScanSerialised(before', rest, zeros, records + [r]);
      }
    }
  }

  /** Parsing serialised records, with any number of zero bytes after them, gives back exactly those
      records if and only if there are 1 to 256 of them; a 257th is an error. */
  lemma RoundTrip(items: seq<Item>, zeros: nat)
    requires AllFit(items)
    ensures
      var bytes := SerialiseAll(items) + Zeros(zeros);
      var o := Parse(NameText, bytes);
      && (o == Outcome(Success, RecordsOf(0, items)) <==> 1 <= |items| <= MAX_RECORDS)
      && (|items| > MAX_RECORDS ==> o == Outcome(InvalidRecordSize, RecordsOf(0, items)[..MAX_RECORDS + 1]))
      && (items == [] ==> o == Outcome(if zeros == 0 then EmptyFile else NoRecords, []))
  {
    hide Scan, SerialiseAll;
    var bytes := SerialiseAll(items) + Zeros(zeros);
    assert [] + SerialiseAll(items) + Zeros(zeros) == bytes;
    assert [] + RecordsOf(0, items) == RecordsOf(0, items);
    ScanSerialised([], items, zeros, []);
    assert bytes == [] <==> items == [] && zeros == 0 by { SerialisedLength(items); }
  }

  /** So the client reads the same records back, their names padded with zeros. */
  lemma ClientRoundTrip(items: seq<Item>, zeros: nat)
    requires AllFit(items)
    ensures
      var o := Parse(ClientName, SerialiseAll(items) + Zeros(zeros));
      && (o.code == Success && SameRecords(o.records, RecordsOf(0, items)) <==> 1 <= |items| <= MAX_RECORDS)
      && (|items| > MAX_RECORDS ==>
            o.code == InvalidRecordSize && SameRecords(o.records, RecordsOf(0, items)[..MAX_RECORDS + 1]))
  {
    hide Parse, ForClient, SerialiseAll;
    RoundTrip(items, zeros);
    ParsersAgree(SerialiseAll(items) + Zeros(zeros));
  }

  lemma SerialisedLength(items: seq<Item>)
    requires AllFit(items)
    ensures SerialiseAll(items) == [] <==> items == []
  {
  }
}

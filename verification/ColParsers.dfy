/** The two parsers of the COL file, as their loops run: CollisionLoader::ParseFile in the client
    and CollisionAssetRepository::ParseRecords in the server. */
module ColParsers {
  import opened Common
  import opened ColFormat

  datatype Statistics = Statistics(fileSize: nat, recordCount: nat, multipleRecords: bool, mixedVersions: bool)

  method IsZeroTail(data: seq<byte>) returns (zero: bool)
    ensures zero <==> AllZero(data)
  {
    for i := 0 to |data|
      invariant forall j | 0 <= j < i :: data[j] == 0
    {
      if data[i] != 0 {
        return false;
      }
    }
    return true;
  }

  // ---- client ----

  // The name goes into a buffer of 23 characters.
  method ReadModelName(p: seq<byte>, outName: array<byte>) returns (ok: bool)
    requires |p| == NAME_LENGTH && outName.Length == 23
    modifies outName
    ensures ok <==> ClientName(p).Some?
    ensures ok ==> ClientName(p) == Some(outName[..])
  {
    hide NameText;
    for i := 0 to 23
      invariant forall j | 0 <= j < i :: outName[j] == 0
    {
      outName[i] := 0;
    }
    var i := 0;
    while i < NAME_LENGTH
      invariant 0 <= i <= NAME_LENGTH
      invariant TextSoFar(p, i)
      invariant forall j | 0 <= j < i :: outName[j] == p[j]
      invariant forall j | i <= j < 23 :: outName[j] == 0
    {
      NameTextStops(p, i);
      if p[i] != 0 && !PrintableByte(p[i]) {
        return false;
      }
      if p[i] == 0 {
        break;
      }
      outName[i] := p[i];
      i := i + 1;
    }
    NameTextStops(p, i);
    assert outName[..] == p[..i] + Zeros(23 - i);
    return true;
  }

  method ReadClientRecord(bytes: seq<byte>, offset: nat) returns (r: Reading)
    requires offset < |bytes|
    ensures r == ReadRecord(ClientName, bytes, offset)
  {
    hide ClientName, DecodeVersion, ReadU32LE, ReadI16LE, AllZero;
    var remaining := |bytes| - offset;
    if remaining < HEADER {
      var tail := IsZeroTail(bytes[offset..]);
      return if tail then Stop else Fail(TruncatedHeader);
    }
    var header := bytes[offset..offset + HEADER];
    var zero := IsZeroTail(header);
    if zero {
      return Stop;
    }
    var version := DecodeVersion(header[0..4]);
    if version.None? {
      return Fail(BadMagic);
    }
    var sizeAfterFourCC: int := ReadU32LE(header[4..8]);
    if sizeAfterFourCC < 24 {
      return Fail(InvalidRecordSize);
    }
    var totalRecord := sizeAfterFourCC + 8;
    if totalRecord < HEADER || totalRecord > remaining {
      return Fail(RecordOutOfBounds);
    }
    var modelName := new byte[23];
    var ok := ReadModelName(header[8..30], modelName);
    if !ok {
      return Fail(InvalidModelName);
    }
    return Got(Record(version.value, offset, totalRecord, offset + HEADER, totalRecord - HEADER,
                      ReadI16LE(header[30..32]), modelName[..]));
  }

  method ParseFile(bytes: seq<byte>) returns (code: Code, records: seq<Record>, stats: Statistics)
    ensures Outcome(code, records) == Parse(ClientName, bytes)
    ensures stats.fileSize == |bytes|
    ensures code == Success ==>
      && stats.recordCount == |records|
      && (stats.multipleRecords <==> |records| > 1)
      && (stats.mixedVersions <==> MixedVersions(records))
  {
    hide ReadRecord, MixedVersions;
    records, stats := [], Statistics(|bytes|, 0, false, false);
    if bytes == [] {
      return EmptyFile, records, stats;
    }
    var offset := 0;
    while offset < |bytes|
      invariant 0 <= offset <= |bytes| && |records| <= MAX_RECORDS
      invariant Scan(ClientName, bytes, offset, records) == Parse(ClientName, bytes)
    {
      var r := ReadClientRecord(bytes, offset);
      if r.Stop? {
        break;
      }
      if r.Fail? {
        return r.code, records, stats;
      }
      records := records + [r.record];
      if |records| > MAX_RECORDS {
        return InvalidRecordSize, records, stats;
      }
      offset := offset + r.record.totalSize;
    }
    if records == [] {
      return NoRecords, records, stats;
    }
    var mixed := Mixed(records);
    return Success, records, Statistics(|bytes|, |records|, |records| > 1, mixed);
  }

  // Some two records are of different versions.
  predicate MixedVersions(records: seq<Record>) {
    exists i, j | 0 <= i < |records| && 0 <= j < |records| :: records[i].version != records[j].version
  }

  // std::any_of over the records after the first
  method Mixed(records: seq<Record>) returns (mixed: bool)
    requires records != []
    ensures mixed <==> MixedVersions(records)
  {
    for i := 1 to |records|
      invariant forall j | 0 <= j < i :: records[j].version == records[0].version
    {
      if records[i].version != records[0].version {
        return true;
      }
    }
    return false;
  }

  // ---- server ----

  // The name is a growing string.
  method ReadName(data: seq<byte>) returns (ok: bool, outName: seq<byte>)
    requires |data| == NAME_LENGTH
    ensures ok <==> NameText(data).Some?
    ensures ok ==> NameText(data) == Some(outName)
  {
    hide NameText;
    outName := [];
    for i := 0 to NAME_LENGTH
      invariant TextSoFar(data, i)
      invariant outName == data[..i]
    {
      NameTextStops(data, i);
      if data[i] != 0 && !PrintableByte(data[i]) {
        return false, outName;
      }
      if data[i] == 0 {
        return true, outName;
      }
      outName := outName + [data[i]];
    }
    NameTextStops(data, NAME_LENGTH);
    return true, outName;
  }

  method ReadServerRecord(bytes: seq<byte>, offset: nat) returns (r: Reading)
    requires offset < |bytes|
    ensures r == ReadRecord(NameText, bytes, offset)
  {
    hide NameText, DecodeVersion, ReadU32LE, ReadI16LE, AllZero;
    var remaining := |bytes| - offset;
    if remaining < HEADER {
      var tail := IsZeroTail(bytes[offset..]);
      return if tail then Stop else Fail(TruncatedHeader);
    }
    var header := bytes[offset..offset + HEADER];
    var zero := IsZeroTail(header);
    if zero {
      return Stop;
    }
    var version := DecodeVersion(header[0..4]);
    if version.None? {
      return Fail(BadMagic);
    }
    var sizeAfterFourCC: int := ReadU32LE(header[4..8]);
    if sizeAfterFourCC < 24 {
      return Fail(InvalidRecordSize);
    }
    var totalRecord := sizeAfterFourCC + 8;
    if totalRecord < HEADER || totalRecord > remaining {
      return Fail(RecordOutOfBounds);
    }
    var ok, modelName := ReadName(header[8..30]);
    if !ok {
      return Fail(InvalidModelName);
    }
    return Got(Record(version.value, offset, totalRecord, offset + HEADER, totalRecord - HEADER,
                      ReadI16LE(header[30..32]), modelName));
  }

  method ParseRecords(bytes: seq<byte>) returns (code: Code, records: seq<Record>)
    ensures Outcome(code, records) == Parse(NameText, bytes)
  {
    hide ReadRecord;
    records := [];
    if bytes == [] {
      return EmptyFile, records;
    }
    var offset := 0;
    while offset < |bytes|
      invariant 0 <= offset <= |bytes| && |records| <= MAX_RECORDS
      invariant Scan(NameText, bytes, offset, records) == Parse(NameText, bytes)
    {
      var r := ReadServerRecord(bytes, offset);
      if r.Stop? {
        break;
      }
      if r.Fail? {
        return r.code, records;
      }
      records := records + [r.record];
      if |records| > MAX_RECORDS {
        return InvalidRecordSize, records;
      }
      offset := offset + r.record.totalSize;
    }
    if records == [] {
      return NoRecords, records;
    }
    return Success, records;
  }
}

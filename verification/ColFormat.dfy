/** The COL record file: what one header says, and what a scan of a whole file yields. The client
    and the server read the name into different types; `reader` stands for either. */
module ColFormat {
  import opened Common

  const HEADER: nat := 32
  const NAME_LENGTH: nat := 22
  const MAX_RECORDS: nat := 256

  datatype Version = COL1 | COL2 | COL3 | COL4

  datatype Code =
    | Success | EmptyFile | TruncatedHeader | BadMagic | InvalidRecordSize | RecordOutOfBounds
    | InvalidModelName | NoRecords

  datatype Record = Record(
    version: Version,
    offset: nat,
    totalSize: nat,
    bodyOffset: nat,
    bodySize: nat,
    modelId: int,
    name: seq<byte>)

  datatype Outcome = Outcome(code: Code, records: seq<Record>)

  type NameReader = seq<byte> -> Option<seq<byte>>

  function Zeros(n: nat): seq<byte> { seq(n, _ => 0) }

  predicate AllZero(s: seq<byte>) { forall i | 0 <= i < |s| :: s[i] == 0 }

  // ---- fields ----

  function FourCC(v: Version): seq<byte> {
    match v
    case COL1 => [0x43, 0x4F, 0x4C, 0x4C]
    case COL2 => [0x43, 0x4F, 0x4C, 0x32]
    case COL3 => [0x43, 0x4F, 0x4C, 0x33]
    case COL4 => [0x43, 0x4F, 0x4C, 0x34]
  }

  function DecodeVersion(s: seq<byte>): Option<Version> {
    if s == FourCC(COL1) then Some(COL1)
    else if s == FourCC(COL2) then Some(COL2)
    else if s == FourCC(COL3) then Some(COL3)
    else if s == FourCC(COL4) then Some(COL4)
    else None
  }

  // A byte as a number.
  function ByteAt(bytes: seq<byte>, i: nat): int
    requires i < |bytes|
  {
    bytes[i]
  }

  function U16LE(low: int, high: int): int { low + high * 0x100 }

  function ReadU32LE(p: seq<byte>): uint32
    requires |p| == 4
  {
    U16LE(p[0], p[1]) + U16LE(p[2], p[3]) * 0x1_0000
  }

  function U32LE(n: uint32): (p: seq<byte>)
    ensures |p| == 4
  {
    var n0: int := n;
    var n1 := n0 / 0x100;
    var n2 := n1 / 0x100;
    [n0 % 0x100, n1 % 0x100, n2 % 0x100, n2 / 0x100]
  }

  // The cast of a 16-bit pattern to a signed number.
  function ReadI16LE(p: seq<byte>): (r: int)
    requires |p| == 2
    ensures -0x8000 <= r < 0x8000
  {
    var v := U16LE(p[0], p[1]);
    if v < 0x8000 then v else v - 0x1_0000
  }

  function I16LE(n: int): (p: seq<byte>)
    requires -0x8000 <= n < 0x8000
    ensures |p| == 2
  {
    var v: int := if n < 0 then n + 0x1_0000 else n;
    [v % 0x100, v / 0x100]
  }

  predicate PrintableByte(c: byte) { 32 <= c <= 126 }

  // The name of a field: its bytes up to a zero or the field's end, all of them printable.
  function NameText(field: seq<byte>): Option<seq<byte>> {
    if field == [] || field[0] == 0 then Some([])
    else if !PrintableByte(field[0]) then None
    else match NameText(field[1..])
      case None => None
      case Some(rest) => Some([field[0]] + rest)
  }

  // char modelName[23], cleared before it is filled
  function ClientName(field: seq<byte>): Option<seq<byte>> {
    match NameText(field)
    case None => None
    case Some(text) => Some(if |text| <= 23 then text + Zeros(23 - |text|) else text)
  }

  // ---- one record ----

  datatype Reading = Stop | Fail(code: Code) | Got(record: Record)

  function ReadRecord(reader: NameReader, bytes: seq<byte>, at: nat): (r: Reading)
    requires at <= |bytes|
    ensures r.Got? ==> r.record.totalSize >= HEADER && at + r.record.totalSize <= |bytes|
    ensures r.Fail? ==> r.code !in {Success, EmptyFile, NoRecords}
  {
    if |bytes| - at < HEADER then
      if AllZero(bytes[at..]) then Stop else Fail(TruncatedHeader)
    else
      var header := bytes[at..at + HEADER];
      if AllZero(header) then Stop
      else match DecodeVersion(header[0..4])
        case None => Fail(BadMagic)
        case Some(version) =>
          var size := ReadU32LE(header[4..8]);
          if size < 24 then Fail(InvalidRecordSize)
          else if size + 8 > |bytes| - at then Fail(RecordOutOfBounds)
          else match reader(header[8..30])
            case None => Fail(InvalidModelName)
            case Some(name) =>
              Got(Record(version, at, size + 8, at + HEADER, size + 8 - HEADER, ReadI16LE(header[30..32]), name))
  }

  // ---- a whole file ----

  function Finish(records: seq<Record>): Outcome {
    Outcome(if records == [] then NoRecords else Success, records)
  }

  function Scan(reader: NameReader, bytes: seq<byte>, at: nat, records: seq<Record>): Outcome
    requires at <= |bytes|
    decreases |bytes| - at
  {
    if at == |bytes| then Finish(records)
    else match ReadRecord(reader, bytes, at)
      case Stop => Finish(records)
      case Fail(code) => Outcome(code, records)
      case Got(r) =>
        if |records| + 1 > MAX_RECORDS then Outcome(InvalidRecordSize, records + [r])
        else Scan(reader, bytes, at + r.totalSize, records + [r])
  }

  function Parse(reader: NameReader, bytes: seq<byte>): Outcome {
    if bytes == [] then Outcome(EmptyFile, []) else Scan(reader, bytes, 0, [])
  }

  // ---- names ----

  // The first n bytes are a name's start: printable, without a zero.
  predicate TextSoFar(field: seq<byte>, n: nat) {
    n <= |field| && forall j | 0 <= j < n :: PrintableByte(field[j])
  }

  lemma {:induction false} NameTextAt(field: seq<byte>, n: nat)
    requires TextSoFar(field, n)
    ensures NameText(field) == match NameText(field[n..]) case None => None case Some(rest) => Some(field[..n] + rest)
  {
    if n == 0 {
      assert field[0..] == field;
      assert NameText(field).Some? ==> field[..0] + NameText(field).value == NameText(field).value;
    } else {
      assert PrintableByte(field[0]);
      assert TextSoFar(field[1..], n - 1) by {
        assert forall j | 0 <= j < n - 1 :: field[1..][j] == field[j + 1];
      }
      NameTextAt(field[1..], n - 1);
      assert field[1..][n - 1..] == field[n..];
      if NameText(field[n..]).Some? {
        var rest := NameText(field[n..]).value;
        assert [field[0]] + (field[1..][..n - 1] + rest) == field[..n] + rest;
      }
    }
  }

  lemma NameTextStops(field: seq<byte>, n: nat)
    requires TextSoFar(field, n)
    ensures n == |field| || field[n] == 0 ==> NameText(field) == Some(field[..n])
    ensures n < |field| && field[n] != 0 && !PrintableByte(field[n]) ==> NameText(field) == None
  {
    NameTextAt(field, n);
    assert field[..n] + [] == field[..n];
  }

  lemma {:induction false} NameTextLength(field: seq<byte>)
    ensures NameText(field).Some? ==> |NameText(field).value| <= |field|
    ensures NameText(field).Some? ==> forall c :: c in NameText(field).value ==> PrintableByte(c)
  {
    if field != [] {
      NameTextLength(field[1..]);
    }
  }
}

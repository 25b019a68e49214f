/** BinaryRwParser::ExtractClump: the first clump chunk of a RenderWare stream. */
module ChunkWalk {
  import opened Common
  import opened ColFormat

  const CLUMP: nat := 0x10
  const CHUNK_HEADER: nat := 12

  // std::vector<uint8_t>::max_size() where size_t has 32 bits
  const MAX_BUFFER: nat := 0x7FFF_FFFF

  function Add32(a: uint32, b: uint32): uint32 { (a + b) % TWO32 }

  predicate HeaderAt(buf: seq<byte>, at: nat) { at + CHUNK_HEADER <= |buf| }

  function IdAt(buf: seq<byte>, at: nat): uint32
    requires HeaderAt(buf, at)
  {
    ReadU32LE(buf[at..at + 4])
  }

  function SizeAt(buf: seq<byte>, at: nat): uint32
    requires HeaderAt(buf, at)
  {
    ReadU32LE(buf[at + 4..at + 8])
  }

  function EndAt(buf: seq<byte>, at: nat): nat
    requires HeaderAt(buf, at)
  {
    at + CHUNK_HEADER + SizeAt(buf, at)
  }

  /** In terms of bytes: a clump starts with 10 00 00 00, and a chunk's size has its low byte first. */
  lemma HeaderBytes(buf: seq<byte>, at: nat)
    requires HeaderAt(buf, at)
    ensures ClumpAt(buf, at) <==>
      buf[at] == 0x10 && buf[at + 1] == 0 && buf[at + 2] == 0 && buf[at + 3] == 0
    ensures EndAt(buf, at) == at + 12 + ByteAt(buf, at + 4) + 0x100 * ByteAt(buf, at + 5)
                              + 0x1_0000 * ByteAt(buf, at + 6) + 0x100_0000 * ByteAt(buf, at + 7)
  {
    var id, size := buf[at..at + 4], buf[at + 4..at + 8];
    assert id[0] == buf[at] && id[1] == buf[at + 1] && id[2] == buf[at + 2] && id[3] == buf[at + 3];
    assert size[0] == buf[at + 4] && size[1] == buf[at + 5] && size[2] == buf[at + 6] && size[3] == buf[at + 7];
  }

  // The whole chunk is inside the buffer.
  predicate WholeAt(buf: seq<byte>, at: nat) { HeaderAt(buf, at) && EndAt(buf, at) <= |buf| }

  predicate ClumpAt(buf: seq<byte>, at: nat) { HeaderAt(buf, at) && IdAt(buf, at) == CLUMP }

  // Offsets of a walk from the buffer's start: every chunk but the last is whole and no clump.
  predicate IsWalk(buf: seq<byte>, path: seq<nat>) {
    && path != [] && path[0] == 0
    && forall i | 0 <= i < |path| - 1 ::
         WholeAt(buf, path[i]) && !ClumpAt(buf, path[i]) && path[i + 1] == EndAt(buf, path[i])
  }

  // What to return when the walk cannot go past `at`.
  function AnswerAt(buf: seq<byte>, at: nat): seq<byte> {
    if WholeAt(buf, at) && ClumpAt(buf, at) then buf[at..EndAt(buf, at)]
    else if ClumpAt(buf, at) && at == 0 then buf
    else []
  }

  predicate StuckAt(buf: seq<byte>, at: nat) { !WholeAt(buf, at) || ClumpAt(buf, at) }

  // The walk gets stuck at its end, and r is the answer there.
  predicate GivenBy(buf: seq<byte>, path: seq<nat>, r: seq<byte>) {
    IsWalk(buf, path) && StuckAt(buf, path[|path| - 1]) && r == AnswerAt(buf, path[|path| - 1])
  }

  ghost predicate IsExtracted(buf: seq<byte>, r: seq<byte>) {
    exists path: seq<nat> :: GivenBy(buf, path, r)
  }

  lemma WalkStarts(buf: seq<byte>)
    ensures IsWalk(buf, [0])
  {
  }

  lemma WalkGrows(buf: seq<byte>, path: seq<nat>)
    requires IsWalk(buf, path) && WholeAt(buf, path[|path| - 1]) && !ClumpAt(buf, path[|path| - 1])
    ensures IsWalk(buf, path + [EndAt(buf, path[|path| - 1])])
  {
    hide WholeAt, ClumpAt, EndAt;
  }

  method ExtractClump(rawBuffer: seq<byte>) returns (clump: seq<byte>)
    requires |rawBuffer| <= MAX_BUFFER
    ensures IsExtracted(rawBuffer, clump)
  {
    hide ReadU32LE, IsWalk;
    ghost var path: seq<nat> := [0];
    assert IsWalk(rawBuffer, path) by { WalkStarts(rawBuffer); }
    if |rawBuffer| < CHUNK_HEADER {
      assert GivenBy(rawBuffer, path, []);
      return [];
    }
    var offset: uint32 := 0;
    while Add32(offset, CHUNK_HEADER) <= |rawBuffer|
      invariant offset <= |rawBuffer|
      invariant IsWalk(rawBuffer, path) && path != [] && path[|path| - 1] == offset
      decreases |rawBuffer| - offset
    {
      var chunkId := ReadU32LE(rawBuffer[offset..offset + 4]);
      var chunkSize := ReadU32LE(rawBuffer[offset + 4..offset + 8]);
      if chunkSize > |rawBuffer| - offset - CHUNK_HEADER {
        if chunkId == CLUMP && offset == 0 {
          assert GivenBy(rawBuffer, path, rawBuffer);
          return rawBuffer;
        }
        break;
      }
      if chunkId == CLUMP {
        clump := rawBuffer[offset..offset + CHUNK_HEADER + chunkSize];
        assert GivenBy(rawBuffer, path, clump);
        return;
      }
      WalkGrows(rawBuffer, path);
      offset := Add32(offset, Add32(CHUNK_HEADER, chunkSize));
      path := path + [offset];
    }
    assert GivenBy(rawBuffer, path, []);
    return [];
  }

  // ---- what that determines ----

  // Two walks that get stuck are the same walk.
  lemma {:induction false} WalksAgree(buf: seq<byte>, p: seq<nat>, q: seq<nat>, n: nat)
    requires IsWalk(buf, p) && IsWalk(buf, q) && StuckAt(buf, q[|q| - 1])
    requires n < |p|
    ensures n < |q| && p[n] == q[n]
  {
    hide IdAt, SizeAt;
    if n > 0 {
      WalksAgree(buf, p, q, n - 1);
      assert WholeAt(buf, p[n - 1]) && !ClumpAt(buf, p[n - 1]) && p[n - 1 + 1] == EndAt(buf, p[n - 1]);
      assert n < |q|;
      assert q[n - 1 + 1] == EndAt(buf, q[n - 1]);
    }
  }

  /** The result is determined by the buffer. */
  lemma ExtractedUnique(buf: seq<byte>, r: seq<byte>, r': seq<byte>)
    requires IsExtracted(buf, r) && IsExtracted(buf, r')
    ensures r == r'
  {
    hide WholeAt, ClumpAt, EndAt, AnswerAt;
    var p: seq<nat> :| GivenBy(buf, p, r);
    var q: seq<nat> :| GivenBy(buf, q, r');
    WalksAgree(buf, p, q, |p| - 1);
    WalksAgree(buf, q, p, |q| - 1);
  }

  lemma AnswerIsOneClump(buf: seq<byte>, at: nat)
    requires AnswerAt(buf, at) != []
    ensures
      var r := AnswerAt(buf, at);
      && at + |r| <= |buf| && r == buf[at..at + |r|]
      && ClumpAt(r, 0)
      && (|r| == CHUNK_HEADER + SizeAt(r, 0) || (r == buf && |r| < CHUNK_HEADER + SizeAt(r, 0)))
  {
    hide ReadU32LE;
    var r := AnswerAt(buf, at);
    if WholeAt(buf, at) {
      SliceOfSlice(buf, at, EndAt(buf, at), 0, 4);
      SliceOfSlice(buf, at, EndAt(buf, at), 4, 8);
    } else {
      assert r == buf[at..at + |r|];
    }
  }

  /** The result is empty, or a clump chunk of its declared length cut out of the buffer, or the
      whole buffer when that is one clump longer than the buffer. */
  lemma ExtractedIsOneClump(buf: seq<byte>, r: seq<byte>) returns (at: nat)
    requires IsExtracted(buf, r)
    ensures r != [] ==>
      && at + |r| <= |buf| && r == buf[at..at + |r|]
      && ClumpAt(r, 0)
      && (|r| == CHUNK_HEADER + SizeAt(r, 0) || (r == buf && |r| < CHUNK_HEADER + SizeAt(r, 0)))
  {
    hide ClumpAt, SizeAt, AnswerAt, StuckAt;
    var path: seq<nat> :| GivenBy(buf, path, r);
    at := path[|path| - 1];
    if r != [] {
      AnswerIsOneClump(buf, at);
    }
  }

  /** Extracting from an extracted clump changes nothing. */
  lemma ExtractIsIdempotent(buf: seq<byte>, r: seq<byte>)
    requires IsExtracted(buf, r)
    ensures IsExtracted(r, r)
  {
    hide ReadU32LE;
    var at := ExtractedIsOneClump(buf, r);
    assert GivenBy(r, [0], r);
  }

  /** A clump that is whole and reached is found, whatever follows it. */
  lemma ReachedClumpIsFound(buf: seq<byte>, path: seq<nat>, r: seq<byte>)
    requires IsWalk(buf, path) && ClumpAt(buf, path[|path| - 1]) && WholeAt(buf, path[|path| - 1])
    requires IsExtracted(buf, r)
    ensures r == buf[path[|path| - 1]..EndAt(buf, path[|path| - 1])]
  {
    hide ReadU32LE;
    assert GivenBy(buf, path, AnswerAt(buf, path[|path| - 1]));
    ExtractedUnique(buf, r, AnswerAt(buf, path[|path| - 1]));
  }
}

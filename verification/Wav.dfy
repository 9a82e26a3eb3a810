/**
 The RIFF/WAVE reader: the chunk scan over a seekable file, and the short-read loop over the
 data chunk. Chunk layout follows chapter 2 ("Resource Interchange File Format") of the
 IBM/Microsoft Multimedia Programming Interface and Data Specifications 1.0.
 */
module Wav {
  import Text

  type Byte = n: int | 0 <= n < 256

  // ---------- The file format ----------

  const RIFF: seq<Byte> := [0x52, 0x49, 0x46, 0x46]
  const WAVE: seq<Byte> := [0x57, 0x41, 0x56, 0x45]
  const FMT: seq<Byte> := [0x66, 0x6D, 0x74, 0x20]
  const DATA: seq<Byte> := [0x64, 0x61, 0x74, 0x61]

  function LittleEndian(bytes: seq<Byte>): nat {
    if bytes == [] then 0 else bytes[0] + 256 * LittleEndian(bytes[1..])
  }

  function ToLittleEndian(n: nat, width: nat): (bytes: seq<Byte>)
    ensures |bytes| == width
  {
    if width == 0 then [] else [n % 256] + ToLittleEndian(n / 256, width - 1)
  }

  /** A chunk as the format lays it out: identifier, 32-bit size, body, and one pad byte after an odd body. */
  datatype Chunk = Chunk(id: seq<Byte>, body: seq<Byte>, pad: Byte)
  {
    predicate Valid() {
      |id| == 4 && |body| < 0x1_0000_0000
    }
    function Encode(): seq<Byte> {
      id + ToLittleEndian(|body|, 4) + body + if |body| % 2 == 1 then [pad] else []
    }
  }

  function EncodeAll(chunks: seq<Chunk>): seq<Byte> {
    if chunks == [] then [] else chunks[0].Encode() + EncodeAll(chunks[1..])
  }

  // ---------- The file ----------

  datatype FullRead = Full(bytes: seq<Byte>) | Eof | UnexpectedEof

  /** What io.ReadFull of `n` bytes finds at `pos`. */
  function FullAt(content: seq<Byte>, pos: nat, n: nat): (r: FullRead)
    ensures r.Full? ==> |r.bytes| == n && (n > 0 ==> pos + n <= |content|)
  {
    if pos + n <= |content| then Full(content[pos..pos + n])
    else if n == 0 then Full([])
    else if pos >= |content| then Eof
    else UnexpectedEof
  }

  class File {
    const content: seq<Byte>
    var pos: nat

    constructor (content: seq<Byte>)
      ensures this.content == content && pos == 0
    {
      this.content := content;
      pos := 0;
    }

    method ReadFull(n: nat) returns (r: FullRead)
      modifies this`pos
      ensures r == FullAt(content, old(pos), n)
      ensures r.Full? ==> pos == old(pos) + n
    {
      r := FullAt(content, pos, n);
      if r.Full? {
        pos := pos + n;
      } else if pos < |content| {
        pos := |content|;
      }
    }

    /** Seeking forward may leave the position behind the end of the file. */
    method Skip(n: nat)
      modifies this`pos
      ensures pos == old(pos) + n
    {
      pos := pos + n;
    }

    /**
     A read of at most `limit` bytes. It may be short, may report the end of the file together
     with the last bytes, and may fail; it delivers something unless `limit` is 0 or it reports.
     */
    method Read(limit: nat) returns (bytes: seq<Byte>, report: Report)
      modifies this`pos
      ensures |bytes| <= limit && pos == old(pos) + |bytes|
      ensures old(pos) + |bytes| <= |content| || bytes == []
      ensures old(pos) + |bytes| <= |content| ==> bytes == content[old(pos)..pos]
      ensures report == AtEnd ==> pos >= |content|
      ensures report == NoReport && limit > 0 ==> bytes != []
    {
      var available := if pos <= |content| then |content| - pos else 0;
      var most := if limit < available then limit else available;
      var n: nat :| n <= most;
      if most > 0 && n == 0 {
        n := 1;
      }
      bytes := if n == 0 then [] else content[pos..pos + n];
      pos := pos + n;
      var broken, early := *, *;
      report := if broken then Fault else if (n == 0 && limit > 0) || (early && n == available) then AtEnd else NoReport;
    }
  }

  datatype Report = NoReport | AtEnd | Fault

  // ---------- readWAVSpec ----------

  datatype WavSpec = WavSpec(audioFormat: nat, channelCount: nat, sampleRate: nat, bitsPerSample: nat,
                             dataOffset: nat, dataSize: nat)

  datatype Scan = Found(spec: WavSpec) | Rejected

  const BLANK := WavSpec(0, 0, 0, 0, 0, 0)

  function WithFormat(spec: WavSpec, body: seq<Byte>): WavSpec
    requires |body| >= 16
  {
    spec.(audioFormat := LittleEndian(body[0..2]), channelCount := LittleEndian(body[2..4]),
          sampleRate := LittleEndian(body[4..8]), bitsPerSample := LittleEndian(body[14..16]))
  }

  function WithData(spec: WavSpec, offset: nat, size: nat): WavSpec {
    spec.(dataOffset := offset, dataSize := size)
  }

  /** The chunk scan from `pos` on, with what has been found so far. */
  function ScanFrom(content: seq<Byte>, pos: nat, spec: WavSpec, gotFmt: bool, gotData: bool): Scan
    decreases |content| - pos
  {
    match FullAt(content, pos, 8)
    case Full(header) =>
      var size := LittleEndian(header[4..8]);
      var body := pos + 8;
      var next := body + size + size % 2;
      if header[0..4] == FMT then
        if size < 16 || !FullAt(content, body, size).Full? then Rejected
        else
          var spec' := WithFormat(spec, FullAt(content, body, size).bytes);
          if gotData then Found(spec') else ScanFrom(content, next, spec', true, gotData)
      else if header[0..4] == DATA then
        var spec' := WithData(spec, body, size);
        if gotFmt then Found(spec') else ScanFrom(content, next, spec', gotFmt, true)
      else if gotFmt && gotData then Found(spec)
      else ScanFrom(content, next, spec, gotFmt, gotData)
    case _ => if gotFmt && gotData then Found(spec) else Rejected
  }

  function WavSpecOf(content: seq<Byte>): Scan {
    match FullAt(content, 0, 12)
    case Full(riff) =>
      if riff[0..4] != RIFF || riff[8..12] != WAVE then Rejected else ScanFrom(content, 12, BLANK, false, false)
    case _ => Rejected
  }

  method ReadWavSpec(r: File) returns (result: Scan)
    requires r.pos == 0
    modifies r`pos
    ensures result == WavSpecOf(r.content)
  {
    hide LittleEndian, WithFormat, WithData, FullAt;
    var riff := r.ReadFull(12);
    if !riff.Full? {
      return Rejected;
    }
    if riff.bytes[0..4] != RIFF || riff.bytes[8..12] != WAVE {
      return Rejected;
    }
    var spec, gotFmt, gotData := BLANK, false, false;
    while true
      invariant !(gotFmt && gotData)
      invariant WavSpecOf(r.content) == ScanFrom(r.content, r.pos, spec, gotFmt, gotData)
      decreases |r.content| - r.pos
    {
      var header := r.ReadFull(8);
      if !header.Full? {
        break;
      }
      var chunkId, chunkSize := header.bytes[0..4], LittleEndian(header.bytes[4..8]);
      var chunkDataOffset := r.pos;
      if chunkId == FMT {
        if chunkSize < 16 {
          return Rejected;
        }
        var data := r.ReadFull(chunkSize);
        if !data.Full? {
          return Rejected;
        }
        spec := WithFormat(spec, data.bytes);
        gotFmt := true;
      } else if chunkId == DATA {
        spec := WithData(spec, chunkDataOffset, chunkSize);
        r.Skip(chunkSize);
        gotData := true;
      } else {
        r.Skip(chunkSize);
      }
      if chunkSize % 2 == 1 {
        r.Skip(1);
      }
      if gotFmt && gotData {
        return Found(spec);
      }
    }
    return Rejected;
  }

  // ---------- Well-formed files ----------

  lemma {:induction false} LittleEndianRoundTrip(n: nat, width: nat)
    requires n < Power256(width)
    ensures LittleEndian(ToLittleEndian(n, width)) == n
  {
    if width > 0 {
      LittleEndianRoundTrip(n / 256, width - 1);
      assert ToLittleEndian(n, width)[1..] == ToLittleEndian(n / 256, width - 1);
    }
  }

  function Power256(width: nat): nat {
    if width == 0 then 1 else 256 * Power256(width - 1)
  }

  /** `bytes` lie at `pos`. */
  predicate At(content: seq<Byte>, pos: nat, bytes: seq<Byte>) {
    pos + |bytes| <= |content| && content[pos..pos + |bytes|] == bytes
  }

  lemma AtSplits(content: seq<Byte>, pos: nat, a: seq<Byte>, b: seq<Byte>)
    requires At(content, pos, a + b)
    ensures At(content, pos, a) && At(content, pos + |a|, b)
  {
    assert content[pos..pos + |a|] == (a + b)[..|a|];
    assert content[pos + |a|..pos + |a| + |b|] == (a + b)[|a|..];
  }

  /** What a scan sees of a chunk. */
  lemma ChunkInPlace(content: seq<Byte>, pos: nat, chunk: Chunk)
    requires chunk.Valid() && At(content, pos, chunk.Encode())
    ensures FullAt(content, pos, 8).Full? && FullAt(content, pos, 8).bytes[0..4] == chunk.id
    ensures LittleEndian(FullAt(content, pos, 8).bytes[4..8]) == |chunk.body|
    ensures FullAt(content, pos + 8, |chunk.body|) == Full(chunk.body) && At(content, pos + 8, chunk.body)
    ensures pos + |chunk.Encode()| == pos + 8 + |chunk.body| + |chunk.body| % 2
  {
    var size := ToLittleEndian(|chunk.body|, 4);
    var pad := if |chunk.body| % 2 == 1 then [chunk.pad] else [];
    assert Power256(4) == 0x1_0000_0000;
    LittleEndianRoundTrip(|chunk.body|, 4);
    assert chunk.Encode() == (chunk.id + size) + (chunk.body + pad);
    AtSplits(content, pos, chunk.id + size, chunk.body + pad);
    AtSplits(content, pos + 8, chunk.body, pad);
    assert FullAt(content, pos, 8).bytes[4..8] == size;
  }

  predicate IsOther(chunk: Chunk) {
    chunk.Valid() && chunk.id != FMT && chunk.id != DATA
  }

  predicate AllOther(chunks: seq<Chunk>) {
    forall i :: 0 <= i < |chunks| ==> IsOther(chunks[i])
  }

  lemma ScanOther(content: seq<Byte>, pos: nat, chunk: Chunk, spec: WavSpec, gotFmt: bool, gotData: bool)
    requires IsOther(chunk) && At(content, pos, chunk.Encode()) && !(gotFmt && gotData)
    ensures ScanFrom(content, pos, spec, gotFmt, gotData) ==
            ScanFrom(content, pos + |chunk.Encode()|, spec, gotFmt, gotData)
  {
    hide LittleEndian, WithFormat, At, FullAt;
    ChunkInPlace(content, pos, chunk);
  }

  /** Other chunks are passed over. */
  lemma {:induction false} ScanSkips(content: seq<Byte>, pos: nat, chunks: seq<Chunk>, spec: WavSpec,
                                     gotFmt: bool, gotData: bool)
    requires AllOther(chunks) && At(content, pos, EncodeAll(chunks)) && !(gotFmt && gotData)
    ensures ScanFrom(content, pos, spec, gotFmt, gotData) ==
            ScanFrom(content, pos + |EncodeAll(chunks)|, spec, gotFmt, gotData)
    decreases |chunks|
  {
    hide ScanFrom, IsOther, At;
    if chunks == [] {
    } else {
      AtSplits(content, pos, chunks[0].Encode(), EncodeAll(chunks[1..]));
      ScanOther(content, pos, chunks[0], spec, gotFmt, gotData);
      ScanSkips(content, pos + |chunks[0].Encode()|, chunks[1..], spec, gotFmt, gotData);
    }
  }

  lemma ScanFormat(content: seq<Byte>, pos: nat, chunk: Chunk, spec: WavSpec, gotData: bool)
    requires chunk.Valid() && chunk.id == FMT && |chunk.body| >= 16 && At(content, pos, chunk.Encode())
    ensures ScanFrom(content, pos, spec, false, gotData) ==
            if gotData then Found(WithFormat(spec, chunk.body))
            else ScanFrom(content, pos + |chunk.Encode()|, WithFormat(spec, chunk.body), true, false)
  {
    hide LittleEndian, WithFormat, At, FullAt;
    ChunkInPlace(content, pos, chunk);
  }

  lemma ScanData(content: seq<Byte>, pos: nat, chunk: Chunk, spec: WavSpec, gotFmt: bool)
    requires chunk.Valid() && chunk.id == DATA && At(content, pos, chunk.Encode())
    ensures ScanFrom(content, pos, spec, gotFmt, false) ==
            if gotFmt then Found(WithData(spec, pos + 8, |chunk.body|))
            else ScanFrom(content, pos + |chunk.Encode()|, WithData(spec, pos + 8, |chunk.body|), false, true)
  {
    hide LittleEndian, WithFormat, At, FullAt;
    ChunkInPlace(content, pos, chunk);
  }

  /** The identifiers are "RIFF", "WAVE", "fmt " and "data" in ASCII. */
  lemma Identifiers()
    ensures Ascii("RIFF") == RIFF && Ascii("WAVE") == WAVE && Ascii("fmt ") == FMT && Ascii("data") == DATA
  {
  }

  function Ascii(s: string): seq<int> {
    seq(|s|, i requires 0 <= i < |s| => s[i] as int)
  }

  /**
   A RIFF/WAVE file: the preamble, the chunks, and anything behind them. The preamble's size field
   is not looked at.
   */
  predicate IsWaveFile(content: seq<Byte>, size: seq<Byte>, chunks: seq<Chunk>) {
    |size| == 4 && At(content, 0, (RIFF + size + WAVE) + EncodeAll(chunks))
  }

  /** The specification the chunks stand for, given where the body of the data chunk lies. */
  function Described(format: Chunk, data: Chunk, offset: nat): WavSpec
    requires |format.body| >= 16
  {
    WavSpec(LittleEndian(format.body[0..2]), LittleEndian(format.body[2..4]), LittleEndian(format.body[4..8]),
            LittleEndian(format.body[14..16]), offset, |data.body|)
  }

  lemma {:induction false} EncodeAllConcat(a: seq<Chunk>, b: seq<Chunk>)
    ensures EncodeAll(a + b) == EncodeAll(a) + EncodeAll(b)
  {
    if a == [] {
      assert a + b == b;
    } else {
      assert (a + b)[1..] == a[1..] + b;
      EncodeAllConcat(a[1..], b);
    }
  }

  /** A list of chunks in place can be taken apart: a group in front of the others, or one chunk. */
  lemma AtGroup(content: seq<Byte>, pos: nat, a: seq<Chunk>, tail: seq<Chunk>)
    requires At(content, pos, EncodeAll(a + tail))
    ensures At(content, pos, EncodeAll(a)) && At(content, pos + |EncodeAll(a)|, EncodeAll(tail))
  {
    EncodeAllConcat(a, tail);
    AtSplits(content, pos, EncodeAll(a), EncodeAll(tail));
  }

  lemma AtChunk(content: seq<Byte>, pos: nat, c: Chunk, tail: seq<Chunk>)
    requires At(content, pos, EncodeAll([c] + tail))
    ensures At(content, pos, c.Encode()) && At(content, pos + |c.Encode()|, EncodeAll(tail))
  {
    assert ([c] + tail)[1..] == tail;
    AtSplits(content, pos, c.Encode(), EncodeAll(tail));
  }

  /** The chunks of a file with `c` before `d`, each group of others before, between and behind them. */
  function Around(a: seq<Chunk>, c: Chunk, b: seq<Chunk>, d: Chunk, rest: seq<Chunk>): seq<Chunk> {
    a + ([c] + (b + ([d] + rest)))
  }

  lemma AtAround(content: seq<Byte>, pos: nat, a: seq<Chunk>, c: Chunk, b: seq<Chunk>, d: Chunk, rest: seq<Chunk>)
    requires At(content, pos, EncodeAll(Around(a, c, b, d, rest)))
    ensures At(content, pos, EncodeAll(a))
    ensures At(content, pos + |EncodeAll(a)|, c.Encode())
    ensures At(content, pos + |EncodeAll(a)| + |c.Encode()|, EncodeAll(b))
    ensures At(content, pos + |EncodeAll(a)| + |c.Encode()| + |EncodeAll(b)|, d.Encode())
  {
    hide At, EncodeAll;
    AtGroup(content, pos, a, [c] + (b + ([d] + rest)));
    var p := pos + |EncodeAll(a)|;
    AtChunk(content, p, c, b + ([d] + rest));
    AtGroup(content, p + |c.Encode()|, b, [d] + rest);
    AtChunk(content, p + |c.Encode()| + |EncodeAll(b)|, d, rest);
  }

  /** The part of the file that a reader at `pos` with `remaining` bytes of the data chunk to go can still deliver. */
  function Available(content: seq<Byte>, pos: nat, remaining: nat): seq<Byte> {
    if pos >= |content| then [] else if pos + remaining <= |content| then content[pos..pos + remaining] else content[pos..]
  }

  /** Of a file that holds its data chunk whole, that is the chunk's body. */
  lemma WholeDataIsAvailable(content: seq<Byte>, offset: nat, body: seq<Byte>)
    requires At(content, offset, body)
    ensures Available(content, offset, |body|) == body
  {
  }

  lemma PreambleInPlace(content: seq<Byte>, size: seq<Byte>, chunks: seq<Chunk>)
    requires IsWaveFile(content, size, chunks)
    ensures WavSpecOf(content) == ScanFrom(content, 12, BLANK, false, false)
    ensures At(content, 12, EncodeAll(chunks))
  {
    var preamble := RIFF + size + WAVE;
    AtSplits(content, 0, preamble, EncodeAll(chunks));
    assert preamble[0..4] == RIFF && preamble[8..12] == WAVE;
  }

  /** A file with the fmt chunk before the data chunk, among any others, is read as its chunks say. */
  lemma FormatFirst(content: seq<Byte>, size: seq<Byte>,
                    a: seq<Chunk>, format: Chunk, b: seq<Chunk>, data: Chunk, rest: seq<Chunk>)
    requires IsWaveFile(content, size, Around(a, format, b, data, rest))
    requires AllOther(a) && AllOther(b) && format.Valid() && data.Valid()
    requires format.id == FMT && |format.body| >= 16 && data.id == DATA
    ensures var offset := 12 + |EncodeAll(a)| + |format.Encode()| + |EncodeAll(b)| + 8;
            && WavSpecOf(content) == Found(Described(format, data, offset))
            && Available(content, offset, |data.body|) == data.body
  {
    hide LittleEndian, At, EncodeAll, ScanFrom, WavSpecOf, Around, IsWaveFile, AllOther, Available;
    PreambleInPlace(content, size, Around(a, format, b, data, rest));
    AtAround(content, 12, a, format, b, data, rest);
    var p := 12 + |EncodeAll(a)|;
    ScanSkips(content, 12, a, BLANK, false, false);
    ScanFormat(content, p, format, BLANK, false);
    var spec := WithFormat(BLANK, format.body);
    ScanSkips(content, p + |format.Encode()|, b, spec, true, false);
    p := p + |format.Encode()| + |EncodeAll(b)|;
    ScanData(content, p, data, spec, true);
    ChunkInPlace(content, p, data);
    WholeDataIsAvailable(content, p + 8, data.body);
  }

  /** The same with the data chunk first. */
  lemma DataFirst(content: seq<Byte>, size: seq<Byte>,
                  a: seq<Chunk>, data: Chunk, b: seq<Chunk>, format: Chunk, rest: seq<Chunk>)
    requires IsWaveFile(content, size, Around(a, data, b, format, rest))
    requires AllOther(a) && AllOther(b) && format.Valid() && data.Valid()
    requires format.id == FMT && |format.body| >= 16 && data.id == DATA
    ensures var offset := 12 + |EncodeAll(a)| + 8;
            && WavSpecOf(content) == Found(Described(format, data, offset))
            && Available(content, offset, |data.body|) == data.body
  {
    hide LittleEndian, At, EncodeAll, ScanFrom, WavSpecOf, Around, IsWaveFile, AllOther, Available;
    PreambleInPlace(content, size, Around(a, data, b, format, rest));
    AtAround(content, 12, a, data, b, format, rest);
    var p := 12 + |EncodeAll(a)|;
    ScanSkips(content, 12, a, BLANK, false, false);
    ScanData(content, p, data, BLANK, false);
    ChunkInPlace(content, p, data);
    WholeDataIsAvailable(content, p + 8, data.body);
    var spec := WithData(BLANK, p + 8, |data.body|);
    ScanSkips(content, p + |data.Encode()|, b, spec, false, true);
    p := p + |data.Encode()| + |EncodeAll(b)|;
    ScanFormat(content, p, format, spec, true);
  }

  /** Without the preamble nothing is read. */
  lemma PreambleIsNeeded(content: seq<Byte>)
    ensures WavSpecOf(content).Found? ==>
              |content| >= 12 && content[..4] == [0x52, 0x49, 0x46, 0x46] && content[8..12] == [0x57, 0x41, 0x56, 0x45]
  {
    hide ScanFrom;
    if |content| >= 12 {
      assert content[0..12][0..4] == content[..4] && content[0..12][8..12] == content[8..12];
    }
  }

  /** A fmt chunk that is too short ends the scan, whatever follows it. */
  lemma ShortFormatIsRejected(content: seq<Byte>, size: seq<Byte>, a: seq<Chunk>, format: Chunk, rest: seq<Chunk>)
    requires IsWaveFile(content, size, a + ([format] + rest))
    requires AllOther(a) && format.Valid() && format.id == FMT && |format.body| < 16
    ensures WavSpecOf(content) == Rejected
  {
    hide At, EncodeAll, WavSpecOf, IsWaveFile, AllOther, LittleEndian, FullAt;
    PreambleInPlace(content, size, a + ([format] + rest));
    AtGroup(content, 12, a, [format] + rest);
    AtChunk(content, 12 + |EncodeAll(a)|, format, rest);
    ScanSkips(content, 12, a, BLANK, false, false);
    ChunkInPlace(content, 12 + |EncodeAll(a)|, format);
  }

  /** `n` as a chunk's size field behind the data identifier lies at `pos`. */
  predicate DataHeaderAt(content: seq<Byte>, pos: nat, n: nat) {
    n < 0x1_0000_0000 && At(content, pos, DATA + ToLittleEndian(n, 4))
  }

  /**
   Behind the fmt chunk the data chunk's header is enough: a file cut off within the data, or whose
   header claims more than there is, is read, and what is there of the data is delivered.
   */
  lemma TruncatedData(content: seq<Byte>, size: seq<Byte>, a: seq<Chunk>, format: Chunk, b: seq<Chunk>, n: nat)
    requires IsWaveFile(content, size, a + ([format] + b)) && AllOther(a) && AllOther(b)
    requires format.Valid() && format.id == FMT && |format.body| >= 16
    requires DataHeaderAt(content, 12 + |EncodeAll(a)| + |format.Encode()| + |EncodeAll(b)|, n)
    ensures var offset := 12 + |EncodeAll(a)| + |format.Encode()| + |EncodeAll(b)| + 8;
            && WavSpecOf(content) == Found(Described(format, Chunk(DATA, [], 0), offset).(dataSize := n))
            && (|content| <= offset + n ==> Available(content, offset, n) == content[offset..])
  {
    hide LittleEndian, At, EncodeAll, ScanFrom, WavSpecOf, IsWaveFile, AllOther, DataHeaderAt;
    PreambleInPlace(content, size, a + ([format] + b));
    AtGroup(content, 12, a, [format] + b);
    var p := 12 + |EncodeAll(a)|;
    AtChunk(content, p, format, b);
    ScanSkips(content, 12, a, BLANK, false, false);
    ScanFormat(content, p, format, BLANK, false);
    var spec := WithFormat(BLANK, format.body);
    ScanSkips(content, p + |format.Encode()|, b, spec, true, false);
    ScanDataHeader(content, p + |format.Encode()| + |EncodeAll(b)|, n, spec);
    DataHeaderFits(content, p + |format.Encode()| + |EncodeAll(b)|, n);
  }

  lemma DataHeaderFits(content: seq<Byte>, pos: nat, n: nat)
    requires DataHeaderAt(content, pos, n)
    ensures pos + 8 <= |content|
  {
  }

  lemma ScanDataHeader(content: seq<Byte>, pos: nat, n: nat, spec: WavSpec)
    requires DataHeaderAt(content, pos, n)
    ensures ScanFrom(content, pos, spec, true, false) == Found(WithData(spec, pos + 8, n))
  {
    hide LittleEndian, ToLittleEndian;
    assert Power256(4) == 0x1_0000_0000;
    LittleEndianRoundTrip(n, 4);
    AtSplits(content, pos, DATA, ToLittleEndian(n, 4));
    assert FullAt(content, pos, 8).bytes[4..8] == ToLittleEndian(n, 4);
    assert FullAt(content, pos, 8).bytes[0..4] == DATA;
  }

  lemma LowByte(low: Byte, rest: seq<Byte>)
    ensures LittleEndian([low] + rest) == low + 0x100 * LittleEndian(rest)
  {
    assert ([low] + rest)[1..] == rest;
  }

  /** Numbers are stored low byte first. */
  lemma LowByteFirst(a: Byte, b: Byte, c: Byte, d: Byte)
    ensures LittleEndian([a, b]) == a + 0x100 * b
    ensures LittleEndian([a, b, c, d]) == a + 0x100 * b + 0x1_0000 * c + 0x100_0000 * d
  {
    LowByte(a, [b]);
    LowByte(b, []);
    LowByte(a, [b, c, d]);
    LowByte(b, [c, d]);
    LowByte(c, [d]);
    LowByte(d, []);
    assert [a] + [b] == [a, b] && [b] + [] == [b];
    assert [a] + [b, c, d] == [a, b, c, d] && [b] + [c, d] == [b, c, d] && [c] + [d] == [c, d] && [d] + [] == [d];
  }

  ghost predicate NoneHasId(chunks: seq<Chunk>, id: seq<Byte>) {
    forall i :: 0 <= i < |chunks| ==> chunks[i].Valid() && chunks[i].id != id
  }

  /** Without a fmt chunk the scan goes on behind every chunk. */
  lemma ScanAnyData(content: seq<Byte>, pos: nat, chunk: Chunk, spec: WavSpec, gotData: bool)
    returns (spec': WavSpec, gotData': bool)
    requires chunk.Valid() && chunk.id != FMT && At(content, pos, chunk.Encode())
    ensures ScanFrom(content, pos, spec, false, gotData) ==
            ScanFrom(content, pos + |chunk.Encode()|, spec', false, gotData')
  {
    hide LittleEndian, At, FullAt;
    ChunkInPlace(content, pos, chunk);
    if chunk.id == DATA {
      spec', gotData' := WithData(spec, pos + 8, |chunk.body|), true;
    } else {
      spec', gotData' := spec, gotData;
    }
  }

  /** Without a data chunk it does so too, unless a fmt chunk is too short. */
  lemma ScanAnyFormat(content: seq<Byte>, pos: nat, chunk: Chunk, spec: WavSpec, gotFmt: bool)
    returns (spec': WavSpec, gotFmt': bool)
    requires chunk.Valid() && chunk.id != DATA && At(content, pos, chunk.Encode())
    ensures ScanFrom(content, pos, spec, gotFmt, false) == Rejected ||
            ScanFrom(content, pos, spec, gotFmt, false) ==
            ScanFrom(content, pos + |chunk.Encode()|, spec', gotFmt', false)
  {
    hide LittleEndian, WithFormat, At, FullAt;
    ChunkInPlace(content, pos, chunk);
    if chunk.id == FMT && |chunk.body| >= 16 {
      spec', gotFmt' := WithFormat(spec, chunk.body), true;
    } else {
      spec', gotFmt' := spec, gotFmt;
    }
  }

  lemma ScanEnds(content: seq<Byte>, pos: nat, spec: WavSpec, gotFmt: bool, gotData: bool)
    requires |content| < pos + 8 && !(gotFmt && gotData)
    ensures ScanFrom(content, pos, spec, gotFmt, gotData) == Rejected
  {
  }

  lemma {:induction false} NoFormatIsRejected(content: seq<Byte>, pos: nat, chunks: seq<Chunk>, spec: WavSpec, gotData: bool)
    requires NoneHasId(chunks, FMT) && At(content, pos, EncodeAll(chunks)) && |content| < pos + |EncodeAll(chunks)| + 8
    ensures ScanFrom(content, pos, spec, false, gotData) == Rejected
    decreases |chunks|
  {
    hide ScanFrom, At;
    if chunks == [] {
      ScanEnds(content, pos, spec, false, gotData);
    } else {
      AtSplits(content, pos, chunks[0].Encode(), EncodeAll(chunks[1..]));
      var spec', gotData' := ScanAnyData(content, pos, chunks[0], spec, gotData);
      NoFormatIsRejected(content, pos + |chunks[0].Encode()|, chunks[1..], spec', gotData');
    }
  }

  lemma {:induction false} NoDataIsRejected(content: seq<Byte>, pos: nat, chunks: seq<Chunk>, spec: WavSpec, gotFmt: bool)
    requires NoneHasId(chunks, DATA) && At(content, pos, EncodeAll(chunks)) && |content| < pos + |EncodeAll(chunks)| + 8
    ensures ScanFrom(content, pos, spec, gotFmt, false) == Rejected
    decreases |chunks|
  {
    hide ScanFrom, At;
    if chunks == [] {
      ScanEnds(content, pos, spec, gotFmt, false);
    } else {
      AtSplits(content, pos, chunks[0].Encode(), EncodeAll(chunks[1..]));
      var spec', gotFmt' := ScanAnyFormat(content, pos, chunks[0], spec, gotFmt);
      NoDataIsRejected(content, pos + |chunks[0].Encode()|, chunks[1..], spec', gotFmt');
    }
  }

  /** A file whose chunks lack one of the two is rejected, if what lies behind them is too short for another chunk. */
  lemma MissingChunk(content: seq<Byte>, size: seq<Byte>, chunks: seq<Chunk>)
    requires IsWaveFile(content, size, chunks) && (NoneHasId(chunks, FMT) || NoneHasId(chunks, DATA))
    requires |content| < 12 + |EncodeAll(chunks)| + 8
    ensures WavSpecOf(content) == Rejected
  {
    hide ScanFrom, At, NoneHasId;
    PreambleInPlace(content, size, chunks);
    if NoneHasId(chunks, FMT) {
      NoFormatIsRejected(content, 12, chunks, BLANK, false);
    } else {
      NoDataIsRejected(content, 12, chunks, BLANK, false);
    }
  }

  // ---------- The data reader ----------

  lemma AvailableSplits(content: seq<Byte>, pos: nat, remaining: nat, n: nat)
    requires n <= remaining && pos + n <= |content|
    ensures Available(content, pos, remaining) == content[pos..pos + n] + Available(content, pos + n, remaining - n)
  {
  }

  lemma NothingAtTheEnd(content: seq<Byte>, pos: nat, remaining: nat)
    requires remaining == 0 || pos >= |content|
    ensures Available(content, pos, remaining) == []
  {
  }

  class WavReader {
    const file: File
    const sampleRate: nat
    var remaining: nat

    constructor (file: File, sampleRate: nat, remaining: nat)
      ensures this.file == file && this.sampleRate == sampleRate && this.remaining == remaining
    {
      this.file := file;
      this.sampleRate := sampleRate;
      this.remaining := remaining;
    }

    ghost function Rest(): seq<Byte>
      reads this, file
    {
      Available(file.content, file.pos, remaining)
    }

    /**
     One read of at most `size` bytes. What it returns comes off the front of what is left, and it
     reports the end only when nothing is left.
     */
    method ReadChunk(size: nat) returns (bytes: seq<Byte>, report: Report)
      modifies this`remaining, file`pos
      ensures |bytes| <= size
      ensures old(Rest()) == bytes + Rest()
      ensures report == AtEnd ==> Rest() == []
      ensures report == NoReport && size > 0 ==> bytes != []
      ensures file.pos == old(file.pos) + |bytes| && remaining == old(remaining) - |bytes|
    {
      if remaining == 0 {
        return [], AtEnd;
      }
      hide Available;
      bytes, report := file.Read(if size > remaining then remaining else size);
      if bytes != [] {
        AvailableSplits(file.content, old(file.pos), remaining, |bytes|);
      }
      remaining := remaining - |bytes|;
      if report == AtEnd && |bytes| > 0 {
        report := NoReport;
      } else if report == NoReport && remaining == 0 {
        report := AtEnd;
      }
      if report == AtEnd {
        NothingAtTheEnd(file.content, file.pos, remaining);
      }
    }

    /**
     The transcriber's loop: every non-empty piece is handed on, also one that comes with the end
     report. Whatever the pattern of short reads, the pieces make up exactly the data bytes that the
     file has; a fault leaves a prefix of them.
     */
    method ReadAll(size: nat) returns (fed: seq<seq<Byte>>, report: Report)
      requires size > 0
      modifies this`remaining, file`pos
      ensures report == AtEnd || report == Fault
      ensures old(Rest()) == Concat(fed) + Rest()
      ensures report == AtEnd ==> Concat(fed) == old(Rest())
      ensures forall i :: 0 <= i < |fed| ==> 0 < |fed[i]| <= size
    {
      hide Concat, Available;
      fed := [];
      NothingFed();
      while true
        invariant old(Rest()) == Concat(fed) + Rest()
        invariant forall i :: 0 <= i < |fed| ==> 0 < |fed[i]| <= size
        decreases remaining
      {
        ghost var before, rest := fed, Rest();
        var bytes;
        bytes, report := ReadChunk(size);
        if |bytes| > 0 {
          fed := fed + [bytes];
          ConcatSnoc(before, bytes);
          Text.Assoc(Concat(before), bytes, Rest());
        }
        if report == AtEnd || report == Fault {
          return;
        }
      }
    }
  }

  lemma NothingFed()
    ensures Concat([]) == []
  {
  }

  function Concat(pieces: seq<seq<Byte>>): seq<Byte> {
    if pieces == [] then [] else Concat(pieces[..|pieces| - 1]) + pieces[|pieces| - 1]
  }

  lemma ConcatSnoc(pieces: seq<seq<Byte>>, last: seq<Byte>)
    ensures Concat(pieces + [last]) == Concat(pieces) + last
  {
    assert (pieces + [last])[..|pieces|] == pieces;
  }

  /** The transcriber takes PCM, one channel, 16 bits a sample. */
  predicate IsPcm16Mono(spec: WavSpec) {
    spec.audioFormat == 1 && spec.channelCount == 1 && spec.bitsPerSample == 16
  }

  /**
   Opening succeeds exactly for a file whose specification can be read and is PCM16 mono; the data
   is then what the specification locates.
   */
  method OpenPcm16Mono(file: File) returns (reader: WavReader?)
    requires file.pos == 0
    modifies file`pos
    ensures reader != null <==>
              && WavSpecOf(file.content).Found?
              && var spec := WavSpecOf(file.content).spec;
                 spec.audioFormat == 1 && spec.channelCount == 1 && spec.bitsPerSample == 16
    ensures reader != null ==>
              var spec := WavSpecOf(file.content).spec;
              && fresh(reader) && reader.file == file && reader.sampleRate == spec.sampleRate
              && file.pos == spec.dataOffset && reader.remaining == spec.dataSize
              && reader.Rest() == Available(file.content, spec.dataOffset, spec.dataSize)
  {
    var result := ReadWavSpec(file);
    if result.Rejected? {
      return null;
    }
    var spec := result.spec;
    if spec.audioFormat != 1 {
      return null;
    }
    if spec.channelCount != 1 || spec.bitsPerSample != 16 {
      return null;
    }
    file.pos := spec.dataOffset;
    reader := new WavReader(file, spec.sampleRate, spec.dataSize);
  }

  /** Opening and reading to the end: what is fed is exactly the available part of the located data. */
  method Transcribe(file: File, size: nat) returns (opens: bool, fed: seq<seq<Byte>>, report: Report)
    requires file.pos == 0 && size > 0
    modifies file`pos
    ensures opens <==> WavSpecOf(file.content).Found? && IsPcm16Mono(WavSpecOf(file.content).spec)
    ensures opens && report == AtEnd ==>
              var spec := WavSpecOf(file.content).spec;
              Concat(fed) == Available(file.content, spec.dataOffset, spec.dataSize)
    ensures !opens ==> fed == []
  {
    hide WavSpecOf, Available;
    var reader := OpenPcm16Mono(file);
    if reader == null {
      return false, [], Fault;
    }
    opens := true;
    fed, report := reader.ReadAll(size);
  }
}

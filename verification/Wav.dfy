/**
 PCM audio in RIFF/WAVE files (pkg/audio/wav/wav.go; RIFF "Waveform Audio File Format (WAVE)").
 */
module Wav {
  import opened Wrappers

  type Byte = b: int | 0 <= b < 256

  type Bytes = seq<Byte>

  const MAX16: nat := 0x1_0000
  const MAX32: nat := 0x1_0000_0000

  type U16 = x: int | 0 <= x < MAX16

  type U32 = x: int | 0 <= x < MAX32

  datatype Pcm = Pcm(data: Bytes, numChannels: U16, sampleRate: U32, bitsPerSample: U16)

  datatype ParseError =
    | TooShort | NotRiff | NotWave
    | DataMissing | ChunkTruncated(id: Bytes)
    | FmtTooShort | NotPcm(format: U16)
    | NoData | NoFmt

  // ----- little-endian numbers and chunk names -----

  const RIFF: Bytes := [82, 73, 70, 70]
  const WAVE: Bytes := [87, 65, 86, 69]
  const FMT: Bytes := [102, 109, 116, 32]
  const DATA: Bytes := [100, 97, 116, 97]

  function Le16(x: U16): (r: Bytes)
    ensures |r| == 2
  {
    [x % 256, x / 256]
  }

  function Le32(x: U32): (r: Bytes)
    ensures |r| == 4
  {
    [x % 256, x / 256 % 256, x / 256 / 256 % 256, x / 256 / 256 / 256]
  }

  function Get16(b: Bytes, off: nat): U16
    requires off + 2 <= |b|
  {
    b[off] as int + 256 * (b[off + 1] as int)
  }

  function Get32(b: Bytes, off: nat): U32
    requires off + 4 <= |b|
  {
    b[off] as int + 256 * (b[off + 1] as int) + 65536 * (b[off + 2] as int) + 16777216 * (b[off + 3] as int)
  }

  lemma Get32Of(b: Bytes, off: nat, x: U32)
    requires off + 4 <= |b| && b[off..off + 4] == Le32(x)
    ensures Get32(b, off) == x
  {
    var s := b[off..off + 4];
    assert s[0] == b[off] && s[1] == b[off + 1] && s[2] == b[off + 2] && s[3] == b[off + 3];
  }

  lemma Get16Of(b: Bytes, off: nat, x: U16)
    requires off + 2 <= |b| && b[off..off + 2] == Le16(x)
    ensures Get16(b, off) == x
  {
    var s := b[off..off + 2];
    assert s[0] == b[off] && s[1] == b[off + 1];
  }

  // ----- parsing -----

  /** What has been read so far; no data chunk yet is None. */
  datatype Fields = Fields(data: Option<Bytes>, numChannels: U16, sampleRate: U32, bitsPerSample: U16)

  /** What one chunk contributes. */
  function TakeChunk(out: Fields, id: Bytes, body: Bytes): Result<Fields, ParseError> {
    if id == FMT then
      if |body| < 16 then Err(FmtTooShort)
      else if Get16(body, 0) != 1 then Err(NotPcm(Get16(body, 0)))
      else Ok(Fields(out.data, Get16(body, 2), Get32(body, 4), Get16(body, 14)))
    else if id == DATA then Ok(out.(data := Some(body)))
    else Ok(out)
  }

  /** The body of the chunk at off: only a data chunk may be cut off by the end of the file. */
  function BodyAt(b: Bytes, off: nat): Result<Bytes, ParseError>
    requires off + 8 <= |b|
  {
    var id, start, end := b[off..off + 4], off + 8, off + 8 + Get32(b, off + 4);
    if end <= |b| then Ok(b[start..end])
    else if id != DATA then Err(ChunkTruncated(id))
    else if start < |b| then Ok(b[start..])
    else Err(DataMissing)
  }

  function ParseChunks(b: Bytes, off: nat, out: Fields): Result<Fields, ParseError>
    decreases |b| - off
  {
    if off + 8 > |b| then Ok(out)
    else
      var size := Get32(b, off + 4);
      match BodyAt(b, off)
      case Err(e) => Err(e)
      case Ok(body) =>
        match TakeChunk(out, b[off..off + 4], body)
        case Err(e) => Err(e)
        case Ok(next) => ParseChunks(b, off + 8 + size + size % 2, next)
  }

  const NOTHING: Fields := Fields(None, 0, 0, 0)

  function Finished(out: Fields): Result<Pcm, ParseError> {
    if out.data.None? then Err(NoData)
    else if out.numChannels == 0 || out.sampleRate == 0 || out.bitsPerSample == 0 then Err(NoFmt)
    else Ok(Pcm(out.data.value, out.numChannels, out.sampleRate, out.bitsPerSample))
  }

  function Conclude(r: Result<Fields, ParseError>): Result<Pcm, ParseError> {
    match r
    case Err(e) => Err(e)
    case Ok(out) => Finished(out)
  }

  function Parsed(b: Bytes): Result<Pcm, ParseError> {
    if |b| < 12 then Err(TooShort)
    else if b[0..4] != RIFF then Err(NotRiff)
    else if b[8..12] != WAVE then Err(NotWave)
    else Conclude(ParseChunks(b, 12, NOTHING))
  }

  method ReadBody(b: Bytes, off: nat) returns (r: Result<Bytes, ParseError>)
    requires off + 8 <= |b|
    ensures r == BodyAt(b, off)
  {
    var chunkID := b[off..off + 4];
    var chunkSize := Get32(b, off + 4);
    var bodyStart := off + 8;
    var bodyEnd := bodyStart + chunkSize;
    var actualEnd := bodyEnd;
    if bodyEnd > |b| {
      var remaining := |b| - bodyStart;
      if chunkID == DATA {
        if remaining > 0 {
          actualEnd := |b|;
          assert b[bodyStart..|b|] == b[bodyStart..];
        } else {
          return Err(DataMissing);
        }
      } else {
        return Err(ChunkTruncated(chunkID));
      }
    }
    r := Ok(b[bodyStart..actualEnd]);
  }

  method Take(sofar: Fields, chunkID: Bytes, body: Bytes) returns (r: Result<Fields, ParseError>)
    ensures r == TakeChunk(sofar, chunkID, body)
  {
    var out := sofar;
    if chunkID == FMT {
      if |body| < 16 {
        return Err(FmtTooShort);
      }
      var format := Get16(body, 0);
      if format != 1 {
        return Err(NotPcm(format));
      }
      out := out.(numChannels := Get16(body, 2), sampleRate := Get32(body, 4), bitsPerSample := Get16(body, 14));
    } else if chunkID == DATA {
      out := out.(data := Some(body));
    }
    r := Ok(out);
  }

  /** Terminates, with every slice in bounds, on any bytes. */
  method Parse(b: Bytes) returns (r: Result<Pcm, ParseError>)
    ensures r == Parsed(b)
  {
    if |b| < 12 {
      return Err(TooShort);
    }
    if b[0..4] != RIFF {
      return Err(NotRiff);
    }
    if b[8..12] != WAVE {
      return Err(NotWave);
    }
    var out := NOTHING;
    var off: nat := 12;
    while off + 8 <= |b|
      invariant ParseChunks(b, 12, NOTHING) == ParseChunks(b, off, out)
      decreases |b| - off
    {
      var chunkID := b[off..off + 4];
      var chunkSize := Get32(b, off + 4);
      var read := ReadBody(b, off);
      if read.Err? {
        return Err(read.error);
      }
      var body := read.value;
      var next := Take(out, chunkID, body);
      if next.Err? {
        return Err(next.error);
      }
      out := next.value;
      off := off + 8 + chunkSize + chunkSize % 2;
    }
    if out.data == None {
      return Err(NoData);
    }
    if out.numChannels == 0 || out.sampleRate == 0 || out.bitsPerSample == 0 {
      return Err(NoFmt);
    }
    r := Ok(Pcm(out.data.value, out.numChannels, out.sampleRate, out.bitsPerSample));
  }

  // ----- files made of chunks -----

  datatype Chunk = Chunk(id: Bytes, body: Bytes)

  predicate WellFormed(chunks: seq<Chunk>) {
    forall i :: 0 <= i < |chunks| ==> |chunks[i].id| == 4 && |chunks[i].body| < MAX32
  }

  function ChunkBytes(c: Chunk): Bytes
    requires |c.body| < MAX32
  {
    c.id + Le32(|c.body|) + c.body
  }

  function Pad(n: nat): Bytes {
    if n % 2 == 1 then [0] else []
  }

  /** Chunks one after the other, a pad byte after each odd body but the last. */
  function Serialized(chunks: seq<Chunk>): Bytes
    requires WellFormed(chunks)
  {
    if chunks == [] then []
    else if |chunks| == 1 then ChunkBytes(chunks[0])
    else ChunkBytes(chunks[0]) + Pad(|chunks[0].body|) + Serialized(chunks[1..])
  }

  function RiffHeader(size: U32): (r: Bytes)
    ensures |r| == 12
  {
    RIFF + Le32(size) + WAVE
  }

  /** What the chunks mean: the last fmt chunk and the last data chunk win, others are skipped. */
  function Interpret(chunks: seq<Chunk>, out: Fields): Result<Fields, ParseError>
    decreases |chunks|
  {
    if chunks == [] then Ok(out)
    else
      match TakeChunk(out, chunks[0].id, chunks[0].body)
      case Err(e) => Err(e)
      case Ok(next) => Interpret(chunks[1..], next)
  }

  lemma SliceOfSlice(b: Bytes, off: nat, i: nat, j: nat)
    requires off + j <= |b| && i <= j
    ensures b[off..][i..j] == b[off + i..off + j]
  {
  }

  /** A chunk laid out at off is read as it was written. */
  lemma ReadChunk(b: Bytes, off: nat, c: Chunk, rest: Bytes)
    requires |c.id| == 4 && |c.body| < MAX32
    requires off <= |b| && b[off..] == ChunkBytes(c) + rest
    ensures off + 8 + |c.body| <= |b| && b[off + 8 + |c.body|..] == rest
    ensures b[off..off + 4] == c.id && Get32(b, off + 4) == |c.body| && BodyAt(b, off) == Ok(c.body)
  {
    var s, n := b[off..], |c.body|;
    assert s[0..4] == c.id && s[4..8] == Le32(n) && s[8..8 + n] == c.body && s[8 + n..] == rest;
    SliceOfSlice(b, off, 0, 4);
    SliceOfSlice(b, off, 4, 8);
    SliceOfSlice(b, off, 8, 8 + n);
    Get32Of(b, off + 4, n);
  }

  lemma SkipPad(b: Bytes, off: nat, n: nat, rest: Bytes)
    requires off <= |b| && b[off..] == Pad(n) + rest
    ensures off + n % 2 <= |b| && b[off + n % 2..] == rest
  {
  }

  /** What is read at off. */
  predicate ReadsAt(b: Bytes, off: nat, id: Bytes, body: Bytes) {
    off + 8 <= |b| && b[off..off + 4] == id && Get32(b, off + 4) == |body| && BodyAt(b, off) == Ok(body)
  }

  /** One round of the walk. */
  lemma ParseOk(b: Bytes, off: nat, after: nat, id: Bytes, body: Bytes, out: Fields, next: Fields)
    requires ReadsAt(b, off, id, body) && TakeChunk(out, id, body) == Ok(next)
    requires after == off + 8 + |body| + |body| % 2
    ensures ParseChunks(b, off, out) == ParseChunks(b, after, next)
  {
  }

  lemma ParseErr(b: Bytes, off: nat, id: Bytes, body: Bytes, out: Fields)
    requires ReadsAt(b, off, id, body) && TakeChunk(out, id, body).Err?
    ensures ParseChunks(b, off, out) == Err(TakeChunk(out, id, body).error)
  {
  }

  lemma OkStep(b: Bytes, off: nat, after: nat, chunks: seq<Chunk>, rest: seq<Chunk>, out: Fields, next: Fields)
    requires chunks != [] && rest == chunks[1..] && ReadsAt(b, off, chunks[0].id, chunks[0].body)
    requires after == off + 8 + |chunks[0].body| + |chunks[0].body| % 2
    requires TakeChunk(out, chunks[0].id, chunks[0].body) == Ok(next)
    requires ParseChunks(b, after, next) == Interpret(rest, next)
    ensures ParseChunks(b, off, out) == Interpret(chunks, out)
  {
    ParseOk(b, off, after, chunks[0].id, chunks[0].body, out, next);
    InterpretOk(chunks, rest, out, next);
  }

  lemma InterpretOk(chunks: seq<Chunk>, rest: seq<Chunk>, out: Fields, next: Fields)
    requires chunks != [] && rest == chunks[1..] && TakeChunk(out, chunks[0].id, chunks[0].body) == Ok(next)
    ensures Interpret(chunks, out) == Interpret(rest, next)
  {
  }

  lemma ErrStep(b: Bytes, off: nat, chunks: seq<Chunk>, out: Fields)
    requires chunks != [] && ReadsAt(b, off, chunks[0].id, chunks[0].body)
    requires TakeChunk(out, chunks[0].id, chunks[0].body).Err?
    ensures ParseChunks(b, off, out) == Interpret(chunks, out)
  {
    ParseErr(b, off, chunks[0].id, chunks[0].body, out);
  }

  lemma Reassociate(x: Bytes, y: Bytes, z: Bytes, w: Bytes)
    ensures x + y + z + w == x + (y + (z + w))
  {
  }

  lemma SerializedSplit(chunks: seq<Chunk>, tail: Bytes)
    requires WellFormed(chunks) && |chunks| > 1
    ensures |chunks[0].body| < MAX32
    ensures Serialized(chunks) + tail
         == ChunkBytes(chunks[0]) + (Pad(|chunks[0].body|) + (Serialized(chunks[1..]) + tail))
  {
    Reassociate(ChunkBytes(chunks[0]), Pad(|chunks[0].body|), Serialized(chunks[1..]), tail);
  }

  /** The first chunk of a list is read as it was written. */
  lemma ReadFirst(b: Bytes, off: nat, chunks: seq<Chunk>, tail: Bytes)
    requires WellFormed(chunks) && chunks != []
    requires off <= |b| && b[off..] == Serialized(chunks) + tail
    ensures var c := chunks[0];
      var after := off + 8 + |c.body|;
      && after <= |b| && ReadsAt(b, off, c.id, c.body)
      && if |chunks| == 1 then b[after..] == tail
         else after + |c.body| % 2 <= |b| && b[after + |c.body| % 2..] == Serialized(chunks[1..]) + tail
  {
    var c := chunks[0];
    if |chunks| == 1 {
      ReadChunk(b, off, c, tail);
    } else {
      SerializedSplit(chunks, tail);
      ReadPadded(b, off, c, Serialized(chunks[1..]) + tail);
    }
  }

  lemma ReadPadded(b: Bytes, off: nat, c: Chunk, rest: Bytes)
    requires |c.id| == 4 && |c.body| < MAX32
    requires off <= |b| && b[off..] == ChunkBytes(c) + (Pad(|c.body|) + rest)
    ensures ReadsAt(b, off, c.id, c.body)
    ensures var after := off + 8 + |c.body| + |c.body| % 2; after <= |b| && b[after..] == rest
  {
    ReadChunk(b, off, c, Pad(|c.body|) + rest);
    SkipPad(b, off + 8 + |c.body|, |c.body|, rest);
  }

  lemma NothingLeft(b: Bytes, off: nat, none: seq<Chunk>, out: Fields)
    requires off + 8 > |b| && none == []
    ensures ParseChunks(b, off, out) == Interpret(none, out)
  {
  }

  lemma {:induction false} ReadChunks(b: Bytes, off: nat, chunks: seq<Chunk>, tail: Bytes, out: Fields)
    requires WellFormed(chunks) && |tail| < 8
    requires off <= |b| && b[off..] == Serialized(chunks) + tail
    ensures ParseChunks(b, off, out) == Interpret(chunks, out)
    decreases |chunks|
  {
    if chunks == [] {
      NothingLeft(b, off, chunks, out);
    } else {
      var c := chunks[0];
      var take, after := TakeChunk(out, c.id, c.body), off + 8 + |c.body| + |c.body| % 2;
      ReadFirst(b, off, chunks, tail);
      if take.Err? {
        ErrStep(b, off, chunks, out);
      } else {
        var rest, next := chunks[1..], take.value;
        if |chunks| == 1 {
          NothingLeft(b, after, rest, next);
        } else {
          ReadChunks(b, after, rest, tail, next);
        }
        OkStep(b, off, after, chunks, rest, out, next);
      }
    }
  }

  /** For every list of chunks, whatever their names, and up to 7 bytes after them: parsing the file they
      make gives what the chunks mean. */
  lemma ParseSerialized(size: U32, chunks: seq<Chunk>, tail: Bytes)
    requires WellFormed(chunks) && |tail| < 8
    ensures Parsed(RiffHeader(size) + Serialized(chunks) + tail) == Conclude(Interpret(chunks, NOTHING))
  {
    var b := RiffHeader(size) + Serialized(chunks) + tail;
    assert b[0..4] == RIFF && b[8..12] == WAVE;
    assert b[12..] == Serialized(chunks) + tail;
    ReadChunks(b, 12, chunks, tail, NOTHING);
  }

  // ----- encoding -----

  /** Products and sums in the source's unsigned widths. */
  function ByteRate(numChannels: U16, sampleRate: U32, bitsPerSample: U16): U32 {
    sampleRate * numChannels % MAX32 * (bitsPerSample / 8) % MAX32
  }

  function BlockAlign(numChannels: U16, bitsPerSample: U16): U16 {
    numChannels * (bitsPerSample / 8) % MAX16
  }

  function FmtBody(numChannels: U16, sampleRate: U32, bitsPerSample: U16): (r: Bytes)
    ensures |r| == 16
  {
    Le16(1) + Le16(numChannels) + Le32(sampleRate) + Le32(ByteRate(numChannels, sampleRate, bitsPerSample))
    + Le16(BlockAlign(numChannels, bitsPerSample)) + Le16(bitsPerSample)
  }

  /** The 44-byte header, whose sizes are those of the data modulo 2^32, and the data. */
  function Encoded(pcm: Bytes, numChannels: U16, sampleRate: U32, bitsPerSample: U16): Bytes {
    RiffHeader((36 + |pcm|) % MAX32) + (FMT + Le32(16) + FmtBody(numChannels, sampleRate, bitsPerSample))
    + (DATA + Le32(|pcm| % MAX32)) + pcm
  }

  lemma FmtFields(numChannels: U16, sampleRate: U32, bitsPerSample: U16)
    ensures var body := FmtBody(numChannels, sampleRate, bitsPerSample);
      && Get16(body, 0) == 1 && Get16(body, 2) == numChannels && Get32(body, 4) == sampleRate
      && Get16(body, 14) == bitsPerSample
  {
    var body := FmtBody(numChannels, sampleRate, bitsPerSample);
    assert body[0..2] == Le16(1) && body[2..4] == Le16(numChannels);
    assert body[4..8] == Le32(sampleRate) && body[14..16] == Le16(bitsPerSample);
    Get16Of(body, 0, 1);
    Get16Of(body, 2, numChannels);
    Get32Of(body, 4, sampleRate);
    Get16Of(body, 14, bitsPerSample);
  }

  function FmtChunk(numChannels: U16, sampleRate: U32, bitsPerSample: U16): Chunk {
    Chunk(FMT, FmtBody(numChannels, sampleRate, bitsPerSample))
  }

  lemma TwoChunks(f: Chunk, d: Chunk, header: Bytes)
    requires WellFormed([f, d]) && |f.body| < MAX32 && |d.body| < MAX32 && |f.body| % 2 == 0
    ensures header + (f.id + Le32(|f.body|) + f.body) + (d.id + Le32(|d.body|)) + d.body
         == header + Serialized([f, d]) + []
  {
    assert [f, d][1..] == [d];
    var x, y, z := f.id + Le32(|f.body|) + f.body, d.id + Le32(|d.body|), d.body;
    assert Serialized([f, d]) == x + [] + (y + z);
    assert header + x + y + z == header + (x + [] + (y + z)) + [];
  }

  /** While the data's length fits its field, the file is two chunks. */
  lemma EncodedChunks(pcm: Bytes, numChannels: U16, sampleRate: U32, bitsPerSample: U16)
    requires |pcm| < MAX32
    ensures var chunks := [FmtChunk(numChannels, sampleRate, bitsPerSample), Chunk(DATA, pcm)];
      && WellFormed(chunks)
      && Encoded(pcm, numChannels, sampleRate, bitsPerSample)
         == RiffHeader((36 + |pcm|) % MAX32) + Serialized(chunks) + []
  {
    FmtThenData(FmtBody(numChannels, sampleRate, bitsPerSample), pcm, RiffHeader((36 + |pcm|) % MAX32));
  }

  lemma FmtThenData(body: Bytes, pcm: Bytes, header: Bytes)
    requires |body| == 16 && |pcm| < MAX32
    ensures var chunks := [Chunk(FMT, body), Chunk(DATA, pcm)];
      && WellFormed(chunks)
      && header + (FMT + Le32(16) + body) + (DATA + Le32(|pcm| % MAX32)) + pcm == header + Serialized(chunks) + []
  {
    assert |pcm| % MAX32 == |pcm|;
    assert WellFormed([Chunk(FMT, body), Chunk(DATA, pcm)]);
    TwoChunks(Chunk(FMT, body), Chunk(DATA, pcm), header);
  }

  lemma InterpretTwo(pcm: Bytes, numChannels: U16, sampleRate: U32, bitsPerSample: U16)
    ensures Interpret([FmtChunk(numChannels, sampleRate, bitsPerSample), Chunk(DATA, pcm)], NOTHING)
         == Ok(Fields(Some(pcm), numChannels, sampleRate, bitsPerSample))
  {
    var f, d := FmtChunk(numChannels, sampleRate, bitsPerSample), Chunk(DATA, pcm);
    FmtFields(numChannels, sampleRate, bitsPerSample);
    var out := Fields(None, numChannels, sampleRate, bitsPerSample);
    assert TakeChunk(NOTHING, f.id, f.body) == Ok(out);
    assert [f, d][1..] == [d] && [d][1..] == [];
    assert Interpret([d], out) == Interpret([], out.(data := Some(pcm)));
  }

  /** No parsed data is as long as 2^32 bytes. */
  lemma {:induction false} DataIsShort(b: Bytes, off: nat, out: Fields)
    requires out.data.Some? ==> |out.data.value| < MAX32
    ensures var r := ParseChunks(b, off, out); r.Ok? && r.value.data.Some? ==> |r.value.data.value| < MAX32
    decreases |b| - off
  {
    if off + 8 <= |b| {
      var size := Get32(b, off + 4);
      var body := BodyAt(b, off);
      if body.Ok? {
        assert |body.value| <= size;
        var next := TakeChunk(out, b[off..off + 4], body.value);
        if next.Ok? {
          DataIsShort(b, off + 8 + size + size % 2, next.value);
        }
      }
    }
  }

  lemma ParsedIsShort(b: Bytes)
    ensures Parsed(b).Ok? ==> |Parsed(b).value.data| < MAX32
  {
    DataIsShort(b, 12, NOTHING);
  }

  /** For all data and format fields: what Encode writes, Parse reads back, exactly when the fields are not
      zero and the data is shorter than 2^32 bytes. */
  lemma EncodeRoundTripIff(pcm: Bytes, numChannels: U16, sampleRate: U32, bitsPerSample: U16)
    ensures Parsed(Encoded(pcm, numChannels, sampleRate, bitsPerSample))
         == Ok(Pcm(pcm, numChannels, sampleRate, bitsPerSample))
        <==> numChannels != 0 && sampleRate != 0 && bitsPerSample != 0 && |pcm| < MAX32
  {
    ParsedIsShort(Encoded(pcm, numChannels, sampleRate, bitsPerSample));
    if |pcm| < MAX32 {
      EncodedChunks(pcm, numChannels, sampleRate, bitsPerSample);
      InterpretTwo(pcm, numChannels, sampleRate, bitsPerSample);
      ParseSerialized((36 + |pcm|) % MAX32,
                      [FmtChunk(numChannels, sampleRate, bitsPerSample), Chunk(DATA, pcm)], []);
    }
  }

  // ----- the program's buffer writes -----

  method PutBytes(buf: array<Byte>, off: nat, s: Bytes)
    requires off + |s| <= buf.Length
    modifies buf
    ensures buf[off..off + |s|] == s
    ensures buf[..off] == old(buf[..off])
  {
    forall i | 0 <= i < |s| {
      buf[off + i] := s[i];
    }
  }

  /** Writing right after what is done extends it. */
  method PutNext(buf: array<Byte>, off: nat, s: Bytes, ghost done: Bytes)
    requires off + |s| <= buf.Length && buf[..off] == done
    modifies buf
    ensures buf[..off + |s|] == done + s
  {
    PutBytes(buf, off, s);
    assert buf[..off + |s|] == buf[..off] + buf[off..off + |s|];
  }

  method PutRiff(buf: array<Byte>, size: U32)
    requires buf.Length >= 12
    modifies buf
    ensures buf[..12] == RiffHeader(size)
  {
    PutNext(buf, 0, RIFF, []);
    PutNext(buf, 4, Le32(size), [] + RIFF);
    PutNext(buf, 8, WAVE, [] + RIFF + Le32(size));
    assert [] + RIFF + Le32(size) + WAVE == RiffHeader(size);
  }

  method PutFmt(buf: array<Byte>, numChannels: U16, sampleRate: U32, bitsPerSample: U16, ghost done: Bytes)
    requires buf.Length >= 36 && buf[..12] == done
    modifies buf
    ensures buf[..36] == done + (FMT + Le32(16) + FmtBody(numChannels, sampleRate, bitsPerSample))
  {
    var bytesPerSample := bitsPerSample / 8;
    var byteRate := sampleRate * numChannels % MAX32 * bytesPerSample % MAX32;
    var blockAlign := numChannels * bytesPerSample % MAX16;
    PutNext(buf, 12, FMT, done);
    ghost var d1 := done + FMT;
    PutNext(buf, 16, Le32(16), d1);
    ghost var d2 := d1 + Le32(16);
    PutNext(buf, 20, Le16(1), d2);
    ghost var d3 := d2 + Le16(1);
    PutNext(buf, 22, Le16(numChannels), d3);
    ghost var d4 := d3 + Le16(numChannels);
    PutNext(buf, 24, Le32(sampleRate), d4);
    ghost var d5 := d4 + Le32(sampleRate);
    PutNext(buf, 28, Le32(byteRate), d5);
    ghost var d6 := d5 + Le32(byteRate);
    PutNext(buf, 32, Le16(blockAlign), d6);
    ghost var d7 := d6 + Le16(blockAlign);
    PutNext(buf, 34, Le16(bitsPerSample), d7);
    FmtPieces(done, FMT, Le32(16), Le16(1), Le16(numChannels), Le32(sampleRate), Le32(byteRate), Le16(blockAlign),
              Le16(bitsPerSample));
  }

  lemma FmtPieces(p: Bytes, a: Bytes, b: Bytes, c: Bytes, d: Bytes, e: Bytes, f: Bytes, g: Bytes, h: Bytes)
    ensures p + a + b + c + d + e + f + g + h == p + (a + b + (c + d + e + f + g + h))
  {
  }

  lemma DataPieces(p: Bytes, a: Bytes, b: Bytes, c: Bytes)
    ensures p + a + b + c == p + (a + b) + c
  {
  }

  method Encode(pcm: Bytes, numChannels: U16, sampleRate: U32, bitsPerSample: U16) returns (wav: Bytes)
    ensures wav == Encoded(pcm, numChannels, sampleRate, bitsPerSample)
  {
    var dataSize := |pcm| % MAX32;
    var out := new Byte[44 + |pcm|](_ => 0);
    var size := (36 + dataSize) % MAX32;
    assert size == (36 + |pcm|) % MAX32;
    PutRiff(out, size);
    PutFmt(out, numChannels, sampleRate, bitsPerSample, RiffHeader(size));
    ghost var done := out[..36];
    PutNext(out, 36, DATA, done);
    PutNext(out, 40, Le32(dataSize), done + DATA);
    PutNext(out, 44, pcm, done + DATA + Le32(dataSize));
    DataPieces(done, DATA, Le32(dataSize), pcm);
    wav := out[..];
    assert wav == out[..44 + |pcm|];
  }
}

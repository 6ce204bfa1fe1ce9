/**
 What the WAV functions mean byte by byte: the header that Encode writes, and what Parse makes of a file of chunks,
 whole or cut off.
 */
module WavFiles {
  import opened Wav
  import opened Wrappers

  // ----- numbers and names in bytes -----

  /** The number that bytes stand for, the least significant first. */
  function Number(s: Bytes): nat {
    if s == [] then 0 else s[0] as int + 256 * Number(s[1..])
  }

  function Ascii(s: string): Bytes
    requires forall i :: 0 <= i < |s| ==> s[i] as int < 256
  {
    seq(|s|, i requires 0 <= i < |s| => s[i] as int)
  }

  lemma Number2(s: Bytes)
    requires |s| == 2
    ensures Number(s) == s[0] as int + 256 * (s[1] as int)
  {
    assert s[1..][1..] == [];
    assert Number(s[1..]) == s[1] as int;
  }

  lemma Number4(s: Bytes)
    requires |s| == 4
    ensures Number(s) == s[0] as int + 256 * (s[1] as int) + 65536 * (s[2] as int) + 16777216 * (s[3] as int)
  {
    assert s[1..][1..] == s[2..];
    Number2(s[2..]);
  }

  lemma Get16IsNumber(b: Bytes, off: nat)
    requires off + 2 <= |b|
    ensures Get16(b, off) == Number(b[off..off + 2])
  {
    Number2(b[off..off + 2]);
  }

  lemma Get32IsNumber(b: Bytes, off: nat)
    requires off + 4 <= |b|
    ensures Get32(b, off) == Number(b[off..off + 4])
  {
    Number4(b[off..off + 4]);
  }

  lemma LeIsNumber(x: U16, y: U32)
    ensures Number(Le16(x)) == x && Number(Le32(y)) == y
  {
    Number2(Le16(x));
    Number4(Le32(y));
  }

  lemma Names()
    ensures RIFF == Ascii("RIFF") && WAVE == Ascii("WAVE") && FMT == Ascii("fmt ") && DATA == Ascii("data")
  {
  }

  // ----- the header -----

  lemma ModIs(x: nat, m: nat, q: nat, r: nat)
    requires 0 < m && x == q * m + r && r < m
    ensures x % m == r
  {
    var q', r' := x / m, x % m;
    assert x == q' * m + r';
    if q < q' {
      Scale(q + 1, q', m);
    } else if q' < q {
      Scale(q' + 1, q, m);
    }
  }

  lemma Scale(a: nat, b: nat, m: nat)
    requires a <= b
    ensures a * m <= b * m
  {
    assert b * m == a * m + (b - a) * m;
  }

  /** Wrapping a factor first changes nothing. */
  lemma WrapTwice(a: nat, b: nat, m: nat)
    requires 0 < m
    ensures a % m * b % m == a * b % m
  {
    var q, r := a / m, a % m;
    var p, s := r * b / m, r * b % m;
    Distribute(q, m, r, b, p, s);
    ModIs(a * b, m, q * b + p, s);
  }

  lemma Distribute(q: nat, m: nat, r: nat, b: nat, p: nat, s: nat)
    requires r * b == p * m + s
    ensures (q * m + r) * b == (q * b + p) * m + s
  {
    assert q * m * b == q * b * m;
    assert (q * m + r) * b == q * m * b + r * b;
    assert (q * b + p) * m == q * b * m + p * m;
  }

  /** The 44 bytes in front of the data, field by field; sizes and rates are those of the source modulo their widths. */
  lemma HeaderSays(pcm: Bytes, channels: U16, rate: U32, bits: U16)
    ensures var w := Encoded(pcm, channels, rate, bits);
            && |w| == 44 + |pcm| && w[44..] == pcm
            && w[0..4] == Ascii("RIFF") && w[8..12] == Ascii("WAVE")
            && w[12..16] == Ascii("fmt ") && w[36..40] == Ascii("data")
            && Number(w[4..8]) == (36 + |pcm|) % 0x1_0000_0000 && Number(w[40..44]) == |pcm| % 0x1_0000_0000
            && Number(w[16..20]) == 16 && Number(w[20..22]) == 1
            && Number(w[22..24]) == channels && Number(w[24..28]) == rate && Number(w[34..36]) == bits
            && Number(w[28..32]) == rate * channels * (bits / 8) % 0x1_0000_0000
            && Number(w[32..34]) == channels * (bits / 8) % 0x1_0000
  {
    var w, body := Encoded(pcm, channels, rate, bits), FmtBody(channels, rate, bits);
    Layout(RiffHeader((36 + |pcm|) % MAX32), body, Le32(|pcm| % MAX32), pcm);
    assert w[4..8] == RiffHeader((36 + |pcm|) % MAX32)[4..8] == Le32((36 + |pcm|) % MAX32);
    assert w[8..12] == WAVE && w[0..4] == RIFF;
    Names();
    BodySays(channels, rate, bits);
    BodySlices(w, body);
    LeIsNumber(1, (36 + |pcm|) % MAX32);
    LeIsNumber(1, |pcm| % MAX32);
    LeIsNumber(1, 16);
  }

  lemma Layout(header: Bytes, body: Bytes, size: Bytes, pcm: Bytes)
    requires |header| == 12 && |body| == 16 && |size| == 4
    ensures var w := header + (FMT + Le32(16) + body) + (DATA + size) + pcm;
            && |w| == 44 + |pcm| && w[..12] == header && w[44..] == pcm
            && w[12..16] == FMT && w[16..20] == Le32(16) && w[20..36] == body && w[36..40] == DATA && w[40..44] == size
  {
  }

  lemma BodySays(channels: U16, rate: U32, bits: U16)
    ensures var body := FmtBody(channels, rate, bits);
            && Number(body[0..2]) == 1 && Number(body[2..4]) == channels && Number(body[4..8]) == rate
            && Number(body[8..12]) == rate * channels * (bits / 8) % 0x1_0000_0000
            && Number(body[12..14]) == channels * (bits / 8) % 0x1_0000 && Number(body[14..16]) == bits
  {
    var byteRate, blockAlign := ByteRate(channels, rate, bits), BlockAlign(channels, bits);
    RatesSay(channels, rate, bits);
    SixParts(Le16(1), Le16(channels), Le32(rate), Le32(byteRate), Le16(blockAlign), Le16(bits));
    LeIsNumber(1, rate);
    LeIsNumber(channels, byteRate);
    LeIsNumber(blockAlign, 0);
    LeIsNumber(bits, 0);
  }

  lemma RatesSay(channels: U16, rate: U32, bits: U16)
    ensures ByteRate(channels, rate, bits) == rate * channels * (bits / 8) % 0x1_0000_0000
    ensures BlockAlign(channels, bits) == channels * (bits / 8) % 0x1_0000
  {
    WrapTwice(rate * channels, bits / 8, MAX32);
  }

  lemma SixParts(a: Bytes, b: Bytes, c: Bytes, d: Bytes, e: Bytes, f: Bytes)
    requires |a| == |b| == |e| == |f| == 2 && |c| == |d| == 4
    ensures var body := a + b + c + d + e + f;
            && body[0..2] == a && body[2..4] == b && body[4..8] == c
            && body[8..12] == d && body[12..14] == e && body[14..16] == f
  {
  }

  lemma BodySlices(w: Bytes, body: Bytes)
    requires |w| >= 36 && |body| == 16 && w[20..36] == body
    ensures w[20..22] == body[0..2] && w[22..24] == body[2..4] && w[24..28] == body[4..8]
    ensures w[28..32] == body[8..12] && w[32..34] == body[12..14] && w[34..36] == body[14..16]
  {
    Inside(w, 20, 36, 0, 2);
    Inside(w, 20, 36, 2, 4);
    Inside(w, 20, 36, 4, 8);
    Inside(w, 20, 36, 8, 12);
    Inside(w, 20, 36, 12, 14);
    Inside(w, 20, 36, 14, 16);
  }

  lemma Inside(w: Bytes, low: nat, high: nat, i: nat, j: nat)
    requires low + j <= high <= |w| && i <= j
    ensures w[low..high][i..j] == w[low + i..low + j]
  {
    var x, y := w[low..high][i..j], w[low + i..low + j];
    assert |x| == |y|;
    forall k | 0 <= k < |x| ensures x[k] == y[k] {
    }
  }

  // ----- what chunks mean -----

  /** A fmt chunk holds a whole PCM format; other chunks are always fine. */
  predicate IsFine(c: Chunk) {
    c.id == Ascii("fmt ") ==> |c.body| >= 16 && Number(c.body[0..2]) == 1
  }

  /** What is wrong with a fmt chunk. */
  predicate FmtFault(c: Chunk, error: ParseError) {
    if |c.body| < 16 then error == FmtTooShort else error.NotPcm? && error.format == Number(c.body[0..2])
  }

  /** The k-th chunk is the first fmt chunk that is not fine. */
  ghost predicate FirstBad(chunks: seq<Chunk>, k: nat) {
    k < |chunks| && !IsFine(chunks[k]) && forall i :: 0 <= i < k ==> IsFine(chunks[i])
  }

  /** The k-th chunk is the last with that name. */
  ghost predicate IsLast(chunks: seq<Chunk>, id: Bytes, k: nat) {
    k < |chunks| && chunks[k].id == id && forall i :: k < i < |chunks| ==> chunks[i].id != id
  }

  ghost predicate Absent(chunks: seq<Chunk>, id: Bytes) {
    forall i :: 0 <= i < |chunks| ==> chunks[i].id != id
  }

  ghost predicate DataIs(chunks: seq<Chunk>, was: Option<Bytes>, data: Option<Bytes>) {
    && (forall k: nat :: IsLast(chunks, Ascii("data"), k) ==> data == Some(chunks[k].body))
    && (Absent(chunks, Ascii("data")) ==> data == was)
  }

  predicate FormatIn(body: Bytes, out: Fields) {
    && |body| >= 16
    && out.numChannels == Number(body[2..4]) && out.sampleRate == Number(body[4..8])
    && out.bitsPerSample == Number(body[14..16])
  }

  predicate SameFormat(a: Fields, b: Fields) {
    a.numChannels == b.numChannels && a.sampleRate == b.sampleRate && a.bitsPerSample == b.bitsPerSample
  }

  ghost predicate FormatIs(chunks: seq<Chunk>, was: Fields, out: Fields) {
    && (forall k: nat :: IsLast(chunks, Ascii("fmt "), k) ==> FormatIn(chunks[k].body, out))
    && (Absent(chunks, Ascii("fmt ")) ==> SameFormat(out, was))
  }

  lemma TakeSays(out: Fields, c: Chunk)
    ensures var r := TakeChunk(out, c.id, c.body);
            && (r.Ok? <==> IsFine(c))
            && (r.Err? ==> FmtFault(c, r.error))
            && (r.Ok? && c.id == Ascii("fmt ") ==> FormatIn(c.body, r.value) && r.value.data == out.data)
            && (r.Ok? && c.id == Ascii("data") ==> r.value.data == Some(c.body) && SameFormat(r.value, out))
            && (r.Ok? && c.id != Ascii("fmt ") && c.id != Ascii("data") ==> r.value == out)
  {
    Names();
    if |c.body| >= 16 {
      Get16IsNumber(c.body, 0);
      Get16IsNumber(c.body, 2);
      Get32IsNumber(c.body, 4);
      Get16IsNumber(c.body, 14);
    }
  }

  lemma LastLater(chunks: seq<Chunk>, id: Bytes, k: nat)
    requires chunks != []
    ensures IsLast(chunks, id, k + 1) <==> IsLast(chunks[1..], id, k)
    ensures IsLast(chunks, id, 0) <==> chunks[0].id == id && Absent(chunks[1..], id)
    ensures Absent(chunks, id) <==> chunks[0].id != id && Absent(chunks[1..], id)
  {
    var rest := chunks[1..];
    assert forall i :: 0 <= i < |rest| ==> rest[i] == chunks[i + 1];
    assert forall i :: 0 < i < |chunks| ==> chunks[i] == rest[i - 1];
  }

  lemma DataStep(chunks: seq<Chunk>, was: Option<Bytes>, mid: Option<Bytes>, data: Option<Bytes>)
    requires chunks != [] && DataIs(chunks[1..], mid, data)
    requires mid == if chunks[0].id == Ascii("data") then Some(chunks[0].body) else was
    ensures DataIs(chunks, was, data)
  {
    LastLater(chunks, Ascii("data"), 0);
    forall k: nat | IsLast(chunks, Ascii("data"), k) ensures data == Some(chunks[k].body) {
      if k > 0 {
        LastLater(chunks, Ascii("data"), k - 1);
      }
    }
  }

  lemma FormatStep(chunks: seq<Chunk>, was: Fields, mid: Fields, out: Fields)
    requires chunks != [] && FormatIs(chunks[1..], mid, out)
    requires if chunks[0].id == Ascii("fmt ") then FormatIn(chunks[0].body, mid) else SameFormat(mid, was)
    ensures FormatIs(chunks, was, out)
  {
    LastLater(chunks, Ascii("fmt "), 0);
    forall k: nat | IsLast(chunks, Ascii("fmt "), k) ensures FormatIn(chunks[k].body, out) {
      if k > 0 {
        LastLater(chunks, Ascii("fmt "), k - 1);
      }
    }
  }

  /** When all fmt chunks are fine, the last data chunk and the last fmt chunk are what is read. */
  lemma {:induction false} FineChunks(chunks: seq<Chunk>, out: Fields)
    requires forall i :: 0 <= i < |chunks| ==> IsFine(chunks[i])
    ensures var r := Interpret(chunks, out);
            r.Ok? && DataIs(chunks, out.data, r.value.data) && FormatIs(chunks, out, r.value)
    decreases |chunks|
  {
    if chunks != [] {
      TakeSays(out, chunks[0]);
      var next := TakeChunk(out, chunks[0].id, chunks[0].body).value;
      FineChunks(chunks[1..], next);
      var r := Interpret(chunks[1..], next).value;
      DifferentNames();
      DataStep(chunks, out.data, next.data, r.data);
      FormatStep(chunks, out, next, r);
    }
  }

  lemma DifferentNames()
    ensures Ascii("fmt ") != Ascii("data")
  {
    Names();
  }

  /** The first fmt chunk that is not fine decides. */
  lemma {:induction false} FirstBadChunk(chunks: seq<Chunk>, out: Fields, k: nat)
    requires FirstBad(chunks, k)
    ensures Interpret(chunks, out).Err? && FmtFault(chunks[k], Interpret(chunks, out).error)
    decreases k
  {
    TakeSays(out, chunks[0]);
    if k > 0 {
      FirstBadChunk(chunks[1..], TakeChunk(out, chunks[0].id, chunks[0].body).value, k - 1);
    }
  }

  // ----- whole files -----

  /** What is not a WAV file, and why: too short for a header, or another name at its head. */
  lemma NotAWavFile(b: Bytes)
    ensures |b| < 12 ==> Parsed(b) == Err(TooShort)
    ensures |b| >= 12 && b[0..4] != Ascii("RIFF") ==> Parsed(b) == Err(NotRiff)
    ensures |b| >= 12 && b[0..4] == Ascii("RIFF") && b[8..12] != Ascii("WAVE") ==> Parsed(b) == Err(NotWave)
    ensures Parsed(b).Ok? ==> |b| >= 20
  {
    Names();
  }

  /** The audio of a file: the last data chunk, in the format of the last fmt chunk, none of whose numbers is zero. */
  ghost predicate IsAudio(chunks: seq<Chunk>, pcm: Pcm) {
    exists d: nat, f: nat ::
      && IsLast(chunks, Ascii("data"), d) && IsLast(chunks, Ascii("fmt "), f)
      && pcm.data == chunks[d].body
      && FormatIn(chunks[f].body, Fields(None, pcm.numChannels, pcm.sampleRate, pcm.bitsPerSample))
      && pcm.numChannels != 0 && pcm.sampleRate != 0 && pcm.bitsPerSample != 0
  }

  lemma {:induction false} SomeLast(chunks: seq<Chunk>, id: Bytes) returns (k: nat)
    requires !Absent(chunks, id)
    ensures IsLast(chunks, id, k)
    decreases |chunks|
  {
    LastLater(chunks, id, 0);
    if Absent(chunks[1..], id) {
      k := 0;
    } else {
      var j := SomeLast(chunks[1..], id);
      LastLater(chunks, id, j);
      k := j + 1;
    }
  }

  /** For every list of chunks: the file is read as audio exactly when every fmt chunk is fine and there is audio in
      it; otherwise the first fmt chunk that is not fine, then missing data, then a missing or zero format is the
      error. */
  lemma FileSays(size: U32, chunks: seq<Chunk>, tail: Bytes)
    requires WellFormed(chunks) && |tail| < 8
    ensures var r := Parsed(RiffHeader(size) + Serialized(chunks) + tail);
            && (forall k: nat :: FirstBad(chunks, k) ==> r.Err? && FmtFault(chunks[k], r.error))
            && ((forall i :: 0 <= i < |chunks| ==> IsFine(chunks[i])) ==> Reads(chunks, r))
  {
    ParseSerialized(size, chunks, tail);
    ChunksSay(chunks, Conclude(Interpret(chunks, NOTHING)));
  }

  /** The result is the audio, or the error that says what is missing. */
  ghost predicate Reads(chunks: seq<Chunk>, r: Result<Pcm, ParseError>) {
    && (r.Ok? ==> IsAudio(chunks, r.value))
    && (r.Err? ==> r.error == if Absent(chunks, Ascii("data")) then NoData else NoFmt)
    && (forall pcm :: IsAudio(chunks, pcm) ==> r == Ok(pcm))
  }

  lemma ChunksSay(chunks: seq<Chunk>, r: Result<Pcm, ParseError>)
    requires r == Conclude(Interpret(chunks, NOTHING))
    ensures forall k: nat :: FirstBad(chunks, k) ==> r.Err? && FmtFault(chunks[k], r.error)
    ensures (forall i :: 0 <= i < |chunks| ==> IsFine(chunks[i])) ==> Reads(chunks, r)
  {
    forall k: nat | FirstBad(chunks, k) ensures r.Err? && FmtFault(chunks[k], r.error) {
      FirstBadChunk(chunks, NOTHING, k);
    }
    if forall i :: 0 <= i < |chunks| ==> IsFine(chunks[i]) {
      FineChunks(chunks, NOTHING);
      FinishedSays(chunks, Interpret(chunks, NOTHING).value);
    }
  }

  lemma FinishedSays(chunks: seq<Chunk>, out: Fields)
    requires DataIs(chunks, None, out.data) && FormatIs(chunks, NOTHING, out)
    ensures Reads(chunks, Finished(out))
  {
    if !Absent(chunks, Ascii("data")) {
      var d := SomeLast(chunks, Ascii("data"));
      if !Absent(chunks, Ascii("fmt ")) {
        var f := SomeLast(chunks, Ascii("fmt "));
        AudioOf(chunks, out, d, f);
      } else {
        NoAudio(chunks);
      }
    } else {
      NoAudio(chunks);
    }
  }

  lemma NoAudio(chunks: seq<Chunk>)
    requires Absent(chunks, Ascii("data")) || Absent(chunks, Ascii("fmt "))
    ensures forall pcm :: !IsAudio(chunks, pcm)
  {
  }

  lemma LastUnique(chunks: seq<Chunk>, id: Bytes, j: nat, k: nat)
    requires IsLast(chunks, id, j) && IsLast(chunks, id, k)
    ensures j == k
  {
  }

  lemma AudioOf(chunks: seq<Chunk>, out: Fields, d: nat, f: nat)
    requires IsLast(chunks, Ascii("data"), d) && IsLast(chunks, Ascii("fmt "), f)
    requires out.data == Some(chunks[d].body) && FormatIn(chunks[f].body, out)
    ensures Finished(out).Ok? ==> IsAudio(chunks, Finished(out).value)
    ensures Finished(out).Err? ==> Finished(out).error == NoFmt
    ensures forall pcm :: IsAudio(chunks, pcm) ==> Finished(out) == Ok(pcm)
  {
    forall pcm | IsAudio(chunks, pcm) ensures Finished(out) == Ok(pcm) {
      var d': nat, f': nat :|
        && IsLast(chunks, Ascii("data"), d') && IsLast(chunks, Ascii("fmt "), f')
        && pcm.data == chunks[d'].body
        && FormatIn(chunks[f'].body, Fields(None, pcm.numChannels, pcm.sampleRate, pcm.bitsPerSample))
        && pcm.numChannels != 0 && pcm.sampleRate != 0 && pcm.bitsPerSample != 0;
      LastUnique(chunks, Ascii("data"), d, d');
      LastUnique(chunks, Ascii("fmt "), f, f');
    }
  }

  // ----- files that are cut off -----

  /** Chunks with their pad bytes, so that another chunk can follow. */
  function Padded(chunks: seq<Chunk>): Bytes
    requires WellFormed(chunks)
  {
    if chunks == [] then [] else ChunkBytes(chunks[0]) + Pad(|chunks[0].body|) + Padded(chunks[1..])
  }

  /** The walk over whole chunks gives what they mean and goes on behind them. */
  lemma {:induction false} WalkOver(b: Bytes, off: nat, end: nat, chunks: seq<Chunk>, rest: Bytes, out: Fields)
    requires WellFormed(chunks) && off <= |b| && b[off..] == Padded(chunks) + rest && end == off + |Padded(chunks)|
    ensures WalksTo(ParseChunks(b, off, out), b, end, Interpret(chunks, out))
    decreases |chunks|
  {
    if chunks == [] {
      WalkNone(b, off, out, chunks);
    } else {
      var c, take := chunks[0], TakeChunk(out, chunks[0].id, chunks[0].body);
      ReadFront(b, off, chunks, rest);
      if take.Ok? {
        var after := off + 8 + |c.body| + |c.body| % 2;
        WalkOver(b, after, end, chunks[1..], rest, take.value);
        WalkOk(b, off, after, end, chunks, chunks[1..], out, take.value);
      } else {
        WalkErr(b, off, end, chunks, out);
      }
    }
  }

  /** A walk that goes on at off with what has been read, or has ended with the error. */
  predicate WalksTo(walk: Result<Fields, ParseError>, b: Bytes, off: nat, read: Result<Fields, ParseError>) {
    walk == if read.Ok? then ParseChunks(b, off, read.value) else read
  }

  lemma WalkNone(b: Bytes, off: nat, out: Fields, none: seq<Chunk>)
    requires none == []
    ensures WalksTo(ParseChunks(b, off, out), b, off, Interpret(none, out))
  {
  }

  lemma ReadFront(b: Bytes, off: nat, chunks: seq<Chunk>, rest: Bytes)
    requires WellFormed(chunks) && chunks != [] && off <= |b| && b[off..] == Padded(chunks) + rest
    ensures ReadsAt(b, off, chunks[0].id, chunks[0].body)
    ensures var after := off + 8 + |chunks[0].body| + |chunks[0].body| % 2;
            && after <= |b| && b[after..] == Padded(chunks[1..]) + rest
            && off + |Padded(chunks)| == after + |Padded(chunks[1..])|
  {
    var c := chunks[0];
    Reassociate(ChunkBytes(c), Pad(|c.body|), Padded(chunks[1..]), rest);
    ReadPadded(b, off, c, Padded(chunks[1..]) + rest);
  }

  lemma WalkOk(b: Bytes, off: nat, after: nat, end: nat, chunks: seq<Chunk>, rest: seq<Chunk>, out: Fields,
               next: Fields)
    requires chunks != [] && rest == chunks[1..] && ReadsAt(b, off, chunks[0].id, chunks[0].body)
    requires after == off + 8 + |chunks[0].body| + |chunks[0].body| % 2
    requires TakeChunk(out, chunks[0].id, chunks[0].body) == Ok(next)
    requires WalksTo(ParseChunks(b, after, next), b, end, Interpret(rest, next))
    ensures WalksTo(ParseChunks(b, off, out), b, end, Interpret(chunks, out))
  {
    ParseOk(b, off, after, chunks[0].id, chunks[0].body, out, next);
    InterpretOk(chunks, rest, out, next);
  }

  lemma WalkErr(b: Bytes, off: nat, end: nat, chunks: seq<Chunk>, out: Fields)
    requires chunks != [] && ReadsAt(b, off, chunks[0].id, chunks[0].body)
    requires TakeChunk(out, chunks[0].id, chunks[0].body).Err?
    ensures WalksTo(ParseChunks(b, off, out), b, end, Interpret(chunks, out))
  {
    ParseErr(b, off, chunks[0].id, chunks[0].body, out);
  }

  /** A file whose last chunk promises more than the file holds: data that has begun is taken as far as it goes,
      data that has not is an error, and so is any other chunk. Earlier chunks are read first. */
  lemma CutOffFile(size: U32, chunks: seq<Chunk>, id: Bytes, promised: U32, part: Bytes)
    requires WellFormed(chunks) && |id| == 4 && |part| < promised
    ensures var r := Parsed(RiffHeader(size) + Padded(chunks) + (id + Le32(promised) + part));
            var whole := Interpret(chunks, NOTHING);
            && (whole.Err? ==> r == Err(whole.error))
            && (whole.Ok? && id != Ascii("data") ==> r == Err(ChunkTruncated(id)))
            && (whole.Ok? && id == Ascii("data") && part == [] ==> r == Err(DataMissing))
            && (whole.Ok? && id == Ascii("data") && part != [] ==> r == Finished(whole.value.(data := Some(part))))
  {
    var rest := id + Le32(promised) + part;
    var b := RiffHeader(size) + Padded(chunks) + rest;
    FileStarts(RiffHeader(size), Padded(chunks), rest, size);
    var end := 12 + |Padded(chunks)|;
    WalkOver(b, 12, end, chunks, rest, NOTHING);
    if Interpret(chunks, NOTHING).Ok? {
      CutOffChunk(b, end, id, promised, part, Interpret(chunks, NOTHING).value);
    }
  }

  lemma FileStarts(header: Bytes, front: Bytes, rest: Bytes, size: U32)
    requires header == RiffHeader(size)
    ensures var b := header + front + rest;
            && |b| >= 12 && Parsed(b) == Conclude(ParseChunks(b, 12, NOTHING))
            && b[12..] == front + rest && b[12 + |front|..] == rest
  {
    var b := header + front + rest;
    assert b[0..4] == RIFF && b[8..12] == WAVE;
  }

  lemma CutOffChunk(b: Bytes, off: nat, id: Bytes, promised: U32, part: Bytes, out: Fields)
    requires |id| == 4 && |part| < promised && off <= |b| && b[off..] == id + Le32(promised) + part
    ensures var r := ParseChunks(b, off, out);
            && (id != Ascii("data") ==> r == Err(ChunkTruncated(id)))
            && (id == Ascii("data") && part == [] ==> r == Err(DataMissing))
            && (id == Ascii("data") && part != [] ==> r == Ok(out.(data := Some(part))))
  {
    Names();
    var s := b[off..];
    assert s[0..4] == id && s[4..8] == Le32(promised) && s[8..] == part;
    assert b[off..off + 4] == id && b[off + 4..off + 8] == Le32(promised) && b[off + 8..] == part;
    Get32Of(b, off + 4, promised);
    if id == DATA && part != [] {
      assert TakeChunk(out, id, part) == Ok(out.(data := Some(part)));
      assert off + 8 + promised + promised % 2 + 8 > |b|;
    }
  }
}

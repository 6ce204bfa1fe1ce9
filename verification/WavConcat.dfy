/**
 Concatenating PCM audio (pkg/audio/wav/wav.go, ConcatPCMs and Concat): same format, no resampling.
 */
module WavConcat {
  import opened Wav
  import opened Wrappers

  datatype ConcatError = NoParts | PartFailed(index: nat, error: ParseError) | NilPart(index: nat)
    | Incompatible(index: nat)

  predicate SameFormat(p: Pcm, q: Pcm) {
    p.numChannels == q.numChannels && p.sampleRate == q.sampleRate && p.bitsPerSample == q.bitsPerSample
  }

  predicate Fits(parts: seq<Option<Pcm>>, i: nat)
    requires i < |parts| && parts[0].Some?
  {
    parts[i].Some? && SameFormat(parts[i].value, parts[0].value)
  }

  function Joined(parts: seq<Option<Pcm>>): Bytes {
    if parts == [] then []
    else
      var last := parts[|parts| - 1];
      Joined(parts[..|parts| - 1]) + (if last.Some? then last.value.data else [])
  }

  /** The data one after the other in the first part's format; or the first part that does not fit. */
  method ConcatPCMs(parts: seq<Option<Pcm>>) returns (r: Result<(Bytes, Pcm), ConcatError>)
    requires parts != [] ==> parts[0].Some?
    ensures parts == [] ==> r == Err(NoParts)
    ensures parts != [] ==> (r.Ok? <==> forall i :: 0 <= i < |parts| ==> Fits(parts, i))
    ensures parts != [] && r.Ok? ==>
      var pcm := parts[0].value.(data := Joined(parts));
      r.value == (Encoded(pcm.data, pcm.numChannels, pcm.sampleRate, pcm.bitsPerSample), pcm)
    ensures parts != [] && r.Err? ==>
      && (r.error.NilPart? || r.error.Incompatible?)
      && r.error.index < |parts| && !Fits(parts, r.error.index) && (r.error.NilPart? <==> parts[r.error.index].None?)
      && forall i :: 0 <= i < r.error.index ==> Fits(parts, i)
  {
    if |parts| == 0 {
      return Err(NoParts);
    }
    var head := parts[0].value;
    for i := 1 to |parts|
      invariant forall k :: 0 <= k < i ==> Fits(parts, k)
    {
      if parts[i].None? {
        assert !Fits(parts, i);
        return Err(NilPart(i));
      }
      var p := parts[i].value;
      if p.numChannels != head.numChannels || p.sampleRate != head.sampleRate || p.bitsPerSample != head.bitsPerSample {
        assert !Fits(parts, i);
        return Err(Incompatible(i));
      }
    }
    var merged: Bytes := [];
    for i := 0 to |parts|
      invariant merged == Joined(parts[..i])
    {
      assert parts[..i + 1][..i] == parts[..i];
      assert Fits(parts, i);
      merged := merged + parts[i].value.data;
    }
    assert parts[..|parts|] == parts;
    var wav := Encode(merged, head.numChannels, head.sampleRate, head.bitsPerSample);
    r := Ok((wav, Pcm(merged, head.numChannels, head.sampleRate, head.bitsPerSample)));
  }

  // ----- files -----

  ghost predicate ParseTo(files: seq<Bytes>, pcms: seq<Pcm>) {
    |files| == |pcms| && forall i :: 0 <= i < |files| ==> Parsed(files[i]) == Ok(pcms[i])
  }

  predicate Compatible(pcms: seq<Pcm>) {
    pcms != [] && forall i :: 0 <= i < |pcms| ==> SameFormat(pcms[i], pcms[0])
  }

  function AllData(pcms: seq<Pcm>): Bytes {
    if pcms == [] then [] else AllData(pcms[..|pcms| - 1]) + pcms[|pcms| - 1].data
  }

  function WithData(p: Pcm, data: Bytes): Bytes {
    Encoded(data, p.numChannels, p.sampleRate, p.bitsPerSample)
  }

  /** The file of all the data, in the first part's format. */
  function Concatenated(pcms: seq<Pcm>): Bytes
    requires pcms != []
  {
    WithData(pcms[0], AllData(pcms))
  }

  function Somes(pcms: seq<Pcm>): (r: seq<Option<Pcm>>)
    ensures |r| == |pcms|
  {
    seq(|pcms|, i requires 0 <= i < |pcms| => Some(pcms[i]))
  }

  lemma {:induction false} JoinedSomes(pcms: seq<Pcm>)
    ensures Joined(Somes(pcms)) == AllData(pcms)
    decreases |pcms|
  {
    if pcms != [] {
      JoinedSomes(pcms[..|pcms| - 1]);
      assert Somes(pcms)[..|pcms| - 1] == Somes(pcms[..|pcms| - 1]);
    }
  }

  /** Every file parses and the parts are concatenated, or the first file that does not parse is named. */
  method Concat(files: seq<Bytes>) returns (r: Result<Bytes, ConcatError>, ghost pcms: seq<Pcm>)
    ensures (forall i :: 0 <= i < |files| ==> Parsed(files[i]).Ok?) <==> ParseTo(files, pcms)
    ensures r.Ok? <==> ParseTo(files, pcms) && Compatible(pcms)
    ensures r.Ok? ==> r.value == Concatenated(pcms)
    ensures files == [] ==> r == Err(NoParts)
    ensures files != [] && ParseTo(files, pcms) && r.Err? ==> r.error.Incompatible?
    ensures !ParseTo(files, pcms) ==>
      && r.Err? && r.error.PartFailed? && r.error.index < |files|
      && Parsed(files[r.error.index]) == Err(r.error.error)
      && forall i :: 0 <= i < r.error.index ==> Parsed(files[i]).Ok?
  {
    pcms := [];
    if |files| == 0 {
      return Err(NoParts), pcms;
    }
    var parts: seq<Pcm> := [];
    for i := 0 to |files|
      invariant ParseTo(files[..i], parts)
    {
      var pcm := Parse(files[i]);
      if pcm.Err? {
        FirstFailure(files, parts, i, pcm.error);
        return Err(PartFailed(i, pcm.error)), parts;
      }
      parts := parts + [pcm.value];
    }
    assert files[..|files|] == files;
    pcms := parts;
    r := ConcatParsed(parts);
  }

  lemma FirstFailure(files: seq<Bytes>, parts: seq<Pcm>, i: nat, e: ParseError)
    requires i < |files| && ParseTo(files[..i], parts) && Parsed(files[i]) == Err(e)
    ensures !ParseTo(files, parts) && forall k :: 0 <= k < i ==> Parsed(files[k]).Ok?
  {
    forall k | 0 <= k < i ensures Parsed(files[k]).Ok? {
      assert Parsed(files[..i][k]) == Ok(parts[k]);
    }
  }

  method ConcatParsed(pcms: seq<Pcm>) returns (r: Result<Bytes, ConcatError>)
    requires pcms != []
    ensures r.Ok? <==> Compatible(pcms)
    ensures r.Ok? ==> r.value == Concatenated(pcms)
    ensures r.Err? ==> r.error.Incompatible?
  {
    var out := ConcatPCMs(Somes(pcms));
    JoinedSomes(pcms);
    assert forall i :: 0 <= i < |pcms| ==> (Fits(Somes(pcms), i) <==> SameFormat(pcms[i], pcms[0]));
    if out.Err? {
      return Err(out.error);
    }
    r := Ok(out.value.0);
  }

  lemma ParsedHasFormat(b: Bytes)
    requires Parsed(b).Ok?
    ensures var p := Parsed(b).value; p.numChannels != 0 && p.sampleRate != 0 && p.bitsPerSample != 0
  {
  }

  /** For all files that parse: the concatenation parses to all their data in their format, exactly when
      it is shorter than 2^32 bytes. */
  lemma ConcatParsesIff(files: seq<Bytes>, pcms: seq<Pcm>)
    requires ParseTo(files, pcms) && Compatible(pcms)
    ensures Parsed(Concatenated(pcms)) == Ok(Whole(pcms)) <==> |AllData(pcms)| < MAX32
  {
    var head := pcms[0];
    assert Parsed(files[0]) == Ok(head);
    ParsedHasFormat(files[0]);
    EncodeRoundTripIff(AllData(pcms), head.numChannels, head.sampleRate, head.bitsPerSample);
  }

  /** Files are concatenated exactly if channels, rate and width of each are those of the result. */
  lemma ConcatFormatIff(files: seq<Bytes>, pcms: seq<Pcm>)
    requires ParseTo(files, pcms) && pcms != [] && |AllData(pcms)| < MAX32
    ensures var whole := Parsed(Concatenated(pcms));
            && whole.Ok?
            && (Compatible(pcms) <==>
                  forall i :: 0 <= i < |files| ==>
                    && pcms[i].numChannels == whole.value.numChannels && pcms[i].sampleRate == whole.value.sampleRate
                    && pcms[i].bitsPerSample == whole.value.bitsPerSample)
  {
    var head := pcms[0];
    assert Parsed(files[0]) == Ok(head);
    ParsedHasFormat(files[0]);
    EncodeRoundTripIff(AllData(pcms), head.numChannels, head.sampleRate, head.bitsPerSample);
  }

  lemma {:induction false} AllDataConcat(a: seq<Pcm>, b: seq<Pcm>)
    ensures AllData(a + b) == AllData(a) + AllData(b)
    decreases |b|
  {
    if b == [] {
      assert a + b == a;
    } else {
      AllDataConcat(a, b[..|b| - 1]);
      assert (a + b)[..|a + b| - 1] == a + b[..|b| - 1];
      Regroup(AllData(a), AllData(b[..|b| - 1]), b[|b| - 1].data);
    }
  }

  lemma Regroup(x: Bytes, y: Bytes, z: Bytes)
    ensures x + (y + z) == x + y + z
  {
  }

  lemma AllDataTwo(x: Pcm, y: Pcm)
    ensures AllData([x, y]) == x.data + y.data
  {
    AllDataConcat([x], [y]);
    assert [x] + [y] == [x, y];
    assert [x][..0] == [] && [y][..0] == [];
  }

  lemma ParseBoth(a: seq<Bytes>, b: seq<Bytes>, pa: seq<Pcm>, pb: seq<Pcm>)
    requires ParseTo(a, pa) && ParseTo(b, pb)
    ensures ParseTo(a + b, pa + pb)
  {
  }

  lemma CompatibleBoth(pa: seq<Pcm>, pb: seq<Pcm>)
    requires Compatible(pa) && Compatible(pb) && SameFormat(pa[0], pb[0])
    ensures Compatible(pa + pb)
  {
  }

  /** One part with all the data of several. */
  function Whole(pcms: seq<Pcm>): Pcm
    requires pcms != []
  {
    pcms[0].(data := AllData(pcms))
  }

  lemma WholesConcatenate(pa: seq<Pcm>, pb: seq<Pcm>)
    requires pa != [] && pb != []
    ensures Concatenated([Whole(pa), Whole(pb)]) == Concatenated(pa + pb)
  {
    AllDataConcat(pa, pb);
    AllDataTwo(Whole(pa), Whole(pb));
  }

  /** Concatenating two concatenations is concatenating everything. */
  lemma ConcatAssociates(a: seq<Bytes>, b: seq<Bytes>, pa: seq<Pcm>, pb: seq<Pcm>)
    requires ParseTo(a, pa) && ParseTo(b, pb) && Compatible(pa) && Compatible(pb) && SameFormat(pa[0], pb[0])
    requires |AllData(pa)| < MAX32 && |AllData(pb)| < MAX32
    ensures ParseTo(a + b, pa + pb) && Compatible(pa + pb)
    ensures ParseTo([Concatenated(pa), Concatenated(pb)], [Whole(pa), Whole(pb)]) && Compatible([Whole(pa), Whole(pb)])
    ensures Concatenated([Whole(pa), Whole(pb)]) == Concatenated(pa + pb)
  {
    ParseBoth(a, b, pa, pb);
    CompatibleBoth(pa, pb);
    WholesParse(a, b, pa, pb);
    WholesConcatenate(pa, pb);
  }

  /** Two concatenations are files that parse to their wholes, in one format. */
  lemma WholesParse(a: seq<Bytes>, b: seq<Bytes>, pa: seq<Pcm>, pb: seq<Pcm>)
    requires ParseTo(a, pa) && ParseTo(b, pb) && Compatible(pa) && Compatible(pb) && SameFormat(pa[0], pb[0])
    requires |AllData(pa)| < MAX32 && |AllData(pb)| < MAX32
    ensures ParseTo([Concatenated(pa), Concatenated(pb)], [Whole(pa), Whole(pb)]) && Compatible([Whole(pa), Whole(pb)])
  {
    ConcatParsesIff(a, pa);
    ConcatParsesIff(b, pb);
    ParseTwo(Concatenated(pa), Concatenated(pb), Whole(pa), Whole(pb));
  }

  lemma ParseTwo(x: Bytes, y: Bytes, p: Pcm, q: Pcm)
    requires Parsed(x) == Ok(p) && Parsed(y) == Ok(q) && SameFormat(p, q)
    ensures ParseTo([x, y], [p, q]) && Compatible([p, q])
  {
  }
}

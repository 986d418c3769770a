/** The canonical minimal RIFF/WAVE layout: a 44-byte header (RIFF chunk
    descriptor, a 16-byte `fmt ` chunk, the `data` chunk header) followed
    directly by the PCM payload. ParseWavData reads it at fixed offsets;
    AddWavHeader writes it. */
module Wav {
  import opened Bytes
  import opened Wrappers

  const HeaderSize: nat := 44

  /** The ASCII tags of the layout: "RIFF", "WAVE", "fmt " and "data". */
  const RiffTag: seq<uint8> := [0x52, 0x49, 0x46, 0x46]
  const WaveTag: seq<uint8> := [0x57, 0x41, 0x56, 0x45]
  const FmtTag: seq<uint8> := [0x66, 0x6D, 0x74, 0x20]
  const DataTag: seq<uint8> := [0x64, 0x61, 0x74, 0x61]

  /** What ParseWavData hands back through its out-parameters on success. */
  datatype WavPcm = WavPcm(pcm: seq<uint8>, numChannels: int32, sampleRate: int32, bitsPerSample: int32)

  /** The three ways ParseWavData returns false. */
  datatype WavError = TruncatedHeader | UnsupportedBitDepth | TruncatedData

  // ---------------------------------------------------------------------
  // Decoding
  // ---------------------------------------------------------------------

  /** The `uint32` comparison in the C++ code, `Num < DataOffset + DataSize`,
      whose right-hand side wraps modulo 2^32 (kept to exhibit the wrap). */
  predicate DataGuardPassesAsWritten(len: nat, dataSize: uint32)
  {
    len % TwoTo32 >= (HeaderSize + dataSize) % TwoTo32
  }

  /** The guard as intended: the buffer holds the whole declared payload. */
  predicate DataGuardPasses(len: nat, dataSize: uint32)
  {
    len >= HeaderSize + dataSize
  }

  /** Decodes a canonical 16-bit PCM WAV buffer; every field is read
      little-endian at its fixed offset. */
  function ParseWavData(wav: seq<uint8>): (r: Result<WavPcm, WavError>)
    ensures r == Err(TruncatedHeader) <==> |wav| < HeaderSize
    ensures r == Err(UnsupportedBitDepth) <==> |wav| >= HeaderSize && U16LE(wav, 34) != 16
    ensures r == Err(TruncatedData) <==>
      |wav| >= HeaderSize && U16LE(wav, 34) == 16 && |wav| < HeaderSize + U32LE(wav, 40)
    ensures r.Ok? ==>
      && r.value.bitsPerSample == 16
      && r.value.numChannels == U16LE(wav, 22)
      && r.value.sampleRate == ToInt32(U32LE(wav, 24))
      && HeaderSize + U32LE(wav, 40) <= |wav|
      && r.value.pcm == wav[HeaderSize..HeaderSize + U32LE(wav, 40)]
  {
    if |wav| < HeaderSize then Err(TruncatedHeader)
    else
      var numChannels := U16LE(wav, 22);
      var sampleRate := ToInt32(U32LE(wav, 24));
      var bitsPerSample := U16LE(wav, 34);
      if bitsPerSample != 16 then Err(UnsupportedBitDepth)
      else
        var dataSize := U32LE(wav, 40);
        if !DataGuardPasses(|wav|, dataSize) then Err(TruncatedData)
        else Ok(WavPcm(wav[HeaderSize..HeaderSize + dataSize], numChannels, sampleRate, bitsPerSample))
  }

  /** A bare 44-byte header declaring 16 bits per sample and 0xFFFFFFFF
      payload bytes. */
  function OversizedDataHeader(): (w: seq<uint8>)
    ensures |w| == HeaderSize
  {
    seq(44, i => if i == 34 then 16 else if i >= 40 then 0xFF else 0)
  }

  /** The wrap of the as-written guard: on the buffer above it lets the
      copy of DataSize bytes from offset 44 go ahead although the buffer
      holds none of them, where the intended guard rejects it. */
  lemma DataGuardWrapsAsWritten()
    ensures var w := OversizedDataHeader();
      && U16LE(w, 34) == 16 && U32LE(w, 40) == 0xFFFF_FFFF
      && DataGuardPassesAsWritten(|w|, U32LE(w, 40))
      && |w| < HeaderSize + U32LE(w, 40)
      && ParseWavData(w) == Err(TruncatedData)
  {
    var w := OversizedDataHeader();
    assert w[34] == 16 && w[35] == 0;
    assert w[40] == 0xFF && w[41] == 0xFF && w[42] == 0xFF && w[43] == 0xFF;
  }

  /** The two guards disagree exactly when 44 + DataSize does not fit in a
      uint32 and the buffer is at least that wrapped sum long. */
  lemma DataGuardsAgreeWithoutWrap(len: nat, dataSize: uint32)
    requires len < TwoTo32
    ensures DataGuardPasses(len, dataSize) ==> DataGuardPassesAsWritten(len, dataSize)
    ensures HeaderSize + dataSize < TwoTo32 ==>
      (DataGuardPassesAsWritten(len, dataSize) <==> DataGuardPasses(len, dataSize))
  {
  }

  /** TArray's range check on `&WavBytes[DataOffset]`, the subscript that
      locates the start of the copy: it admits index 44 only when the
      buffer has more than 44 bytes, whatever DataSize is. */
  predicate CopyStartInRangeAsWritten(len: nat)
  {
    HeaderSize < len
  }

  /** A bare 44-byte header declaring 16 bits per sample and no payload. */
  function EmptyDataHeader(): (w: seq<uint8>)
    ensures |w| == HeaderSize
  {
    seq(44, i => if i == 34 then 16 else 0)
  }

  /** On a header with an empty data chunk both guards pass, yet the
      subscript that locates the copy's start is one past the end; the
      decoder returns the empty PCM buffer a zero-length copy would give. */
  lemma EmptyDataSubscriptsPastEnd()
    ensures var w := EmptyDataHeader();
      && U16LE(w, 34) == 16 && U32LE(w, 40) == 0
      && DataGuardPassesAsWritten(|w|, U32LE(w, 40)) && DataGuardPasses(|w|, U32LE(w, 40))
      && !CopyStartInRangeAsWritten(|w|)
      && ParseWavData(w) == Ok(WavPcm([], 0, 0, 16))
  {
    var w := EmptyDataHeader();
    assert w[22] == 0 && w[23] == 0 && w[24] == 0 && w[25] == 0 && w[26] == 0 && w[27] == 0;
    assert w[34] == 16 && w[35] == 0;
    assert w[40] == 0 && w[41] == 0 && w[42] == 0 && w[43] == 0;
    assert w[HeaderSize..HeaderSize + 0] == [];
  }

  // ---------------------------------------------------------------------
  // Encoding
  // ---------------------------------------------------------------------

  /** The values AddWavHeader stores in the `fmt ` chunk, as the int32 locals
      the C++ code computes before writing them. */
  datatype FmtFields = FmtFields(
    numChannels: int32, sampleRate: int32, byteRate: int32, blockAlign: int32, bitsPerSample: int32)

  /** `SampleRate * NumChannels * BitsPerSample / 8` in int32 arithmetic. */
  function ByteRate(sampleRate: int32, numChannels: int32, bitsPerSample: int32): (r: int32)
    ensures IsInt32(sampleRate * numChannels) && IsInt32(sampleRate * numChannels * bitsPerSample)
            ==> r == CDiv(sampleRate * numChannels * bitsPerSample, 8)
  {
    CDiv(Wrap32(Wrap32(sampleRate * numChannels) * bitsPerSample), 8)
  }

  /** `NumChannels * BitsPerSample / 8` in int32 arithmetic. */
  function BlockAlign(numChannels: int32, bitsPerSample: int32): (r: int32)
    ensures IsInt32(numChannels * bitsPerSample) ==> r == CDiv(numChannels * bitsPerSample, 8)
  {
    CDiv(Wrap32(numChannels * bitsPerSample), 8)
  }

  /** The `fmt ` values AddWavHeader derives from its arguments. */
  function FmtFor(sampleRate: int32, numChannels: int32, bitsPerSample: int32): FmtFields
  {
    FmtFields(numChannels, sampleRate, ByteRate(sampleRate, numChannels, bitsPerSample),
              BlockAlign(numChannels, bitsPerSample), bitsPerSample)
  }

  /** The RIFF chunk descriptor: tag, size of the rest of the file, format. */
  function RiffDescriptor(dataSize: nat): seq<uint8>
    requires HeaderSize + dataSize <= MaxInt32
  {
    RiffTag + LE32(36 + dataSize) + WaveTag
  }

  /** The 16-byte PCM `fmt ` chunk, with its tag and size; each int32 is
      stored through a uint16* or uint32*, keeping its low bits. */
  function FmtChunk(f: FmtFields): seq<uint8>
  {
    FmtTag + LE32(16) + LE16(1)
    + LE16(ToUInt16(f.numChannels)) + LE32(ToUInt32(f.sampleRate))
    + LE32(ToUInt32(f.byteRate)) + LE16(ToUInt16(f.blockAlign))
    + LE16(ToUInt16(f.bitsPerSample))
  }

  /** The header of the `data` chunk. */
  function DataChunkHeader(dataSize: nat): seq<uint8>
    requires dataSize < TwoTo32
  {
    DataTag + LE32(dataSize)
  }

  /** The 44 bytes written in front of `dataSize` PCM bytes. */
  function WavHeader(dataSize: nat, f: FmtFields): seq<uint8>
    requires HeaderSize + dataSize <= MaxInt32
  {
    RiffDescriptor(dataSize) + FmtChunk(f) + DataChunkHeader(dataSize)
  }

  /** A header with the `fmt ` values `f`, followed by `pcm`. */
  function WithHeader(pcm: seq<uint8>, f: FmtFields): seq<uint8>
    requires HeaderSize + |pcm| <= MaxInt32
  {
    WavHeader(|pcm|, f) + pcm
  }

  /** The buffer AddWavHeader leaves in place of `pcm`. */
  function WithWavHeader(pcm: seq<uint8>, sampleRate: int32, numChannels: int32, bitsPerSample: int32): seq<uint8>
    requires HeaderSize + |pcm| <= MaxInt32
  {
    WithHeader(pcm, FmtFor(sampleRate, numChannels, bitsPerSample))
  }

  /** Writes `b` into `a` at `off`, after the already written bytes `done`. */
  method Put(a: array<uint8>, off: nat, b: seq<uint8>, ghost done: seq<uint8>)
    requires off + |b| <= a.Length && |done| == off && a[..off] == done
    modifies a
    ensures a[..off + |b|] == done + b
    ensures a[off + |b|..] == old(a[off + |b|..])
  {
    forall i | 0 <= i < |b| {
      a[off + i] := b[i];
    }
    assert a[..off + |b|] == a[..off] + a[off..off + |b|];
  }

  /** Bytes 0..12: "RIFF", the file size minus 8, "WAVE". */
  method WriteRiffDescriptor(buf: array<uint8>, fileSize: nat)
    requires buf.Length >= HeaderSize && 8 + fileSize <= MaxInt32
    modifies buf
    ensures buf[..12] == RiffTag + LE32(fileSize) + WaveTag
    ensures buf[12..] == old(buf[12..])
  {
    Put(buf, 0, RiffTag, []);
    Put(buf, 4, LE32(fileSize), RiffTag);
    Put(buf, 8, WaveTag, RiffTag + LE32(fileSize));
  }

  /** Bytes 12..36: the `fmt ` chunk, field by field. */
  method WriteFmtChunk(buf: array<uint8>, f: FmtFields, ghost done: seq<uint8>)
    requires buf.Length >= HeaderSize && |done| == 12 && buf[..12] == done
    modifies buf
    ensures buf[..36] == done + FmtChunk(f)
    ensures buf[36..] == old(buf[36..])
  {
    ghost var h := done;
    ghost var tail := buf[36..];
    Put(buf, 12, FmtTag, h);                          h := h + FmtTag;
    assert buf[36..] == tail;
    Put(buf, 16, LE32(16), h);                        h := h + LE32(16);
    assert buf[36..] == tail;
    Put(buf, 20, LE16(1), h);                         h := h + LE16(1);
    assert buf[36..] == tail;
    Put(buf, 22, LE16(ToUInt16(f.numChannels)), h);   h := h + LE16(ToUInt16(f.numChannels));
    assert buf[36..] == tail;
    Put(buf, 24, LE32(ToUInt32(f.sampleRate)), h);    h := h + LE32(ToUInt32(f.sampleRate));
    assert buf[36..] == tail;
    Put(buf, 28, LE32(ToUInt32(f.byteRate)), h);      h := h + LE32(ToUInt32(f.byteRate));
    assert buf[36..] == tail;
    Put(buf, 32, LE16(ToUInt16(f.blockAlign)), h);    h := h + LE16(ToUInt16(f.blockAlign));
    assert buf[36..] == tail;
    Put(buf, 34, LE16(ToUInt16(f.bitsPerSample)), h); h := h + LE16(ToUInt16(f.bitsPerSample));
  }

  /** Replaces a PCM buffer by a fresh buffer of 44 + n bytes: the canonical
      header (zero-initialised, then written field by field) and the PCM. */
  method AddWavHeader(pcm: seq<uint8>, sampleRate: int32, numChannels: int32, bitsPerSample: int32)
    returns (wav: seq<uint8>)
    requires HeaderSize + |pcm| <= MaxInt32
    ensures wav == WithWavHeader(pcm, sampleRate, numChannels, bitsPerSample)
  {
    var dataSize := |pcm|;
    var fmt := FmtFor(sampleRate, numChannels, bitsPerSample);
    var fileSize := 36 + dataSize;
    var buf := new uint8[HeaderSize + dataSize](_ => 0);
    WriteRiffDescriptor(buf, fileSize);
    WriteFmtChunk(buf, fmt, RiffDescriptor(dataSize));
    ghost var h := RiffDescriptor(dataSize) + FmtChunk(fmt);
    Put(buf, 36, DataTag, h);
    Put(buf, 40, LE32(dataSize), h + DataTag);
    h := h + DataTag + LE32(dataSize);
    Put(buf, HeaderSize, pcm, h);
    wav := buf[..];
    assert wav == buf[..HeaderSize + dataSize];
  }

  // ---------------------------------------------------------------------
  // The layout, field by field
  // ---------------------------------------------------------------------

  /** The fields of a canonical file that do not depend on the audio format:
      the four tags, the chunk sizes and the PCM format tag. */
  predicate IsCanonicalLayout(w: seq<uint8>)
  {
    && |w| >= HeaderSize
    && w[0..4] == RiffTag && w[8..12] == WaveTag
    && w[12..16] == FmtTag && w[36..40] == DataTag
    && U32LE(w, 4) == |w| - 8
    && U32LE(w, 16) == 16 && U16LE(w, 20) == 1
    && U32LE(w, 40) == |w| - HeaderSize
  }

  /** The format fields of `w` hold the stored forms of the values in `f`. */
  predicate StoresFmt(w: seq<uint8>, f: FmtFields)
    requires |w| >= HeaderSize
  {
    && U16LE(w, 22) == ToUInt16(f.numChannels)
    && U32LE(w, 24) == ToUInt32(f.sampleRate)
    && U32LE(w, 28) == ToUInt32(f.byteRate)
    && U16LE(w, 32) == ToUInt16(f.blockAlign)
    && U16LE(w, 34) == ToUInt16(f.bitsPerSample)
  }

  /** What AddWavHeader writes, offset by offset: "RIFF", 36 + DataSize,
      "WAVE", "fmt ", 16, 1, channels, sample rate, byte rate, block align,
      bits, "data", DataSize, then the PCM bytes unchanged. */
  lemma HeaderFields(pcm: seq<uint8>, f: FmtFields)
    requires HeaderSize + |pcm| <= MaxInt32
    ensures var w := WithHeader(pcm, f);
      && |w| == HeaderSize + |pcm| && w[HeaderSize..] == pcm
      && IsCanonicalLayout(w) && StoresFmt(w, f)
      && U32LE(w, 4) == 36 + |pcm| && U32LE(w, 40) == |pcm|
  {
    HeaderOuterFields(pcm, f);
    HeaderFmtSizes(pcm, f);
    HeaderFmtValues(pcm, f);
    HeaderFmtRates(pcm, f);
  }

  lemma HeaderOuterFields(pcm: seq<uint8>, f: FmtFields)
    requires HeaderSize + |pcm| <= MaxInt32
    ensures var w := WithHeader(pcm, f);
      && |w| == HeaderSize + |pcm| && w[HeaderSize..] == pcm
      && w[0..4] == RiffTag && w[8..12] == WaveTag
      && w[12..16] == FmtTag && w[36..40] == DataTag
      && U32LE(w, 4) == 36 + |pcm| && U32LE(w, 40) == |pcm|
  {
    var w := WithHeader(pcm, f);
    U32LEAt(w, 4, 36 + |pcm|);
    U32LEAt(w, 40, |pcm|);
  }

  lemma HeaderFmtSizes(pcm: seq<uint8>, f: FmtFields)
    requires HeaderSize + |pcm| <= MaxInt32
    ensures var w := WithHeader(pcm, f);
      |w| >= HeaderSize && U32LE(w, 16) == 16 && U16LE(w, 20) == 1
      && U16LE(w, 34) == ToUInt16(f.bitsPerSample)
  {
    var w := WithHeader(pcm, f);
    U32LEAt(w, 16, 16);
    U16LEAt(w, 20, 1);
    U16LEAt(w, 34, ToUInt16(f.bitsPerSample));
  }

  lemma HeaderFmtValues(pcm: seq<uint8>, f: FmtFields)
    requires HeaderSize + |pcm| <= MaxInt32
    ensures var w := WithHeader(pcm, f);
      |w| >= HeaderSize && U16LE(w, 22) == ToUInt16(f.numChannels)
      && U16LE(w, 32) == ToUInt16(f.blockAlign)
  {
    var w := WithHeader(pcm, f);
    U16LEAt(w, 22, ToUInt16(f.numChannels));
    U16LEAt(w, 32, ToUInt16(f.blockAlign));
  }

  lemma HeaderFmtRates(pcm: seq<uint8>, f: FmtFields)
    requires HeaderSize + |pcm| <= MaxInt32
    ensures var w := WithHeader(pcm, f);
      |w| >= HeaderSize && U32LE(w, 24) == ToUInt32(f.sampleRate)
      && U32LE(w, 28) == ToUInt32(f.byteRate)
  {
    var w := WithHeader(pcm, f);
    U32LEAt(w, 24, ToUInt32(f.sampleRate));
    U32LEAt(w, 28, ToUInt32(f.byteRate));
  }

  /** Conversely, a buffer in the canonical layout that stores `f` is the
      header for `f` followed by everything after byte 44. */
  lemma CanonicalLayoutIsWithHeader(w: seq<uint8>, f: FmtFields)
    requires IsCanonicalLayout(w) && |w| <= MaxInt32 && StoresFmt(w, f)
    ensures WithHeader(w[HeaderSize..], f) == w
  {
    var n := |w| - HeaderSize;
    var r, c, d := w[..12], w[12..36], w[36..44];
    RiffDescriptorOfCanonicalLayout(w);
    FmtChunkOfCanonicalLayout(w, f);
    DataChunkHeaderOfCanonicalLayout(w);
    assert w == r + c + d + w[HeaderSize..];
  }

  lemma RiffDescriptorOfCanonicalLayout(w: seq<uint8>)
    requires IsCanonicalLayout(w) && |w| <= MaxInt32
    ensures w[..12] == RiffDescriptor(|w| - HeaderSize)
  {
    LE32OfU32LE(w, 4);
    assert w[..12] == w[0..4] + w[4..8] + w[8..12];
  }

  lemma DataChunkHeaderOfCanonicalLayout(w: seq<uint8>)
    requires IsCanonicalLayout(w) && |w| <= MaxInt32
    ensures w[36..44] == DataChunkHeader(|w| - HeaderSize)
  {
    LE32OfU32LE(w, 40);
    assert w[36..44] == w[36..40] + w[40..44];
  }

  lemma FmtChunkOfCanonicalLayout(w: seq<uint8>, f: FmtFields)
    requires IsCanonicalLayout(w) && StoresFmt(w, f)
    ensures w[12..36] == FmtChunk(f)
  {
    LE32OfU32LE(w, 16);
    LE16OfU16LE(w, 20);
    LE16OfU16LE(w, 22);
    LE32OfU32LE(w, 24);
    LE32OfU32LE(w, 28);
    LE16OfU16LE(w, 32);
    LE16OfU16LE(w, 34);
    assert w[12..36] == w[12..16] + w[16..20] + w[20..22] + w[22..24]
                      + w[24..28] + w[28..32] + w[32..34] + w[34..36];
  }

  // ---------------------------------------------------------------------
  // Round trips between the decoder and the encoder
  // ---------------------------------------------------------------------

  /** On a buffer in the canonical layout with 16 bits per sample,
      decoding succeeds and yields everything after the header. */
  lemma ParseWavDataOfCanonicalLayout(w: seq<uint8>)
    requires IsCanonicalLayout(w) && U16LE(w, 34) == 16
    ensures ParseWavData(w) == Ok(WavPcm(w[HeaderSize..], U16LE(w, 22), ToInt32(U32LE(w, 24)), 16))
  {
    assert w[HeaderSize..HeaderSize + U32LE(w, 40)] == w[HeaderSize..];
  }

  /** Decoding a buffer AddWavHeader produced gives back its PCM and the
      format it was given (any int32 sample rate survives the uint32 store
      and the int32 reload). */
  lemma ParseWavDataAfterAddWavHeader(pcm: seq<uint8>, sampleRate: int32, numChannels: uint16)
    requires HeaderSize + |pcm| <= MaxInt32
    ensures ParseWavData(WithWavHeader(pcm, sampleRate, numChannels, 16))
         == Ok(WavPcm(pcm, numChannels, sampleRate, 16))
  {
    var f := FmtFor(sampleRate, numChannels, 16);
    ParseWavDataAfterWithHeader(pcm, f);
  }

  lemma ParseWavDataAfterWithHeader(pcm: seq<uint8>, f: FmtFields)
    requires HeaderSize + |pcm| <= MaxInt32
    requires f.bitsPerSample == 16 && 0 <= f.numChannels < TwoTo16
    ensures ParseWavData(WithHeader(pcm, f)) == Ok(WavPcm(pcm, f.numChannels, f.sampleRate, 16))
  {
    HeaderFields(pcm, f);
    ParseWavDataOfStoredFmt(WithHeader(pcm, f), f);
  }

  /** On a canonical buffer that stores `f`, decoding gives back the
      channel count and sample rate of `f`. */
  lemma ParseWavDataOfStoredFmt(w: seq<uint8>, f: FmtFields)
    requires IsCanonicalLayout(w) && StoresFmt(w, f)
    requires f.bitsPerSample == 16 && 0 <= f.numChannels < TwoTo16
    ensures ParseWavData(w) == Ok(WavPcm(w[HeaderSize..], f.numChannels, f.sampleRate, 16))
  {
    ToInt32OfToUInt32(f.sampleRate);
    assert U16LE(w, 22) == f.numChannels;
    assert ToInt32(U32LE(w, 24)) == f.sampleRate;
    ParseWavDataOfCanonicalLayout(w);
  }

  /** A 16-bit PCM file in the canonical layout whose byte rate and block
      align are the ones AddWavHeader derives from its format. */
  predicate IsCanonicalWav(w: seq<uint8>)
  {
    && IsCanonicalLayout(w)
    && U16LE(w, 34) == 16
    && StoresFmt(w, FmtFor(ToInt32(U32LE(w, 24)), U16LE(w, 22), 16))
  }

  /** Decoding a canonical file and writing a header back onto its PCM with
      the decoded format reproduces the file byte for byte. */
  lemma AddWavHeaderAfterParseWavData(w: seq<uint8>)
    requires IsCanonicalWav(w) && |w| <= MaxInt32
    ensures ParseWavData(w).Ok?
    ensures var p := ParseWavData(w).value;
      WithWavHeader(p.pcm, p.sampleRate, p.numChannels, p.bitsPerSample) == w
  {
    ParseWavDataOfCanonicalLayout(w);
    CanonicalLayoutIsWithHeader(w, FmtFor(ToInt32(U32LE(w, 24)), U16LE(w, 22), 16));
  }
}

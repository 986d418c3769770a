/** The conversion of a WAV file into the JSON request body of a speech
    service: decode the file, check its format against the expected one,
    optionally put a header back, Base64 the bytes and lay out the JSON
    object the chosen service expects. */
module AudioJson {
  import opened Bytes
  import opened Wrappers
  import opened Base64
  import opened Wav
  import opened Payload
  import opened Json

  /** The JSON layout to produce. */
  datatype AudioJsonFormat = Generic | GoogleSpeech | Whisper

  /** The object each layout writes around the format and the audio text. */
  function BuildAudioJson(format: AudioJsonFormat, sampleRate: int32, numChannels: int32,
                          bitsPerSample: int32, audio: string): Json
  {
    match format
    case Generic =>
      JObject([
        Member("sampleRate", JNumber(sampleRate)),
        Member("channels", JNumber(numChannels)),
        Member("bitsPerSample", JNumber(bitsPerSample)),
        Member("audio", JString(audio))])
    case GoogleSpeech =>
      JObject([
        Member("config", SpeechConfig(sampleRate, numChannels)),
        Member("audio", JObject([
          Member("content", JString(audio))]))])
    case Whisper =>
      JObject([
        Member("audio", JString(audio)),
        Member("format", JString("pcm_s16le")),
        Member("sample_rate", JNumber(sampleRate)),
        Member("channels", JNumber(numChannels))])
  }

  /** The recognition settings of the Google layout: 16-bit linear PCM,
      US English, automatic punctuation. */
  function SpeechConfig(sampleRate: int32, numChannels: int32): Json
  {
    JObject([
      Member("encoding", JString("LINEAR16")),
      Member("sampleRateHertz", JNumber(sampleRate)),
      Member("languageCode", JString("en-US")),
      Member("audioChannelCount", JNumber(numChannels)),
      Member("enableAutomaticPunctuation", JBool(true))])
  }

  /** The keys of an object's members, in order. */
  function Keys(j: Json): seq<string>
  {
    if j.JObject? then seq(|j.members|, i requires 0 <= i < |j.members| => j.members[i].key) else []
  }

  /** Each layout has exactly the fields its service expects. */
  lemma AudioJsonFields(format: AudioJsonFormat, sampleRate: int32, numChannels: int32,
                        bitsPerSample: int32, audio: string)
    ensures var j := BuildAudioJson(format, sampleRate, numChannels, bitsPerSample, audio);
      && (format == Generic ==> Keys(j) == ["sampleRate", "channels", "bitsPerSample", "audio"])
      && (format == Whisper ==> Keys(j) == ["audio", "format", "sample_rate", "channels"])
      && (format == GoogleSpeech ==>
            && Keys(j) == ["config", "audio"]
            && Keys(j.members[0].value) == ["encoding", "sampleRateHertz", "languageCode",
                                             "audioChannelCount", "enableAutomaticPunctuation"]
            && Keys(j.members[1].value) == ["content"])
  {
  }

  /** The key under which each layout stores the audio text. */
  function AudioKey(format: AudioJsonFormat): string
  {
    if format == GoogleSpeech then "content" else "audio"
  }

  /** The bytes that get encoded: the PCM alone, or the PCM behind a fresh
      44-byte header. */
  function AudioBytes(p: WavPcm, includeWavHeader: bool): seq<uint8>
    requires HeaderSize + |p.pcm| <= MaxInt32
  {
    if includeWavHeader then WithWavHeader(p.pcm, p.sampleRate, p.numChannels, p.bitsPerSample)
    else p.pcm
  }

  /** The Base64 text of the requested kind. */
  function AudioText(bytes: seq<uint8>, kind: Base64EncodingType): string
  {
    if kind == Standard then Encode(bytes) else EncodeUrl(bytes)
  }

  /** The decoder a receiver of the text of the given kind uses. */
  function DecodeAudioText(text: string, kind: Base64EncodingType): Option<seq<uint8>>
  {
    if kind == Standard then Decode(text) else DecodeUrl(text)
  }

  /** The file's format is the expected one. */
  predicate FormatMatches(p: WavPcm, targetSampleRate: int32, targetNumChannels: int32,
                          targetBitsPerSample: int32)
  {
    p.sampleRate == targetSampleRate && p.numChannels == targetNumChannels
    && p.bitsPerSample == targetBitsPerSample
  }

  /** The payload the conversion produces from the file's bytes, or None
      when it fails (and leaves the payload empty). */
  function Convert(wav: seq<uint8>, format: AudioJsonFormat, kind: Base64EncodingType,
                   includeWavHeader: bool, targetSampleRate: int32, targetNumChannels: int32,
                   targetBitsPerSample: int32): (r: Option<Json>)
    requires |wav| <= MaxInt32
    ensures r.Some? <==>
      (ParseWavData(wav).Ok?
       && FormatMatches(ParseWavData(wav).value, targetSampleRate, targetNumChannels, targetBitsPerSample))
  {
    match ParseWavData(wav)
    case Err(_) => None
    case Ok(p) =>
      if !FormatMatches(p, targetSampleRate, targetNumChannels, targetBitsPerSample) then None
      else
        var text := AudioText(AudioBytes(p, includeWavHeader), kind);
        Some(BuildAudioJson(format, p.sampleRate, p.numChannels, p.bitsPerSample, text))
  }

  /** Converts the contents of a WAV file (None when the file is missing or
      cannot be read) into the JSON payload. */
  method ConvertWavToJson(file: Option<seq<uint8>>, format: AudioJsonFormat,
                          kind: Base64EncodingType, includeWavHeader: bool,
                          targetSampleRate: int32, targetNumChannels: int32,
                          targetBitsPerSample: int32)
    returns (ok: bool, payload: Option<Json>)
    requires file.Some? ==> |file.value| <= MaxInt32
    ensures file.None? ==> payload == None
    ensures file.Some? ==> payload == Convert(file.value, format, kind, includeWavHeader,
                                               targetSampleRate, targetNumChannels, targetBitsPerSample)
    ensures ok <==> payload.Some?
  {
    payload := None;
    if file.None? {
      return false, payload;
    }
    var parsed := ParseWavData(file.value);
    if parsed.Err? {
      return false, payload;
    }
    var p := parsed.value;
    if p.sampleRate != targetSampleRate || p.numChannels != targetNumChannels
       || p.bitsPerSample != targetBitsPerSample {
      return false, payload;
    }
    var bytes := p.pcm;
    if includeWavHeader {
      bytes := AddWavHeader(bytes, p.sampleRate, p.numChannels, p.bitsPerSample);
    }
    var text := EncodeBase64(bytes, kind);
    payload := Some(BuildAudioJson(format, p.sampleRate, p.numChannels, p.bitsPerSample, text));
    ok := true;
  }

  // ---------------------------------------------------------------------
  // What the conversion promises.
  // ---------------------------------------------------------------------

  /** The conversion succeeds exactly when the file has a whole 44-byte
      header declaring 16 bits per sample, holds the whole declared
      payload, and declares the expected rate, channel count and depth. */
  lemma ConvertSucceedsIff(wav: seq<uint8>, format: AudioJsonFormat, kind: Base64EncodingType,
                           includeWavHeader: bool, targetSampleRate: int32,
                           targetNumChannels: int32, targetBitsPerSample: int32)
    requires |wav| <= MaxInt32
    ensures Convert(wav, format, kind, includeWavHeader, targetSampleRate, targetNumChannels,
                    targetBitsPerSample).Some?
      <==> && |wav| >= HeaderSize
           && U16LE(wav, 34) == 16
           && HeaderSize + U32LE(wav, 40) <= |wav|
           && ToInt32(U32LE(wav, 24)) == targetSampleRate
           && U16LE(wav, 22) == targetNumChannels
           && targetBitsPerSample == 16
  {
  }

  /** Searching each layout for its audio key finds the audio text and
      nothing else. */
  lemma AudioKeyFindsText(format: AudioJsonFormat, sampleRate: int32, numChannels: int32,
                          bitsPerSample: int32, audio: string)
    ensures Collect(BuildAudioJson(format, sampleRate, numChannels, bitsPerSample, audio),
                    AudioKey(format)) == [audio]
  {
    match format
    case Generic => GenericFindsAudio(sampleRate, numChannels, bitsPerSample, audio);
    case Whisper => WhisperFindsAudio(sampleRate, numChannels, bitsPerSample, audio);
    case GoogleSpeech => GoogleSpeechFindsContent(sampleRate, numChannels, bitsPerSample, audio);
  }

  lemma GenericFindsAudio(sampleRate: int32, numChannels: int32, bitsPerSample: int32, audio: string)
    ensures Collect(BuildAudioJson(Generic, sampleRate, numChannels, bitsPerSample, audio), "audio") == [audio]
  {
    var ms := BuildAudioJson(Generic, sampleRate, numChannels, bitsPerSample, audio).members;
    CollectOfFour(ms[0], ms[1], ms[2], ms[3], "audio");
    assert ms == [ms[0], ms[1], ms[2], ms[3]];
  }

  lemma WhisperFindsAudio(sampleRate: int32, numChannels: int32, bitsPerSample: int32, audio: string)
    ensures Collect(BuildAudioJson(Whisper, sampleRate, numChannels, bitsPerSample, audio), "audio") == [audio]
  {
    var ms := BuildAudioJson(Whisper, sampleRate, numChannels, bitsPerSample, audio).members;
    CollectOfFour(ms[0], ms[1], ms[2], ms[3], "audio");
    assert ms == [ms[0], ms[1], ms[2], ms[3]];
  }

  lemma GoogleSpeechFindsContent(sampleRate: int32, numChannels: int32, bitsPerSample: int32, audio: string)
    ensures Collect(BuildAudioJson(GoogleSpeech, sampleRate, numChannels, bitsPerSample, audio), "content") == [audio]
  {
    var ms := BuildAudioJson(GoogleSpeech, sampleRate, numChannels, bitsPerSample, audio).members;
    SpeechConfigHasNoContent(sampleRate, numChannels);
    var content := ms[1].value.members;
    CollectMembersSnoc([], content[0], "content");
    assert content == [] + [content[0]];
    CollectMembersSnoc([], ms[0], "content");
    CollectMembersSnoc([ms[0]], ms[1], "content");
    assert [ms[0]] == [] + [ms[0]] && ms == [ms[0]] + [ms[1]];
  }

  /** The settings object of the Google layout holds no "content" string. */
  lemma SpeechConfigHasNoContent(sampleRate: int32, numChannels: int32)
    ensures Collect(SpeechConfig(sampleRate, numChannels), "content") == []
  {
    var ms := SpeechConfig(sampleRate, numChannels).members;
    CollectOfFour(ms[0], ms[1], ms[2], ms[3], "content");
    CollectMembersSnoc([ms[0], ms[1], ms[2], ms[3]], ms[4], "content");
    assert ms == [ms[0], ms[1], ms[2], ms[3]] + [ms[4]];
  }

  /** Whatever layout and alphabet are chosen, the receiver gets the
      audio back: the text under the audio key decodes to the encoded
      bytes, and when a header was added, decoding that header yields the
      same PCM and format as the original file. */
  lemma ConvertRoundTrip(wav: seq<uint8>, format: AudioJsonFormat, kind: Base64EncodingType,
                         includeWavHeader: bool, targetSampleRate: int32,
                         targetNumChannels: int32, targetBitsPerSample: int32)
    requires |wav| <= MaxInt32
    requires Convert(wav, format, kind, includeWavHeader, targetSampleRate, targetNumChannels,
                     targetBitsPerSample).Some?
    ensures var j := Convert(wav, format, kind, includeWavHeader, targetSampleRate,
                             targetNumChannels, targetBitsPerSample).value;
      var p := ParseWavData(wav).value;
      var found := Collect(j, AudioKey(format));
      && |found| == 1
      && DecodeAudioText(found[0], kind) == Some(AudioBytes(p, includeWavHeader))
      && (includeWavHeader ==> ParseWavData(AudioBytes(p, true)) == Ok(p))
      && (!includeWavHeader ==> AudioBytes(p, false) == wav[HeaderSize..HeaderSize + U32LE(wav, 40)])
  {
    var p := ParseWavData(wav).value;
    var bytes := AudioBytes(p, includeWavHeader);
    var text := AudioText(bytes, kind);
    AudioKeyFindsText(format, p.sampleRate, p.numChannels, p.bitsPerSample, text);
    if kind == Standard {
      DecodeEncode(bytes);
    } else {
      DecodeUrlEncodeUrl(bytes);
    }
    if includeWavHeader {
      ParseWavDataAfterAddWavHeader(p.pcm, p.sampleRate, p.numChannels);
    }
  }
}

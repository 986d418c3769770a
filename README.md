# BP_FileHelper audio payloads, modelled in Dafny

The Blueprint helper library `UBP_FileHelper` turns a WAV recording into the
JSON body of a speech-to-text request, and pulls string values out of a JSON
response by key. This project models both halves and proves what they
promise.

- **WAV decoding** (`ParseWavData`, module `Wav`). It reads a canonical
  44-byte RIFF/WAVE header at fixed offsets, little-endian. It rejects a
  buffer shorter than the header, a depth other than 16 bits, and a buffer
  that does not hold the declared `data` size. On success it copies out the
  PCM bytes.
- **WAV encoding** (`AddWavHeader`, module `Wav`). It replaces a PCM buffer
  with a fresh buffer: the header is written field by field into a
  zero-filled array, and the PCM is copied behind it. It is modelled as an
  imperative method over an `array`. It is proved equal to the specification
  function `WithWavHeader`, and proved to round-trip with `ParseWavData` in
  both directions.
- **Payload encoding** (`EncodeBase64`, modules `Base64` and `Payload`).
  Standard Base64 comes first. For Base64URL, `+` and `/` are then replaced
  and trailing `=` are chopped off in a loop. The engine's `FBase64::Encode`
  is modelled by the encoder of section 4 of RFC 4648, together with its
  decoder. The URL variant is proved equal to the unpadded encoding over the
  alphabet of section 5 of RFC 4648, and proved to decode back to its input.
- **Request layout** (`ConvertWavToJson`, module `AudioJson`). The chain
  runs: decode the file, compare its format with the expected one, optionally
  add a header again, Base64 the bytes, then build one of three JSON shapes
  (Generic, Google Speech, Whisper). The JSON is produced as a tree, not as
  text.
- **Key search** (`FindJsonValuesRecursive` and `GetJsonStringValuesByKey`,
  module `Json`). This is a recursive walk that appends, in pre-order, every
  string stored under a key. It is an imperative method that mutates a
  caller-owned list. It is proved equal to a recursive specification `Collect`,
  which is in turn proved equal to a reference definition: list every member
  in pre-order, then keep the hits.

The two enumerations of `BP_FileHelper.h` are the datatypes
`AudioJson.AudioJsonFormat` (lines 10-16) and `Payload.Base64EncodingType`
(lines 21-26).

Conventions:
- Bytes are `int` subset types (`uint8`, `uint16`, `uint32`, `int32`).
- Every typed read and write through a `reinterpret_cast` pointer is written
  out as an explicit little-endian codec, `U16LE`/`U32LE` and `LE16`/`LE32`.
- C++ int32 arithmetic (its wrap and its truncating division) is written out
  in `Bytes`.
- Failure is a `Result` or an `Option`. The C++ code reports failure by
  returning `false`; only a success result carries the decoded values.

## Model

| member | source | states |
|---|---|---|
| Bytes.ToInt32 | Source/SpotifyProject/Private/BP_FileHelper.cpp:132 | the sample rate read as a uint32 and assigned to an int32 is the two's-complement reinterpretation: congruent modulo 2^32 and non-negative exactly when below 2^31 |
| Bytes.ToUInt32 | Source/SpotifyProject/Private/BP_FileHelper.cpp:177-190 | an int stored through a `uint32*` keeps its value modulo 2^32 |
| Bytes.ToUInt16 | Source/SpotifyProject/Private/BP_FileHelper.cpp:182-187 | an int stored through a `uint16*` keeps its low 16 bits |
| Bytes.Wrap32 | Source/SpotifyProject/Private/BP_FileHelper.cpp:167-168 | an int32 product is kept modulo 2^32 in the int32 range, and one that fits is unchanged |
| Bytes.CDiv | Source/SpotifyProject/Private/BP_FileHelper.cpp:167-168 | `/ 8` truncates toward zero, for negative operands too |
| Bytes.U16LE | Source/SpotifyProject/Private/BP_FileHelper.cpp:131 | the uint16 a `reinterpret_cast<const uint16*>` read sees at an offset: the low byte first (its inverse is LE16, see LE16OfU16LE) |
| Bytes.U32LE | Source/SpotifyProject/Private/BP_FileHelper.cpp:142 | the uint32 a `reinterpret_cast<const uint32*>` read sees at an offset: four bytes, least significant first (its inverse is LE32, see LE32OfU32LE) |
| Bytes.ToInt32OfToUInt32 | Source/SpotifyProject/Private/BP_FileHelper.cpp:184 | an int32 sample rate stored as a uint32 and read back as an int32 is unchanged |
| Bytes.LE16 | Source/SpotifyProject/Private/BP_FileHelper.cpp:182-187 | the two bytes written for a uint16 field read back as that value |
| Bytes.LE32 | Source/SpotifyProject/Private/BP_FileHelper.cpp:177-190 | the four bytes written for a uint32 field read back as that value |
| Bytes.U32LEAt | Source/SpotifyProject/Private/BP_FileHelper.cpp:142 | a uint32 read at an offset depends only on the four bytes there |
| Bytes.U16LEAt | Source/SpotifyProject/Private/BP_FileHelper.cpp:131-133 | a uint16 read at an offset depends only on the two bytes there |
| Bytes.LE32OfU32LE | Source/SpotifyProject/Private/BP_FileHelper.cpp:142 | writing back a uint32 just read reproduces the four bytes |
| Bytes.LE16OfU16LE | Source/SpotifyProject/Private/BP_FileHelper.cpp:131-133 | writing back a uint16 just read reproduces the two bytes |
| Wav.ParseWavData | Source/SpotifyProject/Private/BP_FileHelper.cpp:118-157 | fails with TruncatedHeader iff fewer than 44 bytes; UnsupportedBitDepth iff the depth field is not 16; TruncatedData iff the buffer is shorter than 44 + DataSize. On success: channels, rate (as int32) and depth are read from offsets 22, 24 and 34, and the PCM is exactly bytes 44 .. 44 + DataSize |
| Wav.DataGuardPasses | Source/SpotifyProject/Private/BP_FileHelper.cpp:144 | the data-size guard as intended: the buffer holds all 44 + DataSize bytes, computed without wrap (DataGuardsAgreeWithoutWrap relates it to the guard as written) |
| Wav.DataGuardWrapsAsWritten | Source/SpotifyProject/Private/BP_FileHelper.cpp:141-147 | on a 44-byte header declaring 16 bits and DataSize 0xFFFFFFFF, the uint32 guard as written passes although the buffer holds none of the payload; the corrected decoder rejects it |
| Wav.DataGuardPassesAsWritten | Source/SpotifyProject/Private/BP_FileHelper.cpp:144 | the guard as the C++ code computes it: `Num` against `44 + DataSize` taken modulo 2^32 |
| Wav.CopyStartInRangeAsWritten | Source/SpotifyProject/Private/BP_FileHelper.cpp:152 | `TArray`'s range check on `&WavBytes[44]`: it admits the subscript only when the buffer is longer than 44 bytes |
| Wav.EmptyDataSubscriptsPastEnd | Source/SpotifyProject/Private/BP_FileHelper.cpp:141-154 | on a 44-byte header declaring 16 bits and an empty data chunk, both guards pass but the subscript at cpp:152 is one past the end; the decoder returns the empty PCM a zero-length copy gives |
| Wav.DataGuardsAgreeWithoutWrap | Source/SpotifyProject/Private/BP_FileHelper.cpp:141-147 | the corrected guard implies the written one, and the two agree whenever 44 + DataSize fits in a uint32 |
| Wav.ByteRate | Source/SpotifyProject/Private/BP_FileHelper.cpp:167 | `SampleRate * NumChannels * BitsPerSample / 8` in int32: when neither product overflows it is the exact product divided by 8, truncated toward zero |
| Wav.BlockAlign | Source/SpotifyProject/Private/BP_FileHelper.cpp:168 | `NumChannels * BitsPerSample / 8` in int32: when the product does not overflow it is the exact product divided by 8, truncated toward zero |
| Wav.Put | Source/SpotifyProject/Private/BP_FileHelper.cpp:176-192 | a copy into the header array leaves the written prefix followed by the copied bytes, and every byte after them unchanged |
| Wav.WriteRiffDescriptor | Source/SpotifyProject/Private/BP_FileHelper.cpp:176-178 | bytes 0..12 become "RIFF", the file size little-endian, "WAVE"; bytes from 12 on are unchanged |
| Wav.WriteFmtChunk | Source/SpotifyProject/Private/BP_FileHelper.cpp:180-187 | bytes 12..36 become the `fmt ` chunk of the given fields, after the unchanged first 12 bytes; bytes from 36 on are unchanged |
| Wav.AddWavHeader | Source/SpotifyProject/Private/BP_FileHelper.cpp:159-195 | the new buffer is exactly the 44-byte header for the format followed by the PCM |
| Wav.FmtFor | Source/SpotifyProject/Private/BP_FileHelper.cpp:166-168 | the `fmt ` values derived from the arguments: channels, rate and depth as given, the int32 byte rate and block align |
| Wav.RiffDescriptor | Source/SpotifyProject/Private/BP_FileHelper.cpp:176-178 | the first 12 header bytes: "RIFF", 36 + DataSize little-endian, "WAVE" |
| Wav.FmtChunk | Source/SpotifyProject/Private/BP_FileHelper.cpp:180-187 | header bytes 12..36: "fmt ", 16, 1, then channels, rate, byte rate, block align and depth, each stored through a uint16 or uint32 |
| Wav.DataChunkHeader | Source/SpotifyProject/Private/BP_FileHelper.cpp:189-190 | header bytes 36..44: "data" and DataSize little-endian |
| Wav.WavHeader | Source/SpotifyProject/Private/BP_FileHelper.cpp:176-190 | the whole 44-byte header: the RIFF descriptor, the `fmt ` chunk and the `data` chunk header in that order |
| Wav.WithHeader | Source/SpotifyProject/Private/BP_FileHelper.cpp:172-192 | a buffer of 44 + n bytes: the header for the given `fmt ` values followed by the PCM (HeaderFields states it offset by offset) |
| Wav.WithWavHeader | Source/SpotifyProject/Private/BP_FileHelper.cpp:159-195 | the buffer AddWavHeader leaves in place of the PCM (ParseWavDataAfterAddWavHeader and AddWavHeaderAfterParseWavData give its round trips with the decoder) |
| Wav.HeaderFields | Source/SpotifyProject/Private/BP_FileHelper.cpp:166-192 | the buffer has length 44 + n, ends in the PCM, carries the four tags, RIFF size 36 + n, fmt size 16, format 1, the stored format fields and data size n |
| Wav.HeaderOuterFields | Source/SpotifyProject/Private/BP_FileHelper.cpp:176-178 | the length, the PCM tail, the RIFF/WAVE tags and the RIFF size of a header-wrapped buffer |
| Wav.HeaderFmtSizes | Source/SpotifyProject/Private/BP_FileHelper.cpp:181-187 | the header stores chunk size 16 at offset 16, format tag 1 at offset 20 and the depth at offset 34 |
| Wav.HeaderFmtValues | Source/SpotifyProject/Private/BP_FileHelper.cpp:183-186 | the header stores the channel count at offset 22 and the block align at offset 32 |
| Wav.HeaderFmtRates | Source/SpotifyProject/Private/BP_FileHelper.cpp:184-185 | the header stores the sample rate at offset 24 and the byte rate at offset 28 |
| Wav.CanonicalLayoutIsWithHeader | Source/SpotifyProject/Private/BP_FileHelper.cpp:166-192 | every buffer in the canonical layout that stores some format fields is the header for those fields followed by its own tail |
| Wav.ParseWavDataOfCanonicalLayout | Source/SpotifyProject/Private/BP_FileHelper.cpp:126-156 | decoding a canonical 16-bit buffer succeeds and yields everything after the header |
| Wav.ParseWavDataOfStoredFmt | Source/SpotifyProject/Private/BP_FileHelper.cpp:131-133 | decoding gives back the channel count and int32 sample rate that were stored |
| Wav.ParseWavDataAfterAddWavHeader | Source/SpotifyProject/Private/BP_FileHelper.cpp:159-195 | decoding what AddWavHeader produced for 16-bit audio returns the same PCM, channels and rate |
| Wav.AddWavHeaderAfterParseWavData | Source/SpotifyProject/Private/BP_FileHelper.cpp:118-157 | decoding a canonical file and adding a header back with the decoded format reproduces the file byte for byte |
| Base64.CharOf | Source/SpotifyProject/Private/BP_FileHelper.cpp:202 | no alphabet character is the pad character |
| Base64.ValueOfCharOf | Source/SpotifyProject/Private/BP_FileHelper.cpp:202 | the alphabet maps each of the 64 values to a character that decodes back to it |
| Base64.CharOfValueOf | Source/SpotifyProject/Private/BP_FileHelper.cpp:202 | each alphabet character is the image of its value |
| Base64.OctetsOfSextets | Source/SpotifyProject/Private/BP_FileHelper.cpp:202 | splitting three bytes into four sextets and joining them again gives the bytes back |
| Base64.SextetsOfOctets | Source/SpotifyProject/Private/BP_FileHelper.cpp:202 | joining four sextets into bytes and splitting them again gives the sextets back |
| Base64.EncodeGroup3 | Source/SpotifyProject/Private/BP_FileHelper.cpp:202 | a full group is four characters without padding |
| Base64.EncodeGroup2 | Source/SpotifyProject/Private/BP_FileHelper.cpp:202 | a final two-byte group is three characters and one `=` |
| Base64.EncodeGroup1 | Source/SpotifyProject/Private/BP_FileHelper.cpp:202 | a final one-byte group is two characters and two `=` |
| Base64.EncodeLength | Source/SpotifyProject/Private/BP_FileHelper.cpp:202 | the encoding of n bytes has 4 * ceil(n / 3) characters |
| Base64.Encode | Source/SpotifyProject/Private/BP_FileHelper.cpp:202 | the padded Base64 text of the bytes, three bytes to four characters, as section 4 of RFC 4648 defines it (DecodeEncode and EncodeDecode make it a bijection onto the decoder's accepted texts) |
| Base64.DecodeEncode | Source/SpotifyProject/Private/BP_FileHelper.cpp:202 | decoding the encoding of any bytes gives them back |
| Base64.EncodeDecode | Source/SpotifyProject/Private/BP_FileHelper.cpp:202 | every text the decoder accepts is the encoding of what it decodes to (the encoding is canonical) |
| Payload.Substitute | Source/SpotifyProject/Private/BP_FileHelper.cpp:206-207 | the replacement keeps the length and replaces exactly the occurrences of one character |
| Payload.UrlAlphabet | Source/SpotifyProject/Private/BP_FileHelper.cpp:206-207 | the two replacements in order: every `+` becomes `-`, then every `/` becomes `_` (UrlOfStandard ties the result to the URL-alphabet encoder) |
| Payload.TrimPadding | Source/SpotifyProject/Private/BP_FileHelper.cpp:208-211 | the result is a prefix that does not end in `=`, and everything chopped off is `=` |
| Payload.TrimPaddingUnique | Source/SpotifyProject/Private/BP_FileHelper.cpp:208-211 | that prefix is the only one with these two properties |
| Payload.TrimPaddingAppend | Source/SpotifyProject/Private/BP_FileHelper.cpp:208-211 | trimming text whose tail does not start with `=` only trims the tail |
| Payload.EncodeUrlLength | Source/SpotifyProject/Private/BP_FileHelper.cpp:204-211 | the URL form of n bytes has ceil(4n / 3) characters |
| Payload.EncodeUrlIsUrlSafe | Source/SpotifyProject/Private/BP_FileHelper.cpp:204-211 | the URL form contains no `+`, `/` or `=` |
| Payload.UrlOfStandard | Source/SpotifyProject/Private/BP_FileHelper.cpp:202-211 | substituting `+`→`-` and `/`→`_` in the standard encoding and trimming the trailing `=` gives the unpadded URL-alphabet encoding |
| Payload.StandardOfEncodeUrl | Source/SpotifyProject/Private/BP_FileHelper.cpp:204-211 | restoring the alphabet and the padding of the URL form gives the standard encoding back |
| Payload.DecodeUrlEncodeUrl | Source/SpotifyProject/Private/BP_FileHelper.cpp:204-211 | re-padding, reversing the substitutions and decoding the URL form recovers the bytes |
| Payload.EncodeBase64 | Source/SpotifyProject/Private/BP_FileHelper.cpp:197-215 | Standard returns the standard encoding unchanged. Base64Url returns the standard encoding with both substitutions and every trailing `=` removed by the loop, which equals the URL-alphabet encoding |
| Json.Collect | Source/SpotifyProject/Private/BP_FileHelper.cpp:227-260 | the search as a recursive specification: for an object, member by member, the member's own string under the key, then what its value holds; for an array, each element in turn; nothing for a scalar (CollectIsPreorderHits relates it to the reference definition) |
| Json.CollectIsPreorderHits | Source/SpotifyProject/Private/BP_FileHelper.cpp:227-260 | the search yields, in order, the string values of the members listed in pre-order whose key matches |
| Json.CollectMembership | Source/SpotifyProject/Private/BP_FileHelper.cpp:227-260 | a string is found iff some member anywhere in the document holds it under the key |
| Json.HitsMembership | Source/SpotifyProject/Private/BP_FileHelper.cpp:235-240 | a string is kept from a member list iff a member with the key holds exactly that string (non-string values are skipped) |
| Json.NestedSearchExample | Source/SpotifyProject/Private/BP_FileHelper.cpp:229-256 | in {"a":{"b":"x","c":[{"b":"y"},{"d":"z"}]}} the key "b" finds ["x","y"] |
| Json.StringList.constructor | Source/SpotifyProject/Private/BP_FileHelper.cpp:269 | the output list starts empty |
| Json.StringList.Add | Source/SpotifyProject/Private/BP_FileHelper.cpp:239 | appending puts the string at the end and keeps the rest |
| Json.FindJsonValuesRecursive | Source/SpotifyProject/Private/BP_FileHelper.cpp:216-261 | appends to the caller's list exactly what the search specification finds, after what the list already held; an invalid value adds nothing |
| Json.GetJsonStringValuesByKey | Source/SpotifyProject/Private/BP_FileHelper.cpp:263-284 | unparsable input gives an empty list; otherwise the list is every string found under the key in pre-order; it reports success iff the list is non-empty |
| AudioJson.BuildAudioJson | Source/SpotifyProject/Private/BP_FileHelper.cpp:73-112 | the object the writer emits for each layout, member by member in writing order (AudioJsonFields and AudioKeyFindsText state its shape and where the audio text sits) |
| AudioJson.SpeechConfig | Source/SpotifyProject/Private/BP_FileHelper.cpp:88-94 | the Google `config` object: encoding LINEAR16, the sample rate, en-US, the channel count, automatic punctuation on |
| AudioJson.FormatMatches | Source/SpotifyProject/Private/BP_FileHelper.cpp:47-49 | the decoded sample rate, channel count and depth all equal the expected ones |
| AudioJson.Convert | Source/SpotifyProject/Private/BP_FileHelper.cpp:41-112 | the conversion as a function of the file's bytes: it yields a payload iff the file decodes and its format matches the expected one |
| AudioJson.AudioBytes | Source/SpotifyProject/Private/BP_FileHelper.cpp:62-66 | the bytes that get encoded: the PCM alone, or with `bIncludeWavHeader` the buffer AddWavHeader builds from it |
| AudioJson.AudioText | Source/SpotifyProject/Private/BP_FileHelper.cpp:68 | the Base64 text of the requested kind: the standard encoding or the unpadded URL-alphabet one (EncodeBase64 is proved to produce it) |
| AudioJson.AudioJsonFields | Source/SpotifyProject/Private/BP_FileHelper.cpp:75-110 | each layout has exactly its service's fields, in the order written |
| AudioJson.SpeechConfigHasNoContent | Source/SpotifyProject/Private/BP_FileHelper.cpp:88-94 | the Google `config` object holds no `content` string |
| AudioJson.AudioKeyFindsText | Source/SpotifyProject/Private/BP_FileHelper.cpp:75-110 | searching each layout for its audio key ("audio", or "content" for Google) finds the encoded audio and nothing else |
| AudioJson.ConvertWavToJson | Source/SpotifyProject/Private/BP_FileHelper.cpp:11-116 | a missing or unreadable file gives no payload; otherwise the payload is the conversion of the file's bytes; the result flag is true iff there is a payload |
| AudioJson.ConvertSucceedsIff | Source/SpotifyProject/Private/BP_FileHelper.cpp:41-60 | the conversion succeeds iff the header is whole, declares 16 bits, the data is whole, and the declared rate, channel count and depth are the expected ones |
| AudioJson.ConvertRoundTrip | Source/SpotifyProject/Private/BP_FileHelper.cpp:62-68 | a successful payload holds one audio string; it decodes, under the chosen alphabet, to the encoded bytes; with a header those bytes decode to the original PCM and format; without one they are exactly the file's data chunk |

## Left out

- File access (`FPaths::FileExists` and `FFileHelper::LoadFileToArray`, cpp:24-34) is left out. The file's contents are a parameter, and None stands for a missing or unreadable file.
- `UE_LOG` diagnostics are left out. Only the boolean result and the outputs are modelled.
- The JSON writer and the JSON parser are left out.
  - The payload is modelled as a JSON tree, not as serialized text, and an emptied payload is None.
  - The parse result is an `Option<Json>` parameter, where None stands for text that does not parse or for an invalid root.
- Wav.ParseWavData: on the depth and truncated-data failures (cpp:135-147) the C++ code has already written the channel count, sample rate and depth into its out-parameters. The model returns only the error: the one caller ignores those values on failure (cpp:41-45).
- The internals of `FBase64::Encode` are replaced by the encoder of section 4 of RFC 4648.
- `UrlEncodeText` (cpp:285-288) forwards to the engine's percent-encoder and has no logic of its own.
- `SpotifyProjectEditor.Target.cs` and the UCLASS/UFUNCTION metadata are build configuration, not behaviour.
- JSON numbers are integers. The search never reads them, and the layouts only write int32 values.
- Object members are kept in the order that `FJsonObject` iterates its map. That order is taken as given.
- Key comparison is exact (`FString::Equals` with its default, case-sensitive comparison).
- Only the root value can be null (None). Null `TSharedPtr` values nested inside a parsed tree cannot come from the parser and are not modelled.
- Wav.ByteRate and Wav.BlockAlign: signed int32 overflow in the products at cpp:167-168 is undefined behaviour in C++. It is modelled as two's-complement wrap-around.
- The little-endian reads and writes assume a little-endian host, as the `reinterpret_cast` code does.
- Wav.AddWavHeader, AudioJson.ConvertWavToJson: these require the buffers to fit an int32 element count (at most 2^31 - 1 bytes), the limit of Unreal's `TArray`.

## Findings

| source | as written | input that shows it | evidently intended | confidence | as-written member | corrected member |
|---|---|---|---|---|---|---|
| Source/SpotifyProject/Private/BP_FileHelper.cpp:144 | the guard compares against the uint32 sum `DataOffset + DataSize`, which wraps modulo 2^32, so for DataSize ≥ 2^32 - 44 a buffer lacking the payload passes; `SetNum(DataSize)` at cpp:149 then receives DataSize converted to int32 (negative for 0xFFFFFFFF), and `Memcpy` at cpp:150-154 would read DataSize bytes from the short buffer | a 44-byte buffer with bits-per-sample 16 at offset 34 and DataSize 0xFFFFFFFF at offset 40 (44 + DataSize wraps to 43, and 44 ≥ 43) | reject any buffer shorter than 44 + DataSize, computed without wrap | high (proved about the model; not executed) | Wav.DataGuardWrapsAsWritten | Wav.ParseWavData |
| Source/SpotifyProject/Private/BP_FileHelper.cpp:152 | `&WavBytes[DataOffset]` subscripts index 44 even when DataSize is 0, and a 44-byte buffer then has no element 44; `TArray`'s range check fails in builds with checks enabled | a 44-byte buffer with bits-per-sample 16 at offset 34 and DataSize 0 at offset 40 | accept the header and return an empty PCM buffer, as a zero-length copy does | medium (proved about the model; not executed) | Wav.EmptyDataSubscriptsPastEnd | Wav.ParseWavData |

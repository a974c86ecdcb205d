# Base64 to Audio Converter — a Dafny model of the converter page

The application is a single React page (`src/pages/home.tsx`). The user pastes base64 text,
which may carry a `data:<mime>;base64,` prefix. The user also picks a container format and can
say that the data is raw PCM. The page then does one of two things:

- It plays the text through an `<audio>` element as a `data:` URI.
- In PCM mode, it decodes the samples, wraps them in a 44-byte RIFF/WAVE header, and plays
  the result from a `blob:` URL.

When a `data:` URI fails to load, the page falls back once to a Blob built from the decoded
bytes. A download button offers the decoded bytes as `audio.<ext>`.

The model covers the page's logic and its React state:

- `bytes.dfy`: the `Wrappers` module (Option, Result) and the `Bytes` module. `Bytes` holds
  bytes, binary strings as `atob` returns them, little-endian integers as a `DataView`
  writes them, and a Blob as its parts plus its type.
- `base64.dfy` (`ForgivingBase64`): `window.atob`, modelled as the forgiving-base64 decode
  of the WHATWG Infra standard over the alphabet of section 4 of RFC 4648. It comes with the
  standard padded encoder as a reference partner and a round-trip proof.
- `payload.dfy` (`Payload`): how the page extracts the base64 text from what was pasted.
  This is `trim()` followed by `split(";base64,")[1]` when the marker is present.
- `decoding.dfy` (`Decoding`): `base64ToArrayBuffer` and `base64ToBlob` as methods with
  their copy loops and the 512-byte slicing loop.
- `wav.dfy` (`Wav`): the `DataView` setters over a byte array, `writeString`,
  `createWAVHeader` and `createWAVBlob`. It also has a WAV reader, the partner that the
  round-trip lemmas are stated against.
- `home.dfy` (`Home`): the page's state as the class `Home.Page`, with these parts:
  - the six `useState` fields;
  - the document's store of live `blob:` URLs;
  - the download URLs waiting for their revocation timer;
  - the handlers and the two effects as methods.

  The invariant `Valid()` says that no URL leaks. The live URLs are exactly the player's
  current `blob:` URL and the pending download URLs. Every handler preserves it.

In the model, React's state setters take effect together with the effect they trigger.
The handlers read only the state they were rendered with, so the final state is the same.

## Model

| member | source | states |
|---|---|---|
| Bytes.LittleEndianRoundTrip | src/pages/home.tsx:78-89 | reading back the `n` little-endian bytes that a setter writes gives the value, when it fits in `n` bytes |
| Bytes.ReadLittleEndianRoundTrip | src/pages/home.tsx:78-89 | every byte string is the little-endian form of the value it reads as, and that value is below 256^n |
| Bytes.CharCodesOfBinaryString | src/pages/home.tsx:38-40 | the char codes of the binary string of `b` are `b` |
| ForgivingBase64.Decode | src/pages/home.tsx:35 | a successful decode is at most 3/4 as long as its input; `DecodeEncode` shows that it inverts the standard encoding, and `DecodeRejectsForeignChar` that any character outside the alphabet, whitespace and '=' makes it fail |
| ForgivingBase64.DecodeGroups | src/pages/home.tsx:35 | every four alphabet characters give three bytes, and a tail of two or three gives one or two |
| ForgivingBase64.Atob | src/pages/home.tsx:35 | `atob` fails exactly when the forgiving-base64 decode fails; otherwise it returns a binary string whose char codes are the decoded bytes |
| ForgivingBase64.DecodeEncode | src/pages/home.tsx:35 | decoding the standard padded encoding of any byte string gives that byte string back |
| ForgivingBase64.AtobOfEncode | src/pages/home.tsx:46 | `atob(btoa(x)) == x` for every binary string |
| ForgivingBase64.DecodeRejectsForeignChar | src/pages/home.tsx:35 | a character outside the alphabet that is neither whitespace nor '=' makes `atob` throw |
| Payload.TrimStartRemovesWhitespacePrefix | src/pages/home.tsx:31 | trimming the start removes a whitespace prefix and nothing else, and the result does not start with whitespace |
| Payload.TrimEndRemovesWhitespaceSuffix | src/pages/home.tsx:31 | trimming the end removes a whitespace suffix and nothing else, and the result does not end with whitespace |
| Payload.BlankIffAllWhitespace | src/pages/home.tsx:111 | `!input.trim()` holds exactly when the input is all whitespace |
| Payload.IndexOf | src/pages/home.tsx:32 | the first occurrence of the marker at or after `from`, or none when it does not occur |
| Payload.SchemePayload | src/pages/home.tsx:31-34 | the text handed to `atob` is never longer than the input and holds no ";base64,"; `SecondPieceBetweenMarkers` pins down the piece after the first marker and `SchemePrefixIgnored` the header case. The same lines recur at src/pages/home.tsx:124-127, src/pages/home.tsx:160-163 and src/pages/home.tsx:200-203 |
| Payload.EndsAtFirstMarkerMeansIndexOf | src/pages/home.tsx:32-33 | no marker starts inside `p` exactly when `(p + ";base64,").indexOf(";base64,")` is `p.length` (both directions) |
| Payload.NoSemicolonPrefix | src/pages/home.tsx:128 | a prefix without ';', such as `data:audio/<format>` when the format has none, ends at its first marker |
| Payload.FirstMarkerAfterTrimmedPrefix | src/pages/home.tsx:31-33 | trimming leading whitespace off a prefix keeps the marker after it the first one |
| Payload.OnlyMiddleMarker | src/pages/home.tsx:32-33 | in `p + ";base64," + s`, with `p` ending at its first marker and no ';' in `s`, `indexOf` finds the marker after `p` and no marker follows it |
| Payload.SecondPieceBetweenMarkers | src/pages/home.tsx:32-34 | `split(";base64,")[1]` is the text right after the first marker, up to the next marker or the end, and it holds no marker |
| Payload.SchemePrefixIgnored | src/pages/home.tsx:31-34 | a header `p + ";base64,"` changes nothing: the page extracts `s` from `p + ";base64," + s` and from `s` alone. `p` may carry parameters such as `;codecs=opus` and leading whitespace, as long as no marker starts inside it; `s` must hold no ';' and neither start nor end with whitespace |
| Payload.PayloadAfterOnlyMarker | src/pages/home.tsx:31-34 | when the input trims to `q + ";base64," + s` and that marker is its only one, the payload is `s` |
| Decoding.Base64ToArrayBuffer | src/pages/home.tsx:30-43 | fails exactly when `atob` fails on the extracted payload; otherwise the buffer has `atob`'s length, byte `i` is char code `i`, and the bytes are the decoded payload |
| Decoding.CopyCharCodes | src/pages/home.tsx:36-40 | the filled array is the char codes of the binary string, position by position |
| Decoding.Base64ToBlob | src/pages/home.tsx:45-58 | fails exactly when `atob` fails; otherwise the Blob has the given type, its parts concatenate to the decoded bytes, and they are 512-byte slices |
| Decoding.SliceCharCodes | src/pages/home.tsx:48-55 | the parts concatenate to the char codes; each holds 1 to 512 bytes, all but the last hold 512, and there are ceil(n/512) of them |
| Wav.SetBytes | src/pages/home.tsx:101-102 | `Uint8Array.set` writes the source at the offset and leaves every other byte unchanged |
| Wav.SetUint8 | src/pages/home.tsx:73 | one byte changes, to the value mod 256 |
| Wav.SetUint16 | src/pages/home.tsx:82-83 | writes the value mod 2^16 as 2 little-endian bytes at the offset; nothing else changes |
| Wav.SetUint32 | src/pages/home.tsx:78-85 | writes the value mod 2^32 as 4 little-endian bytes at the offset; nothing else changes |
| Wav.WriteString | src/pages/home.tsx:71-75 | writes one byte per character, each the char code mod 256, at the offset; nothing else changes |
| Wav.WavHeader | src/pages/home.tsx:60-91 | the header is 44 bytes; `WavHeaderLayout` places each field at its offset, `WavHeaderFields` reads each back reduced mod its width, and `HeaderRoundTrip` parses it back to the parameters |
| Wav.CreateWavHeader | src/pages/home.tsx:60-91 | the 44 bytes are exactly the RIFF/WAVE header of the given format and data length |
| Wav.CreateWavBlob | src/pages/home.tsx:93-105 | a single-part `audio/wav` Blob of 44 + n bytes: the header for length n, then the PCM bytes unchanged |
| Wav.WavHeaderLayout | src/pages/home.tsx:77-89 | "RIFF", "WAVE", "fmt " and "data" sit at offsets 0, 8, 12 and 36, and each numeric field sits at its offset |
| Wav.WavHeaderFields | src/pages/home.tsx:78-89 | each field reads back as 36+len, 16, 1, channels, rate, byte rate, block align, bits and len, reduced mod its width |
| Wav.WavRoundTrip | src/pages/home.tsx:99-102 | when the fields fit, a WAV reader parses header + PCM back to the format and exactly the PCM bytes, so the size at offset 40 is the PCM length |
| Wav.PcmWavRoundTrip | src/pages/home.tsx:120 | the page's WAV files parse as 24000 Hz, mono, 16 bits, byte rate 48000, block align 2, carrying the samples unchanged |
| Home.FileExtension | src/pages/home.tsx:190-193 | "wav" in PCM mode; otherwise the chosen format if it is non-empty, else "wav" |
| Home.DownloadMime | src/pages/home.tsx:204 | "audio/wav" in PCM mode, else "audio/" + the extension |
| Home.DataUriFor | src/pages/home.tsx:124-129 | the played URI starts with `data:audio/` and ends with the payload extracted from the input; `DataUriCarriesPayload` shows that the page extracts and decodes the same bytes from it |
| Home.DataUriCarriesPayload | src/pages/home.tsx:124-128 | when the format holds no ';' and the payload does not end in whitespace, the played `data:` URI and the input give the same payload and the same decoded bytes, so the fallback Blob holds what the URI held. The payload can only end in whitespace when a second ";base64," follows it in the input |
| Payload.PayloadBehindPlainHeader | src/pages/home.tsx:31-34 | behind a header that starts with a non-whitespace character and holds no marker before its own ";base64,", the page extracts exactly `s` from `p + ";base64," + s`, for any `s` without a marker that does not end in whitespace (`s` may hold ';' and start with whitespace) |
| Home.PcmInputPlaysBack | src/pages/home.tsx:118-122 | the base64 of any samples, pasted behind a header and played in PCM mode, decodes to those samples; the WAV file built from them parses back as 24000 Hz, mono, 16 bits with the same samples, whenever its size fits the RIFF size field |
| Home.EncodedPayloadDecodes | src/pages/home.tsx:30-35 | the page decodes the base64 of any bytes, behind any header that ends at its first marker, back to those bytes |
| Home.Page.constructor | src/pages/home.tsx:5-10 | initial state: empty input, format "wav", not PCM, no source, no message, download disabled, no live URLs |
| Home.Page.CreateObjectUrl | src/pages/home.tsx:121 | `URL.createObjectURL` adds a fresh id serving the Blob and changes nothing else |
| Home.Page.SetAudioPlayerSrc | src/pages/home.tsx:14-22 | replacing the source revokes the previous `blob:` URL; a `data:` URI is never revoked |
| Home.Page.SetBase64Input | src/pages/home.tsx:24-28 | a changed input disables the download button; `Valid()` is kept |
| Home.Page.SetAudioFormat | src/pages/home.tsx:24-28 | a changed format disables the download button; `Valid()` is kept |
| Home.Page.SetIsPcmData | src/pages/home.tsx:24-28 | a changed PCM flag disables the download button; `Valid()` is kept |
| Home.Page.HandleConvertAndPlay | src/pages/home.tsx:107-140 | download disabled; blank input gives `EmptyInput` and leaves the source; PCM plays a new blob holding the WAV file of the decoded samples, and a decode failure clears the source; otherwise plays the `data:` URI; no URL leaks |
| Home.Page.PlayPcm | src/pages/home.tsx:118-122 | a decodable input plays a fresh `audio/wav` blob holding header + samples; a failure gives `ProcessingError` and clears the source |
| Home.Page.HandleAudioLoaded | src/pages/home.tsx:142-143 | enables the download button and changes nothing else |
| Home.Page.HandleAudioError | src/pages/home.tsx:156-187 | a failed `data:` URI outside PCM mode gets a fresh blob of the decoded payload (`FallbackTrying`), or the source is cleared when decoding fails; any other error clears the source and disables download; afterwards the source is never a `data:` URI, so the fallback runs at most once |
| Home.Page.HandleDownload | src/pages/home.tsx:189-261 | filename `audio.<ext>`; non-blank input downloads the freshly decoded raw bytes, typed with the download MIME, from a new URL scheduled for revocation while every other live URL keeps its Blob, or gives `DownloadError`/`EmptyDownload`; blank input with a `blob:` source reuses it without revoking it; otherwise `NoDownloadData` |
| Home.Page.RevokeScheduled | src/pages/home.tsx:247-253 | the timer revokes the temporary download URL and nothing else; `Valid()` is kept, and so is "the live URLs are the pending ones", which holds after unmounting |
| Home.Page.Unmount | src/pages/home.tsx:15-22 | unmounting revokes the player's `blob:` URL, leaving only the pending download URLs live; the input, format, PCM flag, message, download flag and URL counter are unchanged |

## Left out

- JSX rendering and the Mantine components are not modelled. The audio element's `src`
  binding is represented by the `audioPlayerSrc` field.
- The download button is only shown when `isDownloadDisabled` is false. That gate lives in
  the JSX, so `HandleDownload` does not require it.
- `audioPlayerRef.current.play()` and the message set when its promise rejects are not
  modelled. Playback is asynchronous browser behaviour, so only the state change of
  `handleAudioLoaded` is kept.
- The error message of the audio element is not modelled. The terminal branch of
  `handleAudioError` records only the kind `LoadError`.
- Creating the anchor, `click`, `appendChild` and `removeChild` are browser I/O. The
  download is represented by the returned `DownloadOutcome`.
- `setTimeout` is modelled as a pending revocation with no timing.
  `RevokeScheduled` is the timer firing.
- `console.*` and `performance.now()` are left out because they have no effect on state.
- Error messages are kinds, not strings, so the text of `err.message` is not carried.
- The page's `catch` blocks are modelled only for the error that can occur. That error is
  `atob` throwing `InvalidCharacterError`.
- The `!downloadUrlToUse` branch of `handleDownload` is not modelled. It cannot be reached,
  because both branches before it set the URL or return.
- `base64ToArrayBuffer` returns the bytes as a value rather than an `ArrayBuffer` object.
  No caller keeps or shares the buffer.
- `ByteRate`: numbers are `nat`, so the model does not cover JavaScript doubles, fractional
  or negative arguments, or rounding. `(rate * channels * bits) / 8` is truncated and then
  reduced mod 2^32, which is what `setUint32` does for non-negative values.
- `WriteString`, `Payload.Trim` and `ForgivingBase64.Atob`: the model takes a Dafny `char`
  to be one UTF-16 code unit. That is exact for Basic Multilingual Plane text without
  surrogates. For text outside it, JavaScript counts two code units per character, so
  lengths and indices in `trim`, `atob` and `writeString` differ from the model's. The tags
  the page writes and the base64 text it decodes are ASCII.
- `Wav.WavRoundTrip` requires the fields to fit their widths (`36 + n < 2^32`, the rate
  below 2^32, and channels and bits below 2^16). The header itself is modelled with the
  wrap-around.
- The URL store is modelled as numbers handed out by `createObjectURL`. The text of a
  `blob:` URL is not modelled.
- Two loops and one branch are split out as methods of their own:
  - `Decoding.CopyCharCodes` is the copy loop both decoders run;
  - `Decoding.SliceCharCodes` is the slicing loop of `base64ToBlob`;
  - `Home.Page.PlayPcm` is the PCM branch of `handleConvertAndPlay`.

  The statements are the same as in the source.

Where the page differs from what its description suggests, the model follows the code:

- In PCM mode, `handleDownload` downloads the raw decoded samples with type `audio/wav` and
  no WAV header (`src/pages/home.tsx:204-205`). The played blob does carry a header.
- A blank input on "Convert and Play" shows the empty-input message and leaves the current
  source playing (`src/pages/home.tsx:111-115`).

/**
 * The WAV container the page builds around raw PCM: `createWAVHeader` writes the
 * canonical 44-byte RIFF/WAVE header (a "fmt " chunk of 16 bytes for PCM format 1,
 * then the "data" chunk header) through a DataView, little-endian; `createWAVBlob`
 * copies that header and the samples into one buffer. `ParseWav` reads such a file
 * back and is the partner the round-trip lemmas are stated against.
 */
module Wav {
  import opened Wrappers
  import opened Bytes

  const HeaderSize: nat := 44
  const Uint16Range: nat := 0x1_0000
  const Uint32Range: nat := 0x1_0000_0000

  /** The PCM parameters the page always uses (home.tsx calls createWAVBlob with 24000, 1, 16). */
  const PcmSampleRate: nat := 24000
  const PcmChannels: nat := 1
  const PcmBitsPerSample: nat := 16

  /**
   * `after` is `before` with `w` written over it from `offset` on: the bytes before
   * `offset` and after the write are untouched and `w` lies in between (the second
   * line says the same of the prefix that ends with the write).
   */
  predicate Wrote(before: seq<byte>, after: seq<byte>, offset: nat, w: seq<byte>) {
    && |after| == |before| && offset + |w| <= |before|
    && after[..offset] == before[..offset] && after[offset..offset + |w|] == w
    && after[offset + |w|..] == before[offset + |w|..]
    && after[..offset + |w|] == before[..offset] + w
  }

  /** A byte-by-byte description of a write gives `Wrote`. */
  lemma WroteFromBytes(before: seq<byte>, after: seq<byte>, offset: nat, w: seq<byte>)
    requires |after| == |before| && offset + |w| <= |before|
    requires forall k :: 0 <= k < |w| ==> after[offset + k] == w[k]
    requires forall k :: 0 <= k < |after| && !(offset <= k < offset + |w|) ==> after[k] == before[k]
    ensures Wrote(before, after, offset, w)
  {
    assert after[offset..offset + |w|] == w by {
      forall k | 0 <= k < |w| ensures after[offset..offset + |w|][k] == w[k] {
        assert after[offset + k] == w[k];
      }
    }
    assert after[..offset + |w|] == before[..offset] + w by {
      forall k | 0 <= k < offset + |w| ensures after[k] == (before[..offset] + w)[k] {
        if k >= offset {
          assert after[offset + (k - offset)] == w[k - offset];
        }
      }
    }
  }

  /** The bytes `setUint16(offset, value, true)` stores: ToUint16, little-endian. */
  function Uint16LE(value: nat): seq<byte> {
    LittleEndian(value % Uint16Range, 2)
  }

  /** The bytes `setUint32(offset, value, true)` stores: ToUint32, little-endian. */
  function Uint32LE(value: nat): seq<byte> {
    LittleEndian(value % Uint32Range, 4)
  }

  /** The character codes `writeString` stores, each reduced to a byte by `setUint8`. */
  function Ascii(text: string): (r: seq<byte>)
    ensures |r| == |text|
    ensures forall i :: 0 <= i < |text| ==> r[i] == text[i] as int % 256
  {
    seq(|text|, i requires 0 <= i < |text| => text[i] as int % 256)
  }

  /** `(sampleRate * numChannels * bitsPerSample) / 8`, truncated as `setUint32` does. */
  function ByteRate(sampleRate: nat, numChannels: nat, bitsPerSample: nat): nat {
    (sampleRate * numChannels * bitsPerSample) / 8
  }

  /** `(numChannels * bitsPerSample) / 8`, truncated as `setUint16` does. */
  function BlockAlign(numChannels: nat, bitsPerSample: nat): nat {
    (numChannels * bitsPerSample) / 8
  }

  /** The canonical 44-byte header, field after field. */
  function WavHeader(sampleRate: nat, numChannels: nat, bitsPerSample: nat, dataLength: nat): (h: seq<byte>)
    ensures |h| == HeaderSize
  {
    Ascii("RIFF") + Uint32LE(36 + dataLength) + Ascii("WAVE")
    + Ascii("fmt ") + Uint32LE(16) + Uint16LE(1) + Uint16LE(numChannels)
    + Uint32LE(sampleRate) + Uint32LE(ByteRate(sampleRate, numChannels, bitsPerSample))
    + Uint16LE(BlockAlign(numChannels, bitsPerSample)) + Uint16LE(bitsPerSample)
    + Ascii("data") + Uint32LE(dataLength)
  }

  /** `Uint8Array.prototype.set(source, offset)`: copies `source` into `target` at `offset`. */
  method SetBytes(target: array<byte>, source: seq<byte>, offset: nat)
    requires offset + |source| <= target.Length
    modifies target
    ensures Wrote(old(target[..]), target[..], offset, source)
  {
    for i := 0 to |source|
      invariant forall k :: 0 <= k < i ==> target[offset + k] == source[k]
      invariant forall k :: 0 <= k < target.Length && !(offset <= k < offset + i) ==> target[k] == old(target[k])
    {
      target[offset + i] := source[i];
    }
    WroteFromBytes(old(target[..]), target[..], offset, source);
  }

  /** `DataView.prototype.setUint8(offset, value)`: ToUint8 of the value at `offset`. */
  method SetUint8(view: array<byte>, offset: nat, value: nat)
    requires offset < view.Length
    modifies view
    ensures view[..] == old(view[..])[offset := value % 256]
  {
    view[offset] := value % 256;
  }

  /** `DataView.prototype.setUint16(offset, value, true)`. */
  method SetUint16(view: array<byte>, offset: nat, value: nat)
    requires offset + 2 <= view.Length
    modifies view
    ensures Wrote(old(view[..]), view[..], offset, Uint16LE(value))
  {
    SetBytes(view, Uint16LE(value), offset);
  }

  /** `DataView.prototype.setUint32(offset, value, true)`. */
  method SetUint32(view: array<byte>, offset: nat, value: nat)
    requires offset + 4 <= view.Length
    modifies view
    ensures Wrote(old(view[..]), view[..], offset, Uint32LE(value))
  {
    SetBytes(view, Uint32LE(value), offset);
  }

  /** The inner `writeString`: one `setUint8` per character of `text`. */
  method WriteString(view: array<byte>, offset: nat, text: string)
    requires offset + |text| <= view.Length
    modifies view
    ensures Wrote(old(view[..]), view[..], offset, Ascii(text))
  {
    for i := 0 to |text|
      invariant forall k :: 0 <= k < i ==> view[offset + k] == text[k] as int % 256
      invariant forall k :: 0 <= k < view.Length && !(offset <= k < offset + i) ==> view[k] == old(view[k])
    {
      SetUint8(view, offset + i, text[i] as int);
    }
    WroteFromBytes(old(view[..]), view[..], offset, Ascii(text));
  }

  /**
   * `createWAVHeader(sampleRate, numChannels, bitsPerSample, dataLength)`: a fresh
   * 44-byte buffer filled, field by field and in increasing offsets, with `WavHeader`.
   */
  method CreateWavHeader(sampleRate: nat, numChannels: nat, bitsPerSample: nat, dataLength: nat)
    returns (header: seq<byte>)
    ensures header == WavHeader(sampleRate, numChannels, bitsPerSample, dataLength)
  {
    var byteRate := ByteRate(sampleRate, numChannels, bitsPerSample);
    var blockAlign := BlockAlign(numChannels, bitsPerSample);
    var view := new byte[HeaderSize];
    WriteString(view, 0, "RIFF");
    SetUint32(view, 4, 36 + dataLength);
    WriteString(view, 8, "WAVE");
    WriteString(view, 12, "fmt ");
    SetUint32(view, 16, 16);
    SetUint16(view, 20, 1);
    SetUint16(view, 22, numChannels);
    SetUint32(view, 24, sampleRate);
    SetUint32(view, 28, byteRate);
    SetUint16(view, 32, blockAlign);
    SetUint16(view, 34, bitsPerSample);
    WriteString(view, 36, "data");
    SetUint32(view, 40, dataLength);
    header := view[..];
    assert header == header[..HeaderSize];
  }

  /**
   * `createWAVBlob(pcmData, sampleRate, numChannels, bitsPerSample)`: one buffer of
   * 44 + |pcmData| bytes, the header for |pcmData| data bytes followed by the
   * samples unchanged, as a single-part Blob of type "audio/wav".
   */
  method CreateWavBlob(pcmData: seq<byte>, sampleRate: nat, numChannels: nat, bitsPerSample: nat)
    returns (blob: Blob)
    ensures blob.mime == "audio/wav" && |blob.parts| == 1
    ensures blob.Bytes() == WavHeader(sampleRate, numChannels, bitsPerSample, |pcmData|) + pcmData
    ensures |blob.Bytes()| == HeaderSize + |pcmData|
    ensures blob.Bytes()[..HeaderSize] == WavHeader(sampleRate, numChannels, bitsPerSample, |pcmData|)
    ensures blob.Bytes()[HeaderSize..] == pcmData
  {
    var wavHeader := CreateWavHeader(sampleRate, numChannels, bitsPerSample, |pcmData|);
    var wavBuffer := new byte[|wavHeader| + |pcmData|];
    SetBytes(wavBuffer, wavHeader, 0);
    assert wavBuffer[..|wavHeader|] == wavHeader;
    SetBytes(wavBuffer, pcmData, |wavHeader|);
    assert wavBuffer[..|wavHeader|] == wavHeader;
    assert wavBuffer[|wavHeader|..] == pcmData;
    assert wavBuffer[..] == wavHeader + pcmData;
    blob := Blob([wavBuffer[..]], "audio/wav");
    assert blob.Bytes() == wavBuffer[..] by {
      assert blob.parts[..0] == [];
      assert Flatten(blob.parts) == Flatten([]) + wavBuffer[..];
    }
  }

  /** The Blob the page plays in PCM mode: the decoded samples with a 24 kHz, mono, 16-bit header. */
  function PcmWavBytes(pcm: seq<byte>): seq<byte> {
    WavHeader(PcmSampleRate, PcmChannels, PcmBitsPerSample, |pcm|) + pcm
  }

  /** The "fmt " chunk fields of a WAV file. */
  datatype WavFormat = WavFormat(
    sampleRate: nat, numChannels: nat, bitsPerSample: nat, byteRate: nat, blockAlign: nat)

  datatype WavFile = WavFile(format: WavFormat, data: seq<byte>)

  /**
   * A reader of the canonical 44-byte header: the four chunk ids, a PCM "fmt " chunk
   * of 16 bytes, and a RIFF size of 36 + the data size; gives the format and the
   * data size.
   */
  function ParseHeader(h: seq<byte>): Option<(WavFormat, nat)>
    requires |h| == HeaderSize
  {
    if h[0..4] != Ascii("RIFF") || h[8..12] != Ascii("WAVE")
      || h[12..16] != Ascii("fmt ") || h[36..40] != Ascii("data") then None
    else if ReadLittleEndian(h[16..20]) != 16 || ReadLittleEndian(h[20..22]) != 1 then None
    else if ReadLittleEndian(h[4..8]) != 36 + ReadLittleEndian(h[40..44]) then None
    else
      var format := WavFormat(
        ReadLittleEndian(h[24..28]), ReadLittleEndian(h[22..24]), ReadLittleEndian(h[34..36]),
        ReadLittleEndian(h[28..32]), ReadLittleEndian(h[32..34]));
      Some((format, ReadLittleEndian(h[40..44])))
  }

  /** A WAV file: a header, then as many data bytes as it announces. */
  function ParseWav(f: seq<byte>): Option<WavFile> {
    if |f| < HeaderSize then None
    else match ParseHeader(f[..HeaderSize])
      case None => None
      case Some((format, dataLength)) =>
        if HeaderSize + dataLength > |f| then None
        else Some(WavFile(format, f[HeaderSize..HeaderSize + dataLength]))
  }

  /** Where each field of the header lies. */
  lemma WavHeaderLayout(sampleRate: nat, numChannels: nat, bitsPerSample: nat, dataLength: nat)
    ensures var h := WavHeader(sampleRate, numChannels, bitsPerSample, dataLength);
      && |h| == HeaderSize
      && h[0..4] == Ascii("RIFF") && h[4..8] == Uint32LE(36 + dataLength)
      && h[8..12] == Ascii("WAVE") && h[12..16] == Ascii("fmt ")
      && h[16..20] == Uint32LE(16) && h[20..22] == Uint16LE(1)
      && h[22..24] == Uint16LE(numChannels) && h[24..28] == Uint32LE(sampleRate)
      && h[28..32] == Uint32LE(ByteRate(sampleRate, numChannels, bitsPerSample))
      && h[32..34] == Uint16LE(BlockAlign(numChannels, bitsPerSample))
      && h[34..36] == Uint16LE(bitsPerSample)
      && h[36..40] == Ascii("data") && h[40..44] == Uint32LE(dataLength)
  {
    RiffFieldsLayout(sampleRate, numChannels, bitsPerSample, dataLength);
    FormatFieldsLayout(sampleRate, numChannels, bitsPerSample, dataLength);
    RateFieldsLayout(sampleRate, numChannels, bitsPerSample, dataLength);
    DataFieldsLayout(sampleRate, numChannels, bitsPerSample, dataLength);
  }

  lemma RiffFieldsLayout(sampleRate: nat, numChannels: nat, bitsPerSample: nat, dataLength: nat)
    ensures var h := WavHeader(sampleRate, numChannels, bitsPerSample, dataLength);
      && |h| == HeaderSize
      && h[0..4] == Ascii("RIFF") && h[4..8] == Uint32LE(36 + dataLength)
      && h[8..12] == Ascii("WAVE") && h[12..16] == Ascii("fmt ")
  {
  }

  lemma FormatFieldsLayout(sampleRate: nat, numChannels: nat, bitsPerSample: nat, dataLength: nat)
    ensures var h := WavHeader(sampleRate, numChannels, bitsPerSample, dataLength);
      && |h| == HeaderSize
      && h[16..20] == Uint32LE(16) && h[20..22] == Uint16LE(1)
      && h[22..24] == Uint16LE(numChannels)
  {
  }

  lemma RateFieldsLayout(sampleRate: nat, numChannels: nat, bitsPerSample: nat, dataLength: nat)
    ensures var h := WavHeader(sampleRate, numChannels, bitsPerSample, dataLength);
      && |h| == HeaderSize
      && h[24..28] == Uint32LE(sampleRate)
      && h[28..32] == Uint32LE(ByteRate(sampleRate, numChannels, bitsPerSample))
      && h[32..34] == Uint16LE(BlockAlign(numChannels, bitsPerSample))
      && h[34..36] == Uint16LE(bitsPerSample)
  {
  }

  lemma DataFieldsLayout(sampleRate: nat, numChannels: nat, bitsPerSample: nat, dataLength: nat)
    ensures var h := WavHeader(sampleRate, numChannels, bitsPerSample, dataLength);
      && |h| == HeaderSize
      && h[36..40] == Ascii("data") && h[40..44] == Uint32LE(dataLength)
  {
  }

  /** A value below 2^16 is stored exactly by `setUint16` and read back. */
  lemma Uint16RoundTrip(value: nat)
    ensures ReadLittleEndian(Uint16LE(value)) == value % Uint16Range
  {
    LittleEndianRoundTrip(value % Uint16Range, 2);
  }

  /** A value below 2^32 is stored exactly by `setUint32` and read back. */
  lemma Uint32RoundTrip(value: nat)
    ensures ReadLittleEndian(Uint32LE(value)) == value % Uint32Range
  {
    LittleEndianRoundTrip(value % Uint32Range, 4);
  }

  /**
   * What the header says, read back field by field: each field holds its value
   * reduced as the DataView setters reduce it (modulo 2^32 or 2^16).
   */
  lemma WavHeaderFields(sampleRate: nat, numChannels: nat, bitsPerSample: nat, dataLength: nat)
    ensures var h := WavHeader(sampleRate, numChannels, bitsPerSample, dataLength);
      && |h| == HeaderSize
      && ReadLittleEndian(h[4..8]) == (36 + dataLength) % Uint32Range
      && ReadLittleEndian(h[16..20]) == 16
      && ReadLittleEndian(h[20..22]) == 1
      && ReadLittleEndian(h[22..24]) == numChannels % Uint16Range
      && ReadLittleEndian(h[24..28]) == sampleRate % Uint32Range
      && ReadLittleEndian(h[28..32]) == ByteRate(sampleRate, numChannels, bitsPerSample) % Uint32Range
      && ReadLittleEndian(h[32..34]) == BlockAlign(numChannels, bitsPerSample) % Uint16Range
      && ReadLittleEndian(h[34..36]) == bitsPerSample % Uint16Range
      && ReadLittleEndian(h[40..44]) == dataLength % Uint32Range
  {
    WavHeaderLayout(sampleRate, numChannels, bitsPerSample, dataLength);
    Uint32RoundTrip(36 + dataLength);
    Uint32RoundTrip(16);
    Uint16RoundTrip(1);
    Uint16RoundTrip(numChannels);
    Uint32RoundTrip(sampleRate);
    Uint32RoundTrip(ByteRate(sampleRate, numChannels, bitsPerSample));
    Uint16RoundTrip(BlockAlign(numChannels, bitsPerSample));
    Uint16RoundTrip(bitsPerSample);
    Uint32RoundTrip(dataLength);
  }

  /**
   * Header plus samples is a WAV file that reads back as the same samples and the
   * same parameters, as long as the sizes fit their 32-bit fields and the
   * parameters fit theirs.
   */
  lemma WavRoundTrip(sampleRate: nat, numChannels: nat, bitsPerSample: nat, pcm: seq<byte>)
    requires 36 + |pcm| < Uint32Range
    requires sampleRate < Uint32Range && numChannels < Uint16Range && bitsPerSample < Uint16Range
    ensures ParseWav(WavHeader(sampleRate, numChannels, bitsPerSample, |pcm|) + pcm)
      == Some(WavFile(
           WavFormat(sampleRate, numChannels, bitsPerSample,
             ByteRate(sampleRate, numChannels, bitsPerSample) % Uint32Range,
             BlockAlign(numChannels, bitsPerSample) % Uint16Range),
           pcm))
  {
    var h := WavHeader(sampleRate, numChannels, bitsPerSample, |pcm|);
    var f := h + pcm;
    HeaderRoundTrip(sampleRate, numChannels, bitsPerSample, |pcm|);
    assert f[..HeaderSize] == h;
    assert f[HeaderSize..HeaderSize + |pcm|] == pcm;
  }

  /** The header reads back as the parameters it was written from. */
  lemma HeaderRoundTrip(sampleRate: nat, numChannels: nat, bitsPerSample: nat, dataLength: nat)
    requires 36 + dataLength < Uint32Range
    requires sampleRate < Uint32Range && numChannels < Uint16Range && bitsPerSample < Uint16Range
    ensures |WavHeader(sampleRate, numChannels, bitsPerSample, dataLength)| == HeaderSize
    ensures ParseHeader(WavHeader(sampleRate, numChannels, bitsPerSample, dataLength))
      == Some((WavFormat(sampleRate, numChannels, bitsPerSample,
             ByteRate(sampleRate, numChannels, bitsPerSample) % Uint32Range,
             BlockAlign(numChannels, bitsPerSample) % Uint16Range), dataLength))
  {
    var h := WavHeader(sampleRate, numChannels, bitsPerSample, dataLength);
    WavHeaderLayout(sampleRate, numChannels, bitsPerSample, dataLength);
    WavHeaderFields(sampleRate, numChannels, bitsPerSample, dataLength);
    SmallMod(36 + dataLength, Uint32Range);
    SmallMod(dataLength, Uint32Range);
    SmallMod(sampleRate, Uint32Range);
    SmallMod(numChannels, Uint16Range);
    SmallMod(bitsPerSample, Uint16Range);
    ParseHeaderOfFields(h, sampleRate, numChannels, bitsPerSample,
      ByteRate(sampleRate, numChannels, bitsPerSample) % Uint32Range,
      BlockAlign(numChannels, bitsPerSample) % Uint16Range, dataLength);
  }

  lemma SmallMod(x: nat, m: nat)
    requires x < m
    ensures x % m == x
  {
  }

  /** `ParseHeader` reads the fields a header holds. */
  lemma ParseHeaderOfFields(h: seq<byte>, sampleRate: nat, numChannels: nat, bitsPerSample: nat,
                            byteRate: nat, blockAlign: nat, dataLength: nat)
    requires |h| == HeaderSize
    requires h[0..4] == Ascii("RIFF") && h[8..12] == Ascii("WAVE")
    requires h[12..16] == Ascii("fmt ") && h[36..40] == Ascii("data")
    requires ReadLittleEndian(h[16..20]) == 16 && ReadLittleEndian(h[20..22]) == 1
    requires ReadLittleEndian(h[4..8]) == 36 + dataLength && ReadLittleEndian(h[40..44]) == dataLength
    requires ReadLittleEndian(h[24..28]) == sampleRate && ReadLittleEndian(h[22..24]) == numChannels
    requires ReadLittleEndian(h[34..36]) == bitsPerSample
    requires ReadLittleEndian(h[28..32]) == byteRate && ReadLittleEndian(h[32..34]) == blockAlign
    ensures ParseHeader(h)
      == Some((WavFormat(sampleRate, numChannels, bitsPerSample, byteRate, blockAlign), dataLength))
  {
  }

  /** The page's PCM file reads back as 24 kHz mono 16-bit audio (48000 bytes/s, 2-byte frames). */
  lemma PcmWavRoundTrip(pcm: seq<byte>)
    requires 36 + |pcm| < Uint32Range
    ensures |PcmWavBytes(pcm)| == HeaderSize + |pcm|
    ensures ParseWav(PcmWavBytes(pcm)) == Some(WavFile(WavFormat(24000, 1, 16, 48000, 2), pcm))
  {
    WavRoundTrip(PcmSampleRate, PcmChannels, PcmBitsPerSample, pcm);
    assert ByteRate(PcmSampleRate, PcmChannels, PcmBitsPerSample) == 48000;
    assert BlockAlign(PcmChannels, PcmBitsPerSample) == 2;
  }
}

/**
 * The converter page: its React state, the handlers wired to the buttons and to the
 * audio element, and the two effects, over a model of the document's `blob:` URL
 * store. `URL.createObjectURL` hands out fresh ids for Blobs and `revokeObjectURL`
 * forgets them; a `data:` URI lives in the state as text.
 *
 * React applies the state setters of a handler when it returns and then runs the
 * effects whose dependencies changed; the model applies each setter together with
 * the effect it triggers, which gives the same final state because the handlers
 * read only the state they were rendered with.
 */
module Home {
  import opened Wrappers
  import opened Bytes
  import opened Payload
  import opened Decoding
  import opened Wav
  import opened ForgivingBase64

  /** What the audio element plays: a `data:` URI or a `blob:` URL of the store. */
  datatype Src = DataUri(uri: string) | BlobUrl(id: nat)

  /** The error line under the player; `NoMessage` is the empty string (nothing shown). */
  datatype Message =
    | NoMessage
    | EmptyInput        // "Please enter a base64 string"
    | ProcessingError   // "Error processing base64: ..."
    | FallbackTrying    // "Error loading audio. Trying fallback..."
    | FallbackFailed    // "Error loading audio. Blob fallback also failed: ..."
    | LoadError         // "Error loading audio: ..."
    | EmptyDownload     // "Error: Generated file for download is empty."
    | NoDownloadData    // "No data available to download. ..."
    | DownloadError     // "Download error: ..."

  /** What a click on "Download Audio" leads to. */
  datatype DownloadOutcome =
    | Download(bytes: seq<byte>, filename: string, mime: string, tempUrl: Option<nat>)
    | Error(kind: Message)

  /** `${audioFormat}` in a template literal: a null format prints as "null". */
  function FormatText(audioFormat: Option<string>): (r: string)
    ensures audioFormat.Some? ==> r == audioFormat.value
    ensures audioFormat.None? ==> r == "null"
  {
    match audioFormat
    case Some(f) => f
    case None => "null"
  }

  /**
   * The `data:` URI `handleConvertAndPlay` plays when the input is not PCM: an
   * `audio/<format>` URI that ends with the payload extracted from the input.
   */
  function DataUriFor(audioFormat: Option<string>, base64Input: string): (r: string)
    ensures |r| >= 11 && r[..11] == "data:audio/"
    ensures var s := SchemePayload(base64Input); |s| <= |r| && r[|r| - |s|..] == s
  {
    "data:audio/" + FormatText(audioFormat) + Marker + SchemePayload(base64Input)
  }

  /** The extension `handleDownload` chooses: "wav" for PCM, else the format, else "wav". */
  function FileExtension(audioFormat: Option<string>, isPcmData: bool): (ext: string)
    ensures ext != []
    ensures ext == "wav" || (!isPcmData && audioFormat == Some(ext))
    ensures !isPcmData && audioFormat.Some? && audioFormat.value != [] ==> ext == audioFormat.value
  {
    if isPcmData then "wav"
    else match audioFormat
      case Some(f) => if f != [] then f else "wav"
      case None => "wav"
  }

  /** The type `handleDownload` gives the new Blob. */
  function DownloadMime(audioFormat: Option<string>, isPcmData: bool): (mime: string)
    ensures isPcmData ==> mime == "audio/wav"
    ensures !isPcmData ==> mime == "audio/" + FileExtension(audioFormat, isPcmData)
  {
    "audio/" + FileExtension(audioFormat, isPcmData)
  }

  /**
   * The `data:` URI carries the payload unchanged: extracting the payload from it
   * (as the fallback does with the input) gives the payload of the input, so the
   * URI and the fallback Blob hold the same bytes. Holds when the format has no ';'
   * and the payload does not end in whitespace (which it can only do when a second
   * marker follows it in the input).
   */
  lemma DataUriCarriesPayload(audioFormat: Option<string>, base64Input: string)
    requires forall i :: 0 <= i < |FormatText(audioFormat)| ==> FormatText(audioFormat)[i] != ';'
    requires var s := SchemePayload(base64Input); s == [] || !IsJsWhitespace(s[|s| - 1])
    ensures SchemePayload(DataUriFor(audioFormat, base64Input)) == SchemePayload(base64Input)
    ensures DecodePayload(DataUriFor(audioFormat, base64Input)) == DecodePayload(base64Input)
  {
    var p := "data:audio/" + FormatText(audioFormat);
    var s := SchemePayload(base64Input);
    assert forall i :: 0 <= i < |p| ==> p[i] != ';' by {
      forall i | 0 <= i < |p| ensures p[i] != ';' {
        if i >= 11 { assert p[i] == FormatText(audioFormat)[i - 11]; }
      }
    }
    NoSemicolonPrefix(p);
    assert p[0] == 'd';
    PayloadBehindPlainHeader(p, s);
    assert DataUriFor(audioFormat, base64Input) == p + Marker + s;
  }

  /**
   * Pasting the base64 of PCM samples behind a `<prefix>;base64,` header and playing
   * it in PCM mode plays a WAV file that a reader parses back as 24 kHz, mono, 16-bit
   * audio holding exactly those samples, as long as the RIFF size field can hold the
   * file's length.
   */
  lemma PcmInputPlaysBack(p: string, pcm: seq<byte>)
    requires EndsAtFirstMarker(p)
    ensures DecodePayload(p + Marker + Encode(pcm)) == Some(pcm)
    ensures 36 + |pcm| < Uint32Range ==>
      ParseWav(PcmWavBytes(DecodePayload(p + Marker + Encode(pcm)).value))
        == Some(WavFile(WavFormat(24000, 1, 16, 48000, 2), pcm))
  {
    EncodedPayloadDecodes(p, pcm);
    if 36 + |pcm| < Uint32Range {
      PcmWavRoundTrip(pcm);
    }
  }

  /** The page decodes the base64 of any bytes behind a header back to those bytes. */
  lemma EncodedPayloadDecodes(p: string, b: seq<byte>)
    requires EndsAtFirstMarker(p)
    ensures DecodePayload(p + Marker + Encode(b)) == Some(b)
  {
    EncodingIsPayload(p, b);
    DecodeEncode(b);
  }

  /** Base64 text behind a header is exactly what the page extracts from the input. */
  lemma EncodingIsPayload(p: string, b: seq<byte>)
    requires EndsAtFirstMarker(p)
    ensures SchemePayload(p + Marker + Encode(b)) == Encode(b)
  {
    EncodingIsBare(b);
    PayloadBehindHeader(p, Encode(b));
  }

  /** Base64 text holds no ';' and neither starts nor ends with whitespace. */
  lemma EncodingIsBare(b: seq<byte>)
    ensures forall i :: 0 <= i < |Encode(b)| ==> Encode(b)[i] != ';'
    ensures Encode(b) == [] || (!IsJsWhitespace(Encode(b)[0]) && !IsJsWhitespace(Encode(b)[|Encode(b)| - 1]))
  {
    var s := Encode(b);
    EncodeCharacters(b);
    forall i | 0 <= i < |s| ensures s[i] != ';' {
      Base64CharIsBare(s[i]);
    }
    if s != [] {
      Base64CharIsBare(s[0]);
      Base64CharIsBare(s[|s| - 1]);
    }
  }

  lemma Base64CharIsBare(c: char)
    requires IsAlphabetChar(c) || c == '='
    ensures c != ';' && !IsJsWhitespace(c)
  {
  }

  class Page {
    var base64Input: string
    var audioFormat: Option<string>
    var isPcmData: bool
    var audioPlayerSrc: Option<Src>
    var errorMessage: Message
    var isDownloadDisabled: bool
    /** The live `blob:` URLs the page has created, with the Blob each one serves. */
    var objectUrls: map<nat, Blob>
    /** Temporary download URLs whose `setTimeout` revocation has not fired yet. */
    var pendingRevocations: set<nat>
    /** The next id `createObjectURL` hands out. */
    var nextBlobId: nat

    /** The `blob:` URL the player owns, if any. */
    function PlayerBlobs(): set<nat>
      reads this
    {
      match audioPlayerSrc
      case Some(BlobUrl(id)) => {id}
      case _ => {}
    }

    /**
     * No URL leaks: the live URLs are exactly the player's current one and the
     * download URLs waiting for their timer, and ids are never reused.
     */
    ghost predicate Valid()
      reads this
    {
      && (forall id :: id in objectUrls ==> id < nextBlobId)
      && objectUrls.Keys == PlayerBlobs() + pendingRevocations
      && PlayerBlobs() !! pendingRevocations
    }

    /** The initial state: empty input, format "wav", not PCM, nothing to play, download hidden. */
    constructor ()
      ensures Valid()
      ensures base64Input == [] && audioFormat == Some("wav") && !isPcmData
      ensures audioPlayerSrc.None? && errorMessage == NoMessage && isDownloadDisabled
      ensures objectUrls == map[] && pendingRevocations == {}
    {
      base64Input := [];
      audioFormat := Some("wav");
      isPcmData := false;
      audioPlayerSrc := None;
      errorMessage := NoMessage;
      isDownloadDisabled := true;
      objectUrls := map[];
      pendingRevocations := {};
      nextBlobId := 0;
    }

    /** `URL.createObjectURL(blob)`: a fresh live URL serving `blob`. */
    method CreateObjectUrl(blob: Blob) returns (id: nat)
      requires forall k :: k in objectUrls ==> k < nextBlobId
      modifies this
      ensures id !in old(objectUrls) && objectUrls == old(objectUrls)[id := blob]
      ensures forall k :: k in objectUrls ==> k < nextBlobId
      ensures base64Input == old(base64Input) && audioFormat == old(audioFormat)
      ensures isPcmData == old(isPcmData) && audioPlayerSrc == old(audioPlayerSrc)
      ensures errorMessage == old(errorMessage) && isDownloadDisabled == old(isDownloadDisabled)
      ensures pendingRevocations == old(pendingRevocations)
    {
      id := nextBlobId;
      objectUrls := objectUrls[id := blob];
      nextBlobId := nextBlobId + 1;
    }

    /**
     * `setAudioPlayerSrc(src)` with the cleanup of the effect on `audioPlayerSrc`:
     * when the value changes, a `blob:` URL that was playing is revoked; a `data:`
     * URI is never revoked.
     */
    method SetAudioPlayerSrc(src: Option<Src>)
      modifies this
      ensures audioPlayerSrc == src
      ensures objectUrls ==
        (if old(audioPlayerSrc) != src && old(audioPlayerSrc).Some? && old(audioPlayerSrc).value.BlobUrl?
         then old(objectUrls) - {old(audioPlayerSrc).value.id} else old(objectUrls))
      ensures base64Input == old(base64Input) && audioFormat == old(audioFormat)
      ensures isPcmData == old(isPcmData) && errorMessage == old(errorMessage)
      ensures isDownloadDisabled == old(isDownloadDisabled)
      ensures pendingRevocations == old(pendingRevocations) && nextBlobId == old(nextBlobId)
    {
      if audioPlayerSrc != src {
        if audioPlayerSrc.Some? && audioPlayerSrc.value.BlobUrl? {
          objectUrls := objectUrls - {audioPlayerSrc.value.id};
        }
      }
      audioPlayerSrc := src;
    }

    /** The textarea's `onChange`, with the effect that hides the download button. */
    method SetBase64Input(text: string)
      requires Valid()
      modifies this
      ensures Valid()
      ensures base64Input == text
      ensures isDownloadDisabled == (old(isDownloadDisabled) || text != old(base64Input))
      ensures audioFormat == old(audioFormat) && isPcmData == old(isPcmData)
      ensures audioPlayerSrc == old(audioPlayerSrc) && errorMessage == old(errorMessage)
      ensures objectUrls == old(objectUrls) && pendingRevocations == old(pendingRevocations)
    {
      if text != base64Input {
        isDownloadDisabled := true;
      }
      base64Input := text;
    }

    /** The format select's `onChange`, with the effect that hides the download button. */
    method SetAudioFormat(format: Option<string>)
      requires Valid()
      modifies this
      ensures Valid()
      ensures audioFormat == format
      ensures isDownloadDisabled == (old(isDownloadDisabled) || format != old(audioFormat))
      ensures base64Input == old(base64Input) && isPcmData == old(isPcmData)
      ensures audioPlayerSrc == old(audioPlayerSrc) && errorMessage == old(errorMessage)
      ensures objectUrls == old(objectUrls) && pendingRevocations == old(pendingRevocations)
    {
      if format != audioFormat {
        isDownloadDisabled := true;
      }
      audioFormat := format;
    }

    /** The PCM checkbox's `onChange`, with the effect that hides the download button. */
    method SetIsPcmData(checked: bool)
      requires Valid()
      modifies this
      ensures Valid()
      ensures isPcmData == checked
      ensures isDownloadDisabled == (old(isDownloadDisabled) || checked != old(isPcmData))
      ensures base64Input == old(base64Input) && audioFormat == old(audioFormat)
      ensures audioPlayerSrc == old(audioPlayerSrc) && errorMessage == old(errorMessage)
      ensures objectUrls == old(objectUrls) && pendingRevocations == old(pendingRevocations)
    {
      if checked != isPcmData {
        isDownloadDisabled := true;
      }
      isPcmData := checked;
    }

    /**
     * `handleConvertAndPlay`: clears the error and hides the download button, then
     *  - on a blank input shows `EmptyInput` and leaves the player alone;
     *  - in PCM mode decodes the input and plays a new `blob:` URL of the WAV file
     *    made from the samples at 24 kHz, mono, 16 bits; a decoding failure shows
     *    `ProcessingError` and clears the player;
     *  - otherwise plays the `data:` URI of the payload, with no decoding at all.
     * The player's previous `blob:` URL is revoked whenever it is replaced.
     */
    method HandleConvertAndPlay()
      requires Valid()
      modifies this
      ensures Valid()
      ensures isDownloadDisabled
      ensures base64Input == old(base64Input) && audioFormat == old(audioFormat)
      ensures isPcmData == old(isPcmData) && pendingRevocations == old(pendingRevocations)
      ensures IsBlank(base64Input) ==>
        errorMessage == EmptyInput && audioPlayerSrc == old(audioPlayerSrc) && objectUrls == old(objectUrls)
      ensures !IsBlank(base64Input) && !isPcmData ==>
        errorMessage == NoMessage && audioPlayerSrc == Some(DataUri(DataUriFor(audioFormat, base64Input)))
      ensures !IsBlank(base64Input) && isPcmData && DecodePayload(base64Input).None? ==>
        errorMessage == ProcessingError && audioPlayerSrc == None
      ensures !IsBlank(base64Input) && isPcmData && DecodePayload(base64Input).Some? ==>
        && errorMessage == NoMessage
        && audioPlayerSrc.Some? && audioPlayerSrc.value.BlobUrl?
        && audioPlayerSrc.value.id !in old(objectUrls)
        && objectUrls[audioPlayerSrc.value.id].mime == "audio/wav"
        && objectUrls[audioPlayerSrc.value.id].Bytes() == PcmWavBytes(DecodePayload(base64Input).value)
      ensures !IsBlank(base64Input) ==>
        objectUrls - PlayerBlobs() == old(objectUrls) - old(PlayerBlobs())
    {
      errorMessage := NoMessage;
      isDownloadDisabled := true;
      if IsBlank(base64Input) {
        errorMessage := EmptyInput;
        return;
      }
      if isPcmData {
        PlayPcm();
      } else {
        var audioDataUrl := DataUriFor(audioFormat, base64Input);
        SetAudioPlayerSrc(Some(DataUri(audioDataUrl)));
      }
    }

    /**
     * The PCM branch of `handleConvertAndPlay`'s `try` block and its `catch`: the
     * decoded samples become a WAV Blob played from a new `blob:` URL, or, when
     * `atob` throws, `ProcessingError` is shown and the player cleared.
     */
    method PlayPcm()
      requires Valid()
      modifies this
      ensures Valid()
      ensures base64Input == old(base64Input) && audioFormat == old(audioFormat)
      ensures isPcmData == old(isPcmData) && pendingRevocations == old(pendingRevocations)
      ensures isDownloadDisabled == old(isDownloadDisabled)
      ensures DecodePayload(base64Input).None? ==>
        errorMessage == ProcessingError && audioPlayerSrc == None
      ensures DecodePayload(base64Input).Some? ==>
        && errorMessage == old(errorMessage)
        && audioPlayerSrc.Some? && audioPlayerSrc.value.BlobUrl?
        && audioPlayerSrc.value.id !in old(objectUrls)
        && objectUrls[audioPlayerSrc.value.id].mime == "audio/wav"
        && objectUrls[audioPlayerSrc.value.id].Bytes() == PcmWavBytes(DecodePayload(base64Input).value)
      ensures objectUrls - PlayerBlobs() == old(objectUrls) - old(PlayerBlobs())
    {
      var pcmData := Base64ToArrayBuffer(base64Input);
      if pcmData.Failure? {
        errorMessage := ProcessingError;
        SetAudioPlayerSrc(None);
        return;
      }
      var wavBlob := CreateWavBlob(pcmData.value, PcmSampleRate, PcmChannels, PcmBitsPerSample);
      var audioUrl := CreateObjectUrl(wavBlob);
      SetAudioPlayerSrc(Some(BlobUrl(audioUrl)));
    }

    /** `handleAudioLoaded`: the audio is playable, so the download button shows. */
    method HandleAudioLoaded()
      requires Valid()
      modifies this
      ensures Valid()
      ensures !isDownloadDisabled
      ensures base64Input == old(base64Input) && audioFormat == old(audioFormat)
      ensures isPcmData == old(isPcmData) && audioPlayerSrc == old(audioPlayerSrc)
      ensures errorMessage == old(errorMessage)
      ensures objectUrls == old(objectUrls) && pendingRevocations == old(pendingRevocations)
    {
      isDownloadDisabled := false;
    }

    /**
     * `handleAudioError`. When not in PCM mode and a `data:` URI failed to load, the
     * payload of the current input is decoded into a Blob of type
     * "audio/<format>" and played from a new `blob:` URL (`FallbackTrying`), or, if it
     * does not decode, the player is cleared (`FallbackFailed`). Any other error
     * clears the player, shows `LoadError` and hides the download button. Either
     * way the player is left without a `data:` URI, so the fallback runs at most
     * once per conversion.
     */
    method HandleAudioError()
      requires Valid()
      modifies this
      ensures Valid()
      ensures audioPlayerSrc.None? || audioPlayerSrc.value.BlobUrl?
      ensures base64Input == old(base64Input) && audioFormat == old(audioFormat)
      ensures isPcmData == old(isPcmData) && pendingRevocations == old(pendingRevocations)
      ensures !isPcmData && old(audioPlayerSrc).Some? && old(audioPlayerSrc).value.DataUri? ==>
        && isDownloadDisabled == old(isDownloadDisabled)
        && (DecodePayload(base64Input).None? ==>
              errorMessage == FallbackFailed && audioPlayerSrc.None? && objectUrls == old(objectUrls))
        && (DecodePayload(base64Input).Some? ==>
              && errorMessage == FallbackTrying
              && audioPlayerSrc.Some? && audioPlayerSrc.value.id !in old(objectUrls)
              && objectUrls == old(objectUrls)[audioPlayerSrc.value.id := objectUrls[audioPlayerSrc.value.id]]
              && objectUrls[audioPlayerSrc.value.id].Bytes() == DecodePayload(base64Input).value
              && objectUrls[audioPlayerSrc.value.id].mime == "audio/" + FormatText(audioFormat))
      ensures isPcmData || old(audioPlayerSrc).None? || old(audioPlayerSrc).value.BlobUrl? ==>
        && errorMessage == LoadError && audioPlayerSrc.None? && isDownloadDisabled
        && objectUrls == old(objectUrls) - old(PlayerBlobs())
    {
      if !isPcmData && audioPlayerSrc.Some? && audioPlayerSrc.value.DataUri? {
        var cleanBase64 := SchemePayload(base64Input);
        var blob := Base64ToBlob(cleanBase64, "audio/" + FormatText(audioFormat));
        if blob.Success? {
          var blobUrl := CreateObjectUrl(blob.value);
          SetAudioPlayerSrc(Some(BlobUrl(blobUrl)));
          errorMessage := FallbackTrying;
          return;
        } else {
          errorMessage := FallbackFailed;
          SetAudioPlayerSrc(None);
          return;
        }
      }
      errorMessage := LoadError;
      SetAudioPlayerSrc(None);
      isDownloadDisabled := true;
    }

    /**
     * `handleDownload`. The file is "audio.<ext>". A non-blank input is decoded
     * afresh into a Blob of type "audio/wav" in PCM mode (the raw samples, with no
     * WAV header) or "audio/<ext>" otherwise; a decoding failure gives
     * `DownloadError` and an empty Blob `EmptyDownload`; otherwise the Blob is
     * downloaded from a new temporary URL that is scheduled for revocation. A
     * blank input with a `blob:` URL playing downloads that Blob through the
     * player's URL, which stays live. Anything else gives `NoDownloadData`.
     */
    method HandleDownload() returns (outcome: DownloadOutcome)
      requires Valid()
      modifies this
      ensures Valid()
      ensures base64Input == old(base64Input) && audioFormat == old(audioFormat)
      ensures isPcmData == old(isPcmData) && audioPlayerSrc == old(audioPlayerSrc)
      ensures isDownloadDisabled == old(isDownloadDisabled)
      ensures outcome.Download? ==>
        outcome.filename == "audio." + FileExtension(audioFormat, isPcmData) && errorMessage == old(errorMessage)
      ensures outcome.Error? ==>
        errorMessage == outcome.kind && objectUrls == old(objectUrls) && pendingRevocations == old(pendingRevocations)
      ensures !IsBlank(base64Input) ==>
        var decoded := DecodePayload(base64Input);
        && (decoded.None? ==> outcome == Error(DownloadError))
        && (decoded.Some? && decoded.value == [] ==> outcome == Error(EmptyDownload))
        && (decoded.Some? && decoded.value != [] ==>
              && outcome.Download? && outcome.bytes == decoded.value
              && outcome.mime == DownloadMime(audioFormat, isPcmData)
              && outcome.tempUrl.Some? && outcome.tempUrl.value !in old(objectUrls)
              && objectUrls.Keys == old(objectUrls.Keys) + {outcome.tempUrl.value}
              && objectUrls == old(objectUrls)[outcome.tempUrl.value := objectUrls[outcome.tempUrl.value]]
              && objectUrls[outcome.tempUrl.value].Bytes() == decoded.value
              && objectUrls[outcome.tempUrl.value].mime == DownloadMime(audioFormat, isPcmData)
              && pendingRevocations == old(pendingRevocations) + {outcome.tempUrl.value})
      ensures IsBlank(base64Input) && audioPlayerSrc.Some? && audioPlayerSrc.value.BlobUrl? ==>
        && var id := audioPlayerSrc.value.id;
        && outcome == Download(objectUrls[id].Bytes(), "audio." + FileExtension(audioFormat, isPcmData),
                               objectUrls[id].mime, None)
        && objectUrls == old(objectUrls) && pendingRevocations == old(pendingRevocations)
      ensures IsBlank(base64Input) && !(audioPlayerSrc.Some? && audioPlayerSrc.value.BlobUrl?) ==>
        outcome == Error(NoDownloadData)
    {
      var fileExtension := FileExtension(audioFormat, isPcmData);
      var filename := "audio." + fileExtension;
      if !IsBlank(base64Input) {
        var currentBase64 := SchemePayload(base64Input);
        var mimeType := DownloadMime(audioFormat, isPcmData);
        var newBlob := Base64ToBlob(currentBase64, mimeType);
        if newBlob.Failure? {
          errorMessage := DownloadError;
          return Error(DownloadError);
        }
        if newBlob.value.Size() == 0 {
          errorMessage := EmptyDownload;
          return Error(EmptyDownload);
        }
        var tempUrl := CreateObjectUrl(newBlob.value);
        pendingRevocations := pendingRevocations + {tempUrl};
        outcome := Download(newBlob.value.Bytes(), filename, mimeType, Some(tempUrl));
      } else if audioPlayerSrc.Some? && audioPlayerSrc.value.BlobUrl? {
        var blob := objectUrls[audioPlayerSrc.value.id];
        outcome := Download(blob.Bytes(), filename, blob.mime, None);
      } else {
        errorMessage := NoDownloadData;
        outcome := Error(NoDownloadData);
      }
    }

    /**
     * The `setTimeout` callback of a download: its temporary URL is revoked. The
     * timer also fires after the page has unmounted, when only pending URLs remain.
     */
    method RevokeScheduled(id: nat)
      requires id in pendingRevocations
      modifies this
      ensures old(Valid()) ==> Valid()
      ensures old(objectUrls.Keys == pendingRevocations) ==> objectUrls.Keys == pendingRevocations
      ensures objectUrls == old(objectUrls) - {id} && pendingRevocations == old(pendingRevocations) - {id}
      ensures base64Input == old(base64Input) && audioFormat == old(audioFormat)
      ensures isPcmData == old(isPcmData) && audioPlayerSrc == old(audioPlayerSrc)
      ensures errorMessage == old(errorMessage) && isDownloadDisabled == old(isDownloadDisabled)
    {
      objectUrls := objectUrls - {id};
      pendingRevocations := pendingRevocations - {id};
    }

    /**
     * Unmounting runs the cleanup of the effect on `audioPlayerSrc`: the player's
     * `blob:` URL is revoked, and only the download URLs still waiting for their
     * timer remain live.
     */
    method Unmount()
      requires Valid()
      modifies this
      ensures objectUrls.Keys == pendingRevocations
      ensures objectUrls == old(objectUrls) - old(PlayerBlobs())
      ensures pendingRevocations == old(pendingRevocations) && audioPlayerSrc == old(audioPlayerSrc)
      ensures base64Input == old(base64Input) && audioFormat == old(audioFormat)
      ensures isPcmData == old(isPcmData) && errorMessage == old(errorMessage)
      ensures isDownloadDisabled == old(isDownloadDisabled) && nextBlobId == old(nextBlobId)
    {
      if audioPlayerSrc.Some? && audioPlayerSrc.value.BlobUrl? {
        objectUrls := objectUrls - {audioPlayerSrc.value.id};
      }
    }
  }
}

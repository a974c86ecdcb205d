/**
 * The page's two decoders: `base64ToArrayBuffer`, which extracts the payload and
 * copies the character codes of `atob`'s result into a byte buffer, and
 * `base64ToBlob`, which decodes an already extracted payload and builds a Blob from
 * slices of at most 512 bytes.
 */
module Decoding {
  import opened Wrappers
  import opened Bytes
  import opened ForgivingBase64
  import opened Payload

  /** What `atob` throws: a DOMException named "InvalidCharacterError". */
  datatype DecodeError = InvalidCharacterError

  /** The length of each slice `base64ToBlob` builds. */
  const SliceSize: nat := 512

  /** The bytes the page decodes from a pasted input, or `None` when `atob` throws. */
  function DecodePayload(s: string): Option<seq<byte>> {
    Decode(SchemePayload(s))
  }

  /**
   * `base64ToArrayBuffer(base64)`: fails exactly when `atob` fails on the extracted
   * payload; otherwise the buffer is as long as `atob`'s result and byte `i` is its
   * `i`-th character code.
   */
  method Base64ToArrayBuffer(base64: string) returns (r: Result<seq<byte>, DecodeError>)
    ensures r.Failure? <==> Atob(SchemePayload(base64)).None?
    ensures r.Success? ==>
      var binary := Atob(SchemePayload(base64)).value;
      && |r.value| == |binary|
      && (forall i :: 0 <= i < |binary| ==> r.value[i] == binary[i] as int)
    ensures r.Success? <==> DecodePayload(base64).Some?
    ensures r.Success? ==> r.value == DecodePayload(base64).value
  {
    var cleanBase64 := SchemePayload(base64);
    var decoded := Atob(cleanBase64);
    if decoded.None? {
      return Failure(InvalidCharacterError);
    }
    var binaryString := decoded.value;
    var bytes := CopyCharCodes(binaryString);
    r := Success(bytes);
  }

  /**
   * The loop both decoders run over a binary string: a fresh array as long as the
   * string whose element `i` is `charCodeAt(i)`.
   */
  method CopyCharCodes(s: string) returns (bytes: seq<byte>)
    requires IsBinaryString(s)
    ensures bytes == CharCodes(s)
  {
    var length := |s|;
    var buffer := new byte[length];
    for i := 0 to length
      invariant forall k :: 0 <= k < i ==> buffer[k] == s[k] as int
    {
      buffer[i] := s[i] as int;
    }
    bytes := buffer[..];
  }

  /**
   * How `base64ToBlob` cuts `n` bytes: every slice holds between 1 and 512 bytes,
   * every slice but the last holds exactly 512, and there are ceil(n / 512) of them.
   */
  ghost predicate IsSlicing(parts: seq<seq<byte>>, n: nat) {
    && (forall i :: 0 <= i < |parts| ==> 0 < |parts[i]| <= SliceSize)
    && (forall i :: 0 <= i < |parts| - 1 ==> |parts[i]| == SliceSize)
    && |parts| == (n + SliceSize - 1) / SliceSize
  }

  /**
   * `base64ToBlob(base64, type)`: fails exactly when `atob(base64)` fails; otherwise
   * the Blob has the given type, its slices concatenate to the decoded bytes, and
   * they are cut 512 bytes at a time.
   */
  method Base64ToBlob(base64: string, mime: string) returns (r: Result<Blob, DecodeError>)
    ensures r.Failure? <==> Decode(base64).None?
    ensures r.Success? ==>
      && r.value.mime == mime
      && r.value.Bytes() == Decode(base64).value
      && IsSlicing(r.value.parts, |Decode(base64).value|)
  {
    var decoded := Atob(base64);
    if decoded.None? {
      return Failure(InvalidCharacterError);
    }
    var byteArrays := SliceCharCodes(decoded.value);
    r := Success(Blob(byteArrays, mime));
  }

  /**
   * The loops of `base64ToBlob`: the binary string is read 512 characters at a
   * time, and each slice's character codes become one part of the Blob.
   */
  method SliceCharCodes(byteCharacters: string) returns (byteArrays: seq<seq<byte>>)
    requires IsBinaryString(byteCharacters)
    ensures Flatten(byteArrays) == CharCodes(byteCharacters)
    ensures IsSlicing(byteArrays, |byteCharacters|)
  {
    ghost var codes := CharCodes(byteCharacters);
    var n := |byteCharacters|;
    byteArrays := [];
    var offset := 0;
    while offset < n
      invariant offset == SliceSize * |byteArrays|
      invariant |byteArrays| > 0 ==> SliceSize * (|byteArrays| - 1) < n
      invariant Flatten(byteArrays) == codes[..if offset <= n then offset else n]
      invariant forall i :: 0 <= i < |byteArrays| ==> 0 < |byteArrays[i]| <= SliceSize
      invariant forall i :: 0 <= i < |byteArrays| - 1 ==> |byteArrays[i]| == SliceSize
      invariant offset <= n ==> forall i :: 0 <= i < |byteArrays| ==> |byteArrays[i]| == SliceSize
    {
      var end := if offset + SliceSize <= n then offset + SliceSize else n;
      var slice := byteCharacters[offset..end];
      var byteNumbers := CopyCharCodes(slice);
      assert byteNumbers == codes[offset..end];
      assert codes[..end] == codes[..offset] + codes[offset..end];
      byteArrays := byteArrays + [byteNumbers];
      offset := offset + SliceSize;
    }
    assert codes[..n] == codes;
  }
}

/** Failure-compatible wrappers shared by every module of the model. */
module Wrappers {
  datatype Option<+T> = None | Some(value: T)

  datatype Result<+T, +E> = Success(value: T) | Failure(error: E)
}

/**
 * Bytes as the page handles them: the contents of an ArrayBuffer / Uint8Array,
 * JavaScript "binary strings" (every code unit below 256, as `atob` returns them),
 * little-endian integers as a DataView writes them, and Blobs built from parts.
 */
module Bytes {

  /** One element of a Uint8Array. */
  type byte = x: int | 0 <= x < 256

  /** A string whose every character is a byte value, as returned by `atob`. */
  predicate IsBinaryString(s: string) {
    forall i :: 0 <= i < |s| ==> s[i] as int < 256
  }

  /** `s.charCodeAt(i)` for every `i`, read into bytes. */
  function CharCodes(s: string): (r: seq<byte>)
    requires IsBinaryString(s)
    ensures |r| == |s| && forall i :: 0 <= i < |s| ==> r[i] == s[i] as int
  {
    seq(|s|, i requires 0 <= i < |s| => s[i] as int)
  }

  /** The binary string whose character codes are `b`. */
  function BinaryString(b: seq<byte>): (s: string)
    ensures |s| == |b| && forall i :: 0 <= i < |b| ==> s[i] as int == b[i]
    ensures IsBinaryString(s)
  {
    seq(|b|, i requires 0 <= i < |b| => b[i] as char)
  }

  lemma CharCodesOfBinaryString(b: seq<byte>)
    ensures CharCodes(BinaryString(b)) == b
  {
  }

  /** 256 to the power `n`: the number of values `n` bytes can hold. */
  function Pow256(n: nat): (p: nat)
    ensures p > 0
  {
    if n == 0 then 1 else 256 * Pow256(n - 1)
  }

  /** The `n` low bytes of `x`, least significant first. */
  function LittleEndian(x: nat, n: nat): (r: seq<byte>)
    ensures |r| == n
  {
    if n == 0 then [] else [x % 256] + LittleEndian(x / 256, n - 1)
  }

  /** The unsigned integer whose little-endian bytes are `s`. */
  function ReadLittleEndian(s: seq<byte>): nat {
    if s == [] then 0 else s[0] + 256 * ReadLittleEndian(s[1..])
  }

  /** Reading back what was written in `n` bytes gives the value, as long as it fits. */
  lemma {:induction false} LittleEndianRoundTrip(x: nat, n: nat)
    requires x < Pow256(n)
    ensures ReadLittleEndian(LittleEndian(x, n)) == x
  {
    if n > 0 {
      assert x / 256 < Pow256(n - 1);
      LittleEndianRoundTrip(x / 256, n - 1);
      assert LittleEndian(x, n)[1..] == LittleEndian(x / 256, n - 1);
    }
  }

  /** Every byte sequence is the little-endian form of the value it reads as. */
  lemma {:induction false} ReadLittleEndianRoundTrip(s: seq<byte>)
    ensures ReadLittleEndian(s) < Pow256(|s|)
    ensures LittleEndian(ReadLittleEndian(s), |s|) == s
  {
    if s != [] {
      ReadLittleEndianRoundTrip(s[1..]);
      ByteAndRest(s[0], ReadLittleEndian(s[1..]), Pow256(|s| - 1));
      assert s == [s[0]] + s[1..];
    }
  }

  /** A byte `a` below a value `r` scaled by 256: the two come apart by `%` and `/`. */
  lemma ByteAndRest(a: byte, r: nat, bound: nat)
    requires r < bound
    ensures (a + 256 * r) % 256 == a && (a + 256 * r) / 256 == r
    ensures a + 256 * r < 256 * bound
  {
  }

  /** The bytes of `parts` one after another, as a Blob made from them holds them. */
  function Flatten(parts: seq<seq<byte>>): seq<byte> {
    if parts == [] then [] else Flatten(parts[..|parts| - 1]) + parts[|parts| - 1]
  }

  /** A Blob: the parts it was built from and its `type`. */
  datatype Blob = Blob(parts: seq<seq<byte>>, mime: string) {
    function Bytes(): seq<byte> {
      Flatten(parts)
    }

    function Size(): nat {
      |Bytes()|
    }
  }
}

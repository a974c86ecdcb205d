/**
 * `window.atob`, which the page calls to decode its input. Browsers implement it as
 * the "forgiving-base64 decode" of the WHATWG Infra standard, built on the base64
 * alphabet of section 4 of RFC 4648: ASCII whitespace is dropped, one or two
 * trailing '=' are dropped when the length is a multiple of four, and the result
 * fails on a length of the form 4k+1 or on any character outside the alphabet.
 * `Encode` is the standard encoder (with padding), the reference partner of the decoder.
 */
module ForgivingBase64 {
  import opened Wrappers
  import opened Bytes

  /** ASCII whitespace: TAB, LF, FF, CR and SPACE. */
  predicate IsAsciiWhitespace(c: char) {
    c == '\t' || c == '\n' || c as int == 0x0C || c == '\r' || c == ' '
  }

  /** The 64 characters of the base64 alphabet. */
  predicate IsAlphabetChar(c: char) {
    ('A' <= c <= 'Z') || ('a' <= c <= 'z') || ('0' <= c <= '9') || c == '+' || c == '/'
  }

  predicate AllAlphabet(d: string) {
    forall i :: 0 <= i < |d| ==> IsAlphabetChar(d[i])
  }

  /** The 6-bit value of an alphabet character. */
  function SextetOf(c: char): (v: nat)
    requires IsAlphabetChar(c)
    ensures v < 64
  {
    if 'A' <= c <= 'Z' then c as int - 'A' as int
    else if 'a' <= c <= 'z' then 26 + (c as int - 'a' as int)
    else if '0' <= c <= '9' then 52 + (c as int - '0' as int)
    else if c == '+' then 62
    else 63
  }

  /** The alphabet character of a 6-bit value. */
  function AlphabetChar(v: nat): (c: char)
    requires v < 64
    ensures IsAlphabetChar(c) && SextetOf(c) == v
  {
    if v < 26 then ('A' as int + v) as char
    else if v < 52 then ('a' as int + (v - 26)) as char
    else if v < 62 then ('0' as int + (v - 52)) as char
    else if v == 62 then '+'
    else '/'
  }

  /** Step 1 of the decoder: every ASCII whitespace character removed, order kept. */
  function RemoveAsciiWhitespace(s: string): (r: string)
    ensures |r| <= |s|
    ensures forall i :: 0 <= i < |r| ==> !IsAsciiWhitespace(r[i])
  {
    if s == [] then []
    else (if IsAsciiWhitespace(s[0]) then [] else [s[0]]) + RemoveAsciiWhitespace(s[1..])
  }

  /** Step 2: when the length is a multiple of four, one or two trailing '=' go. */
  function StripPadding(d: string): (r: string)
    ensures |r| <= |d|
  {
    if |d| % 4 != 0 then d
    else if |d| >= 2 && d[|d| - 2] == '=' && d[|d| - 1] == '=' then d[..|d| - 2]
    else if |d| >= 1 && d[|d| - 1] == '=' then d[..|d| - 1]
    else d
  }

  /** First byte of a group: the 6 bits of `c0` and the top 2 bits of `c1`. */
  function Byte0(c0: char, c1: char): byte
    requires IsAlphabetChar(c0) && IsAlphabetChar(c1)
  {
    SextetOf(c0) * 4 + SextetOf(c1) / 16
  }

  /** Second byte of a group: the low 4 bits of `c1` and the top 4 bits of `c2`. */
  function Byte1(c1: char, c2: char): byte
    requires IsAlphabetChar(c1) && IsAlphabetChar(c2)
  {
    (SextetOf(c1) % 16) * 16 + SextetOf(c2) / 4
  }

  /** Third byte of a group: the low 2 bits of `c2` and the 6 bits of `c3`. */
  function Byte2(c2: char, c3: char): byte
    requires IsAlphabetChar(c2) && IsAlphabetChar(c3)
  {
    (SextetOf(c2) % 4) * 64 + SextetOf(c3)
  }

  /**
   * Steps 5 and 6 on one group: four characters (24 bits) give three bytes, a tail
   * of three characters (18 bits) two and one of two characters (12 bits) one, the
   * left-over low bits being discarded.
   */
  function DecodeGroup(g: string): (r: seq<byte>)
    requires AllAlphabet(g) && 2 <= |g| <= 4
    ensures |r| == |g| - 1
  {
    if |g| == 2 then [Byte0(g[0], g[1])]
    else if |g| == 3 then [Byte0(g[0], g[1]), Byte1(g[1], g[2])]
    else [Byte0(g[0], g[1]), Byte1(g[1], g[2]), Byte2(g[2], g[3])]
  }

  /** Steps 5 and 6 on the whole text, four characters at a time. */
  function DecodeGroups(d: string): (r: seq<byte>)
    requires AllAlphabet(d) && |d| % 4 != 1
    ensures |r| == 3 * |d| / 4
    decreases |d|
  {
    if |d| == 0 then []
    else if |d| <= 4 then
      ThreeQuartersOfGroup(|d|);
      DecodeGroup(d)
    else
      ThreeQuartersStep(|d|);
      DecodeGroup(d[..4]) + DecodeGroups(d[4..])
  }

  /** A group of four characters adds three bytes to the 3/4 length bound. */
  lemma ThreeQuartersStep(n: int)
    requires n > 4
    ensures 3 * n / 4 == 3 + 3 * (n - 4) / 4
    ensures (n - 4) % 4 == n % 4
  {
  }

  /** A last group of two, three or four characters gives one byte fewer than its length. */
  lemma ThreeQuartersOfGroup(n: int)
    requires 2 <= n <= 4
    ensures 3 * n / 4 == n - 1
  {
  }

  /**
   * The forgiving-base64 decode, as bytes; `None` is the decoder's failure. Every
   * four characters give three bytes, so the result is at most 3/4 as long as `s`.
   */
  function Decode(s: string): (r: Option<seq<byte>>)
    ensures r.Some? ==> 4 * |r.value| <= 3 * |s|
  {
    var d := StripPadding(RemoveAsciiWhitespace(s));
    if |d| % 4 == 1 || !AllAlphabet(d) then None else Some(DecodeGroups(d))
  }

  /** `window.atob(s)`: the decoded bytes as a binary string, or the thrown error. */
  function Atob(s: string): (r: Option<string>)
    ensures r.Some? ==> IsBinaryString(r.value)
    ensures r.Some? <==> Decode(s).Some?
    ensures r.Some? ==> CharCodes(r.value) == Decode(s).value
  {
    match Decode(s)
    case None => None
    case Some(b) => Some(BinaryString(b))
  }

  /** The characters of one group of one to three bytes, without padding. */
  function EncodeGroup(b: seq<byte>): (s: string)
    requires 1 <= |b| <= 3
    ensures |s| == |b| + 1 && AllAlphabet(s)
  {
    if |b| == 1 then [AlphabetChar(b[0] / 4), AlphabetChar((b[0] % 4) * 16)]
    else if |b| == 2 then
      [AlphabetChar(b[0] / 4), AlphabetChar((b[0] % 4) * 16 + b[1] / 16), AlphabetChar((b[1] % 16) * 4)]
    else
      [AlphabetChar(b[0] / 4), AlphabetChar((b[0] % 4) * 16 + b[1] / 16),
       AlphabetChar((b[1] % 16) * 4 + b[2] / 64), AlphabetChar(b[2] % 64)]
  }

  /** The standard base64 encoding of `b` without its '=' padding, three bytes at a time. */
  function EncodeGroups(b: seq<byte>): (s: string)
    ensures |s| % 4 != 1 && AllAlphabet(s)
    ensures b != [] ==> s != []
    decreases |b|
  {
    if |b| == 0 then []
    else if |b| <= 3 then EncodeGroup(b)
    else
      var head := EncodeGroup(b[..3]);
      var tail := EncodeGroups(b[3..]);
      AppendGroup(head, tail);
      head + tail
  }

  /** A full group of four in front of a well-formed unpadded encoding keeps it well formed. */
  lemma AppendGroup(head: string, tail: string)
    requires |head| == 4 && AllAlphabet(head)
    requires |tail| % 4 != 1 && AllAlphabet(tail)
    ensures |head + tail| % 4 != 1 && AllAlphabet(head + tail) && head + tail != []
  {
    assert |head + tail| == |tail| + 4;
  }

  /** The standard base64 encoding of `b` (section 4 of RFC 4648), padded with '=' to a multiple of four. */
  function Encode(b: seq<byte>): (s: string)
    ensures |s| % 4 == 0
  {
    var g := EncodeGroups(b);
    var padding := Padding(g);
    PaddingCompletes(g);
    g + padding
  }

  /** The '=' characters that complete an unpadded encoding to a multiple of four. */
  function Padding(g: string): string {
    if |g| % 4 == 2 then "==" else if |g| % 4 == 3 then "=" else ""
  }

  lemma PaddingCompletes(g: string)
    requires |g| % 4 != 1
    ensures |g + Padding(g)| % 4 == 0
  {
  }

  lemma {:induction false} DecodeGroupsOfEncodeGroups(b: seq<byte>)
    ensures DecodeGroups(EncodeGroups(b)) == b
    decreases |b|
  {
    if 1 <= |b| <= 3 {
      DecodeGroupOfEncodeGroup(b);
    } else if |b| > 3 {
      var s := EncodeGroups(b);
      assert s[..4] == EncodeGroup(b[..3]);
      assert s[4..] == EncodeGroups(b[3..]);
      DecodeGroupOfEncodeGroup(b[..3]);
      DecodeGroupsOfEncodeGroups(b[3..]);
      assert b == b[..3] + b[3..];
    }
  }

  /** One group decodes back to its bytes. */
  lemma DecodeGroupOfEncodeGroup(b: seq<byte>)
    requires 1 <= |b| <= 3
    ensures DecodeGroup(EncodeGroup(b)) == b
  {
    if |b| == 1 {
      OneByteGroup(b[0]);
    } else if |b| == 2 {
      TwoByteGroup(b[0], b[1]);
    } else {
      ThreeByteGroup(b[0], b[1], b[2]);
    }
  }

  /** The two characters of a one-byte tail decode to that byte. */
  lemma OneByteGroup(b0: byte)
    ensures Byte0(AlphabetChar(b0 / 4), AlphabetChar((b0 % 4) * 16)) == b0
  {
  }

  /** The three characters of a two-byte tail decode to those bytes. */
  lemma TwoByteGroup(b0: byte, b1: byte)
    ensures Byte0(AlphabetChar(b0 / 4), AlphabetChar((b0 % 4) * 16 + b1 / 16)) == b0
    ensures Byte1(AlphabetChar((b0 % 4) * 16 + b1 / 16), AlphabetChar((b1 % 16) * 4)) == b1
  {
  }

  /** The four characters of a full group decode to its three bytes. */
  lemma ThreeByteGroup(b0: byte, b1: byte, b2: byte)
    ensures Byte0(AlphabetChar(b0 / 4), AlphabetChar((b0 % 4) * 16 + b1 / 16)) == b0
    ensures Byte1(AlphabetChar((b0 % 4) * 16 + b1 / 16), AlphabetChar((b1 % 16) * 4 + b2 / 64)) == b1
    ensures Byte2(AlphabetChar((b1 % 16) * 4 + b2 / 64), AlphabetChar(b2 % 64)) == b2
  {
  }

  lemma {:induction false} RemoveAsciiWhitespaceOfClean(s: string)
    requires forall i :: 0 <= i < |s| ==> !IsAsciiWhitespace(s[i])
    ensures RemoveAsciiWhitespace(s) == s
  {
    if s != [] {
      RemoveAsciiWhitespaceOfClean(s[1..]);
    }
  }

  /** `atob` undoes the standard encoding: decoding `Encode(b)` gives back `b`. */
  lemma DecodeEncode(b: seq<byte>)
    ensures Decode(Encode(b)) == Some(b)
  {
    var s := Encode(b);
    EncodeCharacters(b);
    RemoveAsciiWhitespaceOfClean(s);
    StripPaddingOfEncode(b);
    DecodeGroupsOfEncodeGroups(b);
  }

  /** The encoding uses only the alphabet and the '=' padding. */
  lemma EncodeCharacters(b: seq<byte>)
    ensures forall i :: 0 <= i < |Encode(b)| ==> IsAlphabetChar(Encode(b)[i]) || Encode(b)[i] == '='
  {
    var g := EncodeGroups(b);
    var s := Encode(b);
    forall i | 0 <= i < |s| ensures IsAlphabetChar(s[i]) || s[i] == '=' {
      if i < |g| { assert s[i] == g[i]; }
    }
  }

  /** Step 2 removes exactly the padding `Encode` added. */
  lemma StripPaddingOfEncode(b: seq<byte>)
    ensures StripPadding(Encode(b)) == EncodeGroups(b)
  {
    StripPaddingOfPadded(EncodeGroups(b));
  }

  /** Whatever unpadded encoding `g` is, step 2 takes off exactly the '=' that `Padding` put on. */
  lemma StripPaddingOfPadded(g: string)
    requires AllAlphabet(g) && |g| % 4 != 1
    ensures StripPadding(g + Padding(g)) == g
  {
    if |g| % 4 == 0 {
      StripPaddingOfFullGroups(g);
    } else if |g| % 4 == 3 {
      StripOnePad(g);
    } else {
      StripTwoPads(g);
    }
  }

  /** Without padding, the last character is a letter of the alphabet and stays. */
  lemma StripPaddingOfFullGroups(g: string)
    requires AllAlphabet(g) && |g| % 4 == 0
    ensures StripPadding(g + Padding(g)) == g
  {
    assert g + Padding(g) == g;
    if |g| > 0 {
      assert IsAlphabetChar(g[|g| - 1]);
    }
  }

  /** One '=' after a three-character tail: only it goes. */
  lemma StripOnePad(g: string)
    requires AllAlphabet(g) && |g| % 4 == 3
    ensures StripPadding(g + Padding(g)) == g
  {
    var s := g + "=";
    assert g + Padding(g) == s;
    assert s[|s| - 2] == g[|g| - 1];
    assert IsAlphabetChar(g[|g| - 1]);
    assert s[..|s| - 1] == g;
  }

  /** Two '=' after a two-character tail: both go. */
  lemma StripTwoPads(g: string)
    requires |g| % 4 == 2
    ensures StripPadding(g + Padding(g)) == g
  {
    var s := g + "==";
    assert g + Padding(g) == s;
    assert s[..|s| - 2] == g;
  }

  /** `atob(btoa(s)) == s` for every binary string `s`. */
  lemma AtobOfEncode(b: seq<byte>)
    ensures Atob(Encode(b)) == Some(BinaryString(b))
  {
    DecodeEncode(b);
  }

  /**
   * A character outside the alphabet that survives whitespace removal and is not
   * trailing padding makes `atob` throw.
   */
  lemma DecodeRejectsForeignChar(s: string, i: nat)
    requires i < |s| && !IsAlphabetChar(s[i]) && !IsAsciiWhitespace(s[i]) && s[i] != '='
    ensures Decode(s).None?
  {
    KeptCharSurvives(s, i);
    var r := RemoveAsciiWhitespace(s);
    var j :| 0 <= j < |r| && r[j] == s[i];
    var d := StripPadding(r);
    StripPaddingDropsOnlyPadding(r);
    assert j < |d| && d[j] == r[j];
    assert !AllAlphabet(d);
  }

  /** Step 2 keeps a prefix and drops only '=' characters. */
  lemma StripPaddingDropsOnlyPadding(r: string)
    ensures var d := StripPadding(r);
      && |d| <= |r| && d == r[..|d|]
      && forall k :: |d| <= k < |r| ==> r[k] == '='
  {
  }

  /** A character that is not whitespace is kept by step 1. */
  lemma {:induction false} KeptCharSurvives(s: string, i: nat)
    requires i < |s| && !IsAsciiWhitespace(s[i])
    ensures exists j :: 0 <= j < |RemoveAsciiWhitespace(s)| && RemoveAsciiWhitespace(s)[j] == s[i]
    decreases |s|
  {
    var r := RemoveAsciiWhitespace(s);
    if i == 0 {
      assert r[0] == s[0];
    } else {
      KeptCharSurvives(s[1..], i - 1);
      var r' := RemoveAsciiWhitespace(s[1..]);
      var j :| 0 <= j < |r'| && r'[j] == s[1..][i - 1];
      var k := if IsAsciiWhitespace(s[0]) then j else j + 1;
      assert r[k] == s[i];
    }
  }
}

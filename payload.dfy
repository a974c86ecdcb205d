/**
 * How the page finds the base64 text inside what was pasted: `String.prototype.trim`,
 * then, when the text contains ";base64,", the piece `split(";base64,")[1]`, which
 * lies between the first occurrence of the marker and the next one (or the end).
 */
module Payload {
  import opened Wrappers

  /** The marker that ends a `data:<mime>;base64,` prefix. */
  const Marker: string := ";base64,"

  /** WhiteSpace and LineTerminator code points, the characters `trim` removes. */
  predicate IsJsWhitespace(c: char) {
    var n := c as int;
    n == 0x09 || n == 0x0A || n == 0x0B || n == 0x0C || n == 0x0D || n == 0x20
    || n == 0xA0 || n == 0x1680 || (0x2000 <= n <= 0x200A) || n == 0x2028 || n == 0x2029
    || n == 0x202F || n == 0x205F || n == 0x3000 || n == 0xFEFF
  }

  predicate AllJsWhitespace(s: string) {
    forall i :: 0 <= i < |s| ==> IsJsWhitespace(s[i])
  }

  /** `s` without its leading whitespace. */
  function TrimStart(s: string): string {
    if s != [] && IsJsWhitespace(s[0]) then TrimStart(s[1..]) else s
  }

  /** `s` without its trailing whitespace. */
  function TrimEnd(s: string): string {
    if s != [] && IsJsWhitespace(s[|s| - 1]) then TrimEnd(s[..|s| - 1]) else s
  }

  /** `TrimStart` removes a whitespace prefix and nothing else. */
  lemma {:induction false} TrimStartRemovesWhitespacePrefix(s: string)
    ensures var r := TrimStart(s);
      && |r| <= |s| && r == s[|s| - |r|..]
      && AllJsWhitespace(s[..|s| - |r|])
      && (r == [] || !IsJsWhitespace(r[0]))
  {
    if s != [] && IsJsWhitespace(s[0]) {
      TrimStartRemovesWhitespacePrefix(s[1..]);
      var r := TrimStart(s);
      assert s[..|s| - |r|] == [s[0]] + s[1..][..|s| - 1 - |r|];
    }
  }

  /** `TrimEnd` removes a whitespace suffix and nothing else. */
  lemma {:induction false} TrimEndRemovesWhitespaceSuffix(s: string)
    ensures var r := TrimEnd(s);
      && |r| <= |s| && r == s[..|r|]
      && AllJsWhitespace(s[|r|..])
      && (r == [] || !IsJsWhitespace(r[|r| - 1]))
  {
    if s != [] && IsJsWhitespace(s[|s| - 1]) {
      var s' := s[..|s| - 1];
      TrimEndRemovesWhitespaceSuffix(s');
      var r := TrimEnd(s);
      assert s[|r|..] == s'[|r|..] + [s[|s| - 1]];
    }
  }

  /** `s.trim()`. */
  function Trim(s: string): string {
    TrimEnd(TrimStart(s))
  }

  /** `!s.trim()`: the text is empty or whitespace only. */
  predicate IsBlank(s: string) {
    Trim(s) == []
  }

  /** `trim` gives the empty string exactly when every character is whitespace. */
  lemma BlankIffAllWhitespace(s: string)
    ensures IsBlank(s) <==> AllJsWhitespace(s)
  {
    var t := TrimStart(s);
    TrimStartRemovesWhitespacePrefix(s);
    TrimEndRemovesWhitespaceSuffix(t);
    var cut := |s| - |t|;
    if IsBlank(s) {
      assert AllJsWhitespace(t) by { assert t[0..] == t; }
      assert s[..cut] == s;
    } else if t != [] {
      assert t[0] == s[cut];
    }
  }

  /** `trim` leaves text alone when neither end is whitespace. */
  lemma TrimOfTrimmed(s: string)
    requires s == [] || (!IsJsWhitespace(s[0]) && !IsJsWhitespace(s[|s| - 1]))
    ensures Trim(s) == s
  {
  }

  /** `pat` occurs in `s` starting at index `k`. */
  predicate OccursAt(s: string, pat: string, k: nat) {
    k + |pat| <= |s| && s[k..k + |pat|] == pat
  }

  /** `s.indexOf(pat, from)`: the first occurrence of `pat` at or after `from`. */
  function IndexOf(s: string, pat: string, from: nat): (r: Option<nat>)
    ensures r.Some? ==> from <= r.value && OccursAt(s, pat, r.value)
    ensures r.Some? ==> forall j :: from <= j < r.value ==> !OccursAt(s, pat, j)
    ensures r.None? ==> forall j :: from <= j ==> !OccursAt(s, pat, j)
    decreases |s| - from
  {
    if from + |pat| > |s| then None
    else if OccursAt(s, pat, from) then Some(from)
    else IndexOf(s, pat, from + 1)
  }

  /** `pat` placed right after `p` occurs there, whatever follows it. */
  lemma OccursAfter(p: string, pat: string, s: string)
    ensures OccursAt(p + pat + s, pat, |p|)
  {
    var t := p + pat + s;
    assert forall i | 0 <= i < |pat| :: t[|p|..|p| + |pat|][i] == pat[i];
  }

  /** An occurrence at `k` with none before it, from `from` on, is what `indexOf` finds. */
  lemma FirstOccurrence(t: string, pat: string, from: nat, k: nat)
    requires from <= k && OccursAt(t, pat, k)
    requires forall j :: from <= j < k ==> !OccursAt(t, pat, j)
    ensures IndexOf(t, pat, from) == Some(k)
  {
  }

  /**
   * The header `p + ";base64,"` ends at its first marker: no marker starts inside
   * `p` (`p` may still hold parameters such as `;codecs=opus`).
   */
  predicate EndsAtFirstMarker(p: string) {
    forall j :: 0 <= j < |p| ==> !OccursAt(p + Marker, Marker, j)
  }

  /** `EndsAtFirstMarker(p)` says that `indexOf` finds the marker right after `p`. */
  lemma EndsAtFirstMarkerMeansIndexOf(p: string)
    ensures EndsAtFirstMarker(p) <==> IndexOf(p + Marker, Marker, 0) == Some(|p|)
  {
    OccursAfter(p, Marker, []);
    assert p + Marker + [] == p + Marker;
    if EndsAtFirstMarker(p) {
      FirstOccurrence(p + Marker, Marker, 0, |p|);
    }
  }

  /** `t.split(";base64,")[1]` for a text that contains the marker. */
  function SecondPiece(t: string): (r: string)
    requires IndexOf(t, Marker, 0).Some?
  {
    var start := IndexOf(t, Marker, 0).value + |Marker|;
    match IndexOf(t, Marker, start)
    case Some(next) => t[start..next]
    case None => t[start..]
  }

  /**
   * The text the page hands to `atob`: the trimmed input, or the piece between the
   * first and the second ";base64," when the trimmed input contains one.
   */
  function SchemePayload(s: string): (r: string)
    ensures |r| <= |s|
    ensures IndexOf(r, Marker, 0).None?
  {
    var t := Trim(s);
    TrimStartRemovesWhitespacePrefix(s);
    TrimEndRemovesWhitespaceSuffix(TrimStart(s));
    match IndexOf(t, Marker, 0)
    case Some(k) =>
      SecondPieceBetweenMarkers(t, k);
      PieceHasNoMarker(t, k + |Marker|, SecondPiece(t));
      SecondPiece(t)
    case None => t
  }

  /** A piece of `t` in which no marker starts holds no marker of its own. */
  lemma PieceHasNoMarker(t: string, start: nat, r: string)
    requires start + |r| <= |t| && r == t[start..start + |r|]
    requires forall j :: start <= j < start + |r| ==> !OccursAt(t, Marker, j)
    ensures IndexOf(r, Marker, 0).None?
  {
    forall j | 0 <= j ensures !OccursAt(r, Marker, j) {
      OccursInSlice(t, start, r, j);
    }
  }

  /** An occurrence of the marker inside a piece of `t` is one in `t`, and conversely. */
  lemma OccursInSlice(t: string, start: nat, r: string, j: nat)
    requires start + |r| <= |t| && r == t[start..start + |r|]
    ensures OccursAt(r, Marker, j) ==> OccursAt(t, Marker, start + j)
    ensures j + |Marker| <= |r| ==> (OccursAt(r, Marker, j) <==> OccursAt(t, Marker, start + j))
  {
    if j + |Marker| <= |r| {
      var a := r[j..j + |Marker|];
      var b := t[start + j..start + j + |Marker|];
      assert forall i | 0 <= i < |Marker| :: a[i] == r[j + i] == t[start + j + i] == b[i];
      assert a == b;
    }
  }

  /**
   * When the marker first occurs at `k`, the payload starts right after it, contains
   * no further marker, and runs up to the next marker or to the end of the text.
   */
  lemma SecondPieceBetweenMarkers(t: string, k: nat)
    requires IndexOf(t, Marker, 0) == Some(k)
    ensures var r := SecondPiece(t); var start := k + |Marker|;
      && start + |r| <= |t|
      && r == t[start..start + |r|]
      && (forall j :: start <= j < start + |r| ==> !OccursAt(t, Marker, j))
      && (start + |r| == |t| || OccursAt(t, Marker, start + |r|))
  {
    var start := k + |Marker|;
    match IndexOf(t, Marker, start)
    case Some(next) =>
      assert SecondPiece(t) == t[start..next];
    case None =>
      assert SecondPiece(t) == t[start..];
  }

  /** With a single marker, the payload is everything after it. */
  lemma SecondPieceOfSingleMarker(t: string, k: nat)
    requires IndexOf(t, Marker, 0) == Some(k)
    requires IndexOf(t, Marker, k + |Marker|).None?
    ensures SecondPiece(t) == t[k + |Marker|..]
  {
  }

  /** Every occurrence of the marker starts with a ';'. */
  lemma MarkerNeedsSemicolon(t: string, j: nat)
    requires OccursAt(t, Marker, j)
    ensures t[j] == ';'
  {
    assert t[j..j + |Marker|][0] == t[j];
  }

  /** A prefix without ';' is ended by the first marker that follows it. */
  lemma NoSemicolonPrefix(p: string)
    requires forall i :: 0 <= i < |p| ==> p[i] != ';'
    ensures EndsAtFirstMarker(p)
  {
    var t := p + Marker;
    forall j | 0 <= j < |p| ensures !OccursAt(t, Marker, j) {
      if OccursAt(t, Marker, j) { MarkerNeedsSemicolon(t, j); }
    }
  }

  /**
   * In `p + ";base64," + s`, where the marker after `p` is the first one and `s`
   * has no ';', the only marker is the one in the middle.
   */
  lemma {:induction false} OnlyMiddleMarker(p: string, s: string)
    requires EndsAtFirstMarker(p)
    requires forall i :: 0 <= i < |s| ==> s[i] != ';'
    ensures IndexOf(p + Marker + s, Marker, 0) == Some(|p|)
    ensures IndexOf(p + Marker + s, Marker, |p| + |Marker|).None?
  {
    var t := p + Marker + s;
    MiddleMarkerFirst(p, s);
    forall j | |p| + |Marker| <= j ensures !OccursAt(t, Marker, j) {
      if OccursAt(t, Marker, j) { MarkerNeedsSemicolon(t, j); }
    }
  }

  /** In `p + ";base64," + s`, where `p` ends at its first marker, `indexOf` finds the marker after `p`. */
  lemma MiddleMarkerFirst(p: string, s: string)
    requires EndsAtFirstMarker(p)
    ensures IndexOf(p + Marker + s, Marker, 0) == Some(|p|)
  {
    var t := p + Marker + s;
    OccursAfter(p, Marker, s);
    forall j | 0 <= j < |p| ensures !OccursAt(t, Marker, j) {
      assert t[0..|p + Marker|] == p + Marker;
      OccursInSlice(t, 0, p + Marker, j);
    }
    FirstOccurrence(t, Marker, 0, |p|);
  }

  /** A text `s` without the marker adds no marker after the one in `p + ";base64," + s`. */
  lemma NoMarkerInTail(p: string, s: string)
    requires IndexOf(s, Marker, 0).None?
    ensures IndexOf(p + Marker + s, Marker, |p| + |Marker|).None?
  {
    NoOccurrenceInTail(p + Marker, s, Marker);
  }

  /** A pattern that does not occur in `s` does not occur in `h + s` from `|h|` on. */
  lemma NoOccurrenceInTail(h: string, s: string, pat: string)
    requires IndexOf(s, pat, 0).None?
    ensures IndexOf(h + s, pat, |h|).None?
  {
    forall j | |h| <= j ensures !OccursAt(h + s, pat, j) {
      if OccursAt(h + s, pat, j) {
        OccursInTail(h, s, pat, j);
      }
    }
    NoOccurrence(h + s, pat, |h|);
  }

  /** An occurrence in `h + s` at or after `|h|` is one in `s`. */
  lemma OccursInTail(h: string, s: string, pat: string, j: nat)
    requires |h| <= j && OccursAt(h + s, pat, j)
    ensures OccursAt(s, pat, j - |h|)
  {
    var k := j - |h|;
    assert s[k..k + |pat|] == (h + s)[j..j + |pat|];
  }

  /** No occurrence at or after `from` means `IndexOf` finds none. */
  lemma NoOccurrence(t: string, pat: string, from: nat)
    requires forall j :: from <= j ==> !OccursAt(t, pat, j)
    ensures IndexOf(t, pat, from).None?
  {
  }

  /**
   * Behind a header `p + ";base64,"` that starts with a non-whitespace character and
   * ends at its first marker, any text `s` without a marker that does not end in
   * whitespace is exactly what the page extracts. `s` may contain ';' and may start
   * with whitespace.
   */
  lemma PayloadBehindPlainHeader(p: string, s: string)
    requires EndsAtFirstMarker(p) && p != [] && !IsJsWhitespace(p[0])
    requires IndexOf(s, Marker, 0).None?
    requires s == [] || !IsJsWhitespace(s[|s| - 1])
    ensures SchemePayload(p + Marker + s) == s
  {
    TrimKeepsPlainHeader(p, s);
    MiddleMarkerFirst(p, s);
    NoMarkerInTail(p, s);
    PayloadAfterOnlyMarker(p + Marker + s, p, s);
  }

  /** `trim` leaves `p + ";base64," + s` alone when `p` does not start and `s` does not end in whitespace. */
  lemma TrimKeepsPlainHeader(p: string, s: string)
    requires p != [] && !IsJsWhitespace(p[0])
    requires s == [] || !IsJsWhitespace(s[|s| - 1])
    ensures Trim(p + Marker + s) == p + Marker + s
  {
    var t := p + Marker + s;
    assert t[0] == p[0];
    if s == [] {
      assert t[|t| - 1] == Marker[|Marker| - 1];
    } else {
      assert t[|t| - 1] == s[|s| - 1];
    }
    KeptByTrim(t);
  }

  /** Text without ';' has no marker at all. */
  lemma NoMarkerWithoutSemicolon(s: string)
    requires forall i :: 0 <= i < |s| ==> s[i] != ';'
    ensures IndexOf(s, Marker, 0).None?
  {
    forall j | 0 <= j ensures !OccursAt(s, Marker, j) {
      if OccursAt(s, Marker, j) { MarkerNeedsSemicolon(s, j); }
    }
  }

  /**
   * When `x` trims to `q + ";base64," + s` and that marker is the only one, the
   * payload is everything after it.
   */
  lemma PayloadAfterOnlyMarker(x: string, q: string, s: string)
    requires Trim(x) == q + Marker + s
    requires IndexOf(q + Marker + s, Marker, 0) == Some(|q|)
    requires IndexOf(q + Marker + s, Marker, |q| + |Marker|).None?
    ensures SchemePayload(x) == s
  {
    var t := q + Marker + s;
    SecondPieceOfSingleMarker(t, |q|);
    assert t[|q| + |Marker|..] == s;
  }

  /** Leading whitespace goes up to the first non-whitespace character, wherever the text continues. */
  lemma {:induction false} TrimStartAppend(a: string, b: string)
    requires b != [] && !IsJsWhitespace(b[0])
    ensures TrimStart(a + b) == TrimStart(a) + b
  {
    if a == [] {
      assert a + b == b;
    } else {
      assert (a + b)[0] == a[0];
      if IsJsWhitespace(a[0]) {
        assert (a + b)[1..] == a[1..] + b;
        TrimStartAppend(a[1..], b);
      }
    }
  }

  /** Trimming the start of the prefix keeps the marker after it the first one. */
  lemma FirstMarkerAfterTrimmedPrefix(p: string)
    requires EndsAtFirstMarker(p)
    ensures EndsAtFirstMarker(TrimStart(p))
  {
    var q := TrimStart(p);
    TrimStartRemovesWhitespacePrefix(p);
    var cut := |p| - |q|;
    assert forall i :: 0 <= i < |q| + |Marker| ==> (q + Marker)[i] == (p + Marker)[cut + i];
    FirstMarkerAfterSuffix(p + Marker, q + Marker, cut);
  }

  /**
   * When no marker starts before the last 8 characters of `u`, the same holds of
   * every suffix `v` of `u`.
   */
  lemma FirstMarkerAfterSuffix(u: string, v: string, cut: nat)
    requires |Marker| <= |v| && cut + |v| == |u|
    requires forall i :: 0 <= i < |v| ==> v[i] == u[cut + i]
    requires forall j :: 0 <= j < |u| - |Marker| ==> !OccursAt(u, Marker, j)
    ensures forall j :: 0 <= j < |v| - |Marker| ==> !OccursAt(v, Marker, j)
  {
    assert v == u[cut..];
    forall j | 0 <= j < |v| - |Marker| ensures !OccursAt(v, Marker, j) {
      OccursInSlice(u, cut, v, j);
    }
  }

  /**
   * A `<prefix>;base64,` header in front of a payload changes nothing: the page
   * extracts the same text from `p + ";base64," + s` as from `s` alone, provided the
   * marker after the prefix is its first one (the prefix may carry parameters such
   * as `;codecs=opus` and leading whitespace), the payload has no ';' (base64 never
   * does), and the payload neither starts nor ends with whitespace.
   */
  lemma {:induction false} SchemePrefixIgnored(p: string, s: string)
    requires EndsAtFirstMarker(p)
    requires forall i :: 0 <= i < |s| ==> s[i] != ';'
    requires s == [] || (!IsJsWhitespace(s[0]) && !IsJsWhitespace(s[|s| - 1]))
    ensures SchemePayload(p + Marker + s) == s
    ensures SchemePayload(s) == s
  {
    PayloadBehindHeader(p, s);
    TrimOfTrimmed(s);
    NoMarkerWithoutSemicolon(s);
  }

  /** The payload behind a `<prefix>;base64,` header, under the conditions above. */
  lemma PayloadBehindHeader(p: string, s: string)
    requires EndsAtFirstMarker(p)
    requires forall i :: 0 <= i < |s| ==> s[i] != ';'
    requires s == [] || (!IsJsWhitespace(s[0]) && !IsJsWhitespace(s[|s| - 1]))
    ensures SchemePayload(p + Marker + s) == s
  {
    var q := TrimStart(p);
    TrimOfMarked(p, s);
    FirstMarkerAfterTrimmedPrefix(p);
    OnlyMiddleMarker(q, s);
    PayloadAfterOnlyMarker(p + Marker + s, q, s);
  }

  /** Trimming `p + ";base64," + s` only trims the start of `p`. */
  lemma TrimOfMarked(p: string, s: string)
    requires s == [] || (!IsJsWhitespace(s[0]) && !IsJsWhitespace(s[|s| - 1]))
    ensures Trim(p + Marker + s) == TrimStart(p) + Marker + s
  {
    var q := TrimStart(p);
    assert p + Marker + s == p + (Marker + s);
    assert q + (Marker + s) == q + Marker + s;
    TrimStartAppend(p, Marker + s);
    TrimStartRemovesWhitespacePrefix(p);
    MarkedTextIsTrimmed(q, s);
  }

  /** Text that neither starts nor ends with whitespace around a marker is left alone by trimming. */
  lemma MarkedTextIsTrimmed(q: string, s: string)
    requires q == [] || !IsJsWhitespace(q[0])
    requires s == [] || (!IsJsWhitespace(s[0]) && !IsJsWhitespace(s[|s| - 1]))
    ensures TrimStart(q + Marker + s) == q + Marker + s
    ensures TrimEnd(q + Marker + s) == q + Marker + s
  {
    var t := q + Marker + s;
    assert t[|t| - 1] == (if s == [] then ',' else s[|s| - 1]);
    assert t[0] == (if q == [] then ';' else q[0]);
    KeptByTrim(t);
  }

  /** Text that neither starts nor ends with whitespace is left alone by each half of `trim`. */
  lemma KeptByTrim(t: string)
    requires t != [] && !IsJsWhitespace(t[0]) && !IsJsWhitespace(t[|t| - 1])
    ensures TrimStart(t) == t && TrimEnd(t) == t
  {
  }
}

/**
 * The two functions of Go's `strings` package that the delivery engine uses:
 * `TrimSpace` (format normalisation) and `Join` (multi-valued headers).
 * Strings are sequences of Unicode code points; Go's UTF-8 decoding is not modelled.
 */
module Text {

  /** Go's `unicode.IsSpace`: the characters with the Unicode White_Space property. */
  predicate IsSpace(c: char) {
    || '\t' <= c <= '\r'            // tab, line feed, vertical tab, form feed, carriage return
    || c == ' '
    || c == '\U{0085}'              // next line
    || c == '\U{00A0}'              // no-break space
    || c == '\U{1680}'              // ogham space mark
    || '\U{2000}' <= c <= '\U{200A}'  // en quad .. hair space
    || c == '\U{2028}' || c == '\U{2029}'
    || c == '\U{202F}' || c == '\U{205F}' || c == '\U{3000}'
  }

  /** Every character of `s` is white space (vacuously so for the empty string). */
  predicate IsBlank(s: string) {
    forall i :: 0 <= i < |s| ==> IsSpace(s[i])
  }

  /** `s` without its leading white space. */
  function TrimLeft(s: string): (r: string)
    ensures |r| <= |s| && r == s[|s| - |r|..]
    ensures forall i :: 0 <= i < |s| - |r| ==> IsSpace(s[i])
    ensures r == [] || !IsSpace(r[0])
  {
    if s != [] && IsSpace(s[0]) then
      var r := TrimLeft(s[1..]);
      assert forall i :: 1 <= i < |s| ==> s[i] == s[1..][i - 1];
      r
    else
      s
  }

  /** `s` without its trailing white space. */
  function TrimRight(s: string): (r: string)
    ensures |r| <= |s| && r == s[..|r|]
    ensures forall i :: |r| <= i < |s| ==> IsSpace(s[i])
    ensures r == [] || !IsSpace(r[|r| - 1])
  {
    if s != [] && IsSpace(s[|s| - 1]) then
      var r := TrimRight(s[..|s| - 1]);
      assert forall i :: 0 <= i < |s| - 1 ==> s[i] == s[..|s| - 1][i];
      r
    else
      s
  }

  /** Go's `strings.TrimSpace`: `s` without leading and trailing white space. */
  function TrimSpace(s: string): (r: string)
    ensures r == [] || (!IsSpace(r[0]) && !IsSpace(r[|r| - 1]))
    ensures r == [] <==> IsBlank(s)
    ensures exists i, j :: 0 <= i <= j <= |s| && r == s[i..j] && IsBlank(s[..i]) && IsBlank(s[j..])
  {
    var left := TrimLeft(s);
    var r := TrimRight(left);
    var k := |s| - |left|;
    assert forall i :: k <= i < |s| ==> s[i] == left[i - k];
    assert r == [] ==> IsBlank(s);
    assert IsBlank(s) ==> IsBlank(left);
    TrimmedWindow(s, left, r);
    r
  }

  /** A window `r` of `s` with only white space before and after it. */
  lemma TrimmedWindow(s: string, left: string, r: string)
    requires |left| <= |s| && left == s[|s| - |left|..]
    requires forall i :: 0 <= i < |s| - |left| ==> IsSpace(s[i])
    requires |r| <= |left| && r == left[..|r|]
    requires forall i :: |r| <= i < |left| ==> IsSpace(left[i])
    ensures var k := |s| - |left|;
      r == s[k..k + |r|] && IsBlank(s[..k]) && IsBlank(s[k + |r|..])
  {
  }

  /** Go's `strings.Join`: the elements of `elems` with `sep` between each pair. */
  function Join(elems: seq<string>, sep: string): (r: string)
    ensures elems == [] ==> r == ""
    ensures elems != [] ==> elems[0] <= r && |r| == TotalLength(elems) + (|elems| - 1) * |sep|
    decreases |elems|
  {
    if elems == [] then ""
    else if |elems| == 1 then elems[0]
    else elems[0] + sep + Join(elems[1..], sep)
  }

  /** The total length of the strings in `elems`. */
  function TotalLength(elems: seq<string>): (n: nat) {
    if elems == [] then 0 else |elems[0]| + TotalLength(elems[1..])
  }

  /** Joining one more element appends a separator and that element. */
  lemma {:induction false} JoinSnoc(elems: seq<string>, x: string, sep: string)
    requires elems != []
    ensures Join(elems + [x], sep) == Join(elems, sep) + sep + x
  {
    if |elems| == 1 {
      assert (elems + [x])[1..] == [x];
    } else {
      assert (elems + [x])[1..] == elems[1..] + [x];
      JoinSnoc(elems[1..], x, sep);
    }
  }
}

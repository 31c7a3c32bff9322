/**
 * The few JavaScript string operations the core relies on, stated over
 * `seq<char>`: the `\s` character class, `trim`, `indexOf`/`includes`,
 * `startsWith`, `toLowerCase`, `split(/\s+/)`, `join` and decimal digits.
 */
module Text {
  import opened Common

  /** The line terminators that the regular-expression `.` does not match. */
  predicate IsLineTerminator(c: char) {
    c == '\n' || c == '\r' || c == '\U{2028}' || c == '\U{2029}'
  }

  /** JavaScript's `\s`: WhiteSpace and LineTerminator code points (also what `trim` removes). */
  predicate IsWhitespace(c: char) {
    || c == '\t' || c == '\n' || c == '\U{B}' || c == '\U{C}' || c == '\r' || c == ' '
    || c == '\U{A0}' || c == '\U{1680}' || ('\U{2000}' <= c <= '\U{200A}')
    || c == '\U{2028}' || c == '\U{2029}' || c == '\U{202F}' || c == '\U{205F}'
    || c == '\U{3000}' || c == '\U{FEFF}'
  }

  predicate IsDigit(c: char) { '0' <= c <= '9' }

  predicate NotWhitespace(c: char) { !IsWhitespace(c) }

  predicate NotLineTerminator(c: char) { !IsLineTerminator(c) }

  predicate IsDigitOrWhitespace(c: char) { IsDigit(c) || IsWhitespace(c) }

  lemma LineTerminatorIsWhitespace(c: char)
    ensures IsLineTerminator(c) ==> IsWhitespace(c)
  {}

  /** End of the maximal run of characters satisfying `p` that starts at `i`. */
  function RunEnd(t: string, i: nat, p: char -> bool): (j: nat)
    requires i <= |t|
    ensures i <= j <= |t|
    ensures forall k :: i <= k < j ==> p(t[k])
    ensures j < |t| ==> !p(t[j])
    decreases |t| - i
  {
    if i < |t| && p(t[i]) then RunEnd(t, i + 1, p) else i
  }

  /** Position of the first character at or after `i` that is not whitespace. */
  function SkipWs(t: string, i: nat): (j: nat)
    requires i <= |t|
    ensures i <= j <= |t|
    ensures forall k :: i <= k < j ==> IsWhitespace(t[k])
    ensures j < |t| ==> !IsWhitespace(t[j])
  {
    RunEnd(t, i, IsWhitespace)
  }

  /** Position of the first line terminator at or after `i` (or the end of `t`). */
  function LineEnd(t: string, i: nat): (j: nat)
    requires i <= |t|
    ensures i <= j <= |t|
    ensures forall k :: i <= k < j ==> !IsLineTerminator(t[k])
    ensures j < |t| ==> IsLineTerminator(t[j])
  {
    RunEnd(t, i, NotLineTerminator)
  }

  predicate AllWhitespace(s: string) {
    forall k :: 0 <= k < |s| ==> IsWhitespace(s[k])
  }

  predicate AllDigits(s: string) {
    forall k :: 0 <= k < |s| ==> IsDigit(s[k])
  }

  /** `r` is `s` without its leading and trailing whitespace. */
  ghost predicate IsTrimOf(r: string, s: string) {
    exists a :: 0 <= a <= |s| - |r| && s[a..a + |r|] == r
      && AllWhitespace(s[..a]) && AllWhitespace(s[a + |r|..])
      && (r != [] ==> NotWhitespace(r[0]) && NotWhitespace(r[|r| - 1]))
  }

  function TrimEnd(s: string): (r: string)
    ensures |r| <= |s| && r == s[..|r|]
    ensures AllWhitespace(s[|r|..])
    ensures r != [] ==> NotWhitespace(r[|r| - 1])
  {
    if s != [] && IsWhitespace(s[|s| - 1]) then
      var r := TrimEnd(s[..|s| - 1]);
      TrimEndStep(s, r);
      r
    else s
  }

  /** One more trailing whitespace character keeps the trimmed prefix and the all-whitespace tail. */
  lemma TrimEndStep(s: string, r: string)
    requires s != [] && IsWhitespace(s[|s| - 1])
    requires |r| <= |s| - 1 && r == s[..|s| - 1][..|r|] && AllWhitespace(s[..|s| - 1][|r|..])
    ensures r == s[..|r|] && AllWhitespace(s[|r|..])
  {
    var p := s[..|s| - 1];
    var tail := s[|r|..];
    var before := p[|r|..];
    forall k | 0 <= k < |tail| ensures IsWhitespace(tail[k]) {
      if k < |before| {
        assert tail[k] == before[k];
      }
    }
  }

  /** `String.prototype.trim`. */
  function Trim(s: string): (r: string)
    ensures |r| <= |s|
  {
    TrimEnd(s[SkipWs(s, 0)..])
  }

  /** `Trim` removes exactly the leading and trailing whitespace, and nothing is left of a blank text. */
  lemma TrimIsTrimOf(s: string)
    ensures IsTrimOf(Trim(s), s)
    ensures Trim(s) == [] <==> AllWhitespace(s)
  {
    var a := SkipWs(s, 0);
    var r := TrimEnd(s[a..]);
    assert s[a..a + |r|] == r;
    assert s[a + |r|..] == s[a..][|r|..];
    assert AllWhitespace(s[..a]);
  }

  lemma TrimUnchanged(s: string)
    requires s != [] && NotWhitespace(s[0]) && NotWhitespace(s[|s| - 1])
    ensures Trim(s) == s
  {
    assert SkipWs(s, 0) == 0;
    assert TrimEnd(s) == s;
  }

  /** Leading whitespace does not change the trimmed text. */
  lemma TrimDropWs(s: string, k: nat)
    requires k <= |s| && AllWhitespace(s[..k])
    ensures Trim(s[k..]) == Trim(s)
  {
    var a := SkipWs(s, 0);
    forall i | 0 <= i < k ensures IsWhitespace(s[i]) {
      assert s[..k][i] == s[i];
    }
    assert k <= a;
    RunEndIs(s[k..], 0, a - k, IsWhitespace);
    assert s[k..][a - k..] == s[a..];
  }

  /** Skipping whitespace from `e` is skipping it from the start of the suffix at `e`. */
  lemma SkipWsSuffix(s: string, e: nat)
    requires e <= |s|
    ensures SkipWs(s[e..], 0) == SkipWs(s, e) - e
  {
    var t := s[e..];
    var w := SkipWs(s, e);
    forall k | 0 <= k < w - e ensures IsWhitespace(t[k]) {
      assert t[k] == s[e + k];
    }
    if w < |s| {
      assert t[w - e] == s[w];
    }
    RunEndIs(t, 0, w - e, IsWhitespace);
  }

  /** Skipping the whitespace at `e` does not change what the rest trims to. */
  lemma TrimAfterWs(s: string, e: nat)
    requires e <= |s|
    ensures Trim(s[SkipWs(s, e)..]) == Trim(s[e..])
  {
    var w := SkipWs(s, e);
    SkipWsSuffix(s, e);
    SkipWsSuffix(s, w);
    assert s[e..][w - e..] == s[w..];
    assert s[w..][0..] == s[w..];
  }

  /** The maximal run is pinned down by its two defining properties. */
  lemma RunEndIs(t: string, i: nat, j: nat, p: char -> bool)
    requires i <= j <= |t|
    requires forall k :: i <= k < j ==> p(t[k])
    requires j < |t| ==> !p(t[j])
    ensures RunEnd(t, i, p) == j
  {
  }

  /** `t` holds the text `pat` starting at index `k`. */
  predicate OccursAt(t: string, pat: string, k: nat) {
    k + |pat| <= |t| && t[k..k + |pat|] == pat
  }

  lemma OccursConcat(t: string, a: string, b: string, i: nat)
    requires OccursAt(t, a + b, i)
    ensures OccursAt(t, a, i) && OccursAt(t, b, i + |a|)
  {
    assert t[i..i + |a|] == t[i..i + |a + b|][..|a|];
    assert t[i + |a|..i + |a + b|] == t[i..i + |a + b|][|a|..];
  }

  /** Four texts written one after the other each occur where the previous one ends. */
  lemma OccursPieces(t: string, a: string, b: string, c: string, d: string, i: nat)
    requires OccursAt(t, a + b + c + d, i)
    ensures OccursAt(t, a, i) && OccursAt(t, b, i + |a|)
    ensures OccursAt(t, c, i + |a| + |b|) && OccursAt(t, d, i + |a| + |b| + |c|)
  {
    OccursConcat(t, a + b + c, d, i);
    OccursConcat(t, a + b, c, i);
    OccursConcat(t, a, b, i);
  }

  /** A property of every character of `piece` holds of the characters of `t` it occupies. */
  lemma OccursEvery(t: string, piece: string, i: nat, p: char -> bool)
    requires OccursAt(t, piece, i)
    requires forall k :: 0 <= k < |piece| ==> p(piece[k])
    ensures forall k :: i <= k < i + |piece| ==> p(t[k])
  {
    forall k | i <= k < i + |piece| ensures p(t[k]) {
      assert t[i..i + |piece|][k - i] == piece[k - i];
    }
  }

  lemma OccursChar(t: string, piece: string, i: nat, k: nat)
    requires OccursAt(t, piece, i) && k < |piece|
    ensures t[i + k] == piece[k]
  {
    assert t[i..i + |piece|][k] == piece[k];
  }

  /** A piece whose characters all satisfy `p`, not followed by one that does, is a maximal run. */
  lemma RunOfPiece(t: string, i: nat, piece: string, p: char -> bool)
    requires OccursAt(t, piece, i)
    requires forall k :: 0 <= k < |piece| ==> p(piece[k])
    requires i + |piece| < |t| ==> !p(t[i + |piece|])
    ensures RunEnd(t, i, p) == i + |piece|
  {
    OccursEvery(t, piece, i, p);
    RunEndIs(t, i, i + |piece|, p);
  }

  lemma SkipWsOver(t: string, i: nat, ws: string)
    requires OccursAt(t, ws, i) && AllWhitespace(ws)
    requires i + |ws| < |t| ==> NotWhitespace(t[i + |ws|])
    ensures SkipWs(t, i) == i + |ws|
  {
    RunOfPiece(t, i, ws, IsWhitespace);
  }

  /** `t.indexOf(pat, from)`, with `-1` as `None`. */
  function IndexOf(t: string, pat: string, from: nat): (r: Option<nat>)
    ensures r.Some? ==> from <= r.value && OccursAt(t, pat, r.value)
    ensures r.Some? ==> forall k :: from <= k < r.value ==> !OccursAt(t, pat, k)
    ensures r.None? ==> forall k :: from <= k ==> !OccursAt(t, pat, k)
    decreases |t| - from
  {
    if from + |pat| > |t| then None
    else if t[from..from + |pat|] == pat then Some(from)
    else IndexOf(t, pat, from + 1)
  }

  /** The first occurrence is pinned down by its defining properties. */
  lemma IndexOfIs(t: string, pat: string, from: nat, j: nat)
    requires from <= j && OccursAt(t, pat, j)
    requires forall k :: from <= k < j ==> !OccursAt(t, pat, k)
    ensures IndexOf(t, pat, from) == Some(j)
  {
  }

  /** `t.includes(pat)`. */
  predicate Contains(t: string, pat: string) {
    ContainsFrom(t, pat, 0)
  }

  /** `pat` occurs in `t` at `from` or later. */
  predicate ContainsFrom(t: string, pat: string, from: nat)
    decreases |t| - from
  {
    from + |pat| <= |t| && (t[from..from + |pat|] == pat || ContainsFrom(t, pat, from + 1))
  }

  lemma {:induction false} ContainsFromIff(t: string, pat: string, from: nat)
    ensures ContainsFrom(t, pat, from) <==> exists k: nat :: from <= k && OccursAt(t, pat, k)
    decreases |t| - from
  {
    if from + |pat| <= |t| {
      ContainsFromIff(t, pat, from + 1);
      if t[from..from + |pat|] == pat {
        assert OccursAt(t, pat, from);
      }
      if exists k: nat :: from <= k && OccursAt(t, pat, k) {
        var k: nat :| from <= k && OccursAt(t, pat, k);
        if k > from {
          assert from + 1 <= k && OccursAt(t, pat, k);
        }
      }
    }
  }

  lemma ContainsIff(t: string, pat: string)
    ensures Contains(t, pat) <==> exists k: nat :: OccursAt(t, pat, k)
  {
    ContainsFromIff(t, pat, 0);
  }

  /** `t.startsWith(pat)`. */
  predicate StartsWith(t: string, pat: string) {
    |pat| <= |t| && t[..|pat|] == pat
  }

  /** `toLowerCase` on Latin and Cyrillic capitals; every other character is kept. */
  function LowerChar(c: char): (d: char)
    ensures 'A' <= c <= 'Z' ==> 'a' <= d <= 'z'
    ensures !('A' <= c <= 'Z') && !('\U{400}' <= c <= '\U{42F}') ==> d == c
  {
    if 'A' <= c <= 'Z' then (c as int + 32) as char
    else if '\U{410}' <= c <= '\U{42F}' then (c as int + 32) as char
    else if '\U{400}' <= c <= '\U{40F}' then (c as int + 80) as char
    else c
  }

  function Lower(s: string): (r: string)
    ensures |r| == |s| && forall k :: 0 <= k < |s| ==> r[k] == LowerChar(s[k])
  {
    seq(|s|, k requires 0 <= k < |s| => LowerChar(s[k]))
  }

  /** `s.split(/\s+/)`: the pieces between maximal whitespace runs, empty ones at the ends kept. */
  function SplitWs(s: string): (r: seq<string>)
    ensures |r| >= 1
    ensures forall w, k :: w in r && 0 <= k < |w| ==> NotWhitespace(w[k])
    decreases |s|
  {
    var i := RunEnd(s, 0, NotWhitespace);
    if i == |s| then [s]
    else
      var rest := SplitWs(s[SkipWs(s, i)..]);
      [s[..i]] + rest
  }

  /** `words.join(sep)`. */
  function Join(words: seq<string>, sep: string): string {
    if words == [] then []
    else if |words| == 1 then words[0]
    else words[0] + sep + Join(words[1..], sep)
  }

  /** `s` without its whitespace characters (`s.replace(/\s/g, "")`). */
  function RemoveWhitespace(s: string): (r: string)
    ensures |r| <= |s|
    ensures forall k :: 0 <= k < |r| ==> NotWhitespace(r[k])
    ensures (forall k :: 0 <= k < |s| ==> IsDigitOrWhitespace(s[k])) ==> AllDigits(r)
  {
    if s == [] then []
    else if IsWhitespace(s[0]) then RemoveWhitespace(s[1..])
    else [s[0]] + RemoveWhitespace(s[1..])
  }

  function DigitValue(c: char): nat
    requires IsDigit(c)
  {
    c as int - '0' as int
  }

  function DigitChar(d: nat): (c: char)
    requires d < 10
    ensures IsDigit(c) && DigitValue(c) == d
  {
    ('0' as int + d) as char
  }

  /** The number a run of decimal digits denotes (`parseInt(s, 10)` for such a run). */
  function DigitsValue(s: string): nat
    requires AllDigits(s)
  {
    if s == [] then 0 else DigitsValue(s[..|s| - 1]) * 10 + DigitValue(s[|s| - 1])
  }

  /** Decimal rendering of a natural number, as template literals print it. */
  function NatToString(n: nat): (s: string)
    ensures |s| >= 1 && AllDigits(s) && DigitsValue(s) == n
    ensures |s| > 1 ==> s[0] != '0'
  {
    if n < 10 then [DigitChar(n)]
    else
      var s := NatToString(n / 10) + [DigitChar(n % 10)];
      assert s[..|s| - 1] == NatToString(n / 10);
      s
  }

  /** Decimal rendering of an integer; negative numbers get a leading minus sign. */
  function IntToString(n: int): string {
    if n >= 0 then NatToString(n) else "-" + NatToString(-n)
  }
}

/**
 * The text cleaners. `remove_strings` and `preprocess` are one left-to-right regex
 * substitution that deletes annotation markers and noise characters;
 * `normalize_output` and `postprocess` strip the text, delete `<think>…</think>`
 * blocks, optionally delete ASCII letters, delete line breaks and strip again;
 * `count_chars` and `count` give the canonical length.
 */
module Normalizer {
  import opened Wrappers
  import opened PyStr

  /** Python's `text or ""` on a str-or-None. */
  function OrEmpty(text: Option<string>): string {
    text.GetOr([])
  }

  /** The character classes `[ＲR]` and `[ー-]` of the channel-tag pattern. */
  predicate IsChannelLetter(c: char) {
    c == 'Ｒ' || c == 'R'
  }

  predicate IsChannelDash(c: char) {
    c == 'ー' || c == '-'
  }

  /** `\d`, restricted to the ASCII and full-width decimal digits. */
  predicate IsDigit(c: char) {
    ('0' <= c <= '9') || ('０' <= c <= '９')
  }

  /** Length of the greedy `\d+` run at the front of `s` (0 when there is none). */
  function DigitRun(s: string): (n: nat)
    ensures n <= |s|
    ensures forall i | 0 <= i < n :: IsDigit(s[i])
    ensures n == |s| || !IsDigit(s[n])
    decreases |s|
  {
    if s != [] && IsDigit(s[0]) then 1 + DigitRun(s[1..]) else 0
  }

  /**
   * Where the lazy `.*?】` of `【.*?】` stops when it scans from index `j`: just past the
   * first `】`, or nowhere when a line break (which `.` does not match) or the end of the
   * text comes first.
   */
  function BracketEnd(s: string, j: nat): (r: Option<nat>)
    requires j <= |s|
    ensures r.Some? ==> j < r.value <= |s| && s[r.value - 1] == '】'
    ensures r.Some? ==> forall k | j <= k < r.value - 1 :: s[k] != '】' && s[k] != '\n'
    ensures r.None? ==> forall k | j <= k < |s| && s[k] == '】' :: exists m | j <= m < k :: s[m] == '\n'
    decreases |s| - j
  {
    if j == |s| || s[j] == '\n' then None
    else if s[j] == '】' then Some(j + 1)
    else BracketEnd(s, j + 1)
  }

  /** Length of the marker `【.*?】` or `[ＲR][ー-]\d+` that the regex matches at the front of `s`, if any. */
  function MarkerLength(s: string): (r: Option<nat>)
    ensures r.Some? ==> 0 < r.value <= |s|
    ensures r.Some? ==> s[0] == '【' || IsChannelLetter(s[0])
    ensures r.Some? && s[0] == '【' ==> s[r.value - 1] == '】'
    ensures |s| >= 3 && IsChannelLetter(s[0]) && IsChannelDash(s[1]) && IsDigit(s[2]) ==>
      r == Some(2 + DigitRun(s[2..]))
  {
    if s == [] then None
    else if s[0] == '【' then BracketEnd(s, 1)
    else if |s| >= 3 && IsChannelLetter(s[0]) && IsChannelDash(s[1]) && IsDigit(s[2]) then
      Some(2 + DigitRun(s[2..]))
    else None
  }

  /** The one-character alternatives `■`, `＊` and, in `remove_strings` only, `\n|\t|\s+`. */
  predicate IsNoise(c: char, dropSpace: bool) {
    c == '■' || c == '＊' || (dropSpace && IsSpace(c))
  }

  /**
   * `re.sub(pattern, '', s)` for the marker-and-noise pattern: at each position the
   * alternatives are tried in order, a match is deleted and scanning resumes after it,
   * and a position where nothing matches keeps its character.
   */
  function Scrub(s: string, dropSpace: bool): (r: string)
    ensures Subseq(r, s)
    ensures forall i | 0 <= i < |r| :: !IsNoise(r[i], dropSpace)
    decreases |s|
  {
    if s == [] then []
    else match MarkerLength(s)
      case Some(n) =>
        var r := Scrub(s[n..], dropSpace);
        SubseqDrop(r, s, n);
        r
      case None =>
        if IsNoise(s[0], dropSpace) then
          var r := Scrub(s[1..], dropSpace);
          SubseqDrop(r, s, 1);
          r
        else
          var r := Scrub(s[1..], dropSpace);
          assert ([s[0]] + r)[1..] == r;
          [s[0]] + r
  }

  /** A character that can start neither a marker nor a noise match. */
  predicate IsPlain(c: char, dropSpace: bool) {
    c != '【' && !IsChannelLetter(c) && !IsNoise(c, dropSpace)
  }

  /** Text made only of plain characters passes through the substitution unchanged. */
  lemma {:induction false} ScrubKeepsPlainText(s: string, dropSpace: bool)
    requires forall i | 0 <= i < |s| :: IsPlain(s[i], dropSpace)
    ensures Scrub(s, dropSpace) == s
    decreases |s|
  {
    if s != [] {
      assert forall i | 0 <= i < |s| - 1 :: s[1..][i] == s[i + 1];
      ScrubKeepsPlainText(s[1..], dropSpace);
    }
  }

  /**
   * Where no character can start a marker, the substitution deletes exactly the noise
   * characters and keeps every other character in order.
   */
  lemma {:induction false} ScrubOfMarkerFree(s: string, dropSpace: bool)
    requires forall i | 0 <= i < |s| :: s[i] != '【' && !IsChannelLetter(s[i])
    ensures Scrub(s, dropSpace) == RemoveWhere(s, c => IsNoise(c, dropSpace))
    decreases |s|
  {
    if s != [] {
      assert MarkerLength(s) == None;
      assert forall i | 0 <= i < |s| - 1 :: s[1..][i] == s[i + 1];
      ScrubOfMarkerFree(s[1..], dropSpace);
    }
  }

  /** A `■` between two kana is deleted and both kana are kept. */
  lemma ScrubDropsBlackSquare()
    ensures Scrub("あ■い", false) == "あい"
  {
    ScrubOfMarkerFree("あ■い", false);
    var noise := c => IsNoise(c, false);
    assert "あ■い"[1..] == "■い" && "■い"[1..] == "い" && "い"[1..] == [];
    assert RemoveWhere("い", noise) == "い";
    assert RemoveWhere("■い", noise) == "い";
  }

  /** `remove_strings`: deletes markers, whitespace, `■` and `＊`. */
  function RemoveStrings(text: Option<string>): (r: string)
    ensures text.None? ==> r == []
    ensures Subseq(r, OrEmpty(text)) && |r| <= |OrEmpty(text)|
    ensures forall i | 0 <= i < |r| :: !IsSpace(r[i]) && r[i] != '■' && r[i] != '＊'
  {
    var r := Scrub(OrEmpty(text), true);
    SubseqLength(r, OrEmpty(text));
    r
  }

  /** `preprocess`: deletes markers, `■` and `＊`, and keeps whitespace. */
  function Preprocess(text: Option<string>): (r: string)
    ensures text.None? ==> r == []
    ensures Subseq(r, OrEmpty(text)) && |r| <= |OrEmpty(text)|
    ensures forall i | 0 <= i < |r| :: r[i] != '■' && r[i] != '＊'
  {
    var r := Scrub(OrEmpty(text), false);
    SubseqLength(r, OrEmpty(text));
    r
  }

  const ThinkOpen: string := "<think>"
  const ThinkClose: string := "</think>"

  /** The first index `p >= from` at which `pat` occurs in `s`. */
  function FindFrom(s: string, pat: string, from: nat): (r: Option<nat>)
    ensures r.Some? ==> from <= r.value && OccursAt(s, pat, r.value)
    ensures r.Some? ==> forall q | from <= q < r.value :: !OccursAt(s, pat, q)
    ensures r.None? ==> forall q | from <= q :: !OccursAt(s, pat, q)
    decreases |s| - from
  {
    if from + |pat| > |s| then None
    else if OccursAt(s, pat, from) then Some(from)
    else FindFrom(s, pat, from + 1)
  }

  /**
   * `re.sub(r"<think>.*?</think>", "", s, flags=re.DOTALL)`: a `<think>` with a later
   * `</think>` is deleted up to and including the first such `</think>`; scanning
   * resumes after it.
   */
  function StripThink(s: string): (r: string)
    ensures Subseq(r, s)
    decreases |s|
  {
    if s == [] then []
    else match (if OccursAt(s, ThinkOpen, 0) then FindFrom(s, ThinkClose, |ThinkOpen|) else None)
      case Some(p) =>
        var r := StripThink(s[p + |ThinkClose|..]);
        SubseqDrop(r, s, p + |ThinkClose|);
        r
      case None =>
        var r := StripThink(s[1..]);
        assert ([s[0]] + r)[1..] == r;
        [s[0]] + r
  }

  lemma OpenTagStartsWithLetter(s: string)
    ensures OccursAt(s, ThinkOpen, 0) ==> IsAsciiLetter(s[1])
  {
    if OccursAt(s, ThinkOpen, 0) {
      assert s[..7] == ThinkOpen;
      assert s[1] == ThinkOpen[1] == 't';
    }
  }

  /** A text without ASCII letters holds no `<think>` and is left alone. */
  lemma {:induction false} StripThinkLetterFree(s: string)
    requires forall i | 0 <= i < |s| :: !IsAsciiLetter(s[i])
    ensures StripThink(s) == s
    decreases |s|
  {
    if s != [] {
      OpenTagStartsWithLetter(s);
      assert !OccursAt(s, ThinkOpen, 0);
      assert forall i | 0 <= i < |s| - 1 :: s[1..][i] == s[i + 1];
      StripThinkLetterFree(s[1..]);
    }
  }

  /** A text in which `<think>` never occurs is left alone. */
  lemma {:induction false} StripThinkWithoutOpenTag(s: string)
    requires forall i :: !OccursAt(s, ThinkOpen, i)
    ensures StripThink(s) == s
    decreases |s|
  {
    if s != [] {
      assert !OccursAt(s, ThinkOpen, 0);
      forall i
        ensures !OccursAt(s[1..], ThinkOpen, i)
      {
        assert !OccursAt(s, ThinkOpen, i + 1);
      }
      StripThinkWithoutOpenTag(s[1..]);
    }
  }

  /** `re.sub(r"[a-zA-Z]+", "", s)` in the `code/` variants; the identity elsewhere. */
  function DropLatin(s: string, dropLatin: bool): (r: string)
    ensures Subseq(r, s)
    ensures dropLatin ==> forall i | 0 <= i < |r| :: !IsAsciiLetter(r[i])
    ensures dropLatin ==> |r| == |s| - CountWhere(s, IsAsciiLetter)
    ensures !dropLatin ==> r == s
  {
    if dropLatin then RemoveWhere(s, IsAsciiLetter)
    else
      SubseqSlice(s, 0, |s|);
      assert s[0..|s|] == s;
      s
  }

  /**
   * `normalize_output` / `postprocess`: strip, delete reasoning blocks, delete ASCII
   * letters when `dropLatin` (the `code/` variants), delete `\n` and `\r`, strip again.
   */
  function Normalize(text: Option<string>, dropLatin: bool): (r: string)
    ensures text.None? ==> r == []
    ensures forall i | 0 <= i < |r| :: !IsNewline(r[i]) && (dropLatin ==> !IsAsciiLetter(r[i]))
    ensures r == [] || (!IsSpace(r[0]) && !IsSpace(r[|r| - 1]))
    ensures Subseq(r, OrEmpty(text)) && |r| <= |OrEmpty(text)|
  {
    var r := Clean(OrEmpty(text), dropLatin);
    r
  }

  /** The passes of `Normalize`, in order, on a text that is present. */
  function Clean(s: string, dropLatin: bool): (r: string)
    ensures forall i | 0 <= i < |r| :: !IsNewline(r[i]) && (dropLatin ==> !IsAsciiLetter(r[i]))
    ensures r == [] || (!IsSpace(r[0]) && !IsSpace(r[|r| - 1]))
    ensures Subseq(r, s) && |r| <= |s|
  {
    var joined := Unbroken(s, dropLatin);
    var r := Strip(joined);
    SubseqTrans(r, joined, s);
    SubseqLength(r, s);
    SubseqAvoids(r, joined, IsNewline);
    if dropLatin then SubseqAvoids(r, joined, IsAsciiLetter); r else r
  }

  /** Every deletion pass of `Normalize` but the final strip. */
  function Unbroken(s: string, dropLatin: bool): (r: string)
    ensures forall i | 0 <= i < |r| :: !IsNewline(r[i]) && (dropLatin ==> !IsAsciiLetter(r[i]))
    ensures Subseq(r, s)
  {
    var stripped := Strip(s);
    var unthought := StripThink(stripped);
    var unlettered := DropLatin(unthought, dropLatin);
    var r := RemoveWhere(unlettered, IsNewline);
    SubseqTrans(unthought, stripped, s);
    SubseqTrans(unlettered, unthought, s);
    SubseqTrans(r, unlettered, s);
    if dropLatin then SubseqAvoids(r, unlettered, IsAsciiLetter); r else r
  }

  /**
   * Without ASCII letters no `<think>` can survive a pass, so the `code/` variant is
   * idempotent: normalizing an already normalized text changes nothing.
   */
  lemma NormalizeWithoutLatinIdempotent(text: Option<string>)
    ensures Normalize(Some(Normalize(text, true)), true) == Normalize(text, true)
  {
    var n := Normalize(text, true);
    CleanTextIsFixpoint(n);
    assert Normalize(Some(n), true) == Clean(n, true);
  }

  /** Each pass of `Normalize` leaves a trimmed text free of letters and line breaks alone. */
  lemma CleanTextIsFixpoint(n: string)
    requires forall i | 0 <= i < |n| :: !IsNewline(n[i]) && !IsAsciiLetter(n[i])
    requires n == [] || (!IsSpace(n[0]) && !IsSpace(n[|n| - 1]))
    ensures Clean(n, true) == n
  {
    StripTrimmed(n);
    StripThinkLetterFree(n);
    assert StripThink(Strip(n)) == n;
    RemoveWhereNothing(n, IsAsciiLetter);
    assert DropLatin(n, true) == n;
    RemoveWhereNothing(n, IsNewline);
    assert Unbroken(n, true) == n;
  }

  /**
   * The letter-keeping variant (`postprocess`, the `normalize_output` of app/app.py) keeps
   * every character of a trimmed text that holds no line break and no `<think>`.
   */
  lemma CleanKeepsPlainText(n: string)
    requires forall i | 0 <= i < |n| :: !IsNewline(n[i])
    requires forall i :: !OccursAt(n, ThinkOpen, i)
    requires n == [] || (!IsSpace(n[0]) && !IsSpace(n[|n| - 1]))
    ensures Clean(n, false) == n
    ensures Normalize(Some(n), false) == n
  {
    StripTrimmed(n);
    StripThinkWithoutOpenTag(n);
    assert StripThink(Strip(n)) == n;
    assert DropLatin(n, false) == n;
    RemoveWhereNothing(n, IsNewline);
    assert Unbroken(n, false) == n;
  }

  /** `count_chars` / `count`: the length once `\n` and `\r` are deleted. */
  function CountChars(text: Option<string>): (n: nat)
    ensures n == |OrEmpty(text)| - CountWhere(OrEmpty(text), IsNewline)
    ensures n <= |OrEmpty(text)|
  {
    |RemoveWhere(OrEmpty(text), IsNewline)|
  }

  /** On cleaned text the canonical count is the plain length. */
  lemma CountCharsOfNormalized(text: Option<string>, dropLatin: bool)
    ensures CountChars(Some(Normalize(text, dropLatin))) == |Normalize(text, dropLatin)|
  {
    var n := Normalize(text, dropLatin);
    CountWhereNone(n, IsNewline);
  }

  /**
   * `preprocess` is not idempotent: deleting `■` can bring a channel tag together, which
   * the next pass deletes.
   */
  lemma PreprocessNotIdempotent()
    ensures Preprocess(Some("R■-1")) == "R-1"
    ensures Preprocess(Some("R-1")) == []
  {
    var s := "R■-1";
    assert MarkerLength(s) == None;
    assert MarkerLength(s[1..]) == None;
    assert MarkerLength(s[2..]) == None;
    assert MarkerLength(s[3..]) == None;
    assert Scrub(s[3..], false) == "1";
    assert Scrub(s[2..], false) == "-1";
    assert Scrub(s[1..], false) == "-1";
    assert Scrub(s, false) == "R-1";
    var t := "R-1";
    assert DigitRun(t[2..]) == 1;
    assert MarkerLength(t) == Some(3);
  }
}

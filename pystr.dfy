/**
 * The parts of Python's `str` behaviour the pipeline relies on, over `seq<char>`:
 * whitespace as `str.isspace` and the regex class `\s` see it, `strip`, character
 * filters (`replace(c, "")`, `re.sub` of a one-character class), `"".join`,
 * `sep.join` and substring search.
 */
module PyStr {
  import opened Wrappers

  /** `str.isspace()` for one character, which is also what `\s` matches in a `str` pattern. */
  predicate IsSpace(c: char) {
    var n := c as int;
    (9 <= n <= 13) || (28 <= n <= 32) || n == 0x85 || n == 0xA0 || n == 0x1680
    || (0x2000 <= n <= 0x200A) || n == 0x2028 || n == 0x2029 || n == 0x202F
    || n == 0x205F || n == 0x3000
  }

  predicate IsAsciiLetter(c: char) {
    ('a' <= c <= 'z') || ('A' <= c <= 'Z')
  }

  predicate IsNewline(c: char) {
    c == '\n' || c == '\r'
  }

  /** The Japanese full stop, the sentence terminator of the whole pipeline. */
  predicate IsStop(c: char) {
    c == '。'
  }

  predicate EndsWith(s: string, c: char) {
    |s| > 0 && s[|s| - 1] == c
  }

  predicate IsPrefix(p: string, s: string) {
    |p| <= |s| && s[..|p|] == p
  }

  /** `p` occurs in `s` starting at index `i`. */
  predicate OccursAt(s: string, p: string, i: int) {
    0 <= i && i + |p| <= |s| && s[i..i + |p|] == p
  }

  /** A text is a prefix of itself followed by anything. */
  lemma PrefixOfAppend(p: string, s: string)
    ensures IsPrefix(p, p + s)
  {
    assert (p + s)[..|p|] == p;
  }

  /** Python's `p in s`. */
  ghost predicate Contains(s: string, p: string) {
    exists i :: OccursAt(s, p, i)
  }

  lemma ContainsTrans(s: string, p: string, q: string)
    requires Contains(s, p) && Contains(p, q)
    ensures Contains(s, q)
  {
    var i :| OccursAt(s, p, i);
    var j :| OccursAt(p, q, j);
    assert forall k | j <= k < j + |q| :: s[i + k] == s[i..i + |p|][k] == p[k];
    assert s[i + j..i + j + |q|] == p[j..j + |q|];
    assert OccursAt(s, q, i + j);
  }

  /** `a` is obtained from `b` by deleting characters: the text is never rearranged or lengthened. */
  ghost predicate Subseq(a: string, b: string)
    decreases |b|
  {
    a == [] || (b != [] && ((a[0] == b[0] && Subseq(a[1..], b[1..])) || Subseq(a, b[1..])))
  }

  lemma {:induction false} SubseqLength(a: string, b: string)
    requires Subseq(a, b)
    ensures |a| <= |b|
    decreases |b|
  {
    if a != [] {
      if a[0] == b[0] && Subseq(a[1..], b[1..]) {
        SubseqLength(a[1..], b[1..]);
      } else {
        SubseqLength(a, b[1..]);
      }
    }
  }

  lemma {:induction false} SubseqOfPrefix(a: string, b: string)
    requires IsPrefix(a, b)
    ensures Subseq(a, b)
    decreases |a|
  {
    if a != [] {
      assert a[0] == b[0];
      assert IsPrefix(a[1..], b[1..]);
      SubseqOfPrefix(a[1..], b[1..]);
    }
  }

  lemma {:induction false} SubseqDrop(a: string, b: string, k: nat)
    requires k <= |b| && Subseq(a, b[k..])
    ensures Subseq(a, b)
    decreases k
  {
    if k > 0 && a != [] {
      assert b[k - 1..][1..] == b[k..];
      SubseqDrop(a, b, k - 1);
    }
  }

  lemma SubseqSlice(s: string, i: nat, j: nat)
    requires i <= j <= |s|
    ensures Subseq(s[i..j], s)
  {
    assert IsPrefix(s[i..j], s[i..]);
    SubseqOfPrefix(s[i..j], s[i..]);
    SubseqDrop(s[i..j], s, i);
  }

  lemma {:induction false} SubseqTrans(a: string, b: string, c: string)
    requires Subseq(a, b) && Subseq(b, c)
    ensures Subseq(a, c)
    decreases |c|
  {
    if a != [] {
      if Subseq(b, c[1..]) {
        SubseqTrans(a, b, c[1..]);
      } else if Subseq(a, b[1..]) {
        SubseqTrans(a, b[1..], c[1..]);
      } else {
        SubseqTrans(a[1..], b[1..], c[1..]);
      }
    }
  }

  /** Deleting characters never brings in a character that `drop` holds of. */
  lemma {:induction false} SubseqAvoids(a: string, b: string, drop: char -> bool)
    requires Subseq(a, b) && forall i | 0 <= i < |b| :: !drop(b[i])
    ensures forall i | 0 <= i < |a| :: !drop(a[i])
    decreases |b|
  {
    if a != [] {
      assert forall i | 0 <= i < |b| - 1 :: b[1..][i] == b[i + 1];
      if a[0] == b[0] && Subseq(a[1..], b[1..]) {
        SubseqAvoids(a[1..], b[1..], drop);
        assert forall i | 1 <= i < |a| :: a[i] == a[1..][i - 1];
      } else {
        SubseqAvoids(a, b[1..], drop);
      }
    }
  }

  /**
   * `strip()`: whitespace is removed from both ends and nowhere else, one character at a
   * time from the front and then from the back.
   */
  function Strip(s: string): (r: string)
    ensures r == [] || (!IsSpace(r[0]) && !IsSpace(r[|r| - 1]))
    ensures Subseq(r, s) && |r| <= |s|
    decreases |s|
  {
    if s == [] then []
    else if IsSpace(s[0]) then
      var r := Strip(s[1..]);
      SubseqDrop(r, s, 1);
      r
    else if IsSpace(s[|s| - 1]) then
      var r := Strip(s[..|s| - 1]);
      SubseqSlice(s, 0, |s| - 1);
      assert s[0..|s| - 1] == s[..|s| - 1];
      SubseqTrans(r, s[..|s| - 1], s);
      r
    else
      SubseqSlice(s, 0, |s|);
      assert s[0..|s|] == s;
      s
  }

  /** `r` is `s[i..j]` with only whitespace cut away on either side. */
  predicate TrimmedSlice(s: string, r: string, i: int, j: int) {
    && 0 <= i <= j <= |s| && r == s[i..j]
    && (forall k | 0 <= k < i :: IsSpace(s[k]))
    && (forall k | j <= k < |s| :: IsSpace(s[k]))
  }

  /** `strip()` removes whitespace at the ends only: the result is a slice of the input with only whitespace around it. */
  lemma {:induction false} StripTrimsEnds(s: string)
    ensures exists i, j :: TrimmedSlice(s, Strip(s), i, j)
    decreases |s|
  {
    if s == [] {
      assert TrimmedSlice(s, Strip(s), 0, 0);
    } else if IsSpace(s[0]) {
      var r := Strip(s[1..]);
      StripTrimsEnds(s[1..]);
      var i, j :| TrimmedSlice(s[1..], r, i, j);
      TrimmedSliceFront(s, r, i, j);
      assert Strip(s) == r;
      assert TrimmedSlice(s, Strip(s), i + 1, j + 1);
    } else if IsSpace(s[|s| - 1]) {
      var r := Strip(s[..|s| - 1]);
      StripTrimsEnds(s[..|s| - 1]);
      var i, j :| TrimmedSlice(s[..|s| - 1], r, i, j);
      TrimmedSliceBack(s, r, i, j);
      assert Strip(s) == r;
      assert TrimmedSlice(s, Strip(s), i, j);
    } else {
      assert s[0..|s|] == s;
      assert TrimmedSlice(s, Strip(s), 0, |s|);
    }
  }

  /** A trimmed slice of `s[1..]` is one of `s` when `s[0]` is whitespace. */
  lemma TrimmedSliceFront(s: string, r: string, i: int, j: int)
    requires s != [] && IsSpace(s[0]) && TrimmedSlice(s[1..], r, i, j)
    ensures TrimmedSlice(s, r, i + 1, j + 1)
  {
    assert s[i + 1..j + 1] == s[1..][i..j];
    assert forall k | 1 <= k < |s| :: s[k] == s[1..][k - 1];
  }

  /** A trimmed slice of `s` without its last character is one of `s` when that character is whitespace. */
  lemma TrimmedSliceBack(s: string, r: string, i: int, j: int)
    requires s != [] && IsSpace(s[|s| - 1]) && TrimmedSlice(s[..|s| - 1], r, i, j)
    ensures TrimmedSlice(s, r, i, j)
  {
    var t := s[..|s| - 1];
    assert s[i..j] == t[i..j];
    assert forall k | 0 <= k < |t| :: s[k] == t[k];
  }

  /** `strip()` empties exactly the blank texts. */
  lemma {:induction false} StripBlank(s: string)
    ensures Strip(s) == [] <==> forall i | 0 <= i < |s| :: IsSpace(s[i])
    decreases |s|
  {
    if s != [] {
      if IsSpace(s[0]) {
        StripBlank(s[1..]);
        assert forall i | 1 <= i < |s| :: s[i] == s[1..][i - 1];
      } else if IsSpace(s[|s| - 1]) {
        StripBlank(s[..|s| - 1]);
        assert forall i | 0 <= i < |s| - 1 :: s[i] == s[..|s| - 1][i];
      }
    }
  }

  /** A text with no whitespace at either end is its own `strip()`. */
  lemma StripTrimmed(s: string)
    requires s == [] || (!IsSpace(s[0]) && !IsSpace(s[|s| - 1]))
    ensures Strip(s) == s
  {
  }

  /** Deletes every character `drop` holds of: `replace(c, "")`, or `re.sub` of a character class. */
  function RemoveWhere(s: string, drop: char -> bool): (r: string)
    ensures forall i | 0 <= i < |r| :: !drop(r[i])
    ensures Subseq(r, s)
    ensures |r| == |s| - CountWhere(s, drop)
    decreases |s|
  {
    if s == [] then []
    else if drop(s[0]) then
      var r := RemoveWhere(s[1..], drop);
      SubseqDrop(r, s, 1);
      r
    else
      [s[0]] + RemoveWhere(s[1..], drop)
  }

  /** Deleting characters that are not there changes nothing. */
  lemma {:induction false} RemoveWhereNothing(s: string, drop: char -> bool)
    requires forall i | 0 <= i < |s| :: !drop(s[i])
    ensures RemoveWhere(s, drop) == s
    decreases |s|
  {
    if s != [] {
      assert forall i | 0 <= i < |s| - 1 :: s[1..][i] == s[i + 1];
      RemoveWhereNothing(s[1..], drop);
    }
  }

  /** How many characters of `s` satisfy `p`. */
  function CountWhere(s: string, p: char -> bool): nat
    decreases |s|
  {
    if s == [] then 0 else (if p(s[0]) then 1 else 0) + CountWhere(s[1..], p)
  }

  lemma {:induction false} CountWhereAppend(a: string, b: string, p: char -> bool)
    ensures CountWhere(a + b, p) == CountWhere(a, p) + CountWhere(b, p)
    decreases |a|
  {
    if a == [] {
      assert a + b == b;
    } else {
      assert (a + b)[1..] == a[1..] + b;
      assert (a + b)[0] == a[0];
      CountWhereAppend(a[1..], b, p);
      assert CountWhere(a + b, p) == (if p(a[0]) then 1 else 0) + CountWhere(a[1..] + b, p);
    }
  }

  lemma {:induction false} CountWhereNone(s: string, p: char -> bool)
    ensures CountWhere(s, p) == 0 <==> forall i | 0 <= i < |s| :: !p(s[i])
    decreases |s|
  {
    if s != [] {
      CountWhereNone(s[1..], p);
      assert forall i | 1 <= i < |s| :: s[i] == s[1..][i - 1];
    }
  }

  lemma {:induction false} RemoveWhereAppend(a: string, b: string, drop: char -> bool)
    ensures RemoveWhere(a + b, drop) == RemoveWhere(a, drop) + RemoveWhere(b, drop)
    decreases |a|
  {
    if a == [] {
      assert a + b == b;
    } else {
      assert (a + b)[1..] == a[1..] + b;
      assert (a + b)[0] == a[0];
      RemoveWhereAppend(a[1..], b, drop);
      assert RemoveWhere(a + b, drop) == (if drop(a[0]) then [] else [a[0]]) + RemoveWhere(a[1..] + b, drop);
    }
  }

  /** The first index of `c` in `s` (`s.find(c)`, with `None` for -1). */
  function IndexOf(s: string, c: char): (r: Option<nat>)
    ensures r.Some? ==> r.value < |s| && s[r.value] == c && forall k | 0 <= k < r.value :: s[k] != c
    ensures r.None? ==> forall k | 0 <= k < |s| :: s[k] != c
    decreases |s|
  {
    if s == [] then None
    else if s[0] == c then Some(0)
    else match IndexOf(s[1..], c)
      case None => None
      case Some(i) => Some(i + 1)
  }

  /** `"".join(ss)`. */
  function Concat(ss: seq<string>): string
    decreases |ss|
  {
    if ss == [] then [] else ss[0] + Concat(ss[1..])
  }

  /** `sep.join(ws)`. */
  function JoinWith(ws: seq<string>, sep: string): string
    decreases |ws|
  {
    if ws == [] then []
    else if |ws| == 1 then ws[0]
    else ws[0] + sep + JoinWith(ws[1..], sep)
  }

  /** Every element of `ws` occurs in `sep.join(ws)`. */
  lemma {:induction false} JoinWithContainsEach(ws: seq<string>, sep: string, j: nat)
    requires j < |ws|
    ensures Contains(JoinWith(ws, sep), ws[j])
    decreases |ws|
  {
    var joined := JoinWith(ws, sep);
    if j == 0 {
      assert OccursAt(joined, ws[0], 0);
    } else {
      var rest := JoinWith(ws[1..], sep);
      JoinWithContainsEach(ws[1..], sep, j - 1);
      var i :| OccursAt(rest, ws[j], i);
      var off := |ws[0] + sep|;
      assert joined == ws[0] + sep + rest;
      assert joined[off + i..off + i + |ws[j]|] == rest[i..i + |ws[j]|];
      assert OccursAt(joined, ws[j], off + i);
    }
  }
}

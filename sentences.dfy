/**
 * `split_sentences` of the `code/` apps: normalize (letters dropped), split on `。`
 * keeping the mark as a separator part, and re-attach the mark to every piece that
 * precedes one. A fragment after the last `。` is not a sentence and is dropped.
 */
module Sentences {
  import opened Wrappers
  import opened PyStr
  import Normalizer

  /** `re.split(r"(。)", s)`: the pieces between marks, each followed by the captured mark. */
  function SplitCapture(s: string): (parts: seq<string>)
    ensures |parts| % 2 == 1
    ensures forall j | 0 <= j < |parts| && j % 2 == 1 :: parts[j] == "。"
    ensures forall j, k | 0 <= j < |parts| && j % 2 == 0 && 0 <= k < |parts[j]| :: parts[j][k] != '。'
    decreases |s|
  {
    match IndexOf(s, '。')
    case None => [s]
    case Some(i) => [s[..i], "。"] + SplitCapture(s[i + 1..])
  }

  /** Joining a piece, a mark and more parts. */
  lemma ConcatPieceMark(piece: string, rest: seq<string>)
    ensures Concat([piece, "。"] + rest) == piece + ("。" + Concat(rest))
  {
    var parts := [piece, "。"] + rest;
    assert parts[1..] == ["。"] + rest;
    assert parts[1..][1..] == rest;
  }

  /** A text cut around one of its marks. */
  lemma CutAtMark(s: string, i: nat)
    requires i < |s| && s[i] == '。'
    ensures s == s[..i] + ("。" + s[i + 1..])
  {
    assert s == s[..i] + [s[i]] + s[i + 1..];
  }

  /** The captured split loses nothing: joining the parts gives back the text. */
  lemma {:induction false} SplitCaptureRejoins(s: string)
    ensures Concat(SplitCapture(s)) == s
    decreases |s|
  {
    match IndexOf(s, '。')
    case None =>
      assert Concat([s]) == s + Concat([]);
    case Some(i) =>
      SplitCaptureRejoins(s[i + 1..]);
      ConcatPieceMark(s[..i], SplitCapture(s[i + 1..]));
      CutAtMark(s, i);
  }

  /**
   * The sentences of `s`: every piece up to and including a `。`, in order. This is the
   * meaning of the stride-2 loop of `split_sentences`, stated without the split.
   */
  function Sentences(s: string): seq<string>
    decreases |s|
  {
    match IndexOf(s, '。')
    case None => []
    case Some(i) => [s[..i + 1]] + Sentences(s[i + 1..])
  }

  /** The stride-2 walk over the captured split picks exactly the sentences. */
  lemma {:induction false} SplitCaptureSentences(s: string)
    ensures |SplitCapture(s)| == 2 * |Sentences(s)| + 1
    ensures forall j | 0 <= j < |Sentences(s)| :: Sentences(s)[j] == SplitCapture(s)[2 * j] + "。"
    decreases |s|
  {
    match IndexOf(s, '。')
    case None =>
    case Some(i) =>
      SplitCaptureSentences(s[i + 1..]);
      var parts := SplitCapture(s);
      var rest := SplitCapture(s[i + 1..]);
      var ss := Sentences(s);
      assert parts == [s[..i], "。"] + rest;
      assert ss == [s[..i + 1]] + Sentences(s[i + 1..]);
      assert s[..i + 1] == s[..i] + "。";
      forall j | 0 <= j < |ss|
        ensures ss[j] == parts[2 * j] + "。"
      {
        if j > 0 {
          assert ss[j] == Sentences(s[i + 1..])[j - 1];
          assert parts[2 * j] == rest[2 * (j - 1)];
        }
      }
  }

  /**
   * `split_sentences(text)`: normalize with the ASCII letters dropped, then collect the
   * sentences of the result.
   */
  method SplitSentences(text: string) returns (sentences: seq<string>)
    ensures sentences == Sentences(Normalizer.Normalize(Some(text), true))
  {
    var normalized := Normalizer.Normalize(Some(text), true);
    sentences := SplitOnStops(normalized);
  }

  /**
   * The loop of `split_sentences`: it walks the captured split two parts at a time and
   * appends each piece with its `。` re-attached.
   */
  method SplitOnStops(s: string) returns (sentences: seq<string>)
    ensures sentences == Sentences(s)
  {
    var parts := SplitCapture(s);
    SplitCaptureSentences(s);
    sentences := [];
    var i := 0;
    while i < |parts| - 1
      invariant i % 2 == 0 && 0 <= i <= |parts| - 1
      invariant |sentences| == i / 2
      invariant forall j | 0 <= j < |sentences| :: sentences[j] == parts[2 * j] + "。"
    {
      sentences := sentences + [parts[i] + "。"];
      i := i + 2;
    }
    assert |sentences| == |Sentences(s)|;
  }

  /** `s[..i + 1]` with `s[i]` the first `。` holds exactly one `。`. */
  lemma FirstSentenceHasOneStop(s: string, i: nat)
    requires i < |s| && s[i] == '。' && forall k | 0 <= k < i :: s[k] != '。'
    ensures CountWhere(s[..i + 1], IsStop) == 1
  {
    assert s[..i + 1] == s[..i] + [s[i]];
    CountWhereAppend(s[..i], [s[i]], IsStop);
    CountWhereNone(s[..i], IsStop);
    assert CountWhere([s[i]], IsStop) == 1 + CountWhere([], IsStop);
  }

  /** Every sentence ends with `。` and holds no other `。`. */
  lemma {:induction false} SentencesEndWithStop(s: string)
    ensures forall j | 0 <= j < |Sentences(s)| ::
      EndsWith(Sentences(s)[j], '。') && CountWhere(Sentences(s)[j], IsStop) == 1
    decreases |s|
  {
    match IndexOf(s, '。')
    case None =>
    case Some(i) =>
      SentencesEndWithStop(s[i + 1..]);
      FirstSentenceHasOneStop(s, i);
      var ss := Sentences(s);
      assert ss == [s[..i + 1]] + Sentences(s[i + 1..]);
      forall j | 0 <= j < |ss|
        ensures EndsWith(ss[j], '。') && CountWhere(ss[j], IsStop) == 1
      {
        if j > 0 {
          assert ss[j] == Sentences(s[i + 1..])[j - 1];
        }
      }
  }

  /** There are as many sentences as there are `。` in the text. */
  lemma {:induction false} SentenceCountIsStopCount(s: string)
    ensures |Sentences(s)| == CountWhere(s, IsStop)
    decreases |s|
  {
    match IndexOf(s, '。')
    case None =>
      CountWhereNone(s, IsStop);
    case Some(i) =>
      SentenceCountIsStopCount(s[i + 1..]);
      FirstSentenceHasOneStop(s, i);
      assert s == s[..i + 1] + s[i + 1..];
      CountWhereAppend(s[..i + 1], s[i + 1..], IsStop);
  }

  /**
   * Joined back together the sentences are the text up to and including its last `。`:
   * a prefix of the text, after which no `。` remains.
   */
  lemma {:induction false} SentencesCoverUpToLastStop(s: string)
    ensures IsPrefix(Concat(Sentences(s)), s)
    ensures forall k | |Concat(Sentences(s))| <= k < |s| :: s[k] != '。'
    decreases |s|
  {
    match IndexOf(s, '。')
    case None =>
    case Some(i) =>
      var rest := s[i + 1..];
      SentencesCoverUpToLastStop(rest);
      var tail := Concat(Sentences(rest));
      assert Concat(Sentences(s)) == s[..i + 1] + tail;
      CoverShifts(s, i, rest, tail);
  }

  /** What covers `rest`, the text after position `i`, covers the whole text once `s[..i + 1]` goes in front. */
  lemma CoverShifts(s: string, i: nat, rest: string, tail: string)
    requires i < |s| && rest == s[i + 1..] && IsPrefix(tail, rest)
    requires forall k | |tail| <= k < |rest| :: rest[k] != '。'
    ensures IsPrefix(s[..i + 1] + tail, s)
    ensures forall k | i + 1 + |tail| <= k < |s| :: s[k] != '。'
  {
    assert s[..i + 1 + |tail|] == s[..i + 1] + rest[..|tail|];
    forall k | i + 1 + |tail| <= k < |s|
      ensures s[k] != '。'
    {
      assert s[k] == rest[k - (i + 1)];
    }
  }

  /** A text that ends in `。` is covered whole by its sentences. */
  lemma SentencesOfTerminatedText(s: string)
    requires EndsWith(s, '。')
    ensures Concat(Sentences(s)) == s
  {
    SentencesCoverUpToLastStop(s);
    assert s[|s| - 1] == '。';
  }
}

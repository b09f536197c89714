/**
 * The directive builders: keyword lists typed by the user become an instruction line,
 * and the chosen tone becomes a block of style rules. All of them are total functions
 * on strings.
 */
module Instructions {
  import opened PyStr

  /** The separators of `re.split(r"[ 　]+", …)`: the ASCII and the ideographic space. */
  predicate IsKeywordSep(c: char) {
    c == ' ' || c == '　'
  }

  /** Length of the run of non-separators at the start of `s`. */
  function WordLength(s: string, isSep: char -> bool): (n: nat)
    ensures n <= |s|
    ensures forall i | 0 <= i < n :: !isSep(s[i])
    ensures n == |s| || isSep(s[n])
    decreases |s|
  {
    if s == [] || isSep(s[0]) then 0 else 1 + WordLength(s[1..], isSep)
  }

  /**
   * The non-empty pieces of `s` between runs of separators, in order: both
   * `[w for w in re.split(r"[sep]+", s) if w]` and, with `isSep` = `IsSpace`, `s.split()`.
   */
  function Words(s: string, isSep: char -> bool): (ws: seq<string>)
    ensures forall j | 0 <= j < |ws| :: ws[j] != []
    ensures forall j, k | 0 <= j < |ws| && 0 <= k < |ws[j]| :: !isSep(ws[j][k])
    decreases |s|
  {
    if s == [] then []
    else if isSep(s[0]) then Words(s[1..], isSep)
    else
      var n := WordLength(s, isSep);
      [s[..n]] + Words(s[n..], isSep)
  }

  /** The words, joined back together, are the text with every separator deleted. */
  lemma {:induction false} WordsKeepEveryOtherChar(s: string, isSep: char -> bool)
    ensures Concat(Words(s, isSep)) == RemoveWhere(s, isSep)
    decreases |s|
  {
    if s != [] {
      if isSep(s[0]) {
        WordsKeepEveryOtherChar(s[1..], isSep);
      } else {
        var n := WordLength(s, isSep);
        WordsKeepEveryOtherChar(s[n..], isSep);
        assert s == s[..n] + s[n..];
        RemoveWhereAppend(s[..n], s[n..], isSep);
        RemoveWhereNothing(s[..n], isSep);
        assert Concat(Words(s, isSep)) == s[..n] + Concat(Words(s[n..], isSep));
      }
    }
  }

  /** Word `w` sits at index `i` of `s` as a whole run: a separator or the text's edge on either side. */
  predicate RunAt(s: string, w: string, i: int, isSep: char -> bool) {
    && OccursAt(s, w, i)
    && (i == 0 || isSep(s[i - 1]))
    && (i + |w| == |s| || isSep(s[i + |w|]))
  }

  /**
   * The text is split exactly at its separators: every word is a maximal run of
   * non-separators of the text, bounded by separators or the text's ends.
   */
  lemma {:induction false} WordsAreMaximalRuns(s: string, isSep: char -> bool, j: nat)
    requires j < |Words(s, isSep)|
    ensures exists i :: RunAt(s, Words(s, isSep)[j], i, isSep)
    decreases |s|
  {
    var w := Words(s, isSep)[j];
    if isSep(s[0]) {
      WordsAreMaximalRuns(s[1..], isSep, j);
      var i' :| RunAt(s[1..], w, i', isSep);
      RunShifts(s, w, i', isSep);
    } else {
      var n := WordLength(s, isSep);
      if j == 0 {
        assert s[0..n] == s[..n];
        assert RunAt(s, w, 0, isSep);
      } else {
        var rest := s[n..];
        assert w == Words(rest, isSep)[j - 1];
        WordsAreMaximalRuns(rest, isSep, j - 1);
        var i' :| RunAt(rest, w, i', isSep);
        assert w[0] == rest[i'];
        RunAfterWord(s, n, w, i', isSep);
      }
    }
  }

  /** `p` with `d` added to every element. */
  function Shifted(p: seq<int>, d: int): (q: seq<int>)
    ensures |q| == |p| && forall k | 0 <= k < |p| :: q[k] == p[k] + d
  {
    seq(|p|, k requires 0 <= k < |p| => p[k] + d)
  }

  /** Where each word of `Words(s, isSep)` starts in `s`. */
  function WordStarts(s: string, isSep: char -> bool): seq<int>
    decreases |s|
  {
    if s == [] then []
    else if isSep(s[0]) then Shifted(WordStarts(s[1..], isSep), 1)
    else
      var n := WordLength(s, isSep);
      [0] + Shifted(WordStarts(s[n..], isSep), n)
  }

  /** Each word `ws[j]` is a whole run of `s` at `p[j]`, and each word ends before the next one starts. */
  predicate InTextOrder(s: string, ws: seq<string>, p: seq<int>, isSep: char -> bool) {
    && |p| == |ws|
    && (forall j | 0 <= j < |ws| :: RunAt(s, ws[j], p[j], isSep))
    && (forall j | 0 < j < |ws| :: p[j - 1] + |ws[j - 1]| < p[j])
  }

  /**
   * The words are the runs of non-separators of the text, once each and in text order:
   * with `WordsKeepEveryOtherChar` this fixes where the text is split.
   */
  lemma {:induction false} WordsInTextOrder(s: string, isSep: char -> bool)
    ensures InTextOrder(s, Words(s, isSep), WordStarts(s, isSep), isSep)
    decreases |s|
  {
    if s != [] {
      if isSep(s[0]) {
        WordsInTextOrder(s[1..], isSep);
        OrderShiftsPastSeparator(s, Words(s[1..], isSep), WordStarts(s[1..], isSep), isSep);
      } else {
        var n := WordLength(s, isSep);
        var rest := s[n..];
        WordsInTextOrder(rest, isSep);
        assert s[0..n] == s[..n];
        OrderAfterFirstWord(s, n, Words(rest, isSep), WordStarts(rest, isSep), isSep);
        assert Words(s, isSep) == [s[..n]] + Words(rest, isSep);
      }
    }
  }

  lemma OrderShiftsPastSeparator(s: string, ws: seq<string>, p: seq<int>, isSep: char -> bool)
    requires s != [] && isSep(s[0]) && InTextOrder(s[1..], ws, p, isSep)
    ensures InTextOrder(s, ws, Shifted(p, 1), isSep)
  {
    forall j | 0 <= j < |ws|
      ensures RunAt(s, ws[j], p[j] + 1, isSep)
    {
      RunShifts(s, ws[j], p[j], isSep);
    }
  }

  lemma OrderAfterFirstWord(s: string, n: nat, ws: seq<string>, p: seq<int>, isSep: char -> bool)
    requires 0 < n <= |s| && (n == |s| || isSep(s[n]))
    requires forall i | 0 <= i < n :: !isSep(s[i])
    requires InTextOrder(s[n..], ws, p, isSep)
    requires forall j | 0 <= j < |ws| :: ws[j] != [] && !isSep(ws[j][0])
    ensures InTextOrder(s, [s[..n]] + ws, [0] + Shifted(p, n), isSep)
  {
    var ws' := [s[..n]] + ws;
    var p' := [0] + Shifted(p, n);
    assert RunAt(s, s[..n], 0, isSep) by {
      assert s[0..n] == s[..n];
    }
    forall j | 0 <= j < |ws|
      ensures RunAt(s, ws[j], n + p[j], isSep)
    {
      RunAfterWord(s, n, ws[j], p[j], isSep);
    }
    forall j | 0 < j < |ws'|
      ensures p'[j - 1] + |ws'[j - 1]| < p'[j]
    {
      if j > 1 {
        assert p'[j - 1] == p[j - 2] + n && p'[j] == p[j - 1] + n;
      }
    }
  }

  /** A run of `s[1..]` is a run of `s` one index later when `s[0]` is a separator. */
  lemma RunShifts(s: string, w: string, i: int, isSep: char -> bool)
    requires s != [] && isSep(s[0]) && RunAt(s[1..], w, i, isSep)
    ensures RunAt(s, w, i + 1, isSep)
  {
    assert s[i + 1..i + 1 + |w|] == s[1..][i..i + |w|];
  }

  /**
   * A run of `s[n..]` that does not start at its first character, which is a separator,
   * is a run of `s` `n` indices later.
   */
  lemma RunAfterWord(s: string, n: nat, w: string, i: int, isSep: char -> bool)
    requires 0 < n < |s| && isSep(s[n]) && RunAt(s[n..], w, i, isSep) && w != [] && !isSep(w[0])
    ensures RunAt(s, w, n + i, isSep) && i > 0
  {
    assert i != 0;
    assert s[n + i..n + i + |w|] == s[n..][i..i + |w|];
    assert s[n + i - 1] == s[n..][i - 1];
  }

  /** There are no words exactly when the text is made of separators only. */
  lemma {:induction false} NoWordsIffAllSeparators(s: string, isSep: char -> bool)
    ensures Words(s, isSep) == [] <==> forall i | 0 <= i < |s| :: isSep(s[i])
    decreases |s|
  {
    if s != [] {
      NoWordsIffAllSeparators(s[1..], isSep);
      assert forall i | 1 <= i < |s| :: s[i] == s[1..][i - 1];
    }
  }

  /** `split_keywords`: strip, split on runs of spaces, drop the empty pieces. */
  function SplitKeywords(keywords: string): (words: seq<string>)
    ensures forall j | 0 <= j < |words| :: words[j] != []
    ensures forall j, k | 0 <= j < |words| && 0 <= k < |words[j]| :: !IsKeywordSep(words[j][k])
  {
    Words(Strip(keywords), IsKeywordSep)
  }

  /** Blank input, and only blank input, yields no keywords. */
  lemma SplitKeywordsBlank(keywords: string)
    ensures SplitKeywords(keywords) == [] <==> forall i | 0 <= i < |keywords| :: IsSpace(keywords[i])
  {
    var stripped := Strip(keywords);
    StripBlank(keywords);
    NoWordsIffAllSeparators(stripped, IsKeywordSep);
    if stripped != [] {
      assert !IsSpace(stripped[0]);
      assert !IsKeywordSep(stripped[0]);
    }
  }

  /** The keywords are the stripped text with its spaces deleted, in their original order. */
  lemma SplitKeywordsInOrder(keywords: string)
    ensures Concat(SplitKeywords(keywords)) == RemoveWhere(Strip(keywords), IsKeywordSep)
  {
    WordsKeepEveryOtherChar(Strip(keywords), IsKeywordSep);
  }

  /** Every keyword is a whole run of non-spaces of the stripped input. */
  lemma SplitKeywordsAreRuns(keywords: string, j: nat)
    requires j < |SplitKeywords(keywords)|
    ensures exists i :: RunAt(Strip(keywords), SplitKeywords(keywords)[j], i, IsKeywordSep)
  {
    WordsAreMaximalRuns(Strip(keywords), IsKeywordSep, j);
  }

  /** The keywords are the runs of non-spaces of the stripped input, once each and in input order. */
  lemma SplitKeywordsInTextOrder(keywords: string)
    ensures InTextOrder(Strip(keywords), SplitKeywords(keywords), WordStarts(Strip(keywords), IsKeywordSep), IsKeywordSep)
  {
    WordsInTextOrder(Strip(keywords), IsKeywordSep);
  }

  /** Two keywords separated by an ideographic space stay two keywords. */
  lemma SplitKeywordsOfTwo()
    ensures SplitKeywords("猫　犬") == ["猫", "犬"]
  {
    var k := "猫　犬";
    StripTrimmed(k);
    assert WordLength(k, IsKeywordSep) == 1;
    assert k[1..] == "　犬";
    assert k[1..][1..] == "犬";
    var w := "犬";
    assert WordLength(w, IsKeywordSep) == 1;
    assert w[..1] == w && w[1..] == [];
    assert Words(w, IsKeywordSep) == [w];
    assert k[..1] == "猫";
    assert Words(k, IsKeywordSep) == ["猫"] + Words(w, IsKeywordSep);
  }

  const KeywordListHead: string := "・キーワード指定: "
  const KeywordRules: string :=
    "\n・各キーワードは文章中に絶対に1回だけ\n・キーワードが文の繋がりを邪魔しないよう、自然に組み込んでください。\n"

  /** `build_keyword`: empty without keywords, otherwise a block listing them joined by `、`. */
  function BuildKeyword(keywords: string): (r: string)
    ensures r == [] <==> SplitKeywords(keywords) == []
    ensures SplitKeywords(keywords) != [] ==>
      IsPrefix(KeywordListHead, r) && Contains(r, JoinWith(SplitKeywords(keywords), "、"))
  {
    var words := SplitKeywords(keywords);
    if words == [] then ""
    else
      var r := KeywordListHead + JoinWith(words, "、") + KeywordRules;
      assert OccursAt(r, JoinWith(words, "、"), |KeywordListHead|);
      assert r[..|KeywordListHead|] == KeywordListHead;
      r
  }

  /** Every keyword the user typed appears in the built instruction. */
  lemma BuildKeywordListsEach(keywords: string, j: nat)
    requires j < |SplitKeywords(keywords)|
    ensures Contains(BuildKeyword(keywords), SplitKeywords(keywords)[j])
  {
    var words := SplitKeywords(keywords);
    JoinWithContainsEach(words, "、", j);
    ContainsTrans(BuildKeyword(keywords), JoinWith(words, "、"), words[j]);
  }

  const KeywordDemandHead: string :=
    "以下のキーワードを必ずすべて1回以上含めてください。絶対に省略しないでください。文章の自然な位置に挿入してください："

  /** `build_keyword_instruction` of app/app.py: the same keywords, one line ending in `。`. */
  function BuildKeywordInstruction(keywords: string): (r: string)
    ensures r == [] <==> SplitKeywords(keywords) == []
    ensures SplitKeywords(keywords) != [] ==>
      IsPrefix(KeywordDemandHead, r) && EndsWith(r, '。')
      && Contains(r, JoinWith(SplitKeywords(keywords), "、"))
  {
    var words := SplitKeywords(keywords);
    if words == [] then ""
    else
      var r := KeywordDemandHead + JoinWith(words, "、") + "。";
      assert OccursAt(r, JoinWith(words, "、"), |KeywordDemandHead|);
      assert r[..|KeywordDemandHead|] == KeywordDemandHead;
      r
  }

  const KeywordRequestHead: string := "以下のキーワードを必ず含めてください："

  /**
   * `build_keyword_instruction` of code/UI.py: blank input gives `""`; otherwise the
   * words of `keywords.split()` are listed, joined by `、`, and closed by `。`.
   */
  function BuildKeywordRequest(keywords: string): (r: string)
    ensures r == [] <==> forall i | 0 <= i < |keywords| :: IsSpace(keywords[i])
    ensures r != [] ==>
      IsPrefix(KeywordRequestHead, r) && EndsWith(r, '。')
      && Contains(r, JoinWith(Words(keywords, IsSpace), "、"))
  {
    StripBlank(keywords);
    NoWordsIffAllSeparators(keywords, IsSpace);
    if Strip(keywords) == [] then ""
    else
      var words := Words(keywords, IsSpace);
      if words == [] then ""
      else
        var r := KeywordRequestHead + JoinWith(words, "、") + "。";
        assert OccursAt(r, JoinWith(words, "、"), |KeywordRequestHead|);
        assert r[..|KeywordRequestHead|] == KeywordRequestHead;
        r
  }

  const SoftTone: string := "やわらかい"
  const SoftToneRules: string :=
    "・話し言葉に近い文体で書くこと\n・一文を短く、簡単な言葉で書くこと\n・難しい言い回しや抽象語は使わないこと\n"

  /** `build_tone` of app.py: the conversational rules for `やわらかい`, nothing otherwise. */
  function BuildTone(tone: string): (r: string)
    ensures r != [] <==> tone == SoftTone
    ensures r != [] ==> EndsWith(r, '\n')
  {
    if tone == SoftTone then SoftToneRules else ""
  }

  /**
   * app.py passes the already built directive to `adjust_length`, which builds it again:
   * whatever the chosen tone, the resize prompt then gets no tone rules.
   */
  lemma ToneRebuiltIsEmpty(tone: string)
    ensures BuildTone(BuildTone(tone)) == []
  {
    assert SoftToneRules != SoftTone by {
      assert |SoftToneRules| != |SoftTone|;
    }
  }

  const GentleTone: string := "やさしい"
  const GentleToneRules: string :=
    "・小学生でもすぐ理解できる、やさしい言葉を使う\n・難しい言葉や専門用語は使わない\n・一文を短めにして素直な文にする\n"
  const FormalToneRules: string :=
    "・公の場に出しても問題ない表現にする\n・誤解を招く言い方や強すぎる表現は避ける\n"

  /** `build_tone_instruction` of app/app.py: plain-language rules for `やさしい`, formal rules otherwise. */
  function BuildToneInstruction(tone: string): (r: string)
    ensures r != []
    ensures r == GentleToneRules <==> tone == GentleTone
    ensures EndsWith(r, '\n')
  {
    if tone == GentleTone then GentleToneRules
    else
      assert GentleToneRules != FormalToneRules by {
        assert |GentleToneRules| != |FormalToneRules|;
      }
      FormalToneRules
  }
}

/**
 * `finalize_ad` of app/app.py: the hard cut that makes a generated advertisement end
 * with `。` and fit into `target` characters.
 */
module Truncation {
  import opened Wrappers
  import opened PyStr
  import opened Normalizer

  /** Python's `s[:n]`, negative `n` counting from the end. */
  function PyPrefix(s: string, n: int): (r: string)
    ensures IsPrefix(r, s)
    ensures 0 <= n <= |s| ==> |r| == n
    ensures n > |s| ==> r == s
    ensures n < 0 ==> |r| == if |s| + n < 0 then 0 else |s| + n
  {
    if n >= |s| then s
    else if n >= 0 then s[..n]
    else if |s| + n < 0 then []
    else s[..|s| + n]
  }

  /** The text with a `。` appended unless it already ends with one. */
  function Terminated(s: string): (r: string)
    ensures EndsWith(r, '。') && IsPrefix(s, r)
    ensures |r| == if EndsWith(s, '。') then |s| else |s| + 1
  {
    if EndsWith(s, '。') then s else s + "。"
  }

  /** The last index of `c` in `s`, searching from the end. */
  function LastIndexOf(s: string, c: char): (r: Option<nat>)
    ensures r.Some? ==> r.value < |s| && s[r.value] == c && forall k | r.value < k < |s| :: s[k] != c
    ensures r.None? ==> forall k | 0 <= k < |s| :: s[k] != c
    decreases |s|
  {
    if s == [] then None
    else if s[|s| - 1] == c then Some(|s| - 1)
    else LastIndexOf(s[..|s| - 1], c)
  }

  /**
   * What `finalize_ad` does to an already normalized text `t`: close it with `。`, keep it
   * when it fits, otherwise cut it after the last `。` of its first `target` characters,
   * or, with no `。` there, keep all of them but the last and put a `。` in its place.
   */
  function Cut(t: string, target: int): (r: string)
    ensures EndsWith(r, '。')
    ensures |Terminated(t)| <= target ==> r == Terminated(t)
    ensures target >= 1 ==> |r| <= target
    ensures var cut := PyPrefix(Terminated(t), target);
      |Terminated(t)| > target && '。' in cut ==>
        IsPrefix(r, cut) && forall k | |r| <= k < |cut| :: cut[k] != '。'
    ensures var cut := PyPrefix(Terminated(t), target);
      |Terminated(t)| > target && '。' !in cut ==>
        IsPrefix(PyPrefix(cut, -1), r) && |r| == |PyPrefix(cut, -1)| + 1 && (target >= 1 ==> |r| == target)
  {
    var u := Terminated(t);
    if |u| <= target then u
    else
      var cut := PyPrefix(u, target);
      match LastIndexOf(cut, '。')
      case Some(i) =>
        var r := cut[..i + 1];
        assert cut[..|r|] == r;
        r
      case None =>
        assert '。' !in cut;
        var head := PyPrefix(cut, -1);
        var r := head + "。";
        assert r[..|head|] == head;
        r
  }

  /** The backward scan of `finalize_ad` over the first `target` characters of the closed text. */
  method CutToLength(t: string, target: int) returns (r: string)
    ensures r == Cut(t, target)
  {
    var text := t;
    if !EndsWith(text, '。') {
      text := text + "。";
    }
    if |text| <= target {
      return text;
    }
    var cut := PyPrefix(text, target);
    var i := |cut| - 1;
    while i >= 0
      invariant -1 <= i < |cut|
      invariant forall k | i < k < |cut| :: cut[k] != '。'
    {
      if cut[i] == '。' {
        return cut[..i + 1];
      }
      i := i - 1;
    }
    r := PyPrefix(cut, -1) + "。";
  }

  /** `finalize_ad`: normalize (letters kept), then cut to length. */
  method FinalizeAd(text: Option<string>, target: int) returns (r: string)
    ensures r == Cut(Normalize(text, false), target)
  {
    var t := Normalize(text, false);
    r := CutToLength(t, target);
  }

  /** Whatever the target, an empty text finalizes to a lone `。`. */
  lemma CutOfEmpty(target: int)
    ensures Cut([], target) == "。"
  {
    assert Terminated([]) == "。";
  }
}

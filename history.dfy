/**
 * The generation history kept across reruns of the apps: every new entry goes to the
 * front of the list, which is then cut back to its first five entries. app/app.py files
 * each advertisement under a label; the `code/` apps store the advertisement itself.
 */
module HistoryCache {
  import opened Wrappers
  import opened PyStr
  import opened Normalizer

  /** How many entries the history keeps. */
  const Capacity: nat := 5

  function Min(a: nat, b: nat): nat {
    if a <= b then a else b
  }

  /** The history after `insert(0, x)` followed by `[:5]`. */
  function Recorded<T>(h: seq<T>, x: T): (r: seq<T>)
    ensures |r| == Min(|h| + 1, Capacity)
    ensures r[0] == x
    ensures r[1..] == h[..Min(|h|, Capacity - 1)]
  {
    var inserted := [x] + h;
    var r := inserted[..Min(|inserted|, Capacity)];
    assert r[1..] == inserted[1..Min(|inserted|, Capacity)];
    r
  }

  /** The history after recording `xs` in order, starting from `h`. */
  function RecordAll<T>(h: seq<T>, xs: seq<T>): seq<T>
    decreases |xs|
  {
    if xs == [] then h else RecordAll(Recorded(h, xs[0]), xs[1..])
  }

  function Reversed<T>(xs: seq<T>): (r: seq<T>)
    ensures |r| == |xs|
    ensures forall i | 0 <= i < |xs| :: r[i] == xs[|xs| - 1 - i]
    decreases |xs|
  {
    if xs == [] then [] else Reversed(xs[1..]) + [xs[0]]
  }

  /**
   * Recording several entries keeps the five most recent ones, newest first, followed
   * by as many of the older ones as still fit.
   */
  lemma {:induction false} RecordAllKeepsLatest<T>(h: seq<T>, xs: seq<T>)
    requires |h| <= Capacity
    ensures var all := Reversed(xs) + h;
      RecordAll(h, xs) == all[..Min(|all|, Capacity)]
    decreases |xs|
  {
    if xs == [] {
      assert Reversed(xs) + h == h;
    } else {
      var h' := Recorded(h, xs[0]);
      RecordAllKeepsLatest(h', xs[1..]);
    }
  }

  /**
   * The history list of the apps: `Insert` is the `insert(0, …)` and the `[:5]` slice
   * done one after the other on the session's list.
   */
  class History<T> {
    var entries: seq<T>

    /** No history holds more than five entries. */
    predicate Valid()
      reads this
    {
      |entries| <= Capacity
    }

    constructor ()
      ensures Valid() && entries == []
    {
      entries := [];
    }

    method Insert(x: T)
      requires Valid()
      modifies this
      ensures Valid()
      ensures entries == Recorded(old(entries), x)
    {
      entries := [x] + entries;
      entries := entries[..Min(|entries|, Capacity)];
    }
  }

  /** The option name under which the apps read the manuscript from an uploaded file. */
  const FileOption: string := "ファイル"

  /**
   * `make_history_label` of app/app.py: the uploaded file's name when reading from a
   * file, otherwise the first ten characters of the normalized manuscript and `…`.
   * `upload` is the name of the uploaded file, if any.
   */
  function MakeHistoryLabel(option: string, text: string, upload: Option<string>): (r: string)
    ensures option == FileOption && upload.Some? ==> r == upload.value
    ensures !(option == FileOption && upload.Some?) ==>
      var n := Normalize(Some(text), false);
      && |r| == Min(|n|, 10) + 1
      && EndsWith(r, '…')
      && IsPrefix(r[..|r| - 1], n)
  {
    if option == FileOption && upload.Some? then upload.value
    else
      var n := Normalize(Some(text), false);
      var head := n[..Min(|n|, 10)];
      var r := head + "…";
      assert r[..|r| - 1] == head;
      r
  }
}

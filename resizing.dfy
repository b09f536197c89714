/**
 * `adjust_length` of app.py: up to two rounds of asking the service to bring a
 * postprocessed advertisement within five characters of the target.
 */
module Resizing {
  import opened Wrappers
  import opened PyStr
  import opened Normalizer
  import opened Client

  /** Within five characters of the target and closed by `。`: `adjust_length` stops here. */
  predicate WithinTolerance(ad: string, target: int) {
    -5 <= target - |ad| <= 5 && EndsWith(ad, '。')
  }

  /** Some output of the post-processor `post`. */
  ghost predicate Produced(post: string -> string, s: string) {
    exists t :: s == post(t)
  }

  /** A run of several controller calls: its result, the calls made, the requests sent. */
  datatype AdjustRun = AdjustRun(result: ChatResult, chats: nat, calls: nat)

  /**
   * The resize loop from an already postprocessed `ad`, with `rounds` rounds left, for a
   * controller `chat` (`chat(k)` is the run of one controller call whose first request is
   * the k-th) and a post-processor `post`: stop when the text is within tolerance,
   * otherwise call the controller; a raise ends everything, an empty reply keeps `ad`, any
   * other reply goes through `post` and becomes the text of the next round.
   */
  function Resize(chat: nat -> ChatRun, post: string -> string, start: nat, ad: string, target: int, rounds: nat): AdjustRun
    decreases rounds
  {
    if rounds == 0 || WithinTolerance(ad, target) then AdjustRun(Reply(ad), 0, 0)
    else
      var run := chat(start);
      match run.result
      case Raised(f) => AdjustRun(Raised(f), 1, run.calls)
      case Reply(t) =>
        if t == [] then AdjustRun(Reply(ad), 1, run.calls)
        else
          var rest := Resize(chat, post, start + run.calls, post(t), target, rounds - 1);
          AdjustRun(rest.result, rest.chats + 1, rest.calls + run.calls)
  }

  /**
   * At most one controller call per round; no call at all when the text is already
   * within tolerance, and an empty first reply ends the loop with the text unchanged.
   */
  lemma {:induction false} ResizeBounds(chat: nat -> ChatRun, post: string -> string, start: nat, ad: string, target: int, rounds: nat)
    requires Bounded(chat)
    ensures var run := Resize(chat, post, start, ad, target, rounds);
      run.chats <= rounds && run.chats <= run.calls <= MaxAttempts * run.chats
    ensures WithinTolerance(ad, target) ==> Resize(chat, post, start, ad, target, rounds) == AdjustRun(Reply(ad), 0, 0)
    ensures rounds > 0 && !WithinTolerance(ad, target) && chat(start).result == Reply([]) ==>
      Resize(chat, post, start, ad, target, rounds) == AdjustRun(Reply(ad), 1, chat(start).calls)
    decreases rounds
  {
    if rounds > 0 && !WithinTolerance(ad, target) {
      var run := chat(start);
      if run.result.Reply? && run.result.text != [] {
        ResizeBounds(chat, post, start + run.calls, post(run.result.text), target, rounds - 1);
      }
    }
  }

  /** The text that comes out is the one that went in or the post-processing of some reply. */
  lemma {:induction false} ResizeYieldsPostprocessed(chat: nat -> ChatRun, post: string -> string, start: nat, ad: string, target: int, rounds: nat)
    ensures var run := Resize(chat, post, start, ad, target, rounds);
      run.result.Reply? ==> run.result.text == ad || Produced(post, run.result.text)
    decreases rounds
  {
    if rounds > 0 && !WithinTolerance(ad, target) {
      var run := chat(start);
      if run.result.Reply? && run.result.text != [] {
        ResizeYieldsPostprocessed(chat, post, start + run.calls, post(run.result.text), target, rounds - 1);
      }
    }
  }

  /** Shifts a run that started after `chats` calls and `calls` requests to the caller's count. */
  function After(run: AdjustRun, chats: nat, calls: nat): (r: AdjustRun)
    ensures r.result == run.result && r.chats == run.chats + chats && r.calls == run.calls + calls
  {
    AdjustRun(run.result, run.chats + chats, run.calls + calls)
  }

  /** `postprocess` of a reply. */
  function Postprocess(t: string): string {
    Normalize(Some(t), false)
  }

  /**
   * `adjust_length` of app.py, for a controller `chat` that makes one to three requests
   * per call: postprocess, then at most two resize rounds, so that the text that comes
   * out is always a postprocessed one. The tone directive and the prompt only shape the
   * request and are not part of this model.
   */
  method AdjustLength(chat: nat -> ChatRun, post: string -> string, start: nat, ad: string, target: int)
    returns (result: ChatResult, chats: nat, calls: nat)
    requires Bounded(chat)
    ensures AdjustRun(result, chats, calls) == Resize(chat, post, start, post(ad), target, 2)
    ensures chats <= 2 && chats <= calls <= MaxAttempts * chats
    ensures result.Reply? ==> Produced(post, result.text)
  {
    var text := post(ad);
    result, chats, calls := ResizeRounds(chat, post, start, text, target);
    ResizeBounds(chat, post, start, text, target, 2);
    ResizeYieldsPostprocessed(chat, post, start, text, target, 2);
  }

  /** The `for _ in range(2)` loop of `adjust_length`, from the postprocessed text. */
  method ResizeRounds(chat: nat -> ChatRun, post: string -> string, start: nat, ad: string, target: int)
    returns (result: ChatResult, chats: nat, calls: nat)
    ensures AdjustRun(result, chats, calls) == Resize(chat, post, start, ad, target, 2)
  {
    var text := ad;
    chats, calls := 0, 0;
    var round := 0;
    while round < 2
      invariant 0 <= round <= 2
      invariant Resize(chat, post, start, ad, target, 2)
        == After(Resize(chat, post, start + calls, text, target, 2 - round), chats, calls)
    {
      if WithinTolerance(text, target) {
        result := Reply(text);
        return;
      }
      var run := chat(start + calls);
      chats, calls := chats + 1, calls + run.calls;
      if run.result.Raised? {
        result := run.result;
        return;
      }
      if run.result.text == [] {
        break;
      }
      text := post(run.result.text);
      round := round + 1;
    }
    result := Reply(text);
  }
}

/**
 * The three generation flows: `generate_advertisement` of app.py (ask, then resize),
 * `generate_newspaper_ad_api` of app/app.py (ask, then cut to length) and
 * `generate_newspaper_ad_api` of the `code/` apps (ask, then maybe rewrite the last
 * sentence). The prompts they build only shape the requests and are not modelled.
 */
module Flows {
  import opened Wrappers
  import opened PyStr
  import opened Normalizer
  import opened Client
  import opened Truncation
  import opened Resizing
  import opened TailRepair
  import Sentences

  /**
   * What `generate_advertisement` of app.py does after its first controller call `first`:
   * a raise propagates; a reply is postprocessed and handed to `adjust_length`, which
   * postprocesses it once more before its resize rounds.
   */
  function Advertised(chat: nat -> ChatRun, post: string -> string, start: nat, first: ChatRun, target: int): AdjustRun {
    if first.result.Raised? then AdjustRun(first.result, 1, first.calls)
    else After(Resize(chat, post, start + first.calls, post(post(first.result.text)), target, 2), 1, first.calls)
  }

  /**
   * `generate_advertisement` of app.py: refuse to run without a token, ask once (raising
   * when every attempt fails), postprocess the reply and resize it.
   */
  method GenerateAdvertisement(token: string, svc: nat -> Outcome, start: nat, target: int)
    returns (result: ChatResult, calls: nat)
    ensures token == [] ==> result == Raised(MissingToken) && calls == 0
    ensures token != [] ==>
      var run := Advertised(Controller(svc, RaiseUnavailable), Postprocess, start, ChatFrom(svc, start, 0, RaiseUnavailable), target);
      result == run.result && calls == run.calls
    ensures token != [] ==> 1 <= calls <= 3 * MaxAttempts
    ensures result.Reply? ==> Produced(Postprocess, result.text)
  {
    if token == [] {
      return Raised(MissingToken), 0;
    }
    var reply, used, sleeps := CallChat(svc, start, RaiseUnavailable);
    ChatCallsBounded(svc, start, RaiseUnavailable);
    ControllerBounded(svc, RaiseUnavailable);
    result, calls := AdvertiseFrom(Controller(svc, RaiseUnavailable), Postprocess, start, ChatRun(reply, used, sleeps), target);
  }

  /** The rest of `generate_advertisement` once the first call has returned `first`. */
  method AdvertiseFrom(chat: nat -> ChatRun, post: string -> string, start: nat, first: ChatRun, target: int)
    returns (result: ChatResult, calls: nat)
    requires Bounded(chat) && 1 <= first.calls <= MaxAttempts
    ensures var run := Advertised(chat, post, start, first, target);
      result == run.result && calls == run.calls
    ensures first.calls <= calls <= 3 * MaxAttempts
    ensures result.Reply? ==> Produced(post, result.text)
  {
    if first.result.Raised? {
      return first.result, first.calls;
    }
    var ad := post(first.result.text);
    var chats, more;
    result, chats, more := AdjustLength(chat, post, start + first.calls, ad, target);
    calls := first.calls + more;
  }

  /**
   * `generate_newspaper_ad_api` of app/app.py: refuse to run without a token, ask once
   * (an exhausted controller answers `""`), normalize and finalize.
   */
  method GenerateFinalized(token: string, svc: nat -> Outcome, start: nat, target: int)
    returns (result: ChatResult, calls: nat)
    ensures token == [] ==> result == Raised(MissingToken) && calls == 0
    ensures token != [] ==> var chat := ChatFrom(svc, start, 0, ReturnEmpty);
      && calls == chat.calls && 1 <= calls <= MaxAttempts
      && (chat.result.Raised? ==> result == chat.result)
      && (chat.result.Reply? ==>
            result == Reply(Cut(Normalize(Some(Normalize(Some(chat.result.text), false)), false), target)))
    ensures result.Reply? ==> EndsWith(result.text, '。') && (target >= 1 ==> |result.text| <= target)
    ensures token != [] && (forall k | 0 <= k < MaxAttempts :: Retryable(At(svc, start, k))) ==>
      result == Reply("。")
  {
    if token == [] {
      return Raised(MissingToken), 0;
    }
    var reply, used, _ := CallChat(svc, start, ReturnEmpty);
    ChatCallsBounded(svc, start, ReturnEmpty);
    ChatExhaustion(svc, start, ReturnEmpty);
    calls := used;
    if reply.Raised? {
      return reply, calls;
    }
    var ad := Normalize(Some(reply.text), false);
    var finalized := FinalizeAd(Some(ad), target);
    if reply.text == [] {
      assert ad == [];
      assert Normalize(Some(ad), false) == [];
      CutOfEmpty(target);
    }
    result := Reply(finalized);
  }

  /**
   * The second step of `generate_newspaper_ad_api` of the `code/` apps on the normalized
   * first-pass text `ad`, for a controller `chat`, a normalization `norm` and a sentence
   * splitter `split`: only when the text is too long and has at least two sentences is
   * the controller asked for a new last sentence, which replaces the old one.
   */
  function Repaired(chat: nat -> ChatRun, norm: string -> string, split: string -> seq<string>,
                    start: nat, ad: string, target: int): AdjustRun
  {
    var ss := split(ad);
    if |ss| >= 2 && |ad| > target + 10 then
      var second := chat(start);
      AdjustRun(Rejoin(ss[..|ss| - 1], second.result, norm), 1, second.calls)
    else AdjustRun(Reply(ad), 0, 0)
  }

  /**
   * What `generate_newspaper_ad_api` of the `code/` apps does after its first controller
   * call `first`: a raise propagates; a reply is normalized and goes through the tail repair.
   */
  function TailRepaired(chat: nat -> ChatRun, norm: string -> string, split: string -> seq<string>,
                        start: nat, first: ChatRun, target: int): AdjustRun
  {
    if first.result.Raised? then AdjustRun(first.result, 1, first.calls)
    else After(Repaired(chat, norm, split, start + first.calls, norm(first.result.text), target), 1, first.calls)
  }

  /**
   * `generate_newspaper_ad_api` of code/UI.py and code/app.py: refuse to run without a
   * token, ask once, normalize, and only when the text is too long and has at least two
   * sentences ask a second time for a new last sentence.
   */
  method GenerateTailRepaired(token: string, svc: nat -> Outcome, start: nat, target: int)
    returns (result: ChatResult, chats: nat, calls: nat)
    ensures token == [] ==> result == Raised(MissingToken) && chats == 0 && calls == 0
    ensures token != [] ==>
      var first := ChatFrom(svc, start, 0, ReturnEmpty);
      AdjustRun(result, chats, calls) == TailRepaired(Controller(svc, ReturnEmpty), Tidy, SentencesOf, start, first, target)
    ensures token != [] ==> 1 <= chats <= 2 && chats <= calls <= MaxAttempts * chats
  {
    if token == [] {
      return Raised(MissingToken), 0, 0;
    }
    var reply, used, sleeps := CallChat(svc, start, ReturnEmpty);
    ChatCallsBounded(svc, start, ReturnEmpty);
    ControllerBounded(svc, ReturnEmpty);
    result, chats, calls := RepairFrom(Controller(svc, ReturnEmpty), Tidy, SentencesOf, start, ChatRun(reply, used, sleeps), target);
  }

  /** The rest of `generate_newspaper_ad_api` of the `code/` apps once the first call has returned `first`. */
  method RepairFrom(chat: nat -> ChatRun, norm: string -> string, split: string -> seq<string>,
                    start: nat, first: ChatRun, target: int)
    returns (result: ChatResult, chats: nat, calls: nat)
    requires Bounded(chat) && 1 <= first.calls <= MaxAttempts
    ensures AdjustRun(result, chats, calls) == TailRepaired(chat, norm, split, start, first, target)
    ensures 1 <= chats <= 2 && chats <= calls <= MaxAttempts * chats
  {
    if first.result.Raised? {
      return first.result, 1, first.calls;
    }
    var ad := norm(first.result.text);
    var more, extra;
    result, more, extra := RepairTail(chat, norm, split, start + first.calls, ad, target);
    chats, calls := 1 + more, first.calls + extra;
  }

  /** The tail repair of a first-pass text `ad`. */
  method RepairTail(chat: nat -> ChatRun, norm: string -> string, split: string -> seq<string>,
                    start: nat, ad: string, target: int)
    returns (result: ChatResult, chats: nat, calls: nat)
    requires Bounded(chat)
    ensures AdjustRun(result, chats, calls) == Repaired(chat, norm, split, start, ad, target)
    ensures chats <= 1 && chats <= calls <= MaxAttempts * chats
  {
    var sentences := split(ad);
    if |sentences| >= 2 && |ad| > target + 10 {
      result, calls := AdjustTail(chat, norm, start, sentences[..|sentences| - 1], sentences[|sentences| - 1]);
      chats := 1;
    } else {
      result, chats, calls := Reply(ad), 0, 0;
    }
  }

  /**
   * With the controller, normalization and splitter of the `code/` apps, the last
   * sentence is rewritten exactly when the normalized first reply has at least two
   * sentences and exceeds the target by more than ten characters.
   */
  lemma TailRewrittenIffLong(svc: nat -> Outcome, start: nat, first: ChatRun, target: int)
    requires first.result.Reply?
    ensures var run := TailRepaired(Controller(svc, ReturnEmpty), Tidy, SentencesOf, start, first, target);
      var ad := Tidy(first.result.text);
      run.chats == 2 <==> |Sentences.Sentences(ad)| >= 2 && |ad| > target + 10
  {
    SentencesOfNormalized(first.result.text);
  }

  /** Without a rewrite, the normalized first reply is the answer and no further request is made. */
  lemma TailKeptWhenShort(svc: nat -> Outcome, start: nat, first: ChatRun, target: int)
    requires first.result.Reply?
    ensures var run := TailRepaired(Controller(svc, ReturnEmpty), Tidy, SentencesOf, start, first, target);
      run.chats != 2 ==> run.result == Reply(Tidy(first.result.text)) && run.calls == first.calls
  {
  }

  /** After a rewrite, every sentence but the last of the normalized first reply starts the answer. */
  lemma TailRewriteKeepsHead(svc: nat -> Outcome, start: nat, first: ChatRun, target: int)
    requires first.result.Reply?
    ensures var run := TailRepaired(Controller(svc, ReturnEmpty), Tidy, SentencesOf, start, first, target);
      var ss := Sentences.Sentences(Tidy(first.result.text));
      run.chats == 2 && run.result.Reply? ==> |ss| >= 2 && IsPrefix(Concat(ss[..|ss| - 1]), run.result.text)
  {
    SentencesOfNormalized(first.result.text);
  }

  /**
   * A first reply that postprocessing brings within five characters of the target and
   * ends with `。` is returned without any resize request.
   */
  lemma AdvertisedKeepsCloseReply(chat: nat -> ChatRun, post: string -> string, start: nat, first: ChatRun, target: int)
    requires Bounded(chat) && first.result.Reply? && WithinTolerance(post(post(first.result.text)), target)
    ensures Advertised(chat, post, start, first, target) == AdjustRun(Reply(post(post(first.result.text))), 1, first.calls)
  {
    ResizeBounds(chat, post, start + first.calls, post(post(first.result.text)), target, 2);
  }
}

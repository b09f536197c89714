/**
 * `adjust_tail_with_llm` of the `code/` apps: the sentences before the last one are kept
 * as they are, and a rewritten last sentence, asked of the service, is appended.
 */
module TailRepair {
  import opened Wrappers
  import opened PyStr
  import opened Normalizer
  import opened Client
  import Sentences

  /**
   * The text `adjust_tail_with_llm` returns for the controller's answer `reply`: the head
   * joined together followed by the answer normalized by `norm`; a raise propagates.
   */
  function Rejoin(head: seq<string>, reply: ChatResult, norm: string -> string): (r: ChatResult)
    ensures reply.Raised? <==> r.Raised?
    ensures reply.Raised? ==> r == reply
    ensures r.Reply? ==> IsPrefix(Concat(head), r.text) && |r.text| == |Concat(head)| + |norm(reply.text)|
    ensures reply == Reply([]) && norm([]) == [] ==> r == Reply(Concat(head))
  {
    match reply
    case Raised(_) => reply
    case Reply(t) =>
      PrefixOfAppend(Concat(head), norm(t));
      Reply(Concat(head) + norm(t))
  }

  /** `normalize_output` of the `code/` apps. */
  function Tidy(t: string): string {
    Normalize(Some(t), true)
  }

  /** With the normalization of the `code/` apps, what follows the head has no newline and no ASCII letter. */
  lemma RejoinTidyTail(head: seq<string>, reply: ChatResult)
    ensures var r := Rejoin(head, reply, Tidy);
      r.Reply? ==> forall i | |Concat(head)| <= i < |r.text| :: !IsNewline(r.text[i]) && !IsAsciiLetter(r.text[i])
  {
    if reply.Reply? {
      var tail := Tidy(reply.text);
      AppendedTail(Concat(head), tail);
    }
  }

  lemma AppendedTail(h: string, t: string)
    requires forall i | 0 <= i < |t| :: !IsNewline(t[i]) && !IsAsciiLetter(t[i])
    ensures forall i | |h| <= i < |h + t| :: !IsNewline((h + t)[i]) && !IsAsciiLetter((h + t)[i])
  {
    forall i | |h| <= i < |h + t|
      ensures !IsNewline((h + t)[i]) && !IsAsciiLetter((h + t)[i])
    {
      assert (h + t)[i] == t[i - |h|];
    }
  }

  /** An empty answer (the exhausted controller's `""`) leaves just the head. */
  lemma TidyOfEmpty()
    ensures Tidy([]) == []
  {
    assert |Tidy([])| <= |OrEmpty(Some([]))| == 0;
  }

  /**
   * `adjust_tail_with_llm`: one call of the controller `chat`, whose first request is the
   * `start`-th, and the head rejoined with the normalized answer. The old last sentence
   * and the target only go into the prompt.
   */
  method AdjustTail(chat: nat -> ChatRun, norm: string -> string, start: nat, head: seq<string>, tail: string)
    returns (result: ChatResult, calls: nat)
    ensures calls == chat(start).calls && result == Rejoin(head, chat(start).result, norm)
  {
    var run := chat(start);
    calls := run.calls;
    if run.result.Raised? {
      return run.result, calls;
    }
    var joined := Concat(head);
    result := Reply(joined + norm(run.result.text));
  }

  /**
   * The sentences `split_sentences` finds in the first-pass text: it normalizes the text
   * once more before splitting.
   */
  function SentencesOf(ad: string): seq<string> {
    Sentences.Sentences(Tidy(ad))
  }

  /** On a first-pass text, the normalization inside `split_sentences` changes nothing. */
  lemma SentencesOfNormalized(reply: string)
    ensures SentencesOf(Tidy(reply)) == Sentences.Sentences(Tidy(reply))
  {
    NormalizeWithoutLatinIdempotent(Some(reply));
  }
}

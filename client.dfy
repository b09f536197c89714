/**
 * The retry controller around the text-generation service (`_call_chat` / `_hf_chat`).
 *
 * The service is a script: `svc(k)` is the outcome of the k-th request ever made, so a
 * caller that has already used `start` requests continues at `svc(start)`. Sleeping is
 * recorded as the list of delays (in seconds) the controller asked for.
 */
module Client {
  import opened Wrappers
  import opened PyStr

  /** A `content` attribute or key: missing, present but `None`, or a string. */
  datatype Field = Absent | Null | Text(value: string)

  /** The `message` of a choice: missing, a dict, or an object with attributes. */
  datatype Message = NoMessage | DictMessage(content: Field) | ObjectMessage(content: Field)

  /** What one request to the service does. */
  datatype Outcome =
    | Completed(choices: seq<Message>)
    | TimedOut                          // ConnectTimeout or ReadTimeout
    | HttpFailure(status: Option<int>)  // HTTPError; `None` when the response has no status
    | OtherError                        // any other exception raised by the client

  /** Why a call ended by raising. */
  datatype Failure =
    | MissingToken      // no API token configured
    | ClientError(status: int)
    | Unavailable       // app.py: every attempt failed
    | Propagated        // an exception the controller does not catch

  datatype ChatResult = Reply(text: string) | Raised(failure: Failure)

  /** What happens once three attempts have failed. */
  datatype Exhaustion = ReturnEmpty | RaiseUnavailable

  /** The whole run of one controller call: its result, requests made, delays slept. */
  datatype ChatRun = ChatRun(result: ChatResult, calls: nat, sleeps: seq<nat>)

  const MaxAttempts: nat := 3

  function Pow2(k: nat): nat {
    if k == 0 then 1 else 2 * Pow2(k - 1)
  }

  /**
   * `_extract_message_text` / `_hf_text`: the `content` of the message, `""` when the
   * message or its content is missing, `None` when the content is `None`.
   */
  function ExtractMessageText(msg: Message): (r: Option<string>)
    ensures r.None? <==> (msg.DictMessage? || msg.ObjectMessage?) && msg.content.Null?
    ensures msg.NoMessage? || msg.content.Absent? ==> r == Some([])
    ensures (msg.DictMessage? || msg.ObjectMessage?) && msg.content.Text? ==> r == Some(msg.content.value)
  {
    match msg
    case NoMessage => Some([])
    case DictMessage(c) => ContentOf(c)
    case ObjectMessage(c) => ContentOf(c)
  }

  function ContentOf(c: Field): Option<string> {
    match c
    case Absent => Some([])
    case Null => None
    case Text(t) => Some(t)
  }

  /** The status the controller compares with 500 (`getattr(…, "status_code", 500)`). */
  function StatusOf(o: Outcome): int
    requires o.HttpFailure?
  {
    o.status.GetOr(500)
  }

  /** The outcome of attempt `k` of a call whose first request is `svc(start)`. */
  function At(svc: nat -> Outcome, start: nat, k: nat): Outcome {
    svc(start + k)
  }

  /** A timeout or a server-side status: the controller sleeps and tries again. */
  predicate Retryable(o: Outcome) {
    o.TimedOut? || (o.HttpFailure? && StatusOf(o) >= 500)
  }

  /**
   * The result of an attempt that is not retried: the stripped text of the first choice,
   * a re-raised client error, or an exception that escapes (no choices, `None` content,
   * any other error).
   */
  function Settle(o: Outcome): (r: ChatResult)
    requires !Retryable(o)
    ensures o.HttpFailure? ==> r == Raised(ClientError(StatusOf(o))) && StatusOf(o) < 500
    ensures r.Reply? <==> o.Completed? && o.choices != [] && ExtractMessageText(o.choices[0]).Some?
    ensures r.Reply? ==> r.text == Strip(ExtractMessageText(o.choices[0]).value)
    ensures o.OtherError? ==> r == Raised(Propagated)
  {
    match o
    case Completed(choices) =>
      if choices == [] then Raised(Propagated)
      else (match ExtractMessageText(choices[0])
        case None => Raised(Propagated)
        case Some(t) => Reply(Strip(t)))
    case HttpFailure(_) => Raised(ClientError(StatusOf(o)))
    case OtherError => Raised(Propagated)
  }

  function Exhausted(policy: Exhaustion): ChatResult {
    match policy
    case ReturnEmpty => Reply([])
    case RaiseUnavailable => Raised(Unavailable)
  }

  /**
   * The controller from attempt `attempt` on: what the loop does with the outcomes
   * `svc(start + attempt)`, `svc(start + attempt + 1)`, ….
   */
  function ChatFrom(svc: nat -> Outcome, start: nat, attempt: nat, policy: Exhaustion): ChatRun
    decreases MaxAttempts - attempt
  {
    if attempt >= MaxAttempts then ChatRun(Exhausted(policy), attempt, [])
    else
      var o := At(svc, start, attempt);
      if Retryable(o) then
        var rest := ChatFrom(svc, start, attempt + 1, policy);
        ChatRun(rest.result, rest.calls, [Pow2(attempt)] + rest.sleeps)
      else ChatRun(Settle(o), attempt + 1, [])
  }

  /** One call of the controller, as the loop of `_call_chat` / `_hf_chat` runs it. */
  method CallChat(svc: nat -> Outcome, start: nat, policy: Exhaustion) returns (result: ChatResult, calls: nat, sleeps: seq<nat>)
    ensures ChatRun(result, calls, sleeps) == ChatFrom(svc, start, 0, policy)
  {
    sleeps := [];
    var attempt := 0;
    while attempt < MaxAttempts
      invariant 0 <= attempt <= MaxAttempts
      invariant ChatFrom(svc, start, 0, policy).result == ChatFrom(svc, start, attempt, policy).result
      invariant ChatFrom(svc, start, 0, policy).calls == ChatFrom(svc, start, attempt, policy).calls
      invariant ChatFrom(svc, start, 0, policy).sleeps == sleeps + ChatFrom(svc, start, attempt, policy).sleeps
    {
      var o := At(svc, start, attempt);
      if !Retryable(o) {
        result := Settle(o);
        calls := attempt + 1;
        assert sleeps + [] == sleeps;
        return;
      }
      RetryDelays(svc, start, attempt, policy, sleeps);
      sleeps := sleeps + [Pow2(attempt)];
      attempt := attempt + 1;
    }
    result := Exhausted(policy);
    calls := MaxAttempts;
    assert sleeps + [] == sleeps;
  }

  /** After a retryable attempt the delays slept so far gain `2^attempt`. */
  lemma RetryDelays(svc: nat -> Outcome, start: nat, attempt: nat, policy: Exhaustion, sleeps: seq<nat>)
    requires attempt < MaxAttempts && Retryable(At(svc, start, attempt))
    ensures sleeps + ChatFrom(svc, start, attempt, policy).sleeps
      == (sleeps + [Pow2(attempt)]) + ChatFrom(svc, start, attempt + 1, policy).sleeps
  {
    var rest := ChatFrom(svc, start, attempt + 1, policy).sleeps;
    assert ChatFrom(svc, start, attempt, policy).sleeps == [Pow2(attempt)] + rest;
    assert sleeps + ([Pow2(attempt)] + rest) == (sleeps + [Pow2(attempt)]) + rest;
  }

  /**
   * The shape of every run started at attempt `attempt`: between one and three requests
   * in all, every request before the last was retryable, a delay of `2^k` seconds after
   * each retryable attempt `k`, and the last request decides the result unless all three
   * failed retryably.
   */
  lemma {:induction false} ChatFromShape(svc: nat -> Outcome, start: nat, attempt: nat, policy: Exhaustion)
    requires attempt < MaxAttempts
    ensures var run := ChatFrom(svc, start, attempt, policy);
      && attempt < run.calls <= MaxAttempts
      && (forall k | attempt <= k < run.calls - 1 :: Retryable(At(svc, start, k)))
      && (forall k | 0 <= k < |run.sleeps| :: run.sleeps[k] == Pow2(attempt + k))
    ensures var run := ChatFrom(svc, start, attempt, policy);
      |run.sleeps| == MaxAttempts - attempt ==>
        && run.calls == MaxAttempts && run.result == Exhausted(policy)
        && forall k | attempt <= k < MaxAttempts :: Retryable(At(svc, start, k))
    ensures var run := ChatFrom(svc, start, attempt, policy);
      |run.sleeps| != MaxAttempts - attempt ==>
        && |run.sleeps| == run.calls - 1 - attempt
        && !Retryable(At(svc, start, run.calls - 1)) && run.result == Settle(At(svc, start, run.calls - 1))
    decreases MaxAttempts - attempt
  {
    if Retryable(At(svc, start, attempt)) && attempt + 1 < MaxAttempts {
      ChatFromShape(svc, start, attempt + 1, policy);
      var rest := ChatFrom(svc, start, attempt + 1, policy);
      var run := ChatFrom(svc, start, attempt, policy);
      assert run.sleeps == [Pow2(attempt)] + rest.sleeps;
      forall k | 0 <= k < |run.sleeps|
        ensures run.sleeps[k] == Pow2(attempt + k)
      {
        if k > 0 {
          assert run.sleeps[k] == rest.sleeps[k - 1];
        }
      }
    }
  }

  /** A whole call: at most three requests, and every request but the last was retryable. */
  lemma ChatCallsBounded(svc: nat -> Outcome, start: nat, policy: Exhaustion)
    ensures var run := ChatFrom(svc, start, 0, policy);
      1 <= run.calls <= MaxAttempts && forall k | 0 <= k < run.calls - 1 :: Retryable(At(svc, start, k))
  {
    ChatFromShape(svc, start, 0, policy);
  }

  /** Each retry waits `2^attempt` seconds: the delays are 1, 2, 4 in that order, as far as they go. */
  lemma ChatBackoffDoubles(svc: nat -> Outcome, start: nat, policy: Exhaustion)
    ensures var run := ChatFrom(svc, start, 0, policy);
      |run.sleeps| <= MaxAttempts && forall k | 0 <= k < |run.sleeps| :: run.sleeps[k] == Pow2(k)
  {
    ChatFromShape(svc, start, 0, policy);
  }

  /**
   * A non-retryable first outcome ends the call at once without sleeping; in particular a
   * status below 500 is re-raised.
   */
  lemma ChatSettlesFirstFinalOutcome(svc: nat -> Outcome, start: nat, policy: Exhaustion)
    requires !Retryable(svc(start))
    ensures ChatFrom(svc, start, 0, policy) == ChatRun(Settle(svc(start)), 1, [])
    ensures svc(start).HttpFailure? ==>
      ChatFrom(svc, start, 0, policy).result == Raised(ClientError(StatusOf(svc(start))))
  {
  }

  /** A client error (status below 500) is never retried, at whatever attempt it comes. */
  lemma ChatClientErrorAborts(svc: nat -> Outcome, start: nat, policy: Exhaustion, k: nat)
    requires k < MaxAttempts && At(svc, start, k).HttpFailure? && StatusOf(At(svc, start, k)) < 500
    requires forall j | 0 <= j < k :: Retryable(At(svc, start, j))
    ensures var run := ChatFrom(svc, start, 0, policy);
      run.calls == k + 1 && run.result == Raised(ClientError(StatusOf(At(svc, start, k))))
      && |run.sleeps| == k
  {
    ChatFromShape(svc, start, 0, policy);
  }

  /**
   * Running out of attempts happens exactly when all three outcomes are retryable; the
   * controller then has slept 1 + 2 + 4 seconds and returns `""` or raises, per variant.
   */
  lemma ChatExhaustion(svc: nat -> Outcome, start: nat, policy: Exhaustion)
    ensures var run := ChatFrom(svc, start, 0, policy);
      (forall k | 0 <= k < MaxAttempts :: Retryable(At(svc, start, k)))
      <==> (run.sleeps == [1, 2, 4] && run.calls == MaxAttempts && run.result == Exhausted(policy))
  {
    ChatFromShape(svc, start, 0, policy);
    var run := ChatFrom(svc, start, 0, policy);
    if |run.sleeps| == MaxAttempts {
      assert run.sleeps[1] == Pow2(1) == 2;
      assert run.sleeps[2] == Pow2(2) == 4;
    }
  }

  /** A reply is always stripped of surrounding whitespace (the exhausted `""` included). */
  lemma ChatReplyIsStripped(svc: nat -> Outcome, start: nat, policy: Exhaustion)
    ensures var r := ChatFrom(svc, start, 0, policy).result;
      r.Reply? ==> r.text == [] || (!IsSpace(r.text[0]) && !IsSpace(r.text[|r.text| - 1]))
  {
    ChatFromShape(svc, start, 0, policy);
  }

  /**
   * Two timeouts and then a reply: the third request answers, after sleeps of 1 and 2
   * seconds.
   */
  lemma ChatRecoversAfterTwoTimeouts(svc: nat -> Outcome, start: nat, policy: Exhaustion)
    requires svc(start) == TimedOut && svc(start + 1) == HttpFailure(None)
    requires svc(start + 2) == Completed([ObjectMessage(Text("ok"))])
    ensures ChatFrom(svc, start, 0, policy) == ChatRun(Reply("ok"), 3, [1, 2])
  {
    SettleTrimmedReply("ok");
    var third := ChatFrom(svc, start, 2, policy);
    assert At(svc, start, 2) == Completed([ObjectMessage(Text("ok"))]);
    assert third == ChatRun(Reply("ok"), 3, []);
    assert At(svc, start, 1) == HttpFailure(None);
    assert ChatFrom(svc, start, 1, policy) == ChatRun(Reply("ok"), 3, [2] + third.sleeps);
    assert At(svc, start, 0) == TimedOut;
  }


  /** A reply with nothing to strip comes back as sent. */
  lemma SettleTrimmedReply(t: string)
    requires t == [] || (!IsSpace(t[0]) && !IsSpace(t[|t| - 1]))
    ensures Settle(Completed([ObjectMessage(Text(t))])) == Reply(t)
  {
    var o := Completed([ObjectMessage(Text(t))]);
    assert ExtractMessageText(o.choices[0]) == Some(t);
    StripTrimmed(t);
  }

  /**
   * `_call_chat` / `_hf_chat` seen from a caller: `Controller(svc, policy)(k)` is the whole
   * call whose first request is the k-th answer of `svc`.
   */
  function Controller(svc: nat -> Outcome, policy: Exhaustion): nat -> ChatRun {
    (k: nat) => ChatFrom(svc, k, 0, policy)
  }

  /** Every call of the controller `chat` makes one to three requests. */
  ghost predicate Bounded(chat: nat -> ChatRun) {
    forall k: nat :: 1 <= chat(k).calls <= MaxAttempts
  }

  lemma ControllerBounded(svc: nat -> Outcome, policy: Exhaustion)
    ensures Bounded(Controller(svc, policy))
  {
    forall k: nat
      ensures 1 <= Controller(svc, policy)(k).calls <= MaxAttempts
    {
      ChatCallsBounded(svc, k, policy);
    }
  }
}

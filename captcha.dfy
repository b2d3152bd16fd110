/** The submit-then-poll protocol against the CAPTCHA solving service
    (`solveCaptcha`). The service's replies are inputs: the reply to the one
    submit request, and the replies to the successive poll requests. A request
    that gets no reply (the fetch is rejected; or the listed replies have run
    out) is `None`. The ten-second wait before each poll is a step, so the number
    of polls is also the number of waits. */
module Captcha {
  import opened Wrappers
  import opened JsString

  /** The poll budget: 30 polls. */
  const MaxAttempts: nat := 30
  /** The service's "not ready yet" reply (spelled as the service spells it). */
  const NotReady: string := "CAPCHA_NOT_READY"
  const OkMarker: string := "OK|"

  datatype Outcome =
    | Solved(token: string)
    | MissingApiKey
    | SubmitRejected(reply: string)
    | PollRejected(reply: string)
    | TimedOut
    | NetworkError

  /** The message of the error the resolver throws, for the outcomes it words itself. */
  function ErrorMessage(o: Outcome): (m: Option<string>)
    ensures m.None? <==> o.Solved? || o.NetworkError?
  {
    match o
    case MissingApiKey => Some("TWO_CAPTCHA_API_KEY environment variable is not set")
    case SubmitRejected(reply) => Some("Failed to submit CAPTCHA: " + reply)
    case PollRejected(reply) => Some("CAPTCHA solving error: " + reply)
    case TimedOut => Some("CAPTCHA solving timeout")
    case _ => None
  }

  /** What one run of the resolver did: its outcome, the job id the submit
      returned (if it got that far) and how many poll requests it sent. */
  datatype Run = Run(outcome: Outcome, jobId: Option<string>, polls: nat)

  /** The reply to poll number `j` (0-based). */
  function ReplyAt(replies: seq<Option<string>>, j: nat): Option<string> {
    if j < |replies| then replies[j] else None
  }

  /** An `OK|` marker anywhere in a reply guarantees a second `|` field. */
  lemma IncludesOkHasField(text: string)
    requires Includes(text, OkMarker)
    ensures |Split(text, '|')| >= 2
  {
    var i := IndexOf(text, OkMarker);
    assert text[i + 2] == OkMarker[2];
    assert text[i + 2] in text;
  }

  /** `text.split('|')[1]`. */
  function SecondField(text: string): (r: string)
    requires '|' in text
    ensures '|' !in r
  {
    Field(text, '|', 1)
  }

  datatype Step = Continue | Stop(outcome: Outcome)

  /** How the resolver reads one poll reply: the not-ready sentinel continues;
      any reply containing `OK|` is solved with its second `|` field; any other
      reply is an error carrying the reply; no reply at all is a network error. */
  function Classify(reply: Option<string>): (r: Step)
    ensures r == Continue <==> reply == Some(NotReady)
    ensures reply.None? <==> r == Stop(NetworkError)
  {
    match reply
    case None => Stop(NetworkError)
    case Some(text) =>
      NotReadyHasNoMarker();
      if Includes(text, OkMarker) then
        IncludesOkHasField(text);
        Stop(Solved(SecondField(text)))
      else if text != NotReady then Stop(PollRejected(text))
      else Continue
  }

  /** The not-ready sentinel holds no `OK|`. */
  lemma NotReadyHasNoMarker()
    ensures !Includes(NotReady, OkMarker)
  {
    forall j | 0 <= j <= |NotReady| ensures !OccursAt(NotReady, OkMarker, j) {
      if j + 3 <= |NotReady| {
        assert NotReady[j + 2] != OkMarker[2];
      }
    }
  }

  /** What a decisive poll reply decides: solved exactly when it contains `OK|`,
      with its second `|` field as the token; otherwise an error carrying the
      reply; never a time-out or one of the resolver's own start-up errors. */
  lemma ClassifyOutcome(reply: Option<string>)
    ensures var r := Classify(reply);
      && (r.Stop? ==> !r.outcome.TimedOut? && !r.outcome.MissingApiKey? && !r.outcome.SubmitRejected?)
      && ((r.Stop? && r.outcome.Solved?) <==> (reply.Some? && Includes(reply.value, OkMarker)))
      && (r.Stop? && r.outcome.Solved? ==> '|' in reply.value && r.outcome.token == SecondField(reply.value))
      && ((r.Stop? && r.outcome.PollRejected?) <==>
            (reply.Some? && !Includes(reply.value, OkMarker) && reply.value != NotReady))
      && (r.Stop? && r.outcome.PollRejected? ==> r.outcome.reply == reply.value)
  {
    match reply
    case None =>
    case Some(text) =>
      if Includes(text, OkMarker) {
        IncludesOkHasField(text);
        assert Classify(reply) == Stop(Solved(SecondField(text)));
      } else if text != NotReady {
        assert Classify(reply) == Stop(PollRejected(text));
      } else {
        assert Classify(reply) == Continue;
      }
  }

  /** The outcome of polling from attempt `k` on, with the number of polls sent
      in all: polls continue while the replies are not-ready, the first other
      reply decides, and 30 not-ready replies time out. */
  function PollFrom(replies: seq<Option<string>>, k: nat): (r: (Outcome, nat))
    requires k <= MaxAttempts
    ensures k <= r.1 <= MaxAttempts
    decreases MaxAttempts - k
  {
    if k == MaxAttempts then (TimedOut, k)
    else
      match Classify(ReplyAt(replies, k))
      case Stop(o) => (o, k + 1)
      case Continue => PollFrom(replies, k + 1)
  }

  /** Polling from attempt `k` times out exactly when every remaining reply is
      not-ready, and then after all 30 polls; otherwise the last poll sent is
      the first reply that is not not-ready, and it decides the outcome. */
  lemma {:induction false} PollFromSpec(replies: seq<Option<string>>, k: nat)
    requires k <= MaxAttempts
    ensures var r := PollFrom(replies, k);
      && (r.0.TimedOut? <==> forall j :: k <= j < MaxAttempts ==> ReplyAt(replies, j) == Some(NotReady))
      && (r.0.TimedOut? ==> r.1 == MaxAttempts)
      && (!r.0.TimedOut? ==>
            k < r.1 && Classify(ReplyAt(replies, r.1 - 1)) == Stop(r.0)
            && forall j :: k <= j < r.1 - 1 ==> ReplyAt(replies, j) == Some(NotReady))
    decreases MaxAttempts - k
  {
    if k < MaxAttempts {
      if Classify(ReplyAt(replies, k)) == Continue {
        PollFromSpec(replies, k + 1);
        PollContinues(replies, k);
      } else {
        PollStops(replies, k);
      }
    }
  }

  /** A not-ready reply passes on to the next poll. */
  lemma PollContinues(replies: seq<Option<string>>, k: nat)
    requires k < MaxAttempts && Classify(ReplyAt(replies, k)) == Continue
    ensures ReplyAt(replies, k) == Some(NotReady) && PollFrom(replies, k) == PollFrom(replies, k + 1)
  {
  }

  /** Any other reply ends the polling with its own outcome, never a time-out. */
  lemma PollStops(replies: seq<Option<string>>, k: nat)
    requires k < MaxAttempts && Classify(ReplyAt(replies, k)).Stop?
    ensures var o := Classify(ReplyAt(replies, k)).outcome;
      PollFrom(replies, k) == (o, k + 1) && ReplyAt(replies, k) != Some(NotReady) && !o.TimedOut?
  {
    ClassifyOutcome(ReplyAt(replies, k));
  }

  /** An API key that JavaScript reads as falsy: unset or empty. */
  predicate KeyMissing(apiKey: Option<string>) {
    apiKey.None? || apiKey.value == ""
  }

  /** The whole resolver: the key check, one submit, then the polls. */
  function Solve(apiKey: Option<string>, submit: Option<string>, replies: seq<Option<string>>): (r: Run)
    ensures r.polls <= MaxAttempts
    ensures KeyMissing(apiKey) ==> r == Run(MissingApiKey, None, 0)
    ensures !KeyMissing(apiKey) && submit.None? ==> r == Run(NetworkError, None, 0)
    ensures !KeyMissing(apiKey) && submit.Some? && !StartsWith(submit.value, OkMarker) ==>
      r == Run(SubmitRejected(submit.value), None, 0)
    ensures r.polls > 0 <==> (!KeyMissing(apiKey) && submit.Some? && StartsWith(submit.value, OkMarker))
    ensures r.polls > 0 ==> '|' in submit.value && r.jobId == Some(SecondField(submit.value))
    ensures r.outcome.TimedOut? <==>
      r.polls > 0 && forall j :: 0 <= j < MaxAttempts ==> ReplyAt(replies, j) == Some(NotReady)
    ensures r.polls > 0 ==> (r.outcome, r.polls) == PollFrom(replies, 0)
  {
    if KeyMissing(apiKey) then Run(MissingApiKey, None, 0)
    else if submit.None? then Run(NetworkError, None, 0)
    else if !StartsWith(submit.value, OkMarker) then Run(SubmitRejected(submit.value), None, 0)
    else
      assert submit.value[2] == '|' && submit.value[2] in submit.value;
      PollFromSpec(replies, 0);
      var (o, n) := PollFrom(replies, 0);
      Run(o, Some(SecondField(submit.value)), n)
  }

  /** When the first `k` polls are not-ready and poll `k` is decisive, that poll
      decides the run and no further poll is sent. */
  lemma {:induction false} FirstDecisiveReplyDecides(replies: seq<Option<string>>, i: nat, k: nat)
    requires i <= k < MaxAttempts
    requires forall j :: i <= j < k ==> ReplyAt(replies, j) == Some(NotReady)
    requires ReplyAt(replies, k) != Some(NotReady)
    ensures PollFrom(replies, i) == (Classify(ReplyAt(replies, k)).outcome, k + 1)
    decreases k - i
  {
    if i < k {
      assert ReplyAt(replies, i) == Some(NotReady);
      assert Classify(ReplyAt(replies, i)) == Continue;
      assert PollFrom(replies, i) == PollFrom(replies, i + 1);
      FirstDecisiveReplyDecides(replies, i + 1, k);
    } else {
      assert Classify(ReplyAt(replies, k)).Stop?;
    }
  }

  /** A service that never leaves not-ready makes the resolver time out after
      exactly 30 polls. */
  lemma NeverReadyTimesOut(apiKey: Option<string>, submit: string, replies: seq<Option<string>>)
    requires !KeyMissing(apiKey) && StartsWith(submit, OkMarker)
    requires forall j :: 0 <= j < MaxAttempts ==> ReplyAt(replies, j) == Some(NotReady)
    ensures Solve(apiKey, Some(submit), replies).outcome == TimedOut
    ensures Solve(apiKey, Some(submit), replies).polls == MaxAttempts
  {
    PollFromSpec(replies, 0);
  }

  /** `solveCaptcha` with its `attempts` counter. */
  method SolveCaptcha(apiKey: Option<string>, submit: Option<string>, replies: seq<Option<string>>)
    returns (run: Run)
    ensures run == Solve(apiKey, submit, replies)
  {
    if apiKey.None? || apiKey.value == "" {
      return Run(MissingApiKey, None, 0);
    }
    if submit.None? {
      return Run(NetworkError, None, 0);
    }
    var result := submit.value;
    if !StartsWith(result, OkMarker) {
      return Run(SubmitRejected(result), None, 0);
    }
    assert result[2] == '|' && result[2] in result;
    var captchaId := SecondField(result);
    var attempts := 0;
    while attempts < MaxAttempts
      invariant 0 <= attempts <= MaxAttempts
      invariant PollFrom(replies, attempts) == PollFrom(replies, 0)
    {
      if attempts >= |replies| || replies[attempts].None? {
        return Run(NetworkError, Some(captchaId), attempts + 1);
      }
      var text := replies[attempts].value;
      if Includes(text, OkMarker) {
        IncludesOkHasField(text);
        return Run(Solved(SecondField(text)), Some(captchaId), attempts + 1);
      } else if text != NotReady {
        return Run(PollRejected(text), Some(captchaId), attempts + 1);
      }
      attempts := attempts + 1;
    }
    return Run(TimedOut, Some(captchaId), attempts);
  }
}

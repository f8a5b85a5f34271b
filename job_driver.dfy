/**
  `run_apify_actor`: start one run of the transcript actor, poll the run's
  status every two seconds until it succeeds, fails or 120 seconds have
  passed, then read the first item of the run's dataset.

  The three HTTP exchanges are inputs: the reply to the start request, the
  reply to each status poll in the order the polls are made, and the reply
  to the dataset request. The wall clock is the time elapsed since the
  start, read once before each poll. `sys.exit` after a printed error is a
  returned `Outcome`; a `KeyError` the script does not catch is the outcome
  `MissingField`.
 */
module JobDriver {
  import opened Wrappers
  import opened Text
  import Transcript

  const ApiBase := "https://api.apify.com/v2"
  const ActorId := "karamelo~youtube-transcripts"

  /** `max_wait`, in seconds. */
  const MaxWait: real := 120.0

  /** The `time.sleep` between two polls, in seconds. */
  const PollInterval: real := 2.0

  /** The most polls a run can see: `MaxWait / PollInterval`. */
  const MaxPolls: nat := 60

  /** The `timeout=` arguments of the three requests, in seconds. */
  const StartTimeout: nat := 30
  const StatusTimeout: nat := 10
  const FetchTimeout: nat := 30

  /** The statuses on which the script gives up on the run. */
  const FailureStatuses: set<string> := {"FAILED", "ABORTED", "TIMED-OUT"}

  /** `run_url`. */
  function RunsUrl(): string {
    ApiBase + "/acts/" + ActorId + "/runs"
  }

  /** `status_url` for a run. */
  function StatusUrl(runId: string): string {
    ApiBase + "/actor-runs/" + runId
  }

  /** `dataset_url` for a dataset. */
  function DatasetUrl(datasetId: string): string {
    ApiBase + "/datasets/" + datasetId + "/items"
  }

  /** `input_data`: one video URL, caption output, and the language when one is given. */
  datatype RunInput = RunInput(urls: seq<string>, outputFormat: string, preferredLanguage: Option<string>)

  /** An HTTP request the script sends; `token` is the `token` query parameter. */
  datatype Request =
    | Post(url: string, token: string, input: RunInput, timeout: nat)
    | Get(url: string, token: string, timeout: nat)

  /**
    What a request gives back: no response at all (the request raised), or
    a status code and the body, `None` when the body is not JSON.
   */
  datatype Reply<T> = NoResponse | Response(code: int, body: Option<T>)

  /** The `data` object of a run, as the start and status replies carry it. */
  datatype RunData = RunData(id: Option<string>, status: Option<string>, defaultDatasetId: Option<string>)

  /** The JSON body of a start or status reply: its `data` key, possibly absent. */
  datatype RunBody = RunBody(data: Option<RunData>)

  /** Which request a transport error came from. */
  datatype Stage = Starting | Checking | Fetching

  /** How a call of `run_apify_actor` ends. */
  datatype Outcome =
    | AuthError
    | QuotaError
    | TransportError(stage: Stage)
    | MissingField(field: string)
    | RemoteFailure(tag: string)
    | LocalTimeout
    | EmptyResult
    | Ok(item: Transcript.Record)

  /** What one status reply tells the loop. */
  datatype Check = Finished(datasetId: Option<string>) | Halted(outcome: Outcome) | Pending

  /** How the polling ends and how many polls it made. */
  datatype Waited = Waited(check: Check, polls: nat)

  /** The outcome together with every request sent, in order. */
  datatype Run = Run(outcome: Outcome, sent: seq<Request>)

  /**
    `elapsed(k)` is `time.time() - start_time` at the `k`-th loop test: it
    starts at zero or more, and between two tests at least one two-second
    sleep per poll goes by.
   */
  ghost predicate ClockAdvances(elapsed: nat -> real) {
    0.0 <= elapsed(0)
    && forall j: nat, k: nat | j < k :: elapsed(j) + PollInterval * (k - j) as real <= elapsed(k)
  }

  /** `if language:` — the key is sent only for a language that is present and not empty. */
  function Input(videoUrl: string, language: Option<string>): (r: RunInput)
    ensures r.urls == [videoUrl] && r.outputFormat == "captions"
    ensures r.preferredLanguage.Some? <==> language.Some? && language.value != ""
    ensures r.preferredLanguage.Some? ==> r.preferredLanguage == language
  {
    RunInput([videoUrl], "captions", if language.Some? && language.value != "" then language else None)
  }

  /** `raise_for_status()` raises for client and server errors. */
  predicate IsHttpError(code: int) {
    400 <= code < 600
  }

  /** The request went through, `raise_for_status()` passed and `response.json()` parsed. */
  predicate Delivered<T>(r: Reply<T>) {
    r.Response? && !IsHttpError(r.code) && r.body.Some?
  }

  /** The start step: the run ID, or why the script stops. */
  function Started(reply: Reply<RunBody>): Result<string, Outcome> {
    if reply.Response? && reply.code == 401 then Failure(AuthError)
    else if reply.Response? && reply.code == 402 then Failure(QuotaError)
    else if !Delivered(reply) then Failure(TransportError(Starting))
    else if reply.body.value.data.None? then Failure(MissingField("data"))
    else if reply.body.value.data.value.id.None? then Failure(MissingField("id"))
    else Success(reply.body.value.data.value.id.value)
  }

  /** One pass of the loop body on a status reply. */
  function Classify(reply: Reply<RunBody>): Check {
    if !Delivered(reply) then Halted(TransportError(Checking))
    else if reply.body.value.data.None? then Halted(MissingField("data"))
    else
      var data := reply.body.value.data.value;
      if data.status.None? then Halted(MissingField("status"))
      else if data.status.value == "SUCCEEDED" then Finished(data.defaultDatasetId)
      else if data.status.value in FailureStatuses then Halted(RemoteFailure(AsciiLower(data.status.value)))
      else Pending
  }

  /** The loop from its `k`-th test on: poll while the budget lasts, until a reply settles the run. */
  function PollFrom(poll: nat -> Reply<RunBody>, elapsed: nat -> real, k: nat): (w: Waited)
    requires ClockAdvances(elapsed) && k <= MaxPolls
    ensures k <= w.polls <= MaxPolls
    ensures !w.check.Pending?
    decreases MaxPolls - k
  {
    if elapsed(k) >= MaxWait then Waited(Halted(LocalTimeout), k)
    else
      var c := Classify(poll(k));
      if c.Pending? then PollFrom(poll, elapsed, k + 1) else Waited(c, k + 1)
  }

  /** The fetch step on the dataset reply. */
  function Fetched(reply: Reply<seq<Transcript.Record>>): Outcome {
    if !Delivered(reply) then TransportError(Fetching)
    else if reply.body.value == [] then EmptyResult
    else Ok(reply.body.value[0])
  }

  /** `n` status requests for a run. */
  function StatusChecks(runId: string, token: string, n: nat): seq<Request> {
    seq(n, _ => Get(StatusUrl(runId), token, StatusTimeout))
  }

  /** The start request. */
  function StartRequest(videoUrl: string, token: string, language: Option<string>): Request {
    Post(RunsUrl(), token, Input(videoUrl, language), StartTimeout)
  }

  /** The whole of `run_apify_actor`: start, poll, fetch. */
  function ActorRun(videoUrl: string, token: string, language: Option<string>,
                    submit: Reply<RunBody>, poll: nat -> Reply<RunBody>, elapsed: nat -> real,
                    fetch: Reply<seq<Transcript.Record>>): Run
    requires ClockAdvances(elapsed)
  {
    var start := [StartRequest(videoUrl, token, language)];
    match Started(submit)
    case Failure(o) => Run(o, start)
    case Success(runId) =>
      var w := PollFrom(poll, elapsed, 0);
      var sent := start + StatusChecks(runId, token, w.polls);
      match w.check
      case Halted(o) => Run(o, sent)
      case Finished(d) =>
        if d.None? then Run(MissingField("defaultDatasetId"), sent)
        else Run(Fetched(fetch), sent + [Get(DatasetUrl(d.value), token, FetchTimeout)])
  }

  /**
    `run_apify_actor` step by step: the start request and its checks, the
    `while` loop with its `break` and its `else`, then the dataset request.
   */
  method RunApifyActor(videoUrl: string, token: string, language: Option<string>,
                       submit: Reply<RunBody>, poll: nat -> Reply<RunBody>, elapsed: nat -> real,
                       fetch: Reply<seq<Transcript.Record>>)
    returns (outcome: Outcome, sent: seq<Request>)
    requires ClockAdvances(elapsed)
    ensures Run(outcome, sent) == ActorRun(videoUrl, token, language, submit, poll, elapsed, fetch)
  {
    var start := StartRequest(videoUrl, token, language);
    sent := [start];
    if submit.Response? && submit.code == 401 {
      return AuthError, sent;
    }
    if submit.Response? && submit.code == 402 {
      return QuotaError, sent;
    }
    if submit.NoResponse? || IsHttpError(submit.code) || submit.body.None? {
      return TransportError(Starting), sent;
    }
    var runData := submit.body.value.data;
    if runData.None? {
      return MissingField("data"), sent;
    }
    if runData.value.id.None? {
      return MissingField("id"), sent;
    }
    var runId := runData.value.id.value;
    var statusUrl := StatusUrl(runId);
    var k := 0;
    var succeeded := false;
    var statusData := runData.value;
    while elapsed(k) < MaxWait
      invariant k <= MaxPolls && !succeeded
      invariant sent == [start] + StatusChecks(runId, token, k)
      invariant PollFrom(poll, elapsed, k) == PollFrom(poll, elapsed, 0)
      decreases MaxPolls - k
    {
      var reply := poll(k);
      sent := sent + [Get(statusUrl, token, StatusTimeout)];
      k := k + 1;
      if reply.NoResponse? || IsHttpError(reply.code) || reply.body.None? {
        return TransportError(Checking), sent;
      }
      if reply.body.value.data.None? {
        return MissingField("data"), sent;
      }
      statusData := reply.body.value.data.value;
      if statusData.status.None? {
        return MissingField("status"), sent;
      }
      var status := statusData.status.value;
      if status == "SUCCEEDED" {
        succeeded := true;
        break;
      } else if status in FailureStatuses {
        return RemoteFailure(AsciiLower(status)), sent;
      }
    }
    if !succeeded {
      return LocalTimeout, sent;
    }
    if statusData.defaultDatasetId.None? {
      return MissingField("defaultDatasetId"), sent;
    }
    sent := sent + [Get(DatasetUrl(statusData.defaultDatasetId.value), token, FetchTimeout)];
    if fetch.NoResponse? || IsHttpError(fetch.code) || fetch.body.None? {
      return TransportError(Fetching), sent;
    }
    var results := fetch.body.value;
    if results == [] {
      return EmptyResult, sent;
    }
    return Ok(results[0]), sent;
  }

  /** A status reply that got through and reports `status`. */
  predicate Reports(reply: Reply<RunBody>, status: string) {
    Delivered(reply) && reply.body.value.data.Some? && reply.body.value.data.value.status == Some(status)
  }

  /** The first two of the script's three refusals happen before any poll. */
  lemma StartRefused(videoUrl: string, token: string, language: Option<string>,
                     submit: Reply<RunBody>, poll: nat -> Reply<RunBody>, elapsed: nat -> real,
                     fetch: Reply<seq<Transcript.Record>>)
    requires ClockAdvances(elapsed)
    requires submit.Response? && (submit.code == 401 || submit.code == 402)
    ensures ActorRun(videoUrl, token, language, submit, poll, elapsed, fetch)
      == Run(if submit.code == 401 then AuthError else QuotaError, [StartRequest(videoUrl, token, language)])
  {
  }

  /** Every poll is made before the budget runs out, and a local timeout comes only once it has. */
  lemma {:induction false} PollsWithinBudget(poll: nat -> Reply<RunBody>, elapsed: nat -> real, k: nat)
    requires ClockAdvances(elapsed) && k <= MaxPolls
    ensures var w := PollFrom(poll, elapsed, k);
      (forall j | k <= j < w.polls :: elapsed(j) < MaxWait)
      && (w.check == Halted(LocalTimeout) ==> elapsed(w.polls) >= MaxWait)
    decreases MaxPolls - k
  {
    if elapsed(k) < MaxWait && Classify(poll(k)).Pending? {
      PollsWithinBudget(poll, elapsed, k + 1);
    }
  }

  /** Before a local timeout, every status reply left the run pending. */
  lemma {:induction false} TimeoutAfterPending(poll: nat -> Reply<RunBody>, elapsed: nat -> real, k: nat)
    requires ClockAdvances(elapsed) && k <= MaxPolls
    requires PollFrom(poll, elapsed, k).check == Halted(LocalTimeout)
    ensures forall j | k <= j < PollFrom(poll, elapsed, k).polls :: Classify(poll(j)).Pending?
    decreases MaxPolls - k
  {
    if elapsed(k) < MaxWait {
      var c := Classify(poll(k));
      if c.Pending? {
        TimeoutAfterPending(poll, elapsed, k + 1);
      } else {
        assert false;
      }
    }
  }

  /** Otherwise the last status reply settled the run and all before it left it pending. */
  lemma {:induction false} LastReplySettles(poll: nat -> Reply<RunBody>, elapsed: nat -> real, k: nat)
    requires ClockAdvances(elapsed) && k <= MaxPolls
    requires PollFrom(poll, elapsed, k).check != Halted(LocalTimeout)
    ensures var w := PollFrom(poll, elapsed, k);
      k < w.polls && Classify(poll(w.polls - 1)) == w.check
      && forall j | k <= j < w.polls - 1 :: Classify(poll(j)).Pending?
    decreases MaxPolls - k
  {
    if Classify(poll(k)).Pending? {
      LastReplySettles(poll, elapsed, k + 1);
    }
  }

  /** The two cases together: how the status replies led to the end of the polling. */
  lemma PollReplies(poll: nat -> Reply<RunBody>, elapsed: nat -> real, k: nat)
    requires ClockAdvances(elapsed) && k <= MaxPolls
    ensures var w := PollFrom(poll, elapsed, k);
      (w.check == Halted(LocalTimeout) ==> forall j | k <= j < w.polls :: Classify(poll(j)).Pending?)
      && (w.check != Halted(LocalTimeout) ==>
            k < w.polls && Classify(poll(w.polls - 1)) == w.check
            && forall j | k <= j < w.polls - 1 :: Classify(poll(j)).Pending?)
  {
    if PollFrom(poll, elapsed, k).check == Halted(LocalTimeout) {
      TimeoutAfterPending(poll, elapsed, k);
    } else {
      LastReplySettles(poll, elapsed, k);
    }
  }

  /** A remote failure is tagged with one of the three failure statuses, lower-cased. */
  lemma FailureTags(reply: Reply<RunBody>)
    requires Classify(reply).Halted? && Classify(reply).outcome.RemoteFailure?
    ensures Classify(reply).outcome.tag in {"failed", "aborted", "timed-out"}
    ensures Reports(reply, "FAILED") <==> Classify(reply).outcome.tag == "failed"
    ensures Reports(reply, "ABORTED") <==> Classify(reply).outcome.tag == "aborted"
    ensures Reports(reply, "TIMED-OUT") <==> Classify(reply).outcome.tag == "timed-out"
  {
    var status := reply.body.value.data.value.status.value;
    assert AsciiLower("FAILED") == "failed";
    assert AsciiLower("ABORTED") == "aborted";
    assert AsciiLower("TIMED-OUT") == "timed-out";
  }

  /** Polling ends with a local timeout, or with what the last status reply says. */
  lemma HaltedOutcomes(poll: nat -> Reply<RunBody>, elapsed: nat -> real)
    requires ClockAdvances(elapsed)
    ensures var check := PollFrom(poll, elapsed, 0).check;
      check.Halted? ==>
        match check.outcome
        case LocalTimeout => true
        case TransportError(stage) => stage == Checking
        case MissingField(field) => field == "data" || field == "status"
        case RemoteFailure(tag) => tag in {"failed", "aborted", "timed-out"}
        case _ => false
  {
    var w := PollFrom(poll, elapsed, 0);
    PollReplies(poll, elapsed, 0);
    if w.check.Halted? && w.check != Halted(LocalTimeout) {
      var reply := poll(w.polls - 1);
      assert Classify(reply) == w.check;
      if w.check.outcome.RemoteFailure? {
        FailureTags(reply);
      }
    }
  }

  /** A remote failure is tagged with one of the three failure statuses, lower-cased. */
  lemma RemoteFailureTagged(videoUrl: string, token: string, language: Option<string>,
                            submit: Reply<RunBody>, poll: nat -> Reply<RunBody>, elapsed: nat -> real,
                            fetch: Reply<seq<Transcript.Record>>)
    requires ClockAdvances(elapsed)
    requires ActorRun(videoUrl, token, language, submit, poll, elapsed, fetch).outcome.RemoteFailure?
    ensures ActorRun(videoUrl, token, language, submit, poll, elapsed, fetch).outcome.tag in {"failed", "aborted", "timed-out"}
  {
    HaltedOutcomes(poll, elapsed);
  }

  /**
    A successful call returns exactly the first item of the dataset named by
    the reply that reported SUCCEEDED, and the dataset request is the last one sent.
   */
  lemma OkIsFirstItem(videoUrl: string, token: string, language: Option<string>,
                      submit: Reply<RunBody>, poll: nat -> Reply<RunBody>, elapsed: nat -> real,
                      fetch: Reply<seq<Transcript.Record>>)
    requires ClockAdvances(elapsed)
    requires ActorRun(videoUrl, token, language, submit, poll, elapsed, fetch).outcome.Ok?
    ensures var run := ActorRun(videoUrl, token, language, submit, poll, elapsed, fetch);
      var w := PollFrom(poll, elapsed, 0);
      Delivered(fetch) && fetch.body.value != [] && run.outcome.item == fetch.body.value[0]
      && 0 < w.polls && Reports(poll(w.polls - 1), "SUCCEEDED")
      && var d := poll(w.polls - 1).body.value.data.value.defaultDatasetId;
         d.Some? && run.sent[|run.sent| - 1] == Get(DatasetUrl(d.value), token, FetchTimeout)
  {
    HaltedOutcomes(poll, elapsed);
    PollReplies(poll, elapsed, 0);
  }

  /** An invalid token or an exhausted quota ends the call before any poll. */
  lemma NoPollAfterRefusal(videoUrl: string, token: string, language: Option<string>,
                           submit: Reply<RunBody>, poll: nat -> Reply<RunBody>, elapsed: nat -> real,
                           fetch: Reply<seq<Transcript.Record>>)
    requires ClockAdvances(elapsed)
    ensures var run := ActorRun(videoUrl, token, language, submit, poll, elapsed, fetch);
      (run.outcome == AuthError || run.outcome == QuotaError)
      <==> submit.Response? && (submit.code == 401 || submit.code == 402)
    ensures var run := ActorRun(videoUrl, token, language, submit, poll, elapsed, fetch);
      (run.outcome == AuthError || run.outcome == QuotaError) ==> run.sent == [StartRequest(videoUrl, token, language)]
  {
    HaltedOutcomes(poll, elapsed);
  }

  /**
    Any other failed start request, a transport error or a status outside
    401 and 402 that is 400 or more or has no body, ends the call with the start
    error; polling begins only after a delivered reply that names the run.
   */
  lemma StartTransportError(videoUrl: string, token: string, language: Option<string>,
                            submit: Reply<RunBody>, poll: nat -> Reply<RunBody>, elapsed: nat -> real,
                            fetch: Reply<seq<Transcript.Record>>)
    requires ClockAdvances(elapsed)
    ensures ActorRun(videoUrl, token, language, submit, poll, elapsed, fetch).outcome == TransportError(Starting)
      <==> !(submit.Response? && (submit.code == 401 || submit.code == 402)) && !Delivered(submit)
    ensures |ActorRun(videoUrl, token, language, submit, poll, elapsed, fetch).sent| > 1
      ==> Started(submit).Success? && Delivered(submit) && submit.body.value.data.Some?
          && submit.body.value.data.value.id == Some(Started(submit).value)
  {
    HaltedOutcomes(poll, elapsed);
  }

  /**
    The dataset request fails exactly when the run started, polling saw
    SUCCEEDED with a dataset id, and the dataset reply was not delivered.
   */
  lemma FetchTransportError(videoUrl: string, token: string, language: Option<string>,
                            submit: Reply<RunBody>, poll: nat -> Reply<RunBody>, elapsed: nat -> real,
                            fetch: Reply<seq<Transcript.Record>>)
    requires ClockAdvances(elapsed)
    ensures ActorRun(videoUrl, token, language, submit, poll, elapsed, fetch).outcome == TransportError(Fetching)
      <==> Started(submit).Success? && PollFrom(poll, elapsed, 0).check.Finished?
           && PollFrom(poll, elapsed, 0).check.datasetId.Some? && !Delivered(fetch)
  {
    HaltedOutcomes(poll, elapsed);
  }

  /**
    A delivered start reply without `data` or without `data.id` ends the
    call at once: `id` can go missing only there.
   */
  lemma StartMissingField(videoUrl: string, token: string, language: Option<string>,
                          submit: Reply<RunBody>, poll: nat -> Reply<RunBody>, elapsed: nat -> real,
                          fetch: Reply<seq<Transcript.Record>>)
    requires ClockAdvances(elapsed)
    ensures ActorRun(videoUrl, token, language, submit, poll, elapsed, fetch).outcome == MissingField("id")
      <==> Delivered(submit) && submit.body.value.data.Some? && submit.body.value.data.value.id.None?
    ensures Delivered(submit) && submit.body.value.data.None?
      ==> ActorRun(videoUrl, token, language, submit, poll, elapsed, fetch)
          == Run(MissingField("data"), [StartRequest(videoUrl, token, language)])
  {
    HaltedOutcomes(poll, elapsed);
  }

  /** A SUCCEEDED reply without `defaultDatasetId` ends the call before any dataset request. */
  lemma DatasetIdMissing(videoUrl: string, token: string, language: Option<string>,
                         submit: Reply<RunBody>, poll: nat -> Reply<RunBody>, elapsed: nat -> real,
                         fetch: Reply<seq<Transcript.Record>>)
    requires ClockAdvances(elapsed)
    ensures ActorRun(videoUrl, token, language, submit, poll, elapsed, fetch).outcome == MissingField("defaultDatasetId")
      <==> Started(submit).Success? && PollFrom(poll, elapsed, 0).check.Finished?
           && PollFrom(poll, elapsed, 0).check.datasetId.None?
  {
    HaltedOutcomes(poll, elapsed);
  }

  /**
    At most 60 polls: the run sends the start request, then only GET
    requests carrying the token, at most 62 requests in all.
   */
  lemma PollBound(videoUrl: string, token: string, language: Option<string>,
                  submit: Reply<RunBody>, poll: nat -> Reply<RunBody>, elapsed: nat -> real,
                  fetch: Reply<seq<Transcript.Record>>)
    requires ClockAdvances(elapsed)
    ensures var sent := ActorRun(videoUrl, token, language, submit, poll, elapsed, fetch).sent;
      |sent| <= MaxPolls + 2 && sent[0] == StartRequest(videoUrl, token, language)
      && forall i | 1 <= i < |sent| :: sent[i].Get? && sent[i].token == token
  {
  }

  /** The script ends with `EmptyResult` exactly when the run succeeded and its dataset came back empty. */
  lemma EmptyDataset(videoUrl: string, token: string, language: Option<string>,
                     submit: Reply<RunBody>, poll: nat -> Reply<RunBody>, elapsed: nat -> real,
                     fetch: Reply<seq<Transcript.Record>>)
    requires ClockAdvances(elapsed)
    ensures ActorRun(videoUrl, token, language, submit, poll, elapsed, fetch).outcome == EmptyResult
      <==> Started(submit).Success? && PollFrom(poll, elapsed, 0).check.Finished?
           && PollFrom(poll, elapsed, 0).check.datasetId.Some? && Delivered(fetch) && fetch.body.value == []
  {
    HaltedOutcomes(poll, elapsed);
  }

  /**
    A run that stays pending times out locally: the script stops polling
    once the budget is spent and never asks for the dataset.
   */
  lemma StaysRunning(videoUrl: string, token: string, language: Option<string>,
                     submit: Reply<RunBody>, poll: nat -> Reply<RunBody>, elapsed: nat -> real,
                     fetch: Reply<seq<Transcript.Record>>)
    requires ClockAdvances(elapsed)
    requires Started(submit).Success?
    requires forall j: nat :: Classify(poll(j)).Pending?
    ensures var run := ActorRun(videoUrl, token, language, submit, poll, elapsed, fetch);
      run.outcome == LocalTimeout
      && |run.sent| <= MaxPolls + 1
      && forall i | 1 <= i < |run.sent| :: run.sent[i] == Get(StatusUrl(Started(submit).value), token, StatusTimeout)
  {
    PollReplies(poll, elapsed, 0);
  }

  /** A `RUNNING` reply keeps the loop polling. */
  lemma RunningIsPending(reply: Reply<RunBody>)
    requires Reports(reply, "RUNNING")
    ensures Classify(reply) == Pending
  {
    assert "RUNNING" != "SUCCEEDED";
  }

  /**
    Polls reporting RUNNING, RUNNING, SUCCEEDED within the budget, then a
    non-empty dataset: the first item, after exactly five requests.
   */
  lemma RunningThenSucceeded(videoUrl: string, token: string, language: Option<string>,
                             submit: Reply<RunBody>, poll: nat -> Reply<RunBody>, elapsed: nat -> real,
                             fetch: Reply<seq<Transcript.Record>>, datasetId: string)
    requires ClockAdvances(elapsed) && elapsed(2) < MaxWait
    requires Started(submit).Success?
    requires Reports(poll(0), "RUNNING") && Reports(poll(1), "RUNNING") && Reports(poll(2), "SUCCEEDED")
    requires poll(2).body.value.data.value.defaultDatasetId == Some(datasetId)
    requires Delivered(fetch) && fetch.body.value != []
    ensures var check := Get(StatusUrl(Started(submit).value), token, StatusTimeout);
      ActorRun(videoUrl, token, language, submit, poll, elapsed, fetch)
      == Run(Ok(fetch.body.value[0]),
             [StartRequest(videoUrl, token, language), check, check, check,
              Get(DatasetUrl(datasetId), token, FetchTimeout)])
  {
    RunningIsPending(poll(0));
    RunningIsPending(poll(1));
    assert PollFrom(poll, elapsed, 2) == Waited(Finished(Some(datasetId)), 3);
    assert PollFrom(poll, elapsed, 0) == PollFrom(poll, elapsed, 1) == PollFrom(poll, elapsed, 2);
  }

  /** A first poll reporting FAILED ends the script at once with the tag `failed`. */
  lemma FailedAtOnce(videoUrl: string, token: string, language: Option<string>,
                     submit: Reply<RunBody>, poll: nat -> Reply<RunBody>, elapsed: nat -> real,
                     fetch: Reply<seq<Transcript.Record>>)
    requires ClockAdvances(elapsed) && elapsed(0) < MaxWait
    requires Started(submit).Success?
    requires Reports(poll(0), "FAILED")
    ensures ActorRun(videoUrl, token, language, submit, poll, elapsed, fetch)
      == Run(RemoteFailure("failed"), [StartRequest(videoUrl, token, language),
                                       Get(StatusUrl(Started(submit).value), token, StatusTimeout)])
  {
    assert AsciiLower("FAILED") == "failed";
    assert PollFrom(poll, elapsed, 0) == Waited(Halted(RemoteFailure("failed")), 1);
  }

  // The loop read forward: from the replies to where polling stops.

  /** What one status reply does to the loop (lines 136-146), read from the reply. */
  lemma ClassifyReplies(reply: Reply<RunBody>)
    ensures !Delivered(reply) ==> Classify(reply) == Halted(TransportError(Checking))
    ensures Delivered(reply) && reply.body.value.data.None? ==> Classify(reply) == Halted(MissingField("data"))
    ensures Delivered(reply) && reply.body.value.data.Some? && reply.body.value.data.value.status.None?
      ==> Classify(reply) == Halted(MissingField("status"))
    ensures Reports(reply, "SUCCEEDED") ==> Classify(reply) == Finished(reply.body.value.data.value.defaultDatasetId)
    ensures Reports(reply, "FAILED") ==> Classify(reply) == Halted(RemoteFailure("failed"))
    ensures Reports(reply, "ABORTED") ==> Classify(reply) == Halted(RemoteFailure("aborted"))
    ensures Reports(reply, "TIMED-OUT") ==> Classify(reply) == Halted(RemoteFailure("timed-out"))
    ensures forall s | Reports(reply, s) && s != "SUCCEEDED" && s !in FailureStatuses :: Classify(reply) == Pending
  {
    assert AsciiLower("FAILED") == "failed";
    assert AsciiLower("ABORTED") == "aborted";
    assert AsciiLower("TIMED-OUT") == "timed-out";
  }

  /** The first `m` status replies left the run pending, and the `m`-th loop test is within the budget. */
  predicate PendingUntil(poll: nat -> Reply<RunBody>, elapsed: nat -> real, m: nat) {
    (forall j: nat | j < m :: Classify(poll(j)).Pending?) && elapsed(m) < MaxWait
  }

  /** A loop test within the budget comes before the sixtieth poll, and so do all earlier tests. */
  lemma WithinBudget(elapsed: nat -> real, m: nat)
    requires ClockAdvances(elapsed) && elapsed(m) < MaxWait
    ensures m < MaxPolls
    ensures forall j: nat | j <= m :: elapsed(j) < MaxWait
  {
    if m > 0 {
      assert elapsed(0) + PollInterval * (m - 0) as real <= elapsed(m);
    }
    forall j: nat | j < m ensures elapsed(j) < MaxWait {
      assert elapsed(j) + PollInterval * (m - j) as real <= elapsed(m);
    }
  }

  /** Pending replies within the budget carry the loop from its `k`-th test to its `m`-th. */
  lemma {:induction false} PendingPrefix(poll: nat -> Reply<RunBody>, elapsed: nat -> real, k: nat, m: nat)
    requires ClockAdvances(elapsed) && k <= m < MaxPolls && elapsed(m) < MaxWait
    requires forall j: nat | k <= j < m :: Classify(poll(j)).Pending?
    ensures PollFrom(poll, elapsed, k) == PollFrom(poll, elapsed, m)
    decreases m - k
  {
    if k < m {
      WithinBudget(elapsed, m);
      assert elapsed(k) < MaxWait && Classify(poll(k)).Pending?;
      PendingPrefix(poll, elapsed, k + 1, m);
    }
  }

  /**
    After `m` pending replies within the budget, the `m`-th reply decides:
    polling stops after `m + 1` requests with what that reply says, or it
    goes on from the next test.
   */
  lemma PollSettlesAt(poll: nat -> Reply<RunBody>, elapsed: nat -> real, m: nat)
    requires ClockAdvances(elapsed) && PendingUntil(poll, elapsed, m)
    ensures m < MaxPolls
    ensures PollFrom(poll, elapsed, 0)
      == if Classify(poll(m)).Pending? then PollFrom(poll, elapsed, m + 1) else Waited(Classify(poll(m)), m + 1)
  {
    WithinBudget(elapsed, m);
    PendingPrefix(poll, elapsed, 0, m);
  }

  /** A delivered status other than SUCCEEDED and the three failures keeps the loop polling (line 146). */
  lemma UnknownStatusKeepsPolling(poll: nat -> Reply<RunBody>, elapsed: nat -> real, m: nat, s: string)
    requires ClockAdvances(elapsed) && PendingUntil(poll, elapsed, m)
    requires Reports(poll(m), s) && s != "SUCCEEDED" && s !in FailureStatuses
    ensures m < MaxPolls
    ensures PollFrom(poll, elapsed, 0) == PollFrom(poll, elapsed, m + 1)
  {
    ClassifyReplies(poll(m));
    PollSettlesAt(poll, elapsed, m);
  }

  /**
    A failure status at any poll within the budget ends the run there,
    tagged with the lower-cased status, after `m + 1` status requests.
   */
  lemma FailureAtPoll(videoUrl: string, token: string, language: Option<string>,
                      submit: Reply<RunBody>, poll: nat -> Reply<RunBody>, elapsed: nat -> real,
                      fetch: Reply<seq<Transcript.Record>>, m: nat, s: string)
    requires ClockAdvances(elapsed) && Started(submit).Success? && PendingUntil(poll, elapsed, m)
    requires s in FailureStatuses && Reports(poll(m), s)
    ensures ActorRun(videoUrl, token, language, submit, poll, elapsed, fetch)
      == Run(RemoteFailure(if s == "FAILED" then "failed" else if s == "ABORTED" then "aborted" else "timed-out"),
             [StartRequest(videoUrl, token, language)] + StatusChecks(Started(submit).value, token, m + 1))
  {
    ClassifyReplies(poll(m));
    PollSettlesAt(poll, elapsed, m);
  }

  /** A status request that fails at any poll within the budget ends the run there (lines 148-150). */
  lemma CheckFailsAtPoll(videoUrl: string, token: string, language: Option<string>,
                         submit: Reply<RunBody>, poll: nat -> Reply<RunBody>, elapsed: nat -> real,
                         fetch: Reply<seq<Transcript.Record>>, m: nat)
    requires ClockAdvances(elapsed) && Started(submit).Success? && PendingUntil(poll, elapsed, m)
    requires !Delivered(poll(m))
    ensures ActorRun(videoUrl, token, language, submit, poll, elapsed, fetch)
      == Run(TransportError(Checking),
             [StartRequest(videoUrl, token, language)] + StatusChecks(Started(submit).value, token, m + 1))
  {
    ClassifyReplies(poll(m));
    PollSettlesAt(poll, elapsed, m);
  }

  /**
    SUCCEEDED at any poll within the budget leaves the loop there and
    fetches that run's dataset; the fetch reply decides the outcome.
   */
  lemma SucceededAtPoll(videoUrl: string, token: string, language: Option<string>,
                        submit: Reply<RunBody>, poll: nat -> Reply<RunBody>, elapsed: nat -> real,
                        fetch: Reply<seq<Transcript.Record>>, m: nat, datasetId: string)
    requires ClockAdvances(elapsed) && Started(submit).Success? && PendingUntil(poll, elapsed, m)
    requires Reports(poll(m), "SUCCEEDED") && poll(m).body.value.data.value.defaultDatasetId == Some(datasetId)
    ensures ActorRun(videoUrl, token, language, submit, poll, elapsed, fetch)
      == Run(Fetched(fetch),
             [StartRequest(videoUrl, token, language)] + StatusChecks(Started(submit).value, token, m + 1)
             + [Get(DatasetUrl(datasetId), token, FetchTimeout)])
  {
    ClassifyReplies(poll(m));
    PollSettlesAt(poll, elapsed, m);
  }
}

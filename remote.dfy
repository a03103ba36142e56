/** The task client of `JiemengAPIClient`: the body and signed request that
    `submit_task` and `get_result` send, the checks they apply to the answers,
    and the submit-then-poll loop of `generate_image`.

    The network is not modelled: every answer the service gives is an input
    (`Reply`), as are the clock readings the poll loop sees and the JSON
    serialiser that turns a body into text. */
module Remote {
  import opened Text
  import opened Bytes
  import opened Signing
  import Crop

  /** The two keys read from the environment at start-up; `None` when the
      variable is unset. The client never changes them. */
  datatype Client = Client(accessKey: Option<string>, secretKey: Option<string>)

  /** `self.access_key and self.secret_key`: both present and non-empty. */
  predicate Configured(c: Client)
  {
    c.accessKey.Some? && c.accessKey.value != "" && c.secretKey.Some? && c.secretKey.value != ""
  }

  /** The JSON values the client builds. */
  datatype Json = JStr(s: string) | JInt(i: int) | JBool(b: bool) | JObj(fields: seq<(string, Json)>)

  /** What a POST came back with. `Broken` stands for every way the call can
      raise inside the `try`: a transport error, or a body that is not JSON.
      A `Reply` carries the HTTP status and the fields of the JSON body the
      client reads, `None` where the field is absent. */
  datatype Reply =
    | Broken
    | Reply(httpStatus: int, code: Option<int>, taskId: Option<string>,
            status: Option<string>, imageUrls: seq<string>)

  /** A request as it goes on the wire. */
  datatype Request = Request(url: string, headers: SignedHeaders, body: string)

  const ReqKey: string := "jimeng_t2i_v40"
  const ApiVersion: string := "2022-08-31"
  const Success: int := 10000
  const DefaultSide: int := 2048
  /** Seconds slept between two polls. */
  const PollInterval: nat := 5

  const SubmitAction: string := "CVSync2AsyncSubmitTask"
  const ResultAction: string := "CVSync2AsyncGetResult"

  /** `{'Action': action, 'Version': '2022-08-31'}`, the query both calls
      sign. */
  function ActionQuery(action: string): (r: Params)
    ensures DistinctKeys(r)
  {
    [("Action", action), ("Version", ApiVersion)]
  }

  /** Whatever the action, the signed query string is `Action=<action>`
      followed by `&Version=2022-08-31`. */
  lemma ActionQueryCanonical(action: string)
    ensures CanonicalQuery(ActionQuery(action)) == "Action=" + action + "&Version=" + ApiVersion
  {
    var q := ActionQuery(action);
    var swapped := [("Version", ApiVersion), ("Action", action)];
    ActionBeforeVersion();
    CanonicalQueryOfTwo("Version", ApiVersion, "Action", action);
    assert multiset(q) == multiset(swapped) by {
      assert q == [swapped[1], swapped[0]];
    }
    CanonicalQueryOrderFree(q, swapped);
    ItemPairShape(action);
  }

  lemma ActionBeforeVersion()
    ensures LexLess("Action", "Version")
  {
    assert "Action"[0] < "Version"[0];
  }

  lemma ItemPairShape(action: string)
    ensures "Action" + "=" + action + "&" + ("Version" + "=" + ApiVersion)
         == "Action=" + action + "&Version=" + ApiVersion
  {
  }

  // ---------------------------------------------------------------------
  // Dimension normalisation in submit_task

  /** `width / height < 1/3`, compared exactly; the sign of `height` decides
      which way the inequality turns once it is multiplied out. */
  predicate BelowThird(w: int, h: int)
    requires h != 0
  {
    if h > 0 then 3 * w < h else 3 * w > h
  }

  /** `width / height > 3`, compared exactly. */
  predicate AboveThree(w: int, h: int)
    requires h != 0
  {
    if h > 0 then w > 3 * h else w < 3 * h
  }

  /** `width / height < 1/3` and `width / height > 3` in exact arithmetic
      are the tests `BelowThird` and `AboveThree` make without dividing. */
  lemma RatioTests(w: int, h: int)
    requires h != 0
    ensures BelowThird(w, h) <==> (w as real) / (h as real) < 1.0 / 3.0
    ensures AboveThree(w, h) <==> (w as real) / (h as real) > 3.0
  {
    if h > 0 {
      DivCompare(w as real, h as real, 1.0 / 3.0);
      DivCompare(w as real, h as real, 3.0);
    } else {
      DivNegate(w as real, h as real);
      DivCompare(0.0 - w as real, 0.0 - h as real, 1.0 / 3.0);
      DivCompare(0.0 - w as real, 0.0 - h as real, 3.0);
    }
  }

  /** Dividing by a positive number keeps comparisons with a constant. */
  lemma DivCompare(x: real, k: real, c: real)
    requires k > 0.0
    ensures x / k < c <==> x < c * k
    ensures x / k > c <==> x > c * k
  {
    assert (x / k) * k == x;
  }

  lemma DivNegate(x: real, k: real)
    requires k != 0.0
    ensures x / k == (0.0 - x) / (0.0 - k)
  {
  }

  /** The width and height sent when both were given: a ratio below 1/3
      sets the height to three times the width, one above 3 sets the width
      to three times the height. A zero height raises `ZeroDivisionError`
      and nothing is sent (`None`). */
  function ClampAspect(w: int, h: int): (r: Option<(int, int)>)
    ensures r.None? <==> h == 0
  {
    if h == 0 then None
    else if BelowThird(w, h) then Some((w, 3 * w))
    else if AboveThree(w, h) then Some((3 * h, h))
    else Some((w, h))
  }

  /** The size `submit_task` sends: the clamped pair when both dimensions
      are given, 2048 x 2048 otherwise. */
  function RequestedSize(width: Option<int>, height: Option<int>): (r: Option<(int, int)>)
    ensures r.None? <==> width.Some? && height.Some? && height.value == 0
    ensures (width.None? || height.None?) ==> r == Some((DefaultSide, DefaultSide))
  {
    if width.Some? && height.Some? then ClampAspect(width.value, height.value)
    else Some((DefaultSide, DefaultSide))
  }

  /** For positive dimensions the ratio sent lies in [1/3, 3], both sides
      stay positive, only the larger side may shrink and the smaller one is
      kept. */
  lemma ClampAspectInRange(w: int, h: int)
    requires w > 0 && h > 0
    ensures var r := ClampAspect(w, h);
      && r.Some?
      && var (w', h') := r.value;
      && 0 < w' && 0 < h'
      && h' <= 3 * w' && w' <= 3 * h'
      && w' <= w && h' <= h
      && (w' == w || h' == h)
      && (w' < w ==> w > h && h' == h)
      && (h' < h ==> h > w && w' == w)
    ensures w > 3 * h ==> ClampAspect(w, h) == Some((3 * h, h))
    ensures h > 3 * w ==> ClampAspect(w, h) == Some((w, 3 * w))
  {
  }

  /** Positive dimensions whose ratio is already in [1/3, 3] are sent as
      given, and only those. */
  lemma ClampAspectKeepsInRange(w: int, h: int)
    requires w > 0 && h > 0
    ensures ClampAspect(w, h) == Some((w, h)) <==> h <= 3 * w && w <= 3 * h
  {
  }

  /** Clamping a clamped pair changes nothing. */
  lemma ClampAspectIdempotent(w: int, h: int)
    requires w > 0 && h > 0
    ensures var r := ClampAspect(w, h);
      r.Some? && ClampAspect(r.value.0, r.value.1) == r
  {
    ClampAspectInRange(w, h);
    var r := ClampAspect(w, h);
    ClampAspectKeepsInRange(r.value.0, r.value.1);
  }

  /** The area bounds computed by `submit_task` never reach the request:
      10000 x 10000, above 4096 x 4096 pixels, is sent as it is. */
  lemma AreaNotClamped()
    ensures RequestedSize(Some(10000), Some(10000)) == Some((10000, 10000))
    ensures 10000 * 10000 > 4096 * 4096
  {
  }

  /** 100 x 1 has ratio 100: the width is cut to 3, the height stays 1. */
  lemma WideRequestShrinksWidth()
    ensures RequestedSize(Some(100), Some(1)) == Some((3, 1))
  {
  }

  // ---------------------------------------------------------------------
  // Request bodies

  function SubmitBody(prompt: string, w: int, h: int): Json
  {
    JObj([("req_key", JStr(ReqKey)), ("prompt", JStr(prompt)), ("force_single", JBool(true)),
          ("width", JInt(w)), ("height", JInt(h))])
  }

  function ResultBody(dumps: Json -> string, taskId: string): Json
  {
    var reqJson := JObj([("return_url", JBool(true)), ("logo_info", JObj([("add_logo", JBool(false))]))]);
    JObj([("req_key", JStr(ReqKey)), ("task_id", JStr(taskId)), ("req_json", JStr(dumps(reqJson)))])
  }

  /** `_sign_request(query, body)` with both keys present, together with the
      body it signed: the URL carries the canonical query and the payload
      hash header is the hash of exactly this body. */
  function SignedPost(c: Client, cr: Crypto, t: UtcInstant, query: Params, body: string): (r: Request)
    requires Configured(c) && DistinctKeys(query)
    ensures r.body == body
    ensures r.url == Endpoint + "?" + CanonicalQuery(query)
    ensures r.headers.xContentSha256 == Sha256Hex(cr, body)
    ensures r.headers.contentType == ContentType
  {
    var signed := SignRequest(cr, c.accessKey, c.secretKey, t, query, body).value;
    Request(signed.url, signed.headers, body)
  }

  /** The request `submit_task` sends at instant `t`, or `None` when it
      sends none: the keys are missing or empty, or the height is zero. */
  function SubmitRequest(c: Client, cr: Crypto, dumps: Json -> string, t: UtcInstant,
                         prompt: string, width: Option<int>, height: Option<int>): (r: Option<Request>)
    ensures r.None? <==> !Configured(c) || (width.Some? && height.Some? && height.value == 0)
    ensures r.Some? ==>
      var (w, h) := RequestedSize(width, height).value;
      r.value.body == dumps(SubmitBody(prompt, w, h))
    ensures r.Some? ==> r.value.url == Endpoint + "?" + CanonicalQuery(ActionQuery(SubmitAction))
    ensures r.Some? ==> Configured(c) && r.value == SignedPost(c, cr, t, ActionQuery(SubmitAction), r.value.body)
  {
    if !Configured(c) then None
    else
      var size := RequestedSize(width, height);
      if size.None? then None
      else Some(SignedPost(c, cr, t, ActionQuery(SubmitAction), dumps(SubmitBody(prompt, size.value.0, size.value.1))))
  }

  /** The request `get_result` sends for `taskId`, `None` without keys. */
  function ResultRequest(c: Client, cr: Crypto, dumps: Json -> string, t: UtcInstant,
                         taskId: string): (r: Option<Request>)
    ensures r.None? <==> !Configured(c)
    ensures r.Some? ==> r.value.body == dumps(ResultBody(dumps, taskId))
    ensures r.Some? ==> r.value.url == Endpoint + "?" + CanonicalQuery(ActionQuery(ResultAction))
    ensures r.Some? ==> Configured(c) && r.value == SignedPost(c, cr, t, ActionQuery(ResultAction), r.value.body)
  {
    if !Configured(c) then None
    else Some(SignedPost(c, cr, t, ActionQuery(ResultAction), dumps(ResultBody(dumps, taskId))))
  }

  // ---------------------------------------------------------------------
  // Reading the answers

  /** The task id `submit_task` returns for an answer: only HTTP 200 with
      application code 10000 is accepted, and then `data.task_id` is
      returned as it is, absent or not. */
  function AcceptedTaskId(reply: Reply): (r: Option<string>)
    ensures r.Some? <==> reply.Reply? && reply.httpStatus == 200 && reply.code == Some(Success)
                          && reply.taskId.Some?
    ensures r.Some? ==> r == reply.taskId
  {
    if reply.Reply? && reply.httpStatus == 200 && reply.code == Some(Success) then reply.taskId
    else None
  }

  /** The URL `get_result` returns for an answer: code 10000, status
      `done` and a non-empty URL list are all required, and then the first
      URL is returned. */
  function ResultUrl(reply: Reply): (r: Option<string>)
    ensures r.Some? <==>
      && reply.Reply? && reply.httpStatus == 200 && reply.code == Some(Success)
      && reply.status == Some("done") && |reply.imageUrls| > 0
    ensures r.Some? ==> r.value == reply.imageUrls[0]
  {
    if reply.Reply? && reply.httpStatus == 200 && reply.code == Some(Success)
       && reply.status == Some("done") && |reply.imageUrls| > 0
    then Some(reply.imageUrls[0])
    else None
  }

  /** The task id `submit_task` returns: `None` when it sends nothing,
      otherwise what the answer yields. */
  function SubmittedTaskId(c: Client, width: Option<int>, height: Option<int>, reply: Reply): (r: Option<string>)
    ensures r.Some? <==> Configured(c) && !(width.Some? && height.Some? && height.value == 0)
                         && AcceptedTaskId(reply).Some?
    ensures r.Some? ==> r == AcceptedTaskId(reply)
  {
    if !Configured(c) || (width.Some? && height.Some? && height.value == 0) then None
    else AcceptedTaskId(reply)
  }

  /** `submit_task(prompt, width, height)` given the answer it receives. */
  method SubmitTask(c: Client, cr: Crypto, dumps: Json -> string, t: UtcInstant,
                    prompt: string, width: Option<int>, height: Option<int>, reply: Reply)
    returns (taskId: Option<string>, sent: Option<Request>)
    ensures sent == SubmitRequest(c, cr, dumps, t, prompt, width, height)
    ensures taskId == SubmittedTaskId(c, width, height, reply)
  {
    taskId, sent := None, None;
    if !Configured(c) {
      return;
    }
    var w, h;
    if width.Some? && height.Some? {
      w, h := width.value, height.value;
      var area := w * h;
      if area < 1024 * 1024 {
        area := 1024 * 1024;
      } else if area > 4096 * 4096 {
        area := 4096 * 4096;
      }
      if h == 0 {
        // `width / height` raises; the handler returns None
        return;
      }
      if BelowThird(w, h) {
        h := w * 3;
      } else if AboveThree(w, h) {
        w := h * 3;
      }
    } else {
      w, h := DefaultSide, DefaultSide;
    }
    assert RequestedSize(width, height) == Some((w, h));
    sent := Some(SignedPost(c, cr, t, ActionQuery(SubmitAction), dumps(SubmitBody(prompt, w, h))));
    taskId := AcceptedTaskId(reply);
  }

  /** `get_result(task_id)` given the answer it receives; without keys it
      returns `None` before sending anything. */
  function GetResult(c: Client, reply: Reply): (r: Option<string>)
    ensures r.Some? <==> Configured(c) && ResultUrl(reply).Some?
    ensures r.Some? ==> r == ResultUrl(reply)
  {
    if !Configured(c) then None else ResultUrl(reply)
  }

  // ---------------------------------------------------------------------
  // The generate_image poll loop

  /** `if image_url:` / `if not task_id:` — present and non-empty. */
  predicate Truthy(s: Option<string>)
  {
    s.Some? && s.value != ""
  }

  /** How the polling ended: the URL found, the seconds elapsed when it was
      found and the number of polls made; or the deadline reached after
      `polls` polls. */
  datatype PollEnd =
    | Found(url: string, elapsed: nat, polls: nat)
    | Expired(polls: nat)

  /** The loop from poll number `k` on, `elapsed` seconds after the start.
      `replies(j)` is the answer to poll `j` and `latency(j)` the seconds
      that poll took. */
  function PollFrom(c: Client, replies: nat -> Reply, latency: nat -> nat,
                    k: nat, elapsed: nat, maxWait: int): (r: PollEnd)
    decreases maxWait - elapsed
  {
    if elapsed >= maxWait then Expired(k)
    else
      var url := GetResult(c, replies(k));
      var now := elapsed + latency(k);
      if Truthy(url) then Found(url.value, now, k + 1)
      else PollFrom(c, replies, latency, k + 1, now + PollInterval, maxWait)
  }

  /** The second, counted from `elapsed` at poll `k`, at which poll `j`
      starts: each earlier poll adds its latency and the five-second sleep. */
  function PollStart(latency: nat -> nat, k: nat, elapsed: nat, j: nat): nat
    requires k <= j
    decreases j - k
  {
    if j == k then elapsed else PollStart(latency, k, elapsed, j - 1) + latency(j - 1) + PollInterval
  }

  /** Starting the count one poll later, at the start of that poll, gives the
      same start times. */
  lemma {:induction false} PollStartShift(latency: nat -> nat, k: nat, elapsed: nat, j: nat)
    requires k < j
    ensures PollStart(latency, k, elapsed, j)
         == PollStart(latency, k + 1, elapsed + latency(k) + PollInterval, j)
    decreases j - k
  {
    if j > k + 1 {
      PollStartShift(latency, k, elapsed, j - 1);
    }
  }

  /** Polls start at least five seconds apart. */
  lemma {:induction false} PollStartSpacing(latency: nat -> nat, k: nat, elapsed: nat, j: nat)
    requires k <= j
    ensures PollStart(latency, k, elapsed, j) >= elapsed + PollInterval * (j - k)
    decreases j - k
  {
    if j > k {
      PollStartSpacing(latency, k, elapsed, j - 1);
    }
  }

  /** The dictionary `generate_image` returns. */
  datatype Outcome =
    | SubmitFailed
    | Succeeded(imageUrl: string, taskId: string, generationTime: nat, prompt: string, dimensions: string)
    | TimedOut(taskId: string, maxWait: int)

  /** `generate_image` as a whole, for the given answers and clock. */
  function Generate(c: Client, prompt: string, width: int, height: int, maxWait: int,
                    submitReply: Reply, replies: nat -> Reply, latency: nat -> nat): (Outcome, nat)
  {
    var taskId := SubmittedTaskId(c, Some(width), Some(height), submitReply);
    if !Truthy(taskId) then (SubmitFailed, 0)
    else
      match PollFrom(c, replies, latency, 0, 0, maxWait)
      case Found(url, elapsed, polls) =>
        (Succeeded(url, taskId.value, elapsed, prompt, Crop.SizeString(width, height)), polls)
      case Expired(polls) => (TimedOut(taskId.value, maxWait), polls)
  }

  /** The `while` loop of `generate_image`: polls while fewer than
      `max_wait` seconds have passed, sleeping five seconds after each poll
      that gave nothing usable. */
  method PollUntil(c: Client, replies: nat -> Reply, latency: nat -> nat, maxWait: int)
    returns (end: PollEnd)
    ensures end == PollFrom(c, replies, latency, 0, 0, maxWait)
  {
    var elapsed: nat := 0;
    var polls: nat := 0;
    while elapsed < maxWait
      invariant PollFrom(c, replies, latency, polls, elapsed, maxWait)
             == PollFrom(c, replies, latency, 0, 0, maxWait)
      decreases maxWait - elapsed
    {
      var url := GetResult(c, replies(polls));
      elapsed := elapsed + latency(polls);
      polls := polls + 1;
      if Truthy(url) {
        return Found(url.value, elapsed, polls);
      }
      elapsed := elapsed + PollInterval;
    }
    end := Expired(polls);
  }

  /** `generate_image(prompt, width, height, max_wait)`: submits, then polls.
      Also returns the number of polls made. */
  method GenerateImage(c: Client, cr: Crypto, dumps: Json -> string, t: UtcInstant,
                       prompt: string, width: int, height: int, maxWait: int,
                       submitReply: Reply, replies: nat -> Reply, latency: nat -> nat)
    returns (outcome: Outcome, polls: nat)
    ensures (outcome, polls) == Generate(c, prompt, width, height, maxWait,
                                         submitReply, replies, latency)
  {
    var taskId, _ := SubmitTask(c, cr, dumps, t, prompt, Some(width), Some(height), submitReply);
    if !Truthy(taskId) {
      return SubmitFailed, 0;
    }
    var end := PollUntil(c, replies, latency, maxWait);
    match end
    case Found(url, elapsed, n) =>
      outcome, polls := Succeeded(url, taskId.value, elapsed, prompt, Crop.SizeString(width, height)), n;
    case Expired(n) =>
      outcome, polls := TimedOut(taskId.value, maxWait), n;
  }

  /** A failed submission ends in the error result with no poll made. */
  lemma GenerateSubmitFailure(c: Client, prompt: string, width: int, height: int, maxWait: int,
                              submitReply: Reply, replies: nat -> Reply, latency: nat -> nat)
    requires !Configured(c) || height == 0 || !Truthy(AcceptedTaskId(submitReply))
    ensures Generate(c, prompt, width, height, maxWait, submitReply, replies, latency)
         == (SubmitFailed, 0)
  {
  }

  /** A found URL is the first usable one: every earlier poll gave nothing
      usable, the one that found it did, every poll made started before the
      deadline, and the time reported is the end of the last poll. */
  lemma {:induction false} PollFoundIsFirst(c: Client, replies: nat -> Reply, latency: nat -> nat,
                                            k: nat, elapsed: nat, maxWait: int)
    requires PollFrom(c, replies, latency, k, elapsed, maxWait).Found?
    decreases maxWait - elapsed
    ensures var r := PollFrom(c, replies, latency, k, elapsed, maxWait);
      && r.polls > k
      && Truthy(GetResult(c, replies(r.polls - 1)))
      && r.url == GetResult(c, replies(r.polls - 1)).value
      && (forall j :: k <= j < r.polls - 1 ==> !Truthy(GetResult(c, replies(j))))
      && (forall j :: k <= j < r.polls ==> PollStart(latency, k, elapsed, j) < maxWait)
      && r.elapsed == PollStart(latency, k, elapsed, r.polls - 1) + latency(r.polls - 1)
      && r.elapsed >= elapsed + PollInterval * (r.polls - 1 - k)
  {
    var r := PollFrom(c, replies, latency, k, elapsed, maxWait);
    var url := GetResult(c, replies(k));
    if !Truthy(url) {
      var next := elapsed + latency(k) + PollInterval;
      PollFoundIsFirst(c, replies, latency, k + 1, next, maxWait);
      forall j | k <= j < r.polls ensures PollStart(latency, k, elapsed, j) < maxWait {
        if j > k {
          PollStartShift(latency, k, elapsed, j);
        }
      }
      PollStartShift(latency, k, elapsed, r.polls - 1);
    }
    PollStartSpacing(latency, k, elapsed, r.polls - 1);
  }

  /** An expired loop saw nothing usable, each of its polls started before
      the deadline, and the next one would have started at or after it. */
  lemma {:induction false} PollExpiredSawNothing(c: Client, replies: nat -> Reply, latency: nat -> nat,
                                                 k: nat, elapsed: nat, maxWait: int)
    requires PollFrom(c, replies, latency, k, elapsed, maxWait).Expired?
    decreases maxWait - elapsed
    ensures var r := PollFrom(c, replies, latency, k, elapsed, maxWait);
      && r.polls >= k
      && (forall j :: k <= j < r.polls ==> !Truthy(GetResult(c, replies(j))))
      && (forall j :: k <= j < r.polls ==> PollStart(latency, k, elapsed, j) < maxWait)
      && PollStart(latency, k, elapsed, r.polls) >= maxWait
      && (r.polls > k ==> elapsed + PollInterval * (r.polls - 1 - k) < maxWait)
      && (elapsed >= maxWait <==> r.polls == k)
  {
    var r := PollFrom(c, replies, latency, k, elapsed, maxWait);
    if elapsed < maxWait {
      var next := elapsed + latency(k) + PollInterval;
      PollExpiredSawNothing(c, replies, latency, k + 1, next, maxWait);
      forall j | k <= j < r.polls ensures PollStart(latency, k, elapsed, j) < maxWait {
        if j > k {
          PollStartShift(latency, k, elapsed, j);
        }
      }
      PollStartShift(latency, k, elapsed, r.polls);
      PollStartSpacing(latency, k, elapsed, r.polls - 1);
    }
  }

  /** When nothing usable ever comes back the loop expires, and it does so
      whatever the latencies are. */
  lemma {:induction false} PollNothingExpires(c: Client, replies: nat -> Reply, latency: nat -> nat,
                                              k: nat, elapsed: nat, maxWait: int)
    requires forall j :: !Truthy(GetResult(c, replies(j)))
    ensures PollFrom(c, replies, latency, k, elapsed, maxWait).Expired?
    decreases maxWait - elapsed
  {
    if elapsed < maxWait {
      PollNothingExpires(c, replies, latency, k + 1, elapsed + latency(k) + PollInterval, maxWait);
    }
  }

  /** With instant answers and nothing usable, the loop polls once every
      five seconds: exactly `ceil((maxWait - elapsed) / 5)` polls. */
  lemma {:induction false} PollCountWithoutLatency(c: Client, replies: nat -> Reply, latency: nat -> nat,
                                                   k: nat, elapsed: nat, maxWait: int)
    requires forall j :: !Truthy(GetResult(c, replies(j)))
    requires forall j :: latency(j) == 0
    ensures PollFrom(c, replies, latency, k, elapsed, maxWait)
         == Expired(k + if elapsed >= maxWait then 0 else (maxWait - elapsed + PollInterval - 1) / PollInterval)
    decreases maxWait - elapsed
  {
    if elapsed < maxWait {
      PollCountWithoutLatency(c, replies, latency, k + 1, elapsed + PollInterval, maxWait);
    }
  }

  /** Once the task is accepted the call ends in success or timeout, both
      naming the task. A success carries the URL of the first usable poll,
      every earlier one having given nothing usable, and the caller's own
      dimensions, and reports the end of that poll as the generation time; a
      timeout follows polls that all gave nothing usable and stops once the
      next poll would start at or after `max_wait`. Every poll starts before
      `max_wait`. */
  lemma GenerateEnds(c: Client, prompt: string, width: int, height: int, maxWait: int,
                     submitReply: Reply, replies: nat -> Reply, latency: nat -> nat)
    requires Configured(c) && height != 0 && Truthy(AcceptedTaskId(submitReply))
    ensures var (o, n) := Generate(c, prompt, width, height, maxWait, submitReply, replies, latency);
      && (o.Succeeded? || o.TimedOut?)
      && o.taskId == AcceptedTaskId(submitReply).value
      && (o.Succeeded? ==>
            && n >= 1
            && GetResult(c, replies(n - 1)) == Some(o.imageUrl) && o.imageUrl != ""
            && (forall j :: 0 <= j < n - 1 ==> !Truthy(GetResult(c, replies(j))))
            && o.generationTime == PollStart(latency, 0, 0, n - 1) + latency(n - 1)
            && o.prompt == prompt && o.dimensions == Crop.SizeString(width, height))
      && (o.TimedOut? ==>
            && o.maxWait == maxWait && PollStart(latency, 0, 0, n) >= maxWait
            && forall j :: 0 <= j < n ==> !Truthy(GetResult(c, replies(j))))
      && (forall j :: 0 <= j < n ==> PollStart(latency, 0, 0, j) < maxWait)
  {
    if PollFrom(c, replies, latency, 0, 0, maxWait).Found? {
      PollFoundIsFirst(c, replies, latency, 0, 0, maxWait);
    } else {
      PollExpiredSawNothing(c, replies, latency, 0, 0, maxWait);
    }
  }

  /** A non-positive `max_wait` times out at once, without polling. */
  lemma GenerateNoWait(c: Client, prompt: string, width: int, height: int, maxWait: int,
                       submitReply: Reply, replies: nat -> Reply, latency: nat -> nat)
    requires maxWait <= 0
    requires Configured(c) && height != 0 && Truthy(AcceptedTaskId(submitReply))
    ensures Generate(c, prompt, width, height, maxWait, submitReply, replies, latency)
         == (TimedOut(AcceptedTaskId(submitReply).value, maxWait), 0)
  {
  }

  /** A success reports the caller's own width and height, not the clamped
      size that was sent: 100 x 1 is submitted as 3 x 1 and reported as
      `100x1`. */
  lemma SuccessReportsRequestedDimensions(c: Client, prompt: string, submitReply: Reply,
                                          replies: nat -> Reply, latency: nat -> nat)
    requires Configured(c) && Truthy(AcceptedTaskId(submitReply))
    requires Truthy(GetResult(c, replies(0))) && latency(0) == 0
    ensures var (o, n) := Generate(c, prompt, 100, 1, 60, submitReply, replies, latency);
      o.Succeeded? && o.dimensions == "100x1" && n == 1
  {
    WideRequestShrinksWidth();
    assert IntToString(100) == "100";
    assert IntToString(1) == "1";
  }

  /** Task `T1`: two pending answers, then `done` with a URL list. The loop
      reports the first URL after three polls, ten seconds in. */
  lemma PendingThenDone(c: Client, prompt: string, url: string, other: string)
    requires Configured(c) && url != ""
    ensures var submitted := Reply(200, Some(Success), Some("T1"), None, []);
      var pending := Reply(200, Some(Success), None, Some("pending"), []);
      var done := Reply(200, Some(Success), None, Some("done"), [url, other]);
      var replies := (j: nat) => if j < 2 then pending else done;
      Generate(c, prompt, 512, 512, 60, submitted, replies, (j: nat) => 0)
        == (Succeeded(url, "T1", 10, prompt, Crop.SizeString(512, 512)), 3)
  {
    var pending := Reply(200, Some(Success), None, Some("pending"), []);
    var done := Reply(200, Some(Success), None, Some("done"), [url, other]);
    var replies := (j: nat) => if j < 2 then pending else done;
    var zero := (j: nat) => 0;
    assert PollFrom(c, replies, zero, 2, 10, 60) == Found(url, 10, 3);
    assert PollFrom(c, replies, zero, 1, 5, 60) == Found(url, 10, 3);
  }

  /** With `max_wait` 10 and answers that are never ready, the loop polls at
      0 and 5 seconds and times out at 10. */
  lemma NeverReadyTimesOut(c: Client, prompt: string, submitReply: Reply)
    requires Configured(c) && Truthy(AcceptedTaskId(submitReply))
    ensures var pending := Reply(200, Some(Success), None, Some("pending"), []);
      Generate(c, prompt, 512, 512, 10, submitReply, (j: nat) => pending, (j: nat) => 0)
        == (TimedOut(AcceptedTaskId(submitReply).value, 10), 2)
  {
    var pending := Reply(200, Some(Success), None, Some("pending"), []);
    var replies := (j: nat) => pending;
    var zero := (j: nat) => 0;
    assert PollFrom(c, replies, zero, 1, 5, 10) == Expired(2);
  }
}

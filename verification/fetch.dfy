/** `fetchPage` and `logFetchError` (main.go): one logical GET with up to
    `RetryLimit` attempts, content-based failure classification and the
    process-wide counters. The network is replaced by the sequence of attempt
    outcomes it would produce; sleeping is replaced by the list of durations
    slept; the random generator by its raw draws. */
module Fetch {
  import opened Text

  const RetryLimit: nat := 4

  /** Durations are in nanoseconds, as Go's `time.Duration`. */
  const Second: nat := 1000000000
  const DelayBetweenRequests: nat := 8 * Second
  const DelayAfterError: nat := 20 * Second

  /** The origin's block page, served with status 200. */
  const BlockSignature: string := "error code: 1015"
  /** The origin's not-found page, served with status 200. */
  const NotFoundSignature: string := "page not found"

  /** `randTime(min, max)`: `rand.Int63n(max - min) + min`, where `draw` is the
      generator's raw output (`Int63n` panics unless `max > min`). */
  function RandTime(lo: int, hi: int, draw: nat): (d: int)
    requires lo < hi
    ensures lo <= d < hi
  {
    lo + draw % (hi - lo)
  }

  /** Every duration of the interval can be drawn. */
  lemma RandTimeCovers(lo: int, hi: int, d: int)
    requires lo <= d < hi
    ensures RandTime(lo, hi, d - lo) == d
  {
  }

  /** What one attempt of the loop meets: `http.Get` fails, `io.ReadAll`
      fails, or a body arrives that the HTML parser accepts (`Body`) or
      rejects (`ParseErr`). */
  datatype Attempt = TransportErr | ReadErr | Body(body: string) | ParseErr(body: string)

  /** Why an attempt is retried. */
  datatype Failure = Transport | Read | Blocked | NotFound | Unparsable

  datatype Verdict = Accept(body: string, dom: bool) | Reject(why: Failure)

  /** The checks a body goes through once it has been read. */
  function ClassifyBody(body: string, parses: bool, parseDom: bool): (v: Verdict)
  {
    if Contains(body, BlockSignature) then Reject(Blocked)
    else if Contains(body, NotFoundSignature) then Reject(NotFound)
    else if !parseDom then Accept(body, false)
    else if !parses then Reject(Unparsable)
    else Accept(body, true)
  }

  /** The checks of one loop iteration, in the order the loop makes them.
      `parseDom` is false only when the caller passes `getDom == false`. */
  function Classify(a: Attempt, parseDom: bool): (v: Verdict)
    ensures v.Accept? <==>
              && (a.Body? || a.ParseErr?)
              && !Contains(a.body, BlockSignature)
              && !Contains(a.body, NotFoundSignature)
              && (a.ParseErr? ==> !parseDom)
    ensures v.Accept? ==> v.body == a.body && v.dom == parseDom
    ensures v == Reject(Blocked) <==> (a.Body? || a.ParseErr?) && Contains(a.body, BlockSignature)
  {
    match a
    case TransportErr => Reject(Transport)
    case ReadErr => Reject(Read)
    case Body(body) => ClassifyBody(body, true, parseDom)
    case ParseErr(body) => ClassifyBody(body, false, parseDom)
  }

  /** One line of the error log: the failure and the URL being fetched. */
  datatype ErrorEntry = ErrorEntry(why: Failure, url: string)

  /** The process-wide `stats_*` counters that fetching touches. */
  datatype Counters = Counters(
    requests: nat,
    retries: nat,
    sleeps: nat,
    errors: nat,
    errorLog: seq<ErrorEntry>,
    rateLimitFailures: seq<string>,
    numRateLimitFailures: nat)

  const NoCounters: Counters := Counters(0, 0, 0, 0, [], [], 0)

  /** `logFetchError`: one more error, one more log line. */
  function LogFetchError(c: Counters, why: Failure, url: string): (r: Counters)
    ensures r.errors == c.errors + 1 && r.errorLog == c.errorLog + [ErrorEntry(why, url)]
    ensures r.(errors := c.errors, errorLog := c.errorLog) == c
  {
    c.(errors := c.errors + 1, errorLog := c.errorLog + [ErrorEntry(why, url)])
  }

  datatype Outcome = Page(body: string, dom: bool) | GaveUp

  /** The result of one `fetchPage` call: what it returns, how many network
      attempts it made, how long each of its sleeps lasted, and the counters
      after it. */
  datatype Fetched = Fetched(outcome: Outcome, tries: nat, slept: seq<int>, counters: Counters)

  /** The outcome of attempt `i`; a network that no longer answers fails. */
  function AttemptAt(attempts: seq<Attempt>, i: nat): Attempt
  {
    if i < |attempts| then attempts[i] else TransportErr
  }

  /** The log lines of `n` failed attempts starting at attempt `from`. */
  function FailureLog(url: string, parseDom: bool, attempts: seq<Attempt>, from: nat, n: nat): (log: seq<ErrorEntry>)
    requires forall j :: from <= j < from + n ==> Classify(AttemptAt(attempts, j), parseDom).Reject?
    ensures |log| == n
    decreases n
  {
    if n == 0 then []
    else [ErrorEntry(Classify(AttemptAt(attempts, from), parseDom).why, url)]
         + FailureLog(url, parseDom, attempts, from + 1, n - 1)
  }

  /** The counters after a failed attempt: the error is logged, and one
      retry and one sleep are counted. */
  function AfterFailure(c: Counters, why: Failure, url: string): (r: Counters)
    ensures r.errorLog == c.errorLog + [ErrorEntry(why, url)]
    ensures r.errors == c.errors + 1 && r.retries == c.retries + 1 && r.sleeps == c.sleeps + 1
    ensures r.requests == c.requests && r.rateLimitFailures == c.rateLimitFailures
    ensures r.numRateLimitFailures == c.numRateLimitFailures
  {
    LogFetchError(c, why, url).(retries := c.retries + 1, sleeps := c.sleeps + 1)
  }

  /** The retry loop from iteration `i` on. */
  function Retry(url: string, parseDom: bool, attempts: seq<Attempt>, delay: int, delayErr: int,
                 i: nat, c: Counters): (r: Fetched)
    requires i <= RetryLimit
    decreases RetryLimit - i
    ensures i <= r.tries <= RetryLimit
  {
    if i == RetryLimit then
      Fetched(GaveUp, i, [],
              c.(numRateLimitFailures := c.numRateLimitFailures + 1,
                 rateLimitFailures := c.rateLimitFailures + [url]))
    else
      match Classify(AttemptAt(attempts, i), parseDom)
      case Accept(body, dom) =>
        Fetched(Page(body, dom), i + 1, [delay], c.(sleeps := c.sleeps + 1))
      case Reject(why) =>
        var c' := AfterFailure(c, why, url);
        var r := Retry(url, parseDom, attempts, delay, delayErr, i + 1, c');
        r.(slept := [delayErr] + r.slept)
  }

  /** The loop from attempt `i` ended at the first accepted attempt, or gave up
      after `RetryLimit` attempts none of which was accepted. */
  predicate RetryOutcomeFacts(url: string, parseDom: bool, attempts: seq<Attempt>, i: nat, r: Fetched)
  {
    && (r.outcome.GaveUp? <==>
          forall j :: i <= j < RetryLimit ==> Classify(AttemptAt(attempts, j), parseDom).Reject?)
    && (r.outcome.GaveUp? ==> r.tries == RetryLimit)
    && (r.outcome.Page? ==>
          && i < r.tries
          && Classify(AttemptAt(attempts, r.tries - 1), parseDom) == Accept(r.outcome.body, r.outcome.dom))
    && i <= Failed(r)
    && (forall j :: i <= j < Failed(r) ==> Classify(AttemptAt(attempts, j), parseDom).Reject?)
  }

  /** The loop gives up exactly when no attempt from `i` on is accepted,
      and then it has made every attempt. */
  lemma {:induction false} RetryGaveUp(url: string, parseDom: bool, attempts: seq<Attempt>, delay: int,
                                       delayErr: int, i: nat, c: Counters)
    requires i <= RetryLimit
    ensures var r := Retry(url, parseDom, attempts, delay, delayErr, i, c);
            && (r.outcome.GaveUp? <==>
                  forall j :: i <= j < RetryLimit ==> Classify(AttemptAt(attempts, j), parseDom).Reject?)
            && (r.outcome.GaveUp? ==> r.tries == RetryLimit)
    decreases RetryLimit - i
  {
    if i < RetryLimit && Classify(AttemptAt(attempts, i), parseDom).Reject? {
      var why := Classify(AttemptAt(attempts, i), parseDom).why;
      var c' := AfterFailure(c, why, url);
      RetryGaveUp(url, parseDom, attempts, delay, delayErr, i + 1, c');
    }
  }

  /** A page is the body of the last attempt made, which was accepted. */
  lemma {:induction false} RetryPage(url: string, parseDom: bool, attempts: seq<Attempt>, delay: int,
                                     delayErr: int, i: nat, c: Counters)
    requires i <= RetryLimit
    ensures var r := Retry(url, parseDom, attempts, delay, delayErr, i, c);
            r.outcome.Page? ==>
              && i < r.tries
              && Classify(AttemptAt(attempts, r.tries - 1), parseDom) == Accept(r.outcome.body, r.outcome.dom)
    decreases RetryLimit - i
  {
    if i < RetryLimit && Classify(AttemptAt(attempts, i), parseDom).Reject? {
      var why := Classify(AttemptAt(attempts, i), parseDom).why;
      var c' := AfterFailure(c, why, url);
      RetryPage(url, parseDom, attempts, delay, delayErr, i + 1, c');
    }
  }

  /** Every attempt the loop counts as failed was rejected. */
  lemma {:induction false} RetryFailedPrefix(url: string, parseDom: bool, attempts: seq<Attempt>, delay: int,
                                             delayErr: int, i: nat, c: Counters)
    requires i <= RetryLimit
    ensures var r := Retry(url, parseDom, attempts, delay, delayErr, i, c);
            && i <= Failed(r)
            && (forall j :: i <= j < Failed(r) ==> Classify(AttemptAt(attempts, j), parseDom).Reject?)
    decreases RetryLimit - i
  {
    if i < RetryLimit && Classify(AttemptAt(attempts, i), parseDom).Reject? {
      var why := Classify(AttemptAt(attempts, i), parseDom).why;
      var c' := AfterFailure(c, why, url);
      RetryFailedPrefix(url, parseDom, attempts, delay, delayErr, i + 1, c');
      RetryPage(url, parseDom, attempts, delay, delayErr, i + 1, c');
    } else {
      RetryPage(url, parseDom, attempts, delay, delayErr, i, c);
    }
  }

  /** Which attempt ends the loop: the first accepted one, or none. */
  lemma RetryOutcome(url: string, parseDom: bool, attempts: seq<Attempt>, delay: int,
                     delayErr: int, i: nat, c: Counters)
    requires i <= RetryLimit
    ensures RetryOutcomeFacts(url, parseDom, attempts, i, Retry(url, parseDom, attempts, delay, delayErr, i, c))
  {
    RetryGaveUp(url, parseDom, attempts, delay, delayErr, i, c);
    RetryPage(url, parseDom, attempts, delay, delayErr, i, c);
    RetryFailedPrefix(url, parseDom, attempts, delay, delayErr, i, c);
  }

  /** What the loop sleeps: the error delay after each failed attempt, the
      rate-limit delay after the accepted one. */
  lemma {:induction false} RetrySleeps(url: string, parseDom: bool, attempts: seq<Attempt>, delay: int,
                                       delayErr: int, i: nat, c: Counters)
    requires i <= RetryLimit
    ensures var r := Retry(url, parseDom, attempts, delay, delayErr, i, c);
            r.slept == seq(Failed(r) - i, _ => delayErr) + (if r.outcome.Page? then [delay] else [])
    decreases RetryLimit - i
  {
    if i < RetryLimit && Classify(AttemptAt(attempts, i), parseDom).Reject? {
      var why := Classify(AttemptAt(attempts, i), parseDom).why;
      var c' := AfterFailure(c, why, url);
      var r' := Retry(url, parseDom, attempts, delay, delayErr, i + 1, c');
      assert Retry(url, parseDom, attempts, delay, delayErr, i, c) == r'.(slept := [delayErr] + r'.slept);
      RetrySleeps(url, parseDom, attempts, delay, delayErr, i + 1, c');
      RetryFailedPrefix(url, parseDom, attempts, delay, delayErr, i + 1, c');
      assert seq(Failed(r') - i, _ => delayErr) == [delayErr] + seq(Failed(r') - (i + 1), _ => delayErr);
    }
  }

  /** What the loop counts: one sleep per attempt, one retry and error per
      failed attempt, one rate-limit failure when it gives up. */
  lemma {:induction false} RetryCounters(url: string, parseDom: bool, attempts: seq<Attempt>, delay: int,
                                         delayErr: int, i: nat, c: Counters)
    requires i <= RetryLimit
    ensures var r := Retry(url, parseDom, attempts, delay, delayErr, i, c);
            && r.counters.requests == c.requests
            && r.counters.sleeps == c.sleeps + (r.tries - i)
            && r.counters.retries + i == c.retries + Failed(r)
            && r.counters.errors + i == c.errors + Failed(r)
            && r.counters.rateLimitFailures == c.rateLimitFailures + (if r.outcome.GaveUp? then [url] else [])
            && r.counters.numRateLimitFailures == c.numRateLimitFailures + (if r.outcome.GaveUp? then 1 else 0)
    decreases RetryLimit - i
  {
    if i < RetryLimit && Classify(AttemptAt(attempts, i), parseDom).Reject? {
      var why := Classify(AttemptAt(attempts, i), parseDom).why;
      var c' := AfterFailure(c, why, url);
      var r' := Retry(url, parseDom, attempts, delay, delayErr, i + 1, c');
      assert Retry(url, parseDom, attempts, delay, delayErr, i, c) == r'.(slept := [delayErr] + r'.slept);
      RetryCounters(url, parseDom, attempts, delay, delayErr, i + 1, c');
    }
  }

  /** What the loop logs: one line per failed attempt, naming its failure. */
  lemma {:induction false} RetryLog(url: string, parseDom: bool, attempts: seq<Attempt>, delay: int,
                                    delayErr: int, i: nat, c: Counters)
    requires i <= RetryLimit
    ensures var r := Retry(url, parseDom, attempts, delay, delayErr, i, c);
            && i <= Failed(r)
            && (forall j :: i <= j < Failed(r) ==> Classify(AttemptAt(attempts, j), parseDom).Reject?)
            && r.counters.errorLog == c.errorLog + FailureLog(url, parseDom, attempts, i, Failed(r) - i)
    decreases RetryLimit - i
  {
    if i < RetryLimit && Classify(AttemptAt(attempts, i), parseDom).Reject? {
      var why := Classify(AttemptAt(attempts, i), parseDom).why;
      var c' := AfterFailure(c, why, url);
      RetryLog(url, parseDom, attempts, delay, delayErr, i + 1, c');
      RetryLogStep(url, parseDom, attempts, delay, delayErr, i, c, c');
    } else {
      RetryLogLast(url, parseDom, attempts, delay, delayErr, i, c);
    }
  }

  /** An iteration that ends the loop logs nothing. */
  lemma RetryLogLast(url: string, parseDom: bool, attempts: seq<Attempt>, delay: int,
                     delayErr: int, i: nat, c: Counters)
    requires i <= RetryLimit
    requires !(i < RetryLimit && Classify(AttemptAt(attempts, i), parseDom).Reject?)
    ensures var r := Retry(url, parseDom, attempts, delay, delayErr, i, c);
            && Failed(r) == i
            && r.counters.errorLog == c.errorLog
  {
  }

  /** A failed iteration hands over to the next one, having slept once. */
  lemma RetryUnfold(url: string, parseDom: bool, attempts: seq<Attempt>, delay: int,
                    delayErr: int, i: nat, c: Counters)
    requires i < RetryLimit && Classify(AttemptAt(attempts, i), parseDom).Reject?
    ensures var r' := Retry(url, parseDom, attempts, delay, delayErr, i + 1,
                            AfterFailure(c, Classify(AttemptAt(attempts, i), parseDom).why, url));
            Retry(url, parseDom, attempts, delay, delayErr, i, c) == r'.(slept := [delayErr] + r'.slept)
  {
  }

  lemma FailureLogCons(url: string, parseDom: bool, attempts: seq<Attempt>, from: nat, n: nat)
    requires n > 0
    requires forall j :: from <= j < from + n ==> Classify(AttemptAt(attempts, j), parseDom).Reject?
    ensures FailureLog(url, parseDom, attempts, from, n)
         == [ErrorEntry(Classify(AttemptAt(attempts, from), parseDom).why, url)]
            + FailureLog(url, parseDom, attempts, from + 1, n - 1)
  {
  }

  /** The log of a failed iteration: its own line, then the lines of the
      iterations after it. */
  lemma LogStepShape(url: string, parseDom: bool, attempts: seq<Attempt>, i: nat,
                     c: Counters, c': Counters, r: Fetched, r': Fetched)
    requires i < RetryLimit && Classify(AttemptAt(attempts, i), parseDom).Reject?
    requires c'.errorLog == c.errorLog + [ErrorEntry(Classify(AttemptAt(attempts, i), parseDom).why, url)]
    requires r.outcome == r'.outcome && r.tries == r'.tries && r.counters == r'.counters
    requires && i + 1 <= Failed(r')
             && (forall j :: i + 1 <= j < Failed(r') ==> Classify(AttemptAt(attempts, j), parseDom).Reject?)
             && r'.counters.errorLog == c'.errorLog + FailureLog(url, parseDom, attempts, i + 1, Failed(r') - (i + 1))
    ensures && i <= Failed(r)
            && (forall j :: i <= j < Failed(r) ==> Classify(AttemptAt(attempts, j), parseDom).Reject?)
            && r.counters.errorLog == c.errorLog + FailureLog(url, parseDom, attempts, i, Failed(r) - i)
  {
    var n := Failed(r');
    assert Failed(r) == n;
    FailureLogCons(url, parseDom, attempts, i, n - i);
  }

  lemma RetryLogStep(url: string, parseDom: bool, attempts: seq<Attempt>, delay: int,
                     delayErr: int, i: nat, c: Counters, c': Counters)
    requires i < RetryLimit && Classify(AttemptAt(attempts, i), parseDom).Reject?
    requires c' == AfterFailure(c, Classify(AttemptAt(attempts, i), parseDom).why, url)
    requires var r' := Retry(url, parseDom, attempts, delay, delayErr, i + 1, c');
             && i + 1 <= Failed(r')
             && (forall j :: i + 1 <= j < Failed(r') ==> Classify(AttemptAt(attempts, j), parseDom).Reject?)
             && r'.counters.errorLog == c'.errorLog + FailureLog(url, parseDom, attempts, i + 1, Failed(r') - (i + 1))
    ensures var r := Retry(url, parseDom, attempts, delay, delayErr, i, c);
            && i <= Failed(r)
            && (forall j :: i <= j < Failed(r) ==> Classify(AttemptAt(attempts, j), parseDom).Reject?)
            && r.counters.errorLog == c.errorLog + FailureLog(url, parseDom, attempts, i, Failed(r) - i)
  {
    var r' := Retry(url, parseDom, attempts, delay, delayErr, i + 1, c');
    RetryUnfold(url, parseDom, attempts, delay, delayErr, i, c);
    LogStepShape(url, parseDom, attempts, i, c, c', Retry(url, parseDom, attempts, delay, delayErr, i, c), r');
  }

  /** The number of the attempts of a call that failed: all of them when it gave
      up, all but the last otherwise. */
  function Failed(r: Fetched): nat
  {
    if r.outcome.Page? && r.tries > 0 then r.tries - 1 else r.tries
  }

  /** `fetchPage(url, getDom...)`: one request, then the retry loop with a
      rate-limit delay drawn from [0, 8s) and an error delay drawn from
      [8s, 20s), both drawn once per call. */
  function FetchPage(url: string, parseDom: bool, attempts: seq<Attempt>,
                     drawDelay: nat, drawErr: nat, c: Counters): (r: Fetched)
    ensures 1 <= r.tries <= RetryLimit
    ensures r.outcome.GaveUp? <==>
              forall j :: 0 <= j < RetryLimit ==> Classify(AttemptAt(attempts, j), parseDom).Reject?
    ensures r.outcome.Page? ==>
              && Classify(AttemptAt(attempts, r.tries - 1), parseDom) == Accept(r.outcome.body, parseDom)
              && !Contains(r.outcome.body, BlockSignature)
              && !Contains(r.outcome.body, NotFoundSignature)
    ensures forall j :: 0 <= j < Failed(r) ==> Classify(AttemptAt(attempts, j), parseDom).Reject?
  {
    var delay := RandTime(0, DelayBetweenRequests, drawDelay);
    var delayErr := RandTime(DelayBetweenRequests, DelayAfterError, drawErr);
    var c0 := c.(requests := c.requests + 1);
    RetryOutcome(url, parseDom, attempts, delay, delayErr, 0, c0);
    Retry(url, parseDom, attempts, delay, delayErr, 0, c0)
  }

  /** What one call counts and logs: one request, one sleep per attempt, one
      retry and one error line per failed attempt, and the URL once among
      the rate-limit failures when it gives up. */
  lemma FetchPageCounters(url: string, parseDom: bool, attempts: seq<Attempt>,
                          drawDelay: nat, drawErr: nat, c: Counters)
    ensures var r := FetchPage(url, parseDom, attempts, drawDelay, drawErr, c);
            && r.counters.requests == c.requests + 1
            && r.counters.sleeps == c.sleeps + r.tries
            && r.counters.retries == c.retries + Failed(r)
            && r.counters.errors == c.errors + Failed(r)
            && r.counters.errorLog == c.errorLog + FailureLog(url, parseDom, attempts, 0, Failed(r))
            && r.counters.rateLimitFailures == c.rateLimitFailures + (if r.outcome.GaveUp? then [url] else [])
            && r.counters.numRateLimitFailures == c.numRateLimitFailures + (if r.outcome.GaveUp? then 1 else 0)
  {
    var delay := RandTime(0, DelayBetweenRequests, drawDelay);
    var delayErr := RandTime(DelayBetweenRequests, DelayAfterError, drawErr);
    var c0 := c.(requests := c.requests + 1);
    RetryCounters(url, parseDom, attempts, delay, delayErr, 0, c0);
    RetryLog(url, parseDom, attempts, delay, delayErr, 0, c0);
  }

  lemma SleepsShape(slept: seq<int>, n: nat, delayErr: int, delay: int, page: bool)
    requires slept == seq(n, _ => delayErr) + (if page then [delay] else [])
    ensures |slept| == n + (if page then 1 else 0)
    ensures forall k :: 0 <= k < n ==> slept[k] == delayErr
    ensures page ==> slept[n] == delay
  {
  }

  lemma RetrySleptBounds(url: string, parseDom: bool, attempts: seq<Attempt>, delay: int,
                          delayErr: int, c: Counters)
    requires 0 <= delay < DelayBetweenRequests <= delayErr < DelayAfterError
    ensures var r := Retry(url, parseDom, attempts, delay, delayErr, 0, c);
            && |r.slept| == r.tries
            && (forall k :: 0 <= k < Failed(r) ==> DelayBetweenRequests <= r.slept[k] < DelayAfterError)
            && (r.outcome.Page? ==> 0 <= r.slept[r.tries - 1] < DelayBetweenRequests)
  {
    var r := Retry(url, parseDom, attempts, delay, delayErr, 0, c);
    RetryPage(url, parseDom, attempts, delay, delayErr, 0, c);
    RetrySleeps(url, parseDom, attempts, delay, delayErr, 0, c);
    SleepsShape(r.slept, Failed(r), delayErr, delay, r.outcome.Page?);
  }

  /** What one call sleeps: the error delay, in [8s, 20s), after each failed
      attempt, and the rate-limit delay, in [0, 8s), after the accepted one. */
  lemma FetchPageSleeps(url: string, parseDom: bool, attempts: seq<Attempt>,
                        drawDelay: nat, drawErr: nat, c: Counters)
    ensures var r := FetchPage(url, parseDom, attempts, drawDelay, drawErr, c);
            && |r.slept| == r.tries
            && (forall k :: 0 <= k < Failed(r) ==> DelayBetweenRequests <= r.slept[k] < DelayAfterError)
            && (r.outcome.Page? ==> 0 <= r.slept[r.tries - 1] < DelayBetweenRequests)
  {
    var delay := RandTime(0, DelayBetweenRequests, drawDelay);
    var delayErr := RandTime(DelayBetweenRequests, DelayAfterError, drawErr);
    var c0 := c.(requests := c.requests + 1);
    assert FetchPage(url, parseDom, attempts, drawDelay, drawErr, c) == Retry(url, parseDom, attempts, delay, delayErr, 0, c0);
    RetrySleptBounds(url, parseDom, attempts, delay, delayErr, c0);
  }

  /** An attempt that the loop accepts. */
  predicate Clean(a: Attempt, parseDom: bool)
  {
    Classify(a, parseDom).Accept?
  }

  /** After `k < RetryLimit` failed attempts, a clean one ends the call: exactly
      `k + 1` network calls, and its body is returned. */
  lemma BackoffBound(url: string, parseDom: bool, attempts: seq<Attempt>,
                     drawDelay: nat, drawErr: nat, c: Counters, k: nat)
    requires k < RetryLimit && k < |attempts|
    requires forall j :: 0 <= j < k ==> !Clean(attempts[j], parseDom)
    requires Clean(attempts[k], parseDom)
    ensures var r := FetchPage(url, parseDom, attempts, drawDelay, drawErr, c);
            r.tries == k + 1 && r.outcome == Page(attempts[k].body, parseDom)
  {
    var r := FetchPage(url, parseDom, attempts, drawDelay, drawErr, c);
    assert AttemptAt(attempts, k) == attempts[k];
    assert forall j :: 0 <= j < k ==> AttemptAt(attempts, j) == attempts[j];
  }

  /** A block page or a not-found page is never a success, whatever else the
      body holds. */
  lemma SignaturePagesRetried(a: Attempt, parseDom: bool)
    requires a.Body? || a.ParseErr?
    requires Contains(a.body, BlockSignature) || Contains(a.body, NotFoundSignature)
    ensures !Clean(a, parseDom)
  {
  }

  /** When the network never answers, the call makes all `RetryLimit`
      attempts, logs a transport failure for each, sleeps the error delay
      after each, and records the URL once as a rate-limit failure. */
  lemma NetworkDown(url: string, parseDom: bool, drawDelay: nat, drawErr: nat, c: Counters)
    ensures var r := FetchPage(url, parseDom, [], drawDelay, drawErr, c);
            && r.outcome == GaveUp && r.tries == RetryLimit
            && r.counters.rateLimitFailures == c.rateLimitFailures + [url]
            && r.counters.numRateLimitFailures == c.numRateLimitFailures + 1
            && r.counters.errorLog == c.errorLog + seq(RetryLimit, _ => ErrorEntry(Transport, url))
  {
    var r := FetchPage(url, parseDom, [], drawDelay, drawErr, c);
    FetchPageCounters(url, parseDom, [], drawDelay, drawErr, c);
    var log := FailureLog(url, parseDom, [], 0, RetryLimit);
    forall j | 0 <= j < RetryLimit
      ensures Classify(AttemptAt([], j), parseDom) == Reject(Transport)
    {
    }
    assert log[0] == ErrorEntry(Transport, url);
    assert log[1..] == FailureLog(url, parseDom, [], 1, 3);
    assert log[1] == ErrorEntry(Transport, url);
    assert log[2..] == FailureLog(url, parseDom, [], 2, 2);
    assert log[2] == ErrorEntry(Transport, url);
    assert log[3..] == FailureLog(url, parseDom, [], 3, 1);
    assert log[3] == ErrorEntry(Transport, url);
    assert log == seq(RetryLimit, _ => ErrorEntry(Transport, url));
  }
}

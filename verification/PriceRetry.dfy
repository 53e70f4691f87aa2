/** The price client: bounded retries under a wall-clock deadline, paging, and the in-run memo. */
module PriceRetry {
  import opened Wrappers

  type Duration = x: real | x >= 0.0

  datatype Page = Page(rows: seq<string>, next: bool)

  /** What the network does with one request, given all the time it wants. `retryAfter` is the
      header where it is present and all digits. */
  datatype Answer =
    | Fault(elapsed: Duration)
    | Reply(elapsed: Duration, status: int, retryAfter: Option<Duration>, page: Page)

  datatype Settings = Settings(maxRetries: int, backoff: real, requestTimeout: real, deadline: real, offline: bool)

  datatype FetchError = GaveUp | HttpError(status: int) | NotCached

  datatype Sent = Sent(at: real, timeout: real, heard: Answer)

  function Min(a: real, b: real): real {
    if a <= b then a else b
  }

  function Max(a: real, b: real): real {
    if a >= b then a else b
  }

  function Pow2(n: nat): nat {
    if n == 0 then 1 else 2 * Pow2(n - 1)
  }

  predicate Retryable(status: int) {
    status in {408, 429, 500, 502, 503, 504}
  }

  /** A request honours its timeout: an answer that takes longer is a fault at the timeout. */
  function Heard(answer: Answer, timeout: real): Answer
    requires timeout >= 0.0
  {
    if answer.elapsed > timeout then Fault(timeout) else answer
  }

  predicate Final(heard: Answer) {
    heard.Reply? && !Retryable(heard.status)
  }

  function Verdict(heard: Answer): Result<Page, FetchError>
    requires Final(heard)
  {
    if heard.status >= 400 then Err(HttpError(heard.status)) else Ok(heard.page)
  }

  function Timeout(s: Settings, remaining: real): real {
    Min(s.requestTimeout, Max(remaining, 1.0))
  }

  /** How long to wait before the next attempt. */
  function Delay(s: Settings, heard: Answer, attempt: nat, remaining: real): real {
    var wanted :=
      if heard.Reply? && heard.retryAfter.Some? then Min(heard.retryAfter.value, 60.0)
      else Min(s.backoff * Pow2(attempt) as real, 30.0);
    Max(Min(wanted, Max(remaining, 0.0)), 0.0)
  }

  // --------------------------------------------------------------- one page, with retries

  datatype Trace = Trace(result: Result<Page, FetchError>, now: real, sent: seq<Sent>)

  function Ask(s: Settings, answer: Answer, ends: real, now: real): Sent
    requires s.requestTimeout >= 0.0
  {
    Sent(now, Timeout(s, ends - now), Heard(answer, Timeout(s, ends - now)))
  }

  /** The run from a given attempt on: `answers(k)` is what the k-th request would be told. */
  function Attempts(s: Settings, answers: nat -> Answer, asked: nat, ends: real, now: real, attempt: nat): Trace
    requires s.requestTimeout >= 0.0
    decreases s.maxRetries - attempt
  {
    if attempt >= s.maxRetries || ends - now <= 0.0 then Trace(Err(GaveUp), now, [])
    else
      var sent := Ask(s, answers(asked), ends, now);
      var after := now + sent.heard.elapsed;
      if Final(sent.heard) then Trace(Verdict(sent.heard), after, [sent])
      else
        var rest := Attempts(s, answers, asked + 1, ends, after
          + Delay(s, sent.heard, attempt, ends - after), attempt + 1);
        rest.(sent := [sent] + rest.sent)
  }

  function Prefixed(sent: seq<Sent>, rest: Trace): Trace {
    rest.(sent := sent + rest.sent)
  }

  /** The connection and the clock it runs against. */
  class Session {
    const answers: nat -> Answer
    var now: real
    var sent: seq<Sent>

    constructor (answers: nat -> Answer, now: real)
      ensures this.answers == answers && this.now == now && sent == []
    {
      this.answers, this.now, sent := answers, now, [];
    }

    method Get(timeout: real) returns (heard: Answer)
      requires timeout >= 0.0
      modifies this
      ensures heard == Heard(answers(old(|sent|)), timeout)
      ensures now == old(now) + heard.elapsed && sent == old(sent) + [Sent(old(now), timeout, heard)]
    {
      heard := Heard(answers(|sent|), timeout);
      sent := sent + [Sent(now, timeout, heard)];
      now := now + heard.elapsed;
    }

    method Sleep(seconds: real)
      requires seconds > 0.0
      modifies this
      ensures now == old(now) + seconds && sent == old(sent)
    {
      now := now + seconds;
    }
  }

  method Fetch(s: Settings, session: Session) returns (r: Result<Page, FetchError>)
    requires s.requestTimeout >= 0.0
    modifies session
    ensures var trace := Attempts(s, session.answers, old(|session.sent|), old(session.now)
            + s.deadline, old(session.now), 0);
            r == trace.result && session.now == trace.now && session.sent == old(session.sent) + trace.sent
  {
    hide Timeout, Delay, Heard, Final, Verdict, Attempts;
    var ends := session.now + s.deadline;
    ghost var before, whole := session.sent, Attempts(s, session.answers, |session.sent|, ends, session.now, 0);
    ghost var done: seq<Sent> := [];
    var attempt := 0;
    while attempt < s.maxRetries
      invariant 0 <= attempt && session.sent == before + done
      invariant whole == Prefixed(done, Attempts(s, session.answers, |session.sent|, ends, session.now, attempt))
    {
      AttemptsUnfolds(s, session.answers, |session.sent|, ends, session.now, attempt);
      if ends - session.now <= 0.0 {
        return Err(GaveUp);
      }
      var timeout := Timeout(s, ends - session.now);
      TimeoutBounds(s, ends - session.now);
      ghost var sent := Sent(session.now, timeout, Heard(session.answers(|session.sent|), timeout));
      var heard := session.Get(timeout);
      assert done + [sent] + [] == done + [sent];
      if Final(heard) {
        return Verdict(heard);
      }
      done := done + [sent];
      var delay := Delay(s, heard, attempt, ends - session.now);
      DelayBounds(s, heard, attempt, ends - session.now);
      if delay > 0.0 {
        session.Sleep(delay);
      }
      ghost var rest := Attempts(s, session.answers, |session.sent|, ends, session.now, attempt + 1);
      assert done + rest.sent == done[..|done| - 1] + ([sent] + rest.sent);
      attempt := attempt + 1;
    }
    AttemptsUnfolds(s, session.answers, |session.sent|, ends, session.now, attempt);
    return Err(GaveUp);
  }

  lemma {:induction false} AttemptsUnfolds(s: Settings, answers: nat -> Answer, asked: nat, ends: real, now: real,
                                           attempt: nat)
    requires s.requestTimeout >= 0.0
    ensures var trace := Attempts(s, answers, asked, ends, now, attempt);
            if attempt >= s.maxRetries || ends - now <= 0.0 then trace == Trace(Err(GaveUp), now, [])
            else
              var sent := Ask(s, answers(asked), ends, now);
              var after := now + sent.heard.elapsed;
              trace == if Final(sent.heard) then Trace(Verdict(sent.heard), after, [sent])
                       else Prefixed([sent], Attempts(s, answers, asked + 1, ends, after
                         + Delay(s, sent.heard, attempt, ends - after), attempt + 1))
  {
  }

  lemma {:induction false} TimeoutBounds(s: Settings, remaining: real)
    requires s.requestTimeout >= 0.0
    ensures 0.0 <= Timeout(s, remaining) <= s.requestTimeout && Timeout(s, remaining) <= Max(remaining, 1.0)
  {
  }

  lemma {:induction false} DelayBounds(s: Settings, heard: Answer, attempt: nat, remaining: real)
    ensures 0.0 <= Delay(s, heard, attempt, remaining) <= Min(60.0, Max(remaining, 0.0))
    ensures heard.Fault? || heard.retryAfter.None? ==> Delay(s, heard, attempt, remaining) <= 30.0
  {
    hide Pow2;
  }

  // ------------------------------------------------------------------------ the bounds

  ghost predicate Punctual(s: Settings, ends: real, sent: Sent) {
    sent.at < ends && sent.timeout <= s.requestTimeout && sent.timeout <= Max(ends - sent.at, 1.0)
    && 0.0 <= sent.heard.elapsed <= sent.timeout
  }

  /** Main result: whatever the mix of faults, retryable statuses and Retry-After headers, a run
      makes at most `max_retries` requests, starts none after the deadline, and ends at most
      one second after it. */
  lemma {:induction false} RunIsBounded(s: Settings, answers: nat -> Answer, asked: nat, ends: real, now: real,
                                        attempt: nat)
    requires s.requestTimeout >= 0.0
    ensures var trace := Attempts(s, answers, asked, ends, now, attempt);
            && (attempt <= s.maxRetries ==> |trace.sent| <= s.maxRetries - attempt)
            && (attempt > s.maxRetries ==> trace.sent == [])
            && now <= trace.now <= Max(now, ends + 1.0)
            && forall x :: x in trace.sent ==> Punctual(s, ends, x)
    decreases s.maxRetries - attempt
  {
    hide Timeout, Delay, Final, Verdict, Retryable;
    if attempt < s.maxRetries && ends - now > 0.0 {
      TimeoutBounds(s, ends - now);
      var sent := Ask(s, answers(asked), ends, now);
      var after := now + sent.heard.elapsed;
      DelayBounds(s, sent.heard, attempt, ends - after);
      if !Final(sent.heard) {
        RunIsBounded(s, answers, asked + 1, ends, after + Delay(s, sent.heard, attempt, ends - after), attempt + 1);
      }
    }
  }

  /** A run stops at the first final answer and returns its verdict; it gives up only when every
      answer was retryable and the attempts or the time ran out. */
  lemma {:induction false} StopsAtTheFirstFinalAnswer(s: Settings, answers: nat -> Answer, asked: nat, ends: real,
                                                      now: real, attempt: nat)
    requires s.requestTimeout >= 0.0
    ensures var trace := Attempts(s, answers, asked, ends, now, attempt);
            var n := |trace.sent|;
            && (forall i | 0 <= i < n - 1 :: !Final(trace.sent[i].heard))
            && (trace.result != Err(GaveUp) ==>
              n > 0 && Final(trace.sent[n - 1].heard) && trace.result == Verdict(trace.sent[n - 1].heard))
            && (trace.result == Err(GaveUp) ==>
                  && (n > 0 ==> !Final(trace.sent[n - 1].heard))
                  && (attempt + n >= s.maxRetries || trace.now >= ends))
    decreases s.maxRetries - attempt
  {
    hide Timeout, Delay, Retryable, Heard;
    if attempt < s.maxRetries && ends - now > 0.0 {
      var sent := Ask(s, answers(asked), ends, now);
      var after := now + sent.heard.elapsed;
      if !Final(sent.heard) {
        StopsAtTheFirstFinalAnswer(s, answers, asked + 1, ends, after
          + Delay(s, sent.heard, attempt, ends - after), attempt + 1);
      }
    }
  }

  /** An answer worth another attempt: a fault, or one of six statuses. */
  ghost predicate TryAgain(heard: Answer) {
    heard.Fault? || heard.status in {408, 429, 500, 502, 503, 504}
  }

  /** How long to wait for the next attempt: what the server asked for, up to a minute, or the backoff
      doubled each time, up to half a minute; never past the deadline, and never less than nothing. */
  ghost predicate Waits(s: Settings, heard: Answer, attempt: nat, remaining: real, wait: real) {
    var wanted := if heard.Reply? && heard.retryAfter.Some? then heard.retryAfter.value
                  else s.backoff * Pow2(attempt) as real;
    var most := if heard.Reply? && heard.retryAfter.Some? then 60.0 else 30.0;
    && 0.0 <= wait
    && (wanted <= 0.0 || remaining <= 0.0 ==> wait == 0.0)
    && (wanted > 0.0 && remaining > 0.0 ==>
          && wait <= wanted && wait <= most && wait <= remaining
          && (wait == wanted || wait == most || wait == remaining))
  }

  lemma {:induction false} DelayIsTheWait(s: Settings, heard: Answer, attempt: nat, remaining: real)
    ensures Waits(s, heard, attempt, remaining, Delay(s, heard, attempt, remaining))
  {
    hide Pow2;
  }

  /** Left to itself the client starts at its backoff and doubles the wait each time, up to half a
      minute. */
  lemma {:induction false} BackoffDoubles(s: Settings, heard: Answer, attempt: nat, remaining: real)
    requires s.backoff >= 0.0 && remaining >= 30.0 && (heard.Fault? || heard.retryAfter.None?)
    ensures Delay(s, heard, 0, remaining) == if s.backoff <= 30.0 then s.backoff else 30.0
    ensures var now, next := Delay(s, heard, attempt, remaining), Delay(s, heard, attempt + 1, remaining);
            next == if now <= 15.0 then now + now else 30.0
  {
    var now := s.backoff * Pow2(attempt) as real;
    assert Pow2(attempt + 1) == Pow2(attempt) + Pow2(attempt);
    assert s.backoff * Pow2(attempt + 1) as real == now + now by {
      Distributed(s.backoff, Pow2(attempt) as real);
    }
    assert s.backoff * Pow2(0) as real == s.backoff;
    NotNegative(s.backoff, Pow2(attempt) as real);
    hide Pow2;
  }

  lemma {:induction false} Distributed(x: real, y: real)
    ensures x * (y + y) == x * y + x * y
  {
  }

  lemma {:induction false} NotNegative(x: real, y: real)
    requires x >= 0.0 && y >= 0.0
    ensures x * y >= 0.0
  {
  }

  /** Each request is given the configured timeout or what is left of the deadline, but never less
      than a second of it, and hears the answer or, where that takes longer, a fault. */
  ghost predicate GivenTime(s: Settings, ends: real, answer: Answer, sent: Sent) {
    var left := ends - sent.at;
    && (answer.elapsed <= sent.timeout ==> sent.heard == answer)
    && (answer.elapsed > sent.timeout ==> sent.heard.Fault? && sent.heard.elapsed == sent.timeout)
    && sent.timeout <= s.requestTimeout
    && (sent.timeout == s.requestTimeout || sent.timeout == if left >= 1.0 then left else 1.0)
    && sent.timeout <= if left >= 1.0 then left else 1.0
  }

  lemma {:induction false} TimeoutIsGiven(s: Settings, ends: real, now: real, answer: Answer)
    requires s.requestTimeout >= 0.0
    ensures GivenTime(s, ends, answer, Ask(s, answer, ends, now))
  {
  }

  /** An answer worth another attempt, and the attempt made after the prescribed wait. */
  ghost predicate Retried(s: Settings, ends: real, attempt: nat, first: Sent, second: Sent) {
    var after := first.at + first.heard.elapsed;
    TryAgain(first.heard) && Waits(s, first.heard, attempt, ends - after, second.at - after)
  }

  ghost predicate InTurn(s: Settings, sent: seq<Sent>, ends: real, attempt: nat) {
    forall i | 0 <= i < |sent| - 1 :: Retried(s, ends, attempt + i, sent[i], sent[i + 1])
  }

  lemma {:induction false} NothingInTurn(s: Settings, ends: real, attempt: nat)
    ensures InTurn(s, [], ends, attempt) && forall one: Sent :: InTurn(s, [one], ends, attempt)
  {
  }

  /** Putting one more attempt in front keeps the rest in turn. */
  lemma {:induction false} RetriedInTurn(s: Settings, first: Sent, ends: real, attempt: nat, rest: seq<Sent>)
    requires InTurn(s, rest, ends, attempt + 1)
    requires rest != [] ==> Retried(s, ends, attempt, first, rest[0])
    ensures InTurn(s, [first] + rest, ends, attempt)
  {
    hide Retried;
    var all := [first] + rest;
    forall i | 0 <= i < |all| - 1
      ensures Retried(s, ends, attempt + i, all[i], all[i + 1])
    {
      if i > 0 {
        assert all[i] == rest[i - 1] && all[i + 1] == rest[i];
        assert Retried(s, ends, attempt + 1 + (i - 1), rest[i - 1], rest[i - 1 + 1]);
      }
    }
  }

  /** Main result on retries, request by request: every answer but the last was worth another attempt
      and was followed, after exactly the prescribed wait, by the next. A last one worth another
      means that the attempts or the time ran out; otherwise it is a page or an HTTP error. */
  lemma {:induction false} RetriesInTurn(s: Settings, answers: nat -> Answer, asked: nat, ends: real, now: real,
                                         attempt: nat)
    requires s.requestTimeout >= 0.0
    ensures var trace := Attempts(s, answers, asked, ends, now, attempt);
            var n := |trace.sent|;
            && (n == 0 <==> attempt >= s.maxRetries || now >= ends)
            && (n > 0 ==> trace.sent[0].at == now)
            && (forall i | 0 <= i < n :: GivenTime(s, ends, answers(asked + i), trace.sent[i]))
            && InTurn(s, trace.sent, ends, attempt)
            && (n == 0 || TryAgain(trace.sent[n - 1].heard) <==> trace.result == Err(GaveUp))
            && (n > 0 && !TryAgain(trace.sent[n - 1].heard) ==>
                  var last := trace.sent[n - 1].heard;
                  trace.result == if last.status < 400 then Ok(last.page) else Err(HttpError(last.status)))
    decreases s.maxRetries - attempt
  {
    hide Timeout, Delay, GivenTime, Waits, Heard, InTurn;
    NothingInTurn(s, ends, attempt);
    if attempt < s.maxRetries && ends - now > 0.0 {
      var sent := Ask(s, answers(asked), ends, now);
      var after := now + sent.heard.elapsed;
      TimeoutIsGiven(s, ends, now, answers(asked));
      if !Final(sent.heard) {
        var wait := Delay(s, sent.heard, attempt, ends - after);
        DelayIsTheWait(s, sent.heard, attempt, ends - after);
        RetriesInTurn(s, answers, asked + 1, ends, after + wait, attempt + 1);
        RetriedInTurn(
          s, sent, ends, attempt, Attempts(s, answers, asked + 1, ends, after + wait, attempt + 1).sent);
      }
    }
  }

  // ------------------------------------------------------------------- paging and the memo

  const PAGE_LIMIT: nat := 20

  datatype Paged = Paged(result: Result<seq<Page>, FetchError>, now: real, sent: seq<Sent>)

  /** The pages read from page `n` on. */
  function Pages(s: Settings, answers: nat -> Answer, asked: nat, now: real, n: nat): Paged
    requires s.requestTimeout >= 0.0
    decreases PAGE_LIMIT - n
  {
    if n >= PAGE_LIMIT then Paged(Ok([]), now, [])
    else
      var trace := Attempts(s, answers, asked, now + s.deadline, now, 0);
      if trace.result.Err? then Paged(Err(trace.result.error), trace.now, trace.sent)
      else if !trace.result.value.next then Paged(Ok([trace.result.value]), trace.now, trace.sent)
      else Onto(trace, Pages(s, answers, asked + |trace.sent|, trace.now, n + 1))
  }

  function Onto(trace: Trace, rest: Paged): Paged
    requires trace.result.Ok?
  {
    Paged(if rest.result.Err? then rest.result else Ok([trace.result.value] + rest.result.value),
          rest.now, trace.sent + rest.sent)
  }

  function RowsOf(pages: seq<Page>): seq<string> {
    if pages == [] then [] else RowsOf(pages[..|pages| - 1]) + pages[|pages| - 1].rows
  }

  /** The rows of the first page, then those of the pages after it. */
  lemma {:induction false} RowsInPageOrder(first: Page, rest: seq<Page>)
    ensures RowsOf([]) == [] && RowsOf([first] + rest) == first.rows + RowsOf(rest)
  {
    if rest == [] {
      assert [first] + rest == [first] && [first][..0] == [];
    } else {
      var front := rest[..|rest| - 1];
      assert ([first] + rest)[..|rest|] == [first] + front;
      RowsInPageOrder(first, front);
    }
  }

  function Times(n: int, each: real): real {
    n as real * each
  }

  function RequestBudget(n: int, each: nat): int {
    n * each
  }

  lemma {:induction false} OneLess(n: nat, requests: nat, seconds: real)
    requires n > 0 && seconds >= 0.0
    ensures RequestBudget(n, requests) == requests + RequestBudget(n - 1, requests)
            && RequestBudget(n - 1, requests) >= 0
    ensures Times(n, seconds) == seconds + Times(n - 1, seconds) && Times(n - 1, seconds) >= 0.0
  {
  }

  lemma {:induction false} PagingBudget(s: Settings, answers: nat -> Answer, asked: nat, now: real, n: nat)
    requires s.requestTimeout >= 0.0 && s.deadline >= 0.0 && s.maxRetries >= 0 && n <= PAGE_LIMIT
    ensures var paged := Pages(s, answers, asked, now, n);
            && |paged.sent| <= RequestBudget(PAGE_LIMIT - n, s.maxRetries)
            && now <= paged.now <= now + Times(PAGE_LIMIT - n, s.deadline + 1.0)
    decreases PAGE_LIMIT - n
  {
    hide Attempts, Times, RequestBudget;
    if n < PAGE_LIMIT {
      var trace := Attempts(s, answers, asked, now + s.deadline, now, 0);
      OnePageBudget(s, answers, asked, now);
      OneLess(PAGE_LIMIT - n, s.maxRetries, s.deadline + 1.0);
      if trace.result.Ok? && trace.result.value.next {
        PagingBudget(s, answers, asked + |trace.sent|, trace.now, n + 1);
      }
    } else {
      NoBudget(s.maxRetries, s.deadline + 1.0);
    }
  }

  lemma {:induction false} NoBudget(requests: nat, seconds: real)
    ensures RequestBudget(0, requests) == 0 && Times(0, seconds) == 0.0
  {
  }

  lemma {:induction false} OnePageBudget(s: Settings, answers: nat -> Answer, asked: nat, now: real)
    requires s.requestTimeout >= 0.0 && s.deadline >= 0.0 && s.maxRetries >= 0
    ensures var trace := Attempts(s, answers, asked, now + s.deadline, now, 0);
            |trace.sent| <= s.maxRetries && now <= trace.now <= now + (s.deadline + 1.0)
  {
    hide Attempts;
    RunIsBounded(s, answers, asked, now + s.deadline, now, 0);
  }

  lemma {:induction false} PagesChain(s: Settings, answers: nat -> Answer, asked: nat, now: real, n: nat)
    requires s.requestTimeout >= 0.0 && n <= PAGE_LIMIT
    requires Pages(s, answers, asked, now, n).result.Ok?
    ensures var pages := Pages(s, answers, asked, now, n).result.value;
            && |pages| <= PAGE_LIMIT - n
            && (forall i | 0 <= i < |pages| - 1 :: pages[i].next)
            && (pages == [] || pages[|pages| - 1].next ==> |pages| == PAGE_LIMIT - n)
    decreases PAGE_LIMIT - n
  {
    hide Attempts;
    if n < PAGE_LIMIT {
      var trace := Attempts(s, answers, asked, now + s.deadline, now, 0);
      if trace.result.value.next {
        PagesChain(s, answers, asked + |trace.sent|, trace.now, n + 1);
      }
    }
  }

  /** A query makes at most twenty pages' worth of retries and ends within twenty deadlines of a
      second's grace each. On success every page but the last has a successor; if the last has
      one too, exactly twenty were read and the rest of the answer is dropped. */
  lemma {:induction false} QueryIsBounded(s: Settings, answers: nat -> Answer, asked: nat, now: real)
    requires s.requestTimeout >= 0.0 && s.deadline >= 0.0 && s.maxRetries >= 0
    ensures var paged := Pages(s, answers, asked, now, 0);
            && |paged.sent| <= PAGE_LIMIT * s.maxRetries
            && now <= paged.now <= now + PAGE_LIMIT as real * (s.deadline + 1.0)
            && (paged.result.Ok? ==>
                  var pages := paged.result.value;
                  && 0 < |pages| <= PAGE_LIMIT
                  && (forall i | 0 <= i < |pages| - 1 :: pages[i].next)
                  && (pages[|pages| - 1].next ==> |pages| == PAGE_LIMIT))
  {
    hide Pages;
    PagingBudget(s, answers, asked, now, 0);
    if Pages(s, answers, asked, now, 0).result.Ok? {
      PagesChain(s, answers, asked, now, 0);
    }
  }

  /** The k-th page that a client without a page limit would read, following the links with the same
      retries; None where it gets no such page. */
  function Followed(s: Settings, answers: nat -> Answer, asked: nat, now: real, k: nat): Option<Page>
    requires s.requestTimeout >= 0.0
    decreases k
  {
    var trace := Attempts(s, answers, asked, now + s.deadline, now, 0);
    if trace.result.Err? then None
    else if k == 0 then Some(trace.result.value)
    else if !trace.result.value.next then None
    else Followed(s, answers, asked + |trace.sent|, trace.now, k - 1)
  }

  /** A list reported as complete although its last page names a successor. */
  predicate Truncated(result: Result<seq<Page>, FetchError>) {
    result.Ok? && result.value != [] && result.value[|result.value| - 1].next
  }

  predicate HasNext(page: Option<Page>) {
    page.Some? && page.value.next
  }

  lemma {:induction false} FollowedUnfolds(s: Settings, answers: nat -> Answer, asked: nat, now: real, k: nat)
    requires s.requestTimeout >= 0.0
    ensures var trace := Attempts(s, answers, asked, now + s.deadline, now, 0);
            var page := Followed(s, answers, asked, now, k);
            && (trace.result.Err? ==> page == None)
            && (trace.result.Ok? && k == 0 ==> page == Some(trace.result.value))
            && (trace.result.Ok? && k > 0 ==>
                  page == if trace.result.value.next
                          then Followed(s, answers, asked + |trace.sent|, trace.now, k - 1) else None)
  {
    hide Attempts;
  }

  lemma {:induction false} PagesFollow(s: Settings, answers: nat -> Answer, asked: nat, now: real, n: nat)
    requires s.requestTimeout >= 0.0 && n < PAGE_LIMIT
    ensures var result := Pages(s, answers, asked, now, n).result;
            && (result.Ok? ==> forall i: nat | i < |result.value| ::
                  Followed(s, answers, asked, now, i) == Some(result.value[i]))
            && (Truncated(result) <==> HasNext(Followed(s, answers, asked, now, PAGE_LIMIT - 1 - n)))
    decreases PAGE_LIMIT - n
  {
    hide Attempts, Pages, Followed;
    var trace := Attempts(s, answers, asked, now + s.deadline, now, 0);
    PagesUnfolds(s, answers, asked, now, n);
    forall i: nat
      ensures i == 0 && trace.result.Ok? ==> Followed(s, answers, asked, now, i) == Some(trace.result.value)
      ensures i > 0 && trace.result.Ok? && trace.result.value.next ==>
                Followed(s, answers, asked, now, i)
                == Followed(s, answers, asked + |trace.sent|, trace.now, i - 1)
    {
      FollowedUnfolds(s, answers, asked, now, i);
    }
    FollowedUnfolds(s, answers, asked, now, PAGE_LIMIT - 1 - n);
    if trace.result.Ok? && trace.result.value.next {
      var after := asked + |trace.sent|;
      PagesNotEmpty(s, answers, after, trace.now, n + 1);
      if n + 1 < PAGE_LIMIT {
        PagesFollow(s, answers, after, trace.now, n + 1);
      } else {
        PagesUnfolds(s, answers, after, trace.now, n + 1);
      }
    }
  }

  lemma {:induction false} PagesNotEmpty(s: Settings, answers: nat -> Answer, asked: nat, now: real, n: nat)
    requires s.requestTimeout >= 0.0
    ensures var result := Pages(s, answers, asked, now, n).result;
            result.Ok? && n < PAGE_LIMIT ==> result.value != []
  {
    hide Attempts;
  }

  /** Main result on paging, for every stream of answers: the pages read are those a client without
      the limit reads, and the list is truncated exactly when that client gets a twentieth page
      and it names a successor. */
  lemma {:induction false} TruncatedIff(s: Settings, answers: nat -> Answer, now: real)
    requires s.requestTimeout >= 0.0
    ensures var result := Pages(s, answers, 0, now, 0).result;
            && (result.Ok? ==> forall i: nat | i < |result.value| ::
                  Followed(s, answers, 0, now, i) == Some(result.value[i]))
            && (Truncated(result) <==> HasNext(Followed(s, answers, 0, now, PAGE_LIMIT - 1)))
  {
    hide Pages, Followed;
    PagesFollow(s, answers, 0, now, 0);
  }

  /** A reply that settles a request at once. */
  predicate Prompt(s: Settings, answer: Answer)
    requires s.requestTimeout >= 0.0
  {
    answer.Reply? && !Retryable(answer.status) && answer.status < 400 && answer.elapsed <= Timeout(s, s.deadline)
  }

  predicate Continues(answers: nat -> Answer, k: nat) {
    answers(k).Reply? && answers(k).page.next
  }

  lemma {:induction false} PromptAttempt(s: Settings, answers: nat -> Answer, asked: nat, now: real)
    requires s.requestTimeout >= 0.0 && s.deadline > 0.0 && s.maxRetries >= 1 && Prompt(s, answers(asked))
    ensures var trace := Attempts(s, answers, asked, now + s.deadline, now, 0);
            trace.result == Ok(answers(asked).page) && |trace.sent| == 1
  {
    hide Retryable;
    AttemptsUnfolds(s, answers, asked, now + s.deadline, now, 0);
    assert now + s.deadline - now == s.deadline;
  }

  lemma {:induction false} IsReply(s: Settings, answer: Answer)
    requires s.requestTimeout >= 0.0 && Prompt(s, answer)
    ensures answer.Reply?
  {
  }

  lemma {:induction false} PromptNext(s: Settings, answers: nat -> Answer, asked: nat, now: real)
    requires s.requestTimeout >= 0.0 && s.deadline > 0.0 && s.maxRetries >= 1
    requires forall k: nat :: Prompt(s, answers(k))
    ensures var trace := Attempts(s, answers, asked, now + s.deadline, now, 0);
            trace.result.Ok? && |trace.sent| == 1 && (trace.result.value.next <==> Continues(answers, asked))
  {
    hide Attempts, Prompt;
    assert Prompt(s, answers(asked));
    PromptAttempt(s, answers, asked, now);
    IsReply(s, answers(asked));
  }

  lemma {:induction false} PromptFollowed(s: Settings, answers: nat -> Answer, asked: nat, now: real, k: nat)
    requires s.requestTimeout >= 0.0 && s.deadline > 0.0 && s.maxRetries >= 1
    requires forall j: nat :: Prompt(s, answers(j))
    ensures HasNext(Followed(s, answers, asked, now, k)) <==>
              forall j | asked <= j <= asked + k :: Continues(answers, j)
    decreases k
  {
    hide Attempts, Prompt, Followed, Continues;
    PromptNext(s, answers, asked, now);
    FollowedUnfolds(s, answers, asked, now, k);
    var trace := Attempts(s, answers, asked, now + s.deadline, now, 0);
    if k > 0 && trace.result.value.next {
      PromptFollowed(s, answers, asked + 1, trace.now, k - 1);
    }
  }

  lemma {:induction false} PromptSucceeds(s: Settings, answers: nat -> Answer, asked: nat, now: real, n: nat)
    requires s.requestTimeout >= 0.0 && s.deadline > 0.0 && s.maxRetries >= 1 && n <= PAGE_LIMIT
    requires forall k: nat :: Prompt(s, answers(k))
    ensures Pages(s, answers, asked, now, n).result.Ok?
    decreases PAGE_LIMIT - n
  {
    hide Attempts, Prompt, Continues, Pages;
    PagesUnfolds(s, answers, asked, now, n);
    if n < PAGE_LIMIT {
      PromptNext(s, answers, asked, now);
      var trace := Attempts(s, answers, asked, now + s.deadline, now, 0);
      PromptSucceeds(s, answers, asked + 1, trace.now, n + 1);
    }
  }

  /** When every request is answered at once, a query succeeds, truncated exactly when each of the
      first twenty pages names a successor. */
  lemma {:induction false} PromptTruncatedIff(s: Settings, answers: nat -> Answer, now: real)
    requires s.requestTimeout >= 0.0 && s.deadline > 0.0 && s.maxRetries >= 1
    requires forall k: nat :: Prompt(s, answers(k))
    ensures var result := Pages(s, answers, 0, now, 0).result;
            result.Ok? && (Truncated(result) <==> forall k: nat | k < PAGE_LIMIT :: Continues(answers, k))
  {
    hide Pages, Prompt, Followed, Continues;
    TruncatedIff(s, answers, now);
    PromptSucceeds(s, answers, 0, now, 0);
    PromptFollowed(s, answers, 0, now, PAGE_LIMIT - 1);
  }

  /** A catalogue with no last page is such a stream: every query of it succeeds, truncated. */
  lemma {:induction false} EndlessCatalogueIsTruncated(s: Settings, rows: seq<string>, now: real)
    requires s.requestTimeout >= 0.0 && s.deadline > 0.0 && s.maxRetries >= 1
    ensures Truncated(Pages(s, (k: nat) => Reply(0.0, 200, None, Page(rows, true)), 0, now, 0).result)
  {
    hide Pages;
    var answers := (k: nat) => Reply(0.0, 200, None, Page(rows, true));
    TimeoutBounds(s, s.deadline);
    PromptTruncatedIff(s, answers, now);
  }

  class PriceClient {
    const settings: Settings
    var cache: map<string, seq<string>>

    constructor (settings: Settings, snapshot: map<string, seq<string>>)
      ensures this.settings == settings
      ensures cache == if settings.offline then snapshot else map[]
    {
      this.settings := settings;
      cache := if settings.offline then snapshot else map[];
    }

    /** A memoised answer sends nothing; offline, nothing is ever sent; otherwise the rows of the
        pages read are remembered, and a failure remembers nothing. */
    method Query(session: Session, key: string) returns (r: Result<seq<string>, FetchError>)
      requires settings.requestTimeout >= 0.0
      modifies this, session
      ensures key in old(cache) ==> r == Ok(old(cache)[key])
      ensures key !in old(cache) && settings.offline ==> r == Err(NotCached)
      ensures key in old(cache) || settings.offline ==>
                cache == old(cache) && session.now == old(session.now) && session.sent == old(session.sent)
      ensures key !in old(cache) && !settings.offline ==>
                var paged := Pages(settings, session.answers, old(|session.sent|), old(session.now), 0);
                && r == (if paged.result.Err? then Err(paged.result.error) else Ok(RowsOf(paged.result.value)))
                && session.now == paged.now && session.sent == old(session.sent) + paged.sent
                && cache == if r.Ok? then old(cache)[key := r.value] else old(cache)
    {
      if key in cache {
        return Ok(cache[key]);
      }
      if settings.offline {
        return Err(NotCached);
      }
      var rows := ReadPages(session);
      if rows.Ok? {
        cache := cache[key := rows.value];
      }
      return rows;
    }

    method ReadPages(session: Session) returns (r: Result<seq<string>, FetchError>)
      requires settings.requestTimeout >= 0.0
      modifies session
      ensures var paged := Pages(settings, session.answers, old(|session.sent|), old(session.now), 0);
              && r == (if paged.result.Err? then Err(paged.result.error) else Ok(RowsOf(paged.result.value)))
              && session.now == paged.now && session.sent == old(session.sent) + paged.sent
    {
      hide Attempts, Pages;
      var items, more, seen := [], true, 0;
      ghost var pages: seq<Page> := [];
      ghost var done: seq<Sent> := [];
      ghost var before, whole := session.sent, Pages(settings, session.answers, |session.sent|, session.now, 0);
      ContinuedFromNothing(whole);
      while more && seen < PAGE_LIMIT
        invariant seen <= PAGE_LIMIT && items == RowsOf(pages) && session.sent == before + done
        invariant whole == Continued(pages, done,
                             if more then Pages(settings, session.answers, |session.sent|, session.now, seen)
                             else Paged(Ok([]), session.now, []))
        decreases PAGE_LIMIT - seen
      {
        PagesUnfolds(settings, session.answers, |session.sent|, session.now, seen);
        ghost var trace := Attempts(settings, session.answers, |session.sent|, session.now
          + settings.deadline, session.now, 0);
        var payload := Fetch(settings, session);
        if payload.Err? {
          return Err(payload.error);
        }
        ContinuedBy(pages, done, trace, Pages(settings, session.answers, |session.sent|, session.now, seen + 1));
        done := done + trace.sent;
        assert (pages + [payload.value])[..|pages|] == pages;
        pages := pages + [payload.value];
        items := items + payload.value.rows;
        more := payload.value.next;
        seen := seen + 1;
      }
      if more {
        PagesUnfolds(settings, session.answers, |session.sent|, session.now, seen);
      }
      assert pages + [] == pages && done + [] == done;
      return Ok(items);
    }
  }

  lemma {:induction false} PagesUnfolds(s: Settings, answers: nat -> Answer, asked: nat, now: real, n: nat)
    requires s.requestTimeout >= 0.0
    ensures var paged := Pages(s, answers, asked, now, n);
            if n >= PAGE_LIMIT then paged == Paged(Ok([]), now, [])
            else
              var trace := Attempts(s, answers, asked, now + s.deadline, now, 0);
              paged == if trace.result.Err? then Paged(Err(trace.result.error), trace.now, trace.sent)
                       else if !trace.result.value.next then Paged(Ok([trace.result.value]), trace.now, trace.sent)
                       else Onto(trace, Pages(s, answers, asked + |trace.sent|, trace.now, n + 1))
  {
    hide Attempts;
  }

  lemma {:induction false} ContinuedFromNothing(rest: Paged)
    ensures Continued([], [], rest) == rest
  {
    assert [] + rest.sent == rest.sent;
    if rest.result.Ok? {
      assert [] + rest.result.value == rest.result.value;
    }
  }

  /** Reading one more page moves it from what is still to come to what has been read. */
  lemma {:induction false} ContinuedBy(pages: seq<Page>, sent: seq<Sent>, trace: Trace, rest: Paged)
    requires trace.result.Ok?
    ensures Continued(pages, sent, Onto(trace, rest))
            == Continued(pages + [trace.result.value], sent + trace.sent, rest)
    ensures Continued(pages, sent, Paged(Ok([trace.result.value]), trace.now, trace.sent))
         == Continued(pages + [trace.result.value], sent + trace.sent, Paged(Ok([]), trace.now, []))
  {
    var p := trace.result.value;
    if rest.result.Ok? {
      assert pages + ([p] + rest.result.value) == pages + [p] + rest.result.value;
    }
    assert sent + (trace.sent + rest.sent) == sent + trace.sent + rest.sent;
    assert pages + [p] + [] == pages + [p] && sent + trace.sent + [] == sent + trace.sent;
  }

  ghost function Continued(pages: seq<Page>, sent: seq<Sent>, rest: Paged): Paged {
    Paged(if rest.result.Err? then rest.result else Ok(pages + rest.result.value), rest.now, sent + rest.sent)
  }
}

/** The web-service session and its rate limiter (source/service.py).  The limiter keeps a window of
    `request_limit` requests per `limit_interval` seconds and a minimum `delay` between requests.
    The wall clock is an explicit object: `time()` reads it and `sleep(d)` advances it by `d`. */
module Service {
  import opened Wrappers

  /** The wall clock that `time()` reads and `sleep()` advances. */
  class Clock {
    var now: real

    constructor (start: real)
      ensures now == start
    {
      now := start;
    }

    method Time() returns (t: real)
      ensures t == now
    {
      t := now;
    }

    method Sleep(d: real)
      requires d > 0.0
      modifies this
      ensures now == old(now) + d
    {
      now := now + d;
    }
  }

  /** The limiter's settings. */
  datatype Limits = Limits(delay: int, requestLimit: int, limitInterval: int)

  /** The limiter's bookkeeping: when the last delayed request ended, when the window started and
      how many requests it has counted. */
  datatype Timing = Timing(delayStart: real, limitStart: real, limitedRequests: int)

  /** The bookkeeping after a request and the clock at its end. */
  datatype Timed = Timed(timing: Timing, now: real)

  /** The bookkeeping of a new session. */
  const InitialTiming := Timing(-1.0, -1.0, 0)

  /** `is_limit_reached` at time `now`: the verdict, and the bookkeeping with the count reset when
      the window has elapsed. */
  function LimitCheck(l: Limits, t: Timing, now: real): (bool, Timing)
  {
    if l.requestLimit <= 0 then (false, t)
    else if now - t.limitStart < l.limitInterval as real then (t.limitedRequests >= l.requestLimit, t)
    else (false, t.(limitedRequests := 0))
  }

  /** The window part of `make_limited_request`: the first request of a window starts it; a request
      into a full window that has not elapsed sleeps until it ends and opens a new one. */
  function RequestWindow(l: Limits, t: Timing, now: real): Timed
  {
    if l.requestLimit <= 0 then Timed(t, now)
    else
      var start := if t.limitedRequests == 0 then now else t.limitStart;
      var remaining := l.limitInterval as real - now + start;
      if remaining > 0.0 && t.limitedRequests >= l.requestLimit then
        Timed(t.(limitStart := now + remaining, limitedRequests := 1), now + remaining)
      else Timed(t.(limitStart := start, limitedRequests := t.limitedRequests + 1), now)
  }

  /** The delay part of `make_limited_request`: sleeps until `delay` seconds after the previous
      request, then records the time. */
  function RequestDelay(l: Limits, t: Timing, now: real): Timed
  {
    if l.delay <= 0 then Timed(t, now)
    else
      var remaining := l.delay as real - now + t.delayStart;
      var after := if remaining > 0.0 then now + remaining else now;
      Timed(t.(delayStart := after), after)
  }

  /** `make_limited_request` at time `now`. */
  function LimitedRequest(l: Limits, t: Timing, now: real): Timed
  {
    var w := RequestWindow(l, t, now);
    RequestDelay(l, w.timing, w.now)
  }

  /** Without a request limit the limit check never fires and the window bookkeeping is never touched. */
  lemma NoLimitNoWindow(l: Limits, t: Timing, now: real)
    requires l.requestLimit <= 0
    ensures LimitCheck(l, t, now) == (false, t)
    ensures var r := LimitedRequest(l, t, now);
      r.timing.limitStart == t.limitStart && r.timing.limitedRequests == t.limitedRequests
  {
  }

  /** With a limit, the limit check fires exactly while the window has not elapsed and is full; an
      elapsed window has its count reset, and nothing else changes. */
  lemma LimitCheckExact(l: Limits, t: Timing, now: real)
    requires l.requestLimit > 0
    ensures LimitCheck(l, t, now).0 <==> now - t.limitStart < l.limitInterval as real && t.limitedRequests >= l.requestLimit
    ensures LimitCheck(l, t, now).1 ==
      t.(limitedRequests := if now - t.limitStart < l.limitInterval as real then t.limitedRequests else 0)
  {
  }

  /** The limit check reports exactly the requests that will be delayed: after it, a request at the same
      moment sleeps in its window part if and only if the limit check said the limit was reached. */
  lemma CheckPredictsSleep(l: Limits, t: Timing, now: real)
    requires l.requestLimit > 0
    ensures var (reached, c) := LimitCheck(l, t, now);
      reached <==> RequestWindow(l, c, now).now > now
  {
  }

  /** The first request of a window (count 0) starts the window now. */
  lemma FirstRequestStartsWindow(l: Limits, t: Timing, now: real)
    requires l.requestLimit > 0 && t.limitedRequests == 0
    ensures RequestWindow(l, t, now) == Timed(t.(limitStart := now, limitedRequests := 1), now)
  {
  }

  /** A request into a full window that has not elapsed waits for its end, counts 1 and restarts the
      window there; every other request counts one more. */
  lemma FullWindowWaits(l: Limits, t: Timing, now: real)
    requires l.requestLimit > 0 && t.limitedRequests > 0
    ensures var r := RequestWindow(l, t, now);
      if t.limitedRequests >= l.requestLimit && now - t.limitStart < l.limitInterval as real then
        r.now == t.limitStart + l.limitInterval as real && r.timing.limitedRequests == 1 && r.timing.limitStart == r.now
      else r.now == now && r.timing.limitedRequests == t.limitedRequests + 1 && r.timing.limitStart == t.limitStart
  {
  }

  /** After a request the window holds at most the limit, unless the window has already elapsed. */
  lemma WindowBound(l: Limits, t: Timing, now: real)
    requires l.requestLimit > 0
    ensures var r := RequestWindow(l, t, now);
      r.timing.limitedRequests <= l.requestLimit || r.now - r.timing.limitStart >= l.limitInterval as real
  {
  }

  /** The count the window keeps: between 0 and the limit. */
  predicate WindowInv(l: Limits, t: Timing)
  {
    0 <= t.limitedRequests <= l.requestLimit
  }

  /** The record loop checks the limit and then makes the request.  Done at one moment, the pair
      keeps the window count within the limit, and the request is admitted (its window part ends)
      inside a window that has not elapsed. */
  lemma CheckedRequestKeepsWindow(l: Limits, t: Timing, now: real)
    requires l.requestLimit > 0 && l.limitInterval > 0 && WindowInv(l, t)
    ensures var c := LimitCheck(l, t, now).1;
      var w, r := RequestWindow(l, c, now), LimitedRequest(l, c, now);
      WindowInv(l, r.timing) && r.timing.limitedRequests >= 1 && r.timing.limitStart == w.timing.limitStart
      && now <= w.now <= r.now && w.now - w.timing.limitStart < l.limitInterval as real
  {
  }

  /** With a delay, a request ends at least `delay` seconds after the previous one ended, and it
      records its own end time (after any sleep). */
  lemma DelaySpacing(l: Limits, t: Timing, now: real)
    requires l.delay > 0
    ensures var r := LimitedRequest(l, t, now);
      r.timing.delayStart == r.now && r.now >= t.delayStart + l.delay as real && r.now >= now
  {
  }

  /** A request never moves the clock back, and without a delay it keeps the delay bookkeeping. */
  lemma RequestMovesClockForward(l: Limits, t: Timing, now: real)
    ensures LimitedRequest(l, t, now).now >= now
    ensures l.delay <= 0 ==> LimitedRequest(l, t, now).timing.delayStart == t.delayStart
  {
  }

  class Session {
    var identifier: Option<string>
    var delay: int
    var requestLimit: int
    var limitInterval: int
    var delayStart: real
    var limitStart: real
    var limitedRequests: int

    function Settings(): Limits
      reads this
    {
      Limits(delay, requestLimit, limitInterval)
    }

    function Snapshot(): Timing
      reads this
    {
      Timing(delayStart, limitStart, limitedRequests)
    }

    /** The fields of a session whose settings passed validation. */
    constructor (identifier: Option<string>, delay: int, requestLimit: int, limitInterval: int)
      ensures this.identifier == identifier && Settings() == Limits(delay, requestLimit, limitInterval)
      ensures Snapshot() == InitialTiming
    {
      this.identifier := identifier;
      this.delay := delay;
      this.requestLimit := requestLimit;
      this.limitInterval := limitInterval;
      delayStart, limitStart, limitedRequests := -1.0, -1.0, 0;
    }

    /** `invalidate`: forgets the identifier only. */
    method Invalidate()
      modifies this
      ensures identifier.None?
      ensures Settings() == old(Settings()) && Snapshot() == old(Snapshot())
    {
      identifier := None;
    }

    method IsLimitReached(clock: Clock) returns (reached: bool)
      modifies this
      ensures (reached, Snapshot()) == LimitCheck(Settings(), old(Snapshot()), clock.now)
      ensures identifier == old(identifier) && Settings() == old(Settings())
    {
      if requestLimit <= 0 {
        return false;
      }
      var current := clock.Time();
      var passed := current - limitStart;
      if passed < limitInterval as real {
        if limitedRequests >= requestLimit {
          return true;
        }
      } else {
        limitedRequests := 0;
      }
      return false;
    }

    method MakeLimitedRequest(clock: Clock)
      modifies this, clock
      ensures Timed(Snapshot(), clock.now) == LimitedRequest(Settings(), old(Snapshot()), old(clock.now))
      ensures identifier == old(identifier) && Settings() == old(Settings())
    {
      if requestLimit > 0 {
        var current := clock.Time();
        if limitedRequests == 0 {
          limitStart := current;
        }
        var remaining := limitInterval as real - current + limitStart;
        if remaining > 0.0 {
          if limitedRequests >= requestLimit {
            clock.Sleep(remaining);
            limitedRequests := 1;
            limitStart := clock.Time();
          } else {
            limitedRequests := limitedRequests + 1;
          }
        } else {
          limitedRequests := limitedRequests + 1;
        }
      }
      if delay > 0 {
        var current := clock.Time();
        var remaining := delay as real - current + delayStart;
        if remaining > 0.0 {
          clock.Sleep(remaining);
        }
        delayStart := clock.Time();
      }
    }
  }

  /** `Session(...)`: ValueError when a request limit is set with a negative interval. */
  method NewSession(identifier: Option<string>, delay: int, requestLimit: int, limitInterval: int)
    returns (r: Result<Session>)
    ensures r.Failure? <==> requestLimit > 0 && limitInterval < 0
    ensures r.Success? ==> fresh(r.value) && r.value.identifier == identifier
                           && r.value.Settings() == Limits(delay, requestLimit, limitInterval)
                           && r.value.Snapshot() == InitialTiming
  {
    if requestLimit > 0 && limitInterval < 0 {
      return Failure("ValueError");
    }
    var s := new Session(identifier, delay, requestLimit, limitInterval);
    return Success(s);
  }
}

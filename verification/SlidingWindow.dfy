/**
  The sliding window rate limit, which records denied requests too (_check_sliding_window in rate_limit_service.py),
  and the notification throttle, which records accepted ones only (ThrottleCache in notification_service.py).

  Windows are reals.
 */
module SlidingWindow {
  import opened Arrivals
  import opened Options

  /** The times of a history after a bound. */
  function Recent(h: History, bound: real): seq<real> {
    match h
    case Start => []
    case Then(before, time) => if time > bound then Recent(before, bound) + [time] else Recent(before, bound)
  }

  lemma {:induction false} NothingRecent(h: History, bound: real)
    requires Ordered(h) && (h.Then? ==> h.time <= bound)
    ensures Recent(h, bound) == []
  {
    if h.Then? { NothingRecent(h.before, bound); }
  }

  /**
    The first n entries without those up to a bound: ZREMRANGEBYSCORE key 0 bound, as scores are epoch seconds and
    never negative, and the list comprehension of the throttle.
   */
  function Later(entries: seq<real>, n: nat, bound: real): seq<real>
    requires n <= |entries|
  {
    if n == 0 then []
    else
      var rest := Later(entries, n - 1, bound);
      if entries[n - 1] > bound then rest + [entries[n - 1]] else rest
  }

  function LaterThan(entries: seq<real>, bound: real): seq<real> { Later(entries, |entries|, bound) }

  lemma {:induction false} LaterPrefix(entries: seq<real>, t: real, n: nat, bound: real)
    requires n <= |entries|
    ensures Later(entries + [t], n, bound) == Later(entries, n, bound)
  {
    if n > 0 { LaterPrefix(entries, t, n - 1, bound); }
  }

  lemma {:induction false} LaterRecent(h: History, first: real, second: real)
    requires first <= second
    ensures LaterThan(Recent(h, first), second) == Recent(h, second)
  {
    if h.Then? {
      var kept := Recent(h.before, first);
      LaterRecent(h.before, first, second);
      LaterPrefix(kept, h.time, |kept|, second);
    }
  }

  // ---- the sliding window

  /** The sorted set of one key, in score order, and the key's expiry. */
  datatype Window = Window(entries: seq<real>, expiresAt: real)

  datatype Status = Allowed(remaining: int) | Denied(retryAfter: int)

  function Live(w: Option<Window>, now: real): seq<real> {
    if w.Some? && now < w.value.expiresAt then w.value.entries else []
  }

  /** The pipeline: prune, add the request, renew the expiry. */
  function Touch(w: Option<Window>, seconds: real, now: real): Window {
    Window(LaterThan(Live(w, now), now - seconds) + [now], now + seconds + seconds)
  }

  /** The answer, from the entries the pipeline left. */
  function StatusOf(entries: seq<real>, limit: int, seconds: real, now: real): Status
    requires entries != []
  {
    if |entries| > limit then Denied((entries[0] + seconds - now).Floor + 1)
    else Allowed(if limit - |entries| > 0 then limit - |entries| else 0)
  }

  /** The key after a history of requests. */
  function After(h: History, seconds: real): (w: Option<Window>)
    ensures w.Some? <==> h.Then?
    ensures w.Some? ==> w.value.entries != []
  {
    if h.Start? then None else Some(Touch(After(h.before, seconds), seconds, h.time))
  }

  /** The answer to the last request of a history. */
  function Answer(h: History, limit: int, seconds: real): Status
    requires h.Then?
  {
    StatusOf(After(h, seconds).value.entries, limit, seconds, h.time)
  }

  /** The key that holds exactly the requests of the window before the last one. */
  function Exact(h: History, seconds: real): Option<Window> {
    if h.Start? then None else Some(Window(Recent(h, h.time - seconds), h.time + seconds + seconds))
  }

  /** What is live and not pruned of such a key is the requests of the current window, even if the key expired. */
  lemma PrunedIsRecent(h: History, seconds: real, now: real)
    requires Ordered(Then(h, now)) && seconds > 0.0
    ensures LaterThan(Live(Exact(h, seconds), now), now - seconds) == Recent(h, now - seconds)
  {
    if h.Then? {
      if now < h.time + seconds + seconds {
        LaterRecent(h, h.time - seconds, now - seconds);
      } else {
        NothingRecent(h, now - seconds);
      }
    }
  }

  lemma TouchIsExact(h: History, seconds: real, now: real)
    requires Ordered(Then(h, now)) && seconds > 0.0
    ensures Some(Touch(Exact(h, seconds), seconds, now)) == Exact(Then(h, now), seconds)
  {
    PrunedIsRecent(h, seconds, now);
  }

  /**
    The pruned, expiring set is exactly the requests of the last window, allowed or denied: dropping the key after
    two windows never loses one.
   */
  lemma {:induction false} WindowIsRecent(h: History, seconds: real)
    requires Ordered(h) && seconds > 0.0
    ensures After(h, seconds) == Exact(h, seconds)
  {
    if h.Then? {
      WindowIsRecent(h.before, seconds);
      TouchIsExact(h.before, seconds, h.time);
    }
  }

  /** A request is allowed exactly when it and the requests of the window before it are at most limit. */
  lemma AllowedIff(h: History, limit: int, seconds: real)
    requires Ordered(h) && h.Then? && seconds > 0.0
    ensures Answer(h, limit, seconds).Allowed? <==> |Recent(h, h.time - seconds)| <= limit
  {
    WindowIsRecent(h, seconds);
  }

  /** The remaining count is what the limit leaves beside the requests of the window, this one included. */
  lemma RemainingIs(h: History, limit: int, seconds: real)
    requires Ordered(h) && h.Then? && seconds > 0.0 && Answer(h, limit, seconds).Allowed?
    ensures Answer(h, limit, seconds).remaining == limit - |Recent(h, h.time - seconds)|
  {
    AllowedIff(h, limit, seconds);
    WindowIsRecent(h, seconds);
  }

  lemma DeniedUntil(h: History, limit: int, seconds: real)
    requires Ordered(h) && h.Then? && seconds > 0.0 && Answer(h, limit, seconds).Denied?
    ensures Recent(h, h.time - seconds) != []
    ensures Answer(h, limit, seconds).retryAfter == (Recent(h, h.time - seconds)[0] + seconds - h.time).Floor + 1
  {
    WindowIsRecent(h, seconds);
  }

  /** The two half-open intervals of one window's length that start at x. */
  predicate Inside(t: real, x: real, seconds: real, closedLeft: bool) {
    if closedLeft then x <= t < x + seconds else x < t <= x + seconds
  }

  /** How many requests inside the interval were allowed. */
  function AllowedInside(h: History, limit: int, seconds: real, x: real, closedLeft: bool): nat {
    if h.Start? then 0
    else
      AllowedInside(h.before, limit, seconds, x, closedLeft)
      + (if Inside(h.time, x, seconds, closedLeft) && Answer(h, limit, seconds).Allowed? then 1 else 0)
  }

  lemma {:induction false} AllowedAreRecent(h: History, limit: int, seconds: real, x: real, closedLeft: bool, bound: real)
    requires if closedLeft then bound < x else bound <= x
    ensures AllowedInside(h, limit, seconds, x, closedLeft) <= |Recent(h, bound)|
  {
    if h.Then? { AllowedAreRecent(h.before, limit, seconds, x, closedLeft, bound); }
  }

  /** No half-open interval of one window's length admits more than limit requests, over any history. */
  lemma {:induction false} WindowBound(h: History, limit: nat, seconds: real, x: real, closedLeft: bool)
    requires Ordered(h) && seconds > 0.0
    ensures AllowedInside(h, limit, seconds, x, closedLeft) <= limit
  {
    if h.Then? {
      if Inside(h.time, x, seconds, closedLeft) && Answer(h, limit, seconds).Allowed? {
        AllowedIff(h, limit, seconds);
        AllowedAreRecent(h, limit, seconds, x, closedLeft, h.time - seconds);
      } else {
        WindowBound(h.before, limit, seconds, x, closedLeft);
      }
    }
  }

  lemma {:induction false} RecentAreRecent(h: History, bound: real)
    ensures forall i | 0 <= i < |Recent(h, bound)| :: Recent(h, bound)[i] > bound
  {
    if h.Then? { RecentAreRecent(h.before, bound); }
  }

  /**
    What retry_after is worth: by then the oldest request has left the window, and the retry is allowed exactly when
    fewer than limit of the requests so far are still in it.
   */
  lemma RetryAfterIff(h: History, limit: int, seconds: real)
    requires Ordered(h) && h.Then? && seconds > 0.0 && Answer(h, limit, seconds).Denied?
    ensures var retry := h.time + Answer(h, limit, seconds).retryAfter as real;
      && retry > h.time
      && Recent(h, h.time - seconds)[0] <= retry - seconds
      && (Answer(Then(h, retry), limit, seconds).Allowed? <==> |Recent(h, retry - seconds)| < limit)
  {
    DeniedUntil(h, limit, seconds);
    RecentAreRecent(h, h.time - seconds);
    AllowedIff(Then(h, h.time + Answer(h, limit, seconds).retryAfter as real), limit, seconds);
  }

  const TWO_REQUESTS := Then(Then(Start, 0.0), 9.0)

  /** Waiting retry_after is not enough in general: denied requests keep the window full. */
  lemma RetryAfterCanFail()
    ensures Answer(TWO_REQUESTS, 1, 10.0) == Denied(2)
    ensures Answer(Then(TWO_REQUESTS, 11.0), 1, 10.0).Denied?
  {
    var one := Then(Start, 0.0);
    assert Recent(one, -1.0) == [0.0] && Recent(one, 1.0) == [];
    assert Recent(TWO_REQUESTS, -1.0) == [0.0] + [9.0] && Recent(TWO_REQUESTS, 1.0) == [9.0];
    AllowedIff(TWO_REQUESTS, 1, 10.0);
    DeniedUntil(TWO_REQUESTS, 1, 10.0);
    RetryAfterIff(TWO_REQUESTS, 1, 10.0);
  }

  // ---- the throttle

  /** One call of check_throttle: the entries it leaves, and whether the notification is throttled. */
  function Throttle(entries: seq<real>, max: int, seconds: real, now: real): (seq<real>, bool) {
    var kept := LaterThan(entries, now - seconds);
    if |kept| >= max then (kept, true) else (kept + [now], false)
  }

  function ThrottleAfter(h: History, max: int, seconds: real): seq<real> {
    if h.Start? then [] else Throttle(ThrottleAfter(h.before, max, seconds), max, seconds, h.time).0
  }

  predicate Accepts(h: History, max: int, seconds: real)
    requires h.Then?
  {
    !Throttle(ThrottleAfter(h.before, max, seconds), max, seconds, h.time).1
  }

  /** The accepted calls of a history. */
  function AcceptedOnly(h: History, max: int, seconds: real): History {
    if h.Start? then Start
    else
      var earlier := AcceptedOnly(h.before, max, seconds);
      if Accepts(h, max, seconds) then Then(earlier, h.time) else earlier
  }

  /** The accepted calls of the window before the last call. */
  function KeptAccepted(h: History, accepted: History, seconds: real): seq<real> {
    if h.Start? then [] else Recent(accepted, h.time - seconds)
  }

  lemma KeptIsRecent(h: History, accepted: History, seconds: real, now: real)
    requires Ordered(Then(h, now)) && (h.Start? ==> accepted.Start?)
    ensures LaterThan(KeptAccepted(h, accepted, seconds), now - seconds) == Recent(accepted, now - seconds)
  {
    if h.Then? { LaterRecent(accepted, h.time - seconds, now - seconds); }
  }

  /** The throttle keeps exactly those. */
  lemma {:induction false} ThrottleKeepsAccepted(h: History, max: int, seconds: real)
    requires Ordered(h) && seconds > 0.0
    ensures ThrottleAfter(h, max, seconds) == KeptAccepted(h, AcceptedOnly(h, max, seconds), seconds)
  {
    if h.Then? {
      ThrottleKeepsAccepted(h.before, max, seconds);
      KeptIsRecent(h.before, AcceptedOnly(h.before, max, seconds), seconds, h.time);
    }
  }

  /** A notification passes exactly when fewer than max were accepted in the window before it. */
  lemma AcceptsIff(h: History, max: int, seconds: real)
    requires Ordered(h) && h.Then? && seconds > 0.0
    ensures Accepts(h, max, seconds) <==> |Recent(AcceptedOnly(h.before, max, seconds), h.time - seconds)| < max
  {
    ThrottleKeepsAccepted(h.before, max, seconds);
    KeptIsRecent(h.before, AcceptedOnly(h.before, max, seconds), seconds, h.time);
  }

  lemma {:induction false} FewerAccepted(h: History, max: int, seconds: real, bound: real)
    ensures |Recent(AcceptedOnly(h, max, seconds), bound)| <= |Recent(h, bound)|
  {
    if h.Then? { FewerAccepted(h.before, max, seconds, bound); }
  }

  lemma AllowedLeavesRoom(h: History, limit: int, seconds: real)
    requires Ordered(h) && h.Then? && seconds > 0.0 && Answer(h, limit, seconds).Allowed?
    ensures |Recent(h.before, h.time - seconds)| < limit
  {
    AllowedIff(h, limit, seconds);
  }

  lemma RoomIsAccepted(h: History, max: int, seconds: real)
    requires Ordered(h) && h.Then? && seconds > 0.0 && |Recent(h.before, h.time - seconds)| < max
    ensures Accepts(h, max, seconds)
  {
    FewerAccepted(h.before, max, seconds, h.time - seconds);
    AcceptsIff(h, max, seconds);
  }

  /** On the same arrivals, every request the sliding window allows also passes a throttle with the same limit. */
  lemma AllowedIsAccepted(h: History, limit: int, seconds: real)
    requires Ordered(h) && h.Then? && seconds > 0.0 && Answer(h, limit, seconds).Allowed?
    ensures Accepts(h, limit, seconds)
  {
    AllowedLeavesRoom(h, limit, seconds);
    RoomIsAccepted(h, limit, seconds);
  }

  // ---- the code itself

  class SlidingWindowLimiter {
    var keys: map<string, Window>
    var clock: real

    constructor ()
      ensures keys == map[] && clock == 0.0
    {
      keys, clock := map[], 0.0;
    }

    /** _check_sliding_window: one pipeline that prunes, adds, counts and renews the expiry. */
    method CheckSlidingWindow(key: string, limit: int, seconds: real) returns (status: Status)
      modifies this
      ensures old(clock) <= clock
      ensures var after := Touch(if key in old(keys) then Some(old(keys)[key]) else None, seconds, clock);
        keys == old(keys)[key := after] && status == StatusOf(after.entries, limit, seconds, clock)
    {
      var passed: real := *;
      if passed > 0.0 { clock := clock + passed; }
      var now := clock;
      var entries := if key in keys && now < keys[key].expiresAt then keys[key].entries else [];
      entries := LaterThan(entries, now - seconds);
      entries := entries + [now];
      var count := |entries|;
      keys := keys[key := Window(entries, now + seconds + seconds)];
      if count > limit {
        return Denied((entries[0] + seconds - now).Floor + 1);
      }
      status := Allowed(if limit - count > 0 then limit - count else 0);
    }
  }

  class ThrottleCache {
    var entries: map<string, seq<real>>

    constructor ()
      ensures entries == map[]
    {
      entries := map[];
    }

    /** check_throttle at time now, under one lock. */
    method CheckThrottle(key: string, max: int, seconds: real, now: real) returns (throttled: bool)
      modifies this
      ensures var before := if key in old(entries) then old(entries)[key] else [];
        var (after, answer) := Throttle(before, max, seconds, now);
        entries == old(entries)[key := after] && throttled == answer
    {
      if key !in entries { entries := entries[key := []]; }
      var all := entries[key];
      var kept: seq<real>, i := [], 0;
      while i < |all|
        invariant i <= |all| && kept == Later(all, i, now - seconds)
      {
        if all[i] > now - seconds { kept := kept + [all[i]]; }
        i := i + 1;
      }
      entries := entries[key := kept];
      if |kept| >= max { return true; }
      entries := entries[key := kept + [now]];
      throttled := false;
    }
  }
}

/**
  The token bucket rate limit (_TOKEN_BUCKET_LUA and _check_token_bucket in rate_limit_service.py), whose key expires
  after two windows. Times and tokens are reals, and the clock never goes back.
 */
module TokenBucket {
  import opened Arrivals
  import opened Options

  /** The script's arguments: a full bucket, tokens gained a second, and seconds until the key expires. */
  datatype Params = Params(max: real, rate: real, ttl: real) {
    ghost predicate Valid() { max >= 0.0 && rate >= 0.0 && ttl > 0.0 }

    /** The tokens gained in some seconds. */
    function Gain(seconds: real): real { seconds * rate }

    /** An empty bucket is full again when its key expires. */
    ghost predicate FullByExpiry() { max <= Gain(ttl) }
  }

  datatype Bucket = Bucket(tokens: real, lastRefill: real)

  function Min(a: real, b: real): real { if a <= b then a else b }

  /** The tokens a request finds: a full bucket when the key is missing or, with expiry on, forgotten. */
  function Refilled(p: Params, expires: bool, b: Option<Bucket>, now: real): real {
    if b.None? || (expires && now >= b.value.lastRefill + p.ttl) then p.max
    else Min(p.max, b.value.tokens + p.Gain(now - b.value.lastRefill))
  }

  /** The script: the bucket it stores, and whether it took a token. */
  function Take(p: Params, expires: bool, b: Option<Bucket>, now: real): (Bucket, bool) {
    var tokens := Refilled(p, expires, b, now);
    if tokens >= 1.0 then (Bucket(tokens - 1.0, now), true) else (Bucket(tokens, now), false)
  }

  /** The tokens left by the last request of a history. */
  function Left(p: Params, expires: bool, h: History): real
    requires h.Then?
    decreases h, 0
  {
    var tokens := Found(p, expires, h.before, h.time);
    if tokens >= 1.0 then tokens - 1.0 else tokens
  }

  /** The tokens a request finds after a history. */
  function Found(p: Params, expires: bool, h: History, now: real): real
    decreases h, 1
  {
    Refilled(p, expires, if h.Start? then None else Some(Bucket(Left(p, expires, h), h.time)), now)
  }

  predicate Admits(p: Params, expires: bool, h: History)
    requires h.Then?
  {
    Found(p, expires, h.before, h.time) >= 1.0
  }

  lemma LeftIsStored(p: Params, expires: bool, h: History)
    requires h.Then?
    ensures var b := if h.before.Start? then None else Some(Bucket(Left(p, expires, h.before), h.before.time));
      Take(p, expires, b, h.time) == (Bucket(Left(p, expires, h), h.time), Admits(p, expires, h))
  {
  }

  lemma Grows(a: real, b: real, rate: real)
    requires a <= b && rate >= 0.0
    ensures a * rate <= b * rate
  {
  }

  lemma GainGrows(p: Params, a: real, b: real)
    requires p.Valid() && a <= b
    ensures p.Gain(a) <= p.Gain(b) && p.Gain(0.0) == 0.0
  {
    Grows(a, b, p.rate);
  }

  lemma GainAdds(p: Params, a: real, b: real)
    ensures p.Gain(a) + p.Gain(b) == p.Gain(a + b)
  {
  }

  // ---- the bucket's range

  lemma RefilledInRange(p: Params, expires: bool, b: Option<Bucket>, now: real)
    requires p.Valid() && (b.Some? ==> 0.0 <= b.value.tokens <= p.max && b.value.lastRefill <= now)
    ensures 0.0 <= Refilled(p, expires, b, now) <= p.max
    ensures b.Some? && !(expires && now >= b.value.lastRefill + p.ttl) ==> b.value.tokens <= Refilled(p, expires, b, now)
  {
    if b.Some? {
      GainGrows(p, 0.0, now - b.value.lastRefill);
    }
  }

  /** The bucket never holds fewer than zero or more than max tokens. */
  lemma {:induction false} FoundInRange(p: Params, expires: bool, h: History, now: real)
    requires p.Valid() && Ordered(Then(h, now))
    ensures 0.0 <= Found(p, expires, h, now) <= p.max
    ensures h.Then? ==> 0.0 <= Left(p, expires, h) <= p.max
  {
    if h.Then? {
      FoundInRange(p, expires, h.before, h.time);
      RefilledInRange(p, expires, Some(Bucket(Left(p, expires, h), h.time)), now);
    }
  }

  // ---- forgetting

  lemma {:induction false} ForgettingInvisible(p: Params, h: History, now: real)
    requires p.Valid() && p.FullByExpiry() && Ordered(Then(h, now))
    ensures Found(p, true, h, now) == Found(p, false, h, now)
  {
    if h.Then? {
      ForgettingInvisible(p, h.before, h.time);
      FoundInRange(p, false, h, now);
      if now >= h.time + p.ttl { GainGrows(p, p.ttl, now - h.time); }
    }
  }

  /** n requests at one time. */
  function Burst(h: History, n: nat, t: real): History {
    if n == 0 then h else Then(Burst(h, n - 1, t), t)
  }

  lemma {:induction false} BurstIsOrdered(h: History, n: nat, t: real)
    requires Ordered(Then(h, t))
    ensures Ordered(Then(Burst(h, n, t), t))
  {
    if n > 0 { BurstIsOrdered(h, n - 1, t); }
  }

  /** A burst takes one token a request, while there are any. */
  lemma {:induction false} BurstTakes(p: Params, expires: bool, h: History, n: nat, t: real)
    requires p.Valid() && Ordered(Then(h, t)) && n as real <= Found(p, expires, h, t)
    ensures Found(p, expires, Burst(h, n, t), t) == Found(p, expires, h, t) - n as real
    ensures n > 0 ==> Admits(p, expires, Burst(h, n, t))
  {
    if n > 0 {
      var b := Burst(h, n - 1, t);
      BurstTakes(p, expires, h, n - 1, t);
      FoundInRange(p, expires, h, t);
      assert Left(p, expires, Then(b, t)) == Found(p, expires, h, t) - n as real;
      SameMoment(p, expires, Then(b, t));
    }
  }

  lemma SameMoment(p: Params, expires: bool, h: History)
    requires p.Valid() && h.Then? && Left(p, expires, h) <= p.max
    ensures Found(p, expires, h, h.time) == Left(p, expires, h)
  {
    GainGrows(p, 0.0, h.time - h.time);
  }

  /** max requests at once drain the bucket; when the key expires, only forgetting makes it full again. */
  lemma DrainedRefills(p: Params, m: nat)
    requires p.Valid() && p.max == m as real && m > 0
    ensures Ordered(Then(Burst(Start, m, 0.0), p.ttl))
    ensures Found(p, true, Burst(Start, m, 0.0), p.ttl) == p.max
    ensures Found(p, false, Burst(Start, m, 0.0), p.ttl) == Min(p.max, p.Gain(p.ttl))
  {
    BurstIsOrdered(Start, m - 1, 0.0);
    BurstTakes(p, true, Start, m, 0.0);
    BurstTakes(p, false, Start, m, 0.0);
    var d := Burst(Start, m, 0.0);
    FoundInRange(p, false, d, 0.0);
    SameMoment(p, false, d);
    assert Left(p, false, d) == 0.0;
  }

  /** Otherwise it shows: after draining the bucket and waiting for the expiry, one request too many is admitted. */
  lemma ForgettingShows(p: Params, m: nat, refill: nat) returns (h: History)
    requires p.Valid() && p.max == m as real && p.Gain(p.ttl) == refill as real && refill < m
    ensures Ordered(h) && h.Then? && Admits(p, true, h) && !Admits(p, false, h)
  {
    DrainedRefills(p, m);
    var d := Burst(Start, m, 0.0);
    h := Burst(d, refill + 1, p.ttl);
    BurstIsOrdered(d, refill, p.ttl);
    BurstTakes(p, true, d, refill + 1, p.ttl);
    BurstTakes(p, false, d, refill, p.ttl);
  }

  // ---- how much an interval admits

  /** The requests from x to y that were admitted. */
  function AdmittedIn(p: Params, h: History, x: real, y: real): nat {
    if h.Start? then 0
    else AdmittedIn(p, h.before, x, y) + (if x <= h.time <= y && Admits(p, true, h) then 1 else 0)
  }

  lemma {:induction false} NoneBefore(p: Params, h: History, x: real, y: real)
    requires Ordered(h) && (h.Then? ==> h.time < x)
    ensures AdmittedIn(p, h, x, y) == 0
  {
    if h.Then? { NoneBefore(p, h.before, x, y); }
  }

  lemma FoundIsBounded(p: Params, h: History, now: real)
    requires p.Valid() && p.FullByExpiry() && Ordered(Then(h, now)) && h.Then?
    ensures Found(p, true, h, now) <= Left(p, true, h) + p.Gain(now - h.time)
  {
    FoundInRange(p, true, h, now);
    if now >= h.time + p.ttl { GainGrows(p, p.ttl, now - h.time); }
  }

  /** What was admitted since x and what is left never exceed a full bucket plus the refill since x. */
  lemma {:induction false} Potential(p: Params, h: History, x: real, y: real)
    requires p.Valid() && p.FullByExpiry() && Ordered(h) && h.Then? && x <= h.time <= y
    ensures AdmittedIn(p, h, x, y) as real + Left(p, true, h) <= p.max + p.Gain(h.time - x)
  {
    var b := h.before;
    FoundInRange(p, true, b, h.time);
    if b.Then? && x <= b.time {
      Potential(p, b, x, y);
      FoundIsBounded(p, b, h.time);
      GainAdds(p, b.time - x, h.time - b.time);
    } else {
      NoneBefore(p, b, x, y);
      GainGrows(p, 0.0, h.time - x);
    }
  }

  /** No interval from x to y admits more than a full bucket plus its refill. */
  lemma {:induction false} AdmissionBound(p: Params, h: History, x: real, y: real)
    requires p.Valid() && p.FullByExpiry() && Ordered(h) && x <= y
    ensures AdmittedIn(p, h, x, y) as real <= p.max + p.Gain(y - x)
  {
    if h.Start? {
      GainGrows(p, 0.0, y - x);
    } else if x <= h.time <= y {
      Potential(p, h, x, y);
      FoundInRange(p, true, h, h.time);
      GainGrows(p, h.time - x, y - x);
    } else {
      AdmissionBound(p, h.before, x, y);
    }
  }

  lemma {:induction false} BurstAdmits(p: Params, h: History, n: nat, t: real, x: real, y: real)
    requires p.Valid() && Ordered(Then(h, t)) && n as real <= Found(p, true, h, t) && x <= t <= y
    ensures AdmittedIn(p, Burst(h, n, t), x, y) == AdmittedIn(p, h, x, y) + n
  {
    if n > 0 {
      BurstAdmits(p, h, n - 1, t, x, y);
      BurstTakes(p, true, h, n, t);
    }
  }

  /** When a full bucket is more than the refill until expiry, two bursts that far apart admit two full buckets. */
  lemma TwoBursts(p: Params, m: nat, refill: nat) returns (h: History)
    requires p.Valid() && p.max == m as real && p.Gain(p.ttl) == refill as real && refill < m
    ensures Ordered(h) && AdmittedIn(p, h, 0.0, p.ttl) as real == 2.0 * m as real
    ensures AdmittedIn(p, h, 0.0, p.ttl) as real >= (m + 1) as real + p.Gain(p.ttl - 0.0)
  {
    DrainedRefills(p, m);
    var d := Burst(Start, m, 0.0);
    FoundInRange(p, true, Start, 0.0);
    BurstAdmits(p, Start, m, 0.0, 0.0, p.ttl);
    BurstAdmits(p, d, m, p.ttl, 0.0, p.ttl);
    BurstIsOrdered(d, m, p.ttl);
    h := Burst(d, m, p.ttl);
  }

  // ---- retry_after

  /** After a denial, a wait that refills the missing part admits, if the bucket can hold a token; a shorter one does not. */
  lemma WaitAdmits(p: Params, h: History, wait: real)
    requires p.Valid() && Ordered(h) && h.Then? && !Admits(p, true, h) && wait >= 0.0
    ensures Left(p, true, h) + p.Gain(wait) >= 1.0 ==> (Admits(p, true, Then(h, h.time + wait)) <==> p.max >= 1.0)
    ensures Left(p, true, h) + p.Gain(wait) < 1.0 && wait < p.ttl ==> !Admits(p, true, Then(h, h.time + wait))
  {
    assert h.time + wait - h.time == wait;
  }

  // ---- the rule: int(), the refill rate and the answer

  /** A rule after its multiplier: limit may be zero, as int() drops the fraction. */
  datatype Rule = Rule(limit: nat, window: nat, burst: real) {
    ghost predicate Valid() { window >= 1 && burst >= 0.0 }

    /** int(limit * burst_multiplier). */
    function MaxTokens(): int { (limit as real * burst).Floor }

    function Arguments(): Params
      requires window >= 1
    {
      Params(MaxTokens() as real, limit as real / window as real, 2.0 * window as real)
    }
  }

  // Raises stands for the ZeroDivisionError of a zero refill rate.
  datatype Status = Allowed(remaining: int) | Denied(retryAfter: int) | Raises

  function StatusOf(p: Params, tokens: real, allowed: bool): Status {
    if allowed then Allowed(tokens.Floor)
    else if p.rate == 0.0 then Raises
    else Denied(((1.0 - tokens) / p.rate).Floor + 1)
  }

  lemma RuleFacts(r: Rule)
    requires r.Valid()
    ensures r.Arguments().Valid() && r.MaxTokens() >= 0
    ensures r.Arguments().rate == 0.0 <==> r.limit == 0
    ensures r.Arguments().Gain(r.Arguments().ttl) == (2 * r.limit) as real
    ensures r.limit == 0 ==> r.MaxTokens() == 0
  {
    var l, w := r.limit as real, r.window as real;
    Quotient(l, w);
    assert (2.0 * w) * (l / w) == 2.0 * ((l / w) * w);
    Grows(0.0, l, r.burst);
  }

  lemma Quotient(a: real, b: real)
    requires b > 0.0 && a >= 0.0
    ensures (a / b) * b == a && a / b >= 0.0 && (a / b == 0.0 <==> a == 0.0)
  {
  }

  /** A full bucket, in the rule's own numbers. */
  lemma HoldsIff(r: Rule, n: int)
    requires r.Valid()
    ensures n <= r.MaxTokens() <==> n as real <= r.limit as real * r.burst
  {
  }

  ghost predicate SameDecision(r: Rule, h: History)
    requires r.window >= 1
  {
    Ordered(h) && h.Then? ==> (Admits(r.Arguments(), true, h) <==> Admits(r.Arguments(), false, h))
  }

  /** Expiry changes no decision in any history exactly when a full bucket is at most two windows' worth. */
  lemma ForgettingInvisibleIff(r: Rule)
    requires r.Valid()
    ensures (forall h :: SameDecision(r, h)) <==> r.limit as real * r.burst < (2 * r.limit + 1) as real
  {
    RuleFacts(r);
    HoldsIff(r, 2 * r.limit + 1);
    var p := r.Arguments();
    if r.MaxTokens() <= 2 * r.limit {
      forall h ensures SameDecision(r, h) {
        if Ordered(h) && h.Then? { ForgettingInvisible(p, h.before, h.time); }
      }
    } else {
      var h := ForgettingShows(p, r.MaxTokens(), 2 * r.limit);
      assert !SameDecision(r, h);
    }
  }

  ghost predicate BoundHolds(r: Rule, h: History, x: real, y: real)
    requires r.window >= 1
  {
    Ordered(h) && x <= y ==>
      AdmittedIn(r.Arguments(), h, x, y) as real
      <= r.limit as real * r.burst + (y - x) * (r.limit as real / r.window as real)
  }

  ghost predicate Bounded(p: Params, size: real, h: History, x: real, y: real) {
    Ordered(h) && x <= y ==> AdmittedIn(p, h, x, y) as real <= size + p.Gain(y - x)
  }

  lemma BoundedIff(p: Params, size: real, m: nat, refill: nat)
    requires p.Valid() && p.max == m as real && p.Gain(p.ttl) == refill as real && (refill == 0 ==> m == 0)
    requires m as real <= size < (m + 1) as real
    ensures (forall h, x, y :: Bounded(p, size, h, x, y)) <==> m <= refill
  {
    if m <= refill {
      forall h, x, y ensures Bounded(p, size, h, x, y) {
        if Ordered(h) && x <= y { AdmissionBound(p, h, x, y); }
      }
    } else {
      var h := TwoBursts(p, m, refill);
      assert !Bounded(p, size, h, 0.0, p.ttl);
    }
  }

  /**
    Any seconds admit at most limit * burst, plus limit for each window, in every history, exactly under the same
    condition.
   */
  lemma AdmissionBoundIff(r: Rule)
    requires r.Valid()
    ensures (forall h, x, y :: BoundHolds(r, h, x, y)) <==> r.limit as real * r.burst < (2 * r.limit + 1) as real
  {
    RuleFacts(r);
    HoldsIff(r, 2 * r.limit + 1);
    HoldsIff(r, r.MaxTokens());
    HoldsIff(r, r.MaxTokens() + 1);
    BoundedIff(r.Arguments(), r.limit as real * r.burst, r.MaxTokens(), 2 * r.limit);
    BoundsAgree(r, r.Arguments(), r.limit as real * r.burst);
    hide *;
  }

  lemma BoundsAgree(r: Rule, p: Params, size: real)
    requires r.Valid() && p == r.Arguments() && size == r.limit as real * r.burst
    ensures (forall h, x, y :: BoundHolds(r, h, x, y)) <==> (forall h, x, y :: Bounded(p, size, h, x, y))
  {
    if forall h, x, y :: BoundHolds(r, h, x, y) {
      forall h, x, y ensures Bounded(p, size, h, x, y) {
        assert BoundHolds(r, h, x, y);
        BoundIsBounded(r, h, x, y);
      }
    }
    if forall h, x, y :: Bounded(p, size, h, x, y) {
      forall h, x, y ensures BoundHolds(r, h, x, y) {
        assert Bounded(p, size, h, x, y);
        BoundIsBounded(r, h, x, y);
      }
    }
  }

  lemma BoundIsBounded(r: Rule, h: History, x: real, y: real)
    requires r.Valid()
    ensures BoundHolds(r, h, x, y) <==> Bounded(r.Arguments(), r.limit as real * r.burst, h, x, y)
  {
  }

  // ---- what a rule admits, in its own numbers

  lemma StrictlyLess(a: real, b: real, rate: real)
    requires a < b && rate > 0.0
    ensures a * rate < b * rate
  {
  }

  /** The decision on a request made some time after a history's last, with none in between. */
  predicate AdmitsAfter(p: Params, h: History, wait: real)
    requires h.Then?
  {
    Admits(p, true, Then(h, h.time + wait))
  }

  /** All of n requests at one moment are admitted. */
  predicate BurstAdmitted(p: Params, h: History, n: nat, t: real) {
    n == 0 || (Admits(p, true, Burst(h, n, t)) && BurstAdmitted(p, h, n - 1, t))
  }

  lemma {:induction false} BurstFits(p: Params, h: History, n: nat, t: real)
    requires p.Valid() && Ordered(Then(h, t)) && n as real <= Found(p, true, h, t)
    ensures BurstAdmitted(p, h, n, t)
  {
    if n > 0 {
      BurstFits(p, h, n - 1, t);
      BurstTakes(p, true, h, n, t);
    }
  }

  lemma {:induction false} BurstExceeds(p: Params, h: History, m: nat, n: nat, t: real)
    requires p.Valid() && Ordered(Then(h, t)) && m as real <= Found(p, true, h, t) < (m + 1) as real && m < n
    ensures !BurstAdmitted(p, h, n, t)
  {
    if m < n - 1 {
      BurstExceeds(p, h, m, n - 1, t);
    } else {
      BurstTakes(p, true, h, m, t);
    }
  }

  /** They are exactly when the first of them finds that many tokens. */
  lemma BurstAdmittedBy(p: Params, h: History, n: nat, t: real)
    requires p.Valid() && Ordered(Then(h, t))
    ensures BurstAdmitted(p, h, n, t) <==> n as real <= Found(p, true, h, t)
  {
    FoundInRange(p, true, h, t);
    if n as real <= Found(p, true, h, t) {
      BurstFits(p, h, n, t);
    } else {
      BurstExceeds(p, h, Found(p, true, h, t).Floor, n, t);
    }
  }

  /** The remaining count of an allowed request is how many more are admitted at that moment. */
  lemma RemainingIff(r: Rule, h: History, n: nat)
    requires r.Valid() && Ordered(h) && h.Then? && Admits(r.Arguments(), true, h)
    ensures var p := r.Arguments(); var status := StatusOf(p, Left(p, true, h), true);
      status.Allowed? && (n <= status.remaining <==> BurstAdmitted(p, h, n, h.time))
  {
    RuleFacts(r);
    FoundInRange(r.Arguments(), true, h, h.time);
    SameMoment(r.Arguments(), true, h);
    BurstAdmittedBy(r.Arguments(), h, n, h.time);
  }

  /** While the key is missing, n requests at one moment are all admitted exactly when they are at most limit * burst. */
  lemma BurstAdmittedIff(r: Rule, n: nat, t: real)
    requires r.Valid()
    ensures BurstAdmitted(r.Arguments(), Start, n, t) <==> n as real <= r.limit as real * r.burst
  {
    RuleFacts(r);
    HoldsIff(r, n);
    BurstAdmittedBy(r.Arguments(), Start, n, t);
    MissingIsFull(r.Arguments(), t);
    hide *;
  }

  lemma MissingIsFull(p: Params, t: real)
    ensures Found(p, true, Start, t) == p.max && Ordered(Then(Start, t))
  {
  }

  lemma GainsTokenIff(r: Rule, wait: real)
    requires r.Valid() && wait >= 0.0
    ensures r.Arguments().Gain(wait) >= 1.0 <==> wait * r.limit as real >= r.window as real
  {
    var l, w := r.limit as real, r.window as real;
    Quotient(l, w);
    assert (wait * (l / w)) * w == wait * l;
    if wait * (l / w) >= 1.0 { Grows(1.0, wait * (l / w), w); } else { StrictlyLess(wait * (l / w), 1.0, w); }
  }

  lemma DrainedFinds(p: Params, n: nat, t: real, wait: real)
    requires p.Valid() && n >= 1 && p.max == n as real && wait >= 0.0
    ensures AdmitsAfter(p, Burst(Start, n, t), wait) <==> p.Gain(wait) >= 1.0 || wait >= p.ttl
  {
    var h := Burst(Start, n, t);
    BurstIsOrdered(Start, n - 1, t);
    BurstTakes(p, true, Start, n - 1, t);
    assert h.time == t && Left(p, true, h) == 0.0;
    assert h.time + wait - h.time == wait;
  }

  /** A bucket that a burst drained admits the next request exactly from window / limit seconds on. */
  lemma DrainedRegainsIff(r: Rule, n: nat, t: real, wait: real)
    requires r.Valid() && n >= 1 && wait >= 0.0
    requires n as real <= r.limit as real * r.burst < (n + 1) as real
    ensures AdmitsAfter(r.Arguments(), Burst(Start, n, t), wait) <==> wait * r.limit as real >= r.window as real
  {
    RuleFacts(r);
    HoldsIff(r, n);
    HoldsIff(r, n + 1);
    DrainedFinds(r.Arguments(), n, t, wait);
    GainsTokenIff(r, wait);
    if wait >= r.Arguments().ttl { WholeWindows(r, wait); }
    hide *;
  }

  lemma WholeWindows(r: Rule, wait: real)
    requires r.Valid() && r.limit >= 1 && wait >= 2.0 * r.window as real
    ensures wait * r.limit as real >= r.window as real
  {
    Grows(1.0, r.limit as real, wait);
  }

  lemma ForgottenIsFull(p: Params, h: History, now: real)
    requires h.Then? && now >= h.time + p.ttl
    ensures Found(p, true, h, now) == p.max
  {
  }

  /** A key that was not touched for two windows is gone, and the next request finds the whole limit * burst. */
  lemma ForgottenAfterTwoWindows(r: Rule, h: History, now: real)
    requires r.Valid() && h.Then? && now >= h.time + 2.0 * r.window as real
    ensures Found(r.Arguments(), true, h, now) == (r.limit as real * r.burst).Floor as real
  {
    ForgottenIsFull(r.Arguments(), h, now);
    hide Found;
  }

  /** Gaining a whole token takes at most one window, so waiting for it never outlasts the key. */
  lemma WaitIsLongEnough(p: Params, missing: real, retry: int)
    requires p.Valid() && 0.0 < missing <= 1.0 && 2.0 <= p.Gain(p.ttl) && p.rate > 0.0
    requires retry == (missing / p.rate).Floor + 1
    ensures 1 <= retry && (retry - 1) as real < p.ttl && p.Gain(retry as real) >= missing
  {
    Quotient(missing, p.rate);
    var exact := missing / p.rate;
    assert p.Gain(exact) == missing;
    GainGrows(p, exact, retry as real);
    if p.ttl <= exact { GainGrows(p, p.ttl, exact); }
  }

  lemma WaitIsTooShort(p: Params, missing: real, wait: real)
    requires missing > 0.0 && p.rate > 0.0 && wait < (missing / p.rate).Floor as real
    ensures p.Gain(wait) < missing
  {
    Quotient(missing, p.rate);
    StrictlyLess(wait, missing / p.rate, p.rate);
  }

  lemma EarlierIsDenied(p: Params, h: History, retry: int, wait: real)
    requires p.Valid() && Ordered(h) && h.Then? && !Admits(p, true, h) && p.rate > 0.0 && Left(p, true, h) < 1.0
    requires retry == ((1.0 - Left(p, true, h)) / p.rate).Floor + 1
    requires 0.0 <= wait < (retry - 1) as real < p.ttl
    ensures !AdmitsAfter(p, h, wait)
  {
    WaitIsTooShort(p, 1.0 - Left(p, true, h), wait);
    WaitAdmits(p, h, wait);
  }

  lemma RetryAdmits(p: Params, h: History, retry: int)
    requires p.Valid() && Ordered(h) && h.Then? && !Admits(p, true, h) && p.rate > 0.0 && 0.0 <= Left(p, true, h) < 1.0
    requires 2.0 <= p.Gain(p.ttl) && retry == ((1.0 - Left(p, true, h)) / p.rate).Floor + 1
    ensures 1 <= retry && (retry - 1) as real < p.ttl
    ensures AdmitsAfter(p, h, retry as real) <==> p.max >= 1.0
  {
    WaitIsLongEnough(p, 1.0 - Left(p, true, h), retry);
    WaitAdmits(p, h, retry as real);
  }

  lemma RetryAfterAdmits(r: Rule, h: History)
    requires r.Valid() && Ordered(h) && h.Then? && !Admits(r.Arguments(), true, h) && r.limit >= 1
    ensures var p := r.Arguments(); var status := StatusOf(p, Left(p, true, h), false);
      && status.Denied? && status.retryAfter >= 1
      && (AdmitsAfter(p, h, status.retryAfter as real) <==> r.MaxTokens() >= 1)
      && forall wait :: 0.0 <= wait < (status.retryAfter - 1) as real ==> !AdmitsAfter(p, h, wait)
  {
    RuleFacts(r);
    var p := r.Arguments();
    FoundInRange(p, true, h, h.time);
    DeniedLeaves(p, h);
    var retry := StatusOf(p, Left(p, true, h), false).retryAfter;
    RetryAdmits(p, h, retry);
    forall wait | 0.0 <= wait < (retry - 1) as real ensures !AdmitsAfter(p, h, wait) {
      EarlierIsDenied(p, h, retry, wait);
    }
  }

  /**
    After a denial, a request made retry_after seconds later, with none in between, is admitted exactly when the
    bucket can hold a token, and one made more than a second before that is not.
   */
  lemma RetryAfterIsEnough(r: Rule, h: History)
    requires r.Valid() && Ordered(h) && h.Then? && !Admits(r.Arguments(), true, h) && r.limit >= 1
    ensures var p := r.Arguments(); var status := StatusOf(p, Left(p, true, h), false);
      && status.Denied? && status.retryAfter >= 1
      && (AdmitsAfter(p, h, status.retryAfter as real) <==> r.limit as real * r.burst >= 1.0)
      && forall wait :: 0.0 <= wait < (status.retryAfter - 1) as real ==> !AdmitsAfter(p, h, wait)
  {
    RetryAfterAdmits(r, h);
    HoldsIff(r, 1);
    hide *;
  }

  lemma DeniedLeaves(p: Params, h: History)
    requires h.Then? && !Admits(p, true, h)
    ensures Left(p, true, h) < 1.0
  {
  }

  /** A check raises exactly when the multiplied limit is zero, and then every check does. */
  lemma RaisesIff(r: Rule, h: History)
    requires r.Valid() && Ordered(h) && h.Then?
    ensures StatusOf(r.Arguments(), Left(r.Arguments(), true, h), Admits(r.Arguments(), true, h)).Raises? <==> r.limit == 0
  {
    RuleFacts(r);
    FoundInRange(r.Arguments(), true, h.before, h.time);
  }

  // ---- the code itself

  datatype Entry = Entry(bucket: Bucket, expiresAt: real)

  class TokenBucketLimiter {
    var keys: map<string, Entry>
    var clock: real

    constructor ()
      ensures keys == map[] && clock == 0.0
    {
      keys, clock := map[], 0.0;
    }

    /** The stored bucket carries the expiry that SETEX gave it. */
    ghost predicate Valid(key: string, p: Params)
      reads this
    {
      key in keys ==> keys[key].expiresAt == keys[key].bucket.lastRefill + p.ttl
    }

    /** The script. */
    method Eval(key: string, p: Params, now: real) returns (tokens: real, allowed: bool)
      requires Valid(key, p)
      modifies this`keys
      ensures Valid(key, p)
      ensures var before := if key in old(keys) then Some(old(keys)[key].bucket) else None;
        && (Bucket(tokens, now), allowed) == Take(p, true, before, now)
        && keys == old(keys)[key := Entry(Bucket(tokens, now), now + p.ttl)]
    {
      tokens := p.max;
      if key in keys && now < keys[key].expiresAt {
        var timePassed := now - keys[key].bucket.lastRefill;
        tokens := Min(p.max, keys[key].bucket.tokens + p.Gain(timePassed));
      }
      allowed := false;
      if tokens >= 1.0 { tokens, allowed := tokens - 1.0, true; }
      keys := keys[key := Entry(Bucket(tokens, now), now + p.ttl)];
    }

    /** _check_token_bucket. */
    method CheckTokenBucket(key: string, r: Rule) returns (status: Status, ghost tokens: real, ghost allowed: bool)
      requires r.Valid() && Valid(key, r.Arguments())
      modifies this
      ensures Valid(key, r.Arguments()) && old(clock) <= clock
      ensures var before := if key in old(keys) then Some(old(keys)[key].bucket) else None;
        && (Bucket(tokens, clock), allowed) == Take(r.Arguments(), true, before, clock)
        && keys == old(keys)[key := Entry(Bucket(tokens, clock), clock + 2.0 * r.window as real)]
      ensures status == StatusOf(r.Arguments(), tokens, allowed)
    {
      var p := r.Arguments();
      var passed: real := *;
      if passed > 0.0 { clock := clock + passed; }
      var left, took := Eval(key, p, clock);
      tokens, allowed := left, took;
      if took { return Allowed(left.Floor), tokens, allowed; }
      if p.rate == 0.0 { return Raises, tokens, allowed; }
      status := Denied(((1.0 - left) / p.rate).Floor + 1);
    }
  }
}

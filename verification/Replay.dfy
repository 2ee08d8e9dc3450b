/**
  A replay session: stored events fetched in batches and sent again in order (replay_service.py and
  replay_repository.py). Which sends fail, and where something unexpected is raised, are parameters.
 */
module Replay {
  import opened Options

  const BATCH_SIZE: nat := 100

  datatype Event = Event(id: string, timestamp: real)

  datatype Status = Scheduled | Running | Completed | Failed

  /** An error about one event, or about the whole session. */
  datatype Error = Error(eventId: Option<string>)

  /** One event that was sent, or that failed with an error that counts against the session. */
  datatype Attempt = Attempt(event: Event, replayed: bool)

  // ---- batches

  function FlatTo(batches: seq<seq<Event>>, n: nat): seq<Event>
    requires n <= |batches|
  {
    if n == 0 then [] else FlatTo(batches, n - 1) + batches[n - 1]
  }

  function Flat(batches: seq<seq<Event>>): seq<Event> { FlatTo(batches, |batches|) }

  lemma {:induction false} FlatPrefix(batches: seq<seq<Event>>, batch: seq<Event>, n: nat)
    requires n <= |batches|
    ensures FlatTo(batches + [batch], n) == FlatTo(batches, n)
  {
    if n > 0 { FlatPrefix(batches, batch, n - 1); }
  }

  lemma FlatAppend(batches: seq<seq<Event>>, batch: seq<Event>)
    ensures Flat(batches + [batch]) == Flat(batches) + batch
  {
    FlatPrefix(batches, batch, |batches|);
  }

  lemma {:induction false} FlatIsPrefix(batches: seq<seq<Event>>, n: nat, m: nat)
    requires n <= m <= |batches|
    ensures FlatTo(batches, n) <= FlatTo(batches, m)
  {
    if n < m { FlatIsPrefix(batches, n, m - 1); }
  }

  /** Every batch is full but the last, which holds at least one event. */
  predicate WellCut(batches: seq<seq<Event>>, size: nat) {
    forall i :: 0 <= i < |batches| ==> 0 < |batches[i]| <= size && (i < |batches| - 1 ==> |batches[i]| == size)
  }

  /** fetch_events over the sorted cursor. */
  method FetchEvents(cursor: seq<Event>, size: nat) returns (batches: seq<seq<Event>>)
    requires size > 0
    ensures Flat(batches) == cursor && WellCut(batches, size)
  {
    batches := [];
    var batch: seq<Event> := [];
    for i := 0 to |cursor|
      invariant Flat(batches) + batch == cursor[..i]
      invariant |batch| < size && forall k :: 0 <= k < |batches| ==> |batches[k]| == size
    {
      batch := batch + [cursor[i]];
      assert cursor[..i + 1] == cursor[..i] + [cursor[i]];
      if |batch| >= size {
        FlatAppend(batches, batch);
        batches, batch := batches + [batch], [];
      }
    }
    assert cursor[..|cursor|] == cursor;
    if batch != [] {
      FlatAppend(batches, batch);
      batches := batches + [batch];
    }
  }

  lemma NextBatch(a: seq<seq<Event>>, size: nat, n: nat)
    requires WellCut(a, size) && 0 < n <= |a|
    ensures var start := |FlatTo(a, n - 1)|; var left := |Flat(a)| - start; var length := if left >= size then size else left;
      0 < length && |a[n - 1]| == length && a[n - 1] == Flat(a)[start..start + length] && |FlatTo(a, n)| == start + length
  {
    FlatIsPrefix(a, n, |a|);
  }

  /** The cut is the only one: the number of batches and each batch are fixed by the events. */
  lemma {:induction false} CutIsUnique(a: seq<seq<Event>>, b: seq<seq<Event>>, size: nat, n: nat)
    requires size > 0 && WellCut(a, size) && WellCut(b, size) && Flat(a) == Flat(b) && n <= |a|
    ensures n <= |b| && a[..n] == b[..n] && |FlatTo(a, n)| == |FlatTo(b, n)|
  {
    if n > 0 {
      CutIsUnique(a, b, size, n - 1);
      NextBatch(a, size, n);
      assert n <= |b|;
      NextBatch(b, size, n);
      assert a[n - 1] == b[n - 1];
      assert a[..n] == a[..n - 1] + [a[n - 1]] && b[..n] == b[..n - 1] + [b[n - 1]];
    }
  }

  // ---- counting

  function Replayed(attempts: seq<Attempt>): nat {
    if attempts == [] then 0 else Replayed(attempts[..|attempts| - 1]) + if attempts[|attempts| - 1].replayed then 1 else 0
  }

  /** One error for each failed attempt, in order. */
  function ErrorsOf(attempts: seq<Attempt>): seq<Error> {
    if attempts == [] then []
    else
      var last := attempts[|attempts| - 1];
      var before := ErrorsOf(attempts[..|attempts| - 1]);
      if last.replayed then before else before + [Error(Some(last.event.id))]
  }

  lemma {:induction false} ErrorsAndReplayed(attempts: seq<Attempt>)
    ensures Replayed(attempts) + |ErrorsOf(attempts)| == |attempts|
  {
    if attempts != [] { ErrorsAndReplayed(attempts[..|attempts| - 1]); }
  }

  lemma AttemptAppend(attempts: seq<Attempt>, a: Attempt)
    ensures Replayed(attempts + [a]) == Replayed(attempts) + if a.replayed then 1 else 0
    ensures ErrorsOf(attempts + [a]) == if a.replayed then ErrorsOf(attempts) else ErrorsOf(attempts) + [Error(Some(a.event.id))]
  {
    assert (attempts + [a])[..|attempts|] == attempts;
  }

  /** How many of n events a session attempts. */
  function Limited(n: nat, maxEvents: int): nat { if maxEvents < 0 then 0 else if n <= maxEvents then n else maxEvents }

  // ---- faults

  /**
    What happens to an attempt: it is sent, or rejected with an error that counts, or something unexpected is raised
    before it counts, or once it counted, when the session is saved.
   */
  datatype Fate = Sent | Rejected | Raises | SaveRaises(replayed: bool)

  predicate Breaks(f: Fate) { f.Raises? || f.SaveRaises? }

  predicate Replays(f: Fate) { f.Sent? || (f.SaveRaises? && f.replayed) }

  /** The fate of each event in order, and the fetch of a batch that raises, if one does. */
  datatype Faults = Faults(fate: nat -> Fate, fetch: Option<nat>)

  /** The first of n events whose attempt raises something unexpected, or n. */
  function FirstBreak(fate: nat -> Fate, n: nat): (k: nat)
    ensures k <= n && (forall i | 0 <= i < k :: !Breaks(fate(i))) && (k < n ==> Breaks(fate(k)))
  {
    if n == 0 then 0
    else
      var k := FirstBreak(fate, n - 1);
      if k < n - 1 || Breaks(fate(n - 1)) then k else n
  }

  lemma FirstBreakIs(fate: nat -> Fate, n: nat, k: nat)
    requires k <= n && (forall i | 0 <= i < k :: !Breaks(fate(i))) && (k < n ==> Breaks(fate(k)))
    ensures FirstBreak(fate, n) == k
  {
  }

  /** How many of n events there are in the first b batches. */
  function Fetched(n: nat, b: nat): nat { if b * BATCH_SIZE < n then b * BATCH_SIZE else n }

  /** Without other faults, a session gets to fetching batch b, which comes after a last, possibly partial one too. */
  predicate GetsToFetch(n: nat, maxEvents: int, b: nat) {
    b == 0 || ((b - 1) * BATCH_SIZE < n && Fetched(n, b) <= maxEvents)
  }

  predicate FetchRaises(n: nat, maxEvents: int, fetch: Option<nat>) {
    fetch.Some? && GetsToFetch(n, maxEvents, fetch.value)
  }

  /** How many of n events a session gets to attempt if no attempt breaks it. */
  function Reach(n: nat, maxEvents: int, fetch: Option<nat>): nat {
    if FetchRaises(n, maxEvents, fetch) then Fetched(n, fetch.value) else Limited(n, maxEvents)
  }

  /** Each attempt so far is of the event in its place, and replayed as its fate says. */
  ghost predicate AttemptsAre(attempts: seq<Attempt>, events: seq<Event>, fate: nat -> Fate) {
    |attempts| <= |events| && forall i | 0 <= i < |attempts| :: attempts[i] == Attempt(events[i], Replays(fate(i)))
  }

  ghost predicate NoneBreaks(fate: nat -> Fate, n: nat) { forall i | 0 <= i < n :: !Breaks(fate(i)) }

  /** The first break was at event k, and count says whether that attempt counted. */
  ghost predicate BrokeAt(fate: nat -> Fate, k: nat, attempted: nat) {
    NoneBreaks(fate, k) && Breaks(fate(k)) && attempted == if fate(k).Raises? then k else k + 1
  }

  lemma {:induction false} BatchStarts(batches: seq<seq<Event>>, b: nat)
    requires WellCut(batches, BATCH_SIZE) && b <= |batches|
    ensures |FlatTo(batches, b)| == Fetched(|Flat(batches)|, b)
    ensures b == 0 || (b - 1) * BATCH_SIZE < |Flat(batches)|
  {
    if b > 0 {
      BatchStarts(batches, b - 1);
      NextBatch(batches, BATCH_SIZE, b);
    }
  }

  lemma NoMoreBatches(batches: seq<seq<Event>>, b: nat)
    requires WellCut(batches, BATCH_SIZE) && b > |batches|
    ensures b > 0 && (b - 1) * BATCH_SIZE >= |Flat(batches)|
  {
    BatchStarts(batches, |batches|);
    assert (b - 1) * BATCH_SIZE >= |batches| * BATCH_SIZE;
  }

  /** Batches hold a hundred events. */
  lemma FetchedIs(n: nat, b: nat)
    ensures Fetched(n, b) == if 100 * b < n then 100 * b else n
  {
  }

  lemma FetchedGrows(n: nat, a: nat, b: nat)
    requires a <= b
    ensures Fetched(n, a) <= Fetched(n, b)
  {
    assert a * BATCH_SIZE <= b * BATCH_SIZE;
  }

  /** An attempt in the first b batches breaks the session, before any later fetch can. */
  lemma BreaksIn(n: nat, maxEvents: int, faults: Faults, b: nat, at: nat)
    requires at < Fetched(n, b) && at < maxEvents && NoneBreaks(faults.fate, at) && Breaks(faults.fate(at))
    requires faults.fetch.Some? ==> b <= faults.fetch.value
    ensures at < Reach(n, maxEvents, faults.fetch) && FirstBreak(faults.fate, Reach(n, maxEvents, faults.fetch)) == at
  {
    if faults.fetch.Some? { FetchedGrows(n, b, faults.fetch.value); }
    FirstBreakIs(faults.fate, Reach(n, maxEvents, faults.fetch), at);
  }

  /** A session that is full inside the first b batches fetches no more. */
  lemma StopsIn(n: nat, maxEvents: int, faults: Faults, b: nat, attempted: nat)
    requires maxEvents <= attempted < Fetched(n, b) && (0 < attempted ==> attempted <= maxEvents)
    requires NoneBreaks(faults.fate, attempted) && b > 0 && (faults.fetch.Some? ==> b <= faults.fetch.value)
    ensures Reach(n, maxEvents, faults.fetch) == attempted && !FetchRaises(n, maxEvents, faults.fetch)
    ensures FirstBreak(faults.fate, attempted) == attempted
  {
    if faults.fetch.Some? { FetchedGrows(n, b, faults.fetch.value); }
    FirstBreakIs(faults.fate, attempted, attempted);
  }

  lemma FetchBreaks(n: nat, maxEvents: int, faults: Faults, b: nat)
    requires faults.fetch == Some(b) && (b == 0 || (b - 1) * BATCH_SIZE < n)
    requires NoneBreaks(faults.fate, Fetched(n, b)) && (0 < Fetched(n, b) ==> Fetched(n, b) <= maxEvents)
    ensures Reach(n, maxEvents, faults.fetch) == Fetched(n, b) && FetchRaises(n, maxEvents, faults.fetch)
    ensures FirstBreak(faults.fate, Fetched(n, b)) == Fetched(n, b)
  {
    FirstBreakIs(faults.fate, Fetched(n, b), Fetched(n, b));
  }

  lemma AllAttempted(n: nat, maxEvents: int, faults: Faults, b: nat)
    requires Fetched(n, b) == n && NoneBreaks(faults.fate, n) && (0 < n ==> n <= maxEvents)
    requires faults.fetch.Some? ==> faults.fetch.value > 0 && (faults.fetch.value - 1) * BATCH_SIZE >= n
    ensures Reach(n, maxEvents, faults.fetch) == n && !FetchRaises(n, maxEvents, faults.fetch)
    ensures FirstBreak(faults.fate, n) == n
  {
    FirstBreakIs(faults.fate, n, n);
  }

  /** Where batch b lies among all events. */
  lemma BatchIsNext(batches: seq<seq<Event>>, b: nat)
    requires WellCut(batches, BATCH_SIZE) && b < |batches|
    ensures var n := |Flat(batches)|; var start := Fetched(n, b);
      && start + |batches[b]| == Fetched(n, b + 1) <= n && b * BATCH_SIZE < n
      && batches[b] == Flat(batches)[start..start + |batches[b]|]
  {
    BatchStarts(batches, b);
    BatchStarts(batches, b + 1);
    NextBatch(batches, BATCH_SIZE, b + 1);
  }

  // ---- the session

  class Session {
    const maxEvents: int
    var status: Status
    var replayedEvents: nat
    var failedEvents: nat
    var errors: seq<Error>
    ghost var attempts: seq<Attempt>

    constructor (maxEvents: int)
      ensures this.maxEvents == maxEvents && status == Scheduled && Fresh()
    {
      this.maxEvents, status, replayedEvents, failedEvents, errors, attempts := maxEvents, Scheduled, 0, 0, [], [];
    }

    ghost predicate Fresh()
      reads this
    {
      replayedEvents == 0 && failedEvents == 0 && errors == [] && attempts == []
    }

    /** The counters and errors say what was attempted. */
    ghost predicate Counts()
      reads this
    {
      replayedEvents == Replayed(attempts) && failedEvents == |ErrorsOf(attempts)| && errors == ErrorsOf(attempts)
    }

    /** _send, given the attempt's fate; raised tells that something unexpected was raised. */
    method Send(event: Event, fate: Fate) returns (raised: bool)
      requires Counts()
      modifies `replayedEvents, `failedEvents, `errors, `attempts
      ensures Counts() && raised == Breaks(fate)
      ensures attempts == if fate.Raises? then old(attempts) else old(attempts) + [Attempt(event, Replays(fate))]
      ensures replayedEvents == old(replayedEvents) + if fate == Sent || fate == SaveRaises(true) then 1 else 0
      ensures if fate == Rejected || fate == SaveRaises(false)
              then failedEvents == old(failedEvents) + 1 && errors == old(errors) + [Error(Some(event.id))]
              else failedEvents == old(failedEvents) && errors == old(errors)
    {
      if fate.Raises? { return true; }
      var replayed := Replays(fate);
      if !replayed { errors := errors + [Error(Some(event.id))]; }
      if replayed { replayedEvents := replayedEvents + 1; } else { failedEvents := failedEvents + 1; }
      AttemptAppend(attempts, Attempt(event, replayed));
      attempts := attempts + [Attempt(event, replayed)];
      raised := fate.SaveRaises?;
    }

    /** The first n of all events are attempted, and none of these attempts broke the session. */
    ghost predicate Tracks(all: seq<Event>, fate: nat -> Fate, n: nat)
      reads this
    {
      && Counts() && |attempts| == n && replayedEvents + failedEvents == n
      && AttemptsAre(attempts, all, fate) && NoneBreaks(fate, n)
    }

    /** Event k broke the session. */
    ghost predicate Broken(all: seq<Event>, fate: nat -> Fate, k: nat)
      reads this
    {
      Counts() && AttemptsAre(attempts, all, fate) && BrokeAt(fate, k, |attempts|)
    }

    /** One round of the loop over a batch. */
    method SendNext(event: Event, n: nat, fate: nat -> Fate, ghost all: seq<Event>) returns (raised: bool)
      requires Tracks(all, fate, n) && n < |all| && event == all[n]
      modifies `replayedEvents, `failedEvents, `errors, `attempts
      ensures if raised then Broken(all, fate, n) else Tracks(all, fate, n + 1)
    {
      raised := Send(event, fate(n));
      ErrorsAndReplayed(attempts);
    }

    /** The loop over one batch, up to n events in all; full tells that maxEvents were attempted before its end. */
    method SendBatch(batch: seq<Event>, sent: nat, fate: nat -> Fate, ghost all: seq<Event>)
      returns (n: nat, full: bool, raised: bool)
      requires Tracks(all, fate, sent) && (0 < sent ==> sent <= maxEvents)
      requires sent + |batch| <= |all| && batch == all[sent..sent + |batch|]
      modifies `replayedEvents, `failedEvents, `errors, `attempts
      ensures if raised then Broken(all, fate, n) && n < sent + |batch| && n < maxEvents
              else Tracks(all, fate, n) && (0 < n ==> n <= maxEvents)
      ensures !raised ==> if full then maxEvents <= n < sent + |batch| else n == sent + |batch|
    {
      hide *;
      n, full, raised := sent, false, false;
      for j := 0 to |batch|
        invariant n == sent + j && Tracks(all, fate, n) && (0 < n ==> n <= maxEvents)
      {
        if n >= maxEvents { full := true; return; }
        raised := SendNext(batch[j], n, fate, all);
        if raised { return; }
        n := n + 1;
      }
    }

    /** _replay: the events of the batches in order, up to maxEvents; raised tells that something unexpected was raised. */
    method Replay(batches: seq<seq<Event>>, faults: Faults) returns (raised: bool)
      requires Fresh() && WellCut(batches, BATCH_SIZE)
      modifies `replayedEvents, `failedEvents, `errors, `attempts
      ensures var all := Flat(batches); var reach := Reach(|all|, maxEvents, faults.fetch);
        var k := FirstBreak(faults.fate, reach);
        && raised == (k < reach || FetchRaises(|all|, maxEvents, faults.fetch))
        && (if k < reach then Broken(all, faults.fate, k) else Tracks(all, faults.fate, reach))
    {
      hide Tracks, Broken, WellCut, FirstBreak, Reach, FetchRaises, FlatTo;
      ghost var all := Flat(batches);
      StartsTracking(all, faults.fate);
      var sent: nat := 0;
      BatchStarts(batches, 0);
      for i := 0 to |batches|
        invariant Tracks(all, faults.fate, sent) && sent == Fetched(|all|, i) && (0 < sent ==> sent <= maxEvents)
        invariant faults.fetch.Some? ==> i <= faults.fetch.value
        invariant i == 0 || (i - 1) * BATCH_SIZE < |all|
      {
        if faults.fetch == Some(i) {
          TracksNoBreak(all, faults.fate, sent);
          FetchBreaks(|all|, maxEvents, faults, i);
          return true;
        }
        BatchIsNext(batches, i);
        var n, full, failed := SendBatch(batches[i], sent, faults.fate, all);
        if failed {
          BrokenBreaks(all, faults.fate, n);
          BreaksIn(|all|, maxEvents, faults, i + 1, n);
          return true;
        }
        TracksNoBreak(all, faults.fate, n);
        if full {
          StopsIn(|all|, maxEvents, faults, i + 1, n);
          return false;
        }
        sent := n;
      }
      TracksNoBreak(all, faults.fate, sent);
      BatchStarts(batches, |batches|);
      raised := faults.fetch == Some(|batches|);
      if raised {
        FetchBreaks(|all|, maxEvents, faults, |batches|);
      } else {
        if faults.fetch.Some? { NoMoreBatches(batches, faults.fetch.value); }
        AllAttempted(|all|, maxEvents, faults, |batches|);
      }
    }

    lemma StartsTracking(all: seq<Event>, fate: nat -> Fate)
      requires Fresh()
      ensures Tracks(all, fate, 0)
    {
    }

    lemma TracksNoBreak(all: seq<Event>, fate: nat -> Fate, n: nat)
      requires Tracks(all, fate, n)
      ensures NoneBreaks(fate, n)
    {
    }

    lemma BrokenBreaks(all: seq<Event>, fate: nat -> Fate, k: nat)
      requires Broken(all, fate, k)
      ensures NoneBreaks(fate, k) && Breaks(fate(k))
    {
    }

    /**
      run_next_session for this session, given its faults. It attempts the first maxEvents matching events in order, up
      to the first attempt or fetch that raises something unexpected. It fails exactly if one does, with one error
      more than it has failed events, and otherwise completes.
     */
    method Run(matches: seq<Event>, faults: Faults)
      requires status == Scheduled && Fresh()
      modifies this
      ensures replayedEvents == Replayed(attempts) && replayedEvents + failedEvents == |attempts|
      ensures AttemptsAre(attempts, matches, faults.fate)
      ensures var reach := Reach(|matches|, maxEvents, faults.fetch); var k := FirstBreak(faults.fate, reach);
        && (if k < reach then BrokeAt(faults.fate, k, |attempts|) else |attempts| == reach)
        && status == (if k < reach || FetchRaises(|matches|, maxEvents, faults.fetch) then Failed else Completed)
      ensures errors == ErrorsOf(attempts) + if status == Failed then [Error(None)] else []
      ensures failedEvents == |ErrorsOf(attempts)|
    {
      status := Running;
      var batches := FetchEvents(matches, BATCH_SIZE);
      var raised := Replay(batches, faults);
      ErrorsAndReplayed(attempts);
      if raised {
        errors := errors + [Error(None)];
        status := Failed;
      } else {
        status := Completed;
      }
    }
  }
}

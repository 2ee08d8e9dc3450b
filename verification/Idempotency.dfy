/**
  One idempotency key: any number of deliveries that reserve it, run the handler, then mark it completed or release
  it (IdempotencyMiddleware, IdempotencyManager, RedisIdempotencyRepository).

  Each Redis command is one step. Run interleaves them freely; in RunCoarse check_and_reserve is one step.
 */
module Idempotency {
  import opened Options

  const PROCESSING_TIMEOUT: real := 300.0

  datatype Status = Processing | Completed

  datatype Record = Record(status: Status, createdAt: real)

  datatype Stored = Stored(record: Record, expiresAt: real)

  datatype Ending = Skipped | Ran | Released

  /**
    Where a delivery stands: Missed found no record, Collided lost SET NX, Stale found a run that took too long.
    From Running on the handler was granted; Marking holds the record that mark_completed loaded.
   */
  datatype Phase =
    | Start
    | Missed(since: real)
    | Collided(at: real)
    | Stale(at: real)
    | Running(since: real)
    | Returned(since: real)
    | Marking(since: real, found: Record)
    | Raised(since: real)
    | Done(ending: Ending)

  datatype System = System(key: Option<Stored>, clock: real, callers: seq<Phase>, ttl: real)

  datatype Step =
    | Tick(to: real)
    | Find(i: nat)
    | SetNx(i: nat)
    | Refind(i: nat)
    | TakeOver(i: nat)
    | Return(i: nat)
    | Raise(i: nat)
    | Load(i: nat)
    | Store(i: nat)
    | Delete(i: nat)

  // ---- Redis

  function Live(key: Option<Stored>, now: real): Option<Record> {
    if key.Some? && now < key.value.expiresAt then Some(key.value.record) else None
  }

  /** SET with NX and EX. */
  function Inserted(key: Option<Stored>, record: Record, ttl: real, now: real): (Option<Stored>, bool) {
    if Live(key, now).Some? then (key, false) else (Some(Stored(record, now + ttl)), true)
  }

  /** SET with XX and KEEPTTL. */
  function Overwritten(key: Option<Stored>, record: Record, now: real): (Option<Stored>, bool) {
    if Live(key, now).Some? then (Some(key.value.(record := record)), true) else (key, false)
  }

  predicate TimedOut(record: Record, now: real) {
    record.status == Processing && now - record.createdAt > PROCESSING_TIMEOUT
  }

  /** _handle_existing_key. */
  function Existing(record: Record, now: real): Phase { if TimedOut(record, now) then Stale(now) else Done(Skipped) }

  // ---- steps

  function At(s: System, i: nat, p: Phase): System
    requires i < |s.callers|
  {
    s.(callers := s.callers[i := p])
  }

  predicate In(s: System, i: nat) { i < |s.callers| }

  function NextReserve(s: System, step: Step): (r: System)
    ensures |r.callers| == |s.callers|
  {
    var live := Live(s.key, s.clock);
    match step
    case Find(i) =>
      if !In(s, i) || s.callers[i] != Start then s
      else if live.Some? then At(s, i, Existing(live.value, s.clock)) else At(s, i, Missed(s.clock))
    case SetNx(i) =>
      if !In(s, i) || !s.callers[i].Missed? then s
      else
        var at := s.callers[i].since;
        var (key, ok) := Inserted(s.key, Record(Processing, at), s.ttl, s.clock);
        if ok then At(s, i, Running(at)).(key := key) else At(s, i, Collided(at))
    case Refind(i) =>
      if !In(s, i) || !s.callers[i].Collided? then s
      else if live.Some? then At(s, i, Existing(live.value, s.clock)) else At(s, i, Running(s.callers[i].at))
    case TakeOver(i) =>
      if !In(s, i) || !s.callers[i].Stale? then s
      else
        var at := s.callers[i].at;
        At(s, i, Running(at)).(key := Overwritten(s.key, Record(Processing, at), s.clock).0)
    case _ => s
  }

  function NextRun(s: System, step: Step): (r: System)
    ensures |r.callers| == |s.callers|
  {
    match step
    case Tick(to) => if s.clock <= to then s.(clock := to) else s
    case Return(i) => if In(s, i) && s.callers[i].Running? then At(s, i, Returned(s.callers[i].since)) else s
    case Raise(i) => if In(s, i) && s.callers[i].Running? then At(s, i, Raised(s.callers[i].since)) else s
    case Load(i) =>
      if !In(s, i) || !s.callers[i].Returned? then s
      else
        (match Live(s.key, s.clock)
         case None => At(s, i, Done(Ran))
         case Some(record) => At(s, i, Marking(s.callers[i].since, record)))
    case Store(i) =>
      if !In(s, i) || !s.callers[i].Marking? then s
      else At(s, i, Done(Ran)).(key := Overwritten(s.key, s.callers[i].found.(status := Completed), s.clock).0)
    case Delete(i) => if In(s, i) && s.callers[i].Raised? then At(s, i, Done(Released)).(key := None) else s
    case _ => s
  }

  predicate Reserves(step: Step) { step.Find? || step.SetNx? || step.Refind? || step.TakeOver? }

  function Next(s: System, step: Step): (r: System)
    ensures |r.callers| == |s.callers|
  {
    if Reserves(step) then NextReserve(s, step) else NextRun(s, step)
  }

  function Run(s: System, steps: seq<Step>): (r: System)
    ensures |r.callers| == |s.callers|
    decreases |steps|
  {
    if steps == [] then s else Run(Next(s, steps[0]), steps[1..])
  }

  function Initial(n: nat, ttl: real): System { System(None, 0.0, seq(n, i => Start), ttl) }

  /** Granted and not yet settled: the handler runs, or its key is about to be marked or released. */
  predicate Holds(p: Phase) { p.Running? || p.Returned? || p.Marking? || p.Raised? }

  predicate Granted(p: Phase) { Holds(p) || p == Done(Ran) || p == Done(Released) }

  /** The clock passes neither the key's expiry nor the processing timeout of a delivery since it found no record. */
  predicate InTime(s: System, step: Step) {
    step.Tick? ==>
      && (s.key.Some? ==> step.to < s.key.value.expiresAt)
      && forall i :: 0 <= i < |s.callers| && (Holds(s.callers[i]) || s.callers[i].Missed?) ==>
           step.to - s.callers[i].since <= PROCESSING_TIMEOUT
  }

  predicate StepsInTime(s: System, steps: seq<Step>)
    decreases |steps|
  {
    steps != [] ==> InTime(s, steps[0]) && StepsInTime(Next(s, steps[0]), steps[1..])
  }

  /** Not yet granted or skipped. */
  predicate Undecided(p: Phase) { p.Start? || p.Missed? || p.Collided? }

  /**
    A key is released only while no delivery stands between its failed SET NX and its second look, unless every
    other one is decided.
   */
  predicate SafeRelease(s: System, step: Step) {
    step.Delete? && In(s, step.i) && s.callers[step.i].Raised? ==>
      forall c, k :: 0 <= c < |s.callers| && 0 <= k < |s.callers| && c != k && s.callers[c].Collided? ==> !Undecided(s.callers[k])
  }

  predicate SafelyInTime(s: System, steps: seq<Step>)
    decreases |steps|
  {
    steps != [] ==> InTime(s, steps[0]) && SafeRelease(s, steps[0]) && SafelyInTime(Next(s, steps[0]), steps[1..])
  }

  // ---- what every step keeps

  ghost predicate HolderOk(s: System, i: nat)
    requires i < |s.callers| && Holds(s.callers[i])
  {
    var p := s.callers[i];
    && Live(s.key, s.clock) == Some(Record(Processing, p.since)) && s.clock - p.since <= PROCESSING_TIMEOUT
    && (p.Marking? ==> p.found == Record(Processing, p.since))
  }

  predicate IsHolder(s: System, holder: Option<nat>) {
    holder.Some? ==> holder.value < |s.callers| && Holds(s.callers[holder.value])
  }

  predicate IsWinner(s: System, winner: Option<nat>) {
    winner.Some? ==> winner.value < |s.callers| && s.callers[winner.value] == Done(Ran)
  }

  /** holder is the delivery whose run is in progress, winner the one whose run completed; the key says which. */
  ghost predicate Exclusive(s: System, holder: Option<nat>, winner: Option<nat>)
    requires IsHolder(s, holder)
  {
    && s.ttl > 0.0 && IsWinner(s, winner)
    && (s.key.Some? ==> s.clock < s.key.value.expiresAt)
    && (forall i :: 0 <= i < |s.callers| ==> !s.callers[i].Stale?)
    && (forall i :: 0 <= i < |s.callers| && s.callers[i].Collided? ==> s.key.Some?)
    && (forall i :: 0 <= i < |s.callers| && s.callers[i].Missed? ==> s.clock - s.callers[i].since <= PROCESSING_TIMEOUT)
    && (forall i :: 0 <= i < |s.callers| && Holds(s.callers[i]) ==> holder == Some(i))
    && (forall i :: 0 <= i < |s.callers| && s.callers[i] == Done(Ran) ==> winner == Some(i))
    && (match holder
        case Some(i) => winner.None? && HolderOk(s, i)
        case None => if winner.Some? then s.key.Some? && s.key.value.record.status == Completed else s.key.None?)
  }

  lemma ReservingKeeps(s: System, step: Step, holder: Option<nat>, winner: Option<nat>) returns (h: Option<nat>)
    requires IsHolder(s, holder) && Exclusive(s, holder, winner) && Reserves(step)
    ensures IsHolder(NextReserve(s, step), h) && Exclusive(NextReserve(s, step), h, winner)
  {
    h := holder;
    if In(s, step.i) && step.SetNx? && s.callers[step.i].Missed? && s.key.None? { h := Some(step.i); }
  }

  predicate AnyCollided(s: System) { exists i :: 0 <= i < |s.callers| && s.callers[i].Collided? }

  /** The step releases no key, or none beside a delivery that collided. */
  predicate ReleasesAlone(s: System, step: Step) {
    step.Delete? && In(s, step.i) && s.callers[step.i].Raised? ==> !AnyCollided(s)
  }

  lemma RunningKeeps(s: System, step: Step, holder: Option<nat>, winner: Option<nat>)
    returns (h: Option<nat>, w: Option<nat>)
    requires IsHolder(s, holder) && Exclusive(s, holder, winner) && !Reserves(step)
    requires InTime(s, step) && ReleasesAlone(s, step)
    ensures IsHolder(NextRun(s, step), h) && Exclusive(NextRun(s, step), h, w)
  {
    h, w := holder, winner;
    match step
    case Store(i) => if In(s, i) && s.callers[i].Marking? { h, w := None, Some(i); }
    case Delete(i) => if In(s, i) && s.callers[i].Raised? { h := None; }
    case _ =>
  }

  lemma StepKeeps(s: System, step: Step, holder: Option<nat>, winner: Option<nat>)
    returns (h: Option<nat>, w: Option<nat>)
    requires IsHolder(s, holder) && Exclusive(s, holder, winner) && InTime(s, step) && ReleasesAlone(s, step)
    ensures IsHolder(Next(s, step), h) && Exclusive(Next(s, step), h, w)
  {
    h, w := holder, winner;
    if Reserves(step) { h := ReservingKeeps(s, step, h, w); } else { h, w := RunningKeeps(s, step, h, w); }
  }

  /** Every delivery but one is decided and none of them ran to completion: only that one can ever run. */
  predicate LastOne(s: System, last: nat) {
    forall k :: 0 <= k < |s.callers| && k != last ==> s.callers[k] == Done(Skipped) || s.callers[k] == Done(Released)
  }

  lemma {:induction false} LastOneStays(s: System, steps: seq<Step>, last: nat)
    requires LastOne(s, last)
    ensures LastOne(Run(s, steps), last)
    decreases |steps|
  {
    if steps != [] { LastOneStays(Next(s, steps[0]), steps[1..], last); }
  }

  /** Either the key names the one run there is, or only one delivery is left that can run. */
  ghost predicate Guarded(s: System, holder: Option<nat>, winner: Option<nat>, last: Option<nat>) {
    if last.Some? then LastOne(s, last.value) else IsHolder(s, holder) && Exclusive(s, holder, winner)
  }

  lemma ReleaseLeavesLast(s: System, raised: nat, collided: nat, winner: Option<nat>)
    requires IsHolder(s, Some(raised)) && Exclusive(s, Some(raised), winner) && s.callers[raised].Raised?
    requires collided < |s.callers| && s.callers[collided].Collided?
    requires forall k :: 0 <= k < |s.callers| && k != collided ==> !Undecided(s.callers[k])
    ensures LastOne(Next(s, Delete(raised)), collided)
  {
    forall k | 0 <= k < |s.callers| && k != collided && k != raised
      ensures s.callers[k] == Done(Skipped) || s.callers[k] == Done(Released)
    {
      assert !Holds(s.callers[k]) && s.callers[k] != Done(Ran) && !s.callers[k].Stale?;
      assert s.callers[k].Done?;
      match s.callers[k].ending
      case Skipped => case Ran => case Released =>
    }
  }

  lemma {:induction false} RunKeeps(s: System, steps: seq<Step>, holder: Option<nat>, winner: Option<nat>, last: Option<nat>)
    returns (h: Option<nat>, w: Option<nat>, l: Option<nat>)
    requires Guarded(s, holder, winner, last) && SafelyInTime(s, steps)
    ensures Guarded(Run(s, steps), h, w, l)
    ensures NoRelease(steps) && last.None? ==> l.None?
    decreases |steps|
  {
    h, w, l := holder, winner, last;
    if steps != [] {
      if l.Some? {
        LastOneStays(s, [steps[0]], l.value);
        assert Run(s, [steps[0]]) == Next(s, steps[0]);
      } else if ReleasesAlone(s, steps[0]) {
        h, w := StepKeeps(s, steps[0], h, w);
      } else {
        var c :| 0 <= c < |s.callers| && s.callers[c].Collided?;
        ReleaseLeavesLast(s, steps[0].i, c, w);
        l := Some(c);
      }
      h, w, l := RunKeeps(Next(s, steps[0]), steps[1..], h, w, l);
    }
  }

  predicate RunsOrRan(p: Phase) { Holds(p) || p == Done(Ran) }

  /** Two deliveries run, or ran to completion, or one of each. */
  predicate TwoRun(s: System) {
    exists i, j :: 0 <= i < |s.callers| && 0 <= j < |s.callers| && i != j && RunsOrRan(s.callers[i]) && RunsOrRan(s.callers[j])
  }

  lemma GuardedIsOne(s: System, h: Option<nat>, w: Option<nat>, l: Option<nat>)
    requires Guarded(s, h, w, l)
    ensures !TwoRun(s)
  {
    forall i, j | 0 <= i < |s.callers| && 0 <= j < |s.callers| && i != j && RunsOrRan(s.callers[i])
      ensures !RunsOrRan(s.callers[j])
    {
      if l.None? { assert h == Some(i) || w == Some(i); }
    }
  }

  /**
    In every interleaving of Redis commands in which the key lives, no run outlasts the processing timeout and every
    release is safe: at most one run is in progress, at most one ever completes, and none is in progress beside a
    completed one. UnsafeReleaseBreaks shows that no release less safe than that would do.
   */
  lemma OneRunAtATime(n: nat, ttl: real, steps: seq<Step>)
    requires ttl > 0.0 && SafelyInTime(Initial(n, ttl), steps)
    ensures !TwoRun(Run(Initial(n, ttl), steps))
  {
    var h, w, l := RunKeeps(Initial(n, ttl), steps, None, None, None);
    GuardedIsOne(Run(Initial(n, ttl), steps), h, w, l);
  }

  // ---- exactly when it fails

  lemma {:induction false} RunAppend(s: System, a: seq<Step>, b: seq<Step>)
    ensures Run(s, a + b) == Run(Run(s, a), b)
    decreases |a|
  {
    if a == [] {
      assert a + b == b;
    } else {
      assert (a + b)[1..] == a[1..] + b;
      RunAppend(Next(s, a[0]), a[1..], b);
    }
  }

  lemma RunThree(s: System, a: Step, b: Step, c: Step)
    ensures Run(s, [a, b, c]) == Next(Next(Next(s, a), b), c)
  {
    assert [a, b, c][1..] == [b, c] && [b, c][1..] == [c] && [c][1..] == [];
    assert Run(Next(s, a), [b, c]) == Run(Next(Next(s, a), b), [c]);
    assert Run(Next(Next(s, a), b), [c]) == Run(Next(Next(Next(s, a), b), c), []);
  }

  lemma {:induction false} NoTickIsInTime(s: System, steps: seq<Step>)
    requires forall k :: 0 <= k < |steps| ==> !steps[k].Tick?
    ensures StepsInTime(s, steps)
    decreases |steps|
  {
    if steps != [] { NoTickIsInTime(Next(s, steps[0]), steps[1..]); }
  }

  /** What another undecided delivery does to be granted while there is no key. */
  function Grant(s: System, k: nat): seq<Step>
    requires k < |s.callers|
  {
    match s.callers[k]
    case Start => [Find(k), SetNx(k), SetNx(k)]
    case Missed(_) => [SetNx(k), SetNx(k), SetNx(k)]
    case _ => [Refind(k), Refind(k), Refind(k)]
  }

  lemma GrantRuns(s: System, k: nat)
    requires k < |s.callers| && Undecided(s.callers[k]) && s.key.None?
    ensures var t := Run(s, Grant(s, k));
      && t.callers[k].Running?
      && forall j :: 0 <= j < |s.callers| && j != k ==> t.callers[j] == s.callers[j]
  {
    match s.callers[k]
    case Start =>
      RunThree(s, Find(k), SetNx(k), SetNx(k));
      assert Next(s, Find(k)) == At(s, k, Missed(s.clock));
    case Missed(at) =>
      RunThree(s, SetNx(k), SetNx(k), SetNx(k));
      assert Next(s, SetNx(k)).callers == s.callers[k := Running(at)];
    case Collided(at) =>
      RunThree(s, Refind(k), Refind(k), Refind(k));
      assert Next(s, Refind(k)) == At(s, k, Running(at));
  }

  /** Some continuation of a release, in time, lets two deliveries run. */
  ghost predicate CanBreak(s: System) { exists steps :: StepsInTime(s, steps) && TwoRun(Run(s, steps)) }

  /**
    A release beside a delivery between its failed SET NX and its second look can let two deliveries run, one of them
    without a record, exactly when a third delivery is not decided yet.
   */
  lemma UnsafeReleaseBreaks(s: System, raised: nat, collided: nat, winner: Option<nat>)
    requires IsHolder(s, Some(raised)) && Exclusive(s, Some(raised), winner) && s.callers[raised].Raised?
    requires collided < |s.callers| && s.callers[collided].Collided?
    ensures CanBreak(Next(s, Delete(raised)))
            <==> exists k :: 0 <= k < |s.callers| && k != collided && Undecided(s.callers[k])
    ensures CanBreak(Next(s, Delete(raised))) <==> !SafeRelease(s, Delete(raised))
  {
    var t := Next(s, Delete(raised));
    if k :| 0 <= k < |s.callers| && k != collided && Undecided(s.callers[k]) {
      ReleaseBreaks(t, collided, k);
    } else {
      ReleaseLeavesLast(s, raised, collided, winner);
      forall steps ensures !TwoRun(Run(t, steps)) {
        LastOneStays(t, steps, collided);
        GuardedIsOne(Run(t, steps), None, None, Some(collided));
      }
    }
  }

  lemma ReleaseBreaks(t: System, collided: nat, k: nat)
    requires t.key.None? && collided < |t.callers| && t.callers[collided].Collided?
    requires k < |t.callers| && k != collided && Undecided(t.callers[k])
    ensures CanBreak(t)
  {
    var steps := [Refind(collided), Refind(collided), Refind(collided)] + Grant(t, k);
    var mid := Run(t, [Refind(collided), Refind(collided), Refind(collided)]);
    GrantRuns(t, collided);
    RunThree(t, Refind(collided), Refind(collided), Refind(collided));
    GrantRuns(mid, k);
    RunAppend(t, [Refind(collided), Refind(collided), Refind(collided)], Grant(t, k));
    NoTickIsInTime(t, steps);
    var n := Run(t, steps);
    assert RunsOrRan(n.callers[collided]) && RunsOrRan(n.callers[k]);
  }

  ghost predicate NeverTwo(n: nat, ttl: real, steps: seq<Step>) {
    StepsInTime(Initial(n, ttl), steps) ==> !TwoRun(Run(Initial(n, ttl), steps))
  }

  ghost predicate NeverTwoAnyTime(n: nat, ttl: real, steps: seq<Step>) { !TwoRun(Run(Initial(n, ttl), steps)) }

  /** With two deliveries every release is safe. */
  lemma {:induction false} TwoAreSafe(s: System, steps: seq<Step>)
    requires |s.callers| <= 2 && StepsInTime(s, steps)
    ensures SafelyInTime(s, steps)
    decreases |steps|
  {
    if steps != [] { TwoAreSafe(Next(s, steps[0]), steps[1..]); }
  }

  const COLLIDE := [Find(0), Find(1), SetNx(0)]
  const RELEASE := [SetNx(1), Raise(0), Delete(0)]
  const RUN_BOTH := [Refind(1), Find(2), SetNx(2)]

  /** Three deliveries can run at once two at a time: the first is released between the second's SET NX and second look. */
  lemma ReleaseBesideCollision(n: nat, ttl: real)
    requires n >= 3 && ttl > 0.0
    ensures StepsInTime(Initial(n, ttl), COLLIDE + RELEASE + RUN_BOTH)
    ensures var s := Run(Initial(n, ttl), COLLIDE + RELEASE + RUN_BOTH); s.callers[1].Running? && s.callers[2].Running?
  {
    var s0 := Initial(n, ttl);
    NoTickIsInTime(s0, COLLIDE + RELEASE + RUN_BOTH);
    RunAppend(s0, COLLIDE + RELEASE, RUN_BOTH);
    RunAppend(s0, COLLIDE, RELEASE);
    RunThree(s0, Find(0), Find(1), SetNx(0));
    var s1 := Run(s0, COLLIDE);
    RunThree(s1, SetNx(1), Raise(0), Delete(0));
    var s2 := Run(s1, RELEASE);
    RunThree(s2, Refind(1), Find(2), SetNx(2));
  }

  /**
    Without any assumption on releases, one run at a time holds in every interleaving in which the key lives and no
    run outlasts the processing timeout exactly when at most two deliveries share the key.
   */
  lemma OneRunIff(n: nat, ttl: real)
    requires ttl > 0.0
    ensures (forall steps :: NeverTwo(n, ttl, steps)) <==> n <= 2
  {
    if n <= 2 {
      forall steps ensures NeverTwo(n, ttl, steps) {
        if StepsInTime(Initial(n, ttl), steps) {
          TwoAreSafe(Initial(n, ttl), steps);
          OneRunAtATime(n, ttl, steps);
        }
      }
    } else {
      ReleaseBesideCollision(n, ttl);
      var t := Run(Initial(n, ttl), COLLIDE + RELEASE + RUN_BOTH);
      assert RunsOrRan(t.callers[1]) && RunsOrRan(t.callers[2]);
      assert !NeverTwo(n, ttl, COLLIDE + RELEASE + RUN_BOTH);
    }
  }

  /** Without the assumption on time it holds exactly when there is one delivery: a run may outlast its key. */
  lemma OneRunAnyTimeIff(n: nat, ttl: real)
    requires ttl > 0.0
    ensures (forall steps :: NeverTwoAnyTime(n, ttl, steps)) <==> n <= 1
  {
    if n >= 2 {
      var s0, start, again := Initial(n, ttl), [Find(0), SetNx(0), Tick(ttl)], [Find(1), SetNx(1), SetNx(1)];
      RunThree(s0, Find(0), SetNx(0), Tick(ttl));
      RunThree(Run(s0, start), Find(1), SetNx(1), SetNx(1));
      RunAppend(s0, start, again);
      var t := Run(s0, start + again);
      assert RunsOrRan(t.callers[0]) && RunsOrRan(t.callers[1]);
      assert !NeverTwoAnyTime(n, ttl, start + again);
    }
  }

  lemma BothTakeOver(s: System, i: nat, j: nat)
    requires i < |s.callers| && j < |s.callers| && i != j && s.callers[i] == Start && s.callers[j] == Start
    requires Live(s.key, s.clock).Some? && TimedOut(Live(s.key, s.clock).value, s.clock)
    ensures var t := Run(s, [Find(i), Find(j), TakeOver(i)] + [TakeOver(j)]);
      && t.callers[i].Running? && t.callers[j].Running?
      && forall k :: 0 <= k < |s.callers| && k != i && k != j ==> t.callers[k] == s.callers[k]
  {
    RunThree(s, Find(i), Find(j), TakeOver(i));
    RunAppend(s, [Find(i), Find(j), TakeOver(i)], [TakeOver(j)]);
    var mid := Run(s, [Find(i), Find(j), TakeOver(i)]);
    assert Run(mid, [TakeOver(j)]) == Next(mid, TakeOver(j));
  }

  /** A run that outlasts the timeout is taken over by every delivery that looks before the first takeover. */
  lemma TwoTakeOvers(n: nat, ttl: real)
    requires n >= 3 && ttl > 301.0
    ensures var s := Run(Initial(n, ttl), [Find(0), SetNx(0), Tick(301.0)] + ([Find(1), Find(2), TakeOver(1)] + [TakeOver(2)]));
      s.callers[0].Running? && s.callers[1].Running? && s.callers[2].Running?
  {
    var s0, start := Initial(n, ttl), [Find(0), SetNx(0), Tick(301.0)];
    RunThree(s0, Find(0), SetNx(0), Tick(301.0));
    BothTakeOver(Run(s0, start), 1, 2);
    RunAppend(s0, start, [Find(1), Find(2), TakeOver(1)] + [TakeOver(2)]);
  }

  // ---- exactly one is granted when none is released

  predicate NoRelease(steps: seq<Step>) { forall k :: 0 <= k < |steps| ==> !steps[k].Delete? }

  ghost predicate SkippedForKey(s: System) {
    forall i :: 0 <= i < |s.callers| ==>
      s.callers[i] != Done(Released) && (s.callers[i] == Done(Skipped) ==> s.key.Some?)
  }

  lemma {:induction false} RunSkipsForKey(s: System, steps: seq<Step>)
    requires SkippedForKey(s) && NoRelease(steps)
    ensures SkippedForKey(Run(s, steps))
    decreases |steps|
  {
    if steps != [] {
      assert !steps[0].Delete?;
      assert NoRelease(steps[1..]);
      RunSkipsForKey(Next(s, steps[0]), steps[1..]);
    }
  }

  ghost predicate OneGranted(s: System) {
    exists i ::
      0 <= i < |s.callers| && Granted(s.callers[i]) && forall j :: 0 <= j < |s.callers| && j != i ==> !Granted(s.callers[j])
  }

  lemma {:induction false} NoReleaseIsSafe(s: System, steps: seq<Step>)
    requires NoRelease(steps) && StepsInTime(s, steps)
    ensures SafelyInTime(s, steps)
    decreases |steps|
  {
    if steps != [] {
      assert !steps[0].Delete?;
      assert NoRelease(steps[1..]);
      NoReleaseIsSafe(Next(s, steps[0]), steps[1..]);
    }
  }

  /** No delivery is still inside check_and_reserve or before it. */
  predicate Decided(s: System) { forall i :: 0 <= i < |s.callers| ==> Holds(s.callers[i]) || s.callers[i].Done? }

  lemma SomeGranted(s: System, holder: Option<nat>, winner: Option<nat>)
    requires IsHolder(s, holder) && Exclusive(s, holder, winner) && SkippedForKey(s) && Decided(s) && s.callers != []
    ensures holder.Some? || winner.Some?
  {
    var first := s.callers[0];
    if first.Done? && first.ending == Skipped { assert s.key.Some?; }
  }

  lemma DecidedGrantsOne(s: System, holder: Option<nat>, winner: Option<nat>)
    requires IsHolder(s, holder) && Exclusive(s, holder, winner) && SkippedForKey(s) && (holder.Some? || winner.Some?)
    ensures OneGranted(s)
  {
    var i := if holder.Some? then holder.value else winner.value;
    forall j | 0 <= j < |s.callers| && j != i ensures !Granted(s.callers[j]) {
      assert holder != Some(j) && winner != Some(j);
    }
    assert Granted(s.callers[i]);
  }

  /** Any interleaving of find, SET NX and second look without a release grants exactly one of the deliveries. */
  lemma ExactlyOneGranted(n: nat, ttl: real, steps: seq<Step>)
    requires n > 0 && ttl > 0.0 && NoRelease(steps) && StepsInTime(Initial(n, ttl), steps)
    requires Decided(Run(Initial(n, ttl), steps))
    ensures OneGranted(Run(Initial(n, ttl), steps))
  {
    NoReleaseIsSafe(Initial(n, ttl), steps);
    RunSkipsForKey(Initial(n, ttl), steps);
    var h, w, l := RunKeeps(Initial(n, ttl), steps, None, None, None);
    SomeGranted(Run(Initial(n, ttl), steps), h, w);
    DecidedGrantsOne(Run(Initial(n, ttl), steps), h, w);
  }

  // ---- check_and_reserve as one step

  /** check_and_reserve without interruption. */
  function Reserve(s: System, i: nat): (r: System)
    ensures |r.callers| == |s.callers|
  {
    Next(Next(Next(Next(s, Find(i)), SetNx(i)), Refind(i)), TakeOver(i))
  }

  /** A step that belongs to check_and_reserve stands for the whole of it. */
  function NextCoarse(s: System, step: Step): (r: System)
    ensures |r.callers| == |s.callers|
  {
    if Reserves(step) then Reserve(s, step.i) else NextRun(s, step)
  }

  function RunCoarse(s: System, steps: seq<Step>): (r: System)
    ensures |r.callers| == |s.callers|
    decreases |steps|
  {
    if steps == [] then s else RunCoarse(NextCoarse(s, steps[0]), steps[1..])
  }

  predicate CoarseInTime(s: System, steps: seq<Step>)
    decreases |steps|
  {
    steps != [] ==> InTime(s, steps[0]) && CoarseInTime(NextCoarse(s, steps[0]), steps[1..])
  }

  /** What check_and_reserve decides, by the record it finds. */
  lemma ReserveIs(s: System, i: nat)
    requires i < |s.callers| && s.callers[i] == Start && s.ttl > 0.0
    ensures var live := Live(s.key, s.clock); var record := Record(Processing, s.clock);
      Reserve(s, i) ==
        if live.None? then At(s, i, Running(s.clock)).(key := Some(Stored(record, s.clock + s.ttl)))
        else if live.value.status == Processing && s.clock - live.value.createdAt > 300.0
        then At(s, i, Running(s.clock)).(key := Some(s.key.value.(record := record)))
        else At(s, i, Done(Skipped))
  {
    var s1 := Next(s, Find(i));
    var s2 := Next(s1, SetNx(i));
    var s3 := Next(s2, Refind(i));
    assert s1.callers[i] != Start;
  }

  predicate Settled(s: System) {
    forall i :: 0 <= i < |s.callers| ==> !s.callers[i].Missed? && !s.callers[i].Collided? && !s.callers[i].Stale?
  }

  lemma ReserveKeeps(s: System, i: nat, holder: Option<nat>, winner: Option<nat>) returns (h: Option<nat>)
    requires Settled(s) && IsHolder(s, holder) && Exclusive(s, holder, winner)
    ensures Settled(Reserve(s, i)) && IsHolder(Reserve(s, i), h) && Exclusive(Reserve(s, i), h, winner)
  {
    h := holder;
    if In(s, i) && s.callers[i] == Start {
      ReserveIs(s, i);
      if holder.None? && winner.None? { h := Some(i); }
    }
  }

  lemma {:induction false} CoarseKeeps(s: System, steps: seq<Step>, holder: Option<nat>, winner: Option<nat>)
    returns (h: Option<nat>, w: Option<nat>)
    requires Settled(s) && IsHolder(s, holder) && Exclusive(s, holder, winner) && CoarseInTime(s, steps)
    ensures Settled(RunCoarse(s, steps)) && IsHolder(RunCoarse(s, steps), h) && Exclusive(RunCoarse(s, steps), h, w)
    decreases |steps|
  {
    h, w := holder, winner;
    if steps != [] {
      if Reserves(steps[0]) { h := ReserveKeeps(s, steps[0].i, h, w); }
      else { h, w := StepKeeps(s, steps[0], h, w); }
      h, w := CoarseKeeps(NextCoarse(s, steps[0]), steps[1..], h, w);
    }
  }

  /** With check_and_reserve as one step, releases need no such care. */
  lemma OneCoarseRunAtATime(n: nat, ttl: real, steps: seq<Step>, i: nat, j: nat)
    requires ttl > 0.0 && CoarseInTime(Initial(n, ttl), steps) && i < j < n
    ensures var s := RunCoarse(Initial(n, ttl), steps); !(RunsOrRan(s.callers[i]) && RunsOrRan(s.callers[j]))
  {
    var h, w := CoarseKeeps(Initial(n, ttl), steps, None, None);
  }

  /**
    A delivery is then granted exactly when no run is in progress and none completed: after a run that raised and was
    released the retry runs, and after one that completed none does.
   */
  lemma GrantedIff(n: nat, ttl: real, steps: seq<Step>, i: nat)
    requires ttl > 0.0 && CoarseInTime(Initial(n, ttl), steps) && i < n
    requires RunCoarse(Initial(n, ttl), steps).callers[i] == Start
    ensures var s := RunCoarse(Initial(n, ttl), steps);
      Holds(Reserve(s, i).callers[i]) <==> forall j :: 0 <= j < n ==> !RunsOrRan(s.callers[j])
  {
    var s := RunCoarse(Initial(n, ttl), steps);
    var h, w := CoarseKeeps(Initial(n, ttl), steps, None, None);
    ReserveIs(s, i);
  }

  // ---- the code itself

  function KeyOf(keys: map<string, Stored>, key: string): Option<Stored> { if key in keys then Some(keys[key]) else None }

  function Put(keys: map<string, Stored>, key: string, value: Option<Stored>): map<string, Stored> {
    if value.Some? then keys[key := value.value] else keys - {key}
  }

  /** One delivery's view of the store. */
  function View(keys: map<string, Stored>, key: string, clock: real, phase: Phase, ttl: real): System {
    System(KeyOf(keys, key), clock, [phase], ttl)
  }

  /** The commands of check_and_reserve. */
  const COMMANDS := [Find(0), SetNx(0), Refind(0), TakeOver(0)]

  /** The delivery's own moves in a trace of what it found before each command; others may change the store between. */
  predicate OwnMoves(trace: seq<System>) {
    && |trace| == 4
    && (forall k :: 0 <= k < 4 ==> |trace[k].callers| == 1)
    && (forall k :: 0 <= k < 3 ==> trace[k + 1].callers == Next(trace[k], COMMANDS[k]).callers)
  }

  lemma ExistingTrace(start: System, before: System)
    requires start.callers == [Start] && Live(start.key, start.clock).Some?
    requires before.callers == [Existing(Live(start.key, start.clock).value, start.clock)]
    ensures OwnMoves([start, before, before, before])
  {
  }

  lemma MissedTrace(start: System, missed: System, collided: System, before: System)
    requires start.callers == [Start] && Live(start.key, start.clock).None? && missed.callers == [Missed(start.clock)]
    requires collided.callers == Next(missed, SetNx(0)).callers && before.callers == Next(collided, Refind(0)).callers
    ensures OwnMoves([start, missed, collided, before])
  {
  }

  class RedisIdempotencyRepository {
    var keys: map<string, Stored>
    var clock: real

    constructor ()
      ensures keys == map[] && clock == 0.0
    {
      keys, clock := map[], 0.0;
    }

    function FindByKey(key: string): Option<Record>
      reads this
    {
      Live(KeyOf(keys, key), clock)
    }

    method InsertProcessing(key: string, createdAt: real, ttl: real) returns (ok: bool)
      modifies this`keys
      ensures (KeyOf(keys, key), ok) == Inserted(KeyOf(old(keys), key), Record(Processing, createdAt), ttl, clock)
      ensures keys == Put(old(keys), key, KeyOf(keys, key))
    {
      if key in keys && clock < keys[key].expiresAt { return false; }
      keys := keys[key := Stored(Record(Processing, createdAt), clock + ttl)];
      ok := true;
    }

    method UpdateRecord(key: string, record: Record) returns (written: bool)
      modifies this`keys
      ensures written == FindByKey(key).Some? == old(FindByKey(key).Some?)
      ensures keys == Put(old(keys), key, Overwritten(KeyOf(old(keys), key), record, clock).0)
    {
      written := key in keys && clock < keys[key].expiresAt;
      if written { keys := keys[key := keys[key].(record := record)]; }
    }

    method DeleteKey(key: string)
      modifies this`keys
      ensures keys == old(keys) - {key}
    {
      keys := keys - {key};
    }
  }

  /** What happens between two commands of a delivery: nothing, or others leave these keys and time passes. */
  datatype Between = Nothing | Others(keys: map<string, Stored>, clock: real)

  class IdempotencyManager {
    const repo: RedisIdempotencyRepository

    constructor (repo: RedisIdempotencyRepository)
      ensures this.repo == repo
    {
      this.repo := repo;
    }

    /** Other deliveries may act, and time may pass, between two commands. */
    method Wait(between: Between)
      modifies repo
      ensures repo.keys == if between.Others? then between.keys else old(repo.keys)
      ensures repo.clock == if between.Others? && between.clock > old(repo.clock) then between.clock else old(repo.clock)
    {
      if between.Others? {
        repo.keys := between.keys;
        if between.clock > repo.clock { repo.clock := between.clock; }
      }
    }

    /** _handle_existing_key for a record found just now; before is the store at the takeover. */
    method HandleExistingKey(key: string, existing: Record, between: Between, ghost ttl: real)
      returns (granted: bool, ghost before: System)
      modifies repo
      ensures old(repo.clock) <= repo.clock && before.callers == [Existing(existing, old(repo.clock))]
      ensures var after := Next(before, TakeOver(0));
        granted == Holds(after.callers[0]) && after == View(repo.keys, key, repo.clock, after.callers[0], ttl)
      ensures between.Nothing? ==>
        && before == View(old(repo.keys), key, old(repo.clock), before.callers[0], ttl)
        && repo.keys - {key} == old(repo.keys) - {key}
    {
      var now := repo.clock;
      before := View(repo.keys, key, now, Existing(existing, now), ttl);
      if existing.status != Processing || now - existing.createdAt <= PROCESSING_TIMEOUT { return false, before; }
      Wait(between);
      before := View(repo.keys, key, repo.clock, Stale(now), ttl);
      var written := repo.UpdateRecord(key, existing.(createdAt := now, status := Processing));
      granted := true;
    }

    /** _create_new_key; the ghost results are the store before SET NX, the second look and the takeover. */
    method CreateNewKey(key: string, ttl: real, first: Between, second: Between, third: Between)
      returns (granted: bool, ghost missed: System, ghost collided: System, ghost before: System)
      requires ttl > 0.0 && repo.FindByKey(key).None?
      modifies repo
      ensures missed.callers == [Missed(old(repo.clock))]
      ensures collided.callers == Next(missed, SetNx(0)).callers && before.callers == Next(collided, Refind(0)).callers
      ensures var after := Next(before, TakeOver(0));
        granted == Holds(after.callers[0]) && after == View(repo.keys, key, repo.clock, after.callers[0], ttl)
      ensures first.Nothing? ==>
        && granted && repo.clock == old(repo.clock) && repo.keys - {key} == old(repo.keys) - {key}
        && KeyOf(repo.keys, key) == Some(Stored(Record(Processing, old(repo.clock)), old(repo.clock) + ttl))
    {
      var createdAt := repo.clock;
      Wait(first);
      missed := View(repo.keys, key, repo.clock, Missed(createdAt), ttl);
      granted := repo.InsertProcessing(key, createdAt, ttl);
      if granted {
        collided := View(repo.keys, key, repo.clock, Running(createdAt), ttl);
        before := collided;
        return;
      }
      Wait(second);
      collided := View(repo.keys, key, repo.clock, Collided(createdAt), ttl);
      var existing := repo.FindByKey(key);
      if existing.None? {
        before := Next(collided, Refind(0));
        granted := true;
        return;
      }
      granted, before := HandleExistingKey(key, existing.value, third, ttl);
    }

    /**
      check_and_reserve, with other deliveries acting between its commands: a run of the machine's commands on what it
      finds before each of them, and Reserve when nobody acts.
     */
    method CheckAndReserve(key: string, ttl: real, first: Between, second: Between, third: Between)
      returns (granted: bool, ghost trace: seq<System>)
      requires ttl > 0.0
      modifies repo
      ensures OwnMoves(trace) && trace[0] == View(old(repo.keys), key, old(repo.clock), Start, ttl)
      ensures var after := Next(trace[3], TakeOver(0));
        granted == Holds(after.callers[0]) && after == View(repo.keys, key, repo.clock, after.callers[0], ttl)
      ensures first.Nothing? && third.Nothing? ==>
        && Next(trace[3], TakeOver(0)) == Reserve(trace[0], 0)
        && repo.clock == old(repo.clock) && repo.keys - {key} == old(repo.keys) - {key}
    {
      ghost var start := View(repo.keys, key, repo.clock, Start, ttl);
      ReserveIs(start, 0);
      var existing := repo.FindByKey(key);
      if existing.Some? {
        ghost var before;
        granted, before := HandleExistingKey(key, existing.value, third, ttl);
        ExistingTrace(start, before);
        return granted, [start, before, before, before];
      }
      ghost var missed, collided, before;
      granted, missed, collided, before := CreateNewKey(key, ttl, first, second, third);
      MissedTrace(start, missed, collided, before);
      trace := [start, missed, collided, before];
    }

    method MarkCompleted(key: string) returns (ok: bool)
      modifies repo`keys
      ensures ok == old(repo.FindByKey(key).Some?)
      ensures !ok ==> repo.keys == old(repo.keys)
      ensures ok ==>
        var stored := old(repo.keys)[key];
        repo.keys == Put(old(repo.keys), key, Some(stored.(record := stored.record.(status := Completed))))
    {
      var existing := repo.FindByKey(key);
      if existing.None? { return false; }
      ok := repo.UpdateRecord(key, existing.value.(status := Completed));
    }

    /**
      IdempotencyMiddleware.consume_scope around a handler that takes some seconds and returns or raises: a raise
      leaves no key, and, if nobody else acts, a return leaves a completed one unless it expired and a skipped
      delivery changes nothing.
     */
    method ConsumeScope(key: string, ttl: real, seconds: real, succeeds: bool, first: Between, second: Between, third: Between)
      returns (ran: bool, raised: bool)
      requires ttl > 0.0 && seconds >= 0.0
      modifies repo
      ensures raised == (ran && !succeeds)
      ensures raised ==> key !in repo.keys
      ensures first.Nothing? && third.Nothing? ==>
        && (ran <==>
              var found := old(repo.FindByKey(key));
              found.None? || (found.value.status == Processing && old(repo.clock) - found.value.createdAt > 300.0))
        && repo.clock == old(repo.clock) + (if ran then seconds else 0.0)
        && repo.keys - {key} == old(repo.keys) - {key}
        && (!ran ==> KeyOf(repo.keys, key) == old(KeyOf(repo.keys, key)))
        && (ran && !raised && old(repo.FindByKey(key)).None? && seconds < ttl ==>
              repo.FindByKey(key) == Some(Record(Completed, old(repo.clock))))
    {
      raised := false;
      ReserveIs(View(repo.keys, key, repo.clock, Start, ttl), 0);
      ghost var trace;
      ran, trace := CheckAndReserve(key, ttl, first, second, third);
      if !ran { return; }
      repo.clock := repo.clock + seconds;
      if !succeeds {
        repo.DeleteKey(key);
        return true, true;
      }
      var ok := MarkCompleted(key);
    }
  }
}

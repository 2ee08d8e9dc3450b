/**
  The scheduler's consumer group, whose router wraps the idempotency middleware in the dead-letter one
  (scheduler_router in events/handlers.py): the dead-letter protocol with a handler that runs under the event's
  idempotency key. Redis may raise in each call of the middleware.
 */
module RetriedDelivery {
  import opened Options
  import D = DeadLetter
  import I = Idempotency

  /** The scheduler's group in the protocol. */
  const SCHEDULER: nat := 0

  const TTL := 3600.0

  /** run is when the running handler was reserved, and returned says that a handler run has returned. */
  datatype System = System(world: D.World, key: Option<I.Stored>, clock: real, run: Option<real>, returned: bool)

  // Fails is a handler that raised, and whether its key was deleted; BeginRaises a reservation that raised.
  datatype Step =
    | Protocol(step: D.Step)
    | Tick(to: real)
    | Begin
    | BeginRaises(stored: bool)
    | Returns(completed: bool, raises: bool)
    | Fails(deleted: bool)

  predicate Awaits(s: System) {
    |s.world.groups| > SCHEDULER && s.world.groups[SCHEDULER].at.Handling? && s.run.None?
  }

  /** The scheduler's handler is not a protocol step of its own, and the protocol reads the clock. */
  predicate Allowed(s: System, step: D.Step) {
    match step
    case Handled(g, _) => g != SCHEDULER
    case Decide(_, now, random, _) => now == s.clock && 0.0 <= random < 1.0
    case Fetch(_, now) => now <= s.clock
    case _ => true
  }

  /** The record check_and_reserve leaves when it grants the delivery. */
  function Reserved(key: Option<I.Stored>, clock: real): Option<I.Stored> {
    if I.Live(key, clock).None? then Some(I.Stored(I.Record(I.Processing, clock), clock + TTL))
    else if I.TimedOut(key.value.record, clock) then Some(key.value.(record := I.Record(I.Processing, clock)))
    else key
  }

  predicate Grants(key: Option<I.Stored>, clock: real) {
    I.Live(key, clock).None? || I.TimedOut(key.value.record, clock)
  }

  lemma ReservedIsReserve(key: Option<I.Stored>, clock: real)
    ensures var r := I.Reserve(I.System(key, clock, [I.Start], TTL), 0);
      Grants(key, clock) == I.Holds(r.callers[0]) && Reserved(key, clock) == r.key
  {
    I.ReserveIs(I.System(key, clock, [I.Start], TTL), 0);
  }

  function Completed(key: Option<I.Stored>, clock: real): Option<I.Stored> {
    if I.Live(key, clock).Some? then Some(key.value.(record := key.value.record.(status := I.Completed))) else key
  }

  /** The middleware returned or raised, and so the delivery is handled or goes to the dead-letter queue. */
  function Settled(s: System, ok: bool): D.World { D.Next(s.world, D.Handled(SCHEDULER, ok)) }

  function Next(s: System, step: Step): System {
    match step
    case Protocol(d) => if Allowed(s, d) then s.(world := D.Next(s.world, d)) else s
    case Tick(to) => if s.clock <= to then s.(clock := to) else s
    case Begin =>
      if !Awaits(s) then s
      else if Grants(s.key, s.clock) then s.(key := Reserved(s.key, s.clock), run := Some(s.clock))
      else s.(world := Settled(s, true))
    case BeginRaises(stored) =>
      if !Awaits(s) then s
      else s.(key := if stored then Reserved(s.key, s.clock) else s.key, world := Settled(s, false))
    case Returns(completed, raises) =>
      if s.run.None? then s
      else s.(key := if completed then Completed(s.key, s.clock) else s.key,
              world := Settled(s, !raises), run := None, returned := true)
    case Fails(deleted) =>
      if s.run.None? then s
      else s.(key := if deleted then None else s.key, world := Settled(s, false), run := None)
  }

  function Run(s: System, steps: seq<Step>): System
    decreases |steps|
  {
    if steps == [] then s else Run(Next(s, steps[0]), steps[1..])
  }

  function Initial(n: nat, filtered: bool): System { System(D.Initial(n, filtered), None, 0.0, None, false) }

  function Group(s: System): D.Group
    requires |s.world.groups| > SCHEDULER
  {
    s.world.groups[SCHEDULER]
  }

  // ---- when a failure is lost

  /** The event counts as handled, but no handler run ever returned. */
  predicate Lost(s: System) {
    |s.world.groups| > SCHEDULER && Group(s).outcome == Some(D.Succeeded) && !s.returned
  }

  /** A delivery is skipped for a record that a failed one left. */
  predicate SkipsFailure(s: System, step: Step) { step.Begin? && Awaits(s) && !Grants(s.key, s.clock) && !s.returned }

  predicate EverSkips(s: System, steps: seq<Step>)
    decreases |steps|
  {
    steps != [] && (SkipsFailure(s, steps[0]) || EverSkips(Next(s, steps[0]), steps[1..]))
  }

  ghost predicate Ok(s: System) {
    && D.Good(s.world) && |s.world.groups| > SCHEDULER
    && (s.run.Some? ==> Group(s).at.Handling?)
    && (s.key.Some? && s.key.value.record.status == I.Completed ==> s.returned)
  }

  /** While the scheduler's handler has the event, the protocol leaves it there; and it ends no delivery well. */
  lemma ProtocolLeavesHandler(w: D.World, d: D.Step)
    requires D.Good(w) && |w.groups| > SCHEDULER && (d.Handled? ==> d.g != SCHEDULER)
    ensures var x, y := w.groups[SCHEDULER], D.Next(w, d).groups[SCHEDULER];
      && (x.at.Handling? ==> y.at == x.at)
      && (x.outcome == Some(D.Succeeded) <==> y.outcome == Some(D.Succeeded))
  {
    assert D.GroupOk(w.groups[SCHEDULER], SCHEDULER, D.Claim(w.task, SCHEDULER));
    if D.IsConsumer(d) { D.ConsumerSets(w, d); } else { D.ProcessorKeepsOutcome(w, d, SCHEDULER); }
  }

  lemma ProtocolLoses(s: System, d: D.Step)
    requires Ok(s)
    ensures Ok(Next(s, Protocol(d))) && (Lost(Next(s, Protocol(d))) <==> Lost(s))
  {
    D.NextKeeps(s.world, d);
    if Allowed(s, d) { ProtocolLeavesHandler(s.world, d); }
  }

  lemma SettledLoses(w: D.World, ok: bool)
    requires D.Good(w) && |w.groups| > SCHEDULER && w.groups[SCHEDULER].at.Handling?
    ensures var v := D.Next(w, D.Handled(SCHEDULER, ok));
      && D.Good(v) && |v.groups| == |w.groups| && !v.groups[SCHEDULER].at.Handling?
      && w.groups[SCHEDULER].outcome.None? && (v.groups[SCHEDULER].outcome == Some(D.Succeeded) <==> ok)
  {
    assert D.GroupOk(w.groups[SCHEDULER], SCHEDULER, D.Claim(w.task, SCHEDULER));
    D.NextKeeps(w, D.Handled(SCHEDULER, ok));
  }

  lemma BeginLoses(s: System, step: Step)
    requires Ok(s) && (step.Begin? || step.BeginRaises?)
    ensures Ok(Next(s, step))
    ensures Lost(Next(s, step)) <==> Lost(s) || SkipsFailure(s, step)
  {
    if Awaits(s) { SettledLoses(s.world, step.Begin?); }
  }

  lemma EndLoses(s: System, step: Step)
    requires Ok(s) && (step.Returns? || step.Fails?)
    ensures Ok(Next(s, step))
    ensures Lost(Next(s, step)) <==> Lost(s)
  {
    if s.run.Some? { SettledLoses(s.world, step.Returns? && !step.raises); }
  }

  lemma StepLoses(s: System, step: Step)
    requires Ok(s)
    ensures Ok(Next(s, step))
    ensures Lost(Next(s, step)) <==> Lost(s) || SkipsFailure(s, step)
  {
    match step
    case Protocol(d) => ProtocolLoses(s, d);
    case Tick(_) =>
    case Begin => BeginLoses(s, step);
    case BeginRaises(_) => BeginLoses(s, step);
    case Returns(_, _) => EndLoses(s, step);
    case Fails(_) => EndLoses(s, step);
  }

  lemma {:induction false} RunLoses(s: System, steps: seq<Step>)
    requires Ok(s)
    ensures Ok(Run(s, steps))
    ensures Lost(Run(s, steps)) <==> Lost(s) || EverSkips(s, steps)
    decreases |steps|
  {
    if steps != [] {
      StepLoses(s, steps[0]);
      RunLoses(Next(s, steps[0]), steps[1..]);
    }
  }

  lemma InitialIsOk(n: nat, filtered: bool)
    requires n > SCHEDULER
    ensures Ok(Initial(n, filtered))
  {
    D.InitialIsGood(n, filtered);
  }

  /** An event counts as handled without any run that returned exactly when a delivery was skipped for such a record. */
  lemma LostIff(n: nat, filtered: bool, steps: seq<Step>)
    requires n > SCHEDULER
    ensures Lost(Run(Initial(n, filtered), steps)) <==> EverSkips(Initial(n, filtered), steps)
  {
    InitialIsOk(n, filtered);
    RunLoses(Initial(n, filtered), steps);
  }

  /** The delivery raised but left its record behind. */
  predicate LeavesRecord(step: Step) { step == Fails(false) || step == BeginRaises(true) }

  lemma {:induction false} CleanRun(s: System, steps: seq<Step>)
    requires Ok(s) && (!s.returned && s.run.None? ==> s.key.None?)
    requires forall k | 0 <= k < |steps| :: !LeavesRecord(steps[k])
    ensures !EverSkips(s, steps)
    decreases |steps|
  {
    if steps != [] {
      StepLoses(s, steps[0]);
      CleanRun(Next(s, steps[0]), steps[1..]);
    }
  }

  /** No failure is lost in a run in which every delivery that raises leaves no record. */
  lemma NoneLostIfReleased(n: nat, filtered: bool, steps: seq<Step>)
    requires n > SCHEDULER && forall k | 0 <= k < |steps| :: !LeavesRecord(steps[k])
    ensures !Lost(Run(Initial(n, filtered), steps))
  {
    InitialIsOk(n, filtered);
    CleanRun(Initial(n, filtered), steps);
    LostIff(n, filtered, steps);
  }

  /** A delivery that ends, by returning or raising, is handled or is the dead-letter queue's to save. */
  lemma DeliveryEnds(s: System, step: Step)
    requires Ok(s)
    ensures step.Returns? && s.run.Some? ==>
      if !step.raises then Group(Next(s, step)).outcome == Some(D.Succeeded)
      else !s.world.filtered ==> Group(Next(s, step)).at.Saving?
    ensures step.Fails? && s.run.Some? && !s.world.filtered ==> Group(Next(s, step)).at.Saving?
    ensures step.BeginRaises? && Awaits(s) && !s.world.filtered ==>
      && Group(Next(s, step)).at.Saving? && Next(s, step).run.None?
      && (step.stored && I.Live(s.key, s.clock).None? ==>
            Next(s, step).key == Some(I.Stored(I.Record(I.Processing, s.clock), s.clock + 3600.0)))
  {
  }

  // ---- a completed record keeps the handler from running again

  lemma StepKeepsCompleted(s: System, step: Step)
    requires s.run.None? && s.key.Some? && s.key.value.record.status == I.Completed && s.clock < s.key.value.expiresAt
    ensures Next(s, step).run.None? && Next(s, step).key == s.key
  {
  }

  lemma {:induction false} CompletedStays(s: System, steps: seq<Step>)
    requires s.run.None? && s.key.Some? && s.key.value.record.status == I.Completed
    requires Run(s, steps).clock < s.key.value.expiresAt
    ensures Run(s, steps).run.None? && Run(s, steps).key == s.key
    decreases |steps|
  {
    ClockGrows(s, steps);
    if steps != [] {
      StepKeepsCompleted(s, steps[0]);
      CompletedStays(Next(s, steps[0]), steps[1..]);
    }
  }

  lemma {:induction false} ClockGrows(s: System, steps: seq<Step>)
    ensures s.clock <= Run(s, steps).clock
    decreases |steps|
  {
    if steps != [] { ClockGrows(Next(s, steps[0]), steps[1..]); }
  }

  /** Once a run that returned is marked completed, no delivery runs the handler again before the record expires. */
  lemma CompletedRunIsLast(s: System, raises: bool, steps: seq<Step>)
    requires s.run.Some? && I.Live(s.key, s.clock).Some?
    requires Run(Next(s, Returns(true, raises)), steps).clock < s.key.value.expiresAt
    ensures Run(Next(s, Returns(true, raises)), steps).run.None?
  {
    CompletedStays(Next(s, Returns(true, raises)), steps);
  }

  /** A delivery that is granted where no record is holds the key for an hour. */
  lemma ReservedForAnHour(s: System)
    requires Awaits(s) && I.Live(s.key, s.clock).None?
    ensures Next(s, Begin).key == Some(I.Stored(I.Record(I.Processing, s.clock), s.clock + 3600.0))
    ensures Next(s, Begin).run == Some(s.clock)
  {
  }

  // ---- when a failure that left its record can be lost

  /** No delivery begins. */
  predicate NoneBegins(steps: seq<Step>) { forall k :: 0 <= k < |steps| ==> !steps[k].Begin? && !steps[k].BeginRaises? }

  /** Some continuation leads to the next delivery, which is skipped for the record. */
  ghost predicate CanLose(s: System) {
    exists steps :: NoneBegins(steps) && SkipsFailure(Run(s, steps), Begin)
  }

  /** The retryCount-th delivery was reserved at since and has just raised, and its record is still there. */
  ghost predicate LeftRecord(s: System, retryCount: nat, since: real) {
    && Ok(s) && s.run.None? && !s.returned && Group(s).at == D.Saving(retryCount)
    && s.key.Some? && s.key.value.record == I.Record(I.Processing, since) && since <= s.clock
  }

  /** The earliest moment its retry can be due. */
  function EarliestRetry(s: System, retryCount: nat): real { s.clock + 0.9 * D.Delay(retryCount) }

  /**
    Where the failed delivery can be before its next one begins: with the consumer, ended, scheduled for not before
    due, or, from then on, anywhere.
   */
  ghost predicate Delayed(s: System, first: System, retryCount: nat, due: real)
    requires |s.world.groups| > SCHEDULER
  {
    var x := Group(s);
    && s.key == first.key && s.run.None? && s.returned == first.returned && first.clock <= s.clock
    && (|| x.at == D.Saving(retryCount) || x.at == D.Reporting(retryCount) || x.at == D.Deciding(retryCount)
        || x.outcome.Some?
        || (retryCount < D.MAX_RETRIES
            && (due <= s.clock
                || (D.OnSchedule(x) && x.row.value.nextRetryAt.Some? && due <= x.row.value.nextRetryAt.value
                    && !D.Batched(s.world.batch, SCHEDULER)))))
  }

  /** A processor step changes only the inbox of a group that is neither claimed nor in its batch. */
  lemma ProcessorLeaves(w: D.World, d: D.Step, g: nat)
    requires g < |w.groups| && !D.IsConsumer(d) && D.Claim(w.task, g).None? && !D.Batched(w.batch, g)
    ensures var x, y := w.groups[g], D.Next(w, d).groups[g];
      y.at == x.at && y.row == x.row && y.outcome == x.outcome && y.ran == x.ran && y.published == x.published
    ensures !d.Fetch? ==> !D.Batched(D.Next(w, d).batch, g)
  {
    if d.Mark? && w.task.Idle? && w.batch != [] { assert w.batch[0].group != g; }
  }

  lemma DecisionIsLate(retryCount: nat, now: real, random: real, first: real)
    requires first <= now && 0.0 <= random < 1.0
    ensures first + 0.9 * D.Delay(retryCount) <= D.NextRetryTime(retryCount, now, random)
  {
    D.RetryTimes(retryCount, now, random);
  }

  lemma ConsumerKeepsDelayed(s: System, d: D.Step, first: System, retryCount: nat)
    requires Ok(s) && Delayed(s, first, retryCount, EarliestRetry(first, retryCount)) && Allowed(s, d) && D.IsConsumer(d)
    ensures |D.Next(s.world, d).groups| > SCHEDULER
    ensures Delayed(s.(world := D.Next(s.world, d)), first, retryCount, EarliestRetry(first, retryCount))
  {
    var x := Group(s);
    assert D.GroupOk(x, SCHEDULER, D.Claim(s.world.task, SCHEDULER));
    D.ConsumerSets(s.world, d);
    if d.Decide? { DecisionIsLate(retryCount, d.now, d.random, first.clock); }
    if d.Decide? && d.g == SCHEDULER && x.at.Deciding? { NotBatchedWhileHandled(s.world); }
  }

  lemma NotBatchedWhileHandled(w: D.World)
    requires D.Good(w) && |w.groups| > SCHEDULER && !w.groups[SCHEDULER].at.Waiting?
    ensures !D.Batched(w.batch, SCHEDULER) && D.Claim(w.task, SCHEDULER).None?
  {
    assert D.GroupOk(w.groups[SCHEDULER], SCHEDULER, D.Claim(w.task, SCHEDULER));
  }

  lemma NotBatchedOnceEnded(w: D.World)
    requires D.Good(w) && |w.groups| > SCHEDULER && w.groups[SCHEDULER].outcome.Some?
    ensures !D.Batched(w.batch, SCHEDULER) && D.Claim(w.task, SCHEDULER).None?
  {
    assert D.GroupOk(w.groups[SCHEDULER], SCHEDULER, D.Claim(w.task, SCHEDULER));
  }

  lemma ProcessorKeepsDelayed(s: System, d: D.Step, first: System, retryCount: nat)
    requires Ok(s) && Delayed(s, first, retryCount, EarliestRetry(first, retryCount)) && Allowed(s, d) && !D.IsConsumer(d)
    ensures |D.Next(s.world, d).groups| > SCHEDULER
    ensures Delayed(s.(world := D.Next(s.world, d)), first, retryCount, EarliestRetry(first, retryCount))
  {
    var x, due := Group(s), EarliestRetry(first, retryCount);
    D.NextKeeps(s.world, d);
    if !x.at.Waiting? { NotBatchedWhileHandled(s.world); }
    else if x.outcome.Some? { NotBatchedOnceEnded(s.world); }
    else if s.clock < due {
      assert D.GroupOk(x, SCHEDULER, D.Claim(s.world.task, SCHEDULER));
      if d.Fetch? && D.Batched(D.Next(s.world, d).batch, SCHEDULER) { FetchedIsDue(s.world, d); }
    }
    if !D.Batched(s.world.batch, SCHEDULER) && D.Claim(s.world.task, SCHEDULER).None? {
      ProcessorLeaves(s.world, d, SCHEDULER);
    }
  }

  lemma FetchedIsDue(w: D.World, d: D.Step)
    requires d.Fetch? && |w.groups| > SCHEDULER && !D.Batched(w.batch, SCHEDULER) && D.Batched(D.Next(w, d).batch, SCHEDULER)
    ensures var row := w.groups[SCHEDULER].row; row.Some? && row.value.nextRetryAt.Some? && row.value.nextRetryAt.value <= d.now
  {
    var v := D.Next(w, d);
    var i :| 0 <= i < |v.batch| && v.batch[i].group == SCHEDULER;
    assert D.IsDue(w.groups[SCHEDULER].row, d.due[i].retryCount, d.now);
  }

  lemma StepKeepsDelayed(s: System, step: Step, first: System, retryCount: nat)
    requires Ok(s) && Delayed(s, first, retryCount, EarliestRetry(first, retryCount))
    requires !step.Begin? && !step.BeginRaises?
    ensures Ok(Next(s, step)) && Delayed(Next(s, step), first, retryCount, EarliestRetry(first, retryCount))
  {
    StepLoses(s, step);
    if step.Protocol? && Allowed(s, step.step) {
      if D.IsConsumer(step.step) { ConsumerKeepsDelayed(s, step.step, first, retryCount); }
      else { ProcessorKeepsDelayed(s, step.step, first, retryCount); }
    }
  }

  lemma {:induction false} RunKeepsDelayed(s: System, steps: seq<Step>, first: System, retryCount: nat)
    requires Ok(s) && Delayed(s, first, retryCount, EarliestRetry(first, retryCount)) && NoneBegins(steps)
    ensures Ok(Run(s, steps)) && Delayed(Run(s, steps), first, retryCount, EarliestRetry(first, retryCount))
    decreases |steps|
  {
    if steps != [] {
      assert !steps[0].Begin? && !steps[0].BeginRaises?;
      StepKeepsDelayed(s, steps[0], first, retryCount);
      assert NoneBegins(steps[1..]) by { assert forall k | 0 <= k < |steps[1..]| :: steps[1..][k] == steps[k + 1]; }
      RunKeepsDelayed(Next(s, steps[0]), steps[1..], first, retryCount);
    }
  }

  /** One direction: a skip means that the retry came soon enough. */
  lemma SkippedIsSoon(s: System, steps: seq<Step>, retryCount: nat, since: real)
    requires LeftRecord(s, retryCount, since) && NoneBegins(steps) && SkipsFailure(Run(s, steps), Begin)
    ensures retryCount < D.MAX_RETRIES
    ensures EarliestRetry(s, retryCount) - since <= I.PROCESSING_TIMEOUT
    ensures EarliestRetry(s, retryCount) < s.key.value.expiresAt
  {
    RunKeepsDelayed(s, steps, s, retryCount);
    var t := Run(s, steps);
    assert D.GroupOk(Group(t), SCHEDULER, D.Claim(t.world.task, SCHEDULER));
  }

  // ---- the other direction: a run to the skip

  lemma {:induction false} RunAppend(s: System, a: seq<Step>, b: seq<Step>)
    ensures Run(s, a + b) == Run(Run(s, a), b)
    decreases |a|
  {
    if a == [] {
      assert a + b == b;
    } else {
      assert (a + b)[1..] == a[1..] + b;
      RunAppend(Next(s, a[0]), a[1..], b);
    }
  }

  lemma RunOne(s: System, a: Step)
    ensures Run(s, [a]) == Next(s, a)
  {
  }

  lemma RunThree(s: System, a: Step, b: Step, c: Step)
    ensures Run(s, [a, b, c]) == Next(Next(Next(s, a), b), c)
  {
    assert [a, b, c] == [a] + ([b] + [c]);
    RunAppend(s, [a], [b] + [c]);
    RunAppend(Next(s, a), [b], [c]);
  }

  /** The processor waits with nothing fetched. */
  predicate Calm(w: D.World) { w.task.Idle? && w.batch == [] }

  /** Only the inbox of the scheduler's group may differ, and other groups. */
  predicate SameGroup(s: System, t: System) {
    && |s.world.groups| == |t.world.groups| > SCHEDULER && t == s.(world := t.world) && s.world.filtered == t.world.filtered
    && Group(t) == Group(s).(inbox := Group(t).inbox)
  }

  lemma ProcessorActs(s: System, d: D.Step)
    requires Ok(s) && D.Claim(s.world.task, SCHEDULER).None? && !D.Batched(s.world.batch, SCHEDULER)
    requires d.Mark? || d.Publish? || d.RollBack? || d.Announce?
    ensures var t := Next(s, Protocol(d)); Ok(t) && SameGroup(s, t) && !D.Batched(t.world.batch, SCHEDULER)
  {
    StepLoses(s, Protocol(d));
    D.NextKeeps(s.world, d);
    ProcessorLeaves(s.world, d, SCHEDULER);
  }

  function Rank(w: D.World): nat {
    match w.task
    case Idle => if w.batch == [] then 0 else 3
    case Publishing(_) => 2
    case _ => 1
  }

  /** The processor can always finish what it is doing. */
  lemma {:induction false} Drain(s: System) returns (steps: seq<Step>)
    requires Ok(s) && D.Claim(s.world.task, SCHEDULER).None? && !D.Batched(s.world.batch, SCHEDULER)
    ensures NoneBegins(steps) && Ok(Run(s, steps)) && SameGroup(s, Run(s, steps)) && Calm(Run(s, steps).world)
    decreases Rank(s.world)
  {
    if Calm(s.world) { return []; }
    var d := DrainStep(s.world);
    ProcessorActs(s, d);
    DrainStepLowers(s.world);
    var rest := Drain(Next(s, Protocol(d)));
    steps := [Protocol(d)] + rest;
    RunAppend(s, [Protocol(d)], rest);
    RunOne(s, Protocol(d));
  }

  function DrainStep(w: D.World): D.Step {
    match w.task
    case Idle => D.Mark(D.Written)
    case Publishing(_) => D.Publish(false)
    case RollingBack(_) => D.RollBack(D.Written)
    case Announcing => D.Announce(false)
  }

  lemma DrainStepLowers(w: D.World)
    requires D.Good(w) && !Calm(w) && D.Claim(w.task, SCHEDULER).None? && !D.Batched(w.batch, SCHEDULER)
    ensures Rank(D.Next(w, DrainStep(w))) < Rank(w)
    ensures D.Claim(D.Next(w, DrainStep(w)).task, SCHEDULER).None?
  {
    if w.task.Idle? { assert w.batch[0].group != SCHEDULER; }
  }

  /** The consumer saves the failure, reports it and schedules its retry. */
  function ToSchedule(s: System): seq<Step> {
    [Protocol(D.Save(SCHEDULER, D.Written)), Protocol(D.Report(SCHEDULER, true)),
     Protocol(D.Decide(SCHEDULER, s.clock, 0.0, D.Written))]
  }

  function With(s: System, x: D.Group): System
    requires |s.world.groups| > SCHEDULER
  {
    s.(world := s.world.(groups := s.world.groups[SCHEDULER := x]))
  }

  lemma Saves(s: System, retryCount: nat)
    requires |s.world.groups| > SCHEDULER && Group(s).at == D.Saving(retryCount)
    ensures Next(s, Protocol(D.Save(SCHEDULER, D.Written)))
            == With(s, Group(s).(at := D.Reporting(retryCount), row := Some(D.Row(D.Pending, retryCount, None))))
  {
  }

  lemma Reports(s: System, retryCount: nat)
    requires |s.world.groups| > SCHEDULER && Group(s).at == D.Reporting(retryCount)
    ensures Next(s, Protocol(D.Report(SCHEDULER, true))) == With(s, Group(s).(at := D.Deciding(retryCount)))
  {
  }

  lemma Decides(s: System, retryCount: nat)
    requires |s.world.groups| > SCHEDULER && Group(s).at == D.Deciding(retryCount) && retryCount < D.MAX_RETRIES
    requires Group(s).row == Some(D.Row(D.Pending, retryCount, None))
    ensures Next(s, Protocol(D.Decide(SCHEDULER, s.clock, 0.0, D.Written)))
            == With(s, Group(s).(at := D.Waiting, row := Some(D.Row(D.Scheduled, retryCount, Some(EarliestRetry(s, retryCount))))))
  {
    EarliestIsExact(retryCount, s.clock);
  }

  lemma Schedules(s: System, retryCount: nat)
    requires |s.world.groups| > SCHEDULER && Group(s).at == D.Saving(retryCount) && retryCount < D.MAX_RETRIES && Calm(s.world)
    ensures var t := Run(s, ToSchedule(s));
      && |t.world.groups| == |s.world.groups| && t == s.(world := t.world) && Calm(t.world) && Group(t).at.Waiting?
      && Group(t).row == Some(D.Row(D.Scheduled, retryCount, Some(EarliestRetry(s, retryCount))))
  {
    Saves(s, retryCount);
    var saved := Next(s, Protocol(D.Save(SCHEDULER, D.Written)));
    Reports(saved, retryCount);
    Decides(Next(saved, Protocol(D.Report(SCHEDULER, true))), retryCount);
    RunThree(s, Protocol(D.Save(SCHEDULER, D.Written)), Protocol(D.Report(SCHEDULER, true)),
             Protocol(D.Decide(SCHEDULER, s.clock, 0.0, D.Written)));
  }

  lemma EarliestIsExact(retryCount: nat, now: real)
    ensures D.NextRetryTime(retryCount, now, 0.0) == now + 0.9 * D.Delay(retryCount)
  {
    D.RetryTimes(retryCount, now, 0.0);
    var delay := D.Delay(retryCount);
    assert delay + delay * 0.1 * (2.0 * 0.0 - 1.0) == 0.9 * delay;
  }

  /** The processor fetches the row and publishes its retry. */
  function ToPublish(s: System, retryCount: nat): seq<Step> {
    [Protocol(D.Fetch([D.Due(SCHEDULER, retryCount)], s.clock)), Protocol(D.Mark(D.Written)), Protocol(D.Publish(true))]
  }

  lemma Fetches(s: System, retryCount: nat, due: real)
    requires |s.world.groups| > SCHEDULER && Calm(s.world) && due <= s.clock
    requires Group(s).row == Some(D.Row(D.Scheduled, retryCount, Some(due)))
    ensures var dues := [D.Due(SCHEDULER, retryCount)];
      Next(s, Protocol(D.Fetch(dues, s.clock))) == s.(world := s.world.(batch := dues))
  {
    assert D.CanFetch(s.world.groups, [D.Due(SCHEDULER, retryCount)], s.clock);
  }

  lemma Marks(s: System, retryCount: nat)
    requires |s.world.groups| > SCHEDULER && s.world.task.Idle? && s.world.batch == [D.Due(SCHEDULER, retryCount)]
    ensures var t := Next(s, Protocol(D.Mark(D.Written)));
      && |t.world.groups| == |s.world.groups| && t == s.(world := t.world)
      && t.world.task == D.Publishing(D.Due(SCHEDULER, retryCount)) && Group(t).at == Group(s).at
  {
  }

  lemma Sends(s: System, retryCount: nat)
    requires |s.world.groups| > SCHEDULER && s.world.task == D.Publishing(D.Due(SCHEDULER, retryCount))
    ensures var t := Next(s, Protocol(D.Publish(true)));
      && |t.world.groups| == |s.world.groups| && t == s.(world := t.world) && Group(t).at == Group(s).at
      && D.Delivery(Some(SCHEDULER), retryCount + 1) in Group(t).inbox
  {
  }

  lemma Publishes(s: System, retryCount: nat, due: real)
    requires |s.world.groups| > SCHEDULER && Calm(s.world) && Group(s).at.Waiting? && due <= s.clock
    requires Group(s).row == Some(D.Row(D.Scheduled, retryCount, Some(due)))
    ensures var t := Run(s, ToPublish(s, retryCount));
      && |t.world.groups| == |s.world.groups| && t == s.(world := t.world) && Group(t).at.Waiting?
      && D.Delivery(Some(SCHEDULER), retryCount + 1) in Group(t).inbox
  {
    var dues := [D.Due(SCHEDULER, retryCount)];
    Fetches(s, retryCount, due);
    var fetched := Next(s, Protocol(D.Fetch(dues, s.clock)));
    Marks(fetched, retryCount);
    Sends(Next(fetched, Protocol(D.Mark(D.Written))), retryCount);
    RunThree(s, Protocol(D.Fetch(dues, s.clock)), Protocol(D.Mark(D.Written)), Protocol(D.Publish(true)));
  }

  lemma NoneBeginsAppend(a: seq<Step>, b: seq<Step>)
    requires NoneBegins(a) && NoneBegins(b)
    ensures NoneBegins(a + b)
  {
  }

  /** From a scheduled retry to its delivery, at the moment it is due. */
  lemma ToDelivery(s: System, retryCount: nat, due: real) returns (steps: seq<Step>)
    requires |s.world.groups| > SCHEDULER && Calm(s.world) && Group(s).at.Waiting? && s.clock <= due && s.run.None?
    requires Group(s).row == Some(D.Row(D.Scheduled, retryCount, Some(due)))
    ensures NoneBegins(steps)
    ensures var t := Run(s, steps); Awaits(t) && t == s.(world := t.world, clock := due)
  {
    var ticked := Next(s, Tick(due));
    var publish := ToPublish(ticked, retryCount);
    var consume := Protocol(D.Consume(SCHEDULER, D.Delivery(Some(SCHEDULER), retryCount + 1)));
    RunOne(s, Tick(due));
    Publishes(ticked, retryCount, due);
    RunOne(Run(ticked, publish), consume);
    RunAppend(s, [Tick(due)], publish);
    RunAppend(s, [Tick(due)] + publish, [consume]);
    steps := [Tick(due)] + publish + [consume];
  }

  lemma SoonIsSkipped(s: System, retryCount: nat, since: real)
    requires LeftRecord(s, retryCount, since) && retryCount < D.MAX_RETRIES
    requires EarliestRetry(s, retryCount) - since <= I.PROCESSING_TIMEOUT
    requires EarliestRetry(s, retryCount) < s.key.value.expiresAt
    ensures CanLose(s)
  {
    NotBatchedWhileHandled(s.world);
    D.RetryTimes(retryCount, s.clock, 0.0);
    var drain := Drain(s);
    var calm := Run(s, drain);
    var schedule := ToSchedule(calm);
    Schedules(calm, retryCount);
    var scheduled := Run(calm, schedule);
    var deliver := ToDelivery(scheduled, retryCount, EarliestRetry(s, retryCount));
    RunAppend(s, drain, schedule);
    RunAppend(s, drain + schedule, deliver);
    NoneBeginsAppend(drain, schedule);
    NoneBeginsAppend(drain + schedule, deliver);
    assert SkipsFailure(Run(s, drain + schedule + deliver), Begin);
  }

  /**
    A failed delivery whose record was not deleted can be lost, in some continuation, exactly when it may still be
    retried, and the earliest time its retry can be due is within the processing timeout of its reservation and
    before its record expires.
   */
  lemma CanLoseIff(s: System, retryCount: nat, since: real)
    requires LeftRecord(s, retryCount, since)
    ensures CanLose(s) <==>
      && retryCount < 5
      && EarliestRetry(s, retryCount) - since <= 300.0
      && EarliestRetry(s, retryCount) < s.key.value.expiresAt
  {
    if CanLose(s) {
      var steps :| NoneBegins(steps) && SkipsFailure(Run(s, steps), Begin);
      SkippedIsSoon(s, steps, retryCount, since);
    } else if retryCount < D.MAX_RETRIES && EarliestRetry(s, retryCount) - since <= I.PROCESSING_TIMEOUT
              && EarliestRetry(s, retryCount) < s.key.value.expiresAt {
      SoonIsSkipped(s, retryCount, since);
    }
  }

  /** It happens from the start: the first delivery of the event can be lost that way. */
  lemma FirstFailureCanBeLost(n: nat)
    requires n > SCHEDULER
    ensures var s := Run(Initial(n, false), [Protocol(D.Consume(SCHEDULER, D.ORIGINAL)), Begin, Fails(false)]);
      LeftRecord(s, 0, 0.0) && s.key.value.expiresAt == 3600.0 && CanLose(s)
  {
    var s0 := Initial(n, false);
    var consume := Protocol(D.Consume(SCHEDULER, D.ORIGINAL));
    InitialIsOk(n, false);
    RunLoses(s0, [consume, Begin, Fails(false)]);
    RunThree(s0, consume, Begin, Fails(false));
    var s1 := Next(s0, consume);
    assert Group(s1).at == D.Handling(0);
    var s2 := Next(s1, Begin);
    assert s2 == s1.(key := Some(I.Stored(I.Record(I.Processing, 0.0), TTL)), run := Some(0.0));
    D.RetryTimes(0, 0.0, 0.0);
    assert D.Delay(0) == 30.0 by { assert D.Power(0) == 1.0; }
    CanLoseIff(Next(s2, Fails(false)), 0, 0.0);
  }
}

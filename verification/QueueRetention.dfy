/**
  How long the queue's stored requests and reservations last, over every interleaving of its commands
  (backend/app/services/execution_queue.py). Times and limits are written out in seconds.
 */
module QueueRetention {
  import opened Options
  import opened SortedSets
  import opened ExecutionQueue
  import opened QueueInterleaving
  import opened QueueOrder

  // ---- a queued request

  /** The step stores a new request for the id, or drops the stored one. */
  predicate Replaces(step: Step, id: Id) {
    (step.EnqueueStep? || step.ReleaseStep? || step.RemoveStep?) && step.id == id
  }

  predicate RequestIs(q: Queue, id: Id, stored: Stored) { id in q.requests && q.requests[id] == stored }

  lemma StepKeepsRequest(s: System, step: Step, id: Id, stored: Stored)
    requires s.q.Valid() && !Replaces(step, id) && RequestIs(s.q, id, stored)
    ensures RequestIs(Next(s, step).q, id, stored)
  {
    if step.Pop? {
      assert Schedule(s.q, step.maxActive, step.now, step.now + PROVISIONAL_SLOT).0.requests == s.q.requests;
    }
  }

  lemma {:induction false} RequestKept(s: System, steps: seq<Step>, id: Id, stored: Stored)
    requires s.q.Valid() && RequestIs(s.q, id, stored) && forall k | 0 <= k < |steps| :: !Replaces(steps[k], id)
    ensures RequestIs(Run(s, steps).q, id, stored)
    decreases |steps|
  {
    if steps != [] {
      StepKeepsRequest(s, steps[0], id, stored);
      RequestKept(Next(s, steps[0]), steps[1..], id, stored);
    }
  }

  /**
    An enqueued request is readable exactly for a day, through every interleaving of steps that neither enqueue,
    release nor remove its id.
   */
  lemma RequestReadableIff(s: System, id: Id, priority: Priority, score: real, request: Request, steps: seq<Step>)
    requires s.q.Valid() && forall k | 0 <= k < |steps| :: !Replaces(steps[k], id)
    ensures var n := Run(Next(s, EnqueueStep(id, priority, score, request)), steps);
      LoadRequest(n.q, id, n.clock) == if n.clock < s.clock + 86400.0 then Some(request) else None
  {
    RequestKept(Next(s, EnqueueStep(id, priority, score, request)), steps, id, Stored(request, s.clock + 86400.0));
  }

  lemma LoadedRequest(n: System, id: Id, w: nat)
    requires n.q.Valid() && n.PhaseOf(w) == Holding(id)
    ensures Next(n, Load(w)).PhaseOf(w)
         == match LoadRequest(n.q, id, n.clock) case None => LostRequest(id) case Some(request) => Loaded(id, request)
  {
  }

  /** A worker that popped the id then goes on with that request, or with a lost one, exactly by the same clock. */
  lemma LoadFindsRequestIff(s: System, id: Id, priority: Priority, score: real, request: Request, steps: seq<Step>, w: nat)
    requires s.q.Valid() && forall k | 0 <= k < |steps| :: !Replaces(steps[k], id)
    requires Run(Next(s, EnqueueStep(id, priority, score, request)), steps).PhaseOf(w) == Holding(id)
    ensures var n := Run(Next(s, EnqueueStep(id, priority, score, request)), steps);
      Next(n, Load(w)).PhaseOf(w) == if n.clock < s.clock + 86400.0 then Loaded(id, request) else LostRequest(id)
  {
    RequestReadableIff(s, id, priority, score, request, steps);
    LoadedRequest(Run(Next(s, EnqueueStep(id, priority, score, request)), steps), id, w);
  }

  /** And an uninterrupted attempt that pops the id is scheduled with that request, or reports it lost. */
  lemma AttemptSchedulesIff(s: System, id: Id, priority: Priority, score: real, request: Request, steps: seq<Step>,
                            maxActive: int, popAt: real, loadAt: real, rescoreAt: real)
    requires s.q.Valid() && forall k | 0 <= k < |steps| :: !Replaces(steps[k], id)
    requires var q := Run(Next(s, EnqueueStep(id, priority, score, request)), steps).q;
      var popped := Schedule(q, maxActive, popAt, popAt + 3900.0).1; popped.Popped? && popped.id == id
    ensures var q := Run(Next(s, EnqueueStep(id, priority, score, request)), steps).q;
      TryScheduleAt(q, maxActive, popAt, loadAt, rescoreAt).1
      == if loadAt < s.clock + 86400.0 then Scheduled(id, request) else Lost(id)
  {
    var queued := Next(s, EnqueueStep(id, priority, score, request));
    RequestKept(queued, steps, id, Stored(request, s.clock + 86400.0));
    var q := Run(queued, steps).q;
    assert Schedule(q, maxActive, popAt, popAt + PROVISIONAL_SLOT).0.requests == q.requests;
  }

  /** The slot of a loaded request lasts its timeout, at least 30 s for Go, and five minutes more. */
  lemma SlotLasts(request: Request)
    ensures SlotSeconds(request)
         == 300.0 + (if request.language == Go && request.timeoutSeconds < 30 then 30.0
                     else if request.timeoutSeconds < 0 then 0.0 else request.timeoutSeconds as real)
  {
  }

  /** And the pod's own deadline is its timeout, at least 30 s for Go, where a zero stands for five minutes. */
  lemma PodLasts(request: Request)
    ensures PodSeconds(request)
         == (if request.timeoutSeconds == 0 then 300.0
             else if request.language == Go && request.timeoutSeconds < 30 then 30.0
             else if request.timeoutSeconds < 0 then 0.0 else request.timeoutSeconds as real)
  {
  }

  // ---- what is released or removed

  predicate Enqueues(step: Step, id: Id) { step.EnqueueStep? && step.id == id }

  lemma StepFindsNoRequest(s: System, step: Step, id: Id)
    requires s.q.Valid() && !Enqueues(step, id) && id !in s.q.requests
    ensures id !in Next(s, step).q.requests
  {
    if step.Pop? {
      assert Schedule(s.q, step.maxActive, step.now, step.now + PROVISIONAL_SLOT).0.requests == s.q.requests;
    }
  }

  /** A released or removed execution's request is gone for good, until its id is enqueued again. */
  lemma {:induction false} ForgottenRequest(s: System, steps: seq<Step>, id: Id)
    requires s.q.Valid() && id !in s.q.requests && forall k | 0 <= k < |steps| :: !Enqueues(steps[k], id)
    ensures id !in Run(s, steps).q.requests
    decreases |steps|
  {
    if steps != [] {
      StepFindsNoRequest(s, steps[0], id);
      ForgottenRequest(Next(s, steps[0]), steps[1..], id);
    }
  }

  lemma ReleasedIsForgotten(s: System, id: Id, steps: seq<Step>)
    requires s.q.Valid() && forall k | 0 <= k < |steps| :: !Enqueues(steps[k], id)
    ensures id !in Next(s, ReleaseStep(id)).q.running
    ensures var n := Run(Next(s, ReleaseStep(id)), steps); LoadRequest(n.q, id, n.clock) == None
  {
    ForgottenRequest(Next(s, ReleaseStep(id)), steps, id);
  }

  /** Neither waiting nor running. */
  ghost predicate Absent(q: Queue, id: Id) { id !in q.running && !Waits(q.pending, id) }

  lemma PopKeepsAbsent(q: Queue, maxActive: int, now: real, deadline: real, id: Id)
    requires q.Valid() && Absent(q, id)
    ensures Absent(Schedule(q, maxActive, now, deadline).0, id)
  {
  }

  lemma UpdateKeepsAbsent(q: Queue, other: Id, priority: Priority, id: Id)
    requires q.Valid() && Absent(q, id)
    ensures Absent(UpdatePriority(q, other, priority).0, id)
  {
  }

  lemma StepKeepsAbsent(s: System, step: Step, id: Id)
    requires s.q.Valid() && !Enqueues(step, id) && Absent(s.q, id)
    ensures Absent(Next(s, step).q, id)
  {
    match step
    case Pop(w, maxActive, now) => PopKeepsAbsent(s.q, maxActive, now, now + PROVISIONAL_SLOT, id);
    case UpdateStep(other, priority) => UpdateKeepsAbsent(s.q, other, priority, id);
    case EnqueueStep(other, priority, score, request) =>
      assert forall i | 0 <= i < |s.q.pending| :: id !in s.q.pending[i];
    case _ =>
  }

  /** A removed execution is neither queued nor given a slot by anybody, until its id is enqueued again. */
  lemma {:induction false} AbsentStays(s: System, steps: seq<Step>, id: Id)
    requires s.q.Valid() && Absent(s.q, id) && forall k | 0 <= k < |steps| :: !Enqueues(steps[k], id)
    ensures Absent(Run(s, steps).q, id)
    decreases |steps|
  {
    if steps != [] {
      StepKeepsAbsent(s, steps[0], id);
      AbsentStays(Next(s, steps[0]), steps[1..], id);
    }
  }

  lemma RemovedStaysAbsent(s: System, id: Id, steps: seq<Step>)
    requires s.q.Valid() && forall k | 0 <= k < |steps| :: !Enqueues(steps[k], id)
    ensures var n := Run(Next(s, RemoveStep(id)), steps); Absent(n.q, id) && LoadRequest(n.q, id, n.clock) == None
  {
    AbsentStays(Next(s, RemoveStep(id)), steps, id);
    ForgottenRequest(Next(s, RemoveStep(id)), steps, id);
  }

  // ---- the commands of one worker, when nobody acts in between

  lemma RunTwo(s: System, a: Step, b: Step)
    requires s.q.Valid()
    ensures Run(s, [a, b]) == Next(Next(s, a), b)
  {
    assert [a, b][1..] == [b] && [b][1..] == [];
    assert Run(Next(s, a), [b]) == Run(Next(Next(s, a), b), []);
  }

  lemma RunThree(s: System, a: Step, b: Step, c: Step)
    requires s.q.Valid()
    ensures Run(s, [a, b, c]) == Next(Next(Next(s, a), b), c)
  {
    assert [a, b, c][1..] == [b, c];
    RunTwo(Next(s, a), b, c);
  }

  /** A priority change moves a waiting id and nothing else, with its score. */
  lemma UpdateStepMoves(s: System, id: Id, priority: Priority)
    requires s.q.Valid() && Unique(s.q.pending)
    ensures var n := Next(s, UpdateStep(id, priority));
      && n == s.(q := s.q.(pending := n.q.pending))
      && (!Waits(s.q.pending, id) ==> n == s)
      && (forall e | e in Entries(s.q.pending) && e.id == id ::
            Entries(n.q.pending) == Entries(s.q.pending) - {e} + {Entry(priority, e.score, id)})
  {
    UpdatePriorityMovesOne(s.q, id, priority);
  }

  /** release_user_slot is its two commands. */
  lemma ReleaseIsItsSteps(s: System, w: nat, id: Id)
    requires s.q.Valid() && s.PhaseOf(w) == Free
    ensures Run(s, [ReadOwner(w, id), FreeReservation(w)]).q == ReleaseUserSlot(s.q, id, s.clock)
    ensures Run(s, [ReadOwner(w, id), FreeReservation(w)]).PhaseOf(w) == Free
  {
    hide Run;
    RunTwo(s, ReadOwner(w, id), FreeReservation(w));
    if OwnerOf(s.q, id, s.clock).None? {
      assert Next(s, ReadOwner(w, id)) == s && Next(s, FreeReservation(w)) == s;
    } else {
      ReadThenFreed(s, w, id);
    }
  }

  lemma ReadThenFreed(s: System, w: nat, id: Id)
    requires s.q.Valid() && s.PhaseOf(w) == Free && OwnerOf(s.q, id, s.clock).Some?
    ensures var n := Next(Next(s, ReadOwner(w, id)), FreeReservation(w));
      n.q == FreeUserSlot(s.q, OwnerOf(s.q, id, s.clock).value, id) && n.PhaseOf(w) == Free
  {
    hide FreeUserSlot;
  }

  /** try_schedule that pops nothing is its script. */
  lemma IdleIsItsStep(s: System, w: nat, maxActive: int)
    requires s.q.Valid() && s.PhaseOf(w) == Free && TryScheduleAt(s.q, maxActive, s.clock, s.clock, s.clock).1.Idle?
    ensures Next(s, Pop(w, maxActive, s.clock)) == s.(q := TryScheduleAt(s.q, maxActive, s.clock, s.clock, s.clock).0)
  {
  }

  lemma PopAndLoad(s: System, w: nat, maxActive: int)
    requires s.q.Valid() && s.PhaseOf(w) == Free && !TryScheduleAt(s.q, maxActive, s.clock, s.clock, s.clock).1.Idle?
    ensures var (popped, taken) := Schedule(s.q, maxActive, s.clock, s.clock + PROVISIONAL_SLOT);
      var n := Next(Next(s, Pop(w, maxActive, s.clock)), Load(w));
      && taken.Popped? && n.q == popped && n.clock == s.clock
      && n.PhaseOf(w) == match LoadRequest(popped, taken.id, s.clock)
                         case None => LostRequest(taken.id)
                         case Some(request) => Loaded(taken.id, request)
  {
  }

  /** One that schedules is its pop, its load and its rescore. */
  lemma ScheduledIsItsSteps(s: System, w: nat, maxActive: int)
    requires s.q.Valid() && s.PhaseOf(w) == Free && TryScheduleAt(s.q, maxActive, s.clock, s.clock, s.clock).1.Scheduled?
    ensures var n := Run(s, [Pop(w, maxActive, s.clock), Load(w), RescoreStep(w, s.clock)]);
      n.q == TryScheduleAt(s.q, maxActive, s.clock, s.clock, s.clock).0 && n.PhaseOf(w) == Free
  {
    hide Run, Schedule, Next, RescoreSlots;
    RunThree(s, Pop(w, maxActive, s.clock), Load(w), RescoreStep(w, s.clock));
    PopAndLoad(s, w, maxActive);
    var loaded := Next(Next(s, Pop(w, maxActive, s.clock)), Load(w));
    LoadedIsRescored(loaded, w);
  }

  lemma LoadedIsRescored(s: System, w: nat)
    requires s.q.Valid() && s.PhaseOf(w).Loaded?
    ensures var n := Next(s, RescoreStep(w, s.clock)); var Loaded(id, request) := s.PhaseOf(w);
      n.q == RescoreSlots(s.q, id, request, s.clock + SlotSeconds(request), s.clock) && n.PhaseOf(w) == Free
  {
    hide RescoreSlots, SlotSeconds;
  }

  lemma DroppedIsFreed(s: System, w: nat)
    requires s.q.Valid() && s.PhaseOf(w).LostRequest?
    ensures var n := Next(s, DropLost(w));
      n.q == DropRunning(s.q, s.PhaseOf(w).id) && n.clock == s.clock && n.PhaseOf(w) == Free
  {
  }

  /** And one that loses its request is its pop, its load and the cleanup of both slots. */
  lemma LostIsItsSteps(s: System, w: nat, maxActive: int)
    requires s.q.Valid() && s.PhaseOf(w) == Free && TryScheduleAt(s.q, maxActive, s.clock, s.clock, s.clock).1.Lost?
    ensures var (after, outcome) := TryScheduleAt(s.q, maxActive, s.clock, s.clock, s.clock);
      var dropped := Run(s, [Pop(w, maxActive, s.clock), Load(w), DropLost(w)]);
      var n := Run(dropped, [ReadOwner(w, outcome.id), FreeReservation(w)]);
      n.q == after && n.PhaseOf(w) == Free
  {
    hide Run, Schedule, ReleaseUserSlot, Next;
    RunThree(s, Pop(w, maxActive, s.clock), Load(w), DropLost(w));
    PopAndLoad(s, w, maxActive);
    var loaded := Next(Next(s, Pop(w, maxActive, s.clock)), Load(w));
    DroppedIsFreed(loaded, w);
    ReleaseIsItsSteps(Next(loaded, DropLost(w)), w, loaded.PhaseOf(w).id);
  }

  // ---- a reservation

  /** The user has the reservation until that deadline, in a key that lasts until expiresAt. */
  predicate Reserves(q: Queue, user: UserId, id: Id, deadline: real, expiresAt: real) {
    && user in q.reserved && q.reserved[user].expiresAt == expiresAt
    && id in q.reserved[user].slots && q.reserved[user].slots[id] == deadline
  }

  /** A granted one lasts a day, as do its owner key and the user's set. */
  lemma GrantReserves(q: Queue, user: UserId, id: Id, limit: int, now: real, clock: real)
    requires Reserve(q, user, id, limit, now, clock).1
    ensures var r := Reserve(q, user, id, limit, now, clock).0;
      && Reserves(r, user, id, now + 86400.0, clock + 86400.0)
      && r.owners == q.owners[id := Owned(user, clock + 86400.0)]
  {
  }

  lemma GrantLeaves(q: Queue, user: UserId, id: Id, limit: int, now: real, clock: real, other: Id)
    requires Reserve(q, user, id, limit, now, clock).1 && other != id
    ensures var r := Reserve(q, user, id, limit, now, clock).0;
      && (other in InFlight(r, user, now, clock) <==> other in InFlight(q, user, now, clock))
      && (other in InFlight(q, user, now, clock) ==> r.reserved[user].slots[other] == q.reserved[user].slots[other])
  {
  }

  /** It joins the reservations that were in flight, which keep their deadlines. */
  lemma GrantJoins(q: Queue, user: UserId, id: Id, limit: int, now: real, clock: real)
    requires Reserve(q, user, id, limit, now, clock).1
    ensures var r := Reserve(q, user, id, limit, now, clock).0;
      && InFlight(r, user, now, clock) == InFlight(q, user, now, clock) + {id}
      && (forall other | other in InFlight(q, user, now, clock) && other != id ::
            r.reserved[user].slots[other] == q.reserved[user].slots[other])
  {
    hide Reserve;
    var r := Reserve(q, user, id, limit, now, clock).0;
    GrantReserves(q, user, id, limit, now, clock);
    forall other | other != id
      ensures other in InFlight(r, user, now, clock) <==> other in InFlight(q, user, now, clock)
      ensures other in InFlight(q, user, now, clock) ==> r.reserved[user].slots[other] == q.reserved[user].slots[other]
    {
      GrantLeaves(q, user, id, limit, now, clock, other);
    }
  }

  /** A refusal leaves every reservation in flight, and every owner, as it was. */
  lemma RefusalReservesNothing(q: Queue, user: UserId, id: Id, limit: int, now: real, clock: real)
    requires !Reserve(q, user, id, limit, now, clock).1
    ensures var r := Reserve(q, user, id, limit, now, clock).0;
      && r.owners == q.owners
      && InFlight(r, user, now, clock) == InFlight(q, user, now, clock)
      && (forall other | other in InFlight(q, user, now, clock) ::
            r.reserved[user].slots[other] == q.reserved[user].slots[other])
  {
  }

  /** Reserving changes no other user's set and no other command's keys. */
  lemma ReserveLeavesOthers(q: Queue, user: UserId, id: Id, limit: int, now: real, clock: real, other: UserId)
    requires other != user
    ensures var r := Reserve(q, user, id, limit, now, clock).0;
      && (other in r.reserved <==> other in q.reserved) && (other in q.reserved ==> r.reserved[other] == q.reserved[other])
      && r.pending == q.pending && r.running == q.running && r.requests == q.requests
  {
  }

  /** The step grants, frees or rescores the user's reservation of the id. */
  predicate TouchesReservation(s: System, step: Step, user: UserId, id: Id) {
    || (step.ReserveStep? && step.user == user && step.id == id)
    || (step.FreeReservation? && s.PhaseOf(step.w) == FreeingUser(id, user))
    || (step.RescoreStep? && s.PhaseOf(step.w).Loaded? && s.PhaseOf(step.w).id == id && s.PhaseOf(step.w).request.user == user)
  }

  predicate ReservationAlone(s: System, steps: seq<Step>, user: UserId, id: Id)
    requires s.q.Valid()
    decreases |steps|
  {
    steps == [] || (!TouchesReservation(s, steps[0], user, id) && ReservationAlone(Next(s, steps[0]), steps[1..], user, id))
  }

  /** The user's set, if it still has the id, has it with that deadline. */
  predicate AtMost(q: Queue, user: UserId, id: Id, deadline: real) {
    user in q.reserved && id in q.reserved[user].slots ==> q.reserved[user].slots[id] == deadline
  }

  /** It has the id with that deadline, in a key that lasts at least until expiresAt. */
  predicate AtLeast(q: Queue, user: UserId, id: Id, deadline: real, expiresAt: real) {
    && user in q.reserved && q.reserved[user].expiresAt >= expiresAt
    && id in q.reserved[user].slots && q.reserved[user].slots[id] == deadline
  }

  lemma ReserveKeepsAtLeast(s: System, step: Step, user: UserId, id: Id, deadline: real, expiresAt: real)
    requires s.q.Valid() && step.ReserveStep? && !TouchesReservation(s, step, user, id)
    requires s.clock < deadline && s.clock < expiresAt <= s.clock + 86400.0
    requires AtLeast(s.q, user, id, deadline, expiresAt)
    ensures AtLeast(Next(s, step).q, user, id, deadline, expiresAt)
  {
  }

  lemma StepKeepsAtLeast(s: System, step: Step, user: UserId, id: Id, deadline: real, expiresAt: real)
    requires s.q.Valid() && !TouchesReservation(s, step, user, id)
    requires s.clock < deadline && s.clock < expiresAt <= s.clock + 86400.0
    requires AtLeast(s.q, user, id, deadline, expiresAt)
    ensures AtLeast(Next(s, step).q, user, id, deadline, expiresAt)
  {
    if step.ReserveStep? {
      ReserveKeepsAtLeast(s, step, user, id, deadline, expiresAt);
    } else if !ChangesUsers(s, step) {
      OtherStepsLeaveUsers(s, step);
    }
  }

  lemma StepKeepsAtMost(s: System, step: Step, user: UserId, id: Id, deadline: real)
    requires s.q.Valid() && !TouchesReservation(s, step, user, id) && AtMost(s.q, user, id, deadline)
    ensures AtMost(Next(s, step).q, user, id, deadline)
  {
    if step.ReserveStep? {
      ReserveKeepsAtMost(s, step, user, id, deadline);
    } else if !ChangesUsers(s, step) {
      OtherStepsLeaveUsers(s, step);
    }
  }

  lemma ReserveKeepsAtMost(s: System, step: Step, user: UserId, id: Id, deadline: real)
    requires s.q.Valid() && step.ReserveStep? && !TouchesReservation(s, step, user, id) && AtMost(s.q, user, id, deadline)
    ensures AtMost(Next(s, step).q, user, id, deadline)
  {
  }

  lemma {:induction false} ReservationKept(
      s: System, steps: seq<Step>, user: UserId, id: Id, deadline: real, expiresAt: real)
    requires s.q.Valid() && ReservationAlone(s, steps, user, id) && expiresAt <= s.clock + 86400.0
    requires AtLeast(s.q, user, id, deadline, expiresAt)
    requires Run(s, steps).clock < deadline && Run(s, steps).clock < expiresAt
    ensures AtLeast(Run(s, steps).q, user, id, deadline, expiresAt)
    decreases |steps|
  {
    if steps != [] {
      StepKeepsAtLeast(s, steps[0], user, id, deadline, expiresAt);
      ReservationKept(Next(s, steps[0]), steps[1..], user, id, deadline, expiresAt);
    }
  }

  lemma {:induction false} DeadlineKept(s: System, steps: seq<Step>, user: UserId, id: Id, deadline: real)
    requires s.q.Valid() && ReservationAlone(s, steps, user, id) && AtMost(s.q, user, id, deadline)
    ensures AtMost(Run(s, steps).q, user, id, deadline)
    decreases |steps|
  {
    if steps != [] {
      StepKeepsAtMost(s, steps[0], user, id, deadline);
      DeadlineKept(Next(s, steps[0]), steps[1..], user, id, deadline);
    }
  }

  /** In flight for its user at this moment. */
  predicate Counts(s: System, user: UserId, id: Id) { id in InFlight(s.q, user, s.clock, s.clock) }

  /**
    A granted reservation counts against its user for exactly a day, through every interleaving that neither frees
    nor rescores it nor reserves its id again.
   */
  lemma GrantedCountsIff(s: System, user: UserId, id: Id, limit: int, now: real, steps: seq<Step>)
    requires s.q.Valid() && now <= s.clock && |InFlight(s.q, user, now, s.clock)| < limit
    requires ReservationAlone(Next(s, ReserveStep(user, id, limit, now)), steps, user, id)
    ensures var n := Run(Next(s, ReserveStep(user, id, limit, now)), steps);
      Counts(n, user, id) <==> n.clock < now + 86400.0
  {
    GrantedIff(s.q, user, id, limit, now, s.clock);
    var granted := Next(s, ReserveStep(user, id, limit, now));
    var n := Run(granted, steps);
    DeadlineKept(granted, steps, user, id, now + 86400.0);
    if n.clock < now + 86400.0 {
      ReservationKept(granted, steps, user, id, now + 86400.0, s.clock + 86400.0);
    }
  }

  lemma StepReservesByGrant(s: System, step: Step, user: UserId, id: Id)
    requires s.q.Valid()
    requires !(user in s.q.reserved && id in s.q.reserved[user].slots)
    requires var r := Next(s, step).q.reserved; user in r && id in r[user].slots
    ensures step.ReserveStep? && step.user == user && step.id == id && step.now <= s.clock
    ensures |InFlight(s.q, user, step.now, s.clock)| < step.limit
  {
    if step.ReserveStep? {
      NewlyReserved(s.q, step.user, step.id, step.limit, step.now, s.clock, user, id);
      GrantedIff(s.q, step.user, step.id, step.limit, step.now, s.clock);
    } else if !ChangesUsers(s, step) {
      OtherStepsLeaveUsers(s, step);
    }
  }

  lemma NewlyReserved(q: Queue, u: UserId, i: Id, limit: int, now: real, clock: real, user: UserId, id: Id)
    requires !(user in q.reserved && id in q.reserved[user].slots)
    requires var r := Reserve(q, u, i, limit, now, clock).0.reserved; user in r && id in r[user].slots
    ensures user == u && id == i && Reserve(q, u, i, limit, now, clock).1
  {
  }

  /** Nothing but a grant ever adds an id to a user's set. */
  lemma {:induction false} ReservationNeedsGrant(s: System, steps: seq<Step>, user: UserId, id: Id) returns (k: nat)
    requires s.q.Valid()
    requires !(user in s.q.reserved && id in s.q.reserved[user].slots)
    requires Counts(Run(s, steps), user, id)
    ensures k < |steps| && steps[k].ReserveStep? && steps[k].user == user && steps[k].id == id
    ensures var before := Run(s, steps[..k]); |InFlight(before.q, user, steps[k].now, before.clock)| < steps[k].limit
    decreases |steps|
  {
    var next := Next(s, steps[0]);
    if user in next.q.reserved && id in next.q.reserved[user].slots {
      StepReservesByGrant(s, steps[0], user, id);
      k := 0;
    } else {
      var j := ReservationNeedsGrant(next, steps[1..], user, id);
      k := j + 1;
      assert steps[..k][0] == steps[0] && steps[..k][1..] == steps[1..][..j];
    }
  }

  // ---- the owner key

  /** The step grants the id a reservation, or frees the one it has. */
  predicate TouchesOwner(s: System, step: Step, id: Id) {
    || (step.ReserveStep? && step.id == id)
    || (step.FreeReservation? && s.PhaseOf(step.w).FreeingUser? && s.PhaseOf(step.w).id == id)
  }

  predicate OwnerAlone(s: System, steps: seq<Step>, id: Id)
    requires s.q.Valid()
    decreases |steps|
  {
    steps == [] || (!TouchesOwner(s, steps[0], id) && OwnerAlone(Next(s, steps[0]), steps[1..], id))
  }

  lemma StepKeepsOwner(s: System, step: Step, id: Id, owned: Owned)
    requires s.q.Valid() && !TouchesOwner(s, step, id) && id in s.q.owners && s.q.owners[id] == owned
    ensures id in Next(s, step).q.owners && Next(s, step).q.owners[id] == owned
  {
    if !ChangesUsers(s, step) { OtherStepsLeaveUsers(s, step); }
  }

  lemma {:induction false} OwnerKept(s: System, steps: seq<Step>, id: Id, owned: Owned)
    requires s.q.Valid() && OwnerAlone(s, steps, id) && id in s.q.owners && s.q.owners[id] == owned
    ensures id in Run(s, steps).q.owners && Run(s, steps).q.owners[id] == owned
    decreases |steps|
  {
    if steps != [] {
      StepKeepsOwner(s, steps[0], id, owned);
      OwnerKept(Next(s, steps[0]), steps[1..], id, owned);
    }
  }

  /** A granted id's user can be read, and its reservation released, for exactly a day. */
  lemma OwnerReadableIff(s: System, user: UserId, id: Id, limit: int, now: real, steps: seq<Step>)
    requires s.q.Valid() && now <= s.clock && |InFlight(s.q, user, now, s.clock)| < limit
    requires OwnerAlone(Next(s, ReserveStep(user, id, limit, now)), steps, id)
    ensures var n := Run(Next(s, ReserveStep(user, id, limit, now)), steps);
      OwnerOf(n.q, id, n.clock) == if n.clock < s.clock + 86400.0 then Some(user) else None
  {
    GrantedIff(s.q, user, id, limit, now, s.clock);
    OwnerKept(Next(s, ReserveStep(user, id, limit, now)), steps, id, Owned(user, s.clock + 86400.0));
  }

  // ---- a rescored reservation

  predicate NoReserve(steps: seq<Step>, user: UserId) {
    forall k | 0 <= k < |steps| :: !(steps[k].ReserveStep? && steps[k].user == user)
  }

  lemma StepKeepsReserves(s: System, step: Step, user: UserId, id: Id, deadline: real, expiresAt: real)
    requires s.q.Valid() && !TouchesReservation(s, step, user, id) && !(step.ReserveStep? && step.user == user)
    requires Reserves(s.q, user, id, deadline, expiresAt)
    ensures Reserves(Next(s, step).q, user, id, deadline, expiresAt)
  {
    if !ChangesUsers(s, step) { OtherStepsLeaveUsers(s, step); }
  }

  lemma {:induction false} ReservesKept(s: System, steps: seq<Step>, user: UserId, id: Id, deadline: real, expiresAt: real)
    requires s.q.Valid() && ReservationAlone(s, steps, user, id) && NoReserve(steps, user)
    requires Reserves(s.q, user, id, deadline, expiresAt)
    ensures Reserves(Run(s, steps).q, user, id, deadline, expiresAt)
    decreases |steps|
  {
    if steps != [] {
      StepKeepsReserves(s, steps[0], user, id, deadline, expiresAt);
      ReservesKept(Next(s, steps[0]), steps[1..], user, id, deadline, expiresAt);
    }
  }

  /**
    The rescore of a started execution moves its reservation's deadline but not the expiry of its user's set. So unless
    the user reserves again, it counts until the deadline exactly if the set lasts that long.
   */
  lemma RescoredCountsIff(s: System, w: nat, now: real, deadline: real, expiresAt: real, steps: seq<Step>)
    requires s.q.Valid() && s.PhaseOf(w).Loaded? && now <= s.clock < expiresAt
    requires Reserves(s.q, s.PhaseOf(w).request.user, s.PhaseOf(w).id, deadline, expiresAt)
    requires ReservationAlone(Next(s, RescoreStep(w, now)), steps, s.PhaseOf(w).request.user, s.PhaseOf(w).id)
    requires NoReserve(steps, s.PhaseOf(w).request.user)
    ensures var n := Run(Next(s, RescoreStep(w, now)), steps); var Loaded(id, request) := s.PhaseOf(w);
      Counts(n, request.user, id) <==> n.clock < now + SlotSeconds(request) && n.clock < expiresAt
  {
    var Loaded(id, request) := s.PhaseOf(w);
    var rescored := Next(s, RescoreStep(w, now));
    assert Reserves(rescored.q, request.user, id, now + SlotSeconds(request), expiresAt);
    ReservesKept(rescored, steps, request.user, id, now + SlotSeconds(request), expiresAt);
  }

  const HOUR_RUN := Request(1, Python, 3600)
  const RESERVED := Reserved(map[7 := 86400.0], 86400.0)
  const OWNERS := map[7 := Owned(1, 86400.0)]
  const STORED := map[7 := Stored(HOUR_RUN, 86400.0)]

  /** A day minus ten seconds after its reservation, an execution is popped and its request loaded. */
  const LOADED := System(
    Queue([map[], map[], map[], map[], map[]], map[7 := 90290.0], STORED, map[1 := RESERVED], OWNERS),
    map[0 := Loaded(7, HOUR_RUN)], 86390.0, map[(1, 7) := 86400.0])

  const RESERVE := ReserveStep(1, 7, 1, 0.0)
  const ENQUEUE := EnqueueStep(7, 2, 0.0, HOUR_RUN)

  lemma ReservedAndQueued()
    ensures Next(Next(EMPTY, RESERVE), ENQUEUE)
         == System(Queue([map[], map[], map[7 := 0.0], map[], map[]], map[], STORED, map[1 := RESERVED], OWNERS),
                   map[], 0.0, map[(1, 7) := 86400.0])
  {
    assert LiveSlots(EMPTY.q, 1, 0.0) == map[] && Prune(map[], 0.0) == map[];
  }

  lemma PoppedAndLoaded()
    ensures var queued := Next(Next(EMPTY, RESERVE), ENQUEUE);
      Next(Next(Next(queued, Tick(86390.0)), Pop(0, 1, 86390.0)), Load(0)) == LOADED
  {
    ReservedAndQueued();
    var late := Next(Next(Next(EMPTY, RESERVE), ENQUEUE), Tick(86390.0));
    assert Prune(map[], 86390.0) == map[] && 7 in late.q.pending[2];
    assert FirstNonEmpty(late.q.pending, 2) == 2 && FirstNonEmpty(late.q.pending, 0) == 2;
    assert Least(late.q.pending[2]) == 7 && map[7 := 0.0] - {7} == map[];
    assert late.q.pending[2 := map[]] == [map[], map[], map[], map[], map[]];
  }

  const LATE := [RESERVE, ENQUEUE, Tick(86390.0), Pop(0, 1, 86390.0), Load(0)]
  const ONE_MORE := [RescoreStep(0, 86390.0), Tick(86400.0), ReserveStep(1, 8, 1, 86400.0)]

  lemma LateRun()
    ensures Run(EMPTY, LATE) == LOADED
  {
    var queued := Next(Next(EMPTY, RESERVE), ENQUEUE);
    PoppedAndLoaded();
    RunTwo(EMPTY, RESERVE, ENQUEUE);
    assert LATE[1..] == [ENQUEUE, Tick(86390.0), Pop(0, 1, 86390.0), Load(0)];
    assert LATE[1..][1..] == [Tick(86390.0), Pop(0, 1, 86390.0), Load(0)];
    assert Run(EMPTY, LATE) == Run(Next(EMPTY, RESERVE), LATE[1..]);
    assert Run(Next(EMPTY, RESERVE), LATE[1..]) == Run(queued, LATE[1..][1..]);
    RunThree(queued, Tick(86390.0), Pop(0, 1, 86390.0), Load(0));
  }

  const RESCORED := LOADED.(
    q := LOADED.q.(reserved := map[1 := Reserved(map[7 := 90290.0], 86400.0)]),
    workers := map[0 := Free], deadlines := map[(1, 7) := 90290.0])

  lemma RescoredLate()
    ensures Next(LOADED, RescoreStep(0, 86390.0)) == RESCORED
  {
    assert SlotSeconds(HOUR_RUN) == 3900.0;
    var n := Next(LOADED, RescoreStep(0, 86390.0));
    assert LOADED.q.running[7 := 90290.0] == RESCORED.q.running && RESERVED.slots[7 := 90290.0] == map[7 := 90290.0];
    assert n.q.reserved == RESCORED.q.reserved;
    assert n.workers == RESCORED.workers && n.deadlines == RESCORED.deadlines;
  }

  lemma SecondJoinsNothing(q: Queue)
    requires 1 in q.reserved && q.reserved[1].expiresAt == 86400.0
    ensures var r := Reserve(q, 1, 8, 1, 86400.0, 86400.0).0;
      r.running == q.running && InFlight(r, 1, 86400.0, 86400.0) == {8}
  {
    assert InFlight(q, 1, 86400.0, 86400.0) == {};
    GrantedIff(q, 1, 8, 1, 86400.0, 86400.0);
    GrantJoins(q, 1, 8, 1, 86400.0, 86400.0);
  }

  /** The user's set has expired, so the next reservation is granted and starts a new one. */
  lemma SecondIsGranted()
    ensures var n := Next(Next(RESCORED, Tick(86400.0)), ReserveStep(1, 8, 1, 86400.0));
      n.q.running == map[7 := 90290.0] && n.clock == 86400.0 && InFlight(n.q, 1, n.clock, n.clock) == {8}
  {
    SecondJoinsNothing(RESCORED.q);
    var n := Next(Next(RESCORED, Tick(86400.0)), ReserveStep(1, 8, 1, 86400.0));
    assert n.q == Reserve(RESCORED.q, 1, 8, 1, 86400.0, 86400.0).0;
  }

  /**
    It happens: an execution that starts just before its reservation is a day old still has its slot when the user's
    set expires, and a user with a limit of one gets a second one in flight.
   */
  lemma RunningReservationForgotten()
    ensures var n := Run(Run(EMPTY, LATE), ONE_MORE);
      n.q.running == map[7 := 90290.0] && n.clock == 86400.0 && InFlight(n.q, 1, n.clock, n.clock) == {8}
  {
    LateRun();
    RunThree(LOADED, RescoreStep(0, 86390.0), Tick(86400.0), ReserveStep(1, 8, 1, 86400.0));
    RescoredLate();
    SecondIsGranted();
  }
}

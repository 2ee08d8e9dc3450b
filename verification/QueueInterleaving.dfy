/**
  Many workers on one queue: any sequence of atomic commands, with the pieces of try_schedule and
  release_user_slot as separate steps.

  A step whose worker is not at that point changes nothing, so every list of steps is a run. A clock reading
  passed to a command may be older than the clock when the command executes.
 */
module QueueInterleaving {
  import opened Options
  import opened SortedSets
  import opened ExecutionQueue

  /** Where a worker stands inside try_schedule or release_user_slot. */
  datatype Phase =
    | Free
    | Holding(id: Id)
    | Loaded(id: Id, request: Request)
    | LostRequest(id: Id)
    | FreeingUser(id: Id, user: UserId)

  /** deadlines remembers, for each user and id, the score last written to the user's set. */
  datatype System = System(
    q: Queue,
    workers: map<nat, Phase>,
    clock: real,
    deadlines: map<(UserId, Id), real>
  ) {
    function PhaseOf(w: nat): Phase { if w in workers then workers[w] else Free }

    function At(w: nat, p: Phase): System { this.(workers := workers[w := p]) }

    function Slots(user: UserId): ZSet { if user in q.reserved then q.reserved[user].slots else map[] }
  }

  datatype Step =
    | Tick(to: real)
    | EnqueueStep(id: Id, priority: Priority, score: real, request: Request)
    | Pop(w: nat, maxActive: int, now: real)
    | Load(w: nat)
    | RescoreStep(w: nat, now: real)
    | DropLost(w: nat)
    | ReadOwner(w: nat, id: Id)
    | FreeReservation(w: nat)
    | ReleaseStep(id: Id)
    | RemoveStep(id: Id)
    | UpdateStep(id: Id, priority: Priority)
    | ReserveStep(user: UserId, id: Id, limit: int, now: real)

  function Next(s: System, step: Step): (r: System)
    requires s.q.Valid()
    ensures r.q.Valid()
    ensures s.clock <= r.clock
  {
    match step
    case Tick(to) => if s.clock <= to then s.(clock := to) else s
    case EnqueueStep(id, priority, score, request) => s.(q := Enqueue(s.q, id, priority, score, request, s.clock))
    case Pop(w, maxActive, now) =>
      if s.PhaseOf(w) != Free || now > s.clock then s
      else
        var (q, popped) := Schedule(s.q, maxActive, now, now + PROVISIONAL_SLOT);
        if popped.Nothing? then s.(q := q) else s.(q := q).At(w, Holding(popped.id))
    case Load(w) =>
      if !s.PhaseOf(w).Holding? then s
      else
        var id := s.PhaseOf(w).id;
        (match LoadRequest(s.q, id, s.clock)
         case None => s.At(w, LostRequest(id))
         case Some(request) => s.At(w, Loaded(id, request)))
    case RescoreStep(w, now) =>
      if !s.PhaseOf(w).Loaded? || now > s.clock then s
      else
        var Loaded(id, request) := s.PhaseOf(w);
        var deadline := now + SlotSeconds(request);
        s.(q := RescoreSlots(s.q, id, request, deadline, s.clock),
           deadlines := if id in LiveSlots(s.q, request.user, s.clock)
                        then s.deadlines[(request.user, id) := deadline] else s.deadlines).At(w, Free)
    case DropLost(w) =>
      if !s.PhaseOf(w).LostRequest? then s
      else s.(q := DropRunning(s.q, s.PhaseOf(w).id)).At(w, Free)
    case ReadOwner(w, id) =>
      if s.PhaseOf(w) != Free then s
      else
        (match OwnerOf(s.q, id, s.clock)
         case None => s
         case Some(user) => s.At(w, FreeingUser(id, user)))
    case FreeReservation(w) =>
      if !s.PhaseOf(w).FreeingUser? then s
      else s.(q := FreeUserSlot(s.q, s.PhaseOf(w).user, s.PhaseOf(w).id)).At(w, Free)
    case ReleaseStep(id) => s.(q := Release(s.q, id))
    case RemoveStep(id) => s.(q := Remove(s.q, id).0)
    case UpdateStep(id, priority) => s.(q := UpdatePriority(s.q, id, priority).0)
    case ReserveStep(user, id, limit, now) =>
      if now > s.clock then s
      else
        var (q, granted) := Reserve(s.q, user, id, limit, now, s.clock);
        s.(q := q, deadlines := if granted then s.deadlines[(user, id) := now + EVENT_TTL] else s.deadlines)
  }

  function Run(s: System, steps: seq<Step>): (r: System)
    requires s.q.Valid()
    ensures r.q.Valid()
    ensures s.clock <= r.clock
    decreases |steps|
  {
    if steps == [] then s else Run(Next(s, steps[0]), steps[1..])
  }

  // ---- the running set

  /** No interleaving pushes the running set past the largest limit any scheduler used. */
  lemma {:induction false} RunningBounded(s: System, steps: seq<Step>, limit: nat)
    requires s.q.Valid() && |s.q.running| <= limit
    requires forall k | 0 <= k < |steps| && steps[k].Pop? :: steps[k].maxActive <= limit
    ensures |Run(s, steps).q.running| <= limit
    decreases |steps|
  {
    if steps != [] {
      StepKeepsBound(s, steps[0], limit);
      RunningBounded(Next(s, steps[0]), steps[1..], limit);
    }
  }

  lemma OtherStepsShrinkRunning(s: System, step: Step)
    requires s.q.Valid() && !step.Pop?
    ensures Next(s, step).q.running.Keys <= s.q.running.Keys
  {
  }

  lemma PopKeepsBound(s: System, step: Step, limit: nat)
    requires s.q.Valid() && |s.q.running| <= limit && step.Pop? && step.maxActive <= limit
    ensures |Next(s, step).q.running| <= limit
  {
    PruneShrinks(s.q.running, step.now);
    var pruned := Prune(s.q.running, step.now);
    var popped := Schedule(s.q, step.maxActive, step.now, step.now + PROVISIONAL_SLOT).1;
    if popped.Popped? { AddWithin(pruned, popped.id, step.now + PROVISIONAL_SLOT, step.maxActive); }
  }

  lemma StepKeepsBound(s: System, step: Step, limit: nat)
    requires s.q.Valid() && |s.q.running| <= limit
    requires step.Pop? ==> step.maxActive <= limit
    ensures |Next(s, step).q.running| <= limit
  {
    if step.Pop? {
      PopKeepsBound(s, step, limit);
    } else {
      OtherStepsShrinkRunning(s, step);
      SubsetSize(Next(s, step).q.running.Keys, s.q.running.Keys);
    }
  }

  /** The step pops this id into a slot. */
  ghost predicate TakesSlot(s: System, step: Step, id: Id)
    requires s.q.Valid()
  {
    && step.Pop? && s.PhaseOf(step.w) == Free && step.now <= s.clock
    && var popped := Schedule(s.q, step.maxActive, step.now, step.now + PROVISIONAL_SLOT).1;
       popped.Popped? && popped.id == id
  }

  lemma OnlyPopAdds(s: System, step: Step, id: Id)
    requires s.q.Valid() && id !in s.q.running && id in Next(s, step).q.running
    ensures TakesSlot(s, step, id)
  {
  }

  /** A freed slot comes back only when the scheduling script pops its id again: the rescore never adds one. */
  lemma {:induction false} SlotNeedsPop(s: System, steps: seq<Step>, id: Id) returns (k: nat)
    requires s.q.Valid() && id !in s.q.running && id in Run(s, steps).q.running
    ensures k < |steps| && TakesSlot(Run(s, steps[..k]), steps[k], id)
    decreases |steps|
  {
    var next := Next(s, steps[0]);
    if id in next.q.running {
      OnlyPopAdds(s, steps[0], id);
      k := 0;
    } else {
      var j := SlotNeedsPop(next, steps[1..], id);
      k := j + 1;
      assert steps[..k][0] == steps[0] && steps[..k][1..] == steps[1..][..j];
    }
  }

  /** The step gives up, replaces or rescores this id's slot. */
  ghost predicate Touches(s: System, step: Step, id: Id)
    requires s.q.Valid()
  {
    || TakesSlot(s, step, id)
    || ((step.ReleaseStep? || step.RemoveStep?) && step.id == id)
    || (step.DropLost? && s.PhaseOf(step.w) == LostRequest(id))
    || (step.RescoreStep? && s.PhaseOf(step.w).Loaded? && s.PhaseOf(step.w).id == id)
  }

  ghost predicate Untouched(s: System, steps: seq<Step>, id: Id)
    requires s.q.Valid()
    decreases |steps|
  {
    steps == [] || (!Touches(s, steps[0], id) && Untouched(Next(s, steps[0]), steps[1..], id))
  }

  lemma StepKeepsSlot(s: System, step: Step, id: Id)
    requires s.q.Valid() && id in s.q.running && !Touches(s, step, id) && Next(s, step).clock < s.q.running[id]
    ensures id in Next(s, step).q.running && Next(s, step).q.running[id] == s.q.running[id]
  {
  }

  /** Until its deadline, a slot nobody touches stays exactly as it is. */
  lemma {:induction false} SlotKept(s: System, steps: seq<Step>, id: Id)
    requires s.q.Valid() && id in s.q.running && Untouched(s, steps, id)
    requires Run(s, steps).clock < s.q.running[id]
    ensures id in Run(s, steps).q.running && Run(s, steps).q.running[id] == s.q.running[id]
    decreases |steps|
  {
    if steps != [] {
      StepKeepsSlot(s, steps[0], id);
      SlotKept(Next(s, steps[0]), steps[1..], id);
    }
  }

  predicate Handles(p: Phase, id: Id) { (p.Holding? || p.Loaded? || p.LostRequest?) && p.id == id }

  /** The id waits nowhere, and no worker but one is scheduling it. */
  ghost predicate OnlyWith(s: System, id: Id, w: Option<nat>) {
    && (forall i | 0 <= i < |s.q.pending| :: id !in s.q.pending[i])
    && (forall v | v in s.workers && w != Some(v) :: !Handles(s.workers[v], id))
  }

  /** The step neither enqueues, releases nor removes the id, nor does the worker end its scheduling. */
  predicate LeavesAlone(step: Step, id: Id, w: Option<nat>) {
    && !((step.EnqueueStep? || step.ReleaseStep? || step.RemoveStep?) && step.id == id)
    && !((step.RescoreStep? || step.DropLost?) && w == Some(step.w))
  }

  lemma LeftAloneIsUntouched(s: System, step: Step, id: Id, w: Option<nat>)
    requires s.q.Valid() && OnlyWith(s, id, w) && LeavesAlone(step, id, w)
    ensures !Touches(s, step, id)
  {
  }

  lemma LeftAloneWaitsNowhere(s: System, step: Step, id: Id, w: Option<nat>)
    requires s.q.Valid() && OnlyWith(s, id, w) && LeavesAlone(step, id, w)
    ensures forall i | 0 <= i < |Next(s, step).q.pending| :: id !in Next(s, step).q.pending[i]
  {
  }

  lemma LeftAloneKeepsWorkers(s: System, step: Step, id: Id, w: Option<nat>)
    requires s.q.Valid() && OnlyWith(s, id, w) && LeavesAlone(step, id, w)
    ensures forall v | v in Next(s, step).workers && w != Some(v) :: !Handles(Next(s, step).workers[v], id)
  {
  }

  lemma {:induction false} LeftAlone(s: System, steps: seq<Step>, id: Id, w: Option<nat>)
    requires s.q.Valid() && OnlyWith(s, id, w) && forall k | 0 <= k < |steps| :: LeavesAlone(steps[k], id, w)
    ensures Untouched(s, steps, id) && OnlyWith(Run(s, steps), id, w)
    decreases |steps|
  {
    if steps != [] {
      LeftAloneIsUntouched(s, steps[0], id, w);
      LeftAloneWaitsNowhere(s, steps[0], id, w);
      LeftAloneKeepsWorkers(s, steps[0], id, w);
      LeftAlone(Next(s, steps[0]), steps[1..], id, w);
    }
  }

  /**
    From the pop until its pod's own deadline, an execution that nobody enqueues again keeps its slot until it is
    released or removed: before runs while the request loads, after runs once the slot has its real deadline, and
    both may hold any other steps of any workers.
   */
  lemma SlotCoversPod(s: System, pop: Step, id: Id, before: seq<Step>, request: Request,
                      rescore: Step, after: seq<Step>, podStart: real)
    requires s.q.Valid() && pop.Pop? && rescore.RescoreStep? && rescore.w == pop.w
    requires TakesSlot(s, pop, id) && OnlyWith(Next(s, pop), id, Some(pop.w))
    requires forall k | 0 <= k < |before| :: LeavesAlone(before[k], id, Some(pop.w))
    requires forall k | 0 <= k < |after| :: LeavesAlone(after[k], id, None)
    requires var loaded := Run(Next(s, pop), before);
      && loaded.clock < pop.now + PROVISIONAL_SLOT
      && loaded.PhaseOf(pop.w) == Loaded(id, request) && rescore.now <= loaded.clock
    requires request.timeoutSeconds != 0
    requires podStart <= rescore.now + SLOT_GRACE
    requires Run(Next(Run(Next(s, pop), before), rescore), after).clock < podStart + PodSeconds(request)
    ensures id in Run(Next(s, pop), before).q.running
    ensures id in Run(Next(Run(Next(s, pop), before), rescore), after).q.running
  {
    PopFillsSlot(s, pop, id);
    SlotCoversLoad(Next(s, pop), id, pop.w, before);
    SlotCoversRun(Run(Next(s, pop), before), rescore, id, request, after, podStart);
  }

  lemma PopFillsSlot(s: System, pop: Step, id: Id)
    requires s.q.Valid() && pop.Pop? && TakesSlot(s, pop, id)
    ensures id in Next(s, pop).q.running && Next(s, pop).q.running[id] == pop.now + PROVISIONAL_SLOT
  {
  }

  lemma SlotCoversLoad(s: System, id: Id, w: nat, before: seq<Step>)
    requires s.q.Valid() && OnlyWith(s, id, Some(w)) && id in s.q.running
    requires forall k | 0 <= k < |before| :: LeavesAlone(before[k], id, Some(w))
    requires Run(s, before).clock < s.q.running[id]
    ensures id in Run(s, before).q.running && OnlyWith(Run(s, before), id, Some(w))
  {
    LeftAlone(s, before, id, Some(w));
    SlotKept(s, before, id);
  }

  lemma SlotCoversRun(s: System, rescore: Step, id: Id, request: Request, after: seq<Step>, podStart: real)
    requires s.q.Valid() && rescore.RescoreStep? && OnlyWith(s, id, Some(rescore.w)) && id in s.q.running
    requires s.PhaseOf(rescore.w) == Loaded(id, request) && rescore.now <= s.clock
    requires forall k | 0 <= k < |after| :: LeavesAlone(after[k], id, None)
    requires request.timeoutSeconds != 0 && podStart <= rescore.now + SLOT_GRACE
    requires Run(Next(s, rescore), after).clock < podStart + PodSeconds(request)
    ensures id in Run(Next(s, rescore), after).q.running
  {
    RescoreEnds(s, rescore, id);
    LeftAlone(Next(s, rescore), after, id, None);
    SlotKept(Next(s, rescore), after, id);
  }

  lemma RescoreEnds(s: System, rescore: Step, id: Id)
    requires s.q.Valid() && rescore.RescoreStep? && OnlyWith(s, id, Some(rescore.w)) && id in s.q.running
    requires s.PhaseOf(rescore.w).Loaded? && s.PhaseOf(rescore.w).id == id && rescore.now <= s.clock
    ensures var n := Next(s, rescore);
      && OnlyWith(n, id, None) && n.clock == s.clock
      && id in n.q.running && n.q.running[id] == rescore.now + SlotSeconds(s.PhaseOf(rescore.w).request)
  {
  }

  /**
    The slot outlasts every pod that starts within the grace period exactly when the timeout is not zero: the
    pod builder turns a zero into 300 seconds and the queue does not.
   */
  lemma SlotOutlastsPodIff(request: Request)
    ensures (forall loadedAt, podStart :: CoversStart(request, loadedAt, podStart)) <==> request.timeoutSeconds != 0
    ensures request.timeoutSeconds <= 3600 ==> SlotSeconds(request) <= PROVISIONAL_SLOT
  {
    if request.timeoutSeconds == 0 {
      assert !CoversStart(request, 0.0, SLOT_GRACE);
    }
  }

  /** A pod that starts at podStart, within the grace period, is done by the deadline of a slot rescored at loadedAt. */
  ghost predicate CoversStart(request: Request, loadedAt: real, podStart: real) {
    podStart <= loadedAt + SLOT_GRACE ==> podStart + PodSeconds(request) <= loadedAt + SlotSeconds(request)
  }

  // ---- user reservations

  /** No interleaving leaves a user with more reservations than the largest limit used. */
  lemma {:induction false} ReservationsBounded(s: System, steps: seq<Step>, user: UserId, limit: nat)
    requires s.q.Valid() && |s.Slots(user)| <= limit
    requires forall k | 0 <= k < |steps| && steps[k].ReserveStep? :: steps[k].limit <= limit
    ensures |Run(s, steps).Slots(user)| <= limit
    decreases |steps|
  {
    if steps != [] {
      StepKeepsReservations(s, steps[0], user, limit);
      ReservationsBounded(Next(s, steps[0]), steps[1..], user, limit);
    }
  }

  lemma ReserveKeepsReservations(s: System, step: Step, limit: nat)
    requires s.q.Valid() && step.ReserveStep? && step.now <= s.clock && step.limit <= limit
    requires |s.Slots(step.user)| <= limit
    ensures |Next(s, step).Slots(step.user)| <= limit
  {
    var live := LiveSlots(s.q, step.user, s.clock);
    PruneShrinks(live, step.now);
    var slots := Prune(live, step.now);
    if |slots| < step.limit { AddWithin(slots, step.id, step.now + EVENT_TTL, step.limit); }
  }

  lemma OtherStepsShrinkSlots(s: System, step: Step, user: UserId)
    requires s.q.Valid() && !(step.ReserveStep? && step.user == user && step.now <= s.clock)
    ensures Next(s, step).Slots(user).Keys <= s.Slots(user).Keys
  {
    if !ChangesUsers(s, step) { OtherStepsLeaveUsers(s, step); }
  }

  lemma StepKeepsReservations(s: System, step: Step, user: UserId, limit: nat)
    requires s.q.Valid() && |s.Slots(user)| <= limit
    requires step.ReserveStep? ==> step.limit <= limit
    ensures |Next(s, step).Slots(user)| <= limit
  {
    if step.ReserveStep? && step.user == user && step.now <= s.clock {
      ReserveKeepsReservations(s, step, limit);
    } else {
      OtherStepsShrinkSlots(s, step, user);
      SubsetSize(Next(s, step).Slots(user).Keys, s.Slots(user).Keys);
    }
  }

  /**
    The owner index agrees with the users' sets: an id with a live owner is in that owner's set, whose key outlives
    the owner's, unless the deadline last written for it has passed.
   */
  ghost predicate OwnersAgree(s: System) {
    && (forall user, id | user in s.q.reserved && id in s.q.reserved[user].slots ::
          (user, id) in s.deadlines && s.deadlines[(user, id)] == s.q.reserved[user].slots[id])
    && (forall user | user in s.q.reserved :: s.q.reserved[user].expiresAt <= s.clock + EVENT_TTL)
    && (forall id | id in s.q.owners && s.clock < s.q.owners[id].expiresAt :: OwnerAgrees(s, id))
  }

  ghost predicate OwnerAgrees(s: System, id: Id)
    requires id in s.q.owners
  {
    var user := s.q.owners[id].user;
    && user in s.q.reserved && s.q.owners[id].expiresAt <= s.q.reserved[user].expiresAt
    && (id in s.q.reserved[user].slots || ((user, id) in s.deadlines && s.deadlines[(user, id)] <= s.clock))
  }

  /** Steps that leave users' sets, owners and written deadlines alone keep the index agreeing as time passes. */
  lemma OtherStepsKeepOwners(s: System, n: System)
    requires OwnersAgree(s) && s.clock <= n.clock && s.deadlines == n.deadlines
    requires s.q.reserved == n.q.reserved && s.q.owners == n.q.owners
    ensures OwnersAgree(n)
  {
    forall id | id in n.q.owners && n.clock < n.q.owners[id].expiresAt ensures OwnerAgrees(n, id) {
      assert OwnerAgrees(s, id);
    }
  }

  /** The step changes users' sets or owners. */
  predicate ChangesUsers(s: System, step: Step) {
    || (step.ReserveStep? && step.now <= s.clock)
    || (step.RescoreStep? && s.PhaseOf(step.w).Loaded? && step.now <= s.clock)
    || (step.FreeReservation? && s.PhaseOf(step.w).FreeingUser?)
  }

  predicate SameUsers(s: System, n: System) {
    n.q.reserved == s.q.reserved && n.q.owners == s.q.owners && n.deadlines == s.deadlines
  }

  lemma PopLeavesUsers(s: System, step: Step)
    requires s.q.Valid() && step.Pop?
    ensures SameUsers(s, Next(s, step))
  {
    var q := Schedule(s.q, step.maxActive, step.now, step.now + PROVISIONAL_SLOT).0;
    assert q.reserved == s.q.reserved && q.owners == s.q.owners;
  }

  lemma OtherStepsLeaveUsers(s: System, step: Step)
    requires s.q.Valid() && !ChangesUsers(s, step)
    ensures SameUsers(s, Next(s, step))
  {
    if step.Pop? { PopLeavesUsers(s, step); }
  }

  lemma ReserveKeepsOwners(s: System, step: Step)
    requires s.q.Valid() && OwnersAgree(s) && step.ReserveStep? && step.now <= s.clock
    ensures OwnersAgree(Next(s, step))
  {
    var n := Next(s, step);
    forall id | id in n.q.owners && n.clock < n.q.owners[id].expiresAt ensures OwnerAgrees(n, id) {
      if Reserve(s.q, step.user, step.id, step.limit, step.now, s.clock).1 && id == step.id {
        assert id in n.q.reserved[step.user].slots;
      } else {
        assert OwnerAgrees(s, id);
        if s.q.owners[id].user == step.user && id in s.q.reserved[step.user].slots {
          assert LiveSlots(s.q, step.user, s.clock) == s.q.reserved[step.user].slots;
        }
      }
    }
  }

  lemma RescoreKeepsOwners(s: System, step: Step)
    requires s.q.Valid() && OwnersAgree(s) && step.RescoreStep? && s.PhaseOf(step.w).Loaded? && step.now <= s.clock
    ensures OwnersAgree(Next(s, step))
  {
    var n := Next(s, step);
    forall id | id in n.q.owners && n.clock < n.q.owners[id].expiresAt ensures OwnerAgrees(n, id) {
      assert OwnerAgrees(s, id);
    }
  }

  lemma FreeKeepsOwners(s: System, step: Step)
    requires s.q.Valid() && OwnersAgree(s) && step.FreeReservation? && s.PhaseOf(step.w).FreeingUser?
    ensures OwnersAgree(Next(s, step))
  {
    var n := Next(s, step);
    forall id | id in n.q.owners && n.clock < n.q.owners[id].expiresAt ensures OwnerAgrees(n, id) {
      assert OwnerAgrees(s, id);
    }
  }

  lemma StepKeepsOwners(s: System, step: Step)
    requires s.q.Valid() && OwnersAgree(s)
    ensures OwnersAgree(Next(s, step))
  {
    if ChangesUsers(s, step) {
      match step
      case ReserveStep(_, _, _, _) => ReserveKeepsOwners(s, step);
      case RescoreStep(_, _) => RescoreKeepsOwners(s, step);
      case FreeReservation(_) => FreeKeepsOwners(s, step);
    } else {
      OtherStepsLeaveUsers(s, step);
      OtherStepsKeepOwners(s, Next(s, step));
    }
  }

  lemma {:induction false} OwnersAgreeAlways(s: System, steps: seq<Step>)
    requires s.q.Valid() && OwnersAgree(s)
    ensures OwnersAgree(Run(s, steps))
    decreases |steps|
  {
    if steps != [] {
      StepKeepsOwners(s, steps[0]);
      OwnersAgreeAlways(Next(s, steps[0]), steps[1..]);
    }
  }

  const EMPTY := System(Queue([map[], map[], map[], map[], map[]], map[], map[], map[], map[]), map[], 0.0, map[])

  /** From an empty Redis, every reachable state keeps both limits and an agreeing owner index. */
  lemma LimitsHoldInEveryRun(steps: seq<Step>, maxActive: nat, userLimit: nat, user: UserId)
    requires forall k | 0 <= k < |steps| && steps[k].Pop? :: steps[k].maxActive <= maxActive
    requires forall k | 0 <= k < |steps| && steps[k].ReserveStep? :: steps[k].limit <= userLimit
    ensures |Run(EMPTY, steps).q.running| <= maxActive
    ensures |Run(EMPTY, steps).Slots(user)| <= userLimit
    ensures OwnersAgree(Run(EMPTY, steps))
  {
    RunningBounded(EMPTY, steps, maxActive);
    ReservationsBounded(EMPTY, steps, user, userLimit);
    OwnersAgreeAlways(EMPTY, steps);
  }
}

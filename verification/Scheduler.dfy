/**
  The scheduler's drain loop (backend/app/services/execution_scheduler.py), with no concurrent enqueue.

  Pod creation may succeed or raise, and the clock may move at every command.
 */
module Scheduler {
  import opened Options
  import opened SortedSets
  import opened ExecutionQueue
  import opened QueueOrder
  import Workers = QueueInterleaving

  /** Every reservation belongs to the user its owner key names; true of ids that are reserved once. */
  ghost predicate SlotsOwned(q: Queue) {
    forall user, id | user in q.reserved && id in q.reserved[user].slots :: id in q.owners && q.owners[id].user == user
  }

  /** The id holds no reservation, or its owner key ran out and the reservation lapses at its own deadline. */
  ghost predicate UserSlotGone(q: Queue, id: Id, clock: real) {
    || (forall user | user in q.reserved :: id !in q.reserved[user].slots)
    || (id in q.owners && q.owners[id].expiresAt <= clock)
  }

  lemma ReserveKeepsOwned(q: Queue, user: UserId, id: Id, limit: int, now: real, clock: real)
    requires SlotsOwned(q)
    requires forall other | other in q.reserved && other != user :: id !in q.reserved[other].slots
    ensures SlotsOwned(Reserve(q, user, id, limit, now, clock).0)
  {
  }

  /** users remembers who reserved each id: owner keys and workers about to free a slot name that user. */
  ghost predicate Assigned(s: Workers.System, users: map<Id, UserId>) {
    s.q.Valid() && SlotsOwned(s.q) && OwnersAssigned(s.q.owners, users) && FreeingAssigned(s.workers, users)
  }

  ghost predicate OwnersAssigned(owners: map<Id, Owned>, users: map<Id, UserId>) {
    forall id | id in owners :: id in users && users[id] == owners[id].user
  }

  ghost predicate FreeingAssigned(workers: map<nat, Workers.Phase>, users: map<Id, UserId>) {
    forall w | w in workers && workers[w].FreeingUser? :: workers[w].id in users && users[workers[w].id] == workers[w].user
  }

  lemma ReserveKeepsAssigned(s: Workers.System, step: Workers.Step, users: map<Id, UserId>)
    requires Assigned(s, users) && step.ReserveStep? && step.now <= s.clock && step.id !in users
    ensures Assigned(Workers.Next(s, step), users[step.id := step.user])
  {
    ReserveKeepsOwned(s.q, step.user, step.id, step.limit, step.now, s.clock);
  }

  lemma RescoreKeepsAssigned(s: Workers.System, step: Workers.Step, users: map<Id, UserId>)
    requires Assigned(s, users) && step.RescoreStep? && Workers.ChangesUsers(s, step)
    ensures Assigned(Workers.Next(s, step), users)
  {
  }

  lemma FreeKeepsAssigned(s: Workers.System, step: Workers.Step, users: map<Id, UserId>)
    requires Assigned(s, users) && step.FreeReservation? && Workers.ChangesUsers(s, step)
    ensures Assigned(Workers.Next(s, step), users)
  {
  }

  lemma OtherStepsKeepAssigned(s: Workers.System, step: Workers.Step, users: map<Id, UserId>)
    requires Assigned(s, users) && !Workers.ChangesUsers(s, step)
    ensures Assigned(Workers.Next(s, step), users)
  {
    var n := Workers.Next(s, step);
    Workers.OtherStepsLeaveUsers(s, step);
    assert SlotsOwned(n.q) && OwnersAssigned(n.q.owners, users);
    assert forall w | w in n.workers && n.workers[w].FreeingUser? ::
      (w in s.workers && n.workers[w] == s.workers[w])
      || (n.workers[w].id in s.q.owners && s.q.owners[n.workers[w].id].user == n.workers[w].user);
  }

  lemma StepKeepsAssigned(s: Workers.System, step: Workers.Step, users: map<Id, UserId>) returns (next: map<Id, UserId>)
    requires Assigned(s, users) && (step.ReserveStep? ==> step.id !in users)
    ensures Assigned(Workers.Next(s, step), next)
    ensures next.Keys <= users.Keys + if step.ReserveStep? then {step.id} else {}
  {
    next := users;
    if Workers.ChangesUsers(s, step) {
      match step
      case ReserveStep(user, id, _, _) =>
        ReserveKeepsAssigned(s, step, users);
        next := users[id := user];
      case RescoreStep(_, _) => RescoreKeepsAssigned(s, step, users);
      case FreeReservation(_) => FreeKeepsAssigned(s, step, users);
    } else {
      OtherStepsKeepAssigned(s, step, users);
    }
  }

  lemma {:induction false} RunKeepsAssigned(s: Workers.System, steps: seq<Workers.Step>, users: map<Id, UserId>)
    requires Assigned(s, users)
    requires forall k | 0 <= k < |steps| && steps[k].ReserveStep? :: steps[k].id !in users
    requires forall j, k | 0 <= j < k < |steps| && steps[j].ReserveStep? && steps[k].ReserveStep? :: steps[j].id != steps[k].id
    ensures SlotsOwned(Workers.Run(s, steps).q)
    decreases |steps|
  {
    if steps != [] {
      var next := StepKeepsAssigned(s, steps[0], users);
      forall k | 0 <= k < |steps[1..]| && steps[1..][k].ReserveStep? ensures steps[1..][k].id !in next {
        assert steps[1..][k] == steps[k + 1];
      }
      RunKeepsAssigned(Workers.Next(s, steps[0]), steps[1..], next);
    }
  }

  /** In every interleaving that reserves each id at most once, all reservations belong to the users their owner keys name. */
  lemma SlotsOwnedInEveryRun(steps: seq<Workers.Step>)
    requires forall j, k | 0 <= j < k < |steps| && steps[j].ReserveStep? && steps[k].ReserveStep? :: steps[j].id != steps[k].id
    ensures SlotsOwned(Workers.Run(Workers.EMPTY, steps).q)
  {
    RunKeepsAssigned(Workers.EMPTY, steps, map[]);
  }

  lemma ReleaseFreesUserSlot(q: Queue, id: Id, clock: real)
    requires SlotsOwned(q)
    ensures SlotsOwned(ReleaseUserSlot(q, id, clock))
    ensures UserSlotGone(ReleaseUserSlot(q, id, clock), id, clock)
    ensures forall other, later: real | clock <= later && UserSlotGone(q, other, clock) ::
      UserSlotGone(ReleaseUserSlot(q, id, clock), other, later)
  {
  }

  /** The reply is Idle exactly when the script popped nothing, and then only expired slots are gone. */
  lemma IdleAttempt(q: Queue, maxActive: int, popAt: real, loadAt: real, rescoreAt: real)
    requires TryScheduleAt(q, maxActive, popAt, loadAt, rescoreAt).1.Idle?
    ensures var after := TryScheduleAt(q, maxActive, popAt, loadAt, rescoreAt).0;
      && after == q.(running := Prune(q.running, popAt))
      && (Entries(q.pending) == {} || |after.running| >= maxActive)
  {
    ScheduleTakesHead(q, maxActive, popAt, popAt + PROVISIONAL_SLOT);
  }

  /** An attempt that popped an id took the head of the queue, which now waits nowhere. */
  lemma BusyTakesHead(q: Queue, maxActive: int, popAt: real, loadAt: real, rescoreAt: real)
    requires q.Valid() && Unique(q.pending)
    requires !TryScheduleAt(q, maxActive, popAt, loadAt, rescoreAt).1.Idle?
    ensures var (after, outcome) := TryScheduleAt(q, maxActive, popAt, loadAt, rescoreAt);
      && after.Valid() && Unique(after.pending)
      && Waits(q.pending, outcome.id) && !Waits(after.pending, outcome.id)
      && exists e :: IsHead(Entries(q.pending), e) && e.id == outcome.id && Entries(after.pending) == Entries(q.pending) - {e}
  {
    ScheduleTakesHead(q, maxActive, popAt, popAt + PROVISIONAL_SLOT);
    ScheduleKeepsUnique(q, maxActive, popAt, popAt + PROVISIONAL_SLOT);
  }

  /** It leaves the unexpired slots of other ids alone; its own id has a rescored slot, or none when it was lost. */
  lemma BusySlots(q: Queue, maxActive: int, popAt: real, loadAt: real, rescoreAt: real)
    requires !TryScheduleAt(q, maxActive, popAt, loadAt, rescoreAt).1.Idle?
    ensures var (after, outcome) := TryScheduleAt(q, maxActive, popAt, loadAt, rescoreAt);
      && (forall other | other != outcome.id ::
            && (other in after.running <==> other in q.running && q.running[other] > popAt)
            && (other in after.running ==> after.running[other] == q.running[other]))
      && (outcome.Lost? ==> outcome.id !in after.running)
      && (outcome.Scheduled? ==>
            && outcome.id in after.running
            && after.running[outcome.id] == rescoreAt + SlotSeconds(outcome.request))
  {
    ScheduleTakesHead(q, maxActive, popAt, popAt + PROVISIONAL_SLOT);
  }

  lemma ScheduleKeepsUsers(q: Queue, maxActive: int, now: real, deadline: real)
    ensures Schedule(q, maxActive, now, deadline).0.reserved == q.reserved
    ensures Schedule(q, maxActive, now, deadline).0.owners == q.owners
    ensures Schedule(q, maxActive, now, deadline).0.requests == q.requests
  {
  }

  lemma BusyUsersLost(q: Queue, maxActive: int, popAt: real, loadAt: real, rescoreAt: real)
    requires SlotsOwned(q) && popAt <= loadAt <= rescoreAt
    requires TryScheduleAt(q, maxActive, popAt, loadAt, rescoreAt).1.Lost?
    ensures var (after, outcome) := TryScheduleAt(q, maxActive, popAt, loadAt, rescoreAt);
      && SlotsOwned(after) && UserSlotGone(after, outcome.id, loadAt)
      && (forall other | UserSlotGone(q, other, popAt) :: UserSlotGone(after, other, rescoreAt))
  {
    var (popped, taken) := Schedule(q, maxActive, popAt, popAt + PROVISIONAL_SLOT);
    ScheduleKeepsUsers(q, maxActive, popAt, popAt + PROVISIONAL_SLOT);
    LostKeepsUsers(q, DropRunning(popped, taken.id), taken.id, popAt, loadAt, rescoreAt);
  }

  lemma BusyUsersScheduled(q: Queue, maxActive: int, popAt: real, loadAt: real, rescoreAt: real)
    requires SlotsOwned(q) && popAt <= loadAt <= rescoreAt
    requires TryScheduleAt(q, maxActive, popAt, loadAt, rescoreAt).1.Scheduled?
    ensures var after := TryScheduleAt(q, maxActive, popAt, loadAt, rescoreAt).0;
      && SlotsOwned(after)
      && (forall other | UserSlotGone(q, other, popAt) :: UserSlotGone(after, other, rescoreAt))
  {
    var (popped, taken) := Schedule(q, maxActive, popAt, popAt + PROVISIONAL_SLOT);
    var r := LoadRequest(popped, taken.id, loadAt).value;
    ScheduleKeepsUsers(q, maxActive, popAt, popAt + PROVISIONAL_SLOT);
    RescoreKeepsUsers(q, popped, taken.id, r, rescoreAt + SlotSeconds(r), rescoreAt, popAt);
  }

  /** It frees the user slot of a lost request and never hands one back. */
  lemma BusyUsers(q: Queue, maxActive: int, popAt: real, loadAt: real, rescoreAt: real)
    requires SlotsOwned(q) && popAt <= loadAt <= rescoreAt
    requires !TryScheduleAt(q, maxActive, popAt, loadAt, rescoreAt).1.Idle?
    ensures var (after, outcome) := TryScheduleAt(q, maxActive, popAt, loadAt, rescoreAt);
      && SlotsOwned(after)
      && (outcome.Lost? ==> UserSlotGone(after, outcome.id, loadAt))
      && (forall other | UserSlotGone(q, other, popAt) :: UserSlotGone(after, other, rescoreAt))
  {
    if TryScheduleAt(q, maxActive, popAt, loadAt, rescoreAt).1.Lost? {
      BusyUsersLost(q, maxActive, popAt, loadAt, rescoreAt);
    } else {
      BusyUsersScheduled(q, maxActive, popAt, loadAt, rescoreAt);
    }
  }

  lemma LostKeepsUsers(q: Queue, dropped: Queue, id: Id, popAt: real, loadAt: real, rescoreAt: real)
    requires SlotsOwned(q) && popAt <= loadAt <= rescoreAt
    requires dropped.reserved == q.reserved && dropped.owners == q.owners
    ensures SlotsOwned(ReleaseUserSlot(dropped, id, loadAt)) && UserSlotGone(ReleaseUserSlot(dropped, id, loadAt), id, loadAt)
    ensures forall other | UserSlotGone(q, other, popAt) :: UserSlotGone(ReleaseUserSlot(dropped, id, loadAt), other, rescoreAt)
  {
    ReleaseFreesUserSlot(dropped, id, loadAt);
    forall other | UserSlotGone(q, other, popAt)
      ensures UserSlotGone(ReleaseUserSlot(dropped, id, loadAt), other, rescoreAt)
    {
      assert UserSlotGone(dropped, other, loadAt);
    }
  }

  lemma RescoreKeepsUsers(
      q: Queue, popped: Queue, id: Id, request: Request, deadline: real, clock: real, earlier: real)
    requires SlotsOwned(q) && earlier <= clock
    requires popped.reserved == q.reserved && popped.owners == q.owners
    ensures SlotsOwned(RescoreSlots(popped, id, request, deadline, clock))
    ensures forall other | UserSlotGone(q, other, earlier) ::
      UserSlotGone(RescoreSlots(popped, id, request, deadline, clock), other, clock)
  {
  }

  /** The slot of a scheduled execution has the deadline it got when it was rescored. */
  predicate RescoredAt(q: Queue, outcome: Outcome, at: real)
    requires outcome.Scheduled?
  {
    outcome.id in q.running && q.running[outcome.id] == at + SlotSeconds(outcome.request)
  }

  /** Everything the drain needs to know about an attempt that popped an id. */
  ghost predicate PoppedOne(q: Queue, after: Queue, outcome: Outcome, popAt: real, loadAt: real, rescoreAt: real)
    requires !outcome.Idle?
  {
    && popAt <= loadAt <= rescoreAt
    && after.Valid() && Unique(after.pending) && SlotsOwned(after)
    && Waits(q.pending, outcome.id) && !Waits(after.pending, outcome.id)
    && (exists e: Entry :: e.id == outcome.id && e in Entries(q.pending) && Entries(after.pending) == Entries(q.pending) - {e})
    && (forall other | other != outcome.id ::
          && (other in after.running <==> other in q.running && q.running[other] > popAt)
          && (other in after.running ==> after.running[other] == q.running[other]))
    && (outcome.Lost? ==> outcome.id !in after.running && UserSlotGone(after, outcome.id, loadAt))
    && (outcome.Scheduled? ==> RescoredAt(after, outcome, rescoreAt))
    && (forall other | UserSlotGone(q, other, popAt) :: UserSlotGone(after, other, rescoreAt))
  }

  lemma AttemptPoppedOne(q: Queue, maxActive: int, popAt: real, loadAt: real, rescoreAt: real)
    requires q.Valid() && Unique(q.pending) && SlotsOwned(q) && popAt <= loadAt <= rescoreAt
    requires !TryScheduleAt(q, maxActive, popAt, loadAt, rescoreAt).1.Idle?
    ensures var (after, outcome) := TryScheduleAt(q, maxActive, popAt, loadAt, rescoreAt);
      PoppedOne(q, after, outcome, popAt, loadAt, rescoreAt)
  {
    BusyTakesHead(q, maxActive, popAt, loadAt, rescoreAt);
    BusySlots(q, maxActive, popAt, loadAt, rescoreAt);
    BusyUsers(q, maxActive, popAt, loadAt, rescoreAt);
  }

  /** The ids that waited in before and no longer do in after. */
  ghost predicate TakenOnly(before: seq<ZSet>, after: seq<ZSet>, popped: seq<Id>) {
    && Entries(after) <= Entries(before)
    && (forall e | e in Entries(before) :: e in Entries(after) || e.id in popped)
    && (forall id | id in popped :: !Waits(after, id))
  }

  lemma PoppedOneShrinks(q: Queue, after: Queue, outcome: Outcome, popAt: real, loadAt: real, rescoreAt: real)
    requires !outcome.Idle? && PoppedOne(q, after, outcome, popAt, loadAt, rescoreAt)
    ensures |Entries(after.pending)| < |Entries(q.pending)|
  {
    var e :| e in Entries(q.pending) && Entries(after.pending) == Entries(q.pending) - {e};
  }

  /**
    What pod creation and the results do: creation raises for uncreated ids before a pod exists, and for orphaned
    ones after it does; the results raise for unreported ids.
   */
  datatype Env = Env(uncreated: set<Id>, orphaned: set<Id>, unreported: set<Id>)

  /**
    How far a drain has come: the ids it popped, those whose pod was created, with their slot deadlines, those handed
    to the results as failed, and those among them that have a pod all the same.
   */
  datatype Progress = Progress(
    q: Queue, clock: real, popped: seq<Id>, started: set<Id>, deadlines: map<Id, real>, failed: seq<Id>, orphans: set<Id>)

  /** The pod was created, and the slot is kept until its deadline. */
  ghost predicate Started(p: Progress, id: Id) {
    && id in p.started && id !in p.failed && id in p.deadlines
    && (id in p.q.running ==> p.q.running[id] == p.deadlines[id])
    && (id in p.q.running || p.deadlines[id] <= p.clock)
  }

  /** The execution was handed to the results as failed, and neither slot is held for it. */
  ghost predicate Failed(p: Progress, id: Id) {
    id in p.failed && id !in p.started && id !in p.q.running && UserSlotGone(p.q, id, p.clock)
  }

  ghost predicate Settled(p: Progress, id: Id) { Started(p, id) || Failed(p, id) }

  /** Only what was popped left the queue, each id once, and only popped ids took slots. */
  ghost predicate Popped(first: Queue, q: Queue, popped: seq<Id>) {
    && q.Valid() && Unique(q.pending) && SlotsOwned(q)
    && TakenOnly(first.pending, q.pending, popped)
    && (forall i, j | 0 <= i < j < |popped| :: popped[i] != popped[j])
    && (forall id | id in popped :: Waits(first.pending, id))
    && (forall id | id in q.running :: id in popped || id in first.running)
  }

  /** Nothing was created or failed that was not popped. */
  ghost predicate Accounted(p: Progress) {
    && (forall id | id in p.started :: id in p.popped)
    && (forall id | id in p.failed :: id in p.popped)
    && (forall id | id in p.orphans :: id in p.popped)
  }

  ghost predicate DrainInvariant(first: Queue, p: Progress) {
    Popped(first, p.q, p.popped) && Accounted(p) && forall id | id in p.popped :: Settled(p, id)
  }

  /**
    Only the last popped execution is not settled: it was neither started nor failed. A scheduled one keeps the slot
    it got when it was rescored, and a lost one has no slot.
   */
  ghost predicate DrainStopped(first: Queue, p: Progress, outcome: Outcome, rescoredAt: real)
    requires !outcome.Idle?
  {
    && Popped(first, p.q, p.popped) && Accounted(p)
    && p.popped != [] && p.popped[|p.popped| - 1] == outcome.id
    && (forall other | other in p.popped && other != outcome.id :: Settled(p, other))
    && outcome.id !in p.started && outcome.id !in p.failed
    && (outcome.Scheduled? ==> RescoredAt(p.q, outcome, rescoredAt))
    && (outcome.Lost? ==> outcome.id !in p.q.running && UserSlotGone(p.q, outcome.id, p.clock))
  }

  /** Creating the pod raises. */
  predicate CreationRaises(outcome: Outcome, env: Env)
    requires !outcome.Idle?
  {
    outcome.Scheduled? && (outcome.id in env.uncreated || outcome.id in env.orphaned)
  }

  /** The round ends in the results, which raise. */
  predicate ResultsRaise(outcome: Outcome, env: Env)
    requires !outcome.Idle?
  {
    (outcome.Lost? || CreationRaises(outcome, env)) && outcome.id in env.unreported
  }

  /** The orphan that a raising pod creation may leave. */
  function WithOrphan(m: Progress, outcome: Outcome, env: Env): Progress
    requires !outcome.Idle?
  {
    if CreationRaises(outcome, env) && outcome.id !in env.uncreated then m.(orphans := m.orphans + {outcome.id}) else m
  }

  /** What a round does about the execution it popped. */
  function Concluded(m: Progress, outcome: Outcome, env: Env): Progress
    requires !outcome.Idle? && (outcome.Scheduled? ==> outcome.id in m.q.running)
  {
    var id, n := outcome.id, WithOrphan(m, outcome, env);
    if ResultsRaise(outcome, env) then n
    else if outcome.Lost? then n.(failed := n.failed + [id])
    else if CreationRaises(outcome, env) then
      n.(q := ReleaseUserSlot(Release(n.q, id), id, n.clock), failed := n.failed + [id])
    else n.(started := n.started + {id}, deadlines := n.deadlines[id := n.q.running[id]])
  }

  lemma AttemptTakes(before: seq<ZSet>, pending: seq<ZSet>, after: seq<ZSet>, popped: seq<Id>, id: Id, e: Entry)
    requires TakenOnly(before, pending, popped)
    requires e.id == id && e in Entries(pending) && Entries(after) == Entries(pending) - {e} && !Waits(after, id)
    ensures id !in popped && Waits(before, id) && TakenOnly(before, after, popped + [id])
  {
    WaitsIsEntry(pending, id);
    WaitsIsEntry(before, id);
    forall other | other in popped + [id] ensures !Waits(after, other) {
      WaitsIsEntry(pending, other);
      WaitsIsEntry(after, other);
    }
  }

  lemma AttemptPops(
      first: Queue, q: Queue, popped: seq<Id>, after: Queue, outcome: Outcome, popAt: real, loadAt: real, rescoreAt: real)
    requires Popped(first, q, popped) && !outcome.Idle? && PoppedOne(q, after, outcome, popAt, loadAt, rescoreAt)
    ensures outcome.id !in popped && Popped(first, after, popped + [outcome.id])
  {
    var e: Entry :| e.id == outcome.id && e in Entries(q.pending) && Entries(after.pending) == Entries(q.pending) - {e};
    AttemptTakes(first.pending, q.pending, after.pending, popped, outcome.id, e);
  }

  /** The ids already popped stay settled through the next attempt, whatever it pops. */
  lemma AttemptKeeps(p: Progress, after: Queue, outcome: Outcome, popAt: real, loadAt: real, rescoreAt: real, later: real, id: Id)
    requires p.clock <= popAt && rescoreAt <= later
    requires !outcome.Idle? && PoppedOne(p.q, after, outcome, popAt, loadAt, rescoreAt)
    requires Settled(p, id) && id != outcome.id
    ensures Settled(p.(q := after, clock := later), id)
  {
    if Failed(p, id) {
      assert UserSlotGone(p.q, id, popAt);
      assert UserSlotGone(after, id, rescoreAt);
    }
  }

  /** So after an attempt only the popped id is not settled yet. */
  lemma AttemptStops(
      first: Queue, p: Progress, after: Queue, outcome: Outcome, popAt: real, loadAt: real, rescoreAt: real, later: real)
    requires DrainInvariant(first, p) && p.clock <= popAt && rescoreAt <= later
    requires !outcome.Idle? && PoppedOne(p.q, after, outcome, popAt, loadAt, rescoreAt)
    ensures DrainStopped(first, p.(q := after, clock := later, popped := p.popped + [outcome.id]), outcome, rescoreAt)
  {
    AttemptPops(first, p.q, p.popped, after, outcome, popAt, loadAt, rescoreAt);
    var m := p.(q := after, clock := later, popped := p.popped + [outcome.id]);
    forall id | id in m.popped && id != outcome.id ensures Settled(m, id) {
      AttemptKeeps(p, after, outcome, popAt, loadAt, rescoreAt, later, id);
      assert Settled(p.(q := after, clock := later), id);
    }
  }

  lemma OtherStaysSettled(m: Progress, outcome: Outcome, env: Env, other: Id)
    requires !outcome.Idle? && (outcome.Scheduled? ==> outcome.id in m.q.running) && SlotsOwned(m.q)
    requires Settled(m, other) && other != outcome.id
    ensures Settled(Concluded(m, outcome, env), other)
  {
    if CreationRaises(outcome, env) && !ResultsRaise(outcome, env) {
      GivingBackKeeps(m, ReleaseUserSlot(Release(m.q, outcome.id), outcome.id, m.clock), outcome.id, other);
    }
  }

  lemma GivingBackKeeps(m: Progress, freed: Queue, id: Id, other: Id)
    requires freed == ReleaseUserSlot(Release(m.q, id), id, m.clock) && SlotsOwned(m.q)
    requires Settled(m, other) && other != id
    ensures Settled(m.(q := freed), other)
  {
    GivingBackLeaves(m.q, id, m.clock);
    ReleaseFreesUserSlot(Release(m.q, id), id, m.clock);
    if Failed(m, other) { assert UserSlotGone(Release(m.q, id), other, m.clock); }
  }

  lemma GivingBackLeaves(q: Queue, id: Id, clock: real)
    ensures var freed := ReleaseUserSlot(Release(q, id), id, clock);
      && freed.pending == q.pending && freed.running == q.running - {id}
      && (SlotsOwned(q) ==> SlotsOwned(freed) && UserSlotGone(freed, id, clock))
  {
    if SlotsOwned(q) { ReleaseFreesUserSlot(Release(q, id), id, clock); }
  }

  lemma FewerSlotsPops(first: Queue, q: Queue, popped: seq<Id>, freed: Queue)
    requires Popped(first, q, popped) && freed.pending == q.pending
    requires (forall id | id in freed.running :: id in q.running) && SlotsOwned(freed)
    ensures Popped(first, freed, popped)
  {
  }

  lemma ConcludedPops(first: Queue, m: Progress, outcome: Outcome, env: Env)
    requires !outcome.Idle? && (outcome.Scheduled? ==> outcome.id in m.q.running) && Popped(first, m.q, m.popped)
    ensures var n := Concluded(m, outcome, env); n.popped == m.popped && Popped(first, n.q, n.popped)
  {
    if CreationRaises(outcome, env) && !ResultsRaise(outcome, env) {
      GivingBackLeaves(m.q, outcome.id, m.clock);
      FewerSlotsPops(first, m.q, m.popped, ReleaseUserSlot(Release(m.q, outcome.id), outcome.id, m.clock));
    }
  }

  /** The popped execution ends up settled exactly when the results do not raise. */
  lemma SettledIffNotRaised(first: Queue, m: Progress, outcome: Outcome, env: Env, rescoredAt: real)
    requires !outcome.Idle? && DrainStopped(first, m, outcome, rescoredAt)
    ensures Settled(Concluded(m, outcome, env), outcome.id) <==> !ResultsRaise(outcome, env)
  {
    GivingBackLeaves(m.q, outcome.id, m.clock);
  }

  lemma ConcludedAccounts(m: Progress, outcome: Outcome, env: Env)
    requires !outcome.Idle? && (outcome.Scheduled? ==> outcome.id in m.q.running) && Accounted(m) && outcome.id in m.popped
    ensures Accounted(Concluded(m, outcome, env))
  {
  }

  lemma OthersStaySettled(m: Progress, outcome: Outcome, env: Env)
    requires !outcome.Idle? && (outcome.Scheduled? ==> outcome.id in m.q.running) && SlotsOwned(m.q)
    requires forall other | other in m.popped && other != outcome.id :: Settled(m, other)
    ensures forall other | other in m.popped && other != outcome.id :: Settled(Concluded(m, outcome, env), other)
  {
    forall other | other in m.popped && other != outcome.id ensures Settled(Concluded(m, outcome, env), other) {
      OtherStaysSettled(m, outcome, env, other);
    }
  }

  lemma RaisingKeepsStopped(first: Queue, m: Progress, outcome: Outcome, env: Env, rescoredAt: real)
    requires !outcome.Idle? && DrainStopped(first, m, outcome, rescoredAt) && ResultsRaise(outcome, env)
    ensures var n := Concluded(m, outcome, env);
      n == m.(orphans := n.orphans) && DrainStopped(first, n, outcome, rescoredAt)
  {
    ConcludedAccounts(m, outcome, env);
    OthersStaySettled(m, outcome, env);
  }

  /** A round leaves every popped execution settled, or, when the results raise, all but the last. */
  lemma RoundConcludes(first: Queue, m: Progress, outcome: Outcome, env: Env, rescoredAt: real)
    requires !outcome.Idle? && DrainStopped(first, m, outcome, rescoredAt)
    ensures var n := Concluded(m, outcome, env); n.popped == m.popped
    ensures var n := Concluded(m, outcome, env);
      if ResultsRaise(outcome, env)
      then DrainStopped(first, n, outcome, rescoredAt) && n.started == m.started && n.failed == m.failed
      else DrainInvariant(first, n)
  {
    if ResultsRaise(outcome, env) {
      RaisingKeepsStopped(first, m, outcome, env, rescoredAt);
    } else {
      ConcludedPops(first, m, outcome, env);
      ConcludedAccounts(m, outcome, env);
      SettledIffNotRaised(first, m, outcome, env, rescoredAt);
      OthersStaySettled(m, outcome, env);
    }
  }

  /** The same from the attempt on. */
  lemma BusyRound(first: Queue, p: Progress, after: Queue, outcome: Outcome, env: Env,
                  popAt: real, loadAt: real, rescoreAt: real, later: real)
    requires DrainInvariant(first, p) && p.clock <= popAt && rescoreAt <= later
    requires !outcome.Idle? && PoppedOne(p.q, after, outcome, popAt, loadAt, rescoreAt)
    ensures outcome.Scheduled? ==> outcome.id in after.running
    ensures var n := Concluded(p.(q := after, clock := later, popped := p.popped + [outcome.id]), outcome, env);
      && n.popped == p.popped + [outcome.id]
      && if ResultsRaise(outcome, env)
         then DrainStopped(first, n, outcome, rescoreAt) && n.started == p.started && n.failed == p.failed
         else DrainInvariant(first, n)
  {
    AttemptStops(first, p, after, outcome, popAt, loadAt, rescoreAt, later);
    RoundConcludes(first, p.(q := after, clock := later, popped := p.popped + [outcome.id]), outcome, env, rescoreAt);
  }

  /** The last attempt only drops slots whose deadline has passed. */
  lemma IdleKeeps(first: Queue, p: Progress, popAt: real, later: real)
    requires DrainInvariant(first, p) && p.clock <= popAt <= later
    ensures DrainInvariant(first, p.(q := p.q.(running := Prune(p.q.running, popAt)), clock := later))
  {
    var n := p.(q := p.q.(running := Prune(p.q.running, popAt)), clock := later);
    PruningPops(first, p.q, p.popped, popAt);
    forall id | id in p.popped ensures Settled(n, id) { IdleKeepsOne(p, popAt, later, id); }
  }

  lemma PruningPops(first: Queue, q: Queue, popped: seq<Id>, popAt: real)
    requires Popped(first, q, popped)
    ensures Popped(first, q.(running := Prune(q.running, popAt)), popped)
  {
    var pruned := q.(running := Prune(q.running, popAt));
    SameUsersOwned(q, pruned);
    FewerSlotsPops(first, q, popped, pruned);
  }

  lemma SameUsersOwned(q: Queue, r: Queue)
    requires SlotsOwned(q) && r.reserved == q.reserved && r.owners == q.owners
    ensures SlotsOwned(r)
  {
  }

  lemma IdleKeepsOne(p: Progress, popAt: real, later: real, id: Id)
    requires p.clock <= popAt <= later && Settled(p, id)
    ensures Settled(p.(q := p.q.(running := Prune(p.q.running, popAt)), clock := later), id)
  {
  }

  lemma NothingPopped(first: Queue, clock: real)
    requires first.Valid() && Unique(first.pending) && SlotsOwned(first)
    ensures DrainInvariant(first, Progress(first, clock, [], {}, map[], [], {}))
  {
  }

  /** A drain that stopped left exactly the last popped execution unsettled. */
  lemma StoppedLeavesLast(first: Queue, p: Progress, last: Outcome, rescoredAt: real)
    requires !last.Idle? && DrainStopped(first, p, last, rescoredAt)
    ensures forall id | id in p.popped :: Settled(p, id) <==> id != last.id
  {
    forall id | id in p.popped ensures Settled(p, id) <==> id != last.id {
      if id == last.id { assert !Started(p, id) && !Failed(p, id); }
    }
  }

  const REQUEST := Request(1, Python, 5)
  const ONE_WAITS := Queue([map[7 := 1.0], map[], map[], map[], map[]], map[], map[7 := Stored(REQUEST, 100.0)], map[], map[])
  const BOTH_RAISE := Env({7}, {}, {7})

  /** It happens: the only waiting execution is popped, its pod cannot be created, and the results raise. */
  lemma RaiseLeavesUnsettled()
    ensures var (after, outcome) := TryScheduleAt(ONE_WAITS, 1, 0.0, 0.0, 0.0);
      && outcome == Scheduled(7, REQUEST) && 7 in after.running
      && var n := Concluded(Progress(after, 0.0, [7], {}, map[], [], {}), outcome, BOTH_RAISE);
         && ResultsRaise(outcome, BOTH_RAISE) && !Settled(n, 7) && n.failed == [] && n.started == {}
         && n.q.running == map[7 := 305.0]
  {
    assert 7 in ONE_WAITS.pending[0];
    assert FirstNonEmpty(ONE_WAITS.pending, 0) == 0;
    assert Least(ONE_WAITS.pending[0]) == 7;
    assert Prune(map[], 0.0) == map[];
    assert TimeoutFor(Python, 5) == 5;
  }

  class ExecutionScheduler {
    const queue: ExecutionQueueService
    var pods: set<Id>
    var failed: seq<Id>

    constructor (queue: ExecutionQueueService)
      ensures this.queue == queue && pods == {} && failed == []
    {
      this.queue := queue;
      pods, failed := {}, [];
    }

    /** The queue is as far as p says, and p's pods and failures came on top of those there were. */
    ghost predicate Tracks(p: Progress, pods0: set<Id>, failed0: seq<Id>)
      reads this, queue
    {
      && p.q == queue.State() && p.clock == queue.clock
      && pods == pods0 + p.started + p.orphans && failed == failed0 + p.failed
    }

    /** create_pod: takes a while, and raises before or after the pod exists, or neither. */
    method CreatePod(id: Id, env: Env) returns (created: bool)
      modifies this`pods, queue`clock
      ensures old(queue.clock) <= queue.clock
      ensures pods == if id in env.uncreated then old(pods) else old(pods) + {id}
      ensures created <==> id !in env.uncreated && id !in env.orphaned
    {
      var _ := queue.Time();
      if id !in env.uncreated { pods := pods + {id}; }
      created := id !in env.uncreated && id !in env.orphaned;
    }

    /** handle_lost_request and handle_execution_failed: hand an execution to the results as failed, or raise. */
    method Report(id: Id, env: Env) returns (raised: bool)
      modifies this`failed, queue`clock
      ensures old(queue.clock) <= queue.clock
      ensures raised == (id in env.unreported) && failed == if raised then old(failed) else old(failed) + [id]
    {
      var _ := queue.Time();
      raised := id in env.unreported;
      if !raised { failed := failed + [id]; }
    }

    /** try_schedule, with what the drain needs to know about its outcome. */
    method Attempt(maxActive: int) returns (outcome: Outcome, ghost popAt: real, ghost loadAt: real)
      requires queue.Valid() && Unique(queue.pending) && SlotsOwned(queue.State())
      modifies queue
      ensures old(queue.clock) <= popAt <= queue.clock
      ensures outcome.Idle? ==>
        && queue.State() == old(queue.State()).(running := Prune(old(queue.running), popAt))
        && (Entries(queue.pending) == {} || |queue.running| >= maxActive)
      ensures !outcome.Idle? ==>
        && PoppedOne(old(queue.State()), queue.State(), outcome, popAt, loadAt, queue.clock)
        && |Entries(queue.pending)| < |Entries(old(queue.pending))|
    {
      ghost var before := queue.State();
      outcome, popAt, loadAt := queue.TrySchedule(maxActive);
      if outcome.Idle? {
        IdleAttempt(before, maxActive, popAt, loadAt, queue.clock);
      } else {
        AttemptPoppedOne(before, maxActive, popAt, loadAt, queue.clock);
        PoppedOneShrinks(before, queue.State(), outcome, popAt, loadAt, queue.clock);
      }
    }

    /** What is left to do for a popped execution: the results, or its pod, whose failure goes to the results too. */
    method Conclude(outcome: Outcome, env: Env, ghost m: Progress, ghost pods0: set<Id>, ghost failed0: seq<Id>)
      returns (raised: bool, ghost n: Progress)
      requires queue.Valid() && !outcome.Idle? && (outcome.Scheduled? ==> outcome.id in queue.running)
      requires Tracks(m, pods0, failed0)
      modifies this`pods, this`failed, queue
      ensures queue.Valid() && old(queue.clock) <= queue.clock && raised == ResultsRaise(outcome, env)
      ensures n == Concluded(m.(clock := queue.clock), outcome, env) && Tracks(n, pods0, failed0)
      ensures queue.pending == old(queue.pending)
    {
      if outcome.Lost? {
        raised := Report(outcome.id, env);
      } else {
        var created := CreatePod(outcome.id, env);
        if created {
          raised := false;
        } else {
          raised := Report(outcome.id, env);
          if !raised {
            queue.ReleaseSlot(outcome.id);
            queue.ReleaseReservation(outcome.id);
          }
        }
      }
      n := Concluded(m.(clock := queue.clock), outcome, env);
    }

    /** The rest of a round whose attempt popped an execution. */
    method ConcludeRound(outcome: Outcome, env: Env, ghost first: Queue, ghost p: Progress, ghost pods0: set<Id>,
                         ghost failed0: seq<Id>, ghost popAt: real, ghost loadAt: real)
      returns (raised: bool, ghost n: Progress)
      requires !outcome.Idle? && DrainInvariant(first, p) && p.clock <= popAt
      requires PoppedOne(p.q, queue.State(), outcome, popAt, loadAt, queue.clock)
      requires Tracks(p.(q := queue.State(), clock := queue.clock), pods0, failed0)
      modifies this`pods, this`failed, queue
      ensures old(queue.clock) <= queue.clock && Tracks(n, pods0, failed0) && raised == ResultsRaise(outcome, env)
      ensures n.popped == p.popped + [outcome.id] && queue.pending == old(queue.pending)
      ensures !raised ==> DrainInvariant(first, n)
      ensures raised ==> DrainStopped(first, n, outcome, old(queue.clock)) && n.started == p.started && n.failed == p.failed
    {
      ghost var after, rescoredAt := queue.State(), queue.clock;
      ghost var m := p.(q := after, clock := rescoredAt, popped := p.popped + [outcome.id]);
      raised, n := Conclude(outcome, env, m, pods0, failed0);
      BusyRound(first, p, after, outcome, env, popAt, loadAt, rescoredAt, queue.clock);
    }

    /** One round of the drain: an attempt, and what is left to do for the execution it popped. */
    method StartNext(maxActive: int, env: Env, ghost first: Queue, ghost p: Progress, ghost pods0: set<Id>,
                     ghost failed0: seq<Id>)
      returns (outcome: Outcome, raised: bool, ghost n: Progress, ghost popAt: real, ghost rescoredAt: real)
      requires DrainInvariant(first, p) && Tracks(p, pods0, failed0)
      modifies this`pods, this`failed, queue
      ensures old(queue.clock) <= popAt <= rescoredAt <= queue.clock && Tracks(n, pods0, failed0)
      ensures outcome.Idle? ==>
        && !raised && DrainInvariant(first, n) && n.popped == p.popped
        && (Entries(queue.pending) == {} || |queue.running| >= maxActive)
        && forall id | id in queue.running :: queue.running[id] > popAt
      ensures !outcome.Idle? ==>
        && |Entries(queue.pending)| < |Entries(old(queue.pending))|
        && n.popped == p.popped + [outcome.id] && raised == ResultsRaise(outcome, env)
        && (!raised ==> DrainInvariant(first, n))
        && (raised ==> DrainStopped(first, n, outcome, rescoredAt) && n.started == p.started && n.failed == p.failed)
    {
      ghost var loadAt;
      outcome, popAt, loadAt := Attempt(maxActive);
      rescoredAt := queue.clock;
      if outcome.Idle? {
        IdleKeeps(first, p, popAt, rescoredAt);
        n := p.(q := queue.State(), clock := rescoredAt);
        raised := false;
      } else {
        raised, n := ConcludeRound(outcome, env, first, p, pods0, failed0, popAt, loadAt);
      }
    }

    /**
      schedule_pending: pops until the script answers nil, so it ends with nothing waiting or every slot taken by
      an unexpired deadline, and every popped id is started or failed. If the results raise it stops there, and
      exactly the last popped id is neither: no pod was started for it, it is not handed over as failed, and it keeps
      the slot it was scheduled into, unless its request was lost.
     */
    method SchedulePending(maxActive: int, env: Env)
      returns (last: Outcome, raised: bool, ghost p: Progress, ghost lastPop: real, ghost rescoredAt: real)
      requires queue.Valid() && Unique(queue.pending) && SlotsOwned(queue.State())
      modifies this`pods, this`failed, queue
      ensures old(queue.clock) <= lastPop <= rescoredAt <= queue.clock && Tracks(p, old(pods), old(failed))
      ensures raised ==> !last.Idle? && ResultsRaise(last, env) && DrainStopped(old(queue.State()), p, last, rescoredAt)
      ensures !raised ==>
        && DrainInvariant(old(queue.State()), p)
        && (Entries(queue.pending) == {} || |queue.running| >= maxActive)
        && forall id | id in queue.running :: queue.running[id] > lastPop
      ensures forall id | id in p.popped :: Settled(p, id) <==> !(raised && last.id == id)
    {
      p := Progress(queue.State(), queue.clock, [], {}, map[], [], {});
      NothingPopped(queue.State(), queue.clock);
      raised, last, lastPop, rescoredAt := false, Idle, queue.clock, queue.clock;
      var draining := true;
      while draining
        invariant old(queue.clock) <= lastPop <= rescoredAt <= queue.clock && !raised
        invariant DrainInvariant(old(queue.State()), p) && Tracks(p, old(pods), old(failed))
        invariant !draining ==> Entries(queue.pending) == {} || |queue.running| >= maxActive
        invariant !draining ==> forall id | id in queue.running :: queue.running[id] > lastPop
        decreases draining, |Entries(queue.pending)|
      {
        last, raised, p, lastPop, rescoredAt := StartNext(maxActive, env, old(queue.State()), p, old(pods), old(failed));
        if raised {
          StoppedLeavesLast(old(queue.State()), p, last, rescoredAt);
          return;
        }
        if last.Idle? { draining := false; }
      }
    }

    /** finish: frees an ended execution's slots, then starts what the queue holds. */
    method Finish(id: Id, maxActive: int, env: Env)
      returns (last: Outcome, raised: bool, ghost p: Progress, ghost lastPop: real, ghost rescoredAt: real)
      requires queue.Valid() && Unique(queue.pending) && SlotsOwned(queue.State())
      modifies this`pods, this`failed, queue
      ensures Tracks(p, old(pods), old(failed))
      ensures var freed := ReleaseUserSlot(Release(old(queue.State()), id), id, old(queue.clock));
        && UserSlotGone(freed, id, old(queue.clock))
        && (raised ==> !last.Idle? && ResultsRaise(last, env) && DrainStopped(freed, p, last, rescoredAt))
        && (!raised ==> DrainInvariant(freed, p))
      ensures !Waits(old(queue.pending), id) ==> id !in queue.running
      ensures !raised ==> Entries(queue.pending) == {} || |queue.running| >= maxActive
    {
      queue.ReleaseSlot(id);
      ReleaseFreesUserSlot(queue.State(), id, queue.clock);
      queue.ReleaseReservation(id);
      last, raised, p, lastPop, rescoredAt := SchedulePending(maxActive, env);
    }
  }
}

/**
  No lost wake-up: whoever queues an execution or frees a slot drains the queue afterwards, and a timer does so too
  (execution_scheduler.py, worker.py).

  due holds the workers that woke up and have not yet been told by the script that nothing can start. Between any two
  of their commands other workers may act, and any worker may raise and leave its drain undone.
 */
module WakeUps {
  import opened SortedSets
  import opened ExecutionQueue
  import Commands = QueueInterleaving

  datatype Drains = Drains(s: Commands.System, due: set<nat>) {
    ghost predicate Valid() { s.q.Valid() }

    function Do(step: Commands.Step): Drains
      requires Valid()
    {
      this.(s := Commands.Next(s, step))
    }

    function Wake(w: nat): Drains { this.(due := due + {w}) }
  }

  /**
    Requested, Freed and Removed are the first commands of a request, of finish and of a cancel, and Timer is the
    job that runs every ten seconds. A drain goes on with Attempt and Continue. Other is any command outside the loop.
   */
  datatype Event =
    | Requested(w: nat, id: Id, priority: Priority, score: real, request: Request)
    | Freed(w: nat, id: Id)
    | Removed(w: nat, id: Id)
    | Timer(w: nat)
    | Attempt(w: nat, maxActive: int, now: real)
    | Continue(step: Commands.Step)
    | Other(step: Commands.Step)
    | Raise(w: nat)

  /** The commands of try_schedule after its script. */
  predicate InAttempt(step: Commands.Step) { step.Load? || step.RescoreStep? || step.DropLost? }

  /** Commands that neither queue an execution, nor free a slot, nor run the script. */
  predicate Aside(step: Commands.Step) {
    step.Tick? || step.ReadOwner? || step.FreeReservation? || step.UpdateStep? || step.ReserveStep?
  }

  function Next(d: Drains, e: Event): (n: Drains)
    requires d.Valid()
    ensures n.Valid()
  {
    match e
    case Requested(w, id, priority, score, request) => d.Do(Commands.EnqueueStep(id, priority, score, request)).Wake(w)
    case Freed(w, id) => d.Do(Commands.ReleaseStep(id)).Wake(w)
    case Removed(w, id) => d.Do(Commands.RemoveStep(id)).Wake(w)
    case Timer(w) => d.Wake(w)
    case Attempt(w, maxActive, now) =>
      if w !in d.due || d.s.PhaseOf(w) != Commands.Free || now > d.s.clock then d
      else
        var n := d.Do(Commands.Pop(w, maxActive, now));
        if n.s.PhaseOf(w) == Commands.Free then n.(due := n.due - {w}) else n
    case Continue(step) => if InAttempt(step) && step.w in d.due then d.Do(step) else d
    case Other(step) => if Aside(step) then d.Do(step) else d
    case Raise(w) => Drains(d.s.At(w, Commands.Free), d.due - {w})
  }

  function Run(d: Drains, events: seq<Event>): (n: Drains)
    requires d.Valid()
    ensures n.Valid()
    decreases |events|
  {
    if events == [] then d else Next(Run(d, events[..|events| - 1]), events[|events| - 1])
  }

  ghost predicate NothingWaits(q: Queue) { forall i | 0 <= i < |q.pending| :: q.pending[i] == map[] }

  /** Something waits beside a free slot, and nobody is going to look. */
  ghost predicate Missed(d: Drains, limit: nat) { d.due == {} && CanStart(d, limit) }

  ghost predicate CanStart(d: Drains, limit: nat) { !NothingWaits(d.s.q) && |d.s.q.running| < limit }

  predicate Wakes(e: Event) { e.Requested? || e.Freed? || e.Removed? || e.Timer? }

  /** The last worker that would have looked raises, although something could start. */
  ghost predicate AbandonsLast(d: Drains, e: Event, limit: nat) { e.Raise? && d.due == {e.w} && CanStart(d, limit) }

  predicate AllowsAtLeast(e: Event, limit: nat) { e.Attempt? ==> limit <= e.maxActive }

  lemma UpdateKeepsWaiting(q: Queue, id: Id, priority: Priority)
    requires q.Valid()
    ensures NothingWaits(UpdatePriority(q, id, priority).0) <==> NothingWaits(q)
  {
    if FirstHolding(q.pending, id, 0) < |q.pending| { assert id in UpdatePriority(q, id, priority).0.pending[priority]; }
  }

  lemma AsideKeepsWaiting(s: Commands.System, step: Commands.Step)
    requires s.q.Valid() && Aside(step)
    ensures NothingWaits(Commands.Next(s, step).q) <==> NothingWaits(s.q)
    ensures Commands.Next(s, step).q.running == s.q.running
  {
    if step.UpdateStep? {
      UpdateKeepsWaiting(s.q, step.id, step.priority);
    } else {
      assert Commands.Next(s, step).q.pending == s.q.pending;
    }
  }

  lemma AttemptMissesNothing(d: Drains, e: Event, limit: nat)
    requires d.Valid() && !Missed(d, limit) && e.Attempt? && AllowsAtLeast(e, limit)
    ensures !Missed(Next(d, e), limit)
  {
    if e.w in d.due && d.s.PhaseOf(e.w) == Commands.Free && e.now <= d.s.clock {
      var (q, popped) := Schedule(d.s.q, e.maxActive, e.now, e.now + PROVISIONAL_SLOT);
      assert popped.Nothing? ==> |q.running| >= limit || NothingWaits(q);
    }
  }

  /** From a state with nothing missed, one event misses something exactly when it abandons the last drain due. */
  lemma StepMissesIff(d: Drains, e: Event, limit: nat)
    requires d.Valid() && !Missed(d, limit) && AllowsAtLeast(e, limit)
    ensures Missed(Next(d, e), limit) <==> AbandonsLast(d, e, limit)
  {
    if e.Attempt? {
      AttemptMissesNothing(d, e, limit);
    } else if e.Other? && Aside(e.step) {
      AsideKeepsWaiting(d.s, e.step);
    }
  }

  /** What was missed stays missed exactly until somebody wakes up. */
  lemma StaysMissedIff(d: Drains, e: Event, limit: nat)
    requires d.Valid() && Missed(d, limit)
    ensures Missed(Next(d, e), limit) <==> !Wakes(e)
  {
    if e.Other? && Aside(e.step) { AsideKeepsWaiting(d.s, e.step); }
  }

  ghost predicate AbandonsAt(d: Drains, events: seq<Event>, limit: nat, k: nat)
    requires d.Valid() && k < |events|
  {
    AbandonsLast(Run(d, events[..k]), events[k], limit)
  }

  predicate NobodyWakesAfter(events: seq<Event>, k: nat) { forall j | k < j < |events| :: !Wakes(events[j]) }

  /** Some event abandons the last drain that was due, and nobody wakes up afterwards. */
  ghost predicate EverMisses(d: Drains, events: seq<Event>, limit: nat)
    requires d.Valid()
  {
    exists k: nat :: k < |events| && AbandonsAt(d, events, limit, k) && NobodyWakesAfter(events, k)
  }

  lemma AbandonsAtFront(d: Drains, front: seq<Event>, last: Event, limit: nat, k: nat)
    requires d.Valid() && k < |front|
    ensures AbandonsAt(d, front + [last], limit, k) <==> AbandonsAt(d, front, limit, k)
  {
    assert (front + [last])[..k] == front[..k] && (front + [last])[k] == front[k];
  }

  lemma AbandonsAtLast(d: Drains, front: seq<Event>, last: Event, limit: nat)
    requires d.Valid()
    ensures AbandonsAt(d, front + [last], limit, |front|) <==> AbandonsLast(Run(d, front), last, limit)
  {
    assert (front + [last])[..|front|] == front;
  }

  lemma NobodyWakesFront(front: seq<Event>, last: Event, k: nat)
    requires k < |front|
    ensures NobodyWakesAfter(front + [last], k) <==> NobodyWakesAfter(front, k) && !Wakes(last)
  {
    assert (front + [last])[|front|] == last;
    if NobodyWakesAfter(front + [last], k) {
      assert forall j | k < j < |front| :: front[j] == (front + [last])[j];
    }
  }

  /** An abandoned drain is the last event, or an earlier one that the last event does not make up for. */
  lemma EverMissesBySteps(d: Drains, front: seq<Event>, last: Event, limit: nat)
    requires d.Valid()
    ensures EverMisses(d, front + [last], limit)
       <==> AbandonsLast(Run(d, front), last, limit) || (EverMisses(d, front, limit) && !Wakes(last))
  {
    var events := front + [last];
    AbandonsAtLast(d, front, last, limit);
    forall k: nat | k < |front|
      ensures AbandonsAt(d, events, limit, k) <==> AbandonsAt(d, front, limit, k)
      ensures NobodyWakesAfter(events, k) <==> NobodyWakesAfter(front, k) && !Wakes(last)
    {
      AbandonsAtFront(d, front, last, limit, k);
      NobodyWakesFront(front, last, k);
    }
    assert NobodyWakesAfter(events, |front|);
  }

  /**
    In every interleaving of requests, endings, cancels, timers and drains, an execution is left waiting beside a free
    slot with nobody due to look exactly when the last such drain raised and nothing woke another one since.
   */
  lemma {:induction false} MissedIff(d: Drains, events: seq<Event>, limit: nat)
    requires d.Valid() && !Missed(d, limit)
    requires forall k | 0 <= k < |events| :: AllowsAtLeast(events[k], limit)
    ensures Missed(Run(d, events), limit) <==> EverMisses(d, events, limit)
    decreases |events|
  {
    if events == [] {
    } else {
      var front, last := events[..|events| - 1], events[|events| - 1];
      MissedIff(d, front, limit);
      assert front + [last] == events;
      EverMissesBySteps(d, front, last, limit);
      if Missed(Run(d, front), limit) {
        StaysMissedIff(Run(d, front), last, limit);
      } else {
        StepMissesIff(Run(d, front), last, limit);
      }
    }
  }

  /** So if no drain raises, then once nobody is due, nothing waits or every slot is taken. */
  lemma NoWakeUpLost(d: Drains, events: seq<Event>, limit: nat)
    requires d.Valid() && !Missed(d, limit)
    requires forall k | 0 <= k < |events| :: AllowsAtLeast(events[k], limit) && !events[k].Raise?
    requires Run(d, events).due == {}
    ensures NothingWaits(Run(d, events).s.q) || |Run(d, events).s.q.running| >= limit
  {
    MissedIff(d, events, limit);
  }

  /** Whatever was missed before, a timer's drain makes up for it, whoever else raises, unless the last one due does. */
  lemma TimerRecovers(d: Drains, w: nat, events: seq<Event>, limit: nat)
    requires d.Valid() && forall k | 0 <= k < |events| :: AllowsAtLeast(events[k], limit)
    ensures Missed(Run(Next(d, Timer(w)), events), limit) <==> EverMisses(Next(d, Timer(w)), events, limit)
  {
    MissedIff(Next(d, Timer(w)), events, limit);
  }

  const IDLE := Drains(Commands.EMPTY, {})
  const REQUEST := Requested(0, 7, 2, 0.0, Request(1, Python, 60))

  lemma RunOne(d: Drains, a: Event)
    requires d.Valid()
    ensures Run(d, [a]) == Next(d, a)
  {
    assert [a][..0] == [] && Run(d, []) == d;
  }

  lemma RunTwo(d: Drains, a: Event, b: Event)
    requires d.Valid()
    ensures Run(d, [a, b]) == Next(Next(d, a), b)
  {
    assert [a, b][..1] == [a];
    RunOne(d, a);
  }

  lemma RequestWaits()
    ensures Next(IDLE, REQUEST).due == {0} && CanStart(Next(IDLE, REQUEST), 1)
  {
    assert 7 in Next(IDLE, REQUEST).s.q.pending[2];
  }

  /** The exception happens: a request is queued, its drain raises before it asks, and the free slot stays unused. */
  lemma RaisedDrainMisses()
    ensures Missed(Run(IDLE, [REQUEST, Raise(0)]), 1)
  {
    RunTwo(IDLE, REQUEST, Raise(0));
    RequestWaits();
    StepMissesIff(Next(IDLE, REQUEST), Raise(0), 1);
  }
}

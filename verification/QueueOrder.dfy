/**
  The five pending sets behave as one queue ordered by priority, enqueue score and id.

  Single is that queue, kept as a plain set of entries. Every queue command gives the same reply on both, for
  every sequence of commands in which an id is enqueued only while it waits nowhere.
 */
module QueueOrder {
  import opened SortedSets
  import opened ExecutionQueue

  datatype Entry = Entry(priority: nat, score: real, id: Id)

  predicate Earlier(a: Entry, b: Entry) {
    || a.priority < b.priority
    || (a.priority == b.priority && (a.score < b.score || (a.score == b.score && a.id < b.id)))
  }

  ghost function Entries(pending: seq<ZSet>): set<Entry> {
    set i, id | 0 <= i < |pending| && id in pending[i] :: Entry(i, pending[i][id], id)
  }

  ghost predicate IsHead(waiting: set<Entry>, e: Entry) {
    e in waiting && forall other | other in waiting :: other == e || Earlier(e, other)
  }

  /** No id waits under two priorities. */
  ghost predicate Unique(pending: seq<ZSet>) {
    forall i, j, id | 0 <= i < |pending| && 0 <= j < |pending| && id in pending[i] && id in pending[j] :: i == j
  }

  ghost predicate Waits(pending: seq<ZSet>, id: Id) {
    exists i | 0 <= i < |pending| :: id in pending[i]
  }

  /** The script pops nothing exactly when the slots are full or nothing waits, and otherwise takes the head. */
  lemma ScheduleTakesHead(q: Queue, maxActive: int, now: real, deadline: real)
    ensures var (after, popped) := Schedule(q, maxActive, now, deadline);
      && (popped.Nothing? <==> |Prune(q.running, now)| >= maxActive || Entries(q.pending) == {})
      && (popped.Nothing? ==> after.pending == q.pending && after.running == Prune(q.running, now))
      && (popped.Popped? ==>
        && IsHead(Entries(q.pending), Entry(popped.priority, popped.score, popped.id))
        && Entries(after.pending) == Entries(q.pending) - {Entry(popped.priority, popped.score, popped.id)}
        && after.running == Add(Prune(q.running, now), popped.id, deadline))
  {
    var i := FirstNonEmpty(q.pending, 0);
    if i < |q.pending| {
      var id := Least(q.pending[i]);
      assert Entry(i, q.pending[i][id], id) in Entries(q.pending);
      EntriesWithout(q.pending, i, id);
    }
  }

  lemma EntriesWithout(pending: seq<ZSet>, i: nat, id: Id)
    requires i < |pending| && id in pending[i]
    ensures Entries(pending[i := pending[i] - {id}]) == Entries(pending) - {Entry(i, pending[i][id], id)}
  {
    var after := pending[i := pending[i] - {id}];
    forall x | x in Entries(pending) - {Entry(i, pending[i][id], id)} ensures x in Entries(after) {
      assert x.id in after[x.priority];
    }
  }

  /** The script keeps every id waiting under at most one priority, and the popped id then waits nowhere. */
  lemma ScheduleKeepsUnique(q: Queue, maxActive: int, now: real, deadline: real)
    requires Unique(q.pending)
    ensures var (after, popped) := Schedule(q, maxActive, now, deadline);
      && Unique(after.pending)
      && (popped.Popped? ==> Waits(q.pending, popped.id) && !Waits(after.pending, popped.id))
  {
  }

  /** Changing a priority moves exactly the named id, with its enqueue score, or reports that it does not wait. */
  lemma UpdatePriorityMovesOne(q: Queue, id: Id, priority: Priority)
    requires q.Valid() && Unique(q.pending)
    ensures var (after, changed) := UpdatePriority(q, id, priority);
      && after.Valid() && Unique(after.pending)
      && (changed <==> Waits(q.pending, id))
      && (!changed ==> after == q)
      && (changed ==> exists e :: e in Entries(q.pending) && e.id == id
                        && Entries(after.pending) == Entries(q.pending) - {e} + {e.(priority := priority)})
  {
    var (after, changed) := UpdatePriority(q, id, priority);
    if changed {
      var i := FirstHolding(q.pending, id, 0);
      var e := Entry(i, q.pending[i][id], id);
      assert e in Entries(q.pending);
      assert Entries(after.pending) == Entries(q.pending) - {e} + {e.(priority := priority)} by {
        forall x | x in Entries(q.pending) - {e} + {e.(priority := priority)} ensures x in Entries(after.pending) {
          assert x.id in after.pending[x.priority];
        }
      }
    }
  }

  /** Enqueueing keeps ids unique exactly when the id waits under no other priority. */
  lemma EnqueueKeepsUniqueIff(q: Queue, id: Id, priority: Priority, score: real, request: Request, clock: real)
    requires q.Valid() && Unique(q.pending)
    ensures var after := Enqueue(q, id, priority, score, request, clock);
      Unique(after.pending) <==> forall i | 0 <= i < |q.pending| && i != priority :: id !in q.pending[i]
  {
    var after := Enqueue(q, id, priority, score, request, clock);
    assert id in after.pending[priority];
    if Unique(after.pending) {
      forall i | 0 <= i < |q.pending| && i != priority ensures id !in q.pending[i] {
        assert after.pending[i] == q.pending[i];
      }
    }
  }

  lemma EnqueueAddsOne(q: Queue, id: Id, priority: Priority, score: real, request: Request, clock: real)
    requires q.Valid() && !Waits(q.pending, id)
    ensures Entries(Enqueue(q, id, priority, score, request, clock).pending)
         == Entries(q.pending) + {Entry(priority, score, id)}
  {
    var after := Enqueue(q, id, priority, score, request, clock);
    assert id in after.pending[priority];
    forall x | x in Entries(q.pending) ensures x in Entries(after.pending) {
      assert x.id in after.pending[x.priority];
    }
  }

  lemma RemoveDropsOne(q: Queue, id: Id)
    ensures var (after, removed) := Remove(q, id);
      && Entries(after.pending) == (set e | e in Entries(q.pending) && e.id != id)
      && (removed <==> id in q.running || exists e :: e in Entries(q.pending) && e.id == id)
  {
    var (after, removed) := Remove(q, id);
    forall x | x in Entries(q.pending) && x.id != id ensures x in Entries(after.pending) {
      assert x.id in after.pending[x.priority];
    }
    if i :| 0 <= i < |q.pending| && id in q.pending[i] {
      assert Entry(i, q.pending[i][id], id) in Entries(q.pending);
    }
  }

  lemma WaitsIsEntry(pending: seq<ZSet>, id: Id)
    ensures Waits(pending, id) <==> exists e :: e in Entries(pending) && e.id == id
  {
    if i :| 0 <= i < |pending| && id in pending[i] {
      assert Entry(i, pending[i][id], id) in Entries(pending);
    }
  }

  // ---- the single queue

  datatype Single = Single(waiting: set<Entry>, running: ZSet)

  datatype Command =
    | DoEnqueue(id: Id, priority: Priority, score: real, request: Request, clock: real)
    | DoSchedule(maxActive: int, now: real, deadline: real)
    | DoUpdatePriority(id: Id, priority: Priority)
    | DoRemove(id: Id)
    | DoRelease(id: Id)

  datatype Reply = Done | Flag(value: bool) | Took(popped: Popped)

  function Exec(q: Queue, c: Command): (r: (Queue, Reply))
    requires q.Valid()
    ensures r.0.Valid()
  {
    match c
    case DoEnqueue(id, priority, score, request, clock) => (Enqueue(q, id, priority, score, request, clock), Done)
    case DoSchedule(maxActive, now, deadline) =>
      var (after, popped) := Schedule(q, maxActive, now, deadline); (after, Took(popped))
    case DoUpdatePriority(id, priority) => var (after, changed) := UpdatePriority(q, id, priority); (after, Flag(changed))
    case DoRemove(id) => var (after, removed) := Remove(q, id); (after, Flag(removed))
    case DoRelease(id) => (Release(q, id), Done)
  }

  ghost predicate Holds(waiting: set<Entry>, id: Id) { exists e :: e in waiting && e.id == id }

  /** What one ordered queue may do: the reply and next state it allows for a command. */
  ghost predicate SingleExec(s: Single, c: Command, s': Single, reply: Reply) {
    match c
    case DoEnqueue(id, priority, score, _, _) =>
      s' == s.(waiting := s.waiting + {Entry(priority, score, id)}) && reply == Done
    case DoSchedule(maxActive, now, deadline) =>
      var running := Prune(s.running, now);
      if |running| >= maxActive || s.waiting == {} then s' == s.(running := running) && reply == Took(Nothing)
      else exists e :: IsHead(s.waiting, e)
             && s' == Single(s.waiting - {e}, Add(running, e.id, deadline))
             && reply == Took(Popped(e.id, e.score, e.priority))
    case DoUpdatePriority(id, priority) =>
      if !Holds(s.waiting, id) then s' == s && reply == Flag(false)
      else exists e :: e in s.waiting && e.id == id
             && s' == s.(waiting := s.waiting - {e} + {e.(priority := priority)}) && reply == Flag(true)
    case DoRemove(id) =>
      && s' == Single((set e | e in s.waiting && e.id != id), s.running - {id})
      && reply == Flag(id in s.running || Holds(s.waiting, id))
    case DoRelease(id) => s' == s.(running := s.running - {id}) && reply == Done
  }

  ghost function Abstract(q: Queue): Single { Single(Entries(q.pending), q.running) }

  /** A command enqueues nothing that already waits. */
  ghost predicate EnqueuesFresh(q: Queue, c: Command) {
    c.DoEnqueue? ==> !Waits(q.pending, c.id)
  }

  /** One command on the five sets is that command on the single queue. */
  lemma CommandRefines(q: Queue, c: Command)
    requires q.Valid() && Unique(q.pending) && EnqueuesFresh(q, c)
    ensures Unique(Exec(q, c).0.pending)
    ensures SingleExec(Abstract(q), c, Abstract(Exec(q, c).0), Exec(q, c).1)
  {
    match c
    case DoEnqueue(id, priority, score, request, clock) =>
      EnqueueAddsOne(q, id, priority, score, request, clock);
      EnqueueKeepsUniqueIff(q, id, priority, score, request, clock);
    case DoSchedule(maxActive, now, deadline) =>
      ScheduleTakesHead(q, maxActive, now, deadline);
      ScheduleKeepsUnique(q, maxActive, now, deadline);
    case DoUpdatePriority(id, priority) =>
      UpdatePriorityMovesOne(q, id, priority);
      WaitsIsEntry(q.pending, id);
    case DoRemove(id) =>
      RemoveDropsOne(q, id);
      assert Entries(Remove(q, id).0.pending) == (set e | e in Abstract(q).waiting && e.id != id);
    case DoRelease(id) =>
  }

  /** The states a sequence of commands goes through. */
  function States(q: Queue, commands: seq<Command>): (states: seq<Queue>)
    requires q.Valid()
    ensures |states| == |commands| + 1 && states[0] == q
    ensures forall k | 0 <= k < |states| :: states[k].Valid()
    ensures forall k | 0 <= k < |commands| :: states[k + 1] == Exec(states[k], commands[k]).0
    decreases |commands|
  {
    if commands == [] then [q]
    else [q] + States(Exec(q, commands[0]).0, commands[1..])
  }

  /** Over every run that enqueues an id only while it waits nowhere, the five sets refine the single queue. */
  lemma {:induction false} RunRefines(q: Queue, commands: seq<Command>)
    requires q.Valid() && Unique(q.pending)
    requires forall k | 0 <= k < |commands| :: EnqueuesFresh(States(q, commands)[k], commands[k])
    ensures forall k | 0 <= k <= |commands| :: Unique(States(q, commands)[k].pending)
    ensures forall k | 0 <= k < |commands| ::
      var before := States(q, commands)[k];
      SingleExec(Abstract(before), commands[k], Abstract(States(q, commands)[k + 1]), Exec(before, commands[k]).1)
  {
    var states := States(q, commands);
    RunKeepsUnique(states, commands, |commands|);
    forall k | 0 <= k < |commands|
      ensures SingleExec(Abstract(states[k]), commands[k], Abstract(states[k + 1]), Exec(states[k], commands[k]).1)
    {
      CommandRefines(states[k], commands[k]);
    }
  }

  lemma {:induction false} RunKeepsUnique(states: seq<Queue>, commands: seq<Command>, n: nat)
    requires n <= |commands| && |states| == |commands| + 1
    requires forall k | 0 <= k < |states| :: states[k].Valid()
    requires forall k | 0 <= k < |commands| :: states[k + 1] == Exec(states[k], commands[k]).0
    requires Unique(states[0].pending)
    requires forall k | 0 <= k < |commands| :: EnqueuesFresh(states[k], commands[k])
    ensures forall k | 0 <= k <= n :: Unique(states[k].pending)
  {
    if n > 0 {
      RunKeepsUnique(states, commands, n - 1);
      CommandRefines(states[n - 1], commands[n - 1]);
    }
  }

  // ---- draining

  /** What the script pops, one after another, while slots are free and nothing else touches the queue. */
  ghost function Drain(q: Queue): (order: seq<Entry>)
    decreases |Entries(q.pending)|
  {
    ScheduleTakesHead(q.(running := map[]), 1, 0.0, 0.0);
    var (after, popped) := Schedule(q.(running := map[]), 1, 0.0, 0.0);
    if popped.Nothing? then []
    else
      var e := Entry(popped.priority, popped.score, popped.id);
      assert Entries(after.pending) < Entries(q.pending);
      SubsetSize(Entries(after.pending), Entries(q.pending) - {e});
      [e] + Drain(after)
  }

  /** Draining yields every waiting entry, in strictly increasing order. */
  lemma {:induction false} DrainIsSorted(q: Queue)
    ensures forall e :: e in Drain(q) <==> e in Entries(q.pending)
    ensures forall i, j | 0 <= i < j < |Drain(q)| :: Earlier(Drain(q)[i], Drain(q)[j])
    decreases |Entries(q.pending)|
  {
    ScheduleTakesHead(q.(running := map[]), 1, 0.0, 0.0);
    var (after, popped) := Schedule(q.(running := map[]), 1, 0.0, 0.0);
    if popped.Popped? {
      var e := Entry(popped.priority, popped.score, popped.id);
      SubsetSize(Entries(after.pending), Entries(q.pending) - {e});
      DrainIsSorted(after);
      assert Drain(q) == [e] + Drain(after);
      forall j | 0 < j < |Drain(q)| ensures Earlier(e, Drain(q)[j]) {
        assert Drain(q)[j] in Drain(after);
      }
    }
  }
}

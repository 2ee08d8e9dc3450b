/**
  The Redis-backed execution queue (backend/app/services/execution_queue.py).

  Every Lua script, MULTI transaction and single command is one atomic function on the stored keys. The class at
  the end runs the same commands step by step on its fields and is proved against those functions.
 */
module ExecutionQueue {
  import opened Options
  import opened SortedSets

  type UserId = nat

  // An index into PRIORITY_ORDER: 0 is critical, 4 is background.
  type Priority = p: nat | p < 5

  const PRIORITIES: nat := 5
  const EVENT_TTL := 86400.0
  const SLOT_GRACE := 300.0
  const PROVISIONAL_SLOT := 3600.0 + SLOT_GRACE

  // Unlisted stands for a language without an entry in POD_RUNTIME_CONFIGS.
  datatype Language = Python | Node | Ruby | Bash | Go | Unlisted

  datatype Request = Request(user: UserId, language: Language, timeoutSeconds: int)

  datatype Stored = Stored(request: Request, expiresAt: real)
  datatype Reserved = Reserved(slots: ZSet, expiresAt: real)
  datatype Owned = Owned(user: UserId, expiresAt: real)

  /** Every key the queue keeps in Redis; a key with an expiry is readable while the clock is below it. */
  datatype Queue = Queue(
    pending: seq<ZSet>,
    running: ZSet,
    requests: map<Id, Stored>,
    reserved: map<UserId, Reserved>,
    owners: map<Id, Owned>
  ) {
    ghost predicate Valid() { |pending| == PRIORITIES }
  }

  datatype Popped = Nothing | Popped(id: Id, score: real, priority: nat)
  datatype Outcome = Idle | Lost(id: Id) | Scheduled(id: Id, request: Request)

  // ---- runtime_registry.py: the deadline a language's pod gets

  function MinTimeout(language: Language): int {
    if language == Go then 30 else 0
  }

  function TimeoutFor(language: Language, configured: int): int {
    if configured >= MinTimeout(language) then configured else MinTimeout(language)
  }

  /** The slot's length, counted from the moment the request was loaded. */
  function SlotSeconds(r: Request): real {
    TimeoutFor(r.language, r.timeoutSeconds) as real + SLOT_GRACE
  }

  /** active_deadline_seconds of the pod, which falls back to 300 for a zero timeout. */
  function PodSeconds(r: Request): real {
    TimeoutFor(r.language, if r.timeoutSeconds == 0 then 300 else r.timeoutSeconds) as real
  }

  // ---- reads

  function LoadRequest(q: Queue, id: Id, clock: real): Option<Request> {
    if id in q.requests && clock < q.requests[id].expiresAt then Some(q.requests[id].request) else None
  }

  function OwnerOf(q: Queue, id: Id, clock: real): Option<UserId> {
    if id in q.owners && clock < q.owners[id].expiresAt then Some(q.owners[id].user) else None
  }

  function LiveSlots(q: Queue, user: UserId, clock: real): ZSet {
    if user in q.reserved && clock < q.reserved[user].expiresAt then q.reserved[user].slots else map[]
  }

  /** The first set at or after i that holds anything, or |pending|. */
  function FirstNonEmpty(pending: seq<ZSet>, i: nat): (k: nat)
    requires i <= |pending|
    ensures i <= k <= |pending|
    ensures forall j | i <= j < k :: pending[j] == map[]
    ensures k < |pending| ==> pending[k] != map[]
    decreases |pending| - i
  {
    if i == |pending| || pending[i] != map[] then i else FirstNonEmpty(pending, i + 1)
  }

  /** The first set at or after i that holds id, or |pending|. */
  function FirstHolding(pending: seq<ZSet>, id: Id, i: nat): (k: nat)
    requires i <= |pending|
    ensures i <= k <= |pending|
    ensures forall j | i <= j < k :: id !in pending[j]
    ensures k < |pending| ==> id in pending[k]
    decreases |pending| - i
  {
    if i == |pending| || id in pending[i] then i else FirstHolding(pending, id, i + 1)
  }

  // ---- atomic commands

  /** _TRY_SCHEDULE_LUA. */
  function Schedule(q: Queue, maxActive: int, now: real, deadline: real): (Queue, Popped) {
    var running := Prune(q.running, now);
    var i := FirstNonEmpty(q.pending, 0);
    if |running| >= maxActive || i == |q.pending| then
      (q.(running := running), Nothing)
    else
      var id := Least(q.pending[i]);
      (q.(running := Add(running, id, deadline), pending := q.pending[i := q.pending[i] - {id}]),
       Popped(id, q.pending[i][id], i))
  }

  /** _UPDATE_PRIORITY_LUA: the first set that holds the id gives it up, and the new one takes it with its score. */
  function UpdatePriority(q: Queue, id: Id, priority: Priority): (Queue, bool)
    requires q.Valid()
  {
    var i := FirstHolding(q.pending, id, 0);
    if i == |q.pending| then (q, false)
    else
      var without := q.pending[i := q.pending[i] - {id}];
      (q.(pending := without[priority := Add(without[priority], id, q.pending[i][id])]), true)
  }

  /** _RESERVE_USER_SLOT_LUA: now is the caller's reading, clock the server's. */
  function Reserve(q: Queue, user: UserId, id: Id, limit: int, now: real, clock: real): (Queue, bool) {
    var slots := Prune(LiveSlots(q, user, clock), now);
    if |slots| >= limit then
      var expiresAt := if user in q.reserved then q.reserved[user].expiresAt else clock;
      (q.(reserved := q.reserved[user := Reserved(slots, expiresAt)]), false)
    else
      (q.(reserved := q.reserved[user := Reserved(Add(slots, id, now + EVENT_TTL), clock + EVENT_TTL)],
          owners := q.owners[id := Owned(user, clock + EVENT_TTL)]), true)
  }

  /** The user's reservations that are live at clock and have a deadline above now. */
  function InFlight(q: Queue, user: UserId, now: real, clock: real): set<Id> {
    if user !in q.reserved || clock >= q.reserved[user].expiresAt then {}
    else set id | id in q.reserved[user].slots && q.reserved[user].slots[id] > now
  }

  lemma PrunedIsInFlight(q: Queue, user: UserId, now: real, clock: real)
    ensures Prune(LiveSlots(q, user, clock), now).Keys == InFlight(q, user, now, clock)
    ensures |Prune(LiveSlots(q, user, clock), now)| == |InFlight(q, user, now, clock)|
  {
    assert Prune(LiveSlots(q, user, clock), now).Keys == InFlight(q, user, now, clock);
  }

  /** A reservation is granted exactly when fewer than limit of the user's reservations are in flight. */
  lemma GrantedIff(q: Queue, user: UserId, id: Id, limit: int, now: real, clock: real)
    ensures Reserve(q, user, id, limit, now, clock).1 <==> |InFlight(q, user, now, clock)| < limit
  {
    PrunedIsInFlight(q, user, now, clock);
  }

  /** The transaction of release_user_slot, once the owner has been read. */
  function FreeUserSlot(q: Queue, user: UserId, id: Id): Queue {
    q.(reserved := if user in q.reserved
                   then q.reserved[user := q.reserved[user].(slots := q.reserved[user].slots - {id})]
                   else q.reserved,
       owners := q.owners - {id})
  }

  /** release_user_slot run without interference. */
  function ReleaseUserSlot(q: Queue, id: Id, clock: real): Queue {
    match OwnerOf(q, id, clock)
    case None => q
    case Some(user) => FreeUserSlot(q, user, id)
  }

  /** The transaction of enqueue. */
  function Enqueue(q: Queue, id: Id, priority: Priority, score: real, request: Request, clock: real): Queue
    requires q.Valid()
  {
    q.(pending := q.pending[priority := Add(q.pending[priority], id, score)],
       requests := q.requests[id := Stored(request, clock + EVENT_TTL)])
  }

  /** The transaction that gives a loaded request's slots their real deadline, only where they still exist. */
  function RescoreSlots(q: Queue, id: Id, request: Request, deadline: real, clock: real): Queue {
    var user := request.user;
    q.(running := Rescore(q.running, id, deadline),
       reserved := if id in LiveSlots(q, user, clock)
                   then q.reserved[user := q.reserved[user].(slots := Add(q.reserved[user].slots, id, deadline))]
                   else q.reserved)
  }

  function DropRunning(q: Queue, id: Id): Queue {
    q.(running := q.running - {id})
  }

  function Release(q: Queue, id: Id): Queue {
    q.(running := q.running - {id}, requests := q.requests - {id})
  }

  /** A copy of the pending sets without id. */
  function Without(pending: seq<ZSet>, id: Id): (r: seq<ZSet>)
    ensures |r| == |pending|
    ensures forall i | 0 <= i < |pending| :: r[i] == pending[i] - {id}
  {
    seq(|pending|, i requires 0 <= i < |pending| => pending[i] - {id})
  }

  function Remove(q: Queue, id: Id): (Queue, bool) {
    (q.(pending := Without(q.pending, id), requests := q.requests - {id}, running := q.running - {id}),
     id in q.running || exists i | 0 <= i < |q.pending| :: id in q.pending[i])
  }

  /** try_schedule run without interference, with the clock read at each of its commands. */
  function TryScheduleAt(q: Queue, maxActive: int, popAt: real, loadAt: real, rescoreAt: real): (Queue, Outcome) {
    var (popped, taken) := Schedule(q, maxActive, popAt, popAt + PROVISIONAL_SLOT);
    if taken.Nothing? then (popped, Idle)
    else
      match LoadRequest(popped, taken.id, loadAt)
      case None => (ReleaseUserSlot(DropRunning(popped, taken.id), taken.id, loadAt), Lost(taken.id))
      case Some(r) => (RescoreSlots(popped, taken.id, r, rescoreAt + SlotSeconds(r), rescoreAt), Scheduled(taken.id, r))
  }

  /** The service, run by one worker at a time; QueueInterleaving mixes the commands of many. */
  class ExecutionQueueService {
    var pending: seq<ZSet>
    var running: ZSet
    var requests: map<Id, Stored>
    var reserved: map<UserId, Reserved>
    var owners: map<Id, Owned>
    var clock: real

    ghost predicate Valid() reads this { |pending| == PRIORITIES }

    ghost function State(): Queue reads this { Queue(pending, running, requests, reserved, owners) }

    constructor ()
      ensures Valid()
      ensures State() == Queue([map[], map[], map[], map[], map[]], map[], map[], map[], map[])
    {
      pending, running, requests, reserved, owners := [map[], map[], map[], map[], map[]], map[], map[], map[], map[];
      clock := 0.0;
    }

    /** Reads the clock, which any amount of time may have moved since. */
    method Time() returns (now: real)
      modifies this`clock
      ensures old(clock) <= now == clock
    {
      var passed: real := *;
      if passed > 0.0 { clock := clock + passed; }
      now := clock;
    }

    method ScheduleScript(maxActive: int, now: real, deadline: real) returns (popped: Popped)
      requires Valid()
      modifies this`pending, this`running
      ensures Valid()
      ensures (State(), popped) == Schedule(old(State()), maxActive, now, deadline)
    {
      running := Prune(running, now);
      if |running| >= maxActive { return Nothing; }
      var i := 0;
      while i < PRIORITIES
        invariant i <= PRIORITIES && pending == old(pending) && running == Prune(old(running), now)
        invariant FirstNonEmpty(pending, 0) == FirstNonEmpty(pending, i)
      {
        if pending[i] != map[] {
          var id := Least(pending[i]);
          popped := Popped(id, pending[i][id], i);
          pending := pending[i := pending[i] - {id}];
          running := Add(running, id, deadline);
          return;
        }
        i := i + 1;
      }
      popped := Nothing;
    }

    method ChangePriority(id: Id, priority: Priority) returns (changed: bool)
      requires Valid()
      modifies this`pending
      ensures Valid()
      ensures (State(), changed) == UpdatePriority(old(State()), id, priority)
    {
      var i := 0;
      while i < PRIORITIES
        invariant i <= PRIORITIES && pending == old(pending)
        invariant FirstHolding(pending, id, 0) == FirstHolding(pending, id, i)
      {
        if id in pending[i] {
          var score := pending[i][id];
          pending := pending[i := pending[i] - {id}];
          pending := pending[priority := Add(pending[priority], id, score)];
          return true;
        }
        i := i + 1;
      }
      changed := false;
    }

    method RemoveExecution(id: Id) returns (removed: bool)
      requires Valid()
      modifies this`pending, this`running, this`requests
      ensures Valid()
      ensures (State(), removed) == Remove(old(State()), id)
    {
      removed := id in running;
      var i := 0;
      while i < PRIORITIES
        invariant i <= PRIORITIES == |pending|
        invariant running == old(running) && requests == old(requests)
        invariant forall j | 0 <= j < i :: pending[j] == old(pending)[j] - {id}
        invariant forall j | i <= j < PRIORITIES :: pending[j] == old(pending)[j]
        invariant removed <==> id in running || exists j | 0 <= j < i :: id in old(pending)[j]
      {
        removed := removed || id in pending[i];
        pending := pending[i := pending[i] - {id}];
        i := i + 1;
      }
      assert pending == Without(old(pending), id);
      requests := requests - {id};
      running := running - {id};
    }

    method EnqueueRequest(id: Id, priority: Priority, request: Request)
      requires Valid()
      modifies this`pending, this`requests, this`clock
      ensures Valid() && old(clock) <= clock
      ensures State() == Enqueue(old(State()), id, priority, clock, request, clock)
      ensures id in requests && requests[id] == Stored(request, clock + 86400.0)
    {
      var score := Time();
      pending := pending[priority := Add(pending[priority], id, score)];
      requests := requests[id := Stored(request, clock + EVENT_TTL)];
    }

    method ReserveUserSlot(user: UserId, id: Id, limit: int) returns (granted: bool)
      requires Valid()
      modifies this`reserved, this`owners, this`clock
      ensures Valid() && old(clock) <= clock
      ensures (State(), granted) == Reserve(old(State()), user, id, limit, clock, clock)
      ensures granted <==> |InFlight(old(State()), user, clock, clock)| < limit
      ensures granted ==> id in InFlight(State(), user, clock, clock) && reserved[user].slots[id] == clock + 86400.0
    {
      var now := Time();
      GrantedIff(State(), user, id, limit, now, clock);
      var slots := if user in reserved && clock < reserved[user].expiresAt then reserved[user].slots else map[];
      slots := Prune(slots, now);
      if |slots| >= limit {
        reserved := reserved[user := Reserved(slots, if user in reserved then reserved[user].expiresAt else clock)];
        return false;
      }
      reserved := reserved[user := Reserved(Add(slots, id, now + EVENT_TTL), clock + EVENT_TTL)];
      owners := owners[id := Owned(user, clock + EVENT_TTL)];
      granted := true;
    }

    method ReleaseReservation(id: Id)
      requires Valid()
      modifies this`reserved, this`owners
      ensures Valid()
      ensures State() == ReleaseUserSlot(old(State()), id, clock)
    {
      if id !in owners || clock >= owners[id].expiresAt { return; }
      var user := owners[id].user;
      if user in reserved {
        reserved := reserved[user := reserved[user].(slots := reserved[user].slots - {id})];
      }
      owners := owners - {id};
    }

    method ReleaseSlot(id: Id)
      requires Valid()
      modifies this`running, this`requests
      ensures Valid()
      ensures State() == Release(old(State()), id)
    {
      running := running - {id};
      requests := requests - {id};
    }

    /** try_schedule, with the clock readings of its commands as ghost results. */
    method TrySchedule(maxActive: int) returns (outcome: Outcome, ghost popAt: real, ghost loadAt: real)
      requires Valid()
      modifies this
      ensures Valid()
      ensures old(clock) <= popAt <= loadAt <= clock
      ensures (State(), outcome) == TryScheduleAt(old(State()), maxActive, popAt, loadAt, clock)
    {
      var now := Time();
      popAt := now;
      var popped := ScheduleScript(maxActive, now, now + PROVISIONAL_SLOT);
      loadAt := now;
      if popped.Nothing? { return Idle, popAt, loadAt; }
      var id := popped.id;
      var loadTime := Time();
      loadAt := loadTime;
      if id !in requests || clock >= requests[id].expiresAt {
        running := running - {id};
        ReleaseReservation(id);
        return Lost(id), popAt, loadAt;
      }
      var request := requests[id].request;
      var rescoreTime := Time();
      var deadline := rescoreTime + TimeoutFor(request.language, request.timeoutSeconds) as real + SLOT_GRACE;
      assert deadline == rescoreTime + SlotSeconds(request);
      var user := request.user;
      if id in running { running := Add(running, id, deadline); }
      if user in reserved && clock < reserved[user].expiresAt && id in reserved[user].slots {
        reserved := reserved[user := reserved[user].(slots := Add(reserved[user].slots, id, deadline))];
      }
      outcome := Scheduled(id, request);
    }
  }
}

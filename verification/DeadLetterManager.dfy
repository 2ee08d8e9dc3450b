/** DLQManager and DLQRepository as they change the stored rows, for any number of events and consumer groups. */
module DeadLetterManager {
  import opened DeadLetter
  import opened Options

  datatype Key = Key(event: string, group: string)

  /** A message the manager publishes: a retry of an event for one group, or an announcement. */
  datatype Message =
    | FailureReceived(key: Key, retryCount: nat)
    | Retry(key: Key, retryCount: nat)
    | RetryDone(key: Key, retryCount: nat)
    | FailureDiscarded(key: Key)

  const TEST_PREFIX := "test-"
  const MAX_AGE: real := 604800.0
  const BATCH_LIMIT: nat := 100

  /** Whether a filter drops a failure. */
  predicate Filtered(event: string, age: real, testEnvironment: bool) {
    (!testEnvironment && TEST_PREFIX <= event) || age >= MAX_AGE
  }

  /**
    In production exactly the failures of ids that start with "test-", and those a week old, are dropped; a test
    environment drops only the old ones.
   */
  lemma FilteredIff(event: string, age: real, testEnvironment: bool)
    ensures Filtered(event, age, testEnvironment)
       <==> age >= 604800.0 || (!testEnvironment && |event| >= 5 && event[..5] == "test-")
  {
    assert TEST_PREFIX <= event <==> |event| >= 5 && event[..5] == "test-";
  }

  /** The row handle_message leaves for a failure that is not filtered, given what its two writes do. */
  function HandledRow(row: Option<Row>, retryCount: nat, save: Write, reported: bool, decide: Write, now: real, random: real):
    Option<Row>
  {
    if !Applies(save) then row
    else if Raises(save) || !reported || !Applies(decide) then Some(Row(Pending, retryCount, None))
    else if retryCount >= MAX_RETRIES then Some(Row(Discarded, retryCount, None))
    else Some(Row(Scheduled, retryCount, Some(NextRetryTime(retryCount, now, random))))
  }

  /** What it publishes, when announced says whether a discard's announcement is taken. */
  function HandledMessages(key: Key, retryCount: nat, save: Write, reported: bool, decide: Write, announced: bool): seq<Message> {
    if Raises(save) || !reported then []
    else if retryCount < MAX_RETRIES || Raises(decide) || !announced then [FailureReceived(key, retryCount)]
    else [FailureReceived(key, retryCount), FailureDiscarded(key)]
  }

  /** The failure is announced once its row is saved, and a discard after it. */
  lemma HandledInOrder(key: Key, retryCount: nat, save: Write, reported: bool, decide: Write, announced: bool)
    ensures var said := HandledMessages(key, retryCount, save, reported, decide, announced);
      && |said| <= 2 && (|said| >= 1 <==> save == Written && reported)
      && (|said| >= 1 ==> said[0] == FailureReceived(key, retryCount))
      && (|said| == 2 <==> save == Written && reported && retryCount >= 5 && decide == Written && announced)
      && (|said| == 2 ==> said[1] == FailureDiscarded(key))
  {
  }

  /** What the two writes and the two publishes of one retry do. */
  datatype RetryFaults = RetryFaults(mark: Write, sent: bool, back: Write, announced: bool)

  /** The retry is published. */
  predicate Publishes(f: RetryFaults) { f.mark == Written && f.sent }

  /** The row says retried afterwards. */
  predicate Marks(f: RetryFaults) { f.mark == RaisedApplied || (f.mark == Written && (f.sent || !Applies(f.back))) }

  predicate Succeeds(f: RetryFaults) { Publishes(f) && f.announced }

  /** The first of n retries that raises, or n. */
  function FirstFault(faults: nat -> RetryFaults, n: nat): (k: nat)
    ensures k <= n && (forall i | 0 <= i < k :: Succeeds(faults(i))) && (k < n ==> !Succeeds(faults(k)))
  {
    if n == 0 then 0
    else
      var k := FirstFault(faults, n - 1);
      if k < n - 1 || !Succeeds(faults(n - 1)) then k else n
  }

  /** The Save, Report and Decide steps of the protocol leave the same row. */
  lemma HandledRowIsThreeSteps(
      w: World, g: nat, save: Write, reported: bool, decide: Write, now: real, random: real)
    requires g < |w.groups| && w.groups[g].at.Saving?
    ensures var v := Run(w, [Save(g, save), Report(g, reported), Decide(g, now, random, decide)]);
      && |v.groups| == |w.groups| && v.groups[g].at.Waiting?
      && v.groups[g].row == HandledRow(w.groups[g].row, w.groups[g].at.retryCount, save, reported, decide, now, random)
  {
    RunThree(w, Save(g, save), Report(g, reported), Decide(g, now, random, decide));
    var saved := Next(w, Save(g, save));
    assert saved.groups[g] == Saved(w.groups[g], save);
    if !Raises(save) { assert Next(saved, Report(g, reported)).groups[g] == Reported(saved.groups[g], reported); }
  }

  /** Fields a status change sets; a missing one keeps the stored value. */
  datatype Changes = Changes(status: Status, retryCount: Option<nat>, nextRetryAt: Option<real>)

  function Changed(row: Row, changes: Changes): Row {
    Row(changes.status,
        if changes.retryCount.Some? then changes.retryCount.value else row.retryCount,
        if changes.nextRetryAt.Some? then changes.nextRetryAt else row.nextRetryAt)
  }

  function Updated(rows: map<Key, Row>, key: Key, changes: Changes): map<Key, Row> {
    if key in rows then rows[key := Changed(rows[key], changes)] else rows
  }

  function MarkRetried(retryCount: nat): Changes { Changes(Retried, Some(retryCount + 1), None) }

  function BackOnSchedule(retryCount: nat): Changes { Changes(Scheduled, Some(retryCount), None) }

  /** The mark counts one retry more, and taking it back restores the count; neither moves the due time. */
  lemma RetryChanges(row: Row)
    ensures Changed(row, MarkRetried(row.retryCount)) == Row(Retried, row.retryCount + 1, row.nextRetryAt)
    ensures Changed(Changed(row, MarkRetried(row.retryCount)), BackOnSchedule(row.retryCount))
         == Row(Scheduled, row.retryCount, row.nextRetryAt)
  {
  }

  function RowOf(rows: map<Key, Row>, key: Key): Option<Row> { if key in rows then Some(rows[key]) else None }

  /** The rows after the first n messages of a batch were retried. */
  function Retries(rows: map<Key, Row>, batch: seq<Key>, n: nat): map<Key, Row>
    requires n <= |batch| && forall i | 0 <= i < |batch| :: batch[i] in rows
  {
    map key | key in rows ::
      if key in batch[..n] then rows[key].(status := Retried, retryCount := rows[key].retryCount + 1) else rows[key]
  }

  /** What retrying the first n messages of a batch publishes. */
  function RetryMessages(rows: map<Key, Row>, batch: seq<Key>, n: nat): seq<Message>
    requires n <= |batch| && forall i | 0 <= i < |batch| :: batch[i] in rows
  {
    if n == 0 then []
    else
      var key := batch[n - 1];
      RetryMessages(rows, batch, n - 1) + [Retry(key, rows[key].retryCount + 1), RetryDone(key, rows[key].retryCount + 1)]
  }

  predicate Distinct(keys: seq<Key>) { forall i, j :: 0 <= i < j < |keys| ==> keys[i] != keys[j] }

  predicate DueAt(rows: map<Key, Row>, key: Key, now: real) {
    key in rows && IsDue(Some(rows[key]), rows[key].retryCount, now)
  }

  /** Different rows, all of them scheduled. */
  predicate AllScheduled(rows: map<Key, Row>, keys: seq<Key>) {
    Distinct(keys) && forall i | 0 <= i < |keys| :: keys[i] in rows && rows[keys[i]].status == Scheduled
  }

  lemma RetriesOneMore(rows: map<Key, Row>, batch: seq<Key>, n: nat)
    requires n < |batch| && AllScheduled(rows, batch)
    ensures var before := Retries(rows, batch, n); var key := batch[n];
      && key in before && before[key] == rows[key]
      && Updated(before, key, MarkRetried(rows[key].retryCount)) == Retries(rows, batch, n + 1)
      && Updated(before, key, BackOnSchedule(rows[key].retryCount)) == before
  {
    assert batch[..n + 1] == batch[..n] + [batch[n]];
    assert batch[n] !in batch[..n];
  }

  /** The rows and messages once the first n of a batch are retried. */
  ghost predicate RetriedFirst(rows0: map<Key, Row>, bus0: seq<Message>, rows: map<Key, Row>, bus: seq<Message>,
                               batch: seq<Key>, n: nat)
    requires AllScheduled(rows0, batch) && n <= |batch|
  {
    rows == Retries(rows0, batch, n) && bus == bus0 + RetryMessages(rows0, batch, n)
  }

  /** And once the next one raised, as far as its faults let it. */
  ghost predicate StoppedAt(rows0: map<Key, Row>, bus0: seq<Message>, rows: map<Key, Row>, bus: seq<Message>,
                            batch: seq<Key>, n: nat, fault: RetryFaults)
    requires AllScheduled(rows0, batch) && n < |batch|
  {
    && rows == Retries(rows0, batch, if Marks(fault) then n + 1 else n)
    && bus == bus0 + RetryMessages(rows0, batch, n)
              + if Publishes(fault) then [Retry(batch[n], rows0[batch[n]].retryCount + 1)] else []
  }

  ghost predicate RetriedTo(rows0: map<Key, Row>, bus0: seq<Message>, rows: map<Key, Row>, bus: seq<Message>,
                            batch: seq<Key>, faults: nat -> RetryFaults, n: nat)
    requires AllScheduled(rows0, batch) && n <= |batch|
  {
    if n == |batch| then RetriedFirst(rows0, bus0, rows, bus, batch, n)
    else StoppedAt(rows0, bus0, rows, bus, batch, n, faults(n))
  }

  lemma NothingRetried(rows: map<Key, Row>, bus: seq<Message>, batch: seq<Key>)
    requires AllScheduled(rows, batch)
    ensures RetriedFirst(rows, bus, rows, bus, batch, 0)
  {
    assert Retries(rows, batch, 0) == rows;
  }

  class Manager {
    var rows: map<Key, Row>
    var bus: seq<Message>
    const testEnvironment: bool

    constructor (testEnvironment: bool)
      ensures rows == map[] && bus == [] && this.testEnvironment == testEnvironment
    {
      rows, bus, this.testEnvironment := map[], [], testEnvironment;
    }

    /** The broker takes a message or raises. */
    method Publish(message: Message, ok: bool)
      modifies this`bus
      ensures bus == if ok then old(bus) + [message] else old(bus)
    {
      if ok { bus := bus + [message]; }
    }

    /** save_message: an upsert by event and group. */
    method SaveMessage(key: Key, row: Row, write: Write)
      modifies this`rows
      ensures rows == if Applies(write) then old(rows)[key := row] else old(rows)
    {
      if Applies(write) { rows := rows[key := row]; }
    }

    method UpdateStatus(key: Key, changes: Changes, write: Write)
      modifies this`rows
      ensures rows == if Applies(write) then Updated(old(rows), key, changes) else old(rows)
    {
      if Applies(write) && key in rows { rows := rows[key := Changed(rows[key], changes)]; }
    }

    /** handle_message, given what its two writes and its two publishes do. */
    method HandleMessage(key: Key, retryCount: nat, failedAt: real, now: real, random: real,
                         save: Write, reported: bool, decide: Write, announced: bool)
      returns (raised: bool)
      modifies this
      ensures now - failedAt < 604800.0 && !("test-" <= key.event) && Applies(save) ==> key in rows
      ensures Filtered(key.event, now - failedAt, testEnvironment) ==> !raised && rows == old(rows) && bus == old(bus)
      ensures !Filtered(key.event, now - failedAt, testEnvironment) ==>
        && RowOf(rows, key) == HandledRow(RowOf(old(rows), key), retryCount, save, reported, decide, now, random)
        && rows - {key} == old(rows) - {key}
        && bus == old(bus) + HandledMessages(key, retryCount, save, reported, decide, announced)
        && raised == (Raises(save) || !reported || Raises(decide) || (retryCount >= MAX_RETRIES && !announced))
    {
      raised := false;
      if (!testEnvironment && TEST_PREFIX <= key.event) || now - failedAt >= MAX_AGE { return; }
      SaveMessage(key, Row(Pending, retryCount, None), save);
      if Raises(save) { return true; }
      Publish(FailureReceived(key, retryCount), reported);
      if !reported { return true; }
      if retryCount >= MAX_RETRIES {
        raised := DiscardMessage(key, decide, announced);
        return;
      }
      UpdateStatus(key, Changes(Scheduled, None, Some(NextRetryTime(retryCount, now, random))), decide);
      raised := Raises(decide);
    }

    /** discard_message: the row is discarded even when the announcement raises. */
    method DiscardMessage(key: Key, write: Write, announced: bool) returns (raised: bool)
      modifies this
      ensures rows == if Applies(write) then Updated(old(rows), key, Changes(Discarded, None, None)) else old(rows)
      ensures raised == (Raises(write) || !announced)
      ensures bus == if raised then old(bus) else old(bus) + [FailureDiscarded(key)]
    {
      UpdateStatus(key, Changes(Discarded, None, None), write);
      if Raises(write) { return true; }
      Publish(FailureDiscarded(key), announced);
      raised := !announced;
    }

    /**
      retry_message, given what its two writes and its two publishes do. The retry is published with the next count
      and the row says so, or nothing is published; then the row is as before, with its status scheduled and its old
      count, unless the mark raised after it was stored or was not taken back.
     */
    method RetryMessage(key: Key, retryCount: nat, faults: RetryFaults) returns (ok: bool)
      modifies this
      ensures ok == (Publishes(faults) && faults.announced)
      ensures Marks(faults) ==> rows == Updated(old(rows), key, MarkRetried(retryCount))
      ensures !Marks(faults) ==>
        rows == if faults.mark.Written? then Updated(old(rows), key, BackOnSchedule(retryCount)) else old(rows)
      ensures bus == old(bus) + (if Publishes(faults) then [Retry(key, retryCount + 1)] else [])
                              + (if ok then [RetryDone(key, retryCount + 1)] else [])
    {
      UpdateStatus(key, MarkRetried(retryCount), faults.mark);
      if Raises(faults.mark) { return false; }
      Publish(Retry(key, retryCount + 1), faults.sent);
      if !faults.sent {
        UpdateStatus(key, BackOnSchedule(retryCount), faults.back);
        return false;
      }
      Publish(RetryDone(key, retryCount + 1), faults.announced);
      ok := faults.announced;
    }

    /** find_due_retries: at most a hundred due rows, and all of them when they are fewer. */
    method FindDueRetries(now: real) returns (due: seq<Key>)
      ensures AllScheduled(rows, due) && |due| <= 100
      ensures forall i :: 0 <= i < |due| ==> DueAt(rows, due[i], now)
      ensures |due| < 100 ==> forall key :: DueAt(rows, key, now) ==> key in due
    {
      due := [];
      var left := rows.Keys;
      while left != {} && |due| < BATCH_LIMIT
        invariant left <= rows.Keys && Distinct(due) && |due| <= BATCH_LIMIT
        invariant forall i :: 0 <= i < |due| ==> DueAt(rows, due[i], now) && due[i] !in left
        invariant forall key :: DueAt(rows, key, now) ==> key in due || key in left
        decreases |left|
      {
        var key :| key in left;
        if IsDue(Some(rows[key]), rows[key].retryCount, now) { due := due + [key]; }
        left := left - {key};
      }
    }

    /** One round of the loop over due messages, of which the first i are retried. */
    method RetryNext(batch: seq<Key>, i: nat, faults: RetryFaults, ghost rows0: map<Key, Row>, ghost bus0: seq<Message>)
      returns (ok: bool)
      requires i < |batch| && AllScheduled(rows0, batch)
      requires RetriedFirst(rows0, bus0, rows, bus, batch, i)
      modifies this
      ensures ok == Succeeds(faults)
      ensures if ok then RetriedFirst(rows0, bus0, rows, bus, batch, i + 1)
              else StoppedAt(rows0, bus0, rows, bus, batch, i, faults)
    {
      RetriesOneMore(rows0, batch, i);
      ok := RetryMessage(batch[i], rows[batch[i]].retryCount, faults);
    }

    /** The loop over due messages. */
    method RetryBatch(batch: seq<Key>, faults: nat -> RetryFaults) returns (count: Option<nat>)
      requires AllScheduled(rows, batch)
      modifies this
      ensures var n := FirstFault(faults, |batch|); RetriedTo(old(rows), old(bus), rows, bus, batch, faults, n)
      ensures count == if FirstFault(faults, |batch|) == |batch| then Some(|batch|) else None
    {
      hide RetriedFirst, StoppedAt;
      NothingRetried(rows, bus, batch);
      for i := 0 to |batch|
        invariant RetriedFirst(old(rows), old(bus), rows, bus, batch, i)
        invariant i <= FirstFault(faults, |batch|)
      {
        var ok := RetryNext(batch, i, faults(i), old(rows), old(bus));
        if !ok { return None; }
      }
      count := Some(|batch|);
    }

    /**
      process_due_retries, given what happens to each retry: retries due rows in order until something raises. All
      before that one are published with the next count and their rows say so; every row after it is as before.
     */
    method ProcessDueRetries(now: real, faults: nat -> RetryFaults) returns (count: Option<nat>, ghost batch: seq<Key>)
      modifies this
      ensures |batch| <= 100 && AllScheduled(old(rows), batch)
      ensures forall i :: 0 <= i < |batch| ==> DueAt(old(rows), batch[i], now)
      ensures |batch| < 100 ==> forall key :: DueAt(old(rows), key, now) ==> key in batch
      ensures var n := FirstFault(faults, |batch|); RetriedTo(old(rows), old(bus), rows, bus, batch, faults, n)
      ensures count == if FirstFault(faults, |batch|) == |batch| then Some(|batch|) else None
    {
      var messages := FindDueRetries(now);
      batch := messages;
      count := RetryBatch(messages, faults);
    }
  }
}

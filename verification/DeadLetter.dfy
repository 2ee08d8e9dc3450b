/**
  The dead-letter protocol of one published event: consumer groups that skip retries meant for others
  (RetryTargetMiddleware), save their failures (DeadLetterMiddleware) and have them republished (DLQManager).

  Every message is delivered once to each group, a group handles one delivery at a time, one processor runs
  process_due_retries, and a publish that raises published nothing. A write to the rows may raise, applied or not.
 */
module DeadLetter {
  import opened Options

  // ---- the retry policy

  const MAX_RETRIES: nat := 5

  function Power(n: nat): real { if n == 0 then 1.0 else 2.0 * Power(n - 1) }

  function Delay(retryCount: nat): real {
    var delay := 30.0 * Power(retryCount);
    if delay <= 300.0 then delay else 300.0
  }

  /** When a message is due, given a random number from 0 up to 1. */
  function NextRetryTime(retryCount: nat, now: real, random: real): real {
    var delay := Delay(retryCount);
    var jittered := delay + delay * 0.1 * (2.0 * random - 1.0);
    now + if jittered >= 0.0 then jittered else 0.0
  }

  lemma {:induction false} PowerGrows(m: nat, n: nat)
    requires m <= n
    ensures 1.0 <= Power(m) <= Power(n)
  {
    if m < n { PowerGrows(m, n - 1); } else if n > 0 { PowerGrows(m - 1, n - 1); }
  }

  /** Delays double from 30 s until they stay at 300 s, and jitter moves them by at most a tenth. */
  lemma RetryTimes(retryCount: nat, now: real, random: real)
    requires 0.0 <= random < 1.0
    ensures Delay(retryCount) <= Delay(retryCount + 1)
    ensures retryCount <= 3 ==> Delay(retryCount) == 30.0 * Power(retryCount)
    ensures retryCount >= 4 ==> Delay(retryCount) == 300.0
    ensures now + 0.9 * Delay(retryCount) <= NextRetryTime(retryCount, now, random) < now + 1.1 * Delay(retryCount)
  {
    PowerGrows(retryCount, retryCount + 1);
    assert Power(3) == 8.0 && Power(4) == 16.0 by { assert Power(1) == 2.0 && Power(2) == 4.0; }
    if retryCount <= 3 { PowerGrows(retryCount, 3); } else { PowerGrows(4, retryCount); }
    Jitter(Delay(retryCount), random);
  }

  lemma Jitter(delay: real, random: real)
    requires delay > 0.0 && 0.0 <= random < 1.0
    ensures -0.1 * delay <= delay * 0.1 * (2.0 * random - 1.0) < 0.1 * delay
  {
    var part := delay * 0.1;
    var factor := 2.0 * random - 1.0;
    assert part * (factor + 1.0) >= 0.0;
    assert part * (1.0 - factor) > 0.0;
  }

  // ---- the machine

  datatype Status = Pending | Scheduled | Retried | Discarded

  datatype Row = Row(status: Status, retryCount: nat, nextRetryAt: Option<real>)

  /** The headers of a message: no target for the original one. */
  datatype Delivery = Delivery(target: Option<nat>, retryCount: nat)

  const ORIGINAL := Delivery(None, 0)

  /** Where a group's consumer stands in the handler or in handle_message. */
  datatype Point =
    | Waiting
    | Handling(retryCount: nat)
    | Saving(retryCount: nat)
    | Reporting(retryCount: nat)
    | Deciding(retryCount: nat)

  // Unsaved is a failure that no row shows, LeftPending one whose row nothing schedules any more, and LeftRetried one
  // whose row says retried although nothing was published.
  datatype Outcome = Succeeded | GaveUp | FilteredOut | Unsaved | LeftPending | LeftRetried

  /** What a write to the rows does. */
  datatype Write = Written | RaisedApplied | RaisedUnapplied

  predicate Raises(write: Write) { write != Written }

  predicate Applies(write: Write) { write != RaisedUnapplied }

  /** One group: its deliveries to come, its row, the deliveries its handler ran on, and its published retries. */
  datatype Group = Group(
    inbox: multiset<Delivery>,
    at: Point,
    row: Option<Row>,
    ran: seq<Delivery>,
    published: nat,
    outcome: Option<Outcome>
  )

  datatype Due = Due(group: nat, retryCount: nat)

  datatype Task = Idle | Publishing(due: Due) | RollingBack(due: Due) | Announcing

  /** filtered says whether the filters of handle_message drop the event (a "test-" id). */
  datatype World = World(groups: seq<Group>, batch: seq<Due>, task: Task, filtered: bool)

  datatype Step =
    | Consume(g: nat, d: Delivery)
    | Handled(g: nat, ok: bool)
    | Save(g: nat, write: Write)
    | Report(g: nat, ok: bool)
    | Decide(g: nat, now: real, random: real, write: Write)
    | Fetch(due: seq<Due>, now: real)
    | Mark(write: Write)
    | Publish(ok: bool)
    | RollBack(write: Write)
    | Announce(ok: bool)

  /** RetryTargetMiddleware. */
  predicate Addressed(d: Delivery, g: nat) { d.target.None? || d.target.value == g }

  function Consumed(x: Group, g: nat, d: Delivery): Group {
    var rest := x.(inbox := x.inbox - multiset{d});
    if Addressed(d, g) then rest.(at := Handling(d.retryCount), ran := x.ran + [d]) else rest
  }

  function AfterHandler(x: Group, ok: bool, filtered: bool): Group
    requires x.at.Handling?
  {
    if ok then x.(at := Waiting, outcome := Some(Succeeded))
    else if filtered then x.(at := Waiting, outcome := Some(FilteredOut))
    else x.(at := Saving(x.at.retryCount))
  }

  /** save_message, which ends the consumer's work on the failure when it raises. */
  function Saved(x: Group, write: Write): Group
    requires x.at.Saving?
  {
    var k := x.at.retryCount;
    var kept := if Applies(write) then x.(row := Some(Row(Pending, k, None))) else x;
    if Raises(write) then kept.(at := Waiting, outcome := Some(if Applies(write) then LeftPending else Unsaved))
    else kept.(at := Reporting(k))
  }

  /** The announcement of the failure. */
  function Reported(x: Group, ok: bool): Group
    requires x.at.Reporting?
  {
    if ok then x.(at := Deciding(x.at.retryCount)) else x.(at := Waiting, outcome := Some(LeftPending))
  }

  /** The end of handle_message. */
  function Decided(x: Group, now: real, random: real, write: Write): Group
    requires x.at.Deciding? && x.row.Some?
  {
    if !Applies(write) then x.(at := Waiting, outcome := Some(LeftPending))
    else if x.at.retryCount >= MAX_RETRIES
    then x.(at := Waiting, row := Some(x.row.value.(status := Discarded)), outcome := Some(GaveUp))
    else x.(at := Waiting, row := Some(x.row.value.(status := Scheduled,
                                                    nextRetryAt := Some(NextRetryTime(x.at.retryCount, now, random)))))
  }

  /** What find_due_retries selects. */
  predicate IsDue(row: Option<Row>, retryCount: nat, now: real) {
    row.Some? && row.value.status == Scheduled && row.value.retryCount == retryCount
    && row.value.nextRetryAt.Some? && row.value.nextRetryAt.value <= now
  }

  predicate CanFetch(groups: seq<Group>, due: seq<Due>, now: real) {
    && (forall i :: 0 <= i < |due| ==> due[i].group < |groups| && IsDue(groups[due[i].group].row, due[i].retryCount, now))
    && (forall i, j :: 0 <= i < j < |due| ==> due[i].group != due[j].group)
  }

  predicate Batched(batch: seq<Due>, g: nat) { exists i :: 0 <= i < |batch| && batch[i].group == g }

  function SetRow(x: Group, status: Status, retryCount: nat): Group {
    if x.row.Some? then x.(row := Some(x.row.value.(status := status, retryCount := retryCount))) else x
  }

  /** Every group subscribed to the topic gets the message. */
  function Broadcast(groups: seq<Group>, d: Delivery): (r: seq<Group>)
    ensures |r| == |groups|
    ensures forall i :: 0 <= i < |r| ==> r[i] == groups[i].(inbox := groups[i].inbox + multiset{d})
  {
    seq(|groups|, i requires 0 <= i < |groups| => groups[i].(inbox := groups[i].inbox + multiset{d}))
  }

  function Set(w: World, g: nat, x: Group): World
    requires g < |w.groups|
  {
    w.(groups := w.groups[g := x])
  }

  function ConsumerStep(w: World, step: Step): World {
    match step
    case Consume(g, d) =>
      if g < |w.groups| && w.groups[g].at.Waiting? && d in w.groups[g].inbox
      then Set(w, g, Consumed(w.groups[g], g, d)) else w
    case Handled(g, ok) =>
      if g < |w.groups| && w.groups[g].at.Handling? then Set(w, g, AfterHandler(w.groups[g], ok, w.filtered)) else w
    case Save(g, write) =>
      if g < |w.groups| && w.groups[g].at.Saving? then Set(w, g, Saved(w.groups[g], write)) else w
    case Report(g, ok) =>
      if g < |w.groups| && w.groups[g].at.Reporting? then Set(w, g, Reported(w.groups[g], ok)) else w
    case Decide(g, now, random, write) =>
      if g < |w.groups| && w.groups[g].at.Deciding? && w.groups[g].row.Some?
      then Set(w, g, Decided(w.groups[g], now, random, write)) else w
    case _ => w
  }

  /** A group whose retry was published. */
  function Sent(groups: seq<Group>, due: Due): (r: seq<Group>)
    ensures |r| == |groups|
  {
    var all := Broadcast(groups, Delivery(Some(due.group), due.retryCount + 1));
    if due.group < |all| then all[due.group := all[due.group].(published := all[due.group].published + 1)] else all
  }

  /** A group whose row says retried when a write raised, with nothing published. */
  function Stranded(x: Group): Group { x.(outcome := Some(LeftRetried)) }

  function ProcessorStep(w: World, step: Step): World {
    match step
    case Fetch(due, now) =>
      if w.task.Idle? && w.batch == [] && CanFetch(w.groups, due, now) then w.(batch := due) else w
    case Mark(write) =>
      if w.task.Idle? && w.batch != [] && w.batch[0].group < |w.groups| then
        var due := w.batch[0];
        var marked := SetRow(w.groups[due.group], Retried, due.retryCount + 1);
        (match write
         case Written => Set(w, due.group, marked).(batch := w.batch[1..], task := Publishing(due))
         case RaisedApplied => Set(w, due.group, Stranded(marked)).(batch := [])
         case RaisedUnapplied => w.(batch := []))
      else w
    case Publish(ok) =>
      if !w.task.Publishing? then w
      else if ok then w.(groups := Sent(w.groups, w.task.due), task := Announcing)
      else w.(task := RollingBack(w.task.due), batch := [])
    case RollBack(write) =>
      if w.task.RollingBack? && w.task.due.group < |w.groups| then
        var due := w.task.due;
        var x := w.groups[due.group];
        Set(w, due.group, if Applies(write) then SetRow(x, Scheduled, due.retryCount) else Stranded(x)).(task := Idle)
      else w
    case Announce(ok) =>
      if !w.task.Announcing? then w else if ok then w.(task := Idle) else w.(task := Idle, batch := [])
    case _ => w
  }

  predicate IsConsumer(step: Step) { step.Consume? || step.Handled? || step.Save? || step.Report? || step.Decide? }

  function Next(w: World, step: Step): World { if IsConsumer(step) then ConsumerStep(w, step) else ProcessorStep(w, step) }

  function Run(w: World, steps: seq<Step>): World
    decreases |steps|
  {
    if steps == [] then w else Run(Next(w, steps[0]), steps[1..])
  }

  const FRESH := Group(multiset{ORIGINAL}, Waiting, None, [], 0, None)

  /** The event was just published to n groups. */
  function Initial(n: nat, filtered: bool): World { World(seq(n, i => FRESH), [], Idle, filtered) }

  // ---- what every step keeps

  /** The k-th delivery a group's handler may run on. */
  function Expected(g: nat, k: nat): Delivery { Delivery(if k == 0 then None else Some(g), k) }

  function Deliveries(g: nat, n: nat): seq<Delivery> { seq(n, k requires 0 <= k < n => Expected(g, k)) }

  /** Nothing addressed to the group waits in its inbox but the delivery after n runs, at most pending times. */
  ghost predicate InboxOk(x: Group, g: nat, pending: nat) {
    && (forall d :: d in x.inbox && Addressed(d, g) ==> d == Expected(g, |x.ran|))
    && x.inbox[Expected(g, |x.ran|)] == pending
  }

  predicate RowIs(x: Group, status: Status, retryCount: nat) {
    x.row.Some? && x.row.value.status == status && x.row.value.retryCount == retryCount
  }

  /** The row while the retryCount-th delivery is on its way or being handled. */
  predicate RowOnTheWay(x: Group, retryCount: nat) {
    if retryCount == 0 then x.row.None? else RowIs(x, Retried, retryCount)
  }

  predicate InFlight(x: Group, g: nat) { Expected(g, |x.ran|) in x.inbox }

  predicate OnSchedule(x: Group) { x.row.Some? && x.row.value.status == Scheduled }

  ghost predicate ConsumerOk(x: Group, g: nat)
    requires !x.at.Waiting?
  {
    && x.outcome.None? && InboxOk(x, g, 0) && |x.ran| == x.published + 1 && x.published <= MAX_RETRIES
    && x.at.retryCount == x.published
    && (if x.at.Handling? || x.at.Saving? then RowOnTheWay(x, x.published) else RowIs(x, Pending, x.published))
  }

  ghost predicate EndedOk(x: Group, g: nat)
    requires x.outcome.Some?
  {
    && x.at.Waiting? && InboxOk(x, g, 0) && |x.ran| == x.published + 1 && x.published <= MAX_RETRIES
    && match x.outcome.value
       case Succeeded => RowOnTheWay(x, x.published)
       case FilteredOut => RowOnTheWay(x, x.published)
       case GaveUp => RowIs(x, Discarded, MAX_RETRIES) && x.published == MAX_RETRIES
       case Unsaved => RowOnTheWay(x, x.published)
       case LeftPending => RowIs(x, Pending, x.published)
       case LeftRetried => RowIs(x, Retried, x.published + 1) && x.published < MAX_RETRIES
  }

  /**
    The event is in exactly one place for a group: on its way, in the consumer, on schedule, with the processor
    (claim), or ended; and all its runs were on the original and then on its own retries, counted up.
   */
  ghost predicate GroupOk(x: Group, g: nat, claim: Option<nat>) {
    && x.ran == Deliveries(g, |x.ran|)
    && if x.outcome.Some? then claim.None? && EndedOk(x, g)
       else if claim.Some? then
         && x.at.Waiting? && InboxOk(x, g, 0) && |x.ran| == x.published + 1 && x.published < MAX_RETRIES
         && claim.value == x.published && RowIs(x, Retried, x.published + 1) && x.row.value.nextRetryAt.Some?
       else if !x.at.Waiting? then ConsumerOk(x, g)
       else if OnSchedule(x) then
         && InboxOk(x, g, 0) && |x.ran| == x.published + 1 && x.published < MAX_RETRIES
         && x.row.value.retryCount == x.published && x.row.value.nextRetryAt.Some?
       else
         && InboxOk(x, g, 1) && |x.ran| == x.published && x.published <= MAX_RETRIES && RowOnTheWay(x, x.published)
  }

  function Claim(task: Task, g: nat): Option<nat> {
    if (task.Publishing? || task.RollingBack?) && task.due.group == g then Some(task.due.retryCount) else None
  }

  ghost predicate BatchOk(w: World) {
    && (forall i :: 0 <= i < |w.batch| ==>
          && w.batch[i].group < |w.groups| && OnSchedule(w.groups[w.batch[i].group])
          && w.groups[w.batch[i].group].row.value.retryCount == w.batch[i].retryCount)
    && (forall i, j :: 0 <= i < j < |w.batch| ==> w.batch[i].group != w.batch[j].group)
  }

  ghost predicate Good(w: World) {
    && (forall g :: 0 <= g < |w.groups| ==> GroupOk(w.groups[g], g, Claim(w.task, g)))
    && BatchOk(w)
    && (w.task.Publishing? || w.task.RollingBack? ==> w.task.due.group < |w.groups|)
    && (w.task.RollingBack? ==> w.batch == [])
  }

  lemma ConsumedOk(x: Group, g: nat, d: Delivery)
    requires GroupOk(x, g, None) && x.at.Waiting? && d in x.inbox
    ensures GroupOk(Consumed(x, g, d), g, None)
    ensures Consumed(x, g, d).row == x.row
    ensures Addressed(d, g) ==> InFlight(x, g) && x.outcome.None? && !OnSchedule(x)
  {
    if Addressed(d, g) {
      assert x.ran + [d] == Deliveries(g, |x.ran| + 1);
    }
  }

  lemma ConsumedWhileClaimed(x: Group, g: nat, d: Delivery, claim: Option<nat>)
    requires GroupOk(x, g, claim) && claim.Some? && x.at.Waiting? && d in x.inbox
    ensures GroupOk(Consumed(x, g, d), g, claim)
    ensures Consumed(x, g, d).row == x.row && !Addressed(d, g)
  {
  }

  lemma HandledOk(x: Group, g: nat, ok: bool, filtered: bool)
    requires GroupOk(x, g, None) && x.at.Handling?
    ensures GroupOk(AfterHandler(x, ok, filtered), g, None)
  {
  }

  lemma SavedOk(x: Group, g: nat, write: Write)
    requires GroupOk(x, g, None) && x.at.Saving?
    ensures GroupOk(Saved(x, write), g, None)
  {
  }

  lemma ReportedOk(x: Group, g: nat, ok: bool)
    requires GroupOk(x, g, None) && x.at.Reporting?
    ensures GroupOk(Reported(x, ok), g, None)
  {
  }

  lemma DecidedOk(x: Group, g: nat, now: real, random: real, write: Write)
    requires GroupOk(x, g, None) && x.at.Deciding?
    ensures GroupOk(Decided(x, now, random, write), g, None)
  {
  }

  /** A group whose consumer has the event is neither claimed nor on schedule. */
  lemma BusyIsUnclaimed(x: Group, g: nat, claim: Option<nat>)
    requires GroupOk(x, g, claim) && !x.at.Waiting?
    ensures claim.None? && !OnSchedule(x) && x.outcome.None?
  {
  }

  lemma ConsumerKeeps(w: World, step: Step)
    requires Good(w) && IsConsumer(step) && step.g < |w.groups|
    ensures var x := ConsumerStep(w, step).groups[step.g];
      && GroupOk(x, step.g, Claim(w.task, step.g))
      && (OnSchedule(w.groups[step.g]) ==> x.row == w.groups[step.g].row)
  {
    var g := step.g;
    var x := w.groups[g];
    var claim := Claim(w.task, g);
    if x.at.Waiting? {
      if step.Consume? && step.d in x.inbox {
        if claim.Some? { ConsumedWhileClaimed(x, g, step.d, claim); } else { ConsumedOk(x, g, step.d); }
      }
    } else {
      BusyIsUnclaimed(x, g, claim);
      match step
      case Consume(_, _) =>
      case Handled(_, ok) => if x.at.Handling? { HandledOk(x, g, ok, w.filtered); }
      case Save(_, write) => if x.at.Saving? { SavedOk(x, g, write); }
      case Report(_, ok) => if x.at.Reporting? { ReportedOk(x, g, ok); }
      case Decide(_, now, random, write) => if x.at.Deciding? && x.row.Some? { DecidedOk(x, g, now, random, write); }
    }
  }

  lemma DeliveredToOther(x: Group, g: nat, d: Delivery, claim: Option<nat>)
    requires GroupOk(x, g, claim) && !Addressed(d, g)
    ensures GroupOk(x.(inbox := x.inbox + multiset{d}), g, claim)
  {
  }

  lemma DeliveredToTarget(x: Group, g: nat, k: nat)
    requires GroupOk(x, g, Some(k))
    ensures GroupOk(x.(inbox := x.inbox + multiset{Delivery(Some(g), k + 1)}, published := x.published + 1), g, None)
  {
  }

  lemma SentKeeps(w: World, g: nat)
    requires Good(w) && w.task.Publishing? && g < |w.groups|
    ensures GroupOk(Sent(w.groups, w.task.due)[g], g, None)
    ensures Sent(w.groups, w.task.due)[g].row == w.groups[g].row
  {
    var due := w.task.due;
    if g == due.group { DeliveredToTarget(w.groups[g], g, due.retryCount); }
    else { DeliveredToOther(w.groups[g], g, Delivery(Some(due.group), due.retryCount + 1), None); }
  }

  lemma PublishedKeeps(w: World)
    requires Good(w) && w.task.Publishing?
    ensures Good(ProcessorStep(w, Publish(true)))
  {
    var v := ProcessorStep(w, Publish(true));
    forall g | 0 <= g < |v.groups|
      ensures GroupOk(v.groups[g], g, Claim(v.task, g)) && v.groups[g].row == w.groups[g].row
    {
      SentKeeps(w, g);
    }
  }

  lemma MarkKeeps(w: World, write: Write)
    requires Good(w)
    ensures Good(ProcessorStep(w, Mark(write)))
  {
    var v := ProcessorStep(w, Mark(write));
    if w.task.Idle? && w.batch != [] {
      var g := w.batch[0].group;
      assert GroupOk(w.groups[g], g, None);
      assert write.Written? ==> forall i :: 0 <= i < |v.batch| ==> v.batch[i] == w.batch[i + 1];
    }
  }

  lemma RollBackKeeps(w: World, write: Write)
    requires Good(w)
    ensures Good(ProcessorStep(w, RollBack(write)))
  {
  }

  lemma ProcessorKeeps(w: World, step: Step)
    requires Good(w) && !IsConsumer(step)
    ensures Good(ProcessorStep(w, step))
  {
    match step
    case Mark(write) => MarkKeeps(w, write);
    case RollBack(write) => RollBackKeeps(w, write);
    case Publish(ok) => if ok && w.task.Publishing? { PublishedKeeps(w); }
    case _ =>
  }

  /** A consumer changes only its own group. */
  lemma ConsumerSets(w: World, step: Step)
    requires IsConsumer(step)
    ensures var v := ConsumerStep(w, step);
      && v == w.(groups := v.groups) && |v.groups| == |w.groups|
      && forall g | 0 <= g < |w.groups| && g != step.g :: v.groups[g] == w.groups[g]
  {
  }

  lemma ConsumerKeepsGood(w: World, v: World, g: nat)
    requires Good(w) && v == w.(groups := v.groups) && |v.groups| == |w.groups|
    requires forall i | 0 <= i < |w.groups| && i != g :: v.groups[i] == w.groups[i]
    requires g < |w.groups| ==> GroupOk(v.groups[g], g, Claim(w.task, g))
    requires g < |w.groups| && OnSchedule(w.groups[g]) ==> v.groups[g].row == w.groups[g].row
    ensures Good(v)
  {
  }

  lemma NextKeeps(w: World, step: Step)
    requires Good(w)
    ensures Good(Next(w, step)) && |Next(w, step).groups| == |w.groups| && Next(w, step).filtered == w.filtered
  {
    if IsConsumer(step) {
      ConsumerSets(w, step);
      if step.g < |w.groups| { ConsumerKeeps(w, step); }
      ConsumerKeepsGood(w, ConsumerStep(w, step), step.g);
    } else {
      ProcessorKeeps(w, step);
    }
  }

  lemma {:induction false} RunKeeps(w: World, steps: seq<Step>)
    requires Good(w)
    ensures Good(Run(w, steps)) && |Run(w, steps).groups| == |w.groups| && Run(w, steps).filtered == w.filtered
    decreases |steps|
  {
    if steps != [] {
      NextKeeps(w, steps[0]);
      RunKeeps(Next(w, steps[0]), steps[1..]);
    }
  }

  lemma InitialIsGood(n: nat, filtered: bool)
    ensures Good(Initial(n, filtered))
  {
    forall g | 0 <= g < n ensures GroupOk(FRESH, g, None) {
      assert FRESH.ran == Deliveries(g, 0);
    }
  }

  // ---- bounds and targeting

  /**
    In every run each group has at most five published retries and six handler runs: the original, then its own
    retries in order. It never runs on a retry addressed to another group.
   */
  lemma RetriesBounded(n: nat, filtered: bool, steps: seq<Step>, g: nat)
    requires g < n
    ensures var w := Run(Initial(n, filtered), steps);
      && |w.groups| == n
      && w.groups[g].published <= MAX_RETRIES && |w.groups[g].ran| <= MAX_RETRIES + 1
      && w.groups[g].ran == Deliveries(g, |w.groups[g].ran|)
      && w.groups[g].published <= |w.groups[g].ran| <= w.groups[g].published + 1
  {
    InitialIsGood(n, filtered);
    RunKeeps(Initial(n, filtered), steps);
    var w := Run(Initial(n, filtered), steps);
    assert GroupOk(w.groups[g], g, Claim(w.task, g));
  }

  // ---- where an event ends

  /** No step changes anything: all messages are consumed, and nothing is being handled, due or retried. */
  ghost predicate Quiet(w: World) { forall step :: Next(w, step) == w }

  lemma ProcessorCanStep(w: World) returns (step: Step)
    requires Good(w) && (!w.task.Idle? || w.batch != [])
    ensures Next(w, step) != w
  {
    match w.task
    case Idle => step := Mark(Written);
    case Publishing(due) => step := Publish(false);
    case RollingBack(due) => step := RollBack(Written);
    case Announcing => step := Announce(true);
  }

  lemma ConsumerCanStep(w: World, g: nat) returns (step: Step)
    requires Good(w) && g < |w.groups| && (w.groups[g].at.Waiting? ==> w.groups[g].inbox != multiset{})
    ensures Next(w, step) != w
  {
    var x := w.groups[g];
    match x.at
    case Handling(k) => step := Handled(g, true);
    case Saving(k) => step := Save(g, Written);
    case Reporting(k) => step := Report(g, true);
    case Deciding(k) => step := Decide(g, 0.0, 0.0, Written);
    case Waiting =>
      var d :| d in x.inbox;
      step := Consume(g, d);
      assert |Consumed(x, g, d).inbox| < |x.inbox|;
    assert Next(w, step).groups[g] != x;
  }

  lemma NotEndedCanStep(w: World, g: nat) returns (step: Step)
    requires Good(w) && g < |w.groups| && w.groups[g].outcome.None?
    ensures Next(w, step) != w
  {
    var x := w.groups[g];
    if !w.task.Idle? || w.batch != [] {
      step := ProcessorCanStep(w);
    } else if x.at.Waiting? && OnSchedule(x) {
      var due := [Due(g, x.row.value.retryCount)];
      step := Fetch(due, x.row.value.nextRetryAt.value);
      assert Next(w, step).batch == due;
    } else {
      step := ConsumerCanStep(w, g);
    }
  }

  /** Once nothing is left to do, every group has ended in one of the ways listed, none of them still to be retried. */
  lemma QuietMeansEnded(w: World, g: nat)
    requires Good(w) && Quiet(w) && g < |w.groups|
    ensures w.groups[g].outcome.Some?
  {
    if w.groups[g].outcome.None? { var step := NotEndedCanStep(w, g); }
  }

  /**
    The ways to drop a failure: the filters drop it, its row is not saved, or is saved by a write that raises, its
    report is not published, or the decision on it is not stored.
   */
  predicate ConsumerDrops(x: Group, step: Step, filtered: bool) {
    || (step.Handled? && !step.ok && x.at.Handling? && filtered)
    || (step.Save? && Raises(step.write) && x.at.Saving?)
    || (step.Report? && !step.ok && x.at.Reporting?)
    || (step.Decide? && !Applies(step.write) && x.at.Deciding? && x.row.Some?)
  }

  /** And a retry: its mark is stored by a write that raises, or taking the mark back is not stored. */
  predicate ProcessorDrops(w: World, step: Step, g: nat) {
    || (step == Mark(RaisedApplied) && w.task.Idle? && w.batch != [] && w.batch[0].group == g)
    || (step == RollBack(RaisedUnapplied) && w.task.RollingBack? && w.task.due.group == g)
  }

  predicate Drops(w: World, step: Step, g: nat) {
    g < |w.groups|
    && if IsConsumer(step) then step.g == g && ConsumerDrops(w.groups[g], step, w.filtered) else ProcessorDrops(w, step, g)
  }

  predicate EverDrops(w: World, steps: seq<Step>, g: nat)
    decreases |steps|
  {
    steps != [] && (Drops(w, steps[0], g) || EverDrops(Next(w, steps[0]), steps[1..], g))
  }

  predicate Dropped(x: Group) { x.outcome.Some? && x.outcome.value != Succeeded && x.outcome.value != GaveUp }

  lemma NextDrops(w: World, step: Step, g: nat)
    requires Good(w) && g < |w.groups|
    ensures |Next(w, step).groups| == |w.groups|
    ensures Dropped(Next(w, step).groups[g]) <==> Dropped(w.groups[g]) || Drops(w, step, g)
  {
    if IsConsumer(step) {
      assert GroupOk(w.groups[g], g, Claim(w.task, g));
      ConsumerSets(w, step);
    } else {
      ProcessorKeepsOutcome(w, step, g);
    }
  }

  /** The processor ends no group but by stranding its retry. */
  lemma ProcessorKeepsOutcome(w: World, step: Step, g: nat)
    requires Good(w) && g < |w.groups| && !IsConsumer(step)
    ensures var v := Next(w, step);
      && |v.groups| == |w.groups| && v.groups[g].at == w.groups[g].at
      && v.groups[g].outcome == (if Drops(w, step, g) then Some(LeftRetried) else w.groups[g].outcome)
      && (Drops(w, step, g) ==> w.groups[g].outcome.None?)
  {
    assert GroupOk(w.groups[g], g, Claim(w.task, g));
  }

  lemma {:induction false} RunDrops(w: World, steps: seq<Step>, g: nat)
    requires Good(w) && g < |w.groups|
    ensures |Run(w, steps).groups| == |w.groups|
    ensures Dropped(Run(w, steps).groups[g]) <==> Dropped(w.groups[g]) || EverDrops(w, steps, g)
    decreases |steps|
  {
    if steps != [] {
      NextKeeps(w, steps[0]);
      NextDrops(w, steps[0], g);
      RunDrops(Next(w, steps[0]), steps[1..], g);
    }
  }

  /**
    When a run is over, a group succeeded or was discarded after exactly six runs, if and only if nothing dropped one
    of its failures or retries.
   */
  lemma EndsSucceededOrDiscardedIff(n: nat, filtered: bool, steps: seq<Step>, g: nat)
    requires g < n && Quiet(Run(Initial(n, filtered), steps))
    ensures var w := Run(Initial(n, filtered), steps);
      && |w.groups| == n
      && (w.groups[g].outcome == Some(Succeeded) || (RowIs(w.groups[g], Discarded, MAX_RETRIES) && |w.groups[g].ran| == 6)
          <==> !EverDrops(Initial(n, filtered), steps, g))
  {
    InitialIsGood(n, filtered);
    RunKeeps(Initial(n, filtered), steps);
    RunDrops(Initial(n, filtered), steps, g);
    QuietMeansEnded(Run(Initial(n, filtered), steps), g);
  }

  lemma {:induction false} RunAppend(w: World, a: seq<Step>, b: seq<Step>)
    ensures Run(w, a + b) == Run(Run(w, a), b)
    decreases |a|
  {
    if a == [] {
      assert a + b == b;
    } else {
      assert (a + b)[1..] == a[1..] + b;
      RunAppend(Next(w, a[0]), a[1..], b);
    }
  }

  lemma RunThree(w: World, a: Step, b: Step, c: Step)
    ensures Run(w, [a, b, c]) == Next(Next(Next(w, a), b), c)
  {
    assert [a, b, c] == [a] + ([b] + [c]);
    RunAppend(w, [a], [b] + [c]);
    RunAppend(Next(w, a), [b], [c]);
  }

  function One(x: Group): World { World([x], [], Idle, false) }

  lemma EndedIsQuiet(x: Group)
    requires x.inbox == multiset{} && x.at.Waiting? && !OnSchedule(x)
    ensures Quiet(One(x))
  {
    var w := One(x);
    forall step ensures Next(w, step) == w {
      if step.Fetch? && step.due != [] && step.due[0].group < 1 {
        assert !IsDue(w.groups[step.due[0].group].row, step.due[0].retryCount, step.now);
      }
    }
  }

  const FIRST_RUN := Group(multiset{}, Handling(0), None, [ORIGINAL], 0, None)
  const FAILING := [Consume(0, ORIGINAL), Handled(0, false)]

  lemma FailingRun()
    ensures Run(Initial(1, false), FAILING) == One(FIRST_RUN.(at := Saving(0)))
  {
    assert Initial(1, false) == One(FRESH);
    assert Consumed(FRESH, 0, ORIGINAL) == FIRST_RUN by {
      assert multiset{ORIGINAL} - multiset{ORIGINAL} == multiset{} && [] + [ORIGINAL] == [ORIGINAL];
    }
    assert Next(One(FRESH), Consume(0, ORIGINAL)) == One(FIRST_RUN);
    assert Next(One(FIRST_RUN), Handled(0, false)) == One(FIRST_RUN.(at := Saving(0)));
    RunAppend(One(FRESH), [Consume(0, ORIGINAL)], [Handled(0, false)]);
    assert FAILING == [Consume(0, ORIGINAL)] + [Handled(0, false)];
  }

  /** A failure whose row cannot be saved leaves no trace: no row, and nothing to do. */
  lemma UnsavedFailureIsLost()
    ensures var w := Run(Initial(1, false), FAILING + [Save(0, RaisedUnapplied)]);
      w == One(FIRST_RUN.(at := Waiting, outcome := Some(Unsaved))) && w.groups[0].row.None? && Quiet(w)
  {
    FailingRun();
    RunAppend(Initial(1, false), FAILING, [Save(0, RaisedUnapplied)]);
    var ended := FIRST_RUN.(at := Waiting, outcome := Some(Unsaved));
    assert Next(One(FIRST_RUN.(at := Saving(0))), Save(0, RaisedUnapplied)) == One(ended);
    EndedIsQuiet(ended);
  }

  const FIRST_PENDING := FIRST_RUN.(row := Some(Row(Pending, 0, None)))

  lemma SavingRun()
    ensures Run(Initial(1, false), FAILING + [Save(0, Written)]) == One(FIRST_PENDING.(at := Reporting(0)))
  {
    FailingRun();
    RunAppend(Initial(1, false), FAILING, [Save(0, Written)]);
    assert Next(One(FIRST_RUN.(at := Saving(0))), Save(0, Written)) == One(FIRST_PENDING.(at := Reporting(0)));
  }

  /** A failure whose report cannot be published stays pending: nothing is left that would retry it. */
  lemma UnreportedFailureIsStuck()
    ensures var w := Run(Initial(1, false), FAILING + [Save(0, Written)] + [Report(0, false)]);
      w == One(FIRST_PENDING.(at := Waiting, outcome := Some(LeftPending))) && Quiet(w)
  {
    SavingRun();
    RunAppend(Initial(1, false), FAILING + [Save(0, Written)], [Report(0, false)]);
    var ended := FIRST_PENDING.(at := Waiting, outcome := Some(LeftPending));
    assert Next(One(FIRST_PENDING.(at := Reporting(0))), Report(0, false)) == One(ended);
    EndedIsQuiet(ended);
  }

  const FIRST_RETRY := FIRST_RUN.(at := Waiting, row := Some(Row(Scheduled, 0, Some(27.0))))
  const SCHEDULING := FAILING + [Save(0, Written)] + [Report(0, true), Decide(0, 0.0, 0.0, Written), Fetch([Due(0, 0)], 27.0)]
  const ROLLING_BACK := [Mark(Written), Publish(false), RollBack(RaisedUnapplied)]

  lemma SchedulingRun()
    ensures Run(Initial(1, false), SCHEDULING) == One(FIRST_RETRY).(batch := [Due(0, 0)])
  {
    SavingRun();
    var reporting := FIRST_PENDING.(at := Reporting(0));
    assert Power(0) == 1.0 && Delay(0) == 30.0;
    assert NextRetryTime(0, 0.0, 0.0) == 27.0;
    RunAppend(Initial(1, false), FAILING + [Save(0, Written)], SCHEDULING[3..]);
    assert SCHEDULING[3..] == [Report(0, true), Decide(0, 0.0, 0.0, Written), Fetch([Due(0, 0)], 27.0)];
    assert Next(One(reporting), Report(0, true)) == One(reporting.(at := Deciding(0)));
    assert Next(One(reporting.(at := Deciding(0))), Decide(0, 0.0, 0.0, Written)) == One(FIRST_RETRY);
    assert CanFetch([FIRST_RETRY], [Due(0, 0)], 27.0);
    RunThree(One(reporting), Report(0, true), Decide(0, 0.0, 0.0, Written), Fetch([Due(0, 0)], 27.0));
  }

  const FIRST_MARKED := FIRST_RUN.(at := Waiting, row := Some(Row(Retried, 1, Some(27.0))))

  lemma RollingBackRun()
    ensures Run(One(FIRST_RETRY).(batch := [Due(0, 0)]), ROLLING_BACK) == One(Stranded(FIRST_MARKED))
  {
    var fetched, publishing := One(FIRST_RETRY).(batch := [Due(0, 0)]), One(FIRST_MARKED).(task := Publishing(Due(0, 0)));
    var rolling := One(FIRST_MARKED).(task := RollingBack(Due(0, 0)));
    assert Next(fetched, Mark(Written)) == publishing;
    assert Next(publishing, Publish(false)) == rolling;
    assert Next(rolling, RollBack(RaisedUnapplied)) == One(Stranded(FIRST_MARKED));
    RunThree(fetched, Mark(Written), Publish(false), RollBack(RaisedUnapplied));
  }

  /** A retry that is not published is lost when taking its mark back raises: its row says retried, and nothing runs. */
  lemma FailedRollBackLosesRetry()
    ensures var w := Run(Initial(1, false), SCHEDULING + ROLLING_BACK);
      && |w.groups| == 1 && RowIs(w.groups[0], Retried, 1) && w.groups[0].ran == [ORIGINAL]
      && w.groups[0].outcome == Some(LeftRetried) && Quiet(w)
  {
    SchedulingRun();
    RollingBackRun();
    RunAppend(Initial(1, false), SCHEDULING, ROLLING_BACK);
    EndedIsQuiet(Stranded(FIRST_MARKED));
  }
}

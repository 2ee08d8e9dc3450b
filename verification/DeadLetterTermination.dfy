/**
  Every run of the dead-letter protocol ends: a potential that each step that changes something uses up, unless it
  makes the processor drop its batch (backend/app/dlq/manager.py).
 */
module DeadLetterTermination {
  import opened DeadLetter
  import opened Options

  /** The steps that the retries after a count can still take, for n groups. */
  function RetriesLeft(retryCount: nat, n: nat): nat
    decreases MAX_RETRIES - retryCount
  {
    if retryCount >= MAX_RETRIES then 0 else n + 9 + RetriesLeft(retryCount + 1, n)
  }

  function StageWork(x: Group, g: nat, task: Task, batched: bool): nat {
    match x.at
    case Handling(_) => 6
    case Saving(_) => 5
    case Reporting(_) => 4
    case Deciding(_) => 3
    case Waiting =>
      if x.outcome.Some? then 0
      else if Claim(task, g).Some? then (if task.RollingBack? then 3 else 0)
      else if OnSchedule(x) then (if batched then 1 else 2)
      else 6
  }

  /** The steps a group can still take if nothing makes the processor drop its batch. */
  function Work(x: Group, g: nat, task: Task, batched: bool, n: nat): nat {
    |x.inbox| + StageWork(x, g, task, batched) + if x.outcome.Some? then 0 else RetriesLeft(x.published, n)
  }

  function GroupWork(w: World, g: nat): nat
    requires g < |w.groups|
  {
    Work(w.groups[g], g, w.task, Batched(w.batch, g), |w.groups|)
  }

  function TotalWork(w: World, k: nat): nat
    requires k <= |w.groups|
  {
    if k == 0 then 0 else TotalWork(w, k - 1) + GroupWork(w, k - 1)
  }

  function Potential(w: World): nat { TotalWork(w, |w.groups|) + if w.task.Announcing? then 1 else 0 }

  /** The steps that make the processor drop the rest of its batch. */
  predicate Fails(step: Step) { step == Publish(false) || step == Announce(false) || (step.Mark? && Raises(step.write)) }

  function Effective(w: World, steps: seq<Step>): nat
    decreases |steps|
  {
    if steps == [] then 0
    else (if Next(w, steps[0]) != w then 1 else 0) + Effective(Next(w, steps[0]), steps[1..])
  }

  function Failures(steps: seq<Step>): nat
    decreases |steps|
  {
    if steps == [] then 0 else (if Fails(steps[0]) then 1 else 0) + Failures(steps[1..])
  }

  /** Only the groups named change their work, each by the stated amount at most. */
  lemma {:induction false} TotalChanges(w: World, v: World, k: nat, g: nat, each: int, own: int)
    requires k <= |w.groups| == |v.groups|
    requires forall i | 0 <= i < k && i != g :: GroupWork(v, i) <= GroupWork(w, i) + each
    requires g < k ==> GroupWork(v, g) <= GroupWork(w, g) + each + own
    ensures TotalWork(v, k) <= TotalWork(w, k) + k * each + if g < k then own else 0
  {
    if k > 0 {
      TotalChanges(w, v, k - 1, g, each, own);
      assert k * each == (k - 1) * each + each;
    }
  }

  lemma ConsumedWorks(x: Group, g: nat, d: Delivery, task: Task, batched: bool, n: nat)
    requires GroupOk(x, g, Claim(task, g)) && x.at.Waiting? && d in x.inbox
    ensures Work(Consumed(x, g, d), g, task, batched, n) < Work(x, g, task, batched, n)
  {
    if Claim(task, g).Some? { ConsumedWhileClaimed(x, g, d, Claim(task, g)); } else { ConsumedOk(x, g, d); }
    assert |x.inbox - multiset{d}| == |x.inbox| - 1;
  }

  lemma BusyWorks(x: Group, y: Group, g: nat, task: Task, batched: bool, n: nat)
    requires !x.at.Waiting? && x.outcome.None? && Claim(task, g).None? && y.inbox == x.inbox && y.published == x.published
    requires y.at.Saving? || y.at.Reporting? || y.at.Deciding? || y.outcome.Some? || (y.at.Waiting? && OnSchedule(y))
    requires y.outcome.Some? ==> y.at.Waiting?
    requires y.at.Saving? ==> x.at.Handling?
    requires y.at.Reporting? ==> x.at.Saving?
    requires y.at.Deciding? ==> x.at.Reporting?
    ensures Work(y, g, task, batched, n) < Work(x, g, task, batched, n)
  {
  }

  lemma ConsumerWorks(w: World, step: Step)
    requires Good(w) && IsConsumer(step) && step.g < |w.groups| && ConsumerStep(w, step) != w
    ensures var x := ConsumerStep(w, step).groups[step.g]; var batched, n := Batched(w.batch, step.g), |w.groups|;
      Work(x, step.g, w.task, batched, n) < Work(w.groups[step.g], step.g, w.task, batched, n)
  {
    var g := step.g;
    var x, y := w.groups[g], ConsumerStep(w, step).groups[g];
    if step.Consume? {
      ConsumedWorks(x, g, step.d, w.task, Batched(w.batch, g), |w.groups|);
    } else {
      BusyIsUnclaimed(x, g, Claim(w.task, g));
      BusyWorks(x, y, g, w.task, Batched(w.batch, g), |w.groups|);
    }
  }

  lemma ConsumerPays(w: World, step: Step)
    requires Good(w) && IsConsumer(step) && Next(w, step) != w
    ensures Potential(Next(w, step)) < Potential(w)
  {
    var v := Next(w, step);
    ConsumerSets(w, step);
    ConsumerWorks(w, step);
    TotalChanges(w, v, |w.groups|, step.g, 0, -1);
  }

  lemma SentWorks(x: Group, g: nat, due: Due, n: nat, batched: bool)
    requires GroupOk(x, g, Claim(Publishing(due), g))
    ensures var d := Delivery(Some(due.group), due.retryCount + 1); var y := x.(inbox := x.inbox + multiset{d});
      Work(if g == due.group then y.(published := y.published + 1) else y, g, Announcing, batched, n)
      == Work(x, g, Publishing(due), batched, n) + 1 - if g == due.group then n + 3 else 0
  {
  }

  lemma SentGroupWork(w: World, i: nat)
    requires Good(w) && w.task.Publishing? && i < |w.groups|
    ensures var v := Next(w, Publish(true));
      GroupWork(v, i) == GroupWork(w, i) + 1 - if i == w.task.due.group then |w.groups| + 3 else 0
  {
    SentWorks(w.groups[i], i, w.task.due, |w.groups|, Batched(w.batch, i));
  }

  lemma SentPays(w: World)
    requires Good(w) && w.task.Publishing?
    ensures Potential(Next(w, Publish(true))) < Potential(w)
  {
    var v := Next(w, Publish(true));
    forall i | 0 <= i < |w.groups|
      ensures GroupWork(v, i) == GroupWork(w, i) + 1 - if i == w.task.due.group then |w.groups| + 3 else 0
    {
      SentGroupWork(w, i);
    }
    TotalChanges(w, v, |w.groups|, w.task.due.group, 1, -|w.groups| - 3);
  }

  /** The marked group no longer waits to be fetched or marked. */
  lemma MarkedWorks(w: World)
    requires Good(w) && Next(w, Mark(Written)) != w
    ensures var g := w.batch[0].group; g < |w.groups| && GroupWork(Next(w, Mark(Written)), g) < GroupWork(w, g)
  {
    var g := w.batch[0].group;
    assert Batched(w.batch, g);
    assert GroupOk(w.groups[g], g, None);
  }

  lemma UnmarkedWorks(w: World, i: nat)
    requires Good(w) && Next(w, Mark(Written)) != w && i < |w.groups| && i != w.batch[0].group
    ensures GroupWork(Next(w, Mark(Written)), i) == GroupWork(w, i)
  {
    MarkBatched(w.batch, w.batch[0].group, i);
  }

  lemma MarkPays(w: World)
    requires Good(w) && Next(w, Mark(Written)) != w
    ensures Potential(Next(w, Mark(Written))) < Potential(w)
  {
    hide Good, GroupWork;
    var v := Next(w, Mark(Written));
    var g := w.batch[0].group;
    MarkedWorks(w);
    forall i | 0 <= i < |w.groups| && i != g ensures GroupWork(v, i) == GroupWork(w, i) { UnmarkedWorks(w, i); }
    TotalChanges(w, v, |w.groups|, g, 0, -1);
  }

  lemma MarkBatched(batch: seq<Due>, g: nat, i: nat)
    requires batch != [] && batch[0].group == g && i != g
    ensures (exists j :: 0 <= j < |batch| && batch[j].group == i)
            <==> (exists j :: 0 <= j < |batch[1..]| && batch[1..][j].group == i)
  {
    if j :| 0 <= j < |batch| && batch[j].group == i { assert batch[1..][j - 1].group == i; }
  }

  lemma FetchPays(w: World, due: seq<Due>, now: real)
    requires Good(w) && Next(w, Fetch(due, now)) != w
    ensures Potential(Next(w, Fetch(due, now))) < Potential(w)
  {
    var v := Next(w, Fetch(due, now));
    var g := due[0].group;
    assert Batched(v.batch, g) && !Batched(w.batch, g) && IsDue(w.groups[g].row, due[0].retryCount, now);
    assert GroupOk(w.groups[g], g, None);
    TotalChanges(w, v, |w.groups|, g, 0, -1);
  }

  /** Dropping the batch costs a group at most one step: being fetched again. */
  lemma UnbatchedWorks(x: Group, g: nat, task: Task, batched: bool, n: nat)
    ensures Work(x, g, task, false, n) <= Work(x, g, task, batched, n) + 1
  {
  }

  lemma FailedPublishCosts(w: World)
    requires Good(w) && w.task.Publishing?
    ensures Potential(Next(w, Publish(false))) <= Potential(w) + |w.groups| + 2
  {
    var v := Next(w, Publish(false));
    forall i | 0 <= i < |w.groups| && i != w.task.due.group ensures GroupWork(v, i) <= GroupWork(w, i) + 1 {
      UnbatchedWorks(w.groups[i], i, w.task, Batched(w.batch, i), |w.groups|);
    }
    TotalChanges(w, v, |w.groups|, w.task.due.group, 1, 2);
  }

  lemma FailedAnnounceCosts(w: World)
    requires Good(w) && w.task.Announcing?
    ensures Potential(Next(w, Announce(false))) <= Potential(w) + |w.groups| + 2
  {
    var v := Next(w, Announce(false));
    forall i | 0 <= i < |w.groups| ensures GroupWork(v, i) <= GroupWork(w, i) + 1 {
      UnbatchedWorks(w.groups[i], i, w.task, Batched(w.batch, i), |w.groups|);
    }
    TotalChanges(w, v, |w.groups|, |w.groups|, 1, 0);
  }

  lemma StrandedWorks(x: Group, g: nat, task: Task, batched: bool, n: nat)
    requires x.at.Waiting?
    ensures Work(Stranded(x), g, task, false, n) <= Work(x, g, task, batched, n)
  {
  }

  lemma FailedMarkCosts(w: World, write: Write)
    requires Good(w) && w.task.Idle? && Raises(write)
    ensures Potential(Next(w, Mark(write))) <= Potential(w) + |w.groups| + 2
  {
    var v := Next(w, Mark(write));
    if v != w {
      var g := w.batch[0].group;
      var marked := SetRow(w.groups[g], Retried, w.batch[0].retryCount + 1);
      assert GroupOk(w.groups[g], g, None);
      assert Work(Stranded(marked), g, Idle, false, |w.groups|) == Work(Stranded(w.groups[g]), g, Idle, false, |w.groups|);
      StrandedWorks(w.groups[g], g, Idle, Batched(w.batch, g), |w.groups|);
      forall i | 0 <= i < |w.groups| ensures GroupWork(v, i) <= GroupWork(w, i) + 1 {
        UnbatchedWorks(w.groups[i], i, w.task, Batched(w.batch, i), |w.groups|);
      }
      TotalChanges(w, v, |w.groups|, |w.groups|, 1, 0);
    }
  }

  lemma FailureCosts(w: World, step: Step)
    requires Good(w) && Fails(step) && Next(w, step) != w
    ensures Potential(Next(w, step)) <= Potential(w) + |w.groups| + 2
  {
    match step
    case Publish(_) => FailedPublishCosts(w);
    case Announce(_) => FailedAnnounceCosts(w);
    case Mark(write) => FailedMarkCosts(w, write);
  }

  lemma RestPays(w: World, step: Step)
    requires Good(w) && (step.RollBack? || step == Announce(true)) && Next(w, step) != w
    ensures Potential(Next(w, step)) < Potential(w)
  {
    var v := Next(w, step);
    if step.RollBack? {
      TotalChanges(w, v, |w.groups|, w.task.due.group, 0, -1);
    } else {
      TotalChanges(w, v, |w.groups|, |w.groups|, 0, 0);
    }
  }

  /** A step that changes something uses up potential, unless it makes the processor drop its batch. */
  lemma StepPays(w: World, step: Step)
    requires Good(w) && Next(w, step) != w
    ensures Potential(Next(w, step)) + 1 <= Potential(w) + if Fails(step) then |w.groups| + 3 else 0
  {
    if Fails(step) { FailureCosts(w, step); }
    else {
      match step
      case Fetch(due, now) => FetchPays(w, due, now);
      case Mark(_) => MarkPays(w);
      case Publish(_) => SentPays(w);
      case RollBack(_) => RestPays(w, step);
      case Announce(_) => RestPays(w, step);
      case _ => ConsumerPays(w, step);
    }
  }

  lemma FailuresCost(steps: seq<Step>, cost: nat)
    requires steps != []
    ensures Failures(steps) * cost == (if Fails(steps[0]) then cost else 0) + Failures(steps[1..]) * cost
  {
    Splits(if Fails(steps[0]) then 1 else 0, Failures(steps[1..]), cost);
  }

  lemma {:induction false} RunPays(w: World, steps: seq<Step>, cost: nat)
    requires Good(w) && cost == |w.groups| + 3
    ensures Effective(w, steps) + Potential(Run(w, steps)) <= Potential(w) + Failures(steps) * cost
    decreases |steps|
  {
    if steps == [] {
      assert Effective(w, steps) == 0 && Failures(steps) == 0;
    } else {
      NextKeeps(w, steps[0]);
      if Next(w, steps[0]) != w { StepPays(w, steps[0]); }
      RunPays(Next(w, steps[0]), steps[1..], cost);
      FailuresCost(steps, cost);
    }
  }

  lemma Splits(a: nat, b: nat, c: nat)
    ensures (a + b) * c == a * c + b * c
  {
  }

  lemma {:induction false} InitialTotal(n: nat, filtered: bool, k: nat)
    requires k <= n
    ensures TotalWork(Initial(n, filtered), k) == k * (5 * n + 52)
  {
    if k > 0 {
      InitialTotal(n, filtered, k - 1);
      Splits(k - 1, 1, 5 * n + 52);
      var w := Initial(n, filtered);
      assert RetriesLeft(0, n) == 5 * (n + 9) by { assert RetriesLeft(3, n) == 2 * (n + 9); }
      assert GroupWork(w, k - 1) == Work(FRESH, k - 1, Idle, Batched([], k - 1), n);
    }
  }

  /**
    Every run ends: n groups take at most n * (5n + 52) steps that change something, and each publish or mark that
    raises adds at most n + 3 more. Together with QuietMeansEnded, every group gets to its end unless they raise for
    ever.
   */
  lemma EveryRunEnds(n: nat, filtered: bool, steps: seq<Step>)
    ensures Effective(Initial(n, filtered), steps) <= n * (5 * n + 52) + Failures(steps) * (n + 3)
  {
    InitialIsGood(n, filtered);
    InitialTotal(n, filtered, n);
    RunPays(Initial(n, filtered), steps, n + 3);
  }
}

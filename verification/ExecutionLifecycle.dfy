/**
  How an execution ends: guarded status writes, "write, then announce only if the write won", and the ending that is
  stored before the pod is deleted, by a cancel or by the pod monitor (processor.py, execution_repository.py,
  execution_scheduler.py, monitor.py).

  Run interleaves any number of handlers for one execution, each stopped between any two of its database or
  broker calls, and each call may fail.
 */
module ExecutionLifecycle {
  import opened Options

  datatype Status = Queued | Scheduled | Running | Completed | Failed | TimedOut | Cancelled | Errored

  predicate Terminal(s: Status) { !(s.Queued? || s.Scheduled? || s.Running?) }

  /** The position in the list of active statuses; every terminal status comes after them. */
  function Rank(s: Status): nat {
    match s
    case Queued => 0
    case Scheduled => 1
    case Running => 2
    case _ => 3
  }

  datatype Fields = Fields(exitCode: Option<int>, stdout: Option<string>, stderr: Option<string>)
  datatype Doc = Doc(status: Status, result: Fields)

  const NO_RESULT := Fields(None, None, None)

  /** write_terminal_result: one conditional update. */
  function WriteTerminal(doc: Option<Doc>, status: Status, result: Fields): (Option<Doc>, bool) {
    if doc.Some? && !Terminal(doc.value.status) then (Some(Doc(status, result)), true) else (doc, false)
  }

  /** advance_status: applies only from an active status that comes before the new one. */
  function Advance(doc: Option<Doc>, status: Status): (Option<Doc>, bool)
    requires !Terminal(status)
  {
    if doc.Some? && !Terminal(doc.value.status) && Rank(doc.value.status) < Rank(status)
    then (Some(doc.value.(status := status)), true)
    else (doc, false)
  }

  // ---- handlers as processes

  // SubmitError is the API's own terminal write when it could not publish a request; it announces nothing.
  datatype Kind = CompletedEvent | FailedEvent | TimeoutEvent | CancelledEvent | SubmitError

  function StatusOf(k: Kind): Status {
    match k
    case CompletedEvent => Completed
    case FailedEvent => Failed
    case TimeoutEvent => TimedOut
    case CancelledEvent => Cancelled
    case SubmitError => Errored
  }

  // LookupLost is the extra read of handle_lost_request before it fails the execution.
  datatype Point = LookupLost | Lookup | Write | Announce | PublishStored | PublishFailed | DeletePod | Finished

  /** deletes says that the caller deletes the pod once the handler returned, as a cancel and the pod monitor do. */
  datatype Handler = Handler(kind: Kind, result: Fields, at: Point, deletes: bool)

  /** Of the endings only a failure is also reported by the drain, which has no pod to delete. */
  predicate Starting(h: Handler) {
    match h.kind
    case SubmitError => h.at == Write && !h.deletes
    case FailedEvent => h.at == Lookup || (h.at == LookupLost && !h.deletes)
    case _ => h.at == Lookup && h.deletes
  }

  datatype Message = Ended(kind: Kind) | ResultStored | ResultFailed

  datatype Env = Fine | BrokerDown | DatabaseDown(applied: bool)

  /**
    winner is the handler whose write was applied and wins counts such writes. podGone says that a handler's
    caller asked for the pod's deletion, and writeLost that the write of such a handler raised without being applied to an
    active execution.
   */
  datatype World = World(
    doc: Option<Doc>,
    handlers: seq<Handler>,
    bus: seq<Message>,
    wins: nat,
    winner: Option<nat>,
    podGone: bool,
    writeLost: bool
  )

  datatype Step = Act(i: nat, env: Env) | Progress(status: Status) | DeleteDoc

  /** Where a handler goes once its results are dealt with. */
  function After(deletes: bool): Point { if deletes then DeletePod else Finished }

  /** What one call of a handler does: its next point, what it publishes, and whether its write was applied. */
  datatype Effect = Effect(at: Point, said: Option<Message>, wrote: bool, lost: bool, gone: bool)

  function Go(at: Point): Effect { Effect(at, None, false, false, false) }

  function EffectOf(kind: Kind, at: Point, deletes: bool, doc: Option<Doc>, env: Env): Effect {
    match at
    case LookupLost => if env.DatabaseDown? || doc.None? then Go(Finished) else Go(Lookup)
    case Lookup => if env.DatabaseDown? then Go(Finished) else if doc.None? then Go(After(deletes)) else Go(Write)
    case Write =>
      var active := doc.Some? && !Terminal(doc.value.status);
      if env.DatabaseDown? then
        Effect(if kind == SubmitError then Finished else PublishFailed, None,
               env.applied && active, active && deletes && !env.applied, false)
      else if !active then Go(After(deletes))
      else
        var at := if kind == SubmitError then Finished else if kind == CancelledEvent then PublishStored else Announce;
        Go(at).(wrote := true)
    case Announce =>
      (match env
       case Fine => Go(PublishStored).(said := Some(Ended(kind)))
       case BrokerDown => Go(PublishStored)
       case DatabaseDown(_) => Go(Finished))
    case PublishStored =>
      (match env
       case Fine => Go(After(deletes)).(said := Some(ResultStored))
       case BrokerDown => Go(After(deletes))
       case DatabaseDown(_) => Go(Finished))
    case PublishFailed => if env.Fine? then Go(After(deletes)).(said := Some(ResultFailed)) else Go(Finished)
    case DeletePod => Go(Finished).(gone := true)
    case Finished => Go(Finished)
  }

  function ActStep(w: World, i: nat, env: Env): World
    requires i < |w.handlers|
  {
    var h := w.handlers[i];
    var e := EffectOf(h.kind, h.at, h.deletes, w.doc, env);
    World(if e.wrote then WriteTerminal(w.doc, StatusOf(h.kind), h.result).0 else w.doc,
          w.handlers[i := h.(at := e.at)],
          if e.said.Some? then w.bus + [e.said.value] else w.bus,
          if e.wrote then w.wins + 1 else w.wins,
          if e.wrote then Some(i) else w.winner,
          w.podGone || e.gone,
          w.writeLost || e.lost)
  }

  function Next(w: World, step: Step): World {
    match step
    case Act(i, env) => if i < |w.handlers| then ActStep(w, i, env) else w
    case Progress(status) => if Terminal(status) then w else w.(doc := Advance(w.doc, status).0)
    case DeleteDoc => w.(doc := None)
  }

  function Run(w: World, steps: seq<Step>): World
    decreases |steps|
  {
    if steps == [] then w else Run(Next(w, steps[0]), steps[1..])
  }

  ghost predicate Initial(w: World) {
    && w.doc.Some? && !Terminal(w.doc.value.status) && w.doc.value.result == NO_RESULT
    && (forall i | 0 <= i < |w.handlers| :: Starting(w.handlers[i]))
    && w.bus == [] && w.wins == 0 && w.winner == None && !w.podGone && !w.writeLost
  }

  ghost function Count(bus: seq<Message>, m: Message): nat { multiset(bus)[m] }

  /** How many completed, failed or timeout events were published. */
  ghost function EndedCount(bus: seq<Message>): nat {
    Count(bus, Ended(CompletedEvent)) + Count(bus, Ended(FailedEvent)) + Count(bus, Ended(TimeoutEvent))
  }

  ghost predicate Invariant(w: World) {
    && WinnerWrote(w) && OnlyWinnerPublishes(w) && Published(w) && DeletesInOrder(w)
  }

  /** At most one write won, and the stored document is the winner's, or still unfinished, or deleted. */
  ghost predicate WinnerWrote(w: World) {
    && w.wins == (if w.winner.Some? then 1 else 0)
    && (w.winner.Some? ==> w.winner.value < |w.handlers|)
    && (w.doc.Some? ==>
          if w.winner.Some?
          then w.doc.value == Doc(StatusOf(w.handlers[w.winner.value].kind), w.handlers[w.winner.value].result)
          else !Terminal(w.doc.value.status) && w.doc.value.result == NO_RESULT)
  }

  ghost predicate OnlyWinnerPublishes(w: World) {
    forall i | 0 <= i < |w.handlers| ::
      var h := w.handlers[i];
      && (h.at == Announce || h.at == PublishStored ==> w.winner == Some(i))
      && (h.at == Announce ==> h.kind != CancelledEvent && h.kind != SubmitError)
      && (h.at == PublishStored ==> h.kind != SubmitError)
      && (h.at == LookupLost || h.at == Lookup || h.at == Write ==> w.winner != Some(i))
  }

  /** What the bus may hold: messages about the winner only, each once, and none before its turn. */
  ghost predicate Published(w: World) {
    && (w.winner.Some? ==> w.winner.value < |w.handlers|)
    && (forall m | m in w.bus && m != ResultFailed ::
          && w.winner.Some? && Count(w.bus, m) == 1
          && (m.Ended? ==>
                && m.kind == w.handlers[w.winner.value].kind && m.kind != CancelledEvent && m.kind != SubmitError
                && w.handlers[w.winner.value].at != Announce)
          && (m == ResultStored ==>
                && w.handlers[w.winner.value].kind != SubmitError
                && w.handlers[w.winner.value].at != Announce && w.handlers[w.winner.value].at != PublishStored))
  }

  /** Before the pod is deleted, the execution has ended or is deleted, unless a write before that deletion was lost. */
  ghost predicate DeletesInOrder(w: World) {
    var due := w.doc.None? || w.winner.Some? || w.writeLost;
    && (w.podGone ==> due)
    && (forall i | 0 <= i < |w.handlers| && w.handlers[i].deletes :: w.handlers[i].kind != SubmitError)
    && (forall i | 0 <= i < |w.handlers| :: w.handlers[i].at == DeletePod ==> due)
    && (forall i | 0 <= i < |w.handlers| && w.handlers[i].at == PublishFailed && w.handlers[i].deletes :: due)
  }

  lemma InitialInvariant(w: World)
    requires Initial(w)
    ensures Invariant(w)
  {
  }

  lemma ActWritesOnce(w: World, i: nat, env: Env)
    requires Invariant(w) && i < |w.handlers|
    ensures WinnerWrote(ActStep(w, i, env))
  {
  }

  lemma ActKeepsWinner(w: World, i: nat, env: Env)
    requires WinnerWrote(w) && OnlyWinnerPublishes(w) && i < |w.handlers|
    ensures OnlyWinnerPublishes(ActStep(w, i, env))
    ensures w.winner.Some? ==> ActStep(w, i, env).winner == w.winner
    ensures w.winner.Some? ==> ActStep(w, i, env).handlers[w.winner.value].kind == w.handlers[w.winner.value].kind
  {
  }

  lemma ActKeepsPublished(w: World, i: nat, env: Env)
    requires Invariant(w) && i < |w.handlers|
    ensures Published(ActStep(w, i, env))
  {
    ActKeepsWinner(w, i, env);
    var n := ActStep(w, i, env);
    var e := EffectOf(w.handlers[i].kind, w.handlers[i].at, w.handlers[i].deletes, w.doc, env);
    if e.said.Some? {
      assert e.said.value != ResultFailed ==> e.said.value !in w.bus;
      SaidOnce(w.bus, e.said.value);
    }
  }

  lemma SaidOnce(bus: seq<Message>, said: Message)
    requires said != ResultFailed ==> said !in bus
    ensures forall m | m in bus + [said] && m != ResultFailed :: Count(bus + [said], m) == if m == said then 1 else Count(bus, m)
  {
  }

  lemma ActKeepsOrder(w: World, i: nat, env: Env)
    requires Invariant(w) && i < |w.handlers|
    ensures DeletesInOrder(ActStep(w, i, env))
  {
    ActKeepsWinner(w, i, env);
  }

  lemma StepKeepsInvariant(w: World, step: Step)
    requires Invariant(w)
    ensures Invariant(Next(w, step))
    ensures w.winner.Some? ==> Next(w, step).winner == w.winner
  {
    if step.Act? && step.i < |w.handlers| {
      ActWritesOnce(w, step.i, step.env);
      ActKeepsWinner(w, step.i, step.env);
      ActKeepsPublished(w, step.i, step.env);
      ActKeepsOrder(w, step.i, step.env);
    }
  }

  lemma {:induction false} RunKeepsInvariant(w: World, steps: seq<Step>)
    requires Invariant(w)
    ensures Invariant(Run(w, steps))
    ensures w.winner.Some? ==> Run(w, steps).winner == w.winner
    decreases |steps|
  {
    if steps != [] {
      StepKeepsInvariant(w, steps[0]);
      RunKeepsInvariant(Next(w, steps[0]), steps[1..]);
    }
  }

  /** The document, while it is there, has that status. */
  ghost predicate Shows(doc: Option<Doc>, status: Status) { doc.Some? ==> doc.value.status == status }

  /** What each of the five endings stores when its write wins. */
  ghost predicate StoredAs(doc: Option<Doc>, kind: Kind) {
    && (kind == CompletedEvent ==> Shows(doc, Completed))
    && (kind == FailedEvent ==> Shows(doc, Failed))
    && (kind == TimeoutEvent ==> Shows(doc, TimedOut))
    && (kind == CancelledEvent ==> Shows(doc, Cancelled))
    && (kind == SubmitError ==> Shows(doc, Errored))
  }

  /** The winning handler's ending is what the document shows, with its results. */
  lemma WinnerIsStored(w: World, steps: seq<Step>)
    requires Initial(w) && Run(w, steps).winner.Some?
    ensures var n := Run(w, steps); var i := n.winner.value;
      i < |w.handlers| && StoredAs(n.doc, w.handlers[i].kind) && (n.doc.Some? ==> n.doc.value.result == w.handlers[i].result)
  {
    InitialInvariant(w);
    RunKeepsInvariant(w, steps);
    RunKeepsKinds(w, steps);
  }

  /**
    In every interleaving at most one terminal write wins, result_stored and the terminal event go out at most once
    each, and a published terminal event names the status that is stored.
   */
  lemma AtMostOneEnding(w: World, steps: seq<Step>)
    requires Initial(w)
    ensures var n := Run(w, steps);
      && n.wins <= 1
      && Count(n.bus, ResultStored) <= 1 && EndedCount(n.bus) <= 1
      && (Ended(CompletedEvent) in n.bus ==> Shows(n.doc, Completed))
      && (Ended(FailedEvent) in n.bus ==> Shows(n.doc, Failed))
      && (Ended(TimeoutEvent) in n.bus ==> Shows(n.doc, TimedOut))
      && Ended(CancelledEvent) !in n.bus && Ended(SubmitError) !in n.bus
      && (forall m | m in n.bus && m.Ended? :: n.wins == 1)
      && (ResultStored in n.bus ==>
            Shows(n.doc, Completed) || Shows(n.doc, Failed) || Shows(n.doc, TimedOut) || Shows(n.doc, Cancelled))
  {
    InitialInvariant(w);
    RunKeepsInvariant(w, steps);
    var n := Run(w, steps);
    if Ended(CompletedEvent) in n.bus {
      assert Ended(FailedEvent) !in n.bus && Ended(TimeoutEvent) !in n.bus;
    } else if Ended(FailedEvent) in n.bus {
      assert Ended(TimeoutEvent) !in n.bus;
    }
  }

  /** Once stored, a cancel is never overwritten, and nothing is ever announced as completed, failed or timed out. */
  lemma StoredCancelStands(w: World, before: seq<Step>, after: seq<Step>)
    requires Initial(w)
    requires var mid := Run(w, before); mid.doc.Some? && mid.doc.value.status == Cancelled
    ensures var mid := Run(w, before); var n := Run(mid, after);
      && (n.doc == None || n.doc == mid.doc)
      && EndedCount(n.bus) == 0
  {
    InitialInvariant(w);
    RunKeepsInvariant(w, before);
    var mid := Run(w, before);
    RunKeepsInvariant(mid, after);
    RunKeepsKinds(mid, after);
    var n := Run(mid, after);
    assert n.winner == mid.winner && n.handlers[n.winner.value].kind == CancelledEvent;
    assert forall m | m in n.bus :: !m.Ended?;
  }

  lemma StepKeepsKinds(w: World, step: Step)
    ensures |Next(w, step).handlers| == |w.handlers|
    ensures forall i | 0 <= i < |w.handlers| ::
      Next(w, step).handlers[i].(at := Finished) == w.handlers[i].(at := Finished)
  {
  }

  lemma {:induction false} RunKeepsKinds(w: World, steps: seq<Step>)
    ensures |Run(w, steps).handlers| == |w.handlers|
    ensures forall i | 0 <= i < |w.handlers| ::
      Run(w, steps).handlers[i].(at := Finished) == w.handlers[i].(at := Finished)
    decreases |steps|
  {
    if steps != [] {
      StepKeepsKinds(w, steps[0]);
      RunKeepsKinds(Next(w, steps[0]), steps[1..]);
    }
  }

  /** The step is the write of a cancel or the pod monitor to an active execution, which raises without being applied. */
  predicate LosesWrite(w: World, step: Step) {
    && step.Act? && step.i < |w.handlers| && step.env == DatabaseDown(false)
    && w.handlers[step.i].deletes && w.handlers[step.i].at == Write
    && w.doc.Some? && !Terminal(w.doc.value.status)
  }

  predicate EverLoses(w: World, steps: seq<Step>)
    decreases |steps|
  {
    steps != [] && (LosesWrite(w, steps[0]) || EverLoses(Next(w, steps[0]), steps[1..]))
  }

  /** If the pod was deleted, the execution has ended or is gone. */
  predicate OrderKept(w: World) { w.podGone ==> w.doc.None? || Terminal(w.doc.value.status) }

  lemma StepLoses(w: World, step: Step)
    ensures Next(w, step).writeLost <==> w.writeLost || LosesWrite(w, step)
  {
  }

  lemma {:induction false} LostIsEverLoses(w: World, steps: seq<Step>)
    ensures Run(w, steps).writeLost <==> w.writeLost || EverLoses(w, steps)
    decreases |steps|
  {
    if steps != [] {
      StepLoses(w, steps[0]);
      LostIsEverLoses(Next(w, steps[0]), steps[1..]);
    }
  }

  /** The pod goes only after the execution ended, in every interleaving in which no write before a deletion is lost. */
  lemma PodDeletedAfterStore(w: World, steps: seq<Step>)
    requires Initial(w) && !EverLoses(w, steps)
    ensures OrderKept(Run(w, steps))
  {
    InitialInvariant(w);
    RunKeepsInvariant(w, steps);
    LostIsEverLoses(w, steps);
  }

  /** A lost write can always be followed by the deletion of the pod of a still active execution. */
  lemma LostWriteBreaksOrder(w: World, step: Step)
    requires LosesWrite(w, step) && w.handlers[step.i].kind != SubmitError
    ensures var rest := [Act(step.i, Fine), Act(step.i, Fine)]; var n := Run(Next(w, step), rest);
      !EverLoses(Next(w, step), rest) && n.podGone && n.doc == w.doc && !OrderKept(n)
  {
    var i := step.i;
    var reporting := Next(w, step);
    var deleting := Next(reporting, Act(i, Fine));
    var n := Next(deleting, Act(i, Fine));
    assert [Act(i, Fine), Act(i, Fine)][1..] == [Act(i, Fine)] && [Act(i, Fine)][1..] == [];
    assert Run(deleting, [Act(i, Fine)]) == Run(n, []);
    assert Run(reporting, [Act(i, Fine), Act(i, Fine)]) == Run(deleting, [Act(i, Fine)]);
    assert !EverLoses(deleting, [Act(i, Fine)]) && !LosesWrite(reporting, Act(i, Fine));
  }

  /** No continuation breaks the order by itself. */
  ghost predicate KeepsOrder(w: World, after: seq<Step>) { !EverLoses(w, after) ==> OrderKept(Run(w, after)) }

  lemma KeepsFrom(w: World, after: seq<Step>)
    requires Invariant(w) && !w.writeLost
    ensures KeepsOrder(w, after)
  {
    RunKeepsInvariant(w, after);
    LostIsEverLoses(w, after);
  }

  /**
    Whatever happened before, if no such write was lost yet: every continuation of a step that loses none itself
    deletes the pod only after the execution ended, exactly when the step is not such a loss.
   */
  lemma DeletionOrderIff(w: World, before: seq<Step>, step: Step)
    requires Initial(w) && !EverLoses(w, before)
    ensures var mid := Run(w, before); (forall after :: KeepsOrder(Next(mid, step), after)) <==> !LosesWrite(mid, step)
  {
    var mid := Run(w, before);
    InitialInvariant(w);
    RunKeepsInvariant(w, before);
    LostIsEverLoses(w, before);
    if LosesWrite(mid, step) {
      LostWriteBreaksOrder(mid, step);
      assert !KeepsOrder(Next(mid, step), [Act(step.i, Fine), Act(step.i, Fine)]);
    } else {
      StepKeepsInvariant(mid, step);
      StepLoses(mid, step);
      forall after ensures KeepsOrder(Next(mid, step), after) { KeepsFrom(Next(mid, step), after); }
    }
  }

  const CANCEL := Handler(CancelledEvent, NO_RESULT, Lookup, true)
  const POD_FAILURE := Handler(FailedEvent, Fields(Some(137), Some(""), Some("killed")), Lookup, true)

  const CANCEL_AND_FAILURE := World(Some(Doc(Running, NO_RESULT)), [CANCEL, POD_FAILURE], [], 0, None, false, false)

  /** The exception happens: the cancel's write raises, its pod goes, and the pod's failure is stored and announced. */
  lemma LostCancelIsAnnouncedAsFailure()
    ensures Initial(CANCEL_AND_FAILURE)
    ensures var cancelled := Run(Run(CANCEL_AND_FAILURE, [Act(0, Fine), Act(0, DatabaseDown(false)), Act(0, Fine)]),
                                 [Act(0, Fine), Act(1, Fine), Act(1, Fine)]);
      var n := Next(cancelled, Act(1, Fine));
      cancelled.podGone && n.doc.value.status == Failed && n.bus == [ResultFailed, Ended(FailedEvent)]
  {
    RunThree(CANCEL_AND_FAILURE, Act(0, Fine), Act(0, DatabaseDown(false)), Act(0, Fine));
    var stuck := Run(CANCEL_AND_FAILURE, [Act(0, Fine), Act(0, DatabaseDown(false)), Act(0, Fine)]);
    var handlers := [CANCEL.(at := DeletePod), POD_FAILURE];
    assert stuck == CANCEL_AND_FAILURE.(handlers := handlers, bus := [ResultFailed], writeLost := true);
    RunThree(stuck, Act(0, Fine), Act(1, Fine), Act(1, Fine));
  }

  lemma RunThree(w: World, a: Step, b: Step, c: Step)
    ensures Run(w, [a, b, c]) == Next(Next(Next(w, a), b), c)
  {
    assert [a, b, c][1..] == [b, c] && [b, c][1..] == [c] && [c][1..] == [];
    assert Run(w, [a, b, c]) == Run(Next(w, a), [b, c]);
    assert Run(Next(w, a), [b, c]) == Run(Next(Next(w, a), b), [c]);
    assert Run(Next(Next(w, a), b), [c]) == Run(Next(Next(Next(w, a), b), c), []);
  }

  // ---- every execution ends, unless each of its handlers meets a database error

  predicate AllFinished(w: World) { forall i | 0 <= i < |w.handlers| :: w.handlers[i].at == Finished }

  /** The handler will not try its write any more. */
  predicate PastWrite(h: Handler) { h.at == PublishFailed || h.at == DeletePod || h.at == Finished }

  /** A database error takes the handler's ending away: in a read before its write, or in the write itself, unapplied. */
  predicate GivesUp(w: World, step: Step, i: nat) {
    && step.Act? && step.i == i && i < |w.handlers| && step.env.DatabaseDown?
    && var at := w.handlers[i].at;
       || at == LookupLost || at == Lookup
       || (at == Write && !step.env.applied && w.doc.Some? && !Terminal(w.doc.value.status))
  }

  predicate EverGivesUp(w: World, steps: seq<Step>, i: nat)
    decreases |steps|
  {
    steps != [] && (GivesUp(w, steps[0], i) || EverGivesUp(Next(w, steps[0]), steps[1..], i))
  }

  predicate AllGiveUp(w: World, steps: seq<Step>) { forall i | 0 <= i < |w.handlers| :: EverGivesUp(w, steps, i) }

  /** While nothing is written and the document is there, a handler gets past its write only by giving up. */
  lemma PassesByGivingUp(w: World, step: Step, i: nat)
    requires Invariant(w) && i < |w.handlers|
    requires Next(w, step).winner == None && Next(w, step).doc.Some?
    requires !PastWrite(w.handlers[i]) && PastWrite(Next(w, step).handlers[i])
    ensures GivesUp(w, step, i)
  {
  }

  lemma {:induction false} UnwrittenGaveUp(w: World, steps: seq<Step>, i: nat)
    requires Invariant(w) && i < |w.handlers| && !PastWrite(w.handlers[i])
    requires var n := Run(w, steps); n.winner == None && n.doc.Some? && i < |n.handlers| && PastWrite(n.handlers[i])
    ensures EverGivesUp(w, steps, i)
    decreases |steps|
  {
    var next := Next(w, steps[0]);
    StepKeepsInvariant(w, steps[0]);
    StepKeepsKinds(w, steps[0]);
    RunKeepsInvariant(next, steps[1..]);
    StatusMovesForward(next, steps[1..]);
    if PastWrite(next.handlers[i]) {
      PassesByGivingUp(w, steps[0], i);
    } else {
      UnwrittenGaveUp(next, steps[1..], i);
    }
  }

  lemma StepStaysPastWrite(w: World, step: Step, i: nat)
    requires i < |w.handlers| && PastWrite(w.handlers[i])
    ensures PastWrite(Next(w, step).handlers[i])
    ensures w.winner != Some(i) ==> Next(w, step).winner != Some(i)
  {
  }

  lemma {:induction false} NeverWinsPastWrite(w: World, steps: seq<Step>, i: nat)
    requires i < |w.handlers| && PastWrite(w.handlers[i]) && w.winner != Some(i)
    ensures Run(w, steps).winner != Some(i)
    decreases |steps|
  {
    if steps != [] {
      StepStaysPastWrite(w, steps[0], i);
      StepKeepsKinds(w, steps[0]);
      NeverWinsPastWrite(Next(w, steps[0]), steps[1..], i);
    }
  }

  lemma {:induction false} WhoGivesUpNeverWins(w: World, steps: seq<Step>, i: nat)
    requires Invariant(w) && i < |w.handlers| && EverGivesUp(w, steps, i)
    ensures Run(w, steps).winner != Some(i)
    decreases |steps|
  {
    var next := Next(w, steps[0]);
    StepKeepsKinds(w, steps[0]);
    if GivesUp(w, steps[0], i) {
      assert PastWrite(next.handlers[i]) && next.winner != Some(i);
      NeverWinsPastWrite(next, steps[1..], i);
    } else {
      StepKeepsInvariant(w, steps[0]);
      WhoGivesUpNeverWins(next, steps[1..], i);
    }
  }

  /**
    Once every handler is done, an execution that was not deleted has ended exactly when at least one of them did not
    give up over a database error.
   */
  lemma EndedIff(w: World, steps: seq<Step>)
    requires Initial(w)
    requires AllFinished(Run(w, steps)) && Run(w, steps).doc.Some?
    ensures Terminal(Run(w, steps).doc.value.status) <==> !AllGiveUp(w, steps)
  {
    InitialInvariant(w);
    RunKeepsInvariant(w, steps);
    RunKeepsKinds(w, steps);
    var n := Run(w, steps);
    if n.winner.Some? {
      var j := n.winner.value;
      if AllGiveUp(w, steps) {
        assert EverGivesUp(w, steps, j);
        WhoGivesUpNeverWins(w, steps, j);
      }
    } else {
      forall i | 0 <= i < |w.handlers| ensures EverGivesUp(w, steps, i) { UnwrittenGaveUp(w, steps, i); }
    }
  }

  /** If all of them gave up, nothing ends the execution any more. */
  lemma {:induction false} StaysActive(w: World, after: seq<Step>)
    requires AllFinished(w) && w.doc.Some? && !Terminal(w.doc.value.status)
    ensures Run(w, after).doc.Some? ==> !Terminal(Run(w, after).doc.value.status)
    decreases |after|
  {
    if after != [] {
      var next := Next(w, after[0]);
      if next.doc.Some? {
        StaysActive(next, after[1..]);
      } else {
        StatusMovesForward(next, after[1..]);
      }
    }
  }

  const FAILED_POD := World(Some(Doc(Running, NO_RESULT)), [POD_FAILURE], [], 0, None, false, false)

  /** It happens: one lost write of the pod monitor, and the pod is deleted while the execution stays active for good. */
  lemma LostResultStaysActive(after: seq<Step>)
    ensures Initial(FAILED_POD)
    ensures var done := Run(Run(FAILED_POD, [Act(0, Fine), Act(0, DatabaseDown(false)), Act(0, Fine)]), [Act(0, Fine)]);
      && done.podGone && AllFinished(done) && done.bus == [ResultFailed]
      && (Run(done, after).doc.Some? ==> !Terminal(Run(done, after).doc.value.status))
  {
    RunThree(FAILED_POD, Act(0, Fine), Act(0, DatabaseDown(false)), Act(0, Fine));
    var reported := Run(FAILED_POD, [Act(0, Fine), Act(0, DatabaseDown(false)), Act(0, Fine)]);
    assert Run(reported, [Act(0, Fine)]) == Run(Next(reported, Act(0, Fine)), []);
    StaysActive(Next(reported, Act(0, Fine)), after);
  }

  // ---- without faults there is exactly one ending

  predicate Announces(k: Kind) { k == CompletedEvent || k == FailedEvent || k == TimeoutEvent }

  /** No call fails and nobody deletes the execution. */
  predicate Smooth(step: Step) { !step.DeleteDoc? && (step.Act? ==> step.env == Fine) }

  /** The winner has published everything up to where it stands. */
  ghost predicate PublishedInTurn(w: World) {
    w.winner.Some? && w.winner.value < |w.handlers| ==>
      var h := w.handlers[w.winner.value];
      && (Announces(h.kind) && h.at != Announce ==> Ended(h.kind) in w.bus)
      && (h.kind != SubmitError && h.at != Announce && h.at != PublishStored ==> ResultStored in w.bus)
  }

  lemma StepPublishesInTurn(w: World, step: Step)
    requires Invariant(w) && PublishedInTurn(w) && Smooth(step)
    ensures PublishedInTurn(Next(w, step))
  {
    if step.Act? && step.i < |w.handlers| { ActKeepsWinner(w, step.i, step.env); }
  }

  lemma SmoothGivesNothingUp(w: World, step: Step)
    requires Smooth(step)
    ensures w.doc.Some? ==> Next(w, step).doc.Some?
    ensures forall i | 0 <= i < |w.handlers| :: !GivesUp(w, step, i)
  {
  }

  lemma {:induction false} SmoothRun(w: World, steps: seq<Step>)
    requires Invariant(w) && PublishedInTurn(w) && w.doc.Some? && forall k | 0 <= k < |steps| :: Smooth(steps[k])
    ensures PublishedInTurn(Run(w, steps)) && Run(w, steps).doc.Some?
    ensures forall i | 0 <= i < |w.handlers| :: !EverGivesUp(w, steps, i)
    decreases |steps|
  {
    if steps != [] {
      StepPublishesInTurn(w, steps[0]);
      SmoothGivesNothingUp(w, steps[0]);
      StepKeepsInvariant(w, steps[0]);
      StepKeepsKinds(w, steps[0]);
      SmoothRun(Next(w, steps[0]), steps[1..]);
    }
  }

  /**
    However the handlers race: if no call fails, then once all of them are done exactly one ending is stored, that
    ending and no other is announced, once if it is the pod's, and result_stored goes out once unless the API ended it.
   */
  lemma ExactlyOneEnding(w: World, steps: seq<Step>)
    requires Initial(w) && w.handlers != [] && forall k | 0 <= k < |steps| :: Smooth(steps[k])
    requires AllFinished(Run(w, steps))
    ensures var n := Run(w, steps);
      && n.wins == 1 && n.winner.Some? && n.winner.value < |w.handlers|
      && var h := w.handlers[n.winner.value];
      && n.doc.Some? && StoredAs(n.doc, h.kind) && n.doc.value.result == h.result
      && Count(n.bus, ResultStored) == (if h.kind == SubmitError then 0 else 1)
      && EndedCount(n.bus) == Count(n.bus, Ended(h.kind)) == (if Announces(h.kind) then 1 else 0)
  {
    InitialInvariant(w);
    SmoothRun(w, steps);
    RunKeepsInvariant(w, steps);
    RunKeepsKinds(w, steps);
    EndedIff(w, steps);
    assert !EverGivesUp(w, steps, 0) && !AllGiveUp(w, steps);
    var n := Run(w, steps);
    var h := w.handlers[n.winner.value];
    assert forall m | m in n.bus && m.Ended? :: m.kind == h.kind && Announces(m.kind);
  }

  // ---- without faults a pod is always cleaned up after

  /** A handler that returned to a caller that deletes the pod has had it deleted. */
  ghost predicate ReturnsDelete(w: World) {
    forall i | 0 <= i < |w.handlers| && w.handlers[i].deletes ::
      w.handlers[i].at != LookupLost && (w.handlers[i].at == Finished ==> w.podGone)
  }

  lemma {:induction false} DeletesOnReturn(w: World, steps: seq<Step>)
    requires Invariant(w) && ReturnsDelete(w) && forall k | 0 <= k < |steps| :: steps[k].Act? ==> steps[k].env == Fine
    ensures ReturnsDelete(Run(w, steps))
    decreases |steps|
  {
    if steps != [] {
      StepKeepsInvariant(w, steps[0]);
      FineDeletesOnReturn(w, steps[0]);
      DeletesOnReturn(Next(w, steps[0]), steps[1..]);
    }
  }

  lemma FineDeletesOnReturn(w: World, step: Step)
    requires Invariant(w) && ReturnsDelete(w) && (step.Act? ==> step.env == Fine)
    ensures ReturnsDelete(Next(w, step))
  {
  }

  /**
    However the handlers race, and whether or not the execution is deleted meanwhile: if no call fails, the pod is
    deleted once all of them are done, if a cancel or the monitor was one of them, and never otherwise.
   */
  lemma PodDeletedIff(w: World, steps: seq<Step>)
    requires Initial(w) && (forall k | 0 <= k < |steps| :: steps[k].Act? ==> steps[k].env == Fine)
    requires AllFinished(Run(w, steps))
    ensures Run(w, steps).podGone <==> exists i | 0 <= i < |w.handlers| :: w.handlers[i].deletes
  {
    InitialInvariant(w);
    DeletesOnReturn(w, steps);
    RunKeepsKinds(w, steps);
    if i :| 0 <= i < |w.handlers| && w.handlers[i].deletes {
      assert Run(w, steps).handlers[i].deletes;
    } else {
      NobodyDeletes(w, steps);
    }
  }

  lemma {:induction false} NobodyDeletes(w: World, steps: seq<Step>)
    requires !w.podGone && forall i | 0 <= i < |w.handlers| :: !w.handlers[i].deletes && w.handlers[i].at != DeletePod
    ensures !Run(w, steps).podGone
    decreases |steps|
  {
    if steps != [] { NobodyDeletes(Next(w, steps[0]), steps[1..]); }
  }

  // ---- the stored status only moves forward

  /** An active rank never falls, an ended execution never changes, and results appear only with a terminal status. */
  ghost predicate MovesForward(before: Option<Doc>, after: Option<Doc>) {
    && (before.None? ==> after.None?)
    && (before.Some? && after.Some? ==>
      && Rank(before.value.status) <= Rank(after.value.status)
      && (Terminal(before.value.status) ==> after == before)
      && (!Terminal(after.value.status) ==> after.value.result == before.value.result))
  }

  lemma {:induction false} StatusMovesForward(w: World, steps: seq<Step>)
    ensures MovesForward(w.doc, Run(w, steps).doc)
    decreases |steps|
  {
    if steps != [] {
      StatusMovesForward(Next(w, steps[0]), steps[1..]);
    }
  }

  /** The document is there and has not ended. */
  ghost predicate Active(doc: Option<Doc>) {
    doc.Some? && (doc.value.status == Queued || doc.value.status == Scheduled || doc.value.status == Running)
  }

  /** write_terminal_result applies exactly to an active execution, whatever the ending. */
  lemma WritesIff(doc: Option<Doc>, kind: Kind, result: Fields)
    ensures var (after, written) := WriteTerminal(doc, StatusOf(kind), result);
      && (written <==> Active(doc))
      && (!written ==> after == doc)
      && (written ==> after.Some? && StoredAs(after, kind) && after.value.result == result)
  {
  }

  /** advance_status applies exactly to an active execution of an earlier rank, and changes nothing but the status. */
  lemma AdvancesIff(doc: Option<Doc>, status: Status)
    requires status == Queued || status == Scheduled || status == Running
    ensures var (after, advanced) := Advance(doc, status);
      && (advanced <==>
            || (doc.Some? && doc.value.status == Queued && (status == Scheduled || status == Running))
            || (doc.Some? && doc.value.status == Scheduled && status == Running))
      && after == if advanced then Some(Doc(status, doc.value.result)) else doc
  {
  }

  /** What _store publishes, given what its write, its announcement and its last publish do. */
  function Said(kind: Kind, active: bool, write: Env, announce: Env, publish: Env): seq<Message> {
    if write.DatabaseDown? then (if publish == Fine then [ResultFailed] else [])
    else if !active then []
    else
      (if kind != CancelledEvent && announce == Fine then [Ended(kind)] else [])
      + (if publish == Fine && (kind == CancelledEvent || !announce.DatabaseDown?) then [ResultStored] else [])
  }

  /** The machine's steps of one handler from its write on, with those outcomes. */
  function StoreSteps(i: nat, kind: Kind, active: bool, write: Env, announce: Env, publish: Env): seq<Step> {
    if !write.DatabaseDown? && !active then [Act(i, write)]
    else if write.DatabaseDown? || kind == CancelledEvent then [Act(i, write), Act(i, publish)]
    else if announce.DatabaseDown? then [Act(i, write), Act(i, announce)]
    else [Act(i, write), Act(i, announce), Act(i, publish)]
  }

  lemma RunTwo(w: World, a: Step, b: Step)
    ensures Run(w, [a, b]) == Next(Next(w, a), b)
  {
    assert [a, b][1..] == [b] && [b][1..] == [];
    assert Run(Next(w, a), [b]) == Run(Next(Next(w, a), b), []);
  }

  /** The document and the messages after handler i's _store. */
  ghost predicate StoredBy(w: World, n: World, i: nat, write: Env, announce: Env, publish: Env)
    requires i < |w.handlers|
  {
    var h := w.handlers[i];
    && n.doc == (if Active(w.doc) && write != DatabaseDown(false) then Some(Doc(StatusOf(h.kind), h.result)) else w.doc)
    && n.bus == w.bus + Said(h.kind, Active(w.doc), write, announce, publish)
  }

  ghost predicate AtWrite(w: World, i: nat) {
    i < |w.handlers| && w.handlers[i].at == Write && w.handlers[i].kind != SubmitError
  }

  lemma LateStore(w: World, i: nat, write: Env, announce: Env, publish: Env)
    requires AtWrite(w, i) && !write.DatabaseDown? && !Active(w.doc)
    ensures StoredBy(w, Run(w, [Act(i, write)]), i, write, announce, publish)
  {
    assert [Act(i, write)][1..] == [] && Run(w, [Act(i, write)]) == Run(Next(w, Act(i, write)), []);
  }

  lemma SilentStore(w: World, i: nat, write: Env, announce: Env, publish: Env)
    requires AtWrite(w, i) && (write.DatabaseDown? || (Active(w.doc) && w.handlers[i].kind == CancelledEvent))
    ensures StoredBy(w, Run(w, [Act(i, write), Act(i, publish)]), i, write, announce, publish)
  {
    hide Run;
    RunTwo(w, Act(i, write), Act(i, publish));
    var n := Next(Next(w, Act(i, write)), Act(i, publish));
    if write.DatabaseDown? {
      assert Next(w, Act(i, write)).handlers[i].at == PublishFailed;
    } else {
      assert Next(w, Act(i, write)).handlers[i].at == PublishStored;
    }
    assert StoredBy(w, n, i, write, announce, publish);
  }

  lemma AnnouncedStore(w: World, i: nat, write: Env, announce: Env, publish: Env)
    requires AtWrite(w, i) && !write.DatabaseDown? && Active(w.doc) && w.handlers[i].kind != CancelledEvent
    ensures announce.DatabaseDown? ==> StoredBy(w, Run(w, [Act(i, write), Act(i, announce)]), i, write, announce, publish)
    ensures !announce.DatabaseDown? ==>
      StoredBy(w, Run(w, [Act(i, write), Act(i, announce), Act(i, publish)]), i, write, announce, publish)
  {
    hide Run;
    if announce.DatabaseDown? {
      RunTwo(w, Act(i, write), Act(i, announce));
    } else {
      RunThree(w, Act(i, write), Act(i, announce), Act(i, publish));
    }
  }

  /** Those steps, uninterrupted, leave the document and the messages that _store leaves. */
  lemma StoreIsItsSteps(w: World, i: nat, write: Env, announce: Env, publish: Env)
    requires AtWrite(w, i)
    ensures var steps := StoreSteps(i, w.handlers[i].kind, Active(w.doc), write, announce, publish);
      StoredBy(w, Run(w, steps), i, write, announce, publish)
  {
    hide Run, StoredBy, Active;
    if !write.DatabaseDown? && !Active(w.doc) {
      LateStore(w, i, write, announce, publish);
    } else if write.DatabaseDown? || w.handlers[i].kind == CancelledEvent {
      SilentStore(w, i, write, announce, publish);
    } else {
      AnnouncedStore(w, i, write, announce, publish);
    }
  }

  /** A pod event moves the stored status of an active execution forward, and only there. */
  lemma ProgressIs(w: World, status: Status)
    requires status == Scheduled || status == Running
    ensures var n := Next(w, Progress(status));
      n == if w.doc.Some? && (w.doc.value.status == Queued || (w.doc.value.status == Scheduled && status == Running))
           then w.(doc := Some(Doc(status, w.doc.value.result))) else w
  {
    AdvancesIff(w.doc, status);
  }

  /** A deleted execution is gone for good, whatever its handlers still do. */
  lemma DeletedStaysDeleted(w: World, steps: seq<Step>)
    ensures Run(Next(w, DeleteDoc), steps).doc == None
  {
    StatusMovesForward(Next(w, DeleteDoc), steps);
  }

  // ---- the code itself

  class ExecutionRepository {
    var doc: Option<Doc>

    constructor (doc: Option<Doc>)
      ensures this.doc == doc
    {
      this.doc := doc;
    }

    method WriteTerminalResult(status: Status, result: Fields) returns (written: bool)
      modifies this
      ensures (doc, written) == WriteTerminal(old(doc), status, result)
      ensures written <==> Active(old(doc))
      ensures Terminal(status) ==> MovesForward(old(doc), doc)
    {
      if doc.None? || Terminal(doc.value.status) { return false; }
      doc := Some(doc.value.(status := status, result := result));
      written := true;
    }

    /** advance_status takes the statuses before the new one from a list; a terminal status is the caller's error. */
    method AdvanceStatus(status: Status) returns (advanced: bool)
      requires !Terminal(status)
      modifies this
      ensures (doc, advanced) == Advance(old(doc), status)
      ensures MovesForward(old(doc), doc)
    {
      var active := [Queued, Scheduled, Running];
      var index := 0;
      while active[index] != status
        invariant index <= Rank(status)
        decreases |active| - index
      {
        index := index + 1;
      }
      assert index == Rank(status);
      assert index == 0 ==> active[..index] == [];
      assert index == 1 ==> active[..index] == [Queued];
      assert index == 2 ==> active[..index] == [Queued, Scheduled];
      if doc.Some? && doc.value.status in active[..index] {
        doc := Some(doc.value.(status := status));
        return true;
      }
      advanced := false;
    }
  }

  class ResultProcessor {
    const repo: ExecutionRepository
    var bus: seq<Message>

    constructor (repo: ExecutionRepository)
      ensures this.repo == repo && bus == []
    {
      this.repo := repo;
      bus := [];
    }

    /** produce_or_log: publishes, or logs a broker error, or raises a database error. */
    method ProduceOrLog(m: Message, env: Env) returns (raised: bool)
      modifies this`bus
      ensures raised == env.DatabaseDown? && bus == if env == Fine then old(bus) + [m] else old(bus)
    {
      if env == Fine { bus := bus + [m]; }
      raised := env.DatabaseDown?;
    }

    /** produce: publishes or raises. */
    method Produce(m: Message, env: Env) returns (raised: bool)
      modifies this`bus
      ensures raised == (env != Fine) && bus == if env == Fine then old(bus) + [m] else old(bus)
    {
      if env == Fine { bus := bus + [m]; }
      raised := env != Fine;
    }

    /**
      _store, given what its write, its announcement and its last publish do: a write that loses publishes nothing, one
      that wins publishes its own event and then result_stored, and one that raises publishes result_failed.
     */
    method Store(kind: Kind, result: Fields, write: Env, announce: Env, publish: Env) returns (raised: bool)
      requires kind != SubmitError
      modifies this`bus, repo
      ensures MovesForward(old(repo.doc), repo.doc)
      ensures Active(old(repo.doc)) && write != DatabaseDown(false) ==>
        repo.doc.Some? && StoredAs(repo.doc, kind) && repo.doc.value.result == result
      ensures !(Active(old(repo.doc)) && write != DatabaseDown(false)) ==> repo.doc == old(repo.doc)
      ensures bus == old(bus) + Said(kind, Active(old(repo.doc)), write, announce, publish)
      ensures raised == if write.DatabaseDown? then publish != Fine
                        else Active(old(repo.doc))
                             && ((kind != CancelledEvent && announce.DatabaseDown?) || publish.DatabaseDown?)
    {
      WritesIff(repo.doc, kind, result);
      if write.DatabaseDown? {
        if write.applied { var _ := repo.WriteTerminalResult(StatusOf(kind), result); }
        raised := Produce(ResultFailed, publish);
        return;
      }
      var written := repo.WriteTerminalResult(StatusOf(kind), result);
      if !written { return false; }
      if kind != CancelledEvent {
        raised := ProduceOrLog(Ended(kind), announce);
        if raised { return; }
      }
      raised := ProduceOrLog(ResultStored, publish);
    }
  }
}

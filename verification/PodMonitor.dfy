/**
  The pod monitor's handling of watch events (backend/app/services/pod_monitor/monitor.py): map, handle the mapped
  events in order, and clean up after an ending. Handling any event may raise.
 */
module PodMonitor {
  import opened Options
  import opened PodEventMapper

  /** A watch event, and the index of the mapped event whose handling raises, if there is one. */
  datatype Watched = Watched(o: Observation, raisesAt: nat)

  // DeletePod is the delete call: when the API answers it with an error, that is only logged.
  datatype Action =
    | Handled(name: nat, event: Event)
    | HandlingRaised(name: nat, event: Event)
    | DeletePod(name: nat)
    | Finish(name: nat)

  /** A pod without a status has no phase to ignore. */
  predicate Ignored(o: Observation, ignored: set<Phase>) { o.pod.hasStatus && o.pod.phase in ignored }

  /** The watch events that reach the mapper. */
  function Mappable(ws: seq<Watched>, ignored: set<Phase>): seq<Observation> {
    if ws == [] then []
    else
      var w := ws[|ws| - 1];
      var earlier := Mappable(ws[..|ws| - 1], ignored);
      if Ignored(w.o, ignored) then earlier else earlier + [w.o]
  }

  /** Handling mapped events in order, up to the first that raises. */
  function HandleAll(name: nat, events: seq<Event>, raisesAt: nat): seq<Action> {
    if events == [] then []
    else if raisesAt == 0 then [HandlingRaised(name, events[0])]
    else [Handled(name, events[0])] + HandleAll(name, events[1..], raisesAt - 1)
  }

  /** What one watch event leads to once it is mapped. */
  function Round(name: nat, mapped: Mapped, raisesAt: nat): seq<Action> {
    if mapped.Raised? then []
    else
      HandleAll(name, mapped.events, raisesAt)
      + if raisesAt >= |mapped.events| && CountEnds(mapped.events) > 0 then [DeletePod(name), Finish(name)] else []
  }

  function Output(bound: Option<nat>, ws: seq<Watched>, ignored: set<Phase>): Mapped
    requires ws != []
  {
    if Ignored(ws[|ws| - 1].o, ignored) then NOTHING else LastOutput(bound, Mappable(ws, ignored))
  }

  /** Everything the monitor did about a list of watch events. */
  function Log(bound: Option<nat>, ws: seq<Watched>, ignored: set<Phase>): seq<Action> {
    if ws == [] then []
    else
      var w := ws[|ws| - 1];
      Log(bound, ws[..|ws| - 1], ignored) + Round(w.o.pod.name, Output(bound, ws, ignored), w.raisesAt)
  }

  /** A watch event in a phase to be ignored leads to nothing, and any other is mapped and handled. */
  lemma IgnoredIff(bound: Option<nat>, ws: seq<Watched>, w: Watched, ignored: set<Phase>)
    ensures w.o.pod.hasStatus && w.o.pod.phase in ignored ==> Log(bound, ws + [w], ignored) == Log(bound, ws, ignored)
    ensures !w.o.pod.hasStatus || w.o.pod.phase !in ignored ==>
      Log(bound, ws + [w], ignored)
      == Log(bound, ws, ignored) + Round(w.o.pod.name, LastOutput(bound, Mappable(ws, ignored) + [w.o]), w.raisesAt)
  {
    assert (ws + [w])[..|ws|] == ws;
    assert Round(w.o.pod.name, NOTHING, w.raisesAt) == [];
  }

  ghost function Cleanups(log: seq<Action>, name: nat): nat { multiset(log)[DeletePod(name)] }

  /** How many endings of a pod were followed by a raise, in their own handling or in that of a later event. */
  function Lost(bound: Option<nat>, ws: seq<Watched>, ignored: set<Phase>, name: nat): nat {
    if ws == [] then 0
    else
      var w, output := ws[|ws| - 1], Output(bound, ws, ignored);
      Lost(bound, ws[..|ws| - 1], ignored, name)
      + (if w.o.pod.name == name && output.Events? && w.raisesAt < |output.events| then CountEnds(output.events) else 0)
  }

  lemma {:induction false} HandlingDeletesNothing(name: nat, events: seq<Event>, raisesAt: nat)
    ensures forall other :: DeletePod(other) !in HandleAll(name, events, raisesAt)
  {
    if events != [] && raisesAt > 0 { HandlingDeletesNothing(name, events[1..], raisesAt - 1); }
  }

  /** A watch event never yields two endings. */
  lemma OneEndAtMost(bound: Option<nat>, os: seq<Observation>)
    requires os != []
    ensures LastOutput(bound, os).Events? ==> CountEnds(LastOutput(bound, os).events) <= 1
  {
    var output := LastOutput(bound, os);
    if output.Events? && output.events != [] {
      var rest := output.events[1..];
      assert rest == [] || (rest == [PodTerminated] && rest[1..] == []);
      assert CountEnds(rest) == 0;
    }
  }

  lemma RoundCleans(name: nat, mapped: Mapped, raisesAt: nat, other: nat)
    requires mapped.Events? ==> CountEnds(mapped.events) <= 1
    ensures Cleanups(Round(name, mapped, raisesAt), other)
            == if name == other && mapped.Events? && raisesAt >= |mapped.events| then CountEnds(mapped.events) else 0
  {
    if mapped.Events? {
      HandlingDeletesNothing(name, mapped.events, raisesAt);
      var rest := Round(name, mapped, raisesAt)[|HandleAll(name, mapped.events, raisesAt)|..];
      assert Round(name, mapped, raisesAt) == HandleAll(name, mapped.events, raisesAt) + rest;
      assert multiset(HandleAll(name, mapped.events, raisesAt))[DeletePod(other)] == 0;
    }
  }

  /** Over any history, every ending the mapper puts out is either cleaned up after or lost to a raise. */
  lemma {:induction false} CleanedOrLost(bound: Option<nat>, ws: seq<Watched>, ignored: set<Phase>, name: nat)
    ensures Cleanups(Log(bound, ws, ignored), name) + Lost(bound, ws, ignored, name)
            == Endings(bound, Mappable(ws, ignored), name)
    decreases |ws|
  {
    if ws != [] {
      var w, earlier := ws[|ws| - 1], ws[..|ws| - 1];
      CleanedOrLost(bound, earlier, ignored, name);
      var os := Mappable(ws, ignored);
      if !Ignored(w.o, ignored) {
        assert os[..|os| - 1] == Mappable(earlier, ignored);
        OneEndAtMost(bound, os);
      }
      RoundCleans(w.o.pod.name, Output(bound, ws, ignored), w.raisesAt, name);
    }
  }

  /**
    For a well-behaved pod that is never evicted and shows a readable ending, deletion is attempted exactly once if
    nothing raised after its ending, and otherwise never: the cached phase keeps the ending from being put out again.
   */
  lemma CleanedOnceOrNever(bound: Option<nat>, ws: seq<Watched>, ignored: set<Phase>, name: nat)
    requires WellBehaved(Mappable(ws, ignored), name) && NeverEvicted(bound, Mappable(ws, ignored), name)
    ensures Cleanups(Log(bound, ws, ignored), name)
            == if AnyDue(Mappable(ws, ignored), name) && Lost(bound, ws, ignored, name) == 0 then 1 else 0
  {
    CleanedOrLost(bound, ws, ignored, name);
    OneEnding(bound, Mappable(ws, ignored), name);
  }

  lemma {:induction false} LostStaysLost(bound: Option<nat>, ws: seq<Watched>, more: seq<Watched>, ignored: set<Phase>, name: nat)
    ensures Lost(bound, ws, ignored, name) <= Lost(bound, ws + more, ignored, name)
    decreases |more|
  {
    if more == [] {
      assert ws + more == ws;
    } else {
      assert (ws + more)[..|ws + more| - 1] == ws + more[..|more| - 1];
      LostStaysLost(bound, ws, more[..|more| - 1], ignored, name);
    }
  }

  const FAILED_POD := Observation(Pod(0, true, true, Failed, false, true, [], true), false)

  lemma FailedPodFails(bound: Option<nat>)
    ensures LastOutput(bound, [FAILED_POD]) == One(FailedEvent)
  {
    assert [FAILED_POD][..0] == [] && After(bound, []) == [];
  }

  lemma FirstFailureIsLost(bound: Option<nat>)
    ensures Lost(bound, [Watched(FAILED_POD, 0)], {}, 0) == 1
  {
    var first := [Watched(FAILED_POD, 0)];
    FailedPodFails(bound);
    assert first[..0] == [] && Mappable([], {}) == [] && Mappable(first, {}) == [FAILED_POD];
    assert CountEnds([FailedEvent]) == 1 by { assert [FailedEvent][1..] == []; }
  }

  /**
    It happens: storing a pod's failure raises once, and whatever the watch reports of that pod afterwards, as long as
    it behaves well and is never evicted, its deletion is never attempted.
   */
  lemma NeverDeleted(bound: Option<nat>, more: seq<Watched>)
    requires var os := Mappable([Watched(FAILED_POD, 0)] + more, {}); WellBehaved(os, 0) && NeverEvicted(bound, os, 0)
    ensures var ws := [Watched(FAILED_POD, 0)] + more;
      AnyDue(Mappable(ws, {}), 0) && Cleanups(Log(bound, ws, {}), 0) == 0
  {
    var first := [Watched(FAILED_POD, 0)];
    FirstFailureIsLost(bound);
    LostStaysLost(bound, first, more, {}, 0);
    MappableStartsWith(FAILED_POD, 0, more);
    assert Due(FAILED_POD.pod) && Mappable(first + more, {})[0] == FAILED_POD;
    CleanedOnceOrNever(bound, first + more, {}, 0);
  }

  lemma {:induction false} MappableStartsWith(o: Observation, raisesAt: nat, more: seq<Watched>)
    ensures Mappable([Watched(o, raisesAt)] + more, {}) != [] && Mappable([Watched(o, raisesAt)] + more, {})[0] == o
    decreases |more|
  {
    var ws := [Watched(o, raisesAt)] + more;
    if more == [] {
      assert ws[..|ws| - 1] == [] && Mappable([], {}) == [];
    } else {
      assert ws[..|ws| - 1] == [Watched(o, raisesAt)] + more[..|more| - 1];
      MappableStartsWith(o, raisesAt, more[..|more| - 1]);
    }
  }

  // ---- the phase gauge

  /** What the gauge counts after a list of watch events: ignored events count too. */
  function Phases(ws: seq<Watched>): map<nat, Phase> {
    if ws == [] then map[]
    else
      var o := ws[|ws| - 1].o;
      var earlier := Phases(ws[..|ws| - 1]);
      if o.deleted then earlier - {o.pod.name} else earlier[o.pod.name := o.pod.Seen()]
  }

  /** The watch event at k is the pod's newest one, and it shows the pod in that phase. */
  predicate NewestShows(ws: seq<Watched>, k: nat, name: nat, phase: Phase) {
    && k < |ws| && ws[k].o.pod.name == name && !ws[k].o.deleted && ws[k].o.pod.Seen() == phase
    && forall j :: k < j < |ws| ==> ws[j].o.pod.name != name
  }

  /** A pod is counted exactly in the phase its newest watch event shows, and not at all once that was a deletion. */
  lemma {:induction false} PhasesIff(ws: seq<Watched>, name: nat, phase: Phase)
    ensures (name in Phases(ws) && Phases(ws)[name] == phase) <==> exists k :: NewestShows(ws, k, name, phase)
    decreases |ws|
  {
    if ws != [] {
      var n := |ws| - 1;
      var earlier := ws[..n];
      PhasesIff(earlier, name, phase);
      if ws[n].o.pod.name == name {
        if !ws[n].o.deleted && ws[n].o.pod.Seen() == phase { assert NewestShows(ws, n, name, phase); }
        assert forall k :: NewestShows(ws, k, name, phase) ==> k == n;
      } else {
        if k :| NewestShows(earlier, k, name, phase) { assert NewestShows(ws, k, name, phase); }
        if k :| NewestShows(ws, k, name, phase) { assert NewestShows(earlier, k, name, phase); }
      }
    }
  }

  // ---- the order of a cleanup

  /** The pod's ending was handled before position i. */
  ghost predicate EndedBefore(log: seq<Action>, i: nat, name: nat) {
    exists j, e :: 0 <= j < i && j < |log| && Ends(e) && log[j] == Handled(name, e)
  }

  ghost predicate InOrder(log: seq<Action>) {
    forall i :: 0 <= i < |log| && log[i].DeletePod? ==>
      i + 1 < |log| && log[i + 1] == Finish(log[i].name) && EndedBefore(log, i, log[i].name)
  }

  lemma {:induction false} AllHandled(name: nat, events: seq<Event>, raisesAt: nat)
    requires raisesAt >= |events| && CountEnds(events) > 0
    ensures EndedBefore(HandleAll(name, events, raisesAt), |HandleAll(name, events, raisesAt)|, name)
  {
    var log := HandleAll(name, events, raisesAt);
    if Ends(events[0]) {
      assert log[0] == Handled(name, events[0]);
    } else {
      AllHandled(name, events[1..], raisesAt - 1);
      var rest := HandleAll(name, events[1..], raisesAt - 1);
      var j, e :| 0 <= j < |rest| && Ends(e) && rest[j] == Handled(name, e);
      assert log[j + 1] == Handled(name, e);
    }
  }

  lemma RoundInOrder(name: nat, mapped: Mapped, raisesAt: nat)
    ensures InOrder(Round(name, mapped, raisesAt))
  {
    if mapped.Events? {
      var handled, log := HandleAll(name, mapped.events, raisesAt), Round(name, mapped, raisesAt);
      HandlingDeletesNothing(name, mapped.events, raisesAt);
      assert forall k | 0 <= k < |handled| :: log[k] == handled[k];
      forall i | 0 <= i < |log| && log[i].DeletePod?
        ensures i + 1 < |log| && log[i + 1] == Finish(log[i].name) && EndedBefore(log, i, log[i].name)
      {
        AllHandled(name, mapped.events, raisesAt);
        var j, e :| 0 <= j < |handled| && Ends(e) && handled[j] == Handled(name, e);
        assert log[j] == Handled(name, e);
      }
    }
  }

  lemma InOrderAppend(a: seq<Action>, b: seq<Action>)
    requires InOrder(a) && InOrder(b)
    ensures InOrder(a + b)
  {
    var log := a + b;
    forall i | 0 <= i < |log| && log[i].DeletePod?
      ensures i + 1 < |log| && log[i + 1] == Finish(log[i].name) && EndedBefore(log, i, log[i].name)
    {
      if i < |a| {
        var j, e :| 0 <= j < i && Ends(e) && a[j] == Handled(a[i].name, e);
        assert log[j] == Handled(log[i].name, e);
      } else {
        var k := i - |a|;
        var j, e :| 0 <= j < k && Ends(e) && b[j] == Handled(b[k].name, e);
        assert log[|a| + j] == Handled(log[i].name, e);
      }
    }
  }

  /** A pod's deletion is attempted only after its ending was handled, and its slots are freed right after that. */
  lemma {:induction false} DeletedAfterHandled(bound: Option<nat>, ws: seq<Watched>, ignored: set<Phase>)
    ensures InOrder(Log(bound, ws, ignored))
    decreases |ws|
  {
    if ws != [] {
      var w, earlier := ws[|ws| - 1], ws[..|ws| - 1];
      DeletedAfterHandled(bound, earlier, ignored);
      RoundInOrder(w.o.pod.name, Output(bound, ws, ignored), w.raisesAt);
      InOrderAppend(Log(bound, earlier, ignored), Round(w.o.pod.name, Output(bound, ws, ignored), w.raisesAt));
    }
  }

  // ---- the code itself

  function HandledFirst(name: nat, events: seq<Event>, n: nat): seq<Action>
    requires n <= |events|
  {
    seq(n, k requires 0 <= k < n => Handled(name, events[k]))
  }

  lemma HandledFirstSplits(name: nat, events: seq<Event>, n: nat)
    requires 0 < n <= |events|
    ensures HandledFirst(name, events, n) == [Handled(name, events[0])] + HandledFirst(name, events[1..], n - 1)
  {
  }

  lemma {:induction false} HandledAll(name: nat, events: seq<Event>, raisesAt: nat)
    requires raisesAt >= |events|
    ensures HandleAll(name, events, raisesAt) == HandledFirst(name, events, |events|)
  {
    if events != [] {
      HandledAll(name, events[1..], raisesAt - 1);
      HandledFirstSplits(name, events, |events|);
    }
  }

  lemma {:induction false} HandledUntil(name: nat, events: seq<Event>, raisesAt: nat)
    requires raisesAt < |events|
    ensures HandleAll(name, events, raisesAt)
            == HandledFirst(name, events, raisesAt) + [HandlingRaised(name, events[raisesAt])]
  {
    if raisesAt > 0 {
      HandledUntil(name, events[1..], raisesAt - 1);
      HandledFirstSplits(name, events, raisesAt);
    }
  }

  lemma {:induction false} SomeEnds(events: seq<Event>)
    ensures CountEnds(events) > 0 <==> exists k :: 0 <= k < |events| && Ends(events[k])
  {
    if events != [] {
      SomeEnds(events[1..]);
      if k :| 0 <= k < |events| && Ends(events[k]) && k > 0 { assert Ends(events[1..][k - 1]); }
      if k :| 0 <= k < |events[1..]| && Ends(events[1..][k]) { assert Ends(events[k + 1]); }
    }
  }

  lemma OneMorePhase(ws: seq<Watched>, w: Watched)
    ensures var o := w.o;
      Phases(ws + [w]) == if o.deleted then Phases(ws) - {o.pod.name} else Phases(ws)[o.pod.name := o.pod.Seen()]
  {
    assert (ws + [w])[..|ws|] == ws;
  }

  lemma OneMoreWatched(bound: Option<nat>, ws: seq<Watched>, w: Watched, ignored: set<Phase>)
    ensures var os := Mappable(ws, ignored);
      if Ignored(w.o, ignored) then
        && Mappable(ws + [w], ignored) == os && Log(bound, ws + [w], ignored) == Log(bound, ws, ignored)
      else
        && Mappable(ws + [w], ignored) == os + [w.o]
        && Log(bound, ws + [w], ignored)
           == Log(bound, ws, ignored) + Round(w.o.pod.name, LastOutput(bound, os + [w.o]), w.raisesAt)
  {
    assert (ws + [w])[..|ws|] == ws;
    IgnoredIff(bound, ws, w, ignored);
  }

  class Monitor {
    const mapper: Mapper
    const ignored: set<Phase>
    var phases: map<nat, Phase>
    var log: seq<Action>

    constructor (ignored: set<Phase>)
      ensures this.ignored == ignored && phases == map[] && log == [] && fresh(mapper)
      ensures Valid([])
    {
      mapper := new Mapper();
      this.ignored, phases, log := ignored, map[], [];
    }

    ghost predicate Valid(ws: seq<Watched>)
      reads this, mapper
    {
      && mapper.Valid() && mapper.cache == After(Some(MAX_CACHE_SIZE), Mappable(ws, ignored))
      && log == Log(Some(MAX_CACHE_SIZE), ws, ignored) && phases == Phases(ws)
    }

    /** _handle: storing a result or publishing may raise. */
    method Handle(name: nat, event: Event, raises: bool)
      modifies this`log
      ensures log == old(log) + [if raises then HandlingRaised(name, event) else Handled(name, event)]
    {
      log := log + [if raises then HandlingRaised(name, event) else Handled(name, event)];
    }

    /** _track_pod_phase. */
    method TrackPodPhase(o: Observation)
      modifies this`phases
      ensures phases == if o.deleted then old(phases) - {o.pod.name} else old(phases)[o.pod.name := o.pod.Seen()]
    {
      if o.deleted { phases := phases - {o.pod.name}; } else { phases := phases[o.pod.name := o.pod.Seen()]; }
    }

    /** The loop over the mapped events, which stops at the one whose handling raises. */
    method HandleEvents(name: nat, events: seq<Event>, raisesAt: nat) returns (raised: bool, terminal: bool)
      modifies this`log
      ensures log == old(log) + HandleAll(name, events, raisesAt)
      ensures raised <==> raisesAt < |events|
      ensures !raised ==> (terminal <==> CountEnds(events) > 0)
    {
      raised, terminal := false, false;
      for i := 0 to |events|
        invariant i <= raisesAt && log == old(log) + HandledFirst(name, events, i)
        invariant terminal <==> exists k :: 0 <= k < i && Ends(events[k])
      {
        Handle(name, events[i], i == raisesAt);
        if i == raisesAt {
          raised := true;
          HandledUntil(name, events, i);
          return;
        }
        terminal := terminal || Ends(events[i]);
      }
      HandledAll(name, events, raisesAt);
      SomeEnds(events);
    }

    /** What _process_pod_event does with the mapper's answer. */
    method HandleMapped(name: nat, mapped: Mapped, raisesAt: nat)
      modifies this`log
      ensures log == old(log) + Round(name, mapped, raisesAt)
    {
      if mapped.Events? {
        var raised, terminal := HandleEvents(name, mapped.events, raisesAt);
        if !raised && terminal { log := log + [DeletePod(name), Finish(name)]; }
      }
    }

    /** _process_pod_event: one more watch event of the history the monitor stands for. */
    method ProcessPodEvent(w: Watched, ghost ws: seq<Watched>)
      requires Valid(ws)
      modifies this, mapper
      ensures Valid(ws + [w])
    {
      var o := w.o;
      TrackPodPhase(o);
      OneMoreWatched(Some(MAX_CACHE_SIZE), ws, w, ignored);
      OneMorePhase(ws, w);
      if Ignored(o, ignored) { return; }
      var mapped := mapper.Map(o, Mappable(ws, ignored));
      HandleMapped(o.pod.name, mapped, w.raisesAt);
    }
  }
}

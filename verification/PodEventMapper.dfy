/**
  The pod event mapper and its bounded, de-duplicating phase cache (backend/app/services/pod_monitor/event_mapper.py).
 */
module PodEventMapper {
  import opened Options

  datatype Phase = Pending | Running | Succeeded | Failed | Unknown

  /**
    What one watch event says about a pod. A container is its exit code once it terminated. readable says that the
    numbers in the main container's termination message parse; otherwise reading them raises.
   */
  datatype Pod = Pod(
    name: nat,
    hasId: bool,
    hasStatus: bool,
    phase: Phase,
    deadlineExceeded: bool,
    scheduled: bool,
    containers: seq<Option<int>>,
    readable: bool
  ) {
    function Seen(): Phase { if hasStatus then phase else Unknown }

    predicate MainTerminated() { hasStatus && containers != [] && containers[0].Some? }

    predicate AllSucceeded() { hasStatus && containers != [] && forall c | c in containers :: c == Some(0) }
  }

  datatype Observation = Observation(pod: Pod, deleted: bool)

  datatype Event = PodScheduled | PodRunning | Completed | FailedEvent | TimedOut | PodTerminated

  predicate Ends(e: Event) { e.Completed? || e.FailedEvent? || e.TimedOut? }

  datatype Mapped = Raised | Events(events: seq<Event>)

  function One(e: Event): Mapped { Events([e]) }

  const NOTHING := Events([])

  /** Mapping a pod whose logs must be read: raises when the termination message does not parse. */
  function WithLogs(p: Pod, e: Event): Mapped {
    if p.MainTerminated() && !p.readable then Raised else One(e)
  }

  function CheckTimeout(p: Pod): Mapped {
    if !(p.hasStatus && p.deadlineExceeded) || p.AllSucceeded() then NOTHING else WithLogs(p, TimedOut)
  }

  function MapCompleted(p: Pod): Mapped {
    if !p.MainTerminated() then NOTHING else WithLogs(p, Completed)
  }

  function MapFailedOrCompleted(p: Pod): Mapped {
    if p.hasStatus && p.deadlineExceeded && CheckTimeout(p) != NOTHING then CheckTimeout(p)
    else if p.AllSucceeded() then MapCompleted(p)
    else WithLogs(p, FailedEvent)
  }

  /** _map_phase. */
  function MapPhase(p: Pod, prior: Option<Phase>): Mapped {
    if CheckTimeout(p) != NOTHING then CheckTimeout(p)
    else if p.Seen() == Running && (!p.hasStatus || p.containers == []) && prior == Some(Pending) then NOTHING
    else
      match p.Seen()
      case Pending => if p.hasStatus && p.scheduled then One(PodScheduled) else NOTHING
      case Running => if p.hasStatus then One(PodRunning) else NOTHING
      case Succeeded => MapCompleted(p)
      case Failed => MapFailedOrCompleted(p)
      case Unknown => NOTHING
  }

  // ---- the cache: a Python dict, as its entries in insertion order

  datatype Entry = Entry(name: nat, phase: Phase)
  type Cache = seq<Entry>

  const MAX_CACHE_SIZE: nat := 10_000

  function Lookup(cache: Cache, name: nat): Option<Phase> {
    if cache == [] then None
    else if cache[0].name == name then Some(cache[0].phase)
    else Lookup(cache[1..], name)
  }

  /** cache[name] = phase: an existing key keeps its place. */
  function Put(cache: Cache, name: nat, phase: Phase): Cache {
    if cache == [] then [Entry(name, phase)]
    else if cache[0].name == name then [Entry(name, phase)] + cache[1..]
    else [cache[0]] + Put(cache[1..], name, phase)
  }

  function Drop(cache: Cache, name: nat): Cache {
    if cache == [] then []
    else if cache[0].name == name then cache[1..]
    else [cache[0]] + Drop(cache[1..], name)
  }

  /** _remember; with no bound nothing is ever evicted. */
  function Remember(bound: Option<nat>, cache: Cache, name: nat, phase: Phase): Cache {
    if bound.Some? && |cache| >= bound.value && bound.value / 2 <= |cache|
    then Put(cache[bound.value / 2..], name, phase)
    else Put(cache, name, phase)
  }

  /** map_pod_event. */
  function MapPodEvent(bound: Option<nat>, cache: Cache, o: Observation): (Cache, Mapped) {
    var p, prior := o.pod, Lookup(cache, o.pod.name);
    if !p.hasId then (cache, NOTHING)
    else if o.deleted then
      var mapped := if prior == Some(p.Seen()) then NOTHING else MapPhase(p, prior);
      if mapped.Raised? then (cache, Raised)
      else (Drop(cache, p.name), if p.MainTerminated() then Events(mapped.events + [PodTerminated]) else mapped)
    else if prior == Some(p.Seen()) then (cache, NOTHING)
    else
      var mapped := MapPhase(p, prior);
      if mapped.Raised? || mapped == NOTHING then (cache, mapped)
      else (Remember(bound, cache, p.name, p.Seen()), mapped)
  }

  /** The cache after a list of watch events, from a fresh mapper. */
  function After(bound: Option<nat>, os: seq<Observation>): Cache {
    if os == [] then [] else MapPodEvent(bound, After(bound, os[..|os| - 1]), os[|os| - 1]).0
  }

  /** What the last of a list of watch events is mapped to. */
  function LastOutput(bound: Option<nat>, os: seq<Observation>): Mapped
    requires os != []
  {
    MapPodEvent(bound, After(bound, os[..|os| - 1]), os[|os| - 1]).1
  }

  // ---- facts about the cache

  ghost predicate Distinct(cache: Cache) {
    forall i, j | 0 <= i < j < |cache| :: cache[i].name != cache[j].name
  }

  lemma {:induction false} LookupIsMembership(cache: Cache, name: nat)
    requires Distinct(cache)
    ensures forall phase :: Lookup(cache, name) == Some(phase) <==> Entry(name, phase) in cache
    ensures Lookup(cache, name).None? <==> forall e | e in cache :: e.name != name
  {
    if cache != [] {
      assert forall e | e in cache :: e == cache[0] || e in cache[1..];
      assert forall e | e in cache[1..] :: e.name != cache[0].name;
      LookupIsMembership(cache[1..], name);
    }
  }

  lemma {:induction false} PutLookup(cache: Cache, name: nat, phase: Phase, other: nat)
    ensures Lookup(Put(cache, name, phase), other) == if other == name then Some(phase) else Lookup(cache, other)
  {
    if cache != [] && cache[0].name != name {
      PutLookup(cache[1..], name, phase, other);
      assert Put(cache, name, phase)[1..] == Put(cache[1..], name, phase);
    } else if cache != [] {
      assert Put(cache, name, phase)[1..] == cache[1..];
    }
  }

  lemma {:induction false} PutShape(cache: Cache, name: nat, phase: Phase)
    requires Distinct(cache)
    ensures Distinct(Put(cache, name, phase))
    ensures forall e | e in Put(cache, name, phase) :: e.name == name || e in cache
  {
    if cache != [] && cache[0].name != name { PutShape(cache[1..], name, phase); }
  }

  lemma {:induction false} PutSize(cache: Cache, name: nat, phase: Phase)
    ensures |Put(cache, name, phase)| == if Lookup(cache, name).Some? then |cache| else |cache| + 1
  {
    if cache != [] && cache[0].name != name { PutSize(cache[1..], name, phase); }
  }

  lemma {:induction false} DropLookup(cache: Cache, name: nat, other: nat)
    requires Distinct(cache)
    ensures Lookup(Drop(cache, name), other) == if other == name then None else Lookup(cache, other)
  {
    if cache != [] && cache[0].name != name {
      DropLookup(cache[1..], name, other);
      assert Drop(cache, name)[1..] == Drop(cache[1..], name);
    } else if cache != [] {
      LookupIsMembership(cache[1..], name);
      assert forall e | e in cache[1..] :: e.name != name;
    }
  }

  lemma {:induction false} DropWithin(cache: Cache, name: nat)
    ensures |Drop(cache, name)| <= |cache| && forall e | e in Drop(cache, name) :: e in cache
  {
    if cache != [] && cache[0].name != name { DropWithin(cache[1..], name); }
  }

  lemma {:induction false} DropShape(cache: Cache, name: nat)
    requires Distinct(cache)
    ensures Distinct(Drop(cache, name)) && |Drop(cache, name)| <= |cache|
  {
    DropWithin(cache, name);
    if cache != [] && cache[0].name != name {
      DropShape(cache[1..], name);
      DropWithin(cache[1..], name);
      assert forall e | e in Drop(cache[1..], name) :: e.name != cache[0].name;
    }
  }

  /** Evicting from the front forgets some names and changes no other. */
  lemma {:induction false} EvictSpec(cache: Cache, n: nat)
    requires Distinct(cache) && n <= |cache|
    ensures Distinct(cache[n..])
    ensures forall name :: Lookup(cache[n..], name) == None || Lookup(cache[n..], name) == Lookup(cache, name)
  {
    forall name ensures Lookup(cache[n..], name) == None || Lookup(cache[n..], name) == Lookup(cache, name) {
      LookupIsMembership(cache[n..], name);
      LookupIsMembership(cache, name);
      if Lookup(cache[n..], name).Some? {
        assert Entry(name, Lookup(cache[n..], name).value) in cache;
      }
    }
  }

  lemma RememberShape(bound: Option<nat>, cache: Cache, name: nat, phase: Phase)
    requires Distinct(cache)
    ensures Distinct(Remember(bound, cache, name, phase))
    ensures bound.Some? && 2 <= bound.value && |cache| <= bound.value ==> |Remember(bound, cache, name, phase)| <= bound.value
  {
    PutShape(cache, name, phase);
    PutSize(cache, name, phase);
    if bound.Some? && bound.value / 2 <= |cache| {
      EvictSpec(cache, bound.value / 2);
      PutShape(cache[bound.value / 2..], name, phase);
      PutSize(cache[bound.value / 2..], name, phase);
    }
  }

  lemma RememberLookup(bound: Option<nat>, cache: Cache, name: nat, phase: Phase, other: nat)
    requires Distinct(cache)
    ensures var found := Lookup(Remember(bound, cache, name, phase), other);
      && (other == name ==> found == Some(phase))
      && (other != name ==> found.None? || found == Lookup(cache, other))
      && (other != name && bound.None? ==> found == Lookup(cache, other))
  {
    PutLookup(cache, name, phase, other);
    if bound.Some? && bound.value / 2 <= |cache| {
      EvictSpec(cache, bound.value / 2);
      PutLookup(cache[bound.value / 2..], name, phase, other);
    }
  }

  lemma StepShape(bound: Option<nat>, cache: Cache, o: Observation)
    requires Distinct(cache)
    ensures Distinct(MapPodEvent(bound, cache, o).0)
    ensures bound.Some? && 2 <= bound.value && |cache| <= bound.value ==> |MapPodEvent(bound, cache, o).0| <= bound.value
  {
    DropShape(cache, o.pod.name);
    RememberShape(bound, cache, o.pod.name, o.pod.Seen());
  }

  /** One event, seen from one pod's cell of the cache: what its own event does, and what another pod's may do. */
  lemma StepSpec(bound: Option<nat>, cache: Cache, o: Observation, name: nat)
    requires Distinct(cache)
    ensures var (after, mapped) := MapPodEvent(bound, cache, o);
      && (o.pod.name == name ==> Lookup(after, name) == CellAfter(Lookup(cache, name), o))
      && (o.pod.name == name ==> mapped == CellOutput(Lookup(cache, name), o))
      && (o.pod.name != name ==> Lookup(after, name) == None || Lookup(after, name) == Lookup(cache, name))
      && (o.pod.name != name && bound.None? ==> Lookup(after, name) == Lookup(cache, name))
  {
    DropLookup(cache, o.pod.name, name);
    RememberLookup(bound, cache, o.pod.name, o.pod.Seen(), name);
  }

  function CellOutput(prior: Option<Phase>, o: Observation): Mapped {
    var p := o.pod;
    if !p.hasId then NOTHING
    else if o.deleted then
      var mapped := if prior == Some(p.Seen()) then NOTHING else MapPhase(p, prior);
      if mapped.Events? && p.MainTerminated() then Events(mapped.events + [PodTerminated]) else mapped
    else if prior == Some(p.Seen()) then NOTHING
    else MapPhase(p, prior)
  }

  function CellAfter(prior: Option<Phase>, o: Observation): Option<Phase> {
    var mapped := CellOutput(prior, o);
    if !o.pod.hasId || mapped.Raised? then prior
    else if o.deleted then None
    else if mapped == NOTHING then prior
    else Some(o.pod.Seen())
  }

  lemma {:induction false} AfterIsDistinct(bound: Option<nat>, os: seq<Observation>)
    ensures Distinct(After(bound, os))
    decreases |os|
  {
    if os != [] {
      AfterIsDistinct(bound, os[..|os| - 1]);
      StepShape(bound, After(bound, os[..|os| - 1]), os[|os| - 1]);
    }
  }

  /** However many pods come and go, the cache never holds more than its bound. */
  lemma {:induction false} CacheBounded(bound: nat, os: seq<Observation>)
    requires bound >= 2
    ensures |After(Some(bound), os)| <= bound
    decreases |os|
  {
    if os != [] {
      CacheBounded(bound, os[..|os| - 1]);
      AfterIsDistinct(Some(bound), os[..|os| - 1]);
      StepShape(Some(bound), After(Some(bound), os[..|os| - 1]), os[|os| - 1]);
    }
  }

  // ---- what a cached phase means

  /** The last phase that produced events for the pod since it was last deleted, read off the whole history. */
  function LastProduced(bound: Option<nat>, os: seq<Observation>, name: nat): Option<Phase> {
    if os == [] then None
    else
      var o, earlier := os[|os| - 1], LastProduced(bound, os[..|os| - 1], name);
      var output := LastOutput(bound, os);
      if o.pod.name != name || !o.pod.hasId || output.Raised? then earlier
      else if o.deleted then None
      else if output == NOTHING then earlier
      else Some(o.pod.Seen())
  }

  /** A cached entry is that phase; without a bound, the cache holds exactly those phases. */
  lemma {:induction false} CachedIsLastProduced(bound: Option<nat>, os: seq<Observation>, name: nat)
    ensures Lookup(After(bound, os), name).Some? ==> Lookup(After(bound, os), name) == LastProduced(bound, os, name)
    ensures bound.None? ==> Lookup(After(bound, os), name) == LastProduced(bound, os, name)
    decreases |os|
  {
    if os != [] {
      CachedIsLastProduced(bound, os[..|os| - 1], name);
      AfterIsDistinct(bound, os[..|os| - 1]);
      StepSpec(bound, After(bound, os[..|os| - 1]), os[|os| - 1], name);
    }
  }

  // ---- one ending per pod

  predicate Forward(a: Phase, b: Phase) {
    a == Unknown || b == Unknown || a == b || a == Pending || (a == Running && b != Pending)
  }

  /** The assumptions about one pod: phases move forward, the deadline shows only in Failed, DELETED comes last. */
  ghost predicate WellBehaved(os: seq<Observation>, name: nat) {
    && (forall i | 0 <= i < |os| && os[i].pod.name == name :: os[i].pod.deadlineExceeded ==> os[i].pod.Seen() == Failed)
    && (forall i, j | 0 <= i < j < |os| && os[i].pod.name == name && os[j].pod.name == name ::
          !os[i].deleted && Forward(os[i].pod.Seen(), os[j].pod.Seen()))
  }

  /** No other pod's event pushes this pod out of the cache. */
  ghost predicate NeverEvicted(bound: Option<nat>, os: seq<Observation>, name: nat) {
    forall k | 0 <= k < |os| && os[k].pod.name != name ::
      Lookup(After(bound, os[..k + 1]), name) == Lookup(After(bound, os[..k]), name)
  }

  function CountEnds(events: seq<Event>): nat {
    if events == [] then 0 else (if Ends(events[0]) then 1 else 0) + CountEnds(events[1..])
  }

  /** How many completed, failed or timeout events the mapper put out for a pod. */
  function Endings(bound: Option<nat>, os: seq<Observation>, name: nat): nat {
    if os == [] then 0
    else
      var output := LastOutput(bound, os);
      Endings(bound, os[..|os| - 1], name)
      + (if os[|os| - 1].pod.name == name && output.Events? then CountEnds(output.events) else 0)
  }

  /** The event shows an ended pod whose result can be read. */
  predicate Due(p: Pod) {
    && p.hasId && p.hasStatus
    && (p.phase == Failed || (p.phase == Succeeded && p.MainTerminated()))
    && (p.MainTerminated() ==> p.readable)
  }

  /** Every container has exited, with code 0. */
  ghost predicate AllExitedZero(p: Pod) {
    p.containers != [] && forall i | 0 <= i < |p.containers| :: p.containers[i] == Some(0)
  }

  /** The ending of a due pod. */
  ghost function KindOf(p: Pod): Event {
    if p.deadlineExceeded && !AllExitedZero(p) then TimedOut
    else if p.phase == Succeeded || AllExitedZero(p) then Completed
    else FailedEvent
  }

  /** The ending that the pod's first due event shows. */
  ghost function FirstEnding(os: seq<Observation>, name: nat): Option<Event> {
    if os == [] then None
    else
      var earlier, o := FirstEnding(os[..|os| - 1], name), os[|os| - 1];
      if earlier.None? && o.pod.name == name && Due(o.pod) then Some(KindOf(o.pod)) else earlier
  }

  function EndsOf(events: seq<Event>): seq<Event> {
    if events == [] then [] else (if Ends(events[0]) then [events[0]] else []) + EndsOf(events[1..])
  }

  /** The completed, failed and timeout events the mapper put out for a pod. */
  function EndingsOf(bound: Option<nat>, os: seq<Observation>, name: nat): seq<Event> {
    if os == [] then []
    else
      var output := LastOutput(bound, os);
      EndingsOf(bound, os[..|os| - 1], name)
      + (if os[|os| - 1].pod.name == name && output.Events? then EndsOf(output.events) else [])
  }

  ghost predicate AnyDue(os: seq<Observation>, name: nat) {
    exists k | 0 <= k < |os| :: os[k].pod.name == name && Due(os[k].pod)
  }

  /** A pod's event yields an ending exactly when it is due and its phase is new to the cache. */
  lemma CellEndings(prior: Option<Phase>, o: Observation)
    requires o.pod.deadlineExceeded ==> o.pod.Seen() == Failed
    ensures var output := CellOutput(prior, o);
      && (output.Raised? ==> !Due(o.pod))
      && (output.Events? ==> CountEnds(output.events) == (if Due(o.pod) && prior != Some(o.pod.Seen()) then 1 else 0))
  {
    var output := CellOutput(prior, o);
    assert o.pod.containers != [] ==> o.pod.containers[0] in o.pod.containers;
    if output.Events? && output.events != [] {
      var rest := output.events[1..];
      assert rest == [] || (rest == [PodTerminated] && rest[1..] == []);
      assert CountEnds(rest) == 0;
    }
  }

  lemma SucceededIsAllExitedZero(p: Pod)
    requires p.hasStatus
    ensures p.AllSucceeded() <==> AllExitedZero(p)
  {
    if p.AllSucceeded() {
      assert forall i | 0 <= i < |p.containers| :: p.containers[i] in p.containers;
    }
  }

  lemma CellEndsOf(prior: Option<Phase>, o: Observation)
    requires o.pod.deadlineExceeded ==> o.pod.Seen() == Failed
    ensures var output := CellOutput(prior, o);
      output.Events? ==> EndsOf(output.events) == (if Due(o.pod) && prior != Some(o.pod.Seen()) then [KindOf(o.pod)] else [])
  {
    var output := CellOutput(prior, o);
    if o.pod.hasStatus { SucceededIsAllExitedZero(o.pod); }
    if output.Events? && output.events != [] {
      var rest := output.events[1..];
      assert rest == [] || (rest == [PodTerminated] && rest[1..] == []);
      assert EndsOf(rest) == [];
    }
  }

  /** What a pod's cell says about its events so far: an ending that was due shows, and a cached ending was due. */
  ghost predicate CellFits(cell: Option<Phase>, os: seq<Observation>, name: nat) {
    && (AnyDue(os, name) ==>
          || cell == Some(Succeeded) || cell == Some(Failed)
          || exists k :: 0 <= k < |os| && os[k].pod.name == name && os[k].deleted)
    && (cell.Some? ==> CachedFrom(cell.value, os, name))
  }

  ghost predicate CachedFrom(phase: Phase, os: seq<Observation>, name: nat) {
    exists k :: 0 <= k < |os| && os[k].pod.name == name && os[k].pod.Seen() == phase
                && (phase == Succeeded || phase == Failed ==> Due(os[k].pod))
  }

  lemma AnyDueGrows(os: seq<Observation>, o: Observation)
    ensures AnyDue(os + [o], o.pod.name) <==> AnyDue(os, o.pod.name) || Due(o.pod)
  {
    var all := os + [o];
    assert all[|os|] == o;
    if k :| 0 <= k < |os| && os[k].pod.name == o.pod.name && Due(os[k].pod) { assert all[k] == os[k]; }
    if k :| 0 <= k < |all| && all[k].pod.name == o.pod.name && Due(all[k].pod) && k < |os| { assert all[k] == os[k]; }
  }

  lemma CachedFromGrows(phase: Phase, os: seq<Observation>, o: Observation, name: nat)
    requires CachedFrom(phase, os, name)
    ensures CachedFrom(phase, os + [o], name)
  {
    var k :| 0 <= k < |os| && os[k].pod.name == name && os[k].pod.Seen() == phase
             && (phase == Succeeded || phase == Failed ==> Due(os[k].pod));
    assert (os + [o])[k] == os[k];
  }

  /** Earlier events of the pod come before this one. */
  lemma EarlierIsForward(os: seq<Observation>, o: Observation)
    requires WellBehaved(os + [o], o.pod.name)
    ensures forall k | 0 <= k < |os| && os[k].pod.name == o.pod.name ::
      !os[k].deleted && Forward(os[k].pod.Seen(), o.pod.Seen())
    ensures o.pod.deadlineExceeded ==> o.pod.Seen() == Failed
  {
    var all := os + [o];
    assert all[|os|] == o && forall k | 0 <= k < |os| :: all[k] == os[k];
  }

  lemma OwnEventKnown(cell: Option<Phase>, os: seq<Observation>, o: Observation)
    requires WellBehaved(os + [o], o.pod.name) && CellFits(cell, os, o.pod.name)
    ensures Due(o.pod) ==> (cell == Some(o.pod.Seen()) <==> AnyDue(os, o.pod.name))
  {
    EarlierIsForward(os, o);
  }

  lemma OwnEventFits(cell: Option<Phase>, os: seq<Observation>, o: Observation)
    requires WellBehaved(os + [o], o.pod.name) && CellFits(cell, os, o.pod.name)
    ensures CellFits(CellAfter(cell, o), os + [o], o.pod.name)
  {
    var all, name := os + [o], o.pod.name;
    assert all[|os|] == o;
    EarlierIsForward(os, o);
    AnyDueGrows(os, o);
    if cell.Some? { CachedFromGrows(cell.value, os, o, name); }
    CellEndings(cell, o);
  }

  lemma OtherEventFits(cell: Option<Phase>, os: seq<Observation>, o: Observation, name: nat)
    requires CellFits(cell, os, name) && o.pod.name != name
    ensures AnyDue(os + [o], name) <==> AnyDue(os, name)
    ensures CellFits(cell, os + [o], name)
  {
    var all := os + [o];
    assert all[|os|] == o && forall k | 0 <= k < |os| :: all[k] == os[k];
    if cell.Some? {
      var k :| 0 <= k < |os| && os[k].pod.name == name && os[k].pod.Seen() == cell.value
               && (cell.value == Succeeded || cell.value == Failed ==> Due(os[k].pod));
      assert CachedFrom(cell.value, all, name) by { assert all[k] == os[k]; }
    }
    if k :| 0 <= k < |os| && os[k].pod.name == name && os[k].deleted { assert all[k] == os[k]; }
  }

  /**
    A well-behaved pod that is never evicted ends exactly once if any of its events shows a readable ending, and
    otherwise not at all. Its ending is the one that the first such event shows.
   */
  lemma OneEnding(bound: Option<nat>, os: seq<Observation>, name: nat)
    requires WellBehaved(os, name) && NeverEvicted(bound, os, name)
    ensures Endings(bound, os, name) == if AnyDue(os, name) then 1 else 0
    ensures EndingsOf(bound, os, name) == match FirstEnding(os, name) case None => [] case Some(e) => [e]
    ensures FirstEnding(os, name).Some? <==> AnyDue(os, name)
  {
    EndingsSoFar(bound, os, name);
    FirstEndingIsDue(os, name);
    FirstEndingComesOut(bound, os, name);
  }

  lemma {:induction false} FirstEndingIsDue(os: seq<Observation>, name: nat)
    ensures FirstEnding(os, name).Some? <==> AnyDue(os, name)
    decreases |os|
  {
    if os != [] {
      var earlier, o := os[..|os| - 1], os[|os| - 1];
      FirstEndingIsDue(earlier, name);
      if k :| 0 <= k < |earlier| && earlier[k].pod.name == name && Due(earlier[k].pod) { assert os[k] == earlier[k]; }
      if k :| 0 <= k < |os| && os[k].pod.name == name && Due(os[k].pod) && k < |earlier| { assert os[k] == earlier[k]; }
    }
  }

  lemma {:induction false} FirstEndingComesOut(bound: Option<nat>, os: seq<Observation>, name: nat)
    requires WellBehaved(os, name) && NeverEvicted(bound, os, name)
    ensures EndingsOf(bound, os, name) == match FirstEnding(os, name) case None => [] case Some(e) => [e]
    decreases |os|
  {
    hide WellBehaved, NeverEvicted, LastOutput, Due, KindOf;
    if os != [] {
      var n := |os| - 1;
      var earlier, o := os[..n], os[n];
      assert earlier + [o] == os;
      PrefixIsFine(bound, os, n, name);
      FirstEndingComesOut(bound, earlier, name);
      if o.pod.name == name { OwnEndingComesOut(bound, earlier, o); }
    }
  }

  /** The pod's next event ends it exactly if it is due and no earlier one was, and with the ending it shows. */
  lemma OwnEndingComesOut(bound: Option<nat>, earlier: seq<Observation>, o: Observation)
    requires WellBehaved(earlier + [o], o.pod.name) && NeverEvicted(bound, earlier, o.pod.name)
    ensures var output := LastOutput(bound, earlier + [o]);
      && (output.Raised? ==> !Due(o.pod))
      && (output.Events? ==>
            EndsOf(output.events) == if Due(o.pod) && FirstEnding(earlier, o.pod.name).None? then [KindOf(o.pod)] else [])
  {
    var all, name := earlier + [o], o.pod.name;
    assert all[..|earlier|] == earlier && all[|earlier|] == o;
    assert WellBehaved(earlier, name) by { assert forall k | 0 <= k < |earlier| :: all[k] == earlier[k]; }
    EndingsSoFar(bound, earlier, name);
    FirstEndingIsDue(earlier, name);
    LastIsCell(bound, all);
    var cell := Lookup(After(bound, earlier), name);
    OwnEventKnown(cell, earlier, o);
    CellEndings(cell, o);
    CellEndsOf(cell, o);
  }

  lemma {:induction false} EndingsSoFar(bound: Option<nat>, os: seq<Observation>, name: nat)
    requires WellBehaved(os, name) && NeverEvicted(bound, os, name)
    ensures Endings(bound, os, name) == if AnyDue(os, name) then 1 else 0
    ensures CellFits(Lookup(After(bound, os), name), os, name)
    decreases |os|
  {
    if os != [] {
      var n := |os| - 1;
      var earlier, o := os[..n], os[n];
      assert os == earlier + [o] && os[..n + 1] == os;
      PrefixIsFine(bound, os, n, name);
      EndingsSoFar(bound, earlier, name);
      AfterIsDistinct(bound, earlier);
      StepSpec(bound, After(bound, earlier), o, name);
      var cell := Lookup(After(bound, earlier), name);
      if o.pod.name == name {
        AnyDueGrows(earlier, o);
        OwnEventKnown(cell, earlier, o);
        OwnEventFits(cell, earlier, o);
        CellEndings(cell, o);
      } else {
        OtherEventFits(cell, earlier, o, name);
      }
    }
  }

  lemma PrefixIsFine(bound: Option<nat>, os: seq<Observation>, n: nat, name: nat)
    requires n <= |os| && WellBehaved(os, name) && NeverEvicted(bound, os, name)
    ensures WellBehaved(os[..n], name) && NeverEvicted(bound, os[..n], name)
  {
    assert forall k | 0 <= k <= n :: os[..n][..k] == os[..k];
  }

  // ---- the bounded cache against one that never evicts

  /** How a bounded cell may differ: it forgot the pod, or saw it running while the full cell still says pending. */
  predicate Related(bounded: Option<Phase>, full: Option<Phase>) {
    bounded.None? || bounded == full || (bounded == Some(Running) && full == Some(Pending))
  }

  /** Kubernetes reports an exceeded deadline only on a failed pod. */
  predicate DeadlineOnlyFailed(o: Observation) {
    o.pod.deadlineExceeded ==> o.pod.Seen() == Failed
  }

  lemma CellsStayRelated(bounded: Option<Phase>, full: Option<Phase>, o: Observation)
    requires Related(bounded, full) && DeadlineOnlyFailed(o)
    ensures Related(CellAfter(bounded, o), CellAfter(full, o))
    ensures bounded != Some(Running) || full != Some(Pending) ==>
      o.pod.Seen() != Running || o.pod.containers != [] ==>
      CellAfter(bounded, o).None? || CellAfter(bounded, o) == CellAfter(full, o)
  {
  }

  lemma {:induction false} CachesStayRelated(bound: nat, os: seq<Observation>, name: nat)
    requires forall k | 0 <= k < |os| :: DeadlineOnlyFailed(os[k])
    ensures Related(Lookup(After(Some(bound), os), name), Lookup(After(None, os), name))
    decreases |os|
  {
    if os != [] {
      var earlier, o := os[..|os| - 1], os[|os| - 1];
      CachesStayRelated(bound, earlier, name);
      AfterIsDistinct(Some(bound), earlier);
      AfterIsDistinct(None, earlier);
      StepSpec(Some(bound), After(Some(bound), earlier), o, name);
      StepSpec(None, After(None, earlier), o, name);
      CellsStayRelated(Lookup(After(Some(bound), earlier), name), Lookup(After(None, earlier), name), o);
    }
  }

  function Emitted(m: Mapped): seq<Event> { if m.Raised? then [] else m.events }

  /** An event the full cache puts out and the bounded one does not. */
  predicate Suppresses(bounded: Mapped, full: Mapped) {
    exists e | e in Emitted(full) :: e !in Emitted(bounded)
  }

  /**
    The pod was seen running where the full cache skipped that event and now reports it, or its deletion forgot an
    ending whose result does not parse when it is read again.
   */
  predicate LosesEvent(bounded: Option<Phase>, full: Option<Phase>, o: Observation) {
    && o.pod.hasId
    && (|| (bounded == Some(Running) && full == Some(Pending) && o.pod.Seen() == Running && o.pod.containers != [])
        || (bounded.None? && full == Some(o.pod.Seen()) && o.deleted && o.pod.MainTerminated()
            && MapPhase(o.pod, None).Raised?))
  }

  lemma CellSuppressesIff(bounded: Option<Phase>, full: Option<Phase>, o: Observation)
    requires Related(bounded, full) && DeadlineOnlyFailed(o)
    ensures Suppresses(CellOutput(bounded, o), CellOutput(full, o)) <==> LosesEvent(bounded, full, o)
  {
    var b, f := CellOutput(bounded, o), CellOutput(full, o);
    var p := o.pod;
    if p.hasId && bounded == Some(Running) && full == Some(Pending) && p.Seen() == Running {
      if p.containers != [] {
        assert Emitted(f)[0] == PodRunning && PodRunning !in Emitted(b);
      }
    } else if p.hasId && bounded.None? && full == Some(p.Seen()) && o.deleted && p.MainTerminated() {
      assert Emitted(f) == [PodTerminated];
      if MapPhase(p, None).Raised? {
        assert PodTerminated in Emitted(f);
      } else {
        assert b.events[|b.events| - 1] == PodTerminated;
      }
    }
  }

  /** The phase a cache of that bound holds for the pod of the last of a list of watch events. */
  function Prior(bound: Option<nat>, os: seq<Observation>): Option<Phase>
    requires os != []
  {
    Lookup(After(bound, os[..|os| - 1]), os[|os| - 1].pod.name)
  }

  lemma LastIsCell(bound: Option<nat>, os: seq<Observation>)
    requires os != []
    ensures LastOutput(bound, os) == CellOutput(Prior(bound, os), os[|os| - 1])
  {
    AfterIsDistinct(bound, os[..|os| - 1]);
    StepSpec(bound, After(bound, os[..|os| - 1]), os[|os| - 1], os[|os| - 1].pod.name);
  }

  /** Over any history, the bounded cache suppresses an event that the full one puts out exactly in these situations. */
  lemma SuppressesIff(bound: nat, os: seq<Observation>)
    requires os != [] && forall k | 0 <= k < |os| :: DeadlineOnlyFailed(os[k])
    ensures Suppresses(LastOutput(Some(bound), os), LastOutput(None, os))
            <==> LosesEvent(Prior(Some(bound), os), Prior(None, os), os[|os| - 1])
  {
    CachesStayRelated(bound, os[..|os| - 1], os[|os| - 1].pod.name);
    LastIsCell(Some(bound), os);
    LastIsCell(None, os);
    CellSuppressesIff(Prior(Some(bound), os), Prior(None, os), os[|os| - 1]);
  }

  /** Eviction never costs a completed, failed or timeout event. */
  lemma EndingNeverSuppressed(bound: nat, os: seq<Observation>, e: Event)
    requires os != [] && forall k | 0 <= k < |os| :: DeadlineOnlyFailed(os[k])
    requires Ends(e) && e in Emitted(LastOutput(None, os))
    ensures e in Emitted(LastOutput(Some(bound), os))
  {
    LastIsCell(Some(bound), os);
    LastIsCell(None, os);
    if e !in Emitted(LastOutput(Some(bound), os)) {
      assert Suppresses(LastOutput(Some(bound), os), LastOutput(None, os));
      SuppressesIff(bound, os);
    }
  }

  /** Over a history in which running pods report their containers and results parse, eviction only repeats events. */
  lemma {:induction false} EvictionOnlyRepeats(bound: nat, os: seq<Observation>)
    requires os != [] && forall k | 0 <= k < |os| :: DeadlineOnlyFailed(os[k])
    requires forall k | 0 <= k < |os| :: os[k].pod.Seen() == Running ==> os[k].pod.containers != []
    requires forall k | 0 <= k < |os| :: os[k].pod.MainTerminated() ==> os[k].pod.readable
    ensures !Suppresses(LastOutput(Some(bound), os), LastOutput(None, os))
  {
    ForgetsOnly(bound, os[..|os| - 1], os[|os| - 1].pod.name);
    SuppressesIff(bound, os);
  }

  lemma {:induction false} ForgetsOnly(bound: nat, os: seq<Observation>, name: nat)
    requires forall k | 0 <= k < |os| :: DeadlineOnlyFailed(os[k])
    requires forall k | 0 <= k < |os| :: os[k].pod.Seen() == Running ==> os[k].pod.containers != []
    ensures Lookup(After(Some(bound), os), name).None? || Lookup(After(Some(bound), os), name) == Lookup(After(None, os), name)
    decreases |os|
  {
    if os != [] {
      var earlier, o := os[..|os| - 1], os[|os| - 1];
      ForgetsOnly(bound, earlier, name);
      AfterIsDistinct(Some(bound), earlier);
      AfterIsDistinct(None, earlier);
      StepSpec(Some(bound), After(Some(bound), earlier), o, name);
      StepSpec(None, After(None, earlier), o, name);
      CellsStayRelated(Lookup(After(Some(bound), earlier), name), Lookup(After(None, earlier), name), o);
    }
  }

  // ---- what is put out, from the pod's own fields

  ghost predicate MainExited(p: Pod) { p.containers != [] && p.containers[0].Some? }

  /** The deadline was exceeded before every container exited with code 0. */
  ghost predicate RanOut(p: Pod) { p.deadlineExceeded && !AllExitedZero(p) }

  /** What an event of that kind needs, when prior is the phase cached for the pod. */
  ghost predicate Shows(o: Observation, prior: Option<Phase>, e: Event) {
    var p := o.pod;
    match e
    case TimedOut => prior != Some(p.phase) && RanOut(p)
    case Completed =>
      prior != Some(p.phase) && !RanOut(p)
      && ((p.phase == Succeeded && MainExited(p)) || (p.phase == Failed && AllExitedZero(p)))
    case FailedEvent => prior != Some(p.phase) && p.phase == Failed && !p.deadlineExceeded && !AllExitedZero(p)
    case PodScheduled => prior != Some(p.phase) && !RanOut(p) && p.phase == Pending && p.scheduled
    case PodRunning =>
      prior != Some(p.phase) && !RanOut(p) && p.phase == Running && (p.containers == [] ==> prior != Some(Pending))
    case PodTerminated => o.deleted && MainExited(p)
  }

  /** Reading the result of an ended pod for the first time in its phase fails. */
  ghost predicate Unreadable(p: Pod, prior: Option<Phase>) {
    prior != Some(p.phase) && MainExited(p) && !p.readable && (RanOut(p) || p.phase == Succeeded || p.phase == Failed)
  }

  lemma CellRaisesIff(prior: Option<Phase>, o: Observation)
    ensures CellOutput(prior, o).Raised? <==> o.pod.hasId && o.pod.hasStatus && Unreadable(o.pod, prior)
  {
    if o.pod.hasStatus { SucceededIsAllExitedZero(o.pod); }
  }

  lemma CellEmitsIff(prior: Option<Phase>, o: Observation, e: Event)
    requires !CellOutput(prior, o).Raised?
    ensures e in Emitted(CellOutput(prior, o)) <==> o.pod.hasId && o.pod.hasStatus && Shows(o, prior, e)
  {
    var p := o.pod;
    if p.hasStatus { SucceededIsAllExitedZero(p); }
  }

  lemma CellOrder(prior: Option<Phase>, o: Observation)
    ensures var events := Emitted(CellOutput(prior, o));
      |events| <= 2 && (|events| == 2 ==> events[0] != PodTerminated && events[1] == PodTerminated)
  {
  }

  /** Over any history: exactly when the last watch event raises, and exactly which events it is mapped to. */
  lemma EmitsIff(bound: Option<nat>, os: seq<Observation>, e: Event)
    requires os != []
    ensures var o, output := os[|os| - 1], LastOutput(bound, os); var prior := Prior(bound, os);
      && (output.Raised? <==> o.pod.hasId && o.pod.hasStatus && Unreadable(o.pod, prior))
      && (e in Emitted(output) <==> o.pod.hasId && o.pod.hasStatus && !Unreadable(o.pod, prior) && Shows(o, prior, e))
  {
    LastIsCell(bound, os);
    CellRaisesIff(Prior(bound, os), os[|os| - 1]);
    if !LastOutput(bound, os).Raised? { CellEmitsIff(Prior(bound, os), os[|os| - 1], e); }
  }

  /** They are one event at most, and then the termination. */
  lemma EmitsInOrder(bound: Option<nat>, os: seq<Observation>)
    requires os != []
    ensures var events := Emitted(LastOutput(bound, os));
      |events| <= 2 && (|events| == 2 ==> events[0] != PodTerminated && events[1] == PodTerminated)
  {
    LastIsCell(bound, os);
    CellOrder(Prior(bound, os), os[|os| - 1]);
  }

  // ---- without that assumption a running event can be lost

  function PendingPod(name: nat): Observation { Observation(Pod(name, true, true, Pending, false, true, [], true), false) }

  function RunningPod(name: nat, containers: seq<Option<int>>): Observation {
    Observation(Pod(name, true, true, Running, false, true, containers, true), false)
  }

  function Fill(n: nat): (os: seq<Observation>)
    ensures |os| == n
  {
    if n == 0 then [] else Fill(n - 1) + [PendingPod(n - 1)]
  }

  ghost predicate HoldsPending(cache: Cache, n: nat) {
    |cache| == n && forall i | 0 <= i < n :: cache[i] == Entry(i, Pending)
  }

  /** Pods 0 to n-1 become pending and fit the cache. */
  lemma {:induction false} FillCaches(bound: Option<nat>, n: nat)
    requires bound.Some? ==> n <= bound.value
    ensures HoldsPending(After(bound, Fill(n)), n)
  {
    if n > 0 {
      FillCaches(bound, n - 1);
      assert Fill(n)[..n - 1] == Fill(n - 1);
      PendingJoins(bound, After(bound, Fill(n - 1)), n - 1);
    }
  }

  lemma PendingJoins(bound: Option<nat>, cache: Cache, n: nat)
    requires HoldsPending(cache, n) && (bound.Some? ==> n < bound.value)
    ensures HoldsPending(MapPodEvent(bound, cache, PendingPod(n)).0, n + 1)
  {
    LookupIsMembership(cache, n);
    PutAppends(cache, n, Pending);
  }

  lemma {:induction false} PutAppends(cache: Cache, name: nat, phase: Phase)
    requires forall e | e in cache :: e.name != name
    ensures Put(cache, name, phase) == cache + [Entry(name, phase)]
  {
    if cache != [] {
      assert cache[0] in cache && forall e | e in cache[1..] :: e in cache;
      PutAppends(cache[1..], name, phase);
    }
  }

  /** The pod that no longer fits pushes pod 0 out of a bounded cache, and only there. */
  lemma OneMoreForgetsFirst(bound: nat)
    requires bound >= 2
    ensures Lookup(After(Some(bound), Fill(bound + 1)), 0) == None
    ensures Lookup(After(None, Fill(bound + 1)), 0) == Some(Pending)
  {
    FillCaches(None, bound + 1);
    LookupIsMembership(After(None, Fill(bound + 1)), 0);
    assert After(None, Fill(bound + 1))[0] == Entry(0, Pending);
    OneMoreForgetsOldestHalf(bound, 0);
  }

  /** It pushes out the older half of the pods, and no other. */
  lemma OneMoreForgetsOldestHalf(bound: nat, name: nat)
    requires bound >= 2 && name <= bound
    ensures Lookup(After(Some(bound), Fill(bound + 1)), name) == if name < bound / 2 then None else Some(Pending)
  {
    FillCaches(Some(bound), bound);
    assert Fill(bound + 1)[..bound] == Fill(bound);
    var cache := After(Some(bound), Fill(bound));
    LookupIsMembership(cache, bound);
    PutLookup(cache[bound / 2..], bound, Pending, name);
    if name < bound { KeptHalf(cache, bound, name); }
  }

  lemma KeptHalf(cache: Cache, bound: nat, name: nat)
    requires HoldsPending(cache, bound) && name < bound
    ensures Lookup(cache[bound / 2..], name) == if name < bound / 2 then None else Some(Pending)
  {
    var kept := cache[bound / 2..];
    LookupIsMembership(kept, name);
    if bound / 2 <= name { assert kept[name - bound / 2] == Entry(name, Pending); }
  }

  /** With the mapper's own bound, five thousand of ten thousand pods are forgotten. */
  lemma MapperForgetsOldestHalf(name: nat)
    requires name <= 10_000
    ensures Lookup(After(Some(MAX_CACHE_SIZE), Fill(10_000)), name) == if name < 10_000 then Some(Pending) else None
    ensures Lookup(After(Some(MAX_CACHE_SIZE), Fill(10_001)), name) == if name < 5_000 then None else Some(Pending)
  {
    OneMoreForgetsOldestHalf(MAX_CACHE_SIZE, name);
    FillCaches(Some(MAX_CACHE_SIZE), 10_000);
    var cache := After(Some(MAX_CACHE_SIZE), Fill(10_000));
    LookupIsMembership(cache, name);
    if name < 10_000 { assert cache[name] == Entry(name, Pending); }
  }

  /** A cell that skipped or took the first running event of pod 0 takes or skips the second. */
  lemma RunningTwice(bound: Option<nat>, os: seq<Observation>)
    requires Lookup(After(bound, os), 0) == None || Lookup(After(bound, os), 0) == Some(Pending)
    ensures LastOutput(bound, os + [RunningPod(0, []), RunningPod(0, [None])])
         == if Lookup(After(bound, os), 0) == None then NOTHING else One(PodRunning)
  {
    var one := os + [RunningPod(0, [])];
    var two := os + [RunningPod(0, []), RunningPod(0, [None])];
    assert two[..|two| - 1] == one && one[..|one| - 1] == os;
    AfterIsDistinct(bound, os);
    AfterIsDistinct(bound, one);
    StepSpec(bound, After(bound, os), RunningPod(0, []), 0);
    StepSpec(bound, After(bound, one), RunningPod(0, [None]), 0);
  }

  /**
    For every bound: once one more pod than fits becomes pending, pod 0 is forgotten. Its running event without
    containers is then put out, where a full cache skips it, and its next running event is suppressed, where a full
    cache puts it out.
   */
  lemma RunningCanBeSuppressed(bound: nat)
    requires bound >= 2
    ensures var os := Fill(bound + 1) + [RunningPod(0, []), RunningPod(0, [None])];
      LastOutput(Some(bound), os) == NOTHING && LastOutput(None, os) == One(PodRunning)
  {
    OneMoreForgetsFirst(bound);
    RunningTwice(Some(bound), Fill(bound + 1));
    RunningTwice(None, Fill(bound + 1));
  }

  // ---- the code itself

  class Mapper {
    var cache: Cache

    ghost predicate Valid() reads this { Distinct(cache) && |cache| <= MAX_CACHE_SIZE }

    constructor ()
      ensures Valid() && cache == After(Some(MAX_CACHE_SIZE), [])
    {
      cache := [];
    }

    method RememberPhase(name: nat, phase: Phase)
      requires Valid()
      modifies this
      ensures Valid()
      ensures cache == Remember(Some(MAX_CACHE_SIZE), old(cache), name, phase)
    {
      if |cache| >= MAX_CACHE_SIZE {
        var evicted := 0;
        while evicted < MAX_CACHE_SIZE / 2
          invariant evicted <= MAX_CACHE_SIZE / 2
          invariant cache == old(cache)[evicted..]
        {
          cache := cache[1..];
          evicted := evicted + 1;
        }
      }
      RememberShape(Some(MAX_CACHE_SIZE), old(cache), name, phase);
      cache := Put(cache, name, phase);
    }

    /** map_pod_event: one more event of the history the cache stands for. */
    method Map(o: Observation, ghost history: seq<Observation>) returns (mapped: Mapped)
      requires Valid() && cache == After(Some(MAX_CACHE_SIZE), history)
      modifies this
      ensures Valid() && cache == After(Some(MAX_CACHE_SIZE), history + [o])
      ensures mapped == LastOutput(Some(MAX_CACHE_SIZE), history + [o])
    {
      assert (history + [o])[..|history|] == history;
      DropShape(cache, o.pod.name);
      var prior := Lookup(cache, o.pod.name);
      if !o.pod.hasId { return NOTHING; }
      if !o.deleted && prior == Some(o.pod.Seen()) { return NOTHING; }
      if o.deleted {
        mapped := if prior == Some(o.pod.Seen()) then NOTHING else MapPhase(o.pod, prior);
        if mapped.Raised? { return; }
        if o.pod.MainTerminated() { mapped := Events(mapped.events + [PodTerminated]); }
        cache := Drop(cache, o.pod.name);
        return;
      }
      mapped := MapPhase(o.pod, prior);
      if mapped.Events? && mapped.events != [] { RememberPhase(o.pod.name, o.pod.Seen()); }
    }
  }
}

/**
  Event-sourced user settings of one user: reads rebuild from the latest snapshot and the events after it
  (user_settings_service.py, user_settings_repository.py).

  One writer, and event timestamps that strictly increase. Setting values are opaque.
 */
module UserSettings {
  import opened Options

  datatype Field = Theme | Timezone | DateFormat | TimeFormat | Notifications | Editor | CustomSettings

  type Value = string
  type Prefs = map<Field, Value>

  const SNAPSHOT_EVERY: nat := 10

  /** changes is empty for the event that marks a restore. */
  datatype Event = Event(timestamp: real, changes: Prefs)

  datatype Doc = Doc(prefs: Prefs, updatedAt: real, version: nat)

  datatype Store = Store(events: seq<Event>, snapshot: Option<Doc>)

  // ---- the code's reads and writes

  /** The first n stored events after since and up to until. */
  function Select(events: seq<Event>, n: nat, since: Option<real>, until: Option<real>): seq<Event>
    requires n <= |events|
  {
    if n == 0 then []
    else
      var rest := Select(events, n - 1, since, until);
      var t := events[n - 1].timestamp;
      if (since.Some? && t <= since.value) || (until.Some? && t > until.value) then rest else rest + [events[n - 1]]
  }

  function Events(events: seq<Event>, since: Option<real>, until: Option<real>): seq<Event> {
    Select(events, |events|, since, until)
  }

  /** _apply_event. */
  function Applied(doc: Doc, e: Event): Doc { Doc(doc.prefs + e.changes, e.timestamp, doc.version) }

  function AppliedTo(doc: Doc, events: seq<Event>, n: nat): Doc
    requires n <= |events|
  {
    if n == 0 then doc else Applied(AppliedTo(doc, events, n - 1), events[n - 1])
  }

  function AppliedAll(doc: Doc, events: seq<Event>): Doc { AppliedTo(doc, events, |events|) }

  /** What a read folds: the events after the snapshot. */
  function Unfolded(s: Store): seq<Event> {
    Events(s.events, if s.snapshot.Some? then Some(s.snapshot.value.updatedAt) else None, None)
  }

  function Base(s: Store, defaults: Prefs, now: real): Doc {
    if s.snapshot.Some? then s.snapshot.value else Doc(defaults, now, 1)
  }

  /** get_user_settings. */
  function Get(s: Store, defaults: Prefs, now: real): Doc { AppliedAll(Base(s, defaults, now), Unfolded(s)) }

  /** update_user_settings with a change, whose event gets the timestamp now. */
  function Updated(s: Store, defaults: Prefs, changes: Prefs, now: real): (Store, Doc) {
    var e := Event(now, changes);
    var applied := Applied(Get(s, defaults, now), e);
    var current := applied.(version := applied.version + 1);
    var stored := s.(events := s.events + [e]);
    (if |Unfolded(stored)| >= SNAPSHOT_EVERY then stored.(snapshot := Some(current)) else stored, current)
  }

  /** restore_settings_to_point, whose marker event gets the timestamp now. */
  function Restored(s: Store, defaults: Prefs, until: real, now: real): (Store, Doc) {
    var settings := AppliedAll(Doc(defaults, now, 1), Events(s.events, None, Some(until))).(updatedAt := now);
    (Store(s.events + [Event(now, map[])], Some(settings)), settings)
  }

  // ---- operations and their plain meaning

  /** Snapshot is one the code does not take, at any moment when something is stored. */
  datatype Op = Update(changes: Prefs, at: real) | Restore(until: real, at: real) | Snapshot(at: real)

  datatype History = Start | Then(before: History, op: Op)

  /** Later operations have later timestamps. */
  predicate Ordered(h: History) {
    h.Then? ==> (h.before.Then? ==> h.before.op.at < h.op.at) && Ordered(h.before)
  }

  function Do(s: Store, defaults: Prefs, op: Op): Store {
    match op
    case Update(changes, at) => if changes == map[] then s else Updated(s, defaults, changes, at).0
    case Restore(until, at) => Restored(s, defaults, until, at).0
    case Snapshot(at) => if s.events == [] then s else s.(snapshot := Some(Get(s, defaults, at)))
  }

  /** The stored state after a history. */
  function After(h: History, defaults: Prefs): Store {
    if h.Start? then Store([], None) else Do(After(h.before, defaults), defaults, h.op)
  }

  /** The same events and the current settings, kept without any snapshot. */
  datatype Plain = Plain(events: seq<Event>, prefs: Prefs)

  function DefaultsAnd(defaults: Prefs, events: seq<Event>): Prefs { AppliedAll(Doc(defaults, 0.0, 1), events).prefs }

  function Meaning(h: History, defaults: Prefs): Plain {
    if h.Start? then Plain([], defaults)
    else
      var p := Meaning(h.before, defaults);
      match h.op
      case Update(changes, at) => if changes == map[] then p else Plain(p.events + [Event(at, changes)], p.prefs + changes)
      case Restore(until, at) =>
        Plain(p.events + [Event(at, map[])], DefaultsAnd(defaults, Events(p.events, None, Some(until))))
      case Snapshot(_) => p
  }

  lemma {:induction false} SelectPrefix(events: seq<Event>, e: Event, n: nat, since: Option<real>, until: Option<real>)
    requires n <= |events|
    ensures Select(events + [e], n, since, until) == Select(events, n, since, until)
  {
    if n > 0 { SelectPrefix(events, e, n - 1, since, until); }
  }

  lemma {:induction false} AppliedPrefix(doc: Doc, events: seq<Event>, e: Event, n: nat)
    requires n <= |events|
    ensures AppliedTo(doc, events + [e], n) == AppliedTo(doc, events, n)
  {
    if n > 0 { AppliedPrefix(doc, events, e, n - 1); }
  }

  lemma EventsAppend(events: seq<Event>, e: Event, since: Option<real>)
    requires since.Some? ==> e.timestamp > since.value
    ensures Events(events + [e], since, None) == Events(events, since, None) + [e]
  {
    SelectPrefix(events, e, |events|, since, None);
  }

  lemma AppliedAppend(doc: Doc, events: seq<Event>, e: Event)
    ensures AppliedAll(doc, events + [e]) == Applied(AppliedAll(doc, events), e)
  {
    AppliedPrefix(doc, events, e, |events|);
  }

  ghost predicate AllUpTo(events: seq<Event>, t: real) { forall i :: 0 <= i < |events| ==> events[i].timestamp <= t }

  lemma {:induction false} NoneSelected(events: seq<Event>, n: nat, t: real)
    requires n <= |events| && forall i :: 0 <= i < n ==> events[i].timestamp <= t
    ensures Select(events, n, Some(t), None) == []
  {
    if n > 0 { NoneSelected(events, n - 1, t); }
  }

  lemma {:induction false} AppliedIgnoresTime(p: Prefs, t: real, u: real, version: nat, v: nat, events: seq<Event>, n: nat)
    requires n <= |events|
    ensures AppliedTo(Doc(p, t, version), events, n).prefs == AppliedTo(Doc(p, u, v), events, n).prefs
  {
    if n > 0 { AppliedIgnoresTime(p, t, u, version, v, events, n - 1); }
  }

  // ---- what every operation keeps

  /** Everything stored is from before the next operation, and the fold of a read dates from the newest event. */
  ghost predicate Good(s: Store, last: real) {
    && AllUpTo(s.events, last)
    && (s.snapshot.Some? ==> s.snapshot.value.updatedAt <= last && s.events != [])
    && |Unfolded(s)| < SNAPSHOT_EVERY
  }

  /** A read agrees with the plain meaning, and its updated_at is the newest event's timestamp. */
  ghost predicate Agrees(s: Store, defaults: Prefs, p: Plain, now: real) {
    && s.events == p.events && Get(s, defaults, now).prefs == p.prefs
    && (s.events != [] ==> AllUpTo(s.events, Get(s, defaults, now).updatedAt)
                           && Get(s, defaults, now).updatedAt == s.events[|s.events| - 1].timestamp)
  }

  /** Publishing one more event makes a read apply it too. */
  lemma GetAppends(s: Store, defaults: Prefs, e: Event, now: real)
    requires s.snapshot.Some? ==> s.snapshot.value.updatedAt < e.timestamp
    ensures var stored := s.(events := s.events + [e]);
      && Unfolded(stored) == Unfolded(s) + [e]
      && Get(stored, defaults, now) == Applied(Get(s, defaults, now), e)
  {
    EventsAppend(s.events, e, if s.snapshot.Some? then Some(s.snapshot.value.updatedAt) else None);
    AppliedAppend(Base(s, defaults, now), Unfolded(s), e);
  }

  /** A snapshot at least as new as every event is what a read returns. */
  lemma GetSnapshot(events: seq<Event>, doc: Doc, defaults: Prefs, now: real)
    requires AllUpTo(events, doc.updatedAt)
    ensures Unfolded(Store(events, Some(doc))) == [] && Get(Store(events, Some(doc)), defaults, now) == doc
  {
    NoneSelected(events, |events|, doc.updatedAt);
  }

  lemma GetIgnoresNow(s: Store, defaults: Prefs, t: real, now: real)
    ensures Get(s, defaults, t).prefs == Get(s, defaults, now).prefs
  {
    AppliedIgnoresTime(defaults, t, now, 1, 1, Unfolded(s), |Unfolded(s)|);
  }

  lemma UpdateKeeps(s: Store, defaults: Prefs, changes: Prefs, p: Plain, last: real, at: real, now: real)
    requires Good(s, last) && last < at && Agrees(s, defaults, p, now)
    ensures var r := Updated(s, defaults, changes, at);
      && Good(r.0, at) && r.1.prefs == p.prefs + changes
      && Agrees(r.0, defaults, Plain(p.events + [Event(at, changes)], p.prefs + changes), now)
  {
    var e := Event(at, changes);
    GetAppends(s, defaults, e, now);
    GetIgnoresNow(s, defaults, at, now);
    GetSnapshot(s.events + [e], Updated(s, defaults, changes, at).1, defaults, now);
  }

  lemma RestoreKeeps(s: Store, defaults: Prefs, until: real, p: Plain, last: real, at: real, now: real)
    requires Good(s, last) && last < at && Agrees(s, defaults, p, now)
    ensures var r := Restored(s, defaults, until, at); var prefs := DefaultsAnd(defaults, Events(p.events, None, Some(until)));
      && Good(r.0, at) && r.1.prefs == prefs
      && Agrees(r.0, defaults, Plain(p.events + [Event(at, map[])], prefs), now)
  {
    var folded := Events(s.events, None, Some(until));
    AppliedIgnoresTime(defaults, at, 0.0, 1, 1, folded, |folded|);
    GetSnapshot(s.events + [Event(at, map[])], Restored(s, defaults, until, at).1, defaults, now);
  }

  lemma SnapshotKeeps(s: Store, defaults: Prefs, p: Plain, last: real, at: real, now: real)
    requires Good(s, last) && last < at && Agrees(s, defaults, p, now) && Agrees(s, defaults, p, at) && s.events != []
    ensures var r := s.(snapshot := Some(Get(s, defaults, at))); Good(r, at) && Agrees(r, defaults, p, now)
  {
    GetSnapshot(s.events, Get(s, defaults, at), defaults, now);
  }

  lemma {:induction false} HistoryKeeps(h: History, defaults: Prefs, now: real)
    requires Ordered(h)
    ensures h.Then? ==> Good(After(h, defaults), h.op.at)
    ensures Agrees(After(h, defaults), defaults, Meaning(h, defaults), now)
  {
    if h.Then? {
      var s, p := After(h.before, defaults), Meaning(h.before, defaults);
      var last := if h.before.Then? then h.before.op.at else h.op.at - 1.0;
      HistoryKeeps(h.before, defaults, now);
      match h.op
      case Update(changes, at) => if changes != map[] { UpdateKeeps(s, defaults, changes, p, last, at, now); }
      case Restore(until, at) => RestoreKeeps(s, defaults, until, p, last, at, now);
      case Snapshot(at) =>
        HistoryKeeps(h.before, defaults, at);
        if s.events != [] { SnapshotKeeps(s, defaults, p, last, at, now); }
    }
  }

  // ---- main results

  /**
    Snapshot plus later events agrees with the plain meaning after any history of updates and restores, wherever
    snapshots are taken.
   */
  lemma ReadsAgree(h: History, defaults: Prefs, now: real)
    requires Ordered(h)
    ensures Get(After(h, defaults), defaults, now).prefs == Meaning(h, defaults).prefs
    ensures After(h, defaults).events == Meaning(h, defaults).events
  {
    HistoryKeeps(h, defaults, now);
  }

  /** A read never folds more than nine events, as the tenth event since a snapshot takes the next one. */
  lemma ReadsFoldAtMostNine(h: History, defaults: Prefs)
    requires Ordered(h)
    ensures |Unfolded(After(h, defaults))| <= 9
  {
    HistoryKeeps(h, defaults, 0.0);
  }

  /** An update stores one event, is one version newer than what it read, and takes a snapshot exactly as the tenth. */
  lemma SnapshotIsTheTenth(h: History, defaults: Prefs, changes: Prefs, at: real)
    requires Ordered(Then(h, Update(changes, at)))
    ensures var s := After(h, defaults); var (stored, doc) := Updated(s, defaults, changes, at);
      && stored.events == s.events + [Event(at, changes)]
      && doc.version == Get(s, defaults, at).version + 1 && doc.updatedAt == at
      && stored.snapshot == if |Unfolded(s)| == 9 then Some(doc) else s.snapshot
  {
    var s := After(h, defaults);
    HistoryKeeps(h, defaults, at);
    if h.Start? { assert Unfolded(s) == [] && s.snapshot == None; }
    GetAppends(s, defaults, Event(at, changes), at);
  }

  /** A history without the snapshots that the code does not take. */
  function Without(h: History): History {
    match h
    case Start => Start
    case Then(before, op) => if op.Snapshot? then Without(before) else Then(Without(before), op)
  }

  lemma {:induction false} WithoutMeansTheSame(h: History, defaults: Prefs)
    requires Ordered(h)
    ensures Meaning(Without(h), defaults) == Meaning(h, defaults)
    ensures Ordered(Without(h)) && (Without(h).Then? ==> h.Then? && Without(h).op.at <= h.op.at)
  {
    if h.Then? { WithoutMeansTheSame(h.before, defaults); }
  }

  /** Taking more snapshots changes no read: neither the settings nor, once there is an event, their updated_at. */
  lemma SnapshotsAreInvisible(h: History, defaults: Prefs, now: real)
    requires Ordered(h)
    ensures var a, b := Get(After(h, defaults), defaults, now), Get(After(Without(h), defaults), defaults, now);
      a.prefs == b.prefs && a.updatedAt == b.updatedAt
  {
    WithoutMeansTheSame(h, defaults);
    HistoryKeeps(h, defaults, now);
    HistoryKeeps(Without(h), defaults, now);
  }

  // ---- what restoring to a time gives back

  /** The operations up to a time. */
  function Before(h: History, t: real): History {
    if h.Start? || h.op.at <= t then h else Before(h.before, t)
  }

  ghost predicate Increasing(events: seq<Event>) {
    forall i, j :: 0 <= i < j < |events| ==> events[i].timestamp < events[j].timestamp
  }

  lemma {:induction false} MeaningIsDated(h: History, defaults: Prefs)
    requires Ordered(h)
    ensures Increasing(Meaning(h, defaults).events)
    ensures if h.Start? then Meaning(h, defaults).events == [] else AllUpTo(Meaning(h, defaults).events, h.op.at)
  {
    if h.Then? { MeaningIsDated(h.before, defaults); }
  }

  lemma {:induction false} AllSelected(events: seq<Event>, n: nat, t: real)
    requires n <= |events| && AllUpTo(events, t)
    ensures Select(events, n, None, Some(t)) == events[..n]
  {
    if n > 0 { AllSelected(events, n - 1, t); }
  }

  /** The events that a restore to a time folds are those of the operations up to it. */
  lemma {:induction false} RestoreFoldsBefore(h: History, defaults: Prefs, t: real)
    requires Ordered(h)
    ensures Events(Meaning(h, defaults).events, None, Some(t)) == Meaning(Before(h, t), defaults).events
  {
    if h.Then? && h.op.at <= t {
      MeaningIsDated(h, defaults);
      AllSelected(Meaning(h, defaults).events, |Meaning(h, defaults).events|, t);
    } else if h.Then? {
      RestoreFoldsBefore(h.before, defaults, t);
      MeaningAppends(h, defaults);
      var earlier := Meaning(h.before, defaults).events;
      if changes :| Meaning(h, defaults).events == earlier + [Event(h.op.at, changes)] {
        SelectPrefix(earlier, Event(h.op.at, changes), |earlier|, None, Some(t));
      }
    }
  }

  /** An operation publishes one event at its time, or none. */
  lemma MeaningAppends(h: History, defaults: Prefs)
    requires h.Then?
    ensures var earlier, events := Meaning(h.before, defaults).events, Meaning(h, defaults).events;
      events == earlier || exists changes :: events == earlier + [Event(h.op.at, changes)]
  {
  }

  /** The last value each field was given. */
  function Merged(events: seq<Event>, n: nat): Prefs
    requires n <= |events|
  {
    if n == 0 then map[] else Merged(events, n - 1) + events[n - 1].changes
  }

  lemma {:induction false} AppliedIsMerged(doc: Doc, events: seq<Event>, n: nat)
    requires n <= |events|
    ensures AppliedTo(doc, events, n).prefs == doc.prefs + Merged(events, n)
  {
    if n > 0 { AppliedIsMerged(doc, events, n - 1); }
  }

  lemma {:induction false} MergedPrefix(events: seq<Event>, e: Event, n: nat)
    requires n <= |events|
    ensures Merged(events + [e], n) == Merged(events, n)
  {
    if n > 0 { MergedPrefix(events, e, n - 1); }
  }

  function MergedAll(events: seq<Event>): Prefs { Merged(events, |events|) }

  lemma MergedAppend(events: seq<Event>, e: Event)
    ensures MergedAll(events + [e]) == MergedAll(events) + e.changes
  {
    MergedPrefix(events, e, |events|);
  }

  lemma MergeAssociates(a: Prefs, b: Prefs, c: Prefs)
    ensures (a + b) + c == a + (b + c)
    ensures a + map[] == a && map[] + a == a
  {
  }

  /** The events up to a time, then the later ones, set the same as all of them. */
  lemma {:induction false} MergedSplits(events: seq<Event>, n: nat, t: real)
    requires n <= |events| && Increasing(events)
    ensures Merged(events, n) == MergedAll(Select(events, n, None, Some(t))) + MergedAll(Select(events, n, Some(t), None))
  {
    if n > 0 {
      var e := events[n - 1];
      var upTo, since := Select(events, n - 1, None, Some(t)), Select(events, n - 1, Some(t), None);
      MergedSplits(events, n - 1, t);
      if e.timestamp <= t {
        NoneSelected(events, n - 1, t);
        MergedAppend(upTo, e);
        MergeAssociates(MergedAll(upTo), e.changes, map[]);
      } else {
        MergedAppend(since, e);
        MergeAssociates(MergedAll(upTo), MergedAll(since), e.changes);
      }
    }
  }

  /** The settings right after the last restore, or the defaults. */
  function Kept(h: History, defaults: Prefs): Prefs {
    if h.Start? then defaults else if h.op.Restore? then Meaning(h, defaults).prefs else Kept(h.before, defaults)
  }

  /** What the last restore undid: the fields set after the time it restored to. */
  function Undone(h: History, defaults: Prefs): Prefs {
    if h.Start? then map[]
    else if h.op.Restore? then MergedAll(Events(Meaning(h.before, defaults).events, Some(h.op.until), None))
    else Undone(h.before, defaults)
  }

  /** The fields set since the last restore. */
  function SetSince(h: History): Prefs {
    if h.Start? || h.op.Restore? then map[]
    else if h.op.Update? then SetSince(h.before) + h.op.changes
    else SetSince(h.before)
  }

  lemma DefaultsAndAppend(defaults: Prefs, events: seq<Event>, e: Event)
    ensures DefaultsAnd(defaults, events + [e]) == DefaultsAnd(defaults, events) + e.changes
  {
    AppliedAppend(Doc(defaults, 0.0, 1), events, e);
  }

  /** What a fold of all events has beyond a fold of those up to a time. */
  lemma DefaultsAndSplits(defaults: Prefs, events: seq<Event>, t: real)
    requires Increasing(events)
    ensures DefaultsAnd(defaults, events)
            == DefaultsAnd(defaults, Events(events, None, Some(t))) + MergedAll(Events(events, Some(t), None))
  {
    var doc, upTo := Doc(defaults, 0.0, 1), Events(events, None, Some(t));
    AppliedIsMerged(doc, events, |events|);
    AppliedIsMerged(doc, upTo, |upTo|);
    MergedSplits(events, |events|, t);
    MergeAssociates(defaults, MergedAll(upTo), MergedAll(Events(events, Some(t), None)));
  }

  lemma {:induction false} FoldKeepsUndone(h: History, defaults: Prefs)
    requires Ordered(h)
    ensures Meaning(h, defaults).prefs == Kept(h, defaults) + SetSince(h)
    ensures DefaultsAnd(defaults, Meaning(h, defaults).events) == (Kept(h, defaults) + Undone(h, defaults)) + SetSince(h)
  {
    if h.Then? {
      var before := h.before;
      var events := Meaning(before, defaults).events;
      FoldKeepsUndone(before, defaults);
      match h.op
      case Update(changes, at) => UpdateKeepsUndone(h, defaults);
      case Restore(until, at) =>
        MeaningIsDated(before, defaults);
        DefaultsAndAppend(defaults, events, Event(at, map[]));
        DefaultsAndSplits(defaults, events, until);
        MergeAssociates(Kept(h, defaults), Undone(h, defaults), map[]);
        MergeAssociates(DefaultsAnd(defaults, events), map[], map[]);
      case Snapshot(_) =>
    }
  }

  lemma UpdateKeepsUndone(h: History, defaults: Prefs)
    requires h.Then? && h.op.Update?
    requires Meaning(h.before, defaults).prefs == Kept(h.before, defaults) + SetSince(h.before)
    requires DefaultsAnd(defaults, Meaning(h.before, defaults).events)
             == (Kept(h.before, defaults) + Undone(h.before, defaults)) + SetSince(h.before)
    ensures Meaning(h, defaults).prefs == Kept(h, defaults) + SetSince(h)
    ensures DefaultsAnd(defaults, Meaning(h, defaults).events) == (Kept(h, defaults) + Undone(h, defaults)) + SetSince(h)
  {
    var kept, undone, since := Kept(h.before, defaults), Undone(h.before, defaults), SetSince(h.before);
    DefaultsAndAppend(defaults, Meaning(h.before, defaults).events, Event(h.op.at, h.op.changes));
    MergeAssociates(kept, since, h.op.changes);
    MergeAssociates(kept + undone, since, h.op.changes);
    MergeAssociates(since, map[], map[]);
  }

  /**
    Restoring to a time gives back the settings of that time exactly when every field that the last restore before it
    had undone was set again since, or had been set to the same value.
   */
  lemma RestoreReproducesIff(h: History, defaults: Prefs, t: real, at: real)
    requires Ordered(h) && (h.Then? ==> h.op.at < at)
    ensures var b := Before(h, t);
      Restored(After(h, defaults), defaults, t, at).1.prefs == Meaning(b, defaults).prefs
      <==> forall f :: f in Undone(b, defaults) ==>
             f in SetSince(b) || (f in Kept(b, defaults) && Kept(b, defaults)[f] == Undone(b, defaults)[f])
  {
    var b := Before(h, t);
    BeforeIsOrdered(h, t);
    HistoryKeeps(h, defaults, at);
    RestoreFoldsBefore(h, defaults, t);
    FoldKeepsUndone(b, defaults);
    var events := Meaning(b, defaults).events;
    AppliedIgnoresTime(defaults, at, 0.0, 1, 1, events, |events|);
    SameUnlessUndone(Kept(b, defaults), Undone(b, defaults), SetSince(b));
  }

  lemma {:induction false} BeforeIsOrdered(h: History, t: real)
    requires Ordered(h)
    ensures Ordered(Before(h, t))
  {
    if h.Then? { BeforeIsOrdered(h.before, t); }
  }

  lemma SameUnlessUndone(kept: Prefs, undone: Prefs, since: Prefs)
    ensures (kept + undone) + since == kept + since
            <==> forall f :: f in undone ==> f in since || (f in kept && kept[f] == undone[f])
  {
    var left, right := (kept + undone) + since, kept + since;
    if f :| f in undone && f !in since && !(f in kept && kept[f] == undone[f]) {
      assert f in left && left[f] == undone[f];
      assert f in right ==> right[f] == kept[f];
    } else {
      forall f | f in left ensures f in right && left[f] == right[f] {}
    }
  }

  predicate HasRestore(h: History) { h.Then? && (h.op.Restore? || HasRestore(h.before)) }

  lemma {:induction false} NoRestoreUndoesNothing(h: History, defaults: Prefs)
    requires !HasRestore(h)
    ensures Undone(h, defaults) == map[]
  {
    if h.Then? { NoRestoreUndoesNothing(h.before, defaults); }
  }

  /** Without an earlier restore, restoring to a time gives back its settings. */
  lemma FirstRestoreReproduces(h: History, defaults: Prefs, t: real, at: real)
    requires Ordered(h) && (h.Then? ==> h.op.at < at) && !HasRestore(Before(h, t))
    ensures Restored(After(h, defaults), defaults, t, at).1.prefs == Meaning(Before(h, t), defaults).prefs
  {
    NoRestoreUndoesNothing(Before(h, t), defaults);
    RestoreReproducesIff(h, defaults, t, at);
  }

  // ---- the code itself

  ghost predicate Full(p: Prefs) { forall f: Field :: f in p }

  /** The value of a field after an event. */
  function Chosen(value: Value, changes: Prefs, f: Field): Value { if f in changes then changes[f] else value }

  /** The settings document, whose fields _apply_event sets in place. */
  class Settings {
    var theme: Value
    var timezone: Value
    var dateFormat: Value
    var timeFormat: Value
    var notifications: Value
    var editor: Value
    var customSettings: Value
    var updatedAt: real
    var version: nat

    constructor (doc: Doc)
      requires Full(doc.prefs)
      ensures Document() == doc
    {
      theme, timezone, dateFormat, timeFormat := doc.prefs[Theme], doc.prefs[Timezone], doc.prefs[DateFormat], doc.prefs[TimeFormat];
      notifications, editor, customSettings := doc.prefs[Notifications], doc.prefs[Editor], doc.prefs[CustomSettings];
      updatedAt, version := doc.updatedAt, doc.version;
      new;
      assert forall f: Field :: At(f) == doc.prefs[f];
      assert Document().prefs == doc.prefs;
    }

    function At(f: Field): Value
      reads this
    {
      match f
      case Theme => theme
      case Timezone => timezone
      case DateFormat => dateFormat
      case TimeFormat => timeFormat
      case Notifications => notifications
      case Editor => editor
      case CustomSettings => customSettings
    }

    function Document(): (doc: Doc)
      reads this
      ensures Full(doc.prefs)
    {
      Doc(map f: Field | true :: At(f), updatedAt, version)
    }

    method ApplyEvent(e: Event)
      modifies this
      ensures Document() == Applied(old(Document()), e)
    {
      SetFormats(e.changes);
      SetGroups(e.changes);
      updatedAt := e.timestamp;
      forall f: Field ensures At(f) == Chosen(old(At(f)), e.changes, f) {
        match f
        case Theme => case Timezone => case DateFormat => case TimeFormat =>
        case Notifications => case Editor => case CustomSettings =>
      }
      assert Document().prefs == old(Document()).prefs + e.changes;
    }

    method Date(now: real)
      modifies this`updatedAt
      ensures Document() == old(Document()).(updatedAt := now)
    {
      updatedAt := now;
      assert Document().prefs == old(Document()).prefs;
    }

    method NextVersion()
      modifies this`version
      ensures var doc := old(Document()); Document() == doc.(version := doc.version + 1)
    {
      version := version + 1;
      assert Document().prefs == old(Document()).prefs;
    }

    method SetFormats(changes: Prefs)
      modifies `theme, `timezone, `dateFormat, `timeFormat
      ensures theme == Chosen(old(theme), changes, Theme) && timezone == Chosen(old(timezone), changes, Timezone)
      ensures dateFormat == Chosen(old(dateFormat), changes, DateFormat) && timeFormat == Chosen(old(timeFormat), changes, TimeFormat)
    {
      if Theme in changes { theme := changes[Theme]; }
      if Timezone in changes { timezone := changes[Timezone]; }
      if DateFormat in changes { dateFormat := changes[DateFormat]; }
      if TimeFormat in changes { timeFormat := changes[TimeFormat]; }
    }

    method SetGroups(changes: Prefs)
      modifies `notifications, `editor, `customSettings
      ensures notifications == Chosen(old(notifications), changes, Notifications) && editor == Chosen(old(editor), changes, Editor)
      ensures customSettings == Chosen(old(customSettings), changes, CustomSettings)
    {
      if Notifications in changes { notifications := changes[Notifications]; }
      if Editor in changes { editor := changes[Editor]; }
      if CustomSettings in changes { customSettings := changes[CustomSettings]; }
    }
  }

  class UserSettingsService {
    var events: seq<Event>
    var snapshot: Option<Doc>
    const defaults: Prefs

    constructor (defaults: Prefs)
      requires Full(defaults)
      ensures Valid() && State() == Store([], None) && this.defaults == defaults
    {
      events, snapshot, this.defaults := [], None, defaults;
    }

    ghost predicate Valid()
      reads this
    {
      Full(defaults) && (snapshot.Some? ==> Full(snapshot.value.prefs))
    }

    function State(): Store
      reads this
    {
      Store(events, snapshot)
    }

    /** The repository's query. */
    method GetSettingsEvents(since: Option<real>, until: Option<real>) returns (found: seq<Event>)
      ensures found == Events(events, since, until)
    {
      found := [];
      for i := 0 to |events|
        invariant found == Select(events, i, since, until)
      {
        var t := events[i].timestamp;
        if (since.None? || t > since.value) && (until.None? || t <= until.value) { found := found + [events[i]]; }
      }
    }

    method Replay(settings: Settings, replayed: seq<Event>)
      modifies settings
      ensures settings.Document() == AppliedAll(old(settings.Document()), replayed)
    {
      for i := 0 to |replayed|
        invariant settings.Document() == AppliedTo(old(settings.Document()), replayed, i)
      {
        settings.ApplyEvent(replayed[i]);
      }
    }

    method GetUserSettings(now: real) returns (settings: Settings)
      requires Valid()
      ensures fresh(settings) && settings.Document() == Get(State(), defaults, now)
    {
      var later: seq<Event>;
      if snapshot.Some? {
        settings := new Settings(snapshot.value);
        later := GetSettingsEvents(Some(snapshot.value.updatedAt), None);
      } else {
        settings := new Settings(Doc(defaults, now, 1));
        later := GetSettingsEvents(None, None);
      }
      Replay(settings, later);
    }

    /** count_events_since_snapshot, and create_snapshot when they are ten. */
    method SnapshotIfDue(current: Settings)
      requires Valid()
      modifies this`snapshot
      ensures Valid() && snapshot == if |Unfolded(old(State()))| >= SNAPSHOT_EVERY then Some(current.Document()) else old(snapshot)
    {
      var later := GetSettingsEvents(if snapshot.Some? then Some(snapshot.value.updatedAt) else None, None);
      if |later| >= SNAPSHOT_EVERY { snapshot := Some(current.Document()); }
    }

    method UpdateUserSettings(changes: Prefs, now: real) returns (current: Settings)
      requires Valid()
      modifies this
      ensures Valid() && State() == Do(old(State()), defaults, Update(changes, now)) && fresh(current)
      ensures current.Document() == if changes == map[] then Get(old(State()), defaults, now)
                                    else Updated(old(State()), defaults, changes, now).1
    {
      current := GetUserSettings(now);
      if changes == map[] { return; }
      var e := Event(now, changes);
      events := events + [e];
      current.ApplyEvent(e);
      current.NextVersion();
      SnapshotIfDue(current);
    }

    method RestoreSettingsToPoint(until: real, now: real) returns (settings: Settings)
      requires Valid()
      modifies this
      ensures Valid() && State() == Do(old(State()), defaults, Restore(until, now)) && fresh(settings)
      ensures settings.Document() == Restored(old(State()), defaults, until, now).1
    {
      var earlier := GetSettingsEvents(None, Some(until));
      settings := new Settings(Doc(defaults, now, 1));
      Replay(settings, earlier);
      settings.Date(now);
      snapshot := Some(settings.Document());
      events := events + [Event(now, map[])];
    }
  }
}

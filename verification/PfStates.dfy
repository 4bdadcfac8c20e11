/** Port-forwarding states shared by every hook that tracks a session. States come from pushed events
    and from fetches that may answer late; a version per session discards answers that are too old. */
module PfStates {
  type Id = string

  type PfState = string

  /** A request under way: the version it was made under and when it was made. */
  datatype Fetch = Fetch(id: Id, version: nat, at: nat)

  /** The module's variables; then what the platform holds for it (requests under way, queued
      microtasks, the hooks' live registrations); then history: a step count, when each session was last
      touched by an event or a drop, and the requests that failed. */
  datatype State = State(
    states: map<Id, PfState>, trackers: map<Id, nat>, versions: map<Id, nat>,
    inFlight: map<nat, Fetch>, nextFetch: nat, microtasks: seq<seq<Id>>, live: seq<seq<Id>>,
    clock: nat, touched: map<Id, nat>, failed: set<Fetch>)

  datatype Event =
    | Track(ids: seq<Id>) | Untrack(registration: nat) | Microtask
    | Answer(fetch: nat, state: PfState) | Fail(fetch: nat)
    | Notify(id: Id, state: PfState) | Reconnect(id: Id)

  function Start(): State {
    State(map[], map[], map[], map[], 0, [], [], 0, map[], {})
  }

  function Lookup(m: map<Id, nat>, id: Id): nat {
    if id in m then m[id] else 0
  }

  function Fetched(s: State, id: Id): State {
    s.(inFlight := s.inFlight[s.nextFetch := Fetch(id, Lookup(s.versions, id), s.clock)], nextFetch := s.nextFetch + 1)
  }

  function TrackedOne(s: State, id: Id): State {
    var s' := s.(trackers := s.trackers[id := Lookup(s.trackers, id) + 1]);
    if Lookup(s.trackers, id) == 0 && id !in s.states then Fetched(s', id) else s'
  }

  function TrackedAll(s: State, ids: seq<Id>): State {
    if ids == [] then s else TrackedOne(TrackedAll(s, ids[..|ids| - 1]), ids[|ids| - 1])
  }

  function UntrackedOne(trackers: map<Id, nat>, id: Id): map<Id, nat> {
    if Lookup(trackers, id) > 1 then trackers[id := trackers[id] - 1] else trackers - {id}
  }

  function UntrackedAll(trackers: map<Id, nat>, ids: seq<Id>): map<Id, nat> {
    if ids == [] then trackers else UntrackedOne(UntrackedAll(trackers, ids[..|ids| - 1]), ids[|ids| - 1])
  }

  function Dropped(trackers: map<Id, nat>, ids: seq<Id>): set<Id> {
    set id | id in ids && id !in trackers
  }

  function At(ids: set<Id>, now: nat): map<Id, nat> {
    map id | id in ids :: now
  }

  /** One bump for every occurrence of a dropped id. */
  function BumpedAll(versions: map<Id, nat>, dropped: set<Id>, ids: seq<Id>): map<Id, nat> {
    if ids == [] then versions
    else
      var (v, id) := (BumpedAll(versions, dropped, ids[..|ids| - 1]), ids[|ids| - 1]);
      if id in dropped then v[id := Lookup(v, id) + 1] else v
  }

  function Tracked(s: State, ids: seq<Id>): State {
    var s' := TrackedAll(s, ids);
    s'.(live := s'.live + [ids], clock := s'.clock + 1)
  }

  function Untracked(s: State, i: nat): State
    requires i < |s.live|
  {
    s.(trackers := UntrackedAll(s.trackers, s.live[i]), live := s.live[..i] + s.live[i + 1..],
       microtasks := s.microtasks + [s.live[i]], clock := s.clock + 1)
  }

  /** The queued half of a cleanup: sessions still untracked are bumped and forgotten. */
  function Settled(s: State): State
    requires s.microtasks != []
  {
    var dropped := Dropped(s.trackers, s.microtasks[0]);
    s.(microtasks := s.microtasks[1..], versions := BumpedAll(s.versions, dropped, s.microtasks[0]),
       states := s.states - dropped, touched := s.touched + At(dropped, s.clock), clock := s.clock + 1)
  }

  function Answered(s: State, n: nat, state: PfState): State
    requires n in s.inFlight
  {
    var f := s.inFlight[n];
    var taken := f.id in s.trackers && Lookup(s.versions, f.id) == f.version;
    s.(inFlight := s.inFlight - {n}, states := if taken then s.states[f.id := state] else s.states,
       clock := s.clock + 1)
  }

  function Failed(s: State, n: nat): State
    requires n in s.inFlight
  {
    s.(inFlight := s.inFlight - {n}, failed := s.failed + {s.inFlight[n]}, clock := s.clock + 1)
  }

  function Notified(s: State, id: Id, state: PfState): State {
    var known := id in s.trackers;
    s.(touched := s.touched[id := s.clock],
       versions := if known then s.versions[id := Lookup(s.versions, id) + 1] else s.versions,
       states := if known then s.states[id := state] else s.states, clock := s.clock + 1)
  }

  function Reconnected(s: State, id: Id): State {
    Fetched(s, id).(clock := s.clock + 1)
  }

  /** Nothing to do: only the step count moves. A pushed event is a task of its own, so it finds every
      queued microtask done. */
  predicate Enabled(s: State, e: Event) {
    match e
    case Track(_) => true
    case Untrack(i) => i < |s.live|
    case Microtask => s.microtasks != []
    case Answer(n, _) => n in s.inFlight
    case Fail(n) => n in s.inFlight
    case Notify(_, _) => s.microtasks == []
    case Reconnect(id) => id in s.trackers
  }

  function Step(s: State, e: Event): State {
    if !Enabled(s, e) then s.(clock := s.clock + 1)
    else
      match e
      case Track(ids) => Tracked(s, ids)
      case Untrack(i) => Untracked(s, i)
      case Microtask => Settled(s)
      case Answer(n, state) => Answered(s, n, state)
      case Fail(n) => Failed(s, n)
      case Notify(id, state) => Notified(s, id, state)
      case Reconnect(id) => Reconnected(s, id)
  }

  function Run(es: seq<Event>): State {
    if es == [] then Start() else Step(Run(es[..|es| - 1]), es[|es| - 1])
  }

  // ---------- the invariant ----------

  function Registered(live: seq<seq<Id>>): multiset<Id> {
    if live == [] then multiset{} else Registered(live[..|live| - 1]) + multiset(live[|live| - 1])
  }

  ghost predicate Counted(trackers: map<Id, nat>, live: multiset<Id>) {
    forall id :: (id in trackers <==> id in live) && Lookup(trackers, id) == live[id]
  }

  /** The request's answer would still be taken. */
  predicate Valid(s: State, f: Fetch) {
    Lookup(s.versions, f.id) == f.version
  }

  ghost predicate Queued(s: State, id: Id) {
    exists ids | ids in s.microtasks :: id in ids
  }

  /** Versions tell exactly whether a session was touched since a request was made; every request was
      made before step `now`. */
  ghost predicate Dated(s: State, now: nat) {
    && (forall id | id in s.touched :: s.touched[id] < s.clock)
    && forall n | n in s.inFlight :: DatedFetch(s, s.inFlight[n], now) && n < s.nextFetch
  }

  ghost predicate DatedFetch(s: State, f: Fetch, now: nat) {
    && f.at < now && f.version <= Lookup(s.versions, f.id)
    && (Valid(s, f) <==> Lookup(s.touched, f.id) <= f.at)
    && (Valid(s, f) ==> f.id in s.trackers || Queued(s, f.id))
  }

  /** A tracked session has a state, a request whose answer will be taken, or one that failed. */
  ghost predicate Served(s: State, id: Id) {
    || id in s.states
    || (exists n :: n in s.inFlight && s.inFlight[n].id == id && Valid(s, s.inFlight[n]))
    || (exists f :: f in s.failed && f.id == id && Valid(s, f))
  }

  ghost predicate AllServed(s: State) {
    forall id | id in s.trackers :: Served(s, id)
  }

  /** A state is kept only for a tracked session, or until the queued drop of an untracked one. */
  ghost predicate Kept(s: State) {
    forall id | id in s.states :: id in s.trackers || Queued(s, id)
  }

  ghost predicate Inv(s: State) {
    Counted(s.trackers, Registered(s.live)) && Dated(s, s.clock) && Kept(s) && AllServed(s)
  }

  // ---------- tracking ----------

  lemma {:induction false} SameQueue(s: State, s': State, id: Id)
    requires s.microtasks == s'.microtasks
    ensures Queued(s, id) <==> Queued(s', id)
  {
  }

  lemma {:induction false} TrackOneDates(s: State, id: Id)
    requires Dated(s, s.clock + 1)
    ensures Dated(TrackedOne(s, id), s.clock + 1)
  {
    var s' := TrackedOne(s, id);
    forall n | n in s'.inFlight ensures DatedFetch(s', s'.inFlight[n], s.clock + 1) && n < s'.nextFetch {
      if n in s.inFlight && n != s.nextFetch {
        assert DatedFetch(s, s.inFlight[n], s.clock + 1);
        assert Queued(s, s.inFlight[n].id) ==> Queued(s', s.inFlight[n].id);
      }
    }
  }

  lemma {:induction false} TrackOneServes(s: State, id: Id)
    requires Dated(s, s.clock + 1) && AllServed(s)
    ensures AllServed(TrackedOne(s, id))
  {
    var s' := TrackedOne(s, id);
    forall x | x in s'.trackers ensures Served(s', x) {
      if x in s.trackers {
        assert Served(s, x);
        ServedGrows(s, s', x);
      } else if x !in s.states {
        assert s'.inFlight[s.nextFetch].id == x && Valid(s', s'.inFlight[s.nextFetch]);
      }
    }
  }

  lemma {:induction false} TrackOneKeeps(s: State, id: Id)
    requires Dated(s, s.clock + 1) && Kept(s) && AllServed(s)
    ensures var s' := TrackedOne(s, id);
            && Dated(s', s.clock + 1) && Kept(s') && AllServed(s')
            && s'.clock == s.clock && s'.live == s.live && s'.microtasks == s.microtasks
            && s'.trackers == s.trackers[id := Lookup(s.trackers, id) + 1]
  {
    var s' := TrackedOne(s, id);
    TrackOneDates(s, id);
    TrackOneServes(s, id);
    TrackOneKept(s, id);
  }

  lemma {:induction false} TrackOneKept(s: State, id: Id)
    requires Kept(s)
    ensures Kept(TrackedOne(s, id))
  {
    var s' := TrackedOne(s, id);
    forall x | x in s'.states ensures x in s'.trackers || Queued(s', x) {
      SameQueue(s, s', x);
    }
  }

  lemma {:induction false} TrackOneCounts(trackers: map<Id, nat>, id: Id, live: multiset<Id>)
    requires Counted(trackers, live)
    ensures Counted(trackers[id := Lookup(trackers, id) + 1], live + multiset{id})
  {
  }

  /** More requests and more states serve no session less. */
  lemma {:induction false} ServedGrows(s: State, s': State, id: Id)
    requires Served(s, id) && s'.versions == s.versions && s.states.Keys <= s'.states.Keys && s.failed <= s'.failed
    requires forall n | n in s.inFlight :: n in s'.inFlight && s'.inFlight[n] == s.inFlight[n]
    ensures Served(s', id)
  {
    if id !in s.states {
      if n :| n in s.inFlight && s.inFlight[n].id == id && Valid(s, s.inFlight[n]) {
        assert Valid(s', s'.inFlight[n]);
      } else {
        var f :| f in s.failed && f.id == id && Valid(s, f);
        assert f in s'.failed && Valid(s', f);
      }
    }
  }

  lemma {:induction false} TrackAllKeeps(s: State, ids: seq<Id>)
    requires Dated(s, s.clock + 1) && Kept(s) && AllServed(s)
    ensures var s' := TrackedAll(s, ids);
            && Dated(s', s.clock + 1) && Kept(s') && AllServed(s')
            && s'.clock == s.clock && s'.live == s.live && s'.microtasks == s.microtasks
  {
    if ids == [] {
    } else {
      TrackAllKeeps(s, ids[..|ids| - 1]);
      TrackOneKeeps(TrackedAll(s, ids[..|ids| - 1]), ids[|ids| - 1]);
    }
  }

  lemma {:induction false} MultisetOfLast(ids: seq<Id>)
    requires ids != []
    ensures multiset(ids) == multiset(ids[..|ids| - 1]) + multiset{ids[|ids| - 1]}
  {
    assert ids == ids[..|ids| - 1] + [ids[|ids| - 1]];
  }

  lemma {:induction false} TrackAllCounts(s: State, ids: seq<Id>, live: multiset<Id>)
    requires Counted(s.trackers, live)
    ensures Counted(TrackedAll(s, ids).trackers, live + multiset(ids))
  {
    if ids == [] {
    } else {
      var init, id := ids[..|ids| - 1], ids[|ids| - 1];
      TrackAllCounts(s, init, live);
      TrackOneCounts(TrackedAll(s, init).trackers, id, live + multiset(init));
      MultisetOfLast(ids);
    }
  }

  // ---------- untracking ----------

  lemma {:induction false} UntrackAllCounts(trackers: map<Id, nat>, ids: seq<Id>, live: multiset<Id>)
    requires Counted(trackers, live) && multiset(ids) <= live
    ensures Counted(UntrackedAll(trackers, ids), live - multiset(ids))
  {
    if ids == [] {
    } else {
      var init, id := ids[..|ids| - 1], ids[|ids| - 1];
      assert ids == init + [id];
      UntrackAllCounts(trackers, init, live);
      assert live[id] >= multiset(ids)[id] == multiset(init)[id] + 1;
    }
  }

  lemma {:induction false} RegisteredSplits(live: seq<seq<Id>>, i: nat)
    requires i < |live|
    ensures Registered(live) == Registered(live[..i] + live[i + 1..]) + multiset(live[i])
    ensures multiset(live[i]) <= Registered(live)
  {
    var rest := live[..i] + live[i + 1..];
    if i == |live| - 1 {
      assert rest == live[..|live| - 1];
    } else {
      var init := live[..|live| - 1];
      RegisteredSplits(init, i);
      assert rest[..|rest| - 1] == init[..i] + init[i + 1..] && rest[|rest| - 1] == live[|live| - 1];
    }
  }

  lemma {:induction false} UntrackLeaves(s: State, i: nat, id: Id)
    requires i < |s.live| && Counted(s.trackers, Registered(s.live)) && (id in s.trackers || Queued(s, id))
    ensures id in Untracked(s, i).trackers || Queued(Untracked(s, i), id)
  {
    var s' := Untracked(s, i);
    UntrackCounts(s, i);
    assert s'.microtasks[|s.microtasks|] == s.live[i];
    if Queued(s, id) {
      var ids :| ids in s.microtasks && id in ids;
      assert ids in s'.microtasks;
    } else if id !in s'.trackers {
      RegisteredSplits(s.live, i);
      assert id in s.live[i] && s.live[i] in s'.microtasks;
    }
  }

  lemma {:induction false} UntrackCounts(s: State, i: nat)
    requires i < |s.live| && Counted(s.trackers, Registered(s.live))
    ensures Counted(Untracked(s, i).trackers, Registered(Untracked(s, i).live))
    ensures Untracked(s, i).trackers.Keys <= s.trackers.Keys
  {
    RegisteredSplits(s.live, i);
    UntrackAllCounts(s.trackers, s.live[i], Registered(s.live));
    var live, rest := Registered(s.live), Registered(Untracked(s, i).live);
    assert live - multiset(s.live[i]) == rest;
    forall id | id in Untracked(s, i).trackers ensures id in s.trackers {
      assert id in rest && id in live;
    }
  }

  lemma {:induction false} UntrackKeeps(s: State, i: nat)
    requires Inv(s) && i < |s.live|
    ensures Inv(Untracked(s, i))
  {
    var s' := Untracked(s, i);
    UntrackCounts(s, i);
    forall n | n in s'.inFlight ensures DatedFetch(s', s'.inFlight[n], s'.clock) {
      assert DatedFetch(s, s.inFlight[n], s.clock);
      if Valid(s, s.inFlight[n]) {
        UntrackLeaves(s, i, s.inFlight[n].id);
      }
    }
    forall id | id in s'.states ensures id in s'.trackers || Queued(s', id) {
      UntrackLeaves(s, i, id);
    }
    forall id | id in s'.trackers ensures Served(s', id) {
      assert id in s.trackers && Served(s, id);
      ServedGrows(s, s', id);
    }
  }

  // ---------- drops, events and answers ----------

  lemma {:induction false} BumpsOnlyDropped(versions: map<Id, nat>, dropped: set<Id>, ids: seq<Id>, id: Id)
    ensures var v := BumpedAll(versions, dropped, ids);
            && (id !in dropped || id !in ids ==> Lookup(v, id) == Lookup(versions, id))
            && (id in dropped && id in ids ==> Lookup(v, id) > Lookup(versions, id))
  {
    if ids == [] {
    } else {
      assert ids == ids[..|ids| - 1] + [ids[|ids| - 1]];
      BumpsOnlyDropped(versions, dropped, ids[..|ids| - 1], id);
    }
  }

  lemma {:induction false} MicrotaskBumps(s: State)
    requires s.microtasks != []
    ensures var s', dropped := Settled(s), Dropped(s.trackers, s.microtasks[0]);
            && (forall id | id in dropped :: Lookup(s'.versions, id) > Lookup(s.versions, id))
            && (forall id | id !in dropped :: Lookup(s'.versions, id) == Lookup(s.versions, id))
  {
    var dropped := Dropped(s.trackers, s.microtasks[0]);
    forall id {
      BumpsOnlyDropped(s.versions, dropped, s.microtasks[0], id);
    }
  }

  /** What the microtask does not drop is still tracked or still queued. */
  lemma {:induction false} MicrotaskLeaves(s: State, id: Id)
    requires s.microtasks != [] && id !in Dropped(s.trackers, s.microtasks[0]) && (id in s.trackers || Queued(s, id))
    ensures id in s.trackers || Queued(Settled(s), id)
  {
    if id !in s.trackers {
      var q :| q in s.microtasks && id in q;
      assert q != s.microtasks[0] && q in s.microtasks[1..];
    }
  }

  lemma {:induction false} MicrotaskDates(s: State)
    requires Dated(s, s.clock) && s.microtasks != []
    ensures Dated(Settled(s), s.clock + 1)
  {
    var s', dropped := Settled(s), Dropped(s.trackers, s.microtasks[0]);
    MicrotaskBumps(s);
    forall n | n in s'.inFlight ensures DatedFetch(s', s'.inFlight[n], s'.clock) {
      var f := s.inFlight[n];
      assert DatedFetch(s, f, s.clock);
      if f.id !in dropped && Valid(s, f) {
        MicrotaskLeaves(s, f.id);
      }
    }
  }

  lemma {:induction false} MicrotaskKeeps(s: State)
    requires Inv(s) && s.microtasks != []
    ensures Inv(Settled(s))
  {
    var s', dropped := Settled(s), Dropped(s.trackers, s.microtasks[0]);
    MicrotaskDates(s);
    MicrotaskBumps(s);
    forall id | id in s'.states ensures id in s'.trackers || Queued(s', id) {
      MicrotaskLeaves(s, id);
    }
    forall id | id in s'.trackers ensures Served(s', id) {
      assert id !in dropped && Served(s, id);
      ServedElsewhere(s, s', id);
    }
  }

  /** A session whose own version and state stand is served as before. */
  lemma {:induction false} ServedElsewhere(s: State, s': State, id: Id)
    requires Served(s, id) && Lookup(s'.versions, id) == Lookup(s.versions, id) && s.failed <= s'.failed
    requires id in s.states ==> id in s'.states
    requires forall n | n in s.inFlight && s.inFlight[n].id == id :: n in s'.inFlight && s'.inFlight[n] == s.inFlight[n]
    ensures Served(s', id)
  {
    if id !in s.states {
      if n :| n in s.inFlight && s.inFlight[n].id == id && Valid(s, s.inFlight[n]) {
        assert Valid(s', s'.inFlight[n]);
      } else {
        var f :| f in s.failed && f.id == id && Valid(s, f);
        assert f in s'.failed && Valid(s', f);
      }
    }
  }

  lemma {:induction false} NotifyDates(s: State, id: Id, state: PfState)
    requires Dated(s, s.clock) && s.microtasks == []
    ensures Dated(Notified(s, id, state), s.clock + 1)
  {
    var s' := Notified(s, id, state);
    forall n | n in s'.inFlight ensures DatedFetch(s', s'.inFlight[n], s'.clock) {
      assert DatedFetch(s, s.inFlight[n], s.clock);
    }
  }

  lemma {:induction false} NotifyKeeps(s: State, id: Id, state: PfState)
    requires Inv(s) && s.microtasks == []
    ensures Inv(Notified(s, id, state))
  {
    var s' := Notified(s, id, state);
    NotifyDates(s, id, state);
    forall x | x in s'.trackers ensures Served(s', x) {
      assert Served(s, x);
      if x != id {
        ServedElsewhere(s, s', x);
      }
    }
  }

  /** A request that is gone takes nothing from the others. */
  lemma {:induction false} FewerFetchesDated(s: State, s': State)
    requires Dated(s, s.clock) && s'.clock == s.clock + 1 && s'.inFlight.Keys <= s.inFlight.Keys
    requires forall n | n in s'.inFlight :: s'.inFlight[n] == s.inFlight[n]
    requires s'.versions == s.versions && s'.touched == s.touched && s'.trackers == s.trackers
    requires s'.microtasks == s.microtasks && s'.nextFetch == s.nextFetch
    ensures Dated(s', s'.clock)
  {
    forall n | n in s'.inFlight ensures DatedFetch(s', s'.inFlight[n], s'.clock) {
      assert DatedFetch(s, s.inFlight[n], s.clock);
      SameQueue(s, s', s.inFlight[n].id);
    }
  }

  /** The one request that is gone served its session only if its answer or failure now does. */
  lemma {:induction false} OneFewerServes(s: State, s': State, n: nat, id: Id)
    requires n in s.inFlight && id in s.trackers && Served(s, id)
    requires s'.inFlight == s.inFlight - {n} && s'.versions == s.versions && s.states.Keys <= s'.states.Keys
    requires s.failed <= s'.failed
    requires id == s.inFlight[n].id && Valid(s, s.inFlight[n]) ==> id in s'.states || s.inFlight[n] in s'.failed
    ensures Served(s', id)
  {
    if id == s.inFlight[n].id && Valid(s, s.inFlight[n]) {
      assert Valid(s', s.inFlight[n]);
    } else if id !in s.states {
      if m :| m in s.inFlight && s.inFlight[m].id == id && Valid(s, s.inFlight[m]) {
        assert m in s'.inFlight && Valid(s', s'.inFlight[m]);
      } else {
        var g :| g in s.failed && g.id == id && Valid(s, g);
        assert g in s'.failed && Valid(s', g);
      }
    }
  }

  lemma {:induction false} AnswerKeeps(s: State, n: nat, state: PfState)
    requires Inv(s) && n in s.inFlight
    ensures Inv(Answered(s, n, state))
  {
    var s' := Answered(s, n, state);
    FewerFetchesDated(s, s');
    forall id | id in s'.states ensures id in s'.trackers || Queued(s', id) {
      SameQueue(s, s', id);
    }
    forall id | id in s'.trackers ensures Served(s', id) {
      OneFewerServes(s, s', n, id);
    }
  }

  lemma {:induction false} FailKeeps(s: State, n: nat)
    requires Inv(s) && n in s.inFlight
    ensures Inv(Failed(s, n))
  {
    var s' := Failed(s, n);
    FewerFetchesDated(s, s');
    forall id | id in s'.states ensures id in s'.trackers || Queued(s', id) {
      SameQueue(s, s', id);
    }
    forall id | id in s'.trackers ensures Served(s', id) {
      OneFewerServes(s, s', n, id);
    }
  }

  lemma {:induction false} FetchKeeps(s: State, id: Id)
    requires Inv(s) && id in s.trackers
    ensures Inv(Reconnected(s, id))
  {
    var s' := Reconnected(s, id);
    forall x | Queued(s, x) ensures Queued(s', x) {
      var ids :| ids in s.microtasks && x in ids;
      assert ids in s'.microtasks;
    }
    forall n | n in s'.inFlight ensures DatedFetch(s', s'.inFlight[n], s'.clock) && n < s'.nextFetch {
      assert n in s.inFlight ==> DatedFetch(s, s.inFlight[n], s.clock);
    }
    forall x | x in s'.trackers ensures Served(s', x) {
      assert Served(s, x);
      ServedGrows(s, s', x);
    }
  }

  lemma {:induction false} TrackKeeps(s: State, ids: seq<Id>)
    requires Inv(s)
    ensures Inv(Tracked(s, ids))
  {
    var s1, s' := TrackedAll(s, ids), Tracked(s, ids);
    TrackAllKeeps(s, ids);
    TrackAllCounts(s, ids, Registered(s.live));
    assert s'.live[..|s'.live| - 1] == s.live;
    forall id | Queued(s1, id) ensures Queued(s', id) {
      var q :| q in s1.microtasks && id in q;
      assert q in s'.microtasks;
    }
    forall n | n in s'.inFlight ensures DatedFetch(s', s'.inFlight[n], s'.clock) {
      assert DatedFetch(s1, s1.inFlight[n], s.clock + 1);
    }
    forall id | id in s'.trackers ensures Served(s', id) {
      assert Served(s1, id);
      ServedGrows(s1, s', id);
    }
  }

  lemma {:induction false} IdleKeeps(s: State)
    requires Inv(s)
    ensures Inv(s.(clock := s.clock + 1))
  {
    var s' := s.(clock := s.clock + 1);
    FewerFetchesDated(s, s');
    forall id | id in s'.states ensures id in s'.trackers || Queued(s', id) {
      SameQueue(s, s', id);
    }
    forall id | id in s'.trackers ensures Served(s', id) {
      ServedGrows(s, s', id);
    }
  }

  lemma {:induction false} HookStepKeepsInv(s: State, e: Event)
    requires Inv(s) && Enabled(s, e) && (e.Track? || e.Untrack? || e.Microtask?)
    ensures Inv(Step(s, e))
  {
    match e
    case Track(ids) => TrackKeeps(s, ids);
    case Untrack(i) => UntrackKeeps(s, i);
    case Microtask => MicrotaskKeeps(s);
  }

  lemma {:induction false} HostStepKeepsInv(s: State, e: Event)
    requires Inv(s) && Enabled(s, e) && !(e.Track? || e.Untrack? || e.Microtask?)
    ensures Inv(Step(s, e))
  {
    match e
    case Answer(n, state) => AnswerKeeps(s, n, state);
    case Fail(n) => FailKeeps(s, n);
    case Notify(id, state) => NotifyKeeps(s, id, state);
    case Reconnect(id) => FetchKeeps(s, id);
  }

  lemma {:induction false} StepKeepsInv(s: State, e: Event)
    requires Inv(s)
    ensures Inv(Step(s, e))
  {
    if !Enabled(s, e) {
      IdleKeeps(s);
      assert Step(s, e) == s.(clock := s.clock + 1);
    } else if e.Track? || e.Untrack? || e.Microtask? {
      HookStepKeepsInv(s, e);
    } else {
      HostStepKeepsInv(s, e);
    }
  }

  /** Over every run: tracker counts are the live registrations, states are kept only while tracked or
      about to be dropped, and every tracked session is served. */
  lemma {:induction false} RunKeepsInv(es: seq<Event>)
    ensures Inv(Run(es))
  {
    if es == [] {
    } else {
      RunKeepsInv(es[..|es| - 1]);
      StepKeepsInv(Run(es[..|es| - 1]), es[|es| - 1]);
    }
  }

  /** Over every run: an answer is published exactly when its session is tracked and neither an event
      nor a drop has touched the session since the request was made. */
  lemma {:induction false} AnswerIsPublishedIffUntouched(es: seq<Event>, n: nat, state: PfState)
    requires n in Run(es).inFlight
    ensures var s := Run(es);
            var f := s.inFlight[n];
            Step(s, Answer(n, state)).states ==
              if f.id in s.trackers && Lookup(s.touched, f.id) <= f.at then s.states[f.id := state] else s.states
  {
    RunKeepsInv(es);
    assert DatedFetch(Run(es), Run(es).inFlight[n], Run(es).clock);
  }

  // ---------- what a drop and an event outdate ----------

  /** The drop forgets exactly the sessions of its cleanup that are untracked by then, and outdates
      their requests and no others. */
  lemma {:induction false} MicrotaskForgets(s: State)
    requires Inv(s) && s.microtasks != []
    ensures var (s', ids) := (Settled(s), s.microtasks[0]);
            && (forall id :: id in s'.states <==> id in s.states && (id in s.trackers || id !in ids))
            && (forall id | id in s'.states :: s'.states[id] == s.states[id])
            && (forall n | n in s.inFlight ::
                  var f := s.inFlight[n];
                  Valid(s', f) <==> Valid(s, f) && (f.id in s.trackers || f.id !in ids))
  {
    MicrotaskBumps(s);
    forall n | n in s.inFlight ensures s.inFlight[n].version <= Lookup(s.versions, s.inFlight[n].id) {
      assert DatedFetch(s, s.inFlight[n], s.clock);
    }
  }

  /** A pushed event outdates the requests for its session and no others. */
  lemma {:induction false} NotifyOutdates(s: State, id: Id, state: PfState)
    requires Inv(s) && id in s.trackers
    ensures var s' := Notified(s, id, state);
            && s'.states == s.states[id := state]
            && forall n | n in s.inFlight ::
                 Valid(s', s.inFlight[n]) <==> Valid(s, s.inFlight[n]) && s.inFlight[n].id != id
  {
    forall n | n in s.inFlight ensures s.inFlight[n].version <= Lookup(s.versions, s.inFlight[n].id) {
      assert DatedFetch(s, s.inFlight[n], s.clock);
    }
  }

  /** Nobody hears of a session that is not tracked; a failed request changes nothing but itself. */
  lemma {:induction false} UntrackedIsIgnored(s: State, id: Id, state: PfState)
    requires id !in s.trackers
    ensures var s' := Step(s, Notify(id, state)); s'.states == s.states && s'.versions == s.versions
    ensures Step(s, Reconnect(id)).inFlight == s.inFlight
  {
  }

  /** A reconnect always requests anew, with or without a state, and the answer would be taken. */
  lemma {:induction false} ReconnectRequests(s: State, id: Id)
    requires Inv(s) && id in s.trackers
    ensures var s' := Step(s, Reconnect(id));
            && s.nextFetch !in s.inFlight && Takes(s', s.nextFetch) && s'.inFlight[s.nextFetch].id == id
            && s'.states == s.states && s'.versions == s.versions
            && forall n | n in s.inFlight :: n in s'.inFlight && s'.inFlight[n] == s.inFlight[n]
  {
  }

  /** Request `n`, made after request number `from`, is for the session. */
  predicate NewRequest(s: State, from: nat, n: nat, id: Id) {
    n in s.inFlight && n >= from && s.inFlight[n].id == id
  }

  /** One new request for the session, whose answer would be current, or none. */
  ghost predicate AskedFor(s: State, from: nat, id: Id, asked: bool) {
    if asked then exists n: nat :: OnlyNewRequest(s, from, n, id)
    else forall n: nat :: !NewRequest(s, from, n, id)
  }

  ghost predicate OnlyNewRequest(s: State, from: nat, n: nat, id: Id) {
    NewRequest(s, from, n, id) && Valid(s, s.inFlight[n]) && forall m: nat | NewRequest(s, from, m, id) :: m == n
  }

  /** Tracking requests a session exactly if it is named, was not tracked and has no state, and then once;
      its count grows by as often as it is named. */
  lemma {:induction false} TrackRequests(s: State, ids: seq<Id>, id: Id)
    requires forall n | n in s.inFlight :: n < s.nextFetch
    ensures var s' := TrackedAll(s, ids);
            && AskedFor(s', s.nextFetch, id, id in ids && id !in s.states && Lookup(s.trackers, id) == 0)
            && Lookup(s'.trackers, id) == Lookup(s.trackers, id) + multiset(ids)[id]
  {
    if ids == [] {
    } else {
      var (init, last) := (ids[..|ids| - 1], ids[|ids| - 1]);
      TrackRequests(s, init, id);
      TrackedSame(s, init);
      MultisetOfLast(ids);
      assert ids == init + [last];
      assert (id in ids <==> id in init || id == last) && (multiset(init)[id] > 0 <==> id in init);
      OneMoreAsked(s.nextFetch, TrackedAll(s, init), last, id,
                   id in init && id !in s.states && Lookup(s.trackers, id) == 0);
    }
  }

  lemma {:induction false} OneMoreAsked(from: nat, t: State, last: Id, id: Id, asked: bool)
    requires from <= t.nextFetch && (forall n | n in t.inFlight :: n < t.nextFetch) && AskedFor(t, from, id, asked)
    requires asked ==> Lookup(t.trackers, id) > 0
    ensures var asks := id == last && last !in t.states && Lookup(t.trackers, last) == 0;
            AskedFor(TrackedOne(t, last), from, id, asked || asks)
    ensures Lookup(TrackedOne(t, last).trackers, id) == Lookup(t.trackers, id) + if id == last then 1 else 0
  {
    var (t', asks) := (TrackedOne(t, last), last !in t.states && Lookup(t.trackers, last) == 0);
    forall n: nat
      ensures NewRequest(t', from, n, id) <==> NewRequest(t, from, n, id) || (asks && id == last && n == t.nextFetch)
      ensures NewRequest(t, from, n, id) ==> t'.inFlight[n] == t.inFlight[n]
    {
      OneMoreRequest(from, t, last, id, n);
    }
    if asked {
      var n: nat :| OnlyNewRequest(t, from, n, id);
      assert OnlyNewRequest(t', from, n, id);
    } else if id == last && asks {
      OneMoreRequest(from, t, last, id, t.nextFetch);
      assert OnlyNewRequest(t', from, t.nextFetch, id);
    }
  }

  lemma {:induction false} TrackedSame(s: State, ids: seq<Id>)
    requires forall n | n in s.inFlight :: n < s.nextFetch
    ensures var s' := TrackedAll(s, ids);
            && s'.states == s.states && s'.versions == s.versions && s'.nextFetch >= s.nextFetch
            && (forall n | n in s'.inFlight :: n < s'.nextFetch)
            && (forall n | n in s.inFlight :: n in s'.inFlight && s'.inFlight[n] == s.inFlight[n])
  {
    if ids == [] {
    } else {
      TrackedSame(s, ids[..|ids| - 1]);
    }
  }

  lemma {:induction false} OneMoreRequest(from: nat, t: State, last: Id, id: Id, n: nat)
    requires from <= t.nextFetch && forall n | n in t.inFlight :: n < t.nextFetch
    ensures var (t', asks) := (TrackedOne(t, last), last !in t.states && Lookup(t.trackers, last) == 0);
            && (NewRequest(t', from, n, id) <==>
                  NewRequest(t, from, n, id) || (asks && id == last && n == t.nextFetch))
            && (NewRequest(t, from, n, id) ==> t'.inFlight[n] == t.inFlight[n])
            && t'.versions == t.versions && (asks ==> Valid(t', t'.inFlight[t.nextFetch]))
  {
  }

  // ---------- answers out of order ----------

  function RunFrom(s: State, es: seq<Event>): State {
    if es == [] then s else Step(RunFrom(s, es[..|es| - 1]), es[|es| - 1])
  }

  /** Versions only grow, no request gets an old number, and none changes. */
  ghost predicate Later(s: State, s': State) {
    && s.nextFetch <= s'.nextFetch
    && (forall id :: Lookup(s.versions, id) <= Lookup(s'.versions, id))
    && (forall n | n in s'.inFlight && n < s.nextFetch :: n in s.inFlight && s'.inFlight[n] == s.inFlight[n])
  }

  lemma {:induction false} LaterOn(a: State, b: State, c: State)
    requires Later(a, b) && Later(b, c)
    ensures Later(a, c)
  {
  }

  lemma {:induction false} TrackingIsLater(s: State, ids: seq<Id>)
    ensures Later(s, TrackedAll(s, ids)) && TrackedAll(s, ids).versions == s.versions
  {
    if ids == [] {
    } else {
      TrackingIsLater(s, ids[..|ids| - 1]);
    }
  }

  lemma {:induction false} StepIsLater(s: State, e: Event)
    ensures Later(s, Step(s, e))
  {
    if e.Track? {
      TrackingIsLater(s, e.ids);
    } else if e.Microtask? && s.microtasks != [] {
      MicrotaskBumps(s);
    }
  }

  lemma {:induction false} RunIsLater(s: State, es: seq<Event>)
    ensures Later(s, RunFrom(s, es))
  {
    if es == [] {
    } else {
      RunIsLater(s, es[..|es| - 1]);
      StepIsLater(RunFrom(s, es[..|es| - 1]), es[|es| - 1]);
      LaterOn(s, RunFrom(s, es[..|es| - 1]), RunFrom(s, es));
    }
  }

  /** The answer to request `n`, coming now, would be published. */
  predicate Takes(s: State, n: nat) {
    n in s.inFlight && s.inFlight[n].id in s.trackers && Valid(s, s.inFlight[n])
  }

  /** After `es`, the answer to a request for the session made before request `n` would be published. */
  ghost predicate OlderTaken(s: State, es: seq<Event>, n: nat, id: Id) {
    var t := RunFrom(s, es);
    exists m: nat :: m < n && Takes(t, m) && t.inFlight[m].id == id
  }

  /** A reconnect requests anew without outdating what is under way. So a published answer is safe from
      the answers to earlier requests, over every run from then on, exactly when no earlier request for
      its session is still under way whose version stands. */
  lemma {:induction false} WhenNewerAnswerStands(s: State, n: nat, state: PfState)
    requires Inv(s) && Takes(s, n)
    ensures var (s', id) := (Step(s, Answer(n, state)), s.inFlight[n].id);
            && s'.states == s.states[id := state]
            && ((forall es :: !OlderTaken(s', es, n, id)) <==>
                  forall m | m in s'.inFlight && m < n && s'.inFlight[m].id == id :: !Valid(s', s'.inFlight[m]))
  {
    var (s', id) := (Step(s, Answer(n, state)), s.inFlight[n].id);
    assert DatedFetch(s, s.inFlight[n], s.clock) && n < s'.nextFetch;
    StepKeepsInv(s, Answer(n, state));
    if m :| m in s'.inFlight && m < n && s'.inFlight[m].id == id && Valid(s', s'.inFlight[m]) {
      assert RunFrom(s', []) == s' && Takes(s', m);
      assert OlderTaken(s', [], n, id);
    }
    if es :| OlderTaken(s', es, n, id) {
      var m := OlderIsUnderWay(s', es, n, id);
      assert Valid(s', s'.inFlight[m]);
    }
  }

  lemma {:induction false} OlderIsUnderWay(s: State, es: seq<Event>, n: nat, id: Id) returns (m: nat)
    requires Inv(s) && n < s.nextFetch && OlderTaken(s, es, n, id)
    ensures m < n && m in s.inFlight && s.inFlight[m].id == id && Valid(s, s.inFlight[m])
  {
    var t := RunFrom(s, es);
    m :| m < n && Takes(t, m) && t.inFlight[m].id == id;
    RunIsLater(s, es);
    assert DatedFetch(s, s.inFlight[m], s.clock);
  }

  /** Such a run: the answer made before a reconnect comes after the one made at it, and is kept. */
  lemma {:induction false} OlderAnswerCanReturn()
    ensures var es := [Track(["a"]), Reconnect("a"), Answer(1, "new"), Answer(0, "old")];
            && "a" in Run(es[..3]).states && Run(es[..3]).states["a"] == "new"
            && "a" in Run(es).states && Run(es).states["a"] == "old"
  {
    var es := [Track(["a"]), Reconnect("a"), Answer(1, "new"), Answer(0, "old")];
    assert ["a"][..0] == [] && TrackedAll(Start(), []) == Start();
    var tracked := Tracked(Start(), ["a"]);
    assert tracked.inFlight == map[0 := Fetch("a", 0, 0)] && tracked.trackers == map["a" := 1];
    assert es[..1] == [es[0]] && es[..1][..0] == [] && Run([]) == Start() && Run(es[..1]) == tracked;
    assert es[..2][..1] == es[..1] && Run(es[..2]) == Step(tracked, es[1]);
    assert es[..3][..2] == es[..2] && Run(es[..3]) == Step(Run(es[..2]), es[2]);
    assert Run(es) == Step(Run(es[..3]), es[3]);
  }
}

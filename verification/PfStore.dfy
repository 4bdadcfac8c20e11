/** The module's variables as the code updates them. A registration is what `track` returned a cleanup
    for; requests under way and queued microtasks are the platform's side. */
module PfStore {
  import opened Spec = PfStates

  class Store {
    var states: map<Id, PfState>
    var trackers: map<Id, nat>
    var versions: map<Id, nat>
    var inFlight: map<nat, Fetch>
    var nextFetch: nat
    var microtasks: seq<seq<Id>>
    var live: seq<seq<Id>>
    var clock: nat
    ghost var touched: map<Id, nat>
    ghost var failed: set<Fetch>

    ghost function Now(): State
      reads this
    {
      State(states, trackers, versions, inFlight, nextFetch, microtasks, live, clock, touched, failed)
    }

    constructor ()
      ensures Now() == Start()
    {
      states, trackers, versions, inFlight, nextFetch := map[], map[], map[], map[], 0;
      microtasks, live, clock, touched, failed := [], [], 0, map[], {};
    }

    method Bump(id: Id)
      modifies this`versions
      ensures versions == old(versions)[id := Lookup(old(versions), id) + 1]
    {
      versions := versions[id := Lookup(versions, id) + 1];
    }

    method FetchState(id: Id)
      modifies this`inFlight, this`nextFetch
      ensures Now() == Fetched(old(Now()), id)
    {
      inFlight := inFlight[nextFetch := Fetch(id, Lookup(versions, id), clock)];
      nextFetch := nextFetch + 1;
    }

    method Track(ids: seq<Id>)
      modifies this
      ensures Now() == Tracked(old(Now()), ids)
    {
      for i := 0 to |ids|
        invariant Now() == TrackedAll(old(Now()), ids[..i])
      {
        assert ids[..i + 1][..i] == ids[..i];
        var count := Lookup(trackers, ids[i]);
        trackers := trackers[ids[i] := count + 1];
        if count == 0 && ids[i] !in states {
          FetchState(ids[i]);
        }
      }
      assert ids[..|ids|] == ids;
      live := live + [ids];
      clock := clock + 1;
    }

    /** The cleanup of registration `r`: untracks at once, and queues the drop. */
    method Untrack(r: nat)
      requires r < |live|
      modifies this
      ensures Now() == Untracked(old(Now()), r)
    {
      var ids := live[r];
      for i := 0 to |ids|
        invariant Now() == old(Now()).(trackers := UntrackedAll(old(trackers), ids[..i]))
      {
        assert ids[..i + 1][..i] == ids[..i];
        var count := Lookup(trackers, ids[i]);
        if count > 1 {
          trackers := trackers[ids[i] := count - 1];
        } else {
          trackers := trackers - {ids[i]};
        }
      }
      assert ids[..|ids|] == ids;
      live := live[..r] + live[r + 1..];
      microtasks := microtasks + [ids];
      clock := clock + 1;
    }

    method BumpDropped(dropped: set<Id>, ids: seq<Id>)
      modifies this`versions
      ensures versions == BumpedAll(old(versions), dropped, ids)
    {
      for i := 0 to |ids|
        invariant versions == BumpedAll(old(versions), dropped, ids[..i])
      {
        assert ids[..i + 1][..i] == ids[..i];
        if ids[i] in dropped {
          Bump(ids[i]);
        }
      }
      assert ids[..|ids|] == ids;
    }

    method RunMicrotask()
      requires microtasks != []
      modifies this
      ensures Now() == Settled(old(Now()))
    {
      var ids := microtasks[0];
      microtasks := microtasks[1..];
      var dropped := Dropped(trackers, ids);
      BumpDropped(dropped, ids);
      states := states - dropped;
      touched := touched + At(dropped, clock);
      clock := clock + 1;
    }

    method Answer(n: nat, state: PfState)
      requires n in inFlight
      modifies this
      ensures Now() == Answered(old(Now()), n, state)
    {
      var f := inFlight[n];
      inFlight := inFlight - {n};
      if f.id in trackers && Lookup(versions, f.id) == f.version {
        states := states[f.id := state];
      }
      clock := clock + 1;
    }

    method Fail(n: nat)
      requires n in inFlight
      modifies this
      ensures Now() == Failed(old(Now()), n)
    {
      failed := failed + {inFlight[n]};
      inFlight := inFlight - {n};
      clock := clock + 1;
    }

    method Notify(id: Id, state: PfState)
      modifies this
      ensures Now() == Notified(old(Now()), id, state)
    {
      touched := touched[id := clock];
      clock := clock + 1;
      if id !in trackers {
        return;
      }
      Bump(id);
      states := states[id := state];
    }

    method Reconnect(id: Id)
      modifies this
      ensures Now() == if id in old(trackers) then Reconnected(old(Now()), id) else old(Now()).(clock := old(clock) + 1)
    {
      if id in trackers {
        FetchState(id);
      }
      clock := clock + 1;
    }
  }
}

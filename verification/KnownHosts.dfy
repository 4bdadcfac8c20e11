/** The host keys the client trusts: a list of entries that are only ever added or marked deleted. */
module KnownHosts {
  import opened Outcomes
  import opened PendingConflicts

  type Time = nat

  datatype KnownHost = KnownHost(
    id: string, host: string, port: nat, fingerprint: string, vault: string,
    createdAt: Time, updatedAt: Time, deletedAt: Option<Time>)

  datatype Status = Known | Unknown | Changed(stored: seq<KnownHost>)

  datatype Error = ChangedWarning(stored: seq<KnownHost>) | AbortedByUser | AlreadyTrusts(stored: seq<KnownHost>)

  /** The id and the time are what the platform hands out for a new entry. */
  datatype Stamp = Stamp(id: string, now: Time)

  function NewEntry(host: string, port: nat, fingerprint: string, vault: string, s: Stamp): KnownHost {
    KnownHost(s.id, host, port, fingerprint, vault, s.now, s.now, None)
  }

  predicate LiveFor(e: KnownHost, host: string, port: nat) {
    e.deletedAt.None? && e.host == host && e.port == port
  }

  function Live(entries: seq<KnownHost>, host: string, port: nat): seq<KnownHost> {
    if entries == [] then []
    else
      var (init, e) := (Live(entries[..|entries| - 1], host, port), entries[|entries| - 1]);
      if LiveFor(e, host, port) then init + [e] else init
  }

  /** The set of fingerprints accepted for a host and port: what the list stands for. */
  function Trusted(entries: seq<KnownHost>, host: string, port: nat): set<string> {
    set i | 0 <= i < |entries| && LiveFor(entries[i], host, port) :: entries[i].fingerprint
  }

  lemma {:induction false} LiveIsTrusted(entries: seq<KnownHost>, host: string, port: nat)
    ensures forall f :: f in Trusted(entries, host, port) <==>
                          exists e :: e in Live(entries, host, port) && e.fingerprint == f
    ensures forall e | e in Live(entries, host, port) :: LiveFor(e, host, port) && e in entries
  {
    if entries == [] {
    } else {
      var init, last := entries[..|entries| - 1], entries[|entries| - 1];
      LiveIsTrusted(init, host, port);
      assert entries == init + [last];
      forall f ensures f in Trusted(entries, host, port) <==>
                         f in Trusted(init, host, port) || (LiveFor(last, host, port) && last.fingerprint == f) {
        TrustedGrows(init, last, host, port);
      }
      if LiveFor(last, host, port) {
        assert last in Live(entries, host, port);
      }
    }
  }

  lemma {:induction false} TrustedGrows(entries: seq<KnownHost>, e: KnownHost, host: string, port: nat)
    ensures Trusted(entries + [e], host, port) ==
              Trusted(entries, host, port) + if LiveFor(e, host, port) then {e.fingerprint} else {}
  {
    var all := entries + [e];
    assert all[|entries|] == e;
    forall f | f in Trusted(entries, host, port) ensures f in Trusted(all, host, port) {
      var i :| 0 <= i < |entries| && LiveFor(entries[i], host, port) && entries[i].fingerprint == f;
      assert all[i] == entries[i];
    }
  }

  function StatusOf(entries: seq<KnownHost>, host: string, port: nat, fingerprint: string): Status {
    if Trusted(entries, host, port) == {} then Unknown
    else if fingerprint in Trusted(entries, host, port) then Known
    else Changed(Live(entries, host, port))
  }

  function Retired(entries: seq<KnownHost>, host: string, port: nat, now: Time): seq<KnownHost> {
    seq(|entries|, i requires 0 <= i < |entries| =>
      if LiveFor(entries[i], host, port) then entries[i].(deletedAt := Some(now), updatedAt := now) else entries[i])
  }

  // ---------- what no operation undoes ----------

  /** Every entry keeps its place, its key and, once it is deleted, its tombstone. */
  ghost predicate Grows(before: seq<KnownHost>, after: seq<KnownHost>) {
    && |before| <= |after|
    && forall i | 0 <= i < |before| ::
         && after[i].id == before[i].id && after[i].host == before[i].host && after[i].port == before[i].port
         && after[i].fingerprint == before[i].fingerprint && after[i].createdAt == before[i].createdAt
         && (before[i].deletedAt.Some? ==> after[i].deletedAt.Some?)
  }

  lemma {:induction false} GrowsOn(a: seq<KnownHost>, b: seq<KnownHost>, c: seq<KnownHost>)
    requires Grows(a, b) && Grows(b, c)
    ensures Grows(a, c)
  {
  }

  ghost predicate OthersKept(before: seq<KnownHost>, after: seq<KnownHost>, host: string, port: nat) {
    forall h, p | h != host || p != port :: Trusted(after, h, p) == Trusted(before, h, p)
  }

  lemma {:induction false} AddingTrusts(entries: seq<KnownHost>, host: string, port: nat, fingerprint: string,
                                        vault: string, s: Stamp)
    ensures var after := entries + [NewEntry(host, port, fingerprint, vault, s)];
            && Trusted(after, host, port) == Trusted(entries, host, port) + {fingerprint}
            && OthersKept(entries, after, host, port) && Grows(entries, after)
  {
    var e := NewEntry(host, port, fingerprint, vault, s);
    forall h, p {
      TrustedGrows(entries, e, h, p);
    }
  }

  lemma {:induction false} RetiringClears(entries: seq<KnownHost>, host: string, port: nat, now: Time)
    ensures var after := Retired(entries, host, port, now);
            && Trusted(after, host, port) == {}
            && OthersKept(entries, after, host, port) && Grows(entries, after)
  {
    var after := Retired(entries, host, port, now);
    forall h, p, f | h != host || p != port
      ensures f in Trusted(after, h, p) <==> f in Trusted(entries, h, p)
    {
      if f in Trusted(entries, h, p) {
        var i :| 0 <= i < |entries| && LiveFor(entries[i], h, p) && entries[i].fingerprint == f;
        assert after[i] == entries[i];
      }
    }
    forall h, p | h != host || p != port ensures Trusted(after, h, p) == Trusted(entries, h, p) {
    }
  }

  // ---------- requests ----------

  /** `answer` is what a prompt comes to if one has to be shown: no action when it is refused. */
  datatype Request =
    | Add(host: string, port: nat, fingerprint: string, vault: string, s: Stamp)
    | AddOnce(host: string, port: nat, fingerprint: string, s: Stamp)
    | Replace(host: string, port: nat, fingerprint: string, vault: string, s: Stamp)
    | Trust(host: string, port: nat, fingerprint: string, vault: string, replace: bool, s: Stamp)
    | Verify(host: string, port: nat, fingerprint: string, answer: Option<Action>, s: Stamp)
    | Delete(id: string, s: Stamp)

  function Replaced(entries: seq<KnownHost>, host: string, port: nat, fingerprint: string, vault: string, s: Stamp)
      : seq<KnownHost> {
    Retired(entries, host, port, s.now) + [NewEntry(host, port, fingerprint, vault, s)]
  }

  /** The first entry with that id gets a tombstone. */
  function Deleted(entries: seq<KnownHost>, id: string, now: Time): seq<KnownHost> {
    if entries == [] then []
    else if entries[0].id == id then [entries[0].(deletedAt := Some(now), updatedAt := now)] + entries[1..]
    else [entries[0]] + Deleted(entries[1..], id, now)
  }

  function Applied(entries: seq<KnownHost>, r: Request): seq<KnownHost> {
    match r
    case Add(host, port, f, vault, s) => entries + [NewEntry(host, port, f, vault, s)]
    case AddOnce(host, port, f, s) =>
      if f in Trusted(entries, host, port) then entries else entries + [NewEntry(host, port, f, "personal", s)]
    case Replace(host, port, f, vault, s) => Replaced(entries, host, port, f, vault, s)
    case Trust(host, port, f, vault, replace, s) =>
      if replace then Replaced(entries, host, port, f, vault, s)
      else if Trusted(entries, host, port) == {} then entries + [NewEntry(host, port, f, vault, s)]
      else entries
    case Verify(host, port, f, answer, s) =>
      var t := Trusted(entries, host, port);
      if f in t then entries
      else if t == {} || answer == Some(AddNew) then entries + [NewEntry(host, port, f, "personal", s)]
      else if answer == Some(Action.Replace) then Replaced(entries, host, port, f, "personal", s)
      else entries
    case Delete(id, s) => Deleted(entries, id, s.now)
  }

  function Run(entries: seq<KnownHost>, rs: seq<Request>): seq<KnownHost> {
    if rs == [] then entries else Applied(Run(entries, rs[..|rs| - 1]), rs[|rs| - 1])
  }

  function VaultOf(r: Request): string
    requires !r.Delete?
  {
    if r.Verify? || r.AddOnce? then "personal" else r.vault
  }

  /** A request adds at most one entry, live and made of what it names, and touches the others only by
      giving some a tombstone of its own time. */
  lemma {:induction false} EntriesSayWhatWasAsked(entries: seq<KnownHost>, r: Request)
    ensures var after := Applied(entries, r);
            && |entries| <= |after| <= |entries| + 1
            && (forall i | 0 <= i < |entries| ::
                  || after[i] == entries[i]
                  || after[i] == entries[i].(deletedAt := Some(r.s.now), updatedAt := r.s.now))
            && (|after| > |entries| ==>
                  var e := after[|entries|];
                  && !r.Delete? && e.id == r.s.id
                  && e.host == r.host && e.port == r.port && e.fingerprint == r.fingerprint
                  && e.vault == VaultOf(r) && e.createdAt == e.updatedAt == r.s.now && e.deletedAt.None?)
  {
    if r.Delete? {
      var i := DeletedIsFirst(entries, r.id, r.s.now);
    }
  }

  /** The live entries of a host keep the order of the list, and each is there once. */
  lemma {:induction false} LiveInOrder(a: seq<KnownHost>, b: seq<KnownHost>, host: string, port: nat)
    ensures Live(a + b, host, port) == Live(a, host, port) + Live(b, host, port)
    ensures |a| == 1 ==>
              Live(a, host, port) == (if a[0].deletedAt.None? && a[0].host == host && a[0].port == port then a else [])
  {
    if b == [] {
      assert a + b == a;
    } else {
      var init := b[..|b| - 1];
      assert (a + b)[..|a + b| - 1] == a + init;
      LiveInOrder(a, init, host, port);
    }
    assert |a| == 1 ==> a[..0] == [] && a == [a[0]];
  }

  // ---------- the sets of keys ----------

  /** What a request does to the keys of the host it names, known by these keys alone. */
  function KeysAfter(keys: set<string>, r: Request): set<string>
    requires !r.Delete?
  {
    match r
    case Add(_, _, f, _, _) => keys + {f}
    case AddOnce(_, _, f, _) => keys + {f}
    case Replace(_, _, f, _, _) => {f}
    case Trust(_, _, f, _, replace, _) => if replace || keys == {} then {f} else keys
    case Verify(_, _, f, answer, _) =>
      if f in keys then keys
      else if keys == {} || answer == Some(AddNew) then keys + {f}
      else if answer == Some(Action.Replace) then {f}
      else keys
  }

  ghost predicate Loses(before: seq<KnownHost>, after: seq<KnownHost>, host: string, port: nat, gone: set<string>) {
    Trusted(after, host, port) == Trusted(before, host, port) - gone && OthersKept(before, after, host, port)
  }

  /** The set machine's step: one host's keys move, and by a delete at most one key goes. */
  ghost predicate Moves(before: seq<KnownHost>, after: seq<KnownHost>, r: Request) {
    if r.Delete? then exists host, port, gone :: |gone| <= 1 && Loses(before, after, host, port, gone)
    else
      && Trusted(after, r.host, r.port) == KeysAfter(Trusted(before, r.host, r.port), r)
      && OthersKept(before, after, r.host, r.port)
  }

  lemma {:induction false} ReplacingTrusts(entries: seq<KnownHost>, host: string, port: nat, f: string, vault: string,
                                           s: Stamp)
    ensures var after := Replaced(entries, host, port, f, vault, s);
            Trusted(after, host, port) == {f} && OthersKept(entries, after, host, port) && Grows(entries, after)
  {
    var retired := Retired(entries, host, port, s.now);
    RetiringClears(entries, host, port, s.now);
    AddingTrusts(retired, host, port, f, vault, s);
    GrowsOn(entries, retired, Replaced(entries, host, port, f, vault, s));
  }

  lemma {:induction false} DeletedIsFirst(entries: seq<KnownHost>, id: string, now: Time) returns (i: nat)
    ensures i <= |entries| && forall j | 0 <= j < i :: entries[j].id != id
    ensures if i == |entries| then Deleted(entries, id, now) == entries
            else FirstWith(entries, id, i)
                 && Deleted(entries, id, now) == entries[i := entries[i].(deletedAt := Some(now), updatedAt := now)]
  {
    if entries == [] {
      i := 0;
    } else if entries[0].id == id {
      i := 0;
    } else {
      var rest := entries[1..];
      var j := DeletedIsFirst(rest, id, now);
      i := j + 1;
      assert entries == [entries[0]] + rest;
    }
  }

  lemma {:induction false} DeletingMoves(entries: seq<KnownHost>, id: string, s: Stamp)
    ensures Moves(entries, Deleted(entries, id, s.now), Delete(id, s)) && Grows(entries, Deleted(entries, id, s.now))
  {
    var i := DeletedIsFirst(entries, id, s.now);
    var after := Deleted(entries, id, s.now);
    if i == |entries| {
      assert Loses(entries, after, "", 0, {});
    } else {
      DeletingTakesOne(entries, i, s.now);
      var gone := if HeldTwice(entries, i) then {} else {entries[i].fingerprint};
      assert Loses(entries, after, entries[i].host, entries[i].port, gone);
    }
  }

  lemma {:induction false} RequestMoves(entries: seq<KnownHost>, r: Request)
    ensures Moves(entries, Applied(entries, r), r) && Grows(entries, Applied(entries, r))
  {
    match r
    case Add(host, port, f, vault, s) => AddingTrusts(entries, host, port, f, vault, s);
    case AddOnce(host, port, f, s) => AddingTrusts(entries, host, port, f, "personal", s);
    case Replace(host, port, f, vault, s) => ReplacingTrusts(entries, host, port, f, vault, s);
    case Trust(host, port, f, vault, _, s) =>
      ReplacingTrusts(entries, host, port, f, vault, s);
      AddingTrusts(entries, host, port, f, vault, s);
    case Verify(host, port, f, _, s) =>
      ReplacingTrusts(entries, host, port, f, "personal", s);
      AddingTrusts(entries, host, port, f, "personal", s);
    case Delete(id, s) => DeletingMoves(entries, id, s);
  }

  /** Over every run the keys of all hosts move as the set machine says, step by step, and no entry
      vanishes, changes its key or loses its tombstone from the beginning to the end. */
  lemma {:induction false} RunFollowsSetMachine(entries: seq<KnownHost>, rs: seq<Request>)
    ensures forall i | 0 <= i < |rs| :: Moves(Run(entries, rs[..i]), Run(entries, rs[..i + 1]), rs[i])
    ensures Grows(entries, Run(entries, rs))
  {
    if rs == [] {
    } else {
      var init, r := rs[..|rs| - 1], rs[|rs| - 1];
      RunFollowsSetMachine(entries, init);
      RequestMoves(Run(entries, init), r);
      GrowsOn(entries, Run(entries, init), Run(entries, rs));
      forall i | 0 <= i < |rs| ensures Moves(Run(entries, rs[..i]), Run(entries, rs[..i + 1]), rs[i]) {
        assert rs[..i] == init[..i];
        if i < |init| {
          assert rs[..i + 1] == init[..i + 1];
          assert Moves(Run(entries, init[..i]), Run(entries, init[..i + 1]), init[i]);
        } else {
          assert rs[..i + 1] == rs;
        }
      }
    }
  }

  /** A request that can leave a host with a second key: one that says so. */
  predicate AddsKey(r: Request) {
    r.Add? || r.AddOnce? || (r.Verify? && r.answer == Some(AddNew))
  }

  /** Trusting, replacing, verifying and deleting never give a host a second key, over any run: only a
      request to add one does. */
  lemma {:induction false} OneKeyEach(entries: seq<KnownHost>, rs: seq<Request>, host: string, port: nat)
    requires |Trusted(entries, host, port)| <= 1 && forall r | r in rs :: !AddsKey(r)
    ensures |Trusted(Run(entries, rs), host, port)| <= 1
  {
    if rs == [] {
    } else {
      var init, r := rs[..|rs| - 1], rs[|rs| - 1];
      assert r in rs && forall x | x in init :: x in rs;
      OneKeyEach(entries, init, host, port);
      RequestMoves(Run(entries, init), r);
      OneKeyKept(Run(entries, init), Run(entries, rs), r, host, port);
    }
  }

  lemma {:induction false} OneKeyKept(before: seq<KnownHost>, after: seq<KnownHost>, r: Request, host: string,
                                      port: nat)
    requires Moves(before, after, r) && !AddsKey(r) && |Trusted(before, host, port)| <= 1
    ensures |Trusted(after, host, port)| <= 1
  {
    if r.Delete? {
      var h, p, gone :| |gone| <= 1 && Loses(before, after, h, p, gone);
      if h == host && p == port {
        Fewer(Trusted(after, h, p), Trusted(before, h, p));
      }
    }
  }

  lemma {:induction false} Fewer(a: set<string>, b: set<string>)
    requires a <= b
    ensures |a| <= |b|
  {
    assert b == a + (b - a);
  }

  // ---------- the store ----------

  /** A prompt for one session, and what happens to the table of prompts from when it is shown until its
      receiver hears something or cannot hear anything any more. */
  datatype Prompt = Prompt(session: string, pending: Pending, meanwhile: seq<Op>)

  function Reply(p: Prompt): Option<Action>
    requires Outcome(p.session, p.meanwhile).Some?
  {
    Outcome(p.session, p.meanwhile).value
  }

  class Store {
    var entries: seq<KnownHost>

    constructor (entries: seq<KnownHost>)
      ensures this.entries == entries
    {
      this.entries := entries;
    }

    method EntriesFor(host: string, port: nat) returns (live: seq<KnownHost>)
      ensures live == Live(entries, host, port)
    {
      live := [];
      for i := 0 to |entries|
        invariant live == Live(entries[..i], host, port)
      {
        assert entries[..i + 1][..i] == entries[..i];
        if LiveFor(entries[i], host, port) {
          live := live + [entries[i]];
        }
      }
      assert entries[..|entries|] == entries;
    }

    method Check(host: string, port: nat, fingerprint: string) returns (s: Status)
      ensures s == StatusOf(entries, host, port, fingerprint)
    {
      var matching := EntriesFor(host, port);
      LiveIsTrusted(entries, host, port);
      if matching == [] {
        return Unknown;
      }
      assert matching[0].fingerprint in Trusted(entries, host, port);
      for i := 0 to |matching|
        invariant forall j | 0 <= j < i :: matching[j].fingerprint != fingerprint
      {
        if matching[i].fingerprint == fingerprint {
          return Known;
        }
      }
      return Changed(matching);
    }

    method AddNew(host: string, port: nat, fingerprint: string, vault: string, s: Stamp) returns (e: KnownHost)
      modifies this
      ensures e == NewEntry(host, port, fingerprint, vault, s) && entries == old(entries) + [e]
      ensures entries == Applied(old(entries), Add(host, port, fingerprint, vault, s))
      ensures Trusted(entries, host, port) == Trusted(old(entries), host, port) + {fingerprint}
      ensures OthersKept(old(entries), entries, host, port) && Grows(old(entries), entries)
    {
      AddingTrusts(entries, host, port, fingerprint, vault, s);
      e := NewEntry(host, port, fingerprint, vault, s);
      entries := entries + [e];
    }

    /** No second live entry for a key that has one. */
    method AddOnce(host: string, port: nat, fingerprint: string, s: Stamp)
      modifies this
      ensures entries == old(entries) +
                         if fingerprint in Trusted(old(entries), host, port) then []
                         else [NewEntry(host, port, fingerprint, "personal", s)]
      ensures entries == Applied(old(entries), Request.AddOnce(host, port, fingerprint, s))
      ensures Trusted(entries, host, port) == Trusted(old(entries), host, port) + {fingerprint}
      ensures OthersKept(old(entries), entries, host, port) && Grows(old(entries), entries)
    {
      for i := 0 to |entries|
        invariant entries == old(entries)
        invariant forall j | 0 <= j < i :: !(LiveFor(entries[j], host, port) && entries[j].fingerprint == fingerprint)
      {
        if LiveFor(entries[i], host, port) && entries[i].fingerprint == fingerprint {
          return;
        }
      }
      var _ := AddNew(host, port, fingerprint, "personal", s);
    }

    method RetireAll(host: string, port: nat, now: Time)
      modifies this
      ensures entries == Retired(old(entries), host, port, now)
    {
      ghost var target := Retired(entries, host, port, now);
      for i := 0 to |entries|
        invariant |entries| == |target|
        invariant forall j | 0 <= j < i :: entries[j] == target[j]
        invariant forall j | i <= j < |entries| :: entries[j] == old(entries)[j]
      {
        var e := entries[i];
        if LiveFor(e, host, port) {
          entries := entries[i := e.(deletedAt := Some(now), updatedAt := now)];
        }
      }
    }

    /** Marks every live entry of the host deleted and adds one: exactly the new key is trusted. */
    method ReplaceAll(host: string, port: nat, fingerprint: string, vault: string, s: Stamp) returns (e: KnownHost)
      modifies this
      ensures e == NewEntry(host, port, fingerprint, vault, s)
      ensures Trusted(entries, host, port) == {fingerprint}
      ensures OthersKept(old(entries), entries, host, port) && Grows(old(entries), entries)
      ensures entries == Retired(old(entries), host, port, s.now) + [e]
      ensures entries == Applied(old(entries), Request.Replace(host, port, fingerprint, vault, s))
    {
      RetireAll(host, port, s.now);
      RetiringClears(old(entries), host, port, s.now);
      ghost var retired := entries;
      e := AddNew(host, port, fingerprint, vault, s);
      GrowsOn(old(entries), retired, entries);
    }

    /** Without `replace`, a host with live keys is refused and keeps them, so no second key is added. */
    method Trust(host: string, port: nat, fingerprint: string, vault: string, replace: bool, s: Stamp)
        returns (r: Result<(KnownHost, seq<KnownHost>), Error>)
      modifies this
      ensures r.Err? <==> !replace && Trusted(old(entries), host, port) != {}
      ensures r.Err? ==> entries == old(entries) && r.error == AlreadyTrusts(Live(old(entries), host, port))
      ensures r.Ok? ==> Trusted(entries, host, port) == {fingerprint}
      ensures entries == Applied(old(entries), Request.Trust(host, port, fingerprint, vault, replace, s))
      ensures r.Ok? ==>
                entries == (if replace then Retired(old(entries), host, port, s.now) else old(entries)) + [r.value.0]
      ensures r.Ok? ==> r.value == (NewEntry(host, port, fingerprint, vault, s), Live(old(entries), host, port))
      ensures OthersKept(old(entries), entries, host, port) && Grows(old(entries), entries)
    {
      LiveIsTrusted(entries, host, port);
      var existing := EntriesFor(host, port);
      if replace {
        var e := ReplaceAll(host, port, fingerprint, vault, s);
        return Ok((e, existing));
      }
      if existing != [] {
        assert existing[0].fingerprint in Trusted(entries, host, port);
        return Err(AlreadyTrusts(existing));
      }
      var e := AddNew(host, port, fingerprint, vault, s);
      return Ok((e, []));
    }

    /** Ok means the key is trusted now; on an error nothing changed. Without a prompt, or with one that
        was cancelled early, was replaced or was answered with an abort, a changed key is an error. */
    method VerifyOrPrompt(host: string, port: nat, fingerprint: string, prompt: Option<Prompt>, s: Stamp)
        returns (r: Result<(), Error>)
      requires prompt.Some? ==>
                 prompt.value.pending.Valid() && Outcome(prompt.value.session, prompt.value.meanwhile).Some?
      modifies this
      modifies if prompt.Some? then {prompt.value.pending as object, prompt.value.pending.aborted} else {}
      ensures r.Ok? ==> fingerprint in Trusted(entries, host, port)
      ensures r.Err? ==> entries == old(entries)
      ensures r.Err? <==>
                && Trusted(old(entries), host, port) != {} && fingerprint !in Trusted(old(entries), host, port)
                && (prompt.None? || prompt.value.session in old(prompt.value.pending.aborted.ids)
                    || Reply(prompt.value) in {None, Some(Abort)})
      ensures prompt.Some? ==>
                && prompt.value.pending.Valid()
                && var (before, p) := (old(prompt.value.pending.Now()), prompt.value);
                   p.pending.Now() ==
                   if !StatusOf(old(entries), host, port, fingerprint).Changed? then before
                   else if p.session in before.aborted then Step(before, Wait(p.session))
                   else PendingConflicts.Run(Step(before, Wait(p.session)), p.meanwhile)
      ensures r.Ok? ==>
                var before := Trusted(old(entries), host, port);
                var add := before == {} || fingerprint in before || Reply(prompt.value) == Some(Action.AddNew);
                && Trusted(entries, host, port) == (if add then before + {fingerprint} else {fingerprint})
                && entries ==
                   if fingerprint in before then old(entries)
                   else if add then old(entries) + [NewEntry(host, port, fingerprint, "personal", s)]
                   else Replaced(old(entries), host, port, fingerprint, "personal", s)
      ensures var answer := if prompt.None? || prompt.value.session in old(prompt.value.pending.aborted.ids) then None
                            else Reply(prompt.value);
              entries == Applied(old(entries), Verify(host, port, fingerprint, answer, s))
      ensures OthersKept(old(entries), entries, host, port) && Grows(old(entries), entries)
    {
      var status := Check(host, port, fingerprint);
      match status
      case Known => return Ok(());
      case Unknown =>
        var _ := AddNew(host, port, fingerprint, "personal", s);
        return Ok(());
      case Changed(stored) =>
        if prompt.None? {
          return Err(ChangedWarning(stored));
        }
        var p := prompt.value;
        ghost var before := p.pending.Now();
        var shown := p.pending.Wait(p.session);
        if shown.None? {
          return Err(AbortedByUser);
        }
        PromptHears(before, p.session, p.meanwhile);
        var reply := p.pending.Receive(shown.value, p.meanwhile);
        assert reply == Reply(p);
        match reply
        case Some(AddNew) =>
          var _ := AddNew(host, port, fingerprint, "personal", s);
          return Ok(());
        case Some(Replace) =>
          var _ := ReplaceAll(host, port, fingerprint, "personal", s);
          return Ok(());
        case _ => return Err(AbortedByUser);
    }

    /** Marks the first entry with that id deleted and touches no other. The host loses that key unless
        another live entry of it holds the same key. */
    method Delete(id: string, s: Stamp)
      modifies this
      ensures entries == Applied(old(entries), Request.Delete(id, s))
      ensures (forall e | e in old(entries) :: e.id != id) ==> entries == old(entries)
      ensures forall i | FirstWith(old(entries), id, i) ::
                var e := old(entries)[i];
                && entries == old(entries)[i := e.(deletedAt := Some(s.now), updatedAt := s.now)]
                && OthersKept(old(entries), entries, e.host, e.port)
                && Trusted(entries, e.host, e.port) ==
                   Trusted(old(entries), e.host, e.port) - if HeldTwice(old(entries), i) then {} else {e.fingerprint}
      ensures Grows(old(entries), entries)
    {
      ghost var first := DeletedIsFirst(entries, id, s.now);
      for i := 0 to |entries|
        invariant entries == old(entries)
        invariant forall j | 0 <= j < i :: entries[j].id != id
      {
        if entries[i].id == id {
          assert FirstWith(entries, id, i) && first == i;
          entries := entries[i := entries[i].(deletedAt := Some(s.now), updatedAt := s.now)];
          DeletingTakesOne(old(entries), i, s.now);
          return;
        }
      }
    }
  }

  ghost predicate FirstWith(entries: seq<KnownHost>, id: string, i: int) {
    0 <= i < |entries| && entries[i].id == id && forall j | 0 <= j < i :: entries[j].id != id
  }

  /** Another live entry of the same host holds the same key. */
  ghost predicate HeldTwice(entries: seq<KnownHost>, i: nat)
    requires i < |entries|
  {
    exists j :: 0 <= j < |entries| && j != i && LiveFor(entries[j], entries[i].host, entries[i].port)
                && entries[j].fingerprint == entries[i].fingerprint
  }

  lemma {:induction false} DeletingTakesOne(before: seq<KnownHost>, i: nat, now: Time)
    requires i < |before|
    ensures var e := before[i];
            var after := before[i := e.(deletedAt := Some(now), updatedAt := now)];
            && OthersKept(before, after, e.host, e.port)
            && Trusted(after, e.host, e.port) ==
               Trusted(before, e.host, e.port) - if HeldTwice(before, i) then {} else {e.fingerprint}
  {
    var e := before[i];
    var after := before[i := e.(deletedAt := Some(now), updatedAt := now)];
    forall h, p, f
      ensures f in Trusted(after, h, p) <==>
                f in Trusted(before, h, p) && (e.fingerprint != f || !LiveFor(e, h, p) || HeldTwice(before, i))
    {
      OneKeyLeft(before, after, i, h, p, f);
    }
    forall h, p | h != e.host || p != e.port ensures Trusted(after, h, p) == Trusted(before, h, p) {
    }
    if e.deletedAt.Some? && !HeldTwice(before, i) {
      assert e.fingerprint !in Trusted(before, e.host, e.port);
    }
  }

  lemma {:induction false} OneKeyLeft(before: seq<KnownHost>, after: seq<KnownHost>, i: nat, h: string, p: nat,
                                      f: string)
    requires i < |before| && |after| == |before| && after[i].deletedAt.Some?
    requires forall j | 0 <= j < |before| && j != i :: after[j] == before[j]
    ensures var e := before[i];
            f in Trusted(after, h, p) <==>
              f in Trusted(before, h, p) && (e.fingerprint != f || !LiveFor(e, h, p) || HeldTwice(before, i))
  {
    if f in Trusted(after, h, p) {
      var j :| 0 <= j < |after| && LiveFor(after[j], h, p) && after[j].fingerprint == f;
      assert j != i && before[j] == after[j];
    }
    if f in Trusted(before, h, p) {
      var j :| 0 <= j < |before| && LiveFor(before[j], h, p) && before[j].fingerprint == f;
      if j != i {
        assert after[j] == before[j];
      } else if HeldTwice(before, i) {
        var k :| 0 <= k < |before| && k != i && LiveFor(before[k], before[i].host, before[i].port)
                 && before[k].fingerprint == before[i].fingerprint;
        assert after[k] == before[k];
      }
    }
  }

  /** The status is decided by membership in the trusted set, or by its being empty, and nothing else;
      a changed host lists its live keys in order. */
  lemma {:induction false} StatusIsMembership(entries: seq<KnownHost>, host: string, port: nat, fingerprint: string)
    ensures var (s, t) := (StatusOf(entries, host, port, fingerprint), Trusted(entries, host, port));
            && (s.Known? <==> fingerprint in t) && (s.Unknown? <==> t == {})
            && (s.Changed? <==> t != {} && fingerprint !in t)
            && (s.Changed? ==> forall f :: f in t <==> exists e :: e in s.stored && e.fingerprint == f)
            && (s.Changed? ==> forall e | e in s.stored :: e in entries && LiveFor(e, host, port))
  {
    LiveIsTrusted(entries, host, port);
  }
}

/** What a process remembers of a key once it has settled it, and that it then answers for the key without
    asking the store again. */
module KeychainMemory {
  import opened Outcomes
  import opened Keychain
  import opened KeychainBundle

  /** The cached bundle has `v` on record for the key: a secret, or nothing. */
  ghost predicate Remembers(w: World, k: Slot, v: Option<Stored>) {
    k.service in w.cache && k.user in w.cache[k.service] && w.cache[k.service][k.user] == v
  }

  lemma {:induction false} ReadIsRemembered(bundled: string -> bool, fails: Faults, w: World, k: Slot)
    requires Agrees(bundled, w) && bundled(k.service) && k.user != BUNDLE_USER
    ensures var (w', r) := GetSecret(fails, w, k);
            && (r == Err(NoEntry) ==> Remembers(w', k, None))
            && (r.Ok? ==> k.service in w'.cache)
  {
    OpenedMirrors(bundled, fails, w, k.service);
  }

  lemma {:induction false} SetIsRemembered(fails: Faults, w: World, k: Slot, secret: Bytes)
    ensures var (w', r) := SetSecret(fails, w, k, secret);
            r.Ok? ==> Remembers(w', k, Some(Base64(secret)))
  {
  }

  lemma {:induction false} DeleteIsRemembered(bundled: string -> bool, fails: Faults, w: World, k: Slot)
    requires Agrees(bundled, w) && bundled(k.service) && k.user != BUNDLE_USER
    ensures var (w', r) := DeleteCredential(fails, w, k);
            r.Ok? || r == Err(NoEntry) ==> Remembers(w', k, None)
  {
    OpenedMirrors(bundled, fails, w, k.service);
  }

  /** After any reply that settles the key, and after a read whose secret moved into the bundle. */
  lemma {:induction false} RepliesAreRemembered(bundled: string -> bool, fails: Faults, w: World, k: Slot, req: Request)
    requires Agrees(bundled, w) && bundled(k.service) && k.user != BUNDLE_USER
    ensures var (w', reply) := Serve(bundled, fails, w, k, req);
            && (reply == Failed(NoEntry) ==> Remembers(w', k, None))
            && (reply == Done ==> Remembers(w', k, if req.Set? then Some(Base64(req.secret)) else None))
            && (reply.Secret? && k.user in Persisted(w'.disk.items, k.service) ==>
                  Remembers(w', k, Some(Base64(reply.bytes))))
  {
    ServeRefinesPlainMap(bundled, fails, w, k, req);
    match req
    case Get =>
      ReadIsRemembered(bundled, fails, w, k);
      var (w', reply) := Serve(bundled, fails, w, k, req);
      if reply.Secret? {
        PersistedIsRemembered(bundled, w', k, Some(Base64(reply.bytes)));
      }
    case Set(secret) => SetIsRemembered(fails, w, k, secret);
    case Delete => DeleteIsRemembered(bundled, fails, w, k);
  }

  lemma {:induction false} PersistedIsRemembered(bundled: string -> bool, w: World, k: Slot, v: Option<Stored>)
    requires Agrees(bundled, w) && bundled(k.service) && k.service in w.cache
    requires View(bundled, w.disk.items, k) == v
    ensures k.user in Persisted(w.disk.items, k.service) ==> Remembers(w, k, v)
  {
    assert Mirrors(w.disk.items, k.service, w.cache[k.service]);
  }

  /** Unless a call failed, every read that finds a secret leaves it in the bundle. */
  lemma {:induction false} FoundSecretsMove(bundled: string -> bool, fails: Faults, w: World, k: Slot)
    requires Agrees(bundled, w) && bundled(k.service) && k.user != BUNDLE_USER && Readable(w.disk.items, k.service)
    requires Faultless(fails, w.disk, Serve(bundled, fails, w, k, Get).0.disk)
    ensures var (w', reply) := Serve(bundled, fails, w, k, Get);
            reply.Secret? ==> k.user in Persisted(w'.disk.items, k.service)
  {
    ServeRefinesPlainMap(bundled, fails, w, k, Get);
    var (w', reply) := Serve(bundled, fails, w, k, Get);
    if reply.Secret? {
      assert View(bundled, w'.disk.items, k) == Some(Base64(reply.bytes));
      if k.user in Persisted(w.disk.items, k.service) {
        assert View(bundled, w'.disk.items, k) == Persisted(w.disk.items, k.service)[k.user];
        OpenedMirrors(bundled, fails, w, k.service);
      }
    }
  }

  /** Of a remembered key reads are answered on the spot, and so is the deletion of an absent one,
      whatever the store would do: no call is made and nothing changes. */
  lemma {:induction false} RememberedAnswers(bundled: string -> bool, fails: Faults, w: World, k: Slot,
                                             v: Option<Stored>)
    requires bundled(k.service) && k.user != BUNDLE_USER && Remembers(w, k, v)
    ensures Serve(bundled, fails, w, k, Get) == (w, PlainReply(v, Get))
    ensures v == None ==> Serve(bundled, fails, w, k, Delete) == (w, Failed(NoEntry))
  {
  }

  /** What makes a process forget that it has `v` for the key: its end, or a write of that key. */
  predicate Forgets(e: Event, k: Slot, v: Option<Stored>) {
    !e.Call? || (e.k == k && (e.req.Set? || (e.req == Delete && v.Some?)))
  }

  lemma {:induction false} StepRemembers(bundled: string -> bool, fails: Faults, w: World, k: Slot, v: Option<Stored>,
                                         e: Event)
    requires bundled(k.service) && k.user != BUNDLE_USER && Remembers(w, k, v) && !Forgets(e, k, v)
    ensures Remembers(Step(bundled, fails, w, e).0, k, v)
  {
    if e.k == k {
      RememberedAnswers(bundled, fails, w, k, v);
    } else if bundled(e.k.service) && e.k.user != BUNDLE_USER {
      OthersLeaveRecord(bundled, fails, w, k, v, e.k, e.req);
    }
  }

  lemma {:induction false} OthersLeaveRecord(bundled: string -> bool, fails: Faults, w: World, k: Slot,
                                             v: Option<Stored>,
                                             other: Slot, req: Request)
    requires Remembers(w, k, v) && other != k && bundled(other.service) && other.user != BUNDLE_USER
    ensures Remembers(Serve(bundled, fails, w, other, req).0, k, v)
  {
    var (w1, loaded) := Opened(fails, w, other.service);
    assert Remembers(w1, k, v);
    if loaded.Ok? {
      assert other.service == k.service ==> loaded.value == w.cache[k.service];
    }
  }

  lemma {:induction false} RunRemembers(bundled: string -> bool, fails: Faults, w: World, k: Slot, v: Option<Stored>,
                                        es: seq<Event>)
    requires bundled(k.service) && k.user != BUNDLE_USER && Remembers(w, k, v)
    requires forall e | e in es :: !Forgets(e, k, v)
    ensures forall i | 0 <= i <= |es| :: Remembers(Trace(bundled, fails, w, es)[i], k, v)
    decreases |es|
  {
    if es == [] {
    } else {
      var w' := Step(bundled, fails, w, es[0]).0;
      assert es[0] in es && forall e | e in es[1..] :: e in es;
      StepRemembers(bundled, fails, w, k, v, es[0]);
      RunRemembers(bundled, fails, w', k, v, es[1..]);
      assert Trace(bundled, fails, w, es) == [w] + Trace(bundled, fails, w', es[1..]);
    }
  }

  /** A key found absent stays known as absent: until the process ends or the key is set, every read and
      every deletion of it answers that there is no entry, without any call, however the store fares. */
  lemma {:induction false} MissesAreRemembered(bundled: string -> bool, fails: Faults, w: World, k: Slot,
                                               first: Request,
                                               es: seq<Event>, i: nat, later: Faults, req: Request)
    requires Agrees(bundled, w) && bundled(k.service) && k.user != BUNDLE_USER && !first.Set? && !req.Set?
    requires Serve(bundled, fails, w, k, first).1 == Failed(NoEntry)
    requires i <= |es| && forall e | e in es :: !Forgets(e, k, None)
    ensures var t := Trace(bundled, fails, Serve(bundled, fails, w, k, first).0, es)[i];
            && Serve(bundled, later, t, k, req) == (t, Failed(NoEntry))
            && |Serve(bundled, later, t, k, req).0.disk.journal| == |t.disk.journal|
  {
    RepliesAreRemembered(bundled, fails, w, k, first);
    RunRemembers(bundled, fails, Serve(bundled, fails, w, k, first).0, k, None, es);
    RememberedAnswers(bundled, later, Trace(bundled, fails, Serve(bundled, fails, w, k, first).0, es)[i], k, None);
  }

  /** A key that was set, or read and moved into the bundle, is read without any call from then on, until
      the process ends or the key is written again. */
  lemma {:induction false} SecretsAreRemembered(bundled: string -> bool, fails: Faults, w: World, k: Slot, req: Request,
                                                secret: Bytes, es: seq<Event>, i: nat, later: Faults)
    requires Agrees(bundled, w) && bundled(k.service) && k.user != BUNDLE_USER
    requires var (w', reply) := Serve(bundled, fails, w, k, req);
             || (req == Set(secret) && reply == Done)
             || (req == Get && reply == Secret(secret) && k.user in Persisted(w'.disk.items, k.service))
    requires i <= |es| && forall e | e in es :: !Forgets(e, k, Some(Base64(secret)))
    ensures var t := Trace(bundled, fails, Serve(bundled, fails, w, k, req).0, es)[i];
            && Serve(bundled, later, t, k, Get) == (t, Secret(secret))
            && |Serve(bundled, later, t, k, Get).0.disk.journal| == |t.disk.journal|
  {
    var (w', v) := (Serve(bundled, fails, w, k, req).0, Some(Base64(secret)));
    RepliesAreRemembered(bundled, fails, w, k, req);
    RunRemembers(bundled, fails, w', k, v, es);
    RememberedAnswers(bundled, later, Trace(bundled, fails, w', es)[i], k, v);
  }

  /** However often and in whatever order a process uses a service, it reads the service's bundle from the
      store no more once it has: a cached service stays cached while the process lives. */
  lemma {:induction false} StaysOpen(bundled: string -> bool, fails: Faults, w: World, service: string, e: Event)
    requires service in w.cache && e.Call?
    ensures service in Step(bundled, fails, w, e).0.cache
    ensures Opened(fails, w, service) == (w, Ok(w.cache[service]))
  {
    if bundled(e.k.service) && e.k.user != BUNDLE_USER {
      assert service in Opened(fails, w, e.k.service).0.cache;
      match e.req
      case Get => assert service in GetSecret(fails, w, e.k).0.cache;
      case Set(secret) => assert service in SetSecret(fails, w, e.k, secret).0.cache;
      case Delete => assert service in DeleteCredential(fails, w, e.k).0.cache;
    }
  }

  // ---------- which failures show ----------

  /** The bundle, cached or else stored, has a record of the key. */
  predicate Recorded(w: World, k: Slot) {
    if k.service in w.cache then k.user in w.cache[k.service] else k.user in Persisted(w.disk.items, k.service)
  }

  /** A read fails exactly when one of the calls it cannot do without fails: loading the bundle unless it
      is cached, and reading the older item unless the bundle has a record. Moving that item into the
      bundle may fail and the secret is returned all the same. */
  lemma {:induction false} WhenReadsFail(bundled: string -> bool, fails: Faults, w: World, k: Slot)
    requires Agrees(bundled, w) && bundled(k.service) && k.user != BUNDLE_USER && Readable(w.disk.items, k.service)
    ensures var (n, cold) := (|w.disk.journal|, k.service !in w.cache);
            var reply := Serve(bundled, fails, w, k, Get).1;
            if (cold && fails(n)) || (!Recorded(w, k) && fails(if cold then n + 1 else n))
            then reply == Failed(Unavailable)
            else reply == PlainReply(View(bundled, w.disk.items, k), Get)
  {
    OpenedMirrors(bundled, fails, w, k.service);
  }

  /** A set fails exactly when loading or saving the bundle does. */
  lemma {:induction false} WhenSetsFail(bundled: string -> bool, fails: Faults, w: World, k: Slot, secret: Bytes)
    requires Agrees(bundled, w) && bundled(k.service) && k.user != BUNDLE_USER && Readable(w.disk.items, k.service)
    ensures var (n, cold) := (|w.disk.journal|, k.service !in w.cache);
            Serve(bundled, fails, w, k, Set(secret)).1 ==
            if (cold && fails(n)) || fails(if cold then n + 1 else n) then Failed(Unavailable) else Done
  {
  }

  /** A delete makes no save for a key known to be absent; otherwise it fails exactly when loading or saving
      the bundle does, and says there was nothing only when no record was there and the erase finds nothing. */
  lemma {:induction false} WhenDeletesFail(bundled: string -> bool, fails: Faults, w: World, k: Slot)
    requires Agrees(bundled, w) && bundled(k.service) && k.user != BUNDLE_USER && Readable(w.disk.items, k.service)
    ensures var (n, cold) := (|w.disk.journal|, k.service !in w.cache);
            var (saves, v) := (if cold then n + 1 else n, View(bundled, w.disk.items, k));
            Serve(bundled, fails, w, k, Delete).1 ==
            if cold && fails(n) then Failed(Unavailable)
            else if Recorded(w, k) && v == None then Failed(NoEntry)
            else if fails(saves) then Failed(Unavailable)
            else if Recorded(w, k) || v.Some? || fails(saves + 1) then Done
            else Failed(NoEntry)
  {
    OpenedMirrors(bundled, fails, w, k.service);
  }
}

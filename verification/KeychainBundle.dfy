/** The platform credential store underneath the bundle: a map whose every call may fail.
    A call that fails changes nothing and is never reported as NoEntry. */
module Keychain {
  import opened Outcomes

  type Bundle = map<string, Option<Stored>>

  /** Secrets and items are bytes. Bytes are kept abstract up to the two codecs the code uses:
      the JSON form of a bundle and base64. Anything else is not the output of either. */
  datatype Bytes = Opaque(id: nat) | Json(bundle: Bundle)

  datatype Stored = Base64(bytes: Bytes) | NotBase64(id: nat)

  datatype Error = NoEntry | BadDataFormat | Unavailable | NotSupported | Invalid

  datatype Slot = Slot(service: string, user: string)

  type Items = map<Slot, Bytes>

  /** `journal` holds the items as they stood after every call made so far, failed calls included,
      so it is also the list of points at which the process may die. */
  datatype Disk = Disk(items: Items, journal: seq<Items>)

  /** Call number |journal| fails exactly when `fails` says so; `fails` is arbitrary. */
  type Faults = nat -> bool

  function Called(d: Disk, items: Items): Disk {
    Disk(items, d.journal + [items])
  }

  function Fetched(fails: Faults, d: Disk, slot: Slot): (Disk, Result<Bytes, Error>) {
    (Called(d, d.items),
     if fails(|d.journal|) then Err(Unavailable)
     else if slot in d.items then Ok(d.items[slot]) else Err(NoEntry))
  }

  function Saved(fails: Faults, d: Disk, slot: Slot, bytes: Bytes): (Disk, Result<(), Error>) {
    if fails(|d.journal|) then (Called(d, d.items), Err(Unavailable))
    else (Called(d, d.items[slot := bytes]), Ok(()))
  }

  function Erased(fails: Faults, d: Disk, slot: Slot): (Disk, Result<(), Error>) {
    if fails(|d.journal|) then (Called(d, d.items), Err(Unavailable))
    else if slot in d.items then (Called(d, d.items - {slot}), Ok(()))
    else (Called(d, d.items), Err(NoEntry))
  }

  class CredentialStore {
    const fails: Faults
    var items: Items
    var journal: seq<Items>

    function Contents(): Disk
      reads this
    {
      Disk(items, journal)
    }

    constructor (fails: Faults, items: Items)
      ensures this.fails == fails && Contents() == Disk(items, [])
    {
      this.fails, this.items, this.journal := fails, items, [];
    }

    method GetSecret(slot: Slot) returns (r: Result<Bytes, Error>)
      modifies this
      ensures (Contents(), r) == Fetched(fails, old(Contents()), slot)
    {
      if fails(|journal|) {
        r := Err(Unavailable);
      } else if slot in items {
        r := Ok(items[slot]);
      } else {
        r := Err(NoEntry);
      }
      journal := journal + [items];
    }

    method SetSecret(slot: Slot, bytes: Bytes) returns (r: Result<(), Error>)
      modifies this
      ensures (Contents(), r) == Saved(fails, old(Contents()), slot, bytes)
    {
      if fails(|journal|) {
        r := Err(Unavailable);
      } else {
        items := items[slot := bytes];
        r := Ok(());
      }
      journal := journal + [items];
    }

    method DeleteCredential(slot: Slot) returns (r: Result<(), Error>)
      modifies this
      ensures (Contents(), r) == Erased(fails, old(Contents()), slot)
    {
      if fails(|journal|) {
        r := Err(Unavailable);
      } else if slot in items {
        items := items - {slot};
        r := Ok(());
      } else {
        r := Err(NoEntry);
      }
      journal := journal + [items];
    }
  }
}

/** A service keeps all its secrets in a single keychain item behind a write-through cache, which moves
    the older one-item-per-key entries in lazily and leaves tombstones for the keys it knows to be absent. */
module KeychainBundle {
  import opened Outcomes
  import opened Keychain

  const BUNDLE_USER := "__bundle__"

  datatype World = World(disk: Disk, cache: map<string, Bundle>)

  // ---------- what each operation does, call by call ----------

  /** The cached bundle of `service`, read from the store when cold; a failed read caches nothing. */
  function Opened(fails: Faults, w: World, service: string): (r: (World, Result<Bundle, Error>))
    ensures r.1.Ok? ==> service in r.0.cache && r.0.cache[service] == r.1.value
  {
    if service in w.cache then (w, Ok(w.cache[service]))
    else
      var (d, got) := Fetched(fails, w.disk, Slot(service, BUNDLE_USER));
      match got
      case Ok(Json(b)) => (World(d, w.cache[service := b]), Ok(b))
      case Ok(Opaque(_)) => (World(d, w.cache), Err(BadDataFormat))
      case Err(NoEntry) => (World(d, w.cache[service := map[]]), Ok(map[]))
      case Err(e) => (World(d, w.cache), Err(e))
  }

  /** Persists before touching the cache. */
  function Written(fails: Faults, w: World, k: Slot, b: Bundle, value: Option<Stored>): (World, Result<(), Error>) {
    var next := b[k.user := value];
    var (d, saved) := Saved(fails, w.disk, Slot(k.service, BUNDLE_USER), Json(next));
    (World(d, if saved.Ok? then w.cache[k.service := next] else w.cache), saved)
  }

  function Retired(fails: Faults, w: World, k: Slot): (World, Result<(), Error>) {
    var (d, r) := Erased(fails, w.disk, k);
    (World(d, w.cache), r)
  }

  function Decoded(s: Stored): Result<Bytes, Error> {
    match s
    case Base64(b) => Ok(b)
    case NotBase64(_) => Err(BadDataFormat)
  }

  function SetSecret(fails: Faults, w: World, k: Slot, secret: Bytes): (World, Result<(), Error>) {
    var (w1, loaded) := Opened(fails, w, k.service);
    if loaded.Err? then (w1, Err(loaded.error))
    else
      var (w2, wrote) := Written(fails, w1, k, loaded.value, Some(Base64(secret)));
      if wrote.Err? || k.user in loaded.value then (w2, wrote)
      else (Retired(fails, w2, k).0, Ok(()))
  }

  function GetSecret(fails: Faults, w: World, k: Slot): (World, Result<Bytes, Error>) {
    var (w1, loaded) := Opened(fails, w, k.service);
    if loaded.Err? then (w1, Err(loaded.error))
    else
      var b := loaded.value;
      if k.user in b then (w1, if b[k.user].Some? then Decoded(b[k.user].value) else Err(NoEntry))
      else Migrated(fails, w1, k, b)
  }

  /** A read of a key the bundle `b` has no record of: the older item, if any, moves into the bundle. */
  function Migrated(fails: Faults, w: World, k: Slot, b: Bundle): (World, Result<Bytes, Error>) {
    var (d, got) := Fetched(fails, w.disk, k);
    var w1 := World(d, w.cache);
    match got
    case Ok(secret) =>
      var (w2, wrote) := Written(fails, w1, k, b, Some(Base64(secret)));
      (if wrote.Ok? then Retired(fails, w2, k).0 else w2, got)
    case Err(NoEntry) => (World(d, w1.cache[k.service := b[k.user := None]]), got)
    case Err(_) => (w1, got)
  }

  function DeleteCredential(fails: Faults, w: World, k: Slot): (World, Result<(), Error>) {
    var (w1, loaded) := Opened(fails, w, k.service);
    if loaded.Err? then (w1, Err(loaded.error))
    else
      var b := loaded.value;
      if k.user in b && b[k.user] == None then (w1, Err(NoEntry)) else Dropped(fails, w1, k, b)
  }

  /** Deleting a key whose record, if any, is not a tombstone. */
  function Dropped(fails: Faults, w: World, k: Slot, b: Bundle): (World, Result<(), Error>) {
    var (w1, wrote) := Written(fails, w, k, b, None);
    if wrote.Err? || k.user in b then (w1, wrote)
    else
      var (w2, retired) := Retired(fails, w1, k);
      (w2, if retired == Err(NoEntry) then retired else Ok(()))
  }

  // ---------- the plain map a caller sees ----------

  /** Every key the store lets a caller build: a bundled service reserves one user. */
  predicate Addressable(bundled: string -> bool, k: Slot) {
    bundled(k.service) ==> k.user != BUNDLE_USER
  }

  predicate Readable(items: Items, service: string) {
    var s := Slot(service, BUNDLE_USER);
    s in items ==> items[s].Json?
  }

  function Persisted(items: Items, service: string): Bundle {
    var s := Slot(service, BUNDLE_USER);
    if s in items && items[s].Json? then items[s].bundle else map[]
  }

  /** The bundle's record when it has one, else the item of the older layout. */
  function View(bundled: string -> bool, items: Items, k: Slot): Option<Stored> {
    if bundled(k.service) && k.user in Persisted(items, k.service) then Persisted(items, k.service)[k.user]
    else if k in items then Some(Base64(items[k])) else None
  }

  ghost predicate SameView(bundled: string -> bool, before: Items, after: Items) {
    forall k | Addressable(bundled, k) :: View(bundled, after, k) == View(bundled, before, k)
  }

  /** `after` is `before` with just `k` set to `value`. */
  ghost predicate ViewPut(bundled: string -> bool, before: Items, after: Items, k: Slot, value: Option<Stored>) {
    forall j | Addressable(bundled, j) ::
      View(bundled, after, j) == if j == k then value else View(bundled, before, j)
  }

  // ---------- the invariant between cache and store ----------

  /** The persisted bundle is part of the cached one; each extra cached record is a tombstone for a
      key that has no older item either. */
  ghost predicate Mirrors(items: Items, service: string, b: Bundle) {
    var p := Persisted(items, service);
    && Readable(items, service)
    && (forall u | u in p :: u in b && b[u] == p[u])
    && (forall u | u in b && u !in p :: b[u] == None && u != BUNDLE_USER && Slot(service, u) !in items)
  }

  ghost predicate Agrees(bundled: string -> bool, w: World) {
    forall s | s in w.cache :: bundled(s) && Mirrors(w.disk.items, s, w.cache[s])
  }

  /** Between two inner calls an older item disappears only if the bundle already persisted its key. */
  ghost predicate ErasesOnlyRecorded(before: Items, after: Items) {
    forall s | s in before && s !in after :: s.user != BUNDLE_USER && s.user in Persisted(before, s.service)
  }

  /** Items after `n` of the calls recorded since `from`; `n == 0` is the state before them. */
  function Snapshot(from: Disk, to: Disk, n: nat): Items
    requires |from.journal| + n <= |to.journal|
  {
    if n == 0 then from.items else to.journal[|from.journal| + n - 1]
  }

  ghost predicate Extends(from: Disk, to: Disk) {
    && from.journal <= to.journal
    && (from.journal == to.journal ==> from.items == to.items)
    && (from.journal != to.journal ==> to.items == to.journal[|to.journal| - 1])
  }

  /** No call made between `from` and `to` failed. */
  ghost predicate Faultless(fails: Faults, from: Disk, to: Disk) {
    forall i | |from.journal| <= i < |to.journal| :: !fails(i)
  }

  // ---------- one operation ----------

  lemma {:induction false} OpenedMirrors(bundled: string -> bool, fails: Faults, w: World, service: string)
    requires Agrees(bundled, w) && bundled(service)
    ensures var (w', r) := Opened(fails, w, service);
            && Agrees(bundled, w') && w'.disk.items == w.disk.items
            && Extends(w.disk, w'.disk) && |w'.disk.journal| <= |w.disk.journal| + 1
            && (r.Ok? ==> Mirrors(w.disk.items, service, r.value))
            && (r.Err? ==> r.error == Unavailable || (r.error == BadDataFormat && !Readable(w.disk.items, service)))
            && (r.Err? ==> w'.cache == w.cache)
            && (Faultless(fails, w.disk, w'.disk) && Readable(w.disk.items, service) ==> r.Ok?)
  {
  }

  lemma {:induction false} PutMirrors(bundled: string -> bool, items: Items, k: Slot, b: Bundle, value: Option<Stored>)
    requires bundled(k.service) && k.user != BUNDLE_USER && Mirrors(items, k.service, b)
    ensures var items' := items[Slot(k.service, BUNDLE_USER) := Json(b[k.user := value])];
            && ViewPut(bundled, items, items', k, value)
            && Persisted(items', k.service) == b[k.user := value]
            && Mirrors(items', k.service, b[k.user := value])
  {
  }

  datatype Request = Get | Set(secret: Bytes) | Delete

  datatype Reply = Secret(bytes: Bytes) | Done | Failed(error: Error)

  /** The reply a plain map gives for the entry `v`. */
  function PlainReply(v: Option<Stored>, req: Request): Reply {
    match req
    case Set(_) => Done
    case Delete => if v.None? then Failed(NoEntry) else Done
    case Get =>
      if v.None? then Failed(NoEntry) else if v.value.Base64? then Secret(v.value.bytes) else Failed(BadDataFormat)
  }

  function Target(v: Option<Stored>, req: Request): Option<Stored> {
    match req
    case Get => v
    case Set(secret) => Some(Base64(secret))
    case Delete => None
  }

  /** The view moves as a plain map's would: either nothing changed or `req` was carried out. */
  ghost predicate Applied(bundled: string -> bool, before: Items, after: Items, k: Slot, req: Request) {
    ViewPut(bundled, before, after, k, Target(View(bundled, before, k), req))
  }

  /** What a caller may conclude from a reply. */
  ghost predicate Plain(bundled: string -> bool, before: Items, after: Items, k: Slot, req: Request, reply: Reply) {
    var v := View(bundled, before, k);
    match reply
    case Secret(b) => req == Get && v == Some(Base64(b)) && SameView(bundled, before, after)
    case Done => req != Get && Applied(bundled, before, after, k, req)
    case Failed(NoEntry) => !req.Set? && v == None && SameView(bundled, before, after)
    case Failed(_) => SameView(bundled, before, after)
  }

  /** Dying between any two inner calls leaves the view as it was or as `req` makes it. */
  ghost predicate CrashSafe(bundled: string -> bool, from: Disk, to: Disk, k: Slot, req: Request) {
    && (forall n: nat | |from.journal| + n <= |to.journal| ::
          var now := Snapshot(from, to, n);
          SameView(bundled, from.items, now) || Applied(bundled, from.items, now, k, req))
    && (bundled(k.service) ==> forall n: nat | |from.journal| + n < |to.journal| ::
          ErasesOnlyRecorded(Snapshot(from, to, n), Snapshot(from, to, n + 1)))
  }

  /** The reply is truthful, a dying process is harmless, and a failure leaves the store as it was. */
  ghost predicate Sound(bundled: string -> bool, w: World, w': World, k: Slot, req: Request, reply: Reply) {
    && (reply.Failed? && reply.error != NoEntry ==> w'.disk.items == w.disk.items)
    && Agrees(bundled, w')
    && Extends(w.disk, w'.disk)
    && Plain(bundled, w.disk.items, w'.disk.items, k, req, reply)
    && CrashSafe(bundled, w.disk, w'.disk, k, req)
  }

  /** Unless a call failed or the bundle is corrupt, the reply is the plain map's own, and a key the
      bundle had no record of loses its older item. */
  ghost predicate Complete(bundled: string -> bool, fails: Faults, w: World, w': World, k: Slot, req: Request,
                           reply: Reply) {
    Faultless(fails, w.disk, w'.disk) && (bundled(k.service) ==> Readable(w.disk.items, k.service)) ==>
      && reply == PlainReply(View(bundled, w.disk.items, k), req)
      && (bundled(k.service) && k.user !in Persisted(w.disk.items, k.service) ==> k !in w'.disk.items)
  }

  function Answer(r: Result<Bytes, Error>): Reply {
    if r.Ok? then Secret(r.value) else Failed(r.error)
  }

  function Acknowledge(r: Result<(), Error>): Reply {
    if r.Ok? then Done else Failed(r.error)
  }

  // ---------- the calls an operation is made of ----------

  /** One more inner call keeps a run crash safe when it leaves the view before or after `req`. */
  lemma {:induction false} CallSafe(bundled: string -> bool, from: Disk, mid: Disk, items: Items, k: Slot, req: Request)
    requires Extends(from, mid) && CrashSafe(bundled, from, mid, k, req)
    requires SameView(bundled, from.items, items) || Applied(bundled, from.items, items, k, req)
    requires bundled(k.service) ==> ErasesOnlyRecorded(mid.items, items)
    ensures Extends(from, Called(mid, items)) && CrashSafe(bundled, from, Called(mid, items), k, req)
  {
    var to := Called(mid, items);
    var m := |mid.journal| - |from.journal|;
    assert Snapshot(from, mid, m) == mid.items;
    assert forall n: nat | n <= m :: Snapshot(from, to, n) == Snapshot(from, mid, n);
    assert Snapshot(from, to, m + 1) == items;
  }

  lemma {:induction false} NoCallSafe(bundled: string -> bool, d: Disk, k: Slot, req: Request)
    ensures Extends(d, d) && CrashSafe(bundled, d, d, k, req)
  {
    assert Snapshot(d, d, 0) == d.items;
  }

  lemma {:induction false} OpenedSafe(bundled: string -> bool, fails: Faults, w: World, k: Slot, req: Request)
    ensures var (w', _) := Opened(fails, w, k.service);
            Extends(w.disk, w'.disk) && CrashSafe(bundled, w.disk, w'.disk, k, req)
  {
    NoCallSafe(bundled, w.disk, k, req);
    CallSafe(bundled, w.disk, w.disk, w.disk.items, k, req);
  }

  /** Once the bundle has a record for `k`, deleting the older item changes nothing a caller sees. */
  lemma {:induction false} RetireKeepsView(bundled: string -> bool, items: Items, k: Slot, b: Bundle)
    requires bundled(k.service) && k.user != BUNDLE_USER
    requires k.user in Persisted(items, k.service) && Mirrors(items, k.service, b)
    ensures SameView(bundled, items, items - {k}) && Mirrors(items - {k}, k.service, b)
    ensures ErasesOnlyRecorded(items, items - {k})
  {
  }

  lemma {:induction false} OtherServicesAgree(bundled: string -> bool, w: World, items: Items, service: string,
                                              b: Bundle, d: Disk)
    requires Agrees(bundled, w) && bundled(service) && Mirrors(items, service, b) && d.items == items
    requires forall s: Slot | s.service != service :: s in items <==> s in w.disk.items
    requires forall s: Slot | s.service != service && s in items :: items[s] == w.disk.items[s]
    ensures Agrees(bundled, World(d, w.cache[service := b]))
  {
    forall s | s in w.cache && s != service ensures Mirrors(items, s, w.cache[s]) {
      assert Mirrors(w.disk.items, s, w.cache[s]);
    }
  }

  /** Persisting a record for `k` moves `k` to `value`, or fails and moves nothing. */
  lemma {:induction false} WriteSound(bundled: string -> bool, fails: Faults, from: Disk, w: World, k: Slot,
                                      req: Request,
                   b: Bundle, value: Option<Stored>)
    requires Agrees(bundled, w) && bundled(k.service) && k.user != BUNDLE_USER
    requires k.service in w.cache && w.cache[k.service] == b && Mirrors(w.disk.items, k.service, b)
    requires from.items == w.disk.items && Extends(from, w.disk) && CrashSafe(bundled, from, w.disk, k, req)
    requires Target(View(bundled, from.items, k), req) == value
    ensures var (w', wrote) := Written(fails, w, k, b, value);
            && Agrees(bundled, w')
            && Extends(from, w'.disk) && CrashSafe(bundled, from, w'.disk, k, req)
            && (wrote.Err? ==> SameView(bundled, from.items, w'.disk.items))
            && (wrote.Ok? ==> Applied(bundled, from.items, w'.disk.items, k, req))
            && (wrote.Ok? ==> Persisted(w'.disk.items, k.service) == w'.cache[k.service] == b[k.user := value])
  {
    var (w', wrote) := Written(fails, w, k, b, value);
    if wrote.Ok? {
      PutMirrors(bundled, w.disk.items, k, b, value);
      OtherServicesAgree(bundled, w, w'.disk.items, k.service, b[k.user := value], w'.disk);
    }
    CallSafe(bundled, from, w.disk, w'.disk.items, k, req);
  }

  /** Retiring the older item of a recorded key changes nothing more. */
  lemma {:induction false} RetireSound(bundled: string -> bool, fails: Faults, from: Disk, w: World, k: Slot,
                                       req: Request)
    requires Agrees(bundled, w) && bundled(k.service) && k.user != BUNDLE_USER
    requires k.service in w.cache && k.user in Persisted(w.disk.items, k.service)
    requires Extends(from, w.disk) && CrashSafe(bundled, from, w.disk, k, req)
    requires Applied(bundled, from.items, w.disk.items, k, req)
    ensures var (w', _) := Retired(fails, w, k);
            && Agrees(bundled, w')
            && Applied(bundled, from.items, w'.disk.items, k, req)
            && Extends(from, w'.disk) && CrashSafe(bundled, from, w'.disk, k, req)
  {
    var (w', _) := Retired(fails, w, k);
    var b := w.cache[k.service];
    if w'.disk.items != w.disk.items {
      RetireKeepsView(bundled, w.disk.items, k, b);
      OtherServicesAgree(bundled, w, w'.disk.items, k.service, b, w'.disk);
      assert w'.cache == w.cache[k.service := b];
    }
    CallSafe(bundled, from, w.disk, w'.disk.items, k, req);
  }

  /** The two together, as every migrating operation makes them. */
  lemma {:induction false} MoveSound(bundled: string -> bool, fails: Faults, from: Disk, w: World, k: Slot,
                                     req: Request,
                  b: Bundle, value: Option<Stored>)
    requires Agrees(bundled, w) && bundled(k.service) && k.user != BUNDLE_USER
    requires k.service in w.cache && w.cache[k.service] == b && Mirrors(w.disk.items, k.service, b)
    requires from.items == w.disk.items && Extends(from, w.disk) && CrashSafe(bundled, from, w.disk, k, req)
    requires Target(View(bundled, from.items, k), req) == value
    ensures var (w1, wrote) := Written(fails, w, k, b, value);
            var w2 := Retired(fails, w1, k).0;
            && Agrees(bundled, w1) && Extends(from, w1.disk) && CrashSafe(bundled, from, w1.disk, k, req)
            && (wrote.Err? ==> SameView(bundled, from.items, w1.disk.items) && w1.disk.items == from.items)
            && (wrote.Ok? ==> Applied(bundled, from.items, w1.disk.items, k, req))
            && (wrote.Ok? ==>
                  Agrees(bundled, w2) && Extends(from, w2.disk) && CrashSafe(bundled, from, w2.disk, k, req))
            && (wrote.Ok? ==> Applied(bundled, from.items, w2.disk.items, k, req))
  {
    WriteSound(bundled, fails, from, w, k, req, b, value);
    var (w1, wrote) := Written(fails, w, k, b, value);
    if wrote.Ok? {
      RetireSound(bundled, fails, from, w1, k, req);
    }
  }

  // ---------- each operation refines the plain map ----------

  lemma {:induction false} SetSound(bundled: string -> bool, fails: Faults, w: World, k: Slot, secret: Bytes)
    requires Agrees(bundled, w) && bundled(k.service) && k.user != BUNDLE_USER
    ensures var (w', r) := SetSecret(fails, w, k, secret);
            Sound(bundled, w, w', k, Set(secret), Acknowledge(r))
  {
    OpenedMirrors(bundled, fails, w, k.service);
    OpenedSafe(bundled, fails, w, k, Set(secret));
    var (w1, loaded) := Opened(fails, w, k.service);
    if loaded.Ok? {
      MoveSound(bundled, fails, w.disk, w1, k, Set(secret), loaded.value, Some(Base64(secret)));
    }
  }

  lemma {:induction false} MigrateSound(bundled: string -> bool, fails: Faults, from: Disk, w: World, k: Slot,
                                        b: Bundle)
    requires Agrees(bundled, w) && bundled(k.service) && k.user != BUNDLE_USER && k.user !in b
    requires k.service in w.cache && w.cache[k.service] == b
    requires from.items == w.disk.items && Extends(from, w.disk) && CrashSafe(bundled, from, w.disk, k, Get)
    ensures var (w', r) := Migrated(fails, w, k, b);
            && Agrees(bundled, w') && Extends(from, w'.disk) && CrashSafe(bundled, from, w'.disk, k, Get)
            && Plain(bundled, from.items, w'.disk.items, k, Get, Answer(r))
  {
    CallSafe(bundled, from, w.disk, w.disk.items, k, Get);
    var (d, got) := Fetched(fails, w.disk, k);
    if got.Ok? {
      MoveSound(bundled, fails, from, World(d, w.cache), k, Get, b, Some(Base64(got.value)));
    }
  }

  lemma {:induction false} GetSound(bundled: string -> bool, fails: Faults, w: World, k: Slot)
    requires Agrees(bundled, w) && bundled(k.service) && k.user != BUNDLE_USER
    ensures var (w', r) := GetSecret(fails, w, k);
            Sound(bundled, w, w', k, Get, Answer(r))
  {
    OpenedMirrors(bundled, fails, w, k.service);
    OpenedSafe(bundled, fails, w, k, Get);
    var (w1, loaded) := Opened(fails, w, k.service);
    if loaded.Ok? && k.user !in loaded.value {
      MigrateSound(bundled, fails, w.disk, w1, k, loaded.value);
    }
  }

  lemma {:induction false} DeleteSound(bundled: string -> bool, fails: Faults, w: World, k: Slot)
    requires Agrees(bundled, w) && bundled(k.service) && k.user != BUNDLE_USER
    ensures var (w', r) := DeleteCredential(fails, w, k);
            Sound(bundled, w, w', k, Delete, Acknowledge(r))
  {
    OpenedMirrors(bundled, fails, w, k.service);
    OpenedSafe(bundled, fails, w, k, Delete);
    var (w1, loaded) := Opened(fails, w, k.service);
    var (w', r) := DeleteCredential(fails, w, k);
    if loaded.Err? || (k.user in loaded.value && loaded.value[k.user] == None) {
      assert w' == w1;
    } else {
      MoveSound(bundled, fails, w.disk, w1, k, Delete, loaded.value, None);
      var (w2, wrote) := Written(fails, w1, k, loaded.value, None);
      assert wrote.Err? ==> w' == w2;
      assert w' == w2 || w' == Retired(fails, w2, k).0;
    }
  }

  lemma {:induction false} SetComplete(bundled: string -> bool, fails: Faults, w: World, k: Slot, secret: Bytes)
    requires Agrees(bundled, w) && bundled(k.service) && k.user != BUNDLE_USER
    ensures var (w', r) := SetSecret(fails, w, k, secret);
            Complete(bundled, fails, w, w', k, Set(secret), Acknowledge(r))
  {
    OpenedMirrors(bundled, fails, w, k.service);
  }

  lemma {:induction false} MigrateComplete(bundled: string -> bool, fails: Faults, w: World, k: Slot, b: Bundle)
    requires bundled(k.service) && k.user != BUNDLE_USER && k.user !in b && Mirrors(w.disk.items, k.service, b)
    ensures var (w', r) := Migrated(fails, w, k, b);
            Faultless(fails, w.disk, w'.disk) ==>
              Answer(r) == PlainReply(View(bundled, w.disk.items, k), Get) && k !in w'.disk.items
  {
  }

  lemma {:induction false} GetComplete(bundled: string -> bool, fails: Faults, w: World, k: Slot)
    requires Agrees(bundled, w) && bundled(k.service) && k.user != BUNDLE_USER
    ensures var (w', r) := GetSecret(fails, w, k);
            Complete(bundled, fails, w, w', k, Get, Answer(r))
  {
    OpenedMirrors(bundled, fails, w, k.service);
    var (w1, loaded) := Opened(fails, w, k.service);
    if loaded.Ok? && k.user !in loaded.value {
      MigrateComplete(bundled, fails, w1, k, loaded.value);
      assert |w1.disk.journal| >= |w.disk.journal|;
    }
  }

  lemma {:induction false} DropComplete(bundled: string -> bool, fails: Faults, w: World, k: Slot, b: Bundle)
    requires bundled(k.service) && k.user != BUNDLE_USER && Mirrors(w.disk.items, k.service, b)
    requires k.user in b ==> b[k.user].Some?
    ensures var (w', r) := Dropped(fails, w, k, b);
            Faultless(fails, w.disk, w'.disk) ==>
              && Acknowledge(r) == PlainReply(View(bundled, w.disk.items, k), Delete)
              && (k.user !in b ==> k !in w'.disk.items)
  {
  }

  lemma {:induction false} DeleteComplete(bundled: string -> bool, fails: Faults, w: World, k: Slot)
    requires Agrees(bundled, w) && bundled(k.service) && k.user != BUNDLE_USER
    ensures var (w', r) := DeleteCredential(fails, w, k);
            Complete(bundled, fails, w, w', k, Delete, Acknowledge(r))
  {
    OpenedMirrors(bundled, fails, w, k.service);
    var (w1, loaded) := Opened(fails, w, k.service);
    if loaded.Ok? && !(k.user in loaded.value && loaded.value[k.user] == None) {
      DropComplete(bundled, fails, w1, k, loaded.value);
      assert |w1.disk.journal| >= |w.disk.journal|;
    }
  }

  // ---------- the whole store, over every run ----------

  /** Entries of services that are not bundled go straight to the store below. */
  function Serve(bundled: string -> bool, fails: Faults, w: World, k: Slot, req: Request): (World, Reply) {
    if !bundled(k.service) then
      match req
      case Get => var (d, r) := Fetched(fails, w.disk, k); (World(d, w.cache), Answer(r))
      case Set(secret) => var (d, r) := Saved(fails, w.disk, k, secret); (World(d, w.cache), Acknowledge(r))
      case Delete => var (d, r) := Erased(fails, w.disk, k); (World(d, w.cache), Acknowledge(r))
    else if k.user == BUNDLE_USER then (w, Failed(Invalid))
    else
      match req
      case Get => var (w', r) := GetSecret(fails, w, k); (w', Answer(r))
      case Set(secret) => var (w', r) := SetSecret(fails, w, k, secret); (w', Acknowledge(r))
      case Delete => var (w', r) := DeleteCredential(fails, w, k); (w', Acknowledge(r))
  }

  /** One request to the store, on any key, with any of its inner calls failing. */
  lemma {:induction false} ServeRefinesPlainMap(bundled: string -> bool, fails: Faults, w: World, k: Slot, req: Request)
    requires Agrees(bundled, w)
    ensures var (w', reply) := Serve(bundled, fails, w, k, req);
            && Sound(bundled, w, w', k, req, reply)
            && (Addressable(bundled, k) ==> Complete(bundled, fails, w, w', k, req, reply))
  {
    NoCallSafe(bundled, w.disk, k, req);
    if !bundled(k.service) {
      PassThroughSound(bundled, fails, w, k, req);
    } else if k.user != BUNDLE_USER {
      match req
      case Get => GetSound(bundled, fails, w, k); GetComplete(bundled, fails, w, k);
      case Set(secret) => SetSound(bundled, fails, w, k, secret); SetComplete(bundled, fails, w, k, secret);
      case Delete => DeleteSound(bundled, fails, w, k); DeleteComplete(bundled, fails, w, k);
    }
  }

  lemma {:induction false} PassThroughSound(bundled: string -> bool, fails: Faults, w: World, k: Slot, req: Request)
    requires Agrees(bundled, w) && !bundled(k.service)
    ensures var (w', reply) := Serve(bundled, fails, w, k, req);
            Sound(bundled, w, w', k, req, reply) && Complete(bundled, fails, w, w', k, req, reply)
  {
    var (w', reply) := Serve(bundled, fails, w, k, req);
    NoCallSafe(bundled, w.disk, k, req);
    CallSafe(bundled, w.disk, w.disk, w'.disk.items, k, req);
    forall s | s in w'.cache ensures Mirrors(w'.disk.items, s, w'.cache[s]) {
      assert Mirrors(w.disk.items, s, w.cache[s]);
    }
  }

  /** `Crash`: the process dies after that many of the request's inner calls, then starts again. */
  datatype Event = Call(k: Slot, req: Request) | Crash(k: Slot, req: Request, calls: nat) | Relaunch

  function Step(bundled: string -> bool, fails: Faults, w: World, e: Event): (World, Option<Reply>) {
    match e
    case Call(k, req) => var (w', reply) := Serve(bundled, fails, w, k, req); (w', Some(reply))
    case Relaunch => (World(w.disk, map[]), None)
    case Crash(k, req, calls) =>
      var (d, from) := (Serve(bundled, fails, w, k, req).0.disk, w.disk);
      if |from.journal| + calls <= |d.journal|
      then (World(Disk(Snapshot(from, d, calls), d.journal[..|from.journal| + calls]), map[]), None)
      else (World(d, map[]), None)
  }

  /** What a plain map allows for an event: a crash may or may not have carried the request out. */
  ghost predicate Allowed(bundled: string -> bool, before: Items, after: Items, e: Event, reply: Option<Reply>) {
    match e
    case Call(k, req) => reply.Some? && Plain(bundled, before, after, k, req, reply.value)
    case Crash(k, req, _) => SameView(bundled, before, after) || Applied(bundled, before, after, k, req)
    case Relaunch => SameView(bundled, before, after)
  }

  ghost predicate Refines(bundled: string -> bool, fails: Faults, w: World, e: Event) {
    var (w', reply) := Step(bundled, fails, w, e);
    Agrees(bundled, w') && Allowed(bundled, w.disk.items, w'.disk.items, e, reply)
  }

  lemma {:induction false} StepRefinesPlainMap(bundled: string -> bool, fails: Faults, w: World, e: Event)
    requires Agrees(bundled, w)
    ensures Refines(bundled, fails, w, e)
  {
    if !e.Relaunch? {
      ServeRefinesPlainMap(bundled, fails, w, e.k, e.req);
    }
  }

  /** The worlds a run goes through, the first being `w`. */
  function Trace(bundled: string -> bool, fails: Faults, w: World, es: seq<Event>): (t: seq<World>)
    ensures |t| == |es| + 1 && t[0] == w
    ensures forall i | 0 <= i < |es| :: t[i + 1] == Step(bundled, fails, t[i], es[i]).0
    decreases |es|
  {
    if es == [] then [w] else [w] + Trace(bundled, fails, Step(bundled, fails, w, es[0]).0, es[1..])
  }

  /** Every run of requests, failures, crashes and relaunches refines the plain map, step by step. */
  lemma {:induction false} RunRefinesPlainMap(bundled: string -> bool, fails: Faults, w: World, es: seq<Event>)
    requires Agrees(bundled, w)
    ensures var t := Trace(bundled, fails, w, es);
            && (forall i | 0 <= i <= |es| :: Agrees(bundled, t[i]))
            && (forall i | 0 <= i < |es| :: Refines(bundled, fails, t[i], es[i]))
    decreases |es|
  {
    if es == [] {
    } else {
      StepRefinesPlainMap(bundled, fails, w, es[0]);
      var w' := Step(bundled, fails, w, es[0]).0;
      RunRefinesPlainMap(bundled, fails, w', es[1..]);
      assert Trace(bundled, fails, w, es) == [w] + Trace(bundled, fails, w', es[1..]);
    }
  }

  predicate Writes(e: Event, k: Slot) {
    !e.Relaunch? && e.k == k && e.req != Get
  }

  /** The view of a key moves only in events that write that very key. */
  lemma {:induction false} ViewMovesOnlyByWrites(bundled: string -> bool, fails: Faults, w: World, es: seq<Event>,
                                                 k: Slot)
    requires Agrees(bundled, w) && Addressable(bundled, k)
    requires forall e | e in es :: !Writes(e, k)
    ensures forall i | 0 <= i <= |es| ::
              View(bundled, Trace(bundled, fails, w, es)[i].disk.items, k) == View(bundled, w.disk.items, k)
    decreases |es|
  {
    if es == [] {
    } else {
      StepRefinesPlainMap(bundled, fails, w, es[0]);
      assert es[0] in es;
      ViewMovesOnlyByWrites(bundled, fails, Step(bundled, fails, w, es[0]).0, es[1..], k);
    }
  }

  /** What an acknowledged write leaves is what every later read returns, over crashes and relaunches,
      until the next write of that key. For a delete that is nothing, even if the older item survived. */
  lemma {:induction false} AcknowledgedWritesLast(bundled: string -> bool, fails: Faults, w: World, k: Slot,
                                                  req: Request,
                               es: seq<Event>, i: nat)
    requires Agrees(bundled, w) && Addressable(bundled, k) && req != Get && i < |es| && es[i] == Call(k, Get)
    requires Serve(bundled, fails, w, k, req).1 in {Done, Failed(NoEntry)}
    requires forall e | e in es :: !Writes(e, k)
    ensures var t := Trace(bundled, fails, Serve(bundled, fails, w, k, req).0, es);
            var reply := Serve(bundled, fails, t[i], k, Get).1;
            && (reply.Secret? ==> req == Set(reply.bytes))
            && (reply == Failed(NoEntry) ==> req == Delete)
  {
    ServeRefinesPlainMap(bundled, fails, w, k, req);
    var w' := Serve(bundled, fails, w, k, req).0;
    ViewMovesOnlyByWrites(bundled, fails, w', es, k);
    RunRefinesPlainMap(bundled, fails, w', es);
    ServeRefinesPlainMap(bundled, fails, Trace(bundled, fails, w', es)[i], k, Get);
  }

  /** Deleting a key that is not there reports success exactly when nothing is recorded of the key and
      neither loading nor saving the bundle fails, but the call that erases the older item does. */
  lemma {:induction false} WhenDeleteOverReports(bundled: string -> bool, fails: Faults, w: World, k: Slot)
    requires Agrees(bundled, w) && Addressable(bundled, k) && View(bundled, w.disk.items, k) == None
    ensures var (cold, n) := (k.service !in w.cache, |w.disk.journal|);
            var saves := if cold then n + 1 else n;
            Serve(bundled, fails, w, k, Delete).1 == Done <==>
              && bundled(k.service) && Readable(w.disk.items, k.service)
              && (if cold then !fails(n) && k.user !in Persisted(w.disk.items, k.service)
                  else k.user !in w.cache[k.service])
              && !fails(saves) && fails(saves + 1)
  {
    if bundled(k.service) {
      OpenedMirrors(bundled, fails, w, k.service);
    }
  }

  lemma {:induction false} DeleteOverReports()
    ensures var w := World(Disk(map[], []), map[]);
            && View(_ => true, w.disk.items, Slot("voltius", "email")) == None
            && Serve(_ => true, n => n == 2, w, Slot("voltius", "email"), Delete).1 == Done
  {
    var (w, k) := (World(Disk(map[], []), map[]), Slot("voltius", "email"));
    WhenDeleteOverReports(_ => true, n => n == 2, w, k);
  }
}

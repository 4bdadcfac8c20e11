/** The bundle store as the code runs it: one shared cache filled and updated in place. Every method
    is tied to the operation of the same name in KeychainBundle. */
module BundleStore {
  import opened Outcomes
  import opened Keychain
  import opened Spec = KeychainBundle

  class Shared {
    const inner: CredentialStore
    var bundles: map<string, Bundle>

    constructor (inner: CredentialStore)
      ensures this.inner == inner && bundles == map[]
    {
      this.inner, bundles := inner, map[];
    }

    function State(): World
      reads this, inner
    {
      World(inner.Contents(), bundles)
    }

    method Load(service: string) returns (r: Result<Bundle, Error>)
      requires service !in bundles
      modifies inner
      ensures bundles == old(bundles)
      ensures var (w, o) := Opened(inner.fails, old(State()), service);
              r == o && inner.Contents() == w.disk
    {
      var got := inner.GetSecret(Slot(service, BUNDLE_USER));
      match got
      case Ok(Json(b)) => r := Ok(b);
      case Ok(Opaque(_)) => r := Err(BadDataFormat);
      case Err(NoEntry) => r := Ok(map[]);
      case Err(e) => r := Err(e);
    }

    method Persist(service: string, bundle: Bundle) returns (r: Result<(), Error>)
      modifies inner
      ensures (inner.Contents(), r) ==
              Saved(inner.fails, old(inner.Contents()), Slot(service, BUNDLE_USER), Json(bundle))
      ensures bundles == old(bundles)
    {
      r := inner.SetSecret(Slot(service, BUNDLE_USER), Json(bundle));
    }

    method RetireLegacy(service: string, user: string) returns (r: Result<(), Error>)
      modifies inner
      ensures (State(), r) == Retired(inner.fails, old(State()), Slot(service, user))
    {
      r := inner.DeleteCredential(Slot(service, user));
    }

    /** The first half of the bracket every operation runs in: the slot is filled or the call fails. */
    method WithBundle(service: string) returns (r: Result<Bundle, Error>)
      modifies this, inner
      ensures (State(), r) == Opened(inner.fails, old(State()), service)
    {
      if service in bundles {
        r := Ok(bundles[service]);
      } else {
        r := Load(service);
        if r.Ok? {
          bundles := bundles[service := r.value];
        }
      }
    }
  }

  class BundledCred {
    const service: string
    const user: string
    const shared: Shared

    constructor (service: string, user: string, shared: Shared)
      ensures this.service == service && this.user == user && this.shared == shared
    {
      this.service, this.user, this.shared := service, user, shared;
    }

    method Write(bundle: Bundle, value: Option<Stored>) returns (r: Result<(), Error>)
      modifies shared, shared.inner
      ensures (shared.State(), r) ==
              Written(shared.inner.fails, old(shared.State()), Slot(service, user), bundle, value)
    {
      var next := bundle[user := value];
      r := shared.Persist(service, next);
      if r.Ok? {
        shared.bundles := shared.bundles[service := next];
      }
    }

    method SetSecret(secret: Bytes) returns (r: Result<(), Error>)
      modifies shared, shared.inner
      ensures (shared.State(), r) ==
              Spec.SetSecret(shared.inner.fails, old(shared.State()), Slot(service, user), secret)
    {
      var loaded := shared.WithBundle(service);
      if loaded.Err? {
        return Err(loaded.error);
      }
      var hadRecord := user in loaded.value;
      r := Write(loaded.value, Some(Base64(secret)));
      if r.Ok? && !hadRecord {
        var _ := shared.RetireLegacy(service, user);
      }
    }

    method GetSecret() returns (r: Result<Bytes, Error>)
      modifies shared, shared.inner
      ensures (shared.State(), r) ==
              Spec.GetSecret(shared.inner.fails, old(shared.State()), Slot(service, user))
    {
      var loaded := shared.WithBundle(service);
      if loaded.Err? {
        return Err(loaded.error);
      }
      var bundle := loaded.value;
      if user in bundle {
        return if bundle[user].Some? then Decoded(bundle[user].value) else Err(NoEntry);
      }
      r := shared.inner.GetSecret(Slot(service, user));
      match r
      case Ok(secret) =>
        var wrote := Write(bundle, Some(Base64(secret)));
        if wrote.Ok? {
          var _ := shared.RetireLegacy(service, user);
        }
      case Err(NoEntry) =>
        shared.bundles := shared.bundles[service := bundle[user := None]];
      case Err(_) =>
    }

    method DeleteCredential() returns (r: Result<(), Error>)
      modifies shared, shared.inner
      ensures (shared.State(), r) ==
              Spec.DeleteCredential(shared.inner.fails, old(shared.State()), Slot(service, user))
    {
      var loaded := shared.WithBundle(service);
      if loaded.Err? {
        return Err(loaded.error);
      }
      var bundle := loaded.value;
      if user in bundle && bundle[user] == None {
        return Err(NoEntry);
      }
      r := Write(bundle, None);
      if r.Ok? && user !in bundle {
        var retired := shared.RetireLegacy(service, user);
        r := if retired == Err(NoEntry) then retired else Ok(());
      }
    }
  }

  datatype Entry = Inner(slot: Slot) | Bundled(cred: BundledCred)

  class Store {
    const shared: Shared
    const bundled: string -> bool

    constructor (inner: CredentialStore, bundled: string -> bool)
      ensures shared.inner == inner && shared.bundles == map[] && this.bundled == bundled && fresh(shared)
    {
      this.shared := new Shared(inner);
      this.bundled := bundled;
    }

    method Build(service: string, user: string, modifiers: bool) returns (r: Result<Entry, Error>)
      ensures !bundled(service) ==> r == Ok(Inner(Slot(service, user)))
      ensures bundled(service) && modifiers ==> r == Err(NotSupported)
      ensures bundled(service) && !modifiers && user == BUNDLE_USER ==> r == Err(Invalid)
      ensures bundled(service) && !modifiers && user != BUNDLE_USER ==>
                && r.Ok? && r.value.Bundled? && fresh(r.value.cred)
                && r.value.cred.shared == shared && r.value.cred.service == service && r.value.cred.user == user
    {
      if !bundled(service) {
        r := Ok(Inner(Slot(service, user)));
      } else if modifiers {
        r := Err(NotSupported);
      } else if user == BUNDLE_USER {
        r := Err(Invalid);
      } else {
        var cred := new BundledCred(service, user, shared);
        r := Ok(Bundled(cred));
      }
    }
  }
}

/**
 * The identity objects: the preferences files and `PersistentIdentity`,
 * whose methods update the caches and the files in place as the functions
 * of module Identity describe.
 */
module IdentityStore {
  import opened Common
  import opened Props
  import opened Identity

  /** A preferences file and whether the future that loads it yields it. */
  class PrefsFile {
    var contents: Prefs
    const loads: bool

    constructor (contents: Prefs, loads: bool)
      ensures this.contents == contents && this.loads == loads
    {
      this.contents := contents;
      this.loads := loads;
    }
  }

  /** The referrer preferences file and the dirty flag shared by every reader of it. */
  class ReferrerPrefs {
    var contents: map<string, string>
    var dirty: bool
    const loads: bool

    constructor (contents: map<string, string>, loads: bool)
      ensures this.contents == contents && this.loads == loads && dirty
    {
      this.contents := contents;
      this.loads := loads;
      dirty := true;
    }

    /** `writeReferrerPrefs`: clears the file, puts every entry, and marks the caches stale. */
    method WriteReferrerPrefs(properties: map<string, string>)
      modifies this
      ensures contents == properties && dirty
    {
      var edited := PutAll(map[], properties);
      assert edited == properties;
      contents := edited;
      dirty := true;
    }
  }

  class PersistentIdentity {
    const store: PrefsFile
    const referrer: ReferrerPrefs
    var superPropertiesCache: Option<PropMap>
    var referrerPropertiesCache: Option<map<string, string>>
    var identitiesLoaded: bool
    var eventsDistinctId: Option<string>

    function State(): IdentityState
      reads this, store
    {
      IdentityState(store.contents, superPropertiesCache, identitiesLoaded, eventsDistinctId)
    }

    function Referrer(): ReferrerState
      reads this, referrer
    {
      ReferrerState(referrer.contents, referrer.dirty, referrerPropertiesCache)
    }

    constructor (referrer: ReferrerPrefs, store: PrefsFile)
      ensures this.store == store && this.referrer == referrer
      ensures State() == Fresh(store.contents) && referrerPropertiesCache.None?
    {
      this.store := store;
      this.referrer := referrer;
      superPropertiesCache := None;
      referrerPropertiesCache := None;
      identitiesLoaded := false;
      eventsDistinctId := None;
    }

    method StoreSuperProperties()
      modifies store
      ensures State() == Identity.StoreSuperProperties(old(State()), store.loads)
    {
      if superPropertiesCache.None? || !store.loads {
        return;
      }
      store.contents := store.contents.(superProperties := Some(Stored(superPropertiesCache.value)));
    }

    method ReadSuperProperties()
      modifies this, store
      ensures referrerPropertiesCache == old(referrerPropertiesCache)
      ensures State() == Identity.ReadSuperProperties(old(State()), store.loads)
    {
      if store.loads {
        match store.contents.superProperties {
          case None => superPropertiesCache := Some(map[]);
          case Some(Stored(p)) => superPropertiesCache := Some(p);
          case Some(Garbled(_)) => StoreSuperProperties();
        }
      }
      if superPropertiesCache.None? {
        superPropertiesCache := Some(map[]);
      }
    }

    method GetSuperProperties() returns (r: PropMap)
      modifies this, store
      ensures referrerPropertiesCache == old(referrerPropertiesCache)
      ensures (State(), r) == SuperProperties(old(State()), store.loads)
    {
      if superPropertiesCache.None? {
        ReadSuperProperties();
      }
      r := superPropertiesCache.value;
    }

    method RegisterSuperProperties(props: PropMap)
      modifies this, store
      ensures referrerPropertiesCache == old(referrerPropertiesCache)
      ensures State() == Identity.RegisterSuperProperties(old(State()), store.loads, props)
    {
      var propCache := GetSuperProperties();
      propCache := PutAll(propCache, props);
      superPropertiesCache := Some(propCache);
      StoreSuperProperties();
    }

    method UnregisterSuperProperty(name: string)
      modifies this, store
      ensures referrerPropertiesCache == old(referrerPropertiesCache)
      ensures State() == Identity.UnregisterSuperProperty(old(State()), store.loads, name)
    {
      var propCache := GetSuperProperties();
      superPropertiesCache := Some(propCache - {name});
      StoreSuperProperties();
    }

    method RegisterSuperPropertiesOnce(props: PropMap)
      modifies this, store
      ensures referrerPropertiesCache == old(referrerPropertiesCache)
      ensures State() == Identity.RegisterSuperPropertiesOnce(old(State()), store.loads, props)
    {
      var propCache := GetSuperProperties();
      propCache := PutAbsent(propCache, props);
      superPropertiesCache := Some(propCache);
      StoreSuperProperties();
    }

    method ClearSuperProperties()
      modifies this, store
      ensures referrerPropertiesCache == old(referrerPropertiesCache)
      ensures State() == Identity.ClearSuperProperties(old(State()), store.loads)
    {
      superPropertiesCache := Some(map[]);
      StoreSuperProperties();
    }

    method WriteIdentities()
      modifies store
      ensures State() == Identity.WriteIdentities(old(State()), store.loads)
    {
      if store.loads {
        store.contents := store.contents.(eventsDistinctId := eventsDistinctId);
      }
    }

    method ReadIdentities(freshId: string)
      modifies this, store
      ensures referrerPropertiesCache == old(referrerPropertiesCache)
      ensures State() == Identity.ReadIdentities(old(State()), store.loads, freshId)
    {
      if !store.loads {
        return;
      }
      eventsDistinctId := store.contents.eventsDistinctId;
      if eventsDistinctId.None? {
        eventsDistinctId := Some(freshId);
        WriteIdentities();
      }
      identitiesLoaded := true;
    }

    method GetEventsDistinctId(freshId: string) returns (r: Option<string>)
      modifies this, store
      ensures referrerPropertiesCache == old(referrerPropertiesCache)
      ensures (State(), r) == Identity.GetEventsDistinctId(old(State()), store.loads, freshId)
    {
      if !identitiesLoaded {
        ReadIdentities(freshId);
      }
      r := eventsDistinctId;
    }

    method SetEventsDistinctId(id: Option<string>, freshId: string)
      modifies this, store
      ensures referrerPropertiesCache == old(referrerPropertiesCache)
      ensures State() == Identity.SetEventsDistinctId(old(State()), store.loads, freshId, id)
    {
      if !identitiesLoaded {
        ReadIdentities(freshId);
      }
      eventsDistinctId := id;
      WriteIdentities();
    }

    /** `clearPreferences`; `ok` is false where the method throws because the file cannot be had. */
    method ClearPreferences(freshId: string) returns (ok: bool)
      modifies this, store
      ensures referrerPropertiesCache == old(referrerPropertiesCache)
      ensures ok <==> Identity.ClearPreferences(old(State()), store.loads, freshId).Some?
      ensures ok ==> State() == Identity.ClearPreferences(old(State()), store.loads, freshId).value
      ensures !ok ==> State() == old(State())
    {
      if !store.loads {
        return false;
      }
      store.contents := EmptyPrefs;
      ReadSuperProperties();
      ReadIdentities(freshId);
      ok := true;
    }

    method GetReferrerProperties() returns (r: map<string, string>)
      modifies this, referrer
      ensures (Referrer(), r) == Identity.GetReferrerProperties(old(Referrer()), referrer.loads)
      ensures State() == old(State())
    {
      if referrer.dirty || referrerPropertiesCache.None? {
        var reread: map<string, string> := map[];
        if referrer.loads {
          reread := PutAll(reread, referrer.contents);
          assert reread == referrer.contents;
        }
        referrerPropertiesCache := Some(reread);
        referrer.dirty := false;
      }
      r := referrerPropertiesCache.value;
    }
  }
}

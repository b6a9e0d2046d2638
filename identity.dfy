/**
 * `PersistentIdentity`: the events distinct id and the super properties,
 * cached in the object and persisted in a preferences file, and the
 * referrer properties kept in a second preferences file.
 *
 * A preferences file is a value of type `Prefs`; whether the preferences
 * future yields the file is the flag `loads` (a future that fails fails on
 * every `get`). The random UUID of a new distinct id is the parameter
 * `freshId`. The functions give the effect of each operation on the cache
 * and the file; the classes in persistent_identity.dfy perform them in place.
 */
module Identity {
  import opened Common
  import opened Props

  /** The text stored under "super_properties": a JSON object, or text that does not parse as one. */
  datatype StoredProps = Stored(props: PropMap) | Garbled(text: string)

  /** The stored preferences: "events_distinct_id", "super_properties", and any other entry. */
  datatype Prefs = Prefs(eventsDistinctId: Option<string>, superProperties: Option<StoredProps>, others: map<string, string>)

  const EmptyPrefs := Prefs(None, None, map[])

  /** The object's caches together with the file they are read from and written to. */
  datatype IdentityState = IdentityState(
    prefs: Prefs,
    superCache: Option<PropMap>,
    identitiesLoaded: bool,
    distinctId: Option<string>)

  /** A new object over a file: nothing cached yet. */
  function Fresh(prefs: Prefs): IdentityState {
    IdentityState(prefs, None, false, None)
  }

  // ---------------------------------------------------------------------------
  // Super properties

  /** `storeSuperProperties`: writes the cache to the file, unless the cache is unset or the file cannot be had. */
  function StoreSuperProperties(s: IdentityState, loads: bool): (r: IdentityState)
    ensures r.superCache == s.superCache && r.distinctId == s.distinctId && r.identitiesLoaded == s.identitiesLoaded
    ensures r.prefs.eventsDistinctId == s.prefs.eventsDistinctId && r.prefs.others == s.prefs.others
    ensures r.prefs.superProperties == if loads && s.superCache.Some? then Some(Stored(s.superCache.value)) else s.prefs.superProperties
  {
    if !loads || s.superCache.None? then s
    else s.(prefs := s.prefs.(superProperties := Some(Stored(s.superCache.value))))
  }

  /**
   * `readSuperProperties`: the stored object, or an empty one when nothing
   * is stored; when the stored text does not parse, the (unset) cache is
   * stored, which writes nothing, and the cache becomes empty. When the
   * file cannot be had, an unset cache becomes empty.
   */
  function ReadSuperProperties(s: IdentityState, loads: bool): (r: IdentityState)
    ensures loads && s.prefs.superProperties.None? ==> r.superCache == Some(map[])
    ensures loads && s.prefs.superProperties.Some? && s.prefs.superProperties.value.Stored? ==>
      r.superCache == Some(s.prefs.superProperties.value.props)
    ensures !loads || (s.prefs.superProperties.Some? && s.prefs.superProperties.value.Garbled?) ==>
      r.superCache == Some(s.superCache.GetOr(map[]))
    ensures loads && s.prefs.superProperties.Some? && s.prefs.superProperties.value.Garbled? ==>
      r.prefs == StoreSuperProperties(s, loads).prefs
    ensures !(loads && s.prefs.superProperties.Some? && s.prefs.superProperties.value.Garbled?) || s.superCache.None? ==>
      r.prefs == s.prefs
    ensures r.distinctId == s.distinctId && r.identitiesLoaded == s.identitiesLoaded
  {
    if !loads then s.(superCache := Some(s.superCache.GetOr(map[])))
    else
      match s.prefs.superProperties
      case None => s.(superCache := Some(map[]))
      case Some(Stored(p)) => s.(superCache := Some(p))
      case Some(Garbled(_)) =>
        var stored := StoreSuperProperties(s, loads);
        stored.(superCache := Some(stored.superCache.GetOr(map[])))
  }

  /** `getSuperProperties`: reads the file the first time, then answers from the cache. */
  function SuperProperties(s: IdentityState, loads: bool): (r: (IdentityState, PropMap))
    ensures r.0.superCache == Some(r.1)
    ensures s.superCache.Some? ==> r.0 == s
  {
    var t := if s.superCache.None? then ReadSuperProperties(s, loads) else s;
    (t, t.superCache.value)
  }

  /** `registerSuperProperties`: every given key takes the given value; every other key keeps its value. */
  function RegisterSuperProperties(s: IdentityState, loads: bool, props: PropMap): (r: IdentityState)
    ensures r.superCache == Some(SuperProperties(s, loads).1 + props)
    ensures loads ==> r.prefs.superProperties == Some(Stored(r.superCache.value))
    ensures !loads ==> r.prefs == s.prefs
    ensures r.prefs.eventsDistinctId == s.prefs.eventsDistinctId && r.prefs.others == s.prefs.others
    ensures r.distinctId == s.distinctId && r.identitiesLoaded == s.identitiesLoaded
  {
    var (t, cache) := SuperProperties(s, loads);
    StoreSuperProperties(t.(superCache := Some(cache + props)), loads)
  }

  /** `registerSuperPropertiesOnce`: only the keys not yet present are added; no value already present changes. */
  function RegisterSuperPropertiesOnce(s: IdentityState, loads: bool, props: PropMap): (r: IdentityState)
    ensures r.superCache == Some(props + SuperProperties(s, loads).1)
    ensures loads ==> r.prefs.superProperties == Some(Stored(r.superCache.value))
    ensures !loads ==> r.prefs == s.prefs
    ensures r.prefs.eventsDistinctId == s.prefs.eventsDistinctId && r.prefs.others == s.prefs.others
    ensures r.distinctId == s.distinctId && r.identitiesLoaded == s.identitiesLoaded
  {
    var (t, cache) := SuperProperties(s, loads);
    StoreSuperProperties(t.(superCache := Some(props + cache)), loads)
  }

  /** `unregisterSuperProperty`: removes the one named key. */
  function UnregisterSuperProperty(s: IdentityState, loads: bool, name: string): (r: IdentityState)
    ensures r.superCache == Some(SuperProperties(s, loads).1 - {name})
    ensures loads ==> r.prefs.superProperties == Some(Stored(r.superCache.value))
    ensures !loads ==> r.prefs == s.prefs
    ensures r.prefs.eventsDistinctId == s.prefs.eventsDistinctId && r.prefs.others == s.prefs.others
    ensures r.distinctId == s.distinctId && r.identitiesLoaded == s.identitiesLoaded
  {
    var (t, cache) := SuperProperties(s, loads);
    StoreSuperProperties(t.(superCache := Some(cache - {name})), loads)
  }

  /** `clearSuperProperties`: the cache becomes empty and is stored. */
  function ClearSuperProperties(s: IdentityState, loads: bool): (r: IdentityState)
    ensures r.superCache == Some(map[])
    ensures loads ==> r.prefs.superProperties == Some(Stored(map[]))
    ensures !loads ==> r.prefs == s.prefs
    ensures r.prefs.eventsDistinctId == s.prefs.eventsDistinctId && r.prefs.others == s.prefs.others
    ensures r.distinctId == s.distinctId && r.identitiesLoaded == s.identitiesLoaded
  {
    StoreSuperProperties(s.(superCache := Some(map[])), loads)
  }

  // ---------------------------------------------------------------------------
  // The distinct id

  /** `writeIdentities`: stores the cached id (a null id removes the entry). */
  function WriteIdentities(s: IdentityState, loads: bool): (r: IdentityState)
    ensures loads ==> r.prefs.eventsDistinctId == s.distinctId
    ensures !loads ==> r == s
  {
    if loads then s.(prefs := s.prefs.(eventsDistinctId := s.distinctId)) else s
  }

  /**
   * `readIdentities`: takes the stored id, or generates `freshId` and
   * stores it; when the file cannot be had, nothing is loaded.
   */
  function ReadIdentities(s: IdentityState, loads: bool, freshId: string): (r: IdentityState)
    ensures loads ==> r.identitiesLoaded && r.distinctId.Some? && r.prefs.eventsDistinctId == r.distinctId
    ensures loads && s.prefs.eventsDistinctId.Some? ==> r.distinctId == s.prefs.eventsDistinctId && r.prefs == s.prefs
    ensures loads && s.prefs.eventsDistinctId.None? ==> r.distinctId == Some(freshId)
    ensures !loads ==> r == s
    ensures r.superCache == s.superCache
  {
    if !loads then s
    else if s.prefs.eventsDistinctId.Some? then s.(distinctId := s.prefs.eventsDistinctId, identitiesLoaded := true)
    else WriteIdentities(s.(distinctId := Some(freshId)), loads).(identitiesLoaded := true)
  }

  /** `getEventsDistinctId`: loads the identities once, then answers from the cache. */
  function GetEventsDistinctId(s: IdentityState, loads: bool, freshId: string): (r: (IdentityState, Option<string>))
    ensures r.1 == r.0.distinctId
    ensures s.identitiesLoaded ==> r.0 == s
  {
    var t := if !s.identitiesLoaded then ReadIdentities(s, loads, freshId) else s;
    (t, t.distinctId)
  }

  /** `setEventsDistinctId`: loads the identities if needed, then replaces and stores the id. */
  function SetEventsDistinctId(s: IdentityState, loads: bool, freshId: string, id: Option<string>): (r: IdentityState)
    ensures r.distinctId == id
    ensures loads ==> r.prefs.eventsDistinctId == id && r.identitiesLoaded
  {
    var t := if !s.identitiesLoaded then ReadIdentities(s, loads, freshId) else s;
    WriteIdentities(t.(distinctId := id), loads)
  }

  /**
   * `clearPreferences`: wipes the file, then reloads the super properties
   * and the identities from it; `None` when the file cannot be had (the
   * method throws).
   */
  function ClearPreferences(s: IdentityState, loads: bool, freshId: string): Option<IdentityState> {
    if !loads then None
    else Some(ReadIdentities(ReadSuperProperties(s.(prefs := EmptyPrefs), loads), loads, freshId))
  }

  // ---------------------------------------------------------------------------
  // Referrer properties

  /** The referrer file, its shared dirty flag, and one object's cache of it. */
  datatype ReferrerState = ReferrerState(contents: map<string, string>, dirty: bool, cache: Option<map<string, string>>)

  /** `writeReferrerPrefs`: the file becomes exactly the given map, and every cache is marked stale. */
  function WriteReferrerPrefs(rs: ReferrerState, properties: map<string, string>): (r: ReferrerState)
    ensures r.contents == properties && r.dirty && r.cache == rs.cache
  {
    rs.(contents := properties, dirty := true)
  }

  /** `getReferrerProperties`: re-reads the file when the cache is stale or unset; an unreadable file reads as empty. */
  function GetReferrerProperties(rs: ReferrerState, loads: bool): (r: (ReferrerState, map<string, string>))
    ensures !r.0.dirty && r.0.cache == Some(r.1) && r.0.contents == rs.contents
    ensures !rs.dirty && rs.cache.Some? ==> r.1 == rs.cache.value
    ensures rs.dirty || rs.cache.None? ==> r.1 == if loads then rs.contents else map[]
  {
    if rs.dirty || rs.cache.None? then
      var reread := if loads then rs.contents else map[];
      (rs.(dirty := false, cache := Some(reread)), reread)
    else (rs, rs.cache.value)
  }

  // ---------------------------------------------------------------------------
  // Properties

  /** Coherence of the cache with the file: once loaded, the cached id is the stored one. */
  predicate Coherent(s: IdentityState) {
    s.identitiesLoaded ==> s.prefs.eventsDistinctId == s.distinctId
  }

  /**
   * The distinct id is generated at most once: the first call returns the
   * stored id, or a generated one that it stores; a second call returns the
   * same id and changes nothing.
   */
  lemma DistinctIdIsStable(s: IdentityState, loads: bool, freshA: string, freshB: string)
    requires loads && Coherent(s)
    ensures
      var (s1, id1) := GetEventsDistinctId(s, loads, freshA);
      var (s2, id2) := GetEventsDistinctId(s1, loads, freshB);
      && s1.prefs.eventsDistinctId == id1
      && id2 == id1 && s2 == s1
      && (!s.identitiesLoaded ==> id1.Some?)
      && (!s.identitiesLoaded && s.prefs.eventsDistinctId.None? ==> id1 == Some(freshA))
      && (!s.identitiesLoaded && s.prefs.eventsDistinctId.Some? ==> id1 == s.prefs.eventsDistinctId)
  {
  }

  /** After `setEventsDistinctId(x)` the getter and the file both give `x`. */
  lemma SetThenGet(s: IdentityState, loads: bool, freshA: string, freshB: string, x: string)
    requires loads
    ensures
      var s1 := SetEventsDistinctId(s, loads, freshA, Some(x));
      var (s2, id) := GetEventsDistinctId(s1, loads, freshB);
      id == Some(x) && s2.prefs.eventsDistinctId == Some(x)
  {
  }

  /** Registering the same properties once more changes nothing. */
  lemma RegisterOnceIsIdempotent(s: IdentityState, loads: bool, props: PropMap)
    ensures
      var s1 := RegisterSuperPropertiesOnce(s, loads, props);
      RegisterSuperPropertiesOnce(s1, loads, props) == s1
  {
    var s1 := RegisterSuperPropertiesOnce(s, loads, props);
    var c := SuperProperties(s, loads).1;
    assert props + (props + c) == props + c;
  }

  /** Registering once never changes a value already present, and adds exactly the missing keys. */
  lemma RegisterOnceKeepsExisting(s: IdentityState, loads: bool, props: PropMap)
    ensures
      var before := SuperProperties(s, loads).1;
      var after := RegisterSuperPropertiesOnce(s, loads, props).superCache.value;
      && (forall k :: k in before ==> k in after && after[k] == before[k])
      && (forall k :: k in props && k !in before ==> k in after && after[k] == props[k])
      && after.Keys == before.Keys + props.Keys
  {
  }

  /** `unregisterSuperProperty` removes only the named key. */
  lemma UnregisterRemovesOnlyName(s: IdentityState, loads: bool, name: string)
    ensures
      var before := SuperProperties(s, loads).1;
      var after := UnregisterSuperProperty(s, loads, name).superCache.value;
      && name !in after
      && forall k :: k != name ==> (k in after <==> k in before) && (k in after ==> after[k] == before[k])
  {
  }

  /** Stored super properties that do not parse load as an empty map, and the stored text is left as it is. */
  lemma GarbledLoadsEmpty(s: IdentityState, text: string)
    requires s.superCache.None? && s.prefs.superProperties == Some(Garbled(text))
    ensures var (t, props) := SuperProperties(s, true); props == map[] && t.prefs == s.prefs
  {
  }

  /**
   * `clearPreferences` leaves no super property and a newly generated
   * distinct id, which is the only thing stored; it fails when the file
   * cannot be had.
   */
  lemma ClearPreferencesResets(s: IdentityState, loads: bool, freshId: string)
    ensures loads <==> ClearPreferences(s, loads, freshId).Some?
    ensures loads ==>
      var r := ClearPreferences(s, loads, freshId).value;
      && r.superCache == Some(map[])
      && r.distinctId == Some(freshId) && r.identitiesLoaded
      && r.prefs == EmptyPrefs.(eventsDistinctId := Some(freshId))
  {
  }

  /** Writing the referrer file makes the next read return exactly the written map, with no entry of the old one. */
  lemma ReferrerWriteThenRead(rs: ReferrerState, properties: map<string, string>)
    ensures GetReferrerProperties(WriteReferrerPrefs(rs, properties), true).1 == properties
  {
  }
}

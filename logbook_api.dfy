/**
 * `LogbookAPI`: the entry point applications call. `track` builds the
 * event's properties and queues it with the worker, `flush` asks the worker
 * to send, and `getInstance` keeps one instance per token and application.
 */
module LogbookApi {
  import opened Common
  import opened Props
  import opened EventStore
  import opened Configuration
  import opened Dispatch
  import opened AnalyticsWorker
  import Identity
  import opened IdentityStore

  /**
   * The properties `track` sends: `time` in seconds and `distinct_id` (left
   * out when the id is null), then every caller property, which overrides
   * both.
   */
  function TrackProperties(nowMillis: int, distinctId: Option<string>, properties: Option<PropMap>): (r: PropMap)
    ensures var caller := properties.GetOr(map[]);
      && r.Keys == {"time"} + (if distinctId.Some? then {"distinct_id"} else {}) + caller.Keys
      && (forall k :: k in caller ==> r[k] == caller[k])
      && ("time" !in caller ==> r["time"] == Num(TruncDiv(nowMillis, 1000)))
      && ("distinct_id" !in caller && distinctId.Some? ==> r["distinct_id"] == Str(distinctId.value))
  {
    var stamped := map["time" := Num(TruncDiv(nowMillis, 1000))];
    var identified := Put(stamped, "distinct_id", if distinctId.Some? then Some(Str(distinctId.value)) else None);
    identified + properties.GetOr(map[])
  }

  /**
   * Whatever the caller passes, `time` and `distinct_id` are the only keys
   * `track` adds, and a caller's value for either of them is the one sent.
   */
  lemma CallerPropertiesWin(nowMillis: int, distinctId: string, caller: PropMap)
    requires "time" in caller && "distinct_id" in caller
    ensures TrackProperties(nowMillis, Some(distinctId), Some(caller)) == caller
  {
    var r := TrackProperties(nowMillis, Some(distinctId), Some(caller));
    assert r.Keys == caller.Keys;
  }

  /**
   * Together with `prepareEventObject`, the event the worker stores has the
   * name under `event`, the caller's properties over `time`, `distinct_id`
   * and `token`, and the device defaults under everything.
   */
  lemma StoredEventPrecedence(defaults: PropMap, eventName: string, token: string, nowMillis: int, id: string, caller: PropMap)
    requires "event" !in caller
    ensures
      var props := TrackProperties(nowMillis, Some(id), Some(caller));
      var obj := PrepareEventObject(defaults, EventDescription(Some(eventName), Some(props), token));
      && obj["event"] == Str(eventName)
      && (forall k :: k in caller ==> obj[k] == caller[k])
      && ("time" !in caller ==> obj["time"] == Num(TruncDiv(nowMillis, 1000)))
      && ("distinct_id" !in caller ==> obj["distinct_id"] == Str(id))
      && ("token" !in caller ==> obj["token"] == Str(token))
      && (forall k :: k in defaults && k !in caller && k !in {"event", "token", "time", "distinct_id"} ==> obj[k] == defaults[k])
  {
  }

  class LogbookAPI {
    const context: Context
    const token: string
    const messages: AnalyticsMessages
    const identity: PersistentIdentity

    constructor (context: Context, token: string, messages: AnalyticsMessages, identity: PersistentIdentity)
      ensures this.context == context && this.token == token
      ensures this.messages == messages && this.identity == identity
    {
      this.context := context;
      this.token := token;
      this.messages := messages;
      this.identity := identity;
    }

    /**
     * `track`: reads (and on first use generates) the distinct id, builds
     * the properties, and posts exactly one enqueue message carrying the
     * event name, those properties and this instance's token.
     */
    method Track(eventName: Option<string>, properties: Option<PropMap>, nowMillis: int, freshId: string)
      requires messages.Valid()
      modifies messages, identity, identity.store
      ensures messages.Valid()
      ensures
        var (idState, id) := Identity.GetEventsDistinctId(old(identity.State()), identity.store.loads, freshId);
        && identity.State() == idState
        && identity.referrerPropertiesCache == old(identity.referrerPropertiesCache)
        && messages.State() == Dispatch.RunMessage(old(messages.State()),
             EnqueueEvents(EventDescription(eventName, Some(TrackProperties(nowMillis, id, properties)), token)))
    {
      var messageProps: PropMap := map[];
      var time := TruncDiv(nowMillis, 1000);
      messageProps := messageProps["time" := Num(time)];
      var distinctId := identity.GetEventsDistinctId(freshId);
      messageProps := Put(messageProps, "distinct_id", if distinctId.Some? then Some(Str(distinctId.value)) else None);
      if properties.Some? {
        messageProps := PutAll(messageProps, properties.value);
      }
      assert messageProps == TrackProperties(nowMillis, distinctId, properties);
      messages.EventsMessage(EventDescription(eventName, Some(messageProps), token));
    }

    /** `flush`: posts exactly one flush message. */
    method Flush()
      requires messages.Valid()
      modifies messages
      ensures messages.Valid()
      ensures messages.State() == Dispatch.RunMessage(old(messages.State()), FlushQueue)
    {
      messages.PostToServer();
    }
  }

  /** `LogbookAPI.getInstance`: one instance per token and application context. */
  class LogbookRegistry {
    var instanceMap: map<string, map<Context, LogbookAPI?>>

    constructor ()
      ensures instanceMap == map[]
    {
      instanceMap := map[];
    }

    /**
     * Null when the token or the context is null; the registered instance
     * for the token and the context's application when there is one;
     * otherwise a new instance, over the application's worker and a new
     * identity on the token's preferences, registered under both keys.
     */
    method GetInstance(context: Option<Context>, token: Option<string>,
                       workers: AnalyticsRegistry, settings: Config, stored: Table,
                       referrer: ReferrerPrefs, prefs: PrefsFile) returns (r: LogbookAPI?)
      requires WellFormed(stored)
      modifies this, workers
      ensures context.None? || token.None? ==>
        r == null && instanceMap == old(instanceMap) && workers.instances == old(workers.instances)
      ensures context.Some? && token.Some? ==>
        var app := context.value.ApplicationContext();
        var t := token.value;
        var known := if t in old(instanceMap) then old(instanceMap)[t] else map[];
        && r != null
        && (app in known && known[app] != null ==>
              r == known[app] && instanceMap == old(instanceMap) && workers.instances == old(workers.instances))
        && (app !in known || known[app] == null ==>
              fresh(r) && r.token == t && r.context == app
              && fresh(r.identity) && r.identity.store == prefs && r.identity.referrer == referrer
              && r.identity.State() == Identity.Fresh(prefs.contents) && r.identity.referrerPropertiesCache.None?
              && app in workers.instances && r.messages == workers.instances[app]
              && (app in old(workers.instances) ==>
                    r.messages == old(workers.instances)[app] && workers.instances == old(workers.instances))
              && (app !in old(workers.instances) ==>
                    fresh(r.messages) && r.messages.Valid() && r.messages.State() == NewWorker(stored)
                    && workers.instances == old(workers.instances)[app := r.messages])
              && instanceMap == old(instanceMap)[t := known[app := r]])
    {
      if token.None? || context.None? {
        return null;
      }
      var app := context.value.ApplicationContext();
      var t := token.value;
      var instances: map<Context, LogbookAPI?> := map[];
      if t in instanceMap {
        instances := instanceMap[t];
      } else {
        instanceMap := instanceMap[t := instances];
      }
      if app in instances && instances[app] != null {
        r := instances[app];
      } else {
        var messages := workers.GetInstance(app, settings, stored);
        var identity := new PersistentIdentity(referrer, prefs);
        r := new LogbookAPI(app, t, messages, identity);
        instances := instances[app := r];
        instanceMap := instanceMap[t := instances];
      }
    }
  }
}

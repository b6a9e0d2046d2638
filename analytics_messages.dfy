/**
 * `AnalyticsMessages`: the worker as an object whose fields its handler
 * updates in place, and the registry of one worker per application. Every
 * method is tied to the step function of the same name in module Dispatch,
 * where the properties of the steps are proved.
 */
module AnalyticsWorker {
  import opened Common
  import opened Props
  import opened EventStore
  import opened Dispatch
  import opened Configuration

  class AnalyticsMessages {
    const settings: Config
    /** The adapter's store; `adapterOpen` says whether the handler has created the adapter yet. */
    const db: EventDb
    var adapterOpen: bool
    /** `mHandler == null`. */
    var dead: bool
    var inbox: seq<Message>
    var delayedFlushes: nat
    var flushCount: nat
    var aveFlushFrequency: int
    var lastFlushTime: int
    var posts: seq<Post>

    function State(): Worker
      reads this, db
    {
      Worker(db.Snapshot(), adapterOpen, dead, inbox, delayedFlushes,
        FlushStats(flushCount, aveFlushFrequency, lastFlushTime), posts)
    }

    ghost predicate Valid()
      reads this, db
    {
      db.Valid() && Halted(State())
    }

    /** A new worker over the store found on disk. */
    constructor (settings: Config, stored: Table)
      requires WellFormed(stored)
      ensures Valid() && State() == NewWorker(stored) && this.settings == settings
      ensures fresh(db)
    {
      this.settings := settings;
      db := new EventDb(stored);
      adapterOpen := false;
      dead := false;
      inbox := [];
      delayedFlushes := 0;
      flushCount := 0;
      aveFlushFrequency := 0;
      lastFlushTime := -1;
      posts := [];
    }

    method IsDead() returns (r: bool)
      ensures r == State().dead
    {
      r := dead;
    }

    method RunMessage(m: Message)
      requires Valid()
      modifies this
      ensures Valid()
      ensures State() == Dispatch.RunMessage(old(State()), m)
    {
      if !dead {
        inbox := inbox + [m];
      }
    }

    method EventsMessage(d: EventDescription)
      requires Valid()
      modifies this
      ensures Valid()
      ensures State() == Dispatch.RunMessage(old(State()), EnqueueEvents(d))
    {
      RunMessage(EnqueueEvents(d));
    }

    method PostToServer()
      requires Valid()
      modifies this
      ensures Valid()
      ensures State() == Dispatch.RunMessage(old(State()), FlushQueue)
    {
      RunMessage(FlushQueue);
    }

    method HardKill()
      requires Valid()
      modifies this
      ensures Valid()
      ensures State() == Dispatch.RunMessage(old(State()), KillWorker)
    {
      RunMessage(KillWorker);
    }

    method UpdateFlushFrequency(now: int)
      modifies this
      ensures State() == old(State()).(stats := Dispatch.UpdateFlushFrequency(old(State()).stats, now))
    {
      var newFlushCount := flushCount + 1;
      if lastFlushTime > 0 {
        var interval := now - lastFlushTime;
        var totalFlushTime := interval + aveFlushFrequency * flushCount;
        aveFlushFrequency := TruncDiv(totalFlushTime, newFlushCount);
      }
      lastFlushTime := now;
      flushCount := newFlushCount;
    }

    /** `sendData`: read a batch, post it, then delete it or schedule a retry. */
    method SendData(urls: seq<string>, outcomes: seq<Transport>, readOk: bool, delete: DbOutcome)
      requires Valid() && !dead && |outcomes| == |urls|
      modifies this, db
      ensures Valid()
      ensures State() == Dispatch.SendData(old(State()), urls, outcomes, readOk, delete)
    {
      var batch := db.GenerateDataString(readOk);
      if batch.None? {
        return;
      }
      var deleteEvents, sent := PostBatch(urls, outcomes, batch.value);
      posts := posts + sent;
      if deleteEvents {
        db.CleanupEventsById(batch.value.lastId, delete);
      } else if !(FlushQueue in inbox || delayedFlushes > 0) {
        delayedFlushes := delayedFlushes + 1;
      }
    }

    method SendAllData(env: Env)
      requires Valid() && !dead
      modifies this, db
      ensures Valid()
      ensures State() == Dispatch.SendAllData(old(State()), settings, env)
    {
      if !env.online {
        return;
      }
      SendData([settings.eventsEndpoint], [env.transport], env.readOk, env.delete);
    }

    /** The handler's first message creates the adapter, which drops the expired rows. */
    method OpenAdapter(env: Env)
      requires Valid()
      modifies this, db
      ensures Valid()
      ensures State() == Open(old(State()), settings, env)
    {
      if !adapterOpen {
        db.CleanupEventsByTime(env.now - settings.dataExpiration, env.expire);
        adapterOpen := true;
      }
    }

    /** `updateFlushFrequency` then `sendAllData`. */
    method Flush(env: Env)
      requires Valid() && !dead
      modifies this, db
      ensures Valid()
      ensures State() == Dispatch.Flush(old(State()), settings, env)
    {
      UpdateFlushFrequency(env.now);
      SendAllData(env);
    }

    /** The branch on `msg.what` inside the try block, reporting the queue depth. */
    method DispatchMessage(m: Message, env: Env) returns (queueDepth: int)
      requires Valid() && !dead
      modifies this, db
      ensures Valid()
      ensures (State(), queueDepth) == Dispatch.Dispatch(old(State()), m, settings, env)
    {
      queueDepth := -1;
      if m.What() == EnqueueEventsWhat {
        var message := PrepareEventObject(env.defaults, m.description);
        queueDepth := db.AddJson(JsonObject(message), env.now, env.write);
      } else if m.What() == FlushQueueWhat {
        Flush(env);
      }
    }

    /** The bulk-limit flush or the delayed flush that follows the dispatch. */
    method ScheduleAfter(queueDepth: int, env: Env)
      requires Valid() && !dead
      modifies this, db
      ensures Valid()
      ensures State() == Dispatch.AfterDispatch(old(State()), queueDepth, settings, env)
    {
      if queueDepth >= settings.bulkUploadLimit {
        Flush(env);
      } else if queueDepth > 0 && !(FlushQueue in inbox || delayedFlushes > 0) {
        if settings.flushInterval >= 0 {
          delayedFlushes := delayedFlushes + 1;
        }
      }
    }

    /** `handleMessage` on the message at the head of the queue. */
    method HandleNext(env: Env)
      requires Valid()
      modifies this, db
      ensures Valid()
      ensures State() == Dispatch.HandleNext(old(State()), settings, env)
    {
      if dead || inbox == [] {
        return;
      }
      var m := inbox[0];
      inbox := inbox[1..];
      HandleMessage(m, env);
    }

    /** `handleMessage(m)` once `m` has left the queue. */
    method HandleMessage(m: Message, env: Env)
      requires Valid() && !dead
      modifies this, db
      ensures Valid()
      ensures State() == Dispatch.HandleMessage(old(State()), m, settings, env)
    {
      OpenAdapter(env);
      if env.fault {
        dead := true;
        inbox := [];
        delayedFlushes := 0;
        return;
      }
      Process(m, env);
    }

    /** The try block when nothing throws: dispatch, then schedule. */
    method Process(m: Message, env: Env)
      requires Valid() && !dead
      modifies this, db
      ensures Valid()
      ensures State() == Dispatch.Process(old(State()), m, settings, env)
    {
      var queueDepth := DispatchMessage(m, env);
      ghost var handled := State();
      ScheduleAfter(queueDepth, env);
      assert State() == AfterDispatch(handled, queueDepth, settings, env);
    }

    /** A delayed flush comes due. */
    method FireDelayedFlush()
      requires Valid()
      modifies this
      ensures Valid()
      ensures State() == Dispatch.FireDelayedFlush(old(State()))
    {
      if delayedFlushes > 0 {
        inbox := inbox + [FlushQueue];
        delayedFlushes := delayedFlushes - 1;
      }
    }
  }

  /** A delivery result seen from `k` urls further on. */
  function Shifted(d: DeliveryResult, k: nat): DeliveryResult {
    DeliveryResult(d.deleteEvents, d.attempted + k)
  }

  /**
   * The url loop of `sendData`: posts the batch to each url in turn until a
   * request does not end in an I/O error, and reports whether to delete the
   * batch and the requests it sent.
   */
  method PostBatch(urls: seq<string>, outcomes: seq<Transport>, b: Batch) returns (deleteEvents: bool, sent: seq<Post>)
    requires |outcomes| == |urls|
    ensures var d := Delivery(outcomes, true);
      deleteEvents == d.deleteEvents && sent == PostsTo(urls[..d.attempted], b)
  {
    deleteEvents := true;
    sent := [];
    var i := 0;
    var stop := false;
    while i < |urls| && !stop
      invariant 0 <= i <= |urls|
      invariant sent == PostsTo(urls[..i], b)
      invariant !stop ==> deleteEvents == (i == 0)
      invariant !stop ==> Delivery(outcomes, true) == Shifted(Delivery(outcomes[i..], deleteEvents), i)
      invariant stop ==> Delivery(outcomes, true) == DeliveryResult(deleteEvents, i)
      modifies {}
    {
      PostsToStep(urls, i, b);
      DeliveryStep(outcomes, i, deleteEvents);
      sent := sent + [Post(urls[i], b)];
      match outcomes[i] {
        case Response(_) =>
          deleteEvents := true;
          stop := true;
        case MalformedUrl =>
          stop := true;
        case OutOfMemory =>
          stop := true;
        case IOFailure =>
          deleteEvents := false;
      }
      i := i + 1;
    }
    if !stop {
      assert outcomes[i..] == [];
    }
  }

  /** Posting to one more url appends its request. */
  lemma PostsToStep(urls: seq<string>, i: nat, b: Batch)
    requires i < |urls|
    ensures PostsTo(urls[..i + 1], b) == PostsTo(urls[..i], b) + [Post(urls[i], b)]
  {
    assert urls[..i + 1] == urls[..i] + [urls[i]];
  }

  /** One url of the loop: a stop after one request, or one request more than the rest of the loop. */
  lemma DeliveryStep(outcomes: seq<Transport>, i: nat, deleteEvents: bool)
    requires i < |outcomes|
    ensures outcomes[i].IOFailure? ==>
      Delivery(outcomes[i..], deleteEvents) == Shifted(Delivery(outcomes[i + 1..], false), 1)
    ensures outcomes[i].Response? ==> Delivery(outcomes[i..], deleteEvents) == DeliveryResult(true, 1)
    ensures outcomes[i].MalformedUrl? || outcomes[i].OutOfMemory? ==>
      Delivery(outcomes[i..], deleteEvents) == DeliveryResult(deleteEvents, 1)
  {
    assert outcomes[i..][0] == outcomes[i];
    assert outcomes[i..][1..] == outcomes[i + 1..];
  }

  /** `AnalyticsMessages.getInstance`: one worker per application context, created on first use. */
  class AnalyticsRegistry {
    var instances: map<Context, AnalyticsMessages>

    constructor ()
      ensures instances == map[]
    {
      instances := map[];
    }

    method GetInstance(messageContext: Context, settings: Config, stored: Table) returns (r: AnalyticsMessages)
      requires WellFormed(stored)
      modifies this
      ensures var app := messageContext.ApplicationContext();
        && (app in old(instances) ==> r == old(instances)[app] && instances == old(instances))
        && (app !in old(instances) ==>
              fresh(r) && r.Valid() && r.State() == NewWorker(stored) && instances == old(instances)[app := r])
    {
      var app := messageContext.ApplicationContext();
      if app !in instances {
        r := new AnalyticsMessages(settings, stored);
        instances := instances[app := r];
      } else {
        r := instances[app];
      }
    }
  }
}

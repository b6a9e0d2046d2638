/**
 * The rules of the analytics worker (`AnalyticsMessages.Worker` and its
 * `AnalyticsMessageHandler`) as functions on a value: one step handles the
 * message at the head of the worker's queue. The class in
 * analytics_messages.dfy runs the same steps on mutable fields.
 *
 * The worker thread, its looper and its lock are not modelled: the looper is
 * the sequence `inbox` of messages due now, and `delayedFlushes` counts the
 * FLUSH_QUEUE messages posted with a delay that have not yet come due.
 */
module Dispatch {
  import opened Common
  import opened Props
  import opened EventStore
  import opened Configuration

  // ---------------------------------------------------------------------------
  // Messages

  const EnqueueEventsWhat := 1
  const FlushQueueWhat := 2
  const KillWorkerWhat := 5

  /** What `track` hands to the worker; a Java null event name is `None`. */
  datatype EventDescription = EventDescription(eventName: Option<string>, properties: Option<PropMap>, token: string)

  datatype Message = EnqueueEvents(description: EventDescription) | FlushQueue | KillWorker {
    /** The `what` code the message carries. */
    function What(): int {
      match this
      case EnqueueEvents(_) => EnqueueEventsWhat
      case FlushQueue => FlushQueueWhat
      case KillWorker => KillWorkerWhat
    }
  }

  /** What one `performRequest` did: a response (possibly null), or the error it threw. */
  datatype Transport = Response(body: Option<seq<bv8>>) | IOFailure | MalformedUrl | OutOfMemory

  /** One request the worker sent: the url and the batch it carried. */
  datatype Post = Post(url: string, batch: Batch)

  /** The flush statistics kept by the worker (`mFlushCount`, `mAveFlushFrequency`, `mLastFlushTime`). */
  datatype FlushStats = FlushStats(flushCount: nat, aveFlushFrequency: int, lastFlushTime: int)

  const InitialStats := FlushStats(0, 0, -1)

  /**
   * Everything a step learns from outside: the clock, the device properties
   * (`getDefaultEventProperties`), whether an unchecked exception escapes the
   * step, whether the device is online, and how each storage call and the
   * request end.
   */
  datatype Env = Env(
    now: int,
    defaults: PropMap,
    fault: bool,
    online: bool,
    write: DbOutcome,
    readOk: bool,
    delete: DbOutcome,
    expire: DbOutcome,
    transport: Transport)

  /** The worker: its store, whether the adapter was ready, whether it died, its queues, its statistics, and the requests sent so far. */
  datatype Worker = Worker(
    table: Table,
    adapterOpen: bool,
    dead: bool,
    inbox: seq<Message>,
    delayedFlushes: nat,
    stats: FlushStats,
    posts: seq<Post>)

  function NewWorker(stored: Table): Worker {
    Worker(stored, false, false, [], 0, InitialStats, [])
  }

  /** `hasMessages(FLUSH_QUEUE)`: a flush is queued, now or delayed. */
  predicate HasPendingFlush(w: Worker) {
    FlushQueue in w.inbox || w.delayedFlushes > 0
  }

  // ---------------------------------------------------------------------------
  // The event object

  /**
   * `prepareEventObject`: the device defaults, then `token`, then every
   * caller property, then `event` (removed when the name is null); each later
   * step overrides the earlier ones.
   */
  function PrepareEventObject(defaults: PropMap, d: EventDescription): (r: PropMap)
    ensures d.eventName.Some? ==> "event" in r && r["event"] == Str(d.eventName.value)
    ensures d.eventName.None? ==> "event" !in r
    ensures forall k :: k != "event" ==>
      (k in r <==> k in defaults || k == "token" || (d.properties.Some? && k in d.properties.value))
    ensures forall k :: k != "event" && d.properties.Some? && k in d.properties.value ==>
      r[k] == d.properties.value[k]
    ensures forall k :: k == "token" && (d.properties.None? || k !in d.properties.value) ==>
      r[k] == Str(d.token)
    ensures forall k :: k != "event" && k != "token" && k in defaults && (d.properties.None? || k !in d.properties.value) ==>
      r[k] == defaults[k]
  {
    var withToken := Put(defaults, "token", Some(Str(d.token)));
    var withProps := withToken + d.properties.GetOr(map[]);
    Put(withProps, "event", if d.eventName.Some? then Some(Str(d.eventName.value)) else None)
  }

  /**
   * The merge as the source writes it, a `put` per caller key in whatever
   * order the keys are iterated, gives the same object.
   */
  lemma PrepareEventLoop(defaults: PropMap, d: EventDescription, order: seq<string>)
    requires d.properties.Some?
    requires forall i :: 0 <= i < |order| ==> order[i] in d.properties.value
    requires forall k :: k in d.properties.value ==> k in order
    ensures
      var props := d.properties.value;
      var looped := PutEach(Put(defaults, "token", Some(Str(d.token))), props, order);
      Put(looped, "event", if d.eventName.Some? then Some(Str(d.eventName.value)) else None)
        == PrepareEventObject(defaults, d)
  {
    PutEachOfAllKeys(Put(defaults, "token", Some(Str(d.token))), d.properties.value, order);
  }

  // ---------------------------------------------------------------------------
  // Flush statistics

  /**
   * `updateFlushFrequency`: counts the flush and records its time; from the
   * second flush on, folds the interval since the last one into the running
   * average with Java's truncating division.
   */
  function UpdateFlushFrequency(s: FlushStats, now: int): (r: FlushStats)
    ensures r.flushCount == s.flushCount + 1 && r.lastFlushTime == now
    ensures s.lastFlushTime <= 0 ==> r.aveFlushFrequency == s.aveFlushFrequency
    ensures s.lastFlushTime > 0 ==>
      var total := now - s.lastFlushTime + s.aveFlushFrequency * s.flushCount;
      (total >= 0 ==> r.aveFlushFrequency * r.flushCount <= total < (r.aveFlushFrequency + 1) * r.flushCount)
      && (total < 0 ==> (r.aveFlushFrequency - 1) * r.flushCount < total <= r.aveFlushFrequency * r.flushCount)
  {
    var newCount := s.flushCount + 1;
    if s.lastFlushTime > 0 then
      var total := now - s.lastFlushTime + s.aveFlushFrequency * s.flushCount;
      FlushStats(newCount, TruncDiv(total, newCount), now)
    else
      FlushStats(newCount, s.aveFlushFrequency, now)
  }

  /**
   * With a clock that does not run backwards, the new average lies between
   * the smallest and the largest of the old average and the new interval.
   */
  lemma AverageStaysBetween(s: FlushStats, now: int, lo: int, hi: int)
    requires s.lastFlushTime > 0 && 0 <= lo
    requires lo <= s.aveFlushFrequency <= hi
    requires lo <= now - s.lastFlushTime <= hi
    ensures lo <= UpdateFlushFrequency(s, now).aveFlushFrequency <= hi
  {
    var n := s.flushCount;
    var total := now - s.lastFlushTime + s.aveFlushFrequency * n;
    MulMonotone(lo, s.aveFlushFrequency, n);
    MulMonotone(s.aveFlushFrequency, hi, n);
    MulSucc(lo, n);
    MulSucc(hi, n);
    MulMonotone(0, lo, n + 1);
    QuotientBetween(UpdateFlushFrequency(s, now).aveFlushFrequency, n + 1, total, lo, hi);
  }

  /** A truncated quotient of a total lying between `lo * m` and `hi * m` lies between `lo` and `hi`. */
  lemma QuotientBetween(q: int, m: nat, total: int, lo: int, hi: int)
    requires m > 0 && lo * m <= total <= hi * m
    requires q * m <= total < (q + 1) * m
    ensures lo <= q <= hi
  {
    if q > hi {
      MulMonotone(hi + 1, q, m);
      MulSucc(hi, m);
    }
    if q < lo {
      MulMonotone(q + 1, lo, m);
    }
  }

  lemma MulSucc(a: int, n: nat)
    ensures a * (n + 1) == a * n + a
  {
  }

  lemma MulMonotone(a: int, b: int, n: nat)
    requires a <= b
    ensures a * n <= b * n
  {
    assert b * n - a * n == (b - a) * n;
  }

  /**
   * The first flush leaves the average at 0 but is counted, so after two
   * flushes `d` apart the average is `d / 2`, not `d`.
   */
  lemma SecondFlushHalvesInterval(t0: int, d: nat)
    requires t0 > 0
    ensures
      var s2 := UpdateFlushFrequency(UpdateFlushFrequency(InitialStats, t0), t0 + d);
      s2.flushCount == 2 && s2.lastFlushTime == t0 + d && s2.aveFlushFrequency == d / 2
  {
    var s1 := UpdateFlushFrequency(InitialStats, t0);
    assert s1 == FlushStats(1, 0, t0);
  }

  // ---------------------------------------------------------------------------
  // Sending a batch

  datatype DeliveryResult = DeliveryResult(deleteEvents: bool, attempted: nat)

  /**
   * The url loop of `sendData`, given what each url's request does: a
   * response of any kind, a malformed url or an out-of-memory error stops
   * the loop; an I/O error clears `deleteEvents` and tries the next url; a
   * response sets `deleteEvents` again.
   */
  function Delivery(outcomes: seq<Transport>, deleteEvents: bool): (r: DeliveryResult)
    ensures outcomes == [] ==> r == DeliveryResult(deleteEvents, 0)
    ensures outcomes != [] ==> 1 <= r.attempted <= |outcomes|
    ensures forall i :: 0 <= i < r.attempted - 1 ==> outcomes[i].IOFailure?
    ensures 0 < r.attempted < |outcomes| ==> !outcomes[r.attempted - 1].IOFailure?
    ensures outcomes != [] ==>
      var last := outcomes[r.attempted - 1];
      (r.deleteEvents <==> last.Response? || (!last.IOFailure? && r.attempted == 1 && deleteEvents))
    decreases |outcomes|
  {
    if outcomes == [] then DeliveryResult(deleteEvents, 0)
    else
      match outcomes[0]
      case Response(_) => DeliveryResult(true, 1)
      case MalformedUrl => DeliveryResult(deleteEvents, 1)
      case OutOfMemory => DeliveryResult(deleteEvents, 1)
      case IOFailure =>
        var rest := Delivery(outcomes[1..], false);
        DeliveryResult(rest.deleteEvents, rest.attempted + 1)
  }

  /** The requests sent to each of `urls` with the same batch. */
  function PostsTo(urls: seq<string>, b: Batch): (r: seq<Post>)
    ensures |r| == |urls|
    ensures forall i :: 0 <= i < |r| ==> r[i] == Post(urls[i], b)
  {
    seq(|urls|, i requires 0 <= i < |urls| => Post(urls[i], b))
  }

  /**
   * `sendData`: read a batch; if there is one, post it to the urls until one
   * answers; then delete the batch, or, when every request failed with an
   * I/O error, schedule a retry flush unless one is pending.
   */
  function SendData(w: Worker, urls: seq<string>, outcomes: seq<Transport>, readOk: bool, delete: DbOutcome): Worker
    requires |outcomes| == |urls|
  {
    match ReadBatch(w.table.rows, readOk)
    case None => w
    case Some(b) =>
      var d := Delivery(outcomes, true);
      var sent := w.(posts := w.posts + PostsTo(urls[..d.attempted], b));
      if d.deleteEvents then sent.(table := Cleanup(sent.table, UpToId(b.lastId), delete))
      else if !HasPendingFlush(sent) then sent.(delayedFlushes := sent.delayedFlushes + 1)
      else sent
  }

  /** `sendAllData`: nothing when offline, otherwise `sendData` to the one events endpoint. */
  function SendAllData(w: Worker, settings: Config, env: Env): Worker {
    if !env.online then w
    else SendData(w, [settings.eventsEndpoint], [env.transport], env.readOk, env.delete)
  }

  /** A flush: `updateFlushFrequency` followed by `sendAllData`. */
  function Flush(w: Worker, settings: Config, env: Env): Worker {
    SendAllData(w.(stats := UpdateFlushFrequency(w.stats, env.now)), settings, env)
  }

  // ---------------------------------------------------------------------------
  // The worker's steps

  /** `runMessage`: a dead worker drops the message; a live one queues it. */
  function RunMessage(w: Worker, m: Message): (r: Worker)
    ensures w.dead ==> r == w
    ensures !w.dead ==> r == w.(inbox := w.inbox + [m])
  {
    if w.dead then w else w.(inbox := w.inbox + [m])
  }

  /** The first message opens the store, dropping the rows older than the expiration period. */
  function Open(w: Worker, settings: Config, env: Env): Worker {
    if w.adapterOpen then w
    else w.(table := Cleanup(w.table, UpToTime(env.now - settings.dataExpiration), env.expire), adapterOpen := true)
  }

  /** The handler gives up: no further message is handled, queued or delayed. */
  function Die(w: Worker): Worker {
    w.(dead := true, inbox := [], delayedFlushes := 0)
  }

  /** The handling of `m` inside the try block, and the queue depth it reports (-1 when nothing was queued). */
  function Dispatch(w: Worker, m: Message, settings: Config, env: Env): (Worker, int) {
    if m.What() == EnqueueEventsWhat then
      var (t, depth) := Insert(w.table, JsonObject(PrepareEventObject(env.defaults, m.description)), env.now, env.write);
      (w.(table := t), depth)
    else if m.What() == FlushQueueWhat then
      (Flush(w, settings, env), -1)
    else
      (w, -1)
  }

  /** What follows the dispatch: a flush at the bulk limit, else a delayed flush for a non-empty queue. */
  function AfterDispatch(w: Worker, depth: int, settings: Config, env: Env): Worker {
    if depth >= settings.bulkUploadLimit then Flush(w, settings, env)
    else if depth > 0 && !HasPendingFlush(w) then
      if settings.flushInterval >= 0 then w.(delayedFlushes := w.delayedFlushes + 1) else w
    else w
  }

  /** `handleMessage` on the message at the head of the queue; a dead or idle worker does nothing. */
  function HandleNext(w: Worker, settings: Config, env: Env): Worker {
    if w.dead || w.inbox == [] then w
    else HandleMessage(w.(inbox := w.inbox[1..]), w.inbox[0], settings, env)
  }

  /** `handleMessage(m)` once `m` has left the queue: open the store, then die on a fault or dispatch and schedule. */
  function HandleMessage(w: Worker, m: Message, settings: Config, env: Env): Worker {
    var ready := Open(w, settings, env);
    if env.fault then Die(ready) else Process(ready, m, settings, env)
  }

  /** The try block of `handleMessage` when nothing throws: the dispatch, then the flush or delayed flush that follows. */
  function Process(w: Worker, m: Message, settings: Config, env: Env): Worker {
    var (handled, depth) := Dispatch(w, m, settings, env);
    AfterDispatch(handled, depth, settings, env)
  }

  /** A delayed flush comes due and joins the queue. */
  function FireDelayedFlush(w: Worker): Worker {
    if w.delayedFlushes == 0 then w
    else w.(inbox := w.inbox + [FlushQueue], delayedFlushes := w.delayedFlushes - 1)
  }

  /** What can happen to a worker: a caller posts a message, the handler runs, or a delayed flush comes due. */
  datatype Input = Call(m: Message) | Handle(env: Env) | Timer

  function Step(w: Worker, settings: Config, i: Input): Worker {
    match i
    case Call(m) => RunMessage(w, m)
    case Handle(env) => HandleNext(w, settings, env)
    case Timer => FireDelayedFlush(w)
  }

  function Run(w: Worker, settings: Config, inputs: seq<Input>): Worker
    decreases |inputs|
  {
    if inputs == [] then w else Run(Step(w, settings, inputs[0]), settings, inputs[1..])
  }

  // ---------------------------------------------------------------------------
  // Properties of the worker

  /** A fault while handling a message kills the worker and discards its queues; only the store opening has happened. */
  lemma FaultKills(w: Worker, settings: Config, env: Env)
    requires !w.dead && w.inbox != [] && env.fault
    ensures var r := HandleNext(w, settings, env);
      && r.dead && r.inbox == [] && r.delayedFlushes == 0
      && r.posts == w.posts && r.stats == w.stats
      && r.table == Open(w, settings, env).table
  {
  }

  /** A dead worker has nothing left to handle: its queue is empty and no flush is delayed. */
  predicate Halted(w: Worker) {
    w.dead ==> w.inbox == [] && w.delayedFlushes == 0
  }

  /** Every input keeps a dead worker halted; a new worker is not dead. */
  lemma StepKeepsHalted(w: Worker, settings: Config, i: Input)
    requires Halted(w)
    ensures Halted(Step(w, settings, i))
  {
    if i.Handle? && !w.dead && w.inbox != [] && !i.env.fault {
      var env := i.env;
      var ready := Open(w.(inbox := w.inbox[1..]), settings, env);
      var (handled, depth) := Dispatch(ready, w.inbox[0], settings, env);
      if w.inbox[0].What() == FlushQueueWhat {
        FlushShape(ready, settings, env);
      }
      assert !handled.dead;
      FlushShape(handled, settings, env);
      assert !AfterDispatch(handled, depth, settings, env).dead;
    }
  }

  /** Once dead, the worker stays dead and nothing it holds ever changes again, whatever happens. */
  lemma {:induction false} DeadIsPermanent(w: Worker, settings: Config, inputs: seq<Input>)
    requires w.dead && Halted(w)
    ensures Run(w, settings, inputs) == w
    decreases |inputs|
  {
    if inputs != [] {
      assert Step(w, settings, inputs[0]) == w;
      DeadIsPermanent(w, settings, inputs[1..]);
    }
  }

  /**
   * `hardKill` has no effect on a live worker: KILL_WORKER reaches the
   * "unexpected message" branch, so the worker only opens its store and
   * stays alive (when the bulk limit is not negative, which would turn the
   * reported depth -1 into a flush).
   */
  lemma KillWorkerIgnored(w: Worker, settings: Config, env: Env)
    requires !w.dead && w.inbox != [] && w.inbox[0] == KillWorker && !env.fault
    requires settings.bulkUploadLimit >= 0
    ensures HandleNext(w, settings, env) == Open(w.(inbox := w.inbox[1..]), settings, env)
    ensures !HandleNext(w, settings, env).dead
  {
  }

  /** An enqueue that brings the queue to the bulk limit flushes once, in the same step, with no delayed flush added. */
  lemma BulkLimitFlushesOnce(w: Worker, d: EventDescription, settings: Config, env: Env)
    requires !w.dead && w.inbox != [] && w.inbox[0] == EnqueueEvents(d) && !env.fault
    ensures
      var ready := Open(w.(inbox := w.inbox[1..]), settings, env);
      var (t, depth) := Insert(ready.table, JsonObject(PrepareEventObject(env.defaults, d)), env.now, env.write);
      var r := HandleNext(w, settings, env);
      depth >= settings.bulkUploadLimit ==>
        && r == Flush(ready.(table := t), settings, env)
        && r.stats.flushCount == w.stats.flushCount + 1
        && |w.posts| <= |r.posts| <= |w.posts| + 1
        && r.delayedFlushes <= w.delayedFlushes + 1
  {
    var ready := Open(w.(inbox := w.inbox[1..]), settings, env);
    var (t, depth) := Insert(ready.table, JsonObject(PrepareEventObject(env.defaults, d)), env.now, env.write);
    if depth >= settings.bulkUploadLimit {
      FlushShape(ready.(table := t), settings, env);
    }
  }

  /** A flush counts once in the statistics, sends at most one request, and adds at most one delayed flush. */
  lemma FlushShape(w: Worker, settings: Config, env: Env)
    ensures var r := Flush(w, settings, env);
      && r.stats.flushCount == w.stats.flushCount + 1
      && |w.posts| <= |r.posts| <= |w.posts| + 1
      && w.delayedFlushes <= r.delayedFlushes <= w.delayedFlushes + 1
      && r.inbox == w.inbox && r.dead == w.dead
  {
    var w1 := w.(stats := UpdateFlushFrequency(w.stats, env.now));
    if env.online {
      var b := ReadBatch(w1.table.rows, env.readOk);
      if b.Some? {
        var dr := Delivery([env.transport], true);
        assert |PostsTo([settings.eventsEndpoint][..dr.attempted], b.value)| == dr.attempted <= 1;
      }
    }
  }

  /**
   * Below the bulk limit, an enqueue that stored the event adds a delayed
   * flush exactly when none is pending and the flush interval is not
   * negative; it sends nothing.
   */
  lemma BelowLimitSchedules(w: Worker, d: EventDescription, settings: Config, env: Env)
    requires !w.dead && w.inbox != [] && w.inbox[0] == EnqueueEvents(d) && !env.fault
    ensures
      var ready := Open(w.(inbox := w.inbox[1..]), settings, env);
      var (t, depth) := Insert(ready.table, JsonObject(PrepareEventObject(env.defaults, d)), env.now, env.write);
      var r := HandleNext(w, settings, env);
      0 < depth < settings.bulkUploadLimit ==>
        && r.table == t && r.posts == w.posts && r.stats == w.stats && r.inbox == w.inbox[1..]
        && r.delayedFlushes == w.delayedFlushes
             + (if !HasPendingFlush(ready) && settings.flushInterval >= 0 then 1 else 0)
  {
  }

  /** A failed append reports -1: the store is wiped and, with a bulk limit that is not negative, nothing is scheduled or sent. */
  lemma FailedAppendSchedulesNothing(w: Worker, d: EventDescription, settings: Config, env: Env)
    requires !w.dead && w.inbox != [] && w.inbox[0] == EnqueueEvents(d) && !env.fault
    requires env.write == SqlFailure && settings.bulkUploadLimit >= 0
    ensures var r := HandleNext(w, settings, env);
      && r.table == EmptyTable && r.delayedFlushes == w.delayedFlushes
      && r.posts == w.posts && r.stats == w.stats && !r.dead
  {
  }

  /** A FLUSH_QUEUE message runs one flush and, with a bulk limit that is not negative, schedules nothing more. */
  lemma FlushMessageFlushesOnce(w: Worker, settings: Config, env: Env)
    requires !w.dead && w.inbox != [] && w.inbox[0] == FlushQueue && !env.fault
    requires settings.bulkUploadLimit >= 0
    ensures HandleNext(w, settings, env) == Flush(Open(w.(inbox := w.inbox[1..]), settings, env), settings, env)
  {
  }

  /** Offline, or with no batch to read, a flush sends nothing and changes neither the store nor the queues. */
  lemma NoBatchNoEffect(w: Worker, settings: Config, env: Env)
    requires !env.online || ReadBatch(w.table.rows, env.readOk).None?
    ensures SendAllData(w, settings, env) == w
  {
  }

  /**
   * With a batch in hand, a request that returns (even with a null body),
   * a malformed url or an out-of-memory error deletes exactly the batch's
   * rows up to its watermark; an I/O error keeps the store and schedules a
   * retry flush unless one is pending. Either way the batch was posted once.
   */
  lemma DeleteOrRetry(w: Worker, settings: Config, env: Env, b: Batch)
    requires env.online && ReadBatch(w.table.rows, env.readOk) == Some(b)
    ensures var r := SendAllData(w, settings, env);
      && r.posts == w.posts + [Post(settings.eventsEndpoint, b)]
      && r.inbox == w.inbox && r.stats == w.stats && r.dead == w.dead
      && (!env.transport.IOFailure? ==>
            r.table == Cleanup(w.table, UpToId(b.lastId), env.delete) && r.delayedFlushes == w.delayedFlushes)
      && (env.transport.IOFailure? ==>
            r.table == w.table
            && r.delayedFlushes == w.delayedFlushes + (if HasPendingFlush(w) then 0 else 1))
  {
    var d := Delivery([env.transport], true);
    assert d.attempted == 1;
    assert [settings.eventsEndpoint][..1] == [settings.eventsEndpoint];
    assert PostsTo([settings.eventsEndpoint], b) == [Post(settings.eventsEndpoint, b)];
  }

  /**
   * The retry path has no interval guard: even with a negative flush
   * interval, which stops the enqueue path from scheduling, an I/O error
   * schedules a retry flush.
   */
  lemma RetryIgnoresInterval(w: Worker, settings: Config, env: Env, b: Batch)
    requires settings.flushInterval < 0 && !HasPendingFlush(w)
    requires env.online && env.transport == IOFailure && ReadBatch(w.table.rows, env.readOk) == Some(b)
    ensures SendAllData(w, settings, env).delayedFlushes == w.delayedFlushes + 1
    ensures AfterDispatch(w, 1, settings.(bulkUploadLimit := 2), env) == w
  {
    DeleteOrRetry(w, settings, env, b);
  }

  /** With several urls, a later url's malformed address after an I/O error keeps the batch: only the single-url flush deletes on it. */
  lemma MalformedAfterIOFailureKeeps()
    ensures Delivery([IOFailure, MalformedUrl], true) == DeliveryResult(false, 2)
    ensures Delivery([MalformedUrl], true) == DeliveryResult(true, 1)
  {
    assert [IOFailure, MalformedUrl][1..] == [MalformedUrl];
  }
}

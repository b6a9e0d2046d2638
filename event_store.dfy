/**
 * The durable event table of `LBDbAdapter`: one SQLite table `events` with an
 * AUTOINCREMENT `_id`, the event's JSON text in `data` and the insertion time
 * in `created_at`. Every SQLite operation may raise `SQLiteException`; that
 * outcome is a parameter (`DbOutcome`, or a `readOk` flag for reads).
 */
module EventStore {
  import opened Common
  import opened Props

  /** The `data` column: the text of a JSON object, or text that no longer parses as one. */
  datatype Payload = JsonObject(props: PropMap) | Unparsable(text: string)

  /** One row of the `events` table. */
  datatype Record = Record(id: int, data: Payload, createdAt: int)

  /** How one SQLite write ends: it completes, or raises `SQLiteException`. */
  datatype DbOutcome = Completed | SqlFailure

  /**
   * The database file: the rows of `events` in insertion order, and the
   * AUTOINCREMENT counter (`sqlite_sequence`), the largest id ever issued.
   * Deleting the file resets both.
   */
  datatype Table = Table(rows: seq<Record>, sequence: int)

  /** What `generateDataString` returns: the id of the last row read and the parsed objects. */
  datatype Batch = Batch(lastId: int, events: seq<PropMap>)

  /** The two forms of `cleanupEvents`: by id watermark and by age. */
  datatype Cut = UpToId(lastId: int) | UpToTime(time: int)

  /** `LIMIT 50` in the batch query. */
  const MaxBatchRows: nat := 50

  /** The state after `deleteDatabase()`: no file, so no rows and a fresh counter. */
  const EmptyTable := Table([], 0)

  predicate IdsAscending(rows: seq<Record>) {
    forall i, j :: 0 <= i < j < |rows| ==> rows[i].id < rows[j].id
  }

  /** Ids are positive, strictly increasing in insertion order, and never above the counter. */
  predicate WellFormed(t: Table) {
    && t.sequence >= 0
    && (forall x :: x in t.rows ==> 0 < x.id <= t.sequence)
    && IdsAscending(t.rows)
  }

  // ---------------------------------------------------------------------------
  // addJSON

  /**
   * `addJSON`: insert a row stamped `now` and return the row count; on a
   * SQLite failure the whole database file is deleted and the result is -1.
   */
  function Insert(t: Table, data: Payload, now: int, outcome: DbOutcome): (r: (Table, int))
    ensures outcome == SqlFailure ==> r == (EmptyTable, -1)
    ensures outcome == Completed ==>
      && |r.0.rows| == |t.rows| + 1
      && r.0.rows[..|t.rows|] == t.rows
      && r.0.rows[|t.rows|].data == data
      && r.0.rows[|t.rows|].createdAt == now
      && r.1 == |t.rows| + 1
    ensures outcome == Completed && WellFormed(t) ==>
      && WellFormed(r.0)
      && forall i :: 0 <= i < |t.rows| ==> t.rows[i].id < r.0.rows[|t.rows|].id
  {
    match outcome
    case Completed =>
      var rows := t.rows + [Record(t.sequence + 1, data, now)];
      (Table(rows, t.sequence + 1), |rows|)
    case SqlFailure =>
      (EmptyTable, -1)
  }

  // ---------------------------------------------------------------------------
  // cleanupEvents

  predicate Deletes(c: Cut, r: Record) {
    match c
    case UpToId(lastId) => r.id <= lastId
    case UpToTime(time) => r.createdAt <= time
  }

  /** The rows a `DELETE ... WHERE _id <= lastId` (or `created_at <= time`) leaves, in order. */
  function Surviving(rows: seq<Record>, c: Cut): (r: seq<Record>)
    ensures |r| <= |rows|
    ensures forall x :: x in r <==> x in rows && !Deletes(c, x)
    ensures IdsAscending(rows) ==> IdsAscending(r)
  {
    if rows == [] then []
    else if Deletes(c, rows[0]) then Surviving(rows[1..], c)
    else
      var rest := Surviving(rows[1..], c);
      assert IdsAscending(rows) ==> forall j :: 0 <= j < |rest| ==> rows[0].id < rest[j].id by {
        if IdsAscending(rows) {
          forall j | 0 <= j < |rest| ensures rows[0].id < rest[j].id {
            assert rest[j] in rows[1..];
            var k :| 0 <= k < |rows| - 1 && rows[1..][k] == rest[j];
            assert rows[k + 1] == rest[j];
          }
        }
      }
      [rows[0]] + rest
  }

  /**
   * `cleanupEvents(last_id)` and `cleanupEvents(time)`: delete the matching
   * rows; on a SQLite failure delete the whole database file.
   */
  function Cleanup(t: Table, c: Cut, outcome: DbOutcome): (r: Table)
    ensures outcome == SqlFailure ==> r == EmptyTable
    ensures outcome == Completed ==>
      && r.sequence == t.sequence
      && (forall x :: x in r.rows <==> x in t.rows && !Deletes(c, x))
    ensures WellFormed(t) ==> WellFormed(r)
  {
    match outcome
    case Completed => Table(Surviving(t.rows, c), t.sequence)
    case SqlFailure => EmptyTable
  }

  // ---------------------------------------------------------------------------
  // generateDataString: SELECT * FROM events ORDER BY created_at ASC LIMIT 50

  /**
   * The order in which the query returns rows: by `created_at`, and rows with
   * the same `created_at` by `_id` (the order of the `time_idx` index).
   */
  predicate ReadBefore(a: Record, b: Record) {
    a.createdAt < b.createdAt || (a.createdAt == b.createdAt && a.id <= b.id)
  }

  predicate TimeSorted(s: seq<Record>) {
    forall i, j :: 0 <= i < j < |s| ==> ReadBefore(s[i], s[j])
  }

  function InsertByTime(x: Record, s: seq<Record>): (r: seq<Record>)
    ensures multiset(r) == multiset(s) + multiset{x}
    ensures forall y :: y in r <==> y == x || y in s
  {
    if s == [] then [x]
    else if ReadBefore(x, s[0]) then [x] + s
    else
      assert s == [s[0]] + s[1..];
      [s[0]] + InsertByTime(x, s[1..])
  }

  lemma {:induction false} InsertByTimeSorted(x: Record, s: seq<Record>)
    requires TimeSorted(s)
    ensures TimeSorted(InsertByTime(x, s))
  {
    if s != [] && !ReadBefore(x, s[0]) {
      var rest := InsertByTime(x, s[1..]);
      InsertByTimeSorted(x, s[1..]);
      forall j | 0 <= j < |rest| ensures ReadBefore(s[0], rest[j]) {
        if rest[j] != x {
          assert rest[j] in s[1..];
          var k :| 0 <= k < |s| - 1 && s[1..][k] == rest[j];
          assert s[k + 1] == rest[j];
        }
      }
      var r := [s[0]] + rest;
      forall i, j | 0 <= i < j < |r| ensures ReadBefore(r[i], r[j]) {
        if i > 0 {
          assert r[i] == rest[i - 1] && r[j] == rest[j - 1];
        }
      }
    }
  }

  /** The rows in query order: a sorted permutation of the table. */
  function SortByTime(s: seq<Record>): (r: seq<Record>)
    ensures multiset(r) == multiset(s)
    ensures TimeSorted(r)
  {
    if s == [] then []
    else
      assert s == [s[0]] + s[1..];
      InsertByTimeSorted(s[0], SortByTime(s[1..]));
      InsertByTime(s[0], SortByTime(s[1..]))
  }

  /**
   * A prefix of rows in query order holds rows of the whole sequence, each
   * at most as often as the sequence does, and every row left after the
   * prefix is read after every row in it.
   */
  lemma {:induction false} SortedPrefixIsOldest(s: seq<Record>, k: nat)
    requires TimeSorted(s) && k <= |s|
    ensures multiset(s[..k]) <= multiset(s)
    ensures forall x, y :: x in s[..k] && y in multiset(s) - multiset(s[..k]) ==> ReadBefore(x, y)
  {
    assert s == s[..k] + s[k..];
    assert multiset(s) - multiset(s[..k]) == multiset(s[k..]);
    forall x, y | x in s[..k] && y in multiset(s[k..]) ensures ReadBefore(x, y) {
      var i :| 0 <= i < k && s[..k][i] == x;
      var j :| 0 <= j < |s| - k && s[k..][j] == y;
      assert s[i] == x && s[k + j] == y;
    }
  }

  /** The rows the cursor visits: the first 50 in query order. */
  function Cursor(rows: seq<Record>): (r: seq<Record>)
    ensures |r| == Min(MaxBatchRows, |rows|)
    ensures TimeSorted(r)
    ensures forall i :: 0 <= i < |r| ==> r[i] in rows
  {
    var sorted := SortByTime(rows);
    assert |sorted| == |multiset(sorted)| == |rows|;
    assert forall i :: 0 <= i < |sorted| ==> sorted[i] in multiset(rows);
    sorted[..Min(MaxBatchRows, |rows|)]
  }

  /**
   * The cursor reads the oldest rows: rows of the table, none more often
   * than the table holds it, and every row it does not reach comes after
   * all of them in query order.
   */
  lemma CursorReadsOldest(rows: seq<Record>)
    ensures multiset(Cursor(rows)) <= multiset(rows)
    ensures forall x, y :: x in Cursor(rows) && y in multiset(rows) - multiset(Cursor(rows)) ==> ReadBefore(x, y)
  {
    var sorted := SortByTime(rows);
    assert |sorted| == |multiset(sorted)| == |rows|;
    SortedPrefixIsOldest(sorted, Min(MaxBatchRows, |rows|));
  }

  /** The objects of the rows that parse, in the order read; rows that do not parse are skipped. */
  function Parsed(s: seq<Record>): (r: seq<PropMap>)
    ensures |r| <= |s|
    ensures r == [] <==> forall i :: 0 <= i < |s| ==> s[i].data.Unparsable?
  {
    if s == [] then []
    else
      var front := Parsed(s[..|s| - 1]);
      assert forall i :: 0 <= i < |s| - 1 ==> s[..|s| - 1][i] == s[i];
      match s[|s| - 1].data
      case JsonObject(p) => front + [p]
      case Unparsable(_) => front
  }

  /** Reading one more row appends its object when it parses. */
  lemma ParsedStep(s: seq<Record>, i: nat)
    requires i < |s|
    ensures Parsed(s[..i + 1]) == Parsed(s[..i]) + (match s[i].data case JsonObject(p) => [p] case Unparsable(_) => [])
  {
    assert s[..i + 1][..i] == s[..i];
  }

  /** The positions of the rows whose data parses, in increasing order. */
  function ParsableAt(s: seq<Record>): (r: seq<nat>)
    ensures forall k :: 0 <= k < |r| ==> r[k] < |s| && s[r[k]].data.JsonObject?
    ensures forall k, l :: 0 <= k < l < |r| ==> r[k] < r[l]
    ensures forall i :: 0 <= i < |s| && s[i].data.JsonObject? ==> i in r
  {
    if s == [] then []
    else
      var init := s[..|s| - 1];
      var front := ParsableAt(init);
      assert forall i :: 0 <= i < |s| - 1 ==> init[i] == s[i];
      if s[|s| - 1].data.JsonObject? then front + [|s| - 1] else front
  }

  /**
   * The parsed objects are the objects of the rows that parse, one per such
   * row, in the order the rows were read.
   */
  lemma {:induction false} ParsedInOrder(s: seq<Record>)
    ensures |Parsed(s)| == |ParsableAt(s)|
    ensures forall k :: 0 <= k < |Parsed(s)| ==> s[ParsableAt(s)[k]].data == JsonObject(Parsed(s)[k])
  {
    if s != [] {
      var init := s[..|s| - 1];
      ParsedInOrder(init);
      var front, at := Parsed(init), ParsableAt(init);
      forall k | 0 <= k < |front| ensures s[at[k]].data == JsonObject(front[k]) {
        assert s[at[k]] == init[at[k]];
      }
    }
  }

  /** An object is among the parsed ones exactly when some row read holds it. */
  lemma ParsedMembers(s: seq<Record>)
    ensures forall p :: p in Parsed(s) <==> exists i :: 0 <= i < |s| && s[i].data == JsonObject(p)
  {
    ParsedInOrder(s);
    var r, at := Parsed(s), ParsableAt(s);
    forall p ensures p in r <==> exists i :: 0 <= i < |s| && s[i].data == JsonObject(p) {
      if p in r {
        var k :| 0 <= k < |r| && r[k] == p;
        assert s[at[k]].data == JsonObject(p);
      }
      if i :| 0 <= i < |s| && s[i].data == JsonObject(p) {
        assert i in at;
        var k :| 0 <= k < |at| && at[k] == i;
        assert r[k] == p;
      }
    }
  }

  /**
   * `generateDataString`: the batch of at most 50 rows, oldest first, with
   * the id of the last row read as watermark, or nothing when the read fails,
   * there are no rows, or no row parses.
   */
  function ReadBatch(rows: seq<Record>, readOk: bool): Option<Batch> {
    var c := Cursor(rows);
    if !readOk || c == [] then None
    else
      var events := Parsed(c);
      if events == [] then None else Some(Batch(c[|c| - 1].id, events))
  }

  // ---------------------------------------------------------------------------
  // Properties of the batch read

  /**
   * The batch holds at most 50 objects and at least one, each the object of
   * a row among the oldest 50 in query order, and every such row that parses
   * contributes its object; its watermark is the id of the last row the
   * cursor read, a row of the table, which need not be one that parsed.
   * Nothing is returned exactly when the read fails or none of the first 50
   * rows parses.
   */
  lemma ReadBatchShape(rows: seq<Record>, readOk: bool)
    ensures var r := ReadBatch(rows, readOk);
      && (r.None? <==> !readOk || forall i :: 0 <= i < |Cursor(rows)| ==> Cursor(rows)[i].data.Unparsable?)
      && (r.Some? ==>
        && 1 <= |r.value.events| <= MaxBatchRows
        && (forall p :: p in r.value.events <==> exists x :: x in Cursor(rows) && x.data == JsonObject(p))
        && |Cursor(rows)| > 0
        && r.value.lastId == Cursor(rows)[|Cursor(rows)| - 1].id
        && exists x :: x in rows && x.id == r.value.lastId)
  {
    var c := Cursor(rows);
    if readOk && c != [] && Parsed(c) != [] {
      assert c[|c| - 1] in rows;
      ParsedMembers(c);
      forall p ensures p in Parsed(c) <==> exists x :: x in c && x.data == JsonObject(p) {
        if p in Parsed(c) {
          var i :| 0 <= i < |c| && c[i].data == JsonObject(p);
          assert c[i] in c;
        }
      }
    }
  }

  /** When the rows are already in query order, the query reads them in table order. */
  lemma {:induction false} SortedIsFixed(s: seq<Record>)
    requires TimeSorted(s)
    ensures SortByTime(s) == s
  {
    if s != [] {
      assert TimeSorted(s[1..]);
      SortedIsFixed(s[1..]);
    }
  }

  /** Every row of `rows[..k]` is deleted by the cut and every later row survives. */
  lemma {:induction false} SurvivingSuffix(rows: seq<Record>, c: Cut, k: nat)
    requires k <= |rows|
    requires forall i :: 0 <= i < k ==> Deletes(c, rows[i])
    requires forall i :: k <= i < |rows| ==> !Deletes(c, rows[i])
    ensures Surviving(rows, c) == rows[k..]
  {
    if k == 0 {
      SurvivingKeepsAll(rows, c);
    } else {
      var tail := rows[1..];
      assert Deletes(c, rows[0]);
      forall i | 0 <= i < k - 1 ensures Deletes(c, tail[i]) {
        assert tail[i] == rows[i + 1];
      }
      forall i | k - 1 <= i < |tail| ensures !Deletes(c, tail[i]) {
        assert tail[i] == rows[i + 1];
      }
      SurvivingSuffix(tail, c, k - 1);
      assert rows[k..] == tail[k - 1..];
    }
  }

  /** A cut that matches no row leaves the table as it is. */
  lemma {:induction false} SurvivingKeepsAll(rows: seq<Record>, c: Cut)
    requires forall i :: 0 <= i < |rows| ==> !Deletes(c, rows[i])
    ensures Surviving(rows, c) == rows
    decreases |rows|
  {
    if rows != [] {
      var tail := rows[1..];
      assert !Deletes(c, rows[0]);
      forall i | 0 <= i < |tail| ensures !Deletes(c, tail[i]) {
        assert tail[i] == rows[i + 1];
      }
      SurvivingKeepsAll(tail, c);
      assert rows == [rows[0]] + tail;
    }
  }

  /** `created_at` never decreases along the table: the clock did not run backwards between inserts. */
  predicate CreatedInOrder(rows: seq<Record>) {
    forall i, j :: 0 <= i < j < |rows| ==> rows[i].createdAt <= rows[j].createdAt
  }

  /**
   * With a clock that does not run backwards, the batch is the first
   * min(50, n) rows by id, and deleting up to its watermark removes exactly
   * those rows (the ones that did not parse included): every row the batch did
   * not read survives.
   */
  lemma BatchIsIdPrefix(t: Table)
    requires WellFormed(t) && CreatedInOrder(t.rows)
    ensures Cursor(t.rows) == t.rows[..Min(MaxBatchRows, |t.rows|)]
    ensures ReadBatch(t.rows, true).Some? ==>
      Surviving(t.rows, UpToId(ReadBatch(t.rows, true).value.lastId)) == t.rows[Min(MaxBatchRows, |t.rows|)..]
  {
    assert TimeSorted(t.rows);
    SortedIsFixed(t.rows);
    var k := Min(MaxBatchRows, |t.rows|);
    if ReadBatch(t.rows, true).Some? {
      var lastId := t.rows[k - 1].id;
      assert ReadBatch(t.rows, true).value.lastId == lastId;
      SurvivingSuffix(t.rows, UpToId(lastId), k);
    }
  }

  /**
   * With a clock that ran backwards between two inserts, the later row is
   * read first, the watermark is the earlier row's id, and the later row is
   * kept after a successful send: it will be sent again (at-least-once).
   */
  lemma SkewedClockResends(a: PropMap, b: PropMap)
    ensures var rows := [Record(1, JsonObject(a), 10), Record(2, JsonObject(b), 5)];
      && ReadBatch(rows, true) == Some(Batch(1, [b, a]))
      && Surviving(rows, UpToId(1)) == [Record(2, JsonObject(b), 5)]
  {
    var rows := [Record(1, JsonObject(a), 10), Record(2, JsonObject(b), 5)];
    assert SortByTime(rows[1..]) == [rows[1]];
    assert SortByTime(rows) == [rows[1], rows[0]];
    var c := Cursor(rows);
    assert c == [rows[1], rows[0]];
    assert c[..1] == [rows[1]] && c[..1][..0] == [];
    assert Parsed(c[..1]) == [b];
    assert Parsed(c) == [b, a];
    assert Surviving(rows[1..], UpToId(1)) == [rows[1]];
  }

  /**
   * After the database is deleted nothing can be read; one successful add
   * afterwards is read back alone, with id 1.
   */
  lemma DeleteThenAddReadsOne(p: PropMap, now: int)
    ensures ReadBatch(EmptyTable.rows, true) == None
    ensures ReadBatch(Insert(EmptyTable, JsonObject(p), now, Completed).0.rows, true) == Some(Batch(1, [p]))
  {
    var rows := Insert(EmptyTable, JsonObject(p), now, Completed).0.rows;
    assert rows == [Record(1, JsonObject(p), now)];
    assert SortByTime(rows) == rows;
    assert Cursor(rows) == rows;
    assert rows[..0] == [];
    assert Parsed(rows) == [p];
  }

  // ---------------------------------------------------------------------------
  // The adapter

  /** `LBDbAdapter`: the events table, changed in place by its operations. */
  class EventDb {
    var rows: seq<Record>
    var sequence: int

    function Snapshot(): Table
      reads this
    {
      Table(rows, sequence)
    }

    ghost predicate Valid()
      reads this
    {
      WellFormed(Snapshot())
    }

    /** Opens the database file with the rows it already holds. */
    constructor (stored: Table)
      requires WellFormed(stored)
      ensures Valid() && Snapshot() == stored
    {
      rows := stored.rows;
      sequence := stored.sequence;
    }

    /** Deletes the database file, rows and counter together. */
    method DeleteDatabase()
      modifies this
      ensures Valid() && Snapshot() == EmptyTable
    {
      rows := [];
      sequence := 0;
    }

    method AddJson(data: Payload, now: int, outcome: DbOutcome) returns (count: int)
      requires Valid()
      modifies this
      ensures Valid()
      ensures (Snapshot(), count) == Insert(old(Snapshot()), data, now, outcome)
    {
      count := -1;
      if outcome == SqlFailure {
        DeleteDatabase();
        return;
      }
      sequence := sequence + 1;
      rows := rows + [Record(sequence, data, now)];
      count := |rows|;
    }

    method CleanupEventsById(lastId: int, outcome: DbOutcome)
      requires Valid()
      modifies this
      ensures Valid()
      ensures Snapshot() == Cleanup(old(Snapshot()), UpToId(lastId), outcome)
    {
      if outcome == SqlFailure {
        DeleteDatabase();
      } else {
        rows := Surviving(rows, UpToId(lastId));
      }
    }

    method CleanupEventsByTime(time: int, outcome: DbOutcome)
      requires Valid()
      modifies this
      ensures Valid()
      ensures Snapshot() == Cleanup(old(Snapshot()), UpToTime(time), outcome)
    {
      if outcome == SqlFailure {
        DeleteDatabase();
      } else {
        rows := Surviving(rows, UpToTime(time));
      }
    }

    method DeleteDb()
      modifies this
      ensures Valid() && Snapshot() == EmptyTable
    {
      DeleteDatabase();
    }

    /**
     * The cursor loop of `generateDataString`: collects the objects that
     * parse and remembers the id of the last row. It never changes the table.
     */
    method GenerateDataString(readOk: bool) returns (r: Option<Batch>)
      requires Valid()
      ensures r == ReadBatch(rows, readOk)
    {
      if !readOk {
        return None;
      }
      var cursor := Cursor(rows);
      var arr: seq<PropMap> := [];
      var lastId: Option<int> := None;
      var i := 0;
      while i < |cursor|
        invariant 0 <= i <= |cursor|
        invariant arr == Parsed(cursor[..i])
        invariant lastId == if 0 < i == |cursor| then Some(cursor[i - 1].id) else None
      {
        if i == |cursor| - 1 {
          lastId := Some(cursor[i].id);
        }
        ParsedStep(cursor, i);
        match cursor[i].data {
          case JsonObject(p) => arr := arr + [p];
          case Unparsable(_) =>
        }
        i := i + 1;
      }
      assert cursor[..i] == cursor;
      if lastId.Some? && arr != [] {
        r := Some(Batch(lastId.value, arr));
      } else {
        r := None;
      }
    }
  }
}

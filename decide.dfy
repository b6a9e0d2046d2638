/**
 * `DecideUpdates`, a queue of in-app notifications not yet shown with the
 * set of every id ever queued, and `DecideChecker`, the list of such queues
 * that are still checked.
 */
module Decide {
  import opened Common

  /** An `InAppNotification`: its id and the rest of its content. */
  datatype Notification = Notification(id: int, content: string)

  function IdsOf(s: seq<Notification>): set<int> {
    set n | n in s :: n.id
  }

  /** No two notifications of `s` share an id. */
  predicate DistinctIds(s: seq<Notification>) {
    forall i, j :: 0 <= i < j < |s| ==> s[i].id != s[j].id
  }

  /** The queue's invariant: ids are distinct, and every queued id is among the ids seen. */
  predicate QueueInvariant(unseen: seq<Notification>, seen: set<int>) {
    DistinctIds(unseen) && IdsOf(unseen) <= seen
  }

  /**
   * The notifications `reportResults` queues: in list order, each one whose
   * id is neither among `seen` nor the id of an earlier notification of the
   * list.
   */
  function NewOnes(seen: set<int>, incoming: seq<Notification>): seq<Notification>
    decreases |incoming|
  {
    if incoming == [] then []
    else if incoming[0].id in seen then NewOnes(seen, incoming[1..])
    else [incoming[0]] + NewOnes(seen + {incoming[0].id}, incoming[1..])
  }

  /** What `reportResults` queues comes from the list and has an id not seen before. */
  lemma {:induction false} NewOnesFromList(seen: set<int>, incoming: seq<Notification>)
    ensures forall n :: n in NewOnes(seen, incoming) ==> n in incoming && n.id !in seen
    decreases |incoming|
  {
    if incoming != [] {
      var n := incoming[0];
      assert forall m :: m in incoming[1..] ==> m in incoming;
      if n.id in seen {
        NewOnesFromList(seen, incoming[1..]);
      } else {
        NewOnesFromList(seen + {n.id}, incoming[1..]);
      }
    }
  }

  /** Every new id of the list is queued, and no other. */
  lemma {:induction false} NewOnesIds(seen: set<int>, incoming: seq<Notification>)
    ensures IdsOf(NewOnes(seen, incoming)) == IdsOf(incoming) - seen
    decreases |incoming|
  {
    if incoming != [] {
      var n := incoming[0];
      assert incoming == [n] + incoming[1..];
      IdsOfAppend([n], incoming[1..]);
      assert IdsOf([n]) == {n.id};
      if n.id in seen {
        NewOnesIds(seen, incoming[1..]);
      } else {
        NewOnesIds(seen + {n.id}, incoming[1..]);
        IdsOfAppend([n], NewOnes(seen + {n.id}, incoming[1..]));
      }
    }
  }

  /** Queued ids are pairwise distinct, even when the list repeats one. */
  lemma {:induction false} NewOnesDistinct(seen: set<int>, incoming: seq<Notification>)
    ensures DistinctIds(NewOnes(seen, incoming))
    decreases |incoming|
  {
    if incoming != [] {
      var n := incoming[0];
      if n.id in seen {
        NewOnesDistinct(seen, incoming[1..]);
      } else {
        var rest := NewOnes(seen + {n.id}, incoming[1..]);
        NewOnesDistinct(seen + {n.id}, incoming[1..]);
        NewOnesFromList(seen + {n.id}, incoming[1..]);
        var r := [n] + rest;
        forall a, b | 0 <= a < b < |r| ensures r[a].id != r[b].id {
          if a == 0 {
            assert r[b] == rest[b - 1];
          } else {
            assert r[a] == rest[a - 1] && r[b] == rest[b - 1];
          }
        }
      }
    }
  }

  lemma IdsOfAppend(a: seq<Notification>, b: seq<Notification>)
    ensures IdsOf(a + b) == IdsOf(a) + IdsOf(b)
  {
    assert forall n :: n in a + b <==> n in a || n in b;
  }

  lemma IdsOfCons(a: seq<Notification>)
    requires a != []
    ensures IdsOf(a) == {a[0].id} + IdsOf(a[1..])
  {
    assert a == [a[0]] + a[1..];
    IdsOfAppend([a[0]], a[1..]);
    assert IdsOf([a[0]]) == {a[0].id};
  }

  /** Reporting a list in two parts queues what reporting it at once does. */
  lemma {:induction false} NewOnesAppend(seen: set<int>, a: seq<Notification>, b: seq<Notification>)
    ensures NewOnes(seen, a + b) == NewOnes(seen, a) + NewOnes(seen + IdsOf(a), b)
    decreases |a|
  {
    if a == [] {
      assert a + b == b;
      assert IdsOf(a) == {};
      assert seen + IdsOf(a) == seen;
    } else {
      var n := a[0];
      assert (a + b)[0] == n && (a + b)[1..] == a[1..] + b;
      IdsOfCons(a);
      if n.id in seen {
        NewOnesAppend(seen, a[1..], b);
        assert seen + IdsOf(a[1..]) == seen + IdsOf(a);
      } else {
        NewOnesAppend(seen + {n.id}, a[1..], b);
        assert seen + {n.id} + IdsOf(a[1..]) == seen + IdsOf(a);
      }
    }
  }

  /** One more notification reported: queued exactly when its id is new. */
  lemma ReportStep(seen: set<int>, xs: seq<Notification>, i: nat)
    requires i < |xs|
    ensures NewOnes(seen, xs[..i + 1])
      == NewOnes(seen, xs[..i]) + (if xs[i].id in seen + IdsOf(xs[..i]) then [] else [xs[i]])
    ensures IdsOf(xs[..i + 1]) == IdsOf(xs[..i]) + {xs[i].id}
  {
    assert xs[..i + 1] == xs[..i] + [xs[i]];
    NewOnesAppend(seen, xs[..i], [xs[i]]);
    IdsOfAppend(xs[..i], [xs[i]]);
    assert IdsOf([xs[i]]) == {xs[i].id};
    assert [xs[i]][1..] == [];
  }

  /** The loop of `reportResults` keeps its queue and id set in step with the prefix reported. */
  lemma ReportLoopStep(unseen: seq<Notification>, seen: set<int>, xs: seq<Notification>, i: nat,
                       queue: seq<Notification>, ids: set<int>)
    requires i < |xs|
    requires queue == unseen + NewOnes(seen, xs[..i]) && ids == seen + IdsOf(xs[..i])
    ensures ids + {xs[i].id} == seen + IdsOf(xs[..i + 1])
    ensures xs[i].id !in ids ==> queue + [xs[i]] == unseen + NewOnes(seen, xs[..i + 1])
    ensures xs[i].id in ids ==> ids == seen + IdsOf(xs[..i + 1]) && queue == unseen + NewOnes(seen, xs[..i + 1])
  {
    ReportStep(seen, xs, i);
  }

  /** Notifications whose ids are all new and pairwise distinct are queued exactly as given. */
  lemma {:induction false} AllNewAreQueued(seen: set<int>, incoming: seq<Notification>)
    requires DistinctIds(incoming) && IdsOf(incoming) !! seen
    ensures NewOnes(seen, incoming) == incoming
    decreases |incoming|
  {
    if incoming != [] {
      var n, rest := incoming[0], incoming[1..];
      assert incoming == [n] + rest;
      IdsOfAppend([n], rest);
      assert IdsOf([n]) == {n.id};
      forall m | m in rest ensures m.id != n.id {
        var k :| 0 <= k < |rest| && rest[k] == m;
        assert incoming[k + 1] == m;
      }
      assert n.id !in IdsOf(rest);
      forall i, j | 0 <= i < j < |rest| ensures rest[i].id != rest[j].id {
        assert rest[i] == incoming[i + 1] && rest[j] == incoming[j + 1];
      }
      AllNewAreQueued(seen + {n.id}, rest);
    }
  }

  /** Reporting keeps the invariant: the queue grows by the new ones and the seen set by every reported id. */
  lemma ReportKeepsInvariant(unseen: seq<Notification>, seen: set<int>, incoming: seq<Notification>)
    requires QueueInvariant(unseen, seen)
    ensures QueueInvariant(unseen + NewOnes(seen, incoming), seen + IdsOf(incoming))
  {
    var added := NewOnes(seen, incoming);
    NewOnesDistinct(seen, incoming);
    NewOnesFromList(seen, incoming);
    var s := unseen + added;
    forall i, j | 0 <= i < j < |s| ensures s[i].id != s[j].id {
      if j >= |unseen| && i < |unseen| {
        assert s[i] in unseen && s[j] in added;
      } else if i >= |unseen| {
        assert s[i] == added[i - |unseen|] && s[j] == added[j - |unseen|];
      }
    }
    assert IdsOf(s) == IdsOf(unseen) + IdsOf(added) by {
      assert forall n :: n in s <==> n in unseen || n in added;
    }
  }

  /** `getNotification(replace)`: the head, removed or moved to the tail; nothing from an empty queue. */
  function TakeHead(unseen: seq<Notification>, replace: bool): (r: (seq<Notification>, Option<Notification>))
    ensures unseen == [] ==> r == ([], None)
    ensures unseen != [] ==> r.1 == Some(unseen[0])
    ensures unseen != [] && !replace ==> r.0 == unseen[1..]
    ensures unseen != [] && replace ==> r.0 == unseen[1..] + [unseen[0]] && multiset(r.0) == multiset(unseen)
  {
    if unseen == [] then ([], None)
    else
      assert unseen == [unseen[0]] + unseen[1..];
      (if replace then unseen[1..] + [unseen[0]] else unseen[1..], Some(unseen[0]))
  }

  /** The index of the first notification with id `id`. */
  function FirstIndex(s: seq<Notification>, id: int): (r: Option<nat>)
    ensures r.Some? ==> r.value < |s| && s[r.value].id == id && forall j :: 0 <= j < r.value ==> s[j].id != id
    ensures r.None? ==> forall j :: 0 <= j < |s| ==> s[j].id != id
    decreases |s|
  {
    if s == [] then None
    else if s[0].id == id then Some(0)
    else
      match FirstIndex(s[1..], id)
      case None => None
      case Some(k) => Some(k + 1)
  }

  /**
   * `getNotification(id, replace)`: the first notification with that id, if
   * any, removed unless `replace`; the others keep their order.
   */
  function TakeById(unseen: seq<Notification>, id: int, replace: bool): (r: (seq<Notification>, Option<Notification>))
    ensures r.1.Some? <==> id in IdsOf(unseen)
    ensures r.1.Some? ==> r.1.value in unseen && r.1.value.id == id
    ensures r.1.None? || replace ==> r.0 == unseen
  {
    match FirstIndex(unseen, id)
    case None => (unseen, None)
    case Some(i) =>
      (if replace then unseen else unseen[..i] + unseen[i + 1..], Some(unseen[i]))
  }

  /** Taking a notification by id removes exactly that one entry and keeps the invariant. */
  lemma TakeByIdKeepsInvariant(unseen: seq<Notification>, seen: set<int>, id: int, replace: bool)
    requires QueueInvariant(unseen, seen)
    ensures QueueInvariant(TakeById(unseen, id, replace).0, seen)
    ensures TakeById(unseen, id, replace).1.Some? && !replace ==>
      TakeById(unseen, id, replace).0 == RemoveId(unseen, id) && id !in IdsOf(TakeById(unseen, id, replace).0)
  {
    var k := FirstIndex(unseen, id);
    if k.Some? && !replace {
      DeletionKeepsInvariant(unseen, seen, k.value);
      RemoveIdIsDeletion(unseen, id, k.value);
    }
  }

  /** Deleting one entry keeps the invariant, and no remaining entry has the deleted id. */
  lemma DeletionKeepsInvariant(unseen: seq<Notification>, seen: set<int>, i: nat)
    requires QueueInvariant(unseen, seen) && i < |unseen|
    ensures QueueInvariant(unseen[..i] + unseen[i + 1..], seen)
    ensures unseen[i].id !in IdsOf(unseen[..i] + unseen[i + 1..])
  {
    var r := unseen[..i] + unseen[i + 1..];
    forall m | 0 <= m < |r| ensures r[m] == unseen[if m < i then m else m + 1] && (if m < i then m else m + 1) != i {
    }
    forall a, b | 0 <= a < b < |r| ensures r[a].id != r[b].id {
      assert r[a] == unseen[if a < i then a else a + 1];
    }
    forall n | n in r ensures n in unseen && n.id != unseen[i].id {
      var m :| 0 <= m < |r| && r[m] == n;
    }
  }

  /** The queue with every notification of id `id` left out. */
  function RemoveId(s: seq<Notification>, id: int): seq<Notification> {
    if s == [] then []
    else if s[0].id == id then RemoveId(s[1..], id)
    else [s[0]] + RemoveId(s[1..], id)
  }

  lemma {:induction false} RemoveIdIsDeletion(s: seq<Notification>, id: int, i: nat)
    requires DistinctIds(s) && i < |s| && s[i].id == id
    ensures RemoveId(s, id) == s[..i] + s[i + 1..]
    decreases |s|
  {
    if i == 0 {
      assert forall j :: 0 <= j < |s| - 1 ==> s[1..][j].id != id by {
        forall j | 0 <= j < |s| - 1 ensures s[1..][j].id != id {
          assert s[1..][j] == s[j + 1];
        }
      }
      RemoveIdAbsent(s[1..], id);
      assert s[..0] + s[1..] == s[1..];
    } else {
      assert s[0].id != id;
      assert DistinctIds(s[1..]) by {
        forall a, b | 0 <= a < b < |s| - 1 ensures s[1..][a].id != s[1..][b].id {
          assert s[1..][a] == s[a + 1] && s[1..][b] == s[b + 1];
        }
      }
      RemoveIdIsDeletion(s[1..], id, i - 1);
      assert s[1..][..i - 1] == s[1..i];
      assert s[1..][i..] == s[i + 1..];
      assert s[..i] == [s[0]] + s[1..i];
    }
  }

  lemma {:induction false} RemoveIdAbsent(s: seq<Notification>, id: int)
    requires forall j :: 0 <= j < |s| ==> s[j].id != id
    ensures RemoveId(s, id) == s
    decreases |s|
  {
    if s != [] {
      assert forall j :: 0 <= j < |s| - 1 ==> s[1..][j].id != id by {
        forall j | 0 <= j < |s| - 1 ensures s[1..][j].id != id {
          assert s[1..][j] == s[j + 1];
        }
      }
      RemoveIdAbsent(s[1..], id);
      assert s == [s[0]] + s[1..];
    }
  }

  /** Taking the head keeps the invariant; a replaced head stays queued, a taken one leaves the queue for good. */
  lemma TakeHeadKeepsInvariant(unseen: seq<Notification>, seen: set<int>, replace: bool)
    requires QueueInvariant(unseen, seen)
    ensures QueueInvariant(TakeHead(unseen, replace).0, seen)
    ensures unseen != [] && !replace ==> unseen[0].id !in IdsOf(TakeHead(unseen, replace).0)
  {
    if unseen != [] {
      var r := TakeHead(unseen, replace).0;
      var tail := unseen[1..];
      assert forall n :: n in tail ==> n in unseen;
      forall a, b | 0 <= a < b < |r| ensures r[a].id != r[b].id {
        var a' := if a < |tail| then a + 1 else 0;
        var b' := if b < |tail| then b + 1 else 0;
        assert r[a] == unseen[a'] && r[b] == unseen[b'];
      }
      if !replace {
        forall n | n in tail ensures n.id != unseen[0].id {
          var m :| 0 <= m < |tail| && tail[m] == n;
          assert tail[m] == unseen[m + 1];
        }
      }
    }
  }

  // ---------------------------------------------------------------------------
  // The objects

  class DecideUpdates {
    const token: string
    const distinctId: string
    /** Whether a listener was given. */
    const hasListener: bool
    var unseen: seq<Notification>
    var notificationIds: set<int>
    var destroyed: bool
    /** The distinct ids passed to the listener's `onNewResults`, in call order. */
    var notified: seq<string>

    ghost predicate Valid()
      reads this
    {
      QueueInvariant(unseen, notificationIds)
    }

    constructor (token: string, distinctId: string, hasListener: bool)
      ensures Valid() && this.token == token && this.distinctId == distinctId && this.hasListener == hasListener
      ensures unseen == [] && notificationIds == {} && !destroyed && notified == []
    {
      this.token := token;
      this.distinctId := distinctId;
      this.hasListener := hasListener;
      unseen := [];
      notificationIds := {};
      destroyed := false;
      notified := [];
    }

    /** `destroy`: sets the flag and nothing else. */
    method Destroy()
      modifies this
      ensures destroyed
      ensures unseen == old(unseen) && notificationIds == old(notificationIds) && notified == old(notified)
    {
      destroyed := true;
    }

    method IsDestroyed() returns (r: bool)
      ensures r == destroyed
    {
      r := destroyed;
    }

    /**
     * `reportResults`: queues the new notifications in list order, records
     * every id, and calls the listener once when something was queued.
     */
    method ReportResults(newNotifications: seq<Notification>)
      requires Valid()
      modifies this
      ensures Valid()
      ensures unseen == old(unseen) + NewOnes(old(notificationIds), newNotifications)
      ensures notificationIds == old(notificationIds) + IdsOf(newNotifications)
      ensures notified == old(notified)
        + (if hasListener && NewOnes(old(notificationIds), newNotifications) != [] then [distinctId] else [])
      ensures destroyed == old(destroyed)
    {
      ReportKeepsInvariant(unseen, notificationIds, newNotifications);
      var queue, ids := unseen, notificationIds;
      var newContent := false;
      var i := 0;
      while i < |newNotifications|
        invariant 0 <= i <= |newNotifications|
        invariant queue == unseen + NewOnes(notificationIds, newNotifications[..i])
        invariant ids == notificationIds + IdsOf(newNotifications[..i])
        invariant newContent <==> |queue| > |unseen|
        modifies {}
      {
        var n := newNotifications[i];
        ReportLoopStep(unseen, notificationIds, newNotifications, i, queue, ids);
        if n.id !in ids {
          ids := ids + {n.id};
          queue := queue + [n];
          newContent := true;
        }
        i := i + 1;
      }
      assert newNotifications[..i] == newNotifications;
      unseen, notificationIds := queue, ids;
      if newContent && unseen != [] && hasListener {
        notified := notified + [distinctId];
      }
    }

    /** `getNotification(replace)`. */
    method GetNotification(replace: bool) returns (r: Option<Notification>)
      requires Valid()
      modifies this
      ensures Valid()
      ensures (unseen, r) == TakeHead(old(unseen), replace)
      ensures notificationIds == old(notificationIds) && destroyed == old(destroyed) && notified == old(notified)
    {
      TakeHeadKeepsInvariant(unseen, notificationIds, replace);
      if unseen == [] {
        return None;
      }
      var n := unseen[0];
      unseen := unseen[1..];
      if replace {
        unseen := unseen + [n];
      }
      r := Some(n);
    }

    /** `getNotification(id, replace)`: an index loop that stops at the first match. */
    method GetNotificationById(id: int, replace: bool) returns (r: Option<Notification>)
      requires Valid()
      modifies this
      ensures Valid()
      ensures (unseen, r) == TakeById(old(unseen), id, replace)
      ensures notificationIds == old(notificationIds) && destroyed == old(destroyed) && notified == old(notified)
    {
      TakeByIdKeepsInvariant(unseen, notificationIds, id, replace);
      var i := IndexOfId(unseen, id);
      if i.None? {
        return None;
      }
      r := Some(unseen[i.value]);
      if !replace {
        unseen := unseen[..i.value] + unseen[i.value + 1..];
      }
    }

    method HasUpdatesAvailable() returns (r: bool)
      ensures r <==> unseen != []
    {
      r := |unseen| != 0;
    }
  }

  /** The search loop of `getNotification(id, replace)`: the first index holding `id`. */
  method IndexOfId(s: seq<Notification>, id: int) returns (r: Option<nat>)
    ensures r.Some? ==> r.value < |s| && s[r.value].id == id && forall j :: 0 <= j < r.value ==> s[j].id != id
    ensures r.None? ==> forall j :: 0 <= j < |s| ==> s[j].id != id
    ensures r == FirstIndex(s, id)
  {
    var i := 0;
    while i < |s|
      invariant 0 <= i <= |s|
      invariant forall j :: 0 <= j < i ==> s[j].id != id
    {
      if s[i].id == id {
        FirstIndexUnique(s, id, i);
        return Some(i);
      }
      i := i + 1;
    }
    FirstIndexUnique(s, id, |s|);
    return None;
  }

  /** `FirstIndex` is determined by its contract. */
  lemma FirstIndexUnique(s: seq<Notification>, id: int, i: nat)
    requires i <= |s| && forall j :: 0 <= j < i ==> s[j].id != id
    requires i < |s| ==> s[i].id == id
    ensures FirstIndex(s, id) == if i < |s| then Some(i) else None
  {
    var f := FirstIndex(s, id);
    if f.Some? && i < |s| {
      assert !(f.value < i) && !(i < f.value);
    }
  }

  /** The checks that are not destroyed, in their order. */
  function Live(checks: seq<DecideUpdates>): seq<DecideUpdates>
    reads checks
    decreases |checks|
  {
    if checks == [] then []
    else if checks[0].destroyed then Live(checks[1..])
    else [checks[0]] + Live(checks[1..])
  }

  /** The live checks are exactly the checks of the list that are not destroyed. */
  lemma {:induction false} LiveMembers(checks: seq<DecideUpdates>)
    ensures forall i :: 0 <= i < |Live(checks)| ==> Live(checks)[i] in checks && !Live(checks)[i].destroyed
    ensures forall i :: 0 <= i < |checks| && !checks[i].destroyed ==> checks[i] in Live(checks)
    decreases |checks|
  {
    if checks != [] {
      LiveMembers(checks[1..]);
      assert checks == [checks[0]] + checks[1..];
      forall i | 0 <= i < |checks| && !checks[i].destroyed ensures checks[i] in Live(checks) {
        if i > 0 {
          assert checks[i] == checks[1..][i - 1];
        }
      }
    }
  }

  /** Live checks form a subsequence: the surviving checks keep their relative order. */
  lemma {:induction false} LiveKeepsOrder(checks: seq<DecideUpdates>, i: nat, j: nat)
    requires i < j < |checks| && !checks[i].destroyed && !checks[j].destroyed
    ensures exists a, b :: 0 <= a < b < |Live(checks)| && Live(checks)[a] == checks[i] && Live(checks)[b] == checks[j]
    decreases |checks|
  {
    var live := Live(checks);
    if i == 0 {
      assert checks[j] in checks[1..] by { assert checks[1..][j - 1] == checks[j]; }
      var rest := Live(checks[1..]);
      LiveMembers(checks[1..]);
      assert checks[1..][j - 1] == checks[j];
      assert checks[j] in rest;
      var b :| 0 <= b < |rest| && rest[b] == checks[j];
      assert live[0] == checks[0] && live[b + 1] == checks[j];
    } else {
      assert checks[1..][i - 1] == checks[i] && checks[1..][j - 1] == checks[j];
      LiveKeepsOrder(checks[1..], i - 1, j - 1);
      var rest := Live(checks[1..]);
      var a, b :| 0 <= a < b < |rest| && rest[a] == checks[i] && rest[b] == checks[j];
      if checks[0].destroyed {
        assert live == rest;
      } else {
        assert live[a + 1] == checks[i] && live[b + 1] == checks[j];
      }
    }
  }

  class DecideChecker {
    var checks: seq<DecideUpdates>
    /** The checks asked to report, in call order (the report itself is not part of this model). */
    var reported: seq<DecideUpdates>

    constructor ()
      ensures checks == [] && reported == []
    {
      checks := [];
      reported := [];
    }

    /** `addDecideCheck`: appends the check. */
    method AddDecideCheck(check: DecideUpdates)
      modifies this
      ensures checks == old(checks) + [check] && reported == old(reported)
    {
      checks := checks + [check];
    }

    /**
     * `runDecideChecks`: removes every destroyed check in place and asks
     * each remaining one, in list order, to report.
     */
    method RunDecideChecks()
      modifies this
      ensures checks == Live(old(checks))
      ensures reported == old(reported) + Live(old(checks))
    {
      ghost var original := checks;
      var remaining, asked := checks, reported;
      var i := 0;
      ghost var k := 0;
      while i < |remaining|
        invariant 0 <= k <= |original| && 0 <= i <= |remaining|
        invariant remaining == Live(original[..k]) + original[k..]
        invariant i == |Live(original[..k])|
        invariant asked == reported + Live(original[..k])
        modifies {}
        decreases |remaining| - i
      {
        RemovalStep(original, k, remaining, i);
        if remaining[i].destroyed {
          remaining := remaining[..i] + remaining[i + 1..];
        } else {
          asked := asked + [remaining[i]];
          i := i + 1;
        }
        k := k + 1;
      }
      assert original[..k] == original;
      checks, reported := remaining, asked;
    }
  }

  /**
   * One turn of the removal loop: the entry at the cursor is the next
   * original check, and dropping or keeping it extends the kept prefix.
   */
  lemma RemovalStep(original: seq<DecideUpdates>, k: nat, checks: seq<DecideUpdates>, i: nat)
    requires k < |original|
    requires checks == Live(original[..k]) + original[k..]
    requires i == |Live(original[..k])|
    ensures i < |checks| && checks[i] == original[k]
    ensures original[k].destroyed ==>
      Live(original[..k + 1]) == Live(original[..k])
      && checks[..i] + checks[i + 1..] == Live(original[..k + 1]) + original[k + 1..]
    ensures !original[k].destroyed ==>
      Live(original[..k + 1]) == Live(original[..k]) + [original[k]]
      && checks == Live(original[..k + 1]) + original[k + 1..]
  {
    LiveSnoc(original, k);
    ghost var done := Live(original[..k]);
    assert original[k..] == [original[k]] + original[k + 1..];
    assert checks[..i] == done && checks[i + 1..] == original[k + 1..];
  }

  lemma LiveSnoc(s: seq<DecideUpdates>, k: nat)
    requires k < |s|
    ensures Live(s[..k + 1]) == Live(s[..k]) + (if s[k].destroyed then [] else [s[k]])
  {
    LiveAppend(s[..k], [s[k]]);
    assert s[..k + 1] == s[..k] + [s[k]];
    assert [s[k]][1..] == [];
  }

  lemma {:induction false} LiveAppend(a: seq<DecideUpdates>, b: seq<DecideUpdates>)
    ensures Live(a + b) == Live(a) + Live(b)
    decreases |a|
  {
    if a != [] {
      assert (a + b)[1..] == a[1..] + b;
      LiveAppend(a[1..], b);
    } else {
      assert a + b == b;
    }
  }
}

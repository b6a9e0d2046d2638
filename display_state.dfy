/**
 * `UpdateDisplayState`: the process-wide lock on showing one in-app update
 * at a time (propose, claim, release, and a twelve-hour staleness rule), and
 * `AnswerMap`, whose integer keys travel through a parcel as decimal strings.
 */
module UpdateDisplay {
  import opened Common

  const MaxInt32 := 0x7fff_ffff
  const MinInt32 := -0x8000_0000

  /** A Java `int`. */
  type Int32 = x: int | MinInt32 <= x <= MaxInt32

  /** `MAX_LOCK_TIME_MILLIS`: twelve hours. */
  const MaxLockTimeMillis := 12 * 60 * 60 * 1000

  /** A `DisplayState`, known here only by its type. */
  datatype DisplayState = DisplayState(stateType: string)

  /** An `UpdateDisplayState` object: what is to be shown, for whom and under which token. */
  datatype Proposal = Proposal(displayState: DisplayState, distinctId: string, token: string)

  /**
   * The four statics: `sUpdateDisplayLockMillis`, `sUpdateDisplayState`,
   * `sNextIntentId` and `sShowingIntentId`.
   */
  datatype LockState = LockState(lockMillis: int, current: Option<Proposal>, nextIntentId: Int32, showingIntentId: Int32)

  /** The statics' initial values. */
  const Initial := LockState(-1, None, 0, -1)

  /** `sNextIntentId++` on a Java `int`, wrapping at the top. */
  function Inc32(x: Int32): (r: Int32)
    ensures x < MaxInt32 ==> r == x + 1
    ensures x == MaxInt32 ==> r == MinInt32
  {
    if x == MaxInt32 then MinInt32 else x + 1
  }

  /** Whether the proposal is stale at `now`: some id was issued and the lock is older than twelve hours. */
  predicate Stale(s: LockState, now: int) {
    s.nextIntentId > 0 && now - s.lockMillis > MaxLockTimeMillis
  }

  /** The effect of `hasCurrentProposal` on the statics: a stale proposal is dropped. */
  function Expire(s: LockState, now: int): LockState {
    if Stale(s, now) then s.(current := None) else s
  }

  /** The answer of `hasCurrentProposal`. */
  predicate HasProposal(s: LockState, now: int) {
    Expire(s, now).current.Some?
  }

  /** A proposal is current exactly when one is set and it is not stale; nothing but the proposal is touched. */
  lemma ExpiryRule(s: LockState, now: int)
    ensures HasProposal(s, now) <==> s.current.Some? && !(s.nextIntentId > 0 && now - s.lockMillis > MaxLockTimeMillis)
    ensures Expire(s, now).(current := s.current) == s
    ensures s.nextIntentId <= 0 ==> Expire(s, now) == s
  {
  }

  /** `proposeDisplay`: the new statics and the id returned. */
  function Propose(s: LockState, p: Proposal, now: int): (LockState, int) {
    var e := Expire(s, now);
    if e.current.Some? then (e, -1)
    else
      var id := Inc32(e.nextIntentId);
      (e.(lockMillis := now, current := Some(p), nextIntentId := id), id)
  }

  /**
   * A proposal succeeds exactly when none is current; it then takes the next
   * id, which is positive while the counter has not reached the top of the
   * `int` range, and stamps the lock. Otherwise it returns -1 and leaves
   * the statics as they were.
   */
  lemma ProposeOutcome(s: LockState, p: Proposal, now: int)
    ensures var (t, id) := Propose(s, p, now);
      && (HasProposal(s, now) ==> id == -1 && t == s)
      && (!HasProposal(s, now) ==>
            t == LockState(now, Some(p), Inc32(s.nextIntentId), s.showingIntentId) && id == t.nextIntentId)
      && (0 <= s.nextIntentId < MaxInt32 ==> (id == -1 <==> HasProposal(s, now)))
      && (0 <= s.nextIntentId < MaxInt32 && id != -1 ==> id == s.nextIntentId + 1 && id > 0)
  {
  }

  /** `claimDisplayState`: the new statics and the proposal handed to the claimant, if any. */
  function Claim(s: LockState, intentId: Int32, now: int): (LockState, Option<Proposal>) {
    if s.showingIntentId > 0 && s.showingIntentId != intentId then (s, None)
    else if s.current.None? then (s, None)
    else (s.(lockMillis := now, showingIntentId := intentId), s.current)
  }

  /**
   * A claim fails, changing nothing, when another positive intent id is
   * showing or nothing is proposed; otherwise the claimant becomes the
   * showing intent, the lock is stamped and the proposal is returned.
   */
  lemma ClaimOutcome(s: LockState, intentId: Int32, now: int)
    ensures var (t, r) := Claim(s, intentId, now);
      && (r.None? <==> (s.showingIntentId > 0 && s.showingIntentId != intentId) || s.current.None?)
      && (r.None? ==> t == s)
      && (r.Some? ==> r == s.current && t == s.(lockMillis := now, showingIntentId := intentId))
  {
  }

  /** The intent that holds the claim can claim again, and receives the same proposal. */
  lemma ReclaimSucceeds(s: LockState, intentId: Int32, now: int, later: int)
    requires Claim(s, intentId, now).1.Some?
    ensures Claim(Claim(s, intentId, now).0, intentId, later).1 == Claim(s, intentId, now).1
  {
    ClaimOutcome(s, intentId, now);
    ClaimOutcome(Claim(s, intentId, now).0, intentId, later);
  }

  /** While an intent is showing, no other intent can claim. */
  lemma ClaimIsExclusive(s: LockState, intentId: Int32, other: Int32, now: int, later: int)
    requires intentId > 0 && other != intentId && Claim(s, intentId, now).1.Some?
    ensures Claim(Claim(s, intentId, now).0, other, later).1.None?
  {
    ClaimOutcome(s, intentId, now);
  }

  /** `releaseDisplayState`: clears the proposal and the showing id, for the showing id only. */
  function Release(s: LockState, intentId: Int32): LockState {
    if intentId == s.showingIntentId then s.(showingIntentId := -1, current := None) else s
  }

  /**
   * A release by the showing intent clears the proposal and the showing id
   * and keeps the rest; any other id changes nothing. (With nothing showing,
   * the showing id is -1, so a release by -1 drops a pending proposal.)
   */
  lemma ReleaseOutcome(s: LockState, intentId: Int32)
    ensures intentId == s.showingIntentId ==>
      Release(s, intentId) == LockState(s.lockMillis, None, s.nextIntentId, -1)
    ensures intentId != s.showingIntentId ==> Release(s, intentId) == s
  {
  }

  /** After the showing intent releases, a new proposal can be made. */
  lemma ReleaseFreesTheLock(s: LockState, intentId: Int32, p: Proposal, now: int)
    requires intentId == s.showingIntentId && 0 <= s.nextIntentId < MaxInt32
    ensures Propose(Release(s, intentId), p, now).1 > 0
  {
    ProposeOutcome(Release(s, intentId), p, now);
  }

  /** One call on the statics, at the time given. */
  datatype Call = Query | ProposeCall(p: Proposal) | ClaimCall(claimId: Int32) | ReleaseCall(releaseId: Int32)

  /** One call: the new statics and the id of a proposal that succeeded, if any. */
  function Apply(s: LockState, call: Call, now: int): (LockState, seq<int>) {
    match call
    case Query => (Expire(s, now), [])
    case ProposeCall(p) =>
      var (t, id) := Propose(s, p, now);
      (t, if id == -1 then [] else [id])
    case ClaimCall(id) => (Claim(s, id, now).0, [])
    case ReleaseCall(id) => (Release(s, id), [])
  }

  /** The statics after `calls`, with the ids of the proposals that succeeded, in order. */
  function Run(s: LockState, calls: seq<(Call, int)>): (LockState, seq<int>)
    decreases |calls|
  {
    if calls == [] then (s, [])
    else
      var (t, ids) := Apply(s, calls[0].0, calls[0].1);
      var (u, more) := Run(t, calls[1..]);
      (u, ids + more)
  }

  /**
   * Successful proposals return positive, strictly increasing ids, above
   * every id issued before, as long as the counter cannot reach the top of
   * the `int` range.
   */
  lemma {:induction false} IdsIncrease(s: LockState, calls: seq<(Call, int)>)
    requires 0 <= s.nextIntentId && s.nextIntentId + |calls| <= MaxInt32
    ensures var (t, ids) := Run(s, calls);
      && (forall i :: 0 <= i < |ids| ==> s.nextIntentId < ids[i] <= t.nextIntentId)
      && (forall i, j :: 0 <= i < j < |ids| ==> ids[i] < ids[j])
      && s.nextIntentId <= t.nextIntentId <= s.nextIntentId + |calls|
    decreases |calls|
  {
    if calls != [] {
      var (t, first) := Apply(s, calls[0].0, calls[0].1);
      assert t.nextIntentId == s.nextIntentId || t.nextIntentId == s.nextIntentId + 1;
      assert forall i :: 0 <= i < |first| ==> first[i] == t.nextIntentId == s.nextIntentId + 1;
      assert |first| <= 1;
      IdsIncrease(t, calls[1..]);
      var (u, more) := Run(t, calls[1..]);
      assert Run(s, calls) == (u, first + more);
      var ids := first + more;
      forall i, j | 0 <= i < j < |ids| ensures ids[i] < ids[j] {
        if i < |first| {
          assert ids[i] == t.nextIntentId && ids[j] == more[j - |first|];
        } else {
          assert ids[i] == more[i - |first|] && ids[j] == more[j - |first|];
        }
      }
    }
  }

  /** The statics, updated in place under the lock. */
  class DisplayLock {
    var lockMillis: int
    var current: Option<Proposal>
    var nextIntentId: Int32
    var showingIntentId: Int32

    function State(): LockState
      reads this
    {
      LockState(lockMillis, current, nextIntentId, showingIntentId)
    }

    constructor ()
      ensures State() == Initial
    {
      lockMillis := -1;
      current := None;
      nextIntentId := 0;
      showingIntentId := -1;
    }

    method HasCurrentProposal(now: int) returns (r: bool)
      modifies this
      ensures State() == Expire(old(State()), now)
      ensures r == HasProposal(old(State()), now)
    {
      var deltaTime := now - lockMillis;
      if nextIntentId > 0 && deltaTime > MaxLockTimeMillis {
        current := None;
      }
      r := current.Some?;
    }

    method ProposeDisplay(state: DisplayState, distinctId: string, token: string, now: int) returns (ret: int)
      modifies this
      ensures (State(), ret) == Propose(old(State()), Proposal(state, distinctId, token), now)
    {
      ret := -1;
      var busy := HasCurrentProposal(now);
      if !busy {
        lockMillis := now;
        current := Some(Proposal(state, distinctId, token));
        nextIntentId := Inc32(nextIntentId);
        ret := nextIntentId;
      }
    }

    method ReleaseDisplayState(intentId: Int32)
      modifies this
      ensures State() == Release(old(State()), intentId)
    {
      if intentId == showingIntentId {
        showingIntentId := -1;
        current := None;
      }
    }

    method ClaimDisplayState(intentId: Int32, now: int) returns (r: Option<Proposal>)
      modifies this
      ensures (State(), r) == Claim(old(State()), intentId, now)
    {
      if showingIntentId > 0 && showingIntentId != intentId {
        return None;
      } else if current.None? {
        return None;
      } else {
        lockMillis := now;
        showingIntentId := intentId;
        return current;
      }
    }
  }

  // ---------------------------------------------------------------------------
  // AnswerMap

  /** A `Bundle` of strings: each key maps to a string or to null. */
  type StringBundle = map<string, Option<string>>

  function DigitChar(d: nat): char
    requires d < 10
  {
    "0123456789"[d]
  }

  predicate IsDigit(c: char) {
    '0' as int <= c as int <= '9' as int
  }

  predicate AllDigits(s: string) {
    forall i :: 0 <= i < |s| ==> IsDigit(s[i])
  }

  /** The decimal digits of `n`, most significant first, with no leading zero. */
  function Digits(n: nat): (r: string)
    ensures |r| > 0 && AllDigits(r)
    ensures |r| > 1 ==> r[0] != '0'
  {
    if n < 10 then [DigitChar(n)] else Digits(n / 10) + [DigitChar(n % 10)]
  }

  /** The value of a string of decimal digits. */
  function DigitsValue(s: string): nat
    requires AllDigits(s)
  {
    if s == [] then 0
    else
      assert IsDigit(s[|s| - 1]);
      10 * DigitsValue(s[..|s| - 1]) + (s[|s| - 1] as int - '0' as int)
  }

  /** `Integer.toString`: a minus sign for a negative number, then its digits. */
  function IntToString(i: int): (r: string)
    ensures |r| > 0
  {
    if i < 0 then "-" + Digits(-i) else Digits(i)
  }

  /**
   * `Integer.valueOf(String)`: an optional sign, at least one decimal digit,
   * and a value in the `int` range; anything else throws (`None`). Only the
   * ASCII digits `0`-`9` are read as digits.
   */
  function ParseInt(s: string): (r: Option<Int32>)
  {
    if s == [] then None
    else
      var negative := s[0] == '-';
      var body := if s[0] == '-' || s[0] == '+' then s[1..] else s;
      if body == [] || !AllDigits(body) then None
      else
        var v: int := if negative then -(DigitsValue(body) as int) else DigitsValue(body);
        if MinInt32 <= v <= MaxInt32 then Some(v) else None
  }

  lemma {:induction false} DigitsRoundTrip(n: nat)
    ensures DigitsValue(Digits(n)) == n
    decreases n
  {
    var d := Digits(n);
    if n >= 10 {
      DigitsRoundTrip(n / 10);
      assert d[..|d| - 1] == Digits(n / 10);
      assert d[|d| - 1] == DigitChar(n % 10);
    }
    assert d[|d| - 1] as int - '0' as int == n % 10;
  }

  /** Every `int` survives `Integer.toString` then `Integer.valueOf`. */
  lemma IntRoundTrip(i: Int32)
    ensures ParseInt(IntToString(i)) == Some(i)
  {
    var s := IntToString(i);
    var d := Digits(if i < 0 then -(i as int) else i);
    DigitsRoundTrip(if i < 0 then -(i as int) else i);
    if i < 0 {
      assert s == "-" + d;
      ParseSigned("-", d);
    } else {
      assert s == "" + d;
      ParseSigned("", d);
    }
  }

  /** A string of digits, with or without a leading minus, parses to its value when that value is an `int`. */
  lemma ParseSigned(sign: string, d: string)
    requires sign == "" || sign == "-"
    requires |d| > 0 && AllDigits(d)
    requires sign == "" ==> DigitsValue(d) <= MaxInt32
    requires sign == "-" ==> DigitsValue(d) <= -MinInt32
    ensures ParseInt(sign + d) == Some(if sign == "-" then -(DigitsValue(d) as int) else DigitsValue(d))
  {
    var s := sign + d;
    if sign == "-" {
      assert s[0] == '-' && s[1..] == d;
    } else {
      assert s == d && IsDigit(s[0]);
    }
  }

  /** Distinct keys are written as distinct strings. */
  lemma IntToStringInjective()
    ensures forall a: Int32, b: Int32 :: IntToString(a) == IntToString(b) ==> a == b
  {
    forall a: Int32, b: Int32 | IntToString(a) == IntToString(b) ensures a == b {
      IntRoundTrip(a);
      IntRoundTrip(b);
    }
  }

  /** The bundle `writeToParcel` writes: each key as its decimal string, with its value. */
  function Written(m: map<Int32, Option<string>>): (b: StringBundle)
    ensures forall k {:trigger m[k]} :: k in m ==> IntToString(k) in b && b[IntToString(k)] == m[k]
    ensures forall s :: s in b ==> exists k :: k in m && IntToString(k) == s
  {
    IntToStringInjective();
    WrittenPart(m, m.Keys)
  }

  /** The entries written for the keys in `keys`. */
  function WrittenPart(m: map<Int32, Option<string>>, keys: set<Int32>): StringBundle
    requires keys <= m.Keys
  {
    IntToStringInjective();
    map k | k in keys :: IntToString(k) := m[k]
  }

  /** Writing one more key adds exactly its entry. */
  lemma WrittenPartStep(m: map<Int32, Option<string>>, keys: set<Int32>, k: Int32)
    requires keys <= m.Keys && k in m && k !in keys
    ensures WrittenPart(m, keys + {k}) == WrittenPart(m, keys)[IntToString(k) := m[k]]
  {
    IntToStringInjective();
  }

  /**
   * What `createFromParcel` may build from a bundle whose keys all parse:
   * every key's number is a key, and each key carries the value of a string
   * key that parses to it. (The loop's order decides between two strings
   * that parse to the same number, such as "7" and "07".)
   */
  ghost predicate ReadsAs(b: StringBundle, r: map<Int32, Option<string>>) {
    && (forall s :: s in b ==> ParseInt(s).Some? && ParseInt(s).value in r)
    && (forall k {:trigger r[k]} :: k in r ==> exists s :: s in b && ParseInt(s) == Some(k) && r[k] == b[s])
  }

  /** Every key written parses back to the number it was written from, and carries that number's value. */
  lemma WrittenKeysParse(m: map<Int32, Option<string>>)
    ensures forall s :: s in Written(m) ==>
      ParseInt(s).Some? && ParseInt(s).value in m && Written(m)[s] == m[ParseInt(s).value]
  {
    forall s | s in Written(m) ensures ParseInt(s).Some? && ParseInt(s).value in m && Written(m)[s] == m[ParseInt(s).value] {
      WrittenKeyParses(m, s);
    }
  }

  /** One written key parses back to the number it was written from. */
  lemma WrittenKeyParses(m: map<Int32, Option<string>>, s: string)
    requires s in Written(m)
    ensures ParseInt(s).Some? && ParseInt(s).value in m && Written(m)[s] == m[ParseInt(s).value]
  {
    var k :| k in m && IntToString(k) == s;
    IntRoundTrip(k);
  }

  /** The map written is itself a reading of what was written. */
  lemma WrittenReadsAsOriginal(m: map<Int32, Option<string>>)
    ensures ReadsAs(Written(m), m)
  {
    var b := Written(m);
    WrittenKeysParse(m);
    forall k | k in m ensures exists s :: s in b && ParseInt(s) == Some(k) && m[k] == b[s] {
      IntRoundTrip(k);
      assert IntToString(k) in b;
    }
  }

  /** Any reading of a written map is that map. */
  lemma ReadingIsUnique(m: map<Int32, Option<string>>, r: map<Int32, Option<string>>)
    requires ReadsAs(Written(m), r)
    ensures r == m
  {
    ReadKeysAreWritten(m, r);
    WrittenKeysAreRead(m, r);
    SameEntries(r, m);
    assert r == m;
  }

  lemma SameEntries(r: map<Int32, Option<string>>, m: map<Int32, Option<string>>)
    requires forall k :: k in r ==> k in m && r[k] == m[k]
    requires forall k :: k in m ==> k in r
    ensures r == m
  {
    assert r.Keys == m.Keys;
  }

  lemma ReadKeysAreWritten(m: map<Int32, Option<string>>, r: map<Int32, Option<string>>)
    requires ReadsAs(Written(m), r)
    ensures forall k :: k in r ==> k in m && r[k] == m[k]
  {
    var b := Written(m);
    forall k | k in r ensures k in m && r[k] == m[k] {
      var s :| s in b && ParseInt(s) == Some(k) && r[k] == b[s];
      WrittenKeyParses(m, s);
    }
  }

  lemma WrittenKeysAreRead(m: map<Int32, Option<string>>, r: map<Int32, Option<string>>)
    requires ReadsAs(Written(m), r)
    ensures forall k :: k in m ==> k in r
  {
    var b := Written(m);
    forall k | k in m ensures k in r {
      IntRoundTrip(k);
      var s := IntToString(k);
      assert s in b && b[s] == m[k];
      assert ParseInt(s).value in r;
    }
  }

  /**
   * Writing an answer map and reading it back gives the same map: no key
   * makes `Integer.valueOf` throw, the original map is a reading, and it is
   * the only one.
   */
  lemma ParcelRoundTrip(m: map<Int32, Option<string>>, r: map<Int32, Option<string>>)
    ensures forall s :: s in Written(m) ==> ParseInt(s).Some?
    ensures ReadsAs(Written(m), m)
    ensures ReadsAs(Written(m), r) ==> r == m
  {
    WrittenKeysParse(m);
    WrittenReadsAsOriginal(m);
    if ReadsAs(Written(m), r) {
      ReadingIsUnique(m, r);
    }
  }

  /** An `AnswerMap`: a map from int keys to strings, updated in place. */
  class AnswerMap {
    var contents: map<Int32, Option<string>>

    constructor ()
      ensures contents == map[]
    {
      contents := map[];
    }

    method Put(i: Int32, s: Option<string>)
      modifies this
      ensures contents == old(contents)[i := s]
    {
      contents := contents[i := s];
    }

    /** `get`: the value under `i`, or null when there is none. */
    method Get(i: Int32) returns (r: Option<string>)
      ensures i in contents ==> r == contents[i]
      ensures i !in contents ==> r.None?
    {
      if i in contents {
        r := contents[i];
      } else {
        r := None;
      }
    }

    method ContentEquals(other: AnswerMap) returns (r: bool)
      ensures r <==> contents == other.contents
    {
      r := contents == other.contents;
    }

    /** `writeToParcel`: one bundle entry per map entry. */
    method WriteToParcel() returns (out: StringBundle)
      ensures out == Written(contents)
    {
      out := map[];
      var todo := contents.Keys;
      while todo != {}
        invariant todo <= contents.Keys
        invariant out == WrittenPart(contents, contents.Keys - todo)
        decreases todo
      {
        var k :| k in todo;
        WrittenPartStep(contents, contents.Keys - todo, k);
        out := out[IntToString(k) := contents[k]];
        assert contents.Keys - (todo - {k}) == (contents.Keys - todo) + {k};
        todo := todo - {k};
      }
      assert contents.Keys - todo == contents.Keys;
    }
  }

  /**
   * `AnswerMap.CREATOR.createFromParcel`: a new map holding one entry per
   * bundle key, or null where a key is not a number and `Integer.valueOf`
   * throws.
   */
  method CreateFromParcel(read: StringBundle) returns (ret: AnswerMap?)
    ensures ret == null <==> exists s :: s in read && ParseInt(s).None?
    ensures ret != null ==> fresh(ret) && ReadsAs(read, ret.contents)
  {
    ret := new AnswerMap();
    ghost var from: map<Int32, string> := map[];
    var todo := read.Keys;
    while todo != {}
      invariant todo <= read.Keys
      invariant forall s :: s in read.Keys - todo ==> ParseInt(s).Some? && ParseInt(s).value in ret.contents
      invariant forall k :: k in ret.contents ==>
        k in from && from[k] in read && ParseInt(from[k]) == Some(k) && ret.contents[k] == read[from[k]]
      decreases todo
    {
      var kString :| kString in todo;
      var kInt := ParseInt(kString);
      if kInt.None? {
        return null;
      }
      ret.Put(kInt.value, read[kString]);
      from := from[kInt.value := kString];
      todo := todo - {kString};
    }
    forall k | k in ret.contents ensures exists s :: s in read && ParseInt(s) == Some(k) && ret.contents[k] == read[s] {
      assert from[k] in read;
    }
  }
}

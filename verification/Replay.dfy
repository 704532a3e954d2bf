/** Loading events for one run (`app/observability/replay.py` and the event
    query of `app/observability/projection_store.py`): the limit is pushed down
    into the store, the answer is as if it were not.

    The log of the run is the sequence of its events by number.  The store, the
    in-memory journal and the JSONL file each hold some of its events. */
module Replay {
  import opened Common
  import opened Events
  import opened Sorting
  import opened Text

  function Number(): Event -> int { (e: Event) => e.number }

  /** A log: numbers are positive and increase, events have ids. */
  predicate IsLog(log: seq<Event>) {
    && (forall i :: 0 <= i < |log| ==> log[i].number >= 1 && !Blank(log[i].eventId))
    && Increasing(log)
  }

  predicate Increasing(s: seq<Event>) {
    forall i, j :: 0 <= i < j < |s| ==> s[i].number < s[j].number
  }

  /** Every event of `s` comes from `log`. */
  predicate From(log: seq<Event>, s: seq<Event>) {
    forall e :: e in s ==> e in log
  }

  function Filter(s: seq<Event>, keep: Event -> bool): seq<Event> {
    if |s| == 0 then []
    else
      Filter(s[..|s| - 1], keep) + (if keep(s[|s| - 1]) then [s[|s| - 1]] else [])
  }

  function In(s: seq<Event>): Event -> bool { (e: Event) => e in s }

  function LastK<T>(s: seq<T>, k: nat): seq<T> { if k >= |s| then s else s[|s| - k..] }

  function FirstK<T>(s: seq<T>, k: nat): seq<T> { if k >= |s| then s else s[..k] }

  // ---------------------------------------------------------------- queries

  datatype Query = Query(after: int, before: Option<int>, limit: Option<nat>)

  predicate InWindow(q: Query, e: Event) {
    e.number > q.after && (q.before.Some? ==> e.number < q.before.value)
  }

  function Window(q: Query): Event -> bool { (e: Event) => InWindow(q, e) }

  /** Pages are taken from the end unless the reader follows the log forward. */
  predicate FromEnd(q: Query) { q.before.Some? || q.after == 0 }

  function Limit(q: Query, s: seq<Event>): seq<Event> {
    if q.limit.None? then s
    else if FromEnd(q) then LastK(s, q.limit.value) else FirstK(s, q.limit.value)
  }

  /** `ProjectionStore.events`: filter, order by number, limit. */
  function StoreQuery(rows: seq<Event>, q: Query): seq<Event> {
    Limit(q, StableSort(Filter(rows, Window(q)), Number()))
  }

  datatype EventKey = EventKey(number: nat, id: string)

  function KeyOf(e: Event): EventKey { EventKey(e.number, Strip(e.eventId)) }

  function WithKey(key: EventKey): Event -> bool { (e: Event) => KeyOf(e) == key }

  function KeyIndex(byId: seq<Event>, key: EventKey): (i: nat)
    ensures i <= |byId|
    ensures i < |byId| ==> KeyOf(byId[i]) == key
  {
    FirstIndexIsFirst(byId, WithKey(key));
    FirstIndex(byId, WithKey(key))
  }

  /** The dictionary by id, in insertion order, and the events without id. */
  datatype Merge = Merge(byId: seq<Event>, anonymous: seq<Event>)

  function MergeOne(m: Merge, e: Event): Merge {
    if Blank(e.eventId) then m.(anonymous := m.anonymous + [e])
    else
      var i := KeyIndex(m.byId, KeyOf(e));
      m.(byId := if i < |m.byId| then m.byId[i := e] else m.byId + [e])
  }

  function MergeAll(events: seq<Event>): Merge {
    if |events| == 0 then Merge([], [])
    else MergeOne(MergeAll(events[..|events| - 1]), events[|events| - 1])
  }

  /** `_merge_last_wins` over the concatenated groups. */
  function MergeLastWins(events: seq<Event>): seq<Event> {
    var m := MergeAll(events);
    StableSort(m.byId + m.anonymous, Number())
  }

  function Durable(rows: seq<Event>, jsonl: seq<Event>, q: Query): seq<Event> {
    var stored := StoreQuery(rows, q);
    if stored == [] then jsonl else stored
  }

  function After(q: Query): Event -> bool { (e: Event) => q.after != 0 ==> e.number > q.after }

  function Before(q: Query): Event -> bool { (e: Event) => q.before.Some? ==> e.number < q.before.value }

  /** The final slice.  Taking the last zero events takes all of them. */
  function Slice(q: Query, s: seq<Event>): seq<Event> {
    if FromEnd(q) && q.limit == Some(0) then s else Limit(q, s)
  }

  /** `load_events` for one run: the limit is applied by the store and again at
      the end. */
  function LoadEvents(rows: seq<Event>, memory: seq<Event>, jsonl: seq<Event>, q: Query): seq<Event> {
    var merged := MergeLastWins(Durable(rows, jsonl, q) + memory);
    Slice(q, StableSort(Filter(Filter(merged, After(q)), Before(q)), Number()))
  }

  // -------------------------------------------------- sequences by number

  lemma {:induction false} FilterMembers(s: seq<Event>, keep: Event -> bool)
    ensures forall e :: e in Filter(s, keep) <==> e in s && keep(e)
    ensures Increasing(s) ==> Increasing(Filter(s, keep))
  {
    if |s| > 0 {
      var rest, last := s[..|s| - 1], s[|s| - 1];
      FilterMembers(rest, keep);
      assert s == rest + [last];
      if Increasing(s) {
        forall i | 0 <= i < |Filter(rest, keep)|
          ensures Filter(rest, keep)[i].number < last.number
        {
          assert Filter(rest, keep)[i] in rest;
        }
      }
    }
  }

  lemma HasMember(s: seq<Event>)
    requires |s| > 0
    ensures exists e :: e in s
  {
    assert s[0] in s;
  }

  /** An increasing sequence is determined by its members. */
  lemma {:induction false} IncreasingUnique(a: seq<Event>, b: seq<Event>)
    requires Increasing(a) && Increasing(b)
    requires forall e :: e in a <==> e in b
    ensures a == b
  {
    if |a| == 0 {
      if |b| > 0 {
        HasMember(b);
      }
    } else {
      var x := a[|a| - 1];
      assert x in a;
      assert |b| > 0;
      var y := b[|b| - 1];
      assert y in b;
      SameLast(a, b);
      var a', b' := a[..|a| - 1], b[..|b| - 1];
      assert a == a' + [x] && b == b' + [y];
      forall e
        ensures e in a' <==> e in b'
      {
        InitMembers(a, e);
        InitMembers(b, e);
      }
      IncreasingUnique(a', b');
    }
  }

  lemma InitMembers(a: seq<Event>, e: Event)
    requires |a| > 0 && Increasing(a)
    ensures e in a[..|a| - 1] <==> e in a && e != a[|a| - 1]
  {
    assert a == a[..|a| - 1] + [a[|a| - 1]];
  }

  lemma SameLast(a: seq<Event>, b: seq<Event>)
    requires |a| > 0 && |b| > 0 && Increasing(a) && Increasing(b)
    requires a[|a| - 1] in b && b[|b| - 1] in a
    ensures a[|a| - 1] == b[|b| - 1]
  {
    var i :| 0 <= i < |b| && b[i] == a[|a| - 1];
    var j :| 0 <= j < |a| && a[j] == b[|b| - 1];
  }

  /** Within one log, equal numbers mean equal events. */
  lemma SameNumber(log: seq<Event>, x: Event, y: Event)
    requires IsLog(log) && x in log && y in log && x.number == y.number
    ensures x == y
  {
    var i :| 0 <= i < |log| && log[i] == x;
    var j :| 0 <= j < |log| && log[j] == y;
  }

  predicate NoRepeats(s: seq<Event>) {
    forall i, j :: 0 <= i < j < |s| ==> s[i] != s[j]
  }

  /** Sorting events of one log, without repeats, lists them as the log does. */
  lemma SortIsLogOrder(log: seq<Event>, s: seq<Event>)
    requires IsLog(log) && From(log, s) && NoRepeats(s)
    ensures StableSort(s, Number()) == Filter(log, In(s))
  {
    var sorted, want := StableSort(s, Number()), Filter(log, In(s));
    SortMembers(s, Number());
    SortSorted(s, Number());
    SortNoRepeats(s);
    FilterMembers(log, In(s));
    forall i, j | 0 <= i < j < |sorted|
      ensures sorted[i].number < sorted[j].number
    {
      assert sorted[i] in sorted && sorted[j] in sorted;
      assert Number()(sorted[i]) <= Number()(sorted[j]);
      if sorted[i].number == sorted[j].number {
        SameNumber(log, sorted[i], sorted[j]);
      }
    }
    IncreasingUnique(sorted, want);
  }

  lemma {:induction false} InsertNoRepeats(s: seq<Event>, x: Event)
    requires NoRepeats(s) && x !in s
    ensures NoRepeats(Insert(s, x, Number()))
  {
    if |s| > 0 && s[|s| - 1].number > x.number {
      var rest, last := s[..|s| - 1], s[|s| - 1];
      InsertNoRepeats(rest, x);
      InsertMembers(rest, x, Number());
      var put := Insert(rest, x, Number());
      forall i | 0 <= i < |put|
        ensures put[i] != last
      {
        assert put[i] in put;
      }
    }
  }

  lemma {:induction false} SortNoRepeats(s: seq<Event>)
    requires NoRepeats(s)
    ensures NoRepeats(StableSort(s, Number()))
  {
    if |s| > 0 {
      SortNoRepeats(s[..|s| - 1]);
      SortMembers(s[..|s| - 1], Number());
      InsertNoRepeats(StableSort(s[..|s| - 1], Number()), s[|s| - 1]);
    }
  }

  /** The same filter, said in two ways. */
  lemma {:induction false} FilterSame(s: seq<Event>, p: Event -> bool, q: Event -> bool)
    requires forall e :: e in s ==> p(e) == q(e)
    ensures Filter(s, p) == Filter(s, q)
  {
    if |s| > 0 {
      FilterSame(s[..|s| - 1], p, q);
    }
  }

  // ---------------------------------------------------------------- merging

  /** Merging what the store, the file and the journal hold of one log. */
  lemma {:induction false} MergeHolds(log: seq<Event>, events: seq<Event>)
    requires IsLog(log) && From(log, events)
    ensures MergeAll(events).anonymous == []
    ensures forall e :: e in MergeAll(events).byId <==> e in events
    ensures NoRepeats(MergeAll(events).byId)
  {
    if |events| > 0 {
      var rest, e := events[..|events| - 1], events[|events| - 1];
      assert events == rest + [e];
      MergeHolds(log, rest);
      MergeOneHolds(log, rest, MergeAll(rest), e);
    }
  }

  lemma MergeOneHolds(log: seq<Event>, rest: seq<Event>, m: Merge, e: Event)
    requires IsLog(log) && From(log, rest) && e in log
    requires m.anonymous == [] && NoRepeats(m.byId) && forall x :: x in m.byId <==> x in rest
    ensures var m' := MergeOne(m, e);
            m'.anonymous == [] && NoRepeats(m'.byId) && forall x :: x in m'.byId <==> x in rest + [e]
  {
    KeyIndexHolds(log, m.byId, e);
    var i := KeyIndex(m.byId, KeyOf(e));
    if i < |m.byId| {
      assert m.byId[i := e] == m.byId;
      assert e in rest;
    } else {
      NoRepeatsAppend(m.byId, e);
    }
  }

  lemma NoRepeatsAppend(s: seq<Event>, e: Event)
    requires NoRepeats(s) && e !in s
    ensures NoRepeats(s + [e])
  {
  }

  /** In one log, the key of an event finds that event or nothing. */
  lemma KeyIndexHolds(log: seq<Event>, byId: seq<Event>, e: Event)
    requires IsLog(log) && e in log && forall x :: x in byId ==> x in log
    ensures !Blank(e.eventId)
    ensures var i := KeyIndex(byId, KeyOf(e));
            if i < |byId| then byId[i] == e else e !in byId
  {
    var i := KeyIndex(byId, KeyOf(e));
    if i < |byId| {
      assert byId[i] in byId;
      SameNumber(log, byId[i], e);
    } else {
      KeyIndexMissing(byId, KeyOf(e));
    }
  }

  lemma KeyIndexMissing(byId: seq<Event>, key: EventKey)
    requires KeyIndex(byId, key) == |byId|
    ensures forall i :: 0 <= i < |byId| ==> KeyOf(byId[i]) != key
  {
    FirstIndexIsFirst(byId, WithKey(key));
  }

  lemma MergeIsLogOrder(log: seq<Event>, events: seq<Event>)
    requires IsLog(log) && From(log, events)
    ensures MergeLastWins(events) == Filter(log, In(events))
  {
    MergeHolds(log, events);
    var m := MergeAll(events);
    assert m.byId + m.anonymous == m.byId;
    SortIsLogOrder(log, m.byId);
    FilterSame(log, In(m.byId), In(events));
  }

  // ------------------------------------------------- which event a merge keeps

  function Anonymous(): Event -> bool { (e: Event) => Blank(e.eventId) }

  /** Equal numbers, and equal ids up to white space around them. */
  predicate SameKey(a: Event, b: Event) { a.number == b.number && Strip(a.eventId) == Strip(b.eventId) }

  /** The last event with an id that shares number and id with `e`. */
  function NewestLike(events: seq<Event>, e: Event): Option<Event> {
    if |events| == 0 then None
    else
      var last := events[|events| - 1];
      if !Blank(last.eventId) && SameKey(last, e) then Some(last) else NewestLike(events[..|events| - 1], e)
  }

  predicate OnePerKey(s: seq<Event>) {
    forall i, j :: 0 <= i < j < |s| ==> !SameKey(s[i], s[j])
  }

  ghost predicate HoldsNewest(kept: seq<Event>, events: seq<Event>) {
    forall e :: e in kept <==> !Blank(e.eventId) && NewestLike(events, e) == Some(e)
  }

  lemma ReplaceByKey(byId: seq<Event>, i: nat, e: Event)
    requires i < |byId| && SameKey(byId[i], e) && OnePerKey(byId)
    ensures OnePerKey(byId[i := e])
    ensures forall x :: x in byId[i := e] <==> x == e || (x in byId && !SameKey(x, e))
  {
    var put := byId[i := e];
    forall x
      ensures x in put <==> x == e || (x in byId && !SameKey(x, e))
    {
      if x in byId && !SameKey(x, e) {
        var k :| 0 <= k < |byId| && byId[k] == x;
        assert put[k] == x;
      }
      assert put[i] == e;
    }
  }

  lemma {:induction false} MergeKeepsNewest(events: seq<Event>)
    ensures MergeAll(events).anonymous == Filter(events, Anonymous())
    ensures OnePerKey(MergeAll(events).byId) && HoldsNewest(MergeAll(events).byId, events)
  {
    if |events| > 0 {
      var rest, e := events[..|events| - 1], events[|events| - 1];
      MergeKeepsNewest(rest);
      var byId := MergeAll(rest).byId;
      var i := KeyIndex(byId, KeyOf(e));
      if !Blank(e.eventId) && i < |byId| {
        ReplaceByKey(byId, i, e);
      } else if !Blank(e.eventId) {
        KeyIndexMissing(byId, KeyOf(e));
      }
    }
  }

  /** For any events whatever: of those that share number and id exactly the last
      one is kept, every one without id is kept, and the result is in order of
      number. */
  lemma MergeKeepsTheLast(events: seq<Event>) returns (kept: seq<Event>)
    ensures OnePerKey(kept) && HoldsNewest(kept, events)
    ensures multiset(MergeLastWins(events)) == multiset(kept) + multiset(Filter(events, Anonymous()))
    ensures SortedBy(MergeLastWins(events), Number())
  {
    var m := MergeAll(events);
    kept := m.byId;
    MergeKeepsNewest(events);
    SortMultiset(m.byId + m.anonymous, Number());
    SortSorted(m.byId + m.anonymous, Number());
  }

  // -------------------------------------------------------- limit pushdown

  lemma LastKAppend<T>(s: seq<T>, x: T, k: nat)
    requires k > 0
    ensures LastK(s + [x], k) == LastK(s, k - 1) + [x]
  {
  }

  lemma LastKTwice<T>(s: seq<T>, j: nat, k: nat)
    requires j <= k
    ensures LastK(LastK(s, k), j) == LastK(s, j)
  {
  }

  lemma LastKBoth<T>(a: seq<T>, b: seq<T>, x: T, j: nat, k: nat)
    requires 0 < k && k - 1 <= j <= k && LastK(a, j) == LastK(b, j)
    ensures LastK(a + [x], k) == LastK(b + [x], k)
  {
    LastKAppend(a, x, k);
    LastKAppend(b, x, k);
    assert LastK(a, k - 1) == LastK(b, k - 1) by {
      LastKTwice(a, k - 1, j);
      LastKTwice(b, k - 1, j);
    }
  }

  /** Kept by `p` among the last `k`, or kept by `q`. */
  function LastOr(s: seq<Event>, p: Event -> bool, k: nat, q: Event -> bool): Event -> bool {
    (e: Event) => e in LastK(Filter(s, p), k) || q(e)
  }

  function Or(p: Event -> bool, q: Event -> bool): Event -> bool { (e: Event) => p(e) || q(e) }

  lemma FilterAppend(rest: seq<Event>, x: Event, p: Event -> bool)
    ensures Filter(rest + [x], p) == Filter(rest, p) + (if p(x) then [x] else [])
  {
    assert (rest + [x])[..|rest|] == rest;
  }

  /** The last event is among the last `k` if it is kept at all. */
  lemma LastOrAppend(rest: seq<Event>, x: Event, p: Event -> bool, k: nat, q: Event -> bool)
    requires Increasing(rest + [x]) && k > 0
    ensures LastOr(rest + [x], p, k, q)(x) == (p(x) || q(x))
    ensures forall e :: e in rest ==>
              LastOr(rest + [x], p, k, q)(e) == LastOr(rest, p, if p(x) then k - 1 else k, q)(e)
  {
    FilterAppend(rest, x, p);
    FilterMembers(rest, p);
    LastKAppend(Filter(rest, p), x, k);
    assert forall i :: 0 <= i < |rest| ==> (rest + [x])[i] == rest[i];
    assert (rest + [x])[|rest|] == x && x !in rest;
    if !p(x) {
      assert Filter(rest + [x], p) == Filter(rest, p);
    }
  }

  /** The last `k` of a union need only the last `k` of one side. */
  lemma {:induction false} LastOfUnion(s: seq<Event>, p: Event -> bool, k: nat, q: Event -> bool)
    requires Increasing(s)
    ensures LastK(Filter(s, LastOr(s, p, k, q)), k) == LastK(Filter(s, Or(p, q)), k)
  {
    if |s| > 0 && k > 0 {
      var rest, x := s[..|s| - 1], s[|s| - 1];
      assert s == rest + [x];
      var j := if p(x) then k - 1 else k;
      var keep, all := LastOr(s, p, k, q), Or(p, q);
      LastOrAppend(rest, x, p, k, q);
      FilterSame(rest, keep, LastOr(rest, p, j, q));
      LastOfUnion(rest, p, j, q);
      FilterAppend(rest, x, keep);
      FilterAppend(rest, x, all);
      var a, b := Filter(rest, keep), Filter(rest, all);
      assert LastK(a, j) == LastK(b, j);
      if p(x) || q(x) {
        LastKBoth(a, b, x, j, k);
      } else {
        assert Filter(s, keep) == a && Filter(s, all) == b;
      }
    }
  }

  function FirstOr(s: seq<Event>, p: Event -> bool, k: nat, q: Event -> bool): Event -> bool {
    (e: Event) => e in FirstK(Filter(s, p), k) || q(e)
  }

  lemma {:induction false} FilterGrows(s: seq<Event>, p: Event -> bool, q: Event -> bool)
    requires forall e :: e in s && p(e) ==> q(e)
    ensures |Filter(s, p)| <= |Filter(s, q)|
  {
    if |s| > 0 {
      FilterGrows(s[..|s| - 1], p, q);
    }
  }

  /** At least as many events are kept as the first `k` that `p` keeps. */
  lemma FirstOrSize(s: seq<Event>, p: Event -> bool, k: nat, q: Event -> bool)
    requires Increasing(s) && |Filter(s, p)| >= k
    ensures |Filter(s, FirstOr(s, p, k, q))| >= k && |Filter(s, Or(p, q))| >= k
  {
    FirstKIsFilter(s, p, k);
    FilterGrows(s, In(FirstK(Filter(s, p), k)), FirstOr(s, p, k, q));
    FilterGrows(s, p, Or(p, q));
  }

  lemma FirstKIsFilter(s: seq<Event>, p: Event -> bool, k: nat)
    requires Increasing(s) && |Filter(s, p)| >= k
    ensures Filter(s, In(FirstK(Filter(s, p), k))) == FirstK(Filter(s, p), k)
  {
    var first := FirstK(Filter(s, p), k);
    FilterMembers(s, p);
    FilterMembers(s, In(first));
    assert Increasing(first);
    assert forall e :: e in first ==> e in Filter(s, p);
    IncreasingUnique(Filter(s, In(first)), first);
  }

  lemma FirstOrAppend(rest: seq<Event>, x: Event, p: Event -> bool, k: nat, q: Event -> bool)
    requires Increasing(rest + [x])
    ensures |Filter(rest, p)| < k ==> FirstOr(rest + [x], p, k, q)(x) == (p(x) || q(x))
    ensures forall e :: e in rest ==> FirstOr(rest + [x], p, k, q)(e) == FirstOr(rest, p, k, q)(e)
  {
    FilterAppend(rest, x, p);
    FilterMembers(rest, p);
    LastIsNew(rest, x);
    var part := Filter(rest, p);
    FirstKOfMore(part, x, k);
    var first := FirstK(Filter(rest + [x], p), k);
    assert first == if p(x) && |part| < k then part + [x] else FirstK(part, k);
    forall e | e in rest
      ensures e in first <==> e in FirstK(part, k)
    {
      assert e != x;
    }
  }

  lemma LastIsNew(rest: seq<Event>, x: Event)
    requires Increasing(rest + [x])
    ensures x !in rest
  {
    forall i | 0 <= i < |rest|
      ensures rest[i] != x
    {
      assert (rest + [x])[i] == rest[i] && (rest + [x])[|rest|] == x;
    }
  }

  lemma FirstKOfMore(part: seq<Event>, x: Event, k: nat)
    ensures FirstK(part + [x], k) == if |part| < k then part + [x] else FirstK(part, k)
    ensures |part| < k ==> FirstK(part, k) == part
  {
  }

  /** The first `k` of a union need only the first `k` of one side. */
  lemma {:induction false} FirstOfUnion(s: seq<Event>, p: Event -> bool, k: nat, q: Event -> bool)
    requires Increasing(s)
    ensures FirstK(Filter(s, FirstOr(s, p, k, q)), k) == FirstK(Filter(s, Or(p, q)), k)
  {
    if |s| > 0 {
      var rest, x := s[..|s| - 1], s[|s| - 1];
      assert s == rest + [x];
      var keep, all := FirstOr(s, p, k, q), Or(p, q);
      FirstOrAppend(rest, x, p, k, q);
      FilterSame(rest, keep, FirstOr(rest, p, k, q));
      FirstOfUnion(rest, p, k, q);
      FilterAppend(rest, x, keep);
      FilterAppend(rest, x, all);
      var a, b := Filter(rest, keep), Filter(rest, all);
      assert FirstK(a, k) == FirstK(b, k);
      if |Filter(rest, p)| >= k {
        FirstOrSize(rest, p, k, q);
        assert FirstK(Filter(s, keep), k) == FirstK(a, k) && FirstK(Filter(s, all), k) == FirstK(b, k);
      } else if keep(x) {
        FirstKBoth(a, b, x, k);
      } else {
        assert Filter(s, keep) == a && Filter(s, all) == b;
      }
    }
  }

  lemma FirstKBoth<T>(a: seq<T>, b: seq<T>, x: T, k: nat)
    requires FirstK(a, k) == FirstK(b, k)
    ensures FirstK(a + [x], k) == FirstK(b + [x], k)
  {
    if |a| < k {
      assert a == b;
    } else {
      assert FirstK(a + [x], k) == FirstK(a, k) && FirstK(b + [x], k) == FirstK(b, k);
    }
  }

  // ------------------------------------------------------- the main results

  /** What the store holds of the window, or failing that the file. */
  function Held(rows: seq<Event>, jsonl: seq<Event>, q: Query): seq<Event> {
    if Filter(rows, Window(q)) == [] then jsonl else rows
  }

  /** The reference: the whole log, restricted to the window and to what the
      durable side and the journal hold, then limited once. */
  function Reference(log: seq<Event>, held: seq<Event>, memory: seq<Event>, q: Query): seq<Event> {
    Limit(q, Filter(log, Wanted(held, memory, q)))
  }

  function Wanted(held: seq<Event>, memory: seq<Event>, q: Query): Event -> bool {
    (e: Event) => (e in held || e in memory) && InWindow(q, e)
  }

  function Recent(memory: seq<Event>, q: Query): Event -> bool {
    (e: Event) => e in memory && InWindow(q, e)
  }

  /** The store's answer is the limited window of its rows in log order. */
  lemma StoreQueryIs(log: seq<Event>, rows: seq<Event>, q: Query)
    requires IsLog(log) && From(log, rows) && NoRepeats(rows)
    ensures StoreQuery(rows, q) == Limit(q, Filter(log, In(Filter(rows, Window(q)))))
  {
    FilterMembers(rows, Window(q));
    FilterNoRepeats(rows, Window(q));
    SortIsLogOrder(log, Filter(rows, Window(q)));
  }

  lemma {:induction false} FilterNoRepeats(s: seq<Event>, p: Event -> bool)
    requires NoRepeats(s)
    ensures NoRepeats(Filter(s, p))
  {
    if |s| > 0 {
      FilterNoRepeats(s[..|s| - 1], p);
      FilterMembers(s[..|s| - 1], p);
      var kept := Filter(s[..|s| - 1], p);
      forall i | 0 <= i < |kept|
        ensures kept[i] != s[|s| - 1]
      {
        assert kept[i] in s[..|s| - 1];
      }
    }
  }

  /** Filtering the merged events by the two bounds, one after the other. */
  lemma FilterTwice(log: seq<Event>, durable: seq<Event>, memory: seq<Event>, q: Query)
    requires IsLog(log) && From(log, durable) && From(log, memory)
    ensures StableSort(Filter(Filter(MergeLastWins(durable + memory), After(q)), Before(q)), Number())
         == Filter(log, Wanted(durable, memory, q))
  {
    var events := durable + memory;
    MergeIsLogOrder(log, events);
    var merged := MergeLastWins(events);
    var once := Filter(merged, After(q));
    var twice := Filter(once, Before(q));
    FilterMembers(log, In(events));
    FilterMembers(merged, After(q));
    FilterMembers(once, Before(q));
    assert NoRepeats(twice);
    SortIsLogOrder(log, twice);
    FilterSame(log, In(twice), Wanted(durable, memory, q));
  }

  /** The events `mine` of the window, limited, and then the recent ones added:
      after limiting again it is as if `mine` had not been limited. */
  lemma LimitedSideSuffices(log: seq<Event>, mine: seq<Event>, memory: seq<Event>, q: Query)
    requires Increasing(log) && From(log, mine) && forall e :: e in mine ==> InWindow(q, e)
    ensures var limited := Limit(q, Filter(log, In(mine)));
            Limit(q, Filter(log, Wanted(limited, memory, q))) == Limit(q, Filter(log, Wanted(mine, memory, q)))
  {
    var limited, recent := Limit(q, Filter(log, In(mine))), Recent(memory, q);
    FilterMembers(log, In(mine));
    FilterSame(log, Wanted(mine, memory, q), Or(In(mine), recent));
    if q.limit.None? {
      FilterSame(log, Wanted(limited, memory, q), Or(In(mine), recent));
    } else if FromEnd(q) {
      FilterSame(log, Wanted(limited, memory, q), LastOr(log, In(mine), q.limit.value, recent));
      LastOfUnion(log, In(mine), q.limit.value, recent);
    } else {
      FilterSame(log, Wanted(limited, memory, q), FirstOr(log, In(mine), q.limit.value, recent));
      FirstOfUnion(log, In(mine), q.limit.value, recent);
    }
  }

  /** With a limit of at least one, or none, `load_events` answers as if the store
      had returned every row. */
  lemma PositiveLimitIsExact(log: seq<Event>, rows: seq<Event>, memory: seq<Event>, jsonl: seq<Event>, q: Query)
    requires IsLog(log) && From(log, rows) && From(log, memory) && From(log, jsonl) && NoRepeats(rows)
    requires q.limit.Some? ==> q.limit.value >= 1
    ensures LoadEvents(rows, memory, jsonl, q) == Reference(log, Held(rows, jsonl, q), memory, q)
  {
    var durable := Durable(rows, jsonl, q);
    DurableIs(log, rows, jsonl, q);
    FilterTwice(log, durable, memory, q);
    var mine := Filter(rows, Window(q));
    if mine == [] {
      NothingStored(log, q);
    } else {
      FilterMembers(rows, Window(q));
      LimitedSideSuffices(log, mine, memory, q);
      FilterSame(log, Wanted(mine, memory, q), Wanted(rows, memory, q));
    }
  }

  /** The store answers unless it has nothing in the window. */
  lemma DurableIs(log: seq<Event>, rows: seq<Event>, jsonl: seq<Event>, q: Query)
    requires IsLog(log) && From(log, rows) && From(log, jsonl) && NoRepeats(rows)
    requires q.limit.Some? ==> q.limit.value >= 1
    ensures var mine := Filter(rows, Window(q));
            && Durable(rows, jsonl, q) == (if mine == [] then jsonl else Limit(q, Filter(log, In(mine))))
            && From(log, Durable(rows, jsonl, q))
  {
    var mine := Filter(rows, Window(q));
    StoreQueryIs(log, rows, q);
    FilterMembers(rows, Window(q));
    FilterMembers(log, In(mine));
    if mine == [] {
      NothingStored(log, q);
    } else {
      StoredIsNonEmpty(log, mine, q);
    }
  }

  /** A limit of zero is no limit when reading from the end: the store returns
      nothing, and then everything the file and the journal hold is returned. */
  lemma ZeroLimitIsNoLimit(log: seq<Event>, rows: seq<Event>, memory: seq<Event>, jsonl: seq<Event>, q: Query)
    requires IsLog(log) && From(log, memory) && From(log, jsonl) && q.limit == Some(0) && FromEnd(q)
    ensures LoadEvents(rows, memory, jsonl, q) == Filter(log, Wanted(jsonl, memory, q))
  {
    assert StoreQuery(rows, q) == [];
    FilterTwice(log, jsonl, memory, q);
  }

  /** Limit pushdown: for every window and every content of the three sources
      drawn from one log, `load_events` answers as if the store had returned
      every row and the limit had been applied once, at the end, if and only if
      it is not asked for zero events from the end while the file or the journal
      holds some. */
  lemma LimitPushdownIsExact(log: seq<Event>, rows: seq<Event>, memory: seq<Event>, jsonl: seq<Event>, q: Query)
    requires IsLog(log) && From(log, rows) && From(log, memory) && From(log, jsonl) && NoRepeats(rows)
    ensures LoadEvents(rows, memory, jsonl, q) == Reference(log, Held(rows, jsonl, q), memory, q)
       <==> !(q.limit == Some(0) && FromEnd(q) && Filter(log, Wanted(jsonl, memory, q)) != [])
  {
    if q.limit != Some(0) {
      PositiveLimitIsExact(log, rows, memory, jsonl, q);
    } else if FromEnd(q) {
      ZeroLimitIsNoLimit(log, rows, memory, jsonl, q);
    } else {
      NothingTaken(rows, memory, jsonl, q);
    }
  }

  /** Following the log forward, a limit of zero takes nothing. */
  lemma NothingTaken(rows: seq<Event>, memory: seq<Event>, jsonl: seq<Event>, q: Query)
    requires q.limit == Some(0)
    ensures !FromEnd(q) ==> LoadEvents(rows, memory, jsonl, q) == []
    ensures forall s: seq<Event> :: Limit(q, s) == []
  {
  }

  /** With a complete store the answer is the limited window of the log itself,
      whatever the journal and the file hold. */
  lemma CompleteStoreAnswersFromLog(log: seq<Event>, rows: seq<Event>, memory: seq<Event>, jsonl: seq<Event>, q: Query)
    requires IsLog(log) && From(log, rows) && From(rows, log) && From(log, memory) && From(log, jsonl)
    requires NoRepeats(rows) && (q.limit.Some? ==> q.limit.value >= 1)
    ensures LoadEvents(rows, memory, jsonl, q) == Limit(q, Filter(log, Window(q)))
  {
    PositiveLimitIsExact(log, rows, memory, jsonl, q);
    FilterMembers(rows, Window(q));
    FilterSame(log, Wanted(Held(rows, jsonl, q), memory, q), Window(q));
  }

  lemma {:induction false} NothingStored(log: seq<Event>, q: Query)
    ensures Filter(log, In([])) == []
  {
    if |log| > 0 {
      NothingStored(log[..|log| - 1], q);
    }
  }

  lemma StoredIsNonEmpty(log: seq<Event>, mine: seq<Event>, q: Query)
    requires From(log, mine) && mine != [] && (q.limit.Some? ==> q.limit.value >= 1)
    ensures Limit(q, Filter(log, In(mine))) != []
  {
    FilterMembers(log, In(mine));
    assert mine[0] in Filter(log, In(mine));
  }

  lemma {:induction false} AllKept(s: seq<Event>, p: Event -> bool)
    requires forall e :: e in s ==> p(e)
    ensures Filter(s, p) == s
  {
    if |s| > 0 {
      AllKept(s[..|s| - 1], p);
    }
  }

  // ------------------------------------------------ a window and the whole

  const Everything: Query := Query(0, None, None)

  lemma {:induction false} FilterFilter(s: seq<Event>, p: Event -> bool, q: Event -> bool, both: Event -> bool)
    requires forall e :: both(e) <==> p(e) && q(e)
    ensures Filter(Filter(s, p), q) == Filter(s, both)
  {
    if |s| > 0 {
      var rest, last := s[..|s| - 1], s[|s| - 1];
      FilterFilter(rest, p, q, both);
      if p(last) {
        FilterAppend(Filter(rest, p), last, q);
      } else {
        assert Filter(s, p) == Filter(rest, p);
      }
    }
  }

  lemma FilterAgreeIff(s: seq<Event>, p: Event -> bool, q: Event -> bool)
    ensures Filter(s, p) == Filter(s, q) <==> forall e :: e in s ==> p(e) == q(e)
  {
    FilterMembers(s, p);
    FilterMembers(s, q);
    if forall e :: e in s ==> p(e) == q(e) {
      FilterSame(s, p, q);
    } else {
      var e :| e in s && p(e) != q(e);
      assert e in Filter(s, p) <==> e !in Filter(s, q);
    }
  }

  function Both(p: Event -> bool, q: Event -> bool): Event -> bool { (e: Event) => p(e) && q(e) }

  lemma HeldOfEverything(log: seq<Event>, rows: seq<Event>, jsonl: seq<Event>)
    requires IsLog(log) && From(log, rows)
    ensures Held(rows, jsonl, Everything) == if rows == [] then jsonl else rows
  {
    FilterMembers(rows, Window(Everything));
    if rows != [] {
      InLog(log, rows[0]);
      assert rows[0] in Filter(rows, Window(Everything));
    }
  }

  lemma InLog(log: seq<Event>, e: Event)
    requires IsLog(log) && e in log
    ensures e.number >= 1
  {
    var i :| 0 <= i < |log| && log[i] == e;
  }

  /** The store has nothing in the window, and the file something more than the
      journal. */
  predicate FileHasMore(rows: seq<Event>, memory: seq<Event>, jsonl: seq<Event>, q: Query) {
    rows != [] && Filter(rows, Window(q)) == [] && exists e :: e in jsonl && e !in memory && InWindow(q, e)
  }

  function PartOfWhole(rows: seq<Event>, memory: seq<Event>, jsonl: seq<Event>, q: Query): Event -> bool {
    Both(Wanted(Held(rows, jsonl, Everything), memory, Everything), Window(q))
  }

  lemma PartAgreesIff(log: seq<Event>, rows: seq<Event>, memory: seq<Event>, jsonl: seq<Event>, q: Query)
    requires IsLog(log) && From(log, rows) && From(log, jsonl)
    ensures (forall e :: e in log ==>
               Wanted(Held(rows, jsonl, q), memory, q)(e) == PartOfWhole(rows, memory, jsonl, q)(e))
       <==> !FileHasMore(rows, memory, jsonl, q)
  {
    HeldOfEverything(log, rows, jsonl);
    AllPositive(log);
    if rows != [] && Filter(rows, Window(q)) == [] {
      FileAnswersAlone(log, rows, memory, jsonl, q);
    }
  }

  lemma AllPositive(log: seq<Event>)
    requires IsLog(log)
    ensures forall e :: e in log ==> e.number >= 1
  {
    forall e | e in log
      ensures e.number >= 1
    {
      InLog(log, e);
    }
  }

  /** Without a limit, loading a window gives that part of what loading everything
      gives, if and only if the store, when it holds something, holds some of the
      window, or the file has nothing to add there. */
  lemma WindowIsPartOfTheWholeIff(
    log: seq<Event>, rows: seq<Event>, memory: seq<Event>, jsonl: seq<Event>, q: Query)
    requires IsLog(log) && From(log, rows) && From(log, memory) && From(log, jsonl) && NoRepeats(rows)
    requires q.limit.None?
    ensures LoadEvents(rows, memory, jsonl, q) == Filter(LoadEvents(rows, memory, jsonl, Everything), Window(q))
       <==> !FileHasMore(rows, memory, jsonl, q)
  {
    PositiveLimitIsExact(log, rows, memory, jsonl, q);
    PositiveLimitIsExact(log, rows, memory, jsonl, Everything);
    var whole := Wanted(Held(rows, jsonl, Everything), memory, Everything);
    FilterFilter(log, whole, Window(q), PartOfWhole(rows, memory, jsonl, q));
    FilterAgreeIff(log, Wanted(Held(rows, jsonl, q), memory, q), PartOfWhole(rows, memory, jsonl, q));
    PartAgreesIff(log, rows, memory, jsonl, q);
  }

  /** A window without rows is answered from the file, the whole from the store. */
  lemma FileAnswersAlone(log: seq<Event>, rows: seq<Event>, memory: seq<Event>, jsonl: seq<Event>, q: Query)
    requires IsLog(log) && From(log, rows) && From(log, jsonl) && rows != [] && Filter(rows, Window(q)) == []
    ensures forall e :: e in log ==> (Wanted(Held(rows, jsonl, q), memory, q)(e)
                                      <==> InWindow(q, e) && (e in jsonl || e in memory))
    ensures forall e :: e in log ==> (PartOfWhole(rows, memory, jsonl, q)(e) <==> InWindow(q, e) && e in memory)
    ensures forall e :: e in jsonl ==> e in log
  {
    FilterMembers(rows, Window(q));
    HeldOfEverything(log, rows, jsonl);
    AllPositive(log);
  }

  lemma FilterOne(a: Event, p: Event -> bool)
    ensures Filter([a], p) == if p(a) then [a] else []
  {
    assert [a][..0] == [];
  }

  lemma FilterTwo(a: Event, b: Event, p: Event -> bool)
    ensures Filter([a, b], p) == (if p(a) then [a] else []) + (if p(b) then [b] else [])
  {
    assert [a, b][..1] == [a];
    FilterOne(a, p);
  }

  /** The store missed the first of two events that the file holds: loading
      everything gives the second alone, loading what is before it the first. */
  lemma StoreHidesTheFile(a: Event, b: Event)
    requires IsLog([a, b])
    ensures LoadEvents([b], [], [a, b], Everything) == [b]
    ensures LoadEvents([b], [], [a, b], Query(0, Some(b.number), None)) == [a]
  {
    assert [a, b][0] == a && [a, b][1] == b && a.number < b.number;
    LoadFromTwo(a, b, Everything);
    LoadFromTwo(a, b, Query(0, Some(b.number), None));
  }

  lemma LoadFromTwo(a: Event, b: Event, q: Query)
    requires IsLog([a, b]) && q.limit.None?
    ensures LoadEvents([b], [], [a, b], q)
         == if InWindow(q, b) then [b] else if InWindow(q, a) then [a] else []
  {
    var log := [a, b];
    PositiveLimitIsExact(log, [b], [], log, q);
    FilterOne(b, Window(q));
    FilterTwo(a, b, Wanted(Held([b], log, q), [], q));
    assert log[0] == a && log[1] == b && log[0].number < log[1].number;
  }
}

/** The retrieval cache of `app/tools/retrieval_cache.py`: what each region
    under the lock does to the shared dictionaries. */
module RetrievalCache {
  import opened Common
  import opened Sorting

  const MAX_ENTRIES: nat := 256

  datatype Kind = Search | Fetch

  datatype Slot = Slot(kind: Kind, key: string)

  /** What a producer may return; `None` of the original is `Nothing`. */
  datatype Value = Nothing | Something(text: string)

  datatype Row = Row(key: string, stamp: int, value: Value)

  datatype Result = Returned(value: Value) | Raised(error: string)

  /** A future, with the slot and the call it was made for. */
  datatype Future = Future(slot: Slot, leader: nat, result: Option<Result>)

  datatype Shared = Shared(
    search: seq<Row>, fetch: seq<Row>, inflight: map<Slot, nat>, futures: seq<Future>)

  function StoreOf(s: Shared, kind: Kind): seq<Row> {
    if kind.Search? then s.search else s.fetch
  }

  function WithStore(s: Shared, kind: Kind, rows: seq<Row>): Shared {
    if kind.Search? then s.(search := rows) else s.(fetch := rows)
  }

  // ---------------------------------------------------------------- rows

  function WithKey(key: string): Row -> bool { (r: Row) => r.key == key }

  function RowIndex(rows: seq<Row>, key: string): (i: nat)
    ensures i <= |rows|
    ensures i < |rows| ==> rows[i].key == key
  {
    FirstIndexIsFirst(rows, WithKey(key));
    FirstIndex(rows, WithKey(key))
  }

  /** `_get_fresh`: the row's value if it is fresh; a stale row is dropped. */
  function FreshValue(rows: seq<Row>, key: string, ttl: int, now: int): Value {
    var i := RowIndex(rows, key);
    if i == |rows| || now - rows[i].stamp > ttl then Nothing else rows[i].value
  }

  function AfterLookup(rows: seq<Row>, key: string, ttl: int, now: int): seq<Row> {
    var i := RowIndex(rows, key);
    if i < |rows| && now - rows[i].stamp > ttl then RemoveAt(rows, i) else rows
  }

  function PutRow(rows: seq<Row>, row: Row): seq<Row> {
    var i := RowIndex(rows, row.key);
    if i < |rows| then rows[i := row] else rows + [row]
  }

  function Stamp(): Row -> int { (r: Row) => r.stamp }

  function DropKeys(rows: seq<Row>, keys: set<string>): seq<Row> {
    if |rows| == 0 then []
    else
      var last := rows[|rows| - 1];
      DropKeys(rows[..|rows| - 1], keys) + (if last.key in keys then [] else [last])
  }

  function KeysOf(rows: seq<Row>): set<string> { set i | 0 <= i < |rows| :: rows[i].key }

  /** The rows `_evict` drops: the older half of an overfull store. */
  function Oldest(rows: seq<Row>): seq<Row> {
    StableSort(rows, Stamp())[..Min(|rows|, Max(1, |rows| / 2))]
  }

  function Evict(rows: seq<Row>): seq<Row> {
    if |rows| <= MAX_ENTRIES then rows else DropKeys(rows, KeysOf(Oldest(rows)))
  }

  predicate DistinctKeys(rows: seq<Row>) {
    forall i, j :: 0 <= i < j < |rows| ==> rows[i].key != rows[j].key
  }

  // ------------------------------------------------------- lock regions

  datatype Entered = Hit(value: Value) | Follow(future: nat) | Lead(future: nat)

  /** First region: a hit, an existing future to wait for, or a new future. */
  function EnterOutcome(s: Shared, slot: Slot, ttl: int, now: int): Entered {
    var value := FreshValue(StoreOf(s, slot.kind), slot.key, ttl, now);
    if value != Nothing then Hit(value)
    else if slot in s.inflight then Follow(s.inflight[slot])
    else Lead(|s.futures|)
  }

  function AfterEnter(s: Shared, slot: Slot, call: nat, ttl: int, now: int): Shared {
    var looked := WithStore(s, slot.kind, AfterLookup(StoreOf(s, slot.kind), slot.key, ttl, now));
    if EnterOutcome(s, slot, ttl, now).Lead? then
      looked.(futures := s.futures + [Future(slot, call, None)], inflight := s.inflight[slot := |s.futures|])
    else looked
  }

  function Resolve(s: Shared, future: nat, result: Result): Shared
    requires future < |s.futures|
  {
    s.(futures := s.futures[future := s.futures[future].(result := Some(result))])
  }

  /** Region after the producer returned: store, evict, resolve. */
  function AfterPublish(s: Shared, slot: Slot, future: nat, value: Value, now: int): Shared
    requires future < |s.futures|
  {
    var rows := Evict(PutRow(StoreOf(s, slot.kind), Row(slot.key, now, value)));
    Resolve(WithStore(s, slot.kind, rows), future, Returned(value))
  }

  /** The `finally` region: whatever future is registered for the slot goes. */
  function AfterLeave(s: Shared, slot: Slot): Shared {
    s.(inflight := s.inflight - {slot})
  }

  // ------------------------------------------------------ eviction lemmas

  lemma RowIndexSpec(rows: seq<Row>, key: string)
    ensures forall j :: 0 <= j < RowIndex(rows, key) ==> rows[j].key != key
  {
    FirstIndexIsFirst(rows, WithKey(key));
  }

  lemma PutRowDistinct(rows: seq<Row>, row: Row)
    requires DistinctKeys(rows)
    ensures DistinctKeys(PutRow(rows, row))
    ensures RowIndex(rows, row.key) < |rows| ==> |PutRow(rows, row)| == |rows|
    ensures forall r :: r in PutRow(rows, row) <==> r == row || (r in rows && r.key != row.key)
  {
    RowIndexSpec(rows, row.key);
    var put := PutRow(rows, row);
    var i := RowIndex(rows, row.key);
    forall r | r in put
      ensures r == row || (r in rows && r.key != row.key)
    {
      var j :| 0 <= j < |put| && put[j] == r;
      if j < |rows| && j != i {
        assert rows[j] == r;
      }
    }
    forall r | r in rows && r.key != row.key
      ensures r in put
    {
      var j :| 0 <= j < |rows| && rows[j] == r;
      assert put[j] == r;
    }
    assert put[i] == row;
  }

  lemma {:induction false} DropKeysMembers(rows: seq<Row>, keys: set<string>)
    ensures forall r :: r in DropKeys(rows, keys) <==> r in rows && r.key !in keys
    ensures |DropKeys(rows, keys)| <= |rows|
    ensures DistinctKeys(rows) ==> DistinctKeys(DropKeys(rows, keys))
  {
    if |rows| > 0 {
      var rest, last := rows[..|rows| - 1], rows[|rows| - 1];
      DropKeysMembers(rest, keys);
      assert rows == rest + [last];
      if DistinctKeys(rows) {
        forall i | 0 <= i < |DropKeys(rest, keys)|
          ensures DropKeys(rest, keys)[i].key != last.key
        {
          assert DropKeys(rest, keys)[i] in rest;
        }
      }
    }
  }

  lemma {:induction false} DropKeysInsert(rows: seq<Row>, x: Row, keys: set<string>)
    ensures |DropKeys(Insert(rows, x, Stamp()), keys)| == |DropKeys(rows, keys)| + (if x.key in keys then 0 else 1)
  {
    if |rows| == 0 || rows[|rows| - 1].stamp <= x.stamp {
      assert (rows + [x])[..|rows|] == rows;
    } else {
      var rest, last := rows[..|rows| - 1], rows[|rows| - 1];
      DropKeysInsert(rest, x, keys);
      assert (Insert(rest, x, Stamp()) + [last])[..|rows|] == Insert(rest, x, Stamp());
    }
  }

  lemma {:induction false} DropKeysSort(rows: seq<Row>, keys: set<string>)
    ensures |DropKeys(StableSort(rows, Stamp()), keys)| == |DropKeys(rows, keys)|
  {
    if |rows| > 0 {
      DropKeysSort(rows[..|rows| - 1], keys);
      DropKeysInsert(StableSort(rows[..|rows| - 1], Stamp()), rows[|rows| - 1], keys);
    }
  }

  lemma {:induction false} InsertDistinct(rows: seq<Row>, x: Row)
    requires DistinctKeys(rows) && forall r :: r in rows ==> r.key != x.key
    ensures DistinctKeys(Insert(rows, x, Stamp()))
  {
    if |rows| > 0 && rows[|rows| - 1].stamp > x.stamp {
      var rest, last := rows[..|rows| - 1], rows[|rows| - 1];
      InsertDistinct(rest, x);
      InsertMembers(rest, x, Stamp());
      var put := Insert(rest, x, Stamp());
      forall i | 0 <= i < |put|
        ensures put[i].key != last.key
      {
        assert put[i] in put;
      }
    }
  }

  lemma {:induction false} SortDistinct(rows: seq<Row>)
    requires DistinctKeys(rows)
    ensures DistinctKeys(StableSort(rows, Stamp()))
  {
    if |rows| > 0 {
      var rest := rows[..|rows| - 1];
      SortDistinct(rest);
      SortMembers(rest, Stamp());
      InsertDistinct(StableSort(rest, Stamp()), rows[|rows| - 1]);
    }
  }

  /** With distinct keys, dropping the keys of a prefix leaves the suffix. */
  lemma {:induction false} DropPrefix(rows: seq<Row>, n: nat, m: nat)
    requires DistinctKeys(rows) && n <= m <= |rows|
    ensures |DropKeys(rows[..m], KeysOf(rows[..n]))| == m - n
  {
    if m > 0 {
      assert rows[..m][..m - 1] == rows[..m - 1];
      if m > n {
        DropPrefix(rows, n, m - 1);
        assert rows[m - 1].key !in KeysOf(rows[..n]);
      } else {
        DropAll(rows[..m], KeysOf(rows[..n]));
      }
    }
  }

  lemma {:induction false} DropAll(rows: seq<Row>, keys: set<string>)
    requires KeysOf(rows) <= keys
    ensures DropKeys(rows, keys) == []
  {
    if |rows| > 0 {
      assert rows[|rows| - 1].key in KeysOf(rows);
      forall k | k in KeysOf(rows[..|rows| - 1])
        ensures k in keys
      {
        var i :| 0 <= i < |rows| - 1 && rows[..|rows| - 1][i].key == k;
        assert rows[i].key in KeysOf(rows);
      }
      DropAll(rows[..|rows| - 1], keys);
    }
  }

  /** Eviction keeps rows, drops exactly the older half when the store is
      overfull, and drops nothing newer than what it keeps. */
  lemma EvictionDropsOldest(rows: seq<Row>)
    requires DistinctKeys(rows)
    ensures DistinctKeys(Evict(rows))
    ensures forall r :: r in Evict(rows) ==> r in rows
    ensures |Evict(rows)| == if |rows| <= MAX_ENTRIES then |rows| else |rows| - |rows| / 2
    ensures forall x, y :: x in rows && x !in Evict(rows) && y in Evict(rows) ==> x.stamp <= y.stamp
  {
    if |rows| > MAX_ENTRIES {
      DropKeysMembers(rows, KeysOf(Oldest(rows)));
      EvictedCount(rows);
      forall x, y | x in rows && x !in Evict(rows) && y in Evict(rows)
        ensures x.stamp <= y.stamp
      {
        DroppedIsOlder(rows, x, y);
      }
    }
  }

  lemma EvictedCount(rows: seq<Row>)
    requires DistinctKeys(rows) && |rows| > MAX_ENTRIES
    ensures |Evict(rows)| == |rows| - |rows| / 2
  {
    var sorted, n := StableSort(rows, Stamp()), |rows| / 2;
    SortDistinct(rows);
    SortMembers(rows, Stamp());
    assert Oldest(rows) == sorted[..n];
    DropKeysSort(rows, KeysOf(sorted[..n]));
    DropPrefix(sorted, n, |sorted|);
    assert sorted[..|sorted|] == sorted;
  }

  lemma DroppedIsOlder(rows: seq<Row>, x: Row, y: Row)
    requires DistinctKeys(rows) && |rows| > MAX_ENTRIES
    requires x in rows && x !in Evict(rows) && y in Evict(rows)
    ensures x.stamp <= y.stamp
  {
    var sorted, n := StableSort(rows, Stamp()), |rows| / 2;
    assert Oldest(rows) == sorted[..n];
    DropKeysMembers(rows, KeysOf(sorted[..n]));
    SortDistinct(rows);
    SortMembers(rows, Stamp());
    SortSorted(rows, Stamp());
    OlderHalf(sorted, n, x, y);
  }

  lemma OlderHalf(sorted: seq<Row>, n: nat, x: Row, y: Row)
    requires SortedBy(sorted, Stamp()) && DistinctKeys(sorted) && n <= |sorted|
    requires x in sorted && y in sorted && x.key in KeysOf(sorted[..n]) && y.key !in KeysOf(sorted[..n])
    ensures x.stamp <= y.stamp
  {
    var i :| 0 <= i < |sorted| && sorted[i] == x;
    var j :| 0 <= j < |sorted| && sorted[j] == y;
    assert forall m :: 0 <= m < n ==> sorted[..n][m] == sorted[m] && sorted[m].key in KeysOf(sorted[..n]);
    var k :| 0 <= k < n && sorted[..n][k].key == x.key;
    assert i == k;
    assert Stamp()(sorted[i]) <= Stamp()(sorted[j]);
  }

  lemma NewestSortsLast(rows: seq<Row>, row: Row)
    requires forall r :: r in rows ==> r.stamp <= row.stamp
    ensures StableSort(rows + [row], Stamp()) == StableSort(rows, Stamp()) + [row]
  {
    var put, before := rows + [row], StableSort(rows, Stamp());
    assert put[..|rows|] == rows && put[|rows|] == row;
    SortMembers(rows, Stamp());
    if |before| > 0 {
      assert before[|before| - 1] in before;
    }
  }

  /** A row that is appended last and is at least as new as all others is the
      last in the sort, so it survives ... */
  lemma NewestIsKept(rows: seq<Row>, row: Row)
    requires |rows| >= MAX_ENTRIES && forall r :: r in rows ==> r.stamp <= row.stamp && r.key != row.key
    ensures row in Evict(rows + [row])
  {
    var put, before := rows + [row], StableSort(rows, Stamp());
    var n := |put| / 2;
    SortMembers(rows, Stamp());
    NewestSortsLast(rows, row);
    assert Oldest(put) == before[..n];
    forall i | 0 <= i < n
      ensures before[..n][i].key != row.key
    {
      assert before[i] in before;
    }
    DropKeysMembers(put, KeysOf(before[..n]));
    assert put[|rows|] == row;
  }

  /** ... and an overwritten row causes no eviction. */
  lemma NewRowSurvives(rows: seq<Row>, row: Row)
    requires DistinctKeys(rows) && |rows| <= MAX_ENTRIES
    requires forall r :: r in rows ==> r.stamp <= row.stamp
    ensures row in Evict(PutRow(rows, row))
    ensures |Evict(PutRow(rows, row))| <= MAX_ENTRIES
  {
    var put := PutRow(rows, row);
    PutRowDistinct(rows, row);
    if |put| > MAX_ENTRIES {
      EvictedCount(put);
      RowIndexSpec(rows, row.key);
      NewestIsKept(rows, row);
    }
  }
}

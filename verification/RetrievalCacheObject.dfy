/** The module-level dictionaries of the retrieval cache as an object; each
    method is one region under the lock. */
module RetrievalCacheObject {
  import opened Common
  import opened Sorting
  import opened RetrievalCache

  function PopRow(rows: seq<Row>, key: string): seq<Row> {
    var i := RowIndex(rows, key);
    if i < |rows| then RemoveAt(rows, i) else rows
  }

  lemma {:induction false} DropNothing(rows: seq<Row>)
    ensures DropKeys(rows, {}) == rows
  {
    if |rows| > 0 {
      var rest, last := rows[..|rows| - 1], rows[|rows| - 1];
      DropNothing(rest);
      assert DropKeys(rows, {}) == rest + [last];
    }
  }

  lemma {:induction false} RowIndexAppend(rows: seq<Row>, x: Row, key: string)
    ensures RowIndex(rows + [x], key)
         == if RowIndex(rows, key) < |rows| then RowIndex(rows, key) else if x.key == key then |rows| else |rows| + 1
  {
    if |rows| > 0 && rows[0].key != key {
      RowIndexAppend(rows[1..], x, key);
      assert (rows + [x])[1..] == rows[1..] + [x];
    }
  }

  /** Popping one more key from what is left drops one more key. */
  lemma {:induction false} PopDropped(rows: seq<Row>, keys: set<string>, key: string)
    requires DistinctKeys(rows)
    ensures PopRow(DropKeys(rows, keys), key) == DropKeys(rows, keys + {key})
  {
    if |rows| > 0 {
      var rest, last := rows[..|rows| - 1], rows[|rows| - 1];
      PopDropped(rest, keys, key);
      var left := DropKeys(rest, keys);
      if last.key !in keys {
        DropKeysMembers(rest, keys);
        if last.key == key {
          forall r | r in left
            ensures r.key != key
          {
            assert r in rest;
          }
        }
        PopAppended(left, last, key);
      } else {
        assert left + [] == left;
      }
    }
  }

  /** Popping from an appended row: that row itself, or one before it. */
  lemma PopAppended(left: seq<Row>, last: Row, key: string)
    requires last.key == key ==> forall r :: r in left ==> r.key != key
    ensures last.key == key ==> PopRow(left + [last], key) == left && PopRow(left, key) == left
    ensures last.key != key ==> PopRow(left + [last], key) == PopRow(left, key) + [last]
  {
    RowIndexAppend(left, last, key);
    var i := RowIndex(left, key);
    if i < |left| {
      assert left[i] in left;
      assert RemoveAt(left + [last], i) == RemoveAt(left, i) + [last];
    } else if last.key == key {
      assert RemoveAt(left + [last], |left|) == left;
    }
  }

  lemma OneMoreKey(rows: seq<Row>, i: nat)
    requires i < |rows|
    ensures KeysOf(rows[..i + 1]) == KeysOf(rows[..i]) + {rows[i].key}
  {
    assert rows[..i + 1] == rows[..i] + [rows[i]];
    assert rows[..i + 1][i].key in KeysOf(rows[..i + 1]);
    forall k | k in KeysOf(rows[..i])
      ensures k in KeysOf(rows[..i + 1])
    {
      var j :| 0 <= j < i && rows[..i][j].key == k;
      assert rows[..i + 1][j].key == k;
    }
  }

  class Cache {
    var search: seq<Row>
    var fetch: seq<Row>
    var inflight: map<Slot, nat>
    var futures: seq<Future>

    ghost function View(): Shared
      reads this
    {
      Shared(search, fetch, inflight, futures)
    }

    constructor ()
      ensures View() == Shared([], [], map[], [])
    {
      search, fetch, inflight, futures := [], [], map[], [];
    }

    function Rows(kind: Kind): seq<Row>
      reads this
    {
      if kind.Search? then search else fetch
    }

    method SetRows(kind: Kind, rows: seq<Row>)
      modifies this
      ensures View() == WithStore(old(View()), kind, rows)
    {
      if kind.Search? {
        search := rows;
      } else {
        fetch := rows;
      }
    }

    method GetFresh(slot: Slot, ttl: int, now: int) returns (value: Value)
      modifies this
      ensures value == FreshValue(StoreOf(old(View()), slot.kind), slot.key, ttl, now)
      ensures View() == WithStore(old(View()), slot.kind,
                                  AfterLookup(StoreOf(old(View()), slot.kind), slot.key, ttl, now))
    {
      var rows := Rows(slot.kind);
      var i := RowIndex(rows, slot.key);
      if i == |rows| {
        return Nothing;
      }
      if now - rows[i].stamp > ttl {
        SetRows(slot.kind, RemoveAt(rows, i));
        return Nothing;
      }
      return rows[i].value;
    }

    method Enter(slot: Slot, call: nat, ttl: int, now: int) returns (entered: Entered)
      modifies this
      ensures entered == EnterOutcome(old(View()), slot, ttl, now)
      ensures View() == AfterEnter(old(View()), slot, call, ttl, now)
    {
      var value := GetFresh(slot, ttl, now);
      if value != Nothing {
        return Hit(value);
      }
      if slot in inflight {
        return Follow(inflight[slot]);
      }
      inflight := inflight[slot := |futures|];
      futures := futures + [Future(slot, call, None)];
      return Lead(|futures| - 1);
    }

    /** The loop of `_evict`, popping the older half key by key. */
    method EvictRows(rows: seq<Row>) returns (left: seq<Row>)
      requires DistinctKeys(rows)
      ensures left == Evict(rows)
    {
      if |rows| <= MAX_ENTRIES {
        return rows;
      }
      var ordered := StableSort(rows, Stamp());
      var half := Max(1, |ordered| / 2);
      left := rows;
      DropNothing(rows);
      assert KeysOf(ordered[..0]) == {};
      for i := 0 to half
        invariant left == DropKeys(rows, KeysOf(ordered[..i]))
      {
        PopDropped(rows, KeysOf(ordered[..i]), ordered[i].key);
        OneMoreKey(ordered, i);
        left := PopRow(left, ordered[i].key);
      }
    }

    method Publish(slot: Slot, future: nat, value: Value, now: int)
      requires future < |futures| && DistinctKeys(Rows(slot.kind))
      modifies this
      ensures View() == AfterPublish(old(View()), slot, future, value, now)
    {
      PutRowDistinct(Rows(slot.kind), Row(slot.key, now, value));
      var rows := EvictRows(PutRow(Rows(slot.kind), Row(slot.key, now, value)));
      SetRows(slot.kind, rows);
      futures := futures[future := futures[future].(result := Some(Returned(value)))];
    }

    method Fail(future: nat, error: string)
      requires future < |futures|
      modifies this`futures
      ensures View() == Resolve(old(View()), future, Raised(error))
    {
      futures := futures[future := futures[future].(result := Some(Raised(error)))];
    }

    method Leave(slot: Slot)
      modifies this`inflight
      ensures View() == AfterLeave(old(View()), slot)
    {
      inflight := inflight - {slot};
    }

    method Clear()
      modifies this
      ensures View() == Shared([], [], map[], old(View().futures))
    {
      search, fetch, inflight := [], [], map[];
    }
  }
}

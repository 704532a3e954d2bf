/** The projection store of one run as an object, and `load_events` on it. */
module ProjectionStore {
  import opened Common
  import opened Events
  import opened Sorting
  import opened Text
  import opened Replay
  import Projections

  /** The table key of a row within its run. */
  function RowKey(e: Event): (nat, string) { (e.number, e.eventId) }

  function DropRow(rows: seq<Event>, key: (nat, string)): seq<Event> {
    if |rows| == 0 then []
    else
      var last := rows[|rows| - 1];
      DropRow(rows[..|rows| - 1], key) + (if RowKey(last) == key then [] else [last])
  }

  /** Insert or replace. */
  function Upsert(rows: seq<Event>, e: Event): seq<Event> { DropRow(rows, RowKey(e)) + [e] }

  lemma {:induction false} DropRowMembers(rows: seq<Event>, key: (nat, string))
    ensures forall e :: e in DropRow(rows, key) <==> e in rows && RowKey(e) != key
  {
    if |rows| > 0 {
      DropRowMembers(rows[..|rows| - 1], key);
      assert rows == rows[..|rows| - 1] + [rows[|rows| - 1]];
    }
  }

  lemma {:induction false} DropRowNoRepeats(rows: seq<Event>, key: (nat, string))
    requires NoRepeats(rows)
    ensures NoRepeats(DropRow(rows, key))
  {
    if |rows| > 0 {
      var rest, last := rows[..|rows| - 1], rows[|rows| - 1];
      DropRowNoRepeats(rest, key);
      DropRowMembers(rest, key);
      var kept := DropRow(rest, key);
      forall i | 0 <= i < |kept|
        ensures kept[i] != last
      {
        assert kept[i] in rest;
      }
    }
  }

  /** An event replaces the rows of its number and id, and leaves all others. */
  lemma UpsertReplaces(rows: seq<Event>, e: Event)
    ensures forall x :: x in Upsert(rows, e)
                   <==> x == e || (x in rows && (x.number != e.number || x.eventId != e.eventId))
  {
    DropRowMembers(rows, RowKey(e));
  }

  /** Appending the next event of the log keeps the store complete, and no row
      is ever there twice. */
  lemma UpsertKeepsLog(log: seq<Event>, rows: seq<Event>, e: Event)
    requires IsLog(log + [e]) && From(log, rows) && From(rows, log) && NoRepeats(rows)
    ensures From(log + [e], Upsert(rows, e)) && From(Upsert(rows, e), log + [e]) && NoRepeats(Upsert(rows, e))
  {
    assert (log + [e])[|log|] == e;
    assert forall i :: 0 <= i < |log| ==> (log + [e])[i] == log[i];
    forall x | x in rows
      ensures RowKey(x) != RowKey(e) && x != e
    {
      var i :| 0 <= i < |log| && log[i] == x;
      assert (log + [e])[i].number < (log + [e])[|log|].number;
    }
    DropRowMembers(rows, RowKey(e));
    DropRowNoRepeats(rows, RowKey(e));
  }

  class Store<B> {
    var rows: seq<Event>
    var table: map<Projections.Kind, Projections.Cached<B>>

    constructor ()
      ensures rows == [] && table == map[]
    {
      rows, table := [], map[];
    }

    /** Appending an event drops every projection of the run. */
    method Append(e: Event)
      modifies this
      ensures rows == Upsert(old(rows), e) && table == map[]
    {
      rows := Upsert(rows, e);
      table := map[];
    }

    /** Filter, order, limit; descending queries are reversed afterwards. */
    method EventsFor(q: Query) returns (found: seq<Event>)
      ensures found == StoreQuery(rows, q)
    {
      var selected := [];
      for i := 0 to |rows|
        invariant selected == Filter(rows[..i], Window(q))
      {
        assert rows[..i + 1] == rows[..i] + [rows[i]];
        FilterAppend(rows[..i], rows[i], Window(q));
        if InWindow(q, rows[i]) {
          selected := selected + [rows[i]];
        }
      }
      assert rows[..|rows|] == rows;
      var ordered := StableSort(selected, Number());
      if q.limit.None? || q.limit.value >= |ordered| {
        found := ordered;
      } else if FromEnd(q) {
        found := ordered[|ordered| - q.limit.value..];
      } else {
        found := ordered[..q.limit.value];
      }
    }

    method MaxSeqOf() returns (m: nat)
      ensures m == Projections.MaxSeq(rows)
    {
      m := 0;
      for i := 0 to |rows|
        invariant m == Projections.MaxSeq(rows[..i])
      {
        assert rows[..i + 1][..i] == rows[..i];
        if rows[i].number > m {
          m := rows[i].number;
        }
      }
      assert rows[..|rows|] == rows;
    }

    /** `maxSeq` was read by an earlier statement. */
    method GetProjection(kind: Projections.Kind, maxSeq: nat) returns (found: Option<Projections.Payload<B>>)
      ensures found == if kind in table && table[kind].maxSeq == maxSeq then Some(table[kind].payload) else None
    {
      if kind in table && table[kind].maxSeq == maxSeq {
        return Some(table[kind].payload);
      }
      return None;
    }

    method PutProjection(kind: Projections.Kind, payload: Projections.Payload<B>)
      modifies this`table
      ensures table == old(table)[kind := Projections.Cached(Projections.MaxSeq(rows), payload)]
    {
      var m := MaxSeqOf();
      table := table[kind := Projections.Cached(m, payload)];
    }

    /** `load_events` for this run. */
    method Load(memory: seq<Event>, jsonl: seq<Event>, q: Query) returns (events: seq<Event>)
      ensures events == LoadEvents(rows, memory, jsonl, q)
    {
      var durable := EventsFor(q);
      if durable == [] {
        durable := jsonl;
      }
      var merged := MergeGroups(durable + memory);
      var clipped := Clip(merged, q);
      events := TakeLimit(StableSort(clipped, Number()), q);
    }
  }

  /** The two optional bounds. */
  method Clip(events: seq<Event>, q: Query) returns (clipped: seq<Event>)
    ensures clipped == Filter(Filter(events, After(q)), Before(q))
  {
    clipped := events;
    if q.after != 0 {
      clipped := Keep(clipped, After(q));
    } else {
      AllKept(clipped, After(q));
    }
    if q.before.Some? {
      clipped := Keep(clipped, Before(q));
    } else {
      AllKept(clipped, Before(q));
    }
  }

  method TakeLimit(events: seq<Event>, q: Query) returns (taken: seq<Event>)
    ensures taken == Slice(q, events)
  {
    taken := events;
    if q.limit.Some? {
      if FromEnd(q) {
        if 0 < q.limit.value < |events| {
          taken := events[|events| - q.limit.value..];
        }
      } else if q.limit.value < |events| {
        taken := events[..q.limit.value];
      }
    }
  }

  method Keep(events: seq<Event>, p: Event -> bool) returns (kept: seq<Event>)
    ensures kept == Filter(events, p)
  {
    kept := [];
    for i := 0 to |events|
      invariant kept == Filter(events[..i], p)
    {
      assert events[..i + 1] == events[..i] + [events[i]];
      FilterAppend(events[..i], events[i], p);
      if p(events[i]) {
        kept := kept + [events[i]];
      }
    }
    assert events[..|events|] == events;
  }

  /** `_merge_last_wins`: a later event replaces an earlier one of its key. */
  method MergeGroups(events: seq<Event>) returns (merged: seq<Event>)
    ensures merged == MergeLastWins(events)
  {
    var byId: seq<Event>, anonymous: seq<Event> := [], [];
    for n := 0 to |events|
      invariant Merge(byId, anonymous) == MergeAll(events[..n])
    {
      assert events[..n + 1][..n] == events[..n];
      var e := events[n];
      if Blank(e.eventId) {
        anonymous := anonymous + [e];
      } else {
        var i := KeyIndex(byId, KeyOf(e));
        if i < |byId| {
          byId := byId[i := e];
        } else {
          byId := byId + [e];
        }
      }
    }
    assert events[..|events|] == events;
    merged := StableSort(byId + anonymous, Number());
  }
}

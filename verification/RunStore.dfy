/** The run table as an object (`app/run_store/service.py`): every method
    rewrites the columns of one row.  The clock reading of a call is a parameter. */
module RunStore {
  import opened Common
  import opened PauseClock

  class Store {
    var rows: map<string, Row>
    const toMillis: Conversion

    constructor (toMillis: Conversion)
      ensures rows == map[] && this.toMillis == toMillis
    {
      rows, this.toMillis := map[], toMillis;
    }

    method CreateRun(id: string)
      modifies this
      ensures rows == old(rows)[id := NewRow]
    {
      rows := rows[id := NewRow];
    }

    /** `_iso_delta_ms`. */
    method DeltaMs(start: int, end: int) returns (delta: nat)
      ensures delta == Max0(toMillis(end - start))
    {
      var raw := toMillis(end - start);
      delta := if raw < 0 then 0 else raw;
    }

    method MarkRunning(id: string, now: int) returns (found: bool)
      modifies this
      ensures found <==> id in old(rows)
      ensures rows == AfterOp(old(rows), id, Op.MarkRunning, now, toMillis)
    {
      found := id in rows;
      if found {
        var row := rows[id];
        var started := if row.started.Some? then row.started else Some(now);
        rows := rows[id := row.(started := started, pauseStarted := None)];
      }
    }

    method SetHitl(id: string, pending: bool, now: int)
      modifies this
      ensures rows == AfterOp(old(rows), id, Op.SetHitl(pending), now, toMillis)
    {
      if id in rows {
        var row := rows[id];
        if !pending {
          rows := rows[id := row.(pauseStarted := None)];
        } else if row.pauseStarted.None? {
          rows := rows[id := row.(pauseStarted := Some(now))];
        }
      }
    }

    method ClearHitl(id: string, now: int)
      modifies this
      ensures rows == AfterOp(old(rows), id, Op.ClearHitl, now, toMillis)
    {
      if id in rows {
        var row := rows[id];
        var extra := 0;
        if row.pauseStarted.Some? {
          extra := DeltaMs(row.pauseStarted.value, now);
        }
        rows := rows[id := row.(pauseStarted := None, pausedTotalMs := row.pausedTotalMs + extra)];
      }
    }

    method CompleteRun(id: string, now: int)
      modifies this
      ensures rows == AfterOp(old(rows), id, Op.Complete, now, toMillis)
    {
      if id in rows {
        rows := rows[id := rows[id].(ended := Some(now), pauseStarted := None)];
      }
    }

    method MarkRecoverable(id: string, now: int)
      modifies this
      ensures rows == AfterOp(old(rows), id, Op.MarkRecoverable, now, toMillis)
    {
      if id in rows && rows[id].ended.None? {
        rows := rows[id := rows[id].(ended := Some(now))];
      }
    }
  }

  /** The operation on the one row it names, if there is one. */
  function AfterOp(rows: map<string, Row>, id: string, op: Op, now: int, ms: Conversion): map<string, Row> {
    if id in rows then rows[id := Update(rows[id], op, now, ms)] else rows
  }

  /** A sequence of operations, each on some run, with the clock readings. */
  datatype Call = Call(id: string, op: Op)

  function OneCall(rows: map<string, Row>, now: int, call: Call, ms: Conversion): (map<string, Row>, int) {
    if call.op.Tick? then (rows, now + call.op.micros) else (AfterOp(rows, call.id, call.op, now, ms), now)
  }

  function Calls(rows: map<string, Row>, now: int, calls: seq<Call>, ms: Conversion): (map<string, Row>, int) {
    if |calls| == 0 then (rows, now)
    else
      var (before, at) := Calls(rows, now, calls[..|calls| - 1], ms);
      OneCall(before, at, calls[|calls| - 1], ms)
  }

  /** What one run sees of the calls: its own operations and all the ticks. */
  function SeenBy(id: string, calls: seq<Call>): seq<Op> {
    if |calls| == 0 then []
    else
      var last := calls[|calls| - 1];
      SeenBy(id, calls[..|calls| - 1]) + (if Concerns(id, last) then [last.op] else [])
  }

  predicate Concerns(id: string, call: Call) { call.op.Tick? || call.id == id }

  ghost predicate RowIs(rows: map<string, Row>, now: int, id: string, w: World) {
    id in rows && rows[id] == w.row && now == w.now
  }

  lemma OneCallRow(rows: map<string, Row>, now: int, call: Call, id: string, w: World, ms: Conversion)
    requires RowIs(rows, now, id, w)
    ensures var (rows', now') := OneCall(rows, now, call, ms);
            RowIs(rows', now', id, if Concerns(id, call) then Do(w, call.op, ms) else w)
  {
  }

  lemma OneMoreOp(begin: int, ops: seq<Op>, op: Op, ms: Conversion)
    ensures Run(begin, ops + [op], ms) == Do(Run(begin, ops, ms), op, ms)
  {
    assert (ops + [op])[..|ops|] == ops;
  }

  /** Runs do not disturb one another: whatever happens to the other rows, the
      row of a run is that of its own operations alone, so what holds of one
      run's clock holds of every row of the table. */
  lemma {:induction false} RowsAreIndependent(
    rows: map<string, Row>, begin: int, calls: seq<Call>, id: string, ms: Conversion)
    requires id in rows && rows[id] == NewRow
    ensures var (after, now) := Calls(rows, begin, calls, ms);
            RowIs(after, now, id, Run(begin, SeenBy(id, calls), ms))
  {
    if |calls| > 0 {
      var rest, last := calls[..|calls| - 1], calls[|calls| - 1];
      RowsAreIndependent(rows, begin, rest, id, ms);
      var seen := SeenBy(id, rest);
      var (before, at) := Calls(rows, begin, rest, ms);
      OneCallRow(before, at, last, id, Run(begin, seen, ms), ms);
      if Concerns(id, last) {
        OneMoreOp(begin, seen, last.op, ms);
      } else {
        assert SeenBy(id, calls) == seen;
      }
    }
  }
}

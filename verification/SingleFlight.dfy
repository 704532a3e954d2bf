/** Single-flight calls as a concurrent protocol: any number of calls of
    `cached_call` take their lock regions in any order, under a clock that never
    goes back, and the cache may be cleared while nothing is in flight.  A call
    that started is a leader (it runs the producer), a follower (it waits for a
    leader's future) or done. */
module SingleFlight {
  import opened Common
  import opened RetrievalCache

  datatype Source = FromCache(stamp: int) | Led(future: nat) | Followed(future: nat)

  datatype Call =
    | Producing(slot: Slot, future: nat)
    | Leaving(slot: Slot, future: nat, result: Result)
    | Waiting(slot: Slot, future: nat)
    | Done(slot: Slot, result: Result, source: Source)

  /** One completed store into the cache. */
  datatype Stored = Stored(slot: Slot, stamp: int, value: Value)

  datatype State = State(shared: Shared, calls: map<nat, Call>, clock: int, history: seq<Stored>)

  const EmptyState: State := State(Shared([], [], map[], []), map[], 0, [])

  datatype Step =
    | Enter(call: nat, slot: Slot, ttl: int, now: int)
    | Publish(call: nat, value: Value, now: int)
    | Fail(call: nat, error: string)
    | Leave(call: nat)
    | Resume(call: nat)
    | Clear

  predicate Enabled(s: State, step: Step) {
    match step
    case Enter(c, _, _, now) => c !in s.calls && s.clock <= now
    case Publish(c, _, now) => c in s.calls && s.calls[c].Producing? && s.clock <= now
                               && s.calls[c].future < |s.shared.futures|
    case Fail(c, _) => c in s.calls && s.calls[c].Producing? && s.calls[c].future < |s.shared.futures|
    case Leave(c) => c in s.calls && s.calls[c].Leaving?
    case Resume(c) => c in s.calls && s.calls[c].Waiting? && s.calls[c].future < |s.shared.futures|
                      && s.shared.futures[s.calls[c].future].result.Some?
    case Clear => s.shared.inflight == map[]
  }

  /** `clear_retrieval_cache`. */
  function Cleared(s: State): State {
    s.(shared := s.shared.(search := [], fetch := [], inflight := map[]))
  }

  function StampOf(rows: seq<Row>, key: string): int {
    var i := RowIndex(rows, key);
    if i < |rows| then rows[i].stamp else 0
  }

  function AfterEntering(s: State, c: nat, slot: Slot, ttl: int, now: int): State {
    var call := match EnterOutcome(s.shared, slot, ttl, now)
                case Hit(value) =>
                  Done(slot, Returned(value), FromCache(StampOf(StoreOf(s.shared, slot.kind), slot.key)))
                case Follow(f) => Waiting(slot, f)
                case Lead(f) => Producing(slot, f);
    s.(shared := AfterEnter(s.shared, slot, c, ttl, now), calls := s.calls[c := call], clock := now)
  }

  function Next(s: State, step: Step): State {
    if !Enabled(s, step) then s
    else
      match step
      case Enter(c, slot, ttl, now) => AfterEntering(s, c, slot, ttl, now)
      case Publish(c, value, now) =>
        var slot, f := s.calls[c].slot, s.calls[c].future;
        s.(shared := AfterPublish(s.shared, slot, f, value, now),
           calls := s.calls[c := Leaving(slot, f, Returned(value))],
           clock := now, history := s.history + [Stored(slot, now, value)])
      case Fail(c, error) =>
        var slot, f := s.calls[c].slot, s.calls[c].future;
        s.(shared := Resolve(s.shared, f, Raised(error)), calls := s.calls[c := Leaving(slot, f, Raised(error))])
      case Leave(c) =>
        var call := s.calls[c];
        s.(shared := AfterLeave(s.shared, call.slot),
           calls := s.calls[c := Done(call.slot, call.result, Led(call.future))])
      case Resume(c) =>
        var slot, f := s.calls[c].slot, s.calls[c].future;
        s.(calls := s.calls[c := Done(slot, s.shared.futures[f].result.value, Followed(f))])
      case Clear => Cleared(s)
  }

  datatype Run = Begin | Then(before: Run, step: Step)

  function Final(r: Run): State {
    match r
    case Begin => EmptyState
    case Then(before, step) => Next(Final(before), step)
  }

  // ----------------------------------------------------------- invariants

  /** A registered future is led by a call that has not left yet. */
  predicate InflightLed(s: State, slot: Slot)
    requires slot in s.shared.inflight
  {
    var f := s.shared.inflight[slot];
    && f < |s.shared.futures|
    && s.shared.futures[f].slot == slot
    && s.shared.futures[f].leader in s.calls
    && (s.calls[s.shared.futures[f].leader].Producing? || s.calls[s.shared.futures[f].leader].Leaving?)
    && s.calls[s.shared.futures[f].leader].slot == slot
    && s.calls[s.shared.futures[f].leader].future == f
  }

  /** A call knows a future of its own slot, and its state tells the result. */
  predicate CallOk(s: State, c: nat)
    requires c in s.calls
  {
    match s.calls[c]
    case Producing(slot, f) => Leads(s, c, slot, f) && s.shared.futures[f].result == None
    case Leaving(slot, f, result) => Leads(s, c, slot, f) && s.shared.futures[f].result == Some(result)
    case Waiting(slot, f) => f < |s.shared.futures| && s.shared.futures[f].slot == slot
    case Done(slot, result, FromCache(_)) => true
    case Done(slot, result, Led(f)) =>
      && f < |s.shared.futures|
      && s.shared.futures[f] == Future(slot, c, Some(result))
    case Done(slot, result, Followed(f)) =>
      && f < |s.shared.futures|
      && s.shared.futures[f].slot == slot && s.shared.futures[f].result == Some(result)
  }

  predicate Leads(s: State, c: nat, slot: Slot, f: nat) {
    && f < |s.shared.futures| && slot in s.shared.inflight && s.shared.inflight[slot] == f
    && s.shared.futures[f].slot == slot && s.shared.futures[f].leader == c
  }

  /** The leader of an unresolved future is still running its producer; the
      leader of a resolved one is leaving or done with that very result. */
  predicate FutureOk(s: State, f: nat)
    requires f < |s.shared.futures|
  {
    var future := s.shared.futures[f];
    && future.leader in s.calls
    && match future.result
       case None => s.calls[future.leader] == Producing(future.slot, f)
       case Some(result) =>
         || s.calls[future.leader] == Leaving(future.slot, f, result)
         || s.calls[future.leader] == Done(future.slot, result, Led(f))
  }

  ghost predicate Inv(s: State) {
    && (forall slot :: slot in s.shared.inflight ==> InflightLed(s, slot))
    && (forall c :: c in s.calls ==> CallOk(s, c))
    && (forall f :: 0 <= f < |s.shared.futures| ==> FutureOk(s, f))
  }

  lemma EnterKeepsCalls(s: State, c: nat, slot: Slot, ttl: int, now: int, d: nat)
    requires Inv(s) && c !in s.calls && d in AfterEntering(s, c, slot, ttl, now).calls
    ensures CallOk(AfterEntering(s, c, slot, ttl, now), d)
  {
    if d != c {
      assert CallOk(s, d);
    } else if EnterOutcome(s.shared, slot, ttl, now).Follow? {
      assert InflightLed(s, slot);
    }
  }

  lemma EnterKeepsFutures(s: State, c: nat, slot: Slot, ttl: int, now: int, f: nat)
    requires Inv(s) && c !in s.calls && f < |AfterEntering(s, c, slot, ttl, now).shared.futures|
    ensures FutureOk(AfterEntering(s, c, slot, ttl, now), f)
  {
    if f < |s.shared.futures| {
      assert FutureOk(s, f);
    }
  }

  lemma EnterKeepsInflight(s: State, c: nat, slot: Slot, ttl: int, now: int, t: Slot)
    requires Inv(s) && c !in s.calls && t in AfterEntering(s, c, slot, ttl, now).shared.inflight
    ensures InflightLed(AfterEntering(s, c, slot, ttl, now), t)
  {
    if t in s.shared.inflight {
      assert InflightLed(s, t);
    }
  }

  lemma EnterKeepsInv(s: State, c: nat, slot: Slot, ttl: int, now: int)
    requires Inv(s) && c !in s.calls
    ensures Inv(AfterEntering(s, c, slot, ttl, now))
  {
    var s' := AfterEntering(s, c, slot, ttl, now);
    forall d | d in s'.calls
      ensures CallOk(s', d)
    {
      EnterKeepsCalls(s, c, slot, ttl, now, d);
    }
    forall f | 0 <= f < |s'.shared.futures|
      ensures FutureOk(s', f)
    {
      EnterKeepsFutures(s, c, slot, ttl, now, f);
    }
    forall t | t in s'.shared.inflight
      ensures InflightLed(s', t)
    {
      EnterKeepsInflight(s, c, slot, ttl, now, t);
    }
  }

  /** Resolving the future of a producing call. */
  lemma ResolveKeepsInv(s: State, c: nat, result: Result, s': State)
    requires Inv(s) && c in s.calls && s.calls[c].Producing?
    requires s.calls[c].future < |s.shared.futures|
    requires s'.calls == s.calls[c := Leaving(s.calls[c].slot, s.calls[c].future, result)]
    requires s'.shared.inflight == s.shared.inflight
    requires s'.shared.futures == Resolve(s.shared, s.calls[c].future, result).futures
    ensures Inv(s')
  {
    assert CallOk(s, c);
    var f0 := s.calls[c].future;
    forall d | d in s'.calls
      ensures CallOk(s', d)
    {
      assert CallOk(s, d);
    }
    forall f | 0 <= f < |s'.shared.futures|
      ensures FutureOk(s', f)
    {
      assert FutureOk(s, f);
    }
    forall t | t in s'.shared.inflight
      ensures InflightLed(s', t)
    {
      assert InflightLed(s, t);
    }
  }

  lemma LeaveKeepsInv(s: State, c: nat)
    requires Inv(s) && c in s.calls && s.calls[c].Leaving?
    ensures Inv(Next(s, Leave(c)))
  {
    var s' := Next(s, Leave(c));
    assert CallOk(s, c);
    forall d | d in s'.calls
      ensures CallOk(s', d)
    {
      assert CallOk(s, d);
    }
    forall f | 0 <= f < |s'.shared.futures|
      ensures FutureOk(s', f)
    {
      assert FutureOk(s, f);
    }
    forall t | t in s'.shared.inflight
      ensures InflightLed(s', t)
    {
      assert InflightLed(s, t);
    }
  }

  lemma ResumeKeepsInv(s: State, c: nat)
    requires Inv(s) && Enabled(s, Resume(c))
    ensures Inv(Next(s, Resume(c)))
  {
    var s' := Next(s, Resume(c));
    forall d | d in s'.calls
      ensures CallOk(s', d)
    {
      assert CallOk(s, d);
    }
    forall f | 0 <= f < |s'.shared.futures|
      ensures FutureOk(s', f)
    {
      assert FutureOk(s, f);
    }
    forall t | t in s'.shared.inflight
      ensures InflightLed(s', t)
    {
      assert InflightLed(s, t);
    }
  }

  lemma ClearedKeepsInv(s: State)
    requires Inv(s) && s.shared.inflight == map[]
    ensures Inv(Cleared(s))
  {
    forall c | c in s.calls
      ensures CallOk(Cleared(s), c)
    {
      assert CallOk(s, c);
    }
    forall f | 0 <= f < |s.shared.futures|
      ensures FutureOk(Cleared(s), f)
    {
      assert FutureOk(s, f);
    }
  }

  lemma StepKeepsInv(s: State, step: Step)
    requires Inv(s)
    ensures Inv(Next(s, step))
  {
    if Enabled(s, step) {
      match step
      case Enter(c, slot, ttl, now) => EnterKeepsInv(s, c, slot, ttl, now);
      case Publish(c, value, now) => ResolveKeepsInv(s, c, Returned(value), Next(s, step));
      case Fail(c, error) => ResolveKeepsInv(s, c, Raised(error), Next(s, step));
      case Leave(c) => LeaveKeepsInv(s, c);
      case Resume(c) => ResumeKeepsInv(s, c);
      case Clear => ClearedKeepsInv(s);
    }
  }

  lemma {:induction false} RunKeepsInv(r: Run)
    ensures Inv(Final(r))
  {
    if r.Then? {
      RunKeepsInv(r.before);
      StepKeepsInv(Final(r.before), r.step);
    }
  }

  // -------------------------------------------------------- main theorems

  predicate Leader(call: Call) { call.Producing? || call.Leaving? }

  /** At most one call at a time runs the producer, or is on its way out, for
      one kind and key. */
  lemma AtMostOneLeader(r: Run, c: nat, d: nat)
    requires c in Final(r).calls && d in Final(r).calls
    requires Leader(Final(r).calls[c]) && Leader(Final(r).calls[d])
    requires Final(r).calls[c].slot == Final(r).calls[d].slot
    ensures c == d
  {
    RunKeepsInv(r);
    assert CallOk(Final(r), c) && CallOk(Final(r), d);
  }

  /** A leader that leaves removes its own future and no other. */
  lemma LeaderRemovesItsOwnFuture(r: Run, c: nat)
    requires c in Final(r).calls && Final(r).calls[c].Leaving?
    ensures var s, s' := Final(r), Next(Final(r), Leave(c));
            var slot := s.calls[c].slot;
            && slot in s.shared.inflight && s.shared.inflight[slot] == s.calls[c].future
            && s.calls[c].future < |s.shared.futures| && s.shared.futures[s.calls[c].future].leader == c
            && s'.shared.inflight == s.shared.inflight - {slot}
  {
    RunKeepsInv(r);
    assert CallOk(Final(r), c);
  }

  /** No follower is stranded: the future it waits for is resolved, and then it
      can go on, or its leader is still running the producer for that slot. */
  lemma NoStrandedFollower(r: Run, c: nat)
    requires c in Final(r).calls && Final(r).calls[c].Waiting?
    ensures var s := Final(r);
            var f := s.calls[c].future;
            && f < |s.shared.futures|
            && (Enabled(s, Resume(c)) <==> s.shared.futures[f].result.Some?)
            && (s.shared.futures[f].result.None? ==>
                  s.shared.futures[f].leader in s.calls
                  && s.calls[s.shared.futures[f].leader] == Producing(s.calls[c].slot, f))
  {
    RunKeepsInv(r);
    assert CallOk(Final(r), c);
    assert FutureOk(Final(r), Final(r).calls[c].future);
  }

  /** A follower ends with exactly what its leader returned or raised. */
  lemma FollowerGetsLeadersResult(r: Run, c: nat)
    requires c in Final(r).calls && Final(r).calls[c].Done? && Final(r).calls[c].source.Followed?
    ensures var s := Final(r);
            var f := s.calls[c].source.future;
            && f < |s.shared.futures| && s.shared.futures[f].leader in s.calls
            && var lead := s.calls[s.shared.futures[f].leader];
               (lead.Leaving? || lead.Done?) && lead.slot == s.calls[c].slot && lead.result == s.calls[c].result
  {
    RunKeepsInv(r);
    assert CallOk(Final(r), c);
    assert FutureOk(Final(r), Final(r).calls[c].source.future);
  }

  // ------------------------------------------------------- cache contents

  /** The last store for a slot. */
  function Latest(history: seq<Stored>, slot: Slot): Option<Stored> {
    if |history| == 0 then None
    else if history[|history| - 1].slot == slot then Some(history[|history| - 1])
    else Latest(history[..|history| - 1], slot)
  }

  /** Row `i` is what was last stored under its key. */
  predicate RowCurrent(rows: seq<Row>, i: nat, kind: Kind, clock: int, history: seq<Stored>)
    requires i < |rows|
  {
    var slot := Slot(kind, rows[i].key);
    rows[i].stamp <= clock && Latest(history, slot) == Some(Stored(slot, rows[i].stamp, rows[i].value))
  }

  predicate RowsOk(rows: seq<Row>, kind: Kind, clock: int, history: seq<Stored>) {
    && DistinctKeys(rows) && |rows| <= MAX_ENTRIES
    && forall i :: 0 <= i < |rows| ==> RowCurrent(rows, i, kind, clock, history)
  }

  predicate CacheOk(s: State) {
    && RowsOk(s.shared.search, Search, s.clock, s.history)
    && RowsOk(s.shared.fetch, Fetch, s.clock, s.history)
  }

  lemma RowsOkSubset(
    rows: seq<Row>, rows': seq<Row>, kind: Kind, clock: int, history: seq<Stored>, now: int)
    requires RowsOk(rows, kind, clock, history) && clock <= now
    requires DistinctKeys(rows') && |rows'| <= |rows| && forall r :: r in rows' ==> r in rows
    ensures RowsOk(rows', kind, now, history)
  {
    forall i | 0 <= i < |rows'|
      ensures RowCurrent(rows', i, kind, now, history)
    {
      assert rows'[i] in rows;
      var j :| 0 <= j < |rows| && rows[j] == rows'[i];
      assert RowCurrent(rows, j, kind, clock, history);
    }
  }

  lemma LookupOk(rows: seq<Row>, kind: Kind, clock: int, history: seq<Stored>, key: string, ttl: int, now: int)
    requires RowsOk(rows, kind, clock, history) && clock <= now
    ensures RowsOk(AfterLookup(rows, key, ttl, now), kind, now, history)
    ensures RowsOk(rows, kind, now, history)
  {
    if RowIndex(rows, key) < |rows| {
      RemoveAtMembers(rows, RowIndex(rows, key));
    }
    RowsOkSubset(rows, rows, kind, clock, history, now);
    RowsOkSubset(rows, AfterLookup(rows, key, ttl, now), kind, clock, history, now);
  }

  /** Storing for another slot changes no latest entry. */
  lemma LatestAppend(history: seq<Stored>, x: Stored, slot: Slot)
    ensures Latest(history + [x], slot) == if x.slot == slot then Some(x) else Latest(history, slot)
  {
    assert (history + [x])[..|history|] == history;
  }

  lemma StoreOk(rows: seq<Row>, kind: Kind, clock: int, history: seq<Stored>, key: string, value: Value, now: int)
    requires RowsOk(rows, kind, clock, history) && clock <= now
    ensures var kept, x := Evict(PutRow(rows, Row(key, now, value))), Stored(Slot(kind, key), now, value);
            RowsOk(kept, kind, now, history + [x]) && Row(key, now, value) in kept
  {
    var row, x := Row(key, now, value), Stored(Slot(kind, key), now, value);
    var put := PutRow(rows, row);
    var kept := Evict(put);
    forall r | r in rows
      ensures r.stamp <= now
    {
      var j :| 0 <= j < |rows| && rows[j] == r;
      assert RowCurrent(rows, j, kind, clock, history);
    }
    PutRowDistinct(rows, row);
    EvictionDropsOldest(put);
    NewRowSurvives(rows, row);
    forall i | 0 <= i < |kept|
      ensures RowCurrent(kept, i, kind, now, history + [x])
    {
      LatestAppend(history, x, Slot(kind, kept[i].key));
      assert kept[i] in put;
      if kept[i] != row {
        var j :| 0 <= j < |rows| && rows[j] == kept[i];
        assert RowCurrent(rows, j, kind, clock, history);
      }
    }
  }

  lemma OtherStoreOk(rows: seq<Row>, kind: Kind, clock: int, history: seq<Stored>, x: Stored)
    requires RowsOk(rows, kind, clock, history) && clock <= x.stamp && x.slot.kind != kind
    ensures RowsOk(rows, kind, x.stamp, history + [x])
  {
    forall i | 0 <= i < |rows|
      ensures RowCurrent(rows, i, kind, x.stamp, history + [x])
    {
      assert RowCurrent(rows, i, kind, clock, history);
      LatestAppend(history, x, Slot(kind, rows[i].key));
    }
  }

  lemma StepKeepsCache(s: State, step: Step)
    requires CacheOk(s)
    ensures CacheOk(Next(s, step))
  {
    if Enabled(s, step) {
      match step
      case Enter(c, slot, ttl, now) =>
        LookupOk(s.shared.search, Search, s.clock, s.history, slot.key, ttl, now);
        LookupOk(s.shared.fetch, Fetch, s.clock, s.history, slot.key, ttl, now);
      case Publish(c, value, now) =>
        var slot := s.calls[c].slot;
        var x := Stored(slot, now, value);
        StoreOk(StoreOf(s.shared, slot.kind), slot.kind, s.clock, s.history, slot.key, value, now);
        if slot.kind.Search? {
          OtherStoreOk(s.shared.fetch, Fetch, s.clock, s.history, x);
        } else {
          OtherStoreOk(s.shared.search, Search, s.clock, s.history, x);
        }
      case _ =>
    }
  }

  /** In every reachable state each store holds at most 256 entries, and each
      entry is the latest value stored for its key. */
  lemma {:induction false} CacheBoundedAndCurrent(r: Run)
    ensures CacheOk(Final(r))
  {
    if r.Then? {
      CacheBoundedAndCurrent(r.before);
      StepKeepsCache(Final(r.before), r.step);
    }
  }

  /** What was just stored is still there: eviction never drops it. */
  lemma PublishedValueIsCached(r: Run, c: nat, value: Value, now: int)
    requires Enabled(Final(r), Publish(c, value, now))
    ensures var slot := Final(r).calls[c].slot;
            Row(slot.key, now, value) in StoreOf(Next(Final(r), Publish(c, value, now)).shared, slot.kind)
  {
    CacheBoundedAndCurrent(r);
    var s := Final(r);
    var slot := s.calls[c].slot;
    StoreOk(StoreOf(s.shared, slot.kind), slot.kind, s.clock, s.history, slot.key, value, now);
  }

  /** A hit is the latest value stored for its slot, no older than its limit. */
  lemma HitIsLatestAndFresh(r: Run, c: nat, slot: Slot, ttl: int, now: int)
    requires Enabled(Final(r), Enter(c, slot, ttl, now))
    requires EnterOutcome(Final(r).shared, slot, ttl, now).Hit?
    ensures var s' := Next(Final(r), Enter(c, slot, ttl, now));
            && s'.calls[c].Done? && s'.calls[c].source.FromCache?
            && var stamp := s'.calls[c].source.stamp;
               && now - stamp <= ttl
               && s'.calls[c].result.Returned?
               && Latest(Final(r).history, slot) == Some(Stored(slot, stamp, s'.calls[c].result.value))
  {
    CacheBoundedAndCurrent(r);
    HitIsLatest(Final(r), c, slot, ttl, now);
  }

  lemma HitIsLatest(s: State, c: nat, slot: Slot, ttl: int, now: int)
    requires CacheOk(s) && Enabled(s, Enter(c, slot, ttl, now)) && EnterOutcome(s.shared, slot, ttl, now).Hit?
    ensures var s' := Next(s, Enter(c, slot, ttl, now));
            && s'.calls[c].Done? && s'.calls[c].source.FromCache?
            && var stamp := s'.calls[c].source.stamp;
               && now - stamp <= ttl
               && s'.calls[c].result.Returned?
               && Latest(s.history, slot) == Some(Stored(slot, stamp, s'.calls[c].result.value))
  {
    var rows := StoreOf(s.shared, slot.kind);
    var i := RowIndex(rows, slot.key);
    assert RowCurrent(rows, i, slot.kind, s.clock, s.history);
  }

  /** Row `i` answers a request for this key. */
  predicate Answers(rows: seq<Row>, i: nat, key: string, ttl: int, now: int)
    requires i < |rows|
  {
    rows[i].key == key && rows[i].value != Nothing && now - rows[i].stamp <= ttl
  }

  predicate HasAnswer(rows: seq<Row>, key: string, ttl: int, now: int) {
    exists i :: 0 <= i < |rows| && Answers(rows, i, key, ttl, now)
  }

  lemma OnlyRowOfKey(rows: seq<Row>, i: nat, key: string)
    requires DistinctKeys(rows) && i < |rows| && rows[i].key == key
    ensures RowIndex(rows, key) == i
  {
    RowIndexSpec(rows, key);
  }

  lemma FreshIs(rows: seq<Row>, key: string, ttl: int, now: int)
    requires DistinctKeys(rows)
    ensures FreshValue(rows, key, ttl, now) != Nothing <==> HasAnswer(rows, key, ttl, now)
    ensures forall i :: 0 <= i < |rows| && Answers(rows, i, key, ttl, now) ==>
              FreshValue(rows, key, ttl, now) == rows[i].value && RowIndex(rows, key) == i
              && AfterLookup(rows, key, ttl, now) == rows
  {
    forall i | 0 <= i < |rows| && rows[i].key == key
      ensures RowIndex(rows, key) == i
    {
      OnlyRowOfKey(rows, i, key);
    }
    var k := RowIndex(rows, key);
    if k < |rows| && now - rows[k].stamp <= ttl && rows[k].value != Nothing {
      assert Answers(rows, k, key, ttl, now);
    }
  }

  /** In every run: entering is a hit if and only if the store holds something under
      the key that is no older than the limit ... */
  lemma HitIff(r: Run, c: nat, slot: Slot, ttl: int, now: int)
    requires Enabled(Final(r), Enter(c, slot, ttl, now))
    ensures var s, s' := Final(r), Next(Final(r), Enter(c, slot, ttl, now));
            s'.calls[c].Done? <==> HasAnswer(StoreOf(s.shared, slot.kind), slot.key, ttl, now)
  {
    CacheBoundedAndCurrent(r);
    FreshIs(StoreOf(Final(r).shared, slot.kind), slot.key, ttl, now);
  }

  /** ... and then the answer is that row's value, and nobody is made to work. */
  lemma HitIsTheRow(r: Run, c: nat, slot: Slot, ttl: int, now: int, i: nat)
    requires Enabled(Final(r), Enter(c, slot, ttl, now)) && i < |StoreOf(Final(r).shared, slot.kind)|
    requires Answers(StoreOf(Final(r).shared, slot.kind), i, slot.key, ttl, now)
    ensures var s, s' := Final(r), Next(Final(r), Enter(c, slot, ttl, now));
            var row := StoreOf(s.shared, slot.kind)[i];
            && s'.calls == s.calls[c := Done(slot, Returned(row.value), FromCache(row.stamp))]
            && s'.shared == s.shared
  {
    CacheBoundedAndCurrent(r);
    FreshIs(StoreOf(Final(r).shared, slot.kind), slot.key, ttl, now);
  }

  /** Without a hit a call follows the registered future of its slot, or registers
      a new one and leads; a row of its key that is too old is gone. */
  lemma MissFollowsOrLeads(r: Run, c: nat, slot: Slot, ttl: int, now: int)
    requires Enabled(Final(r), Enter(c, slot, ttl, now))
    requires !HasAnswer(StoreOf(Final(r).shared, slot.kind), slot.key, ttl, now)
    ensures var s, s' := Final(r), Next(Final(r), Enter(c, slot, ttl, now));
            && (slot in s.shared.inflight ==>
                  && s'.calls == s.calls[c := Waiting(slot, s.shared.inflight[slot])]
                  && s'.shared.futures == s.shared.futures && s'.shared.inflight == s.shared.inflight)
            && (slot !in s.shared.inflight ==>
                  && s'.calls == s.calls[c := Producing(slot, |s.shared.futures|)]
                  && s'.shared.futures == s.shared.futures + [Future(slot, c, None)]
                  && s'.shared.inflight == s.shared.inflight[slot := |s.shared.futures|])
            && (forall row :: row in StoreOf(s'.shared, slot.kind) <==>
                  row in StoreOf(s.shared, slot.kind) && !(row.key == slot.key && now - row.stamp > ttl))
  {
    CacheBoundedAndCurrent(r);
    var rows := StoreOf(Final(r).shared, slot.kind);
    FreshIs(rows, slot.key, ttl, now);
    StaleIsDropped(rows, slot.key, ttl, now);
  }

  lemma StaleIsDropped(rows: seq<Row>, key: string, ttl: int, now: int)
    requires DistinctKeys(rows)
    ensures forall row :: row in AfterLookup(rows, key, ttl, now) <==>
              row in rows && !(row.key == key && now - row.stamp > ttl)
  {
    var k := RowIndex(rows, key);
    forall i | 0 <= i < |rows| && rows[i].key == key
      ensures i == k
    {
      OnlyRowOfKey(rows, i, key);
    }
    if k < |rows| {
      RemoveAtMembers(rows, k);
    }
  }

  /** A call that enters right after something was published under its key, within
      its limit, gets it and makes no future. */
  lemma HitAfterPublish(r: Run, c: nat, value: Value, now: int, d: nat, ttl: int, later: int)
    requires Enabled(Final(r), Publish(c, value, now)) && value != Nothing
    requires d !in Final(r).calls && now <= later && later - now <= ttl
    ensures var slot := Final(r).calls[c].slot;
            var published := Next(Final(r), Publish(c, value, now));
            var s' := Next(published, Enter(d, slot, ttl, later));
            && s'.calls == published.calls[d := Done(slot, Returned(value), FromCache(now))]
            && s'.shared == published.shared
  {
    var slot, r' := Final(r).calls[c].slot, Then(r, Publish(c, value, now));
    PublishedValueIsCached(r, c, value, now);
    var rows := StoreOf(Final(r').shared, slot.kind);
    var i :| 0 <= i < |rows| && rows[i] == Row(slot.key, now, value);
    HitIsTheRow(r', d, slot, ttl, later, i);
  }

  /** What a publish leaves in its store: the new row, and of the rows of other keys
      all, or, when that makes too many, the newer part. */
  lemma PublishStores(r: Run, c: nat, value: Value, now: int)
    requires Enabled(Final(r), Publish(c, value, now))
    ensures var slot := Final(r).calls[c].slot;
            var row := Row(slot.key, now, value);
            var rows := StoreOf(Final(r).shared, slot.kind);
            var kept := StoreOf(Next(Final(r), Publish(c, value, now)).shared, slot.kind);
            && row in kept
            && (forall x :: x in kept ==> x == row || (x in rows && x.key != slot.key))
            && (|rows| < 256 || (exists x :: x in rows && x.key == slot.key) ==>
                  forall x :: x in rows && x.key != slot.key ==> x in kept)
            && (|rows| == 256 && (forall x :: x in rows ==> x.key != slot.key) ==>
                  |kept| == 129 && forall x, y :: x in rows && x !in kept && y in kept ==> x.stamp <= y.stamp)
  {
    CacheBoundedAndCurrent(r);
    PublishedValueIsCached(r, c, value, now);
    var slot := Final(r).calls[c].slot;
    StoredRows(StoreOf(Final(r).shared, slot.kind), Row(slot.key, now, value));
  }

  lemma StoredRows(rows: seq<Row>, row: Row)
    requires DistinctKeys(rows) && |rows| <= 256
    ensures var kept := Evict(PutRow(rows, row));
            && (forall x :: x in kept ==> x == row || (x in rows && x.key != row.key))
            && (|rows| < 256 || (exists x :: x in rows && x.key == row.key) ==>
                  forall x :: x in rows && x.key != row.key ==> x in kept)
            && (|rows| == 256 && (forall x :: x in rows ==> x.key != row.key) ==>
                  |kept| == 129 && forall x, y :: x in rows && x !in kept && y in kept ==> x.stamp <= y.stamp)
  {
    PutRowDistinct(rows, row);
    EvictionDropsOldest(PutRow(rows, row));
    RowIndexSpec(rows, row.key);
    if exists x :: x in rows && x.key == row.key {
      var x :| x in rows && x.key == row.key;
      var j :| 0 <= j < |rows| && rows[j] == x;
    }
  }

  /** The kind and key a step is about. */
  function SlotOf(s: State, step: Step): Option<Slot>
    requires Enabled(s, step)
  {
    match step
    case Enter(_, slot, _, _) => Some(slot)
    case Publish(c, _, _) => Some(s.calls[c].slot)
    case _ => None
  }

  /** Steps leave the store of the other kind alone, and those that neither enter nor
      publish both, but for a clear, which empties both. */
  lemma OtherStoresStay(s: State, step: Step, kind: Kind)
    requires Enabled(s, step) && (SlotOf(s, step).Some? ==> SlotOf(s, step).value.kind != kind)
    ensures StoreOf(Next(s, step).shared, kind) == if step.Clear? then [] else StoreOf(s.shared, kind)
  {
  }

  // ------------------------------------------- outside the protocol's promise

  /** At most one call per kind and key leads. */
  predicate OneLeaderEach(s: State) {
    forall c, d ::
      (c in s.calls && d in s.calls && Leader(s.calls[c]) && Leader(s.calls[d])
       && s.calls[c].slot == s.calls[d].slot) ==> c == d
  }

  /** Clearing the cache while a call leads, whether it runs the producer or is on
      its way out, lets a second one start for the same slot ... */
  lemma ClearingLetsASecondLead(s: State, c: nat, d: nat, ttl: int)
    requires c in s.calls && Leader(s.calls[c]) && d !in s.calls
    ensures var slot := s.calls[c].slot;
            var two := Next(Cleared(s), Enter(d, slot, ttl, s.clock));
            && two.calls == s.calls[d := Producing(slot, |s.shared.futures|)]
            && slot in two.shared.inflight && two.shared.inflight[slot] == |s.shared.futures|
            && !OneLeaderEach(two)
  {
    var two := Next(Cleared(s), Enter(d, s.calls[c].slot, ttl, s.clock));
    assert two.calls[c] == s.calls[c] && Leader(two.calls[d]);
  }

  /** ... and when the first leader leaves it removes the second one's future. */
  lemma FirstLeaderRemovesTheSecond(s: State, c: nat, d: nat, ttl: int)
    requires Inv(s) && c in s.calls && s.calls[c].Leaving? && d !in s.calls
    ensures var slot := s.calls[c].slot;
            var two := Next(Cleared(s), Enter(d, slot, ttl, s.clock));
            var left := Next(two, Leave(c));
            && slot in two.shared.inflight && two.shared.inflight[slot] != s.calls[c].future
            && slot !in left.shared.inflight && d in left.calls && left.calls[d].Producing?
  {
    assert CallOk(s, c);
    ClearingLetsASecondLead(s, c, d, ttl);
  }

  /** Clearing keeps the protocol's invariant if and only if nothing is in flight. */
  lemma ClearedKeepsInvIff(s: State)
    requires Inv(s)
    ensures Inv(Cleared(s)) <==> s.shared.inflight == map[]
  {
    if s.shared.inflight == map[] {
      ClearedKeepsInv(s);
    } else {
      var slot :| slot in s.shared.inflight;
      assert InflightLed(s, slot);
      var c := s.shared.futures[s.shared.inflight[slot]].leader;
      assert !CallOk(Cleared(s), c);
    }
  }

  lemma {:induction false} FreshCall(used: set<nat>) returns (d: nat)
    ensures d !in used && forall c :: c in used ==> c < d
  {
    if used == {} {
      d := 0;
    } else {
      var x :| x in used;
      var e := FreshCall(used - {x});
      d := if x < e then e else x + 1;
      assert forall c :: c in used ==> c == x || c in used - {x};
    }
  }

  lemma {:induction false} NextAllKeepsInv(s: State, steps: seq<Step>)
    requires Inv(s)
    ensures Inv(NextAll(s, steps))
  {
    if |steps| > 0 {
      NextAllKeepsInv(s, steps[..|steps| - 1]);
      StepKeepsInv(NextAll(s, steps[..|steps| - 1]), steps[|steps| - 1]);
    }
  }

  lemma InvHasOneLeaderEach(s: State)
    requires Inv(s)
    ensures OneLeaderEach(s)
  {
    forall c, d | c in s.calls && d in s.calls && Leader(s.calls[c]) && Leader(s.calls[d])
                  && s.calls[c].slot == s.calls[d].slot
      ensures c == d
    {
      assert CallOk(s, c) && CallOk(s, d);
    }
  }

  lemma ClearingBreaks(s: State) returns (steps: seq<Step>)
    requires Inv(s) && s.shared.inflight != map[]
    ensures !OneLeaderEach(NextAll(Cleared(s), steps))
  {
    var slot :| slot in s.shared.inflight;
    assert InflightLed(s, slot);
    var c := s.shared.futures[s.shared.inflight[slot]].leader;
    var d := FreshCall(s.calls.Keys);
    ClearingLetsASecondLead(s, c, d, 0);
    steps := [Enter(d, slot, 0, s.clock)];
    assert steps[..0] == [];
    assert NextAll(Cleared(s), []) == Cleared(s);
  }

  /** Single flight survives a clear, whatever happens afterwards, if and only if
      the cache was cleared while nothing was in flight. */
  lemma ClearIsSafeIff(s: State)
    requires Inv(s)
    ensures s.shared.inflight == map[] <==> forall steps :: OneLeaderEach(NextAll(Cleared(s), steps))
  {
    if s.shared.inflight == map[] {
      ClearedKeepsInv(s);
      forall steps: seq<Step>
        ensures OneLeaderEach(NextAll(Cleared(s), steps))
      {
        NextAllKeepsInv(Cleared(s), steps);
        InvHasOneLeaderEach(NextAll(Cleared(s), steps));
      }
    } else {
      var steps := ClearingBreaks(s);
      assert !OneLeaderEach(NextAll(Cleared(s), steps));
    }
  }

  function NextAll(s: State, steps: seq<Step>): State {
    if |steps| == 0 then s else Next(NextAll(s, steps[..|steps| - 1]), steps[|steps| - 1])
  }

  /** A producer ended by an exception the handler does not catch: the future
      is unregistered but never resolved. */
  function Abort(s: State, c: nat): State
    requires c in s.calls && s.calls[c].Producing?
  {
    var slot, f := s.calls[c].slot, s.calls[c].future;
    s.(shared := AfterLeave(s.shared, slot), calls := s.calls[c := Done(slot, Raised("aborted"), Led(f))])
  }

  /** Nobody is left to resolve the future that call `w` waits for. */
  predicate Stranded(s: State, w: nat) {
    && w in s.calls && s.calls[w].Waiting? && s.calls[w].future < |s.shared.futures|
    && s.shared.futures[s.calls[w].future].result.None?
    && forall c :: c in s.calls && s.calls[c].Producing? ==> s.calls[c].future != s.calls[w].future
  }

  /** It strands a waiting call if and only if that call waits for its future. */
  lemma AbortStrandsIff(s: State, c: nat, w: nat)
    requires Inv(s) && c in s.calls && s.calls[c].Producing? && w in s.calls && s.calls[w].Waiting?
    ensures Stranded(Abort(s, c), w) <==> s.calls[w].future == s.calls[c].future
  {
    assert CallOk(s, c) && CallOk(s, w);
    var f := s.calls[w].future;
    if f == s.calls[c].future {
      forall d | d in s.calls && s.calls[d].Producing? && d != c
        ensures s.calls[d].future != f
      {
        assert CallOk(s, d);
      }
    } else {
      assert FutureOk(s, f);
      assert s.shared.futures[f].result.None? ==> Abort(s, c).calls[s.shared.futures[f].leader].Producing?;
    }
  }

  lemma StrandedStays(s: State, w: nat, step: Step)
    requires Stranded(s, w)
    ensures Stranded(Next(s, step), w) && !Enabled(s, Resume(w))
  {
  }

  /** And it waits for ever, whatever happens next. */
  lemma {:induction false} StrandedForEver(s: State, w: nat, steps: seq<Step>)
    requires Stranded(s, w)
    ensures Stranded(NextAll(s, steps), w) && !Enabled(NextAll(s, steps), Resume(w))
  {
    if |steps| > 0 {
      StrandedForEver(s, w, steps[..|steps| - 1]);
      StrandedStays(NextAll(s, steps[..|steps| - 1]), w, steps[|steps| - 1]);
    }
  }
}

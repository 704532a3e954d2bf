/** Following a run forward with `load_events` (`app/observability/replay.py`), as
    a client does that names the last number it has seen: which later events the
    pages reach when the store missed some of the log. */
module Following {
  import opened Common
  import opened Events
  import opened Replay
  import opened Paging

  /** The next page starts after the last number seen, until a page is empty; `n`
      bounds the number of pages. */
  function ReadOn(page: int -> seq<Event>, after: int, n: nat): seq<Event>
    decreases n
  {
    var p := page(after);
    if n == 0 || p == [] then [] else p + ReadOn(page, p[|p| - 1].number, n - 1)
  }

  function NextPage(rows: seq<Event>, memory: seq<Event>, jsonl: seq<Event>, limit: nat): int -> seq<Event> {
    (after: int) => LoadEvents(rows, memory, jsonl, NextQuery(after, limit))
  }

  function NextQuery(after: int, limit: nat): Query { Query(after, None, Some(limit)) }

  function Later(after: int): Event -> bool { (e: Event) => e.number > after }

  predicate NoneAfter(held: seq<Event>, after: int) {
    forall r :: r in held ==> r.number <= after
  }

  predicate NewerThanAll(e: Event, held: seq<Event>) {
    forall r :: r in held ==> r.number < e.number
  }

  /** The event is in the store or the journal; or it is in the file, and the store
      holds nothing the reader has not seen, or the event is newer than everything
      in the store and the journal. */
  predicate Followable(e: Event, rows: seq<Event>, memory: seq<Event>, jsonl: seq<Event>, after: int) {
    || e in rows || e in memory
    || (e in jsonl && (NoneAfter(rows, after) || NewerThanAll(e, rows + memory)))
  }

  predicate AllFollowable(log: seq<Event>, rows: seq<Event>, memory: seq<Event>, jsonl: seq<Event>, after: int) {
    forall e :: e in log && e.number > after ==> Followable(e, rows, memory, jsonl, after)
  }

  /** A page by itself, over a complete store: the newest `limit` events of the
      window when a bound above is given or none below, else the oldest ones. */
  lemma PageOfCompleteStore(
    log: seq<Event>, rows: seq<Event>, memory: seq<Event>, jsonl: seq<Event>,
    after: int, before: Option<int>, limit: nat)
    requires Sources(log, rows, memory, jsonl) && From(rows, log) && limit >= 1
    ensures var inside := (e: Event) => e.number > after && (before.Some? ==> e.number < before.value);
            var events, page := Filter(log, inside), LoadEvents(rows, memory, jsonl, Query(after, before, Some(limit)));
            && (|events| <= limit ==> page == events)
            && (|events| > limit && (before.Some? || after == 0) ==> page == events[|events| - limit..])
            && (|events| > limit && before.None? && after != 0 ==> page == events[..limit])
  {
    var inside := (e: Event) => e.number > after && (before.Some? ==> e.number < before.value);
    var q := Query(after, before, Some(limit));
    CompleteStoreAnswersFromLog(log, rows, memory, jsonl, q);
    FilterSame(log, inside, Window(q));
  }

  // ------------------------------------------------------------- one page

  /** The first `j` events of the log are those up to the number `after`. */
  predicate SeenUpTo(log: seq<Event>, after: int, j: nat) {
    j <= |log| && forall k :: 0 <= k < |log| ==> (log[k].number > after <==> j <= k)
  }

  lemma SeenSome(log: seq<Event>, after: int) returns (j: nat)
    requires Increasing(log)
    ensures SeenUpTo(log, after, j)
  {
    j := FirstIndex(log, Later(after));
    FirstIndexIsFirst(log, Later(after));
    forall k | 0 <= k < |log|
      ensures log[k].number > after <==> j <= k
    {
      if k < j {
        assert !Later(after)(log[k]);
      } else if j < k {
        assert log[j].number < log[k].number;
      }
    }
  }

  lemma SeenMore(log: seq<Event>, i: nat)
    requires Increasing(log) && i < |log|
    ensures SeenUpTo(log, log[i].number, i + 1)
  {
  }

  lemma RestIs(log: seq<Event>, after: int, j: nat)
    requires Increasing(log) && SeenUpTo(log, after, j)
    ensures Filter(log, Later(after)) == log[j..]
  {
    FilterIsRange(log, Later(after), j, |log|);
  }

  lemma NextPageIs(
    log: seq<Event>, rows: seq<Event>, memory: seq<Event>, jsonl: seq<Event>, after: int, limit: nat)
    requires Sources(log, rows, memory, jsonl) && limit >= 1 && after != 0
    ensures NextPage(rows, memory, jsonl, limit)(after)
         == FirstK(Filter(log, OnPage(rows, memory, jsonl, NextQuery(after, limit))), limit)
  {
    PositiveLimitIsExact(log, rows, memory, jsonl, NextQuery(after, limit));
  }

  /** While the store has later rows: up to the last event that the store or the
      journal holds, nothing is missing. */
  lemma StoreStretch(
    log: seq<Event>, rows: seq<Event>, memory: seq<Event>, jsonl: seq<Event>, after: int, limit: nat, j: nat)
    returns (m: nat)
    requires Sources(log, rows, memory, jsonl) && AllFollowable(log, rows, memory, jsonl, after)
    requires SeenUpTo(log, after, j) && !NoneAfter(rows, after)
    ensures j < m <= |log|
    ensures Filter(log, OnPage(rows, memory, jsonl, NextQuery(after, limit))) == log[j..m]
  {
    var q := NextQuery(after, limit);
    m := EndOfHeld(log, rows + memory);
    HeldIsAfter(log, rows, memory, after, j, m);
    HeldIsStore(rows, jsonl, q);
    forall k | 0 <= k < |log|
      ensures OnPage(rows, memory, jsonl, q)(log[k]) <==> j <= k < m
    {
      OnPageIff(log, rows, memory, jsonl, after, j, m, k);
    }
    FilterIsRange(log, OnPage(rows, memory, jsonl, q), j, m);
  }

  lemma HeldIsStore(rows: seq<Event>, jsonl: seq<Event>, q: Query)
    requires q.before.None? && !NoneAfter(rows, q.after)
    ensures Held(rows, jsonl, q) == rows
  {
    var r :| r in rows && r.number > q.after;
    HeldIsRows(rows, jsonl, q, r);
  }

  lemma HeldIsAfter(log: seq<Event>, rows: seq<Event>, memory: seq<Event>, after: int, j: nat, m: nat)
    requires From(log, rows) && SeenUpTo(log, after, j) && !NoneAfter(rows, after)
    requires forall k :: m <= k < |log| ==> log[k] !in rows + memory
    ensures j < m
  {
    var r :| r in rows && r.number > after;
    var i :| 0 <= i < |log| && log[i] == r;
    assert log[i] in rows + memory;
  }

  /** Up to the last held event, the later events are those held. */
  lemma OnPageIff(
    log: seq<Event>, rows: seq<Event>, memory: seq<Event>, jsonl: seq<Event>, after: int, j: nat, m: nat, k: nat)
    requires IsLog(log) && AllFollowable(log, rows, memory, jsonl, after) && !NoneAfter(rows, after)
    requires SeenUpTo(log, after, j) && k < |log| && 0 < m <= |log| && log[m - 1] in rows + memory
    requires forall i :: m <= i < |log| ==> log[i] !in rows + memory
    ensures (log[k] in rows || log[k] in memory) && log[k].number > after <==> j <= k < m
  {
    if j <= k < m {
      assert Followable(log[k], rows, memory, jsonl, after);
      NotNewest(log, rows + memory, k, m - 1);
    }
  }

  lemma NotNewest(log: seq<Event>, held: seq<Event>, k: nat, last: nat)
    requires Increasing(log) && k <= last < |log| && log[last] in held
    ensures !NewerThanAll(log[k], held)
  {
    assert log[k].number <= log[last].number;
  }

  /** One past the last event of the log that is held. */
  lemma EndOfHeld(log: seq<Event>, held: seq<Event>) returns (m: nat)
    ensures m <= |log| && (m > 0 ==> log[m - 1] in held)
    ensures forall k :: m <= k < |log| ==> log[k] !in held
  {
    m := |log|;
    while m > 0 && log[m - 1] !in held
      invariant m <= |log| && forall k :: m <= k < |log| ==> log[k] !in held
    {
      m := m - 1;
    }
  }

  /** When it has none, the file and the journal hold the whole rest. */
  lemma FileStretch(
    log: seq<Event>, rows: seq<Event>, memory: seq<Event>, jsonl: seq<Event>, after: int, limit: nat, j: nat)
    requires Sources(log, rows, memory, jsonl) && AllFollowable(log, rows, memory, jsonl, after)
    requires SeenUpTo(log, after, j) && NoneAfter(rows, after)
    ensures Filter(log, OnPage(rows, memory, jsonl, NextQuery(after, limit))) == log[j..]
  {
    var q := NextQuery(after, limit);
    HeldIsFile(rows, jsonl, q);
    forall k | 0 <= k < |log|
      ensures OnPage(rows, memory, jsonl, q)(log[k]) <==> j <= k < |log|
    {
      if j <= k {
        assert Followable(log[k], rows, memory, jsonl, after);
      }
    }
    FilterIsRange(log, OnPage(rows, memory, jsonl, q), j, |log|);
  }

  lemma HeldIsFile(rows: seq<Event>, jsonl: seq<Event>, q: Query)
    requires NoneAfter(rows, q.after)
    ensures Held(rows, jsonl, q) == jsonl
  {
    FilterMembers(rows, Window(q));
    if Filter(rows, Window(q)) != [] {
      assert Filter(rows, Window(q))[0] in rows;
    }
  }

  /** The page after the first `j` events is the stretch of the log that starts there. */
  lemma PageIsStretch(
    log: seq<Event>, rows: seq<Event>, memory: seq<Event>, jsonl: seq<Event>, after: int, limit: nat, j: nat)
    returns (m: nat)
    requires Sources(log, rows, memory, jsonl) && AllFollowable(log, rows, memory, jsonl, after)
    requires limit >= 1 && after != 0 && SeenUpTo(log, after, j)
    ensures j <= m <= |log| && (j < |log| ==> j < m)
    ensures NextPage(rows, memory, jsonl, limit)(after) == log[j..m]
  {
    NextPageIs(log, rows, memory, jsonl, after, limit);
    m := |log|;
    if NoneAfter(rows, after) {
      FileStretch(log, rows, memory, jsonl, after, limit, j);
    } else {
      m := StoreStretch(log, rows, memory, jsonl, after, limit, j);
    }
    m := FirstOfStretch(log, j, m, limit);
  }

  lemma FirstOfStretch(log: seq<Event>, j: nat, end: nat, limit: nat) returns (m: nat)
    requires j <= end <= |log| && limit >= 1
    ensures j <= m <= end && (j < end ==> j < m) && FirstK(log[j..end], limit) == log[j..m]
  {
    m := if limit >= end - j then end else j + limit;
  }

  // ------------------------------------------------------------ all pages

  /** What is followable stays so as the reader moves on. */
  lemma StillFollowable(
    log: seq<Event>, rows: seq<Event>, memory: seq<Event>, jsonl: seq<Event>, after: int, later: int)
    requires AllFollowable(log, rows, memory, jsonl, after) && after <= later
    ensures AllFollowable(log, rows, memory, jsonl, later)
  {
    forall e | e in log && e.number > later
      ensures Followable(e, rows, memory, jsonl, later)
    {
      assert Followable(e, rows, memory, jsonl, after);
    }
  }

  /** The page after the number `after` is a stretch of the log from position `j`. */
  ghost predicate StretchFrom(page: int -> seq<Event>, log: seq<Event>, after: int, j: nat) {
    exists m: nat :: j <= m <= |log| && (j < |log| ==> j < m) && page(after) == log[j..m]
  }

  ghost predicate StretchAt(page: int -> seq<Event>, log: seq<Event>, i: nat)
    requires 0 < i <= |log|
  {
    StretchFrom(page, log, log[i - 1].number, i)
  }

  ghost predicate StretchesFrom(page: int -> seq<Event>, log: seq<Event>, j: nat) {
    forall i :: j < i <= |log| ==> StretchAt(page, log, i)
  }

  lemma {:induction false} ReadOnStretches(page: int -> seq<Event>, log: seq<Event>, after: int, n: nat, j: nat)
    requires j <= |log| && n >= |log| - j
    requires StretchFrom(page, log, after, j) && StretchesFrom(page, log, j)
    ensures ReadOn(page, after, n) == log[j..]
    decreases n
  {
    var m: nat :| j <= m <= |log| && (j < |log| ==> j < m) && page(after) == log[j..m];
    if j < |log| {
      assert log[j..m][|log[j..m]| - 1] == log[m - 1];
      assert StretchAt(page, log, m);
      ReadOnStretches(page, log, log[m - 1].number, n - 1, m);
      assert log[j..m] + log[m..] == log[j..];
    }
  }

  /** Whatever the page size, followable events are all read, once each, in order. */
  lemma FollowableIsRead(
    log: seq<Event>, rows: seq<Event>, memory: seq<Event>, jsonl: seq<Event>,
    after: int, limit: nat, n: nat, j: nat)
    requires Sources(log, rows, memory, jsonl) && AllFollowable(log, rows, memory, jsonl, after)
    requires limit >= 1 && after != 0 && SeenUpTo(log, after, j) && n >= |log| - j
    ensures ReadOn(NextPage(rows, memory, jsonl, limit), after, n) == log[j..]
  {
    var page := NextPage(rows, memory, jsonl, limit);
    var m := PageIsStretch(log, rows, memory, jsonl, after, limit, j);
    forall i | j < i <= |log|
      ensures StretchAt(page, log, i)
    {
      LaterPageIsStretch(log, rows, memory, jsonl, after, limit, i);
    }
    ReadOnStretches(page, log, after, n, j);
  }

  lemma LaterPageIsStretch(
    log: seq<Event>, rows: seq<Event>, memory: seq<Event>, jsonl: seq<Event>, after: int, limit: nat, i: nat)
    requires Sources(log, rows, memory, jsonl) && AllFollowable(log, rows, memory, jsonl, after)
    requires limit >= 1 && 0 < i <= |log| && log[i - 1].number > after
    ensures StretchAt(NextPage(rows, memory, jsonl, limit), log, i)
  {
    SeenMore(log, i - 1);
    StillFollowable(log, rows, memory, jsonl, after, log[i - 1].number);
    var m := PageIsStretch(log, rows, memory, jsonl, log[i - 1].number, limit, i);
  }

  /** Later than the bound, with a number other than zero, and held somewhere. */
  predicate LaterAndHeld(e: Event, rows: seq<Event>, memory: seq<Event>, jsonl: seq<Event>, after: int) {
    e.number > after && e.number != 0 && (e in rows || e in memory || e in jsonl)
  }

  lemma OnPageIsHeld(log: seq<Event>, rows: seq<Event>, memory: seq<Event>, jsonl: seq<Event>, q: Query, e: Event)
    requires IsLog(log) && e in Filter(log, OnPage(rows, memory, jsonl, q))
    ensures LaterAndHeld(e, rows, memory, jsonl, q.after)
  {
    FilterMembers(log, OnPage(rows, memory, jsonl, q));
    InLog(log, e);
  }

  lemma OnlyHeldIsNext(
    log: seq<Event>, rows: seq<Event>, memory: seq<Event>, jsonl: seq<Event>, after: int, limit: nat, e: Event)
    requires Sources(log, rows, memory, jsonl) && limit >= 1 && after != 0
    requires e in NextPage(rows, memory, jsonl, limit)(after)
    ensures LaterAndHeld(e, rows, memory, jsonl, after)
  {
    NextPageIs(log, rows, memory, jsonl, after, limit);
    FirstKMember(Filter(log, OnPage(rows, memory, jsonl, NextQuery(after, limit))), limit, e);
    OnPageIsHeld(log, rows, memory, jsonl, NextQuery(after, limit), e);
  }

  lemma FirstKMember(s: seq<Event>, k: nat, e: Event)
    requires e in FirstK(s, k)
    ensures e in s
  {
  }

  /** What is on the pages is later than the bound, and held. */
  ghost predicate GoOn(page: int -> seq<Event>, rows: seq<Event>, memory: seq<Event>, jsonl: seq<Event>) {
    forall after: int, e: Event ::
      after != 0 && e in page(after) ==> LaterAndHeld(e, rows, memory, jsonl, after)
  }

  lemma {:induction false} ReadOnIsOnSomePage(
    page: int -> seq<Event>, rows: seq<Event>, memory: seq<Event>, jsonl: seq<Event>, after: int, n: nat, e: Event)
    returns (at: int)
    requires GoOn(page, rows, memory, jsonl) && after != 0 && e in ReadOn(page, after, n)
    ensures at >= after && at != 0 && e in page(at) && LaterAndHeld(e, rows, memory, jsonl, at)
    decreases n
  {
    var p := page(after);
    if e in p {
      at := after;
    } else {
      var last := p[|p| - 1];
      assert last in p;
      at := ReadOnIsOnSomePage(page, rows, memory, jsonl, last.number, n - 1, e);
    }
  }

  lemma PagesGoOn(log: seq<Event>, rows: seq<Event>, memory: seq<Event>, jsonl: seq<Event>, limit: nat)
    requires Sources(log, rows, memory, jsonl) && limit >= 1
    ensures GoOn(NextPage(rows, memory, jsonl, limit), rows, memory, jsonl)
  {
    forall after: int, e: Event | after != 0 && e in NextPage(rows, memory, jsonl, limit)(after)
      ensures LaterAndHeld(e, rows, memory, jsonl, after)
    {
      OnlyHeldIsNext(log, rows, memory, jsonl, after, limit, e);
    }
  }

  /** The page is in order and holds every later event of store and journal. */
  ghost predicate HoldsLater(page: seq<Event>, rows: seq<Event>, memory: seq<Event>, after: int) {
    Increasing(page) && forall e :: e in page <==> (e in rows || e in memory) && e.number > after
  }

  /** A page that is large enough does. */
  lemma LargeNextPage(log: seq<Event>, rows: seq<Event>, memory: seq<Event>, jsonl: seq<Event>, after: int)
    requires Sources(log, rows, memory, jsonl) && after != 0 && !NoneAfter(rows, after)
    ensures HoldsLater(NextPage(rows, memory, jsonl, |log| + 1)(after), rows, memory, after)
  {
    NextPageIs(log, rows, memory, jsonl, after, |log| + 1);
    FilterIsShorter(log, OnPage(rows, memory, jsonl, NextQuery(after, |log| + 1)));
    OnPageIsLater(log, rows, memory, jsonl, NextQuery(after, |log| + 1));
  }

  lemma OnPageIsLater(log: seq<Event>, rows: seq<Event>, memory: seq<Event>, jsonl: seq<Event>, q: Query)
    requires Sources(log, rows, memory, jsonl) && q.before.None? && !NoneAfter(rows, q.after)
    ensures HoldsLater(Filter(log, OnPage(rows, memory, jsonl, q)), rows, memory, q.after)
  {
    HeldIsStore(rows, jsonl, q);
    FilterMembers(log, OnPage(rows, memory, jsonl, q));
  }

  lemma {:induction false} AfterFirstPage(page: int -> seq<Event>, after: int, n: nat, e: Event)
    requires e in ReadOn(page, after, n) && e !in page(after)
    ensures n > 0 && page(after) != [] && e in ReadOn(page, page(after)[|page(after)| - 1].number, n - 1)
  {
  }

  /** What is not on such a first page is newer than all that is. */
  lemma ReadLaterIsNewer(
    page: int -> seq<Event>, rows: seq<Event>, memory: seq<Event>, jsonl: seq<Event>, after: int, n: nat, e: Event)
    requires GoOn(page, rows, memory, jsonl) && HoldsLater(page(after), rows, memory, after)
    requires after != 0 && e in ReadOn(page, after, n) && e !in rows && e !in memory
    ensures NewerThanAll(e, rows + memory)
  {
    var p := page(after);
    AfterFirstPage(page, after, n, e);
    var last := p[|p| - 1];
    assert last in p;
    var at := ReadOnIsOnSomePage(page, rows, memory, jsonl, last.number, n - 1, e);
    LastIsGreatest(p, rows + memory, after, e);
  }

  /** What is read from such pages is followable. */
  lemma ReadIsFollowable(
    page: int -> seq<Event>, rows: seq<Event>, memory: seq<Event>, jsonl: seq<Event>, after: int, n: nat, e: Event)
    requires GoOn(page, rows, memory, jsonl)
    requires !NoneAfter(rows, after) ==> HoldsLater(page(after), rows, memory, after)
    requires after != 0 && e in ReadOn(page, after, n)
    ensures Followable(e, rows, memory, jsonl, after)
  {
    var at := ReadOnIsOnSomePage(page, rows, memory, jsonl, after, n, e);
    if e !in rows && e !in memory && !NoneAfter(rows, after) {
      ReadLaterIsNewer(page, rows, memory, jsonl, after, n, e);
    }
  }

  lemma ReadAreFollowable(
    page: int -> seq<Event>, log: seq<Event>, rows: seq<Event>, memory: seq<Event>, jsonl: seq<Event>,
    after: int, n: nat)
    requires GoOn(page, rows, memory, jsonl)
    requires !NoneAfter(rows, after) ==> HoldsLater(page(after), rows, memory, after)
    requires after != 0 && ReadOn(page, after, n) == Filter(log, Later(after))
    ensures AllFollowable(log, rows, memory, jsonl, after)
  {
    FilterMembers(log, Later(after));
    forall e | e in log && e.number > after
      ensures Followable(e, rows, memory, jsonl, after)
    {
      assert e in Filter(log, Later(after));
      ReadIsFollowable(page, rows, memory, jsonl, after, n, e);
    }
  }

  lemma LastIsGreatest(p: seq<Event>, held: seq<Event>, after: int, e: Event)
    requires p != [] && Increasing(p) && after < p[|p| - 1].number < e.number
    requires forall r :: r in held && r.number > after ==> r in p
    ensures NewerThanAll(e, held)
  {
    forall r | r in held
      ensures r.number < e.number
    {
      if r.number > after {
        var i :| 0 <= i < |p| && p[i] == r;
      }
    }
  }

  /** The pages after the number `after`, of any size and as many as needed. */
  ghost predicate EveryPageSizeReads(
    log: seq<Event>, rows: seq<Event>, memory: seq<Event>, jsonl: seq<Event>, after: int)
  {
    forall limit: nat, n: nat :: limit >= 1 && n >= |log| ==>
      ReadOn(NextPage(rows, memory, jsonl, limit), after, n) == Filter(log, Later(after))
  }

  /** Reading on from any number but zero enumerates every later event of the log
      exactly once, in order, at every page size, if and only if every later event
      is followable. */
  lemma FollowingEnumeratesTheRest(
    log: seq<Event>, rows: seq<Event>, memory: seq<Event>, jsonl: seq<Event>, after: int)
    requires Sources(log, rows, memory, jsonl) && after != 0
    ensures EveryPageSizeReads(log, rows, memory, jsonl, after) <==> AllFollowable(log, rows, memory, jsonl, after)
  {
    var j := SeenSome(log, after);
    RestIs(log, after, j);
    if AllFollowable(log, rows, memory, jsonl, after) {
      forall limit: nat, n: nat | limit >= 1 && n >= |log|
        ensures ReadOn(NextPage(rows, memory, jsonl, limit), after, n) == Filter(log, Later(after))
      {
        FollowableIsRead(log, rows, memory, jsonl, after, limit, n, j);
      }
    }
    if EveryPageSizeReads(log, rows, memory, jsonl, after) {
      LargePagesTell(log, rows, memory, jsonl, after);
    }
  }

  lemma LargePagesTell(log: seq<Event>, rows: seq<Event>, memory: seq<Event>, jsonl: seq<Event>, after: int)
    requires Sources(log, rows, memory, jsonl) && after != 0
    requires ReadOn(NextPage(rows, memory, jsonl, |log| + 1), after, |log|) == Filter(log, Later(after))
    ensures AllFollowable(log, rows, memory, jsonl, after)
  {
    PagesGoOn(log, rows, memory, jsonl, |log| + 1);
    if !NoneAfter(rows, after) {
      LargeNextPage(log, rows, memory, jsonl, after);
    }
    ReadAreFollowable(NextPage(rows, memory, jsonl, |log| + 1), log, rows, memory, jsonl, after, |log|);
  }
}

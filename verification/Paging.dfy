/** Reading a run backwards page by page with `load_events`
    (`app/observability/replay.py`): which events the pages reach when the store
    missed some of the log and the journal and the file are there to fill in. */
module Paging {
  import opened Common
  import opened Events
  import opened Replay

  /** The next page ends before the smallest number seen, until a page is empty or
      brings nothing older. */
  function ReadBack(page: Option<int> -> seq<Event>, before: Option<int>): seq<Event>
    decreases before.None?, if before.Some? then Max0(before.value) else 0
  {
    var p := page(before);
    if p == [] || (before.Some? && p[0].number >= before.value) then []
    else ReadBack(page, Some(p[0].number)) + p
  }

  function PageOf(rows: seq<Event>, memory: seq<Event>, jsonl: seq<Event>, limit: nat): Option<int> -> seq<Event> {
    (before: Option<int>) => LoadEvents(rows, memory, jsonl, PageQuery(before, limit))
  }

  function PageQuery(before: Option<int>, limit: nat): Query { Query(0, before, Some(limit)) }

  function Bound(log: seq<Event>, j: nat): Option<int>
    requires j <= |log|
  {
    if j < |log| then Some(log[j].number) else None
  }

  /** The event is in the store or the journal; or it is in the file and older than
      everything in the store and the journal, unless the store is empty. */
  predicate Reachable(e: Event, rows: seq<Event>, memory: seq<Event>, jsonl: seq<Event>) {
    || e in rows || e in memory
    || (e in jsonl && (rows == [] || OlderThanAll(e, rows + memory)))
  }

  predicate OlderThanAll(e: Event, held: seq<Event>) {
    forall r :: r in held ==> e.number < r.number
  }

  predicate AllReachable(log: seq<Event>, rows: seq<Event>, memory: seq<Event>, jsonl: seq<Event>) {
    forall e :: e in log ==> Reachable(e, rows, memory, jsonl)
  }

  /** What the three sources hold comes from one log. */
  predicate Sources(log: seq<Event>, rows: seq<Event>, memory: seq<Event>, jsonl: seq<Event>) {
    IsLog(log) && From(log, rows) && From(log, memory) && From(log, jsonl) && NoRepeats(rows)
  }

  // ------------------------------------------------------------- one page

  function OnPage(rows: seq<Event>, memory: seq<Event>, jsonl: seq<Event>, q: Query): Event -> bool {
    Wanted(Held(rows, jsonl, q), memory, q)
  }

  lemma PageIs(
    log: seq<Event>, rows: seq<Event>, memory: seq<Event>, jsonl: seq<Event>, before: Option<int>, limit: nat)
    requires Sources(log, rows, memory, jsonl) && limit >= 1
    ensures PageOf(rows, memory, jsonl, limit)(before)
         == LastK(Filter(log, OnPage(rows, memory, jsonl, PageQuery(before, limit))), limit)
  {
    PositiveLimitIsExact(log, rows, memory, jsonl, PageQuery(before, limit));
  }

  lemma WindowIsPrefix(log: seq<Event>, j: nat, limit: nat, k: nat)
    requires IsLog(log) && j <= |log| && k < |log|
    ensures InWindow(PageQuery(Bound(log, j), limit), log[k]) <==> k < j
  {
  }

  lemma FilterIsRange(log: seq<Event>, p: Event -> bool, m: nat, j: nat)
    requires Increasing(log) && m <= j <= |log|
    requires forall k :: 0 <= k < |log| ==> (p(log[k]) <==> m <= k < j)
    ensures Filter(log, p) == log[m..j]
  {
    FilterMembers(log, p);
    forall e
      ensures e in Filter(log, p) <==> e in log[m..j]
    {
      if e in log && p(e) {
        var k :| 0 <= k < |log| && log[k] == e;
        assert log[m..j][k - m] == e;
      }
    }
    RangeIncreases(log, m, j);
    IncreasingUnique(Filter(log, p), log[m..j]);
  }

  lemma RangeIncreases(log: seq<Event>, m: nat, j: nat)
    requires Increasing(log) && m <= j <= |log|
    ensures Increasing(log[m..j])
  {
  }

  /** While the store has rows in the window: from the first event on that the
      store or the journal holds, nothing is missing. */
  lemma StoreRange(log: seq<Event>, rows: seq<Event>, memory: seq<Event>, jsonl: seq<Event>, j: nat, limit: nat)
    returns (m: nat)
    requires Sources(log, rows, memory, jsonl) && AllReachable(log, rows, memory, jsonl) && j <= |log|
    requires Filter(rows, Window(PageQuery(Bound(log, j), limit))) != []
    ensures m < j && Filter(log, OnPage(rows, memory, jsonl, PageQuery(Bound(log, j), limit))) == log[m..j]
  {
    var q := PageQuery(Bound(log, j), limit);
    var held := rows + memory;
    m := FirstIndex(log, In(held));
    FirstIndexIsFirst(log, In(held));
    var r := RowInWindow(log, rows, j, limit);
    assert log[r] in held;
    forall k | 0 <= k < |log|
      ensures OnPage(rows, memory, jsonl, q)(log[k]) <==> m <= k < j
    {
      WindowIsPrefix(log, j, limit, k);
      if k < m {
        assert !In(held)(log[k]);
      } else {
        HeldFrom(log, rows, memory, jsonl, m, k);
      }
    }
    FilterIsRange(log, OnPage(rows, memory, jsonl, q), m, j);
  }

  lemma RowInWindow(log: seq<Event>, rows: seq<Event>, j: nat, limit: nat) returns (k: nat)
    requires IsLog(log) && From(log, rows) && j <= |log|
    requires Filter(rows, Window(PageQuery(Bound(log, j), limit))) != []
    ensures k < j && log[k] in rows
  {
    var q := PageQuery(Bound(log, j), limit);
    FilterMembers(rows, Window(q));
    var r := Filter(rows, Window(q))[0];
    assert r in Filter(rows, Window(q)) && r in rows;
    k :| 0 <= k < |log| && log[k] == r;
    WindowIsPrefix(log, j, limit, k);
  }

  lemma HeldFrom(log: seq<Event>, rows: seq<Event>, memory: seq<Event>, jsonl: seq<Event>, m: nat, k: nat)
    requires Sources(log, rows, memory, jsonl) && AllReachable(log, rows, memory, jsonl)
    requires m <= k < |log| && log[m] in rows + memory && rows != []
    ensures log[k] in rows || log[k] in memory
  {
    assert Reachable(log[k], rows, memory, jsonl);
    if OlderThanAll(log[k], rows + memory) {
      assert log[k].number < log[m].number;
    }
  }

  /** When it has none, the file and the journal hold all of the window. */
  lemma FileRange(log: seq<Event>, rows: seq<Event>, memory: seq<Event>, jsonl: seq<Event>, j: nat, limit: nat)
    requires Sources(log, rows, memory, jsonl) && AllReachable(log, rows, memory, jsonl) && j <= |log|
    requires Filter(rows, Window(PageQuery(Bound(log, j), limit))) == []
    ensures Filter(log, OnPage(rows, memory, jsonl, PageQuery(Bound(log, j), limit))) == log[0..j]
  {
    var q := PageQuery(Bound(log, j), limit);
    FilterMembers(rows, Window(q));
    forall k | 0 <= k < |log|
      ensures OnPage(rows, memory, jsonl, q)(log[k]) <==> 0 <= k < j
    {
      WindowIsPrefix(log, j, limit, k);
      if k < j {
        assert Reachable(log[k], rows, memory, jsonl);
        assert log[k] !in Filter(rows, Window(q));
      }
    }
    FilterIsRange(log, OnPage(rows, memory, jsonl, q), 0, j);
  }

  /** The page before position `j` is a stretch of the log that ends there. */
  ghost predicate PageIsRange(page: Option<int> -> seq<Event>, log: seq<Event>, j: nat)
    requires j <= |log|
  {
    exists i :: 0 <= i <= j && (j > 0 ==> i < j) && page(Bound(log, j)) == log[i..j]
  }

  lemma PageRange(log: seq<Event>, rows: seq<Event>, memory: seq<Event>, jsonl: seq<Event>, j: nat, limit: nat)
    requires Sources(log, rows, memory, jsonl) && AllReachable(log, rows, memory, jsonl)
    requires j <= |log| && limit >= 1
    ensures PageIsRange(PageOf(rows, memory, jsonl, limit), log, j)
  {
    var q := PageQuery(Bound(log, j), limit);
    PageIs(log, rows, memory, jsonl, Bound(log, j), limit);
    var m := 0;
    if Filter(rows, Window(q)) != [] {
      m := StoreRange(log, rows, memory, jsonl, j, limit);
    } else {
      FileRange(log, rows, memory, jsonl, j, limit);
    }
    var i := LastOfRange(log, m, j, limit);
    assert PageOf(rows, memory, jsonl, limit)(Bound(log, j)) == log[i..j];
  }

  lemma LastOfRange(log: seq<Event>, m: nat, j: nat, limit: nat) returns (i: nat)
    requires m <= j <= |log| && (j > 0 ==> m < j) && limit >= 1
    ensures i <= j && (j > 0 ==> i < j) && LastK(log[m..j], limit) == log[i..j]
  {
    i := if limit >= j - m then m else j - limit;
  }

  // ------------------------------------------------------------ all pages

  lemma {:induction false} ReadBackRanges(page: Option<int> -> seq<Event>, log: seq<Event>, j: nat)
    requires IsLog(log) && j <= |log| && forall k :: 0 <= k <= |log| ==> PageIsRange(page, log, k)
    ensures ReadBack(page, Bound(log, j)) == log[..j]
    decreases j
  {
    if j > 0 {
      var i := RangeStart(page, log, j);
      ReadBackRanges(page, log, i);
      ReadBackOne(page, log, i, j);
    } else {
      var _ := RangeStart(page, log, 0);
    }
  }

  lemma RangeStart(page: Option<int> -> seq<Event>, log: seq<Event>, j: nat) returns (i: nat)
    requires j <= |log| && PageIsRange(page, log, j)
    ensures i <= j && (j > 0 ==> i < j) && page(Bound(log, j)) == log[i..j]
  {
    i :| 0 <= i <= j && (j > 0 ==> i < j) && page(Bound(log, j)) == log[i..j];
  }

  lemma ReadBackOne(page: Option<int> -> seq<Event>, log: seq<Event>, i: nat, j: nat)
    requires IsLog(log) && i < j <= |log| && page(Bound(log, j)) == log[i..j]
    requires ReadBack(page, Bound(log, i)) == log[..i]
    ensures ReadBack(page, Bound(log, j)) == log[..j]
  {
    assert log[i..j][0] == log[i];
    assert log[..i] + log[i..j] == log[..j];
  }

  /** Whatever the page size, reachable events are all read, once each, in order. */
  lemma ReachableIsRead(
    log: seq<Event>, rows: seq<Event>, memory: seq<Event>, jsonl: seq<Event>, limit: nat)
    requires Sources(log, rows, memory, jsonl) && AllReachable(log, rows, memory, jsonl) && limit >= 1
    ensures ReadBack(PageOf(rows, memory, jsonl, limit), None) == log
  {
    forall j | 0 <= j <= |log|
      ensures PageIsRange(PageOf(rows, memory, jsonl, limit), log, j)
    {
      PageRange(log, rows, memory, jsonl, j, limit);
    }
    ReadBackRanges(PageOf(rows, memory, jsonl, limit), log, |log|);
    assert log[..|log|] == log;
  }

  /** What is on a page is in its window, and comes from where the page was taken. */
  lemma OnlyHeldIsOnPage(
    log: seq<Event>, rows: seq<Event>, memory: seq<Event>, jsonl: seq<Event>,
    before: Option<int>, limit: nat, e: Event)
    requires Sources(log, rows, memory, jsonl) && limit >= 1
    requires e in PageOf(rows, memory, jsonl, limit)(before)
    ensures OnPage(rows, memory, jsonl, PageQuery(before, limit))(e) && e in log
    ensures before.Some? ==> e.number < before.value
  {
    var p := OnPage(rows, memory, jsonl, PageQuery(before, limit));
    PageIs(log, rows, memory, jsonl, before, limit);
    FilterMembers(log, p);
    LastKMember(Filter(log, p), limit, e);
  }

  lemma LastKMember(s: seq<Event>, k: nat, e: Event)
    requires e in LastK(s, k)
    ensures e in s
  {
  }

  /** What is read from a bound on is below it, and was on some page. */
  lemma {:induction false} ReadIsOnSomePage(
    log: seq<Event>, rows: seq<Event>, memory: seq<Event>, jsonl: seq<Event>,
    limit: nat, before: Option<int>, e: Event) returns (at: Option<int>)
    requires Sources(log, rows, memory, jsonl) && limit >= 1
    requires e in ReadBack(PageOf(rows, memory, jsonl, limit), before)
    ensures e in PageOf(rows, memory, jsonl, limit)(at)
    ensures before.Some? ==> e.number < before.value
    decreases before.None?, if before.Some? then Max0(before.value) else 0
  {
    var p := PageOf(rows, memory, jsonl, limit)(before);
    if e in p {
      OnlyHeldIsOnPage(log, rows, memory, jsonl, before, limit, e);
      at := before;
    } else {
      OnlyHeldIsOnPage(log, rows, memory, jsonl, before, limit, p[0]);
      at := ReadIsOnSomePage(log, rows, memory, jsonl, limit, Some(p[0].number), e);
    }
  }

  /** An event that store and journal missed, above some row of the store, is lost
      at every page size, file or not. */
  lemma GapIsLost(
    log: seq<Event>, rows: seq<Event>, memory: seq<Event>, jsonl: seq<Event>, limit: nat, e: Event, r: Event)
    requires Sources(log, rows, memory, jsonl) && limit >= 1
    requires e !in rows && e !in memory && r in rows && r.number < e.number
    ensures e !in ReadBack(PageOf(rows, memory, jsonl, limit), None)
  {
    if e in ReadBack(PageOf(rows, memory, jsonl, limit), None) {
      var at := ReadIsOnSomePage(log, rows, memory, jsonl, limit, None, e);
      OnlyHeldIsOnPage(log, rows, memory, jsonl, at, limit, e);
      InLog(log, r);
      HeldIsRows(rows, jsonl, PageQuery(at, limit), r);
    }
  }

  lemma HeldIsRows(rows: seq<Event>, jsonl: seq<Event>, q: Query, r: Event)
    requires r in rows && InWindow(q, r)
    ensures Held(rows, jsonl, q) == rows
  {
    FilterMembers(rows, Window(q));
    assert r in Filter(rows, Window(q));
  }

  /** A page that is large enough holds all of the store and the journal. */
  lemma LargePage(log: seq<Event>, rows: seq<Event>, memory: seq<Event>, jsonl: seq<Event>)
    requires Sources(log, rows, memory, jsonl) && rows != []
    ensures var p := PageOf(rows, memory, jsonl, |log| + 1)(None);
            && p != [] && Increasing(p) && forall e :: e in p <==> e in rows || e in memory
  {
    var q := PageQuery(None, |log| + 1);
    PageIs(log, rows, memory, jsonl, None, |log| + 1);
    var all := OnPage(rows, memory, jsonl, q);
    AllPositive(log);
    assert rows[0] in log;
    HeldIsRows(rows, jsonl, q, rows[0]);
    FilterIsShorter(log, all);
    FilterMembers(log, all);
    assert rows[0] in Filter(log, all);
  }

  lemma {:induction false} FilterIsShorter(s: seq<Event>, p: Event -> bool)
    ensures |Filter(s, p)| <= |s|
  {
    if |s| > 0 {
      FilterIsShorter(s[..|s| - 1], p);
    }
  }

  /** What is read with large pages is reachable. */
  lemma ReadIsReachable(log: seq<Event>, rows: seq<Event>, memory: seq<Event>, jsonl: seq<Event>, e: Event)
    requires Sources(log, rows, memory, jsonl)
    requires e in ReadBack(PageOf(rows, memory, jsonl, |log| + 1), None)
    ensures Reachable(e, rows, memory, jsonl)
  {
    var limit := |log| + 1;
    var page := PageOf(rows, memory, jsonl, limit);
    var at := ReadIsOnSomePage(log, rows, memory, jsonl, limit, None, e);
    OnlyHeldIsOnPage(log, rows, memory, jsonl, at, limit, e);
    if e !in rows && e !in memory && rows != [] {
      LargePage(log, rows, memory, jsonl);
      var p := page(None);
      assert e !in p && e in ReadBack(page, Some(p[0].number));
      var _ := ReadIsOnSomePage(log, rows, memory, jsonl, limit, Some(p[0].number), e);
      FirstIsLeast(p, rows + memory, e.number);
      assert OlderThanAll(e, rows + memory);
    }
  }

  lemma FirstIsLeast(p: seq<Event>, held: seq<Event>, n: int)
    requires p != [] && Increasing(p) && n < p[0].number && forall e :: e in held ==> e in p
    ensures forall r :: r in held ==> n < r.number
  {
    forall r | r in held
      ensures n < r.number
    {
      var i :| 0 <= i < |p| && p[i] == r;
    }
  }

  /** Paging back enumerates every event of the log exactly once, in order, at
      every page size, if and only if every event is reachable. */
  lemma PagingEnumeratesTheLog(log: seq<Event>, rows: seq<Event>, memory: seq<Event>, jsonl: seq<Event>)
    requires Sources(log, rows, memory, jsonl)
    ensures (forall limit: nat :: limit >= 1 ==> ReadBack(PageOf(rows, memory, jsonl, limit), None) == log)
       <==> AllReachable(log, rows, memory, jsonl)
  {
    if AllReachable(log, rows, memory, jsonl) {
      forall limit: nat | limit >= 1
        ensures ReadBack(PageOf(rows, memory, jsonl, limit), None) == log
      {
        ReachableIsRead(log, rows, memory, jsonl, limit);
      }
    }
    if forall limit: nat :: limit >= 1 ==> ReadBack(PageOf(rows, memory, jsonl, limit), None) == log {
      assert ReadBack(PageOf(rows, memory, jsonl, |log| + 1), None) == log;
      forall e | e in log
        ensures Reachable(e, rows, memory, jsonl)
      {
        ReadIsReachable(log, rows, memory, jsonl, e);
      }
    }
  }
}

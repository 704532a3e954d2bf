/** From the recorder through the event store and back: a run that is paged out
    of the store again gives the tree that was recorded. */
module TraceReplay {
  import Common
  import opened Text
  import opened Events
  import opened Recorder
  import opened RecorderTree
  import Replay
  import Paging

  /** A text that does not begin with white space is not blank. */
  lemma {:induction false} NotBlank(s: string)
    requires |s| > 0 && !IsSpace(s[0])
    ensures !Blank(s)
  {
    if IsSpace(s[|s| - 1]) {
      NotBlank(s[..|s| - 1]);
    }
  }

  lemma JournalIsLog(journal: seq<Event>, root: string)
    requires IsJournal(journal, root)
    ensures Replay.IsLog(journal)
  {
    forall i | 0 <= i < |journal|
      ensures journal[i].number >= 1 && !Blank(journal[i].eventId)
    {
      assert EventOk(journal[i], i + 1);
      NotBlank(journal[i].eventId);
    }
    forall i, j | 0 <= i < j < |journal|
      ensures journal[i].number < journal[j].number
    {
      assert EventOk(journal[i], i + 1) && EventOk(journal[j], j + 1);
    }
  }

  /** Every journal is a log, whatever spans were opened. */
  lemma RecordedRunIsLog(r: Run)
    requires RootOf(r) != ""
    ensures Replay.IsLog(Final(r).journal)
  {
    RunIsFormed(r);
    JournalIsLog(Final(r).journal, RootOf(r));
  }

  /** Whatever order the store keeps its rows in, and whatever it missed: paging
      back through the store returns the recorded events at every page size if
      and only if every event is reachable ... */
  lemma RecordedRunIsReadIff(r: Run, rows: seq<Event>, memory: seq<Event>, jsonl: seq<Event>)
    requires RootOf(r) != "" && Holdings(Final(r).journal, rows, memory, jsonl)
    ensures (forall limit: nat :: limit >= 1 ==>
               Paging.ReadBack(Paging.PageOf(rows, memory, jsonl, limit), Common.None) == Final(r).journal)
       <==> Paging.AllReachable(Final(r).journal, rows, memory, jsonl)
  {
    RecordedRunIsLog(r);
    Paging.PagingEnumeratesTheLog(Final(r).journal, rows, memory, jsonl);
  }

  /** The store, the journal and the file hold recorded events, the store none twice. */
  predicate Holdings(journal: seq<Event>, rows: seq<Event>, memory: seq<Event>, jsonl: seq<Event>) {
    && Replay.From(journal, rows) && Replay.From(journal, memory) && Replay.From(journal, jsonl)
    && Replay.NoRepeats(rows)
  }

  /** ... and then they were one tree at every moment if and only if every event
      was placeable, and of a guarded run they are. */
  lemma StoredRunRebuildsItsTree(r: Run, rows: seq<Event>, memory: seq<Event>, jsonl: seq<Event>, limit: nat)
    requires RootOf(r) != "" && limit >= 1 && Holdings(Final(r).journal, rows, memory, jsonl)
    requires Paging.AllReachable(Final(r).journal, rows, memory, jsonl)
    ensures var events := Paging.ReadBack(Paging.PageOf(rows, memory, jsonl, limit), Common.None);
            && events == Final(r).journal
            && (AlwaysOneTree(events, RootOf(r)) <==> AllPlaced(events))
            && (Guarded(r) ==> AlwaysOneTree(events, RootOf(r)) && IsOneTree(events, RootOf(r)))
  {
    RecordedRunIsReadIff(r, rows, memory, jsonl);
    RunIsOneTreeIff(r);
    if Guarded(r) {
      GuardedRunIsAlwaysOneTree(r);
      GuardedRunIsOneTree(r);
    }
  }
}

/** When the journal of a recorder run is one tree: exactly when every kept event
    names a span, or a parent, that is already shown; and a discipline that
    callers can follow to see to it. */
module RecorderTree {
  import opened Common
  import opened Events
  import opened SpanTree
  import opened Recorder

  // --------------------------------------------------------------- journals

  /** The spans that the tree of a journal shows. */
  function Shown(journal: seq<Event>): set<string> { Gather(journal).parent.Keys }

  /** The span tree of the journal has the given root as its only root, no
      orphan and no cycle, and every link it recorded is kept. */
  ghost predicate IsOneTree(journal: seq<Event>, root: string) {
    var nodes := Gather(journal);
    && NodesOk(nodes) && IsForest(nodes.order, Link(nodes))
    && Link(nodes).roots == [root]
    && Link(nodes).orphans == 0 && Link(nodes).cycles == 0
    && Link(nodes).par == nodes.parent
  }

  ghost predicate JournalOk(journal: seq<Event>, root: string) {
    NodesOk(Gather(journal)) && Rooted(Gather(journal)) && Gather(journal).order[0] == root
  }

  lemma JournalIsOneTree(journal: seq<Event>, root: string)
    requires JournalOk(journal, root)
    ensures IsOneTree(journal, root)
  {
    RootedTree(Gather(journal));
    SpansFormForest(journal);
  }

  /** The event is left out of the tree, or its span or its parent is shown. */
  predicate Placeable(journal: seq<Event>, e: Event) {
    Omitted(e.kind) || e.spanId in Shown(journal) || e.parent in Shown(journal)
  }

  lemma GatherAppend(journal: seq<Event>, e: Event)
    ensures Gather(journal + [e]) == AddEvent(Gather(journal), e)
  {
    assert (journal + [e])[..|journal|] == journal;
  }

  lemma AddedRooted(g: Nodes, id: string, above: string)
    requires NodesOk(g) && Rooted(g) && id !in g.parent && above in g.parent
    ensures Rooted(Nodes(g.order + [id], g.parent[id := above]))
  {
    var h := Nodes(g.order + [id], g.parent[id := above]);
    assert h.order[|g.order|] == id && forall x :: x in g.order <==> x in g.parent;
    forall i | 0 < i < |h.order|
      ensures ParentIsEarlier(h, i)
    {
      assert h.order[..i] == g.order[..i];
      if i < |g.order| {
        assert h.order[i] == g.order[i] && g.order[i] in g.order;
        assert ParentIsEarlier(g, i);
      } else {
        assert h.order[..i] == g.order;
      }
    }
    assert h.order[0] == g.order[0] && g.order[0] in g.order;
  }

  lemma PlaceableKeepsTree(journal: seq<Event>, e: Event, root: string)
    requires JournalOk(journal, root) && e.spanId != "" && Placeable(journal, e)
    ensures JournalOk(journal + [e], root)
  {
    GatherAppend(journal, e);
    if !Omitted(e.kind) && e.spanId !in Shown(journal) {
      AddedRooted(Gather(journal), e.spanId, e.parent);
      AddEventOk(Gather(journal), e);
    }
  }

  /** A new span whose parent is itself or is not there. */
  lemma StrayIsNoTree(g: Nodes, id: string, root: string)
    requires NodesOk(g) && id in g.parent && id != root
    requires g.parent[id] == id || g.parent[id] !in g.parent
    ensures Link(g).roots != [root] || Link(g).cycles != 0 || Link(g).par != g.parent
  {
    if g.parent[id] == id {
      SelfParentIsCycle(g.parent, id);
      CycleDetectionIsExact(g);
    } else if Link(g).par == g.parent {
      RootsAre(g);
      StrayIsRoot(g, id);
    }
  }

  lemma SelfParentIsCycle(par: Parents, id: string)
    requires id in par && par[id] == id
    ensures !Acyclic(par)
  {
    assert Up(par, id, 1) == Up(par, id, 0) == id;
    assert OnCycle(par, id);
  }

  lemma StrayIsRoot(g: Nodes, id: string)
    requires NodesOk(g) && id in g.parent && g.parent[id] !in g.parent
    ensures id in RootsOf(g.order, g.parent)
  {
    RootsMembers(g.order, g.parent);
  }

  lemma RootsAre(g: Nodes)
    requires NodesOk(g) && Link(g).par == g.parent
    ensures Link(g).roots == RootsOf(g.order, g.parent)
  {
    LinkFirstLinked(g, |g.order|);
    assert g.order[..|g.order|] == g.order;
  }

  lemma StrayBreaksTree(journal: seq<Event>, e: Event, root: string)
    requires JournalOk(journal, root) && e.spanId != "" && !Placeable(journal, e)
    ensures !IsOneTree(journal + [e], root)
  {
    var g := Gather(journal);
    GatherAppend(journal, e);
    AddEventOk(g, e);
    assert g.order[0] in g.order;
    StrayIsNoTree(Gather(journal + [e]), e.spanId, root);
  }

  /** One more event keeps one tree if and only if it is placeable. */
  lemma EventPlacedIff(journal: seq<Event>, e: Event, root: string)
    requires JournalOk(journal, root) && e.spanId != ""
    ensures IsOneTree(journal + [e], root) <==> Placeable(journal, e)
    ensures Placeable(journal, e) ==> JournalOk(journal + [e], root)
  {
    if Placeable(journal, e) {
      PlaceableKeepsTree(journal, e, root);
      JournalIsOneTree(journal + [e], root);
    } else {
      StrayBreaksTree(journal, e, root);
    }
  }

  predicate PlacedAt(journal: seq<Event>, i: nat)
    requires i < |journal|
  {
    Placeable(journal[..i], journal[i])
  }

  /** Every event but the first was placeable when it was emitted. */
  predicate AllPlaced(journal: seq<Event>) {
    forall i :: 1 <= i < |journal| ==> PlacedAt(journal, i)
  }

  ghost predicate TreeAt(journal: seq<Event>, n: nat, root: string)
    requires n <= |journal|
  {
    IsOneTree(journal[..n], root)
  }

  /** The journal is one tree after every event. */
  ghost predicate AlwaysOneTree(journal: seq<Event>, root: string) {
    forall n :: 1 <= n <= |journal| ==> TreeAt(journal, n, root)
  }

  lemma FirstEventOk(journal: seq<Event>, root: string)
    requires IsJournal(journal, root)
    ensures JournalOk(journal[..1], root)
  {
    var e := journal[0];
    assert journal[..1] == [] + [e] && EventOk(e, 1);
    GatherAppend([], e);
    assert Gather(journal[..1]) == Nodes([root], map[root := ""]);
  }

  lemma NextEvent(journal: seq<Event>, n: nat, root: string)
    requires IsJournal(journal, root) && 1 <= n < |journal| && JournalOk(journal[..n], root)
    ensures TreeAt(journal, n + 1, root) <==> PlacedAt(journal, n)
    ensures PlacedAt(journal, n) ==> JournalOk(journal[..n + 1], root)
  {
    assert journal[..n + 1] == journal[..n] + [journal[n]] && EventOk(journal[n], n + 1);
    EventPlacedIff(journal[..n], journal[n], root);
  }

  lemma {:induction false} PlacedIsTree(journal: seq<Event>, n: nat, root: string)
    requires IsJournal(journal, root) && 1 <= n <= |journal|
    requires forall i :: 1 <= i < n ==> PlacedAt(journal, i)
    ensures JournalOk(journal[..n], root)
  {
    if n == 1 {
      FirstEventOk(journal, root);
    } else {
      PlacedIsTree(journal, n - 1, root);
      NextPlaced(journal, n - 1, root);
    }
  }

  lemma NextPlaced(journal: seq<Event>, n: nat, root: string)
    requires IsJournal(journal, root) && 1 <= n < |journal| && JournalOk(journal[..n], root)
    requires PlacedAt(journal, n)
    ensures JournalOk(journal[..n + 1], root)
  {
    NextEvent(journal, n, root);
  }

  lemma {:induction false} TreeIsPlaced(journal: seq<Event>, n: nat, root: string)
    requires IsJournal(journal, root) && 1 <= n <= |journal|
    requires forall m :: 1 <= m <= n ==> TreeAt(journal, m, root)
    ensures JournalOk(journal[..n], root)
  {
    if n == 1 {
      FirstEventOk(journal, root);
    } else {
      TreeIsPlaced(journal, n - 1, root);
      NextTree(journal, n - 1, root);
    }
  }

  lemma NextTree(journal: seq<Event>, n: nat, root: string)
    requires IsJournal(journal, root) && 1 <= n < |journal| && JournalOk(journal[..n], root)
    requires TreeAt(journal, n + 1, root)
    ensures PlacedAt(journal, n) && JournalOk(journal[..n + 1], root)
  {
    NextEvent(journal, n, root);
  }

  /** A journal is one tree after every event if and only if every kept event
      named a span, or a parent, that was shown before. */
  lemma AlwaysOneTreeIff(journal: seq<Event>, root: string)
    requires IsJournal(journal, root)
    ensures AlwaysOneTree(journal, root) <==> AllPlaced(journal)
  {
    if AllPlaced(journal) {
      forall n | 1 <= n <= |journal|
        ensures TreeAt(journal, n, root)
      {
        PlacedIsTree(journal, n, root);
        JournalIsOneTree(journal[..n], root);
      }
    }
    if AlwaysOneTree(journal, root) {
      forall i | 1 <= i < |journal|
        ensures PlacedAt(journal, i)
      {
        TreeIsPlaced(journal, i, root);
        NextTree(journal, i, root);
      }
    }
  }

  /** So it is for every run, whatever spans are opened and left unannounced. */
  lemma RunIsOneTreeIff(r: Run)
    requires RootOf(r) != ""
    ensures AlwaysOneTree(Final(r).journal, RootOf(r)) <==> AllPlaced(Final(r).journal)
  {
    RunIsFormed(r);
    AlwaysOneTreeIff(Final(r).journal, RootOf(r));
  }

  /** Every shown span but the root was recorded below a shown one, and no span is
      its own ancestor. */
  predicate AllBelowShown(nodes: Nodes, root: string) {
    forall id :: id in nodes.parent && id != root ==> nodes.parent[id] in nodes.parent
  }

  lemma RootIsGathered(journal: seq<Event>, root: string)
    requires IsJournal(journal, root)
    ensures root in Gather(journal).parent && Gather(journal).parent[root] == ""
  {
    var e := journal[0];
    assert journal == [e] + journal[1..] && EventOk(e, 1);
    GatherAppend([], e);
    assert [] + [e] == [e] && Gather([e]) == Nodes([root], map[root := ""]);
    LaterEventsKeepParents([e], journal[1..], root);
  }

  lemma OnlyMember(s: seq<string>, x: string)
    requires DistinctIds(s) && |s| > 0 && forall i :: 0 <= i < |s| ==> s[i] == x
    ensures s == [x]
  {
    if |s| > 1 {
      FirstTwoDiffer(s);
    }
  }

  lemma FirstTwoDiffer(s: seq<string>)
    requires DistinctIds(s) && |s| > 1
    ensures s[0] != s[1]
  {
  }

  lemma {:induction false} NoOrphans(ids: seq<string>, par: Parents)
    requires forall id :: id in ids ==> ParentIn(par, id) == "" || ParentIn(par, id) in par
    ensures OrphansOf(ids, par) == []
  {
    if |ids| > 0 {
      assert ids[|ids| - 1] in ids;
      NoOrphans(ids[..|ids| - 1], par);
    }
  }

  lemma BelowShownHasOneRoot(g: Nodes, root: string)
    requires NodesOk(g) && root in g.parent && g.parent[root] == "" && AllBelowShown(g, root)
    ensures RootsOf(g.order, g.parent) == [root]
  {
    var roots := RootsOf(g.order, g.parent);
    RootsMembers(g.order, g.parent);
    assert root in roots;
    forall i | 0 <= i < |roots|
      ensures roots[i] == root
    {
      assert roots[i] in roots;
    }
    OnlyMember(roots, root);
  }

  lemma BelowShownIsTree(g: Nodes, root: string)
    requires NodesOk(g) && root in g.parent && g.parent[root] == ""
    requires AllBelowShown(g, root) && Acyclic(g.parent)
    ensures Link(g).roots == [root] && Link(g).orphans == 0 && Link(g).cycles == 0 && Link(g).par == g.parent
  {
    CycleDetectionIsExact(g);
    RootsAre(g);
    BelowShownHasOneRoot(g, root);
    NoOrphans(g.order, g.parent);
  }

  lemma OneRootIsBelowShown(g: Nodes, root: string)
    requires NodesOk(g) && RootsOf(g.order, g.parent) == [root]
    ensures AllBelowShown(g, root)
  {
    RootsMembers(g.order, g.parent);
    forall id | id in g.parent && id != root
      ensures g.parent[id] in g.parent
    {
      assert id !in RootsOf(g.order, g.parent);
    }
  }

  lemma TreeIsBelowShown(g: Nodes, root: string)
    requires NodesOk(g) && Link(g).roots == [root] && Link(g).cycles == 0 && Link(g).par == g.parent
    ensures AllBelowShown(g, root) && Acyclic(g.parent)
  {
    CycleDetectionIsExact(g);
    RootsAre(g);
    OneRootIsBelowShown(g, root);
  }

  /** A run ends in one tree, whatever it was in between, if and only if every
      shown span but the root was recorded below a shown one and the recorded
      parents are acyclic. */
  lemma RunEndsInOneTreeIff(r: Run)
    requires RootOf(r) != ""
    ensures var g := Gather(Final(r).journal);
            IsOneTree(Final(r).journal, RootOf(r)) <==> AllBelowShown(g, RootOf(r)) && Acyclic(g.parent)
  {
    RunIsFormed(r);
    JournalIsOneTreeIff(Final(r).journal, RootOf(r));
  }

  lemma JournalIsOneTreeIff(journal: seq<Event>, root: string)
    requires IsJournal(journal, root)
    ensures IsOneTree(journal, root) <==> AllBelowShown(Gather(journal), root) && Acyclic(Gather(journal).parent)
  {
    var g := Gather(journal);
    GatherOk(journal);
    RootIsGathered(journal, root);
    if IsOneTree(journal, root) {
      TreeIsBelowShown(g, root);
    }
    if AllBelowShown(g, root) && Acyclic(g.parent) {
      BelowShownIsTree(g, root);
      SpansFormForest(journal);
    }
  }

  /** What a caller can check before an event: its span, or the parent it will be
      given, has been shown. */
  lemma EmitKeepsOneTreeIff(s: State, a: Actor, kind: string, span: string, parent: string, root: string)
    requires JournalOk(s.journal, root) && a in s.contexts && s.contexts[a].root == root
    requires Resolved(s.contexts[a], span) != ""
    ensures IsOneTree(Emit(s, a, kind, span, parent).journal, root)
       <==> Omitted(kind)
            || Resolved(s.contexts[a], span) in Shown(s.journal)
            || (if parent != "" then parent else s.contexts[a].parent) in Shown(s.journal)
  {
    var e := Emit(s, a, kind, span, parent).journal[|s.journal|];
    EventPlacedIff(s.journal, e, root);
    assert Gather(s.journal).order[0] in Gather(s.journal).order;
  }

  // -------------------------------------------------------------- invariant

  /** The current span is shown, or the span it was opened in is. */
  predicate ContextOk(shown: set<string>, origin: map<string, string>, root: string, ctx: Context) {
    && ctx.root == root
    && (ctx.span in shown || (ctx.span in origin && ctx.parent == origin[ctx.span] && ctx.parent in shown))
  }

  /** An open span was opened in a shown one; only the root was opened in none. */
  predicate HandleOk(shown: set<string>, origin: map<string, string>, h: OpenSpan) {
    && h.span in origin && h.parent == origin[h.span]
    && (h.parent in shown || (h.parent == "" && h.span in shown))
  }

  predicate EntryOk(shown: set<string>, origin: map<string, string>, e: SpanEntry) {
    && HandleOk(shown, origin, e.handle) && e.handle.key == BySpan(e.handle.span)
    && (e.key.BySpan? ==> e.key == e.handle.key)
  }

  predicate SpansOk(shown: set<string>, origin: map<string, string>, spans: seq<SpanEntry>) {
    forall i :: 0 <= i < |spans| ==> EntryOk(shown, origin, spans[i])
  }

  predicate ContextsOk(
    shown: set<string>, origin: map<string, string>, root: string, contexts: map<Actor, Context>, known: set<Context>)
  {
    && (forall ctx :: ctx in known ==> ContextOk(shown, origin, root, ctx))
    && (forall a :: a in contexts ==> ContextOk(shown, origin, root, contexts[a]))
  }

  /** The tree's links are the openings. */
  predicate TreeIsOrigin(parent: map<string, string>, origin: map<string, string>) {
    forall id :: id in parent ==> id in origin && parent[id] == origin[id]
  }

  ghost predicate Inv(s: State, root: string) {
    var shown := Shown(s.journal);
    && JournalOk(s.journal, root)
    && "" !in s.origin
    && TreeIsOrigin(Gather(s.journal).parent, s.origin)
    && SpansOk(shown, s.origin, s.spans)
    && ContextsOk(shown, s.origin, root, s.contexts, s.known)
  }

  lemma ContextsGrow(
    shown: set<string>, origin: map<string, string>, shown': set<string>, origin': map<string, string>,
    root: string, contexts: map<Actor, Context>, known: set<Context>)
    requires ContextsOk(shown, origin, root, contexts, known) && shown <= shown'
    requires forall id :: id in origin ==> id in origin' && origin'[id] == origin[id]
    ensures ContextsOk(shown', origin', root, contexts, known)
  {
  }

  lemma SpansGrow(
    shown: set<string>, origin: map<string, string>, shown': set<string>, origin': map<string, string>,
    spans: seq<SpanEntry>)
    requires SpansOk(shown, origin, spans) && shown <= shown'
    requires forall id :: id in origin ==> id in origin' && origin'[id] == origin[id]
    ensures SpansOk(shown', origin', spans)
  {
  }

  lemma PutSpanOk(
    shown: set<string>, origin: map<string, string>, spans: seq<SpanEntry>, key: Key, h: OpenSpan)
    requires SpansOk(shown, origin, spans) && EntryOk(shown, origin, SpanEntry(key, h))
    ensures SpansOk(shown, origin, PutSpan(spans, key, h))
  {
  }

  lemma PopSpanOk(shown: set<string>, origin: map<string, string>, spans: seq<SpanEntry>, key: Key)
    requires SpansOk(shown, origin, spans)
    ensures SpansOk(shown, origin, PopSpan(spans, key))
  {
  }

  lemma {:induction false} GrandparentOk(
    shown: set<string>, origin: map<string, string>, spans: seq<SpanEntry>, span: string)
    requires SpansOk(shown, origin, spans) && GrandparentOf(spans, span) != ""
    ensures span in origin && GrandparentOf(spans, span) == origin[span] && origin[span] in shown
  {
    assert EntryOk(shown, origin, spans[0]);
    if spans[0].handle.span != span {
      assert forall i :: 0 <= i < |spans| - 1 ==> spans[1..][i] == spans[i + 1];
      GrandparentOk(shown, origin, spans[1..], span);
    }
  }

  // ------------------------------------------------------------- every step

  /** The event names a shown span, or a span below the shown one it was opened in. */
  predicate WellPlaced(s: State, a: Actor, span: string, parent: string)
    requires a in s.contexts
  {
    var id := Resolved(s.contexts[a], span);
    var above := if parent != "" then parent else s.contexts[a].parent;
    id in Shown(s.journal) || (id in s.origin && above == s.origin[id] && above in Shown(s.journal))
  }

  lemma EmitGathers(s: State, a: Actor, kind: string, span: string, parent: string, root: string)
    requires JournalOk(s.journal, root) && a in s.contexts && s.contexts[a].root == root
    requires "" !in s.origin && TreeIsOrigin(Gather(s.journal).parent, s.origin)
    requires Omitted(kind) || WellPlaced(s, a, span, parent)
    ensures var journal := Emit(s, a, kind, span, parent).journal;
            && JournalOk(journal, root) && Shown(s.journal) <= Shown(journal)
            && TreeIsOrigin(Gather(journal).parent, s.origin)
            && (!Omitted(kind) ==> Resolved(s.contexts[a], span) in Shown(journal))
  {
    var e := Emit(s, a, kind, span, parent).journal[|s.journal|];
    GatherAppend(s.journal, e);
    assert Gather(s.journal).order[0] in Gather(s.journal).order;
    if !Omitted(kind) {
      PlaceableKeepsTree(s.journal, e, root);
    }
  }

  lemma EmitOk(s: State, a: Actor, kind: string, span: string, parent: string, root: string)
    requires Inv(s, root) && a in s.contexts && (Omitted(kind) || WellPlaced(s, a, span, parent))
    ensures Inv(Emit(s, a, kind, span, parent), root)
    ensures Shown(s.journal) <= Shown(Emit(s, a, kind, span, parent).journal)
    ensures !Omitted(kind) ==> Resolved(s.contexts[a], span) in Shown(Emit(s, a, kind, span, parent).journal)
  {
    EmitGathers(s, a, kind, span, parent, root);
    var shown' := Shown(Emit(s, a, kind, span, parent).journal);
    ContextsGrow(Shown(s.journal), s.origin, shown', s.origin, root, s.contexts, s.known);
    SpansGrow(Shown(s.journal), s.origin, shown', s.origin, s.spans);
  }

  /** A plain event can be emitted in every context. */
  lemma PlainEmitOk(s: State, a: Actor, kind: string, root: string)
    requires Inv(s, root) && a in s.contexts
    ensures Inv(Emit(s, a, kind, "", ""), root)
    ensures !Omitted(kind) ==> s.contexts[a].span in Shown(Emit(s, a, kind, "", "").journal)
  {
    EmitOk(s, a, kind, "", "", root);
  }

  lemma StartSpanOk(s: State, a: Actor, id: string, root: string)
    requires Inv(s, root) && a in s.contexts && Fresh(s, id) && s.contexts[a].span in Shown(s.journal)
    ensures Inv(StartSpan(s, a, id), root)
    ensures var above := s.contexts[a].span;
            HandleOk(Shown(s.journal), StartSpan(s, a, id).origin, OpenSpan(BySpan(id), id, above))
  {
    var ctx, shown := s.contexts[a], Shown(s.journal);
    var h, origin := OpenSpan(BySpan(id), id, ctx.span), s.origin[id := ctx.span];
    assert "" !in Gather(s.journal).parent;
    ContextsGrow(shown, s.origin, shown, origin, root, s.contexts, s.known);
    SpansGrow(shown, s.origin, shown, origin, s.spans);
    PutSpanOk(shown, origin, s.spans, BySpan(id), h);
    assert ContextOk(shown, origin, root, Child(ctx, id, ctx.span));
  }

  lemma EndSpanOk(s: State, a: Actor, key: Key, root: string)
    requires Inv(s, root) && a in s.contexts
    ensures Inv(EndSpan(s, a, key), root)
  {
    var found, shown := Lookup(s.spans, key), Shown(s.journal);
    if found.Some? {
      assert EntryOk(shown, s.origin, s.spans[EntryIndex(s.spans, key)]);
      PopSpanOk(shown, s.origin, s.spans, key);
      PopSpanOk(shown, s.origin, PopSpan(s.spans, key), found.value.key);
      assert ContextOk(shown, s.origin, root, EndSpan(s, a, key).contexts[a]);
    }
  }

  lemma HandleGrows(shown: set<string>, shown': set<string>, origin: map<string, string>, h: OpenSpan)
    requires HandleOk(shown, origin, h) && shown <= shown'
    ensures HandleOk(shown', origin, h)
  {
  }

  /** An event can be put on any open span. */
  lemma EmitOnOk(s: State, a: Actor, kind: string, handle: Option<OpenSpan>, root: string)
    requires Inv(s, root) && a in s.contexts
    requires handle.Some? ==> HandleOk(Shown(s.journal), s.origin, handle.value)
    ensures Inv(EmitOn(s, a, kind, handle), root)
    ensures Shown(s.journal) <= Shown(EmitOn(s, a, kind, handle).journal)
  {
    if handle.Some? {
      EmitOk(s, a, kind, handle.value.span, handle.value.parent, root);
    } else {
      EmitOk(s, a, kind, "", "", root);
    }
  }

  lemma LookupOk(shown: set<string>, origin: map<string, string>, spans: seq<SpanEntry>, key: Key)
    requires SpansOk(shown, origin, spans) && Lookup(spans, key).Some?
    ensures HandleOk(shown, origin, Lookup(spans, key).value)
  {
    assert EntryOk(shown, origin, spans[EntryIndex(spans, key)]);
  }

  lemma PhaseStartOk(s: State, a: Actor, name: string, id: string, root: string)
    requires Inv(s, root) && a in s.contexts && Fresh(s, id) && s.contexts[a].span in Shown(s.journal)
    ensures Inv(AfterPhaseStart(s, a, name, id), root) && id in Shown(AfterPhaseStart(s, a, name, id).journal)
  {
    var above := s.contexts[a].span;
    var h, begun := OpenSpan(BySpan(id), id, above), StartSpan(s, a, id);
    StartSpanOk(s, a, id, root);
    PutSpanOk(Shown(begun.journal), begun.origin, begun.spans, ByPhase(name), h);
    var aliased := begun.(spans := PutSpan(begun.spans, ByPhase(name), h));
    assert Inv(aliased, root);
    EmitOk(aliased, a, "phase", id, above, root);
  }

  lemma PhaseOtherOk(s: State, a: Actor, name: string, ends: bool, root: string)
    requires Inv(s, root) && a in s.contexts
    ensures Inv(AfterPhaseOther(s, a, name, ends), root)
  {
    var found := Lookup(s.spans, ByPhase(name));
    if found.Some? {
      LookupOk(Shown(s.journal), s.origin, s.spans, ByPhase(name));
    }
    EndSpanOk(s, a, ByPhase(name), root);
    EmitOnOk(if ends then EndSpan(s, a, ByPhase(name)) else s, a, "phase", found, root);
  }

  lemma BeginToolOk(s: State, a: Actor, call: string, id: string, root: string)
    requires Inv(s, root) && a in s.contexts && Fresh(s, id) && s.contexts[a].span in Shown(s.journal)
    ensures Inv(AfterBeginTool(s, a, call, id), root) && id in Shown(AfterBeginTool(s, a, call, id).journal)
  {
    StartSpanOk(s, a, id, root);
    NotedOk(StartSpan(s, a, id), a, call, id, s.contexts[a].span, root);
  }

  /** The tool table plays no part. */
  lemma NotedOk(begun: State, a: Actor, call: string, id: string, above: string, root: string)
    requires Inv(begun, root) && a in begun.contexts && WellPlaced(begun, a, id, above) && id != ""
    ensures var i, entry := ToolIndex(begun.tools, call), ToolEntry(call, BySpan(id));
            var tools := if i < |begun.tools| then begun.tools[i := entry] else begun.tools + [entry];
            var told := Emit(begun.(tools := tools), a, "tool.started", id, above);
            Inv(told, root) && id in Shown(told.journal)
  {
    var i, entry := ToolIndex(begun.tools, call), ToolEntry(call, BySpan(id));
    var tools := if i < |begun.tools| then begun.tools[i := entry] else begun.tools + [entry];
    EmitOk(begun.(tools := tools), a, "tool.started", id, above, root);
  }

  lemma FinishToolOk(s: State, a: Actor, call: string, kind: string, search: bool, root: string)
    requires Inv(s, root) && a in s.contexts
    ensures Inv(AfterFinishTool(s, a, call, kind, search), root)
  {
    var i := ToolEntryFor(s, call);
    var popped := if i < |s.tools| then s.(tools := RemoveAt(s.tools, i)) else s;
    var handle := if i < |s.tools| then Lookup(s.spans, s.tools[i].key) else None;
    if handle.Some? {
      LookupOk(Shown(s.journal), s.origin, s.spans, s.tools[i].key);
    }
    assert Inv(popped, root);
    EmitOnOk(popped, a, "retrieval.search", handle, root);
    var searched := if search then EmitOn(popped, a, "retrieval.search", handle) else popped;
    if handle.Some? {
      HandleGrows(Shown(s.journal), Shown(searched.journal), s.origin, handle.value);
    }
    EmitOnOk(searched, a, kind, handle, root);
    if i < |s.tools| {
      EndSpanOk(EmitOn(searched, a, kind, handle), a, s.tools[i].key, root);
    }
  }

  lemma FinishRunOk(s: State, a: Actor, kind: string, root: string)
    requires Inv(s, root) && a in s.contexts
    ensures Inv(AfterFinishRun(s, a, kind), root)
  {
    PlainEmitOk(s, a, kind, root);
    var told := Emit(s, a, kind, "", "");
    PlainEmitOk(told, a, "run_summary", root);
    var summed := Emit(told, a, "run_summary", "", "");
    EndSpanOk(summed, a, BySpan(s.contexts[a].root), root);
  }

  lemma BindWorkerOk(s: State, a: Actor, root: string)
    requires Inv(s, root) && a in s.contexts
    ensures Inv(AfterBindWorker(s, a), root)
  {
    assert Gather(s.journal).order[0] in Gather(s.journal).order;
    assert ContextOk(Shown(s.journal), s.origin, root, AfterBindWorker(s, a).contexts[a]);
  }

  // ------------------------------------------------------------ generations

  lemma {:induction false} EntryIndexPut(spans: seq<SpanEntry>, key: Key, h: OpenSpan)
    ensures EntryIndex(PutSpan(spans, key, h), key) == EntryIndex(spans, key) < |PutSpan(spans, key, h)|
  {
    if |spans| > 0 && spans[0].key != key {
      var rest, put := spans[1..], PutSpan(spans, key, h);
      EntryIndexPut(rest, key, h);
      assert put[0] == spans[0] && put[1..] == PutSpan(rest, key, h);
    }
  }

  lemma FreshKeyIsAbsent(shown: set<string>, origin: map<string, string>, spans: seq<SpanEntry>, id: string)
    requires SpansOk(shown, origin, spans) && id !in origin
    ensures EntryIndex(spans, BySpan(id)) == |spans|
  {
    forall i | 0 <= i < |spans|
      ensures spans[i].key != BySpan(id)
    {
      assert EntryOk(shown, origin, spans[i]);
    }
  }

  /** Opening a fresh span and closing it leaves the table as it was. */
  lemma PutPop(shown: set<string>, origin: map<string, string>, spans: seq<SpanEntry>, id: string, h: OpenSpan)
    requires SpansOk(shown, origin, spans) && id !in origin
    ensures EntryIndex(spans, BySpan(id)) == |spans|
    ensures Lookup(PutSpan(spans, BySpan(id), h), BySpan(id)) == Some(h)
    ensures PopSpan(PutSpan(spans, BySpan(id), h), BySpan(id)) == spans
  {
    FreshKeyIsAbsent(shown, origin, spans, id);
    EntryIndexPut(spans, BySpan(id), h);
  }

  /** Closing the current span, below a named one. */
  lemma EndCurrentIs(s: State, a: Actor, h: OpenSpan)
    requires a in s.contexts && s.contexts[a].span == h.span && h.parent != ""
    requires Lookup(s.spans, h.key) == Some(h)
    ensures var s', ctx := EndSpan(s, a, h.key), s.contexts[a];
            var up := GrandparentOf(PopSpan(s.spans, h.key), h.parent);
            s' == s.(spans := PopSpan(s.spans, h.key),
                     contexts := s.contexts[a := Context(h.parent, if up != "" then up else ctx.parent, ctx.root)])
  {
  }

  lemma GenerationTables(s: State, a: Actor, id: string, h: OpenSpan)
    requires a in s.contexts && s.contexts[a].span != "" && id != ""
    requires h == OpenSpan(BySpan(id), id, s.contexts[a].span)
    requires var put := PutSpan(s.spans, h.key, h); Lookup(put, h.key) == Some(h) && PopSpan(put, h.key) == s.spans
    ensures var s', ctx := AfterGeneration(s, a, id), s.contexts[a];
            var up := GrandparentOf(s.spans, ctx.span);
            s' == s.(journal := s'.journal, origin := s.origin[id := ctx.span],
                     contexts := s.contexts[a := Context(ctx.span, if up != "" then up else ctx.span, ctx.root)])
  {
    var ctx := s.contexts[a];
    var told := Emit(StartSpan(s, a, id), a, "gen_ai.chat", id, ctx.span);
    assert told == s.(journal := told.journal, spans := PutSpan(s.spans, h.key, h), origin := s.origin[id := ctx.span],
                      contexts := s.contexts[a := Context(id, ctx.span, ctx.root)]);
    EndCurrentIs(told, a, h);
  }

  /** After a generation the actor is back where it was; its context's parent is
      the parent of the open span it is on. */
  lemma GenerationIs(s: State, a: Actor, id: string, root: string)
    requires Inv(s, root) && a in s.contexts && Fresh(s, id)
    ensures var s', ctx := AfterGeneration(s, a, id), s.contexts[a];
            var up := GrandparentOf(s.spans, ctx.span);
            && s' == s.(journal := s'.journal, origin := s.origin[id := ctx.span],
                        contexts := s.contexts[a := Context(ctx.span, if up != "" then up else ctx.span, ctx.root)])
            && Gather(s'.journal) == Gather(s.journal)
  {
    var h := OpenSpan(BySpan(id), id, s.contexts[a].span);
    PutPop(Shown(s.journal), s.origin, s.spans, id, h);
    CurrentIsNamed(s, a, root);
    GenerationTables(s, a, id, h);
    GenerationGathers(s, a, id);
  }

  lemma CurrentIsNamed(s: State, a: Actor, root: string)
    requires Inv(s, root) && a in s.contexts
    ensures s.contexts[a].span != ""
  {
    assert "" !in Gather(s.journal).parent;
  }

  lemma GenerationGathers(s: State, a: Actor, id: string)
    requires a in s.contexts
    ensures Gather(AfterGeneration(s, a, id).journal) == Gather(s.journal)
  {
    var begun := Emit(StartSpan(s, a, id), a, "gen_ai.chat", id, s.contexts[a].span);
    GatherAppend(s.journal, begun.journal[|s.journal|]);
  }

  /** A generation may be recorded while the current span is shown, or is open. */
  lemma GenerationOk(s: State, a: Actor, id: string, root: string)
    requires Inv(s, root) && a in s.contexts && Fresh(s, id)
    requires s.contexts[a].span in Shown(s.journal) || GrandparentOf(s.spans, s.contexts[a].span) != ""
    ensures Inv(AfterGeneration(s, a, id), root)
  {
    GenerationIs(s, a, id, root);
    var ctx, shown, origin := s.contexts[a], Shown(s.journal), s.origin[id := s.contexts[a].span];
    ContextsGrow(shown, s.origin, shown, origin, root, s.contexts, s.known);
    SpansGrow(shown, s.origin, shown, origin, s.spans);
    if ctx.span !in shown {
      GrandparentOk(shown, s.origin, s.spans, ctx.span);
    }
    assert ContextOk(shown, origin, root, AfterGeneration(s, a, id).contexts[a]);
  }

  // ------------------------------------------------------------ a discipline

  /** What a caller sees to: a phase, a tool or a span is opened only in a span
      that is shown, and a generation is recorded only in a span that is shown
      or still open.  Everything else is free. */
  predicate Guard(s: State, op: Op)
    requires op.actor in s.contexts
  {
    var current := s.contexts[op.actor].span;
    match op
    case PhaseStart(_, _, _) => current in Shown(s.journal)
    case BeginTool(_, _, _) => current in Shown(s.journal)
    case Open(_, _) => current in Shown(s.journal)
    case Generation(_, _) => current in Shown(s.journal) || GrandparentOf(s.spans, current) != ""
    case _ => true
  }

  predicate Guarded(r: Run) {
    r.Then? ==> Guarded(r.before) && (Enabled(Final(r.before), r.op) ==> Guard(Final(r.before), r.op))
  }

  lemma ActOk(s: State, op: Op, root: string)
    requires Inv(s, root) && Enabled(s, op) && Guard(s, op)
    ensures Inv(Act(s, op), root)
  {
    match op
    case PhaseStart(a, name, id) => PhaseStartOk(s, a, name, id, root);
    case PhaseOther(a, name, ends) => PhaseOtherOk(s, a, name, ends, root);
    case BeginTool(a, call, id) => BeginToolOk(s, a, call, id, root);
    case FinishTool(a, call, kind, search) => FinishToolOk(s, a, call, kind, search, root);
    case Generation(a, id) => GenerationOk(s, a, id, root);
    case PlainEmit(a, kind) => PlainEmitOk(s, a, kind, root);
    case Open(a, id) => StartSpanOk(s, a, id, root);
    case CloseSpan(a, key) => EndSpanOk(s, a, key, root);
    case BindWorker(a) => BindWorkerOk(s, a, root);
    case FinishRun(a, kind) => FinishRunOk(s, a, kind, root);
    case _ =>
  }

  lemma StepOk(s: State, op: Op, root: string)
    requires Inv(s, root) && (Enabled(s, op) ==> Guard(s, op))
    ensures Inv(Step(s, op), root)
  {
    if Enabled(s, op) {
      ActOk(s, op, root);
    }
  }

  lemma StartRunOk(root: string)
    requires root != ""
    ensures Inv(StartRun(root), root)
  {
    StartRunFormed(root);
    var s := StartRun(root);
    FirstEventOk(s.journal, root);
    assert s.journal[..1] == s.journal;
    FirstIsShown(s.journal, root);
    assert EntryOk({root}, s.origin, s.spans[0]);
    assert ContextOk({root}, s.origin, root, s.contexts[0]);
  }

  lemma FirstIsShown(journal: seq<Event>, root: string)
    requires IsJournal(journal, root) && |journal| == 1
    ensures Gather(journal).parent == map[root := ""]
  {
    assert journal == [] + [journal[0]] && EventOk(journal[0], 1);
    GatherAppend([], journal[0]);
  }

  /** In a guarded run every context and every open span stays placeable. */
  lemma {:induction false} RunKeepsInv(r: Run)
    requires RootOf(r) != "" && Guarded(r)
    ensures Inv(Final(r), RootOf(r))
  {
    match r
    case Begin(root) => StartRunOk(root);
    case Then(before, op) =>
      RunKeepsInv(before);
      StepOk(Final(before), op, RootOf(r));
  }

  /** A tree was one before its last event, too. */
  lemma EarlierTree(journal: seq<Event>, n: nat, root: string)
    requires IsJournal(journal, root) && 1 <= n < |journal| && JournalOk(journal[..n + 1], root)
    ensures JournalOk(journal[..n], root)
  {
    var e := journal[n];
    assert journal[..n + 1] == journal[..n] + [e];
    GatherAppend(journal[..n], e);
    GatherOk(journal[..n]);
    FirstIsGathered(journal, n, root);
    var g, h := Gather(journal[..n]), Gather(journal[..n + 1]);
    if h != g {
      AddedRootedOnly(g, e.spanId, e.parent);
    }
  }

  lemma AddedRootedOnly(g: Nodes, id: string, above: string)
    requires NodesOk(g) && |g.order| > 0 && id !in g.parent && Rooted(Nodes(g.order + [id], g.parent[id := above]))
    ensures Rooted(g)
  {
    var h := Nodes(g.order + [id], g.parent[id := above]);
    assert h.order[0] == g.order[0] && g.order[0] in g.order;
    forall i | 0 < i < |g.order|
      ensures ParentIsEarlier(g, i)
    {
      assert h.order[i] == g.order[i] && g.order[i] in g.order;
      assert ParentIsEarlier(h, i);
      assert h.order[..i] == g.order[..i];
    }
  }

  lemma {:induction false} FirstIsGathered(journal: seq<Event>, n: nat, root: string)
    requires IsJournal(journal, root) && 1 <= n <= |journal|
    ensures |Gather(journal[..n]).order| > 0 && Gather(journal[..n]).order[0] == root
  {
    if n == 1 {
      FirstEventOk(journal, root);
    } else {
      FirstIsGathered(journal, n - 1, root);
      assert journal[..n] == journal[..n - 1] + [journal[n - 1]] && EventOk(journal[n - 1], n);
      GatherAppend(journal[..n - 1], journal[n - 1]);
    }
  }

  lemma {:induction false} TreeWasPlaced(journal: seq<Event>, n: nat, root: string)
    requires IsJournal(journal, root) && 1 <= n <= |journal| && JournalOk(journal[..n], root)
    ensures forall i :: 1 <= i < n ==> PlacedAt(journal, i)
  {
    if n > 1 {
      EarlierTree(journal, n - 1, root);
      TreeWasPlaced(journal, n - 1, root);
      OkIsPlaced(journal, n - 1, root);
    }
  }

  lemma OkIsPlaced(journal: seq<Event>, n: nat, root: string)
    requires IsJournal(journal, root) && 1 <= n < |journal|
    requires JournalOk(journal[..n], root) && JournalOk(journal[..n + 1], root)
    ensures PlacedAt(journal, n)
  {
    JournalIsOneTree(journal[..n + 1], root);
    NextEvent(journal, n, root);
  }

  lemma InvIsOneTree(s: State, root: string)
    requires Inv(s, root)
    ensures IsOneTree(s.journal, root)
  {
    JournalIsOneTree(s.journal, root);
  }

  /** A guarded run yields one tree ... */
  lemma GuardedRunIsOneTree(r: Run)
    requires RootOf(r) != "" && Guarded(r)
    ensures IsOneTree(Final(r).journal, RootOf(r))
  {
    RunKeepsInv(r);
    InvIsOneTree(Final(r), RootOf(r));
  }

  lemma InvIsPlaced(s: State, root: string)
    requires Inv(s, root) && Formed(s, root)
    ensures AllPlaced(s.journal)
  {
    assert s.journal[..|s.journal|] == s.journal;
    TreeWasPlaced(s.journal, |s.journal|, root);
  }

  /** ... and was one after every event. */
  lemma GuardedRunIsAlwaysOneTree(r: Run)
    requires RootOf(r) != "" && Guarded(r)
    ensures AlwaysOneTree(Final(r).journal, RootOf(r))
  {
    RunKeepsInv(r);
    RunIsFormed(r);
    InvIsPlaced(Final(r), RootOf(r));
    AlwaysOneTreeIff(Final(r).journal, RootOf(r));
  }

  lemma ShownHangsAtOrigin(s: State, root: string, id: string)
    requires Inv(s, root) && id in Shown(s.journal) && id != root
    ensures id in s.origin && ChildLink(Link(Gather(s.journal)), id, s.origin[id])
  {
    var g := Gather(s.journal);
    InvIsOneTree(s, root);
    LinkFollows(g);
    OnlyFirstIsRoot(g, id);
  }

  lemma OnlyFirstIsRoot(g: Nodes, id: string)
    requires NodesOk(g) && Rooted(g) && id in g.parent && id != g.order[0]
    ensures g.parent[id] in g.parent
  {
    var i :| 0 <= i < |g.order| && g.order[i] == id;
    assert ParentIsEarlier(g, i);
    assert g.parent[id] in g.order;
  }

  /** In a guarded run every span that is shown hangs below the span that was
      current for the actor who opened it, when it was opened. */
  lemma SpanHangsWhereItWasOpened(before: Run, op: Op, r: Run)
    requires RootOf(before) != "" && Continues(Then(before, op), r) && Guarded(r)
    requires Enabled(Final(before), op) && Opens(op) && op.id in Shown(Final(r).journal)
    ensures ChildLink(Link(Gather(Final(r).journal)), op.id, Final(before).contexts[op.actor].span)
  {
    OriginForEver(before, op, r);
    ContinuesRoot(Then(before, op), r);
    RunKeepsInv(r);
    RootIsNotOpened(before, op);
    ShownHangsAtOrigin(Final(r), RootOf(r), op.id);
  }

  lemma {:induction false} RootInOrigin(r: Run)
    ensures RootOf(r) in Final(r).origin
  {
    if r.Then? {
      RootInOrigin(r.before);
      StepKeepsOrigin(Final(r.before), r.op, RootOf(r));
    }
  }

  lemma RootIsNotOpened(before: Run, op: Op)
    requires Enabled(Final(before), op) && Opens(op)
    ensures op.id != RootOf(before)
  {
    RootInOrigin(before);
  }

  /** A phase or a tool is shown as soon as it begins. */
  lemma BegunIsShown(s: State, op: Op, root: string)
    requires Inv(s, root) && Enabled(s, op) && Guard(s, op) && (op.PhaseStart? || op.BeginTool?)
    ensures op.id in Shown(Step(s, op).journal)
  {
    match op
    case PhaseStart(a, name, id) => PhaseStartOk(s, a, name, id, root);
    case BeginTool(a, call, id) => BeginToolOk(s, a, call, id, root);
  }

  /** Finishing a tool right after beginning it puts the actor back on the span
      it came from, and the tables are as before. */
  lemma ToolRoundTrip(s: State, a: Actor, call: string, id: string, kind: string, search: bool, root: string)
    requires Inv(s, root) && a in s.contexts && Fresh(s, id) && call != ""
    requires ToolIndex(s.tools, call) == |s.tools| && s.contexts[a].span != ""
    ensures var s' := AfterFinishTool(AfterBeginTool(s, a, call, id), a, call, kind, search);
            && s'.contexts[a].span == s.contexts[a].span
            && s'.tools == s.tools && s'.spans == s.spans
  {
    var t := AfterBeginTool(s, a, call, id);
    var h := OpenSpan(BySpan(id), id, s.contexts[a].span);
    ToolIndexAppend(s.tools, ToolEntry(call, BySpan(id)));
    PutPop(Shown(s.journal), s.origin, s.spans, id, h);
    assert RemoveAt(t.tools, |s.tools|) == s.tools;
  }

  lemma {:induction false} ToolIndexAppend(tools: seq<ToolEntry>, e: ToolEntry)
    requires ToolIndex(tools, e.call) == |tools|
    ensures ToolIndex(tools + [e], e.call) == |tools|
  {
    if |tools| > 0 {
      ToolIndexAppend(tools[1..], e);
      assert (tools + [e])[1..] == tools[1..] + [e];
    }
  }
}

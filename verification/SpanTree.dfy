/** `build_span_tree` of `app/observability/journal.py`: a flat list of events
    becomes a forest of spans, with cycles of parent links cut. */
module SpanTree {
  import opened Events
  import opened Text

  // ------------------------------------------------------- gathering spans

  /** The spans in order of first appearance, and the parent each was first
      recorded with. */
  datatype Nodes = Nodes(order: seq<string>, parent: map<string, string>)

  /** The identity of the span an event belongs to, when `n` spans are known. */
  function Identity(e: Event, n: nat): (id: string)
    ensures id != ""
  {
    if e.spanId != "" then e.spanId
    else if e.eventId != "" then e.eventId
    else "anon-" + Decimal(n)
  }

  function AddEvent(nodes: Nodes, e: Event): Nodes {
    var id := Identity(e, |nodes.order|);
    if Omitted(e.kind) || id in nodes.parent then nodes
    else Nodes(nodes.order + [id], nodes.parent[id := e.parent])
  }

  function Gather(events: seq<Event>): Nodes {
    if |events| == 0 then Nodes([], map[])
    else AddEvent(Gather(events[..|events| - 1]), events[|events| - 1])
  }

  predicate DistinctIds(ids: seq<string>) {
    forall i, j :: 0 <= i < j < |ids| ==> ids[i] != ids[j]
  }

  ghost predicate NodesOk(nodes: Nodes) {
    && DistinctIds(nodes.order)
    && (forall id :: id in nodes.order <==> id in nodes.parent)
    && "" !in nodes.parent
  }

  lemma AddEventOk(nodes: Nodes, e: Event)
    requires NodesOk(nodes)
    ensures NodesOk(AddEvent(nodes, e))
  {
  }

  lemma {:induction false} GatherOk(events: seq<Event>)
    ensures NodesOk(Gather(events))
  {
    if |events| > 0 {
      GatherOk(events[..|events| - 1]);
      AddEventOk(Gather(events[..|events| - 1]), events[|events| - 1]);
    }
  }

  /** The first kept event of a span fixes its parent for good. */
  lemma {:induction false} FirstEventFixesParent(events: seq<Event>, i: nat)
    requires i < |events| && !Omitted(events[i].kind)
    ensures var before := Gather(events[..i]);
            var id := Identity(events[i], |before.order|);
            && id in Gather(events).parent
            && (id !in before.parent ==> Gather(events).parent[id] == events[i].parent)
  {
    if i == |events| - 1 {
    } else {
      var rest := events[..|events| - 1];
      assert rest[..i] == events[..i];
      FirstEventFixesParent(rest, i);
    }
  }

  /** Later events never change a parent. */
  lemma {:induction false} LaterEventsKeepParents(events: seq<Event>, later: seq<Event>, id: string)
    requires id in Gather(events).parent
    ensures id in Gather(events + later).parent && Gather(events + later).parent[id] == Gather(events).parent[id]
  {
    if |later| == 0 {
      assert events + later == events;
    } else {
      var n := |later| - 1;
      assert (events + later)[..|events + later| - 1] == events + later[..n];
      LaterEventsKeepParents(events, later[..n], id);
    }
  }

  // ------------------------------------------------ what the tree leaves out

  /** The list without its model-call events. */
  function Visible(events: seq<Event>): seq<Event> {
    if |events| == 0 then []
    else
      var e := events[|events| - 1];
      Visible(events[..|events| - 1]) + (if e.kind != "llm_usage" && e.kind != "gen_ai.chat" then [e] else [])
  }

  /** Model-call events make no difference to the spans, their order, or the tree. */
  lemma {:induction false} LeftOutEventsDoNotMatter(events: seq<Event>)
    ensures Gather(Visible(events)) == Gather(events)
  {
    if |events| > 0 {
      var rest, e := events[..|events| - 1], events[|events| - 1];
      LeftOutEventsDoNotMatter(rest);
      if e.kind != "llm_usage" && e.kind != "gen_ai.chat" {
        assert Visible(events)[..|Visible(rest)|] == Visible(rest);
      } else {
        assert Visible(events) == Visible(rest);
      }
    }
  }

  /** Event `i` is no model call and has this identity. */
  predicate IsOf(events: seq<Event>, i: nat, id: string)
    requires i < |events|
  {
    var e := events[i];
    && e.kind != "llm_usage" && e.kind != "gen_ai.chat"
    && id != "" && (e.spanId == id || (e.spanId == "" && e.eventId == id))
  }

  /** Every event but the model calls names a span or has an id. */
  predicate NamesSpans(events: seq<Event>) {
    forall i :: 0 <= i < |events| && events[i].kind != "llm_usage" && events[i].kind != "gen_ai.chat" ==>
      events[i].spanId != "" || events[i].eventId != ""
  }

  /** A span is in the tree if and only if some event that is no model call has its
      identity, and its parent is the one that the first such event names. */
  lemma {:induction false} InTreeIff(events: seq<Event>, id: string)
    requires NamesSpans(events)
    ensures id in Gather(events).parent <==> exists i :: 0 <= i < |events| && IsOf(events, i, id)
    ensures forall i :: 0 <= i < |events| && IsOf(events, i, id)
                        && (forall j :: 0 <= j < i ==> !IsOf(events, j, id)) ==>
              id in Gather(events).parent && Gather(events).parent[id] == events[i].parent
  {
    if |events| > 0 {
      var n, rest := |events| - 1, events[..|events| - 1];
      InTreeIff(rest, id);
      assert forall i :: 0 <= i < n ==> IsOf(events, i, id) == IsOf(rest, i, id);
      OneMoreInTree(Gather(rest), events, id);
    }
  }

  lemma OneMoreInTree(g: Nodes, events: seq<Event>, id: string)
    requires |events| > 0 && NamesSpans(events)
    ensures var n := |events| - 1;
            var h := AddEvent(g, events[n]);
            && (id in h.parent <==> id in g.parent || IsOf(events, n, id))
            && (id in g.parent ==> h.parent[id] == g.parent[id])
            && (id !in g.parent && IsOf(events, n, id) ==> h.parent[id] == events[n].parent)
  {
  }

  /** Spans stand in order of first appearance. */
  lemma {:induction false} OrderOfAppearance(events: seq<Event>, n: nat)
    requires n <= |events|
    ensures Gather(events[..n]).order <= Gather(events).order
    decreases |events|
  {
    if n == |events| {
      assert events[..n] == events;
    } else {
      var rest := events[..|events| - 1];
      OrderOfAppearance(rest, n);
      assert rest[..n] == events[..n];
    }
  }

  function OwnId(e: Event): string { if e.spanId != "" then e.spanId else e.eventId }

  /** The span identities `expected_span_count` counts. */
  function ExpectedIds(events: seq<Event>): set<string> {
    if |events| == 0 then {}
    else
      var e := events[|events| - 1];
      ExpectedIds(events[..|events| - 1])
      + (if Omitted(e.kind) || Blank(OwnId(e)) then {} else {OwnId(e)})
  }

  predicate AllNamed(events: seq<Event>) {
    forall i :: 0 <= i < |events| && !Omitted(events[i].kind) ==> !Blank(OwnId(events[i]))
  }

  lemma {:induction false} ExpectedIdsAreSpans(events: seq<Event>)
    requires AllNamed(events)
    ensures ExpectedIds(events) == Gather(events).parent.Keys
  {
    if |events| > 0 {
      ExpectedIdsAreSpans(events[..|events| - 1]);
    }
  }

  /** When every kept event names a span, the expected count is the number of
      spans in the tree. */
  lemma ExpectedCountIsSpanCount(events: seq<Event>)
    requires AllNamed(events)
    ensures |ExpectedIds(events)| == |Gather(events).order|
  {
    ExpectedIdsAreSpans(events);
    GatherOk(events);
    DistinctCount(Gather(events).order, Gather(events).parent.Keys);
  }

  lemma {:induction false} DistinctCount(ids: seq<string>, all: set<string>)
    requires DistinctIds(ids) && forall id :: id in ids <==> id in all
    ensures |ids| == |all|
  {
    if |ids| == 0 {
      assert all == {};
    } else {
      var rest, last := ids[..|ids| - 1], ids[|ids| - 1];
      assert last in ids && ids == rest + [last];
      DistinctCount(rest, all - {last});
    }
  }

  // ------------------------------------------------------ ancestors, cycles

  type Parents = map<string, string>

  function ParentIn(par: Parents, id: string): string {
    if id in par then par[id] else ""
  }

  /** The `k`-th ancestor of `id`. */
  function Up(par: Parents, id: string, k: nat): string
    decreases k
  {
    if k == 0 then id else Up(par, ParentIn(par, id), k - 1)
  }

  /** Following parents from `id` leaves the set of spans. */
  ghost predicate Ends(par: Parents, id: string) {
    exists k: nat :: Up(par, id, k) !in par
  }

  ghost predicate OnCycle(par: Parents, id: string) {
    id in par && exists d: nat :: d > 0 && Up(par, id, d) == id
  }

  /** No span is its own proper ancestor. */
  ghost predicate Acyclic(par: Parents) {
    forall id :: id in par ==> !OnCycle(par, id)
  }

  lemma {:induction false} UpUp(par: Parents, id: string, j: nat, k: nat)
    ensures Up(par, Up(par, id, j), k) == Up(par, id, j + k)
    decreases j
  {
    if j > 0 {
      UpUp(par, ParentIn(par, id), j - 1, k);
    }
  }

  lemma {:induction false} StaysOut(par: Parents, id: string, k: nat)
    requires "" !in par && id !in par
    ensures Up(par, id, k) !in par
    decreases k
  {
    if k > 0 {
      StaysOut(par, "", k - 1);
    }
  }

  /** A repeated ancestor repeats for ever. */
  lemma {:induction false} RepeatNeverEnds(par: Parents, id: string, j: nat, k: nat, n: nat)
    requires "" !in par && j < k && Up(par, id, j) == Up(par, id, k) && Up(par, id, k) in par
    ensures Up(par, id, n) in par
    decreases n
  {
    if n < k {
      if Up(par, id, n) !in par {
        UpUp(par, id, n, k - n);
        StaysOut(par, Up(par, id, n), k - n);
      }
    } else {
      UpUp(par, id, k, n - k);
      UpUp(par, id, j, n - k);
      RepeatNeverEnds(par, id, j, k, n - (k - j));
    }
  }

  /** A span on a cycle has no end above it. */
  lemma CycleNeverEnds(par: Parents, id: string)
    requires "" !in par && OnCycle(par, id)
    ensures !Ends(par, id)
  {
    var d: nat :| d > 0 && Up(par, id, d) == id;
    forall n: nat
      ensures Up(par, id, n) in par
    {
      RepeatNeverEnds(par, id, 0, d, n);
    }
  }

  /** The first `k` ancestors of `id`, itself included. */
  ghost function FirstAncestors(par: Parents, id: string, k: nat): set<string> {
    set j: nat | j < k :: Up(par, id, j)
  }

  /** Either the ancestors of `id` end, or one of them lies on a cycle. */
  lemma {:induction false} EndsOrCycle(par: Parents, id: string, k: nat)
    requires FirstAncestors(par, id, k) <= par.Keys
    ensures Ends(par, id) || exists x :: OnCycle(par, x)
    decreases |par.Keys - FirstAncestors(par, id, k)|
  {
    var x, seen := Up(par, id, k), FirstAncestors(par, id, k);
    if x in seen {
      SeenAgain(par, id, k);
    } else if x in par {
      OneMoreAncestor(par, id, k);
      SetShrinks(par.Keys - (seen + {x}), par.Keys - seen);
      EndsOrCycle(par, id, k + 1);
    }
  }

  lemma SeenAgain(par: Parents, id: string, k: nat)
    requires FirstAncestors(par, id, k) <= par.Keys && Up(par, id, k) in FirstAncestors(par, id, k)
    ensures OnCycle(par, Up(par, id, k))
  {
    var j: nat :| j < k && Up(par, id, j) == Up(par, id, k);
    RepeatIsCycle(par, id, j, k, Up(par, id, k));
  }

  lemma RepeatIsCycle(par: Parents, id: string, j: nat, k: nat, x: string)
    requires j < k && x in par && Up(par, id, j) == x && Up(par, id, k) == x
    ensures OnCycle(par, x)
  {
    var d := k - j;
    UpUp(par, id, j, d);
    assert d > 0 && Up(par, x, d) == x;
  }

  lemma OneMoreAncestor(par: Parents, id: string, k: nat)
    requires Up(par, id, k) in par && Up(par, id, k) !in FirstAncestors(par, id, k)
    ensures var seen := FirstAncestors(par, id, k);
            && FirstAncestors(par, id, k + 1) == seen + {Up(par, id, k)}
            && par.Keys - (seen + {Up(par, id, k)}) < par.Keys - seen
  {
    var x, seen := Up(par, id, k), FirstAncestors(par, id, k);
    forall y
      ensures y in FirstAncestors(par, id, k + 1) <==> y in seen + {x}
    {
    }
    assert x in par.Keys - seen;
  }

  lemma SetShrinks<T>(a: set<T>, b: set<T>)
    requires a < b
    ensures |a| < |b|
  {
    assert b == a + (b - a) && b - a != {};
    assert |b| == |a| + |b - a|;
  }

  /** Acyclic parents are exactly those whose ancestors all end. */
  lemma AcyclicIffEnds(par: Parents)
    requires "" !in par
    ensures Acyclic(par) <==> forall id :: id in par ==> Ends(par, id)
  {
    if Acyclic(par) {
      forall id | id in par
        ensures Ends(par, id)
      {
        EndsOrCycle(par, id, 0);
      }
    } else {
      var id :| id in par && OnCycle(par, id);
      CycleNeverEnds(par, id);
    }
  }

  /** Cutting a parent link never makes an ancestor chain longer. */
  lemma {:induction false} CutKeepsEnd(par: Parents, x: string, id: string, k: nat)
    requires "" !in par && x in par && Up(par, id, k) !in par
    ensures Ends(par[x := ""], id)
    decreases k
  {
    var cut := par[x := ""];
    if id !in par {
      assert Up(cut, id, 0) !in cut;
    } else if id == x {
      assert Up(cut, id, 1) == Up(cut, "", 0) == "";
    } else {
      CutKeepsEnd(par, x, par[id], k - 1);
      var m: nat :| Up(cut, par[id], m) !in cut;
      assert Up(cut, id, m + 1) == Up(cut, par[id], m);
    }
  }

  // ------------------------------------------------------------ linking

  /** The tree while spans are being linked, and at the end. */
  datatype Forest = Forest(
    par: Parents, children: map<string, seq<string>>, roots: seq<string>, orphans: nat, cycles: nat)

  ghost function LinkOne(f: Forest, id: string): Forest {
    var parent := ParentIn(f.par, id);
    if parent == "" then f.(roots := f.roots + [id])
    else if parent !in f.par then f.(roots := f.roots + [id], orphans := f.orphans + 1)
    else if Ends(f.par, id) then f.(children := f.children[parent := ChildrenIn(f, parent) + [id]])
    else f.(par := f.par[id := ""], roots := f.roots + [id], cycles := f.cycles + 1)
  }

  function ChildrenIn(f: Forest, p: string): seq<string> {
    if p in f.children then f.children[p] else []
  }

  ghost function LinkFirst(nodes: Nodes, n: nat): Forest
    requires n <= |nodes.order|
  {
    if n == 0 then Forest(nodes.parent, map id | id in nodes.parent :: [], [], 0, 0)
    else LinkOne(LinkFirst(nodes, n - 1), nodes.order[n - 1])
  }

  ghost function Link(nodes: Nodes): Forest {
    LinkFirst(nodes, |nodes.order|)
  }

  /** The ids whose parent is `p`, in the given order. */
  function ChildrenOf(ids: seq<string>, par: Parents, p: string): seq<string> {
    if |ids| == 0 then []
    else
      var id := ids[|ids| - 1];
      ChildrenOf(ids[..|ids| - 1], par, p) + (if ParentIn(par, id) == p then [id] else [])
  }

  /** The ids whose parent is not among the spans. */
  function RootsOf(ids: seq<string>, par: Parents): seq<string> {
    if |ids| == 0 then []
    else
      var id := ids[|ids| - 1];
      RootsOf(ids[..|ids| - 1], par) + (if ParentIn(par, id) in par then [] else [id])
  }

  /** The spans whose recorded parent is no span at all. */
  function OrphansOf(ids: seq<string>, par: Parents): seq<string> {
    if |ids| == 0 then []
    else
      var id := ids[|ids| - 1];
      OrphansOf(ids[..|ids| - 1], par)
      + (if ParentIn(par, id) != "" && ParentIn(par, id) !in par then [id] else [])
  }

  lemma {:induction false} CutOutside(ids: seq<string>, par: Parents, x: string, p: string)
    requires x !in ids && x in par
    ensures ChildrenOf(ids, par[x := ""], p) == ChildrenOf(ids, par, p)
    ensures RootsOf(ids, par[x := ""]) == RootsOf(ids, par)
  {
    if |ids| > 0 {
      assert ids[|ids| - 1] in ids;
      CutOutside(ids[..|ids| - 1], par, x, p);
    }
  }

  lemma OneMoreId(ids: seq<string>, id: string, par: Parents, p: string)
    ensures ChildrenOf(ids + [id], par, p)
         == ChildrenOf(ids, par, p) + (if ParentIn(par, id) == p then [id] else [])
    ensures RootsOf(ids + [id], par) == RootsOf(ids, par) + (if ParentIn(par, id) in par then [] else [id])
    ensures OrphansOf(ids + [id], par)
         == OrphansOf(ids, par) + (if ParentIn(par, id) != "" && ParentIn(par, id) !in par then [id] else [])
  {
    assert (ids + [id])[..|ids|] == ids;
  }

  /** Every span of `ids` is in its place. */
  ghost predicate Placed(ids: seq<string>, orig: Parents, f: Forest) {
    && f.children.Keys == f.par.Keys
    && (forall p :: p in f.par ==> f.children[p] == ChildrenOf(ids, f.par, p))
    && f.roots == RootsOf(ids, f.par)
    && f.orphans == |OrphansOf(ids, orig)|
  }

  /** Above every span of `ids` the parents end; only links of `ids` were cut,
      and only if cycles were counted. */
  ghost predicate CutSoFar(ids: seq<string>, orig: Parents, f: Forest) {
    && f.par.Keys == orig.Keys && "" !in orig
    && (forall id :: id in ids ==> Ends(f.par, id))
    && (forall id :: id in f.par ==> f.par[id] == orig[id] || (id in ids && f.par[id] == "" && orig[id] in orig))
    && (f.cycles == 0 <==> f.par == orig)
  }

  /** What one more span adds to the children of `p` and to the roots. */
  lemma LinkOneAdds(ids: seq<string>, f: Forest, id: string, p: string)
    requires id in f.par && id !in ids
    ensures var par := LinkOne(f, id).par;
            && id in par
            && ChildrenOf(ids + [id], par, p) == ChildrenOf(ids, f.par, p) + (if par[id] == p then [id] else [])
            && RootsOf(ids + [id], par) == RootsOf(ids, f.par) + (if par[id] in par then [] else [id])
  {
    CutOutside(ids, f.par, id, p);
    OneMoreId(ids, id, LinkOne(f, id).par, p);
  }

  lemma LinkOnePlaced(ids: seq<string>, orig: Parents, f: Forest, id: string)
    requires Placed(ids, orig, f) && f.par.Keys == orig.Keys && "" !in orig
    requires id in f.par && id !in ids && f.par[id] == orig[id]
    ensures Placed(ids + [id], orig, LinkOne(f, id))
  {
    var f' := LinkOne(f, id);
    forall p | p in f'.par
      ensures f'.children[p] == ChildrenOf(ids + [id], f'.par, p)
    {
      LinkOneChildren(ids, f, id, p);
    }
    LinkOneRoots(ids, orig, f, id);
  }

  lemma LinkOneChildren(ids: seq<string>, f: Forest, id: string, p: string)
    requires f.children.Keys == f.par.Keys && "" !in f.par && id in f.par && id !in ids && p in f.par
    requires f.children[p] == ChildrenOf(ids, f.par, p)
    ensures var f' := LinkOne(f, id); p in f'.children && f'.children[p] == ChildrenOf(ids + [id], f'.par, p)
  {
    LinkOneAdds(ids, f, id, p);
  }

  lemma LinkOneRoots(ids: seq<string>, orig: Parents, f: Forest, id: string)
    requires f.par.Keys == orig.Keys && "" !in orig && id in f.par && id !in ids && f.par[id] == orig[id]
    requires f.roots == RootsOf(ids, f.par) && f.orphans == |OrphansOf(ids, orig)|
    ensures var f' := LinkOne(f, id);
            f'.roots == RootsOf(ids + [id], f'.par) && f'.orphans == |OrphansOf(ids + [id], orig)|
  {
    LinkOneAdds(ids, f, id, "");
    OrphansGrow(ids, orig, id);
    LinkOneFields(f, id);
  }

  lemma OrphansGrow(ids: seq<string>, orig: Parents, id: string)
    requires id in orig
    ensures |OrphansOf(ids + [id], orig)|
         == |OrphansOf(ids, orig)| + (if orig[id] != "" && orig[id] !in orig then 1 else 0)
  {
    OneMoreId(ids, id, orig, "");
  }

  lemma LinkOneFields(f: Forest, id: string)
    requires "" !in f.par && id in f.par
    ensures var f' := LinkOne(f, id);
            && id in f'.par
            && f'.roots == f.roots + (if f'.par[id] in f'.par then [] else [id])
            && f'.orphans == f.orphans + (if f.par[id] != "" && f.par[id] !in f.par then 1 else 0)
  {
  }

  lemma LinkOneCuts(ids: seq<string>, orig: Parents, f: Forest, id: string)
    requires f.children.Keys == f.par.Keys && CutSoFar(ids, orig, f) && id in f.par && id !in ids
    ensures CutSoFar(ids + [id], orig, LinkOne(f, id))
  {
    var f' := LinkOne(f, id);
    if f.par[id] !in f.par {
      assert Up(f.par, id, 1) == Up(f.par, f.par[id], 0);
    } else if !Ends(f.par, id) {
      CutEnds(f.par, id, ids + [id]);
      assert f'.par[id] != orig[id];
    }
  }

  lemma CutEnds(par: Parents, x: string, ids: seq<string>)
    requires "" !in par && x in par && forall id :: id in ids ==> id == x || Ends(par, id)
    ensures forall id :: id in ids ==> Ends(par[x := ""], id)
  {
    var cut := par[x := ""];
    forall id | id in ids
      ensures Ends(cut, id)
    {
      if id == x {
        assert Up(cut, x, 1) == Up(cut, "", 0) == "";
      } else {
        var k: nat :| Up(par, id, k) !in par;
        CutKeepsEnd(par, x, id, k);
      }
    }
  }

  lemma LinkOneLinked(ids: seq<string>, orig: Parents, f: Forest, id: string)
    requires Placed(ids, orig, f) && CutSoFar(ids, orig, f) && id in orig && id !in ids
    ensures Placed(ids + [id], orig, LinkOne(f, id)) && CutSoFar(ids + [id], orig, LinkOne(f, id))
  {
    LinkOnePlaced(ids, orig, f, id);
    LinkOneCuts(ids, orig, f, id);
  }

  lemma NextId(nodes: Nodes, n: nat)
    requires 0 < n <= |nodes.order| && NodesOk(nodes)
    ensures var id, ids := nodes.order[n - 1], nodes.order[..n - 1];
            nodes.order[..n] == ids + [id] && id !in ids && id in nodes.parent
  {
    assert nodes.order[n - 1] in nodes.order;
  }

  ghost predicate Linked(ids: seq<string>, orig: Parents, f: Forest) {
    Placed(ids, orig, f) && CutSoFar(ids, orig, f)
  }

  lemma NothingLinked(nodes: Nodes)
    requires NodesOk(nodes)
    ensures Linked([], nodes.parent, LinkFirst(nodes, 0))
  {
  }

  lemma NextLinked(nodes: Nodes, n: nat, f: Forest)
    requires 0 < n <= |nodes.order| && NodesOk(nodes) && Linked(nodes.order[..n - 1], nodes.parent, f)
    ensures Linked(nodes.order[..n], nodes.parent, LinkOne(f, nodes.order[n - 1]))
  {
    NextId(nodes, n);
    LinkOneLinked(nodes.order[..n - 1], nodes.parent, f, nodes.order[n - 1]);
  }

  lemma {:induction false} LinkFirstLinked(nodes: Nodes, n: nat)
    requires n <= |nodes.order| && NodesOk(nodes)
    ensures Linked(nodes.order[..n], nodes.parent, LinkFirst(nodes, n))
  {
    if n == 0 {
      NothingLinked(nodes);
    } else {
      LinkFirstLinked(nodes, n - 1);
      NextLinked(nodes, n, LinkFirst(nodes, n - 1));
    }
  }

  // ------------------------------------------------------ the forest theorem

  lemma {:induction false} ChildrenMembers(ids: seq<string>, par: Parents, p: string)
    ensures forall id :: id in ChildrenOf(ids, par, p) <==> id in ids && ParentIn(par, id) == p
    ensures DistinctIds(ids) ==> DistinctIds(ChildrenOf(ids, par, p))
  {
    if |ids| > 0 {
      var rest, last := ids[..|ids| - 1], ids[|ids| - 1];
      ChildrenMembers(rest, par, p);
      assert ids == rest + [last];
    }
  }

  lemma {:induction false} RootsMembers(ids: seq<string>, par: Parents)
    ensures forall id :: id in RootsOf(ids, par) <==> id in ids && ParentIn(par, id) !in par
    ensures DistinctIds(ids) ==> DistinctIds(RootsOf(ids, par))
  {
    if |ids| > 0 {
      var rest, last := ids[..|ids| - 1], ids[|ids| - 1];
      RootsMembers(rest, par);
      assert ids == rest + [last];
    }
  }

  predicate ChildLink(f: Forest, id: string, p: string) {
    p in f.children && id in f.children[p]
  }

  /** Every span has exactly one place: it is a root, or a child of one span. */
  ghost predicate PlacedOnce(order: seq<string>, f: Forest) {
    && (forall id :: id in f.roots ==> id in order)
    && (forall id, p :: ChildLink(f, id, p) ==> id in order && p in order && id !in f.roots)
    && (forall id, p, q :: ChildLink(f, id, p) && ChildLink(f, id, q) ==> p == q)
    && (forall id :: id in order && id !in f.roots ==> exists p :: ChildLink(f, id, p))
    && NoRepeats(f)
  }

  ghost predicate NoRepeats(f: Forest) {
    DistinctIds(f.roots) && forall p :: p in f.children ==> DistinctIds(f.children[p])
  }

  /** A walk down child links. */
  ghost predicate ChildPath(f: Forest, path: seq<string>) {
    |path| > 0 && forall i :: 0 <= i < |path| - 1 ==> ChildLink(f, path[i + 1], path[i])
  }

  /** A walk down child links that starts at a root. */
  ghost predicate RootPath(f: Forest, path: seq<string>, id: string) {
    ChildPath(f, path) && path[0] in f.roots && path[|path| - 1] == id
  }

  /** Each span has one place, is reached from a root along exactly one path,
      child links never lead back, and spans imply a root. */
  ghost predicate IsForest(order: seq<string>, f: Forest) {
    && PlacedOnce(order, f)
    && (forall id :: id in order ==> exists path :: RootPath(f, path, id))
    && (forall id, p, q :: RootPath(f, p, id) && RootPath(f, q, id) ==> p == q)
    && (forall path :: ChildPath(f, path) && |path| > 1 ==> path[0] != path[|path| - 1])
    && (order != [] ==> f.roots != [])
  }

  /** Children and roots are what the remaining parent links say. */
  ghost predicate Follows(f: Forest) {
    && (forall id, p :: ChildLink(f, id, p) ==> id in f.par && p in f.par && f.par[id] == p)
    && (forall id :: id in f.par && f.par[id] in f.par ==> ChildLink(f, id, f.par[id]))
    && (forall id :: id in f.roots ==> id in f.par && f.par[id] !in f.par)
    && (forall id :: id in f.par && f.par[id] !in f.par ==> id in f.roots)
  }

  lemma PlacedFollows(order: seq<string>, orig: Parents, f: Forest)
    requires Placed(order, orig, f) && DistinctIds(order) && forall id :: id in order <==> id in f.par
    ensures Follows(f) && NoRepeats(f)
  {
    forall p: string
      ensures forall id :: id in ChildrenOf(order, f.par, p) <==> id in f.par && f.par[id] == p
      ensures DistinctIds(ChildrenOf(order, f.par, p))
    {
      ChildrenMembers(order, f.par, p);
    }
    RootsMembers(order, f.par);
  }

  lemma {:induction false} PathFromRoot(f: Forest, id: string, k: nat) returns (path: seq<string>)
    requires Follows(f) && id in f.par && Up(f.par, id, k) !in f.par
    ensures RootPath(f, path, id)
    decreases k
  {
    if f.par[id] !in f.par {
      path := [id];
    } else {
      var above := PathFromRoot(f, f.par[id], k - 1);
      path := above + [id];
      assert ChildLink(f, id, f.par[id]);
    }
  }

  lemma {:induction false} RootPathsEqual(f: Forest, p: seq<string>, q: seq<string>, id: string)
    requires Follows(f) && RootPath(f, p, id) && RootPath(f, q, id)
    ensures p == q
  {
    if |p| > 1 {
      assert ChildLink(f, p[|p| - 2 + 1], p[|p| - 2]);
    }
    if |q| > 1 {
      assert ChildLink(f, q[|q| - 2 + 1], q[|q| - 2]);
    }
    if |p| > 1 && |q| > 1 {
      RootPathsEqual(f, p[..|p| - 1], q[..|q| - 1], f.par[id]);
      assert p == p[..|p| - 1] + [id] && q == q[..|q| - 1] + [id];
    }
  }

  lemma {:induction false} ChildPathIsUp(f: Forest, path: seq<string>)
    requires Follows(f) && ChildPath(f, path)
    ensures Up(f.par, path[|path| - 1], |path| - 1) == path[0]
  {
    if |path| > 1 {
      var n := |path| - 1;
      ChildPathIsUp(f, path[..n]);
      assert ChildLink(f, path[n - 1 + 1], path[n - 1]);
    }
  }

  lemma NoWayBack(f: Forest, path: seq<string>)
    requires Follows(f) && "" !in f.par && forall id :: id in f.par ==> Ends(f.par, id)
    requires ChildPath(f, path) && |path| > 1
    ensures path[0] != path[|path| - 1]
  {
    ChildPathIsUp(f, path);
    assert ChildLink(f, path[0 + 1], path[0]);
    if path[0] == path[|path| - 1] {
      assert OnCycle(f.par, path[0]);
      CycleNeverEnds(f.par, path[0]);
    }
  }

  lemma FollowingIsPlaced(order: seq<string>, f: Forest)
    requires Follows(f) && NoRepeats(f) && forall id :: id in order <==> id in f.par
    ensures PlacedOnce(order, f)
  {
  }

  lemma FollowingIsForest(order: seq<string>, f: Forest)
    requires Follows(f) && NoRepeats(f) && "" !in f.par
    requires forall id :: id in order <==> id in f.par
    requires forall id :: id in f.par ==> Ends(f.par, id)
    ensures IsForest(order, f)
  {
    FollowingIsPlaced(order, f);
    forall id | id in order
      ensures exists path :: RootPath(f, path, id)
    {
      var path := SomeRootPath(f, id);
    }
    forall id, p, q | RootPath(f, p, id) && RootPath(f, q, id)
      ensures p == q
    {
      RootPathsEqual(f, p, q, id);
    }
    forall path | ChildPath(f, path) && |path| > 1
      ensures path[0] != path[|path| - 1]
    {
      NoWayBack(f, path);
    }
    if order != [] {
      assert order[0] in order;
      var path := SomeRootPath(f, order[0]);
    }
  }

  lemma SomeRootPath(f: Forest, id: string) returns (path: seq<string>)
    requires Follows(f) && id in f.par && Ends(f.par, id)
    ensures RootPath(f, path, id) && f.roots != []
  {
    var k: nat :| Up(f.par, id, k) !in f.par;
    path := PathFromRoot(f, id, k);
  }

  lemma LinkFollows(nodes: Nodes)
    requires NodesOk(nodes)
    ensures Follows(Link(nodes)) && NoRepeats(Link(nodes))
    ensures CutSoFar(nodes.order, nodes.parent, Link(nodes))
  {
    LinkFirstLinked(nodes, |nodes.order|);
    assert nodes.order[..|nodes.order|] == nodes.order;
    PlacedFollows(nodes.order, nodes.parent, Link(nodes));
  }

  lemma LinkIsForest(nodes: Nodes)
    requires NodesOk(nodes)
    ensures IsForest(nodes.order, Link(nodes))
  {
    LinkFollows(nodes);
    FollowingIsForest(nodes.order, Link(nodes));
  }

  /** For any list of events the spans form a forest. */
  lemma SpansFormForest(events: seq<Event>)
    ensures NodesOk(Gather(events)) && IsForest(Gather(events).order, Link(Gather(events)))
  {
    GatherOk(events);
    LinkIsForest(Gather(events));
  }

  /** Cycle detection is exact: nothing is counted if and only if the recorded
      parents are acyclic, and then every recorded link is kept. */
  lemma CycleDetectionIsExact(nodes: Nodes)
    requires NodesOk(nodes)
    ensures Link(nodes).cycles == 0 <==> Acyclic(nodes.parent)
    ensures Acyclic(nodes.parent) ==> Link(nodes).par == nodes.parent
    ensures Link(nodes).orphans == |OrphansOf(nodes.order, nodes.parent)|
  {
    LinkFirstLinked(nodes, |nodes.order|);
    assert nodes.order[..|nodes.order|] == nodes.order;
    AcyclicIffEnds(nodes.parent);
    if Acyclic(nodes.parent) {
      NoCuts(nodes, |nodes.order|);
    }
  }

  lemma {:induction false} NoCuts(nodes: Nodes, n: nat)
    requires n <= |nodes.order| && NodesOk(nodes)
    requires forall id :: id in nodes.parent ==> Ends(nodes.parent, id)
    ensures LinkFirst(nodes, n).par == nodes.parent && LinkFirst(nodes, n).cycles == 0
  {
    if n > 0 {
      NoCuts(nodes, n - 1);
      assert nodes.order[n - 1] in nodes.order;
    }
  }

  // -------------------------------------------------------- one-rooted logs

  /** Every span but the first names an earlier span as its parent. */
  predicate Rooted(nodes: Nodes) {
    && |nodes.order| > 0
    && (forall id :: id in nodes.order ==> id in nodes.parent)
    && nodes.parent[nodes.order[0]] == ""
    && forall i :: 0 < i < |nodes.order| ==> ParentIsEarlier(nodes, i)
  }

  predicate ParentIsEarlier(nodes: Nodes, i: nat)
    requires i < |nodes.order| && nodes.order[i] in nodes.parent
  {
    nodes.parent[nodes.order[i]] in nodes.order[..i]
  }

  lemma {:induction false} RootedEnds(nodes: Nodes, i: nat)
    requires NodesOk(nodes) && Rooted(nodes) && i < |nodes.order|
    ensures Ends(nodes.parent, nodes.order[i])
  {
    var id := nodes.order[i];
    if i == 0 {
      assert Up(nodes.parent, id, 1) == Up(nodes.parent, "", 0) == "";
    } else {
      assert ParentIsEarlier(nodes, i);
      var up := nodes.parent[id];
      var j :| 0 <= j < i && nodes.order[j] == up;
      RootedEnds(nodes, j);
      var k: nat :| Up(nodes.parent, up, k) !in nodes.parent;
      assert Up(nodes.parent, id, k + 1) == Up(nodes.parent, up, k);
    }
  }

  lemma RootedNext(ids: seq<string>, id: string, par: Parents, root: string)
    requires OrphansOf(ids, par) == [] && RootsOf(ids, par) == [root]
    requires id in par && par[id] in par
    ensures OrphansOf(ids + [id], par) == [] && RootsOf(ids + [id], par) == [root]
  {
    OneMoreId(ids, id, par, "");
  }

  lemma {:induction false} RootedFirst(nodes: Nodes, n: nat)
    requires NodesOk(nodes) && Rooted(nodes) && 0 < n <= |nodes.order|
    ensures OrphansOf(nodes.order[..n], nodes.parent) == []
    ensures RootsOf(nodes.order[..n], nodes.parent) == [nodes.order[0]]
  {
    var id, ids := nodes.order[n - 1], nodes.order[..n - 1];
    assert nodes.order[..n] == ids + [id] && id in nodes.order;
    if n == 1 {
      OneMoreId([], id, nodes.parent, "");
    } else {
      RootedFirst(nodes, n - 1);
      assert ParentIsEarlier(nodes, n - 1);
      assert nodes.parent[id] in nodes.order;
      RootedNext(ids, id, nodes.parent, nodes.order[0]);
    }
  }

  /** Such a log has one root, no orphan and no cycle. */
  lemma RootedTree(nodes: Nodes)
    requires NodesOk(nodes) && Rooted(nodes)
    ensures Link(nodes).roots == [nodes.order[0]]
    ensures Link(nodes).orphans == 0 && Link(nodes).cycles == 0
    ensures Link(nodes).par == nodes.parent
  {
    forall id | id in nodes.parent
      ensures Ends(nodes.parent, id)
    {
      var i :| 0 <= i < |nodes.order| && nodes.order[i] == id;
      RootedEnds(nodes, i);
    }
    AcyclicIffEnds(nodes.parent);
    CycleDetectionIsExact(nodes);
    RootedFirst(nodes, |nodes.order|);
    LinkFirstLinked(nodes, |nodes.order|);
    assert nodes.order[..|nodes.order|] == nodes.order;
  }

  // ---------------------------------------------------------- the algorithm

  /** The walk over the ancestors of one span.  It ends because the set of
      visited spans grows. */
  method RunsIntoCycle(par: Parents, id: string) returns (cycle: bool)
    requires "" !in par && id in par
    ensures cycle <==> !Ends(par, id)
  {
    var visited := {id};
    var current := par[id];
    ghost var k := 1;
    assert Up(par, id, 1) == Up(par, par[id], 0);
    assert FirstAncestors(par, id, 1) == {Up(par, id, 0)};
    while current != "" && current in par
      invariant k >= 1 && current == Up(par, id, k)
      invariant visited == FirstAncestors(par, id, k) && visited <= par.Keys
      decreases |par.Keys - visited|
    {
      if current in visited {
        ghost var j: nat :| j < k && Up(par, id, j) == current;
        forall n: nat
          ensures Up(par, id, n) in par
        {
          RepeatNeverEnds(par, id, j, k, n);
        }
        return true;
      }
      SetShrinks(par.Keys - (visited + {current}), par.Keys - visited);
      UpUp(par, id, k, 1);
      assert Up(par, current, 1) == Up(par, par[current], 0);
      assert FirstAncestors(par, id, k + 1) == visited + {current};
      visited := visited + {current};
      current := par[current];
      k := k + 1;
    }
    return false;
  }

  datatype Tree = Tree(order: seq<string>, forest: Forest, eventCount: nat, omitted: nat, valid: bool)

  function OmittedCount(events: seq<Event>): nat {
    if |events| == 0 then 0
    else OmittedCount(events[..|events| - 1]) + (if Omitted(events[|events| - 1].kind) then 1 else 0)
  }

  /** What is left out and what is not make up the list. */
  lemma {:induction false} OmittedAreTheRest(events: seq<Event>)
    ensures OmittedCount(events) + |Visible(events)| == |events|
  {
    if |events| > 0 {
      OmittedAreTheRest(events[..|events| - 1]);
    }
  }

  method GatherNodes(events: seq<Event>) returns (nodes: Nodes, omitted: nat)
    ensures nodes == Gather(events) == Gather(Visible(events)) && omitted + |Visible(events)| == |events|
  {
    var order: seq<string>, parent: Parents := [], map[];
    omitted := 0;
    for i := 0 to |events|
      invariant Nodes(order, parent) == Gather(events[..i])
      invariant omitted == OmittedCount(events[..i])
    {
      assert events[..i + 1][..i] == events[..i];
      var e := events[i];
      if Omitted(e.kind) {
        omitted := omitted + 1;
      } else {
        var id := Identity(e, |order|);
        if id !in parent {
          parent := parent[id := e.parent];
          order := order + [id];
        }
      }
    }
    assert events[..|events|] == events;
    OmittedAreTheRest(events);
    LeftOutEventsDoNotMatter(events);
    nodes := Nodes(order, parent);
  }

  lemma LinkFirstKeys(nodes: Nodes, n: nat)
    requires n <= |nodes.order| && NodesOk(nodes)
    ensures LinkFirst(nodes, n).par.Keys == LinkFirst(nodes, n).children.Keys == nodes.parent.Keys
  {
    LinkFirstLinked(nodes, n);
  }

  lemma SelfParentNeverEnds(par: Parents, id: string)
    requires "" !in par && id in par && par[id] == id
    ensures !Ends(par, id)
  {
    assert Up(par, id, 1) == Up(par, id, 0) == id;
    forall n: nat
      ensures Up(par, id, n) in par
    {
      RepeatNeverEnds(par, id, 0, 1, n);
    }
  }

  /** One span is put in its place. */
  method LinkSpan(before: Forest, id: string) returns (f: Forest)
    requires before.children.Keys == before.par.Keys && "" !in before.par && id in before.par
    ensures f == LinkOne(before, id)
  {
    var par, children, roots := before.par, before.children, before.roots;
    var orphans, cycles := before.orphans, before.cycles;
    var parent := par[id];
    if parent == id {
      SelfParentNeverEnds(par, id);
      cycles := cycles + 1;
      par := par[id := ""];
      roots := roots + [id];
    } else if parent != "" && parent in par {
      var cycle := RunsIntoCycle(par, id);
      if cycle {
        cycles := cycles + 1;
        par := par[id := ""];
        roots := roots + [id];
      } else {
        children := children[parent := children[parent] + [id]];
      }
    } else if parent != "" {
      orphans := orphans + 1;
      roots := roots + [id];
    } else {
      roots := roots + [id];
    }
    f := Forest(par, children, roots, orphans, cycles);
  }

  /** The second half: children, roots, orphans and cycles. */
  method LinkNodes(nodes: Nodes) returns (f: Forest)
    requires NodesOk(nodes)
    ensures f == Link(nodes)
  {
    f := Forest(nodes.parent, map id | id in nodes.parent :: [], [], 0, 0);
    for n := 0 to |nodes.order|
      invariant f == LinkFirst(nodes, n)
    {
      LinkFirstKeys(nodes, n);
      assert nodes.order[n] in nodes.order;
      f := LinkSpan(f, nodes.order[n]);
    }
  }

  method BuildSpanTree(events: seq<Event>) returns (tree: Tree)
    ensures NodesOk(Gather(events))
    ensures tree.order == Gather(events).order && tree.forest == Link(Gather(events))
    ensures IsForest(tree.order, tree.forest)
    ensures tree.valid <==> tree.order != [] && Acyclic(Gather(events).parent)
    ensures tree.eventCount == |events| && tree.omitted + |Visible(events)| == |events|
    ensures tree.order == Gather(Visible(events)).order && tree.forest == Link(Gather(Visible(events)))
  {
    var nodes, omitted := GatherNodes(events);
    SpansFormForest(events);
    CycleDetectionIsExact(nodes);
    var f := LinkNodes(nodes);
    if |f.roots| > 0 {
      assert f.roots[0] in f.roots;
    }
    tree := Tree(nodes.order, f, |events|, omitted, |f.roots| >= 1 && f.cycles == 0);
  }
}

/** `AgentTelemetry` as an object: its methods update the span tables, the
    contexts and the journal in place, each proved to be the operation of the
    value model.  `known` and `origin` are bookkeeping of the model only. */
module AgentTelemetry {
  import opened Common
  import opened Events
  import opened Text
  import opened SpanTree
  import opened Recorder
  import opened RecorderTree

  class Telemetry {
    var contexts: map<Actor, Context>
    var spans: seq<SpanEntry>
    var tools: seq<ToolEntry>
    var journal: seq<Event>
    ghost var known: set<Context>
    ghost var origin: map<string, string>

    ghost function View(): State
      reads this
    {
      State(contexts, spans, tools, journal, known, origin)
    }

    /** A fresh recorder on which actor 0 has started a run. */
    constructor (root: string)
      requires root != ""
      ensures View() == StartRun(root) && Formed(View(), root) && Inv(View(), root)
    {
      var ctx := Context(root, "", root);
      contexts := map[0 := ctx];
      spans := [SpanEntry(BySpan(root), OpenSpan(BySpan(root), root, ""))];
      tools := [];
      journal := [Event("run.started", 1, "evt-" + Decimal(1), root, "")];
      known, origin := {ctx}, map[root := ""];
      new;
      StartRunFormed(root);
      StartRunOk(root);
    }

    method DoEmit(a: Actor, kind: string, span: string, parent: string)
      requires a in contexts
      modifies this`journal
      ensures View() == Emit(old(View()), a, kind, span, parent)
    {
      var ctx := contexts[a];
      var resolved := span;
      if resolved == "" {
        resolved := ctx.span;
      }
      var above := parent;
      if resolved == ctx.root {
        above := "";
      } else if above == "" {
        above := ctx.parent;
      }
      var n := |journal| + 1;
      journal := journal + [Event(kind, n, "evt-" + Decimal(n), resolved, above)];
    }

    method DoStartSpan(a: Actor, id: string) returns (handle: OpenSpan)
      requires a in contexts
      modifies this
      ensures View() == StartSpan(old(View()), a, id)
      ensures handle == OpenSpan(BySpan(id), id, old(contexts[a].span))
    {
      var ctx := contexts[a];
      handle := OpenSpan(BySpan(id), id, ctx.span);
      spans := PutSpan(spans, BySpan(id), handle);
      origin := origin[id := ctx.span];
      contexts := contexts[a := Child(ctx, id, ctx.span)];
    }

    /** The search over the open spans for the parent's own parent. */
    method FindGrandparent(span: string) returns (parent: string)
      ensures parent == GrandparentOf(spans, span)
    {
      parent := "";
      var i := 0;
      while i < |spans|
        invariant i <= |spans|
        invariant GrandparentOf(spans, span) == GrandparentOf(spans[i..], span)
      {
        if spans[i].handle.span == span {
          return spans[i].handle.parent;
        }
        assert spans[i..][1..] == spans[i + 1..];
        i := i + 1;
      }
    }

    method DoEndSpan(a: Actor, key: Key)
      requires a in contexts
      modifies this
      ensures View() == EndSpan(old(View()), a, key)
    {
      var found := Lookup(spans, key);
      if found.None? {
        return;
      }
      var handle := found.value;
      spans := PopSpan(spans, key);
      if handle.key != key {
        spans := PopSpan(spans, handle.key);
      }
      var ctx := contexts[a];
      if ctx.span == handle.span {
        var grandparent := FindGrandparent(handle.parent);
        contexts := contexts[a := Child(ctx, handle.parent, grandparent)];
      }
    }

    method EmitPhaseStart(a: Actor, name: string, id: string)
      requires a in contexts
      modifies this
      ensures View() == AfterPhaseStart(old(View()), a, name, id)
    {
      var handle := DoStartSpan(a, id);
      spans := PutSpan(spans, ByPhase(name), handle);
      DoEmit(a, "phase", id, handle.parent);
    }

    method EmitPhaseOther(a: Actor, name: string, ends: bool)
      requires a in contexts
      modifies this
      ensures View() == AfterPhaseOther(old(View()), a, name, ends)
    {
      var found := Lookup(spans, ByPhase(name));
      if ends {
        DoEndSpan(a, ByPhase(name));
      }
      if found.Some? {
        DoEmit(a, "phase", found.value.span, found.value.parent);
      } else {
        DoEmit(a, "phase", "", "");
      }
    }

    method BeginTool(a: Actor, call: string, id: string)
      requires a in contexts
      modifies this
      ensures View() == AfterBeginTool(old(View()), a, call, id)
    {
      var handle := DoStartSpan(a, id);
      var i, entry := ToolIndex(tools, call), ToolEntry(call, BySpan(id));
      if i < |tools| {
        tools := tools[i := entry];
      } else {
        tools := tools + [entry];
      }
      DoEmit(a, "tool.started", id, handle.parent);
    }

    method EmitOnHandle(a: Actor, kind: string, handle: Option<OpenSpan>)
      requires a in contexts
      modifies this`journal
      ensures View() == EmitOn(old(View()), a, kind, handle)
    {
      if handle.Some? {
        DoEmit(a, kind, handle.value.span, handle.value.parent);
      } else {
        DoEmit(a, kind, "", "");
      }
    }

    /** The named call, or without a name the newest one, leaves the table. */
    method TakeTool(call: string) returns (key: Option<Key>)
      modifies this`tools
      ensures var i := ToolEntryFor(old(View()), call);
              if i < |old(tools)| then key == Some(old(tools)[i].key) && tools == RemoveAt(old(tools), i)
              else key == None && tools == old(tools)
    {
      key := None;
      var i := if call != "" then ToolIndex(tools, call) else if |tools| > 0 then |tools| - 1 else 0;
      if i < |tools| {
        key := Some(tools[i].key);
        tools := RemoveAt(tools, i);
      }
    }

    method FinishTool(a: Actor, call: string, kind: string, search: bool)
      requires a in contexts
      modifies this
      ensures View() == AfterFinishTool(old(View()), a, call, kind, search)
    {
      var key := TakeTool(call);
      var handle := if key.Some? then Lookup(spans, key.value) else None;
      if search {
        EmitOnHandle(a, "retrieval.search", handle);
      }
      EmitOnHandle(a, kind, handle);
      if key.Some? {
        DoEndSpan(a, key.value);
      }
    }

    method RecordGeneration(a: Actor, id: string)
      requires a in contexts
      modifies this
      ensures View() == AfterGeneration(old(View()), a, id)
    {
      var handle := DoStartSpan(a, id);
      DoEmit(a, "gen_ai.chat", id, handle.parent);
      DoEndSpan(a, BySpan(id));
    }

    method BindWorker(a: Actor)
      requires a in contexts
      modifies this`contexts
      ensures View() == AfterBindWorker(old(View()), a)
    {
      var ctx := contexts[a];
      var above := if ctx.root != "" then ctx.root else ctx.span;
      contexts := contexts[a := Child(ctx, above, above)];
    }
  }

  /** In a fresh run with root `r`: span `k` is opened without an event, tool
      `call` is begun below it as span `c`, and `k` is closed. */
  function ClosedTooEarly(r: string, k: string, c: string, call: string): (s: State)
    ensures 0 in s.contexts
  {
    EndSpan(AfterBeginTool(StartSpan(StartRun(r), 0, k), 0, call, c), 0, BySpan(k))
  }

  predicate AllDifferent(r: string, k: string, c: string) {
    r != "" && k != "" && c != "" && r != k && r != c && k != c
  }

  lemma SecondEntry(spans: seq<SpanEntry>, key: Key)
    requires |spans| >= 2 && spans[0].key != key && spans[1].key == key
    ensures EntryIndex(spans, key) == 1
  {
    FirstIndexIsFirst(spans, AtKey(key));
    assert AtKey(key)(spans[1]);
  }

  lemma BegunBelowUnannounced(r: string, k: string, c: string, call: string)
    requires AllDifferent(r, k, c)
    ensures var s := AfterBeginTool(StartSpan(StartRun(r), 0, k), 0, call, c);
            && s.contexts == map[0 := Context(c, k, r)]
            && s.spans == [SpanEntry(BySpan(r), OpenSpan(BySpan(r), r, "")),
                           SpanEntry(BySpan(k), OpenSpan(BySpan(k), k, r)),
                           SpanEntry(BySpan(c), OpenSpan(BySpan(c), c, k))]
            && s.tools == [ToolEntry(call, BySpan(c))]
            && |s.journal| == 2
            && s.journal[0].kind == "run.started" && s.journal[0].spanId == r
            && s.journal[1].kind == "tool.started" && s.journal[1].spanId == c
  {
    StartedIs(r);
    var root := SpanEntry(BySpan(r), OpenSpan(BySpan(r), r, ""));
    var atK := SpanEntry(BySpan(k), OpenSpan(BySpan(k), k, r));
    var s0 := StartRun(r);
    OpenedIs(s0, k, [root], Context(r, "", r));
    var s1 := StartSpan(s0, 0, k);
    assert s1.spans == [root, atK] && s1.contexts == map[0 := Context(k, r, r)];
    OpenedIs(s1, c, [root, atK], Context(k, r, r));
  }

  lemma StartedIs(r: string)
    ensures var s := StartRun(r);
            && s.contexts == map[0 := Context(r, "", r)] && s.tools == []
            && s.spans == [SpanEntry(BySpan(r), OpenSpan(BySpan(r), r, ""))]
            && |s.journal| == 1 && s.journal[0].kind == "run.started" && s.journal[0].spanId == r
  {
  }

  lemma OpenedIs(s: State, id: string, spans: seq<SpanEntry>, ctx: Context)
    requires id != "" && ctx.span != "" && s.contexts == map[0 := ctx] && s.spans == spans
    requires forall i :: 0 <= i < |spans| ==> spans[i].key != BySpan(id)
    ensures var t := StartSpan(s, 0, id);
            && t.spans == spans + [SpanEntry(BySpan(id), OpenSpan(BySpan(id), id, ctx.span))]
            && t.contexts == map[0 := Context(id, ctx.span, ctx.root)]
            && t.tools == s.tools && t.journal == s.journal
  {
    assert EntryIndex(spans, BySpan(id)) == |spans|;
  }

  lemma ClosedTooEarlyIs(r: string, k: string, c: string, call: string)
    requires AllDifferent(r, k, c)
    ensures var s := ClosedTooEarly(r, k, c, call);
            && s.contexts == map[0 := Context(c, k, r)]
            && s.spans == [SpanEntry(BySpan(r), OpenSpan(BySpan(r), r, "")),
                           SpanEntry(BySpan(c), OpenSpan(BySpan(c), c, k))]
            && s.tools == [ToolEntry(call, BySpan(c))]
            && |s.journal| == 2
            && s.journal[0].kind == "run.started" && s.journal[0].spanId == r
            && s.journal[1].kind == "tool.started" && s.journal[1].spanId == c
  {
    BegunBelowUnannounced(r, k, c, call);
    var s := AfterBeginTool(StartSpan(StartRun(r), 0, k), 0, call, c);
    SecondEntry(s.spans, BySpan(k));
    assert RemoveAt(s.spans, 1) == [s.spans[0], s.spans[2]];
  }

  /** Finishing that tool leaves the actor on `k`, with `k` as parent. */
  lemma FinishedBelowClosed(s: State, r: string, k: string, c: string, call: string)
    requires AllDifferent(r, k, c) && call != "" && s.contexts == map[0 := Context(c, k, r)]
    requires s.spans == [SpanEntry(BySpan(r), OpenSpan(BySpan(r), r, "")),
                         SpanEntry(BySpan(c), OpenSpan(BySpan(c), c, k))]
    requires s.tools == [ToolEntry(call, BySpan(c))]
    ensures var s' := AfterFinishTool(s, 0, call, "tool.completed", false);
            && s'.contexts == map[0 := Context(k, k, r)]
            && |s'.journal| == |s.journal| + 1 && s.journal <= s'.journal
            && s'.journal[|s.journal|].spanId == c
  {
    SecondEntry(s.spans, BySpan(c));
    assert RemoveAt(s.spans, 1) == [s.spans[0]];
    assert GrandparentOf([s.spans[0]], k) == GrandparentOf([], k);
  }

  lemma SelfParentedTree(a: Event, b: Event, c: Event, d: Event, r: string, k: string)
    requires AllDifferent(r, k, b.spanId)
    requires a.kind == "run.started" && a.spanId == r && b.kind == "tool.started"
    requires c.spanId == b.spanId && d.kind == "worker.started" && d.spanId == d.parent == k
    ensures var par := Gather([a, b, c, d]).parent; k in par && par[k] == k && !Acyclic(par)
  {
    ThreeEvents(a, b, c);
    assert [a, b, c] + [d] == [a, b, c, d];
    GatherAppend([a, b, c], d);
    SelfParentIsCycle(Gather([a, b, c, d]).parent, k);
  }

  /** The spans of a start and two events of one other span. */
  lemma ThreeEvents(a: Event, b: Event, c: Event)
    requires a.kind == "run.started" && a.spanId != "" && b.kind == "tool.started"
    requires b.spanId != "" && b.spanId == c.spanId
    ensures Gather([a, b, c]).parent.Keys == {a.spanId, b.spanId}
  {
    assert [] + [a] == [a] && [a] + [b] == [a, b] && [a, b] + [c] == [a, b, c];
    GatherAppend([], a);
    GatherAppend([a], b);
    GatherAppend([a, b], c);
  }

  lemma PlainEventSelfParents(s: State, r: string, k: string, c: string)
    requires AllDifferent(r, k, c) && s.contexts == map[0 := Context(k, k, r)] && |s.journal| == 3
    requires s.journal[0].kind == "run.started" && s.journal[0].spanId == r
    requires s.journal[1].kind == "tool.started" && s.journal[1].spanId == s.journal[2].spanId == c
    ensures var par := Gather(Emit(s, 0, "worker.started", "", "").journal).parent;
            k in par && par[k] == k && !Acyclic(par)
  {
    var j := Emit(s, 0, "worker.started", "", "").journal;
    assert j == [j[0], j[1], j[2], j[3]];
    SelfParentedTree(j[0], j[1], j[2], j[3], r, k);
  }

  /** Opening a span without announcing it is not enough: the next plain event
      is the first of span `k` and names `k` as its own parent, so the tree has
      a cycle to cut. */
  lemma UnannouncedSpanCanBecomeItsOwnParent(r: string, k: string, c: string, call: string)
    requires AllDifferent(r, k, c) && call != ""
    ensures var s := AfterFinishTool(ClosedTooEarly(r, k, c, call), 0, call, "tool.completed", false);
            var par := Gather(Emit(s, 0, "worker.started", "", "").journal).parent;
            k in par && par[k] == k && !Acyclic(par)
  {
    ClosedTooEarlyIs(r, k, c, call);
    FinishedBelowClosed(ClosedTooEarly(r, k, c, call), r, k, c, call);
    PlainEventSelfParents(
      AfterFinishTool(ClosedTooEarly(r, k, c, call), 0, call, "tool.completed", false), r, k, c);
  }
}

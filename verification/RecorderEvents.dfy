/** Which events each operation of the recorder leaves in the journal, and on which
    span: exactly these and no others, in every run. */
module RecorderEvents {
  import opened Common
  import opened Events
  import opened Text
  import opened Recorder

  // ------------------------------------------------------------ events told

  datatype Told = Told(kind: string, span: string, parent: string)

  /** The journal grows by these events, numbered on. */
  predicate Tells(s: State, s': State, told: seq<Told>) {
    && |s'.journal| == |s.journal| + |told| && s.journal <= s'.journal
    && forall i :: 0 <= i < |told| ==> IsTold(s'.journal[|s.journal| + i], told[i], |s.journal| + i + 1)
  }

  predicate IsTold(e: Event, told: Told, number: int) {
    e.kind == told.kind && e.spanId == told.span && e.parent == told.parent && e.number == number
  }

  /** An event of the root span has no parent. */
  function At(ctx: Context, kind: string, span: string, parent: string): Told {
    Told(kind, span, if span == ctx.root then "" else parent)
  }

  function OnCurrent(ctx: Context, kind: string): Told { At(ctx, kind, ctx.span, ctx.parent) }

  lemma EmitTells(s: State, a: Actor, kind: string, span: string, parent: string)
    requires a in s.contexts
    ensures var ctx := s.contexts[a];
            Tells(s, Emit(s, a, kind, span, parent),
                  [At(ctx, kind, if span != "" then span else ctx.span, if parent != "" then parent else ctx.parent)])
  {
  }

  /** A plain event is on the current span. */
  lemma PlainTells(s: State, a: Actor, kind: string)
    requires a in s.contexts
    ensures Tells(s, Emit(s, a, kind, "", ""), [OnCurrent(s.contexts[a], kind)])
  {
    EmitTells(s, a, kind, "", "");
  }

  lemma TellsOn(s: State, begun: State, s': State, told: seq<Told>)
    requires begun.journal == s.journal && Tells(begun, s', told)
    ensures Tells(s, s', told)
  {
  }

  lemma TellsThen(s: State, t: State, u: State, first: seq<Told>, second: seq<Told>)
    requires Tells(s, t, first) && Tells(t, u, second)
    ensures Tells(s, u, first + second)
  {
    var both := first + second;
    forall i | 0 <= i < |both|
      ensures IsTold(u.journal[|s.journal| + i], both[i], |s.journal| + i + 1)
    {
      if i < |first| {
        assert u.journal[|s.journal| + i] == t.journal[|s.journal| + i] && both[i] == first[i];
      } else {
        assert both[i] == second[i - |first|];
        assert IsTold(u.journal[|t.journal| + (i - |first|)], second[i - |first|], |t.journal| + (i - |first|) + 1);
      }
    }
  }

  /** A phase start tells of the new span, below the one it was opened in. */
  lemma PhaseStartTells(s: State, a: Actor, name: string, id: string)
    requires a in s.contexts && id != "" && id != s.contexts[a].root && s.contexts[a].span != ""
    ensures Tells(s, AfterPhaseStart(s, a, name, id), [Told("phase", id, s.contexts[a].span)])
  {
    var above := s.contexts[a].span;
    var begun := StartSpan(s, a, id);
    var aliased := begun.(spans := PutSpan(begun.spans, ByPhase(name), OpenSpan(BySpan(id), id, above)));
    EmitTells(aliased, a, "phase", id, above);
    TellsOn(s, aliased, AfterPhaseStart(s, a, name, id), [Told("phase", id, above)]);
  }

  /** So does the beginning of a tool. */
  lemma BeginToolTells(s: State, a: Actor, call: string, id: string)
    requires a in s.contexts && id != "" && id != s.contexts[a].root && s.contexts[a].span != ""
    ensures Tells(s, AfterBeginTool(s, a, call, id), [Told("tool.started", id, s.contexts[a].span)])
  {
    var above := s.contexts[a].span;
    var begun := StartSpan(s, a, id);
    var i, entry := ToolIndex(begun.tools, call), ToolEntry(call, BySpan(id));
    var noted := begun.(tools := if i < |begun.tools| then begun.tools[i := entry] else begun.tools + [entry]);
    EmitTells(noted, a, "tool.started", id, above);
    TellsOn(s, noted, AfterBeginTool(s, a, call, id), [Told("tool.started", id, above)]);
  }

  /** And a generation. */
  lemma GenerationTells(s: State, a: Actor, id: string)
    requires a in s.contexts && id != "" && id != s.contexts[a].root && s.contexts[a].span != ""
    ensures Tells(s, AfterGeneration(s, a, id), [Told("gen_ai.chat", id, s.contexts[a].span)])
  {
    var begun := StartSpan(s, a, id);
    EmitTells(begun, a, "gen_ai.chat", id, s.contexts[a].span);
  }

  /** The event of an open span, or of the current one. */
  function OnHandle(ctx: Context, kind: string, handle: Option<OpenSpan>): Told {
    if handle.Some? then At(ctx, kind, handle.value.span, handle.value.parent) else OnCurrent(ctx, kind)
  }

  /** Only the root span was opened in none. */
  predicate HandleIs(ctx: Context, h: OpenSpan) { h.span != "" && (h.parent == "" ==> h.span == ctx.root) }

  lemma EmitOnTells(s: State, a: Actor, kind: string, handle: Option<OpenSpan>)
    requires a in s.contexts && (handle.Some? ==> HandleIs(s.contexts[a], handle.value))
    ensures Tells(s, EmitOn(s, a, kind, handle), [OnHandle(s.contexts[a], kind, handle)])
  {
    if handle.Some? {
      EmitTells(s, a, kind, handle.value.span, handle.value.parent);
    } else {
      EmitTells(s, a, kind, "", "");
    }
  }

  /** A later phase event is on the phase's span while that is open, else on the
      current one. */
  lemma PhaseOtherTells(s: State, a: Actor, name: string, ends: bool)
    requires a in s.contexts
    requires Lookup(s.spans, ByPhase(name)).Some? ==>
               HandleIs(s.contexts[a], Lookup(s.spans, ByPhase(name)).value)
    ensures Tells(s, AfterPhaseOther(s, a, name, ends),
                  [OnHandle(s.contexts[a], "phase", Lookup(s.spans, ByPhase(name)))])
  {
    var s' := if ends then EndSpan(s, a, ByPhase(name)) else s;
    EmitOnTells(s', a, "phase", Lookup(s.spans, ByPhase(name)));
  }

  /** An outcome, after a search event if it was a search. */
  function Outcome(told: Told, search: bool): seq<Told> {
    if search then [told.(kind := "retrieval.search"), told] else [told]
  }

  lemma BothTell(s: State, a: Actor, kind: string, search: bool, handle: Option<OpenSpan>)
    requires a in s.contexts && (handle.Some? ==> HandleIs(s.contexts[a], handle.value))
    ensures var searched := if search then EmitOn(s, a, "retrieval.search", handle) else s;
            Tells(s, EmitOn(searched, a, kind, handle), Outcome(OnHandle(s.contexts[a], kind, handle), search))
  {
    var told := OnHandle(s.contexts[a], kind, handle);
    var searched := if search then EmitOn(s, a, "retrieval.search", handle) else s;
    EmitOnTells(searched, a, kind, handle);
    if search {
      EmitOnTells(s, a, "retrieval.search", handle);
      var first := told.(kind := "retrieval.search");
      TellsThen(s, searched, EmitOn(searched, a, kind, handle), [first], [told]);
      assert [first] + [told] == Outcome(told, true);
    }
  }

  /** Finishing a tool tells of the outcome given, after a search event if it was a
      search; both on the tool's span while that is open, else on the current one. */
  lemma FinishToolTells(s: State, a: Actor, call: string, kind: string, search: bool, handle: Option<OpenSpan>)
    requires a in s.contexts && (handle.Some? ==> HandleIs(s.contexts[a], handle.value))
    requires var i := ToolEntryFor(s, call);
             handle == if i < |s.tools| then Lookup(s.spans, s.tools[i].key) else None
    ensures Tells(s, AfterFinishTool(s, a, call, kind, search), Outcome(OnHandle(s.contexts[a], kind, handle), search))
  {
    var i := ToolEntryFor(s, call);
    var popped := if i < |s.tools| then s.(tools := RemoveAt(s.tools, i)) else s;
    var searched := if search then EmitOn(popped, a, "retrieval.search", handle) else popped;
    BothTell(popped, a, kind, search, handle);
    FinishedJournal(s, a, call, kind, search, EmitOn(searched, a, kind, handle));
  }

  /** Without a name the newest tool is finished. */
  lemma UnnamedIsNewest(s: State)
    requires |s.tools| > 0
    ensures ToolEntryFor(s, "") == |s.tools| - 1
  {
  }

  lemma FinishedJournal(s: State, a: Actor, call: string, kind: string, search: bool, finished: State)
    requires a in s.contexts
    requires var i := ToolEntryFor(s, call);
             var popped := if i < |s.tools| then s.(tools := RemoveAt(s.tools, i)) else s;
             var handle := if i < |s.tools| then Lookup(s.spans, s.tools[i].key) else None;
             var searched := if search then EmitOn(popped, a, "retrieval.search", handle) else popped;
             finished == EmitOn(searched, a, kind, handle)
    ensures AfterFinishTool(s, a, call, kind, search).journal == finished.journal
  {
  }

  /** The end of a run tells of its outcome and of the summary. */
  lemma FinishRunTells(s: State, a: Actor, kind: string)
    requires a in s.contexts
    ensures Tells(s, AfterFinishRun(s, a, kind),
                  [OnCurrent(s.contexts[a], kind), OnCurrent(s.contexts[a], "run_summary")])
  {
    var ctx, told := s.contexts[a], Emit(s, a, kind, "", "");
    PlainTells(s, a, kind);
    PlainTells(told, a, "run_summary");
    TellsThen(s, told, Emit(told, a, "run_summary", "", ""), [OnCurrent(ctx, kind)], [OnCurrent(ctx, "run_summary")]);
    assert [OnCurrent(ctx, kind)] + [OnCurrent(ctx, "run_summary")]
        == [OnCurrent(ctx, kind), OnCurrent(ctx, "run_summary")];
  }

  /** Opening and closing spans, forking, binding and restoring contexts tell
      nothing. */
  lemma SilentTells(s: State, op: Op)
    requires Enabled(s, op)
    requires op.Open? || op.CloseSpan? || op.BindWorker? || op.Fork? || op.Restore?
    ensures Step(s, op).journal == s.journal
  {
  }

  // --------------------------------------------------------- where one stands

  /** A worker starts on the root span, with the root span above it. */
  lemma BoundWorkerIs(s: State, a: Actor)
    requires a in s.contexts && s.contexts[a].root != ""
    ensures AfterBindWorker(s, a)
         == s.(contexts := s.contexts[a := Context(s.contexts[a].root, s.contexts[a].root, s.contexts[a].root)])
  {
  }

  /** A span that is opened becomes current, below the one that was. */
  lemma OpenedIs(s: State, a: Actor, id: string)
    requires a in s.contexts && id != "" && s.contexts[a].span != ""
    ensures var ctx, s' := s.contexts[a], StartSpan(s, a, id);
            && s'.contexts == s.contexts[a := Context(id, ctx.span, ctx.root)]
            && Lookup(s'.spans, BySpan(id)) == Some(OpenSpan(BySpan(id), id, ctx.span))
            && s'.tools == s.tools && s'.journal == s.journal
  {
    FirstIndexIsFirst(s.spans, AtKey(BySpan(id)));
    var i, put := EntryIndex(s.spans, BySpan(id)), StartSpan(s, a, id).spans;
    assert put[i].key == BySpan(id);
    FirstIndexIsFirst(put, AtKey(BySpan(id)));
    assert forall j :: 0 <= j < i ==> put[j] == s.spans[j];
    assert AtKey(BySpan(id))(put[i]);
  }

  /** Closing a span that is not current moves nobody; closing the current one
      moves the actor to the span it was opened in. */
  lemma ClosedIs(s: State, a: Actor, key: Key, h: OpenSpan)
    requires a in s.contexts && Lookup(s.spans, key) == Some(h)
    ensures s.contexts[a].span != h.span ==> EndSpan(s, a, key).contexts == s.contexts
    ensures s.contexts[a].span == h.span && h.parent != "" ==>
              && EndSpan(s, a, key).contexts[a].span == h.parent
              && EndSpan(s, a, key).contexts[a].root == s.contexts[a].root
    ensures EndSpan(s, a, key).tools == s.tools
  {
  }

  // ------------------------------------------------- what the tables hold

  /** The table says of a span where it was opened. */
  predicate EntryTrue(origin: map<string, string>, e: SpanEntry) {
    && e.handle.key == BySpan(e.handle.span) && e.handle.span in origin && e.handle.span != ""
    && e.handle.parent == origin[e.handle.span]
    && (e.key.BySpan? ==> e.key == e.handle.key)
  }

  predicate SpansTrue(origin: map<string, string>, spans: seq<SpanEntry>) {
    forall i :: 0 <= i < |spans| ==> EntryTrue(origin, spans[i])
  }

  predicate Rooted(ctx: Context, root: string) { ctx.root == root && ctx.span != "" }

  /** Only the root span was opened in none, and every context is of this run. */
  predicate True(s: State, root: string) {
    && SpansTrue(s.origin, s.spans)
    && root in s.origin && root != "" && s.origin[root] == ""
    && (forall id :: id in s.origin && id != root ==> s.origin[id] != "")
    && (forall ctx :: ctx in s.known ==> Rooted(ctx, root))
    && (forall a :: a in s.contexts ==> Rooted(s.contexts[a], root))
  }

  lemma PutTrue(origin: map<string, string>, spans: seq<SpanEntry>, key: Key, h: OpenSpan)
    requires SpansTrue(origin, spans) && EntryTrue(origin, SpanEntry(key, h))
    ensures SpansTrue(origin, PutSpan(spans, key, h))
  {
  }

  lemma PopTrue(origin: map<string, string>, spans: seq<SpanEntry>, key: Key)
    requires SpansTrue(origin, spans)
    ensures SpansTrue(origin, PopSpan(spans, key))
  {
  }

  lemma SpansTrueGrow(origin: map<string, string>, origin': map<string, string>, spans: seq<SpanEntry>)
    requires SpansTrue(origin, spans) && forall id :: id in origin ==> id in origin' && origin'[id] == origin[id]
    ensures SpansTrue(origin', spans)
  {
  }

  lemma StartSpanTrue(s: State, a: Actor, id: string, root: string)
    requires True(s, root) && a in s.contexts && Fresh(s, id)
    ensures True(StartSpan(s, a, id), root)
    ensures EntryTrue(StartSpan(s, a, id).origin, SpanEntry(BySpan(id), OpenSpan(BySpan(id), id, s.contexts[a].span)))
  {
    var origin, h := s.origin[id := s.contexts[a].span], OpenSpan(BySpan(id), id, s.contexts[a].span);
    SpansTrueGrow(s.origin, origin, s.spans);
    PutTrue(origin, s.spans, BySpan(id), h);
  }

  lemma EndSpanTrue(s: State, a: Actor, key: Key, root: string)
    requires True(s, root) && a in s.contexts
    ensures True(EndSpan(s, a, key), root)
  {
    var found := Lookup(s.spans, key);
    if found.Some? {
      assert EntryTrue(s.origin, s.spans[EntryIndex(s.spans, key)]);
      PopTrue(s.origin, s.spans, key);
      PopTrue(s.origin, PopSpan(s.spans, key), found.value.key);
    }
  }

  lemma EmitTrue(s: State, a: Actor, kind: string, span: string, parent: string, root: string)
    requires True(s, root) && a in s.contexts
    ensures True(Emit(s, a, kind, span, parent), root)
  {
  }

  lemma EmitOnTrue(s: State, a: Actor, kind: string, handle: Option<OpenSpan>, root: string)
    requires True(s, root) && a in s.contexts
    ensures True(EmitOn(s, a, kind, handle), root)
  {
  }

  lemma PhaseStartTrue(s: State, a: Actor, name: string, id: string, root: string)
    requires True(s, root) && a in s.contexts && Fresh(s, id)
    ensures True(AfterPhaseStart(s, a, name, id), root)
  {
    var above := s.contexts[a].span;
    var h, begun := OpenSpan(BySpan(id), id, above), StartSpan(s, a, id);
    StartSpanTrue(s, a, id, root);
    PutTrue(begun.origin, begun.spans, ByPhase(name), h);
    var aliased := begun.(spans := PutSpan(begun.spans, ByPhase(name), h));
    EmitTrue(aliased, a, "phase", id, above, root);
  }

  lemma PhaseOtherTrue(s: State, a: Actor, name: string, ends: bool, root: string)
    requires True(s, root) && a in s.contexts
    ensures True(AfterPhaseOther(s, a, name, ends), root)
  {
    EndSpanTrue(s, a, ByPhase(name), root);
    var s' := if ends then EndSpan(s, a, ByPhase(name)) else s;
    EmitOnTrue(s', a, "phase", Lookup(s.spans, ByPhase(name)), root);
  }

  lemma BeginToolTrue(s: State, a: Actor, call: string, id: string, root: string)
    requires True(s, root) && a in s.contexts && Fresh(s, id)
    ensures True(AfterBeginTool(s, a, call, id), root)
  {
    var begun := StartSpan(s, a, id);
    StartSpanTrue(s, a, id, root);
    var i, entry := ToolIndex(begun.tools, call), ToolEntry(call, BySpan(id));
    var noted := begun.(tools := if i < |begun.tools| then begun.tools[i := entry] else begun.tools + [entry]);
    EmitTrue(noted, a, "tool.started", id, s.contexts[a].span, root);
  }

  lemma FinishToolTrue(s: State, a: Actor, call: string, kind: string, search: bool, root: string)
    requires True(s, root) && a in s.contexts
    ensures True(AfterFinishTool(s, a, call, kind, search), root)
  {
    var i := ToolEntryFor(s, call);
    var popped := if i < |s.tools| then s.(tools := RemoveAt(s.tools, i)) else s;
    var handle := if i < |s.tools| then Lookup(s.spans, s.tools[i].key) else None;
    EmitOnTrue(popped, a, "retrieval.search", handle, root);
    var searched := if search then EmitOn(popped, a, "retrieval.search", handle) else popped;
    EmitOnTrue(searched, a, kind, handle, root);
    if i < |s.tools| {
      EndSpanTrue(EmitOn(searched, a, kind, handle), a, s.tools[i].key, root);
    }
  }

  lemma GenerationTrue(s: State, a: Actor, id: string, root: string)
    requires True(s, root) && a in s.contexts && Fresh(s, id)
    ensures True(AfterGeneration(s, a, id), root)
  {
    StartSpanTrue(s, a, id, root);
    EmitTrue(StartSpan(s, a, id), a, "gen_ai.chat", id, s.contexts[a].span, root);
    EndSpanTrue(Emit(StartSpan(s, a, id), a, "gen_ai.chat", id, s.contexts[a].span), a, BySpan(id), root);
  }

  lemma FinishRunTrue(s: State, a: Actor, kind: string, root: string)
    requires True(s, root) && a in s.contexts
    ensures True(AfterFinishRun(s, a, kind), root)
  {
    var told := Emit(Emit(s, a, kind, "", ""), a, "run_summary", "", "");
    EmitTrue(s, a, kind, "", "", root);
    EmitTrue(Emit(s, a, kind, "", ""), a, "run_summary", "", "", root);
    EndSpanTrue(told, a, BySpan(s.contexts[a].root), root);
  }

  lemma ActTrue(s: State, op: Op, root: string)
    requires True(s, root) && Enabled(s, op)
    ensures True(Act(s, op), root)
  {
    match op
    case PhaseStart(a, name, id) => PhaseStartTrue(s, a, name, id, root);
    case PhaseOther(a, name, ends) => PhaseOtherTrue(s, a, name, ends, root);
    case BeginTool(a, call, id) => BeginToolTrue(s, a, call, id, root);
    case FinishTool(a, call, kind, search) => FinishToolTrue(s, a, call, kind, search, root);
    case Generation(a, id) => GenerationTrue(s, a, id, root);
    case PlainEmit(a, kind) => EmitTrue(s, a, kind, "", "", root);
    case Open(a, id) => StartSpanTrue(s, a, id, root);
    case CloseSpan(a, key) => EndSpanTrue(s, a, key, root);
    case FinishRun(a, kind) => FinishRunTrue(s, a, kind, root);
    case _ =>
  }

  lemma {:induction false} RunIsTrue(r: Run)
    requires RootOf(r) != ""
    ensures True(Final(r), RootOf(r))
  {
    match r
    case Begin(root) =>
      assert EntryTrue(StartRun(root).origin, StartRun(root).spans[0]);
    case Then(before, op) =>
      RunIsTrue(before);
      if Enabled(Final(before), op) {
        ActTrue(Final(before), op, RootOf(r));
      }
  }

  // -------------------------------------------------- from begin to finish

  /** The span noted for a call. */
  function SpanOfCall(tools: seq<ToolEntry>, call: string): Option<Key> {
    var i := ToolIndex(tools, call);
    if i < |tools| then Some(tools[i].key) else None
  }

  lemma ToolIndexIs(tools: seq<ToolEntry>, call: string, i: nat)
    requires i <= |tools| && (i < |tools| ==> tools[i].call == call)
    requires forall j :: 0 <= j < i ==> tools[j].call != call
    ensures ToolIndex(tools, call) == i
  {
    FirstIndexIsFirst(tools, OfCall(call));
  }

  lemma ToolIndexFirst(tools: seq<ToolEntry>, call: string)
    ensures ToolIndex(tools, call) < |tools| ==> tools[ToolIndex(tools, call)].call == call
    ensures forall j :: 0 <= j < ToolIndex(tools, call) ==> tools[j].call != call
  {
    FirstIndexIsFirst(tools, OfCall(call));
  }

  /** The operation neither begins the call again nor finishes it. */
  predicate SparesCall(s: State, op: Op, call: string) {
    match op
    case BeginTool(_, other, _) => other != call
    case FinishTool(_, other, _, _) => ToolEntryFor(s, other) != ToolIndex(s.tools, call)
    case _ => true
  }

  lemma NotedCall(s: State, a: Actor, call: string, id: string)
    requires a in s.contexts
    ensures SpanOfCall(AfterBeginTool(s, a, call, id).tools, call) == Some(BySpan(id))
  {
    ToolIndexFirst(s.tools, call);
    ToolIndexIs(AfterBeginTool(s, a, call, id).tools, call, ToolIndex(s.tools, call));
  }

  lemma OtherCallNoted(s: State, a: Actor, other: string, id: string, call: string)
    requires a in s.contexts && other != call && SpanOfCall(s.tools, call).Some?
    ensures SpanOfCall(AfterBeginTool(s, a, other, id).tools, call) == SpanOfCall(s.tools, call)
  {
    ToolIndexFirst(s.tools, call);
    ToolIndexFirst(s.tools, other);
    ToolIndexIs(AfterBeginTool(s, a, other, id).tools, call, ToolIndex(s.tools, call));
  }

  lemma OtherCallTaken(tools: seq<ToolEntry>, i: nat, call: string)
    requires i < |tools| && i != ToolIndex(tools, call) && SpanOfCall(tools, call).Some?
    ensures SpanOfCall(RemoveAt(tools, i), call) == SpanOfCall(tools, call)
  {
    var k := ToolIndex(tools, call);
    ToolIndexFirst(tools, call);
    ToolIndexIs(RemoveAt(tools, i), call, if i < k then k - 1 else k);
  }

  lemma FinishToolTable(s: State, a: Actor, call: string, kind: string, search: bool)
    requires a in s.contexts
    ensures var i := ToolEntryFor(s, call);
            AfterFinishTool(s, a, call, kind, search).tools == if i < |s.tools| then RemoveAt(s.tools, i) else s.tools
  {
  }

  lemma OthersKeepTable(s: State, op: Op)
    requires Enabled(s, op) && !op.BeginTool? && !op.FinishTool?
    ensures Act(s, op).tools == s.tools
  {
  }

  lemma SparedCall(s: State, op: Op, call: string)
    requires SparesCall(s, op, call) && SpanOfCall(s.tools, call).Some?
    ensures SpanOfCall(Step(s, op).tools, call) == SpanOfCall(s.tools, call)
  {
    if Enabled(s, op) {
      match op
      case BeginTool(a, other, id) => OtherCallNoted(s, a, other, id, call);
      case FinishTool(a, other, kind, search) =>
        FinishToolTable(s, a, other, kind, search);
        if ToolEntryFor(s, other) < |s.tools| {
          OtherCallTaken(s.tools, ToolEntryFor(s, other), call);
        }
      case _ => OthersKeepTable(s, op);
    }
  }

  /** From `r0` to `r` the call is neither begun again nor finished. */
  predicate CallSpared(r0: Run, r: Run, call: string) {
    r == r0 || (r.Then? && CallSpared(r0, r.before, call) && SparesCall(Final(r.before), r.op, call))
  }

  lemma {:induction false} CallStaysNoted(r0: Run, r: Run, call: string)
    requires CallSpared(r0, r, call) && SpanOfCall(Final(r0).tools, call).Some?
    ensures Continues(r0, r) && SpanOfCall(Final(r).tools, call) == SpanOfCall(Final(r0).tools, call)
  {
    if r != r0 {
      CallStaysNoted(r0, r.before, call);
      SparedCall(Final(r.before), r.op, call);
    }
  }

  lemma {:induction false} RootNotOpened(r: Run, id: string)
    requires RootOf(r) != "" && Fresh(Final(r), id)
    ensures id != RootOf(r)
  {
    RunIsTrue(r);
  }

  /** Finishing the call leaves its outcome on span `id` below `above`, or, if the
      span has been closed, on the current span. */
  predicate FinishTells(
    s: State, b: Actor, call: string, kind: string, search: bool, id: string, above: string)
    requires b in s.contexts
  {
    var told := if Lookup(s.spans, BySpan(id)).Some? then Told(kind, id, above) else OnCurrent(s.contexts[b], kind);
    Tells(s, AfterFinishTool(s, b, call, kind, search), Outcome(told, search))
  }

  lemma FinishesOnSpan(s: State, b: Actor, call: string, kind: string, search: bool, id: string, root: string)
    requires True(s, root) && b in s.contexts && call != "" && id in s.origin && id != root
    requires SpanOfCall(s.tools, call) == Some(BySpan(id))
    ensures FinishTells(s, b, call, kind, search, id, s.origin[id])
  {
    var handle := Lookup(s.spans, BySpan(id));
    if handle.Some? {
      assert EntryTrue(s.origin, s.spans[EntryIndex(s.spans, BySpan(id))]);
    }
    FinishToolTells(s, b, call, kind, search, handle);
  }

  /** In every run: a tool begun as span `id` and finished by whomever, whatever
      happened in between, leaves exactly the event of its outcome, after a search
      event if it was a search, on span `id` below the span that was current when
      it was begun; if that span has been closed meanwhile, on the current span. */
  lemma FinishedToolIsOnItsSpan(
    before: Run, a: Actor, call: string, id: string, r: Run, b: Actor, kind: string, search: bool)
    requires RootOf(before) != "" && Enabled(Final(before), BeginTool(a, call, id))
    requires CallSpared(Then(before, BeginTool(a, call, id)), r, call) && b in Final(r).contexts
    ensures FinishTells(Final(r), b, call, kind, search, id, Final(before).contexts[a].span)
  {
    BegunCallIsNoted(before, a, call, id);
    CallStaysNoted(Then(before, BeginTool(a, call, id)), r, call);
    RootNotOpened(before, id);
    ContinuesRoot(Then(before, BeginTool(a, call, id)), r);
    OriginForEver(before, BeginTool(a, call, id), r);
    RunIsTrue(r);
    FinishesOnSpan(Final(r), b, call, kind, search, id, RootOf(r));
  }

  lemma BegunCallIsNoted(before: Run, a: Actor, call: string, id: string)
    requires Enabled(Final(before), BeginTool(a, call, id))
    ensures SpanOfCall(Final(Then(before, BeginTool(a, call, id))).tools, call) == Some(BySpan(id))
  {
    NotedCall(Final(before), a, call, id);
  }

  /** A tool that nobody began leaves its events on the current span. */
  lemma UnknownToolIsOnCurrentSpan(s: State, b: Actor, call: string, kind: string, search: bool)
    requires b in s.contexts && ToolEntryFor(s, call) >= |s.tools|
    ensures Tells(s, AfterFinishTool(s, b, call, kind, search),
                  Outcome(OnCurrent(s.contexts[b], kind), search))
  {
    FinishToolTells(s, b, call, kind, search, None);
  }

  // ------------------------------------------------------ every run's journal

  /** The open span an operation's event is about, if there is one. */
  function HandleOf(s: State, op: Op): Option<OpenSpan> {
    match op
    case PhaseOther(_, name, _) => Lookup(s.spans, ByPhase(name))
    case FinishTool(_, call, _, _) =>
      var i := ToolEntryFor(s, call);
      if i < |s.tools| then Lookup(s.spans, s.tools[i].key) else None
    case _ => None
  }

  /** The events of an operation: a begun span is told below the current one, a later
      event on its open span, anything else on the current span. */
  function ToldBy(s: State, op: Op): seq<Told>
    requires Enabled(s, op)
  {
    match op
    case PhaseStart(a, _, id) => [Told("phase", id, s.contexts[a].span)]
    case BeginTool(a, _, id) => [Told("tool.started", id, s.contexts[a].span)]
    case Generation(a, id) => [Told("gen_ai.chat", id, s.contexts[a].span)]
    case PhaseOther(a, _, _) => [OnHandle(s.contexts[a], "phase", HandleOf(s, op))]
    case FinishTool(a, _, kind, search) => Outcome(OnHandle(s.contexts[a], kind, HandleOf(s, op)), search)
    case PlainEmit(a, kind) => [OnCurrent(s.contexts[a], kind)]
    case FinishRun(a, kind) => [OnCurrent(s.contexts[a], kind), OnCurrent(s.contexts[a], "run_summary")]
    case _ => []
  }

  lemma HandleIsTrue(s: State, key: Key, ctx: Context, root: string)
    requires True(s, root) && Rooted(ctx, root) && Lookup(s.spans, key).Some?
    ensures HandleIs(ctx, Lookup(s.spans, key).value)
  {
    assert EntryTrue(s.origin, s.spans[EntryIndex(s.spans, key)]);
  }

  lemma HandlesAreTrue(s: State, op: Op, ctx: Context, root: string)
    requires True(s, root) && Rooted(ctx, root)
    ensures HandleOf(s, op).Some? ==> HandleIs(ctx, HandleOf(s, op).value)
  {
    match op
    case PhaseOther(_, name, _) =>
      if HandleOf(s, op).Some? {
        HandleIsTrue(s, ByPhase(name), ctx, root);
      }
    case FinishTool(_, call, _, _) =>
      if HandleOf(s, op).Some? {
        HandleIsTrue(s, s.tools[ToolEntryFor(s, call)].key, ctx, root);
      }
    case _ =>
  }

  lemma ActTells(s: State, op: Op, root: string)
    requires True(s, root) && Enabled(s, op)
    requires (op.PhaseStart? || op.BeginTool? || op.Generation?) ==> op.id != "" && op.id != root
    ensures Tells(s, Act(s, op), ToldBy(s, op))
  {
    match op
    case PhaseStart(a, name, id) => PhaseStartTells(s, a, name, id);
    case BeginTool(a, call, id) => BeginToolTells(s, a, call, id);
    case Generation(a, id) => GenerationTells(s, a, id);
    case PhaseOther(a, name, ends) =>
      HandlesAreTrue(s, op, s.contexts[a], root);
      PhaseOtherTells(s, a, name, ends);
    case FinishTool(a, call, kind, search) =>
      HandlesAreTrue(s, op, s.contexts[a], root);
      FinishToolTells(s, a, call, kind, search, HandleOf(s, op));
    case PlainEmit(a, kind) => PlainTells(s, a, kind);
    case FinishRun(a, kind) => FinishRunTells(s, a, kind);
    case _ => SilentTells(s, op);
  }

  lemma StepTells(s: State, op: Op, root: string)
    requires True(s, root) && Enabled(s, op)
    requires (op.PhaseStart? || op.BeginTool? || op.Generation?) ==> op.id != "" && op.id != root
    ensures Tells(s, Step(s, op), ToldBy(s, op))
  {
    ActTells(s, op, root);
  }

  /** In every run each operation extends the journal by exactly its events. */
  lemma RunTells(r: Run, op: Op)
    requires RootOf(r) != "" && Enabled(Final(r), op)
    ensures Tells(Final(r), Final(Then(r, op)), ToldBy(Final(r), op))
  {
    RunIsTrue(r);
    if op.PhaseStart? || op.BeginTool? || op.Generation? {
      RootNotOpened(r, op.id);
    }
    StepTells(Final(r), op, RootOf(r));
  }
}

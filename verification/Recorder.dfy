/** The recorder of `app/observability/recorder.py` with the context rules of
    `app/observability/context.py`, for one run on a fresh recorder.

    Each thread of control (an "actor") has its own current context, as with a
    context variable; a new actor starts with a copy of an existing context.
    Random span ids are parameters of the operations, required to be fresh.
    A dictionary is a sequence of entries in insertion order.  Two fields are
    bookkeeping of the model: the contexts that were ever current, and for each
    span the one that was current when it was opened. */
module Recorder {
  import opened Common
  import opened Events
  import opened Text

  // ------------------------------------------------------------------ data

  datatype Context = Context(span: string, parent: string, root: string)

  /** A key of the open-span table: a span id, or a phase/task/attempt name. */
  datatype Key = BySpan(id: string) | ByPhase(name: string)

  datatype OpenSpan = OpenSpan(key: Key, span: string, parent: string)

  datatype SpanEntry = SpanEntry(key: Key, handle: OpenSpan)

  datatype ToolEntry = ToolEntry(call: string, key: Key)

  type Actor = nat

  datatype State = State(
    contexts: map<Actor, Context>, spans: seq<SpanEntry>, tools: seq<ToolEntry>,
    journal: seq<Event>, known: set<Context>, origin: map<string, string>)

  // ----------------------------------------------------- open-span table

  function AtKey(key: Key): SpanEntry -> bool { (e: SpanEntry) => e.key == key }

  function EntryIndex(spans: seq<SpanEntry>, key: Key): (i: nat)
    ensures i <= |spans|
    ensures i < |spans| ==> spans[i].key == key
  {
    FirstIndexIsFirst(spans, AtKey(key));
    FirstIndex(spans, AtKey(key))
  }

  function Lookup(spans: seq<SpanEntry>, key: Key): Option<OpenSpan> {
    var i := EntryIndex(spans, key);
    if i < |spans| then Some(spans[i].handle) else None
  }

  function PutSpan(spans: seq<SpanEntry>, key: Key, handle: OpenSpan): seq<SpanEntry> {
    var i := EntryIndex(spans, key);
    if i < |spans| then spans[i := SpanEntry(key, handle)] else spans + [SpanEntry(key, handle)]
  }

  function PopSpan(spans: seq<SpanEntry>, key: Key): seq<SpanEntry> {
    var i := EntryIndex(spans, key);
    if i < |spans| then RemoveAt(spans, i) else spans
  }

  /** Parent of the first open span with this id, or nothing. */
  function GrandparentOf(spans: seq<SpanEntry>, span: string): string {
    if |spans| == 0 then ""
    else if spans[0].handle.span == span then spans[0].handle.parent
    else GrandparentOf(spans[1..], span)
  }

  // ------------------------------------------------------- primitive steps

  function SetContext(s: State, a: Actor, ctx: Context): State {
    s.(contexts := s.contexts[a := ctx])
  }

  /** `emit`: a given span or parent that is empty falls back to the context;
      events of the root span never have a parent. */
  function Emit(s: State, a: Actor, kind: string, span: string, parent: string): (r: State)
    requires a in s.contexts
    ensures s.journal <= r.journal && r.contexts == s.contexts && r.origin == s.origin
  {
    var ctx := s.contexts[a];
    var resolved := if span != "" then span else ctx.span;
    var above := if resolved == ctx.root then "" else if parent != "" then parent else ctx.parent;
    var n := |s.journal| + 1;
    s.(journal := s.journal + [Event(kind, n, "evt-" + Decimal(n), resolved, above)])
  }

  /** `child(span_id=, parent_span_id=)`: an empty override is ignored. */
  function Child(ctx: Context, span: string, parent: string): Context {
    Context(if span != "" then span else ctx.span, if parent != "" then parent else ctx.parent, ctx.root)
  }

  /** Opens a span below the current one and makes it current. */
  function StartSpan(s: State, a: Actor, id: string): (r: State)
    requires a in s.contexts
    ensures r.journal == s.journal && r.contexts.Keys == s.contexts.Keys
  {
    var ctx := s.contexts[a];
    var begun := s.(spans := PutSpan(s.spans, BySpan(id), OpenSpan(BySpan(id), id, ctx.span)),
                     origin := s.origin[id := ctx.span]);
    SetContext(begun, a, Child(ctx, id, ctx.span))
  }

  /** Closes a span; if it is current, its parent becomes current again. */
  function EndSpan(s: State, a: Actor, key: Key): (r: State)
    requires a in s.contexts
    ensures r.journal == s.journal && r.contexts.Keys == s.contexts.Keys && r.origin == s.origin
  {
    var found := Lookup(s.spans, key);
    if found.None? then s
    else
      var handle := found.value;
      var popped := PopSpan(s.spans, key);
      var rest := if handle.key != key then PopSpan(popped, handle.key) else popped;
      var closed := s.(spans := rest);
      var ctx := s.contexts[a];
      if ctx.span != handle.span then closed
      else SetContext(closed, a, Child(ctx, handle.parent, GrandparentOf(rest, handle.parent)))
  }

  // ------------------------------------------------------------ operations

  /** `start_run` on a fresh recorder, by actor 0. */
  function StartRun(root: string): State {
    var ctx := Context(root, "", root);
    var s := State(map[0 := ctx], [SpanEntry(BySpan(root), OpenSpan(BySpan(root), root, ""))], [], [],
                   {ctx}, map[root := ""]);
    Emit(s, 0, "run.started", "", "")
  }

  datatype Op =
    | PhaseStart(actor: Actor, name: string, id: string)
    | PhaseOther(actor: Actor, name: string, ends: bool)
    | BeginTool(actor: Actor, call: string, id: string)
    | FinishTool(actor: Actor, call: string, kind: string, search: bool)
    | Generation(actor: Actor, id: string)
    | PlainEmit(actor: Actor, kind: string)
    | Open(actor: Actor, id: string)
    | CloseSpan(actor: Actor, key: Key)
    | BindWorker(actor: Actor)
    | Fork(actor: Actor, child: Actor)
    | Restore(actor: Actor, ctx: Context)
    | FinishRun(actor: Actor, kind: string)

  predicate Fresh(s: State, id: string) { id != "" && id !in s.origin }

  /** An actor acts only inside the run; new span ids are fresh; a restored
      context is one that was current before. */
  predicate Enabled(s: State, op: Op) {
    && op.actor in s.contexts
    && match op
       case PhaseStart(_, _, id) => Fresh(s, id)
       case BeginTool(_, call, id) => Fresh(s, id) && call != ""
       case Generation(_, id) => Fresh(s, id)
       case Open(_, id) => Fresh(s, id)
       case Restore(_, ctx) => ctx in s.known
       case _ => true
  }

  function AfterPhaseStart(s: State, a: Actor, name: string, id: string): (r: State)
    requires a in s.contexts
    ensures s.journal <= r.journal && r.contexts.Keys == s.contexts.Keys
  {
    var ctx := s.contexts[a];
    var begun := StartSpan(s, a, id);
    var aliased := begun.(spans := PutSpan(begun.spans, ByPhase(name), OpenSpan(BySpan(id), id, ctx.span)));
    Emit(aliased, a, "phase", id, ctx.span)
  }

  function AfterPhaseOther(s: State, a: Actor, name: string, ends: bool): (r: State)
    requires a in s.contexts
    ensures s.journal <= r.journal && r.contexts.Keys == s.contexts.Keys
  {
    var found := Lookup(s.spans, ByPhase(name));
    var s' := if ends then EndSpan(s, a, ByPhase(name)) else s;
    if found.Some? then Emit(s', a, "phase", found.value.span, found.value.parent)
    else Emit(s', a, "phase", "", "")
  }

  function OfCall(call: string): ToolEntry -> bool { (e: ToolEntry) => e.call == call }

  function ToolIndex(tools: seq<ToolEntry>, call: string): (i: nat)
    ensures i <= |tools|
  {
    FirstIndex(tools, OfCall(call))
  }

  function AfterBeginTool(s: State, a: Actor, call: string, id: string): (r: State)
    requires a in s.contexts
    ensures s.journal <= r.journal && r.contexts.Keys == s.contexts.Keys
  {
    var parent := s.contexts[a].span;
    var begun := StartSpan(s, a, id);
    var i := ToolIndex(begun.tools, call);
    var entry := ToolEntry(call, BySpan(id));
    var noted := begun.(tools := if i < |begun.tools| then begun.tools[i := entry] else begun.tools + [entry]);
    Emit(noted, a, "tool.started", id, parent)
  }

  /** The table entry `finish_tool` takes: the named call, or without a name
      the newest one. */
  function ToolEntryFor(s: State, call: string): nat {
    if call != "" then ToolIndex(s.tools, call)
    else if |s.tools| > 0 then |s.tools| - 1 else 0
  }

  function EmitOn(s: State, a: Actor, kind: string, handle: Option<OpenSpan>): (r: State)
    requires a in s.contexts
    ensures s.journal <= r.journal && r.contexts.Keys == s.contexts.Keys
  {
    if handle.Some? then Emit(s, a, kind, handle.value.span, handle.value.parent) else Emit(s, a, kind, "", "")
  }

  function AfterFinishTool(s: State, a: Actor, call: string, kind: string, search: bool): (r: State)
    requires a in s.contexts
    ensures s.journal <= r.journal && r.contexts.Keys == s.contexts.Keys
  {
    var i := ToolEntryFor(s, call);
    var known := i < |s.tools|;
    var popped := if known then s.(tools := RemoveAt(s.tools, i)) else s;
    var handle := if known then Lookup(s.spans, s.tools[i].key) else None;
    var searched := if search then EmitOn(popped, a, "retrieval.search", handle) else popped;
    var finished := EmitOn(searched, a, kind, handle);
    if known then EndSpan(finished, a, s.tools[i].key) else finished
  }

  function AfterGeneration(s: State, a: Actor, id: string): (r: State)
    requires a in s.contexts
    ensures s.journal <= r.journal && r.contexts.Keys == s.contexts.Keys
  {
    var parent := s.contexts[a].span;
    EndSpan(Emit(StartSpan(s, a, id), a, "gen_ai.chat", id, parent), a, BySpan(id))
  }

  function AfterBindWorker(s: State, a: Actor): State
    requires a in s.contexts
  {
    var ctx := s.contexts[a];
    var above := if ctx.root != "" then ctx.root else ctx.span;
    SetContext(s, a, Child(ctx, above, above))
  }

  /** Two closing events, then the root span is closed and the context gone. */
  function AfterFinishRun(s: State, a: Actor, kind: string): State
    requires a in s.contexts
  {
    var root := s.contexts[a].root;
    var told := Emit(Emit(s, a, kind, "", ""), a, "run_summary", "", "");
    var closed := if root != "" then EndSpan(told, a, BySpan(root)) else told;
    closed.(contexts := closed.contexts - {a})
  }

  function Act(s: State, op: Op): State
    requires Enabled(s, op)
  {
    match op
    case PhaseStart(a, name, id) => AfterPhaseStart(s, a, name, id)
    case PhaseOther(a, name, ends) => AfterPhaseOther(s, a, name, ends)
    case BeginTool(a, call, id) => AfterBeginTool(s, a, call, id)
    case FinishTool(a, call, kind, search) => AfterFinishTool(s, a, call, kind, search)
    case Generation(a, id) => AfterGeneration(s, a, id)
    case PlainEmit(a, kind) => Emit(s, a, kind, "", "")
    case Open(a, id) => StartSpan(s, a, id)
    case CloseSpan(a, key) => EndSpan(s, a, key)
    case BindWorker(a) => AfterBindWorker(s, a)
    case Fork(a, child) => SetContext(s, child, s.contexts[a])
    case Restore(a, ctx) => SetContext(s, a, ctx)
    case FinishRun(a, kind) => AfterFinishRun(s, a, kind)
  }

  /** An operation, after which other actors may take over its context.  What
      is not enabled does not happen. */
  function Step(s: State, op: Op): State {
    if !Enabled(s, op) then s
    else
      var s' := Act(s, op);
      s'.(known := s'.known + s'.contexts.Values)
  }

  // ------------------------------------------------------------------ runs

  /** A run: `start_run` with the id of the root span, then operations. */
  datatype Run = Begin(root: string) | Then(before: Run, op: Op)

  function Final(r: Run): State {
    match r
    case Begin(root) => StartRun(root)
    case Then(before, op) => Step(Final(before), op)
  }

  function RootOf(r: Run): string {
    match r
    case Begin(root) => root
    case Then(before, _) => RootOf(before)
  }

  function Resolved(ctx: Context, span: string): string {
    if span != "" then span else ctx.span
  }

  // ------------------------------------------- what every journal looks like

  /** Event ids do not begin with white space. */
  predicate EventOk(e: Event, n: int) {
    e.number == n && e.spanId != "" && |e.eventId| > 0 && !IsSpace(e.eventId[0])
  }

  /** A journal begins with the start of the run on the root span; its events are
      numbered 1, 2, 3, ... and name a span and an id. */
  predicate IsJournal(journal: seq<Event>, root: string) {
    && |journal| > 0
    && journal[0].kind == "run.started" && journal[0].spanId == root && journal[0].parent == ""
    && forall i :: 0 <= i < |journal| ==> EventOk(journal[i], i + 1)
  }

  predicate SpansNamed(spans: seq<SpanEntry>) {
    forall i :: 0 <= i < |spans| ==> spans[i].handle.span != ""
  }

  /** No span without a name is open or current. */
  predicate Formed(s: State, root: string) {
    && IsJournal(s.journal, root)
    && SpansNamed(s.spans)
    && (forall ctx :: ctx in s.known ==> ctx.span != "")
    && (forall a :: a in s.contexts ==> s.contexts[a].span != "")
  }

  lemma EmitFormed(s: State, a: Actor, kind: string, span: string, parent: string, root: string)
    requires Formed(s, root) && a in s.contexts
    ensures Formed(Emit(s, a, kind, span, parent), root)
  {
    var n := |s.journal|;
    var e := Emit(s, a, kind, span, parent).journal[n];
    assert e.eventId[0] == 'e';
    assert EventOk(e, n + 1);
  }

  lemma PutSpanNamed(spans: seq<SpanEntry>, key: Key, h: OpenSpan)
    requires SpansNamed(spans) && h.span != ""
    ensures SpansNamed(PutSpan(spans, key, h))
  {
  }

  lemma StartSpanFormed(s: State, a: Actor, id: string, root: string)
    requires Formed(s, root) && a in s.contexts && id != ""
    ensures Formed(StartSpan(s, a, id), root)
  {
    PutSpanNamed(s.spans, BySpan(id), OpenSpan(BySpan(id), id, s.contexts[a].span));
  }

  lemma PopSpanNamed(spans: seq<SpanEntry>, key: Key)
    requires SpansNamed(spans)
    ensures SpansNamed(PopSpan(spans, key))
  {
  }

  lemma EndSpanFormed(s: State, a: Actor, key: Key, root: string)
    requires Formed(s, root) && a in s.contexts
    ensures Formed(EndSpan(s, a, key), root)
  {
    var found := Lookup(s.spans, key);
    if found.Some? {
      PopSpanNamed(s.spans, key);
      PopSpanNamed(PopSpan(s.spans, key), found.value.key);
    }
  }

  lemma PhaseStartFormed(s: State, a: Actor, name: string, id: string, root: string)
    requires Formed(s, root) && a in s.contexts && id != ""
    ensures Formed(AfterPhaseStart(s, a, name, id), root)
  {
    var above := s.contexts[a].span;
    var h := OpenSpan(BySpan(id), id, above);
    StartSpanFormed(s, a, id, root);
    var begun := StartSpan(s, a, id);
    PutSpanNamed(begun.spans, ByPhase(name), h);
    EmitFormed(begun.(spans := PutSpan(begun.spans, ByPhase(name), h)), a, "phase", id, above, root);
  }

  lemma EmitOnFormed(s: State, a: Actor, kind: string, handle: Option<OpenSpan>, root: string)
    requires Formed(s, root) && a in s.contexts
    ensures Formed(EmitOn(s, a, kind, handle), root)
  {
    if handle.Some? {
      EmitFormed(s, a, kind, handle.value.span, handle.value.parent, root);
    } else {
      EmitFormed(s, a, kind, "", "", root);
    }
  }

  lemma PhaseOtherFormed(s: State, a: Actor, name: string, ends: bool, root: string)
    requires Formed(s, root) && a in s.contexts
    ensures Formed(AfterPhaseOther(s, a, name, ends), root)
  {
    EndSpanFormed(s, a, ByPhase(name), root);
    EmitOnFormed(if ends then EndSpan(s, a, ByPhase(name)) else s, a, "phase", Lookup(s.spans, ByPhase(name)), root);
  }

  lemma BeginToolFormed(s: State, a: Actor, call: string, id: string, root: string)
    requires Formed(s, root) && a in s.contexts && id != ""
    ensures Formed(AfterBeginTool(s, a, call, id), root)
  {
    StartSpanFormed(s, a, id, root);
    var begun := StartSpan(s, a, id);
    var i, entry := ToolIndex(begun.tools, call), ToolEntry(call, BySpan(id));
    var noted := begun.(tools := if i < |begun.tools| then begun.tools[i := entry] else begun.tools + [entry]);
    EmitFormed(noted, a, "tool.started", id, s.contexts[a].span, root);
  }

  lemma FinishToolFormed(s: State, a: Actor, call: string, kind: string, search: bool, root: string)
    requires Formed(s, root) && a in s.contexts
    ensures Formed(AfterFinishTool(s, a, call, kind, search), root)
  {
    var i := ToolEntryFor(s, call);
    var known := i < |s.tools|;
    var popped := if known then s.(tools := RemoveAt(s.tools, i)) else s;
    var handle := if known then Lookup(s.spans, s.tools[i].key) else None;
    EmitOnFormed(popped, a, "retrieval.search", handle, root);
    var searched := if search then EmitOn(popped, a, "retrieval.search", handle) else popped;
    EmitOnFormed(searched, a, kind, handle, root);
    if known {
      EndSpanFormed(EmitOn(searched, a, kind, handle), a, s.tools[i].key, root);
    }
  }

  lemma GenerationFormed(s: State, a: Actor, id: string, root: string)
    requires Formed(s, root) && a in s.contexts && id != ""
    ensures Formed(AfterGeneration(s, a, id), root)
  {
    var above := s.contexts[a].span;
    StartSpanFormed(s, a, id, root);
    EmitFormed(StartSpan(s, a, id), a, "gen_ai.chat", id, above, root);
    EndSpanFormed(Emit(StartSpan(s, a, id), a, "gen_ai.chat", id, above), a, BySpan(id), root);
  }

  lemma FinishRunFormed(s: State, a: Actor, kind: string, root: string)
    requires Formed(s, root) && a in s.contexts
    ensures Formed(AfterFinishRun(s, a, kind), root)
  {
    EmitFormed(s, a, kind, "", "", root);
    var told := Emit(s, a, kind, "", "");
    EmitFormed(told, a, "run_summary", "", "", root);
    EndSpanFormed(Emit(told, a, "run_summary", "", ""), a, BySpan(s.contexts[a].root), root);
  }

  lemma ActFormed(s: State, op: Op, root: string)
    requires Formed(s, root) && Enabled(s, op)
    ensures Formed(Act(s, op), root)
  {
    match op
    case PhaseStart(a, name, id) => PhaseStartFormed(s, a, name, id, root);
    case PhaseOther(a, name, ends) => PhaseOtherFormed(s, a, name, ends, root);
    case BeginTool(a, call, id) => BeginToolFormed(s, a, call, id, root);
    case FinishTool(a, call, kind, search) => FinishToolFormed(s, a, call, kind, search, root);
    case Generation(a, id) => GenerationFormed(s, a, id, root);
    case PlainEmit(a, kind) => EmitFormed(s, a, kind, "", "", root);
    case Open(a, id) => StartSpanFormed(s, a, id, root);
    case CloseSpan(a, key) => EndSpanFormed(s, a, key, root);
    case FinishRun(a, kind) => FinishRunFormed(s, a, kind, root);
    case _ =>
  }

  lemma StartRunFormed(root: string)
    requires root != ""
    ensures Formed(StartRun(root), root)
  {
    var e := StartRun(root).journal[0];
    assert e.eventId[0] == 'e';
    assert EventOk(e, 1);
  }

  /** Whatever the callers do, the journal of a run is well formed. */
  lemma {:induction false} RunIsFormed(r: Run)
    requires RootOf(r) != ""
    ensures Formed(Final(r), RootOf(r))
  {
    match r
    case Begin(root) => StartRunFormed(root);
    case Then(before, op) =>
      RunIsFormed(before);
      if Enabled(Final(before), op) {
        ActFormed(Final(before), op, RootOf(r));
      }
  }

  // ------------------------------------------------- where a span was opened

  predicate Continues(r0: Run, r: Run) {
    r == r0 || (r.Then? && Continues(r0, r.before))
  }

  lemma {:induction false} ContinuesRoot(r0: Run, r: Run)
    requires Continues(r0, r)
    ensures RootOf(r0) == RootOf(r)
  {
    if r != r0 {
      ContinuesRoot(r0, r.before);
    }
  }

  predicate Opens(op: Op) { op.PhaseStart? || op.BeginTool? || op.Open? || op.Generation? }

  /** Only opening a fresh span notes anything. */
  lemma ActNotes(s: State, op: Op)
    requires Enabled(s, op)
    ensures Act(s, op).origin == if Opens(op) then s.origin[op.id := s.contexts[op.actor].span] else s.origin
  {
  }

  lemma StepKeepsOrigin(s: State, op: Op, id: string)
    requires id in s.origin
    ensures id in Step(s, op).origin && Step(s, op).origin[id] == s.origin[id]
  {
    if Enabled(s, op) {
      ActNotes(s, op);
    }
  }

  /** The span that was current when a span was opened is noted for good. */
  lemma {:induction false} OriginForEver(before: Run, op: Op, r: Run)
    requires Continues(Then(before, op), r) && Enabled(Final(before), op) && Opens(op)
    ensures op.id in Final(r).origin && Final(r).origin[op.id] == Final(before).contexts[op.actor].span
  {
    if r == Then(before, op) {
      ActNotes(Final(before), op);
    } else {
      OriginForEver(before, op, r.before);
      StepKeepsOrigin(Final(r.before), r.op, op.id);
    }
  }
}

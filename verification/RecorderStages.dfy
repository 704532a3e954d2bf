/** Two ways to use a span opened by a bare `start_span`: a worker announces it at
    once; the synthesis stage records generations on it and may never announce
    it, whatever other actors do meanwhile. */
module RecorderStages {
  import opened Common
  import opened Events
  import opened SpanTree
  import opened Recorder
  import opened RecorderTree

  // ------------------------------------------- two ways to use a bare span

  /** A worker's way: the span is announced by the event that follows, and then
      nothing is out of bounds for the worker. */
  lemma AnnouncedSpanIsFree(r: Run, a: Actor, id: string, kind: string, op: Op)
    requires RootOf(r) != "" && Guarded(r) && Enabled(Final(r), Open(a, id)) && Guard(Final(r), Open(a, id))
    requires !Omitted(kind) && op.actor == a
    ensures var r' := Then(Then(r, Open(a, id)), PlainEmit(a, kind));
            && Guarded(r') && id in Shown(Final(r').journal)
            && a in Final(r').contexts && Final(r').contexts[a].span == id && Guard(Final(r'), op)
  {
    RunKeepsInv(r);
    var s := Final(r);
    StepOk(s, Open(a, id), RootOf(r));
    var begun := Step(s, Open(a, id));
    assert Final(Then(r, Open(a, id))) == begun;
    PlainEmitOk(begun, a, kind, RootOf(r));
  }

  // --------------------------------------------- an open span is left alone

  /** Span `id` is open, and every entry for it says that it was opened in `above`. */
  predicate Holds(spans: seq<SpanEntry>, id: string, above: string) {
    && Lookup(spans, BySpan(id)) == Some(OpenSpan(BySpan(id), id, above))
    && forall i :: 0 <= i < |spans| && spans[i].handle.span == id ==> spans[i].handle.parent == above
  }

  lemma {:induction false} GrandparentIs(spans: seq<SpanEntry>, id: string, above: string, k: nat)
    requires k < |spans| && spans[k].handle.span == id
    requires forall i :: 0 <= i < |spans| && spans[i].handle.span == id ==> spans[i].handle.parent == above
    ensures GrandparentOf(spans, id) == above
  {
    if spans[0].handle.span != id {
      GrandparentIs(spans[1..], id, above, k - 1);
    }
  }

  lemma HeldGrandparent(spans: seq<SpanEntry>, id: string, above: string)
    requires Holds(spans, id, above)
    ensures GrandparentOf(spans, id) == above
  {
    GrandparentIs(spans, id, above, EntryIndex(spans, BySpan(id)));
  }

  /** The specification determines the position. */
  lemma EntryIndexIs(spans: seq<SpanEntry>, key: Key, i: nat)
    requires i <= |spans| && (i < |spans| ==> spans[i].key == key)
    requires forall j :: 0 <= j < i ==> spans[j].key != key
    ensures EntryIndex(spans, key) == i
  {
    FirstIndexIsFirst(spans, AtKey(key));
  }

  lemma EntryIndexFirst(spans: seq<SpanEntry>, key: Key)
    ensures forall j :: 0 <= j < EntryIndex(spans, key) ==> spans[j].key != key
  {
    FirstIndexIsFirst(spans, AtKey(key));
  }

  lemma LookupPutOther(spans: seq<SpanEntry>, key: Key, h: OpenSpan, other: Key)
    requires key != other && Lookup(spans, other).Some?
    ensures Lookup(PutSpan(spans, key, h), other) == Lookup(spans, other)
  {
    EntryIndexFirst(spans, other);
    EntryIndexIs(PutSpan(spans, key, h), other, EntryIndex(spans, other));
  }

  lemma LookupPopOther(spans: seq<SpanEntry>, key: Key, other: Key)
    requires key != other && Lookup(spans, other).Some?
    ensures Lookup(PopSpan(spans, key), other) == Lookup(spans, other)
  {
    var i, k := EntryIndex(spans, key), EntryIndex(spans, other);
    EntryIndexFirst(spans, other);
    if i < |spans| {
      EntryIndexIs(PopSpan(spans, key), other, if i < k then k - 1 else k);
    }
  }

  lemma PutHolds(spans: seq<SpanEntry>, key: Key, h: OpenSpan, id: string, above: string)
    requires Holds(spans, id, above) && key != BySpan(id) && h.span != id
    ensures Holds(PutSpan(spans, key, h), id, above)
  {
    LookupPutOther(spans, key, h, BySpan(id));
  }

  lemma PopHolds(spans: seq<SpanEntry>, key: Key, id: string, above: string)
    requires Holds(spans, id, above) && key != BySpan(id)
    ensures Holds(PopSpan(spans, key), id, above)
  {
    LookupPopOther(spans, key, BySpan(id));
  }

  predicate SparesKey(s: State, key: Key, id: string) {
    var found := Lookup(s.spans, key);
    found.Some? ==> found.value.span != id
  }

  lemma EndSpanHolds(s: State, b: Actor, key: Key, id: string, above: string, root: string)
    requires Inv(s, root) && b in s.contexts && Holds(s.spans, id, above) && SparesKey(s, key, id)
    ensures Holds(EndSpan(s, b, key).spans, id, above)
  {
    var found := Lookup(s.spans, key);
    if found.Some? {
      assert EntryOk(Shown(s.journal), s.origin, s.spans[EntryIndex(s.spans, key)]);
      PopHolds(s.spans, key, id, above);
      PopHolds(PopSpan(s.spans, key), found.value.key, id, above);
    }
  }

  lemma StartSpanHolds(s: State, b: Actor, other: string, id: string, above: string)
    requires b in s.contexts && Holds(s.spans, id, above) && other != id
    ensures Holds(StartSpan(s, b, other).spans, id, above)
  {
    PutHolds(s.spans, BySpan(other), OpenSpan(BySpan(other), other, s.contexts[b].span), id, above);
  }

  /** What another actor does not do to the span `id` actor `a` is on: close it,
      or take over the actor's context. */
  predicate Spares(s: State, op: Op, a: Actor, id: string)
    requires op.actor in s.contexts
  {
    && op.actor != a
    && match op
       case CloseSpan(_, key) => SparesKey(s, key, id)
       case PhaseOther(_, name, _) => SparesKey(s, ByPhase(name), id)
       case FinishTool(_, call, _, _) =>
         ToolEntryFor(s, call) < |s.tools| ==> SparesKey(s, s.tools[ToolEntryFor(s, call)].key, id)
       case FinishRun(b, _) => SparesKey(s, BySpan(s.contexts[b].root), id)
       case Fork(_, child) => child != a
       case _ => true
  }

  lemma EndSpanElsewhere(s: State, b: Actor, key: Key, a: Actor)
    requires b in s.contexts && a in s.contexts && a != b
    ensures EndSpan(s, b, key).contexts[a] == s.contexts[a]
  {
  }

  lemma FinishToolElsewhere(s: State, b: Actor, call: string, kind: string, search: bool, a: Actor)
    requires b in s.contexts && a in s.contexts && a != b
    ensures AfterFinishTool(s, b, call, kind, search).contexts[a] == s.contexts[a]
  {
    var i := ToolEntryFor(s, call);
    if i < |s.tools| {
      var popped, handle := s.(tools := RemoveAt(s.tools, i)), Lookup(s.spans, s.tools[i].key);
      var searched := if search then EmitOn(popped, b, "retrieval.search", handle) else popped;
      EndSpanElsewhere(EmitOn(searched, b, kind, handle), b, s.tools[i].key, a);
    }
  }

  lemma GenerationElsewhere(s: State, b: Actor, other: string, a: Actor)
    requires b in s.contexts && a in s.contexts && a != b
    ensures AfterGeneration(s, b, other).contexts[a] == s.contexts[a]
  {
    var told := Emit(StartSpan(s, b, other), b, "gen_ai.chat", other, s.contexts[b].span);
    EndSpanElsewhere(told, b, BySpan(other), a);
  }

  lemma FinishRunElsewhere(s: State, b: Actor, kind: string, a: Actor)
    requires b in s.contexts && a in s.contexts && a != b
    ensures a in AfterFinishRun(s, b, kind).contexts && AfterFinishRun(s, b, kind).contexts[a] == s.contexts[a]
  {
    var told := Emit(Emit(s, b, kind, "", ""), b, "run_summary", "", "");
    EndSpanElsewhere(told, b, BySpan(s.contexts[b].root), a);
  }

  lemma SparingKeepsContext(s: State, op: Op, a: Actor, id: string)
    requires Enabled(s, op) && Spares(s, op, a, id) && a in s.contexts
    ensures a in Step(s, op).contexts && Step(s, op).contexts[a] == s.contexts[a]
  {
    match op
    case FinishTool(b, call, kind, search) => FinishToolElsewhere(s, b, call, kind, search, a);
    case Generation(b, other) => GenerationElsewhere(s, b, other, a);
    case FinishRun(b, kind) => FinishRunElsewhere(s, b, kind, a);
    case PhaseOther(b, name, _) => EndSpanElsewhere(s, b, ByPhase(name), a);
    case CloseSpan(b, key) => EndSpanElsewhere(s, b, key, a);
    case _ =>
  }

  lemma OpeningHolds(s: State, op: Op, id: string, above: string, root: string)
    requires Inv(s, root) && Enabled(s, op) && Opens(op) && Holds(s.spans, id, above) && id in s.origin
    ensures Holds(Step(s, op).spans, id, above)
  {
    var b := op.actor;
    StartSpanHolds(s, b, op.id, id, above);
    match op
    case PhaseStart(_, name, other) =>
      var h := OpenSpan(BySpan(other), other, s.contexts[b].span);
      PutHolds(StartSpan(s, b, other).spans, ByPhase(name), h, id, above);
    case Generation(_, other) => GenerationIs(s, b, other, root);
    case _ =>
  }

  lemma FinishToolHolds(
    s: State, b: Actor, call: string, kind: string, search: bool, id: string, above: string, root: string)
    requires Inv(s, root) && b in s.contexts && Holds(s.spans, id, above)
    requires ToolEntryFor(s, call) < |s.tools| ==> SparesKey(s, s.tools[ToolEntryFor(s, call)].key, id)
    ensures Holds(AfterFinishTool(s, b, call, kind, search).spans, id, above)
  {
    FinishToolSpans(s, b, call, kind, search);
    if ToolEntryFor(s, call) < |s.tools| {
      EndSpanHolds(s, b, s.tools[ToolEntryFor(s, call)].key, id, above, root);
    }
  }

  /** The span table after a tool is that after closing its span. */
  lemma FinishToolSpans(s: State, b: Actor, call: string, kind: string, search: bool)
    requires b in s.contexts
    ensures var i := ToolEntryFor(s, call);
            AfterFinishTool(s, b, call, kind, search).spans
            == if i < |s.tools| then EndSpan(s, b, s.tools[i].key).spans else s.spans
  {
  }

  lemma SparingHolds(s: State, op: Op, a: Actor, id: string, above: string, root: string)
    requires Inv(s, root) && Enabled(s, op) && Spares(s, op, a, id) && Holds(s.spans, id, above) && id in s.origin
    ensures Holds(Step(s, op).spans, id, above)
  {
    if Opens(op) {
      OpeningHolds(s, op, id, above, root);
    } else {
      match op
      case CloseSpan(b, key) => EndSpanHolds(s, b, key, id, above, root);
      case PhaseOther(b, name, _) => EndSpanHolds(s, b, ByPhase(name), id, above, root);
      case FinishTool(b, call, kind, search) => FinishToolHolds(s, b, call, kind, search, id, above, root);
      case FinishRun(b, kind) => FinishRunHolds(s, b, kind, id, above, root);
      case _ =>
    }
  }

  lemma FinishRunHolds(s: State, b: Actor, kind: string, id: string, above: string, root: string)
    requires Inv(s, root) && b in s.contexts && Holds(s.spans, id, above)
    requires SparesKey(s, BySpan(s.contexts[b].root), id)
    ensures Holds(AfterFinishRun(s, b, kind).spans, id, above)
  {
    EndSpanHolds(s, b, BySpan(s.contexts[b].root), id, above, root);
  }

  lemma ShownGrows(s: State, op: Op)
    ensures Shown(s.journal) <= Shown(Step(s, op).journal)
  {
    StepAppends(s, op);
    var longer := Step(s, op).journal;
    assert longer == s.journal + longer[|s.journal|..];
    forall id | id in Shown(s.journal)
      ensures id in Shown(longer)
    {
      LaterEventsKeepParents(s.journal, longer[|s.journal|..], id);
    }
  }

  lemma StepAppends(s: State, op: Op)
    ensures s.journal <= Step(s, op).journal
  {
  }

  // -------------------------------------------------- an unannounced stage

  /** Actor `a` is on the open span `id`, opened in the shown span `above`. */
  predicate OnStage(s: State, a: Actor, id: string, above: string, root: string) {
    && a in s.contexts && s.contexts[a] == Context(id, above, root)
    && above in Shown(s.journal) && id in s.origin && Holds(s.spans, id, above)
  }

  lemma EnterStage(s: State, a: Actor, id: string, root: string)
    requires Inv(s, root) && Enabled(s, Open(a, id)) && Guard(s, Open(a, id))
    ensures OnStage(Step(s, Open(a, id)), a, id, s.contexts[a].span, root)
  {
    var above, shown := s.contexts[a].span, Shown(s.journal);
    PutPop(shown, s.origin, s.spans, id, OpenSpan(BySpan(id), id, above));
    forall i | 0 <= i < |s.spans|
      ensures s.spans[i].handle.span != id
    {
      assert EntryOk(shown, s.origin, s.spans[i]);
    }
    CurrentIsNamed(s, a, root);
  }

  /** What the actor itself does on its stage. */
  predicate StageOp(a: Actor, op: Op) { op.actor == a && (op.Generation? || op.PlainEmit?) }

  lemma OwnStep(s: State, a: Actor, op: Op, id: string, above: string, root: string)
    requires Inv(s, root) && OnStage(s, a, id, above, root) && StageOp(a, op)
    ensures Guard(s, op) && OnStage(Step(s, op), a, id, above, root)
  {
    ShownGrows(s, op);
    HeldGrandparent(s.spans, id, above);
    GatherOk(s.journal);
    match op
    case Generation(_, g) =>
      if Fresh(s, g) {
        GenerationIs(s, a, g, root);
      }
    case PlainEmit(_, kind) =>
  }

  lemma SparingStep(s: State, a: Actor, op: Op, id: string, above: string, root: string)
    requires Inv(s, root) && OnStage(s, a, id, above, root) && Enabled(s, op) && Spares(s, op, a, id)
    ensures OnStage(Step(s, op), a, id, above, root)
  {
    ShownGrows(s, op);
    SparingKeepsContext(s, op, a, id);
    SparingHolds(s, op, a, id, above, root);
    StepKeepsOrigin(s, op, id);
  }

  /** From `r0` to `r` the actor records generations and plain events only, and
      the others keep to the discipline and leave its span alone. */
  predicate StageRun(r0: Run, r: Run, a: Actor, id: string) {
    || r == r0
    || (r.Then? && StageRun(r0, r.before, a, id)
        && (StageOp(a, r.op)
            || (Enabled(Final(r.before), r.op) ==>
                  Spares(Final(r.before), r.op, a, id) && Guard(Final(r.before), r.op))))
  }

  lemma {:induction false} StageIsGuarded(r0: Run, r: Run, a: Actor, id: string, above: string)
    requires RootOf(r0) != "" && Guarded(r0) && OnStage(Final(r0), a, id, above, RootOf(r0))
    requires StageRun(r0, r, a, id)
    ensures RootOf(r) == RootOf(r0) && Guarded(r) && OnStage(Final(r), a, id, above, RootOf(r0))
  {
    if r != r0 {
      StageIsGuarded(r0, r.before, a, id, above);
      RunKeepsInv(r.before);
      StageStep(Final(r.before), a, r.op, id, above, RootOf(r0));
    }
  }

  lemma StageStep(s: State, a: Actor, op: Op, id: string, above: string, root: string)
    requires Inv(s, root) && OnStage(s, a, id, above, root)
    requires StageOp(a, op) || (Enabled(s, op) ==> Spares(s, op, a, id) && Guard(s, op))
    ensures Enabled(s, op) ==> Guard(s, op)
    ensures OnStage(Step(s, op), a, id, above, root)
  {
    if StageOp(a, op) {
      OwnStep(s, a, op, id, above, root);
    } else if Enabled(s, op) {
      SparingStep(s, a, op, id, above, root);
    }
  }

  /** The synthesis stage's way: between opening a span and closing it the actor
      records generations and plain events only, while the others leave that span
      alone.  Announced or not, the run stays guarded, and the actor ends up where
      it was. */
  lemma UnannouncedStageIsGuarded(r0: Run, r: Run, a: Actor, id: string)
    requires RootOf(r0) != "" && Guarded(r0) && Enabled(Final(r0), Open(a, id)) && Guard(Final(r0), Open(a, id))
    requires StageRun(Then(r0, Open(a, id)), r, a, id)
    ensures var r' := Then(r, CloseSpan(a, BySpan(id)));
            && Guarded(r') && a in Final(r').contexts
            && Final(r').contexts[a].span == Final(r0).contexts[a].span
  {
    RunKeepsInv(r0);
    EnterStage(Final(r0), a, id, RootOf(r0));
    var begun, above := Then(r0, Open(a, id)), Final(r0).contexts[a].span;
    assert Final(begun) == Step(Final(r0), Open(a, id)) && RootOf(begun) == RootOf(r0);
    StageIsGuarded(begun, r, a, id, above);
    StageIsLeft(r, a, id, above, RootOf(r0));
  }

  lemma StageIsLeft(r: Run, a: Actor, id: string, above: string, root: string)
    requires Guarded(r) && OnStage(Final(r), a, id, above, root)
    ensures var r' := Then(r, CloseSpan(a, BySpan(id)));
            Guarded(r') && a in Final(r').contexts && Final(r').contexts[a].span == above
  {
    LeaveStage(Final(r), a, id, above, root);
  }

  lemma LeaveStage(s: State, a: Actor, id: string, above: string, root: string)
    requires OnStage(s, a, id, above, root)
    ensures var s' := Step(s, CloseSpan(a, BySpan(id)));
            a in s'.contexts && s'.contexts[a].span == above
  {
    GatherOk(s.journal);
  }
}

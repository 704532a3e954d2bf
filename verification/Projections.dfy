/** Cached trace projections of one run (`load_summary_projection`,
    `load_lineage_projection`, `load_tree_projection` and the projection table):
    loaders interleave with appends step by step, and still every loader returns
    what recomputing over the events it loaded would give. */
module Projections {
  import opened Common
  import opened Events
  import opened Text
  import opened SpanTree

  datatype Kind = Summary | Lineage | TreeShape

  const SUMMARY_VERSION: string := "trace-summary-v2"

  /** A stored projection: its body, the number of events it covers, the marker
      of the summary contract, and the span count of a tree. */
  datatype Payload<B> = Payload(body: B, count: nat, version: string, spanCount: nat)

  datatype Cached<B> = Cached(maxSeq: nat, payload: Payload<B>)

  /** The projection functions; their bodies are not part of this model. */
  type Compute<!B> = (Kind, seq<Event>) -> B

  function Fresh<B>(f: Compute<B>, kind: Kind, records: seq<Event>): Payload<B> {
    Payload(f(kind, records), |records|,
            if kind.Summary? then SUMMARY_VERSION else "",
            if kind.TreeShape? then |Gather(records).order| else 0)
  }

  /** When a loader trusts a stored projection. */
  predicate Accepts<B>(kind: Kind, payload: Payload<B>, records: seq<Event>) {
    && payload.count == |records|
    && (kind.Summary? ==> payload.version == SUMMARY_VERSION)
    && (kind.TreeShape? ==> payload.spanCount == |ExpectedIds(records)|)
  }

  function MaxSeq(log: seq<Event>): nat {
    if |log| == 0 then 0
    else Max(MaxSeq(log[..|log| - 1]), log[|log| - 1].number)
  }

  /** The largest number, or zero. */
  lemma {:induction false} MaxSeqIs(log: seq<Event>)
    ensures forall e :: e in log ==> e.number <= MaxSeq(log)
    ensures MaxSeq(log) == 0 || exists e :: e in log && e.number == MaxSeq(log)
  {
    if |log| > 0 {
      var rest, last := log[..|log| - 1], log[|log| - 1];
      MaxSeqIs(rest);
      assert log == rest + [last];
      assert last in log;
      if MaxSeq(log) != 0 && MaxSeq(log) != last.number {
        var e :| e in rest && e.number == MaxSeq(rest);
        assert e in log;
      }
    }
  }

  // ---------------------------------------------------------- the protocol

  /** Where a loader is between its calls into the store. */
  datatype Loader<B> =
    | Loaded(kind: Kind, records: seq<Event>)
    | SawMax(kind: Kind, records: seq<Event>, maxSeq: nat)
    | Looked(kind: Kind, records: seq<Event>, found: Option<Payload<B>>)
    | Done(kind: Kind, records: seq<Event>, answer: Payload<B>)

  datatype State<B> = State(log: seq<Event>, table: map<Kind, Cached<B>>, loaders: map<nat, Loader<B>>)

  datatype Step =
    | Append(event: Event)
    | Load(loader: nat, kind: Kind)
    | ReadMax(loader: nat)
    | ReadRow(loader: nat)
    | Finish(loader: nat)

  predicate Enabled<B>(s: State<B>, step: Step) {
    match step
    case Append(_) => true
    case Load(c, _) => c !in s.loaders
    case ReadMax(c) => c in s.loaders && s.loaders[c].Loaded?
    case ReadRow(c) => c in s.loaders && s.loaders[c].SawMax?
    case Finish(c) => c in s.loaders && s.loaders[c].Looked?
  }

  function Trusted<B>(loader: Loader<B>): bool
    requires loader.Looked?
  {
    loader.found.Some? && Accepts(loader.kind, loader.found.value, loader.records)
  }

  function Next<B>(f: Compute<B>, s: State<B>, step: Step): State<B> {
    if !Enabled(s, step) then s
    else
      match step
      case Append(e) => s.(log := s.log + [e], table := map[])
      case Load(c, kind) => s.(loaders := s.loaders[c := Loaded(kind, s.log)])
      case ReadMax(c) =>
        var l := s.loaders[c];
        s.(loaders := s.loaders[c := SawMax(l.kind, l.records, MaxSeq(s.log))])
      case ReadRow(c) =>
        var l := s.loaders[c];
        var found := if l.kind in s.table && s.table[l.kind].maxSeq == l.maxSeq
                     then Some(s.table[l.kind].payload) else None;
        s.(loaders := s.loaders[c := Looked(l.kind, l.records, found)])
      case Finish(c) =>
        var l := s.loaders[c];
        if Trusted(l) then s.(loaders := s.loaders[c := Done(l.kind, l.records, l.found.value)])
        else
          var payload := Fresh(f, l.kind, l.records);
          s.(table := s.table[l.kind := Cached(MaxSeq(s.log), payload)],
             loaders := s.loaders[c := Done(l.kind, l.records, payload)])
  }

  datatype Run = Begin(log: seq<Event>) | Then(before: Run, step: Step)

  function Final<B>(f: Compute<B>, r: Run): State<B> {
    match r
    case Begin(log) => State(log, map[], map[])
    case Then(before, step) => Next(f, Final(f, before), step)
  }

  // ------------------------------------------------------------- invariant

  /** A payload computed over some prefix of the log. */
  ghost predicate Honest<B>(f: Compute<B>, log: seq<Event>, kind: Kind, payload: Payload<B>) {
    payload.count <= |log| && payload == Fresh(f, kind, log[..payload.count])
  }

  ghost predicate LoaderOk<B>(f: Compute<B>, log: seq<Event>, loader: Loader<B>) {
    && loader.records <= log
    && (loader.Looked? && loader.found.Some? ==> Honest(f, log, loader.kind, loader.found.value))
    && (loader.Done? ==> loader.answer == Fresh(f, loader.kind, loader.records))
  }

  ghost predicate Inv<B>(f: Compute<B>, s: State<B>) {
    && (forall kind :: kind in s.table ==> Honest(f, s.log, kind, s.table[kind].payload))
    && (forall c :: c in s.loaders ==> LoaderOk(f, s.log, s.loaders[c]))
  }

  lemma LongerLog<B>(f: Compute<B>, log: seq<Event>, e: Event, loader: Loader<B>)
    requires LoaderOk(f, log, loader)
    ensures LoaderOk(f, log + [e], loader)
  {
    if loader.Looked? && loader.found.Some? {
      var n := loader.found.value.count;
      assert (log + [e])[..n] == log[..n];
    }
  }

  /** The event count decides: prefixes of equal length are equal. */
  lemma TrustedIsFresh<B>(f: Compute<B>, log: seq<Event>, loader: Loader<B>)
    requires LoaderOk(f, log, loader) && loader.Looked? && Trusted(loader)
    ensures loader.found.value == Fresh(f, loader.kind, loader.records)
  {
    assert log[..|loader.records|] == loader.records;
  }

  lemma StepKeepsInv<B>(f: Compute<B>, s: State<B>, step: Step)
    requires Inv(f, s)
    ensures Inv(f, Next(f, s, step))
  {
    if Enabled(s, step) {
      match step
      case Append(e) =>
        forall c | c in s.loaders
          ensures LoaderOk(f, s.log + [e], s.loaders[c])
        {
          LongerLog(f, s.log, e, s.loaders[c]);
        }
      case Finish(c) =>
        var l := s.loaders[c];
        assert LoaderOk(f, s.log, l);
        if Trusted(l) {
          TrustedIsFresh(f, s.log, l);
        } else {
          assert s.log[..|l.records|] == l.records;
        }
      case _ =>
    }
  }

  lemma {:induction false} RunKeepsInv<B>(f: Compute<B>, r: Run)
    ensures Inv(f, Final(f, r))
  {
    if r.Then? {
      RunKeepsInv(f, r.before);
      StepKeepsInv(f, Final(f, r.before), r.step);
    }
  }

  /** In every interleaving a finished loader answers exactly what recomputing
      over the events it loaded gives. */
  lemma ProjectionAgreesWithRecomputation<B>(f: Compute<B>, r: Run, c: nat)
    requires c in Final(f, r).loaders && Final(f, r).loaders[c].Done?
    ensures var l := Final(f, r).loaders[c]; l.answer == Fresh(f, l.kind, l.records)
  {
    RunKeepsInv(f, r);
  }

  /** The recorded maximum alone would not do: an event appended between load
      and put leaves a row whose maximum is current and whose body is not. */
  lemma MaximumAloneIsNotEnough<B>(f: Compute<B>, log: seq<Event>, e: Event, kind: Kind)
    ensures var loading := Then(Then(Then(Begin(log), Load(0, kind)), ReadMax(0)), ReadRow(0));
            var s := Final(f, Then(Then(loading, Append(e)), Finish(0)));
            && s.log == log + [e] && kind in s.table
            && s.table[kind].maxSeq == MaxSeq(s.log)
            && s.table[kind].payload == Fresh(f, kind, log)
            && s.table[kind].payload != Fresh(f, kind, s.log)
  {
    var r1 := Then(Begin(log), Load(0, kind));
    var s1: State<B> := State(log, map[], map[0 := Loaded(kind, log)]);
    assert Final(f, r1) == s1;
    var r2 := Then(r1, ReadMax(0));
    var s2: State<B> := State(log, map[], map[0 := SawMax(kind, log, MaxSeq(log))]);
    assert Final(f, r2) == s2;
    var r3 := Then(r2, ReadRow(0));
    var s3: State<B> := State(log, map[], map[0 := Looked(kind, log, None)]);
    assert Final(f, r3) == s3;
    var r4 := Then(r3, Append(e));
    assert Final(f, r4) == s3.(log := log + [e]);
  }

  /** A stored tree is found again: if every kept event names a span, a fresh
      tree over the same events passes the span-count test. */
  lemma FreshProjectionIsAccepted<B>(f: Compute<B>, kind: Kind, records: seq<Event>)
    requires kind.TreeShape? ==> AllNamed(records)
    ensures Accepts(kind, Fresh(f, kind, records), records)
  {
    if kind.TreeShape? {
      ExpectedCountIsSpanCount(records);
    }
  }

  // ---------------------------------------------------- what the table saves

  /** The table holds a projection that a loader of the current events trusts. */
  predicate Stored<B>(s: State<B>, kind: Kind) {
    && kind in s.table && s.table[kind].maxSeq == MaxSeq(s.log)
    && Accepts(kind, s.table[kind].payload, s.log)
  }

  /** One loader from start to end, with nothing in between. */
  function LoadWhole<B>(f: Compute<B>, s: State<B>, c: nat, kind: Kind): State<B> {
    Next(f, Next(f, Next(f, Next(f, s, Load(c, kind)), ReadMax(c)), ReadRow(c)), Finish(c))
  }

  function AnswerOf<B>(s: State<B>, c: nat): Option<Payload<B>> {
    if c in s.loaders && s.loaders[c].Done? then Some(s.loaders[c].answer) else None
  }

  /** A stored projection is served as it stands and nothing is computed. */
  lemma StoredIsServed<B>(f: Compute<B>, s: State<B>, c: nat, kind: Kind)
    requires Stored(s, kind) && c !in s.loaders
    ensures var after := LoadWhole(f, s, c, kind);
            && AnswerOf(after, c) == Some(s.table[kind].payload)
            && after.table == s.table && after.log == s.log
  {
    LoadedWhole(f, s, c, kind);
  }

  /** What the four steps come to. */
  lemma LoadedWhole<B>(f: Compute<B>, s: State<B>, c: nat, kind: Kind)
    requires c !in s.loaders
    ensures var after := LoadWhole(f, s, c, kind);
            && after.log == s.log
            && (Stored(s, kind) ==> after.table == s.table && AnswerOf(after, c) == Some(s.table[kind].payload))
            && (!Stored(s, kind) ==> after.table == s.table[kind := Cached(MaxSeq(s.log), Fresh(f, kind, s.log))]
                                     && AnswerOf(after, c) == Some(Fresh(f, kind, s.log)))
            && after.loaders.Keys == s.loaders.Keys + {c}
  {
    var s3 := LookedUp(f, s, c, kind);
    assert LoadWhole(f, s, c, kind) == Next(f, s3, Finish(c));
  }

  lemma LookedUp<B>(f: Compute<B>, s: State<B>, c: nat, kind: Kind) returns (looked: State<B>)
    requires c !in s.loaders
    ensures looked == Next(f, Next(f, Next(f, s, Load(c, kind)), ReadMax(c)), ReadRow(c))
    ensures looked.log == s.log && looked.table == s.table && looked.loaders.Keys == s.loaders.Keys + {c}
    ensures var found := if kind in s.table && s.table[kind].maxSeq == MaxSeq(s.log)
                         then Some(s.table[kind].payload) else None;
            looked.loaders[c] == Looked(kind, s.log, found)
  {
    var s1 := s.(loaders := s.loaders[c := Loaded(kind, s.log)]);
    assert Next(f, s, Load(c, kind)) == s1;
    var s2 := s1.(loaders := s1.loaders[c := SawMax(kind, s.log, MaxSeq(s.log))]);
    assert Next(f, s1, ReadMax(c)) == s2;
    looked := Next(f, s2, ReadRow(c));
  }

  /** A second loader of the same kind is served what the first one computed or
      found, unless an event was appended or the table replaced in between. */
  lemma SecondLoadIsServed<B>(f: Compute<B>, s: State<B>, c: nat, d: nat, kind: Kind)
    requires c !in s.loaders && d !in s.loaders && c != d && (kind.TreeShape? ==> AllNamed(s.log))
    ensures var once := LoadWhole(f, s, c, kind);
            var twice := LoadWhole(f, once, d, kind);
            Stored(once, kind) && AnswerOf(twice, d) == AnswerOf(once, c) && twice.table == once.table
  {
    LoadedWhole(f, s, c, kind);
    FreshProjectionIsAccepted(f, kind, s.log);
    var once := LoadWhole(f, s, c, kind);
    LoadedWhole(f, once, d, kind);
  }

  /** A stored projection stays stored under every step but an append, and the end
      of a loader of that kind that missed an append and stores its own. */
  lemma StaysStoredIff<B>(f: Compute<B>, s: State<B>, step: Step, kind: Kind)
    requires Inv(f, s) && Stored(s, kind) && (kind.TreeShape? ==> AllNamed(s.log)) && Enabled(s, step)
    ensures Stored(Next(f, s, step), kind)
       <==> !step.Append? && !(step.Finish? && Overwrites(s, s.loaders[step.loader], kind))
  {
    if step.Finish? {
      FinishKeepsStoredIff(f, s, step.loader, kind);
    }
  }

  lemma FinishKeepsStoredIff<B>(f: Compute<B>, s: State<B>, c: nat, kind: Kind)
    requires Inv(f, s) && Stored(s, kind) && (kind.TreeShape? ==> AllNamed(s.log)) && Enabled(s, Finish(c))
    ensures Stored(Next(f, s, Finish(c)), kind) <==> !Overwrites(s, s.loaders[c], kind)
  {
    var l := s.loaders[c];
    assert LoaderOk(f, s.log, l);
    if l.kind == kind && !Trusted(l) && |l.records| == |s.log| {
      assert l.records == s.log;
      FreshProjectionIsAccepted(f, kind, s.log);
    }
  }

  predicate Overwrites<B>(s: State<B>, loader: Loader<B>, kind: Kind) {
    && loader.Looked? && loader.kind == kind && !Trusted(loader)
    && |loader.records| < |s.log|
  }
}

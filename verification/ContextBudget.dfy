/** Fitting the layers of a step message into a token budget
    (`app/agent/harness/context_budget.py`), for any token counter.  A
    dictionary of layers is a sequence in insertion order. */
module ContextBudget {
  import opened Common
  import opened Text

  datatype Layer = Layer(name: string, text: string)

  type Layers = seq<Layer>

  type Counter = string -> nat

  const SHRINK_ORDER: seq<string> :=
    ["tools", "resources", "path", "prior_results", "memory", "evidence", "task_query"]

  const PINNED_ORDER: seq<string> := ["recovery", "extra", "worker_json", "binding", "intent", "notes"]

  const JOIN_ORDER: seq<string> :=
    ["brief", "step", "binding", "worker_json", "tools", "path", "intent", "task_query", "notes",
     "memory", "evidence", "prior_results", "resources", "extra", "recovery"]

  // ---------------------------------------------------------------- layers

  function WithName(name: string): Layer -> bool { (layer: Layer) => layer.name == name }

  function Find(layers: Layers, name: string): (i: nat)
    ensures i <= |layers|
    ensures i < |layers| ==> layers[i].name == name
  {
    FirstIndexIsFirst(layers, WithName(name));
    FirstIndex(layers, WithName(name))
  }

  function Get(layers: Layers, name: string): Option<string> {
    var i := Find(layers, name);
    if i < |layers| then Some(layers[i].text) else None
  }

  predicate Has(layers: Layers, name: string) { Find(layers, name) < |layers| }

  function SetText(layers: Layers, name: string, text: string): Layers {
    var i := Find(layers, name);
    if i < |layers| then layers[i := Layer(name, text)] else layers
  }

  function Drop(layers: Layers, name: string): Layers {
    var i := Find(layers, name);
    if i < |layers| then RemoveAt(layers, i) else layers
  }

  predicate DistinctNames(layers: Layers) {
    forall i, j :: 0 <= i < j < |layers| ==> layers[i].name != layers[j].name
  }

  function NonBlank(layers: Layers): Layers {
    if |layers| == 0 then []
    else
      var last := layers[|layers| - 1];
      NonBlank(layers[..|layers| - 1]) + (if Blank(last.text) then [] else [last])
  }

  /** `measure_layers(...).total_tokens`. */
  function Total(layers: Layers, count: Counter): nat {
    if |layers| == 0 then 0
    else
      var last := layers[|layers| - 1];
      Total(layers[..|layers| - 1], count) + (if Blank(last.text) then 0 else count(last.text))
  }

  // -------------------------------------------------------------- trimming

  /** At most `max` tokens' worth of characters, rounded down, a character counting
      for at most one token. */
  function Worth(max: int, chars: nat, tokens: int): int
    requires tokens > 0
  {
    if chars <= tokens then max else max * chars / tokens
  }

  function Note(had: nat, max: int): string
    requires max > 0
  {
    "\n\n[context budget cut: about " + Decimal(had) + " tokens to " + Decimal(max) + " tokens]"
  }

  /** `trim_text_to_token_budget`: keep the head, say how much was cut. */
  function Trim(text: string, max: int, count: Counter): string {
    if max <= 0 || count(text) <= max then text
    else
      var sample := if text == "" then "x" else if |text| <= 800 then text else text[..800];
      var kept := Max(32, Worth(max, |sample|, Max(1, count(sample))));
      (if kept < |text| then text[..kept] else text) + Note(count(text), max)
  }

  // --------------------------------------------------------------- joining

  function OrderedParts(layers: Layers, order: seq<string>): seq<string> {
    if |order| == 0 then []
    else
      var text := Get(layers, order[0]);
      (if text.Some? && !Blank(text.value) then [text.value] else []) + OrderedParts(layers, order[1..])
  }

  function OtherParts(layers: Layers, order: seq<string>): seq<string> {
    if |layers| == 0 then []
    else
      var last := layers[|layers| - 1];
      OtherParts(layers[..|layers| - 1], order)
      + (if last.name !in order && !Blank(last.text) then [last.text] else [])
  }

  function Lines(parts: seq<string>): string {
    if |parts| == 0 then "" else if |parts| == 1 then parts[0] else parts[0] + "\n" + Lines(parts[1..])
  }

  function Join(layers: Layers): string {
    Lines(OrderedParts(layers, JOIN_ORDER) + OtherParts(layers, JOIN_ORDER))
  }

  method CollectOrdered(layers: Layers, order: seq<string>) returns (parts: seq<string>)
    ensures parts == OrderedParts(layers, order)
  {
    parts := [];
    for i := 0 to |order|
      invariant OrderedParts(layers, order) == parts + OrderedParts(layers, order[i..])
    {
      NextPart(layers, order, i);
      var text := Get(layers, order[i]);
      ghost var rest := OrderedParts(layers, order[i + 1..]);
      if text.Some? && !Blank(text.value) {
        assert parts + ([text.value] + rest) == (parts + [text.value]) + rest;
        parts := parts + [text.value];
      } else {
        assert [] + rest == rest;
      }
    }
  }

  lemma NextPart(layers: Layers, order: seq<string>, i: nat)
    requires i < |order|
    ensures var text := Get(layers, order[i]);
            OrderedParts(layers, order[i..])
            == (if text.Some? && !Blank(text.value) then [text.value] else [])
               + OrderedParts(layers, order[i + 1..])
  {
    assert order[i..][1..] == order[i + 1..];
  }

  method CollectOthers(layers: Layers, order: seq<string>) returns (parts: seq<string>)
    ensures parts == OtherParts(layers, order)
  {
    parts := [];
    for i := 0 to |layers|
      invariant parts == OtherParts(layers[..i], order)
    {
      assert layers[..i + 1][..i] == layers[..i];
      if layers[i].name !in order && !Blank(layers[i].text) {
        parts := parts + [layers[i].text];
      }
    }
    assert layers[..|layers|] == layers;
  }

  method JoinLayers(layers: Layers, order: seq<string>) returns (message: string)
    ensures message == Lines(OrderedParts(layers, order) + OtherParts(layers, order))
  {
    var ordered := CollectOrdered(layers, order);
    var others := CollectOthers(layers, order);
    message := Lines(ordered + others);
  }

  /** The brief comes first, verbatim. */
  lemma BriefComesFirst(layers: Layers)
    requires Get(layers, "brief").Some? && !Blank(Get(layers, "brief").value)
    ensures Get(layers, "brief").value <= Join(layers)
  {
    var brief := Get(layers, "brief").value;
    var parts := OrderedParts(layers, JOIN_ORDER) + OtherParts(layers, JOIN_ORDER);
    assert JOIN_ORDER[0] == "brief";
    assert OrderedParts(layers, JOIN_ORDER)[0] == brief;
    assert parts[0] == brief;
  }

  // ----------------------------------------------------------- what is kept

  lemma FindSpec(layers: Layers, name: string)
    ensures forall j :: 0 <= j < Find(layers, name) ==> layers[j].name != name
  {
    FirstIndexIsFirst(layers, WithName(name));
  }

  lemma FindIs(layers: Layers, name: string, i: nat)
    requires i <= |layers| && (i < |layers| ==> layers[i].name == name)
    requires forall j :: 0 <= j < i ==> layers[j].name != name
    ensures Find(layers, name) == i
  {
    FindSpec(layers, name);
  }

  lemma SetTextGet(layers: Layers, name: string, text: string, other: string)
    ensures Get(SetText(layers, name, text), other)
         == if other == name && Has(layers, name) then Some(text) else Get(layers, other)
    ensures DistinctNames(layers) ==> DistinctNames(SetText(layers, name, text))
  {
    FindSpec(layers, name);
    FindSpec(layers, other);
    FindIs(SetText(layers, name, text), other, Find(layers, other));
  }

  lemma DropGet(layers: Layers, name: string, other: string)
    requires DistinctNames(layers)
    ensures Get(Drop(layers, name), other) == if other == name then None else Get(layers, other)
    ensures DistinctNames(Drop(layers, name))
  {
    var i, k := Find(layers, name), Find(layers, other);
    FindSpec(layers, name);
    FindSpec(layers, other);
    if i < |layers| {
      var rest := RemoveAt(layers, i);
      if other == name {
        FindIs(rest, name, |rest|);
      } else {
        FindIs(rest, other, if k > i then k - 1 else k);
      }
    }
  }

  function SetOf(names: seq<string>): set<string> { set i | 0 <= i < |names| :: names[i] }

  /** `cur` differs from `orig` in the layers `touched` only, and has lost none
      but those in `loseable`. */
  ghost predicate Keeps(orig: Layers, cur: Layers, touched: set<string>, loseable: seq<string>) {
    && DistinctNames(cur)
    && (forall name :: name !in touched ==> Get(cur, name) == Get(orig, name))
    && (forall name :: Get(cur, name).Some? ==> Get(orig, name).Some?)
    && (forall name :: Get(orig, name).Some? && name !in loseable ==> Get(cur, name).Some?)
  }

  lemma KeepsTrim(
    orig: Layers, cur: Layers, touched: set<string>, loseable: seq<string>, name: string, text: string)
    requires Keeps(orig, cur, touched, loseable) && name in touched
    ensures Keeps(orig, SetText(cur, name, text), touched, loseable)
  {
    forall other: string
      ensures Get(SetText(cur, name, text), other)
           == if other == name && Has(cur, name) then Some(text) else Get(cur, other)
    {
      SetTextGet(cur, name, text, other);
    }
    SetTextGet(cur, name, text, name);
  }

  lemma KeepsDrop(orig: Layers, cur: Layers, touched: set<string>, loseable: seq<string>, name: string)
    requires Keeps(orig, cur, touched, loseable) && name in touched && name in loseable
    ensures Keeps(orig, Drop(cur, name), touched, loseable)
  {
    forall other: string
      ensures Get(Drop(cur, name), other) == if other == name then None else Get(cur, other)
    {
      DropGet(cur, name, other);
    }
    DropGet(cur, name, name);
  }

  /** None of the named layers is left. */
  predicate NoneOf(layers: Layers, names: seq<string>) {
    forall i :: 0 <= i < |names| ==> !Has(layers, names[i])
  }

  // -------------------------------------------------- the eviction passes

  /** The layers so far and what was done to them. */
  datatype Work = Work(layers: Layers, log: seq<string>)

  datatype Mode = Shrink | Halve | Discard

  function Cut(work: Work, key: string, max: int, tag: string, count: Counter): Work
    requires Has(work.layers, key)
  {
    Work(SetText(work.layers, key, Trim(Get(work.layers, key).value, max, count)), work.log + [tag])
  }

  function Dropped(work: Work, key: string): Work {
    Work(Drop(work.layers, key), work.log + ["drop:" + key])
  }

  /** One layer: cut to a quarter or dropped when small, halved, or dropped. */
  function One(mode: Mode, work: Work, key: string, count: Counter): Work {
    if !Has(work.layers, key) then work
    else
      var tokens := count(Get(work.layers, key).value);
      match mode
      case Shrink =>
        if tokens > 80 then Cut(work, key, Max(40, tokens / 4), "trim:" + key, count) else Dropped(work, key)
      case Halve => Cut(work, key, Max(24, tokens / 2), "trim_pinned:" + key, count)
      case Discard => Dropped(work, key)
  }

  /** Layers one by one in the given order, until the budget is met. */
  function Pass(mode: Mode, work: Work, order: seq<string>, max: int, count: Counter): Work
    decreases |order|
  {
    if |order| == 0 || Total(work.layers, count) <= max then work
    else Pass(mode, One(mode, work, order[0], count), order[1..], max, count)
  }

  /** The same without regard to the budget. */
  function All(mode: Mode, work: Work, order: seq<string>, count: Counter): Work
    decreases |order|
  {
    if |order| == 0 then work else All(mode, One(mode, work, order[0], count), order[1..], count)
  }

  /** What the other layers leave of the budget, at least 80. */
  function Remain(layers: Layers, key: string, max: int, count: Counter): int {
    Max(80, max - Total(Drop(layers, key), count))
  }

  /** One layer cut to what the other layers leave of the budget. */
  function CutTo(work: Work, key: string, max: int, count: Counter): Work {
    var remain := Remain(work.layers, key, max, count);
    if Total(work.layers, count) > max && Has(work.layers, key)
       && count(Get(work.layers, key).value) > remain
    then Cut(work, key, remain, "trim:" + key + "_last_resort", count) else work
  }

  /** The four passes. */
  function Evict(
    working: Layers, shrink: seq<string>, pinned: seq<string>, last: string, max: int, count: Counter): Work
  {
    var shrunk := Pass(Shrink, Work(working, []), shrink, max, count);
    var halved := Pass(Halve, shrunk, pinned, max, count);
    CutTo(Pass(Discard, halved, shrink, max, count), last, max, count)
  }

  // ---------------------------------------------------- the passes as loops

  method Measure(layers: Layers, count: Counter) returns (total: nat)
    ensures total == Total(layers, count)
  {
    total := 0;
    for i := 0 to |layers|
      invariant total == Total(layers[..i], count)
    {
      assert layers[..i + 1][..i] == layers[..i];
      if !Blank(layers[i].text) {
        total := total + count(layers[i].text);
      }
    }
    assert layers[..|layers|] == layers;
  }

  method ShrinkPass(start: Work, order: seq<string>, max: int, count: Counter) returns (work: Work)
    ensures work == Pass(Shrink, start, order, max, count)
  {
    work := start;
    for i := 0 to |order|
      invariant Pass(Shrink, start, order, max, count) == Pass(Shrink, work, order[i..], max, count)
    {
      var total := Measure(work.layers, count);
      if total <= max {
        return;
      }
      work := ShrinkLayer(work, order[i], count);
      assert order[i..][1..] == order[i + 1..];
    }
  }

  method ShrinkLayer(before: Work, key: string, count: Counter) returns (work: Work)
    ensures work == One(Shrink, before, key, count)
  {
    work := before;
    if Has(work.layers, key) {
      var text := work.layers[Find(work.layers, key)].text;
      if count(text) > 80 {
        var target := Max(40, count(text) / 4);
        work := Work(SetText(work.layers, key, Trim(text, target, count)), work.log + ["trim:" + key]);
      } else {
        work := Work(Drop(work.layers, key), work.log + ["drop:" + key]);
      }
    }
  }

  method PinnedPass(start: Work, order: seq<string>, max: int, count: Counter) returns (work: Work)
    ensures work == Pass(Halve, start, order, max, count)
  {
    work := start;
    for i := 0 to |order|
      invariant Pass(Halve, start, order, max, count) == Pass(Halve, work, order[i..], max, count)
    {
      var total := Measure(work.layers, count);
      if total <= max {
        return;
      }
      work := HalveLayer(work, order[i], count);
      assert order[i..][1..] == order[i + 1..];
    }
  }

  method HalveLayer(before: Work, key: string, count: Counter) returns (work: Work)
    ensures work == One(Halve, before, key, count)
  {
    work := before;
    if Has(work.layers, key) {
      var text := work.layers[Find(work.layers, key)].text;
      var target := Max(24, count(text) / 2);
      work := Work(SetText(work.layers, key, Trim(text, target, count)), work.log + ["trim_pinned:" + key]);
    }
  }

  /** Position of the first layer of `order` that is present. */
  method FirstPresent(layers: Layers, order: seq<string>) returns (p: nat)
    ensures p <= |order|
    ensures p < |order| ==> Has(layers, order[p])
    ensures NoneOf(layers, order[..p])
  {
    p := 0;
    while p < |order| && !Has(layers, order[p])
      invariant p <= |order|
      invariant NoneOf(layers, order[..p])
    {
      p := p + 1;
    }
  }

  /** Layers that are not there are passed over. */
  lemma {:induction false} SkipAbsent(work: Work, order: seq<string>, p: nat, max: int, count: Counter)
    requires p <= |order| && NoneOf(work.layers, order[..p])
    ensures Pass(Discard, work, order, max, count) == Pass(Discard, work, order[p..], max, count)
  {
    if p == 0 {
      assert order[0..] == order;
    } else if Total(work.layers, count) > max {
      assert order[..p][0] == order[0];
      assert order[1..][..p - 1] == order[..p][1..];
      SkipAbsent(work, order[1..], p - 1, max, count);
      assert order[1..][p - 1..] == order[p..];
    }
  }

  lemma DropKeepsAbsence(layers: Layers, order: seq<string>, p: nat)
    requires DistinctNames(layers) && p < |order| && NoneOf(layers, order[..p])
    ensures NoneOf(Drop(layers, order[p]), order[..p + 1]) && DistinctNames(Drop(layers, order[p]))
  {
    DropGet(layers, order[p], order[p]);
    var names := order[..p + 1];
    forall j | 0 <= j < |names|
      ensures !Has(Drop(layers, order[p]), names[j])
    {
      DropGet(layers, order[p], names[j]);
      if j < p {
        assert names[j] == order[..p][j];
      }
    }
  }

  /** The search restarts at the first name after every drop; the result is
      that of a single walk over the names. */
  method DropPass(start: Work, order: seq<string>, max: int, count: Counter) returns (work: Work)
    requires DistinctNames(start.layers)
    ensures work == Pass(Discard, start, order, max, count)
  {
    work := start;
    ghost var n: nat := 0;
    var total := Measure(work.layers, count);
    assert order[0..] == order;
    while total > max
      invariant total == Total(work.layers, count) && n <= |order|
      invariant DistinctNames(work.layers) && NoneOf(work.layers, order[..n])
      invariant Pass(Discard, start, order, max, count) == Pass(Discard, work, order[n..], max, count)
      decreases |work.layers|
    {
      var p := FirstPresent(work.layers, order);
      DropStep(work, order, n, p, max, count);
      if p == |order| {
        return;
      }
      work := Dropped(work, order[p]);
      n := p + 1;
      total := Measure(work.layers, count);
    }
  }

  /** From the first present layer on, the walk goes on where the search stopped. */
  lemma DropStep(work: Work, order: seq<string>, n: nat, p: nat, max: int, count: Counter)
    requires DistinctNames(work.layers) && Total(work.layers, count) > max
    requires n <= |order| && NoneOf(work.layers, order[..n])
    requires p <= |order| && NoneOf(work.layers, order[..p]) && (p < |order| ==> Has(work.layers, order[p]))
    ensures p == |order| ==> Pass(Discard, work, order[n..], max, count) == work
    ensures p < |order| ==>
              var next := Dropped(work, order[p]);
              && Pass(Discard, work, order[n..], max, count) == Pass(Discard, next, order[p + 1..], max, count)
              && DistinctNames(next.layers) && NoneOf(next.layers, order[..p + 1])
  {
    SkipAbsent(work, order, n, max, count);
    SkipAbsent(work, order, p, max, count);
    if p < |order| {
      assert order[p..][1..] == order[p + 1..];
      DropKeepsAbsence(work.layers, order, p);
    }
  }

  method RemainFor(layers: Layers, key: string, max: int, count: Counter) returns (remain: int)
    ensures remain == Remain(layers, key, max, count)
  {
    var others := Measure(Drop(layers, key), count);
    remain := Max(80, max - others);
  }

  /** Last resort: cut one layer to what the others leave. */
  method CutPass(before: Work, key: string, max: int, count: Counter) returns (work: Work)
    ensures work == CutTo(before, key, max, count)
  {
    work := before;
    var total := Measure(before.layers, count);
    if total > max && Has(before.layers, key) {
      var text := before.layers[Find(before.layers, key)].text;
      var remain := RemainFor(before.layers, key, max, count);
      if count(text) > remain {
        work := Cut(before, key, remain, "trim:" + key + "_last_resort", count);
      }
    }
  }

  // ------------------------------------------------- what the passes keep

  lemma OneKeeps(
    mode: Mode, orig: Layers, work: Work, key: string, touched: set<string>, loseable: seq<string>, count: Counter)
    requires Keeps(orig, work.layers, touched, loseable)
    requires key in touched && (mode.Halve? || key in loseable)
    ensures Keeps(orig, One(mode, work, key, count).layers, touched, loseable)
  {
    if Has(work.layers, key) {
      if mode.Halve? || (mode.Shrink? && count(Get(work.layers, key).value) > 80) {
        var tokens := count(Get(work.layers, key).value);
        var max := if mode.Halve? then Max(24, tokens / 2) else Max(40, tokens / 4);
        KeepsTrim(orig, work.layers, touched, loseable, key, Trim(Get(work.layers, key).value, max, count));
      } else {
        KeepsDrop(orig, work.layers, touched, loseable, key);
      }
    }
  }

  lemma {:induction false} PassKeeps(
    mode: Mode, orig: Layers, work: Work, order: seq<string>, touched: set<string>, loseable: seq<string>,
    max: int, count: Counter)
    requires Keeps(orig, work.layers, touched, loseable)
    requires forall i :: 0 <= i < |order| ==> order[i] in touched && (mode.Halve? || order[i] in loseable)
    ensures Keeps(orig, Pass(mode, work, order, max, count).layers, touched, loseable)
    decreases |order|
  {
    if |order| > 0 && Total(work.layers, count) > max {
      OneKeeps(mode, orig, work, order[0], touched, loseable, count);
      PassKeeps(mode, orig, One(mode, work, order[0], count), order[1..], touched, loseable, max, count);
    }
  }

  lemma NoneOfMore(layers: Layers, names: seq<string>)
    requires |names| > 0 && !Has(layers, names[0])
    ensures NoneOf(layers, names[1..]) ==> NoneOf(layers, names)
  {
    if NoneOf(layers, names[1..]) {
      forall i | 0 <= i < |names|
        ensures !Has(layers, names[i])
      {
        if i > 0 {
          assert names[i] == names[1..][i - 1];
        }
      }
    }
  }

  /** The dropping pass meets the budget or leaves nothing to drop. */
  lemma {:induction false} DiscardEmpties(work: Work, order: seq<string>, max: int, count: Counter)
    requires DistinctNames(work.layers)
    ensures var after := Pass(Discard, work, order, max, count).layers;
            Total(after, count) <= max || NoneOf(after, order)
    decreases |order|
  {
    if |order| > 0 && Total(work.layers, count) > max {
      var next := One(Discard, work, order[0], count);
      DropGet(work.layers, order[0], order[0]);
      DiscardEmpties(next, order[1..], max, count);
      PassKeeps(Discard, next.layers, next, order[1..], SetOf(order), order, max, count);
      var after := Pass(Discard, next, order[1..], max, count).layers;
      assert Get(after, order[0]).Some? ==> Get(next.layers, order[0]).Some?;
      NoneOfMore(after, order);
    }
  }

  lemma OneLeavesOthers(mode: Mode, work: Work, key: string, other: string, count: Counter)
    requires DistinctNames(work.layers) && other != key
    ensures Get(One(mode, work, key, count).layers, other) == Get(work.layers, other)
    ensures DistinctNames(One(mode, work, key, count).layers)
  {
    OneKeeps(mode, work.layers, work, key, {key}, [key], count);
  }

  /** Priority: a layer is changed by a pass only when treating every layer
      before it in the order was not enough. */
  lemma {:induction false} PassPriority(
    mode: Mode, work: Work, order: seq<string>, j: nat, max: int, count: Counter)
    requires DistinctNames(work.layers) && j < |order|
    requires forall i :: 0 <= i < j ==> order[i] != order[j]
    requires Get(Pass(mode, work, order, max, count).layers, order[j]) != Get(work.layers, order[j])
    ensures Total(All(mode, work, order[..j], count).layers, count) > max
    decreases |order|
  {
    if j > 0 {
      OneLeavesOthers(mode, work, order[0], order[j], count);
      assert order[1..][j - 1] == order[j] && order[..j][1..] == order[1..][..j - 1];
      PassPriority(mode, One(mode, work, order[0], count), order[1..], j - 1, max, count);
    }
  }

  lemma {:induction false} PassIsAllOrFits(mode: Mode, work: Work, order: seq<string>, max: int, count: Counter)
    ensures var after := Pass(mode, work, order, max, count);
            Total(after.layers, count) <= max || after == All(mode, work, order, count)
    decreases |order|
  {
    if |order| > 0 {
      PassIsAllOrFits(mode, One(mode, work, order[0], count), order[1..], max, count);
    }
  }

  lemma SetTextKeepsNames(layers: Layers, name: string, text: string, names: seq<string>)
    requires NoneOf(layers, names)
    ensures NoneOf(SetText(layers, name, text), names)
  {
    forall i | 0 <= i < |names|
      ensures !Has(SetText(layers, name, text), names[i])
    {
      SetTextGet(layers, name, text, names[i]);
    }
  }

  /** The layer of last resort is cut only when none of `names` is left, and
      that stays so. */
  lemma CutKeeps(
    orig: Layers, work: Work, touched: set<string>, names: seq<string>, key: string, max: int, count: Counter)
    requires Keeps(orig, work.layers, touched, names) && key !in touched
    requires Total(work.layers, count) <= max || NoneOf(work.layers, names)
    ensures var cur := CutTo(work, key, max, count).layers;
            && Keeps(orig, cur, touched + {key}, names)
            && (Total(cur, count) <= max || NoneOf(cur, names))
            && (Get(cur, key) != Get(orig, key) ==> NoneOf(cur, names))
  {
    var cur := CutTo(work, key, max, count);
    if cur != work {
      var remain := Remain(work.layers, key, max, count);
      var cut := Trim(Get(work.layers, key).value, remain, count);
      KeepsTrim(orig, work.layers, touched + {key}, names, key, cut);
      SetTextKeepsNames(work.layers, key, cut, names);
    }
  }

  /** Everything eviction leads to. */
  lemma EvictKeeps(
    working: Layers, shrink: seq<string>, pinned: seq<string>, last: string, max: int, count: Counter)
    requires DistinctNames(working) && last !in SetOf(shrink) + SetOf(pinned)
    ensures var final := Evict(working, shrink, pinned, last, max, count).layers;
            && Keeps(working, final, SetOf(shrink) + SetOf(pinned) + {last}, shrink)
            && (Total(final, count) <= max || NoneOf(final, shrink))
            && (Get(final, last) != Get(working, last) ==> NoneOf(final, shrink))
  {
    var touched := SetOf(shrink) + SetOf(pinned);
    var shrunk := Pass(Shrink, Work(working, []), shrink, max, count);
    var halved := Pass(Halve, shrunk, pinned, max, count);
    PassKeeps(Shrink, working, Work(working, []), shrink, touched, shrink, max, count);
    PassKeeps(Halve, working, shrunk, pinned, touched, shrink, max, count);
    PassKeeps(Discard, working, halved, shrink, touched, shrink, max, count);
    DiscardEmpties(halved, shrink, max, count);
    CutKeeps(working, Pass(Discard, halved, shrink, max, count), touched, shrink, last, max, count);
  }

  /** A pinned layer is changed only when every shrinkable layer has been cut
      once and every pinned layer before it has been halved, to no avail. */
  lemma PinnedLayersComeLater(
    working: Layers, shrink: seq<string>, pinned: seq<string>, last: string, j: nat, max: int, count: Counter)
    requires DistinctNames(working) && j < |pinned| && last != pinned[j] && pinned[j] !in SetOf(shrink)
    requires forall i :: 0 <= i < j ==> pinned[i] != pinned[j]
    requires var final := Evict(working, shrink, pinned, last, max, count).layers;
             Get(final, pinned[j]) != Get(working, pinned[j])
    ensures var once := All(Shrink, Work(working, []), shrink, count);
            && Total(once.layers, count) > max
            && Total(All(Halve, once, pinned[..j], count).layers, count) > max
  {
    var start := Work(working, []);
    var shrunk := Pass(Shrink, start, shrink, max, count);
    var halved := Pass(Halve, shrunk, pinned, max, count);
    var dropped := Pass(Discard, halved, shrink, max, count);
    PassKeeps(Shrink, working, start, shrink, SetOf(shrink), shrink, max, count);
    PassKeeps(Halve, working, shrunk, pinned, SetOf(shrink) + SetOf(pinned), shrink, max, count);
    PassKeeps(Discard, halved.layers, halved, shrink, SetOf(shrink), shrink, max, count);
    CutElsewhere(dropped, last, pinned[j], max, count);
    assert Get(halved.layers, pinned[j]) != Get(shrunk.layers, pinned[j]);
    PassIsAllOrFits(Shrink, start, shrink, max, count);
    PassPriority(Halve, shrunk, pinned, j, max, count);
  }

  lemma CutElsewhere(work: Work, key: string, other: string, max: int, count: Counter)
    requires other != key
    ensures Get(CutTo(work, key, max, count).layers, other) == Get(work.layers, other)
  {
    var remain := Remain(work.layers, key, max, count);
    if Has(work.layers, key) {
      SetTextGet(work.layers, key, Trim(Get(work.layers, key).value, remain, count), other);
    }
  }

  // ---------------------------------------------------------------- fitting

  lemma {:induction false} NonBlankIs(layers: Layers)
    requires DistinctNames(layers)
    ensures DistinctNames(NonBlank(layers))
    ensures forall x :: x in NonBlank(layers) <==> x in layers && !Blank(x.text)
  {
    if |layers| > 0 {
      var rest, last := layers[..|layers| - 1], layers[|layers| - 1];
      NonBlankIs(rest);
      assert layers == rest + [last];
      var kept := NonBlank(rest);
      forall i | 0 <= i < |kept|
        ensures kept[i].name != last.name
      {
        assert kept[i] in rest;
      }
    }
  }

  /** Layers eviction may change. */
  ghost const Touchable: set<string> := SetOf(SHRINK_ORDER) + SetOf(PINNED_ORDER) + {"step"}

  /** What a caller may rely on when eviction ran: the reported total meets the
      budget unless no shrinkable layer is left; layers outside the shrinkable
      and pinned ones and the step are as they were; the step changes only when
      no shrinkable layer is left; with a step the message is the join of the
      remaining layers and begins with the brief. */
  ghost predicate Fitted(
    working: Layers, final: Layers, max: int, count: Counter, message: string, total: int)
  {
    && Keeps(working, final, Touchable, SHRINK_ORDER)
    && (total <= max || NoneOf(final, SHRINK_ORDER))
    && (Get(final, "step") != Get(working, "step") ==> NoneOf(final, SHRINK_ORDER))
    && (Has(working, "step") ==> message == Join(final) && total == Total(final, count))
    && (!Has(working, "step") && Total(final, count) <= max ==> message == Join(final) && total == Total(final, count))
    && (!Has(working, "step") && Total(final, count) > max ==> message == Trim(Join(final), max, count) && total == max)
    && (Has(working, "step") && Has(working, "brief") ==> Get(working, "brief").value <= message)
  }

  lemma NotTouched()
    ensures "step" !in SetOf(SHRINK_ORDER) + SetOf(PINNED_ORDER) && "step" !in SHRINK_ORDER
    ensures "brief" !in Touchable
  {
  }

  /** `fit_layers_to_token_budget`. */
  method FitLayers(layers: Layers, max: int, enabled: bool, count: Counter)
    returns (message: string, total: int, evictions: seq<string>, evicting: bool)
    requires DistinctNames(layers)
    ensures evicting <==> enabled && max > 0 && Total(NonBlank(layers), count) > max
    ensures evicting ==> Fitted(NonBlank(layers), Evicted(layers, max, count).layers, max, count, message, total)
    ensures evicting ==> evictions == Evicted(layers, max, count).log + Outcome(Evicted(layers, max, count), max, count)
    ensures !evicting && (enabled || Total(NonBlank(layers), count) <= max) ==>
              message == Join(NonBlank(layers)) && total == Total(NonBlank(layers), count) && evictions == []
    ensures !evicting && !enabled && Total(NonBlank(layers), count) > max ==>
              message == Trim(Join(NonBlank(layers)), max, count) && total == max && evictions == ["head_trim"]
  {
    NonBlankIs(layers);
    var working := NonBlank(layers);
    total := Measure(working, count);
    if max <= 0 || total <= max || !enabled {
      evicting, evictions := false, [];
      message := JoinLayers(working, JOIN_ORDER);
      if !enabled && total > max {
        message := Trim(message, max, count);
        total := max;
        evictions := ["head_trim"];
      }
      return;
    }
    evicting := true;
    message, total, evictions := EvictLayers(working, max, count);
  }

  /** How a message that is still over budget is reported. */
  ghost function Outcome(work: Work, max: int, count: Counter): seq<string> {
    if Total(work.layers, count) <= max then []
    else if Has(work.layers, "step") then ["over_budget_kept_step"] else ["fallback_head_trim"]
  }

  /** The layers eviction leaves of the non-blank ones. */
  ghost function Evicted(layers: Layers, max: int, count: Counter): Work {
    Evict(NonBlank(layers), SHRINK_ORDER, PINNED_ORDER, "step", max, count)
  }

  /** The four passes, for any three lists of names. */
  method RunPasses(
    working: Layers, shrink: seq<string>, pinned: seq<string>, last: string, max: int, count: Counter)
    returns (work: Work)
    requires DistinctNames(working)
    ensures work == Evict(working, shrink, pinned, last, max, count)
  {
    var shrunk := ShrinkPass(Work(working, []), shrink, max, count);
    var halved := PinnedPass(shrunk, pinned, max, count);
    var touched := SetOf(shrink) + SetOf(pinned);
    PassKeeps(Shrink, working, Work(working, []), shrink, touched, shrink, max, count);
    PassKeeps(Halve, working, shrunk, pinned, touched, shrink, max, count);
    work := DropPass(halved, shrink, max, count);
    work := CutPass(work, last, max, count);
  }

  method EvictLayers(working: Layers, max: int, count: Counter)
    returns (message: string, total: int, evictions: seq<string>)
    requires DistinctNames(working)
    requires forall x :: x in working ==> !Blank(x.text)
    ensures var work := Evict(working, SHRINK_ORDER, PINNED_ORDER, "step", max, count);
            && Fitted(working, work.layers, max, count, message, total)
            && evictions == work.log + Outcome(work, max, count)
  {
    var work := RunPasses(working, SHRINK_ORDER, PINNED_ORDER, "step", max, count);
    NotTouched();
    EvictKeeps(working, SHRINK_ORDER, PINNED_ORDER, "step", max, count);
    FinishedBrief(working, work.layers);
    total := Measure(work.layers, count);
    message := JoinLayers(work.layers, JOIN_ORDER);
    evictions := work.log;
    if total > max && !Has(work.layers, "step") {
      message := Trim(message, max, count);
      total := max;
      evictions := evictions + ["fallback_head_trim"];
    } else if total > max {
      evictions := evictions + ["over_budget_kept_step"];
    }
  }

  lemma FinishedBrief(working: Layers, cur: Layers)
    requires forall x :: x in working ==> !Blank(x.text)
    requires Keeps(working, cur, Touchable, SHRINK_ORDER)
    ensures Has(cur, "step") <==> Has(working, "step")
    ensures Has(working, "brief") ==> Get(working, "brief").value <= Join(cur)
  {
    NotTouched();
    assert Get(cur, "step").Some? <==> Get(working, "step").Some?;
    if Has(working, "brief") {
      assert working[Find(working, "brief")] in working;
      BriefComesFirst(cur);
    }
  }
}

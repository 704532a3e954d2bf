/** How much eviction takes from a layer, and in which order
    (`app/agent/harness/context_budget.py`): the amounts and the orders are
    written out here, apart from the constants of the passes. */
module LayerOrder {
  import opened Common
  import opened Sums
  import opened Text
  import opened ContextBudget

  // ------------------------------------------------------ what is measured

  function Tokens(layer: Layer, count: Counter): nat { if AllSpace(layer.text) then 0 else count(layer.text) }

  function TokensOf(count: Counter): Layer -> nat { (layer: Layer) => Tokens(layer, count) }

  /** The total is the sum of the tokens of the layers that are not blank. */
  lemma {:induction false} TotalIs(layers: Layers, count: Counter)
    ensures Total(layers, count) == SumBy(layers, TokensOf(count))
  {
    if |layers| > 0 {
      TotalIs(layers[..|layers| - 1], count);
      BlankIs(layers[|layers| - 1].text);
    }
  }

  /** Exactly the blank layers are left out at the start, and the others keep their
      order. */
  lemma NonBlankIsKept(layers: Layers, x: Layer)
    ensures NonBlank([]) == []
    ensures NonBlank(layers + [x]) == NonBlank(layers) + (if AllSpace(x.text) then [] else [x])
  {
    BlankIs(x.text);
    assert (layers + [x])[..|layers|] == layers;
  }

  // -------------------------------------------------------------- how much

  /** A text of `size` characters at `tokens` tokens for `chars` characters: `kept`
      is the longest head worth at most `max` tokens, of at least 32 characters,
      one character counting for at most one token. */
  predicate LongestHead(kept: int, size: nat, max: int, chars: nat, tokens: int) {
    var rate, per := if tokens < chars then chars else 1, if tokens < chars then tokens else 1;
    && 0 <= kept <= size
    && (kept > 32 ==> kept * per <= max * rate)
    && (kept < size ==> kept >= 32 && (kept + 1) * per > max * rate)
  }

  lemma TimesGrows(a: int, b: int, c: int)
    requires a <= b && c > 0
    ensures a * c <= b * c
  {
  }

  lemma QuotientIs(x: int, y: int)
    requires y > 0
    ensures x / y * y <= x < (x / y + 1) * y
  {
  }

  lemma HeadIsLongest(size: nat, max: int, chars: nat, tokens: int)
    requires tokens > 0
    ensures LongestHead(Min(Max(32, Worth(max, chars, tokens)), size), size, max, chars, tokens)
  {
    var most := Worth(max, chars, tokens);
    var kept := Min(Max(32, most), size);
    if tokens < chars {
      var product := max * chars;
      QuotientIs(product, tokens);
      if kept > 32 {
        TimesGrows(kept, most, tokens);
      }
      if kept < size {
        TimesGrows(most + 1, kept + 1, tokens);
      }
    }
  }

  /** Trimming keeps the longest head at the rate of the first 800 characters, and
      adds a note. */
  lemma TrimKeepsHead(text: string, max: int, count: Counter) returns (kept: nat, note: string)
    requires 0 < max < count(text) && text != ""
    ensures LongestHead(kept, |text|, max, Min(800, |text|), Max(1, count(text[..Min(800, |text|)])))
    ensures Trim(text, max, count) == text[..kept] + note && |note| > 0 && note[0] == '\n'
  {
    var chars := Min(800, |text|);
    assert text[..|text|] == text;
    var tokens := Max(1, count(text[..chars]));
    kept := Min(Max(32, Worth(max, chars, tokens)), |text|);
    note := Note(count(text), max);
    HeadIsLongest(|text|, max, chars, tokens);
  }

  /** Everything but the layer `key` is as before. */
  ghost predicate OnlyTouches(before: Layers, after: Layers, key: string) {
    forall other: string :: other != key ==> Get(after, other) == Get(before, other)
  }

  lemma OneOnlyTouches(mode: Mode, work: Work, key: string, count: Counter)
    requires DistinctNames(work.layers)
    ensures OnlyTouches(work.layers, One(mode, work, key, count).layers, key)
  {
    forall other: string | other != key
      ensures Get(One(mode, work, key, count).layers, other) == Get(work.layers, other)
    {
      OneLeavesOthers(mode, work, key, other, count);
    }
  }

  /** A layer in the shrinking pass goes if it has up to 80 tokens; above that it is
      cut to a quarter, and to no less than 40. */
  lemma ShrinkingOne(work: Work, key: string, text: string, count: Counter) returns (target: int)
    requires DistinctNames(work.layers) && Get(work.layers, key) == Some(text)
    ensures OnlyTouches(work.layers, One(Shrink, work, key, count).layers, key)
    ensures target == 40 || 4 * target <= count(text)
    ensures target >= 40 && count(text) < 4 * target + 4
    ensures var after := One(Shrink, work, key, count);
            if count(text) <= 80 then Get(after.layers, key).None? && after.log == work.log + ["drop:" + key]
            else Get(after.layers, key) == Some(Trim(text, target, count)) && after.log == work.log + ["trim:" + key]
  {
    target := Max(40, count(text) / 4);
    OneOnlyTouches(Shrink, work, key, count);
    DropGet(work.layers, key, key);
    SetTextGet(work.layers, key, Trim(text, target, count), key);
  }

  /** A pinned layer is cut to a half, and to no less than 24 tokens. */
  lemma HalvingOne(work: Work, key: string, text: string, count: Counter) returns (target: int)
    requires DistinctNames(work.layers) && Get(work.layers, key) == Some(text)
    ensures OnlyTouches(work.layers, One(Halve, work, key, count).layers, key)
    ensures target == 24 || 2 * target <= count(text)
    ensures target >= 24 && count(text) < 2 * target + 2
    ensures var after := One(Halve, work, key, count);
            Get(after.layers, key) == Some(Trim(text, target, count)) && after.log == work.log + ["trim_pinned:" + key]
  {
    target := Max(24, count(text) / 2);
    OneOnlyTouches(Halve, work, key, count);
    SetTextGet(work.layers, key, Trim(text, target, count), key);
  }

  /** The last resort: over budget, the layer `key` is cut to what the others leave,
      and to no less than 80 tokens; the others stay. */
  lemma LastResort(work: Work, key: string, text: string, max: int, count: Counter) returns (target: int)
    requires DistinctNames(work.layers) && Get(work.layers, key) == Some(text) && Total(work.layers, count) > max
    ensures var others := Total(Drop(work.layers, key), count);
            target >= 80 && target + others >= max && (target == 80 || target + others == max)
    ensures var after := CutTo(work, key, max, count);
            if count(text) <= target then after == work
            else && Get(after.layers, key) == Some(Trim(text, target, count))
                 && OnlyTouches(work.layers, after.layers, key)
                 && after.log == work.log + ["trim:" + key + "_last_resort"]
  {
    target := Max(80, max - Total(Drop(work.layers, key), count));
    SetTextGet(work.layers, key, Trim(text, target, count), key);
    forall other: string | other != key
      ensures Get(CutTo(work, key, max, count).layers, other) == Get(work.layers, other)
    {
      CutElsewhere(work, key, other, max, count);
    }
  }

  // ------------------------------------------------------- in which order

  /** A pass stops as soon as the budget is met. */
  lemma {:induction false} PassStops(mode: Mode, work: Work, order: seq<string>, j: nat, max: int, count: Counter)
    requires j <= |order| && Total(All(mode, work, order[..j], count).layers, count) <= max
    ensures Pass(mode, work, order, max, count) == Pass(mode, work, order[..j], max, count)
    ensures Total(Pass(mode, work, order, max, count).layers, count) <= max
    decreases j
  {
    if j > 0 && Total(work.layers, count) > max {
      assert order[..j][1..] == order[1..][..j - 1] && order[..j][0] == order[0];
      PassStops(mode, One(mode, work, order[0], count), order[1..], j - 1, max, count);
    }
  }

  /** A pass that needs no more than the first `j` layers changes no other. */
  lemma PassLeavesRest(
    mode: Mode, work: Work, order: seq<string>, j: nat, max: int, count: Counter, name: string)
    requires DistinctNames(work.layers) && j <= |order| && name !in order[..j]
    requires Total(All(mode, work, order[..j], count).layers, count) <= max
    ensures Get(Pass(mode, work, order, max, count).layers, name) == Get(work.layers, name)
    ensures Total(Pass(mode, work, order, max, count).layers, count) <= max
  {
    PassStops(mode, work, order, j, max, count);
    PassKeeps(mode, work.layers, work, order[..j], SetOf(order[..j]), order[..j], max, count);
  }

  /** If shrinking the first `j` of these layers is enough, eviction changes no
      other layer. */
  lemma ShrinkingInOrder(working: Layers, j: nat, max: int, count: Counter, name: string)
    requires DistinctNames(working) && j <= 7
    requires var first := ["tools", "resources", "path", "prior_results", "memory", "evidence", "task_query"][..j];
             name !in first && Total(All(Shrink, Work(working, []), first, count).layers, count) <= max
    ensures var final := Evict(working, SHRINK_ORDER, PINNED_ORDER, "step", max, count).layers;
            Get(final, name) == Get(working, name) && Total(final, count) <= max
  {
    PassLeavesRest(Shrink, Work(working, []), SHRINK_ORDER, j, max, count, name);
  }

  /** If it takes halving the first `j` of these, eviction changes none of the
      layers that are neither among them nor shrinkable. */
  lemma HalvingInOrder(working: Layers, j: nat, max: int, count: Counter, name: string)
    requires DistinctNames(working) && j <= 6 && name !in SHRINK_ORDER
    requires var once := All(Shrink, Work(working, []), SHRINK_ORDER, count);
             var first := ["recovery", "extra", "worker_json", "binding", "intent", "notes"][..j];
             name !in first && Total(All(Halve, once, first, count).layers, count) <= max
    ensures var final := Evict(working, SHRINK_ORDER, PINNED_ORDER, "step", max, count).layers;
            Get(final, name) == Get(working, name) && Total(final, count) <= max
  {
    assert ["recovery", "extra", "worker_json", "binding", "intent", "notes"][..j] == PINNED_ORDER[..j];
    HalvingStops(working, SHRINK_ORDER, PINNED_ORDER, "step", j, max, count, name);
  }

  lemma HalvingStops(
    working: Layers, shrink: seq<string>, pinned: seq<string>, last: string, j: nat,
    max: int, count: Counter, name: string)
    requires DistinctNames(working) && j <= |pinned| && name !in shrink && name !in pinned[..j]
    requires Total(All(Halve, All(Shrink, Work(working, []), shrink, count), pinned[..j], count).layers, count) <= max
    ensures var final := Evict(working, shrink, pinned, last, max, count).layers;
            Get(final, name) == Get(working, name) && Total(final, count) <= max
  {
    var start := Work(working, []);
    var shrunk := Pass(Shrink, start, shrink, max, count);
    PassIsAllOrFits(Shrink, start, shrink, max, count);
    PassKeeps(Shrink, working, start, shrink, SetOf(shrink), shrink, max, count);
    if Total(shrunk.layers, count) > max {
      PassLeavesRest(Halve, shrunk, pinned, j, max, count, name);
    }
  }

  /** If after both passes it takes dropping the first `j` of the shrinkable layers,
      the others stay as the passes left them. */
  lemma DroppingInOrder(working: Layers, j: nat, max: int, count: Counter, name: string)
    requires DistinctNames(working) && j <= 7
    requires var first := ["tools", "resources", "path", "prior_results", "memory", "evidence", "task_query"][..j];
             && name !in first
             && Total(All(Discard, AfterBoth(working, max, count), first, count).layers, count) <= max
    ensures var final := Evict(working, SHRINK_ORDER, PINNED_ORDER, "step", max, count).layers;
            Get(final, name) == Get(AfterBoth(working, max, count).layers, name) && Total(final, count) <= max
  {
    var start := Work(working, []);
    var shrunk := Pass(Shrink, start, SHRINK_ORDER, max, count);
    var touched := SetOf(SHRINK_ORDER) + SetOf(PINNED_ORDER);
    PassKeeps(Shrink, working, start, SHRINK_ORDER, touched, SHRINK_ORDER, max, count);
    PassKeeps(Halve, working, shrunk, PINNED_ORDER, touched, SHRINK_ORDER, max, count);
    PassLeavesRest(Discard, AfterBoth(working, max, count), SHRINK_ORDER, j, max, count, name);
  }

  /** The layers after shrinking and halving. */
  function AfterBoth(working: Layers, max: int, count: Counter): Work {
    Pass(Halve, Pass(Shrink, Work(working, []), SHRINK_ORDER, max, count), PINNED_ORDER, max, count)
  }

  // --------------------------------------------------------- order of joining

  lemma {:induction false} LinesSplit(a: seq<string>, b: seq<string>) returns (before: string)
    requires b != []
    ensures Lines(a + b) == before + Lines(b)
  {
    if a == [] {
      before := "";
      assert a + b == b && "" + Lines(b) == Lines(b);
    } else {
      var rest := LinesSplit(a[1..], b);
      assert (a + b)[1..] == a[1..] + b;
      before := a[0] + "\n" + rest;
    }
  }

  lemma LinesHead(b: seq<string>) returns (after: string)
    requires b != []
    ensures Lines(b) == b[0] + after
  {
    after := if |b| == 1 then "" else "\n" + Lines(b[1..]);
  }

  /** Of two parts the earlier one is before the later one in the text. */
  lemma LinesInOrder(parts: seq<string>, i: nat, j: nat) returns (before: string, between: string, after: string)
    requires i < j < |parts|
    ensures Lines(parts) == before + parts[i] + between + parts[j] + after
  {
    assert parts == parts[..i] + parts[i..];
    before := LinesSplit(parts[..i], parts[i..]);
    var rest := parts[i + 1..];
    assert rest == parts[i + 1..j] + parts[j..];
    var middle := LinesSplit(parts[i + 1..j], parts[j..]);
    after := LinesHead(parts[j..]);
    assert parts[i..][1..] == rest && Lines(parts[i..]) == parts[i] + "\n" + Lines(rest);
    between := "\n" + middle;
    assert Lines(parts) == before + (parts[i] + "\n" + (middle + (parts[j] + after)));
  }

  /** The layer is there with this text, which is not blank. */
  predicate Shows(layers: Layers, name: string, text: string) {
    Get(layers, name) == Some(text) && !Blank(text)
  }

  /** Its text is a part of the message. */
  lemma {:induction false} PartOf(layers: Layers, order: seq<string>, i: nat, text: string) returns (p: nat)
    requires i < |order| && Shows(layers, order[i], text)
    ensures p < |OrderedParts(layers, order)| && OrderedParts(layers, order)[p] == text
    ensures p == |OrderedParts(layers, order[..i])|
  {
    if i == 0 {
      p := 0;
    } else {
      p := PartOf(layers, order[1..], i - 1, text);
      assert order[1..][..i - 1] == order[..i][1..] && order[..i][0] == order[0];
      var first := Get(layers, order[0]);
      if first.Some? && !Blank(first.value) {
        p := p + 1;
      }
    }
  }

  lemma {:induction false} PrefixHasFewer(layers: Layers, order: seq<string>, i: nat)
    requires i <= |order|
    ensures OrderedParts(layers, order[..i]) <= OrderedParts(layers, order)
  {
    if i > 0 {
      assert order[..i][1..] == order[1..][..i - 1];
      PrefixHasFewer(layers, order[1..], i - 1);
    }
  }

  /** Its part comes after the parts of all names before it. */
  lemma PartAfter(layers: Layers, order: seq<string>, i: nat, j: nat, text: string) returns (p: nat)
    requires i < j < |order| && Shows(layers, order[i], text)
    ensures p < |OrderedParts(layers, order[..j])| <= |OrderedParts(layers, order)|
    ensures OrderedParts(layers, order)[p] == text
  {
    p := PartOf(layers, order[..j], i, text);
    PrefixHasFewer(layers, order, j);
  }

  /** In the message, layers of these names stand in this order. */
  lemma JoinInOrder(layers: Layers, i: nat, j: nat, text: string, later: string)
    returns (before: string, between: string, after: string)
    requires i < j < 15
    requires var order := ["brief", "step", "binding", "worker_json", "tools", "path", "intent", "task_query", "notes",
                           "memory", "evidence", "prior_results", "resources", "extra", "recovery"];
             Shows(layers, order[i], text) && Shows(layers, order[j], later)
    ensures Join(layers) == before + text + between + later + after
  {
    var ordered, others := OrderedParts(layers, JOIN_ORDER), OtherParts(layers, JOIN_ORDER);
    var p := PartAfter(layers, JOIN_ORDER, i, j, text);
    var q := PartOf(layers, JOIN_ORDER, j, later);
    before, between, after := LinesInOrder(ordered + others, p, q);
  }

  lemma {:induction false} OtherPart(layers: Layers, order: seq<string>, k: nat) returns (p: nat)
    requires k < |layers| && layers[k].name !in order && !Blank(layers[k].text)
    ensures p < |OtherParts(layers, order)| && OtherParts(layers, order)[p] == layers[k].text
    ensures p == |OtherParts(layers[..k], order)|
  {
    if k == |layers| - 1 {
      p := |OtherParts(layers[..k], order)|;
    } else {
      p := OtherPart(layers[..|layers| - 1], order, k);
      assert layers[..|layers| - 1][..k] == layers[..k];
    }
  }

  lemma {:induction false} PrefixHasFewerOthers(layers: Layers, order: seq<string>, k: nat)
    requires k <= |layers|
    ensures OtherParts(layers[..k], order) <= OtherParts(layers, order)
  {
    if k == |layers| {
      assert layers[..k] == layers;
    } else {
      assert layers[..|layers| - 1][..k] == layers[..k];
      PrefixHasFewerOthers(layers[..|layers| - 1], order, k);
    }
  }

  /** A layer of no such name stands after those that have one ... */
  lemma OthersJoinLast(layers: Layers, i: nat, k: nat, text: string)
    returns (before: string, between: string, after: string)
    requires k < |layers| && layers[k].name !in JOIN_ORDER && !Blank(layers[k].text)
    requires i < |JOIN_ORDER| && Shows(layers, JOIN_ORDER[i], text)
    ensures Join(layers) == before + text + between + layers[k].text + after
  {
    var ordered, others := OrderedParts(layers, JOIN_ORDER), OtherParts(layers, JOIN_ORDER);
    var p := PartOf(layers, JOIN_ORDER, i, text);
    var q := OtherPart(layers, JOIN_ORDER, k);
    before, between, after := LinesInOrder(ordered + others, p, |ordered| + q);
  }

  /** ... and after the layers of no such name entered before it. */
  lemma OthersJoinAsEntered(layers: Layers, i: nat, k: nat)
    returns (before: string, between: string, after: string)
    requires i < k < |layers|
    requires layers[i].name !in JOIN_ORDER && !Blank(layers[i].text)
    requires layers[k].name !in JOIN_ORDER && !Blank(layers[k].text)
    ensures Join(layers) == before + layers[i].text + between + layers[k].text + after
  {
    var ordered := OrderedParts(layers, JOIN_ORDER);
    before, between, after := OthersAsEntered(ordered, layers, JOIN_ORDER, i, k);
  }

  lemma OthersAsEntered(ordered: seq<string>, layers: Layers, order: seq<string>, i: nat, k: nat)
    returns (before: string, between: string, after: string)
    requires i < k < |layers|
    requires layers[i].name !in order && !Blank(layers[i].text)
    requires layers[k].name !in order && !Blank(layers[k].text)
    ensures Lines(ordered + OtherParts(layers, order))
         == before + layers[i].text + between + layers[k].text + after
  {
    assert layers[..k][i] == layers[i];
    var p := OtherPart(layers[..k], order, i);
    PrefixHasFewerOthers(layers, order, k);
    var q := OtherPart(layers, order, k);
    before, between, after := LinesInOrder(ordered + OtherParts(layers, order), |ordered| + p, |ordered| + q);
  }
}

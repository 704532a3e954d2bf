/** Citation numbers and the reference block of `app/agent/harness/citations.py`.
    The hash that names a source without a canonical id is a parameter; the
    citation markers found in the text are given as the set of their numbers. */
module Citations {
  import opened Common
  import opened Sorting

  datatype Source = Source(id: string, canonical: string, locator: string, title: string, tier: string)

  type Hash = (string, string) -> string

  /** A source with its canonical id filled in. */
  function Named(hash: Hash, s: Source): Source {
    if s.canonical != "" then s else s.(canonical := hash(s.locator, s.title))
  }

  function NamedAll(hash: Hash, sources: seq<Source>): seq<Source> {
    seq(|sources|, i requires 0 <= i < |sources| => Named(hash, sources[i]))
  }

  /** A missing canonical id is the hash of locator and title, a given one is kept,
      and nothing else changes. */
  lemma NamedIs(hash: Hash, sources: seq<Source>, i: nat)
    requires i < |sources|
    ensures var s, t := sources[i], NamedAll(hash, sources)[i];
            && |NamedAll(hash, sources)| == |sources|
            && t.id == s.id && t.locator == s.locator && t.title == s.title && t.tier == s.tier
            && t.canonical == if |s.canonical| > 0 then s.canonical else hash(s.locator, s.title)
  {
  }

  // --------------------------------------------------------------- numbers

  /** Canonical id to citation number, in one pass. */
  function Numbers(sources: seq<Source>): map<string, nat> {
    if |sources| == 0 then map[]
    else
      var m := Numbers(sources[..|sources| - 1]);
      var c := sources[|sources| - 1].canonical;
      if c in m then m else m[c := |m| + 1]
  }

  /** The canonical ids in order of first occurrence. */
  function FirstOccurrences(sources: seq<Source>): seq<string> {
    if |sources| == 0 then []
    else
      var order := FirstOccurrences(sources[..|sources| - 1]);
      var c := sources[|sources| - 1].canonical;
      if c in order then order else order + [c]
  }

  predicate Distinct(ids: seq<string>) {
    forall i, j :: 0 <= i < j < |ids| ==> ids[i] != ids[j]
  }

  lemma {:induction false} FirstOccurrencesAre(sources: seq<Source>)
    ensures Distinct(FirstOccurrences(sources))
    ensures forall s :: s in sources ==> s.canonical in FirstOccurrences(sources)
    ensures forall c :: c in FirstOccurrences(sources) ==> exists s :: s in sources && s.canonical == c
  {
    if |sources| > 0 {
      var rest, last := sources[..|sources| - 1], sources[|sources| - 1];
      FirstOccurrencesAre(rest);
      assert sources == rest + [last];
      forall c | c in FirstOccurrences(sources)
        ensures exists s :: s in sources && s.canonical == c
      {
        if c in FirstOccurrences(rest) {
          var s :| s in rest && s.canonical == c;
          assert s in sources;
        } else {
          assert last in sources;
        }
      }
    }
  }

  /** Numbers are 1, 2, ..., n in order of first occurrence. */
  lemma {:induction false} NumbersFollowFirstOccurrence(sources: seq<Source>)
    ensures forall c :: c in Numbers(sources) <==> c in FirstOccurrences(sources)
    ensures |Numbers(sources)| == |FirstOccurrences(sources)|
    ensures var ids := FirstOccurrences(sources);
            forall k :: 0 <= k < |ids| ==> ids[k] in Numbers(sources) && Numbers(sources)[ids[k]] == k + 1
  {
    if |sources| > 0 {
      NumbersFollowFirstOccurrence(sources[..|sources| - 1]);
    }
  }

  function NumberOf(sources: seq<Source>, s: Source): nat {
    var m := Numbers(sources);
    if s.canonical in m then m[s.canonical] else 0
  }

  /** The number of a source is the position of its canonical id. */
  lemma NumberIsPosition(sources: seq<Source>, s: Source) returns (k: nat)
    requires s in sources
    ensures k < |FirstOccurrences(sources)| && FirstOccurrences(sources)[k] == s.canonical
    ensures NumberOf(sources, s) == k + 1 && |Numbers(sources)| == |FirstOccurrences(sources)|
  {
    FirstOccurrencesAre(sources);
    NumbersFollowFirstOccurrence(sources);
    k :| 0 <= k < |FirstOccurrences(sources)| && FirstOccurrences(sources)[k] == s.canonical;
  }

  /** Two sources share a number if and only if they share a canonical id; every
      number lies between 1 and n. */
  lemma NumbersIdentifySources(sources: seq<Source>, s: Source, t: Source)
    requires s in sources && t in sources
    ensures NumberOf(sources, s) == NumberOf(sources, t) <==> s.canonical == t.canonical
    ensures 1 <= NumberOf(sources, s) <= |Numbers(sources)|
  {
    var k := NumberIsPosition(sources, s);
    var j := NumberIsPosition(sources, t);
    FirstOccurrencesAre(sources);
  }

  /** Every number between 1 and n is some source's number. */
  lemma EveryNumberIsUsed(sources: seq<Source>, n: nat) returns (s: Source)
    requires 1 <= n <= |Numbers(sources)|
    ensures s in sources && NumberOf(sources, s) == n
  {
    FirstOccurrencesAre(sources);
    NumbersFollowFirstOccurrence(sources);
    var c := FirstOccurrences(sources)[n - 1];
    assert c in FirstOccurrences(sources);
    s :| s in sources && s.canonical == c;
  }

  // ------------------------------------------------------- reference block

  function Rank(tier: string): nat {
    if tier == "PRIMARY" then 4
    else if tier == "HIGH_QUALITY_SECONDARY" then 3
    else if tier == "COMMUNITY" then 2
    else if tier == "UNKNOWN" then 1
    else 0
  }

  function WithCanonical(canonical: string): Source -> bool { (s: Source) => s.canonical == canonical }

  function BestIndex(best: seq<Source>, canonical: string): (i: nat)
    ensures i <= |best|
    ensures i < |best| ==> best[i].canonical == canonical
  {
    FirstIndexIsFirst(best, WithCanonical(canonical));
    FirstIndex(best, WithCanonical(canonical))
  }

  /** The best source per canonical id, among the selected ones so far. */
  function Improve(best: seq<Source>, s: Source): seq<Source> {
    var i := BestIndex(best, s.canonical);
    if i == |best| then best + [s]
    else if Rank(s.tier) > Rank(best[i].tier) then best[i := s]
    else best
  }

  function Selected(sources: seq<Source>, ids: set<string>): seq<Source> {
    if |sources| == 0 then []
    else
      var last := sources[|sources| - 1];
      Selected(sources[..|sources| - 1], ids) + (if last.id in ids then [last] else [])
  }

  function BestOf(chosen: seq<Source>): seq<Source> {
    if |chosen| == 0 then [] else Improve(BestOf(chosen[..|chosen| - 1]), chosen[|chosen| - 1])
  }

  function ByNumber(sources: seq<Source>): Source -> int {
    (s: Source) => NumberOf(sources, s)
  }

  /** The sources of the reference block, in the order of its lines. */
  function References(sources: seq<Source>, ids: set<string>): seq<Source> {
    StableSort(BestOf(Selected(sources, ids)), ByNumber(sources))
  }

  lemma {:induction false} SelectedMembers(sources: seq<Source>, ids: set<string>)
    ensures forall s :: s in Selected(sources, ids) <==> s in sources && s.id in ids
  {
    if |sources| > 0 {
      SelectedMembers(sources[..|sources| - 1], ids);
      assert sources == sources[..|sources| - 1] + [sources[|sources| - 1]];
    }
  }

  predicate OnePerCanonical(best: seq<Source>) {
    forall i, j :: 0 <= i < j < |best| ==> best[i].canonical != best[j].canonical
  }

  lemma BestIndexSpec(best: seq<Source>, canonical: string)
    ensures BestIndex(best, canonical) == |best| ==> forall i :: 0 <= i < |best| ==> best[i].canonical != canonical
  {
    FirstIndexIsFirst(best, WithCanonical(canonical));
  }

  /** One chosen source per canonical id ... */
  lemma {:induction false} BestOfIsChosen(chosen: seq<Source>)
    ensures OnePerCanonical(BestOf(chosen))
    ensures forall s :: s in BestOf(chosen) ==> s in chosen
  {
    if |chosen| > 0 {
      var rest, s := chosen[..|chosen| - 1], chosen[|chosen| - 1];
      BestOfIsChosen(rest);
      assert chosen == rest + [s];
      BestIndexSpec(BestOf(rest), s.canonical);
    }
  }

  /** ... that none of the others outranks. */
  ghost predicate Covered(best: seq<Source>, s: Source) {
    exists i :: 0 <= i < |best| && best[i].canonical == s.canonical && Rank(s.tier) <= Rank(best[i].tier)
  }

  lemma {:induction false} BestCovers(chosen: seq<Source>, s: Source)
    requires s in chosen
    ensures Covered(BestOf(chosen), s)
  {
    var rest, last := chosen[..|chosen| - 1], chosen[|chosen| - 1];
    assert chosen == rest + [last];
    if s in rest {
      BestCovers(rest, s);
      ImproveKeeps(BestOf(rest), last, s);
    } else {
      ImproveCovers(BestOf(rest), last);
    }
  }

  lemma ImproveKeeps(best: seq<Source>, s: Source, t: Source)
    requires Covered(best, t)
    ensures Covered(Improve(best, s), t)
  {
    var i :| 0 <= i < |best| && best[i].canonical == t.canonical && Rank(t.tier) <= Rank(best[i].tier);
    var r := Improve(best, s);
    assert r[i].canonical == t.canonical && Rank(t.tier) <= Rank(r[i].tier);
  }

  lemma ImproveCovers(best: seq<Source>, s: Source)
    ensures Covered(Improve(best, s), s)
  {
    var i, r := BestIndex(best, s.canonical), Improve(best, s);
    assert r[i].canonical == s.canonical && Rank(s.tier) <= Rank(r[i].tier);
  }

  /** The reference block shows selected sources only. */
  lemma ShownIsSelected(sources: seq<Source>, ids: set<string>, b: Source)
    requires b in References(sources, ids)
    ensures b in sources && b.id in ids
  {
    var chosen := Selected(sources, ids);
    SortMembers(BestOf(chosen), ByNumber(sources));
    BestOfIsChosen(chosen);
    SelectedMembers(sources, ids);
  }

  /** For every selected source it shows one of the same canonical id that the
      source does not outrank. */
  lemma SelectedIsCovered(sources: seq<Source>, ids: set<string>, s: Source) returns (b: Source)
    requires s in sources && s.id in ids
    ensures b in References(sources, ids) && b.canonical == s.canonical && Rank(s.tier) <= Rank(b.tier)
  {
    var chosen := Selected(sources, ids);
    SelectedMembers(sources, ids);
    BestCovers(chosen, s);
    var best := BestOf(chosen);
    var i :| 0 <= i < |best| && best[i].canonical == s.canonical && Rank(s.tier) <= Rank(best[i].tier);
    b := best[i];
    SortMembers(BestOf(chosen), ByNumber(sources));
  }

  /** The tiers, best first. */
  const TIERS: seq<string> := ["PRIMARY", "HIGH_QUALITY_SECONDARY", "COMMUNITY", "UNKNOWN"]

  /** Position of the tier among the known ones; unknown names come last. */
  function Place(tier: string): (k: nat)
    ensures k <= 4
    ensures k < 4 ==> TIERS[k] == tier
    ensures k == 4 ==> tier !in TIERS
  {
    if tier == TIERS[0] then 0
    else if tier == TIERS[1] then 1
    else if tier == TIERS[2] then 2
    else if tier == TIERS[3] then 3
    else 4
  }

  predicate Better(s: Source, t: Source) { Place(s.tier) < Place(t.tier) }

  lemma RankIsPlace(s: Source, t: Source)
    ensures Rank(s.tier) > Rank(t.tier) <==> Better(s, t)
  {
  }

  /** Source `i` is selected, no selected source of its canonical id is better, and
      every such source before it is worse. */
  ghost predicate FirstOfBestTier(sources: seq<Source>, ids: set<string>, i: nat) {
    && i < |sources| && sources[i].id in ids
    && forall j :: 0 <= j < |sources| && sources[j].id in ids && sources[j].canonical == sources[i].canonical ==>
         !Better(sources[j], sources[i]) && (j < i ==> Better(sources[i], sources[j]))
  }

  ghost predicate IsFirstOfBestTier(sources: seq<Source>, ids: set<string>, b: Source) {
    exists i: nat :: FirstOfBestTier(sources, ids, i) && sources[i] == b
  }

  /** One more source leaves the first of the best tier of another canonical id, and
      of its own unless it is better. */
  lemma OneMoreSource(rest: seq<Source>, last: Source, ids: set<string>, b: Source)
    requires IsFirstOfBestTier(rest, ids, b)
    requires last.id !in ids || last.canonical != b.canonical || !Better(last, b)
    ensures IsFirstOfBestTier(rest + [last], ids, b)
  {
    var i: nat :| FirstOfBestTier(rest, ids, i) && rest[i] == b;
    var all := rest + [last];
    forall j | 0 <= j < |all| && all[j].id in ids && all[j].canonical == b.canonical
      ensures !Better(all[j], b) && (j < i ==> Better(b, all[j]))
    {
      if j < |rest| {
        assert all[j] == rest[j];
      }
    }
    assert FirstOfBestTier(all, ids, i) && all[i] == b;
  }

  /** A source that is better than the best so far, or the first of its canonical
      id, is the first of its tier. */
  lemma BetterSource(rest: seq<Source>, last: Source, ids: set<string>, b: Source)
    requires last.id in ids
    requires IsFirstOfBestTier(rest, ids, b) && b.canonical == last.canonical && Better(last, b)
    ensures IsFirstOfBestTier(rest + [last], ids, last)
  {
    var i: nat :| FirstOfBestTier(rest, ids, i) && rest[i] == b;
    var all := rest + [last];
    forall j | 0 <= j < |all| && all[j].id in ids && all[j].canonical == last.canonical
      ensures !Better(all[j], last) && (j < |rest| ==> Better(last, all[j]))
    {
      if j < |rest| {
        assert all[j] == rest[j];
      }
    }
    assert FirstOfBestTier(all, ids, |rest|) && all[|rest|] == last;
  }

  lemma NewSource(rest: seq<Source>, last: Source, ids: set<string>)
    requires last.id in ids
    requires forall j :: 0 <= j < |rest| && rest[j].id in ids ==> rest[j].canonical != last.canonical
    ensures IsFirstOfBestTier(rest + [last], ids, last)
  {
    var all := rest + [last];
    assert forall j :: 0 <= j < |rest| ==> all[j] == rest[j];
    assert FirstOfBestTier(all, ids, |rest|) && all[|rest|] == last;
  }

  lemma {:induction false} BestIsFirst(sources: seq<Source>, ids: set<string>, b: Source)
    requires b in BestOf(Selected(sources, ids))
    ensures IsFirstOfBestTier(sources, ids, b)
    decreases |sources|, 0
  {
    if |sources| > 0 {
      var rest, last := sources[..|sources| - 1], sources[|sources| - 1];
      assert sources == rest + [last];
      if last.id in ids {
        BestIsFirstStep(rest, last, ids, b);
      } else {
        assert Selected(sources, ids) == Selected(rest, ids);
        BestIsFirst(rest, ids, b);
        OneMoreSource(rest, last, ids, b);
      }
    }
  }

  lemma {:induction false} BestIsFirstStep(rest: seq<Source>, last: Source, ids: set<string>, b: Source)
    requires last.id in ids && b in BestOf(Selected(rest + [last], ids))
    ensures IsFirstOfBestTier(rest + [last], ids, b)
    decreases |rest|, 1
  {
    var chosen := Selected(rest, ids);
    assert (rest + [last])[..|rest|] == rest && (chosen + [last])[..|chosen|] == chosen;
    var best := BestOf(chosen);
    var i := BestIndex(best, last.canonical);
    assert b in Improve(best, last);
    BestIndexSpec(best, last.canonical);
    if b == last && i == |best| {
      NoneChosenBefore(rest, last, ids);
      NewSource(rest, last, ids);
    } else if i < |best| && b == last && b !in best {
      BestIsFirst(rest, ids, best[i]);
      RankIsPlace(last, best[i]);
      BetterSource(rest, last, ids, best[i]);
    } else {
      BestIsFirst(rest, ids, b);
      BestOfIsChosen(chosen);
      RankIsPlace(last, b);
      OneMoreSource(rest, last, ids, b);
    }
  }

  lemma NoneChosenBefore(rest: seq<Source>, last: Source, ids: set<string>)
    requires forall i :: 0 <= i < |BestOf(Selected(rest, ids))| ==>
               BestOf(Selected(rest, ids))[i].canonical != last.canonical
    ensures forall j :: 0 <= j < |rest| && rest[j].id in ids ==> rest[j].canonical != last.canonical
  {
    forall j | 0 <= j < |rest| && rest[j].id in ids
      ensures rest[j].canonical != last.canonical
    {
      SelectedMembers(rest, ids);
      BestCovers(Selected(rest, ids), rest[j]);
    }
  }

  /** The source a line shows is the first of the best tier among the selected
      sources of its canonical id. */
  lemma ShownIsFirstOfBestTier(sources: seq<Source>, ids: set<string>, b: Source)
    requires b in References(sources, ids)
    ensures IsFirstOfBestTier(sources, ids, b)
  {
    SortMembers(BestOf(Selected(sources, ids)), ByNumber(sources));
    BestIsFirst(sources, ids, b);
  }

  /** Its numbers ascend, each listed once. */
  lemma ReferencesAscend(sources: seq<Source>, ids: set<string>, i: nat, j: nat)
    requires i < j < |References(sources, ids)|
    ensures NumberOf(sources, References(sources, ids)[i]) < NumberOf(sources, References(sources, ids)[j])
  {
    var best, lines := BestOf(Selected(sources, ids)), References(sources, ids);
    ShownIsSelected(sources, ids, lines[i]);
    ShownIsSelected(sources, ids, lines[j]);
    BestOfIsChosen(Selected(sources, ids));
    SortSorted(best, ByNumber(sources));
    SortOnePerCanonical(best, ByNumber(sources));
    assert lines[i] in lines && lines[j] in lines;
    assert ByNumber(sources)(lines[i]) <= ByNumber(sources)(lines[j]);
    NumbersIdentifySources(sources, lines[i], lines[j]);
  }

  lemma {:induction false} SortOnePerCanonical(best: seq<Source>, key: Source -> int)
    requires OnePerCanonical(best)
    ensures OnePerCanonical(StableSort(best, key))
  {
    if |best| > 0 {
      var rest := best[..|best| - 1];
      SortOnePerCanonical(rest, key);
      SortMembers(rest, key);
      InsertOnePerCanonical(StableSort(rest, key), best[|best| - 1], key);
    }
  }

  lemma {:induction false} InsertOnePerCanonical(best: seq<Source>, x: Source, key: Source -> int)
    requires OnePerCanonical(best) && forall s :: s in best ==> s.canonical != x.canonical
    ensures OnePerCanonical(Insert(best, x, key))
  {
    if |best| > 0 && key(best[|best| - 1]) > key(x) {
      var rest, last := best[..|best| - 1], best[|best| - 1];
      InsertOnePerCanonical(rest, x, key);
      InsertMembers(rest, x, key);
      var put := Insert(rest, x, key);
      forall i | 0 <= i < |put|
        ensures put[i].canonical != last.canonical
      {
        assert put[i] in put;
      }
    }
  }

  // -------------------------------------------------------- cited report

  /** `source_number_map`: runtime id to number; the last source of an id wins. */
  function IdNumbers(all: seq<Source>, sources: seq<Source>): map<string, nat> {
    if |sources| == 0 then map[]
    else
      var last := sources[|sources| - 1];
      IdNumbers(all, sources[..|sources| - 1])[last.id := NumberOf(all, last)]
  }

  /** `number_to_id` of `build_cited_report`: for each number the last source
      whose id stands for it. */
  function NumberIds(idNumbers: map<string, nat>, sources: seq<Source>): map<nat, string> {
    if |sources| == 0 then map[]
    else
      var last := sources[|sources| - 1];
      var m := NumberIds(idNumbers, sources[..|sources| - 1]);
      if last.id in idNumbers then m[idNumbers[last.id] := last.id] else m
  }

  function NumberToId(sources: seq<Source>): map<nat, string> {
    NumberIds(IdNumbers(sources, sources), sources)
  }

  function UsedIds(sources: seq<Source>, cited: set<nat>): set<string> {
    var m := NumberToId(sources);
    set n | n in cited && n in m :: m[n]
  }

  /** The reference block of a cited report. */
  function CitedReferences(sources: seq<Source>, cited: set<nat>): seq<Source> {
    References(sources, UsedIds(sources, cited))
  }

  /** Number `n` is listed by the block. */
  predicate Lists(sources: seq<Source>, lines: seq<Source>, n: nat) {
    exists s :: s in lines && NumberOf(sources, s) == n
  }

  // ------------------------------------------- which id stands for a number

  /** The number of the last source with this id. */
  function LastNumber(all: seq<Source>, sources: seq<Source>, id: string): nat {
    if |sources| == 0 then 0
    else
      var last := sources[|sources| - 1];
      if last.id == id then NumberOf(all, last) else LastNumber(all, sources[..|sources| - 1], id)
  }

  /** Source `i` is the last one whose id goes by number `n`. */
  predicate StandsFor(sources: seq<Source>, i: nat, n: nat)
    requires i < |sources|
  {
    && LastNumber(sources, sources, sources[i].id) == n
    && forall j :: i < j < |sources| ==> LastNumber(sources, sources, sources[j].id) != n
  }

  lemma {:induction false} IdNumbersAreLast(all: seq<Source>, sources: seq<Source>, i: nat)
    requires i < |sources|
    ensures var id := sources[i].id;
            id in IdNumbers(all, sources) && IdNumbers(all, sources)[id] == LastNumber(all, sources, id)
  {
    if sources[|sources| - 1].id != sources[i].id {
      IdNumbersAreLast(all, sources[..|sources| - 1], i);
    }
  }

  /** The id the dictionary keeps for `n` is that of the last source entered. */
  lemma {:induction false} NumberIdsLast(idNumbers: map<string, nat>, sources: seq<Source>, n: nat) returns (i: nat)
    requires forall s :: s in sources ==> s.id in idNumbers
    requires n in NumberIds(idNumbers, sources)
    ensures i < |sources| && sources[i].id == NumberIds(idNumbers, sources)[n] && idNumbers[sources[i].id] == n
    ensures forall j :: i < j < |sources| ==> idNumbers[sources[j].id] != n
  {
    var rest, last := sources[..|sources| - 1], sources[|sources| - 1];
    assert last in sources;
    if idNumbers[last.id] == n {
      i := |sources| - 1;
    } else {
      assert forall s :: s in rest ==> s in sources;
      i := NumberIdsLast(idNumbers, rest, n);
    }
  }

  lemma {:induction false} NumberIdsEnter(idNumbers: map<string, nat>, sources: seq<Source>, i: nat)
    requires i < |sources| && sources[i].id in idNumbers
    ensures idNumbers[sources[i].id] in NumberIds(idNumbers, sources)
  {
    if i < |sources| - 1 {
      NumberIdsEnter(idNumbers, sources[..|sources| - 1], i);
    }
  }

  lemma NumberToIdStands(sources: seq<Source>, n: nat) returns (i: nat)
    requires n in NumberToId(sources)
    ensures i < |sources| && StandsFor(sources, i, n) && sources[i].id == NumberToId(sources)[n]
  {
    forall j | 0 <= j < |sources|
      ensures sources[j].id in IdNumbers(sources, sources)
      ensures IdNumbers(sources, sources)[sources[j].id] == LastNumber(sources, sources, sources[j].id)
    {
      IdNumbersAreLast(sources, sources, j);
    }
    i := NumberIdsLast(IdNumbers(sources, sources), sources, n);
  }

  lemma StandingIsInDictionary(sources: seq<Source>, i: nat, n: nat)
    requires i < |sources| && StandsFor(sources, i, n)
    ensures n in NumberToId(sources) && NumberToId(sources)[n] == sources[i].id
  {
    IdNumbersAreLast(sources, sources, i);
    NumberIdsEnter(IdNumbers(sources, sources), sources, i);
    var k := NumberToIdStands(sources, n);
    OneStandsFor(sources, i, k, n);
  }

  lemma OneStandsFor(sources: seq<Source>, i: nat, k: nat, n: nat)
    requires i < |sources| && k < |sources| && StandsFor(sources, i, n) && StandsFor(sources, k, n)
    ensures i == k
  {
  }

  /** Sources with this id have number `n` only. */
  predicate OneNumber(sources: seq<Source>, id: string, n: nat) {
    forall s :: s in sources && s.id == id ==> NumberOf(sources, s) == n
  }

  /** The last source that goes by number `n` has an id of that number only. */
  predicate Representable(sources: seq<Source>, n: nat) {
    exists i :: 0 <= i < |sources| && StandsFor(sources, i, n) && OneNumber(sources, sources[i].id, n)
  }

  /** The same, said of the dictionary. */
  lemma RepresentableIs(sources: seq<Source>, n: nat)
    ensures Representable(sources, n)
       <==> n in NumberToId(sources) && OneNumber(sources, NumberToId(sources)[n], n)
  {
    if i :| 0 <= i < |sources| && StandsFor(sources, i, n) && OneNumber(sources, sources[i].id, n) {
      StandingIsInDictionary(sources, i, n);
    }
    if n in NumberToId(sources) && OneNumber(sources, NumberToId(sources)[n], n) {
      var i := NumberToIdStands(sources, n);
    }
  }

  lemma {:induction false} NumberIdsAre(idNumbers: map<string, nat>, sources: seq<Source>, n: nat)
    requires n in NumberIds(idNumbers, sources)
    ensures exists s :: s in sources && s.id == NumberIds(idNumbers, sources)[n]
    ensures NumberIds(idNumbers, sources)[n] in idNumbers && idNumbers[NumberIds(idNumbers, sources)[n]] == n
  {
    var last := sources[|sources| - 1];
    assert last in sources;
    if !(last.id in idNumbers && idNumbers[last.id] == n) {
      NumberIdsAre(idNumbers, sources[..|sources| - 1], n);
      var s :| s in sources[..|sources| - 1] && s.id == NumberIds(idNumbers, sources)[n];
      assert s in sources;
    }
  }

  lemma {:induction false} IdNumbersAre(all: seq<Source>, sources: seq<Source>, id: string)
    ensures id in IdNumbers(all, sources) <==> exists s :: s in sources && s.id == id
    ensures id in IdNumbers(all, sources) ==>
              exists s :: s in sources && s.id == id && NumberOf(all, s) == IdNumbers(all, sources)[id]
  {
    if |sources| > 0 {
      var rest, last := sources[..|sources| - 1], sources[|sources| - 1];
      IdNumbersAre(all, rest, id);
      assert sources == rest + [last] && last in sources;
      assert forall s :: s in rest ==> s in sources;
    }
  }

  /** The block lists exactly the numbers of the sources whose id is used. */
  lemma ListsUsedSources(sources: seq<Source>, ids: set<string>, n: nat)
    ensures Lists(sources, References(sources, ids), n)
       <==> exists s :: s in sources && s.id in ids && NumberOf(sources, s) == n
  {
    if s :| s in sources && s.id in ids && NumberOf(sources, s) == n {
      var b := SelectedIsCovered(sources, ids, s);
    }
    if b :| b in References(sources, ids) && NumberOf(sources, b) == n {
      ShownIsSelected(sources, ids, b);
    }
  }

  /** The id that stands for a number is the id of a source. */
  lemma NumberToIdIs(sources: seq<Source>, n: nat) returns (s: Source, t: Source)
    requires n in NumberToId(sources)
    ensures s in sources && s.id == NumberToId(sources)[n]
    ensures t in sources && t.id == NumberToId(sources)[n] && NumberOf(sources, t) == n
  {
    NumberIdsAre(IdNumbers(sources, sources), sources, n);
    var id := NumberToId(sources)[n];
    IdNumbersAre(sources, sources, id);
    s :| s in sources && s.id == id;
    t :| t in sources && t.id == id && NumberOf(sources, t) == n;
  }

  lemma ListedIsCited(sources: seq<Source>, cited: set<nat>, s: Source)
    requires forall k :: 1 <= k <= |Numbers(sources)| ==> Representable(sources, k)
    requires s in sources && s.id in UsedIds(sources, cited)
    ensures NumberOf(sources, s) in cited && 1 <= NumberOf(sources, s) <= |Numbers(sources)|
  {
    NumbersIdentifySources(sources, s, s);
    var k :| k in cited && k in NumberToId(sources) && NumberToId(sources)[k] == s.id;
    var _, t := NumberToIdIs(sources, k);
    NumbersIdentifySources(sources, t, t);
    assert Representable(sources, k);
    RepresentableIs(sources, k);
  }

  /** One number: the block for any cited set lists it as it should. */
  lemma RepresentableIsListed(sources: seq<Source>, cited: set<nat>, n: nat)
    requires forall k :: 1 <= k <= |Numbers(sources)| ==> Representable(sources, k)
    ensures Lists(sources, CitedReferences(sources, cited), n) <==> n in cited && 1 <= n <= |Numbers(sources)|
  {
    var ids := UsedIds(sources, cited);
    if n in cited && 1 <= n <= |Numbers(sources)| {
      assert Representable(sources, n);
      RepresentableIs(sources, n);
      var s, t := NumberToIdIs(sources, n);
      assert t.id in ids;
    }
    if s :| s in sources && s.id in ids && NumberOf(sources, s) == n {
      ListedIsCited(sources, cited, s);
    }
    ListsUsedSources(sources, ids, n);
  }

  /** Citing one number alone shows whether it is representable. */
  lemma ListedAloneIsRepresentable(sources: seq<Source>, n: nat)
    requires forall k :: Lists(sources, CitedReferences(sources, {n}), k) <==> k == n
    ensures Representable(sources, n)
  {
    var ids, m := UsedIds(sources, {n}), NumberToId(sources);
    ListsUsedSources(sources, ids, n);
    assert Lists(sources, CitedReferences(sources, {n}), n);
    var s :| s in sources && s.id in ids && NumberOf(sources, s) == n;
    assert n in m && ids == {m[n]};
    forall t | t in sources && t.id == m[n]
      ensures NumberOf(sources, t) == n
    {
      ListsUsedSources(sources, ids, NumberOf(sources, t));
    }
    RepresentableIs(sources, n);
  }

  /** Reference closure: for every set of cited numbers the block lists exactly
      the cited numbers in range, if and only if every number is representable. */
  lemma ReferenceClosure(sources: seq<Source>)
    ensures (forall n :: 1 <= n <= |Numbers(sources)| ==> Representable(sources, n))
       <==> (forall cited: set<nat>, n: nat ::
               Lists(sources, CitedReferences(sources, cited), n) <==> n in cited && 1 <= n <= |Numbers(sources)|)
  {
    if forall n :: 1 <= n <= |Numbers(sources)| ==> Representable(sources, n) {
      forall cited: set<nat>, n: nat
        ensures Lists(sources, CitedReferences(sources, cited), n) <==> n in cited && 1 <= n <= |Numbers(sources)|
      {
        RepresentableIsListed(sources, cited, n);
      }
    } else {
      var n :| 1 <= n <= |Numbers(sources)| && !Representable(sources, n);
      if forall k :: Lists(sources, CitedReferences(sources, {n}), k) <==> k == n {
        ListedAloneIsRepresentable(sources, n);
      }
    }
  }

  // ----------------------------------------------------- one set of numbers

  /** The last source that goes by some cited number has this id. */
  predicate Selects(sources: seq<Source>, cited: set<nat>, id: string) {
    exists i, n :: 0 <= i < |sources| && n in cited && StandsFor(sources, i, n) && sources[i].id == id
  }

  lemma UsedIdsStand(sources: seq<Source>, cited: set<nat>, id: string)
    ensures id in UsedIds(sources, cited) <==> Selects(sources, cited, id)
  {
    if id in UsedIds(sources, cited) {
      var n :| n in cited && n in NumberToId(sources) && NumberToId(sources)[n] == id;
      var i := NumberToIdStands(sources, n);
    }
    if i, n :| 0 <= i < |sources| && n in cited && StandsFor(sources, i, n) && sources[i].id == id {
      StandingIsInDictionary(sources, i, n);
    }
  }

  /** The block for this set lists its numbers in range and no others. */
  ghost predicate ClosedFor(sources: seq<Source>, cited: set<nat>) {
    forall n: nat ::
      Lists(sources, CitedReferences(sources, cited), n) <==> n in cited && 1 <= n <= |Numbers(sources)|
  }

  /** Some source goes by number `n`, that is, is the last one with its id. */
  predicate HasStander(sources: seq<Source>, n: nat) {
    exists i :: 0 <= i < |sources| && StandsFor(sources, i, n)
  }

  /** A source of number `n` has an id that another cited number selects. */
  predicate Borrowed(sources: seq<Source>, cited: set<nat>, n: nat) {
    exists s :: s in sources && NumberOf(sources, s) == n && Selects(sources, cited, s.id)
  }

  /** The last source with the id of a stander has the number it stands for. */
  lemma {:induction false} LastHasNumber(all: seq<Source>, sources: seq<Source>, i: nat) returns (s: Source)
    requires i < |sources|
    ensures s in sources && s.id == sources[i].id && NumberOf(all, s) == LastNumber(all, sources, sources[i].id)
  {
    var last := sources[|sources| - 1];
    assert last in sources;
    if last.id == sources[i].id {
      s := last;
    } else {
      s := LastHasNumber(all, sources[..|sources| - 1], i);
      assert s in sources;
    }
  }

  lemma StanderIsBorrowed(sources: seq<Source>, cited: set<nat>, n: nat)
    requires n in cited && HasStander(sources, n)
    ensures Borrowed(sources, cited, n)
  {
    var i :| 0 <= i < |sources| && StandsFor(sources, i, n);
    var s := LastHasNumber(sources, sources, i);
    assert Selects(sources, cited, s.id);
  }

  lemma ListedIsBorrowed(sources: seq<Source>, cited: set<nat>, n: nat)
    ensures Lists(sources, CitedReferences(sources, cited), n) <==> Borrowed(sources, cited, n)
  {
    ListsUsedSources(sources, UsedIds(sources, cited), n);
    forall s: Source
      ensures s.id in UsedIds(sources, cited) <==> Selects(sources, cited, s.id)
    {
      UsedIdsStand(sources, cited, s.id);
    }
  }

  /** For one cited set: the block is closed if and only if every cited number in
      range has a source that goes by it, or shares an id with one that goes by
      another cited number; and no id that a cited number selects is shared with a
      source whose number is not cited. */
  lemma ClosedForIff(sources: seq<Source>, cited: set<nat>)
    ensures ClosedFor(sources, cited)
       <==> && (forall n :: n in cited && 1 <= n <= |Numbers(sources)| ==>
                  HasStander(sources, n) || Borrowed(sources, cited, n))
            && (forall s :: s in sources && Selects(sources, cited, s.id) ==> NumberOf(sources, s) in cited)
  {
    forall n: nat
      ensures Lists(sources, CitedReferences(sources, cited), n) <==> Borrowed(sources, cited, n)
      ensures n in cited && HasStander(sources, n) ==> Borrowed(sources, cited, n)
    {
      ListedIsBorrowed(sources, cited, n);
      if n in cited && HasStander(sources, n) {
        StanderIsBorrowed(sources, cited, n);
      }
    }
    forall s | s in sources
      ensures 1 <= NumberOf(sources, s) <= |Numbers(sources)|
      ensures Selects(sources, cited, s.id) ==> Borrowed(sources, cited, NumberOf(sources, s))
    {
      NumbersIdentifySources(sources, s, s);
    }
  }

  /** Sources registered under different ids, as registration does it, are all
      representable. */
  lemma DistinctIdsAreRepresentable(sources: seq<Source>, n: nat)
    requires forall s, t :: s in sources && t in sources && s.id == t.id ==> s.canonical == t.canonical
    requires 1 <= n <= |Numbers(sources)|
    ensures Representable(sources, n)
  {
    var s := EveryNumberIsUsed(sources, n);
    IdNumbersAre(sources, sources, s.id);
    NumberReached(IdNumbers(sources, sources), sources, s);
    var m := NumberToId(sources);
    assert n in m;
    NumberIdsAre(IdNumbers(sources, sources), sources, n);
    IdNumbersAre(sources, sources, m[n]);
    forall t | t in sources && t.id == m[n]
      ensures NumberOf(sources, t) == n
    {
      var u :| u in sources && u.id == m[n] && NumberOf(sources, u) == n;
      NumbersIdentifySources(sources, t, u);
    }
    RepresentableIs(sources, n);
  }

  lemma {:induction false} NumberReached(idNumbers: map<string, nat>, sources: seq<Source>, s: Source)
    requires s in sources && s.id in idNumbers
    ensures idNumbers[s.id] in NumberIds(idNumbers, sources)
  {
    var rest, last := sources[..|sources| - 1], sources[|sources| - 1];
    assert sources == rest + [last];
    if s in rest {
      NumberReached(idNumbers, rest, s);
    }
  }

  /** Two sources under one id break it: the first number is in range, but its
      citation finds no entry. */
  lemma SharedIdLosesAReference(id: string, a: string, b: string)
    requires a != b
    ensures var sources := [Source(id, a, "", "", ""), Source(id, b, "", "", "")];
            && |Numbers(sources)| == 2 && CitedReferences(sources, {1}) == []
  {
    var x, y := Source(id, a, "", "", ""), Source(id, b, "", "", "");
    var sources := [x, y];
    assert sources[..1] == [x] && [x][..0] == [];
    assert Numbers([x]) == map[a := 1];
    assert Numbers(sources) == map[a := 1, b := 2];
    assert IdNumbers(sources, [x]) == map[id := 1];
    assert IdNumbers(sources, sources) == map[id := 2];
    assert NumberIds(map[id := 2], [x]) == map[2 := id];
    assert NumberToId(sources) == map[2 := id];
    assert UsedIds(sources, {1}) == {};
    assert Selected([x], {}) == [] && Selected(sources, {}) == [];
  }
}

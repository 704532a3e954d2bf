/** The citation collector as an object: numbering fills in missing canonical
    ids in place, and the reference block is built from loops over dictionaries. */
module CitationTracker {
  import opened Common
  import opened Sorting
  import opened Citations

  lemma {:induction false} NamedKeepsIds(hash: Hash, sources: seq<Source>, ids: set<string>)
    ensures Selected(sources, ids) == [] ==> Selected(NamedAll(hash, sources), ids) == []
  {
    if |sources| > 0 {
      var rest := sources[..|sources| - 1];
      NamedKeepsIds(hash, rest, ids);
      assert NamedAll(hash, sources)[..|sources| - 1] == NamedAll(hash, rest);
    }
  }

  lemma NamedTwice(hash: Hash, sources: seq<Source>)
    requires forall l, t :: hash(l, t) != ""
    ensures NamedAll(hash, NamedAll(hash, sources)) == NamedAll(hash, sources)
  {
  }

  class Tracker {
    var sources: seq<Source>
    const hash: Hash

    constructor (hash: Hash)
      ensures sources == [] && this.hash == hash
    {
      sources := [];
      this.hash := hash;
    }

    method CanonicalSourceNumberMap() returns (output: map<string, nat>)
      modifies this
      ensures sources == NamedAll(hash, old(sources)) && output == Numbers(sources)
    {
      var was, named := sources, [];
      output := map[];
      for i := 0 to |was|
        invariant named == NamedAll(hash, was[..i]) && output == Numbers(named)
      {
        var source := was[i];
        if source.canonical == "" {
          source := source.(canonical := hash(source.locator, source.title));
        }
        assert NamedAll(hash, was[..i + 1]) == named + [source];
        assert (named + [source])[..|named|] == named;
        named := named + [source];
        if source.canonical !in output {
          output := output[source.canonical := |output| + 1];
        }
      }
      assert was[..|was|] == was;
      sources := named;
    }

    method SourceNumberMap() returns (output: map<string, nat>)
      modifies this
      ensures sources == NamedAll(hash, old(sources)) && output == IdNumbers(sources, sources)
    {
      var numbers := CanonicalSourceNumberMap();
      var named := sources;
      output := map[];
      for i := 0 to |named|
        invariant sources == named && output == IdNumbers(named, named[..i])
      {
        assert named[..i + 1][..i] == named[..i];
        var s := named[i];
        var k := NumberIsPosition(named, s);
        if s.canonical in numbers {
          output := output[s.id := numbers[s.canonical]];
        }
      }
      assert named[..|named|] == named;
    }

    /** The sources behind the lines of the reference block. */
    method BuildReferences(ids: set<string>) returns (lines: seq<Source>)
      modifies this
      ensures lines == References(NamedAll(hash, old(sources)), ids)
      ensures Selected(old(sources), ids) != [] ==> sources == NamedAll(hash, old(sources))
      ensures Selected(old(sources), ids) == [] ==> sources == old(sources)
    {
      if Selected(sources, ids) == [] {
        NamedKeepsIds(hash, sources, ids);
        return [];
      }
      var numbers := CanonicalSourceNumberMap();
      var chosen := Selected(sources, ids);
      var best: seq<Source> := [];
      for i := 0 to |chosen|
        invariant best == BestOf(chosen[..i])
      {
        assert chosen[..i + 1][..i] == chosen[..i];
        var k := BestIndex(best, chosen[i].canonical);
        if k == |best| {
          best := best + [chosen[i]];
        } else if Rank(chosen[i].tier) > Rank(best[k].tier) {
          best := best[k := chosen[i]];
        }
      }
      assert chosen[..|chosen|] == chosen;
      lines := StableSort(best, ByNumber(sources));
    }

    /** The reference block for the numbers cited in a report. */
    method BuildCitedReferences(cited: set<nat>) returns (lines: seq<Source>)
      requires forall l, t :: hash(l, t) != ""
      modifies this
      ensures lines == CitedReferences(NamedAll(hash, old(sources)), cited)
      ensures sources == NamedAll(hash, old(sources))
    {
      NamedTwice(hash, sources);
      var idNumbers := SourceNumberMap();
      var named := sources;
      var numberIds: map<nat, string> := map[];
      for i := 0 to |named|
        invariant sources == named && numberIds == NumberIds(idNumbers, named[..i])
      {
        assert named[..i + 1][..i] == named[..i];
        if named[i].id in idNumbers {
          numberIds := numberIds[idNumbers[named[i].id] := named[i].id];
        }
      }
      assert named[..|named|] == named;
      var used := set n | n in cited && n in numberIds :: numberIds[n];
      lines := BuildReferences(used);
    }
  }
}

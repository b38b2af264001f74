/// The chain search engine: a copy of the dictionary reordered in place, a
/// parallel array of parent positions and three cursors that split the
/// dictionary into the discovered queue, the undecided words and the
/// eliminated words.
module WordChain {
  import opened Words
  import opened Ladders
  import opened Search

  class WordChainer {
    /** The dictionary; a search reorders it by swaps and upper-cases it in place. */
    const dict: array<Word>
    /** Parent position of every queued word; -1 stands for the start word. */
    const indexies: array<int>
    /** Queue position being expanded, or -1 while the start word is expanded. */
    var currentProcessingIndex: int
    /** Positions [yetNotInChainIndex, outOfPlayIndex) hold the undecided words. */
    var yetNotInChainIndex: int
    /** Positions from outOfPlayIndex on hold the eliminated words. */
    var outOfPlayIndex: int
    /** The dictionary the engine was built from. */
    ghost const Entries: seq<Word>

    /** The two arrays are parallel, the cursors are ordered, every queued
        word's parent lies before it, and the dictionary still holds the
        entries it was built from, up to order and upper-casing. */
    ghost predicate Valid()
      reads this, dict, indexies
    {
      && dict.Length == indexies.Length
      && -1 <= currentProcessingIndex <= yetNotInChainIndex <= outOfPlayIndex <= dict.Length
      && (forall q :: 0 <= q < yetNotInChainIndex ==> -1 <= indexies[q] < q)
      && multiset(MapUpper(dict[..])) == multiset(MapUpper(Entries))
    }

    constructor (dictionary: seq<Word>)
      ensures Valid() && fresh(dict) && fresh(indexies)
      ensures Entries == dictionary && dict[..] == dictionary
    {
      Entries := dictionary;
      dict := new Word[|dictionary|](k requires 0 <= k < |dictionary| => dictionary[k]);
      indexies := new int[|dictionary|];
      currentProcessingIndex, yetNotInChainIndex, outOfPlayIndex := 0, 0, 0;
      new;
      assert dict[..] == dictionary;
    }

    /** Whether `from` becomes `to` by changing at most one character: the
        answer is also yes for two equal words, which callers rule out. */
    method IsConvertable(from: Word, to: Word) returns (b: bool)
      ensures b <==> from == to || Convertible(from, to)
    {
      if |from| != |to| {
        return false;
      }
      var diffCount := 0;
      for i := 0 to |from|
        invariant diffCount == DiffCount(from[..i], to[..i])
        invariant diffCount <= 1
      {
        assert from[..i + 1][..i] == from[..i] && to[..i + 1][..i] == to[..i];
        if from[i] != to[i] {
          diffCount := diffCount + 1;
          if diffCount > 1 {
            DiffCountPrefix(from, to, i + 1);
            DiffCountZero(from, to);
            return false;
          }
        }
      }
      assert from[..|from|] == from && to[..|to|] == to;
      DiffCountZero(from, to);
      return true;
    }

    /** Exchanges two dictionary entries; nothing happens when they are one. */
    method Swap(i1: int, i2: int)
      requires 0 <= i1 < dict.Length && 0 <= i2 < dict.Length
      modifies dict
      ensures dict[..] == Swapped(old(dict[..]), i1, i2)
      ensures multiset(dict[..]) == multiset(old(dict[..]))
    {
      if i1 == i2 {
        return;
      }
      var tmp := dict[i1];
      dict[i1] := dict[i2];
      dict[i2] := tmp;
      SwappedKeepsWords(old(dict[..]), i1, i2);
    }

    /** Moves the undecided word at `index` into the eliminated zone, which
        grows by one position downwards. */
    method RemoveFromProcessing(index: int)
      requires 0 <= yetNotInChainIndex <= index < outOfPlayIndex <= dict.Length
      modifies this`outOfPlayIndex, dict
      ensures outOfPlayIndex == old(outOfPlayIndex) - 1
      ensures dict[outOfPlayIndex] == old(dict[index])
      ensures dict[..] == Swapped(old(dict[..]), index, outOfPlayIndex)
      ensures forall q :: 0 <= q < yetNotInChainIndex ==> dict[q] == old(dict[q])
      ensures forall q :: old(outOfPlayIndex) <= q < dict.Length ==> dict[q] == old(dict[q])
    {
      outOfPlayIndex := outOfPlayIndex - 1;
      Swap(index, outOfPlayIndex);
    }

    /** Moves the undecided word at `index` to the end of the queue, with the
        position being expanded as its parent. */
    method AddToQueue(index: int)
      requires 0 <= yetNotInChainIndex <= index < outOfPlayIndex <= dict.Length
      requires indexies.Length == dict.Length
      modifies this`yetNotInChainIndex, dict, indexies
      ensures yetNotInChainIndex == old(yetNotInChainIndex) + 1
      ensures dict[old(yetNotInChainIndex)] == old(dict[index])
      ensures dict[..] == Swapped(old(dict[..]), index, old(yetNotInChainIndex))
      ensures indexies[..] == old(indexies[..])[old(yetNotInChainIndex) := currentProcessingIndex]
      ensures forall q :: 0 <= q < old(yetNotInChainIndex) ==> dict[q] == old(dict[q]) && indexies[q] == old(indexies[q])
      ensures forall q :: outOfPlayIndex <= q < dict.Length ==> dict[q] == old(dict[q])
    {
      Swap(index, yetNotInChainIndex);
      indexies[yetNotInChainIndex] := currentProcessingIndex;
      yetNotInChainIndex := yetNotInChainIndex + 1;
    }

    /** Empty queue, nothing eliminated, the start word being expanded. */
    method InitProcessing()
      modifies this`yetNotInChainIndex, this`outOfPlayIndex, this`currentProcessingIndex
      ensures yetNotInChainIndex == 0 && outOfPlayIndex == dict.Length && currentProcessingIndex == -1
    {
      yetNotInChainIndex := 0;
      outOfPlayIndex := dict.Length;
      currentProcessingIndex := -1;
    }

    /** Inserts, after the first word of `result`, the queued words met when
        following the parents back from the position being expanded. */
    method RestorePath(result: seq<Word>) returns (path: seq<Word>)
      requires |result| >= 1
      requires dict.Length == indexies.Length && -1 <= currentProcessingIndex < dict.Length
      requires forall q :: 0 <= q <= currentProcessingIndex ==> -1 <= indexies[q] < q
      ensures path == [result[0]] + Chain(dict[..], indexies[..], currentProcessingIndex) + result[1..]
    {
      path := result;
      var i := currentProcessingIndex;
      while i >= 0
        invariant -1 <= i <= currentProcessingIndex
        invariant |path| >= 1 && path[0] == result[0]
        invariant Chain(dict[..], indexies[..], i) + path[1..]
                  == Chain(dict[..], indexies[..], currentProcessingIndex) + result[1..]
        decreases i + 1
      {
        path := [path[0]] + [dict[i]] + path[1..];
        i := indexies[i];
      }
      ghost var back := Chain(dict[..], indexies[..], currentProcessingIndex);
      assert path == [path[0]] + path[1..] == [result[0]] + (back + result[1..]);
    }

    /** First pass only: upper-cases the undecided word at `i` in place, then
        eliminates it when its length differs from the start word's or it is
        one of the two end words. */
    method FirstPassCheck(i: int, from: Word, to: Word, ghost entries: seq<Word>) returns (removed: bool)
      requires dict.Length == indexies.Length
      requires -1 == currentProcessingIndex < yetNotInChainIndex <= i < outOfPlayIndex <= dict.Length
      requires Inv(dict[..], indexies[..], from, to, entries, -1, yetNotInChainIndex, i, outOfPlayIndex)
      modifies this`outOfPlayIndex, dict
      ensures removed <==> Dead(ToUpper(old(dict[i])), from, to)
      ensures removed ==> && outOfPlayIndex == old(outOfPlayIndex) - 1
                          && dict[..] == Swapped(old(dict[..])[i := ToUpper(old(dict[i]))], i, outOfPlayIndex)
      ensures !removed ==> && outOfPlayIndex == old(outOfPlayIndex)
                           && dict[..] == old(dict[..])[i := ToUpper(old(dict[i]))]
                           && Live(dict[i], from, to)
      ensures yetNotInChainIndex <= i <= outOfPlayIndex
      ensures forall q :: 0 <= q < yetNotInChainIndex ==> dict[q] == old(dict[q])
      ensures forall q :: old(outOfPlayIndex) <= q < dict.Length ==> dict[q] == old(dict[q])
      ensures Inv(dict[..], indexies[..], from, to, entries, -1, yetNotInChainIndex, i, outOfPlayIndex)
    {
      // the search invariant is carried by the step lemmas, not unfolded here
      hide Inv;
      ghost var d := dict[..];
      UpperStep(d, indexies[..], from, to, entries, yetNotInChainIndex, i, outOfPlayIndex);
      dict[i] := ToUpper(dict[i]);
      d := d[i := ToUpper(d[i])];
      assert d == dict[..];
      var anotherWord := dict[i];
      ToUpperIdempotent(anotherWord);
      removed := |anotherWord| != |from| || anotherWord == from || anotherWord == to;
      if removed {
        RemoveStep(d, indexies[..], from, to, entries, yetNotInChainIndex, i, outOfPlayIndex);
        RemoveFromProcessing(i);
      }
    }

    /** Expands the word at the current position: scans the undecided words
        against it, eliminating during the first pass the words of the wrong
        length and the two end words, and queueing the words one step away;
        stops early when a queued word would also be one step from `to`. */
    method ExpandCurrent(from: Word, to: Word, currentWord: Word, firstRun: bool, ghost entries: seq<Word>)
      returns (found: bool, chain: seq<Word>)
      requires dict.Length == indexies.Length
      requires -1 <= currentProcessingIndex < yetNotInChainIndex <= outOfPlayIndex <= dict.Length
      requires Inv(dict[..], indexies[..], from, to, entries,
                   currentProcessingIndex, yetNotInChainIndex, yetNotInChainIndex, outOfPlayIndex)
      requires firstRun == (currentProcessingIndex == -1)
      requires currentWord == WordAt(dict[..], from, currentProcessingIndex)
      requires from != to && !Convertible(from, to)
      modifies this`yetNotInChainIndex, this`outOfPlayIndex, dict, indexies
      ensures found ==> && Outcome(from, to, entries, chain)
                        && multiset(MapUpper(dict[..])) == multiset(entries)
                        && -1 <= currentProcessingIndex < yetNotInChainIndex <= outOfPlayIndex <= dict.Length
                        && forall q :: 0 <= q < yetNotInChainIndex ==> -1 <= indexies[q] < q
      ensures !found ==> && currentProcessingIndex < yetNotInChainIndex <= outOfPlayIndex <= dict.Length
                         && Inv(dict[..], indexies[..], from, to, entries,
                                currentProcessingIndex, yetNotInChainIndex, outOfPlayIndex, outOfPlayIndex)
      // the scan only appends to the queue and only grows the eliminated zone
      ensures !found ==> && old(yetNotInChainIndex) <= yetNotInChainIndex
                         && outOfPlayIndex <= old(outOfPlayIndex)
                         && KeepsSettled(old(dict[..]), old(indexies[..]), dict[..], indexies[..],
                                         old(yetNotInChainIndex), old(outOfPlayIndex))
    {
      // The definitions below are not needed to follow this method's steps,
      // which go through the step lemmas of Search; hiding them keeps the
      // verifier from unfolding them at every statement.
      hide Inv;
      hide Outcome;
      hide Live;
      hide Dead;
      hide ToUpper;
      hide MapUpper;
      hide Convertible;
      hide DiffCount;
      hide Chain;
      hide Level;
      hide IsChain;
      hide IsLadder;
      hide Swapped;
      // value mirrors of the two arrays, in which the search invariant is stated
      ghost var d, par := dict[..], indexies[..];
      var i := yetNotInChainIndex;
      while i < outOfPlayIndex
        invariant d == dict[..] && par == indexies[..]
        invariant -1 <= currentProcessingIndex < yetNotInChainIndex <= i <= outOfPlayIndex <= dict.Length
        invariant Inv(d, par, from, to, entries,
                      currentProcessingIndex, yetNotInChainIndex, i, outOfPlayIndex)
        invariant currentWord == WordAt(d, from, currentProcessingIndex)
        invariant old(yetNotInChainIndex) <= yetNotInChainIndex && outOfPlayIndex <= old(outOfPlayIndex)
        invariant forall q :: 0 <= q < old(yetNotInChainIndex) ==>
                    dict[q] == old(dict[q]) && indexies[q] == old(indexies[q])
        invariant forall q :: old(outOfPlayIndex) <= q < dict.Length ==> dict[q] == old(dict[q])
        decreases outOfPlayIndex - i
      {
        if firstRun {
          var removed := FirstPassCheck(i, from, to, entries);
          d := dict[..];
          if removed {
            // the scan cursor now holds the unseen word taken from the back
            continue;
          }
        } else {
          UndecidedIsLive(d, par, from, to, entries, currentProcessingIndex, yetNotInChainIndex, i, outOfPlayIndex);
        }
        var anotherWord := dict[i];
        ExpandedNotUndecided(d, par, from, to, entries,
                             currentProcessingIndex, yetNotInChainIndex, i, outOfPlayIndex);
        var step := IsConvertable(currentWord, anotherWord);
        if step {
          var hit := IsConvertable(anotherWord, to);
          if hit {
            HitIsShortest(d, par, from, to, entries,
                          currentProcessingIndex, yetNotInChainIndex, i, outOfPlayIndex);
            InvParents(d, par, from, to, entries, currentProcessingIndex, yetNotInChainIndex, i, outOfPlayIndex);
            InvKeepsWords(d, par, from, to, entries, currentProcessingIndex, yetNotInChainIndex, i, outOfPlayIndex);
            chain := RestorePath([from, anotherWord, to]);
            assert chain == [from] + Chain(d, par, currentProcessingIndex) + [d[i], to];
            return true, chain;
          }
          AddStep(d, par, from, to, entries, currentProcessingIndex, yetNotInChainIndex, i, outOfPlayIndex);
          d, par := Swapped(d, i, yetNotInChainIndex), par[yetNotInChainIndex := currentProcessingIndex];
          AddToQueue(i);
        } else {
          SkipStep(d, par, from, to, entries,
                   currentProcessingIndex, yetNotInChainIndex, i, outOfPlayIndex);
        }
        i := i + 1;
      }
      return false, [];
    }

    /** Searches for a chain from `fromWord` to `toWord` through the
        dictionary: the two upper-cased words when they are equal or one step
        apart, else a shortest chain, or the empty list when there is none. */
    method FindChain(fromWord: Word, toWord: Word) returns (chain: seq<Word>)
      requires Valid()
      modifies this, dict, indexies
      ensures Valid()
      ensures Outcome(ToUpper(fromWord), ToUpper(toWord), MapUpper(Entries), chain)
    {
      // The definitions below are not needed to follow this method's steps,
      // which go through the step lemmas of Search; hiding them keeps the
      // verifier from unfolding them at every statement.
      hide Inv;
      hide Outcome;
      hide KeepsSettled;
      hide Convertible;
      hide DiffCount;
      hide MapUpper;
      hide Live;
      hide Dead;
      hide Chain;
      hide Level;
      hide IsChain;
      hide IsLadder;
      var from := ToUpper(fromWord);
      var to := ToUpper(toWord);
      ghost var entries := MapUpper(Entries);

      InitProcessing();

      if from == to {
        TrivialOutcome(from, to, entries);
        return [from, to];
      }
      var adjacent := IsConvertable(from, to);
      if adjacent {
        TrivialOutcome(from, to, entries);
        return [from, to];
      }

      var currentWord := from;
      var firstRun := true;
      Start(dict[..], indexies[..], from, to, entries);

      while currentProcessingIndex < yetNotInChainIndex
        invariant dict.Length == indexies.Length
        invariant -1 <= currentProcessingIndex <= yetNotInChainIndex <= outOfPlayIndex <= dict.Length
        invariant Inv(dict[..], indexies[..], from, to, entries,
                      currentProcessingIndex, yetNotInChainIndex, yetNotInChainIndex, outOfPlayIndex)
        invariant firstRun == (currentProcessingIndex == -1)
        invariant currentProcessingIndex < yetNotInChainIndex ==>
                  currentWord == WordAt(dict[..], from, currentProcessingIndex)
        decreases dict.Length - currentProcessingIndex
      {
        var found;
        found, chain := ExpandCurrent(from, to, currentWord, firstRun, entries);
        if found {
          return;
        }
        ghost var d, par := dict[..], indexies[..];
        AdvanceStep(d, par, from, to, entries, currentProcessingIndex, yetNotInChainIndex, outOfPlayIndex);
        currentProcessingIndex := currentProcessingIndex + 1;
        assert d == dict[..] && par == indexies[..];
        if currentProcessingIndex == yetNotInChainIndex {
          ghost var n := currentProcessingIndex;
          ExhaustedMeansNoChain(d, par, from, to, entries, n, outOfPlayIndex);
          InvParents(d, par, from, to, entries, n, n, n, outOfPlayIndex);
          InvKeepsWords(d, par, from, to, entries, n, n, n, outOfPlayIndex);
          return [];
        }
        currentWord := dict[currentProcessingIndex];
        firstRun := false;
      }
      ExhaustedMeansNoChain(dict[..], indexies[..], from, to, entries,
                            currentProcessingIndex, outOfPlayIndex);
      InvParents(dict[..], indexies[..], from, to, entries,
                 currentProcessingIndex, currentProcessingIndex, currentProcessingIndex, outOfPlayIndex);
      InvKeepsWords(dict[..], indexies[..], from, to, entries,
                    currentProcessingIndex, currentProcessingIndex, currentProcessingIndex, outOfPlayIndex);
      return [];
    }
  }
}

/// The searches of the engine's test suite over small dictionaries, derived
/// from what a search must answer, and a state the first pass reaches that
/// the written bound of RemoveFromProcessing does not admit.
module Scenarios {
  import opened Words
  import opened Ladders
  import opened Search
  import opened WordChain

  /** The dictionary of the example in the program's description. */
  const DescriptionDict: seq<Word> := ["КОТ", "ТОН", "НОТА", "КОТЫ", "РОТ", "РОТА", "ТОТ"]

  /** A dictionary of three-letter words in which УХО has no neighbour. */
  const ThreeLetterDict: seq<Word> :=
    ["КОТ", "ТОН", "РОТ", "ТОТ", "НОС", "ТОМ", "ТОР", "УХО", "ШОК", "ШОВ", "ШИП", "ШОП", "ТОП", "ШИК"]

  /** A dictionary with a word one letter away from nothing useful, an empty
      entry and a word two letters away from the start. */
  const MixedDict: seq<Word> := ["КОТ", "УХО", "КОЛ", "", "ОКО"]

  /** A character that upper-casing leaves as it is. */
  predicate IsCapital(c: char)
  {
    UpperChar(c) == c
  }

  /** A word written in capitals is its own upper-cased form. */
  lemma UpperFixed(s: Word)
    requires forall k :: 0 <= k < |s| ==> IsCapital(s[k])
    ensures ToUpper(s) == s
  {
  }

  /** A dictionary written in capitals is its own upper-cased form. */
  lemma DictUpperFixed(ws: seq<Word>)
    requires forall k, j :: 0 <= k < |ws| && 0 <= j < |ws[k]| ==> IsCapital(ws[k][j])
    ensures MapUpper(ws) == ws
  {
    forall k | 0 <= k < |ws|
      ensures ToUpper(ws[k]) == ws[k]
    {
      UpperFixed(ws[k]);
    }
  }

  /** For three-letter words the difference count is the number of the three
      positions that differ. */
  lemma DiffCountOfThree(a: Word, b: Word)
    requires |a| == 3 && |b| == 3
    ensures DiffCount(a, b) == (if a[0] != b[0] then 1 else 0) + (if a[1] != b[1] then 1 else 0)
                               + (if a[2] != b[2] then 1 else 0)
  {
    assert a[..3] == a && b[..3] == b;
    assert DiffCount(a, b) == DiffCount(a[..2], b[..2]) + (if a[2] != b[2] then 1 else 0);
    assert a[..2][..1] == a[..1] && b[..2][..1] == b[..1];
    assert DiffCount(a[..2], b[..2]) == DiffCount(a[..1], b[..1]) + (if a[1] != b[1] then 1 else 0);
    assert a[..1][..0] == [] && b[..1][..0] == [];
  }

  /** The last step of a chain comes from `from` or from an entry. */
  lemma LastStep(c: seq<Word>, from: Word, to: Word, dict: seq<Word>)
    requires IsChain(c, from, to, dict)
    ensures c[|c| - 2] == from || c[|c| - 2] in dict
    ensures Convertible(c[|c| - 2], to)
  {
    assert Convertible(c[|c| - 2], c[|c| - 2 + 1]);
  }

  /** When no entry and not `from` itself is one step from `to`, no chain
      can end at `to`. */
  lemma NoChainIntoIsolated(from: Word, to: Word, dict: seq<Word>)
    requires !Convertible(from, to)
    requires forall w :: w in dict ==> !Convertible(w, to)
    ensures !exists c :: IsChain(c, from, to, dict)
  {
    forall c
      ensures !IsChain(c, from, to, dict)
    {
      if IsChain(c, from, to, dict) {
        LastStep(c, from, to, dict);
      }
    }
  }

  /** Every step from a word of `b` to an entry of `dict` or to `to` lands in `b'`. */
  ghost predicate StepsInto(b: set<Word>, b': set<Word>, dict: seq<Word>, to: Word)
  {
    forall w, x :: w in b && (x in dict || x == to) && Convertible(w, x) ==> x in b'
  }

  /** When each layer's steps land in the next layer, the j-th word of any
      chain lies in the j-th layer. */
  lemma {:induction false} ChainInLayers(c: seq<Word>, from: Word, to: Word, dict: seq<Word>,
                                         layers: seq<set<Word>>, j: nat)
    requires IsChain(c, from, to, dict)
    requires |layers| >= 1 && from in layers[0]
    requires forall k :: 0 <= k < |layers| - 1 ==> StepsInto(layers[k], layers[k + 1], dict, to)
    requires j < |c| && j < |layers|
    ensures c[j] in layers[j]
    decreases j
  {
    if j > 0 {
      ChainInLayers(c, from, to, dict, layers, j - 1);
      assert Convertible(c[j - 1], c[j]);
      assert c[j] in dict || c[j] == to;
      assert StepsInto(layers[j - 1], layers[j], dict, to);
    }
  }

  /** The words at most 0, 1, 2, 3 and 4 steps from КОТ in ThreeLetterDict. */
  function ShikLayers(): (layers: seq<set<Word>>)
    ensures |layers| == 5 && forall k :: 0 <= k < 5 ==> "ШИК" !in layers[k]
  {
    var l0 := {"КОТ"};
    var l1 := l0 + {"ТОТ", "РОТ"};
    var l2 := l1 + {"ТОН", "ТОМ", "ТОР", "ТОП"};
    var l3 := l2 + {"ШОП"};
    var l4 := l3 + {"ШОК", "ШОВ", "ШИП"};
    [l0, l1, l2, l3, l4]
  }

  /** Steps from the words at most k steps from КОТ land among the words at
      most k + 1 steps from it, for k = 0, 1, 2 and 3. */
  lemma ShikLayerStep0()
    ensures StepsInto(ShikLayers()[0], ShikLayers()[1], ThreeLetterDict, "ШИК")
  {
    var layers := ShikLayers();
    forall w, x | w in layers[0] && (x in ThreeLetterDict || x == "ШИК") && Convertible(w, x)
      ensures x in layers[1]
    {
      DiffCountOfThree(w, x);
    }
  }

  lemma ShikLayerStep1()
    ensures StepsInto(ShikLayers()[1], ShikLayers()[2], ThreeLetterDict, "ШИК")
  {
    var layers := ShikLayers();
    forall w, x | w in layers[1] && (x in ThreeLetterDict || x == "ШИК") && Convertible(w, x)
      ensures x in layers[2]
    {
      DiffCountOfThree(w, x);
    }
  }

  lemma ShikLayerStep2()
    ensures StepsInto(ShikLayers()[2], ShikLayers()[3], ThreeLetterDict, "ШИК")
  {
    var layers := ShikLayers();
    forall w, x | w in layers[2] && (x in ThreeLetterDict || x == "ШИК") && Convertible(w, x)
      ensures x in layers[3]
    {
      DiffCountOfThree(w, x);
    }
  }

  lemma ShikLayerStep3()
    ensures StepsInto(ShikLayers()[3], ShikLayers()[4], ThreeLetterDict, "ШИК")
  {
    var layers := ShikLayers();
    forall w, x | w in layers[3] && (x in ThreeLetterDict || x == "ШИК") && Convertible(w, x)
      ensures x in layers[4]
    {
      DiffCountOfThree(w, x);
    }
  }

  lemma ShikLayersClosed()
    ensures forall k :: 0 <= k < 4 ==> StepsInto(ShikLayers()[k], ShikLayers()[k + 1], ThreeLetterDict, "ШИК")
  {
    ShikLayerStep0();
    ShikLayerStep1();
    ShikLayerStep2();
    ShikLayerStep3();
    forall k | 0 <= k < 4
      ensures StepsInto(ShikLayers()[k], ShikLayers()[k + 1], ThreeLetterDict, "ШИК")
    {
      assert k == 0 || k == 1 || k == 2 || k == 3;
    }
  }

  /** КОТ to ТОН over the description's dictionary: the only shortest chain
      goes through ТОТ. */
  lemma KotToTonOutcome(r: seq<Word>)
    requires Outcome("КОТ", "ТОН", DescriptionDict, r)
    ensures r == ["КОТ", "ТОТ", "ТОН"]
  {
    DiffCountOfThree("КОТ", "ТОН");
    DiffCountOfThree("КОТ", "ТОТ");
    DiffCountOfThree("ТОТ", "ТОН");
    var w := ["КОТ", "ТОТ", "ТОН"];
    assert IsChain(w, "КОТ", "ТОН", DescriptionDict);
    assert IsChain(r, "КОТ", "ТОН", DescriptionDict) && |r| <= 3;
    assert Convertible(r[0], r[1]);
    assert |r| == 3;
    assert Convertible(r[1], r[2]) && r[1] in DescriptionDict;
    forall x | x in DescriptionDict && Convertible("КОТ", x) && Convertible(x, "ТОН")
      ensures x == "ТОТ"
    {
      DiffCountOfThree("КОТ", x);
      DiffCountOfThree(x, "ТОН");
    }
  }

  /** КОТ to УХО over the three-letter dictionary: no entry is one step from
      УХО, so there is no chain. */
  lemma KotToUkhoOutcome(r: seq<Word>)
    requires Outcome("КОТ", "УХО", ThreeLetterDict, r)
    ensures r == []
  {
    DiffCountOfThree("КОТ", "УХО");
    forall w | w in ThreeLetterDict
      ensures !Convertible(w, "УХО")
    {
      DiffCountOfThree(w, "УХО");
    }
    NoChainIntoIsolated("КОТ", "УХО", ThreeLetterDict);
  }

  /** КОТ to УХО over a dictionary holding a word of another length and an
      empty entry: again no entry is one step from УХО. */
  lemma KotToUkhoMixedOutcome(r: seq<Word>)
    requires Outcome("КОТ", "УХО", MixedDict, r)
    ensures r == []
  {
    DiffCountOfThree("КОТ", "УХО");
    forall w | w in MixedDict
      ensures !Convertible(w, "УХО")
    {
      if |w| == 3 {
        DiffCountOfThree(w, "УХО");
      }
    }
    NoChainIntoIsolated("КОТ", "УХО", MixedDict);
  }

  /** A six-word chain from КОТ to ШИК through the three-letter dictionary. */
  lemma ShikChainExists()
    ensures IsChain(["КОТ", "ТОТ", "ТОП", "ШОП", "ШОК", "ШИК"], "КОТ", "ШИК", ThreeLetterDict)
  {
    var w := ["КОТ", "ТОТ", "ТОП", "ШОП", "ШОК", "ШИК"];
    forall k | 0 <= k < 5
      ensures Convertible(w[k], w[k + 1])
    {
      DiffCountOfThree(w[k], w[k + 1]);
    }
  }

  /** Within four steps of КОТ, only ШОК and ШИП are one step from ШИК. */
  lemma ShikFourthStep(y: Word)
    requires y in ShikLayers()[4] && Convertible(y, "ШИК")
    ensures y == "ШОК" || y == "ШИП"
  {
    DiffCountOfThree(y, "ШИК");
  }

  /** Within three steps of КОТ, only ШОП is one step from ШОК or ШИП. */
  lemma ShikThirdStep(y: Word, z: Word)
    requires y in ShikLayers()[3] && (z == "ШОК" || z == "ШИП") && Convertible(y, z)
    ensures y == "ШОП"
  {
    DiffCountOfThree(y, z);
  }

  /** Within two steps of КОТ, only ТОП is one step from ШОП. */
  lemma ShikSecondStep(y: Word)
    requires y in ShikLayers()[2] && Convertible(y, "ШОП")
    ensures y == "ТОП"
  {
    DiffCountOfThree(y, "ШОП");
  }

  /** Within one step of КОТ, only ТОТ is one step from ТОП. */
  lemma ShikFirstStep(y: Word)
    requires y in ShikLayers()[1] && Convertible(y, "ТОП")
    ensures y == "ТОТ"
  {
    DiffCountOfThree(y, "ТОП");
  }

  /** A six-word chain from КОТ to ШИК runs through ТОТ, ТОП and ШОП, then
      ШОК or ШИП. */
  lemma ShikInterior(r: seq<Word>)
    requires IsChain(r, "КОТ", "ШИК", ThreeLetterDict) && |r| == 6
    ensures r[..4] == ["КОТ", "ТОТ", "ТОП", "ШОП"]
    ensures r[4] == "ШОК" || r[4] == "ШИП"
  {
    var d, layers := ThreeLetterDict, ShikLayers();
    ShikLayersClosed();
    assert Convertible(r[4], r[5]) && Convertible(r[3], r[4]);
    assert Convertible(r[2], r[3]) && Convertible(r[1], r[2]);
    ChainInLayers(r, "КОТ", "ШИК", d, layers, 4);
    ShikFourthStep(r[4]);
    ChainInLayers(r, "КОТ", "ШИК", d, layers, 3);
    ShikThirdStep(r[3], r[4]);
    ChainInLayers(r, "КОТ", "ШИК", d, layers, 2);
    ShikSecondStep(r[2]);
    ChainInLayers(r, "КОТ", "ШИК", d, layers, 1);
    ShikFirstStep(r[1]);
    assert r[..4] == [r[0], r[1], r[2], r[3]];
  }

  /** ШИК is not within four steps of КОТ, so every chain between them has
      at least six words. */
  lemma ShikAtLeastSix(c: seq<Word>)
    requires IsChain(c, "КОТ", "ШИК", ThreeLetterDict)
    ensures |c| >= 6
  {
    ShikLayersClosed();
    var m := if |c| - 1 < 4 then |c| - 1 else 4;
    ChainInLayers(c, "КОТ", "ШИК", ThreeLetterDict, ShikLayers(), m);
  }

  /** КОТ to ШИК over the three-letter dictionary: every shortest chain has
      six words and runs КОТ, ТОТ, ТОП, ШОП, then ШОК or ШИП, then ШИК. */
  lemma KotToShikOutcome(r: seq<Word>)
    requires Outcome("КОТ", "ШИК", ThreeLetterDict, r)
    ensures |r| == 6 && r[..4] == ["КОТ", "ТОТ", "ТОП", "ШОП"] && r[5] == "ШИК"
    ensures r[4] == "ШОК" || r[4] == "ШИП"
  {
    DiffCountOfThree("КОТ", "ШИК");
    ShikChainExists();
    assert IsChain(r, "КОТ", "ШИК", ThreeLetterDict) && |r| <= 6;
    ShikAtLeastSix(r);
    ShikInterior(r);
  }

  /** The engine built from the description's dictionary answers КОТ to ТОН
      with КОТ, ТОТ, ТОН. */
  method KotToTon() returns (r: seq<Word>)
    ensures r == ["КОТ", "ТОТ", "ТОН"]
  {
    var engine := new WordChainer(DescriptionDict);
    r := engine.FindChain("КОТ", "ТОН");
    UpperFixed("КОТ");
    UpperFixed("ТОН");
    DictUpperFixed(DescriptionDict);
    KotToTonOutcome(r);
  }

  /** The engine built from the three-letter dictionary finds no chain from
      КОТ to УХО. */
  method KotToUkho() returns (r: seq<Word>)
    ensures r == []
  {
    var engine := new WordChainer(ThreeLetterDict);
    r := engine.FindChain("КОТ", "УХО");
    UpperFixed("КОТ");
    UpperFixed("УХО");
    DictUpperFixed(ThreeLetterDict);
    KotToUkhoOutcome(r);
  }

  /** The engine built from the three-letter dictionary answers КОТ to ШИК
      with a six-word chain through ТОТ, ТОП and ШОП. */
  method KotToShik() returns (r: seq<Word>)
    ensures |r| == 6 && r[..4] == ["КОТ", "ТОТ", "ТОП", "ШОП"] && r[5] == "ШИК"
    ensures r[4] == "ШОК" || r[4] == "ШИП"
  {
    var engine := new WordChainer(ThreeLetterDict);
    r := engine.FindChain("КОТ", "ШИК");
    UpperFixed("КОТ");
    UpperFixed("ШИК");
    DictUpperFixed(ThreeLetterDict);
    KotToShikOutcome(r);
  }

  /** The engine built from the mixed dictionary finds no chain from КОТ to УХО. */
  method KotToUkhoMixed() returns (r: seq<Word>)
    ensures r == []
  {
    var engine := new WordChainer(MixedDict);
    r := engine.FindChain("КОТ", "УХО");
    UpperFixed("КОТ");
    UpperFixed("УХО");
    DictUpperFixed(MixedDict);
    KotToUkhoMixedOutcome(r);
  }

  /** A word searched against itself is answered with the word twice,
      whatever the dictionary. */
  method SameWordTwice(w: Word, dictionary: seq<Word>) returns (r: seq<Word>)
    ensures r == [ToUpper(w), ToUpper(w)]
  {
    var engine := new WordChainer(dictionary);
    r := engine.FindChain(w, w);
  }

  /** Two words one step apart are answered with the pair, even over an
      empty dictionary. */
  method AdjacentPair(a: Word, b: Word) returns (r: seq<Word>)
    requires Convertible(ToUpper(a), ToUpper(b))
    ensures r == [ToUpper(a), ToUpper(b)]
  {
    var engine := new WordChainer([]);
    r := engine.FindChain(a, b);
  }

  /** The bound on RemoveFromProcessing's index as written in the source:
      strictly below the last undecided position. */
  predicate RemoveGuardAsWritten(index: int, outOfPlay: int)
  {
    index < outOfPlay - 1
  }

  /** Searching КОТ to УХО over the one-word dictionary КОТ: the first scan
      starts at position 0 with a single undecided word, and eliminates it
      because it is the start word; the call RemoveFromProcessing(0) then
      has outOfPlayIndex 1, which the written bound rejects although the
      swap it guards is well defined. */
  lemma RemoveGuardRejectsLastWord()
    ensures var d, par := ["КОТ"], [0];
            && Inv(d, par, "КОТ", "УХО", MapUpper(d), -1, 0, 0, |d|)
            && !Convertible("КОТ", "УХО")
            && Dead(ToUpper(d[0]), "КОТ", "УХО")
            && !RemoveGuardAsWritten(0, |d|)
  {
    var d, par := ["КОТ"], [0];
    UpperFixed("КОТ");
    Start(d, par, "КОТ", "УХО", MapUpper(d));
    DiffCountOfThree("КОТ", "УХО");
  }
}

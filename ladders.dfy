/// Chains of words and what a search for one must return.
module Ladders {
  import opened Words

  /** Every consecutive pair of `c` is one step apart. */
  predicate IsLadder(c: seq<Word>)
  {
    forall k :: 0 <= k < |c| - 1 ==> Convertible(c[k], c[k + 1])
  }

  /** `c` leads from `from` to `to` one step at a time, and every word
      strictly between the two ends is an entry of `dict`. */
  predicate IsChain(c: seq<Word>, from: Word, to: Word, dict: seq<Word>)
  {
    && |c| >= 2 && c[0] == from && c[|c| - 1] == to
    && IsLadder(c)
    && forall k :: 0 < k < |c| - 1 ==> c[k] in dict
  }

  /** What a search from `from` to `to` over `dict` returns: the two words
      themselves when they are equal or one step apart; otherwise the empty
      list exactly when no chain exists, and else a shortest chain. */
  ghost predicate Outcome(from: Word, to: Word, dict: seq<Word>, r: seq<Word>)
  {
    if from == to || Convertible(from, to) then r == [from, to]
    else
      && (r == [] <==> !exists c :: IsChain(c, from, to, dict))
      && (r != [] ==> IsChain(r, from, to, dict) && forall c :: IsChain(c, from, to, dict) ==> |r| <= |c|)
  }

  /** A ladder stays a ladder when a word one step from its last word is appended. */
  lemma LadderExtend(s: seq<Word>, x: Word)
    requires IsLadder(s) && |s| >= 1 && Convertible(s[|s| - 1], x)
    ensures IsLadder(s + [x])
  {
    var t := s + [x];
    forall k | 0 <= k < |t| - 1
      ensures Convertible(t[k], t[k + 1])
    {
      if k < |s| - 1 {
        assert t[k] == s[k] && t[k + 1] == s[k + 1];
      }
    }
  }

  /** When the two words are equal or one step apart, the search answers
      with the pair itself. */
  lemma TrivialOutcome(from: Word, to: Word, dict: seq<Word>)
    requires from == to || Convertible(from, to)
    ensures Outcome(from, to, dict, [from, to])
  {
  }
}

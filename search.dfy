/// The state of the in-place breadth-first search, seen as values: the word
/// list `d`, the parent list `par` and the cursors `cur`, `yet`, `i`, `out`
/// that split `d` into the discovered queue [0, yet), the undecided words
/// [yet, out) (of which [yet, i) are already scanned against the word being
/// expanded) and the eliminated words [out, |d|).  One lemma per step of the
/// search shows that the step keeps the invariant `Inv`; the last lemmas draw
/// from it that a hit gives a shortest chain and that an exhausted queue
/// means there is no chain at all.
module Search {
  import opened Words
  import opened Ladders

  /** The word at queue position `p`; position -1 stands for the start word,
      which is never stored in the list. */
  function WordAt(d: seq<Word>, from: Word, p: int): Word
  {
    if 0 <= p < |d| then d[p] else from
  }

  /** `s` with the entries at `i` and `j` exchanged. */
  function Swapped<T>(s: seq<T>, i: int, j: int): seq<T>
    requires 0 <= i < |s| && 0 <= j < |s|
  {
    s[i := s[j]][j := s[i]]
  }

  /** Exchanging two entries keeps every word, and commutes with upper-casing. */
  lemma SwappedKeepsWords(s: seq<Word>, i: int, j: int)
    requires 0 <= i < |s| && 0 <= j < |s|
    ensures i == j ==> Swapped(s, i, j) == s
    ensures multiset(Swapped(s, i, j)) == multiset(s)
    ensures multiset(MapUpper(Swapped(s, i, j))) == multiset(MapUpper(s))
  {
    assert MapUpper(Swapped(s, i, j)) == Swapped(MapUpper(s), i, j);
  }

  /** Position `p` holds a recorded parent that lies before it. */
  predicate ParentOK(par: seq<int>, p: int)
  {
    0 <= p < |par| && -1 <= par[p] < p
  }

  /** Number of steps from the start word to queue position `p` along parents. */
  function Level(par: seq<int>, p: int): nat
    decreases p + 1
  {
    if ParentOK(par, p) then Level(par, par[p]) + 1 else 0
  }

  /** The words met when walking the parents back from position `p` to the
      start word, in chain order, the start word itself excluded. */
  function Chain(d: seq<Word>, par: seq<int>, p: int): seq<Word>
    decreases p + 1
  {
    if ParentOK(par, p) && p < |d| then Chain(d, par, par[p]) + [d[p]] else []
  }

  /** A word that can still be part of a chain from `from` to `to`. */
  predicate Live(w: Word, from: Word, to: Word)
  {
    ToUpper(w) == w && |w| == |from| && w != from && w != to
  }

  /** A normalised word the first pass eliminates. */
  predicate Dead(w: Word, from: Word, to: Word)
  {
    ToUpper(w) == w && (|w| != |from| || w == from || w == to)
  }

  /** The word at queue position `q` is one step from the word at its parent. */
  ghost predicate StepFromParent(d: seq<Word>, par: seq<int>, from: Word, q: int)
    requires 0 <= q < |d| && q < |par|
  {
    Convertible(WordAt(d, from, par[q]), d[q])
  }

  /** The discovered queue [0, yet): parents lie before their children and
      were expanded no later than `cur`; every queued word is live, one step
      from its parent and not one step from `to`; levels never decrease along
      the queue (breadth-first order). */
  ghost predicate Queue(d: seq<Word>, par: seq<int>, from: Word, to: Word, cur: int, yet: int)
    requires 0 <= yet <= |d| && yet <= |par|
  {
    && (forall q :: 0 <= q < yet ==> -1 <= par[q] < q && par[q] <= cur)
    && (forall q :: 0 <= q < yet ==> Live(d[q], from, to) && !Convertible(d[q], to))
    && (forall q :: 0 <= q < yet ==> StepFromParent(d, par, from, q))
    && (forall p, q :: -1 <= p <= q < yet ==> Level(par, p) <= Level(par, q))
  }

  /** Every word of [lo, hi) is live. */
  ghost predicate Classified(d: seq<Word>, from: Word, to: Word, lo: int, hi: int)
    requires 0 <= lo && hi <= |d|
  {
    forall w :: lo <= w < hi ==> Live(d[w], from, to)
  }

  /** No word of [lo, hi) is one step from the word at position `p`. */
  ghost predicate Unreached(d: seq<Word>, from: Word, p: int, lo: int, hi: int)
    requires 0 <= lo && hi <= |d|
  {
    forall w :: lo <= w < hi ==> !Convertible(WordAt(d, from, p), d[w])
  }

  /** Every expanded position (below `cur`) reaches no undecided word, and
      reaches a queued word only if that word's parent was expanded no later. */
  ghost predicate Closed(d: seq<Word>, par: seq<int>, from: Word, cur: int, yet: int, out: int)
    requires 0 <= yet <= out <= |d| && yet <= |par|
  {
    && (forall p :: -1 <= p < cur ==> Unreached(d, from, p, yet, out))
    && (forall p, q :: -1 <= p < cur && 0 <= q < yet && Convertible(WordAt(d, from, p), d[q]) ==> par[q] <= p)
  }

  /** Every word of [out, |d|) is eliminated. */
  ghost predicate Eliminated(d: seq<Word>, from: Word, to: Word, out: int)
    requires 0 <= out
  {
    forall w :: out <= w < |d| ==> Dead(d[w], from, to)
  }

  /** From `d, par` to `d', par'`, the queue [0, yet) with its parents and the
      eliminated words [out, |d|) stay as they were. */
  ghost predicate KeepsSettled(d: seq<Word>, par: seq<int>, d': seq<Word>, par': seq<int>, yet: int, out: int)
  {
    && |d'| == |d| && |par'| == |par|
    && (forall q :: 0 <= q < yet && q < |d| && q < |par| ==> d'[q] == d[q] && par'[q] == par[q])
    && (forall q :: 0 <= out <= q < |d| ==> d'[q] == d[q])
  }

  /** The search invariant, while position `cur` is expanded and the
      undecided words [yet, i) have been scanned against it. */
  ghost predicate Inv(d: seq<Word>, par: seq<int>, from: Word, to: Word, dict: seq<Word>,
                      cur: int, yet: int, i: int, out: int)
  {
    && |par| == |d|
    && -1 <= cur <= yet && 0 <= yet <= i <= out <= |d|
    // only swaps and in-place upper-casing touch the list
    && multiset(MapUpper(d)) == multiset(dict)
    && Queue(d, par, from, to, cur, yet)
    // the first pass classifies undecided words as it scans them
    && Classified(d, from, to, yet, if cur == -1 then i else out)
    && Unreached(d, from, cur, yet, i)
    && Closed(d, par, from, cur, yet, out)
    && Eliminated(d, from, to, out)
  }

  /** Changing the parents from position `n` on leaves the levels below `n` alone. */
  lemma {:induction false} LevelFrame(par: seq<int>, par': seq<int>, n: int, p: int)
    requires n <= |par| && n <= |par'|
    requires forall q :: 0 <= q < n ==> par[q] == par'[q]
    requires -1 <= p < n
    ensures Level(par, p) == Level(par', p)
    decreases p + 1
  {
    if ParentOK(par, p) {
      LevelFrame(par, par', n, par[p]);
    }
  }

  /** The queue depends only on the entries of the list and of the parents
      below `yet`. */
  lemma QueueFrame(d: seq<Word>, par: seq<int>, d': seq<Word>, par': seq<int>,
                   from: Word, to: Word, cur: int, yet: int)
    requires 0 <= yet <= |d| && yet <= |par| && yet <= |d'| && yet <= |par'|
    requires Queue(d, par, from, to, cur, yet)
    requires forall q :: 0 <= q < yet ==> d'[q] == d[q] && par'[q] == par[q]
    ensures Queue(d', par', from, to, cur, yet)
  {
    forall q | 0 <= q < yet
      ensures StepFromParent(d', par', from, q)
    {
      assert StepFromParent(d, par, from, q);
    }
    forall p | -1 <= p < yet
      ensures Level(par', p) == Level(par, p)
    {
      LevelFrame(par, par', yet, p);
    }
  }

  /** A normalised entry of the list is an entry of the normalised dictionary. */
  lemma InDictionary(d: seq<Word>, dict: seq<Word>, q: int)
    requires multiset(MapUpper(d)) == multiset(dict)
    requires 0 <= q < |d| && ToUpper(d[q]) == d[q]
    ensures d[q] in dict
  {
    assert MapUpper(d)[q] == d[q];
    assert d[q] in multiset(MapUpper(d));
  }

  /** The search starts with an empty queue, nothing eliminated and the
      start word being expanded. */
  lemma Start(d: seq<Word>, par: seq<int>, from: Word, to: Word, dict: seq<Word>)
    requires |par| == |d| && multiset(MapUpper(d)) == multiset(dict)
    ensures Inv(d, par, from, to, dict, -1, 0, 0, |d|)
  {
  }

  /** First pass: upper-casing the word at the scan cursor keeps the invariant. */
  lemma UpperStep(d: seq<Word>, par: seq<int>, from: Word, to: Word, dict: seq<Word>, yet: int, i: int, out: int)
    requires Inv(d, par, from, to, dict, -1, yet, i, out) && i < out
    ensures Inv(d[i := ToUpper(d[i])], par, from, to, dict, -1, yet, i, out)
  {
    ToUpperIdempotent(d[i]);
    assert MapUpper(d[i := ToUpper(d[i])]) == MapUpper(d);
    QueueFrame(d, par, d[i := ToUpper(d[i])], par, from, to, -1, yet);
  }

  /** First pass: moving an eliminated word behind the undecided zone keeps
      the invariant; the scan cursor stays, as it now holds an unseen word. */
  lemma RemoveStep(d: seq<Word>, par: seq<int>, from: Word, to: Word, dict: seq<Word>, yet: int, i: int, out: int)
    requires Inv(d, par, from, to, dict, -1, yet, i, out) && i < out
    requires Dead(d[i], from, to)
    ensures Inv(Swapped(d, i, out - 1), par, from, to, dict, -1, yet, i, out - 1)
  {
    SwappedKeepsWords(d, i, out - 1);
    QueueFrame(d, par, Swapped(d, i, out - 1), par, from, to, -1, yet);
  }

  /** The search only ever reorders and upper-cases the list. */
  lemma InvKeepsWords(d: seq<Word>, par: seq<int>, from: Word, to: Word, dict: seq<Word>,
                      cur: int, yet: int, i: int, out: int)
    requires Inv(d, par, from, to, dict, cur, yet, i, out)
    ensures multiset(MapUpper(d)) == multiset(dict)
  {
  }

  /** Every queued word has its parent before it. */
  lemma InvParents(d: seq<Word>, par: seq<int>, from: Word, to: Word, dict: seq<Word>,
                   cur: int, yet: int, i: int, out: int)
    requires Inv(d, par, from, to, dict, cur, yet, i, out)
    ensures forall q :: 0 <= q < yet ==> -1 <= par[q] < q
  {
  }

  /** Once the first pass is over, every undecided word is live. */
  lemma UndecidedIsLive(d: seq<Word>, par: seq<int>, from: Word, to: Word, dict: seq<Word>,
                        cur: int, yet: int, i: int, out: int)
    requires Inv(d, par, from, to, dict, cur, yet, i, out) && 0 <= cur && i < out
    ensures Live(d[i], from, to)
  {
  }

  /** The expanded word never reappears among the undecided words: a copy of
      it would have been one step from its parent and so already queued. */
  lemma ExpandedNotUndecided(d: seq<Word>, par: seq<int>, from: Word, to: Word, dict: seq<Word>,
                             cur: int, yet: int, i: int, out: int)
    requires Inv(d, par, from, to, dict, cur, yet, i, out) && cur < yet && i < out
    requires Live(d[i], from, to)
    ensures WordAt(d, from, cur) != d[i]
  {
    if 0 <= cur {
      assert StepFromParent(d, par, from, cur);
      assert Unreached(d, from, par[cur], yet, out);
    }
  }

  /** A scanned word that is not one step from the expanded word stays undecided. */
  lemma SkipStep(d: seq<Word>, par: seq<int>, from: Word, to: Word, dict: seq<Word>,
                 cur: int, yet: int, i: int, out: int)
    requires Inv(d, par, from, to, dict, cur, yet, i, out) && cur < yet && i < out
    requires Live(d[i], from, to) && !Convertible(WordAt(d, from, cur), d[i])
    ensures Inv(d, par, from, to, dict, cur, yet, i + 1, out)
  {
    assert Classified(d, from, to, yet, if cur == -1 then i + 1 else out);
    assert Unreached(d, from, cur, yet, i + 1);
    assert Queue(d, par, from, to, cur, yet);
    assert Closed(d, par, from, cur, yet, out);
    assert Eliminated(d, from, to, out);
    assert multiset(MapUpper(d)) == multiset(dict);
  }

  /** Queueing the word at `i`: the queue grows by that word, with the
      expanded position as its parent, and stays in breadth-first order. */
  lemma AddToQueueKeepsQueue(d: seq<Word>, par: seq<int>, from: Word, to: Word, cur: int, yet: int, i: int)
    requires |par| == |d| && -1 <= cur < yet <= i < |d|
    requires Queue(d, par, from, to, cur, yet)
    requires Live(d[i], from, to) && Convertible(WordAt(d, from, cur), d[i]) && !Convertible(d[i], to)
    ensures Queue(Swapped(d, i, yet), par[yet := cur], from, to, cur, yet + 1)
  {
    var d', par' := Swapped(d, i, yet), par[yet := cur];
    QueueFrame(d, par, d', par', from, to, cur, yet);
    assert StepFromParent(d', par', from, yet);
    forall p | -1 <= p < yet
      ensures Level(par', p) <= Level(par, cur) + 1
    {
      LevelFrame(par, par', yet, p);
      if 0 <= p {
        assert Level(par, p) == Level(par, par[p]) + 1;
      }
    }
    LevelFrame(par, par', yet, cur);
    assert Level(par', yet) == Level(par', cur) + 1;
  }

  /** Queueing the word at `i` keeps the undecided zone classified. */
  lemma AddKeepsClassified(d: seq<Word>, from: Word, to: Word, cur: int, yet: int, i: int, out: int)
    requires -1 <= cur < yet <= i < out <= |d|
    requires Classified(d, from, to, yet, if cur == -1 then i else out)
    requires Live(d[i], from, to)
    ensures Classified(Swapped(d, i, yet), from, to, yet + 1, if cur == -1 then i + 1 else out)
  {
    var d' := Swapped(d, i, yet);
    forall w | yet + 1 <= w < (if cur == -1 then i + 1 else out)
      ensures Live(d'[w], from, to)
    {
      if w != i {
        assert d'[w] == d[w];
      }
    }
  }

  /** Queueing the word at `i` keeps the scanned words unreached from the
      expanded word: the word moved into the scanned range was scanned before. */
  lemma AddKeepsUnreached(d: seq<Word>, from: Word, cur: int, yet: int, i: int)
    requires -1 <= cur < yet <= i < |d|
    requires Unreached(d, from, cur, yet, i)
    ensures Unreached(Swapped(d, i, yet), from, cur, yet + 1, i + 1)
  {
    var d' := Swapped(d, i, yet);
    assert WordAt(d', from, cur) == WordAt(d, from, cur);
    forall w | yet + 1 <= w < i + 1
      ensures !Convertible(WordAt(d', from, cur), d'[w])
    {
      if w == i {
        assert d'[w] == d[yet];
      } else {
        assert d'[w] == d[w];
      }
    }
  }

  /** Queueing the word at `i`, with the expanded position as its parent,
      keeps the expanded positions closed. */
  lemma AddKeepsClosed(d: seq<Word>, par: seq<int>, from: Word, cur: int, yet: int, i: int, out: int)
    requires |par| == |d| && -1 <= cur < yet <= i < out <= |d|
    requires Closed(d, par, from, cur, yet, out)
    ensures Closed(Swapped(d, i, yet), par[yet := cur], from, cur, yet + 1, out)
  {
    var d', par' := Swapped(d, i, yet), par[yet := cur];
    var yet' := yet + 1;
    forall p | -1 <= p < cur
      ensures Unreached(d', from, p, yet', out)
    {
      assert WordAt(d', from, p) == WordAt(d, from, p);
      assert Unreached(d, from, p, yet, out);
      forall w | yet' <= w < out
        ensures !Convertible(WordAt(d', from, p), d'[w])
      {
        if w == i {
          assert d'[w] == d[yet];
        } else {
          assert d'[w] == d[w];
        }
      }
    }
    forall p | -1 <= p < cur
      ensures !Convertible(WordAt(d', from, p), d'[yet])
    {
      assert WordAt(d', from, p) == WordAt(d, from, p);
      assert Unreached(d, from, p, yet, out);
      assert d'[yet] == d[i];
    }
    forall p, q | -1 <= p < cur && 0 <= q < yet' && Convertible(WordAt(d', from, p), d'[q])
      ensures par'[q] <= p
    {
      assert WordAt(d', from, p) == WordAt(d, from, p);
      if q < yet {
        assert d'[q] == d[q];
      }
    }
  }

  /** Queueing a word one step from the expanded word (and not one step from
      `to`) keeps the invariant. */
  lemma AddStep(d: seq<Word>, par: seq<int>, from: Word, to: Word, dict: seq<Word>,
                cur: int, yet: int, i: int, out: int)
    requires Inv(d, par, from, to, dict, cur, yet, i, out) && cur < yet && i < out
    requires Live(d[i], from, to) && Convertible(WordAt(d, from, cur), d[i]) && !Convertible(d[i], to)
    ensures Inv(Swapped(d, i, yet), par[yet := cur], from, to, dict, cur, yet + 1, i + 1, out)
    ensures WordAt(Swapped(d, i, yet), from, cur) == WordAt(d, from, cur)
  {
    SwappedKeepsWords(d, i, yet);
    AddToQueueKeepsQueue(d, par, from, to, cur, yet, i);
    AddKeepsClassified(d, from, to, cur, yet, i, out);
    AddKeepsUnreached(d, from, cur, yet, i);
    AddKeepsClosed(d, par, from, cur, yet, i, out);
    var d' := Swapped(d, i, yet);
    assert forall w :: out <= w < |d| ==> d'[w] == d[w];
  }

  /** Once the whole undecided zone is scanned, the next queued word is expanded. */
  lemma AdvanceStep(d: seq<Word>, par: seq<int>, from: Word, to: Word, dict: seq<Word>,
                    cur: int, yet: int, out: int)
    requires Inv(d, par, from, to, dict, cur, yet, out, out) && cur < yet
    ensures Inv(d, par, from, to, dict, cur + 1, yet, yet, out)
  {
    assert Queue(d, par, from, to, cur + 1, yet);
    assert Classified(d, from, to, yet, out);
    assert Closed(d, par, from, cur + 1, yet, out);
  }

  /** Walking the parents back from a queued position gives a ladder from the
      start word to the word there, one word per level, through dictionary words. */
  lemma {:induction false} ChainFacts(d: seq<Word>, par: seq<int>, from: Word, to: Word, dict: seq<Word>,
                                      cur: int, yet: int, i: int, out: int, p: int)
    requires Inv(d, par, from, to, dict, cur, yet, i, out)
    requires -1 <= p < yet
    ensures |Chain(d, par, p)| == Level(par, p)
    ensures IsLadder([from] + Chain(d, par, p))
    ensures ([from] + Chain(d, par, p))[Level(par, p)] == WordAt(d, from, p)
    ensures forall x :: x in Chain(d, par, p) ==> x in dict
    decreases p + 1
  {
    if 0 <= p {
      var pp := par[p];
      ChainFacts(d, par, from, to, dict, cur, yet, i, out, pp);
      InDictionary(d, dict, p);
      assert StepFromParent(d, par, from, p);
      LadderExtend([from] + Chain(d, par, pp), d[p]);
      assert [from] + Chain(d, par, p) == ([from] + Chain(d, par, pp)) + [d[p]];
    }
  }

  /** A dictionary word one step from an expanded position is the start
      word or a queued word at most one level deeper than that position. */
  lemma ReachStep(d: seq<Word>, par: seq<int>, from: Word, to: Word, dict: seq<Word>,
                  cur: int, yet: int, i: int, out: int, p: int, y: Word)
    requires Inv(d, par, from, to, dict, cur, yet, i, out)
    requires !Convertible(from, to)
    requires -1 <= p < cur && Convertible(WordAt(d, from, p), y) && y in dict
    ensures y == from || exists q :: 0 <= q < yet && d[q] == y && Level(par, q) <= Level(par, p) + 1
  {
    assert y in multiset(MapUpper(d));
    var w :| 0 <= w < |d| && MapUpper(d)[w] == y;
    assert ToUpper(d[w]) == y;
    // no undecided word is one step from an expanded position
    assert Unreached(d, from, p, yet, out);
    assert w < yet || out <= w;
    if w < yet {
      assert d[w] == y;
      assert par[w] <= p;
      assert Level(par, w) == Level(par, par[w]) + 1;
    } else {
      // an eliminated word one step from a live word is the start word or
      // `to`, and no expanded position is one step from `to`
      assert Dead(d[w], from, to);
      assert |WordAt(d, from, p)| == |from|;
      assert y != to;
    }
  }

  /** Every word of a chain up to position `j` is the start word or a queued
      word of level at most `j`, provided every queued word of level below
      `j` has been expanded. */
  lemma {:induction false} Reach(d: seq<Word>, par: seq<int>, from: Word, to: Word, dict: seq<Word>,
                                 cur: int, yet: int, i: int, out: int, c: seq<Word>, j: nat)
    requires Inv(d, par, from, to, dict, cur, yet, i, out)
    requires !Convertible(from, to)
    requires IsChain(c, from, to, dict) && j <= |c| - 2
    requires j == 0 || 0 <= cur
    requires forall q :: 0 <= q < yet && Level(par, q) < j ==> q < cur
    ensures c[j] == from || exists q :: 0 <= q < yet && d[q] == c[j] && Level(par, q) <= j
    decreases j
  {
    if 0 < j {
      Reach(d, par, from, to, dict, cur, yet, i, out, c, j - 1);
      // the position p holding c[j - 1] has been expanded
      var p: int;
      if c[j - 1] == from {
        p := -1;
      } else {
        var q :| 0 <= q < yet && d[q] == c[j - 1] && Level(par, q) <= j - 1;
        p := q;
      }
      assert Convertible(c[j - 1], c[j]);
      ReachStep(d, par, from, to, dict, cur, yet, i, out, p, c[j]);
    }
  }

  /** A chain whose last-but-one word lies within the expanded part of the
      search cannot exist: that word would have reached `to` already. */
  lemma NoChainWithinExpanded(d: seq<Word>, par: seq<int>, from: Word, to: Word, dict: seq<Word>,
                              cur: int, yet: int, i: int, out: int, c: seq<Word>)
    requires Inv(d, par, from, to, dict, cur, yet, i, out)
    requires !Convertible(from, to)
    requires |c| <= 2 || 0 <= cur
    requires forall q :: 0 <= q < yet && Level(par, q) < |c| - 2 ==> q < cur
    ensures !IsChain(c, from, to, dict)
  {
    if IsChain(c, from, to, dict) {
      Reach(d, par, from, to, dict, cur, yet, i, out, c, |c| - 2);
    }
  }

  /** A scanned word one step from both the expanded word and `to` completes a
      chain, and no chain from `from` to `to` is shorter. */
  lemma HitIsShortest(d: seq<Word>, par: seq<int>, from: Word, to: Word, dict: seq<Word>,
                      cur: int, yet: int, i: int, out: int)
    requires Inv(d, par, from, to, dict, cur, yet, i, out) && cur < yet && i < out
    requires !Convertible(from, to)
    requires Live(d[i], from, to) && Convertible(WordAt(d, from, cur), d[i]) && Convertible(d[i], to)
    ensures IsChain([from] + Chain(d, par, cur) + [d[i], to], from, to, dict)
    ensures forall c :: IsChain(c, from, to, dict) ==> |[from] + Chain(d, par, cur) + [d[i], to]| <= |c|
    ensures from != to ==> Outcome(from, to, dict, [from] + Chain(d, par, cur) + [d[i], to])
  {
    var s := [from] + Chain(d, par, cur);
    ChainFacts(d, par, from, to, dict, cur, yet, i, out, cur);
    LadderExtend(s, d[i]);
    LadderExtend(s + [d[i]], to);
    InDictionary(d, dict, i);
    assert s + [d[i], to] == s + [d[i]] + [to];
    forall c | IsChain(c, from, to, dict)
      ensures |s + [d[i], to]| <= |c|
    {
      if |c| < |s| + 2 {
        forall q | 0 <= q < yet && Level(par, q) < |c| - 2
          ensures q < cur
        {
        }
        NoChainWithinExpanded(d, par, from, to, dict, cur, yet, i, out, c);
      }
    }
  }

  /** When the cursor catches up with the end of the queue, no chain exists. */
  lemma ExhaustedMeansNoChain(d: seq<Word>, par: seq<int>, from: Word, to: Word, dict: seq<Word>,
                              cur: int, out: int)
    requires Inv(d, par, from, to, dict, cur, cur, cur, out)
    requires !Convertible(from, to)
    ensures !exists c :: IsChain(c, from, to, dict)
    ensures from != to ==> Outcome(from, to, dict, [])
  {
    forall c | IsChain(c, from, to, dict)
      ensures false
    {
      NoChainWithinExpanded(d, par, from, to, dict, cur, cur, cur, out, c);
    }
  }
}

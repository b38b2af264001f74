/// Words as the chain search sees them: case-normalised strings and the
/// "one letter apart" relation between two of them.
module Words {

  type Word = string

  /** Locale-independent upper-casing of one character: basic Latin a-z and
      the Cyrillic lower-case letters U+0430..U+045F map to their capitals;
      every other character is left as it is. */
  function UpperChar(c: char): char
  {
    if 'a' <= c <= 'z' then (c as int - 32) as char
    else if '\U{0430}' <= c <= '\U{044F}' then (c as int - 32) as char
    else if '\U{0450}' <= c <= '\U{045F}' then (c as int - 80) as char
    else c
  }

  /** The upper-cased form of a word, character by character. */
  function ToUpper(s: Word): Word
  {
    seq(|s|, k requires 0 <= k < |s| => UpperChar(s[k]))
  }

  /** The upper-cased form of every word of a list, position by position. */
  function MapUpper(ws: seq<Word>): seq<Word>
  {
    seq(|ws|, k requires 0 <= k < |ws| => ToUpper(ws[k]))
  }

  /** Upper-casing twice is upper-casing once, so normalising a dictionary
      entry in place never changes the normalised dictionary. */
  lemma ToUpperIdempotent(s: Word)
    ensures |ToUpper(s)| == |s|
    ensures ToUpper(ToUpper(s)) == ToUpper(s)
  {
  }

  /** Number of positions at which two equal-length words differ. */
  function DiffCount(a: Word, b: Word): nat
    requires |a| == |b|
    decreases |a|
  {
    if |a| == 0 then 0
    else DiffCount(a[..|a| - 1], b[..|b| - 1]) + (if a[|a| - 1] != b[|b| - 1] then 1 else 0)
  }

  /** One step of a chain: equal length, exactly one differing position. */
  predicate Convertible(a: Word, b: Word)
  {
    |a| == |b| && DiffCount(a, b) == 1
  }

  /** `a` and `b` have equal length and differ at position `k` and nowhere else. */
  ghost predicate DifferOnlyAt(a: Word, b: Word, k: int)
  {
    && |a| == |b| && 0 <= k < |a| && a[k] != b[k]
    && forall j :: 0 <= j < |a| && j != k ==> a[j] == b[j]
  }

  /** Counting the differences of a prefix never gives more than counting them all. */
  lemma {:induction false} DiffCountPrefix(a: Word, b: Word, i: nat)
    requires |a| == |b| && i <= |a|
    ensures DiffCount(a[..i], b[..i]) <= DiffCount(a, b)
    decreases |a| - i
  {
    if i < |a| {
      DiffCountPrefix(a, b, i + 1);
      assert a[..i + 1][..i] == a[..i];
      assert b[..i + 1][..i] == b[..i];
    } else {
      assert a[..i] == a && b[..i] == b;
    }
  }

  /** No difference at all means the words are equal, and conversely. */
  lemma {:induction false} DiffCountZero(a: Word, b: Word)
    requires |a| == |b|
    ensures DiffCount(a, b) == 0 <==> a == b
    decreases |a|
  {
    if |a| > 0 {
      var n := |a| - 1;
      DiffCountZero(a[..n], b[..n]);
      assert a == a[..n] + [a[n]];
      assert b == b[..n] + [b[n]];
    }
  }

  /** Equal words are never one step apart. */
  lemma ConvertibleIrreflexive(a: Word)
    ensures !Convertible(a, a)
  {
    DiffCountZero(a, a);
  }

  lemma {:induction false} DiffCountSymmetric(a: Word, b: Word)
    requires |a| == |b|
    ensures DiffCount(a, b) == DiffCount(b, a)
    decreases |a|
  {
    if |a| > 0 {
      DiffCountSymmetric(a[..|a| - 1], b[..|b| - 1]);
    }
  }

  /** The step relation does not depend on the direction of the step. */
  lemma ConvertibleSymmetric(a: Word, b: Word)
    ensures Convertible(a, b) <==> Convertible(b, a)
  {
    if |a| == |b| {
      DiffCountSymmetric(a, b);
    }
  }

  /** Convertible agrees with the plain reading "equal length and exactly one
      differing position". */
  lemma {:induction false} ConvertibleIffOneDifference(a: Word, b: Word)
    ensures Convertible(a, b) <==> exists k :: DifferOnlyAt(a, b, k)
    decreases |a|
  {
    if |a| == |b| && |a| > 0 {
      var n := |a| - 1;
      var a', b' := a[..n], b[..n];
      ConvertibleIffOneDifference(a', b');
      DiffCountZero(a', b');
      assert a == a' + [a[n]] && b == b' + [b[n]];
      if Convertible(a, b) {
        if a[n] != b[n] {
          assert DifferOnlyAt(a, b, n);
        } else {
          var k :| DifferOnlyAt(a', b', k);
          assert DifferOnlyAt(a, b, k);
        }
      }
      if k :| DifferOnlyAt(a, b, k) {
        if k == n {
          assert a' == b';
        } else {
          assert DifferOnlyAt(a', b', k);
        }
      }
    }
  }
}

# Word chain search, modelled in Dafny

The model covers `WordChainer`, the word-ladder search engine of the WordChain program. Given two words and a dictionary, it finds a shortest chain from the first word to the second. Each step of a chain changes exactly one character, and every word strictly between the ends is a dictionary entry. When no chain exists, the engine returns the empty list.

The engine performs a breadth-first search in place, over its own copy of the dictionary. Three cursors split the list into zones:
- positions `[0, yetNotInChainIndex)` are the discovered queue, in the order the words were found;
- positions `[yetNotInChainIndex, outOfPlayIndex)` are the undecided words;
- positions from `outOfPlayIndex` on are the eliminated words.

`currentProcessingIndex` is the queue position being expanded. The value -1 stands for the start word, which is never stored in the list. Words change zone only by swaps. A parallel array `indexies` records, for every queued word, the position of the word it was reached from. `RestorePath` follows these parent positions back to rebuild the chain.

Layout:

- `words.dfy` (module `Words`) covers the case rule, the count of differing positions, and the one-step relation `Convertible`: equal length and exactly one differing position.
- `ladders.dfy` (module `Ladders`) defines what a chain is (`IsChain`). It also defines `Outcome`, what a search must answer:
  - the pair itself for equal or adjacent words;
  - otherwise the empty list exactly when no chain exists;
  - and otherwise a chain no longer than any other.
- `search.dfy` (module `Search`) states the search state as values (the word list, the parent list, the cursors) together with its invariant `Inv`. It has one lemma per step of the search showing the step keeps `Inv`. From `Inv` it derives that the first hit is a shortest chain (`HitIsShortest`) and that an exhausted queue means no chain exists (`ExhaustedMeansNoChain`).
- `word_chainer.dfy` (module `WordChain`) holds the class `WordChainer`. It has the two arrays, the three cursors and the operations as methods that update them in place. `FindChain` is proved to return an `Outcome`, and to keep the class invariant `Valid`:
  - the arrays are parallel;
  - the cursors are ordered;
  - every parent lies before its child;
  - the dictionary's words are preserved up to order and upper-casing.
- `scenarios.dfy` (module `Scenarios`) covers the dictionaries of the test suite and the answers the engine gives on them, plus the identity and adjacency answers.

Upper-casing follows one fixed, locale-independent rule. The letters a-z and the Cyrillic lower-case letters U+0430..U+045F map to their capitals, and every other character is left as it is.

## Model

| member | source | states |
|---|---|---|
| WordChain.WordChainer.constructor | WordChain/WordChainer.cs:31-35 | The engine holds a fresh copy of the dictionary, in the given order, and a parent array of the same length. The class invariant holds from the start. |
| WordChain.WordChainer.IsConvertable | WordChain/WordChainer.cs:69-90 | The answer is true exactly when the words are equal, or have equal length and differ in exactly one position. Different lengths, or two or more differences, give false. |
| WordChain.WordChainer.Swap | WordChain/WordChainer.cs:97-104 | The entries at the two positions are exchanged and all others are unchanged; with equal positions nothing changes. The multiset of words is preserved. |
| WordChain.WordChainer.RemoveFromProcessing | WordChain/WordChainer.cs:110-119 | For an undecided position, the undecided zone shrinks by one and the removed word lands at the new `outOfPlayIndex` by a swap. `yetNotInChainIndex`, the parent array, the discovered zone and the words already eliminated are untouched. |
| WordChain.WordChainer.AddToQueue | WordChain/WordChainer.cs:133-143 | The word moves by a swap to position `yetNotInChainIndex`. Its parent becomes `currentProcessingIndex`, and the queue grows by one. No other parent entry changes. The earlier queue, its parents and the eliminated zone stay as they were. |
| WordChain.WordChainer.InitProcessing | WordChain/WordChainer.cs:145-150 | Empty queue, every word undecided, and the start word being expanded. |
| WordChain.WordChainer.FirstPassCheck | WordChain/WordChainer.cs:181-194 | The scanned word is upper-cased in place. It is eliminated exactly when its length differs from the start word's or it equals either end word; otherwise it stays in place and is a candidate. The queue and the words already eliminated are untouched, and the search invariant is kept. |
| WordChain.WordChainer.ExpandCurrent | WordChain/WordChainer.cs:177-206 | Scanning the undecided words against the word being expanded either returns a chain that satisfies `Outcome`, or queues every undecided word one step away and keeps the search invariant. In that case the queue only grows and the eliminated zone only grows: the earlier queue, its parents and the earlier eliminated words stay as they were. |
| WordChain.WordChainer.FindChain | WordChain/WordChainer.cs:160-222 | The result is `[from, to]` for equal or adjacent upper-cased words. Otherwise it is empty exactly when no chain exists, else a chain from `from` to `to` through upper-cased dictionary entries that is no longer than any other. The cursors stay ordered, parents lie before their children, and the dictionary's words are preserved. |
| WordChain.WordChainer.RestorePath | WordChain/WordChainer.cs:230-235 | The path is the skeleton with the words met along the parent positions, from the current position back to the start word, inserted after its first word in chain order. |
| Words.ConvertibleIffOneDifference | WordChain/WordChainer.cs:69-90 | The counting definition of one step is the same as "equal length and differs at exactly one position, and nowhere else". |
| Words.DiffCountZero | WordChain/WordChainer.cs:76-89 | Zero differences means the words are equal, and conversely. |
| Words.ConvertibleIrreflexive | WordChain/WordChainer.cs:87-88 | A word is never one step from itself. This documents the relation; no other proof uses it. |
| Words.ConvertibleSymmetric | WordChain/WordChainer.cs:197-199 | The one-step relation does not depend on direction. This documents the relation; no other proof uses it. |
| Words.ToUpperIdempotent | WordChain/WordChainer.cs:183-184 | Upper-casing keeps the length, and upper-casing twice is upper-casing once. |
| Ladders.TrivialOutcome | WordChain/WordChainer.cs:167-168 | For equal or adjacent words the pair itself is the required answer. |
| Search.SwappedKeepsWords | WordChain/WordChainer.cs:97-104 | A swap is the identity on equal positions. It preserves the multiset of words, and also the multiset of their upper-cased forms. |
| Search.Start | WordChain/WordChainer.cs:145-150 | After initialisation the search invariant holds: empty queue, nothing scanned, nothing eliminated. |
| Search.UpperStep | WordChain/WordChainer.cs:183-184 | Upper-casing the scanned word in place keeps the invariant. |
| Search.RemoveStep | WordChain/WordChainer.cs:186-193 | Eliminating a word that has the wrong length or equals an end word, by swapping it behind the undecided zone, keeps the invariant. The scan cursor stays put. |
| Search.SkipStep | WordChain/WordChainer.cs:197-205 | Passing over a candidate that is not one step from the expanded word keeps the invariant. |
| Search.AddToQueueKeepsQueue | WordChain/WordChainer.cs:139-141 | Appending a word with the expanded position as parent keeps parents before children, every queued word live and one step from its parent, and levels non-decreasing along the queue. |
| Search.AddKeepsClassified | WordChain/WordChainer.cs:139-141 | After the swap into the queue, the scanned undecided words are still all live. |
| Search.AddKeepsUnreached | WordChain/WordChainer.cs:139-141 | After the swap into the queue, no scanned undecided word is one step from the expanded word. |
| Search.AddKeepsClosed | WordChain/WordChainer.cs:139-141 | After the swap into the queue, no expanded word reaches an undecided word. Any queued word an expanded word reaches has its parent no later than it. |
| Search.AddStep | WordChain/WordChainer.cs:197-205 | Queueing a candidate one step from the expanded word, but not from `to`, keeps the invariant and the expanded word. |
| Search.AdvanceStep | WordChain/WordChainer.cs:208-218 | After a full scan, moving the cursor to the next queued word keeps the invariant, and later passes skip classification. |
| Search.InvKeepsWords | WordChain/WordChainer.cs:97-104 | Extracts from `Inv` that the upper-cased word list is a permutation of the upper-cased dictionary. The step lemmas keep this part of `Inv` through every swap and in-place upper-casing. |
| Search.InvParents | WordChain/WordChainer.cs:140 | Extracts from `Inv` that every recorded parent position p at queue position q satisfies -1 <= p < q, so the walk in RestorePath ends. |
| Search.UndecidedIsLive | WordChain/WordChainer.cs:172 | Extracts from `Inv` that, after the first pass, every undecided word is upper-case, has the start word's length and differs from both end words. |
| Search.ExpandedNotUndecided | WordChain/WordChainer.cs:87-89 | The word being expanded is never compared with an equal undecided word. |
| Search.ChainFacts | WordChain/WordChainer.cs:230-235 | The parent walk from a queue position has as many words as its level. Prefixed with the start word it is a ladder ending at that position's word, made of dictionary entries. |
| Search.Reach | WordChain/WordChainer.cs:174-218 | Every word of a chain, up to the expanded level, is the start word or a queued word whose level is at most its index in the chain. This is breadth-first order. |
| Search.NoChainWithinExpanded | WordChain/WordChainer.cs:174-218 | No chain is shorter than the levels already expanded allow. |
| Search.HitIsShortest | WordChain/WordChainer.cs:199-200 | A scanned word one step from both the expanded word and `to` completes a chain that is no longer than any other. |
| Search.ExhaustedMeansNoChain | WordChain/WordChainer.cs:208-214 | When the cursor reaches the end of the queue, no chain exists, and the empty list is the required answer. |
| Scenarios.KotToTonOutcome | WordChainTests/WordChainerTest.cs:43-47 | Over КОТ,ТОН,НОТА,КОТЫ,РОТ,РОТА,ТОТ, the only acceptable answer from КОТ to ТОН is КОТ,ТОТ,ТОН. |
| Scenarios.KotToTon | WordChainTests/WordChainerTest.cs:43-47 | The engine built on that dictionary answers КОТ,ТОТ,ТОН. |
| Scenarios.KotToUkhoOutcome | WordChainTests/WordChainerTest.cs:49-54 | Over the fourteen three-letter words, no chain from КОТ to УХО exists, so the answer is empty. |
| Scenarios.KotToUkho | WordChainTests/WordChainerTest.cs:49-54 | The engine built on that dictionary answers with the empty list. |
| Scenarios.ShikAtLeastSix | WordChainTests/WordChainerTest.cs:56-61 | Every chain from КОТ to ШИК over the three-letter dictionary has at least six words. |
| Scenarios.ShikInterior | WordChainTests/WordChainerTest.cs:56-61 | A six-word chain from КОТ to ШИК runs КОТ, ТОТ, ТОП, ШОП, then ШОК or ШИП, then ШИК. |
| Scenarios.KotToShikOutcome | WordChainTests/WordChainerTest.cs:56-61 | Any acceptable answer from КОТ to ШИК has six words, in the shape above. |
| Scenarios.KotToShik | WordChainTests/WordChainerTest.cs:56-61 | The engine built on the three-letter dictionary answers КОТ,ТОТ,ТОП,ШОП, then ШОК or ШИП, then ШИК. |
| Scenarios.KotToUkhoMixedOutcome | WordChainTests/WordChainerTest.cs:63-68 | Over КОТ,УХО,КОЛ,(empty),ОКО, no chain from КОТ to УХО exists. |
| Scenarios.KotToUkhoMixed | WordChainTests/WordChainerTest.cs:63-68 | The engine built on that dictionary answers with the empty list. |
| Scenarios.NoChainIntoIsolated | WordChainTests/WordChainerTest.cs:49-54 | When neither the start word nor any entry is one step from `to`, no chain ends at `to`. |
| Scenarios.SameWordTwice | WordChain/WordChainer.cs:167-168 | A word searched against itself is answered with the upper-cased word twice, for any dictionary. |
| Scenarios.AdjacentPair | WordChain/WordChainer.cs:167-168 | Two words one step apart are answered with the upper-cased pair, even over an empty dictionary. |
| Scenarios.RemoveGuardRejectsLastWord | WordChain/WordChainer.cs:112 | A search state that satisfies the invariant, in which the first pass must eliminate the last undecided word, violates the bound written at line 112. |

## Left out

- WordChain/Program.cs (reading the word files, console output, command-line handling) is not part of this model: it is input and output around the engine.
- `ToString` and `ShowState` (WordChain/WordChainer.cs:41-61, 121-127) only produce debug trace output, which does not affect results.
- Words are sequences of Unicode scalar values, while C# `Length` and indexing count UTF-16 code units. For words with characters outside the Basic Multilingual Plane, the length test and the one-step test differ from the program. For example, the single characters U+1F600 and U+1D400 are one step apart in the model, but two code units apart in C#.
- The platform's culture-sensitive `String.ToUpper` is replaced by the fixed rule described above. Only a-z and U+0430..U+045F are upper-cased. Every other letter that has a capital stays as it is, while C# capitalises it in every culture: for example é, Ukrainian ґ (U+0491) and the rest of U+0460..U+04FF. Under the Turkish or Azeri cultures C# also maps i to İ (U+0130), where the model gives I. Words containing such letters give results that differ from the program.
- `Debug.Assert` calls become preconditions, loop invariants and proved facts. The assertion at line 88, that compared words are never equal, is proved for every comparison made during the search (`Search.ExpandedNotUndecided`, `Search.UndecidedIsLive`). `IsConvertable` itself keeps answering true for equal words, as the code does.
- The source's `FindChain` has one method body. The model splits off the inner scan (lines 177-206) as `ExpandCurrent`, and the first-pass classification (lines 181-194) as `FirstPassCheck`. Branches, order of operations and state changes are those of the source.
- WordChain.WordChainer.FindChain: does not state which shortest chain is returned when several exist. The engine picks the first one in scan order; the model promises only some shortest chain.
- Scenarios.KotToShik: states that the fifth word is ШОК or ШИП. The test expects ШОК, which depends on the scan-order tie-break the model does not state.
- The tests that load `word3.txt`, `word4.txt` and the example input files (WordChainTests/WordChainerTest.cs:25-40, 71-102) are not modelled, because those files are not part of this model.
- The result is a sequence rather than an `IEnumerable`. Positions are unbounded integers: a C# list never holds more than 2^31 - 1 entries, so the cursors cannot overflow.

## Findings

| source | as written | input that shows it | evidently intended | confidence | as-written member | corrected member |
|---|---|---|---|---|---|---|
| WordChain/WordChainer.cs:112 | `RemoveFromProcessing` asserts `index < _outOfPlayIndex - 1` | Searching КОТ to УХО over the one-word dictionary КОТ: the first pass eliminates КОТ at position 0, calling `RemoveFromProcessing(0)` with `_outOfPlayIndex` 1 | `index < _outOfPlayIndex`: the last undecided word may be eliminated, and the swap then swaps it with itself | not executed | Scenarios.RemoveGuardRejectsLastWord | WordChain.WordChainer.RemoveFromProcessing |

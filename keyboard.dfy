/**
 * The tile set shown for one word (generateKeyboard, js/game.js:935-1031).
 *
 * The word's distinct symbols are split into a consonant section and a vowel-and-tone
 * section; each section is padded with decoys drawn at random from its pool until it
 * holds 12 (respectively 4) tiles, shuffled, and the consonant section is laid out first.
 *
 * Randomness is an oracle: `draws` are the pool indices that Math.random() would have
 * produced, one per trip round a padding loop, and an index permutation stands for the
 * result of the random-comparator sort.
 */
module Keyboard {
  import opened SeqUtil
  import opened Thai

  /** Consonant tiles when the word needs no more (three rows of four). */
  const ConsonantSlots: nat := 12
  /** Vowel and tone tiles when the word needs no more (one row of four). */
  const VowelSlots: nat := 4

  function Max(a: nat, b: nat): nat
  {
    if a < b then b else a
  }

  /** The distinct symbols of `word`, each at its first occurrence (`[...new Set(word)]`). */
  function DistinctSymbols(word: string): (r: string)
    ensures Distinct(r)
    ensures forall c :: c in r <==> c in word
  {
    if word == [] then []
    else
      var init := word[..|word| - 1];
      var c := word[|word| - 1];
      assert word == init + [c];
      var r0 := DistinctSymbols(init);
      if c in r0 then r0 else r0 + [c]
  }

  /** The symbols of `s` whose class is consonant (or not, when `consonant` is false), in order. */
  function SelectClass(s: string, consonant: bool): (r: string)
    ensures forall c :: c in r <==> c in s && IsConsonantClass(c) == consonant
    ensures Distinct(s) ==> Distinct(r)
  {
    if s == [] then []
    else
      var init := s[..|s| - 1];
      var c := s[|s| - 1];
      assert s == init + [c];
      var r0 := SelectClass(init, consonant);
      if IsConsonantClass(c) == consonant then r0 + [c] else r0
  }

  /** `consonantsInWord` at js/game.js:1003. */
  function WordConsonants(word: string): string
  {
    SelectClass(DistinctSymbols(word), true)
  }

  /** `vowelsInWord` at js/game.js:1004: every other distinct symbol of the word. */
  function WordVowels(word: string): string
  {
    SelectClass(DistinctSymbols(word), false)
  }

  /** The two classes partition the word's distinct symbols. */
  lemma WordClasses(word: string)
    ensures Distinct(WordConsonants(word)) && Distinct(WordVowels(word))
    ensures forall c :: c in word <==> c in WordConsonants(word) || c in WordVowels(word)
    ensures forall c :: c in WordConsonants(word) <==> c in word && IsConsonantClass(c)
    ensures forall c :: c in WordVowels(word) <==> c in word && !IsConsonantClass(c)
  {
  }

  predicate DrawsInRange(draws: seq<nat>, pool: string)
  {
    forall i :: 0 <= i < |draws| ==> draws[i] < |pool|
  }

  /** The pool symbols hit by `draws` that the word does not already supply. */
  function FreshDrawn(required: string, pool: string, draws: seq<nat>): (r: set<char>)
    requires DrawsInRange(draws, pool)
    ensures forall c :: c in r ==> c in pool && c !in required
  {
    if draws == [] then {}
    else
      var c := pool[draws[|draws| - 1]];
      FreshDrawn(required, pool, draws[..|draws| - 1]) + (if c in required then {} else {c})
  }

  /** The random source hits enough fresh symbols for a section to reach `target` tiles. */
  predicate Adequate(required: string, pool: string, target: nat, draws: seq<nat>)
  {
    DrawsInRange(draws, pool) && |required| + |FreshDrawn(required, pool, draws)| >= target
  }

  /**
   * One padding loop (js/game.js:1011-1016 and 1019-1024): draw from `pool` and keep each
   * symbol that is neither required nor already kept, until `required` and the decoys
   * together reach `target`.
   */
  method PadWithDecoys(required: string, pool: string, target: nat, draws: seq<nat>)
    returns (decoys: string)
    requires Adequate(required, pool, target, draws)
    ensures |required| + |decoys| == Max(target, |required|)
    ensures Distinct(decoys)
    ensures forall c :: c in decoys ==> c in pool && c !in required
  {
    decoys := [];
    var k := 0;
    while |decoys| + |required| < target
      invariant 0 <= k <= |draws|
      invariant |required| + |decoys| <= Max(target, |required|)
      invariant Distinct(decoys)
      invariant Elems(decoys) == FreshDrawn(required, pool, draws[..k])
      decreases |draws| - k
    {
      DistinctCard(decoys);
      assert draws[..|draws|] == draws;
      var c := pool[draws[k]];
      assert draws[..k + 1][..k] == draws[..k];
      if c !in required && c !in decoys {
        decoys := decoys + [c];
      }
      k := k + 1;
    }
    assert forall c :: c in decoys ==> c in Elems(decoys);
  }

  /** A section rearranged by an index-permutation oracle (the random sort at js/game.js:1027-1028). */
  function Shuffle(xs: string, order: seq<nat>): (r: string)
    requires IsIndexPermutation(order, |xs|)
    ensures |r| == |xs|
  {
    seq(|xs|, i requires 0 <= i < |xs| => xs[order[i]])
  }

  /** Shuffling a repetition-free section yields a permutation of it. */
  lemma ShufflePermutes(xs: string, order: seq<nat>)
    requires IsIndexPermutation(order, |xs|)
    requires Distinct(xs)
    ensures Distinct(Shuffle(xs, order))
    ensures forall c :: c in Shuffle(xs, order) <==> c in xs
    ensures multiset(Shuffle(xs, order)) == multiset(xs)
  {
    var r := Shuffle(xs, order);
    forall i, j | 0 <= i < j < |r| ensures r[i] != r[j] {
      assert order[i] != order[j];
    }
    IndexPermutationOnto(order, |xs|);
    forall c | c in xs ensures c in r {
      var j :| 0 <= j < |xs| && xs[j] == c;
      assert j in order;
      var i :| 0 <= i < |order| && order[i] == j;
      assert r[i] == c;
    }
    SameElemsPermutation(r, xs);
  }

  /** The two pools hold no symbol twice, so they are large enough for their sections (js/game.js:556-558). */
  lemma PoolSizes()
    ensures |Elems(ConsonantPool)| == |ConsonantPool| == 41
    ensures |Elems(VowelPool)| == |VowelPool| == 19
  {
    AscendingDistinct(ConsonantPool);
    DistinctCard(ConsonantPool);
    VowelPoolDistinct();
    DistinctCard(VowelPool);
  }

  /** The first ascending run of the vowel pool. */
  const VowelFront: string := ['ะ', 'า', '\U{E34}', '\U{E35}', '\U{E36}', '\U{E37}', '\U{E38}',
                               '\U{E39}', 'เ', 'แ', 'โ', 'ใ', 'ไ']
  /** The second ascending run of the vowel pool. */
  const VowelBack: string := ['\U{E31}', '\U{E48}', '\U{E49}', '\U{E4A}', '\U{E4B}']

  /** The vowel pool is two ascending runs, the second one behind a lone 'ำ'. */
  lemma VowelPoolDistinct()
    ensures Distinct(VowelPool)
  {
    assert VowelPool == VowelFront + (['ำ'] + VowelBack);
    assert Ascending(VowelFront) && Ascending(VowelBack);
    AscendingDistinct(VowelFront);
    AscendingDistinct(VowelBack);
    DistinctConcat(['ำ'], VowelBack);
    VowelRunsApart();
    DistinctConcat(VowelFront, ['ำ'] + VowelBack);
  }

  lemma VowelRunsApart()
    ensures forall c :: c in ['ำ'] + VowelBack ==> c !in VowelFront
  {
  }

  /** Consonant decoys are consonant-class symbols; vowel decoys never are. */
  lemma PoolClasses()
    ensures forall c :: c in ConsonantPool ==> IsConsonantClass(c)
    ensures forall c :: c in VowelPool ==> !IsConsonantClass(c)
  {
    assert forall c :: c in ConsonantImageKeys ==> c < '\U{E30}';
    assert forall c :: c in VowelPool ==> '\U{E30}' <= c;
  }

  /** Drawing every index of the pool once. */
  function AllIndices(n: nat): (r: seq<nat>)
    ensures |r| == n && forall i :: 0 <= i < n ==> r[i] == i
  {
    seq(n, i requires 0 <= i < n => i)
  }

  lemma {:induction false} FreshDrawnAllIndices(required: string, pool: string, k: nat)
    requires k <= |pool|
    ensures DrawsInRange(AllIndices(k), pool)
    ensures FreshDrawn(required, pool, AllIndices(k)) == Elems(pool[..k]) - Elems(required)
  {
    if k > 0 {
      FreshDrawnAllIndices(required, pool, k - 1);
      assert AllIndices(k)[..k - 1] == AllIndices(k - 1);
      assert pool[..k] == pool[..k - 1] + [pool[k - 1]];
      assert Elems(pool[..k]) == Elems(pool[..k - 1]) + {pool[k - 1]};
    }
  }

  /**
   * A pool with at least `target` distinct symbols always lets a section be padded: the
   * draws that hit every pool index once are adequate, so the padding loop terminates.
   */
  lemma ExhaustiveDrawsAdequate(required: string, pool: string, target: nat)
    requires Distinct(required)
    requires |Elems(pool)| >= target
    ensures Adequate(required, pool, target, AllIndices(|pool|))
  {
    FreshDrawnAllIndices(required, pool, |pool|);
    assert pool[..|pool|] == pool;
    var unused := Elems(pool) - Elems(required);
    DistinctCard(required);
    assert Elems(pool) == unused + (Elems(pool) * Elems(required));
    SubsetCard(Elems(pool) * Elems(required), Elems(required));
  }

  /** For the game's own pools every word can be padded. */
  lemma PoolsSuffice(word: string)
    ensures Adequate(WordConsonants(word), ConsonantPool, ConsonantSlots, AllIndices(|ConsonantPool|))
    ensures Adequate(WordVowels(word), VowelPool, VowelSlots, AllIndices(|VowelPool|))
  {
    PoolSizes();
    WordClasses(word);
    ExhaustiveDrawsAdequate(WordConsonants(word), ConsonantPool, ConsonantSlots);
    ExhaustiveDrawsAdequate(WordVowels(word), VowelPool, VowelSlots);
  }

  /**
   * The random choices for one keyboard: draws that reach each section's size and a
   * shuffle order of the right length for each section.
   */
  predicate OraclesFit(word: string, consonantDraws: seq<nat>, vowelDraws: seq<nat>,
                       consonantOrder: seq<nat>, vowelOrder: seq<nat>)
  {
    && Adequate(WordConsonants(word), ConsonantPool, ConsonantSlots, consonantDraws)
    && Adequate(WordVowels(word), VowelPool, VowelSlots, vowelDraws)
    && IsIndexPermutation(consonantOrder, Max(ConsonantSlots, |WordConsonants(word)|))
    && IsIndexPermutation(vowelOrder, Max(VowelSlots, |WordVowels(word)|))
  }

  /**
   * generateKeyboard: the consonant section (the word's consonants plus decoys, shuffled)
   * followed by the vowel-and-tone section. Also returns the decoys each section received.
   */
  method GenerateKeyboard(word: string, consonantDraws: seq<nat>, vowelDraws: seq<nat>,
                          consonantOrder: seq<nat>, vowelOrder: seq<nat>)
    returns (tiles: string, consonantDecoys: string, vowelDecoys: string)
    requires OraclesFit(word, consonantDraws, vowelDraws, consonantOrder, vowelOrder)
    ensures |tiles| == Max(ConsonantSlots, |WordConsonants(word)|) + Max(VowelSlots, |WordVowels(word)|)
    ensures Distinct(tiles)
    ensures forall c :: c in word ==> c in tiles
    ensures var n := Max(ConsonantSlots, |WordConsonants(word)|);
      && (forall i :: 0 <= i < n ==> IsConsonantClass(tiles[i]))
      && (forall i :: n <= i < |tiles| ==> !IsConsonantClass(tiles[i]))
      && multiset(tiles[..n]) == multiset(WordConsonants(word) + consonantDecoys)
      && multiset(tiles[n..]) == multiset(WordVowels(word) + vowelDecoys)
    ensures forall c :: c in consonantDecoys ==> c in ConsonantPool && c !in word
    ensures forall c :: c in vowelDecoys ==> c in VowelPool && c !in word
  {
    var consonantsInWord := WordConsonants(word);
    var vowelsInWord := WordVowels(word);
    WordClasses(word);
    PoolClasses();
    consonantDecoys := PadWithDecoys(consonantsInWord, ConsonantPool, ConsonantSlots, consonantDraws);
    vowelDecoys := PadWithDecoys(vowelsInWord, VowelPool, VowelSlots, vowelDraws);

    var consonantSection := consonantsInWord + consonantDecoys;
    var vowelSection := vowelsInWord + vowelDecoys;
    DistinctConcat(consonantsInWord, consonantDecoys);
    DistinctConcat(vowelsInWord, vowelDecoys);
    var consonantChars := Shuffle(consonantSection, consonantOrder);
    var vowelChars := Shuffle(vowelSection, vowelOrder);
    ShufflePermutes(consonantSection, consonantOrder);
    ShufflePermutes(vowelSection, vowelOrder);
    tiles := consonantChars + vowelChars;

    var n := |consonantChars|;
    assert tiles[..n] == consonantChars && tiles[n..] == vowelChars;
    forall i | 0 <= i < n ensures IsConsonantClass(tiles[i]) {
      assert tiles[i] in consonantChars;
    }
    forall i | n <= i < |tiles| ensures !IsConsonantClass(tiles[i]) {
      assert tiles[i] in vowelChars;
    }
    DistinctConcat(consonantChars, vowelChars);
    forall c | c in word ensures c in tiles {
      if IsConsonantClass(c) {
        assert c in consonantChars;
      } else {
        assert c in vowelChars;
      }
    }
  }
}

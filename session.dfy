/**
 * The answer being assembled for the current word (js/game.js:1088-1148 and 1205-1213).
 *
 * `entries` is the array `currentAnswer`: each entry is one symbol, or the empty string once
 * resetAnswer has blanked it. `selected` is the set of tiles drawn as selected; the keyboard
 * holds one tile per distinct symbol, so a tile is named by its symbol.
 */
module Session {
  import opened SeqUtil
  import Keyboard

  /** `currentAnswer.join('')`: the text that is compared with the word. */
  function Join(entries: seq<string>): string
  {
    if entries == [] then [] else Join(entries[..|entries| - 1]) + entries[|entries| - 1]
  }

  lemma {:induction false} JoinAppend(a: seq<string>, b: seq<string>)
    ensures Join(a + b) == Join(a) + Join(b)
  {
    if b != [] {
      var init := b[..|b| - 1];
      assert (a + b)[..|a + b| - 1] == a + init;
      JoinAppend(a, init);
    } else {
      assert a + b == a;
    }
  }

  /** Every entry is a single symbol or blank. */
  predicate SymbolEntries(entries: seq<string>)
  {
    forall i :: 0 <= i < |entries| ==> |entries[i]| <= 1
  }

  /**
   * The answer invariant the toggle keeps: the answer text repeats no symbol, and the
   * symbols in it are exactly the selected tiles.
   */
  predicate Consistent(entries: seq<string>, selected: set<char>)
  {
    && SymbolEntries(entries)
    && Distinct(Join(entries))
    && Elems(Join(entries)) == selected
  }

  /** The index of the last entry equal to `e`, or -1 (the backwards search at js/game.js:1092-1098). */
  function LastIndexOf(entries: seq<string>, e: string): (r: int)
    ensures -1 <= r < |entries|
    ensures r >= 0 ==> entries[r] == e
    ensures forall j :: r < j < |entries| ==> entries[j] != e
  {
    if entries == [] then -1
    else if entries[|entries| - 1] == e then |entries| - 1
    else LastIndexOf(entries[..|entries| - 1], e)
  }

  /** The backwards search of selectCharacter for the entry holding `c` (js/game.js:1092-1098). */
  method FindLastEntry(entries: seq<string>, c: char) returns (charIndex: int)
    ensures charIndex == LastIndexOf(entries, [c])
  {
    charIndex := -1;
    var i := |entries| - 1;
    while i >= 0
      invariant -1 <= i < |entries|
      invariant forall j :: i < j < |entries| ==> entries[j] != [c]
    {
      if entries[i] == [c] {
        charIndex := i;
        return;
      }
      i := i - 1;
    }
  }

  /** `splice(i, 1)`. */
  function RemoveAt(entries: seq<string>, i: nat): (r: seq<string>)
    requires i < |entries|
    ensures |r| == |entries| - 1
  {
    entries[..i] + entries[i + 1..]
  }

  /** Pressing an unselected tile appends its symbol and keeps the invariant. */
  lemma AppendKeepsConsistent(entries: seq<string>, selected: set<char>, c: char)
    requires Consistent(entries, selected)
    requires c !in selected
    ensures Consistent(entries + [[c]], selected + {c})
    ensures Join(entries + [[c]]) == Join(entries) + [c]
  {
    JoinAppend(entries, [[c]]);
    assert Join([[c]]) == [c] by {
      assert [[c]][..0] == [];
    }
    var t := Join(entries);
    assert Elems(t + [c]) == Elems(t) + {c};
    DistinctConcat(t, [c]);
  }

  /** Removing the entry of a selected symbol drops exactly that symbol from the text. */
  lemma RemoveKeepsConsistent(entries: seq<string>, selected: set<char>, i: nat, c: char)
    requires Consistent(entries, selected)
    requires i < |entries| && entries[i] == [c]
    ensures Consistent(RemoveAt(entries, i), selected - {c})
    ensures Join(RemoveAt(entries, i)) == Join(entries[..i]) + Join(entries[i + 1..])
  {
    var pre, post := entries[..i], entries[i + 1..];
    assert entries == pre + [[c]] + post;
    JoinAppend(pre + [[c]], post);
    JoinAppend(pre, [[c]]);
    JoinAppend(pre, post);
    assert Join([[c]]) == [c] by {
      assert [[c]][..0] == [];
    }
    var a, b := Join(pre), Join(post);
    assert Join(entries) == a + [c] + b;
    assert RemoveAt(entries, i) == pre + post;
    DropMiddle(a, c, b);
    SymbolEntriesRemove(entries, i);
  }

  /** Taking a symbol out of a text without repetitions. */
  lemma DropMiddle(a: string, c: char, b: string)
    requires Distinct(a + [c] + b)
    ensures Distinct(a + b)
    ensures c !in a && c !in b
    ensures Elems(a + [c] + b) - {c} == Elems(a + b)
  {
    var whole := a + [c] + b;
    forall p, q | 0 <= p < q < |a + b| ensures (a + b)[p] != (a + b)[q] {
      var p', q' := if p < |a| then p else p + 1, if q < |a| then q else q + 1;
      assert (a + b)[p] == whole[p'] && (a + b)[q] == whole[q'];
    }
    forall p | 0 <= p < |a| ensures a[p] != c {
      assert whole[p] == a[p] && whole[|a|] == c;
    }
    forall p | 0 <= p < |b| ensures b[p] != c {
      assert whole[|a| + 1 + p] == b[p] && whole[|a|] == c;
    }
    assert Elems(whole) == Elems(a) + {c} + Elems(b);
    assert Elems(a + b) == Elems(a) + Elems(b);
  }

  lemma SymbolEntriesRemove(entries: seq<string>, i: nat)
    requires SymbolEntries(entries) && i < |entries|
    ensures SymbolEntries(RemoveAt(entries, i))
  {
    var r := RemoveAt(entries, i);
    forall k | 0 <= k < |r| ensures |r[k]| <= 1 {
      if k < i {
        assert r[k] == entries[k];
      } else {
        assert r[k] == entries[k + 1];
      }
    }
  }

  /** A selected tile's symbol has an entry of its own. */
  lemma SelectedHasEntry(entries: seq<string>, selected: set<char>, c: char)
    requires Consistent(entries, selected)
    requires c in selected
    ensures LastIndexOf(entries, [c]) >= 0
  {
    if LastIndexOf(entries, [c]) < 0 {
      NoEntryNotInText(entries, c);
    }
  }

  lemma {:induction false} NoEntryNotInText(entries: seq<string>, c: char)
    requires SymbolEntries(entries)
    requires forall j :: 0 <= j < |entries| ==> entries[j] != [c]
    ensures c !in Join(entries)
  {
    if entries != [] {
      var init := entries[..|entries| - 1];
      NoEntryNotInText(init, c);
      var last := entries[|entries| - 1];
      assert |last| <= 1 && last != [c];
      assert last == [] || last[0] != c;
    }
  }

  /** Popping the last entry drops its symbol (if any) from the selected tiles. */
  lemma PopKeepsConsistent(entries: seq<string>, selected: set<char>)
    requires Consistent(entries, selected)
    requires entries != []
    ensures var last := entries[|entries| - 1];
      Consistent(entries[..|entries| - 1], if |last| == 1 then selected - {last[0]} else selected)
  {
    var n := |entries| - 1;
    var last := entries[n];
    if |last| == 1 {
      assert last == [last[0]];
      RemoveKeepsConsistent(entries, selected, n, last[0]);
      assert RemoveAt(entries, n) == entries[..n];
    } else {
      assert last == [];
      assert Join(entries) == Join(entries[..n]);
    }
  }

  /** The blanked answer of resetAnswer: same length, every entry empty. */
  function Blank(n: nat): (r: seq<string>)
    ensures |r| == n && forall i :: 0 <= i < n ==> r[i] == ""
  {
    seq(n, i => "")
  }

  lemma {:induction false} BlankJoinsEmpty(n: nat)
    ensures Join(Blank(n)) == ""
    ensures Consistent(Blank(n), {})
  {
    if n > 0 {
      BlankJoinsEmpty(n - 1);
      assert Blank(n)[..n - 1] == Blank(n - 1);
    }
  }

  /**
   * Because a selected tile deselects instead of appending again, an answer never holds a
   * symbol twice: no consistent answer spells a word with a repeated symbol.
   */
  lemma RepeatedSymbolUnspellable(entries: seq<string>, selected: set<char>, word: string)
    requires Consistent(entries, selected)
    requires !Distinct(word)
    ensures Join(entries) != word
  {
  }

  /** The keyboard and the answer for the word on screen. */
  class AnswerSession {
    /** The tiles of the current keyboard, in display order. */
    var tiles: string
    /** `currentAnswer`. */
    var entries: seq<string>
    /** The tiles drawn as selected, named by their symbol. */
    var selected: set<char>

    /** The answer invariant holds, and only tiles of the keyboard are selected. */
    ghost predicate Valid()
      reads this
    {
      && Consistent(entries, selected)
      && selected <= Elems(tiles)
    }

    /** The answer text shown in the slot. */
    function Text(): string
      reads this
    {
      Join(entries)
    }

    constructor ()
      ensures Valid()
      ensures tiles == [] && entries == [] && selected == {}
    {
      tiles, entries, selected := [], [], {};
    }

    /**
     * setupWordDisplay (js/game.js:913 and 923): empty the answer, clear every selection
     * and lay out a fresh keyboard for `word`.
     */
    method SetUpWord(word: string, consonantDraws: seq<nat>, vowelDraws: seq<nat>,
                     consonantOrder: seq<nat>, vowelOrder: seq<nat>)
      requires Keyboard.OraclesFit(word, consonantDraws, vowelDraws, consonantOrder, vowelOrder)
      modifies this
      ensures Valid()
      ensures entries == [] && selected == {}
      ensures Distinct(tiles)
      ensures forall c :: c in word ==> c in tiles
      ensures |tiles| == Keyboard.Max(Keyboard.ConsonantSlots, |Keyboard.WordConsonants(word)|)
                         + Keyboard.Max(Keyboard.VowelSlots, |Keyboard.WordVowels(word)|)
    {
      var keys, _, _ := Keyboard.GenerateKeyboard(word, consonantDraws, vowelDraws,
                                                  consonantOrder, vowelOrder);
      tiles, entries, selected := keys, [], {};
    }

    /**
     * selectCharacter: pressing an unselected tile appends its symbol and selects it;
     * pressing a selected tile removes the last entry holding its symbol and deselects it.
     */
    method SelectCharacter(c: char)
      requires Valid()
      requires c in tiles
      modifies this
      ensures Valid()
      ensures tiles == old(tiles)
      ensures c !in old(selected) ==>
        && entries == old(entries) + [[c]]
        && selected == old(selected) + {c}
        && Text() == old(Text()) + [c]
      ensures c in old(selected) ==>
        && LastIndexOf(old(entries), [c]) >= 0
        && entries == RemoveAt(old(entries), LastIndexOf(old(entries), [c]))
        && selected == old(selected) - {c}
    {
      var answer, marked := entries, selected;
      if c in selected {
        var charIndex := FindLastEntry(entries, c);
        SelectedHasEntry(entries, selected, c);
        if charIndex != -1 {
          RemoveKeepsConsistent(entries, selected, charIndex, c);
          answer := RemoveAt(entries, charIndex);
        }
        marked := selected - {c};
      } else {
        AppendKeepsConsistent(entries, selected, c);
        answer := entries + [[c]];
        marked := selected + {c};
      }
      assert marked <= Elems(tiles);
      entries, selected := answer, marked;
    }

    /**
     * deleteLastChar: on a non-empty answer pop the last entry and deselect the tile that
     * bears its symbol; on an empty answer do nothing.
     */
    method DeleteLastChar()
      requires Valid()
      modifies this
      ensures Valid()
      ensures tiles == old(tiles)
      ensures old(entries) == [] ==> entries == [] && selected == old(selected)
      ensures old(entries) != [] ==>
        var removed := old(entries)[|old(entries)| - 1];
        && entries == old(entries)[..|old(entries)| - 1]
        && selected == (if |removed| == 1 then old(selected) - {removed[0]} else old(selected))
    {
      if |entries| > 0 {
        var removed := entries[|entries| - 1];
        PopKeepsConsistent(entries, selected);
        entries := entries[..|entries| - 1];
        if |removed| == 1 && removed[0] in selected {
          selected := selected - {removed[0]};
        }
      }
    }

    /** resetAnswer: blank every entry (the array keeps its length) and deselect every tile. */
    method ResetAnswer()
      requires Valid()
      modifies this
      ensures Valid()
      ensures tiles == old(tiles)
      ensures entries == Blank(|old(entries)|) && Text() == ""
      ensures selected == {}
    {
      BlankJoinsEmpty(|entries|);
      entries := Blank(|entries|);
      selected := {};
    }
  }
}

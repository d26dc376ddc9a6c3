/**
 * The progress document exchanged with the server (saveUserData, js/game.js:369-389; the
 * data-shaping part of loadUserData, js/game.js:317-355; the stored schema,
 * backend/models/progress.js:9-22).
 *
 * Level keys are integers here: the client uses `String(level)` and numeric keys
 * interchangeably, and both name the same property of a JavaScript object.
 */
module Progress {

  datatype Option<T> = None | Some(value: T)

  /** An answered-word entry as stored: the schema keeps strings, a raw document may hold numbers. */
  datatype StoredIndex = Num(n: int) | Text(s: string)

  /** A stored answered-words value: an array of entries, or something that is not an array. */
  datatype StoredList = Array(items: seq<StoredIndex>) | NotArray

  /** The fields of a progress document the game reads or writes. */
  datatype Document = Document(
    unlockedLevels: Option<seq<int>>,   // None: missing, or not an array
    levelScores: map<nat, int>,
    answeredWords: map<nat, StoredList>,
    currentLevel: int)

  /**
   * JavaScript's NaN, as parseInt returns it for text without a leading digit. Like NaN,
   * -1 equals no word index yet still counts toward the length of an answered list, which
   * is all the game ever does with such an entry.
   */
  const NaN: int := -1

  predicate IsDigit(c: char)
  {
    '0' <= c <= '9'
  }

  function DigitValue(c: char): nat
    requires IsDigit(c)
  {
    c as int - '0' as int
  }

  /** The number of leading decimal digits of `s`. */
  function LeadingDigits(s: string): (k: nat)
    ensures k <= |s|
    ensures forall i :: 0 <= i < k ==> IsDigit(s[i])
    ensures k < |s| ==> !IsDigit(s[k])
  {
    if s == [] || !IsDigit(s[0]) then 0 else 1 + LeadingDigits(s[1..])
  }

  /** The value of a string of decimal digits, most significant first. */
  function DigitsValue(s: string): nat
    requires forall i :: 0 <= i < |s| ==> IsDigit(s[i])
  {
    if s == [] then 0 else 10 * DigitsValue(s[..|s| - 1]) + DigitValue(s[|s| - 1])
  }

  /** parseInt(s, 10) on the leading decimal digits of `s`; NaN when there are none. */
  function ParseInt(s: string): (r: int)
    ensures r == NaN <==> LeadingDigits(s) == 0
    ensures r != NaN ==> r >= 0
  {
    var k := LeadingDigits(s);
    if k == 0 then NaN else DigitsValue(s[..k])
  }

  /** String(n) for a non-negative integer: its decimal numeral. */
  function DecimalString(n: nat): (r: string)
    ensures |r| >= 1
    ensures forall i :: 0 <= i < |r| ==> IsDigit(r[i])
  {
    var d := ['0' + (n % 10) as char];
    if n < 10 then d else DecimalString(n / 10) + d
  }

  /** String(n). */
  function JsString(n: int): (r: string)
    ensures |r| >= 1
    ensures r[0] == '-' <==> n < 0
  {
    if n >= 0 then DecimalString(n) else "-" + DecimalString(-n)
  }

  lemma {:induction false} DecimalStringValue(n: nat)
    ensures DigitsValue(DecimalString(n)) == n
  {
    var r := DecimalString(n);
    var last := '0' + (n % 10) as char;
    assert DigitValue(last) == n % 10;
    if n >= 10 {
      DecimalStringValue(n / 10);
      assert r[..|r| - 1] == DecimalString(n / 10);
    }
  }

  /** parseInt reads back the numeral String wrote: stored indices keep their value. */
  lemma ParseDecimalString(n: nat)
    ensures ParseInt(JsString(n)) == n
  {
    var r := DecimalString(n);
    assert LeadingDigits(r) == |r| by {
      AllDigitsLeading(r);
    }
    assert r[..|r|] == r;
    DecimalStringValue(n);
  }

  lemma {:induction false} AllDigitsLeading(s: string)
    requires forall i :: 0 <= i < |s| ==> IsDigit(s[i])
    ensures LeadingDigits(s) == |s|
  {
    if s != [] {
      AllDigitsLeading(s[1..]);
    }
  }

  /** The normalisation of one stored entry (js/game.js:327). */
  function NormaliseIndex(v: StoredIndex): int
  {
    match v
    case Text(s) => ParseInt(s)
    case Num(n) => n
  }

  /** One level's answered list after loading (js/game.js:326-328). */
  function NormaliseList(l: StoredList): (r: seq<int>)
    ensures l.Array? ==> |r| == |l.items|
    ensures l.NotArray? ==> r == []
  {
    match l
    case Array(items) => seq(|items|, i requires 0 <= i < |items| => NormaliseIndex(items[i]))
    case NotArray => []
  }

  /** `answeredWords` as loadUserData rebuilds it (js/game.js:321-329). */
  function DecodeAnswered(raw: map<nat, StoredList>): (m: map<nat, seq<int>>)
    ensures m.Keys == raw.Keys
  {
    map k | k in raw :: NormaliseList(raw[k])
  }

  /** `unlockedLevels` on load: the last element of the stored list, or 1 (js/game.js:331-333). */
  function DecodeUnlocked(stored: Option<seq<int>>): (r: int)
    ensures stored.None? || stored.value == [] ==> r == 1
    ensures stored.Some? && stored.value != [] ==> r in stored.value
  {
    if stored.Some? && |stored.value| > 0 then stored.value[|stored.value| - 1] else 1
  }

  /** The list [1, 2, .., n] that saveUserData stores for `unlockedLevels` (js/game.js:374-377). */
  function UnlockedList(n: int): (r: seq<int>)
    ensures |r| == if n > 0 then n else 0
  {
    seq(if n > 0 then n else 0, i => i + 1)
  }

  /** Loading what was saved gives back the unlocked level, or 1 if it was below 1. */
  lemma UnlockedRoundTrip(n: int)
    ensures DecodeUnlocked(Some(UnlockedList(n))) == if n >= 1 then n else 1
  {
  }

  /** The loop at js/game.js:374-377. */
  method BuildUnlockedList(n: int) returns (r: seq<int>)
    ensures r == UnlockedList(n)
  {
    r := [];
    var i := 1;
    while i <= n
      invariant 1 <= i <= (if n > 0 then n else 0) + 1
      invariant |r| == i - 1
      invariant forall j :: 0 <= j < |r| ==> r[j] == j + 1
    {
      r := r + [i];
      i := i + 1;
    }
  }

  /** The answered lists as the client sends them: arrays of numbers. */
  function SentAnswered(answered: map<nat, seq<int>>): (raw: map<nat, StoredList>)
    ensures raw.Keys == answered.Keys
  {
    map k | k in answered :: Array(seq(|answered[k]|, i requires 0 <= i < |answered[k]| => Num(answered[k][i])))
  }

  /** The schema's [String] cast (backend/models/progress.js:18-21): each number becomes String(n). */
  function CastIndex(v: StoredIndex): StoredIndex
  {
    match v
    case Num(n) => Text(JsString(n))
    case Text(_) => v
  }

  function SchemaCast(raw: map<nat, StoredList>): (stored: map<nat, StoredList>)
    ensures stored.Keys == raw.Keys
  {
    map k | k in raw ::
      match raw[k]
      case Array(items) => Array(seq(|items|, i requires 0 <= i < |items| => CastIndex(items[i])))
      case NotArray => NotArray
  }

  /** The document saveUserData sends, given the game's progress state (js/game.js:379-385). */
  function Encode(unlocked: int, scores: map<nat, int>, answered: map<nat, seq<int>>,
                  currentLevel: int): (doc: Document)
    ensures doc.unlockedLevels.Some? && |doc.unlockedLevels.value| == if unlocked > 0 then unlocked else 0
    ensures doc.levelScores == scores && doc.answeredWords.Keys == answered.Keys
    ensures doc.currentLevel != 0
  {
    Document(Some(UnlockedList(unlocked)), scores, SentAnswered(answered),
             if currentLevel == 0 then 1 else currentLevel)
  }

  /** The document as the server stores and returns it. */
  function Stored(doc: Document): Document
  {
    doc.(answeredWords := SchemaCast(doc.answeredWords))
  }

  predicate IndicesNonNegative(answered: map<nat, seq<int>>)
  {
    forall k, i :: k in answered && 0 <= i < |answered[k]| ==> answered[k][i] >= 0
  }

  /**
   * A save followed by a load restores the unlocked level, the answered lists (their
   * indices went through the string cast and parseInt) and the level scores.
   */
  lemma SaveLoadRoundTrip(unlocked: int, scores: map<nat, int>, answered: map<nat, seq<int>>,
                          currentLevel: int)
    requires unlocked >= 1
    requires IndicesNonNegative(answered)
    ensures var doc := Stored(Encode(unlocked, scores, answered, currentLevel));
      && DecodeUnlocked(doc.unlockedLevels) == unlocked
      && DecodeAnswered(doc.answeredWords) == answered
      && doc.levelScores == scores
  {
    UnlockedRoundTrip(unlocked);
    var decoded := DecodeAnswered(SchemaCast(SentAnswered(answered)));
    forall k | k in answered ensures decoded[k] == answered[k] {
      var l := answered[k];
      forall i | 0 <= i < |l| ensures decoded[k][i] == l[i] {
        ParseDecimalString(l[i]);
      }
    }
  }

  /**
   * The normalising loop of loadUserData (js/game.js:322-329), visiting the stored levels
   * one key at a time.
   */
  method NormaliseAnswered(raw: map<nat, StoredList>) returns (answered: map<nat, seq<int>>)
    ensures answered == DecodeAnswered(raw)
  {
    answered := map[];
    var todo := raw.Keys;
    while todo != {}
      invariant todo <= raw.Keys
      invariant answered.Keys == raw.Keys - todo
      invariant forall k :: k in answered ==> answered[k] == NormaliseList(raw[k])
      decreases |todo|
    {
      var key :| key in todo;
      answered := answered[key := NormaliseList(raw[key])];
      todo := todo - {key};
    }
    var decoded := DecodeAnswered(raw);
    forall k | k in raw ensures answered[k] == decoded[k] {
    }
  }

  /**
   * The least element of `s`, searching upwards from `from`; `bound` is an element of `s`,
   * so the search ends.
   */
  function LeastFrom(s: set<nat>, from: nat, bound: nat): (k: nat)
    requires bound in s && from <= bound
    requires forall x :: x in s ==> from <= x
    ensures k in s && forall x :: x in s ==> k <= x
    decreases bound - from
  {
    if from in s then from else LeastFrom(s, from + 1, bound)
  }

  /** The least element of a non-empty set of levels. */
  ghost function Least(s: set<nat>): (k: nat)
    requires s != {}
    ensures k in s && forall x :: x in s ==> k <= x
  {
    var some :| some in s;
    LeastFrom(s, 0, some)
  }

  /**
   * The sum of the level scores, taking the levels in ascending order as a for..in loop
   * over integer keys does.
   */
  ghost function ScoreSum(scores: map<nat, int>): int
    decreases |scores|
  {
    if scores == map[] then 0
    else
      var k := Least(scores.Keys);
      assert |scores - {k}| < |scores| by {
        assert scores.Keys - {k} < scores.Keys;
      }
      scores[k] + ScoreSum(scores - {k})
  }

  /** The scores of the levels in `levels`. */
  function Restrict(scores: map<nat, int>, levels: set<nat>): (r: map<nat, int>)
    ensures r.Keys == scores.Keys * levels
  {
    map k | k in scores && k in levels :: scores[k]
  }

  /** The total-score loop of loadUserData (js/game.js:352-355). */
  method TotalScore(scores: map<nat, int>) returns (total: int)
    ensures total == ScoreSum(scores)
  {
    total := 0;
    var todo := scores.Keys;
    assert Restrict(scores, todo) == scores;
    while todo != {}
      invariant todo <= scores.Keys
      invariant total + ScoreSum(Restrict(scores, todo)) == ScoreSum(scores)
      decreases |todo|
    {
      var some :| some in todo;
      var level := LeastFrom(todo, 0, some);
      ScoreSumStep(scores, todo, level);
      total := total + scores[level];
      todo := todo - {level};
    }
    assert Restrict(scores, todo) == map[];
  }

  /** Taking out the least remaining level splits off its score. */
  lemma ScoreSumStep(scores: map<nat, int>, todo: set<nat>, level: nat)
    requires todo <= scores.Keys && level in todo
    requires forall x :: x in todo ==> level <= x
    ensures ScoreSum(Restrict(scores, todo))
         == scores[level] + ScoreSum(Restrict(scores, todo - {level}))
  {
    var rest := Restrict(scores, todo);
    assert rest.Keys == todo;
    assert Least(rest.Keys) == level;
    assert rest - {level} == Restrict(scores, todo - {level});
  }

  /** With every level score between 0 and `most`, the total lies between 0 and `most` per level. */
  lemma {:induction false} ScoreSumBounds(scores: map<nat, int>, most: nat)
    requires forall k :: k in scores ==> 0 <= scores[k] <= most
    ensures 0 <= ScoreSum(scores) <= most * |scores|
    decreases |scores|
  {
    if scores != map[] {
      var k := Least(scores.Keys);
      var rest := scores - {k};
      ScoreSumUnfold(scores);
      ScoreSumBounds(rest, most);
      MulSucc(most, |rest|);
    }
  }

  /** Taking out the least level splits off its score and shrinks the map by one. */
  lemma ScoreSumUnfold(scores: map<nat, int>)
    requires scores != map[]
    ensures var k := Least(scores.Keys);
      && |scores - {k}| + 1 == |scores|
      && ScoreSum(scores) == scores[k] + ScoreSum(scores - {k})
  {
    var k := Least(scores.Keys);
    assert (scores - {k}).Keys == scores.Keys - {k};
  }

  lemma MulSucc(m: nat, n: nat)
    ensures m * (n + 1) == m * n + m
  {
  }
}

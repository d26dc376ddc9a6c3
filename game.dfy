/**
 * The player's progress and the rules that change it (js/game.js): first-time-only scoring,
 * the level-unlock state machine, entering, resuming and finishing a level, the overall
 * percentage and grade, and loading and saving the progress document.
 */
module Game {
  import opened SeqUtil
  import opened Progress
  import Session
  import Lexicon

  /** The last level: no level beyond it can become unlockable (js/game.js:337 and 1179). */
  const MaxLevel := 10
  /** Correct answers in the highest unlocked level that make the next one unlockable. */
  const UnlockThreshold := 5
  /** What each unlocked level adds to the possible total (js/game.js:760). */
  const WordsPerLevel := 10

  /** `answeredWords[level] || []`: a level without an entry has answered nothing. */
  function AnsweredIn(answered: map<nat, seq<int>>, level: int): seq<int>
  {
    if level >= 0 && level in answered then answered[level] else []
  }

  /**
   * A level's answered list after a correct answer to word `index`: the index joins the list
   * the first time only (js/game.js:1166-1171).
   */
  function Record(list: seq<int>, index: int): (r: seq<int>)
    ensures Elems(r) == Elems(list) + {index}
    ensures |r| == if index in list then |list| else |list| + 1
    ensures r[..|list|] == list
    ensures Distinct(list) ==> Distinct(r)
  {
    if index in list then list else list + [index]
  }

  /** A second correct answer to the same word records nothing more. */
  lemma RecordIdempotent(list: seq<int>, index: int)
    ensures Record(Record(list, index), index) == Record(list, index)
  {
  }

  /**
   * Whether the answered count of `level` makes the next level unlockable: at least five
   * answers in the highest unlocked level, below the last level (js/game.js:1179, 337).
   */
  predicate Eligible(answeredCount: int, level: int, unlocked: int)
  {
    answeredCount >= UnlockThreshold && level == unlocked && level < MaxLevel
  }

  /** Whether the card of `level` offers the unlock action (js/game.js:617). */
  predicate CanUnlock(available: set<int>, unlocked: int, level: int)
  {
    level - 1 in available && level == unlocked + 1
  }

  /**
   * The first index from `from` on and below `count` that is not in `answered`, or 0 when
   * every one of them is: the word startLevel resumes at (js/game.js:824-840).
   */
  function FirstUnanswered(answered: seq<int>, count: nat, from: nat): (r: nat)
    requires from <= count
    ensures (forall j :: from <= j < count ==> j in answered) ==> r == 0
    ensures !(forall j :: from <= j < count ==> j in answered) ==>
      && from <= r < count
      && r !in answered
      && forall j :: from <= j < r ==> j in answered
    decreases count - from
  {
    if from == count then 0
    else if from !in answered then from
    else FirstUnanswered(answered, count, from + 1)
  }

  /**
   * Math.round(answered / possible * 100), or 0 when nothing is possible (js/game.js:764),
   * in integer arithmetic: the nearest whole percentage, halves rounded up.
   */
  function Percentage(answered: nat, possible: nat): (pct: nat)
    ensures possible == 0 ==> pct == 0
    ensures possible > 0 ==>
      2 * possible * pct <= 200 * answered + possible < 2 * possible * pct + 2 * possible
    ensures answered <= possible ==> pct <= 100
  {
    if possible == 0 then 0
    else
      var n, d := 200 * answered + possible, 2 * possible;
      DivBounds(n, d);
      assert answered <= possible ==> n / d <= 100 by {
        if answered <= possible && n / d > 100 {
          MulMonotone(d, 101, n / d);
        }
      }
      n / d
  }

  lemma DivBounds(n: nat, d: nat)
    requires d > 0
    ensures d * (n / d) <= n < d * (n / d) + d
  {
  }

  lemma {:induction false} MulMonotone(d: nat, x: nat, y: nat)
    requires x <= y
    ensures d * x <= d * y
    decreases y - x
  {
    if x < y {
      MulMonotone(d, x, y - 1);
      assert d * y == d * (y - 1) + d;
    }
  }

  /** The grade shown beside the percentage (js/game.js:790-802). */
  datatype Grade = VeryGood | Good | NeedsPractice | NoGrade

  function GradeOf(pct: int, answered: int): Grade
  {
    if pct >= 80 then VeryGood
    else if pct >= 50 then Good
    else if answered > 0 then NeedsPractice
    else NoGrade
  }

  /**
   * The grade in terms of the counts alone: "very good" from 79.5% of the possible words on,
   * "good" from 49.5%, "needs practice" below that once anything is answered, and no grade
   * only when nothing is.
   */
  lemma GradeByCounts(answered: nat, possible: nat)
    ensures var g := GradeOf(Percentage(answered, possible), answered);
      && (g == VeryGood <==> possible > 0 && 200 * answered >= 159 * possible)
      && (g == Good <==> possible > 0 && 99 * possible <= 200 * answered < 159 * possible)
      && (g == NeedsPractice <==> answered > 0 && (possible == 0 || 200 * answered < 99 * possible))
      && (g == NoGrade <==> answered == 0)
  {
    var pct := Percentage(answered, possible);
    if possible > 0 {
      var d := 2 * possible;
      assert pct >= 80 <==> 200 * answered >= 159 * possible by {
        if pct >= 80 {
          MulMonotone(d, 80, pct);
        } else {
          MulMonotone(d, pct, 79);
        }
      }
      assert pct >= 50 <==> 200 * answered >= 99 * possible by {
        if pct >= 50 {
          MulMonotone(d, 50, pct);
        } else {
          MulMonotone(d, pct, 49);
        }
      }
      assert answered == 0 ==> pct == 0 by {
        if answered == 0 && pct > 0 {
          MulMonotone(d, 1, pct);
        }
      }
    }
  }

  /** The answered words of levels 1 to n together (js/game.js:757-761). */
  function AnsweredTotal(answered: map<nat, seq<int>>, n: int): nat
    decreases n
  {
    if n < 1 then 0 else AnsweredTotal(answered, n - 1) + |AnsweredIn(answered, n)|
  }

  /**
   * With no level holding more answers than it has words, the answered total stays within
   * the possible total, so the percentage is at most 100.
   */
  lemma {:induction false} AnsweredTotalBound(answered: map<nat, seq<int>>, n: nat)
    requires forall level :: 1 <= level <= n ==> |AnsweredIn(answered, level)| <= WordsPerLevel
    ensures AnsweredTotal(answered, n) <= WordsPerLevel * n
    ensures Percentage(AnsweredTotal(answered, n), WordsPerLevel * n) <= 100
  {
    if n > 0 {
      AnsweredTotalBound(answered, n - 1);
    }
  }

  /** Unlock eligibility of the highest level survives a save followed by a load. */
  lemma EligibilitySurvivesReload(unlocked: int, scores: map<nat, int>,
                                  answered: map<nat, seq<int>>, currentLevel: int)
    requires unlocked >= 1
    requires IndicesNonNegative(answered)
    requires Eligible(|AnsweredIn(answered, unlocked)|, unlocked, unlocked)
    ensures var doc := Stored(Encode(unlocked, scores, answered, currentLevel));
      var restored := DecodeUnlocked(doc.unlockedLevels);
      && restored == unlocked
      && Eligible(|AnsweredIn(DecodeAnswered(doc.answeredWords), restored)|, restored, restored)
  {
    SaveLoadRoundTrip(unlocked, scores, answered, currentLevel);
  }

  /**
   * The words of the game's table that hold a symbol twice can never be spelled with the
   * tiles, so checkAnswer never accepts them.
   */
  lemma RepeatedWordsUnspellable(entries: seq<string>, selected: set<char>, p: (nat, nat))
    requires Session.Consistent(entries, selected)
    requires p in Lexicon.RepeatedSymbolWords
    ensures p.0 in Lexicon.GameData && p.1 < |Lexicon.GameData[p.0]|
    ensures Session.Join(entries) != Lexicon.GameData[p.0][p.1]
  {
    Lexicon.RepeatedSymbolWordsRepeat(p);
    Session.RepeatedSymbolUnspellable(entries, selected, Lexicon.GameData[p.0][p.1]);
  }

  /**
   * The eligibility step of loadUserData (js/game.js:335-343): when the highest unlocked level
   * is eligible, mark it and queue the notice for the next level unless that notice was
   * acknowledged before; otherwise leave both as they were.
   */
  method ReassertEligibility(answered: map<nat, seq<int>>, unlocked: int, available: set<int>,
                             pending: Option<int>, shown: set<int>)
    returns (available': set<int>, pending': Option<int>)
    ensures Eligible(|AnsweredIn(answered, unlocked)|, unlocked, unlocked) ==>
      && available' == available + {unlocked}
      && pending' == (if unlocked + 1 in shown then pending else Some(unlocked + 1))
    ensures !Eligible(|AnsweredIn(answered, unlocked)|, unlocked, unlocked) ==>
      available' == available && pending' == pending
    ensures pending' != pending ==> pending' == Some(unlocked + 1) && unlocked + 1 !in shown
  {
    available', pending' := available, pending;
    if |AnsweredIn(answered, unlocked)| >= UnlockThreshold && unlocked < MaxLevel {
      available' := available' + {unlocked};
      if unlocked + 1 !in shown {
        pending' := Some(unlocked + 1);
      }
    }
  }

  /**
   * What loadUserData takes from a fetched document (js/game.js:317-355): the normalised
   * answered lists, the highest unlocked level, the re-asserted eligibility and the total score.
   */
  method LoadDocument(doc: Document, available: set<int>, pending: Option<int>, shown: set<int>)
    returns (answered: map<nat, seq<int>>, unlocked: int, available': set<int>,
             pending': Option<int>, total: int)
    ensures answered == DecodeAnswered(doc.answeredWords)
    ensures unlocked == DecodeUnlocked(doc.unlockedLevels)
    ensures total == ScoreSum(doc.levelScores)
    ensures Eligible(|AnsweredIn(answered, unlocked)|, unlocked, unlocked) ==>
      && available' == available + {unlocked}
      && pending' == (if unlocked + 1 in shown then pending else Some(unlocked + 1))
    ensures !Eligible(|AnsweredIn(answered, unlocked)|, unlocked, unlocked) ==>
      available' == available && pending' == pending
  {
    answered := NormaliseAnswered(doc.answeredWords);
    unlocked := DecodeUnlocked(doc.unlockedLevels);
    available', pending' := ReassertEligibility(answered, unlocked, available, pending, shown);
    total := TotalScore(doc.levelScores);
  }

  /** What the game screen does next. */
  datatype Outcome =
    | ShowWord(word: string)                        // setupWordDisplay for this word
    | LevelComplete(answered: nat, words: nat)      // the congratulation, then the level list
    | LevelSelect                                   // back to the level list
    | Locked                                        // the level is not unlocked yet

  /** The module-level progress variables of js/game.js:7-10 and 560-568. */
  class Game {
    /** `gameData`: the words of each level (see Lexicon.GameData). */
    const levels: map<nat, seq<string>>
    var currentLevel: nat
    var currentWordIndex: nat
    /** The running score: the level's score while playing, the total after a load. */
    var score: int
    var levelScores: map<nat, int>
    var answeredWords: map<nat, seq<int>>
    var unlockedLevels: int
    /** `unlockAvailableLevels`: levels whose successor may be unlocked by hand. */
    var unlockAvailable: set<int>
    /** `pendingUnlockNotificationLevel`. */
    var pendingNotice: Option<int>
    /** `unlockNotificationShown`: notices the player has acknowledged. */
    var noticeShown: set<int>

    /** The state when the page loads; `shown` is what was kept from earlier visits. */
    constructor(levels: map<nat, seq<string>>, shown: set<int>)
      ensures this.levels == levels
      ensures currentLevel == 1 && currentWordIndex == 0 && score == 0
      ensures levelScores == map[] && answeredWords == map[] && unlockedLevels == 1
      ensures unlockAvailable == {} && pendingNotice == None && noticeShown == shown
    {
      this.levels := levels;
      currentLevel, currentWordIndex, score := 1, 0, 0;
      levelScores, answeredWords, unlockedLevels := map[], map[], 1;
      unlockAvailable, pendingNotice, noticeShown := {}, None, shown;
    }

    /**
     * checkAnswer (js/game.js:1150-1203) on the joined answer: a correct answer records the
     * word the first time only, scoring one point then, and re-marks the next level as
     * unlockable whenever the eligibility condition holds; a wrong answer changes nothing.
     */
    method CheckAnswer(userAnswer: string) returns (correct: bool)
      requires currentLevel in levels && currentWordIndex < |levels[currentLevel]|
      modifies this
      ensures currentLevel == old(currentLevel) && currentWordIndex == old(currentWordIndex)
      ensures correct <==> userAnswer == levels[currentLevel][currentWordIndex]
      ensures unlockedLevels == old(unlockedLevels) && levelScores == old(levelScores)
      ensures noticeShown == old(noticeShown)
      ensures !correct ==> answeredWords == old(answeredWords) && score == old(score)
      ensures correct ==>
        var before := AnsweredIn(old(answeredWords), currentLevel);
        && answeredWords == old(answeredWords)[currentLevel := Record(before, currentWordIndex)]
        && score == old(score) + (if currentWordIndex in before then 0 else 1)
      ensures correct && Eligible(|AnsweredIn(answeredWords, currentLevel)|, currentLevel, unlockedLevels) ==>
        && unlockAvailable == old(unlockAvailable) + {currentLevel}
        && pendingNotice == Some(currentLevel + 1)
      ensures !(correct && Eligible(|AnsweredIn(answeredWords, currentLevel)|, currentLevel, unlockedLevels)) ==>
        unlockAvailable == old(unlockAvailable) && pendingNotice == old(pendingNotice)
    {
      var word := levels[currentLevel][currentWordIndex];
      correct := userAnswer == word;
      if correct {
        var list := AnsweredIn(answeredWords, currentLevel);
        if currentWordIndex !in list {
          score := score + 1;
          list := list + [currentWordIndex];
        }
        answeredWords := answeredWords[currentLevel := list];
        if |list| >= UnlockThreshold && currentLevel == unlockedLevels && currentLevel < MaxLevel {
          unlockAvailable := unlockAvailable + {currentLevel};
          pendingNotice := Some(currentLevel + 1);
        }
      }
    }

    /**
     * loadWord (js/game.js:868-885): show the current word or, past the last word, record
     * the level's score as its answered count and go back to the first word.
     */
    method LoadWord() returns (outcome: Outcome)
      requires currentLevel in levels
      modifies this
      ensures currentLevel == old(currentLevel) && score == old(score)
      ensures var words := levels[currentLevel];
        old(currentWordIndex) < |words| ==>
          outcome == ShowWord(words[old(currentWordIndex)])
          && currentWordIndex == old(currentWordIndex) && levelScores == old(levelScores)
      ensures var words := levels[currentLevel];
        old(currentWordIndex) >= |words| ==>
          var answered := |AnsweredIn(answeredWords, currentLevel)|;
          && outcome == LevelComplete(answered, |words|)
          && levelScores == old(levelScores)[currentLevel := answered]
          && currentWordIndex == 0
      ensures answeredWords == old(answeredWords) && unlockedLevels == old(unlockedLevels)
      ensures unlockAvailable == old(unlockAvailable) && pendingNotice == old(pendingNotice)
      ensures noticeShown == old(noticeShown)
    {
      var words := levels[currentLevel];
      if currentWordIndex >= |words| {
        var answered := |AnsweredIn(answeredWords, currentLevel)|;
        outcome := LevelComplete(answered, |words|);
        levelScores := levelScores[currentLevel := answered];
        currentWordIndex := 0;
      } else {
        outcome := ShowWord(words[currentWordIndex]);
      }
    }

    /** nextWord (js/game.js:1215-1218): move on one word, then loadWord. */
    method NextWord() returns (outcome: Outcome)
      requires currentLevel in levels
      modifies this
      ensures currentLevel == old(currentLevel) && score == old(score)
      ensures var words := levels[currentLevel];
        var next := old(currentWordIndex) + 1;
        next < |words| ==>
          outcome == ShowWord(words[next])
          && currentWordIndex == next && levelScores == old(levelScores)
      ensures var words := levels[currentLevel];
        var next := old(currentWordIndex) + 1;
        next >= |words| ==>
          var answered := |AnsweredIn(answeredWords, currentLevel)|;
          && outcome == LevelComplete(answered, |words|)
          && levelScores == old(levelScores)[currentLevel := answered]
          && currentWordIndex == 0
      ensures answeredWords == old(answeredWords) && unlockedLevels == old(unlockedLevels)
      ensures unlockAvailable == old(unlockAvailable) && pendingNotice == old(pendingNotice)
      ensures noticeShown == old(noticeShown)
    {
      currentWordIndex := currentWordIndex + 1;
      outcome := LoadWord();
    }

    /**
     * loadWordDirect (js/game.js:887-896): show the current word, or go back to the level
     * list when the level has no words entry or the index is past its last word; nothing is
     * recorded.
     */
    method LoadWordDirect() returns (outcome: Outcome)
      ensures currentLevel !in levels ==> outcome == LevelSelect
      ensures currentLevel in levels ==>
        var words := levels[currentLevel];
        && (currentWordIndex < |words| ==> outcome == ShowWord(words[currentWordIndex]))
        && (currentWordIndex >= |words| ==> outcome == LevelSelect)
    {
      if currentLevel !in levels || currentWordIndex >= |levels[currentLevel]| {
        outcome := LevelSelect;
      } else {
        outcome := ShowWord(levels[currentLevel][currentWordIndex]);
      }
    }

    /**
     * startLevel (js/game.js:812-844): refuse a level above the highest unlocked one;
     * otherwise take the level's score, resume at its first unanswered word (or the first
     * word when all are answered) and load it.
     */
    method StartLevel(level: nat) returns (outcome: Outcome)
      requires level <= unlockedLevels ==> level in levels
      modifies this
      ensures level > old(unlockedLevels) <==> outcome == Locked
      ensures level > old(unlockedLevels) ==>
        && currentLevel == old(currentLevel) && currentWordIndex == old(currentWordIndex)
        && score == old(score) && levelScores == old(levelScores)
      ensures level <= old(unlockedLevels) ==>
        var words := levels[level];
        var resume := FirstUnanswered(AnsweredIn(answeredWords, level), |words|, 0);
        && currentLevel == level
        && score == (if level in old(levelScores) then old(levelScores)[level] else 0)
        && (|words| > 0 ==>
              outcome == ShowWord(words[resume]) && currentWordIndex == resume
              && levelScores == old(levelScores))
        && (|words| == 0 ==>
              var answered := |AnsweredIn(answeredWords, level)|;
              && outcome == LevelComplete(answered, 0)
              && currentWordIndex == 0
              && levelScores == old(levelScores)[level := answered])
      ensures answeredWords == old(answeredWords) && unlockedLevels == old(unlockedLevels)
      ensures unlockAvailable == old(unlockAvailable) && pendingNotice == old(pendingNotice)
      ensures noticeShown == old(noticeShown)
    {
      if level > unlockedLevels {
        return Locked;
      }
      currentLevel := level;
      score := if level in levelScores then levelScores[level] else 0;
      var words := levels[level];
      var answered := AnsweredIn(answeredWords, level);
      var found := false;
      var i := 0;
      while i < |words|
        invariant 0 <= i <= |words|
        invariant forall j :: 0 <= j < i ==> j in answered
      {
        if i !in answered {
          found := true;
          break;
        }
        i := i + 1;
      }
      currentWordIndex := if found then i else 0;
      outcome := LoadWord();
    }

    /**
     * startLevelAtWord (js/game.js:849-866): refuse a level above the highest unlocked one;
     * otherwise take the level's score and show the chosen word directly.
     */
    method StartLevelAtWord(level: nat, wordIndex: nat) returns (outcome: Outcome)
      modifies this
      ensures level > old(unlockedLevels) <==> outcome == Locked
      ensures level > old(unlockedLevels) ==>
        && currentLevel == old(currentLevel) && currentWordIndex == old(currentWordIndex)
        && score == old(score)
      ensures level <= old(unlockedLevels) ==>
        && currentLevel == level && currentWordIndex == wordIndex
        && score == (if level in levelScores then levelScores[level] else 0)
        && outcome == (if level in levels && wordIndex < |levels[level]|
                       then ShowWord(levels[level][wordIndex]) else LevelSelect)
      ensures levelScores == old(levelScores) && answeredWords == old(answeredWords)
      ensures unlockedLevels == old(unlockedLevels)
      ensures unlockAvailable == old(unlockAvailable) && pendingNotice == old(pendingNotice)
      ensures noticeShown == old(noticeShown)
    {
      if level > unlockedLevels {
        return Locked;
      }
      currentLevel, currentWordIndex := level, wordIndex;
      score := if level in levelScores then levelScores[level] else 0;
      outcome := LoadWordDirect();
    }

    /**
     * The unlock action on the card of `level` (js/game.js:617 and 630-634): it exists only
     * for the level right after the highest unlocked one, when the level before it is marked
     * unlockable; it raises the highest unlocked level by one and clears that mark.
     */
    method Unlock(level: int) returns (unlocked: bool)
      requires 1 <= level <= MaxLevel
      modifies this
      ensures unlocked <==> CanUnlock(old(unlockAvailable), old(unlockedLevels), level)
      ensures unlocked ==>
        && unlockedLevels == old(unlockedLevels) + 1 == level
        && unlockAvailable == old(unlockAvailable) - {level - 1}
      ensures !unlocked ==>
        unlockedLevels == old(unlockedLevels) && unlockAvailable == old(unlockAvailable)
      ensures currentLevel == old(currentLevel) && currentWordIndex == old(currentWordIndex)
      ensures score == old(score) && levelScores == old(levelScores)
      ensures answeredWords == old(answeredWords)
      ensures pendingNotice == old(pendingNotice) && noticeShown == old(noticeShown)
    {
      unlocked := CanUnlock(unlockAvailable, unlockedLevels, level);
      if unlocked {
        unlockedLevels := level;
        unlockAvailable := unlockAvailable - {level - 1};
      }
    }

    /**
     * The player confirms the pending unlock notice (js/game.js:724-742): it is shown only
     * if not acknowledged before, and confirming remembers it and clears the pending notice.
     */
    method AcknowledgeUnlockNotice()
      modifies this
      ensures old(pendingNotice).Some? && old(pendingNotice).value !in old(noticeShown) ==>
        && noticeShown == old(noticeShown) + {old(pendingNotice).value}
        && pendingNotice == None
      ensures !(old(pendingNotice).Some? && old(pendingNotice).value !in old(noticeShown)) ==>
        noticeShown == old(noticeShown) && pendingNotice == old(pendingNotice)
      ensures currentLevel == old(currentLevel) && currentWordIndex == old(currentWordIndex)
      ensures score == old(score) && levelScores == old(levelScores)
      ensures answeredWords == old(answeredWords) && unlockedLevels == old(unlockedLevels)
      ensures unlockAvailable == old(unlockAvailable)
    {
      if pendingNotice.Some? && pendingNotice.value !in noticeShown {
        noticeShown := noticeShown + {pendingNotice.value};
        pendingNotice := None;
      }
    }

    /**
     * updateTotalScore (js/game.js:752-810): the answered words of the unlocked levels, ten
     * possible per unlocked level, the rounded percentage and the grade.
     */
    method UpdateTotalScore() returns (totalAnswered: nat, totalPossible: nat, pct: nat, grade: Grade)
      ensures totalAnswered == AnsweredTotal(answeredWords, unlockedLevels)
      ensures totalPossible == WordsPerLevel * (if unlockedLevels > 0 then unlockedLevels else 0)
      ensures pct == Percentage(totalAnswered, totalPossible)
      ensures grade == GradeOf(pct, totalAnswered)
    {
      totalAnswered, totalPossible := 0, 0;
      var level := 1;
      while level <= unlockedLevels
        invariant 1 <= level <= (if unlockedLevels > 0 then unlockedLevels else 0) + 1
        invariant totalAnswered == AnsweredTotal(answeredWords, level - 1)
        invariant totalPossible == WordsPerLevel * (level - 1)
      {
        totalAnswered := totalAnswered + |AnsweredIn(answeredWords, level)|;
        totalPossible := totalPossible + WordsPerLevel;
        level := level + 1;
      }
      pct := Percentage(totalAnswered, totalPossible);
      grade := GradeOf(pct, totalAnswered);
    }

    /** The document saveUserData sends (js/game.js:369-389). */
    method Save() returns (doc: Document)
      ensures doc == Encode(unlockedLevels, levelScores, answeredWords, currentLevel)
    {
      var unlockedList := BuildUnlockedList(unlockedLevels);
      doc := Document(Some(unlockedList), levelScores, SentAnswered(answeredWords),
                      if currentLevel == 0 then 1 else currentLevel);
    }

    /**
     * loadUserData (js/game.js:317-367) given the fetched document, or None when the request
     * failed: take the scores, the normalised answered lists and the highest unlocked level,
     * re-mark that level as unlockable when eligible (with a notice unless acknowledged
     * before), and total the level scores.
     */
    method Load(fetched: Option<Document>)
      modifies this
      ensures currentLevel == old(currentLevel) && currentWordIndex == old(currentWordIndex)
      ensures noticeShown == old(noticeShown)
      ensures fetched.None? ==>
        && levelScores == map[] && answeredWords == map[] && unlockedLevels == 1 && score == 0
        && unlockAvailable == old(unlockAvailable) && pendingNotice == old(pendingNotice)
      ensures fetched.Some? ==>
        && levelScores == fetched.value.levelScores
        && answeredWords == DecodeAnswered(fetched.value.answeredWords)
        && unlockedLevels == DecodeUnlocked(fetched.value.unlockedLevels)
        && score == ScoreSum(fetched.value.levelScores)
      ensures fetched.Some? && Eligible(|AnsweredIn(answeredWords, unlockedLevels)|, unlockedLevels, unlockedLevels) ==>
        && unlockAvailable == old(unlockAvailable) + {unlockedLevels}
        && pendingNotice == (if unlockedLevels + 1 in noticeShown then old(pendingNotice)
                             else Some(unlockedLevels + 1))
      ensures !(fetched.Some? && Eligible(|AnsweredIn(answeredWords, unlockedLevels)|, unlockedLevels, unlockedLevels)) ==>
        unlockAvailable == old(unlockAvailable) && pendingNotice == old(pendingNotice)
    {
      if fetched.None? {
        levelScores, answeredWords, unlockedLevels, score := map[], map[], 1, 0;
      } else {
        var answered, unlocked, available, pending, total :=
          LoadDocument(fetched.value, unlockAvailable, pendingNotice, noticeShown);
        levelScores, answeredWords, unlockedLevels := fetched.value.levelScores, answered, unlocked;
        unlockAvailable, pendingNotice, score := available, pending, total;
      }
    }
  }
}

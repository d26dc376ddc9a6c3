# Thai vocabulary game: gameplay core in Dafny

This project models the gameplay core of the browser game in `js/game.js`. The player is shown
a picture and builds the Thai word for it from a keyboard of letter tiles. The model covers:

- **Keyboard** (`keyboard.dfy`, `thai.dfy`): `generateKeyboard` splits the word's distinct
  symbols into consonants and vowel/tone marks. It pads the consonants to 12 tiles and the marks
  to 4 with random decoys, shuffles each section, and lays out the consonants first.
- **Answer session** (`session.dfy`): `selectCharacter`, `deleteLastChar` and `resetAnswer`
  work on the `currentAnswer` array and the selected tiles. The model proves the invariant they
  keep: the answer never repeats a symbol, and its symbols are exactly the selected tiles. As a
  result, a word that holds some symbol twice can never be spelled. That is 17 of the 100 words
  of the game's table (`lexicon.dfy`).
- **Progress and unlocking** (`game.dfy`): `checkAnswer` scores a word the first time only.
  When the highest unlocked level has 5 answered words, the next level becomes unlockable and
  a notice is queued. The player then unlocks that level by hand. The model also covers
  `startLevel`, which resumes at the first unanswered word, `loadWord`, `nextWord`,
  `loadWordDirect`, `startLevelAtWord`, the overall percentage and grade, and loading and
  saving progress.
- **Progress document** (`progress.dfy`): the document `saveUserData` sends and
  `loadUserData` reads back, including the server schema's cast of answered indices to
  strings (`backend/models/progress.js`). It also covers `parseInt`, which turns them back
  into numbers.

Randomness is an oracle. The decoy draws are a sequence of pool indices, one for each trip
round a padding loop. Each shuffle is a permutation of indices. `Keyboard.PoolsSuffice` shows
that for every word, the real pools admit draws that end both padding loops.

The game's state lives in module-level variables that its handlers update in place. It is
modelled as two classes:

- `Game.Game` holds the progress, unlock and level-navigation state.
- `Session.AnswerSession` holds the keyboard and the answer.

A few behaviours of the code may be unexpected; the model follows the code:

- `checkAnswer` re-marks the next level as unlockable, and re-queues the notice, on every
  correct answer while the level holds at least 5 answered words. It does this not only when
  the count first reaches 5 (js/game.js:1179-1186).
- `checkAnswer` queues the notice without looking at the set of notices already acknowledged.
  When queueing, only `loadUserData` consults that set (js/game.js:340). The level list
  consults it again before showing a queued notice (js/game.js:726).
- A level becomes playable only through the explicit unlock action. No answer raises
  `unlockedLevels` by itself.

## Model

| member | source | states |
|---|---|---|
| Keyboard.DistinctSymbols | js/game.js:1000 | the unique symbols of the word: no repeats, and exactly the symbols occurring in the word |
| Keyboard.SelectClass | js/game.js:1003-1004 | the filter keeps exactly the symbols of the given class and keeps them repetition-free |
| Keyboard.WordConsonants | js/game.js:1003 | the word's distinct consonant-class symbols; its properties are stated by Keyboard.WordClasses |
| Keyboard.WordVowels | js/game.js:1004 | the word's distinct other symbols; its properties are stated by Keyboard.WordClasses |
| Keyboard.WordClasses | js/game.js:1000-1004 | the word's consonants and marks are each repetition-free, partition the word's symbols, and are split exactly by the consonant table's keys |
| Keyboard.PadWithDecoys | js/game.js:1011-1016 | the padding loop stops with required plus decoys = max(target, required); the decoys are distinct, come from the pool, and are not in the word |
| Keyboard.Shuffle | js/game.js:1027-1028 | the shuffle keeps the number of tiles |
| Keyboard.ShufflePermutes | js/game.js:1027-1028 | the shuffled section is a permutation of the unshuffled one: same multiset, same symbols, still repetition-free |
| Keyboard.PoolSizes | js/game.js:556-558 | the consonant pool holds 41 distinct letters and the mark pool 19 distinct symbols, enough for 12 and 4 tiles |
| Keyboard.VowelPoolDistinct | js/game.js:558 | no vowel sign or tone mark is listed twice in the mark pool |
| Keyboard.PoolClasses | js/game.js:556-558 | every pool consonant is placed in the consonant section and every pool mark in the mark section |
| Keyboard.ExhaustiveDrawsAdequate | js/game.js:1011-1024 | a pool with at least `target` distinct symbols admits draws that end the padding loop |
| Keyboard.PoolsSuffice | js/game.js:1011-1024 | for every word both padding loops can end with the game's real pools |
| Keyboard.GenerateKeyboard | js/game.js:935-1031 | the keyboard has max(12, consonants) + max(4, marks) tiles, no tile twice, a tile for every symbol of the word, consonants first; each section is a permutation of the word's symbols of that class plus its decoys, and the decoys come from the pools and are not in the word |
| Session.Join | js/game.js:1153 | `join('')`, the answer text; its behaviour under append, removal and blanking is stated by Session.AppendKeepsConsistent, Session.RemoveKeepsConsistent and Session.BlankJoinsEmpty |
| Session.LastIndexOf | js/game.js:1092-1098 | the result is -1 or an index holding the entry, and no later index holds it |
| Session.FindLastEntry | js/game.js:1092-1098 | the backward search loop finds the last entry equal to the symbol, or -1 |
| Session.RemoveAt | js/game.js:1101 | `splice(i, 1)` shortens the answer by one |
| Session.AppendKeepsConsistent | js/game.js:1111-1114 | appending an unselected symbol and selecting it keeps the answer invariant and extends the text by that symbol |
| Session.RemoveKeepsConsistent | js/game.js:1099-1104 | removing the entry of a selected symbol and deselecting it keeps the answer invariant, and the text loses just that symbol |
| Session.SelectedHasEntry | js/game.js:1099-1100 | a selected tile always has an entry in the answer, so the search never returns -1 |
| Session.PopKeepsConsistent | js/game.js:1123-1140 | popping the last entry and deselecting its symbol keeps the answer invariant |
| Session.Blank | js/game.js:1206 | the blanked answer keeps its length and every entry is empty |
| Session.BlankJoinsEmpty | js/game.js:1205-1213 | the blanked answer joins to the empty text and is consistent with no tile selected |
| Session.RepeatedSymbolUnspellable | js/game.js:1088-1117 | no answer built by the toggle equals a word that repeats a symbol |
| Session.AnswerSession.constructor | js/game.js:562 | the answer starts empty with nothing selected |
| Session.AnswerSession.SetUpWord | js/game.js:913-923 | the answer is emptied and a keyboard with every symbol of the word and no tile twice is laid out |
| Session.AnswerSession.SelectCharacter | js/game.js:1088-1117 | an unselected tile appends its symbol and becomes selected; a selected tile loses its last entry and is deselected; the invariant is kept |
| Session.AnswerSession.DeleteLastChar | js/game.js:1119-1148 | a non-empty answer loses its last entry and that symbol's tile is deselected; an empty one is unchanged; the invariant is kept |
| Session.AnswerSession.ResetAnswer | js/game.js:1205-1213 | every entry is blanked, the text is empty and no tile is selected |
| Lexicon.GameDataShape | js/game.js:392-554 | the table has levels 1 to 10 of ten words each |
| Lexicon.RepeatedSymbolWordsRepeat | js/game.js:392-554 | each of the 17 listed words is in the table and holds some symbol twice |
| Progress.LeadingDigits | js/game.js:327 | parseInt's scan: a prefix of digits followed by a non-digit or the end |
| Progress.ParseInt | js/game.js:327 | NaN exactly when the text has no leading digit, otherwise a non-negative number |
| Progress.JsString | backend/models/progress.js:20 | `String(n)` is non-empty and starts with a minus sign exactly for negative n |
| Progress.DecimalString | js/game.js:327 | `String(n)` of a non-negative number is a non-empty string of digits |
| Progress.ParseDecimalString | js/game.js:327 | parseInt reads back the numeral `String` wrote |
| Progress.NormaliseList | js/game.js:326-328 | an array keeps its length after normalisation; a non-array becomes empty |
| Progress.DecodeUnlocked | js/game.js:331-333 | 1 when the stored list is missing or empty, otherwise an element of the list |
| Progress.DecodeAnswered | js/game.js:321-329 | the loaded answered-words keep exactly the stored level keys |
| Progress.UnlockedList | js/game.js:374-377 | the saved unlocked list has one entry per unlocked level |
| Progress.UnlockedRoundTrip | js/game.js:331-333 | loading the saved list gives back the unlocked level (or 1 below 1) |
| Progress.BuildUnlockedList | js/game.js:374-377 | the loop builds the list 1, 2, .., n |
| Progress.SentAnswered | js/game.js:382 | the answered lists are sent under the same level keys |
| Progress.SchemaCast | backend/models/progress.js:18-21 | the schema's string cast keeps the level keys |
| Progress.Encode | js/game.js:379-385 | the sent document has one unlocked entry per unlocked level, the same scores, the same answered level keys and a non-zero current level |
| Progress.SaveLoadRoundTrip | js/game.js:317-389 | a save then a load restores the unlocked level, the answered lists (through the string cast and parseInt) and the level scores |
| Progress.NormaliseAnswered | js/game.js:322-329 | the key-by-key loop produces the decoded answered-words |
| Progress.ScoreSum | js/game.js:352-355 | the sum of the level scores in ascending level order; bounded by Progress.ScoreSumBounds and computed by Progress.TotalScore |
| Progress.TotalScore | js/game.js:352-355 | the total-score loop adds the level scores in ascending level order |
| Progress.ScoreSumStep | js/game.js:352-355 | taking out the least remaining level splits off its score |
| Progress.ScoreSumBounds | js/game.js:352-355 | with each level score in 0..m, the total is in 0..m times the number of levels |
| Game.Record | js/game.js:1166-1171 | a correct answer adds its index once: the list grows by one only for a new index, keeps its prefix and stays repetition-free |
| Game.RecordIdempotent | js/game.js:1166-1171 | answering the same word again records nothing more |
| Game.Eligible | js/game.js:1179 | at least five answers in the highest unlocked level, below level 10; kept across a reload by Game.EligibilitySurvivesReload |
| Game.CanUnlock | js/game.js:617 | the previous level is marked unlockable and the level is one above the highest unlocked; Game.Game.Unlock acts exactly when it holds |
| Game.FirstUnanswered | js/game.js:824-840 | the least unanswered word index, or 0 when every word is answered |
| Game.Percentage | js/game.js:764 | the percentage rounded to nearest with halves up, 0 when nothing is possible, at most 100 when answered does not exceed possible |
| Game.GradeOf | js/game.js:790-802 | the 80 / 50 / anything-answered ladder; restated in terms of the counts by Game.GradeByCounts |
| Game.GradeByCounts | js/game.js:790-802 | the grade in terms of the counts: very good from 79.5%, good from 49.5%, needs practice otherwise once something is answered, none only when nothing is |
| Game.AnsweredTotal | js/game.js:757-761 | the answered words of levels 1 to n; bounded by Game.AnsweredTotalBound |
| Game.AnsweredTotalBound | js/game.js:757-764 | with at most ten answers per level the total stays within the possible total and the percentage is at most 100 |
| Game.EligibilitySurvivesReload | js/game.js:335-343 | an eligible highest level is still eligible after a save and a load |
| Game.RepeatedWordsUnspellable | js/game.js:1150-1158 | the 17 listed words of the table can never be answered correctly with the tiles |
| Game.ReassertEligibility | js/game.js:335-343 | an eligible highest level is marked and the next level's notice queued unless acknowledged before; otherwise nothing changes |
| Game.LoadDocument | js/game.js:317-355 | the fetched document yields the decoded answered lists, the last unlocked entry, the re-asserted eligibility and the sum of the level scores |
| Game.Game.constructor | js/game.js:560-568 | level 1, word 0, no score, nothing answered, only level 1 unlocked, no notice pending |
| Game.Game.CheckAnswer | js/game.js:1150-1203 | correct iff the answer equals the word; a correct answer records the word and scores once; the next level is marked unlockable with a notice whenever eligible; a wrong answer changes nothing |
| Game.Game.LoadWord | js/game.js:868-885 | shows the current word, or past the last word records the level score as its answered count and returns to word 0 |
| Game.Game.NextWord | js/game.js:1215-1218 | moves on one word and shows it, or after the last word records the level score as its answered count, returns to word 0 and reports completion; nothing else changes |
| Game.Game.LoadWordDirect | js/game.js:887-896 | shows the current word, or returns to the level list when the level is missing or the index is past its last word |
| Game.Game.StartLevel | js/game.js:812-844 | refuses a level above the highest unlocked one and changes nothing; otherwise takes the level's score and resumes at the first unanswered word, or completes an empty level as loadWord does |
| Game.Game.StartLevelAtWord | js/game.js:849-866 | refuses a locked level and changes nothing; otherwise takes the level's score and shows the chosen word, or returns to the level list |
| Game.Game.Unlock | js/game.js:617-634 | unlocks exactly when the previous level is marked and the level is one above the highest; raises the highest unlocked level by one and clears the mark |
| Game.Game.AcknowledgeUnlockNotice | js/game.js:724-742 | a pending notice not shown before is remembered and cleared; otherwise nothing changes |
| Game.Game.UpdateTotalScore | js/game.js:752-810 | answered words over the unlocked levels, ten possible per level, the rounded percentage and its grade |
| Game.Game.Save | js/game.js:369-389 | the document sent is the encoding of the current progress |
| Game.Game.Load | js/game.js:317-367 | takes the scores, the normalised answered lists and the last unlocked entry; re-marks an eligible level with a notice unless acknowledged; totals the scores; a failed load resets to the defaults |

## Left out

- The DOM, images, sounds, speech, confetti, modals, timers, login and the network are not
  modelled. A fetched document, or its absence after a failed request, is a parameter of
  `Game.Game.Load`. Saving is the separate operation `Game.Game.Save`; the model does not
  capture when the handlers trigger it.
- Game.Game.CheckAnswer: takes the joined answer as a parameter. The delayed `nextWord` and
  `resetAnswer` are separate operations, and the save call is left out.
- Game.Game.StartLevel: `startLevel` also accepts an answered entry equal to the word's text
  or to `String(i)`. The game only ever stores numbers there after a load, so those two tests
  never match and the model checks numeric indices only.
- Game.Game.Unlock: the source attaches the unlock handler to a level card when the level
  list is drawn. The model checks the same condition when the action is taken, and it does not
  model the save and redraw that follow.
- Game.Game: in `startLevel` (js/game.js:823), `loadWord` (js/game.js:875) and `checkAnswer`
  (js/game.js:1152) a level missing from the word table makes the source throw. The model
  states this as a precondition of StartLevel (for an unlocked level), LoadWord, NextWord and
  CheckAnswer. `loadWordDirect` goes back to the level list instead (js/game.js:889-890), and
  LoadWordDirect and StartLevelAtWord model that path with no such precondition.
- Game.Percentage: an integer model of `Math.round` on a floating-point quotient. At an exact
  .5 the floating-point quotient may round differently.
- Progress.LeadingDigits: parseInt's leading whitespace, sign and hexadecimal prefixes are
  not modelled. Only decimal digit strings reach it. NaN is represented as -1, which like
  NaN matches no word index.
- Progress.Document: level keys are natural numbers. Keys that are not integer strings
  cannot arise from the game and are not modelled. Level scores are integers, so the
  `|| 0` fallback for missing scores is not needed.
- Keyboard.Shuffle: an arbitrary permutation stands for the random-comparator sort. Its bias
  and the uniformity of `Math.random` are not modelled.
- Keyboard.PadWithDecoys: requires enough fresh draws. With unlucky random numbers the
  source loop runs longer, and `Keyboard.PoolsSuffice` shows that suitable draws always exist.
- The consonant image numbers, the tile pictures and the backend routes, authentication and
  user records are not part of this model.

# quiz_c, modelled in Dafny

quiz_c is a browser study application for revising the C exercises of an
exam: a flashcard deck under spaced repetition, a multiple-choice quiz, a
puzzle page where the lines of a C solution are put back in order, and a
code browser that shows a complete and, for some exercises, a compact
"Opti for Exam" C solution. Everything runs in the page and keeps its
progress in local storage. Two Node scripts generate the flashcard deck
and the question file.

This project models the logic of those pages and scripts, and the C
solutions the code browser ships:

| Dafny file | module | models |
|---|---|---|
| json.dfy | `Json` | the JSON values read from storage and files, `isObj`, `safeNumber` |
| text.dfy | `Text` | `trim`, `split`, `join`, `padStart` and decimal text, shared by every page |
| lists.dfy | `Lists` | filtering, mapping, insertion and removal on arrays, shared |
| store.dfy | `Store` | the shared progress object of main.js: defaults, `normalizeProgress`, load and save, `recordPerformance`, `upsertFlashcardRecords`, mastery |
| seeded.dfy | `Seeded` | the FNV-1a seed, the seeded generator and the Fisher-Yates shuffle of main.js |
| answer.dfy | `AnswerText` | `parseAnswer` of flashcards.js |
| flashcards.dfy | `Flashcards` | the Leitner scheduler, deck sanitising, filtering and the answer flow of flashcards.js |
| quiz.dfy | `Quiz` | question sanitising, the timer display, the weighted question order and the quiz session of quiz.js |
| puzzle.dfy | `Puzzle` | the puzzle catalogue, its stored state, the shuffle, line moves and puzzle selection of puzzle.js |
| codes_catalogue.dfy, codes.dfy | `CodesCatalogue`, `Codes` | the exercise catalogue, its filters, the selection and the version choice of codes.js |
| cstrings.dfy | `CStrings` | the C solutions ft_strlen, ft_strdup, ft_strrev, union, inter, wdmatch |
| cwords.dfy | `CWords` | the C solutions last_word and ft_split |
| clists.dfy | `CLists` | the C solutions ft_list_size, ft_list_foreach, ft_list_remove_if, sort_list and their compact variants |
| cnumbers.dfy | `CNumbers` | the C solutions ft_atoi, ft_itoa (both versions) and ft_range |
| card_gen.dfy | `CardGen` | scripts/generate_flashcards_dataset.js: the answer format, the card build, the JSON and text outputs, validation |
| quiz_gen.dfy | `QuizGen` | scripts/generate_quiz_dataset.js: text normalisation, question validation, deduplication and numbering |

State that a page updates in place is a class (`Store.ProgressStore`,
`Flashcards.FlashcardPage`, `Quiz.QuizSession`, `Puzzle.PuzzlePage`,
`Codes.CodesPage`) whose methods state the new state. Pure helpers are
functions. The C solutions that loop over buffers are methods over
arrays, proved against specification functions. The flashcard, quiz and
puzzle page classes hold a reference to one `ProgressStore`, which stands
for the progress object each page loads with `loadProgress`.

## Model

| member | source | states |
|---|---|---|
| Text.Trim | flashcards.js:296 | String.prototype.trim: the result starts and ends with no white space or line terminator and is no longer than the input |
| Text.TrimIdempotent | flashcards.js:296 | trimming twice is trimming once |
| Text.TrimPadded | scripts/generate_flashcards_dataset.js:499 | a trimmed text wrapped in white space trims back to itself |
| Text.SplitJoin | scripts/generate_flashcards_dataset.js:499 | splitting a joined list on the separator gives the list back when no part holds the separator |
| Text.Split | scripts/generate_flashcards_dataset.js:499 | splitting gives one part at least, none holding the separator |
| Text.Join | scripts/generate_flashcards_dataset.js:152 | an empty list joins to the empty string and one part to itself; JoinSnoc gives the rest |
| Text.JoinSnoc | scripts/generate_flashcards_dataset.js:152 | joining one more part appends the separator and that part |
| Text.DecimalRoundTrip | scripts/generate_flashcards_dataset.js:496 | the decimal text of a number reads back as that number |
| Text.PaddedDecimal | scripts/generate_flashcards_dataset.js:496 | a zero-padded decimal text is all digits and reads back as the number |
| Text.PadStart | scripts/generate_flashcards_dataset.js:496 | padding gives the longer of the text and the width, the pad characters in front of the text |
| Text.PaddedDecimalInjective | scripts/generate_flashcards_dataset.js:496 | distinct numbers give distinct zero-padded texts, so the generated ids are distinct |
| Lists.MapOrThrowOk | scripts/generate_flashcards_dataset.js:494-516 | a map that throws on the first rejected element succeeds iff every element is accepted |
| Json.SafeNumber | main.js:54-56 | a number is kept and anything else gives the fallback |
| Json.StringsRoundTrip | main.js:137 | keeping the strings of an array of strings gives them back |
| Store.Clamp | main.js:58-60 | the result is at least lo; with lo ≤ hi it is at most hi and equals v when v is already in range, lo below it and hi above it |
| Store.DefaultProgress | main.js:82-110 | the default progress satisfies the stored invariant |
| Store.NormalizeRecord | main.js:181-205 | a record read back from any value carries its key as id, non-negative counters and dates, a box in 1..5 and a known difficulty |
| Store.NormalizeHistoryEntry | main.js:124-130 | a history entry's result is `known` or `unknown` |
| Store.NormalizeHeatmap | main.js:207-218 | only day keys of the form `dddd-dd-dd` with object entries survive, with non-negative good and bad counts |
| Store.NormalizeSession | main.js:135-144 | the saved queue keeps at most 200 ids, the sort mode is `weak` or `due`, and the queue size lies in 10..30 |
| Store.NormalizeHistory | main.js:121-132 | the history keeps at most the last 200 entries, each with a known result |
| Store.NormalizeFlashcards | main.js:119-205 | every record is valid and stored under its own id, and the history and session caps hold |
| Store.NormalizeSessions | main.js:147-159 | at most the last 150 quiz sessions are kept |
| Store.NormalizeErrors | main.js:160-172 | at most the last 300 quiz errors are kept |
| Store.NormalizeProgress | main.js:112-221 | any value becomes a progress object that satisfies the stored invariant, and anything that is not an object becomes the default progress |
| Store.LoadProgress | main.js:223-233 | what is loaded, whether stored, missing or unparsable, satisfies the invariant |
| Store.SaveProgress | main.js:235-239 | what is saved satisfies the invariant |
| Store.RecordRoundTrip | main.js:181-205 | a valid record written as JSON normalises back to itself |
| Store.RecordsRoundTrip | main.js:181-205 | a valid map of records written as JSON normalises back to itself |
| Store.NormalizeRecords | main.js:182-205 | each record read is stored under its own id and is valid |
| Store.HeatmapRoundTrip | main.js:207-218 | a valid heat map written as JSON normalises back to itself |
| Store.SessionRoundTrip | main.js:135-144 | a saved session normalises back to itself with its queue cut to 200 ids |
| Store.HistoryRoundTrip | main.js:121-132 | a history within the cap normalises back to itself |
| Store.QuizSessionRoundTrip | main.js:147-158 | a quiz session entry normalises back to itself |
| Store.QuizErrorRoundTrip | main.js:160-171 | a quiz error entry normalises back to itself |
| Store.QuizRoundTrip | main.js:146-172 | quiz progress within the caps normalises back to itself |
| Store.UiRoundTrip | main.js:173-218 | the UI state with a valid heat map normalises back to itself |
| Store.NormalizeRoundTrip | main.js:112-221 | normalising a saveable progress object written as JSON changes nothing but the saved queue's ids beyond 200 |
| Store.SaveValid | main.js:235-239 | saving a progress object that already satisfies the invariant keeps it unchanged |
| Store.SaveSaveable | main.js:235-239 | saving a saveable object keeps everything but the queue's ids beyond 200 |
| Store.LoadAfterSave | main.js:223-239 | whatever saveProgress returns and writes, loadProgress reads back unchanged |
| Store.Tally | main.js:297-306 | the day's tally gains exactly one good or one bad answer, starting from zero for a new day, and every other day is unchanged |
| Store.TallyKeepsHeatmapValid | main.js:297-306 | tallying a well-formed day keeps the heat map valid |
| Store.RecordedValid | main.js:297-306 | recording a performance keeps the progress invariant |
| Store.ProgressStore.RecordPerformance | main.js:297-306 | the progress after the call is the old one with the day's tally updated, and nothing else changed |
| Store.ProgressStore.Save | main.js:235-239 | the kept progress becomes the saved, normalised one, unchanged when it was already valid |
| Store.ProgressStore.Persist | main.js:235-239 | saving a saveable progress keeps it but for the queue's ids beyond 200 |
| Store.ProgressStore.UpsertFlashcardRecords | main.js:308-333 | the loop stores each merged card under its id and returns the merged cards in order; nothing but the records changes |
| Store.Merge | main.js:311-329 | a merged record takes its texts and difficulty from the card and its counters, dates and box from the stored record when there is one, and from the card, made non-negative and the box clamped to 1..5, when there is none |
| Store.Upsert | main.js:308-333 | one merged record per card; every old key and every card's id is stored |
| Store.UpsertKeepsOthers | main.js:308-333 | a stored record whose id no card has is left unchanged |
| Store.UpsertAt | main.js:308-333 | with distinct ids, the i-th result is card i merged with the record stored before the call, and it is what ends up stored under its id |
| Store.UpsertKeepsRecordsValid | main.js:308-333 | stored records stay valid and keyed by their id through an upsert of cards with known difficulties |
| Store.RoundedPercent | main.js:384 | the rounded percentage lies within one half of 100·part/total, and in 0..100 when 0 ≤ part ≤ total |
| Store.RoundedPercentOffHalves | main.js:384 | away from the halves only one integer lies within one half of 100·part/total, so any rounding that keeps that bound gives the same percentage |
| Store.MasteryFromRecord | main.js:377-385 | mastery is 0 for a card never answered, otherwise the share of successes as a percentage within one half, in 0..100 |
| Store.MasteryExtremes | main.js:377-385 | a card never known has mastery 0, a card never failed 100 |
| Store.DifficultyRank | main.js:387-395 | the rank is 3 exactly for `hard`, 2 exactly for `medium`, and 1 otherwise |
| Store.NormalizeQuiz | main.js:146-173 | the normalised quiz part keeps at most the session and error limits |
| Store.NormalizeUi | main.js:174-221 | the normalised heat map holds only valid day tallies |
| Store.SessionsRoundTrip | main.js:146-159 | stored quiz sessions within the limit read back unchanged |
| Store.ErrorsRoundTrip | main.js:160-172 | stored quiz errors within the limit read back unchanged |
| Store.FlashcardsRoundTrip | main.js:112-145 | the flashcard part of a progress object with valid records, a history within its limit and a valid session reads back unchanged but for the saved queue beyond its limit |
| Store.ProgressStore.constructor | main.js:223-233 | the shared progress object starts as the progress given, as each page starts from `loadProgress` |
| Seeded.ToInt32 | main.js:245-246 | the signed 32-bit view lies in the int32 range and has the same unsigned view as its argument |
| Seeded.Fnv1a | main.js:241-249 | the FNV-1a hash of any code units lies in [0, 2^32) |
| Seeded.XorUnsigned | main.js:245 | JavaScript's `^` read as unsigned is the xor of the two 32-bit patterns |
| Seeded.ImulPrime | main.js:246 | `Math.imul` by the FNV prime read as unsigned is the product modulo 2^32 |
| Seeded.XorImulStep | main.js:245-246 | one loop iteration on signed values agrees with one unsigned FNV-1a step |
| Seeded.SeedLoopStep | main.js:244-247 | the loop body keeps the unsigned view of the hash equal to the hash of the code units read so far |
| Seeded.SeedFromString | main.js:241-249 | the seed is the 32-bit FNV-1a hash (offset basis 2166136261, prime 16777619) of the string's UTF-16 code units, in [0, 2^32) |
| Seeded.SeededRng.Next | main.js:251-260 | each call advances the state by 0x6d2b79f5 and returns the mixed state as a fraction in [0, 1) |
| Seeded.Draw | main.js:251-260 | the k-th value of the generator lies in [0, 1) |
| Seeded.Pick | main.js:265 | `Math.floor(r * n)` for r in [0, 1) is an index below n |
| Seeded.ShuffleStep | main.js:264-267 | swapping position i with its pick and continuing from i - 1 is the same shuffle |
| Seeded.ShuffleFromPermutes | main.js:262-269 | every stage of the loop holds a permutation of its input |
| Seeded.FisherYatesPermutes | main.js:262-269 | the shuffle is a permutation of its input |
| Seeded.FisherYatesMap | main.js:262-269 | the shuffle moves positions whatever they hold: mapping before or after shuffling gives the same result |
| Seeded.ShuffleArray | main.js:262-269 | a new array holding the shuffle of the input, a permutation of it, the input untouched; a non-array gives an empty array |
| Seeded.ShuffleInPlace | main.js:264-267 | the loop leaves the array holding the Fisher-Yates shuffle of what it held |
| Seeded.SwapElements | main.js:266 | the two positions exchange their values and nothing else changes |
| Seeded.SeededRng.constructor | main.js:251-252 | a new generator starts from the seed taken as an unsigned 32-bit value, before any call |
| AnswerText.ParseAnswer | flashcards.js:295-324 | the objective is trimmed; the title is the default one, followed by " - " and the objective when there is one; a blank answer parses to the default title, no steps and no objective |
| AnswerText.ParsedSteps | flashcards.js:312-316 | every step is non-empty, trimmed and free of `\|` |
| AnswerText.ParseWithoutBackslash | flashcards.js:295-324 | on an answer without a backslash the three double-backslash patterns never match: no objective, the default title, and as steps the cleaned `\|`-separated pieces of the trimmed text, empty ones dropped |
| AnswerText.PlainText | flashcards.js:302-310 | a trimmed text without a backslash has no objective and is its own checklist |
| AnswerText.FirstObjective | flashcards.js:302 | the leftmost match's group is a non-empty tail of the text, shorter than the text |
| AnswerText.Objective | flashcards.js:302-305 | the objective is trimmed; it is empty without a match and otherwise the trimmed tail of the text where the group starts, since the pattern ends with `$` |
| AnswerText.StripChecklistPrefix | flashcards.js:307-308 | removing the checklist header leaves a suffix of the text |
| AnswerText.StripObjective | flashcards.js:309 | removing the objective leaves a prefix of the text |
| AnswerText.StepPatternAsWrittenRejected | flashcards.js:315 | the step pattern as written has a `)` that closes no group, which ECMAScript rejects, while the intended pattern is well formed |
| AnswerText.StripStepNumber | flashcards.js:315 | removing a step's numbering leaves a suffix of the step |
| AnswerText.NumberedStepStripped | flashcards.js:315 | white space, digits, `)` and white space at the head of a step are removed, leaving the rest |
| AnswerText.UnnumberedStepKept | flashcards.js:315 | a step that does not start with white space or a digit is left unchanged |
| AnswerText.CleanStepKeepsOut | flashcards.js:315 | cleaning a step adds no character |
| AnswerText.TrimKeepsOut | flashcards.js:296 | trimming adds no character |
| Flashcards.KnownIntervalMinutes | flashcards.js:11-17 | the wait after a known answer is at least 10 minutes, 10 for a box outside 1..5 and 4320 for box 5 |
| Flashcards.IntervalsGrow | flashcards.js:11-17 | a higher box waits strictly longer |
| Flashcards.Mastery | flashcards.js:20-26 | the mastery is 0 before any answer, otherwise the share of known answers, in [0, 1] for non-negative counters |
| Flashcards.MasteryPercent | flashcards.js:20-26 | the home page's mastery percentage (main.js:377-385) lies within one half of 100 times the scheduler's mastery ratio |
| Flashcards.ScheduleAfterAnswer | flashcards.js:51-67 | the copy keeps the id, texts and difficulty and is seen at `now`; a known answer adds a success, climbs one box up to 5 and waits that box's interval; a failed one adds a failure, drops one box down to 1 and waits 3 minutes; the box stays in 1..5 and a valid record stays valid and due after `now` |
| Flashcards.ReplayCounts | flashcards.js:51-67 | over a series of answers every answer is counted once, as a success or as a failure, and the id never changes |
| Flashcards.ReplayKnownBox | flashcards.js:55-56 | k known answers in a row lift the card k boxes, stopping at 5 |
| Flashcards.ReplayFailedBox | flashcards.js:60-61 | k failed answers in a row drop the card k boxes, stopping at 1 |
| Flashcards.ReplayKeepsValid | flashcards.js:51-67 | a valid record stays valid through any answers given at times after the epoch |
| Flashcards.KnownThenFailed | flashcards.js:55-61 | away from the end boxes, a known answer followed by a failed one puts the card back in its box |
| Flashcards.SanitizeCard | flashcards.js:152-164 | a kept card is in box 1 with a known difficulty and carries the item's five texts |
| Flashcards.KeptItems | flashcards.js:143-151 | only object items whose five texts are strings survive the filters, in order |
| Flashcards.KeptItemsComplete | flashcards.js:143-151 | every object item with the five texts survives |
| Flashcards.SanitizeFlashcards | flashcards.js:138-166 | a payload that is not an array gives no card; otherwise one card per surviving item, in order, each in box 1 with a known difficulty |
| Flashcards.DeckRoundTrip | flashcards.js:138-166 | cards in box 1 with a known difficulty, written as a JSON array, sanitise back to themselves |
| Flashcards.FilteredCards | flashcards.js:199-218 | the shown cards are exactly the deck's cards of the chosen category (any for `all`) that, under the errors-only toggle, have a stored record with a failure, in deck order |
| Flashcards.FilterShowsAll | flashcards.js:199-218 | with every category and no error filter the whole deck is shown |
| Flashcards.CurrentRecord | flashcards.js:259-265 | there is a current record exactly when the cursor is on the queue, its id is not empty and a record is stored under it, and it is that record |
| Flashcards.AnsweredEffect | flashcards.js:403-431 | after an answer the record is the rescheduled copy, the streak grows with the best streak or resets, the history gains one entry for the card (capped at 200), the heat map tallies the answer, the session copies the queue and cursor, and the quiz part is unchanged |
| Flashcards.AnsweredSaveable | flashcards.js:403-431 | an answer on a valid record keeps the progress saveable |
| Flashcards.FlashcardPage.LoadDeck | flashcards.js:530-532 | the page's cards are the sanitised cards merged with the stored records; the merge is stored and saved, and the rest of the progress and the page's queue, cursor and face are unchanged |
| Flashcards.FlashcardPage.FlipCard | flashcards.js:377-386 | the card turns over only when there is a current card; nothing else changes |
| Flashcards.FlashcardPage.RequeueFailedCard | flashcards.js:388-391 | the id is inserted at min(cursor + 2, queue length): the queue grows by one and the ids before and after the insertion point keep their order |
| Flashcards.FlashcardPage.ApplyAnswer | flashcards.js:403-431 | nothing happens unless a current card is flipped; otherwise the cursor moves on by one, the card is unflipped, a failed card is requeued, and the saved progress is the answered one |
| Flashcards.FlashcardPage.RestoreSessionFromQuery | flashcards.js:445-471 | without `resume=1` or a saved queue nothing changes; otherwise the queue is the saved ids that still have a record, in order, the cursor is the saved one clamped to [0, queue length], and the session counts as restored when the queue is not empty |
| Flashcards.CardRoundTrip | flashcards.js:138-166 | a card in box 1 with a known difficulty, written as JSON, has the five texts and sanitises back to itself |
| Flashcards.FlashcardPage.constructor | flashcards.js:95-101 | the page starts with no cards, an empty queue, the cursor at 0 and the card face up, over the shared progress |
| Quiz.SanitizeQuestion | quiz.js:54-61 | the question and explanation are trimmed, the choices and tags are the item's strings, the index is the item's number or -1, and the theme defaults to `patterns` |
| Quiz.Candidates | quiz.js:52-61 | one sanitised question per object item of the payload, in the payload's order |
| Quiz.SanitizeQuizData | quiz.js:47-69 | a payload that is not an array gives nothing; otherwise at most one question per item, each with a non-empty trimmed text, at least two choices and a correct index among them |
| Quiz.SanitizeKeepsPlayable | quiz.js:53-68 | every object item that sanitises to a playable question is kept |
| Quiz.SanitizeQuizDataSound | quiz.js:52-68 | every kept question can be asked and is the sanitised form of an object item of the payload |
| Quiz.QuizFileRoundTrip | quiz.js:47-69 | playable questions with trimmed texts, written as a JSON array, sanitise back to themselves |
| Quiz.TwoDigits | quiz.js:73-74 | a number padded to two digits is all digits, reads back as the number, and is exactly two long below 100 |
| Quiz.FormatTimer | quiz.js:71-76 | the display ends with a colon and two digits, and is five long below 100 minutes |
| Quiz.FormatTimerRoundTrip | quiz.js:71-76 | the display reads back as the whole minutes and the seconds below 60 of the count (negative counting as 0), which together give the count back |
| Quiz.FormatTimerNegative | quiz.js:72 | a count of 0 or below shows `00:00` |
| Quiz.MakePool | quiz.js:121 | the pool holds the items in order, each weight raised to 0.001 at least |
| Quiz.ChooseIndex | quiz.js:126-135 | the inner loop settles on the first position whose weight brings `pick` to 0 or below, or 0 when none does, and that index lies in the pool |
| Quiz.WeightedOrderPermutes | quiz.js:120-142 | whatever the weights and the draws, every item comes out exactly once |
| Quiz.ItemsRemove | quiz.js:138-139 | removing an entry from the pool removes its item and only it |
| Quiz.WeightedOrder | quiz.js:120-142 | the loop's output is the weighted order of the pool for the given draws, a permutation of the items |
| Quiz.SliceTo | quiz.js:146 | `slice(0, end)` gives a prefix of min(end, n) elements, or n + end of them for a negative end |
| Quiz.BuildQuestionSet | quiz.js:144-147 | the set is the first min(count, n) questions of the weighted order: that many questions, all from the input, without repeats when the input has none |
| Quiz.SubMultisetDistinct | quiz.js:144-147 | a sub-multiset of a sequence without repeats has none |
| Quiz.RemapKeepsAnswer | quiz.js:149-159 | the choices come out in `shuffleArray`'s order, a permutation of the originals; the correct index points at the same choice as before, is left as it was when it pointed outside, and every other field is unchanged |
| Quiz.RemapQuestionChoices | quiz.js:149-159 | the question keeps its text, explanation, theme, tags and number of choices |
| Quiz.RemapPlayable | quiz.js:149-159 | a playable question stays playable after the remapping |
| Quiz.SessionPercent | quiz.js:278-283 | 0 for a session without questions, otherwise within one half of 100·score/total, in 0..100 when 0 ≤ score ≤ total |
| Quiz.SessionPercentExtremes | quiz.js:278-283 | a perfect session gives 100 and an empty score 0 |
| Quiz.AdjustedScore | quiz.js:509 | the adjusted score is never negative, never above a non-negative score, and equals the score while the penalty stays below one question's time |
| Quiz.QuizSession.CurrentQuestion | quiz.js:376-378 | there is a current question exactly when the index lies within the session |
| Quiz.QuizSession.GetQuestionTime | quiz.js:369-374 | the time is the question time less the carried penalty, never below 5 seconds; with T ≥ 5 and a non-negative carry it lies in [5, T] and the carry drops by exactly what was taken off, staying non-negative; nothing else changes |
| Quiz.QuizSession.RecordAnswer | quiz.js:417-447 | the question is marked answered and its result recorded; a correct answer scores a point; a wrong one appends exactly one error entry and adds the penalty to both the total and the carry |
| Quiz.QuizSession.EvaluateAnswer | quiz.js:411-458 | nothing changes without a current question or once it is answered; otherwise the answer is recorded as RecordAnswer says and the day's heat map tallies it |
| Quiz.QuizSession.FinishQuiz | quiz.js:489-510 | the session is appended and the last 150 kept; the session's errors go in front of the stored ones and the first 300 are kept; the progress stays valid; the result is the adjusted score |
| Quiz.TagChoices | quiz.js:149-159 | dropping the positions from the tagged choices gives the choices back |
| Quiz.ShuffledTagFound | quiz.js:149-159 | the position of the correct choice is found among the shuffled tags, at a place that holds the same choice |
| Quiz.ShuffledTagMissing | quiz.js:149-159 | a correct index outside the choices is not found among the shuffled tags |
| Quiz.QuizSession.constructor | quiz.js:214-230 | the session starts empty: no questions, index and score 0, unanswered, theme `random`, 20 seconds a question, a penalty of 3 seconds, no penalty yet, no errors and no results |
| Puzzle.PuzzlesWellFormed | puzzle.js:14-148 | the catalogue is not empty and its ids are distinct |
| Puzzle.DefaultPuzzleState | puzzle.js:177-187 | the default state is valid for any catalogue, with no solved puzzle and no history |
| Puzzle.Counter | puzzle.js:215-218 | a stored counter reads back as a non-negative number, itself when it already was one |
| Puzzle.LoadPuzzleState | puzzle.js:189-225 | what is loaded has non-negative counters, only known puzzle ids among the solved ones and at most 40 history entries; nothing stored (or `null`) gives the default state |
| Puzzle.OutcomesRoundTrip | puzzle.js:200-211 | a history within the cap written as JSON reads back unchanged |
| Puzzle.NormalizeOutcomes | puzzle.js:200-211 | a read history holds at most 40 outcomes |
| Puzzle.LoadAfterSave | puzzle.js:189-229 | a state the page saved reads back unchanged |
| Puzzle.SolutionLines | puzzle.js:349-353 | the lines of a puzzle in solution order are in the correct order |
| Puzzle.CorrectOrderUnique | puzzle.js:320-322 | two correct orders of the same lines are the same order: a board has one solved arrangement |
| Puzzle.ShuffledNeverSolved | puzzle.js:324-342 | the shuffle is a permutation of the current order and, with two lines or more, never the solution |
| Puzzle.ShuffledOrder | puzzle.js:324-342 | the shuffled order has as many lines as the current one |
| Puzzle.Moved | puzzle.js:376-379 | after a move the moved line sits at its target and the length is unchanged |
| Puzzle.MovedPermutes | puzzle.js:376-379 | a move permutes the lines and the other lines keep their relative order |
| Puzzle.MoveBack | puzzle.js:365-381 | moving the line back where it came from restores the order |
| Puzzle.OtherThan | puzzle.js:310 | exactly the catalogue's puzzles other than the one to avoid |
| Puzzle.NotSolved | puzzle.js:311 | exactly the puzzles not yet solved |
| Puzzle.CandidatePool | puzzle.js:308-312 | the pool is never empty and holds only catalogue puzzles |
| Puzzle.PickRandomPuzzle | puzzle.js:308-318 | the puzzle picked is from the pool and from the catalogue |
| Puzzle.PoolPrefersUnsolved | puzzle.js:308-312 | when another puzzle exists the pool avoids the given id, and when an unsolved other one exists the pool holds only unsolved ones |
| Puzzle.NextPuzzleDiffers | puzzle.js:520-523 | stepping on from a puzzle gives the next one, the first after the last, and a different one when there are two or more |
| Puzzle.NextPuzzle | puzzle.js:520-523 | the next puzzle is one of the catalogue |
| Puzzle.PuzzleFromId | puzzle.js:304-306 | a puzzle is found exactly for a known id, and it is the catalogue puzzle with that id |
| Puzzle.SelectedPuzzle | puzzle.js:511-531 | the puzzle loaded for any selector value is from the catalogue |
| Puzzle.SelectedPuzzleFacts | puzzle.js:511-531 | with two puzzles or more, asking to avoid the current one always changes the puzzle, whether `random` or the current id is selected; otherwise a known selected id is honoured |
| Puzzle.PuzzlePage.ShuffleCurrentOrder | puzzle.js:324-342 | nothing happens without a puzzle on the board; otherwise the order becomes its shuffle, never solved when it has two lines or more |
| Puzzle.PuzzlePage.LoadPuzzle | puzzle.js:344-363 | the puzzle goes on the board shuffled from its solution order and is remembered as the last one |
| Puzzle.PuzzlePage.MoveLine | puzzle.js:365-381 | the move happens exactly when both positions are on the board and differ; otherwise nothing changes |
| Puzzle.PuzzlePage.MarkOutcome | puzzle.js:448-473 | one more attempt; a success adds to the success count and the streak, raises the best streak and adds the puzzle to the solved ones only when new; a failure resets the streak; the outcome goes first in the history, which keeps 40 entries; the heat map tallies the answer |
| Puzzle.PuzzlePage.LoadSelectedPuzzle | puzzle.js:511-531 | the puzzle on the board is the one SelectedPuzzle names with the pick's own draws, shuffled with the shuffle's own draws, and is remembered as the last one |
| Puzzle.PuzzlePage.constructor | puzzle.js:648-654 | the page starts over the shared progress with the stored puzzle statistics loaded and no puzzle on the board |
| Codes.UniqueIdsDistinct | codes.js:7-716 | no id repeated in a catalogue is the same as its list of ids being duplicate-free |
| Codes.ExercisesWellFormed | codes.js:7-716 | the shipped catalogue of fourteen exercises is non-empty and its ids are distinct |
| Codes.LoadState | codes.js:878-904 | nothing stored, unparsable text or a stored null gives the default state (exam `all`, the first exercise, the complete version); otherwise each of exam, exercise id and version is kept exactly when it is one of the allowed values and replaced by its default when not, so the result is always a valid page state |
| Codes.LoadAfterSave | codes.js:886-908 | loading what saveState wrote for a valid page state gives back that state |
| Codes.FilteredMembers | codes.js:940-945 | an exercise is among the filtered ones iff it is in the catalogue and the filter is `all` or names its exam |
| Codes.FilteredUnique | codes.js:940-945 | filtering a catalogue with distinct ids keeps the ids distinct |
| Codes.Filtered | codes.js:940-945 | the filtered exercises are no more than the catalogue |
| Codes.Reselect | codes.js:947-958 | no exercises under the filter gives the empty id; a current id that is among them is kept; otherwise the first one's id is chosen, so the result is always one of them |
| Codes.SafeIndex | codes.js:1057-1058 | the position is a valid index; it is the position of the current id when that id is present and 0 when not |
| Codes.Step | codes.js:1051-1061 | the id moveSelection selects is always one of the exercises under the filter |
| Codes.StepNeighbours | codes.js:1057-1059 | moving by 1 selects the next exercise and wraps from the last to the first; moving by -1 selects the previous one and wraps from the first to the last |
| Codes.StepBack | codes.js:1051-1061 | with distinct ids, next then previous and previous then next both come back to the current exercise (the first one when the current id is unknown) |
| Codes.SafeIndexOf | codes.js:1057-1058 | with distinct ids, the position found for the id at position k is k |
| Codes.GetVersionedExercise | codes.js:964-979 | the compact variant is used exactly when the opti version is requested and the exercise has one; the flags report the request and the availability; the file name and helpers come from the variant when it is used and from the exercise otherwise |
| Codes.OptiOnlyForFour | codes.js:720-848 | in the shipped catalogue the opti version is available exactly for itoa, lstforeach, list_remove_if and lstsort |
| Codes.CurrentExercise | codes.js:960-962 | an exercise is found iff its id is in the catalogue, and the one found carries that id |
| Codes.CodesPage.constructor | codes.js:1148-1173 | the page starts from the loaded state, a query id naming a known exercise overrides the stored one, and the selection is then made valid for the filter |
| Codes.CodesPage.EnsureValidSelection | codes.js:947-958 | the selected id becomes Reselect of the filtered exercises and the old id; filter and version are unchanged |
| Codes.CodesPage.SetExam | codes.js:1113-1119 | the filter becomes the chosen exam and the selection is made valid under it; the version is unchanged |
| Codes.CodesPage.MoveSelection | codes.js:1051-1065 | nothing changes without exercises under the filter; otherwise the selected id becomes the cyclic step from the current one; filter and version are unchanged |
| CStrings.Len | codes.js:117-125 | the length is the position of the first NUL: the character there is NUL and none before it is |
| CStrings.ContentOfTerminated | codes.js:117-125 | a NUL-free text followed by a terminator reads back as that text, whatever follows |
| CStrings.FtStrlen | codes.js:117-125 | the count returned is the number of characters before the first NUL |
| CStrings.FtStrdup | codes.js:127-145 | the result is a fresh buffer of length+1 holding the same characters and a terminator, so it reads as the same C string |
| CStrings.Reverse | codes.js:165-182 | the reverse has the same length and holds the k-th character from the end at position k |
| CStrings.ReverseReverse | codes.js:165-182 | reversing twice gives the text back |
| CStrings.SwapStep | codes.js:165-182 | one more exchange of positions i and len-1-i extends the swapped ends by one |
| CStrings.SwapDone | codes.js:165-182 | once the two ends meet, the string part is reversed and the rest of the buffer untouched |
| CStrings.FtStrrev | codes.js:165-182 | the same buffer is returned, holding the C string reversed, its terminator and whatever follows it untouched |
| CStrings.StrrevTwice | codes.js:165-182 | reversing a C string in place twice restores the buffer |
| CStrings.FirstOccurrencesFacts | codes.js:30-62 | the first occurrences of a text hold every character of the text and each only once |
| CStrings.FirstOccurrencesSnoc | codes.js:30-46 | one more character is kept exactly when it has not occurred yet |
| CStrings.MarksSet | codes.js:30-46 | setting a character's flag in a table of 256 flags marks that character as well |
| CStrings.MarksAgain | codes.js:207-217 | marking a character a second time leaves the table describing the same set |
| CStrings.InitSeen | codes.js:18-28 | afterwards every flag is cleared: the table marks nothing |
| CStrings.PrintUniqueFrom | codes.js:30-46 | the characters of str not yet marked are written once each in order and marked, so the output and the table grow from the first occurrences of what was scanned to those of scanned + str |
| CStrings.UniqueStep | codes.js:30-46 | one character is written and marked when its flag was clear and left alone otherwise, keeping the loop invariant |
| CStrings.Union | codes.js:48-62 | with two arguments the output is the first occurrences of the two arguments joined, then a newline; otherwise a lone newline |
| CStrings.UnionIsUnion | codes.js:48-62 | what union writes before the newline holds exactly the characters of either argument, each once |
| CStrings.CommonChars | codes.js:219-235 | the common characters are those of s that also occur in t |
| CStrings.MarkSeen | codes.js:207-217 | from an empty table, afterwards the table marks exactly the characters of str |
| CStrings.PrintIntersection | codes.js:219-235 | the output is the first occurrences of the characters of str that are marked in the first table, and the second table marks exactly what was written |
| CStrings.InterStep | codes.js:219-235 | one character is written and recorded when it is marked in the first table and not in the second, and left alone otherwise |
| CStrings.Inter | codes.js:237-252 | with two arguments the output is, in the order of the second, the first occurrences of its characters that also occur in the first, then a newline; otherwise a lone newline |
| CStrings.InterIsIntersection | codes.js:237-252 | what inter writes before the newline holds exactly the characters found in both arguments, each once |
| CStrings.SubsequenceTail | codes.js:324-346 | dropping the first character of a subsequence leaves a subsequence |
| CStrings.GreedyComplete | codes.js:324-346 | the greedy scan matches all of s exactly when the rest of s is a subsequence of t: greed loses no match |
| CStrings.Wdmatch | codes.js:324-346 | with two arguments the first is written when the greedy scan matches all of it, then a newline; otherwise a lone newline |
| CStrings.WdmatchSpec | codes.js:324-346 | wdmatch writes its first argument exactly when it is a subsequence of the second |
| CWords.WordsToPrefix | codes.js:567-584 | the words of a prefix do not depend on what follows it |
| CWords.WordsTrailing | codes.js:567-584 | separators at the end add no word |
| CWords.WordsRun | codes.js:567-584 | a run of non-separators that starts the text or follows a separator is exactly one more word |
| CWords.WordsGrow | codes.js:567-584 | the word count never drops as the text grows |
| CWords.WordsAppendWord | codes.js:277-302 | a word after a separator is one more word, the last one |
| CWords.WordsJoin | codes.js:628-658 | non-empty separator-free words joined by a separator split back into the same words |
| CWords.LastWord | codes.js:277-302 | with one argument the output is its last word (space and tab separating words), or nothing when it has none, then a newline; otherwise a lone newline |
| CWords.CountWords | codes.js:567-584 | the count returned is the number of words, space, tab and newline separating them |
| CWords.SkipSeparators | codes.js:567-584 | the position returned ends the run of separators at p: everything skipped is a separator and the character reached, if any, is not |
| CWords.WordLen | codes.js:586-594 | the length returned is that of the run of non-separators at p: none of them is a separator and the character after them, if any, is one |
| CWords.SplitRound | codes.js:628-658 | from a position that starts the text or holds a separator, skipping separators and then a run of non-separators adds exactly that run as one word, and never more words than the text has |
| CWords.ScanWord | codes.js:628-658 | one round of the loop finds the next word, if any: it starts after the separators, is non-empty iff the text is not exhausted, and extends the words read so far by one |
| CWords.CopyWord | codes.js:596-612 | the copy holds exactly the len characters at p |
| CWords.TableFinish | codes.js:628-658 | closing the table with a NULL entry keeps the words written before it |
| CWords.FtSplit | codes.js:628-658 | a NULL text gives NULL; otherwise a table holding the words of the text in order, separators being space, tab and newline, closed by a NULL entry |
| CLists.ListSize | codes.js:362-375 | the count returned is the number of nodes in the list |
| CLists.ListForeach | codes.js:488-500 | with a function given, it is called on the data of every node in list order, NULL data included; with none, it is never called |
| CLists.ListForeachExam | codes.js:781-789 | the compact variant calls the function on exactly the non-NULL data, in list order |
| CLists.PresentAll | codes.js:781-789 | on a list without NULL data the compact variant makes the same calls as the complete one |
| CLists.SelectMembers | codes.js:450-472 | a value is kept iff it is in the list and does not compare equal to data_ref, and removed iff it is in the list and compares equal |
| CLists.SelectAppend | codes.js:450-472 | selecting from two lists joined is joining their selections |
| CLists.RemoveHeadMatches | codes.js:436-448 | the freed prefix followed by the remaining list is the original list; every freed node matches and the new head, if any, does not |
| CLists.ListRemoveIf | codes.js:450-472 | nothing changes and nothing is freed when begin_list, cmp or free_fct is NULL; otherwise the list keeps exactly the non-matching nodes in order and free_fct is called on exactly the matching data in order |
| CLists.KeptRemovedPartition | codes.js:450-472 | the kept and the freed nodes together are the original nodes, none lost and none duplicated |
| CLists.ExamRemoveAgrees | codes.js:804-819 | the recursive compact variant leaves exactly the nodes the complete version keeps |
| CLists.ListRemoveIfExam | codes.js:804-819 | nothing changes when begin_list or cmp is NULL; otherwise the list is kept, no longer than before |
| CLists.AboveSwap | codes.js:516-544 | exchanging two neighbours does not change how many elements a value is out of order with |
| CLists.InversionsSwap | codes.js:528-538 | exchanging a neighbour pair that is out of order removes exactly one inversion |
| CLists.BubblePass | codes.js:522-541 | one pass keeps the data a permutation and removes one inversion per exchange; when it reports no exchange the data are unchanged and sorted |
| CLists.SortList | codes.js:516-544 | the data end as a permutation of the original; with a comparator they are sorted (no neighbour pair with cmp > 0); a NULL comparator or a list of at most one node is left as it is |
| CLists.SortListExam | codes.js:827-848 | the compact variant also leaves a permutation of the data, in which no neighbour pair has cmp == 0; a NULL comparator leaves the list as it is |
| CNumbers.SpacesEndAt | codes.js:72-89 | the white-space run starting at i ends at the first position that holds none of the blank and the characters 9 to 13 |
| CNumbers.DigitsEndAt | codes.js:98-103 | a run of digits ends at the first position that holds none |
| CNumbers.RunValueMono | codes.js:98-103 | more digits accumulate at least as much |
| CNumbers.RunValueDecimal | codes.js:98-103 | ten times the value so far plus the next digit accumulates the decimal value of the digits read |
| CNumbers.FtAtoi | codes.js:81-105 | the result is the signed decimal value of the digits that follow the white space and one optional sign, and stays an `int` when the magnitude fits |
| CNumbers.AtoiParts | codes.js:81-105 | for white space, a sign of "", "-" or "+", digits and a rest not starting with a digit, the value read is the digits' decimal value, negated for "-", whatever the rest holds |
| CNumbers.ItoaShape | codes.js:693-716 | the text starts with '-' exactly for a negative number, is as long as the digits of the magnitude plus the sign, and is "0" for 0 |
| CNumbers.AtoiItoa | codes.js:693-716 | reading back the text ft_itoa writes gives the number itself, magnitude and sign |
| CNumbers.AtoiItoaDefined | codes.js:81-105 | among `int` values the read-back stays within C's defined behaviour exactly for those other than INT_MIN |
| CNumbers.CountDigits | codes.js:670-681 | the count is the number of decimal digits of n, one for 0 |
| CNumbers.LowDigitsDecimal | codes.js:683-691 | with room for all of n's digits, the k lowest digits are n's decimal text behind zeros |
| CNumbers.FillDigitsFromRight | codes.js:683-691 | positions index down to 0 receive the lowest digits of n, the last digit at index; the rest of the buffer is untouched |
| CNumbers.FtItoa | codes.js:693-716 | the buffer holds the decimal text of nbr, a '-' first for a negative one, then a terminator; INT_MIN included |
| CNumbers.CDiv10 | codes.js:727-740 | C's division by 10 truncates toward zero: the magnitude of the quotient is the magnitude divided by 10 |
| CNumbers.FtCountLen | codes.js:727-740 | the compact count is the length of the text of nbr, sign included, 1 for 0 |
| CNumbers.ItoaExamStep | codes.js:760-765 | writing the lowest digit in front of the digits already written extends them toward the decimal text of the number |
| CNumbers.FtItoaExam | codes.js:742-769 | the compact ft_itoa writes the same text and terminator as the complete one |
| CNumbers.FtRange | codes.js:394-418 | as written: \|end - start\| + 1 elements from start to end by steps of one, first start and last end, and the values computed include the one after end |
| CNumbers.RangeOverflowsAtIntMax | codes.js:410-415 | for start = end = INT_MAX the value computed after the last store is INT_MAX + 1, which does not fit an `int` |
| CNumbers.RangeOverflowCases | codes.js:410-415 | the value computed after the last store leaves `int` exactly when the range ends at INT_MAX going up or at INT_MIN going down |
| CNumbers.FtRangeGuarded | codes.js:394-418 | with the step added only between two stores, the same elements are stored and every value computed is an `int` |
| CardGen.MakeAnswerRoundTrip | scripts/generate_flashcards_dataset.js:149-153 | splitting an answer built by makeAnswer on `\|`, trimming and dropping blanks gives back exactly its cleaned lines, blank ones removed |
| CardGen.MakeAnswer | scripts/generate_flashcards_dataset.js:149-153 | no line makes an empty answer and one line its cleaned form; MakeAnswerRoundTrip reads the lines back |
| CardGen.CleanLinesComeBack | scripts/generate_flashcards_dataset.js:149-153 | lines that are already clean and non-blank survive makeAnswer and the read-back unchanged |
| CardGen.CleanLineShape | scripts/generate_flashcards_dataset.js:151 | a cleaned line is trimmed and holds neither `\|` nor a line break |
| CardGen.DifficultyOfTheme | scripts/generate_flashcards_dataset.js:138-147 | the difficulty is `hard` for Pièges, Listes chaînées and Conditions limites and `medium` for every other name, unknown ones included |
| CardGen.ThemesDistinct | scripts/generate_flashcards_dataset.js:10-19 | the eight theme names differ pairwise |
| CardGen.CheckCount | scripts/generate_flashcards_dataset.js:487-489 | the count check passes exactly when there are 160 cards and then returns them unchanged |
| CardGen.BuildCards | scripts/generate_flashcards_dataset.js:465-492 | the loops push, theme after theme, the cards of every profile and variant (the two list profiles and ten variants for the list theme); the result is Ok exactly when that makes 160 cards |
| CardGen.CardsUpToCounts | scripts/generate_flashcards_dataset.js:468-484 | after the first t themes, each of them holds twenty cards and every later theme none |
| CardGen.BuildCardsCounts | scripts/generate_flashcards_dataset.js:465-492 | whatever the templates, buildCards makes 160 cards with twenty per theme, so neither its count check nor the distribution check of validate can throw |
| CardGen.CardIdNumber | scripts/generate_flashcards_dataset.js:496 | an id is `fc-` followed by digits that read as the position plus one |
| CardGen.CardIdsDistinct | scripts/generate_flashcards_dataset.js:496 | two positions never share an id |
| CardGen.ToJsonCardCarries | scripts/generate_flashcards_dataset.js:497-514 | each counter or date of the old card with the same id carries over when it is a number, and is 0 when the old card lacks it or holds something else |
| CardGen.ToJsonCardsOk | scripts/generate_flashcards_dataset.js:494-503 | toJsonCards succeeds exactly when every answer reads back as one to six lines |
| CardGen.ToJsonCardsValues | scripts/generate_flashcards_dataset.js:494-516 | on success there is one JSON card per card, at the same position, built from that card and its old entry |
| CardGen.ToJsonCardsFailure | scripts/generate_flashcards_dataset.js:499-502 | on failure the error is the message for the first card whose answer has no line or more than six |
| CardGen.ToJsonCards | scripts/generate_flashcards_dataset.js:494-516 | no card gives an empty list, and a first card whose answer has no line or more than six stops the conversion with its message |
| CardGen.DeckLinesPlain | scripts/generate_flashcards_dataset.js:522-534 | a card whose theme, question and answer lines hold no line break yields deck lines without line breaks |
| CardGen.DeckBlockLines | scripts/generate_flashcards_dataset.js:519-538 | the block of a generated card splits on line breaks back into its header, one bullet per non-blank cleaned answer line, and the separator |
| CardGen.ToTextDeck | scripts/generate_flashcards_dataset.js:519-538 | no card gives an empty text and one card its block |
| CardGen.ToTextDeckSnoc | scripts/generate_flashcards_dataset.js:519-538 | one more card appends its block, numbered after the others, to the text |
| CardGen.CheckCard | scripts/generate_flashcards_dataset.js:547-563 | one card's four tests (names a function as a whole word, not theoretical, asks for a decision, at most six lines) report no error exactly when the card passes them all |
| CardGen.TallyCounts | scripts/generate_flashcards_dataset.js:545 | the running count of a theme equals the number of cards of that theme, and a theme never seen has none |
| CardGen.TallyCards | scripts/generate_flashcards_dataset.js:544-564 | the first loop of validate succeeds exactly when every card passes its tests, and returns the count per theme |
| CardGen.CheckThemes | scripts/generate_flashcards_dataset.js:566-570 | the second loop succeeds exactly when every theme holds twenty cards |
| CardGen.Validate | scripts/generate_flashcards_dataset.js:540-573 | validate succeeds exactly when every card passes and every theme holds twenty cards, and returns the count per theme |
| QuizGen.PiecesLikeCut | scripts/generate_quiz_dataset.js:157-162 | splitting on runs of `.`, `!`, `?` and splitting on single marks give the same non-blank sentences |
| QuizGen.SentenceCount | scripts/generate_quiz_dataset.js:157-162 | an empty text has no sentence; SentenceCountJoin and SentenceCountPlain give the count of any text |
| QuizGen.SentenceCountJoin | scripts/generate_quiz_dataset.js:157-162 | a sentence mark separates sentences: the count of the text around it is the sum of the counts on either side |
| QuizGen.SentenceCountPlain | scripts/generate_quiz_dataset.js:157-162 | a text without a mark is one sentence, or none when it is blank |
| QuizGen.NormalizedChars | scripts/generate_quiz_dataset.js:148-155 | a normalised text holds only a-z, 0-9 and single inner spaces, and is trimmed |
| QuizGen.NormalizeText | scripts/generate_quiz_dataset.js:148-155 | a normalised text is trimmed |
| QuizGen.NormalizeIgnoresCase | scripts/generate_quiz_dataset.js:148-155 | normalising ignores case and accents: folding first changes nothing |
| QuizGen.FoldedTwice | scripts/generate_quiz_dataset.js:149-152 | lower-casing and stripping accents is idempotent |
| QuizGen.ActionWordInQuestion | scripts/generate_quiz_dataset.js:164-194 | hasActionContext holds whenever the lower-cased question alone mentions an action word, whatever the choices |
| QuizGen.ValidateQuestion | scripts/generate_quiz_dataset.js:831-873 | validateQuestion accepts exactly the questions that pass every test: a colon and a question mark, a function name, four choices, an answer index in 0..3, an explanation of at least 70 UTF-16 units and at most three sentences, no "Dans les règles implicites", a decision word, an action word, and choices that are each long enough, refer to no other choice and are pairwise distinct once normalised |
| QuizGen.CheckChoices | scripts/generate_quiz_dataset.js:860-872 | the loop over the choices accepts exactly when each choice is long enough and names no pair of choices, and no two choices normalise alike |
| QuizGen.ChoicesRepeat | scripts/generate_quiz_dataset.js:866-869 | a normalised text already seen rejects the choices |
| QuizGen.DedupQuestions | scripts/generate_quiz_dataset.js:922-933 | the filter with its two sets of keys keeps an item exactly when no earlier kept item has the same theme and question or the same theme and normalised question |
| QuizGen.Deduped | scripts/generate_quiz_dataset.js:922-933 | the filter keeps no more items than it is given, each of them one of the given items |
| QuizGen.DedupedDistinct | scripts/generate_quiz_dataset.js:922-933 | no two kept items share a theme and a normalised question |
| QuizGen.DedupedFull | scripts/generate_quiz_dataset.js:922-937 | the filter never adds items, and keeps as many as it was given only when it removes none |
| QuizGen.ExactKeyNormalized | scripts/generate_quiz_dataset.js:925-926 | with themes free of `\|`, a repeated exact key implies a repeated normalised key |
| QuizGen.DedupedIsFirstByKey | scripts/generate_quiz_dataset.js:922-933 | with themes free of `\|`, the filter keeps exactly the first item of each theme and normalised question, in order |
| QuizGen.GeneratedFirstByKey | scripts/generate_quiz_dataset.js:878-933 | the generator's themes hold no `\|`, so its filter keeps the first question of each theme and normalised text |
| QuizGen.EntryIdNumber | scripts/generate_quiz_dataset.js:945-948 | an id is `q` followed by digits that read as the position plus one |
| QuizGen.EntryIdsDistinct | scripts/generate_quiz_dataset.js:945-948 | two positions never share an id |
| QuizGen.Numbered | scripts/generate_quiz_dataset.js:945-948 | numbering keeps the items and their order and gives the k-th one the k-th id |
| QuizGen.Slots | scripts/generate_quiz_dataset.js:889-920 | the loops visit 320 template cells: 280 for seven themes, eight profiles and five templates, then 40 for two list profiles, four contexts and five templates |
| QuizGen.Generated | scripts/generate_quiz_dataset.js:878-920 | the loops produce 320 questions before de-duplication |
| QuizGen.BuildDataset | scripts/generate_quiz_dataset.js:878-949 | buildDataset succeeds exactly when no generated question is a duplicate (320 kept) and every one passes validateQuestion, and then returns them numbered in order; otherwise it fails with the count message, or names the first question validateQuestion rejects |
| QuizGen.CountMessage | scripts/generate_quiz_dataset.js:935-937 | the count message reads back the count between `Dataset inattendu: ` and ` questions (attendu: 320)` |

## Left out

- The podcast page (podcasts.js) is not part of this model.
- DOM work is not modelled: rendering, event binding, focus, the navigation menu (`initCommon`), feedback messages, drag and drop, clipboard copy and file download. Each page method models the state part of its handler.
- Local storage, `fetch` and the scripts' file system calls are not modelled as I/O. A stored or fetched document is an `Option<Value>` parameter, `None` standing for nothing stored or text `JSON.parse` rejects. What a save writes is the JSON value the model returns.
- The clock is a parameter. `Date.now()` becomes `now`, `todayKey()` becomes `day` and `new Date().toISOString()` becomes `nowIso`. `relativeTimeFromNow`, `todayKey` and the quiz's `QuestionTimer` ticking are left out.
- `Math.random` is an oracle `rng: nat -> real` with values in [0, 1); draw k of an operation reads `rng(k)`. The seeded generator of main.js is modelled exactly, with 32-bit wrap-around, `Math.imul` and `>>> 0` written out.
- Floating-point scoring is left out: the flashcard priority, `difficultyWeight` and the order `buildQueue` sorts by, the quiz's `buildWeaknessMap` and `questionWeight`, the heat map colour levels and the scores of `renderDifficultCards`. The weighted question order takes its weight function as a parameter and works on `real`.
- JavaScript numbers are integers here, so a stored fraction or `NaN` is not distinguished from other numbers. Counters read with `safeNumber` are integers.
- Unicode: `normalize("NFD")` and the removal of combining marks in scripts/generate_quiz_dataset.js are modelled as folding the accented Latin-1 letters to their base letter. Case folding of the `/i` patterns is `AnswerText.Fold`: a-z to A-Z and é to É, which decides every match of those patterns, since their letters are a-z and é. `toLowerCase` in scripts/generate_quiz_dataset.js is `QuizGen.Lower`: A-Z and the Latin-1 capitals À to Þ except ×; capitals beyond Latin-1 are left as they are. The C solutions model `char` values below 256 (`CStrings.Bytes`).
- The C linked lists are sequences of node data in link order, so aliasing between nodes is not modelled. `sort_list` works on an array of the node data, since it only swaps data. `malloc` always succeeds, so the `NULL` returns after a failed allocation and `free_words` are not modelled.
- The question and card templates of the two generator scripts are a parameter (`make`), since they are French prose. `oldById` of `toJsonCards` is also a parameter. The model proves what the scripts check of any template output.
- Property lookups on the JavaScript prototype, such as a stored key named `__proto__`, are not modelled.
- `Array.prototype.join` on non-string items is not modelled.
- The `validate` function of scripts/generate_flashcards_dataset.js is modelled as `CardGen.CheckCard`, `CardGen.TallyCards` and `CardGen.CheckThemes`, composed by `CardGen.Validate`. The choices loop of `validateQuestion` is `QuizGen.CheckChoices`.
- Store.RoundedPercent: rounds the exact ratio, a half upwards, where `Math.round((part / total) * 100)` rounds a floating-point product that can fall just below a half: 23 of 40 shows 57 in JavaScript and 58 here. The contract keeps what both satisfy, a result within one half of 100·part/total, exact at 0 and at part == total; RoundedPercentOffHalves shows they agree away from the halves.
- Store.MasteryFromRecord: the same rounding at the halves, so its contract is the one-half bound.
- Flashcards.MasteryPercent: the same one-half bound, closed at both ends for the same reason.
- Quiz.SessionPercent: the same rounding at the halves, so its contract is the one-half bound.
- Flashcards.FlashcardPage.RequeueFailedCard: requires a cursor that is not negative, which the page always keeps.
- Codes.Step: requires a direction of -1 or more. The page only passes 1 and -1. A direction below -1 can make JavaScript's `%` negative, and that case is not modelled.
- Codes.CodesPage.MoveSelection: the same restriction to a direction of -1 or more.
- Quiz.QuizSession.EvaluateAnswer: requires the selected index to be below the number of choices. The page passes a button's index, or -1 on a timeout. A larger index would read `undefined` in JavaScript.
- Quiz.QuizSession.RecordAnswer: the same requirement on the selected index.
- Puzzle.PuzzlePage.MarkOutcome: models the reload of the progress before the write as reading the shared store, which already holds the latest progress.
- CardGen.CheckCard: its contract says whether a card passes, not which message it reports.
- CNumbers.FtAtoi: requires the magnitude read to fit an `int`. Beyond that, C's signed overflow is undefined behaviour.
- CNumbers.FtRange: requires `end - start` and the element count to fit an `int`, for the same reason.
- CLists.SortList: requires a comparator that never reports both a > b and b > a. Without it, the C loop may never end.
- CLists.SortListExam: requires a comparator that never answers 0 both ways, for the same reason.

## Findings

| source | as written | input that shows it | evidently intended | confidence | as-written member | corrected member |
|---|---|---|---|---|---|---|
| flashcards.js:315 | the step pattern `/^\\s*\\d+\\)\\s*/` escapes each backslash, so its `)` closes no group; ECMAScript rejects such a literal, and the script fails to load | the pattern source itself | `^\s*\d+\)\s*`: strip a leading "12) " numbering and the white space around it | not executed | AnswerText.StepPatternAsWrittenRejected | AnswerText.NumberedStepStripped |
| codes.js:410-415 | ft_range adds the step to `value` after storing the last element | `ft_range(2147483647, 2147483647)` computes INT_MAX + 1, a signed overflow | compute the next value only when another element follows | not executed | CNumbers.RangeOverflowsAtIntMax | CNumbers.FtRangeGuarded |

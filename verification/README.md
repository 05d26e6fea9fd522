# OrthTrainer quiz core in Dafny

OrthTrainer is a Russian spelling trainer. The learner picks a topic from a
menu. The program loads that topic's questions from `words.csv`, shuffles
them and keeps at most ten. Each question shows four spellings in random order, and
the learner picks one. At the end a result screen shows "correct out of
total". A second button next to each topic shows that topic's rule.

This project models the logic of `main.py` and proves properties of it:

- `permutations.dfy` (`Permutations`): what `random.shuffle` may produce. It
  gives multiset equality and a recursive "take each item out once"
  definition, and proves the two agree.
- `pytext.dfy` (`PyText`): `str.strip()` with its exact whitespace set, and
  `int()` on a stripped string. `int()` takes an optional sign and decimal
  digits, with single underscores allowed between digits. The file also
  proves the round trip `int(str(n)) == n`.
- `bank.dfy` (`QuestionBank`): `DataManager.load_questions`. Rows are
  filtered by length and by the parsed last field, with 5 as the "mix"
  topic. Each kept row becomes `row[:4]`. The list is then shuffled and cut
  with Python's `[:limit]`. A missing file gives `[]`.
- `session.dfy` (`QuizSession`): the state of `TestWindow`. That is the
  question list, `current_index`, `correct_answers`, and what `display_q`
  puts on screen. It also covers scoring and advancing in `handle_next`,
  and the completion law.
- `navigation.dfy` (`Navigation`): the screens of `MainWindow` (menu, rule,
  quiz, result), the transitions between them, and the `RULES.get` fallback.
- `wrappers.dfy` (`Wrappers`): the `Option` type.

Randomness is an input. Each shuffle is a parameter constrained to be a
rearrangement of what the source shuffles. The CSV file is also an input:
a `Source` is either `Missing` (the `FileNotFoundError` case) or `Present`
with rows already split into fields. The rule texts are an opaque
`map<int, string>`.

Behaviour of `main.py` worth knowing, all of it modelled as written:

- Questions are not checked for four distinct answers.
- Topics are not checked to be non-negative. `int()` accepts a sign, so a
  row with topic `-3` is loaded for topic `-3`
  (`QuestionBank.NegativeTopicKept`).
- A loaded question is the bare 4-tuple. It does not keep its topic.
- A submitted text is compared with the correct spelling by plain string
  equality. Nothing checks that it is one of the displayed options. So a
  distractor equal to the correct spelling also scores.
- If a topic has no questions, `start_test` still makes the quiz window
  current, after its constructor has called `back_to_menu`. The user is
  left on a quiz screen that shows no question. That screen has no button
  back to the menu, so it is a dead end (`Navigation.EmptyQuizIsDeadEnd`).
- Once the last answer is given, the result screen replaces the quiz. No
  further answer can be given to that quiz.
- The topic and rule buttons exist only on the menu, one pair for each of
  the topics 1 to 5. The rule and result screens each have one button back
  to the menu. The quiz screen has only its answer button.
  `Navigation.Allowed` admits these actions on each screen. The one
  exception is a selected answer on the empty quiz screen, which crashes
  the source and is not allowed in the model (see "## Left out").

## Model

| member | source | states |
|---|---|---|
| Permutations.RearrangementIsPermutation | main.py:75 | taking items out one at a time in some order is the same relation as equal multisets, both directions |
| Permutations.WithoutMultiset | main.py:149-150 | removing one occurrence of a present item removes exactly that one from the multiset |
| PyText.TrimStart | main.py:68 | the result is a suffix of the input, everything dropped is whitespace, and it does not start with whitespace |
| PyText.TrimEnd | main.py:68 | the result is a prefix of the input, everything dropped is whitespace, and it does not end with whitespace |
| PyText.Strip | main.py:68 | `strip()` gives an infix of the field with only whitespace cut from both ends, and it neither starts nor ends with whitespace |
| PyText.StripIdempotent | main.py:68 | stripping a stripped field changes nothing |
| PyText.StripKeepsFirst | main.py:68 | a field that does not start with whitespace keeps its first character after `strip()` |
| PyText.ParseInt | main.py:68 | a string `int()` accepts starts with a sign or digit and ends with a digit; unsigned it is non-negative |
| PyText.ShowNat | main.py:68 | the decimal spelling of a natural number is non-empty and all digits |
| PyText.ShowNatValue | main.py:68 | reading the decimal spelling of `n` gives `n` back |
| PyText.ParseShowInt | main.py:68 | `int(str(n)) == n` for every integer, negative ones included |
| PyText.ParsedIsStripped | main.py:68 | any string `int()` accepts has no surrounding whitespace |
| QuestionBank.Fields | main.py:148-149 | a question has four answer texts, and the first is the correct value |
| QuestionBank.RowCategory | main.py:66-68 | a row has a topic only if it has at least 5 fields and its stripped last field (not field 4) parses as an integer, and then it has exactly that topic |
| QuestionBank.QuestionOf | main.py:70 | a question holds exactly the first four fields of its row, in order |
| QuestionBank.AcceptRow | main.py:66-72 | one iteration of the reading loop yields a question exactly when the row is accepted for the topic, and that question is `row[:4]` |
| QuestionBank.Matching | main.py:65-72 | the filter never yields more questions than there are rows |
| QuestionBank.MatchingAppend | main.py:65-72 | filtering a concatenation is filtering each part and concatenating, in file order |
| QuestionBank.MatchingSound | main.py:65-72 | every collected question is `row[:4]` of a row accepted for the topic |
| QuestionBank.MatchingComplete | main.py:65-72 | every accepted row contributes its question; skipping a bad row does not abort the load |
| QuestionBank.MatchingMembers | main.py:65-72 | a question is collected if and only if some accepted row yields it |
| QuestionBank.FilteredByCategory | main.py:69 | for a topic other than 5, every collected question comes from a row whose parsed last field equals that topic |
| QuestionBank.MixTakesEveryParsedRow | main.py:68-69 | in mix mode every row with a parseable topic contributes, whatever its topic |
| QuestionBank.MixContainsEveryTopic | main.py:69 | as a multiset, what any topic collects is contained in what the mix collects |
| QuestionBank.CollectQuestions | main.py:61-72 | the reading loop collects exactly the filtered questions, in file order |
| QuestionBank.Take | main.py:76 | `xs[:limit]` is a prefix of `xs` of Python's slice length, negative limits included |
| QuestionBank.Load | main.py:60-76 | a missing file gives `[]`; otherwise the result has `min(limit, matching)` items for a non-negative limit and is a sub-multiset of the matching questions |
| QuestionBank.LoadedFromAcceptedRows | main.py:70-76 | every loaded question is `row[:4]` of a row of the file accepted for the topic |
| QuestionBank.DefaultLimitBound | main.py:60-76 | with the default limit at most 10 questions load, and fewer only when fewer match |
| QuestionBank.NonNumericTopicSkipped | main.py:67-72 | a row whose last field starts with a character other than whitespace, a sign or a digit is dropped, even in mix mode |
| QuestionBank.HeaderRowSkipped | main.py:66-72 | a header line is dropped because its last field is not an integer |
| QuestionBank.TopicRow | main.py:66-68 | a five-field row whose last field is `str(t)` has topic `t` |
| QuestionBank.NegativeTopicKept | main.py:68-70 | a row with a negative topic is loaded for that topic |
| QuestionBank.ExampleTopicOne | main.py:65-72 | three rows of topic 1 and two of topic 2 give topic 1 three questions |
| QuestionBank.ExampleTopicTwo | main.py:65-72 | the same rows give topic 2 two questions |
| QuestionBank.ExampleMix | main.py:65-72 | the same rows give the mix all five |
| QuizSession.ShownOptions | main.py:147-150 | while a question is on screen, its options are a permutation of its four fields and include the correct value |
| QuizSession.DisplayCurrent | main.py:146-151 | showing a question records "index + 1 of total", field 0 as the correct value, and the given order of its fields; position and score are untouched |
| QuizSession.Start | main.py:107-112 | a new session starts at question 0 with score 0 and satisfies the session invariant; it displays nothing exactly when the list is empty (lines 140-144) |
| QuizSession.Advance | main.py:161-162 | the score goes up by one exactly when the selected text equals field 0 of the current question, and the position goes up by one either way; score ≤ position ≤ length is kept |
| QuizSession.Answer | main.py:161-166 | after a selection the session stays valid, and the position advances by one; the next question is shown "i+1 of len" while questions remain, otherwise the tally `(correct_answers, len)` is handed over |
| QuizSession.HandleNext | main.py:158-160 | with nothing selected the state (position, score, displayed options) is unchanged; with a selection the answer is scored and the session advances; the invariant is kept |
| QuizSession.Hits | main.py:161 | the number of correct choices is at most the number of answers |
| QuizSession.RunCompletes | main.py:158-166 | after `n` answers the position has moved by `n`; the quiz finishes exactly when every question is answered, handing over `len(questions)` as the total; until then question `index + 1` of `len` is shown |
| QuizSession.RunScore | main.py:161-162 | the score after a run is the starting score plus the number of choices equal to the correct spelling |
| QuizSession.ScoreAtMostTotal | main.py:161-166 | answering every question finishes the quiz with a score at most the number of questions |
| QuizSession.OneOfTwo | main.py:158-166 | two questions, the first answered correctly and the second wrongly, end with the tally 1 of 2 |
| Navigation.RuleText | main.py:91 | a topic with an entry in the rule table gets that text, and any other id gets the fallback text |
| Navigation.RuleTextForTopics | main.py:208-218 | with a rule table keyed by the menu's topics 1-5, a menu topic never gets the fallback and any other id always does |
| Navigation.StartTest | main.py:234-237 | starting a test always shows a fresh quiz (position 0, score 0) on at most 10 loaded questions; it shows no question exactly when none loaded, such as when the file is missing |
| Navigation.ShowRule | main.py:239-242 | the rule screen shows the topic's text or the fallback |
| Navigation.Submit | main.py:158-166 | the result is the quiz or the result screen; with no selection the screen is unchanged; the last answer moves to the result screen with the updated score out of `len(questions)` (lines 244-247); otherwise the quiz stays on the same questions at the next position, scores +1 exactly for the correct spelling, and displays the next question's fields in the given order |
| Navigation.Step | main.py:234-249 | every transition yields a screen satisfying its invariant; `back_to_menu` from the rule or result screen returns to the menu; a rule screen opens only for one of the menu's topics 1-5 |
| Navigation.EmptyQuizIsDeadEnd | main.py:136-144 | the quiz screen of a topic with no questions has no way back to the menu; in the model, where a ticked answer there is excluded because it crashes the source, the only allowed action is the press with nothing selected, which leaves that screen showing |
| Navigation.PlayIsRun | main.py:163-166 | answering on the quiz screen is running the session: the result screen when it finishes, else the quiz on the new session |
| Navigation.QuizEndsOnResult | main.py:234-247 | picking a topic with questions and answering each once ends on the result screen showing the correct choices out of the number of questions |
| Navigation.QuizContinues | main.py:163-164 | before the last answer the quiz is still on screen, showing question `n + 1` |

## Left out

- The PyQt widgets, layouts, stylesheet, message boxes and the application
  entry point. They are presentation only. The "no questions" and "choose an
  answer" message boxes appear as the empty `shown` and the `Warned`
  outcome.
- Opening the file, CSV tokenising and UTF-8 BOM decoding. The model takes
  the already-split rows. Errors other than `FileNotFoundError` (a decoding
  or permission error, say) propagate in the source and are not modelled.
- `random.shuffle`. Each shuffle is an input that must be a rearrangement
  of what is shuffled. Uniformity is not modelled.
- PyText.ParseInt: accepts only ASCII digits. Python's `int()` also accepts
  other Unicode decimal digits, which topic ids written in ASCII never use.
- PyText.ParseInt: has no limit on the number of digits. Since Python 3.11
  (and 3.10.7, 3.9.14, 3.8.14), `int()` raises `ValueError` for a decimal
  string of more than 4300 digits, leading zeros included (the default of
  `sys.set_int_max_str_digits`). So a row whose topic field has more than
  4300 digits is skipped by those versions and kept by this model. The
  limit depends on the interpreter version and its configuration.
- The rule texts and the topic titles. The rule table is an opaque map
  parameter, and titles are only displayed.
- QuizSession.HandleNext: requires a displayed question when an option is
  selected. On the quiz screen of an empty topic the source has no
  `correct_val`, so a selection there raises `AttributeError`. That crash
  path is not modelled.
- Navigation.EmptyQuizIsDeadEnd: does not cover a ticked answer on the
  empty quiz screen. The four radio buttons are built before the empty-list
  guard (main.py:130-144), so they stay blank but can be ticked. Pressing
  the answer button then raises `AttributeError` at line 161, because
  `correct_val` was never set. The model has no crash outcome, so that
  action is not allowed.
- Navigation.Submit: requires the quiz screen. After the result screen
  appears, the old quiz window is hidden and its button cannot be pressed.
- Re-reading the shown question without answering has no member of its
  own. The displayed question is plain data in the session, and nothing but
  an answer changes it.
- The growing stack of widgets. Every `start_test`, `show_rule` and
  `show_results` adds a new widget and never removes the old ones. Only the
  current screen is modelled.

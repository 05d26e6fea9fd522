/**
 * The state and scoring logic of the quiz window (`TestWindow`): the loaded
 * questions, the current position, the tally of correct answers, and what
 * `display_q` puts on screen for the current question.
 */
module QuizSession {
  import opened Wrappers
  import opened QuestionBank
  import opened Permutations

  /**
   * What `display_q` shows: the header "question `number` of `total`", the
   * four option texts in their shuffled order, and the remembered correct
   * value `correct_val`.
   */
  datatype Display = Display(number: nat, total: nat, correctValue: string, options: seq<string>)

  /**
   * The window's state. `shown` is None until a question has been displayed,
   * which for an empty question list never happens.
   */
  datatype Session = Session(questions: seq<Question>, index: nat, correct: nat, shown: Option<Display>)

  /** The score handed to the result screen: correct answers out of the total. */
  datatype Tally = Tally(correct: nat, total: nat)

  /**
   * The outcome of pressing the answer button: a warning with the state
   * untouched, the next question on screen, or the hand-over of the tally.
   */
  datatype Outcome = Warned(session: Session) | Asked(session: Session) | Finished(session: Session, tally: Tally)

  /** Whether `d` is a faithful display of question `i` of `questions`. */
  predicate Displays(questions: seq<Question>, i: nat, d: Display)
    requires i < |questions|
  {
    && d.number == i + 1
    && d.total == |questions|
    && d.correctValue == questions[i].correct
    && IsRearrangement(d.options, Fields(questions[i]))
  }

  /**
   * The session invariant: the score never exceeds the number answered,
   * which never exceeds the number of questions; while questions remain the
   * current one is on screen; an empty list shows nothing.
   */
  predicate Valid(s: Session) {
    && s.correct <= s.index <= |s.questions|
    && (s.index < |s.questions| ==> s.shown.Some? && Displays(s.questions, s.index, s.shown.value))
    && (s.questions == [] ==> s.shown.None?)
  }

  /**
   * While a question is on screen, its four fields are what the buttons
   * show, each as often as in the row, so the correct spelling is always
   * among the options.
   */
  lemma ShownOptions(s: Session)
    requires Valid(s) && s.index < |s.questions|
    ensures IsPermutation(s.shown.value.options, Fields(s.questions[s.index]))
    ensures |s.shown.value.options| == 4
    ensures s.shown.value.correctValue in s.shown.value.options
  {
    var d := s.shown.value;
    RearrangementIsPermutation(d.options, Fields(s.questions[s.index]));
    assert |multiset(d.options)| == 4;
    assert d.correctValue in multiset(Fields(s.questions[s.index]));
  }

  /** `display_q`: show the current question with its fields in the order `options`. */
  function DisplayCurrent(s: Session, options: seq<string>): (r: Session)
    requires s.index < |s.questions|
    requires IsRearrangement(options, Fields(s.questions[s.index]))
    ensures r.questions == s.questions && r.index == s.index && r.correct == s.correct
    ensures r.shown.Some? && Displays(s.questions, s.index, r.shown.value)
    ensures r.shown.value.options == options
  {
    var q := s.questions[s.index];
    s.(shown := Some(Display(s.index + 1, |s.questions|, Fields(q)[0], options)))
  }

  /**
   * The constructor plus the empty-list guard of `init_ui`: a fresh session
   * at question 0 with no correct answers; the first question is displayed
   * with its fields in the order `options` unless there are no questions.
   */
  function Start(questions: seq<Question>, options: seq<string>): (r: Session)
    requires questions != [] ==> IsRearrangement(options, Fields(questions[0]))
    ensures Valid(r)
    ensures r.questions == questions && r.index == 0 && r.correct == 0
    ensures r.shown.None? <==> questions == []
    ensures questions != [] ==> r.shown.value.options == options && r.shown.value.correctValue == Fields(questions[0])[0]
  {
    var initial := Session(questions, 0, 0, None);
    if questions == [] then initial else DisplayCurrent(initial, options)
  }

  /**
   * The scoring and advancing part of `handle_next`: the selected text
   * scores when it equals the remembered correct value, and the position
   * advances either way.
   */
  function Advance(s: Session, text: string): (r: Session)
    requires Valid(s) && s.index < |s.questions|
    ensures r.questions == s.questions && r.index == s.index + 1 && r.shown == s.shown
    ensures r.correct == if text == s.questions[s.index].correct then s.correct + 1 else s.correct
    ensures r.correct <= r.index <= |r.questions|
  {
    var correct := if text == s.shown.value.correctValue then s.correct + 1 else s.correct;
    s.(index := s.index + 1, correct := correct)
  }

  /**
   * `handle_next` once an option is selected: after scoring and advancing,
   * either the next question is displayed with its fields in the order
   * `options` or the tally goes to the result screen.
   */
  function Answer(s: Session, text: string, options: seq<string>): (r: Outcome)
    requires Valid(s) && s.index < |s.questions|
    requires s.index + 1 < |s.questions| ==> IsRearrangement(options, Fields(s.questions[s.index + 1]))
    ensures Valid(r.session)
    ensures r.session.questions == s.questions && r.session.index == s.index + 1
    ensures r.session.correct == if text == s.questions[s.index].correct then s.correct + 1 else s.correct
    ensures r.Finished? <==> s.index + 1 == |s.questions|
    ensures r.Asked? <==> s.index + 1 < |s.questions|
    ensures r.Finished? ==> r.tally.correct == r.session.correct && r.tally.total == |s.questions|
    ensures r.Asked? ==> r.session.shown.Some? && r.session.shown.value.options == options
  {
    var advanced := Advance(s, text);
    if advanced.index < |s.questions| then Asked(DisplayCurrent(advanced, options))
    else Finished(advanced, Tally(advanced.correct, |s.questions|))
  }

  /**
   * `handle_next`: with nothing selected only a warning appears and the
   * state is untouched. A selection needs a displayed question
   * (`correct_val` exists only then).
   */
  function HandleNext(s: Session, selected: Option<string>, options: seq<string>): (r: Outcome)
    requires Valid(s)
    requires selected.Some? ==> s.index < |s.questions|
    requires selected.Some? && s.index + 1 < |s.questions| ==> IsRearrangement(options, Fields(s.questions[s.index + 1]))
    ensures Valid(r.session)
    ensures selected.None? ==> r == Warned(s)
    ensures selected.Some? ==> r == Answer(s, selected.value, options)
  {
    match selected
    case None => Warned(s)
    case Some(text) => Answer(s, text, options)
  }

  /** One answered question: the text chosen, and the order the next question's fields get. */
  datatype Turn = Turn(selected: string, nextOptions: seq<string>)

  /** Every turn's order is a rearrangement of the fields of the question it displays. */
  predicate TurnsFit(s: Session, turns: seq<Turn>) {
    forall k :: 0 <= k < |turns| && s.index + k + 1 < |s.questions| ==>
      IsRearrangement(turns[k].nextOptions, Fields(s.questions[s.index + k + 1]))
  }

  /** The number of turns whose choice is the correct spelling of the question it answers, from question `from` on. */
  function Hits(questions: seq<Question>, from: nat, turns: seq<Turn>): (n: nat)
    requires from + |turns| <= |questions|
    ensures n <= |turns|
    decreases |turns|
  {
    if turns == [] then 0
    else (if turns[0].selected == questions[from].correct then 1 else 0) + Hits(questions, from + 1, turns[1..])
  }

  /** Answering the questions from the current one on, one turn each. */
  function Run(s: Session, turns: seq<Turn>): (r: Outcome)
    requires Valid(s) && s.index < |s.questions|
    requires 0 < |turns| <= |s.questions| - s.index
    requires TurnsFit(s, turns)
    decreases |turns|
  {
    var o := Answer(s, turns[0].selected, turns[0].nextOptions);
    if |turns| == 1 then o
    else
      TurnsFitRest(s, turns);
      Run(o.session, turns[1..])
  }

  /** Tail turns fit the session the first turn leads to. */
  lemma TurnsFitRest(s: Session, turns: seq<Turn>)
    requires Valid(s) && s.index < |s.questions|
    requires 1 < |turns| <= |s.questions| - s.index
    requires TurnsFit(s, turns)
    ensures TurnsFit(Answer(s, turns[0].selected, turns[0].nextOptions).session, turns[1..])
  {
    var o := Answer(s, turns[0].selected, turns[0].nextOptions);
    var rest := turns[1..];
    forall k | 0 <= k < |rest| && o.session.index + k + 1 < |o.session.questions|
      ensures IsRearrangement(rest[k].nextOptions, Fields(o.session.questions[o.session.index + k + 1]))
    {
      assert rest[k] == turns[k + 1];
    }
  }

  /**
   * The completion law: after `n` answered questions the position has moved
   * by `n`; the quiz ends exactly when every question has been answered,
   * handing over the score out of the number of questions, and until then
   * question `index + 1` of `total` is on screen.
   */
  lemma {:induction false} RunCompletes(s: Session, turns: seq<Turn>)
    requires Valid(s) && s.index < |s.questions|
    requires 0 < |turns| <= |s.questions| - s.index
    requires TurnsFit(s, turns)
    ensures Run(s, turns).session.questions == s.questions
    ensures Run(s, turns).session.index == s.index + |turns|
    ensures Run(s, turns).Finished? <==> |turns| == |s.questions| - s.index
    ensures Run(s, turns).Asked? <==> |turns| < |s.questions| - s.index
    ensures Run(s, turns).Finished? ==>
              Run(s, turns).tally.correct == Run(s, turns).session.correct
              && Run(s, turns).tally.total == |s.questions|
    ensures Run(s, turns).Asked? ==>
              Run(s, turns).session.shown.Some?
              && Run(s, turns).session.shown.value.number == s.index + |turns| + 1
              && Run(s, turns).session.shown.value.total == |s.questions|
    decreases |turns|
  {
    if |turns| > 1 {
      var o := Answer(s, turns[0].selected, turns[0].nextOptions);
      TurnsFitRest(s, turns);
      RunCompletes(o.session, turns[1..]);
    }
  }

  /** The score after a run is the starting score plus the number of correct choices. */
  lemma {:induction false} RunScore(s: Session, turns: seq<Turn>)
    requires Valid(s) && s.index < |s.questions|
    requires 0 < |turns| <= |s.questions| - s.index
    requires TurnsFit(s, turns)
    ensures Run(s, turns).session.correct == s.correct + Hits(s.questions, s.index, turns)
    decreases |turns|
  {
    if |turns| > 1 {
      var o := Answer(s, turns[0].selected, turns[0].nextOptions);
      TurnsFitRest(s, turns);
      RunScore(o.session, turns[1..]);
    }
  }

  /** A finished quiz hands over a score that is never above its number of questions. */
  lemma ScoreAtMostTotal(s: Session, turns: seq<Turn>)
    requires Valid(s) && s.index < |s.questions|
    requires |turns| == |s.questions| - s.index
    requires TurnsFit(s, turns)
    ensures Run(s, turns).Finished?
    ensures Run(s, turns).tally.total == |s.questions|
    ensures Run(s, turns).tally.correct == s.correct + Hits(s.questions, s.index, turns) <= |s.questions|
  {
    RunCompletes(s, turns);
    RunScore(s, turns);
  }

  /**
   * A quiz of two questions where the first is answered correctly and the
   * second is not ends on the result screen with a score of 1 of 2.
   */
  lemma OneOfTwo(questions: seq<Question>, first: seq<string>, second: seq<string>, wrong: string, anyOrder: seq<string>)
    requires |questions| == 2
    requires IsRearrangement(first, Fields(questions[0]))
    requires IsRearrangement(second, Fields(questions[1]))
    requires wrong != questions[1].correct
    ensures Run(Start(questions, first), [Turn(questions[0].correct, second), Turn(wrong, anyOrder)]).Finished?
    ensures Run(Start(questions, first), [Turn(questions[0].correct, second), Turn(wrong, anyOrder)]).tally == Tally(1, 2)
  {
    var s := Start(questions, first);
    var turns := [Turn(questions[0].correct, second), Turn(wrong, anyOrder)];
    ScoreAtMostTotal(s, turns);
    assert Hits(questions, 1, turns[1..]) == 0;
  }
}

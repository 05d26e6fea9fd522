/**
 * The window switching of `MainWindow`: the menu, a topic's rule, the quiz
 * and the result screen, and the callbacks that move between them.
 */
module Navigation {
  import opened Wrappers
  import opened Permutations
  import opened QuestionBank
  import opened QuizSession

  /** The screen currently shown by the stacked window. */
  datatype Screen = Menu | RuleView(categoryId: int, text: string) | Quiz(session: Session) | ResultView(correct: nat, total: nat)

  /** The menu's topic buttons, in order; the last one is the mix. */
  const Topics: seq<int> := [1, 2, 3, 4, MixCategory]

  /** What the rule screen shows for a topic with no rule text. */
  const NoRuleText: string := "Текст отсутствует."

  /**
   * `RULES.get(category_id, "Текст отсутствует.")`: the rule text of a
   * topic, or the fallback text when the table has no entry for it.
   */
  function RuleText(rules: map<int, string>, categoryId: int): (text: string)
    ensures categoryId in rules ==> text == rules[categoryId]
    ensures categoryId !in rules ==> text == NoRuleText
  {
    if categoryId in rules then rules[categoryId] else NoRuleText
  }

  /**
   * With the rule table keyed by exactly the menu's topics, a menu topic
   * always gets its own text and any other id the fallback.
   */
  lemma RuleTextForTopics(rules: map<int, string>, categoryId: int)
    requires rules.Keys == set t | t in Topics
    ensures categoryId in Topics ==> RuleText(rules, categoryId) == rules[categoryId]
    ensures categoryId !in Topics ==> RuleText(rules, categoryId) == NoRuleText
  {
  }

  /** Each screen's own invariant: a quiz's session is valid, a result never exceeds its total. */
  predicate ScreenValid(screen: Screen) {
    match screen
    case Quiz(s) => Valid(s)
    case ResultView(c, t) => c <= t
    case _ => true
  }

  /** The shuffle witnesses `start_test` needs: the bank's order, and the first question's option order. */
  predicate StartWitnesses(source: Source, categoryId: int, shuffled: seq<Question>, options: seq<string>) {
    && (source.Present? ==> IsPermutation(shuffled, Matching(source.rows, categoryId)))
    && (var loaded := Load(source, categoryId, DefaultLimit, shuffled);
        loaded != [] ==> IsRearrangement(options, Fields(loaded[0])))
  }

  /**
   * `start_test`: load the topic's questions with the default limit and
   * show a fresh quiz on them, whatever screen was showing. With no
   * questions the quiz screen displays no question.
   */
  function StartTest(source: Source, categoryId: int, shuffled: seq<Question>, options: seq<string>): (r: Screen)
    requires StartWitnesses(source, categoryId, shuffled, options)
    ensures r.Quiz? && ScreenValid(r)
    ensures r.session.questions == Load(source, categoryId, DefaultLimit, shuffled)
    ensures r.session.index == 0 && r.session.correct == 0
    ensures |r.session.questions| <= 10
    ensures source.Missing? ==> r.session.shown.None?
    ensures r.session.shown.None? <==> r.session.questions == []
  {
    Quiz(Start(Load(source, categoryId, DefaultLimit, shuffled), options))
  }

  /** `show_rule`: the rule screen for a topic, with its text or the fallback. */
  function ShowRule(rules: map<int, string>, categoryId: int): (r: Screen)
    ensures r.RuleView? && r.categoryId == categoryId
    ensures categoryId in rules ==> r.text == rules[categoryId]
    ensures categoryId !in rules ==> r.text == NoRuleText
  {
    RuleView(categoryId, RuleText(rules, categoryId))
  }

  /**
   * The answer button of the quiz screen: nothing selected keeps the screen
   * as it is; otherwise the session advances and, once the last question is
   * answered, `show_results` replaces the quiz with the tally.
   */
  function Submit(screen: Screen, selected: Option<string>, options: seq<string>): (r: Screen)
    requires screen.Quiz? && Valid(screen.session)
    requires selected.Some? ==> screen.session.index < |screen.session.questions|
    requires selected.Some? && screen.session.index + 1 < |screen.session.questions| ==>
               IsRearrangement(options, Fields(screen.session.questions[screen.session.index + 1]))
    ensures ScreenValid(r)
    ensures selected.None? ==> r == screen
    ensures r.Quiz? || r.ResultView?
    ensures r.ResultView? <==> selected.Some? && screen.session.index + 1 == |screen.session.questions|
    ensures r.ResultView? ==> r.total == |screen.session.questions|
    ensures r.ResultView? ==>
              r.correct == if selected.value == screen.session.questions[screen.session.index].correct
                           then screen.session.correct + 1 else screen.session.correct
    ensures r.Quiz? && selected.Some? ==>
              && r.session.questions == screen.session.questions
              && r.session.index == screen.session.index + 1
              && r.session.correct == (if selected.value == screen.session.questions[screen.session.index].correct
                                       then screen.session.correct + 1 else screen.session.correct)
              && r.session.shown.Some? && r.session.shown.value.options == options
              && Displays(r.session.questions, r.session.index, r.session.shown.value)
  {
    match HandleNext(screen.session, selected, options)
    case Warned(s) => Quiz(s)
    case Asked(s) => Quiz(s)
    case Finished(_, tally) => ResultView(tally.correct, tally.total)
  }

  /** A user action on the main window. */
  datatype Event =
    | PickTopic(categoryId: int, shuffled: seq<Question>, options: seq<string>)
    | PickRule(categoryId: int)
    | Press(selected: Option<string>, options: seq<string>)
    | Back

  /**
   * Whether an action can happen on a screen. The topic and rule buttons
   * are on the menu, one pair per menu topic; the rule and result screens
   * each have one button back to the menu; the quiz screen has only its
   * answer button, and the shuffles must be shuffles.
   */
  predicate Allowed(source: Source, screen: Screen, e: Event) {
    match e
    case PickTopic(c, shuffled, options) => screen.Menu? && c in Topics && StartWitnesses(source, c, shuffled, options)
    case PickRule(c) => screen.Menu? && c in Topics
    case Press(selected, options) =>
      && screen.Quiz? && Valid(screen.session)
      && (selected.Some? ==> screen.session.index < |screen.session.questions|)
      && (selected.Some? && screen.session.index + 1 < |screen.session.questions| ==>
            IsRearrangement(options, Fields(screen.session.questions[screen.session.index + 1])))
    case Back => screen.RuleView? || screen.ResultView?
  }

  /**
   * One transition of the main window. Every screen it produces satisfies
   * its invariant, and `back_to_menu` returns to the menu.
   */
  function Step(rules: map<int, string>, source: Source, screen: Screen, e: Event): (r: Screen)
    requires Allowed(source, screen, e)
    ensures ScreenValid(r)
    ensures e.Back? ==> r == Menu
    ensures e.PickRule? ==> r.RuleView? && r.categoryId == e.categoryId && r.categoryId in Topics
    ensures e.PickTopic? ==> r.Quiz? && r.session.index == 0 && r.session.correct == 0
    ensures e.Press? && e.selected.None? ==> r == screen
  {
    match e
    case PickTopic(c, shuffled, options) => StartTest(source, c, shuffled, options)
    case PickRule(c) => ShowRule(rules, c)
    case Press(selected, options) => Submit(screen, selected, options)
    case Back => Menu
  }

  /**
   * The quiz screen of a topic with no questions has no way back to the
   * menu. A ticked answer there crashes the source, so the model does not
   * allow one; what remains, the press with nothing selected, changes nothing.
   */
  lemma EmptyQuizIsDeadEnd(rules: map<int, string>, source: Source, s: Session, e: Event)
    requires s.questions == [] && Allowed(source, Quiz(s), e)
    ensures e.Press? && e.selected.None?
    ensures Step(rules, source, Quiz(s), e) == Quiz(s)
  {
  }

  /** Answering on the quiz screen, one turn after another. */
  function Play(screen: Screen, turns: seq<Turn>): Screen
    requires screen.Quiz? && Valid(screen.session) && screen.session.index < |screen.session.questions|
    requires |turns| <= |screen.session.questions| - screen.session.index
    requires TurnsFit(screen.session, turns)
    decreases |turns|
  {
    if turns == [] then screen
    else
      var next := Submit(screen, Some(turns[0].selected), turns[0].nextOptions);
      if |turns| == 1 then next
      else
        TurnsFitRest(screen.session, turns);
        Play(next, turns[1..])
  }

  /** Playing turns on the quiz screen is running them on its session. */
  lemma {:induction false} PlayIsRun(s: Session, turns: seq<Turn>)
    requires Valid(s) && s.index < |s.questions|
    requires 0 < |turns| <= |s.questions| - s.index
    requires TurnsFit(s, turns)
    ensures Run(s, turns).Finished? ==>
              Play(Quiz(s), turns) == ResultView(Run(s, turns).tally.correct, Run(s, turns).tally.total)
    ensures Run(s, turns).Asked? ==> Play(Quiz(s), turns) == Quiz(Run(s, turns).session)
    decreases |turns|
  {
    RunCompletes(s, turns);
    if |turns| > 1 {
      var o := Answer(s, turns[0].selected, turns[0].nextOptions);
      TurnsFitRest(s, turns);
      PlayIsRun(o.session, turns[1..]);
    }
  }

  /**
   * A whole quiz: after picking a topic that has questions and answering
   * each of them once, the result screen shows the number of correct
   * choices out of the number of questions; before the last answer the quiz
   * screen is still showing.
   */
  lemma QuizEndsOnResult(source: Source, categoryId: int, shuffled: seq<Question>, options: seq<string>, turns: seq<Turn>)
    requires StartWitnesses(source, categoryId, shuffled, options)
    requires StartTest(source, categoryId, shuffled, options).session.questions != []
    requires |turns| == |StartTest(source, categoryId, shuffled, options).session.questions|
    requires TurnsFit(StartTest(source, categoryId, shuffled, options).session, turns)
    ensures var questions := StartTest(source, categoryId, shuffled, options).session.questions;
            Play(StartTest(source, categoryId, shuffled, options), turns)
              == ResultView(Hits(questions, 0, turns), |questions|)
  {
    var s := StartTest(source, categoryId, shuffled, options).session;
    ScoreAtMostTotal(s, turns);
    PlayIsRun(s, turns);
  }

  /** Before the last answer the quiz is still on screen, at question `n + 1`. */
  lemma QuizContinues(s: Session, turns: seq<Turn>)
    requires Valid(s) && s.index < |s.questions|
    requires 0 < |turns| < |s.questions| - s.index
    requires TurnsFit(s, turns)
    ensures Play(Quiz(s), turns).Quiz?
    ensures Play(Quiz(s), turns).session.index == s.index + |turns|
    ensures Play(Quiz(s), turns).session.shown.Some?
    ensures Play(Quiz(s), turns).session.shown.value.number == s.index + |turns| + 1
  {
    RunCompletes(s, turns);
    PlayIsRun(s, turns);
  }
}

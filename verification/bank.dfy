/**
 * The question bank: `DataManager.load_questions` reads the CSV rows, keeps
 * the well-formed ones of the requested topic, shuffles them and returns at
 * most `limit` of them as 4-tuples (correct spelling first).
 */
module QuestionBank {
  import opened Wrappers
  import opened PyText
  import opened Permutations

  /** One CSV row, already split into fields by the CSV reader. */
  type Row = seq<string>

  /** The question source: the CSV file is either missing or yields rows. */
  datatype Source = Missing | Present(rows: seq<Row>)

  /** A question is the 4-tuple `row[:4]`: the correct spelling, then three others. */
  datatype Question = Question(correct: string, second: string, third: string, fourth: string)

  /** The topic id meaning "all topics" (the menu's mix button). */
  const MixCategory: int := 5

  /** The `limit` the quiz window passes implicitly. */
  const DefaultLimit: int := 10

  /** The four answer texts of a question, in the row's field order. */
  function Fields(q: Question): (r: seq<string>)
    ensures |r| == 4 && r[0] == q.correct
  {
    [q.correct, q.second, q.third, q.fourth]
  }

  /**
   * The topic of a row: its last field, stripped and read by `int()`.
   * Rows shorter than 5 fields, and rows whose last field is not an
   * integer, have none.
   */
  function RowCategory(row: Row): (r: Option<int>)
    ensures r.Some? ==> |row| >= 5
    ensures r.Some? ==> ParseInt(Strip(row[|row| - 1])) == r
    ensures |row| >= 5 && ParseInt(Strip(row[|row| - 1])).Some? ==> r.Some?
  {
    if |row| >= 5 then ParseInt(Strip(row[|row| - 1])) else None
  }

  /** The filter: the mix topic takes every topic, any other takes only itself. */
  predicate Selects(categoryId: int, rowCategory: int) {
    categoryId == MixCategory || rowCategory == categoryId
  }

  /** A row contributes a question for `categoryId`. */
  predicate Accepted(categoryId: int, row: Row) {
    RowCategory(row).Some? && Selects(categoryId, RowCategory(row).value)
  }

  /** `tuple(row[:4])`. */
  function QuestionOf(row: Row): (q: Question)
    requires |row| >= 4
    ensures Fields(q) == row[..4]
  {
    Question(row[0], row[1], row[2], row[3])
  }

  /**
   * The body of the reading loop for one row: a short row, or one whose
   * last field `int()` rejects, is skipped; otherwise the row gives
   * `row[:4]` when the topic matches.
   */
  function AcceptRow(categoryId: int, row: Row): (r: Option<Question>)
    ensures r.Some? <==> Accepted(categoryId, row)
    ensures r.Some? ==> Fields(r.value) == row[..4]
  {
    if row != [] && |row| >= 5 then
      var parsed := ParseInt(Strip(row[|row| - 1]));
      if parsed.Some? && (categoryId == MixCategory || parsed.value == categoryId) then
        Some(QuestionOf(row))
      else None
    else None
  }

  /** The questions the reading loop collects, in file order, before the shuffle. */
  function Matching(rows: seq<Row>, categoryId: int): (r: seq<Question>)
    ensures |r| <= |rows|
  {
    if rows == [] then []
    else
      var rest := Matching(rows[1..], categoryId);
      if Accepted(categoryId, rows[0]) then [QuestionOf(rows[0])] + rest else rest
  }

  lemma {:induction false} MatchingAppend(a: seq<Row>, b: seq<Row>, categoryId: int)
    ensures Matching(a + b, categoryId) == Matching(a, categoryId) + Matching(b, categoryId)
  {
    if a != [] {
      assert (a + b)[1..] == a[1..] + b;
      MatchingAppend(a[1..], b, categoryId);
    } else {
      assert a + b == b;
    }
  }

  /** Every collected question is `row[:4]` of some accepted row. */
  lemma {:induction false} MatchingSound(rows: seq<Row>, categoryId: int, q: Question)
    requires q in Matching(rows, categoryId)
    ensures exists j :: 0 <= j < |rows| && Accepted(categoryId, rows[j]) && q == QuestionOf(rows[j])
  {
    if Accepted(categoryId, rows[0]) && q == QuestionOf(rows[0]) {
      assert 0 < |rows|;
    } else {
      assert q in Matching(rows[1..], categoryId);
      MatchingSound(rows[1..], categoryId, q);
      var j :| 0 <= j < |rows[1..]| && Accepted(categoryId, rows[1..][j]) && q == QuestionOf(rows[1..][j]);
      assert rows[j + 1] == rows[1..][j];
    }
  }

  /** Every accepted row contributes its question. */
  lemma {:induction false} MatchingComplete(rows: seq<Row>, categoryId: int, j: int)
    requires 0 <= j < |rows| && Accepted(categoryId, rows[j])
    ensures QuestionOf(rows[j]) in Matching(rows, categoryId)
  {
    if j > 0 {
      MatchingComplete(rows[1..], categoryId, j - 1);
      assert rows[1..][j - 1] == rows[j];
    }
  }

  /**
   * A question is collected exactly when some accepted row produces it:
   * the filter drops nothing it should keep and invents nothing.
   */
  lemma MatchingMembers(rows: seq<Row>, categoryId: int, q: Question)
    ensures q in Matching(rows, categoryId) <==>
            exists j :: 0 <= j < |rows| && Accepted(categoryId, rows[j]) && q == QuestionOf(rows[j])
  {
    if q in Matching(rows, categoryId) {
      MatchingSound(rows, categoryId, q);
    }
    if exists j :: 0 <= j < |rows| && Accepted(categoryId, rows[j]) && q == QuestionOf(rows[j]) {
      var j :| 0 <= j < |rows| && Accepted(categoryId, rows[j]) && q == QuestionOf(rows[j]);
      MatchingComplete(rows, categoryId, j);
    }
  }

  /**
   * For an ordinary topic every collected question comes from a row whose
   * parsed last field is that topic.
   */
  lemma FilteredByCategory(rows: seq<Row>, categoryId: int, q: Question)
    requires categoryId != MixCategory
    requires q in Matching(rows, categoryId)
    ensures exists j :: 0 <= j < |rows| && RowCategory(rows[j]) == Some(categoryId) && q == QuestionOf(rows[j])
  {
    MatchingMembers(rows, categoryId, q);
  }

  /**
   * In mix mode every row with a parseable topic qualifies, whatever the
   * topic; a row whose last field does not parse is dropped even there.
   */
  lemma MixTakesEveryParsedRow(rows: seq<Row>, j: int)
    requires 0 <= j < |rows|
    requires RowCategory(rows[j]).Some?
    ensures QuestionOf(rows[j]) in Matching(rows, MixCategory)
  {
    MatchingComplete(rows, MixCategory, j);
  }

  /** Every question of an ordinary topic is also collected in mix mode, as often. */
  lemma {:induction false} MixContainsEveryTopic(rows: seq<Row>, categoryId: int)
    ensures multiset(Matching(rows, categoryId)) <= multiset(Matching(rows, MixCategory))
  {
    if rows != [] {
      MixContainsEveryTopic(rows[1..], categoryId);
    }
  }

  lemma MatchingStep(rows: seq<Row>, i: int, categoryId: int)
    requires 0 <= i < |rows|
    ensures Matching(rows[..i + 1], categoryId) ==
            Matching(rows[..i], categoryId) + (if Accepted(categoryId, rows[i]) then [QuestionOf(rows[i])] else [])
  {
    assert rows[..i + 1] == rows[..i] + [rows[i]];
    MatchingAppend(rows[..i], [rows[i]], categoryId);
  }

  /**
   * The reading loop of `load_questions`: walk the rows, skip short or
   * unparseable ones, append `row[:4]` for the selected ones.
   */
  method CollectQuestions(rows: seq<Row>, categoryId: int) returns (questions: seq<Question>)
    ensures questions == Matching(rows, categoryId)
  {
    questions := [];
    for i := 0 to |rows|
      invariant questions == Matching(rows[..i], categoryId)
    {
      var row := rows[i];
      MatchingStep(rows, i, categoryId);
      var kept := AcceptRow(categoryId, row);
      if kept.Some? {
        questions := questions + [kept.value];
      }
    }
    assert rows[..|rows|] == rows;
  }

  /** The length of Python's `xs[:limit]` for a list of length `n`. */
  function SliceLength(n: nat, limit: int): nat {
    if limit >= 0 then (if limit < n then limit else n)
    else if n + limit > 0 then n + limit else 0
  }

  /** Python's `xs[:limit]`; a negative limit counts from the end. */
  function Take<T>(xs: seq<T>, limit: int): (r: seq<T>)
    ensures |r| == SliceLength(|xs|, limit)
    ensures r == xs[..|r|]
  {
    xs[..SliceLength(|xs|, limit)]
  }

  /**
   * `load_questions(category_id, limit)`. `shuffled` is the order
   * `random.shuffle` left the collected questions in: any rearrangement of
   * them. A missing file gives no questions.
   */
  function Load(source: Source, categoryId: int, limit: int, shuffled: seq<Question>): (r: seq<Question>)
    requires source.Present? ==> IsPermutation(shuffled, Matching(source.rows, categoryId))
    ensures source.Missing? ==> r == []
    ensures source.Present? ==> |r| == SliceLength(|Matching(source.rows, categoryId)|, limit)
    ensures source.Present? && limit >= 0 ==>
              |r| == if limit < |Matching(source.rows, categoryId)| then limit else |Matching(source.rows, categoryId)|
    ensures source.Present? ==> multiset(r) <= multiset(Matching(source.rows, categoryId))
  {
    match source
    case Missing => []
    case Present(rows) =>
      var r := Take(shuffled, limit);
      assert shuffled == r + shuffled[|r|..];
      assert |shuffled| == |multiset(shuffled)|;
      r
  }

  /**
   * Each loaded question is `row[:4]` of an accepted row of the file, so
   * its first field is the correct spelling of that row.
   */
  lemma LoadedFromAcceptedRows(rows: seq<Row>, categoryId: int, limit: int, shuffled: seq<Question>)
    requires IsPermutation(shuffled, Matching(rows, categoryId))
    ensures forall q :: q in Load(Present(rows), categoryId, limit, shuffled) ==>
              exists j :: 0 <= j < |rows| && Accepted(categoryId, rows[j]) && q == QuestionOf(rows[j])
  {
    var r := Load(Present(rows), categoryId, limit, shuffled);
    forall q | q in r
      ensures exists j :: 0 <= j < |rows| && Accepted(categoryId, rows[j]) && q == QuestionOf(rows[j])
    {
      assert q in multiset(r);
      assert q in multiset(Matching(rows, categoryId));
      MatchingSound(rows, categoryId, q);
    }
  }

  /** With the default limit the loader returns ten questions, or all when fewer match. */
  lemma DefaultLimitBound(rows: seq<Row>, categoryId: int, shuffled: seq<Question>)
    requires IsPermutation(shuffled, Matching(rows, categoryId))
    ensures |Load(Present(rows), categoryId, DefaultLimit, shuffled)| <= 10
    ensures |Load(Present(rows), categoryId, DefaultLimit, shuffled)| < 10 ==>
              |Load(Present(rows), categoryId, DefaultLimit, shuffled)| == |Matching(rows, categoryId)|
  {
  }

  /**
   * A row whose last field starts with something other than whitespace, a
   * sign or a digit is dropped, even in mix mode.
   */
  lemma NonNumericTopicSkipped(categoryId: int, row: Row)
    requires |row| >= 5 && row[|row| - 1] != []
    requires var c := row[|row| - 1][0]; !IsSpace(c) && !IsDigit(c) && c != '+' && c != '-'
    ensures AcceptRow(categoryId, row) == None
  {
    StripKeepsFirst(row[|row| - 1]);
  }

  /** A header line fails integer parsing and is dropped, even in mix mode. */
  lemma HeaderRowSkipped(categoryId: int)
    ensures AcceptRow(categoryId, ["word", "option2", "option3", "option4", "category"]) == None
  {
    NonNumericTopicSkipped(categoryId, ["word", "option2", "option3", "option4", "category"]);
  }

  /** A five-field row whose last field is the topic written as a bare integer. */
  function TopicRow(word: string, topic: int): (row: Row)
    ensures RowCategory(row) == Some(topic)
  {
    var row := [word, "x", "y", "z", ShowInt(topic)];
    assert ShowInt(topic) != [] && !IsSpace(ShowInt(topic)[0]);
    ParseShowInt(topic);
    ParsedIsStripped(ShowInt(topic));
    row
  }

  /** Three rows of topic 1 and two of topic 2: topic 1 yields three questions. */
  lemma ExampleTopicOne()
    ensures |Matching(ExampleRows(), 1)| == 3
  {
  }

  /** The same rows give topic 2 its two questions. */
  lemma ExampleTopicTwo()
    ensures |Matching(ExampleRows(), 2)| == 2
  {
  }

  /** The same rows give the mix all five questions. */
  lemma ExampleMix()
    ensures |Matching(ExampleRows(), MixCategory)| == 5
  {
  }

  /**
   * `int()` accepts a sign, so a row of a negative topic is loaded for that
   * topic like any other; nothing restricts topics to the menu's ids.
   */
  lemma NegativeTopicKept(topic: int)
    requires topic < 0
    ensures Matching([TopicRow("w", topic)], topic) == [Question("w", "x", "y", "z")]
  {
  }

  function ExampleRows(): seq<Row> {
    [TopicRow("a", 1), TopicRow("b", 2), TopicRow("c", 1), TopicRow("d", 2), TopicRow("e", 1)]
  }
}

/** The quiz <-> table converters of streamlit_app.py. A generated quiz is
    shown as a table with one row per question, list-valued fields flattened
    into cells joined with " | "; an edited table is turned back into one
    dictionary per row, cells split on " | " again. A DataFrame is a
    sequence of `Row` records. */
module QuizTable {
  import opened Strings

  /** The separator of list-valued cells. */
  const Separator: string := " | "

  /** A skill or objective tag. */
  datatype Tag = Tag(name: string)

  /** One generated quiz question (`QuizMetaData`). */
  datatype QuizItem = QuizItem(
    question: string,
    questionType: string,
    postAssessment: bool,
    questionLevel: string,
    options: seq<string>,
    correctAnswer: string,
    relatedSkills: seq<Tag>,
    relatedObjectives: seq<Tag>,
    alternativeQuestions: bool)

  /** `QuizResponse`: the generated quiz. */
  datatype QuizResponse = QuizResponse(quiz: seq<QuizItem>)

  /** One table row; list-valued fields are single text cells. */
  datatype Row = Row(
    questionId: int,
    question: string,
    questionType: string,
    postAssessment: bool,
    questionLevel: string,
    options: string,
    correctAnswer: string,
    relatedSkills: string,
    relatedObjectives: string,
    alternativeQuestions: bool)

  /** The dictionary built back from a row; skills and objectives come back
      as name strings, not as tags. */
  datatype QuizDict = QuizDict(
    question: string,
    questionType: string,
    postAssessment: bool,
    questionLevel: string,
    options: seq<string>,
    correctAnswer: string,
    relatedSkills: seq<string>,
    relatedObjectives: seq<string>,
    alternativeQuestions: bool)

  /** The tag names, in order. */
  function Names(tags: seq<Tag>): (names: seq<string>)
    ensures |names| == |tags| && forall i :: 0 <= i < |tags| ==> names[i] == tags[i].name
  {
    if tags == [] then [] else [tags[0].name] + Names(tags[1..])
  }

  /** `' | '.join(items)`: the cell is empty exactly for no items or one
      empty item. */
  function ListCell(items: seq<string>): (cell: string)
    ensures cell == "" <==> items == [] || items == [""]
  {
    Join(items, Separator)
  }

  /** `cell.split(' | ') if cell else []`: an empty cell is the empty list,
      any other cell its split; joining the result gives the cell back. */
  function ParseListCell(cell: string): (items: seq<string>)
    ensures cell == "" <==> items == []
    ensures ListCell(items) == cell
  {
    if cell == "" then []
    else
      SplitJoin(cell, Separator);
      Split(cell, Separator)
  }

  /** A list that survives being joined into a cell and split back: no item
      contains '|', and the list is not the single empty string (which joins
      to an empty cell and comes back as the empty list). */
  predicate CellSafe(items: seq<string>)
  {
    items != [""] && forall k :: 0 <= k < |items| ==> '|' !in items[k]
  }

  /** Joining a safe list into a cell and parsing the cell gives the list back. */
  lemma CellRoundTrip(items: seq<string>)
    requires CellSafe(items)
    ensures ParseListCell(ListCell(items)) == items
  {
    if items != [] {
      forall k | 0 <= k < |items|
        ensures NoSepWithin(items[k], Separator)
      {
        NoSepWithinByChar(items[k], Separator, '|', 1);
      }
      JoinSplit(items, Separator);
    }
  }

  /** The row built from the quiz item numbered `number`; a list cell is
      empty exactly when its list has no items or one empty item. */
  function RowOf(item: QuizItem, number: int): (row: Row)
    ensures row.questionId == number
    ensures row.options == "" <==> item.options == [] || item.options == [""]
    ensures row.relatedSkills == "" <==> item.relatedSkills == [] || Names(item.relatedSkills) == [""]
    ensures row.relatedObjectives == "" <==> item.relatedObjectives == [] || Names(item.relatedObjectives) == [""]
  {
    Row(number, item.question, item.questionType, item.postAssessment, item.questionLevel,
        ListCell(item.options), item.correctAnswer,
        ListCell(Names(item.relatedSkills)), ListCell(Names(item.relatedObjectives)),
        item.alternativeQuestions)
  }

  /** The dictionary built from one row; `Question_ID` is dropped and the
      level is turned into a string. */
  function DictOf(row: Row): (d: QuizDict)
    ensures ListCell(d.options) == row.options && (row.options == "" <==> d.options == [])
    ensures ListCell(d.relatedSkills) == row.relatedSkills && (row.relatedSkills == "" <==> d.relatedSkills == [])
    ensures ListCell(d.relatedObjectives) == row.relatedObjectives
      && (row.relatedObjectives == "" <==> d.relatedObjectives == [])
  {
    QuizDict(row.question, row.questionType, row.postAssessment, row.questionLevel,
             ParseListCell(row.options), row.correctAnswer,
             ParseListCell(row.relatedSkills), ParseListCell(row.relatedObjectives),
             row.alternativeQuestions)
  }

  /** Converting a quiz item to a row and back keeps every copied field, and
      restores the options, skill names and objective names whenever those
      lists are safe to put in a cell. */
  lemma RowRoundTrip(item: QuizItem, number: int)
    ensures var d := DictOf(RowOf(item, number));
      d.question == item.question && d.questionType == item.questionType &&
      d.postAssessment == item.postAssessment && d.questionLevel == item.questionLevel &&
      d.correctAnswer == item.correctAnswer && d.alternativeQuestions == item.alternativeQuestions &&
      (CellSafe(item.options) ==> d.options == item.options) &&
      (CellSafe(Names(item.relatedSkills)) ==> d.relatedSkills == Names(item.relatedSkills)) &&
      (CellSafe(Names(item.relatedObjectives)) ==> d.relatedObjectives == Names(item.relatedObjectives))
  {
    if CellSafe(item.options) {
      CellRoundTrip(item.options);
    }
    if CellSafe(Names(item.relatedSkills)) {
      CellRoundTrip(Names(item.relatedSkills));
    }
    if CellSafe(Names(item.relatedObjectives)) {
      CellRoundTrip(Names(item.relatedObjectives));
    }
  }

  /** `convert_quiz_to_dataframe`: one row per quiz item, in order, numbered
      from 1, with list fields joined into cells. */
  method ConvertQuizToDataFrame(response: QuizResponse) returns (rows: seq<Row>)
    ensures |rows| == |response.quiz|
    ensures forall i :: 0 <= i < |rows| ==>
      rows[i] == RowOf(response.quiz[i], i + 1) && rows[i].questionId == i + 1
  {
    rows := [];
    for i := 0 to |response.quiz|
      invariant |rows| == i
      invariant forall k :: 0 <= k < i ==> rows[k] == RowOf(response.quiz[k], k + 1)
    {
      rows := rows + [RowOf(response.quiz[i], i + 1)];
    }
  }

  /** `convert_dataframe_to_quiz`: one dictionary per row, in row order. */
  method ConvertDataFrameToQuiz(rows: seq<Row>) returns (quiz: seq<QuizDict>)
    ensures |quiz| == |rows|
    ensures forall i :: 0 <= i < |rows| ==> quiz[i] == DictOf(rows[i])
  {
    quiz := [];
    for i := 0 to |rows|
      invariant |quiz| == i
      invariant forall k :: 0 <= k < i ==> quiz[k] == DictOf(rows[k])
    {
      quiz := quiz + [DictOf(rows[i])];
    }
  }
}

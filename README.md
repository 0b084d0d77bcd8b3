# Quiz generation back-end: identity rewriter, quiz table converters, section splitter

This project is a Dafny model of three pieces of a quiz-generation service.
The service turns course videos' transcripts into quiz questions.

- **Quiz identity rewriter** (`app/utils/quiz.py`, module `QuizIdentity`).
  Generated questions arrive with provisional identifiers. The rewriter walks
  them in order and changes each one in place:
  - the question gets a fresh question identifier;
  - its old correct-answer identifier is saved, then replaced by a fresh one;
  - every skill/objective link is stamped with the new question identifier;
  - every answer is re-identified. An answer whose old identifier was the old
    correct one gets the new correct identifier. Every other answer gets a
    fresh identifier. All answers point at the new question;
  - every alternative question gets a fresh question identifier and a fresh
    correct-answer identifier. Its answers are re-identified against its own
    old correct identifier and point at its new question identifier. That is
    all an alternative gets: its skill/objective links are not stamped, it is
    not searched for nested alternatives, and it gets no paragraph identifier
    of its own.

  Each question is then dumped with the paragraph identifier attached.
  `uuid.uuid4()` is modelled by `IdSupply`, a counter object. `Fresh()` returns
  a number the supply has never returned before.

  Questions are objects of class `Question`, and the rewrite changes their
  fields. Answers, skill links and alternatives are values held in sequence
  fields, which the rewrite reassigns. Each method is proved equal to a
  function on values: `RewriteAnswers`, `RewriteAlternatives`,
  `RewriteQuestion` and `RewriteQuiz`. Each function returns the rewritten
  value together with the supply's next counter. Lemmas then prove what the
  rewrite promises about those functions.
- **Quiz/table converters** (`streamlit_app.py`, module `QuizTable`).
  - A generated quiz becomes one table row per question, numbered from 1. The
    options, skill names and objective names are joined with `" | "`.
  - An edited table becomes one dictionary per row. Those cells are split on
    `" | "` again, and an empty cell gives the empty list.
  - A table is a sequence of `Row` records.
- **Section splitter** (`app/utils/text_spillter.py`, module `DocxSections`).
  - Paragraph texts are joined with newlines.
  - The text is cut wherever a line starts with optional whitespace, `Video`,
    whitespace and a token. This is
    `re.split(r'^\s*Video\s+\S+', content, flags=re.MULTILINE)`.
  - The pieces are stripped and empty ones are dropped.
  - A document that cannot be read yields an error string.
- Python's `str.join`, `str.split`, `str.isspace` and `str.strip`, which both
  the converters and the splitter need, are in module `Strings`.

A note on duplicate correct answers. The code gives the new correct identifier
to every answer whose old identifier matched the old correct one
(`app/utils/quiz.py:7`), so several answers can end up holding it. The code
does not stop at the first match, and neither does the model.
`CorrectCountPreserved` states the resulting count, and
`ExactlyOneCorrect` states when exactly one answer is correct.

The datatypes hold the fields `quiz.py` reads and writes: `question_id`,
`correct_answer_id`, `answer`, `question_skills_and_objective` and
`alternative_questions` as a list. They do not follow the pydantic models of
`app/models/llm_response_model.py`, which have no identifiers.

## Model

| member | source | states |
|---|---|---|
| QuizIdentity.IdSupply.Fresh | app/utils/quiz.py:7 | The identifier returned was never issued before by this supply and is now recorded as issued; the supply stays valid (issued identifiers are exactly start..next-1). |
| QuizIdentity.ProcessAnswers | app/utils/quiz.py:5-9 | The answers after the loop, and the supply's counter, are exactly those of `RewriteAnswers` on the input answers and the counter before the call. |
| QuizIdentity.RewriteAnswers | app/utils/quiz.py:5-9 | Keeps the number of answers and never moves the counter back; its meaning is stated by `AnswersRewriteSound` and `AnswerIdsIssued`. |
| QuizIdentity.AnswersRewriteSound | app/utils/quiz.py:6-8 | Same length and order, texts kept, every answer carries the given question id, an answer holds the new correct id exactly when its old id was the old correct id, and every other answer holds an id freshly drawn in this call (at or above the counter, hence different from the new correct id). |
| QuizIdentity.AnswerIdsIssued | app/utils/quiz.py:7 | The non-correct answers receive exactly the identifiers next, next+1, ... in list order, one each. |
| QuizIdentity.CorrectCountPreserved | app/utils/quiz.py:6-7 | The number of answers holding the new correct id equals the number whose old id matched the old correct id (none if none matched, all of them if several did). |
| QuizIdentity.ExactlyOneCorrect | app/utils/quiz.py:7 | A rewritten question has exactly one answer with its correct id exactly when the input question had exactly one answer with its old correct id. |
| QuizIdentity.ProcessAlternatives | app/utils/quiz.py:11-18 | The alternatives after the loop, and the counter, are exactly those of `RewriteAlternatives` on the input and the counter before the call. |
| QuizIdentity.RewriteAlternative | app/utils/quiz.py:12-17 | The supply advances by at least the two identifiers drawn for the alternative's question and correct answer. |
| QuizIdentity.RewriteAlternatives | app/utils/quiz.py:11-18 | Keeps the number of alternatives and never moves the counter back. |
| QuizIdentity.AlternativeRewriteSound | app/utils/quiz.py:13-17 | The alternative keeps its text and its skill/objective links unchanged, gets a fresh question id and a different fresh correct id, and its answers are rewritten against its own pre-overwrite correct id and its new question id. |
| QuizIdentity.AlternativesRewriteSound | app/utils/quiz.py:11-18 | Every alternative in the list is rewritten as `AlternativeRewriteSound` says, in order. |
| QuizIdentity.AlternativeIdsIssued | app/utils/quiz.py:13-17 | An alternative's question, correct and non-correct answer ids are exactly the next run of issued identifiers. |
| QuizIdentity.AlternativesIdsIssued | app/utils/quiz.py:11-18 | The ids of all alternatives, in order, are exactly the run of identifiers issued while rewriting them. |
| QuizIdentity.StampSkills | app/utils/quiz.py:31-32 | The loop leaves every skill link with the new question id and its name unchanged, length kept (equal to `StampedSkills`). |
| QuizIdentity.StampedSkills | app/utils/quiz.py:31-32 | Same number of links, each with the given question id and its original name. |
| QuizIdentity.RewriteQuestionInPlace | app/utils/quiz.py:23-38 | After the loop body the question object's fields, and the counter, are exactly `RewriteQuestion` of its fields and the counter before; the old correct id is read before it is overwritten. |
| QuizIdentity.RewriteQuestion | app/utils/quiz.py:23-38 | The supply advances by at least the question's two fresh identifiers. |
| QuizIdentity.QuestionRewriteSound | app/utils/quiz.py:23-38 | The question keeps its text, gets a fresh question id and a different fresh correct id, all skill links carry the new question id, its answers are rewritten against the pre-overwrite correct id, and each alternative is rewritten on its own. |
| QuizIdentity.QuestionIdsIssued | app/utils/quiz.py:23-38 | A question's ids, its answers' and its alternatives' are exactly the run of identifiers issued for it, in issue order. |
| QuizIdentity.ProcessQuestion | app/utils/quiz.py:22-42 | One loop pass: the object is rewritten in place, its dump tagged with the paragraph id is appended, and the records so far equal `RewriteQuiz` of one more question. |
| QuizIdentity.ProcessQuizQuestions | app/utils/quiz.py:20-43 | The returned records and the counter are exactly `RewriteQuiz` of the objects' fields before the call; afterwards each question object holds the question of its record. |
| QuizIdentity.RewriteQuiz | app/utils/quiz.py:20-43 | One record per question rewritten so far, and the counter never moves back. |
| QuizIdentity.QuizRewriteSound | app/utils/quiz.py:21-43 | One record per input question, in input order, each carrying the given paragraph id and rewritten as `QuestionRewriteSound` says. |
| QuizIdentity.QuizIdsIssued | app/utils/quiz.py:21-43 | All question, correct-answer and non-correct answer ids of the output, across questions and alternatives, are exactly the identifiers issued in the call, in issue order. |
| QuizIdentity.QuizIdsDistinct | app/utils/quiz.py:21-43 | Those ids are pairwise distinct and all lie in the range the supply issued during the call. |
| QuizIdentity.QuizIdsAvoidInput | app/utils/quiz.py:7 | When the supply starts above every id of the input quiz, no id of the output is an id of the input. |
| QuizTable.Names | streamlit_app.py:26-27 | The tag names, one per tag, in order. |
| QuizTable.ListCell | streamlit_app.py:24-27 | The joined cell is empty exactly when the list is empty or is the single empty string; `CellRoundTrip` states that parsing it gives the list back. |
| QuizTable.ParseListCell | streamlit_app.py:40-43 | An empty cell gives the empty list and only it does; joining the parsed list with `" | "` gives the cell back. |
| QuizTable.CellRoundTrip | streamlit_app.py:24 | Joining a list whose items contain no `|` (and which is not `[""]`) and parsing the cell gives the list back. |
| QuizTable.DictOf | streamlit_app.py:35-45 | Each list field of the dictionary joins back to its cell, and is empty exactly when the cell is empty. |
| QuizTable.RowOf | streamlit_app.py:18-29 | The row carries the given number, and each list cell is empty exactly when its list is empty or the single empty string; `RowRoundTrip` states which fields survive the trip back. |
| QuizTable.RowRoundTrip | streamlit_app.py:18-28 | A quiz item turned into a row and back keeps question, type, post-assessment flag, level, correct answer and alternative flag, and gets back its options, skill names and objective names whenever those lists are safe for a cell. |
| QuizTable.ConvertQuizToDataFrame | streamlit_app.py:15-30 | One row per quiz item, in order; row i is numbered i+1 and is that item's row (list fields joined, other fields copied). |
| QuizTable.ConvertDataFrameToQuiz | streamlit_app.py:32-46 | One dictionary per row, in row order, each the dictionary built from that row (question number dropped). |
| Strings.Join | streamlit_app.py:24 | With a non-empty separator the joined text is empty exactly when there are no parts or the only part is empty. |
| Strings.Split | streamlit_app.py:40-43 | `str.split` on a non-empty separator gives at least one piece; `SplitJoin` and `JoinSplit` make it the inverse of `Join`. |
| Strings.SplitJoin | streamlit_app.py:40 | Splitting any text on a non-empty separator and joining the parts gives the text back. |
| Strings.JoinSplit | streamlit_app.py:24 | Joining parts in which no separator occurrence starts and splitting again gives the parts back. |
| Strings.IsSpace | app/utils/text_spillter.py:19-22 | Exactly the characters Python's `str.isspace` accepts, which are also what `\s` matches in a `str` pattern and what `strip()` removes. |
| Strings.SkipSpace | app/utils/text_spillter.py:19 | The run of whitespace that starts at a position: all of it is whitespace and the character after it is not. |
| Strings.StripBounds | app/utils/text_spillter.py:22 | The bounds `strip()` keeps: everything outside them is whitespace and the kept part, when non-empty, starts and ends with a non-space. |
| Strings.Strip | app/utils/text_spillter.py:22 | The stripped text is empty exactly when the text is all whitespace; otherwise it starts and ends with a non-space. |
| DocxSections.Combine | app/utils/text_spillter.py:16 | The combined content is empty exactly when there are no paragraphs or a single empty one; `CombineLines` states that it holds the paragraphs separated by single newlines. |
| DocxSections.CombineLines | app/utils/text_spillter.py:16 | When no paragraph contains a newline, cutting the combined content at newlines gives back exactly the paragraphs, so they are separated by single newlines. |
| DocxSections.LineStart | app/utils/text_spillter.py:19 | `^` under `re.MULTILINE`: the start of the text or a position just after a newline. |
| DocxSections.SkipNonSpace | app/utils/text_spillter.py:19 | The run of non-whitespace starting at a position, ended by whitespace or the end of the text. |
| DocxSections.MarkerAt | app/utils/text_spillter.py:19 | A marker match starting at a position ends strictly after it and inside the text; `MarkerAtMatch` states what a match is. |
| DocxSections.MarkerMatch | app/utils/text_spillter.py:19 | A match of `^\s*Video\s+\S+` from p to e: a line start, whitespace, the keyword, at least one whitespace, then a non-whitespace run that ends at e. |
| DocxSections.MarkerAtMatch | app/utils/text_spillter.py:19 | `MarkerAt` reports a match ending at e exactly when the position starts a line and is followed by optional whitespace, `Video`, at least one whitespace and a maximal run of non-whitespace ending at e; it reports none exactly when no such match exists. |
| DocxSections.Spans | app/utils/text_spillter.py:19 | The first piece starts where the current piece began; `SpansSplit` and `SpansMatches` state how the pieces cut the text. |
| DocxSections.Matches | app/utils/text_spillter.py:19 | Every entry is a match that `MarkerAt` finds at its start position, and the matches are in text order without overlapping. |
| DocxSections.SpansMatches | app/utils/text_spillter.py:19 | There is exactly one more piece than matches, and match k runs from the end of piece k to the start of piece k+1. |
| DocxSections.SplitAtMarkers | app/utils/text_spillter.py:19 | `re.split` gives one more piece than there are matches. |
| DocxSections.SpansSplit | app/utils/text_spillter.py:19 | The pieces tile the text, consecutive pieces are separated by exactly one marker match (the leftmost one), and no match begins inside a piece. |
| DocxSections.StripNonEmpty | app/utils/text_spillter.py:22 | No more sections than pieces; every section is non-empty and starts and ends with a non-space. |
| DocxSections.SplitSections | app/utils/text_spillter.py:16-22 | There are at most one more sections than matches used by the split; every section is non-empty and has no leading or trailing whitespace. |
| DocxSections.SectionsInOrder | app/utils/text_spillter.py:19-22 | Each section is a piece of the combined content; the pieces appear in content order and do not overlap. |
| DocxSections.NoMarkerOneSection | app/utils/text_spillter.py:19-22 | With no marker in the content, the result is the stripped content when it is non-empty and no section otherwise. |
| DocxSections.ReadDocx | app/utils/text_spillter.py:7-27 | An error string comes back exactly when the document could not be read; it is the fixed prefix `Error reading .docx file: ` followed by the message. Otherwise the result is the split sections of the paragraph texts. |

## Left out

- Identifiers are natural numbers, not uuid4 strings. Randomness is replaced by a counter. A uuid4 is fresh only with high probability; the model's ids are fresh for certain.
- The skill/objective links of an alternative question are left as they are: `process_alternatives` does not stamp them, so the model keeps them unchanged (`AlternativeRewritten`). Alternatives nested inside an alternative are not modelled; the rewrite does not look into them.
- Answers, skill links and alternatives are values, not shared objects. Aliasing between them is not modelled: in the source, one answer object sitting in two lists would be rewritten twice.
- ProcessQuizQuestions: requires the question objects in the list to be distinct. The same object listed twice would be rewritten twice in the source.
- Question and answer fields that the rewrite never touches are collapsed into a single text field. So "nothing else changes" is stated for that field only.
- QuizIdentity.IdSupply.Fresh: "not present in the input" is stated through the supply's starting point (`QuizIdsAvoidInput`). The supply is not checked against the input.
- The supply's counter does not wrap; it is an unbounded natural.
- Reading the .docx file (`Document(...)`, the paragraph loop at lines 9-13) is an input. It is either the paragraph texts or the message of the exception raised. Exceptions raised later, in splitting or stripping, cannot happen in the model.
- `str.isspace` and `\s` are the Python whitespace set, written out as a fixed list of characters. Unicode categories are not consulted.
- Table cells are strings, as `convert_quiz_to_dataframe` produces them. A cell that a user editing the table left as a missing value (NaN/None) is not modelled. The level cell is a string, so `str(...)` on it is the identity, and `question_level` in the output is a string by its type.
- `main` and `create_excel_download` in `streamlit_app.py` are user interface and spreadsheet output.
- The LLM client, the vector store, the course and translation services and the HTTP entry point are not part of this model.

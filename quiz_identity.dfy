/** The quiz identity rewriter of app/utils/quiz.py. Generated quiz questions
    come with provisional identifiers; the rewriter walks them in order and,
    in place, gives every question, every alternative question and every
    answer a new identifier, keeps the answers that denoted the correct choice
    pointing at the new correct-answer identifier, stamps the new question
    identifier on the answers and on the skill/objective links, and emits one
    record per question carrying the paragraph identifier.

    Identifiers are natural numbers. `uuid.uuid4()` is the `IdSupply` object:
    a counter whose every `Fresh()` call returns a number it has never
    returned before. A supply started above every identifier of the input
    never hands out an identifier that the input already uses. */
module QuizIdentity {

  type Id = nat

  /** An answer of a question: its identifier, the identifier of the question
      it belongs to, and its text (all other fields are carried unchanged). */
  datatype Answer = Answer(answerId: Id, questionId: Id, text: string)

  /** An entry of `question_skills_and_objective`: a skill or objective tag
      linked back to the question that uses it. */
  datatype SkillLink = SkillLink(questionId: Id, name: string)

  /** An alternative framing of a question, with its own identifiers, its
      own answer list and its own skill/objective links, which the rewrite
      does not stamp. */
  datatype Alternative = Alternative(
    questionId: Id,
    correctAnswerId: Id,
    question: string,
    skills: seq<SkillLink>,
    answers: seq<Answer>)

  /** The fields of one quiz question, as `model_dump()` gives them. */
  datatype QuestionData = QuestionData(
    questionId: Id,
    correctAnswerId: Id,
    question: string,
    skills: seq<SkillLink>,
    answers: seq<Answer>,
    alternatives: seq<Alternative>)

  /** One entry of the list the rewriter returns: the dumped question with
      `paragraph_id` attached. */
  datatype QuestionRecord = QuestionRecord(question: QuestionData, paragraphId: string)

  /** A rewritten value and the first identifier not yet issued afterwards. */
  datatype Rewritten<T> = Rewritten(value: T, next: nat)

  /** A quiz question object whose fields the rewriter updates in place. */
  class Question {
    var questionId: Id
    var correctAnswerId: Id
    var question: string
    var skills: seq<SkillLink>
    var answers: seq<Answer>
    var alternatives: seq<Alternative>

    constructor (data: QuestionData)
      ensures Snapshot() == data
    {
      questionId := data.questionId;
      correctAnswerId := data.correctAnswerId;
      question := data.question;
      skills := data.skills;
      answers := data.answers;
      alternatives := data.alternatives;
    }

    /** `model_dump()`: the current field values. */
    function Snapshot(): QuestionData
      reads this
    {
      QuestionData(questionId, correctAnswerId, question, skills, answers, alternatives)
    }
  }

  function Snapshots(quiz: seq<Question>): (s: seq<QuestionData>)
    reads quiz
    ensures |s| == |quiz| && forall i :: 0 <= i < |quiz| ==> s[i] == quiz[i].Snapshot()
  {
    if quiz == [] then [] else Snapshots(quiz[..|quiz| - 1]) + [quiz[|quiz| - 1].Snapshot()]
  }

  /** The stand-in for `uuid.uuid4()`: the identifiers issued so far are
      exactly start, start + 1, ..., next - 1, in issue order. */
  class IdSupply {
    const start: nat
    var next: nat
    ghost var issued: seq<Id>

    ghost predicate Valid()
      reads this
    {
      start <= next && issued == Range(start, next)
    }

    constructor (start: nat)
      ensures Valid() && this.start == start && issued == []
    {
      this.start := start;
      next := start;
      issued := [];
    }

    /** A new identifier: never issued before, and recorded as issued. */
    method Fresh() returns (id: Id)
      requires Valid()
      modifies this
      ensures Valid()
      ensures id !in old(issued) && issued == old(issued) + [id]
      ensures id == old(next) && next == old(next) + 1
    {
      id := next;
      next := next + 1;
      issued := issued + [id];
    }
  }

  /** The identifiers start, start + 1, ..., end - 1, in order. */
  function Range(start: nat, end: nat): (r: seq<Id>)
    requires start <= end
    ensures |r| == end - start && forall i :: 0 <= i < |r| ==> r[i] == start + i
    decreases end - start
  {
    if start == end then [] else Range(start, end - 1) + [end - 1]
  }

  lemma RangeConcat(a: nat, b: nat, c: nat)
    requires a <= b <= c
    ensures Range(a, b) + Range(b, c) == Range(a, c)
  {
    assert |Range(a, b) + Range(b, c)| == |Range(a, c)|;
    forall i | 0 <= i < c - a
      ensures (Range(a, b) + Range(b, c))[i] == Range(a, c)[i]
    {
      if i < b - a {
      } else {
        assert (Range(a, b) + Range(b, c))[i] == Range(b, c)[i - (b - a)];
      }
    }
  }

  lemma RangeCons(a: nat, b: nat)
    requires a < b
    ensures [a] + Range(a + 1, b) == Range(a, b)
  {
    RangeConcat(a, a + 1, b);
    assert Range(a, a + 1) == [a];
  }

  // ---------------------------------------------------------------------
  // What the rewrite must achieve, independent of which numbers are drawn.
  // ---------------------------------------------------------------------

  /** `after` is `before` with every answer re-identified against the old and
      new correct-answer identifiers and attached to question `questionId`:
      an answer carries the new correct identifier exactly when its old
      identifier was the old correct one; order and texts are kept. */
  predicate AnswersRewritten(before: seq<Answer>, oldCorrect: Id, after: seq<Answer>, newCorrect: Id, questionId: Id)
  {
    |after| == |before| &&
    forall k :: 0 <= k < |before| ==>
      after[k].questionId == questionId && after[k].text == before[k].text &&
      (after[k].answerId == newCorrect <==> before[k].answerId == oldCorrect)
  }

  /** An alternative rewritten against its own pre-rewrite correct identifier;
      unlike a question's, its skill/objective links are left as they were. */
  predicate AlternativeRewritten(before: Alternative, after: Alternative)
  {
    after.question == before.question &&
    after.skills == before.skills &&
    after.questionId != after.correctAnswerId &&
    AnswersRewritten(before.answers, before.correctAnswerId, after.answers, after.correctAnswerId, after.questionId)
  }

  /** A question rewritten: new question and correct-answer identifiers,
      every skill link stamped with the new question identifier, the answers
      rewritten against the pre-rewrite correct identifier, and every
      alternative rewritten on its own. */
  predicate QuestionRewritten(before: QuestionData, after: QuestionData)
  {
    after.question == before.question &&
    after.questionId != after.correctAnswerId &&
    |after.skills| == |before.skills| &&
    (forall k :: 0 <= k < |before.skills| ==>
      after.skills[k] == before.skills[k].(questionId := after.questionId)) &&
    AnswersRewritten(before.answers, before.correctAnswerId, after.answers, after.correctAnswerId, after.questionId) &&
    |after.alternatives| == |before.alternatives| &&
    forall k :: 0 <= k < |before.alternatives| ==>
      AlternativeRewritten(before.alternatives[k], after.alternatives[k])
  }

  /** How many answers carry identifier `id`. */
  function CountId(answers: seq<Answer>, id: Id): nat
  {
    if answers == [] then 0
    else CountId(answers[..|answers| - 1], id) + (if answers[|answers| - 1].answerId == id then 1 else 0)
  }

  /** The number of answers holding the new correct identifier equals the
      number whose old identifier was the old correct one: none when none
      matched, all of them when several did. */
  lemma {:induction false} CorrectCountPreserved(before: seq<Answer>, oldCorrect: Id, after: seq<Answer>, newCorrect: Id, questionId: Id)
    requires AnswersRewritten(before, oldCorrect, after, newCorrect, questionId)
    ensures CountId(after, newCorrect) == CountId(before, oldCorrect)
    decreases |before|
  {
    if before != [] {
      var n := |before| - 1;
      CorrectCountPreserved(before[..n], oldCorrect, after[..n], newCorrect, questionId);
    }
  }

  /** In particular the rewritten question has exactly one correct answer
      exactly when its input had exactly one answer with the old correct id. */
  lemma ExactlyOneCorrect(before: QuestionData, after: QuestionData)
    requires QuestionRewritten(before, after)
    ensures CountId(after.answers, after.correctAnswerId) == 1
        <==> CountId(before.answers, before.correctAnswerId) == 1
  {
    CorrectCountPreserved(before.answers, before.correctAnswerId, after.answers, after.correctAnswerId, after.questionId);
  }

  // ---------------------------------------------------------------------
  // The rewrite as functions of the input and the supply's counter.
  // ---------------------------------------------------------------------

  /** `process_answers` on values: an answer whose identifier is `correctId`
      gets `newCorrectId`, every other one the next fresh identifier; all get
      `questionId`. */
  function RewriteAnswers(answers: seq<Answer>, correctId: Id, newCorrectId: Id, questionId: Id, next: nat): (r: Rewritten<seq<Answer>>)
    ensures next <= r.next
    ensures |r.value| == |answers|
    decreases |answers|
  {
    if answers == [] then Rewritten([], next)
    else
      var init := RewriteAnswers(answers[..|answers| - 1], correctId, newCorrectId, questionId, next);
      var a := answers[|answers| - 1];
      if a.answerId == correctId then
        Rewritten(init.value + [a.(answerId := newCorrectId, questionId := questionId)], init.next)
      else
        Rewritten(init.value + [a.(answerId := init.next, questionId := questionId)], init.next + 1)
  }

  /** One alternative: a fresh question identifier, then a fresh correct
      identifier, then its answers against its own old correct identifier. */
  function RewriteAlternative(alt: Alternative, next: nat): (r: Rewritten<Alternative>)
    ensures next + 2 <= r.next
  {
    var answers := RewriteAnswers(alt.answers, alt.correctAnswerId, next + 1, next, next + 2);
    Rewritten(alt.(questionId := next, correctAnswerId := next + 1, answers := answers.value), answers.next)
  }

  /** `process_alternatives` on values: the alternatives one after another. */
  function RewriteAlternatives(alts: seq<Alternative>, next: nat): (r: Rewritten<seq<Alternative>>)
    ensures next <= r.next
    ensures |r.value| == |alts|
    decreases |alts|
  {
    if alts == [] then Rewritten([], next)
    else
      var init := RewriteAlternatives(alts[..|alts| - 1], next);
      var last := RewriteAlternative(alts[|alts| - 1], init.next);
      Rewritten(init.value + [last.value], last.next)
  }

  /** Every skill link stamped with `questionId`. */
  function StampedSkills(skills: seq<SkillLink>, questionId: Id): (r: seq<SkillLink>)
    ensures |r| == |skills|
    ensures forall k :: 0 <= k < |skills| ==> r[k].questionId == questionId && r[k].name == skills[k].name
  {
    if skills == [] then []
    else StampedSkills(skills[..|skills| - 1], questionId) + [skills[|skills| - 1].(questionId := questionId)]
  }

  /** The loop body of `process_quiz_questions` on one question. */
  function RewriteQuestion(q: QuestionData, next: nat): (r: Rewritten<QuestionData>)
    ensures next + 2 <= r.next
  {
    var questionId := next;
    var newCorrectId := next + 1;
    var answers := RewriteAnswers(q.answers, q.correctAnswerId, newCorrectId, questionId, next + 2);
    var alts := RewriteAlternatives(q.alternatives, answers.next);
    Rewritten(
      QuestionData(questionId, newCorrectId, q.question, StampedSkills(q.skills, questionId), answers.value, alts.value),
      alts.next)
  }

  /** `process_quiz_questions` on values, for the first `count` questions:
      one record per question, in order, each rewritten and tagged with the
      paragraph identifier. */
  function RewriteQuiz(quiz: seq<QuestionData>, count: nat, paragraphId: string, next: nat)
    : (r: Rewritten<seq<QuestionRecord>>)
    requires count <= |quiz|
    ensures next <= r.next
    ensures |r.value| == count
  {
    if count == 0 then Rewritten([], next)
    else
      var init := RewriteQuiz(quiz, count - 1, paragraphId, next);
      var last := RewriteQuestion(quiz[count - 1], init.next);
      Rewritten(init.value + [QuestionRecord(last.value, paragraphId)], last.next)
  }

  /** The answers are rewritten as `AnswersRewritten` demands whenever the new
      correct identifier was issued before the answers' fresh ones. */
  lemma {:induction false} AnswersRewriteSound(answers: seq<Answer>, correctId: Id, newCorrectId: Id, questionId: Id, next: nat)
    requires newCorrectId < next
    ensures var r := RewriteAnswers(answers, correctId, newCorrectId, questionId, next);
      AnswersRewritten(answers, correctId, r.value, newCorrectId, questionId) &&
      forall k :: 0 <= k < |answers| && answers[k].answerId != correctId ==> next <= r.value[k].answerId < r.next
    decreases |answers|
  {
    if answers != [] {
      var n := |answers| - 1;
      var init := RewriteAnswers(answers[..n], correctId, newCorrectId, questionId, next);
      AnswersRewriteSound(answers[..n], correctId, newCorrectId, questionId, next);
      var r := RewriteAnswers(answers, correctId, newCorrectId, questionId, next);
      forall k | 0 <= k < n
        ensures r.value[k] == init.value[k] && answers[k] == answers[..n][k]
      {
      }
    }
  }

  /** An alternative gets a fresh question identifier and a fresh, different
      correct identifier, and its answers are rewritten against its own
      pre-rewrite correct identifier. */
  lemma AlternativeRewriteSound(alt: Alternative, next: nat)
    ensures var r := RewriteAlternative(alt, next);
      AlternativeRewritten(alt, r.value) &&
      next <= r.value.questionId < r.next && next <= r.value.correctAnswerId < r.next
  {
    AnswersRewriteSound(alt.answers, alt.correctAnswerId, next + 1, next, next + 2);
  }

  lemma {:induction false} AlternativesRewriteSound(alts: seq<Alternative>, next: nat)
    ensures var r := RewriteAlternatives(alts, next);
      forall k :: 0 <= k < |alts| ==> AlternativeRewritten(alts[k], r.value[k])
    decreases |alts|
  {
    if alts != [] {
      var n := |alts| - 1;
      var init := RewriteAlternatives(alts[..n], next);
      var last := RewriteAlternative(alts[n], init.next);
      AlternativesRewriteSound(alts[..n], next);
      AlternativeRewriteSound(alts[n], init.next);
      var r := RewriteAlternatives(alts, next);
      assert r.value == init.value + [last.value];
      forall k | 0 <= k < n
        ensures r.value[k] == init.value[k] && alts[k] == alts[..n][k]
      {
      }
    }
  }

  /** One question: fresh question and correct identifiers, skill links
      stamped, answers rewritten against the pre-rewrite correct identifier,
      alternatives rewritten on their own. */
  lemma QuestionRewriteSound(q: QuestionData, next: nat)
    ensures var r := RewriteQuestion(q, next);
      QuestionRewritten(q, r.value) &&
      next <= r.value.questionId < r.next && next <= r.value.correctAnswerId < r.next
  {
    var answers := RewriteAnswers(q.answers, q.correctAnswerId, next + 1, next, next + 2);
    AnswersRewriteSound(q.answers, q.correctAnswerId, next + 1, next, next + 2);
    AlternativesRewriteSound(q.alternatives, answers.next);
  }

  /** The quiz: one record per question, in input order, each tagged with
      the paragraph identifier and rewritten as `QuestionRewritten` says. */
  lemma {:induction false} QuizRewriteSound(quiz: seq<QuestionData>, count: nat, paragraphId: string, next: nat)
    requires count <= |quiz|
    ensures var r := RewriteQuiz(quiz, count, paragraphId, next);
      |r.value| == count &&
      forall i :: 0 <= i < count ==>
        r.value[i].paragraphId == paragraphId && QuestionRewritten(quiz[i], r.value[i].question)
  {
    if count != 0 {
      var n := count - 1;
      var init := RewriteQuiz(quiz, n, paragraphId, next);
      var last := RewriteQuestion(quiz[n], init.next);
      QuizRewriteSound(quiz, n, paragraphId, next);
      QuestionRewriteSound(quiz[n], init.next);
      var r := RewriteQuiz(quiz, count, paragraphId, next);
      assert r.value == init.value + [QuestionRecord(last.value, paragraphId)];
      forall i | 0 <= i < n
        ensures r.value[i] == init.value[i]
      {
      }
    }
  }

  // ---------------------------------------------------------------------
  // Freshness: the identifiers one call issues, in the order it issues them.
  // ---------------------------------------------------------------------

  /** Identifiers of the answers that do not hold the correct identifier. */
  function OtherAnswerIds(answers: seq<Answer>, correctId: Id): seq<Id>
  {
    if answers == [] then []
    else
      var a := answers[|answers| - 1];
      OtherAnswerIds(answers[..|answers| - 1], correctId) + (if a.answerId == correctId then [] else [a.answerId])
  }

  function AlternativeIds(alt: Alternative): seq<Id>
  {
    [alt.questionId, alt.correctAnswerId] + OtherAnswerIds(alt.answers, alt.correctAnswerId)
  }

  function AlternativesIds(alts: seq<Alternative>): seq<Id>
  {
    if alts == [] then [] else AlternativesIds(alts[..|alts| - 1]) + AlternativeIds(alts[|alts| - 1])
  }

  function QuestionIds(q: QuestionData): seq<Id>
  {
    [q.questionId, q.correctAnswerId] + OtherAnswerIds(q.answers, q.correctAnswerId) + AlternativesIds(q.alternatives)
  }

  /** Every question, correct-answer and non-correct answer identifier of the
      output, across questions and alternatives alike. */
  function QuizIds(records: seq<QuestionRecord>): seq<Id>
  {
    if records == [] then [] else QuizIds(records[..|records| - 1]) + QuestionIds(records[|records| - 1].question)
  }

  /** The non-correct answers receive the identifiers next, next + 1, ... in
      list order. */
  lemma {:induction false} AnswerIdsIssued(answers: seq<Answer>, correctId: Id, newCorrectId: Id, questionId: Id, next: nat)
    requires newCorrectId < next
    ensures var r := RewriteAnswers(answers, correctId, newCorrectId, questionId, next);
      OtherAnswerIds(r.value, newCorrectId) == Range(next, r.next)
    decreases |answers|
  {
    if answers != [] {
      var n := |answers| - 1;
      var init := RewriteAnswers(answers[..n], correctId, newCorrectId, questionId, next);
      AnswerIdsIssued(answers[..n], correctId, newCorrectId, questionId, next);
      var r := RewriteAnswers(answers, correctId, newCorrectId, questionId, next);
      assert r.value[..n] == init.value;
    }
  }

  lemma AlternativeIdsIssued(alt: Alternative, next: nat)
    ensures var r := RewriteAlternative(alt, next);
      AlternativeIds(r.value) == Range(next, r.next)
  {
    var r := RewriteAlternative(alt, next);
    AnswerIdsIssued(alt.answers, alt.correctAnswerId, next + 1, next, next + 2);
    RangeCons(next + 1, r.next);
    RangeCons(next, r.next);
  }

  lemma {:induction false} AlternativesIdsIssued(alts: seq<Alternative>, next: nat)
    ensures var r := RewriteAlternatives(alts, next);
      AlternativesIds(r.value) == Range(next, r.next)
    decreases |alts|
  {
    if alts != [] {
      var n := |alts| - 1;
      var init := RewriteAlternatives(alts[..n], next);
      var last := RewriteAlternative(alts[n], init.next);
      AlternativesIdsIssued(alts[..n], next);
      AlternativeIdsIssued(alts[n], init.next);
      var r := RewriteAlternatives(alts, next);
      assert r.value[..n] == init.value;
      RangeConcat(next, init.next, last.next);
    }
  }

  lemma QuestionIdsIssued(q: QuestionData, next: nat)
    ensures var r := RewriteQuestion(q, next);
      QuestionIds(r.value) == Range(next, r.next)
  {
    var answers := RewriteAnswers(q.answers, q.correctAnswerId, next + 1, next, next + 2);
    var alts := RewriteAlternatives(q.alternatives, answers.next);
    AnswerIdsIssued(q.answers, q.correctAnswerId, next + 1, next, next + 2);
    AlternativesIdsIssued(q.alternatives, answers.next);
    RangeConcat(next + 2, answers.next, alts.next);
    RangeCons(next + 1, alts.next);
    RangeCons(next, alts.next);
  }

  /** The identifiers one call issues are next, next + 1, ..., in issue order. */
  lemma {:induction false} QuizIdsIssued(quiz: seq<QuestionData>, count: nat, paragraphId: string, next: nat)
    requires count <= |quiz|
    ensures var r := RewriteQuiz(quiz, count, paragraphId, next);
      QuizIds(r.value) == Range(next, r.next)
  {
    if count != 0 {
      var n := count - 1;
      var init := RewriteQuiz(quiz, n, paragraphId, next);
      var last := RewriteQuestion(quiz[n], init.next);
      QuizIdsIssued(quiz, n, paragraphId, next);
      QuestionIdsIssued(quiz[n], init.next);
      var r := RewriteQuiz(quiz, count, paragraphId, next);
      assert r.value[..n] == init.value;
      RangeConcat(next, init.next, last.next);
    }
  }

  /** All question, correct-answer and non-correct answer identifiers issued
      in one call are pairwise distinct, and none is below the supply's
      starting point, so none coincides with an identifier of the input when
      the supply starts above them. */
  lemma QuizIdsDistinct(quiz: seq<QuestionData>, paragraphId: string, next: nat)
    ensures var r := RewriteQuiz(quiz, |quiz|, paragraphId, next);
      var ids := QuizIds(r.value);
      (forall i, j :: 0 <= i < j < |ids| ==> ids[i] != ids[j]) &&
      (forall i :: 0 <= i < |ids| ==> next <= ids[i] < r.next)
  {
    QuizIdsIssued(quiz, |quiz|, paragraphId, next);
  }

  /** A supply that starts above every identifier the input quiz uses never
      hands one of them out again. */
  lemma QuizIdsAvoidInput(quiz: seq<QuestionData>, paragraphId: string, next: nat)
    requires forall j, x :: 0 <= j < |quiz| && x in QuestionIds(quiz[j]) ==> x < next
    ensures var ids := QuizIds(RewriteQuiz(quiz, |quiz|, paragraphId, next).value);
      forall i, j :: 0 <= i < |ids| && 0 <= j < |quiz| ==> ids[i] !in QuestionIds(quiz[j])
  {
    QuizIdsIssued(quiz, |quiz|, paragraphId, next);
  }

  // ---------------------------------------------------------------------
  // The imperative rewrite, proved against the functions above.
  // ---------------------------------------------------------------------

  /** `process_answers`: re-identifies the answers in place and returns them. */
  method ProcessAnswers(answers: seq<Answer>, correctId: Id, newCorrectId: Id, questionId: Id, ids: IdSupply)
    returns (result: seq<Answer>)
    requires ids.Valid()
    modifies ids
    ensures ids.Valid()
    ensures Rewritten(result, ids.next) == RewriteAnswers(answers, correctId, newCorrectId, questionId, old(ids.next))
  {
    result := answers;
    for i := 0 to |answers|
      invariant ids.Valid()
      invariant |result| == |answers|
      invariant forall j :: i <= j < |answers| ==> result[j] == answers[j]
      invariant Rewritten(result[..i], ids.next) == RewriteAnswers(answers[..i], correctId, newCorrectId, questionId, old(ids.next))
    {
      var ans := result[i];
      var newId;
      if ans.answerId == correctId {
        newId := newCorrectId;
      } else {
        newId := ids.Fresh();
      }
      result := result[i := ans.(answerId := newId, questionId := questionId)];
      assert answers[..i + 1][..i] == answers[..i];
      assert result[..i + 1] == result[..i] + [result[i]];
    }
    assert answers[..|answers|] == answers;
    assert result[..|answers|] == result;
  }

  /** `process_alternatives`: re-identifies every alternative in place. */
  method ProcessAlternatives(alternatives: seq<Alternative>, ids: IdSupply) returns (result: seq<Alternative>)
    requires ids.Valid()
    modifies ids
    ensures ids.Valid()
    ensures Rewritten(result, ids.next) == RewriteAlternatives(alternatives, old(ids.next))
  {
    result := alternatives;
    for i := 0 to |alternatives|
      invariant ids.Valid()
      invariant |result| == |alternatives|
      invariant forall j :: i <= j < |alternatives| ==> result[j] == alternatives[j]
      invariant Rewritten(result[..i], ids.next) == RewriteAlternatives(alternatives[..i], old(ids.next))
    {
      ghost var init := RewriteAlternatives(alternatives[..i], old(ids.next));
      ghost var last := RewriteAlternative(alternatives[i], init.next);
      var alt := result[i];
      var questionId := ids.Fresh();
      alt := alt.(questionId := questionId);
      var oldCorrectId := alt.correctAnswerId;
      var newCorrectId := ids.Fresh();
      alt := alt.(correctAnswerId := newCorrectId);
      var answers := ProcessAnswers(alt.answers, oldCorrectId, newCorrectId, alt.questionId, ids);
      alt := alt.(answers := answers);
      assert alt == last.value && ids.next == last.next;
      result := result[i := alt];
      assert alternatives[..i + 1][..i] == alternatives[..i];
      assert result[..i + 1] == init.value + [last.value];
    }
    assert alternatives[..|alternatives|] == alternatives;
    assert result[..|alternatives|] == result;
  }

  /** The loop over `question_skills_and_objective`. */
  method StampSkills(skills: seq<SkillLink>, questionId: Id) returns (result: seq<SkillLink>)
    ensures result == StampedSkills(skills, questionId)
  {
    result := skills;
    for k := 0 to |skills|
      invariant |result| == |skills|
      invariant forall j :: 0 <= j < k ==> result[j] == skills[j].(questionId := questionId)
      invariant forall j :: k <= j < |skills| ==> result[j] == skills[j]
    {
      result := result[k := result[k].(questionId := questionId)];
    }
  }

  /** The body of the loop of `process_quiz_questions` up to the dump:
      rewrites one question object in place. */
  method RewriteQuestionInPlace(q: Question, ids: IdSupply)
    requires ids.Valid()
    modifies q, ids
    ensures ids.Valid()
    ensures Rewritten(q.Snapshot(), ids.next) == RewriteQuestion(old(q.Snapshot()), old(ids.next))
  {
    ghost var before := q.Snapshot();
    ghost var n := ids.next;
    ghost var answersDone := RewriteAnswers(before.answers, before.correctAnswerId, n + 1, n, n + 2);
    ghost var altsDone := RewriteAlternatives(before.alternatives, answersDone.next);
    ghost var after := QuestionData(n, n + 1, before.question, StampedSkills(before.skills, n),
                                    answersDone.value, altsDone.value);
    assert RewriteQuestion(before, n) == Rewritten(after, altsDone.next);

    var questionId := ids.Fresh();
    var oldCorrectId := q.correctAnswerId;
    var newCorrectId := ids.Fresh();
    var skills := StampSkills(q.skills, questionId);
    var answers := ProcessAnswers(q.answers, oldCorrectId, newCorrectId, questionId, ids);
    assert answers == answersDone.value && ids.next == answersDone.next;
    var alternatives := ProcessAlternatives(q.alternatives, ids);
    assert alternatives == altsDone.value && ids.next == altsDone.next;
    q.questionId, q.correctAnswerId := questionId, newCorrectId;
    q.skills, q.answers, q.alternatives := skills, answers, alternatives;
    assert q.Snapshot() == after;
  }

  /** One pass of the loop of `process_quiz_questions`: rewrites question
      `q`, the `i`-th of the quiz, in place and appends its dump tagged with
      `paragraphId` to the records of the questions before it. */
  method ProcessQuestion(q: Question, paragraphId: string, ids: IdSupply, records: seq<QuestionRecord>,
                         ghost quiz: seq<QuestionData>, ghost i: nat, ghost start: nat)
    returns (extended: seq<QuestionRecord>)
    requires ids.Valid() && i < |quiz| && q.Snapshot() == quiz[i]
    requires Rewritten(records, ids.next) == RewriteQuiz(quiz, i, paragraphId, start)
    modifies q, ids
    ensures ids.Valid()
    ensures extended == records + [QuestionRecord(q.Snapshot(), paragraphId)]
    ensures Rewritten(extended, ids.next) == RewriteQuiz(quiz, i + 1, paragraphId, start)
  {
    RewriteQuestionInPlace(q, ids);
    extended := records + [QuestionRecord(q.Snapshot(), paragraphId)];
  }

  /** `process_quiz_questions`: rewrites every question object in place, in
      order, and returns their dumps tagged with `paragraphId`. */
  method ProcessQuizQuestions(quiz: seq<Question>, paragraphId: string, ids: IdSupply)
    returns (records: seq<QuestionRecord>)
    requires ids.Valid()
    requires forall i, j :: 0 <= i < j < |quiz| ==> quiz[i] != quiz[j]
    modifies quiz, ids
    ensures ids.Valid()
    ensures Rewritten(records, ids.next) == RewriteQuiz(old(Snapshots(quiz)), |quiz|, paragraphId, old(ids.next))
    ensures forall i :: 0 <= i < |quiz| ==> quiz[i].Snapshot() == records[i].question
  {
    ghost var before := Snapshots(quiz);
    ghost var start := ids.next;
    records := [];
    for i := 0 to |quiz|
      invariant ids.Valid()
      invariant Rewritten(records, ids.next) == RewriteQuiz(before, i, paragraphId, start)
      invariant forall k {:trigger quiz[k].Snapshot()} :: 0 <= k < |quiz| ==>
        quiz[k].Snapshot() == if k < i then records[k].question else before[k]
    {
      records := ProcessQuestion(quiz[i], paragraphId, ids, records, before, i, start);
    }
  }
}

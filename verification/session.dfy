/**
 * The quiz session of the web front end: the per-browser session state (a
 * dictionary from keys to values), the helpers that read and write the
 * current user and the current quiz, and the "Submit Answers" scoring loop
 * that compares each chosen option with the correct one and saves one
 * response per question.
 *
 * The session is the class `Session`, whose `values` map the helpers update
 * in place. `save_response` writes to the database; here the responses it is
 * called with are returned, in call order.
 */
module Session {
  import opened Common
  import opened Text

  /** A value held in the session state. */
  datatype Value =
    | Text(text: string)
    | Flag(flag: bool)
    | Number(number: int)
    | Quiz(mcqs: seq<Mcq>)

  /** Python truthiness of a session value: empty strings, empty lists, False and 0 are false. */
  predicate Truthy(v: Value) {
    match v
    case Text(s) => s != []
    case Flag(b) => b
    case Number(n) => n != 0
    case Quiz(qs) => qs != []
  }

  const UserIdKey: string := "user_id"
  const QuizIdKey: string := "current_quiz_id"
  const McqsKey: string := "current_quiz_mcqs"
  const SubmittedKey: string := "quiz_submitted"

  /** The user id used when the session has none yet. */
  const DemoUser: string := "demo-user"

  /** The key of the option widget of question `i`: `quiz_q_{i}_choice`. */
  function ChoiceKey(i: nat): string {
    "quiz_q_" + Decimal(i) + "_choice"
  }

  /** Each question has its own widget key. */
  lemma ChoiceKeyInjective(i: nat, j: nat)
    ensures ChoiceKey(i) == ChoiceKey(j) ==> i == j
  {
    if ChoiceKey(i) == ChoiceKey(j) {
      var lead, tail := "quiz_q_", "choice";
      assert ChoiceKey(i) == lead + (Decimal(i) + ['_'] + tail);
      assert ChoiceKey(j) == lead + (Decimal(j) + ['_'] + tail);
      assert (lead + (Decimal(i) + ['_'] + tail))[|lead|..] == Decimal(i) + ['_'] + tail;
      assert (lead + (Decimal(j) + ['_'] + tail))[|lead|..] == Decimal(j) + ['_'] + tail;
      assert '_' !in Decimal(i) && '_' !in Decimal(j);
      SplitAtMark(Decimal(i), tail, Decimal(j), tail, '_');
      DecimalInjective(i, j);
    }
  }

  /** No answer key collides with the user or quiz keys: the helpers never overwrite an answer. */
  lemma ChoiceKeyIsNoQuizKey(i: nat)
    ensures ChoiceKey(i) != UserIdKey && ChoiceKey(i) != QuizIdKey
    ensures ChoiceKey(i) != McqsKey && ChoiceKey(i) != SubmittedKey
  {
    var k := ChoiceKey(i);
    assert k[0] == 'q' && k[5] == 'q';
  }

  // ---------- the user ----------

  /** The session after `get_user_id`: "demo-user" is stored only when no user id is present. */
  function WithUserId(m: map<string, Value>): (r: map<string, Value>)
    ensures UserIdKey in r
  {
    if UserIdKey in m then m else m[UserIdKey := Text(DemoUser)]
  }

  /** Asking for the user id a second time changes nothing. */
  lemma WithUserIdIdempotent(m: map<string, Value>)
    ensures WithUserId(WithUserId(m)) == WithUserId(m)
  {
  }

  /** Only the user id can change, and an existing one never does; every other key keeps its value. */
  lemma WithUserIdKeepsOthers(m: map<string, Value>)
    ensures forall k :: k in m ==> k in WithUserId(m) && WithUserId(m)[k] == m[k]
    ensures forall k :: k in WithUserId(m) && k != UserIdKey ==> k in m
    ensures UserIdKey !in m ==> WithUserId(m)[UserIdKey] == Text(DemoUser)
  {
  }

  // ---------- the current quiz ----------

  /** The session after `set_current_quiz`: the quiz id, the questions in order, and not yet submitted. */
  function WithQuiz(m: map<string, Value>, quizId: string, mcqs: seq<Mcq>): (r: map<string, Value>)
    ensures r.Keys == m.Keys + {QuizIdKey, McqsKey, SubmittedKey}
  {
    m[QuizIdKey := Text(quizId)][McqsKey := Quiz(mcqs)][SubmittedKey := Flag(false)]
  }

  /** `get_current_quiz`: both values, unless one of them is missing or falsy. */
  function CurrentQuizOf(m: map<string, Value>): (r: Option<(Value, Value)>)
    ensures r.Some? <==> QuizIdKey in m && Truthy(m[QuizIdKey]) && McqsKey in m && Truthy(m[McqsKey])
    ensures r.Some? ==> r.value.0 == m[QuizIdKey] && r.value.1 == m[McqsKey]
  {
    var quizId := if QuizIdKey in m then Some(m[QuizIdKey]) else None;
    var mcqs := if McqsKey in m then Some(m[McqsKey]) else None;
    if quizId.None? || !Truthy(quizId.value) || mcqs.None? || !Truthy(mcqs.value) then None
    else Some((quizId.value, mcqs.value))
  }

  /**
   * A quiz just stored is the current quiz exactly when its id and its
   * question list are both non-empty; the answers given so far are kept.
   */
  lemma StoredQuizIsCurrent(m: map<string, Value>, quizId: string, mcqs: seq<Mcq>)
    ensures CurrentQuizOf(WithQuiz(m, quizId, mcqs))
            == if quizId != [] && mcqs != [] then Some((Text(quizId), Quiz(mcqs))) else None
    ensures !WithQuiz(m, quizId, mcqs)[SubmittedKey].flag
    ensures forall i: nat :: ChoiceKey(i) in m ==>
              ChoiceKey(i) in WithQuiz(m, quizId, mcqs) && WithQuiz(m, quizId, mcqs)[ChoiceKey(i)] == m[ChoiceKey(i)]
  {
    forall i: nat | ChoiceKey(i) in m
      ensures WithQuiz(m, quizId, mcqs)[ChoiceKey(i)] == m[ChoiceKey(i)]
    {
      ChoiceKeyIsNoQuizKey(i);
    }
  }

  // ---------- scoring ----------

  /** One call of `save_response`. */
  datatype SavedResponse = SavedResponse(
    userId: Value, quizId: Value, questionIndex: nat, chosenIndex: int, isCorrect: bool)

  /** Every answer recorded for the first `n` questions is an option index. */
  predicate ChoicesAreNumbers(m: map<string, Value>, n: nat) {
    forall i: nat :: i < n && ChoiceKey(i) in m ==> m[ChoiceKey(i)].Number?
  }

  /** The option chosen for question `i`: 0 when the question was left unanswered. */
  function Chosen(m: map<string, Value>, i: nat): (c: int)
    requires ChoiceKey(i) in m ==> m[ChoiceKey(i)].Number?
    ensures ChoiceKey(i) in m ==> m[ChoiceKey(i)] == Number(c)
    ensures ChoiceKey(i) !in m ==> c == 0
  {
    if ChoiceKey(i) in m then m[ChoiceKey(i)].number else 0
  }

  /** The responses the submit loop saves, one per question and in question order. */
  function Responses(m: map<string, Value>, userId: Value, quizId: Value, mcqs: seq<Mcq>): (rs: seq<SavedResponse>)
    requires ChoicesAreNumbers(m, |mcqs|)
    ensures |rs| == |mcqs|
    ensures forall i :: 0 <= i < |mcqs| ==>
              && rs[i].userId == userId && rs[i].quizId == quizId && rs[i].questionIndex == i
              && (rs[i].isCorrect <==> rs[i].chosenIndex == mcqs[i].correctIndex)
              && (ChoiceKey(i) !in m ==> rs[i].chosenIndex == 0)
              && (ChoiceKey(i) in m ==> m[ChoiceKey(i)] == Number(rs[i].chosenIndex))
  {
    seq(|mcqs|, i requires 0 <= i < |mcqs| =>
      SavedResponse(userId, quizId, i, Chosen(m, i), Chosen(m, i) == mcqs[i].correctIndex))
  }

  /** The number of correct responses. */
  function CorrectCount(rs: seq<SavedResponse>): nat {
    if rs == [] then 0
    else CorrectCount(rs[..|rs| - 1]) + (if rs[|rs| - 1].isCorrect then 1 else 0)
  }

  /** The score never exceeds the number of questions; it is full exactly when every response is correct. */
  lemma {:induction false} CorrectCountBounds(rs: seq<SavedResponse>)
    ensures CorrectCount(rs) <= |rs|
    ensures CorrectCount(rs) == |rs| <==> forall i :: 0 <= i < |rs| ==> rs[i].isCorrect
    ensures CorrectCount(rs) == 0 <==> forall i :: 0 <= i < |rs| ==> !rs[i].isCorrect
  {
    if rs != [] {
      var init := rs[..|rs| - 1];
      CorrectCountBounds(init);
      assert forall i :: 0 <= i < |init| ==> init[i] == rs[i];
    }
  }

  /** The responses for the first i + 1 questions: those for the first i, then question i's. */
  lemma ResponsesStep(m: map<string, Value>, userId: Value, quizId: Value, mcqs: seq<Mcq>, i: nat)
    requires ChoicesAreNumbers(m, |mcqs|) && i < |mcqs|
    ensures Responses(m, userId, quizId, mcqs)[..i + 1]
            == Responses(m, userId, quizId, mcqs)[..i]
               + [SavedResponse(userId, quizId, i, Chosen(m, i), Chosen(m, i) == mcqs[i].correctIndex)]
  {
    var rs := Responses(m, userId, quizId, mcqs);
    assert rs[..i + 1] == rs[..i] + [rs[i]];
  }

  /** One more response adds one to the count exactly when it is correct. */
  lemma CorrectCountSnoc(rs: seq<SavedResponse>, r: SavedResponse)
    ensures CorrectCount(rs + [r]) == CorrectCount(rs) + (if r.isCorrect then 1 else 0)
  {
    assert (rs + [r])[..|rs|] == rs;
  }

  /** The per-browser session state. */
  class Session {
    var values: map<string, Value>

    /** A fresh session holds nothing. */
    constructor ()
      ensures values == map[]
    {
      values := map[];
    }

    function CurrentQuiz(): (r: Option<(Value, Value)>)
      reads this
      ensures r == CurrentQuizOf(values)
    {
      CurrentQuizOf(values)
    }

    /** `get_user_id`: stores "demo-user" when no user id is set, and returns the stored id. */
    method GetUserId() returns (id: Value)
      modifies this
      ensures values == WithUserId(old(values))
      ensures id == values[UserIdKey]
      ensures UserIdKey in old(values) ==> id == old(values)[UserIdKey]
    {
      if UserIdKey !in values {
        values := values[UserIdKey := Text(DemoUser)];
      }
      id := values[UserIdKey];
    }

    /** `set_current_quiz`: stores the quiz id and its questions, then marks the quiz as not submitted. */
    method SetCurrentQuiz(quizId: string, mcqs: seq<Mcq>)
      modifies this
      ensures values == WithQuiz(old(values), quizId, mcqs)
      ensures CurrentQuiz() == if quizId != [] && mcqs != [] then Some((Text(quizId), Quiz(mcqs))) else None
    {
      values := values[QuizIdKey := Text(quizId)];
      values := values[McqsKey := Quiz(mcqs)];
      values := values[SubmittedKey := Flag(false)];
      StoredQuizIsCurrent(old(values), quizId, mcqs);
    }

    /**
     * The scoring loop of "Submit Answers": one saved response per question,
     * in order, correct exactly when the chosen option (0 when unanswered)
     * is the correct one, and the number of correct ones.
     */
    method ScoreAnswers(quizId: Value, mcqs: seq<Mcq>) returns (correct: nat, saved: seq<SavedResponse>)
      requires UserIdKey in values && ChoicesAreNumbers(values, |mcqs|)
      ensures saved == Responses(values, values[UserIdKey], quizId, mcqs)
      ensures correct == CorrectCount(saved) && correct <= |mcqs|
    {
      var m := values;
      var user := m[UserIdKey];
      correct := 0;
      saved := [];
      ghost var spec := Responses(m, user, quizId, mcqs);
      var i := 0;
      while i < |mcqs|
        invariant 0 <= i <= |mcqs|
        invariant saved == spec[..i]
        invariant correct == CorrectCount(saved)
      {
        var chosen := if ChoiceKey(i) in m then m[ChoiceKey(i)].number else 0;
        var isCorrect := chosen == mcqs[i].correctIndex;
        if isCorrect {
          correct := correct + 1;
        }
        var r := SavedResponse(user, quizId, i, chosen, isCorrect);
        ResponsesStep(m, user, quizId, mcqs, i);
        CorrectCountSnoc(saved, r);
        saved := saved + [r];
        i := i + 1;
      }
      assert saved == spec;
      CorrectCountBounds(saved);
    }

    /** "Submit Answers": scores the quiz, then marks it as submitted; nothing else in the session changes. */
    method SubmitAnswers(quizId: Value, mcqs: seq<Mcq>) returns (correct: nat, saved: seq<SavedResponse>)
      requires UserIdKey in values && ChoicesAreNumbers(values, |mcqs|)
      modifies this
      ensures saved == Responses(old(values), old(values)[UserIdKey], quizId, mcqs)
      ensures correct == CorrectCount(saved) && correct <= |mcqs|
      ensures values == old(values)[SubmittedKey := Flag(true)]
    {
      correct, saved := ScoreAnswers(quizId, mcqs);
      values := values[SubmittedKey := Flag(true)];
    }
  }
}

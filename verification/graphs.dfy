/**
 * The three workflow graphs: quiz (generate_mcqs, then save_quiz), coach
 * (compute_progress, then coaching) and explain (retrieve_context, then
 * generate_explanation).
 *
 * A run is a fold over the graph's fixed node list. Each node reads the state
 * and returns a partial update holding one key; the runtime overwrites that
 * key and keeps every other one. A node that raises ends the run with a node
 * failure that names it. The collaborators (quiz generation, quiz storage,
 * progress computation, vector search, the language model) are function
 * parameters. Each node also reports the calls it made to them, so that the
 * lemmas can say what was saved and what was never called.
 */
module Graphs {
  import opened Common
  import Coach
  import Explainer

  // ---------- the runner ----------

  /** Why a node failed: a `state["key"]` lookup of an absent key, or a collaborator that raised. */
  datatype Cause = MissingKey(key: string) | CallRaised(error: string)

  /** A call a node made to a collaborator. */
  datatype Call =
    | GenerateCall(topic: string, numQuestions: int, difficulty: string, k: int)
    | SaveCall(userId: string, topic: string, sourceId: string, mcqs: seq<Mcq>)
    | ProgressCall(userId: string)
    | CoachCall(progress: Coach.ProgressDict)
    | SearchCall(question: string, k: int)
    | ExplainCall(question: string, level: string, chunks: seq<string>)

  /** What one node did: a partial update, or a failure, with the calls it made on the way. */
  datatype Step<U> = Update(update: U, calls: seq<Call>) | Fail(cause: Cause, calls: seq<Call>)

  /** The end of a run: the final state, or the node that failed; the nodes that completed and all calls made. */
  datatype Run<S, N> =
    | Completed(state: S, visited: seq<N>, calls: seq<Call>)
    | NodeFailure(node: N, cause: Cause, visited: seq<N>, calls: seq<Call>)

  /** Runs `nodes` in order from `s`, overwriting the state with each node's update, stopping at the first failure. */
  function RunNodes<S, U, N>(nodes: seq<N>, s: S, exec: (N, S) -> Step<U>, apply: (S, U) -> S): (r: Run<S, N>)
    ensures r.Completed? ==> |r.visited| == |nodes|
    ensures r.NodeFailure? ==> |r.visited| < |nodes|
    ensures nodes != [] && exec(nodes[0], s).Fail? ==> r.NodeFailure? && r.node == nodes[0] && r.visited == []
  {
    if nodes == [] then Completed(s, [], [])
    else
      match exec(nodes[0], s)
      case Fail(cause, calls) => NodeFailure(nodes[0], cause, [], calls)
      case Update(u, calls) =>
        match RunNodes(nodes[1..], apply(s, u), exec, apply)
        case Completed(s', visited, rest) => Completed(s', [nodes[0]] + visited, calls + rest)
        case NodeFailure(n, cause, visited, rest) => NodeFailure(n, cause, [nodes[0]] + visited, calls + rest)
  }

  /**
   * A completed run went through every node in declared order; a failed run
   * went through a prefix of them, then the failing node, and nothing after it.
   */
  lemma {:induction false} RunVisitsInOrder<S, U, N>(nodes: seq<N>, s: S, exec: (N, S) -> Step<U>, apply: (S, U) -> S)
    ensures var r := RunNodes(nodes, s, exec, apply);
      && (r.Completed? ==> r.visited == nodes)
      && (r.NodeFailure? ==> r.visited + [r.node] <= nodes)
  {
    if nodes != [] {
      match exec(nodes[0], s)
      case Fail(_, _) =>
      case Update(u, _) =>
        RunVisitsInOrder(nodes[1..], apply(s, u), exec, apply);
        assert nodes == [nodes[0]] + nodes[1..];
    }
  }

  /** A two-node run, spelled out. */
  lemma RunTwoNodes<S, U, N>(a: N, b: N, s: S, exec: (N, S) -> Step<U>, apply: (S, U) -> S)
    ensures RunNodes([a, b], s, exec, apply) ==
      match exec(a, s)
      case Fail(c, cs) => NodeFailure(a, c, [], cs)
      case Update(u, cs) =>
        match exec(b, apply(s, u))
        case Fail(c2, cs2) => NodeFailure(b, c2, [a], cs + cs2)
        case Update(u2, cs2) => Completed(apply(apply(s, u), u2), [a, b], cs + cs2)
  {
    assert [a, b][1..] == [b];
    assert [b][1..] == [];
    match exec(a, s)
    case Fail(_, _) =>
    case Update(u, cs) =>
      match exec(b, apply(s, u))
      case Fail(_, cs2) =>
        assert cs2 + [] == cs2;
      case Update(u2, cs2) =>
        assert RunNodes([b], apply(s, u), exec, apply) == Completed(apply(apply(s, u), u2), [b] + [], cs2 + []);
        assert [a] + ([b] + []) == [a, b];
        assert cs2 + [] == cs2;
  }

  // ---------- quiz graph ----------

  /** The quiz state; every key is optional, and `quizId` is `Some(None)` when the key holds `None`. */
  datatype QuizState = QuizState(
    userId: Option<string>,
    topicOrQuestion: Option<string>,
    sourceId: Option<string>,
    numQuestions: Option<int>,
    difficulty: Option<string>,
    k: Option<int>,
    mcqs: Option<seq<Mcq>>,
    quizId: Option<Option<string>>)

  datatype QuizUpdate = McqsUpdate(mcqs: seq<Mcq>) | QuizIdUpdate(quizId: Option<string>)

  datatype QuizNode = GenerateMcqs | SaveQuiz

  const QuizGraph: seq<QuizNode> := [GenerateMcqs, SaveQuiz]

  const DefaultNumQuestions: int := 5
  const DefaultDifficulty: string := "medium"
  const DefaultK: int := 5

  /** Overwrites the one key the update names; every other key keeps its value. */
  function ApplyQuiz(s: QuizState, u: QuizUpdate): (r: QuizState)
    ensures r.(mcqs := s.mcqs, quizId := s.quizId) == s
    ensures u.McqsUpdate? ==> r.mcqs == Some(u.mcqs) && r.quizId == s.quizId
    ensures u.QuizIdUpdate? ==> r.quizId == Some(u.quizId) && r.mcqs == s.mcqs
  {
    match u
    case McqsUpdate(m) => s.(mcqs := Some(m))
    case QuizIdUpdate(id) => s.(quizId := Some(id))
  }

  /** `generate_mcqs_node`: generates questions on the topic, with count, difficulty and k defaulted. */
  function GenerateMcqsNode(s: QuizState, generate: (string, int, string, int) -> Outcome<seq<Mcq>>): (r: Step<QuizUpdate>)
    ensures s.topicOrQuestion.None? ==> r == Fail(MissingKey("topic_or_question"), [])
    ensures s.topicOrQuestion.Some? ==>
      var call := GenerateCall(s.topicOrQuestion.value, s.numQuestions.GetOr(DefaultNumQuestions),
                               s.difficulty.GetOr(DefaultDifficulty), s.k.GetOr(DefaultK));
      var out := generate(call.topic, call.numQuestions, call.difficulty, call.k);
      && r.calls == [call]
      && (r.Update? <==> out.Ok?)
      && (out.Ok? ==> r.update == McqsUpdate(out.value))
      && (out.Raised? ==> r.cause == CallRaised(out.error))
  {
    if s.topicOrQuestion.None? then Fail(MissingKey("topic_or_question"), [])
    else
      var topic := s.topicOrQuestion.value;
      var n := s.numQuestions.GetOr(DefaultNumQuestions);
      var difficulty := s.difficulty.GetOr(DefaultDifficulty);
      var k := s.k.GetOr(DefaultK);
      var call := GenerateCall(topic, n, difficulty, k);
      match generate(topic, n, difficulty, k)
      case Ok(mcqs) => Update(McqsUpdate(mcqs), [call])
      case Raised(e) => Fail(CallRaised(e), [call])
  }

  /** `save_quiz_node`: with no questions records no quiz; otherwise saves them once and records the new id. */
  function SaveQuizNode(s: QuizState, save: (string, string, string, seq<Mcq>) -> Outcome<string>): (r: Step<QuizUpdate>)
    ensures r.Update? ==> r.update.QuizIdUpdate? && (r.update.quizId.Some? <==> s.mcqs.GetOr([]) != [])
    ensures s.mcqs.GetOr([]) == [] ==> r == Update(QuizIdUpdate(None), [])
    ensures |r.calls| <= 1
    ensures r.calls != [] ==>
              && s.userId.Some? && s.topicOrQuestion.Some? && s.sourceId.Some? && s.mcqs.Some?
              && r.calls == [SaveCall(s.userId.value, s.topicOrQuestion.value, s.sourceId.value, s.mcqs.value)]
  {
    var mcqs := s.mcqs.GetOr([]);
    if mcqs == [] then Update(QuizIdUpdate(None), [])
    else if s.userId.None? then Fail(MissingKey("user_id"), [])
    else if s.topicOrQuestion.None? then Fail(MissingKey("topic_or_question"), [])
    else if s.sourceId.None? then Fail(MissingKey("source_id"), [])
    else
      var call := SaveCall(s.userId.value, s.topicOrQuestion.value, s.sourceId.value, mcqs);
      match save(s.userId.value, s.topicOrQuestion.value, s.sourceId.value, mcqs)
      case Ok(id) => Update(QuizIdUpdate(Some(id)), [call])
      case Raised(e) => Fail(CallRaised(e), [call])
  }

  function QuizStep(n: QuizNode, s: QuizState, generate: (string, int, string, int) -> Outcome<seq<Mcq>>,
                    save: (string, string, string, seq<Mcq>) -> Outcome<string>): Step<QuizUpdate>
  {
    match n
    case GenerateMcqs => GenerateMcqsNode(s, generate)
    case SaveQuiz => SaveQuizNode(s, save)
  }

  function RunQuiz(s: QuizState, generate: (string, int, string, int) -> Outcome<seq<Mcq>>,
                   save: (string, string, string, seq<Mcq>) -> Outcome<string>): Run<QuizState, QuizNode>
  {
    RunNodes(QuizGraph, s, (n, st) => QuizStep(n, st, generate, save), ApplyQuiz)
  }

  /** Absent count, difficulty and k become 5, "medium" and 5 in the generation call. */
  lemma GenerateUsesDefaults(s: QuizState, generate: (string, int, string, int) -> Outcome<seq<Mcq>>)
    requires s.topicOrQuestion.Some?
    requires s.numQuestions.None? && s.difficulty.None? && s.k.None?
    ensures GenerateMcqsNode(s, generate).calls
            == [GenerateCall(s.topicOrQuestion.value, DefaultNumQuestions, DefaultDifficulty, DefaultK)]
  {
  }

  function SaveCount(calls: seq<Call>): nat {
    if calls == [] then 0 else (if calls[0].SaveCall? then 1 else 0) + SaveCount(calls[1..])
  }

  lemma SaveCountPair(a: Call, b: Call)
    ensures SaveCount([a, b]) == (if a.SaveCall? then 1 else 0) + (if b.SaveCall? then 1 else 0)
  {
    assert [a, b][1..] == [b];
    assert [b][1..] == [];
    assert SaveCount([b]) == (if b.SaveCall? then 1 else 0) + SaveCount([]);
  }

  /** With the `mcqs` key absent or empty the node records `quiz_id = None` and calls nothing. */
  lemma NoMcqsNoSave(s: QuizState, save: (string, string, string, seq<Mcq>) -> Outcome<string>)
    requires s.mcqs.None? || s.mcqs == Some([])
    ensures SaveQuizNode(s, save) == Update(QuizIdUpdate(None), [])
  {
  }

  /**
   * A run whose generator returns no questions completes, records `quiz_id = None`
   * and saves nothing.
   */
  lemma QuizWithoutQuestions(s: QuizState, generate: (string, int, string, int) -> Outcome<seq<Mcq>>,
                             save: (string, string, string, seq<Mcq>) -> Outcome<string>)
    requires s.topicOrQuestion.Some?
    requires generate(s.topicOrQuestion.value, s.numQuestions.GetOr(DefaultNumQuestions), s.difficulty.GetOr(DefaultDifficulty), s.k.GetOr(DefaultK)) == Ok([])
    ensures var r := RunQuiz(s, generate, save);
      && r.Completed?
      && r.state.quizId == Some(None)
      && r.state.mcqs == Some([])
      && r.visited == QuizGraph
      && SaveCount(r.calls) == 0
  {
    var exec := (n, st) => QuizStep(n, st, generate, save);
    RunTwoNodes(GenerateMcqs, SaveQuiz, s, exec, ApplyQuiz);
  }

  /**
   * A run whose generator returns questions, from a state holding the user,
   * topic and source, saves exactly once, with those fields and those
   * questions, and records the id the store returns.
   */
  lemma QuizWithQuestions(s: QuizState, generate: (string, int, string, int) -> Outcome<seq<Mcq>>,
                          save: (string, string, string, seq<Mcq>) -> Outcome<string>, mcqs: seq<Mcq>)
    requires s.userId.Some? && s.topicOrQuestion.Some? && s.sourceId.Some?
    requires generate(s.topicOrQuestion.value, s.numQuestions.GetOr(DefaultNumQuestions), s.difficulty.GetOr(DefaultDifficulty), s.k.GetOr(DefaultK)) == Ok(mcqs)
    requires mcqs != []
    ensures var r := RunQuiz(s, generate, save);
      && r.calls == [GenerateCall(s.topicOrQuestion.value, s.numQuestions.GetOr(DefaultNumQuestions), s.difficulty.GetOr(DefaultDifficulty), s.k.GetOr(DefaultK)),
                     SaveCall(s.userId.value, s.topicOrQuestion.value, s.sourceId.value, mcqs)]
      && SaveCount(r.calls) == 1
      && match save(s.userId.value, s.topicOrQuestion.value, s.sourceId.value, mcqs)
         case Ok(id) => r.Completed? && r.state.quizId == Some(Some(id)) && r.state.mcqs == Some(mcqs)
         case Raised(_) => r.NodeFailure? && r.node == SaveQuiz
  {
    var exec := (n, st) => QuizStep(n, st, generate, save);
    RunTwoNodes(GenerateMcqs, SaveQuiz, s, exec, ApplyQuiz);
    SaveCountPair(GenerateCall(s.topicOrQuestion.value, s.numQuestions.GetOr(DefaultNumQuestions), s.difficulty.GetOr(DefaultDifficulty), s.k.GetOr(DefaultK)),
                  SaveCall(s.userId.value, s.topicOrQuestion.value, s.sourceId.value, mcqs));
  }

  /** When generation raises, the run fails at generate_mcqs and nothing is saved. */
  lemma QuizGenerationFails(s: QuizState, generate: (string, int, string, int) -> Outcome<seq<Mcq>>,
                            save: (string, string, string, seq<Mcq>) -> Outcome<string>)
    requires s.topicOrQuestion.Some?
    requires generate(s.topicOrQuestion.value, s.numQuestions.GetOr(DefaultNumQuestions), s.difficulty.GetOr(DefaultDifficulty), s.k.GetOr(DefaultK)).Raised?
    ensures var r := RunQuiz(s, generate, save);
      && r.NodeFailure? && r.node == GenerateMcqs && r.visited == []
      && SaveCount(r.calls) == 0
  {
  }

  // ---------- coach graph ----------

  datatype CoachState = CoachState(userId: Option<string>, progress: Option<Coach.ProgressDict>, advice: Option<string>)

  datatype CoachUpdate = ProgressUpdate(progress: Coach.ProgressDict) | AdviceUpdate(advice: string)

  datatype CoachNode = ComputeProgress | Coaching

  const CoachGraph: seq<CoachNode> := [ComputeProgress, Coaching]

  /** Overwrites the one key the update names; every other key keeps its value. */
  function ApplyCoach(s: CoachState, u: CoachUpdate): (r: CoachState)
    ensures r.(progress := s.progress, advice := s.advice) == s
    ensures u.ProgressUpdate? ==> r.progress == Some(u.progress) && r.advice == s.advice
    ensures u.AdviceUpdate? ==> r.advice == Some(u.advice) && r.progress == s.progress
  {
    match u
    case ProgressUpdate(p) => s.(progress := Some(p))
    case AdviceUpdate(a) => s.(advice := Some(a))
  }

  /** `compute_progress_node`: the user's progress summary. */
  function ComputeProgressNode(s: CoachState, progressOf: string -> Outcome<Coach.ProgressDict>): (r: Step<CoachUpdate>)
    ensures r.calls == if s.userId.Some? then [ProgressCall(s.userId.value)] else []
    ensures r.Update? <==> s.userId.Some? && progressOf(s.userId.value).Ok?
    ensures r.Update? ==> r.update == ProgressUpdate(progressOf(s.userId.value).value)
  {
    if s.userId.None? then Fail(MissingKey("user_id"), [])
    else
      var call := ProgressCall(s.userId.value);
      match progressOf(s.userId.value)
      case Ok(p) => Update(ProgressUpdate(p), [call])
      case Raised(e) => Fail(CallRaised(e), [call])
  }

  /** `coaching_node`: the advice on the stored summary, or on `{}` when there is none. */
  function CoachingNode(s: CoachState, advise: Coach.ProgressDict -> string): (r: Step<CoachUpdate>)
    ensures r.Update? && r.calls == [CoachCall(s.progress.GetOr(Coach.EmptyProgress))]
    ensures r.update == AdviceUpdate(advise(r.calls[0].progress))
  {
    var progress := s.progress.GetOr(Coach.EmptyProgress);
    Update(AdviceUpdate(advise(progress)), [CoachCall(progress)])
  }

  function CoachStep(n: CoachNode, s: CoachState, progressOf: string -> Outcome<Coach.ProgressDict>,
                     advise: Coach.ProgressDict -> string): Step<CoachUpdate>
  {
    match n
    case ComputeProgress => ComputeProgressNode(s, progressOf)
    case Coaching => CoachingNode(s, advise)
  }

  /** The coach graph run with any advisor in the coaching node. */
  function RunCoachWith(s: CoachState, progressOf: string -> Outcome<Coach.ProgressDict>,
                        advise: Coach.ProgressDict -> string): Run<CoachState, CoachNode>
  {
    RunNodes(CoachGraph, s, (n, st) => CoachStep(n, st, progressOf, advise), ApplyCoach)
  }

  /** The coach graph as built: the coaching node asks the learning coach, whose model is `chat`. */
  function RunCoach(s: CoachState, progressOf: string -> Outcome<Coach.ProgressDict>,
                    chat: seq<Message> -> Outcome<string>): Run<CoachState, CoachNode>
  {
    RunCoachWith(s, progressOf, d => Coach.CoachingAdvice(d, chat))
  }

  /** Without a stored summary the coaching node advises on `{}`: with the model down, 0% and no weak topics. */
  lemma CoachingWithoutProgress(s: CoachState, chat: seq<Message> -> Outcome<string>)
    requires s.progress.None?
    requires chat(Coach.CoachMessages(Coach.EmptyProgress)).Raised?
    ensures CoachingNode(s, d => Coach.CoachingAdvice(d, chat)).update == AdviceUpdate(Coach.NoDataAdvice())
  {
    Coach.FallbackWithoutKeys("{}");
  }

  lemma CoachRunWithCompletes(s: CoachState, progressOf: string -> Outcome<Coach.ProgressDict>,
                              advise: Coach.ProgressDict -> string)
    requires s.userId.Some? && progressOf(s.userId.value).Ok?
    ensures var p := progressOf(s.userId.value).value;
      var r := RunCoachWith(s, progressOf, advise);
      && r.Completed? && r.visited == CoachGraph
      && r.state == s.(progress := Some(p), advice := Some(advise(p)))
      && r.calls == [ProgressCall(s.userId.value), CoachCall(p)]
  {
    var exec := (n, st) => CoachStep(n, st, progressOf, advise);
    var u := s.userId.value;
    var p := progressOf(u).value;
    RunTwoNodes(ComputeProgress, Coaching, s, exec, ApplyCoach);
    assert exec(ComputeProgress, s) == Update(ProgressUpdate(p), [ProgressCall(u)]);
    var s1 := ApplyCoach(s, ProgressUpdate(p));
    assert exec(Coaching, s1) == Update(AdviceUpdate(advise(p)), [CoachCall(p)]);
  }

  /** A coach run for a known user computes the progress, then advises on exactly that summary. */
  lemma CoachRunCompletes(s: CoachState, progressOf: string -> Outcome<Coach.ProgressDict>,
                          chat: seq<Message> -> Outcome<string>)
    requires s.userId.Some? && progressOf(s.userId.value).Ok?
    ensures var p := progressOf(s.userId.value).value;
      var r := RunCoach(s, progressOf, chat);
      && r.Completed? && r.visited == CoachGraph
      && r.state == s.(progress := Some(p), advice := Some(Coach.CoachingAdvice(p, chat)))
      && r.calls == [ProgressCall(s.userId.value), CoachCall(p)]
  {
    CoachRunWithCompletes(s, progressOf, d => Coach.CoachingAdvice(d, chat));
  }

  /** When the progress computation raises, the coach run fails at compute_progress and the coach is never asked. */
  lemma CoachRunFails(s: CoachState, progressOf: string -> Outcome<Coach.ProgressDict>,
                      chat: seq<Message> -> Outcome<string>)
    requires s.userId.Some? && progressOf(s.userId.value).Raised?
    ensures RunCoach(s, progressOf, chat)
      == NodeFailure(ComputeProgress, CallRaised(progressOf(s.userId.value).error), [], [ProgressCall(s.userId.value)])
  {
    var exec := (n, st) => CoachStep(n, st, progressOf, d => Coach.CoachingAdvice(d, chat));
    RunTwoNodes(ComputeProgress, Coaching, s, exec, ApplyCoach);
  }

  // ---------- explain graph ----------

  datatype ExplainState = ExplainState(
    question: Option<string>,
    level: Option<string>,
    k: Option<int>,
    contextChunks: Option<seq<string>>,
    explanation: Option<string>)

  datatype ExplainUpdate = ChunksUpdate(chunks: seq<string>) | ExplanationUpdate(explanation: string)

  datatype ExplainNode = RetrieveContext | GenerateExplanation

  const ExplainGraph: seq<ExplainNode> := [RetrieveContext, GenerateExplanation]

  /** Overwrites the one key the update names; every other key keeps its value. */
  function ApplyExplain(s: ExplainState, u: ExplainUpdate): (r: ExplainState)
    ensures r.(contextChunks := s.contextChunks, explanation := s.explanation) == s
    ensures u.ChunksUpdate? ==> r.contextChunks == Some(u.chunks) && r.explanation == s.explanation
    ensures u.ExplanationUpdate? ==> r.explanation == Some(u.explanation) && r.contextChunks == s.contextChunks
  {
    match u
    case ChunksUpdate(c) => s.(contextChunks := Some(c))
    case ExplanationUpdate(e) => s.(explanation := Some(e))
  }

  /** `retrieve_context_node`: the texts of the top-k hits, k defaulting to 5; a raising search fails the node. */
  function RetrieveContextNode(s: ExplainState, search: (string, int) -> Outcome<seq<(string, real)>>): (r: Step<ExplainUpdate>)
    ensures r.calls == if s.question.Some? then [SearchCall(s.question.value, s.k.GetOr(DefaultK))] else []
    ensures r.Update? <==> s.question.Some? && search(s.question.value, s.k.GetOr(DefaultK)).Ok?
    ensures r.Update? ==> r.update.ChunksUpdate?
  {
    if s.question.None? then Fail(MissingKey("question"), [])
    else
      var k := s.k.GetOr(DefaultK);
      var call := SearchCall(s.question.value, k);
      match search(s.question.value, k)
      case Ok(hits) => Update(ChunksUpdate(Explainer.HitTexts(hits)), [call])
      case Raised(e) => Fail(CallRaised(e), [call])
  }

  /**
   * `generate_explanation_node`: the explanation of the question from the stored
   * chunks, level defaulting to "simple" and chunks to none.
   */
  function GenerateExplanationNode(s: ExplainState, explain: (string, string, seq<string>) -> Outcome<string>): (r: Step<ExplainUpdate>)
    ensures s.question.None? ==> r == Fail(MissingKey("question"), [])
    ensures s.question.Some? ==>
      var call := ExplainCall(s.question.value, s.level.GetOr(Explainer.DefaultLevel), s.contextChunks.GetOr([]));
      var out := explain(call.question, call.level, call.chunks);
      && r.calls == [call]
      && (r.Update? <==> out.Ok?)
      && (out.Ok? ==> r.update == ExplanationUpdate(out.value))
      && (out.Raised? ==> r.cause == CallRaised(out.error))
  {
    if s.question.None? then Fail(MissingKey("question"), [])
    else
      var level := s.level.GetOr(Explainer.DefaultLevel);
      var chunks := s.contextChunks.GetOr([]);
      var call := ExplainCall(s.question.value, level, chunks);
      match explain(s.question.value, level, chunks)
      case Ok(text) => Update(ExplanationUpdate(text), [call])
      case Raised(e) => Fail(CallRaised(e), [call])
  }

  function ExplainStep(n: ExplainNode, s: ExplainState, search: (string, int) -> Outcome<seq<(string, real)>>,
                       explain: (string, string, seq<string>) -> Outcome<string>): Step<ExplainUpdate>
  {
    match n
    case RetrieveContext => RetrieveContextNode(s, search)
    case GenerateExplanation => GenerateExplanationNode(s, explain)
  }

  /** The explain graph run with any explainer in the generation node. */
  function RunExplainWith(s: ExplainState, search: (string, int) -> Outcome<seq<(string, real)>>,
                          explain: (string, string, seq<string>) -> Outcome<string>): Run<ExplainState, ExplainNode>
  {
    RunNodes(ExplainGraph, s, (n, st) => ExplainStep(n, st, search, explain), ApplyExplain)
  }

  /** What `explain_from_context` answers when its model is `chat`. */
  function ExplainWithModel(chat: seq<Message> -> Outcome<string>): (string, string, seq<string>) -> Outcome<string>
  {
    (q, level, chunks) => chat(Explainer.ExplanationMessages(q, level, chunks))
  }

  /** The explain graph as built: the generation node explains from context, with the model `chat`. */
  function RunExplain(s: ExplainState, search: (string, int) -> Outcome<seq<(string, real)>>,
                      chat: seq<Message> -> Outcome<string>): Run<ExplainState, ExplainNode>
  {
    RunExplainWith(s, search, ExplainWithModel(chat))
  }

  /**
   * Retrieval asks the search once; it stores the hit texts, in rank order, one
   * per hit, or fails the node with the search's error.
   */
  lemma RetrieveStoresHitTexts(s: ExplainState, search: (string, int) -> Outcome<seq<(string, real)>>)
    requires s.question.Some?
    ensures var q := s.question.value;
      var k := s.k.GetOr(DefaultK);
      var st := RetrieveContextNode(s, search);
      && st.calls == [SearchCall(q, k)]
      && match search(q, k)
         case Ok(hits) =>
           && st.Update? && st.update.ChunksUpdate?
           && |st.update.chunks| == |hits|
           && forall i :: 0 <= i < |hits| ==> st.update.chunks[i] == hits[i].0
         case Raised(e) => st == Fail(CallRaised(e), [SearchCall(q, k)])
  {
  }

  /** Without stored level and chunks, the explanation is asked at level "simple" with no context. */
  lemma GenerateExplanationDefaults(s: ExplainState, explain: (string, string, seq<string>) -> Outcome<string>)
    requires s.question.Some? && s.level.None? && s.contextChunks.None?
    ensures GenerateExplanationNode(s, explain).calls == [ExplainCall(s.question.value, Explainer.DefaultLevel, [])]
  {
  }

  /**
   * An explain run for a question with any explainer: a raising search fails
   * the run at retrieve_context before anything is explained; otherwise the run
   * searches, then explains from the hit texts, and ends with the explanation
   * or fails at generate_explanation.
   */
  lemma ExplainRunWithEnds(s: ExplainState, search: (string, int) -> Outcome<seq<(string, real)>>,
                           explain: (string, string, seq<string>) -> Outcome<string>)
    requires s.question.Some?
    ensures var q := s.question.value;
      var k := s.k.GetOr(DefaultK);
      var level := s.level.GetOr(Explainer.DefaultLevel);
      var r := RunExplainWith(s, search, explain);
      match search(q, k)
      case Raised(e) => r == NodeFailure(RetrieveContext, CallRaised(e), [], [SearchCall(q, k)])
      case Ok(hits) =>
        var chunks := Explainer.HitTexts(hits);
        && r.calls == [SearchCall(q, k), ExplainCall(q, level, chunks)]
        && match explain(q, level, chunks)
           case Ok(text) =>
             && r.Completed? && r.visited == ExplainGraph
             && r.state == s.(contextChunks := Some(chunks), explanation := Some(text))
           case Raised(e) =>
             && r.NodeFailure? && r.node == GenerateExplanation && r.visited == [RetrieveContext]
             && r.cause == CallRaised(e)
  {
    var exec := (n, st) => ExplainStep(n, st, search, explain);
    var q := s.question.value;
    var k := s.k.GetOr(DefaultK);
    RunTwoNodes(RetrieveContext, GenerateExplanation, s, exec, ApplyExplain);
    match search(q, k)
    case Raised(e) =>
      assert exec(RetrieveContext, s) == Fail(CallRaised(e), [SearchCall(q, k)]);
    case Ok(hits) =>
      var chunks := Explainer.HitTexts(hits);
      var s1 := ApplyExplain(s, ChunksUpdate(chunks));
      assert exec(RetrieveContext, s) == Update(ChunksUpdate(chunks), [SearchCall(q, k)]);
      assert exec(GenerateExplanation, s1) == GenerateExplanationNode(s1, explain);
  }

  /** When the search raises, the explain run fails at retrieve_context and the model is never asked. */
  lemma ExplainRunSearchFails(s: ExplainState, search: (string, int) -> Outcome<seq<(string, real)>>,
                              chat: seq<Message> -> Outcome<string>)
    requires s.question.Some? && search(s.question.value, s.k.GetOr(DefaultK)).Raised?
    ensures var q := s.question.value;
      var k := s.k.GetOr(DefaultK);
      RunExplain(s, search, chat)
        == NodeFailure(RetrieveContext, CallRaised(search(q, k).error), [], [SearchCall(q, k)])
  {
    ExplainRunWithEnds(s, search, ExplainWithModel(chat));
  }

  /**
   * An explain run for a question retrieves the context and explains from it at
   * the stored or default level; when the search and the model answer, the run
   * ends with exactly the answer that explaining from that context gives.
   */
  lemma ExplainRunCompletes(s: ExplainState, search: (string, int) -> Outcome<seq<(string, real)>>,
                            chat: seq<Message> -> Outcome<string>)
    requires s.question.Some? && search(s.question.value, s.k.GetOr(DefaultK)).Ok?
    requires var q := s.question.value;
      var hits := search(q, s.k.GetOr(DefaultK)).value;
      chat(Explainer.ExplanationMessages(q, s.level.GetOr(Explainer.DefaultLevel), Explainer.HitTexts(hits))).Ok?
    ensures var q := s.question.value;
      var k := s.k.GetOr(DefaultK);
      var chunks := Explainer.HitTexts(search(q, k).value);
      var level := s.level.GetOr(Explainer.DefaultLevel);
      var r := RunExplain(s, search, chat);
      && r.Completed? && r.visited == ExplainGraph
      && r.state == s.(contextChunks := Some(chunks),
                       explanation := Some(chat(Explainer.ExplanationMessages(q, level, chunks)).value))
      && r.calls == [SearchCall(q, k), ExplainCall(q, level, chunks)]
  {
    ExplainRunWithEnds(s, search, ExplainWithModel(chat));
  }

  /** When the search answers and the model raises, the explain run fails at generate_explanation, after retrieval. */
  lemma ExplainRunFails(s: ExplainState, search: (string, int) -> Outcome<seq<(string, real)>>,
                        chat: seq<Message> -> Outcome<string>)
    requires s.question.Some? && search(s.question.value, s.k.GetOr(DefaultK)).Ok?
    requires var q := s.question.value;
      var hits := search(q, s.k.GetOr(DefaultK)).value;
      chat(Explainer.ExplanationMessages(q, s.level.GetOr(Explainer.DefaultLevel), Explainer.HitTexts(hits))).Raised?
    ensures var q := s.question.value;
      var k := s.k.GetOr(DefaultK);
      var chunks := Explainer.HitTexts(search(q, k).value);
      var level := s.level.GetOr(Explainer.DefaultLevel);
      var r := RunExplain(s, search, chat);
      && r.NodeFailure? && r.node == GenerateExplanation && r.visited == [RetrieveContext]
      && r.cause == CallRaised(chat(Explainer.ExplanationMessages(q, level, chunks)).error)
      && r.calls == [SearchCall(q, k), ExplainCall(q, level, chunks)]
  {
    ExplainRunWithEnds(s, search, ExplainWithModel(chat));
  }
}

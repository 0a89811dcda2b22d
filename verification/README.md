# School in a Box: progress, coaching, explanation, workflows and quiz session

This project models the learning core of School in a Box in Dafny and proves
properties of that model. The core has five parts:

- **Learner progress** (`compute_progress`). It folds a user's stored quiz
  responses and the quiz documents they refer to into an overall accuracy,
  per-topic statistics in first-seen order, and per-quiz sessions sorted newest
  first. A helper hands that summary to the learning coach.
- **Learning coach** (`get_coaching_advice`). It sends a fixed prompt, with the
  rendered summary inside, to the language model. When the call raises, it
  builds a rule-based message instead: the accuracy percentage, the weak topics
  (mastery below 0.6) and a tip.
- **Explainer agent**. It explains pasted text at a level. It also explains a
  question from context chunks, each labelled `[Chunk i]`, or from the top-k
  hits of a similarity search.
- **Workflow graphs**. There are three straight-line graphs: quiz
  (generate_mcqs → save_quiz), coach (compute_progress → coaching) and explain
  (retrieve_context → generate_explanation). A run applies each node's partial
  update by overwriting the key it names, and a node that raises ends the run
  with a failure naming that node.
- **Quiz session of the web front end**. It covers the per-browser session
  state, the user-id and current-quiz helpers, and the "Submit Answers" scoring
  loop.

Modules:

- `Common` (common.dfy): Option, Outcome (a value, or a raised error), chat
  messages and the MCQ record.
- `Text` (text.dfy): decimal rendering, `sep.join`, `str.strip`.
- `Progress` (progress.dfy)
- `Coach` (coach.dfy)
- `Explainer` (explainer.dfy)
- `Graphs` (graphs.dfy)
- `Session` (session.dfy)

Each collaborator the core calls but does not contain is a function parameter:

- the language model `chat`;
- the vector search `search`;
- quiz generation and quiz storage;
- progress computation, inside the coach graph.

Each returns an Outcome: its result, or the error it raised.

The database reads become sequence parameters. The clock becomes the parameter
`now`, one reading for the whole computation (see "Left out"). Each `save_response` call becomes a returned record.

Where the code and the design description of the system disagree, the model
follows the code:

- The code's coach graph stores its summary under `progress`, and
  `compute_progress` produces no ranked `weakest_topics` list.
- The code's quiz graph does not validate the generator's output. An empty MCQ
  list makes `save_quiz` store `None` without saving anything.
- The code's explain graph has no "raw" mode. It always retrieves, and it
  defaults the level to "simple" and k to 5.

## Model

| member | source | states |
|---|---|---|
| Progress.IndexQuizzes | school_in_a_box/services/progress.py:70-74 | the quiz-by-id map holds exactly the ids of the fetched documents, each mapped to a document with that id |
| Progress.EntryOf | school_in_a_box/services/progress.py:84-92 | a counted response is correct exactly when `is_correct` is present and true; a quiz without a topic gives topic "Unknown" |
| Progress.EntriesEmpty | school_in_a_box/services/progress.py:84-86 | no response is counted exactly when every response has a non-ObjectId quiz id or an id with no fetched quiz |
| Progress.EntriesAppend | school_in_a_box/services/progress.py:83-92 | the counted responses of a concatenation are those of each part, in order |
| Progress.SkippedResponseIgnored | school_in_a_box/services/progress.py:84-86 | a response that is skipped, wherever it stands, changes nothing in the summary |
| Progress.AllSkippedGivesEmptySummary | school_in_a_box/services/progress.py:60-68 | when every response is skipped the summary equals the no-data summary: accuracy 0.0, 0 answered, no topics, no sessions |
| Progress.KeyOrder | school_in_a_box/services/progress.py:100-106 | the topic (or quiz) keys are distinct and are exactly the keys with at least one counted response |
| Progress.GroupMembers | school_in_a_box/services/progress.py:100-109 | a topic's (or quiz's) group holds exactly the counted responses with that key |
| Progress.KeyOrderPrefix | school_in_a_box/services/progress.py:100-106 | the keys seen after any prefix of the responses are a prefix of the final key order (first-seen insertion order) |
| Progress.GroupSizesOfOrder | school_in_a_box/services/progress.py:95-124 | the group sizes over all keys add up to the number of counted responses |
| Progress.LatestAtIsMaximum | school_in_a_box/services/progress.py:111-130 | the latest-timestamp fold gives a value that bounds every timestamp of the group and is one of them |
| Progress.StatSnoc | school_in_a_box/services/progress.py:100-113 | one more response adds 1 to the total, adds 1 to correct iff it is correct, and raises the latest time only if it is later |
| Progress.Ratio | school_in_a_box/services/progress.py:135-165 | `correct / max(total, 1)` lies in [0, 1] when correct ≤ total; it is 0 when nothing is correct (so the no-answer case gives 0.0); with a positive total, ratio times total is correct |
| Progress.Summarize | school_in_a_box/services/progress.py:55-173 | the summary keeps the user id, is the empty summary without responses, and counts at most one question per response; its properties are the lemmas QuestionTotalsAgree, AccuraciesBounded, LatestTimesAreMaxima, TopicsInFirstSeenOrder and SessionsNewestFirst below |
| Progress.TopicSummaryOf | school_in_a_box/services/progress.py:133-144 | a topic row keeps its name, has at least one question and an accuracy in [0, 1] |
| Progress.SessionSummaryOf | school_in_a_box/services/progress.py:146-159 | a session row keeps its quiz id, has at least one question and a score in [0, 1] |
| Progress.TopicSummaries | school_in_a_box/services/progress.py:133-144 | one topic row per topic, in topic order |
| Progress.SessionSummaries | school_in_a_box/services/progress.py:146-159 | one session row per quiz, in first-seen quiz order |
| Progress.InsertByTime | school_in_a_box/services/progress.py:161-162 | inserting a session adds exactly that session to the list's multiset |
| Progress.SortNewestFirst | school_in_a_box/services/progress.py:161-162 | the sorted sessions are a permutation of the input |
| Progress.InsertByTimeNewestFirst | school_in_a_box/services/progress.py:161-162 | inserting into a newest-first list keeps it newest first |
| Progress.InsertByTimeStable | school_in_a_box/services/progress.py:161-162 | among sessions completed at any one time, the inserted one comes first and the others keep their order |
| Progress.SortNewestFirstCorrect | school_in_a_box/services/progress.py:161-162 | the sort is newest first, a permutation, and stable: sessions with equal times keep their order |
| Progress.QuestionTotalsAgree | school_in_a_box/services/progress.py:95-170 | total_questions_answered equals the sum of the topics' num_questions and the sum of the sessions' num_questions |
| Progress.AccuraciesBounded | school_in_a_box/services/progress.py:135-165 | overall accuracy, each topic accuracy and each session score lie in [0, 1]; every row has at least one question |
| Progress.TopicTimesAreMaxima | school_in_a_box/services/progress.py:100-113 | each topic's last_answered_at is the maximum answered_at over its counted responses |
| Progress.SessionTimesAreMaxima | school_in_a_box/services/progress.py:116-130 | each quiz's completed_at is the maximum answered_at over its counted responses |
| Progress.LatestTimesAreMaxima | school_in_a_box/services/progress.py:100-162 | in the returned summary, both maxima hold for every topic and for every (sorted) session |
| Progress.TopicsInFirstSeenOrder | school_in_a_box/services/progress.py:100-144 | topic names are distinct, in first-seen order, and are exactly the topics of the counted responses |
| Progress.EntriesFrom | school_in_a_box/services/progress.py:83-92 | every counted entry comes from a counted response |
| Progress.SessionsNewestFirst | school_in_a_box/services/progress.py:146-162 | recent_sessions is newest first, a permutation of the first-seen sessions, and stable for equal times |
| Progress.RecordTopic | school_in_a_box/services/progress.py:99-113 | one loop step keeps the topic table equal to the per-topic counts and latest times of the responses seen so far, in first-seen order |
| Progress.RecordQuiz | school_in_a_box/services/progress.py:115-130 | one loop step keeps the quiz table equal to the per-quiz counts, first topic and latest times of the responses seen so far |
| Progress.EntriesStep | school_in_a_box/services/progress.py:83-92 | one more response adds its entry when it is counted and nothing when it is skipped |
| Progress.RecordEntry | school_in_a_box/services/progress.py:94-130 | one counted response keeps both counters and both tables equal to the statistics of the responses counted so far |
| Progress.Aggregate | school_in_a_box/services/progress.py:76-130 | the aggregation loop's counters and both tables equal those of the counted responses |
| Progress.ComputeProgress | school_in_a_box/services/progress.py:24-173 | the imperative computation returns exactly the summary function's result; no responses gives 0.0, 0, [] and [] |
| Progress.GetCoachingForUser | school_in_a_box/services/progress.py:176-185 | the coach's reply is returned unchanged; when the model raises, the answer is always the 0%, no-weak-topics fallback, because the summary has none of the keys the fallback reads |
| Coach.PromptHeadStart | school_in_a_box/agents/learning_coach.py:29-31 | the stripped coach template starts with "ROLE:", a non-space character |
| Coach.PromptTailEnd | school_in_a_box/agents/learning_coach.py:55-57 | the stripped coach template ends with a full stop, a non-space character |
| Coach.CoachPromptIsStripped | school_in_a_box/agents/learning_coach.py:28-57 | stripping the template removes only its outer newlines: the rendered summary is embedded verbatim, whatever whitespace it holds |
| Coach.CoachPrompt | school_in_a_box/agents/learning_coach.py:28-57 | the prompt is the template's head, the rendered summary, and its tail; CoachPromptIsStripped proves that this is the stripped template |
| Coach.CoachMessages | school_in_a_box/agents/learning_coach.py:72-77 | the chat is the system message, then the prompt as the user message; GetCoachingAdvice states that this is what is sent |
| Coach.Truncate | school_in_a_box/agents/learning_coach.py:90 | `int(x)` truncates toward zero: the result is within 1 of x, on the side of zero |
| Coach.Percent | school_in_a_box/agents/learning_coach.py:88-90 | the accuracy is 0 when total_questions is not positive |
| Coach.PercentBounds | school_in_a_box/agents/learning_coach.py:88-90 | with 0 ≤ correct ≤ total, the accuracy p lies in [0, 100] and is the floor of 100·correct/total: p·total ≤ 100·correct < (p+1)·total |
| Coach.IsWeakInIntegers | school_in_a_box/agents/learning_coach.py:96-102 | a topic is weak iff its total is positive and 5·correct < 3·total, i.e. mastery below 0.6 |
| Coach.WeakTopicNamesAppend | school_in_a_box/agents/learning_coach.py:94-102 | the weak topics of a concatenation are those of each part, in order |
| Coach.WeakTopicNamesMembers | school_in_a_box/agents/learning_coach.py:94-102 | a name is listed iff some topic entry with that name is weak |
| Coach.CollectWeakTopics | school_in_a_box/agents/learning_coach.py:92-102 | the loop collects exactly the weak topic names, in topic_stats order |
| Coach.AdviceText | school_in_a_box/agents/learning_coach.py:104-118 | the fallback text: unavailable line, accuracy line, weak-topic or practice line, tip; AdviceTextDetermines proves the text determines the percentage and whether any topic was weak |
| Coach.AdviceTextDetermines | school_in_a_box/agents/learning_coach.py:104-118 | the fallback message determines the accuracy and whether any topic was weak |
| Coach.FallbackAdvice | school_in_a_box/agents/learning_coach.py:83-120 | the append-by-append construction equals the fallback message: unavailable line, accuracy line, weak-topic or practice line, tip |
| Coach.Fallback | school_in_a_box/agents/learning_coach.py:83-120 | the fallback message for a summary, from its three keys with 0 and no topics as defaults; FallbackAdvice and FallbackWithoutKeys state what it is |
| Coach.FallbackWithoutKeys | school_in_a_box/agents/learning_coach.py:85-92 | a summary without total_questions, correct_answers and topic_stats gets 0% and the practice line |
| Coach.CoachingAdvice | school_in_a_box/agents/learning_coach.py:61-120 | the model's reply, or the fallback when the model raises; GetCoachingAdvice proves the method equals it and states both cases |
| Coach.GetCoachingAdvice | school_in_a_box/agents/learning_coach.py:61-120 | sends the system message and the stripped prompt; the model's reply is returned unchanged when it succeeds, and the fallback is used only when it raises |
| Explainer.RawHeadStart | school_in_a_box/agents/explainer.py:13-14 | the stripped explainer template starts with "You", a non-space character |
| Explainer.ExplainerPrompt | school_in_a_box/agents/explainer.py:11-25 | the stripped template around level and content; ExplainerPromptEmbeds proves both appear verbatim |
| Explainer.ExplainerPromptEmbeds | school_in_a_box/agents/explainer.py:11-25 | stripping removes only the template's outer newlines: level and content appear verbatim, the content between triple quotes |
| Explainer.ExplainRawText | school_in_a_box/agents/explainer.py:28-35 | the answer is the model's outcome for the plain system message and the stripped prompt |
| Explainer.FallbackPrompt | school_in_a_box/agents/explainer.py:47-56 | the no-context prompt around question and level; FallbackHasNoChunkLabel proves it carries no chunk label |
| Explainer.ContextPrompt | school_in_a_box/agents/explainer.py:68-83 | the context prompt around question, context and level, not stripped |
| Explainer.ExplanationMessages | school_in_a_box/agents/explainer.py:47-91 | the fallback chat when there is no chunk, the context chat otherwise; ExplainFromContext proves the loop sends exactly this |
| Explainer.LabelledChunks | school_in_a_box/agents/explainer.py:63-65 | one labelled part per chunk; part i is "[Chunk i+1]", a newline and chunk i |
| Explainer.ChunkPartInjective | school_in_a_box/agents/explainer.py:64-65 | two labelled parts are equal only for the same position and the same text |
| Explainer.ContextStringShape | school_in_a_box/agents/explainer.py:66 | the context holds the n labelled chunks and n−1 blank-line separators, opens with chunk 1 and closes with chunk n |
| Explainer.FallbackHasNoChunkLabel | school_in_a_box/agents/explainer.py:47-56 | without chunks the prompt has no '[' other than those of the question and level, so no chunk label |
| Explainer.ExplainFromContext | school_in_a_box/agents/explainer.py:38-91 | no chunks: the fallback prompt with the plain system message; otherwise the context prompt with the context system message; the model's outcome is returned |
| Explainer.HitTexts | school_in_a_box/agents/explainer.py:108 | the chunk texts are the hit texts, in rank order, scores dropped |
| Explainer.HitTextsIgnoreScores | school_in_a_box/agents/explainer.py:108 | hits that differ only in scores give the same context |
| Explainer.ExplainWithRetrieval | school_in_a_box/agents/explainer.py:94-109 | a raising search raises out of the explainer with its error and the model is not asked; otherwise it explains from the top-k hit texts, and with no hit it is the no-context explanation |
| Graphs.RunVisitsInOrder | school_in_a_box/backend/graphs.py:62-132 | a completed run visits exactly the graph's nodes in order; a failed run stops at a node after a prefix of them |
| Graphs.RunTwoNodes | school_in_a_box/backend/graphs.py:62-132 | a two-node run: first node fails → failure naming it, nothing more; else the second runs on the updated state, and its failure or the twice-updated state ends the run |
| Graphs.RunNodes | school_in_a_box/backend/graphs.py:62-132 | a completed run visited as many nodes as the graph has, a failed run fewer; a failing first node ends the run there; RunVisitsInOrder and RunTwoNodes state the order |
| Graphs.ApplyQuiz | school_in_a_box/backend/graphs.py:20-55 | a node's update overwrites only the key it returns; every other key is kept |
| Graphs.GenerateMcqsNode | school_in_a_box/backend/graphs.py:34-41 | a missing topic fails the node; otherwise exactly one generation call with count, difficulty and k defaulted, and the node stores the MCQs or fails with the generator's error |
| Graphs.SaveQuizNode | school_in_a_box/backend/graphs.py:44-55 | it stores a quiz id, and the id is present iff there are MCQs; no MCQs stores None with no call; at most one save call, with the state's user, topic, source and MCQs |
| Graphs.GenerateUsesDefaults | school_in_a_box/backend/graphs.py:34-41 | without the optional keys, generation is called with 5 questions, "medium" and k = 5 |
| Graphs.NoMcqsNoSave | school_in_a_box/backend/graphs.py:44-47 | with no or empty MCQs, save_quiz stores quiz_id None and calls nothing |
| Graphs.QuizWithoutQuestions | school_in_a_box/backend/graphs.py:34-64 | a generator returning no MCQs completes the run with quiz_id None and no save call |
| Graphs.QuizWithQuestions | school_in_a_box/backend/graphs.py:34-64 | non-empty MCQs are saved exactly once with the state's user, topic and source; the saved id ends up in the state, or a raising save fails at save_quiz |
| Graphs.QuizGenerationFails | school_in_a_box/backend/graphs.py:34-64 | a raising generator fails the run at generate_mcqs, with no node completed and nothing saved |
| Graphs.ApplyCoach | school_in_a_box/backend/graphs.py:71-85 | a node's update overwrites only the key it returns |
| Graphs.ComputeProgressNode | school_in_a_box/backend/graphs.py:77-79 | one progress call for the state's user; the node stores the progress iff the user is present and the call returns |
| Graphs.CoachingNode | school_in_a_box/backend/graphs.py:82-85 | the node never fails; it advises on the stored progress, or on `{}` without one, and stores that advice |
| Graphs.CoachingWithoutProgress | school_in_a_box/backend/graphs.py:82-85 | without progress the coaching node passes `{}`; if the model raises, the advice is the no-data fallback |
| Graphs.CoachRunWithCompletes | school_in_a_box/backend/graphs.py:77-94 | for any advice function, when progress succeeds both nodes run, the state gains the progress and its advice, and the calls are progress then coach |
| Graphs.CoachRunCompletes | school_in_a_box/backend/graphs.py:77-94 | when progress succeeds the coach run completes with the progress and the coach's advice for it (which never raises) |
| Graphs.CoachRunFails | school_in_a_box/backend/graphs.py:77-94 | when progress raises the run fails at compute_progress and the coach is never called |
| Graphs.ApplyExplain | school_in_a_box/backend/graphs.py:101-123 | a node's update overwrites only the key it returns |
| Graphs.RetrieveContextNode | school_in_a_box/backend/graphs.py:112-115 | one search call for the question with k defaulting to 5; the node stores chunks iff the question is present and the search returns |
| Graphs.GenerateExplanationNode | school_in_a_box/backend/graphs.py:118-123 | a missing question fails the node; otherwise one explain call with level "simple" and no chunks as defaults, and the node stores the explanation or fails with the error |
| Graphs.RetrieveStoresHitTexts | school_in_a_box/backend/graphs.py:112-115 | retrieve_context calls the search once (k defaults to 5); it stores the hit texts in rank order, or fails with the search's error |
| Graphs.GenerateExplanationDefaults | school_in_a_box/backend/graphs.py:118-123 | without level or chunks, the explanation is asked at level "simple" with no chunks |
| Graphs.ExplainRunWithEnds | school_in_a_box/backend/graphs.py:112-132 | for any explainer: a raising search fails the run at retrieve_context with only the search call made; otherwise the run searches then explains, and success completes with chunks and explanation stored while a raise fails at generate_explanation |
| Graphs.ExplainRunSearchFails | school_in_a_box/backend/graphs.py:112-132 | when the search raises, the run fails at retrieve_context with that error, no node completed, and the model never asked |
| Graphs.ExplainRunCompletes | school_in_a_box/backend/graphs.py:112-132 | when the search and the model answer, the run completes with the hit texts and the model's explanation of them |
| Graphs.ExplainRunFails | school_in_a_box/backend/graphs.py:112-132 | when the search answers and the model raises, the run fails at generate_explanation after retrieve_context, with that error as cause |
| Session.ChoiceKeyInjective | school_in_a_box/app.py:229-238 | each question has its own `quiz_q_{i}_choice` widget key |
| Session.ChoiceKeyIsNoQuizKey | school_in_a_box/app.py:29-229 | no answer key is one of the user, quiz-id, MCQ or submitted keys |
| Session.WithUserId | school_in_a_box/app.py:26-30 | after get_user_id the session always has a user id |
| Session.WithUserIdIdempotent | school_in_a_box/app.py:26-30 | calling get_user_id again changes nothing |
| Session.WithUserIdKeepsOthers | school_in_a_box/app.py:28-30 | every existing key, the user id included, keeps its value; "demo-user" is stored only when no user id exists |
| Session.WithQuiz | school_in_a_box/app.py:33-47 | set_current_quiz adds exactly the quiz-id, MCQ and submitted keys |
| Session.CurrentQuizOf | school_in_a_box/app.py:50-56 | the current quiz is present iff both the quiz id and the MCQ list are present and truthy, and then it is those two values |
| Session.StoredQuizIsCurrent | school_in_a_box/app.py:33-56 | a stored quiz is current iff its id and MCQ list are non-empty; it is not submitted; earlier answers are kept |
| Session.Chosen | school_in_a_box/app.py:238 | the chosen option is the stored answer of the question's widget, or 0 when it has none |
| Session.Responses | school_in_a_box/app.py:237-253 | one response per question, index i, with the session's user and the quiz id; chosen is the stored answer or 0; correct iff chosen equals the correct index |
| Session.CorrectCountBounds | school_in_a_box/app.py:234-243 | 0 ≤ correct_count ≤ total; full iff every answer is correct, zero iff none is |
| Session.Session.constructor | school_in_a_box/app.py:26-30 | a new session holds no key |
| Session.Session.CurrentQuiz | school_in_a_box/app.py:50-56 | get_current_quiz reads the session's current quiz |
| Session.Session.GetUserId | school_in_a_box/app.py:26-30 | stores "demo-user" only when no user id is set and returns the stored id, unchanged if it existed |
| Session.Session.SetCurrentQuiz | school_in_a_box/app.py:33-47 | stores the quiz id, the MCQs in order and quiz_submitted = False; the quiz is then current iff id and list are non-empty |
| Session.Session.ScoreAnswers | school_in_a_box/app.py:233-253 | the loop saves exactly the responses above, in question order, and correct_count is their number of correct ones, at most the number of questions |
| Session.Session.SubmitAnswers | school_in_a_box/app.py:233-253 | scores and saves as above, then sets quiz_submitted to True and changes no other key |

## Left out

- Database access is not part of this model: the response and quiz queries of
  `compute_progress`, `save_quiz` and `save_response`. The fetched records are
  parameters, and `save_response` calls are returned as records. Database
  failures are not modelled.
- Progress.Aggregate: the clock is one reading, the parameter `now`, used for
  every counted response without `answered_at`. The source calls
  `datetime.utcnow()` once per counted response, so those responses get
  non-decreasing and possibly different times. The model can give them equal
  times where the source does not. This changes which time counts as the
  latest (`last_answered_at`, `completed_at`) and the order of sessions in
  `recent_sessions`. The same holds for Progress.Summarize and
  Progress.ComputeProgress.
- Timestamps are integers. The source sorts sessions by the isoformat string;
  for naive datetimes that string orders like the timestamp.
- ObjectIds are natural numbers, and `str(quiz_id)` keeps the number.
- Progress.Ratio: accuracies and scores are exact rationals (`real`), not
  floating point.
- Coach.Percent: the percentage truncates the exact ratio times 100. Floating
  point can round below that: 29/100*100 gives 28.999… in floats, so the
  source prints 28 where the model gives 29.
- Coach.GetCoachingAdvice: the summary dictionary is a text rendering plus the
  three keys the fallback reads. The rendering (`str(dict)`) is a parameter of
  the caller, and key values of other types are not modelled.
- The language model, the embeddings, the vector store's similarity search,
  quiz generation and quiz storage are function parameters. Their internals,
  OCR and ingestion are not part of this model.
- The workflow engine is modelled as a fold over each graph's fixed node list
  with overwrite semantics. Parallel branches, conditional edges, retries and
  timeouts are not modelled, because none of the three graphs uses them.
- A `state["key"]` lookup of an absent key fails the node (`MissingKey`). The
  lemmas assume the input keys the callers always supply.
- Session.Chosen: an answer key holding something other than an integer option
  index is excluded by a precondition. The option widgets only ever store an
  index.
- Session truthiness covers the stored value kinds: strings, flags, integers
  and MCQ lists.
- The Streamlit rendering in app.py is not part of this model: tabs, widgets,
  spinners, the score message and the answer reveal.
- The top-level app.py, main.py, the older agents/explainer.py and the
  ingestion, embedding, LLM-client and OCR modules are not part of this model.
- Concurrency is not modelled. Each run and each session is sequential.

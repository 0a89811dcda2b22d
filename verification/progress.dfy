/**
 * The learner-progress service: folds a user's quiz responses and the quiz
 * documents they refer to into an overall accuracy, per-topic statistics in
 * first-seen order and per-quiz sessions sorted newest first; and the
 * convenience helper that hands that summary to the learning coach.
 *
 * The database reads of the source are replaced by parameters: the user's
 * responses and the quiz documents arrive as sequences, and the clock value
 * used for a response without a timestamp is the parameter `now`.
 */
module Progress {
  import opened Common
  import Coach

  // ---------- records ----------

  /** The `quiz_id` stored on a response: a database ObjectId, or anything else. */
  datatype QuizRef = ObjectId(oid: nat) | NotObjectId

  /** A stored quiz response; `None` stands for a key that is not present. */
  datatype Response = Response(quizId: QuizRef, isCorrect: Option<bool>, answeredAt: Option<int>)

  /** A stored quiz document, as far as progress reads it. */
  datatype QuizDoc = QuizDoc(id: nat, topic: Option<string>)

  /** A response that is counted, with its defaults applied and its quiz's topic looked up. */
  datatype Entry = Entry(quiz: nat, topic: string, correct: bool, at: int)

  /** One row of `topic_stats`: correct and total counts and the latest answer time. */
  datatype Stat = Stat(correct: nat, total: nat, latest: int)

  /** One row of `quiz_stats`: as `Stat`, plus the topic fixed at the quiz's first response. */
  datatype QuizStat = QuizStat(topic: string, correct: nat, total: nat, latest: int)

  datatype TopicSummary = TopicSummary(name: string, accuracy: real, numQuestions: nat, lastAnsweredAt: int)

  datatype SessionSummary = SessionSummary(quizId: nat, topic: string, score: real, numQuestions: nat, completedAt: int)

  /** The dictionary `compute_progress` returns. */
  datatype Summary = Summary(
    userId: string,
    overallAccuracy: real,
    totalQuestionsAnswered: nat,
    topics: seq<TopicSummary>,
    recentSessions: seq<SessionSummary>)

  const UnknownTopic: string := "Unknown"

  function EmptySummary(userId: string): Summary {
    Summary(userId, 0.0, 0, [], [])
  }

  // ---------- which responses count ----------

  /** `{q["_id"]: q for q in quiz_docs}`: a later document with the same id wins. */
  function IndexQuizzes(quizzes: seq<QuizDoc>): (byId: map<nat, QuizDoc>)
    ensures forall id :: id in byId <==> exists q :: q in quizzes && q.id == id
    ensures forall id :: id in byId ==> byId[id].id == id && byId[id] in quizzes
  {
    if quizzes == [] then map[]
    else
      var q := quizzes[|quizzes| - 1];
      var before := IndexQuizzes(quizzes[..|quizzes| - 1]);
      assert forall p :: p in quizzes[..|quizzes| - 1] ==> p in quizzes;
      assert forall p :: p in quizzes ==> p in quizzes[..|quizzes| - 1] || p == q;
      before[q.id := q]
  }

  /** A response counts when its quiz id is an ObjectId of a fetched quiz. */
  predicate Counted(r: Response, byId: map<nat, QuizDoc>) {
    r.quizId.ObjectId? && r.quizId.oid in byId
  }

  /** `quiz.get("topic", "Unknown")` */
  function TopicName(q: QuizDoc): string {
    q.topic.GetOr(UnknownTopic)
  }

  /** A counted response with its defaults: a missing `is_correct` is false, a missing time is `now`. */
  function EntryOf(r: Response, byId: map<nat, QuizDoc>, now: int): (e: Entry)
    requires Counted(r, byId)
    ensures e.correct <==> r.isCorrect == Some(true)
    ensures byId[r.quizId.oid].topic.None? ==> e.topic == UnknownTopic
  {
    Entry(r.quizId.oid, TopicName(byId[r.quizId.oid]), r.isCorrect.GetOr(false), r.answeredAt.GetOr(now))
  }

  /** The counted responses, in response order. */
  function Entries(rs: seq<Response>, byId: map<nat, QuizDoc>, now: int): (es: seq<Entry>)
    ensures |es| <= |rs|
  {
    if rs == [] then []
    else
      var before := Entries(rs[..|rs| - 1], byId, now);
      var r := rs[|rs| - 1];
      if Counted(r, byId) then before + [EntryOf(r, byId, now)] else before
  }

  lemma {:induction false} EntriesAppend(a: seq<Response>, b: seq<Response>, byId: map<nat, QuizDoc>, now: int)
    ensures Entries(a + b, byId, now) == Entries(a, byId, now) + Entries(b, byId, now)
  {
    if b == [] {
      assert a + b == a;
    } else {
      var b' := b[..|b| - 1];
      assert (a + b)[..|a + b| - 1] == a + b';
      EntriesAppend(a, b', byId, now);
    }
  }

  /** No entry at all exactly when no response counts. */
  lemma {:induction false} EntriesEmpty(rs: seq<Response>, byId: map<nat, QuizDoc>, now: int)
    ensures Entries(rs, byId, now) == [] <==> forall r :: r in rs ==> !Counted(r, byId)
  {
    if rs != [] {
      var rs' := rs[..|rs| - 1];
      EntriesEmpty(rs', byId, now);
      assert rs == rs' + [rs[|rs| - 1]];
    }
  }

  /** Every counted response yields its entry. */
  lemma {:induction false} EntriesContain(rs: seq<Response>, byId: map<nat, QuizDoc>, now: int, r: Response)
    requires r in rs && Counted(r, byId)
    ensures EntryOf(r, byId, now) in Entries(rs, byId, now)
  {
    var rs' := rs[..|rs| - 1];
    assert rs == rs' + [rs[|rs| - 1]];
    if r != rs[|rs| - 1] {
      EntriesContain(rs', byId, now, r);
    }
  }

  // ---------- grouping by a key, in first-seen order ----------

  function EntryTopic(e: Entry): string { e.topic }

  function EntryQuiz(e: Entry): nat { e.quiz }

  predicate Distinct<K(==,!new)>(ks: seq<K>) {
    forall i, j :: 0 <= i < j < |ks| ==> ks[i] != ks[j]
  }

  /** The entries whose key is `k`, in order. */
  function Group<K(==,!new)>(es: seq<Entry>, key: Entry -> K, k: K): (g: seq<Entry>)
    ensures |g| <= |es|
  {
    if es == [] then []
    else
      var e := es[|es| - 1];
      var before := Group(es[..|es| - 1], key, k);
      if key(e) == k then before + [e] else before
  }

  /** A group holds exactly the entries with its key. */
  lemma {:induction false} GroupMembers<K(!new)>(es: seq<Entry>, key: Entry -> K, k: K)
    ensures forall e :: e in Group(es, key, k) <==> e in es && key(e) == k
  {
    if es != [] {
      var es' := es[..|es| - 1];
      GroupMembers(es', key, k);
      assert es == es' + [es[|es| - 1]];
    }
  }

  /** The distinct keys of `es`, in the order each first occurs (a dict's insertion order). */
  function KeyOrder<K(==,!new)>(es: seq<Entry>, key: Entry -> K): (ks: seq<K>)
    ensures Distinct(ks)
    ensures forall k :: k in ks <==> Group(es, key, k) != []
  {
    if es == [] then []
    else
      var before := KeyOrder(es[..|es| - 1], key);
      var k := key(es[|es| - 1]);
      if k in before then before else before + [k]
  }

  lemma GroupSnoc<K(!new)>(es: seq<Entry>, e: Entry, key: Entry -> K, k: K)
    ensures Group(es + [e], key, k) == Group(es, key, k) + (if key(e) == k then [e] else [])
  {
    assert (es + [e])[..|es|] == es;
  }

  lemma KeyOrderSnoc<K(!new)>(es: seq<Entry>, e: Entry, key: Entry -> K)
    ensures KeyOrder(es + [e], key) == if key(e) in KeyOrder(es, key) then KeyOrder(es, key) else KeyOrder(es, key) + [key(e)]
  {
    assert (es + [e])[..|es|] == es;
  }

  /** Keys are listed in first-seen order: the keys of any prefix come first, in the same order. */
  lemma {:induction false} KeyOrderPrefix<K(!new)>(es: seq<Entry>, key: Entry -> K, n: nat)
    requires n <= |es|
    ensures KeyOrder(es[..n], key) <= KeyOrder(es, key)
  {
    if n < |es| {
      var es' := es[..|es| - 1];
      assert es'[..n] == es[..n];
      KeyOrderPrefix(es', key, n);
      assert es == es' + [es[|es| - 1]];
      KeyOrderSnoc(es', es[|es| - 1], key);
    } else {
      assert es[..n] == es;
    }
  }

  function Occurrences<K(==,!new)>(ks: seq<K>, k: K): nat {
    if ks == [] then 0
    else Occurrences(ks[..|ks| - 1], k) + (if ks[|ks| - 1] == k then 1 else 0)
  }

  lemma {:induction false} OccurrencesDistinct<K(!new)>(ks: seq<K>, k: K)
    requires Distinct(ks)
    ensures Occurrences(ks, k) == if k in ks then 1 else 0
  {
    if ks != [] {
      var ks' := ks[..|ks| - 1];
      OccurrencesDistinct(ks', k);
      assert ks == ks' + [ks[|ks| - 1]];
      assert ks[|ks| - 1] !in ks';
    }
  }

  /** The sum of the group sizes for the keys `ks`. */
  function GroupSizes<K(==,!new)>(es: seq<Entry>, key: Entry -> K, ks: seq<K>): nat {
    if ks == [] then 0
    else GroupSizes(es, key, ks[..|ks| - 1]) + |Group(es, key, ks[|ks| - 1])|
  }

  lemma {:induction false} GroupSizesSnoc<K(!new)>(es: seq<Entry>, e: Entry, key: Entry -> K, ks: seq<K>)
    ensures GroupSizes(es + [e], key, ks) == GroupSizes(es, key, ks) + Occurrences(ks, key(e))
  {
    if ks != [] {
      GroupSnoc(es, e, key, ks[|ks| - 1]);
      GroupSizesSnoc(es, e, key, ks[..|ks| - 1]);
    }
  }

  /** Every entry lies in exactly one group: the group sizes add up to the number of entries. */
  lemma {:induction false} GroupSizesOfOrder<K(!new)>(es: seq<Entry>, key: Entry -> K)
    ensures GroupSizes(es, key, KeyOrder(es, key)) == |es|
  {
    if es != [] {
      var es', e := es[..|es| - 1], es[|es| - 1];
      assert es == es' + [e];
      var ks := KeyOrder(es', key);
      GroupSizesOfOrder(es', key);
      GroupSizesSnoc(es', e, key, ks);
      OccurrencesDistinct(ks, key(e));
      KeyOrderSnoc(es', e, key);
      if key(e) !in ks {
        var ks2 := ks + [key(e)];
        assert ks2[..|ks2| - 1] == ks;
        GroupSnoc(es', e, key, key(e));
      }
    }
  }

  // ---------- per-group statistics ----------

  function CorrectCount(es: seq<Entry>): (c: nat)
    ensures c <= |es|
  {
    if es == [] then 0
    else CorrectCount(es[..|es| - 1]) + (if es[|es| - 1].correct then 1 else 0)
  }

  /** The latest answer time, tracked as the source does: first time, then raised when later. */
  function LatestAt(es: seq<Entry>): int
    requires es != []
  {
    if |es| == 1 then es[0].at
    else
      var before := LatestAt(es[..|es| - 1]);
      var e := es[|es| - 1];
      if e.at > before then e.at else before
  }

  /** The tracked time is the maximum answer time of the entries. */
  lemma {:induction false} LatestAtIsMaximum(es: seq<Entry>)
    requires es != []
    ensures forall e :: e in es ==> e.at <= LatestAt(es)
    ensures exists e :: e in es && e.at == LatestAt(es)
  {
    if |es| == 1 {
      assert es[0] in es;
    } else {
      var es', e := es[..|es| - 1], es[|es| - 1];
      LatestAtIsMaximum(es');
      assert es == es' + [e];
      if e.at <= LatestAt(es') {
        var w :| w in es' && w.at == LatestAt(es');
        assert w in es;
      }
    }
  }

  function StatOf(g: seq<Entry>): Stat
    requires g != []
  {
    Stat(CorrectCount(g), |g|, LatestAt(g))
  }

  function QuizStatOf(g: seq<Entry>): QuizStat
    requires g != []
  {
    QuizStat(g[0].topic, CorrectCount(g), |g|, LatestAt(g))
  }

  lemma StatSnoc(g: seq<Entry>, e: Entry)
    ensures g == [] ==> StatOf(g + [e]) == Stat(if e.correct then 1 else 0, 1, e.at)
    ensures g != [] ==> var s := StatOf(g);
      StatOf(g + [e]) == Stat(s.correct + (if e.correct then 1 else 0), s.total + 1, if e.at > s.latest then e.at else s.latest)
  {
    assert (g + [e])[..|g|] == g;
  }

  /** `correct / max(total, 1)` */
  function Ratio(correct: nat, total: nat): (r: real)
    ensures correct <= total ==> 0.0 <= r <= 1.0
    ensures correct == 0 ==> r == 0.0
    ensures total > 0 ==> r * total as real == correct as real
  {
    var d := if total > 1 then total else 1;
    assert correct <= total ==> correct as real <= d as real;
    correct as real / d as real
  }

  function TopicSummaryOf(es: seq<Entry>, t: string): (s: TopicSummary)
    requires Group(es, EntryTopic, t) != []
    ensures s.name == t && s.numQuestions >= 1 && 0.0 <= s.accuracy <= 1.0
  {
    var g := Group(es, EntryTopic, t);
    TopicSummary(t, Ratio(CorrectCount(g), |g|), |g|, LatestAt(g))
  }

  function SessionSummaryOf(es: seq<Entry>, q: nat): (s: SessionSummary)
    requires Group(es, EntryQuiz, q) != []
    ensures s.quizId == q && s.numQuestions >= 1 && 0.0 <= s.score <= 1.0
  {
    var g := Group(es, EntryQuiz, q);
    SessionSummary(q, g[0].topic, Ratio(CorrectCount(g), |g|), |g|, LatestAt(g))
  }

  function TopicSummaries(es: seq<Entry>, ts: seq<string>): (r: seq<TopicSummary>)
    requires forall t :: t in ts ==> Group(es, EntryTopic, t) != []
    ensures |r| == |ts|
    ensures forall k :: 0 <= k < |ts| ==> r[k] == TopicSummaryOf(es, ts[k])
  {
    if ts == [] then []
    else
      var before := TopicSummaries(es, ts[..|ts| - 1]);
      assert forall k :: 0 <= k < |ts| - 1 ==> ts[..|ts| - 1][k] == ts[k];
      before + [TopicSummaryOf(es, ts[|ts| - 1])]
  }

  function SessionSummaries(es: seq<Entry>, qs: seq<nat>): (r: seq<SessionSummary>)
    requires forall q :: q in qs ==> Group(es, EntryQuiz, q) != []
    ensures |r| == |qs|
    ensures forall k :: 0 <= k < |qs| ==> r[k] == SessionSummaryOf(es, qs[k])
  {
    if qs == [] then []
    else
      var before := SessionSummaries(es, qs[..|qs| - 1]);
      assert forall k :: 0 <= k < |qs| - 1 ==> qs[..|qs| - 1][k] == qs[k];
      before + [SessionSummaryOf(es, qs[|qs| - 1])]
  }

  // ---------- sorting sessions newest first ----------

  predicate NewestFirst(xs: seq<SessionSummary>) {
    forall i, j :: 0 <= i < j < |xs| ==> xs[i].completedAt >= xs[j].completedAt
  }

  /** Inserts `x` before the first session that is not newer than it. */
  function InsertByTime(x: SessionSummary, ys: seq<SessionSummary>): (r: seq<SessionSummary>)
    ensures multiset(r) == multiset(ys) + multiset{x}
  {
    if ys == [] then [x]
    else if x.completedAt >= ys[0].completedAt then [x] + ys
    else
      assert ys == [ys[0]] + ys[1..];
      [ys[0]] + InsertByTime(x, ys[1..])
  }

  /** `sort(key=completed_at, reverse=True)`: a stable sort, newest first. */
  function SortNewestFirst(xs: seq<SessionSummary>): (r: seq<SessionSummary>)
    ensures multiset(r) == multiset(xs)
  {
    if xs == [] then []
    else
      assert xs == [xs[0]] + xs[1..];
      InsertByTime(xs[0], SortNewestFirst(xs[1..]))
  }

  /** Inserting a session no later than `b` into sessions no later than `b` gives sessions no later than `b`. */
  lemma {:induction false} InsertByTimeBound(x: SessionSummary, ys: seq<SessionSummary>, b: int)
    requires x.completedAt <= b
    requires forall k :: 0 <= k < |ys| ==> ys[k].completedAt <= b
    ensures forall k :: 0 <= k < |InsertByTime(x, ys)| ==> InsertByTime(x, ys)[k].completedAt <= b
  {
    if ys != [] && x.completedAt < ys[0].completedAt {
      InsertByTimeBound(x, ys[1..], b);
    }
  }

  lemma {:induction false} InsertByTimeNewestFirst(x: SessionSummary, ys: seq<SessionSummary>)
    requires NewestFirst(ys)
    ensures NewestFirst(InsertByTime(x, ys))
  {
    if ys != [] && x.completedAt < ys[0].completedAt {
      InsertByTimeNewestFirst(x, ys[1..]);
      InsertByTimeBound(x, ys[1..], ys[0].completedAt);
    }
  }

  /** The sessions that completed at time `t`, in order. */
  function CompletedAt(xs: seq<SessionSummary>, t: int): seq<SessionSummary> {
    if xs == [] then []
    else (if xs[0].completedAt == t then [xs[0]] else []) + CompletedAt(xs[1..], t)
  }

  lemma CompletedAtCons(z: SessionSummary, zs: seq<SessionSummary>, t: int)
    ensures CompletedAt([z] + zs, t) == (if z.completedAt == t then [z] else []) + CompletedAt(zs, t)
  {
    assert ([z] + zs)[1..] == zs;
  }

  lemma SwapEmpty(a: seq<SessionSummary>, b: seq<SessionSummary>, c: seq<SessionSummary>)
    requires a == [] || b == []
    ensures a + (b + c) == b + (a + c)
  {
    if a == [] {
      assert a + (b + c) == b + c == b + (a + c);
    } else {
      assert a + (b + c) == a + c == b + (a + c);
    }
  }

  /** Inserting `x` puts it before every other session completed at its own time, and moves nothing else. */
  lemma {:induction false} InsertByTimeStable(x: SessionSummary, ys: seq<SessionSummary>, t: int)
    ensures CompletedAt(InsertByTime(x, ys), t) == (if x.completedAt == t then [x] else []) + CompletedAt(ys, t)
  {
    var hx := if x.completedAt == t then [x] else [];
    if ys == [] {
      CompletedAtCons(x, [], t);
    } else if x.completedAt >= ys[0].completedAt {
      CompletedAtCons(x, ys, t);
    } else {
      var y, rest := ys[0], ys[1..];
      var hy := if y.completedAt == t then [y] else [];
      var inserted := InsertByTime(x, rest);
      var c := CompletedAt(rest, t);
      assert InsertByTime(x, ys) == [y] + inserted;
      InsertByTimeStable(x, rest, t);
      CompletedAtCons(y, inserted, t);
      assert CompletedAt(InsertByTime(x, ys), t) == hy + (hx + c);
      assert CompletedAt(ys, t) == hy + c;
      SwapEmpty(hy, hx, c);
    }
  }

  /** The sort is newest first, a permutation, and stable: sessions with equal times keep their order. */
  lemma {:induction false} SortNewestFirstCorrect(xs: seq<SessionSummary>)
    ensures NewestFirst(SortNewestFirst(xs))
    ensures multiset(SortNewestFirst(xs)) == multiset(xs)
    ensures forall t :: CompletedAt(SortNewestFirst(xs), t) == CompletedAt(xs, t)
  {
    if xs != [] {
      SortNewestFirstCorrect(xs[1..]);
      InsertByTimeNewestFirst(xs[0], SortNewestFirst(xs[1..]));
      forall t ensures CompletedAt(SortNewestFirst(xs), t) == CompletedAt(xs, t) {
        InsertByTimeStable(xs[0], SortNewestFirst(xs[1..]), t);
      }
    }
  }

  // ---------- the summary ----------

  /** What `compute_progress` returns for these responses and quiz documents. */
  function Summarize(userId: string, responses: seq<Response>, quizzes: seq<QuizDoc>, now: int): (r: Summary)
    ensures r.userId == userId
    ensures responses == [] ==> r == EmptySummary(userId)
    ensures r.totalQuestionsAnswered <= |responses|
  {
    if responses == [] then EmptySummary(userId)
    else
      var es := Entries(responses, IndexQuizzes(quizzes), now);
      Summary(
        userId,
        Ratio(CorrectCount(es), |es|),
        |es|,
        TopicSummaries(es, KeyOrder(es, EntryTopic)),
        SortNewestFirst(SessionSummaries(es, KeyOrder(es, EntryQuiz))))
  }

  // ---------- properties of the summary ----------

  /** An uncounted response, wherever it stands, changes nothing in the summary. */
  lemma SkippedResponseIgnored(userId: string, before: seq<Response>, r: Response, after: seq<Response>,
                               quizzes: seq<QuizDoc>, now: int)
    requires !Counted(r, IndexQuizzes(quizzes))
    ensures Summarize(userId, before + [r] + after, quizzes, now) == Summarize(userId, before + after, quizzes, now)
  {
    var byId := IndexQuizzes(quizzes);
    EntriesAppend(before + [r], after, byId, now);
    EntriesAppend(before, [r], byId, now);
    EntriesAppend(before, after, byId, now);
    assert Entries([r], byId, now) == [] by {
      assert [r][..0] == [];
    }
  }

  /** When no response counts, the summary is the empty one. */
  lemma AllSkippedGivesEmptySummary(userId: string, responses: seq<Response>, quizzes: seq<QuizDoc>, now: int)
    requires forall r :: r in responses ==> !Counted(r, IndexQuizzes(quizzes))
    ensures Summarize(userId, responses, quizzes, now) == EmptySummary(userId)
  {
    EntriesEmpty(responses, IndexQuizzes(quizzes), now);
  }

  function TopicQuestions(ts: seq<TopicSummary>): nat {
    if ts == [] then 0 else TopicQuestions(ts[..|ts| - 1]) + ts[|ts| - 1].numQuestions
  }

  function SessionQuestions(ss: seq<SessionSummary>): nat {
    if ss == [] then 0 else ss[0].numQuestions + SessionQuestions(ss[1..])
  }

  lemma {:induction false} TopicQuestionsOfSummaries(es: seq<Entry>, ts: seq<string>)
    requires forall t :: t in ts ==> Group(es, EntryTopic, t) != []
    ensures TopicQuestions(TopicSummaries(es, ts)) == GroupSizes(es, EntryTopic, ts)
  {
    if ts != [] {
      var ts' := ts[..|ts| - 1];
      TopicQuestionsOfSummaries(es, ts');
      var r := TopicSummaries(es, ts);
      assert r[..|r| - 1] == TopicSummaries(es, ts');
    }
  }

  lemma {:induction false} SessionQuestionsAppend(a: seq<SessionSummary>, b: seq<SessionSummary>)
    ensures SessionQuestions(a + b) == SessionQuestions(a) + SessionQuestions(b)
  {
    if a != [] {
      assert (a + b)[1..] == a[1..] + b;
      assert (a + b)[0] == a[0];
      SessionQuestionsAppend(a[1..], b);
    } else {
      assert a + b == b;
    }
  }

  lemma {:induction false} SessionQuestionsOfSummaries(es: seq<Entry>, qs: seq<nat>)
    requires forall q :: q in qs ==> Group(es, EntryQuiz, q) != []
    ensures SessionQuestions(SessionSummaries(es, qs)) == GroupSizes(es, EntryQuiz, qs)
  {
    if qs != [] {
      var qs' := qs[..|qs| - 1];
      SessionQuestionsOfSummaries(es, qs');
      var r := SessionSummaries(es, qs);
      var x := SessionSummaryOf(es, qs[|qs| - 1]);
      assert r == SessionSummaries(es, qs') + [x];
      SessionQuestionsAppend(SessionSummaries(es, qs'), [x]);
    }
  }

  lemma {:induction false} SessionQuestionsSorted(xs: seq<SessionSummary>)
    ensures SessionQuestions(SortNewestFirst(xs)) == SessionQuestions(xs)
  {
    if xs != [] {
      SessionQuestionsSorted(xs[1..]);
      SessionQuestionsInsert(xs[0], SortNewestFirst(xs[1..]));
    }
  }

  lemma {:induction false} SessionQuestionsInsert(x: SessionSummary, ys: seq<SessionSummary>)
    ensures SessionQuestions(InsertByTime(x, ys)) == x.numQuestions + SessionQuestions(ys)
  {
    if ys != [] && x.completedAt < ys[0].completedAt {
      SessionQuestionsInsert(x, ys[1..]);
      assert ([ys[0]] + InsertByTime(x, ys[1..]))[1..] == InsertByTime(x, ys[1..]);
      assert ([x] + ys[1..])[1..] == ys[1..];
    } else if ys != [] {
      assert ([x] + ys)[1..] == ys;
    }
  }

  /** The number of questions answered is the sum over the topics and also the sum over the sessions. */
  lemma QuestionTotalsAgree(userId: string, responses: seq<Response>, quizzes: seq<QuizDoc>, now: int)
    ensures var s := Summarize(userId, responses, quizzes, now);
      && TopicQuestions(s.topics) == s.totalQuestionsAnswered
      && SessionQuestions(s.recentSessions) == s.totalQuestionsAnswered
  {
    if responses != [] {
      var es := Entries(responses, IndexQuizzes(quizzes), now);
      TopicQuestionsOfSummaries(es, KeyOrder(es, EntryTopic));
      GroupSizesOfOrder(es, EntryTopic);
      SessionQuestionsOfSummaries(es, KeyOrder(es, EntryQuiz));
      GroupSizesOfOrder(es, EntryQuiz);
      SessionQuestionsSorted(SessionSummaries(es, KeyOrder(es, EntryQuiz)));
    }
  }

  /** Every accuracy and score lies between 0 and 1, and every listed topic or session has questions. */
  lemma AccuraciesBounded(userId: string, responses: seq<Response>, quizzes: seq<QuizDoc>, now: int)
    ensures var s := Summarize(userId, responses, quizzes, now);
      && 0.0 <= s.overallAccuracy <= 1.0
      && (forall t :: t in s.topics ==> 0.0 <= t.accuracy <= 1.0 && t.numQuestions >= 1)
      && (forall x :: x in s.recentSessions ==> 0.0 <= x.score <= 1.0 && x.numQuestions >= 1)
  {
    if responses != [] {
      var es := Entries(responses, IndexQuizzes(quizzes), now);
      var sessions := SessionSummaries(es, KeyOrder(es, EntryQuiz));
      forall x | x in SortNewestFirst(sessions)
        ensures 0.0 <= x.score <= 1.0 && x.numQuestions >= 1
      {
        assert x in multiset(sessions);
      }
    }
  }

  lemma TopicTimesAreMaxima(es: seq<Entry>)
    ensures forall t :: t in TopicSummaries(es, KeyOrder(es, EntryTopic)) ==>
      (forall e :: e in es && e.topic == t.name ==> e.at <= t.lastAnsweredAt)
      && (exists e :: e in es && e.topic == t.name && e.at == t.lastAnsweredAt)
  {
    var ts := KeyOrder(es, EntryTopic);
    var r := TopicSummaries(es, ts);
    forall t | t in r
      ensures (forall e :: e in es && e.topic == t.name ==> e.at <= t.lastAnsweredAt)
      ensures (exists e :: e in es && e.topic == t.name && e.at == t.lastAnsweredAt)
    {
      var k :| 0 <= k < |r| && r[k] == t;
      assert t == TopicSummaryOf(es, ts[k]);
      var g := Group(es, EntryTopic, t.name);
      GroupMembers(es, EntryTopic, t.name);
      LatestAtIsMaximum(g);
      var w :| w in g && w.at == LatestAt(g);
      assert w in es && w.topic == t.name;
    }
  }

  lemma SessionTimesAreMaxima(es: seq<Entry>)
    ensures forall x :: x in SessionSummaries(es, KeyOrder(es, EntryQuiz)) ==>
      (forall e :: e in es && e.quiz == x.quizId ==> e.at <= x.completedAt)
      && (exists e :: e in es && e.quiz == x.quizId && e.at == x.completedAt)
  {
    var sessions := SessionSummaries(es, KeyOrder(es, EntryQuiz));
    var qs := KeyOrder(es, EntryQuiz);
    forall x | x in sessions
      ensures (forall e :: e in es && e.quiz == x.quizId ==> e.at <= x.completedAt)
      ensures (exists e :: e in es && e.quiz == x.quizId && e.at == x.completedAt)
    {
      var k :| 0 <= k < |sessions| && sessions[k] == x;
      assert x == SessionSummaryOf(es, qs[k]);
      var g := Group(es, EntryQuiz, x.quizId);
      GroupMembers(es, EntryQuiz, x.quizId);
      LatestAtIsMaximum(g);
      var w :| w in g && w.at == LatestAt(g);
      assert w in es && w.quiz == x.quizId;
    }
  }

  /** A topic's last answer time and a session's completion time are the latest answer time among their responses. */
  lemma LatestTimesAreMaxima(userId: string, responses: seq<Response>, quizzes: seq<QuizDoc>, now: int)
    ensures var s := Summarize(userId, responses, quizzes, now);
      var es := Entries(responses, IndexQuizzes(quizzes), now);
      && (forall t :: t in s.topics ==>
            (forall e :: e in es && e.topic == t.name ==> e.at <= t.lastAnsweredAt)
            && (exists e :: e in es && e.topic == t.name && e.at == t.lastAnsweredAt))
      && (forall x :: x in s.recentSessions ==>
            (forall e :: e in es && e.quiz == x.quizId ==> e.at <= x.completedAt)
            && (exists e :: e in es && e.quiz == x.quizId && e.at == x.completedAt))
  {
    var es := Entries(responses, IndexQuizzes(quizzes), now);
    TopicTimesAreMaxima(es);
    SessionTimesAreMaxima(es);
    var sessions := SessionSummaries(es, KeyOrder(es, EntryQuiz));
    forall x | x in SortNewestFirst(sessions)
      ensures x in sessions
    {
      assert x in multiset(SortNewestFirst(sessions));
    }
  }

  function Names(ts: seq<TopicSummary>): (ns: seq<string>)
    ensures |ns| == |ts| && forall k :: 0 <= k < |ts| ==> ns[k] == ts[k].name
  {
    if ts == [] then [] else [ts[0].name] + Names(ts[1..])
  }

  /**
   * The topics are the distinct topics of the counted responses (a quiz without
   * a topic counting as "Unknown"), listed in the order each first occurs.
   */
  lemma TopicsInFirstSeenOrder(userId: string, responses: seq<Response>, quizzes: seq<QuizDoc>, now: int)
    ensures var s := Summarize(userId, responses, quizzes, now);
      var byId := IndexQuizzes(quizzes);
      var es := Entries(responses, byId, now);
      && Names(s.topics) == KeyOrder(es, EntryTopic)
      && Distinct(Names(s.topics))
      && (forall n :: 0 <= n <= |es| ==> KeyOrder(es[..n], EntryTopic) <= Names(s.topics))
      && (forall r :: r in responses && Counted(r, byId) ==> TopicName(byId[r.quizId.oid]) in Names(s.topics))
      && (forall t :: t in Names(s.topics) ==> exists r :: r in responses && Counted(r, byId) && TopicName(byId[r.quizId.oid]) == t)
  {
    var byId := IndexQuizzes(quizzes);
    var es := Entries(responses, byId, now);
    var s := Summarize(userId, responses, quizzes, now);
    var order := KeyOrder(es, EntryTopic);
    if responses == [] {
      assert es == [];
    }
    assert Names(s.topics) == order;
    forall n | 0 <= n <= |es| ensures KeyOrder(es[..n], EntryTopic) <= order {
      KeyOrderPrefix(es, EntryTopic, n);
    }
    forall r | r in responses && Counted(r, byId) ensures TopicName(byId[r.quizId.oid]) in order {
      EntriesContain(responses, byId, now, r);
      var e := EntryOf(r, byId, now);
      GroupMembers(es, EntryTopic, e.topic);
      assert e in Group(es, EntryTopic, e.topic);
    }
    forall t | t in order ensures exists r :: r in responses && Counted(r, byId) && TopicName(byId[r.quizId.oid]) == t {
      var g := Group(es, EntryTopic, t);
      GroupMembers(es, EntryTopic, t);
      assert g[0] in g;
      EntriesFrom(responses, byId, now, g[0]);
    }
  }

  /** Every entry comes from a counted response. */
  lemma {:induction false} EntriesFrom(rs: seq<Response>, byId: map<nat, QuizDoc>, now: int, e: Entry)
    requires e in Entries(rs, byId, now)
    ensures exists r :: r in rs && Counted(r, byId) && EntryOf(r, byId, now) == e
  {
    var rs', r := rs[..|rs| - 1], rs[|rs| - 1];
    assert rs == rs' + [r];
    if !(Counted(r, byId) && EntryOf(r, byId, now) == e) {
      EntriesFrom(rs', byId, now, e);
      var w :| w in rs' && Counted(w, byId) && EntryOf(w, byId, now) == e;
      assert w in rs;
    }
  }

  /**
   * Sessions are listed newest first; they are exactly the per-quiz sessions in
   * first-seen order, rearranged; and sessions completed at the same time keep
   * that first-seen order (the sort is stable).
   */
  lemma SessionsNewestFirst(userId: string, responses: seq<Response>, quizzes: seq<QuizDoc>, now: int)
    ensures var s := Summarize(userId, responses, quizzes, now);
      var es := Entries(responses, IndexQuizzes(quizzes), now);
      var firstSeen := SessionSummaries(es, KeyOrder(es, EntryQuiz));
      && NewestFirst(s.recentSessions)
      && multiset(s.recentSessions) == multiset(firstSeen)
      && (forall t :: CompletedAt(s.recentSessions, t) == CompletedAt(firstSeen, t))
  {
    var es := Entries(responses, IndexQuizzes(quizzes), now);
    if responses == [] {
      assert es == [];
    }
    SortNewestFirstCorrect(SessionSummaries(es, KeyOrder(es, EntryQuiz)));
  }

  // ---------- the imperative computation ----------

  /** `topic_stats` (with its insertion order) holds the statistics of the entries `es`. */
  ghost predicate TopicTable(order: seq<string>, stats: map<string, Stat>, es: seq<Entry>) {
    && order == KeyOrder(es, EntryTopic)
    && (forall t :: t in stats <==> t in order)
    && (forall t :: t in stats ==> stats[t] == StatOf(Group(es, EntryTopic, t)))
  }

  /** `quiz_stats` (with its insertion order) holds the statistics of the entries `es`. */
  ghost predicate QuizTable(order: seq<nat>, stats: map<nat, QuizStat>, es: seq<Entry>) {
    && order == KeyOrder(es, EntryQuiz)
    && (forall q :: q in stats <==> q in order)
    && (forall q :: q in stats ==> stats[q] == QuizStatOf(Group(es, EntryQuiz, q)))
  }

  /** The per-topic part of the loop body: create the row on first sight, then count and track the latest time. */
  method RecordTopic(order: seq<string>, stats: map<string, Stat>, topic: string, isCorrect: bool, answeredAt: int,
                     ghost es: seq<Entry>, ghost e: Entry)
    returns (order': seq<string>, stats': map<string, Stat>)
    requires e.topic == topic && e.correct == isCorrect && e.at == answeredAt
    requires TopicTable(order, stats, es)
    ensures TopicTable(order', stats', es + [e])
  {
    order', stats' := order, stats;
    if topic !in stats' {
      order' := order' + [topic];
      stats' := stats'[topic := Stat(0, 0, answeredAt)];
    }
    var ts := stats'[topic];
    ts := ts.(total := ts.total + 1);
    if isCorrect {
      ts := ts.(correct := ts.correct + 1);
    }
    if answeredAt > ts.latest {
      ts := ts.(latest := answeredAt);
    }
    stats' := stats'[topic := ts];

    assert EntryTopic(e) == topic;
    assert order' == KeyOrder(es + [e], EntryTopic) by {
      KeyOrderSnoc(es, e, EntryTopic);
    }
    assert forall t :: t in stats' <==> t in order';
    forall t | t in stats'
      ensures stats'[t] == StatOf(Group(es + [e], EntryTopic, t))
    {
      GroupSnoc(es, e, EntryTopic, t);
      if t == topic {
        StatSnoc(Group(es, EntryTopic, topic), e);
      }
    }
  }

  /** The per-quiz part of the loop body; the topic is fixed when the quiz is first seen. */
  method RecordQuiz(order: seq<nat>, stats: map<nat, QuizStat>, quizId: nat, topic: string, isCorrect: bool, answeredAt: int,
                    ghost es: seq<Entry>, ghost e: Entry)
    returns (order': seq<nat>, stats': map<nat, QuizStat>)
    requires e.quiz == quizId && e.topic == topic && e.correct == isCorrect && e.at == answeredAt
    requires QuizTable(order, stats, es)
    ensures QuizTable(order', stats', es + [e])
  {
    order', stats' := order, stats;
    if quizId !in stats' {
      order' := order' + [quizId];
      stats' := stats'[quizId := QuizStat(topic, 0, 0, answeredAt)];
    }
    var qs := stats'[quizId];
    qs := qs.(total := qs.total + 1);
    if isCorrect {
      qs := qs.(correct := qs.correct + 1);
    }
    if answeredAt > qs.latest {
      qs := qs.(latest := answeredAt);
    }
    stats' := stats'[quizId := qs];

    assert EntryQuiz(e) == quizId;
    assert order' == KeyOrder(es + [e], EntryQuiz) by {
      KeyOrderSnoc(es, e, EntryQuiz);
    }
    assert forall q :: q in stats' <==> q in order';
    forall q | q in stats'
      ensures stats'[q] == QuizStatOf(Group(es + [e], EntryQuiz, q))
    {
      GroupSnoc(es, e, EntryQuiz, q);
      if q == quizId {
        var g := Group(es, EntryQuiz, quizId);
        StatSnoc(g, e);
        assert g != [] ==> (g + [e])[0] == g[0];
      }
    }
  }

  /** One more response adds its entry when it is counted, and nothing otherwise. */
  lemma EntriesStep(rs: seq<Response>, i: nat, byId: map<nat, QuizDoc>, now: int)
    requires i < |rs|
    ensures Entries(rs[..i + 1], byId, now)
            == Entries(rs[..i], byId, now) + (if Counted(rs[i], byId) then [EntryOf(rs[i], byId, now)] else [])
  {
    assert rs[..i + 1][..i] == rs[..i];
  }

  /** The counters and both tables hold the statistics of the entries `es`. */
  ghost predicate Aggregated(totalCorrect: nat, totalAnswers: nat,
                             topicOrder: seq<string>, topicStats: map<string, Stat>,
                             quizOrder: seq<nat>, quizStats: map<nat, QuizStat>, es: seq<Entry>) {
    && totalAnswers == |es| && totalCorrect == CorrectCount(es)
    && TopicTable(topicOrder, topicStats, es)
    && QuizTable(quizOrder, quizStats, es)
  }

  /** The loop body for a counted response: count it overall, per topic and per quiz. */
  method RecordEntry(totalCorrect: nat, totalAnswers: nat,
                     topicOrder: seq<string>, topicStats: map<string, Stat>,
                     quizOrder: seq<nat>, quizStats: map<nat, QuizStat>,
                     quizId: nat, topic: string, isCorrect: bool, answeredAt: int, ghost es: seq<Entry>)
    returns (totalCorrect': nat, totalAnswers': nat,
             topicOrder': seq<string>, topicStats': map<string, Stat>,
             quizOrder': seq<nat>, quizStats': map<nat, QuizStat>)
    requires Aggregated(totalCorrect, totalAnswers, topicOrder, topicStats, quizOrder, quizStats, es)
    ensures Aggregated(totalCorrect', totalAnswers', topicOrder', topicStats', quizOrder', quizStats',
                       es + [Entry(quizId, topic, isCorrect, answeredAt)])
  {
    ghost var e := Entry(quizId, topic, isCorrect, answeredAt);
    assert (es + [e])[..|es|] == es;
    totalAnswers' := totalAnswers + 1;
    totalCorrect' := if isCorrect then totalCorrect + 1 else totalCorrect;
    topicOrder', topicStats' := RecordTopic(topicOrder, topicStats, topic, isCorrect, answeredAt, es, e);
    quizOrder', quizStats' := RecordQuiz(quizOrder, quizStats, quizId, topic, isCorrect, answeredAt, es, e);
  }

  /** The loop over the responses: skip the uncounted ones, count the others overall, per topic and per quiz. */
  method Aggregate(responses: seq<Response>, quizById: map<nat, QuizDoc>, now: int)
    returns (totalCorrect: nat, totalAnswers: nat,
             topicOrder: seq<string>, topicStats: map<string, Stat>,
             quizOrder: seq<nat>, quizStats: map<nat, QuizStat>)
    ensures var es := Entries(responses, quizById, now);
      && totalAnswers == |es| && totalCorrect == CorrectCount(es)
      && TopicTable(topicOrder, topicStats, es)
      && QuizTable(quizOrder, quizStats, es)
  {
    topicOrder, topicStats := [], map[];
    quizOrder, quizStats := [], map[];
    totalCorrect, totalAnswers := 0, 0;

    ghost var es: seq<Entry> := [];
    var i := 0;
    while i < |responses|
      invariant 0 <= i <= |responses|
      invariant es == Entries(responses[..i], quizById, now)
      invariant Aggregated(totalCorrect, totalAnswers, topicOrder, topicStats, quizOrder, quizStats, es)
    {
      var r := responses[i];
      EntriesStep(responses, i, quizById, now);
      if r.quizId.ObjectId? && r.quizId.oid in quizById {
        var quizId := r.quizId.oid;
        var topic := TopicName(quizById[quizId]);
        var isCorrect := r.isCorrect.GetOr(false);
        var answeredAt := r.answeredAt.GetOr(now);
        totalCorrect, totalAnswers, topicOrder, topicStats, quizOrder, quizStats :=
          RecordEntry(totalCorrect, totalAnswers, topicOrder, topicStats, quizOrder, quizStats,
                      quizId, topic, isCorrect, answeredAt, es);
        es := es + [EntryOf(r, quizById, now)];
      }
      i := i + 1;
    }
    assert responses[..i] == responses;
  }

  /** `compute_progress(user_id)`, with the user's responses and the quiz documents as inputs. */
  method ComputeProgress(userId: string, responses: seq<Response>, quizzes: seq<QuizDoc>, now: int)
    returns (s: Summary)
    ensures s == Summarize(userId, responses, quizzes, now)
    ensures responses == [] ==> s == Summary(userId, 0.0, 0, [], [])
  {
    if responses == [] {
      return EmptySummary(userId);
    }
    var quizById := IndexQuizzes(quizzes);
    var totalCorrect, totalAnswers, topicOrder, topicStats, quizOrder, quizStats := Aggregate(responses, quizById, now);
    ghost var es := Entries(responses, quizById, now);

    var topicsList: seq<TopicSummary> := [];
    var j := 0;
    while j < |topicOrder|
      invariant 0 <= j <= |topicOrder|
      invariant topicsList == TopicSummaries(es, topicOrder[..j])
    {
      var name := topicOrder[j];
      var t := topicStats[name];
      assert topicOrder[..j + 1] == topicOrder[..j] + [name];
      topicsList := topicsList + [TopicSummary(name, Ratio(t.correct, t.total), t.total, t.latest)];
      j := j + 1;
    }
    assert topicOrder[..j] == topicOrder;

    var sessions: seq<SessionSummary> := [];
    j := 0;
    while j < |quizOrder|
      invariant 0 <= j <= |quizOrder|
      invariant sessions == SessionSummaries(es, quizOrder[..j])
    {
      var quizId := quizOrder[j];
      var q := quizStats[quizId];
      assert quizOrder[..j + 1] == quizOrder[..j] + [quizId];
      sessions := sessions + [SessionSummary(quizId, q.topic, Ratio(q.correct, q.total), q.total, q.latest)];
      j := j + 1;
    }
    assert quizOrder[..j] == quizOrder;

    var recentSessions := SortNewestFirst(sessions);
    var overallAccuracy := Ratio(totalCorrect, totalAnswers);
    s := Summary(userId, overallAccuracy, totalAnswers, topicsList, recentSessions);
  }

  // ---------- handing the summary to the coach ----------

  /**
   * The summary dictionary as the coach receives it: its rendering, and none of
   * the `total_questions`, `correct_answers` and `topic_stats` keys the coach's
   * fallback reads, because the summary's keys are different ones.
   */
  function CoachInput(s: Summary, render: Summary -> string): Coach.ProgressDict {
    Coach.ProgressDict(render(s), None, None, None)
  }

  /**
   * `get_coaching_for_user`: the coach's answer for the computed summary. The
   * model's reply comes back unchanged; when the model raises, the fallback
   * always reports 0% accuracy and no weak topics, whatever the responses.
   */
  method GetCoachingForUser(userId: string, responses: seq<Response>, quizzes: seq<QuizDoc>, now: int,
                            render: Summary -> string, chat: seq<Message> -> Outcome<string>)
    returns (text: string)
    ensures var reply := chat(Coach.CoachMessages(CoachInput(Summarize(userId, responses, quizzes, now), render)));
      && (reply.Ok? ==> text == reply.value)
      && (reply.Raised? ==> text == Coach.NoDataAdvice())
  {
    var summary := ComputeProgress(userId, responses, quizzes, now);
    text := Coach.GetCoachingAdvice(CoachInput(summary, render), chat);
    Coach.FallbackWithoutKeys(render(summary));
  }
}

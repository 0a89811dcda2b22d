/**
 * The learning coach: builds a prompt around a rendered progress summary,
 * asks the coaching language model, and when that call raises falls back to a
 * rule-based message built from the summary's `total_questions`,
 * `correct_answers` and `topic_stats` keys.
 *
 * The language model is the function parameter `chat`; a call that raises
 * is its `Raised` outcome.
 */
module Coach {
  import opened Common
  import opened Text

  // ---------- the summary as the coach reads it ----------

  /** One value of `topic_stats`: its `total` and `correct` keys, `None` when absent. */
  datatype TopicCounts = TopicCounts(total: Option<int>, correct: Option<int>)

  /**
   * The progress-summary dictionary handed to the coach: its text rendering
   * (`str(progress_summary)`, which the prompt embeds) and the three keys
   * the fallback reads, `None` when the key is absent.
   */
  datatype ProgressDict = ProgressDict(
    rendered: string,
    totalQuestions: Option<int>,
    correctAnswers: Option<int>,
    topicStats: Option<seq<(string, TopicCounts)>>)

  // ---------- prompt and messages ----------

  function SystemText(): string { "You are a kind and " + "practical learning " + "coach." }

  /**
   * The prompt text before the embedded summary, as it stands after stripping.
   * The template is written line by line, each line as short string pieces:
   * the verifier's cost for a string literal grows quickly with its length,
   * and short pieces keep the proofs about the template within bounds.
   */
  function PromptHead(): string {
    "ROLE:\n"
    + "You are a Learning " + "Coach Agent.\n\n"
    + "OBJECTIVE:\n"
    + "Help the student " + "improve by analyzing " + "performance data and "
    + "recommending next " + "steps.\n\n"
    + "INPUT DATA " + "(authoritative):\n"
  }

  /** The prompt text after the embedded summary, as it stands after stripping. */
  function PromptTail(): string {
    "\n\n"
    + "ANALYSIS RULES:\n"
    + "- Base all guidance " + "strictly on the " + "provided data.\n"
    + "- Identify strengths, " + "weaknesses, and " + "trends.\n"
    + "- Do NOT assume " + "motivation, effort, " + "or external factors.\n"
    + "\n"
    + "COACHING OUTPUT " + "SHOULD INCLUDE:\n"
    + "1. What the student " + "is doing well\n"
    + "2. Topics or skills " + "that need " + "improvement\n"
    + "3. Recommended next " + "action (practice, " + "revision, difficulty " + "change)\n"
    + "4. A short, " + "supportive message " + "(1\U{2013}2 lines, " + "professional tone)\n"
    + "\n"
    + "CONSTRAINTS:\n"
    + "- No generic advice.\n"
    + "- No motivational " + "clich\U{E9}s.\n"
    + "- No new topics " + "unless justified by " + "data.\n"
    + "\n"
    + "OUTPUT:\n"
    + "A concise coaching " + "summary for the " + "student."
  }

  /** The template's text starts with a letter ... */
  lemma PromptHeadStart()
    ensures |PromptHead()| > 0 && PromptHead()[0] == 'R'
  {
  }

  /** ... and ends with a full stop. */
  lemma PromptTailEnd()
    ensures var t := PromptTail(); |t| > 0 && t[|t| - 1] == '.'
  {
  }

  /** The coach prompt: the rendered summary between the template's head and tail. */
  function CoachPrompt(rendered: string): string
  {
    PromptHead() + rendered + PromptTail()
  }

  /**
   * The prompt is the template with the summary substituted, stripped: stripping
   * removes only the template's outer newlines, so the summary is embedded verbatim.
   */
  lemma CoachPromptIsStripped(rendered: string)
    ensures CoachPrompt(rendered) == Strip("\n" + PromptHead() + rendered + PromptTail() + "\n")
  {
    PromptHeadStart();
    PromptTailEnd();
    StripNewlines(PromptHead(), rendered, PromptTail());
  }

  /** The chat sent to the model: a fixed system message, then the prompt as the user message. */
  function CoachMessages(d: ProgressDict): seq<Message>
  {
    [Message("system", SystemText()), Message("user", CoachPrompt(d.rendered))]
  }

  // ---------- the fallback ----------

  /** `int(x)` for a real `x`: truncation toward zero. */
  function Truncate(x: real): (i: int)
    ensures x >= 0.0 ==> i as real <= x < i as real + 1.0
    ensures x < 0.0 ==> i as real - 1.0 < x <= i as real
  {
    if x >= 0.0 then x.Floor else -((-x).Floor)
  }

  /** The fallback's accuracy percentage: `int(correct / total * 100)`, or 0 when `total <= 0`. */
  function Percent(total: int, correct: int): (p: int)
    ensures total <= 0 ==> p == 0
  {
    if total > 0 then Truncate((correct as real / total as real) * 100.0) else 0
  }

  lemma MulLe(a: real, b: real, t: real)
    requires t > 0.0 && a <= b
    ensures a * t <= b * t
  {
  }

  lemma MulLt(a: real, b: real, t: real)
    requires t > 0.0 && a < b
    ensures a * t < b * t
  {
  }

  lemma FloorTimes(q: real, x: real, t: real, k: real)
    requires t > 0.0 && x * t == 100.0 * k
    requires q <= x < q + 1.0
    ensures q * t <= 100.0 * k < (q + 1.0) * t
  {
    MulLe(q, x, t);
    var r := q + 1.0;
    MulLt(x, r, t);
    assert x * t < r * t;
    assert 100.0 * k < r * t;
  }

  lemma CastProduct(a: int, b: int)
    ensures (a * b) as real == a as real * b as real
  {
  }

  /** Truncating a scaled ratio of counts gives a whole percent bracketing the ratio. */
  lemma TruncatedRatio(k: real, t: real)
    requires 0.0 <= k <= t && t > 0.0
    ensures var p := Truncate((k / t) * 100.0);
      && 0 <= p <= 100
      && p as real * t <= 100.0 * k < (p as real + 1.0) * t
  {
    var x := (k / t) * 100.0;
    ScaleBack(k, t);
    DivLe(k, t, 1.0);
    DivNonNegative(k, t);
    FloorTimes(Truncate(x) as real, x, t, k);
  }

  /** For counts with `0 <= correct <= total`, the percentage is the largest whole percent not above the ratio. */
  lemma PercentBounds(total: int, correct: int)
    requires 0 <= correct <= total && total > 0
    ensures var p := Percent(total, correct);
      && 0 <= p <= 100
      && p * total <= 100 * correct < (p + 1) * total
  {
    var p := Percent(total, correct);
    TruncatedRatio(correct as real, total as real);
    CastProduct(p, total);
    CastProduct(p + 1, total);
  }

  lemma DivNonNegative(a: real, t: real)
    requires a >= 0.0 && t > 0.0
    ensures a / t >= 0.0
  {
  }

  lemma ScaleBack(k: real, t: real)
    requires t > 0.0
    ensures (k / t * 100.0) * t == 100.0 * k
  {
  }

  lemma DivLe(a: real, t: real, b: real)
    requires t > 0.0
    ensures a / t <= b <==> a <= b * t
  {
    if a / t <= b {
      MulLe(a / t, b, t);
    }
    if a <= b * t {
      assert a / t <= b * t / t;
    }
  }

  /** A topic is weak when its total is positive and its mastery `correct / total` is below 0.6. */
  predicate IsWeak(c: TopicCounts) {
    var total := c.total.GetOr(0);
    var correct := c.correct.GetOr(0);
    total > 0 && correct as real / total as real < 0.6
  }

  lemma DivLt(a: real, t: real, b: real)
    requires t > 0.0
    ensures a / t < b <==> a < b * t
  {
    if a / t < b {
      MulLt(a / t, b, t);
    }
    if a < b * t {
      assert a / t < b * t / t;
    }
  }

  /** The weakness test in whole numbers: mastery below 0.6 means 5 * correct < 3 * total. */
  lemma IsWeakInIntegers(c: TopicCounts)
    ensures IsWeak(c) <==> var t := c.total.GetOr(0); var k := c.correct.GetOr(0); t > 0 && 5 * k < 3 * t
  {
    var t := c.total.GetOr(0);
    if t > 0 {
      DivLt(c.correct.GetOr(0) as real, t as real, 0.6);
    }
  }

  /** The names of the weak topics, in the order of `topic_stats`. */
  function WeakTopicNames(stats: seq<(string, TopicCounts)>): seq<string>
  {
    if stats == [] then []
    else
      var last := stats[|stats| - 1];
      WeakTopicNames(stats[..|stats| - 1]) + (if IsWeak(last.1) then [last.0] else [])
  }

  /** Selecting weak topics distributes over concatenation, so it keeps their relative order. */
  lemma {:induction false} WeakTopicNamesAppend(a: seq<(string, TopicCounts)>, b: seq<(string, TopicCounts)>)
    ensures WeakTopicNames(a + b) == WeakTopicNames(a) + WeakTopicNames(b)
  {
    if b == [] {
      assert a + b == a;
    } else {
      var b' := b[..|b| - 1];
      assert (a + b)[..|a + b| - 1] == a + b';
      WeakTopicNamesAppend(a, b');
    }
  }

  /** A name is reported weak exactly when some entry with that name is weak. */
  lemma {:induction false} WeakTopicNamesMembers(stats: seq<(string, TopicCounts)>, name: string)
    ensures name in WeakTopicNames(stats) <==> exists i :: 0 <= i < |stats| && stats[i].0 == name && IsWeak(stats[i].1)
  {
    if stats != [] {
      var before := stats[..|stats| - 1];
      WeakTopicNamesMembers(before, name);
      if exists i :: 0 <= i < |before| && before[i].0 == name && IsWeak(before[i].1) {
        var i :| 0 <= i < |before| && before[i].0 == name && IsWeak(before[i].1);
        assert stats[i] == before[i];
      }
      if exists i :: 0 <= i < |stats| && stats[i].0 == name && IsWeak(stats[i].1) {
        var i :| 0 <= i < |stats| && stats[i].0 == name && IsWeak(stats[i].1);
        if i < |before| {
          assert before[i] == stats[i];
        }
      }
    }
  }

  /** The loop over `topic_stats` that collects the weak topics. */
  method CollectWeakTopics(stats: seq<(string, TopicCounts)>) returns (weak: seq<string>)
    ensures weak == WeakTopicNames(stats)
  {
    weak := [];
    var i := 0;
    while i < |stats|
      invariant 0 <= i <= |stats|
      invariant weak == WeakTopicNames(stats[..i])
    {
      var topic := stats[i].0;
      var total := stats[i].1.total.GetOr(0);
      var correct := stats[i].1.correct.GetOr(0);
      if total > 0 {
        var mastery := correct as real / total as real;
        if mastery < 0.6 {
          weak := weak + [topic];
        }
      }
      assert stats[..i + 1][..i] == stats[..i];
      i := i + 1;
    }
    assert stats[..|stats|] == stats;
  }

  function UnavailableLine(): string {
    "AI coaching is " + "temporarily " + "unavailable (rate " + "limit reached).\n\n"
  }

  function AccuracyLead(): string { "Your current " + "accuracy is " }

  function FocusLine(): string { "You should focus on " + "revising these " + "topics:\n" }

  function ContinueLine(): string { "Continue practicing " + "regularly to improve " + "retention.\n" }

  function TipLine(): string {
    "\nTip: Practice weak " + "topics first, then " + "review strong ones " + "after a few days."
  }

  lemma LineStarts()
    ensures |FocusLine()| > 0 && FocusLine()[0] == 'Y'
    ensures |ContinueLine()| > 0 && ContinueLine()[0] == 'C'
  {
  }

  /** The line reporting the accuracy percentage. */
  function AccuracyLine(pct: int): string {
    AccuracyLead() + IntText(pct) + "%.\n"
  }

  /** The line naming the weak topics, or encouraging regular practice when there is none. */
  function TopicLine(weak: seq<string>): string {
    if weak != [] then FocusLine() + Join(weak, ", ") + ".\n" else ContinueLine()
  }

  /** The fallback message for a percentage and a list of weak topics. */
  function AdviceText(pct: int, weak: seq<string>): string
  {
    UnavailableLine() + AccuracyLine(pct) + TopicLine(weak) + TipLine()
  }

  /** What the fallback answers for a summary dictionary. */
  function Fallback(d: ProgressDict): string {
    AdviceText(
      Percent(d.totalQuestions.GetOr(0), d.correctAnswers.GetOr(0)),
      WeakTopicNames(d.topicStats.GetOr([])))
  }

  /** The rest of the message after the percentage: the topic line and the tip. */
  function AdviceRest(weak: seq<string>): string {
    ".\n" + TopicLine(weak) + TipLine()
  }

  /** The topic line starts with "You should…" when there are weak topics and with "Continue…" otherwise. */
  lemma AdviceRestStart(weak: seq<string>)
    ensures |AdviceRest(weak)| > 2 && AdviceRest(weak)[2] == (if weak != [] then 'Y' else 'C')
  {
    LineStarts();
    var line := TopicLine(weak);
    assert |line| > 0 && line[0] == (if weak != [] then 'Y' else 'C');
    assert (".\n" + line)[2] == line[0];
  }

  lemma Regroup(u: string, l: string, i: string, r: string, t: string, tip: string)
    ensures u + (l + i + ("%" + r)) + t + tip == (u + l) + (i + "%" + (r + t + tip))
  {
  }

  /** The message cut at the first '%': the fixed lead, the percentage, and the rest. */
  lemma AdviceTextSplit(pct: int, weak: seq<string>)
    ensures AdviceText(pct, weak) == (UnavailableLine() + AccuracyLead()) + (IntText(pct) + "%" + AdviceRest(weak))
  {
    assert "%.\n" == "%" + ".\n";
    Regroup(UnavailableLine(), AccuracyLead(), IntText(pct), ".\n", TopicLine(weak), TipLine());
  }

  /**
   * The fallback message reports its percentage unambiguously and says whether
   * there are weak topics: two messages that are equal agree on both.
   */
  lemma AdviceTextDetermines(p1: int, w1: seq<string>, p2: int, w2: seq<string>)
    ensures AdviceText(p1, w1) == AdviceText(p2, w2) ==> p1 == p2 && (w1 == [] <==> w2 == [])
  {
    if AdviceText(p1, w1) == AdviceText(p2, w2) {
      var lead := UnavailableLine() + AccuracyLead();
      var t1, t2 := IntText(p1) + "%" + AdviceRest(w1), IntText(p2) + "%" + AdviceRest(w2);
      AdviceTextSplit(p1, w1);
      AdviceTextSplit(p2, w2);
      assert (lead + t1)[|lead|..] == t1 && (lead + t2)[|lead|..] == t2;
      assert '%' !in IntText(p1) && '%' !in IntText(p2);
      SplitAtMark(IntText(p1), AdviceRest(w1), IntText(p2), AdviceRest(w2), '%');
      IntTextInjective(p1, p2);
      AdviceRestStart(w1);
      AdviceRestStart(w2);
    }
  }

  /** The loop-and-append computation of the fallback message. */
  method FallbackAdvice(d: ProgressDict) returns (advice: string)
    ensures advice == Fallback(d)
  {
    var totalQ := d.totalQuestions.GetOr(0);
    var correct := d.correctAnswers.GetOr(0);
    var accuracy := 0;
    if totalQ > 0 {
      accuracy := Truncate((correct as real / totalQ as real) * 100.0);
    }
    var topicStats := d.topicStats.GetOr([]);
    var weakTopics := CollectWeakTopics(topicStats);
    assert accuracy == Percent(totalQ, correct);
    advice := UnavailableLine() + AccuracyLine(accuracy);
    if weakTopics != [] {
      advice := advice + (FocusLine() + Join(weakTopics, ", ") + ".\n");
    } else {
      advice := advice + ContinueLine();
    }
    advice := advice + TipLine();
  }

  /** The message the fallback gives when none of the three keys it reads is present. */
  function NoDataAdvice(): string {
    UnavailableLine() + (AccuracyLead() + "0" + "%.\n") + ContinueLine() + TipLine()
  }

  /** A summary without `total_questions`, `correct_answers` and `topic_stats` gets 0% and no weak topics. */
  lemma FallbackWithoutKeys(rendered: string)
    ensures Fallback(ProgressDict(rendered, None, None, None)) == NoDataAdvice()
  {
    assert IntText(0) == "0";
  }

  // ---------- entry point ----------

  /** The summary `{}` a caller passes when it has none. */
  const EmptyProgress: ProgressDict := ProgressDict("{}", None, None, None)

  /** What `get_coaching_advice` answers: the model's reply, or the fallback when the model raises. */
  function CoachingAdvice(d: ProgressDict, chat: seq<Message> -> Outcome<string>): string {
    var reply := chat(CoachMessages(d));
    if reply.Ok? then reply.value else Fallback(d)
  }

  /**
   * `get_coaching_advice`: the model's reply, unchanged, when the call succeeds;
   * the rule-based fallback only when it raises.
   */
  method GetCoachingAdvice(d: ProgressDict, chat: seq<Message> -> Outcome<string>) returns (text: string)
    ensures chat(CoachMessages(d)).Ok? ==> text == chat(CoachMessages(d)).value
    ensures chat(CoachMessages(d)).Raised? ==> text == Fallback(d)
    ensures text == CoachingAdvice(d, chat)
  {
    var prompt := CoachPrompt(d.rendered);
    var messages := [Message("system", SystemText()), Message("user", prompt)];
    assert messages == CoachMessages(d);
    var reply := chat(messages);
    if reply.Ok? {
      return reply.value;
    }
    text := FallbackAdvice(d);
  }
}

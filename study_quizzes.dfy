/**
 * `get_quiz_questions` of the exam study guide generator: questions from
 * the student's quiz attempts before the exam, de-duplicated by the first
 * 100 characters of their cleaned text. Every request is an input: the
 * quizzes response, each quiz's submissions response and each attempt's
 * questions response.
 */
module StudyQuizzes {
  import opened Wrappers
  import opened Text
  import opened Html
  import opened Timestamps
  import opened CanvasData

  /** An entry of `quiz_submission_questions`; `answers` holds each answer's `text`. */
  datatype Question = Question(text: Option<string>, qtype: Option<string>, answers: seq<Option<string>>)

  /** A quiz submission (one attempt) and the response its questions request would get. */
  datatype Submission = Submission(id: Option<int>, attempt: Option<int>, questions: Fetch<seq<Question>>)

  /** A quiz and the response its submissions request would get. */
  datatype Quiz = Quiz(title: Option<string>, dueAt: Option<string>, lockAt: Option<string>, submissions: Fetch<seq<Submission>>)

  /** One element of `all_quiz_questions`. */
  datatype StoredQuestion = StoredQuestion(quiz: string, question: string, qtype: string, attempt: int)

  const DedupWidth: nat := 100
  const OptionsLead: string := "\n   Options: "

  /** `sep.join(parts)` */
  function JoinWith(parts: seq<string>, sep: string): string {
    if parts == [] then ""
    else if |parts| == 1 then parts[0]
    else parts[0] + sep + JoinWith(parts[1..], sep)
  }

  /** `[clean_html(a['text']) for a in answers if a.get('text')]` */
  function AnswerTexts(answers: seq<Option<string>>): seq<string> {
    if answers == [] then []
    else
      var a := answers[|answers| - 1];
      AnswerTexts(answers[..|answers| - 1]) + (if Truthy(a) then [CleanHtml(a)] else [])
  }

  /** The `answers_info` suffix: up to five cleaned options of a choice question. */
  function OptionsSuffix(q: Question): (r: string)
    ensures r == "" || StartsWith(r, OptionsLead)
  {
    if q.answers != [] && (q.qtype == Some("multiple_choice_question") || q.qtype == Some("true_false_question")) then
      var texts := AnswerTexts(q.answers);
      if texts != [] then OptionsLead + JoinWith(Take(texts, 5), " | ") else ""
    else ""
  }

  /** Some stored question's first 100 characters equal `key`. */
  predicate Seen(acc: seq<StoredQuestion>, key: string) {
    exists i :: 0 <= i < |acc| && Take(acc[i].question, DedupWidth) == key
  }

  /**
   * The handling of one question: appended, with its options, unless its
   * cleaned text is empty or its first 100 characters equal the first 100
   * characters of a stored question (options included).
   */
  function AddQuestion(acc: seq<StoredQuestion>, q: Question, quizTitle: string, attempt: int): (r: seq<StoredQuestion>)
    ensures var text := CleanHtml(q.text);
            r != acc <==> text != "" && !Seen(acc, Take(text, DedupWidth))
    ensures r != acc ==> r == acc + [StoredQuestion(quizTitle, CleanHtml(q.text) + OptionsSuffix(q), GetOr(q.qtype, ""), attempt)]
  {
    var text := CleanHtml(q.text);
    if text != "" && !Seen(acc, Take(text, DedupWidth)) then
      acc + [StoredQuestion(quizTitle, text + OptionsSuffix(q), GetOr(q.qtype, ""), attempt)]
    else acc
  }

  /** The questions of one attempt, in order. */
  function AddQuestions(acc: seq<StoredQuestion>, qs: seq<Question>, quizTitle: string, attempt: int): seq<StoredQuestion> {
    if qs == [] then acc
    else AddQuestion(AddQuestions(acc, qs[..|qs| - 1], quizTitle, attempt), qs[|qs| - 1], quizTitle, attempt)
  }

  /**
   * The loop over one quiz's submissions: an attempt without id or whose
   * questions request fails with a status is passed over; the first attempt
   * that returns questions ends the loop; an exception ends it too, keeping
   * what was stored.
   */
  function FromSubmissions(acc: seq<StoredQuestion>, subs: seq<Submission>, quizTitle: string): seq<StoredQuestion>
    decreases |subs|
  {
    if subs == [] then acc
    else
      var s := subs[0];
      if !(s.id.Some? && s.id.value != 0) then FromSubmissions(acc, subs[1..], quizTitle)
      else
        match s.questions
        case Raised => acc
        case BadStatus => FromSubmissions(acc, subs[1..], quizTitle)
        case Ok(qs) =>
          var next := AddQuestions(acc, qs, quizTitle, match s.attempt case Some(n) => n case None => 1);
          if qs != [] then next else FromSubmissions(next, subs[1..], quizTitle)
  }

  /** `quiz.get('due_at') or quiz.get('lock_at')` is set, parses, and is not before the exam. */
  predicate QuizSkipped(q: Quiz, exam: int) {
    var d := if Truthy(q.dueAt) then q.dueAt else q.lockAt;
    Truthy(d) && ParseInstant(d.value).Some? && ParseInstant(d.value).value >= exam
  }

  /** The questions one quiz adds to `acc`. */
  function FromQuiz(acc: seq<StoredQuestion>, q: Quiz, exam: int): seq<StoredQuestion> {
    if QuizSkipped(q, exam) then acc
    else
      match q.submissions
      case Ok(subs) => FromSubmissions(acc, subs, GetOr(q.title, "Quiz"))
      case BadStatus => acc
      case Raised => acc
  }

  function FromQuizzes(acc: seq<StoredQuestion>, quizzes: seq<Quiz>, exam: int): seq<StoredQuestion>
    decreases |quizzes|
  {
    if quizzes == [] then acc else FromQuizzes(FromQuiz(acc, quizzes[0], exam), quizzes[1..], exam)
  }

  /** What `get_quiz_questions` returns for a response to its quizzes request. */
  function QuizQuestions(resp: Fetch<seq<Quiz>>, exam: int): seq<StoredQuestion> {
    match resp
    case Ok(quizzes) => FromQuizzes([], quizzes, exam)
    case BadStatus => []
    case Raised => []
  }

  /** The `any(...)` scan over the stored questions. */
  method AlreadyStored(acc: seq<StoredQuestion>, key: string) returns (found: bool)
    ensures found == Seen(acc, key)
  {
    found := false;
    var i := 0;
    while i < |acc|
      invariant 0 <= i <= |acc|
      invariant found == exists j :: 0 <= j < i && Take(acc[j].question, DedupWidth) == key
    {
      if Take(acc[i].question, DedupWidth) == key {
        found := true;
      }
      i := i + 1;
    }
  }

  /** The loop over the questions of one attempt. */
  method StoreQuestions(acc: seq<StoredQuestion>, qs: seq<Question>, quizTitle: string, attempt: int)
    returns (all: seq<StoredQuestion>)
    ensures all == AddQuestions(acc, qs, quizTitle, attempt)
  {
    all := acc;
    var i := 0;
    while i < |qs|
      invariant 0 <= i <= |qs|
      invariant all == AddQuestions(acc, qs[..i], quizTitle, attempt)
    {
      assert qs[..i + 1][..i] == qs[..i];
      var text := CleanHtml(qs[i].text);
      if text != "" {
        var seen := AlreadyStored(all, Take(text, DedupWidth));
        if !seen {
          all := all + [StoredQuestion(quizTitle, text + OptionsSuffix(qs[i]), GetOr(qs[i].qtype, ""), attempt)];
        }
      }
      i := i + 1;
    }
    assert qs[..|qs|] == qs;
  }

  /** The loop over one quiz's submissions, with its `break`. */
  method StoreFromSubmissions(acc: seq<StoredQuestion>, subs: seq<Submission>, quizTitle: string)
    returns (all: seq<StoredQuestion>)
    ensures all == FromSubmissions(acc, subs, quizTitle)
  {
    all := acc;
    var i := 0;
    while i < |subs|
      invariant 0 <= i <= |subs|
      invariant FromSubmissions(all, subs[i..], quizTitle) == FromSubmissions(acc, subs, quizTitle)
    {
      var s := subs[i];
      assert subs[i..][1..] == subs[i + 1..];
      if s.id.Some? && s.id.value != 0 {
        match s.questions {
          case Raised =>
            return;
          case BadStatus =>
          case Ok(qs) =>
            var attempt := match s.attempt case Some(n) => n case None => 1;
            all := StoreQuestions(all, qs, quizTitle, attempt);
            if qs != [] {
              return;
            }
        }
      }
      i := i + 1;
    }
  }

  method GetQuizQuestions(resp: Fetch<seq<Quiz>>, exam: int) returns (all: seq<StoredQuestion>)
    ensures all == QuizQuestions(resp, exam)
  {
    match resp {
      case BadStatus =>
        return [];
      case Raised =>
        return [];
      case Ok(quizzes) =>
        all := [];
        var i := 0;
        while i < |quizzes|
          invariant 0 <= i <= |quizzes|
          invariant FromQuizzes(all, quizzes[i..], exam) == FromQuizzes([], quizzes, exam)
        {
          var q := quizzes[i];
          assert quizzes[i..][1..] == quizzes[i + 1..];
          if !QuizSkipped(q, exam) {
            match q.submissions {
              case Ok(subs) =>
                all := StoreFromSubmissions(all, subs, GetOr(q.title, "Quiz"));
              case BadStatus =>
              case Raised =>
            }
          }
          i := i + 1;
        }
    }
  }

  /** Later questions never remove or change stored ones. */
  lemma {:induction false} AddQuestionsExtends(acc: seq<StoredQuestion>, qs: seq<Question>, quizTitle: string, attempt: int)
    ensures acc <= AddQuestions(acc, qs, quizTitle, attempt)
  {
    if qs != [] {
      AddQuestionsExtends(acc, qs[..|qs| - 1], quizTitle, attempt);
    }
  }

  /** An exception on a later attempt keeps the questions already stored. */
  lemma {:induction false} FromSubmissionsExtends(acc: seq<StoredQuestion>, subs: seq<Submission>, quizTitle: string)
    ensures acc <= FromSubmissions(acc, subs, quizTitle)
    decreases |subs|
  {
    if subs != [] {
      var s := subs[0];
      if s.id.Some? && s.id.value != 0 && s.questions.Ok? {
        var attempt := match s.attempt case Some(n) => n case None => 1;
        var next := AddQuestions(acc, s.questions.body, quizTitle, attempt);
        AddQuestionsExtends(acc, s.questions.body, quizTitle, attempt);
        FromSubmissionsExtends(next, subs[1..], quizTitle);
      } else {
        FromSubmissionsExtends(acc, subs[1..], quizTitle);
      }
    }
  }

  lemma {:induction false} FromQuizzesExtends(acc: seq<StoredQuestion>, quizzes: seq<Quiz>, exam: int)
    ensures acc <= FromQuizzes(acc, quizzes, exam)
    decreases |quizzes|
  {
    if quizzes != [] {
      var q := quizzes[0];
      if !QuizSkipped(q, exam) && q.submissions.Ok? {
        FromSubmissionsExtends(acc, q.submissions.body, GetOr(q.title, "Quiz"));
      }
      FromQuizzesExtends(FromQuiz(acc, q, exam), quizzes[1..], exam);
    }
  }

  /** A quiz due (or locking) at or after the exam adds nothing; an unparsable date does not skip it. */
  lemma SkippedQuizAddsNothing(acc: seq<StoredQuestion>, q: Quiz, exam: int)
    requires QuizSkipped(q, exam)
    ensures FromQuiz(acc, q, exam) == acc
  {
  }

  /** Only the first attempt that returns questions is read. */
  lemma FirstAnsweredAttemptOnly(acc: seq<StoredQuestion>, s: Submission, rest: seq<Submission>, quizTitle: string)
    requires s.id.Some? && s.id.value != 0 && s.questions.Ok? && s.questions.body != []
    ensures FromSubmissions(acc, [s] + rest, quizTitle)
         == AddQuestions(acc, s.questions.body, quizTitle, match s.attempt case Some(n) => n case None => 1)
  {
    assert ([s] + rest)[0] == s;
  }

  /**
   * Stored questions whose first 100 characters hold no line break (those
   * whose text reaches 100 characters, or that carry no options) are unique
   * by their first 100 characters.
   */
  predicate PrefixUnique(r: seq<StoredQuestion>) {
    forall i, j :: 0 <= i < j < |r| && '\n' !in Take(r[j].question, DedupWidth) ==>
      Take(r[i].question, DedupWidth) != Take(r[j].question, DedupWidth)
  }

  lemma CleanNoBreak(t: Option<string>)
    ensures '\n' !in CleanHtml(t)
  {
    CleanHtmlNormalized(t);
  }

  /**
   * Where the stored text's first 100 characters hold no line break, they are
   * the dedup key the question was checked with.
   */
  lemma StoredPrefixIsKey(text: string, suffix: string)
    requires '\n' !in text && (suffix == "" || StartsWith(suffix, OptionsLead))
    requires '\n' !in Take(text + suffix, DedupWidth)
    ensures Take(text + suffix, DedupWidth) == Take(text, DedupWidth)
  {
    if |text| >= DedupWidth {
      assert (text + suffix)[..DedupWidth] == text[..DedupWidth];
    } else if suffix == "" {
      assert text + suffix == text;
    } else {
      OptionsBreakKept(text, suffix);
    }
  }

  /** A text shorter than 100 characters keeps the line break that opens the options. */
  lemma OptionsBreakKept(text: string, suffix: string)
    requires |text| < DedupWidth && StartsWith(suffix, OptionsLead)
    ensures '\n' in Take(text + suffix, DedupWidth)
  {
    assert suffix[0] == '\n';
    assert Take(text + suffix, DedupWidth)[|text|] == '\n';
  }

  lemma AddQuestionUnique(acc: seq<StoredQuestion>, q: Question, quizTitle: string, attempt: int)
    requires PrefixUnique(acc)
    ensures PrefixUnique(AddQuestion(acc, q, quizTitle, attempt))
  {
    var r := AddQuestion(acc, q, quizTitle, attempt);
    if r != acc {
      var text := CleanHtml(q.text);
      var stored := text + OptionsSuffix(q);
      assert r[|acc|].question == stored;
      if '\n' !in Take(stored, DedupWidth) {
        CleanNoBreak(q.text);
        StoredPrefixIsKey(text, OptionsSuffix(q));
      }
      forall i, j | 0 <= i < j < |r| && '\n' !in Take(r[j].question, DedupWidth)
        ensures Take(r[i].question, DedupWidth) != Take(r[j].question, DedupWidth)
      {
        if j < |acc| {
          assert r[i] == acc[i] && r[j] == acc[j];
        } else {
          assert r[i] == acc[i];
        }
      }
    }
  }

  lemma {:induction false} AddQuestionsUnique(acc: seq<StoredQuestion>, qs: seq<Question>, quizTitle: string, attempt: int)
    requires PrefixUnique(acc)
    ensures PrefixUnique(AddQuestions(acc, qs, quizTitle, attempt))
  {
    if qs != [] {
      AddQuestionsUnique(acc, qs[..|qs| - 1], quizTitle, attempt);
      AddQuestionUnique(AddQuestions(acc, qs[..|qs| - 1], quizTitle, attempt), qs[|qs| - 1], quizTitle, attempt);
    }
  }

  lemma {:induction false} FromSubmissionsUnique(acc: seq<StoredQuestion>, subs: seq<Submission>, quizTitle: string)
    requires PrefixUnique(acc)
    ensures PrefixUnique(FromSubmissions(acc, subs, quizTitle))
    decreases |subs|
  {
    if subs != [] {
      var s := subs[0];
      if s.id.Some? && s.id.value != 0 && s.questions.Ok? {
        var attempt := match s.attempt case Some(n) => n case None => 1;
        AddQuestionsUnique(acc, s.questions.body, quizTitle, attempt);
        FromSubmissionsUnique(AddQuestions(acc, s.questions.body, quizTitle, attempt), subs[1..], quizTitle);
      } else {
        FromSubmissionsUnique(acc, subs[1..], quizTitle);
      }
    }
  }

  lemma {:induction false} FromQuizzesUnique(acc: seq<StoredQuestion>, quizzes: seq<Quiz>, exam: int)
    requires PrefixUnique(acc)
    ensures PrefixUnique(FromQuizzes(acc, quizzes, exam))
    decreases |quizzes|
  {
    if quizzes != [] {
      var q := quizzes[0];
      if !QuizSkipped(q, exam) && q.submissions.Ok? {
        FromSubmissionsUnique(acc, q.submissions.body, GetOr(q.title, "Quiz"));
      }
      FromQuizzesUnique(FromQuiz(acc, q, exam), quizzes[1..], exam);
    }
  }

  /** The collected questions are unique by their first 100 characters, where those hold no line break. */
  lemma QuizQuestionsUnique(resp: Fetch<seq<Quiz>>, exam: int)
    ensures PrefixUnique(QuizQuestions(resp, exam))
  {
    if resp.Ok? {
      FromQuizzesUnique([], resp.body, exam);
    }
  }

  /**
   * The comparison is made against the stored text, options included: a
   * choice question shorter than 100 characters is stored again each time it
   * is met, so such questions are never de-duplicated.
   */
  lemma ShortChoiceQuestionRepeats(q: Question, t1: string, t2: string, a1: int, a2: int)
    requires CleanHtml(q.text) != "" && |CleanHtml(q.text)| < DedupWidth && OptionsSuffix(q) != ""
    ensures |AddQuestion(AddQuestion([], q, t1, a1), q, t2, a2)| == 2
  {
    var text := CleanHtml(q.text);
    var first := AddQuestion([], q, t1, a1);
    assert first == [StoredQuestion(t1, text + OptionsSuffix(q), GetOr(q.qtype, ""), a1)];
    var prefix := Take(first[0].question, DedupWidth);
    assert |prefix| > |text|;
    assert !Seen(first, Take(text, DedupWidth));
  }

  /** A question of 100 characters or more is stored once, however often it is met. */
  lemma LongQuestionOnce(q: Question, t1: string, t2: string, a1: int, a2: int)
    requires |CleanHtml(q.text)| >= DedupWidth
    ensures AddQuestion(AddQuestion([], q, t1, a1), q, t2, a2) == AddQuestion([], q, t1, a1)
  {
    var text := CleanHtml(q.text);
    var first := AddQuestion([], q, t1, a1);
    TakeLong(text, OptionsSuffix(q));
    assert first[0].question == text + OptionsSuffix(q);
    assert Seen(first, Take(text, DedupWidth));
  }

  /** The dedup key of a long text is not changed by what follows it. */
  lemma TakeLong(text: string, suffix: string)
    requires |text| >= DedupWidth
    ensures Take(text + suffix, DedupWidth) == Take(text, DedupWidth)
  {
    assert (text + suffix)[..DedupWidth] == text[..DedupWidth];
  }
}

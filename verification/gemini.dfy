/** The pure part of the AI service: the API-key guard, the rows and
    category list a summary request is built from, the fallbacks applied to
    the reply, and the difficulty stamped onto generated questions. The
    remote model itself is a function parameter (an oracle): prompt wording,
    the network and JSON parsing are outside the model. */
module Gemini {
  import opened Options
  import opened Types
  import opened Seqs

  const NoKeyError := "Brak klucza API Gemini"
  const EmptySummaryFallback := "Nie udało się wygenerować podsumowania."
  const SummaryErrorText :=
    "Wystąpił błąd podczas generowania podsumowania przez AI. Sprawdź poprawność klucza API w ustawieniach."
  const QuestionsErrorText :=
    "Nie udało się wygenerować pytań przez AI. Sprawdź poprawność klucza API w ustawieniach."
  const SuggestionsErrorText := "Nie udało się wygenerować sugestii kategorii."

  /** Defaults for a score whose question is no longer in the catalog. */
  const MissingCategory := "Inne"
  const MissingQuestion := "Pytanie usunięte"
  const UnknownDifficulty := "Niekreślony"

  /** One line of the summary prompt. */
  datatype PromptRow = PromptRow(category: string, question: string, rating: int, difficulty: string)

  /** `questions.find(q => q.id === id)`: the first question with that id. */
  function FindQuestion(questions: seq<Question>, id: string): (r: Option<Question>)
    ensures r.None? <==> forall q :: q in questions ==> q.id != id
    ensures r.Some? ==> exists k :: (0 <= k < |questions| && questions[k] == r.value && r.value.id == id &&
      forall j :: 0 <= j < k ==> questions[j].id != id)
  {
    if |questions| == 0 then None
    else if questions[0].id == id then Some(questions[0])
    else
      var r := FindQuestion(questions[1..], id);
      assert forall q :: q in questions <==> q == questions[0] || q in questions[1..] by {
        assert questions == [questions[0]] + questions[1..];
      }
      if r.Some? then
        var k :| 0 <= k < |questions[1..]| && questions[1..][k] == r.value && r.value.id == id &&
          forall j :: 0 <= j < k ==> questions[1..][j].id != id;
        assert questions[k + 1] == r.value;
        assert forall j :: 0 <= j < k + 1 ==> questions[j].id != id by {
          forall j | 0 <= j < k + 1 ensures questions[j].id != id {
            if j > 0 { assert questions[j] == questions[1..][j - 1]; }
          }
        }
        r
      else r
  }

  /** The prompt row of one score: the question's fields when it is found
      and they are non-empty, the fixed defaults otherwise. */
  function RowFor(score: Score, questions: seq<Question>): PromptRow {
    match FindQuestion(questions, score.questionId)
    case None => PromptRow(MissingCategory, MissingQuestion, score.rating, UnknownDifficulty)
    case Some(q) =>
      PromptRow(Or(q.category, MissingCategory), Or(q.question, MissingQuestion), score.rating,
        OrElse(q.difficulty, UnknownDifficulty))
  }

  /** `scoredData`: one row per score, in score order, with its rating. */
  function ScoredRows(scores: seq<Score>, questions: seq<Question>): (rows: seq<PromptRow>)
    ensures |rows| == |scores|
    ensures forall i :: 0 <= i < |rows| ==> rows[i].rating == scores[i].rating
    ensures forall i :: 0 <= i < |rows| && (forall q :: q in questions ==> q.id != scores[i].questionId) ==>
      rows[i] == PromptRow(MissingCategory, MissingQuestion, scores[i].rating, UnknownDifficulty)
  {
    seq(|scores|, i requires 0 <= i < |scores| => RowFor(scores[i], questions))
  }

  /** A score whose question is found takes the first matching question's
      category, text and difficulty, each replaced by its default when empty. */
  lemma ScoredRowOfFoundQuestion(scores: seq<Score>, questions: seq<Question>, i: int, k: int)
    requires 0 <= i < |scores| && 0 <= k < |questions|
    requires questions[k].id == scores[i].questionId
    requires forall j :: 0 <= j < k ==> questions[j].id != scores[i].questionId
    ensures var q := questions[k];
      ScoredRows(scores, questions)[i] ==
        PromptRow(Or(q.category, MissingCategory), Or(q.question, MissingQuestion), scores[i].rating,
          OrElse(q.difficulty, UnknownDifficulty))
  {
    var r := FindQuestion(questions, scores[i].questionId);
    assert questions[k] in questions;
    var k' :| 0 <= k' < |questions| && questions[k'] == r.value && r.value.id == scores[i].questionId &&
      forall j :: 0 <= j < k' ==> questions[j].id != scores[i].questionId;
    assert k' == k;
  }

  /** `usedCategories`: the distinct row categories, in first-occurrence order. */
  function UsedCategories(rows: seq<PromptRow>): (cats: seq<string>)
    ensures NoDuplicates(cats)
    ensures forall c :: c in cats <==> exists i :: 0 <= i < |rows| && rows[i].category == c
  {
    var all := seq(|rows|, i requires 0 <= i < |rows| => rows[i].category);
    assert forall c :: c in all <==> exists i :: 0 <= i < |rows| && rows[i].category == c by {
      forall c ensures c in all <==> exists i :: 0 <= i < |rows| && rows[i].category == c {
        if c in all { var i :| 0 <= i < |all| && all[i] == c; assert rows[i].category == c; }
        if exists i :: 0 <= i < |rows| && rows[i].category == c {
          var i :| 0 <= i < |rows| && rows[i].category == c;
          assert all[i] == c;
        }
      }
    }
    Dedup(all)
  }

  /** Categories enter the list in the order their first score was given:
      the list for a prefix of the rows is a prefix of the full list. */
  lemma UsedCategoriesFirstOccurrence(rows: seq<PromptRow>, k: nat)
    requires k <= |rows|
    ensures |UsedCategories(rows[..k])| <= |UsedCategories(rows)|
    ensures UsedCategories(rows)[..|UsedCategories(rows[..k])|] == UsedCategories(rows[..k])
  {
    var a := seq(k, i requires 0 <= i < k => rows[i].category);
    var b := seq(|rows| - k, i requires 0 <= i < |rows| - k => rows[k + i].category);
    assert seq(|rows[..k]|, i requires 0 <= i < |rows[..k]| => rows[..k][i].category) == a;
    assert seq(|rows|, i requires 0 <= i < |rows| => rows[i].category) == a + b;
    DedupPrefix(a, b);
  }

  /** What the summary prompt is built from. */
  datatype SummaryRequest = SummaryRequest(
    candidateName: string,
    rows: seq<PromptRow>,
    categories: seq<string>,
    overallComment: Option<string>)

  /** The request as the service builds it: the recruiter's overall comment
      is not part of it. */
  function SummaryRequestAsWritten(session: Session, questions: seq<Question>): SummaryRequest {
    var rows := ScoredRows(session.scores, questions);
    SummaryRequest(session.candidate.name, rows, UsedCategories(rows), None)
  }

  /** Whatever the overall comment says, the service sends the same request. */
  lemma OverallCommentIgnoredAsWritten(session: Session, questions: seq<Question>, c1: string, c2: string)
    ensures SummaryRequestAsWritten(session.(overallComment := Some(c1)), questions)
         == SummaryRequestAsWritten(session.(overallComment := Some(c2)), questions)
  {
  }

  /** The request with the overall comment included, as the comment field of
      the interview screen announces. */
  function SummaryRequestFor(session: Session, questions: seq<Question>): (req: SummaryRequest)
    ensures req.overallComment == session.overallComment
    ensures req.rows == ScoredRows(session.scores, questions)
  {
    var rows := ScoredRows(session.scores, questions);
    SummaryRequest(session.candidate.name, rows, UsedCategories(rows), session.overallComment)
  }

  /** Two different comments now reach the model as two different requests,
      and the request otherwise matches the service's. */
  lemma OverallCommentReachesRequest(session: Session, questions: seq<Question>, c1: string, c2: string)
    requires c1 != c2
    ensures SummaryRequestFor(session.(overallComment := Some(c1)), questions)
         != SummaryRequestFor(session.(overallComment := Some(c2)), questions)
    ensures SummaryRequestFor(session, questions).(overallComment := None)
         == SummaryRequestAsWritten(session, questions)
  {
    assert SummaryRequestFor(session.(overallComment := Some(c1)), questions).overallComment == Some(c1);
  }

  /** The remote model's answer to one request: a response whose text may be
      missing, or a failure of the call. */
  datatype Reply = Replied(text: Option<string>) | Failed

  /** The key check and the reply handling of `generateInterviewSummary`
      for a given request: without a key it throws before any remote call;
      with a key it never throws, turning a failed call into a fixed error
      text and a missing or empty reply into a fixed fallback. */
  function Summarize(apiKey: string, req: SummaryRequest, remote: SummaryRequest -> Reply): (r: Result<string, string>)
    ensures apiKey == "" ==> r == Failure(NoKeyError)
    ensures apiKey != "" ==> r.Success?
    ensures apiKey != "" ==>
      (remote(req).Failed? ==> r.value == SummaryErrorText) &&
      (remote(req).Replied? && Given(remote(req).text) ==> r.value == remote(req).text.value) &&
      (remote(req).Replied? && !Given(remote(req).text) ==> r.value == EmptySummaryFallback)
  {
    if apiKey == "" then Failure(NoKeyError)
    else
      match remote(req)
      case Failed => Success(SummaryErrorText)
      case Replied(text) => Success(OrElse(text, EmptySummaryFallback))
  }

  /** `generateInterviewSummary` as the service writes it: the prompt holds
      the candidate's name, the scored rows and the categories used, and not
      the overall comment. */
  function GenerateSummary(apiKey: string, session: Session, questions: seq<Question>,
                           remote: SummaryRequest -> Reply): (r: Result<string, string>)
    ensures apiKey == "" ==> r == Failure(NoKeyError)
    ensures apiKey != "" ==> r.Success?
    ensures apiKey != "" ==> var reply := remote(SummaryRequestAsWritten(session, questions));
      (reply.Failed? ==> r.value == SummaryErrorText) &&
      (reply.Replied? && Given(reply.text) ==> r.value == reply.text.value) &&
      (reply.Replied? && !Given(reply.text) ==> r.value == EmptySummaryFallback)
  {
    Summarize(apiKey, SummaryRequestAsWritten(session, questions), remote)
  }

  /** As written, the summary cannot depend on what the recruiter typed as
      the overall comment. */
  lemma SummaryIgnoresOverallComment(apiKey: string, session: Session, questions: seq<Question>,
                                     remote: SummaryRequest -> Reply, c1: string, c2: string)
    ensures GenerateSummary(apiKey, session.(overallComment := Some(c1)), questions, remote)
         == GenerateSummary(apiKey, session.(overallComment := Some(c2)), questions, remote)
  {
    OverallCommentIgnoredAsWritten(session, questions, c1, c2);
  }

  /** The summary call with the overall comment forwarded to the model. */
  function GenerateSummaryIntended(apiKey: string, session: Session, questions: seq<Question>,
                                   remote: SummaryRequest -> Reply): (r: Result<string, string>)
    ensures apiKey == "" ==> r == Failure(NoKeyError)
    ensures apiKey != "" ==> r.Success?
    ensures apiKey != "" ==> var reply := remote(SummaryRequestFor(session, questions));
      (reply.Failed? ==> r.value == SummaryErrorText) &&
      (reply.Replied? && Given(reply.text) ==> r.value == reply.text.value) &&
      (reply.Replied? && !Given(reply.text) ==> r.value == EmptySummaryFallback)
  {
    Summarize(apiKey, SummaryRequestFor(session, questions), remote)
  }

  /** Forwarding the comment changes only what the model is asked: a model
      that ignores the comment gives the service's summary, and one that
      answers the comment can tell two comments apart. */
  lemma IntendedSummaryReadsComment(apiKey: string, session: Session, questions: seq<Question>, c1: string, c2: string)
    requires apiKey != "" && c1 != "" && c2 != "" && c1 != c2
    ensures forall remote: SummaryRequest -> Reply ::
      (forall req :: remote(req) == remote(req.(overallComment := None))) ==>
        GenerateSummaryIntended(apiKey, session, questions, remote)
        == GenerateSummary(apiKey, session, questions, remote)
    ensures var echo := (req: SummaryRequest) => Replied(req.overallComment);
      GenerateSummaryIntended(apiKey, session.(overallComment := Some(c1)), questions, echo)
      != GenerateSummaryIntended(apiKey, session.(overallComment := Some(c2)), questions, echo)
  {
    var echo := (req: SummaryRequest) => Replied(req.overallComment);
    var s1 := session.(overallComment := Some(c1));
    var s2 := session.(overallComment := Some(c2));
    assert echo(SummaryRequestFor(s1, questions)) == Replied(Some(c1));
    assert echo(SummaryRequestFor(s2, questions)) == Replied(Some(c2));
    forall remote: SummaryRequest -> Reply |
      forall req :: remote(req) == remote(req.(overallComment := None))
      ensures GenerateSummaryIntended(apiKey, session, questions, remote)
           == GenerateSummary(apiKey, session, questions, remote)
    {
      OverallCommentReachesRequest(session, questions, c1, c2);
      assert remote(SummaryRequestFor(session, questions)) == remote(SummaryRequestAsWritten(session, questions));
    }
  }

  /** What generated questions are requested with. */
  datatype QuestionsRequest = QuestionsRequest(category: string, topic: string, count: int, difficulty: string)

  /** `generateNewQuestions`: the parsed questions, in the order and number
      the model returned them, each stamped with the requested difficulty. */
  function GenerateQuestions(apiKey: string, category: string, topic: string, count: int, difficulty: string,
                             remote: QuestionsRequest -> Option<seq<Draft>>): (r: Result<seq<Draft>, string>)
    ensures apiKey == "" ==> r == Failure(NoKeyError)
    ensures apiKey != "" ==> var parsed := remote(QuestionsRequest(category, topic, count, difficulty));
      (parsed.None? ==> r == Failure(QuestionsErrorText)) &&
      (parsed.Some? ==>
        (r.Success? && |r.value| == |parsed.value| &&
         forall i :: 0 <= i < |r.value| ==>
           r.value[i].difficulty == Some(difficulty) &&
           r.value[i].(difficulty := parsed.value[i].difficulty) == parsed.value[i]))
  {
    if apiKey == "" then Failure(NoKeyError)
    else
      match remote(QuestionsRequest(category, topic, count, difficulty))
      case None => Failure(QuestionsErrorText)
      case Some(parsed) =>
        Success(seq(|parsed|, i requires 0 <= i < |parsed| => parsed[i].(difficulty := Some(difficulty))))
  }

  /** `generateCategorySuggestions`: the model's list as parsed, or a fixed
      error. */
  function SuggestCategories(apiKey: string, techStack: string,
                             remote: string -> Option<seq<string>>): (r: Result<seq<string>, string>)
    ensures apiKey == "" ==> r == Failure(NoKeyError)
    ensures apiKey != "" && remote(techStack).None? ==> r == Failure(SuggestionsErrorText)
    ensures apiKey != "" && remote(techStack).Some? ==> r == Success(remote(techStack).value)
  {
    if apiKey == "" then Failure(NoKeyError)
    else
      match remote(techStack)
      case None => Failure(SuggestionsErrorText)
      case Some(list) => Success(list)
  }
}

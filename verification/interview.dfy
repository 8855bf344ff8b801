/** The interview session: starting it, rating questions, the overall
    comment, and the finish transition that stamps the summary and the
    completed flag, plus the record saved to history. The rating and comment
    handlers are the same in App.tsx and in the interview view; the finish
    handlers differ in how a failing summary call is handled, and both are
    modelled. */
module Interview {
  import opened Options
  import opened Types
  import opened Seqs
  import Scoring
  import Gemini

  const NoKeySummary := "Podsumowanie niedostępne (brak klucza API)."
  const SummaryFailurePrefix := "Wystąpił błąd podczas generowania podsumowania: "

  /** `handleStartInterview`: a fresh, open session owned by the current user. */
  function StartInterview(candidate: Candidate, uid: Option<string>): (s: Session)
    ensures s.candidate == candidate && s.createdBy == uid
    ensures s.scores == [] && !s.isCompleted && s.aiSummary.None? && s.overallComment == Some("")
  {
    Session(candidate, [], false, None, Some(""), uid)
  }

  /** A started session has nothing rated: every average is 0 and the score
      invariants hold trivially. */
  lemma StartedSessionScoresNothing(candidate: Candidate, uid: Option<string>,
                                    cat: string, questions: seq<Question>)
    ensures var s := StartInterview(candidate, uid);
      Scoring.TotalAverage(Some(s)) == 0.0 &&
      Scoring.CategoryAverage(cat, Some(s), questions) == 0.0 &&
      UniqueQuestionIds(s.scores) && ValidRatings(s.scores)
  {
  }

  /** `scores.findIndex(s => s.questionId === questionId)`: the first score of
      that question, or -1. */
  function FindScore(scores: seq<Score>, questionId: string): (i: int)
    ensures -1 <= i < |scores|
    ensures i == -1 <==> forall j :: 0 <= j < |scores| ==> scores[j].questionId != questionId
    ensures i >= 0 ==> (scores[i].questionId == questionId &&
      forall j :: 0 <= j < i ==> scores[j].questionId != questionId)
  {
    if |scores| == 0 then -1
    else if scores[0].questionId == questionId then 0
    else
      var k := FindScore(scores[1..], questionId);
      if k < 0 then -1 else k + 1
  }

  /** `handleRate`: upsert the score of one question. An existing score keeps
      its place and comment and takes the new rating; otherwise a score
      without comment is appended. No other part of the session changes. */
  function Rate(s: Session, questionId: string, rating: int): (r: Session)
    ensures r == s.(scores := r.scores)
    ensures |s.scores| <= |r.scores| <= |s.scores| + 1
    ensures exists j :: 0 <= j < |r.scores| && r.scores[j].questionId == questionId && r.scores[j].rating == rating
  {
    var i := FindScore(s.scores, questionId);
    if i >= 0 then
      var scores := s.scores[i := s.scores[i].(rating := rating)];
      assert scores[i].questionId == questionId;
      s.(scores := scores)
    else
      var scores := s.scores + [Score(questionId, rating, None)];
      assert scores[|s.scores|].questionId == questionId;
      s.(scores := scores)
  }

  /** Re-rating a scored question replaces the rating of its first score in
      place, keeps that score's comment, and leaves every other score alone. */
  lemma RateReplacesInPlace(s: Session, questionId: string, rating: int, i: int)
    requires 0 <= i < |s.scores| && s.scores[i].questionId == questionId
    requires forall j :: 0 <= j < i ==> s.scores[j].questionId != questionId
    ensures var r := Rate(s, questionId, rating);
      |r.scores| == |s.scores| &&
      r.scores[i] == Score(questionId, rating, s.scores[i].comment) &&
      forall j :: 0 <= j < |s.scores| && j != i ==> r.scores[j] == s.scores[j]
  {
    var k := FindScore(s.scores, questionId);
    assert k == i;
  }

  /** Rating an unscored question appends exactly one comment-less score. */
  lemma RateAppendsWhenUnscored(s: Session, questionId: string, rating: int)
    requires forall j :: 0 <= j < |s.scores| ==> s.scores[j].questionId != questionId
    ensures Rate(s, questionId, rating).scores == s.scores + [Score(questionId, rating, None)]
  {
  }

  /** At most one score per question before a rating means at most one after. */
  lemma RateKeepsIdsUnique(s: Session, questionId: string, rating: int)
    requires UniqueQuestionIds(s.scores)
    ensures UniqueQuestionIds(Rate(s, questionId, rating).scores)
  {
    var r := Rate(s, questionId, rating);
    var i := FindScore(s.scores, questionId);
    if i < 0 {
      forall a, b | 0 <= a < b < |r.scores| ensures r.scores[a].questionId != r.scores[b].questionId {
        if b < |s.scores| {
          assert r.scores[a] == s.scores[a] && r.scores[b] == s.scores[b];
        } else {
          assert r.scores[a] == s.scores[a];
        }
      }
    } else {
      forall a, b | 0 <= a < b < |r.scores| ensures r.scores[a].questionId != r.scores[b].questionId {
        assert r.scores[a].questionId == s.scores[a].questionId;
        assert r.scores[b].questionId == s.scores[b].questionId;
      }
    }
  }

  /** With at most one score per question, rating a question leaves exactly
      one score for it, carrying the latest rating. */
  lemma RateLeavesExactlyOne(s: Session, questionId: string, rating: int)
    requires UniqueQuestionIds(s.scores)
    ensures var r := Rate(s, questionId, rating);
      exists j :: 0 <= j < |r.scores| && r.scores[j].questionId == questionId && r.scores[j].rating == rating &&
        forall k :: 0 <= k < |r.scores| && k != j ==> r.scores[k].questionId != questionId
  {
    var r := Rate(s, questionId, rating);
    RateKeepsIdsUnique(s, questionId, rating);
    var j :| 0 <= j < |r.scores| && r.scores[j].questionId == questionId && r.scores[j].rating == rating;
    forall k | 0 <= k < |r.scores| && k != j ensures r.scores[k].questionId != questionId {
      if k < j { assert r.scores[k].questionId != r.scores[j].questionId; }
      else { assert r.scores[j].questionId != r.scores[k].questionId; }
    }
  }

  /** The latest rating wins: rating a question twice is the same as rating
      it once with the second value. */
  lemma RateTwiceLatestWins(s: Session, questionId: string, first: int, second: int)
    ensures Rate(Rate(s, questionId, first), questionId, second) == Rate(s, questionId, second)
  {
    var i := FindScore(s.scores, questionId);
    var r1 := Rate(s, questionId, first);
    if i >= 0 {
      assert FindScore(r1.scores, questionId) == i by {
        assert |r1.scores| == |s.scores| && r1.scores[i].questionId == questionId;
        assert forall j :: 0 <= j < i ==> r1.scores[j] == s.scores[j];
      }
    } else {
      assert FindScore(r1.scores, questionId) == |s.scores| by {
        assert forall j :: 0 <= j < |s.scores| ==> r1.scores[j] == s.scores[j];
      }
    }
  }

  /** Ratings from the rating scale keep every rating of the session in 1..5. */
  lemma RateKeepsRatingsValid(s: Session, questionId: string, rating: int)
    requires ValidRatings(s.scores) && ValidRating(rating)
    ensures ValidRatings(Rate(s, questionId, rating).scores)
  {
    var r := Rate(s, questionId, rating);
    var i := FindScore(s.scores, questionId);
    forall j | 0 <= j < |r.scores| ensures ValidRating(r.scores[j].rating) {
      if j < |s.scores| && j != i { assert r.scores[j] == s.scores[j]; }
    }
  }

  /** `handleUpdateOverallComment`. */
  function UpdateOverallComment(s: Session, comment: string): (r: Session)
    ensures r.overallComment == Some(comment)
    ensures r.(overallComment := s.overallComment) == s
  {
    s.(overallComment := Some(comment))
  }

  /** The comment and the ratings are independent: updating one never undoes
      or alters the other, in either order. */
  lemma CommentAndRatingCommute(s: Session, comment: string, questionId: string, rating: int)
    ensures UpdateOverallComment(Rate(s, questionId, rating), comment)
         == Rate(UpdateOverallComment(s, comment), questionId, rating)
  {
  }

  /** The summary chosen by the interview view: the fixed placeholder without
      a key; with a key, the generated text, or, if the call threw, the error
      prefix followed by the thrown message. */
  function SessionSummary(apiKey: string, generated: Result<string, string>): (summary: string)
    ensures apiKey == "" ==> summary == NoKeySummary
    ensures apiKey != "" && generated.Success? ==> summary == generated.value
    ensures apiKey != "" && generated.Failure? ==> summary == SummaryFailurePrefix + generated.error
  {
    if apiKey == "" then NoKeySummary
    else
      match generated
      case Success(text) => text
      case Failure(message) => SummaryFailurePrefix + message
  }

  /** The completed-session record `{ ...session, isCompleted: true,
      aiSummary: summary, createdBy: userUid }`. */
  function Complete(s: Session, summary: string, uid: Option<string>): (r: Session)
    ensures r.isCompleted && r.aiSummary == Some(summary) && r.createdBy == uid
    ensures r.candidate == s.candidate && r.scores == s.scores && r.overallComment == s.overallComment
  {
    s.(isCompleted := true, aiSummary := Some(summary), createdBy := uid)
  }

  /** `handleFinish` of the interview view: whatever the summary call does,
      the session is completed with some summary. `generated` is how the
      awaited call settled; it is only consulted when a key is set. */
  function FinishInView(s: Session, apiKey: string, uid: Option<string>,
                        generated: Result<string, string>): (r: Session)
    ensures r.isCompleted && r.createdBy == uid
    ensures r.(isCompleted := s.isCompleted, aiSummary := s.aiSummary, createdBy := s.createdBy) == s
    ensures apiKey == "" ==> r.aiSummary == Some(NoKeySummary)
    ensures apiKey != "" && generated.Success? ==> r.aiSummary == Some(generated.value)
    ensures apiKey != "" && generated.Failure? ==> r.aiSummary == Some(SummaryFailurePrefix + generated.error)
  {
    Complete(s, SessionSummary(apiKey, generated), uid)
  }

  /** `handleFinish` of App.tsx: the same, except that the summary call is not
      guarded, so a call that throws aborts the handler with its message and
      nothing is completed or saved. */
  function FinishInApp(s: Session, apiKey: string, uid: Option<string>,
                       generated: Result<string, string>): (r: Result<Session, string>)
    ensures apiKey == "" ==> r == Success(Complete(s, NoKeySummary, uid))
    ensures apiKey != "" && generated.Failure? ==> r == Failure(generated.error)
    ensures apiKey != "" && generated.Success? ==> r == Success(Complete(s, generated.value, uid))
  {
    if apiKey == "" then Success(Complete(s, NoKeySummary, uid))
    else
      match generated
      case Success(text) => Success(Complete(s, text, uid))
      case Failure(message) => Failure(message)
  }

  /** With the summary produced by the service, the two finish handlers agree
      and neither fails: the service never throws when a key is set, so the
      error prefix of the interview view is never used. */
  lemma FinishHandlersAgree(s: Session, apiKey: string, uid: Option<string>,
                            questions: seq<Question>, remote: Gemini.SummaryRequest -> Gemini.Reply)
    ensures var generated := Gemini.GenerateSummary(apiKey, s, questions, remote);
      FinishInApp(s, apiKey, uid, generated) == Success(FinishInView(s, apiKey, uid, generated))
  {
  }

  /** Finishing changes no average: scores are carried over untouched. */
  lemma FinishKeepsAverages(s: Session, apiKey: string, uid: Option<string>,
                            generated: Result<string, string>, cat: string, questions: seq<Question>)
    ensures var r := FinishInView(s, apiKey, uid, generated);
      Scoring.TotalAverage(Some(r)) == Scoring.TotalAverage(Some(s)) &&
      Scoring.CategoryAverage(cat, Some(r), questions) == Scoring.CategoryAverage(cat, Some(s), questions)
  {
  }

  /** `saveToHistory`: the stored record is the session with the current
      user as owner, whatever owner the session named. */
  function HistoryRecord(completed: Session, uid: Option<string>): (rec: Session)
    ensures rec.createdBy == uid
    ensures rec.(createdBy := completed.createdBy) == completed
  {
    completed.(createdBy := uid)
  }

  /** The history record of a finished session is exactly the session the
      summary screen shows. */
  lemma SavedRecordIsShownSession(s: Session, apiKey: string, uid: Option<string>,
                                  generated: Result<string, string>)
    ensures var r := FinishInView(s, apiKey, uid, generated);
      HistoryRecord(r, uid) == r
  {
  }

  const WorkedCatalog := [
    Question("q1", "X", "", "", None, None, None),
    Question("q2", "X", "", "", None, None, None),
    Question("q3", "Y", "", "", None, None, None)]

  const WorkedScores := [Score("q1", 5, None), Score("q2", 4, None), Score("q3", 3, None)]

  lemma WorkedRatings(candidate: Candidate, uid: Option<string>)
    ensures Rate(Rate(Rate(StartInterview(candidate, uid), "q1", 5), "q2", 4), "q3", 3).scores == WorkedScores
  {
    var s1 := Rate(StartInterview(candidate, uid), "q1", 5);
    assert s1.scores == [Score("q1", 5, None)];
    var s2 := Rate(s1, "q2", 4);
    assert s2.scores == [Score("q1", 5, None), Score("q2", 4, None)];
  }

  /** Which worked-example scores belong to a category, by question id. */
  lemma WorkedMembership()
    ensures Scoring.InCategory(WorkedCatalog, "X", "q1") && Scoring.InCategory(WorkedCatalog, "X", "q2")
    ensures !Scoring.InCategory(WorkedCatalog, "X", "q3")
    ensures !Scoring.InCategory(WorkedCatalog, "Y", "q1") && !Scoring.InCategory(WorkedCatalog, "Y", "q2")
    ensures Scoring.InCategory(WorkedCatalog, "Y", "q3")
  {
    assert WorkedCatalog[0] in WorkedCatalog && WorkedCatalog[1] in WorkedCatalog;
    assert WorkedCatalog[2] in WorkedCatalog;
  }

  lemma WorkedCategoryScores(cat: string, expected: seq<Score>)
    requires (cat == "X" && expected == WorkedScores[..2]) || (cat == "Y" && expected == WorkedScores[2..])
    ensures Filter(WorkedScores, (sc: Score) => Scoring.InCategory(WorkedCatalog, cat, sc.questionId)) == expected
  {
    WorkedMembership();
    var p := (sc: Score) => Scoring.InCategory(WorkedCatalog, cat, sc.questionId);
    assert WorkedScores[1..][1..] == [WorkedScores[2]];
    assert Filter([WorkedScores[2]], p) == if cat == "Y" then [WorkedScores[2]] else [];
  }

  lemma WorkedSums()
    ensures Scoring.SumRatings(WorkedScores) == 12
    ensures Scoring.SumRatings(WorkedScores[..2]) == 9
    ensures Scoring.SumRatings(WorkedScores[2..]) == 3
  {
    assert WorkedScores[1..][1..] == WorkedScores[2..];
    assert WorkedScores[..2][1..] == [WorkedScores[1]];
  }

  lemma WorkedAverages(s: Session)
    requires s.scores == WorkedScores
    ensures Scoring.TotalAverage(Some(s)) == 4.0
    ensures Scoring.CategoryAverage("X", Some(s), WorkedCatalog) == 4.5
    ensures Scoring.CategoryAverage("Y", Some(s), WorkedCatalog) == 3.0
  {
    WorkedSums();
    assert Scoring.Mean(WorkedScores) == 12.0 / 3.0;
    assert Scoring.Mean(WorkedScores[..2]) == 9.0 / 2.0;
    assert Scoring.Mean(WorkedScores[2..]) == 3.0 / 1.0;
    Scoring.CategoryAverageCountsExactly("X", s, WorkedCatalog);
    Scoring.CategoryAverageCountsExactly("Y", s, WorkedCatalog);
    WorkedCategoryScores("X", WorkedScores[..2]);
    WorkedCategoryScores("Y", WorkedScores[2..]);
  }

  /** A worked session: questions q1 and q2 of category X and q3 of category
      Y, rated 5, 4 and 3, then finished without a key, averages 4 overall,
      4.5 for X and 3 for Y. */
  lemma WorkedExample(candidate: Candidate, uid: Option<string>)
    ensures
      var s := FinishInView(Rate(Rate(Rate(StartInterview(candidate, uid), "q1", 5), "q2", 4), "q3", 3),
                            "", uid, Failure(""));
      Scoring.TotalAverage(Some(s)) == 4.0 &&
      Scoring.CategoryAverage("X", Some(s), WorkedCatalog) == 4.5 &&
      Scoring.CategoryAverage("Y", Some(s), WorkedCatalog) == 3.0 &&
      s.isCompleted && s.aiSummary == Some(NoKeySummary)
  {
    WorkedRatings(candidate, uid);
    var s := FinishInView(Rate(Rate(Rate(StartInterview(candidate, uid), "q1", 5), "q2", 4), "q3", 3),
                          "", uid, Failure(""));
    WorkedAverages(s);
  }
}

/** The scoring aggregator: overall and per-category averages of a session's
    ratings, and the colour class that tags a difficulty level. Averages are
    exact rationals here; the source divides in floating point and rounds only
    for display. */
module Scoring {
  import opened Options
  import opened Types
  import opened Seqs

  /** The running total `scores.reduce((acc, s) => acc + s.rating, 0)`. */
  function SumRatings(scores: seq<Score>): int {
    if |scores| == 0 then 0 else scores[0].rating + SumRatings(scores[1..])
  }

  /** Flat mean of the ratings, 0 for no ratings. */
  function Mean(scores: seq<Score>): real {
    if |scores| == 0 then 0.0 else (SumRatings(scores) as real) / (|scores| as real)
  }

  /** With every rating in 1..5, the total lies between one and five times
      the number of ratings. */
  lemma {:induction false} SumRatingsBounds(scores: seq<Score>)
    requires ValidRatings(scores)
    ensures |scores| <= SumRatings(scores) <= 5 * |scores|
    decreases |scores|
  {
    if |scores| > 0 {
      assert ValidRating(scores[0].rating);
      assert ValidRatings(scores[1..]) by {
        forall i | 0 <= i < |scores[1..]| ensures ValidRating(scores[1..][i].rating) {
          assert scores[1..][i] == scores[i + 1];
        }
      }
      SumRatingsBounds(scores[1..]);
    }
  }

  /** A mean of ratings from the rating domain stays in the rating domain. */
  lemma MeanBounds(scores: seq<Score>)
    requires ValidRatings(scores)
    requires |scores| > 0
    ensures 1.0 <= Mean(scores) <= 5.0
  {
    SumRatingsBounds(scores);
    RatioBounds(SumRatings(scores) as real, |scores| as real);
  }

  lemma RatioBounds(s: real, n: real)
    requires 0.0 < n <= s <= 5.0 * n
    ensures 1.0 <= s / n <= 5.0
  {
    var m := s / n;
    assert m * n == s;
    assert (m - 1.0) * n == s - n;
    assert (5.0 - m) * n == 5.0 * n - s;
    PositiveFactor(m - 1.0, n);
    PositiveFactor(5.0 - m, n);
  }

  lemma PositiveFactor(a: real, n: real)
    requires n > 0.0 && a * n >= 0.0
    ensures a >= 0.0
  {
  }

  /** `calculateTotalAverage`: the mean over all scores of the session,
      whatever question or category they belong to; no catalog is consulted. */
  function TotalAverage(session: Option<Session>): (r: real)
    ensures session.None? ==> r == 0.0
    ensures session.Some? && |session.value.scores| == 0 ==> r == 0.0
    ensures session.Some? && |session.value.scores| > 0 ==>
      r * (|session.value.scores| as real) == SumRatings(session.value.scores) as real
    ensures session.Some? && |session.value.scores| > 0 && ValidRatings(session.value.scores) ==>
      1.0 <= r <= 5.0
  {
    match session
    case None => 0.0
    case Some(s) =>
      if |s.scores| == 0 then 0.0
      else
        assert ValidRatings(s.scores) ==> 1.0 <= Mean(s.scores) <= 5.0 by {
          if ValidRatings(s.scores) { MeanBounds(s.scores); }
        }
        Mean(s.scores)
  }

  /** `questions.filter(q => q.category === cat).map(q => q.id)`. */
  function CategoryQuestionIds(questions: seq<Question>, cat: string): (ids: seq<string>)
    ensures forall id :: id in ids <==> InCategory(questions, cat, id)
  {
    var inCat := Filter(questions, (q: Question) => q.category == cat);
    var ids := seq(|inCat|, i requires 0 <= i < |inCat| => inCat[i].id);
    assert forall id :: InCategory(questions, cat, id) ==> id in ids by {
      forall id | InCategory(questions, cat, id) ensures id in ids {
        var q :| q in questions && q.category == cat && q.id == id;
        assert q in inCat;
        var k :| 0 <= k < |inCat| && inCat[k] == q;
        assert ids[k] == id;
      }
    }
    ids
  }

  /** `id` names some catalog question filed under `cat`. */
  predicate InCategory(questions: seq<Question>, cat: string, id: string) {
    exists q :: q in questions && q.category == cat && q.id == id
  }

  /** The scores the category average is taken over: those whose question id
      is listed among the category's question ids. */
  function CategoryScores(cat: string, scores: seq<Score>, questions: seq<Question>): seq<Score> {
    var ids := CategoryQuestionIds(questions, cat);
    Filter(scores, (s: Score) => s.questionId in ids)
  }

  /** `calculateCategoryAverage`. */
  function CategoryAverage(cat: string, session: Option<Session>, questions: seq<Question>): (r: real)
    ensures session.None? ==> r == 0.0
    ensures (session.Some? &&
      forall s :: s in session.value.scores ==> !InCategory(questions, cat, s.questionId)) ==> r == 0.0
    ensures (session.Some? && ValidRatings(session.value.scores) &&
      exists s :: s in session.value.scores && InCategory(questions, cat, s.questionId)) ==>
      1.0 <= r <= 5.0
  {
    match session
    case None => 0.0
    case Some(s) =>
      var scores := CategoryScores(cat, s.scores, questions);
      if |scores| == 0 then 0.0
      else
        assert ValidRatings(s.scores) ==> 1.0 <= Mean(scores) <= 5.0 by {
          if ValidRatings(s.scores) {
            forall i | 0 <= i < |scores| ensures ValidRating(scores[i].rating) {
              assert scores[i] in s.scores;
            }
            MeanBounds(scores);
          }
        }
        Mean(scores)
  }

  /** The category average is the mean over exactly the scores whose question
      id belongs to some question of that category, kept in session order and
      multiplicity: a catalog that lists the same id twice does not count a
      score twice. */
  lemma CategoryAverageCountsExactly(cat: string, session: Session, questions: seq<Question>)
    ensures CategoryAverage(cat, Some(session), questions)
      == Mean(Filter(session.scores, (s: Score) => InCategory(questions, cat, s.questionId)))
  {
    var ids := CategoryQuestionIds(questions, cat);
    FilterCongruent(session.scores,
      (s: Score) => s.questionId in ids,
      (s: Score) => InCategory(questions, cat, s.questionId));
  }

  /** The category average depends on the catalog only through the set of ids
      filed under that category. */
  lemma CategoryAverageCatalogIndependent(cat: string, session: Option<Session>,
                                          q1: seq<Question>, q2: seq<Question>)
    requires forall id :: InCategory(q1, cat, id) <==> InCategory(q2, cat, id)
    ensures CategoryAverage(cat, session, q1) == CategoryAverage(cat, session, q2)
  {
    if session.Some? {
      CategoryAverageCountsExactly(cat, session.value, q1);
      CategoryAverageCountsExactly(cat, session.value, q2);
      FilterCongruent(session.value.scores,
        (s: Score) => InCategory(q1, cat, s.questionId),
        (s: Score) => InCategory(q2, cat, s.questionId));
    }
  }

  /** Adding catalog questions of other categories does not move an average. */
  lemma OtherCategoriesIrrelevant(cat: string, session: Option<Session>,
                                  questions: seq<Question>, others: seq<Question>)
    requires forall q :: q in others ==> q.category != cat
    ensures CategoryAverage(cat, session, questions + others) == CategoryAverage(cat, session, questions)
  {
    forall id ensures InCategory(questions + others, cat, id) <==> InCategory(questions, cat, id) {
      if InCategory(questions + others, cat, id) {
        var q :| q in questions + others && q.category == cat && q.id == id;
        assert q in questions;
      }
      if InCategory(questions, cat, id) {
        var q :| q in questions && q.category == cat && q.id == id;
        assert q in questions + others;
      }
    }
    CategoryAverageCatalogIndependent(cat, session, questions + others, questions);
  }

  /** Repeating an id already filed under the category does not move its
      average: an id either belongs to the category or not, nothing is joined. */
  lemma DuplicateIdsNotDoubleCounted(cat: string, session: Option<Session>,
                                     questions: seq<Question>, dup: Question)
    requires InCategory(questions, cat, dup.id)
    ensures CategoryAverage(cat, session, questions + [dup]) == CategoryAverage(cat, session, questions)
  {
    forall id ensures InCategory(questions + [dup], cat, id) <==> InCategory(questions, cat, id) {
      if InCategory(questions + [dup], cat, id) {
        var q :| q in questions + [dup] && q.category == cat && q.id == id;
        if q != dup { assert q in questions; }
      }
      if InCategory(questions, cat, id) {
        var q :| q in questions && q.category == cat && q.id == id;
        assert q in questions + [dup];
      }
    }
    CategoryAverageCatalogIndependent(cat, session, questions + [dup], questions);
  }

  const JuniorColor := "bg-green-100 text-green-700 border-green-200"
  const MidColor := "bg-blue-100 text-blue-700 border-blue-200"
  const SeniorColor := "bg-purple-100 text-purple-700 border-purple-200"
  const DefaultColor := "bg-slate-100 text-slate-700 border-slate-200"

  /** `difficultyColor`: a switch on the exact level name; an absent level
      takes the default class even though it is displayed as Mid. */
  function DifficultyColor(difficulty: Option<string>): string {
    match difficulty
    case Some("Junior") => JuniorColor
    case Some("Mid") => MidColor
    case Some("Senior") => SeniorColor
    case _ => DefaultColor
  }

  /** Two difficulties get the same colour exactly when they are the same
      level, or both are something other than the three levels. */
  lemma DifficultyColorClasses(d1: Option<string>, d2: Option<string>)
    ensures DifficultyColor(d1) in {JuniorColor, MidColor, SeniorColor, DefaultColor}
    ensures DifficultyColor(d1) == DifficultyColor(d2) <==>
      d1 == d2 ||
      (d1 !in {Some("Junior"), Some("Mid"), Some("Senior")} &&
       d2 !in {Some("Junior"), Some("Mid"), Some("Senior")})
  {
  }
}

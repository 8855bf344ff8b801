/** The records the recruiter tool stores and passes around. The fields are
    those the code reads and writes, which is more than the declared
    interfaces list: questions also carry a difficulty, a privacy flag and
    an owner, and sessions an overall comment and an owner. */
module Types {
  import opened Options

  /** A catalog question. `id` is the document id; the empty string stands
      for a question without one. An absent `isPrivate` reads as public and
      an absent `difficulty` is shown as Mid. */
  datatype Question = Question(
    id: string,
    category: string,
    question: string,
    correctAnswer: string,
    difficulty: Option<string>,
    isPrivate: Option<bool>,
    createdBy: Option<string>)

  /** A question as edited in a form, or as produced by the AI generator:
      every field may be missing (`Partial<Question>`). */
  datatype Draft = Draft(
    id: Option<string>,
    category: Option<string>,
    question: Option<string>,
    correctAnswer: Option<string>,
    difficulty: Option<string>,
    isPrivate: Option<bool>,
    createdBy: Option<string>)

  /** One rating of one question in a session. */
  datatype Score = Score(questionId: string, rating: int, comment: Option<string>)

  datatype Candidate = Candidate(id: string, name: string, interviewDate: string)

  /** One interview, in progress or completed. */
  datatype Session = Session(
    candidate: Candidate,
    scores: seq<Score>,
    isCompleted: bool,
    aiSummary: Option<string>,
    overallComment: Option<string>,
    createdBy: Option<string>)

  /** The rating widget offers the buttons 1 to 5 and nothing else. */
  predicate ValidRating(r: int) {
    1 <= r <= 5
  }

  predicate ValidRatings(scores: seq<Score>) {
    forall i :: 0 <= i < |scores| ==> ValidRating(scores[i].rating)
  }

  /** At most one score per question. */
  predicate UniqueQuestionIds(scores: seq<Score>) {
    forall i, j :: 0 <= i < j < |scores| ==> scores[i].questionId != scores[j].questionId
  }
}

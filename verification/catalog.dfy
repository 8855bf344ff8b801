/** The question catalog view: which stored questions a user sees, the seed
    fallback for an empty view, the category list loaded from its settings
    record, and the grouping of questions under the category list. The same
    logic appears in App.tsx, in the data hook and in the two interview and
    management views. */
module Catalog {
  import opened Options
  import opened Types
  import opened Seqs
  import Seed

  /** A stored question document: its document id and its stored fields. */
  datatype StoredQuestion = StoredQuestion(docId: string, data: Draft)

  /** The question a snapshot listener builds from a document,
      `{ id: d.id, ...data }`: stored fields are spread after the document id,
      so a stored `id` field wins. A missing text field reads as "" (see the
      README on the category field). */
  function Materialize(doc: StoredQuestion): (q: Question)
    ensures doc.data.id.None? ==> q.id == doc.docId
    ensures doc.data.id.Some? ==> q.id == doc.data.id.value
    ensures doc.data.category.Some? ==> q.category == doc.data.category.value
    ensures doc.data.question.Some? ==> q.question == doc.data.question.value
    ensures doc.data.correctAnswer.Some? ==> q.correctAnswer == doc.data.correctAnswer.value
    ensures doc.data.category.None? ==> q.category == ""
    ensures q.difficulty == doc.data.difficulty
    ensures q.isPrivate == doc.data.isPrivate && q.createdBy == doc.data.createdBy
  {
    var d := doc.data;
    Question(
      d.id.GetOr(doc.docId),
      d.category.GetOr(""),
      d.question.GetOr(""),
      d.correctAnswer.GetOr(""),
      d.difficulty,
      d.isPrivate,
      d.createdBy)
  }

  /** The visibility rule: public, own, or ownerless. */
  predicate Visible(q: Question, uid: string) {
    !Flag(q.isPrivate) || q.createdBy == Some(uid) || !Given(q.createdBy)
  }

  /** Public and ownerless questions are visible to everyone; a private
      question with an owner is visible exactly to that owner. */
  lemma VisibilityCases(q: Question, uid: string)
    ensures !Flag(q.isPrivate) ==> Visible(q, uid)
    ensures !Given(q.createdBy) ==> Visible(q, uid)
    ensures Flag(q.isPrivate) && Given(q.createdBy) ==> (Visible(q, uid) <==> q.createdBy.value == uid)
  {
  }

  predicate VisibleDoc(doc: StoredQuestion, uid: string) {
    Visible(Materialize(doc), uid)
  }

  /** The documents of a snapshot that `uid` may see, in snapshot order. */
  function VisibleDocs(snapshot: seq<StoredQuestion>, uid: string): seq<StoredQuestion> {
    Filter(snapshot, (d: StoredQuestion) => VisibleDoc(d, uid))
  }

  /** The questions of one snapshot that `uid` may see, in snapshot order:
      the `snap.forEach` loop that pushes each visible document. */
  function VisibleQuestions(snapshot: seq<StoredQuestion>, uid: string): (qs: seq<Question>)
    ensures |qs| == |VisibleDocs(snapshot, uid)|
    ensures forall i :: 0 <= i < |qs| ==> qs[i] == Materialize(VisibleDocs(snapshot, uid)[i])
  {
    if |snapshot| == 0 then []
    else
      var d := snapshot[0];
      var rest := VisibleQuestions(snapshot[1..], uid);
      assert snapshot == [d] + snapshot[1..];
      if VisibleDoc(d, uid) then
        [Materialize(d)] + rest
      else
        rest
  }

  /** Exactly the questions of visible documents appear, and each may be seen. */
  lemma VisibleQuestionsMembers(snapshot: seq<StoredQuestion>, uid: string)
    ensures forall q :: q in VisibleQuestions(snapshot, uid) ==> Visible(q, uid)
    ensures forall q :: q in VisibleQuestions(snapshot, uid) <==>
      exists d :: d in snapshot && VisibleDoc(d, uid) && Materialize(d) == q
  {
    var qs := VisibleQuestions(snapshot, uid);
    var f := VisibleDocs(snapshot, uid);
    forall q | q in qs
      ensures exists d :: d in snapshot && VisibleDoc(d, uid) && Materialize(d) == q
    {
      var i :| 0 <= i < |qs| && qs[i] == q;
      assert f[i] in f;
    }
    forall d | d in snapshot && VisibleDoc(d, uid)
      ensures Materialize(d) in qs
    {
      assert d in f;
      var i :| 0 <= i < |f| && f[i] == d;
      assert qs[i] == Materialize(d);
    }
  }

  /** The catalog installed on every question snapshot: the visible
      questions in snapshot order, or the seed set when none is visible. */
  function LoadQuestions(snapshot: seq<StoredQuestion>, uid: string): (qs: seq<Question>)
    ensures |qs| > 0
    ensures (forall d :: d in snapshot ==> !VisibleDoc(d, uid)) ==> qs == Seed.SeedQuestions
    ensures (exists d :: d in snapshot && VisibleDoc(d, uid)) ==>
      (|qs| == |VisibleDocs(snapshot, uid)| &&
       forall i :: 0 <= i < |qs| ==> qs[i] == Materialize(VisibleDocs(snapshot, uid)[i]))
    ensures (exists d :: d in snapshot && VisibleDoc(d, uid)) ==>
      forall q :: q in qs <==> exists d :: d in snapshot && VisibleDoc(d, uid) && Materialize(d) == q
  {
    var visible := VisibleQuestions(snapshot, uid);
    VisibleQuestionsMembers(snapshot, uid);
    if |visible| > 0 then
      assert visible[0] in visible;
      visible
    else
      assert forall d :: d in snapshot && VisibleDoc(d, uid) ==> Materialize(d) in visible;
      Seed.SeedQuestions
  }

  /** A stored question without a category is shown in no group of a
      category list without the empty name; the source compares `undefined`
      with each name and never matches. */
  lemma MissingCategoryShownNowhere(categories: seq<string>, questions: seq<Question>, doc: StoredQuestion)
    requires doc.data.category.None? && "" !in categories
    ensures forall g :: g in GroupByCategory(categories, questions) ==> Materialize(doc) !in g.questions
  {
    UnknownCategoryShownNowhere(categories, questions, Materialize(doc));
  }

  /** The settings record holding the category list: absent, or present with
      or without a `list` field. */
  datatype CategoriesDoc = Missing | Present(list: Option<seq<string>>)

  /** What a category snapshot does: the list now shown, and the record
      written back, if any. */
  datatype CategoriesSync = CategoriesSync(categories: seq<string>, write: Option<seq<string>>)

  /** A missing record is created with the default list and the shown list
      is left as it was; a record without a `list` shows the defaults. An
      empty list is truthy in JavaScript, so it is shown as empty. */
  function OnCategoriesSnapshot(current: seq<string>, doc: CategoriesDoc): (r: CategoriesSync)
    ensures doc.Missing? ==> r.categories == current && r.write == Some(Seed.DefaultCategories)
    ensures doc.Present? ==> r.write.None?
    ensures doc.Present? && doc.list.Some? ==> r.categories == doc.list.value
    ensures doc == Present(None) ==> r.categories == Seed.DefaultCategories
  {
    match doc
    case Missing => CategoriesSync(current, Some(Seed.DefaultCategories))
    case Present(list) => CategoriesSync(list.GetOr(Seed.DefaultCategories), None)
  }

  /** Bootstrap round trip: the record written for a missing category list
      makes the next snapshot show the default categories, and writes nothing. */
  lemma CategoriesBootstrap(current: seq<string>, later: seq<string>)
    ensures var first := OnCategoriesSnapshot(current, Missing);
      first.write.Some? &&
      OnCategoriesSnapshot(later, Present(first.write)) == CategoriesSync(Seed.DefaultCategories, None)
  {
  }

  /** One section of a grouped view. */
  datatype Group = Group(name: string, questions: seq<Question>)

  /** `categories.map(cat => ({ name: cat, questions: questions.filter(q => q.category === cat) }))`. */
  function GroupByCategory(categories: seq<string>, questions: seq<Question>): (groups: seq<Group>)
    ensures |groups| == |categories|
    ensures forall i :: 0 <= i < |groups| ==> groups[i].name == categories[i]
    ensures forall i, q :: 0 <= i < |groups| ==>
      (q in groups[i].questions <==> q in questions && q.category == categories[i])
    ensures forall i, q :: 0 <= i < |groups| ==>
      multiset(groups[i].questions)[q] == if q.category == categories[i] then multiset(questions)[q] else 0
    ensures forall i :: 0 <= i < |groups| ==> SubsequenceOf(groups[i].questions, questions)
  {
    seq(|categories|, i requires 0 <= i < |categories| =>
      Group(categories[i], Filter(questions, (q: Question) => q.category == categories[i])))
  }

  /** A question filed under a category that is not in the list is shown in
      no group; no error is raised. */
  lemma UnknownCategoryShownNowhere(categories: seq<string>, questions: seq<Question>, q: Question)
    requires q.category !in categories
    ensures forall g :: g in GroupByCategory(categories, questions) ==> q !in g.questions
  {
    var groups := GroupByCategory(categories, questions);
    forall g | g in groups ensures q !in g.questions {
      var i :| 0 <= i < |groups| && groups[i] == g;
      assert categories[i] != q.category;
    }
  }

  /** With a duplicate-free category list, a question of a listed category
      is shown in exactly one group. */
  lemma KnownCategoryShownOnce(categories: seq<string>, questions: seq<Question>, q: Question)
    requires NoDuplicates(categories)
    requires q in questions && q.category in categories
    ensures var groups := GroupByCategory(categories, questions);
      exists i :: 0 <= i < |groups| && q in groups[i].questions &&
        forall j :: 0 <= j < |groups| && j != i ==> q !in groups[j].questions
  {
    var groups := GroupByCategory(categories, questions);
    var i :| 0 <= i < |categories| && categories[i] == q.category;
    assert q in groups[i].questions;
    forall j | 0 <= j < |groups| && j != i ensures q !in groups[j].questions {
      if j < i { assert categories[j] != categories[i]; }
      else { assert categories[i] != categories[j]; }
    }
  }

  /** When every listed category has some question, no group is empty. */
  lemma CoveredCategoriesHaveNoEmptyGroup(categories: seq<string>, questions: seq<Question>)
    requires forall c :: c in categories ==> exists q :: q in questions && q.category == c
    ensures forall g :: g in GroupByCategory(categories, questions) ==> |g.questions| > 0
  {
    var groups := GroupByCategory(categories, questions);
    forall g | g in groups ensures |g.questions| > 0 {
      var i :| 0 <= i < |groups| && groups[i] == g;
      assert categories[i] in categories;
      var q :| q in questions && q.category == categories[i];
      assert q in g.questions;
    }
  }

  /** The default view, built from the default categories and the seed set,
      has no empty group. */
  lemma DefaultViewHasNoEmptyGroup()
    ensures forall g :: g in GroupByCategory(Seed.DefaultCategories, Seed.SeedQuestions) ==> |g.questions| > 0
  {
    Seed.DefaultCategoriesCovered();
    CoveredCategoriesHaveNoEmptyGroup(Seed.DefaultCategories, Seed.SeedQuestions);
  }
}

/** Category list maintenance: add, delete, rename with its cascade onto the
    questions, and merging AI-suggested categories. Each operation computes a
    new list (or a list of question updates) that is then written to the
    database; a result of `None` means the handler writes nothing. */
module CategoryList {
  import opened Options
  import opened Types
  import opened Seqs
  import Gemini
  import Catalog

  /** `handleAddCategory`, with the guard of the management view in front of
      it: an empty or already listed name writes nothing, any other name is
      appended at the end. */
  function AddCategory(categories: seq<string>, name: string): (r: Option<seq<string>>)
    ensures r.None? <==> name == "" || name in categories
    ensures r.Some? ==> (|r.value| == |categories| + 1 && r.value[..|categories|] == categories &&
      r.value[|categories|] == name)
    ensures r.Some? && NoDuplicates(categories) ==> NoDuplicates(r.value)
  {
    if name == "" || name in categories then None
    else
      var list := categories + [name];
      assert list[..|categories|] == categories;
      Some(list)
  }

  /** `handleDeleteCategory`: every occurrence of the name goes, the other
      names stay in order and multiplicity. Questions of that category are not
      touched. */
  function DeleteCategory(categories: seq<string>, cat: string): (r: seq<string>)
    ensures cat !in r
    ensures forall c :: c != cat ==> multiset(r)[c] == multiset(categories)[c]
    ensures SubsequenceOf(r, categories)
  {
    Filter(categories, (c: string) => c != cat)
  }

  /** `onDeleteCategoryClick`: a category that still files questions is
      deleted only when the recruiter confirms (`confirmed` is the answer to
      the dialog); an unused one is deleted without asking. */
  function OnDeleteCategoryClick(categories: seq<string>, questions: seq<Question>, cat: string,
                                 confirmed: bool): (r: Option<seq<string>>)
    ensures r.None? <==> !confirmed && exists q :: q in questions && q.category == cat
    ensures r.Some? ==> r.value == DeleteCategory(categories, cat)
  {
    var inUse := Filter(questions, (q: Question) => q.category == cat);
    assert (exists q :: q in questions && q.category == cat) ==> |inUse| > 0 by {
      if exists q :: q in questions && q.category == cat {
        var q :| q in questions && q.category == cat;
        assert q in inUse;
      }
    }
    if |inUse| > 0 && !confirmed then None else Some(DeleteCategory(categories, cat))
  }

  /** Deleting a name that is not listed leaves the list as it is. */
  lemma DeleteAbsentCategory(categories: seq<string>, cat: string)
    requires cat !in categories
    ensures DeleteCategory(categories, cat) == categories
  {
    FilterAll(categories, (c: string) => c != cat);
  }

  /** Adding a new name and then deleting it restores the list. */
  lemma AddThenDeleteRestores(categories: seq<string>, name: string)
    requires AddCategory(categories, name).Some?
    ensures DeleteCategory(AddCategory(categories, name).value, name) == categories
  {
    var p := (c: string) => c != name;
    FilterAppend(categories, [name], p);
    DeleteAbsentCategory(categories, name);
    assert Filter([name], p) == [];
  }

  /** The list part of `handleUpdateCategory`: each occurrence of the old
      name is replaced in place. */
  function RenameCategory(categories: seq<string>, oldName: string, newName: string): (r: seq<string>)
    ensures |r| == |categories|
    ensures forall i :: 0 <= i < |r| && categories[i] != oldName ==> r[i] == categories[i]
    ensures forall i :: 0 <= i < |r| && categories[i] == oldName ==> r[i] == newName
    ensures oldName != newName ==> oldName !in r
    ensures NoDuplicates(categories) && newName !in categories ==> NoDuplicates(r)
  {
    seq(|categories|, i requires 0 <= i < |categories| =>
      if categories[i] == oldName then newName else categories[i])
  }

  /** Renaming to a fresh name and back restores the list. */
  lemma RenameRoundTrip(categories: seq<string>, oldName: string, newName: string)
    requires newName !in categories
    ensures RenameCategory(RenameCategory(categories, oldName, newName), newName, oldName) == categories
  {
  }

  /** One `updateDoc(questions/id, { category })` of the cascade. */
  datatype CategoryUpdate = CategoryUpdate(id: string, category: string)

  /** The cascade of a rename in the data hook: one update per loaded question
      of the old category that has an id, in catalog order. */
  function CascadeUpdates(questions: seq<Question>, oldName: string, newName: string): (us: seq<CategoryUpdate>)
    ensures forall u :: u in us ==> u.id != "" && u.category == newName
    ensures forall u :: u in us ==> exists q :: q in questions && q.category == oldName && q.id == u.id
    ensures forall q :: q in questions && q.category == oldName && q.id != "" ==> CategoryUpdate(q.id, newName) in us
    decreases |questions|
  {
    if |questions| == 0 then []
    else
      var q := questions[0];
      var rest := CascadeUpdates(questions[1..], oldName, newName);
      assert forall x :: x in questions <==> x == q || x in questions[1..] by {
        assert questions == [q] + questions[1..];
      }
      if q.category == oldName && q.id != "" then [CategoryUpdate(q.id, newName)] + rest else rest
  }

  /** One update applied to the loaded questions: the document with that id
      takes the new category. */
  function ApplyUpdate(questions: seq<Question>, u: CategoryUpdate): (r: seq<Question>)
    ensures |r| == |questions|
    ensures forall i :: 0 <= i < |r| && questions[i].id != u.id ==> r[i] == questions[i]
    ensures forall i :: 0 <= i < |r| && questions[i].id == u.id ==> r[i] == questions[i].(category := u.category)
  {
    seq(|questions|, i requires 0 <= i < |questions| =>
      if questions[i].id == u.id then questions[i].(category := u.category) else questions[i])
  }

  /** Updates applied one after another, as the cascade issues them. A
      question named by no update keeps its category, so a cascade cut short
      leaves the questions it did not reach on the old name. */
  function ApplyUpdates(questions: seq<Question>, us: seq<CategoryUpdate>): (r: seq<Question>)
    ensures |r| == |questions|
    ensures forall i :: 0 <= i < |r| && (forall u :: u in us ==> u.id != questions[i].id) ==> r[i] == questions[i]
    decreases |us|
  {
    if |us| == 0 then questions
    else
      var next := ApplyUpdate(questions, us[0]);
      var r := ApplyUpdates(next, us[1..]);
      assert forall i :: 0 <= i < |r| && (forall u :: u in us ==> u.id != questions[i].id) ==> r[i] == questions[i] by {
        forall i | 0 <= i < |r| && (forall u :: u in us ==> u.id != questions[i].id) ensures r[i] == questions[i] {
          assert us[0] in us;
          assert next[i] == questions[i];
          forall u | u in us[1..] ensures u.id != next[i].id { assert u in us; }
        }
      }
      r
  }

  /** The loaded catalog a complete cascade is meant to produce: every
      loaded question of the old category that has an id now carries the new
      name, and no other field of any question changes. */
  function Retagged(questions: seq<Question>, oldName: string, newName: string): (r: seq<Question>)
    ensures |r| == |questions|
    ensures forall i :: 0 <= i < |r| ==> r[i].id == questions[i].id
    ensures oldName != newName ==> forall q :: q in r && q.id != "" ==> q.category != oldName
    ensures forall i :: 0 <= i < |r| && (questions[i].id == "" || questions[i].category != oldName) ==>
      r[i] == questions[i]
    ensures forall i :: 0 <= i < |r| ==> r[i] == questions[i].(category := r[i].category)
    ensures forall i :: 0 <= i < |r| && questions[i].id != "" && questions[i].category == oldName ==>
      r[i].category == newName
  {
    seq(|questions|, i requires 0 <= i < |questions| =>
      if questions[i].category == oldName && questions[i].id != "" then questions[i].(category := newName)
      else questions[i])
  }

  /** Non-empty question ids are distinct, as document ids are. */
  predicate DistinctIds(questions: seq<Question>) {
    forall i, j :: 0 <= i < j < |questions| && questions[i].id != "" ==> questions[i].id != questions[j].id
  }

  /** Applying updates to `[q] + rest` when none of them names `q`. */
  lemma {:induction false} ApplyUpdatesSkipHead(q: Question, rest: seq<Question>, us: seq<CategoryUpdate>)
    requires forall u :: u in us ==> u.id != q.id
    ensures ApplyUpdates([q] + rest, us) == [q] + ApplyUpdates(rest, us)
    decreases |us|
  {
    if |us| > 0 {
      assert us[0] in us;
      var u := us[0];
      assert ApplyUpdate([q] + rest, u) == [q] + ApplyUpdate(rest, u);
      forall v | v in us[1..] ensures v.id != q.id { assert v in us; }
      ApplyUpdatesSkipHead(q, ApplyUpdate(rest, u), us[1..]);
    }
  }

  /** An update whose id is carried by no question changes nothing. */
  lemma ApplyUpdateUnmatched(questions: seq<Question>, u: CategoryUpdate)
    requires forall x :: x in questions ==> x.id != u.id
    ensures ApplyUpdate(questions, u) == questions
  {
    var r := ApplyUpdate(questions, u);
    forall i | 0 <= i < |r| ensures r[i] == questions[i] { assert questions[i] in questions; }
  }

  /** The tail of a catalog with distinct ids has distinct ids, and none of
      them repeats a non-empty head id. */
  lemma DistinctIdsTail(questions: seq<Question>)
    requires |questions| > 0 && DistinctIds(questions)
    ensures DistinctIds(questions[1..])
    ensures questions[0].id != "" ==> forall x :: x in questions[1..] ==> x.id != questions[0].id
  {
    var rest := questions[1..];
    forall i, j | 0 <= i < j < |rest| && rest[i].id != "" ensures rest[i].id != rest[j].id {
      assert rest[i] == questions[i + 1] && rest[j] == questions[j + 1];
    }
    if questions[0].id != "" {
      forall x | x in rest ensures x.id != questions[0].id {
        var j :| 0 <= j < |rest| && rest[j] == x;
        assert questions[j + 1] == x;
      }
    }
  }

  lemma RetaggedCons(q: Question, rest: seq<Question>, oldName: string, newName: string)
    ensures Retagged([q] + rest, oldName, newName)
      == [if q.category == oldName && q.id != "" then q.(category := newName) else q] + Retagged(rest, oldName, newName)
  {
  }

  /** When every update of the cascade is applied, the loaded questions end
      up exactly retagged: the cascade reaches every question of the old
      category that has an id, and nothing else. */
  lemma {:induction false} CascadeRetags(questions: seq<Question>, oldName: string, newName: string)
    requires DistinctIds(questions)
    ensures ApplyUpdates(questions, CascadeUpdates(questions, oldName, newName)) == Retagged(questions, oldName, newName)
    decreases |questions|
  {
    if |questions| > 0 {
      var q := questions[0];
      var rest := questions[1..];
      assert questions == [q] + rest;
      var us := CascadeUpdates(rest, oldName, newName);
      DistinctIdsTail(questions);
      CascadeRetags(rest, oldName, newName);
      RetaggedCons(q, rest, oldName, newName);
      if q.category == oldName && q.id != "" {
        CascadeHeadTagged(questions, oldName, newName);
      } else {
        assert CascadeUpdates(questions, oldName, newName) == us;
        forall v | v in us ensures v.id != q.id {
          var x :| x in rest && x.category == oldName && x.id == v.id;
        }
        ApplyUpdatesSkipHead(q, rest, us);
      }
    }
  }

  /** The step of `CascadeRetags` where the head question is retagged by the
      first update. */
  lemma CascadeHeadTagged(questions: seq<Question>, oldName: string, newName: string)
    requires |questions| > 0 && DistinctIds(questions)
    requires questions[0].category == oldName && questions[0].id != ""
    requires ApplyUpdates(questions[1..], CascadeUpdates(questions[1..], oldName, newName))
      == Retagged(questions[1..], oldName, newName)
    ensures ApplyUpdates(questions, CascadeUpdates(questions, oldName, newName))
      == [questions[0].(category := newName)] + Retagged(questions[1..], oldName, newName)
  {
    var q := questions[0];
    var rest := questions[1..];
    var us := CascadeUpdates(rest, oldName, newName);
    var u := CategoryUpdate(q.id, newName);
    DistinctIdsTail(questions);
    assert CascadeUpdates(questions, oldName, newName) == [u] + us;
    assert ([u] + us)[1..] == us;
    ApplyUpdateUnmatched(rest, u);
    assert ApplyUpdate(questions, u) == [q.(category := newName)] + rest by {
      assert questions == [q] + rest;
      assert ApplyUpdate([q] + rest, u) == [q.(category := newName)] + ApplyUpdate(rest, u);
    }
    forall v | v in us ensures v.id != q.id {
      var x :| x in rest && x.category == oldName && x.id == v.id;
    }
    ApplyUpdatesSkipHead(q.(category := newName), rest, us);
  }

  /** The cascade is computed from the loaded catalog only. A stored
      document the user cannot see, whose question shares no id with a
      visible one, is named by no update: it keeps its category, even the
      old name that is no longer listed. */
  lemma HiddenQuestionKeepsCategory(snapshot: seq<Catalog.StoredQuestion>, uid: string,
                                    doc: Catalog.StoredQuestion, oldName: string, newName: string)
    requires doc in snapshot && !Catalog.VisibleDoc(doc, uid)
    requires exists d :: d in snapshot && Catalog.VisibleDoc(d, uid)
    requires forall d :: d in snapshot && Catalog.VisibleDoc(d, uid) ==>
      Catalog.Materialize(d).id != Catalog.Materialize(doc).id
    ensures var us := CascadeUpdates(Catalog.LoadQuestions(snapshot, uid), oldName, newName);
      forall u :: u in us ==> u.id != Catalog.Materialize(doc).id
    ensures var us := CascadeUpdates(Catalog.LoadQuestions(snapshot, uid), oldName, newName);
      ApplyUpdates([Catalog.Materialize(doc)], us) == [Catalog.Materialize(doc)]
  {
  }

  /** The edit being confirmed in the category dialog. */
  datatype CategoryEdit = CategoryEdit(oldName: string, newName: string)

  /** What a confirmed rename writes: the new list, then the cascade. */
  datatype RenameEffect = RenameEffect(list: seq<string>, updates: seq<CategoryUpdate>)

  /** `onUpdateCategoryClick`: no edit, an empty new name or a new name that
      is already listed cancels the edit without writing. */
  function OnUpdateCategoryClick(categories: seq<string>, questions: seq<Question>,
                                 edit: Option<CategoryEdit>): (r: Option<RenameEffect>)
    ensures r.None? <==> edit.None? || edit.value.newName == "" || edit.value.newName in categories
    ensures r.Some? ==> r.value.list == RenameCategory(categories, edit.value.oldName, edit.value.newName)
    ensures r.Some? ==> r.value.updates == CascadeUpdates(questions, edit.value.oldName, edit.value.newName)
  {
    match edit
    case None => None
    case Some(CategoryEdit(oldName, newName)) =>
      if newName == "" || newName in categories then None
      else Some(RenameEffect(RenameCategory(categories, oldName, newName),
                             CascadeUpdates(questions, oldName, newName)))
  }

  /** Renaming a listed category to itself is cancelled, and an accepted
      rename keeps the list free of duplicates and drops the old name. */
  lemma RenameGuardProperties(categories: seq<string>, questions: seq<Question>, edit: CategoryEdit)
    ensures edit.oldName in categories && edit.newName == edit.oldName ==>
      OnUpdateCategoryClick(categories, questions, Some(edit)).None?
    ensures var r := OnUpdateCategoryClick(categories, questions, Some(edit));
      r.Some? && NoDuplicates(categories) ==> NoDuplicates(r.value.list) && edit.oldName !in r.value.list
  {
  }

  /** `Array.from(new Set([...categories, ...suggested]))`. */
  function MergeSuggestions(categories: seq<string>, suggested: seq<string>): (r: seq<string>)
    ensures NoDuplicates(r)
    ensures forall c :: c in r <==> c in categories || c in suggested
    ensures NoDuplicates(categories) ==> |categories| <= |r| && r[..|categories|] == categories
  {
    var all := categories + suggested;
    assert forall c :: c in all <==> c in categories || c in suggested;
    assert NoDuplicates(categories) ==> |categories| <= |Dedup(all)| && Dedup(all)[..|categories|] == categories by {
      if NoDuplicates(categories) {
        DedupPrefix(categories, suggested);
        DedupIdentity(categories);
      }
    }
    Dedup(all)
  }

  /** `onAiSuggestCategoriesClick`: an empty prompt or a missing key writes
      nothing (the latter with an alert); a failed suggestion call is
      reported and writes nothing; otherwise the merged list is written. */
  function OnSuggestCategoriesClick(categories: seq<string>, prompt: string, apiKey: string,
                                    remote: string -> Option<seq<string>>): (r: Option<seq<string>>)
    ensures prompt == "" || apiKey == "" ==> r.None?
    ensures prompt != "" && apiKey != "" && remote(prompt).None? ==> r.None?
    ensures prompt != "" && apiKey != "" && remote(prompt).Some? ==>
      r == Some(MergeSuggestions(categories, remote(prompt).value))
  {
    if prompt == "" || apiKey == "" then None
    else
      match Gemini.SuggestCategories(apiKey, prompt, remote)
      case Failure(_) => None
      case Success(suggested) => Some(MergeSuggestions(categories, suggested))
  }
}

/** Question management: the records written when a question is saved from
    the edit form or when AI-generated questions are saved in bulk, and the
    selection of generated previews. Each write is a pure record; the
    database merges an update into the stored fields. */
module QuestionMgmt {
  import opened Options
  import opened Types
  import opened Seqs
  import Catalog
  import Gemini

  const DefaultDifficulty := "Mid"

  /** A write to the questions collection: the fields given to `updateDoc`
      for an existing document, or to `addDoc` for a new one. */
  datatype QuestionWrite = UpdateQuestion(id: string, fields: Draft) | AddQuestion(fields: Draft)

  /** `handleSaveQuestion`: the id is split off the edited fields; a truthy
      id updates that document, otherwise a new document is added that
      records its author and a boolean privacy flag. Both default the
      difficulty to Mid. */
  function SaveQuestion(draft: Draft, uid: Option<string>): (w: QuestionWrite)
    ensures w.fields.id.None?
    ensures Given(w.fields.difficulty)
    ensures Given(draft.difficulty) ==> w.fields.difficulty == draft.difficulty
    ensures !Given(draft.difficulty) ==> w.fields.difficulty == Some(DefaultDifficulty)
    ensures w.fields.category == draft.category && w.fields.question == draft.question &&
      w.fields.correctAnswer == draft.correctAnswer
    ensures w.UpdateQuestion? <==> Given(draft.id)
    ensures w.UpdateQuestion? ==> (w.id == draft.id.value && w.fields.createdBy == draft.createdBy &&
      w.fields.isPrivate == draft.isPrivate)
    ensures w.AddQuestion? ==> (w.fields.createdBy == uid && w.fields.isPrivate == Some(Flag(draft.isPrivate)))
  {
    var fields := draft.(id := None, difficulty := Some(OrElse(draft.difficulty, DefaultDifficulty)));
    if Given(draft.id) then UpdateQuestion(draft.id.value, fields)
    else AddQuestion(fields.(createdBy := uid, isPrivate := Some(Flag(draft.isPrivate))))
  }

  /** `onSaveQuestionClick`: nothing is written unless a question is being
      edited and its text, category and answer are all non-empty. */
  function OnSaveQuestionClick(editing: Option<Draft>, uid: Option<string>): (r: Option<QuestionWrite>)
    ensures r.None? <==> (editing.None? || !Given(editing.value.question) || !Given(editing.value.category) ||
      !Given(editing.value.correctAnswer))
    ensures r.Some? ==> r.value == SaveQuestion(editing.value, uid)
  {
    match editing
    case None => None
    case Some(d) =>
      if !Given(d.question) || !Given(d.category) || !Given(d.correctAnswer) then None
      else Some(SaveQuestion(d, uid))
  }

  /** One field after a merge write: present in the update means replaced,
      absent means the stored value is kept. */
  predicate FieldMerged<T(==)>(stored: Option<T>, update: Option<T>, merged: Option<T>) {
    (update.Some? ==> merged == update) && (update.None? ==> merged == stored)
  }

  /** `updateDoc` merges: a field present in the update replaces the stored
      one, an absent field keeps it. */
  function MergeFields(stored: Draft, update: Draft): (r: Draft)
    ensures FieldMerged(stored.id, update.id, r.id)
    ensures FieldMerged(stored.category, update.category, r.category)
    ensures FieldMerged(stored.question, update.question, r.question)
    ensures FieldMerged(stored.correctAnswer, update.correctAnswer, r.correctAnswer)
    ensures FieldMerged(stored.difficulty, update.difficulty, r.difficulty)
    ensures FieldMerged(stored.isPrivate, update.isPrivate, r.isPrivate)
    ensures FieldMerged(stored.createdBy, update.createdBy, r.createdBy)
  {
    Draft(
      if update.id.Some? then update.id else stored.id,
      if update.category.Some? then update.category else stored.category,
      if update.question.Some? then update.question else stored.question,
      if update.correctAnswer.Some? then update.correctAnswer else stored.correctAnswer,
      if update.difficulty.Some? then update.difficulty else stored.difficulty,
      if update.isPrivate.Some? then update.isPrivate else stored.isPrivate,
      if update.createdBy.Some? then update.createdBy else stored.createdBy)
  }

  /** The edit form's content for a loaded question: every field present. */
  function EditDraft(q: Question): (d: Draft)
    ensures Given(d.id) <==> q.id != ""
    ensures d.question == Some(q.question) && d.category == Some(q.category)
  {
    Draft(Some(q.id), Some(q.category), Some(q.question), Some(q.correctAnswer),
      q.difficulty, q.isPrivate, q.createdBy)
  }

  /** Opening a loaded question and saving it unchanged updates its own
      document, and the merged document loads back as the same question,
      with Mid filled in when it had no difficulty. The author and the
      privacy flag are kept. */
  lemma EditSaveRoundTrip(doc: Catalog.StoredQuestion, uid: Option<string>)
    requires doc.data.id.None? && doc.docId != ""
    ensures var q := Catalog.Materialize(doc);
      var w := SaveQuestion(EditDraft(q), uid);
      w == UpdateQuestion(doc.docId, w.fields) &&
      Catalog.Materialize(Catalog.StoredQuestion(doc.docId, MergeFields(doc.data, w.fields)))
        == q.(difficulty := Some(OrElse(q.difficulty, DefaultDifficulty)))
  {
  }

  /** A question added by a signed-in user is visible to that user however
      it is flagged, and to everyone when it is not marked private. */
  lemma AddedQuestionVisibility(draft: Draft, author: string, docId: string, viewer: string)
    requires !Given(draft.id)
    ensures var w := SaveQuestion(draft, Some(author));
      var q := Catalog.Materialize(Catalog.StoredQuestion(docId, w.fields));
      q.id == docId && Catalog.Visible(q, author) &&
      (!Flag(draft.isPrivate) ==> Catalog.Visible(q, viewer))
  {
  }

  /** The record `addDoc` receives for one question saved in bulk. */
  function BulkRecord(q: Draft, category: string, difficulty: string, uid: Option<string>): Draft {
    q.(category := Some(category), createdBy := uid, isPrivate := Some(false), difficulty := Some(difficulty))
  }

  /** `handleSaveMultipleQuestions`: one added record per question, in order,
      each overriding category, author, privacy and difficulty and keeping
      the generated text. */
  function SaveMultiple(toSave: seq<Draft>, category: string, difficulty: string,
                        uid: Option<string>): (records: seq<Draft>)
    ensures |records| == |toSave|
    ensures forall i :: 0 <= i < |records| ==>
      records[i].category == Some(category) && records[i].difficulty == Some(difficulty) &&
      records[i].isPrivate == Some(false) && records[i].createdBy == uid
    ensures forall i :: 0 <= i < |records| ==>
      records[i].question == toSave[i].question && records[i].correctAnswer == toSave[i].correctAnswer &&
      records[i].id == toSave[i].id
  {
    seq(|toSave|, i requires 0 <= i < |toSave| => BulkRecord(toSave[i], category, difficulty, uid))
  }

  /** Bulk-saved questions are public, so every user sees them, filed under
      the chosen category. */
  lemma BulkSavedVisibleToAll(toSave: seq<Draft>, category: string, difficulty: string,
                              uid: Option<string>, docIds: seq<string>, viewer: string)
    requires |docIds| == |toSave|
    ensures var records := SaveMultiple(toSave, category, difficulty, uid);
      forall i :: 0 <= i < |records| ==>
        var q := Catalog.Materialize(Catalog.StoredQuestion(docIds[i], records[i]));
        Catalog.Visible(q, viewer) && q.category == category && q.difficulty == Some(difficulty)
  {
  }

  /** Selected preview indices, in the insertion order of the JavaScript set. */
  predicate InRange(selected: seq<nat>, n: nat) {
    forall k :: 0 <= k < |selected| ==> selected[k] < n
  }

  /** `new Set(preview.map((_, i) => i))`: every preview index, in order. */
  function SelectAll(n: nat): (r: seq<nat>)
    ensures |r| == n
    ensures forall k :: 0 <= k < n ==> r[k] == k
    ensures NoDuplicates(r) && InRange(r, n)
  {
    seq(n, k requires 0 <= k < n => k)
  }

  /** `togglePreviewSelection`: a selected index is removed, any other index
      is added at the end. */
  function Toggle(selected: seq<nat>, i: nat): (r: seq<nat>)
    ensures i in r <==> i !in selected
    ensures forall j :: j != i ==> (j in r <==> j in selected)
    ensures NoDuplicates(selected) ==> NoDuplicates(r)
    ensures forall n :: InRange(selected, n) && i < n ==> InRange(r, n)
  {
    if i in selected then
      var r := Filter(selected, (j: nat) => j != i);
      assert forall n :: InRange(selected, n) && i < n ==> InRange(r, n) by {
        forall n, k | InRange(selected, n) && i < n && 0 <= k < |r| ensures r[k] < n {
          assert r[k] in selected;
        }
      }
      assert NoDuplicates(selected) ==> NoDuplicates(r) by {
        if NoDuplicates(selected) { FilterNoDuplicates(selected, (j: nat) => j != i); }
      }
      r
    else selected + [i]
  }

  /** Toggling the same index twice restores the selected set; an index that
      was not selected leaves the very same sequence. */
  lemma ToggleTwice(selected: seq<nat>, i: nat)
    ensures forall j :: j in Toggle(Toggle(selected, i), i) <==> j in selected
    ensures i !in selected ==> Toggle(Toggle(selected, i), i) == selected
  {
    if i !in selected {
      FilterAppend(selected, [i], (j: nat) => j != i);
      FilterAll(selected, (j: nat) => j != i);
      assert Filter([i], (j: nat) => j != i) == [];
    }
  }

  /** `Array.from(selected).map(idx => preview[idx])`: the chosen previews in
      selection order. Indices only ever come from the preview itself. */
  function SaveList(preview: seq<Draft>, selected: seq<nat>): (r: seq<Draft>)
    requires InRange(selected, |preview|)
    ensures |r| == |selected|
    ensures forall k :: 0 <= k < |r| ==> r[k] == preview[selected[k]]
  {
    seq(|selected|, k requires 0 <= k < |selected| => preview[selected[k]])
  }

  /** The save list holds exactly the selected previews: an index is
      selected iff its preview occurs at a position of the list coming from
      that index, and with a duplicate-free selection each index at exactly
      one position. */
  lemma SaveListExactlySelected(preview: seq<Draft>, selected: seq<nat>, idx: nat)
    requires InRange(selected, |preview|) && NoDuplicates(selected)
    requires idx < |preview|
    ensures idx in selected <==>
      exists k :: 0 <= k < |selected| && selected[k] == idx && SaveList(preview, selected)[k] == preview[idx]
    ensures idx in selected ==> Count(selected, idx) == 1
  {
    if idx in selected {
      NoDuplicatesMultiset(selected, idx);
      var k :| 0 <= k < |selected| && selected[k] == idx;
      assert SaveList(preview, selected)[k] == preview[idx];
    }
  }

  /** What the generation form shows: the generated questions and the
      indices ticked for saving. */
  datatype Preview = Preview(questions: seq<Draft>, selected: seq<nat>)

  predicate WellFormed(p: Preview) {
    InRange(p.selected, |p.questions|) && NoDuplicates(p.selected)
  }

  /** `onAiGenerateSubmit`: no category or no key leaves the preview as it
      was (the latter after an alert); a failed generation too. A successful
      one shows the generated questions with all of them selected. */
  function OnAiGenerateSubmit(current: Option<Preview>, apiKey: string, category: string, topic: string,
                              count: int, difficulty: string,
                              remote: Gemini.QuestionsRequest -> Option<seq<Draft>>): (r: Option<Preview>)
    ensures category == "" || apiKey == "" ==> r == current
    ensures category != "" && apiKey != "" ==>
      var g := Gemini.GenerateQuestions(apiKey, category, topic, count, difficulty, remote);
      (g.Failure? ==> r == current) &&
      (g.Success? ==> r == Some(Preview(g.value, SelectAll(|g.value|))))
    ensures current.Some? && WellFormed(current.value) && r.Some? ==> WellFormed(r.value)
  {
    if category == "" || apiKey == "" then current
    else
      match Gemini.GenerateQuestions(apiKey, category, topic, count, difficulty, remote)
      case Failure(_) => current
      case Success(generated) => Some(Preview(generated, SelectAll(|generated|)))
  }

  /** Right after generation, saving the selection saves every generated
      question, in order, with the requested difficulty. */
  lemma SaveAllAfterGeneration(generated: seq<Draft>)
    ensures SaveList(generated, SelectAll(|generated|)) == generated
  {
  }

  /** `onSaveSelectedClick`: without a preview nothing is written; otherwise
      the selected previews are saved in bulk. */
  function OnSaveSelectedClick(preview: Option<Preview>, category: string, difficulty: string,
                               uid: Option<string>): (r: Option<seq<Draft>>)
    requires preview.Some? ==> WellFormed(preview.value)
    ensures r.None? <==> preview.None?
    ensures r.Some? ==> |r.value| == |preview.value.selected|
    ensures r.Some? ==> forall k :: 0 <= k < |r.value| ==>
      r.value[k] == BulkRecord(preview.value.questions[preview.value.selected[k]], category, difficulty, uid)
  {
    match preview
    case None => None
    case Some(p) => Some(SaveMultiple(SaveList(p.questions, p.selected), category, difficulty, uid))
  }

  /** Toggling an index shown in the preview keeps the preview well formed. */
  lemma ToggleKeepsWellFormed(p: Preview, i: nat)
    requires WellFormed(p) && i < |p.questions|
    ensures WellFormed(p.(selected := Toggle(p.selected, i)))
  {
  }
}

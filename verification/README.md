# RecruitAI interview assistant — a Dafny model of its core logic

RecruitAI is a browser tool for technical recruiters. A recruiter keeps a
shared bank of interview questions grouped by category. They run an
interview by rating the candidate's answers from 1 to 5, and they finish it
with an AI-written summary that is saved to history. The tool is a React
application wired straight to a document database and to the Gemini text
API. Its logic is a set of record and list transformations inside event
handlers. This project models those transformations as pure Dafny functions
and proves what the tool relies on.

- **Scoring** (`scoring.dfy`): the overall average and the per-category
  averages of a session's ratings, and the colour class of a difficulty
  level. The same helpers are duplicated in `App.tsx:357-381`.
- **Catalog view** (`catalog.dfy`): how a stored question becomes a catalog
  entry, and the visibility rule (public, own or ownerless). It also models
  the fall-back to the built-in seed set when nothing is visible, the
  category settings record with its bootstrap, and the grouping of
  questions under the category list. The hook and `App.tsx:106-126` load
  the same way.
- **Interview session** (`interview.dfy`): starting a session, the rating
  upsert keyed by question id, the overall comment, and the two finish
  handlers, which differ in how a failing summary call is handled. It also
  models the record saved to history.
- **Category list** (`categories.dfy`): add, delete (with its confirmation
  guard), and rename with the cascade of category updates onto the loaded
  questions. It also covers the merge of AI-suggested categories, which
  keeps the first occurrence of each name.
- **Question management** (`question_mgmt.dfy`): the records written when
  a question is saved from the form or generated questions are saved in
  bulk. It also covers the form guard, and the selection of generated
  previews (select all, toggle, save list).
- **AI service** (`gemini.dfy`): the pure part only. This is the API-key
  guard, the prompt rows and the distinct categories a summary request is
  built from, the fallbacks applied to the reply, and the difficulty
  stamped onto generated questions. The remote model is a function
  parameter.
- **Seed data** (`seed.dfy`): the default category list and the twelve
  seed questions, with lemmas about them.
- `options.dfy`, `seqs.dfy` and `types.dfy` hold shared vocabulary:
  - `Option` and `Result`, and JavaScript truthiness (`x || fallback`, `!!flag`).
  - An order-preserving `Filter`. `Dedup` is the insertion order of a
    JavaScript `Set`.
  - The stored records.

Modelling choices:
- An absent field is `None`. A question's document id is a plain string,
  and `""` stands for a missing id.
- A JavaScript `Set` of preview indices is a duplicate-free sequence in
  insertion order.
- Averages are exact `real`s. The source divides in floating point and
  rounds only for display.
- Every database write is the record or list the handler computes.
  `updateDoc`'s field merge is `QuestionMgmt.MergeFields`. The cascade's
  sequence of updates is applied one at a time by `CategoryList.ApplyUpdates`.

Finishing an interview:
- `handleFinish` in `App.tsx` has no `try` and no timeout around the summary
  call. A summary call that throws aborts it, and nothing is completed or
  saved (`Interview.FinishInApp`).
- The interview view's own finish handler catches the error and completes
  the session anyway (`Interview.FinishInView`).

## Model

| member | source | states |
|---|---|---|
| Options.Or | services/geminiService.ts:15-16 | `s \|\| fallback` keeps a non-empty string and replaces the empty one |
| Options.OrElse | services/geminiService.ts:18 | an absent or empty optional string is replaced by the fallback, anything else is kept |
| Seqs.DedupPrefix | src/views/QuestionsMgmtView.tsx:77 | the set built from `a + b` lists the set of `a` first, in the same order: later elements never reorder earlier ones |
| Scoring.TotalAverage | src/utils/helpers.ts:3-6 | 0 for no session or no scores; otherwise average times count equals the sum of all ratings (no catalog lookup), and lies in [1,5] when every rating does |
| Scoring.SumRatingsBounds | src/utils/helpers.ts:5 | with ratings in 1..5 the total lies between one and five times the number of scores |
| Scoring.MeanBounds | src/utils/helpers.ts:17 | a mean of ratings from the 1..5 scale lies in [1,5] |
| Scoring.CategoryQuestionIds | src/utils/helpers.ts:14 | an id is listed iff some catalog question of that category carries it |
| Scoring.CategoryAverage | src/utils/helpers.ts:8-18 | 0 without a session, 0 when no score's question is in the category, in [1,5] otherwise when ratings are valid |
| Scoring.CategoryAverageCountsExactly | src/utils/helpers.ts:14-15 | the category average is the mean over exactly the scores whose question id belongs to some question of the category, in session order and multiplicity |
| Scoring.CategoryAverageCatalogIndependent | src/utils/helpers.ts:14-15 | two catalogs filing the same ids under a category give it the same average |
| Scoring.OtherCategoriesIrrelevant | src/utils/helpers.ts:14-15 | adding questions of other categories to the catalog does not change a category's average |
| Scoring.DuplicateIdsNotDoubleCounted | src/utils/helpers.ts:15 | repeating an id already filed under the category leaves its average unchanged |
| Scoring.DifficultyColorClasses | src/utils/helpers.ts:20-31 | Junior, Mid and Senior get three distinct classes and everything else (including no level) the default; two levels share a class iff equal or both unknown |
| Seed.DefaultCategoriesDistinct | constants.tsx:4-11 | the default category list has no duplicates |
| Seed.SeedIdsDistinct | constants.tsx:15-36 | the seed question ids are pairwise distinct |
| Seed.SeedCategoriesKnown | constants.tsx:4-36 | the seed set is non-empty and every seed question is filed under a default category |
| Seed.DefaultCategoriesCovered | constants.tsx:4-36 | every default category holds at least one seed question |
| Catalog.Materialize | src/hooks/useFirebaseData.ts:39-42 | the catalog entry of a document copies its category, text, answer, difficulty, owner and privacy flag; it takes the document id, except that a stored `id` field wins |
| Catalog.VisibilityCases | src/hooks/useFirebaseData.ts:40 | public and ownerless questions are visible to everyone; a private owned question is visible exactly to its owner |
| Catalog.VisibleQuestions | src/hooks/useFirebaseData.ts:36-44 | one entry per visible document, in snapshot order: the i-th entry is the question of the i-th visible document |
| Catalog.VisibleQuestionsMembers | src/hooks/useFirebaseData.ts:38-43 | every listed question may be seen by the user, and a question is listed iff it comes from a visible document of the snapshot |
| Catalog.LoadQuestions | src/hooks/useFirebaseData.ts:36-46 | the installed catalog is never empty; it is the seed set when no document is visible; otherwise it has one entry per visible document in snapshot order, and a question is listed iff it comes from a visible document |
| Catalog.OnCategoriesSnapshot | src/hooks/useFirebaseData.ts:27-33 | a missing settings record is written with the default list and the shown list kept; a record without a list shows the defaults; a present list is shown as is |
| Catalog.CategoriesBootstrap | src/hooks/useFirebaseData.ts:28-31 | the record written for a missing list makes the next snapshot show the defaults and write nothing |
| Catalog.GroupByCategory | App.tsx:383-388 | one group per listed category in list order; each holds exactly the questions of that category, in catalog order and multiplicity |
| Catalog.MissingCategoryShownNowhere | App.tsx:383-388 | a stored question without a category is in no group of a category list that does not contain the empty name |
| Catalog.UnknownCategoryShownNowhere | src/views/InterviewFlow/InterviewSession.tsx:32-35 | a question of an unlisted category appears in no group |
| Catalog.KnownCategoryShownOnce | src/views/QuestionsMgmtView.tsx:54-59 | with a duplicate-free list, a question of a listed category appears in exactly one group |
| Catalog.CoveredCategoriesHaveNoEmptyGroup | App.tsx:384-387 | when every listed category has a question, no group is empty |
| Catalog.DefaultViewHasNoEmptyGroup | constants.tsx:4-36 | the default categories over the seed set give no empty group |
| Interview.StartInterview | App.tsx:312-315 | a new session has the candidate, no scores, is open, has an empty comment and no summary, and is owned by the current user |
| Interview.StartedSessionScoresNothing | App.tsx:313 | a new session averages 0 overall and in every category |
| Interview.FindScore | src/views/InterviewFlow/InterviewSession.tsx:38 | the index of the first score of the question, or -1 iff there is none |
| Interview.Rate | src/views/InterviewFlow/InterviewSession.tsx:37-43 | only the scores change, grow by at most one, and some score of the question carries the new rating |
| Interview.RateReplacesInPlace | App.tsx:321-323 | re-rating replaces only the rating of the question's first score, keeping its position and comment; all other scores are unchanged |
| Interview.RateAppendsWhenUnscored | App.tsx:324 | rating an unscored question appends exactly one comment-less score at the end |
| Interview.RateKeepsIdsUnique | App.tsx:321-324 | at most one score per question before a rating means at most one after |
| Interview.RateLeavesExactlyOne | src/views/InterviewFlow/InterviewSession.tsx:38-41 | with unique ids, exactly one score of the rated question remains and it carries the latest rating |
| Interview.RateTwiceLatestWins | src/views/InterviewFlow/InterviewSession.tsx:38-41 | rating a question twice equals rating it once with the second value |
| Interview.RateKeepsRatingsValid | components/RatingScale.tsx:12-15 | ratings from the 1..5 widget keep every rating of the session in 1..5 |
| Interview.UpdateOverallComment | src/views/InterviewFlow/InterviewSession.tsx:45-47 | the comment is set and no other field changes |
| Interview.CommentAndRatingCommute | App.tsx:317-332 | updating the comment and rating a question commute |
| Interview.SessionSummary | src/views/InterviewFlow/InterviewSession.tsx:50-59 | the placeholder without a key; with a key the generated text, or the error prefix plus the thrown message |
| Interview.Complete | src/views/InterviewFlow/InterviewSession.tsx:61 | the completed record is marked completed with the summary and current owner; candidate, scores and comment are kept |
| Interview.FinishInView | src/views/InterviewFlow/InterviewSession.tsx:49-66 | finishing always completes; only the completed flag, summary and owner change; the summary is chosen per key and call outcome |
| Interview.FinishInApp | App.tsx:334-348 | without a key the session completes with the placeholder; with a key a failed call aborts with its message, a successful one completes with the text |
| Interview.FinishHandlersAgree | services/geminiService.ts:39-48 | with the summary the service produces, the two finish handlers give the same completed session and neither aborts |
| Interview.FinishKeepsAverages | src/views/InterviewFlow/InterviewSession.tsx:61 | finishing changes neither the overall nor any category average |
| Interview.HistoryRecord | src/hooks/useFirebaseData.ts:66-75 | the saved record is the session with the current user as owner, whatever owner it named |
| Interview.SavedRecordIsShownSession | src/views/InterviewFlow/InterviewSession.tsx:61-63 | the history record of a finished session is the session the summary screen shows |
| Interview.WorkedExample | src/utils/helpers.ts:3-18 | a session rating q1, q2 (category X) and q3 (category Y) with 5, 4, 3 and finished without a key averages 4 overall, 4.5 for X and 3 for Y |
| CategoryList.AddCategory | src/hooks/useFirebaseData.ts:77-81 | nothing is written iff the name is empty or listed; otherwise it is appended at the end and the list stays duplicate-free |
| CategoryList.AddThenDeleteRestores | src/hooks/useFirebaseData.ts:77-90 | adding a new category and deleting it restores the list |
| CategoryList.DeleteCategory | src/hooks/useFirebaseData.ts:87-90 | every occurrence of the name goes; every other name keeps its multiplicity and order |
| CategoryList.DeleteAbsentCategory | src/hooks/useFirebaseData.ts:88 | deleting an unlisted name leaves the list unchanged |
| CategoryList.OnDeleteCategoryClick | src/views/QuestionsMgmtView.tsx:88-94 | nothing is written iff the category still files questions and the deletion is not confirmed |
| CategoryList.RenameCategory | src/hooks/useFirebaseData.ts:93 | same length; the old name is replaced in place, other entries untouched; the list stays duplicate-free for a fresh new name |
| CategoryList.RenameRoundTrip | src/hooks/useFirebaseData.ts:93 | renaming to a fresh name and back restores the list |
| CategoryList.CascadeUpdates | src/hooks/useFirebaseData.ts:96-100 | each update sets the new name on a non-empty id of an old-category question, and every such question gets one |
| CategoryList.ApplyUpdates | src/hooks/useFirebaseData.ts:97-100 | a question named by no update keeps its category, so a cascade cut short leaves unreached questions on the old name |
| CategoryList.Retagged | src/hooks/useFirebaseData.ts:96-100 | the intended outcome on the loaded questions: only categories ever change; id-less and other-category questions are unchanged; no question with an id is left on the old name; every old-category question with an id becomes the same question under the new name |
| CategoryList.CascadeRetags | src/hooks/useFirebaseData.ts:92-102 | with distinct document ids, applying the whole cascade to the loaded questions yields exactly the retagged loaded catalog |
| CategoryList.HiddenQuestionKeepsCategory | src/hooks/useFirebaseData.ts:92-102 | a stored document the user cannot see, sharing no id with a visible one, is named by no update of the cascade and keeps its category |
| CategoryList.OnUpdateCategoryClick | src/views/QuestionsMgmtView.tsx:96-103 | cancelled iff there is no edit, the new name is empty or the new name is listed; otherwise the renamed list and the cascade |
| CategoryList.RenameGuardProperties | src/views/QuestionsMgmtView.tsx:97 | renaming a listed category to itself is cancelled; an accepted rename keeps the list duplicate-free and drops the old name |
| CategoryList.MergeSuggestions | src/views/QuestionsMgmtView.tsx:77 | duplicate-free, contains exactly the existing and suggested names, and keeps a duplicate-free existing list first and in order |
| CategoryList.OnSuggestCategoriesClick | src/views/QuestionsMgmtView.tsx:67-86 | no write for an empty prompt, a missing key or a failed suggestion; otherwise the merged list |
| Gemini.FindQuestion | services/geminiService.ts:13 | the first question with the id, or none iff no question has it |
| Gemini.ScoredRows | services/geminiService.ts:12-20 | one row per score in score order with its rating; a score whose question is missing gets the Inne / Pytanie usunięte / Niekreślony defaults |
| Gemini.ScoredRowOfFoundQuestion | services/geminiService.ts:13-18 | a found question contributes its own category, text and difficulty, each defaulted when empty |
| Gemini.UsedCategories | services/geminiService.ts:22 | duplicate-free and contains exactly the categories of the rows |
| Gemini.UsedCategoriesFirstOccurrence | services/geminiService.ts:22 | the list for a prefix of the rows is a prefix of the full list (first-occurrence order) |
| Gemini.OverallCommentIgnoredAsWritten | services/geminiService.ts:24-37 | as written, two sessions differing only in the overall comment produce the same request |
| Gemini.SummaryRequestFor | services/geminiService.ts:12-22 | the corrected request carries the session's overall comment next to the scored rows |
| Gemini.OverallCommentReachesRequest | services/geminiService.ts:24-37 | different comments give different corrected requests, which otherwise equal the service's request |
| Gemini.Summarize | services/geminiService.ts:4-49 | for any request: an empty key fails with the no-key error before the model is asked; with a key it always succeeds, with the reply text, the empty-reply fallback or the fixed error text |
| Gemini.GenerateSummary | services/geminiService.ts:4-49 | as written: the model is asked with the request built from name, scored rows and used categories only; an empty key fails with the no-key error; with a key it succeeds with the reply text, the empty-reply fallback or the fixed error text |
| Gemini.SummaryIgnoresOverallComment | services/geminiService.ts:24-37 | as written, two sessions differing only in the overall comment get the same summary from any model |
| Gemini.GenerateSummaryIntended | services/geminiService.ts:24-37 | the same outcomes, with the model asked the request that carries the overall comment |
| Gemini.IntendedSummaryReadsComment | services/geminiService.ts:24-37 | with the comment forwarded, a model that ignores it gives the service's summary, and a model that echoes it tells two non-empty comments apart |
| Gemini.GenerateQuestions | services/geminiService.ts:51-93 | an empty key or a failed parse fails with the fixed errors; otherwise the parsed questions in count and order, each with the requested difficulty and nothing else changed |
| Gemini.SuggestCategories | services/geminiService.ts:95-121 | an empty key or a failed call fails with the fixed errors; otherwise the parsed list |
| QuestionMgmt.SaveQuestion | src/hooks/useFirebaseData.ts:104-121 | the id is dropped from the fields; the difficulty defaults to Mid; a truthy id updates that document, passing the draft's owner and privacy flag through unchanged without stamping them; otherwise an add owned by the user with a boolean privacy flag |
| QuestionMgmt.OnSaveQuestionClick | src/views/QuestionsMgmtView.tsx:105-110 | nothing is written iff no question is edited or its text, category or answer is empty |
| QuestionMgmt.MergeFields | src/hooks/useFirebaseData.ts:109-112 | for each of id, category, text, answer, difficulty, privacy and owner: present in the update replaces the stored value, absent keeps it |
| QuestionMgmt.EditSaveRoundTrip | src/hooks/useFirebaseData.ts:105-112 | saving a loaded question unchanged updates its own document, which loads back as the same question with Mid filled in |
| QuestionMgmt.AddedQuestionVisibility | src/hooks/useFirebaseData.ts:114-119 | a question added by a user is visible to that user, and to everyone unless marked private |
| QuestionMgmt.SaveMultiple | src/hooks/useFirebaseData.ts:127-141 | one record per question in order, each public, owned by the user, with the given category and difficulty and the generated text kept |
| QuestionMgmt.BulkSavedVisibleToAll | src/hooks/useFirebaseData.ts:133-139 | bulk-saved questions are visible to every user, under the chosen category and difficulty |
| QuestionMgmt.SelectAll | src/views/QuestionsMgmtView.tsx:137 | every preview index once, in order |
| QuestionMgmt.Toggle | src/views/QuestionsMgmtView.tsx:160-165 | flips the membership of exactly the toggled index, keeps the selection duplicate-free and in range |
| QuestionMgmt.ToggleTwice | src/views/QuestionsMgmtView.tsx:160-165 | toggling twice restores the selected set, and the very sequence when the index was unselected |
| QuestionMgmt.ToggleKeepsWellFormed | src/views/QuestionsMgmtView.tsx:291-294 | toggling an index shown in the preview keeps the selection in range and duplicate-free |
| QuestionMgmt.SaveList | src/views/QuestionsMgmtView.tsx:147 | the selected previews, one per selected index, in selection order |
| QuestionMgmt.SaveListExactlySelected | src/views/QuestionsMgmtView.tsx:147 | an index is selected iff its preview is in the save list at a position from that index, and then at exactly one |
| QuestionMgmt.OnAiGenerateSubmit | src/views/QuestionsMgmtView.tsx:118-143 | no category, no key or a failed generation leaves the preview as it was; success shows the generated questions all selected |
| QuestionMgmt.SaveAllAfterGeneration | src/views/QuestionsMgmtView.tsx:137 | right after generation the save list is the whole preview |
| QuestionMgmt.OnSaveSelectedClick | src/views/QuestionsMgmtView.tsx:145-158 | nothing without a preview; otherwise one bulk record per selected preview, in selection order |

## Left out

- Database I/O (`onSnapshot`, `addDoc`, `setDoc`, `updateDoc`, `deleteDoc`), authentication and the Firebase configuration: they are foreign services. Each handler's computed list or record is modelled instead, and write failures are not modelled.
- The category and question handlers of `App.tsx:171-310` compute the same lists and records as the data hook and the management view, and are covered by the same members.
- `handleDeleteQuestion` is a single `deleteDoc` with no computation. It is not modelled.
- The Gemini network calls, the prompt wording and the JSON parsing. Each call is a function parameter that returns the parsed value or a failure.
- The rendering, navigation views, `alert` and `localStorage`. `confirm` appears only as the `confirmed` answer given to `CategoryList.OnDeleteCategoryClick`.
- React scheduling and the loading flags (`isSummarizing`, `isGeneratingAi`, `isSuggestingCategories`).
- `toFixed(1)` display rounding and floating-point division. Averages are exact rationals.
- `Math.random` candidate ids. A candidate is given.
- The null-session guards of `App.tsx` (`if (!session) return`). The session operations take an existing session.
- QuestionMgmt.SaveList: requires every selected index to lie inside the preview. An index outside it would read `undefined` in the source, but the indices only ever come from `SelectAll` and from toggling a shown preview, which keep them in range (`QuestionMgmt.ToggleKeepsWellFormed`, `QuestionMgmt.OnAiGenerateSubmit`).
- Catalog.Materialize: a document without `category`, `question` or `correctAnswer` reads as `""`, while the source keeps `undefined`. For the category this differs only when the category list holds the empty name: `undefined === ""` is false, but the model would group such a question under `""`. Adding or renaming a category refuses the empty name. Category names from stored settings or model suggestions are not checked. `Catalog.MissingCategoryShownNowhere` covers the case the two agree on.
- Gemini.GenerateSummary: assumes that constructing the SDK client (`new GoogleGenAI`, services/geminiService.ts:10) never throws when a key is present. The constructor runs outside the `try` of lines 39-48. If it threw, `handleFinish` in `App.tsx` would abort, and `Interview.FinishHandlersAgree` would not hold.
- CategoryList.CascadeUpdates: covers only the loaded questions, as the handler filters the hook's `questions`. Other users' private questions are not loaded, so they are not retagged. They keep a name that is no longer listed (`CategoryList.HiddenQuestionKeepsCategory`), so their owners then see them in no group (`Catalog.UnknownCategoryShownNowhere`). When nothing is visible, the loaded list is the seed set, and its updates name documents that do not exist.
- CategoryList.CascadeUpdates: follows the data hook, which skips questions without an id. `App.tsx:217-220` issues an update for every question of the old category, even one without an id.

## Findings

| source | as written | input that shows it | evidently intended | confidence | as-written member | corrected member |
|---|---|---|---|---|---|---|
| services/geminiService.ts:24-37 | the summary prompt is built from the candidate name, the scored rows and the used categories; the session's `overallComment` is never read | two sessions that differ only in `overallComment` ("strong communicator" vs "weak communicator") produce the identical request | the comment field of the interview screen (src/views/InterviewFlow/InterviewSession.tsx:150) tells the recruiter that these notes will be taken into account by the AI when generating the summary, so the request should carry the comment | medium, not executed | Gemini.GenerateSummary, Gemini.SummaryIgnoresOverallComment, Gemini.OverallCommentIgnoredAsWritten | Gemini.GenerateSummaryIntended, Gemini.IntendedSummaryReadsComment, Gemini.OverallCommentReachesRequest |

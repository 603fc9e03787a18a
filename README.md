# ctfd_career — a verified model of the career-progress plugin

`ctfd_career` is a CTFd plugin that groups challenges into *careers*. A career is a
named track made of *steps*. A step is completed once the player has solved at least
`required_solves` challenges of the step's category or module. This project models the
plugin's core in Dafny and proves what the core promises. The core has four parts:

- **Progress engine (server).** `_collect_user_solves` counts a player's solves per
  category, per resolved module slug and in total. `_load_module_map` turns module ids
  into slugs. `update_progress` judges every step against `required_solves`, upserts one
  progress row per (user, step) and returns a snapshot. `Careers.to_dict` and
  `CareerSteps.to_dict` serialise the rows. (`models.dfy`, `solve_counts.dfy`)
- **Progress service (server).** `serialize_progress_for_user` and `ensure_user_entry`
  recompute a user's progress and report it per career, in ascending id order (the order
  `serialize_progress_for_user` sorts by), with `completed_steps` and `total_steps`.
  `get_progress_snapshot` recomputes nothing: it summarises the stored rows of all users,
  keyed by career id. (`progress_service.dfy`)
- **Admin store operations (server).** These are `_validate_required_fields`,
  `create_career`, `update_career` (partial update), `delete_career` (cascade),
  `list_steps`, `create_step` and `handle_api_error`. They run over an in-memory store
  with unique career names and unique step names within a career. (`routes.dfy`)
- **Browser scripts.**
  - `career_detail.js`: feedback alerts, the challenge meta line, body precedence,
    flag submission and the progress refresh that patches step cards.
    (`career_detail.dfy`)
  - `progress.js`: the player dashboard, with its step list, progress bar and career
    cards. (`progress_page.dfy`)
  - `admin_steps.js`: HTML escaping, the challenge `<select>`, normalisation of the
    edit-form payload, CSRF header selection, `apiRequest` error precedence, the
    challenge cache and the steps table. (`admin_steps.dfy`)

Shared building blocks:

- `json.dfy` holds one JSON/JavaScript value type, `Undefined | Null | Bool | Num(int) | NaN | Str`.
  It comes with JavaScript truthiness, `||`, `===`, `String()`, `Number()` and Python's
  `int()` on strings of ASCII digits (with optional sign and `_` grouping).
- `text.dfy` holds decimal rendering and parsing, `join` and `trim`.
- `percent.dfy` holds the percent rule `total ? round(completed / total * 100) : 0`.
- `wrappers.dfy` holds `Option`.

Modelling conventions:

- The database becomes the fields of the class `Models.Store`.
  - `careers` and `steps` are sequences kept in ascending id order, with new ids
    allocated as the current maximum plus one. Where the code reads a table or a
    relationship without `order_by`, the model takes this ascending id order (see
    "Left out").
  - `progress` is a map keyed by (user id, step id), following the unique constraint
    `uq_user_step`.
  - `users` is the set of existing user ids.
- Answers from the network (solve rows, module rows, fetch responses) are parameters of
  the operations that consume them.
- The DOM becomes plain fields holding the text, classes and rows that the scripts write.
- A page's module-level state becomes a class whose methods update it:
  - `CareerDetail.DetailPage` holds `currentChallengeId`, the flag input, the progress
    bar and the step cards.
  - `ProgressPage.Dashboard` holds the career root.
  - `AdminSteps.AdminPage` holds `challengeOptions`, `challengeMap`, `currentEditRow`,
    the status element and the table rows.

`renderChallengeBody` inserts `data.html` or `data.description` directly into the modal
body.

## Model

| member | source | states |
|---|---|---|
| Json.Or | ctfd_career/static/js/progress.js:5-7 | JavaScript's logical or: the result is the left operand when it is truthy and the right operand otherwise |
| Json.PyOr | ctfd_career/routes.py:91 | Python's `or`: the left operand when `bool()` of it holds (NaN included), otherwise the right operand |
| Json.TruthinessDiffersOnNaN | ctfd_career/routes.py:33 | Python's and JavaScript's truthiness agree on every JSON value except NaN, which only Python counts as true |
| Json.TextContent | ctfd_career/static/js/progress.js:36 | assigning null or undefined to `textContent` clears the element; any other value is shown as `String(v)` |
| Json.NumberOfRoundTrip | ctfd_career/static/js/admin_steps.js:190-198 | `Number()` and Python `int()` read back every decimal integer they are given: `Number(String(i)) == i` |
| Text.ParseIntRoundTrip | ctfd_career/routes.py:128 | parsing the decimal rendering of any integer gives that integer back |
| Text.PyParseInt | ctfd_career/routes.py:128 | Python's `int()` on a stripped string accepts everything the plain decimal reader accepts, with the same value, and in addition underscore-grouped digits |
| Text.PyParseIntUngroups | ctfd_career/routes.py:128 | a numeral `int()` accepts has the value of the same numeral with its underscores dropped |
| Text.PyParseIntGroups | ctfd_career/routes.py:128 | `int("1_000")` is 1000 |
| Text.PyParseIntMisgrouped | ctfd_career/routes.py:128 | an underscore at either end or two in a row (`"_1"`, `"1_"`, `"1__0"`) make `int()` raise |
| Json.PyIntUnspaced | ctfd_career/routes.py:128 | on a string without surrounding whitespace, `int()` of the JSON string is the numeral reader itself |
| Text.TrimSpec | ctfd_career/static/js/career_detail.js:227-231 | `trim()` returns a contiguous slice of the input; only whitespace is removed, at both ends; the result neither starts nor ends with whitespace |
| Text.TrimEmptyIff | ctfd_career/static/js/career_detail.js:228-231 | the trimmed submission is empty exactly when the input is all whitespace |
| Percent.PercentOfEmpty | ctfd_career/static/js/career_detail.js:188-190 | with zero total steps the percent is 0 |
| Percent.PercentIsRounded | ctfd_career/static/js/progress.js:100-102 | for total > 0 the percent is `completed*100/total` rounded half up: `2t·p <= 200c + t < 2t·(p+1)` |
| Percent.PercentBounded | ctfd_career/static/js/career_detail.js:188-190 | the percent lies in [0, 100] whenever completed <= total |
| Percent.PercentEnds | ctfd_career/static/js/progress.js:100-102 | no steps done gives 0 and all steps done gives 100 |
| Percent.PercentMonotone | ctfd_career/static/js/progress.js:100-102 | completing more steps never lowers the percent |
| Percent.PercentQuarter | ctfd_career/static/js/progress.js:100-102 | one step of four gives 25 |
| SolveCounts.Inc | ctfd_career/models.py:153 | a `Counter` increment adds the key, raises its count by one and leaves every other count alone |
| SolveCounts.LoadModuleMap | ctfd_career/models.py:114-129 | the loop builds exactly the module map: empty for no ids or without the modules plugin, otherwise requested id to slug, else name, else `str(id)` |
| SolveCounts.ModuleMapOfSpec | ctfd_career/models.py:124-128 | the keys are exactly the requested ids that have a module row; when module rows share an id, the last one written determines the value |
| SolveCounts.ModuleMapSpec | ctfd_career/models.py:114-122 | empty input or a missing modules plugin gives an empty map; every key is a requested id with a module row |
| SolveCounts.TallyRows | ctfd_career/models.py:146-158 | the loop over solve rows yields the category counter, the module counter, the module ids in first-seen order and the id set |
| SolveCounts.ResolveModules | ctfd_career/models.py:161-165 | the resolution loop yields exactly `Resolve` over the module ids |
| SolveCounts.CollectUserSolves | ctfd_career/models.py:132-171 | the whole routine returns the category, resolved-module and total counters defined by `CollectSolves` |
| SolveCounts.CategoryCountsSpec | ctfd_career/models.py:150-153 | a truthy category is counted once per solve row that carries it; falsy categories are never counted |
| SolveCounts.ModuleCountsSpec | ctfd_career/models.py:154-158 | a module id's count is the number of rows carrying it; only non-zero ids from an existing module column are counted, each listed once |
| SolveCounts.ResolveKeys | ctfd_career/models.py:162-165 | a resolved key exists iff it is a truthy slug that some counted module id maps to; unmapped ids are dropped |
| SolveCounts.ResolveLastWins | ctfd_career/models.py:162-165 | when two module ids resolve to the same slug, the later id's count overwrites the earlier one rather than adding to it |
| SolveCounts.SharedSlugOverwrites | ctfd_career/models.py:162-165 | concrete case: two solves in two modules sharing slug "web" give `{"web": 1}`, not 2 |
| SolveCounts.SolvedFromRows | ctfd_career/models.py:189-195 | a step with a category counts `max(category count, module count)` for that key; a step without one counts all the user's solves |
| SolveCounts.NoRequirementCompleted | ctfd_career/models.py:197 | a step whose `required_solves` is 0 or less (falsy treated as 0) is always completed |
| SolveCounts.OneWebSolveCompletesWebStep | ctfd_career/models.py:189-197 | one "Web" solve completes a "Web" step requiring 1 |
| Models.StepsOf | ctfd_career/models.py:20-25 | `career.steps` holds exactly the steps whose `career_id` is that career |
| Models.StepsOfAscending | ctfd_career/models.py:37 | in the model's id-ordered step table, one career's steps have strictly ascending ids, so `sorted(self.steps, key=id)` finds them already in order |
| Models.StepsInCareerOrderCovers | ctfd_career/models.py:186-188 | the nested loop over careers and their steps visits exactly the steps that belong to an existing career |
| Models.AscendingIdsDetermine | ctfd_career/models.py:48 | steps drawn from a table with ascending (primary key) ids are determined by their id |
| Models.UpsertAllAppend | ctfd_career/models.py:199-210 | upserting two batches of steps one after the other equals upserting their concatenation |
| Models.UpsertAllSpec | ctfd_career/models.py:199-210 | after the upserts, the rows are the old rows plus one per (user, step); each has `completed` set by the rule; an existing row keeps its `career_id`; all other rows are unchanged |
| Models.UpsertAllKeys | ctfd_career/models.py:199-208 | a row is created exactly for each (user, step) that had none; no other key appears |
| Models.UpsertAllOthers | ctfd_career/models.py:199-210 | rows of other users and other steps are left untouched |
| Models.UpsertAllRow | ctfd_career/models.py:199-210 | the row of each processed step exists and holds the freshly computed `completed` |
| Models.StepSnapshotsAt | ctfd_career/models.py:211-218 | one snapshot entry per step, in order |
| Models.CareerSnapshotsSpec | ctfd_career/models.py:184-219 | the snapshot has one entry per career, in the model's table order, and one entry per step of that career; each carries the step id, the `completed` value written to the store, `required_solves` and `solved` |
| Models.CareerSnapshotsLength | ctfd_career/models.py:186-219 | one snapshot entry per career |
| Models.CareerSnapshotAt | ctfd_career/models.py:186-219 | entry i is the snapshot of career i and its own steps |
| Models.UpdatedProgressRows | ctfd_career/models.py:186-221 | over a valid store, `update_progress` leaves exactly one row per (user, step), with `completed` following the rule; other rows are unchanged |
| Models.InsertById | ctfd_career/models.py:37 | inserting into an id-sorted list keeps it sorted and adds exactly the new element |
| Models.SortById | ctfd_career/models.py:37 | `sorted(self.steps, key=id)` is an id-sorted permutation of its input |
| Models.SortByIdOfAscending | ctfd_career/models.py:37 | sorting steps that are already in ascending id order changes nothing |
| Models.CareerToDictSteps | ctfd_career/models.py:27-39 | with `include_steps`, the dict lists the career's own steps sorted by id; the entries are exactly `StepToDict` of the career's own steps, sorted by id (a permutation of them); each step's `completed` is the stored flag, or false when no row exists |
| Models.SortedOwnSteps | ctfd_career/models.py:35-38 | every step listed under a career belongs to that career |
| Models.ToDictDefaults | ctfd_career/models.py:35-78 | without `include_steps` there is no `steps` key; without a user there is no `completed` key |
| Models.Store.constructor | ctfd_career/models.py:11-98 | a fresh store has the given users and empty career, step and progress tables |
| Models.Store.UpdateProgress | ctfd_career/models.py:174-223 | an unknown user gives `{user: None, careers: []}` with no rows touched; otherwise the upserted rows and the per-career snapshot for the collected solves |
| Models.Store.RecordProgress | ctfd_career/models.py:184-221 | the loop over careers upserts rows for every step in career order and returns the snapshot |
| Models.Store.UpsertCareerSteps | ctfd_career/models.py:188-218 | the inner loop over one career's steps upserts their rows and returns their snapshot entries |
| ProgressService.CountCompleted | ctfd_career/services/progress.py:72 | `completed_steps` never exceeds the number of steps |
| ProgressService.CareerViewsOf | ctfd_career/services/progress.py:46-75 | one serialised career per stored career, in order |
| ProgressService.BuildStepViews | ctfd_career/services/progress.py:48-62 | the inner loop serialises every step of the career, in order |
| ProgressService.SerializeProgressForUser | ctfd_career/services/progress.py:43-77 | first re-runs `update_progress`, then serialises every career from the updated rows |
| ProgressService.GetAuthenticatedProgress | ctfd_career/services/progress.py:80-84 | without a logged-in user the answer is `{careers: []}` and nothing changes; otherwise it is that user's serialised progress |
| ProgressService.EnsureUserEntry | ctfd_career/services/progress.py:104-106 | an unknown user fails (404) with nothing changed; otherwise progress is recomputed and serialised |
| ProgressService.StepViewsAt | ctfd_career/services/progress.py:49-62 | one step entry per step, in order |
| ProgressService.CompletedFlags | ctfd_career/services/progress.py:72 | the `completed` flags, in step order |
| ProgressService.CountCompletedSpec | ctfd_career/services/progress.py:72 | `completed_steps` counts exactly the steps whose `completed` is true |
| ProgressService.CareerViewSteps | ctfd_career/services/progress.py:49-62 | a career lists its own steps in order; a step with no progress row reports `completed = false` |
| ProgressService.CareerViewCounts | ctfd_career/services/progress.py:72-73 | `total_steps` is the career's step count; `0 <= completed_steps <= total_steps`, and it counts the true flags |
| ProgressService.SerializedInIdOrder | ctfd_career/services/progress.py:47-49 | careers are listed in strictly ascending id, and so are the steps within each career |
| ProgressService.StepViewsInIdOrder | ctfd_career/services/progress.py:49 | a career's steps are listed in strictly ascending id |
| ProgressService.ReportedCompletionFollowsRule | ctfd_career/services/progress.py:43-62 | because progress is recomputed first, every reported `completed` equals the freshly computed rule for the current solves |
| ProgressService.CareerCompletionFollowsRule | ctfd_career/services/progress.py:49-62 | when every step's row holds the rule's value, the serialised career reports exactly those values |
| ProgressService.GetProgressSnapshot | ctfd_career/services/progress.py:87-101 | the summary is keyed by exactly the career ids; each entry holds the name, the completed rows of that career across all users, and `len(steps)` |
| ProgressService.SummaryCountsAllUsers | ctfd_career/services/progress.py:91-99 | the completed count adds up all users' rows, so it can exceed `total` (2 of 1) |
| Routes.Get | ctfd_career/routes.py:66-68 | `payload.get(key)` is None for an absent key |
| Routes.Missing | ctfd_career/routes.py:33 | the missing list holds exactly the listed fields that are absent or falsy by Python's rule (a NaN value counts as present) |
| Routes.ValidateRequiredFields | ctfd_career/routes.py:32-35 | fails iff some listed field is missing or falsy; the message is "Missing required fields: " followed by the missing fields, in argument order, joined by ", " |
| Routes.MissingFieldsMessage | ctfd_career/routes.py:32-35 | concrete cases: both fields are reported in order; a complete payload passes |
| Routes.HandleApiError | ctfd_career/routes.py:166-170 | an API error becomes `{success: False, message}` with status 400 |
| Routes.NextCareerId | ctfd_career/models.py:14 | a new career id differs from, and exceeds, every existing one |
| Routes.NextStepId | ctfd_career/models.py:48 | a new step id exceeds every existing one |
| Routes.FindCareer | ctfd_career/routes.py:87 | `get_or_404` finds the career with the id, and fails exactly when no career has it |
| Routes.CreateCareer | ctfd_career/routes.py:58-81 | a missing name gives 400 with the field message; a duplicate name gives "Career already exists" with the store unchanged; otherwise the new career is appended and returned with 201 |
| Routes.PatchCareer | ctfd_career/routes.py:89-91 | each of name/description/icon/color present in the payload is set to its value, with falsy values becoming None; absent keys and the id stay as they were |
| Routes.SetFieldsPatches | ctfd_career/routes.py:89-91 | the field-by-field update meets the partial-update rule |
| Routes.SameKeysSameIds | ctfd_career/routes.py:89-91 | an update that keeps every id keeps the id set |
| Routes.UpdateCareer | ctfd_career/routes.py:83-94 | an unknown id gives 404; otherwise the patched career replaces the old one; a commit that breaks `NOT NULL` or `UNIQUE` on the name fails with nothing changed |
| Routes.StepsNotOf | ctfd_career/routes.py:101 | the remaining steps are exactly those of other careers |
| Routes.StepsNotOfValid | ctfd_career/routes.py:101 | removing a career's steps keeps ids ascending and step names unique per career |
| Routes.StepsNotOfAscending | ctfd_career/routes.py:101 | removing steps keeps the id order |
| Routes.StepsNotOfNamesUnique | ctfd_career/routes.py:101 | removing steps keeps step names unique per career |
| Routes.DeleteCareer | ctfd_career/routes.py:96-105 | an unknown id gives 404 with nothing changed; otherwise the career, all of its steps and, by the `ON DELETE CASCADE` keys, their progress rows are removed (see "Left out"), and `{deleted: id}` is returned |
| Routes.RemoveCareerAt | ctfd_career/routes.py:102 | removing one career keeps ids ascending and names unique, and removes exactly that career |
| Routes.RequiredSolves | ctfd_career/routes.py:128 | `required_solves` defaults to 1 when absent |
| Routes.RequiredSolvesGrouped | ctfd_career/routes.py:128 | `int()` reads the grouped numeral `"1_000"` as 1000, so such a step is created rather than refused |
| Routes.CreateStep | ctfd_career/routes.py:116-141 | missing `career_id` or `name` gives 400; an unknown career gives 404; a non-integer `required_solves` gives 500; a duplicate name within the career gives "Step already exists for this career"; the store is unchanged on every error; otherwise the step is appended and returned with 201 |
| Routes.AppendStepValid | ctfd_career/models.py:44-50 | appending a fresh-id step with a name new to its existing career keeps the tables valid |
| Routes.StepDictsOf | ctfd_career/routes.py:113 | one dict per step, in order, each carrying that user's `completed` |
| Routes.ListSteps | ctfd_career/routes.py:107-114 | an unknown user gives 404 with the progress rows unchanged; otherwise `ensure_user_entry` first rewrites every (user, step) progress row from the solve counts; an unknown career then gives 404, and a known one gives one full step dict per step of the career (in the model's table order), read from the rewritten rows, so each `completed` is the freshly computed rule |
| Routes.OwnStepsCompleted | ctfd_career/routes.py:111-113 | after `ensure_user_entry`, every step of the career has a row holding the freshly computed rule |
| CareerDetail.Translate | ctfd_career/static/js/career_detail.js:21-23 | `t(key, fallback)` gives the translation when it is non-empty, else the fallback, else the key; it is never empty for a non-empty key |
| CareerDetail.FeedbackAfter | ctfd_career/static/js/career_detail.js:25-41 | an empty message hides the element and removes the classes `alert-success`, `alert-danger` and `alert-info`, keeping every other class; otherwise the element is shown with the text and only this level's alert class; other classes are kept |
| CareerDetail.FeedbackExactlyOneAlert | ctfd_career/static/js/career_detail.js:30-40 | after a non-empty message exactly one `alert-<level>` class remains |
| CareerDetail.FeedbackOverwrites | ctfd_career/static/js/career_detail.js:25-41 | a second non-empty feedback fully replaces the first |
| CareerDetail.AlertLevelClass | ctfd_career/static/js/career_detail.js:38 | the level maps to `alert-<level>` |
| CareerDetail.MetaSegmentsSpec | ctfd_career/static/js/career_detail.js:43-64 | the meta line lists value, category and attempts, in that order, each only when present; attempts read "Unlimited" when `max_attempts` is null or 0 |
| CareerDetail.MetaLineEmpty | ctfd_career/static/js/career_detail.js:43-64 | no fields give an empty meta line |
| CareerDetail.MetaLineExample | ctfd_career/static/js/career_detail.js:43-64 | concrete case: "Value: 100 • Category: Web • Attempts Remaining: Unlimited" |
| CareerDetail.MetaSegmentsExample | ctfd_career/static/js/career_detail.js:48-60 | the three segments of that example |
| CareerDetail.BodyFor | ctfd_career/static/js/career_detail.js:66-85 | the body shows `html` when truthy, else `description`, else the "No description provided" placeholder |
| CareerDetail.ToggledClasses | ctfd_career/static/js/career_detail.js:213-214 | exactly one of `bg-success` and `bg-secondary` is set, matching completion; other classes are kept |
| CareerDetail.PatchCard | ctfd_career/static/js/career_detail.js:209-215 | a card's `data-step-completed` attribute and badge follow `step.completed`: text "Completed" or "In Progress", and exactly one colour class |
| CareerDetail.PatchCardBase | ctfd_career/static/js/career_detail.js:209-215 | patching depends only on the step, so repeated patches are idempotent and leave the card's base intact |
| CareerDetail.PatchedCardsKeep | ctfd_career/static/js/career_detail.js:204-216 | the patch loop adds and removes no cards; cards of steps not in the response are unchanged |
| CareerDetail.PatchedCardsLast | ctfd_career/static/js/career_detail.js:204-216 | a step that has a card gets its card patched from the last entry for that step |
| CareerDetail.FindEntry | ctfd_career/static/js/career_detail.js:182-186 | `find` returns the first career whose id strictly equals `careerId`, or nothing when none does |
| CareerDetail.ShownPercentSpec | ctfd_career/static/js/career_detail.js:188-190 | the step count falls back from `total_steps` to `steps.length`; no steps gives 0%; the percent is at most 100 when completed <= total |
| CareerDetail.ErrorText | ctfd_career/static/js/career_detail.js:164 | the error shown is never empty |
| CareerDetail.Judge | ctfd_career/static/js/career_detail.js:238-267 | an attempt is correct iff the API answered, `success` is not false and `data.status === "correct"`; correct gives a success level, anything else danger; the message is never empty |
| CareerDetail.DetailPage.constructor | ctfd_career/static/js/career_detail.js:18-19 | the page starts with no current challenge, no attempts and no refreshes |
| CareerDetail.DetailPage.SetFeedback | ctfd_career/static/js/career_detail.js:25-41 | the feedback element, when present, becomes `FeedbackAfter`; otherwise nothing changes |
| CareerDetail.DetailPage.RenderChallengeMeta | ctfd_career/static/js/career_detail.js:43-64 | the meta element, when present, shows the meta line |
| CareerDetail.DetailPage.RenderChallengeBody | ctfd_career/static/js/career_detail.js:66-111 | the body follows the html/description precedence, and the flag input is reset to empty |
| CareerDetail.DetailPage.OpenChallenge | ctfd_career/static/js/career_detail.js:125-169 | records the challenge id and shows the modal; a failed load shows a danger message and clears the meta; otherwise it renders meta and body and says "Challenge already solved" when solved, else clears the feedback |
| CareerDetail.DetailPage.PatchStepCards | ctfd_career/static/js/career_detail.js:204-216 | the cards become the patched cards |
| CareerDetail.ShownAfterRefresh | ctfd_career/static/js/career_detail.js:188-202 | without a matching career the bar and counter are unchanged; with one, an existing bar shows the career's percent as width, value and text, a missing bar keeps its old values, and an existing counter shows `completed_steps` |
| CareerDetail.DetailPage.Refresh | ctfd_career/static/js/career_detail.js:171-220 | with no matching career (or a failed response) nothing on the page changes, neither the bar, the counter nor the cards; otherwise the bar's width, value and text (when the bar exists) carry the same percent, the counter (when present) shows `completed_steps`, every card whose step is listed is patched, and the other cards are kept |
| CareerDetail.DetailPage.SubmitFlag | ctfd_career/static/js/career_detail.js:222-273 | no current challenge or no input: nothing happens; an empty trimmed flag: an info message and nothing sent; otherwise one attempt is sent and the verdict shown; the submit button is re-enabled; only a correct answer clears the input and triggers exactly one refresh, after which the bar, counter and cards are those `ShownAfterRefresh` and `CardsAfterRefresh` give; otherwise they are unchanged |
| CareerDetail.DetailPage.Send | ctfd_career/static/js/career_detail.js:233-272 | sending records the attempt, shows the verdict, re-enables the button, and refreshes once exactly when correct, leaving the bar, counter and cards as that refresh gives them; a wrong answer leaves them unchanged |
| CareerDetail.DetailPage.Finish | ctfd_career/static/js/career_detail.js:258-272 | the verdict replaces the feedback, the submit button is enabled again, and a correct verdict clears the input and refreshes once while a wrong one leaves input, bar, counter and cards unchanged |
| CareerDetail.DetailPage.Conclude | ctfd_career/static/js/career_detail.js:258-264 | a correct answer clears the input and refreshes once, setting bar, counter and cards as the refresh gives them; a wrong one changes nothing |
| ProgressPage.Tr | ctfd_career/static/js/progress.js:5-7 | `t(key)` gives a non-empty translation, else the key |
| ProgressPage.StepItemOf | ctfd_career/static/js/progress.js:13-55 | a completed step gets ✅, `bg-success` and "Completed", otherwise 🔒, `bg-secondary` and "In Progress"; a description node appears only for a truthy description, and an image only for a truthy `image_url` |
| ProgressPage.BadgeClass | ctfd_career/static/js/progress.js:49 | the badge class is `badge bg-success` when completed, `badge bg-secondary` otherwise |
| ProgressPage.StepItemsSpec | ctfd_career/static/js/progress.js:13-55 | exactly one item per step, in input order |
| ProgressPage.BuildStepList | ctfd_career/static/js/progress.js:9-58 | the `forEach` loop builds exactly those items |
| ProgressPage.BarSpec | ctfd_career/static/js/progress.js:100-108 | width, `aria-valuenow` and label carry the same percent; min is 0 and max 100; zero total gives 0; the percent is at most 100 when completed <= total |
| ProgressPage.RenderCareer | ctfd_career/static/js/progress.js:60-119 | the card has one item per step and the career's bar |
| ProgressPage.Dashboard.constructor | ctfd_career/static/js/progress.js:1-3 | the root starts empty |
| ProgressPage.Dashboard.RenderCareers | ctfd_career/static/js/progress.js:121-135 | an empty list renders a single "No careers available yet" alert; otherwise one card per career, in order |
| ProgressPage.Dashboard.FetchCareers | ctfd_career/static/js/progress.js:137-161 | a failed response renders one danger alert with its message; otherwise the careers are rendered |
| AdminSteps.AdminT | ctfd_career/static/js/admin_steps.js:3 | the translation when non-empty, else the fallback |
| AdminSteps.ReplaceAllConcat | ctfd_career/static/js/admin_steps.js:37-41 | a global `replace` distributes over concatenation |
| AdminSteps.ReplaceAllAbsent | ctfd_career/static/js/admin_steps.js:37-41 | `replace` of an absent character changes nothing |
| AdminSteps.EscapeHtmlConcat | ctfd_career/static/js/admin_steps.js:35-42 | escaping distributes over concatenation |
| AdminSteps.EscapeHtmlOne | ctfd_career/static/js/admin_steps.js:36-41 | the five chained replacements map one character to its entity, so `&` is never double-escaped |
| AdminSteps.EscapeHtmlIsPerChar | ctfd_career/static/js/admin_steps.js:35-42 | the chained replacements equal escaping each character on its own, in order |
| AdminSteps.EscapedHasNoSpecials | ctfd_career/static/js/admin_steps.js:35-42 | the output holds no raw `<`, `>`, `"` or `'` |
| AdminSteps.UnescapeEscape | ctfd_career/static/js/admin_steps.js:35-42 | escaping loses nothing: decoding the five entities gives the input back, so every other character is kept in order |
| AdminSteps.EscapeValue | ctfd_career/static/js/admin_steps.js:36 | null, undefined and "" (any falsy value) escape to ""; a string escapes to its escaped text |
| AdminSteps.EscapeText | ctfd_career/static/js/admin_steps.js:35-42 | an absent text escapes to "" |
| AdminSteps.EscapeEmpty | ctfd_career/static/js/admin_steps.js:36 | null, undefined and "" escape to "" |
| AdminSteps.OptionRest | ctfd_career/static/js/admin_steps.js:121 | after the optional attribute each option continues with `>` |
| AdminSteps.OptionLines | ctfd_career/static/js/admin_steps.js:109-125 | one line per challenge plus the placeholder |
| AdminSteps.OptionLinesSpec | ctfd_career/static/js/admin_steps.js:109-125 | the placeholder with an empty value comes first, then one option per challenge in list order |
| AdminSteps.OptionLinesFirst | ctfd_career/static/js/admin_steps.js:110-114 | the first line is the placeholder |
| AdminSteps.OptionLinesAt | ctfd_career/static/js/admin_steps.js:115-123 | line i+1 is the option of challenge i |
| AdminSteps.OptionLineSelected | ctfd_career/static/js/admin_steps.js:116-121 | an option carries " selected" iff its id strictly equals a non-null `selectedId` |
| AdminSteps.NothingSelected | ctfd_career/static/js/admin_steps.js:117 | a null, undefined or NaN `selectedId` selects nothing |
| AdminSteps.AtMostOneSelected | ctfd_career/static/js/admin_steps.js:115-123 | with distinct challenge ids at most one option is selected |
| AdminSteps.FormValue | ctfd_career/static/js/admin_steps.js:182-186 | a form field reads as a string, or null when the field is absent |
| AdminSteps.FormValueOrNull | ctfd_career/static/js/admin_steps.js:183-187 | "" and absent fields become null; a non-empty string stays |
| AdminSteps.NormalizeStepPayload | ctfd_career/static/js/admin_steps.js:181-202 | the step-by-step payload edits give the normalised payload |
| AdminSteps.NormalizedShape | ctfd_career/static/js/admin_steps.js:181-202 | no empty `description`, `category` or `image_url` remains; `challenge_id` and `required_solves` are null or numbers; each is null iff the field was "" or absent |
| AdminSteps.NormalizedNumbersRoundTrip | ctfd_career/static/js/admin_steps.js:190-199 | decimal form fields come back as the numbers they show |
| AdminSteps.CsrfToken | ctfd_career/static/js/admin_steps.js:13-19 | `window.init.csrfNonce` when truthy, else `window.csrfNonce` when defined, else the global `csrfNonce` when defined, else null |
| AdminSteps.RequestHeaders | ctfd_career/static/js/admin_steps.js:45-53 | `Content-Type: application/json` is always sent; `CSRF-Token` is sent iff the token is truthy |
| AdminSteps.CsrfHeaderOmitted | ctfd_career/static/js/admin_steps.js:13-53 | an empty or missing nonce sends no CSRF header |
| AdminSteps.ApiRequest | ctfd_career/static/js/admin_steps.js:44-76 | throws iff the fetch fails, the response is not ok or `success === false`; the message is `payload.message`, else `payload.data.message`, else "status statusText"; otherwise it returns `payload.data` |
| AdminSteps.ApiErrorMessageNonEmpty | ctfd_career/static/js/admin_steps.js:68-75 | an API error always has a non-empty message |
| AdminSteps.UnparsableOkResolves | ctfd_career/static/js/admin_steps.js:61-75 | an ok response whose body is not JSON resolves to undefined |
| AdminSteps.ChallengeMapSpec | ctfd_career/static/js/admin_steps.js:85-89 | the rebuilt map has exactly the ids of the new list; each maps to a challenge with that id, and a repeated id maps to its last occurrence |
| AdminSteps.ChallengeMapEntries | ctfd_career/static/js/admin_steps.js:85-89 | the map has exactly the ids of the list, each mapping to a listed challenge with that id |
| AdminSteps.ChallengeMapLast | ctfd_career/static/js/admin_steps.js:85-89 | the last challenge listed with an id is the one mapped |
| AdminSteps.ChallengeLabel | ctfd_career/static/js/admin_steps.js:303-308 | a step without a challenge shows an empty label |
| AdminSteps.ChallengeLabelFallback | ctfd_career/static/js/admin_steps.js:303-308 | the label is "name (#id)", and the id stands in for the name when the id is not in the map or the name is empty |
| AdminSteps.StepCells | ctfd_career/static/js/admin_steps.js:310-318 | a step row has six content cells (name, career, category, challenge label, required solves, image); the seventh `<td>`, which holds the action buttons, is not modelled |
| AdminSteps.CareerRowsSpec | ctfd_career/static/js/admin_steps.js:276-324 | each career gets its header row; a career with no steps gets one "No steps available" row; otherwise one row per step, in order |
| AdminSteps.TableRowsCount | ctfd_career/static/js/admin_steps.js:276-335 | no careers give a single "No steps" row; every career contributes at least two rows |
| AdminSteps.AdminPage.constructor | ctfd_career/static/js/admin_steps.js:5-9 | the page starts with an empty challenge cache, no edit row and no message |
| AdminSteps.AdminPage.DisplayMessage | ctfd_career/static/js/admin_steps.js:21-33 | the status element shows one `alert-<level>` for a non-empty message and is emptied otherwise |
| AdminSteps.AdminPage.ErrorText | ctfd_career/static/js/admin_steps.js:97 | the error shown is the message when non-empty and is never empty |
| AdminSteps.AdminPage.LoadChallenges | ctfd_career/static/js/admin_steps.js:78-100 | without `force` a non-empty cache is returned unchanged; a failed request shows a danger message and returns nothing; otherwise the cache and map are rebuilt from exactly the new list, and an open edit form's select is re-rendered |
| AdminSteps.AdminPage.CloseEditForm | ctfd_career/static/js/admin_steps.js:102-107 | the edit row is removed |
| AdminSteps.AdminPage.OpenEditForm | ctfd_career/static/js/admin_steps.js:127-229 | a single edit row is inserted, whose select lists the cached challenges with the step's challenge selected |
| AdminSteps.AdminPage.SubmitEdit | ctfd_career/static/js/admin_steps.js:181-214 | sends the normalised payload (a NaN `required_solves` is sent as `null`; see "Left out"); success closes the form and says "Step updated"; failure keeps the form open and shows the error |
| AdminSteps.AdminPage.RenderTable | ctfd_career/static/js/admin_steps.js:267-338 | the table holds exactly the rendered rows, and any open edit form is gone |

## Left out

- Network, HTTP and the database engine are not modelled. Fetch results, solve rows and
  module rows are parameters. SQLAlchemy sessions, commits and queries become updates of
  `Models.Store`. Flask routing, the `authed_only`/`admins_only` decorators and template
  rendering are not modelled.
- The `list_careers`, `current_progress`, `sync_progress` and `summary` route bodies are
  one-line wrappers. They are covered by `SerializeProgressForUser`,
  `GetAuthenticatedProgress` and `GetProgressSnapshot`.
- `ctfd_career/services/sync.py` is not part of this model. It only calls
  `update_progress` for every user.
- `load_translations` and `_get_locale_code` are file-system and locale lookups.
  Translations are a parameter (a map).
- `ctfd_career/static/js/admin.js` and `ctfd_career/__init__.py` are not part of this
  model. They are form glue and plugin registration.
- Database type coercion is not modelled: text columns hold the JSON value as sent.
- Routes.CreateStep: the lookup `get_or_404(payload["career_id"])` is approximated by
  Python's `int()` on the value. Any conversion failure of `required_solves` is modelled
  as a 500 answer.
- Routes.UpdateCareer: a commit that violates the name constraints is modelled as a 500
  answer with the store unchanged. The exact database error is not modelled.
- Routes.NextCareerId: new ids are the current maximum plus one. The engine's real
  autoincrement policy is not modelled.
- Percent: JavaScript's `Math.round` on IEEE doubles is replaced by exact round-half-up.
  The two can differ at exact .5 boundaries that doubles cannot represent (57/200 shows
  28 in the browser).
- Json.NumberOf: `Number()` is modelled for optionally signed decimal integers, with
  surrounding whitespace. Fractions, exponents, hexadecimal and `Infinity` give NaN here.
- Models.StepsOfAscending: `career.steps` (models.py:188, routes.py:113) and
  `Careers.query.all()` (models.py:186) carry no `order_by`, so the database may return
  rows in any order. The model fixes ascending id order for both. Only `to_dict` with
  `include_steps` (models.py:37) and `serialize_progress_for_user` sort explicitly.
- Models.CareerSnapshotsSpec: the snapshot lists careers and their steps in the model's
  ascending id order. The source's order is whatever the database returns.
- Routes.ListSteps: the step dicts come in the model's ascending id order. The source
  returns `career.steps` in the database's unspecified order.
- Routes.DeleteCareer: `CareerSteps.query.filter_by(career_id=...).delete()` at
  routes.py:101 is a bulk delete of the career's steps that bypasses the ORM `cascade`. Progress rows vanish only if the database
  enforces the `ON DELETE CASCADE` foreign keys (on SQLite only with `PRAGMA
  foreign_keys=ON`). The model assumes they are enforced.
- Json numbers are integers only. A fractional `required_solves` such as `2.7`, which
  Python's `int()` truncates at routes.py:128, cannot be represented.
- AdminSteps.AdminPage.SubmitEdit: the body is the model's JSON value. `JSON.stringify`
  writes NaN as `null`, and that serialisation step is not modelled.
- Json.PyInt: Python's `int()` also accepts non-ASCII decimal digits (`int("٣") == 3`) and
  strips Unicode whitespace. The model accepts only ASCII digits, with an optional sign
  and single `_` between digits, around ASCII whitespace.
- Routes.RequiredSolves: a `required_solves` written with non-ASCII digits is refused
  (None) here, where `int()` would read it.
- Routes.CreateStep: for such a `required_solves` the model answers 500 with the store
  unchanged, where the source creates the step.
- Text.Trim: only ASCII whitespace is removed. Unicode spaces are not modelled.
- CareerDetail.DetailPage.OpenChallenge: the unguarded race between overlapping
  `openChallenge` calls is not modelled, because each call is taken as atomic. The
  loading placeholder, `setTimeout` focus and Bootstrap modal calls are not modelled
  beyond a `modalShown` flag.
- CareerDetail.DetailPage.SubmitFlag: the disabled state of the button while the request
  is in flight is not modelled. Only its final re-enabled state is stated.
- AdminSteps.AdminPage.OpenEditForm: only the challenge `<select>` of the edit form is
  modelled. The other inputs' HTML is not.
- AdminSteps.AdminPage.SubmitEdit: the table reload after a successful update is a
  separate network round trip. It is not modelled.
- AdminSteps.ApiRequest: `options.headers` overriding the defaults is not modelled,
  because the script never passes headers. A JSON body that is not an object is not
  modelled either.
- `handleDelete`, `loadSteps` and `createActionButtons` in `admin_steps.js` are not
  modelled. They combine a `confirm()` dialog, network calls and `RenderTable`, which
  are modelled on their own.
- `notify`-style auto-removal of alerts and all styling are not modelled.

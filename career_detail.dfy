/**
 * The career detail page script: the challenge modal (meta line, body, flag
 * input and feedback alert), flag submission, and the progress refresh that
 * re-renders the bar, the counter and the step badges after a correct flag.
 * Network answers arrive as parameters; the DOM is the abstract state below.
 */
module CareerDetail {
  import opened Wrappers
  import opened Text
  import opened Json
  import opened Percent

  /** `window.CTFDCareerTranslations || {}`. */
  type Translations = map<string, string>

  /** A JSON object as the script reads it: an absent property is `undefined`. */
  type JsObject = map<string, Value>

  function Prop(o: JsObject, key: string): Value
  {
    if key in o then o[key] else Undefined
  }

  /** `t(key, fallback)`: a non-empty translation, else a non-empty fallback, else the key. */
  function Translate(tr: Translations, key: string, fallback: string): (r: string)
    ensures key in tr && tr[key] != "" ==> r == tr[key]
    ensures (key !in tr || tr[key] == "") && fallback != "" ==> r == fallback
    ensures (key !in tr || tr[key] == "") && fallback == "" ==> r == key
    ensures key != "" ==> r != ""
  {
    if key in tr && tr[key] != "" then tr[key]
    else if fallback != "" then fallback
    else key
  }

  /** Every call site passes the key as its own fallback. */
  function T(tr: Translations, key: string): string
  {
    Translate(tr, key, key)
  }

  // ---------------------------------------------------------------- feedback alert

  const AlertClasses: set<string> := {"alert-success", "alert-danger", "alert-info"}

  /** `alert-${level}`; a null level renders as "alert-null". */
  function LevelClass(level: Option<string>): string
  {
    "alert-" + (if level.None? then "null" else level.value)
  }

  /** The feedback element: its class list and its text. */
  datatype Feedback = Feedback(classes: set<string>, text: string)

  /** What `setFeedback(level, message)` leaves: an empty message hides the element,
      clears its text and drops every alert class; otherwise the element is shown
      with the message and the level's class, and no other of the three alert classes.
      Classes the function does not name are kept either way. */
  function FeedbackAfter(f: Feedback, level: Option<string>, message: string): (r: Feedback)
    ensures message == "" ==> "d-none" in r.classes && r.text == "" && r.classes * AlertClasses == {}
    ensures message != "" ==>
      && "d-none" !in r.classes && r.text == message && LevelClass(level) in r.classes
      && r.classes * AlertClasses <= {LevelClass(level)}
    ensures forall c :: c !in AlertClasses && c != "d-none" && c != LevelClass(level) ==> (c in r.classes <==> c in f.classes)
  {
    assert LevelClass(level)[0] == 'a' != "d-none"[0];
    if message == "" then Feedback(f.classes + {"d-none"} - AlertClasses, "")
    else Feedback(f.classes - AlertClasses + {LevelClass(level)} - {"d-none"}, message)
  }

  /** With one of the three levels the page uses, exactly that alert class remains. */
  lemma FeedbackExactlyOneAlert(f: Feedback, level: string, message: string)
    requires level in {"success", "danger", "info"} && message != ""
    ensures FeedbackAfter(f, Some(level), message).classes * AlertClasses == {"alert-" + level}
  {
    AlertLevelClass(level);
  }

  /** A second message replaces the first: only the last call is visible. */
  lemma FeedbackOverwrites(f: Feedback, l1: string, m1: string, l2: string, m2: string)
    requires l1 in {"success", "danger", "info"} && m2 != ""
    ensures FeedbackAfter(FeedbackAfter(f, Some(l1), m1), Some(l2), m2) == FeedbackAfter(f, Some(l2), m2)
  {
    AlertLevelClass(l1);
  }

  lemma AlertLevelClass(level: string)
    requires level in {"success", "danger", "info"}
    ensures LevelClass(Some(level)) == "alert-" + level && LevelClass(Some(level)) in AlertClasses
  {
    if level == "success" {
      assert "alert-" + level == "alert-success";
    } else if level == "danger" {
      assert "alert-" + level == "alert-danger";
    } else {
      assert "alert-" + level == "alert-info";
    }
  }

  // ---------------------------------------------------------------- meta line and body

  /** The label/value segments of `renderChallengeMeta`, in order. */
  function MetaSegments(tr: Translations, data: JsObject): seq<string>
  {
    var attempts := Prop(data, "max_attempts");
    (if Prop(data, "value") != Undefined then [T(tr, "Value") + ": " + ToText(Prop(data, "value"))] else [])
    + (if Truthy(Prop(data, "category")) then [T(tr, "Category") + ": " + ToText(Prop(data, "category"))] else [])
    + (if "max_attempts" !in data then []
       else if attempts != Null && attempts != Num(0) then [T(tr, "Attempts Remaining") + ": " + ToText(attempts)]
       else [T(tr, "Attempts Remaining") + ": " + T(tr, "Unlimited")])
  }

  /** The meta line: the segments joined with " • ". */
  function MetaLine(tr: Translations, data: JsObject): string
  {
    Join(MetaSegments(tr, data), " • ")
  }

  /** One segment per field present (value defined, category truthy, `max_attempts`
      an own property), in the order value, category, attempts; attempts read the
      translation of "Unlimited" when `max_attempts` is null or 0. */
  lemma MetaSegmentsSpec(tr: Translations, data: JsObject)
    ensures var segs := MetaSegments(tr, data);
      var hasValue := Prop(data, "value") != Undefined;
      var hasCategory := Truthy(Prop(data, "category"));
      var hasAttempts := "max_attempts" in data;
      && |segs| == (if hasValue then 1 else 0) + (if hasCategory then 1 else 0) + (if hasAttempts then 1 else 0)
      && (hasValue ==> segs[0] == T(tr, "Value") + ": " + ToText(data["value"]))
      && (hasCategory ==> segs[if hasValue then 1 else 0] == T(tr, "Category") + ": " + ToText(data["category"]))
      && (hasAttempts ==>
            segs[|segs| - 1] == T(tr, "Attempts Remaining") + ": " +
              (if data["max_attempts"] == Null || data["max_attempts"] == Num(0) then T(tr, "Unlimited")
               else ToText(data["max_attempts"])))
  {
  }

  /** With no fields the meta line is empty. */
  lemma MetaLineEmpty()
    ensures MetaLine(map[], map[]) == ""
  {
    assert MetaSegments(map[], map[]) == [];
  }

  /** With all three fields, untranslated, and 0 attempts, the meta line reads
      "Value: 100 • Category: Web • Attempts Remaining: Unlimited". */
  lemma MetaLineExample()
    ensures MetaLine(map[], map["value" := Num(100), "category" := Str("Web"), "max_attempts" := Num(0)])
         == "Value: 100" + " • " + "Category: Web" + " • " + "Attempts Remaining: Unlimited"
  {
    MetaSegmentsExample();
    JoinThree("Value: 100", "Category: Web", "Attempts Remaining: Unlimited", " • ");
  }

  lemma MetaSegmentsExample()
    ensures MetaSegments(map[], map["value" := Num(100), "category" := Str("Web"), "max_attempts" := Num(0)])
         == ["Value: 100", "Category: Web", "Attempts Remaining: Unlimited"]
  {
    var data := map["value" := Num(100), "category" := Str("Web"), "max_attempts" := Num(0)];
    var tr: Translations := map[];
    assert Prop(data, "value") == Num(100);
    assert Prop(data, "category") == Str("Web");
    assert "max_attempts" in data && Prop(data, "max_attempts") == Num(0);
    Hundred();
    assert T(tr, "Value") == "Value" && T(tr, "Category") == "Category";
    assert T(tr, "Attempts Remaining") == "Attempts Remaining" && T(tr, "Unlimited") == "Unlimited";
    var s1 := T(tr, "Value") + ": " + ToText(Prop(data, "value"));
    var s2 := T(tr, "Category") + ": " + ToText(Prop(data, "category"));
    var s3 := T(tr, "Attempts Remaining") + ": " + T(tr, "Unlimited");
    assert s1 == "Value: 100";
    assert s2 == "Category: Web";
    assert s3 == "Attempts Remaining: Unlimited";
    assert MetaSegments(tr, data) == [s1] + [s2] + [s3];
  }

  lemma Hundred()
    ensures ToText(Num(100)) == "100"
  {
    assert DigitChar(0) == '0' && DigitChar(1) == '1';
    assert NatToString(1) == "1";
    assert NatToString(10) == NatToString(1) + [DigitChar(0)] == "10";
    assert NatToString(100) == NatToString(10) + [DigitChar(0)] == "100";
    assert IntToString(100) == "100";
    assert ToText(Num(100)) == IntToString(100);
  }

  lemma JoinThree(a: string, b: string, c: string, sep: string)
    ensures Join([a, b, c], sep) == a + sep + b + sep + c
  {
    assert [a, b, c][..2] == [a, b];
    assert [a, b][..1] == [a];
    assert Join([a], sep) == a;
    assert Join([a, b], sep) == Join([a], sep) + sep + b;
    assert Join([a, b, c], sep) == Join([a, b], sep) + sep + c;
  }

  /** What the modal body shows above the flag input. */
  datatype Body = Loading | Html(html: Value) | Description(description: Value) | NoDescription(text: string)

  /** `renderChallengeBody`: the challenge's html when truthy, else its description
      when truthy, else the "No description provided" placeholder. */
  function BodyFor(tr: Translations, data: JsObject): (b: Body)
    ensures Truthy(Prop(data, "html")) ==> b == Html(data["html"])
    ensures !Truthy(Prop(data, "html")) && Truthy(Prop(data, "description")) ==> b == Description(data["description"])
    ensures !Truthy(Prop(data, "html")) && !Truthy(Prop(data, "description")) ==> b == NoDescription(T(tr, "No description provided"))
  {
    if Truthy(Prop(data, "html")) then Html(data["html"])
    else if Truthy(Prop(data, "description")) then Description(data["description"])
    else NoDescription(T(tr, "No description provided"))
  }

  // ---------------------------------------------------------------- step cards

  /** A step of the refreshed payload, as the script reads it. */
  datatype StepEntry = StepEntry(id: Value, completed: Value)

  /** A career of the refreshed payload; its counts are the server's non-negative integers. */
  datatype CareerEntry = CareerEntry(id: Value, totalSteps: nat, completedSteps: nat, steps: seq<StepEntry>)

  /** A step card on the page: its `data-step-completed` attribute and its badge, if it has one. */
  datatype Badge = Badge(text: string, classes: set<string>)
  datatype Card = Card(completedAttr: string, badge: Option<Badge>)

  /** `classList.toggle('bg-success', done)` then `classList.toggle('bg-secondary', !done)`. */
  function ToggledClasses(cs: set<string>, done: bool): (r: set<string>)
    ensures "bg-success" in r <==> done
    ensures "bg-secondary" in r <==> !done
    ensures forall c :: c != "bg-success" && c != "bg-secondary" ==> (c in r <==> c in cs)
  {
    var withSuccess := if done then cs + {"bg-success"} else cs - {"bg-success"};
    if done then withSuccess - {"bg-secondary"} else withSuccess + {"bg-secondary"}
  }

  /** One step's card after the refresh: the attribute and the badge follow `step.completed`;
      the badge reads "Completed" or "In Progress" and carries exactly one of `bg-success`
      and `bg-secondary`; its other classes stay. */
  function PatchCard(tr: Translations, card: Card, step: StepEntry): (r: Card)
    ensures r.completedAttr == (if Truthy(step.completed) then "true" else "false")
    ensures r.badge.Some? <==> card.badge.Some?
    ensures r.badge.Some? ==>
      && r.badge.value.text == (if Truthy(step.completed) then T(tr, "Completed") else T(tr, "In Progress"))
      && ("bg-success" in r.badge.value.classes <==> Truthy(step.completed))
      && ("bg-secondary" in r.badge.value.classes <==> !Truthy(step.completed))
      && forall c :: c != "bg-success" && c != "bg-secondary" ==> (c in r.badge.value.classes <==> c in card.badge.value.classes)
  {
    var done := Truthy(step.completed);
    Card(if done then "true" else "false",
         match card.badge
         case None => None
         case Some(b) => Some(Badge(if done then T(tr, "Completed") else T(tr, "In Progress"), ToggledClasses(b.classes, done))))
  }

  /** Two cards that differ only in what a patch overwrites. */
  predicate SameBase(a: Card, b: Card)
  {
    && a.badge.Some? == b.badge.Some?
    && (a.badge.Some? ==> a.badge.value.classes - {"bg-success", "bg-secondary"} == b.badge.value.classes - {"bg-success", "bg-secondary"})
  }

  lemma PatchCardBase(tr: Translations, a: Card, b: Card, step: StepEntry)
    requires SameBase(a, b)
    ensures PatchCard(tr, a, step) == PatchCard(tr, b, step)
    ensures SameBase(PatchCard(tr, a, step), a)
  {
    if a.badge.Some? {
      var ra := PatchCard(tr, a, step).badge.value.classes;
      var rb := PatchCard(tr, b, step).badge.value.classes;
      forall c ensures c in ra <==> c in rb {
        if c != "bg-success" && c != "bg-secondary" {
          assert c in a.badge.value.classes <==> c in a.badge.value.classes - {"bg-success", "bg-secondary"};
        }
      }
      assert ra == rb;
    }
  }

  /** The card a step's `[data-step-id="${step.id}"]` selector finds. */
  function CardKey(step: StepEntry): string
  {
    ToText(step.id)
  }

  /** The badge-patching loop of `refreshCareerProgress`: steps without a card are skipped. */
  function PatchedCards(tr: Translations, cards: map<string, Card>, steps: seq<StepEntry>): map<string, Card>
  {
    if steps == [] then cards
    else
      var prev := PatchedCards(tr, cards, steps[..|steps| - 1]);
      var step := steps[|steps| - 1];
      if CardKey(step) in prev then prev[CardKey(step) := PatchCard(tr, prev[CardKey(step)], step)] else prev
  }

  /** No card is added or removed, and each card keeps everything a patch does not overwrite;
      a card that no step names is left exactly as it was. */
  lemma {:induction false} PatchedCardsKeep(tr: Translations, cards: map<string, Card>, steps: seq<StepEntry>)
    ensures PatchedCards(tr, cards, steps).Keys == cards.Keys
    ensures forall k :: k in cards ==> SameBase(PatchedCards(tr, cards, steps)[k], cards[k])
    ensures forall k :: k in cards && (forall j :: 0 <= j < |steps| ==> CardKey(steps[j]) != k) ==>
      PatchedCards(tr, cards, steps)[k] == cards[k]
  {
    if steps != [] {
      var init := steps[..|steps| - 1];
      var step := steps[|steps| - 1];
      PatchedCardsKeep(tr, cards, init);
      var prev := PatchedCards(tr, cards, init);
      var key := CardKey(step);
      if key in prev {
        PatchCardBase(tr, prev[key], prev[key], step);
        assert SameBase(PatchCard(tr, prev[key], step), cards[key]) by {
          assert SameBase(prev[key], cards[key]);
        }
      }
      forall k | k in cards && (forall j :: 0 <= j < |steps| ==> CardKey(steps[j]) != k)
        ensures PatchedCards(tr, cards, steps)[k] == cards[k]
      {
        assert CardKey(steps[|steps| - 1]) != k;
        forall j | 0 <= j < |init| ensures CardKey(init[j]) != k {
          assert init[j] == steps[j];
        }
      }
    }
  }

  /** A card named by several steps shows the last of them. */
  lemma {:induction false} PatchedCardsLast(tr: Translations, cards: map<string, Card>, steps: seq<StepEntry>, j: nat)
    requires j < |steps| && CardKey(steps[j]) in cards
    requires forall k :: j < k < |steps| ==> CardKey(steps[k]) != CardKey(steps[j])
    ensures var r := PatchedCards(tr, cards, steps);
      CardKey(steps[j]) in r && r[CardKey(steps[j])] == PatchCard(tr, cards[CardKey(steps[j])], steps[j])
  {
    var init := steps[..|steps| - 1];
    var key := CardKey(steps[j]);
    PatchedCardsKeep(tr, cards, init);
    var prev := PatchedCards(tr, cards, init);
    if j == |steps| - 1 {
      PatchCardBase(tr, prev[key], cards[key], steps[j]);
    } else {
      assert init[j] == steps[j];
      PatchedCardsLast(tr, cards, init, j);
    }
  }

  // ---------------------------------------------------------------- refresh

  /** `careers.find((entry) => entry.id === careerId)`: the position of the first match. */
  function FindEntry(careers: seq<CareerEntry>, careerId: Value): (r: Option<nat>)
    ensures r.Some? ==> r.value < |careers| && StrictEquals(careers[r.value].id, careerId)
    ensures r.Some? ==> forall k :: 0 <= k < r.value ==> !StrictEquals(careers[k].id, careerId)
    ensures r.None? ==> forall k :: 0 <= k < |careers| ==> !StrictEquals(careers[k].id, careerId)
  {
    if careers == [] then None
    else if StrictEquals(careers[0].id, careerId) then Some(0)
    else match FindEntry(careers[1..], careerId)
      case None => None
      case Some(i) => Some(i + 1)
  }

  /** `career.total_steps || career.steps.length || 0`. */
  function StepCount(c: CareerEntry): nat
  {
    if c.totalSteps != 0 then c.totalSteps else |c.steps|
  }

  /** `totalSteps ? Math.round((completedSteps / totalSteps) * 100) : 0`, rounding exactly. */
  function ShownPercent(c: CareerEntry): nat
  {
    if StepCount(c) == 0 then 0 else Percent.Percent(c.completedSteps, StepCount(c))
  }

  /** The percent is 0 without steps and at most 100 while no more steps are completed
      than there are; the count falls back to the number of listed steps. */
  lemma ShownPercentSpec(c: CareerEntry)
    ensures c.totalSteps == 0 ==> StepCount(c) == |c.steps|
    ensures StepCount(c) == 0 ==> ShownPercent(c) == 0
    ensures c.completedSteps <= StepCount(c) ==> ShownPercent(c) <= 100
  {
    if c.completedSteps <= StepCount(c) {
      PercentBounded(c.completedSteps, StepCount(c));
    }
  }

  /** The answer to the progress request; a failed request, a non-ok status and an
      unsuccessful payload are all only logged, so they are one case here. */
  datatype ProgressResponse = RefreshFailed | Refreshed(careers: seq<CareerEntry>)

  /** The career the refresh applies to, if the answer has it. */
  function RefreshTarget(careerId: Value, response: ProgressResponse): Option<CareerEntry>
  {
    match response
    case RefreshFailed => None
    case Refreshed(careers) =>
      match FindEntry(careers, careerId)
      case None => None
      case Some(i) => Some(careers[i])
  }

  function CardsAfterRefresh(tr: Translations, careerId: Value, cards: map<string, Card>, response: ProgressResponse): map<string, Card>
  {
    match RefreshTarget(careerId, response)
    case None => cards
    case Some(c) => PatchedCards(tr, cards, c.steps)
  }

  /** The progress bar's width, `aria-valuenow` and text, and the step counter. */
  datatype ProgressShown = ProgressShown(barWidth: string, barNow: string, barText: string, countText: string)

  /** What `refreshCareerProgress` leaves in the bar and the counter: nothing changes
      unless the answer lists this page's career; then the bar (when the page has one)
      shows the career's percent three times over, and the counter (when the page has
      one) its completed steps. */
  function ShownAfterRefresh(hasBar: bool, hasCount: bool, careerId: Value, response: ProgressResponse,
                             before: ProgressShown): (after: ProgressShown)
    ensures RefreshTarget(careerId, response).None? ==> after == before
    ensures RefreshTarget(careerId, response).Some? ==>
      var c := RefreshTarget(careerId, response).value;
      && (hasBar ==> after.barWidth == IntToString(ShownPercent(c)) + "%" && after.barNow == IntToString(ShownPercent(c))
                     && after.barText == IntToString(ShownPercent(c)) + "%")
      && (!hasBar ==> after.barWidth == before.barWidth && after.barNow == before.barNow && after.barText == before.barText)
      && after.countText == (if hasCount then IntToString(c.completedSteps) else before.countText)
  {
    match RefreshTarget(careerId, response)
    case None => before
    case Some(c) =>
      var percent := IntToString(ShownPercent(c));
      ProgressShown(if hasBar then percent + "%" else before.barWidth,
                    if hasBar then percent else before.barNow,
                    if hasBar then percent + "%" else before.barText,
                    if hasCount then IntToString(c.completedSteps) else before.countText)
  }

  // ---------------------------------------------------------------- open and submit

  /** The answer to the challenge request. */
  datatype ChallengeResponse =
    | LoadRejected(reason: string)
    | LoadAnswered(ok: bool, status: int, statusText: string, success: Value, message: Value, data: Option<JsObject>)

  /** The message of the error `openChallenge` throws, if it throws. */
  function LoadError(response: ChallengeResponse): Option<string>
  {
    match response
    case LoadRejected(m) => Some(m)
    case LoadAnswered(ok, status, statusText, success, message, _) =>
      if !ok then Some(IntToString(status) + " " + statusText)
      else if !Truthy(success) then Some(ToText(Or(message, Str("Failed to load challenge"))))
      else None
  }

  /** `payload.data || {}`. */
  function LoadedData(response: ChallengeResponse): JsObject
  {
    if response.LoadAnswered? && response.data.Some? then response.data.value else map[]
  }

  /** `error.message || t('Unexpected error')`. */
  function ErrorText(tr: Translations, message: string): (r: string)
    ensures r != ""
  {
    if message != "" then message else T(tr, "Unexpected error")
  }

  /** What the flag-submission API answered. */
  datatype AttemptData = AttemptData(status: Value, message: Value)
  datatype Attempt =
    | ApiMissing
    | AttemptRejected(reason: string)
    | Answered(success: Value, data: Option<AttemptData>, message: Value)

  /** The feedback a submission ends with, and whether it was a correct flag. */
  datatype Verdict = Verdict(level: string, message: string, correct: bool)

  /** The branches of `submitFlag` after the attempt: a correct status is a success;
      a missing API, a rejected call, `success === false` or any other status is a danger. */
  function Judge(tr: Translations, a: Attempt): (v: Verdict)
    ensures v.correct <==>
      a.Answered? && !StrictEquals(a.success, Bool(false)) && a.data.Some? && StrictEquals(a.data.value.status, Str("correct"))
    ensures v.level == (if v.correct then "success" else "danger")
    ensures v.message != ""
  {
    match a
    case ApiMissing => Verdict("danger", "Challenge submission API unavailable", false)
    case AttemptRejected(m) => Verdict("danger", ErrorText(tr, m), false)
    case Answered(success, data, message) =>
      if StrictEquals(success, Bool(false)) then
        var dataMessage := if data.Some? then data.value.message else Undefined;
        Verdict("danger", ErrorText(tr, ToText(Or(dataMessage, Or(message, Str(T(tr, "Unexpected error")))))), false)
      else
        var status := if data.Some? then data.value.status else Undefined;
        var text := Or(if data.Some? then data.value.message else Undefined, Str(""));
        if StrictEquals(status, Str("correct")) then
          Verdict("success", if Truthy(text) then ToText(text) else T(tr, "Challenge solved!"), true)
        else
          Verdict("danger", if Truthy(text) then ToText(text) else T(tr, "Incorrect flag"), false)
  }

  /** The page state the script reads and writes. The `has…` constants say which
      optional elements the page has. */
  class DetailPage {
    const tr: Translations
    const careerId: Value
    const hasFeedback: bool
    const hasMeta: bool
    const hasSubmit: bool
    const hasModal: bool
    const hasBar: bool
    const hasCount: bool

    var currentChallengeId: Option<int>
    /** The value of the flag input the script holds, if any. */
    var flagInput: Option<string>
    var feedback: Feedback
    var metaText: string
    var body: Body
    var modalShown: bool
    var submitDisabled: bool
    var barWidth: string
    var barNow: string
    var barText: string
    var countText: string
    var cards: map<string, Card>
    /** Every (challenge id, submission) sent to the attempt API. */
    var attempts: seq<(int, string)>
    /** How many progress refreshes were started. */
    var refreshes: nat

    /** The bar and counter as the page shows them. */
    function Shown(): ProgressShown
      reads this
    {
      ProgressShown(barWidth, barNow, barText, countText)
    }

    constructor (tr: Translations, careerId: Value, hasFeedback: bool, hasMeta: bool, hasSubmit: bool,
                 hasModal: bool, hasBar: bool, hasCount: bool, cards: map<string, Card>)
      ensures this.tr == tr && this.careerId == careerId && this.cards == cards
      ensures this.hasFeedback == hasFeedback && this.hasMeta == hasMeta && this.hasSubmit == hasSubmit
      ensures this.hasModal == hasModal && this.hasBar == hasBar && this.hasCount == hasCount
      ensures currentChallengeId == None && flagInput == None && attempts == [] && refreshes == 0
    {
      this.tr, this.careerId, this.cards := tr, careerId, cards;
      this.hasFeedback, this.hasMeta, this.hasSubmit := hasFeedback, hasMeta, hasSubmit;
      this.hasModal, this.hasBar, this.hasCount := hasModal, hasBar, hasCount;
      currentChallengeId, flagInput := None, None;
      feedback := Feedback({"d-none"}, "");
      metaText, body, modalShown, submitDisabled := "", Loading, false, false;
      barWidth, barNow, barText, countText := "", "", "", "";
      attempts, refreshes := [], 0;
    }

    /** `setFeedback(level, message)`, class by class. */
    method SetFeedback(level: Option<string>, message: string)
      modifies this`feedback
      ensures feedback == if hasFeedback then FeedbackAfter(old(feedback), level, message) else old(feedback)
    {
      if !hasFeedback {
        return;
      }
      if message == "" {
        feedback := feedback.(classes := feedback.classes + {"d-none"});
        feedback := feedback.(text := "");
        feedback := feedback.(classes := feedback.classes - AlertClasses);
        return;
      }
      feedback := feedback.(classes := feedback.classes - AlertClasses);
      feedback := feedback.(classes := feedback.classes + {LevelClass(level)});
      feedback := feedback.(text := message);
      feedback := feedback.(classes := feedback.classes - {"d-none"});
    }

    /** `renderChallengeMeta(data)`. */
    method RenderChallengeMeta(data: JsObject)
      modifies this`metaText
      ensures metaText == if hasMeta then MetaLine(tr, data) else old(metaText)
    {
      if hasMeta {
        metaText := MetaLine(tr, data);
      }
    }

    /** `renderChallengeBody(data)`: the body, and a fresh empty flag input. */
    method RenderChallengeBody(data: JsObject)
      modifies this`body, this`flagInput
      ensures body == BodyFor(tr, data) && flagInput == Some("")
    {
      flagInput := None;
      body := BodyFor(tr, data);
      flagInput := Some("");
    }

    /** `openChallenge(challengeId)`: the modal is reset and shown; on success it shows the
        challenge's meta line and body with a fresh flag input, and a success message
        only when the challenge is already solved; on failure the error, with the loading
        body and the previous flag input left in place. */
    method OpenChallenge(challengeId: int, response: ChallengeResponse)
      modifies this`currentChallengeId, this`feedback, this`metaText, this`body, this`flagInput, this`modalShown
      ensures currentChallengeId == Some(challengeId)
      ensures modalShown == (hasModal || old(modalShown))
      ensures LoadError(response).Some? ==>
        && body == Loading && flagInput == old(flagInput)
        && metaText == (if hasMeta then "" else old(metaText))
        && feedback == (if hasFeedback then FeedbackAfter(old(feedback), Some("danger"), ErrorText(tr, LoadError(response).value)) else old(feedback))
      ensures LoadError(response).None? ==>
        var data := LoadedData(response);
        && body == BodyFor(tr, data) && flagInput == Some("")
        && metaText == (if hasMeta then MetaLine(tr, data) else old(metaText))
        && feedback == (if !hasFeedback then old(feedback)
                        else if Truthy(Prop(data, "solved")) then FeedbackAfter(old(feedback), Some("success"), T(tr, "Challenge already solved"))
                        else FeedbackAfter(old(feedback), None, ""))
    {
      currentChallengeId := Some(challengeId);
      SetFeedback(None, "");
      RenderChallengeMeta(map[]);
      assert MetaLine(tr, map[]) == "";
      body := Loading;
      var error := LoadError(response);
      if error.Some? {
        SetFeedback(Some("danger"), ErrorText(tr, error.value));
      } else {
        var data := LoadedData(response);
        RenderChallengeMeta(data);
        RenderChallengeBody(data);
        if Truthy(Prop(data, "solved")) {
          SetFeedback(Some("success"), T(tr, "Challenge already solved"));
        } else {
          SetFeedback(None, "");
        }
      }
      if hasModal {
        modalShown := true;
      }
    }

    /** The `forEach` over the refreshed steps. */
    method PatchStepCards(steps: seq<StepEntry>)
      modifies this`cards
      ensures cards == PatchedCards(tr, old(cards), steps)
    {
      ghost var start := cards;
      for i := 0 to |steps|
        invariant cards == PatchedCards(tr, start, steps[..i])
      {
        var step := steps[i];
        assert steps[..i + 1][..i] == steps[..i];
        var key := CardKey(step);
        if key in cards {
          cards := cards[key := PatchCard(tr, cards[key], step)];
        }
      }
      assert steps[..|steps|] == steps;
    }

    /** `refreshCareerProgress()`: when the answer lists this page's career, the bar,
        the counter and the step cards show its progress; otherwise nothing changes. */
    method Refresh(response: ProgressResponse)
      modifies this`barWidth, this`barNow, this`barText, this`countText, this`cards
      ensures cards == CardsAfterRefresh(tr, careerId, old(cards), response)
      ensures Shown() == ShownAfterRefresh(hasBar, hasCount, careerId, response, old(Shown()))
    {
      if response.RefreshFailed? {
        return;
      }
      var found := FindEntry(response.careers, careerId);
      if found.None? {
        return;
      }
      var career := response.careers[found.value];
      var totalSteps := if career.totalSteps != 0 then career.totalSteps else |career.steps|;
      var completedSteps := career.completedSteps;
      var percent := if totalSteps != 0 then Percent.Percent(completedSteps, totalSteps) else 0;
      if hasBar {
        barWidth := IntToString(percent) + "%";
        barNow := IntToString(percent);
        barText := IntToString(percent) + "%";
      }
      if hasCount {
        countText := IntToString(completedSteps);
      }
      PatchStepCards(career.steps);
    }

    /** `submitFlag()`: nothing is sent without a current challenge or an input, or when
        the trimmed input is empty (which asks for a flag). Otherwise the trimmed flag is
        sent once, the feedback shows the verdict, a correct flag clears the input and
        starts exactly one refresh, anything else starts none, and the submit button
        ends enabled. */
    method SubmitFlag(attempt: Attempt, refresh: ProgressResponse)
      modifies this`submitDisabled, this`feedback, this`attempts, this`flagInput, this`refreshes,
               this`barWidth, this`barNow, this`barText, this`countText, this`cards
      ensures old(currentChallengeId).None? || old(currentChallengeId).value == 0 || old(flagInput).None? ==>
        && attempts == old(attempts) && refreshes == old(refreshes) && feedback == old(feedback)
        && flagInput == old(flagInput) && cards == old(cards) && submitDisabled == old(submitDisabled)
        && Shown() == old(Shown())
      ensures old(currentChallengeId).Some? && old(currentChallengeId).value != 0 && old(flagInput).Some? ==>
        var submission := Trim(old(flagInput).value);
        var v := Judge(tr, attempt);
        if submission == "" then
          && attempts == old(attempts) && refreshes == old(refreshes) && flagInput == old(flagInput) && cards == old(cards)
          && submitDisabled == old(submitDisabled) && Shown() == old(Shown())
          && feedback == (if hasFeedback then FeedbackAfter(old(feedback), Some("info"), T(tr, "Enter flag")) else old(feedback))
        else
          && attempts == old(attempts) + (if attempt.ApiMissing? then [] else [(old(currentChallengeId).value, submission)])
          && feedback == (if hasFeedback then FeedbackAfter(old(feedback), Some(v.level), v.message) else old(feedback))
          && submitDisabled == (if hasSubmit then false else old(submitDisabled))
          && (v.correct ==> flagInput == Some("") && refreshes == old(refreshes) + 1
                            && cards == CardsAfterRefresh(tr, careerId, old(cards), refresh)
                            && Shown() == ShownAfterRefresh(hasBar, hasCount, careerId, refresh, old(Shown())))
          && (!v.correct ==> flagInput == old(flagInput) && refreshes == old(refreshes) && cards == old(cards)
                             && Shown() == old(Shown()))
    {
      if currentChallengeId.None? || currentChallengeId.value == 0 || flagInput.None? {
        return;
      }
      var submission := Trim(flagInput.value);
      if submission == "" {
        SetFeedback(Some("info"), T(tr, "Enter flag"));
        return;
      }
      Send(currentChallengeId.value, submission, attempt, refresh);
    }

    /** The part of `submitFlag` after the checks: the button is disabled, "Submitting..."
        shown, the attempt sent, the verdict shown, and the button enabled again. */
    method Send(challengeId: int, submission: string, attempt: Attempt, refresh: ProgressResponse)
      modifies this`submitDisabled, this`feedback, this`attempts, this`flagInput, this`refreshes,
               this`barWidth, this`barNow, this`barText, this`countText, this`cards
      ensures var v := Judge(tr, attempt);
        && attempts == old(attempts) + (if attempt.ApiMissing? then [] else [(challengeId, submission)])
        && feedback == (if hasFeedback then FeedbackAfter(old(feedback), Some(v.level), v.message) else old(feedback))
        && submitDisabled == (if hasSubmit then false else old(submitDisabled))
        && (v.correct ==> flagInput == Some("") && refreshes == old(refreshes) + 1
                          && cards == CardsAfterRefresh(tr, careerId, old(cards), refresh)
                          && Shown() == ShownAfterRefresh(hasBar, hasCount, careerId, refresh, old(Shown())))
        && (!v.correct ==> flagInput == old(flagInput) && refreshes == old(refreshes) && cards == old(cards)
                           && Shown() == old(Shown()))
    {
      if hasSubmit {
        submitDisabled := true;
      }
      SetFeedback(Some("info"), T(tr, "Submitting..."));
      if !attempt.ApiMissing? {
        attempts := attempts + [(challengeId, submission)];
      }
      var v := Judge(tr, attempt);
      FeedbackOverwrites(old(feedback), "info", T(tr, "Submitting..."), v.level, v.message);
      Finish(v, refresh);
    }

    /** The end of `submitFlag`: the verdict is shown, a correct flag clears the input
        and starts one refresh, and the submit button is enabled again. */
    method Finish(v: Verdict, refresh: ProgressResponse)
      modifies this`submitDisabled, this`feedback, this`flagInput, this`refreshes,
               this`barWidth, this`barNow, this`barText, this`countText, this`cards
      ensures feedback == (if hasFeedback then FeedbackAfter(old(feedback), Some(v.level), v.message) else old(feedback))
      ensures submitDisabled == (if hasSubmit then false else old(submitDisabled))
      ensures v.correct ==> flagInput == Some("") && refreshes == old(refreshes) + 1
                            && cards == CardsAfterRefresh(tr, careerId, old(cards), refresh)
                            && Shown() == ShownAfterRefresh(hasBar, hasCount, careerId, refresh, old(Shown()))
      ensures !v.correct ==> flagInput == old(flagInput) && refreshes == old(refreshes) && cards == old(cards)
                             && Shown() == old(Shown())
    {
      SetFeedback(Some(v.level), v.message);
      Conclude(v.correct, refresh);
      if hasSubmit {
        submitDisabled := false;
      }
    }

    /** After the verdict: a correct flag clears the input and starts one refresh. */
    method Conclude(correct: bool, refresh: ProgressResponse)
      modifies this`flagInput, this`refreshes, this`barWidth, this`barNow, this`barText, this`countText, this`cards
      ensures correct ==> flagInput == Some("") && refreshes == old(refreshes) + 1
                          && cards == CardsAfterRefresh(tr, careerId, old(cards), refresh)
                          && Shown() == ShownAfterRefresh(hasBar, hasCount, careerId, refresh, old(Shown()))
      ensures !correct ==> flagInput == old(flagInput) && refreshes == old(refreshes) && cards == old(cards)
                           && Shown() == old(Shown())
    {
      if correct {
        flagInput := Some("");
        refreshes := refreshes + 1;
        Refresh(refresh);
      }
    }
  }
}

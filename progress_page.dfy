/**
 * The player dashboard script: one card per career with a progress bar and the
 * list of its steps, each marked completed or in progress, or a single notice
 * when there are no careers. The career list arrives as a parameter.
 */
module ProgressPage {
  import opened Wrappers
  import opened Text
  import opened Json
  import opened Percent

  type Translations = map<string, string>

  /** `t(key)`: a non-empty translation, else the key itself. */
  function Tr(tr: Translations, key: string): (r: string)
    ensures key in tr && tr[key] != "" ==> r == tr[key]
    ensures key !in tr || tr[key] == "" ==> r == key
  {
    if key in tr && tr[key] != "" then tr[key] else key
  }

  /** A step as the dashboard receives it. */
  datatype StepEntry = StepEntry(name: Value, description: Value, imageUrl: Value, completed: Value)

  /** A career as the dashboard receives it; its counts are the server's non-negative integers. */
  datatype CareerEntry = CareerEntry(id: Value, name: Value, description: Value, icon: Value, color: Value,
                                     totalSteps: nat, completedSteps: nat, steps: seq<StepEntry>)

  datatype Image = Image(src: string, alt: string)

  /** One `<li>` of the step list. */
  datatype StepItem = StepItem(icon: string, image: Option<Image>, title: string, description: Option<string>,
                               badgeClass: string, badgeText: string)

  /** A step's list item: a completed step shows "✅", a `bg-success` badge and "Completed",
      any other "🔒", a `bg-secondary` badge and "In Progress"; the description and the
      image appear only when the step has them. */
  function StepItemOf(tr: Translations, step: StepEntry): (item: StepItem)
    ensures Truthy(step.completed) ==> item.icon == "✅" && item.badgeClass == "badge bg-success" && item.badgeText == Tr(tr, "Completed")
    ensures !Truthy(step.completed) ==> item.icon == "🔒" && item.badgeClass == "badge bg-secondary" && item.badgeText == Tr(tr, "In Progress")
    ensures item.description.Some? <==> Truthy(step.description)
    ensures item.image.Some? <==> Truthy(step.imageUrl)
    ensures item.title == TextContent(step.name)
  {
    var done := Truthy(step.completed);
    StepItem(if done then "✅" else "🔒",
             if Truthy(step.imageUrl) then Some(Image(ToText(step.imageUrl), ToText(step.name) + " illustration")) else None,
             TextContent(step.name),
             if Truthy(step.description) then Some(ToText(step.description)) else None,
             BadgeClass(done),
             if done then Tr(tr, "Completed") else Tr(tr, "In Progress"))
  }

  /** `badge ${completed ? "bg-success" : "bg-secondary"}`. */
  function BadgeClass(done: bool): (c: string)
    ensures done ==> c == "badge bg-success"
    ensures !done ==> c == "badge bg-secondary"
  {
    "badge " + (if done then "bg-success" else "bg-secondary")
  }

  function StepItems(tr: Translations, steps: seq<StepEntry>): seq<StepItem>
  {
    if steps == [] then [] else StepItems(tr, steps[..|steps| - 1]) + [StepItemOf(tr, steps[|steps| - 1])]
  }

  /** The list has one item per step, in the order of the steps. */
  lemma {:induction false} StepItemsSpec(tr: Translations, steps: seq<StepEntry>)
    ensures |StepItems(tr, steps)| == |steps|
    ensures forall i :: 0 <= i < |steps| ==> StepItems(tr, steps)[i] == StepItemOf(tr, steps[i])
  {
    if steps != [] {
      StepItemsSpec(tr, steps[..|steps| - 1]);
    }
  }

  /** `buildStepList(steps)`. */
  method BuildStepList(tr: Translations, steps: seq<StepEntry>) returns (items: seq<StepItem>)
    ensures items == StepItems(tr, steps)
  {
    items := [];
    for i := 0 to |steps|
      invariant items == StepItems(tr, steps[..i])
    {
      assert steps[..i + 1][..i] == steps[..i];
      items := items + [StepItemOf(tr, steps[i])];
    }
    assert steps[..|steps|] == steps;
  }

  /** The progress bar's attributes and label. */
  datatype Bar = Bar(width: string, valueNow: string, valueMin: string, valueMax: string, caption: string)

  /** `total_steps ? Math.round((completed_steps / total_steps) * 100) : 0`, rounding exactly. */
  function CardPercent(c: CareerEntry): nat
  {
    if c.totalSteps != 0 then Percent.Percent(c.completedSteps, c.totalSteps) else 0
  }

  function BarOf(tr: Translations, c: CareerEntry): Bar
  {
    var p := IntToString(CardPercent(c));
    Bar(p + "%", p, "0", "100", p + "% " + Tr(tr, "Progress"))
  }

  /** Width, `aria-valuenow` and label carry one percent, between the fixed bounds 0 and
      100; the percent is 0 without steps and at most 100 while no more steps are
      completed than there are. */
  lemma BarSpec(tr: Translations, c: CareerEntry)
    ensures var b := BarOf(tr, c);
      var p := CardPercent(c);
      && b.width == IntToString(p) + "%" && b.valueNow == IntToString(p)
      && b.caption == IntToString(p) + "% " + Tr(tr, "Progress")
      && b.valueMin == "0" && b.valueMax == "100"
      && (c.totalSteps == 0 ==> p == 0)
      && (c.completedSteps <= c.totalSteps ==> p <= 100)
  {
    if c.completedSteps <= c.totalSteps && c.totalSteps != 0 {
      PercentBounded(c.completedSteps, c.totalSteps);
    }
  }

  /** One career card. */
  datatype CareerCard = CareerCard(borderTop: Option<string>, icon: Option<Image>, href: string, title: string,
                                   description: Option<string>, bar: Bar, steps: seq<StepItem>)

  function CareerCardOf(tr: Translations, c: CareerEntry): CareerCard
  {
    CareerCard(if Truthy(c.color) then Some("4px solid " + ToText(c.color)) else None,
               if Truthy(c.icon) then Some(Image(ToText(c.icon), ToText(c.name) + " icon")) else None,
               "/plugins/career/" + ToText(c.id),
               TextContent(c.name),
               if Truthy(c.description) then Some(ToText(c.description)) else None,
               BarOf(tr, c),
               StepItems(tr, c.steps))
  }

  /** `renderCareer(career)`: the card, with the step list built by `buildStepList`. */
  method RenderCareer(tr: Translations, c: CareerEntry) returns (card: CareerCard)
    ensures card == CareerCardOf(tr, c)
    ensures |card.steps| == |c.steps| && card.bar == BarOf(tr, c)
  {
    var items := BuildStepList(tr, c.steps);
    StepItemsSpec(tr, c.steps);
    card := CareerCard(if Truthy(c.color) then Some("4px solid " + ToText(c.color)) else None,
                       if Truthy(c.icon) then Some(Image(ToText(c.icon), ToText(c.name) + " icon")) else None,
                       "/plugins/career/" + ToText(c.id),
                       TextContent(c.name),
                       if Truthy(c.description) then Some(ToText(c.description)) else None,
                       BarOf(tr, c),
                       items);
  }

  /** What the root element holds. */
  datatype RootNode = InfoAlert(text: string) | DangerAlert(text: string) | Card(card: CareerCard)

  /** The answer to the careers request. */
  datatype CareersResponse =
    | CareersRejected(reason: string)
    | CareersAnswered(ok: bool, success: Value, message: Value, careers: seq<CareerEntry>)

  /** The message of the error `fetchCareers` catches, if any. */
  function FetchError(response: CareersResponse): Option<string>
  {
    match response
    case CareersRejected(m) => Some(m)
    case CareersAnswered(ok, success, message, _) =>
      if !ok then Some("Failed to load career data")
      else if !Truthy(success) then Some(ToText(Or(message, Str("Failed to load career data"))))
      else None
  }

  /** The dashboard's root element. */
  class Dashboard {
    const tr: Translations
    var root: seq<RootNode>

    constructor (tr: Translations)
      ensures this.tr == tr && root == []
    {
      this.tr := tr;
      root := [];
    }

    /** `renderCareers(careers)`: no careers give the single "No careers available yet"
        notice; otherwise one card per career, in order, and nothing else. */
    method RenderCareers(careers: seq<CareerEntry>)
      modifies this`root
      ensures careers == [] ==> root == [InfoAlert(Tr(tr, "No careers available yet"))]
      ensures careers != [] ==> |root| == |careers| && forall i :: 0 <= i < |careers| ==> root[i] == Card(CareerCardOf(tr, careers[i]))
    {
      root := [];
      if |careers| == 0 {
        root := root + [InfoAlert(Tr(tr, "No careers available yet"))];
        return;
      }
      for i := 0 to |careers|
        invariant |root| == i
        invariant forall k :: 0 <= k < i ==> root[k] == Card(CareerCardOf(tr, careers[k]))
      {
        var card := RenderCareer(tr, careers[i]);
        root := root + [Card(card)];
      }
    }

    /** `fetchCareers()`: a successful answer renders its careers; any failure replaces
        the content with one danger alert carrying the error message. */
    method FetchCareers(response: CareersResponse)
      modifies this`root
      ensures FetchError(response).Some? ==> root == [DangerAlert(FetchError(response).value)]
      ensures FetchError(response).None? && response.careers == [] ==> root == [InfoAlert(Tr(tr, "No careers available yet"))]
      ensures FetchError(response).None? && response.careers != [] ==>
        |root| == |response.careers| && forall i :: 0 <= i < |root| ==> root[i] == Card(CareerCardOf(tr, response.careers[i]))
    {
      var error := FetchError(response);
      if error.Some? {
        root := [];
        root := root + [DangerAlert(error.value)];
        return;
      }
      RenderCareers(response.careers);
    }
  }
}

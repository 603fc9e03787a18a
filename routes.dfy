/**
 * The admin and player JSON endpoints: required-field validation, creating,
 * updating and deleting careers, creating steps, listing a career's steps, and
 * the handler that renders an `APIError` as a 400 JSON body.
 */
module Routes {
  import opened Wrappers
  import opened Text
  import opened Json
  import opened SolveCounts
  import opened Models
  import opened ProgressService

  /** What a handler answers: 200 or 201 with data, an `APIError` (400) with its
      message, `get_or_404`'s 404, or a 500 from an uncaught database error. */
  datatype Reply<T> = Ok(data: T) | Created(data: T) | BadRequest(message: string) | NotFound | ServerError

  /** The JSON body the `APIError` handler renders. */
  datatype ErrorResponse = ErrorResponse(status: int, success: bool, message: string)

  /** A request body; `request.get_json() or {}` makes an absent body the empty map. */
  type Payload = map<string, Value>

  /** `payload.get(key)`: None when the key is absent. */
  function Get(payload: Payload, key: string): (v: Value)
    ensures key !in payload ==> v == Null
  {
    if key in payload then payload[key] else Null
  }

  // ---------------------------------------------------------------- validation

  /** The required fields whose value is absent or falsy, in the order given. */
  function Missing(data: Payload, fields: seq<string>): (m: seq<string>)
    ensures |m| <= |fields|
    ensures forall f :: f in m <==> f in fields && !PyTruthy(Get(data, f))
  {
    if fields == [] then []
    else
      var f := fields[|fields| - 1];
      Missing(data, fields[..|fields| - 1]) + (if PyTruthy(Get(data, f)) then [] else [f])
  }

  /** `_validate_required_fields`: no message exactly when every field is present
      and truthy; otherwise the message lists the missing fields, comma separated. */
  function ValidateRequiredFields(data: Payload, fields: seq<string>): (r: Option<string>)
    ensures r.None? <==> forall f :: f in fields ==> PyTruthy(Get(data, f))
    ensures r.Some? ==> r.value == "Missing required fields: " + Join(Missing(data, fields), ", ")
  {
    var missing := Missing(data, fields);
    if missing == [] then None
    else
      assert missing[0] in missing;
      Some("Missing required fields: " + Join(missing, ", "))
  }

  /** The message names every missing field, in the order the fields were listed. */
  lemma MissingFieldsMessage()
    ensures ValidateRequiredFields(map["name" := Str("")], ["career_id", "name"])
         == Some("Missing required fields: career_id, name")
    ensures ValidateRequiredFields(map["career_id" := Num(3), "name" := Str("Web")], ["career_id", "name"]) == None
  {
    var data: Payload := map["name" := Str("")];
    var fields := ["career_id", "name"];
    assert fields[..1] == ["career_id"];
    assert fields[..1][..0] == [];
    assert Missing(data, fields[..1]) == ["career_id"];
    assert Missing(data, fields) == ["career_id", "name"];
    var both := ["career_id", "name"];
    assert both[..1] == ["career_id"];
    assert Join(both, ", ") == "career_id" + ", " + "name";
    assert "career_id" + ", " + "name" == "career_id, name";
    assert "Missing required fields: " + "career_id, name" == "Missing required fields: career_id, name";
    assert ValidateRequiredFields(data, fields).value == "Missing required fields: " + Join(both, ", ");
    var good: Payload := map["career_id" := Num(3), "name" := Str("Web")];
    assert Missing(good, fields[..1]) == [];
    assert Missing(good, fields) == [];
  }

  /** `handle_api_error`: an `APIError` renders as status 400 with `success` false
      and its message. */
  function HandleApiError(message: string): (r: ErrorResponse)
    ensures r.status == 400 && !r.success && r.message == message
  {
    ErrorResponse(400, false, message)
  }

  // ---------------------------------------------------------------- table helpers

  /** The key the database gives the next row: one past the largest (last) id. */
  function NextCareerId(careers: seq<Career>): (id: int)
    requires CareerIdsAscending(careers)
    ensures forall c :: c in careers ==> c.id < id
  {
    if careers == [] then 1
    else
      assert forall k :: 0 <= k < |careers| ==> careers[k].id <= careers[|careers| - 1].id;
      careers[|careers| - 1].id + 1
  }

  function NextStepId(steps: seq<Step>): (id: int)
    requires StepIdsAscending(steps)
    ensures forall s :: s in steps ==> s.id < id
  {
    if steps == [] then 1
    else
      assert forall k :: 0 <= k < |steps| ==> steps[k].id <= steps[|steps| - 1].id;
      steps[|steps| - 1].id + 1
  }

  /** `get_or_404` on `careers`: the position of the row with that key. */
  function FindCareer(careers: seq<Career>, id: int): (r: Option<nat>)
    ensures r.None? <==> id !in CareerIds(careers)
    ensures r.Some? ==> r.value < |careers| && careers[r.value].id == id
  {
    if careers == [] then None
    else if careers[|careers| - 1].id == id then Some(|careers| - 1)
    else
      var r := FindCareer(careers[..|careers| - 1], id);
      assert careers == careers[..|careers| - 1] + [careers[|careers| - 1]];
      r
  }

  predicate NameTaken(careers: seq<Career>, name: Value)
  {
    exists c :: c in careers && c.name == name
  }

  predicate StepNameTaken(steps: seq<Step>, careerId: int, name: Value)
  {
    exists s :: s in steps && s.careerId == careerId && s.name == name
  }

  // ---------------------------------------------------------------- create_career

  /** `create_career`: a missing or falsy name is a 400 with the validation message;
      a name already in use is the 400 "Career already exists" and nothing is added;
      otherwise the career is appended under the next key and returned (201). */
  method CreateCareer(store: Store, payload: Payload) returns (r: Reply<CareerDict>)
    requires store.Valid()
    modifies store`careers
    ensures store.Valid()
    ensures ValidateRequiredFields(payload, ["name"]).Some? ==>
      r == BadRequest(ValidateRequiredFields(payload, ["name"]).value) && store.careers == old(store.careers)
    ensures ValidateRequiredFields(payload, ["name"]).None? && NameTaken(old(store.careers), payload["name"]) ==>
      r == BadRequest("Career already exists") && store.careers == old(store.careers)
    ensures ValidateRequiredFields(payload, ["name"]).None? && !NameTaken(old(store.careers), payload["name"]) ==>
      var c := Career(NextCareerId(old(store.careers)), payload["name"],
                      Get(payload, "description"), Get(payload, "icon"), Get(payload, "color"));
      && store.careers == old(store.careers) + [c]
      && r == Created(CareerToDict(c, false, None, store.steps, store.progress))
  {
    var invalid := ValidateRequiredFields(payload, ["name"]);
    if invalid.Some? {
      return BadRequest(invalid.value);
    }
    assert "name" in ["name"];
    var name := payload["name"];
    if NameTaken(store.careers, name) {
      return BadRequest("Career already exists");
    }
    var c := Career(NextCareerId(store.careers), name,
                    Get(payload, "description"), Get(payload, "icon"), Get(payload, "color"));
    store.careers := store.careers + [c];
    r := Created(CareerToDict(c, false, None, store.steps, store.progress));
  }

  // ---------------------------------------------------------------- update_career

  /** The columns `update_career` may set, in the order it visits them. */
  const CareerFields: seq<string> := ["name", "description", "icon", "color"]

  /** `setattr(career, key, value)` for one of the four columns. */
  function SetCareerField(c: Career, key: string, v: Value): Career
  {
    if key == "name" then c.(name := v)
    else if key == "description" then c.(description := v)
    else if key == "icon" then c.(icon := v)
    else if key == "color" then c.(color := v)
    else c
  }

  /** The loop over the column names, applied to a prefix of them. */
  function SetFields(c: Career, payload: Payload, keys: seq<string>): Career
  {
    if keys == [] then c
    else
      var key := keys[|keys| - 1];
      var prev := SetFields(c, payload, keys[..|keys| - 1]);
      if key in payload then SetCareerField(prev, key, PyOr(payload[key], Null)) else prev
  }

  /** What the update means column by column: a column named in the payload takes
      its value, a falsy value becoming NULL; the others and the key are kept. */
  predicate IsPatched(c: Career, payload: Payload, r: Career)
  {
    && r.id == c.id
    && r.name == (if "name" in payload then PyOr(payload["name"], Null) else c.name)
    && r.description == (if "description" in payload then PyOr(payload["description"], Null) else c.description)
    && r.icon == (if "icon" in payload then PyOr(payload["icon"], Null) else c.icon)
    && r.color == (if "color" in payload then PyOr(payload["color"], Null) else c.color)
  }

  /** The column loop of `update_career`. */
  method PatchCareer(career: Career, payload: Payload) returns (c: Career)
    ensures IsPatched(career, payload, c)
  {
    c := career;
    for k := 0 to |CareerFields|
      invariant c == SetFields(career, payload, CareerFields[..k])
    {
      var key := CareerFields[k];
      assert CareerFields[..k + 1][..k] == CareerFields[..k];
      if key in payload {
        c := SetCareerField(c, key, PyOr(payload[key], Null));
      }
    }
    assert CareerFields[..|CareerFields|] == CareerFields;
    SetFieldsPatches(career, payload);
  }

  /** Running the loop over all four columns gives the column-by-column update. */
  lemma SetFieldsPatches(c: Career, payload: Payload)
    ensures IsPatched(c, payload, SetFields(c, payload, CareerFields))
  {
    var k1, k2, k3 := ["name"], ["name", "description"], ["name", "description", "icon"];
    assert CareerFields[..3] == k3 && k3[..2] == k2 && k2[..1] == k1 && k1[..0] == [];
    assert SetFields(c, payload, k1[..0]) == c;
    var c1 := SetFields(c, payload, k1);
    assert k1[|k1| - 1] == "name";
    var c2 := SetFields(c, payload, k2);
    var c3 := SetFields(c, payload, k3);
    assert c1 == if "name" in payload then c.(name := PyOr(payload["name"], Null)) else c;
    assert c2 == if "description" in payload then c1.(description := PyOr(payload["description"], Null)) else c1;
    assert c3 == if "icon" in payload then c2.(icon := PyOr(payload["icon"], Null)) else c2;
  }

  lemma SameKeysSameIds(a: seq<Career>, b: seq<Career>)
    requires |a| == |b| && forall k :: 0 <= k < |a| ==> a[k].id == b[k].id
    ensures CareerIds(a) == CareerIds(b)
  {
    forall id | id in CareerIds(a) ensures id in CareerIds(b) {
      var x :| x in a && x.id == id;
      var k :| 0 <= k < |a| && a[k] == x;
      assert b[k] in b;
    }
    forall id | id in CareerIds(b) ensures id in CareerIds(a) {
      var x :| x in b && x.id == id;
      var k :| 0 <= k < |b| && b[k] == x;
      assert a[k] in a;
    }
  }

  predicate NameClash(careers: seq<Career>, i: nat, name: Value)
    requires i < |careers|
  {
    exists k :: 0 <= k < |careers| && k != i && careers[k].name == name
  }

  /** `update_career`: 404 for an unknown key; otherwise the row is updated column by
      column and returned (200). A NULL name (the payload's name was falsy) or a name
      another career has breaks a constraint at commit: a 500 with nothing changed. */
  method UpdateCareer(store: Store, id: int, payload: Payload) returns (r: Reply<CareerDict>)
    requires store.Valid()
    modifies store`careers
    ensures store.Valid()
    ensures FindCareer(old(store.careers), id).None? ==> r == NotFound && store.careers == old(store.careers)
    ensures FindCareer(old(store.careers), id).Some? ==>
      var i := FindCareer(old(store.careers), id).value;
      var old_c := old(store.careers)[i];
      && (r.ServerError? || r.Ok?)
      && (r.ServerError? ==> store.careers == old(store.careers))
      && (r.ServerError? <==> exists c :: IsPatched(old_c, payload, c) && (c.name == Null || NameClash(old(store.careers), i, c.name)))
      && (r.Ok? ==> exists c :: IsPatched(old_c, payload, c) && store.careers == old(store.careers)[i := c]
                               && r == Ok(CareerToDict(c, false, None, store.steps, store.progress)))
  {
    var found := FindCareer(store.careers, id);
    if found.None? {
      return NotFound;
    }
    var i := found.value;
    var c := PatchCareer(store.careers[i], payload);
    if c.name == Null || NameClash(store.careers, i, c.name) {
      return ServerError;
    }
    assert CareerIds(store.careers[i := c]) == CareerIds(store.careers) by {
      SameKeysSameIds(store.careers, store.careers[i := c]);
    }
    store.careers := store.careers[i := c];
    r := Ok(CareerToDict(c, false, None, store.steps, store.progress));
  }

  // ---------------------------------------------------------------- delete_career

  /** The steps left after `CareerSteps.query.filter_by(career_id=...).delete()`. */
  function StepsNotOf(steps: seq<Step>, careerId: int): (r: seq<Step>)
    ensures forall s :: s in r <==> s in steps && s.careerId != careerId
  {
    if steps == [] then []
    else
      var last := steps[|steps| - 1];
      StepsNotOf(steps[..|steps| - 1], careerId) + (if last.careerId != careerId then [last] else [])
  }

  /** Dropping steps keeps the ids ascending and the per-career names unique. */
  lemma StepsNotOfValid(steps: seq<Step>, careerId: int)
    requires StepIdsAscending(steps) && StepNamesUnique(steps)
    ensures StepIdsAscending(StepsNotOf(steps, careerId)) && StepNamesUnique(StepsNotOf(steps, careerId))
  {
    StepsNotOfAscending(steps, careerId);
    StepsNotOfNamesUnique(steps, careerId);
  }

  lemma {:induction false} StepsNotOfAscending(steps: seq<Step>, careerId: int)
    requires StepIdsAscending(steps)
    ensures StepIdsAscending(StepsNotOf(steps, careerId))
  {
    if steps != [] {
      var init := steps[..|steps| - 1];
      var last := steps[|steps| - 1];
      StepsNotOfAscending(init, careerId);
      forall x | x in StepsNotOf(init, careerId) ensures x.id < last.id {
        var k :| 0 <= k < |init| && init[k] == x;
      }
    }
  }

  lemma {:induction false} StepsNotOfNamesUnique(steps: seq<Step>, careerId: int)
    requires StepNamesUnique(steps)
    ensures StepNamesUnique(StepsNotOf(steps, careerId))
  {
    if steps != [] {
      var init := steps[..|steps| - 1];
      var last := steps[|steps| - 1];
      assert StepNamesUnique(init);
      StepsNotOfNamesUnique(init, careerId);
      forall x | x in StepsNotOf(init, careerId) && x.careerId == last.careerId ensures x.name != last.name {
        var k :| 0 <= k < |init| && init[k] == x;
        assert steps[k] == x;
      }
    }
  }

  /** The progress rows that survive the deletion of a career and of the given steps
      (both foreign keys of a progress row cascade on delete). */
  function ProgressWithout(progress: map<(int, int), Progress>, careerId: int, stepIds: set<int>): map<(int, int), Progress>
  {
    map k | k in progress && progress[k].careerId != careerId && k.1 !in stepIds :: progress[k]
  }

  /** The ids of a career's steps. */
  function StepIdsOf(steps: seq<Step>, careerId: int): set<int>
  {
    set s | s in steps && s.careerId == careerId :: s.id
  }

  /** `delete_career`: 404 for an unknown key; otherwise the career, its steps and
      every progress row of the career or of those steps are gone, everything else
      stays, and the reply carries the deleted key. */
  method DeleteCareer(store: Store, id: int) returns (r: Reply<int>)
    requires store.Valid()
    modifies store`careers, store`steps, store`progress
    ensures store.Valid()
    ensures id !in CareerIds(old(store.careers)) ==>
      && r == NotFound
      && store.careers == old(store.careers) && store.steps == old(store.steps) && store.progress == old(store.progress)
    ensures id in CareerIds(old(store.careers)) ==>
      && r == Ok(id)
      && (forall c :: c in store.careers <==> c in old(store.careers) && c.id != id)
      && |store.careers| == |old(store.careers)| - 1
      && store.steps == StepsNotOf(old(store.steps), id)
      && store.progress == ProgressWithout(old(store.progress), id, StepIdsOf(old(store.steps), id))
  {
    var found := FindCareer(store.careers, id);
    if found.None? {
      return NotFound;
    }
    var i := found.value;
    var gone := StepIdsOf(store.steps, id);
    var kept := StepsNotOf(store.steps, id);
    StepsNotOfValid(store.steps, id);
    var rest := store.careers[..i] + store.careers[i + 1..];
    RemoveCareerAt(store.careers, i);
    forall s | s in kept ensures s.careerId in CareerIds(rest) {
      var k :| 0 <= k < |store.careers| && store.careers[k].id == s.careerId;
      assert k != i;
      assert store.careers[k] in rest;
    }
    store.steps := kept;
    store.progress := ProgressWithout(store.progress, id, gone);
    store.careers := rest;
    r := Ok(id);
  }

  /** Removing the row at position i keeps the others, in order, and nothing else. */
  lemma RemoveCareerAt(careers: seq<Career>, i: nat)
    requires i < |careers| && CareerIdsAscending(careers) && CareerNamesUnique(careers)
    ensures var rest := careers[..i] + careers[i + 1..];
      && CareerIdsAscending(rest) && CareerNamesUnique(rest)
      && (forall c :: c in rest <==> c in careers && c.id != careers[i].id)
  {
    var rest := careers[..i] + careers[i + 1..];
    assert forall k :: 0 <= k < |rest| ==> rest[k] == careers[if k < i then k else k + 1];
    forall c | c in careers && c.id != careers[i].id ensures c in rest {
      var k :| 0 <= k < |careers| && careers[k] == c;
      assert rest[if k < i then k else k - 1] == c;
    }
  }

  // ---------------------------------------------------------------- create_step

  /** `int(payload.get("required_solves", 1))`: absent means 1; a value `int` rejects
      (null, a non-numeric string) raises, which Flask turns into a 500. */
  function RequiredSolves(payload: Payload): (n: Option<int>)
    ensures "required_solves" !in payload ==> n == Some(1)
  {
    if "required_solves" in payload then PyInt(payload["required_solves"]) else Some(1)
  }

  /** `int()` reads underscore-grouped numerals, so `"1_000"` asks for 1000 solves. */
  lemma RequiredSolvesGrouped()
    ensures RequiredSolves(map["required_solves" := Str("1_000")]) == Some(1000)
  {
    var payload: Payload := map["required_solves" := Str("1_000")];
    assert "required_solves" in payload && payload["required_solves"] == Str("1_000");
    PyIntUnspaced("1_000");
    PyParseIntGroups();
  }

  /** `create_step`: a missing or falsy `career_id` or `name` is a 400 with the
      validation message; a `career_id` naming no career is a 404; an unconvertible
      `required_solves` a 500; a name the career already has the 400 "Step already
      exists for this career"; otherwise the step is appended under the next key and
      returned (201). Nothing changes on any error. */
  method CreateStep(store: Store, payload: Payload) returns (r: Reply<StepDict>)
    requires store.Valid()
    modifies store`steps
    ensures store.Valid()
    ensures !r.Created? ==> store.steps == old(store.steps)
    ensures ValidateRequiredFields(payload, ["career_id", "name"]).Some? ==>
      r == BadRequest(ValidateRequiredFields(payload, ["career_id", "name"]).value)
    ensures ValidateRequiredFields(payload, ["career_id", "name"]).None? ==>
      var key := PyInt(Get(payload, "career_id"));
      if key.None? || key.value !in CareerIds(store.careers) then r == NotFound
      else if RequiredSolves(payload).None? then r == ServerError
      else if StepNameTaken(old(store.steps), key.value, Get(payload, "name")) then r == BadRequest("Step already exists for this career")
      else
        var s := Step(NextStepId(old(store.steps)), key.value, Get(payload, "name"), Get(payload, "description"),
                      Get(payload, "category"), RequiredSolves(payload).value);
        && store.steps == old(store.steps) + [s]
        && r == Created(StepToDict(s, None, store.progress))
  {
    var invalid := ValidateRequiredFields(payload, ["career_id", "name"]);
    if invalid.Some? {
      return BadRequest(invalid.value);
    }
    assert "career_id" in ["career_id", "name"] && "name" in ["career_id", "name"];
    var key := PyInt(payload["career_id"]);
    if key.None? || FindCareer(store.careers, key.value).None? {
      return NotFound;
    }
    var careerId := key.value;
    var required := RequiredSolves(payload);
    if required.None? {
      return ServerError;
    }
    var name := payload["name"];
    if StepNameTaken(store.steps, careerId, name) {
      return BadRequest("Step already exists for this career");
    }
    var s := Step(NextStepId(store.steps), careerId, name, Get(payload, "description"),
                  Get(payload, "category"), required.value);
    AppendStepValid(store.careers, store.steps, s);
    store.steps := store.steps + [s];
    r := Created(StepToDict(s, None, store.progress));
  }

  /** A step under the next key, of an existing career, with a name unused in that
      career keeps the tables valid. */
  lemma AppendStepValid(careers: seq<Career>, steps: seq<Step>, s: Step)
    requires TablesValid(careers, steps)
    requires s.id == NextStepId(steps) && s.careerId in CareerIds(careers)
    requires !StepNameTaken(steps, s.careerId, s.name)
    ensures TablesValid(careers, steps + [s])
  {
    var r := steps + [s];
    forall i, j | 0 <= i < j < |r| ensures r[i].id < r[j].id {
      if j == |steps| { assert r[i] in steps; }
    }
    forall i, j | 0 <= i < j < |r| && r[i].careerId == r[j].careerId ensures r[i].name != r[j].name {
      if j == |steps| { assert r[i] in steps; }
    }
  }

  // ---------------------------------------------------------------- list_steps

  function StepDictsOf(ss: seq<Step>, user: int, progress: map<(int, int), Progress>): (ds: seq<StepDict>)
    ensures |ds| == |ss|
    ensures forall j :: 0 <= j < |ss| ==> ds[j] == StepToDict(ss[j], Some(user), progress)
  {
    seq(|ss|, j requires 0 <= j < |ss| => StepToDict(ss[j], Some(user), progress))
  }

  /** `list_steps`: the progress of the signed-in user is recomputed first (a 404 if
      the user row is gone), then an unknown career is a 404; otherwise each of the
      career's steps, with `completed` exactly when the completion rule holds for the
      user's solves. */
  method ListSteps(store: Store, user: int, careerId: int, rows: seq<SolveRow>, src: ModuleSource)
    returns (r: Reply<seq<StepDict>>)
    requires store.Valid()
    modifies store`progress
    ensures store.Valid()
    ensures r.Ok? || r == NotFound
    ensures user !in store.users ==> r == NotFound && store.progress == old(store.progress)
    ensures user in store.users ==>
      store.progress == UpsertAll(old(store.progress), user, StepsInCareerOrder(store.careers, store.steps), CollectSolves(rows, src))
    ensures user in store.users && careerId !in CareerIds(store.careers) ==> r == NotFound
    ensures user in store.users && careerId in CareerIds(store.careers) ==>
      var own := StepsOf(store.steps, careerId);
      && r == Ok(StepDictsOf(own, user, store.progress))
      && forall j :: 0 <= j < |own| ==>
           r.data[j].completed == Some(Completed(own[j].category, own[j].requiredSolves, CollectSolves(rows, src)))
  {
    var entry := EnsureUserEntry(store, user, rows, src);
    if entry.NoSuchUser? {
      return NotFound;
    }
    if FindCareer(store.careers, careerId).None? {
      return NotFound;
    }
    var own := StepsOf(store.steps, careerId);
    OwnStepsCompleted(old(store.progress), user, store.careers, store.steps, CollectSolves(rows, src), careerId);
    r := Ok(StepDictsOf(own, user, store.progress));
  }

  /** After `update_progress`, each step of a career has a row for the user holding the
      step's completion. */
  lemma OwnStepsCompleted(p: map<(int, int), Progress>, user: int, careers: seq<Career>, steps: seq<Step>,
                          counts: Counts, careerId: int)
    requires TablesValid(careers, steps)
    ensures var q, own := UpsertAll(p, user, StepsInCareerOrder(careers, steps), counts), StepsOf(steps, careerId);
      forall j :: 0 <= j < |own| ==>
        (user, own[j].id) in q && q[(user, own[j].id)].completed == Completed(own[j].category, own[j].requiredSolves, counts)
  {
    UpdatedProgressRows(p, user, careers, steps, counts);
    var own := StepsOf(steps, careerId);
    forall j | 0 <= j < |own| ensures own[j] in steps && own[j].id in StepIds(steps) { }
  }
}

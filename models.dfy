/**
 * The plugin's tables and the progress engine: careers, their steps and one
 * progress row per (user, step), and `update_progress`, which recounts a
 * user's solves and upserts the completion of every step.
 */
module Models {
  import opened Wrappers
  import opened Json
  import opened SolveCounts

  /** A row of `careers`; text columns hold the JSON value they were given. */
  datatype Career = Career(id: int, name: Value, description: Value, icon: Value, color: Value)

  /** A row of `career_steps`. */
  datatype Step = Step(id: int, careerId: int, name: Value, description: Value, category: Value, requiredSolves: int)

  /** A row of `career_user_progress`, stored under its unique key (user_id, step_id). */
  datatype Progress = Progress(careerId: int, completed: bool)

  /** One entry of the snapshot `update_progress` returns. */
  datatype StepProgress = StepProgress(stepId: int, completed: bool, requiredSolves: int, solved: nat)
  datatype CareerProgress = CareerProgress(careerId: int, steps: seq<StepProgress>)
  datatype Snapshot = Snapshot(user: Option<int>, careers: seq<CareerProgress>)

  // ---------------------------------------------------------------- table shape

  function CareerIds(careers: seq<Career>): set<int>
  {
    set c | c in careers :: c.id
  }

  function StepIds(steps: seq<Step>): set<int>
  {
    set s | s in steps :: s.id
  }

  /** Primary keys in ascending order (rows are appended with the next key). */
  predicate CareerIdsAscending(careers: seq<Career>)
  {
    forall i, j :: 0 <= i < j < |careers| ==> careers[i].id < careers[j].id
  }

  predicate StepIdsAscending(steps: seq<Step>)
  {
    forall i, j :: 0 <= i < j < |steps| ==> steps[i].id < steps[j].id
  }

  /** `careers.name` is unique. */
  predicate CareerNamesUnique(careers: seq<Career>)
  {
    forall i, j :: 0 <= i < j < |careers| ==> careers[i].name != careers[j].name
  }

  /** `uq_career_step_name`: (career_id, name) is unique. */
  predicate StepNamesUnique(steps: seq<Step>)
  {
    forall i, j :: 0 <= i < j < |steps| && steps[i].careerId == steps[j].careerId ==> steps[i].name != steps[j].name
  }

  /** The foreign key from a step to its career. */
  predicate StepsReferenceCareers(steps: seq<Step>, careers: seq<Career>)
  {
    forall s :: s in steps ==> s.careerId in CareerIds(careers)
  }

  predicate TablesValid(careers: seq<Career>, steps: seq<Step>)
  {
    && CareerIdsAscending(careers) && CareerNamesUnique(careers)
    && StepIdsAscending(steps) && StepNamesUnique(steps)
    && StepsReferenceCareers(steps, careers)
  }

  /** Within a list of steps an id names one step. */
  predicate IdsDetermineSteps(ss: seq<Step>)
  {
    forall i, j :: 0 <= i < |ss| && 0 <= j < |ss| && ss[i].id == ss[j].id ==> ss[i] == ss[j]
  }

  /** `career.steps`: the steps of a career, in table order. */
  function StepsOf(steps: seq<Step>, careerId: int): (r: seq<Step>)
    ensures forall s :: s in r <==> s in steps && s.careerId == careerId
  {
    if steps == [] then []
    else
      var last := steps[|steps| - 1];
      StepsOf(steps[..|steps| - 1], careerId) + (if last.careerId == careerId then [last] else [])
  }

  lemma {:induction false} StepsOfAscending(steps: seq<Step>, careerId: int)
    requires StepIdsAscending(steps)
    ensures StepIdsAscending(StepsOf(steps, careerId))
  {
    if steps != [] {
      var init := steps[..|steps| - 1];
      var last := steps[|steps| - 1];
      StepsOfAscending(init, careerId);
      var r0 := StepsOf(init, careerId);
      forall x | x in r0 ensures x.id < last.id {
        var k :| 0 <= k < |init| && init[k] == x;
      }
    }
  }

  /** Every step of every career, career by career (the order `update_progress` visits them). */
  function StepsInCareerOrder(careers: seq<Career>, steps: seq<Step>): seq<Step>
  {
    if careers == [] then []
    else StepsInCareerOrder(careers[..|careers| - 1], steps) + StepsOf(steps, careers[|careers| - 1].id)
  }

  /** Career by career, every step is visited, and nothing but steps. */
  lemma {:induction false} StepsInCareerOrderCovers(careers: seq<Career>, steps: seq<Step>)
    ensures forall s :: s in StepsInCareerOrder(careers, steps) <==> s in steps && s.careerId in CareerIds(careers)
  {
    if careers != [] {
      var init := careers[..|careers| - 1];
      StepsInCareerOrderCovers(init, steps);
      assert CareerIds(careers) == CareerIds(init) + {careers[|careers| - 1].id} by {
        assert careers == init + [careers[|careers| - 1]];
      }
    }
  }

  lemma AscendingIdsDetermine(steps: seq<Step>, ss: seq<Step>)
    requires StepIdsAscending(steps)
    requires forall s :: s in ss ==> s in steps
    ensures IdsDetermineSteps(ss)
  {
    forall i, j | 0 <= i < |ss| && 0 <= j < |ss| && ss[i].id == ss[j].id ensures ss[i] == ss[j] {
      assert ss[i] in steps && ss[j] in steps;
      var a :| 0 <= a < |steps| && steps[a] == ss[i];
      var b :| 0 <= b < |steps| && steps[b] == ss[j];
      assert a == b;
    }
  }

  // ---------------------------------------------------------------- upsert

  /** Write a step's completion into the user's row for it, creating the row when absent;
      an existing row keeps its career id. */
  function Upsert(p: map<(int, int), Progress>, user: int, step: Step, completed: bool): map<(int, int), Progress>
  {
    var key := (user, step.id);
    if key in p then p[key := p[key].(completed := completed)]
    else p[key := Progress(step.careerId, completed)]
  }

  /** Upsert every listed step in order, each with its freshly computed completion. */
  function UpsertAll(p: map<(int, int), Progress>, user: int, ss: seq<Step>, counts: Counts): map<(int, int), Progress>
  {
    if ss == [] then p
    else
      var s := ss[|ss| - 1];
      Upsert(UpsertAll(p, user, ss[..|ss| - 1], counts), user, s, Completed(s.category, s.requiredSolves, counts))
  }

  lemma {:induction false} UpsertAllAppend(p: map<(int, int), Progress>, user: int, a: seq<Step>, b: seq<Step>, counts: Counts)
    ensures UpsertAll(p, user, a + b, counts) == UpsertAll(UpsertAll(p, user, a, counts), user, b, counts)
  {
    if b != [] {
      var n, x := b[..|b| - 1], b[|b| - 1];
      assert (a + b)[..|a + b| - 1] == a + n;
      assert (a + b)[|a + b| - 1] == x;
      UpsertAllAppend(p, user, a, n, counts);
      calc {
        UpsertAll(p, user, a + b, counts);
        Upsert(UpsertAll(p, user, a + n, counts), user, x, Completed(x.category, x.requiredSolves, counts));
        Upsert(UpsertAll(UpsertAll(p, user, a, counts), user, n, counts), user, x, Completed(x.category, x.requiredSolves, counts));
        UpsertAll(UpsertAll(p, user, a, counts), user, b, counts);
      }
    } else {
      assert a + b == a;
    }
  }

  /** After upserting a list of steps: the user has a row for each listed step and
      for nothing else new; each such row holds that step's computed completion and
      keeps the career id of a row that already existed; every other row is untouched. */
  lemma UpsertAllSpec(p: map<(int, int), Progress>, user: int, ss: seq<Step>, counts: Counts)
    requires IdsDetermineSteps(ss)
    ensures var r := UpsertAll(p, user, ss, counts);
      && (forall k :: k in r <==> k in p || (k.0 == user && k.1 in StepIds(ss)))
      && (forall s :: s in ss ==>
            && r[(user, s.id)].completed == Completed(s.category, s.requiredSolves, counts)
            && r[(user, s.id)].careerId == (if (user, s.id) in p then p[(user, s.id)].careerId else s.careerId))
      && (forall k :: k in p && !(k.0 == user && k.1 in StepIds(ss)) ==> r[k] == p[k])
  {
    UpsertAllKeys(p, user, ss, counts);
    UpsertAllOthers(p, user, ss, counts);
    forall s | s in ss
      ensures var r := UpsertAll(p, user, ss, counts);
        && r[(user, s.id)].completed == Completed(s.category, s.requiredSolves, counts)
        && r[(user, s.id)].careerId == (if (user, s.id) in p then p[(user, s.id)].careerId else s.careerId)
    {
      UpsertAllRow(p, user, ss, counts, s);
    }
  }

  lemma {:induction false} UpsertAllKeys(p: map<(int, int), Progress>, user: int, ss: seq<Step>, counts: Counts)
    ensures forall k :: k in UpsertAll(p, user, ss, counts) <==> k in p || (k.0 == user && k.1 in StepIds(ss))
  {
    if ss != [] {
      var init, last := ss[..|ss| - 1], ss[|ss| - 1];
      UpsertAllKeys(p, user, init, counts);
      assert StepIds(ss) == StepIds(init) + {last.id} by {
        assert ss == init + [last];
      }
    }
  }

  lemma {:induction false} UpsertAllOthers(p: map<(int, int), Progress>, user: int, ss: seq<Step>, counts: Counts)
    ensures forall k :: k in p && !(k.0 == user && k.1 in StepIds(ss)) ==>
      k in UpsertAll(p, user, ss, counts) && UpsertAll(p, user, ss, counts)[k] == p[k]
  {
    if ss != [] {
      var init, last := ss[..|ss| - 1], ss[|ss| - 1];
      UpsertAllOthers(p, user, init, counts);
      assert StepIds(ss) == StepIds(init) + {last.id} by {
        assert ss == init + [last];
      }
    }
  }

  lemma {:induction false} UpsertAllRow(p: map<(int, int), Progress>, user: int, ss: seq<Step>, counts: Counts, s: Step)
    requires IdsDetermineSteps(ss) && s in ss
    ensures var r := UpsertAll(p, user, ss, counts);
      && (user, s.id) in r
      && r[(user, s.id)].completed == Completed(s.category, s.requiredSolves, counts)
      && r[(user, s.id)].careerId == (if (user, s.id) in p then p[(user, s.id)].careerId else s.careerId)
  {
    var init, last := ss[..|ss| - 1], ss[|ss| - 1];
    var prev := UpsertAll(p, user, init, counts);
    assert IdsDetermineSteps(init);
    assert ss == init + [last];
    if s.id == last.id {
      assert s == last;
      UpsertAllKeys(p, user, init, counts);
      if last.id in StepIds(init) {
        var s' :| s' in init && s'.id == last.id;
        assert s' == last;
        UpsertAllRow(p, user, init, counts, s');
      } else if (user, s.id) in p {
        UpsertAllOthers(p, user, init, counts);
      }
    } else {
      assert s in init;
      UpsertAllRow(p, user, init, counts, s);
    }
  }

  // ---------------------------------------------------------------- snapshot

  function StepSnapshot(s: Step, counts: Counts): StepProgress
  {
    StepProgress(s.id, Completed(s.category, s.requiredSolves, counts), s.requiredSolves, Solved(s.category, counts))
  }

  function StepSnapshots(ss: seq<Step>, counts: Counts): seq<StepProgress>
  {
    if ss == [] then [] else StepSnapshots(ss[..|ss| - 1], counts) + [StepSnapshot(ss[|ss| - 1], counts)]
  }

  function CareerSnapshots(careers: seq<Career>, steps: seq<Step>, counts: Counts): seq<CareerProgress>
  {
    if careers == [] then []
    else
      var c := careers[|careers| - 1];
      CareerSnapshots(careers[..|careers| - 1], steps, counts) + [CareerProgress(c.id, StepSnapshots(StepsOf(steps, c.id), counts))]
  }

  lemma {:induction false} StepSnapshotsAt(ss: seq<Step>, counts: Counts)
    ensures |StepSnapshots(ss, counts)| == |ss|
    ensures forall i :: 0 <= i < |ss| ==> StepSnapshots(ss, counts)[i] == StepSnapshot(ss[i], counts)
  {
    if ss != [] {
      StepSnapshotsAt(ss[..|ss| - 1], counts);
    }
  }

  /** The snapshot has one entry per career, in table order, and within it one entry
      per step of that career, each with the step's credited solves and completion. */
  lemma CareerSnapshotsSpec(careers: seq<Career>, steps: seq<Step>, counts: Counts)
    ensures |CareerSnapshots(careers, steps, counts)| == |careers|
    ensures forall i :: 0 <= i < |careers| ==>
      var cp, ss := CareerSnapshots(careers, steps, counts)[i], StepsOf(steps, careers[i].id);
      && cp.careerId == careers[i].id
      && |cp.steps| == |ss|
      && forall j :: 0 <= j < |ss| ==>
           cp.steps[j] == StepProgress(ss[j].id, Completed(ss[j].category, ss[j].requiredSolves, counts),
                                       ss[j].requiredSolves, Solved(ss[j].category, counts))
  {
    CareerSnapshotsLength(careers, steps, counts);
    forall i | 0 <= i < |careers|
      ensures var cp, ss := CareerSnapshots(careers, steps, counts)[i], StepsOf(steps, careers[i].id);
        && cp.careerId == careers[i].id
        && |cp.steps| == |ss|
        && forall j :: 0 <= j < |ss| ==>
             cp.steps[j] == StepProgress(ss[j].id, Completed(ss[j].category, ss[j].requiredSolves, counts),
                                         ss[j].requiredSolves, Solved(ss[j].category, counts))
    {
      CareerSnapshotAt(careers, steps, counts, i);
      StepSnapshotsAt(StepsOf(steps, careers[i].id), counts);
    }
  }

  lemma {:induction false} CareerSnapshotsLength(careers: seq<Career>, steps: seq<Step>, counts: Counts)
    ensures |CareerSnapshots(careers, steps, counts)| == |careers|
  {
    if careers != [] {
      CareerSnapshotsLength(careers[..|careers| - 1], steps, counts);
    }
  }

  lemma {:induction false} CareerSnapshotAt(careers: seq<Career>, steps: seq<Step>, counts: Counts, i: nat)
    requires i < |careers|
    ensures |CareerSnapshots(careers, steps, counts)| == |careers|
    ensures CareerSnapshots(careers, steps, counts)[i]
         == CareerProgress(careers[i].id, StepSnapshots(StepsOf(steps, careers[i].id), counts))
  {
    var init := careers[..|careers| - 1];
    CareerSnapshotsLength(careers, steps, counts);
    CareerSnapshotsLength(init, steps, counts);
    if i < |init| {
      CareerSnapshotAt(init, steps, counts, i);
      assert init[i] == careers[i];
    }
  }

  /** What `update_progress` leaves in the progress table for a known user: a row for
      every step, holding the step's completion; existing rows keep their career; no
      other user's row and no row of an unknown step changes. */
  lemma UpdatedProgressRows(p: map<(int, int), Progress>, user: int, careers: seq<Career>, steps: seq<Step>, counts: Counts)
    requires TablesValid(careers, steps)
    ensures var r := UpsertAll(p, user, StepsInCareerOrder(careers, steps), counts);
      && (forall k :: k in r <==> k in p || (k.0 == user && k.1 in StepIds(steps)))
      && (forall s :: s in steps ==>
            && r[(user, s.id)].completed == Completed(s.category, s.requiredSolves, counts)
            && r[(user, s.id)].careerId == (if (user, s.id) in p then p[(user, s.id)].careerId else s.careerId))
      && (forall k :: k in p && (k.0 != user || k.1 !in StepIds(steps)) ==> r[k] == p[k])
  {
    var ss := StepsInCareerOrder(careers, steps);
    StepsInCareerOrderCovers(careers, steps);
    AscendingIdsDetermine(steps, ss);
    UpsertAllSpec(p, user, ss, counts);
    assert StepIds(ss) == StepIds(steps);
  }

  // ---------------------------------------------------------------- to_dict

  predicate SortedById(ss: seq<Step>)
  {
    forall i, j :: 0 <= i < j < |ss| ==> ss[i].id <= ss[j].id
  }

  function InsertById(s: Step, ss: seq<Step>): (r: seq<Step>)
    requires SortedById(ss)
    ensures |r| == |ss| + 1
    ensures multiset(r) == multiset(ss) + multiset{s}
    ensures SortedById(r)
  {
    if ss == [] || s.id <= ss[0].id then
      [s] + ss
    else
      var rest := InsertById(s, ss[1..]);
      InsertByIdHead(ss[0], s, ss[1..], rest);
      assert ss == [ss[0]] + ss[1..];
      [ss[0]] + rest
  }

  /** A head no larger than every element of the tail and than the inserted step
      stays sorted in front of the insertion. */
  lemma InsertByIdHead(h: Step, s: Step, tail: seq<Step>, rest: seq<Step>)
    requires h.id <= s.id
    requires forall x :: x in tail ==> h.id <= x.id
    requires SortedById(rest) && multiset(rest) == multiset(tail) + multiset{s}
    ensures SortedById([h] + rest)
  {
    forall x | x in rest ensures h.id <= x.id {
      assert x in multiset(rest);
    }
  }

  /** `sorted(steps, key=lambda s: s.id)`. */
  function SortById(ss: seq<Step>): (r: seq<Step>)
    ensures |r| == |ss|
    ensures multiset(r) == multiset(ss)
    ensures SortedById(r)
  {
    if ss == [] then []
    else
      assert ss == [ss[0]] + ss[1..];
      InsertById(ss[0], SortById(ss[1..]))
  }

  lemma {:induction false} SortByIdOfAscending(ss: seq<Step>)
    requires StepIdsAscending(ss)
    ensures SortById(ss) == ss
  {
    if ss != [] {
      SortByIdOfAscending(ss[1..]);
    }
  }

  /** `CareerSteps.to_dict`: `completed` only when a user is given, False without a row. */
  datatype StepDict = StepDict(id: int, careerId: int, name: Value, description: Value, category: Value,
                               requiredSolves: int, completed: Option<bool>)

  datatype CareerDict = CareerDict(id: int, name: Value, description: Value, icon: Value, color: Value,
                                   steps: Option<seq<StepDict>>)

  function StepToDict(s: Step, user: Option<int>, progress: map<(int, int), Progress>): StepDict
  {
    StepDict(s.id, s.careerId, s.name, s.description, s.category, s.requiredSolves,
             match user
             case None => None
             case Some(u) => Some((u, s.id) in progress && progress[(u, s.id)].completed))
  }

  function CareerToDict(c: Career, includeSteps: bool, user: Option<int>,
                        steps: seq<Step>, progress: map<(int, int), Progress>): CareerDict
  {
    var sorted := SortById(StepsOf(steps, c.id));
    CareerDict(c.id, c.name, c.description, c.icon, c.color,
               if includeSteps then Some(seq(|sorted|, i requires 0 <= i < |sorted| => StepToDict(sorted[i], user, progress)))
               else None)
  }

  /** With steps included, a career's dict lists exactly its steps, in ascending id,
      and for a given user each step reads completed only when the user's row says so. */
  lemma CareerToDictSteps(c: Career, user: Option<int>, steps: seq<Step>, progress: map<(int, int), Progress>)
    ensures var d := CareerToDict(c, true, user, steps, progress);
      && d.steps.Some?
      && |d.steps.value| == |StepsOf(steps, c.id)|
      && multiset(SortById(StepsOf(steps, c.id))) == multiset(StepsOf(steps, c.id))
      && (forall i :: 0 <= i < |d.steps.value| ==>
            d.steps.value[i] == StepToDict(SortById(StepsOf(steps, c.id))[i], user, progress))
      && (forall i, j :: 0 <= i < j < |d.steps.value| ==> d.steps.value[i].id <= d.steps.value[j].id)
      && (forall i :: 0 <= i < |d.steps.value| ==> d.steps.value[i].careerId == c.id)
      && (forall i :: 0 <= i < |d.steps.value| && user.Some? ==>
            d.steps.value[i].completed == Some((user.value, d.steps.value[i].id) in progress
                                                && progress[(user.value, d.steps.value[i].id)].completed))
  {
    var own := StepsOf(steps, c.id);
    var sorted := SortById(own);
    var ds := CareerToDict(c, true, user, steps, progress).steps.value;
    assert |ds| == |sorted|;
    forall i | 0 <= i < |ds| ensures ds[i] == StepToDict(sorted[i], user, progress) { }
    SortedOwnSteps(steps, c.id);
  }

  /** Sorting a career's steps keeps them the career's. */
  lemma SortedOwnSteps(steps: seq<Step>, careerId: int)
    ensures forall s :: s in SortById(StepsOf(steps, careerId)) ==> s.careerId == careerId
  {
    var own := StepsOf(steps, careerId);
    forall s | s in SortById(own) ensures s.careerId == careerId {
      assert s in multiset(SortById(own));
      assert s in own;
    }
  }

  /** Without `include_steps` there is no steps entry, and without a user no `completed`. */
  lemma ToDictDefaults(c: Career, s: Step, steps: seq<Step>, progress: map<(int, int), Progress>)
    ensures CareerToDict(c, false, None, steps, progress).steps == None
    ensures StepToDict(s, None, progress).completed == None
  {
  }

  // ---------------------------------------------------------------- the store

  /** The database as the plugin sees it: the users table (ids only) and its own three tables. */
  class Store {
    var users: set<int>
    var careers: seq<Career>
    var steps: seq<Step>
    var progress: map<(int, int), Progress>

    ghost predicate Valid()
      reads this
    {
      TablesValid(careers, steps)
    }

    constructor (users: set<int>)
      ensures Valid()
      ensures this.users == users && careers == [] && steps == [] && progress == map[]
    {
      this.users := users;
      careers, steps, progress := [], [], map[];
    }

    /** `update_progress(user_id)`: for an unknown user nothing; otherwise every step
        of every career is re-evaluated against the user's counted solves and its
        progress row upserted, and the snapshot of what was computed is returned. */
    method UpdateProgress(user: int, rows: seq<SolveRow>, src: ModuleSource) returns (snap: Snapshot)
      requires Valid()
      modifies this`progress
      ensures Valid()
      ensures user !in users ==> snap == Snapshot(None, []) && progress == old(progress)
      ensures user in users ==>
        var counts := CollectSolves(rows, src);
        && snap == Snapshot(Some(user), CareerSnapshots(careers, steps, counts))
        && progress == UpsertAll(old(progress), user, StepsInCareerOrder(careers, steps), counts)
    {
      if user !in users {
        return Snapshot(None, []);
      }
      var counts := CollectUserSolves(rows, src);
      var careersProgress := RecordProgress(user, counts);
      snap := Snapshot(Some(user), careersProgress);
    }

    /** The loops of `update_progress` once the solves are counted. */
    method RecordProgress(user: int, counts: Counts) returns (snapshot: seq<CareerProgress>)
      modifies this`progress
      ensures snapshot == CareerSnapshots(careers, steps, counts)
      ensures progress == UpsertAll(old(progress), user, StepsInCareerOrder(careers, steps), counts)
    {
      snapshot := [];
      var i := 0;
      while i < |careers|
        invariant 0 <= i <= |careers|
        invariant snapshot == CareerSnapshots(careers[..i], steps, counts)
        invariant progress == UpsertAll(old(progress), user, StepsInCareerOrder(careers[..i], steps), counts)
      {
        var career := careers[i];
        var careerSteps := StepsOf(steps, career.id);
        var entries := UpsertCareerSteps(user, career.id, careerSteps, counts);
        assert careers[..i + 1][..i] == careers[..i];
        UpsertAllAppend(old(progress), user, StepsInCareerOrder(careers[..i], steps), careerSteps, counts);
        snapshot := snapshot + [CareerProgress(career.id, entries)];
        i := i + 1;
      }
      assert careers[..i] == careers;
    }

    /** The inner loop of `update_progress` over one career's steps. */
    method UpsertCareerSteps(user: int, careerId: int, careerSteps: seq<Step>, counts: Counts)
      returns (entries: seq<StepProgress>)
      requires forall s :: s in careerSteps ==> s.careerId == careerId
      modifies this`progress
      ensures entries == StepSnapshots(careerSteps, counts)
      ensures progress == UpsertAll(old(progress), user, careerSteps, counts)
    {
      entries := [];
      var j := 0;
      while j < |careerSteps|
        invariant 0 <= j <= |careerSteps|
        invariant entries == StepSnapshots(careerSteps[..j], counts)
        invariant progress == UpsertAll(old(progress), user, careerSteps[..j], counts)
      {
        var step := careerSteps[j];
        assert careerSteps[..j + 1][..j] == careerSteps[..j];
        var solved := Solved(step.category, counts);
        var completed := solved >= step.requiredSolves;
        var key := (user, step.id);
        if key !in progress {
          progress := progress[key := Progress(careerId, false)];
        }
        progress := progress[key := progress[key].(completed := completed)];
        entries := entries + [StepProgress(step.id, completed, step.requiredSolves, solved)];
        j := j + 1;
      }
      assert careerSteps[..j] == careerSteps;
    }
  }
}

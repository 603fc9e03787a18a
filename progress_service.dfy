/**
 * The progress service: the per-user progress payload (careers and steps in
 * ascending id with completed/total counts), the admin summary keyed by
 * career id, and the 404 guard for an unknown user.
 */
module ProgressService {
  import opened Wrappers
  import opened Json
  import opened SolveCounts
  import opened Models

  /** One step of the serialised payload. */
  datatype StepView = StepView(id: int, name: Value, description: Value, category: Value,
                               requiredSolves: int, completed: bool)

  /** One career of the serialised payload. */
  datatype CareerView = CareerView(id: int, name: Value, description: Value, icon: Value, color: Value,
                                   steps: seq<StepView>, completedSteps: nat, totalSteps: nat)

  /** A lookup that aborts with 404 when the row does not exist. */
  datatype Lookup<T> = Found(value: T) | NoSuchUser

  /** A step as the payload shows it: completed only when the user's row says so. */
  function StepViewOf(s: Step, user: int, progress: map<(int, int), Progress>): StepView
  {
    StepView(s.id, s.name, s.description, s.category, s.requiredSolves,
             (user, s.id) in progress && progress[(user, s.id)].completed)
  }

  function StepViewsOf(ss: seq<Step>, user: int, progress: map<(int, int), Progress>): seq<StepView>
  {
    if ss == [] then [] else StepViewsOf(ss[..|ss| - 1], user, progress) + [StepViewOf(ss[|ss| - 1], user, progress)]
  }

  /** `sum(1 for step in steps if step["completed"])`. */
  function CountCompleted(views: seq<StepView>): (n: nat)
    ensures n <= |views|
  {
    if views == [] then 0
    else CountCompleted(views[..|views| - 1]) + (if views[|views| - 1].completed then 1 else 0)
  }

  function CareerViewOf(c: Career, steps: seq<Step>, user: int, progress: map<(int, int), Progress>): CareerView
  {
    var views := StepViewsOf(StepsOf(steps, c.id), user, progress);
    CareerView(c.id, c.name, c.description, c.icon, c.color, views, CountCompleted(views), |views|)
  }

  function CareerViewsOf(careers: seq<Career>, steps: seq<Step>, user: int, progress: map<(int, int), Progress>): (views: seq<CareerView>)
    ensures |views| == |careers|
    ensures forall i :: 0 <= i < |careers| ==> views[i] == CareerViewOf(careers[i], steps, user, progress)
  {
    seq(|careers|, i requires 0 <= i < |careers| => CareerViewOf(careers[i], steps, user, progress))
  }

  /** The inner loop: one view per step, in order. */
  method BuildStepViews(ss: seq<Step>, user: int, progress: map<(int, int), Progress>) returns (views: seq<StepView>)
    ensures views == StepViewsOf(ss, user, progress)
  {
    views := [];
    var j := 0;
    while j < |ss|
      invariant 0 <= j <= |ss|
      invariant views == StepViewsOf(ss[..j], user, progress)
    {
      var s := ss[j];
      assert ss[..j + 1][..j] == ss[..j];
      var completed := if (user, s.id) in progress then progress[(user, s.id)].completed else false;
      views := views + [StepView(s.id, s.name, s.description, s.category, s.requiredSolves, completed)];
      j := j + 1;
    }
    assert ss[..j] == ss;
  }

  /** `serialize_progress_for_user`: recompute the user's progress, then list every
      career (ascending id) with its steps (ascending id) as the progress table now says. */
  method SerializeProgressForUser(store: Store, user: int, rows: seq<SolveRow>, src: ModuleSource)
    returns (careers: seq<CareerView>)
    requires store.Valid()
    modifies store`progress
    ensures store.Valid()
    ensures store.progress ==
      if user in store.users
      then UpsertAll(old(store.progress), user, StepsInCareerOrder(store.careers, store.steps), CollectSolves(rows, src))
      else old(store.progress)
    ensures careers == CareerViewsOf(store.careers, store.steps, user, store.progress)
  {
    var _ := store.UpdateProgress(user, rows, src);
    ghost var updated := store.progress;
    careers := [];
    var i := 0;
    while i < |store.careers|
      invariant 0 <= i <= |store.careers|
      invariant store.progress == updated
      invariant |careers| == i
      invariant forall k :: 0 <= k < i ==> careers[k] == CareerViewOf(store.careers[k], store.steps, user, store.progress)
    {
      var career := store.careers[i];
      var views := BuildStepViews(StepsOf(store.steps, career.id), user, store.progress);
      careers := careers + [CareerView(career.id, career.name, career.description, career.icon, career.color,
                                       views, CountCompleted(views), |views|)];
      i := i + 1;
    }
  }

  /** `get_authenticated_progress`: nothing for an anonymous visitor. */
  method GetAuthenticatedProgress(store: Store, current: Option<int>, rows: seq<SolveRow>, src: ModuleSource)
    returns (careers: seq<CareerView>)
    requires store.Valid()
    modifies store`progress
    ensures store.Valid()
    ensures current.None? ==> careers == [] && store.progress == old(store.progress)
    ensures current.Some? ==>
      store.progress ==
        if current.value in store.users
        then UpsertAll(old(store.progress), current.value, StepsInCareerOrder(store.careers, store.steps), CollectSolves(rows, src))
        else old(store.progress)
    ensures current.Some? ==> careers == CareerViewsOf(store.careers, store.steps, current.value, store.progress)
  {
    if current.None? {
      return [];
    }
    careers := SerializeProgressForUser(store, current.value, rows, src);
  }

  /** `ensure_user_entry`: 404 for a user that does not exist, who then leaves the
      progress table alone; otherwise the serialised progress. */
  method EnsureUserEntry(store: Store, user: int, rows: seq<SolveRow>, src: ModuleSource)
    returns (r: Lookup<seq<CareerView>>)
    requires store.Valid()
    modifies store`progress
    ensures store.Valid()
    ensures user !in store.users ==> r == NoSuchUser && store.progress == old(store.progress)
    ensures user in store.users ==>
      && r == Found(CareerViewsOf(store.careers, store.steps, user, store.progress))
      && store.progress == UpsertAll(old(store.progress), user, StepsInCareerOrder(store.careers, store.steps), CollectSolves(rows, src))
  {
    if user !in store.users {
      return NoSuchUser;
    }
    var careers := SerializeProgressForUser(store, user, rows, src);
    r := Found(careers);
  }

  // ---------------------------------------------------------------- payload properties

  lemma {:induction false} StepViewsAt(ss: seq<Step>, user: int, progress: map<(int, int), Progress>)
    ensures |StepViewsOf(ss, user, progress)| == |ss|
    ensures forall j :: 0 <= j < |ss| ==> StepViewsOf(ss, user, progress)[j] == StepViewOf(ss[j], user, progress)
  {
    if ss != [] {
      StepViewsAt(ss[..|ss| - 1], user, progress);
    }
  }

  /** The `completed` flags of a list of step entries, in order. */
  function CompletedFlags(views: seq<StepView>): (flags: seq<bool>)
    ensures |flags| == |views|
    ensures forall j :: 0 <= j < |views| ==> flags[j] == views[j].completed
  {
    seq(|views|, j requires 0 <= j < |views| => views[j].completed)
  }

  /** `completed_steps` counts exactly the completed step entries. */
  lemma {:induction false} CountCompletedSpec(views: seq<StepView>)
    ensures CountCompleted(views) == multiset(CompletedFlags(views))[true]
  {
    if views != [] {
      var init := views[..|views| - 1];
      CountCompletedSpec(init);
      assert CompletedFlags(views) == CompletedFlags(init) + [views[|views| - 1].completed];
    }
  }

  /** Each career entry lists the career's own steps, in order, each read from the
      user's progress row: a step without a row reads not completed. */
  lemma CareerViewSteps(c: Career, steps: seq<Step>, user: int, progress: map<(int, int), Progress>)
    ensures var v := CareerViewOf(c, steps, user, progress);
      var own := StepsOf(steps, c.id);
      && v.id == c.id
      && |v.steps| == |own|
      && (forall j :: 0 <= j < |own| ==> v.steps[j] == StepViewOf(own[j], user, progress))
      && (forall j :: 0 <= j < |own| && (user, own[j].id) !in progress ==> !v.steps[j].completed)
  {
    StepViewsAt(StepsOf(steps, c.id), user, progress);
  }

  /** Each career entry: `total_steps` is its number of steps and `completed_steps`
      the number of those completed, so 0 <= completed_steps <= total_steps. */
  lemma CareerViewCounts(c: Career, steps: seq<Step>, user: int, progress: map<(int, int), Progress>)
    ensures var v := CareerViewOf(c, steps, user, progress);
      && v.totalSteps == |v.steps| == |StepsOf(steps, c.id)|
      && v.completedSteps <= v.totalSteps
      && v.completedSteps == multiset(CompletedFlags(v.steps))[true]
  {
    var own := StepsOf(steps, c.id);
    var views := StepViewsOf(own, user, progress);
    StepViewsAt(own, user, progress);
    CountCompletedSpec(views);
  }

  /** Careers come in ascending id, and so do the steps within each career. */
  lemma SerializedInIdOrder(careers: seq<Career>, steps: seq<Step>, user: int, progress: map<(int, int), Progress>)
    requires TablesValid(careers, steps)
    ensures var vs := CareerViewsOf(careers, steps, user, progress);
      && (forall i, j :: 0 <= i < j < |vs| ==> vs[i].id < vs[j].id)
      && (forall i, a, b :: 0 <= i < |vs| && 0 <= a < b < |vs[i].steps| ==> vs[i].steps[a].id < vs[i].steps[b].id)
  {
    var vs := CareerViewsOf(careers, steps, user, progress);
    forall i, a, b | 0 <= i < |vs| && 0 <= a < b < |vs[i].steps|
      ensures vs[i].steps[a].id < vs[i].steps[b].id
    {
      StepViewsInIdOrder(careers[i], steps, user, progress);
    }
  }

  lemma StepViewsInIdOrder(c: Career, steps: seq<Step>, user: int, progress: map<(int, int), Progress>)
    requires StepIdsAscending(steps)
    ensures var v := CareerViewOf(c, steps, user, progress);
      forall a, b :: 0 <= a < b < |v.steps| ==> v.steps[a].id < v.steps[b].id
  {
    StepsOfAscending(steps, c.id);
    StepViewsAt(StepsOf(steps, c.id), user, progress);
  }

  /** Because progress is recomputed first, every reported step of a known user
      reads completed exactly when the completion rule holds for the user's solves. */
  lemma ReportedCompletionFollowsRule(p: map<(int, int), Progress>, user: int, careers: seq<Career>,
                                      steps: seq<Step>, counts: Counts)
    requires TablesValid(careers, steps)
    ensures var vs := CareerViewsOf(careers, steps, user, UpsertAll(p, user, StepsInCareerOrder(careers, steps), counts));
      && |vs| == |careers|
      && forall i, j :: 0 <= i < |careers| && 0 <= j < |vs[i].steps| ==>
           var own := StepsOf(steps, careers[i].id);
           j < |own| && vs[i].steps[j].completed == Completed(own[j].category, own[j].requiredSolves, counts)
  {
    var q := UpsertAll(p, user, StepsInCareerOrder(careers, steps), counts);
    UpdatedProgressRows(p, user, careers, steps, counts);
    assert forall s :: s in steps ==>
      (user, s.id) in q && q[(user, s.id)].completed == Completed(s.category, s.requiredSolves, counts)
    by {
      forall s | s in steps
        ensures (user, s.id) in q && q[(user, s.id)].completed == Completed(s.category, s.requiredSolves, counts)
      {
        assert s.id in StepIds(steps);
      }
    }
    var vs := CareerViewsOf(careers, steps, user, q);
    forall i, j | 0 <= i < |careers| && 0 <= j < |vs[i].steps|
      ensures var own := StepsOf(steps, careers[i].id);
        j < |own| && vs[i].steps[j].completed == Completed(own[j].category, own[j].requiredSolves, counts)
    {
      CareerCompletionFollowsRule(careers[i], steps, user, q, counts);
    }
  }

  lemma CareerCompletionFollowsRule(c: Career, steps: seq<Step>, user: int, q: map<(int, int), Progress>, counts: Counts)
    requires forall s :: s in steps ==>
      (user, s.id) in q && q[(user, s.id)].completed == Completed(s.category, s.requiredSolves, counts)
    ensures var own := StepsOf(steps, c.id);
      var v := CareerViewOf(c, steps, user, q);
      |v.steps| == |own| && forall j :: 0 <= j < |own| ==>
        v.steps[j].completed == Completed(own[j].category, own[j].requiredSolves, counts)
  {
    var own := StepsOf(steps, c.id);
    StepViewsAt(own, user, q);
    forall j | 0 <= j < |own| ensures own[j] in steps { }
  }

  // ---------------------------------------------------------------- admin summary

  /** One career of the admin summary. */
  datatype Summary = Summary(career: Value, completed: nat, total: nat)

  /** Completed progress rows of a career, over all users. */
  function CompletedRows(progress: map<(int, int), Progress>, careerId: int): set<(int, int)>
  {
    set k | k in progress && progress[k].careerId == careerId && progress[k].completed
  }

  function SummaryOf(c: Career, steps: seq<Step>, progress: map<(int, int), Progress>): Summary
  {
    Summary(c.name, |CompletedRows(progress, c.id)|, |StepsOf(steps, c.id)|)
  }

  /** `get_progress_snapshot`: one entry per career id with its name, the number of
      completed rows of that career across all users, and its number of steps. */
  method GetProgressSnapshot(store: Store) returns (snapshot: map<int, Summary>)
    requires store.Valid()
    ensures snapshot.Keys == CareerIds(store.careers)
    ensures forall c :: c in store.careers ==> snapshot[c.id] == SummaryOf(c, store.steps, store.progress)
  {
    snapshot := map[];
    var i := 0;
    while i < |store.careers|
      invariant 0 <= i <= |store.careers|
      invariant snapshot.Keys == CareerIds(store.careers[..i])
      invariant forall k :: 0 <= k < i ==> snapshot[store.careers[k].id] == SummaryOf(store.careers[k], store.steps, store.progress)
    {
      var career := store.careers[i];
      assert store.careers[..i + 1] == store.careers[..i] + [career];
      var total := |StepsOf(store.steps, career.id)|;
      var completed := |CompletedRows(store.progress, career.id)|;
      snapshot := snapshot[career.id := Summary(career.name, completed, total)];
      i := i + 1;
    }
    assert store.careers[..i] == store.careers;
  }

  /** The summary's completed count is not bounded by the number of steps: two users
      who completed the one step of a career give 2 completed out of 1. */
  lemma SummaryCountsAllUsers()
    ensures var c := Career(1, Str("Web"), Null, Null, Null);
      var steps := [Step(10, 1, Str("First Blood"), Null, Str("Web"), 1)];
      var progress := map[(1, 10) := Progress(1, true), (2, 10) := Progress(1, true)];
      SummaryOf(c, steps, progress) == Summary(Str("Web"), 2, 1)
  {
    var progress := map[(1, 10) := Progress(1, true), (2, 10) := Progress(1, true)];
    assert CompletedRows(progress, 1) == {(1, 10), (2, 10)};
    var steps := [Step(10, 1, Str("First Blood"), Null, Str("Web"), 1)];
    assert steps[..0] == [];
  }
}

/**
 * Counting a user's solves for the career progress engine: solves per
 * challenge category, per resolved module key and in total, and the rule
 * that turns those counts into "step completed".
 */
module SolveCounts {
  import opened Wrappers
  import opened Text
  import opened Json

  /** One row of the solves query for a user: the solved challenge's category and,
      when challenges carry a module column, its module id (0 stands for NULL). */
  datatype SolveRow = SolveRow(category: Value, moduleId: int)

  /** A row of the optional modules table; `name` is Undefined when the module
      model has no `name` attribute. */
  datatype Module = Module(id: int, slug: Value, name: Value)

  /** What the collection reads besides the solves: whether challenges have a
      `module_id` column, whether the modules plugin can be imported, and its table. */
  datatype ModuleSource = ModuleSource(hasModuleColumn: bool, modulesAvailable: bool, modules: seq<Module>)

  /** The three counters: per category, per module key, and the number of solves. */
  datatype Counts = Counts(categories: map<Value, nat>, modules: map<Value, nat>, total: nat)

  /** `counter.get(k, 0)`. */
  function Get<K>(m: map<K, nat>, k: K): nat
  {
    if k in m then m[k] else 0
  }

  /** `counter[k] += 1`. */
  function Inc<K(!new)>(m: map<K, nat>, k: K): (r: map<K, nat>)
    ensures r.Keys == m.Keys + {k}
    ensures Get(r, k) == Get(m, k) + 1
    ensures forall k' :: k' != k ==> Get(r, k') == Get(m, k')
  {
    m[k := Get(m, k) + 1]
  }

  // ---------------------------------------------------------------- module map

  /** The key a module is counted under: its slug, else its name attribute, else its id as text. */
  function ModuleKey(m: Module): Value
  {
    if PyTruthy(m.slug) then m.slug
    else if !m.name.Undefined? then m.name
    else Str(IntToString(m.id))
  }

  /** Module id -> key for the modules whose id is asked for, in table order
      (a repeated id keeps the later module). */
  function ModuleMapOf(ids: set<int>, modules: seq<Module>): map<int, Value>
  {
    if modules == [] then map[]
    else
      var rest := ModuleMapOf(ids, modules[..|modules| - 1]);
      var m := modules[|modules| - 1];
      if m.id in ids then rest[m.id := ModuleKey(m)] else rest
  }

  /** `_load_module_map`: nothing for no ids or when the modules plugin is missing. */
  function ModuleMap(ids: set<int>, src: ModuleSource): map<int, Value>
  {
    if ids == {} || !src.modulesAvailable then map[] else ModuleMapOf(ids, src.modules)
  }

  method LoadModuleMap(ids: set<int>, src: ModuleSource) returns (mapping: map<int, Value>)
    ensures mapping == ModuleMap(ids, src)
  {
    if ids == {} {
      return map[];
    }
    if !src.modulesAvailable {
      return map[];
    }
    mapping := map[];
    var i := 0;
    while i < |src.modules|
      invariant 0 <= i <= |src.modules|
      invariant mapping == ModuleMapOf(ids, src.modules[..i])
    {
      var m := src.modules[i];
      assert src.modules[..i + 1][..i] == src.modules[..i];
      if m.id in ids {
        mapping := mapping[m.id := ModuleKey(m)];
      }
      i := i + 1;
    }
    assert src.modules[..i] == src.modules;
  }

  /** The map holds exactly the requested ids that some module has, and each maps
      to the key of the last module with that id. */
  lemma ModuleMapOfSpec(ids: set<int>, modules: seq<Module>)
    ensures forall k :: k in ModuleMapOf(ids, modules) <==>
      k in ids && exists i :: 0 <= i < |modules| && modules[i].id == k
    ensures forall i :: (0 <= i < |modules| && modules[i].id in ids
                         && (forall j :: i < j < |modules| ==> modules[j].id != modules[i].id))
                         ==> ModuleMapOf(ids, modules)[modules[i].id] == ModuleKey(modules[i])
  {
    ModuleMapOfKeys(ids, modules);
    forall i | 0 <= i < |modules| && modules[i].id in ids
      && (forall j :: i < j < |modules| ==> modules[j].id != modules[i].id)
      ensures ModuleMapOf(ids, modules)[modules[i].id] == ModuleKey(modules[i])
    {
      ModuleMapOfLast(ids, modules, i);
    }
  }

  lemma {:induction false} ModuleMapOfKeys(ids: set<int>, modules: seq<Module>)
    ensures forall k :: k in ModuleMapOf(ids, modules) <==>
      k in ids && exists i :: 0 <= i < |modules| && modules[i].id == k
  {
    if modules != [] {
      var n := |modules| - 1;
      var init := modules[..n];
      ModuleMapOfKeys(ids, init);
      forall k | k in ids && (exists i :: 0 <= i < |modules| && modules[i].id == k)
        ensures k in ModuleMapOf(ids, modules)
      {
        var i :| 0 <= i < |modules| && modules[i].id == k;
        if i < n { assert init[i].id == k; }
      }
      forall k | k in ModuleMapOf(ids, modules)
        ensures exists i :: 0 <= i < |modules| && modules[i].id == k
      {
        if k != modules[n].id {
          var i :| 0 <= i < |init| && init[i].id == k;
          assert modules[i].id == k;
        }
      }
    }
  }

  lemma {:induction false} ModuleMapOfLast(ids: set<int>, modules: seq<Module>, i: int)
    requires 0 <= i < |modules| && modules[i].id in ids
    requires forall j :: i < j < |modules| ==> modules[j].id != modules[i].id
    ensures modules[i].id in ModuleMapOf(ids, modules)
    ensures ModuleMapOf(ids, modules)[modules[i].id] == ModuleKey(modules[i])
  {
    var n := |modules| - 1;
    if i < n {
      var init := modules[..n];
      assert init[i] == modules[i];
      forall j | i < j < |init| ensures init[j].id != init[i].id { assert init[j] == modules[j]; }
      ModuleMapOfLast(ids, init, i);
    }
  }

  /** `_load_module_map` on an empty id set, or without the modules plugin, is empty;
      otherwise it never answers for an id that was not asked for or that no module has. */
  lemma ModuleMapSpec(ids: set<int>, src: ModuleSource)
    ensures ids == {} ==> ModuleMap(ids, src) == map[]
    ensures !src.modulesAvailable ==> ModuleMap(ids, src) == map[]
    ensures forall k :: k in ModuleMap(ids, src) ==>
      k in ids && exists i :: 0 <= i < |src.modules| && src.modules[i].id == k
  {
    ModuleMapOfSpec(ids, src.modules);
  }

  // ---------------------------------------------------------------- counters

  /** Solves per truthy category. */
  function CategoryCounts(rows: seq<SolveRow>): map<Value, nat>
  {
    if rows == [] then map[]
    else
      var m := CategoryCounts(rows[..|rows| - 1]);
      var c := rows[|rows| - 1].category;
      if PyTruthy(c) then Inc(m, c) else m
  }

  /** Whether a row contributes to the module counter. */
  predicate CountsModule(r: SolveRow, hasModuleColumn: bool)
  {
    hasModuleColumn && r.moduleId != 0
  }

  /** Solves per module id. */
  function ModuleCounts(rows: seq<SolveRow>, hasModuleColumn: bool): map<int, nat>
  {
    if rows == [] then map[]
    else
      var m := ModuleCounts(rows[..|rows| - 1], hasModuleColumn);
      var r := rows[|rows| - 1];
      if CountsModule(r, hasModuleColumn) then Inc(m, r.moduleId) else m
  }

  /** The module counter's keys in insertion order (first solve of each module). */
  function ModuleOrder(rows: seq<SolveRow>, hasModuleColumn: bool): seq<int>
  {
    if rows == [] then []
    else
      var o := ModuleOrder(rows[..|rows| - 1], hasModuleColumn);
      var r := rows[|rows| - 1];
      if CountsModule(r, hasModuleColumn) && r.moduleId !in o then o + [r.moduleId] else o
  }

  /** Module counts re-keyed through the module map: ids without a truthy key are
      dropped, and ids sharing a key overwrite one another in counter order. */
  function Resolve(order: seq<int>, counts: map<int, nat>, mm: map<int, Value>): map<Value, nat>
  {
    if order == [] then map[]
    else
      var res := Resolve(order[..|order| - 1], counts, mm);
      var id := order[|order| - 1];
      if id in mm && PyTruthy(mm[id]) then res[mm[id] := Get(counts, id)] else res
  }

  function IdSet(order: seq<int>): set<int>
  {
    set x | x in order
  }

  /** `_collect_user_solves` as a value. */
  function CollectSolves(rows: seq<SolveRow>, src: ModuleSource): Counts
  {
    var order := ModuleOrder(rows, src.hasModuleColumn);
    Counts(
      CategoryCounts(rows),
      Resolve(order, ModuleCounts(rows, src.hasModuleColumn), ModuleMap(IdSet(order), src)),
      |rows|)
  }

  /** `_collect_user_solves`: one pass over the solve rows filling the counters,
      then the module counter resolved through the module map. */
  method CollectUserSolves(rows: seq<SolveRow>, src: ModuleSource) returns (c: Counts)
    ensures c == CollectSolves(rows, src)
  {
    var categories, moduleCounts, order, moduleIds := TallyRows(rows, src.hasModuleColumn);
    var moduleMap := LoadModuleMap(moduleIds, src);
    var resolved := ResolveModules(order, moduleCounts, moduleMap);
    c := Counts(categories, resolved, |rows|);
  }

  /** The loop over the solve rows: the category counter, the module counter, the
      modules in first-seen order and the set of module ids. */
  method TallyRows(rows: seq<SolveRow>, hasModuleColumn: bool)
    returns (categories: map<Value, nat>, moduleCounts: map<int, nat>, order: seq<int>, moduleIds: set<int>)
    ensures categories == CategoryCounts(rows)
    ensures moduleCounts == ModuleCounts(rows, hasModuleColumn)
    ensures order == ModuleOrder(rows, hasModuleColumn)
    ensures moduleIds == IdSet(order)
  {
    categories, moduleCounts, order, moduleIds := map[], map[], [], {};
    var i := 0;
    while i < |rows|
      invariant 0 <= i <= |rows|
      invariant categories == CategoryCounts(rows[..i])
      invariant moduleCounts == ModuleCounts(rows[..i], hasModuleColumn)
      invariant order == ModuleOrder(rows[..i], hasModuleColumn)
      invariant moduleIds == IdSet(order)
    {
      var r := rows[i];
      assert rows[..i + 1][..i] == rows[..i];
      if PyTruthy(r.category) {
        categories := Inc(categories, r.category);
      }
      if hasModuleColumn && r.moduleId != 0 {
        moduleIds := moduleIds + {r.moduleId};
        if r.moduleId !in order {
          order := order + [r.moduleId];
        }
        moduleCounts := Inc(moduleCounts, r.moduleId);
      }
      i := i + 1;
    }
    assert rows[..i] == rows;
  }

  /** The loop that re-keys the module counter by module name or slug. */
  method ResolveModules(order: seq<int>, moduleCounts: map<int, nat>, moduleMap: map<int, Value>)
    returns (resolved: map<Value, nat>)
    ensures resolved == Resolve(order, moduleCounts, moduleMap)
  {
    resolved := map[];
    var j := 0;
    while j < |order|
      invariant 0 <= j <= |order|
      invariant resolved == Resolve(order[..j], moduleCounts, moduleMap)
    {
      var id := order[j];
      assert order[..j + 1][..j] == order[..j];
      if id in moduleMap && PyTruthy(moduleMap[id]) {
        resolved := resolved[moduleMap[id] := Get(moduleCounts, id)];
      }
      j := j + 1;
    }
    assert order[..j] == order;
  }

  // ---------------------------------------------------------------- counter properties

  /** The categories of the rows, in order. */
  function Categories(rows: seq<SolveRow>): seq<Value>
  {
    seq(|rows|, i requires 0 <= i < |rows| => rows[i].category)
  }

  /** The module ids the rows contribute, in order. */
  function ModuleIds(rows: seq<SolveRow>, hasModuleColumn: bool): seq<int>
  {
    if rows == [] then []
    else
      var r := rows[|rows| - 1];
      ModuleIds(rows[..|rows| - 1], hasModuleColumn) + (if CountsModule(r, hasModuleColumn) then [r.moduleId] else [])
  }

  /** Only truthy categories are counted, each by the number of rows carrying it. */
  lemma {:induction false} CategoryCountsSpec(rows: seq<SolveRow>, c: Value)
    ensures Get(CategoryCounts(rows), c) == if PyTruthy(c) then multiset(Categories(rows))[c] else 0
  {
    if rows != [] {
      var init := rows[..|rows| - 1];
      CategoryCountsSpec(init, c);
      assert Categories(rows) == Categories(init) + [rows[|rows| - 1].category];
    }
  }

  /** The module counter counts each non-null module id by its number of rows, and
      its key order lists each of them once. */
  lemma {:induction false} ModuleCountsSpec(rows: seq<SolveRow>, hasModuleColumn: bool)
    ensures forall id :: Get(ModuleCounts(rows, hasModuleColumn), id) == multiset(ModuleIds(rows, hasModuleColumn))[id]
    ensures forall id :: id in ModuleCounts(rows, hasModuleColumn) <==> id in ModuleOrder(rows, hasModuleColumn)
    ensures forall i, j :: 0 <= i < j < |ModuleOrder(rows, hasModuleColumn)| ==>
      ModuleOrder(rows, hasModuleColumn)[i] != ModuleOrder(rows, hasModuleColumn)[j]
    ensures forall id :: id in ModuleOrder(rows, hasModuleColumn) ==> hasModuleColumn && id != 0
  {
    if rows != [] {
      ModuleCountsSpec(rows[..|rows| - 1], hasModuleColumn);
    }
  }

  /** A key is present after resolution exactly when it is the truthy key of some
      counted module. */
  lemma {:induction false} ResolveKeys(order: seq<int>, counts: map<int, nat>, mm: map<int, Value>, k: Value)
    ensures k in Resolve(order, counts, mm) <==>
      PyTruthy(k) && exists j :: 0 <= j < |order| && order[j] in mm && mm[order[j]] == k
  {
    if order != [] {
      var init := order[..|order| - 1];
      ResolveKeys(init, counts, mm, k);
      if exists j :: 0 <= j < |init| && init[j] in mm && mm[init[j]] == k {
        var j :| 0 <= j < |init| && init[j] in mm && mm[init[j]] == k;
        assert order[j] == init[j];
      }
      if exists j :: 0 <= j < |order| && order[j] in mm && mm[order[j]] == k {
        var j :| 0 <= j < |order| && order[j] in mm && mm[order[j]] == k;
        if j < |init| { assert init[j] == order[j]; }
      }
    }
  }

  /** Modules sharing a key do not add up: the key holds the count of the last
      module (in counter order) that resolves to it. */
  lemma {:induction false} ResolveLastWins(order: seq<int>, counts: map<int, nat>, mm: map<int, Value>, j: nat)
    requires j < |order| && order[j] in mm && PyTruthy(mm[order[j]])
    requires forall j' :: j < j' < |order| ==> !(order[j'] in mm && mm[order[j']] == mm[order[j]])
    ensures mm[order[j]] in Resolve(order, counts, mm)
    ensures Resolve(order, counts, mm)[mm[order[j]]] == Get(counts, order[j])
  {
    if j < |order| - 1 {
      var init := order[..|order| - 1];
      assert init[j] == order[j];
      forall j' | j < j' < |init| ensures !(init[j'] in mm && mm[init[j']] == mm[init[j]]) {
        assert init[j'] == order[j'];
      }
      ResolveLastWins(init, counts, mm, j);
    }
  }

  /** Two modules with the same slug, solved once each, count as one solve for that slug. */
  lemma SharedSlugOverwrites()
    ensures var src := ModuleSource(true, true, [Module(1, Str("web"), Undefined), Module(2, Str("web"), Undefined)]);
      CollectSolves([SolveRow(Null, 1), SolveRow(Null, 2)], src).modules == map[Str("web") := 1]
  {
    var rows := [SolveRow(Null, 1), SolveRow(Null, 2)];
    assert rows[..1] == [SolveRow(Null, 1)];
    assert ModuleOrder(rows, true) == [1, 2];
    assert IdSet([1, 2]) == {1, 2};
    var mods := [Module(1, Str("web"), Undefined), Module(2, Str("web"), Undefined)];
    assert mods[..1] == [mods[0]];
    assert ModuleCounts(rows[..1], true) == map[1 := 1];
    var counts := ModuleCounts(rows, true);
    assert counts == map[1 := 1, 2 := 1];
    assert ModuleMapOf({1, 2}, mods[..1]) == map[1 := Str("web")];
    var mm := ModuleMapOf({1, 2}, mods);
    assert mm == map[1 := Str("web"), 2 := Str("web")];
    assert [1, 2][..1] == [1];
    assert Resolve([1], counts, mm) == map[Str("web") := Get(counts, 1)];
  }

  // ---------------------------------------------------------------- the completion rule

  /** Solves credited to a step: with a category, the larger of the category count and
      the module count under that key; without one, every solve of the user. */
  function Solved(category: Value, counts: Counts): nat
  {
    if PyTruthy(category) then
      var byCategory := Get(counts.categories, category);
      var byModule := Get(counts.modules, category);
      if byCategory >= byModule then byCategory else byModule
    else counts.total
  }

  /** A step is completed when its solves reach `required_solves` (`or 0` only
      matters for a NULL, which the column forbids). */
  predicate Completed(category: Value, requiredSolves: int, counts: Counts)
  {
    Solved(category, counts) >= requiredSolves
  }

  /** From the rows: a categorised step is credited at least its category's solves and
      at least the solves of the modules keyed like it, and exactly one of the two; an
      uncategorised step is credited every solve. */
  lemma SolvedFromRows(rows: seq<SolveRow>, src: ModuleSource, category: Value)
    ensures var counts := CollectSolves(rows, src);
      var s := Solved(category, counts);
      && (PyTruthy(category) ==>
           && s >= multiset(Categories(rows))[category]
           && s >= Get(counts.modules, category)
           && (s == multiset(Categories(rows))[category] || s == Get(counts.modules, category)))
      && (!PyTruthy(category) ==> s == |rows|)
  {
    CategoryCountsSpec(rows, category);
  }

  /** A step requiring no solves (or a non-positive number) is always completed. */
  lemma NoRequirementCompleted(category: Value, requiredSolves: int, counts: Counts)
    requires requiredSolves <= 0
    ensures Completed(category, requiredSolves, counts)
  {
  }

  /** One solve in "Web" completes a "Web" step that requires one solve. */
  lemma OneWebSolveCompletesWebStep()
    ensures Completed(Str("Web"), 1, CollectSolves([SolveRow(Str("Web"), 0)], ModuleSource(false, false, [])))
  {
    var rows := [SolveRow(Str("Web"), 0)];
    CategoryCountsSpec(rows, Str("Web"));
    assert Categories(rows) == [Str("Web")];
  }
}

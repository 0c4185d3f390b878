/** Benchmark configuration (python/mlx_benchmark/configuration.py, runner.py): what validation
    accepts, what selection expands, and the plan of executions drawn from it. */
module Configuration {
  import opened Basics

  type Name = string

  const MAX_REQUESTS_PER_TRIAL := 10_000
  const MAX_TRIALS := 100
  const MAX_CONCURRENCY := 256
  const MAX_MODEL_STARTS := 100

  datatype Workload = Workload(runtimes: seq<Name>, loadMode: string, concurrency: int, requests: int, trials: int)

  datatype Order = Order(model: Name, runtimes: seq<Name>)

  datatype Coverage = Coverage(model: Name, workloads: seq<Name>)

  datatype Focus = Focus(models: seq<Name>, workloads: seq<Name>)

  datatype Suite = Suite(models: seq<Name>, workloads: seq<Name>, runtimes: seq<Name>, orders: seq<Name>,
                         focuses: seq<Name>, focusRequired: bool, trials: int, maxModelStarts: int,
                         coverage: seq<Coverage>)

  /** The named tables of a configuration file that selection and planning draw on. */
  datatype Raw = Raw(models: set<Name>, runtimes: set<Name>, workloads: map<Name, Workload>,
                     orders: map<Name, Order>, focuses: map<Name, Focus>, suites: map<Name, Suite>)

  // ------------------------------------------------------------- validation

  /** A list of distinct non-empty names, each of them declared. */
  predicate References(names: seq<Name>, choices: set<Name>, allowEmpty: bool) {
    && (allowEmpty || names != [])
    && (forall n <- names :: n != "" && n in choices)
    && forall i, j | 0 <= i < j < |names| :: names[i] != names[j]
  }

  ghost predicate ValidWorkload(raw: Raw, w: Workload) {
    && References(w.runtimes, raw.runtimes, false)
    && w.loadMode in {"sequential", "burst", "closed-loop"}
    && 1 <= w.concurrency <= MAX_CONCURRENCY
    && 1 <= w.trials <= MAX_TRIALS
    && 1 <= w.requests <= MAX_REQUESTS_PER_TRIAL
    && (w.loadMode == "sequential" ==> w.concurrency == 1)
    && (w.loadMode == "burst" ==> w.concurrency == w.requests)
    && (w.loadMode == "closed-loop" ==> w.concurrency <= w.requests)
  }

  ghost predicate ValidOrder(raw: Raw, o: Order) {
    o.model != "" && o.model in raw.models && References(o.runtimes, raw.runtimes, false)
  }

  /** The runtimes a suite schedules for a model, over all its orders. */
  function ModelRuntimes(raw: Raw, orders: seq<Name>, model: Name): set<Name>
    requires forall o <- orders :: o in raw.orders
  {
    set o, r | o in orders && raw.orders[o].model == model && r in raw.orders[o].runtimes :: r
  }

  function OrderedModels(raw: Raw, orders: seq<Name>): set<Name>
    requires forall o <- orders :: o in raw.orders
  {
    set o | o in orders :: raw.orders[o].model
  }

  function OrderedRuntimes(raw: Raw, orders: seq<Name>): set<Name>
    requires forall o <- orders :: o in raw.orders
  {
    set o, r | o in orders && r in raw.orders[o].runtimes :: r
  }

  function RequiredStarts(raw: Raw, orders: seq<Name>): nat
    requires forall o <- orders :: o in raw.orders
  {
    if orders == [] then 0
    else RequiredStarts(raw, orders[..|orders| - 1]) + |raw.orders[orders[|orders| - 1]].runtimes|
  }

  ghost predicate ValidOrders(raw: Raw, s: Suite) {
    && References(s.orders, raw.orders.Keys, false)
    && (forall o <- s.orders :: raw.orders[o].model in s.models && forall r <- raw.orders[o].runtimes :: r in s.runtimes)
    && (forall m :: m in OrderedModels(raw, s.orders) <==> m in s.models)
    && (forall r :: r in OrderedRuntimes(raw, s.orders) <==> r in s.runtimes)
  }

  function AsSet(names: seq<Name>): set<Name> {
    set n | n in names
  }

  /** Some runtime of the workload is among those given. */
  predicate Runnable(raw: Raw, workload: Name, runtimes: set<Name>)
    requires workload in raw.workloads
  {
    exists r <- raw.workloads[workload].runtimes :: r in runtimes
  }

  /** Some workload of the entry uses the runtime. */
  predicate Used(raw: Raw, c: Coverage, runtime: Name)
    requires forall w <- c.workloads :: w in raw.workloads
  {
    exists w <- c.workloads :: runtime in raw.workloads[w].runtimes
  }

  ghost predicate ValidCoverage(raw: Raw, s: Suite, c: Coverage)
    requires forall o <- s.orders :: o in raw.orders
  {
    && c.model != "" && c.model in raw.models && References(c.workloads, raw.workloads.Keys, false)
    && c.model in s.models
    && (forall w <- c.workloads :: w in s.workloads)
    && (forall w <- c.workloads :: Runnable(raw, w, ModelRuntimes(raw, s.orders, c.model)))
    && (forall r <- ModelRuntimes(raw, s.orders, c.model) :: Used(raw, c, r))
  }

  predicate CoversModel(coverage: seq<Coverage>, model: Name) {
    exists c <- coverage :: c.model == model
  }

  predicate CoversWorkload(coverage: seq<Coverage>, workload: Name) {
    exists c <- coverage :: workload in c.workloads
  }

  /** Every model and every workload has an entry. */
  predicate Covers(coverage: seq<Coverage>, models: seq<Name>, workloads: seq<Name>) {
    && (forall m <- models :: CoversModel(coverage, m))
    && (forall w <- workloads :: CoversWorkload(coverage, w))
  }

  ghost predicate ValidSuite(raw: Raw, s: Suite) {
    && References(s.models, raw.models, false) && References(s.workloads, raw.workloads.Keys, false)
    && References(s.runtimes, raw.runtimes, false) && References(s.focuses, raw.focuses.Keys, true)
    && ValidOrders(raw, s)
    && 1 <= s.trials <= MAX_TRIALS && 1 <= s.maxModelStarts <= MAX_MODEL_STARTS
    && RequiredStarts(raw, s.orders) <= s.maxModelStarts
    && (forall c <- s.coverage :: ValidCoverage(raw, s, c))
    && s.coverage != [] && Covers(s.coverage, s.models, s.workloads)
  }

  ghost predicate ValidRaw(raw: Raw) {
    && (forall n <- raw.workloads :: ValidWorkload(raw, raw.workloads[n]))
    && (forall n <- raw.orders :: ValidOrder(raw, raw.orders[n]))
    && (forall n <- raw.focuses :: References(raw.focuses[n].models, raw.models, false)
                                   && References(raw.focuses[n].workloads, raw.workloads.Keys, false))
    && (forall n <- raw.suites :: ValidSuite(raw, raw.suites[n]))
  }

  // ---------------------------------------------------------------- selection

  /** The values of left that right contains, in left's order. */
  function Intersection(left: seq<Name>, right: seq<Name>): (r: seq<Name>)
    ensures forall n :: n in r <==> n in left && n in right
  {
    if left == [] then []
    else
      var last := left[|left| - 1];
      assert left == left[..|left| - 1] + [last];
      Intersection(left[..|left| - 1], right) + (if last in right then [last] else [])
  }

  datatype SelectedWorkload = SelectedWorkload(name: Name, values: Workload)

  datatype SelectedOrder = SelectedOrder(name: Name, model: Name, runtimes: seq<Name>)

  datatype Selected = Selected(models: seq<Name>, runtimes: seq<Name>, workloads: seq<SelectedWorkload>,
                               orders: seq<SelectedOrder>, coverage: seq<Coverage>, maxModelStarts: int)

  datatype SelectError = UnknownSuite | FocusRequired | UnknownFocus | NoModels | NoWorkloads | NoRuntime | Uncovered | NotOneExecution

  /** A workload as a suite runs it: on the suite's runtimes only, for the suite's number of trials. */
  function Narrowed(raw: Raw, s: Suite, name: Name): SelectedWorkload
    requires name in raw.workloads
  {
    SelectedWorkload(name, raw.workloads[name].(runtimes := Intersection(s.runtimes, raw.workloads[name].runtimes), trials := s.trials))
  }

  /** Each selected workload with the suite's runtimes and trial count; None if one has no
      runtime in common with the suite. */
  function SelectWorkloads(raw: Raw, s: Suite, names: seq<Name>): Option<seq<SelectedWorkload>>
    requires forall n <- names :: n in raw.workloads
  {
    if names == [] then Some([])
    else
      var before, name := SelectWorkloads(raw, s, names[..|names| - 1]), names[|names| - 1];
      var runtimes := Intersection(s.runtimes, raw.workloads[name].runtimes);
      if before.None? || runtimes == [] then None
      else Some(before.value + [SelectedWorkload(name, raw.workloads[name].(runtimes := runtimes, trials := s.trials))])
  }

  function SelectOrders(raw: Raw, names: seq<Name>, models: seq<Name>): seq<SelectedOrder>
    requires forall o <- names :: o in raw.orders
  {
    if names == [] then []
    else
      var name := names[|names| - 1];
      SelectOrders(raw, names[..|names| - 1], models)
      + (if raw.orders[name].model in models then [SelectedOrder(name, raw.orders[name].model, raw.orders[name].runtimes)] else [])
  }

  function SelectCoverage(coverage: seq<Coverage>, models: seq<Name>, workloads: seq<Name>): seq<Coverage> {
    if coverage == [] then []
    else
      var c := coverage[|coverage| - 1];
      var covered := Intersection(workloads, c.workloads);
      SelectCoverage(coverage[..|coverage| - 1], models, workloads)
      + (if c.model in models && covered != [] then [Coverage(c.model, covered)] else [])
  }

  /** Selection of a suite, optionally narrowed to a focus. */
  ghost function Select(raw: Raw, suite: Name, focus: Option<Name>, external: bool): Result<Selected, SelectError>
    requires ValidRaw(raw)
  {
    if suite !in raw.suites then Err(UnknownSuite)
    else
      var s := raw.suites[suite];
      if focus.None? && s.focusRequired then Err(FocusRequired)
      else if focus.Some? && focus.value !in s.focuses then Err(UnknownFocus)
      else
        assert ValidSuite(raw, s);
        var models := if focus.None? then s.models else Intersection(s.models, raw.focuses[focus.value].models);
        var names := if focus.None? then s.workloads else Intersection(s.workloads, raw.focuses[focus.value].workloads);
        if models == [] then Err(NoModels)
        else if names == [] then Err(NoWorkloads)
        else
          var workloads := SelectWorkloads(raw, s, names);
          if workloads.None? then Err(NoRuntime)
          else
            var coverage, orders := SelectCoverage(s.coverage, models, names), SelectOrders(raw, s.orders, models);
            if !Covers(coverage, models, names) then Err(Uncovered)
            else if external && PlanLength(orders) != 1 then Err(NotOneExecution)
            else Ok(Selected(models, s.runtimes, workloads.value, orders, coverage, s.maxModelStarts))
  }

  function PlanLength(orders: seq<SelectedOrder>): nat {
    if orders == [] then 0 else PlanLength(orders[..|orders| - 1]) + |orders[|orders| - 1].runtimes|
  }

  // ----------------------------------------------------------------- planning

  datatype Execution = Execution(order: Name, model: Name, runtime: Name)

  function Executions(o: SelectedOrder): seq<Execution> {
    seq(|o.runtimes|, i requires 0 <= i < |o.runtimes| => Execution(o.name, o.model, o.runtimes[i]))
  }

  function Plan(orders: seq<SelectedOrder>): seq<Execution> {
    if orders == [] then [] else Plan(orders[..|orders| - 1]) + Executions(orders[|orders| - 1])
  }

  predicate Runs(sel: Selected, w: SelectedWorkload, e: Execution) {
    (exists c <- sel.coverage :: c.model == e.model && w.name in c.workloads) && e.runtime in w.values.runtimes
  }

  /** The workloads left for one execution. */
  function WorkloadsFor(sel: Selected, ws: seq<SelectedWorkload>, e: Execution): seq<SelectedWorkload> {
    if ws == [] then []
    else WorkloadsFor(sel, ws[..|ws| - 1], e) + (if Runs(sel, ws[|ws| - 1], e) then [ws[|ws| - 1]] else [])
  }

  // ----------------------------------------------- validation is sufficient

  lemma {:induction false} WorkloadsForHas(sel: Selected, ws: seq<SelectedWorkload>, e: Execution, w: SelectedWorkload)
    requires w in ws && Runs(sel, w, e)
    ensures w in WorkloadsFor(sel, ws, e)
  {
    var last := ws[|ws| - 1];
    if w in ws[..|ws| - 1] {
      WorkloadsForHas(sel, ws[..|ws| - 1], e, w);
    } else {
      assert ws == ws[..|ws| - 1] + [last];
    }
  }

  lemma {:induction false} SelectWorkloadsAll(raw: Raw, s: Suite, names: seq<Name>)
    requires forall n <- names :: n in raw.workloads
    requires forall n <- names :: Runnable(raw, n, AsSet(s.runtimes))
    ensures var ws := SelectWorkloads(raw, s, names);
            && ws.Some? && |ws.value| == |names|
            && forall i | 0 <= i < |names| :: ws.value[i] == Narrowed(raw, s, names[i])
  {
    hide Intersection, Runnable, AsSet;
    if names != [] {
      SelectWorkloadsAll(raw, s, names[..|names| - 1]);
      var name := names[|names| - 1];
      SomeRuntime(raw, s, name);
    }
  }

  lemma SomeRuntime(raw: Raw, s: Suite, name: Name)
    requires name in raw.workloads && Runnable(raw, name, AsSet(s.runtimes))
    ensures Intersection(s.runtimes, raw.workloads[name].runtimes) != []
  {
    var r :| r in raw.workloads[name].runtimes && r in AsSet(s.runtimes);
    assert r in Intersection(s.runtimes, raw.workloads[name].runtimes);
  }

  lemma {:induction false} SelectCoverageAll(coverage: seq<Coverage>, models: seq<Name>, workloads: seq<Name>, c: Coverage)
    requires c in coverage && c.model in models && c.workloads != [] && forall w <- c.workloads :: w in workloads
    ensures exists d <- SelectCoverage(coverage, models, workloads) ::
              d.model == c.model && forall w <- c.workloads :: w in d.workloads
  {
    var before, last := coverage[..|coverage| - 1], coverage[|coverage| - 1];
    if c in before {
      SelectCoverageAll(before, models, workloads, c);
      var d :| d in SelectCoverage(before, models, workloads) && d.model == c.model && forall w <- c.workloads :: w in d.workloads;
      assert d in SelectCoverage(coverage, models, workloads);
    } else {
      assert coverage == before + [last];
      var covered := Intersection(workloads, c.workloads);
      assert c.workloads[0] in covered;
      var d := Coverage(c.model, covered);
      assert d in SelectCoverage(coverage, models, workloads);
    }
  }

  /** Selection makes up no coverage: each kept entry is an entry for a selected model, cut down
      to the selected workloads and not empty. */
  lemma {:induction false} SelectCoverageOnly(coverage: seq<Coverage>, models: seq<Name>, workloads: seq<Name>, d: Coverage)
    requires d in SelectCoverage(coverage, models, workloads)
    ensures d.model in models && d.workloads != []
    ensures exists c <- coverage :: c.model == d.model && d.workloads == Intersection(workloads, c.workloads)
  {
    hide Intersection;
    var before, last := coverage[..|coverage| - 1], coverage[|coverage| - 1];
    if d in SelectCoverage(before, models, workloads) {
      SelectCoverageOnly(before, models, workloads, d);
      var c :| c in before && c.model == d.model && d.workloads == Intersection(workloads, c.workloads);
      assert c in coverage;
    } else {
      assert last in coverage;
    }
  }

  /** The common values keep the order of the first list. */
  lemma {:induction false} IntersectionKeepsOrder(left: seq<Name>, right: seq<Name>)
    ensures Subsequence(Intersection(left, right), left)
  {
    if left != [] {
      var before, last := left[..|left| - 1], left[|left| - 1];
      IntersectionKeepsOrder(before, right);
      assert left == before + [last];
      var inner := Intersection(before, right);
      SubsequenceSnoc(inner, before, last);
      assert inner + [] == inner;
      assert Intersection(left, right) == if last in right then inner + [last] else inner;
      hide Intersection, Subsequence;
    }
  }

  lemma {:induction false} SubsequenceSnoc(a: seq<Name>, b: seq<Name>, x: Name)
    requires Subsequence(a, b)
    ensures Subsequence(a, b + [x]) && Subsequence(a + [x], b + [x])
  {
    if b == [] {
      assert a + [x] == [x] && b + [x] == [x];
    } else {
      assert (b + [x])[0] == b[0] && (b + [x])[1..] == b[1..] + [x];
      if a != [] && a[0] == b[0] && Subsequence(a[1..], b[1..]) {
        SubsequenceSnoc(a[1..], b[1..], x);
        assert (a + [x])[0] == a[0] && (a + [x])[1..] == a[1..] + [x];
      } else {
        SubsequenceSnoc(a, b[1..], x);
      }
    }
  }

  lemma {:induction false} SelectOrdersAll(raw: Raw, names: seq<Name>, models: seq<Name>)
    requires forall o <- names :: o in raw.orders && raw.orders[o].model in models
    ensures var orders := SelectOrders(raw, names, models);
            && |orders| == |names|
            && PlanLength(orders) == RequiredStarts(raw, names)
            && forall i | 0 <= i < |names| ::
                 orders[i] == SelectedOrder(names[i], raw.orders[names[i]].model, raw.orders[names[i]].runtimes)
  {
    hide PlanLength;
    if names == [] {
      NoPlan(raw, models);
    } else {
      var before, name := names[..|names| - 1], names[|names| - 1];
      SelectOrdersAll(raw, before, models);
      assert name in raw.orders && raw.orders[name].model in models;
      SelectOrdersSnoc(raw, names, models);
    }
  }

  lemma NoPlan(raw: Raw, models: seq<Name>)
    ensures SelectOrders(raw, [], models) == [] && PlanLength([]) == 0
  {}

  lemma SelectOrdersSnoc(raw: Raw, names: seq<Name>, models: seq<Name>)
    requires names != [] && (forall o <- names :: o in raw.orders) && raw.orders[names[|names| - 1]].model in models
    ensures var name, before := names[|names| - 1], names[..|names| - 1];
            var last := SelectedOrder(name, raw.orders[name].model, raw.orders[name].runtimes);
            && SelectOrders(raw, names, models) == SelectOrders(raw, before, models) + [last]
            && PlanLength(SelectOrders(raw, names, models)) == PlanLength(SelectOrders(raw, before, models)) + |last.runtimes|
  {
    var orders := SelectOrders(raw, names, models);
    assert orders[..|orders| - 1] == SelectOrders(raw, names[..|names| - 1], models);
  }

  /** The plan is every runtime of every order, in order, and as long as announced. */
  lemma {:induction false} PlanIsComplete(orders: seq<SelectedOrder>)
    ensures |Plan(orders)| == PlanLength(orders)
    ensures forall e :: e in Plan(orders) <==>
              exists o <- orders :: e.order == o.name && e.model == o.model && e.runtime in o.runtimes
  {
    if orders != [] {
      var before, last := orders[..|orders| - 1], orders[|orders| - 1];
      PlanIsComplete(before);
      assert orders == before + [last];
      forall e ensures e in Executions(last) <==> e.order == last.name && e.model == last.model && e.runtime in last.runtimes {
        if e.order == last.name && e.model == last.model && e.runtime in last.runtimes {
          var i :| 0 <= i < |last.runtimes| && last.runtimes[i] == e.runtime;
          assert Executions(last)[i] == e;
        }
      }
    }
  }

  /** The plan takes the orders one after the other, and each order's runtimes in its own order. */
  lemma {:induction false} PlanIsInOrder(a: seq<SelectedOrder>, b: seq<SelectedOrder>)
    ensures Plan(a + b) == Plan(a) + Plan(b)
  {
    hide Executions;
    if b == [] {
      assert a + b == a;
    } else {
      assert (a + b)[..|a + b| - 1] == a + b[..|b| - 1] && (a + b)[|a + b| - 1] == b[|b| - 1];
      PlanIsInOrder(a, b[..|b| - 1]);
    }
  }

  lemma OneOrderIsPlanned(o: SelectedOrder)
    ensures |Plan([o])| == |o.runtimes|
    ensures forall i | 0 <= i < |o.runtimes| :: Plan([o])[i] == Execution(o.name, o.model, o.runtimes[i])
  {
    var none: seq<SelectedOrder> := [];
    var one := [o];
    assert one[..|one| - 1] == none && Plan(none) == [];
    assert Plan(one) == [] + Executions(o) == Executions(o);
  }

  lemma {:induction false} WorkloadsForOnly(sel: Selected, ws: seq<SelectedWorkload>, e: Execution)
    ensures forall w :: w in WorkloadsFor(sel, ws, e) <==> w in ws && Runs(sel, w, e)
  {
    if ws != [] {
      WorkloadsForOnly(sel, ws[..|ws| - 1], e);
      assert ws == ws[..|ws| - 1] + [ws[|ws| - 1]];
    }
  }

  /** A runtime scheduled for a model is a suite runtime, by some order of the suite. */
  lemma ScheduledBy(raw: Raw, s: Suite, model: Name, runtime: Name) returns (order: Name)
    requires ValidOrders(raw, s) && runtime in ModelRuntimes(raw, s.orders, model)
    ensures runtime in s.runtimes && model in s.models
    ensures order in s.orders && raw.orders[order].model == model && runtime in raw.orders[order].runtimes
  {
    order :| order in s.orders && raw.orders[order].model == model && runtime in raw.orders[order].runtimes;
  }

  lemma OrdersDeclared(raw: Raw, s: Suite)
    requires ValidOrders(raw, s)
    ensures forall o <- s.orders :: o in raw.orders
  {}

  lemma EntryWorkloads(raw: Raw, s: Suite, c: Coverage)
    requires forall o <- s.orders :: o in raw.orders
    requires ValidCoverage(raw, s, c)
    ensures forall w <- c.workloads :: w in raw.workloads
  {}

  /** Every workload of a valid suite is covered by some entry, and scheduled there. */
  lemma WorkloadIsScheduled(raw: Raw, s: Suite, name: Name) returns (c: Coverage, r: Name)
    requires ValidSuite(raw, s) && name in s.workloads
    ensures name in raw.workloads && c in s.coverage && name in c.workloads
    ensures r in s.runtimes && r in raw.workloads[name].runtimes && r in ModelRuntimes(raw, s.orders, c.model)
  {
    hide References, ModelRuntimes, ValidOrders, Used, CoversModel;
    assert CoversWorkload(s.coverage, name);
    c :| c in s.coverage && name in c.workloads;
    OrdersDeclared(raw, s);
    EntryWorkloads(raw, s, c);
    assert Runnable(raw, name, ModelRuntimes(raw, s.orders, c.model));
    r :| r in raw.workloads[name].runtimes && r in ModelRuntimes(raw, s.orders, c.model);
    var o := ScheduledBy(raw, s, c.model, r);
  }

  /** The entry that selection keeps of a suite's entry. */
  ghost predicate Keeps(coverage: seq<Coverage>, c: Coverage) {
    exists d <- coverage :: d.model == c.model && forall w <- c.workloads :: w in d.workloads
  }

  lemma KeptCovers(coverage: seq<Coverage>, c: Coverage, workload: Name)
    requires Keeps(coverage, c)
    ensures CoversModel(coverage, c.model)
    ensures workload in c.workloads ==> CoversWorkload(coverage, workload)
  {}

  lemma SuiteEntryKept(raw: Raw, s: Suite, c: Coverage)
    requires ValidSuite(raw, s) && c in s.coverage
    ensures Keeps(SelectCoverage(s.coverage, s.models, s.workloads), c)
  {
    hide SelectCoverage, ValidOrders, Runnable, Used, Covers;
    OrdersDeclared(raw, s);
    assert ValidCoverage(raw, s, c);
    SelectCoverageAll(s.coverage, s.models, s.workloads, c);
  }

  lemma SuiteSelectionCovered(raw: Raw, s: Suite)
    requires ValidSuite(raw, s)
    ensures Covers(SelectCoverage(s.coverage, s.models, s.workloads), s.models, s.workloads)
  {
    hide SelectCoverage, ValidOrders, ValidCoverage, Keeps, References;
    var coverage := SelectCoverage(s.coverage, s.models, s.workloads);
    forall m | m in s.models ensures CoversModel(coverage, m) {
      assert CoversModel(s.coverage, m);
      var c :| c in s.coverage && c.model == m;
      SuiteEntryKept(raw, s, c);
      KeptCovers(coverage, c, "");
    }
    forall w | w in s.workloads ensures CoversWorkload(coverage, w) {
      assert CoversWorkload(s.coverage, w);
      var c :| c in s.coverage && w in c.workloads;
      SuiteEntryKept(raw, s, c);
      KeptCovers(coverage, c, w);
    }
  }

  /** What selecting a whole suite gives. */
  ghost predicate WholeSuite(raw: Raw, s: Suite, sel: Selected) {
    && (forall n <- s.workloads :: n in raw.workloads) && (forall o <- s.orders :: o in raw.orders)
    && |sel.workloads| == |s.workloads|
    && (forall i | 0 <= i < |s.workloads| :: sel.workloads[i] == Narrowed(raw, s, s.workloads[i]))
    && |sel.orders| == |s.orders|
    && (forall i | 0 <= i < |s.orders| ::
          sel.orders[i] == SelectedOrder(s.orders[i], raw.orders[s.orders[i]].model, raw.orders[s.orders[i]].runtimes))
    && sel.coverage == SelectCoverage(s.coverage, s.models, s.workloads)
  }

  lemma SuiteWorkloads(raw: Raw, s: Suite)
    requires ValidSuite(raw, s)
    ensures forall n <- s.workloads :: n in raw.workloads && Runnable(raw, n, AsSet(s.runtimes))
  {
    hide ValidOrders, ValidCoverage, Covers, ModelRuntimes;
    forall n | n in s.workloads ensures n in raw.workloads && Runnable(raw, n, AsSet(s.runtimes)) {
      var c, r := WorkloadIsScheduled(raw, s, n);
      assert r in AsSet(s.runtimes);
    }
  }

  /** Selecting a whole suite of a valid configuration never fails, and the plan stays within
      the announced number of model starts. */
  lemma SelectionNeverFails(raw: Raw, suite: Name)
    requires ValidRaw(raw) && suite in raw.suites && !raw.suites[suite].focusRequired
    ensures var r := Select(raw, suite, None, false);
            && r.Ok? && WholeSuite(raw, raw.suites[suite], r.value)
            && |Plan(r.value.orders)| <= r.value.maxModelStarts
  {
    hide SelectCoverage, SelectWorkloads, SelectOrders, ValidCoverage, PlanLength, Plan, Covers, Runnable;
    var s := raw.suites[suite];
    assert ValidSuite(raw, s);
    SuiteWorkloads(raw, s);
    SelectWorkloadsAll(raw, s, s.workloads);
    SelectOrdersAll(raw, s.orders, s.models);
    SuiteSelectionCovered(raw, s);
    PlanIsComplete(SelectOrders(raw, s.orders, s.models));
  }

  lemma SelectedRuns(raw: Raw, s: Suite, sel: Selected, e: Execution, c: Coverage, k: nat)
    requires ValidSuite(raw, s) && WholeSuite(raw, s, sel) && k < |s.workloads|
    requires c in s.coverage && c.model == e.model && s.workloads[k] in c.workloads
    requires e.runtime in s.runtimes && s.workloads[k] in raw.workloads && e.runtime in raw.workloads[s.workloads[k]].runtimes
    ensures k < |sel.workloads| && sel.workloads[k] in WorkloadsFor(sel, sel.workloads, e)
  {
    hide WorkloadsFor, SelectCoverage, ValidSuite;
    var w := sel.workloads[k];
    SuiteEntryKept(raw, s, c);
    assert w.name in c.workloads;
    var d :| d in sel.coverage && d.model == c.model && forall x <- c.workloads :: x in d.workloads;
    assert Runs(sel, w, e);
    WorkloadsForHas(sel, sel.workloads, e, w);
  }

  lemma PlannedFrom(raw: Raw, s: Suite, sel: Selected, e: Execution)
    requires ValidSuite(raw, s) && WholeSuite(raw, s, sel)
    ensures e in Plan(sel.orders) <==>
              e.order in s.orders && e.model == raw.orders[e.order].model && e.runtime in raw.orders[e.order].runtimes
  {
    hide Plan, SelectCoverage, ValidSuite;
    PlanIsComplete(sel.orders);
    if e in Plan(sel.orders) {
      var o :| o in sel.orders && e.order == o.name && e.model == o.model && e.runtime in o.runtimes;
      var i :| 0 <= i < |sel.orders| && sel.orders[i] == o;
      assert s.orders[i] == e.order;
    } else if e.order in s.orders {
      var i :| 0 <= i < |s.orders| && s.orders[i] == e.order;
      assert sel.orders[i] in sel.orders;
    }
  }

  lemma ScheduledWork(raw: Raw, s: Suite, model: Name, runtime: Name) returns (c: Coverage, k: nat)
    requires ValidSuite(raw, s) && runtime in ModelRuntimes(raw, s.orders, model)
    ensures runtime in s.runtimes
    ensures c in s.coverage && c.model == model && k < |s.workloads| && s.workloads[k] in c.workloads
    ensures s.workloads[k] in raw.workloads && runtime in raw.workloads[s.workloads[k]].runtimes
  {
    hide References, ModelRuntimes, ValidOrders, Runnable, CoversWorkload;
    var order := ScheduledBy(raw, s, model, runtime);
    assert CoversModel(s.coverage, model);
    c :| c in s.coverage && c.model == model;
    OrdersDeclared(raw, s);
    EntryWorkloads(raw, s, c);
    assert Used(raw, c, runtime);
    var name :| name in c.workloads && runtime in raw.workloads[name].runtimes;
    k :| 0 <= k < |s.workloads| && s.workloads[k] == name;
  }

  /** Every planned execution of a whole suite has a workload to run. */
  lemma ExecutionHasWork(raw: Raw, s: Suite, sel: Selected, e: Execution)
    requires ValidSuite(raw, s) && WholeSuite(raw, s, sel) && e in Plan(sel.orders)
    ensures WorkloadsFor(sel, sel.workloads, e) != []
  {
    hide Plan, WorkloadsFor, WholeSuite, ValidOrders, ValidCoverage, Covers, References;
    assert ValidOrders(raw, s);
    OrdersDeclared(raw, s);
    PlannedFrom(raw, s, sel, e);
    assert e.runtime in ModelRuntimes(raw, s.orders, e.model);
    var c, k := ScheduledWork(raw, s, e.model, e.runtime);
    SelectedRuns(raw, s, sel, e, c, k);
  }

  /** Every workload of a whole suite runs in some planned execution. */
  lemma WorkloadHasExecution(raw: Raw, s: Suite, sel: Selected, w: SelectedWorkload)
    requires ValidSuite(raw, s) && WholeSuite(raw, s, sel) && w in sel.workloads
    ensures exists e <- Plan(sel.orders) :: w in WorkloadsFor(sel, sel.workloads, e)
  {
    hide Plan, WorkloadsFor, SelectCoverage, ValidCoverage, Covers, References, ModelRuntimes;
    var k :| 0 <= k < |sel.workloads| && sel.workloads[k] == w;
    var c, r := WorkloadIsScheduled(raw, s, s.workloads[k]);
    var order := ScheduledBy(raw, s, c.model, r);
    var e := Execution(order, c.model, r);
    PlannedFrom(raw, s, sel, e);
    SelectedRuns(raw, s, sel, e, c, k);
  }

  /** The executions a run records as applied: the ones that have a workload. */
  function Applied(sel: Selected, plan: seq<Execution>): seq<Execution> {
    if plan == [] then []
    else
      var e := plan[|plan| - 1];
      Applied(sel, plan[..|plan| - 1]) + (if WorkloadsFor(sel, sel.workloads, e) != [] then [e] else [])
  }

  /** The final check on the applied order passes exactly when no execution was left idle. */
  lemma {:induction false} AppliedAsPlannedIff(sel: Selected, plan: seq<Execution>)
    ensures |Applied(sel, plan)| <= |plan|
    ensures Applied(sel, plan) == plan <==> forall e <- plan :: WorkloadsFor(sel, sel.workloads, e) != []
  {
    hide WorkloadsFor;
    if plan != [] {
      var before, e := plan[..|plan| - 1], plan[|plan| - 1];
      AppliedAsPlannedIff(sel, before);
      assert plan == before + [e];
      if WorkloadsFor(sel, sel.workloads, e) == [] {
        assert |Applied(sel, plan)| < |plan| && plan[|plan| - 1] in plan;
      } else {
        SameEnd(Applied(sel, before), before, e);
        assert forall x :: x in plan <==> x in before || x == e;
      }
    }
  }

  lemma SameEnd(a: seq<Execution>, b: seq<Execution>, e: Execution)
    ensures a + [e] == b + [e] <==> a == b
  {
    if a + [e] == b + [e] {
      assert a == (a + [e])[..|a|] && b == (b + [e])[..|b|];
    }
  }

  /** Validation is sufficient: for a suite that needs no focus, selection succeeds, every
      planned execution has a workload, every workload runs, the starts stay in bound, and so
      the recorded order is the planned one. */
  lemma ValidationIsSufficient(raw: Raw, suite: Name)
    requires ValidRaw(raw) && suite in raw.suites && !raw.suites[suite].focusRequired
    ensures var r := Select(raw, suite, None, false);
            && r.Ok?
            && (forall e <- Plan(r.value.orders) :: WorkloadsFor(r.value, r.value.workloads, e) != [])
            && (forall w <- r.value.workloads :: exists e <- Plan(r.value.orders) :: w in WorkloadsFor(r.value, r.value.workloads, e))
            && |Plan(r.value.orders)| <= r.value.maxModelStarts
            && Applied(r.value, Plan(r.value.orders)) == Plan(r.value.orders)
  {
    hide Plan, WorkloadsFor, WholeSuite, Select, Applied, ValidSuite;
    var s := raw.suites[suite];
    assert ValidSuite(raw, s);
    SelectionNeverFails(raw, suite);
    var sel := Select(raw, suite, None, false).value;
    forall e | e in Plan(sel.orders) ensures WorkloadsFor(sel, sel.workloads, e) != [] {
      ExecutionHasWork(raw, s, sel, e);
    }
    forall w | w in sel.workloads ensures exists e <- Plan(sel.orders) :: w in WorkloadsFor(sel, sel.workloads, e) {
      WorkloadHasExecution(raw, s, sel, w);
    }
    AppliedAsPlannedIff(sel, Plan(sel.orders));
  }

  lemma ReferencesFront(names: seq<Name>, choices: set<Name>)
    requires References(names, choices, true) && names != []
    ensures References(names[..|names| - 1], choices, true)
    ensures names[|names| - 1] !in names[..|names| - 1]
    ensures names[|names| - 1] != "" && names[|names| - 1] in choices
  {
    assert forall n | n in names[..|names| - 1] :: n in names;
    assert names[|names| - 1] in names;
  }

  lemma {:induction false} IntersectionIsReferences(left: seq<Name>, right: seq<Name>, choices: set<Name>)
    requires References(left, choices, true)
    ensures References(Intersection(left, right), choices, true)
  {
    if left != [] {
      var before, last := left[..|left| - 1], left[|left| - 1];
      ReferencesFront(left, choices);
      IntersectionIsReferences(before, right, choices);
      assert forall n | n in Intersection(before, right) :: n != last;
    }
  }

  lemma {:induction false} SelectWorkloadsValid(raw: Raw, s: Suite, names: seq<Name>)
    requires (forall n <- raw.workloads :: ValidWorkload(raw, raw.workloads[n])) && (forall n <- names :: n in raw.workloads)
    requires References(s.runtimes, raw.runtimes, true) && 1 <= s.trials <= MAX_TRIALS
    requires SelectWorkloads(raw, s, names).Some?
    ensures forall w <- SelectWorkloads(raw, s, names).value :: ValidWorkload(raw, w.values)
  {
    hide References, Intersection;
    if names != [] {
      SelectWorkloadsValid(raw, s, names[..|names| - 1]);
      var w := raw.workloads[names[|names| - 1]];
      assert ValidWorkload(raw, w);
      var runtimes := Intersection(s.runtimes, w.runtimes);
      IntersectionIsReferences(s.runtimes, w.runtimes, raw.runtimes);
      assert References(runtimes, raw.runtimes, false) by { NonEmptyReferences(runtimes, raw.runtimes); }
    }
  }

  lemma NonEmptyReferences(names: seq<Name>, choices: set<Name>)
    requires References(names, choices, true) && names != []
    ensures References(names, choices, false)
  {}

  lemma EmptyAllowed(names: seq<Name>, choices: set<Name>)
    requires References(names, choices, false)
    ensures References(names, choices, true)
  {}

  /** What validation accepted of a workload still holds of it after selection. */
  lemma SelectedAreValid(raw: Raw, suite: Name, focus: Option<Name>, external: bool)
    requires ValidRaw(raw)
    ensures var r := Select(raw, suite, focus, external);
            r.Ok? ==> forall w <- r.value.workloads :: ValidWorkload(raw, w.values)
  {
    hide References, ValidWorkload, ValidOrders, ValidCoverage, Covers, Intersection, SelectWorkloads, SelectOrders, SelectCoverage;
    var r := Select(raw, suite, focus, external);
    if r.Ok? {
      var s := raw.suites[suite];
      assert ValidSuite(raw, s);
      ReferencesDeclared(s.focuses, raw.focuses.Keys);
      var names := if focus.None? then s.workloads else Intersection(s.workloads, raw.focuses[focus.value].workloads);
      ReferencesDeclared(s.workloads, raw.workloads.Keys);
      EmptyAllowed(s.runtimes, raw.runtimes);
      SelectWorkloadsValid(raw, s, names);
    }
  }

  // --------------------------------------------- the checks as the loops they are

  /** The order stays inside the suite. */
  predicate OrderFits(raw: Raw, s: Suite, order: Name)
    requires order in raw.orders
  {
    raw.orders[order].model in s.models && AsSet(raw.orders[order].runtimes) <= AsSet(s.runtimes)
  }

  /** What is left of ValidOrders once the list itself was accepted. */
  ghost predicate OrdersFit(raw: Raw, s: Suite)
    requires forall o <- s.orders :: o in raw.orders
  {
    && (forall o <- s.orders :: OrderFits(raw, s, o))
    && OrderedModels(raw, s.orders) == AsSet(s.models)
    && OrderedRuntimes(raw, s.orders) == AsSet(s.runtimes)
  }

  lemma OrdersFitIsValid(raw: Raw, s: Suite)
    requires References(s.orders, raw.orders.Keys, false)
    ensures OrdersFit(raw, s) <==> ValidOrders(raw, s)
  {
    assert (forall m :: m in OrderedModels(raw, s.orders) <==> m in s.models) <==> OrderedModels(raw, s.orders) == AsSet(s.models);
    assert (forall r :: r in OrderedRuntimes(raw, s.orders) <==> r in s.runtimes) <==> OrderedRuntimes(raw, s.orders) == AsSet(s.runtimes);
  }

  /** The runtimes scheduled for each scheduled model. */
  function Schedule(raw: Raw, orders: seq<Name>): map<Name, set<Name>>
    requires forall o <- orders :: o in raw.orders
  {
    map m | m in OrderedModels(raw, orders) :: ModelRuntimes(raw, orders, m)
  }

  lemma ScheduledModel(raw: Raw, orders: seq<Name>, model: Name)
    requires forall o <- orders :: o in raw.orders
    ensures ModelRuntimes(raw, orders, model) == if model in Schedule(raw, orders) then Schedule(raw, orders)[model] else {}
  {}

  lemma OneMoreOrderFor(raw: Raw, orders: seq<Name>, order: Name, model: Name)
    requires forall o <- orders + [order] :: o in raw.orders
    ensures forall o <- orders :: o in raw.orders
    ensures order in raw.orders
    ensures ModelRuntimes(raw, orders + [order], model)
         == ModelRuntimes(raw, orders, model) + (if model == raw.orders[order].model then AsSet(raw.orders[order].runtimes) else {})
  {
    assert order in orders + [order];
    assert forall o <- orders :: o in orders + [order];
  }

  lemma OneMoreOrder(raw: Raw, orders: seq<Name>, order: Name)
    requires forall o <- orders + [order] :: o in raw.orders
    ensures forall o <- orders :: o in raw.orders
    ensures order in raw.orders
    ensures OrderedModels(raw, orders + [order]) == OrderedModels(raw, orders) + {raw.orders[order].model}
    ensures OrderedRuntimes(raw, orders + [order]) == OrderedRuntimes(raw, orders) + AsSet(raw.orders[order].runtimes)
  {
    assert order in orders + [order];
    assert forall o <- orders :: o in orders + [order];
  }

  lemma OneMoreScheduled(raw: Raw, orders: seq<Name>, order: Name)
    requires forall o <- orders + [order] :: o in raw.orders
    ensures forall o <- orders :: o in raw.orders
    ensures order in raw.orders
    ensures var before, model := Schedule(raw, orders), raw.orders[order].model;
            Schedule(raw, orders + [order])
            == before[model := (if model in before then before[model] else {}) + AsSet(raw.orders[order].runtimes)]
  {
    hide OrderedModels, ModelRuntimes, AsSet;
    OneMoreOrder(raw, orders, order);
    var before, after, model := Schedule(raw, orders), Schedule(raw, orders + [order]), raw.orders[order].model;
    forall m | m in after
      ensures after[m] == if m == model then (if m in before then before[m] else {}) + AsSet(raw.orders[order].runtimes) else before[m]
    {
      OneMoreOrderFor(raw, orders, order, m);
      ScheduledModel(raw, orders, m);
    }
  }

  /** Walks the suite's orders; None when one leaves the suite or the suite is not fully
      scheduled, otherwise the runtimes scheduled for each model. */
  method ScheduledRuntimes(raw: Raw, s: Suite) returns (r: Option<map<Name, set<Name>>>)
    requires forall o <- s.orders :: o in raw.orders
    ensures r.Some? <==> OrdersFit(raw, s)
    ensures r.Some? ==> r.value == Schedule(raw, s.orders)
  {
    hide OrderedModels, OrderedRuntimes, ModelRuntimes, Schedule, AsSet;
    var models: set<Name>, runtimes: set<Name> := {}, {};
    var byModel: map<Name, set<Name>> := map[];
    NothingScheduled(raw);
    for i := 0 to |s.orders|
      invariant forall o <- s.orders[..i] :: OrderFits(raw, s, o)
      invariant models == OrderedModels(raw, s.orders[..i])
      invariant runtimes == OrderedRuntimes(raw, s.orders[..i])
      invariant byModel == Schedule(raw, s.orders[..i])
    {
      var order := raw.orders[s.orders[i]];
      if order.model !in s.models || AsSet(order.runtimes) - AsSet(s.runtimes) != {} {
        assert !OrderFits(raw, s, s.orders[i]);
        return None;
      }
      assert s.orders[..i + 1] == s.orders[..i] + [s.orders[i]];
      OneMoreOrder(raw, s.orders[..i], s.orders[i]);
      OneMoreScheduled(raw, s.orders[..i], s.orders[i]);
      assert OrderFits(raw, s, s.orders[i]);
      models := models + {order.model};
      runtimes := runtimes + AsSet(order.runtimes);
      byModel := byModel[order.model := (if order.model in byModel then byModel[order.model] else {}) + AsSet(order.runtimes)];
    }
    assert s.orders[..|s.orders|] == s.orders;
    if models != AsSet(s.models) || runtimes != AsSet(s.runtimes) {
      return None;
    }
    return Some(byModel);
  }

  lemma NothingScheduled(raw: Raw)
    ensures OrderedModels(raw, []) == {} && OrderedRuntimes(raw, []) == {} && Schedule(raw, []) == map[]
  {}

  /** Walks the coverage entries and collects what they cover; false as soon as one names
      something outside the suite or something that never runs. */
  method CheckCoverage(raw: Raw, s: Suite, scheduled: map<Name, set<Name>>) returns (ok: bool)
    requires ValidOrders(raw, s) && forall o <- s.orders :: o in raw.orders
    requires scheduled == Schedule(raw, s.orders)
    ensures ok <==> s.coverage != [] && (forall c <- s.coverage :: ValidCoverage(raw, s, c)) && Covers(s.coverage, s.models, s.workloads)
  {
    hide ModelRuntimes, ValidOrders, OrderedModels, OrderedRuntimes, Schedule, AsSet;
    OrdersDeclared(raw, s);
    if s.coverage == [] {
      return false;
    }
    var models: set<Name>, workloads: set<Name> := {}, {};
    for i := 0 to |s.coverage|
      invariant forall c <- s.coverage[..i] :: ValidCoverage(raw, s, c)
      invariant models == set m | m in s.models && CoversModel(s.coverage[..i], m)
      invariant workloads == set w | w in s.workloads && CoversWorkload(s.coverage[..i], w)
    {
      var c := s.coverage[i];
      var ok1 := CheckEntry(raw, s, scheduled, c);
      if !ok1 {
        assert c in s.coverage;
        return false;
      }
      assert s.coverage[..i + 1] == s.coverage[..i] + [c];
      OneMoreEntry(s, s.coverage[..i], c);
      models := models + {c.model};
      workloads := workloads + AsSet(c.workloads);
    }
    assert s.coverage[..|s.coverage|] == s.coverage;
    ok := models == AsSet(s.models) && workloads == AsSet(s.workloads);
    CoversAll(s, s.coverage);
  }

  lemma CoversAll(s: Suite, coverage: seq<Coverage>)
    ensures Covers(coverage, s.models, s.workloads)
            <==> ((set m | m in s.models && CoversModel(coverage, m)) == AsSet(s.models)
                  && (set w | w in s.workloads && CoversWorkload(coverage, w)) == AsSet(s.workloads))
  {
    hide CoversModel, CoversWorkload;
    if (set m | m in s.models && CoversModel(coverage, m)) == AsSet(s.models) {
      forall m | m in s.models ensures CoversModel(coverage, m) { assert m in AsSet(s.models); }
    }
    if (set w | w in s.workloads && CoversWorkload(coverage, w)) == AsSet(s.workloads) {
      forall w | w in s.workloads ensures CoversWorkload(coverage, w) { assert w in AsSet(s.workloads); }
    }
  }

  lemma OneMoreEntry(s: Suite, coverage: seq<Coverage>, c: Coverage)
    requires c.model in s.models && forall w <- c.workloads :: w in s.workloads
    ensures (set m | m in s.models && CoversModel(coverage + [c], m)) == (set m | m in s.models && CoversModel(coverage, m)) + {c.model}
    ensures (set w | w in s.workloads && CoversWorkload(coverage + [c], w))
         == (set w | w in s.workloads && CoversWorkload(coverage, w)) + AsSet(c.workloads)
  {
    forall m ensures CoversModel(coverage + [c], m) <==> CoversModel(coverage, m) || m == c.model {
      assert c in coverage + [c];
    }
    forall w ensures CoversWorkload(coverage + [c], w) <==> CoversWorkload(coverage, w) || w in c.workloads {
      assert c in coverage + [c];
    }
  }

  /** The checks on one entry once its two lists were accepted. */
  method CheckEntry(raw: Raw, s: Suite, scheduled: map<Name, set<Name>>, c: Coverage) returns (ok: bool)
    requires ValidOrders(raw, s) && forall o <- s.orders :: o in raw.orders
    requires scheduled == Schedule(raw, s.orders)
    ensures ok <==> ValidCoverage(raw, s, c)
  {
    hide ModelRuntimes, Used, Runnable, References, ValidOrders, OrderedModels, AsSet;
    if c.model == "" || c.model !in raw.models || !References(c.workloads, raw.workloads.Keys, false) || c.model !in s.models {
      return false;
    }
    NothingOutside(c.workloads, s.workloads);
    if AsSet(c.workloads) - AsSet(s.workloads) != {} {
      return false;
    }
    ReferencesDeclared(c.workloads, raw.workloads.Keys);
    SuiteModelScheduled(raw, s, c.model);
    var runtimes := scheduled[c.model];
    ghost var spec := ModelRuntimes(raw, s.orders, c.model);
    assert runtimes == spec;
    if exists w <- c.workloads :: !Runnable(raw, w, runtimes) {
      return false;
    }
    ok := forall r <- runtimes :: Used(raw, c, r);
  }

  lemma NothingOutside(names: seq<Name>, choices: seq<Name>)
    ensures AsSet(names) - AsSet(choices) == {} <==> forall n <- names :: n in choices
  {
    if AsSet(names) - AsSet(choices) == {} {
      forall n | n in names ensures n in choices { assert n in AsSet(names) && n !in AsSet(names) - AsSet(choices); }
    }
  }

  lemma ReferencesDeclared(names: seq<Name>, choices: set<Name>)
    requires References(names, choices, true) || References(names, choices, false)
    ensures forall n <- names :: n in choices
  {}

  lemma SuiteModelScheduled(raw: Raw, s: Suite, model: Name)
    requires ValidOrders(raw, s) && model in s.models
    ensures model in OrderedModels(raw, s.orders)
  {}

  /** The suite checks, in the order they are made. */
  method ValidateSuite(raw: Raw, s: Suite) returns (ok: bool)
    ensures ok <==> ValidSuite(raw, s)
  {
    hide References, OrdersFit, ValidOrders, ValidCoverage, Covers;
    if !References(s.models, raw.models, false) || !References(s.workloads, raw.workloads.Keys, false)
       || !References(s.runtimes, raw.runtimes, false) {
      return false;
    }
    if !References(s.orders, raw.orders.Keys, false) {
      assert !ValidOrders(raw, s) by { NotReferenced(raw, s); }
      return false;
    }
    OrdersReferenced(raw, s);
    var scheduled := ScheduledRuntimes(raw, s);
    OrdersFitIsValid(raw, s);
    if scheduled.None? || !References(s.focuses, raw.focuses.Keys, true)
       || !(1 <= s.trials <= MAX_TRIALS) || !(1 <= s.maxModelStarts <= MAX_MODEL_STARTS) {
      return false;
    }
    var starts := 0;
    for i := 0 to |s.orders|
      invariant starts == RequiredStarts(raw, s.orders[..i])
    {
      assert s.orders[..i + 1][..i] == s.orders[..i];
      starts := starts + |raw.orders[s.orders[i]].runtimes|;
    }
    assert s.orders[..|s.orders|] == s.orders;
    if starts > s.maxModelStarts {
      return false;
    }
    ok := CheckCoverage(raw, s, scheduled.value);
  }

  lemma NotReferenced(raw: Raw, s: Suite)
    ensures ValidOrders(raw, s) ==> References(s.orders, raw.orders.Keys, false)
  {}

  lemma OrdersReferenced(raw: Raw, s: Suite)
    requires References(s.orders, raw.orders.Keys, false)
    ensures forall o <- s.orders :: o in raw.orders
  {}

  /** Collects the selected workloads one at a time, failing on the first that shares no runtime. */
  method CollectWorkloads(raw: Raw, s: Suite, names: seq<Name>) returns (r: Option<seq<SelectedWorkload>>)
    requires forall n <- names :: n in raw.workloads
    ensures r == SelectWorkloads(raw, s, names)
  {
    var values: seq<SelectedWorkload> := [];
    for i := 0 to |names|
      invariant SelectWorkloads(raw, s, names[..i]) == Some(values)
    {
      assert names[..i + 1][..i] == names[..i];
      var name := names[i];
      var runtimes := Intersection(s.runtimes, raw.workloads[name].runtimes);
      if runtimes == [] {
        NoRuntimeFails(raw, s, names, i + 1);
        return None;
      }
      values := values + [SelectedWorkload(name, raw.workloads[name].(runtimes := runtimes, trials := s.trials))];
    }
    assert names[..|names|] == names;
    return Some(values);
  }

  lemma {:induction false} NoRuntimeFails(raw: Raw, s: Suite, names: seq<Name>, n: nat)
    requires n <= |names| && forall x <- names :: x in raw.workloads
    requires SelectWorkloads(raw, s, names[..n]).None?
    ensures SelectWorkloads(raw, s, names).None?
    decreases |names| - n
  {
    if n < |names| {
      assert names[..n + 1][..n] == names[..n];
      NoRuntimeFails(raw, s, names, n + 1);
    } else {
      assert names[..n] == names;
    }
  }

  method CollectCoverage(coverage: seq<Coverage>, models: seq<Name>, workloads: seq<Name>) returns (r: seq<Coverage>)
    ensures r == SelectCoverage(coverage, models, workloads)
  {
    r := [];
    for i := 0 to |coverage|
      invariant r == SelectCoverage(coverage[..i], models, workloads)
    {
      assert coverage[..i + 1][..i] == coverage[..i];
      if coverage[i].model in models {
        var covered := Intersection(workloads, coverage[i].workloads);
        if covered != [] {
          r := r + [Coverage(coverage[i].model, covered)];
        }
      }
    }
    assert coverage[..|coverage|] == coverage;
  }
}

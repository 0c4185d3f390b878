/** Selection under a focus: exactly which focuses leave every planned execution something to run,
    and an accepted configuration with one that does not. */
module Focusing {
  import opened Basics
  import opened Configuration

  /** Some focused workload covered for the model uses the runtime. */
  predicate FocusUses(raw: Raw, s: Suite, f: Focus, model: Name, runtime: Name) {
    exists c <- s.coverage, n <- c.workloads ::
      c.model == model && n in f.workloads && n in raw.workloads && runtime in raw.workloads[n].runtimes
  }

  /** Every runtime of every order for a focused model is used so. */
  predicate FocusFitsOrders(raw: Raw, s: Suite, f: Focus) {
    forall o <- s.orders | o in raw.orders && raw.orders[o].model in f.models ::
      forall r <- raw.orders[o].runtimes :: FocusUses(raw, s, f, raw.orders[o].model, r)
  }

  /** The parts of a selection, for the models and workloads it was made for. */
  ghost predicate SelectedFor(raw: Raw, s: Suite, models: seq<Name>, names: seq<Name>, sel: Selected)
    requires (forall o <- s.orders :: o in raw.orders) && (forall n <- names :: n in raw.workloads)
  {
    && sel.orders == SelectOrders(raw, s.orders, models)
    && sel.coverage == SelectCoverage(s.coverage, models, names)
    && SelectWorkloads(raw, s, names) == Some(sel.workloads)
  }

  lemma {:induction false} OrdersSelected(raw: Raw, names: seq<Name>, models: seq<Name>, o: SelectedOrder)
    requires forall n <- names :: n in raw.orders
    ensures o in SelectOrders(raw, names, models) <==>
              && o.name in names && raw.orders[o.name].model in models
              && o == SelectedOrder(o.name, raw.orders[o.name].model, raw.orders[o.name].runtimes)
  {
    if names != [] {
      var before, last := names[..|names| - 1], names[|names| - 1];
      OrdersSelected(raw, before, models, o);
      assert names == before + [last];
    }
  }

  lemma {:induction false} WorkloadsSelected(raw: Raw, s: Suite, names: seq<Name>, w: SelectedWorkload)
    requires (forall n <- names :: n in raw.workloads) && SelectWorkloads(raw, s, names).Some?
    ensures w in SelectWorkloads(raw, s, names).value <==> w.name in names && w == Narrowed(raw, s, w.name)
  {
    hide Intersection;
    if names != [] {
      var before, last := names[..|names| - 1], names[|names| - 1];
      WorkloadsSelected(raw, s, before, w);
      assert names == before + [last];
    }
  }

  ghost predicate Lists(coverage: seq<Coverage>, model: Name, workload: Name) {
    exists c <- coverage :: c.model == model && workload in c.workloads
  }

  lemma {:induction false} CoverageSelected(coverage: seq<Coverage>, models: seq<Name>, names: seq<Name>, model: Name, workload: Name)
    ensures Lists(SelectCoverage(coverage, models, names), model, workload) <==>
              model in models && workload in names && Lists(coverage, model, workload)
  {
    hide Intersection;
    if coverage != [] {
      var before, c := coverage[..|coverage| - 1], coverage[|coverage| - 1];
      CoverageSelected(before, models, names, model, workload);
      assert coverage == before + [c];
      ListsSnoc(before, c, model, workload);
      var covered := Intersection(names, c.workloads);
      ListsSnoc(SelectCoverage(before, models, names), Coverage(c.model, covered), model, workload);
    }
  }

  lemma ListsSnoc(coverage: seq<Coverage>, c: Coverage, model: Name, workload: Name)
    ensures Lists(coverage + [c], model, workload) <==>
              Lists(coverage, model, workload) || (c.model == model && workload in c.workloads)
  {
    assert forall x :: x in coverage + [c] <==> x in coverage || x == c;
  }

  /** An execution has work exactly when a focused workload covered for its model uses its runtime. */
  lemma HasWorkIff(raw: Raw, s: Suite, f: Focus, models: seq<Name>, names: seq<Name>, sel: Selected, e: Execution)
    requires ValidSuite(raw, s) && names == Intersection(s.workloads, f.workloads)
    requires forall n <- names :: n in raw.workloads
    requires (forall o <- s.orders :: o in raw.orders) && SelectedFor(raw, s, models, names, sel)
    requires e.model in models && e.runtime in s.runtimes
    ensures WorkloadsFor(sel, sel.workloads, e) != [] <==> FocusUses(raw, s, f, e.model, e.runtime)
  {
    hide WorkloadsFor, SelectCoverage, SelectOrders, SelectWorkloads, ValidOrders, References, Covers;
    WorkloadsForOnly(sel, sel.workloads, e);
    if WorkloadsFor(sel, sel.workloads, e) != [] {
      var w := WorkloadsFor(sel, sel.workloads, e)[0];
      WorkloadsSelected(raw, s, names, w);
      CoverageSelected(s.coverage, models, names, e.model, w.name);
      assert Lists(sel.coverage, e.model, w.name);
    }
    if FocusUses(raw, s, f, e.model, e.runtime) {
      var c, n :| c in s.coverage && n in c.workloads && c.model == e.model && n in f.workloads && n in raw.workloads
                  && e.runtime in raw.workloads[n].runtimes;
      assert ValidCoverage(raw, s, c);
      var w := Narrowed(raw, s, n);
      WorkloadsSelected(raw, s, names, w);
      assert Lists(s.coverage, e.model, n);
      CoverageSelected(s.coverage, models, names, e.model, n);
      assert Runs(sel, w, e);
    }
  }

  lemma FocusedSelection(raw: Raw, suite: Name, focus: Name, external: bool) returns (models: seq<Name>, names: seq<Name>)
    requires ValidRaw(raw) && Select(raw, suite, Some(focus), external).Ok?
    ensures suite in raw.suites && focus in raw.focuses && ValidSuite(raw, raw.suites[suite])
    ensures var s, f := raw.suites[suite], raw.focuses[focus];
            && models == Intersection(s.models, f.models) && names == Intersection(s.workloads, f.workloads)
            && (forall n <- names :: n in raw.workloads) && (forall o <- s.orders :: o in raw.orders)
            && SelectedFor(raw, s, models, names, Select(raw, suite, Some(focus), external).value)
  {
    hide References, ValidWorkload, ValidCoverage, Covers, SelectWorkloads, SelectOrders, SelectCoverage, PlanLength;
    var s := raw.suites[suite];
    assert ValidSuite(raw, s);
    ReferencesDeclared(s.focuses, raw.focuses.Keys);
    ReferencesDeclared(s.workloads, raw.workloads.Keys);
    OrdersDeclared(raw, s);
    models, names := Intersection(s.models, raw.focuses[focus].models), Intersection(s.workloads, raw.focuses[focus].workloads);
  }

  /** What is planned: every runtime of every order for a focused model. */
  lemma FocusedPlan(raw: Raw, s: Suite, f: Focus, models: seq<Name>, names: seq<Name>, sel: Selected, e: Execution)
    requires ValidOrders(raw, s) && models == Intersection(s.models, f.models)
    requires forall n <- names :: n in raw.workloads
    requires (forall o <- s.orders :: o in raw.orders) && SelectedFor(raw, s, models, names, sel)
    ensures e in Plan(sel.orders) <==>
              && e.order in s.orders && e.model == raw.orders[e.order].model && e.model in f.models
              && e.runtime in raw.orders[e.order].runtimes
    ensures e in Plan(sel.orders) ==> e.model in models && e.runtime in s.runtimes
  {
    hide Plan, SelectOrders, SelectCoverage, SelectWorkloads, References;
    PlanIsComplete(sel.orders);
    if e in Plan(sel.orders) {
      var o :| o in sel.orders && e.order == o.name && e.model == o.model && e.runtime in o.runtimes;
      OrdersSelected(raw, s.orders, models, o);
    } else if e.order in s.orders {
      OrdersSelected(raw, s.orders, models, SelectedOrder(e.order, raw.orders[e.order].model, raw.orders[e.order].runtimes));
    }
  }

  lemma AppliedForFocusIff(raw: Raw, s: Suite, f: Focus, models: seq<Name>, names: seq<Name>, sel: Selected)
    requires ValidSuite(raw, s) && models == Intersection(s.models, f.models) && names == Intersection(s.workloads, f.workloads)
    requires forall n <- names :: n in raw.workloads
    requires (forall o <- s.orders :: o in raw.orders) && SelectedFor(raw, s, models, names, sel)
    ensures Applied(sel, Plan(sel.orders)) == Plan(sel.orders) <==> FocusFitsOrders(raw, s, f)
  {
    var plan := Plan(sel.orders);
    assert ValidOrders(raw, s);
    hide Plan, Applied, WorkloadsFor, SelectedFor, ValidSuite, ValidOrders, FocusUses;
    AppliedAsPlannedIff(sel, plan);
    forall e | e in plan ensures WorkloadsFor(sel, sel.workloads, e) != [] <==> FocusUses(raw, s, f, e.model, e.runtime) {
      FocusedPlan(raw, s, f, models, names, sel, e);
      HasWorkIff(raw, s, f, models, names, sel, e);
    }
    if FocusFitsOrders(raw, s, f) {
      forall e | e in plan ensures FocusUses(raw, s, f, e.model, e.runtime) {
        FocusedPlan(raw, s, f, models, names, sel, e);
      }
    }
    if forall e <- plan :: FocusUses(raw, s, f, e.model, e.runtime) {
      forall o, r | o in s.orders && raw.orders[o].model in f.models && r in raw.orders[o].runtimes
        ensures FocusUses(raw, s, f, raw.orders[o].model, r)
      {
        var e := Execution(o, raw.orders[o].model, r);
        FocusedPlan(raw, s, f, models, names, sel, e);
        assert e in plan;
      }
    }
  }

  /** The order check passes for a focus exactly when every runtime ordered for a focused model is
      used by a focused workload covered for that model. */
  lemma FocusedOrderIsAppliedIff(raw: Raw, suite: Name, focus: Name, external: bool)
    requires ValidRaw(raw) && Select(raw, suite, Some(focus), external).Ok?
    ensures suite in raw.suites && focus in raw.focuses
    ensures var sel := Select(raw, suite, Some(focus), external).value;
            Applied(sel, Plan(sel.orders)) == Plan(sel.orders) <==> FocusFitsOrders(raw, raw.suites[suite], raw.focuses[focus])
  {
    hide Select, Plan, Applied, SelectedFor, ValidRaw, ValidSuite, FocusFitsOrders;
    var models, names := FocusedSelection(raw, suite, focus, external);
    AppliedForFocusIff(raw, raw.suites[suite], raw.focuses[focus], models, names, Select(raw, suite, Some(focus), external).value);
  }

  // ------------------------------------------------- which focuses are accepted

  /** How many executions the suite's orders for focused models come to. */
  function FocusedStarts(raw: Raw, names: seq<Name>, f: Focus): nat {
    if names == [] then 0
    else
      var name := names[|names| - 1];
      FocusedStarts(raw, names[..|names| - 1], f)
      + (if name in raw.orders && raw.orders[name].model in f.models then |raw.orders[name].runtimes| else 0)
  }

  /** Something of the suite is in the focus, and everything that is has coverage inside the focus:
      each focused model an entry with a focused workload, each focused workload an entry for a
      focused model. */
  predicate FocusIsCovered(s: Suite, f: Focus) {
    Overlap(s.models, f.models) && Overlap(s.workloads, f.workloads) && ModelsHaveWork(s, f) && WorkloadsHaveModel(s, f)
  }

  predicate Overlap(a: seq<Name>, b: seq<Name>) {
    exists n <- a :: n in b
  }

  predicate ModelsHaveWork(s: Suite, f: Focus) {
    forall m <- s.models | m in f.models :: exists c <- s.coverage, n <- c.workloads :: c.model == m && n in f.workloads
  }

  predicate WorkloadsHaveModel(s: Suite, f: Focus) {
    forall n <- s.workloads | n in f.workloads :: exists c <- s.coverage :: n in c.workloads && c.model in f.models
  }

  lemma {:induction false} FocusedLength(raw: Raw, names: seq<Name>, s: Suite, f: Focus, models: seq<Name>)
    requires models == Intersection(s.models, f.models)
    requires forall o <- names :: o in raw.orders && raw.orders[o].model in s.models
    ensures PlanLength(SelectOrders(raw, names, models)) == FocusedStarts(raw, names, f)
  {
    if names != [] {
      var before, name := names[..|names| - 1], names[|names| - 1];
      FocusedLength(raw, before, s, f, models);
      var orders := SelectOrders(raw, names, models);
      assert name in names;
      if raw.orders[name].model in models {
        assert orders[..|orders| - 1] == SelectOrders(raw, before, models);
      } else {
        assert orders == SelectOrders(raw, before, models) + [] == SelectOrders(raw, before, models);
      }
    }
  }

  lemma ModelCovered(coverage: seq<Coverage>, models: seq<Name>, names: seq<Name>, model: Name)
    ensures CoversModel(SelectCoverage(coverage, models, names), model) <==>
              model in models && exists c <- coverage, n <- c.workloads :: c.model == model && n in names
  {
    var kept := SelectCoverage(coverage, models, names);
    if CoversModel(kept, model) {
      var d :| d in kept && d.model == model;
      SelectCoverageOnly(coverage, models, names, d);
      assert d.workloads[0] in d.workloads && Lists(kept, model, d.workloads[0]);
      CoverageSelected(coverage, models, names, model, d.workloads[0]);
    }
    if model in models && exists c <- coverage, n <- c.workloads :: c.model == model && n in names {
      var c, n :| c in coverage && n in c.workloads && c.model == model && n in names;
      assert Lists(coverage, model, n);
      CoverageSelected(coverage, models, names, model, n);
    }
  }

  lemma WorkloadCovered(coverage: seq<Coverage>, models: seq<Name>, names: seq<Name>, workload: Name)
    ensures CoversWorkload(SelectCoverage(coverage, models, names), workload) <==>
              workload in names && exists c <- coverage :: workload in c.workloads && c.model in models
  {
    var kept := SelectCoverage(coverage, models, names);
    if CoversWorkload(kept, workload) {
      var d :| d in kept && workload in d.workloads;
      assert Lists(kept, d.model, workload);
      CoverageSelected(coverage, models, names, d.model, workload);
    }
    if workload in names && exists c <- coverage :: workload in c.workloads && c.model in models {
      var c :| c in coverage && workload in c.workloads && c.model in models;
      assert Lists(coverage, c.model, workload);
      CoverageSelected(coverage, models, names, c.model, workload);
    }
  }

  lemma ModelsCoveredIff(s: Suite, f: Focus, models: seq<Name>, names: seq<Name>)
    requires models == Intersection(s.models, f.models) && names == Intersection(s.workloads, f.workloads)
    requires forall c <- s.coverage :: forall n <- c.workloads :: n in s.workloads
    ensures (forall m <- models :: CoversModel(SelectCoverage(s.coverage, models, names), m)) <==>
            ModelsHaveWork(s, f)
  {
    hide SelectCoverage, CoversModel;
    forall m | m in models
      ensures CoversModel(SelectCoverage(s.coverage, models, names), m) <==>
              exists c <- s.coverage, n <- c.workloads :: c.model == m && n in f.workloads
    {
      ModelCovered(s.coverage, models, names, m);
    }
  }

  lemma WorkloadsCoveredIff(s: Suite, f: Focus, models: seq<Name>, names: seq<Name>)
    requires models == Intersection(s.models, f.models) && names == Intersection(s.workloads, f.workloads)
    requires forall c <- s.coverage :: c.model in s.models
    ensures (forall n <- names :: CoversWorkload(SelectCoverage(s.coverage, models, names), n)) <==>
            WorkloadsHaveModel(s, f)
  {
    hide SelectCoverage, CoversWorkload;
    forall n | n in names
      ensures CoversWorkload(SelectCoverage(s.coverage, models, names), n) <==>
              exists c <- s.coverage :: n in c.workloads && c.model in f.models
    {
      WorkloadCovered(s.coverage, models, names, n);
    }
  }

  lemma CoveredIff(raw: Raw, s: Suite, f: Focus, models: seq<Name>, names: seq<Name>)
    requires ValidSuite(raw, s) && models == Intersection(s.models, f.models) && names == Intersection(s.workloads, f.workloads)
    ensures models != [] && names != [] && Covers(SelectCoverage(s.coverage, models, names), models, names) <==> FocusIsCovered(s, f)
  {
    hide ValidSuite, SelectCoverage, CoversModel, CoversWorkload, ModelsHaveWork, WorkloadsHaveModel, Overlap, Intersection;
    OverlapIff(s.models, f.models);
    OverlapIff(s.workloads, f.workloads);
    PartsCoveredIff(raw, s, f, models, names);
  }

  lemma PartsCoveredIff(raw: Raw, s: Suite, f: Focus, models: seq<Name>, names: seq<Name>)
    requires ValidSuite(raw, s) && models == Intersection(s.models, f.models) && names == Intersection(s.workloads, f.workloads)
    ensures Covers(SelectCoverage(s.coverage, models, names), models, names) <==> ModelsHaveWork(s, f) && WorkloadsHaveModel(s, f)
  {
    hide ValidSuite, SelectCoverage, CoversModel, CoversWorkload, ModelsHaveWork, WorkloadsHaveModel, Intersection;
    EntriesInSuite(raw, s);
    ModelsCoveredIff(s, f, models, names);
    WorkloadsCoveredIff(s, f, models, names);
  }

  lemma OverlapIff(a: seq<Name>, b: seq<Name>)
    ensures Overlap(a, b) <==> Intersection(a, b) != []
  {
    if Intersection(a, b) != [] {
      assert Intersection(a, b)[0] in a;
    }
  }

  lemma EntriesInSuite(raw: Raw, s: Suite)
    requires ValidSuite(raw, s)
    ensures forall c <- s.coverage :: c.model in s.models && forall n <- c.workloads :: n in s.workloads
  {
    OrdersDeclared(raw, s);
    hide ValidOrders, References, Covers, Used, Runnable;
    forall c <- s.coverage ensures c.model in s.models && forall n <- c.workloads :: n in s.workloads {
      assert ValidCoverage(raw, s, c);
    }
  }

  lemma FocusedSelectionIs(raw: Raw, suite: Name, focus: Name, external: bool)
    requires ValidRaw(raw) && suite in raw.suites
    ensures focus in raw.suites[suite].focuses ==> focus in raw.focuses
    ensures Select(raw, suite, Some(focus), external).Ok? ==> focus in raw.suites[suite].focuses
    ensures var s := raw.suites[suite];
            && (forall o <- s.orders :: o in raw.orders) && (forall n <- s.workloads :: n in raw.workloads)
            && (focus in s.focuses ==>
                  var f := raw.focuses[focus];
                  var models, names := Intersection(s.models, f.models), Intersection(s.workloads, f.workloads);
                  Select(raw, suite, Some(focus), external).Ok? <==>
                    && models != [] && names != [] && SelectWorkloads(raw, s, names).Some?
                    && Covers(SelectCoverage(s.coverage, models, names), models, names)
                    && (external ==> PlanLength(SelectOrders(raw, s.orders, models)) == 1))
  {
    var s := raw.suites[suite];
    assert ValidSuite(raw, s);
    ReferencesDeclared(s.focuses, raw.focuses.Keys);
    ReferencesDeclared(s.workloads, raw.workloads.Keys);
    OrdersDeclared(raw, s);
    hide References, ValidWorkload, ValidOrders, ValidCoverage, Covers, SelectWorkloads, SelectOrders, SelectCoverage, PlanLength;
  }

  /** Which focuses are accepted, for a valid configuration: those the suite lists and covers, which
      leave exactly one execution when the server is external. */
  lemma FocusIsAcceptedIff(raw: Raw, suite: Name, focus: Name, external: bool)
    requires ValidRaw(raw) && suite in raw.suites
    ensures Select(raw, suite, Some(focus), external).Ok? <==>
              var s := raw.suites[suite];
              && focus in s.focuses && focus in raw.focuses && FocusIsCovered(s, raw.focuses[focus])
              && (external ==> FocusedStarts(raw, s.orders, raw.focuses[focus]) == 1)
  {
    var s := raw.suites[suite];
    assert ValidSuite(raw, s);
    FocusedSelectionIs(raw, suite, focus, external);
    if focus in s.focuses {
      hide Select, ValidRaw;
      FocusFits(raw, s, raw.focuses[focus]);
    }
  }

  lemma FocusFits(raw: Raw, s: Suite, f: Focus)
    requires ValidSuite(raw, s)
    requires (forall o <- s.orders :: o in raw.orders) && (forall n <- s.workloads :: n in raw.workloads)
    ensures var models, names := Intersection(s.models, f.models), Intersection(s.workloads, f.workloads);
            && SelectWorkloads(raw, s, names).Some?
            && (models != [] && names != [] && Covers(SelectCoverage(s.coverage, models, names), models, names) <==> FocusIsCovered(s, f))
            && PlanLength(SelectOrders(raw, s.orders, models)) == FocusedStarts(raw, s.orders, f)
  {
    var models, names := Intersection(s.models, f.models), Intersection(s.workloads, f.workloads);
    CoveredIff(raw, s, f, models, names);
    SuiteWorkloads(raw, s);
    OrdersOfSuite(raw, s);
    hide ValidSuite, Covers, SelectCoverage, SelectWorkloads, SelectOrders, FocusIsCovered, FocusedStarts, PlanLength, Runnable;
    SelectWorkloadsAll(raw, s, names);
    FocusedLength(raw, s.orders, s, f, models);
  }

  lemma OrdersOfSuite(raw: Raw, s: Suite)
    requires ValidSuite(raw, s)
    ensures forall o <- s.orders :: o in raw.orders && raw.orders[o].model in s.models
  {
    OrdersDeclared(raw, s);
    hide References, Covers, ValidCoverage;
  }

  // ----------------------------------------- a focus can leave an execution idle

  const NARROWED: Suite := Suite(["m"], ["a", "b"], ["x", "y"], ["o"], ["f"], false, 1, 2, [Coverage("m", ["a", "b"])])

  const NARROWING: Raw :=
    Raw({"m"}, {"x", "y"},
        map["a" := Workload(["x"], "sequential", 1, 1, 1), "b" := Workload(["y"], "sequential", 1, 1, 1)],
        map["o" := Order("m", ["x", "y"])], map["f" := Focus(["m"], ["a"])], map["s" := NARROWED])

  lemma NarrowingOrders()
    ensures ModelRuntimes(NARROWING, ["o"], "m") == {"x", "y"}
    ensures OrderedModels(NARROWING, ["o"]) == {"m"} && OrderedRuntimes(NARROWING, ["o"]) == {"x", "y"}
  {
    var runtimes := NARROWING.orders["o"].runtimes;
    assert ["o"][0] == "o" && runtimes[0] == "x" && runtimes[1] == "y";
    forall r ensures r in ModelRuntimes(NARROWING, ["o"], "m") <==> r in runtimes {}
    forall r ensures r in OrderedRuntimes(NARROWING, ["o"]) <==> r in runtimes {}
    forall r ensures r in runtimes <==> r in {"x", "y"} {}
  }

  lemma NarrowingReferences()
    ensures References(["m"], {"m"}, false) && References(["x", "y"], {"x", "y"}, false) && References(["x"], {"x", "y"}, false)
    ensures References(["y"], {"x", "y"}, false) && References(["a", "b"], {"a", "b"}, false) && References(["a"], {"a", "b"}, false)
    ensures References(["o"], {"o"}, false) && References(["f"], {"f"}, true)
  {}

  lemma NarrowingKeys()
    ensures NARROWING.workloads.Keys == {"a", "b"} && NARROWING.orders.Keys == {"o"} && NARROWING.focuses.Keys == {"f"}
  {}

  lemma NarrowingUses()
    ensures Used(NARROWING, Coverage("m", ["a", "b"]), "x") && Used(NARROWING, Coverage("m", ["a", "b"]), "y")
    ensures Runnable(NARROWING, "a", {"x", "y"}) && Runnable(NARROWING, "b", {"x", "y"})
  {
    assert ["a", "b"][0] == "a" && ["a", "b"][1] == "b";
    assert NARROWING.workloads["a"].runtimes[0] == "x" && NARROWING.workloads["b"].runtimes[0] == "y";
  }

  lemma NarrowingCovers()
    ensures Covers(NARROWED.coverage, NARROWED.models, NARROWED.workloads)
  {
    var c := Coverage("m", ["a", "b"]);
    assert c.workloads[0] == "a" && c.workloads[1] == "b" && NARROWED.coverage[0] == c;
    assert CoversModel(NARROWED.coverage, "m");
    assert CoversWorkload(NARROWED.coverage, "a") && CoversWorkload(NARROWED.coverage, "b");
  }

  lemma NarrowingCoverage()
    ensures ValidCoverage(NARROWING, NARROWED, Coverage("m", ["a", "b"]))
  {
    hide Used, Runnable, References, ModelRuntimes;
    NarrowingReferences();
    NarrowingKeys();
    NarrowingOrders();
    NarrowingUses();
    var c := Coverage("m", ["a", "b"]);
    assert forall w <- c.workloads :: w == "a" || w == "b";
  }

  lemma NarrowingIsValid()
    ensures ValidRaw(NARROWING)
  {
    hide ValidCoverage, Covers, ModelRuntimes, References;
    NarrowingReferences();
    NarrowingKeys();
    NarrowingOrders();
    NarrowingCoverage();
    NarrowingCovers();
    assert ValidOrders(NARROWING, NARROWED) by { hide RequiredStarts; hide OrderedModels; hide OrderedRuntimes; }
    hide ValidOrders, OrderedModels, OrderedRuntimes;
    assert RequiredStarts(NARROWING, ["o"]) == 2 by { assert ["o"][..0] == []; }
    hide RequiredStarts;
    assert ValidSuite(NARROWING, NARROWED) by { assert forall c <- NARROWED.coverage :: c == Coverage("m", ["a", "b"]); }
    hide ValidSuite;
  }

  lemma NarrowedIntersections()
    ensures Intersection(["m"], ["m"]) == ["m"] && Intersection(["a", "b"], ["a"]) == ["a"]
    ensures Intersection(["x", "y"], ["x"]) == ["x"] && Intersection(["a"], ["a", "b"]) == ["a"]
  {
    assert ["a", "b"][..1] == ["a"] && ["x", "y"][..1] == ["x"];
    assert Intersection(["a"], ["a"]) == ["a"] && Intersection(["x"], ["x"]) == ["x"];
  }

  lemma SelectOneWorkload(raw: Raw, s: Suite, name: Name)
    requires name in raw.workloads && Intersection(s.runtimes, raw.workloads[name].runtimes) != []
    ensures var w := raw.workloads[name].(runtimes := Intersection(s.runtimes, raw.workloads[name].runtimes), trials := s.trials);
            SelectWorkloads(raw, s, [name]) == Some([SelectedWorkload(name, w)])
  {
    var names := [name];
    var before := names[..|names| - 1];
    assert before == [] && SelectWorkloads(raw, s, before) == Some([]);
    assert forall w: SelectedWorkload :: [] + [w] == [w];
  }

  lemma NarrowedParts()
    ensures SelectCoverage(NARROWED.coverage, ["m"], ["a"]) == [Coverage("m", ["a"])]
    ensures Covers([Coverage("m", ["a"])], ["m"], ["a"])
    ensures SelectOrders(NARROWING, ["o"], ["m"]) == [SelectedOrder("o", "m", ["x", "y"])]
    ensures SelectWorkloads(NARROWING, NARROWED, ["a"]) == Some([SelectedWorkload("a", Workload(["x"], "sequential", 1, 1, 1))])
  {
    hide Intersection;
    NarrowedIntersections();
    assert NARROWED.coverage[..0] == [];
    assert ["o"][..0] == [] && ["a"][..0] == [];
    assert Intersection(NARROWED.runtimes, NARROWING.workloads["a"].runtimes) == ["x"];
    SelectOneWorkload(NARROWING, NARROWED, "a");
    assert NARROWING.workloads["a"].(runtimes := ["x"], trials := 1) == Workload(["x"], "sequential", 1, 1, 1);
    assert [Coverage("m", ["a"])][0].workloads[0] == "a";
  }

  lemma NarrowedSelection() returns (sel: Selected)
    requires ValidRaw(NARROWING)
    ensures Select(NARROWING, "s", Some("f"), false) == Ok(sel)
    ensures sel.orders == [SelectedOrder("o", "m", ["x", "y"])]
    ensures sel.workloads == [SelectedWorkload("a", Workload(["x"], "sequential", 1, 1, 1))]
  {
    hide ValidRaw, Intersection, SelectOrders, SelectCoverage, SelectWorkloads, Covers, PlanLength;
    NarrowedIntersections();
    NarrowedParts();
    assert NARROWED.focuses[0] == "f";
    sel := Select(NARROWING, "s", Some("f"), false).value;
  }

  lemma NothingFor(sel: Selected, w: SelectedWorkload, e: Execution)
    requires !Runs(sel, w, e)
    ensures WorkloadsFor(sel, [w], e) == []
  {
    var ws := [w];
    var none: seq<SelectedWorkload> := [];
    assert ws[..|ws| - 1] == none && WorkloadsFor(sel, none, e) == [];
  }

  /** With a focus the guarantee stops: this configuration is accepted and its selection
      succeeds, yet one planned execution has nothing to run and is never applied. */
  lemma FocusCanIdleAnExecution()
    ensures ValidRaw(NARROWING)
    ensures var r := Select(NARROWING, "s", Some("f"), false);
            r.Ok? && Applied(r.value, Plan(r.value.orders)) != Plan(r.value.orders)
  {
    hide ValidRaw, Select, WorkloadsFor;
    NarrowingIsValid();
    var sel := NarrowedSelection();
    var e := Execution("o", "m", "y");
    PlanIsComplete(sel.orders);
    assert sel.orders[0].runtimes[1] == "y";
    assert e in Plan(sel.orders);
    NothingFor(sel, sel.workloads[0], e);
    hide Plan, Applied;
    AppliedAsPlannedIff(sel, Plan(sel.orders));
  }
}

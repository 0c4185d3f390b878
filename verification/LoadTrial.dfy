/** One load trial (python/mlx_benchmark/loadgen.py): the three submission modes, in every
    order in which requests can complete. */
module LoadTrial {
  import opened Basics
  import opened Configuration
  import Sorting

  datatype Event = Submitted(index: nat, inFlight: int) | Completed(index: nat, inFlight: int)

  type Log = seq<Event>

  datatype Request = Request(index: nat, order: nat)

  // -------------------------------------------------------- what a log says

  /** How many requests were submitted. */
  function Starts(log: Log): nat {
    if log == [] then 0 else Starts(log[..|log| - 1]) + (if log[|log| - 1].Submitted? then 1 else 0)
  }

  /** The completed requests, in order of completion. */
  function Ends(log: Log): seq<nat> {
    if log == [] then []
    else Ends(log[..|log| - 1]) + (if log[|log| - 1].Completed? then [log[|log| - 1].index] else [])
  }

  function Active(log: Log): set<nat> {
    if log == [] then {}
    else
      var before, e := Active(log[..|log| - 1]), log[|log| - 1];
      if e.Submitted? then before + {e.index} else before - {e.index}
  }

  /** The largest number in flight seen by a submission. */
  function Peak(log: Log): int {
    if log == [] then 0
    else
      var before, e := Peak(log[..|log| - 1]), log[|log| - 1];
      if e.Submitted? then Max(before, e.inFlight) else before
  }

  /** A log that can happen: indices are submitted in turn, only requests in flight complete,
      and every observation records how many are in flight after it. */
  ghost predicate Run(log: Log) {
    log != [] ==>
      var before, e := log[..|log| - 1], log[|log| - 1];
      && Run(before)
      && (if e.Submitted? then e.index == Starts(before) else e.index in Active(before))
      && e.inFlight == |Active(log)|
  }

  lemma {:induction false} ActiveWereStarted(log: Log)
    requires Run(log)
    ensures forall i <- Active(log) :: i < Starts(log)
  {
    if log != [] {
      ActiveWereStarted(log[..|log| - 1]);
    }
  }

  /** Whether a request is in flight or completed; it is both never. */
  ghost predicate Accounted(log: Log, i: nat) {
    && (i < Starts(log) <==> i in Active(log) || i in Ends(log))
    && (i in Active(log) ==> i !in Ends(log))
  }

  lemma SubmittingAccounts(before: Log, e: Event, i: nat)
    requires e.Submitted? && e.index == Starts(before) && Accounted(before, i) && Accounted(before, e.index)
    ensures Accounted(before + [e], i)
  {
    OneMore(before, e);
  }

  lemma CompletingAccounts(before: Log, e: Event, i: nat)
    requires e.Completed? && e.index in Active(before) && Accounted(before, i) && Accounted(before, e.index)
    ensures Accounted(before + [e], i)
  {
    OneMore(before, e);
    hide Starts, Active, Ends;
    assert forall x :: x in Ends(before) + [e.index] <==> x in Ends(before) || x == e.index;
  }

  lemma {:induction false} StartedIsAccounted(log: Log, i: nat)
    requires Run(log)
    ensures Accounted(log, i)
  {
    if log != [] {
      hide Accounted, Starts, Ends, Active;
      var before, e := log[..|log| - 1], log[|log| - 1];
      StartedIsAccounted(before, i);
      StartedIsAccounted(before, e.index);
      assert log == before + [e];
      if e.Submitted? {
        SubmittingAccounts(before, e, i);
      } else {
        CompletingAccounts(before, e, i);
      }
    }
  }

  lemma {:induction false} EndsAreDistinct(log: Log, j: nat, k: nat)
    requires Run(log) && j < k < |Ends(log)|
    ensures Ends(log)[j] != Ends(log)[k]
  {
    var before, e := log[..|log| - 1], log[|log| - 1];
    assert Ends(log) == if e.Completed? then Ends(before) + [e.index] else Ends(before);
    if k < |Ends(before)| {
      EndsAreDistinct(before, j, k);
    } else {
      StartedIsAccounted(before, e.index);
      assert Ends(before)[j] in Ends(before);
    }
  }

  /** Every submitted request is in flight or completed, never both, and completes only once. */
  lemma EachCompletesOnce(log: Log)
    requires Run(log)
    ensures forall i: nat :: i < Starts(log) <==> i in Active(log) || i in Ends(log)
    ensures forall i <- Active(log) :: i !in Ends(log)
    ensures forall j, k | 0 <= j < k < |Ends(log)| :: Ends(log)[j] != Ends(log)[k]
  {
    hide Run, Starts, Active, Ends;
    forall i: nat ensures i < Starts(log) <==> i in Active(log) || i in Ends(log) {
      StartedIsAccounted(log, i);
    }
    forall i | i in Active(log) ensures i !in Ends(log) {
      StartedIsAccounted(log, i);
    }
    forall j, k | 0 <= j < k < |Ends(log)| ensures Ends(log)[j] != Ends(log)[k] {
      EndsAreDistinct(log, j, k);
    }
  }

  lemma {:induction false} NoneIsLost(log: Log)
    requires Run(log)
    ensures |Ends(log)| + |Active(log)| == Starts(log)
  {
    if log != [] {
      var before, e := log[..|log| - 1], log[|log| - 1];
      NoneIsLost(before);
      ActiveWereStarted(before);
    }
  }

  lemma OneMore(log: Log, e: Event)
    ensures (log + [e])[..|log + [e]| - 1] == log
    ensures Starts(log + [e]) == Starts(log) + (if e.Submitted? then 1 else 0)
    ensures Ends(log + [e]) == Ends(log) + (if e.Completed? then [e.index] else [])
    ensures Active(log + [e]) == if e.Submitted? then Active(log) + {e.index} else Active(log) - {e.index}
    ensures Peak(log + [e]) == if e.Submitted? then Max(Peak(log), e.inFlight) else Peak(log)
  {
    assert (log + [e])[..|log + [e]| - 1] == log;
  }

  // -------------------------------------------------------------- ordering

  predicate NotAfter(a: Request, b: Request) {
    a.index <= b.index
  }

  /** The requests by index, equal ones in the order given. */
  function SortByIndex(s: seq<Request>): seq<Request> {
    Sorting.Sort(NotAfter, s)
  }

  ghost predicate Increasing(s: seq<Request>) {
    forall j, k | 0 <= j < k < |s| :: s[j].index < s[k].index
  }

  ghost predicate DistinctIndices(s: seq<Request>) {
    forall j, k | 0 <= j < k < |s| :: s[j].index != s[k].index
  }

  /** Distinct indices make the elements distinct, so each occurs once. */
  lemma {:induction false} OccursOnce(s: seq<Request>, x: Request)
    requires DistinctIndices(s)
    ensures multiset(s)[x] <= 1
  {
    if s != [] {
      var before, last := s[..|s| - 1], s[|s| - 1];
      OccursOnce(before, x);
      assert s == before + [last];
      forall k | 0 <= k < |before| ensures before[k] != last {
        assert before[k] == s[k] && s[k].index != s[|s| - 1].index;
      }
    }
  }

  lemma OccursTwice(s: seq<Request>, j: nat, k: nat)
    requires j < k < |s| && s[j] == s[k]
    ensures multiset(s)[s[k]] >= 2
  {
    assert s == s[..k] + ([s[k]] + s[k + 1..]);
    assert s[..k][j] == s[k];
    assert s[k] in multiset(s[..k]);
  }

  lemma SameIndexSameRequest(s: seq<Request>, x: Request, y: Request)
    requires DistinctIndices(s) && x in s && y in s && x.index == y.index
    ensures x == y
  {}

  lemma SortOrders(s: seq<Request>)
    requires DistinctIndices(s)
    ensures Increasing(SortByIndex(s)) && |SortByIndex(s)| == |s|
    ensures forall x :: x in SortByIndex(s) <==> x in s
  {
    hide DistinctIndices;
    var r := SortByIndex(s);
    Sorting.SortSorts(NotAfter, s);
    forall x ensures x in r <==> x in s {
      Sorting.SortHas(NotAfter, s, x);
    }
    forall j, k | 0 <= j < k < |r| ensures r[j].index < r[k].index {
      assert NotAfter(r[j], r[k]);
      OccursOnce(s, r[k]);
      if r[j] == r[k] {
        OccursTwice(r, j, k);
      }
      if r[j].index == r[k].index {
        SameIndexSameRequest(s, r[j], r[k]);
      }
    }
  }

  lemma {:induction false} IndexIsPosition(s: seq<Request>, k: nat, n: nat)
    requires Increasing(s) && |s| == n && (forall x <- s :: x.index < n) && k < n
    ensures s[k].index == k
  {
    AtLeastPosition(s, k);
    AtMostPosition(s, k, n);
  }

  lemma {:induction false} AtLeastPosition(s: seq<Request>, k: nat)
    requires Increasing(s) && k < |s|
    ensures s[k].index >= k
  {
    if k > 0 {
      AtLeastPosition(s, k - 1);
    }
  }

  lemma {:induction false} AtMostPosition(s: seq<Request>, k: nat, n: nat)
    requires Increasing(s) && |s| == n && (forall x <- s :: x.index < n) && k < n
    ensures s[k].index <= k
    decreases n - k
  {
    if k < n - 1 {
      AtMostPosition(s, k + 1, n);
    } else {
      assert s[k] in s;
    }
  }

  /** Sorting the results of every request gives the requests as they were submitted. */
  lemma SortedResults(results: seq<Request>, records: seq<Request>)
    requires |results| == |records| && DistinctIndices(results)
    requires forall i | 0 <= i < |records| :: records[i].index == i
    requires forall r <- results :: r in records
    ensures SortByIndex(results) == records
  {
    var s := SortByIndex(results);
    SortOrders(results);
    forall x | x in s ensures x.index < |records| && x == records[x.index] {
      assert x in records;
    }
    forall k | 0 <= k < |s| ensures s[k] == records[k] {
      IndexIsPosition(s, k, |records|);
      assert s[k] in s;
    }
  }

  // ------------------------------------------------------------- completions

  /** What one wait can report: some of the requests in flight, in any order. */
  ghost predicate IsBatch(batch: seq<nat>, active: set<nat>) {
    && batch != []
    && (forall i <- batch :: i in active)
    && forall j, k | 0 <= j < k < |batch| :: batch[j] != batch[k]
  }

  /** Which requests each wait reports, given those in flight. */
  type Finishing = (nat, set<nat>) -> seq<nat>

  ghost predicate Fair(finish: Finishing) {
    forall round: nat, active: set<nat> :: active != {} ==> IsBatch(finish(round, active), active)
  }

  // ------------------------------------------------------------------ trials

  class TrialState {
    const start: nat
    var log: Log
    var records: seq<Request>
    var inFlight: int
    var maximum: int

    ghost predicate Valid()
      reads this
    {
      && Run(log) && inFlight == |Active(log)| && maximum == Peak(log) && |records| == Starts(log)
      && forall i | 0 <= i < |records| :: records[i] == Request(i, start + i)
    }

    constructor (start: nat)
      ensures Valid() && this.start == start && log == []
    {
      this.start := start;
      log, records, inFlight, maximum := [], [], 0, 0;
    }

    method Submit(index: nat)
      requires Valid() && index == |records|
      modifies this
      ensures Valid() && log == old(log) + [Submitted(index, inFlight)]
      ensures inFlight == old(inFlight) + 1 && maximum == Max(old(maximum), inFlight)
      ensures records == old(records) + [Request(index, start + index)]
      ensures index !in old(Active(log)) && Active(log) == old(Active(log)) + {index}
      ensures Starts(log) == old(Starts(log)) + 1 && Ends(log) == old(Ends(log))
    {
      ActiveWereStarted(log);
      inFlight := inFlight + 1;
      maximum := Max(maximum, inFlight);
      OneMore(log, Submitted(index, inFlight));
      log := log + [Submitted(index, inFlight)];
      records := records + [Request(index, start + index)];
    }

    method Complete(index: nat)
      requires Valid() && index in Active(log)
      modifies this`inFlight, this`log
      ensures Valid() && log == old(log) + [Completed(index, inFlight)]
      ensures inFlight == old(inFlight) - 1
      ensures Active(log) == old(Active(log)) - {index}
      ensures Starts(log) == old(Starts(log)) && Ends(log) == old(Ends(log)) + [index]
    {
      inFlight := inFlight - 1;
      OneMore(log, Completed(index, inFlight));
      log := log + [Completed(index, inFlight)];
    }

    /** Each request is submitted when the one before it has completed. */
    method Sequential(count: nat) returns (results: seq<Request>)
      requires Valid() && log == []
      modifies this
      ensures Valid() && Starts(log) == count && Active(log) == {}
      ensures results == records && maximum == Min(1, count)
    {
      results := [];
      for index := 0 to count
        invariant Valid() && Starts(log) == index && Active(log) == {}
        invariant results == records && maximum == Min(1, index)
      {
        Submit(index);
        Complete(index);
        results := results + [records[index]];
      }
    }

    /** All requests at once; the results come in the order of submission. */
    method Burst(count: nat, finish: Finishing) returns (results: seq<Request>)
      requires Valid() && log == [] && Fair(finish)
      modifies this
      ensures Valid() && Starts(log) == count && Active(log) == {}
      ensures results == records && maximum == count
    {
      for index := 0 to count
        invariant Valid() && Starts(log) == index && inFlight == index && maximum == index
      {
        Submit(index);
      }
      var round := 0;
      while inFlight > 0
        invariant Valid() && Starts(log) == count && maximum == count
        decreases inFlight
      {
        var batch := finish(round, Active(log));
        Finish(batch);
        round := round + 1;
      }
      results := records;
    }

    /** Some requests in flight complete, one after the other. */
    method Finish(batch: seq<nat>)
      requires Valid() && IsBatch(batch, Active(log))
      modifies this`inFlight, this`log
      ensures Valid() && Active(log) == old(Active(log)) - (set i | i in batch)
      ensures Starts(log) == old(Starts(log)) && inFlight == old(inFlight) - |batch|
      ensures Ends(log) == old(Ends(log)) + batch
    {
      hide Active, Ends, Starts, Run, Peak;
      for k := 0 to |batch|
        invariant Valid() && Active(log) == old(Active(log)) - (set i | i in batch[..k])
        invariant Starts(log) == old(Starts(log)) && inFlight == old(inFlight) - k
        invariant Ends(log) == old(Ends(log)) + batch[..k]
      {
        assert batch[k] in batch && batch[k] !in batch[..k];
        Complete(batch[k]);
        assert batch[..k + 1] == batch[..k] + [batch[k]];
      }
      assert batch[..|batch|] == batch;
    }
  
    /** The results so far are the requests completed so far, in that order. */
    ghost predicate Collected(results: seq<Request>, missing: nat)
      reads this
    {
      && |results| + missing == |Ends(log)|
      && (forall k | 0 <= k < |results| :: Ends(log)[k] < |records|)
      && forall k | 0 <= k < |results| :: results[k] == records[Ends(log)[k]]
    }

    /** A batch's results are taken one by one, each replaced by the next request if any is left. */
    method Replace(batch: seq<nat>, count: nat, collected: seq<Request>, ghost limit: nat) returns (results: seq<Request>)
      requires Valid() && |records| <= count && inFlight + |batch| <= limit <= maximum
      requires |records| < count ==> inFlight + |batch| == limit
      requires forall k | 0 <= k < |Ends(log)| :: Ends(log)[k] < |records|
      requires |batch| <= |Ends(log)| && Ends(log)[|Ends(log)| - |batch|..] == batch && Collected(collected, |batch|)
      modifies this
      ensures Valid() && |records| <= count && inFlight <= limit && maximum == old(maximum)
      ensures |records| < count ==> inFlight == limit
      ensures |records| - old(|records|) == inFlight - old(inFlight) <= |batch|
      ensures Collected(results, 0)
    {
      hide Active, Ends, Starts, Run, Peak;
      results := collected;
      for k := 0 to |batch|
        invariant Valid() && |records| <= count && inFlight + |batch| - k <= limit && maximum == old(maximum)
        invariant |records| < count ==> inFlight + |batch| - k == limit
        invariant |records| - old(|records|) == inFlight - old(inFlight) <= k
        invariant Ends(log) == old(Ends(log)) && Collected(results, |batch| - k)
      {
        assert Ends(log)[|results|] == batch[k];
        results := results + [records[batch[k]]];
        if |records| < count {
          Submit(|records|);
        }
      }
    }

    /** A fixed number of requests is kept in flight while there are more to submit. */
    method ClosedLoop(count: nat, concurrency: nat, finish: Finishing) returns (results: seq<Request>)
      requires Valid() && log == [] && Fair(finish) && (count > 0 ==> concurrency > 0)
      modifies this
      ensures Valid() && Starts(log) == count && Active(log) == {}
      ensures Collected(results, 0) && maximum == Min(concurrency, count)
    {
      hide Active, Ends, Starts, Run, Peak;
      results := [];
      var full: nat := Min(concurrency, count);
      EmptyLog();
      while |records| < full
        invariant Valid() && |records| <= full && inFlight == |records| && maximum == |records|
        invariant Ends(log) == []
      {
        Submit(|records|);
      }
      var round := 0;
      while Active(log) != {}
        invariant Valid() && |records| <= count && inFlight <= full && maximum == full
        invariant |records| < count ==> inFlight == full
        invariant Collected(results, 0)
        decreases count - |records| + inFlight
      {
        var batch := finish(round, Active(log));
        Finish(batch);
        EndsWereStarted();
        results := Replace(batch, count, results, full);
        round := round + 1;
      }
    }

    /** Once nothing is in flight, the results are every request once. */
    lemma CollectedAll(results: seq<Request>)
      requires Valid() && Collected(results, 0) && Active(log) == {}
      ensures |results| == |records| && DistinctIndices(results) && forall r <- results :: r in records
    {
      EachCompletesOnce(log);
      NoneIsLost(log);
      EndsWereStarted();
    }

    lemma EndsWereStarted()
      requires Valid()
      ensures forall k | 0 <= k < |Ends(log)| :: Ends(log)[k] < |records|
    {
      EachCompletesOnce(log);
      assert forall k | 0 <= k < |Ends(log)| :: Ends(log)[k] in Ends(log);
    }
  }

  lemma EmptyLog()
    ensures Active([]) == {} && Ends([]) == [] && Starts([]) == 0 && Peak([]) == 0
  {}

  // ------------------------------------------------------------- whole runs

  /** The requests of a trial as they should be recorded. */
  function Expected(order: nat, count: nat): seq<Request> {
    seq(count, i requires 0 <= i < count => Request(i, order + i))
  }

  /** The most requests a mode ever has in flight. */
  function PeakOf(mode: Name, count: nat, concurrency: nat): nat {
    if mode == "sequential" then Min(1, count) else if mode == "burst" then count else Min(concurrency, count)
  }

  predicate Supported(w: Workload) {
    w.loadMode in {"sequential", "burst", "closed-loop"} && 1 <= w.concurrency && 1 <= w.requests
  }

  /** One trial in the workload's mode: whatever order the requests complete in, each index is
      submitted once and recorded once, the run's order numbers continue without a gap, and the
      peak is the mode's. */
  method ExecuteTrial(w: Workload, order: nat, finish: Finishing) returns (requests: seq<Request>, next: nat, maximum: int)
    requires Supported(w) && Fair(finish)
    ensures requests == Expected(order, w.requests) && next == order + w.requests
    ensures maximum == PeakOf(w.loadMode, w.requests, w.concurrency)
  {
    hide Run, Starts, Ends, Active, Peak, SortByIndex, Fair;
    var state := new TrialState(order);
    var results;
    if w.loadMode == "sequential" {
      results := state.Sequential(w.requests);
    } else if w.loadMode == "burst" {
      results := state.Burst(w.requests, finish);
    } else {
      results := state.ClosedLoop(w.requests, w.concurrency, finish);
      state.CollectedAll(results);
    }
    SortedResults(results, state.records);
    requests := SortByIndex(results);
    assert requests == Expected(order, w.requests);
    next := order + |state.records|;
    maximum := state.maximum;
  }

  datatype Trial = Trial(workload: Workload, index: nat, requests: seq<Request>, maximum: int)

  /** What is checked of a completed trial: the number of requests, their indices, the peak. */
  predicate TrialPasses(t: Trial) {
    && |t.requests| == t.workload.requests
    && (forall i | 0 <= i < |t.requests| :: t.requests[i].index == i)
    && t.maximum == if t.workload.loadMode == "sequential" then 1 else t.workload.concurrency
  }

  /** What the checks catch: a trial that recorded another number of requests than its workload
      asks for, a request out of its place, or another peak than the load mode prescribes. */
  lemma TrialFailsIff(t: Trial)
    ensures !TrialPasses(t) <==>
              || |t.requests| != t.workload.requests
              || (exists i | 0 <= i < |t.requests| :: t.requests[i].index != i)
              || (t.workload.loadMode == "sequential" && t.maximum != 1)
              || (t.workload.loadMode != "sequential" && t.maximum != t.workload.concurrency)
  {
  }

  /** The peak check of a completed trial passes exactly for the workloads that validation's
      concurrency rules let through. */
  lemma PeakCheckPassesIff(w: Workload, order: nat, index: nat)
    requires Supported(w)
    ensures TrialPasses(Trial(w, index, Expected(order, w.requests), PeakOf(w.loadMode, w.requests, w.concurrency)))
            <==> ((w.loadMode == "burst" ==> w.concurrency == w.requests)
                  && (w.loadMode == "closed-loop" ==> w.concurrency <= w.requests))
  {}

  function Range(from: nat, count: nat): seq<nat> {
    seq(count, i requires 0 <= i < count => from + i)
  }

  function OrdersOf(requests: seq<Request>): seq<nat> {
    seq(|requests|, i requires 0 <= i < |requests| => requests[i].order)
  }

  /** The order numbers of a run, trial after trial. */
  function Orders(trials: seq<Trial>): seq<nat> {
    if trials == [] then [] else Orders(trials[..|trials| - 1]) + OrdersOf(trials[|trials| - 1].requests)
  }

  /** How many requests the trials recorded. */
  function RequestCount(trials: seq<Trial>): nat {
    if trials == [] then 0 else RequestCount(trials[..|trials| - 1]) + |trials[|trials| - 1].requests|
  }

  lemma OneMoreTrial(trials: seq<Trial>, t: Trial)
    requires Orders(trials) == Range(0, RequestCount(trials))
    requires t.requests == Expected(RequestCount(trials), |t.requests|)
    ensures RequestCount(trials + [t]) == RequestCount(trials) + |t.requests|
    ensures Orders(trials + [t]) == Range(0, RequestCount(trials + [t]))
  {
    assert (trials + [t])[..|trials + [t]| - 1] == trials;
  }

  /** Which trials a list of workloads asks for: each workload's, in order, from 0. */
  function Asked(workloads: seq<Workload>): seq<(Workload, nat)> {
    if workloads == [] then []
    else Asked(workloads[..|workloads| - 1]) + TrialsOf(workloads[|workloads| - 1], workloads[|workloads| - 1].trials)
  }

  function TrialsOf(w: Workload, count: int): seq<(Workload, nat)> {
    seq(if count < 0 then 0 else count, i requires 0 <= i => (w, i))
  }

  /** Which trials were run. */
  function Ran(trials: seq<Trial>): seq<(Workload, nat)> {
    seq(|trials|, i requires 0 <= i < |trials| => (trials[i].workload, trials[i].index))
  }

  /** Which trials a plan asks for. */
  function PlannedTrials(sel: Selected, plan: seq<Execution>): seq<(Workload, nat)> {
    if plan == [] then []
    else PlannedTrials(sel, plan[..|plan| - 1]) + Asked(Values(WorkloadsFor(sel, sel.workloads, plan[|plan| - 1])))
  }

  function Values(selected: seq<SelectedWorkload>): seq<Workload> {
    seq(|selected|, i requires 0 <= i < |selected| => selected[i].values)
  }

  /** Every trial of every workload of one execution, numbering on from what was run before. */
  method ExecuteWorkloads(workloads: seq<Workload>, before: seq<Trial>, finish: nat -> Finishing) returns (trials: seq<Trial>)
    requires forall w <- workloads :: Supported(w) && CheckedLoad(w)
    requires forall n: nat :: Fair(finish(n))
    requires Orders(before) == Range(0, RequestCount(before)) && forall t <- before :: TrialPasses(t)
    ensures before <= trials && Ran(trials) == Ran(before) + Asked(workloads)
    ensures Orders(trials) == Range(0, RequestCount(trials))
    ensures forall t <- trials :: TrialPasses(t)
  {
    hide Orders, RequestCount, Fair;
    trials := before;
    var order := RequestCount(before);
    assert Ran(trials) == Ran(before) + Asked(workloads[..0]);
    for k := 0 to |workloads|
      invariant Ran(trials) == Ran(before) + Asked(workloads[..k])
      invariant before <= trials && Orders(trials) == Range(0, RequestCount(trials)) && order == RequestCount(trials)
      invariant forall t <- trials :: TrialPasses(t)
    {
      var w := workloads[k];
      assert w in workloads;
      var index := 0;
      ghost var ran := Ran(trials);
      assert ran == ran + TrialsOf(w, 0);
      while index < w.trials
        invariant index <= Max(0, w.trials) && Ran(trials) == ran + TrialsOf(w, index)
        invariant before <= trials && Orders(trials) == Range(0, RequestCount(trials)) && order == RequestCount(trials)
        invariant forall t <- trials :: TrialPasses(t)
        decreases w.trials - index
      {
        var requests, next, maximum := ExecuteTrial(w, order, finish(|trials|));
        PeakCheckPassesIff(w, order, index);
        OneMoreTrial(trials, Trial(w, index, requests, maximum));
        trials := trials + [Trial(w, index, requests, maximum)];
        assert TrialsOf(w, index + 1) == TrialsOf(w, index) + [(w, index)];
        assert Ran(trials) == ran + TrialsOf(w, index) + [(w, index)];
        order := next;
        index := index + 1;
      }
      assert workloads[..k + 1][..k] == workloads[..k];
      assert TrialsOf(w, index) == TrialsOf(w, w.trials);
    }
    assert workloads[..|workloads|] == workloads;
  }

  predicate CheckedLoad(w: Workload) {
    && (w.loadMode == "burst" ==> w.concurrency == w.requests)
    && (w.loadMode == "closed-loop" ==> w.concurrency <= w.requests)
  }

  /** A whole run over the plan of a selection: when the configuration was accepted, no trial
      check and no order check can fire, in any order of completions. */
  method ExecutePlan(ghost raw: Raw, ghost suite: Name, ghost focus: Option<Name>, ghost external: bool,
                     sel: Selected, finish: (nat, nat) -> Finishing)
    returns (trials: seq<Trial>)
    requires ValidRaw(raw) && Select(raw, suite, focus, external) == Ok(sel)
    requires forall e: nat, n: nat :: Fair(finish(e, n))
    ensures Ran(trials) == PlannedTrials(sel, Plan(sel.orders))
    ensures Orders(trials) == Range(0, |Orders(trials)|)
    ensures forall t <- trials :: TrialPasses(t)
  {
    hide Orders, RequestCount, Fair, WorkloadsFor, Select, ValidRaw, Plan;
    SelectedAreValid(raw, suite, focus, external);
    var plan := Plan(sel.orders);
    trials := [];
    NothingRun();
    for k := 0 to |plan|
      invariant Ran(trials) == PlannedTrials(sel, plan[..k])
      invariant Orders(trials) == Range(0, RequestCount(trials))
      invariant forall t <- trials :: TrialPasses(t)
    {
      assert plan[..k + 1][..k] == plan[..k];
      var selected := WorkloadsFor(sel, sel.workloads, plan[k]);
      if selected != [] {
        WorkloadsForOnly(sel, sel.workloads, plan[k]);
        var workloads := Values(selected);
        forall w | w in workloads ensures Supported(w) && CheckedLoad(w) {
          var i :| 0 <= i < |workloads| && workloads[i] == w;
          assert selected[i] in selected;
        }
        trials := ExecuteWorkloads(workloads, trials, n => finish(k, n));
      }
    }
    assert plan[..|plan|] == plan;
    assert |Orders(trials)| == RequestCount(trials);
  }

  lemma NothingRun()
    ensures Orders([]) == Range(0, RequestCount([]))
  {}
}

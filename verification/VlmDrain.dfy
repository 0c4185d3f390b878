/** Draining the vision-language scheduler: the queue moves on across changes of the sampling
    setting, and ticking empties it once nothing more is submitted. */
module VlmDrain {
  import opened Basics
  import opened Generation
  import opened RequestBoard
  import opened VlmScheduler

  datatype TickInput = TickInput(responses: seq<VlmResponse>, prepare: Preparer, uids: seq<Uid>)

  function TickWith(cfg: Config, s: State, t: TickInput): State {
    Tick(cfg, s, t.responses, t.prepare, t.uids).0
  }

  ghost predicate Obeys(cfg: Config, s: State, t: TickInput) {
    GeneratorObeys(cfg, s, DoTick(t.responses, t.prepare, t.uids))
  }

  type Ticks = nat -> TickInput

  function After(cfg: Config, s: State, ticks: Ticks, n: nat): (s': State)
    ensures s'.board.next == s.board.next
  {
    if n == 0 then s else TickWith(cfg, After(cfg, s, ticks, n - 1), ticks(n - 1))
  }

  /** Work each ticket will cause in the generator, plus one for each of the jobs. */
  function Load(jobs: seq<Job>, cost: nat -> nat): nat {
    if jobs == [] then 0 else 1 + cost(jobs[0].ticket) + Load(jobs[1..], cost)
  }

  lemma {:induction false} LoadAppend(a: seq<Job>, b: seq<Job>, cost: nat -> nat)
    ensures Load(a + b, cost) == Load(a, cost) + Load(b, cost)
  {
    if a == [] {
      assert a + b == b;
    } else {
      LoadAppend(a[1..], b, cost);
      assert (a + b)[1..] == a[1..] + b;
    }
  }

  lemma LoadWithout(jobs: seq<Job>, i: nat, cost: nat -> nat)
    requires i < |jobs|
    ensures Load(jobs, cost) == Load(Without(jobs, i), cost) + 1 + cost(jobs[i].ticket)
  {
    assert jobs == jobs[..i] + jobs[i..];
    LoadAppend(jobs[..i], jobs[i..], cost);
    LoadAppend(jobs[..i], jobs[i + 1..], cost);
    assert jobs[i..][1..] == jobs[i + 1..];
  }

  lemma LoadSnoc(jobs: seq<Job>, j: Job, cost: nat -> nat)
    ensures Load(jobs + [j], cost) == Load(jobs, cost) + 1 + cost(j.ticket)
  {
    LoadAppend(jobs, [j], cost);
    assert Load([j], cost) == 1 + cost(j.ticket) + Load([j][1..], cost);
  }

  lemma ExamineLoad(b: Board, prepare: Preparer, i: nat, cost: nat -> nat)
    requires i < |b.pending|
    ensures var b' := Examine(b, prepare, i);
            Load(b'.pending, cost) + Load(b'.held, cost) <= Load(b.pending, cost) + Load(b.held, cost)
  {
    hide Load, Without;
    LoadWithout(b.pending, i, cost);
    match prepare(b.pending[i])
    case Ready(prompt, cached) => LoadSnoc(b.held, b.pending[i].(prompt := prompt, cached := cached), cost);
    case _ =>
  }

  /** Going through the queue moves load into the batch or drops it, and takes a head of the
      given setting off the queue. */
  lemma {:induction false} ScanLoad(cfg: Config, b: Board, key: Sampling, prepare: Preparer, i: nat, cost: nat -> nat)
    requires i <= |b.pending|
    ensures var b' := Scan(cfg, b, key, prepare, i);
            && Load(b'.pending, cost) + Load(b'.held, cost) <= Load(b.pending, cost) + Load(b.held, cost)
            && |b'.pending| <= |b.pending|
            && (i < |b.pending| && b.pending[i].request.sampling == key && |b.active| + |b.held| < cfg.decodeConcurrency
                ==> |b'.pending| < |b.pending|)
    decreases |b.pending| - i
  {
    hide Examine, Load;
    if i == |b.pending| || |b.active| + |b.held| >= cfg.decodeConcurrency {
    } else if b.pending[i].request.sampling != key {
      ScanLoad(cfg, b, key, prepare, i + 1, cost);
    } else {
      ExamineLoad(b, prepare, i, cost);
      if |Examine(b, prepare, i).held| < cfg.promptConcurrency {
        ScanLoad(cfg, Examine(b, prepare, i), key, prepare, i, cost);
      }
    }
  }

  lemma {:induction false} LoadAtLeast(jobs: seq<Job>, cost: nat -> nat)
    ensures Load(jobs, cost) >= |jobs|
  {
    if jobs != [] {
      LoadAtLeast(jobs[1..], cost);
    }
  }

  lemma {:induction false} ScanCounts(cfg: Config, b: Board, key: Sampling, prepare: Preparer, i: nat)
    requires i <= |b.pending|
    ensures var b' := Scan(cfg, b, key, prepare, i);
            b'.active == b.active && |b'.pending| + |b'.held| <= |b.pending| + |b.held|
    decreases |b.pending| - i
  {
    if i == |b.pending| || |b.active| + |b.held| >= cfg.decodeConcurrency {
    } else if b.pending[i].request.sampling != key {
      ScanCounts(cfg, b, key, prepare, i + 1);
    } else if |Examine(b, prepare, i).held| < cfg.promptConcurrency {
      ScanCounts(cfg, Examine(b, prepare, i), key, prepare, i);
    }
  }

  /** With nothing running and room for a job, one tick takes something off the queue, or closes
      a generator that was kept for another sampling setting. */
  lemma RestingTick(cfg: Config, s: State, t: TickInput)
    requires cfg.decodeConcurrency >= 1 && Inv(cfg, s) && Obeys(cfg, s, t)
    requires s.board.active == [] && s.board.pending != []
    ensures var s' := TickWith(cfg, s, t);
            && |s'.board.pending| <= |s.board.pending|
            && (|s'.board.pending| < |s.board.pending|
                || (s.generator.Some? && s'.generator.None? && s'.board.active == []))
  {
    assert s.board.held == [];
    hide Inv, Scan, Accounted, JobsRight;
    assert Polled(cfg, s, t.responses) == s;
    var key, b := AdmissionKey(s).value, Scanned(cfg, s, t.prepare);
    ScanLoad(cfg, s.board, key, t.prepare, 0, _ => 0);
    ScanCounts(cfg, s.board, key, t.prepare, 0);
    if b.held != [] {
      assert FreshUids(b, t.uids);
      StartNKeepsPending(b, t.uids, |s.heard|);
    }
  }

  /** Whatever sampling settings are waiting: from nothing running and something waiting, two
      ticks take at least one request off the queue. */
  lemma TwoTicksMoveTheQueue(cfg: Config, s: State, t1: TickInput, t2: TickInput)
    requires cfg.decodeConcurrency >= 1 && Inv(cfg, s)
    requires Obeys(cfg, s, t1) && Obeys(cfg, TickWith(cfg, s, t1), t2)
    requires s.board.active == [] && s.board.pending != []
    ensures |TickWith(cfg, TickWith(cfg, s, t1), t2).board.pending| < |s.board.pending|
  {
    hide Inv, Tick;
    RestingTick(cfg, s, t1);
    var s1 := TickWith(cfg, s, t1);
    StepKeeps(cfg, s, DoTick(t1.responses, t1.prepare, t1.uids));
    assert Inv(cfg, s1);
    QueueOnlyShrinks(cfg, s1, t2);
    if |s1.board.pending| == |s.board.pending| {
      RestingTick(cfg, s1, t2);
    }
  }

  lemma QueueOnlyShrinks(cfg: Config, s: State, t: TickInput)
    requires Inv(cfg, s)
    ensures |TickWith(cfg, s, t).board.pending| <= |s.board.pending|
  {
    hide Inv, Polled, AdmissionKey, Load, StartN, Scan;
    PolledKeeps(cfg, s, t.responses);
    var p := Polled(cfg, s, t.responses);
    if p.board.pending != [] && AdmissionKey(p).Some? {
      ScanLoad(cfg, p.board, AdmissionKey(p).value, t.prepare, 0, _ => 0);
      StartNKeepsPending(Scanned(cfg, p, t.prepare), t.uids, |p.heard|);
    }
  }

  // --------------------------------------------------------------- draining

  /** While draining the generator answers inserts properly, every poll of running jobs uses up
      work, and starting a batch adds at most what its jobs cost. */
  ghost predicate Progresses(cfg: Config, s: State, ticks: Ticks, cost: nat -> nat, work: nat -> nat, n: nat) {
    var before := After(cfg, s, ticks, n);
    && Obeys(cfg, before, ticks(n))
    && work(n + 1) + (if before.board.active != [] then 1 else 0)
       <= work(n) + Load(Scanned(cfg, Polled(cfg, before, ticks(n).responses), ticks(n).prepare).held, cost)
  }

  ghost predicate AlwaysProgresses(cfg: Config, s: State, ticks: Ticks, cost: nat -> nat, work: nat -> nat) {
    forall n: nat :: Progresses(cfg, s, ticks, cost, work, n)
  }

  /** A generator left over with nothing to run costs one tick to close. */
  function Leftover(s: State): nat {
    if s.generator.Some? && s.board.active == [] then 1 else 0
  }

  /** Work still to do, the load of the queue, its length, and a leftover generator. */
  function Measure(s: State, cost: nat -> nat, work: nat): nat {
    work + Load(s.board.pending, cost) + |s.board.pending| + Leftover(s)
  }

  lemma HeldLoadIsWork(cfg: Config, s: State, prepare: Preparer, uids: seq<Uid>, cost: nat -> nat)
    requires Inv(cfg, s)
    requires var b := Scanned(cfg, s, prepare); b.held != [] ==> FreshUids(b, uids)
    ensures var b, s' := Scanned(cfg, s, prepare), AdmitPending(cfg, s, prepare, uids).0;
            && s'.board.pending == b.pending
            && Load(s'.board.pending, cost) + Load(b.held, cost) <= Load(s.board.pending, cost)
            && |s'.board.pending| <= |s.board.pending|
  {
    assert s.board.held == [];
    hide Inv, Scan, Accounted, JobsRight;
    if s.board.pending != [] && |s.board.active| < cfg.decodeConcurrency && AdmissionKey(s).Some? {
      var b := Scanned(cfg, s, prepare);
      ScanLoad(cfg, s.board, AdmissionKey(s).value, prepare, 0, cost);
      StartNKeepsPending(b, uids, |s.heard|);
    }
  }

  /** After a tick a generator without running jobs is gone, if it could have been used at all. */
  lemma NoLeftoverAfterTick(cfg: Config, s: State, prepare: Preparer, uids: seq<Uid>)
    requires Inv(cfg, s) && cfg.decodeConcurrency >= 1
    requires s.board.pending != [] || s.generator.None? || s.board.active != []
    requires var b := Scanned(cfg, s, prepare); b.held != [] ==> FreshUids(b, uids)
    ensures Leftover(AdmitPending(cfg, s, prepare, uids).0) == 0
  {
    assert s.board.held == [];
    hide Inv, Scan, Accounted, JobsRight;
    if s.board.pending != [] && |s.board.active| < cfg.decodeConcurrency && AdmissionKey(s).Some? {
      var b := Scanned(cfg, s, prepare);
      ScanCounts(cfg, s.board, AdmissionKey(s).value, prepare, 0);
      if b.held != [] {
        StartedIsRunning(b, uids, |s.heard|, |uids|);
      }
    }
  }

  lemma {:induction false} StartedIsRunning(b: Board, uids: seq<Uid>, since: nat, n: nat)
    requires n <= |uids| && n <= |b.held|
    ensures n > 0 ==> StartN(b, uids, since, n).active != []
  {
    if n > 0 {
      StartedIsRunning(b, uids, since, n - 1);
    }
  }

  /** A tick of a busy scheduler brings the measure down by at least one. */
  lemma BusyTickShrinks(cfg: Config, s: State, ticks: Ticks, cost: nat -> nat, work: nat -> nat, n: nat)
    requires cfg.decodeConcurrency >= 1
    requires Inv(cfg, After(cfg, s, ticks, n)) && Progresses(cfg, s, ticks, cost, work, n)
    ensures Inv(cfg, After(cfg, s, ticks, n + 1))
    ensures !Idle(After(cfg, s, ticks, n)) ==>
              Measure(After(cfg, s, ticks, n + 1), cost, work(n + 1)) < Measure(After(cfg, s, ticks, n), cost, work(n))
    ensures Idle(After(cfg, s, ticks, n)) ==> Idle(After(cfg, s, ticks, n + 1))
  {
    var now, t := After(cfg, s, ticks, n), ticks(n);
    StepKeeps(cfg, now, DoTick(t.responses, t.prepare, t.uids));
    PolledKeeps(cfg, now, t.responses);
    var polled := Polled(cfg, now, t.responses);
    assert polled.board.pending != [] || polled.generator.None? || polled.board.active != [];
    hide Inv, Scanned, Load;
    if !(now.generator.None? && now.board.pending == []) {
      HeldLoadIsWork(cfg, polled, t.prepare, t.uids, cost);
      NoLeftoverAfterTick(cfg, polled, t.prepare, t.uids);
      if now.board.active == [] && now.board.pending != [] {
        RestingTick(cfg, now, t);
      }
    }
  }

  lemma ProgressesAt(cfg: Config, s: State, ticks: Ticks, cost: nat -> nat, work: nat -> nat, n: nat)
    requires AlwaysProgresses(cfg, s, ticks, cost, work)
    ensures Progresses(cfg, s, ticks, cost, work, n)
  {
    hide Progresses;
  }

  lemma {:induction false} BusyUntilMeasure(cfg: Config, s: State, ticks: Ticks, cost: nat -> nat, work: nat -> nat, n: nat)
    requires cfg.decodeConcurrency >= 1 && Inv(cfg, s) && AlwaysProgresses(cfg, s, ticks, cost, work)
    ensures Inv(cfg, After(cfg, s, ticks, n))
    ensures Idle(After(cfg, s, ticks, n)) || Measure(After(cfg, s, ticks, n), cost, work(n)) + n <= Measure(s, cost, work(0))
  {
    hide Inv, AlwaysProgresses, Progresses, Measure, Idle, TickWith;
    if n > 0 {
      BusyUntilMeasure(cfg, s, ticks, cost, work, n - 1);
      ProgressesAt(cfg, s, ticks, cost, work, n - 1);
      BusyTickShrinks(cfg, s, ticks, cost, work, n - 1);
    }
  }

  /** Whenever the scheduler is found idle, every request ever submitted was answered, once. */
  lemma IdleIsAnswered(cfg: Config, s: State, ticks: Ticks, cost: nat -> nat, work: nat -> nat, n: nat)
    requires cfg.decodeConcurrency >= 1
    requires Inv(cfg, s) && AlwaysProgresses(cfg, s, ticks, cost, work) && Idle(After(cfg, s, ticks, n))
    ensures forall t: nat | t < s.board.next :: Answers(After(cfg, s, ticks, n).board.log, t) == 1
  {
    hide AlwaysProgresses, Measure;
    BusyUntilMeasure(cfg, s, ticks, cost, work, n);
    NobodyIsHeld(After(cfg, s, ticks, n).board);
  }

  /** Draining terminates: with nothing more submitted, the scheduler is idle after more ticks
      than the generator's work plus the load of the queue (each waiting request counted once
      more, and a leftover generator once), whatever the generator and the preparations answer;
      then every request ever submitted was answered, once. */
  lemma DrainReachesIdle(cfg: Config, s: State, ticks: Ticks, cost: nat -> nat, work: nat -> nat, n: nat)
    requires cfg.decodeConcurrency >= 1 && Inv(cfg, s) && AlwaysProgresses(cfg, s, ticks, cost, work)
    requires n > Measure(s, cost, work(0))
    ensures Idle(After(cfg, s, ticks, n))
    ensures forall t: nat | t < s.board.next :: Answers(After(cfg, s, ticks, n).board.log, t) == 1
  {
    BusyUntilMeasure(cfg, s, ticks, cost, work, n);
    IdleIsAnswered(cfg, s, ticks, cost, work, n);
  }
}

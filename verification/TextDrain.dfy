/** Draining the text scheduler: once nothing more is submitted, ticking empties it, and after
    how many ticks. */
module TextDrain {
  import opened Generation
  import opened RequestBoard
  import opened TextScheduler

  /** What the generator answers at each tick. */
  type Ticks = nat -> (seq<Response>, seq<Uid>)

  /** The state after n ticks. */
  function After(cfg: Config, s: State, ticks: Ticks, n: nat): (s': State)
    ensures s'.board.next == s.board.next
  {
    if n == 0 then s else Tick(cfg, After(cfg, s, ticks, n - 1), ticks(n - 1).0, ticks(n - 1).1).0
  }

  /** Generator work a set of jobs will cause, plus one for each of them. */
  function Load(jobs: seq<Job>, cost: Job -> nat): nat {
    if jobs == [] then 0 else 1 + cost(jobs[0]) + Load(jobs[1..], cost)
  }

  function Cost(jobs: seq<Job>, cost: Job -> nat): nat {
    if jobs == [] then 0 else cost(jobs[0]) + Cost(jobs[1..], cost)
  }

  lemma {:induction false} LoadSplits(jobs: seq<Job>, n: nat, cost: Job -> nat)
    requires n <= |jobs|
    ensures Load(jobs, cost) == n + Cost(jobs[..n], cost) + Load(jobs[n..], cost)
  {
    if n > 0 {
      LoadSplits(jobs[1..], n - 1, cost);
      assert jobs[..n][1..] == jobs[1..][..n - 1] && jobs[1..][n - 1..] == jobs[n..];
    }
  }

  /** The generator's contract while draining: it answers inserts properly, every poll of running
      streams uses up work, and an insert adds at most what the inserted jobs cost. */
  ghost predicate Progresses(cfg: Config, s: State, ticks: Ticks, cost: Job -> nat, work: nat -> nat, n: nat) {
    var before := After(cfg, s, ticks, n);
    var polled := Polled(cfg, before, ticks(n).0);
    && GeneratorObeys(cfg, before, DoTick(ticks(n).0, ticks(n).1))
    && work(n + 1) + (if before.board.active != [] then 1 else 0)
       <= work(n) + Cost(polled.board.pending[..BatchSize(cfg, polled)], cost)
  }

  ghost predicate AlwaysProgresses(cfg: Config, s: State, ticks: Ticks, cost: Job -> nat, work: nat -> nat) {
    forall n: nat :: Progresses(cfg, s, ticks, cost, work, n)
  }

  function Measure(s: State, cost: Job -> nat, work: nat): nat {
    work + Load(s.board.pending, cost)
  }

  lemma TickKeepsPendingUntilAdmission(cfg: Config, s: State, responses: seq<Response>)
    requires Inv(cfg, s)
    ensures Inv(cfg, Polled(cfg, s, responses))
    ensures Polled(cfg, s, responses).board.pending == s.board.pending
  {
    if s.board.active != [] && s.generator {
      DeliverAllKeeps(cfg, s, responses);
    }
  }

  /** A tick of a busy scheduler brings the measure down by at least one. */
  lemma BusyTickShrinks(cfg: Config, s: State, ticks: Ticks, cost: Job -> nat, work: nat -> nat, n: nat)
    requires cfg.promptConcurrency >= 1 && cfg.decodeConcurrency >= 1
    requires Inv(cfg, After(cfg, s, ticks, n)) && Progresses(cfg, s, ticks, cost, work, n)
    ensures Inv(cfg, After(cfg, s, ticks, n + 1))
    ensures !Idle(After(cfg, s, ticks, n)) ==>
              Measure(After(cfg, s, ticks, n + 1), cost, work(n + 1)) < Measure(After(cfg, s, ticks, n), cost, work(n))
    ensures Idle(After(cfg, s, ticks, n)) ==> Idle(After(cfg, s, ticks, n + 1))
  {
    var now, responses, uids := After(cfg, s, ticks, n), ticks(n).0, ticks(n).1;
    StepKeeps(cfg, now, DoTick(responses, uids));
    TickKeepsPendingUntilAdmission(cfg, now, responses);
    var polled := Polled(cfg, now, responses);
    if now.generator || now.board.pending != [] {
      AdmissionTakesTheHead(cfg, polled, uids);
      LoadSplits(now.board.pending, BatchSize(cfg, polled), cost);
    }
  }

  lemma ProgressesAt(cfg: Config, s: State, ticks: Ticks, cost: Job -> nat, work: nat -> nat, n: nat)
    requires AlwaysProgresses(cfg, s, ticks, cost, work)
    ensures Progresses(cfg, s, ticks, cost, work, n)
  {
    hide Progresses;
  }

  lemma {:induction false} BusyUntilMeasure(cfg: Config, s: State, ticks: Ticks, cost: Job -> nat, work: nat -> nat, n: nat)
    requires cfg.promptConcurrency >= 1 && cfg.decodeConcurrency >= 1
    requires Inv(cfg, s) && AlwaysProgresses(cfg, s, ticks, cost, work)
    ensures Inv(cfg, After(cfg, s, ticks, n))
    ensures Idle(After(cfg, s, ticks, n)) || Measure(After(cfg, s, ticks, n), cost, work(n)) + n <= Measure(s, cost, work(0))
  {
    hide Inv, AlwaysProgresses, Progresses, Measure, Idle, Tick;
    if n > 0 {
      BusyUntilMeasure(cfg, s, ticks, cost, work, n - 1);
      ProgressesAt(cfg, s, ticks, cost, work, n - 1);
      BusyTickShrinks(cfg, s, ticks, cost, work, n - 1);
    }
  }

  /** Whenever the scheduler is found idle, every request ever submitted was answered, once. */
  lemma IdleIsAnswered(cfg: Config, s: State, ticks: Ticks, cost: Job -> nat, work: nat -> nat, n: nat)
    requires cfg.promptConcurrency >= 1 && cfg.decodeConcurrency >= 1
    requires Inv(cfg, s) && AlwaysProgresses(cfg, s, ticks, cost, work) && Idle(After(cfg, s, ticks, n))
    ensures forall t: nat | t < s.board.next :: Answers(After(cfg, s, ticks, n).board.log, t) == 1
  {
    hide AlwaysProgresses, Measure;
    BusyUntilMeasure(cfg, s, ticks, cost, work, n);
    NobodyIsHeld(After(cfg, s, ticks, n).board);
  }

  /** Draining terminates: from any reachable state, with nothing more submitted, the scheduler
      is idle after at most (work of the generator + load of the queue) + 1 ticks, whatever the
      generator's answers, and stays idle; then every request ever submitted was answered, once. */
  lemma DrainReachesIdle(cfg: Config, s: State, ticks: Ticks, cost: Job -> nat, work: nat -> nat, n: nat)
    requires cfg.promptConcurrency >= 1 && cfg.decodeConcurrency >= 1
    requires Inv(cfg, s) && AlwaysProgresses(cfg, s, ticks, cost, work)
    requires n > Measure(s, cost, work(0))
    ensures Idle(After(cfg, s, ticks, n))
    ensures forall t: nat | t < s.board.next :: Answers(After(cfg, s, ticks, n).board.log, t) == 1
  {
    BusyUntilMeasure(cfg, s, ticks, cost, work, n);
    IdleIsAnswered(cfg, s, ticks, cost, work, n);
  }
}

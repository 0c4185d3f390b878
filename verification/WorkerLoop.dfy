/** The worker's rounds (python/mlx_worker/main.py): both schedulers ticked once a round, in an
    order that alternates, until both are idle after the input has ended. */
module WorkerLoop {
  import opened Basics
  import opened Generation
  import opened ContinuousBatching
  import opened VlmBatching
  import T = TextScheduler
  import V = VlmScheduler
  import TD = TextDrain
  import VD = VlmDrain
  import R = RequestBoard

  const MAX_CONSECUTIVE: nat := 4

  /** Who is ticked first, and for how many rounds in a row with both of them busy. */
  datatype Turns = Turns(textFirst: bool, consecutive: nat)

  function NextTurn(t: Turns, bothReady: bool): Turns {
    if bothReady && t.consecutive + 1 < MAX_CONSECUTIVE then t.(consecutive := t.consecutive + 1)
    else Turns(!t.textFirst, 0)
  }

  function TurnAfter(t: Turns, ready: nat -> bool, n: nat): Turns {
    if n == 0 then t else NextTurn(TurnAfter(t, ready, n - 1), ready(n - 1))
  }

  lemma {:induction false} SameTurnCounts(t: Turns, ready: nat -> bool, n: nat)
    requires forall k: nat | k <= n :: TurnAfter(t, ready, k).textFirst == t.textFirst
    ensures TurnAfter(t, ready, n).consecutive == t.consecutive + n
  {
    if n > 0 {
      SameTurnCounts(t, ready, n - 1);
      assert TurnAfter(t, ready, n).textFirst == t.textFirst;
    }
  }

  /** Neither scheduler stays second for longer than four rounds, whatever they have to do. */
  lemma TurnsAlternate(t: Turns, ready: nat -> bool)
    requires t.consecutive < MAX_CONSECUTIVE
    ensures exists k: nat :: 0 < k <= MAX_CONSECUTIVE - t.consecutive && TurnAfter(t, ready, k).textFirst != t.textFirst
  {
    var n: nat := MAX_CONSECUTIVE - t.consecutive;
    if forall k: nat | k <= n :: TurnAfter(t, ready, k).textFirst == t.textFirst {
      SameTurnCounts(t, ready, n);
      assert false;
    } else {
      var k: nat :| k <= n && TurnAfter(t, ready, k).textFirst != t.textFirst;
      assert k > 0;
    }
  }

  /** While both have work the order holds for four rounds in a row and then changes; a round in
      which one of them is idle changes it at once. */
  lemma {:induction false} OrderHoldsForFour(t: Turns, ready: nat -> bool, n: nat)
    requires t.consecutive + n < 4 && forall k: nat | k < n :: ready(k)
    ensures TurnAfter(t, ready, n) == Turns(t.textFirst, t.consecutive + n)
    ensures ready(n) && t.consecutive + n == 3 ==> TurnAfter(t, ready, n + 1) == Turns(!t.textFirst, 0)
    ensures !ready(n) ==> TurnAfter(t, ready, n + 1) == Turns(!t.textFirst, 0)
  {
    if n > 0 {
      OrderHoldsForFour(t, ready, n - 1);
    }
  }

  class Worker {
    const text: ContinuousBatchScheduler
    const vlm: VlmContinuousBatchScheduler
    var turns: Turns

    ghost predicate Valid()
      reads this, text, text.store, vlm
    {
      text.Valid() && vlm.held == []
    }

    constructor (text: ContinuousBatchScheduler, vlm: VlmContinuousBatchScheduler)
      requires text.Valid() && vlm.held == []
      ensures this.text == text && this.vlm == vlm && Valid() && turns == Turns(true, 0)
    {
      this.text, this.vlm := text, vlm;
      turns := Turns(true, 0);
    }

    /** One round; false where a scheduler raises. Each scheduler is ticked exactly once, and
        what one of them does is not seen by the other. */
    method TickSchedulers(responses: seq<Response>, uids: seq<Uid>, tick: VD.TickInput) returns (ok: bool)
      requires Valid()
      modifies this, text, text.store, vlm
      ensures ok <==> T.Tick(text.cfg, old(text.State()), responses, uids).1
                      && V.Tick(vlm.cfg, old(vlm.State()), tick.responses, tick.prepare, tick.uids).1
      ensures ok ==> text.Valid() && text.State() == T.Tick(text.cfg, old(text.State()), responses, uids).0
      ensures ok ==> vlm.State() == VD.TickWith(vlm.cfg, old(vlm.State()), tick)
      ensures ok ==> turns == NextTurn(old(turns), !T.Idle(old(text.State())) && !V.Idle(old(vlm.State())))
    {
      hide T.Tick, V.Tick, NextTurn;
      var vlmReady := vlm.pending != [] || vlm.active != [];
      var textReady := text.pending != [] || text.active != [];
      if turns.textFirst {
        ok := text.Tick(responses, uids);
        if !ok {
          return;
        }
        ok := vlm.Tick(tick.responses, tick.prepare, tick.uids);
      } else {
        ok := vlm.Tick(tick.responses, tick.prepare, tick.uids);
        if !ok {
          return;
        }
        ok := text.Tick(responses, uids);
      }
      PassTurn(textReady && vlmReady);
    }

    method PassTurn(bothReady: bool)
      modifies this`turns
      ensures turns == NextTurn(old(turns), bothReady)
    {
      if bothReady {
        turns := turns.(consecutive := turns.consecutive + 1);
        if turns.consecutive >= MAX_CONSECUTIVE {
          turns := Turns(!turns.textFirst, 0);
        }
      } else {
        turns := Turns(!turns.textFirst, 0);
      }
    }

    /** The schedulers n rounds after they were in states s and v. */
    ghost predicate RoundsOn(s: T.State, v: V.State, textTicks: TD.Ticks, vlmTicks: VD.Ticks, n: nat)
      reads this, text, text.store, vlm
    {
      Valid() && text.State() == TD.After(text.cfg, s, textTicks, n) && vlm.State() == VD.After(vlm.cfg, v, vlmTicks, n)
    }

    method DrainRound(textTicks: TD.Ticks, vlmTicks: VD.Ticks, n: nat, ghost s: T.State, ghost v: V.State,
                      ghost textCost: R.Job -> nat, ghost textWork: nat -> nat, ghost vlmCost: nat -> nat, ghost vlmWork: nat -> nat)
      requires RoundsOn(s, v, textTicks, vlmTicks, n) && T.Inv(text.cfg, s) && V.Inv(vlm.cfg, v)
      requires text.cfg.promptConcurrency >= 1 && text.cfg.decodeConcurrency >= 1 && vlm.cfg.decodeConcurrency >= 1
      requires TD.AlwaysProgresses(text.cfg, s, textTicks, textCost, textWork)
      requires VD.AlwaysProgresses(vlm.cfg, v, vlmTicks, vlmCost, vlmWork)
      modifies this, text, text.store, vlm
      ensures RoundsOn(s, v, textTicks, vlmTicks, n + 1)
    {
      hide T.Inv, V.Inv, T.Tick, V.Tick, TD.AlwaysProgresses, VD.AlwaysProgresses;
      TextTickSucceeds(text.cfg, s, textTicks, textCost, textWork, n);
      VlmTickSucceeds(vlm.cfg, v, vlmTicks, vlmCost, vlmWork, n);
      var ok := TickSchedulers(textTicks(n).0, textTicks(n).1, vlmTicks(n));
      assert ok;
      VlmTickSucceeds(vlm.cfg, v, vlmTicks, vlmCost, vlmWork, n + 1);
    }

    lemma BothReachIdle(s: T.State, v: V.State, textTicks: TD.Ticks, vlmTicks: VD.Ticks, n: nat,
                        textCost: R.Job -> nat, textWork: nat -> nat, vlmCost: nat -> nat, vlmWork: nat -> nat)
      requires RoundsOn(s, v, textTicks, vlmTicks, n) && T.Inv(text.cfg, s) && V.Inv(vlm.cfg, v)
      requires text.cfg.promptConcurrency >= 1 && text.cfg.decodeConcurrency >= 1 && vlm.cfg.decodeConcurrency >= 1
      requires TD.AlwaysProgresses(text.cfg, s, textTicks, textCost, textWork)
      requires VD.AlwaysProgresses(vlm.cfg, v, vlmTicks, vlmCost, vlmWork)
      requires n > TD.Measure(s, textCost, textWork(0)) && n > VD.Measure(v, vlmCost, vlmWork(0))
      ensures text.pending == [] && text.active == [] && vlm.pending == [] && vlm.active == []
    {
      hide T.Inv, V.Inv, TD.AlwaysProgresses, VD.AlwaysProgresses, TD.Measure, VD.Measure;
      TD.DrainReachesIdle(text.cfg, s, textTicks, textCost, textWork, n);
      VD.DrainReachesIdle(vlm.cfg, v, vlmTicks, vlmCost, vlmWork, n);
    }

    lemma EveryoneIsAnswered(s: T.State, v: V.State, textTicks: TD.Ticks, vlmTicks: VD.Ticks, n: nat,
                             textCost: R.Job -> nat, textWork: nat -> nat, vlmCost: nat -> nat, vlmWork: nat -> nat)
      requires RoundsOn(s, v, textTicks, vlmTicks, n) && T.Inv(text.cfg, s) && V.Inv(vlm.cfg, v)
      requires text.cfg.promptConcurrency >= 1 && text.cfg.decodeConcurrency >= 1 && vlm.cfg.decodeConcurrency >= 1
      requires TD.AlwaysProgresses(text.cfg, s, textTicks, textCost, textWork)
      requires VD.AlwaysProgresses(vlm.cfg, v, vlmTicks, vlmCost, vlmWork)
      requires text.pending == [] && text.active == [] && vlm.pending == [] && vlm.active == []
      ensures forall t: nat | t < s.board.next :: R.Answers(text.sink, t) == 1
      ensures forall t: nat | t < v.board.next :: R.Answers(vlm.sink, t) == 1
    {
      hide T.Inv, V.Inv, TD.AlwaysProgresses, VD.AlwaysProgresses;
      TD.IdleIsAnswered(text.cfg, s, textTicks, textCost, textWork, n);
      VD.IdleIsAnswered(vlm.cfg, v, vlmTicks, vlmCost, vlmWork, n);
    }

    /** The rounds after the input has ended: they come to an end, with both schedulers idle and
        every request answered once, after no more rounds than the larger of the two measures and
        one more. */
    method Drain(textTicks: TD.Ticks, vlmTicks: VD.Ticks, ghost textCost: R.Job -> nat, ghost textWork: nat -> nat,
                 ghost vlmCost: nat -> nat, ghost vlmWork: nat -> nat)
      returns (ghost rounds: nat)
      requires Valid() && T.Inv(text.cfg, text.State()) && V.Inv(vlm.cfg, vlm.State())
      requires text.cfg.promptConcurrency >= 1 && text.cfg.decodeConcurrency >= 1 && vlm.cfg.decodeConcurrency >= 1
      requires TD.AlwaysProgresses(text.cfg, text.State(), textTicks, textCost, textWork)
      requires VD.AlwaysProgresses(vlm.cfg, vlm.State(), vlmTicks, vlmCost, vlmWork)
      modifies this, text, text.store, vlm
      ensures T.Idle(text.State()) && V.Idle(vlm.State())
      ensures forall t: nat | t < old(text.next) :: R.Answers(text.sink, t) == 1
      ensures forall t: nat | t < old(vlm.next) :: R.Answers(vlm.sink, t) == 1
      ensures rounds <= Max(TD.Measure(old(text.State()), textCost, textWork(0)), VD.Measure(old(vlm.State()), vlmCost, vlmWork(0))) + 1
      ensures text.State() == TD.After(text.cfg, old(text.State()), textTicks, rounds)
      ensures vlm.State() == VD.After(vlm.cfg, old(vlm.State()), vlmTicks, rounds)
    {
      hide T.Inv, V.Inv, T.Tick, V.Tick, TD.AlwaysProgresses, VD.AlwaysProgresses, TD.Measure, VD.Measure;
      ghost var s, v := text.State(), vlm.State();
      ghost var bound := Max(TD.Measure(s, textCost, textWork(0)), VD.Measure(v, vlmCost, vlmWork(0))) + 1;
      var n := 0;
      rounds := 0;
      while true
        invariant n == rounds < bound
        invariant RoundsOn(s, v, textTicks, vlmTicks, n)
        decreases bound - n
      {
        DrainRound(textTicks, vlmTicks, n, s, v, textCost, textWork, vlmCost, vlmWork);
        n := n + 1;
        rounds := n;
        if text.pending == [] && text.active == [] && vlm.pending == [] && vlm.active == [] {
          EveryoneIsAnswered(s, v, textTicks, vlmTicks, n, textCost, textWork, vlmCost, vlmWork);
          break;
        }
        if n >= bound {
          BothReachIdle(s, v, textTicks, vlmTicks, n, textCost, textWork, vlmCost, vlmWork);
          assert false;
        }
      }
    }
  }

  /** While draining no tick raises. */
  lemma TextTickSucceeds(cfg: T.Config, s: T.State, ticks: TD.Ticks, cost: R.Job -> nat, work: nat -> nat, n: nat)
    requires cfg.promptConcurrency >= 1 && cfg.decodeConcurrency >= 1
    requires T.Inv(cfg, s) && TD.AlwaysProgresses(cfg, s, ticks, cost, work)
    ensures T.Tick(cfg, TD.After(cfg, s, ticks, n), ticks(n).0, ticks(n).1).1
  {
    hide T.Inv, T.Tick, TD.Measure;
    TD.BusyUntilMeasure(cfg, s, ticks, cost, work, n);
    TD.ProgressesAt(cfg, s, ticks, cost, work, n);
    T.StepKeeps(cfg, TD.After(cfg, s, ticks, n), T.DoTick(ticks(n).0, ticks(n).1));
  }

  lemma VlmTickSucceeds(cfg: V.Config, s: V.State, ticks: VD.Ticks, cost: nat -> nat, work: nat -> nat, n: nat)
    requires cfg.decodeConcurrency >= 1 && V.Inv(cfg, s) && VD.AlwaysProgresses(cfg, s, ticks, cost, work)
    ensures V.Tick(cfg, VD.After(cfg, s, ticks, n), ticks(n).responses, ticks(n).prepare, ticks(n).uids).1
    ensures VD.After(cfg, s, ticks, n).board.held == []
  {
    hide V.Tick, VD.Measure;
    VD.BusyUntilMeasure(cfg, s, ticks, cost, work, n);
    VD.ProgressesAt(cfg, s, ticks, cost, work, n);
    var now := VD.After(cfg, s, ticks, n);
    V.StepKeeps(cfg, now, V.DoTick(ticks(n).responses, ticks(n).prepare, ticks(n).uids));
  }
}

/** The load generator's connection pool (python/mlx_benchmark/loadgen.py), one request per task,
    with the tasks interleaved at every point where one of them may wait. */
module ConnectionPool {
  import opened Basics

  type Task = nat

  type Connection = nat

  /** Where a task is: waiting for a permit, waiting for the lock, using a connection, about to
      give it back or to close it, about to release the permit, finished, or cancelled at one of
      the waits outside the protected part: at the lock, or while its connection is being closed.
      Then it keeps its permit, and what it holds, for ever. */
  datatype Phase =
    | Queued
    | Admitted
    | Using(conn: Connection)
    | Returning(conn: Connection)
    | Closing(conn: Connection)
    | Releasing
    | Finished
    | Interrupted(held: Option<Connection>)
  {
    /** The connection the task has for itself. */
    function Held(): Option<Connection> {
      match this
      case Using(c) => Some(c)
      case Returning(c) => Some(c)
      case Closing(c) => Some(c)
      case Interrupted(c) => c
      case _ => None
    }

    predicate HasPermit() {
      !Queued? && !Finished?
    }
  }

  /** The pool and the tasks around it. Connections are numbered as they are created; retired
      ones were found not to be reusable. */
  datatype Pool = Pool(permits: int, available: seq<Connection>, created: nat, retired: set<Connection>, tasks: map<Task, Phase>)

  datatype Step =
    | Enter(task: Task)
    | Acquire(task: Task)
    | Take(task: Task)
    | Finish(task: Task, reusable: bool)
    | GiveBack(task: Task)
    | Close(task: Task)
    | Release(task: Task)
    | Interrupt(task: Task)

  predicate Enabled(p: Pool, step: Step) {
    match step
    case Enter(t) => t !in p.tasks
    case Acquire(t) => t in p.tasks && p.tasks[t].Queued? && p.permits > 0
    case Take(t) => t in p.tasks && p.tasks[t].Admitted?
    case Finish(t, _) => t in p.tasks && p.tasks[t].Using?
    case GiveBack(t) => t in p.tasks && p.tasks[t].Returning?
    case Close(t) => t in p.tasks && p.tasks[t].Closing?
    case Release(t) => t in p.tasks && p.tasks[t].Releasing?
    case Interrupt(t) => t in p.tasks && (p.tasks[t].Queued? || p.tasks[t].Admitted? || p.tasks[t].Returning? || p.tasks[t].Closing?)
  }

  function Next(p: Pool, step: Step): Pool
    requires Enabled(p, step)
  {
    match step
    case Enter(t) => p.(tasks := p.tasks[t := Queued])
    case Acquire(t) => p.(permits := p.permits - 1, tasks := p.tasks[t := Admitted])
    case Take(t) =>
      if p.available != [] then
        var last := |p.available| - 1;
        p.(available := p.available[..last], tasks := p.tasks[t := Using(p.available[last])])
      else p.(created := p.created + 1, tasks := p.tasks[t := Using(p.created)])
    case Finish(t, reusable) =>
      var c := p.tasks[t].conn;
      if reusable then p.(tasks := p.tasks[t := Returning(c)])
      else p.(retired := p.retired + {c}, tasks := p.tasks[t := Closing(c)])
    case GiveBack(t) => p.(available := p.available + [p.tasks[t].conn], tasks := p.tasks[t := Releasing])
    case Close(t) => p.(tasks := p.tasks[t := Releasing])
    case Release(t) => p.(permits := p.permits + 1, tasks := p.tasks[t := Finished])
    case Interrupt(t) => p.(tasks := p.tasks[t := if p.tasks[t].Queued? then Finished else Interrupted(p.tasks[t].Held())])
  }

  /** Connections are reused, the last one given back first: a request that takes one right after
      another gave its own back gets that one, and a new one is made only when none is idle. */
  lemma LastGivenBackIsTaken(p: Pool, t: Task, u: Task)
    requires Enabled(p, GiveBack(t)) && Enabled(Next(p, GiveBack(t)), Take(u))
    ensures var r := Next(Next(p, GiveBack(t)), Take(u));
            && r.tasks[u] == Using(p.tasks[t].conn) && r.available == p.available && r.created == p.created
  {
    assert (p.available + [p.tasks[t].conn])[..|p.available|] == p.available;
  }

  lemma NewOnlyIfNoneIdle(p: Pool, t: Task)
    requires Enabled(p, Take(t))
    ensures var r := Next(p, Take(t));
            if p.available == [] then r.created == p.created + 1 && r.tasks[t] == Using(p.created) && r.available == []
            else r.created == p.created && |r.available| == |p.available| - 1 && r.tasks[t] == Using(p.available[|p.available| - 1])
  {
  }

  /** A cancelled task goes no further: it is over while it was queued, and else keeps what it
      held. */
  lemma InterruptStops(p: Pool, t: Task)
    requires Enabled(p, Interrupt(t))
    ensures var r := Next(p, Interrupt(t));
            && r == p.(tasks := r.tasks) && (forall u | u in p.tasks && u != t :: u in r.tasks && r.tasks[u] == p.tasks[u])
            && t in r.tasks && (p.tasks[t].Queued? ==> r.tasks[t] == Finished)
            && (!p.tasks[t].Queued? ==> r.tasks[t].Interrupted? && r.tasks[t].Held() == p.tasks[t].Held())
  {
  }

  function Start(maximum: nat): Pool {
    Pool(maximum, [], 0, {}, map[])
  }

  function Holders(tasks: map<Task, Phase>): set<Task> {
    set t | t in tasks && tasks[t].HasPermit()
  }

  function Users(tasks: map<Task, Phase>): set<Task> {
    set t | t in tasks && tasks[t].Held().Some?
  }

  function Unfinished(tasks: map<Task, Phase>): set<Task> {
    set t | t in tasks && !tasks[t].Finished?
  }

  // -------------------------------------------------------------- invariant

  /** Idle connections are distinct, were created, and are not retired. */
  ghost predicate IdleOnes(p: Pool) {
    && (forall i | 0 <= i < |p.available| :: p.available[i] < p.created && p.available[i] !in p.retired)
    && forall i, j | 0 <= i < j < |p.available| :: p.available[i] != p.available[j]
  }

  /** A connection in use was created, is not idle, and is retired only if it is being
      closed, or its closing was cancelled. */
  ghost predicate UsedOnes(p: Pool) {
    && (forall c <- p.retired :: c < p.created)
    && forall t <- p.tasks | p.tasks[t].Held().Some? ::
         var c := p.tasks[t].Held().value;
         c < p.created && c !in p.available && (c in p.retired ==> p.tasks[t].Closing? || p.tasks[t].Interrupted?)
  }

  ghost predicate OneUser(p: Pool) {
    forall t <- p.tasks, u <- p.tasks | p.tasks[t].Held().Some? && p.tasks[t].Held() == p.tasks[u].Held() :: t == u
  }

  ghost predicate Bounded(p: Pool, maximum: nat) {
    && p.permits >= 0
    && p.permits + |Holders(p.tasks)| == maximum
    && |p.available| + |Users(p.tasks)| <= maximum
  }

  ghost predicate Inv(p: Pool, maximum: nat) {
    IdleOnes(p) && UsedOnes(p) && OneUser(p) && Bounded(p, maximum)
  }

  function PhaseOf(tasks: map<Task, Phase>, t: Task): Phase {
    if t in tasks then tasks[t] else Queued
  }

  lemma HolderChanges(tasks: map<Task, Phase>, t: Task, now: Phase)
    ensures |Holders(tasks[t := now])| == |Holders(tasks)| + (if now.HasPermit() then 1 else 0) - (if PhaseOf(tasks, t).HasPermit() then 1 else 0)
  {
    assert Holders(tasks[t := now]) == if now.HasPermit() then Holders(tasks) + {t} else Holders(tasks) - {t};
    assert t in Holders(tasks) <==> PhaseOf(tasks, t).HasPermit();
  }

  lemma UserChanges(tasks: map<Task, Phase>, t: Task, now: Phase)
    ensures |Users(tasks[t := now])| == |Users(tasks)| + (if now.Held().Some? then 1 else 0) - (if PhaseOf(tasks, t).Held().Some? then 1 else 0)
  {
    assert Users(tasks[t := now]) == if now.Held().Some? then Users(tasks) + {t} else Users(tasks) - {t};
    assert t in Users(tasks) <==> PhaseOf(tasks, t).Held().Some?;
  }

  lemma UsersAreHolders(tasks: map<Task, Phase>)
    ensures |Users(tasks)| <= |Holders(tasks)|
  {
    Smaller(Users(tasks), Holders(tasks));
  }

  lemma {:induction false} Smaller(a: set<Task>, b: set<Task>)
    requires a <= b
    ensures |a| <= |b|
  {
    if a != {} {
      var x :| x in a;
      Smaller(a - {x}, b - {x});
    }
  }

  lemma StepKeepsBounds(p: Pool, step: Step, maximum: nat)
    requires Bounded(p, maximum) && Enabled(p, step)
    ensures Bounded(Next(p, step), maximum)
  {
    hide Holders, Users;
    var after := Next(p, step);
    HolderChanges(p.tasks, step.task, after.tasks[step.task]);
    UserChanges(p.tasks, step.task, after.tasks[step.task]);
    UsersAreHolders(p.tasks);
    UsersAreHolders(after.tasks);
  }

  lemma StepKeepsIdle(p: Pool, step: Step)
    requires IdleOnes(p) && UsedOnes(p) && OneUser(p) && Enabled(p, step)
    ensures IdleOnes(Next(p, step))
  {
    if step.Finish? || step.GiveBack? {
      assert p.tasks[step.task].Held().value !in p.available;
    }
  }

  lemma TakenIsFree(p: Pool, step: Step, u: Task)
    requires IdleOnes(p) && UsedOnes(p) && Enabled(p, step) && step.Take?
    ensures var c := Next(p, step).tasks[step.task].conn;
            && c < Next(p, step).created && c !in Next(p, step).available && c !in p.retired
            && (u in p.tasks ==> p.tasks[u].Held() != Some(c))
  {
    if p.available != [] {
      var last := |p.available| - 1;
      assert p.available[last] in p.available;
    }
  }

  lemma StepKeepsOneUser(p: Pool, step: Step)
    requires IdleOnes(p) && UsedOnes(p) && OneUser(p) && Enabled(p, step)
    ensures OneUser(Next(p, step))
  {
    var after := Next(p, step);
    forall t <- after.tasks, u <- after.tasks | after.tasks[t].Held().Some? && after.tasks[t].Held() == after.tasks[u].Held()
      ensures t == u
    {
      if step.Take? {
        TakenIsFree(p, step, t);
        TakenIsFree(p, step, u);
      }
      hide UsedOnes, IdleOnes, Next;
    }
  }

  lemma StepKeepsUsed(p: Pool, step: Step)
    requires IdleOnes(p) && UsedOnes(p) && OneUser(p) && Enabled(p, step)
    ensures UsedOnes(Next(p, step))
  {
    var after := Next(p, step);
    forall t <- after.tasks | after.tasks[t].Held().Some?
      ensures var c := after.tasks[t].Held().value;
              c < after.created && c !in after.available && (c in after.retired ==> after.tasks[t].Closing? || after.tasks[t].Interrupted?)
    {
      hide IdleOnes;
      if step.Take? {
        TakenIsFree(p, step, t);
      }
    }
  }

  /** Every step keeps the invariant. */
  lemma StepKeeps(p: Pool, step: Step, maximum: nat)
    requires Inv(p, maximum) && Enabled(p, step)
    ensures Inv(Next(p, step), maximum)
  {
    hide IdleOnes, UsedOnes, OneUser, Bounded, Next;
    StepKeepsBounds(p, step, maximum);
    StepKeepsIdle(p, step);
    StepKeepsUsed(p, step);
    StepKeepsOneUser(p, step);
  }

  // -------------------------------------------------------------------- runs

  /** The pool after some steps, if each was possible when its turn came. */
  function Run(p: Pool, steps: seq<Step>): Option<Pool> {
    if steps == [] then Some(p)
    else
      var before, step := Run(p, steps[..|steps| - 1]), steps[|steps| - 1];
      if before.None? || !Enabled(before.value, step) then None else Some(Next(before.value, step))
  }

  /** In every interleaving no connection has two users, and the idle and used connections
      together never exceed the maximum. */
  lemma {:induction false} RunKeeps(maximum: nat, steps: seq<Step>)
    requires Run(Start(maximum), steps).Some?
    ensures Inv(Run(Start(maximum), steps).value, maximum)
  {
    hide Inv, Enabled, Next;
    if steps == [] {
      StartIsSound(maximum);
    } else {
      RunKeeps(maximum, steps[..|steps| - 1]);
      StepKeeps(Run(Start(maximum), steps[..|steps| - 1]).value, steps[|steps| - 1], maximum);
    }
  }

  lemma StartIsSound(maximum: nat)
    ensures Inv(Start(maximum), maximum)
  {
    assert Holders(map[]) == {} && Users(map[]) == {};
  }

  lemma StepKeepsRetired(p: Pool, step: Step)
    requires Enabled(p, step)
    ensures p.retired <= Next(p, step).retired
  {}

  lemma {:induction false} RetiredStays(p: Pool, steps: seq<Step>, n: nat)
    requires n <= |steps| && Run(p, steps).Some?
    ensures Run(p, steps[..n]).Some? && Run(p, steps[..n]).value.retired <= Run(p, steps).value.retired
    decreases |steps|
  {
    hide Enabled, Next;
    if n < |steps| {
      var before := steps[..|steps| - 1];
      assert before[..n] == steps[..n];
      RetiredStays(p, before, n);
      StepKeepsRetired(Run(p, before).value, steps[|steps| - 1]);
    } else {
      assert steps[..n] == steps;
    }
  }

  lemma RunOne(p: Pool, steps: seq<Step>, n: nat)
    requires n < |steps| && Run(p, steps[..n + 1]).Some?
    ensures Run(p, steps[..n]).Some? && Enabled(Run(p, steps[..n]).value, steps[n])
    ensures Run(p, steps[..n + 1]).value == Next(Run(p, steps[..n]).value, steps[n])
  {
    hide Enabled, Next;
    assert steps[..n + 1][..n] == steps[..n];
  }

  /** A connection found not to be reusable at step n is not the one any later step hands out. */
  lemma RetiredIsNeverHandedOut(maximum: nat, steps: seq<Step>, n: nat)
    requires Run(Start(maximum), steps).Some? && n < |steps| - 1
    requires steps[n].Finish? && !steps[n].reusable && steps[|steps| - 1].Take?
    ensures Run(Start(maximum), steps[..n]).Some? && Enabled(Run(Start(maximum), steps[..n]).value, steps[n])
    ensures Run(Start(maximum), steps).value.tasks[steps[|steps| - 1].task].Using?
    ensures Run(Start(maximum), steps).value.tasks[steps[|steps| - 1].task].conn
            != Run(Start(maximum), steps[..n]).value.tasks[steps[n].task].conn
  {
    hide Run, Inv;
    var start, last := Start(maximum), |steps| - 1;
    assert steps[..last + 1] == steps;
    RunOne(start, steps, last);
    RetiredStays(start, steps[..last], n + 1);
    assert steps[..last][..n + 1] == steps[..n + 1];
    RunOne(start, steps, n);
    RunKeeps(maximum, steps[..last]);
    HandedOut(Run(start, steps[..last]).value, steps[last], maximum);
  }

  /** What is handed out is not retired and has no other user. */
  lemma HandedOut(p: Pool, step: Step, maximum: nat)
    requires Inv(p, maximum) && Enabled(p, step) && step.Take?
    ensures var c := Next(p, step).tasks[step.task].conn;
            && c !in p.retired
            && forall t <- p.tasks :: p.tasks[t].Held() != Some(c)
  {
    if p.available != [] {
      assert p.available[|p.available| - 1] in p.available;
    }
  }

  /** While no more requests are unfinished than the maximum and none was interrupted, a queued
      request finds a permit at once. */
  lemma NoRequestWaits(p: Pool, maximum: nat, t: Task)
    requires Inv(p, maximum) && t in p.tasks && p.tasks[t].Queued?
    requires |Unfinished(p.tasks)| <= maximum
    ensures Enabled(p, Acquire(t))
  {
    var unfinished := Unfinished(p.tasks);
    assert t in unfinished && |unfinished - {t}| == |unfinished| - 1;
    assert Holders(p.tasks) <= unfinished - {t};
    Smaller(Holders(p.tasks), unfinished - {t});
  }

  // ---------------------------------------------------- the pool as an object

  /** The pool's own fields. AcquirePermit and TakeConnection are what a task does between two
      waits; FinishRequest is the uninterrupted run of its last steps (the lock, the close of a
      connection that is not reusable, the release), which the machine above takes one by one. */
  class AsyncHttpPool {
    const maximum: nat
    var permits: int
    var available: seq<Connection>
    var created: nat
    ghost var retired: set<Connection>
    ghost var tasks: map<Task, Phase>

    ghost function State(): Pool
      reads this
    {
      Pool(permits, available, created, retired, tasks)
    }

    constructor (maximum: nat)
      ensures this.maximum == maximum && State() == Start(maximum) && Inv(State(), maximum)
    {
      this.maximum := maximum;
      permits, available, created, retired, tasks := maximum, [], 0, {}, map[];
      new;
      assert State() == Start(maximum);
      RunKeeps(maximum, []);
    }

    method AcquirePermit(ghost t: Task)
      requires Inv(State(), maximum) && Enabled(State(), Acquire(t))
      modifies this
      ensures State() == Next(old(State()), Acquire(t)) && Inv(State(), maximum)
    {
      StepKeeps(State(), Acquire(t), maximum);
      permits := permits - 1;
      tasks := tasks[t := Admitted];
    }

    /** Under the lock: the connection returned last, or a new one. */
    method TakeConnection(ghost t: Task) returns (connection: Connection)
      requires Inv(State(), maximum) && Enabled(State(), Take(t))
      modifies this
      ensures State() == Next(old(State()), Take(t)) && Inv(State(), maximum)
      ensures tasks[t] == Using(connection)
      ensures connection !in retired && forall u <- tasks | u != t :: tasks[u].Held() != Some(connection)
    {
      StepKeeps(State(), Take(t), maximum);
      HandedOut(State(), Take(t), maximum);
      if available != [] {
        connection := available[|available| - 1];
        available := available[..|available| - 1];
      } else {
        connection := created;
        created := created + 1;
      }
      tasks := tasks[t := Using(connection)];
    }

    /** The end of a request: a reusable connection goes back, any other is closed, and either
        way the permit is released. */
    method FinishRequest(ghost t: Task, connection: Connection, reusable: bool)
      requires Inv(State(), maximum) && t in tasks && tasks[t] == Using(connection)
      modifies this
      ensures Run(old(State()), Leaving(t, reusable)) == Some(State())
      ensures Inv(State(), maximum)
      ensures available == old(available) + (if reusable then [connection] else [])
      ensures retired == old(retired) + (if reusable then {} else {connection})
    {
      hide Inv, Run, Leaving;
      ghost var p0 := State();
      ghost var p1 := Next(p0, Finish(t, reusable));
      StepKeeps(p0, Finish(t, reusable), maximum);
      ghost var second := if reusable then GiveBack(t) else Close(t);
      ghost var p2 := Next(p1, second);
      StepKeeps(p1, second, maximum);
      StepKeeps(p2, Release(t), maximum);
      LeavingIs(p0, t, reusable);
      if reusable {
        available := available + [connection];
      } else {
        retired := retired + {connection};
      }
      permits := permits + 1;
      tasks := tasks[t := Finished];
      assert State() == Next(p2, Release(t));
    }
  }

  function Leaving(t: Task, reusable: bool): seq<Step> {
    [Finish(t, reusable), if reusable then GiveBack(t) else Close(t), Release(t)]
  }

  lemma LeavingIs(p: Pool, t: Task, reusable: bool)
    requires Enabled(p, Finish(t, reusable))
    ensures var p1 := Next(p, Finish(t, reusable));
            var second := if reusable then GiveBack(t) else Close(t);
            && Enabled(p1, second) && Enabled(Next(p1, second), Release(t))
            && Run(p, Leaving(t, reusable)) == Some(Next(Next(p1, second), Release(t)))
  {
    var steps := Leaving(t, reusable);
    var none: seq<Step> := [];
    assert steps[..2][..1] == steps[..1] && steps[..1][..0] == none && steps[..3] == steps;
    assert Run(p, none) == Some(p);
    assert Run(p, steps[..1]) == Some(Next(p, steps[0]));
    assert Run(p, steps[..2]) == Some(Next(Next(p, steps[0]), steps[1]));
  }
}

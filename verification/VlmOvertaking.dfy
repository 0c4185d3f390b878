/** When a vision request is admitted past the head of the queue. */
module VlmOvertaking {
  import opened Basics
  import opened Generation
  import opened RequestBoard
  import opened VlmScheduler

  /** The admission takes requests off the queue and leaves its head waiting. */
  ghost predicate Overtakes(cfg: Config, s: State, prepare: Preparer, uids: seq<Uid>)
    requires s.board.pending != []
  {
    var after := AdmitPending(cfg, s, prepare, uids).0.board.pending;
    |after| < |s.board.pending| && s.board.pending[0] in after
  }

  /** A generator is left over for another setting than the head's, nothing runs on it any more,
      and somebody further back has its setting. */
  predicate LeftoverForOthers(s: State)
    requires s.board.pending != []
  {
    && s.generator.Some? && s.board.active == []
    && s.board.pending[0].request.sampling != s.generator.value
    && exists j <- s.board.pending :: j.request.sampling == s.generator.value
  }

  /** Going through the queue for a setting that somebody has takes somebody off it. */
  lemma {:induction false} ScanTakesSomebody(cfg: Config, b: Board, key: Sampling, prepare: Preparer, i: nat, k: nat)
    requires i <= k < |b.pending| && b.pending[k].request.sampling == key
    requires |b.active| + |b.held| < cfg.decodeConcurrency
    ensures |Scan(cfg, b, key, prepare, i).pending| < |b.pending|
    decreases |b.pending| - i
  {
    if b.pending[i].request.sampling != key {
      ScanTakesSomebody(cfg, b, key, prepare, i + 1, k);
    } else {
      ScanShortens(cfg, Examine(b, prepare, i), key, prepare, i);
    }
  }

  lemma {:induction false} ScanShortens(cfg: Config, b: Board, key: Sampling, prepare: Preparer, i: nat)
    requires i <= |b.pending|
    ensures |Scan(cfg, b, key, prepare, i).pending| <= |b.pending|
    ensures forall j <- Scan(cfg, b, key, prepare, i).pending :: j in b.pending
    decreases |b.pending| - i
  {
    if i == |b.pending| || |b.active| + |b.held| >= cfg.decodeConcurrency {
    } else if b.pending[i].request.sampling != key {
      ScanShortens(cfg, b, key, prepare, i + 1);
    } else {
      var b' := Examine(b, prepare, i);
      assert b'.pending == Without(b.pending, i);
      assert forall j <- b'.pending :: j in b.pending;
      if |b'.held| < cfg.promptConcurrency {
        ScanShortens(cfg, b', key, prepare, i);
      }
    }
  }

  lemma {:induction false} NobodyLeaves(cfg: Config, b: Board, key: Sampling, prepare: Preparer, i: nat)
    requires i <= |b.pending| && forall k | i <= k < |b.pending| :: b.pending[k].request.sampling != key
    ensures Scan(cfg, b, key, prepare, i) == b
    decreases |b.pending| - i
  {
    if i < |b.pending| && |b.active| + |b.held| < cfg.decodeConcurrency {
      NobodyLeaves(cfg, b, key, prepare, i + 1);
    }
  }

  /** Tickets are unique, so the head does not occur again further back. */
  lemma HeadIsUnique(b: Board)
    requires Balanced(b) && b.pending != []
    ensures b.pending[0] !in b.pending[1..]
  {
    var t := b.pending[0].ticket;
    assert Holding(b.pending, t) <= 1;
    if b.pending[0] in b.pending[1..] {
      var i :| 0 <= i < |b.pending[1..]| && b.pending[1..][i] == b.pending[0];
      HoldingAt(b.pending[1..], i);
    }
  }

  /** A head of the setting admitted for is the first to leave. */
  lemma HeadLeaves(cfg: Config, b: Board, key: Sampling, prepare: Preparer)
    requires Balanced(b) && b.pending != [] && b.pending[0].request.sampling == key
    requires |b.active| + |b.held| < cfg.decodeConcurrency
    ensures b.pending[0] !in Scan(cfg, b, key, prepare, 0).pending
  {
    HeadIsUnique(b);
    hide Balanced;
    var b' := Examine(b, prepare, 0);
    assert b'.pending == Without(b.pending, 0) == b.pending[1..];
    ScanShortens(cfg, b', key, prepare, 0);
  }

  lemma AdmissionIsScan(cfg: Config, s: State, prepare: Preparer, uids: seq<Uid>)
    requires Inv(cfg, s) && s.board.pending != [] && |s.board.active| < cfg.decodeConcurrency && AdmissionKey(s).Some?
    ensures AdmitPending(cfg, s, prepare, uids).0.board.pending == Scan(cfg, s.board, AdmissionKey(s).value, prepare, 0).pending
  {
    hide Inv, Scan, StartN;
    StartNKeepsPending(Scanned(cfg, s, prepare), uids, |s.heard|);
  }

  /** An admission overtakes the head of the queue if and only if a generator of another setting
      was left over with nothing running and somebody waiting for it. */
  lemma HeadIsOvertakenIff(cfg: Config, s: State, prepare: Preparer, uids: seq<Uid>)
    requires Inv(cfg, s) && cfg.decodeConcurrency >= 1 && s.board.pending != []
    ensures Overtakes(cfg, s, prepare, uids) <==> LeftoverForOthers(s)
  {
    assert s.board.held == [] && Balanced(s.board);
    assert s.board.active != [] ==> s.generator.Some?;
    if |s.board.active| < cfg.decodeConcurrency && AdmissionKey(s).Some? {
      AdmissionIsScan(cfg, s, prepare, uids);
      hide Inv, AdmitPending, Balanced, Scan;
      var key := AdmissionKey(s).value;
      if s.board.pending[0].request.sampling == key {
        HeadLeaves(cfg, s.board, key, prepare);
      } else if exists j <- s.board.pending :: j.request.sampling == key {
        var k :| 0 <= k < |s.board.pending| && s.board.pending[k].request.sampling == key;
        ScanTakesSomebody(cfg, s.board, key, prepare, 0, k);
        ScanLeavesTheOthersInOrder(cfg, s.board, key, prepare, 0);
      } else {
        NobodyLeaves(cfg, s.board, key, prepare, 0);
      }
    }
  }

  // ------------------------------------------------- a run that gets there

  const PLAIN: Preparer := job => Ready([], None)

  function NewJob(ticket: nat, r: Request): Job {
    Job(ticket, r, [], None, 0, 0, [], "", "")
  }

  /** Requests a and c share a setting and b has another: a is admitted, b and c arrive, and the
      generator answers a. */
  function ThreeRequests(a: Request, b: Request, c: Request): seq<Input> {
    [DoSubmit(a), DoTick([], PLAIN, [7]), DoSubmit(b), DoSubmit(c), DoTick([VlmResponse(7, None, "", Some("stop"))], PLAIN, [8])]
  }

  ghost predicate Mixed(cfg: Config, a: Request, b: Request, c: Request) {
    && cfg.promptConcurrency >= 1 && cfg.decodeConcurrency >= 1
    && a.model == cfg.modelId && b.model == cfg.modelId && c.model == cfg.modelId
    && a.sampling == c.sampling && b.sampling != a.sampling
  }

  lemma OneAdmitted(cfg: Config, a: Request) returns (s: State)
    requires cfg.promptConcurrency >= 1 && cfg.decodeConcurrency >= 1 && a.model == cfg.modelId
    ensures s == State(Board([], [], [NewJob(0, a).(uid := 7)], [], 1, []), Some(a.sampling), [])
    ensures GeneratorObeys(cfg, Submit(cfg, INITIAL, a), DoTick([], PLAIN, [7]))
    ensures Tick(cfg, Submit(cfg, INITIAL, a), [], PLAIN, [7]).0 == s
  {
    var s0 := Submit(cfg, INITIAL, a);
    var job := NewJob(0, a);
    assert s0.board.pending == [job] && Polled(cfg, s0, []) == s0;
    var b1 := Examine(s0.board, PLAIN, 0);
    assert Without([job], 0) == [] && b1 == Board([], [job], [], [], 1, []);
    assert Scan(cfg, s0.board, a.sampling, PLAIN, 0) == b1;
    var b2 := StartN(b1, [7], 0, 1);
    assert StartN(b1, [7], 0, 0) == b1;
    assert b1.held[1..] == [] && b2 == Board([], [], [job.(uid := 7)], [], 1, []);
    s := State(b2, Some(a.sampling), []);
  }

  lemma AnsweredAndOvertaken(cfg: Config, a: Request, b: Request, c: Request, s: State)
    requires Mixed(cfg, a, b, c)
    requires s == State(Board([NewJob(1, b), NewJob(2, c)], [], [NewJob(0, a).(uid := 7)], [], 3, []), Some(a.sampling), [])
    ensures var input := ThreeRequests(a, b, c)[4];
            && GeneratorObeys(cfg, s, input)
            && var after := Apply(cfg, s, input);
               after.board.pending == [NewJob(1, b)] && after.board.active == [NewJob(2, c).(uid := 8, since := 1)]
  {
    var r := VlmResponse(7, None, "", Some("stop"));
    var p := DeliverAll(cfg, s, [r]);
    assert [r][..0] == [] && DeliverAll(cfg, s, []) == s;
    assert p == Deliver(cfg, s, r);
    assert p.board.active == [] && p.board.pending == s.board.pending && p.board.held == [] && p.heard == [r];
    assert Polled(cfg, s, [r]) == p;
    hide Deliver, DeliverAll, Polled;
    var jb, jc := NewJob(1, b), NewJob(2, c);
    assert AdmissionKey(p) == Some(a.sampling);
    var b1 := Examine(p.board, PLAIN, 1);
    assert Without([jb, jc], 1) == [jb];
    assert b1 == p.board.(pending := [jb], held := [jc]);
    assert Scan(cfg, b1, a.sampling, PLAIN, 1) == b1;
    assert Scan(cfg, p.board, a.sampling, PLAIN, 1) == b1;
    assert Scan(cfg, p.board, a.sampling, PLAIN, 0) == b1;
    assert StartN(b1, [8], 1, 0) == b1;
    assert StartN(b1, [8], 1, 1).active == [jc.(uid := 8, since := 1)];
  }

  lemma FourSteps(cfg: Config, a: Request, b: Request, c: Request) returns (s4: State)
    requires Mixed(cfg, a, b, c)
    ensures var inputs := ThreeRequests(a, b, c);
            && Run(cfg, INITIAL, inputs[..0]) == INITIAL && Run(cfg, INITIAL, inputs[..1]) == Submit(cfg, INITIAL, a)
            && Run(cfg, INITIAL, inputs[..4]) == s4
    ensures GeneratorObeys(cfg, Submit(cfg, INITIAL, a), DoTick([], PLAIN, [7]))
    ensures s4 == State(Board([NewJob(1, b), NewJob(2, c)], [], [NewJob(0, a).(uid := 7)], [], 3, []), Some(a.sampling), [])
  {
    hide Tick, GeneratorObeys, Submit, Run;
    var inputs := ThreeRequests(a, b, c);
    var s2 := OneAdmitted(cfg, a);
    NothingRun(cfg, inputs);
    RunStep(cfg, inputs, 0);
    RunStep(cfg, inputs, 1);
    RunStep(cfg, inputs, 2);
    RunStep(cfg, inputs, 3);
    SubmitAdds(cfg, s2, b);
    var s3 := Submit(cfg, s2, b);
    SubmitAdds(cfg, s3, c);
    s4 := Submit(cfg, s3, c);
    assert s4.board.pending == [NewJob(1, b), NewJob(2, c)];
  }

  lemma NothingRun(cfg: Config, inputs: seq<Input>)
    ensures Run(cfg, INITIAL, inputs[..0]) == INITIAL
  {}

  /** So a request can be running while one submitted before it, which was at the head of the
      queue, still waits. */
  lemma HeadCanBeOvertaken(cfg: Config, a: Request, b: Request, c: Request)
    requires Mixed(cfg, a, b, c)
    ensures ObeyedAlong(cfg, ThreeRequests(a, b, c))
    ensures var s := Run(cfg, INITIAL, ThreeRequests(a, b, c));
            |s.board.pending| == 1 && s.board.pending[0].ticket == 1 && |s.board.active| == 1 && s.board.active[0].ticket == 2
  {
    hide Tick, GeneratorObeys, Submit, Run, Apply;
    var inputs := ThreeRequests(a, b, c);
    var s4 := FourSteps(cfg, a, b, c);
    AnsweredAndOvertaken(cfg, a, b, c, s4);
    RunStep(cfg, inputs, 4);
    assert inputs[..5] == inputs;
    forall n | 0 <= n < |inputs| ensures GeneratorObeys(cfg, Run(cfg, INITIAL, inputs[..n]), inputs[n]) {
      NothingToObey(cfg, Run(cfg, INITIAL, inputs[..n]), inputs[n]);
    }
  }

  lemma NothingToObey(cfg: Config, s: State, input: Input)
    ensures !input.DoTick? ==> GeneratorObeys(cfg, s, input)
  {}

  lemma SubmitAdds(cfg: Config, s: State, r: Request)
    requires r.model == cfg.modelId
    ensures Submit(cfg, s, r) == s.(board := s.board.(pending := s.board.pending + [NewJob(s.board.next, r)], next := s.board.next + 1))
  {}

  lemma RunStep(cfg: Config, inputs: seq<Input>, n: nat)
    requires n < |inputs|
    ensures Run(cfg, INITIAL, inputs[..n + 1]) == Apply(cfg, Run(cfg, INITIAL, inputs[..n]), inputs[n])
  {
    assert inputs[..n + 1][..n] == inputs[..n];
  }
}

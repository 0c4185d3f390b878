/** The vision-language scheduler as the object the worker drives: each method is one step of the
    state machine in VlmScheduler. */
module VlmBatching {
  import opened Basics
  import opened Generation
  import opened RequestBoard
  import V = VlmScheduler

  type VlmResponse = V.VlmResponse

  class VlmContinuousBatchScheduler {
    const cfg: V.Config
    var pending: seq<Job>
    /** The batch between preparation and insertion into the generator. */
    var held: seq<Job>
    var active: seq<Job>
    /** The generator's sampling setting; the generator exists exactly when this is set. */
    var generator: Option<Sampling>
    /** Every event handed to the sink so far. */
    var sink: seq<Event>
    // records of the model: the first two number submissions and responses for the jobs' own
    // records (ticket, since), which no branch looks at
    var next: nat
    var heard: seq<VlmResponse>
    ghost var done: seq<Done>

    ghost function State(): V.State
      reads this
    {
      V.State(Board(pending, held, active, sink, next, done), generator, heard)
    }

    constructor (cfg: V.Config)
      ensures this.cfg == cfg && State() == V.INITIAL
    {
      this.cfg := cfg;
      pending, held, active, generator, sink := [], [], [], None, [];
      next, done, heard := 0, [], [];
    }

    method Submit(r: Request) returns (accepted: bool)
      modifies this
      ensures State() == V.Submit(cfg, old(State()), r) && accepted == (r.model == cfg.modelId)
    {
      if r.model != cfg.modelId {
        sink := sink + [Error(next)];
        next := next + 1;
        return false;
      }
      pending := pending + [Job(next, r, [], None, 0, 0, [], "", "")];
      next := next + 1;
      return true;
    }

    method Answer(d: Done)
      modifies this`sink, this`done
      ensures sink == old(sink) + [ReplyOf(d)] && done == old(done) + [d]
    {
      sink := sink + [ReplyOf(d)];
      done := done + [d];
    }

    method Cancel(id: string) returns (handled: bool)
      modifies this
      ensures State() == V.Cancel(old(State()), id)
      ensures handled <==> SomebodyHas(old(pending), id) || SomebodyHas(old(active), id)
    {
      FirstIsTaken(pending, id);
      FirstIsTaken(active, id);
      var i := FindId(pending, id);
      if i < |pending| {
        var job := pending[i];
        pending := Without(pending, i);
        Answer(Cancelled(job, 0));
        return true;
      }
      var k := FindId(active, id);
      if k < |active| {
        var job := active[k];
        active := Without(active, k);
        Answer(Cancelled(job, |heard|));
        return true;
      }
      return false;
    }

    /** The job's tokens and text after a response, with the delta sent when it streams. */
    method HearResponse(job: Job, r: VlmResponse) returns (job': Job)
      modifies this`sink
      ensures job' == V.Hear(cfg.decode, job, r)
      ensures var text := V.SentText(cfg.decode, job, r);
              sink == old(sink) + (if text == "" then [] else [Delta(job.ticket, text)])
    {
      job' := job;
      if r.token != None {
        job' := job'.(generated := job'.generated + [r.token.value]);
      }
      var delta := r.text;
      if cfg.decode != None && job'.generated != [] {
        var decoded := cfg.decode.value(job'.generated);
        delta := if job.rendered <= decoded then decoded[|job.rendered|..] else decoded;
      }
      if delta != "" {
        if job.request.stream {
          sink := sink + [Delta(job.ticket, delta)];
          job' := job'.(said := job'.said + delta);
        }
      }
      job' := job'.(rendered := job'.rendered + delta);
    }

    method DeliverResponse(r: VlmResponse)
      modifies this
      ensures State() == V.Deliver(cfg, old(State()), r)
    {
      heard := heard + [r];
      var k := FindUid(active, r.uid);
      if k == |active| {
        return;
      }
      var job := HearResponse(active[k], r);
      active := active[k := job];
      if r.finish == None {
        return;
      }
      Answer(V.Finish(cfg.decode, job, r, |heard|));
      active := Without(active, k);
    }

    method StepGenerator(responses: seq<VlmResponse>)
      modifies this
      ensures State() == V.DeliverAll(cfg, old(State()), responses)
    {
      ghost var s := State();
      for i := 0 to |responses|
        invariant State() == V.DeliverAll(cfg, s, responses[..i])
      {
        assert responses[..i + 1][..i] == responses[..i];
        DeliverResponse(responses[i]);
      }
      assert responses[..|responses|] == responses;
    }

    /** One request of the admitted setting: prepared into the batch, or answered. */
    method PrepareRequest(job: Job, prepare: V.Preparer)
      modifies this`held, this`sink, this`done
      ensures forall rest: seq<Job>, i | 0 <= i < |rest| && rest[i] == job ::
                Board(Without(rest, i), held, active, sink, next, done) ==
                V.Examine(Board(rest, old(held), active, old(sink), next, old(done)), prepare, i)
    {
      match prepare(job)
      case Ready(prompt, cached) => held := held + [job.(prompt := prompt, cached := cached)];
      case Interrupted => Answer(Cancelled(job, 0));
      case Failed => sink := sink + [Error(job.ticket)];
    }

    /** Goes through the queue for one sampling setting; the others are put back in front. */
    method FillBatch(key: Sampling, prepare: V.Preparer)
      modifies this`pending, this`held, this`sink, this`done
      ensures State().board == V.Scan(cfg, old(State().board), key, prepare, 0)
    {
      hide V.Scan, V.Examine, Without;
      var skipped: seq<Job> := [];
      ghost var result := V.Scan(cfg, State().board, key, prepare, 0);
      assert skipped + pending == pending;
      while pending != []
        invariant V.Scan(cfg, Board(skipped + pending, held, active, sink, next, done), key, prepare, |skipped|) == result
        decreases |pending|
      {
        ScanUnfolds(cfg, Board(skipped + pending, held, active, sink, next, done), key, prepare, |skipped|);
        if |active| + |held| >= cfg.decodeConcurrency {
          break;
        }
        var job := pending[0];
        ghost var all := skipped + pending;
        WithoutMiddle(skipped, pending);
        pending := pending[1..];
        if job.request.sampling != key {
          skipped := skipped + [job];
          assert skipped + pending == all;
          continue;
        }
        PrepareRequest(job, prepare);
        if |held| >= cfg.promptConcurrency {
          break;
        }
      }
      ScanUnfolds(cfg, Board(skipped + pending, held, active, sink, next, done), key, prepare, |skipped + pending|);
      pending := skipped + pending;
    }

    method StartBatch(uids: seq<Uid>)
      requires |uids| == |held|
      modifies this`held, this`active
      ensures State().board == V.StartN(old(State().board), uids, |heard|, |uids|)
    {
      ghost var b := State().board;
      for i := 0 to |uids|
        invariant |held| == |uids| - i
        invariant State().board == V.StartN(b, uids, |heard|, i)
      {
        var job := held[0].(uid := uids[i], since := |heard|);
        held := held[1..];
        active := PutJob(active, job);
      }
    }

    /** False when the source raises: the generator answered insert with unusable uids. */
    method AdmitPending(prepare: V.Preparer, uids: seq<Uid>) returns (ok: bool)
      requires held == []
      modifies this
      ensures (State(), ok) == V.AdmitPending(cfg, old(State()), prepare, uids)
    {
      if pending == [] {
        return true;
      }
      if |active| >= cfg.decodeConcurrency {
        return true;
      }
      var head := pending[0].request.sampling;
      if generator == None {
        generator := Some(head);
      } else if active != [] {
        if head != generator.value {
          return true;
        }
      }
      FillBatch(generator.value, prepare);
      if held == [] {
        if active == [] {
          CloseGenerator();
        }
        return true;
      }
      if |uids| != |held| {
        return false;
      }
      if !Distinct(uids) {
        return false;
      }
      StartBatch(uids);
      return true;
    }

    method CloseGenerator()
      modifies this`generator
      ensures generator == None
    {
      if generator != None {
        generator := None;
      }
    }

    method Tick(responses: seq<VlmResponse>, prepare: V.Preparer, uids: seq<Uid>) returns (ok: bool)
      requires held == []
      modifies this
      ensures (State(), ok) == V.Tick(cfg, old(State()), responses, prepare, uids)
    {
      if generator == None && pending == [] {
        return true;
      }
      ghost var s := State();
      DeliverKeepsHeld(cfg, s, responses);
      if active != [] && generator != None {
        StepGenerator(responses);
      }
      if generator != None && active == [] && pending == [] {
        CloseGenerator();
      }
      assert State() == V.Polled(cfg, s, responses);
      ok := AdmitPending(prepare, uids);
    }
  }

  lemma ScanUnfolds(cfg: V.Config, b: Board, key: Sampling, prepare: V.Preparer, i: nat)
    requires i <= |b.pending|
    ensures V.Scan(cfg, b, key, prepare, i) ==
            if i == |b.pending| || |b.active| + |b.held| >= cfg.decodeConcurrency then b
            else if b.pending[i].request.sampling != key then V.Scan(cfg, b, key, prepare, i + 1)
            else
              var b' := V.Examine(b, prepare, i);
              if |b'.held| >= cfg.promptConcurrency then b' else V.Scan(cfg, b', key, prepare, i)
  {
  }

  lemma WithoutMiddle<T>(a: seq<T>, b: seq<T>)
    requires b != []
    ensures Without(a + b, |a|) == a + b[1..]
  {
  }

  lemma {:induction false} DeliverKeepsHeld(cfg: V.Config, s: V.State, responses: seq<VlmResponse>)
    ensures V.DeliverAll(cfg, s, responses).board.held == s.board.held
  {
    if responses != [] {
      DeliverKeepsHeld(cfg, s, responses[..|responses| - 1]);
    }
  }
}

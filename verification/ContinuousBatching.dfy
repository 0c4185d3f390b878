/** The text scheduler as the object the worker drives: each method is one step of the state
    machine in TextScheduler. */
module ContinuousBatching {
  import opened Basics
  import opened CacheBudget
  import opened Generation
  import opened RequestBoard
  import opened Streaming
  import opened T = TextScheduler

  class ContinuousBatchScheduler {
    const cfg: Config
    const store: PromptCacheStore
    var pending: seq<Job>
    var active: seq<Job>
    var generator: bool
    /** Every event handed to the sink so far. */
    var sink: seq<Event>
    // records of the model: the first two number submissions and responses for the jobs' own
    // records (ticket, since), which no branch looks at
    var next: nat
    var heard: seq<Response>
    ghost var done: seq<Done>
    ghost var accepted: set<nat>
    ghost var withdrawn: set<nat>
    ghost var admitted: seq<nat>

    ghost predicate Valid()
      reads this, store
    {
      store.Valid() && store.manager == null && store.trim == cfg.ctx.trim
    }

    ghost function State(): T.State
      reads this, store
    {
      T.State(Board(pending, [], active, sink, next, done), generator, store.State(), heard, accepted, withdrawn, admitted)
    }

    constructor (cfg: Config, store: PromptCacheStore)
      requires store.Valid() && store.manager == null && store.trim == cfg.ctx.trim
      ensures Valid() && this.cfg == cfg && this.store == store && State() == Initial(store.State())
    {
      this.cfg, this.store := cfg, store;
      pending, active, generator, sink := [], [], false, [];
      next, done, heard, accepted, withdrawn, admitted := 0, [], [], {}, {}, [];
    }

    method Submit(r: Request)
      requires Valid()
      modifies this, store
      ensures Valid() && State() == T.Submit(cfg, old(State()), r)
    {
      if r.model != cfg.ctx.modelId {
        sink := sink + [Error(next)];
        next := next + 1;
        return;
      }
      var tokens := cfg.ctx.buildTokens(r);
      if !cfg.ctx.tokensAllowed(r, tokens) {
        sink := sink + [Error(next)];
        next := next + 1;
        return;
      }
      var cached := store.Lookup(tokens, []);
      pending := pending + [NewJob(next, r, tokens, cached)];
      accepted := accepted + {next};
      next := next + 1;
    }

    method EmitCancelled(job: Job, until: nat)
      modifies this`sink, this`done
      ensures sink == old(sink) + [ReplyOf(Cancelled(job, until))] && done == old(done) + [Cancelled(job, until)]
    {
      sink := sink + [Reply(job.ticket, job.rendered, "cancelled", |job.prompt|, |job.generated|)];
      done := done + [Cancelled(job, until)];
    }

    method Cancel(id: string) returns (handled: bool)
      requires Valid()
      modifies this
      ensures Valid() && State() == T.Cancel(old(State()), id)
      ensures handled <==> SomebodyHas(old(pending), id) || SomebodyHas(old(active), id)
    {
      FirstIsTaken(pending, id);
      FirstIsTaken(active, id);
      var i := FindId(pending, id);
      if i < |pending| {
        var job := pending[i];
        pending := Without(pending, i);
        withdrawn := withdrawn + {job.ticket};
        EmitCancelled(job, 0);
        return true;
      }
      var k := FindId(active, id);
      if k < |active| {
        var job := active[k];
        active := Without(active, k);
        EmitCancelled(job, |heard|);
        return true;
      }
      return false;
    }

    /** The job's text after a new token, with the delta sent when it streams. */
    method EmitDelta(job: Job) returns (job': Job)
      modifies this`sink
      ensures var decoded := cfg.ctx.decode(job.generated);
              var text := if job.request.stream then DeltaText(job.rendered, decoded) else "";
              && job' == job.(rendered := decoded, said := job.said + text)
              && sink == old(sink) + (if text == "" then [] else [Delta(job.ticket, text)])
    {
      var decoded := cfg.ctx.decode(job.generated);
      if !job.request.stream {
        job' := job.(rendered := decoded);
        return;
      }
      var delta := if job.rendered <= decoded then decoded[|job.rendered|..] else decoded;
      if delta != "" {
        sink := sink + [Delta(job.ticket, delta)];
      }
      job' := job.(rendered := decoded, said := job.said + delta);
    }

    method FinishJob(job: Job, r: Response)
      requires Valid() && r.finish.Some?
      modifies this`sink, this`done, store
      ensures Valid()
      ensures store.State() == FinishStore(cfg.ctx, old(store.State()), job, r)
      ensures var d := Finish(cfg.ctx.decode, job, r.finish.value, |heard|);
              done == old(done) + [d] && sink == old(sink) + [ReplyOf(d)]
    {
      var text := job.rendered;
      if !job.request.stream {
        text := cfg.ctx.decode(job.generated);
      }
      if r.promptCache != None {
        var key := (if job.cached != None then job.cached.value.tokens else []) + job.prompt;
        var sequence := if r.allTokens != None then r.allTokens.value else key;
        var cut := PromptSnapshot(cfg.ctx.trim, r.promptCache.value, sequence, key);
        if cut != None {
          store.Remember(key, cut.value, []);
        }
      }
      done := done + [Finish(cfg.ctx.decode, job, r.finish.value, |heard|)];
      sink := sink + [Reply(job.ticket, text, r.finish.value, |job.prompt|, |job.generated|)];
    }

    method DeliverResponse(r: Response)
      requires Valid()
      modifies this, store
      ensures Valid() && State() == Deliver(cfg, old(State()), r)
    {
      ghost var s, decode := State(), cfg.ctx.decode;
      heard := heard + [r];
      var k := FindUid(active, r.uid);
      if k == |active| {
        return;
      }
      var job := HearToken(active[k], r);
      active := active[k := job];
      assert State().board == Advance(s.board, k, job, TextFor(decode, s.board.active[k], r));
      if r.finish == None {
        return;
      }
      FinishJob(job, r);
      active := Without(active, k);
    }

    method HearToken(job: Job, r: Response) returns (job': Job)
      modifies this`sink
      ensures job' == Hear(cfg.ctx.decode, job, r)
      ensures var text := TextFor(cfg.ctx.decode, job, r);
              sink == old(sink) + (if text == "" then [] else [Delta(job.ticket, text)])
    {
      if r.finish == Some("stop") {
        return job;
      }
      job' := job.(generated := job.generated + [r.token]);
      job' := EmitDelta(job');
    }

    method StepGenerator(responses: seq<Response>)
      requires Valid()
      modifies this, store
      ensures Valid() && State() == DeliverAll(cfg, old(State()), responses)
    {
      ghost var s := State();
      for i := 0 to |responses|
        invariant Valid() && State() == DeliverAll(cfg, s, responses[..i])
      {
        assert responses[..i + 1][..i] == responses[..i];
        DeliverResponse(responses[i]);
      }
      assert responses[..|responses|] == responses;
    }

    /** Takes jobs off the head of the queue while there is room. */
    method TakeBatch() returns (batch: seq<Job>)
      modifies this`pending
      ensures var n := Max(0, Min(|old(pending)|, Min(cfg.promptConcurrency, cfg.decodeConcurrency - |active|)));
              batch == old(pending)[..n] && pending == old(pending)[n..]
    {
      batch := [];
      while pending != [] && |batch| < cfg.promptConcurrency
        invariant |batch| <= |old(pending)| && batch == old(pending)[..|batch|] && pending == old(pending)[|batch|..]
        invariant |batch| <= Max(0, Min(cfg.promptConcurrency, cfg.decodeConcurrency - |active|))
        decreases |pending|
      {
        if |active| + |batch| >= cfg.decodeConcurrency {
          break;
        }
        batch := batch + [pending[0]];
        pending := pending[1..];
      }
    }

    /** One job of the batch starts running; rest is what stays in the queue after the batch. */
    method StartJob(job: Job, uid: Uid, ghost m: T.State, ghost rest: seq<Job>)
      requires Valid() && m.board.pending != [] && job == m.board.pending[0] && pending == rest
      requires State() == m.(board := m.board.(pending := rest))
      modifies this
      ensures Valid() && pending == rest && heard == old(heard)
      ensures var job' := Admitted(job, uid, |m.heard|);
              State() == m.(board := m.board.(pending := rest, active := Put(m.board.active, job')), admitted := m.admitted + [job'.ticket])
    {
      var job' := Admitted(job, uid, |heard|);
      admitted := admitted + [job'.ticket];
      active := PutJob(active, job');
    }

    /** Assigns the generator's uids to the batch. */
    method StartBatch(batch: seq<Job>, uids: seq<Uid>, ghost s: T.State)
      requires Valid() && Distinct(uids) && |uids| == |batch| <= |s.board.pending|
      requires batch == s.board.pending[..|batch|] && pending == s.board.pending[|batch|..]
      requires State() == s.(board := s.board.(pending := pending))
      modifies this
      ensures Valid() && State() == AdmitN(s, uids, |uids|)
    {
      ghost var rest := pending;
      for i := 0 to |batch|
        invariant Valid() && pending == rest
        invariant State() == (var m := AdmitN(s, uids, i); m.(board := m.board.(pending := rest)))
      {
        AdmitNTakes(cfg, s, uids, i);
        StartJob(batch[i], uids[i], AdmitN(s, uids, i), rest);
      }
      AdmitNTakes(cfg, s, uids, |batch|);
    }

    /** False when the source raises: the generator answered insert with unusable uids. */
    method Admit(uids: seq<Uid>) returns (ok: bool)
      requires Valid()
      modifies this
      ensures Valid() && (State(), ok) == AdmitPending(cfg, old(State()), uids)
    {
      if pending == [] {
        return true;
      }
      ghost var before := State();
      generator := true;
      if |active| >= cfg.decodeConcurrency {
        return true;
      }
      ghost var s := State();
      var batch := TakeBatch();
      assert |batch| == BatchSize(cfg, before);
      if batch == [] {
        return true;
      }
      if |uids| != |batch| {
        return false;
      }
      if !Distinct(uids) {
        return false;
      }
      StartBatch(batch, uids, s);
      return true;
    }

    method Tick(responses: seq<Response>, uids: seq<Uid>) returns (ok: bool)
      requires Valid()
      modifies this, store
      ensures Valid() && (State(), ok) == T.Tick(cfg, old(State()), responses, uids)
    {
      if !generator && pending == [] {
        return true;
      }
      if active != [] && generator {
        StepGenerator(responses);
      }
      ok := Admit(uids);
    }
  }
}

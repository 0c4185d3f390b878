/** The continuous-batching scheduler for text requests (ContinuousBatchScheduler in
    python/mlx_worker/batching.py): its steps as a state machine, and what every run keeps. */
module TextScheduler {
  import opened Basics
  import opened PromptCache
  import opened Generation
  import opened RequestBoard
  import opened Streaming

  datatype Config = Config(ctx: Context, promptConcurrency: int, decodeConcurrency: int)

  /** heard is everything the generator has said so far; accepted, withdrawn and admitted record
      which tickets were queued, cancelled in the queue, and handed to the generator. */
  datatype State = State(board: Board, generator: bool, store: Store, heard: seq<Response>,
                         accepted: set<nat>, withdrawn: set<nat>, admitted: seq<nat>)

  function Initial(store: Store): State {
    State(EMPTY, false, store, [], {}, {}, [])
  }

  // ------------------------------------------------------------------ steps

  predicate Refuses(ctx: Context, r: Request) {
    r.model != ctx.modelId || !ctx.tokensAllowed(r, ctx.buildTokens(r))
  }

  function NewJob(ticket: nat, r: Request, tokens: seq<Token>, cached: Option<CachedPrompt>): Job {
    Job(ticket, r, tokens, cached, 0, 0, [], "", "")
  }

  function Submit(cfg: Config, s: State, r: Request): State {
    if Refuses(cfg.ctx, r) then s.(board := Refuse(s.board))
    else
      var tokens := cfg.ctx.buildTokens(r);
      var job := NewJob(s.board.next, r, tokens, Best(s.store.entries, [], tokens, cfg.ctx.trim));
      s.(board := Enqueue(s.board, job), store := AfterLookup(s.store, [], tokens, cfg.ctx.trim),
         accepted := s.accepted + {job.ticket})
  }

  /** The first waiting job with the id, or else the first running one. */
  function Cancel(s: State, id: string): State {
    var i, k := WithId(s.board.pending, id), WithId(s.board.active, id);
    if i < |s.board.pending| then
      var job := s.board.pending[i];
      s.(board := Withdraw(s.board, i, Cancelled(job, 0)), withdrawn := s.withdrawn + {job.ticket})
    else if k < |s.board.active| then
      s.(board := Close(s.board, k, Cancelled(s.board.active[k], |s.heard|)))
    else s
  }

  /** The text sent on a response: nothing for a stop token or a client that does not stream. */
  function TextFor(decode: Decoder, job: Job, r: Response): string {
    if r.finish == Some("stop") || !job.request.stream then ""
    else DeltaText(job.rendered, decode(job.generated + [r.token]))
  }

  /** A job takes in one response: the token, unless it is a stop token. */
  function Hear(decode: Decoder, job: Job, r: Response): Job {
    if r.finish == Some("stop") then job
    else
      var generated := job.generated + [r.token];
      job.(generated := generated, rendered := decode(generated), said := job.said + TextFor(decode, job, r))
  }

  function Finish(decode: Decoder, job: Job, reason: string, until: nat): Done {
    Done(job, if job.request.stream then job.rendered else decode(job.generated), reason, until, false)
  }

  /** The tokens the finishing KV state is stored under: the reused prefix, then the prompt. */
  function StorageKey(job: Job): seq<Token> {
    (if job.cached.Some? then job.cached.value.tokens else []) + job.prompt
  }

  function FinishSnapshot(ctx: Context, job: Job, r: Response): Option<Snapshot> {
    if r.promptCache.None? then None
    else
      var sequence := if r.allTokens.Some? then r.allTokens.value else StorageKey(job);
      PromptSnapshot(ctx.trim, r.promptCache.value, sequence, StorageKey(job))
  }

  function FinishStore(ctx: Context, store: Store, job: Job, r: Response): Store {
    var cut := FinishSnapshot(ctx, job, r);
    if cut.None? then store else AfterRemember(store, [], StorageKey(job), cut.value)
  }

  /** One response of the generator reaches the job it is for, if that is still running. */
  function Deliver(cfg: Config, s: State, r: Response): State {
    var k, decode, heard := WithUid(s.board.active, r.uid), cfg.ctx.decode, s.heard + [r];
    if k == |s.board.active| then s.(heard := heard)
    else
      var job := Hear(decode, s.board.active[k], r);
      var board := Advance(s.board, k, job, TextFor(decode, s.board.active[k], r));
      if r.finish.None? then s.(heard := heard, board := board)
      else
        s.(heard := heard, board := Close(board, k, Finish(decode, job, r.finish.value, |heard|)),
           store := FinishStore(cfg.ctx, s.store, job, r))
  }

  function DeliverAll(cfg: Config, s: State, responses: seq<Response>): (s': State)
    ensures s'.board.next == s.board.next
  {
    if responses == [] then s
    else Deliver(cfg, DeliverAll(cfg, s, responses[..|responses| - 1]), responses[|responses| - 1])
  }

  function BatchSize(cfg: Config, s: State): nat {
    Max(0, Min(|s.board.pending|, Min(cfg.promptConcurrency, cfg.decodeConcurrency - |s.board.active|)))
  }

  /** The job as handed to the generator; a hit on the whole prompt is not used. */
  function Admitted(job: Job, uid: Uid, since: nat): Job {
    job.(uid := uid, since := since,
         cached := if job.cached.Some? && |job.cached.value.tokens| < |job.prompt| then job.cached else None)
  }

  /** A dictionary assignment: a uid that is already in use loses its job. */
  function AdmitN(s: State, uids: seq<Uid>, n: nat): (s': State)
    requires n <= |s.board.pending| && n <= |uids|
    ensures |s'.board.pending| == |s.board.pending| - n && s'.board.next == s.board.next
  {
    if n == 0 then s
    else
      var s' := AdmitN(s, uids, n - 1);
      var job := Admitted(s'.board.pending[0], uids[n - 1], |s.heard|);
      s'.(board := s'.board.(pending := s'.board.pending[1..], active := Put(s'.board.active, job)),
          admitted := s'.admitted + [job.ticket])
  }

  /** False when the generator's answer to insert is unusable: the call raises, with the batch
      already taken off the queue. */
  function AdmitPending(cfg: Config, s: State, uids: seq<Uid>): (State, bool) {
    if s.board.pending == [] then (s, true)
    else
      var s', n := s.(generator := true), BatchSize(cfg, s);
      if n == 0 then (s', true)
      else if |uids| != n || !Distinct(uids) then
        (s'.(board := s'.board.(pending := s'.board.pending[n..])), false)
      else (AdmitN(s', uids, n), true)
  }

  function Polled(cfg: Config, s: State, responses: seq<Response>): State {
    if s.board.active != [] && s.generator then DeliverAll(cfg, s, responses) else s
  }

  /** responses is what one poll of the generator returns, uids what it answers to an insert. */
  function Tick(cfg: Config, s: State, responses: seq<Response>, uids: seq<Uid>): (State, bool) {
    if !s.generator && s.board.pending == [] then (s, true)
    else AdmitPending(cfg, Polled(cfg, s, responses), uids)
  }

  predicate Idle(s: State) {
    s.board.pending == [] && s.board.active == []
  }

  datatype Input = DoSubmit(request: Request) | DoCancel(id: string) | DoTick(responses: seq<Response>, uids: seq<Uid>)

  function Apply(cfg: Config, s: State, input: Input): State {
    match input
    case DoSubmit(r) => Submit(cfg, s, r)
    case DoCancel(id) => Cancel(s, id)
    case DoTick(responses, uids) => Tick(cfg, s, responses, uids).0
  }

  function Run(cfg: Config, s: State, inputs: seq<Input>): State {
    if inputs == [] then s else Apply(cfg, Run(cfg, s, inputs[..|inputs| - 1]), inputs[|inputs| - 1])
  }

  /** The generator's contract for inserts: one uid per job, none of them in use. */
  ghost predicate FreshUids(cfg: Config, s: State, uids: seq<Uid>) {
    && |uids| == BatchSize(cfg, s) && Distinct(uids)
    && forall u <- uids, j <- s.board.active :: j.uid != u
  }

  ghost predicate GeneratorObeys(cfg: Config, s: State, input: Input) {
    input.DoTick? && BatchSize(cfg, Polled(cfg, s, input.responses)) > 0 ==> FreshUids(cfg, Polled(cfg, s, input.responses), input.uids)
  }

  ghost predicate ObeyedAlong(cfg: Config, s: State, inputs: seq<Input>) {
    forall n | 0 <= n < |inputs| :: GeneratorObeys(cfg, Run(cfg, s, inputs[..n]), inputs[n])
  }

  // ------------------------------------------------------------- invariants

  ghost predicate Bounded(cfg: Config, s: State) {
    && |s.board.active| <= Max(0, cfg.decodeConcurrency)
    && (s.board.active != [] ==> s.generator)
    && s.board.held == [] && UidsApart(s.board.active)
  }

  function InLine(s: State): seq<nat> {
    s.admitted + TicketsOf(s.board.pending)
  }

  /** Those admitted, then those waiting, are all accepted submissions but the withdrawn ones,
      in the order they were submitted. */
  ghost predicate InOrder(s: State) {
    LineIs(InLine(s), s.accepted, s.withdrawn, s.board.next)
  }

  ghost predicate LineIs(line: seq<nat>, accepted: set<nat>, withdrawn: set<nat>, next: nat) {
    && (forall i, j | 0 <= i < j < |line| :: line[i] < line[j])
    && Elements(line) == accepted - withdrawn
    && (forall t <- accepted :: t < next)
    && (forall t <- withdrawn :: t < next)
  }

  /** A job's tokens are what the responses since its admission held for its uid, and its text
      and deltas are what those tokens render to. */
  ghost predicate Follows(decode: Decoder, since: seq<Response>, j: Job) {
    && j.generated == Tokens(Stream(since, j.uid))
    && j.rendered == Rendered(decode, j.generated)
    && j.said == if j.request.stream then Spoken(decode, j.generated) else ""
  }

  ghost predicate Waiting(j: Job) {
    j.generated == [] && j.rendered == "" && j.said == "" && j.since == 0
  }

  ghost predicate Running(decode: Decoder, heard: seq<Response>, j: Job) {
    && j.since <= |heard|
    && Follows(decode, heard[j.since..], j) && !Finished(Stream(heard[j.since..], j.uid))
  }

  /** An answered job ended with its stream (or was cancelled), and was sent the text of its tokens. */
  ghost predicate AnsweredRight(decode: Decoder, heard: seq<Response>, d: Done) {
    && d.job.since <= d.until <= |heard|
    && Follows(decode, heard[d.job.since..d.until], d.job)
    && (!d.cancelled ==>
          var s := Stream(heard[d.job.since..d.until], d.job.uid);
          Finished(s) && s[|s| - 1].finish == Some(d.finish))
    && d.text == if d.cancelled || d.job.request.stream then Rendered(decode, d.job.generated) else decode(d.job.generated)
  }

  ghost predicate AllRunning(decode: Decoder, heard: seq<Response>, active: seq<Job>) {
    forall i | 0 <= i < |active| :: Running(decode, heard, active[i])
  }

  ghost predicate AllRight(decode: Decoder, heard: seq<Response>, done: seq<Done>) {
    forall i | 0 <= i < |done| :: AnsweredRight(decode, heard, done[i])
  }

  ghost predicate JobsRight(cfg: Config, s: State) {
    && (forall i | 0 <= i < |s.board.pending| :: Waiting(s.board.pending[i]))
    && AllRunning(cfg.ctx.decode, s.heard, s.board.active)
    && AllRight(cfg.ctx.decode, s.heard, s.board.done)
  }

  ghost predicate AllPrompted(ctx: Context, jobs: seq<Job>) {
    forall i | 0 <= i < |jobs| :: jobs[i].prompt == ctx.buildTokens(jobs[i].request)
  }

  /** Every job, waiting, running or answered, has the prompt of its request. */
  ghost predicate Prompted(ctx: Context, b: Board) {
    && AllPrompted(ctx, b.pending) && AllPrompted(ctx, b.active)
    && forall i | 0 <= i < |b.done| :: b.done[i].job.prompt == ctx.buildTokens(b.done[i].job.request)
  }

  ghost predicate Inv(cfg: Config, s: State) {
    Accounted(s.board) && Bounded(cfg, s) && InOrder(s) && JobsRight(cfg, s) && Prompted(cfg.ctx, s.board)
  }

  // ------------------------------------------- the order of the waiting line

  lemma LineGrows(line: seq<nat>, accepted: set<nat>, withdrawn: set<nat>, next: nat)
    requires LineIs(line, accepted, withdrawn, next)
    ensures LineIs(line + [next], accepted + {next}, withdrawn, next + 1)
  {
    assert (line + [next])[..|line|] == line;
    forall i | 0 <= i < |line| ensures line[i] < next {
      ElementsHas(line, line[i]);
    }
  }

  lemma LineShrinks(line: seq<nat>, accepted: set<nat>, withdrawn: set<nat>, next: nat, at: nat)
    requires LineIs(line, accepted, withdrawn, next) && at < |line|
    ensures LineIs(Without(line, at), accepted, withdrawn + {line[at]}, next)
  {
    forall i, j | 0 <= i < j < |line| - 1 ensures Without(line, at)[i] < Without(line, at)[j] {
      WithoutBefore(line, at, i);
      WithoutBefore(line, at, j);
    }
    ElementsWithout(line, at);
  }

  lemma SubmitKeepsOrder(cfg: Config, s: State, r: Request)
    requires InOrder(s)
    ensures InOrder(Submit(cfg, s, r))
  {
    var s' := Submit(cfg, s, r);
    if Refuses(cfg.ctx, r) {
      assert InLine(s') == InLine(s);
    } else {
      hide LineIs;
      assert InLine(s') == InLine(s) + [s.board.next];
      LineGrows(InLine(s), s.accepted, s.withdrawn, s.board.next);
    }
  }

  lemma CancelShortensLine(s: State, id: string)
    requires WithId(s.board.pending, id) < |s.board.pending|
    ensures InLine(Cancel(s, id)) == Without(InLine(s), |s.admitted| + WithId(s.board.pending, id))
  {
    var i := WithId(s.board.pending, id);
    TicketsOfWithout(s.board.pending, i);
    WithoutInSecond(s.admitted, TicketsOf(s.board.pending), i);
    hide Without, TicketsOf;
  }

  lemma CancelKeepsOrder(s: State, id: string)
    requires InOrder(s)
    ensures InOrder(Cancel(s, id))
  {
    hide LineIs;
    var s', i, line := Cancel(s, id), WithId(s.board.pending, id), InLine(s);
    if i < |s.board.pending| {
      CancelShortensLine(s, id);
      assert line[|s.admitted| + i] == s.board.pending[i].ticket;
      LineShrinks(line, s.accepted, s.withdrawn, s.board.next, |s.admitted| + i);
    } else {
      assert s'.board.pending == s.board.pending && s'.admitted == s.admitted;
      assert InLine(s') == line;
    }
  }

  // ------------------------------------------------------- prompts of jobs

  lemma RemovalKeepsPrompts(ctx: Context, jobs: seq<Job>, i: nat)
    requires AllPrompted(ctx, jobs) && i < |jobs|
    ensures AllPrompted(ctx, Without(jobs, i))
  {
    hide Without;
    forall n | 0 <= n < |jobs| - 1 ensures Without(jobs, i)[n].prompt == ctx.buildTokens(Without(jobs, i)[n].request) {
      WithoutBefore(jobs, i, n);
    }
  }

  lemma CancelKeepsPrompts(cfg: Config, s: State, id: string)
    requires Prompted(cfg.ctx, s.board)
    ensures Prompted(cfg.ctx, Cancel(s, id).board)
  {
    hide Without;
    var i, k := WithId(s.board.pending, id), WithId(s.board.active, id);
    if i < |s.board.pending| {
      RemovalKeepsPrompts(cfg.ctx, s.board.pending, i);
    } else if k < |s.board.active| {
      RemovalKeepsPrompts(cfg.ctx, s.board.active, k);
    }
  }

  lemma DeliverKeepsPrompts(cfg: Config, s: State, r: Response)
    requires Prompted(cfg.ctx, s.board)
    ensures Prompted(cfg.ctx, Deliver(cfg, s, r).board)
  {
    hide Without, TextFor, FinishStore;
    var k := WithUid(s.board.active, r.uid);
    if k < |s.board.active| {
      var job := Hear(cfg.ctx.decode, s.board.active[k], r);
      assert job.prompt == s.board.active[k].prompt && job.request == s.board.active[k].request;
      RemovalKeepsPrompts(cfg.ctx, s.board.active[k := job], k);
    }
  }

  // -------------------------------------------------- submitting, cancelling

  /** A request for the loaded model with allowed tokens is queued, with the prompt of its tokens
      and the hit of one lookup; any other gets one error. */
  lemma SubmitQueuesOrRefuses(cfg: Config, s: State, r: Request)
    ensures var s', tokens := Submit(cfg, s, r), cfg.ctx.buildTokens(r);
            if r.model == cfg.ctx.modelId && cfg.ctx.tokensAllowed(r, tokens) then
              && Queued(s.board, s'.board, r)
              && s'.board.pending[|s.board.pending|].prompt == tokens
              && s'.board.pending[|s.board.pending|].cached == Best(s.store.entries, [], tokens, cfg.ctx.trim)
              && s'.store == AfterLookup(s.store, [], tokens, cfg.ctx.trim)
              && s'.accepted == s.accepted + {s.board.next}
              && s' == s.(board := s'.board, store := s'.store, accepted := s'.accepted)
            else OneError(s.board, s'.board) && s' == s.(board := s'.board)
  {
    hide Best, AfterLookup;
  }

  /** A cancellation answers exactly the first waiting or else the first running request of the id. */
  lemma CancelAnswersTheRequest(s: State, id: string)
    ensures Cancels(s.board, Cancel(s, id).board, id)
    ensures var s' := Cancel(s, id);
            && s' == s.(board := s'.board, withdrawn := s'.withdrawn)
            && s'.withdrawn == if SomebodyHas(s.board.pending, id) then s.withdrawn + {s.board.pending[WithId(s.board.pending, id)].ticket} else s.withdrawn
  {
    FirstIsTaken(s.board.pending, id);
    FirstIsTaken(s.board.active, id);
    hide TakesFirst, Without;
  }

  lemma SubmitKeeps(cfg: Config, s: State, r: Request)
    requires Inv(cfg, s)
    ensures Inv(cfg, Submit(cfg, s, r))
  {
    SubmitKeepsOrder(cfg, s, r);
    if Refuses(cfg.ctx, r) {
      RefuseAccounted(s.board);
    } else {
      EnqueueAccounted(s.board, Submit(cfg, s, r).board.pending[|s.board.pending|]);
    }
  }

  lemma AllRightSnoc(decode: Decoder, heard: seq<Response>, done: seq<Done>, d: Done)
    requires AllRight(decode, heard, done) && AnsweredRight(decode, heard, d)
    ensures AllRight(decode, heard, done + [d])
  {
    hide AnsweredRight;
  }

  lemma RemovalKeepsRunning(decode: Decoder, heard: seq<Response>, active: seq<Job>, k: nat)
    requires AllRunning(decode, heard, active) && k < |active|
    ensures AllRunning(decode, heard, Without(active, k))
  {
    hide Running, Without;
    forall n | 0 <= n < |active| - 1 ensures Running(decode, heard, Without(active, k)[n]) {
      WithoutBefore(active, k, n);
    }
  }

  lemma CancelledIsRight(decode: Decoder, heard: seq<Response>, job: Job)
    ensures Waiting(job) ==> AnsweredRight(decode, heard, Cancelled(job, 0))
    ensures Running(decode, heard, job) ==> AnsweredRight(decode, heard, Cancelled(job, |heard|))
  {
    assert heard[0..0] == [];
    assert job.since <= |heard| ==> heard[job.since..|heard|] == heard[job.since..];
  }

  lemma CancelKeepsJobs(cfg: Config, s: State, id: string)
    requires JobsRight(cfg, s)
    ensures JobsRight(cfg, Cancel(s, id))
  {
    var decode, i, k := cfg.ctx.decode, WithId(s.board.pending, id), WithId(s.board.active, id);
    hide Running, AnsweredRight, AllRight, Without;
    if i < |s.board.pending| {
      var job := s.board.pending[i];
      CancelledIsRight(decode, s.heard, job);
      AllRightSnoc(decode, s.heard, s.board.done, Cancelled(job, 0));
      forall n | 0 <= n < |s.board.pending| - 1 ensures Waiting(Without(s.board.pending, i)[n]) {
        WithoutBefore(s.board.pending, i, n);
      }
    } else if k < |s.board.active| {
      var job := s.board.active[k];
      CancelledIsRight(decode, s.heard, job);
      AllRightSnoc(decode, s.heard, s.board.done, Cancelled(job, |s.heard|));
      RemovalKeepsRunning(decode, s.heard, s.board.active, k);
    }
  }

  lemma CancelKeepsAccounted(s: State, id: string)
    requires Accounted(s.board)
    ensures Accounted(Cancel(s, id).board)
  {
    var i, k := WithId(s.board.pending, id), WithId(s.board.active, id);
    if i < |s.board.pending| {
      WithdrawAccounted(s.board, i, Cancelled(s.board.pending[i], 0));
    } else if k < |s.board.active| {
      CloseAccounted(s.board, k, Cancelled(s.board.active[k], |s.heard|));
    }
  }

  lemma CancelKeepsBounds(cfg: Config, s: State, id: string)
    requires Bounded(cfg, s)
    ensures Bounded(cfg, Cancel(s, id))
  {
    hide Without, UidsApart;
    var k := WithId(s.board.active, id);
    if k < |s.board.active| {
      RemovalKeepsUidsApart(s.board.active, k);
    }
  }

  lemma CancelKeeps(cfg: Config, s: State, id: string)
    requires Inv(cfg, s)
    ensures Inv(cfg, Cancel(s, id))
  {
    hide Cancel, Accounted, Bounded, InOrder, JobsRight, Prompted;
    CancelKeepsBounds(cfg, s, id);
    CancelKeepsOrder(s, id);
    CancelKeepsJobs(cfg, s, id);
    CancelKeepsAccounted(s, id);
    CancelKeepsPrompts(cfg, s, id);
  }

  // ------------------------------------------------------- hearing responses

  lemma HearingIsRecorded(decode: Decoder, job: Job, r: Response)
    ensures var job' := Hear(decode, job, r);
            && job'.ticket == job.ticket && job'.said == job.said + TextFor(decode, job, r)
            && job'.request == job.request && job'.uid == job.uid && job'.since == job.since
  {
  }

  lemma HearFollows(decode: Decoder, since: seq<Response>, j: Job, r: Response)
    requires Follows(decode, since, j) && !Finished(Stream(since, j.uid)) && j.uid == r.uid
    ensures Follows(decode, since + [r], Hear(decode, j, r))
    ensures Stream(since + [r], j.uid) == Stream(since, j.uid) + [r]
  {
    hide Stream, Tokens, Spoken;
    StreamSnoc(since, r, j.uid);
    TokensSnoc(Stream(since, j.uid), r);
    SpokenSnoc(decode, j.generated, r.token);
    assert j.generated + [] == j.generated;
  }

  lemma OtherKeepsRunning(decode: Decoder, heard: seq<Response>, j: Job, r: Response)
    requires Running(decode, heard, j) && j.uid != r.uid
    ensures Running(decode, heard + [r], j)
  {
    hide Stream, Tokens, Spoken;
    assert (heard + [r])[j.since..] == heard[j.since..] + [r];
    StreamSnoc(heard[j.since..], r, j.uid);
  }

  lemma AnswerStaysRight(decode: Decoder, heard: seq<Response>, d: Done, r: Response)
    requires AnsweredRight(decode, heard, d)
    ensures AnsweredRight(decode, heard + [r], d)
  {
    assert (heard + [r])[d.job.since..d.until] == heard[d.job.since..d.until];
  }

  lemma AllStayRight(decode: Decoder, heard: seq<Response>, done: seq<Done>, r: Response)
    requires AllRight(decode, heard, done)
    ensures AllRight(decode, heard + [r], done)
  {
    forall i | 0 <= i < |done| ensures AnsweredRight(decode, heard + [r], done[i]) {
      AnswerStaysRight(decode, heard, done[i], r);
    }
  }

  lemma NobodyHears(decode: Decoder, heard: seq<Response>, active: seq<Job>, r: Response)
    requires AllRunning(decode, heard, active) && forall j <- active :: j.uid != r.uid
    ensures AllRunning(decode, heard + [r], active)
  {
    forall i | 0 <= i < |active| ensures Running(decode, heard + [r], active[i]) {
      OtherKeepsRunning(decode, heard, active[i], r);
    }
  }

  lemma OthersKeepRunning(decode: Decoder, heard: seq<Response>, active: seq<Job>, k: nat, r: Response)
    requires AllRunning(decode, heard, active) && UidsApart(active) && k < |active| && active[k].uid == r.uid
    ensures AllRunning(decode, heard + [r], Without(active, k))
    ensures forall i | 0 <= i < |active| && i != k :: Running(decode, heard + [r], active[i])
  {
    forall i | 0 <= i < |active| && i != k ensures Running(decode, heard + [r], active[i]) {
      OtherKeepsRunning(decode, heard, active[i], r);
    }
    forall i | 0 <= i < |active| - 1 ensures Running(decode, heard + [r], Without(active, k)[i]) {
      WithoutBefore(active, k, i);
    }
  }

  lemma HearingKeepsRunning(decode: Decoder, heard: seq<Response>, active: seq<Job>, k: nat, r: Response)
    requires AllRunning(decode, heard, active) && UidsApart(active) && k < |active| && active[k].uid == r.uid
    requires r.finish.None?
    ensures AllRunning(decode, heard + [r], active[k := Hear(decode, active[k], r)])
  {
    hide Follows, Stream;
    var job := active[k];
    HearFollows(decode, heard[job.since..], job, r);
    assert (heard + [r])[job.since..] == heard[job.since..] + [r];
    assert Running(decode, heard + [r], Hear(decode, job, r));
    OthersKeepRunning(decode, heard, active, k, r);
  }

  lemma ContinuingKeepsJobs(cfg: Config, s: State, r: Response)
    requires JobsRight(cfg, s) && UidsApart(s.board.active)
    requires WithUid(s.board.active, r.uid) < |s.board.active| && r.finish.None?
    ensures JobsRight(cfg, Deliver(cfg, s, r))
  {
    hide Running, AnsweredRight;
    AllStayRight(cfg.ctx.decode, s.heard, s.board.done, r);
    HearingKeepsRunning(cfg.ctx.decode, s.heard, s.board.active, WithUid(s.board.active, r.uid), r);
  }

  lemma FinishingIsRight(decode: Decoder, heard: seq<Response>, job: Job, r: Response)
    requires Running(decode, heard, job) && job.uid == r.uid && r.finish.Some?
    ensures AnsweredRight(decode, heard + [r], Finish(decode, Hear(decode, job, r), r.finish.value, |heard| + 1))
  {
    hide Stream, Tokens, Spoken, Rendered, Hear;
    HearFollows(decode, heard[job.since..], job, r);
    FollowsRendered(decode, heard[job.since..] + [r], Hear(decode, job, r));
    HearingIsRecorded(decode, job, r);
    hide Follows;
    assert (heard + [r])[job.since..|heard| + 1] == heard[job.since..] + [r];
  }

  lemma FollowsRendered(decode: Decoder, since: seq<Response>, j: Job)
    requires Follows(decode, since, j)
    ensures j.rendered == Rendered(decode, j.generated)
  {
    hide Stream, Tokens, Spoken, Rendered;
  }

  lemma FinishingShape(cfg: Config, s: State, r: Response)
    requires WithUid(s.board.active, r.uid) < |s.board.active| && r.finish.Some?
    ensures var k := WithUid(s.board.active, r.uid);
            var job, s' := Hear(cfg.ctx.decode, s.board.active[k], r), Deliver(cfg, s, r);
            && s'.heard == s.heard + [r]
            && s'.board.pending == s.board.pending && s'.board.active == Without(s.board.active, k)
            && s'.board.done == s.board.done + [Finish(cfg.ctx.decode, job, r.finish.value, |s.heard| + 1)]
  {
    var k := WithUid(s.board.active, r.uid);
    hide Hear, TextFor, FinishStore, Without;
    WithoutUpdate(s.board.active, k, Hear(cfg.ctx.decode, s.board.active[k], r));
  }

  lemma RunningAt(decode: Decoder, heard: seq<Response>, active: seq<Job>, k: nat)
    requires AllRunning(decode, heard, active) && k < |active|
    ensures Running(decode, heard, active[k])
  {
  }

  lemma FinishingKeepsJobs(cfg: Config, s: State, r: Response)
    requires JobsRight(cfg, s) && UidsApart(s.board.active)
    requires WithUid(s.board.active, r.uid) < |s.board.active| && r.finish.Some?
    ensures JobsRight(cfg, Deliver(cfg, s, r))
  {
    var k, decode := WithUid(s.board.active, r.uid), cfg.ctx.decode;
    var job := s.board.active[k];
    hide AllRunning, AllRight, Deliver, Hear, Finish, AnsweredRight, Running, UidsApart, Without;
    RunningAt(decode, s.heard, s.board.active, k);
    FinishingIsRight(decode, s.heard, job, r);
    AllStayRight(decode, s.heard, s.board.done, r);
    OthersKeepRunning(decode, s.heard, s.board.active, k, r);
    FinishingShape(cfg, s, r);
    AllRightSnoc(decode, s.heard + [r], s.board.done, Finish(decode, Hear(decode, job, r), r.finish.value, |s.heard| + 1));
  }

  lemma DeliverKeepsJobs(cfg: Config, s: State, r: Response)
    requires JobsRight(cfg, s) && UidsApart(s.board.active)
    ensures JobsRight(cfg, Deliver(cfg, s, r))
  {
    if WithUid(s.board.active, r.uid) == |s.board.active| {
      AllStayRight(cfg.ctx.decode, s.heard, s.board.done, r);
      NobodyHears(cfg.ctx.decode, s.heard, s.board.active, r);
    } else if r.finish.None? {
      ContinuingKeepsJobs(cfg, s, r);
    } else {
      FinishingKeepsJobs(cfg, s, r);
    }
  }

  lemma DeliverKeepsAccounted(cfg: Config, s: State, r: Response)
    requires Accounted(s.board)
    ensures Accounted(Deliver(cfg, s, r).board)
  {
    hide Accounted, Hear, TextFor, FinishStore, Close;
    var k, decode := WithUid(s.board.active, r.uid), cfg.ctx.decode;
    if k < |s.board.active| {
      var job, text := Hear(decode, s.board.active[k], r), TextFor(decode, s.board.active[k], r);
      HearingIsRecorded(decode, s.board.active[k], r);
      AdvanceAccounted(s.board, k, job, text);
      if r.finish.Some? {
        CloseAccounted(Advance(s.board, k, job, text), k, Finish(decode, job, r.finish.value, |s.heard| + 1));
      }
    }
  }

  lemma DeliverKeepsBounds(cfg: Config, s: State, r: Response)
    requires Bounded(cfg, s)
    ensures Bounded(cfg, Deliver(cfg, s, r))
  {
    var k := WithUid(s.board.active, r.uid);
    if k < |s.board.active| {
      var active' := s.board.active[k := Hear(cfg.ctx.decode, s.board.active[k], r)];
      assert UidsApart(active');
      RemovalKeepsUidsApart(active', k);
    }
  }

  lemma BoundedUids(cfg: Config, s: State)
    requires Bounded(cfg, s)
    ensures UidsApart(s.board.active)
  {
  }

  lemma DeliverKeeps(cfg: Config, s: State, r: Response)
    requires Inv(cfg, s)
    ensures Inv(cfg, Deliver(cfg, s, r))
    ensures Deliver(cfg, s, r).board.pending == s.board.pending && Deliver(cfg, s, r).generator == s.generator
  {
    hide Prompted, Accounted, JobsRight, Bounded, LineIs, Hear, TextFor, FinishStore, UidsApart;
    BoundedUids(cfg, s);
    DeliverKeepsJobs(cfg, s, r);
    DeliverKeepsAccounted(cfg, s, r);
    DeliverKeepsBounds(cfg, s, r);
    DeliverKeepsPrompts(cfg, s, r);
    assert InLine(Deliver(cfg, s, r)) == InLine(s);
  }

  lemma {:induction false} DeliverAllKeeps(cfg: Config, s: State, responses: seq<Response>)
    requires Inv(cfg, s)
    ensures Inv(cfg, DeliverAll(cfg, s, responses))
    ensures DeliverAll(cfg, s, responses).board.pending == s.board.pending
  {
    if responses != [] {
      DeliverAllKeeps(cfg, s, responses[..|responses| - 1]);
      DeliverKeeps(cfg, DeliverAll(cfg, s, responses[..|responses| - 1]), responses[|responses| - 1]);
    }
  }

  // -------------------------------------------------------------- admission

  function AdmitOne(s: State, uid: Uid): State
    requires s.board.pending != []
  {
    var job := Admitted(s.board.pending[0], uid, |s.heard|);
    s.(board := Activate(s.board, 0, job), admitted := s.admitted + [job.ticket])
  }

  /** There is work and room for as many jobs as there are uids, and the uids are unused. */
  ghost predicate RoomFor(cfg: Config, s: State, uids: seq<Uid>) {
    && s.generator && Distinct(uids) && |uids| <= |s.board.pending|
    && |s.board.active| + |uids| <= cfg.decodeConcurrency
    && forall j <- s.board.active :: j.uid !in uids
  }

  lemma AdmitOneKeepsJobs(cfg: Config, s: State, uid: Uid)
    requires JobsRight(cfg, s) && s.board.pending != []
    ensures JobsRight(cfg, AdmitOne(s, uid))
  {
  }

  lemma AdmitOneKeepsOrder(s: State, uid: Uid)
    requires InOrder(s) && s.board.pending != []
    ensures InOrder(AdmitOne(s, uid))
  {
    hide LineIs;
    assert InLine(AdmitOne(s, uid)) == InLine(s);
  }

  lemma AdmitOneKeeps(cfg: Config, s: State, uids: seq<Uid>)
    requires Inv(cfg, s) && RoomFor(cfg, s, uids) && uids != []
    ensures Inv(cfg, AdmitOne(s, uids[0]))
  {
    hide Accounted, InOrder, JobsRight;
    RemovalKeepsPrompts(cfg.ctx, s.board.pending, 0);
    ActivateAccounted(s.board, 0, Admitted(s.board.pending[0], uids[0], |s.heard|));
    AdmitOneKeepsOrder(s, uids[0]);
    AdmitOneKeepsJobs(cfg, s, uids[0]);
  }

  lemma AdmitNIsAdmitOne(cfg: Config, s: State, uids: seq<Uid>, n: nat)
    requires 0 < n <= |uids| <= |s.board.pending| && AdmitN(s, uids, n - 1).heard == s.heard
    requires RoomFor(cfg, AdmitN(s, uids, n - 1), uids[n - 1..])
    ensures AdmitN(s, uids, n) == AdmitOne(AdmitN(s, uids, n - 1), uids[n - 1])
  {
    var s' := AdmitN(s, uids, n - 1);
    assert uids[n - 1] == uids[n - 1..][0];
    assert Without(s'.board.pending, 0) == s'.board.pending[1..];
  }

  lemma AdmitOneKeepsAll(cfg: Config, s: State, uids: seq<Uid>, n: nat)
    requires n < |uids| && Inv(cfg, s) && RoomFor(cfg, s, uids[n..])
    ensures s.board.pending != []
    ensures Inv(cfg, AdmitOne(s, uids[n])) && RoomFor(cfg, AdmitOne(s, uids[n]), uids[n + 1..])
    ensures AdmitOne(s, uids[n]).heard == s.heard
  {
    assert uids[n..][1..] == uids[n + 1..] && uids[n..][0] == uids[n];
    AdmitOneKeeps(cfg, s, uids[n..]);
  }

  /** The first n jobs admitted: the invariant holds and there is still room for the others. */
  lemma {:induction false} AdmitNKeeps(cfg: Config, s: State, uids: seq<Uid>, n: nat)
    requires Inv(cfg, s) && RoomFor(cfg, s, uids) && n <= |uids| <= |s.board.pending|
    ensures Inv(cfg, AdmitN(s, uids, n))
    ensures RoomFor(cfg, AdmitN(s, uids, n), uids[n..]) && AdmitN(s, uids, n).heard == s.heard
  {
    hide Inv, RoomFor, AdmitOne, Put, Admitted;
    if n == 0 {
      assert uids[0..] == uids;
    } else {
      AdmitNKeeps(cfg, s, uids, n - 1);
      AdmitOneKeepsAll(cfg, AdmitN(s, uids, n - 1), uids, n - 1);
      hide AdmitN;
      AdmitNIsAdmitOne(cfg, s, uids, n);
    }
  }

  lemma AdmitPendingKeeps(cfg: Config, s: State, uids: seq<Uid>)
    requires Inv(cfg, s) && (BatchSize(cfg, s) > 0 ==> FreshUids(cfg, s, uids))
    ensures Inv(cfg, AdmitPending(cfg, s, uids).0) && AdmitPending(cfg, s, uids).1
  {
    if s.board.pending != [] {
      var s' := s.(generator := true);
      assert InLine(s') == InLine(s);
      assert Inv(cfg, s');
      if BatchSize(cfg, s) > 0 {
        AdmitNKeeps(cfg, s', uids, |uids|);
      }
    }
  }

  // -------------------------------------------------------------------- runs

  lemma StepKeeps(cfg: Config, s: State, input: Input)
    requires Inv(cfg, s) && GeneratorObeys(cfg, s, input)
    ensures Inv(cfg, Apply(cfg, s, input))
    ensures input.DoTick? ==> Tick(cfg, s, input.responses, input.uids).1
  {
    match input
    case DoSubmit(r) => SubmitKeeps(cfg, s, r);
    case DoCancel(id) => CancelKeeps(cfg, s, id);
    case DoTick(responses, uids) =>
      if s.board.active != [] && s.generator {
        DeliverAllKeeps(cfg, s, responses);
      }
      if s.generator || s.board.pending != [] {
        AdmitPendingKeeps(cfg, Polled(cfg, s, responses), uids);
      }
  }

  /** Over every run of submits, cancels and ticks: each submission is waiting, running or
      answered exactly once, and silent after its answer; at most decodeConcurrency jobs run;
      admission follows submission, minus the withdrawn; and every job's tokens, deltas and text
      come from its own responses alone. */
  lemma {:induction false} RunKeeps(cfg: Config, store: Store, inputs: seq<Input>)
    requires ObeyedAlong(cfg, Initial(store), inputs)
    ensures Inv(cfg, Run(cfg, Initial(store), inputs))
    ensures InOnePlace(Run(cfg, Initial(store), inputs).board)
  {
    if inputs != [] {
      var before := inputs[..|inputs| - 1];
      assert forall n | 0 <= n < |before| :: before[..n] == inputs[..n];
      RunKeeps(cfg, store, before);
      assert GeneratorObeys(cfg, Run(cfg, Initial(store), before), inputs[|inputs| - 1]);
      StepKeeps(cfg, Run(cfg, Initial(store), before), inputs[|inputs| - 1]);
    }
    NobodyIsHeld(Run(cfg, Initial(store), inputs).board);
  }

  /** What a client was streamed adds up to the final text exactly when the decoder never
      rewrote text it had already shown for the job's tokens. */
  lemma StreamedTextIsFinalTextIff(cfg: Config, s: State, d: Done)
    requires Inv(cfg, s) && d in s.board.done && d.job.request.stream
    ensures Said(s.board.log, d.job.ticket) == d.text <==> OnlyExtends(cfg.ctx.decode, d.job.generated)
  {
    var i :| 0 <= i < |s.board.done| && s.board.done[i] == d;
    assert AnsweredRight(cfg.ctx.decode, s.heard, s.board.done[i]);
    DeltasAreTheTextIff(cfg.ctx.decode, d.job.generated);
  }

  /** What an answered client got: the deltas it was sent, and one final event with the text of the
      answer, the reason, and the lengths of the request's prompt and of the generated tokens. */
  lemma AnswerIs(cfg: Config, s: State, d: Done)
    requires Inv(cfg, s) && d in s.board.done
    ensures Reply(d.job.ticket, d.text, d.finish, |cfg.ctx.buildTokens(d.job.request)|, |d.job.generated|) in s.board.log
    ensures d.job.prompt == cfg.ctx.buildTokens(d.job.request)
    ensures d.cancelled ==> d.finish == "cancelled"
    ensures Answers(s.board.log, d.job.ticket) == 1
    ensures Said(s.board.log, d.job.ticket) == if d.job.request.stream then Spoken(cfg.ctx.decode, d.job.generated) else ""
    ensures d.text == if d.cancelled || d.job.request.stream then Rendered(cfg.ctx.decode, d.job.generated)
                      else cfg.ctx.decode(d.job.generated)
  {
    hide Spoken, Rendered, Stream, Tokens, Balanced, Quiet, InOrder, Bounded, AllRunning, Waiting, Said;
    AnsweredExactlyOnce(s.board, d);
    hide Answers;
    var i :| 0 <= i < |s.board.done| && s.board.done[i] == d;
    assert AnsweredRight(cfg.ctx.decode, s.heard, s.board.done[i]);
  }

  /** For a decoder that only extends, a streaming client ends up with the text the same tokens
      give a client that does not stream. */
  lemma StreamingAgreesWithNotStreaming(cfg: Config, s: State, d: Done, e: Done)
    requires Inv(cfg, s) && PrefixMonotone(cfg.ctx.decode) && cfg.ctx.decode([]) == ""
    requires d in s.board.done && e in s.board.done
    requires d.job.request.stream && !e.job.request.stream && d.job.generated == e.job.generated
    ensures Said(s.board.log, d.job.ticket) == d.text == e.text && Said(s.board.log, e.job.ticket) == ""
  {
    hide PrefixMonotone, Spoken, Rendered, Inv, Said;
    AnswerIs(cfg, s, d);
    AnswerIs(cfg, s, e);
    MonotoneDecoderStreamsFaithfully(cfg.ctx.decode, d.job.generated);
  }

  lemma {:induction false} AdmitNTakes(cfg: Config, s: State, uids: seq<Uid>, n: nat)
    requires n <= |s.board.pending| && n <= |uids|
    ensures AdmitN(s, uids, n).board.pending == s.board.pending[n..]
    ensures AdmitN(s, uids, n).admitted == s.admitted + TicketsOf(s.board.pending[..n])
    ensures AdmitN(s, uids, n).heard == s.heard && AdmitN(s, uids, n).generator == s.generator
  {
    hide Put;
    if n > 0 {
      AdmitNTakes(cfg, s, uids, n - 1);
    }
  }

  /** One admission takes the head of the queue, at most promptConcurrency jobs of it. */
  lemma AdmissionTakesTheHead(cfg: Config, s: State, uids: seq<Uid>)
    requires BatchSize(cfg, s) > 0 ==> FreshUids(cfg, s, uids)
    ensures var n, s' := BatchSize(cfg, s), AdmitPending(cfg, s, uids).0;
            && n <= Max(0, cfg.promptConcurrency)
            && s'.board.pending == s.board.pending[n..]
            && s'.admitted == s.admitted + TicketsOf(s.board.pending[..n])
  {
    if s.board.pending != [] && BatchSize(cfg, s) > 0 {
      AdmitNTakes(cfg, s.(generator := true), uids, |uids|);
    }
  }

  /** The first n waiting jobs as they run after their admission: each under its uid, and without
      a hit that left nothing of the prompt to process. */
  ghost function Batch(s: State, uids: seq<Uid>, n: nat): seq<Job>
    requires n <= |s.board.pending| && n <= |uids|
  {
    seq(n, i requires 0 <= i < n =>
      var job := s.board.pending[i];
      var cached := if job.cached.Some? && |job.cached.value.tokens| < |job.prompt| then job.cached else None;
      job.(uid := uids[i], since := |s.heard|, cached := cached))
  }

  lemma BatchGrows(s: State, uids: seq<Uid>, n: nat)
    requires 0 < n <= |s.board.pending| && n <= |uids| && Distinct(uids)
    requires forall i | 0 <= i < |s.board.active| :: s.board.active[i].uid !in uids
    ensures Batch(s, uids, n) == Batch(s, uids, n - 1) + [Admitted(s.board.pending[n - 1], uids[n - 1], |s.heard|)]
    ensures var before := s.board.active + Batch(s, uids, n - 1);
            forall k | 0 <= k < |before| :: before[k].uid != uids[n - 1]
  {
    var before := s.board.active + Batch(s, uids, n - 1);
    assert uids[n - 1] in uids;
    forall k | 0 <= k < |before| ensures before[k].uid != uids[n - 1] {
      assert k < |s.board.active| ==> before[k] == s.board.active[k];
    }
  }

  lemma {:induction false} AdmitNRuns(s: State, uids: seq<Uid>, n: nat)
    requires n <= |s.board.pending| && n <= |uids| && Distinct(uids)
    requires forall i | 0 <= i < |s.board.active| :: s.board.active[i].uid !in uids
    ensures AdmitN(s, uids, n).board.active == s.board.active + Batch(s, uids, n)
  {
    hide Put, Admitted, Distinct;
    if n > 0 {
      BatchGrows(s, uids, n);
      hide Batch;
      AdmitNRuns(s, uids, n - 1);
      AdmitNPending(s, uids, n - 1);
      AdmittedUid(s.board.pending[n - 1], uids[n - 1], |s.heard|);
      PutAppends(s.board.active + Batch(s, uids, n - 1), Admitted(s.board.pending[n - 1], uids[n - 1], |s.heard|));
    } else {
      assert s.board.active + [] == s.board.active;
    }
  }

  lemma AdmittedUid(job: Job, uid: Uid, since: nat)
    ensures Admitted(job, uid, since).uid == uid
  {
  }

  lemma {:induction false} AdmitNPending(s: State, uids: seq<Uid>, n: nat)
    requires n <= |s.board.pending| && n <= |uids|
    ensures AdmitN(s, uids, n).board.pending == s.board.pending[n..]
    ensures AdmitN(s, uids, n) == s.(board := s.board.(pending := s.board.pending[n..], active := AdmitN(s, uids, n).board.active),
                                     admitted := AdmitN(s, uids, n).admitted)
  {
    hide Put;
    if n > 0 {
      AdmitNPending(s, uids, n - 1);
    }
  }

  /** How many are admitted: as many from the head of the queue as the two limits and the queue
      itself allow.  They run under the uids they were given, and nothing else changes. */
  lemma AdmissionFillsUp(cfg: Config, s: State, uids: seq<Uid>) returns (n: nat)
    requires BatchSize(cfg, s) > 0 ==> FreshUids(cfg, s, uids)
    ensures n <= |s.board.pending| && n <= Max(0, cfg.promptConcurrency) && (n > 0 ==> |s.board.active| + n <= cfg.decodeConcurrency)
    ensures n == |s.board.pending| || n >= cfg.promptConcurrency || |s.board.active| + n >= cfg.decodeConcurrency
    ensures n > 0 ==> n == |uids|
    ensures AdmitPending(cfg, s, uids).0 ==
            s.(board := s.board.(pending := s.board.pending[n..],
                                 active := s.board.active + (if n > 0 then Batch(s, uids, n) else [])),
               admitted := s.admitted + TicketsOf(s.board.pending[..n]),
               generator := s.generator || s.board.pending != [])
  {
    n := BatchSize(cfg, s);
    if n > 0 {
      var s1 := s.(generator := true);
      AdmitNRuns(s1, uids, n);
      AdmitNPending(s1, uids, n);
      AdmitNTakes(cfg, s1, uids, n);
      assert Batch(s1, uids, n) == Batch(s, uids, n);
      hide AdmitN, Batch, Distinct;
    }
  }

  lemma {:induction false} AllAreHeard(cfg: Config, s: State, responses: seq<Response>)
    ensures DeliverAll(cfg, s, responses).heard == s.heard + responses
  {
    hide Hear, Advance, Close, WithUid;
    if responses == [] {
      assert s.heard + [] == s.heard;
    } else {
      AllAreHeard(cfg, s, responses[..|responses| - 1]);
      assert responses == responses[..|responses| - 1] + [responses[|responses| - 1]];
    }
  }

  /** A tick hears everything the generator has to say to running jobs. */
  lemma TickHears(cfg: Config, s: State, responses: seq<Response>, uids: seq<Uid>)
    ensures Tick(cfg, s, responses, uids).0.heard == s.heard + (if s.board.active != [] && s.generator then responses else [])
  {
    hide DeliverAll;
    AllAreHeard(cfg, s, responses);
    assert s.heard + [] == s.heard;
    AdmitNHears(cfg, Polled(cfg, s, responses).(generator := true), uids);
  }

  lemma AdmitNHears(cfg: Config, s: State, uids: seq<Uid>)
    ensures |uids| <= |s.board.pending| ==> AdmitN(s, uids, |uids|).heard == s.heard
  {
    if |uids| <= |s.board.pending| {
      AdmitNTakes(cfg, s, uids, |uids|);
    }
  }

  /** When an admission fails: the generator answered with another number of uids than it got
      prompts, or with one twice.  Then the batch is off the queue, and nobody of it runs. */
  lemma AdmissionFailsIff(cfg: Config, s: State, uids: seq<Uid>) returns (n: nat)
    ensures n <= |s.board.pending| && n <= Max(0, cfg.promptConcurrency) && (n > 0 ==> |s.board.active| + n <= cfg.decodeConcurrency)
    ensures n == |s.board.pending| || n >= cfg.promptConcurrency || |s.board.active| + n >= cfg.decodeConcurrency
    ensures !AdmitPending(cfg, s, uids).1 <==> n > 0 && (|uids| != n || exists i, j :: 0 <= i < j < |uids| && uids[i] == uids[j])
    ensures !AdmitPending(cfg, s, uids).1 ==>
              AdmitPending(cfg, s, uids).0 == s.(generator := true, board := s.board.(pending := s.board.pending[n..]))
  {
    n := BatchSize(cfg, s);
    hide AdmitN;
  }
}

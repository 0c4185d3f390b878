/** The continuous-batching scheduler for vision-language requests (VlmContinuousBatchScheduler
    in python/mlx_worker/vlm_engine.py): its steps as a state machine, and what every run keeps.
    One generator serves one sampling setting; it is replaced when the queue wants another. */
module VlmScheduler {
  import opened Basics
  import opened PromptCache
  import opened Generation
  import opened RequestBoard
  import opened Streaming

  /** decode is None for a processor without a tokenizer. */
  datatype Config = Config(modelId: string, decode: Option<Decoder>, promptConcurrency: int, decodeConcurrency: int)

  datatype VlmResponse = VlmResponse(uid: Uid, token: Option<Token>, text: string, finish: Option<string>)

  /** generator holds the sampling setting of the running generator, if there is one. */
  datatype State = State(board: Board, generator: Option<Sampling>, heard: seq<VlmResponse>)

  const INITIAL := State(EMPTY, None, [])

  /** What preparing a request comes to: its prompt, a cancellation noticed on the way, or an error. */
  datatype Preparation = Ready(prompt: seq<Token>, cached: Option<CachedPrompt>) | Interrupted | Failed

  type Preparer = Job -> Preparation

  // -------------------------------------------------------- text of a stream

  function Ended(s: seq<VlmResponse>): bool {
    s != [] && s[|s| - 1].finish.Some?
  }

  /** The responses to one uid, up to and including the first that finishes. */
  function VlmStream(heard: seq<VlmResponse>, uid: Uid): seq<VlmResponse> {
    if heard == [] then []
    else
      var before, r := VlmStream(heard[..|heard| - 1], uid), heard[|heard| - 1];
      if r.uid == uid && !Ended(before) then before + [r] else before
  }

  lemma VlmStreamSnoc(heard: seq<VlmResponse>, r: VlmResponse, uid: Uid)
    ensures VlmStream(heard + [r], uid) ==
            var before := VlmStream(heard, uid);
            if r.uid == uid && !Ended(before) then before + [r] else before
  {
    assert (heard + [r])[..|heard + [r]| - 1] == heard;
  }

  datatype Shown = Shown(generated: seq<Token>, rendered: string)

  function WithToken(generated: seq<Token>, r: VlmResponse): seq<Token> {
    if r.token.Some? then generated + [r.token.value] else generated
  }

  /** The text a response adds: what the decoder makes of the tokens so far, or else its own. */
  function AddedText(decode: Option<Decoder>, before: Shown, r: VlmResponse): string {
    var generated := WithToken(before.generated, r);
    if decode.Some? && generated != [] then DeltaText(before.rendered, decode.value(generated)) else r.text
  }

  function ShowOne(decode: Option<Decoder>, before: Shown, r: VlmResponse): Shown {
    Shown(WithToken(before.generated, r), before.rendered + AddedText(decode, before, r))
  }

  /** Tokens and text after a stream of responses; shown text is only ever added to. */
  function Play(decode: Option<Decoder>, s: seq<VlmResponse>): Shown {
    if s == [] then Shown([], "") else ShowOne(decode, Play(decode, s[..|s| - 1]), s[|s| - 1])
  }

  function FinalText(decode: Option<Decoder>, stream: bool, shown: Shown, r: VlmResponse): string {
    if decode.Some? && shown.generated != [] then decode.value(shown.generated)
    else if !stream && shown.rendered == "" then r.text
    else shown.rendered
  }

  lemma PlaySnoc(decode: Option<Decoder>, s: seq<VlmResponse>, r: VlmResponse)
    ensures Play(decode, s + [r]) == ShowOne(decode, Play(decode, s), r)
  {
    assert (s + [r])[..|s + [r]| - 1] == s;
  }

  // ------------------------------------------------------------------ steps

  function Submit(cfg: Config, s: State, r: Request): State {
    if r.model != cfg.modelId then s.(board := Refuse(s.board))
    else s.(board := Enqueue(s.board, Job(s.board.next, r, [], None, 0, 0, [], "", "")))
  }

  function Cancel(s: State, id: string): State {
    var i, k := WithId(s.board.pending, id), WithId(s.board.active, id);
    if i < |s.board.pending| then s.(board := Withdraw(s.board, i, Cancelled(s.board.pending[i], 0)))
    else if k < |s.board.active| then s.(board := Close(s.board, k, Cancelled(s.board.active[k], |s.heard|)))
    else s
  }

  function Hear(decode: Option<Decoder>, job: Job, r: VlmResponse): Job {
    var shown := ShowOne(decode, Shown(job.generated, job.rendered), r);
    job.(generated := shown.generated, rendered := shown.rendered, said := job.said + SentText(decode, job, r))
  }

  function SentText(decode: Option<Decoder>, job: Job, r: VlmResponse): string {
    if job.request.stream then AddedText(decode, Shown(job.generated, job.rendered), r) else ""
  }

  function Finish(decode: Option<Decoder>, job: Job, r: VlmResponse, until: nat): Done
    requires r.finish.Some?
  {
    Done(job, FinalText(decode, job.request.stream, Shown(job.generated, job.rendered), r), r.finish.value, until, false)
  }

  function Deliver(cfg: Config, s: State, r: VlmResponse): State {
    var k, heard := WithUid(s.board.active, r.uid), s.heard + [r];
    if k == |s.board.active| then s.(heard := heard)
    else
      var job := Hear(cfg.decode, s.board.active[k], r);
      var board := Advance(s.board, k, job, SentText(cfg.decode, s.board.active[k], r));
      if r.finish.None? then s.(heard := heard, board := board)
      else s.(heard := heard, board := Close(board, k, Finish(cfg.decode, job, r, |heard|)))
  }

  function DeliverAll(cfg: Config, s: State, responses: seq<VlmResponse>): (s': State)
    ensures s'.board.next == s.board.next
  {
    if responses == [] then s
    else Deliver(cfg, DeliverAll(cfg, s, responses[..|responses| - 1]), responses[|responses| - 1])
  }

  /** Goes through the queue from position i: requests of another sampling setting are passed
      over, the others are prepared and held, answered as cancelled, or answered with an error. */
  function Scan(cfg: Config, b: Board, key: Sampling, prepare: Preparer, i: nat): (b': Board)
    requires i <= |b.pending|
    ensures b'.next == b.next
    decreases |b.pending| - i
  {
    if i == |b.pending| || |b.active| + |b.held| >= cfg.decodeConcurrency then b
    else if b.pending[i].request.sampling != key then Scan(cfg, b, key, prepare, i + 1)
    else
      var b' := Examine(b, prepare, i);
      if |b'.held| >= cfg.promptConcurrency then b' else Scan(cfg, b', key, prepare, i)
  }

  function Examine(b: Board, prepare: Preparer, i: nat): (b': Board)
    requires i < |b.pending|
    ensures |b'.pending| == |b.pending| - 1 && b'.next == b.next
  {
    var job := b.pending[i];
    match prepare(job)
    case Ready(prompt, cached) => Hold(b, i, job.(prompt := prompt, cached := cached))
    case Interrupted => Withdraw(b, i, Cancelled(job, 0))
    case Failed => Fail(b, i)
  }

  /** The first n held jobs start running under the generator's uids. */
  function StartN(b: Board, uids: seq<Uid>, since: nat, n: nat): (b': Board)
    requires n <= |b.held| && n <= |uids|
    ensures |b'.held| == |b.held| - n && b'.next == b.next
  {
    if n == 0 then b
    else
      var b' := StartN(b, uids, since, n - 1);
      b'.(held := b'.held[1..], active := Put(b'.active, b'.held[0].(uid := uids[n - 1], since := since)))
  }

  /** The sampling setting to admit for, or None when the head of the queue has to wait for the
      running jobs of another setting. */
  function AdmissionKey(s: State): Option<Sampling>
    requires s.board.pending != []
  {
    var head := s.board.pending[0].request.sampling;
    if s.generator.None? then Some(head)
    else if s.board.active != [] && head != s.generator.value then None
    else s.generator
  }

  function Scanned(cfg: Config, s: State, prepare: Preparer): Board {
    if s.board.pending == [] || |s.board.active| >= cfg.decodeConcurrency || AdmissionKey(s).None? then s.board
    else Scan(cfg, s.board, AdmissionKey(s).value, prepare, 0)
  }

  /** False when the generator's answer to insert is unusable and the call raises. */
  function AdmitPending(cfg: Config, s: State, prepare: Preparer, uids: seq<Uid>): (State, bool) {
    if s.board.pending == [] || |s.board.active| >= cfg.decodeConcurrency || AdmissionKey(s).None? then (s, true)
    else
      var key, b := AdmissionKey(s), Scanned(cfg, s, prepare);
      if b.held == [] then (s.(board := b, generator := if b.active == [] then None else key), true)
      else if |uids| != |b.held| || !Distinct(uids) then (s.(board := b, generator := key), false)
      else (s.(board := StartN(b, uids, |s.heard|, |uids|), generator := key), true)
  }

  function Polled(cfg: Config, s: State, responses: seq<VlmResponse>): State {
    var s' := if s.board.active != [] && s.generator.Some? then DeliverAll(cfg, s, responses) else s;
    if s'.generator.Some? && s'.board.active == [] && s'.board.pending == [] then s'.(generator := None) else s'
  }

  function Tick(cfg: Config, s: State, responses: seq<VlmResponse>, prepare: Preparer, uids: seq<Uid>): (State, bool) {
    if s.generator.None? && s.board.pending == [] then (s, true)
    else AdmitPending(cfg, Polled(cfg, s, responses), prepare, uids)
  }

  predicate Idle(s: State) {
    s.board.pending == [] && s.board.active == []
  }

  datatype Input =
    | DoSubmit(request: Request)
    | DoCancel(id: string)
    | DoTick(responses: seq<VlmResponse>, prepare: Preparer, uids: seq<Uid>)

  function Apply(cfg: Config, s: State, input: Input): State {
    match input
    case DoSubmit(r) => Submit(cfg, s, r)
    case DoCancel(id) => Cancel(s, id)
    case DoTick(responses, prepare, uids) => Tick(cfg, s, responses, prepare, uids).0
  }

  function Run(cfg: Config, s: State, inputs: seq<Input>): State {
    if inputs == [] then s else Apply(cfg, Run(cfg, s, inputs[..|inputs| - 1]), inputs[|inputs| - 1])
  }

  ghost predicate FreshUids(b: Board, uids: seq<Uid>) {
    |uids| == |b.held| && Distinct(uids) && forall j <- b.active :: j.uid !in uids
  }

  /** The generator's contract for inserts: one unused uid for each job of the batch. */
  ghost predicate GeneratorObeys(cfg: Config, s: State, input: Input) {
    input.DoTick? ==>
      var b := Scanned(cfg, Polled(cfg, s, input.responses), input.prepare);
      b.held != [] ==> FreshUids(b, input.uids)
  }

  ghost predicate ObeyedAlong(cfg: Config, inputs: seq<Input>) {
    forall n | 0 <= n < |inputs| :: GeneratorObeys(cfg, Run(cfg, INITIAL, inputs[..n]), inputs[n])
  }

  // ------------------------------------------------------------- invariants

  /** No generator, no running job; and all running jobs share the generator's sampling setting. */
  ghost predicate OneSetting(generator: Option<Sampling>, active: seq<Job>) {
    && (generator.None? ==> active == [])
    && forall i | 0 <= i < |active| :: active[i].request.sampling == generator.value
  }

  ghost predicate Bounded(cfg: Config, s: State) {
    && |s.board.active| <= Max(0, cfg.decodeConcurrency)
    && s.board.held == [] && UidsApart(s.board.active) && OneSetting(s.generator, s.board.active)
  }

  ghost predicate Waiting(j: Job) {
    j.generated == [] && j.rendered == "" && j.said == "" && j.since == 0
  }

  /** Tokens and text are what the job's own responses make; a streaming client was sent all of it. */
  ghost predicate Follows(decode: Option<Decoder>, since: seq<VlmResponse>, j: Job) {
    && Shown(j.generated, j.rendered) == Play(decode, VlmStream(since, j.uid))
    && j.said == if j.request.stream then j.rendered else ""
  }

  ghost predicate Running(decode: Option<Decoder>, heard: seq<VlmResponse>, j: Job) {
    && j.since <= |heard|
    && Follows(decode, heard[j.since..], j) && !Ended(VlmStream(heard[j.since..], j.uid))
  }

  ghost predicate AnsweredRight(decode: Option<Decoder>, heard: seq<VlmResponse>, d: Done) {
    && d.job.since <= d.until <= |heard|
    && Follows(decode, heard[d.job.since..d.until], d.job)
    && (d.cancelled ==> d.text == d.job.rendered)
    && (!d.cancelled ==>
          var s := VlmStream(heard[d.job.since..d.until], d.job.uid);
          && Ended(s) && s[|s| - 1].finish == Some(d.finish)
          && d.text == FinalText(decode, d.job.request.stream, Play(decode, s), s[|s| - 1]))
  }

  ghost predicate AllWaiting(pending: seq<Job>) {
    forall i | 0 <= i < |pending| :: Waiting(pending[i])
  }

  ghost predicate AllRunning(decode: Option<Decoder>, heard: seq<VlmResponse>, active: seq<Job>) {
    forall i | 0 <= i < |active| :: Running(decode, heard, active[i])
  }

  ghost predicate AllRight(decode: Option<Decoder>, heard: seq<VlmResponse>, done: seq<Done>) {
    forall i | 0 <= i < |done| :: AnsweredRight(decode, heard, done[i])
  }

  /** Requests have no prompt tokens before they are prepared. */
  ghost predicate AllUnprepared(pending: seq<Job>) {
    forall i | 0 <= i < |pending| :: pending[i].prompt == []
  }

  ghost predicate JobsRight(decode: Option<Decoder>, heard: seq<VlmResponse>, b: Board) {
    AllUnprepared(b.pending) && AllWaiting(b.pending) && AllWaiting(b.held) && AllRunning(decode, heard, b.active) && AllRight(decode, heard, b.done)
  }

  ghost predicate Inv(cfg: Config, s: State) {
    Accounted(s.board) && Bounded(cfg, s) && JobsRight(cfg.decode, s.heard, s.board)
  }

  // -------------------------------------------------- submitting, cancelling

  lemma RemovalKeepsWaiting(jobs: seq<Job>, i: nat)
    requires AllWaiting(jobs) && AllUnprepared(jobs) && i < |jobs|
    ensures AllWaiting(Without(jobs, i)) && AllUnprepared(Without(jobs, i))
  {
    hide Waiting, Without;
    forall n | 0 <= n < |jobs| - 1 ensures Waiting(Without(jobs, i)[n]) && Without(jobs, i)[n].prompt == [] {
      WithoutBefore(jobs, i, n);
    }
  }

  lemma RemovalKeepsRunning(decode: Option<Decoder>, heard: seq<VlmResponse>, active: seq<Job>, k: nat)
    requires AllRunning(decode, heard, active) && k < |active|
    ensures AllRunning(decode, heard, Without(active, k))
  {
    hide Running, Without;
    forall n | 0 <= n < |active| - 1 ensures Running(decode, heard, Without(active, k)[n]) {
      WithoutBefore(active, k, n);
    }
  }

  lemma RemovalKeepsSetting(generator: Option<Sampling>, active: seq<Job>, k: nat)
    requires OneSetting(generator, active) && UidsApart(active) && k < |active|
    ensures OneSetting(generator, Without(active, k)) && UidsApart(Without(active, k))
  {
    forall i | 0 <= i < |active| - 1 ensures Without(active, k)[i].request.sampling == generator.value {
      WithoutBefore(active, k, i);
    }
    RemovalKeepsUidsApart(active, k);
  }

  lemma AllRightSnoc(decode: Option<Decoder>, heard: seq<VlmResponse>, done: seq<Done>, d: Done)
    requires AllRight(decode, heard, done) && AnsweredRight(decode, heard, d)
    ensures AllRight(decode, heard, done + [d])
  {
    hide AnsweredRight;
  }

  lemma CancelledIsRight(decode: Option<Decoder>, heard: seq<VlmResponse>, job: Job)
    ensures Waiting(job) ==> AnsweredRight(decode, heard, Cancelled(job, 0))
    ensures Running(decode, heard, job) ==> AnsweredRight(decode, heard, Cancelled(job, |heard|))
  {
    assert heard[0..0] == [];
    assert job.since <= |heard| ==> heard[job.since..|heard|] == heard[job.since..];
  }

  lemma SubmitKeeps(cfg: Config, s: State, r: Request)
    requires Inv(cfg, s)
    ensures Inv(cfg, Submit(cfg, s, r))
  {
    if r.model != cfg.modelId {
      RefuseAccounted(s.board);
    } else {
      EnqueueAccounted(s.board, Job(s.board.next, r, [], None, 0, 0, [], "", ""));
    }
  }

  lemma CancelKeeps(cfg: Config, s: State, id: string)
    requires Inv(cfg, s)
    ensures Inv(cfg, Cancel(s, id))
  {
    var i, k := WithId(s.board.pending, id), WithId(s.board.active, id);
    hide Accounted, Running, AnsweredRight, AllRight, AllWaiting, Without, UidsApart, OneSetting;
    if i < |s.board.pending| {
      WithdrawWaitingKeeps(cfg.decode, s.heard, s.board, i);
    } else if k < |s.board.active| {
      var d := Cancelled(s.board.active[k], |s.heard|);
      CloseAccounted(s.board, k, d);
      CancelledIsRight(cfg.decode, s.heard, s.board.active[k]);
      AllRightSnoc(cfg.decode, s.heard, s.board.done, d);
      RemovalKeepsRunning(cfg.decode, s.heard, s.board.active, k);
      RemovalKeepsSetting(s.generator, s.board.active, k);
    }
  }

  lemma WithdrawWaitingKeeps(decode: Option<Decoder>, heard: seq<VlmResponse>, b: Board, i: nat)
    requires Accounted(b) && JobsRight(decode, heard, b) && i < |b.pending|
    ensures var b' := Withdraw(b, i, Cancelled(b.pending[i], 0)); Accounted(b') && JobsRight(decode, heard, b')
  {
    assert Waiting(b.pending[i]);
    hide Accounted, AnsweredRight, AllRight, AllWaiting, AllRunning, Waiting, Without;
    WithdrawAccounted(b, i, Cancelled(b.pending[i], 0));
    CancelledIsRight(decode, heard, b.pending[i]);
    AllRightSnoc(decode, heard, b.done, Cancelled(b.pending[i], 0));
    RemovalKeepsWaiting(b.pending, i);
  }

  // ------------------------------------------------------- hearing responses

  lemma HearFollows(decode: Option<Decoder>, since: seq<VlmResponse>, j: Job, r: VlmResponse)
    requires Follows(decode, since, j) && !Ended(VlmStream(since, j.uid)) && j.uid == r.uid
    ensures Follows(decode, since + [r], Hear(decode, j, r))
    ensures VlmStream(since + [r], j.uid) == VlmStream(since, j.uid) + [r]
  {
    hide VlmStream, Play, DeltaText;
    VlmStreamSnoc(since, r, j.uid);
    PlaySnoc(decode, VlmStream(since, j.uid), r);
  }

  lemma OtherKeepsRunning(decode: Option<Decoder>, heard: seq<VlmResponse>, j: Job, r: VlmResponse)
    requires Running(decode, heard, j) && j.uid != r.uid
    ensures Running(decode, heard + [r], j)
  {
    hide VlmStream, Play;
    assert (heard + [r])[j.since..] == heard[j.since..] + [r];
    VlmStreamSnoc(heard[j.since..], r, j.uid);
  }

  lemma AllStayRight(decode: Option<Decoder>, heard: seq<VlmResponse>, done: seq<Done>, r: VlmResponse)
    requires AllRight(decode, heard, done)
    ensures AllRight(decode, heard + [r], done)
  {
    forall i | 0 <= i < |done| ensures AnsweredRight(decode, heard + [r], done[i]) {
      var d := done[i];
      assert AnsweredRight(decode, heard, d);
      hide Follows, VlmStream, FinalText, Play;
      assert (heard + [r])[d.job.since..d.until] == heard[d.job.since..d.until];
    }
  }

  lemma NobodyHears(decode: Option<Decoder>, heard: seq<VlmResponse>, active: seq<Job>, r: VlmResponse)
    requires AllRunning(decode, heard, active) && forall i | 0 <= i < |active| :: active[i].uid != r.uid
    ensures AllRunning(decode, heard + [r], active)
  {
    forall i | 0 <= i < |active| ensures Running(decode, heard + [r], active[i]) {
      OtherKeepsRunning(decode, heard, active[i], r);
    }
  }

  lemma OthersKeepRunning(decode: Option<Decoder>, heard: seq<VlmResponse>, active: seq<Job>, k: nat, r: VlmResponse)
    requires AllRunning(decode, heard, active) && UidsApart(active) && k < |active| && active[k].uid == r.uid
    ensures AllRunning(decode, heard + [r], Without(active, k))
    ensures forall i | 0 <= i < |active| && i != k :: Running(decode, heard + [r], active[i])
  {
    forall i | 0 <= i < |active| && i != k ensures Running(decode, heard + [r], active[i]) {
      OtherKeepsRunning(decode, heard, active[i], r);
    }
    hide Running;
    forall i | 0 <= i < |active| - 1 ensures Running(decode, heard + [r], Without(active, k)[i]) {
      WithoutBefore(active, k, i);
    }
  }

  lemma HearingKeepsRunning(decode: Option<Decoder>, heard: seq<VlmResponse>, active: seq<Job>, k: nat, r: VlmResponse)
    requires AllRunning(decode, heard, active) && UidsApart(active) && k < |active| && active[k].uid == r.uid
    requires r.finish.None?
    ensures AllRunning(decode, heard + [r], active[k := Hear(decode, active[k], r)])
  {
    hide Follows, VlmStream;
    var job := active[k];
    HearFollows(decode, heard[job.since..], job, r);
    assert (heard + [r])[job.since..] == heard[job.since..] + [r];
    assert Running(decode, heard + [r], Hear(decode, job, r));
    OthersKeepRunning(decode, heard, active, k, r);
  }

  lemma FinishingIsRight(decode: Option<Decoder>, heard: seq<VlmResponse>, job: Job, r: VlmResponse)
    requires Running(decode, heard, job) && job.uid == r.uid && r.finish.Some?
    ensures AnsweredRight(decode, heard + [r], Finish(decode, Hear(decode, job, r), r, |heard| + 1))
  {
    hide VlmStream, Play, FinalText, ShowOne, SentText;
    HearFollows(decode, heard[job.since..], job, r);
    assert (heard + [r])[job.since..|heard| + 1] == heard[job.since..] + [r];
  }

  lemma RunningAt(decode: Option<Decoder>, heard: seq<VlmResponse>, active: seq<Job>, k: nat)
    requires AllRunning(decode, heard, active) && k < |active|
    ensures Running(decode, heard, active[k])
  {
  }

  lemma DeliverKeepsJobs(cfg: Config, s: State, r: VlmResponse)
    requires JobsRight(cfg.decode, s.heard, s.board) && UidsApart(s.board.active)
    ensures var s' := Deliver(cfg, s, r); JobsRight(cfg.decode, s'.heard, s'.board)
  {
    var k, decode := WithUid(s.board.active, r.uid), cfg.decode;
    hide AllWaiting, AllRunning, AllRight, Running, AnsweredRight, UidsApart, Without, Hear, SentText, FinalText;
    AllStayRight(decode, s.heard, s.board.done, r);
    if k == |s.board.active| {
      NobodyHears(decode, s.heard, s.board.active, r);
    } else if r.finish.None? {
      HearingKeepsRunning(decode, s.heard, s.board.active, k, r);
    } else {
      var job := s.board.active[k];
      RunningAt(decode, s.heard, s.board.active, k);
      FinishingIsRight(decode, s.heard, job, r);
      OthersKeepRunning(decode, s.heard, s.board.active, k, r);
      AllRightSnoc(decode, s.heard + [r], s.board.done, Finish(decode, Hear(decode, job, r), r, |s.heard| + 1));
      WithoutUpdate(s.board.active, k, Hear(decode, job, r));
    }
  }

  lemma DeliverKeepsAccounted(cfg: Config, s: State, r: VlmResponse)
    requires Accounted(s.board)
    ensures Accounted(Deliver(cfg, s, r).board)
  {
    var k := WithUid(s.board.active, r.uid);
    if k < |s.board.active| {
      var job, text := Hear(cfg.decode, s.board.active[k], r), SentText(cfg.decode, s.board.active[k], r);
      hide Accounted, SentText, FinalText, ShowOne;
      AdvanceAccounted(s.board, k, job, text);
      if r.finish.Some? {
        CloseAccounted(Advance(s.board, k, job, text), k, Finish(cfg.decode, job, r, |s.heard| + 1));
      }
    }
  }

  lemma DeliverKeepsBounds(cfg: Config, s: State, r: VlmResponse)
    requires Bounded(cfg, s)
    ensures Bounded(cfg, Deliver(cfg, s, r))
  {
    var k := WithUid(s.board.active, r.uid);
    if k < |s.board.active| {
      hide SentText, FinalText, ShowOne, Without;
      RemovalKeepsSetting(s.generator, s.board.active, k);
      WithoutUpdate(s.board.active, k, Hear(cfg.decode, s.board.active[k], r));
    }
  }

  lemma DeliverKeeps(cfg: Config, s: State, r: VlmResponse)
    requires Inv(cfg, s)
    ensures Inv(cfg, Deliver(cfg, s, r))
    ensures Deliver(cfg, s, r).board.pending == s.board.pending && Deliver(cfg, s, r).generator == s.generator
  {
    hide Accounted, JobsRight, Bounded;
    BoundedParts(cfg, s);
    DeliverKeepsJobs(cfg, s, r);
    DeliverKeepsAccounted(cfg, s, r);
    DeliverKeepsBounds(cfg, s, r);
  }

  lemma BoundedParts(cfg: Config, s: State)
    requires Bounded(cfg, s)
    ensures UidsApart(s.board.active)
  {
  }

  lemma {:induction false} DeliverAllKeeps(cfg: Config, s: State, responses: seq<VlmResponse>)
    requires Inv(cfg, s)
    ensures Inv(cfg, DeliverAll(cfg, s, responses))
    ensures DeliverAll(cfg, s, responses).board.pending == s.board.pending && DeliverAll(cfg, s, responses).generator == s.generator
  {
    hide Inv, Deliver;
    if responses != [] {
      DeliverAllKeeps(cfg, s, responses[..|responses| - 1]);
      DeliverKeeps(cfg, DeliverAll(cfg, s, responses[..|responses| - 1]), responses[|responses| - 1]);
    }
  }

  lemma PolledKeeps(cfg: Config, s: State, responses: seq<VlmResponse>)
    requires Inv(cfg, s)
    ensures Inv(cfg, Polled(cfg, s, responses))
    ensures Polled(cfg, s, responses).board.pending == s.board.pending
    ensures Polled(cfg, s, responses).generator == s.generator || Idle(Polled(cfg, s, responses))
  {
    if s.board.active != [] && s.generator.Some? {
      DeliverAllKeeps(cfg, s, responses);
    }
  }

  // -------------------------------------------------------------- admission

  /** What holds on the way through the queue: the held jobs are for the given setting. */
  ghost predicate Scanning(cfg: Config, heard: seq<VlmResponse>, b: Board, key: Sampling) {
    && Accounted(b) && JobsRight(cfg.decode, heard, b)
    && |b.active| + |b.held| <= Max(0, cfg.decodeConcurrency)
    && forall i | 0 <= i < |b.held| :: b.held[i].request.sampling == key
  }

  lemma HoldKeepsJobs(decode: Option<Decoder>, heard: seq<VlmResponse>, b: Board, i: nat, job: Job)
    requires JobsRight(decode, heard, b) && i < |b.pending| && Waiting(job)
    ensures JobsRight(decode, heard, Hold(b, i, job))
  {
    hide AllRunning, AllRight, Without;
    RemovalKeepsWaiting(b.pending, i);
  }

  lemma FailKeepsJobs(decode: Option<Decoder>, heard: seq<VlmResponse>, b: Board, i: nat)
    requires JobsRight(decode, heard, b) && i < |b.pending|
    ensures JobsRight(decode, heard, Fail(b, i))
  {
    hide AllRunning, AllRight, Without;
    RemovalKeepsWaiting(b.pending, i);
  }

  lemma PreparedIsWaiting(job: Job)
    requires Waiting(job)
    ensures forall prompt, cached :: Waiting(job.(prompt := prompt, cached := cached))
  {
  }

  lemma ExamineKeeps(cfg: Config, heard: seq<VlmResponse>, b: Board, key: Sampling, prepare: Preparer, i: nat)
    requires Scanning(cfg, heard, b, key) && i < |b.pending| && b.pending[i].request.sampling == key
    requires |b.active| + |b.held| < cfg.decodeConcurrency
    ensures Scanning(cfg, heard, Examine(b, prepare, i), key)
    ensures Examine(b, prepare, i).active == b.active && Examine(b, prepare, i).pending == Without(b.pending, i)
    ensures |Examine(b, prepare, i).held| <= |b.held| + 1
  {
    var job := b.pending[i];
    assert Waiting(job);
    hide Accounted, JobsRight, Without, AllWaiting, AllUnprepared;
    PreparedIsWaiting(job);
    hide Waiting;
    match prepare(job)
    case Ready(prompt, cached) =>
      var job' := job.(prompt := prompt, cached := cached);
      HoldAccounted(b, i, job');
      HoldKeepsJobs(cfg.decode, heard, b, i, job');
    case Interrupted => WithdrawWaitingKeeps(cfg.decode, heard, b, i);
    case Failed =>
      FailAccounted(b, i);
      FailKeepsJobs(cfg.decode, heard, b, i);
  }

  lemma {:induction false} ScanKeeps(cfg: Config, heard: seq<VlmResponse>, b: Board, key: Sampling, prepare: Preparer, i: nat)
    requires Scanning(cfg, heard, b, key) && i <= |b.pending|
    ensures Scanning(cfg, heard, Scan(cfg, b, key, prepare, i), key)
    ensures Scan(cfg, b, key, prepare, i).active == b.active
    decreases |b.pending| - i
  {
    hide Scanning, Examine;
    if i == |b.pending| || |b.active| + |b.held| >= cfg.decodeConcurrency {
    } else if b.pending[i].request.sampling != key {
      ScanKeeps(cfg, heard, b, key, prepare, i + 1);
    } else {
      ExamineKeeps(cfg, heard, b, key, prepare, i);
      if |Examine(b, prepare, i).held| < cfg.promptConcurrency {
        ScanKeeps(cfg, heard, Examine(b, prepare, i), key, prepare, i);
      }
    }
  }

  /** The held jobs may start: the running ones have their setting, and the uids are unused. */
  ghost predicate ReadyToStart(cfg: Config, heard: seq<VlmResponse>, b: Board, key: Sampling, uids: seq<Uid>) {
    && Scanning(cfg, heard, b, key) && FreshUids(b, uids)
    && UidsApart(b.active) && OneSetting(Some(key), b.active)
  }

  function StartOne(b: Board, uid: Uid, since: nat): Board
    requires b.held != []
  {
    Start(b, b.held[0].(uid := uid, since := since))
  }

  lemma StartOneKeepsJobs(decode: Option<Decoder>, heard: seq<VlmResponse>, b: Board, uid: Uid)
    requires JobsRight(decode, heard, b) && b.held != []
    ensures JobsRight(decode, heard, StartOne(b, uid, |heard|))
  {
    assert Waiting(b.held[0]);
    assert heard[|heard|..] == [];
    assert Running(decode, heard, b.held[0].(uid := uid, since := |heard|));
  }

  lemma StartOneKeeps(cfg: Config, heard: seq<VlmResponse>, b: Board, key: Sampling, uids: seq<Uid>)
    requires ReadyToStart(cfg, heard, b, key, uids) && b.held != []
    ensures ReadyToStart(cfg, heard, StartOne(b, uids[0], |heard|), key, uids[1..])
    ensures StartOne(b, uids[0], |heard|) ==
            b.(held := b.held[1..], active := Put(b.active, b.held[0].(uid := uids[0], since := |heard|)))
  {
    hide Accounted, JobsRight;
    StartOneKeepsJobs(cfg.decode, heard, b, uids[0]);
    StartAccounted(b, b.held[0].(uid := uids[0], since := |heard|));
    assert forall u <- uids[1..] :: u in uids && u != uids[0];
    assert uids[0] in uids;
  }

  lemma {:induction false} StartNKeeps(cfg: Config, heard: seq<VlmResponse>, b: Board, key: Sampling, uids: seq<Uid>, n: nat)
    requires ReadyToStart(cfg, heard, b, key, uids) && n <= |uids| == |b.held|
    ensures ReadyToStart(cfg, heard, StartN(b, uids, |heard|, n), key, uids[n..])
    ensures StartN(b, uids, |heard|, n).pending == b.pending
  {
    hide ReadyToStart, StartOne, Put;
    if n == 0 {
      assert uids[0..] == uids;
    } else {
      StartNKeeps(cfg, heard, b, key, uids, n - 1);
      var b' := StartN(b, uids, |heard|, n - 1);
      StartOneKeeps(cfg, heard, b', key, uids[n - 1..]);
      assert uids[n - 1..][1..] == uids[n..] && uids[n - 1..][0] == uids[n - 1];
    }
  }

  lemma AdmitPendingKeeps(cfg: Config, s: State, prepare: Preparer, uids: seq<Uid>)
    requires Inv(cfg, s)
    requires Scanned(cfg, s, prepare).held != [] ==> FreshUids(Scanned(cfg, s, prepare), uids)
    ensures Inv(cfg, AdmitPending(cfg, s, prepare, uids).0) && AdmitPending(cfg, s, prepare, uids).1
  {
    if s.board.pending != [] && |s.board.active| < cfg.decodeConcurrency && AdmissionKey(s).Some? {
      var key, b := AdmissionKey(s).value, Scanned(cfg, s, prepare);
      hide Accounted, JobsRight, Scan, StartN;
      ScanKeeps(cfg, s.heard, s.board, key, prepare, 0);
      if b.held != [] {
        StartNKeeps(cfg, s.heard, b, key, uids, |uids|);
      }
    }
  }

  // -------------------------------------------------------------------- runs

  lemma StepKeeps(cfg: Config, s: State, input: Input)
    requires Inv(cfg, s) && GeneratorObeys(cfg, s, input)
    ensures Inv(cfg, Apply(cfg, s, input))
    ensures input.DoTick? ==> Tick(cfg, s, input.responses, input.prepare, input.uids).1
  {
    match input
    case DoSubmit(r) => SubmitKeeps(cfg, s, r);
    case DoCancel(id) => CancelKeeps(cfg, s, id);
    case DoTick(responses, prepare, uids) =>
      hide Inv, Polled, AdmitPending, Scanned;
      PolledKeeps(cfg, s, responses);
      AdmitPendingKeeps(cfg, Polled(cfg, s, responses), prepare, uids);
  }

  /** Over every run: without a generator nothing runs; all running jobs share the generator's
      sampling setting; each submission is waiting, running or answered exactly once, through
      preparation failures, cancellations and generator replacement, and silent after its
      answer; and every job's tokens and text come from its own responses alone. */
  lemma {:induction false} RunKeeps(cfg: Config, inputs: seq<Input>)
    requires ObeyedAlong(cfg, inputs)
    ensures Inv(cfg, Run(cfg, INITIAL, inputs))
    ensures InOnePlace(Run(cfg, INITIAL, inputs).board)
  {
    if inputs != [] {
      var before := inputs[..|inputs| - 1];
      assert forall n | 0 <= n < |before| :: before[..n] == inputs[..n];
      assert GeneratorObeys(cfg, Run(cfg, INITIAL, inputs[..|inputs| - 1]), inputs[|inputs| - 1]);
      hide Inv, GeneratorObeys, Apply;
      RunKeeps(cfg, before);
      StepKeeps(cfg, Run(cfg, INITIAL, before), inputs[|inputs| - 1]);
    }
    NobodyIsHeld(Run(cfg, INITIAL, inputs).board);
  }

  // ----------------------------------------------------- order of admission

  lemma {:induction false} SubsequenceTransitive<T>(a: seq<T>, b: seq<T>, c: seq<T>)
    requires Subsequence(a, b) && Subsequence(b, c)
    ensures Subsequence(a, c)
    decreases |c|
  {
    if a != [] && b != [] && c != [] {
      if b[0] == c[0] && Subsequence(b[1..], c[1..]) {
        if a[0] == b[0] && Subsequence(a[1..], b[1..]) {
          SubsequenceTransitive(a[1..], b[1..], c[1..]);
        } else {
          SubsequenceTransitive(a, b[1..], c[1..]);
        }
      } else {
        SubsequenceTransitive(a, b, c[1..]);
      }
    }
  }

  /** Going through the queue leaves the others waiting in their order, takes only requests of
      the given setting, and ends with a full house, a full batch or a queue without them. */
  lemma {:induction false} ScanLeavesTheOthersInOrder(cfg: Config, b: Board, key: Sampling, prepare: Preparer, i: nat)
    requires i <= |b.pending| && forall n | 0 <= n < i :: b.pending[n].request.sampling != key
    ensures var b' := Scan(cfg, b, key, prepare, i);
            && Subsequence(b'.pending, b.pending)
            && (forall j <- b.pending :: j.request.sampling != key ==> j in b'.pending)
            && (|b'.active| + |b'.held| >= cfg.decodeConcurrency || |b'.held| >= cfg.promptConcurrency
                || forall j <- b'.pending :: j.request.sampling != key)
    decreases |b.pending| - i
  {
    if i == |b.pending| || |b.active| + |b.held| >= cfg.decodeConcurrency {
      SubsequenceRefl(b.pending);
    } else if b.pending[i].request.sampling != key {
      ScanLeavesTheOthersInOrder(cfg, b, key, prepare, i + 1);
    } else {
      var b' := Examine(b, prepare, i);
      assert b'.pending == Without(b.pending, i);
      WithoutIsSubsequence(b.pending, i);
      forall j | j in b.pending && j.request.sampling != key ensures j in b'.pending {
        WithoutKeeps(b.pending, i, j);
      }
      if |b'.held| < cfg.promptConcurrency {
        forall n | 0 <= n < i ensures b'.pending[n].request.sampling != key {
          WithoutBefore(b.pending, i, n);
        }
        ScanLeavesTheOthersInOrder(cfg, b', key, prepare, i);
        SubsequenceTransitive(Scan(cfg, b', key, prepare, i).pending, b'.pending, b.pending);
      }
    }
  }

  /** Each admission leaves the waiting requests in order, and never touches those of another
      sampling setting than the one admitted for. */
  lemma AdmissionKeepsOrder(cfg: Config, s: State, prepare: Preparer, uids: seq<Uid>)
    requires Inv(cfg, s)
    ensures var s' := AdmitPending(cfg, s, prepare, uids).0;
            && Subsequence(s'.board.pending, s.board.pending)
            && (s.board.pending != [] && AdmissionKey(s).Some? ==>
                  forall j <- s.board.pending :: j.request.sampling != AdmissionKey(s).value ==> j in s'.board.pending)
  {
    SubsequenceRefl(s.board.pending);
    if s.board.pending != [] && |s.board.active| < cfg.decodeConcurrency && AdmissionKey(s).Some? {
      ScanLeavesTheOthersInOrder(cfg, s.board, AdmissionKey(s).value, prepare, 0);
      StartNKeepsPending(Scanned(cfg, s, prepare), uids, |s.heard|);
    }
  }

  lemma {:induction false} StartNKeepsPending(b: Board, uids: seq<Uid>, since: nat)
    ensures |uids| <= |b.held| ==> StartN(b, uids, since, |uids|).pending == b.pending
  {
    if |uids| <= |b.held| {
      StartNKeepsPendingUpTo(b, uids, since, |uids|);
    }
  }

  lemma {:induction false} StartNKeepsPendingUpTo(b: Board, uids: seq<Uid>, since: nat, n: nat)
    requires n <= |uids| && n <= |b.held|
    ensures StartN(b, uids, since, n).pending == b.pending
  {
    if n > 0 {
      StartNKeepsPendingUpTo(b, uids, since, n - 1);
    }
  }

  // ------------------------------------------------------ what was streamed

  /** A streaming client was sent exactly the text a cancelled request is answered with. */
  lemma CancelledTextWasStreamed(cfg: Config, s: State, d: Done)
    requires Inv(cfg, s) && d in s.board.done && d.job.request.stream && d.cancelled
    ensures Said(s.board.log, d.job.ticket) == d.text
  {
    var i :| 0 <= i < |s.board.done| && s.board.done[i] == d;
    assert AnsweredRight(cfg.decode, s.heard, s.board.done[i]);
  }

  /** The deltas of an answered request add up to its text, except exactly when a tokenizer's
      final text no longer begins with the text shown before the last response. */
  lemma StreamedTextIsFinalTextIff(cfg: Config, s: State, d: Done)
    requires Inv(cfg, s) && d in s.board.done && d.job.request.stream && !d.cancelled
    ensures var stream := VlmStream(s.heard[d.job.since..d.until], d.job.uid);
            stream != [] &&
            (Said(s.board.log, d.job.ticket) == d.text <==>
             (cfg.decode.Some? && d.job.generated != [] ==>
                Play(cfg.decode, stream[..|stream| - 1]).rendered <= cfg.decode.value(d.job.generated)))
  {
    var i :| 0 <= i < |s.board.done| && s.board.done[i] == d;
    assert AnsweredRight(cfg.decode, s.heard, s.board.done[i]);
    var stream := VlmStream(s.heard[d.job.since..d.until], d.job.uid);
    assert Said(s.board.log, d.job.ticket) == Play(cfg.decode, stream).rendered;
    assert d.text == FinalText(cfg.decode, true, Play(cfg.decode, stream), stream[|stream| - 1]);
    assert d.job.generated == Play(cfg.decode, stream).generated;
    hide Inv, AnsweredRight, VlmStream, Said;
    FinalTextIff(cfg.decode, stream);
  }

  lemma FinalTextIff(decode: Option<Decoder>, stream: seq<VlmResponse>)
    requires stream != []
    ensures var shown, before := Play(decode, stream), Play(decode, stream[..|stream| - 1]);
            shown.rendered == FinalText(decode, true, shown, stream[|stream| - 1]) <==>
            (decode.Some? && shown.generated != [] ==> before.rendered <= decode.value(shown.generated))
  {
    var before := Play(decode, stream[..|stream| - 1]);
    assert Play(decode, stream) == ShowOne(decode, before, stream[|stream| - 1]);
  }

  // -------------------------------------- what clients and the queue see of it

  /** A request for the loaded model is queued, any other gets one error. */
  lemma SubmitQueuesOrRefuses(cfg: Config, s: State, r: Request)
    ensures var s' := Submit(cfg, s, r);
            && s' == s.(board := s'.board)
            && if r.model == cfg.modelId then Queued(s.board, s'.board, r) && s'.board.pending[|s.board.pending|].prompt == []
               else OneError(s.board, s'.board)
  {
  }

  /** A cancellation answers exactly the first waiting or else the first running request of the id. */
  lemma CancelAnswersTheRequest(s: State, id: string)
    ensures Cancels(s.board, Cancel(s, id).board, id)
    ensures Cancel(s, id) == s.(board := Cancel(s, id).board)
  {
    FirstIsTaken(s.board.pending, id);
    FirstIsTaken(s.board.active, id);
    hide TakesFirst, Without;
  }

  /** What an answered client got: one final event with the text of the answer, the reason and the
      token counts of the job. */
  lemma AnswerIsSent(cfg: Config, s: State, d: Done)
    requires Inv(cfg, s) && d in s.board.done
    ensures Reply(d.job.ticket, d.text, d.finish, |d.job.prompt|, |d.job.generated|) in s.board.log
    ensures Answers(s.board.log, d.job.ticket) == 1
    ensures d.cancelled ==> d.finish == "cancelled" && d.text == d.job.rendered
  {
    hide Balanced, Quiet, Bounded, JobsRight, Said;
    AnsweredExactlyOnce(s.board, d);
    hide Answers;
    assert Answered(s.board.log, d);
  }

  /** What became of a request that left the queue: it was prepared and is held with what its
      preparation gave, or was answered as cancelled, or with an error. */
  ghost predicate Outcome(b: Board, prepare: Preparer, job: Job) {
    match prepare(job)
    case Ready(prompt, cached) => job.(prompt := prompt, cached := cached) in b.held
    case Interrupted => Done(job, job.rendered, "cancelled", 0, true) in b.done
    case Failed => Error(job.ticket) in b.log
  }

  ghost predicate OnlyAdds(b: Board, b': Board) {
    b.held <= b'.held && b.done <= b'.done && b.log <= b'.log && b'.active == b.active && b'.next == b.next
  }

  lemma OutcomeStays(b: Board, b': Board, prepare: Preparer, job: Job)
    requires Outcome(b, prepare, job) && OnlyAdds(b, b')
    ensures Outcome(b', prepare, job)
  {
    assert forall x <- b.held :: x in b'.held;
    assert forall x <- b.done :: x in b'.done;
    assert forall x <- b.log :: x in b'.log;
  }

  lemma ExamineHasOutcome(b: Board, prepare: Preparer, i: nat)
    requires i < |b.pending|
    ensures var b' := Examine(b, prepare, i);
            && OnlyAdds(b, b') && Outcome(b', prepare, b.pending[i])
            && b'.pending == Without(b.pending, i)
  {
  }

  /** Nobody leaves the queue silently: each request that is no longer there was of the admitted
      setting and has the outcome of its preparation. */
  lemma {:induction false} ScanGivesOutcomes(cfg: Config, b: Board, key: Sampling, prepare: Preparer, i: nat)
    requires i <= |b.pending|
    ensures var b' := Scan(cfg, b, key, prepare, i);
            && OnlyAdds(b, b')
            && forall j <- b.pending :: j in b'.pending || (j.request.sampling == key && Outcome(b', prepare, j))
    decreases |b.pending| - i
  {
    hide Examine, Outcome;
    if i == |b.pending| || |b.active| + |b.held| >= cfg.decodeConcurrency {
    } else if b.pending[i].request.sampling != key {
      ScanGivesOutcomes(cfg, b, key, prepare, i + 1);
    } else {
      ExamineHasOutcome(b, prepare, i);
      var b1 := Examine(b, prepare, i);
      if |b1.held| < cfg.promptConcurrency {
        ScanGivesOutcomes(cfg, b1, key, prepare, i);
      }
      var b' := Scan(cfg, b, key, prepare, i);
      forall j | j in b.pending ensures j in b'.pending || (j.request.sampling == key && Outcome(b', prepare, j)) {
        if j == b.pending[i] {
          OutcomeStays(b1, b', prepare, j);
        } else {
          WithoutKeeps(b.pending, i, j);
        }
      }
    }
  }

  /** The first n held jobs as they run. */
  ghost function Batch(b: Board, uids: seq<Uid>, since: nat, n: nat): seq<Job>
    requires n <= |b.held| && n <= |uids|
  {
    seq(n, i requires 0 <= i < n => b.held[i].(uid := uids[i], since := since))
  }

  lemma {:induction false} StartNRuns(b: Board, uids: seq<Uid>, since: nat, n: nat)
    requires n <= |b.held| && n <= |uids| && Distinct(uids)
    requires forall i | 0 <= i < |b.active| :: b.active[i].uid !in uids
    ensures StartN(b, uids, since, n) == b.(held := b.held[n..], active := b.active + Batch(b, uids, since, n))
  {
    hide Put;
    if n > 0 {
      StartNRuns(b, uids, since, n - 1);
      var before, job := b.active + Batch(b, uids, since, n - 1), Batch(b, uids, since, n)[n - 1];
      assert uids[n - 1] in uids;
      forall k | 0 <= k < |before| ensures before[k].uid != job.uid {
        assert k < |b.active| ==> before[k] == b.active[k];
      }
      PutAppends(before, job);
      assert Batch(b, uids, since, n) == Batch(b, uids, since, n - 1) + [job];
    } else {
      assert b.active + [] == b.active;
    }
  }

  /** An admission ends with the scanned queue, all of the batch running. */
  lemma AdmissionRuns(cfg: Config, s: State, prepare: Preparer, uids: seq<Uid>)
    requires s.board.held == []
    requires Scanned(cfg, s, prepare).held != [] ==> FreshUids(Scanned(cfg, s, prepare), uids)
    ensures var b, s' := Scanned(cfg, s, prepare), AdmitPending(cfg, s, prepare, uids).0;
            && s'.board == b.(held := [], active := b.active + (if b.held == [] then [] else Batch(b, uids, |s.heard|, |b.held|)))
            && (b != s.board && s'.generator.Some? ==> s'.generator == AdmissionKey(s))
  {
    hide Scan, StartN, Batch;
    var b := Scanned(cfg, s, prepare);
    assert b.active + [] == b.active;
    if b.held != [] {
      StartNRuns(b, uids, |s.heard|, |uids|);
    }
  }

  lemma PreparedRuns(b: Board, uids: seq<Uid>, since: nat, held: Job)
    requires held in b.held && |uids| == |b.held|
    ensures exists u <- uids :: held.(uid := u, since := since) in Batch(b, uids, since, |b.held|)
  {
    var i :| 0 <= i < |b.held| && b.held[i] == held;
    assert Batch(b, uids, since, |b.held|)[i] == held.(uid := uids[i], since := since);
    assert uids[i] in uids;
  }

  /** What one admission does to a request: it stays in the queue, or is of the setting admitted
      for and runs as it was prepared, or is answered, cancelled or with an error. */
  lemma AdmissionHasOutcomes(cfg: Config, s: State, prepare: Preparer, uids: seq<Uid>, job: Job)
    requires Inv(cfg, s) && job in s.board.pending
    requires Scanned(cfg, s, prepare).held != [] ==> FreshUids(Scanned(cfg, s, prepare), uids)
    ensures var s' := AdmitPending(cfg, s, prepare, uids).0;
            if job in s'.board.pending then true
            else
              && (s'.generator.Some? ==> s'.generator.value == job.request.sampling)
              && match prepare(job)
                 case Ready(prompt, cached) =>
                   exists u <- uids :: job.(prompt := prompt, cached := cached, uid := u, since := |s.heard|) in s'.board.active
                 case Interrupted => Reply(job.ticket, "", "cancelled", 0, 0) in s'.board.log
                 case Failed => Error(job.ticket) in s'.board.log
  {
    var b := Scanned(cfg, s, prepare);
    assert Waiting(job) && job.prompt == [];
    assert s.board.held == [];
    AdmissionRuns(cfg, s, prepare, uids);
    hide Inv, AdmitPending, Scanned, Batch;
    if job !in b.pending {
      AdmissionAnswers(cfg, s, prepare, job);
      if prepare(job).Ready? {
        PreparedRuns(b, uids, |s.heard|, job.(prompt := prepare(job).prompt, cached := prepare(job).cached));
      }
    }
  }

  lemma AdmissionAnswers(cfg: Config, s: State, prepare: Preparer, job: Job)
    requires Inv(cfg, s) && job in s.board.pending && job !in Scanned(cfg, s, prepare).pending
    ensures AdmissionKey(s) == Some(job.request.sampling) && Outcome(Scanned(cfg, s, prepare), prepare, job)
    ensures prepare(job).Interrupted? ==> Reply(job.ticket, "", "cancelled", 0, 0) in Scanned(cfg, s, prepare).log
  {
    var key, b := AdmissionKey(s).value, Scanned(cfg, s, prepare);
    assert Waiting(job) && job.prompt == [];
    hide Accounted, JobsRight, Scan, Outcome;
    ScanGivesOutcomes(cfg, s.board, key, prepare, 0);
    ScanKeeps(cfg, s.heard, s.board, key, prepare, 0);
    if prepare(job).Interrupted? {
      InterruptedIsAnswered(b, prepare, job);
    }
  }

  lemma InterruptedIsAnswered(b: Board, prepare: Preparer, job: Job)
    requires Accounted(b) && Outcome(b, prepare, job) && prepare(job).Interrupted?
    ensures Reply(job.ticket, job.rendered, "cancelled", |job.prompt|, |job.generated|) in b.log
  {
    assert Answered(b.log, Done(job, job.rendered, "cancelled", 0, true));
  }

  lemma {:induction false} AllAreHeard(cfg: Config, s: State, responses: seq<VlmResponse>)
    ensures DeliverAll(cfg, s, responses).heard == s.heard + responses
  {
    hide Hear, Advance, Close, WithUid;
    if responses == [] {
      assert s.heard + [] == s.heard;
    } else {
      AllAreHeard(cfg, s, responses[..|responses| - 1]);
      assert responses == responses[..|responses| - 1] + [responses[|responses| - 1]];
    }
  }

  /** A tick hears everything the generator has to say to running jobs. */
  lemma TickHears(cfg: Config, s: State, responses: seq<VlmResponse>, prepare: Preparer, uids: seq<Uid>)
    ensures Tick(cfg, s, responses, prepare, uids).0.heard == s.heard + (if s.board.active != [] && s.generator.Some? then responses else [])
  {
    hide DeliverAll;
    AllAreHeard(cfg, s, responses);
    assert s.heard + [] == s.heard;
  }

  /** When an admission fails: there was a batch, and the generator answered with another number of
      uids than it got prompts, or with one twice.  Then the batch is off the queue but not running. */
  lemma AdmissionFailsIff(cfg: Config, s: State, prepare: Preparer, uids: seq<Uid>)
    requires s.board.held == []
    ensures var b := Scanned(cfg, s, prepare);
            && (!AdmitPending(cfg, s, prepare, uids).1 <==>
                  b.held != [] && (|uids| != |b.held| || exists i, j :: 0 <= i < j < |uids| && uids[i] == uids[j]))
            && (!AdmitPending(cfg, s, prepare, uids).1 ==>
                  AdmitPending(cfg, s, prepare, uids).0 == s.(board := b, generator := AdmissionKey(s)))
  {
    hide Scan, StartN;
  }
}

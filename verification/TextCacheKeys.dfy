/** What a finished text job puts into the prompt cache: the exact condition under which the
    stored snapshot is the KV state of the tokens it is filed under. */
module TextCacheKeys {
  import opened Basics
  import opened PromptCache
  import opened Generation
  import opened RequestBoard
  import opened T = TextScheduler

  /** The finishing response is honest: its KV state is that of kv, which starts with the job's
      prompt, and a token list that comes along is kv. */
  ghost predicate Honest(job: Job, r: Response, kv: seq<Token>) {
    && r.promptCache.Some? && HoldsFor(r.promptCache.value, kv) && job.prompt <= kv
    && (r.allTokens.Some? ==> r.allTokens.value == kv)
  }

  /** What is filed under the storage key holds for it if and only if the token sequence starts
      with that key, and, when no token list came along, is no longer than it. */
  lemma FinishStoresSoundlyIff(ctx: Context, job: Job, r: Response, kv: seq<Token>)
    requires TrimContract(ctx.trim) && Honest(job, r, kv)
    requires FinishSnapshot(ctx, job, r).Some?
    ensures HoldsFor(FinishSnapshot(ctx, job, r).value, StorageKey(job)) <==>
            StorageKey(job) <= kv && (r.allTokens.None? ==> |kv| == |StorageKey(job)|)
  {
    var sequence := if r.allTokens.Some? then r.allTokens.value else StorageKey(job);
    PromptSnapshotSoundIff(ctx.trim, r.promptCache.value, kv, sequence, StorageKey(job));
  }

  /** A job that reused no prefix and whose tokens came along stores the KV state of its prompt. */
  lemma WithoutReuseStoresSoundly(ctx: Context, job: Job, r: Response, kv: seq<Token>)
    requires TrimContract(ctx.trim) && Honest(job, r, kv)
    requires job.cached.None? && r.allTokens.Some?
    ensures FinishSnapshot(ctx, job, r).Some? ==> HoldsFor(FinishSnapshot(ctx, job, r).value, job.prompt)
    ensures StorageKey(job) == job.prompt
  {
    assert [] + job.prompt == job.prompt;
    if FinishSnapshot(ctx, job, r).Some? {
      FinishStoresSoundlyIff(ctx, job, r, kv);
    }
  }

  /** After a reused prefix the key names the prefix twice.  The entry is sound exactly when the
      sequence goes on, right after the prefix, with the whole prompt once more. */
  lemma ReuseStoresSoundlyIff(ctx: Context, job: Job, r: Response, kv: seq<Token>)
    requires TrimContract(ctx.trim) && Honest(job, r, kv)
    requires job.cached.Some? && job.cached.value.tokens <= job.prompt && r.allTokens.Some?
    requires FinishSnapshot(ctx, job, r).Some?
    ensures HoldsFor(FinishSnapshot(ctx, job, r).value, StorageKey(job)) <==>
            job.prompt <= kv[|job.cached.value.tokens|..]
  {
    hide FinishSnapshot, PromptSnapshot, TrimContract, HoldsFor;
    FinishStoresSoundlyIff(ctx, job, r, kv);
    var c := job.cached.value.tokens;
    assert kv == kv[..|c|] + kv[|c|..] && kv[..|c|] == c;
    assert StorageKey(job)[|c|..] == job.prompt && StorageKey(job)[..|c|] == c;
    if StorageKey(job) <= kv {
      assert kv[..|StorageKey(job)|][|c|..] == kv[|c|..][..|job.prompt|];
    }
  }

  /** What is cut back for storing: as many tokens are trimmed off as the sequence the state stands
      for has more than the key; without a token list the key itself is taken for the sequence. */
  ghost predicate CutsBack(ctx: Context, r: Response, key: seq<Token>, cut: Snapshot) {
    var all := if r.allTokens.Some? then r.allTokens.value else key;
    && r.promptCache.Some?
    && if |all| == |key| then cut == r.promptCache.value
       else |all| > |key| && ctx.trim(r.promptCache.value, |all| - |key|) == Some(cut)
  }

  /** The newest entry is the state cut back to the key, if that can be done and fits; otherwise the
      store stays as it is. */
  ghost predicate Files(ctx: Context, store: Store, after: Store, r: Response, key: seq<Token>) {
    && (forall cut | CutsBack(ctx, r, key, cut) && cut != [] && EstimateBytes(cut) <= store.maxBytes ::
          after.entries != [] && after.entries[|after.entries| - 1] == Entry([], CachedPrompt(key, cut, EstimateBytes(cut), Exact)))
    && ((forall cut | CutsBack(ctx, r, key, cut) :: cut == [] || EstimateBytes(cut) > store.maxBytes) ==> after == store)
  }

  lemma FinishFiles(ctx: Context, store: Store, job: Job, r: Response)
    requires DistinctKeys(store.entries) && store.maxEntries >= 1
    ensures Files(ctx, store, FinishStore(ctx, store, job, r), r,
                  (if job.cached.Some? then job.cached.value.tokens else []) + job.prompt)
  {
    hide AfterRemember, DistinctKeys;
    var key := (if job.cached.Some? then job.cached.value.tokens else []) + job.prompt;
    assert StorageKey(job) == key;
    forall cut | CutsBack(ctx, r, key, cut)
      ensures FinishStore(ctx, store, job, r) == AfterRemember(store, [], key, cut)
      ensures cut != [] && EstimateBytes(cut) <= store.maxBytes ==>
                exists before, d: nat :: KeepsNewest(store, [], key, cut, before, d, AfterRemember(store, [], key, cut))
      ensures cut == [] || EstimateBytes(cut) > store.maxBytes ==> AfterRemember(store, [], key, cut) == store
    {
      RememberKeepsLongestSuffix(store, [], key, cut);
    }
    var cut := FinishSnapshot(ctx, job, r);
    assert cut.Some? ==> CutsBack(ctx, r, key, cut.value);
  }

  /** A response that finishes a running job files the job's state under the reused prefix and the
      prompt; any other leaves the store alone. */
  lemma FinishingFilesThePrompt(cfg: Config, s: T.State, r: Response)
    requires DistinctKeys(s.store.entries) && s.store.maxEntries >= 1 && UidsApart(s.board.active)
    ensures forall k | 0 <= k < |s.board.active| && s.board.active[k].uid == r.uid && r.finish.Some? ::
              var job := s.board.active[k];
              Files(cfg.ctx, s.store, Deliver(cfg, s, r).store, r, (if job.cached.Some? then job.cached.value.tokens else []) + job.prompt)
    ensures r.finish.None? || (forall k | 0 <= k < |s.board.active| :: s.board.active[k].uid != r.uid) ==>
              Deliver(cfg, s, r).store == s.store
  {
    hide Deliver, FinishStore, Files, DistinctKeys;
    var k := WithUid(s.board.active, r.uid);
    DeliverStores(cfg, s, r);
    if k < |s.board.active| {
      FinishFiles(cfg.ctx, s.store, s.board.active[k], r);
    }
  }

  lemma DeliverStores(cfg: Config, s: T.State, r: Response)
    ensures var k := WithUid(s.board.active, r.uid);
            Deliver(cfg, s, r).store == if r.finish.None? || k == |s.board.active| then s.store else FinishStore(cfg.ctx, s.store, s.board.active[k], r)
  {
    hide AfterRemember, PromptSnapshot;
    var k := WithUid(s.board.active, r.uid);
    if k < |s.board.active| {
      var job := Hear(cfg.ctx.decode, s.board.active[k], r);
      assert job.cached == s.board.active[k].cached && job.prompt == s.board.active[k].prompt;
    }
  }

  function ExactTrim(s: Snapshot, n: nat): Option<Snapshot> {
    Some(seq(|s|, i requires 0 <= i < |s| =>
      s[i].(tokens := if n <= |s[i].tokens| then s[i].tokens[..|s[i].tokens| - n] else [])))
  }

  lemma ExactTrimKeepsContract()
    ensures TrimContract(ExactTrim)
  {
    forall s: Snapshot, n: nat, t | HoldsFor(s, t) && n <= |t| ensures HoldsFor(ExactTrim(s, n).value, t[..|t| - n]) {
      var r := ExactTrim(s, n).value;
      forall i | 0 <= i < |r| ensures r[i].tokens == t[..|t| - n] {
        assert s[i] in s;
      }
    }
  }

  // ---------------------------------------------- a run into the failing case

  /** The store holds the KV state of the prefix 1. */
  const PREFIX := Entry([], CachedPrompt([1], [Layer([1], 8)], 8, Exact))

  /** The generator finishes the prompt 1 2 with the token 3, and says so truthfully. */
  const ANSWER := Response(5, 3, Some("length"), Some([Layer([1, 2, 3], 8)]), Some([1, 2, 3]))

  const WRONG := NewEntry([], [1, 1, 2], [Layer([1, 2, 3], 8)])

  /** The state of 1 2 3 is filed under 1 1 2. */
  lemma FinishFilesWrongly(ctx: Context, store: Store, job: Job)
    requires ctx.trim == ExactTrim
    requires store.entries == [PREFIX] && store.maxEntries >= 2 && store.maxBytes >= 16
    requires job.prompt == [1, 2] && job.cached == Some(CachedPrompt([1], [Layer([1], 8)], 8, ShorterPrefix))
    ensures Honest(job, ANSWER, [1, 2, 3])
    ensures FinishStore(ctx, store, job, ANSWER).entries == [PREFIX, WRONG]
  {
    var kv := [Layer([1, 2, 3], 8)];
    assert StorageKey(job) == [1] + [1, 2] == [1, 1, 2];
    assert FinishSnapshot(ctx, job, ANSWER) == Some(kv);
    assert EstimateBytes(kv) == 8 + EstimateBytes(kv[1..]) == 8;
    assert [PREFIX][1..] == [] && IndexOf([PREFIX], [], [1, 1, 2]) == 1;
    assert Refreshed(store.entries, [], [1, 1, 2], kv) == [PREFIX, WRONG];
    assert [PREFIX, WRONG][1..] == [WRONG] && [WRONG][1..] == [];
    assert TotalBytes([WRONG]) == 8 && TotalBytes([PREFIX, WRONG]) == 16;
    assert kv[0] in kv;
  }

  lemma WrongIsOffered(trim: Trimmer)
    ensures Best([PREFIX, WRONG], [], [1, 1, 2, 9], trim) == Some(WRONG.cached.(kind := ShorterPrefix))
    ensures HoldsFor(WRONG.cached.snapshot, [1, 2, 3]) && !HoldsFor(WRONG.cached.snapshot, [1, 1, 2])
  {
    assert [PREFIX, WRONG][1..] == [WRONG] && [WRONG][1..] == [];
    assert [1, 1, 2] <= [1, 1, 2, 9] && [1] <= [1, 1, 2, 9];
    assert Best([], [], [1, 1, 2, 9], trim) == None;
    assert Best([WRONG], [], [1, 1, 2, 9], trim) == Offer(WRONG, [], [1, 1, 2, 9], trim);
    var kv := WRONG.cached.snapshot;
    assert kv[0].tokens != [1, 1, 2] by {
      assert kv[0].tokens[1] == 2;
    }
    assert kv[0] in kv;
  }

  /** Submit, admit, answer. */
  function ReusingRun(r: Request): seq<Input> {
    [DoSubmit(r), DoTick([], [5]), DoTick([ANSWER], [])]
  }

  function ReusingJob(r: Request): Job {
    NewJob(0, r, [1, 2], Some(CachedPrompt([1], [Layer([1], 8)], 8, ShorterPrefix)))
  }

  ghost predicate CanReuse(cfg: Config, store: Store, r: Request) {
    && cfg.ctx.trim == ExactTrim && cfg.promptConcurrency >= 1 && cfg.decodeConcurrency >= 1
    && !Refuses(cfg.ctx, r) && cfg.ctx.buildTokens(r) == [1, 2]
    && store.entries == [PREFIX] && store.maxEntries >= 2 && store.maxBytes >= 16
  }

  lemma ReusingSubmit(cfg: Config, store: Store, r: Request)
    requires CanReuse(cfg, store, r)
    ensures var s := Submit(cfg, Initial(store), r);
            && s.board == Board([ReusingJob(r)], [], [], [], 1, []) && !s.generator && s.heard == []
            && s.store.entries == store.entries && s.store.maxEntries == store.maxEntries && s.store.maxBytes == store.maxBytes
  {
    assert [PREFIX][1..] == [] && [1] <= [1, 2];
    assert Best([], [], [1, 2], ExactTrim) == None;
    assert Best([PREFIX], [], [1, 2], ExactTrim) == Offer(PREFIX, [], [1, 2], ExactTrim);
  }

  lemma ReusingAdmission(cfg: Config, s: State, r: Request)
    requires cfg.promptConcurrency >= 1 && cfg.decodeConcurrency >= 1
    requires s.board == Board([ReusingJob(r)], [], [], [], 1, []) && !s.generator && s.heard == []
    ensures GeneratorObeys(cfg, s, DoTick([], [5]))
    ensures var s' := Tick(cfg, s, [], [5]).0;
            && s'.board == Board([], [], [ReusingJob(r).(uid := 5)], [], 1, []) && s'.generator && s'.heard == []
            && s'.store == s.store
  {
    assert Polled(cfg, s, []) == s && BatchSize(cfg, s) == 1;
    var s1 := s.(generator := true);
    assert AdmitN(s1, [5], 0) == s1;
    assert Admitted(ReusingJob(r), 5, 0) == ReusingJob(r).(uid := 5);
    assert [ReusingJob(r)][1..] == [];
  }

  lemma ReusingAnswer(cfg: Config, s: State, r: Request)
    requires cfg.ctx.trim == ExactTrim
    requires s.board == Board([], [], [ReusingJob(r).(uid := 5)], [], 1, []) && s.generator && s.heard == []
    requires s.store.entries == [PREFIX] && s.store.maxEntries >= 2 && s.store.maxBytes >= 16
    ensures Honest(s.board.active[0], ANSWER, [1, 2, 3])
    ensures GeneratorObeys(cfg, s, DoTick([ANSWER], []))
    ensures Tick(cfg, s, [ANSWER], []).0.store.entries == [PREFIX, WRONG]
  {
    hide FinishStore, Honest, AdmitN;
    var job := s.board.active[0];
    FinishFilesWrongly(cfg.ctx, s.store, job);
    FinishFilesWrongly(cfg.ctx, s.store, Hear(cfg.ctx.decode, job, ANSWER));
    assert [ANSWER][..0] == [] && DeliverAll(cfg, s, []) == s;
    assert DeliverAll(cfg, s, [ANSWER]) == Deliver(cfg, s, ANSWER);
    assert Polled(cfg, s, [ANSWER]).board.pending == [];
  }

  /** A run into the failing case: with the prefix 1 stored soundly, the prompt 1 2 is submitted,
      admitted and answered with the token 3. From then on the store offers, for the different
      prompt 1 1 2 9, the KV state of 1 2 3 as that of 1 1 2. */
  lemma ReuseCanStoreTheWrongState(cfg: Config, store: Store, r: Request)
    requires CanReuse(cfg, store, r)
    ensures SoundEntries(store.entries) && TrimContract(cfg.ctx.trim)
    ensures ObeyedAlong(cfg, Initial(store), ReusingRun(r))
    ensures var offered := Best(T.Run(cfg, Initial(store), ReusingRun(r)).store.entries, [], [1, 1, 2, 9], cfg.ctx.trim);
            offered.Some? && offered.value.tokens == [1, 1, 2] && HoldsFor(offered.value.snapshot, [1, 2, 3])
            && !HoldsFor(offered.value.snapshot, [1, 1, 2])
  {
    hide Tick, Submit, GeneratorObeys, Best, Honest, TrimContract;
    ExactTrimKeepsContract();
    assert PREFIX.cached.snapshot[0] == Layer([1], 8);
    var inputs := ReusingRun(r);
    var s0 := Initial(store);
    var s1 := Submit(cfg, s0, r);
    var s2 := Tick(cfg, s1, [], [5]).0;
    ReusingSubmit(cfg, store, r);
    ReusingAdmission(cfg, s1, r);
    ReusingAnswer(cfg, s2, r);
    assert inputs[..0] == [] && inputs[..1][..0] == [] && inputs[..2][..1] == inputs[..1] && inputs[..3] == inputs;
    assert T.Run(cfg, s0, []) == s0;
    assert T.Run(cfg, s0, inputs[..1]) == s1;
    assert T.Run(cfg, s0, inputs[..2]) == s2;
    assert inputs[..|inputs| - 1] == inputs[..2];
    assert GeneratorObeys(cfg, s0, DoSubmit(r)) by { SubmitsAreFree(cfg, s0, r); }
    WrongIsOffered(cfg.ctx.trim);
  }

  lemma SubmitsAreFree(cfg: Config, s: State, r: Request)
    ensures GeneratorObeys(cfg, s, DoSubmit(r))
  {}
}

/** Batched completion over the prompt cache (MlxBatchCompletionBackend in
    python/mlx_worker/batching.py), and why the cache cannot be seen in its answers. */
module Completion {
  import opened Basics
  import opened PromptCache
  import opened CacheBudget
  import opened Generation

  datatype Failure = WrongModel | TokenLimits | UidCount | DuplicateUids | Stalled

  /** One request as handed to the generator: what is left of the prompt after a reused prefix. */
  datatype Input = Input(request: Request, tokens: seq<Token>, effective: seq<Token>,
                         cache: Option<Snapshot>, prefix: seq<Token>, cacheBytes: nat)

  datatype Reply = Reply(id: string, text: string, finish: string, promptTokens: nat, completionTokens: nat,
                         cacheHit: bool, cachedTokens: nat, cacheBytes: nat)

  /** Everything in a reply except the report about the cache itself. */
  datatype Answer = Answer(id: string, text: string, finish: string, promptTokens: nat, completionTokens: nat)

  function Visible(r: Reply): Answer {
    Answer(r.id, r.text, r.finish, r.promptTokens, r.completionTokens)
  }

  function Check(ctx: Context, r: Request): Option<Failure> {
    if r.model != ctx.modelId then Some(WrongModel)
    else if !ctx.tokensAllowed(r, ctx.buildTokens(r)) then Some(TokenLimits)
    else None
  }

  /** A hit is used only when it leaves something of the prompt to process. */
  function MakeInput(r: Request, tokens: seq<Token>, hit: Option<CachedPrompt>): Input {
    if hit.None? || |hit.value.tokens| >= |tokens| then Input(r, tokens, tokens, None, [], 0)
    else Input(r, tokens, tokens[|hit.value.tokens|..], Some(hit.value.snapshot), hit.value.tokens, hit.value.bytes)
  }

  /** One request prepared; the store counts one lookup for it. */
  function PrepareOne(ctx: Context, s: Store, r: Request): (Result<Input, Failure>, Store) {
    if Check(ctx, r).Some? then (Err(Check(ctx, r).value), s)
    else
      var tokens := ctx.buildTokens(r);
      (Ok(MakeInput(r, tokens, Best(s.entries, [], tokens, ctx.trim))), AfterLookup(s, [], tokens, ctx.trim))
  }

  /** The first n requests prepared, in order, up to the first failure. */
  function Prepare(ctx: Context, s: Store, requests: seq<Request>, n: nat): (Result<seq<Input>, Failure>, Store)
    requires n <= |requests|
  {
    if n == 0 then (Ok([]), s)
    else
      var (before, s') := Prepare(ctx, s, requests, n - 1);
      if before.Err? then (before, s')
      else
        var (input, s'') := PrepareOne(ctx, s', requests[n - 1]);
        (if input.Err? then Err(input.error) else Ok(before.value + [input.value]), s'')
  }

  predicate AllFinished(uids: seq<Uid>, heard: seq<Response>) {
    forall u <- uids :: Finished(Stream(heard, u))
  }

  function ReplyTo(ctx: Context, input: Input, s: seq<Response>): Reply
    requires Finished(s)
  {
    Reply(input.request.id, ctx.decode(Tokens(s)), s[|s| - 1].finish.value, |input.tokens|, |Tokens(s)|,
          input.cache.Some?, |input.prefix|, input.cacheBytes)
  }

  /** The token sequence a finishing KV state is taken to stand for. */
  function AnnouncedSequence(input: Input, s: seq<Response>): seq<Token>
    requires s != []
  {
    var all := s[|s| - 1].allTokens;
    if all.Some? && all.value != [] then all.value else input.tokens + Tokens(s)
  }

  function StoreResult(ctx: Context, s: Store, input: Input, stream: seq<Response>): Store
    requires stream != []
  {
    var kv := stream[|stream| - 1].promptCache;
    if kv.None? then s
    else
      var cut := PromptSnapshot(ctx.trim, kv.value, AnnouncedSequence(input, stream), input.tokens);
      if cut.None? then s else AfterRemember(s, [], input.tokens, cut.value)
  }

  /** Replies to the first n requests and the store after each of them stored its prompt. */
  function Collect(ctx: Context, s: Store, inputs: seq<Input>, uids: seq<Uid>, heard: seq<Response>, n: nat): (seq<Reply>, Store)
    requires n <= |inputs| == |uids| && AllFinished(uids, heard)
  {
    if n == 0 then ([], s)
    else
      var (before, s') := Collect(ctx, s, inputs, uids, heard, n - 1);
      var stream := Stream(heard, uids[n - 1]);
      (before + [ReplyTo(ctx, inputs[n - 1], stream)], StoreResult(ctx, s', inputs[n - 1], stream))
  }

  /** One batch: uids is what the generator answered to insert, heard what it said until every
      stream finished or it stalled. */
  function Complete(ctx: Context, s: Store, requests: seq<Request>, uids: seq<Uid>, heard: seq<Response>): (Result<seq<Reply>, Failure>, Store)
  {
    if requests == [] then (Ok([]), s)
    else
      var (inputs, s') := Prepare(ctx, s, requests, |requests|);
      if inputs.Err? then (Err(inputs.error), s')
      else if |uids| != |inputs.value| then (Err(UidCount), s')
      else if !Distinct(uids) then (Err(DuplicateUids), s')
      else if !AllFinished(uids, heard) then (Err(Stalled), s')
      else
        var (replies, s'') := Collect(ctx, s', inputs.value, uids, heard, |uids|);
        (Ok(replies), s'')
  }

  // --------------------------------------------------- the reference answer

  /** The answer to a request, in terms of the network alone. */
  function Reference(ctx: Context, net: Network, r: Request): Answer
    requires net(ctx.buildTokens(r), r.maxTokens, r.sampling) != []
    requires var steps := net(ctx.buildTokens(r), r.maxTokens, r.sampling); steps[|steps| - 1].finish.Some?
  {
    var tokens := ctx.buildTokens(r);
    var steps := net(tokens, r.maxTokens, r.sampling);
    Answer(r.id, ctx.decode(StepTokens(steps)), steps[|steps| - 1].finish.value, |tokens|, |StepTokens(steps)|)
  }

  /** The tokens whose KV state an input's cache stands for. */
  ghost predicate Denotes(input: Input, t: seq<Token>) {
    if input.cache.None? then t == [] else HoldsFor(input.cache.value, t)
  }

  /** A finishing KV state is the KV of the sequence it is announced with (of context and
      generated tokens when none is), and that sequence starts with the context. */
  ghost predicate HonestState(input: Input, context: seq<Token>, s: seq<Response>)
    requires s != []
  {
    var r := s[|s| - 1];
    r.promptCache.Some? ==>
      var all := if r.allTokens.Some? && r.allTokens.value != [] then r.allTokens.value else context + Tokens(s);
      HoldsFor(r.promptCache.value, all) && context <= all
  }

  /** The generator's contract for one input: given the KV state of t, it continues t and the
      rest of the prompt exactly as the network does. */
  ghost predicate Serves(net: Network, input: Input, s: seq<Response>) {
    forall t | Denotes(input, t) ::
      var context := t + input.effective;
      && Steps(s) <= net(context, input.request.maxTokens, input.request.sampling)
      && (Finished(s) ==> HonestState(input, context, s))
  }

  ghost predicate ServesAll(net: Network, inputs: seq<Input>, uids: seq<Uid>, heard: seq<Response>)
    requires |uids| == |inputs|
  {
    forall i | 0 <= i < |inputs| :: Serves(net, inputs[i], Stream(heard, uids[i]))
  }

  ghost predicate SoundStore(s: Store) {
    DistinctKeys(s.entries) && SoundEntries(s.entries)
  }

  /** Every used hit splits the prompt as prefix ++ non-empty suffix, with the KV of the prefix. */
  ghost predicate SplitsPrompt(ctx: Context, input: Input) {
    && input.tokens == ctx.buildTokens(input.request)
    && input.prefix + input.effective == input.tokens
    && Denotes(input, input.prefix)
    && (input.cache.Some? ==> input.effective != [])
  }

  lemma MakeInputSplitsPrompt(ctx: Context, s: Store, r: Request)
    requires SoundStore(s) && TrimContract(ctx.trim)
    ensures SplitsPrompt(ctx, MakeInput(r, ctx.buildTokens(r), Best(s.entries, [], ctx.buildTokens(r), ctx.trim)))
  {
    LookupIsSound(s.entries, [], ctx.buildTokens(r), ctx.trim);
  }

  /** The request is for the loaded model and its prompt within the limits. */
  ghost predicate Acceptable(ctx: Context, r: Request) {
    r.model == ctx.modelId && ctx.tokensAllowed(r, ctx.buildTokens(r))
  }

  lemma CheckAccepts(ctx: Context, r: Request)
    ensures Check(ctx, r).None? <==> Acceptable(ctx, r)
    ensures !Acceptable(ctx, r) ==> Check(ctx, r) == Some(if r.model != ctx.modelId then WrongModel else TokenLimits)
  {
  }

  /** As much of a prompt is reused as can be: with trimming that never fails, an entry that shares
      the first n tokens saves at least those, unless the whole prompt is stored (then, as nothing
      would be left to process, nothing is reused). What is left is what the hit does not cover. */
  lemma LongestPrefixIsReused(ctx: Context, s: Store, tokens: seq<Token>, r: Request, e: Entry, n: nat)
    requires SoundStore(s) && TrimContract(ctx.trim) && e in s.entries && e.namespace == []
    requires 0 < n < |tokens| && n <= |e.cached.tokens| && e.cached.tokens[..n] == tokens[..n]
    requires n < |e.cached.tokens| ==> forall x, k :: ctx.trim(x, k).Some?
    ensures var input := MakeInput(r, tokens, Best(s.entries, [], tokens, ctx.trim));
            && input.tokens == tokens && input.prefix + input.effective == tokens
            && (input.cache.Some? <==> !exists x <- s.entries :: HasKey(x, [], tokens))
            && (input.cache.Some? ==> |input.prefix| >= n && HoldsFor(input.cache.value, input.prefix))
            && (input.cache.None? ==> input.prefix == [])
  {
    LookupFindsTheLongestSharedPrefix(s.entries, [], tokens, ctx.trim, e, n);
    LookupIsSound(s.entries, [], tokens, ctx.trim);
    hide Best;
  }

  /** What a reply reports about the cache: whether part of the prompt came from it, how much, and
      the size of the state it was. */
  lemma ReportIsTruthful(ctx: Context, s: Store, r: Request, stream: seq<Response>)
    requires Acceptable(ctx, r) && Finished(stream)
    ensures var tokens := ctx.buildTokens(r);
            var input, hit := PrepareOne(ctx, s, r).0.value, Best(s.entries, [], tokens, ctx.trim);
            var reply := ReplyTo(ctx, input, stream);
            && PrepareOne(ctx, s, r).0.Ok? && PrepareOne(ctx, s, r).1 == AfterLookup(s, [], tokens, ctx.trim)
            && reply.cachedTokens == |tokens| - |input.effective|
            && (reply.cacheHit <==> hit.Some? && |hit.value.tokens| < |tokens|)
            && reply.cacheBytes == (if reply.cacheHit then hit.value.bytes else 0)
            && reply.cachedTokens == (if reply.cacheHit then |hit.value.tokens| else 0)
  {
    hide Best, AfterLookup;
  }

  /** The inputs prepared from the first n requests, all of them acceptable. */
  ghost predicate PreparedFrom(ctx: Context, inputs: seq<Input>, requests: seq<Request>, n: nat)
    requires n <= |requests|
  {
    && |inputs| == n
    && forall i | 0 <= i < n :: Acceptable(ctx, requests[i]) && inputs[i].request == requests[i] && SplitsPrompt(ctx, inputs[i])
  }

  /** Request i is the first unacceptable one, and e says what is wrong with it. */
  ghost predicate RefusedAt(ctx: Context, requests: seq<Request>, i: nat, e: Failure)
    requires i < |requests|
  {
    && !Acceptable(ctx, requests[i]) && e == (if requests[i].model != ctx.modelId then WrongModel else TokenLimits)
    && forall j | 0 <= j < i :: Acceptable(ctx, requests[j])
  }

  /** The batch is refused for its first unacceptable request. */
  ghost predicate RefusedFor(ctx: Context, requests: seq<Request>, n: nat, e: Failure)
    requires n <= |requests|
  {
    exists i :: 0 <= i < n && RefusedAt(ctx, requests, i, e)
  }

  lemma PreparedOneMore(ctx: Context, inputs: seq<Input>, requests: seq<Request>, n: nat, input: Input)
    requires n < |requests| && PreparedFrom(ctx, inputs, requests, n)
    requires Acceptable(ctx, requests[n]) && input.request == requests[n] && SplitsPrompt(ctx, input)
    ensures PreparedFrom(ctx, inputs + [input], requests, n + 1)
  {
  }

  lemma RefusedAtLast(ctx: Context, inputs: seq<Input>, requests: seq<Request>, n: nat)
    requires n < |requests| && PreparedFrom(ctx, inputs, requests, n)
    requires !Acceptable(ctx, requests[n])
    ensures RefusedFor(ctx, requests, n + 1, if requests[n].model != ctx.modelId then WrongModel else TokenLimits)
  {
    hide Acceptable, SplitsPrompt;
    assert RefusedAt(ctx, requests, n, if requests[n].model != ctx.modelId then WrongModel else TokenLimits);
  }

  lemma RefusedBefore(ctx: Context, requests: seq<Request>, n: nat, e: Failure)
    requires n < |requests| && RefusedFor(ctx, requests, n, e)
    ensures RefusedFor(ctx, requests, n + 1, e)
  {
  }

  lemma {:induction false} PrepareSplitsPrompts(ctx: Context, s: Store, requests: seq<Request>, n: nat)
    requires n <= |requests| && SoundStore(s) && TrimContract(ctx.trim)
    ensures Prepare(ctx, s, requests, n).1.entries == s.entries
    ensures match Prepare(ctx, s, requests, n).0
            case Ok(inputs) => PreparedFrom(ctx, inputs, requests, n)
            case Err(e) => RefusedFor(ctx, requests, n, e)
  {
    hide SplitsPrompt, RefusedFor, Best, CountLookup, DistinctKeys, SoundEntries, TrimContract;
    if n > 0 {
      PrepareSplitsPrompts(ctx, s, requests, n - 1);
      var (before, s') := Prepare(ctx, s, requests, n - 1);
      var r := requests[n - 1];
      CheckAccepts(ctx, r);
      hide Acceptable, Check;
      if before.Err? {
        RefusedBefore(ctx, requests, n - 1, before.error);
      } else if !Acceptable(ctx, r) {
        RefusedAtLast(ctx, before.value, requests, n - 1);
      } else {
        MakeInputSplitsPrompt(ctx, s', r);
        PreparedOneMore(ctx, before.value, requests, n - 1,
                        MakeInput(r, ctx.buildTokens(r), Best(s'.entries, [], ctx.buildTokens(r), ctx.trim)));
      }
    }
  }

  /** A served stream that finishes says what the network says of the whole prompt. */
  lemma StreamIsTheNetworks(ctx: Context, net: Network, input: Input, stream: seq<Response>)
    requires WellFormed(net) && SplitsPrompt(ctx, input) && Finished(stream) && Serves(net, input, stream)
    ensures Steps(stream) == net(input.tokens, input.request.maxTokens, input.request.sampling)
    ensures HonestState(input, input.tokens, stream)
  {
    var steps := net(input.tokens, input.request.maxTokens, input.request.sampling);
    assert Denotes(input, input.prefix);
    assert steps[|stream| - 1] == Steps(stream)[|stream| - 1];
  }

  lemma AnswerIsTheReference(ctx: Context, net: Network, input: Input, stream: seq<Response>)
    requires WellFormed(net) && SplitsPrompt(ctx, input) && Finished(stream) && Serves(net, input, stream)
    ensures Visible(ReplyTo(ctx, input, stream)) == Reference(ctx, net, input.request)
  {
    StreamIsTheNetworks(ctx, net, input, stream);
    TokensAreStepTokens(stream);
  }

  /** Storing trims back to the prompt boundary: what is remembered is the KV of the prompt. */
  lemma StoringKeepsSoundness(ctx: Context, net: Network, s: Store, input: Input, stream: seq<Response>)
    requires WellFormed(net) && TrimContract(ctx.trim) && SoundStore(s)
    requires SplitsPrompt(ctx, input) && Finished(stream) && Serves(net, input, stream)
    ensures SoundStore(StoreResult(ctx, s, input, stream))
  {
    StreamIsTheNetworks(ctx, net, input, stream);
    var kv := stream[|stream| - 1].promptCache;
    if kv.Some? {
      var all := AnnouncedSequence(input, stream);
      var cut := PromptSnapshot(ctx.trim, kv.value, all, input.tokens);
      if cut.Some? {
        PromptSnapshotSoundIff(ctx.trim, kv.value, all, all, input.tokens);
        RememberKeepsSoundness(s, [], input.tokens, cut.value);
      }
    }
  }

  /** The state a finished stream ended with, cut back to the prompt of the input: with as many
      tokens trimmed off as the sequence it stands for has more than the prompt. */
  ghost predicate CutsBack(ctx: Context, input: Input, stream: seq<Response>, cut: Snapshot)
    requires stream != []
  {
    var last := stream[|stream| - 1];
    var all := if last.allTokens.Some? && last.allTokens.value != [] then last.allTokens.value else input.tokens + Tokens(stream);
    && last.promptCache.Some?
    && if |all| == |input.tokens| then cut == last.promptCache.value
       else |all| > |input.tokens| && ctx.trim(last.promptCache.value, |all| - |input.tokens|) == Some(cut)
  }

  /** A finished answer leaves its prompt in the cache: when the state it ended with can be cut back
      to the prompt and fits, the newest entry is the prompt with that state. Otherwise the cache
      stays as it is. */
  lemma PromptIsStored(ctx: Context, s: Store, input: Input, stream: seq<Response>)
    requires DistinctKeys(s.entries) && s.maxEntries >= 1 && Finished(stream)
    ensures forall cut | CutsBack(ctx, input, stream, cut) && cut != [] && EstimateBytes(cut) <= s.maxBytes ::
              var es := StoreResult(ctx, s, input, stream).entries;
              es != [] && es[|es| - 1] == Entry([], CachedPrompt(input.tokens, cut, EstimateBytes(cut), Exact))
    ensures (forall cut | CutsBack(ctx, input, stream, cut) :: cut == [] || EstimateBytes(cut) > s.maxBytes) ==>
              StoreResult(ctx, s, input, stream) == s
  {
    hide AfterRemember, DistinctKeys, Tokens;
    forall cut | CutsBack(ctx, input, stream, cut)
      ensures StoreResult(ctx, s, input, stream) == AfterRemember(s, [], input.tokens, cut)
      ensures cut != [] && EstimateBytes(cut) <= s.maxBytes ==>
                exists before, d: nat :: KeepsNewest(s, [], input.tokens, cut, before, d, AfterRemember(s, [], input.tokens, cut))
      ensures cut == [] || EstimateBytes(cut) > s.maxBytes ==> AfterRemember(s, [], input.tokens, cut) == s
    {
      RememberKeepsLongestSuffix(s, [], input.tokens, cut);
    }
    if stream[|stream| - 1].promptCache.Some? {
      var cut := PromptSnapshot(ctx.trim, stream[|stream| - 1].promptCache.value, AnnouncedSequence(input, stream), input.tokens);
      assert cut.Some? ==> CutsBack(ctx, input, stream, cut.value);
    }
  }

  lemma {:induction false} CollectRepliesInOrder(ctx: Context, s: Store, inputs: seq<Input>, uids: seq<Uid>, heard: seq<Response>, n: nat)
    requires n <= |inputs| == |uids| && AllFinished(uids, heard)
    ensures var replies := Collect(ctx, s, inputs, uids, heard, n).0;
            |replies| == n && forall i | 0 <= i < n :: replies[i] == ReplyTo(ctx, inputs[i], Stream(heard, uids[i]))
  {
    hide StoreResult, ReplyTo, Stream, AllFinished, Finished;
    if n > 0 {
      CollectRepliesInOrder(ctx, s, inputs, uids, heard, n - 1);
    }
  }

  lemma {:induction false} CollectKeepsSoundness(ctx: Context, net: Network, s: Store, inputs: seq<Input>, uids: seq<Uid>, heard: seq<Response>, n: nat)
    requires WellFormed(net) && TrimContract(ctx.trim) && SoundStore(s)
    requires n <= |inputs| == |uids| && AllFinished(uids, heard) && ServesAll(net, inputs, uids, heard)
    requires forall i | 0 <= i < |inputs| :: SplitsPrompt(ctx, inputs[i])
    ensures SoundStore(Collect(ctx, s, inputs, uids, heard, n).1)
  {
    if n > 0 {
      CollectKeepsSoundness(ctx, net, s, inputs, uids, heard, n - 1);
      var s' := Collect(ctx, s, inputs, uids, heard, n - 1).1;
      StoringKeepsSoundness(ctx, net, s', inputs[n - 1], Stream(heard, uids[n - 1]));
    }
  }

  // ------------------------------------------------------ histories of use

  datatype Op =
    | Batch(requests: seq<Request>, uids: seq<Uid>, heard: seq<Response>)
    | Evict
    | Reset(clearCache: bool, resetCounters: bool)

  function Step(ctx: Context, s: Store, op: Op): Store {
    match op
    case Batch(requests, uids, heard) => Complete(ctx, s, requests, uids, heard).1
    case Evict => AfterEvict(s)
    case Reset(clearCache, resetCounters) => AfterReset(s, clearCache, resetCounters)
  }

  function After(ctx: Context, s: Store, ops: seq<Op>): Store {
    if ops == [] then s else Step(ctx, After(ctx, s, ops[..|ops| - 1]), ops[|ops| - 1])
  }

  /** The generator keeps its contract for a batch: streams that ran to their end, under usable
      uids, each continued what they were given as the network would.  A batch that stalled or
      came with unusable uids is under no obligation. */
  ghost predicate KeepsContract(ctx: Context, net: Network, s: Store, op: Op) {
    op.Batch? ==>
      var inputs := Prepare(ctx, s, op.requests, |op.requests|).0;
      inputs.Ok? && |op.uids| == |inputs.value| && Distinct(op.uids) && AllFinished(op.uids, op.heard)
      ==> ServesAll(net, inputs.value, op.uids, op.heard)
  }

  ghost predicate History(ctx: Context, net: Network, s: Store, ops: seq<Op>) {
    forall n | 0 <= n < |ops| :: KeepsContract(ctx, net, After(ctx, s, ops[..n]), ops[n])
  }

  /** What the generator alone makes a batch fail with. */
  function GeneratorFailure(requests: seq<Request>, uids: seq<Uid>, heard: seq<Response>): Option<Failure> {
    if |uids| != |requests| then Some(UidCount)
    else if !Distinct(uids) then Some(DuplicateUids)
    else if !AllFinished(uids, heard) then Some(Stalled)
    else None
  }

  /** What a batch comes to when there is no cache at all: the refusal of its first unacceptable
      request, else the generator's failure, else the network's answer to every request. */
  ghost predicate AnsweredAsWithoutCache(ctx: Context, net: Network, op: Op, result: Result<seq<Reply>, Failure>)
    requires WellFormed(net) && op.Batch?
  {
    var failure := GeneratorFailure(op.requests, op.uids, op.heard);
    if op.requests == [] then result == Ok([])
    else if exists r <- op.requests :: !Acceptable(ctx, r) then
      result.Err? && RefusedFor(ctx, op.requests, |op.requests|, result.error)
    else if failure.Some? then result == Err(failure.value)
    else result.Ok? && Answers(ctx, net, op.requests, result.value)
  }

  ghost predicate Answers(ctx: Context, net: Network, requests: seq<Request>, replies: seq<Reply>)
    requires WellFormed(net)
  {
    |replies| == |requests| && forall i | 0 <= i < |requests| :: Visible(replies[i]) == Reference(ctx, net, requests[i])
  }

  lemma CollectedAnswers(ctx: Context, net: Network, s: Store, op: Op, inputs: seq<Input>)
    requires WellFormed(net) && TrimContract(ctx.trim) && SoundStore(s) && op.Batch?
    requires PreparedFrom(ctx, inputs, op.requests, |op.requests|)
    requires |op.uids| == |inputs| && AllFinished(op.uids, op.heard) && ServesAll(net, inputs, op.uids, op.heard)
    ensures Answers(ctx, net, op.requests, Collect(ctx, s, inputs, op.uids, op.heard, |op.uids|).0)
    ensures SoundStore(Collect(ctx, s, inputs, op.uids, op.heard, |op.uids|).1)
  {
    hide Collect, ReplyTo, Visible, SoundStore, Serves, Reference;
    CollectKeepsSoundness(ctx, net, s, inputs, op.uids, op.heard, |op.uids|);
    CollectRepliesInOrder(ctx, s, inputs, op.uids, op.heard, |op.uids|);
    forall i | 0 <= i < |op.requests|
      ensures Visible(Collect(ctx, s, inputs, op.uids, op.heard, |op.uids|).0[i]) == Reference(ctx, net, op.requests[i])
    {
      AnswerIsTheReference(ctx, net, inputs[i], Stream(op.heard, op.uids[i]));
    }
  }

  lemma RefusalIsFound(ctx: Context, requests: seq<Request>, e: Failure)
    requires RefusedFor(ctx, requests, |requests|, e)
    ensures exists r <- requests :: !Acceptable(ctx, r)
  {
    hide Acceptable;
    var i :| 0 <= i < |requests| && RefusedAt(ctx, requests, i, e);
    assert requests[i] in requests;
  }

  /** Which batches are refused, and for what: those whose first unacceptable request is for
      another model, and those whose first unacceptable request is over the limits. */
  lemma BatchIsRefusedIff(ctx: Context, s: Store, requests: seq<Request>, uids: seq<Uid>, heard: seq<Response>)
    ensures Complete(ctx, s, requests, uids, heard).0 == Err(WrongModel) <==>
              exists i :: 0 <= i < |requests| && requests[i].model != ctx.modelId
                && forall j | 0 <= j < i :: requests[j].model == ctx.modelId && ctx.tokensAllowed(requests[j], ctx.buildTokens(requests[j]))
    ensures Complete(ctx, s, requests, uids, heard).0 == Err(TokenLimits) <==>
              exists i :: 0 <= i < |requests| && requests[i].model == ctx.modelId
                && !ctx.tokensAllowed(requests[i], ctx.buildTokens(requests[i]))
                && forall j | 0 <= j < i :: requests[j].model == ctx.modelId && ctx.tokensAllowed(requests[j], ctx.buildTokens(requests[j]))
  {
    PrepareRefuses(ctx, s, requests, |requests|);
    hide Prepare, Collect;
  }

  lemma {:induction false} PrepareRefuses(ctx: Context, s: Store, requests: seq<Request>, n: nat)
    requires n <= |requests|
    ensures match Prepare(ctx, s, requests, n).0
            case Ok(inputs) => |inputs| == n && forall i | 0 <= i < n :: Acceptable(ctx, requests[i])
            case Err(e) => RefusedFor(ctx, requests, n, e)
  {
    hide MakeInput, AfterLookup, Best;
    if n > 0 {
      PrepareRefuses(ctx, s, requests, n - 1);
      CheckAccepts(ctx, requests[n - 1]);
      hide Acceptable, Check;
      var before := Prepare(ctx, s, requests, n - 1).0;
      if before.Err? {
        RefusedBefore(ctx, requests, n - 1, before.error);
      } else if !Acceptable(ctx, requests[n - 1]) {
        var e := if requests[n - 1].model != ctx.modelId then WrongModel else TokenLimits;
        assert RefusedAt(ctx, requests, n - 1, e);
      }
    }
  }

  lemma BatchIsTransparent(ctx: Context, net: Network, s: Store, op: Op)
    requires WellFormed(net) && TrimContract(ctx.trim) && SoundStore(s)
    requires op.Batch? && KeepsContract(ctx, net, s, op)
    ensures AnsweredAsWithoutCache(ctx, net, op, Complete(ctx, s, op.requests, op.uids, op.heard).0)
    ensures SoundStore(Complete(ctx, s, op.requests, op.uids, op.heard).1)
  {
    hide Prepare, Collect, PreparedFrom, RefusedFor, Answers, AllFinished, ServesAll, Acceptable;
    if op.requests != [] {
      PrepareSplitsPrompts(ctx, s, op.requests, |op.requests|);
      PrepareRefuses(ctx, s, op.requests, |op.requests|);
      var (inputs, s') := Prepare(ctx, s, op.requests, |op.requests|);
      if inputs.Err? {
        RefusalIsFound(ctx, op.requests, inputs.error);
      } else if GeneratorFailure(op.requests, op.uids, op.heard).None? {
        CollectedAnswers(ctx, net, s', op, inputs.value);
      }
    }
  }

  lemma {:induction false} HistoryKeepsStoreSound(ctx: Context, net: Network, s: Store, ops: seq<Op>)
    requires WellFormed(net) && TrimContract(ctx.trim) && SoundStore(s) && History(ctx, net, s, ops)
    ensures SoundStore(After(ctx, s, ops))
  {
    if ops != [] {
      var before, op := ops[..|ops| - 1], ops[|ops| - 1];
      forall n | 0 <= n < |before| ensures KeepsContract(ctx, net, After(ctx, s, before[..n]), before[n]) {
        assert before[..n] == ops[..n];
      }
      HistoryKeepsStoreSound(ctx, net, s, before);
      if op.Batch? {
        assert KeepsContract(ctx, net, After(ctx, s, ops[..|ops| - 1]), op);
        BatchIsTransparent(ctx, net, After(ctx, s, before), op);
      }
    }
  }

  /** Cache transparency: after any history of batches, evictions and resets, answered, refused
      or failed, a batch comes to what it would without a cache: the same text, finish reason and
      token counts for every request, or the same refusal or failure. */
  lemma CacheIsTransparent(ctx: Context, net: Network, s: Store, ops: seq<Op>, n: nat)
    requires WellFormed(net) && TrimContract(ctx.trim) && s.entries == []
    requires History(ctx, net, s, ops) && n < |ops| && ops[n].Batch?
    ensures var now := After(ctx, s, ops[..n]);
            AnsweredAsWithoutCache(ctx, net, ops[n], Complete(ctx, now, ops[n].requests, ops[n].uids, ops[n].heard).0)
  {
    forall m | 0 <= m < n ensures KeepsContract(ctx, net, After(ctx, s, ops[..n][..m]), ops[..n][m]) {
      assert ops[..n][..m] == ops[..m];
    }
    HistoryKeepsStoreSound(ctx, net, s, ops[..n]);
    BatchIsTransparent(ctx, net, After(ctx, s, ops[..n]), ops[n]);
  }

  // ---------------------------------------------------------- the backend

  /** What the generator will say, poll by poll.  Every poll that says something uses up work. */
  datatype Script = Script(poll: nat -> seq<Response>, work: nat -> nat)

  ghost predicate Works(script: Script) {
    forall n: nat :: if script.poll(n) == [] then script.work(n + 1) <= script.work(n) else script.work(n + 1) < script.work(n)
  }

  function Polled(script: Script, n: nat): seq<Response> {
    if n == 0 then [] else Polled(script, n - 1) + script.poll(n - 1)
  }

  /** Three polls in a row had nothing to say. */
  ghost predicate Silent(script: Script, n: nat) {
    n >= 3 && script.poll(n - 3) == [] && script.poll(n - 2) == [] && script.poll(n - 1) == []
  }

  /** Polling stops after n polls: then, and not before, every stream has finished or the
      generator was silent for too long. */
  ghost predicate StopsAfter(uids: seq<Uid>, script: Script, n: nat) {
    && (AllFinished(uids, Polled(script, n)) || Silent(script, n))
    && forall k | 0 <= k < n :: !AllFinished(uids, Polled(script, k)) && !Silent(script, k)
  }

  datatype Collected = Collected(generated: map<Uid, seq<Token>>, reasons: map<Uid, string>,
                                 caches: map<Uid, (Snapshot, Option<seq<Token>>)>)

  /** The tables agree with what was heard of one uid. */
  ghost predicate Agrees(c: Collected, pending: set<Uid>, heard: seq<Response>, u: Uid) {
    var s := Stream(heard, u);
    && u in c.generated && c.generated[u] == Tokens(s)
    && (u in pending <==> !Finished(s))
    && (Finished(s) ==>
          var last := s[|s| - 1];
          && u in c.reasons && c.reasons[u] == last.finish.value
          && (u in c.caches <==> last.promptCache.Some?)
          && (u in c.caches ==> c.caches[u] == (last.promptCache.value, last.allTokens)))
    && (!Finished(s) ==> u !in c.caches)
  }

  /** Entering a response to an unfinished stream into the tables. */
  function Tabulate(c: Collected, r: Response): Collected
    requires r.uid in c.generated
  {
    var kept := if r.finish == Some("stop") then [] else [r.token];
    Collected(c.generated[r.uid := c.generated[r.uid] + kept],
              if r.finish == None then c.reasons else c.reasons[r.uid := r.finish.value],
              if r.finish == None || r.promptCache == None then c.caches
              else c.caches[r.uid := (r.promptCache.value, r.allTokens)])
  }

  lemma TabulateAgrees(c: Collected, pending: set<Uid>, heard: seq<Response>, r: Response)
    requires r.uid in pending && Agrees(c, pending, heard, r.uid)
    ensures Agrees(Tabulate(c, r), if r.finish == None then pending else pending - {r.uid}, heard + [r], r.uid)
  {
    StreamSnoc(heard, r, r.uid);
    TokensSnoc(Stream(heard, r.uid), r);
  }

  lemma OthersAgree(c: Collected, pending: set<Uid>, heard: seq<Response>, r: Response, u: Uid)
    requires r.uid in c.generated && Agrees(c, pending, heard, u)
    requires u != r.uid
    ensures Agrees(Tabulate(c, r), pending - {r.uid}, heard + [r], u)
    ensures Agrees(Tabulate(c, r), pending, heard + [r], u)
  {
    StreamSnoc(heard, r, u);
  }

  lemma IgnoredAgree(c: Collected, pending: set<Uid>, heard: seq<Response>, r: Response, u: Uid)
    requires r.uid !in pending && Agrees(c, pending, heard, u)
    ensures Agrees(c, pending, heard + [r], u)
  {
    StreamSnoc(heard, r, u);
  }

  method Receive(c: Collected, pending: set<Uid>, r: Response, ghost uids: seq<Uid>, ghost heard: seq<Response>)
    returns (c': Collected, pending': set<Uid>)
    requires pending <= (set u <- uids) && forall u <- uids :: Agrees(c, pending, heard, u)
    ensures pending' <= pending && forall u <- uids :: Agrees(c', pending', heard + [r], u)
  {
    c', pending' := c, pending;
    var uid := r.uid;
    if uid !in pending {
      forall u <- uids ensures Agrees(c', pending', heard + [r], u) {
        IgnoredAgree(c, pending, heard, r, u);
      }
      return;
    }
    assert Agrees(c, pending, heard, uid);
    if r.finish == None {
      c' := c.(generated := c.generated[uid := c.generated[uid] + [r.token]]);
    } else {
      if r.finish != Some("stop") {
        c' := c.(generated := c.generated[uid := c.generated[uid] + [r.token]]);
      }
      c' := c'.(reasons := c'.reasons[uid := r.finish.value]);
      if r.promptCache != None {
        c' := c'.(caches := c'.caches[uid := (r.promptCache.value, r.allTokens)]);
      }
      pending' := pending - {uid};
    }
    assert c.generated[uid] + [] == c.generated[uid] && c.generated[uid := c.generated[uid]] == c.generated;
    assert c' == Tabulate(c, r);
    forall u <- uids ensures Agrees(c', pending', heard + [r], u) {
      if u == uid {
        TabulateAgrees(c, pending, heard, r);
      } else {
        OthersAgree(c, pending, heard, r, u);
      }
    }
  }

  method ReceiveAll(c: Collected, pending: set<Uid>, responses: seq<Response>, ghost uids: seq<Uid>, ghost heard: seq<Response>)
    returns (c': Collected, pending': set<Uid>)
    requires pending <= (set u <- uids) && forall u <- uids :: Agrees(c, pending, heard, u)
    ensures pending' <= pending && forall u <- uids :: Agrees(c', pending', heard + responses, u)
  {
    c', pending' := c, pending;
    assert heard + responses[..0] == heard;
    for j := 0 to |responses|
      invariant pending' <= pending
      invariant forall u <- uids :: Agrees(c', pending', heard + responses[..j], u)
    {
      assert heard + responses[..j + 1] == (heard + responses[..j]) + [responses[j]];
      c', pending' := Receive(c', pending', responses[j], uids, heard + responses[..j]);
    }
    assert responses[..|responses|] == responses;
  }

  lemma PendingMeansUnfinished(c: Collected, pending: set<Uid>, uids: seq<Uid>, heard: seq<Response>)
    requires pending <= (set u <- uids) && forall u <- uids :: Agrees(c, pending, heard, u)
    ensures AllFinished(uids, heard) ==> pending == {}
  {
    if AllFinished(uids, heard) {
      forall u ensures u !in pending {
        if u in uids {
          assert Agrees(c, pending, heard, u);
        }
      }
    }
  }

  /** Polls until every stream has finished, giving up after three empty polls in a row. */
  method Drive(uids: seq<Uid>, script: Script) returns (stalled: bool, c: Collected, ghost n: nat)
    requires Works(script)
    ensures StopsAfter(uids, script, n)
    ensures stalled <==> !AllFinished(uids, Polled(script, n))
    ensures forall k: nat :: StopsAfter(uids, script, k) ==> (stalled <==> !AllFinished(uids, Polled(script, k)))
    ensures !stalled ==> forall u <- uids :: Agrees(c, {}, Polled(script, n), u)
  {
    hide Agrees, AllFinished, StopsAfter, Stream, Tokens;
    c := Collected(map u <- uids :: [], map[], map[]);
    var pending := set u <- uids;
    var emptyPolls, i := 0, 0;
    stalled, n := false, 0;
    NothingHeard(c, pending, uids);
    while pending != {}
      invariant n == i && 0 <= emptyPolls < 3 && emptyPolls <= i && !stalled
      invariant emptyPolls >= 1 <==> i >= 1 && script.poll(i - 1) == []
      invariant emptyPolls >= 2 <==> i >= 2 && script.poll(i - 1) == [] && script.poll(i - 2) == []
      invariant forall k | 0 <= k < i :: !AllFinished(uids, Polled(script, k))
      invariant forall k | 0 <= k <= i :: !Silent(script, k)
      invariant pending <= set u <- uids
      invariant forall u <- uids :: Agrees(c, pending, Polled(script, i), u)
      decreases script.work(i), 3 - emptyPolls
    {
      PendingMeansUnfinished(c, pending, uids, Polled(script, i));
      var responses := script.poll(i);
      i, n := i + 1, n + 1;
      assert Polled(script, i) == Polled(script, i - 1) + responses;
      if responses == [] {
        assert Polled(script, i) == Polled(script, i - 1);
        emptyPolls := emptyPolls + 1;
        if emptyPolls >= 3 {
          stalled := true;
          break;
        }
        continue;
      }
      emptyPolls := 0;
      c, pending := ReceiveAll(c, pending, responses, uids, Polled(script, i - 1));
    }
    if !stalled {
      NonePendingMeansFinished(c, uids, Polled(script, n));
    }
    StopsOnlyThere(uids, script, n);
  }

  lemma StopsOnlyThere(uids: seq<Uid>, script: Script, n: nat)
    requires AllFinished(uids, Polled(script, n)) || Silent(script, n)
    requires forall k | 0 <= k < n :: !AllFinished(uids, Polled(script, k)) && !Silent(script, k)
    ensures StopsAfter(uids, script, n) && forall k: nat | StopsAfter(uids, script, k) :: k == n
  {
    hide AllFinished, Silent, Polled;
    forall k: nat | StopsAfter(uids, script, k) ensures k == n {
    }
  }

  lemma NothingHeard(c: Collected, pending: set<Uid>, uids: seq<Uid>)
    requires c == Collected(map u <- uids :: [], map[], map[]) && pending == set u <- uids
    ensures forall u <- uids :: Agrees(c, pending, [], u)
  {}

  lemma NonePendingMeansFinished(c: Collected, uids: seq<Uid>, heard: seq<Response>)
    requires forall u <- uids :: Agrees(c, {}, heard, u)
    ensures AllFinished(uids, heard)
  {}

  class MlxBatchCompletionBackend {
    const ctx: Context
    const store: PromptCacheStore

    /** The text engine gives its store no budget manager and the default trim. */
    ghost predicate Valid()
      reads store
    {
      store.Valid() && store.manager == null && store.trim == ctx.trim
    }

    constructor (ctx: Context, store: PromptCacheStore)
      requires store.Valid() && store.manager == null && store.trim == ctx.trim
      ensures Valid() && this.ctx == ctx && this.store == store
    {
      this.ctx, this.store := ctx, store;
    }

    method PrepareRequest(r: Request) returns (result: Result<Input, Failure>)
      requires Valid()
      modifies store
      ensures Valid() && (result, store.State()) == PrepareOne(ctx, old(store.State()), r)
    {
      if r.model != ctx.modelId {
        return Err(WrongModel);
      }
      var tokens := ctx.buildTokens(r);
      if !ctx.tokensAllowed(r, tokens) {
        return Err(TokenLimits);
      }
      var hit := store.Lookup(tokens, []);
      if hit == None {
        return Ok(Input(r, tokens, tokens, None, [], 0));
      }
      if |hit.value.tokens| >= |tokens| {
        return Ok(Input(r, tokens, tokens, None, [], 0));
      }
      var suffix := tokens[|hit.value.tokens|..];
      return Ok(Input(r, tokens, suffix, Some(hit.value.snapshot), hit.value.tokens, hit.value.bytes));
    }

    method PrepareBatch(requests: seq<Request>) returns (result: Result<seq<Input>, Failure>)
      requires Valid()
      modifies store
      ensures Valid()
      ensures (result, store.State()) == Prepare(ctx, old(store.State()), requests, |requests|)
    {
      result := Ok([]);
      ghost var s := store.State();
      for i := 0 to |requests|
        invariant Valid() && result.Ok?
        invariant (result, store.State()) == Prepare(ctx, s, requests, i)
      {
        var input := PrepareRequest(requests[i]);
        if input.Err? {
          result := Err(input.error);
          PrepareStopsAtFailure(ctx, s, requests, i + 1, |requests|);
          return;
        }
        result := Ok(result.value + [input.value]);
      }
    }

    method CompleteMany(requests: seq<Request>, uids: seq<Uid>, script: Script) returns (result: Result<seq<Reply>, Failure>, ghost n: nat)
      requires Valid() && Works(script)
      modifies store
      ensures Valid()
      ensures (result, store.State()) == Complete(ctx, old(store.State()), requests, uids, Polled(script, n))
      ensures result == Err(Stalled) || (result.Ok? && requests != []) ==> StopsAfter(uids, script, n)
    {
      n := 0;
      if requests == [] {
        return Ok([]), 0;
      }
      PrepareCannotStall(ctx, store.State(), requests, |requests|);
      var prepared := PrepareBatch(requests);
      if prepared.Err? {
        return Err(prepared.error), 0;
      }
      var inputs := prepared.value;
      if |uids| != |inputs| {
        return Err(UidCount), 0;
      }
      if !Distinct(uids) {
        return Err(DuplicateUids), 0;
      }
      var stalled, c, polls := Drive(uids, script);
      n := polls;
      if stalled {
        return Err(Stalled), n;
      }
      var replies := CollectReplies(inputs, uids, c, Polled(script, n));
      return Ok(replies), n;
    }

    /** The answer to one finished stream; its prompt's KV state goes into the store. */
    method ReplyAndStore(input: Input, u: Uid, c: Collected, ghost heard: seq<Response>) returns (reply: Reply)
      requires Valid() && Agrees(c, {}, heard, u)
      modifies store
      ensures Valid()
      ensures reply == ReplyTo(ctx, input, Stream(heard, u))
      ensures store.State() == StoreResult(ctx, old(store.State()), input, Stream(heard, u))
    {
      var generated := c.generated[u];
      var finish := if u in c.reasons then c.reasons[u] else "stop";
      reply := Reply(input.request.id, ctx.decode(generated), finish, |input.tokens|, |generated|,
                     input.cache.Some?, |input.prefix|, input.cacheBytes);
      if u in c.caches {
        var (snapshot, all) := c.caches[u];
        var sequence := if all.Some? && all.value != [] then all.value else input.tokens + generated;
        var cut := PromptSnapshot(ctx.trim, snapshot, sequence, input.tokens);
        if cut != None {
          store.Remember(input.tokens, cut.value, []);
        }
      }
    }

    method CollectReplies(inputs: seq<Input>, uids: seq<Uid>, c: Collected, ghost heard: seq<Response>) returns (replies: seq<Reply>)
      requires Valid() && |uids| == |inputs| && AllFinished(uids, heard)
      requires forall u <- uids :: Agrees(c, {}, heard, u)
      modifies store
      ensures Valid()
      ensures (replies, store.State()) == Collect(ctx, old(store.State()), inputs, uids, heard, |uids|)
    {
      replies := [];
      ghost var s := store.State();
      for i := 0 to |uids|
        invariant Valid()
        invariant (replies, store.State()) == Collect(ctx, s, inputs, uids, heard, i)
      {
        var reply := ReplyAndStore(inputs[i], uids[i], c, heard);
        replies := replies + [reply];
      }
    }
  }

  lemma {:induction false} PrepareStopsAtFailure(ctx: Context, s: Store, requests: seq<Request>, m: nat, n: nat)
    requires m <= n <= |requests| && Prepare(ctx, s, requests, m).0.Err?
    ensures Prepare(ctx, s, requests, n) == Prepare(ctx, s, requests, m)
  {
    if m < n {
      PrepareStopsAtFailure(ctx, s, requests, m, n - 1);
    }
  }

  lemma {:induction false} PrepareCannotStall(ctx: Context, s: Store, requests: seq<Request>, n: nat)
    requires n <= |requests|
    ensures match Prepare(ctx, s, requests, n).0
            case Ok(inputs) => |inputs| == n
            case Err(e) => e == WrongModel || e == TokenLimits
  {
    if n > 0 {
      PrepareCannotStall(ctx, s, requests, n - 1);
    }
  }
}

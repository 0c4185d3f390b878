/** Requests, the network that answers them, and the external token generator's responses. */
module Generation {
  import opened Basics
  import opened PromptCache

  type Uid = int

  predicate Distinct(uids: seq<Uid>) {
    forall i, j | 0 <= i < j < |uids| :: uids[i] != uids[j]
  }

  function Members(uids: seq<Uid>): set<Uid> {
    set u | u in uids
  }

  /** uids are distinct exactly when the set of them has as many elements as the list. */
  lemma {:induction false} DistinctIff(uids: seq<Uid>)
    ensures Distinct(uids) <==> |Members(uids)| == |uids|
    ensures |Members(uids)| <= |uids|
  {
    if uids != [] {
      var before, u := uids[..|uids| - 1], uids[|uids| - 1];
      DistinctIff(before);
      assert uids == before + [u];
      assert Members(uids) == Members(before) + {u};
      if u in before {
        assert Members(uids) == Members(before);
        var i :| 0 <= i < |before| && before[i] == u;
        assert uids[i] == uids[|uids| - 1];
      } else {
        assert Distinct(before) ==> Distinct(uids);
        assert Distinct(uids) ==> Distinct(before);
      }
    }
  }

  datatype Sampling = Sampling(temperature: real, topP: real)

  datatype Request = Request(id: string, model: string, body: string, stream: bool, maxTokens: nat, sampling: Sampling)

  /** One response of the generator.  A finishing one may carry the KV state it ended with. */
  datatype Response = Response(uid: Uid, token: Token, finish: Option<string>,
                               promptCache: Option<Snapshot>, allTokens: Option<seq<Token>>)

  datatype Step = Step(token: Token, finish: Option<string>)

  /** What the model emits after a context.  It depends on nothing but its arguments. */
  type Network = (seq<Token>, nat, Sampling) -> seq<Step>

  /** Every emission is finite and only its last step finishes. */
  ghost predicate WellFormed(net: Network) {
    forall context, n: nat, sampling ::
      var steps := net(context, n, sampling);
      steps != [] && forall j | 0 <= j < |steps| :: steps[j].finish.Some? <==> j == |steps| - 1
  }

  /** What the loaded model and tokenizer provide. */
  datatype Context = Context(modelId: string,
                             buildTokens: Request -> seq<Token>,
                             tokensAllowed: (Request, seq<Token>) -> bool,
                             decode: seq<Token> -> string,
                             trim: Trimmer)

  predicate Finished(s: seq<Response>) {
    s != [] && s[|s| - 1].finish.Some?
  }

  /** The responses to one uid, up to and including the first that finishes. */
  function Stream(heard: seq<Response>, uid: Uid): seq<Response> {
    if heard == [] then []
    else
      var before, r := Stream(heard[..|heard| - 1], uid), heard[|heard| - 1];
      if r.uid == uid && !Finished(before) then before + [r] else before
  }

  /** Tokens kept from a stream: a finishing token counts unless the reason is "stop". */
  function Tokens(s: seq<Response>): seq<Token> {
    if s == [] then []
    else
      var r := s[|s| - 1];
      Tokens(s[..|s| - 1]) + (if r.finish == Some("stop") then [] else [r.token])
  }

  function Steps(s: seq<Response>): (steps: seq<Step>)
    ensures |steps| == |s|
  {
    seq(|s|, j requires 0 <= j < |s| => Step(s[j].token, s[j].finish))
  }

  function StepTokens(steps: seq<Step>): seq<Token> {
    if steps == [] then []
    else
      var r := steps[|steps| - 1];
      StepTokens(steps[..|steps| - 1]) + (if r.finish == Some("stop") then [] else [r.token])
  }

  lemma {:induction false} TokensAreStepTokens(s: seq<Response>)
    ensures Tokens(s) == StepTokens(Steps(s))
  {
    if s != [] {
      TokensAreStepTokens(s[..|s| - 1]);
      assert Steps(s)[..|s| - 1] == Steps(s[..|s| - 1]);
    }
  }

  lemma StreamSnoc(heard: seq<Response>, r: Response, uid: Uid)
    ensures Stream(heard + [r], uid) ==
            var before := Stream(heard, uid);
            if r.uid == uid && !Finished(before) then before + [r] else before
  {
    assert (heard + [r])[..|heard + [r]| - 1] == heard;
  }

  /** Everything the generator said to one uid. */
  function Projection(heard: seq<Response>, uid: Uid): seq<Response> {
    if heard == [] then []
    else
      var r := heard[|heard| - 1];
      Projection(heard[..|heard| - 1], uid) + (if r.uid == uid then [r] else [])
  }

  /** s is p up to and including its first finishing response, or all of p if there is none. */
  ghost predicate UpToFinish(s: seq<Response>, p: seq<Response>) {
    s <= p && (Finished(s) || s == p) && forall i | 0 <= i < |s| - 1 :: s[i].finish.None?
  }

  /** However the responses to several uids are interleaved, a stream is what was said to its own
      uid, up to the finish. */
  lemma {:induction false} StreamIsTheProjection(heard: seq<Response>, uid: Uid)
    ensures UpToFinish(Stream(heard, uid), Projection(heard, uid))
  {
    if heard != [] {
      StreamIsTheProjection(heard[..|heard| - 1], uid);
    }
  }

  lemma FinishEndsIt(s: seq<Response>, s': seq<Response>, p: seq<Response>)
    requires UpToFinish(s, p) && UpToFinish(s', p)
    ensures |s'| <= |s|
  {
    assert forall i | 0 <= i < |s'| - 1 :: p[i] == s'[i] && p[i].finish.None?;
    if Finished(s) {
      assert p[|s| - 1] == s[|s| - 1];
    }
  }

  lemma UpToFinishIsUnique(s: seq<Response>, s': seq<Response>, p: seq<Response>)
    requires UpToFinish(s, p) && UpToFinish(s', p)
    ensures s == s'
  {
    FinishEndsIt(s, s', p);
    FinishEndsIt(s', s, p);
    assert s == p[..|s|] && s' == p[..|s'|];
  }

  /** Two interleavings that say the same to a uid give it the same stream. */
  lemma InterleavingIsInvisible(heard: seq<Response>, heard': seq<Response>, uid: Uid)
    requires Projection(heard, uid) == Projection(heard', uid)
    ensures Stream(heard, uid) == Stream(heard', uid)
  {
    StreamIsTheProjection(heard, uid);
    StreamIsTheProjection(heard', uid);
    UpToFinishIsUnique(Stream(heard, uid), Stream(heard', uid), Projection(heard, uid));
  }

  function AllTokens(s: seq<Response>): (tokens: seq<Token>)
    ensures |tokens| == |s|
  {
    seq(|s|, i requires 0 <= i < |s| => s[i].token)
  }

  /** The tokens kept are all of the stream's, but for the one that came with a stop. */
  lemma {:induction false} OnlyTheStopIsDropped(s: seq<Response>)
    requires forall i | 0 <= i < |s| - 1 :: s[i].finish.None?
    ensures var stopped := s != [] && s[|s| - 1].finish == Some("stop");
            Tokens(s) == AllTokens(if stopped then s[..|s| - 1] else s)
  {
    if s != [] {
      var before := s[..|s| - 1];
      if before != [] {
        assert before[|before| - 1] == s[|s| - 2];
      }
      OnlyTheStopIsDropped(before);
      assert AllTokens(s) == AllTokens(before) + [s[|s| - 1].token];
    }
  }

  lemma TokensSnoc(s: seq<Response>, r: Response)
    ensures Tokens(s + [r]) == Tokens(s) + (if r.finish == Some("stop") then [] else [r.token])
  {
    assert (s + [r])[..|s + [r]| - 1] == s;
  }

  /** Cutting a finished KV state back to its prompt for reuse. */
  function PromptSnapshot(trim: Trimmer, snapshot: Snapshot, sequence: seq<Token>, prompt: seq<Token>): Option<Snapshot> {
    var generated := |sequence| - |prompt|;
    if generated < 0 then None
    else if generated == 0 then Some(snapshot)
    else trim(snapshot, generated)
  }

  /** The cut-back state is the KV of the prompt if and only if the state it was cut from starts
      with the prompt and has as many tokens as the sequence it was announced with. */
  lemma PromptSnapshotSoundIff(trim: Trimmer, snapshot: Snapshot, kv: seq<Token>, sequence: seq<Token>, prompt: seq<Token>)
    requires TrimContract(trim) && HoldsFor(snapshot, kv)
    requires |sequence| <= |kv| + |prompt|
    requires PromptSnapshot(trim, snapshot, sequence, prompt).Some?
    ensures HoldsFor(PromptSnapshot(trim, snapshot, sequence, prompt).value, prompt)
            <==> prompt <= kv && |kv| == |sequence|
  {
    var n := |sequence| - |prompt|;
    var v := PromptSnapshot(trim, snapshot, sequence, prompt).value;
    assert kv[..|kv| - 0] == kv;
    assert HoldsFor(v, kv[..|kv| - n]);
    assert v[0].tokens == kv[..|kv| - n];
  }
}

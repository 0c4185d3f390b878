/** What vision clients are shown when the tokenizer only ever extends its text. */
module VlmStreaming {
  import opened Basics
  import opened PromptCache
  import opened Generation
  import opened RequestBoard
  import opened Streaming
  import opened VlmScheduler

  /** Everything the generator said to one uid. */
  function Projection(heard: seq<VlmResponse>, uid: Uid): seq<VlmResponse> {
    if heard == [] then []
    else
      var r := heard[|heard| - 1];
      Projection(heard[..|heard| - 1], uid) + (if r.uid == uid then [r] else [])
  }

  /** However responses are interleaved, a stream is what was said to its own uid, up to the finish. */
  lemma {:induction false} StreamIsTheProjection(heard: seq<VlmResponse>, uid: Uid)
    ensures var s, p := VlmStream(heard, uid), Projection(heard, uid);
            s <= p && (Ended(s) || s == p) && forall i | 0 <= i < |s| - 1 :: s[i].finish.None?
  {
    if heard != [] {
      StreamIsTheProjection(heard[..|heard| - 1], uid);
    }
  }

  /** Text comes from tokens alone: before the first token no response has text of its own.
      (Such text of later responses is ignored.) */
  predicate FromTokens(s: seq<VlmResponse>) {
    forall i | 0 <= i < |s| && NoToken(s[..i + 1]) :: s[i].text == ""
  }

  predicate NoToken(s: seq<VlmResponse>) {
    forall i | 0 <= i < |s| :: s[i].token.None?
  }

  lemma {:induction false} NothingGenerated(decode: Option<Decoder>, s: seq<VlmResponse>)
    ensures Play(decode, s).generated == [] <==> NoToken(s)
  {
    if s != [] {
      NothingGenerated(decode, s[..|s| - 1]);
      assert s == s[..|s| - 1] + [s[|s| - 1]];
    }
  }

  /** The tokens of a stream, in order. */
  function TokensOf(s: seq<VlmResponse>): seq<Token> {
    if s == [] then []
    else
      var r := s[|s| - 1];
      TokensOf(s[..|s| - 1]) + (if r.token.Some? then [r.token.value] else [])
  }

  /** The texts of a stream, put together. */
  function TextsOf(s: seq<VlmResponse>): string {
    if s == [] then "" else TextsOf(s[..|s| - 1]) + s[|s| - 1].text
  }

  /** A job's tokens are all the tokens of its stream, whatever the tokenizer. */
  lemma {:induction false} GeneratedAreTheTokens(decode: Option<Decoder>, s: seq<VlmResponse>)
    ensures Play(decode, s).generated == TokensOf(s)
  {
    if s != [] {
      GeneratedAreTheTokens(decode, s[..|s| - 1]);
    }
  }

  /** Without a tokenizer, and with one before the first token, the text shown is the responses' own. */
  lemma {:induction false} OwnTextIsShown(decode: Option<Decoder>, s: seq<VlmResponse>)
    requires decode.None? || NoToken(s)
    ensures Play(decode, s).rendered == TextsOf(s)
  {
    if s != [] {
      OwnTextIsShown(decode, s[..|s| - 1]);
      NothingGenerated(decode, s);
    }
  }

  /** What is shown at any point of a stream is what the tokens so far decode to. */
  lemma {:induction false} ShownIsDecoded(decode: Decoder, s: seq<VlmResponse>)
    requires PrefixMonotone(decode) && decode([]) == "" && FromTokens(s)
    ensures var shown := Play(Some(decode), s); shown.rendered == decode(shown.generated)
  {
    if s != [] {
      var r, start := s[|s| - 1], s[..|s| - 1];
      forall i | 0 <= i < |start| && NoToken(start[..i + 1]) ensures start[i].text == "" {
        assert start[..i + 1] == s[..i + 1];
      }
      ShownIsDecoded(decode, start);
      NothingGenerated(Some(decode), s);
      assert s[..|s|] == s;
      var before := Play(Some(decode), start);
      assert before.generated <= WithToken(before.generated, r);
      assert decode(before.generated) <= decode(WithToken(before.generated, r));
    }
  }

  /** The stream an answered request heard. */
  function HeardBy(s: State, d: Done): seq<VlmResponse> {
    if d.job.since <= d.until <= |s.heard| then VlmStream(s.heard[d.job.since..d.until], d.job.uid) else []
  }

  lemma AnswerSpan(cfg: Config, s: State, d: Done)
    requires Inv(cfg, s) && d in s.board.done
    ensures d.job.since <= d.until <= |s.heard|
    ensures AnsweredRight(cfg.decode, s.heard, d) && Said(s.board.log, d.job.ticket) == d.job.said
  {
    var i :| 0 <= i < |s.board.done| && s.board.done[i] == d;
    assert AnsweredRight(cfg.decode, s.heard, s.board.done[i]);
  }

  lemma FinalIsDecoded(decode: Decoder, stream: bool, s: seq<VlmResponse>)
    requires PrefixMonotone(decode) && decode([]) == "" && FromTokens(s) && s != []
    ensures var shown := Play(Some(decode), s); FinalText(Some(decode), stream, shown, s[|s| - 1]) == decode(shown.generated)
  {
    ShownIsDecoded(decode, s);
    NothingGenerated(Some(decode), s);
    hide PrefixMonotone, Play;
    assert s[..|s|] == s;
  }

  /** The tokenizer only extends its text, and starts from nothing. */
  ghost predicate OnlyExtending(decode: Option<Decoder>) {
    decode.Some? && PrefixMonotone(decode.value) && decode.value([]) == ""
  }

  /** For a tokenizer that only extends, every answer, finished or cancelled, is what the request's
      tokens decode to, and a streaming client was sent exactly that. */
  lemma AnswerIsDecoded(cfg: Config, s: State, d: Done)
    requires OnlyExtending(cfg.decode) && FromTokens(HeardBy(s, d))
    requires Inv(cfg, s) && d in s.board.done
    ensures d.text == cfg.decode.value(TokensOf(HeardBy(s, d))) && d.job.generated == TokensOf(HeardBy(s, d))
    ensures Said(s.board.log, d.job.ticket) == if d.job.request.stream then d.text else ""
  {
    hide Inv, Said, VlmStream, Play, FinalText, TokensOf, FromTokens, PrefixMonotone;
    AnswerSpan(cfg, s, d);
    var stream := HeardBy(s, d);
    GeneratedAreTheTokens(cfg.decode, stream);
    ShownIsDecoded(cfg.decode.value, stream);
    if stream != [] {
      FinalIsDecoded(cfg.decode.value, d.job.request.stream, stream);
    }
  }

  /** Such a tokenizer's streaming client ends up with the text the same tokens give a client that
      does not stream. */
  lemma StreamingAgreesWithNotStreaming(cfg: Config, s: State, d: Done, e: Done)
    requires OnlyExtending(cfg.decode)
    requires FromTokens(HeardBy(s, d))
    requires FromTokens(HeardBy(s, e))
    requires Inv(cfg, s) && d in s.board.done && e in s.board.done
    requires d.job.request.stream && !e.job.request.stream && d.job.generated == e.job.generated
    ensures Said(s.board.log, d.job.ticket) == d.text == e.text == cfg.decode.value(d.job.generated)
    ensures Said(s.board.log, e.job.ticket) == ""
  {
    hide Inv, PrefixMonotone, FromTokens, Said, HeardBy;
    AnswerIsDecoded(cfg, s, d);
    AnswerIsDecoded(cfg, s, e);
  }

  lemma FinalWithoutTokenizer(stream: bool, s: seq<VlmResponse>)
    requires s != []
    ensures FinalText(None, stream, Play(None, s), s[|s| - 1]) == Play(None, s).rendered
  {
    assert Play(None, s) == ShowOne(None, Play(None, s[..|s| - 1]), s[|s| - 1]);
  }

  /** Without a tokenizer the answer is what was shown, and a streaming client was sent it. */
  lemma WithoutTokenizer(cfg: Config, s: State, d: Done)
    requires Inv(cfg, s) && d in s.board.done && cfg.decode.None?
    ensures d.text == TextsOf(HeardBy(s, d)) && d.job.generated == TokensOf(HeardBy(s, d))
    ensures Said(s.board.log, d.job.ticket) == if d.job.request.stream then d.text else ""
  {
    AnswerSpan(cfg, s, d);
    OwnTextIsShown(None, HeardBy(s, d));
    GeneratedAreTheTokens(None, HeardBy(s, d));
    hide Inv, Said, VlmStream, Play, FinalText, TextsOf, TokensOf;
    var stream := HeardBy(s, d);
    if stream != [] {
      FinalWithoutTokenizer(d.job.request.stream, stream);
    }
  }
}

/** How generated tokens turn into text: deltas for a streaming client, one text for others. */
module Streaming {
  import opened PromptCache

  type Decoder = seq<Token> -> string

  /** The text a job shows after some tokens; before the first one it shows nothing. */
  function Rendered(decode: Decoder, generated: seq<Token>): string {
    if generated == [] then "" else decode(generated)
  }

  /** What is sent when the text changes: the new end of it, or all of it if it was rewritten. */
  function DeltaText(before: string, decoded: string): string {
    if before <= decoded then decoded[|before|..] else decoded
  }

  /** All deltas of a streaming job put together. */
  function Spoken(decode: Decoder, generated: seq<Token>): string {
    if generated == [] then ""
    else
      var before := generated[..|generated| - 1];
      Spoken(decode, before) + DeltaText(Rendered(decode, before), decode(generated))
  }

  lemma SpokenSnoc(decode: Decoder, generated: seq<Token>, token: Token)
    ensures Spoken(decode, generated + [token]) ==
            Spoken(decode, generated) + DeltaText(Rendered(decode, generated), decode(generated + [token]))
  {
    assert (generated + [token])[..|generated + [token]| - 1] == generated;
  }

  /** The decoder never takes back text it has shown for this token sequence. */
  ghost predicate OnlyExtends(decode: Decoder, generated: seq<Token>) {
    forall n | 0 < n <= |generated| :: Rendered(decode, generated[..n - 1]) <= decode(generated[..n])
  }

  lemma {:induction false} SpokenIsNoShorter(decode: Decoder, generated: seq<Token>)
    ensures OnlyExtends(decode, generated) ==> Spoken(decode, generated) == Rendered(decode, generated)
    ensures !OnlyExtends(decode, generated) ==> |Spoken(decode, generated)| > |Rendered(decode, generated)|
  {
    if generated != [] {
      var before := generated[..|generated| - 1];
      SpokenIsNoShorter(decode, before);
      assert forall n | 0 <= n <= |before| :: before[..n] == generated[..n];
      assert generated[..|generated|] == generated;
      assert OnlyExtends(decode, generated) <==> OnlyExtends(decode, before) && Rendered(decode, before) <= decode(generated);
    }
  }

  /** The concatenated deltas are the final text exactly when the decoder only ever extended
      what it had shown: one rewritten step and the client has seen too much, for good. */
  lemma DeltasAreTheTextIff(decode: Decoder, generated: seq<Token>)
    ensures Spoken(decode, generated) == Rendered(decode, generated) <==> OnlyExtends(decode, generated)
  {
    SpokenIsNoShorter(decode, generated);
  }

  /** A decoder that shows a placeholder until a second token completes the character. */
  const COMPLETING: Decoder := tokens => if tokens == [] then "" else if |tokens| == 1 then "?" else "e"

  /** Such a decoder rewrites what it showed, and its client has seen a character too many. */
  lemma CompletingRewrites()
    ensures !OnlyExtends(COMPLETING, [1, 2])
    ensures Spoken(COMPLETING, [1, 2]) == "?e" && Rendered(COMPLETING, [1, 2]) == "e"
  {
    assert [1, 2][..1] == [1] && [1][..0] == [] && [1, 2][..2] == [1, 2];
    assert Spoken(COMPLETING, []) == "";
    assert Spoken(COMPLETING, [1]) == "?";
    assert "?"[0] != "e"[0];
    assert Spoken(COMPLETING, [1, 2]) == "?" + "e";
    DeltasAreTheTextIff(COMPLETING, [1, 2]);
  }

  /** A decoder that maps longer token sequences to longer texts. */
  ghost predicate PrefixMonotone(decode: Decoder) {
    forall a, b :: a <= b ==> decode(a) <= decode(b)
  }

  lemma MonotoneAt(decode: Decoder, a: seq<Token>, b: seq<Token>)
    requires PrefixMonotone(decode) && decode([]) == "" && a <= b
    ensures Rendered(decode, a) <= decode(b)
  {
    assert decode(a) <= decode(b);
  }

  /** For such a decoder the deltas add up to what a client without streaming is sent. */
  lemma MonotoneDecoderStreamsFaithfully(decode: Decoder, generated: seq<Token>)
    requires PrefixMonotone(decode) && decode([]) == ""
    ensures Spoken(decode, generated) == Rendered(decode, generated) == decode(generated)
  {
    hide PrefixMonotone, Spoken;
    forall n | 0 < n <= |generated| ensures Rendered(decode, generated[..n - 1]) <= decode(generated[..n]) {
      assert generated[..n - 1] <= generated[..n];
      MonotoneAt(decode, generated[..n - 1], generated[..n]);
    }
    SpokenIsNoShorter(decode, generated);
  }
}

/** The streamed answer of the load generator (python/mlx_benchmark/loadgen.py): event lines cut
    out of body chunks, and what is collected from them. */
module EventStream {
  import opened Basics
  import opened Lines
  import opened Chunked

  const DATA: Bytes := [100, 97, 116, 97, 58]

  const DONE: Bytes := [91, 68, 79, 78, 69, 93]

  function StripReturns(s: Bytes): Bytes {
    if s != [] && s[|s| - 1] == CR then StripReturns(s[..|s| - 1]) else s
  }

  /** What an event line carries: None for other lines, empty events and the end marker. */
  function Payload(raw: Bytes): Option<Bytes> {
    var line := StripReturns(raw);
    if !(DATA <= line) then None
    else
      var data := Strip(line[5..]);
      if data == [] || data == DONE then None else Some(data)
  }

  function WithoutNewline(frame: Bytes): Bytes {
    if frame == [] then [] else frame[..|frame| - 1]
  }

  /** The payloads of a list of lines, newlines included. */
  function Payloads(frames: seq<Bytes>): seq<Bytes> {
    if frames == [] then []
    else
      var p := Payload(WithoutNewline(frames[|frames| - 1]));
      Payloads(frames[..|frames| - 1]) + (if p.Some? then [p.value] else [])
  }

  /** What one event adds, once its text was understood. An empty content adds nothing. */
  datatype Delta = Delta(content: string, finish: Option<string>, usage: Option<int>)

  datatype Seen = Seen(output: seq<string>, finish: Option<string>, usage: Option<int>)

  function Absorb(seen: Seen, d: Delta): Seen {
    Seen(if d.content == "" then seen.output else seen.output + [d.content],
         if d.finish.None? then seen.finish else d.finish,
         if d.usage.None? then seen.usage else d.usage)
  }

  type Parser = Bytes -> Option<Delta>

  /** All events in order; None if one of them could not be understood. */
  function AbsorbAll(parse: Parser, payloads: seq<Bytes>): Option<Seen> {
    if payloads == [] then Some(Seen([], None, None))
    else
      var before, d := AbsorbAll(parse, payloads[..|payloads| - 1]), parse(payloads[|payloads| - 1]);
      if before.None? || d.None? then None else Some(Absorb(before.value, d.value))
  }

  datatype ReplyError = BadEvent | BodyFailed(error: BodyError) | HttpStatus(status: int, text: Bytes) | NoToken | NoUsage

  /** The answer, as a function of the bytes of the body alone. */
  function Reply(status: int, bytes: Bytes, failure: Option<BodyError>, parse: Parser): Result<Seen, ReplyError> {
    var seen := AbsorbAll(parse, Payloads(Frames(bytes)));
    if status == 200 && seen.None? then Err(BadEvent)
    else if failure.Some? then Err(BodyFailed(failure.value))
    else if status != 200 then Err(HttpStatus(status, bytes))
    else if seen.value.output == [] then Err(NoToken)
    else if seen.value.usage.None? then Err(NoUsage)
    else Ok(seen.value)
  }

  function FailureOf(body: Body): Option<BodyError> {
    if body.Failed? then Some(body.error) else None
  }

  // ---------------------------------------------------------------- proofs

  lemma {:induction false} PayloadsAppend(a: seq<Bytes>, b: seq<Bytes>)
    ensures Payloads(a + b) == Payloads(a) + Payloads(b)
  {
    if b == [] {
      assert a + b == a;
    } else {
      assert (a + b)[..|a + b| - 1] == a + b[..|b| - 1];
      PayloadsAppend(a, b[..|b| - 1]);
    }
  }

  lemma {:induction false} AbsorbFails(parse: Parser, a: seq<Bytes>, b: seq<Bytes>)
    requires AbsorbAll(parse, a).None?
    ensures AbsorbAll(parse, a + b).None?
  {
    if b == [] {
      assert a + b == a;
    } else {
      assert (a + b)[..|a + b| - 1] == a + b[..|b| - 1];
      AbsorbFails(parse, a, b[..|b| - 1]);
    }
  }

  lemma {:induction false} AbsorbOneMore(parse: Parser, payloads: seq<Bytes>, p: Bytes)
    ensures AbsorbAll(parse, payloads + [p])
         == var before, d := AbsorbAll(parse, payloads), parse(p);
            if before.None? || d.None? then None else Some(Absorb(before.value, d.value))
  {
    assert (payloads + [p])[..|payloads + [p]| - 1] == payloads;
  }

  /** The deltas of a list of events that are all understood. */
  ghost predicate Understood(parse: Parser, payloads: seq<Bytes>, deltas: seq<Delta>) {
    |deltas| == |payloads| && forall i | 0 <= i < |deltas| :: parse(payloads[i]) == Some(deltas[i])
  }

  /** The contents that are not empty, in order. */
  function Texts(deltas: seq<Delta>): seq<string> {
    if deltas == [] then []
    else (if deltas[0].content == "" then [] else [deltas[0].content]) + Texts(deltas[1..])
  }

  /** The last reason given, or none if none was. */
  ghost predicate LastFinish(deltas: seq<Delta>, finish: Option<string>) {
    if finish.None? then forall i | 0 <= i < |deltas| :: deltas[i].finish.None?
    else exists i :: 0 <= i < |deltas| && deltas[i].finish == finish && forall j | i < j < |deltas| :: deltas[j].finish.None?
  }

  ghost predicate LastUsage(deltas: seq<Delta>, usage: Option<int>) {
    if usage.None? then forall i | 0 <= i < |deltas| :: deltas[i].usage.None?
    else exists i :: 0 <= i < |deltas| && deltas[i].usage == usage && forall j | i < j < |deltas| :: deltas[j].usage.None?
  }

  lemma {:induction false} TextsSnoc(deltas: seq<Delta>, d: Delta)
    ensures Texts(deltas + [d]) == Texts(deltas) + (if d.content == "" then [] else [d.content])
  {
    if deltas == [] {
      assert deltas + [d] == [d] && [d][1..] == [];
    } else {
      assert (deltas + [d])[1..] == deltas[1..] + [d];
      TextsSnoc(deltas[1..], d);
    }
  }

  /** What is collected from events that are all understood: every content that is not empty, in
      order, and the last finish reason and usage given. */
  lemma {:induction false} CollectedInOrder(parse: Parser, payloads: seq<Bytes>, deltas: seq<Delta>)
    requires Understood(parse, payloads, deltas)
    ensures AbsorbAll(parse, payloads).Some?
    ensures var seen := AbsorbAll(parse, payloads).value;
            seen.output == Texts(deltas) && LastFinish(deltas, seen.finish) && LastUsage(deltas, seen.usage)
  {
    if payloads != [] {
      var before, d := deltas[..|deltas| - 1], deltas[|deltas| - 1];
      CollectedInOrder(parse, payloads[..|payloads| - 1], before);
      TextsSnoc(before, d);
      assert deltas == before + [d];
      var seen := AbsorbAll(parse, payloads[..|payloads| - 1]).value;
      hide AbsorbAll, Texts;
      FinishSnoc(before, d, seen.finish);
      UsageSnoc(before, d, seen.usage);
    }
  }

  lemma FinishSnoc(deltas: seq<Delta>, d: Delta, finish: Option<string>)
    requires LastFinish(deltas, finish)
    ensures LastFinish(deltas + [d], if d.finish.None? then finish else d.finish)
  {
    var all := deltas + [d];
    if d.finish.Some? {
      assert all[|deltas|] == d;
    } else if finish.Some? {
      var i :| 0 <= i < |deltas| && deltas[i].finish == finish && forall j | i < j < |deltas| :: deltas[j].finish.None?;
      assert all[i] == deltas[i];
    }
  }

  lemma UsageSnoc(deltas: seq<Delta>, d: Delta, usage: Option<int>)
    requires LastUsage(deltas, usage)
    ensures LastUsage(deltas + [d], if d.usage.None? then usage else d.usage)
  {
    var all := deltas + [d];
    if d.usage.Some? {
      assert all[|deltas|] == d;
    } else if usage.Some? {
      var i :| 0 <= i < |deltas| && deltas[i].usage == usage && forall j | i < j < |deltas| :: deltas[j].usage.None?;
      assert all[i] == deltas[i];
    }
  }

  /** One event that is not understood spoils the answer. */
  lemma {:induction false} NotUnderstood(parse: Parser, payloads: seq<Bytes>, i: nat)
    requires i < |payloads| && parse(payloads[i]).None?
    ensures AbsorbAll(parse, payloads).None?
  {
    if i < |payloads| - 1 {
      NotUnderstood(parse, payloads[..|payloads| - 1], i);
    }
  }

  /** The payloads of a body, as bytes. */
  function PayloadsOf(bytes: Bytes): seq<Bytes> {
    Payloads(Frames(bytes))
  }

  /** A line completed in the buffer is the next line of the body. */
  lemma {:induction false} NextEvent(buffer: Bytes)
    requires FindNewline(buffer) < |buffer|
    ensures var i := FindNewline(buffer);
            var p := Payload(buffer[..i]);
            && PayloadsOf(buffer) == (if p.Some? then [p.value] else []) + PayloadsOf(buffer[i + 1..])
  {
    hide Payload, Frames, Payloads, FindNewline;
    var i := FindNewline(buffer);
    FirstLine(buffer);
    PayloadsAppend([buffer[..i + 1]], Frames(buffer[i + 1..]));
    OneLinePayloads(buffer[..i + 1]);
    assert WithoutNewline(buffer[..i + 1]) == buffer[..i];
  }

  lemma {:induction false} OneLinePayloads(f: Bytes)
    ensures Payloads([f]) == var p := Payload(WithoutNewline(f)); if p.Some? then [p.value] else []
  {
    var none: seq<Bytes> := [];
    var fs := [f];
    assert fs[..|fs| - 1] == none;
  }

  lemma {:induction false} PayloadsOfAppend(a: Bytes, b: Bytes)
    ensures PayloadsOf(a + b) == PayloadsOf(a) + PayloadsOf(Rest(a) + b)
  {
    FramesAppend(a, b);
    hide Frames, Rest;
    PayloadsAppend(Frames(a), Frames(Rest(a) + b));
  }

  lemma {:induction false} BadEventSpoilsTheRest(parse: Parser, status: int, bytes: Bytes, more: Bytes, failure: Option<BodyError>)
    requires status == 200 && AbsorbAll(parse, PayloadsOf(bytes)).None?
    ensures Reply(status, bytes + more, failure, parse) == Err(BadEvent)
  {
    hide Payloads, AbsorbAll;
    PayloadsOfAppend(bytes, more);
    AbsorbFails(parse, PayloadsOf(bytes), PayloadsOf(Rest(bytes) + more));
  }

  lemma {:induction false} ConcatSplit(chunks: seq<Bytes>, n: nat)
    requires n < |chunks|
    ensures Concat(chunks[..n + 1]) == Concat(chunks[..n]) + chunks[n]
    ensures Concat(chunks) == Concat(chunks[..n + 1]) + Concat(chunks[n + 1..])
  {
    hide Concat;
    ConcatUpTo(chunks, n);
    ConcatAt(chunks, n + 1);
  }

  lemma {:induction false} ConcatUpTo(chunks: seq<Bytes>, n: nat)
    requires n < |chunks|
    ensures Concat(chunks[..n + 1]) == Concat(chunks[..n]) + chunks[n]
  {
    hide Concat;
    assert chunks[..n + 1] == chunks[..n] + [chunks[n]];
    ConcatSnoc(chunks[..n], chunks[n]);
  }

  lemma {:induction false} ConcatAt(chunks: seq<Bytes>, n: nat)
    requires n <= |chunks|
    ensures Concat(chunks) == Concat(chunks[..n]) + Concat(chunks[n..])
  {
    hide Concat;
    assert chunks == chunks[..n] + chunks[n..];
    ConcatAppend(chunks[..n], chunks[n..]);
  }

  /** Takes the event lines out of one more chunk; None if one of them is not understood. */
  method TakeLines(parse: Parser, seen: Seen, buffered: Bytes, chunk: Bytes, ghost whole: Bytes)
    returns (r: Option<Seen>, buffer: Bytes)
    requires AbsorbAll(parse, PayloadsOf(whole)) == Some(seen) && buffered == Rest(whole)
    ensures r == AbsorbAll(parse, PayloadsOf(whole + chunk))
    ensures r.Some? ==> buffer == Rest(whole + chunk)
  {
    hide Payload, Payloads, PayloadsOf, AbsorbAll, Frames, Rest, FindNewline;
    buffer := buffered + chunk;
    var so := seen;
    ghost var taken := PayloadsOf(whole);
    PayloadsOfAppend(whole, chunk);
    FramesAppend(whole, chunk);
    while FindNewline(buffer) < |buffer|
      invariant AbsorbAll(parse, taken) == Some(so)
      invariant taken + PayloadsOf(buffer) == PayloadsOf(whole + chunk)
      invariant Rest(buffer) == Rest(whole + chunk)
      decreases |buffer|
    {
      NextEvent(buffer);
      FirstLine(buffer);
      var i := FindNewline(buffer);
      var p := Payload(buffer[..i]);
      buffer := buffer[i + 1..];
      if p.Some? {
        AbsorbOneMore(parse, taken, p.value);
        ghost var rest := PayloadsOf(buffer);
        assert (taken + [p.value]) + rest == taken + ([p.value] + rest);
        taken := taken + [p.value];
        var d := parse(p.value);
        if d.None? {
          AbsorbFails(parse, taken, rest);
          return None, buffer;
        }
        so := Absorb(so, d.value);
      } else {
        assert taken + ([] + PayloadsOf(buffer)) == taken + PayloadsOf(buffer);
      }
    }
    NoEvents(buffer);
    assert taken + [] == taken;
    return Some(so), buffer;
  }

  lemma {:induction false} NoEvents(buffer: Bytes)
    requires FindNewline(buffer) == |buffer|
    ensures PayloadsOf(buffer) == [] && Rest(buffer) == buffer
  {}

  /** Reads a streamed answer chunk by chunk, keeping what follows the last newline for the
      next chunk. The answer depends on the bytes of the body, not on how they were cut. */
  method ReadStreamResponse(status: int, body: Body, parse: Parser) returns (r: Result<Seen, ReplyError>)
    ensures r == Reply(status, Concat(body.chunks), FailureOf(body), parse)
  {
    hide Payloads, PayloadsOf, AbsorbAll, Frames, Rest, Concat;
    var seen, errorBody, buffer: Bytes := Seen([], None, None), [], [];
    NothingYet(parse);
    for c := 0 to |body.chunks|
      invariant status == 200 ==>
                  AbsorbAll(parse, PayloadsOf(Concat(body.chunks[..c]))) == Some(seen) && buffer == Rest(Concat(body.chunks[..c]))
      invariant status != 200 ==> errorBody == Concat(body.chunks[..c])
    {
      ConcatSplit(body.chunks, c);
      if status != 200 {
        errorBody := errorBody + body.chunks[c];
        continue;
      }
      var taken;
      ghost var whole := Concat(body.chunks[..c]);
      taken, buffer := TakeLines(parse, seen, buffer, body.chunks[c], whole);
      if taken.None? {
        BadEventSpoilsTheRest(parse, status, whole + body.chunks[c], Concat(body.chunks[c + 1..]), FailureOf(body));
        return Err(BadEvent);
      }
      seen := taken.value;
    }
    assert body.chunks[..|body.chunks|] == body.chunks;
    ReplyOf(status, Concat(body.chunks), FailureOf(body), parse);
    if body.Failed? {
      return Err(BodyFailed(body.error));
    }
    if status != 200 {
      return Err(HttpStatus(status, errorBody));
    }
    if seen.output == [] {
      return Err(NoToken);
    }
    if seen.usage.None? {
      return Err(NoUsage);
    }
    return Ok(seen);
  }

  lemma {:induction false} NothingYet(parse: Parser)
    ensures Concat<Byte>([]) == [] && Rest([]) == []
    ensures AbsorbAll(parse, PayloadsOf([])) == Some(Seen([], None, None))
  {}

  lemma {:induction false} ReplyOf(status: int, bytes: Bytes, failure: Option<BodyError>, parse: Parser)
    ensures Reply(status, bytes, failure, parse)
         == var seen := AbsorbAll(parse, PayloadsOf(bytes));
            if status == 200 && seen.None? then Err(BadEvent)
            else if failure.Some? then Err(BodyFailed(failure.value))
            else if status != 200 then Err(HttpStatus(status, bytes))
            else if seen.value.output == [] then Err(NoToken)
            else if seen.value.usage.None? then Err(NoUsage)
            else Ok(seen.value)
  {}

  // ------------------------------------------------------- events on the wire

  /** A payload a server can send: one line, no spaces at its ends, not the end marker. */
  predicate Sendable(p: Bytes) {
    p != [] && p != DONE && OneLine(p) && !IsSpace(p[0]) && !IsSpace(p[|p| - 1])
  }

  function EventLine(p: Bytes): Bytes {
    DATA + [32] + p + [LF]
  }

  /** Each payload on a line of its own followed by an empty one, and then the end marker. */
  function EventText(payloads: seq<Bytes>): Bytes {
    if payloads == [] then EventLine(DONE) + [LF]
    else EventLine(payloads[0]) + ([LF] + EventText(payloads[1..]))
  }

  lemma {:induction false} StripKeeps(p: Bytes)
    requires p != [] && !IsSpace(p[0]) && !IsSpace(p[|p| - 1])
    ensures Strip([32] + p) == p
  {
    assert ([32] + p)[1..] == p;
    assert LeftStrip([32] + p) == LeftStrip(p) == p;
  }

  lemma {:induction false} LineCarries(p: Bytes, more: Bytes)
    requires p != [] && OneLine(p) && !IsSpace(p[0]) && !IsSpace(p[|p| - 1])
    ensures PayloadsOf(EventLine(p) + more) == (if p == DONE then [] else [p]) + PayloadsOf(more)
  {
    var s, raw := EventLine(p) + more, DATA + [32] + p;
    FindNewlineIs(s, |raw|);
    assert s[..|raw|] == raw && s[|raw| + 1..] == more;
    assert StripReturns(raw) == raw && raw[5..] == [32] + p;
    StripKeeps(p);
    hide Strip, StripReturns;
    NextEvent(s);
  }

  lemma {:induction false} ReturnsStripped(a: Bytes, spaces: Bytes) returns (n: nat)
    requires a != [] && a[|a| - 1] != CR
    ensures n <= |spaces| && StripReturns(a + spaces) == a + spaces[..n]
  {
    n := |spaces|;
    assert spaces[..n] == spaces;
    if spaces != [] && spaces[|spaces| - 1] == CR {
      var shorter := spaces[..|spaces| - 1];
      assert (a + spaces)[..|a + spaces| - 1] == a + shorter;
      n := ReturnsStripped(a, shorter);
      assert shorter[..n] == spaces[..n];
    }
  }

  /** Spaces around an event, a carriage return among them, do not matter, and an event of nothing
      but spaces carries nothing. */
  lemma PaddedEventCarries(pre: Bytes, p: Bytes, post: Bytes, more: Bytes)
    requires OneLine(pre + p + post) && (forall b <- pre :: IsSpace(b)) && (forall b <- post :: IsSpace(b))
    requires p != [] ==> !IsSpace(p[0]) && !IsSpace(p[|p| - 1])
    ensures PayloadsOf(DATA + pre + p + post + [LF] + more) == (if p == [] || p == DONE then [] else [p]) + PayloadsOf(more)
  {
    var raw := DATA + pre + p + post;
    var s := raw + [LF] + more;
    assert s == DATA + pre + p + post + [LF] + more;
    forall j | 0 <= j < |raw| ensures s[j] != LF {
      assert s[j] == if j < 5 then DATA[j] else (pre + p + post)[j - 5];
    }
    FindNewlineIs(s, |raw|);
    assert s[..|raw|] == raw && s[|raw| + 1..] == more;
    PayloadIs(pre, p, post);
    hide Payload;
    NextEvent(s);
  }

  lemma PayloadIs(pre: Bytes, p: Bytes, post: Bytes)
    requires (forall b <- pre :: IsSpace(b)) && (forall b <- post :: IsSpace(b))
    requires p != [] ==> !IsSpace(p[0]) && !IsSpace(p[|p| - 1])
    ensures Payload(DATA + pre + p + post) == if p == [] || p == DONE then None else Some(p)
  {
    var n: nat;
    if p == [] {
      var spaces := pre + post;
      assert DATA + pre + p + post == DATA + spaces;
      n := ReturnsStripped(DATA, spaces);
      assert (DATA + spaces[..n])[5..] == spaces[..n] + [];
      LeftStripSpaces(spaces[..n], []);
    } else {
      assert DATA + pre + p + post == (DATA + pre + p) + post;
      n := ReturnsStripped(DATA + pre + p, post);
      assert (DATA + pre + p + post[..n])[5..] == pre + (p + post[..n]);
      LeftStripSpaces(pre, p + post[..n]);
      RightStripSpaces(p, post[..n]);
    }
    hide LeftStrip, RightStrip, StripReturns;
  }

  /** A line that does not begin with the event prefix carries nothing. */
  lemma OtherLinesAreIgnored(line: Bytes, more: Bytes)
    requires OneLine(line) && !(DATA <= line)
    ensures PayloadsOf(line + [LF] + more) == PayloadsOf(more)
  {
    var s := line + [LF] + more;
    FindNewlineIs(s, |line|);
    assert s[..|line|] == line && s[|line| + 1..] == more;
    StrippedPrefix(line);
    hide StripReturns;
    NextEvent(s);
  }

  lemma {:induction false} StrippedPrefix(line: Bytes)
    ensures StripReturns(line) <= line
  {
    if line != [] {
      StrippedPrefix(line[..|line| - 1]);
    }
  }

  lemma {:induction false} EmptyLineCarries(more: Bytes)
    ensures PayloadsOf([LF] + more) == PayloadsOf(more)
  {
    var s := [LF] + more;
    FindNewlineIs(s, 0);
    assert s[..0] == [] && s[1..] == more;
    NextEvent(s);
  }

  lemma {:induction false} EventTextCarries(payloads: seq<Bytes>)
    requires forall i | 0 <= i < |payloads| :: Sendable(payloads[i])
    ensures PayloadsOf(EventText(payloads)) == payloads
  {
    hide PayloadsOf, EventLine;
    if payloads == [] {
      LineCarries(DONE, [LF]);
      EmptyLineCarries([]);
      assert [LF] + [] == [LF];
      NoEvents([]);
    } else {
      LineCarries(payloads[0], [LF] + EventText(payloads[1..]));
      EmptyLineCarries(EventText(payloads[1..]));
      EventTextCarries(payloads[1..]);
    }
  }

  /** From the server's events to the ones acted on: whatever chunks the text is cut into and
      however they are spelled on the wire, exactly the payloads sent are read, in order, and
      the connection is left at the next response. */
  lemma {:induction false} EventsSurviveTheWire(payloads: seq<Bytes>, chunks: seq<Chunk>, tail: Tail, more: Bytes)
    requires forall i | 0 <= i < |payloads| :: Sendable(payloads[i])
    requires (forall c <- chunks :: IsChunk(c)) && IsTail(tail) && Concat(Data(chunks)) == EventText(payloads)
    ensures var body := Decode(Encode(chunks, tail) + more);
            body.Complete? && body.rest == more && PayloadsOf(Concat(body.chunks)) == payloads
  {
    DecodeInvertsEncode(chunks, tail, more);
    EventTextCarries(payloads);
  }
}

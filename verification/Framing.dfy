/** The serial worker's command reader (python/mlx_worker/main.py): frames arrive in arbitrary
    chunks, and a running request may look ahead for its own cancellation. */
module Framing {
  import opened Basics
  import opened Lines

  datatype Read = NoFrame | Eof | Line(frame: Bytes)

  /** A frame taken from the stream: kept for the command loop, or consumed as the cancellation
      of the request that was running. */
  datatype Taken = Taken(frame: Bytes, consumedFor: Option<string>)

  /** incoming lists the chunks the socket will still deliver before the peer closes it; processed
      and taken are records of the model. */
  datatype State = State(buffer: Bytes, incoming: seq<Bytes>, pendingLines: seq<Bytes>,
                         processed: seq<Bytes>, taken: seq<Taken>)

  function Initial(chunks: seq<Bytes>): State {
    State([], chunks, [], [], [])
  }

  // ------------------------------------------------------------------ steps

  /** Reads one frame, waiting for more input only when block is set; ready is what polling the
      socket reports. */
  function ReadLine(buffer: Bytes, incoming: seq<Bytes>, block: bool, ready: bool): (Read, Bytes, seq<Bytes>)
    decreases |incoming|
  {
    var i := FindNewline(buffer);
    if i < |buffer| then (Line(buffer[..i + 1]), buffer[i + 1..], incoming)
    else if !block && !ready then (NoFrame, buffer, incoming)
    else if incoming == [] then (Eof, buffer, incoming)
    else if block then ReadLine(buffer + incoming[0], incoming[1..], block, ready)
    else
      var buffer' := buffer + incoming[0];
      var k := FindNewline(buffer');
      if k < |buffer'| then (Line(buffer'[..k + 1]), buffer'[k + 1..], incoming[1..])
      else (NoFrame, buffer', incoming[1..])
  }

  type CancelTest = (Bytes, string) -> bool

  /** One should_cancel poll of the request id that was not cancelled before. */
  function Poll(s: State, id: string, ready: bool, isCancel: CancelTest): (State, bool) {
    var (read, buffer, incoming) := ReadLine(s.buffer, s.incoming, false, ready);
    var s' := s.(buffer := buffer, incoming := incoming);
    match read
    case NoFrame => (s', false)
    case Eof => (s', true)
    case Line(f) =>
      if isCancel(f, id) then (s'.(taken := s'.taken + [Taken(f, Some(id))]), true)
      else (s'.(pendingLines := s'.pendingLines + [f], taken := s'.taken + [Taken(f, None)]), false)
  }

  /** All polls a request makes: once cancelled, it does not read any further. */
  function Polls(s: State, id: string, ready: seq<bool>, isCancel: CancelTest): State
    decreases |ready|
  {
    if ready == [] then s
    else
      var (s', cancelled) := Poll(s, id, ready[0], isCancel);
      if cancelled then s' else Polls(s', id, ready[1..], isCancel)
  }

  /** The next frame of the command loop: a deferred one first, else from the stream. */
  function Next(s: State): (Option<Bytes>, State) {
    if s.pendingLines != [] then
      (Some(s.pendingLines[0]), s.(pendingLines := s.pendingLines[1..], processed := s.processed + [s.pendingLines[0]]))
    else
      var (read, buffer, incoming) := ReadLine(s.buffer, s.incoming, true, true);
      var s' := s.(buffer := buffer, incoming := incoming);
      match read
      case Line(f) => (Some(f), s'.(processed := s'.processed + [f], taken := s'.taken + [Taken(f, None)]))
      case _ => (None, s')
  }

  /** What the loop does with its n-th frame: if it is a request, its id and the outcomes of the
      socket polls made while it runs. */
  type Schedule = (nat, Bytes) -> Option<(string, seq<bool>)>

  function Iterate(s: State, n: nat, schedule: Schedule, isCancel: CancelTest): (State, bool) {
    var (frame, s') := Next(s);
    if frame.None? then (s', false)
    else
      match schedule(n, frame.value)
      case None => (s', true)
      case Some((id, ready)) => (Polls(s', id, ready, isCancel), true)
  }

  /** The first n iterations of the command loop, which ends when there is no frame left. */
  function Loop(s: State, n: nat, schedule: Schedule, isCancel: CancelTest): (State, bool) {
    if n == 0 then (s, true)
    else
      var (s', running) := Loop(s, n - 1, schedule, isCancel);
      if running then Iterate(s', n - 1, schedule, isCancel) else (s', false)
  }

  // -------------------------------------------------------- nothing is lost

  function Kept(taken: seq<Taken>): seq<Bytes> {
    if taken == [] then []
    else
      var t := taken[|taken| - 1];
      Kept(taken[..|taken| - 1]) + (if t.consumedFor.None? then [t.frame] else [])
  }

  function FramesOf(taken: seq<Taken>): seq<Bytes> {
    seq(|taken|, i requires 0 <= i < |taken| => taken[i].frame)
  }

  function Unread(s: State): Bytes {
    s.buffer + Concat(s.incoming)
  }

  /** The frames taken so far and those still unread are the input's, in order; the kept ones are
      those processed and then those deferred; and only matching cancellations were consumed. */
  ghost predicate Conserves(s: State, input: Bytes, isCancel: CancelTest) {
    && FramesOf(s.taken) + Frames(Unread(s)) == Frames(input)
    && Kept(s.taken) == s.processed + s.pendingLines
    && forall t <- s.taken :: t.consumedFor.Some? ==> isCancel(t.frame, t.consumedFor.value)
  }

  lemma KeptSnoc(taken: seq<Taken>, t: Taken)
    ensures Kept(taken + [t]) == Kept(taken) + (if t.consumedFor.None? then [t.frame] else [])
    ensures FramesOf(taken + [t]) == FramesOf(taken) + [t.frame]
  {
    assert (taken + [t])[..|taken + [t]| - 1] == taken;
  }

  /** A read takes the first unread frame off, or leaves the unread bytes as they are; at the end
      of a blocking read that finds no frame, there is none. */
  lemma {:induction false} ReadTakesTheFirstFrame(buffer: Bytes, incoming: seq<Bytes>, block: bool, ready: bool)
    ensures var (read, buffer', incoming') := ReadLine(buffer, incoming, block, ready);
            var before, after := buffer + Concat(incoming), buffer' + Concat(incoming');
            && (read.Line? ==> Frames(before) == [read.frame] + Frames(after))
            && (!read.Line? ==> after == before)
            && (block ==> !read.NoFrame?)
            && (read.Eof? ==> Frames(before) == [])
    decreases |incoming|
  {
    hide Frames;
    var i := FindNewline(buffer);
    var before := buffer + Concat(incoming);
    if i < |buffer| {
      FirstFrame(buffer, Concat(incoming));
    } else if !block && !ready {
    } else if incoming == [] {
      assert before == buffer;
      NoLine(buffer);
    } else {
      var buffer' := buffer + incoming[0];
      assert before == buffer' + Concat(incoming[1..]);
      if block {
        ReadTakesTheFirstFrame(buffer', incoming[1..], block, ready);
      } else if FindNewline(buffer') < |buffer'| {
        FirstFrame(buffer', Concat(incoming[1..]));
      }
    }
  }

  lemma FirstFrame(buffer: Bytes, more: Bytes)
    requires FindNewline(buffer) < |buffer|
    ensures var i := FindNewline(buffer);
            Frames(buffer + more) == [buffer[..i + 1]] + Frames(buffer[i + 1..] + more)
  {
    var i := FindNewline(buffer);
    FindNewlineIs(buffer + more, i);
    assert (buffer + more)[..i + 1] == buffer[..i + 1] && (buffer + more)[i + 1..] == buffer[i + 1..] + more;
  }

  lemma PollConserves(s: State, input: Bytes, id: string, ready: bool, isCancel: CancelTest)
    requires Conserves(s, input, isCancel)
    ensures Conserves(Poll(s, id, ready, isCancel).0, input, isCancel)
    ensures Poll(s, id, ready, isCancel).0.processed == s.processed
  {
    ReadTakesTheFirstFrame(s.buffer, s.incoming, false, ready);
    var (read, buffer, incoming) := ReadLine(s.buffer, s.incoming, false, ready);
    hide Frames, Kept, ReadLine, FramesOf, Concat;
    if read.Line? {
      var t := Taken(read.frame, if isCancel(read.frame, id) then Some(id) else None);
      KeptSnoc(s.taken, t);
      assert Kept(s.taken) + [] == Kept(s.taken);
      assert (s.processed + s.pendingLines) + [read.frame] == s.processed + (s.pendingLines + [read.frame]);
    }
  }

  /** The bytes one poll can look at: what is buffered, and, when that has no complete line and the
      socket is ready, one more chunk. */
  function InSight(s: State, ready: bool): Bytes {
    if LF in s.buffer || !ready || s.incoming == [] then s.buffer else s.buffer + s.incoming[0]
  }

  /** A read that does not wait takes the first complete line in sight. */
  lemma ReadInSight(s: State, ready: bool)
    ensures var (read, buffer, incoming) := ReadLine(s.buffer, s.incoming, false, ready);
            var sight := InSight(s, ready);
            && sight + Concat(incoming) == Unread(s)
            && if Frames(sight) != [] then read == Line(Frames(sight)[0]) && Frames(sight)[0] + buffer == sight
               else buffer == sight && read == if LF !in s.buffer && ready && s.incoming == [] then Eof else NoFrame
  {
    var i, sight := FindNewline(s.buffer), InSight(s, ready);
    assert LF in s.buffer <==> i < |s.buffer|;
    LineInFront(sight);
    if s.incoming != [] {
      assert Concat(s.incoming) == s.incoming[0] + Concat(s.incoming[1..]);
      assert (s.buffer + s.incoming[0]) + Concat(s.incoming[1..]) == Unread(s);
    }
    hide Frames, Concat, FindNewline;
  }

  lemma LineInFront(sight: Bytes)
    ensures var k := FindNewline(sight);
            && (Frames(sight) != [] <==> k < |sight|)
            && (k < |sight| ==> Frames(sight)[0] == sight[..k + 1] && sight == sight[..k + 1] + sight[k + 1..])
  {
    hide Frames, FindNewline;
    var k := FindNewline(sight);
    if k < |sight| {
      FirstLine(sight);
      Halves(sight, k + 1);
      var first, rest := sight[..k + 1], Frames(sight[k + 1..]);
      assert Frames(sight) == [first] + rest && ([first] + rest)[0] == first;
    } else {
      NoLine(sight);
    }
  }

  /** What a poll does.  With a complete line in sight it takes the first one: a matching
      cancellation is consumed and answered with true, any other is deferred.  Without one it takes
      nothing, and answers true only when the peer has closed the connection. */
  lemma PollTakesTheLineInSight(s: State, id: string, ready: bool, isCancel: CancelTest)
    ensures var (s', cancelled) := Poll(s, id, ready, isCancel);
            var lines := Frames(InSight(s, ready));
            && s'.processed == s.processed
            && if lines != [] then
                 && cancelled == isCancel(lines[0], id)
                 && s'.taken == s.taken + [Taken(lines[0], if cancelled then Some(id) else None)]
                 && s'.pendingLines == s.pendingLines + (if cancelled then [] else [lines[0]])
                 && lines[0] + Unread(s') == Unread(s)
               else
                 && cancelled == (LF !in s.buffer && ready && s.incoming == [])
                 && s'.taken == s.taken && s'.pendingLines == s.pendingLines && Unread(s') == Unread(s)
  {
    var sight := InSight(s, ready);
    ReadInSight(s, ready);
    hide ReadLine, InSight;
    if Frames(sight) != [] {
      assert sight == Frames(sight)[0] + sight[|Frames(sight)[0]|..];
    }
  }

  /** A poll of a ready socket with a line left to read takes the first one, or a chunk. */
  lemma ReadyPollProgresses(s: State, id: string, isCancel: CancelTest)
    requires Frames(Unread(s)) != []
    ensures var (s', cancelled) := Poll(s, id, true, isCancel);
            var f := Frames(Unread(s))[0];
            && |s'.incoming| <= |s.incoming|
            && if Frames(InSight(s, true)) != [] then
                 && cancelled == isCancel(f, id)
                 && s'.taken == s.taken + [Taken(f, if cancelled then Some(id) else None)]
                 && s'.pendingLines == s.pendingLines + (if cancelled then [] else [f])
                 && Frames(Unread(s')) == Frames(Unread(s))[1..]
               else
                 && !cancelled && |s'.incoming| < |s.incoming|
                 && s'.taken == s.taken && s'.pendingLines == s.pendingLines && Unread(s') == Unread(s)
  {
    PollTakesTheLineInSight(s, id, true, isCancel);
    ReadTakesTheFirstFrame(s.buffer, s.incoming, false, true);
    ReadInSight(s, true);
    PollReadsOn(s, id, true, isCancel);
    hide Frames, Concat, InSight;
    if Frames(InSight(s, true)) == [] && s.incoming == [] {
      assert InSight(s, true) == Unread(s) by { NothingElseInSight(s); }
    }
  }

  lemma NothingElseInSight(s: State)
    requires s.incoming == []
    ensures InSight(s, true) == Unread(s)
  {
  }

  lemma PollReadsOn(s: State, id: string, ready: bool, isCancel: CancelTest)
    ensures |Poll(s, id, ready, isCancel).0.incoming| <= |s.incoming|
    ensures Frames(InSight(s, ready)) == [] && ready && s.incoming != [] ==>
              |Poll(s, id, ready, isCancel).0.incoming| < |s.incoming|
  {
    LineInFront(InSight(s, ready));
    hide Frames;
  }

  /** A cancellation is seen: while the socket is ready, a request that polls often enough consumes
      the first cancellation meant for it, with every line before it deferred. */
  lemma {:induction false} CancelIsSeen(s: State, id: string, ready: seq<bool>, isCancel: CancelTest, m: nat)
    requires (forall i | 0 <= i < |ready| :: ready[i]) && |ready| > m + |s.incoming|
    requires var lines := Frames(Unread(s));
             m < |lines| && isCancel(lines[m], id) && forall j | 0 <= j < m :: !isCancel(lines[j], id)
    ensures var s', lines := Polls(s, id, ready, isCancel), Frames(Unread(s));
            && s'.pendingLines == s.pendingLines + lines[..m]
            && s'.taken == s.taken + Deferred(lines[..m]) + [Taken(lines[m], Some(id))]
    decreases |ready|
  {
    hide ReadLine, Frames, Concat, InSight;
    ReadyPollProgresses(s, id, isCancel);
    var (s1, cancelled) := Poll(s, id, ready[0], isCancel);
    var lines := Frames(Unread(s));
    assert Deferred(lines[..0]) == [];
    if m > 0 && s1.taken != s.taken {
      CancelIsSeen(s1, id, ready[1..], isCancel, m - 1);
      assert lines[..m] == [lines[0]] + lines[1..][..m - 1];
      assert Deferred(lines[..m]) == [Taken(lines[0], None)] + Deferred(lines[1..][..m - 1]);
    } else if s1.taken == s.taken {
      CancelIsSeen(s1, id, ready[1..], isCancel, m);
    }
  }

  function Deferred(lines: seq<Bytes>): seq<Taken> {
    seq(|lines|, i requires 0 <= i < |lines| => Taken(lines[i], None))
  }

  /** A request's polls defer every line they take but one at most. */
  lemma {:induction false} AtMostOneIsConsumed(s: State, id: string, ready: seq<bool>, isCancel: CancelTest)
    ensures var s' := Polls(s, id, ready, isCancel);
            0 <= (|s'.taken| - |s.taken|) - (|s'.pendingLines| - |s.pendingLines|) <= 1
    decreases |ready|
  {
    hide ReadLine;
    if ready != [] && !Poll(s, id, ready[0], isCancel).1 {
      AtMostOneIsConsumed(Poll(s, id, ready[0], isCancel).0, id, ready[1..], isCancel);
    }
  }

  lemma {:induction false} PollsConserve(s: State, input: Bytes, id: string, ready: seq<bool>, isCancel: CancelTest)
    requires Conserves(s, input, isCancel)
    ensures Conserves(Polls(s, id, ready, isCancel), input, isCancel)
    ensures Polls(s, id, ready, isCancel).processed == s.processed
    decreases |ready|
  {
    hide Conserves, Poll;
    if ready != [] {
      PollConserves(s, input, id, ready[0], isCancel);
      var (s', cancelled) := Poll(s, id, ready[0], isCancel);
      if !cancelled {
        PollsConserve(s', input, id, ready[1..], isCancel);
      }
    }
  }

  lemma NextConserves(s: State, input: Bytes, isCancel: CancelTest)
    requires Conserves(s, input, isCancel)
    ensures Conserves(Next(s).1, input, isCancel)
    ensures Next(s).0.None? ==> Next(s).1.pendingLines == [] && Frames(Unread(Next(s).1)) == []
    ensures Next(s).0.Some? ==> Next(s).1.processed == s.processed + [Next(s).0.value]
  {
    if s.pendingLines != [] {
      hide Frames, Kept, ReadLine, FramesOf, Concat;
      assert s.processed + s.pendingLines == (s.processed + [s.pendingLines[0]]) + s.pendingLines[1..];
    } else {
      hide Frames, Kept, ReadLine, FramesOf, Concat;
      ReadTakesTheFirstFrame(s.buffer, s.incoming, true, true);
      var (read, buffer, incoming) := ReadLine(s.buffer, s.incoming, true, true);
      if read.Line? {
        KeptSnoc(s.taken, Taken(read.frame, None));
        assert (FramesOf(s.taken) + [read.frame]) + Frames(buffer + Concat(incoming))
            == FramesOf(s.taken) + ([read.frame] + Frames(buffer + Concat(incoming)));
        assert s.processed + [] == s.processed;
      }
    }
  }

  lemma NothingLeft(s: State, input: Bytes, isCancel: CancelTest)
    requires Conserves(s, input, isCancel) && s.pendingLines == [] && Frames(Unread(s)) == []
    ensures s.processed == Kept(s.taken) && FramesOf(s.taken) == Frames(input)
  {
    hide Frames, Kept, FramesOf, Unread;
    assert s.processed + [] == s.processed && FramesOf(s.taken) + [] == FramesOf(s.taken);
  }

  lemma NothingTaken(chunks: seq<Bytes>, isCancel: CancelTest)
    ensures Conserves(Initial(chunks), Concat(chunks), isCancel)
  {
    hide Frames, Concat;
    assert [] + Concat(chunks) == Concat(chunks);
  }

  lemma IterateConserves(s: State, input: Bytes, n: nat, schedule: Schedule, isCancel: CancelTest)
    requires Conserves(s, input, isCancel)
    ensures var (s', running) := Iterate(s, n, schedule, isCancel);
            && Conserves(s', input, isCancel)
            && (!running ==> s'.processed == Kept(s'.taken) && FramesOf(s'.taken) == Frames(input))
  {
    hide Conserves, Next, Polls, Frames, Kept, FramesOf, Unread;
    NextConserves(s, input, isCancel);
    var (frame, s') := Next(s);
    if frame.None? {
      NothingLeft(s', input, isCancel);
    } else if schedule(n, frame.value).Some? {
      PollsConserve(s', input, schedule(n, frame.value).value.0, schedule(n, frame.value).value.1, isCancel);
    }
  }

  /** For every chunking of the input and every pattern of polls, at every point of the loop:
      the frames processed, deferred and still unread are the input's lines minus exactly the
      consumed matching cancellations, in order; and when the loop ends, all were processed. */
  lemma {:induction false} NoFrameIsLost(chunks: seq<Bytes>, n: nat, schedule: Schedule, isCancel: CancelTest)
    ensures var (s, running) := Loop(Initial(chunks), n, schedule, isCancel);
            && Conserves(s, Concat(chunks), isCancel)
            && (!running ==> s.processed == Kept(s.taken) && FramesOf(s.taken) == Frames(Concat(chunks)))
  {
    hide Conserves, Iterate, Concat, Frames, Kept, FramesOf, Initial;
    if n == 0 {
      NothingTaken(chunks, isCancel);
    } else {
      NoFrameIsLost(chunks, n - 1, schedule, isCancel);
      var (s, running) := Loop(Initial(chunks), n - 1, schedule, isCancel);
      if running {
        IterateConserves(s, Concat(chunks), n - 1, schedule, isCancel);
      }
    }
  }

  lemma {:induction false} KeptAreTaken(taken: seq<Taken>)
    ensures |Kept(taken)| <= |taken|
  {
    if taken != [] {
      KeptAreTaken(taken[..|taken| - 1]);
    }
  }

  lemma PollsKeepCount(s: State, input: Bytes, id: string, ready: seq<bool>, isCancel: CancelTest)
    requires Conserves(s, input, isCancel)
    ensures |Polls(s, id, ready, isCancel).processed| == |s.processed|
  {
    PollsConserve(s, input, id, ready, isCancel);
  }

  /** Every iteration that does not end the loop processes one frame. */
  lemma {:induction false} OneFrameEachTime(chunks: seq<Bytes>, n: nat, schedule: Schedule, isCancel: CancelTest)
    ensures var (s, running) := Loop(Initial(chunks), n, schedule, isCancel); running ==> |s.processed| == n
  {
    if n > 0 {
      hide Conserves, Next, Polls, Initial;
      OneFrameEachTime(chunks, n - 1, schedule, isCancel);
      NoFrameIsLost(chunks, n - 1, schedule, isCancel);
      var (s, running) := Loop(Initial(chunks), n - 1, schedule, isCancel);
      if running {
        NextConserves(s, Concat(chunks), isCancel);
        var (frame, s') := Next(s);
        if frame.Some? && schedule(n - 1, frame.value).Some? {
          var (id, ready) := schedule(n - 1, frame.value).value;
          PollsKeepCount(s', Concat(chunks), id, ready, isCancel);
        }
      }
    } else {
      hide Conserves, Next, Polls;
    }
  }

  /** The loop ends once there were more iterations than lines, and then every frame was taken
      and every kept one processed. */
  lemma LoopEnds(chunks: seq<Bytes>, n: nat, schedule: Schedule, isCancel: CancelTest)
    requires n > |Frames(Concat(chunks))|
    ensures var (s, running) := Loop(Initial(chunks), n, schedule, isCancel);
            !running && s.processed == Kept(s.taken) && FramesOf(s.taken) == Frames(Concat(chunks))
  {
    hide Loop, Kept, Frames, Concat;
    var (s, running) := Loop(Initial(chunks), n, schedule, isCancel);
    NoFrameIsLost(chunks, n, schedule, isCancel);
    OneFrameEachTime(chunks, n, schedule, isCancel);
    KeptAreTaken(s.taken);
    assert |FramesOf(s.taken)| == |s.taken|;
    assert |s.processed| <= |Kept(s.taken)|;
  }

  /** The chunking itself never matters to which frames there are to be had. */
  lemma ChunkingIsInvisible(chunks: seq<Bytes>, chunks': seq<Bytes>, n: nat, n': nat,
                            schedule: Schedule, schedule': Schedule, isCancel: CancelTest)
    requires Concat(chunks) == Concat(chunks')
    requires n > |Frames(Concat(chunks))| && n' > |Frames(Concat(chunks'))|
    ensures FramesOf(Loop(Initial(chunks), n, schedule, isCancel).0.taken)
         == FramesOf(Loop(Initial(chunks'), n', schedule', isCancel).0.taken)
  {
    LoopEnds(chunks, n, schedule, isCancel);
    LoopEnds(chunks', n', schedule', isCancel);
  }

  // -------------------------------------------------------------- the worker

  class CommandReader {
    const isCancel: CancelTest
    var buffer: Bytes
    var incoming: seq<Bytes>
    var pendingLines: seq<Bytes>
    // records of the model
    ghost var processed: seq<Bytes>
    ghost var taken: seq<Taken>

    ghost function Contents(): State
      reads this
    {
      State(buffer, incoming, pendingLines, processed, taken)
    }

    constructor (chunks: seq<Bytes>, isCancel: CancelTest)
      ensures Contents() == Initial(chunks) && this.isCancel == isCancel
    {
      buffer, incoming, pendingLines, processed, taken := [], chunks, [], [], [];
      this.isCancel := isCancel;
    }

    method PopBufferedLine() returns (line: Option<Bytes>)
      modifies this`buffer
      ensures var i := FindNewline(old(buffer));
              if i < |old(buffer)| then line == Some(old(buffer)[..i + 1]) && buffer == old(buffer)[i + 1..]
              else line == None && buffer == old(buffer)
    {
      var newline := FindNewline(buffer);
      if newline == |buffer| {
        return None;
      }
      line := Some(buffer[..newline + 1]);
      buffer := buffer[newline + 1..];
    }

    method ReadCommandLine(block: bool, ready: bool) returns (read: Read)
      modifies this`buffer, this`incoming
      ensures (read, buffer, incoming) == ReadLine(old(buffer), old(incoming), block, ready)
    {
      var line := PopBufferedLine();
      if line != None {
        return Line(line.value);
      }
      while true
        invariant FindNewline(buffer) == |buffer|
        invariant ReadLine(buffer, incoming, block, ready) == ReadLine(old(buffer), old(incoming), block, ready)
        decreases |incoming|
      {
        if !block && !ready {
          return NoFrame;
        }
        if incoming == [] {
          return Eof;
        }
        buffer := buffer + incoming[0];
        incoming := incoming[1..];
        line := PopBufferedLine();
        if line != None {
          return Line(line.value);
        }
        if !block {
          return NoFrame;
        }
      }
    }

    /** The should_cancel closure of one request; cancelled is the flag it keeps. */
    method ShouldCancel(id: string, ready: bool, cancelled: bool) returns (cancelled': bool)
      modifies this
      ensures cancelled ==> cancelled' && Contents() == old(Contents())
      ensures !cancelled ==> (Contents(), cancelled') == Poll(old(Contents()), id, ready, isCancel)
    {
      if cancelled {
        return true;
      }
      var read := ReadCommandLine(false, ready);
      match read
      case NoFrame => return false;
      case Eof => return true;
      case Line(f) =>
        if isCancel(f, id) {
          taken := taken + [Taken(f, Some(id))];
          return true;
        }
        pendingLines := pendingLines + [f];
        taken := taken + [Taken(f, None)];
        return false;
    }

    /** The polls of a running request. */
    method RunRequest(id: string, ready: seq<bool>)
      modifies this
      ensures Contents() == Polls(old(Contents()), id, ready, isCancel)
    {
      ghost var start := Contents();
      var cancelled := false;
      for i := 0 to |ready|
        invariant if cancelled then Contents() == Polls(start, id, ready, isCancel)
                  else Polls(Contents(), id, ready[i..], isCancel) == Polls(start, id, ready, isCancel)
      {
        assert ready[i..][1..] == ready[i + 1..];
        cancelled := ShouldCancel(id, ready[i], cancelled);
      }
    }

    method NextFrame() returns (frame: Option<Bytes>)
      modifies this
      ensures (frame, Contents()) == Next(old(Contents()))
    {
      if pendingLines != [] {
        frame := Some(pendingLines[0]);
        pendingLines := pendingLines[1..];
        processed := processed + [frame.value];
        return;
      }
      var read := ReadCommandLine(true, true);
      if !read.Line? {
        return None;
      }
      processed := processed + [read.frame];
      taken := taken + [Taken(read.frame, None)];
      return Some(read.frame);
    }

    /** The command loop for at most limit frames; running tells whether it could go on. */
    method Serve(limit: nat, schedule: Schedule) returns (running: bool)
      modifies this
      ensures (Contents(), running) == Loop(old(Contents()), limit, schedule, isCancel)
    {
      running := true;
      ghost var start := Contents();
      var n := 0;
      while n < limit && running
        invariant n <= limit && (Contents(), running) == Loop(start, n, schedule, isCancel)
      {
        var frame := NextFrame();
        if frame == None {
          running := false;
        } else {
          var request := schedule(n, frame.value);
          if request != None {
            RunRequest(request.value.0, request.value.1);
          }
        }
        n := n + 1;
      }
      LoopStops(start, n, limit, schedule, isCancel);
    }
  }

  lemma {:induction false} LoopStops(s: State, n: nat, m: nat, schedule: Schedule, isCancel: CancelTest)
    requires n <= m && (n < m ==> !Loop(s, n, schedule, isCancel).1)
    ensures Loop(s, m, schedule, isCancel) == Loop(s, n, schedule, isCancel)
  {
    if n < m {
      LoopStops(s, n, m - 1, schedule, isCancel);
    }
  }
}

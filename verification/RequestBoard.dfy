/** The request bookkeeping both continuous-batching schedulers share: what is waiting, what is
    running, and what has been sent back, with the accounting law every step keeps. */
module RequestBoard {
  import opened Basics
  import opened PromptCache
  import opened Generation

  /** A submitted request.  ticket numbers submissions in order (request ids may repeat), since
      is how many responses had been heard when the job was admitted, and said collects the text
      sent for it so far; these three are records of the model, the other fields are the source's. */
  datatype Job = Job(ticket: nat, request: Request, prompt: seq<Token>, cached: Option<CachedPrompt>,
                     uid: Uid, since: nat, generated: seq<Token>, rendered: string, said: string)

  datatype Event =
    | Delta(ticket: nat, text: string)
    | Reply(ticket: nat, text: string, finish: string, promptTokens: nat, completionTokens: nat)
    | Error(ticket: nat)

  /** A job that was answered: with what text, for what reason, after how many responses, and
      whether on a cancel request. */
  datatype Done = Done(job: Job, text: string, finish: string, until: nat, cancelled: bool)

  function ReplyOf(d: Done): Event {
    Reply(d.job.ticket, d.text, d.finish, |d.job.prompt|, |d.job.generated|)
  }

  /** held is a batch taken off the queue that the generator was not given yet. */
  datatype Board = Board(pending: seq<Job>, held: seq<Job>, active: seq<Job>, log: seq<Event>, next: nat, done: seq<Done>)

  const EMPTY := Board([], [], [], [], 0, [])

  function TicketsOf(jobs: seq<Job>): (tickets: seq<nat>)
    ensures |tickets| == |jobs|
  {
    seq(|jobs|, i requires 0 <= i < |jobs| => jobs[i].ticket)
  }

  lemma TicketsOfWithout(jobs: seq<Job>, i: nat)
    requires i < |jobs|
    ensures TicketsOf(Without(jobs, i)) == Without(TicketsOf(jobs), i)
  {
  }

  // ------------------------------------------------------------ single steps

  function Refuse(b: Board): Board {
    b.(log := b.log + [Error(b.next)], next := b.next + 1)
  }

  function Enqueue(b: Board, job: Job): Board {
    b.(pending := b.pending + [job], next := b.next + 1)
  }

  function Withdraw(b: Board, i: nat, d: Done): Board
    requires i < |b.pending|
  {
    b.(pending := Without(b.pending, i), log := b.log + [ReplyOf(d)], done := b.done + [d])
  }

  function Fail(b: Board, i: nat): Board
    requires i < |b.pending|
  {
    b.(pending := Without(b.pending, i), log := b.log + [Error(b.pending[i].ticket)])
  }

  function Activate(b: Board, i: nat, job: Job): Board
    requires i < |b.pending|
  {
    b.(pending := Without(b.pending, i), active := b.active + [job])
  }

  /** A waiting job is prepared and put into the batch. */
  function Hold(b: Board, i: nat, job: Job): Board
    requires i < |b.pending|
  {
    b.(pending := Without(b.pending, i), held := b.held + [job])
  }

  /** The first job of the batch starts running. */
  function Start(b: Board, job: Job): Board
    requires b.held != []
  {
    b.(held := b.held[1..], active := b.active + [job])
  }

  /** A running job hears a response; text that is not empty is sent as a delta. */
  function Advance(b: Board, i: nat, job: Job, text: string): Board
    requires i < |b.active|
  {
    b.(active := b.active[i := job], log := b.log + if text == "" then [] else [Delta(job.ticket, text)])
  }

  function Close(b: Board, i: nat, d: Done): Board
    requires i < |b.active|
  {
    b.(active := Without(b.active, i), log := b.log + [ReplyOf(d)], done := b.done + [d])
  }

  // ------------------------------------------------------------ finding jobs

  function WithId(jobs: seq<Job>, id: string): (i: nat)
    ensures i <= |jobs| && (i < |jobs| ==> jobs[i].request.id == id)
    ensures forall j | 0 <= j < i :: jobs[j].request.id != id
  {
    if jobs == [] || jobs[0].request.id == id then 0 else 1 + WithId(jobs[1..], id)
  }

  function WithUid(jobs: seq<Job>, uid: Uid): (i: nat)
    ensures i <= |jobs| && (i < |jobs| ==> jobs[i].uid == uid)
    ensures forall j | 0 <= j < i :: jobs[j].uid != uid
  {
    if jobs == [] || jobs[0].uid == uid then 0 else 1 + WithUid(jobs[1..], uid)
  }

  /** The answer to a cancelled job. */
  function Cancelled(job: Job, until: nat): Done {
    Done(job, job.rendered, "cancelled", until, true)
  }

  ghost predicate RightlyCancelled(d: Done) {
    d.cancelled ==> d.finish == "cancelled" && d.text == d.job.rendered
  }

  /** The table of running jobs by uid, in order of insertion, after an assignment. */
  function Put(active: seq<Job>, job: Job): seq<Job> {
    var k := WithUid(active, job.uid);
    if k < |active| then active[k := job] else active + [job]
  }

  /** After an assignment the uid has exactly the new job: in the place of the one it had before, or
      at the end. */
  lemma PutAssigns(active: seq<Job>, job: Job)
    requires UidsApart(active)
    ensures var r := Put(active, job);
            && job in r && UidsApart(r) && |active| <= |r| <= |active| + 1
            && (|r| == |active| + 1 <==> forall i | 0 <= i < |active| :: active[i].uid != job.uid)
            && forall i | 0 <= i < |active| :: r[i] == if active[i].uid == job.uid then job else active[i]
  {
    var k, r := WithUid(active, job.uid), Put(active, job);
    assert r[if k < |active| then k else |active|] == job;
  }

  lemma PutAppends(active: seq<Job>, job: Job)
    requires forall i | 0 <= i < |active| :: active[i].uid != job.uid
    ensures Put(active, job) == active + [job]
  {
  }

  ghost predicate UidsApart(active: seq<Job>) {
    forall i, j | 0 <= i < j < |active| :: active[i].uid != active[j].uid
  }

  lemma RemovalKeepsUidsApart(active: seq<Job>, k: nat)
    requires k < |active| && UidsApart(active)
    ensures UidsApart(Without(active, k))
  {
    forall i, j | 0 <= i < j < |active| - 1 ensures Without(active, k)[i].uid != Without(active, k)[j].uid {
      WithoutBefore(active, k, i);
      WithoutBefore(active, k, j);
    }
  }

  method FindId(jobs: seq<Job>, id: string) returns (i: nat)
    ensures i == WithId(jobs, id)
  {
    i := 0;
    while i < |jobs|
      invariant i <= |jobs| && WithId(jobs, id) == i + WithId(jobs[i..], id)
    {
      if jobs[i].request.id == id {
        return;
      }
      assert jobs[i..][1..] == jobs[i + 1..];
      i := i + 1;
    }
  }

  method FindUid(active: seq<Job>, uid: Uid) returns (k: nat)
    ensures k == WithUid(active, uid)
  {
    k := 0;
    while k < |active|
      invariant k <= |active| && WithUid(active, uid) == k + WithUid(active[k..], uid)
    {
      if active[k].uid == uid {
        return;
      }
      assert active[k..][1..] == active[k + 1..];
      k := k + 1;
    }
  }

  method PutJob(active: seq<Job>, job: Job) returns (r: seq<Job>)
    ensures r == Put(active, job)
  {
    var k := FindUid(active, job.uid);
    return if k < |active| then active[k := job] else active + [job];
  }

  // ------------------------------------------------------- the accounting law

  /** How many of the jobs carry a ticket. */
  function Holding(jobs: seq<Job>, t: nat): nat {
    if jobs == [] then 0 else Holding(jobs[1..], t) + (if jobs[0].ticket == t then 1 else 0)
  }

  /** How many terminal events the log has for a ticket. */
  function Answers(log: seq<Event>, t: nat): nat {
    if log == [] then 0
    else
      var e := log[|log| - 1];
      Answers(log[..|log| - 1], t) + (if !e.Delta? && e.ticket == t then 1 else 0)
  }

  /** The text sent for a ticket, all deltas put together. */
  function Said(log: seq<Event>, ticket: nat): string {
    if log == [] then ""
    else
      var e := log[|log| - 1];
      Said(log[..|log| - 1], ticket) + (if e.Delta? && e.ticket == ticket then e.text else "")
  }

  /** Every submission is waiting, held, running or answered: in one place, exactly once. */
  ghost predicate Balanced(b: Board) {
    forall t: nat :: Holding(b.pending, t) + Holding(b.held, t) + Holding(b.active, t) + Answers(b.log, t)
                     == if t < b.next then 1 else 0
  }

  /** With no batch between queue and generator: every submission is waiting, running or answered,
      exactly once. */
  ghost predicate InOnePlace(b: Board) {
    forall t: nat | t < b.next :: Holding(b.pending, t) + Holding(b.active, t) + Answers(b.log, t) == 1
  }

  ghost predicate AllAnswered(b: Board) {
    forall t: nat | t < b.next :: Answers(b.log, t) == 1
  }

  lemma NobodyIsHeld(b: Board)
    requires Balanced(b) && b.held == []
    ensures InOnePlace(b)
    ensures b.pending == [] && b.active == [] ==> AllAnswered(b)
  {
    forall t: nat | t < b.next ensures Holding(b.pending, t) + Holding(b.active, t) + Answers(b.log, t) == 1 {
      assert Holding(b.held, t) == 0;
    }
  }

  /** Nothing is sent for a ticket once it was answered. */
  ghost predicate Quiet(log: seq<Event>) {
    forall i, j | 0 <= i < j < |log| && !log[i].Delta? :: log[j].ticket != log[i].ticket
  }

  /** The event that answers a job carries its text, its reason and the lengths of its prompt and
      of its generated tokens; a cancelled one carries the text shown so far. */
  ghost predicate Answered(log: seq<Event>, d: Done) {
    && Reply(d.job.ticket, d.text, d.finish, |d.job.prompt|, |d.job.generated|) in log
    && RightlyCancelled(d)
  }

  /** What the jobs record as said is what the log says, answered jobs were answered as recorded,
      and nothing else was answered. */
  ghost predicate Recorded(b: Board) {
    && (forall j <- b.pending :: Said(b.log, j.ticket) == j.said)
    && (forall j <- b.held :: Said(b.log, j.ticket) == j.said)
    && (forall j <- b.active :: Said(b.log, j.ticket) == j.said)
    && (forall d <- b.done :: Said(b.log, d.job.ticket) == d.job.said && Answered(b.log, d))
    && (forall e <- b.log :: e.ticket < b.next)
    && (forall e <- b.log :: e.Reply? ==>
          exists d <- b.done :: e == Reply(d.job.ticket, d.text, d.finish, |d.job.prompt|, |d.job.generated|))
  }

  ghost predicate Accounted(b: Board) {
    Balanced(b) && Quiet(b.log) && Recorded(b)
  }

  lemma {:induction false} HoldingAppend(a: seq<Job>, b: seq<Job>, t: nat)
    ensures Holding(a + b, t) == Holding(a, t) + Holding(b, t)
  {
    if a == [] {
      assert a + b == b;
    } else {
      HoldingAppend(a[1..], b, t);
      assert (a + b)[1..] == a[1..] + b;
    }
  }

  lemma HoldingSnoc(s: seq<Job>, j: Job)
    ensures forall t: nat :: Holding(s + [j], t) == Holding(s, t) + (if j.ticket == t then 1 else 0)
  {
    forall t: nat ensures Holding(s + [j], t) == Holding(s, t) + (if j.ticket == t then 1 else 0) {
      HoldingAppend(s, [j], t);
    }
  }

  lemma HoldingWithout(s: seq<Job>, i: nat)
    requires i < |s|
    ensures forall t: nat :: Holding(s, t) == Holding(Without(s, i), t) + (if s[i].ticket == t then 1 else 0)
  {
    assert s == s[..i] + s[i..];
    forall t: nat ensures Holding(s, t) == Holding(Without(s, i), t) + (if s[i].ticket == t then 1 else 0) {
      HoldingAppend(s[..i], s[i..], t);
      HoldingAppend(s[..i], s[i + 1..], t);
    }
  }

  lemma {:induction false} HoldingReplace(s: seq<Job>, i: nat, j: Job, t: nat)
    requires i < |s| && j.ticket == s[i].ticket
    ensures Holding(s[i := j], t) == Holding(s, t)
  {
    if i == 0 {
      assert s[0 := j][1..] == s[1..];
    } else {
      assert s[i := j][1..] == s[1..][i - 1 := j];
      HoldingReplace(s[1..], i - 1, j, t);
    }
  }

  lemma {:induction false} HoldingAt(s: seq<Job>, i: nat)
    requires i < |s|
    ensures Holding(s, s[i].ticket) >= 1
  {
    if i > 0 {
      HoldingAt(s[1..], i - 1);
    }
  }

  lemma HoldingTwo(s: seq<Job>, i: nat, j: nat)
    requires i < j < |s| && s[i].ticket == s[j].ticket
    ensures Holding(s, s[i].ticket) >= 2
  {
    HoldingWithout(s, j);
    HoldingAt(Without(s, j), i);
  }

  lemma {:induction false} AnswersAt(log: seq<Event>, i: nat)
    requires i < |log| && !log[i].Delta?
    ensures Answers(log, log[i].ticket) >= 1
  {
    if i < |log| - 1 {
      AnswersAt(log[..|log| - 1], i);
    }
  }

  /** The waiting and the running jobs have tickets of their own, issued and not answered. */
  lemma LiveTicketsAreFresh(b: Board)
    requires Balanced(b)
    ensures forall i, j | 0 <= i < j < |b.pending| :: b.pending[i].ticket != b.pending[j].ticket
    ensures forall i, j | 0 <= i < j < |b.active| :: b.active[i].ticket != b.active[j].ticket
    ensures forall j <- b.pending, k <- b.active :: j.ticket != k.ticket
    ensures forall j <- b.pending :: Unanswered(b, j.ticket)
    ensures forall j <- b.held :: Unanswered(b, j.ticket) && forall k <- b.pending + b.active :: k.ticket != j.ticket
    ensures forall j <- b.active :: Unanswered(b, j.ticket)
  {
    forall i, j | 0 <= i < j < |b.pending| ensures b.pending[i].ticket != b.pending[j].ticket {
      if b.pending[i].ticket == b.pending[j].ticket {
        HoldingTwo(b.pending, i, j);
      }
    }
    forall i, j | 0 <= i < j < |b.active| ensures b.active[i].ticket != b.active[j].ticket {
      if b.active[i].ticket == b.active[j].ticket {
        HoldingTwo(b.active, i, j);
      }
    }
    forall i | 0 <= i < |b.pending|
      ensures Unanswered(b, b.pending[i].ticket)
      ensures forall k <- b.active :: k.ticket != b.pending[i].ticket
    {
      HoldingAt(b.pending, i);
      NotAnsweredYet(b, b.pending[i].ticket);
      forall k | 0 <= k < |b.active| ensures b.active[k].ticket != b.pending[i].ticket {
        HoldingAt(b.active, k);
      }
    }
    forall i | 0 <= i < |b.held|
      ensures Unanswered(b, b.held[i].ticket)
      ensures forall k <- b.pending + b.active :: k.ticket != b.held[i].ticket
    {
      HoldingAt(b.held, i);
      NotAnsweredYet(b, b.held[i].ticket);
      forall k | 0 <= k < |b.pending| ensures b.pending[k].ticket != b.held[i].ticket {
        HoldingAt(b.pending, k);
      }
      forall k | 0 <= k < |b.active| ensures b.active[k].ticket != b.held[i].ticket {
        HoldingAt(b.active, k);
      }
    }
    forall i | 0 <= i < |b.active| ensures Unanswered(b, b.active[i].ticket) {
      HoldingAt(b.active, i);
      NotAnsweredYet(b, b.active[i].ticket);
    }
  }

  ghost predicate Unanswered(b: Board, t: nat) {
    t < b.next && forall e <- b.log :: !e.Delta? ==> e.ticket != t
  }

  lemma NotAnsweredYet(b: Board, t: nat)
    requires Balanced(b) && Holding(b.pending, t) + Holding(b.held, t) + Holding(b.active, t) >= 1
    ensures Unanswered(b, t)
  {
    forall n | 0 <= n < |b.log| && !b.log[n].Delta? ensures b.log[n].ticket != t {
      AnswersAt(b.log, n);
    }
  }

  // ------------------------------------------- what submitting and cancelling do

  /** A refused submission gets one error and nothing else happens. */
  ghost predicate OneError(b: Board, b': Board) {
    b' == b.(log := b.log + [Error(b.next)], next := b.next + 1)
  }

  /** A submission joins the end of the queue under the next ticket, with nothing generated. */
  ghost predicate Queued(b: Board, b': Board, r: Request) {
    && |b'.pending| == |b.pending| + 1
    && var job := b'.pending[|b.pending|];
       && job.request == r && job.ticket == b.next
       && job.generated == [] && job.rendered == "" && job.said == ""
       && b' == b.(pending := b.pending + [job], next := b.next + 1)
  }

  /** The first job of a list that has the id is taken out of it. */
  ghost predicate TakesFirst(before: seq<Job>, after: seq<Job>, id: string, i: nat) {
    && i < |before| && before[i].request.id == id && (forall j | 0 <= j < i :: before[j].request.id != id)
    && after == before[..i] + before[i + 1..]
  }

  /** A job gets one final event: cancelled, with the text it was shown and its token counts. */
  ghost predicate CancelledOnce(b: Board, b': Board, job: Job) {
    && b'.log == b.log + [Reply(job.ticket, job.rendered, "cancelled", |job.prompt|, |job.generated|)]
    && |b'.done| == |b.done| + 1 && b'.done[..|b.done|] == b.done
    && b'.done[|b.done|].job == job && b'.done[|b.done|].cancelled
    && b'.held == b.held && b'.next == b.next
  }

  ghost predicate SomebodyHas(jobs: seq<Job>, id: string) {
    exists i :: 0 <= i < |jobs| && jobs[i].request.id == id
  }

  /** Cancelling an id answers the first waiting request that has it, or else the first running
      one, and that request only; without such a request nothing happens. */
  ghost predicate Cancels(b: Board, b': Board, id: string) {
    if SomebodyHas(b.pending, id) then
      b'.active == b.active && exists i: nat :: TakesFirst(b.pending, b'.pending, id, i) && CancelledOnce(b, b', b.pending[i])
    else if SomebodyHas(b.active, id) then
      b'.pending == b.pending && exists i: nat :: TakesFirst(b.active, b'.active, id, i) && CancelledOnce(b, b', b.active[i])
    else b' == b
  }

  lemma FirstIsTaken(jobs: seq<Job>, id: string)
    ensures SomebodyHas(jobs, id) <==> WithId(jobs, id) < |jobs|
    ensures SomebodyHas(jobs, id) ==> TakesFirst(jobs, Without(jobs, WithId(jobs, id)), id, WithId(jobs, id))
  {
  }

  // ------------------------------------------------- every step keeps the law

  lemma RefuseAccounted(b: Board)
    requires Accounted(b)
    ensures Accounted(Refuse(b))
  {
    var r := Refuse(b);
    LiveTicketsAreFresh(b);
  }

  lemma EnqueueAccounted(b: Board, job: Job)
    requires Accounted(b) && job.ticket == b.next && job.said == ""
    ensures Accounted(Enqueue(b, job))
  {
    NothingSaid(b.log, b.next);
    HoldingSnoc(b.pending, job);
  }

  lemma {:induction false} NothingSaid(log: seq<Event>, t: nat)
    requires forall e <- log :: e.ticket != t
    ensures Said(log, t) == ""
  {
    if log != [] {
      NothingSaid(log[..|log| - 1], t);
    }
  }

  lemma ActivateAccounted(b: Board, i: nat, job: Job)
    requires Accounted(b) && i < |b.pending| && job.ticket == b.pending[i].ticket && job.said == b.pending[i].said
    ensures Accounted(Activate(b, i, job))
  {
    HoldingWithout(b.pending, i);
    HoldingSnoc(b.active, job);
  }

  lemma HoldAccounted(b: Board, i: nat, job: Job)
    requires Accounted(b) && i < |b.pending| && job.ticket == b.pending[i].ticket && job.said == b.pending[i].said
    ensures Accounted(Hold(b, i, job))
  {
    HoldingWithout(b.pending, i);
    HoldingSnoc(b.held, job);
  }

  lemma StartAccounted(b: Board, job: Job)
    requires Accounted(b) && b.held != [] && job.ticket == b.held[0].ticket && job.said == b.held[0].said
    ensures Accounted(Start(b, job))
  {
    HoldingWithout(b.held, 0);
    assert Without(b.held, 0) == b.held[1..];
    HoldingSnoc(b.active, job);
  }

  /** Answering a job changes what is recorded only by that answer. */
  lemma AnsweringKeepsRecords(b: Board, b': Board, d: Done)
    requires Recorded(b) && RightlyCancelled(d) && d.job.ticket < b.next && Said(b.log, d.job.ticket) == d.job.said
    requires b'.log == b.log + [ReplyOf(d)] && b'.done == b.done + [d] && b'.next == b.next && b'.held == b.held
    requires (forall j <- b'.pending :: j in b.pending) && (forall j <- b'.active :: j in b.active)
    ensures Recorded(b')
  {
    assert b'.log[..|b.log|] == b.log;
    assert forall t: nat :: Said(b'.log, t) == Said(b.log, t);
    forall x <- b'.done ensures Said(b'.log, x.job.ticket) == x.job.said && Answered(b'.log, x) {
      if x != d {
        assert x in b.done;
      }
    }
    forall e <- b'.log | e.Reply? ensures exists x <- b'.done :: e == ReplyOf(x) {
      if e in b.log {
        var x :| x in b.done && e == ReplyOf(x);
        assert x in b'.done;
      } else {
        assert d in b'.done;
      }
    }
  }

  lemma AnsweringStaysQuiet(b: Board, d: Done)
    requires Quiet(b.log) && Unanswered(b, d.job.ticket)
    ensures Quiet(b.log + [ReplyOf(d)])
  {
  }

  lemma OthersRemain(jobs: seq<Job>, i: nat)
    requires i < |jobs|
    ensures forall j <- Without(jobs, i) :: j in jobs
  {
  }

  lemma WithdrawAccounted(b: Board, i: nat, d: Done)
    requires Accounted(b) && i < |b.pending| && d.job == b.pending[i] && RightlyCancelled(d)
    ensures Accounted(Withdraw(b, i, d))
  {
    hide Quiet, Recorded, Without, Said, RightlyCancelled;
    LiveTicketsAreFresh(b);
    HoldingWithout(b.pending, i);
    OthersRemain(b.pending, i);
    AnsweringStaysQuiet(b, d);
    hide Unanswered;
    PendingRecorded(b, i);
    AnsweringKeepsRecords(b, Withdraw(b, i, d), d);
  }

  lemma PendingRecorded(b: Board, i: nat)
    requires Accounted(b) && i < |b.pending|
    ensures b.pending[i].ticket < b.next && Said(b.log, b.pending[i].ticket) == b.pending[i].said
  {
    HoldingAt(b.pending, i);
  }

  lemma ActiveRecorded(b: Board, i: nat)
    requires Accounted(b) && i < |b.active|
    ensures b.active[i].ticket < b.next && Said(b.log, b.active[i].ticket) == b.active[i].said
  {
    HoldingAt(b.active, i);
  }

  /** An answered job has exactly one answer. */
  lemma AnsweredExactlyOnce(b: Board, d: Done)
    requires Accounted(b) && d in b.done
    ensures Answers(b.log, d.job.ticket) == 1
  {
    hide Quiet, Said;
    var e := ReplyOf(d);
    assert Answered(b.log, d);
    var i :| 0 <= i < |b.log| && b.log[i] == e;
    AnswersAt(b.log, i);
  }

  lemma FailAccounted(b: Board, i: nat)
    requires Accounted(b) && i < |b.pending|
    ensures Accounted(Fail(b, i))
  {
    LiveTicketsAreFresh(b);
    HoldingWithout(b.pending, i);
  }

  /** A delta changes what was said to its own ticket, and nothing else that is recorded. */
  lemma DeltaKeepsRecords(b: Board, i: nat, job: Job, text: string)
    requires Accounted(b) && i < |b.active| && job.ticket == b.active[i].ticket && job.said == b.active[i].said + text
    requires text != ""
    ensures Recorded(Advance(b, i, job, text))
  {
    var r := Advance(b, i, job, text);
    LiveTicketsAreFresh(b);
    hide Balanced, Quiet, Holding, Answers;
    assert r.log[..|b.log|] == b.log;
    assert forall t: nat :: Said(r.log, t) == Said(b.log, t) + (if t == job.ticket then text else "");
    forall d <- b.done ensures d.job.ticket != job.ticket && Answered(r.log, d) {
      assert Answered(b.log, d);
    }
  }

  lemma AdvanceAccounted(b: Board, i: nat, job: Job, text: string)
    requires Accounted(b) && i < |b.active| && job.ticket == b.active[i].ticket && job.said == b.active[i].said + text
    ensures Accounted(Advance(b, i, job, text))
  {
    hide Recorded;
    forall t: nat ensures Holding(b.active[i := job], t) == Holding(b.active, t) {
      HoldingReplace(b.active, i, job, t);
    }
    if text == "" {
      assert b.log + [] == b.log;
      SilenceKeepsRecords(b, i, job);
    } else {
      LiveTicketsAreFresh(b);
      DeltaKeepsRecords(b, i, job, text);
    }
  }

  lemma SilenceKeepsRecords(b: Board, i: nat, job: Job)
    requires Recorded(b) && i < |b.active| && job.ticket == b.active[i].ticket && job.said == b.active[i].said
    ensures Recorded(b.(active := b.active[i := job]))
  {
  }

  lemma CloseAccounted(b: Board, i: nat, d: Done)
    requires Accounted(b) && i < |b.active| && d.job.ticket == b.active[i].ticket && d.job.said == b.active[i].said
    requires RightlyCancelled(d)
    ensures Accounted(Close(b, i, d))
  {
    hide Quiet, Recorded, Without, Said, RightlyCancelled;
    LiveTicketsAreFresh(b);
    HoldingWithout(b.active, i);
    OthersRemain(b.active, i);
    AnsweringStaysQuiet(b, d);
    hide Unanswered;
    ActiveRecorded(b, i);
    AnsweringKeepsRecords(b, Close(b, i, d), d);
  }
}

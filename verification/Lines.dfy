/** Cutting a byte stream into newline-terminated lines. */
module Lines {
  import opened Basics

  type Byte = b: int | 0 <= b < 256

  type Bytes = seq<Byte>

  const LF: Byte := 10
  const CR: Byte := 13

  /** A text that stays on its line. */
  predicate OneLine(s: Bytes) {
    forall i | 0 <= i < |s| :: s[i] != LF
  }

  /** Position of the first newline, or the length if there is none. */
  function FindNewline(s: Bytes): (i: nat)
    ensures i <= |s| && (i < |s| ==> s[i] == LF)
    ensures forall j | 0 <= j < i :: s[j] != LF
  {
    if s == [] || s[0] == LF then 0 else 1 + FindNewline(s[1..])
  }

  /** The complete lines of a byte string, newlines included. */
  function Frames(s: Bytes): seq<Bytes>
    decreases |s|
  {
    var i := FindNewline(s);
    if i == |s| then [] else [s[..i + 1]] + Frames(s[i + 1..])
  }

  /** What follows the last newline. */
  function Rest(s: Bytes): Bytes
    decreases |s|
  {
    var i := FindNewline(s);
    if i == |s| then s else Rest(s[i + 1..])
  }

  lemma FindNewlineIs(s: Bytes, i: nat)
    requires i < |s| && s[i] == LF && forall j | 0 <= j < i :: s[j] != LF
    ensures FindNewline(s) == i
  {
  }

  lemma NoNewline(s: Bytes)
    requires forall b <- s :: b != LF
    ensures Frames(s) == [] && Rest(s) == s
  {
    forall j | 0 <= j < |s| ensures s[j] != LF {
      assert s[j] in s;
    }
  }

  lemma {:induction false} FirstLine(s: Bytes)
    requires FindNewline(s) < |s|
    ensures var i := FindNewline(s); Frames(s) == [s[..i + 1]] + Frames(s[i + 1..]) && Rest(s) == Rest(s[i + 1..])
  {}

  lemma {:induction false} NoLine(s: Bytes)
    requires FindNewline(s) == |s|
    ensures Frames(s) == [] && Rest(s) == s
  {}

  lemma FirstLineStays(a: Bytes, b: Bytes)
    requires FindNewline(a) < |a|
    ensures var i := FindNewline(a); FindNewline(a + b) == i && (a + b)[..i + 1] == a[..i + 1] && (a + b)[i + 1..] == a[i + 1..] + b
  {
    FindNewlineIs(a + b, FindNewline(a));
  }

  /** Bytes that arrive later do not change the lines that were complete before. */
  lemma {:induction false} FramesAppend(a: Bytes, b: Bytes)
    ensures Frames(a + b) == Frames(a) + Frames(Rest(a) + b)
    ensures Rest(a + b) == Rest(Rest(a) + b)
    decreases |a|
  {
    hide Frames, Rest, FindNewline;
    var i := FindNewline(a);
    if i < |a| {
      FirstLineStays(a, b);
      FirstLine(a);
      FirstLine(a + b);
      FramesAppend(a[i + 1..], b);
    } else {
      NoLine(a);
    }
  }

  lemma {:induction false} RestHasNoNewline(s: Bytes)
    ensures forall b <- Rest(s) :: b != LF
    ensures Frames(Rest(s)) == []
    decreases |s|
  {
    var i := FindNewline(s);
    if i < |s| {
      RestHasNoNewline(s[i + 1..]);
    }
  }

  /** A line: one newline, at its end. */
  ghost predicate IsFrame(f: Bytes) {
    f != [] && FindNewline(f) == |f| - 1
  }

  lemma FrameFirst(f: Bytes, more: Bytes)
    requires IsFrame(f)
    ensures Frames(f + more) == [f] + Frames(more) && Rest(f + more) == Rest(more)
  {
    FindNewlineIs(f + more, |f| - 1);
    assert (f + more)[..|f|] == f && (f + more)[|f|..] == more;
  }

  lemma ConcatCons<T>(x: seq<T>, xs: seq<seq<T>>)
    ensures Concat([x] + xs) == x + Concat(xs)
  {
    assert ([x] + xs)[1..] == xs;
  }

  lemma {:induction false} FramesAreFrames(s: Bytes)
    ensures forall f <- Frames(s) :: IsFrame(f)
    decreases |s|
  {
    var i := FindNewline(s);
    if i < |s| {
      FindNewlineIs(s[..i + 1], i);
      assert IsFrame(s[..i + 1]);
      hide IsFrame;
      FramesAreFrames(s[i + 1..]);
    }
  }

  /** The cut loses nothing: the lines and the rest put together are the input. */
  lemma {:induction false} FramesRejoin(s: Bytes)
    ensures Concat(Frames(s)) + Rest(s) == s
    decreases |s|
  {
    var i := FindNewline(s);
    if i < |s| {
      var f, more := s[..i + 1], s[i + 1..];
      assert f + more == s;
      assert Frames(s) == [f] + Frames(more) && Rest(s) == Rest(more);
      hide *;
      FramesRejoin(more);
      ConcatCons(f, Frames(more));
      assert (f + Concat(Frames(more))) + Rest(more) == f + (Concat(Frames(more)) + Rest(more));
    }
  }

  /** And it is the only such cut: lines written one after the other are read back as they were. */
  lemma {:induction false} FramesOfConcat(fs: seq<Bytes>, tail: Bytes)
    requires forall f <- fs :: IsFrame(f)
    requires forall b <- tail :: b != LF
    ensures Frames(Concat(fs) + tail) == fs && Rest(Concat(fs) + tail) == tail
    decreases |fs|
  {
    if fs == [] {
      assert Concat(fs) + tail == tail;
      NoNewline(tail);
    } else {
      assert Concat(fs) + tail == fs[0] + (Concat(fs[1..]) + tail);
      hide Frames, Rest, Concat;
      FramesOfConcat(fs[1..], tail);
      FrameFirst(fs[0], Concat(fs[1..]) + tail);
      assert fs == [fs[0]] + fs[1..];
    }
  }
}

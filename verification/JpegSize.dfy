/** The scan for the size of a JPEG image (benchmarks/vlm_fixtures.py), with markers and segments
    as in sections B.1.1.2 and B.2.2 of ITU-T T.81. */
module JpegSize {
  import opened Basics
  import opened Lines

  const FILL: Byte := 0xFF
  const START_OF_IMAGE: Byte := 0xD8
  const END_OF_IMAGE: Byte := 0xD9

  datatype Size = Size(width: nat, height: nat)

  predicate IsStartOfFrame(marker: Byte) {
    0xC0 <= marker <= 0xCF && marker !in {0xC4, 0xC8, 0xCC}
  }

  function TwoBytes(high: Byte, low: Byte): nat {
    high * 256 + low
  }

  function SkipFill(s: Bytes): (t: Bytes)
    ensures |t| <= |s|
  {
    if s != [] && s[0] == FILL then SkipFill(s[1..]) else s
  }

  /** Seeking may leave the end of the file behind. */
  function Skip(s: Bytes, n: nat): (t: Bytes)
    ensures |t| <= |s|
  {
    if n <= |s| then s[n..] else []
  }

  /** The size found from here on. */
  function Scan(s: Bytes): Option<Size>
    decreases |s|
  {
    if s == [] then None
    else if s[0] != FILL then Scan(s[1..])
    else
      var t := SkipFill(s[1..]);
      if t == [] then None
      else if t[0] in {START_OF_IMAGE, END_OF_IMAGE} then Scan(t[1..])
      else if |t| < 3 || TwoBytes(t[1], t[2]) < 2 then None
      else if IsStartOfFrame(t[0]) then
        if |t| < 8 then None else Some(Size(TwoBytes(t[6], t[7]), TwoBytes(t[4], t[5])))
      else Scan(Skip(t[3..], TwoBytes(t[1], t[2]) - 2))
  }

  function SizeOf(bytes: Bytes): Option<Size> {
    if |bytes| < 2 || bytes[..2] != [FILL, START_OF_IMAGE] then None else Scan(bytes[2..])
  }

  // ------------------------------------------------------- the scan as it runs

  /** A file open for reading. */
  class Cursor {
    const data: Bytes
    var position: nat

    constructor (data: Bytes)
      ensures this.data == data && position == 0
    {
      this.data := data;
      position := 0;
    }

    /** What is still to be read. */
    ghost function Ahead(): Bytes
      reads this
    {
      Skip(data, position)
    }

    method Read(n: nat) returns (bytes: Bytes)
      modifies this
      ensures bytes == old(Ahead())[..Min(n, |old(Ahead())|)] && Ahead() == old(Ahead())[|bytes|..]
    {
      var start := Min(position, |data|);
      var end := Min(position + n, |data|);
      bytes := data[start..end];
      position := position + |bytes|;
    }

    method Seek(n: nat)
      modifies this
      ensures Ahead() == Skip(old(Ahead()), n)
    {
      position := position + n;
    }
  }

  /** The byte after any number of fill bytes; empty at the end of the file. */
  method ReadMarker(file: Cursor) returns (marker: Bytes)
    modifies file
    ensures var t := SkipFill(old(file.Ahead()));
            if t == [] then marker == [] else marker == [t[0]] && file.Ahead() == t[1..]
  {
    marker := file.Read(1);
    while marker == [FILL]
      invariant |marker| <= 1 && (marker == [] ==> file.Ahead() == [])
      invariant SkipFill(marker + file.Ahead()) == SkipFill(old(file.Ahead()))
      decreases |marker + file.Ahead()|
    {
      assert (marker + file.Ahead())[1..] == file.Ahead();
      ghost var ahead := file.Ahead();
      marker := file.Read(1);
      assert marker + file.Ahead() == ahead;
    }
    assert marker != [] ==> (marker + file.Ahead())[1..] == file.Ahead();
  }

  /** Reads the segment behind a marker: the size if it is a frame header, otherwise whether the
      scan goes on. */
  method ReadSegment(file: Cursor, marker: Byte) returns (size: Option<Size>, more: bool)
    requires marker !in {FILL, START_OF_IMAGE, END_OF_IMAGE}
    modifies file
    ensures Scan([FILL, marker] + old(file.Ahead())) == if more then Scan(file.Ahead()) else size
    ensures more ==> |file.Ahead()| <= |old(file.Ahead())|
  {
    hide Skip;
    ghost var s := [FILL, marker] + file.Ahead();
    ghost var t := [marker] + file.Ahead();
    assert s[1..] == t && SkipFill(t) == t;
    hide SkipFill;
    var length := file.Read(2);
    if |length| != 2 {
      return None, false;
    }
    assert t[1] == length[0] && t[2] == length[1] && t[3..] == file.Ahead();
    if TwoBytes(length[0], length[1]) < 2 {
      return None, false;
    }
    if IsStartOfFrame(marker) {
      var data := file.Read(5);
      if |data| != 5 {
        return None, false;
      }
      assert t[4] == data[1] && t[5] == data[2] && t[6] == data[3] && t[7] == data[4];
      return Some(Size(TwoBytes(data[3], data[4]), TwoBytes(data[1], data[2]))), false;
    }
    file.Seek(TwoBytes(length[0], length[1]) - 2);
    return None, true;
  }

  lemma ScanAtMarker(s: Bytes)
    requires s != [] && s[0] == FILL
    ensures var t := SkipFill(s[1..]);
            && (t == [] ==> Scan(s) == None)
            && (t != [] ==> |t| < |s| && t[0] != FILL)
            && (t != [] ==> Scan(s) == if t[0] in {START_OF_IMAGE, END_OF_IMAGE} then Scan(t[1..]) else Scan([FILL, t[0]] + t[1..]))
  {
    var t := SkipFill(s[1..]);
    NoFillLeft(s[1..]);
    if t != [] {
      var u := [FILL, t[0]] + t[1..];
      assert u[1..] == t && SkipFill(t) == t;
    }
  }

  lemma {:induction false} NoFillLeft(s: Bytes)
    ensures SkipFill(s) != [] ==> SkipFill(s)[0] != FILL
  {
    if s != [] {
      NoFillLeft(s[1..]);
    }
  }

  lemma ScanSteps(s: Bytes)
    ensures s == [] ==> Scan(s) == None
    ensures s != [] && s[0] != FILL ==> Scan(s) == Scan(s[1..])
  {}

  /** Reads markers until a frame header gives the size, skipping whole segments. */
  method ReadJpegSize(file: Cursor) returns (size: Option<Size>)
    requires file.position == 0
    modifies file
    ensures size == SizeOf(file.data)
  {
    hide Scan, SkipFill;
    var signature := file.Read(2);
    if signature != [FILL, START_OF_IMAGE] {
      return None;
    }
    assert file.data[..2] == signature;
    while true
      invariant SizeOf(file.data) == Scan(file.Ahead())
      decreases |file.Ahead()|
    {
      ghost var s := file.Ahead();
      ScanSteps(s);
      var prefix := file.Read(1);
      if prefix == [] {
        return None;
      }
      assert s[0] == prefix[0];
      if prefix != [FILL] {
        continue;
      }
      ScanAtMarker(s);
      var marker := ReadMarker(file);
      if marker == [] {
        return None;
      }
      if marker[0] in {START_OF_IMAGE, END_OF_IMAGE} {
        continue;
      }
      var found, more := ReadSegment(file, marker[0]);
      if !more {
        return found;
      }
    }
  }

  // ---------------------------------------------------- images that are written

  /** The markers of frame headers. */
  const FRAME_MARKERS: set<Byte> := {0xC0, 0xC1, 0xC2, 0xC3, 0xC5, 0xC6, 0xC7, 0xC9, 0xCA, 0xCB, 0xCD, 0xCE, 0xCF}

  /** What may stand before a frame header, after stray bytes and any number of fill bytes: a
      segment with a payload of arbitrary bytes, or a start or end of image. */
  datatype Segment =
    | Segment(stray: Bytes, fill: nat, marker: Byte, payload: Bytes)
    | Standalone(stray: Bytes, fill: nat, marker: Byte)

  predicate IsSegment(g: Segment) {
    && 0xFF !in g.stray
    && match g
       case Segment(_, _, marker, payload) => marker !in {0xFF, 0xD8, 0xD9} && marker !in FRAME_MARKERS && |payload| <= 0xFFFF - 2
       case Standalone(_, _, marker) => marker in {0xD8, 0xD9}
  }

  datatype Frame = Frame(stray: Bytes, fill: nat, marker: Byte, length: nat, precision: Byte, size: Size)

  predicate IsFrameHeader(f: Frame) {
    && 0xFF !in f.stray && f.marker in FRAME_MARKERS
    && 2 <= f.length <= 0xFFFF && f.size.width <= 0xFFFF && f.size.height <= 0xFFFF
  }

  function Fills(n: nat): Bytes {
    if n == 0 then [] else [0xFF] + Fills(n - 1)
  }

  function Number(n: nat): Bytes
    requires n <= 0xFFFF
  {
    [n / 256, n % 256]
  }

  function Marker(stray: Bytes, fill: nat, marker: Byte): Bytes {
    stray + ([0xFF] + (Fills(fill) + [marker]))
  }

  function EncodeSegment(g: Segment): Bytes
    requires IsSegment(g)
  {
    match g
    case Segment(stray, fill, marker, payload) => Marker(stray, fill, marker) + Number(|payload| + 2) + payload
    case Standalone(stray, fill, marker) => Marker(stray, fill, marker)
  }

  function EncodeFrame(f: Frame): Bytes
    requires IsFrameHeader(f)
  {
    Marker(f.stray, f.fill, f.marker) + Number(f.length) + [f.precision] + Number(f.size.height) + Number(f.size.width)
  }

  /** Segments and then a frame header, before whatever follows. */
  function Encode(segments: seq<Segment>, f: Frame, more: Bytes): Bytes
    requires (forall g <- segments :: IsSegment(g)) && IsFrameHeader(f)
  {
    if segments == [] then EncodeFrame(f) + more else EncodeSegment(segments[0]) + Encode(segments[1..], f, more)
  }

  lemma {:induction false} FillsAreSkipped(n: nat, t: Bytes)
    requires t != [] && t[0] != FILL
    ensures SkipFill(Fills(n) + t) == t
  {
    if n == 0 {
      assert Fills(n) + t == t;
    } else {
      assert (Fills(n) + t)[1..] == Fills(n - 1) + t;
      FillsAreSkipped(n - 1, t);
    }
  }

  lemma {:induction false} StrayIsSkipped(stray: Bytes, more: Bytes)
    requires 0xFF !in stray
    ensures Scan(stray + more) == Scan(more)
  {
    hide Scan;
    if stray == [] {
      assert stray + more == more;
    } else {
      ScanSteps(stray + more);
      assert (stray + more)[1..] == stray[1..] + more;
      assert (stray + more)[0] in stray;
      StrayIsSkipped(stray[1..], more);
    }
  }

  /** Stray and fill bytes in front of a marker do not matter. */
  lemma MarkerIsFound(stray: Bytes, fill: nat, marker: Byte, more: Bytes)
    requires 0xFF !in stray && marker != 0xFF
    ensures Scan(Marker(stray, fill, marker) + more)
         == if marker in {0xD8, 0xD9} then Scan(more) else Scan([FILL, marker] + more)
  {
    var s := [FILL] + (Fills(fill) + [marker]) + more;
    assert Marker(stray, fill, marker) + more == stray + s;
    StrayIsSkipped(stray, s);
    assert s[1..] == Fills(fill) + ([marker] + more);
    FillsAreSkipped(fill, [marker] + more);
    hide Scan;
    ScanAtMarker(s);
    assert ([marker] + more)[1..] == more;
  }

  /** What follows a marker is its length, and then a frame header's fields or bytes to skip. */
  lemma AfterMarker(s: Bytes)
    requires |s| >= 4 && s[0] == FILL && s[1] !in {FILL, START_OF_IMAGE, END_OF_IMAGE} && TwoBytes(s[2], s[3]) >= 2
    ensures !IsStartOfFrame(s[1]) ==> Scan(s) == Scan(Skip(s[4..], TwoBytes(s[2], s[3]) - 2))
    ensures IsStartOfFrame(s[1]) && |s| >= 9 ==> Scan(s) == Some(Size(TwoBytes(s[7], s[8]), TwoBytes(s[5], s[6])))
  {
    var t := s[1..];
    assert SkipFill(t) == t && t[3..] == s[4..];
    hide SkipFill, TwoBytes, Skip, IsStartOfFrame;
  }

  lemma SegmentIsSkipped(g: Segment, more: Bytes)
    requires IsSegment(g)
    ensures Scan(EncodeSegment(g) + more) == Scan(more)
  {
    hide Scan, Marker;
    match g
    case Segment(stray, fill, marker, payload) =>
      var n := |payload| + 2;
      var rest := Number(n) + (payload + more);
      assert EncodeSegment(g) + more == Marker(stray, fill, marker) + rest;
      MarkerIsFound(stray, fill, marker, rest);
      var s := [FILL, marker] + rest;
      assert s[2] == n / 256 && s[3] == n % 256 && s[4..] == payload + more;
      AfterMarker(s);
      assert Skip(payload + more, |payload|) == more;
    case Standalone(stray, fill, marker) => MarkerIsFound(stray, fill, marker, more);
  }

  lemma FrameIsRead(f: Frame, more: Bytes)
    requires IsFrameHeader(f)
    ensures Scan(EncodeFrame(f) + more) == Some(f.size)
  {
    hide Scan, Marker;
    var length, height, width := Number(f.length), Number(f.size.height), Number(f.size.width);
    var rest := length + [f.precision] + height + width + more;
    assert EncodeFrame(f) + more == Marker(f.stray, f.fill, f.marker) + rest;
    MarkerIsFound(f.stray, f.fill, f.marker, rest);
    var s := [FILL, f.marker] + rest;
    assert s[2] == length[0] && s[3] == length[1];
    assert s[5] == height[0] && s[6] == height[1] && s[7] == width[0] && s[8] == width[1];
    AfterMarker(s);
  }

  lemma {:induction false} ScanFindsTheFrame(segments: seq<Segment>, f: Frame, more: Bytes)
    requires (forall g <- segments :: IsSegment(g)) && IsFrameHeader(f)
    ensures Scan(Encode(segments, f, more)) == Some(f.size)
  {
    hide Scan, EncodeSegment, EncodeFrame;
    if segments == [] {
      FrameIsRead(f, more);
    } else {
      SegmentIsSkipped(segments[0], Encode(segments[1..], f, more));
      ScanFindsTheFrame(segments[1..], f, more);
    }
  }

  /** The size in the first frame header is found behind any segments, with any payload bytes and
      any number of fill and stray bytes. */
  lemma SizeIsFound(segments: seq<Segment>, f: Frame, more: Bytes)
    requires (forall g <- segments :: IsSegment(g)) && IsFrameHeader(f)
    ensures SizeOf([0xFF, 0xD8] + Encode(segments, f, more)) == Some(f.size)
  {
    hide Scan;
    var bytes := [0xFF, 0xD8] + Encode(segments, f, more);
    assert bytes[..2] == [FILL, START_OF_IMAGE] && bytes[2..] == Encode(segments, f, more);
    ScanFindsTheFrame(segments, f, more);
  }

  lemma {:induction false} FillBefore(s: Bytes)
    ensures SkipFill(s) == s[|s| - |SkipFill(s)|..]
    ensures SkipFill(s) != s ==> s[|s| - |SkipFill(s)| - 1] == FILL
  {
    if s != [] && s[0] == FILL {
      FillBefore(s[1..]);
    }
  }

  function Word(s: Bytes, i: nat): nat
    requires i + 1 < |s|
  {
    s[i] as int * 256 + s[i + 1] as int
  }

  lemma HeaderIsFrame(s: Bytes, n: nat) returns (f: Frame)
    requires n + 9 <= |s| && s[n] == 0xFF && s[n + 1] in FRAME_MARKERS && Word(s, n + 2) >= 2
    ensures IsFrameHeader(f) && EncodeFrame(f) == s[n..n + 9]
    ensures f.size == Size(Word(s, n + 7), Word(s, n + 5))
  {
    f := Frame([], 0, s[n + 1], Word(s, n + 2), s[n + 4], Size(Word(s, n + 7), Word(s, n + 5)));
    assert Marker([], 0, s[n + 1]) == [0xFF, s[n + 1]];
  }

  /** The bytes have the frame header at position n. */
  ghost predicate HasFrame(s: Bytes, n: nat, f: Frame) {
    IsFrameHeader(f) && n + |EncodeFrame(f)| <= |s| && s[n..n + |EncodeFrame(f)|] == EncodeFrame(f)
  }

  lemma FrameInTail(s: Bytes, k: nat, n: nat, f: Frame)
    requires k <= |s| && HasFrame(s[k..], n, f)
    ensures HasFrame(s, k + n, f)
  {
    hide EncodeFrame;
    assert s[k..][n..n + |EncodeFrame(f)|] == s[k + n..k + n + |EncodeFrame(f)|];
  }

  /** One step of a scan that finds something: it is at a frame header, or goes on further back. */
  lemma ScanGoesOn(s: Bytes) returns (k: nat)
    requires Scan(s).Some?
    ensures k <= |s|
    ensures k > 0 ==> Scan(s[k..]) == Scan(s)
    ensures k == 0 ==> exists n: nat, f :: HasFrame(s, n, f) && Scan(s) == Some(f.size)
  {
    hide HasFrame;
    if s[0] != FILL {
      k := 1;
    } else {
      var t := SkipFill(s[1..]);
      FillBefore(s[1..]);
      assert t == s[|s| - |t|..] && s[|s| - |t| - 1] == FILL;
      hide SkipFill;
      if t[0] in {START_OF_IMAGE, END_OF_IMAGE} {
        k := |s| - |t| + 1;
        assert t[1..] == s[k..];
      } else if IsStartOfFrame(t[0]) {
        k := 0;
        var f := FrameAt(s, |s| - |t| - 1);
      } else {
        var rest := Skip(t[3..], TwoBytes(t[1], t[2]) - 2);
        k := |s| - |rest|;
        assert rest == s[k..];
      }
    }
  }

  /** A size is reported only where the bytes have a frame header with that size. */
  lemma {:induction false} FoundInAFrame(s: Bytes) returns (n: nat, f: Frame)
    requires Scan(s).Some?
    ensures HasFrame(s, n, f) && Scan(s) == Some(f.size)
    decreases |s|
  {
    hide HasFrame, Scan;
    var k := ScanGoesOn(s);
    if k == 0 {
      n, f :| HasFrame(s, n, f) && Scan(s) == Some(f.size);
    } else {
      n, f := FoundInAFrame(s[k..]);
      FrameInTail(s, k, n, f);
      n := n + k;
    }
  }

  lemma FrameAt(s: Bytes, n: nat) returns (f: Frame)
    requires n + 9 <= |s| && s[n] == 0xFF && IsStartOfFrame(s[n + 1]) && Word(s, n + 2) >= 2
    ensures HasFrame(s, n, f) && f.size == Size(Word(s, n + 7), Word(s, n + 5))
  {
    f := HeaderIsFrame(s, n);
  }

  /** A file that does not begin with a start of image has no size, and a size that is reported is
      that of a frame header in the file. */
  lemma SizeIsOfAFrame(bytes: Bytes)
    ensures SizeOf(bytes).Some? ==> [0xFF, 0xD8] <= bytes
    ensures SizeOf(bytes).Some? ==> exists n: nat, f :: HasFrame(bytes, n, f) && SizeOf(bytes) == Some(f.size)
  {
    if SizeOf(bytes).Some? {
      var n, f := FoundInAFrame(bytes[2..]);
      FrameInTail(bytes, 2, n, f);
    }
  }
}

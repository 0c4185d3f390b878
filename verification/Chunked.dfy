/** Response bodies of the load generator (python/mlx_benchmark/loadgen.py): the chunked transfer
    coding and the event lines of a streamed answer. */
module Chunked {
  import opened Basics
  import opened Lines

  const SEMICOLON: Byte := 59
  const UNDERSCORE: Byte := 95
  const PLUS: Byte := 43
  const MINUS: Byte := 45
  const CRLF: Bytes := [CR, LF]

  // ------------------------------------------------------------ integer text

  predicate IsSpace(b: Byte) {
    b in {9, 10, 11, 12, 13, 32}
  }

  function LeftStrip(s: Bytes): Bytes {
    if s != [] && IsSpace(s[0]) then LeftStrip(s[1..]) else s
  }

  function RightStrip(s: Bytes): Bytes {
    if s != [] && IsSpace(s[|s| - 1]) then RightStrip(s[..|s| - 1]) else s
  }

  function Strip(s: Bytes): Bytes {
    RightStrip(LeftStrip(s))
  }

  function DigitOf(b: Byte): Option<nat> {
    if 48 <= b <= 57 then Some(b - 48)
    else if 65 <= b <= 70 then Some(b - 55)
    else if 97 <= b <= 102 then Some(b - 87)
    else None
  }

  /** Digits in base sixteen, single underscores allowed between two of them. */
  function Digits(s: Bytes): Option<nat>
    decreases |s|
  {
    if s == [] || DigitOf(s[|s| - 1]).None? then None
    else
      var d, before := DigitOf(s[|s| - 1]).value, s[..|s| - 1];
      if before == [] then Some(d)
      else
        var high := Digits(if before[|before| - 1] == UNDERSCORE then before[..|before| - 1] else before);
        if high.None? then None else Some(16 * high.value + d)
  }

  predicate HasPrefix(s: Bytes) {
    |s| >= 2 && s[0] == 48 && s[1] in {88, 120}
  }

  function WithoutPrefix(u: Bytes): Bytes {
    if !HasPrefix(u) then u else if |u| > 2 && u[2] == UNDERSCORE then u[3..] else u[2..]
  }

  /** The language's own integer text in base sixteen: spaces around it, a sign, a 0x prefix
      with one underscore after it, and then digits. */
  function ParseInt(s: Bytes): Option<int> {
    var t := Strip(s);
    var signed := t != [] && t[0] in {PLUS, MINUS};
    var u := if signed then t[1..] else t;
    match Digits(WithoutPrefix(u))
    case None => None
    case Some(n) => Some(if signed && t[0] == MINUS then -(n as int) else n as int)
  }

  function BeforeSemicolon(s: Bytes): Bytes {
    if s == [] || s[0] == SEMICOLON then [] else [s[0]] + BeforeSemicolon(s[1..])
  }

  // ---------------------------------------------------------------- decoding

  datatype BodyError = ClosedResponse | BadSize | NegativeSize | Incomplete | MissingCrlf | ClosedTrailers

  /** The chunks a body gave, and what is left of the connection or what went wrong. */
  datatype Body = Complete(chunks: seq<Bytes>, rest: Bytes) | Failed(chunks: seq<Bytes>, error: BodyError)

  function NextLine(s: Bytes): (line: Bytes)
    ensures |line| <= |s| && s[..|line|] == line && (s != [] ==> line != [])
  {
    var i := FindNewline(s);
    if i == |s| then s else s[..i + 1]
  }

  /** What follows the empty line that ends the trailers. */
  function AfterTrailers(s: Bytes): Option<Bytes>
    decreases |s|
  {
    var line := NextLine(s);
    if line == CRLF || line == [LF] then Some(s[|line|..])
    else if line == [] then None
    else AfterTrailers(s[|line|..])
  }

  function Prepend(chunk: Bytes, body: Body): Body {
    body.(chunks := [chunk] + body.chunks)
  }

  datatype Head = Ended(rest: Bytes) | Got(data: Bytes, rest: Bytes) | Broken(error: BodyError)

  /** One chunk, or the end of the body with its trailers. */
  function NextChunk(s: Bytes): (h: Head)
    ensures h.Got? ==> |h.rest| < |s|
  {
    var line := NextLine(s);
    if line == [] then Broken(ClosedResponse)
    else AfterSize(ParseInt(BeforeSemicolon(line)), s[|line|..])
  }

  function AfterSize(size: Option<int>, more: Bytes): (h: Head)
    ensures h.Got? ==> |h.rest| <= |more|
  {
    if size.None? then Broken(BadSize)
    else if size.value == 0 then
      var rest := AfterTrailers(more);
      if rest.None? then Broken(ClosedTrailers) else Ended(rest.value)
    else if size.value < 0 then Broken(NegativeSize)
    else if |more| < size.value + 2 then Broken(Incomplete)
    else if more[size.value..size.value + 2] != CRLF then Broken(MissingCrlf)
    else Got(more[..size.value], more[size.value + 2..])
  }

  function Decode(s: Bytes): Body
    decreases |s|
  {
    match NextChunk(s)
    case Ended(rest) => Complete([], rest)
    case Broken(error) => Failed([], error)
    case Got(data, rest) => Prepend(data, Decode(rest))
  }

  // ---------------------------------------------- nothing else is accepted

  /** A size line: it is the first line of what follows it, and gives a size before any semicolon. */
  ghost predicate IsSizeLine(line: Bytes, more: Bytes, size: int) {
    line != [] && NextLine(line + more) == line && ParseInt(BeforeSemicolon(line)) == Some(size)
  }

  /** Lines that are not empty, and then an empty one. */
  ghost predicate IsTrailerBlock(block: Bytes)
    decreases |block|
  {
    block == [CR, LF] || block == [LF]
    || exists n :: 0 < n < |block| && IsFrame(block[..n]) && block[..n] != [CR, LF] && block[..n] != [LF] && IsTrailerBlock(block[n..])
  }

  /** s carries exactly these chunks and then the rest: each chunk behind a line with its size and
      before a line end, none of them empty, and after them a size of zero and the trailers. */
  ghost predicate OnTheWire(s: Bytes, chunks: seq<Bytes>, rest: Bytes)
    decreases |chunks|
  {
    if chunks == [] then exists line, block :: EndOnTheWire(s, line, block, rest)
    else exists line, more :: ChunkOnTheWire(s, line, chunks[0], more) && OnTheWire(more, chunks[1..], rest)
  }

  ghost predicate ChunkOnTheWire(s: Bytes, line: Bytes, data: Bytes, more: Bytes) {
    && s == line + (data + [CR, LF] + more) && IsSizeLine(line, data + [CR, LF] + more, |data|) && data != []
  }

  ghost predicate EndOnTheWire(s: Bytes, line: Bytes, block: Bytes, rest: Bytes) {
    s == line + (block + rest) && IsSizeLine(line, block + rest, 0) && IsTrailerBlock(block)
  }

  lemma {:induction false} TrailersAreABlock(s: Bytes)
    requires AfterTrailers(s).Some?
    ensures var rest := AfterTrailers(s).value;
            |rest| <= |s| && s[|s| - |rest|..] == rest && IsTrailerBlock(s[..|s| - |rest|])
    decreases |s|
  {
    var line := NextLine(s);
    if line != CRLF && line != [LF] {
      var tail := s[|line|..];
      TrailersAreABlock(tail);
      var rest := AfterTrailers(tail).value;
      var block, inner := s[..|s| - |rest|], tail[..|tail| - |rest|];
      LineIsFrame(s, tail);
      assert block[..|line|] == line && block[|line|..] == inner;
      assert inner != [];
      hide AfterTrailers, NextLine;
    }
  }

  /** A line that more of the text follows is a complete one. */
  lemma LineIsFrame(s: Bytes, tail: Bytes)
    requires s != [] && tail == s[|NextLine(s)|..] && tail != []
    ensures IsFrame(NextLine(s))
  {
    var i := FindNewline(s);
    assert NextLine(s) == s[..i + 1];
    FindNewlineIs(s[..i + 1], i);
  }

  lemma FirstSizeLine(s: Bytes, size: int)
    requires s != [] && ParseInt(BeforeSemicolon(NextLine(s))) == Some(size)
    ensures IsSizeLine(NextLine(s), s[|NextLine(s)|..], size)
  {
    assert NextLine(s) + s[|NextLine(s)|..] == s;
  }

  lemma GotIsOnTheWire(s: Bytes)
    requires NextChunk(s).Got?
    ensures ChunkOnTheWire(s, NextLine(s), NextChunk(s).data, NextChunk(s).rest)
  {
    var line := NextLine(s);
    var more := s[|line|..];
    Halves(s, |line|);
    var size := ParseInt(BeforeSemicolon(line)).value;
    FirstSizeLine(s, size);
    hide ParseInt, BeforeSemicolon, NextLine, IsSizeLine;
    assert more == more[..size] + [CR, LF] + more[size + 2..];
  }

  lemma EndedIsOnTheWire(s: Bytes)
    requires NextChunk(s).Ended?
    ensures exists block :: EndOnTheWire(s, NextLine(s), block, NextChunk(s).rest)
  {
    var line := NextLine(s);
    var more, rest := s[|line|..], NextChunk(s).rest;
    EndedRest(s);
    Halves(s, |line|);
    FirstSizeLine(s, 0);
    TrailersAreABlock(more);
    hide NextChunk, ParseInt, BeforeSemicolon, NextLine, IsSizeLine, AfterTrailers, IsTrailerBlock;
    Halves(more, |more| - |rest|);
    assert EndOnTheWire(s, line, more[..|more| - |rest|], rest);
  }

  lemma EndedRest(s: Bytes)
    requires NextChunk(s).Ended?
    ensures s != [] && ParseInt(BeforeSemicolon(NextLine(s))) == Some(0)
    ensures AfterTrailers(s[|NextLine(s)|..]) == Some(NextChunk(s).rest)
  {
    hide ParseInt, BeforeSemicolon, AfterTrailers;
  }

  /** Only what is on the wire is accepted: a body that is complete carries its chunks, each with
      its own size, and its rest is what follows the trailers. */
  lemma {:induction false} AcceptedIsOnTheWire(s: Bytes)
    requires Decode(s).Complete?
    ensures OnTheWire(s, Decode(s).chunks, Decode(s).rest)
    decreases |s|
  {
    hide NextChunk, ChunkOnTheWire, EndOnTheWire;
    match NextChunk(s)
    case Ended(_) => EndedIsOnTheWire(s);
    case Got(data, rest) =>
      GotIsOnTheWire(s);
      AcceptedIsOnTheWire(rest);
      assert Decode(s).chunks == [data] + Decode(rest).chunks && Decode(s).rest == Decode(rest).rest;
      hide Decode;
      assert Decode(s).chunks[0] == data && Decode(s).chunks[1..] == Decode(rest).chunks;
      assert ChunkOnTheWire(s, NextLine(s), Decode(s).chunks[0], rest) && OnTheWire(rest, Decode(s).chunks[1..], Decode(s).rest);
  }

  /** What each error means. */
  lemma WhatIsBroken(s: Bytes)
    requires NextChunk(s).Broken?
    ensures var error, line := NextChunk(s).error, NextLine(s);
            var size, more := ParseInt(BeforeSemicolon(line)), s[|line|..];
            && (error == ClosedResponse <==> s == [])
            && (error == BadSize <==> s != [] && size.None?)
            && (error == ClosedTrailers <==> s != [] && size == Some(0) && AfterTrailers(more).None?)
            && (error == NegativeSize <==> s != [] && size.Some? && size.value < 0)
            && (error == Incomplete <==> s != [] && size.Some? && size.value > 0 && |more| < size.value + 2)
            && (error == MissingCrlf <==> s != [] && size.Some? && 0 < size.value <= |more| - 2
                                          && !(more[size.value] == CR && more[size.value + 1] == LF))
  {
    hide ParseInt, BeforeSemicolon, AfterTrailers;
  }

  // ------------------------------------- the coding of RFC 9112, section 7.1

  predicate IsHexDigit(b: Byte) {
    b in {48, 49, 50, 51, 52, 53, 54, 55, 56, 57} || b in {65, 66, 67, 68, 69, 70} || b in {97, 98, 99, 100, 101, 102}
  }

  function HexValue(b: Byte): nat
    requires IsHexDigit(b)
  {
    if b < 58 then b - 48 else if b < 71 then b - 55 else b - 87
  }

  /** The number that hexadecimal digits stand for. */
  function HexNumber(s: Bytes): nat
    requires forall b <- s :: IsHexDigit(b)
  {
    if s == [] then 0 else 16 * HexNumber(s[..|s| - 1]) + HexValue(s[|s| - 1])
  }

  /** A chunk as written: its size in digits of either case, an extension, the data. */
  datatype Chunk = Chunk(size: Bytes, extension: Bytes, data: Bytes)

  /** The last chunk and the trailer lines after it. */
  datatype Tail = Tail(size: Bytes, extension: Bytes, trailers: seq<Bytes>)

  predicate IsHex(s: Bytes) {
    s != [] && forall b <- s :: IsHexDigit(b)
  }

  /** Nothing, or optional blanks, a semicolon, and anything that stays on the line. */
  predicate IsExtension(s: Bytes) {
    s == [] || (OneLine(s) && exists i | 0 <= i < |s| :: BlanksThenSemicolon(s, i))
  }

  predicate BlanksThenSemicolon(s: Bytes, i: nat)
    requires i < |s|
  {
    s[i] == SEMICOLON && forall j | 0 <= j < i :: s[j] in {9, 32}
  }

  predicate IsChunk(c: Chunk) {
    IsHex(c.size) && IsExtension(c.extension) && c.data != [] && HexNumber(c.size) == |c.data|
  }

  predicate IsTail(t: Tail) {
    && IsHex(t.size) && IsExtension(t.extension) && HexNumber(t.size) == 0
    && forall f <- t.trailers :: f != [] && OneLine(f)
  }

  function EncodeTrailers(fields: seq<Bytes>): Bytes {
    if fields == [] then CRLF else fields[0] + CRLF + EncodeTrailers(fields[1..])
  }

  function SizeLine(size: Bytes, extension: Bytes): Bytes {
    size + extension + CRLF
  }

  function Encode(chunks: seq<Chunk>, tail: Tail): Bytes {
    if chunks == [] then SizeLine(tail.size, tail.extension) + EncodeTrailers(tail.trailers)
    else SizeLine(chunks[0].size, chunks[0].extension) + (chunks[0].data + CRLF + Encode(chunks[1..], tail))
  }

  function Data(chunks: seq<Chunk>): seq<Bytes> {
    seq(|chunks|, i requires 0 <= i < |chunks| => chunks[i].data)
  }

  // -------------------------------------------------- decoding inverts coding

  lemma {:induction false} LeftStripSpaces(spaces: Bytes, a: Bytes)
    requires (forall b <- spaces :: IsSpace(b)) && (a != [] ==> !IsSpace(a[0]))
    ensures LeftStrip(spaces + a) == a
  {
    if spaces == [] {
      assert spaces + a == a;
    } else {
      assert (spaces + a)[0] == spaces[0] && (spaces + a)[1..] == spaces[1..] + a;
      LeftStripSpaces(spaces[1..], a);
    }
  }

  lemma {:induction false} RightStripSpaces(a: Bytes, spaces: Bytes)
    requires a != [] && !IsSpace(a[|a| - 1]) && forall b <- spaces :: IsSpace(b)
    ensures RightStrip(a + spaces) == a
  {
    if spaces == [] {
      assert a + spaces == a;
    } else {
      var s := a + spaces;
      assert IsSpace(s[|s| - 1]) && s[..|s| - 1] == a + spaces[..|spaces| - 1];
      RightStripSpaces(a, spaces[..|spaces| - 1]);
    }
  }

  lemma DigitOfIs(b: Byte)
    ensures DigitOf(b) == if IsHexDigit(b) then Some(HexValue(b)) else None
  {
  }

  lemma {:induction false} DigitsOfHex(s: Bytes)
    requires IsHex(s)
    ensures Digits(s) == Some(HexNumber(s))
  {
    var before := s[..|s| - 1];
    assert s[|s| - 1] in s;
    DigitOfIs(s[|s| - 1]);
    hide DigitOf, HexValue;
    if before != [] {
      assert before[|before| - 1] in s;
      DigitsOfHex(before);
    } else {
      assert HexNumber(before) == 0;
    }
  }

  /** Which digits are read, and as what: hexadecimal ones with single underscores between two of
      them, as the number without the underscores. */
  ghost predicate IsDigits(s: Bytes) {
    && s != [] && IsHexDigit(s[0]) && IsHexDigit(s[|s| - 1])
    && (forall i | 0 <= i < |s| :: IsHexDigit(s[i]) || s[i] == UNDERSCORE)
    && forall i | 0 <= i < |s| - 1 :: s[i] != UNDERSCORE || s[i + 1] != UNDERSCORE
  }

  function OnlyHex(s: Bytes): (t: Bytes)
    ensures forall b <- t :: IsHexDigit(b)
  {
    if s == [] then [] else OnlyHex(s[..|s| - 1]) + (if IsHexDigit(s[|s| - 1]) then [s[|s| - 1]] else [])
  }

  function Shorter(s: Bytes): Bytes
    requires |s| >= 2
  {
    if s[|s| - 2] == UNDERSCORE then s[..|s| - 2] else s[..|s| - 1]
  }

  lemma ShorterIs(s: Bytes)
    requires |s| >= 2
    ensures var before := s[..|s| - 1];
            before != [] && Shorter(s) == if before[|before| - 1] == UNDERSCORE then before[..|before| - 1] else before
  {
    assert s[..|s| - 1][..|s| - 2] == s[..|s| - 2];
  }

  lemma DigitsStep(s: Bytes)
    requires s != []
    ensures !IsHexDigit(s[|s| - 1]) ==> Digits(s) == None
    ensures IsHexDigit(s[|s| - 1]) && |s| == 1 ==> Digits(s) == Some(HexValue(s[0]))
    ensures IsHexDigit(s[|s| - 1]) && |s| >= 2 ==>
              Digits(s) == match Digits(Shorter(s)) case None => None case Some(high) => Some(16 * high + HexValue(s[|s| - 1]))
  {
    DigitOfIs(s[|s| - 1]);
    hide DigitOf, HexValue, IsHexDigit, Shorter;
    if |s| >= 2 {
      ShorterIs(s);
    }
  }

  lemma OneDigit(s: Bytes)
    requires |s| == 1
    ensures IsDigits(s) <==> IsHexDigit(s[0])
    ensures IsHexDigit(s[0]) ==> HexNumber(OnlyHex(s)) == HexValue(s[0])
  {
    hide IsHexDigit, HexValue;
    assert s[..0] == [] && OnlyHex([]) == [];
    assert IsHexDigit(s[0]) ==> OnlyHex(s) == [s[0]];
  }

  lemma OnlyHexStep(s: Bytes)
    requires |s| >= 2 && IsHexDigit(s[|s| - 1])
    ensures HexNumber(OnlyHex(s)) == 16 * HexNumber(OnlyHex(Shorter(s))) + HexValue(s[|s| - 1])
  {
    UnderscoreIsNoDigit();
    hide IsHexDigit, HexValue;
    var before := s[..|s| - 1];
    assert before[..|before| - 1] == s[..|s| - 2];
    assert OnlyHex(before) == OnlyHex(Shorter(s));
    assert OnlyHex(s) == OnlyHex(before) + [s[|s| - 1]];
    assert OnlyHex(s)[..|OnlyHex(s)| - 1] == OnlyHex(before);
  }

  lemma LastDigit(s: Bytes)
    ensures IsDigits(s) ==> s != [] && IsHexDigit(s[|s| - 1])
    ensures Digits([]) == None
  {
    hide IsHexDigit;
  }

  lemma {:induction false} DigitsIff(s: Bytes)
    ensures Digits(s).Some? <==> IsDigits(s)
    ensures IsDigits(s) ==> Digits(s) == Some(HexNumber(OnlyHex(s)))
    decreases |s|
  {
    hide Digits, OnlyHex, HexNumber, HexValue, IsHexDigit, Shorter, IsDigits;
    LastDigit(s);
    if s != [] && IsHexDigit(s[|s| - 1]) {
      DigitsStep(s);
      if |s| == 1 {
        OneDigit(s);
      } else {
        ShorterIs(s);
        DigitsIff(Shorter(s));
        DigitsShorter(s);
        OnlyHexStep(s);
      }
    } else if s != [] {
      DigitsStep(s);
    }
  }

  lemma UnderscoreIsNoDigit()
    ensures !IsHexDigit(UNDERSCORE)
  {
  }

  lemma DigitsShorter(s: Bytes)
    requires |s| >= 2
    ensures IsDigits(s) <==> IsHexDigit(s[|s| - 1]) && IsDigits(Shorter(s))
  {
    UnderscoreIsNoDigit();
    hide IsHexDigit;
  }

  ghost predicate IsSign(s: Bytes) {
    s == [] || s == [43] || s == [45]
  }

  ghost predicate IsPrefix(s: Bytes) {
    s == [] || s == [48, 88] || s == [48, 120] || s == [48, 88, 95] || s == [48, 120, 95]
  }

  /** How integer text is read: spaces around it, a sign, and a 0x with or without an underscore
      after it do not matter, but for the minus. */
  lemma IntegerIsRead(pre: Bytes, sign: Bytes, prefix: Bytes, digits: Bytes, post: Bytes)
    requires (forall b <- pre :: IsSpace(b)) && (forall b <- post :: IsSpace(b))
    requires IsSign(sign) && IsPrefix(prefix) && IsDigits(digits)
    ensures var n: int := HexNumber(OnlyHex(digits));
            ParseInt(pre + sign + prefix + digits + post) == Some(if sign == [45] then -n else n)
  {
    hide IsSign, IsPrefix, ParseInt, Digits, WithoutPrefix, Strip, IsDigits, OnlyHex, HexNumber, IsSpace;
    var t := sign + (prefix + digits);
    assert pre + sign + prefix + digits + post == pre + t + post;
    FirstOfInteger(sign, prefix, digits);
    StrippedIs(pre, t, post);
    PrefixIsRead(prefix, digits);
    DigitsIff(digits);
    SignIsRead(pre + t + post, sign, prefix + digits);
  }

  lemma StrippedIs(pre: Bytes, t: Bytes, post: Bytes)
    requires (forall b <- pre :: IsSpace(b)) && (forall b <- post :: IsSpace(b))
    requires t != [] && !IsSpace(t[0]) && !IsSpace(t[|t| - 1])
    ensures Strip(pre + t + post) == t
  {
    assert pre + t + post == pre + (t + post);
    LeftStripSpaces(pre, t + post);
    RightStripSpaces(t, post);
  }

  lemma SignIsRead(s: Bytes, sign: Bytes, u: Bytes)
    requires IsSign(sign) && Strip(s) == sign + u && u != [] && (sign == [] ==> u[0] !in {PLUS, MINUS})
    ensures ParseInt(s) == match Digits(WithoutPrefix(u))
                           case None => None
                           case Some(n) => Some(if sign == [45] then -(n as int) else n)
  {
    var t := sign + u;
    hide Strip, Digits, WithoutPrefix;
    if sign == [] {
      assert t == u;
    } else {
      assert t[0] == sign[0] && t[1..] == u;
    }
  }

  lemma FirstOfInteger(sign: Bytes, prefix: Bytes, digits: Bytes)
    requires IsSign(sign) && IsPrefix(prefix) && IsDigits(digits)
    ensures var t := sign + (prefix + digits);
            && t != [] && !IsSpace(t[0]) && !IsSpace(t[|t| - 1])
            && prefix + digits != [] && (sign == [] ==> (prefix + digits)[0] !in {PLUS, MINUS})
  {
    var t := sign + (prefix + digits);
    assert t[|t| - 1] == digits[|digits| - 1];
    assert (prefix + digits)[0] == if prefix != [] then prefix[0] else digits[0];
    assert t[0] == if sign != [] then sign[0] else (prefix + digits)[0];
  }

  lemma PrefixIsRead(prefix: Bytes, digits: Bytes)
    requires IsPrefix(prefix) && IsDigits(digits)
    ensures WithoutPrefix(prefix + digits) == digits
  {
    var u := prefix + digits;
    assert digits[0] != UNDERSCORE && (|digits| >= 2 ==> digits[1] !in {88, 120});
    assert u[|prefix|..] == digits;
    hide IsDigits;
    if prefix == [] {
      assert u == digits;
    } else {
      assert u[0] == 48 && u[1] in {88, 120} && u[2] == if |prefix| == 3 then UNDERSCORE else digits[0];
    }
  }

  lemma ParseHexLine(size: Bytes, spaces: Bytes)
    requires IsHex(size) && forall b <- spaces :: IsSpace(b)
    ensures ParseInt(size + spaces) == Some(HexNumber(size))
  {
    assert size[0] in size && size[|size| - 1] in size;
    assert LeftStrip(size + spaces) == size + spaces;
    RightStripSpaces(size, spaces);
    assert |size| > 1 ==> size[1] in size;
    DigitsOfHex(size);
  }

  lemma {:induction false} BeforeSemicolonIs(a: Bytes, b: Bytes)
    requires forall i | 0 <= i < |a| :: a[i] != SEMICOLON
    requires b == [] || b[0] == SEMICOLON
    ensures BeforeSemicolon(a + b) == a
  {
    if a == [] {
      assert a + b == b;
    } else {
      assert (a + b)[0] == a[0] && (a + b)[1..] == a[1..] + b;
      BeforeSemicolonIs(a[1..], b);
    }
  }

  lemma HexHasNoSemicolon(size: Bytes)
    requires IsHex(size)
    ensures forall i | 0 <= i < |size| :: size[i] != SEMICOLON
  {
    assert forall i | 0 <= i < |size| :: size[i] in size;
  }

  lemma SizeIsRead(size: Bytes, extension: Bytes)
    requires IsHex(size) && IsExtension(extension)
    ensures ParseInt(BeforeSemicolon(SizeLine(size, extension))) == Some(HexNumber(size))
  {
    hide ParseInt, BeforeSemicolon;
    var line := SizeLine(size, extension);
    if extension == [] {
      assert line == (size + CRLF) + [];
      HexHasNoSemicolon(size);
      BeforeSemicolonIs(size + CRLF, []);
      ParseHexLine(size, CRLF);
    } else {
      var i: nat :| i < |extension| && BlanksThenSemicolon(extension, i);
      assert line == (size + extension[..i]) + (extension[i..] + CRLF);
      HexHasNoSemicolon(size);
      BeforeSemicolonIs(size + extension[..i], extension[i..] + CRLF);
      ParseHexLine(size, extension[..i]);
    }
  }

  lemma LineIsNext(line: Bytes, more: Bytes)
    requires OneLine(line)
    ensures NextLine(line + CRLF + more) == line + CRLF && (line + CRLF + more)[|line + CRLF|..] == more
  {
    var s := line + CRLF + more;
    assert forall j | 0 <= j < |line| :: s[j] == line[j];
    assert s[|line|] == CR && s[|line| + 1] == LF;
    FindNewlineIs(s, |line| + 1);
    assert s[..|line| + 2] == line + CRLF;
  }

  lemma SizeLineIsNext(size: Bytes, extension: Bytes, more: Bytes)
    requires IsHex(size) && IsExtension(extension)
    ensures NextLine(SizeLine(size, extension) + more) == SizeLine(size, extension)
    ensures (SizeLine(size, extension) + more)[|SizeLine(size, extension)|..] == more
  {
    assert forall i | 0 <= i < |size| :: size[i] in size;
    LineIsNext(size + extension, more);
    assert (size + extension) + CRLF + more == SizeLine(size, extension) + more;
  }

  lemma {:induction false} TrailersAreSkipped(fields: seq<Bytes>, more: Bytes)
    requires forall f <- fields :: f != [] && OneLine(f)
    ensures AfterTrailers(EncodeTrailers(fields) + more) == Some(more)
  {
    if fields == [] {
      LineIsNext([], more);
      assert [] + CRLF + more == CRLF + more;
    } else {
      var f, rest := fields[0], EncodeTrailers(fields[1..]);
      assert EncodeTrailers(fields) + more == f + CRLF + (rest + more);
      LineIsNext(f, rest + more);
      TrailersAreSkipped(fields[1..], more);
    }
  }

  /** One step of the decoder on a well-formed chunk. */
  lemma ChunkIsDecoded(c: Chunk, more: Bytes)
    requires IsChunk(c)
    ensures NextChunk(SizeLine(c.size, c.extension) + (c.data + CRLF + more)) == Got(c.data, more)
  {
    hide ParseInt, BeforeSemicolon, NextLine, SizeLine, IsExtension;
    var rest := c.data + CRLF + more;
    SizeLineIsNext(c.size, c.extension, rest);
    SizeIsRead(c.size, c.extension);
    NotEmpty(c.size, c.extension);
    assert rest[..|c.data|] == c.data && rest[|c.data|..|c.data| + 2] == CRLF && rest[|c.data| + 2..] == more;
  }

  lemma TailIsDecoded(t: Tail, more: Bytes)
    requires IsTail(t)
    ensures NextChunk(SizeLine(t.size, t.extension) + (EncodeTrailers(t.trailers) + more)) == Ended(more)
  {
    hide ParseInt, BeforeSemicolon, NextLine, SizeLine, IsExtension, EncodeTrailers, AfterTrailers;
    SizeLineIsNext(t.size, t.extension, EncodeTrailers(t.trailers) + more);
    SizeIsRead(t.size, t.extension);
    NotEmpty(t.size, t.extension);
    TrailersAreSkipped(t.trailers, more);
  }

  lemma NotEmpty(size: Bytes, extension: Bytes)
    ensures SizeLine(size, extension) != []
  {}

  /** Decoding inverts the chunked coding for every list of chunks, however their sizes are
      spelled and whatever extensions and trailers they carry, and leaves the connection at
      the first byte after the body. */
  lemma {:induction false} DecodeInvertsEncode(chunks: seq<Chunk>, tail: Tail, more: Bytes)
    requires (forall c <- chunks :: IsChunk(c)) && IsTail(tail)
    ensures Decode(Encode(chunks, tail) + more) == Complete(Data(chunks), more)
    decreases |chunks|
  {
    hide NextChunk, SizeLine, EncodeTrailers, IsChunk, IsTail;
    if chunks == [] {
      assert Encode(chunks, tail) + more == SizeLine(tail.size, tail.extension) + (EncodeTrailers(tail.trailers) + more);
      TailIsDecoded(tail, more);
    } else {
      var c, rest := chunks[0], Encode(chunks[1..], tail);
      assert Encode(chunks, tail) + more == SizeLine(c.size, c.extension) + (c.data + CRLF + (rest + more));
      ChunkIsDecoded(c, rest + more);
      DecodeInvertsEncode(chunks[1..], tail, more);
      assert Data(chunks) == [c.data] + Data(chunks[1..]);
    }
  }

  // -------------------------------------------- reading stops where the body does

  lemma NextLineStays(s: Bytes, more: Bytes)
    requires s != [] && NextLine(s)[|NextLine(s)| - 1] == LF
    ensures NextLine(s + more) == NextLine(s)
    ensures (s + more)[|NextLine(s)|..] == s[|NextLine(s)|..] + more
  {
    var i := FindNewline(s);
    FindNewlineIs(s + more, i);
  }

  lemma {:induction false} TrailersStay(s: Bytes, more: Bytes)
    requires AfterTrailers(s).Some?
    ensures AfterTrailers(s + more) == Some(AfterTrailers(s).value + more)
    decreases |s|
  {
    hide FindNewline;
    var line := NextLine(s);
    if line[|line| - 1] == LF {
      NextLineStays(s, more);
      if line != CRLF && line != [LF] {
        TrailersStay(s[|line|..], more);
      }
    }
  }

  lemma AfterSizeStays(size: Option<int>, s: Bytes, more: Bytes)
    requires !AfterSize(size, s).Broken?
    ensures AfterSize(size, s + more) == AfterSize(size, s).(rest := AfterSize(size, s).rest + more)
  {
    hide AfterTrailers;
    var n := size.value;
    if n == 0 {
      TrailersStay(s, more);
    } else {
      assert (s + more)[..n] == s[..n] && (s + more)[n..n + 2] == s[n..n + 2] && (s + more)[n + 2..] == s[n + 2..] + more;
    }
  }

  lemma NextChunkStays(s: Bytes, more: Bytes)
    requires !NextChunk(s).Broken?
    ensures NextChunk(s + more) == NextChunk(s).(rest := NextChunk(s).rest + more)
  {
    hide ParseInt, BeforeSemicolon, AfterTrailers;
    var line := NextLine(s);
    if line[|line| - 1] == LF {
      NextLineStays(s, more);
      hide NextLine, AfterSize;
      AfterSizeStays(ParseInt(BeforeSemicolon(line)), s[|line|..], more);
    } else {
      NothingAfterLastLine(s);
    }
  }

  lemma NothingAfterLastLine(s: Bytes)
    requires s != [] && NextLine(s)[|NextLine(s)| - 1] != LF
    ensures s[|NextLine(s)|..] == [] && AfterTrailers([]).None?
  {
    assert NextLine([]) == [];
  }

  /** Once a body is complete, bytes that follow it on the connection change neither its
      chunks nor where it ended. */
  lemma {:induction false} CompleteBodyIsFinal(s: Bytes, more: Bytes)
    requires Decode(s).Complete?
    ensures Decode(s + more) == Complete(Decode(s).chunks, Decode(s).rest + more)
    decreases |s|
  {
    hide NextChunk;
    NextChunkStays(s, more);
    if NextChunk(s).Got? {
      CompleteBodyIsFinal(NextChunk(s).rest, more);
    }
  }

  // ---------------------------------------------------------- the decoder at work

  function PrependAll(chunks: seq<Bytes>, body: Body): Body {
    body.(chunks := chunks + body.chunks)
  }

  /** A connection that will deliver these bytes and then close. */
  class StreamReader {
    var input: Bytes

    constructor (bytes: Bytes)
      ensures input == bytes
    {
      input := bytes;
    }

    method ReadLine() returns (line: Bytes)
      modifies this
      ensures line == NextLine(old(input)) && input == old(input)[|line|..]
    {
      line := NextLine(input);
      input := input[|line|..];
    }

    /** The next n bytes, or None if the connection closes before. */
    method ReadExactly(n: nat) returns (r: Option<Bytes>)
      modifies this
      ensures |old(input)| < n ==> r.None?
      ensures |old(input)| >= n ==> r == Some(old(input)[..n]) && input == old(input)[n..]
    {
      if |input| < n {
        input := [];
        return None;
      }
      r := Some(input[..n]);
      input := input[n..];
    }

    /** Reads the trailers; false if the connection closes inside them. */
    method SkipTrailers() returns (ok: bool)
      modifies this
      ensures ok <==> AfterTrailers(old(input)).Some?
      ensures ok ==> input == AfterTrailers(old(input)).value
    {
      while true
        invariant AfterTrailers(input) == AfterTrailers(old(input))
        decreases |input|
      {
        var trailer := ReadLine();
        if trailer == CRLF || trailer == [LF] {
          return true;
        }
        if trailer == [] {
          return false;
        }
      }
    }

    /** Reads one chunk, or the end of the body. */
    method ReadChunk() returns (h: Head)
      modifies this
      ensures h == NextChunk(old(input))
      ensures !h.Broken? ==> input == h.rest
    {
      hide AfterTrailers, ParseInt, BeforeSemicolon, NextLine;
      var line := ReadLine();
      if line == [] {
        return Broken(ClosedResponse);
      }
      var size := ParseInt(BeforeSemicolon(line));
      if size.None? {
        return Broken(BadSize);
      }
      if size.value == 0 {
        var ok := SkipTrailers();
        return if ok then Ended(input) else Broken(ClosedTrailers);
      }
      if size.value < 0 {
        return Broken(NegativeSize);
      }
      ghost var more := input;
      var data := ReadExactly(size.value);
      if data.None? {
        return Broken(Incomplete);
      }
      var ending := ReadExactly(2);
      if ending.None? {
        return Broken(Incomplete);
      }
      assert ending.value == more[size.value..size.value + 2] && input == more[size.value + 2..];
      return if ending.value != CRLF then Broken(MissingCrlf) else Got(data.value, input);
    }

    /** Reads a whole chunked body. */
    method BodyChunks() returns (body: Body)
      modifies this
      ensures body == Decode(old(input))
      ensures body.Complete? ==> input == body.rest
    {
      hide NextChunk;
      var chunks: seq<Bytes> := [];
      while true
        invariant PrependAll(chunks, Decode(input)) == Decode(old(input))
        decreases |input|
      {
        var h := ReadChunk();
        match h {
          case Ended(_) => return Complete(chunks, input);
          case Broken(error) => return Failed(chunks, error);
          case Got(data, _) =>
            chunks := chunks + [data];
        }
      }
    }
  }
}

/** That the JSON text assumed by the codec can exist: a prefix-free way of writing every value on
    one line, and reading defined as its inverse. It shows the assumptions of Codec can be met; it
    is not the text the system uses. */
module JsonTexts {
  import opened Basics
  import opened Lines
  import opened Codec

  /** n ones and a zero. */
  function Unary(n: nat): Bytes {
    if n == 0 then [0] else [1] + Unary(n - 1)
  }

  function Whole(n: int): Bytes {
    if n >= 0 then [2] + Unary(n) else [3] + Unary(-n)
  }

  function Text(s: string): Bytes {
    if s == [] then [0] else [1] + (Unary(s[0] as int) + Text(s[1..]))
  }

  function Write(v: Json): Bytes
    decreases v, 0
  {
    match v
    case JNull => [20]
    case JBool(b) => if b then [21] else [22]
    case JInt(n) => [23] + Whole(n)
    case JFloat(m, e) => [24] + (Whole(m) + Whole(e))
    case JStr(s) => [25] + Text(s)
    case JArr(items) => [26] + WriteItems(items)
    case JObj(fields) => [27] + WriteFields(fields)
  }

  function WriteItems(items: seq<Json>): Bytes
    decreases items, 0
  {
    if items == [] then [0] else [1] + (Write(items[0]) + WriteItems(items[1..]))
  }

  function WriteFields(fields: seq<(string, Json)>): Bytes
    decreases fields, 0
  {
    if fields == [] then [0]
    else
      assert (fields decreases to fields[0]) && (fields[0] decreases to fields[0].1);
      [1] + (Text(fields[0].0) + (Write(fields[0].1) + WriteFields(fields[1..])))
  }

  // -------------------------------------------------- nothing is written twice

  lemma Split(x: Byte, y: Byte, a: Bytes, b: Bytes)
    requires [x] + a == [y] + b
    ensures x == y && a == b
  {
    assert a == ([x] + a)[1..] && b == ([y] + b)[1..];
    assert ([x] + a)[0] == x && ([y] + b)[0] == y;
  }

  lemma {:induction false} UnaryIsPrefixFree(m: nat, n: nat, a: Bytes, b: Bytes)
    requires Unary(m) + a == Unary(n) + b
    ensures m == n && a == b
  {
    var x, y := if m == 0 then [] else Unary(m - 1), if n == 0 then [] else Unary(n - 1);
    var c: Byte, d: Byte := if m == 0 then 0 else 1, if n == 0 then 0 else 1;
    assert Unary(m) + a == [c] + (x + a) && Unary(n) + b == [d] + (y + b);
    Split(c, d, x + a, y + b);
    if m > 0 {
      UnaryIsPrefixFree(m - 1, n - 1, a, b);
    } else {
      assert [] + a == a && [] + b == b;
    }
  }

  function Sign(n: int): Byte {
    if n >= 0 then 2 else 3
  }

  lemma WholeIs(n: int, a: Bytes)
    ensures Whole(n) + a == [Sign(n)] + (Unary(if n >= 0 then n else -n) + a)
  {
    hide Unary;
  }

  lemma WholeIsPrefixFree(m: int, n: int, a: Bytes, b: Bytes)
    requires Whole(m) + a == Whole(n) + b
    ensures m == n && a == b
  {
    hide Whole, Unary;
    var x: nat, y: nat := if m >= 0 then m else -m, if n >= 0 then n else -n;
    var c, d := Sign(m), Sign(n);
    WholeIs(m, a);
    WholeIs(n, b);
    Split(c, d, Unary(x) + a, Unary(y) + b);
    UnaryIsPrefixFree(x, y, a, b);
  }

  lemma {:induction false} TextIsPrefixFree(s: string, t: string, a: Bytes, b: Bytes)
    requires Text(s) + a == Text(t) + b
    ensures s == t && a == b
    decreases |s|
  {
    hide Unary;
    if s == [] || t == [] {
      var x, y := if s == [] then [] else (Unary(s[0] as int) + Text(s[1..])), if t == [] then [] else (Unary(t[0] as int) + Text(t[1..]));
      var c: Byte, d: Byte := if s == [] then 0 else 1, if t == [] then 0 else 1;
      assert Text(s) + a == [c] + (x + a) && Text(t) + b == [d] + (y + b);
      Split(c, d, x + a, y + b);
      assert [] + a == a && [] + b == b;
    } else {
      var x, y := Text(s[1..]) + a, Text(t[1..]) + b;
      assert Text(s) + a == [1] + (Unary(s[0] as int) + x) && Text(t) + b == [1] + (Unary(t[0] as int) + y);
      Split(1, 1, Unary(s[0] as int) + x, Unary(t[0] as int) + y);
      UnaryIsPrefixFree(s[0] as int, t[0] as int, x, y);
      TextIsPrefixFree(s[1..], t[1..], a, b);
      assert s == [s[0]] + s[1..] && t == [t[0]] + t[1..];
    }
  }

  function Tag(v: Json): Byte {
    match v
    case JNull => 20
    case JBool(b) => if b then 21 else 22
    case JInt(_) => 23
    case JFloat(_, _) => 24
    case JStr(_) => 25
    case JArr(_) => 26
    case JObj(_) => 27
  }

  function Rest(v: Json): Bytes {
    match v
    case JNull => []
    case JBool(_) => []
    case JInt(n) => Whole(n)
    case JFloat(m, e) => Whole(m) + Whole(e)
    case JStr(s) => Text(s)
    case JArr(items) => WriteItems(items)
    case JObj(fields) => WriteFields(fields)
  }

  lemma TagFirst(v: Json)
    ensures Write(v) == [Tag(v)] + Rest(v)
  {}

  lemma {:induction false} WriteIsPrefixFree(v: Json, w: Json, a: Bytes, b: Bytes)
    requires Write(v) + a == Write(w) + b
    ensures v == w && a == b
    decreases v, 0
  {
    hide Whole, Text, WriteItems, WriteFields, Write;
    TagFirst(v);
    TagFirst(w);
    assert [Tag(v)] + (Rest(v) + a) == Write(v) + a && [Tag(w)] + (Rest(w) + b) == Write(w) + b;
    Split(Tag(v), Tag(w), Rest(v) + a, Rest(w) + b);
    match v
    case JNull => assert [] + a == a && [] + b == b;
    case JBool(_) => assert [] + a == a && [] + b == b;
    case JInt(n) => WholeIsPrefixFree(n, w.n, a, b);
    case JFloat(m, e) =>
      assert (Whole(m) + Whole(e)) + a == Whole(m) + (Whole(e) + a);
      assert (Whole(w.mantissa) + Whole(w.exponent)) + b == Whole(w.mantissa) + (Whole(w.exponent) + b);
      WholeIsPrefixFree(m, w.mantissa, Whole(e) + a, Whole(w.exponent) + b);
      WholeIsPrefixFree(e, w.exponent, a, b);
    case JStr(s) => TextIsPrefixFree(s, w.s, a, b);
    case JArr(items) => ItemsArePrefixFree(items, w.items, a, b);
    case JObj(fields) => FieldsArePrefixFree(fields, w.fields, a, b);
  }

  lemma {:induction false} ItemsArePrefixFree(s: seq<Json>, t: seq<Json>, a: Bytes, b: Bytes)
    requires WriteItems(s) + a == WriteItems(t) + b
    ensures s == t && a == b
    decreases s, 0
  {
    hide Write;
    if s == [] || t == [] {
      var x, y := if s == [] then [] else (Write(s[0]) + WriteItems(s[1..])), if t == [] then [] else (Write(t[0]) + WriteItems(t[1..]));
      var c: Byte, d: Byte := if s == [] then 0 else 1, if t == [] then 0 else 1;
      assert WriteItems(s) + a == [c] + (x + a) && WriteItems(t) + b == [d] + (y + b);
      Split(c, d, x + a, y + b);
      assert [] + a == a && [] + b == b;
    } else {
      var x, y := WriteItems(s[1..]) + a, WriteItems(t[1..]) + b;
      assert WriteItems(s) + a == [1] + (Write(s[0]) + x) && WriteItems(t) + b == [1] + (Write(t[0]) + y);
      Split(1, 1, Write(s[0]) + x, Write(t[0]) + y);
      WriteIsPrefixFree(s[0], t[0], x, y);
      ItemsArePrefixFree(s[1..], t[1..], a, b);
      assert s == [s[0]] + s[1..] && t == [t[0]] + t[1..];
    }
  }

  lemma {:induction false} FieldsArePrefixFree(s: seq<(string, Json)>, t: seq<(string, Json)>, a: Bytes, b: Bytes)
    requires WriteFields(s) + a == WriteFields(t) + b
    ensures s == t && a == b
    decreases s, 0
  {
    hide Write, Text;
    if s == [] || t == [] {
      var x, y := if s == [] then [] else (Text(s[0].0) + (Write(s[0].1) + WriteFields(s[1..]))),
                  if t == [] then [] else (Text(t[0].0) + (Write(t[0].1) + WriteFields(t[1..])));
      var c: Byte, d: Byte := if s == [] then 0 else 1, if t == [] then 0 else 1;
      assert WriteFields(s) + a == [c] + (x + a) && WriteFields(t) + b == [d] + (y + b);
      Split(c, d, x + a, y + b);
      assert [] + a == a && [] + b == b;
    } else {
      var x, y := WriteFields(s[1..]) + a, WriteFields(t[1..]) + b;
      assert WriteFields(s) + a == [1] + (Text(s[0].0) + (Write(s[0].1) + x));
      assert WriteFields(t) + b == [1] + (Text(t[0].0) + (Write(t[0].1) + y));
      Split(1, 1, Text(s[0].0) + (Write(s[0].1) + x), Text(t[0].0) + (Write(t[0].1) + y));
      TextIsPrefixFree(s[0].0, t[0].0, Write(s[0].1) + x, Write(t[0].1) + y);
      assert (s decreases to s[0]) && (s[0] decreases to s[0].1);
      WriteIsPrefixFree(s[0].1, t[0].1, x, y);
      FieldsArePrefixFree(s[1..], t[1..], a, b);
      assert s == [s[0]] + s[1..] && t == [t[0]] + t[1..];
    }
  }

  // ------------------------------------------------------------- on one line

  lemma {:induction false} UnaryIsOneLine(n: nat)
    ensures OneLine(Unary(n))
  {
    if n > 0 {
      UnaryIsOneLine(n - 1);
    }
  }

  lemma WholeIsOneLine(n: int)
    ensures OneLine(Whole(n))
  {
    UnaryIsOneLine(if n >= 0 then n else -n);
  }

  lemma {:induction false} TextIsOneLine(s: string)
    ensures OneLine(Text(s))
  {
    if s != [] {
      UnaryIsOneLine(s[0] as int);
      TextIsOneLine(s[1..]);
    }
  }

  lemma {:induction false} WriteIsOneLine(v: Json)
    ensures OneLine(Write(v))
    decreases v, 0
  {
    match v
    case JInt(n) => WholeIsOneLine(n);
    case JFloat(m, e) => WholeIsOneLine(m); WholeIsOneLine(e);
    case JStr(s) => TextIsOneLine(s);
    case JArr(items) => ItemsAreOneLine(items);
    case JObj(fields) => FieldsAreOneLine(fields);
    case _ =>
  }

  lemma {:induction false} ItemsAreOneLine(s: seq<Json>)
    ensures OneLine(WriteItems(s))
    decreases s, 0
  {
    if s != [] {
      WriteIsOneLine(s[0]);
      ItemsAreOneLine(s[1..]);
    }
  }

  lemma {:induction false} FieldsAreOneLine(s: seq<(string, Json)>)
    ensures OneLine(WriteFields(s))
    decreases s, 0
  {
    if s != [] {
      TextIsOneLine(s[0].0);
      assert (s decreases to s[0]) && (s[0] decreases to s[0].1);
      WriteIsOneLine(s[0].1);
      FieldsAreOneLine(s[1..]);
    }
  }

  // ---------------------------------------------------------------- the text

  ghost function Read(raw: Bytes): Option<Json> {
    if exists v :: Write(v) + [LF] == raw then
      var v :| Write(v) + [LF] == raw;
      Some(v)
    else None
  }

  lemma ReadsWhatWasWritten(v: Json)
    ensures Read(Write(v) + [LF]) == Some(v)
  {
    var raw := Write(v) + [LF];
    assert exists w :: Write(w) + [LF] == raw;
    var w := Read(raw).value;
    WriteIsPrefixFree(v, w, [LF], [LF]);
  }

  /** The codec's assumptions about JSON text can all be met at once. */
  lemma FaithfulTextExists()
    ensures exists t :: Faithful(t)
  {
    hide Write;
    ghost var t := JsonText(Write, raw => Read(raw), (v: Json) => if v.JStr? then v.s else "");
    forall v ensures t.loads(t.dumps(v) + [LF]) == Some(v) {
      ReadsWhatWasWritten(v);
    }
    forall v, b | b in t.dumps(v) ensures b != LF {
      WriteIsOneLine(v);
    }
    assert Faithful(t);
  }
}

/** Gateway commands on the wire (python/mlx_worker/ipc.py).  JSON text itself is a parameter;
    decoded scalars stay JSON values, because the decoder does not look at their types. */
module Codec {
  import opened Basics
  import opened Lines
  import F = Framing

  datatype Json =
    | JNull
    | JBool(b: bool)
    | JInt(n: int)
    | JFloat(mantissa: int, exponent: int)
    | JStr(s: string)
    | JArr(items: seq<Json>)
    | JObj(fields: seq<(string, Json)>)

  /** Printing and reading JSON, and Python's str(). */
  datatype JsonText = JsonText(dumps: Json -> Bytes, loads: Bytes -> Option<Json>, str: Json -> string)

  function Pow2(n: nat): nat {
    if n == 0 then 1 else 2 * Pow2(n - 1)
  }

  /** mantissa * 2^exponent, in lowest terms, is a finite binary64 number of IEEE 754. */
  predicate IsDouble(mantissa: int, exponent: int) {
    if mantissa == 0 then exponent == 0
    else
      && mantissa % 2 == 1 && -MAX_MANTISSA < mantissa < MAX_MANTISSA && exponent >= -1074
      && (exponent > 971 ==> -MAX_MANTISSA < mantissa * Pow2(exponent - 971) < MAX_MANTISSA)
  }

  /** 2^53. */
  const MAX_MANTISSA := 0x20_0000_0000_0000

  /** What json.dumps can be handed and json.loads gives back: objects have distinct keys, and
      floats are finite. */
  ghost predicate Printable(v: Json) {
    match v
    case JFloat(m, e) => IsDouble(m, e)
    case JArr(items) => forall i | 0 <= i < |items| :: Printable(items[i])
    case JObj(fields) =>
      && (forall i | 0 <= i < |fields| :: Printable(fields[i].1))
      && forall i, j | 0 <= i < j < |fields| :: fields[i].0 != fields[j].0
    case _ => true
  }

  /** Text printed on one line reads back as the value it was printed from. */
  ghost predicate Faithful(t: JsonText) {
    && (forall v | Printable(v) :: t.loads(t.dumps(v) + [LF]) == Some(v))
    && (forall v, b | Printable(v) && b in t.dumps(v) :: b != LF)
    && (forall s :: t.str(JStr(s)) == s)
  }

  datatype Part = TextPart(text: Json) | ImagePart(url: Json, detail: Json)

  datatype Content = Plain(text: string) | Parts(parts: seq<Part>)

  datatype Message = Message(role: Json, content: Content)

  datatype Request = Request(id: Json, model: Json, messages: seq<Message>, maxTokens: Json, temperature: Json, topP: Json,
                             maxPromptTokens: Json, maxCompletionTokens: Json, maxTotalTokens: Json,
                             stop: seq<string>, stream: Json)

  datatype Command = Chat(request: Request) | Cancel(id: Json) | BenchmarkReset(id: Json, clearCache: bool, resetCounters: bool)

  ghost predicate PrintablePart(p: Part) {
    match p
    case TextPart(text) => Printable(text)
    case ImagePart(url, detail) => Printable(url) && Printable(detail)
  }

  ghost predicate PrintableMessage(m: Message) {
    Printable(m.role) && (m.content.Parts? ==> forall i | 0 <= i < |m.content.parts| :: PrintablePart(m.content.parts[i]))
  }

  /** The fields of a request that are not text already are values that can be printed. */
  ghost predicate PrintableRequest(r: Request) {
    && Printable(r.id) && Printable(r.model) && Printable(r.maxTokens) && Printable(r.temperature) && Printable(r.topP)
    && Printable(r.maxPromptTokens) && Printable(r.maxCompletionTokens) && Printable(r.maxTotalTokens) && Printable(r.stream)
    && forall i | 0 <= i < |r.messages| :: PrintableMessage(r.messages[i])
  }

  /** BadText is a JSON syntax error; the others are Python's KeyError, TypeError and AttributeError. */
  datatype DecodeError = BadText | MissingKey | WrongType | NoAttribute

  // --------------------------------------------------------------- encoding

  function EncodePart(p: Part): Json {
    match p
    case TextPart(text) => JObj([("type", JStr("text")), ("text", text)])
    case ImagePart(url, detail) =>
      JObj([("type", JStr("image_url")), ("image_url", JObj([("url", url), ("detail", detail)]))])
  }

  function EncodeParts(parts: seq<Part>): seq<Json> {
    if parts == [] then [] else EncodeParts(parts[..|parts| - 1]) + [EncodePart(parts[|parts| - 1])]
  }

  function EncodeContent(c: Content): Json {
    match c
    case Plain(text) => JStr(text)
    case Parts(parts) => JArr(EncodeParts(parts))
  }

  function EncodeMessages(ms: seq<Message>): seq<Json> {
    if ms == [] then []
    else
      var m := ms[|ms| - 1];
      EncodeMessages(ms[..|ms| - 1]) + [JObj([("role", m.role), ("content", EncodeContent(m.content))])]
  }

  function EncodeStops(stops: seq<string>): seq<Json> {
    if stops == [] then [] else EncodeStops(stops[..|stops| - 1]) + [JStr(stops[|stops| - 1])]
  }

  function EncodeBody(r: Request): Json {
    JObj([
      ("request_id", r.id),
      ("model", r.model),
      ("messages", JArr(EncodeMessages(r.messages))),
      ("max_tokens", r.maxTokens),
      ("temperature", r.temperature),
      ("top_p", r.topP),
      ("max_prompt_tokens", r.maxPromptTokens),
      ("max_completion_tokens", r.maxCompletionTokens),
      ("max_total_tokens_per_request", r.maxTotalTokens),
      ("stop", JArr(EncodeStops(r.stop))),
      ("stream", r.stream)])
  }

  function EncodeRequest(r: Request): Json {
    JObj([("type", JStr("chat_completion")), ("request", EncodeBody(r))])
  }

  function EncodeCommand(t: JsonText, r: Request): Bytes {
    t.dumps(EncodeRequest(r)) + [LF]
  }

  // --------------------------------------------------------------- decoding

  function Lookup(fields: seq<(string, Json)>, key: string): Option<Json> {
    if fields == [] then None
    else if fields[0].0 == key then Some(fields[0].1)
    else Lookup(fields[1..], key)
  }

  /** value[key] */
  function Item(v: Json, key: string): Result<Json, DecodeError> {
    if !v.JObj? then Err(WrongType)
    else
      var found := Lookup(v.fields, key);
      if found.None? then Err(MissingKey) else Ok(found.value)
  }

  /** value.get(key, default) */
  function Get(v: Json, key: string, default: Json): Result<Json, DecodeError> {
    if !v.JObj? then Err(NoAttribute)
    else
      var found := Lookup(v.fields, key);
      Ok(if found.None? then default else found.value)
  }

  function DecodePart(t: JsonText, item: Json): Result<Part, DecodeError> {
    var kind := Get(item, "type", JNull);
    if kind.Err? then Err(kind.error)
    else if kind.value == JStr("text") then
      var text := Item(item, "text");
      if text.Err? then Err(text.error) else Ok(TextPart(text.value))
    else if kind.value == JStr("image_url") then
      var data := Item(item, "image_url");
      if data.Err? then Err(data.error)
      else
        var url := Item(data.value, "url");
        if url.Err? then Err(url.error)
        else
          var detail := Get(data.value, "detail", JStr("auto"));
          if detail.Err? then Err(detail.error) else Ok(ImagePart(url.value, detail.value))
    else Ok(TextPart(JStr(t.str(item))))
  }

  function DecodeParts(t: JsonText, items: seq<Json>): Result<seq<Part>, DecodeError> {
    if items == [] then Ok([])
    else
      var before := DecodeParts(t, items[..|items| - 1]);
      if before.Err? then before
      else
        var p := DecodePart(t, items[|items| - 1]);
        if p.Err? then Err(p.error) else Ok(before.value + [p.value])
  }

  function DecodeContent(t: JsonText, raw: Json): Result<Content, DecodeError> {
    match raw
    case JStr(s) => Ok(Plain(s))
    case JArr(items) =>
      var parts := DecodeParts(t, items);
      if parts.Err? then Err(parts.error) else Ok(Parts(parts.value))
    case JObj(fields) => if fields == [] then Ok(Parts([])) else Err(NoAttribute)
    case _ => Err(WrongType)
  }

  function DecodeMessage(t: JsonText, m: Json): Result<Message, DecodeError> {
    var role := Item(m, "role");
    if role.Err? then Err(role.error)
    else
      var raw := Item(m, "content");
      if raw.Err? then Err(raw.error)
      else
        var content := DecodeContent(t, raw.value);
        if content.Err? then Err(content.error) else Ok(Message(role.value, content.value))
  }

  function DecodeMessages(t: JsonText, items: seq<Json>): Result<seq<Message>, DecodeError> {
    if items == [] then Ok([])
    else
      var before := DecodeMessages(t, items[..|items| - 1]);
      if before.Err? then before
      else
        var m := DecodeMessage(t, items[|items| - 1]);
        if m.Err? then Err(m.error) else Ok(before.value + [m.value])
  }

  /** The values a for loop over a decoded value goes through. */
  function Iterated(v: Json): Result<seq<Json>, DecodeError> {
    match v
    case JArr(items) => Ok(items)
    case JStr(s) => Ok(seq(|s|, i requires 0 <= i < |s| => JStr([s[i]])))
    case JObj(fields) => Ok(seq(|fields|, i requires 0 <= i < |fields| => JStr(fields[i].0)))
    case _ => Err(WrongType)
  }

  function Strings(t: JsonText, items: seq<Json>): seq<string> {
    if items == [] then [] else Strings(t, items[..|items| - 1]) + [t.str(items[|items| - 1])]
  }

  function DecodeRequest(t: JsonText, r: Json): Result<Request, DecodeError> {
    var id := Item(r, "request_id");
    if id.Err? then Err(id.error) else
    var model := Item(r, "model");
    if model.Err? then Err(model.error) else
    var list := Item(r, "messages");
    if list.Err? then Err(list.error) else
    var items := Iterated(list.value);
    if items.Err? then Err(items.error) else
    var messages := DecodeMessages(t, items.value);
    if messages.Err? then Err(messages.error) else
    var maxTokens := Item(r, "max_tokens");
    if maxTokens.Err? then Err(maxTokens.error) else
    var temperature := Item(r, "temperature");
    if temperature.Err? then Err(temperature.error) else
    var topP := Item(r, "top_p");
    if topP.Err? then Err(topP.error) else
    var maxPrompt := Item(r, "max_prompt_tokens");
    if maxPrompt.Err? then Err(maxPrompt.error) else
    var maxCompletion := Item(r, "max_completion_tokens");
    if maxCompletion.Err? then Err(maxCompletion.error) else
    var maxTotal := Item(r, "max_total_tokens_per_request");
    if maxTotal.Err? then Err(maxTotal.error) else
    var stop := Get(r, "stop", JArr([]));
    if stop.Err? then Err(stop.error) else
    var stops := Iterated(stop.value);
    if stops.Err? then Err(stops.error) else
    var stream := Get(r, "stream", JBool(false));
    if stream.Err? then Err(stream.error) else
    Ok(Request(id.value, model.value, messages.value, maxTokens.value, temperature.value, topP.value,
               maxPrompt.value, maxCompletion.value, maxTotal.value, Strings(t, stops.value), stream.value))
  }

  /** bool(value) */
  function Truth(v: Json): bool {
    match v
    case JNull => false
    case JBool(b) => b
    case JInt(n) => n != 0
    case JFloat(m, _) => m != 0
    case JStr(s) => s != ""
    case JArr(items) => items != []
    case JObj(fields) => fields != []
  }

  /** None is an unsupported command. */
  function DecodeValue(t: JsonText, payload: Json): Result<Option<Command>, DecodeError> {
    var kind := Get(payload, "type", JNull);
    if kind.Err? then Err(kind.error)
    else if kind.value == JStr("chat_completion") then
      var request := Item(payload, "request");
      if request.Err? then Err(request.error)
      else
        var r := DecodeRequest(t, request.value);
        if r.Err? then Err(r.error) else Ok(Some(Chat(r.value)))
    else if kind.value == JStr("cancel_request") then
      var id := Item(payload, "request_id");
      if id.Err? then Err(id.error) else Ok(Some(Cancel(id.value)))
    else if kind.value == JStr("benchmark_reset") then
      var id := Item(payload, "request_id");
      if id.Err? then Err(id.error)
      else
        var clear, reset := Get(payload, "clear_cache", JBool(true)), Get(payload, "reset_counters", JBool(true));
        if clear.Err? then Err(clear.error) else if reset.Err? then Err(reset.error)
        else Ok(Some(BenchmarkReset(id.value, Truth(clear.value), Truth(reset.value))))
    else Ok(None)
  }

  function DecodeCommand(t: JsonText, raw: Bytes): Result<Option<Command>, DecodeError> {
    var payload := t.loads(raw);
    if payload.None? then Err(BadText) else DecodeValue(t, payload.value)
  }

  /** The frame is the cancellation of the request with this id. */
  function IsMatchingCancel(t: JsonText): F.CancelTest {
    (raw, id) =>
      var payload := t.loads(raw);
      payload.Some? && payload.value.JObj?
      && Lookup(payload.value.fields, "type") == Some(JStr("cancel_request"))
      && Lookup(payload.value.fields, "request_id") == Some(JStr(id))
  }

  // ------------------------------------------------------------- the loops

  /** _encode_content's list, grown part by part. */
  method EncodePartList(parts: seq<Part>) returns (serialized: seq<Json>)
    ensures serialized == EncodeParts(parts)
  {
    serialized := [];
    for i := 0 to |parts|
      invariant serialized == EncodeParts(parts[..i])
    {
      assert parts[..i + 1][..i] == parts[..i];
      match parts[i]
      case TextPart(text) => serialized := serialized + [JObj([("type", JStr("text")), ("text", text)])];
      case ImagePart(url, detail) =>
        serialized := serialized + [JObj([("type", JStr("image_url")), ("image_url", JObj([("url", url), ("detail", detail)]))])];
    }
    assert parts[..|parts|] == parts;
  }

  /** _decode_content's list, grown item by item up to the first bad one. */
  method DecodePartList(t: JsonText, items: seq<Json>) returns (result: Result<seq<Part>, DecodeError>)
    ensures result == DecodeParts(t, items)
  {
    var parts: seq<Part> := [];
    for i := 0 to |items|
      invariant Ok(parts) == DecodeParts(t, items[..i])
    {
      assert items[..i + 1][..i] == items[..i];
      var part := DecodePart(t, items[i]);
      if part.Err? {
        DecodeStopsAtError(t, items, i + 1);
        return Err(part.error);
      }
      parts := parts + [part.value];
    }
    assert items[..|items|] == items;
    return Ok(parts);
  }

  lemma {:induction false} DecodeStopsAtError(t: JsonText, items: seq<Json>, n: nat)
    requires n <= |items| && DecodeParts(t, items[..n]).Err?
    ensures DecodeParts(t, items) == DecodeParts(t, items[..n])
    decreases |items|
  {
    if n == |items| {
      assert items[..n] == items;
    } else {
      assert items[..|items| - 1][..n] == items[..n];
      DecodeStopsAtError(t, items[..|items| - 1], n);
    }
  }

  // ------------------------------------------------------------- round trip

  lemma {:induction false} PartsRoundTrip(t: JsonText, parts: seq<Part>)
    ensures DecodeParts(t, EncodeParts(parts)) == Ok(parts)
  {
    if parts != [] {
      var before, last := parts[..|parts| - 1], parts[|parts| - 1];
      PartsRoundTrip(t, before);
      var items := EncodeParts(parts);
      assert items[..|items| - 1] == EncodeParts(before) && items[|items| - 1] == EncodePart(last);
      PartRoundTrip(t, last);
      assert parts == before + [last];
    }
  }

  lemma {:induction false} LookupAt(fields: seq<(string, Json)>, i: nat)
    requires i < |fields| && forall j | 0 <= j < i :: fields[j].0 != fields[i].0
    ensures Lookup(fields, fields[i].0) == Some(fields[i].1)
  {
    if i > 0 {
      LookupAt(fields[1..], i - 1);
    }
  }

  lemma PartRoundTrip(t: JsonText, p: Part)
    ensures DecodePart(t, EncodePart(p)) == Ok(p)
  {
    var v := EncodePart(p);
    LookupAt(v.fields, 0);
    LookupAt(v.fields, 1);
    if p.ImagePart? {
      var data := v.fields[1].1;
      LookupAt(data.fields, 0);
      LookupAt(data.fields, 1);
    }
  }

  lemma ContentRoundTrip(t: JsonText, c: Content)
    ensures DecodeContent(t, EncodeContent(c)) == Ok(c)
  {
    if c.Parts? {
      PartsRoundTrip(t, c.parts);
    }
  }

  lemma {:induction false} MessagesRoundTrip(t: JsonText, ms: seq<Message>)
    ensures DecodeMessages(t, EncodeMessages(ms)) == Ok(ms)
  {
    if ms != [] {
      var before, m := ms[..|ms| - 1], ms[|ms| - 1];
      MessagesRoundTrip(t, before);
      var items, last := EncodeMessages(ms), JObj([("role", m.role), ("content", EncodeContent(m.content))]);
      assert items[..|items| - 1] == EncodeMessages(before) && items[|items| - 1] == last;
      LookupAt(last.fields, 0);
      LookupAt(last.fields, 1);
      ContentRoundTrip(t, m.content);
      assert ms == before + [m];
    }
  }

  lemma {:induction false} StopsRoundTrip(t: JsonText, stops: seq<string>)
    requires forall s :: t.str(JStr(s)) == s
    ensures Strings(t, EncodeStops(stops)) == stops
  {
    if stops != [] {
      var before, items := stops[..|stops| - 1], EncodeStops(stops);
      StopsRoundTrip(t, before);
      assert items[..|items| - 1] == EncodeStops(before) && items[|items| - 1] == JStr(stops[|stops| - 1]);
      assert stops == before + [stops[|stops| - 1]];
    }
  }

  lemma BodyLookups(r: Request, i: nat)
    requires i < 11
    ensures var fields := EncodeBody(r).fields; Lookup(fields, fields[i].0) == Some(fields[i].1)
  {
    hide EncodeMessages, EncodeStops;
    LookupAt(EncodeBody(r).fields, i);
  }

  lemma BodyFields(r: Request)
    ensures EncodeBody(r).JObj?
    ensures var fields := EncodeBody(r).fields;
            && Lookup(fields, "request_id") == Some(r.id) && Lookup(fields, "model") == Some(r.model)
            && Lookup(fields, "messages") == Some(JArr(EncodeMessages(r.messages)))
            && Lookup(fields, "max_tokens") == Some(r.maxTokens) && Lookup(fields, "temperature") == Some(r.temperature)
            && Lookup(fields, "top_p") == Some(r.topP) && Lookup(fields, "max_prompt_tokens") == Some(r.maxPromptTokens)
            && Lookup(fields, "max_completion_tokens") == Some(r.maxCompletionTokens)
            && Lookup(fields, "max_total_tokens_per_request") == Some(r.maxTotalTokens)
            && Lookup(fields, "stop") == Some(JArr(EncodeStops(r.stop))) && Lookup(fields, "stream") == Some(r.stream)
  {
    hide Lookup, EncodeMessages, EncodeStops;
    BodyLookups(r, 0);
    BodyLookups(r, 1);
    BodyLookups(r, 2);
    BodyLookups(r, 3);
    BodyLookups(r, 4);
    BodyLookups(r, 5);
    BodyLookups(r, 6);
    BodyLookups(r, 7);
    BodyLookups(r, 8);
    BodyLookups(r, 9);
    BodyLookups(r, 10);
  }

  lemma RequestRoundTrip(t: JsonText, r: Request)
    requires forall s :: t.str(JStr(s)) == s
    ensures DecodeRequest(t, EncodeBody(r)) == Ok(r)
  {
    MessagesRoundTrip(t, r.messages);
    StopsRoundTrip(t, r.stop);
    BodyFields(r);
    hide EncodeBody, DecodeMessages, EncodeMessages, Strings, EncodeStops, Lookup;
  }

  lemma {:induction false} PartsArePrintable(parts: seq<Part>)
    requires forall i | 0 <= i < |parts| :: PrintablePart(parts[i])
    ensures forall i | 0 <= i < |EncodeParts(parts)| :: Printable(EncodeParts(parts)[i])
  {
    if parts != [] {
      var last := parts[|parts| - 1];
      PartsArePrintable(parts[..|parts| - 1]);
      assert Printable(EncodePart(last)) by {
        if last.ImagePart? {
          assert Printable(JObj([("url", last.url), ("detail", last.detail)]));
        }
      }
      hide Printable, EncodePart;
    }
  }

  lemma MessageIsPrintable(m: Message)
    requires PrintableMessage(m)
    ensures Printable(JObj([("role", m.role), ("content", EncodeContent(m.content))]))
  {
    if m.content.Parts? {
      PartsArePrintable(m.content.parts);
    }
    hide EncodeParts;
  }

  lemma {:induction false} MessagesArePrintable(ms: seq<Message>)
    requires forall i | 0 <= i < |ms| :: PrintableMessage(ms[i])
    ensures forall i | 0 <= i < |EncodeMessages(ms)| :: Printable(EncodeMessages(ms)[i])
  {
    hide Printable, PrintableMessage;
    if ms != [] {
      MessagesArePrintable(ms[..|ms| - 1]);
      MessageIsPrintable(ms[|ms| - 1]);
    }
  }

  lemma {:induction false} StopsArePrintable(stops: seq<string>)
    ensures forall i | 0 <= i < |EncodeStops(stops)| :: Printable(EncodeStops(stops)[i])
  {
    if stops != [] {
      StopsArePrintable(stops[..|stops| - 1]);
    }
  }

  lemma BodyKeysAreDistinct(r: Request, i: nat, j: nat)
    requires i < j < 11
    ensures EncodeBody(r).fields[i].0 != EncodeBody(r).fields[j].0
  {
    hide EncodeMessages, EncodeStops;
  }

  lemma BodyIsPrintable(r: Request)
    requires PrintableRequest(r)
    ensures Printable(EncodeBody(r))
  {
    MessagesArePrintable(r.messages);
    StopsArePrintable(r.stop);
    forall i, j | 0 <= i < j < |EncodeBody(r).fields| ensures EncodeBody(r).fields[i].0 != EncodeBody(r).fields[j].0 {
      BodyKeysAreDistinct(r, i, j);
    }
    hide EncodeMessages, EncodeStops;
    assert Printable(JArr(EncodeMessages(r.messages))) && Printable(JArr(EncodeStops(r.stop)));
    forall i | 0 <= i < |EncodeBody(r).fields| ensures Printable(EncodeBody(r).fields[i].1) {
      hide Printable;
    }
  }

  lemma RequestIsPrintable(r: Request)
    requires PrintableRequest(r)
    ensures Printable(EncodeRequest(r))
  {
    BodyIsPrintable(r);
    hide EncodeBody, PrintableRequest;
  }

  /** Every request is decoded as it was encoded. */
  lemma CommandRoundTrip(t: JsonText, r: Request)
    requires Faithful(t) && PrintableRequest(r)
    ensures DecodeCommand(t, EncodeCommand(t, r)) == Ok(Some(Chat(r)))
    ensures IsFrame(EncodeCommand(t, r))
    ensures forall id :: !IsMatchingCancel(t)(EncodeCommand(t, r), id)
  {
    var v := EncodeRequest(r);
    RequestIsPrintable(r);
    hide Printable, PrintableRequest;
    assert t.loads(t.dumps(v) + [LF]) == Some(v);
    RequestRoundTrip(t, r);
    LookupAt(v.fields, 0);
    LookupAt(v.fields, 1);
    var line := t.dumps(v) + [LF];
    forall j | 0 <= j < |line| - 1 ensures line[j] != LF {
      assert line[j] in t.dumps(v);
    }
    FindNewlineIs(line, |line| - 1);
  }

  // ------------------------------------------------ cancellations, resets, errors

  function EncodeCancel(t: JsonText, id: string): Bytes {
    t.dumps(JObj([("type", JStr("cancel_request")), ("request_id", JStr(id))])) + [LF]
  }

  /** Of distinct keys each field is found. */
  lemma {:induction false} LookupIn(fields: seq<(string, Json)>, key: string, value: Json)
    requires forall i, j | 0 <= i < j < |fields| :: fields[i].0 != fields[j].0
    ensures (key, value) in fields <==> Lookup(fields, key) == Some(value)
  {
    if fields != [] {
      LookupIn(fields[1..], key, value);
    }
  }

  /** A frame is the cancellation of a request if and only if it reads as an object that says so:
      of this type, and with this id. */
  lemma MatchesIff(t: JsonText, raw: Bytes, id: string)
    requires t.loads(raw).Some? ==> Printable(t.loads(raw).value)
    ensures IsMatchingCancel(t)(raw, id) <==>
              match t.loads(raw)
              case Some(JObj(fields)) => ("type", JStr("cancel_request")) in fields && ("request_id", JStr(id)) in fields
              case _ => false
  {
    if t.loads(raw).Some? && t.loads(raw).value.JObj? {
      var fields := t.loads(raw).value.fields;
      LookupIn(fields, "type", JStr("cancel_request"));
      LookupIn(fields, "request_id", JStr(id));
    }
  }

  /** An encoded cancellation is one line, decodes to the cancellation of its id, and is taken for
      that of its own id and of no other. */
  lemma CancelRoundTrip(t: JsonText, id: string)
    requires Faithful(t)
    ensures IsFrame(EncodeCancel(t, id))
    ensures DecodeCommand(t, EncodeCancel(t, id)) == Ok(Some(Cancel(JStr(id))))
    ensures forall other :: IsMatchingCancel(t)(EncodeCancel(t, id), other) <==> other == id
  {
    var v := JObj([("type", JStr("cancel_request")), ("request_id", JStr(id))]);
    assert Printable(v);
    assert t.loads(EncodeCancel(t, id)) == Some(v);
    LookupAt(v.fields, 0);
    LookupAt(v.fields, 1);
    PrintedIsFrame(t, v);
  }

  lemma PrintedIsFrame(t: JsonText, v: Json)
    requires Faithful(t) && Printable(v)
    ensures IsFrame(t.dumps(v) + [LF])
  {
    hide Printable;
    var line := t.dumps(v) + [LF];
    forall j | 0 <= j < |line| - 1 ensures line[j] != LF {
      assert line[j] in t.dumps(v);
    }
    FindNewlineIs(line, |line| - 1);
  }

  /** What a command decodes to that is not a request: a cancellation or a reset needs an id, the
      flags of a reset default to true, and a command of any other type is ignored. */
  lemma OtherCommands(t: JsonText, fields: seq<(string, Json)>, kind: string)
    requires Printable(JObj(fields)) && ("type", JStr(kind)) in fields && kind != "chat_completion"
    ensures var result := DecodeValue(t, JObj(fields));
            && (kind !in {"cancel_request", "benchmark_reset"} ==> result == Ok(None))
            && (kind in {"cancel_request", "benchmark_reset"} && (forall v :: ("request_id", v) !in fields) ==> result == Err(MissingKey))
            && (forall id | ("request_id", id) in fields ::
                  && (kind == "cancel_request" ==> result == Ok(Some(Cancel(id))))
                  && (kind == "benchmark_reset" ==> result == Ok(Some(BenchmarkReset(id, Flag(fields, "clear_cache"), Flag(fields, "reset_counters"))))))
  {
    hide Printable;
    assert DistinctFields(fields) by { FieldsAreDistinct(fields); }
    LookupIn(fields, "type", JStr(kind));
    forall v, key ensures (key, v) in fields <==> Lookup(fields, key) == Some(v) {
      LookupIn(fields, key, v);
    }
    assert Lookup(fields, "request_id").Some? ==> ("request_id", Lookup(fields, "request_id").value) in fields;
    FlagIs(fields, "clear_cache");
    FlagIs(fields, "reset_counters");
    hide Lookup, Truth;
  }

  ghost predicate DistinctFields(fields: seq<(string, Json)>) {
    forall i, j | 0 <= i < j < |fields| :: fields[i].0 != fields[j].0
  }

  lemma FieldsAreDistinct(fields: seq<(string, Json)>)
    requires Printable(JObj(fields))
    ensures DistinctFields(fields)
  {
  }

  /** A flag is false only when it was given a value Python takes for false. */
  ghost predicate Flag(fields: seq<(string, Json)>, key: string) {
    forall v | (key, v) in fields :: v !in {JNull, JBool(false), JInt(0), JStr(""), JArr([]), JObj([])} && !(v.JFloat? && v.mantissa == 0)
  }

  lemma FlagIs(fields: seq<(string, Json)>, key: string)
    requires DistinctFields(fields)
    ensures Flag(fields, key) <==> Truth(Get(JObj(fields), key, JBool(true)).value)
  {
    forall v ensures (key, v) in fields <==> Lookup(fields, key) == Some(v) {
      LookupIn(fields, key, v);
    }
    hide Lookup;
    assert Lookup(fields, key).Some? ==> (key, Lookup(fields, key).value) in fields;
  }

  lemma {:induction false} NotFound(fields: seq<(string, Json)>, key: string)
    requires forall i | 0 <= i < |fields| :: fields[i].0 != key
    ensures Lookup(fields, key) == None
  {
    if fields != [] {
      NotFound(fields[1..], key);
    }
  }

  /** Only stop and stream may be missing from a request. */
  lemma MissingFieldIsAnError(t: JsonText, fields: seq<(string, Json)>, key: string)
    requires key in {"request_id", "model", "messages", "max_tokens", "temperature", "top_p", "max_prompt_tokens",
                     "max_completion_tokens", "max_total_tokens_per_request"}
    requires forall i | 0 <= i < |fields| :: fields[i].0 != key
    ensures DecodeRequest(t, JObj(fields)).Err?
  {
    NotFound(fields, key);
    hide Lookup, DecodeMessages, Iterated, Strings;
    assert Item(JObj(fields), key).Err?;
  }

  lemma ShortBodyFields(r: Request)
    ensures EncodeBody(r).JObj? && |EncodeBody(r).fields| >= 9
    ensures var fields := EncodeBody(r).fields[..9];
            && Lookup(fields, "stop") == None && Lookup(fields, "stream") == None
            && forall i | 0 <= i < 9 :: Lookup(fields, EncodeBody(r).fields[i].0) == Lookup(EncodeBody(r).fields, EncodeBody(r).fields[i].0)
  {
    hide EncodeMessages, EncodeStops;
    var all, fields := EncodeBody(r).fields, EncodeBody(r).fields[..9];
    forall i | 0 <= i < 9 ensures Lookup(fields, all[i].0) == Lookup(all, all[i].0) {
      LookupAt(fields, i);
      LookupAt(all, i);
    }
    NotFound(fields, "stop");
    NotFound(fields, "stream");
  }

  lemma BodyKeys(r: Request)
    ensures EncodeBody(r).JObj? && |EncodeBody(r).fields| >= 9
    ensures var f := EncodeBody(r).fields;
            && f[0].0 == "request_id" && f[1].0 == "model" && f[2].0 == "messages" && f[3].0 == "max_tokens"
            && f[4].0 == "temperature" && f[5].0 == "top_p" && f[6].0 == "max_prompt_tokens"
            && f[7].0 == "max_completion_tokens" && f[8].0 == "max_total_tokens_per_request"
  {
  }

  /** A request without them has no stop texts and does not stream. */
  lemma OptionalFieldsDefault(t: JsonText, r: Request)
    ensures DecodeRequest(t, JObj(EncodeBody(r).fields[..9])) == Ok(r.(stop := [], stream := JBool(false)))
  {
    MessagesRoundTrip(t, r.messages);
    BodyFields(r);
    BodyKeys(r);
    ShortBodyFields(r);
    hide EncodeBody, DecodeMessages, EncodeMessages, EncodeStops, Lookup;
  }

  /** An image without a detail is for the detail "auto", and a part of any other type is taken
      for its own text. */
  lemma PartDefaults(t: JsonText, url: Json, item: Json)
    ensures DecodePart(t, JObj([("type", JStr("image_url")), ("image_url", JObj([("url", url)]))])) == Ok(ImagePart(url, JStr("auto")))
    ensures item.JObj? && DistinctFields(item.fields) && ("type", JStr("text")) !in item.fields && ("type", JStr("image_url")) !in item.fields ==>
              DecodePart(t, item) == Ok(TextPart(JStr(t.str(item))))
  {
    var data := [("url", url)];
    var v := [("type", JStr("image_url")), ("image_url", JObj(data))];
    LookupAt(v, 0);
    LookupAt(v, 1);
    LookupAt(data, 0);
    NotFound(data, "detail");
    if item.JObj? && DistinctFields(item.fields) {
      LookupIn(item.fields, "type", JStr("text"));
      LookupIn(item.fields, "type", JStr("image_url"));
    }
    hide Lookup;
  }

  /** Content that is neither text nor a list of parts: an empty object has no parts, any other
      object or a value of another kind is an error. */
  lemma OddContent(t: JsonText, raw: Json)
    requires !raw.JStr? && !raw.JArr?
    ensures DecodeContent(t, raw) == if raw == JObj([]) then Ok(Parts([])) else Err(if raw.JObj? then NoAttribute else WrongType)
  {
  }

  /** A line that is not JSON text is an error, and nobody's cancellation. */
  lemma BadTextIsAnError(t: JsonText, raw: Bytes)
    requires t.loads(raw).None?
    ensures DecodeCommand(t, raw) == Err(BadText) && forall id :: !IsMatchingCancel(t)(raw, id)
  {
  }

  /** The cancellation of a running request reaches it through whatever was sent before: with the
      socket ready and polls enough, the request is cancelled, and the requests sent before the
      cancellation wait in order for the command loop. */
  lemma CancelReachesTheRequest(t: JsonText, s: F.State, rs: seq<Request>, id: string, more: seq<Bytes>, ready: seq<bool>)
    requires Faithful(t) && forall i | 0 <= i < |rs| :: PrintableRequest(rs[i])
    requires Frames(F.Unread(s)) == EncodeAll(t, rs) + [EncodeCancel(t, id)] + more
    requires (forall i | 0 <= i < |ready| :: ready[i]) && |ready| > |rs| + |s.incoming|
    ensures var s' := F.Polls(s, id, ready, IsMatchingCancel(t));
            && s'.taken != [] && s'.taken[|s'.taken| - 1] == F.Taken(EncodeCancel(t, id), Some(id))
            && s'.pendingLines == s.pendingLines + EncodeAll(t, rs)
  {
    hide EncodeCancel, EncodeCommand, Faithful, IsMatchingCancel, Frames, F.Polls, PrintableRequest, DecodeCommand;
    var lines := Frames(F.Unread(s));
    CancelRoundTrip(t, id);
    assert lines[|rs|] == EncodeCancel(t, id);
    forall j | 0 <= j < |rs| ensures !IsMatchingCancel(t)(lines[j], id) {
      EncodedFrames(t, rs, j);
      assert lines[j] == EncodeAll(t, rs)[j];
    }
    assert lines[..|rs|] == EncodeAll(t, rs);
    F.CancelIsSeen(s, id, ready, IsMatchingCancel(t), |rs|);
  }

  // ------------------------------------------------------- over the socket

  function EncodeAll(t: JsonText, rs: seq<Request>): seq<Bytes> {
    seq(|rs|, i requires 0 <= i < |rs| => EncodeCommand(t, rs[i]))
  }

  lemma {:induction false} NothingConsumed(taken: seq<F.Taken>)
    requires forall u <- taken :: u.consumedFor.None?
    ensures F.Kept(taken) == F.FramesOf(taken)
  {
    if taken != [] {
      NothingConsumed(taken[..|taken| - 1]);
      assert F.FramesOf(taken) == F.FramesOf(taken[..|taken| - 1]) + [taken[|taken| - 1].frame];
    }
  }

  lemma EncodedFrames(t: JsonText, rs: seq<Request>, i: nat)
    requires Faithful(t) && i < |rs| && forall k | 0 <= k < |rs| :: PrintableRequest(rs[k])
    ensures var f := EncodeAll(t, rs)[i];
            DecodeCommand(t, f) == Ok(Some(Chat(rs[i]))) && IsFrame(f) && forall id :: !IsMatchingCancel(t)(f, id)
  {
    CommandRoundTrip(t, rs[i]);
  }

  /** Requests encoded one after the other and sent in any chunks, to a worker that polls for
      cancellations in any pattern, are processed as exactly those requests in that order, and
      then the worker's loop ends. */
  lemma RequestsSurviveTheWire(t: JsonText, rs: seq<Request>, chunks: seq<Bytes>, n: nat, schedule: F.Schedule)
    requires Faithful(t) && forall i | 0 <= i < |rs| :: PrintableRequest(rs[i])
    requires Concat(chunks) == Concat(EncodeAll(t, rs)) && n > |rs|
    ensures var (s, running) := F.Loop(F.Initial(chunks), n, schedule, IsMatchingCancel(t));
            && !running && |s.processed| == |rs|
            && forall i | 0 <= i < |rs| :: DecodeCommand(t, s.processed[i]) == Ok(Some(Chat(rs[i])))
  {
    hide EncodeCommand, DecodeCommand, IsMatchingCancel, F.Loop, Concat, Faithful, PrintableRequest, Frames, F.Kept;
    var input, frames, isCancel := Concat(chunks), EncodeAll(t, rs), IsMatchingCancel(t);
    var s := F.Loop(F.Initial(chunks), n, schedule, isCancel).0;
    forall i | 0 <= i < |rs|
      ensures DecodeCommand(t, frames[i]) == Ok(Some(Chat(rs[i]))) && IsFrame(frames[i]) && forall id :: !isCancel(frames[i], id)
    {
      EncodedFrames(t, rs, i);
    }
    assert input + [] == input;
    FramesOfConcat(frames, []);
    F.LoopEnds(chunks, n, schedule, isCancel);
    F.NoFrameIsLost(chunks, n, schedule, isCancel);
    assert F.FramesOf(s.taken) == frames;
    forall u | u in s.taken ensures u.consumedFor.None? {
      var i :| 0 <= i < |s.taken| && s.taken[i] == u;
      assert F.FramesOf(s.taken)[i] == u.frame == frames[i];
    }
    NothingConsumed(s.taken);
  }
}

/**
  The durable form of one provider step: canonical blocks, their validation, the bounded
  encoding that is stored, the strict decoder and the envelope rebuilt from the record.
 */
module ProviderCodec {
  import opened Common

  datatype Json =
    | Null
    | Bool(b: bool)
    | Int(n: int)
    | Fraction(digits: string)
    | Str(s: string)
    | Arr(items: seq<Json>)
    | Obj(fields: map<string, Json>)

  /** JSON printing and parsing, as the serializer provides them. */
  datatype JsonText = JsonText(parse: string -> Option<Json>, render: Json -> string)

  function Get(v: Json, key: string): Option<Json> {
    if v.Obj? && key in v.fields then Some(v.fields[key]) else None
  }

  function AsStr(v: Option<Json>): Option<string> {
    if v.Some? && v.value.Str? then Some(v.value.s) else None
  }

  function AsBool(v: Option<Json>): Option<bool> {
    if v.Some? && v.value.Bool? then Some(v.value.b) else None
  }

  const U64_MAX: int := 0xFFFF_FFFF_FFFF_FFFF

  function AsU64(v: Option<Json>): Option<nat> {
    if v.Some? && v.value.Int? && 0 <= v.value.n <= U64_MAX then Some(v.value.n) else None
  }

  function OrElse<T>(a: Option<T>, b: Option<T>): Option<T> { if a.Some? then a else b }

  function OrEmpty(a: Option<string>): string { if a.Some? then a.value else "" }

  const MAX_TEXT_CHARS: nat := 65_536

  /** Bytes of a character, and of a string, in UTF-8. */
  function CharBytes(c: char): nat {
    if c as int < 0x80 then 1 else if c as int < 0x800 then 2 else if c as int < 0x1_0000 then 3 else 4
  }

  function Utf8Length(s: string): (n: nat)
    ensures n >= |s|
  {
    if s == [] then 0 else CharBytes(s[0]) + Utf8Length(s[1..])
  }

  /** The first `max` characters, and whether anything was cut. */
  function Truncate(s: string, max: nat): (string, bool) {
    if |s| > max then (s[..max], true) else (s, false)
  }

  datatype Block = Block(
    kind: string,
    text: Option<string>,
    toolCallId: Option<string>,
    name: Option<string>,
    argumentsJson: Option<string>,
    arguments: Option<Json>,
    content: Option<string>,
    isError: Option<bool>,
    result: Option<Json>,
    error: Option<Json>,
    artifact: Option<Json>,
    truncated: Option<bool>)

  function TextBlock(text: string, truncated: Option<bool>): Block {
    Block("text", Some(text), None, None, None, None, None, None, None, None, None, truncated)
  }

  datatype Reason =
    | ContentNotArray
    | BlockNotObject
    | BlockEmpty
    | TypeMissing
    | TextNotString
    | IdOrNameMissing
    | ArgumentsTruncated
    | ArgumentsNotString
    | ArgumentsNotJson
    | ArgumentsNotObject
    | ArgumentsMissing
    | TypeUnknown
    | TextTooLong
    | ArgumentsTooLong
    | MalformedResponse

  // ----- Strict decoding -----

  function StrictArguments(j: JsonText, v: Json): Result<string, Reason> {
    var raw := Get(v, "arguments_json");
    var arguments := Get(v, "arguments");
    if raw.Some? then
      if !raw.value.Str? then Err(ArgumentsNotString)
      else
        var parsed := j.parse(raw.value.s);
        if parsed.None? then Err(ArgumentsNotJson)
        else if !parsed.value.Obj? then Err(ArgumentsNotObject)
        else Ok(raw.value.s)
    else if arguments.Some? then
      if !arguments.value.Obj? then Err(ArgumentsNotObject) else Ok(j.render(arguments.value))
    else Err(ArgumentsMissing)
  }

  function DecodeBlockStrict(j: JsonText, v: Json): Result<Block, Reason> {
    if !v.Obj? then Err(BlockNotObject)
    else if v.fields == map[] then Err(BlockEmpty)
    else
      var kind := AsStr(Get(v, "type"));
      if kind.None? then Err(TypeMissing)
      else if kind.value == "text" then
        var text := AsStr(Get(v, "text"));
        if text.None? then Err(TextNotString) else Ok(TextBlock(text.value, AsBool(Get(v, "truncated"))))
      else if kind.value == "tool_call" then
        var id := OrEmpty(AsStr(OrElse(Get(v, "tool_call_id"), Get(v, "id"))));
        var name := OrEmpty(AsStr(Get(v, "name")));
        if id == "" || name == "" then Err(IdOrNameMissing)
        else if AsBool(Get(v, "truncated")) == Some(true) then Err(ArgumentsTruncated)
        else
          var args :- StrictArguments(j, v);
          Ok(Block("tool_call", None, Some(id), Some(name), Some(args), None, None, None, None, None, None,
                   AsBool(Get(v, "truncated"))))
      else Err(TypeUnknown)
  }

  function DecodeAllStrict(j: JsonText, items: seq<Json>): (r: Result<seq<Block>, Reason>)
    ensures r.Ok? ==> |r.value| == |items|
  {
    if items == [] then Ok([])
    else
      var before :- DecodeAllStrict(j, items[..|items| - 1]);
      var last :- DecodeBlockStrict(j, items[|items| - 1]);
      Ok(before + [last])
  }

  function DecodeStrict(j: JsonText, content: Json): Result<seq<Block>, Reason> {
    if content.Arr? then DecodeAllStrict(j, content.items) else Err(ContentNotArray)
  }

  method DecodeProviderBlocksStrict(j: JsonText, content: Json) returns (r: Result<seq<Block>, Reason>)
    ensures r == DecodeStrict(j, content)
  {
    if !content.Arr? {
      return Err(ContentNotArray);
    }
    hide DecodeBlockStrict;
    var items := content.items;
    var blocks: seq<Block> := [];
    for i := 0 to |items|
      invariant DecodeAllStrict(j, items[..i]) == Ok(blocks)
    {
      assert items[..i + 1][..i] == items[..i];
      var decoded := DecodeBlockStrict(j, items[i]);
      if decoded.Err? {
        DecodeFailureStays(j, items, i + 1);
        return Err(decoded.error);
      }
      blocks := blocks + [decoded.value];
    }
    assert items[..|items|] == items;
    return Ok(blocks);
  }

  lemma {:induction false} DecodeFailureStays(j: JsonText, items: seq<Json>, k: nat)
    requires k <= |items| && DecodeAllStrict(j, items[..k]).Err?
    ensures DecodeAllStrict(j, items) == DecodeAllStrict(j, items[..k])
    decreases |items|
  {
    if k == |items| {
      assert items[..k] == items;
    } else {
      assert items[..|items| - 1][..k] == items[..k];
      DecodeFailureStays(j, items[..|items| - 1], k);
    }
  }

  // ----- Validation -----

  /** The durable bounds on one block. */
  function ValidateBlock(j: JsonText, b: Block): Option<Reason> {
    if b.text.Some? && |b.text.value| > MAX_TEXT_CHARS then Some(TextTooLong)
    else if b.kind != "tool_call" then None
    else if OrEmpty(b.toolCallId) == "" || OrEmpty(b.name) == "" then Some(IdOrNameMissing)
    else if b.truncated == Some(true) then Some(ArgumentsTruncated)
    else if b.argumentsJson.None? then Some(ArgumentsMissing)
    else if Utf8Length(b.argumentsJson.value) > MAX_TEXT_CHARS then Some(ArgumentsTooLong)
    else
      var parsed := j.parse(b.argumentsJson.value);
      if parsed.None? then Some(ArgumentsNotJson)
      else if !parsed.value.Obj? then Some(ArgumentsNotObject)
      else None
  }

  /** The first refusal in a list of blocks. */
  function Validate(j: JsonText, bs: seq<Block>): Option<Reason> {
    if bs == [] then None
    else if ValidateBlock(j, bs[0]).Some? then ValidateBlock(j, bs[0])
    else Validate(j, bs[1..])
  }

  method ValidateProviderBlocks(j: JsonText, bs: seq<Block>) returns (r: Option<Reason>)
    ensures r == Validate(j, bs)
    ensures r.None? <==> forall i :: 0 <= i < |bs| ==> ValidateBlock(j, bs[i]).None?
  {
    for i := 0 to |bs|
      invariant Validate(j, bs) == Validate(j, bs[i..])
      invariant forall k :: 0 <= k < i ==> ValidateBlock(j, bs[k]).None?
    {
      var refusal := ValidateBlock(j, bs[i]);
      if refusal.Some? {
        return refusal;
      }
    }
    return None;
  }

  lemma {:induction false} ValidateAll(j: JsonText, bs: seq<Block>)
    ensures Validate(j, bs).None? <==> forall i :: 0 <= i < |bs| ==> ValidateBlock(j, bs[i]).None?
    decreases |bs|
  {
    if bs != [] {
      ValidateAll(j, bs[1..]);
      assert forall i :: 0 < i < |bs| ==> bs[i] == bs[1..][i - 1];
    }
  }

  // ----- Bounded encoding -----

  function BoundText(t: Option<string>): (Option<string>, bool) {
    if t.None? then (None, false)
    else
      var (kept, cut) := Truncate(t.value, MAX_TEXT_CHARS);
      (Some(kept), cut)
  }

  /** Oversized structured values are replaced by a note of their size. */
  function BoundStructured(j: JsonText, v: Option<Json>, keepCode: bool): (Option<Json>, bool) {
    if v.None? then (None, false)
    else
      var size := Utf8Length(j.render(v.value));
      if size <= MAX_TEXT_CHARS then (v, false)
      else
        var note := map["truncated" := Bool(true), "redacted" := Bool(true), "original_bytes" := Int(size)];
        var code := Get(v.value, "code");
        (Some(Obj(if keepCode && code.Some? then note["code" := code.value] else note)), true)
  }

  function FirstArtifact(v: Option<Json>): Option<Json> {
    if v.Some? && v.value.Arr? then (if v.value.items == [] then None else Some(v.value.items[0])) else v
  }

  function BoundBlock(j: JsonText, b: Block): Block {
    var (text, cutText) := BoundText(b.text);
    var (content, cutContent) := BoundText(b.content);
    var printed := if b.argumentsJson.Some? then b.argumentsJson
                   else if b.arguments.Some? then Some(j.render(b.arguments.value)) else None;
    var (args, cutArgs) := BoundText(printed);
    var (result, cutResult) := BoundStructured(j, b.result, false);
    var (error, cutError) := BoundStructured(j, b.error, true);
    var cut := b.truncated == Some(true) || cutText || cutContent || cutArgs || cutResult || cutError;
    Block(b.kind, text, b.toolCallId, b.name, args, None, content, b.isError, result, error,
          FirstArtifact(b.artifact), if cut then Some(true) else None)
  }

  function Field(key: string, v: Option<Json>): map<string, Json> {
    if v.Some? then map[key := v.value] else map[]
  }

  function StrField(key: string, v: Option<string>): map<string, Json> {
    if v.Some? then map[key := Str(v.value)] else map[]
  }

  function BoolField(key: string, v: Option<bool>): map<string, Json> {
    if v.Some? then map[key := Bool(v.value)] else map[]
  }

  /** Serialization: absent fields are left out. */
  function ToJson(b: Block): Json {
    Obj(map["type" := Str(b.kind)] + StrField("text", b.text) + StrField("tool_call_id", b.toolCallId)
        + StrField("name", b.name) + StrField("arguments_json", b.argumentsJson) + Field("arguments", b.arguments)
        + StrField("content", b.content) + BoolField("is_error", b.isError) + Field("result", b.result)
        + Field("error", b.error) + Field("artifact", b.artifact) + BoolField("truncated", b.truncated))
  }

  function Encode(j: JsonText, bs: seq<Block>): Json {
    Arr(seq(|bs|, i requires 0 <= i < |bs| => ToJson(BoundBlock(j, bs[i]))))
  }

  // ----- Canonical step of a provider response -----

  function ToolCallBlock(j: JsonText, call: Json): Block {
    var raw := AsStr(Get(call, "arguments_json"));
    var given := Get(call, "arguments");
    var args := if raw.Some? then raw else if given.Some? then Some(j.render(given.value)) else None;
    Block("tool_call", None, AsStr(OrElse(Get(call, "id"), Get(call, "tool_call_id"))), AsStr(Get(call, "name")), args,
          OrElse(given, if args.Some? then j.parse(args.value) else None), None, None, None, None, None,
          AsBool(Get(call, "truncated")))
  }

  function ToolCallBlocks(j: JsonText, calls: seq<Json>): seq<Block> {
    seq(|calls|, i requires 0 <= i < |calls| => ToolCallBlock(j, calls[i]))
  }

  function Items(v: Option<Json>): seq<Json> { if v.Some? && v.value.Arr? then v.value.items else [] }

  predicate HasToolCall(bs: seq<Block>) { exists i :: 0 <= i < |bs| && bs[i].kind == "tool_call" }

  /** Blocks from `content`, else from `text`; calls from `tool_calls` when no block is one. */
  function CanonicalBlocks(j: JsonText, response: Json): Result<seq<Block>, Reason> {
    var content := Get(response, "content");
    var text := OrEmpty(AsStr(Get(response, "text")));
    var given :- if content.Some? then DecodeStrict(j, content.value) else Ok([]);
    var worded := if given == [] && text != "" then [TextBlock(text, None)] else given;
    var called := if HasToolCall(worded) then worded else worded + ToolCallBlocks(j, Items(Get(response, "tool_calls")));
    Ok(if called == [] then [TextBlock(text, None)] else called)
  }

  datatype Usage = Usage(input: nat, output: nat, total: nat)

  datatype CanonicalStep = CanonicalStep(
    blocks: seq<Block>,
    usage: Option<Usage>,
    finish: Option<string>,
    model: Option<string>,
    provider: Option<string>,
    truncated: Option<bool>,
    reasoning: Option<Json>)

  function OrZero(v: Option<nat>): nat { if v.Some? then v.value else 0 }

  function ParseUsage(v: Json): Option<Usage> {
    if !v.Obj? then None
    else Some(Usage(OrZero(AsU64(Get(v, "input_tokens"))), OrZero(AsU64(Get(v, "output_tokens"))),
                    OrZero(AsU64(Get(v, "total_tokens")))))
  }

  function NonEmpty(v: Option<string>): Option<string> { if v == Some("") then None else v }

  function Reasoning(response: Json): Option<Json> {
    var v := Get(response, "reasoning");
    if v == Some(Null) || v == Some(Str("")) then None else v
  }

  function FinishField(response: Json): Option<Json> {
    OrElse(Get(response, "stop_reason"), Get(response, "finish_reason"))
  }

  function StepOf(response: Json, request: Json, blocks: seq<Block>): CanonicalStep {
    var usage := Get(response, "usage");
    CanonicalStep(blocks, if usage.Some? then ParseUsage(usage.value) else None, AsStr(FinishField(response)),
                  NonEmpty(AsStr(OrElse(Get(response, "model"), Get(request, "model")))),
                  NonEmpty(AsStr(OrElse(Get(response, "provider"), Get(request, "provider")))),
                  AsBool(Get(response, "truncated")), Reasoning(response))
  }

  predicate UsageShaped(usage: Json) {
    usage.Obj? &&
    forall key :: key in ["input_tokens", "output_tokens", "total_tokens"] ==>
      var v := Get(usage, key); v.None? || v == Some(Null) || AsU64(v).Some?
  }

  /** Type checks on the envelope before the response is taken apart. */
  predicate ResponseShaped(response: Json) {
    && response.Obj?
    && (var f := FinishField(response); f.None? || f.value.Str? || f.value.Null?)
    && (var u := Get(response, "usage"); u.None? || UsageShaped(u.value))
    && (var c := Get(response, "tool_calls"); c.None? || c.value.Arr? || c.value.Null?)
  }

  function CanonicalFromEnvelope(j: JsonText, envelope: Json, request: Json): Result<CanonicalStep, Reason> {
    var response := Get(envelope, "response");
    if response.None? || !ResponseShaped(response.value) then Err(MalformedResponse)
    else
      var blocks :- CanonicalBlocks(j, response.value);
      Ok(StepOf(response.value, request, blocks))
  }

  method AppendToolCalls(j: JsonText, worded: seq<Block>, calls: seq<Json>) returns (blocks: seq<Block>)
    ensures blocks == worded + ToolCallBlocks(j, calls)
  {
    hide ToolCallBlock;
    blocks := worded;
    for i := 0 to |calls|
      invariant blocks == worded + ToolCallBlocks(j, calls)[..i]
    {
      blocks := blocks + [ToolCallBlock(j, calls[i])];
    }
    assert ToolCallBlocks(j, calls)[..|calls|] == ToolCallBlocks(j, calls);
  }

  method CanonicalProviderStep(j: JsonText, response: Json, request: Json) returns (r: Result<CanonicalStep, Reason>)
    ensures var blocks := CanonicalBlocks(j, response);
            r == if blocks.Ok? then Ok(StepOf(response, request, blocks.value)) else Err(blocks.error)
  {
    var blocks: seq<Block> := [];
    var content := Get(response, "content");
    if content.Some? {
      blocks :- DecodeProviderBlocksStrict(j, content.value);
    }
    var text := OrEmpty(AsStr(Get(response, "text")));
    if blocks == [] && text != "" {
      blocks := [TextBlock(text, None)];
    }
    if !HasToolCall(blocks) {
      blocks := AppendToolCalls(j, blocks, Items(Get(response, "tool_calls")));
    }
    if blocks == [] {
      blocks := [TextBlock(text, None)];
    }
    return Ok(StepOf(response, request, blocks));
  }

  // ----- Rebuilding the envelope -----

  function ToolCallJson(j: JsonText, b: Block): Json
    requires b.argumentsJson.Some? && j.parse(b.argumentsJson.value).Some?
  {
    Obj(map["id" := Str(OrEmpty(b.toolCallId)), "name" := Str(OrEmpty(b.name)),
            "arguments" := j.parse(b.argumentsJson.value).value, "arguments_json" := Str(b.argumentsJson.value)])
  }

  /** Text of all text blocks, in order. */
  function TextOf(bs: seq<Block>): string {
    if bs == [] then ""
    else
      var b := bs[|bs| - 1];
      TextOf(bs[..|bs| - 1]) + (if b.kind == "text" then OrEmpty(b.text) else "")
  }

  datatype ToolCall = ToolCall(id: string, name: string, argumentsJson: string)

  /** All tool calls, in order. */
  function CallsOf(bs: seq<Block>): seq<ToolCall> {
    if bs == [] then []
    else
      var b := bs[|bs| - 1];
      CallsOf(bs[..|bs| - 1])
      + (if b.kind == "tool_call" then [ToolCall(OrEmpty(b.toolCallId), OrEmpty(b.name), OrEmpty(b.argumentsJson))] else [])
  }

  function CallJson(j: JsonText, c: ToolCall): Json {
    var parsed := j.parse(c.argumentsJson);
    Obj(map["id" := Str(c.id), "name" := Str(c.name),
            "arguments" := if parsed.Some? then parsed.value else Null, "arguments_json" := Str(c.argumentsJson)])
  }

  function CallsJson(j: JsonText, cs: seq<ToolCall>): Json {
    Arr(seq(|cs|, i requires 0 <= i < |cs| => CallJson(j, cs[i])))
  }

  function NotEmptyString(v: Option<Json>): Option<Json> { if v == Some(Str("")) then None else v }

  /** The fields kept from the metadata beside the content. */
  function KeptFields(metadata: Json): map<string, Json> {
    Field("usage", Get(metadata, "usage")) + Field("model", NotEmptyString(Get(metadata, "model")))
    + Field("provider", NotEmptyString(Get(metadata, "provider")))
    + Field("truncated", Get(metadata, "truncated")) + Field("reasoning", Get(metadata, "reasoning"))
  }

  function FinishFields(finish: Option<string>): map<string, Json> {
    StrField("stop_reason", finish) + StrField("finish_reason", finish)
  }

  function MetadataFields(metadata: Json, finish: Option<string>): map<string, Json> {
    FinishFields(finish) + KeptFields(metadata)
  }

  function Envelope(j: JsonText, text: string, calls: seq<ToolCall>, metadata: Json, finish: Option<string>): Json {
    Obj(map["ok" := Bool(true), "error" := Obj(map[]),
            "response" := Obj(map["text" := Str(text), "tool_calls" := CallsJson(j, calls)] + MetadataFields(metadata, finish))])
  }

  /** What a record means: its blocks decode and validate, and give text and calls. */
  function Reconstruct(j: JsonText, content: Json, metadata: Json, finish: Option<string>): Result<Json, Reason> {
    var bs :- DecodeStrict(j, content);
    if Validate(j, bs).Some? then Err(Validate(j, bs).value)
    else Ok(Envelope(j, TextOf(bs), CallsOf(bs), metadata, finish))
  }

  /** A strictly decoded block is a text or a tool call with all its parts. */
  predicate Canonical(b: Block) {
    || (b.text.Some? && b == TextBlock(b.text.value, b.truncated))
    || (&& b.kind == "tool_call" && b.text.None? && b.content.None? && b.isError.None? && b.result.None?
        && b.error.None? && b.artifact.None?)
  }

  /** A call with an id, a name and its argument text, not cut and without parsed arguments. */
  predicate CompleteCall(b: Block) {
    && b.toolCallId.Some? && b.toolCallId.value != "" && b.name.Some? && b.name.value != ""
    && b.argumentsJson.Some? && b.arguments.None? && b.truncated != Some(true)
  }

  lemma {:induction false} DecodedIsCanonical(j: JsonText, items: seq<Json>)
    requires DecodeAllStrict(j, items).Ok?
    ensures forall i :: 0 <= i < |items| ==> DecodeBlockStrict(j, items[i]) == Ok(DecodeAllStrict(j, items).value[i])
    ensures forall b :: b in DecodeAllStrict(j, items).value ==> Canonical(b) && (b.kind == "tool_call" ==> CompleteCall(b))
    decreases |items|
  {
    if items != [] {
      var init, last := items[..|items| - 1], items[|items| - 1];
      DecodedIsCanonical(j, init);
      var b := DecodeBlockStrict(j, last).value;
      if b.kind == "text" {
        assert b == TextBlock(b.text.value, b.truncated);
      }
    }
  }

  lemma TextAndCallsSnoc(j: JsonText, bs: seq<Block>, b: Block)
    ensures TextOf(bs + [b]) == TextOf(bs) + (if b.kind == "text" then OrEmpty(b.text) else "")
    ensures b.kind == "tool_call" && b.argumentsJson.Some? && j.parse(b.argumentsJson.value).Some?
            ==> CallsJson(j, CallsOf(bs + [b])) == Arr(CallsJson(j, CallsOf(bs)).items + [ToolCallJson(j, b)])
    ensures b.kind != "tool_call" ==> CallsOf(bs + [b]) == CallsOf(bs)
  {
    assert (bs + [b])[..|bs|] == bs;
  }

  method CollectTextAndCalls(j: JsonText, bs: seq<Block>) returns (text: string, calls: seq<Json>)
    requires forall b :: b in bs ==> b.kind == "text" || b.kind == "tool_call"
    requires forall b :: b in bs ==> ValidateBlock(j, b).None?
    ensures text == TextOf(bs)
    ensures Arr(calls) == CallsJson(j, CallsOf(bs))
  {
    text, calls := "", [];
    for i := 0 to |bs|
      invariant text == TextOf(bs[..i])
      invariant Arr(calls) == CallsJson(j, CallsOf(bs[..i]))
    {
      var b := bs[i];
      assert b in bs;
      TextAndCallsSnoc(j, bs[..i], b);
      assert bs[..i + 1] == bs[..i] + [b];
      if b.kind == "text" {
        text := text + OrEmpty(b.text);
      } else {
        calls := calls + [ToolCallJson(j, b)];
      }
    }
    assert bs[..|bs|] == bs;
  }

  method ReconstructProviderEnvelope(j: JsonText, content: Json, metadata: Json, finish: Option<string>)
    returns (r: Result<Json, Reason>)
    ensures r == Reconstruct(j, content, metadata, finish)
  {
    hide ValidateBlock, TextOf, CallsOf, CallsJson, Validate, MetadataFields;
    var bs :- DecodeProviderBlocksStrict(j, content);
    DecodedIsCanonical(j, content.items);
    var refusal := ValidateProviderBlocks(j, bs);
    if refusal.Some? {
      return Err(refusal.value);
    }
    var text, calls := CollectTextAndCalls(j, bs);
    var response := map["text" := Str(text), "tool_calls" := Arr(calls)] + MetadataFields(metadata, finish);
    return Ok(Obj(map["ok" := Bool(true), "error" := Obj(map[]), "response" := Obj(response)]));
  }
}

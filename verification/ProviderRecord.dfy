/**
  Committing a canonical step to the durable record, reading it back after a restart,
  and replaying its envelope.
 */
module ProviderRecord {
  import opened Common
  import opened ProviderCodec
  import opened ProviderRoundTrip

  /** The assistant message of a completed turn. */
  datatype StoredStep = StoredStep(content: Json, metadata: Json, finish: Option<string>)

  // ----- Lenient decoding of stored content -----

  /** An optional typed field: absent and null are both "none"; another type is an error. */
  function OptStr(v: Json, key: string): Option<Option<string>> {
    var f := Get(v, key);
    if f.None? || f.value.Null? then Some(None) else if f.value.Str? then Some(Some(f.value.s)) else None
  }

  function OptBool(v: Json, key: string): Option<Option<bool>> {
    var f := Get(v, key);
    if f.None? || f.value.Null? then Some(None) else if f.value.Bool? then Some(Some(f.value.b)) else None
  }

  function OptAny(v: Json, key: string): Option<Json> {
    var f := Get(v, key);
    if f == Some(Null) then None else f
  }

  function FromObject(v: Json): Option<Block> {
    var kind :- AsStr(Get(v, "type"));
    var text :- OptStr(v, "text");
    var id :- OptStr(v, "tool_call_id");
    var name :- OptStr(v, "name");
    var args :- OptStr(v, "arguments_json");
    var content :- OptStr(v, "content");
    var isError :- OptBool(v, "is_error");
    var truncated :- OptBool(v, "truncated");
    if Get(v, "artifact").Some? && Get(v, "artifacts").Some? then None
    else Some(Block(kind, text, id, name, args, OptAny(v, "arguments"), content, isError, OptAny(v, "result"),
                    OptAny(v, "error"), OrElse(OptAny(v, "artifact"), OptAny(v, "artifacts")), truncated))
  }

  function LenientBlock(j: JsonText, v: Json): Block {
    var read := FromObject(v);
    var (kept, cut) := Truncate(j.render(v), MAX_TEXT_CHARS);
    var b := if read.Some? then read.value else TextBlock(kept, if cut then Some(true) else None);
    b.(truncated := if b.truncated == Some(false) then None else b.truncated,
       argumentsJson := if b.argumentsJson.None? && b.arguments.Some? then Some(j.render(b.arguments.value)) else b.argumentsJson,
       arguments := None,
       artifact := FirstArtifact(b.artifact))
  }

  function LenientAll(j: JsonText, content: Json): seq<Block>
    requires content.Arr?
  {
    seq(|content.items|, i requires 0 <= i < |content.items| => LenientBlock(j, content.items[i]))
  }

  /** Content as it is after a restart: decoded from storage and serialized again. */
  function Reloaded(j: JsonText, content: Json): Json
    requires content.Arr?
  {
    Arr(seq(|content.items|, i requires 0 <= i < |content.items| => ToJson(LenientBlock(j, content.items[i]))))
  }

  lemma TextKeys(b: Block, key: string)
    requires b.text.Some? && b == TextBlock(b.text.value, b.truncated)
    requires key !in ["type", "text", "truncated"]
    ensures Get(ToJson(b), key).None?
  {
  }

  lemma ToolCallKeys(b: Block, key: string)
    requires Canonical(b) && b.kind == "tool_call" && b.arguments.None? && b.truncated.None?
    requires key !in ["type", "tool_call_id", "name", "arguments_json"]
    ensures Get(ToJson(b), key).None?
  {
  }

  /** A stored text block reads back as itself. */
  lemma LenientText(j: JsonText, b: Block)
    requires b.text.Some? && b == TextBlock(b.text.value, b.truncated) && b.truncated != Some(false)
    ensures LenientBlock(j, ToJson(b)) == b
  {
    hide ToJson, Get;
    TextFields(b);
    TextKeys(b, "tool_call_id");
    TextKeys(b, "name");
    TextKeys(b, "arguments_json");
    TextKeys(b, "arguments");
    TextKeys(b, "content");
    TextKeys(b, "is_error");
    TextKeys(b, "result");
    TextKeys(b, "error");
    TextKeys(b, "artifact");
    TextKeys(b, "artifacts");
    assert OptBool(ToJson(b), "truncated") == Some(b.truncated) by { TextFlag(b); }
  }

  lemma TextFlag(b: Block)
    requires b.text.Some? && b == TextBlock(b.text.value, b.truncated)
    ensures OptBool(ToJson(b), "truncated") == Some(b.truncated)
  {
  }

  /** A stored tool call reads back as itself. */
  lemma LenientToolCall(j: JsonText, b: Block)
    requires Canonical(b) && b.kind == "tool_call" && b.toolCallId.Some? && b.name.Some? && b.argumentsJson.Some?
    requires b.arguments.None? && b.truncated.None?
    ensures LenientBlock(j, ToJson(b)) == b
  {
    hide ToJson, Get;
    ToolCallNames(b);
    ToolCallArguments(b);
    ToolCallKeys(b, "text");
    ToolCallKeys(b, "arguments");
    ToolCallKeys(b, "content");
    ToolCallKeys(b, "is_error");
    ToolCallKeys(b, "result");
    ToolCallKeys(b, "error");
    ToolCallKeys(b, "artifact");
    ToolCallKeys(b, "artifacts");
    ToolCallKeys(b, "truncated");
  }

  lemma LenientRoundTrip(j: JsonText, b: Block)
    requires Storable(j, b)
    ensures LenientBlock(j, ToJson(BoundBlock(j, b))) == Normal(b)
  {
    NothingIsTruncated(j, b);
    if b.kind == "tool_call" {
      LenientToolCall(j, Normal(b));
    } else {
      LenientText(j, Normal(b));
    }
    hide ToJson, BoundBlock, LenientBlock;
  }

  // ----- Commit -----

  function UsageJson(u: Usage): Json {
    Obj(map["input_tokens" := Int(u.input), "output_tokens" := Int(u.output), "total_tokens" := Int(u.total)])
  }

  function Metadata(turn: nat, step: CanonicalStep): Json {
    Obj(map["turn" := Int(turn)] + Field("usage", if step.usage.Some? then Some(UsageJson(step.usage.value)) else None)
        + StrField("provider", NonEmpty(step.provider)) + StrField("model", NonEmpty(step.model))
        + BoolField("truncated", step.truncated) + Field("reasoning", step.reasoning))
  }

  /** Validate, encode, validate the encoded form, rebuild the envelope; then store. */
  function Commit(j: JsonText, turn: nat, step: CanonicalStep): Result<(StoredStep, Json), Reason> {
    var content := Encode(j, step.blocks);
    var metadata := Metadata(turn, step);
    if Validate(j, step.blocks).Some? then Err(Validate(j, step.blocks).value)
    else if Validate(j, LenientAll(j, content)).Some? then Err(Validate(j, LenientAll(j, content)).value)
    else
      var envelope :- Reconstruct(j, content, metadata, step.finish);
      Ok((StoredStep(content, metadata, step.finish), envelope))
  }

  /** The finish reason used for a replay: a missing one reads as the empty one of the event. */
  function ReplayEnvelope(j: JsonText, s: StoredStep): Result<Json, Reason> {
    Reconstruct(j, s.content, s.metadata, Some(OrEmpty(s.finish)))
  }

  ghost predicate Accepted(j: JsonText, envelope: Json, request: Json) {
    var step := CanonicalFromEnvelope(j, envelope, request);
    step.Ok? && Validate(j, step.value.blocks).None?
  }

  lemma AcceptedStorable(j: JsonText, envelope: Json, request: Json)
    requires Accepted(j, envelope, request)
    ensures AllStorable(j, CanonicalFromEnvelope(j, envelope, request).value.blocks)
  {
    hide CanonicalBlocks, Validate, ValidateBlock, Canonical;
    var response := Get(envelope, "response").value;
    CanonicalShape(j, response);
    ValidateAll(j, CanonicalBlocks(j, response).value);
  }

  /** The later checks of a commit never refuse a step that validation let through. */
  lemma CommitSucceeds(j: JsonText, turn: nat, step: CanonicalStep)
    requires AllStorable(j, step.blocks)
    ensures var metadata := Metadata(turn, step);
            Commit(j, turn, step) ==
            Ok((StoredStep(Encode(j, step.blocks), metadata, step.finish),
                Envelope(j, TextOf(step.blocks), CallsOf(step.blocks), metadata, step.finish)))
    ensures Reloaded(j, Encode(j, step.blocks)) == Encode(j, step.blocks)
  {
    hide ValidateBlock, Canonical, ToJson, BoundBlock, LenientBlock, Envelope, Metadata, Reconstruct;
    var content := Encode(j, step.blocks);
    forall i | 0 <= i < |step.blocks|
      ensures LenientAll(j, content)[i] == Normal(step.blocks[i]) && ValidateBlock(j, Normal(step.blocks[i])).None?
      ensures ToJson(LenientAll(j, content)[i]) == content.items[i]
    {
      LenientRoundTrip(j, step.blocks[i]);
      BlockRoundTrip(j, step.blocks[i]);
      NothingIsTruncated(j, step.blocks[i]);
    }
    ValidateAll(j, step.blocks);
    ValidateAll(j, LenientAll(j, content));
    StoredStepRoundTrip(j, step.blocks, Metadata(turn, step), step.finish);
    hide Validate;
  }

  // ----- Replay -----

  function ResponseFields(e: Json): map<string, Json> {
    var r := Get(e, "response");
    if r.Some? && r.value.Obj? then r.value.fields else map[]
  }

  lemma KeptKeys(metadata: Json, key: string)
    requires key !in ["usage", "model", "provider", "truncated", "reasoning"]
    ensures key !in KeptFields(metadata)
  {
    hide Get;
  }

  lemma StopReason(finish: Option<string>)
    ensures var f := FinishFields(finish);
            && f.Keys <= {"stop_reason", "finish_reason"}
            && ("stop_reason" in f <==> finish.Some?) && (finish.Some? ==> f["stop_reason"] == Str(finish.value))
  {
  }

  lemma EnvelopeResponse(j: JsonText, text: string, calls: seq<ToolCall>, metadata: Json, finish: Option<string>)
    ensures ResponseFields(Envelope(j, text, calls, metadata, finish)) ==
            map["text" := Str(text), "tool_calls" := CallsJson(j, calls)] + MetadataFields(metadata, finish)
  {
    hide CallsJson, MetadataFields;
  }

  /** Text, calls and finish reason of an envelope. */
  lemma EnvelopeFields(j: JsonText, text: string, calls: seq<ToolCall>, metadata: Json, finish: Option<string>)
    ensures var f := ResponseFields(Envelope(j, text, calls, metadata, finish));
            && ("stop_reason" in f <==> finish.Some?) && (finish.Some? ==> f["stop_reason"] == Str(finish.value))
            && "text" in f && f["text"] == Str(text) && "tool_calls" in f && f["tool_calls"] == CallsJson(j, calls)
  {
    hide CallsJson, Get, KeptFields, FinishFields, Envelope, ResponseFields;
    EnvelopeResponse(j, text, calls, metadata, finish);
    StopReason(finish);
    KeptKeys(metadata, "stop_reason");
    KeptKeys(metadata, "text");
    KeptKeys(metadata, "tool_calls");
  }

  /** The committed turn's envelope, and the one a later call replays. */
  ghost predicate SameTextAndCalls(a: Json, b: Json) {
    forall key :: key in ["text", "tool_calls"] ==>
      key in ResponseFields(a) && key in ResponseFields(b) && ResponseFields(a)[key] == ResponseFields(b)[key]
  }

  lemma ReplayMatchesEnvelope(j: JsonText, bs: seq<Block>, metadata: Json, finish: Option<string>)
    requires AllStorable(j, bs)
    ensures var stored := StoredStep(Encode(j, bs), metadata, finish);
            var returned := Envelope(j, TextOf(bs), CallsOf(bs), metadata, finish);
            var replayed := ReplayEnvelope(j, stored);
            replayed.Ok? && SameTextAndCalls(replayed.value, returned) && (replayed.value == returned <==> finish.Some?)
  {
    hide Envelope, Encode, Reconstruct, ResponseFields, AllStorable, TextOf, CallsOf;
    StoredStepRoundTrip(j, bs, metadata, Some(OrEmpty(finish)));
    EnvelopeFields(j, TextOf(bs), CallsOf(bs), metadata, finish);
    EnvelopeFields(j, TextOf(bs), CallsOf(bs), metadata, Some(OrEmpty(finish)));
  }

  /**
    Replaying a completed turn gives the text and calls that the commit returned, before and
    after a restart.  The whole envelope is the same if and only if the response named a
    finish reason; otherwise the replay carries an empty one that the commit did not.
   */
  lemma ReplayMatchesCommit(j: JsonText, envelope: Json, request: Json, turn: nat)
    requires Accepted(j, envelope, request)
    ensures Commit(j, turn, CanonicalFromEnvelope(j, envelope, request).value).Ok?
    ensures var step := CanonicalFromEnvelope(j, envelope, request).value;
            var stored, returned := Commit(j, turn, step).value.0, Commit(j, turn, step).value.1;
            var replayed := ReplayEnvelope(j, stored);
            && replayed.Ok? && SameTextAndCalls(replayed.value, returned)
            && stored.content.Arr? && Reloaded(j, stored.content) == stored.content
            && (replayed.value == returned <==> AsStr(FinishField(Get(envelope, "response").value)).Some?)
  {
    var step := CanonicalFromEnvelope(j, envelope, request).value;
    assert step.finish == AsStr(FinishField(Get(envelope, "response").value));
    hide CanonicalFromEnvelope, Metadata, Envelope, Encode, Reconstruct, Commit, SameTextAndCalls, Accepted, AllStorable,
      ReplayEnvelope, Get, AsStr, FinishField, Reloaded, TextOf, CallsOf;
    AcceptedStorable(j, envelope, request);
    CommitSucceeds(j, turn, step);
    ReplayMatchesEnvelope(j, step.blocks, Metadata(turn, step), step.finish);
    EncodeIsArray(j, step.blocks);
  }

  lemma EncodeIsArray(j: JsonText, bs: seq<Block>)
    ensures Encode(j, bs).Arr?
  {
  }

  /** A response without a finish reason: the replayed envelope differs from the committed one. */
  lemma ReplayDiffersExample(j: JsonText)
    ensures var envelope := Obj(map["ok" := Bool(true), "response" := Obj(map["text" := Str("hi")])]);
            && Accepted(j, envelope, Obj(map[]))
            && var committed := Commit(j, 1, CanonicalFromEnvelope(j, envelope, Obj(map[])).value);
            committed.Ok? && ReplayEnvelope(j, committed.value.0) != Ok(committed.value.1)
  {
    var response := Obj(map["text" := Str("hi")]);
    var envelope := Obj(map["ok" := Bool(true), "response" := response]);
    assert Get(envelope, "response") == Some(response);
    assert Get(response, "content").None? && Get(response, "tool_calls").None? && Get(response, "usage").None?;
    assert Get(response, "stop_reason").None? && Get(response, "finish_reason").None?;
    assert AsStr(Get(response, "text")) == Some("hi");
    hide Get;
    var bs := [TextBlock("hi", None)];
    OneTextBlock("hi");
    assert bs + ToolCallBlocks(j, []) == bs;
    assert CanonicalBlocks(j, response) == Ok([TextBlock("hi", None)]);
    assert Validate(j, [TextBlock("hi", None)]).None?;
    hide CanonicalBlocks, Validate, Commit, ReplayEnvelope, StepOf;
    ReplayMatchesCommit(j, envelope, Obj(map[]), 1);
  }
}

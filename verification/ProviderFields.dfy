/**
  What the committed and the replayed envelope carry beside text and tool calls, said key by
  key on the JSON values.
 */
module ProviderFields {
  import opened Common
  import opened ProviderCodec
  import opened ProviderRoundTrip
  import opened ProviderRecord

  // ----- What is kept -----

  /** The entry under a key of an object; null stands for none. */
  function Entry(v: Json, key: string): Json {
    if v.Obj? && key in v.fields then v.fields[key] else Null
  }

  predicate HasEntry(v: Json, key: string) { v.Obj? && key in v.fields }

  /** The first of two entries that is there. */
  function Preferred(v: Json, key: string, w: Json, other: string): Json {
    if HasEntry(v, key) then Entry(v, key) else Entry(w, other)
  }

  function Count(usage: Json, key: string): Json { if Entry(usage, key) == Null then Int(0) else Entry(usage, key) }

  /** All three counts as they were given, 0 for one that was not. */
  predicate SameUsage(kept: Json, usage: Json) {
    && kept.Obj? && kept.fields.Keys == {"input_tokens", "output_tokens", "total_tokens"}
    && kept.fields["input_tokens"] == Count(usage, "input_tokens")
    && kept.fields["output_tokens"] == Count(usage, "output_tokens")
    && kept.fields["total_tokens"] == Count(usage, "total_tokens")
  }

  /** The key is there exactly when the value is wanted, and then has it. */
  predicate KeptAs(out: Json, key: string, value: Json, wanted: bool) {
    (HasEntry(out, key) <==> wanted) && (wanted ==> Entry(out, key) == value)
  }

  predicate Named(v: Json) { v.Str? && v.s != "" }

  /** Usage, model, provider, truncation and reasoning of a response. */
  predicate KeepsMetadata(out: Json, response: Json, request: Json) {
    var model, provider := Preferred(response, "model", request, "model"), Preferred(response, "provider", request, "provider");
    var truncated, reasoning := Entry(response, "truncated"), Entry(response, "reasoning");
    && (HasEntry(out, "usage") <==> HasEntry(response, "usage"))
    && (HasEntry(response, "usage") ==> SameUsage(Entry(out, "usage"), Entry(response, "usage")))
    && KeptAs(out, "model", model, Named(model)) && KeptAs(out, "provider", provider, Named(provider))
    && KeptAs(out, "truncated", truncated, truncated.Bool?)
    && KeptAs(out, "reasoning", reasoning, reasoning != Null && reasoning != Str(""))
  }

  predicate CallKept(j: JsonText, out: Json, call: ToolCall) {
    && out.Obj? && out.fields.Keys == {"id", "name", "arguments", "arguments_json"}
    && out.fields["id"] == Str(call.id) && out.fields["name"] == Str(call.name)
    && out.fields["arguments_json"] == Str(call.argumentsJson) && Some(out.fields["arguments"]) == j.parse(call.argumentsJson)
  }

  /** Text and calls of a response. */
  predicate KeepsContent(j: JsonText, out: Json, response: Json) {
    && Entry(out, "text") == Str(ResponseText(response)) && Entry(out, "tool_calls").Arr?
    && var calls, kept := ResponseCalls(j, response), Entry(out, "tool_calls").items;
    |kept| == |calls| && forall i :: 0 <= i < |calls| ==> CallKept(j, kept[i], calls[i])
  }

  const RESPONSE_KEYS := {"text", "tool_calls", "stop_reason", "finish_reason", "usage", "model", "provider", "truncated", "reasoning"}

  /** The envelope around the response. */
  predicate Wrapped(e: Json, out: Json) {
    && e.Obj? && e.fields.Keys == {"ok", "response", "error"} && e.fields["ok"] == Bool(true) && e.fields["error"] == Obj(map[])
    && e.fields["response"] == out && out.Obj? && out.fields.Keys <= RESPONSE_KEYS
  }

  // ----- Looking up -----

  lemma Lookup(m: map<string, Json>, key: string, v: Option<Json>, wanted: string)
    ensures Get(Obj(m + Field(key, v)), wanted) == if wanted == key && v.Some? then v else Get(Obj(m), wanted)
  {
  }

  lemma StrIsField(key: string, v: Option<string>)
    ensures StrField(key, v) == Field(key, if v.Some? then Some(Str(v.value)) else None)
  {
  }

  lemma BoolIsField(key: string, v: Option<bool>)
    ensures BoolField(key, v) == Field(key, if v.Some? then Some(Bool(v.value)) else None)
  {
  }

  lemma LookupPlus(a: map<string, Json>, b: map<string, Json>, key: string)
    ensures Get(Obj(a + b), key) == if Get(Obj(b), key).Some? then Get(Obj(b), key) else Get(Obj(a), key)
  {
  }

  datatype Kept = KeptUsage | KeptModel | KeptProvider | KeptTruncated | KeptReasoning

  function Name(k: Kept): string {
    match k
    case KeptUsage => "usage"
    case KeptModel => "model"
    case KeptProvider => "provider"
    case KeptTruncated => "truncated"
    case KeptReasoning => "reasoning"
  }

  lemma NamesDiffer(k: Kept, l: Kept)
    ensures Name(k) == Name(l) <==> k == l
    ensures Name(k) != "text" && Name(k) != "tool_calls" && Name(k) != "stop_reason" && Name(k) != "finish_reason" && Name(k) != "turn"
  {
    assert |"usage"| == 5 && |"model"| == 5 && "usage"[0] != "model"[0] && |"provider"| == 8;
    assert |"truncated"| == 9 && |"reasoning"| == 9 && "truncated"[0] != "reasoning"[0];
    assert |"text"| == 4 && |"tool_calls"| == 10 && |"stop_reason"| == 11 && |"finish_reason"| == 13 && |"turn"| == 4;
  }

  /** A value for each kept key. */
  datatype Entries = Entries(
    usage: Option<Json>, model: Option<Json>, provider: Option<Json>, truncated: Option<Json>, reasoning: Option<Json>)
  {
    function Of(k: Kept): Option<Json> {
      match k
      case KeptUsage => usage
      case KeptModel => model
      case KeptProvider => provider
      case KeptTruncated => truncated
      case KeptReasoning => reasoning
    }
  }

  lemma FiveFields(m: map<string, Json>, k: Kept, e: Entries)
    requires Get(Obj(m), Name(k)).None?
    ensures Get(Obj(m + Field("usage", e.usage) + Field("model", e.model) + Field("provider", e.provider)
                    + Field("truncated", e.truncated) + Field("reasoning", e.reasoning)), Name(k)) == e.Of(k)
    ensures Get(Obj(m + Field("usage", e.usage) + Field("provider", e.provider) + Field("model", e.model)
                    + Field("truncated", e.truncated) + Field("reasoning", e.reasoning)), Name(k)) == e.Of(k)
  {
    NamesDiffer(k, KeptUsage);
    NamesDiffer(k, KeptModel);
    NamesDiffer(k, KeptProvider);
    NamesDiffer(k, KeptTruncated);
    NamesDiffer(k, KeptReasoning);
    assert Name(KeptUsage) == "usage" && Name(KeptModel) == "model" && Name(KeptProvider) == "provider";
    assert Name(KeptTruncated) == "truncated" && Name(KeptReasoning) == "reasoning";
    hide Get, Field, Name;
    var key := Name(k);
    var a := m + Field("usage", e.usage);
    var b, c := a + Field("model", e.model), a + Field("provider", e.provider);
    var d, f := b + Field("provider", e.provider), c + Field("model", e.model);
    Lookup(m, "usage", e.usage, key);
    Lookup(a, "model", e.model, key);
    Lookup(a, "provider", e.provider, key);
    Lookup(b, "provider", e.provider, key);
    Lookup(c, "model", e.model, key);
    Lookup(d, "truncated", e.truncated, key);
    Lookup(f, "truncated", e.truncated, key);
    Lookup(d + Field("truncated", e.truncated), "reasoning", e.reasoning, key);
    Lookup(f + Field("truncated", e.truncated), "reasoning", e.reasoning, key);
  }

  function StrJson(v: Option<string>): Option<Json> { if v.Some? then Some(Str(v.value)) else None }

  function BoolJson(v: Option<bool>): Option<Json> { if v.Some? then Some(Bool(v.value)) else None }

  /** What the step keeps. */
  function EntriesOf(step: CanonicalStep): Entries {
    Entries(if step.usage.Some? then Some(UsageJson(step.usage.value)) else None, StrJson(NonEmpty(step.model)),
            StrJson(NonEmpty(step.provider)), BoolJson(step.truncated), step.reasoning)
  }

  lemma MetadataEntry(turn: nat, step: CanonicalStep, k: Kept)
    ensures Get(Metadata(turn, step), Name(k)) == EntriesOf(step).Of(k)
  {
    NamesDiffer(k, k);
    var m := map["turn" := Int(turn)];
    assert Get(Obj(m), Name(k)).None?;
    StrIsField("model", NonEmpty(step.model));
    StrIsField("provider", NonEmpty(step.provider));
    BoolIsField("truncated", step.truncated);
    hide Get, Field, StrField, BoolField, UsageJson, NonEmpty, Name;
    FiveFields(m, k, EntriesOf(step));
  }

  lemma KeptEntry(metadata: Json, k: Kept)
    ensures Get(Obj(KeptFields(metadata)), Name(k)) ==
            (if k == KeptModel || k == KeptProvider then NotEmptyString(Get(metadata, Name(k))) else Get(metadata, Name(k)))
  {
    var e := Entries(Get(metadata, "usage"), NotEmptyString(Get(metadata, "model")), NotEmptyString(Get(metadata, "provider")),
                     Get(metadata, "truncated"), Get(metadata, "reasoning"));
    assert Get(Obj(map[]), Name(k)).None?;
    NoneBefore(Field("usage", Get(metadata, "usage")));
    hide Get, Field, NotEmptyString;
    FiveFields(map[], k, e);
  }

  lemma NoneBefore(m: map<string, Json>)
    ensures map[] + m == m
  {
  }

  lemma OtherKeys(finish: Option<string>, text: Json, calls: Json, k: Kept)
    ensures Get(Obj(map["text" := text, "tool_calls" := calls] + FinishFields(finish)), Name(k)).None?
  {
    NamesDiffer(k, k);
    hide Name;
  }

  lemma KeptOfStep(turn: nat, step: CanonicalStep, k: Kept)
    ensures Get(Obj(KeptFields(Metadata(turn, step))), Name(k)) == EntriesOf(step).Of(k)
  {
    KeptEntry(Metadata(turn, step), k);
    MetadataEntry(turn, step, k);
    NeverEmpty(step.model);
    NeverEmpty(step.provider);
    hide Get, Metadata, KeptFields, UsageJson, NonEmpty, NotEmptyString, StrJson, BoolJson, Name;
  }

  /** The kept entries of an envelope are those of the step. */
  lemma EnvelopeEntry(j: JsonText, text: string, calls: seq<ToolCall>, turn: nat, step: CanonicalStep, finish: Option<string>, k: Kept)
    ensures Get(Obj(ResponseFields(Envelope(j, text, calls, Metadata(turn, step), finish))), Name(k)) == EntriesOf(step).Of(k)
  {
    var metadata := Metadata(turn, step);
    var front := map["text" := Str(text), "tool_calls" := CallsJson(j, calls)];
    EnvelopeResponse(j, text, calls, metadata, finish);
    OtherKeys(finish, Str(text), CallsJson(j, calls), k);
    KeptOfStep(turn, step, k);
    hide Get, Metadata, Envelope, ResponseFields, CallsJson, FinishFields, KeptFields, EntriesOf, Name;
    LookupPlus(front + FinishFields(finish), KeptFields(metadata), Name(k));
    PlusAssociates(front, FinishFields(finish), KeptFields(metadata));
  }

  lemma NeverEmpty(v: Option<string>)
    ensures NotEmptyString(StrJson(NonEmpty(v))) == StrJson(NonEmpty(v))
  {
  }

  lemma PlusAssociates(a: map<string, Json>, b: map<string, Json>, c: map<string, Json>)
    ensures a + (b + c) == a + b + c
  {
  }

  // ----- The step keeps the response -----

  lemma GetIsEntry(v: Json, key: string)
    ensures (Get(v, key).Some? <==> HasEntry(v, key)) && (HasEntry(v, key) ==> Get(v, key).value == Entry(v, key))
    ensures !HasEntry(v, key) ==> Entry(v, key) == Null
  {
  }

  lemma CountKept(usage: Json, key: string)
    requires UsageShaped(usage) && key in ["input_tokens", "output_tokens", "total_tokens"]
    ensures Int(OrZero(AsU64(Get(usage, key)))) == Count(usage, key)
  {
  }

  lemma UsageKept(usage: Json)
    requires UsageShaped(usage)
    ensures ParseUsage(usage).Some? && SameUsage(UsageJson(ParseUsage(usage).value), usage)
  {
    CountKept(usage, "input_tokens");
    CountKept(usage, "output_tokens");
    CountKept(usage, "total_tokens");
    hide Count, UsageShaped, AsU64, Get;
    UsageKeys(ParseUsage(usage).value);
  }

  lemma UsageKeys(u: Usage)
    ensures var v := UsageJson(u);
            && v.Obj? && v.fields.Keys == {"input_tokens", "output_tokens", "total_tokens"}
            && v.fields["input_tokens"] == Int(u.input) && v.fields["output_tokens"] == Int(u.output)
            && v.fields["total_tokens"] == Int(u.total)
  {
    assert "input_tokens" != "output_tokens" && "output_tokens" != "total_tokens" && "input_tokens" != "total_tokens";
  }

  lemma NameKept(response: Json, request: Json, key: string)
    ensures var v := Preferred(response, key, request, key);
            StrJson(NonEmpty(NonEmpty(AsStr(OrElse(Get(response, key), Get(request, key)))))) == if Named(v) then Some(v) else None
  {
  }

  lemma KeptFromGet(out: Json, key: string, value: Json, wanted: bool)
    requires Get(out, key) == if wanted then Some(value) else None
    ensures KeptAs(out, key, value, wanted)
  {
  }

  lemma StepKeeps(out: Json, response: Json, request: Json, blocks: seq<Block>)
    requires ResponseShaped(response) && forall k :: Get(out, Name(k)) == EntriesOf(StepOf(response, request, blocks)).Of(k)
    ensures KeepsMetadata(out, response, request)
  {
    var e := EntriesOf(StepOf(response, request, blocks));
    assert Get(out, Name(KeptUsage)) == e.usage && Get(out, Name(KeptModel)) == e.model && Get(out, Name(KeptProvider)) == e.provider;
    assert Get(out, Name(KeptTruncated)) == e.truncated && Get(out, Name(KeptReasoning)) == e.reasoning;
    NameKept(response, request, "model");
    NameKept(response, request, "provider");
    GetIsEntry(response, "usage");
    GetIsEntry(response, "truncated");
    GetIsEntry(response, "reasoning");
    GetIsEntry(out, "usage");
    if HasEntry(response, "usage") {
      UsageKept(Entry(response, "usage"));
    }
    var model, provider := Preferred(response, "model", request, "model"), Preferred(response, "provider", request, "provider");
    var truncated, reasoning := Entry(response, "truncated"), Entry(response, "reasoning");
    hide Get, UsageShaped, SameUsage, UsageJson, ParseUsage, Named, Preferred, Entry, HasEntry, NonEmpty, StrJson, KeptAs;
    KeptFromGet(out, "model", model, Named(model));
    KeptFromGet(out, "provider", provider, Named(provider));
    KeptFromGet(out, "truncated", truncated, truncated.Bool?);
    KeptFromGet(out, "reasoning", reasoning, reasoning != Null && reasoning != Str(""));
  }

  // ----- The envelope keeps the response -----

  function ResponseOf(e: Json): Json { Entry(e, "response") }

  lemma EnvelopeWraps(j: JsonText, text: string, calls: seq<ToolCall>, metadata: Json, finish: Option<string>)
    ensures var e := Envelope(j, text, calls, metadata, finish);
            ResponseOf(e) == Obj(ResponseFields(e)) && Wrapped(e, ResponseOf(e))
  {
    var fields := map["text" := Str(text), "tool_calls" := CallsJson(j, calls)] + MetadataFields(metadata, finish);
    EnvelopeResponse(j, text, calls, metadata, finish);
    FinishKeys(finish);
    KeptKeySet(metadata);
    assert fields.Keys == {"text", "tool_calls"} + FinishFields(finish).Keys + KeptFields(metadata).Keys by {
      hide CallsJson, FinishFields, KeptFields;
    }
    hide CallsJson, FinishFields, KeptFields, MetadataFields, ResponseFields;
    WrapKeys(Obj(fields));
  }

  lemma WrapKeys(out: Json)
    ensures var e := Obj(map["ok" := Bool(true), "error" := Obj(map[]), "response" := out]);
            && e.fields.Keys == {"ok", "response", "error"} && e.fields["ok"] == Bool(true) && e.fields["error"] == Obj(map[])
            && e.fields["response"] == out && Entry(e, "response") == out
  {
    assert "ok" != "response" && "ok" != "error" && "response" != "error";
  }

  lemma FinishKeys(finish: Option<string>)
    ensures FinishFields(finish).Keys <= {"stop_reason", "finish_reason"}
    ensures Get(Obj(FinishFields(finish)), "stop_reason") == StrJson(finish) == Get(Obj(FinishFields(finish)), "finish_reason")
  {
  }

  lemma KeptKeySet(metadata: Json)
    ensures KeptFields(metadata).Keys <= {"usage", "model", "provider", "truncated", "reasoning"}
  {
    hide Get;
  }

  /** Both spellings of the finish reason. */
  predicate KeepsFinish(out: Json, finish: Option<Json>) {
    Get(out, "stop_reason") == finish == Get(out, "finish_reason")
  }

  lemma EnvelopeFinish(j: JsonText, text: string, calls: seq<ToolCall>, metadata: Json, finish: Option<string>)
    ensures KeepsFinish(Obj(ResponseFields(Envelope(j, text, calls, metadata, finish))), StrJson(finish))
  {
    var front := map["text" := Str(text), "tool_calls" := CallsJson(j, calls)];
    assert Get(Obj(front), "stop_reason").None? && Get(Obj(front), "finish_reason").None?;
    FinishKeys(finish);
    KeptKeys(metadata, "stop_reason");
    KeptKeys(metadata, "finish_reason");
    assert Get(Obj(KeptFields(metadata)), "stop_reason").None? && Get(Obj(KeptFields(metadata)), "finish_reason").None?;
    EnvelopeResponse(j, text, calls, metadata, finish);
    hide Get, KeptFields, FinishFields, CallsJson, Envelope, ResponseFields, StrJson;
    LookupPlus(front + FinishFields(finish), KeptFields(metadata), "stop_reason");
    LookupPlus(front + FinishFields(finish), KeptFields(metadata), "finish_reason");
    LookupPlus(front, FinishFields(finish), "stop_reason");
    LookupPlus(front, FinishFields(finish), "finish_reason");
    PlusAssociates(front, FinishFields(finish), KeptFields(metadata));
  }

  lemma CallIsKept(j: JsonText, call: ToolCall)
    requires j.parse(call.argumentsJson).Some?
    ensures CallKept(j, CallJson(j, call), call)
  {
    assert "id" != "name" && "id" != "arguments" && "id" != "arguments_json" && "name" != "arguments" && "name" != "arguments_json";
    assert |"arguments"| != |"arguments_json"|;
  }

  predicate AllParse(j: JsonText, calls: seq<ToolCall>) {
    forall i :: 0 <= i < |calls| ==> j.parse(calls[i].argumentsJson).Some?
  }

  lemma {:induction false} ValidCallsParse(j: JsonText, bs: seq<Block>)
    requires forall i :: 0 <= i < |bs| ==> ValidateBlock(j, bs[i]).None?
    ensures AllParse(j, CallsOf(bs))
    decreases |bs|
  {
    if bs != [] {
      ValidCallsParse(j, bs[..|bs| - 1]);
    }
  }

  lemma ContentKept(j: JsonText, out: Json, response: Json)
    requires Get(out, "text") == Some(Str(ResponseText(response)))
    requires Get(out, "tool_calls") == Some(CallsJson(j, ResponseCalls(j, response))) && AllParse(j, ResponseCalls(j, response))
    ensures KeepsContent(j, out, response)
  {
    var calls := ResponseCalls(j, response);
    forall i | 0 <= i < |calls|
      ensures CallKept(j, CallsJson(j, calls).items[i], calls[i])
    {
      CallIsKept(j, calls[i]);
    }
    hide ResponseText, ResponseCalls, CallKept, CallJson;
  }

  lemma EnvelopeKeeps(j: JsonText, response: Json, request: Json, blocks: seq<Block>, turn: nat, finish: Option<string>)
    requires ResponseShaped(response) && AllParse(j, ResponseCalls(j, response))
    ensures var e := Envelope(j, ResponseText(response), ResponseCalls(j, response), Metadata(turn, StepOf(response, request, blocks)), finish);
            var out := ResponseOf(e);
            Wrapped(e, out) && KeepsContent(j, out, response) && KeepsMetadata(out, response, request) && KeepsFinish(out, StrJson(finish))
  {
    var step := StepOf(response, request, blocks);
    var text, calls, metadata := ResponseText(response), ResponseCalls(j, response), Metadata(turn, step);
    EnvelopeWraps(j, text, calls, metadata, finish);
    EnvelopeFinish(j, text, calls, metadata, finish);
    EnvelopeFields(j, text, calls, metadata, finish);
    forall k
      ensures Get(Obj(ResponseFields(Envelope(j, text, calls, metadata, finish))), Name(k)) == EntriesOf(step).Of(k)
    {
      EnvelopeEntry(j, text, calls, turn, step, finish, k);
    }
    var out := Obj(ResponseFields(Envelope(j, text, calls, metadata, finish)));
    assert Get(out, "text") == Some(Str(text)) && Get(out, "tool_calls") == Some(CallsJson(j, calls));
    hide Get, StepOf, Metadata, Envelope, ResponseFields, ResponseShaped, EntriesOf, Name, ResponseText, ResponseCalls, CallsJson, Wrapped,
      KeepsContent, KeepsMetadata, KeepsFinish, AllParse, ResponseOf;
    StepKeeps(out, response, request, blocks);
    ContentKept(j, out, response);
  }

  /** The finish reason that a response names. */
  function FinishOf(response: Json): Json { Preferred(response, "stop_reason", response, "finish_reason") }

  lemma FinishIs(response: Json)
    ensures StrJson(AsStr(FinishField(response))) == if FinishOf(response).Str? then Some(FinishOf(response)) else None
    ensures OrEmpty(AsStr(FinishField(response))) == if FinishOf(response).Str? then FinishOf(response).s else ""
  {
  }

  /** What the host returns for an accepted response, and what it replays for it later. */
  ghost predicate Returns(j: JsonText, envelope: Json, request: Json, turn: nat, returned: Json, replayed: Json) {
    && CanonicalFromEnvelope(j, envelope, request).Ok?
    && var committed := Commit(j, turn, CanonicalFromEnvelope(j, envelope, request).value);
    committed.Ok? && committed.value.1 == returned && ReplayEnvelope(j, committed.value.0) == Ok(replayed)
  }

  lemma AcceptedReturns(j: JsonText, envelope: Json, request: Json, turn: nat)
    requires Accepted(j, envelope, request)
    ensures var response, step := Get(envelope, "response").value, CanonicalFromEnvelope(j, envelope, request).value;
            var text, calls, metadata := ResponseText(response), ResponseCalls(j, response), Metadata(turn, step);
            && AllParse(j, calls) && ResponseShaped(response)
            && Returns(j, envelope, request, turn, Envelope(j, text, calls, metadata, step.finish),
                       Envelope(j, text, calls, metadata, Some(OrEmpty(step.finish))))
  {
    var response, step := Get(envelope, "response").value, CanonicalFromEnvelope(j, envelope, request).value;
    assert CanonicalFromEnvelope(j, envelope, request).Ok? && ResponseShaped(response);
    assert CanonicalBlocks(j, response) == Ok(step.blocks) && Validate(j, step.blocks).None?;
    hide CanonicalBlocks, CanonicalFromEnvelope, Validate, ResponseText, ResponseCalls, Metadata, Envelope, Encode, Reconstruct, Commit,
      ResponseShaped, TextOf, CallsOf, AllParse, Accepted, AllStorable, Get, Reloaded;
    AcceptedStorable(j, envelope, request);
    CommitSucceeds(j, turn, step);
    CanonicalMeaning(j, response);
    ValidParse(j, step.blocks);
    AcceptedResponseRoundTrip(j, envelope, request, Metadata(turn, step), Some(OrEmpty(step.finish)));
  }

  lemma ValidParse(j: JsonText, bs: seq<Block>)
    requires Validate(j, bs).None?
    ensures AllParse(j, CallsOf(bs))
  {
    hide ValidateBlock;
    ValidateAll(j, bs);
    ValidCallsParse(j, bs);
  }

  /**
    Both envelopes of an accepted response carry its text, calls, usage, model, provider,
    truncation and reasoning, and nothing else.  They can differ in the finish reason only.
   */
  lemma EnvelopesKeepResponse(j: JsonText, envelope: Json, request: Json, turn: nat) returns (returned: Json, replayed: Json)
    requires Accepted(j, envelope, request)
    ensures Returns(j, envelope, request, turn, returned, replayed)
    ensures var response, out, again := Entry(envelope, "response"), ResponseOf(returned), ResponseOf(replayed);
            var finish := FinishOf(response);
            && Wrapped(returned, out) && KeepsContent(j, out, response) && KeepsMetadata(out, response, request)
            && Wrapped(replayed, again) && KeepsContent(j, again, response) && KeepsMetadata(again, response, request)
            && KeepsFinish(out, if finish.Str? then Some(finish) else None)
            && KeepsFinish(again, if finish.Str? then Some(finish) else Some(Str("")))
  {
    var response, step := Get(envelope, "response").value, CanonicalFromEnvelope(j, envelope, request).value;
    assert Entry(envelope, "response") == response && step == StepOf(response, request, step.blocks);
    assert step.finish == AsStr(FinishField(response));
    FinishIs(response);
    hide Accepted, CanonicalFromEnvelope, ResponseText, ResponseCalls, Metadata, Envelope, ResponseShaped, StepOf, AllParse, Wrapped,
      KeepsContent, KeepsMetadata, KeepsFinish, FinishOf, FinishField, Get, Entry, Returns;
    AcceptedReturns(j, envelope, request, turn);
    returned := Envelope(j, ResponseText(response), ResponseCalls(j, response), Metadata(turn, step), step.finish);
    replayed := Envelope(j, ResponseText(response), ResponseCalls(j, response), Metadata(turn, step), Some(OrEmpty(step.finish)));
    EnvelopeKeeps(j, response, request, step.blocks, turn, step.finish);
    EnvelopeKeeps(j, response, request, step.blocks, turn, Some(OrEmpty(step.finish)));
  }
}

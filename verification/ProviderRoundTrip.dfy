/**
  A provider response that is accepted is stored without loss: the record decodes,
  validates and rebuilds an envelope with the response's own text and tool calls.
 */
module ProviderRoundTrip {
  import opened Common
  import opened ProviderCodec

  /** The stored form of a block: the parsed arguments are dropped, a false flag is left out. */
  function Normal(b: Block): Block {
    b.(arguments := None, truncated := if b.truncated == Some(true) then Some(true) else None)
  }

  function NormalAll(bs: seq<Block>): seq<Block> {
    seq(|bs|, i requires 0 <= i < |bs| => Normal(bs[i]))
  }

  ghost predicate Storable(j: JsonText, b: Block) { Canonical(b) && ValidateBlock(j, b).None? }

  ghost predicate AllStorable(j: JsonText, bs: seq<Block>) {
    forall i :: 0 <= i < |bs| ==> Storable(j, bs[i])
  }

  /** Validation implies that the bounded encoding cuts nothing. */
  lemma NothingIsTruncated(j: JsonText, b: Block)
    requires Storable(j, b)
    ensures BoundBlock(j, b) == Normal(b)
  {
  }

  lemma TextFields(b: Block)
    requires b.text.Some? && b == TextBlock(b.text.value, b.truncated)
    ensures var v := ToJson(b);
            && v.fields != map[] && Get(v, "type") == Some(Str("text")) && Get(v, "text") == Some(Str(b.text.value))
            && AsBool(Get(v, "truncated")) == b.truncated
  {
  }

  /** The fields that a canonical tool call has. */
  function CallFields(b: Block): map<string, Json> {
    map["type" := Str(b.kind)] + StrField("tool_call_id", b.toolCallId) + StrField("name", b.name)
    + StrField("arguments_json", b.argumentsJson) + Field("arguments", b.arguments) + BoolField("truncated", b.truncated)
  }

  lemma PlusNothing(m: map<string, Json>)
    ensures m + map[] == m
  {
  }

  lemma ToolCallJson(b: Block)
    requires Canonical(b) && b.kind == "tool_call"
    ensures ToJson(b) == Obj(CallFields(b))
  {
    var a := map["type" := Str(b.kind)];
    assert b.text.None?;
    var c := a + StrField("tool_call_id", b.toolCallId) + StrField("name", b.name)
             + StrField("arguments_json", b.argumentsJson) + Field("arguments", b.arguments);
    PlusNothing(a);
    PlusNothing(c);
  }

  // A field beside the one that is looked up changes nothing.

  lemma BesideStr(m: map<string, Json>, key: string, v: Option<string>, wanted: string)
    ensures wanted != key ==> Get(Obj(m + StrField(key, v)), wanted) == Get(Obj(m), wanted)
    ensures v.Some? ==> Get(Obj(m + StrField(key, v)), key) == Some(Str(v.value))
  {
  }

  lemma BesideField(m: map<string, Json>, key: string, v: Option<Json>, wanted: string)
    ensures wanted != key ==> Get(Obj(m + Field(key, v)), wanted) == Get(Obj(m), wanted)
  {
  }

  lemma BesideBool(m: map<string, Json>, key: string, v: Option<bool>, wanted: string)
    ensures wanted != key ==> Get(Obj(m + BoolField(key, v)), wanted) == Get(Obj(m), wanted)
    ensures AsBool(Get(Obj(m + BoolField(key, v)), key)) == if v.Some? then v else AsBool(Get(Obj(m), key))
  {
  }

  lemma CallLookup(b: Block, wanted: string)
    ensures var a := map["type" := Str(b.kind)];
            var c := a + StrField("tool_call_id", b.toolCallId);
            var d := c + StrField("name", b.name);
            var e := d + StrField("arguments_json", b.argumentsJson);
            var v := Obj(CallFields(b));
            && (wanted == "type" ==> Get(v, wanted) == Get(Obj(a), wanted))
            && (wanted == "tool_call_id" ==> Get(v, wanted) == Get(Obj(c), wanted))
            && (wanted == "name" ==> Get(v, wanted) == Get(Obj(d), wanted))
            && (wanted == "arguments_json" ==> Get(v, wanted) == Get(Obj(e), wanted))
            && (wanted == "truncated" ==> AsBool(Get(v, wanted)) == if b.truncated.Some? then b.truncated else AsBool(Get(Obj(a), wanted)))
  {
    hide Get, StrField, Field, BoolField, AsBool;
    var a := map["type" := Str(b.kind)];
    var c := a + StrField("tool_call_id", b.toolCallId);
    var d := c + StrField("name", b.name);
    var e := d + StrField("arguments_json", b.argumentsJson);
    var g := e + Field("arguments", b.arguments);
    BesideStr(a, "tool_call_id", b.toolCallId, wanted);
    BesideStr(c, "name", b.name, wanted);
    BesideStr(d, "arguments_json", b.argumentsJson, wanted);
    BesideField(e, "arguments", b.arguments, wanted);
    BesideBool(g, "truncated", b.truncated, wanted);
  }

  lemma ToolCallNames(b: Block)
    requires Canonical(b) && b.kind == "tool_call" && b.toolCallId.Some? && b.name.Some?
    ensures var v := ToJson(b);
            && v.fields != map[] && Get(v, "type") == Some(Str("tool_call"))
            && Get(v, "tool_call_id") == Some(Str(b.toolCallId.value)) && Get(v, "name") == Some(Str(b.name.value))
  {
    ToolCallJson(b);
    hide ToJson, StrField, CallFields, Canonical;
    var a := map["type" := Str(b.kind)];
    CallLookup(b, "type");
    assert "type" in CallFields(b);
    CallLookup(b, "tool_call_id");
    BesideStr(a, "tool_call_id", b.toolCallId, "tool_call_id");
    CallLookup(b, "name");
    BesideStr(a + StrField("tool_call_id", b.toolCallId), "name", b.name, "name");
  }

  lemma ToolCallArguments(b: Block)
    requires Canonical(b) && b.kind == "tool_call" && b.argumentsJson.Some?
    ensures var v := ToJson(b);
            && Get(v, "arguments_json") == Some(Str(b.argumentsJson.value))
            && AsBool(Get(v, "truncated")) == b.truncated
  {
    ToolCallJson(b);
    hide ToJson, StrField, CallFields, Canonical;
    var a := map["type" := Str(b.kind)];
    var d := a + StrField("tool_call_id", b.toolCallId) + StrField("name", b.name);
    CallLookup(b, "arguments_json");
    BesideStr(d, "arguments_json", b.argumentsJson, "arguments_json");
    CallLookup(b, "truncated");
    assert Get(Obj(a), "truncated").None?;
  }

  lemma DecodeCall(j: JsonText, v: Json, id: string, name: string, args: string)
    requires v.Obj? && v.fields != map[] && Get(v, "type") == Some(Str("tool_call"))
    requires Get(v, "tool_call_id") == Some(Str(id)) && Get(v, "name") == Some(Str(name)) && id != "" && name != ""
    requires Get(v, "arguments_json") == Some(Str(args)) && j.parse(args).Some? && j.parse(args).value.Obj?
    requires AsBool(Get(v, "truncated")) != Some(true)
    ensures DecodeBlockStrict(j, v) == Ok(Block("tool_call", None, Some(id), Some(name), Some(args), None, None, None, None, None,
                                                None, AsBool(Get(v, "truncated"))))
  {
    hide Get;
  }

  lemma StorableCall(j: JsonText, b: Block)
    requires Storable(j, b) && b.kind == "tool_call"
    ensures Canonical(Normal(b)) && b.toolCallId.Some? && b.toolCallId.value != "" && b.name.Some? && b.name.value != ""
    ensures b.argumentsJson.Some? && j.parse(b.argumentsJson.value).Some? && j.parse(b.argumentsJson.value).value.Obj?
    ensures b.truncated != Some(true)
    ensures Normal(b) == Block("tool_call", None, b.toolCallId, b.name, b.argumentsJson, None, None, None, None, None, None, None)
  {
  }

  lemma CallRoundTrip(j: JsonText, b: Block)
    requires Storable(j, b) && b.kind == "tool_call"
    ensures DecodeBlockStrict(j, ToJson(Normal(b))) == Ok(Normal(b))
  {
    StorableCall(j, b);
    hide Storable, ToJson, Get, DecodeBlockStrict, Canonical;
    ToolCallNames(Normal(b));
    ToolCallArguments(Normal(b));
    DecodeCall(j, ToJson(Normal(b)), b.toolCallId.value, b.name.value, b.argumentsJson.value);
  }

  lemma TextRoundTrip(j: JsonText, b: Block)
    requires Storable(j, b) && b.kind != "tool_call"
    ensures DecodeBlockStrict(j, ToJson(Normal(b))) == Ok(Normal(b))
  {
    TextFields(Normal(b));
    hide ToJson, Get;
  }

  /** One stored block decodes to what was stored. */
  lemma BlockRoundTrip(j: JsonText, b: Block)
    requires Storable(j, b)
    ensures DecodeBlockStrict(j, ToJson(BoundBlock(j, b))) == Ok(Normal(b))
    ensures ValidateBlock(j, Normal(b)).None?
  {
    NothingIsTruncated(j, b);
    assert ValidateBlock(j, Normal(b)).None?;
    hide ToJson, BoundBlock, DecodeBlockStrict, Storable, ValidateBlock;
    if b.kind == "tool_call" {
      CallRoundTrip(j, b);
    } else {
      TextRoundTrip(j, b);
    }
  }

  lemma {:induction false} DecodeEach(j: JsonText, items: seq<Json>, bs: seq<Block>)
    requires |items| == |bs|
    requires forall i :: 0 <= i < |items| ==> DecodeBlockStrict(j, items[i]) == Ok(bs[i])
    ensures DecodeAllStrict(j, items) == Ok(bs)
    decreases |items|
  {
    if items != [] {
      var n := |items| - 1;
      DecodeEach(j, items[..n], bs[..n]);
      assert bs == bs[..n] + [bs[n]];
    }
  }

  lemma {:induction false} NormalKeepsMeaning(bs: seq<Block>)
    ensures TextOf(NormalAll(bs)) == TextOf(bs) && CallsOf(NormalAll(bs)) == CallsOf(bs)
    decreases |bs|
  {
    if bs != [] {
      var n := |bs| - 1;
      NormalKeepsMeaning(bs[..n]);
      assert NormalAll(bs)[..n] == NormalAll(bs[..n]);
    }
  }

  /**
    For every list of canonical blocks that passes validation the stored content decodes,
    and the rebuilt envelope has the same concatenated text and the same calls in order.
   */
  lemma StoredStepRoundTrip(j: JsonText, bs: seq<Block>, metadata: Json, finish: Option<string>)
    requires AllStorable(j, bs)
    ensures DecodeStrict(j, Encode(j, bs)) == Ok(NormalAll(bs))
    ensures Reconstruct(j, Encode(j, bs), metadata, finish) == Ok(Envelope(j, TextOf(bs), CallsOf(bs), metadata, finish))
  {
    hide DecodeBlockStrict, ToJson, BoundBlock, ValidateBlock;
    forall i | 0 <= i < |bs|
      ensures DecodeBlockStrict(j, Encode(j, bs).items[i]) == Ok(NormalAll(bs)[i])
      ensures ValidateBlock(j, NormalAll(bs)[i]).None?
    {
      BlockRoundTrip(j, bs[i]);
    }
    DecodeEach(j, Encode(j, bs).items, NormalAll(bs));
    ValidateAll(j, NormalAll(bs));
    NormalKeepsMeaning(bs);
    hide Validate, TextOf, CallsOf, Envelope;
  }

  // ----- What a response says, read off its JSON -----

  predicate IsKind(item: Json, kind: string) { AsStr(Get(item, "type")) == Some(kind) }

  function ItemsText(items: seq<Json>): string {
    if items == [] then ""
    else
      var last := items[|items| - 1];
      ItemsText(items[..|items| - 1]) + (if IsKind(last, "text") then OrEmpty(AsStr(Get(last, "text"))) else "")
  }

  function ArgumentsText(j: JsonText, call: Json): string {
    var raw, given := AsStr(Get(call, "arguments_json")), Get(call, "arguments");
    if raw.Some? then raw.value else if given.Some? then j.render(given.value) else ""
  }

  function ItemCall(j: JsonText, item: Json): ToolCall {
    ToolCall(OrEmpty(AsStr(OrElse(Get(item, "tool_call_id"), Get(item, "id")))), OrEmpty(AsStr(Get(item, "name"))),
             ArgumentsText(j, item))
  }

  function ItemsCalls(j: JsonText, items: seq<Json>): seq<ToolCall> {
    if items == [] then []
    else
      var last := items[|items| - 1];
      ItemsCalls(j, items[..|items| - 1]) + (if IsKind(last, "tool_call") then [ItemCall(j, last)] else [])
  }

  function ListedCall(j: JsonText, call: Json): ToolCall {
    ToolCall(OrEmpty(AsStr(OrElse(Get(call, "id"), Get(call, "tool_call_id")))), OrEmpty(AsStr(Get(call, "name"))),
             ArgumentsText(j, call))
  }

  function ListedCalls(j: JsonText, calls: seq<Json>): seq<ToolCall> {
    seq(|calls|, i requires 0 <= i < |calls| => ListedCall(j, calls[i]))
  }

  function ResponseText(response: Json): string {
    var items := Items(Get(response, "content"));
    if items != [] then ItemsText(items) else OrEmpty(AsStr(Get(response, "text")))
  }

  function ResponseCalls(j: JsonText, response: Json): seq<ToolCall> {
    var inContent := ItemsCalls(j, Items(Get(response, "content")));
    if inContent != [] then inContent else ListedCalls(j, Items(Get(response, "tool_calls")))
  }

  function CallOf(b: Block): ToolCall {
    ToolCall(OrEmpty(b.toolCallId), OrEmpty(b.name), OrEmpty(b.argumentsJson))
  }

  lemma BlockMeaning(j: JsonText, item: Json)
    requires DecodeBlockStrict(j, item).Ok?
    ensures var b := DecodeBlockStrict(j, item).value;
            && (b.kind == "text" <==> IsKind(item, "text")) && (b.kind == "tool_call" <==> IsKind(item, "tool_call"))
            && (b.kind == "text" ==> OrEmpty(b.text) == OrEmpty(AsStr(Get(item, "text"))))
            && (b.kind == "tool_call" ==> CallOf(b) == ItemCall(j, item))
  {
  }

  lemma MeaningSnoc(bs: seq<Block>, b: Block)
    ensures TextOf(bs + [b]) == TextOf(bs) + (if b.kind == "text" then OrEmpty(b.text) else "")
    ensures CallsOf(bs + [b]) == CallsOf(bs) + (if b.kind == "tool_call" then [CallOf(b)] else [])
    ensures HasToolCall(bs + [b]) <==> HasToolCall(bs) || b.kind == "tool_call"
  {
    var all := bs + [b];
    assert all[..|bs|] == bs && all[|bs|] == b;
    assert forall i :: 0 <= i < |bs| ==> all[i] == bs[i];
  }

  lemma {:induction false} DecodedMeaning(j: JsonText, items: seq<Json>)
    requires DecodeAllStrict(j, items).Ok?
    ensures var bs := DecodeAllStrict(j, items).value;
            && TextOf(bs) == ItemsText(items) && CallsOf(bs) == ItemsCalls(j, items)
            && (HasToolCall(bs) <==> ItemsCalls(j, items) != [])
    decreases |items|
  {
    if items != [] {
      hide DecodeBlockStrict, ItemCall, CallOf, IsKind, TextOf, CallsOf, HasToolCall, Get;
      var init, last := items[..|items| - 1], items[|items| - 1];
      DecodedMeaning(j, init);
      BlockMeaning(j, last);
      MeaningSnoc(DecodeAllStrict(j, init).value, DecodeBlockStrict(j, last).value);
    }
  }

  lemma ListedBlock(j: JsonText, call: Json)
    ensures var b := ToolCallBlock(j, call); b.kind == "tool_call" && CallOf(b) == ListedCall(j, call)
  {
  }

  lemma {:induction false} ListedMeaning(j: JsonText, before: seq<Block>, calls: seq<Json>)
    ensures TextOf(before + ToolCallBlocks(j, calls)) == TextOf(before)
    ensures CallsOf(before + ToolCallBlocks(j, calls)) == CallsOf(before) + ListedCalls(j, calls)
    decreases |calls|
  {
    hide ToolCallBlock, ListedCall, CallOf, TextOf, CallsOf;
    if calls == [] {
      assert before + ToolCallBlocks(j, calls) == before;
    } else {
      var n := |calls| - 1;
      ListedMeaning(j, before, calls[..n]);
      ListedBlock(j, calls[n]);
      MeaningSnoc(before + ToolCallBlocks(j, calls[..n]), ToolCallBlock(j, calls[n]));
      assert before + ToolCallBlocks(j, calls) == before + ToolCallBlocks(j, calls[..n]) + [ToolCallBlock(j, calls[n])];
      assert ListedCalls(j, calls) == ListedCalls(j, calls[..n]) + [ListedCall(j, calls[n])];
    }
  }

  lemma {:induction false} NoCallsWithoutBlock(bs: seq<Block>)
    requires !HasToolCall(bs)
    ensures CallsOf(bs) == []
    decreases |bs|
  {
    if bs != [] {
      var init := bs[..|bs| - 1];
      assert forall i :: 0 <= i < |init| ==> init[i] == bs[i];
      NoCallsWithoutBlock(init);
    }
  }

  lemma OneTextBlock(t: string)
    ensures TextOf([TextBlock(t, None)]) == t && CallsOf([TextBlock(t, None)]) == [] && !HasToolCall([TextBlock(t, None)])
  {
    var bs := [TextBlock(t, None)];
    assert bs[..0] == [];
    assert TextOf(bs[..0]) == "" && CallsOf(bs[..0]) == [];
  }

  lemma {:induction false} EmptyMeaning(j: JsonText)
    ensures TextOf([]) == "" && CallsOf([]) == [] && !HasToolCall([]) && ItemsCalls(j, []) == [] && ItemsText([]) == ""
  {
  }

  /** Canonicalization keeps the text and the calls of the response. */
  lemma CanonicalMeaning(j: JsonText, response: Json)
    requires CanonicalBlocks(j, response).Ok?
    ensures TextOf(CanonicalBlocks(j, response).value) == ResponseText(response)
    ensures CallsOf(CanonicalBlocks(j, response).value) == ResponseCalls(j, response)
  {
    hide TextOf, CallsOf, HasToolCall, ToolCallBlock, ListedCall, ItemsText, ItemsCalls, DecodeAllStrict, AsStr, Get;
    var content, text := Get(response, "content"), OrEmpty(AsStr(Get(response, "text")));
    var items, calls := Items(content), Items(Get(response, "tool_calls"));
    var given := if content.Some? then DecodeAllStrict(j, items).value else [];
    EmptyMeaning(j);
    OneTextBlock(text);
    if content.Some? {
      DecodedMeaning(j, items);
    }
    var worded := if given == [] && text != "" then [TextBlock(text, None)] else given;
    if !HasToolCall(worded) {
      NoCallsWithoutBlock(worded);
      ListedMeaning(j, worded, calls);
    }
  }

  lemma CanonicalShape(j: JsonText, response: Json)
    requires CanonicalBlocks(j, response).Ok?
    ensures forall i :: 0 <= i < |CanonicalBlocks(j, response).value| ==> Canonical(CanonicalBlocks(j, response).value[i])
  {
    hide DecodeBlockStrict, DecodeAllStrict, Get, AsStr;
    var content := Get(response, "content");
    if content.Some? {
      DecodedIsCanonical(j, content.value.items);
    }
  }

  /**
    End to end: if a response is canonicalized and passes validation, the record made of it
    rebuilds an envelope with exactly the response's text and tool calls.
   */
  lemma AcceptedResponseRoundTrip(j: JsonText, envelope: Json, request: Json, metadata: Json, finish: Option<string>)
    requires CanonicalFromEnvelope(j, envelope, request).Ok?
    requires Validate(j, CanonicalFromEnvelope(j, envelope, request).value.blocks).None?
    ensures var response := Get(envelope, "response").value;
            var step := CanonicalFromEnvelope(j, envelope, request).value;
            Reconstruct(j, Encode(j, step.blocks), metadata, finish)
            == Ok(Envelope(j, ResponseText(response), ResponseCalls(j, response), metadata, finish))
  {
    hide CanonicalBlocks, Validate, ResponseText, ResponseCalls, Envelope, Encode, Canonical, ValidateBlock, Reconstruct;
    var response := Get(envelope, "response").value;
    var bs := CanonicalBlocks(j, response).value;
    CanonicalMeaning(j, response);
    CanonicalShape(j, response);
    ValidateAll(j, bs);
    StoredStepRoundTrip(j, bs, metadata, finish);
  }
}

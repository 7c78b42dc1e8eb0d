/** Which provider responses are accepted, said key by key on the JSON values. */
module ProviderAcceptance {
  import opened Common
  import opened ProviderCodec
  import opened ProviderRoundTrip
  import opened ProviderRecord
  import opened ProviderFields
  import Utf8

  // ----- Acceptable responses -----

  /** The text of an object, within the bound in bytes. */
  predicate ArgumentsOk(j: JsonText, text: string) {
    j.parse(text).Some? && j.parse(text).value.Obj? && Utf8Length(text) <= 65_536
  }

  predicate TextItem(item: Json) { Entry(item, "text").Str? && |Entry(item, "text").s| <= 65_536 }

  /** A call in the content: arguments as text, or else as an object. */
  predicate CallItem(j: JsonText, item: Json) {
    && Named(Preferred(item, "tool_call_id", item, "id")) && Named(Entry(item, "name")) && Entry(item, "truncated") != Bool(true)
    && if HasEntry(item, "arguments_json") then Entry(item, "arguments_json").Str? && ArgumentsOk(j, Entry(item, "arguments_json").s)
       else Entry(item, "arguments").Obj? && ArgumentsOk(j, j.render(Entry(item, "arguments")))
  }

  predicate IsCall(item: Json) { Entry(item, "type") == Str("tool_call") }

  predicate ItemOk(j: JsonText, item: Json) {
    (Entry(item, "type") == Str("text") && TextItem(item)) || (IsCall(item) && CallItem(j, item))
  }

  /** A call listed beside the content: arguments that are not text are printed. */
  predicate ListedOk(j: JsonText, call: Json) {
    && Named(Preferred(call, "id", call, "tool_call_id")) && Named(Entry(call, "name")) && Entry(call, "truncated") != Bool(true)
    && if Entry(call, "arguments_json").Str? then ArgumentsOk(j, Entry(call, "arguments_json").s)
       else HasEntry(call, "arguments") && ArgumentsOk(j, j.render(Entry(call, "arguments")))
  }

  predicate CountOk(usage: Json, key: string) {
    var n := Entry(usage, key);
    n == Null || (n.Int? && 0 <= n.n <= 0xFFFF_FFFF_FFFF_FFFF)
  }

  predicate UsageOk(usage: Json) {
    usage.Obj? && CountOk(usage, "input_tokens") && CountOk(usage, "output_tokens") && CountOk(usage, "total_tokens")
  }

  /** The shape of a response, without its content. */
  predicate ResponseOk(response: Json) {
    && response.Obj? && (FinishOf(response).Str? || FinishOf(response).Null?)
    && (HasEntry(response, "usage") ==> UsageOk(Entry(response, "usage")))
    && (Entry(response, "tool_calls").Arr? || Entry(response, "tool_calls").Null?)
  }

  predicate ShapeOk(response: Json) {
    ResponseOk(response) && (HasEntry(response, "content") ==> Entry(response, "content").Arr?)
  }

  function ItemsAt(v: Json, key: string): seq<Json> { if Entry(v, key).Arr? then Entry(v, key).items else [] }

  /** Every item is acceptable; without items the text is, and without a call among them every listed call. */
  predicate ContentOk(j: JsonText, response: Json) {
    var items, calls, text := ItemsAt(response, "content"), ItemsAt(response, "tool_calls"), Entry(response, "text");
    && (forall i :: 0 <= i < |items| ==> ItemOk(j, items[i]))
    && (items == [] && text.Str? ==> |text.s| <= 65_536)
    && ((exists i :: 0 <= i < |items| && IsCall(items[i])) || forall i :: 0 <= i < |calls| ==> ListedOk(j, calls[i]))
  }

  // ----- The bound is in bytes -----

  function CodePoints(s: string): seq<int> { seq(|s|, i requires 0 <= i < |s| => s[i] as int) }

  lemma {:induction false} Utf8LengthIs(s: string)
    ensures Utf8.Scalars(CodePoints(s)) && Utf8Length(s) == |Utf8.Encode(CodePoints(s))|
    decreases |s|
  {
    if s != [] {
      Utf8LengthIs(s[1..]);
      assert CodePoints(s)[1..] == CodePoints(s[1..]);
    }
  }

  // ----- One item -----

  lemma CallArguments(j: JsonText, item: Json)
    requires item.Obj?
    ensures var args := StrictArguments(j, item);
            (args.Ok? && ArgumentsOk(j, args.value)) <==>
            if HasEntry(item, "arguments_json") then Entry(item, "arguments_json").Str? && ArgumentsOk(j, Entry(item, "arguments_json").s)
            else Entry(item, "arguments").Obj? && ArgumentsOk(j, j.render(Entry(item, "arguments")))
  {
  }

  lemma CallNames(item: Json, first: string, second: string)
    ensures Named(Preferred(item, first, item, second)) <==> OrEmpty(AsStr(OrElse(Get(item, first), Get(item, second)))) != ""
    ensures Named(Entry(item, first)) <==> OrEmpty(AsStr(Get(item, first))) != ""
    ensures AsBool(Get(item, first)) == Some(true) <==> Entry(item, first) == Bool(true)
    ensures forall s :: AsStr(Get(item, first)) == Some(s) <==> Entry(item, first) == Str(s)
  {
  }

  lemma TextDecided(j: JsonText, item: Json)
    requires item.Obj? && item.fields != map[] && AsStr(Get(item, "type")) == Some("text")
    ensures var b := DecodeBlockStrict(j, item);
            && ((b.Ok? && ValidateBlock(j, b.value).None?) <==> TextItem(item)) && (b.Ok? ==> b.value.kind == "text")
  {
    CallNames(item, "text", "text");
    assert "text" != "tool_call";
    hide Get, Entry, StrictArguments, AsStr, AsBool, Utf8Length;
  }

  lemma CallDecided(j: JsonText, item: Json)
    requires item.Obj? && item.fields != map[] && AsStr(Get(item, "type")) == Some("tool_call")
    ensures var b := DecodeBlockStrict(j, item);
            && ((b.Ok? && ValidateBlock(j, b.value).None?) <==> CallItem(j, item)) && (b.Ok? ==> b.value.kind == "tool_call")
  {
    CallArguments(j, item);
    CallNames(item, "tool_call_id", "id");
    CallNames(item, "name", "name");
    CallNames(item, "truncated", "truncated");
    assert "text" != "tool_call";
    hide Get, Entry, Preferred, Named, StrictArguments, OrElse, AsStr, AsBool, Utf8Length, HasEntry;
  }

  /** Decoding and validating one item accepts exactly the acceptable ones. */
  lemma ItemDecided(j: JsonText, item: Json)
    ensures var b := DecodeBlockStrict(j, item);
            && ((b.Ok? && ValidateBlock(j, b.value).None?) <==> ItemOk(j, item))
            && (b.Ok? ==> (b.value.kind == "tool_call" <==> IsCall(item)))
  {
    CallNames(item, "type", "type");
    assert item.Obj? && item.fields == map[] ==> Get(item, "type").None? && Entry(item, "type") == Null;
    assert !item.Obj? ==> Entry(item, "type") == Null;
    var kind := AsStr(Get(item, "type"));
    assert |"text"| == 4 && |"tool_call"| == 9;
    hide Get, Entry, AsStr, TextItem, CallItem, ValidateBlock;
    if item.Obj? && item.fields != map[] {
      if kind == Some("text") {
        hide DecodeBlockStrict;
        TextDecided(j, item);
      } else if kind == Some("tool_call") {
        hide DecodeBlockStrict;
        CallDecided(j, item);
      }
    }
  }

  lemma ListedArguments(j: JsonText, call: Json)
    ensures var b := ToolCallBlock(j, call);
            (b.argumentsJson.Some? && ArgumentsOk(j, b.argumentsJson.value)) <==>
            if Entry(call, "arguments_json").Str? then ArgumentsOk(j, Entry(call, "arguments_json").s)
            else HasEntry(call, "arguments") && ArgumentsOk(j, j.render(Entry(call, "arguments")))
  {
  }

  lemma ListedDecided(j: JsonText, call: Json)
    ensures ValidateBlock(j, ToolCallBlock(j, call)).None? <==> ListedOk(j, call)
  {
    ListedArguments(j, call);
    CallNames(call, "id", "tool_call_id");
    CallNames(call, "name", "name");
    CallNames(call, "truncated", "truncated");
    hide Get, Entry, Preferred, Named, OrElse, AsStr, AsBool, Utf8Length, HasEntry;
  }

  // ----- The whole response -----

  predicate AllDecode(j: JsonText, items: seq<Json>) {
    forall i :: 0 <= i < |items| ==> DecodeBlockStrict(j, items[i]).Ok?
  }

  lemma {:induction false} DecodedAll(j: JsonText, items: seq<Json>)
    ensures DecodeAllStrict(j, items).Ok? <==> AllDecode(j, items)
    decreases |items|
  {
    hide DecodeBlockStrict;
    if items != [] {
      var init := items[..|items| - 1];
      DecodedAll(j, init);
      assert forall i :: 0 <= i < |init| ==> init[i] == items[i];
    }
  }

  /** The items of the content, decoded and validated. */
  lemma ItemsDecided(j: JsonText, items: seq<Json>)
    ensures var given := DecodeAllStrict(j, items);
            && ((given.Ok? && Validate(j, given.value).None?) <==> forall i :: 0 <= i < |items| ==> ItemOk(j, items[i]))
            && (given.Ok? ==> (HasToolCall(given.value) <==> exists i :: 0 <= i < |items| && IsCall(items[i])))
  {
    hide DecodeBlockStrict, ValidateBlock, ItemOk, IsCall, Validate, DecodeAllStrict, Canonical, CompleteCall;
    forall i | 0 <= i < |items|
      ensures var b := DecodeBlockStrict(j, items[i]);
              && ((b.Ok? && ValidateBlock(j, b.value).None?) <==> ItemOk(j, items[i]))
              && (b.Ok? ==> (b.value.kind == "tool_call" <==> IsCall(items[i])))
    {
      ItemDecided(j, items[i]);
    }
    DecodedAll(j, items);
    if DecodeAllStrict(j, items).Ok? {
      DecodedIsCanonical(j, items);
      ValidateAll(j, DecodeAllStrict(j, items).value);
    }
  }

  lemma {:induction false} ValidateParts(j: JsonText, a: seq<Block>, b: seq<Block>)
    ensures Validate(j, a + b).None? <==> Validate(j, a).None? && Validate(j, b).None?
  {
    hide ValidateBlock;
    ValidateAll(j, a);
    ValidateAll(j, b);
    ValidateAll(j, a + b);
    var c := a + b;
    assert forall i :: 0 <= i < |a| ==> c[i] == a[i];
    assert forall i :: 0 <= i < |b| ==> c[|a| + i] == b[i];
    assert forall i :: |a| <= i < |c| ==> c[i] == b[i - |a|];
    hide Validate;
  }

  lemma TextValid(j: JsonText, text: string)
    ensures Validate(j, [TextBlock(text, None)]).None? <==> |text| <= 65_536
  {
    var b := TextBlock(text, None);
    assert |"text"| != |"tool_call"|;
    assert ValidateBlock(j, b).None? <==> |text| <= 65_536;
    assert [b][0] == b && [b][1..] == [];
    assert Validate(j, [b][1..]).None?;
  }

  lemma CallsValid(j: JsonText, calls: seq<Json>)
    ensures Validate(j, ToolCallBlocks(j, calls)).None? <==> forall i :: 0 <= i < |calls| ==> ListedOk(j, calls[i])
  {
    hide ValidateBlock, ToolCallBlock, ListedOk, Validate;
    var blocks := ToolCallBlocks(j, calls);
    ValidateAll(j, blocks);
    forall i | 0 <= i < |calls|
      ensures ValidateBlock(j, blocks[i]).None? <==> ListedOk(j, calls[i])
    {
      ListedDecided(j, calls[i]);
    }
  }

  lemma NoCallInText(text: string)
    ensures !HasToolCall([TextBlock(text, None)]) && !HasToolCall([])
  {
    assert "text" != "tool_call";
  }

  /** The blocks of a response whose items are decoded. */
  function Assembled(j: JsonText, given: seq<Block>, text: string, calls: seq<Json>): seq<Block> {
    var worded := if given == [] && text != "" then [TextBlock(text, None)] else given;
    var called := if HasToolCall(worded) then worded else worded + ToolCallBlocks(j, calls);
    if called == [] then [TextBlock(text, None)] else called
  }

  lemma PartsDecided(j: JsonText, given: seq<Block>, text: string, calls: seq<Json>)
    ensures Validate(j, Assembled(j, given, text, calls)).None? <==>
            && Validate(j, given).None? && (given == [] ==> |text| <= 65_536)
            && (HasToolCall(given) || Validate(j, ToolCallBlocks(j, calls)).None?)
  {
    var worded := if given == [] && text != "" then [TextBlock(text, None)] else given;
    var listed := ToolCallBlocks(j, calls);
    NoCallInText(text);
    TextValid(j, text);
    assert Validate(j, []).None?;
    ValidateParts(j, worded, listed);
    hide Validate, HasToolCall, ToolCallBlocks, TextBlock;
  }

  lemma ContentRead(j: JsonText, response: Json)
    requires HasEntry(response, "content") ==> Entry(response, "content").Arr?
    ensures Items(Get(response, "tool_calls")) == ItemsAt(response, "tool_calls")
    ensures (if Get(response, "content").Some? then DecodeStrict(j, Get(response, "content").value) else Ok([])) ==
            DecodeAllStrict(j, ItemsAt(response, "content"))
    ensures OrEmpty(AsStr(Get(response, "text"))) == if Entry(response, "text").Str? then Entry(response, "text").s else ""
  {
    assert DecodeAllStrict(j, []) == Ok([]);
    hide DecodeAllStrict;
  }

  function TextAt(response: Json): string { if Entry(response, "text").Str? then Entry(response, "text").s else "" }

  lemma CanonicalIs(j: JsonText, response: Json)
    requires HasEntry(response, "content") ==> Entry(response, "content").Arr?
    ensures var given := DecodeAllStrict(j, ItemsAt(response, "content"));
            CanonicalBlocks(j, response) ==
            if given.Ok? then Ok(Assembled(j, given.value, TextAt(response), ItemsAt(response, "tool_calls"))) else Err(given.error)
  {
    ContentRead(j, response);
    hide Get, Entry, DecodeStrict, DecodeAllStrict, ToolCallBlocks, HasToolCall, TextBlock, ItemsAt, Items, AsStr;
  }

  lemma ContentDecided(j: JsonText, response: Json)
    requires HasEntry(response, "content") ==> Entry(response, "content").Arr?
    ensures var blocks := CanonicalBlocks(j, response);
            (blocks.Ok? && Validate(j, blocks.value).None?) <==> ContentOk(j, response)
  {
    var items, calls := ItemsAt(response, "content"), ItemsAt(response, "tool_calls");
    CanonicalIs(j, response);
    ItemsDecided(j, items);
    CallsValid(j, calls);
    hide Entry, HasEntry, CanonicalBlocks, DecodeAllStrict, Validate, ToolCallBlocks, HasToolCall, ItemOk, ListedOk, IsCall, ItemsAt,
      Assembled;
    if DecodeAllStrict(j, items).Ok? {
      PartsDecided(j, DecodeAllStrict(j, items).value, TextAt(response), calls);
    }
  }

  lemma CountDecided(usage: Json, key: string)
    ensures var v := Get(usage, key); (v.None? || v == Some(Null) || AsU64(v).Some?) <==> CountOk(usage, key)
  {
  }

  lemma UsageDecided(usage: Json)
    ensures UsageShaped(usage) <==> UsageOk(usage)
  {
    CountDecided(usage, "input_tokens");
    CountDecided(usage, "output_tokens");
    CountDecided(usage, "total_tokens");
    hide CountOk, AsU64, Get;
  }

  lemma ShapeIs(response: Json)
    ensures ResponseShaped(response) <==> ResponseOk(response)
  {
    GetIsEntry(response, "usage");
    GetIsEntry(response, "tool_calls");
    GetIsEntry(response, "stop_reason");
    GetIsEntry(response, "finish_reason");
    if HasEntry(response, "usage") {
      UsageDecided(Entry(response, "usage"));
    }
    hide Get, Entry, HasEntry, UsageShaped, UsageOk;
  }

  /** A response is accepted exactly when it has the shape and its content is acceptable. */
  lemma AcceptedExactly(j: JsonText, envelope: Json, request: Json)
    ensures Accepted(j, envelope, request) <==>
            HasEntry(envelope, "response") && ShapeOk(Entry(envelope, "response")) && ContentOk(j, Entry(envelope, "response"))
  {
    var response := Entry(envelope, "response");
    GetIsEntry(envelope, "response");
    GetIsEntry(response, "content");
    if HasEntry(response, "content") ==> Entry(response, "content").Arr? {
      ShapeIs(response);
      ContentDecided(j, response);
    }
    hide Entry, HasEntry, ResponseShaped, ResponseOk, Validate, ContentOk, StepOf, HasToolCall, ToolCallBlocks, Get;
  }
}

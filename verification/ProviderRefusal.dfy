/** Why a provider response is refused: every reason names something that is wrong with it. */
module ProviderRefusal {
  import opened Common
  import opened ProviderCodec
  import opened ProviderRoundTrip
  import opened ProviderRecord
  import opened ProviderFields
  import opened ProviderAcceptance

  /** The argument text fails for this reason. */
  predicate WrongArguments(j: JsonText, text: string, e: Reason) {
    match e
    case ArgumentsNotJson => j.parse(text).None?
    case ArgumentsNotObject => j.parse(text).Some? && !j.parse(text).value.Obj?
    case ArgumentsTooLong => Utf8Length(text) > 65_536
    case _ => false
  }

  /** What is wrong with an item of the content. */
  predicate WrongItem(j: JsonText, item: Json, e: Reason) {
    var kind, raw, given := Entry(item, "type"), Entry(item, "arguments_json"), Entry(item, "arguments");
    match e
    case BlockNotObject => !item.Obj?
    case BlockEmpty => item == Obj(map[])
    case TypeMissing => item.Obj? && !kind.Str?
    case TypeUnknown => kind.Str? && kind != Str("text") && !IsCall(item)
    case TextNotString => kind == Str("text") && !Entry(item, "text").Str?
    case TextTooLong => kind == Str("text") && Entry(item, "text").Str? && |Entry(item, "text").s| > 65_536
    case IdOrNameMissing => IsCall(item) && !(Named(Preferred(item, "tool_call_id", item, "id")) && Named(Entry(item, "name")))
    case ArgumentsTruncated => IsCall(item) && Entry(item, "truncated") == Bool(true)
    case ArgumentsNotString => IsCall(item) && HasEntry(item, "arguments_json") && !raw.Str?
    case ArgumentsMissing => IsCall(item) && !HasEntry(item, "arguments_json") && !HasEntry(item, "arguments")
    case ArgumentsNotObject =>
      IsCall(item) && if HasEntry(item, "arguments_json") then raw.Str? && WrongArguments(j, raw.s, e)
                      else !given.Obj? || WrongArguments(j, j.render(given), e)
    case ArgumentsNotJson => IsCall(item) && WrongArguments(j, if raw.Str? then raw.s else j.render(given), e)
    case ArgumentsTooLong => IsCall(item) && WrongArguments(j, if raw.Str? then raw.s else j.render(given), e)
    case ContentNotArray => false
    case MalformedResponse => false
  }

  /** What is wrong with a call listed beside the content. */
  predicate WrongCall(j: JsonText, call: Json, e: Reason) {
    var raw := Entry(call, "arguments_json");
    match e
    case IdOrNameMissing => !(Named(Preferred(call, "id", call, "tool_call_id")) && Named(Entry(call, "name")))
    case ArgumentsTruncated => Entry(call, "truncated") == Bool(true)
    case ArgumentsMissing => !raw.Str? && !HasEntry(call, "arguments")
    case _ => WrongArguments(j, if raw.Str? then raw.s else j.render(Entry(call, "arguments")), e)
  }

  ghost predicate Wrong(j: JsonText, envelope: Json, e: Reason) {
    var response := Entry(envelope, "response");
    var items, calls, text := ItemsAt(response, "content"), ItemsAt(response, "tool_calls"), Entry(response, "text");
    || (e == MalformedResponse && !(HasEntry(envelope, "response") && ResponseOk(response)))
    || (e == ContentNotArray && HasEntry(response, "content") && !Entry(response, "content").Arr?)
    || (exists i :: 0 <= i < |items| && WrongItem(j, items[i], e))
    || (e == TextTooLong && items == [] && text.Str? && |text.s| > 65_536)
    || (exists i :: 0 <= i < |calls| && WrongCall(j, calls[i], e))
  }

  // ----- One item -----

  lemma StrictArgumentsWrong(j: JsonText, item: Json)
    requires item.Obj? && IsCall(item) && StrictArguments(j, item).Err?
    ensures WrongItem(j, item, StrictArguments(j, item).error)
  {
    GetIsEntry(item, "arguments_json");
    GetIsEntry(item, "arguments");
    hide Get, Entry, HasEntry, Utf8Length, Named, Preferred;
  }

  lemma StrictArgumentsAre(j: JsonText, item: Json)
    requires item.Obj? && StrictArguments(j, item).Ok?
    ensures var args, raw := StrictArguments(j, item).value, Entry(item, "arguments_json");
            && args == (if raw.Str? then raw.s else j.render(Entry(item, "arguments")))
            && (HasEntry(item, "arguments_json") ==> raw.Str?) && (!HasEntry(item, "arguments_json") ==> Entry(item, "arguments").Obj?)
  {
  }

  lemma DecodeRefused(j: JsonText, item: Json)
    requires DecodeBlockStrict(j, item).Err?
    ensures WrongItem(j, item, DecodeBlockStrict(j, item).error)
  {
    if item.Obj? && item.fields != map[] {
      CallNames(item, "type", "type");
      CallNames(item, "text", "text");
      CallNames(item, "tool_call_id", "id");
      CallNames(item, "name", "name");
      CallNames(item, "truncated", "truncated");
      GetIsEntry(item, "type");
      GetIsEntry(item, "text");
      if IsCall(item) && StrictArguments(j, item).Err? {
        StrictArgumentsWrong(j, item);
      }
      hide Get, Entry, HasEntry, Preferred, Named, StrictArguments, OrElse, Utf8Length;
    }
  }

  lemma TextRefused(j: JsonText, text: string, truncated: Option<bool>)
    ensures var r := ValidateBlock(j, TextBlock(text, truncated)); r == if |text| > 65_536 then Some(TextTooLong) else None
  {
    assert |"text"| != |"tool_call"|;
  }

  lemma ArgumentsRefused(j: JsonText, b: Block)
    requires b.kind == "tool_call" && b.text.None? && ValidateBlock(j, b).Some?
    ensures var e := ValidateBlock(j, b).value;
            || (e == IdOrNameMissing && (OrEmpty(b.toolCallId) == "" || OrEmpty(b.name) == ""))
            || (e == ArgumentsTruncated && b.truncated == Some(true)) || (e == ArgumentsMissing && b.argumentsJson.None?)
            || (b.argumentsJson.Some? && WrongArguments(j, b.argumentsJson.value, e))
  {
    hide Utf8Length;
  }

  lemma ItemRefused(j: JsonText, item: Json)
    requires DecodeBlockStrict(j, item).Ok? && ValidateBlock(j, DecodeBlockStrict(j, item).value).Some?
    ensures WrongItem(j, item, ValidateBlock(j, DecodeBlockStrict(j, item).value).value)
  {
    var b := DecodeBlockStrict(j, item).value;
    CallNames(item, "type", "type");
    CallNames(item, "text", "text");
    CallNames(item, "tool_call_id", "id");
    CallNames(item, "name", "name");
    CallNames(item, "truncated", "truncated");
    if AsStr(Get(item, "type")) == Some("text") {
      TextRefused(j, b.text.value, b.truncated);
      hide ValidateBlock, Get, Entry, HasEntry, Preferred, Named, StrictArguments, OrElse, Utf8Length;
    } else {
      StrictArgumentsAre(j, item);
      ArgumentsRefused(j, b);
      hide ValidateBlock, Get, Entry, HasEntry, Preferred, Named, StrictArguments, OrElse, Utf8Length;
    }
  }

  lemma CallRefused(j: JsonText, call: Json)
    requires ValidateBlock(j, ToolCallBlock(j, call)).Some?
    ensures WrongCall(j, call, ValidateBlock(j, ToolCallBlock(j, call)).value)
  {
    var b := ToolCallBlock(j, call);
    ArgumentsRefused(j, b);
    CallNames(call, "id", "tool_call_id");
    CallNames(call, "name", "name");
    CallNames(call, "truncated", "truncated");
    GetIsEntry(call, "arguments_json");
    GetIsEntry(call, "arguments");
    hide ValidateBlock, Get, Entry, HasEntry, Preferred, Named, OrElse, Utf8Length;
  }

  // ----- The whole response -----

  lemma {:induction false} FirstUndecodable(j: JsonText, items: seq<Json>) returns (i: nat)
    requires DecodeAllStrict(j, items).Err?
    ensures i < |items| && DecodeBlockStrict(j, items[i]) == Err(DecodeAllStrict(j, items).error)
    decreases |items|
  {
    hide DecodeBlockStrict;
    var init := items[..|items| - 1];
    if DecodeAllStrict(j, init).Err? {
      i := FirstUndecodable(j, init);
    } else {
      i := |items| - 1;
    }
  }

  lemma {:induction false} FirstInvalid(j: JsonText, bs: seq<Block>) returns (i: nat)
    requires Validate(j, bs).Some?
    ensures i < |bs| && ValidateBlock(j, bs[i]) == Validate(j, bs)
    decreases |bs|
  {
    hide ValidateBlock;
    if ValidateBlock(j, bs[0]).Some? {
      i := 0;
    } else {
      var rest := FirstInvalid(j, bs[1..]);
      i := rest + 1;
    }
  }

  /** Every block comes from an item, from the text, or from a listed call. */
  lemma AssembledFrom(j: JsonText, given: seq<Block>, text: string, calls: seq<Json>, i: nat)
    requires i < |Assembled(j, given, text, calls)|
    ensures var b := Assembled(j, given, text, calls)[i];
            || b in given || (given == [] && b == TextBlock(text, None))
            || exists k :: 0 <= k < |calls| && b == ToolCallBlock(j, calls[k])
  {
    hide ToolCallBlock, HasToolCall, TextBlock;
  }

  lemma BlockRefused(j: JsonText, envelope: Json, b: Block)
    requires var response := Entry(envelope, "response");
             var given := DecodeAllStrict(j, ItemsAt(response, "content"));
             && given.Ok? && ValidateBlock(j, b).Some?
             && (|| b in given.value || (given.value == [] && b == TextBlock(TextAt(response), None))
                 || exists k :: 0 <= k < |ItemsAt(response, "tool_calls")| && b == ToolCallBlock(j, ItemsAt(response, "tool_calls")[k]))
    ensures Wrong(j, envelope, ValidateBlock(j, b).value)
  {
    var response := Entry(envelope, "response");
    var items, calls := ItemsAt(response, "content"), ItemsAt(response, "tool_calls");
    var given := DecodeAllStrict(j, items).value;
    hide ToolCallBlock, DecodeAllStrict, DecodeBlockStrict, WrongItem, WrongCall, ItemsAt, ValidateBlock;
    if b in given {
      var i :| 0 <= i < |given| && given[i] == b;
      DecodedIsCanonical(j, items);
      ItemRefused(j, items[i]);
    } else if k :| 0 <= k < |calls| && b == ToolCallBlock(j, calls[k]) {
      CallRefused(j, calls[k]);
    } else {
      TextRefused(j, TextAt(response), None);
    }
  }

  /** A response that is not accepted is refused for a reason that holds of it. */
  lemma RefusalIsJustified(j: JsonText, envelope: Json, request: Json)
    ensures var step := CanonicalFromEnvelope(j, envelope, request);
            && (step.Err? ==> Wrong(j, envelope, step.error))
            && (step.Ok? && Validate(j, step.value.blocks).Some? ==> Wrong(j, envelope, Validate(j, step.value.blocks).value))
  {
    var response := Entry(envelope, "response");
    GetIsEntry(envelope, "response");
    GetIsEntry(response, "content");
    ShapeIs(response);
    var step := CanonicalFromEnvelope(j, envelope, request);
    if HasEntry(envelope, "response") && ResponseShaped(response) {
      if HasEntry(response, "content") && !Entry(response, "content").Arr? {
        assert CanonicalBlocks(j, response) == Err(ContentNotArray);
      } else {
        CanonicalIs(j, response);
        hide ResponseShaped, CanonicalBlocks, Assembled, Get, WrongItem, WrongCall;
        var items := ItemsAt(response, "content");
        var given := DecodeAllStrict(j, items);
        hide DecodeAllStrict, Validate, ValidateBlock, DecodeBlockStrict, ItemsAt;
        if given.Err? {
          var i := FirstUndecodable(j, items);
          DecodeRefused(j, items[i]);
        } else if Validate(j, step.value.blocks).Some? {
          var i := FirstInvalid(j, step.value.blocks);
          AssembledFrom(j, given.value, TextAt(response), ItemsAt(response, "tool_calls"), i);
          BlockRefused(j, envelope, step.value.blocks[i]);
        }
      }
    }
  }
}

/** The compact text of a schema (section 2 of RFC 8259, as the serializer writes it), and that its length is the one measured. */
module SchemaText {
  import opened Common
  import opened SchemaPreflight

  function HexDigit(n: nat): byte
    requires n < 16
  {
    "0123456789abcdef"[n] as int as byte
  }

  /** One byte inside a string: quotes, backslashes and control characters are escaped. */
  function Escaped(b: byte): Bytes {
    if b == '"' as int as byte then Ascii("\\\"")
    else if b == '\\' as int as byte then Ascii("\\\\")
    else if b == 8 then Ascii("\\b")
    else if b == 9 then Ascii("\\t")
    else if b == 10 then Ascii("\\n")
    else if b == 12 then Ascii("\\f")
    else if b == 13 then Ascii("\\r")
    else if b < 32 then Ascii("\\u00") + [HexDigit(b as int / 16), HexDigit(b as int % 16)]
    else [b]
  }

  function EscapedText(s: Bytes): Bytes {
    if s == [] then [] else EscapedText(s[..|s| - 1]) + Escaped(s[|s| - 1])
  }

  function Quoted(s: Bytes): Bytes { Ascii("\"") + EscapedText(s) + Ascii("\"") }

  function Text(v: Json): Bytes
    requires Shaped(v)
    decreases v, 1
  {
    match v
    case Null => Ascii("null")
    case Bool(b) => if b then Ascii("true") else Ascii("false")
    case Number(printed) => printed
    case Str(s) => Quoted(s)
    case Arr(items) => Ascii("[") + ItemsText(items) + Ascii("]")
    case Obj(keys, values) => Ascii("{") + EntriesText(keys, values) + Ascii("}")
  }

  function Separator(index: nat): Bytes { if index == 0 then [] else Ascii(",") }

  function ItemsText(vs: seq<Json>): Bytes
    requires ShapedAll(vs)
    decreases vs, 0
  {
    if vs == [] then []
    else
      var n := |vs| - 1;
      ItemsText(vs[..n]) + Separator(n) + Text(vs[n])
  }

  function EntriesText(keys: seq<Bytes>, values: seq<Json>): Bytes
    requires |keys| == |values| && ShapedAll(values)
    decreases values, 0
  {
    if values == [] then []
    else
      var n := |values| - 1;
      EntriesText(keys[..n], values[..n]) + Separator(n) + Quoted(keys[n]) + Ascii(":") + Text(values[n])
  }

  // ----- Lengths -----

  lemma EscapedIs(b: byte)
    ensures |Escaped(b)| == EscapedLength(b)
  {
  }

  lemma {:induction false} EscapedTextLength(s: Bytes)
    ensures |EscapedText(s)| == EscapedAll(s)
    decreases |s|
  {
    if s != [] {
      EscapedTextLength(s[..|s| - 1]);
      EscapedIs(s[|s| - 1]);
    }
  }

  lemma QuotedLength(s: Bytes)
    ensures |Quoted(s)| == StringLength(s)
  {
    EscapedTextLength(s);
  }

  /** The measured length is that of the text. */
  lemma {:induction false} TextLength(v: Json)
    requires Shaped(v)
    ensures |Text(v)| == SerializedLength(v)
    decreases v, 1
  {
    match v
    case Str(s) => QuotedLength(s);
    case Arr(items) => ItemsLength(items);
    case Obj(keys, values) => EntriesLength(keys, values);
    case _ =>
  }

  lemma {:induction false} ItemsLength(vs: seq<Json>)
    requires ShapedAll(vs)
    ensures |ItemsText(vs)| == SerializedAll(vs) + Commas(|vs|)
    decreases vs, 0
  {
    if vs != [] {
      ItemsLength(vs[..|vs| - 1]);
      TextLength(vs[|vs| - 1]);
    }
  }

  lemma {:induction false} EntriesLength(keys: seq<Bytes>, values: seq<Json>)
    requires |keys| == |values| && ShapedAll(values)
    ensures |EntriesText(keys, values)| == KeysLength(keys) + SerializedAll(values) + Commas(|values|)
    decreases values, 0
  {
    if values != [] {
      var n := |values| - 1;
      EntriesLength(keys[..n], values[..n]);
      QuotedLength(keys[n]);
      TextLength(values[n]);
    }
  }
}

/**
  Limits on a tool schema, checked before it is compiled.

  The program walks the schema with an explicit stack and rejects early.  The reference is
  recursive: number of nodes, depth, dialects, and the length of the serialized text.
 */
module SchemaPreflight {
  import opened Common

  /** Strings are UTF-8 bytes; a number is kept as it is printed. */
  datatype Json =
    | Null
    | Bool(b: bool)
    | Number(printed: Bytes)
    | Str(s: Bytes)
    | Arr(items: seq<Json>)
    | Obj(keys: seq<Bytes>, values: seq<Json>)

  const MAX_BYTES: nat := 65_536
  const MAX_NODES: nat := 4096
  const MAX_DEPTH: nat := 128
  const USIZE_MAX: nat := 0xFFFF_FFFF_FFFF_FFFF

  function SaturatingAdd(a: nat, b: nat): nat { if a + b > USIZE_MAX then USIZE_MAX else a + b }

  function Children(v: Json): seq<Json> {
    match v
    case Arr(items) => items
    case Obj(_, values) => values
    case _ => []
  }

  // ----- Reference measures -----

  function Nodes(v: Json): (n: nat)
    ensures n >= 1
    decreases v, 1
  {
    match v
    case Arr(items) => 1 + NodesAll(items)
    case Obj(_, values) => 1 + NodesAll(values)
    case _ => 1
  }

  function NodesAll(vs: seq<Json>): (n: nat)
    ensures n >= |vs|
    decreases vs, 0
  {
    if vs == [] then 0 else NodesAll(vs[..|vs| - 1]) + Nodes(vs[|vs| - 1])
  }

  function Depth(v: Json): nat
    decreases v, 1
  {
    match v
    case Arr(items) => DepthBelow(items)
    case Obj(_, values) => DepthBelow(values)
    case _ => 0
  }

  function DepthBelow(vs: seq<Json>): nat
    decreases vs, 0
  {
    if vs == [] then 0 else Max(DepthBelow(vs[..|vs| - 1]), 1 + Depth(vs[|vs| - 1]))
  }

  /** One key per value, no key twice. */
  predicate Shaped(v: Json)
    decreases v, 1
  {
    match v
    case Arr(items) => ShapedAll(items)
    case Obj(keys, values) =>
      |keys| == |values| && (forall i, j :: 0 <= i < j < |keys| ==> keys[i] != keys[j]) && ShapedAll(values)
    case _ => true
  }

  predicate ShapedAll(vs: seq<Json>)
    decreases vs, 0
  {
    vs == [] || (ShapedAll(vs[..|vs| - 1]) && Shaped(vs[|vs| - 1]))
  }

  const DIALECTS: seq<string> := [
    "http://json-schema.org/draft-04/schema",
    "http://json-schema.org/draft-06/schema",
    "http://json-schema.org/draft-07/schema",
    "https://json-schema.org/draft/2019-09/schema",
    "https://json-schema.org/draft/2020-12/schema"]

  const MAX_DIALECT_BYTES: nat := |"https://json-schema.org/draft/2020-12/schema#"|

  predicate Supported(uri: Bytes) {
    |uri| <= MAX_DIALECT_BYTES && exists i :: 0 <= i < |DIALECTS| && Base(uri) == Ascii(DIALECTS[i])
  }

  /** The text, with or without a closing number sign. */
  predicate Names(uri: Bytes, dialect: string) { uri == Ascii(dialect) || uri == Ascii(dialect + "#") }

  /** These five dialects are supported and nothing else is. */
  lemma SupportedExactly(uri: Bytes)
    ensures Supported(uri) <==>
            || Names(uri, "http://json-schema.org/draft-04/schema")
            || Names(uri, "http://json-schema.org/draft-06/schema")
            || Names(uri, "http://json-schema.org/draft-07/schema")
            || Names(uri, "https://json-schema.org/draft/2019-09/schema")
            || Names(uri, "https://json-schema.org/draft/2020-12/schema")
  {
    assert DIALECTS[0] == "http://json-schema.org/draft-04/schema" && DIALECTS[1] == "http://json-schema.org/draft-06/schema";
    assert DIALECTS[2] == "http://json-schema.org/draft-07/schema" && DIALECTS[3] == "https://json-schema.org/draft/2019-09/schema";
    assert DIALECTS[4] == "https://json-schema.org/draft/2020-12/schema" && |DIALECTS| == 5;
    forall i | 0 <= i < 5
      ensures Base(uri) == Ascii(DIALECTS[i]) <==> Names(uri, DIALECTS[i])
      ensures Names(uri, DIALECTS[i]) ==> |uri| <= MAX_DIALECT_BYTES
    {
      LastLetter(i);
      Marked(DIALECTS[i], uri);
    }
    hide Ascii, Base, Names;
  }

  lemma LastLetter(i: nat)
    requires i < 5
    ensures var t := DIALECTS[i]; t != "" && t[|t| - 1] == 'a' && |t| <= 44
  {
  }

  function Base(uri: Bytes): Bytes {
    if uri != [] && uri[|uri| - 1] == '#' as int as byte then uri[..|uri| - 1] else uri
  }

  lemma Marked(text: string, uri: Bytes)
    requires text != "" && text[|text| - 1] != '#' && text[|text| - 1] as int < 128
    ensures Base(uri) == Ascii(text) <==> Names(uri, text)
    ensures Names(uri, text) ==> |uri| <= |text| + 1
  {
    assert Ascii(text + "#") == Ascii(text) + ['#' as int as byte];
    assert Ascii(text)[|text| - 1] == text[|text| - 1] as int as byte;
    assert Base(Ascii(text + "#")) == Ascii(text);
    if Base(uri) == Ascii(text) && Base(uri) != uri {
      assert uri == Base(uri) + ['#' as int as byte];
    }
  }

  /** The value of an object's key. */
  function Lookup(keys: seq<Bytes>, values: seq<Json>, key: Bytes): (r: Option<Json>)
    requires |keys| == |values|
    ensures r.None? <==> key !in keys
    ensures r.Some? ==> exists i :: 0 <= i < |keys| && keys[i] == key && r.value == values[i]
  {
    if keys == [] then None
    else if keys[0] == key then Some(values[0])
    else Lookup(keys[1..], values[1..], key)
  }

  /** The object itself names no dialect, or a supported one. */
  predicate DialectOk(v: Json) {
    v.Obj? && |v.keys| == |v.values| ==>
      var d := Lookup(v.keys, v.values, Ascii("$schema"));
      d.Some? && d.value.Str? ==> Supported(d.value.s)
  }

  predicate DialectsOk(v: Json)
    decreases v, 1
  {
    DialectOk(v) &&
    match v
    case Arr(items) => DialectsAllOk(items)
    case Obj(_, values) => DialectsAllOk(values)
    case _ => true
  }

  predicate DialectsAllOk(vs: seq<Json>)
    decreases vs, 0
  {
    vs == [] || (DialectsAllOk(vs[..|vs| - 1]) && DialectsOk(vs[|vs| - 1]))
  }

  /** Bytes that the compact serializer writes for one byte of a string. */
  function EscapedLength(b: byte): nat {
    if b == 0x22 || b == 0x5C then 2
    else if b == 8 || b == 9 || b == 10 || b == 12 || b == 13 then 2
    else if b < 0x20 then 6
    else 1
  }

  function EscapedAll(s: Bytes): (n: nat)
    ensures n >= |s|
  {
    if s == [] then 0 else EscapedAll(s[..|s| - 1]) + EscapedLength(s[|s| - 1])
  }

  function StringLength(s: Bytes): (n: nat)
    ensures n >= |s| + 2
  {
    EscapedAll(s) + 2
  }

  function KeysLength(keys: seq<Bytes>): nat {
    if keys == [] then 0 else KeysLength(keys[..|keys| - 1]) + StringLength(keys[|keys| - 1]) + 1
  }

  function Commas(n: nat): nat { if n == 0 then 0 else n - 1 }

  function SerializedLength(v: Json): nat
    decreases v, 1
  {
    match v
    case Null => 4
    case Bool(b) => if b then 4 else 5
    case Number(printed) => |printed|
    case Str(s) => StringLength(s)
    case Arr(items) => 2 + SerializedAll(items) + Commas(|items|)
    case Obj(keys, values) => 2 + KeysLength(keys) + SerializedAll(values) + Commas(|values|)
  }

  function SerializedAll(vs: seq<Json>): nat
    decreases vs, 0
  {
    if vs == [] then 0 else SerializedAll(vs[..|vs| - 1]) + SerializedLength(vs[|vs| - 1])
  }

  /** What the preflight is for. */
  predicate Acceptable(v: Json) {
    (v.Bool? || v.Obj?) && Nodes(v) <= 4096 && Depth(v) <= 128 && DialectsOk(v) && SerializedLength(v) <= 65_536
  }

  // ----- The size-limited writer -----

  function Sum(ns: seq<nat>): nat { if ns == [] then 0 else Sum(ns[..|ns| - 1]) + ns[|ns| - 1] }

  lemma {:induction false} SumPrefix(ns: seq<nat>, k: nat)
    requires k <= |ns|
    ensures Sum(ns[..k]) <= Sum(ns)
    decreases |ns|
  {
    if k == |ns| {
      assert ns[..k] == ns;
    } else {
      SumPrefix(ns[..|ns| - 1], k);
      assert ns[..|ns| - 1][..k] == ns[..k];
    }
  }

  class SizeLimitWriter {
    var size: nat
    const limit: nat
    var overflowed: bool

    constructor (limit: nat)
      requires limit < USIZE_MAX
      ensures this.limit == limit && size == 0 && !overflowed
    {
      this.limit := limit;
      size, overflowed := 0, false;
    }

    method Write(n: nat) returns (ok: bool)
      requires size <= limit < USIZE_MAX
      modifies this
      ensures ok <==> old(size) + n <= limit
      ensures ok ==> size == old(size) + n && overflowed == old(overflowed)
      ensures !ok ==> size == limit + 1 && overflowed
    {
      if n > limit - size {
        size := SaturatingAdd(limit, 1);
        overflowed := true;
        return false;
      }
      size := size + n;
      return true;
    }
  }

  /** However the serializer cuts its output into writes, only the total decides. */
  method WriteAll(pieces: seq<nat>, limit: nat) returns (ok: bool)
    requires limit < USIZE_MAX
    ensures ok <==> Sum(pieces) <= limit
  {
    var writer := new SizeLimitWriter(limit);
    for i := 0 to |pieces|
      invariant writer.size == Sum(pieces[..i]) <= limit && writer.limit == limit
    {
      assert pieces[..i + 1][..i] == pieces[..i];
      SumPrefix(pieces, i + 1);
      ok := writer.Write(pieces[i]);
      if !ok {
        return;
      }
    }
    assert pieces[..|pieces|] == pieces;
    return true;
  }

  // ----- The walk -----

  datatype PreflightError =
    | InvalidRoot
    | UnsupportedDialect
    | TooLarge(actual: nat)
    | TooComplex(actual: nat)
    | TooDeep(actual: nat)

  /** The early length test on one string. */
  function TooLong(s: Bytes): Option<nat> {
    var actual := SaturatingAdd(|s|, 2);
    if actual > MAX_BYTES then Some(actual) else None
  }

  /** Strings and keys of one value. */
  function OwnStrings(v: Json): seq<Bytes> {
    match v
    case Str(s) => [s]
    case Obj(keys, _) => keys
    case _ => []
  }

  predicate StringsShort(v: Json) { forall i :: 0 <= i < |OwnStrings(v)| ==> TooLong(OwnStrings(v)[i]).None? }

  /** A value found at a depth stays within the depth limit from there on. */
  predicate Shallow(v: Json, depth: nat) { depth + Depth(v) <= MAX_DEPTH }

  /** The walk's stack: values still to visit, with their depths. */
  type Pending = seq<(Json, nat)>

  function PendingNodes(p: Pending): (n: nat)
    ensures n >= |p|
  {
    if p == [] then 0 else PendingNodes(p[..|p| - 1]) + Nodes(p[|p| - 1].0)
  }

  function PendingLength(p: Pending): nat {
    if p == [] then 0 else PendingLength(p[..|p| - 1]) + SerializedLength(p[|p| - 1].0)
  }

  ghost predicate PendingShallow(p: Pending) {
    forall i :: 0 <= i < |p| ==> Shallow(p[i].0, p[i].1)
  }

  ghost predicate PendingDialects(p: Pending) {
    forall i :: 0 <= i < |p| ==> DialectsOk(p[i].0)
  }

  ghost predicate PendingShaped(p: Pending) {
    forall i :: 0 <= i < |p| ==> Shaped(p[i].0)
  }

  /** No pending value reaches deeper than this. */
  ghost predicate PendingWithin(p: Pending, depth: nat) {
    forall i :: 0 <= i < |p| ==> p[i].1 + Depth(p[i].0) <= depth
  }

  /** `rest` with the children pushed last to first, so that the first is visited next. */
  function Pushed(rest: Pending, vs: seq<Json>, depth: nat): Pending
    decreases |vs|
  {
    if vs == [] then rest else Pushed(rest + [(vs[|vs| - 1], depth)], vs[..|vs| - 1], depth)
  }

  lemma PendingSums(p: Pending, v: Json, depth: nat)
    ensures PendingNodes(p + [(v, depth)]) == PendingNodes(p) + Nodes(v)
    ensures PendingLength(p + [(v, depth)]) == PendingLength(p) + SerializedLength(v)
  {
    hide Nodes, SerializedLength;
    assert (p + [(v, depth)])[..|p|] == p;
  }

  lemma PendingFacts(p: Pending, v: Json, depth: nat)
    ensures PendingShallow(p + [(v, depth)]) <==> PendingShallow(p) && Shallow(v, depth)
    ensures PendingDialects(p + [(v, depth)]) <==> PendingDialects(p) && DialectsOk(v)
    ensures PendingShaped(p + [(v, depth)]) <==> PendingShaped(p) && Shaped(v)
    ensures forall d: nat :: PendingWithin(p + [(v, depth)], d) <==> PendingWithin(p, d) && depth + Depth(v) <= d
  {
    hide Shallow, DialectsOk, Shaped, Depth;
    var q := p + [(v, depth)];
    assert q[|p|] == (v, depth);
    assert forall i :: 0 <= i < |p| ==> q[i] == p[i];
  }

  ghost predicate ShallowBelow(vs: seq<Json>, depth: nat) {
    forall i :: 0 <= i < |vs| ==> Shallow(vs[i], depth)
  }

  lemma ShallowSnoc(vs: seq<Json>, depth: nat)
    requires vs != []
    ensures ShallowBelow(vs, depth) <==> ShallowBelow(vs[..|vs| - 1], depth) && Shallow(vs[|vs| - 1], depth)
  {
    hide Shallow;
  }

  /** Pushing children moves their measures onto the stack. */
  lemma {:induction false} PushedSums(rest: Pending, vs: seq<Json>, depth: nat)
    ensures PendingNodes(Pushed(rest, vs, depth)) == PendingNodes(rest) + NodesAll(vs)
    ensures PendingLength(Pushed(rest, vs, depth)) == PendingLength(rest) + SerializedAll(vs)
    decreases |vs|
  {
    hide Nodes, SerializedLength, PendingNodes, PendingLength;
    if vs != [] {
      PendingSums(rest, vs[|vs| - 1], depth);
      PushedSums(rest + [(vs[|vs| - 1], depth)], vs[..|vs| - 1], depth);
    }
  }

  lemma {:induction false} PushedFacts(rest: Pending, vs: seq<Json>, depth: nat)
    ensures PendingShallow(Pushed(rest, vs, depth)) <==> PendingShallow(rest) && ShallowBelow(vs, depth)
    ensures PendingDialects(Pushed(rest, vs, depth)) <==> PendingDialects(rest) && DialectsAllOk(vs)
    ensures PendingShaped(Pushed(rest, vs, depth)) <==> PendingShaped(rest) && ShapedAll(vs)
    ensures forall d: nat :: PendingWithin(rest, d) && depth + DepthBelow(vs) <= d + 1 ==> PendingWithin(Pushed(rest, vs, depth), d)
    decreases |vs|
  {
    hide Shallow, DialectsOk, Shaped, PendingShallow, PendingDialects, PendingShaped, PendingWithin, Depth;
    if vs != [] {
      ShallowSnoc(vs, depth);
      PendingFacts(rest, vs[|vs| - 1], depth);
      PushedFacts(rest + [(vs[|vs| - 1], depth)], vs[..|vs| - 1], depth);
    }
  }

  lemma {:induction false} ShallowAllBelow(vs: seq<Json>, depth: nat)
    ensures ShallowBelow(vs, depth + 1) <==> vs == [] || depth + DepthBelow(vs) <= MAX_DEPTH
    decreases |vs|
  {
    if vs != [] {
      ShallowSnoc(vs, depth + 1);
      ShallowAllBelow(vs[..|vs| - 1], depth);
      hide ShallowBelow;
    }
  }

  /** A value is shallow exactly when its own depth fits and its children are, one level down. */
  lemma ShallowUnfold(v: Json, depth: nat)
    ensures Shallow(v, depth) <==> depth <= MAX_DEPTH && ShallowBelow(Children(v), depth + 1)
  {
    ShallowAllBelow(Children(v), depth);
    hide ShallowBelow;
    assert Depth(v) == DepthBelow(Children(v));
    assert Children(v) == [] ==> DepthBelow(Children(v)) == 0;
  }

  lemma {:induction false} KeyFits(keys: seq<Bytes>, i: nat)
    requires i < |keys|
    ensures |keys[i]| + 2 <= KeysLength(keys)
    decreases |keys|
  {
    if i < |keys| - 1 {
      KeyFits(keys[..|keys| - 1], i);
    }
  }

  /** The early length rejection never rejects a schema whose text fits. */
  lemma LongStringMakesLongText(v: Json, actual: nat)
    requires exists i :: 0 <= i < |OwnStrings(v)| && TooLong(OwnStrings(v)[i]) == Some(actual)
    ensures MAX_BYTES < actual <= SerializedLength(v)
  {
    var i :| 0 <= i < |OwnStrings(v)| && TooLong(OwnStrings(v)[i]) == Some(actual);
    if v.Obj? {
      KeyFits(v.keys, i);
    }
  }

  /** What the walk has established while `n` nodes are done and `p` is pending. */
  ghost predicate Walking(root: Json, n: nat, p: Pending) {
    && n + PendingNodes(p) == Nodes(root)
    && PendingLength(p) <= SerializedLength(root)
    && (PendingShallow(p) <==> Depth(root) <= MAX_DEPTH)
    && (PendingDialects(p) <==> DialectsOk(root))
    && PendingShaped(p) && PendingWithin(p, Depth(root))
  }

  lemma WalkStarts(root: Json)
    requires Shaped(root)
    ensures Walking(root, 0, [(root, 0)])
  {
    PendingSums([], root, 0);
    PendingFacts([], root, 0);
    assert [] + [(root, 0)] == [(root, 0)];
  }

  /** Visiting the top of the stack keeps what was established. */
  lemma WalkAdvances(root: Json, n: nat, rest: Pending, v: Json, depth: nat)
    requires Walking(root, n, rest + [(v, depth)])
    requires depth <= MAX_DEPTH && DialectOk(v)
    ensures Walking(root, n + 1, Pushed(rest, Children(v), depth + 1))
    ensures PendingNodes(Pushed(rest, Children(v), depth + 1)) < PendingNodes(rest + [(v, depth)])
  {
    PendingSums(rest, v, depth);
    PendingFacts(rest, v, depth);
    PushedSums(rest, Children(v), depth + 1);
    PushedFacts(rest, Children(v), depth + 1);
    ShallowUnfold(v, depth);
    ChildMeasures(v);
    hide Shallow, ShallowBelow, DialectOk, DialectsOk, DialectsAllOk, Shaped, ShapedAll, Nodes, NodesAll, SerializedLength,
         SerializedAll, PendingShallow, PendingDialects, PendingShaped, PendingWithin, PendingNodes, PendingLength, Pushed, Children,
         Depth, DepthBelow;
  }

  lemma ChildMeasures(v: Json)
    ensures Nodes(v) == 1 + NodesAll(Children(v))
    ensures SerializedAll(Children(v)) <= SerializedLength(v) && Depth(v) == DepthBelow(Children(v))
    ensures DialectsOk(v) <==> DialectOk(v) && DialectsAllOk(Children(v))
    ensures Shaped(v) ==> ShapedAll(Children(v))
  {
    hide DialectOk;
  }

  lemma WalkTop(root: Json, n: nat, rest: Pending, v: Json, depth: nat)
    requires Walking(root, n, rest + [(v, depth)])
    ensures Shaped(v)
  {
    PendingFacts(rest, v, depth);
  }

  lemma WalkEnds(root: Json, n: nat)
    requires Walking(root, n, [])
    ensures n == Nodes(root) && Depth(root) <= MAX_DEPTH && DialectsOk(root)
  {
    assert PendingShallow([]) && PendingDialects([]);
  }

  /** What each rejection says about the whole schema; the number that it reports is a bound. */
  ghost predicate Justified(root: Json, e: PreflightError) {
    match e
    case InvalidRoot => !root.Bool? && !root.Obj?
    case TooLarge(actual) => 65_536 < actual <= SerializedLength(root)
    case TooComplex(actual) => 4096 < actual <= Nodes(root)
    case TooDeep(actual) => 128 < actual <= Depth(root)
    case UnsupportedDialect => !DialectsOk(root)
  }

  /** What an error found on one value says about that value. */
  ghost predicate Found(e: PreflightError, v: Json, depth: nat, nodes: nat, waiting: nat) {
    match e
    case InvalidRoot => false
    case TooLarge(actual) => exists i :: 0 <= i < |OwnStrings(v)| && TooLong(OwnStrings(v)[i]) == Some(actual)
    case TooDeep(actual) => actual > MAX_DEPTH && (actual == depth || (actual == depth + 1 && Children(v) != []))
    case TooComplex(actual) => MAX_NODES < actual <= nodes + 1 + waiting + |Children(v)|
    case UnsupportedDialect => !DialectOk(v)
  }

  lemma RejectionIsRight(root: Json, n: nat, rest: Pending, v: Json, depth: nat, e: PreflightError)
    requires Walking(root, n, rest + [(v, depth)]) && !e.InvalidRoot?
    requires Found(e, v, depth, n, |rest|)
    ensures Justified(root, e)
  {
    PendingSums(rest, v, depth);
    PendingFacts(rest, v, depth);
    ChildMeasures(v);
    assert depth + Depth(v) <= Depth(root) by {
      assert (rest + [(v, depth)])[|rest|] == (v, depth);
    }
    match e
    case TooLarge(actual) => LongStringMakesLongText(v, actual);
    case TooDeep(_) =>
      if Children(v) != [] {
        ChildIsDeeper(v);
      }
    case _ =>
    hide Walking, Nodes, SerializedLength, Depth, DialectsOk, DialectOk, Shaped, StringsShort, Children, PendingNodes, PendingLength;
  }

  lemma ChildIsDeeper(v: Json)
    requires Children(v) != []
    ensures Depth(v) >= 1
  {
    assert DepthBelow(Children(v)) >= 1;
  }

  /** The checks on one visited value, in the program's order. */
  method InspectValue(v: Json, depth: nat, nodes: nat, waiting: nat) returns (r: Result<nat, PreflightError>)
    requires Shaped(v) && nodes <= MAX_NODES
    ensures r.Ok? <==> StringsShort(v) && depth <= MAX_DEPTH && nodes + 1 <= MAX_NODES && DialectOk(v)
                       && (Children(v) != [] ==> depth < MAX_DEPTH)
                       && (v.Arr? || v.Obj? ==> nodes + 1 + waiting + |Children(v)| <= MAX_NODES)
    ensures r.Ok? ==> r.value == nodes + 1
    ensures r.Err? ==> Found(r.error, v, depth, nodes, waiting)
  {
    var strings := OwnStrings(v);
    for i := 0 to |strings|
      invariant forall k :: 0 <= k < i ==> TooLong(strings[k]).None?
    {
      var long := TooLong(strings[i]);
      if long.Some? {
        return Err(TooLarge(long.value));
      }
    }
    if depth > MAX_DEPTH {
      return Err(TooDeep(depth));
    }
    var count := SaturatingAdd(nodes, 1);
    if count > MAX_NODES {
      return Err(TooComplex(count));
    }
    if !DialectOk(v) {
      return Err(UnsupportedDialect);
    }
    if v.Arr? || v.Obj? {
      if depth == MAX_DEPTH && Children(v) != [] {
        return Err(TooDeep(depth + 1));
      }
      var frontier := SaturatingAdd(SaturatingAdd(count, waiting), |Children(v)|);
      if frontier > MAX_NODES {
        return Err(TooComplex(frontier));
      }
    }
    return Ok(count);
  }

  method PushChildren(rest: Pending, vs: seq<Json>, depth: nat) returns (p: Pending)
    ensures p == Pushed(rest, vs, depth)
  {
    p := rest;
    var k := |vs|;
    assert vs[..k] == vs;
    while k > 0
      invariant 0 <= k <= |vs|
      invariant Pushed(p, vs[..k], depth) == Pushed(rest, vs, depth)
    {
      assert vs[..k][..k - 1] == vs[..k - 1];
      p := p + [(vs[k - 1], depth)];
      k := k - 1;
    }
  }

  /**
    The whole preflight.  `pieces` are the lengths of the writes by which the serializer
    delivers the text of the schema.
   */
  method InspectSchemaLimits(schema: Json, pieces: seq<nat>) returns (r: Result<(), PreflightError>)
    requires Shaped(schema) && Sum(pieces) == SerializedLength(schema)
    ensures r.Ok? <==> Acceptable(schema)
    ensures r.Err? ==> Justified(schema, r.error)
  {
    if !schema.Bool? && !schema.Obj? {
      return Err(InvalidRoot);
    }
    var nodes: nat := 0;
    var pending: Pending := [(schema, 0)];
    WalkStarts(schema);
    while pending != []
      invariant Walking(schema, nodes, pending) && nodes <= MAX_NODES
      decreases PendingNodes(pending)
    {
      hide Walking, PendingNodes, Justified, Acceptable;
      var rest, top := pending[..|pending| - 1], pending[|pending| - 1];
      assert pending == rest + [top];
      var visited := VisitTop(schema, nodes, rest, top.0, top.1);
      if visited.Err? {
        JustifiedRejects(schema, visited.error);
        return Err(visited.error);
      }
      nodes, pending := visited.value.0, visited.value.1;
    }
    WalkEnds(schema, nodes);
    var fits := WriteAll(pieces, MAX_BYTES);
    if !fits {
      return Err(TooLarge(MAX_BYTES + 1));
    }
    return Ok(());
  }

  /** One turn of the loop: inspect the top of the stack, `v`, and replace it by its children. */
  method VisitTop(ghost root: Json, nodes: nat, rest: Pending, v: Json, depth: nat) returns (r: Result<(nat, Pending), PreflightError>)
    requires Walking(root, nodes, rest + [(v, depth)]) && nodes <= MAX_NODES
    ensures r.Ok? ==> Walking(root, r.value.0, r.value.1) && r.value.0 <= MAX_NODES
                      && PendingNodes(r.value.1) < PendingNodes(rest + [(v, depth)])
    ensures r.Err? ==> Justified(root, r.error) && !r.error.InvalidRoot?
  {
    hide Walking, PendingNodes, Justified, Pushed, Shaped, StringsShort, DialectOk, Children, OwnStrings, TooLong;
    WalkTop(root, nodes, rest, v, depth);
    var inspected := InspectValue(v, depth, nodes, |rest|);
    if inspected.Err? {
      RejectionIsRight(root, nodes, rest, v, depth, inspected.error);
      return Err(inspected.error);
    }
    WalkAdvances(root, nodes, rest, v, depth);
    var below := PushChildren(rest, Children(v), depth + 1);
    return Ok((inspected.value, below));
  }

  lemma JustifiedRejects(root: Json, e: PreflightError)
    requires Justified(root, e)
    ensures !Acceptable(root)
  {
  }
}

/**
  Trusted endpoints of a transport policy.  A request names a path only; the transport picks
  the first endpoint whose prefix matches.  The policy refuses endpoint lists for which the
  order could decide the authority.
 */
module EndpointRouting {
  import opened Common

  datatype Endpoint = Endpoint(authority: string, prefix: string)

  /** The path is the prefix itself or lies below it. */
  predicate Matches(prefix: string, path: string) {
    path == prefix || prefix + "/" <= path
  }

  predicate Clash(a: Endpoint, b: Endpoint) {
    a.authority != b.authority && (Matches(a.prefix, b.prefix) || Matches(b.prefix, a.prefix))
  }

  ghost predicate PairwiseClear(es: seq<Endpoint>) {
    forall i, j :: 0 <= i < j < |es| ==> !Clash(es[i], es[j])
  }

  /** What the check is for: no path has a choice between two authorities. */
  ghost predicate OneAuthority(es: seq<Endpoint>, path: string) {
    forall a, b :: a in es && b in es && Matches(a.prefix, path) && Matches(b.prefix, path) ==> a.authority == b.authority
  }

  /** The policy's nested comparison. */
  method CheckEndpoints(es: seq<Endpoint>) returns (clear: bool)
    ensures clear <==> PairwiseClear(es)
    ensures clear <==> forall path :: OneAuthority(es, path)
  {
    PairwiseDecides(es);
    for i := 0 to |es|
      invariant forall k, j :: 0 <= k < i && k < j < |es| ==> !Clash(es[k], es[j])
    {
      for j := i + 1 to |es|
        invariant forall m :: i < m < j ==> !Clash(es[i], es[m])
      {
        if Clash(es[i], es[j]) {
          return false;
        }
      }
    }
    return true;
  }

  /** If two prefixes match one path, the shorter of them matches the longer. */
  lemma CommonPathNests(p: string, q: string, path: string)
    requires Matches(p, path) && Matches(q, path) && |p| <= |q|
    ensures Matches(p, q)
  {
    if |p| == |q| {
      assert p == path[..|p|] == q;
    } else {
      assert p + "/" <= path;
      assert q == path[..|q|];
      assert p + "/" == path[..|p| + 1] == q[..|p| + 1];
    }
  }

  /** Comparing pairs of prefixes decides the question for all paths. */
  lemma PairwiseDecides(es: seq<Endpoint>)
    ensures PairwiseClear(es) <==> forall path :: OneAuthority(es, path)
  {
    if PairwiseClear(es) {
      forall path, a, b | a in es && b in es && Matches(a.prefix, path) && Matches(b.prefix, path)
        ensures a.authority == b.authority
      {
        if |a.prefix| <= |b.prefix| {
          CommonPathNests(a.prefix, b.prefix, path);
        } else {
          CommonPathNests(b.prefix, a.prefix, path);
        }
        var i :| 0 <= i < |es| && es[i] == a;
        var j :| 0 <= j < |es| && es[j] == b;
        assert i < j ==> !Clash(es[i], es[j]);
        assert j < i ==> !Clash(es[j], es[i]);
      }
    } else {
      var i, j :| 0 <= i < j < |es| && Clash(es[i], es[j]);
      var path := if Matches(es[i].prefix, es[j].prefix) then es[j].prefix else es[i].prefix;
      assert es[i] in es && es[j] in es;
      assert !OneAuthority(es, path);
    }
  }

  /** Selection by the transport: the first endpoint in list order. */
  function FirstMatch(es: seq<Endpoint>, path: string): (r: Option<Endpoint>)
    ensures r.Some? ==> r.value in es && Matches(r.value.prefix, path)
    ensures r.None? ==> forall e :: e in es ==> !Matches(e.prefix, path)
  {
    if es == [] then None
    else if Matches(es[0].prefix, path) then Some(es[0])
    else FirstMatch(es[1..], path)
  }

  predicate Contains(s: string, part: string) {
    part <= s || (s != [] && Contains(s[1..], part))
  }

  /** Paths that could leave the trusted prefix are denied before any endpoint is tried. */
  function AdmitPath(es: seq<Endpoint>, path: string): Option<Endpoint> {
    if !Plain(path) || !("/" <= path) then None else FirstMatch(es, path)
  }

  predicate Plain(path: string) { !Contains(path, "://") && !Contains(path, "..") }

  function Authority(e: Option<Endpoint>): Option<string> { if e.Some? then Some(e.value.authority) else None }

  /** After the check, no reordering of the endpoints changes where any path is sent. */
  lemma RoutingIgnoresOrder(es: seq<Endpoint>, reordered: seq<Endpoint>, path: string)
    requires PairwiseClear(es) && multiset(es) == multiset(reordered)
    ensures Authority(AdmitPath(es, path)) == Authority(AdmitPath(reordered, path))
  {
    PairwiseDecides(es);
    assert OneAuthority(es, path);
    assert forall e :: e in es <==> e in reordered by {
      forall e
        ensures e in es <==> e in reordered
      {
        assert e in es <==> e in multiset(es);
        assert e in reordered <==> e in multiset(reordered);
      }
    }
  }

  function ToFront(es: seq<Endpoint>, i: nat): seq<Endpoint>
    requires i < |es|
  {
    [es[i]] + es[..i] + es[i + 1..]
  }

  lemma ToFrontReorders(es: seq<Endpoint>, i: nat)
    requires i < |es|
    ensures multiset(es) == multiset(ToFront(es, i))
  {
    assert es == es[..i] + [es[i]] + es[i + 1..];
  }

  lemma {:induction false} ContainsGrows(s: string, longer: string, part: string)
    requires s <= longer && Contains(s, part)
    ensures Contains(longer, part)
    decreases |s|
  {
    if !(part <= s) {
      assert s[1..] <= longer[1..];
      ContainsGrows(s[1..], longer[1..], part);
    }
  }

  /** The two orders of the list send an admitted path to different authorities. */
  predicate Diverge(es: seq<Endpoint>, reordered: seq<Endpoint>, path: string) {
    multiset(es) == multiset(reordered) && Authority(AdmitPath(es, path)) != Authority(AdmitPath(reordered, path))
  }

  function Longer(p: string, q: string): string { if |p| <= |q| then q else p }

  /** Two endpoints clash at a prefix that a path can still name. */
  predicate OpenClash(a: Endpoint, b: Endpoint) { Clash(a, b) && Plain(Longer(a.prefix, b.prefix)) }

  lemma DivergenceClashes(es: seq<Endpoint>, reordered: seq<Endpoint>, path: string)
    requires Diverge(es, reordered, path)
    ensures exists i, j :: 0 <= i < j < |es| && OpenClash(es[i], es[j])
  {
    var a, b := FirstMatch(es, path), FirstMatch(reordered, path);
    assert forall e :: e in es <==> e in multiset(es);
    assert forall e :: e in reordered <==> e in multiset(reordered);
    var i :| 0 <= i < |es| && es[i] == a.value;
    var j :| 0 <= j < |es| && es[j] == b.value;
    MatchedPairClashes(es[i], es[j], path);
    MatchedPairClashes(es[j], es[i], path);
    hide OpenClash, AdmitPath, Authority, FirstMatch;
    assert i < j ==> OpenClash(es[i], es[j]);
    assert j < i ==> OpenClash(es[j], es[i]);
  }

  lemma MatchedPairClashes(a: Endpoint, b: Endpoint, path: string)
    requires Matches(a.prefix, path) && Matches(b.prefix, path) && a.authority != b.authority && Plain(path)
    ensures OpenClash(a, b)
  {
    if |a.prefix| <= |b.prefix| {
      CommonPathNests(a.prefix, b.prefix, path);
    } else {
      CommonPathNests(b.prefix, a.prefix, path);
    }
    var long := Longer(a.prefix, b.prefix);
    assert long <= path;
    hide Contains, Matches;
    if Contains(long, "://") {
      ContainsGrows(long, path, "://");
    }
    if Contains(long, "..") {
      ContainsGrows(long, path, "..");
    }
  }

  /** The longer of two clashing prefixes, or the root, is a path that both endpoints match. */
  lemma ClashHasPath(a: Endpoint, b: Endpoint) returns (path: string)
    requires OpenClash(a, b) && Rooted(a.prefix) && Rooted(b.prefix)
    ensures Plain(path) && "/" <= path && Matches(a.prefix, path) && Matches(b.prefix, path)
  {
    var long := Longer(a.prefix, b.prefix);
    if long == "" {
      RootIsPlain();
      path := "/";
    } else {
      hide Plain;
      path := long;
    }
  }

  lemma RootIsPlain()
    ensures Plain("/")
  {
    assert "/"[1..] == "";
  }

  predicate Rooted(prefix: string) { prefix == "" || "/" <= prefix }

  lemma ClashDiverges(es: seq<Endpoint>, i: nat, j: nat) returns (reordered: seq<Endpoint>, path: string)
    requires i < j < |es| && OpenClash(es[i], es[j]) && Rooted(es[i].prefix) && Rooted(es[j].prefix)
    ensures Diverge(es, reordered, path)
  {
    path := ClashHasPath(es[i], es[j]);
    assert es[i].authority != es[j].authority;
    hide Matches, Plain, OpenClash;
    var first := FirstMatch(es, path).value;
    var k := if first.authority == es[i].authority then j else i;
    reordered := ToFront(es, k);
    ToFrontReorders(es, k);
    assert reordered[0] == es[k];
    assert FirstMatch(reordered, path) == Some(es[k]);
  }

  /**
    The order of the endpoints decides where some admitted path is sent if and only if two
    of them clash at a prefix that a path can name; the check refuses all clashes.
   */
  lemma OrderMattersExactly(es: seq<Endpoint>)
    requires forall e :: e in es ==> Rooted(e.prefix)
    ensures (exists reordered, path :: Diverge(es, reordered, path)) <==>
            (exists i, j :: 0 <= i < j < |es| && OpenClash(es[i], es[j]))
  {
    hide Diverge, OpenClash;
    if exists reordered, path :: Diverge(es, reordered, path) {
      var reordered, path :| Diverge(es, reordered, path);
      DivergenceClashes(es, reordered, path);
    }
    if exists i, j :: 0 <= i < j < |es| && OpenClash(es[i], es[j]) {
      var i, j :| 0 <= i < j < |es| && OpenClash(es[i], es[j]);
      var reordered, path := ClashDiverges(es, i, j);
    }
  }

  // ----- What is admitted -----

  predicate OccursAt(s: string, part: string, i: int) { 0 <= i <= |s| - |part| && s[i..i + |part|] == part }

  lemma OccursShift(s: string, part: string, i: int)
    requires s != []
    ensures OccursAt(s[1..], part, i) <==> i >= 0 && OccursAt(s, part, i + 1)
    ensures OccursAt(s, part, 0) <==> part <= s
  {
    if 0 <= i <= |s| - 1 - |part| {
      assert s[1..][i..i + |part|] == s[i + 1..i + 1 + |part|];
    }
  }

  lemma {:induction false} ContainsIs(s: string, part: string)
    ensures Contains(s, part) <==> exists i :: OccursAt(s, part, i)
    decreases |s|
  {
    if s == [] {
      assert part <= s ==> OccursAt(s, part, 0);
      assert forall i :: OccursAt(s, part, i) ==> part == s;
    } else {
      ContainsIs(s[1..], part);
      OccursShift(s, part, 0);
      assert forall i :: OccursAt(s, part, i) ==> i >= 0;
      hide OccursAt;
      if i :| OccursAt(s[1..], part, i) {
        OccursShift(s, part, i);
      }
      if i :| OccursAt(s, part, i) {
        OccursShift(s, part, i - 1);
      }
    }
  }

  /** The path goes up nowhere and names no scheme. */
  predicate StaysBelow(path: string) {
    && (forall i :: 0 <= i < |path| - 1 ==> !(path[i] == '.' && path[i + 1] == '.'))
    && (forall i :: 0 <= i < |path| - 2 ==> !(path[i] == ':' && path[i + 1] == '/' && path[i + 2] == '/'))
  }

  /** The path is the prefix, or the prefix, a slash and more. */
  predicate AtOrBelow(prefix: string, path: string) {
    path == prefix || (|prefix| < |path| && path[..|prefix|] == prefix && path[|prefix|] == '/')
  }

  lemma PlainIs(path: string)
    ensures Plain(path) <==> StaysBelow(path)
  {
    ContainsIs(path, "..");
    ContainsIs(path, "://");
    hide Contains;
    forall i
      ensures OccursAt(path, "..", i) <==> 0 <= i < |path| - 1 && path[i] == '.' && path[i + 1] == '.'
      ensures OccursAt(path, "://", i) <==> 0 <= i < |path| - 2 && path[i] == ':' && path[i + 1] == '/' && path[i + 2] == '/'
    {
      assert 0 <= i < |path| - 1 ==> path[i..i + 2] == [path[i], path[i + 1]];
      assert 0 <= i < |path| - 2 ==> path[i..i + 3] == [path[i], path[i + 1], path[i + 2]];
    }
    hide OccursAt;
    if Plain(path) {
      forall i | 0 <= i < |path| - 1
        ensures !(path[i] == '.' && path[i + 1] == '.')
      {
        assert !OccursAt(path, "..", i);
      }
      forall i | 0 <= i < |path| - 2
        ensures !(path[i] == ':' && path[i + 1] == '/' && path[i + 2] == '/')
      {
        assert !OccursAt(path, "://", i);
      }
    } else if Contains(path, "..") {
      var i :| OccursAt(path, "..", i);
      assert path[i] == '.' && path[i + 1] == '.';
    } else {
      var i :| OccursAt(path, "://", i);
      assert path[i] == ':' && path[i + 1] == '/' && path[i + 2] == '/';
    }
  }

  lemma MatchesIs(prefix: string, path: string)
    ensures Matches(prefix, path) <==> AtOrBelow(prefix, path)
  {
    if |prefix| < |path| {
      assert path[..|prefix| + 1] == path[..|prefix|] + [path[|prefix|]];
    }
  }

  lemma {:induction false} FirstMatchIs(es: seq<Endpoint>, path: string, k: nat)
    requires k < |es| && Matches(es[k].prefix, path) && forall j :: 0 <= j < k ==> !Matches(es[j].prefix, path)
    ensures FirstMatch(es, path) == Some(es[k])
    decreases k
  {
    if k > 0 {
      FirstMatchIs(es[1..], path, k - 1);
    }
  }

  /** The endpoint at `k` is the first at or above the path. */
  predicate Chosen(es: seq<Endpoint>, path: string, k: nat) {
    k < |es| && AtOrBelow(es[k].prefix, path) && forall j :: 0 <= j < k ==> !AtOrBelow(es[j].prefix, path)
  }

  /** An admitted path is absolute, stays below, and is sent to the first endpoint that it lies under; and only such a path. */
  lemma AdmittedExactly(es: seq<Endpoint>, path: string, e: Endpoint)
    ensures AdmitPath(es, path) == Some(e) <==>
            path != "" && path[0] == '/' && StaysBelow(path) && exists k: nat :: Chosen(es, path, k) && es[k] == e
  {
    PlainIs(path);
    forall i | 0 <= i < |es|
      ensures Matches(es[i].prefix, path) <==> AtOrBelow(es[i].prefix, path)
    {
      MatchesIs(es[i].prefix, path);
    }
    hide Plain, StaysBelow, Matches, AtOrBelow;
    assert "/" <= path <==> path != "" && path[0] == '/';
    if k: nat :| Chosen(es, path, k) && es[k] == e {
      FirstMatchIs(es, path, k);
    }
    if FirstMatch(es, path) == Some(e) {
      var k := FirstIndex(es, path);
      FirstMatchIs(es, path, k);
      assert Chosen(es, path, k);
    }
  }

  lemma {:induction false} FirstIndex(es: seq<Endpoint>, path: string) returns (k: nat)
    requires FirstMatch(es, path).Some?
    ensures k < |es| && Matches(es[k].prefix, path) && forall j :: 0 <= j < k ==> !Matches(es[j].prefix, path)
    decreases |es|
  {
    hide Matches;
    if Matches(es[0].prefix, path) {
      k := 0;
    } else {
      var rest := FirstIndex(es[1..], path);
      k := rest + 1;
      assert forall j :: 1 <= j < k ==> es[j] == es[1..][j - 1];
    }
  }
}

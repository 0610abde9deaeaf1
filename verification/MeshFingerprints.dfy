/** What route keys and route fingerprints tell apart: both are digests of fields joined with bars. */
module MeshFingerprints {
  import opened Text
  import opened Digests
  import opened Mesh

  // ---------------------------------------------------------------- keys

  /** Fields without bars, which the decoder of a payload does not insist on. */
  predicate NoBars(origin: Origin) {
    var d := origin.dependency;
    BAR !in origin.service && BAR !in d.alias && BAR !in d.target && BAR !in d.protocol && BAR !in d.endpoint
  }

  lemma KeySplits(origin: Origin)
    requires NoBars(origin)
    ensures var d := origin.dependency;
            Split(KeyText(origin), BAR) == [origin.service, d.alias, d.target, d.protocol, d.endpoint]
  {
    var d := origin.dependency;
    SplitJoin([origin.service, d.alias, d.target, d.protocol, d.endpoint], BAR);
  }

  /** Without bars two dependencies share a key only if they are the same. */
  lemma NoBarsSeparate(a: Origin, b: Origin)
    requires NoBars(a) && NoBars(b)
    ensures KeyOf(a) == KeyOf(b) <==> a == b
  {
    DigestIsInjective(KeyText(a), KeyText(b));
    KeySplits(a);
    KeySplits(b);
  }

  // ---------------------------------------------------------------- lines

  /** No peer name holds two bars side by side. */
  predicate NoDoublyBarredPeer(routes: seq<Route>) {
    forall k :: 0 <= k < |routes| ==> NoDoubleBar(routes[k].targetPeer)
  }

  /** The fields of a line in front of the target peer. */
  function Header(part: Part): seq<string> {
    [part.key, KindText(part.kind), StatusText(part.status), ProviderText(part.provider)]
  }

  lemma {:induction false} BehindPieces(pieces: seq<string>, last: string)
    requires forall k :: 0 <= k < |pieces| ==> BAR !in pieces[k]
    ensures Behind(Join(pieces + [last], BAR), |pieces|) == Some(last)
  {
    if pieces == [] {
      assert pieces + [last] == [last];
    } else {
      BehindPieces(pieces[1..], last);
      assert (pieces + [last])[1..] == pieces[1..] + [last];
      BehindPiece(pieces[0], Join(pieces[1..] + [last], BAR), |pieces|);
      assert Join(pieces + [last], BAR) == pieces[0] + [BAR] + Join(pieces[1..] + [last], BAR);
    }
  }

  lemma {:induction false} BehindPiece(piece: string, more: string, n: nat)
    requires n > 0 && BAR !in piece
    ensures Behind(piece + [BAR] + more, n) == Behind(more, n - 1)
  {
    var s := piece + [BAR] + more;
    if piece == "" {
      assert s[1..] == more;
    } else {
      BehindPiece(piece[1..], more, n);
      assert s[1..] == piece[1..] + [BAR] + more;
    }
  }

  lemma LineIsHeaderAndPeer(part: Part)
    ensures LineOf(part) == Join(Header(part) + [part.targetPeer], BAR)
  {
    assert Header(part) + [part.targetPeer]
        == [part.key, KindText(part.kind), StatusText(part.status), ProviderText(part.provider), part.targetPeer];
  }

  lemma RouteLine(route: Route)
    requires NoDoubleBar(route.targetPeer)
    ensures IsLine(LineOf(PartOf(route)))
  {
    var part := PartOf(route);
    LineIsHeaderAndPeer(part);
    BehindPieces(Header(part), route.targetPeer);
    assert part.key[0] in part.key && LineOf(part)[0] == part.key[0];
  }

  /** Joined fields are equal only if the fields are, when all but the last are without bars. */
  lemma {:induction false} JoinedFieldsDiffer(a: seq<string>, b: seq<string>, x: string, y: string)
    requires |a| == |b| && Join(a + [x], BAR) == Join(b + [y], BAR)
    requires forall k :: 0 <= k < |a| ==> BAR !in a[k] && BAR !in b[k]
    ensures a == b && x == y
  {
    if a == [] {
      assert a + [x] == [x] && b + [y] == [y];
    } else {
      assert (a + [x])[1..] == a[1..] + [x] && (b + [y])[1..] == b[1..] + [y];
      FirstPieceIsClear(a[0], b[0], Join(a[1..] + [x], BAR), Join(b[1..] + [y], BAR));
      JoinedFieldsDiffer(a[1..], b[1..], x, y);
      assert a == [a[0]] + a[1..] && b == [b[0]] + b[1..];
    }
  }

  lemma FirstPieceIsClear(p: string, q: string, more: string, rest: string)
    requires BAR !in p && BAR !in q && p + [BAR] + more == q + [BAR] + rest
    ensures p == q && more == rest
  {
    var s, t := p + [BAR] + more, q + [BAR] + rest;
    assert s[|p|] == BAR && forall k :: 0 <= k < |p| ==> s[k] == p[k];
    assert t[|q|] == BAR && forall k :: 0 <= k < |q| ==> t[k] == q[k];
    assert |p| == |q|;
    assert p == s[..|p|] && q == t[..|q|] && more == s[|p| + 1..] && rest == t[|q| + 1..];
  }

  lemma LinesDiffer(a: Part, b: Part)
    requires BAR !in a.key && BAR !in b.key && LineOf(a) == LineOf(b)
    ensures a == b
  {
    LineIsHeaderAndPeer(a);
    LineIsHeaderAndPeer(b);
    JoinedFieldsDiffer(Header(a), Header(b), a.targetPeer, b.targetPeer);
    assert Header(a)[0] == a.key && Header(b)[0] == b.key;
    assert Header(a)[1] == KindText(a.kind) && Header(a)[2] == StatusText(a.status);
    assert Header(a)[3] == ProviderText(a.provider);
    TextsDiffer(a, b);
  }

  lemma TextsDiffer(a: Part, b: Part)
    requires KindText(a.kind) == KindText(b.kind) && StatusText(a.status) == StatusText(b.status)
    requires ProviderText(a.provider) == ProviderText(b.provider)
    ensures a.kind == b.kind && a.status == b.status && a.provider == b.provider
  {
    assert |ProviderText(a.provider)| == |ProviderText(b.provider)|;
    assert |StatusText(a.status)| == |StatusText(b.status)|;
  }

  // ---------------------------------------------------------------- fingerprints

  /** The order of the route table does not matter to its fingerprint. */
  lemma FingerprintIgnoresOrder(a: seq<Route>, b: seq<Route>)
    requires multiset(a) == multiset(b)
    ensures FingerprintOf(a) == FingerprintOf(b)
  {
    assert |multiset(a)| == |a| && |multiset(b)| == |b|;
    MapPermutes(PartOf, a, b);
    MapPermutes(LineOf, Map(PartOf, a), Map(PartOf, b));
    SortedAlikeExactlyWhen(LinesOf(Map(PartOf, a)), LinesOf(Map(PartOf, b)));
  }

  lemma SortedLines(routes: seq<Route>)
    requires NoDoublyBarredPeer(routes)
    ensures var sorted := Sort(LinesOf(Map(PartOf, routes)));
            AllLines(sorted) && |sorted| == |routes|
  {
    var lines := LinesOf(Map(PartOf, routes));
    SortKeepsAll(lines);
    assert |multiset(Sort(lines))| == |Sort(lines)| && |multiset(lines)| == |lines|;
    forall k | 0 <= k < |Sort(lines)| ensures IsLine(Sort(lines)[k]) {
      assert Sort(lines)[k] in multiset(lines);
      var i :| 0 <= i < |lines| && lines[i] == Sort(lines)[k];
      RouteLine(routes[i]);
    }
  }

  lemma SameSortedLines(a: seq<Route>, b: seq<Route>)
    requires NoDoublyBarredPeer(a) && NoDoublyBarredPeer(b) && FingerprintOf(a) == FingerprintOf(b)
    ensures multiset(LinesOf(Map(PartOf, a))) == multiset(LinesOf(Map(PartOf, b)))
  {
    if a != [] && b != [] {
      var x, y := Sort(LinesOf(Map(PartOf, a))), Sort(LinesOf(Map(PartOf, b)));
      SortedLines(a);
      SortedLines(b);
      DigestIsInjective(JoinLines(x), JoinLines(y));
      JoinedLinesAreKeptApart(x, y);
      SortedAlikeExactlyWhen(LinesOf(Map(PartOf, a)), LinesOf(Map(PartOf, b)));
    }
  }

  lemma SameLinesSameParts(a: seq<Route>, b: seq<Route>)
    requires multiset(LinesOf(Map(PartOf, a))) == multiset(LinesOf(Map(PartOf, b)))
    ensures multiset(Map(PartOf, a)) == multiset(Map(PartOf, b))
  {
    forall x, y | x in Map(PartOf, a) && y in Map(PartOf, b) && LineOf(x) == LineOf(y) ensures x == y {
      var i :| 0 <= i < |a| && Map(PartOf, a)[i] == x;
      var j :| 0 <= j < |b| && Map(PartOf, b)[j] == y;
      assert x == PartOf(a[i]) && y == PartOf(b[j]);
      LinesDiffer(x, y);
    }
    MapDecides(LineOf, Map(PartOf, a), Map(PartOf, b));
  }

  /**
   Unless a peer name holds two bars side by side, equal fingerprints mean the same keys, kinds, statuses, providers
   and target peers.
   */
  lemma FingerprintsAgreeExactlyWhen(a: seq<Route>, b: seq<Route>)
    requires NoDoublyBarredPeer(a) && NoDoublyBarredPeer(b)
    ensures FingerprintOf(a) == FingerprintOf(b) <==> multiset(Map(PartOf, a)) == multiset(Map(PartOf, b))
  {
    if FingerprintOf(a) == FingerprintOf(b) {
      SameSortedLines(a, b);
      SameLinesSameParts(a, b);
    }
    if multiset(Map(PartOf, a)) == multiset(Map(PartOf, b)) {
      assert |multiset(Map(PartOf, a))| == |a| && |multiset(Map(PartOf, b))| == |b|;
      MapPermutes(LineOf, Map(PartOf, a), Map(PartOf, b));
      SortedAlikeExactlyWhen(LinesOf(Map(PartOf, a)), LinesOf(Map(PartOf, b)));
    }
  }

  // ---------------------------------------------------------------- bars in peer names

  lemma {:induction false} JoinLonger(pieces: seq<string>, more: string)
    requires pieces != []
    ensures var n := |pieces| - 1; Join(pieces[..n] + [pieces[n] + more], BAR) == Join(pieces, BAR) + more
  {
    var n := |pieces| - 1;
    var longer := pieces[..n] + [pieces[n] + more];
    if n > 0 {
      JoinLonger(pieces[1..], more);
      assert longer[1..] == pieces[1..][..n - 1] + [pieces[1..][n - 1] + more];
    }
  }

  /** The target peer of the route that has the lines of both routes as its one line. */
  function BothLines(a: Route, b: Route): Route {
    a.(targetPeer := a.targetPeer + (BARS + LineOf(PartOf(b))))
  }

  lemma BothLinesAreBarred(a: Route, b: Route)
    ensures !NoDoubleBar(BothLines(a, b).targetPeer)
  {
    var peer, k := BothLines(a, b).targetPeer, |a.targetPeer|;
    assert peer[k] == BAR && peer[k + 1] == BAR;
  }

  lemma OneLineForTwo(a: Route, b: Route)
    ensures LineOf(PartOf(BothLines(a, b))) == JoinLines([LineOf(PartOf(a)), LineOf(PartOf(b))])
  {
    var part := PartOf(a);
    var more := BARS + LineOf(PartOf(b));
    var fields :=
      [part.key, KindText(part.kind), StatusText(part.status), ProviderText(part.provider), part.targetPeer];
    JoinLonger(fields, more);
    assert fields[..4] + [fields[4] + more]
        == [part.key, KindText(part.kind), StatusText(part.status), ProviderText(part.provider),
            part.targetPeer + more];
    assert [LineOf(part), LineOf(PartOf(b))][1..] == [LineOf(PartOf(b))];
  }

  lemma SortOne(x: string)
    ensures Sort([x]) == [x]
  {
    assert [x][1..] == [];
  }

  lemma SortTwo(x: string, y: string)
    requires Leq(x, y)
    ensures Sort([x, y]) == [x, y]
  {
    assert [x, y][1..] == [y];
    SortOne(y);
    assert [x] + [y] == [x, y];
  }

  lemma TwoRoutes(a: Route, b: Route)
    requires Leq(LineOf(PartOf(a)), LineOf(PartOf(b)))
    ensures FingerprintOf([BothLines(a, b)]) == FingerprintOf([a, b])
  {
    var x, y := LineOf(PartOf(a)), LineOf(PartOf(b));
    OneLineForTwo(a, b);
    assert LinesOf(Map(PartOf, [a, b])) == [x, y];
    SortTwo(x, y);
    var one := LineOf(PartOf(BothLines(a, b)));
    assert LinesOf(Map(PartOf, [BothLines(a, b)])) == [one];
    SortOne(one);
  }

  /** With two bars in peer names fingerprints do collide: any two routes share theirs with some single route. */
  lemma BarredPeersCollide(a: Route, b: Route) returns (r: Route)
    ensures FingerprintOf([r]) == FingerprintOf([a, b]) && !NoDoublyBarredPeer([r])
  {
    LeqIsTotal(LineOf(PartOf(a)), LineOf(PartOf(b)));
    if Leq(LineOf(PartOf(a)), LineOf(PartOf(b))) {
      r := BothLines(a, b);
      BothLinesAreBarred(a, b);
      TwoRoutes(a, b);
    } else {
      r := BothLines(b, a);
      BothLinesAreBarred(b, a);
      TwoRoutes(b, a);
      assert multiset([a, b]) == multiset([b, a]);
      FingerprintIgnoresOrder([a, b], [b, a]);
    }
    assert [r][0] == r;
  }
}

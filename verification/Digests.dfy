/** Digests of joined text: an injective stand-in for a hash, sorted lines, and what joining them keeps apart. */
module Digests {
  import opened Text

  const BAR: char := '|'

  // ---------------------------------------------------------------- digests

  /** Text written without bars, so that nothing is lost. */
  function Escaped(s: string): (t: string)
    ensures BAR !in t
  {
    if s == "" then ""
    else if s[0] == BAR then ['/', 'p'] + Escaped(s[1..])
    else if s[0] == '/' then ['/', 's'] + Escaped(s[1..])
    else [s[0]] + Escaped(s[1..])
  }

  function Unescaped(t: string): string {
    if t == "" then ""
    else if t[0] == '/' && |t| > 1 then [if t[1] == 'p' then BAR else '/'] + Unescaped(t[2..])
    else [t[0]] + Unescaped(t[1..])
  }

  lemma UnescapePair(c: char, rest: string)
    ensures Unescaped(['/', c] + rest) == [if c == 'p' then BAR else '/'] + Unescaped(rest)
  {
    assert (['/', c] + rest)[2..] == rest;
  }

  lemma UnescapePlain(c: char, rest: string)
    requires c != '/'
    ensures Unescaped([c] + rest) == [c] + Unescaped(rest)
  {
    assert ([c] + rest)[1..] == rest;
  }

  lemma {:induction false} EscapedLosesNothing(s: string)
    ensures Unescaped(Escaped(s)) == s
  {
    if s != "" {
      EscapedLosesNothing(s[1..]);
      var rest := Escaped(s[1..]);
      if s[0] == BAR {
        UnescapePair('p', rest);
      } else if s[0] == '/' {
        UnescapePair('s', rest);
      } else {
        UnescapePlain(s[0], rest);
      }
      assert s == [s[0]] + s[1..];
    }
  }

  /** Stands for a hash in hexadecimal: only that it is injective, not empty and without bars is used. */
  function Digest(s: string): (d: string)
    ensures d != "" && BAR !in d
  {
    "route_" + Escaped(s)
  }

  lemma DigestIsInjective(a: string, b: string)
    ensures Digest(a) == Digest(b) <==> a == b
  {
    if Digest(a) == Digest(b) {
      assert Digest(a)[6..] == Escaped(a) && Digest(b)[6..] == Escaped(b);
      EscapedLosesNothing(a);
      EscapedLosesNothing(b);
    }
  }

  // ---------------------------------------------------------------- sorting lines

  predicate Leq(a: string, b: string)
    decreases |a|
  {
    a == "" || (b != "" && (a[0] < b[0] || (a[0] == b[0] && Leq(a[1..], b[1..]))))
  }

  lemma {:induction false} LeqIsTotal(a: string, b: string)
    ensures Leq(a, b) || Leq(b, a)
    decreases |a|
  {
    if a != "" && b != "" && a[0] == b[0] {
      LeqIsTotal(a[1..], b[1..]);
    }
  }

  lemma {:induction false} LeqIsAntisymmetric(a: string, b: string)
    requires Leq(a, b) && Leq(b, a)
    ensures a == b
    decreases |a|
  {
    if a != "" {
      LeqIsAntisymmetric(a[1..], b[1..]);
      assert a == [a[0]] + a[1..] && b == [b[0]] + b[1..];
    }
  }

  lemma {:induction false} LeqIsTransitive(a: string, b: string, c: string)
    requires Leq(a, b) && Leq(b, c)
    ensures Leq(a, c)
    decreases |a|
  {
    if a != "" && a[0] == b[0] == c[0] {
      LeqIsTransitive(a[1..], b[1..], c[1..]);
    }
  }

  predicate Below(a: string, lines: seq<string>) {
    forall x :: x in lines ==> Leq(a, x)
  }

  predicate Ordered(lines: seq<string>)
    decreases |lines|
  {
    lines == [] || (Below(lines[0], lines[1..]) && Ordered(lines[1..]))
  }

  function Insert(line: string, lines: seq<string>): seq<string> {
    if lines == [] || Leq(line, lines[0]) then [line] + lines else [lines[0]] + Insert(line, lines[1..])
  }

  function Sort(lines: seq<string>): seq<string> {
    if lines == [] then [] else Insert(lines[0], Sort(lines[1..]))
  }

  lemma {:induction false} InsertKeepsAll(line: string, lines: seq<string>)
    ensures multiset(Insert(line, lines)) == multiset(lines) + multiset{line}
  {
    if lines != [] && !Leq(line, lines[0]) {
      InsertKeepsAll(line, lines[1..]);
      assert lines == [lines[0]] + lines[1..];
    }
  }

  lemma {:induction false} InsertKeepsOrder(line: string, lines: seq<string>)
    requires Ordered(lines)
    ensures Ordered(Insert(line, lines))
  {
    if lines != [] {
      LeqIsTotal(line, lines[0]);
      if Leq(line, lines[0]) {
        forall x | x in lines ensures Leq(line, x) {
          if x != lines[0] {
            LeqIsTransitive(line, lines[0], x);
          }
        }
      } else {
        InsertKeepsOrder(line, lines[1..]);
        InsertKeepsAll(line, lines[1..]);
        forall x | x in Insert(line, lines[1..]) ensures Leq(lines[0], x) {
          assert x in multiset(Insert(line, lines[1..]));
        }
      }
    }
  }

  lemma {:induction false} SortKeepsAll(lines: seq<string>)
    ensures multiset(Sort(lines)) == multiset(lines) && Ordered(Sort(lines))
  {
    if lines != [] {
      SortKeepsAll(lines[1..]);
      InsertKeepsAll(lines[0], Sort(lines[1..]));
      InsertKeepsOrder(lines[0], Sort(lines[1..]));
      assert lines == [lines[0]] + lines[1..];
    }
  }

  lemma {:induction false} OrderedIsUnique(a: seq<string>, b: seq<string>)
    requires Ordered(a) && Ordered(b) && multiset(a) == multiset(b)
    ensures a == b
  {
    if a == [] {
      assert |multiset(b)| == |b|;
    } else {
      assert |multiset(a)| == |a| && |multiset(b)| == |b|;
      SameHead(a, b);
      SameTails(a, b);
      OrderedIsUnique(a[1..], b[1..]);
      assert a == [a[0]] + a[1..] && b == [b[0]] + b[1..];
    }
  }

  lemma SameHead(a: seq<string>, b: seq<string>)
    requires Ordered(a) && Ordered(b) && multiset(a) == multiset(b) && a != [] && b != []
    ensures a[0] == b[0]
  {
    assert a[0] in multiset(b) && b[0] in multiset(a);
    LeqIsTotal(a[0], a[0]);
    assert Leq(a[0], b[0]) && Leq(b[0], a[0]);
    LeqIsAntisymmetric(a[0], b[0]);
  }

  lemma SameTails(a: seq<string>, b: seq<string>)
    requires a != [] && b != [] && a[0] == b[0] && multiset(a) == multiset(b)
    ensures multiset(a[1..]) == multiset(b[1..])
  {
    assert a == [a[0]] + a[1..] && b == [b[0]] + b[1..];
    assert multiset(a[1..]) == multiset(a) - multiset{a[0]};
  }

  /** Sorting makes two lists equal exactly when they hold the same lines. */
  lemma SortedAlikeExactlyWhen(a: seq<string>, b: seq<string>)
    ensures Sort(a) == Sort(b) <==> multiset(a) == multiset(b)
  {
    SortKeepsAll(a);
    SortKeepsAll(b);
    if multiset(a) == multiset(b) {
      OrderedIsUnique(Sort(a), Sort(b));
    }
  }

  // ---------------------------------------------------------------- lists up to order

  function Map<A, B>(f: A -> B, s: seq<A>): (r: seq<B>)
    ensures |r| == |s|
  {
    seq(|s|, k requires 0 <= k < |s| => f(s[k]))
  }

  function Without<T>(s: seq<T>, k: nat): seq<T>
    requires k < |s|
  {
    s[..k] + s[k + 1..]
  }

  lemma MultisetWithoutOne<T>(s: seq<T>, k: nat)
    requires k < |s|
    ensures multiset(s) == multiset(Without(s, k)) + multiset{s[k]}
  {
    assert s == s[..k] + [s[k]] + s[k + 1..];
  }

  /** Finding the last element of a list in a rearrangement of it, and taking it out of both. */
  lemma Remove<T>(a: seq<T>, b: seq<T>) returns (k: nat)
    requires a != [] && multiset(a) == multiset(b)
    ensures k < |b| && b[k] == a[|a| - 1] && multiset(a[..|a| - 1]) == multiset(Without(b, k))
  {
    var n := |a| - 1;
    assert a == a[..n] + [a[n]];
    assert multiset(a) == multiset(a[..n]) + multiset{a[n]};
    assert a[n] in multiset(b);
    k :| 0 <= k < |b| && b[k] == a[n];
    MultisetWithoutOne(b, k);
    assert multiset(a[..n]) == multiset(b) - multiset{a[n]};
  }

  lemma MapWithout<A, B>(f: A -> B, s: seq<A>, k: nat)
    requires k < |s|
    ensures multiset(Map(f, s)) == multiset(Map(f, Without(s, k))) + multiset{f(s[k])}
  {
    assert Without(Map(f, s), k) == Map(f, Without(s, k));
    MultisetWithoutOne(Map(f, s), k);
  }

  lemma {:induction false} MapPermutes<A, B>(f: A -> B, a: seq<A>, b: seq<A>)
    requires multiset(a) == multiset(b)
    ensures multiset(Map(f, a)) == multiset(Map(f, b))
    decreases |a|
  {
    if a == [] {
      assert |multiset(b)| == |b|;
    } else {
      var n := |a| - 1;
      var k := Remove(a, b);
      MapPermutes(f, a[..n], Without(b, k));
      MapWithout(f, a, n);
      MapWithout(f, b, k);
      assert Without(a, n) == a[..n];
    }
  }

  /** A function that keeps the elements of two lists apart decides whether they are rearrangements. */
  lemma {:induction false} MapDecides<A, B>(f: A -> B, a: seq<A>, b: seq<A>)
    requires forall x, y :: x in a && y in b && f(x) == f(y) ==> x == y
    requires multiset(Map(f, a)) == multiset(Map(f, b))
    ensures multiset(a) == multiset(b)
    decreases |a|
  {
    if a == [] {
      assert |multiset(Map(f, b))| == |b|;
    } else {
      var n := |a| - 1;
      var k := Remove(Map(f, a), Map(f, b));
      assert a[n] in a && b[k] in b && a[n] == b[k];
      assert Map(f, a)[..n] == Map(f, a[..n]) && Without(Map(f, b), k) == Map(f, Without(b, k));
      MapDecides(f, a[..n], Without(b, k));
      MultisetWithoutOne(a, n);
      MultisetWithoutOne(b, k);
      assert Without(a, n) == a[..n];
    }
  }

  // ---------------------------------------------------------------- joining lines

  const BARS := [BAR, BAR]

  /** Lines with two bars in between. */
  function JoinLines(lines: seq<string>): string {
    if lines == [] then ""
    else if |lines| == 1 then lines[0]
    else lines[0] + (BARS + JoinLines(lines[1..]))
  }

  /** Nowhere two bars side by side; a bar at either end is allowed. */
  predicate NoDoubleBar(s: string) {
    forall k :: 0 <= k < |s| - 1 && s[k] == BAR ==> s[k + 1] != BAR
  }

  /** What comes after the n-th bar. */
  function Behind(s: string, n: nat): Option<string> {
    if n == 0 then Some(s)
    else if s == "" then None
    else Behind(s[1..], if s[0] == BAR then n - 1 else n)
  }

  /** A line of five fields: the first is not empty, and only the last may hold bars, but never two side by side. */
  predicate IsLine(line: string) {
    line != "" && line[0] != BAR && Behind(line, 4).Some? && NoDoubleBar(Behind(line, 4).value)
  }

  predicate AllLines(lines: seq<string>) {
    forall k :: 0 <= k < |lines| ==> IsLine(lines[k])
  }

  lemma {:induction false} BehindGrows(s: string, n: nat, more: string)
    requires Behind(s, n).Some?
    ensures Behind(s + more, n) == Some(Behind(s, n).value + more)
  {
    if n > 0 {
      BehindGrows(s[1..], if s[0] == BAR then n - 1 else n, more);
      assert (s + more)[1..] == s[1..] + more;
    }
  }

  /** The text behind a line that is not the last: two bars and no third. */
  predicate BarsFirst(more: string) {
    more == "" || (|more| > 2 && more[0] == more[1] == BAR && more[2] != BAR)
  }

  /** A longer line, or what follows it, breaks the rules. */
  lemma LongerIsNoLine(x: string, added: string, rest: string)
    requires IsLine(x) && added != "" && BarsFirst(added + rest)
    ensures !IsLine(x + added) || !BarsFirst(rest)
  {
    BehindGrows(x, 4, added);
    assert added[0] == (added + rest)[0];
    if |added| >= 2 {
      var tail := Behind(x, 4).value;
      assert added[1] == (added + rest)[1];
      assert (tail + added)[|tail|] == (tail + added)[|tail| + 1] == BAR;
    } else {
      assert rest == (added + rest)[1..];
    }
  }

  /** A line cannot be a proper beginning of another, when what follows it is bars and the next line. */
  lemma NoLineIsShorter(x: string, y: string, more: string, rest: string)
    requires IsLine(x) && IsLine(y) && BarsFirst(more) && BarsFirst(rest) && x + more == y + rest
    ensures |x| >= |y|
  {
    if |x| < |y| {
      var added := more[..|y| - |x|];
      assert y == (x + more)[..|y|] == x + added;
      assert more == (x + more)[|x|..] == added + rest;
      LongerIsNoLine(x, added, rest);
    }
  }

  lemma FirstLineIsClear(x: string, y: string, more: string, rest: string)
    requires IsLine(x) && IsLine(y) && BarsFirst(more) && BarsFirst(rest) && x + more == y + rest
    ensures x == y && more == rest
  {
    NoLineIsShorter(x, y, more, rest);
    NoLineIsShorter(y, x, rest, more);
    assert x == (x + more)[..|x|] && y == (y + rest)[..|y|];
    assert more == (x + more)[|x|..] && rest == (y + rest)[|y|..];
  }

  /** What follows the first line in the joined text. */
  function RestOf(lines: seq<string>): string {
    if |lines| <= 1 then "" else BARS + JoinLines(lines[1..])
  }

  lemma {:induction false} JoinedFront(lines: seq<string>)
    requires lines != [] && AllLines(lines)
    ensures JoinLines(lines) == lines[0] + RestOf(lines) && BarsFirst(RestOf(lines))
    ensures JoinLines(lines) != "" && JoinLines(lines)[0] != BAR
    decreases |lines|
  {
    assert IsLine(lines[0]);
    if |lines| > 1 {
      JoinedFront(lines[1..]);
    }
  }

  /** Although fields may be empty or hold bars, and two bars also separate lines, the joined text keeps lines apart. */
  lemma {:induction false} JoinedLinesAreKeptApart(a: seq<string>, b: seq<string>)
    requires a != [] && b != [] && AllLines(a) && AllLines(b) && JoinLines(a) == JoinLines(b)
    ensures a == b
    decreases |a|
  {
    JoinedFront(a);
    JoinedFront(b);
    FirstLineIsClear(a[0], b[0], RestOf(a), RestOf(b));
    assert a == [a[0]] + a[1..] && b == [b[0]] + b[1..];
    if |a| > 1 {
      assert JoinLines(a[1..]) == RestOf(a)[2..] && JoinLines(b[1..]) == RestOf(b)[2..];
      JoinedLinesAreKeptApart(a[1..], b[1..]);
    }
  }
}

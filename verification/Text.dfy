/** Options, blank and trimmed strings, and splitting and joining at a separator. */
module Text {

  datatype Option<+T> = None | Some(value: T)

  /** White space as strings.TrimSpace defines it. */
  predicate IsSpace(c: char) {
    || '\t' <= c <= '\r' || c == ' ' || c == '\U{0085}' || c == '\U{00A0}'
    || c == '\U{1680}' || '\U{2000}' <= c <= '\U{200A}' || c == '\U{2028}'
    || c == '\U{2029}' || c == '\U{202F}' || c == '\U{205F}' || c == '\U{3000}'
  }

  function TrimLeft(s: string): string {
    if s != "" && IsSpace(s[0]) then TrimLeft(s[1..]) else s
  }

  function TrimRight(s: string): string {
    if s != "" && IsSpace(s[|s| - 1]) then TrimRight(s[..|s| - 1]) else s
  }

  function Trim(s: string): string {
    TrimRight(TrimLeft(s))
  }

  /** The string carries no surrounding white space. */
  predicate Trimmed(s: string) {
    Trim(s) == s
  }

  /** The first value that is not blank, exactly as written; empty if all are blank. */
  function FirstNonEmpty(values: seq<string>): string {
    if values == [] then ""
    else if Trim(values[0]) != "" then values[0]
    else FirstNonEmpty(values[1..])
  }

  /** A value without the white space around it. */
  ghost predicate IsTrimOf(t: string, s: string) {
    && (exists i, j :: CutAt(t, s, i, j))
    && (t != "" ==> !IsSpace(t[0]) && !IsSpace(t[|t| - 1]))
  }

  predicate AllSpace(s: string) {
    forall k :: 0 <= k < |s| ==> IsSpace(s[k])
  }

  lemma SpacesJoin(a: string, b: string)
    requires AllSpace(a) && AllSpace(b)
    ensures AllSpace(a + b)
  {
  }

  lemma LeftPieces(s: string, k: nat)
    requires k + 1 <= |s|
    ensures s[1..][k..] == s[k + 1..] && [s[0]] + s[1..][..k] == s[..k + 1]
  {
  }

  lemma RightPieces(s: string, n: nat, j: nat)
    requires j <= n && |s| == n + 1
    ensures s[..n][..j] == s[..j] && s[..n][j..] + [s[n]] == s[j..]
  {
  }

  lemma {:induction false} LeftCut(s: string) returns (i: nat)
    ensures i <= |s| && TrimLeft(s) == s[i..] && AllSpace(s[..i])
    ensures TrimLeft(s) != "" ==> !IsSpace(TrimLeft(s)[0])
  {
    i := 0;
    if s != "" && IsSpace(s[0]) {
      var k := LeftCut(s[1..]);
      i := k + 1;
      LeftPieces(s, k);
      SpacesJoin([s[0]], s[1..][..k]);
    }
  }

  lemma {:induction false} RightCut(s: string) returns (j: nat)
    ensures j <= |s| && TrimRight(s) == s[..j] && AllSpace(s[j..])
    ensures TrimRight(s) != "" ==> !IsSpace(TrimRight(s)[|TrimRight(s)| - 1])
  {
    j := |s|;
    if s != "" && IsSpace(s[|s| - 1]) {
      var n := |s| - 1;
      j := RightCut(s[..n]);
      RightPieces(s, n, j);
      SpacesJoin(s[..n][j..], [s[n]]);
      assert TrimRight(s) == TrimRight(s[..n]);
    } else {
      assert s[..j] == s && s[j..] == "";
    }
  }

  /** Trimming removes exactly the white space at both ends. */
  lemma TrimCutsTheEnds(s: string)
    ensures IsTrimOf(Trim(s), s)
  {
    var i := LeftCut(s);
    var j := RightCut(s[i..]);
    var e := i + j;
    assert s[i..][..j] == s[i..e] && s[i..][j..] == s[e..];
    assert CutAt(Trim(s), s, i, e);
  }

  /** The piece between two cuts that leave it without white space at its ends. */
  predicate CutAt(t: string, s: string, i: nat, j: nat) {
    i <= j <= |s| && t == s[i..j] && AllSpace(s[..i]) && AllSpace(s[j..])
  }

  lemma SpaceOutside(t: string, s: string, i: nat, j: nat, p: nat)
    requires CutAt(t, s, i, j) && p < |s| && (p < i || j <= p)
    ensures IsSpace(s[p])
  {
    if p < i {
      assert s[..i][p] == s[p];
    } else {
      assert s[j..][p - j] == s[p];
    }
  }

  lemma CutsAround(t: string, s: string, i: nat, j: nat, p: nat)
    requires CutAt(t, s, i, j) && p < |s| && !IsSpace(s[p])
    ensures i <= p < j
  {
    if p < i || j <= p {
      SpaceOutside(t, s, i, j, p);
    }
  }

  lemma CutsAgree(t: string, u: string, s: string, i: nat, j: nat, m: nat, n: nat)
    requires CutAt(t, s, i, j) && CutAt(u, s, m, n) && i < j
    requires !IsSpace(s[i]) && !IsSpace(s[j - 1]) && (m < n ==> !IsSpace(s[m]) && !IsSpace(s[n - 1]))
    ensures t == u
  {
    CutsAround(u, s, m, n, i);
    CutsAround(u, s, m, n, j - 1);
    CutsAround(t, s, i, j, m);
    CutsAround(t, s, i, j, n - 1);
  }

  /** Trimming is the only way to do so. */
  lemma TrimExactly(t: string, s: string)
    ensures IsTrimOf(t, s) <==> t == Trim(s)
  {
    TrimCutsTheEnds(s);
    if IsTrimOf(t, s) {
      var i: nat, j: nat :| CutAt(t, s, i, j);
      var m: nat, n: nat :| CutAt(Trim(s), s, m, n);
      if i < j {
        CutsAgree(t, Trim(s), s, i, j, m, n);
      } else if m < n {
        CutsAgree(Trim(s), t, s, m, n, i, j);
      }
    }
  }

  /** The first value that is not blank, or nothing. */
  lemma {:induction false} FirstNonEmptyMeans(values: seq<string>)
    ensures (forall k :: 0 <= k < |values| ==> Trim(values[k]) == "") ==> FirstNonEmpty(values) == ""
    ensures forall k :: 0 <= k < |values| && Trim(values[k]) != "" && (forall j :: 0 <= j < k ==> Trim(values[j]) == "")
              ==> FirstNonEmpty(values) == values[k]
  {
    if values != [] && Trim(values[0]) == "" {
      FirstNonEmptyMeans(values[1..]);
      forall k | 0 <= k < |values| && Trim(values[k]) != "" && (forall j :: 0 <= j < k ==> Trim(values[j]) == "")
        ensures FirstNonEmpty(values) == values[k]
      {
        assert values[1..][k - 1] == values[k];
        assert forall j :: 0 <= j < k - 1 ==> values[1..][j] == values[j + 1];
      }
    }
  }

  lemma FirstOrNext(value: string, rest: seq<string>)
    ensures FirstNonEmpty([value] + rest) == if Trim(value) != "" then value else FirstNonEmpty(rest)
  {
    assert ([value] + rest)[1..] == rest;
  }

  /** The pieces of a sequence, from its first element and the pieces of the rest. */
  function Front<T(==)>(x: T, sep: T, rest: seq<seq<T>>): seq<seq<T>>
    requires rest != []
  {
    if x == sep then [[]] + rest else [[x] + rest[0]] + rest[1..]
  }

  /** The pieces between separators; always at least one. */
  function Split<T(==)>(s: seq<T>, sep: T): (pieces: seq<seq<T>>)
    ensures pieces != []
    ensures forall k :: 0 <= k < |pieces| ==> sep !in pieces[k]
  {
    if s == [] then [[]]
    else Front(s[0], sep, Split(s[1..], sep))
  }

  function Join<T>(pieces: seq<seq<T>>, sep: T): seq<T> {
    if pieces == [] then []
    else if |pieces| == 1 then pieces[0]
    else pieces[0] + [sep] + Join(pieces[1..], sep)
  }

  /** Splitting at a separator loses nothing. */
  lemma {:induction false} JoinSplit<T>(s: seq<T>, sep: T)
    ensures Join(Split(s, sep), sep) == s
  {
    if s != [] {
      JoinSplit(s[1..], sep);
      var rest := Split(s[1..], sep);
      if s[0] == sep {
        assert ([[]] + rest)[1..] == rest;
      } else if |rest| > 1 {
        assert ([[s[0]] + rest[0]] + rest[1..])[1..] == rest[1..];
      }
    }
  }

  lemma SplitFront<T>(s: seq<T>, sep: T)
    requires s != []
    ensures Split(s, sep) == Front(s[0], sep, Split(s[1..], sep))
  {
  }

  lemma FrontFirst<T>(x: T, sep: T, a: seq<seq<T>>, b: seq<seq<T>>)
    requires a != []
    ensures Front(x, sep, a + b) == Front(x, sep, a) + b
  {
    assert (a + b)[1..] == a[1..] + b;
  }

  /** Splitting at a separator that is there splits both sides. */
  lemma {:induction false} SplitAppend<T>(s: seq<T>, sep: T, t: seq<T>)
    ensures Split(s + [sep] + t, sep) == Split(s, sep) + Split(t, sep)
  {
    var longer := s + [sep] + t;
    if s == [] {
      assert longer[1..] == t;
    } else {
      SplitAppend(s[1..], sep, t);
      assert longer[1..] == s[1..] + [sep] + t && longer[0] == s[0];
      SplitFront(longer, sep);
      SplitFront(s, sep);
      FrontFirst(s[0], sep, Split(s[1..], sep), Split(t, sep));
    }
  }

  /** A piece without the separator comes back as the first piece. */
  lemma {:induction false} SplitFirst<T>(piece: seq<T>, sep: T, s: seq<T>)
    requires sep !in piece
    ensures Split(piece, sep) == [piece]
    ensures Split(piece + [sep] + s, sep) == [piece] + Split(s, sep)
  {
    SplitAppend(piece, sep, s);
    if piece != [] {
      SplitFirst(piece[1..], sep, s);
      assert [piece[0]] + piece[1..] == piece;
    }
  }

  /** Pieces that do not contain the separator survive joining. */
  lemma {:induction false} SplitJoin<T>(pieces: seq<seq<T>>, sep: T)
    requires pieces != [] && forall k :: 0 <= k < |pieces| ==> sep !in pieces[k]
    ensures Split(Join(pieces, sep), sep) == pieces
  {
    if |pieces| == 1 {
      SplitFirst(pieces[0], sep, []);
    } else {
      SplitJoin(pieces[1..], sep);
      SplitFirst(pieces[0], sep, Join(pieces[1..], sep));
      assert [pieces[0]] + pieces[1..] == pieces;
    }
  }
}

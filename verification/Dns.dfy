/** The DNS question codec (sections 3.1 and 4.1.2 of RFC 1035, with labels of up to 255 bytes and no compression). */
module Dns {
  import opened Bytes
  import opened Text

  /** A label or a dotted name, as bytes. */
  type Name = seq<Byte>

  const DOT: Byte := 46

  type Word = w: nat | w < 0x1_0000

  /** Each label behind its length, truncated to a byte. */
  function EncodeLabels(labels: seq<Name>): seq<Byte> {
    if labels == [] then [] else [|labels[0]| % 256] + labels[0] + EncodeLabels(labels[1..])
  }

  function Tail(qtype: Word): seq<Byte> {
    [qtype / 256, qtype % 256, 0, 1]
  }

  function Question(name: Name, qtype: Word): seq<Byte> {
    EncodeLabels(Split(name, DOT)) + [0] + Tail(qtype)
  }

  predicate FitsAByte(piece: Name) {
    1 <= |piece| <= 255
  }

  predicate AllFit(labels: seq<Name>) {
    forall k :: 0 <= k < |labels| ==> FitsAByte(labels[k])
  }

  /** The labels from an offset up to the zero byte, and the offset behind it. */
  function ReadLabels(data: seq<Byte>, offset: nat): (r: Option<(seq<Name>, nat)>)
    ensures r.Some? ==> offset < r.value.1 <= |data|
    decreases |data| - offset
  {
    if offset >= |data| then None
    else if data[offset] == 0 then Some(([], offset + 1))
    else
      var next := offset + data[offset] + 1;
      if next > |data| then None
      else
        var rest := ReadLabels(data, next);
        if rest.None? then None else Some(([data[offset + 1..next]] + rest.value.0, rest.value.1))
  }

  datatype Parsed = Parsed(name: Name, qtype: Word, n: nat)

  const REJECTED := Parsed([], 0, 0)

  function Parse(data: seq<Byte>, offset: nat): Parsed {
    var r := ReadLabels(data, offset);
    if r.None? || r.value.1 + 4 > |data| then REJECTED
    else
      var next := r.value.1;
      Parsed(Join(r.value.0, DOT), data[next] as int * 256 + data[next + 1], next - offset + 4)
  }

  // ---------------------------------------------------------------- the loops

  method AppendQuestion(b: seq<Byte>, name: Name, qtype: Word) returns (out: seq<Byte>)
    ensures out == b + Question(name, qtype)
  {
    out := b;
    var labels := Split(name, DOT);
    for k := 0 to |labels|
      invariant out + EncodeLabels(labels[k..]) == b + EncodeLabels(labels)
    {
      assert labels[k..][1..] == labels[k + 1..];
      out := out + [|labels[k]| % 256];
      out := out + labels[k];
    }
    assert labels[|labels|..] == [];
    assert out == b + EncodeLabels(labels);
    out := out + [0];
    out := out + [qtype / 256, qtype % 256];
    out := out + [0, 1];
  }

  lemma {:induction false} JoinSnoc(labels: seq<Name>, piece: Name)
    ensures Join(labels + [piece], DOT) == if labels == [] then piece else Join(labels, DOT) + [DOT] + piece
  {
    if labels != [] {
      assert (labels + [piece])[1..] == labels[1..] + [piece];
      JoinSnoc(labels[1..], piece);
    } else {
      assert labels + [piece] == [piece];
    }
  }

  /** Reading on from a later offset, with the labels already read in front. */
  function Resume(labels: seq<Name>, rest: Option<(seq<Name>, nat)>): Option<(seq<Name>, nat)> {
    if rest.None? then None else Some((labels + rest.value.0, rest.value.1))
  }

  lemma ResumeNext(labels: seq<Name>, data: seq<Byte>, offset: nat)
    requires offset < |data| && data[offset] != 0 && offset + data[offset] + 1 <= |data|
    ensures var next := offset + data[offset] + 1;
            Resume(labels, ReadLabels(data, offset))
                == Resume(labels + [data[offset + 1..next]], ReadLabels(data, next))
  {
    var next := offset + data[offset] + 1;
    var rest := ReadLabels(data, next);
    if rest.Some? {
      assert labels + ([data[offset + 1..next]] + rest.value.0) == labels + [data[offset + 1..next]] + rest.value.0;
    }
  }

  lemma ResumeNothing(rest: Option<(seq<Name>, nat)>)
    ensures Resume([], rest) == rest
  {
    if rest.Some? {
      assert [] + rest.value.0 == rest.value.0;
    }
  }

  /** Stays within bounds and ends on every input. */
  method ParseQuestionName(data: seq<Byte>, start: nat) returns (r: Parsed)
    ensures r == Parse(data, start)
  {
    var offset, name := start, [];
    ghost var labels: seq<Name> := [];
    ghost var terminated := false;
    ResumeNothing(ReadLabels(data, start));
    while offset < |data|
      invariant start <= offset
      invariant name == Join(labels, DOT) && (offset == start <==> labels == [])
      invariant ReadLabels(data, start) == Resume(labels, ReadLabels(data, offset))
    {
      var length := data[offset];
      if length == 0 {
        offset := offset + 1;
        terminated := true;
        break;
      }
      if offset + length + 1 > |data| {
        return REJECTED;
      }
      ResumeNext(labels, data, offset);
      JoinSnoc(labels, data[offset + 1..offset + 1 + length]);
      if offset > start {
        name := name + [DOT];
      }
      name := name + data[offset + 1..offset + 1 + length];
      labels := labels + [data[offset + 1..offset + 1 + length]];
      offset := offset + length + 1;
    }
    if offset + 4 > |data| {
      return REJECTED;
    }
    assert terminated && ReadLabels(data, start) == Some((labels, offset)) by {
      assert labels + [] == labels;
    }
    return Parsed(name, data[offset] as int * 256 + data[offset + 1], offset - start + 4);
  }

  // ---------------------------------------------------------------- round trip

  lemma Cut(data: seq<Byte>, offset: nat, next: nat, end: nat)
    requires offset < next <= end <= |data|
    ensures data[offset..end] == [data[offset]] + data[offset + 1..next] + data[next..end]
  {
  }

  /** What is read is an encoding of labels that fit, closed by a zero. */
  lemma {:induction false} ReadIsEncoded(data: seq<Byte>, offset: nat)
    requires ReadLabels(data, offset).Some?
    ensures var (labels, next) := ReadLabels(data, offset).value;
            AllFit(labels) && data[offset..next] == EncodeLabels(labels) + [0]
    decreases |data| - offset
  {
    if data[offset] != 0 {
      var next := offset + data[offset] + 1;
      ReadIsEncoded(data, next);
      var (labels, end) := ReadLabels(data, offset).value;
      assert labels[1..] == ReadLabels(data, next).value.0;
      Cut(data, offset, next, end);
    } else {
      assert data[offset..offset + 1] == [0];
    }
  }

  lemma Regroup(before: seq<Byte>, head: seq<Byte>, encoded: seq<Byte>, after: seq<Byte>)
    ensures before + (head + encoded) + [0] + after == (before + head) + encoded + [0] + after
    ensures before + (head + encoded) + [0] + after == before + head + (encoded + [0] + after)
  {
  }

  lemma LengthByte(piece: Name)
    requires FitsAByte(piece)
    ensures |piece| % 256 == |piece|
  {
  }

  lemma EncodedHead(labels: seq<Name>)
    requires labels != [] && FitsAByte(labels[0])
    ensures EncodeLabels(labels) == [|labels[0]|] + labels[0] + EncodeLabels(labels[1..])
  {
    LengthByte(labels[0]);
  }

  lemma HeadIsThere(before: seq<Byte>, length: Byte, piece: Name, after: seq<Byte>)
    ensures var data := before + ([length] + piece) + after;
            && data[|before|] == length && |before| + 1 + |piece| <= |data|
            && data[|before| + 1..|before| + 1 + |piece|] == piece
  {
  }

  /** A label behind its length is read, and then the labels behind it. */
  lemma LabelIsRead(data: seq<Byte>, offset: nat, labels: seq<Name>, end: nat)
    requires labels != [] && FitsAByte(labels[0]) && offset + 1 + |labels[0]| <= |data|
    requires data[offset] == |labels[0]| && data[offset + 1..offset + 1 + |labels[0]|] == labels[0]
    requires ReadLabels(data, offset + 1 + |labels[0]|) == Some((labels[1..], end))
    ensures ReadLabels(data, offset) == Some((labels, end))
  {
    assert [labels[0]] + labels[1..] == labels;
  }

  /** Where labels are read that are behind one label more, all of them are read. */
  lemma OneMoreIsRead(labels: seq<Name>, before: seq<Byte>, head: seq<Byte>, encoded: seq<Byte>, after: seq<Byte>)
    requires labels != [] && FitsAByte(labels[0]) && head == [|labels[0]|] + labels[0]
    requires ReadLabels(before + head + encoded + [0] + after, |before + head|)
          == Some((labels[1..], |before + head| + |encoded| + 1))
    ensures ReadLabels(before + (head + encoded) + [0] + after, |before|)
         == Some((labels, |before| + |head + encoded| + 1))
  {
    Regroup(before, head, encoded, after);
    HeadIsThere(before, |labels[0]|, labels[0], encoded + [0] + after);
    LabelIsRead(before + (head + encoded) + [0] + after, |before|, labels, |before| + |head + encoded| + 1);
  }

  /** Every encoding of labels that fit, closed by a zero, is read back. */
  lemma {:induction false} EncodedIsRead(labels: seq<Name>, before: seq<Byte>, after: seq<Byte>)
    requires AllFit(labels)
    ensures ReadLabels(before + EncodeLabels(labels) + [0] + after, |before|)
         == Some((labels, |before| + |EncodeLabels(labels)| + 1))
  {
    if labels == [] {
      assert (before + [] + [0] + after)[|before|] == 0;
    } else {
      assert FitsAByte(labels[0]) && AllFit(labels[1..]);
      var head: seq<Byte> := [|labels[0]|] + labels[0];
      EncodedHead(labels);
      EncodedIsRead(labels[1..], before + head, after);
      OneMoreIsRead(labels, before, head, EncodeLabels(labels[1..]), after);
    }
  }

  lemma ShorterFirstLabel(xs: seq<Name>, ys: seq<Name>)
    requires xs != [] && ys != [] && |xs[0]| < |ys[0]| && DOT !in ys[0]
    ensures Join(xs, DOT) != Join(ys, DOT)
  {
    NameAtLabelEnd(ys, |xs[0]|);
    NameAfterLabel(xs);
  }

  /**
   Two label lists with the same bytes on the wire and the same dotted name are the same,
   when the first fits and the second has no dots inside labels.
   */
  lemma {:induction false} WireAndNameDetermineLabels(xs: seq<Name>, ys: seq<Name>)
    requires AllFit(xs) && (forall k :: 0 <= k < |ys| ==> DOT !in ys[k])
    requires EncodeLabels(xs) == EncodeLabels(ys) && Join(xs, DOT) == Join(ys, DOT)
    ensures xs == ys
  {
    if xs != [] && ys != [] {
      var x, y := xs[0], ys[0];
      assert FitsAByte(x);
      assert EncodeLabels(xs)[0] == |x| && EncodeLabels(ys)[0] == |y| % 256;
      if |x| < |y| {
        ShorterFirstLabel(xs, ys);
      }
      assert |x| == |y|;
      assert x == EncodeLabels(xs)[1..1 + |x|] && y == EncodeLabels(ys)[1..1 + |y|];
      assert EncodeLabels(xs[1..]) == EncodeLabels(xs)[1 + |x|..]
          && EncodeLabels(ys[1..]) == EncodeLabels(ys)[1 + |y|..];
      if |xs| > 1 && |ys| > 1 {
        assert Join(xs[1..], DOT) == Join(xs, DOT)[|x| + 1..] && Join(ys[1..], DOT) == Join(ys, DOT)[|y| + 1..];
      }
      WireAndNameDetermineLabels(xs[1..], ys[1..]);
      assert xs == [x] + xs[1..] && ys == [y] + ys[1..];
    }
  }

  /** Inside its first label a name carries the label's own byte. */
  lemma NameAtLabelEnd(labels: seq<Name>, i: nat)
    requires labels != [] && i < |labels[0]|
    ensures |Join(labels, DOT)| > i && Join(labels, DOT)[i] == labels[0][i]
  {
  }

  /** Behind its first label a name carries a dot, if it goes on. */
  lemma NameAfterLabel(labels: seq<Name>)
    requires labels != []
    ensures |labels| > 1 ==> |Join(labels, DOT)| > |labels[0]| && Join(labels, DOT)[|labels[0]|] == DOT
    ensures |labels| == 1 ==> Join(labels, DOT) == labels[0]
  {
  }

  /**
   Parsing an appended question behind any header gives back the name, the type and the whole length
   exactly when every label has 1 to 255 bytes.
   */
  lemma RoundTripExactlyWhen(header: seq<Byte>, name: Name, qtype: Word, rest: seq<Byte>)
    ensures Parse(header + Question(name, qtype) + rest, |header|) == Parsed(name, qtype, |Question(name, qtype)|)
       <==> AllFit(Split(name, DOT))
  {
    var data := header + Question(name, qtype) + rest;
    assert data == header + EncodeLabels(Split(name, DOT)) + [0] + (Tail(qtype) + rest);
    JoinSplit(name, DOT);
    if AllFit(Split(name, DOT)) {
      FittingLabelsParse(header, Split(name, DOT), qtype, rest);
    }
    if Parse(data, |header|) == Parsed(name, qtype, |Question(name, qtype)|) {
      ParsedLabelsFit(header, Split(name, DOT), Tail(qtype) + rest);
    }
  }

  lemma FittingLabelsParse(header: seq<Byte>, labels: seq<Name>, qtype: Word, rest: seq<Byte>)
    requires AllFit(labels)
    ensures Parse(header + EncodeLabels(labels) + [0] + (Tail(qtype) + rest), |header|)
         == Parsed(Join(labels, DOT), qtype, |EncodeLabels(labels)| + 5)
  {
    var data := header + EncodeLabels(labels) + [0] + (Tail(qtype) + rest);
    EncodedIsRead(labels, header, Tail(qtype) + rest);
    var next := |header| + |EncodeLabels(labels)| + 1;
    assert data[next] == Tail(qtype)[0] && data[next + 1] == Tail(qtype)[1];
  }

  /** If reading ends where writing ended, with the same name, the labels were read as written, so they fit. */
  lemma ParsedLabelsFit(header: seq<Byte>, labels: seq<Name>, rest: seq<Byte>)
    requires forall k :: 0 <= k < |labels| ==> DOT !in labels[k]
    requires var r := ReadLabels(header + EncodeLabels(labels) + [0] + rest, |header|);
             r.Some? && r.value.1 == |header| + |EncodeLabels(labels)| + 1 && Join(r.value.0, DOT) == Join(labels, DOT)
    ensures AllFit(labels)
  {
    var wire := EncodeLabels(labels);
    var data := header + wire + [0] + rest;
    var (read, next) := ReadLabels(data, |header|).value;
    ReadIsEncoded(data, |header|);
    assert data[|header|..next] == wire + [0];
    assert EncodeLabels(read) == (EncodeLabels(read) + [0])[..|wire|] == wire;
    WireAndNameDetermineLabels(read, labels);
  }

  /** The data from an offset on: the labels, a zero, and four more bytes. */
  predicate StartsWith(data: seq<Byte>, offset: nat, labels: seq<Name>)
    requires offset <= |data|
  {
    AllFit(labels) && |EncodeLabels(labels)| + 5 <= |data| - offset && EncodeLabels(labels) + [0] <= data[offset..]
  }

  lemma ThreeParts(data: seq<Byte>, offset: nat, a: seq<Byte>, b: seq<Byte>)
    requires offset <= |data| && a + b <= data[offset..]
    ensures data == data[..offset] + a + b + data[offset + |a| + |b|..]
  {
    var rest := data[offset..];
    assert rest == a + b + rest[|a + b|..];
    assert rest[|a + b|..] == data[offset + |a| + |b|..];
    assert data == data[..offset] + rest;
  }

  /** A question is accepted exactly when it starts with labels that fit, a zero, and four more bytes. */
  lemma AcceptsExactlyWhen(data: seq<Byte>, offset: nat)
    requires offset <= |data|
    ensures Parse(data, offset) != REJECTED
       <==> exists labels :: StartsWith(data, offset, labels)
  {
    if Parse(data, offset) != REJECTED {
      ReadIsEncoded(data, offset);
      var (labels, next) := ReadLabels(data, offset).value;
      assert data[offset..next] == data[offset..][..next - offset];
      assert EncodeLabels(labels) + [0] <= data[offset..];
      assert StartsWith(data, offset, labels);
    }
    if exists labels :: StartsWith(data, offset, labels) {
      var labels :| StartsWith(data, offset, labels);
      var after := data[offset + |EncodeLabels(labels)| + 1..];
      EncodedIsRead(labels, data[..offset], after);
      ThreeParts(data, offset, EncodeLabels(labels), [0]);
    }
  }

  // ---------------------------------------------------------------- the bytes behind the labels

  /** A question ends in a zero byte, the type with its high byte first, and the class of the Internet. */
  lemma QuestionEnds(name: Name, qtype: Word)
    ensures var q := Question(name, qtype);
            && |q| >= 5 && q[|q| - 5] == 0
            && q[|q| - 4] as int * 256 + q[|q| - 3] as int == qtype
            && q[|q| - 2..] == [0, 1]
  {
  }

  /** What is read of an accepted question behind its name: the type, and that the class is skipped. */
  lemma ParsedBehindTheName(data: seq<Byte>, offset: nat)
    requires Parse(data, offset) != REJECTED
    ensures var p := Parse(data, offset);
            && 5 <= p.n && offset + p.n <= |data| && data[offset + p.n - 5] == 0
            && p.qtype == data[offset + p.n - 4] as int * 256 + data[offset + p.n - 3] as int
  {
    EndsInZero(data, offset);
  }

  lemma {:induction false} EndsInZero(data: seq<Byte>, offset: nat)
    requires ReadLabels(data, offset).Some?
    ensures data[ReadLabels(data, offset).value.1 - 1] == 0
    decreases |data| - offset
  {
    if data[offset] != 0 {
      EndsInZero(data, offset + data[offset] + 1);
    }
  }
}

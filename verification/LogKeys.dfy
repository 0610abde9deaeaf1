/** Buffer keys of the log collector: building them from an entry, and taking them apart again. */
module LogKeys {
  import opened Text

  const SEPARATOR: char := '\U{001F}'

  datatype Entry = Entry(source: string, severity: string, message: string, timestamp: int, labels: map<string, string>)

  datatype Meta = Meta(projectId: string, bindingId: string, revisionId: string, serviceName: string, source: string)

  function LabelOf(e: Entry, key: string): string {
    if key in e.labels then e.labels[key] else ""
  }

  function SourceOf(e: Entry): string {
    if Trim(e.source) != "" then Trim(e.source) else Trim(LabelOf(e, "source"))
  }

  /** What an entry says about where it belongs, trimmed. */
  function FieldsOf(e: Entry): Meta {
    Meta(
      Trim(LabelOf(e, "project_id")),
      Trim(LabelOf(e, "binding_id")),
      Trim(LabelOf(e, "revision_id")),
      Trim(FirstNonEmpty([Trim(LabelOf(e, "service")), Trim(LabelOf(e, "service_name"))])),
      SourceOf(e))
  }

  predicate SourceOnly(m: Meta) {
    m.projectId == "" && m.bindingId == "" && m.revisionId == "" && m.serviceName == ""
  }

  function Pieces(m: Meta): seq<string> {
    [m.projectId, m.bindingId, m.revisionId, m.serviceName, m.source]
  }

  function KeyOf(m: Meta): string {
    if SourceOnly(m) then m.source else Join(Pieces(m), SEPARATOR)
  }

  /** Empty when the entry names no source. */
  function BuildKey(e: Entry): string {
    if SourceOf(e) == "" then "" else KeyOf(FieldsOf(e))
  }

  function ParseKey(key: string): Meta {
    var parts := Split(key, SEPARATOR);
    if |parts| != 5 then Meta("", "", "", "", Trim(key))
    else Meta(Trim(parts[0]), Trim(parts[1]), Trim(parts[2]), Trim(parts[3]), Trim(parts[4]))
  }

  lemma {:induction false} TrimLeftTwice(s: string)
    ensures TrimLeft(TrimLeft(s)) == TrimLeft(s)
    ensures TrimLeft(s) != "" ==> !IsSpace(TrimLeft(s)[0])
  {
    if s != "" && IsSpace(s[0]) {
      TrimLeftTwice(s[1..]);
    }
  }

  lemma {:induction false} TrimRightMeans(s: string)
    ensures TrimRight(s) <= s && TrimRight(TrimRight(s)) == TrimRight(s)
  {
    if s != "" && IsSpace(s[|s| - 1]) {
      TrimRightMeans(s[..|s| - 1]);
    }
  }

  lemma TrimTwice(s: string)
    ensures Trim(Trim(s)) == Trim(s)
  {
    var left := TrimLeft(s);
    TrimLeftTwice(s);
    TrimRightMeans(left);
    assert TrimLeft(TrimRight(left)) == TrimRight(left);
  }

  predicate AllTrimmed(m: Meta) {
    Trimmed(m.projectId) && Trimmed(m.bindingId) && Trimmed(m.revisionId) && Trimmed(m.serviceName) && Trimmed(m.source)
  }

  lemma FieldsAreTrimmed(e: Entry)
    ensures AllTrimmed(FieldsOf(e))
  {
    TrimTwice(e.source);
    TrimTwice(LabelOf(e, "source"));
    TrimTwice(LabelOf(e, "project_id"));
    TrimTwice(LabelOf(e, "binding_id"));
    TrimTwice(LabelOf(e, "revision_id"));
    TrimTwice(FirstNonEmpty([Trim(LabelOf(e, "service")), Trim(LabelOf(e, "service_name"))]));
  }

  lemma {:induction false} OnePieceExactlyWhen(s: string)
    ensures |Split(s, SEPARATOR)| == 1 <==> SEPARATOR !in s
  {
    if s != "" {
      OnePieceExactlyWhen(s[1..]);
    }
  }

  /** A separator inside a piece makes more pieces than were joined. */
  lemma {:induction false} JoinedCount(pieces: seq<string>)
    requires pieces != []
    ensures |Split(Join(pieces, SEPARATOR), SEPARATOR)| >= |pieces|
    ensures |Split(Join(pieces, SEPARATOR), SEPARATOR)| == |pieces|
       <==> forall k :: 0 <= k < |pieces| ==> SEPARATOR !in pieces[k]
  {
    OnePieceExactlyWhen(pieces[0]);
    if |pieces| > 1 {
      JoinedCount(pieces[1..]);
      SplitAppend(pieces[0], SEPARATOR, Join(pieces[1..], SEPARATOR));
      assert forall k :: 1 <= k < |pieces| ==> pieces[k] == pieces[1..][k - 1];
    }
  }

  /**
   When a key can be taken apart: no field holds the separator, or only the source is set and it does not look like
   five fields.
   */
  predicate Separable(m: Meta) {
    if SourceOnly(m) then |Split(m.source, SEPARATOR)| != 5
    else forall k :: 0 <= k < 5 ==> SEPARATOR !in Pieces(m)[k]
  }

  /** Taking a built key apart gives back the entry's trimmed fields exactly when they are separable. */
  lemma KeyRoundTripExactlyWhen(e: Entry)
    requires BuildKey(e) != ""
    ensures ParseKey(BuildKey(e)) == FieldsOf(e) <==> Separable(FieldsOf(e))
  {
    FieldsAreTrimmed(e);
    MetaRoundTrip(FieldsOf(e));
  }

  lemma MetaRoundTrip(m: Meta)
    requires m.source != "" && AllTrimmed(m)
    ensures ParseKey(KeyOf(m)) == m <==> Separable(m)
  {
    if SourceOnly(m) {
      var parts := Split(m.source, SEPARATOR);
      if |parts| == 5 {
        OnePieceExactlyWhen(m.source);
        assert SEPARATOR !in parts[4];
        NoNewCharacters(parts[4]);
      }
    } else {
      JoinedCount(Pieces(m));
      if Separable(m) {
        SplitJoin(Pieces(m), SEPARATOR);
      }
    }
  }

  lemma NoNewCharacters(s: string)
    ensures forall c :: c in Trim(s) ==> c in s
  {
    LeftNoNew(s);
    TrimRightMeans(TrimLeft(s));
  }

  lemma {:induction false} LeftNoNew(s: string)
    ensures forall c :: c in TrimLeft(s) ==> c in s
  {
    if s != "" && IsSpace(s[0]) {
      LeftNoNew(s[1..]);
    }
  }

  /** Two entries share a buffer exactly when their fields agree, as long as both can be taken apart. */
  lemma SameKeyMeansSameFields(e: Entry, f: Entry)
    requires BuildKey(e) != "" && BuildKey(f) != "" && Separable(FieldsOf(e)) && Separable(FieldsOf(f))
    ensures BuildKey(e) == BuildKey(f) <==> FieldsOf(e) == FieldsOf(f)
  {
    KeyRoundTripExactlyWhen(e);
    KeyRoundTripExactlyWhen(f);
  }
}

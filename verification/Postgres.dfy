/** The PostgreSQL adapter: startup packets, typed messages and the authentication bridge of protocol 3.0. */
module Postgres {
  import opened Bytes
  import Text

  type Octets = seq<Byte>

  const NUL: Byte := 0
  const PROTOCOL_V3 := 196608
  const SSL_REQUEST_CODE := 80877103
  const CANCEL_CODE := 80877102

  const REFUSE_SSL: Octets := [78]

  datatype Fault =
    | Eof
    | BadStartupLength(length: nat)
    | CancelUnsupported
    | BadMessageLength(length: nat)
    | MissingPassword
    | BadAuthPayload
    | BadMd5Payload
    | UnsupportedAuth(code: nat)

  datatype Result<+T> = Ok(value: T) | Err(fault: Fault)

  type Params = map<Octets, Octets>

  // ---------------------------------------------------------------- typed messages

  datatype Message = Message(typ: Byte, payload: Octets)

  const AUTH: Byte := 82      // 'R'
  const READY: Byte := 90     // 'Z'
  const PASSWORD: Byte := 112 // 'p'

  function Encode(m: Message): Octets {
    [m.typ] + PutU32(|m.payload| + 4) + m.payload
  }

  function EncodeAll(ms: seq<Message>): Octets {
    if ms == [] then [] else Encode(ms[0]) + EncodeAll(ms[1..])
  }

  /** The first message of a stream, and what follows it. */
  function NextMessage(stream: Octets): (r: Result<(Message, Octets)>)
    ensures r.Ok? ==> |r.value.1| < |stream|
  {
    if |stream| < 5 then Err(Eof)
    else
      var length := U32(stream[1..5]);
      if length < 4 then Err(BadMessageLength(length))
      else if |stream| < length + 1 then Err(Eof)
      else Ok((Message(stream[0], stream[5..length + 1]), stream[length + 1..]))
  }

  predicate Fits(m: Message) {
    |m.payload| + 4 < TWO_32
  }

  lemma FramedMessage(typ: Byte, length: Octets, payload: Octets, rest: Octets)
    requires |length| == 4 && U32(length) == |payload| + 4
    ensures NextMessage([typ] + length + payload + rest) == Ok((Message(typ, payload), rest))
  {
  }

  /** With a length that does not fit, less is read than was written. */
  lemma TruncatedMessage(m: Message, rest: Octets)
    requires !Fits(m)
    ensures NextMessage(Encode(m) + rest) != Ok((m, rest))
  {
  }

  /** A written message is read back exactly when its length fits the 32-bit field. */
  lemma MessageRoundTripExactlyWhen(m: Message, rest: Octets)
    ensures NextMessage(Encode(m) + rest) == Ok((m, rest)) <==> Fits(m)
  {
    if Fits(m) {
      PutFits(|m.payload| + 4);
      FramedMessage(m.typ, PutU32(|m.payload| + 4), m.payload, rest);
    } else {
      TruncatedMessage(m, rest);
    }
  }

  /** What is read is a message that fits, and writing it again gives the very bytes. */
  lemma ReadMessageIsWritten(stream: Octets)
    requires NextMessage(stream).Ok?
    ensures var (m, rest) := NextMessage(stream).value; Fits(m) && stream == Encode(m) + rest
  {
    var (m, rest) := NextMessage(stream).value;
    ReadThenPut(stream[1..5]);
    assert stream == [stream[0]] + stream[1..5] + stream[5..U32(stream[1..5]) + 1] + rest;
  }

  // ---------------------------------------------------------------- startup packets

  /** Keys and values up to the first blank key; a last field without a partner is ignored. */
  function PairsOf(fields: seq<Octets>): seq<(Octets, Octets)> {
    if |fields| < 2 || Trim(fields[0]) == [] then [] else [(Trim(fields[0]), fields[1])] + PairsOf(fields[2..])
  }

  /** Later pairs win. */
  function MapOf(pairs: seq<(Octets, Octets)>): Params {
    if pairs == [] then map[] else MapOf(pairs[..|pairs| - 1])[pairs[|pairs| - 1].0 := pairs[|pairs| - 1].1]
  }

  function ParseParams(payload: Octets): Params {
    MapOf(PairsOf(Text.Split(payload, NUL)))
  }

  predicate Kept(key: Octets, value: Octets) {
    Trim(key) != [] && value != []
  }

  predicate Lists(order: seq<Octets>, params: Params) {
    (forall k :: 0 <= k < |order| ==> order[k] in params) && (forall key :: key in params ==> key in order)
  }

  /** The kept pairs, in the order in which the map happens to be visited. */
  function KeptPairs(order: seq<Octets>, params: Params): seq<(Octets, Octets)>
    requires forall k :: 0 <= k < |order| ==> order[k] in params
  {
    if order == [] then []
    else
      var rest := KeptPairs(order[1..], params);
      if Kept(order[0], params[order[0]]) then [(order[0], params[order[0]])] + rest else rest
  }

  function PairBytes(pairs: seq<(Octets, Octets)>): Octets {
    if pairs == [] then [] else pairs[0].0 + [NUL] + pairs[0].1 + [NUL] + PairBytes(pairs[1..])
  }

  function StartupBody(order: seq<Octets>, params: Params): Octets
    requires forall k :: 0 <= k < |order| ==> order[k] in params
  {
    PutU32(PROTOCOL_V3) + PairBytes(KeptPairs(order, params)) + [NUL]
  }

  function Startup(order: seq<Octets>, params: Params): Octets
    requires forall k :: 0 <= k < |order| ==> order[k] in params
  {
    PutU32(|StartupBody(order, params)| + 4) + StartupBody(order, params)
  }

  predicate StartupFits(order: seq<Octets>, params: Params)
    requires forall k :: 0 <= k < |order| ==> order[k] in params
  {
    |StartupBody(order, params)| + 4 < TWO_32
  }

  /** What reading a startup packet yields: the parameters, what was answered on the way, and the bytes left. */
  datatype Handshake = Handshake(params: Result<Params>, answered: Octets, rest: Octets)

  /** One startup-phase packet: its code, what follows the code, and the rest of the stream. */
  function NextPacket(stream: Octets): (r: Result<(nat, Octets, Octets)>)
    ensures r.Ok? ==> |r.value.2| < |stream|
  {
    if |stream| < 4 then Err(Eof)
    else
      var length := U32(stream[..4]);
      if length < 8 then Err(BadStartupLength(length))
      else if |stream| < length then Err(Eof)
      else Ok((U32(stream[4..8]), stream[8..length], stream[length..]))
  }

  /** TLS requests are refused and reading goes on. */
  function ReadStartup(stream: Octets): Handshake
    decreases |stream|
  {
    var next := NextPacket(stream);
    if next.Err? then Handshake(Err(next.fault), [], [])
    else
      var (code, payload, rest) := next.value;
      if code == SSL_REQUEST_CODE then
        var h := ReadStartup(rest);
        h.(answered := REFUSE_SSL + h.answered)
      else if code == CANCEL_CODE then Handshake(Err(CancelUnsupported), [], [])
      else Handshake(Ok(ParseParams(payload)), [], rest)
  }

  // ---------------------------------------------------------------- round trip of startup packets

  predicate CleanPair(p: (Octets, Octets)) {
    Trim(p.0) == p.0 && p.0 != [] && NUL !in p.0 && NUL !in p.1
  }

  function Flat(pairs: seq<(Octets, Octets)>): seq<Octets> {
    if pairs == [] then [] else [pairs[0].0, pairs[0].1] + Flat(pairs[1..])
  }

  lemma SplitPair(key: Octets, value: Octets, rest: Octets)
    requires NUL !in key && NUL !in value
    ensures Text.Split(key + [NUL] + value + [NUL] + rest, NUL) == [key, value] + Text.Split(rest, NUL)
  {
    var tail := value + [NUL] + rest;
    Text.SplitFirst(value, NUL, rest);
    Text.SplitFirst(key, NUL, tail);
    assert key + [NUL] + value + [NUL] + rest == key + [NUL] + tail;
    PrependTwo(key, value, Text.Split(rest, NUL));
  }

  lemma PrependTwo<T>(a: T, b: T, rest: seq<T>)
    ensures [a] + ([b] + rest) == [a, b] + rest
  {
  }

  lemma {:induction false} PairsAsFields(pairs: seq<(Octets, Octets)>)
    requires forall k :: 0 <= k < |pairs| ==> CleanPair(pairs[k])
    ensures Text.Split(PairBytes(pairs) + [NUL], NUL) == Flat(pairs) + [[], []]
  {
    if pairs == [] {
      Text.SplitFirst([], NUL, []);
      assert [] + [NUL] + [] == PairBytes(pairs) + [NUL];
      assert [[]] + [[]] == Flat(pairs) + [[], []];
    } else {
      var p, rest := pairs[0], PairBytes(pairs[1..]) + [NUL];
      PairsAsFields(pairs[1..]);
      assert CleanPair(p);
      SplitPair(p.0, p.1, rest);
      assert PairBytes(pairs) + [NUL] == p.0 + [NUL] + p.1 + [NUL] + rest;
      assert [p.0, p.1] + (Flat(pairs[1..]) + [[], []]) == Flat(pairs) + [[], []];
    }
  }

  lemma {:induction false} FieldsAsPairs(pairs: seq<(Octets, Octets)>)
    requires forall k :: 0 <= k < |pairs| ==> CleanPair(pairs[k])
    ensures PairsOf(Flat(pairs) + [[], []]) == pairs
  {
    var fields := Flat(pairs) + [[], []];
    if pairs == [] {
      assert Trim(fields[0]) == [];
    } else {
      FieldsAsPairs(pairs[1..]);
      assert CleanPair(pairs[0]);
      assert fields[2..] == Flat(pairs[1..]) + [[], []];
      assert fields[0] == pairs[0].0 && fields[1] == pairs[0].1;
      assert pairs == [pairs[0]] + pairs[1..];
    }
  }

  function NonEmpty(params: Params): Params {
    map key | key in params && Kept(key, params[key]) :: params[key]
  }

  /** The map is the same in whatever order its pairs were written. */
  lemma {:induction false} KeptPairsMapBack(pairs: seq<(Octets, Octets)>, params: Params)
    requires ComeFrom(pairs, params)
    ensures forall key :: key in MapOf(pairs) <==> HasKey(pairs, key)
    ensures forall key :: key in MapOf(pairs) ==>
        key in params && MapOf(pairs)[key] == params[key] && Kept(key, params[key])
  {
    if pairs != [] {
      var init, last := pairs[..|pairs| - 1], pairs[|pairs| - 1];
      assert pairs == init + [last] && last in pairs;
      KeptPairsMapBack(init, params);
      forall key ensures HasKey(pairs, key) <==> key == last.0 || HasKey(init, key) {
        KeySnoc(init, last, key);
      }
    }
  }

  lemma KeySnoc(init: seq<(Octets, Octets)>, last: (Octets, Octets), key: Octets)
    ensures HasKey(init + [last], key) <==> key == last.0 || HasKey(init, key)
  {
    var pairs := init + [last];
    if key == last.0 {
      assert pairs[|init|].0 == key;
    }
    if HasKey(init, key) {
      var k :| 0 <= k < |init| && init[k].0 == key;
      assert pairs[k].0 == key;
    }
  }

  predicate ComeFrom(pairs: seq<(Octets, Octets)>, params: Params) {
    forall p :: p in pairs ==> p.0 in params && params[p.0] == p.1 && Kept(p.0, p.1)
  }

  predicate HasKey(pairs: seq<(Octets, Octets)>, key: Octets) {
    exists k :: 0 <= k < |pairs| && pairs[k].0 == key
  }

  lemma {:induction false} KeptPairsAre(order: seq<Octets>, params: Params)
    requires forall k :: 0 <= k < |order| ==> order[k] in params
    ensures ComeFrom(KeptPairs(order, params), params)
    ensures forall key :: key in order && Kept(key, params[key]) ==> HasKey(KeptPairs(order, params), key)
  {
    if order != [] {
      KeptPairsAre(order[1..], params);
      var pairs, rest := KeptPairs(order, params), KeptPairs(order[1..], params);
      forall key | key in order && Kept(key, params[key]) ensures HasKey(pairs, key) {
        if key == order[0] {
          assert pairs[0].0 == key;
        } else {
          assert key in order[1..];
          var k :| 0 <= k < |rest| && rest[k].0 == key;
          assert pairs[k + |pairs| - |rest|].0 == key;
        }
      }
    }
  }

  lemma KeptPairsMap(order: seq<Octets>, params: Params)
    requires Lists(order, params)
    ensures MapOf(KeptPairs(order, params)) == NonEmpty(params)
  {
    KeptPairsAre(order, params);
    KeptPairsMapBack(KeptPairs(order, params), params);
    var m := MapOf(KeptPairs(order, params));
    assert m.Keys == NonEmpty(params).Keys;
  }

  /** Keys and values that a startup packet can carry. */
  predicate Clean(params: Params) {
    forall key :: key in params ==> CleanPair((key, params[key]))
  }

  /** A packet carries clean parameters, empty values dropped, in any order of writing. */
  lemma CleanParamsAreRead(order: seq<Octets>, params: Params, rest: Octets)
    requires Lists(order, params) && Clean(params) && StartupFits(order, params)
    ensures ReadStartup(Startup(order, params) + rest) == Handshake(Ok(NonEmpty(params)), [], rest)
  {
    KeptPairsAre(order, params);
    var pairs := KeptPairs(order, params);
    forall k | 0 <= k < |pairs| ensures CleanPair(pairs[k]) {
      assert pairs[k] in pairs;
      assert CleanPair((pairs[k].0, params[pairs[k].0]));
    }
    PairsAsFields(pairs);
    FieldsAsPairs(pairs);
    KeptPairsMap(order, params);
    StartupIsRead(order, params, rest);
  }

  /** Reading a packet parses what was written behind the protocol number. */
  lemma StartupIsRead(order: seq<Octets>, params: Params, rest: Octets)
    requires Lists(order, params) && StartupFits(order, params)
    ensures ReadStartup(Startup(order, params) + rest)
         == Handshake(Ok(ParseParams(PairBytes(KeptPairs(order, params)) + [NUL])), [], rest)
  {
    var payload := PairBytes(KeptPairs(order, params)) + [NUL];
    StartupFramed(order, params, rest);
    PacketIsRead(PROTOCOL_V3, payload, rest);
  }

  lemma StartupFramed(order: seq<Octets>, params: Params, rest: Octets)
    requires Lists(order, params)
    ensures var payload := PairBytes(KeptPairs(order, params)) + [NUL];
            Startup(order, params) + rest == PutU32(|payload| + 8) + PutU32(PROTOCOL_V3) + payload + rest
  {
    var payload := PairBytes(KeptPairs(order, params)) + [NUL];
    assert StartupBody(order, params) == PutU32(PROTOCOL_V3) + payload;
  }

  lemma PacketIsRead(code: nat, payload: Octets, rest: Octets)
    requires |payload| + 8 < TWO_32 && code < TWO_32
    ensures ReadStartup(PutU32(|payload| + 8) + PutU32(code) + payload + rest) == Dispatch(code, payload, rest)
  {
    PutFits(|payload| + 8);
    PutFits(code);
    FramedPacket(PutU32(|payload| + 8), PutU32(code), payload, rest);
  }

  /** What a whole packet with this code leads to. */
  function Dispatch(code: nat, payload: Octets, rest: Octets): Handshake {
    if code == SSL_REQUEST_CODE then
      var h := ReadStartup(rest);
      h.(answered := REFUSE_SSL + h.answered)
    else if code == CANCEL_CODE then Handshake(Err(CancelUnsupported), [], [])
    else Handshake(Ok(ParseParams(payload)), [], rest)
  }

  lemma FramedPacket(header: Octets, code: Octets, payload: Octets, rest: Octets)
    requires |header| == 4 && |code| == 4 && U32(header) == |payload| + 8
    ensures NextPacket(header + code + payload + rest) == Ok((U32(code), payload, rest))
  {
  }

  /** Parsed keys are trimmed and not empty, and neither keys nor values hold a NUL byte. */
  lemma ParsedParamsAreClean(payload: Octets)
    ensures Clean(ParseParams(payload))
  {
    PairsAreClean(Text.Split(payload, NUL));
    MapIsClean(PairsOf(Text.Split(payload, NUL)));
  }

  lemma {:induction false} PairsAreClean(fields: seq<Octets>)
    requires forall k :: 0 <= k < |fields| ==> NUL !in fields[k]
    ensures forall k :: 0 <= k < |PairsOf(fields)| ==> CleanPair(PairsOf(fields)[k])
  {
    if |fields| >= 2 && Trim(fields[0]) != [] {
      PairsAreClean(fields[2..]);
      TrimTwice(fields[0]);
      assert NUL !in fields[0] && NUL !in fields[1];
      assert CleanPair((Trim(fields[0]), fields[1]));
    }
  }

  lemma {:induction false} MapIsClean(pairs: seq<(Octets, Octets)>)
    requires forall k :: 0 <= k < |pairs| ==> CleanPair(pairs[k])
    ensures Clean(MapOf(pairs))
  {
    if pairs != [] {
      MapIsClean(pairs[..|pairs| - 1]);
      assert CleanPair(pairs[|pairs| - 1]);
    }
  }

  /**
   A startup packet round-trips exactly when its keys are trimmed, non-empty and NUL-free and its values non-empty
   and NUL-free.
   */
  lemma StartupRoundTripExactlyWhen(order: seq<Octets>, params: Params, rest: Octets)
    requires Lists(order, params) && StartupFits(order, params)
    ensures ReadStartup(Startup(order, params) + rest) == Handshake(Ok(params), [], rest)
       <==> Clean(params) && forall key :: key in params ==> params[key] != []
  {
    StartupIsRead(order, params, rest);
    ParsedParamsAreClean(PairBytes(KeptPairs(order, params)) + [NUL]);
    if Clean(params) {
      CleanParamsAreRead(order, params, rest);
      forall key | key in params ensures Kept(key, params[key]) <==> params[key] != [] {
        assert CleanPair((key, params[key]));
      }
      if NonEmpty(params) == params {
        forall key | key in params ensures params[key] != [] {
          assert key in NonEmpty(params);
        }
      } else {
        assert NonEmpty(params).Keys != params.Keys by {
          assert forall key :: key in NonEmpty(params) ==> NonEmpty(params)[key] == params[key];
        }
      }
    }
  }
}

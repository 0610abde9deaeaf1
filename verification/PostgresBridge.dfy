/** Logging in upstream on the client's behalf: which messages the client sees, and what the upstream is sent. */
module PostgresBridge {
  import opened Bytes
  import opened Postgres

  const AUTH_OK := 0
  const AUTH_CLEARTEXT := 3
  const AUTH_MD5 := 5

  /** The password and its digest over a user name and a four-byte salt. */
  datatype Login = Login(password: Octets, user: Octets, digest: (Octets, Octets, Octets) -> Octets)

  datatype Reply = Reply(toClient: Octets, toUpstream: Octets)

  function PasswordMessage(password: Octets): Octets {
    Encode(Message(PASSWORD, password + [NUL]))
  }

  function AuthCode(m: Message): nat
    requires |m.payload| >= 4
  {
    U32(m.payload[..4])
  }

  function Respond(m: Message, login: Login): Result<Reply> {
    if m.typ != AUTH then Ok(Reply(Encode(m), []))
    else if |m.payload| < 4 then Err(BadAuthPayload)
    else if AuthCode(m) == AUTH_OK then Ok(Reply(Encode(m), []))
    else if AuthCode(m) == AUTH_CLEARTEXT then Ok(Reply([], PasswordMessage(login.password)))
    else if AuthCode(m) == AUTH_MD5 then
      if |m.payload| < 8 then Err(BadMd5Payload)
      else Ok(Reply([], PasswordMessage(login.digest(login.password, login.user, m.payload[4..8]))))
    else Err(UnsupportedAuth(AuthCode(m)))
  }

  /**
   How the exchange went: the fault that ended it if any, the bytes written to each side, and the upstream bytes
   not read.
   */
  datatype Transcript = Transcript(fault: Result<()>, toClient: Octets, toUpstream: Octets, rest: Octets)
  {
    function After(r: Reply): Transcript {
      this.(toClient := r.toClient + toClient, toUpstream := r.toUpstream + toUpstream)
    }
  }

  function Bridge(stream: Octets, login: Login): Transcript
    decreases |stream|
  {
    var next := NextMessage(stream);
    if next.Err? then Transcript(Err(next.fault), [], [], [])
    else
      var (m, rest) := next.value;
      var r := Respond(m, login);
      if r.Err? then Transcript(Err(r.fault), [], [], [])
      else if m.typ == READY then Transcript(Ok(()), [], [], rest).After(r.value)
      else Bridge(rest, login).After(r.value)
  }

  // ---------------------------------------------------------------- one step of the exchange

  /** What has been written to each side, and what the rest of the exchange still owes it, make up the whole. */
  predicate Owes(total: Transcript, client: Octets, upstream: Octets, left: Transcript) {
    && total.fault == left.fault && total.rest == left.rest
    && total.toClient == client + left.toClient && total.toUpstream == upstream + left.toUpstream
  }

  /** The exchange with what each side had received before it in front. */
  function Whole(client: Octets, upstream: Octets, t: Transcript): Transcript {
    t.(toClient := client + t.toClient, toUpstream := upstream + t.toUpstream)
  }

  lemma OwesNothing(total: Transcript, client: Octets, upstream: Octets, left: Transcript)
    requires Owes(total, client, upstream, left) && left.toClient == [] && left.toUpstream == []
    ensures total.toClient == client && total.toUpstream == upstream
  {
  }

  lemma OwesNext(total: Transcript, client: Octets, upstream: Octets, r: Reply, left: Transcript)
    requires Owes(total, client, upstream, left.After(r))
    ensures Owes(total, client + r.toClient, upstream + r.toUpstream, left)
  {
    assert client + (r.toClient + left.toClient) == client + r.toClient + left.toClient;
    assert upstream + (r.toUpstream + left.toUpstream) == upstream + r.toUpstream + left.toUpstream;
  }

  /** What the message at the front makes of the exchange: an end, or a reply and the exchange from there. */
  lemma BridgeFront(stream: Octets, login: Login)
    requires NextMessage(stream).Ok?
    ensures var (m, rest) := NextMessage(stream).value;
            var r := Respond(m, login);
            Bridge(stream, login)
              == if r.Err? then Transcript(Err(r.fault), [], [], [])
                 else if m.typ == READY then Transcript(Ok(()), [], [], rest).After(r.value)
                 else Bridge(rest, login).After(r.value)
  {
  }

  // ---------------------------------------------------------------- what is forwarded

  /** An authentication message the adapter answers itself. */
  predicate IsChallenge(m: Message) {
    m.typ == AUTH && |m.payload| >= 4 && AuthCode(m) in {AUTH_CLEARTEXT, AUTH_MD5}
  }

  /** An authentication message the adapter can handle; every other kind of message is fine. */
  predicate Handled(m: Message) {
    m.typ == AUTH ==>
      && |m.payload| >= 4 && AuthCode(m) in {AUTH_OK, AUTH_CLEARTEXT, AUTH_MD5}
      && (AuthCode(m) == AUTH_MD5 ==> |m.payload| >= 8)
  }

  function Forwarded(ms: seq<Message>): seq<Message> {
    if ms == [] then []
    else if IsChallenge(ms[0]) then Forwarded(ms[1..])
    else [ms[0]] + Forwarded(ms[1..])
  }

  function Answers(ms: seq<Message>, login: Login): seq<Message> {
    if ms == [] then []
    else if IsChallenge(ms[0]) then [Answer(ms[0], login)] + Answers(ms[1..], login)
    else Answers(ms[1..], login)
  }

  function Answer(m: Message, login: Login): Message
    requires IsChallenge(m)
  {
    if AuthCode(m) == AUTH_CLEARTEXT then Message(PASSWORD, login.password + [NUL])
    else
      var salt := if |m.payload| >= 8 then m.payload[4..8] else [];
      Message(PASSWORD, login.digest(login.password, login.user, salt) + [NUL])
  }

  /** A login that completes: messages that fit and can be handled, with the first ready message last. */
  predicate Session(ms: seq<Message>) {
    && ms != [] && ms[|ms| - 1].typ == READY
    && (forall k :: 0 <= k < |ms| ==> Fits(ms[k]) && Handled(ms[k]))
    && (forall k :: 0 <= k < |ms| - 1 ==> ms[k].typ != READY)
  }

  /** One message in front of the rest of the exchange. */
  lemma BridgeStep(m: Message, rest: Octets, login: Login)
    requires Fits(m)
    ensures Bridge(Encode(m) + rest, login)
         == var r := Respond(m, login);
            if r.Err? then Transcript(Err(r.fault), [], [], [])
            else if m.typ == READY then Transcript(Ok(()), [], [], rest).After(r.value)
            else Bridge(rest, login).After(r.value)
  {
    MessageRoundTripExactlyWhen(m, rest);
  }

  lemma ResponseMeans(m: Message, login: Login)
    ensures Respond(m, login).Ok? <==> Handled(m)
    ensures Handled(m) ==>
              Respond(m, login).value
                == if IsChallenge(m) then Reply([], Encode(Answer(m, login))) else Reply(Encode(m), [])
  {
  }

  /**
   The client sees exactly the messages other than challenges, in order, up to the first ready message; the
   upstream gets one answer per challenge.
   */
  lemma {:induction false} SessionIsForwarded(ms: seq<Message>, rest: Octets, login: Login)
    requires Session(ms)
    ensures Bridge(EncodeAll(ms) + rest, login)
         == Transcript(Ok(()), EncodeAll(Forwarded(ms)), EncodeAll(Answers(ms, login)), rest)
  {
    var m, tail := ms[0], EncodeAll(ms[1..]) + rest;
    assert EncodeAll(ms) + rest == Encode(m) + tail;
    BridgeStep(m, tail, login);
    ResponseMeans(m, login);
    if |ms| == 1 {
      assert tail == rest;
      EncodeOne(m);
      OneForwarded(ms, login);
    } else {
      assert ms[0].typ != READY;
      SessionIsForwarded(ms[1..], rest, login);
      ForwardedHead(ms, login);
    }
  }

  lemma OneForwarded(ms: seq<Message>, login: Login)
    requires |ms| == 1 && !IsChallenge(ms[0])
    ensures Forwarded(ms) == ms && Answers(ms, login) == []
  {
    assert ms[1..] == [] && ms == [ms[0]];
  }

  lemma EncodeOne(m: Message)
    ensures EncodeAll([m]) == Encode(m)
  {
  }

  lemma ForwardedHead(ms: seq<Message>, login: Login)
    requires ms != []
    ensures EncodeAll(Forwarded(ms))
        == (if IsChallenge(ms[0]) then [] else Encode(ms[0])) + EncodeAll(Forwarded(ms[1..]))
    ensures EncodeAll(Answers(ms, login))
         == (if IsChallenge(ms[0]) then Encode(Answer(ms[0], login)) else []) + EncodeAll(Answers(ms[1..], login))
  {
  }

  /** A login that ended without a fault was such a session. */
  lemma {:induction false} SuccessIsASession(stream: Octets, login: Login) returns (ms: seq<Message>, rest: Octets)
    requires Bridge(stream, login).fault.Ok?
    ensures Session(ms) && stream == EncodeAll(ms) + rest
    decreases |stream|
  {
    var (m, tail) := NextMessage(stream).value;
    ReadMessageIsWritten(stream);
    ResponseMeans(m, login);
    if m.typ == READY {
      ms, rest := [m], tail;
      EncodeOne(m);
    } else {
      var later;
      later, rest := SuccessIsASession(tail, login);
      ms := [m] + later;
      assert ms[1..] == later;
      assert stream == Encode(m) + (EncodeAll(later) + rest) == EncodeAll(ms) + rest;
    }
  }

  /** The login succeeds exactly when the upstream's bytes start with a complete session. */
  lemma SucceedsExactlyWhen(stream: Octets, login: Login)
    ensures Bridge(stream, login).fault.Ok? <==> exists ms, rest :: Session(ms) && stream == EncodeAll(ms) + rest
  {
    if Bridge(stream, login).fault.Ok? {
      var ms, rest := SuccessIsASession(stream, login);
    }
    forall ms, rest | Session(ms) && stream == EncodeAll(ms) + rest ensures Bridge(stream, login).fault.Ok? {
      SessionIsForwarded(ms, rest, login);
    }
  }

  // ---------------------------------------------------------------- decoding a concatenation

  /** Concatenated messages are decoded in order, and the bytes behind them are left. */
  function NextMessages(stream: Octets, n: nat): Result<(seq<Message>, Octets)> {
    if n == 0 then Ok(([], stream))
    else
      var first := NextMessage(stream);
      if first.Err? then Err(first.fault)
      else
        var others := NextMessages(first.value.1, n - 1);
        if others.Err? then others else Ok(([first.value.0] + others.value.0, others.value.1))
  }

  lemma {:induction false} ConcatenationRoundTrip(ms: seq<Message>, rest: Octets)
    requires forall k :: 0 <= k < |ms| ==> Fits(ms[k])
    ensures NextMessages(EncodeAll(ms) + rest, |ms|) == Ok((ms, rest))
  {
    if ms == [] {
      assert EncodeAll(ms) + rest == rest;
    } else {
      var tail := EncodeAll(ms[1..]) + rest;
      assert EncodeAll(ms) + rest == Encode(ms[0]) + tail;
      MessageRoundTripExactlyWhen(ms[0], tail);
      ConcatenationRoundTrip(ms[1..], rest);
      assert [ms[0]] + ms[1..] == ms;
    }
  }

  /** The messages meant for the client never include the adapter's answers, and reach it readable in order. */
  lemma {:induction false} ClientReadsTheForwarded(ms: seq<Message>, rest: Octets, login: Login)
    requires Session(ms)
    ensures var t := Bridge(EncodeAll(ms) + rest, login);
            NextMessages(t.toClient, |Forwarded(ms)|) == Ok((Forwarded(ms), []))
    ensures forall m :: m in Forwarded(ms) ==> m in ms && !IsChallenge(m)
  {
    SessionIsForwarded(ms, rest, login);
    ForwardedComesFrom(ms);
    var f := Forwarded(ms);
    forall k | 0 <= k < |f| ensures Fits(f[k]) {
      assert f[k] in ms;
    }
    ConcatenationRoundTrip(f, []);
    assert EncodeAll(f) + [] == EncodeAll(f);
  }

  lemma {:induction false} ForwardedComesFrom(ms: seq<Message>)
    ensures forall m :: m in Forwarded(ms) ==> m in ms && !IsChallenge(m)
  {
    if ms != [] {
      ForwardedComesFrom(ms[1..]);
    }
  }

  // ---------------------------------------------------------------- the whole adapter

  /** The client's parameters with the configured user and database put in. */
  function Overridden(params: Params, user: Octets, database: Octets): Params {
    var withUser := if Trim(user) != [] then params[USER_KEY := Trim(user)] else params;
    if Trim(database) != [] then withUser[DATABASE_KEY := Trim(database)] else withUser
  }

  const USER_KEY: Octets := [117, 115, 101, 114]
  const DATABASE_KEY: Octets := [100, 97, 116, 97, 98, 97, 115, 101]

  lemma FixedKeysAreClean()
    ensures forall value: Octets :: NUL !in value ==> CleanPair((USER_KEY, value)) && CleanPair((DATABASE_KEY, value))
  {
    assert SpaceAtStart(USER_KEY) == 0 && SpaceAtEnd(USER_KEY) == 0;
    assert SpaceAtStart(DATABASE_KEY) == 0 && SpaceAtEnd(DATABASE_KEY) == 0;
  }

  /**
   Whatever parameters a client managed to send, the upstream reads the same ones with the configured names in
   place, less the empty ones.
   */
  lemma UpstreamReadsTheOverriddenParams(
    client: Octets, user: Octets, database: Octets, order: seq<Octets>, rest: Octets)
    requires ReadStartup(client).params.Ok? && NUL !in user && NUL !in database
    requires var params := Overridden(ReadStartup(client).params.value, user, database);
             Lists(order, params) && StartupFits(order, params)
    ensures var params := Overridden(ReadStartup(client).params.value, user, database);
            ReadStartup(Startup(order, params) + rest) == Handshake(Ok(NonEmpty(params)), [], rest)
  {
    var given := ReadStartup(client).params.value;
    var params := Overridden(given, user, database);
    ReadParamsAreClean(client);
    FixedKeysAreClean();
    assert NUL !in Trim(user) && NUL !in Trim(database);
    forall key | key in params ensures CleanPair((key, params[key])) {
      if key in given {
        assert CleanPair((key, given[key]));
      }
    }
    CleanParamsAreRead(order, params, rest);
  }

  lemma {:induction false} ReadParamsAreClean(stream: Octets)
    requires ReadStartup(stream).params.Ok?
    ensures Clean(ReadStartup(stream).params.value)
    decreases |stream|
  {
    var (code, payload, rest) := NextPacket(stream).value;
    if code == SSL_REQUEST_CODE {
      ReadParamsAreClean(rest);
    } else {
      ParsedParamsAreClean(payload);
    }
  }

  function Repeat(bs: Octets, n: nat): Octets {
    if n == 0 then [] else bs + Repeat(bs, n - 1)
  }

  function TlsRequest(): Octets {
    PutU32(8) + PutU32(SSL_REQUEST_CODE)
  }

  /** A packet that is answered with a refusal and otherwise leaves no trace, for this way of reading. */
  ghost predicate IsRefused(read: Octets -> Handshake, request: Octets) {
    forall rest {:trigger request + rest} ::
        read(request + rest) == read(rest).(answered := REFUSE_SSL + read(rest).answered)
  }

  lemma TlsRequestIsRefused()
    ensures IsRefused(ReadStartup, TlsRequest())
  {
    forall rest
      ensures ReadStartup(TlsRequest() + rest)
           == ReadStartup(rest).(answered := REFUSE_SSL + ReadStartup(rest).answered)
    {
      var payload: Octets := [];
      PacketIsRead(SSL_REQUEST_CODE, payload, rest);
      assert TlsRequest() + rest == PutU32(|payload| + 8) + PutU32(SSL_REQUEST_CODE) + payload + rest;
    }
  }

  lemma RepeatFront(bs: Octets, n: nat, tail: Octets)
    ensures Repeat(bs, n) + tail == if n == 0 then tail else bs + (Repeat(bs, n - 1) + tail)
  {
  }

  lemma {:induction false} RefusedManyTimes(read: Octets -> Handshake, request: Octets, n: nat, stream: Octets)
    requires IsRefused(read, request)
    ensures read(Repeat(request, n) + stream)
        == read(stream).(answered := Repeat(REFUSE_SSL, n) + read(stream).answered)
  {
    RepeatFront(request, n, stream);
    RepeatFront(REFUSE_SSL, n, read(stream).answered);
    if n > 0 {
      RefusedManyTimes(read, request, n - 1, stream);
    }
  }

  /** Any number of TLS requests are each refused, and the startup packet behind them is read as if alone. */
  lemma TlsRequestsAreRefused(n: nat, stream: Octets)
    ensures ReadStartup(Repeat(TlsRequest(), n) + stream)
         == ReadStartup(stream).(answered := Repeat(REFUSE_SSL, n) + ReadStartup(stream).answered)
  {
    TlsRequestIsRefused();
    RefusedManyTimes(ReadStartup, TlsRequest(), n, stream);
  }
}

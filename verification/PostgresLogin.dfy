/** Which credentials the adapter logs in with: one answer per challenge, as the upstream decodes and reads it. */
module PostgresLogin {
  import opened Bytes
  import opened Postgres
  import opened PostgresBridge

  /** The challenges of a session, in order. */
  function Challenges(ms: seq<Message>): (challenges: seq<Message>)
    ensures forall m :: m in challenges <==> m in ms && IsChallenge(m)
  {
    if ms == [] then []
    else if IsChallenge(ms[0]) then [ms[0]] + Challenges(ms[1..])
    else Challenges(ms[1..])
  }

  /**
   A password message for this challenge: to a cleartext one the password, to an MD5 one its digest over user and
   salt, the four bytes behind the code; both end in NUL.
   */
  predicate AnswersIt(
    answer: Message, challenge: Message, password: Octets, user: Octets, digest: (Octets, Octets, Octets) -> Octets)
  {
    && answer.typ == 'p' as int && challenge.typ == 'R' as int && |challenge.payload| >= 4
    && (U32(challenge.payload[..4]) == 3 ==> answer.payload == password + [0])
    && (U32(challenge.payload[..4]) == 5 ==>
          |challenge.payload| >= 8 && answer.payload == digest(password, user, challenge.payload[4..8]) + [0])
  }

  predicate AnswersEach(
    answers: seq<Message>, challenges: seq<Message>, password: Octets, user: Octets,
    digest: (Octets, Octets, Octets) -> Octets)
  {
    && |answers| == |challenges|
    && forall k :: 0 <= k < |answers| ==> AnswersIt(answers[k], challenges[k], password, user, digest)
  }

  lemma {:induction false} AnsweredOneByOne(ms: seq<Message>, login: Login)
    requires forall k :: 0 <= k < |ms| ==> Handled(ms[k])
    ensures AnswersEach(Answers(ms, login), Challenges(ms), login.password, login.user, login.digest)
  {
    if ms != [] {
      AnsweredOneByOne(ms[1..], login);
      if IsChallenge(ms[0]) {
        assert Handled(ms[0]);
        assert AnswersIt(Answer(ms[0], login), ms[0], login.password, login.user, login.digest);
      }
    }
  }

  /** The bytes are one answer per challenge, in order and nothing else. */
  ghost predicate LogsIn(
    sent: Octets, ms: seq<Message>, password: Octets, user: Octets, digest: (Octets, Octets, Octets) -> Octets)
  {
    exists answers :: sent == EncodeAll(answers) && AnswersEach(answers, Challenges(ms), password, user, digest)
  }

  lemma SessionLogsIn(ms: seq<Message>, rest: Octets, login: Login)
    requires Session(ms)
    ensures var t := Bridge(EncodeAll(ms) + rest, login);
            && t.fault == Ok(()) && t.rest == rest && t.toClient == EncodeAll(Forwarded(ms))
            && LogsIn(t.toUpstream, ms, login.password, login.user, login.digest)
  {
    SessionIsForwarded(ms, rest, login);
    AnsweredOneByOne(ms, login);
  }

  /** Credentials whose password messages fit their length field. */
  predicate ShortEnough(
    ms: seq<Message>, password: Octets, user: Octets, digest: (Octets, Octets, Octets) -> Octets)
  {
    |password| + 5 < TWO_32
    && forall m :: m in ms && |m.payload| >= 8 ==> |digest(password, user, m.payload[4..8])| + 5 < TWO_32
  }

  /** The upstream decodes them, one password message per challenge. */
  lemma UpstreamReadsThePasswords(
    sent: Octets, ms: seq<Message>, password: Octets, user: Octets, digest: (Octets, Octets, Octets) -> Octets)
    requires LogsIn(sent, ms, password, user, digest) && ShortEnough(ms, password, user, digest)
    ensures var read := NextMessages(sent, |Challenges(ms)|);
            && read.Ok? && read.value.1 == []
            && AnswersEach(read.value.0, Challenges(ms), password, user, digest)
  {
    var answers :| sent == EncodeAll(answers) && AnswersEach(answers, Challenges(ms), password, user, digest);
    forall k | 0 <= k < |answers| ensures Fits(answers[k]) {
      var challenge := Challenges(ms)[k];
      assert challenge in Challenges(ms);
      assert AnswersIt(answers[k], challenge, password, user, digest) && IsChallenge(challenge);
    }
    assert sent + [] == sent;
    ConcatenationRoundTrip(answers, []);
  }

  // ---------------------------------------------------------------- which names the upstream is given

  /** The numbers of protocol 3.0: packet codes, message types and the names of two parameters. */
  lemma CodesSpell()
    ensures PutU32(PROTOCOL_V3) == [0, 3, 0, 0]
    ensures TlsRequest() == [0, 0, 0, 8, 4, 210, 22, 47]
    ensures PutU32(CANCEL_CODE) == [4, 210, 22, 46]
    ensures READY == 'Z' as int && AUTH == 'R' as int && PASSWORD == 'p' as int && REFUSE_SSL == ['N' as int]
    ensures |USER_KEY| == 4 && forall k :: 0 <= k < 4 ==> USER_KEY[k] as int == "user"[k] as int
    ensures |DATABASE_KEY| == 8 && forall k :: 0 <= k < 8 ==> DATABASE_KEY[k] as int == "database"[k] as int
  {
  }

  /** A configured name that is not blank replaces the client's, trimmed; all else stays as the client sent it. */
  lemma ConfiguredNamesWin(params: Params, user: Octets, database: Octets, key: Octets)
    ensures var given := Overridden(params, user, database);
            if key == USER_KEY && Trim(user) != [] then key in given && given[key] == Trim(user)
            else if key == DATABASE_KEY && Trim(database) != [] then key in given && given[key] == Trim(database)
            else (key in given <==> key in params) && (key in params ==> given[key] == params[key])
  {
  }

  /** The user of the digest: the configured one if there is one, else the client's, else none. */
  function DigestUser(params: Params, user: Octets): Octets {
    if Trim(user) != [] then Trim(user) else if USER_KEY in params then params[USER_KEY] else []
  }

  /** Which is the user that the upstream reads from the startup packet in front of the answers, or none. */
  lemma DigestUserIsTheOneUpstreamReads(
    client: Octets, user: Octets, database: Octets, order: seq<Octets>, rest: Octets)
    requires ReadStartup(client).params.Ok? && NUL !in user && NUL !in database
    requires var params := Overridden(ReadStartup(client).params.value, user, database);
             Lists(order, params) && StartupFits(order, params)
    ensures var given := ReadStartup(client).params.value;
            var read := ReadStartup(Startup(order, Overridden(given, user, database)) + rest);
            && read.params.Ok? && read.rest == rest
            && DigestUser(given, user) ==
               if USER_KEY in read.params.value then read.params.value[USER_KEY] else []
  {
    UpstreamReadsTheOverriddenParams(client, user, database, order, rest);
    FixedKeysAreClean();
    assert CleanPair((USER_KEY, []));
  }

  // ---------------------------------------------------------------- what is refused

  /** Why no message can be read: the stream ends too early, or the length does not even cover itself. */
  lemma MessageFaultsExactlyWhen(stream: Octets)
    ensures var next := NextMessage(stream);
            && (next.Ok? <==> exists m, rest :: Fits(m) && stream == Encode(m) + rest)
            && (next.Err? && next.fault.BadMessageLength? <==> |stream| >= 5 && U32(stream[1..5]) < 4)
            && (next.Err? ==> next.fault in {Eof, BadMessageLength(if |stream| >= 5 then U32(stream[1..5]) else 0)})
  {
    if NextMessage(stream).Ok? {
      ReadMessageIsWritten(stream);
    }
    forall m, rest | Fits(m) && stream == Encode(m) + rest ensures NextMessage(stream).Ok? {
      MessageRoundTripExactlyWhen(m, rest);
    }
  }

  /** A cancel request and a packet too short for its code are refused, whatever follows. */
  lemma StartupFaults(length: Octets, code: Octets, rest: Octets)
    requires |length| == 4 && |code| == 4
    ensures U32(length) < 8 ==> ReadStartup(length + code + rest).params == Err(BadStartupLength(U32(length)))
    ensures length == [0, 0, 0, 16] && code == [4, 210, 22, 46] && |rest| >= 8 ==>
              ReadStartup(length + code + rest).params == Err(CancelUnsupported)
  {
    var stream := length + code + rest;
    assert stream[..4] == length && stream[4..8] == code;
    BigEndian(length);
    BigEndian(code);
  }

  /** Which authentication messages end the login, and why. */
  lemma RefusesExactlyWhen(m: Message, login: Login)
    ensures var r := Respond(m, login);
            var code := if |m.payload| >= 4 then U32(m.payload[..4]) else 0;
            && (r == Err(BadAuthPayload) <==> m.typ == 'R' as int && |m.payload| < 4)
            && (r == Err(BadMd5Payload) <==> m.typ == 'R' as int && 4 <= |m.payload| < 8 && code == 5)
            && (r == Err(UnsupportedAuth(code)) <==> m.typ == 'R' as int && |m.payload| >= 4 && code !in {0, 3, 5})
            && (r.Ok? <==> m.typ == 'R' as int ==>
                  |m.payload| >= 4 && code in {0, 3, 5} && (code == 5 ==> |m.payload| >= 8))
  {
  }

  /** The first message that cannot be handled ends the login with its fault, and nothing is written after it. */
  lemma {:induction false} FirstFaultEndsTheLogin(ms: seq<Message>, bad: Message, rest: Octets, login: Login)
    requires forall k :: 0 <= k < |ms| ==> Fits(ms[k]) && Handled(ms[k]) && ms[k].typ != READY
    requires Fits(bad) && !Handled(bad)
    ensures Bridge(EncodeAll(ms) + Encode(bad) + rest, login)
         == Transcript(
              Err(Respond(bad, login).fault), EncodeAll(Forwarded(ms)), EncodeAll(Answers(ms, login)), [])
  {
    if ms == [] {
      assert EncodeAll(ms) + Encode(bad) + rest == Encode(bad) + rest;
      BridgeStep(bad, rest, login);
      ResponseMeans(bad, login);
    } else {
      var tail := EncodeAll(ms[1..]) + Encode(bad) + rest;
      assert EncodeAll(ms) + Encode(bad) + rest == Encode(ms[0]) + tail;
      BridgeStep(ms[0], tail, login);
      ResponseMeans(ms[0], login);
      FirstFaultEndsTheLogin(ms[1..], bad, rest, login);
      ForwardedHead(ms, login);
    }
  }

  // ---------------------------------------------------------------- which parameters are read

  /** The pairs are the fields two by two, keys trimmed, up to the first blank key or the end. */
  lemma {:induction false} PairsUpToTheFirstBlank(fields: seq<Octets>)
    ensures var pairs := PairsOf(fields);
            && 2 * |pairs| <= |fields|
            && (forall k :: 0 <= k < |pairs| ==>
                  pairs[k] == (Trim(fields[2 * k]), fields[2 * k + 1]) && pairs[k].0 != [])
            && (2 * |pairs| + 1 < |fields| ==> Trim(fields[2 * |pairs|]) == [])
  {
    if |fields| >= 2 && Trim(fields[0]) != [] {
      PairsUpToTheFirstBlank(fields[2..]);
      var pairs, rest := PairsOf(fields), PairsOf(fields[2..]);
      forall k | 0 <= k < |pairs|
        ensures pairs[k] == (Trim(fields[2 * k]), fields[2 * k + 1]) && pairs[k].0 != []
      {
        if k > 0 {
          assert pairs[k] == rest[k - 1];
          assert fields[2..][2 * (k - 1)] == fields[2 * k] && fields[2..][2 * (k - 1) + 1] == fields[2 * k + 1];
        }
      }
    }
  }

  /** Of two pairs with one key the later one counts. */
  lemma {:induction false} LastPairWins(pairs: seq<(Octets, Octets)>, k: nat)
    requires k < |pairs| && forall j :: k < j < |pairs| ==> pairs[j].0 != pairs[k].0
    ensures pairs[k].0 in MapOf(pairs) && MapOf(pairs)[pairs[k].0] == pairs[k].1
  {
    var n := |pairs| - 1;
    if k < n {
      LastPairWins(pairs[..n], k);
      assert pairs[n].0 != pairs[k].0;
    }
  }
}

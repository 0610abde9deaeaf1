/** The adapter's reading and writing loops over a connection. */
module PostgresAdapter {
  import opened Bytes
  import opened Postgres
  import opened PostgresBridge
  import opened PostgresLogin
  import Text

  /** One side of a connection: the bytes still to come before the peer closes, and the bytes written so far. */
  class Conn {
    var incoming: Octets
    var sent: Octets

    constructor (incoming: Octets)
      ensures this.incoming == incoming && sent == []
    {
      this.incoming, sent := incoming, [];
    }

    method Write(bs: Octets)
      modifies this`sent
      ensures sent == old(sent) + bs
    {
      sent := sent + bs;
    }

    /** All of n bytes, or an end-of-stream error. */
    method ReadFull(n: nat) returns (r: Result<Octets>)
      modifies this`incoming
      ensures |old(incoming)| < n ==> r == Err(Eof)
      ensures |old(incoming)| >= n ==> r == Ok(old(incoming)[..n]) && incoming == old(incoming)[n..]
    {
      if |incoming| < n {
        incoming := [];
        return Err(Eof);
      }
      r := Ok(incoming[..n]);
      incoming := incoming[n..];
    }

    method ReadMessage() returns (r: Result<Message>)
      modifies this`incoming
      ensures var next := NextMessage(old(incoming));
              if next.Ok? then r == Ok(next.value.0) && incoming == next.value.1 else r == Err(next.fault)
    {
      ghost var stream := incoming;
      var header := ReadFull(5);
      if header.Err? {
        return Err(header.fault);
      }
      assert header.value[1..5] == stream[1..5];
      var length := U32(header.value[1..5]);
      if length < 4 {
        return Err(BadMessageLength(length));
      }
      var payload := ReadFull(length - 4);
      if payload.Err? {
        return Err(payload.fault);
      }
      assert payload.value == stream[5..length + 1] && incoming == stream[length + 1..];
      return Ok(Message(header.value[0], payload.value));
    }

    method WriteMessage(m: Message)
      modifies this`sent
      ensures sent == old(sent) + Encode(m)
    {
      var frame := [m.typ];
      frame := frame + PutU32(|m.payload| + 4);
      frame := frame + m.payload;
      Write(frame);
    }

    /** A packet of the startup phase: the code in front, and what follows it. */
    method ReadPacket() returns (r: Result<(nat, Octets)>)
      modifies this`incoming
      ensures var next := NextPacket(old(incoming));
              if next.Ok? then r == Ok((next.value.0, next.value.1)) && incoming == next.value.2
              else r == Err(next.fault)
    {
      ghost var stream := incoming;
      var header := ReadFull(4);
      if header.Err? {
        return Err(header.fault);
      }
      var length := U32(header.value);
      if length < 8 {
        return Err(BadStartupLength(length));
      }
      var payload := ReadFull(length - 4);
      if payload.Err? {
        return Err(payload.fault);
      }
      assert payload.value == stream[4..length] && incoming == stream[length..];
      PartOfPart(stream, 4, 8, length);
      return Ok((U32(payload.value[..4]), payload.value[4..]));
    }

    method ReadStartupParams() returns (params: Result<Params>)
      modifies this
      ensures var h := ReadStartup(old(incoming));
              params == h.params && sent == old(sent) + h.answered && (params.Ok? ==> incoming == h.rest)
    {
      ghost var total := ReadStartup(incoming);
      ghost var before := sent;
      while true
        invariant total.params == ReadStartup(incoming).params && total.rest == ReadStartup(incoming).rest
        invariant before + total.answered == sent + ReadStartup(incoming).answered
        decreases |incoming|
      {
        var packet := ReadPacket();
        if packet.Err? {
          return Err(packet.fault);
        }
        if packet.value.0 == SSL_REQUEST_CODE {
          Write(REFUSE_SSL);
          continue;
        }
        if packet.value.0 == CANCEL_CODE {
          return Err(CancelUnsupported);
        }
        var parsed := ParseStartupParams(packet.value.1);
        return Ok(parsed);
      }
    }

    method WriteStartup(order: seq<Octets>, params: Params)
      requires Lists(order, params)
      modifies this`sent
      ensures sent == old(sent) + Startup(order, params)
    {
      var body := BuildStartupBody(order, params);
      Write(PutU32(|body| + 4) + body);
    }
  }

  lemma PartOfPart(s: Octets, i: nat, j: nat, k: nat)
    requires i <= j <= k <= |s|
    ensures s[i..k][..j - i] == s[i..j] && s[i..k][j - i..] == s[j..k]
  {
  }

  method BuildStartupBody(order: seq<Octets>, params: Params) returns (body: Octets)
    requires Lists(order, params)
    ensures body == StartupBody(order, params)
  {
    body := PutU32(PROTOCOL_V3);
    ghost var total := body + PairBytes(KeptPairs(order, params));
    for k := 0 to |order|
      invariant body + PairBytes(KeptPairs(order[k..], params)) == total
    {
      var key := order[k];
      var value := params[key];
      NextPair(order, params, k, body);
      if Trim(key) == [] || value == [] {
        continue;
      }
      body := body + key;
      body := body + [NUL];
      body := body + value;
      body := body + [NUL];
    }
    assert order[|order|..] == [];
    body := body + [NUL];
  }

  /** Writing the next pair, if it is kept, leaves the rest to be written. */
  lemma NextPair(order: seq<Octets>, params: Params, k: nat, body: Octets)
    requires k < |order| && forall j :: 0 <= j < |order| ==> order[j] in params
    ensures var key, value, rest := order[k], params[order[k]], PairBytes(KeptPairs(order[k + 1..], params));
            body + PairBytes(KeptPairs(order[k..], params))
            == (if Kept(key, value) then body + key + [NUL] + value + [NUL] else body) + rest
  {
  }

  lemma {:induction false} MapOfFront(p: (Octets, Octets), pairs: seq<(Octets, Octets)>)
    ensures MapOf([p] + pairs) == map[p.0 := p.1] + MapOf(pairs)
  {
    if pairs == [] {
      assert [p] + pairs == [p];
      assert [p][..0] == [];
    } else {
      var init := pairs[..|pairs| - 1];
      MapOfFront(p, init);
      assert ([p] + pairs)[..|pairs|] == [p] + init;
    }
  }

  lemma StorePair(params: Params, p: (Octets, Octets), pairs: seq<(Octets, Octets)>)
    ensures params[p.0 := p.1] + MapOf(pairs) == params + MapOf([p] + pairs)
  {
    MapOfFront(p, pairs);
  }

  lemma NextFields(params: Params, fields: seq<Octets>)
    requires |fields| >= 2 && Trim(fields[0]) != []
    ensures params[Trim(fields[0]) := fields[1]] + MapOf(PairsOf(fields[2..])) == params + MapOf(PairsOf(fields))
  {
    StorePair(params, (Trim(fields[0]), fields[1]), PairsOf(fields[2..]));
    assert PairsOf(fields) == [(Trim(fields[0]), fields[1])] + PairsOf(fields[2..]);
  }

  method ParseStartupParams(payload: Octets) returns (params: Params)
    ensures params == ParseParams(payload)
  {
    params := map[];
    var fields := Text.Split(payload, NUL);
    var i := 0;
    while i + 1 < |fields|
      invariant i <= |fields|
      invariant params + MapOf(PairsOf(fields[i..])) == ParseParams(payload)
    {
      var key := Trim(fields[i]);
      var value := fields[i + 1];
      if key == [] {
        return;
      }
      assert fields[i..][2..] == fields[i + 2..];
      NextFields(params, fields[i..]);
      params := params[key := value];
      i := i + 2;
    }
  }

  /** The configured credentials of a managed database. */
  datatype Contract = Contract(user: Octets, password: Octets, database: Octets)

  function LoginFor(params: Params, contract: Contract, digest: (Octets, Octets, Octets) -> Octets): Login {
    Login(Trim(contract.password), if USER_KEY in params then params[USER_KEY] else [], digest)
  }

  /** What StartupUpstream sends upstream and to the client when the upstream's bytes start with this session. */
  ghost predicate LoginCompletes(
    fault: Result<()>, toUpstream: Octets, toClient: Octets, left: Octets, ms: seq<Message>, rest: Octets,
    clientParams: Params, contract: Contract, digest: (Octets, Octets, Octets) -> Octets)
  {
    && fault == Ok(()) && left == rest && toClient == EncodeAll(Forwarded(ms))
    && LogsIn(toUpstream, ms, Trim(contract.password), DigestUser(clientParams, contract.user), digest)
  }

  /**
   The merged parameters are visited in the given order. With a password, a startup packet with the configured names
   is followed by one answer to each challenge, computed from the configured password and the user just sent.
   */
  method StartupUpstream(upstream: Conn, client: Conn, clientParams: Params, contract: Contract, order: seq<Octets>,
                         digest: (Octets, Octets, Octets) -> Octets)
    returns (fault: Result<()>)
    requires upstream != client && Lists(order, Overridden(clientParams, contract.user, contract.database))
    modifies upstream, client`sent
    ensures Trim(contract.password) == [] ==>
              fault == Err(MissingPassword) && upstream.sent == old(upstream.sent) && client.sent == old(client.sent)
    ensures Trim(contract.password) != [] ==>
              var params := Overridden(clientParams, contract.user, contract.database);
              var t := Bridge(old(upstream.incoming), LoginFor(params, contract, digest));
              && fault == t.fault
              && client.sent == old(client.sent) + t.toClient
              && upstream.sent == old(upstream.sent) + Startup(order, params) + t.toUpstream
              && (fault.Ok? ==> upstream.incoming == t.rest)
    ensures forall ms, rest ::
              Trim(contract.password) != [] && Session(ms) && old(upstream.incoming) == EncodeAll(ms) + rest ==>
                var params := Overridden(clientParams, contract.user, contract.database);
                exists toUpstream, toClient ::
                  && upstream.sent == old(upstream.sent) + Startup(order, params) + toUpstream
                  && client.sent == old(client.sent) + toClient
                  && LoginCompletes(fault, toUpstream, toClient, upstream.incoming, ms, rest,
                                    clientParams, contract, digest)
  {
    var password := Trim(contract.password);
    if password == [] {
      return Err(MissingPassword);
    }
    ghost var stream := upstream.incoming;
    var params := clientParams;
    if Trim(contract.user) != [] {
      params := params[USER_KEY := Trim(contract.user)];
    }
    if Trim(contract.database) != [] {
      params := params[DATABASE_KEY := Trim(contract.database)];
    }
    upstream.WriteStartup(order, params);
    fault := AnswerUntilReady(upstream, client, LoginFor(params, contract, digest));
    ghost var t := Bridge(stream, LoginFor(params, contract, digest));
    forall ms, rest | Session(ms) && stream == EncodeAll(ms) + rest
      ensures LoginCompletes(fault, t.toUpstream, t.toClient, upstream.incoming, ms, rest,
                             clientParams, contract, digest)
    {
      SessionLogsIn(ms, rest, LoginFor(params, contract, digest));
    }
  }

  /** One upstream message: passed on, answered, or refused. */
  method AnswerOne(upstream: Conn, client: Conn, m: Message, login: Login) returns (fault: Result<()>)
    requires upstream != client
    modifies upstream`sent, client`sent
    ensures var r := Respond(m, login);
            if r.Err? then
              fault == Err(r.fault) && client.sent == old(client.sent) && upstream.sent == old(upstream.sent)
            else
              && fault == Ok(())
              && client.sent == old(client.sent) + r.value.toClient
              && upstream.sent == old(upstream.sent) + r.value.toUpstream
  {
    if m.typ != AUTH {
      client.WriteMessage(m);
      return Ok(());
    }
    if |m.payload| < 4 {
      return Err(BadAuthPayload);
    }
    var authType := U32(m.payload[..4]);
    if authType == AUTH_OK {
      client.WriteMessage(m);
    } else if authType == AUTH_CLEARTEXT {
      upstream.WriteMessage(Message(PASSWORD, login.password + [NUL]));
    } else if authType == AUTH_MD5 {
      if |m.payload| < 8 {
        return Err(BadMd5Payload);
      }
      var passwordDigest := login.digest(login.password, login.user, m.payload[4..8]);
      upstream.WriteMessage(Message(PASSWORD, passwordDigest + [NUL]));
    } else {
      return Err(UnsupportedAuth(authType));
    }
    return Ok(());
  }

  method AnswerUntilReady(upstream: Conn, client: Conn, login: Login) returns (fault: Result<()>)
    requires upstream != client
    modifies upstream, client`sent
    ensures var t := Bridge(old(upstream.incoming), login);
            && fault == t.fault
            && client.sent == old(client.sent) + t.toClient
            && upstream.sent == old(upstream.sent) + t.toUpstream
            && (fault.Ok? ==> upstream.incoming == t.rest)
  {
    ghost var total := Whole(client.sent, upstream.sent, Bridge(upstream.incoming, login));
    while true
      invariant Owes(total, client.sent, upstream.sent, Bridge(upstream.incoming, login))
      decreases |upstream.incoming|
    {
      ghost var stream, toClient, toUpstream := upstream.incoming, client.sent, upstream.sent;
      var next := upstream.ReadMessage();
      if next.Err? {
        OwesNothing(total, toClient, toUpstream, Bridge(stream, login));
        return Err(next.fault);
      }
      BridgeFront(stream, login);
      fault := AnswerOne(upstream, client, next.value, login);
      if fault.Err? {
        OwesNothing(total, toClient, toUpstream, Bridge(stream, login));
        return;
      }
      ghost var r := Respond(next.value, login).value;
      if next.value.typ == READY {
        OwesNext(total, toClient, toUpstream, r, Transcript(Ok(()), [], [], upstream.incoming));
        OwesNothing(total, client.sent, upstream.sent, Transcript(Ok(()), [], [], upstream.incoming));
        return;
      }
      OwesNext(total, toClient, toUpstream, r, Bridge(upstream.incoming, login));
    }
  }
}

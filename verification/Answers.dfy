/** What the server sends back and writes down for a message, told from the message alone. */
module Answers {
  import opened Words
  import opened Messages
  import opened Network
  import opened Session

  /** A stored command on the wire: a goto (3) has its place, a change of altitude (7) its altitude, no other either. */
  function CommandOf(a: AssetCommand): Body {
    match a.command
    case 3 => BCommand(a.timestamp, a.lat, a.lng, 0, 3)
    case 7 => BCommand(a.timestamp, -2147483648, -2147483648, a.altitude, 7)
    case k => BCommand(a.timestamp, -2147483648, -2147483648, 0, k)
  }

  /** The stored command, if it is another one than last time or its ten seconds are over. */
  function DueCommand(c: Client, q: Query): seq<Body> {
    match q.command
    case None => []
    case Some(a) =>
      if a.dbid != c.lastDbid || q.now > (c.lastSendTs + 10000) % 18446744073709551616 then [CommandOf(a)] else []
  }

  function StoredSettings(q: Query): seq<Body> {
    match q.smm
    case None => []
    case Some(s) => [BSmm(s.address, s.username, s.password)]
  }

  /** The bodies of the messages that answer a message. */
  function Replies(c: Client, msg: Option<Message>, q: Query): seq<Body> {
    match msg
    case None => []
    case Some(m) =>
      if c.identified then
        if m.typ == RttRequest then [BRttResponse(m.id)] else []
      else if m.typ == Closed || m.typ == IdentityNonAircraft then []
      else if m.typ != Identity then [BIdentityRequired]
      else if m.body.BIdentity? && (c.names == [] || m.body.name in c.names) then
        DueCommand(c, q) + StoredSettings(q) + [BServerList(q.servers)]
      else []
  }

  /** The last of the outstanding requests with an id, as a row of one. */
  function Outstanding(rtts: seq<Rtt>, id: Word64): seq<Rtt> {
    if rtts == [] then []
    else if rtts[|rtts| - 1].reqid == id then [rtts[|rtts| - 1]]
    else Outstanding(rtts[..|rtts| - 1], id)
  }

  /** What a message makes the server write: nothing before identification, and a position for an aircraft only. */
  function Writes(c: Client, msg: Option<Message>, q: Query): seq<Record> {
    if msg == None || !c.identified then [] else
      var m := msg.value;
      match m.body
      case BPosition(p) =>
        if m.typ == PositionReport && c.aircraft then [AddPosition(c.name, p.lat, p.lng, p.altitude % 65536)] else []
      case BStatus(battery, mah, voltage) => if m.typ == SystemStatus then [AddStatus(c.name, battery, mah, voltage)] else []
      case BSearch(id, completed, total) => if m.typ == SearchStatus then [AddSearch(c.name, id, completed, total)] else []
      case BRttResponse(id) =>
        if m.typ == RttResponse && Outstanding(c.outstanding, id) != []
        then [AddRtt(c.name, (q.now - Outstanding(c.outstanding, id)[0].ts) % 18446744073709551616)] else []
      case _ => []
  }

  /** Messages with these bodies, numbered on from what the connection has sent. */
  function NumberedFrom(k: nat, bodies: seq<Body>): (r: seq<Message>)
    ensures |r| == |bodies|
    ensures forall i :: 0 <= i < |bodies| ==>
              r[i] == Message((k + i + 1) % 18446744073709551616, TypeOf(bodies[i]), bodies[i])
  {
    seq(|bodies|, i requires 0 <= i < |bodies| => Message((k + i + 1) % 18446744073709551616, TypeOf(bodies[i]), bodies[i]))
  }

  lemma NumberedConcat(k: nat, a: seq<Body>, b: seq<Body>)
    ensures NumberedFrom(k, a + b) == NumberedFrom(k, a) + NumberedFrom(k + |a|, b)
  {
  }

  /** A call that sends these, and keeps the ids on the wire consecutive. */
  ghost predicate Adds(c: Client, c': Client, bodies: seq<Body>) {
    ClientOk(c') && c'.sent == c.sent + NumberedFrom(|c.sent|, bodies)
  }

  lemma AddsNothing(c: Client, c': Client)
    requires ClientOk(c') && c'.sent == c.sent
    ensures Adds(c, c', [])
  {
    assert c.sent + NumberedFrom(|c.sent|, []) == c.sent;
  }

  lemma AddsOne(c: Client, body: Body)
    requires ClientOk(c)
    ensures Adds(c, Send(c, body), [body])
  {
    SendKeepsNumbered(c, TypeOf(body), body);
    NextIdCounts(|c.sent|);
    assert NumberedFrom(|c.sent|, [body]) == [Message(NextId(c.lastId), TypeOf(body), body)];
  }

  lemma AddsBoth(c: Client, c1: Client, c2: Client, a: seq<Body>, b: seq<Body>)
    requires Adds(c, c1, a) && Adds(c1, c2, b)
    ensures Adds(c, c2, a + b)
  {
    hide ClientOk;
    NumberedConcat(|c.sent|, a, b);
  }

  lemma CommandAdds(c: Client, q: Query)
    requires ClientOk(c)
    ensures Adds(c, SendCommand(c, q), DueCommand(c, q))
  {
    hide Adds;
    if q.command.Some? {
      var a := q.command.value;
      assert CommandBody(a) == CommandOf(a);
      if Due(c, q) {
        var c1 := c.(lastSendTs := q.now, lastDbid := a.dbid);
        AddsOne(c1, CommandBody(a));
        SameSent(c, c1, SendCommand(c, q), DueCommand(c, q));
      } else {
        AddsNothing(c, c);
      }
    } else {
      AddsNothing(c, c);
    }
  }

  lemma SameSent(c: Client, c1: Client, c': Client, bodies: seq<Body>)
    requires Adds(c1, c', bodies) && c1.sent == c.sent
    ensures Adds(c, c', bodies)
  {
  }

  lemma SettingsAdd(c: Client, q: Query)
    requires ClientOk(c)
    ensures Adds(c, SendSmm(c, q), StoredSettings(q))
  {
    hide Adds;
    match q.smm
    case None => AddsNothing(c, c);
    case Some(s) => AddsOne(c, BSmm(s.address, s.username, s.password));
  }

  lemma AcceptanceAdds(c: Client, name: Text, q: Query)
    requires ClientOk(c) && (c.names == [] || name in c.names)
    ensures Adds(c, HandleIdentity(c, name, q).client, DueCommand(c, q) + StoredSettings(q) + [BServerList(q.servers)])
  {
    hide Adds, SendSmm, SendCommand;
    var c1 := c.(name := name, identified := true, aircraft := true);
    var c2 := SendCommand(c1, q);
    var c3 := SendSmm(c2, q);
    CallsKeep(c1, q);
    CallsKeep(c2, q);
    CommandAdds(c1, q);
    SettingsAdd(c2, q);
    AddsOne(c3, BServerList(q.servers));
    AddsBoth(c1, c2, c3, DueCommand(c, q), StoredSettings(q));
    AddsBoth(c1, c3, HandleIdentity(c, name, q).client, DueCommand(c, q) + StoredSettings(q), [BServerList(q.servers)]);
    SameSent(c, c1, HandleIdentity(c, name, q).client, DueCommand(c, q) + StoredSettings(q) + [BServerList(q.servers)]);
  }

  /** For every client and message: the messages sent are the replies, in that order, with the next ids. */
  lemma SendsExactlyTheReplies(c: Client, msg: Option<Message>, q: Query)
    requires ClientOk(c)
    ensures Handle(c, msg, q).client.sent == c.sent + NumberedFrom(|c.sent|, Replies(c, msg, q))
  {
    HandleKeeps(c, msg, q);
    var c' := Handle(c, msg, q).client;
    assert Adds(c, c', Replies(c, msg, q)) by {
      hide Adds, HandleIdentity, DueCommand, StoredSettings;
      if msg.Some? && !c.identified && IsIdentity(msg.value) && Accepted(c.names, msg.value.body.name) {
        AcceptanceAdds(c, msg.value.body.name, q);
      } else if Replies(c, msg, q) == [BIdentityRequired] {
        AddsOne(c, BIdentityRequired);
      } else if msg.Some? && c.identified && msg.value.typ == RttRequest {
        AddsOne(c, BRttResponse(msg.value.id));
      } else {
        QuietUnlessAnswered(c, msg, q);
        AddsNothing(c, c');
      }
    }
  }

  lemma QuietUnlessAnswered(c: Client, msg: Option<Message>, q: Query)
    requires Replies(c, msg, q) == []
    requires !(msg.Some? && !c.identified && IsIdentity(msg.value) && Accepted(c.names, msg.value.body.name))
    ensures Handle(c, msg, q).client.sent == c.sent
  {
  }

  lemma {:induction false} OutstandingIsLast(rtts: seq<Rtt>, id: Word64)
    ensures var k := LastWith(rtts, id);
            Outstanding(rtts, id) == if k == |rtts| then [] else [rtts[k]]
    decreases |rtts|
  {
    if rtts != [] && rtts[|rtts| - 1].reqid != id {
      OutstandingIsLast(rtts[..|rtts| - 1], id);
    }
  }

  /** And the records are the writes, with the message's own values. */
  lemma RecordsExactlyTheWrites(c: Client, msg: Option<Message>, q: Query)
    ensures Handle(c, msg, q).records == Writes(c, msg, q)
  {
    if msg.Some? && msg.value.body.BRttResponse? {
      OutstandingIsLast(c.outstanding, msg.value.body.requestId);
    }
  }

  /** Who the client is afterwards: nothing but an identity or identity_non_aircraft, before either, changes it. */
  lemma IdentifiedExactlyWhen(c: Client, msg: Option<Message>, q: Query)
    ensures var c' := Handle(c, msg, q).client;
            && c'.uid == c.uid && c'.names == c.names
            && if c.identified || msg == None then
                 c'.name == c.name && c'.identified == c.identified && c'.aircraft == c.aircraft
               else if msg.value.typ == Identity && msg.value.body.BIdentity? then
                 && c'.name == msg.value.body.name
                 && (c'.identified <==> c.names == [] || c'.name in c.names)
                 && (c'.aircraft <==> c'.identified || c.aircraft)
               else
                 && c'.name == c.name
                 && (c'.identified <==> msg.value.typ == IdentityNonAircraft)
                 && (c'.aircraft <==> c.aircraft && msg.value.typ != IdentityNonAircraft)
  {
  }
}

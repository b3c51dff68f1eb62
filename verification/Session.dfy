/** One server client as a value: what each call does to it, what goes on its wire and what is recorded. */
module Session {
  import opened Words
  import opened Messages
  import opened Network

  const RESEND_AFTER: int := 10000
  const GOTO: byte := 3
  const ALTITUDE: byte := 7

  /** The word a coordinate that is not a number is converted to. */
  const NO_POSITION: Int32 := -0x8000_0000

  datatype Rtt = Rtt(ts: Word64, reqid: Word64)

  datatype AssetCommand = AssetCommand(dbid: Word64, timestamp: Word64, command: byte, lat: Int32, lng: Int32, altitude: Word16)

  datatype Settings = Settings(address: Text, username: Text, password: Text)

  /** The clock and the database answers during a call. */
  datatype Query = Query(now: Word64, command: Option<AssetCommand>, smm: Option<Settings>, servers: seq<Server>)

  /** What is written to the database; an altitude is stored in 16 bits. */
  datatype Record =
    | AddRtt(name: Text, delta: Word64)
    | AddPosition(name: Text, lat: Int32, lng: Int32, altitude: Word16)
    | AddStatus(name: Text, battery: byte, mahUsed: Word32, voltage: Word32)
    | AddSearch(name: Text, searchId: Word64, completed: Word64, total: Word64)

  /** names: from the certificate; sent: every message this client's connection was given, with its id. */
  datatype Client = Client(
    uid: nat, names: seq<Text>, identified: bool, aircraft: bool, name: Text, outstanding: seq<Rtt>,
    lastSendTs: Word64, lastDbid: Word64, lastId: Word64, sent: seq<Message>)

  function NewClient(uid: nat, names: seq<Text>): Client {
    Client(uid, names, false, false, [], [], 0, 0, 0, [])
  }

  // ---------------------------------------------------------------- sending

  function SendAs(c: Client, typ: MsgType, body: Body): Client {
    var id := NextId(c.lastId);
    c.(lastId := id, sent := c.sent + [Message(id, typ, body)])
  }

  function Send(c: Client, body: Body): Client { SendAs(c, TypeOf(body), body) }

  function CommandBody(a: AssetCommand): Body {
    if a.command == GOTO then BCommand(a.timestamp, a.lat, a.lng, 0, a.command)
    else if a.command == ALTITUDE then BCommand(a.timestamp, NO_POSITION, NO_POSITION, a.altitude, a.command)
    else BCommand(a.timestamp, NO_POSITION, NO_POSITION, 0, a.command)
  }

  /** A new command, or the last one again once its time is over. */
  predicate Due(c: Client, q: Query) {
    q.command.Some? && (q.command.value.dbid != c.lastDbid || q.now > Low64(c.lastSendTs + RESEND_AFTER))
  }

  function SendCommand(c: Client, q: Query): Client {
    if Due(c, q) then
      Send(c.(lastSendTs := q.now, lastDbid := q.command.value.dbid), CommandBody(q.command.value))
    else c
  }

  function SendSmm(c: Client, q: Query): Client {
    match q.smm
    case Some(s) => Send(c, BSmm(s.address, s.username, s.password))
    case None => c
  }

  function SendRtt(c: Client, now: Word64): Client {
    var c' := Send(c, BRttRequest);
    c'.(outstanding := c.outstanding + [Rtt(now, c'.lastId)])
  }

  // ---------------------------------------------------------------- receiving

  predicate Accepted(names: seq<Text>, name: Text) { names == [] || name in names }

  predicate IsIdentity(m: Message) { m.typ == Identity && m.body.BIdentity? }

  /** Where the last entry with this id is, or the length if there is none. */
  function LastWith(rtts: seq<Rtt>, id: Word64): (k: nat)
    ensures k <= |rtts|
    ensures k < |rtts| ==> rtts[k].reqid == id && forall j :: k < j < |rtts| ==> rtts[j].reqid != id
    ensures k == |rtts| ==> forall j :: 0 <= j < |rtts| ==> rtts[j].reqid != id
  {
    if rtts == [] then 0
    else if rtts[|rtts| - 1].reqid == id then |rtts| - 1
    else
      var k := LastWith(rtts[..|rtts| - 1], id);
      if k == |rtts| - 1 then |rtts| else k
  }

  /** What the registry has to do after a message: nothing, drop this client, or pass the message to the others. */
  datatype Effect = Stay | Leave | Reflect

  datatype Handled = Handled(client: Client, effect: Effect, records: seq<Record>)

  function HandleIdentity(c: Client, name: Text, q: Query): Handled {
    if Accepted(c.names, name) then
      var c1 := c.(name := name, identified := true, aircraft := true);
      Handled(Send(SendSmm(SendCommand(c1, q), q), BServerList(q.servers)), Stay, [])
    else Handled(c.(name := name), Leave, [])
  }

  function HandleRttResponse(c: Client, id: Word64, now: Word64): Handled {
    var k := LastWith(c.outstanding, id);
    if k == |c.outstanding| then Handled(c, Stay, []) else
      Handled(c.(outstanding := c.outstanding[..k] + c.outstanding[k + 1..]), Stay,
              [AddRtt(c.name, SizeSub(now, c.outstanding[k].ts))])
  }

  function Handle(c: Client, msg: Option<Message>, q: Query): Handled {
    if msg == None then Handled(c, Stay, []) else
      var m := msg.value;
      if m.typ == Closed then Handled(c, Leave, [])
      else if !c.identified then
        if m.typ == Identity then
          if m.body.BIdentity? then HandleIdentity(c, m.body.name, q) else Handled(c, Stay, [])
        else if m.typ == IdentityNonAircraft then Handled(c.(identified := true, aircraft := false), Stay, [])
        else Handled(Send(c, BIdentityRequired), Stay, [])
      else
        match m.typ
        case RttRequest => Handled(Send(c, BRttResponse(m.id)), Stay, [])
        case RttResponse =>
          if m.body.BRttResponse? then HandleRttResponse(c, m.body.requestId, q.now) else Handled(c, Stay, [])
        case PositionReport =>
          Handled(c, Reflect,
                  if c.aircraft && m.body.BPosition?
                  then [AddPosition(c.name, m.body.pos.lat, m.body.pos.lng, Low16(m.body.pos.altitude))] else [])
        case SystemStatus =>
          Handled(c, Stay, if m.body.BStatus? then [AddStatus(c.name, m.body.battery, m.body.mahUsed, m.body.voltage)] else [])
        case SearchStatus =>
          Handled(c, Stay, if m.body.BSearch? then [AddSearch(c.name, m.body.searchId, m.body.completed, m.body.total)] else [])
        case _ => Handled(c, Stay, [])
  }

  // ---------------------------------------------------------------- what every call keeps

  /** A name that is set belongs to an identified aircraft whose certificate, if it has names, has this one. */
  predicate NameOk(c: Client) {
    c.name == [] || (c.identified && c.aircraft && Accepted(c.names, c.name))
  }

  /** Ids on a wire are 1, 2, 3, ... in the order of sending, in 64 bits. */
  ghost predicate Numbered(c: Client) {
    && c.lastId == Low64(|c.sent|)
    && forall i :: 0 <= i < |c.sent| ==> c.sent[i].id == Low64(i + 1)
  }

  /** Flags and ids in order: an aircraft is identified, by a name its certificate accepts. */
  ghost predicate ClientOk(c: Client) {
    (c.aircraft ==> c.identified && Accepted(c.names, c.name)) && Numbered(c)
  }

  lemma SendKeepsNumbered(c: Client, typ: MsgType, body: Body)
    requires Numbered(c)
    ensures Numbered(SendAs(c, typ, body))
  {
    NextIdCounts(|c.sent|);
  }

  lemma CallsKeep(c: Client, q: Query)
    requires ClientOk(c)
    ensures ClientOk(SendCommand(c, q)) && ClientOk(SendSmm(c, q)) && ClientOk(SendRtt(c, q.now))
  {
    SendKeepsNumbered(c, RttRequest, BRttRequest);
    if q.command.Some? {
      var a := q.command.value;
      SendKeepsNumbered(c.(lastSendTs := q.now, lastDbid := a.dbid), Command, CommandBody(a));
    }
    if q.smm.Some? {
      var s := q.smm.value;
      SendKeepsNumbered(c, SmmSettings, BSmm(s.address, s.username, s.password));
    }
  }

  lemma HandleKeeps(c: Client, msg: Option<Message>, q: Query)
    requires ClientOk(c)
    ensures ClientOk(Handle(c, msg, q).client)
  {
    if msg.Some? && msg.value.typ != Closed {
      var m := msg.value;
      if !c.identified && IsIdentity(m) {
        if Accepted(c.names, m.body.name) {
          var c1 := c.(name := m.body.name, identified := true, aircraft := true);
          CallsKeep(c1, q);
          CallsKeep(SendCommand(c1, q), q);
          SendKeepsNumbered(SendSmm(SendCommand(c1, q), q), ServerList, BServerList(q.servers));
        }
      } else if !c.identified {
        SendKeepsNumbered(c, IdentityRequired, BIdentityRequired);
      } else {
        SendKeepsNumbered(c, RttResponse, BRttResponse(m.id));
      }
    }
  }

  /** An identity the certificate does not allow, from a client that has none yet. */
  predicate Refused(c: Client, msg: Option<Message>) {
    !c.identified && msg.Some? && IsIdentity(msg.value) && !Accepted(c.names, msg.value.body.name)
  }

  /** A client leaves exactly on a closed connection or a refused identity; only its reports are passed on. */
  lemma EffectsExactlyWhen(c: Client, msg: Option<Message>, q: Query)
    ensures var e := Handle(c, msg, q).effect;
            && (e == Leave <==> (msg.Some? && msg.value.typ == Closed) || Refused(c, msg))
            && (e == Reflect <==> c.identified && msg.Some? && msg.value.typ == PositionReport)
  {
  }

  /** What one message does to a client that has not identified itself. */
  lemma WhileUnidentified(c: Client, msg: Option<Message>, q: Query)
    requires !c.identified
    ensures var c' := Handle(c, msg, q).client;
            if msg.Some? && IsIdentity(msg.value) then
              c'.name == msg.value.body.name && c'.identified == Accepted(c.names, c'.name) && (c'.identified ==> c'.aircraft)
            else
              c'.name == c.name && c'.identified == (msg.Some? && msg.value.typ == IdentityNonAircraft)
              && (c'.identified ==> !c'.aircraft)
  {
  }

  /** Identification is final: the name, the flags and the certificate names stay. */
  lemma IdentityFinal(c: Client, msg: Option<Message>, q: Query)
    ensures var c' := Handle(c, msg, q).client;
            && c'.uid == c.uid && c'.names == c.names
            && (c.identified ==> c'.identified && c'.aircraft == c.aircraft && c'.name == c.name)
  {
  }

  /** The name stays in order exactly unless a non-empty identity is refused; and then the client leaves. */
  lemma NameOkExactlyWhen(c: Client, msg: Option<Message>, q: Query)
    requires NameOk(c)
    ensures NameOk(Handle(c, msg, q).client) <==> !(Refused(c, msg) && msg.value.body.name != [])
  {
    IdentityFinal(c, msg, q);
  }

  /** Only an identified client's messages are recorded, under its name; and a position only for an aircraft. */
  lemma RecordsCarryName(c: Client, msg: Option<Message>, q: Query)
    ensures forall r :: r in Handle(c, msg, q).records ==>
              c.identified && r.name == c.name && (r.AddPosition? ==> c.aircraft)
  {
  }

  // ---------------------------------------------------------------- records under a refused name

  /** Identified as no aircraft, but still with the name of an identity that was refused. */
  predicate Borrows(c: Client) {
    c.identified && !c.aircraft && c.name != [] && !Accepted(c.names, c.name)
  }

  /** The messages an identified client that is no aircraft has recorded. */
  predicate IsRecorded(c: Client, msg: Option<Message>) {
    && msg.Some?
    && var m := msg.value;
       || (m.typ == SystemStatus && m.body.BStatus?)
       || (m.typ == SearchStatus && m.body.BSearch?)
       || (m.typ == RttResponse && m.body.BRttResponse?
           && exists k :: 0 <= k < |c.outstanding| && c.outstanding[k].reqid == m.body.requestId)
  }

  ghost predicate MakesUnacceptedRecord(c: Client, msg: Option<Message>, q: Query) {
    exists r :: r in Handle(c, msg, q).records && r.name != [] && !Accepted(c.names, r.name)
  }

  /** When exactly something is recorded under a name the certificate does not allow. */
  lemma UnacceptedRecordExactlyWhen(c: Client, msg: Option<Message>, q: Query)
    requires ClientOk(c)
    ensures MakesUnacceptedRecord(c, msg, q) <==> Borrows(c) && IsRecorded(c, msg)
  {
    RecordsCarryName(c, msg, q);
    var records := Handle(c, msg, q).records;
    if Borrows(c) && IsRecorded(c, msg) {
      assert records != [] && records[0] in records;
    }
  }

  /** A client that is not identified says that it is no aircraft, while it holds a refused name. */
  predicate BecomesBorrower(c: Client, msg: Option<Message>) {
    !c.identified && c.name != [] && !Accepted(c.names, c.name) && msg.Some? && msg.value.typ == IdentityNonAircraft
  }

  /** And a client gets there exactly by that. */
  lemma BorrowsExactlyWhen(c: Client, msg: Option<Message>, q: Query)
    requires ClientOk(c)
    ensures Borrows(Handle(c, msg, q).client) <==> Borrows(c) || BecomesBorrower(c, msg)
  {
    IdentityFinal(c, msg, q);
    if !c.identified {
      WhileUnidentified(c, msg, q);
    }
  }
}

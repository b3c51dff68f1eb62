/** Across the components: what a server's messages do once they have gone over the wire. */
module EndToEnd {
  import Words
  import opened Messages
  import opened Wire
  import opened RoundTrip
  import opened ServerLists
  import S = Session
  import A = Answers
  import L = Layout
  import R = Registry

  /** A server list that fits reaches the client, which then knows its own servers and the list's, and no others. */
  lemma ServerListReachesClient(id: Words.Word64, list: seq<Server>, s: State, e: Server)
    requires Fits(BServerList(list))
    ensures var n := NextMessage(Frame(Make(id, BServerList(list))));
            && n.Got? && n.rest == [] && n.msg.Some? && n.msg.value.body.BServerList?
            && (Known(UpdateServers(s, n.msg.value.body.servers), e) <==> Known(s, e) || e in list)
  {
    RoundTripExactly(Make(id, BServerList(list)));
    hide Frame, NextMessage;
    UpdateAddsMissing(s, list);
    MissingExact(s, list);
    KnownAfterAdding(s, Missing(s, list), e);
  }

  /**
   * A client's identity reaches the server up to its first NUL, and the server accepts it exactly if the certificate
   * has no names or the name that arrived.
   */
  lemma IdentityReachesServer(id: Words.Word64, name: Text, c: S.Client, q: S.Query)
    requires Fits(BIdentity(name)) && !c.identified
    ensures var n := NextMessage(Frame(Make(id, BIdentity(name))));
            && n.Got? && n.rest == []
            && var h := S.Handle(c, n.msg, q);
            && h.client.name == CString(name)
            && (h.client.identified <==> c.names == [] || CString(name) in c.names)
            && (h.effect == S.Leave <==> !h.client.identified)
  {
    var m := Make(id, BIdentity(name));
    SizeOfUncut(m);
    FrameReceived(m, []);
    assert Frame(m) + [] == Frame(m);
    hide Frame, NextMessage;
    S.WhileUnidentified(c, Normal(m), q);
  }

  /** A stored command arrives as that command, with its place only for a goto and its altitude only for a climb. */
  lemma CommandReachesClient(id: Words.Word64, a: S.AssetCommand)
    ensures var n := NextMessage(Frame(Make(id, S.CommandBody(a))));
            && n.Got? && n.rest == [] && n.msg.Some? && n.msg.value.typ == Command
            && var b := n.msg.value.body;
            && b.BCommand? && b.command == a.command && b.timestamp == a.timestamp
            && (a.command == 3 ==> b.lat == a.lat && b.lng == a.lng)
            && (a.command != 3 ==> b.lat == b.lng == -2147483648)
            && b.altitude == if a.command == 7 then a.altitude else 0
  {
    RoundTripExactly(Make(id, S.CommandBody(a)));
    hide Frame, NextMessage;
  }

  // ------------------------------------------------------------ what a sender's bytes do at the server

  /** An aircraft's report is stored with the sender's own values, and passed on. */
  lemma PositionIsStored(id: Words.Word64, p: Position, c: S.Client, q: S.Query)
    requires Fits(BPosition(p)) && c.identified
    ensures var n := NextMessage(Frame(Make(id, BPosition(p))));
            && n.Got? && n.rest == []
            && var h := S.Handle(c, n.msg, q);
            && h.effect == S.Reflect
            && h.records == if c.aircraft then [S.AddPosition(c.name, p.lat, p.lng, p.altitude % 65536)] else []
  {
    var m := Make(id, BPosition(p));
    L.ReceivedAs(m);
    hide Frame, NextMessage;
    A.RecordsExactlyTheWrites(c, Some(Message(id, PositionReport, BPosition(p.(tslc := 0)))), q);
  }

  lemma StatusIsStored(id: Words.Word64, battery: Words.byte, mah: Words.Word32, voltage: Words.Word32, c: S.Client, q: S.Query)
    requires c.identified
    ensures var n := NextMessage(Frame(Make(id, BStatus(battery, mah, voltage))));
            n.Got? && n.rest == [] && S.Handle(c, n.msg, q).records == [S.AddStatus(c.name, battery, mah, voltage)]
  {
    var m := Make(id, BStatus(battery, mah, voltage));
    L.ReceivedAs(m);
    hide Frame, NextMessage;
    A.RecordsExactlyTheWrites(c, Some(m), q);
  }

  lemma SearchIsStored(id: Words.Word64, search: Words.Word64, completed: Words.Word64, total: Words.Word64, c: S.Client, q: S.Query)
    requires c.identified
    ensures var n := NextMessage(Frame(Make(id, BSearch(search, completed, total))));
            n.Got? && n.rest == [] && S.Handle(c, n.msg, q).records == [S.AddSearch(c.name, search, completed, total)]
  {
    var m := Make(id, BSearch(search, completed, total));
    L.ReceivedAs(m);
    hide Frame, NextMessage;
    A.RecordsExactlyTheWrites(c, Some(m), q);
  }

  // ------------------------------------------------------------ what comes back to the sender

  /** The one message that a message adds to its sender's wire, as the sender receives it. */
  ghost predicate ComesBack(c: S.Client, c': S.Client, m: Message) {
    && |c'.sent| == |c.sent| + 1 && c.sent <= c'.sent
    && NextMessage(Frame(c'.sent[|c.sent|])) == Got(Some(m), [])
  }

  lemma OneComesBack(c: S.Client, msg: Option<Message>, q: S.Query, body: Body)
    requires S.ClientOk(c) && A.Replies(c, msg, q) == [body]
    ensures var c' := S.Handle(c, msg, q).client;
            && c.sent <= c'.sent && |c'.sent| == |c.sent| + 1
            && c'.sent[|c.sent|] == Make((|c.sent| + 1) % 18446744073709551616, body)
  {
    A.SendsExactlyTheReplies(c, msg, q);
    hide S.Handle, A.Replies;
  }

  /** A request for a round trip is answered with the id it came with. */
  lemma RequestIsAnswered(k: Words.Word64, c: S.Client, q: S.Query)
    requires S.ClientOk(c) && c.identified
    ensures var n := NextMessage(Frame(Make(k, BRttRequest)));
            && n.Got? && n.rest == []
            && ComesBack(c, S.Handle(c, n.msg, q).client,
                         Message((|c.sent| + 1) % 18446744073709551616, RttResponse, BRttResponse(k)))
  {
    var m := Make(k, BRttRequest);
    L.ReceivedAs(m);
    L.ReceivedAs(Make((|c.sent| + 1) % 18446744073709551616, BRttResponse(k)));
    hide Frame, NextMessage, S.Handle;
    OneComesBack(c, Some(m), q, BRttResponse(k));
  }

  /** Whatever else comes before an identity is answered by exactly one request for it; it arrives with the identity's type. */
  lemma IdentityIsRequired(m: Message, c: S.Client, q: S.Query)
    requires S.ClientOk(c) && !c.identified && m.typ != Closed && m.typ != Identity && m.typ != IdentityNonAircraft
    ensures ComesBack(c, S.Handle(c, Some(m), q).client,
                      Message((|c.sent| + 1) % 18446744073709551616, Identity, BIdentityRequired))
  {
    L.ReceivedAs(Make((|c.sent| + 1) % 18446744073709551616, BIdentityRequired));
    hide Frame, NextMessage, S.Handle;
    OneComesBack(c, Some(m), q, BIdentityRequired);
  }

  /**
   * After acceptance: the command if one is due, the settings if there are any, and the list, in that order and with
   * the next ids; the settings arrive with each value in its place, and the list makes its receiver know the servers.
   */
  lemma AcceptanceIsAnswered(id: Words.Word64, name: Text, c: S.Client, q: S.Query, s: State, e: Server)
    requires S.ClientOk(c) && !c.identified && Fits(BIdentity(name))
    requires c.names == [] || CString(name) in c.names
    requires Fits(BServerList(q.servers))
    ensures var n := NextMessage(Frame(Make(id, BIdentity(name))));
            && n.Got? && n.rest == []
            && var c' := S.Handle(c, n.msg, q).client;
            && var bodies := A.DueCommand(c, q) + A.StoredSettings(q) + [BServerList(q.servers)];
            && c'.sent == c.sent + A.NumberedFrom(|c.sent|, bodies)
            && var last := NextMessage(Frame(c'.sent[|c'.sent| - 1]));
            && last.Got? && last.msg.Some? && last.msg.value.body == BServerList(q.servers)
            && (Known(UpdateServers(s, last.msg.value.body.servers), e) <==> Known(s, e) || e in q.servers)
  {
    var m := Make(id, BIdentity(name));
    L.ReceivedAs(m);
    hide Frame, NextMessage, S.Handle, A.DueCommand, A.StoredSettings, Known;
    var arrived := Message(id, Identity, BIdentity(CString(name)));
    A.SendsExactlyTheReplies(c, Some(arrived), q);
    var c' := S.Handle(c, Some(arrived), q).client;
    var list := c'.sent[|c'.sent| - 1];
    assert list == Make(list.id, BServerList(q.servers));
    L.ReceivedAs(list);
    ServerListReachesClient(list.id, q.servers, s, e);
  }

  lemma SettingsArrive(id: Words.Word64, s: S.Settings)
    requires Fits(BSmm(s.address, s.username, s.password))
    ensures var n := NextMessage(Frame(Make(id, BSmm(s.address, s.username, s.password))));
            && n.Got? && n.rest == [] && n.msg.Some? && n.msg.value.typ == SmmSettings
            && n.msg.value.body.BSmm?
            && n.msg.value.body.url == s.address && n.msg.value.body.username == s.username
            && n.msg.value.body.password == s.password
  {
    L.ReceivedAs(Make(id, BSmm(s.address, s.username, s.password)));
    hide Frame, NextMessage;
  }

  // ------------------------------------------------------------ what reaches the others

  /** In every run a registered aircraft receives another one's report with the values that one sent. */
  lemma ReportReachesAircraft(steps: seq<R.Step>, i: nat, j: nat, id: Words.Word64, p: Position, q: S.Query)
    requires var s := R.Run(steps);
             i < |s.active| && j < |s.active| && i != j && s.active[i].identified && s.active[j].aircraft
    requires Fits(BPosition(p))
    ensures var s, n := R.Run(steps), NextMessage(Frame(Make(id, BPosition(p))));
            && n.Got? && n.rest == []
            && var s' := R.Receive(s, i, n.msg, q);
            && |s'.active| == |s.active|
            && ComesBack(s.active[j], s'.active[j],
                         Message((|s.active[j].sent| + 1) % 18446744073709551616, PositionReport, BPosition(p.(tslc := 0))))
  {
    var m := Message(id, PositionReport, BPosition(p.(tslc := 0)));
    L.ReceivedAs(Make(id, BPosition(p)));
    var k := |R.Run(steps).active[j].sent|;
    L.ReceivedAs(Make((k + 1) % 18446744073709551616, BPosition(p.(tslc := 0))));
    hide Frame, NextMessage;
    R.ReportReachesTheOthers(steps, i, m, q);
    hide R.Run, R.Receive;
  }
}

/** The server's client objects and their registry, changed in place. */
module Server {
  import opened Words
  import opened Messages
  import opened Lists
  import opened Transport
  import S = Session
  import R = Registry

  class FssClient {
    /** A serial number, so that a client can be told from others by its value. */
    ghost const uid: nat
    /** What the connection's certificate gives as names. */
    const names: seq<Text>
    const conn: Connection
    var identified: bool
    var aircraft: bool
    var name: Text
    var outstandingRttRequests: seq<S.Rtt>
    var lastCommandSendTs: Word64
    var lastCommandDbid: Word64

    ghost function View(): S.Client
      reads this, conn
    {
      S.Client(uid, names, identified, aircraft, name, outstandingRttRequests,
               lastCommandSendTs, lastCommandDbid, conn.lastMsgId, conn.log)
    }

    constructor (ghost uid: nat, names: seq<Text>, conn: Connection)
      requires conn.lastMsgId == 0 && conn.log == []
      ensures View() == S.NewClient(uid, names) && this.conn == conn
    {
      this.uid, this.names, this.conn := uid, names, conn;
      identified, aircraft, name, outstandingRttRequests := false, false, [], [];
      lastCommandSendTs, lastCommandDbid := 0, 0;
    }

    method SendMsg(msg: FssMessage)
      modifies conn, msg
      ensures View() == S.SendAs(old(View()), msg.typ, msg.body)
      ensures msg.id == conn.lastMsgId
    {
      var _ := conn.SendMsg(msg);
    }

    method SendNew(body: Body)
      modifies conn
      ensures View() == S.Send(old(View()), body)
    {
      var msg := new FssMessage(body);
      SendMsg(msg);
    }

    method SendCommand(q: S.Query)
      modifies this, conn
      ensures View() == S.SendCommand(old(View()), q)
    {
      if q.command.Some? {
        var ac := q.command.value;
        if ac.dbid != lastCommandDbid || q.now > Low64(lastCommandSendTs + S.RESEND_AFTER) {
          lastCommandSendTs := q.now;
          lastCommandDbid := ac.dbid;
          var body: Body;
          match ac.command {
            case 3 => body := BCommand(ac.timestamp, ac.lat, ac.lng, 0, ac.command);
            case 7 => body := BCommand(ac.timestamp, S.NO_POSITION, S.NO_POSITION, ac.altitude, ac.command);
            case _ => body := BCommand(ac.timestamp, S.NO_POSITION, S.NO_POSITION, 0, ac.command);
          }
          SendNew(body);
        }
      }
    }

    method SendSmmSettings(q: S.Query)
      modifies conn
      ensures View() == S.SendSmm(old(View()), q)
    {
      if q.smm.Some? {
        SendNew(BSmm(q.smm.value.address, q.smm.value.username, q.smm.value.password));
      }
    }

    /** The request object is shared by all clients: its id is read right after this client's send. */
    method SendRttRequest(rtt: FssMessage, now: Word64)
      requires rtt.typ == RttRequest && rtt.body == BRttRequest
      modifies this, conn, rtt
      ensures View() == S.SendRtt(old(View()), now)
    {
      SendMsg(rtt);
      outstandingRttRequests := outstandingRttRequests + [S.Rtt(now, rtt.id)];
    }

    method HandleIdentity(newName: Text, q: S.Query) returns (effect: S.Effect)
      requires !identified
      modifies this, conn
      ensures S.Handled(View(), effect, []) == S.HandleIdentity(old(View()), newName, q)
    {
      name := newName;
      if |names| == 0 {
        identified := true;
      } else {
        for i := 0 to |names|
          invariant !identified && newName !in names[..i]
          invariant View() == old(View()).(name := newName)
        {
          if names[i] == newName {
            identified := true;
            break;
          }
        }
      }
      if !identified {
        return S.Leave;
      }
      aircraft := true;
      SendCommand(q);
      SendSmmSettings(q);
      SendNew(BServerList(q.servers));
      effect := S.Stay;
    }

    method HandleRttResponse(id: Word64, now: Word64) returns (records: seq<S.Record>)
      modifies this
      ensures S.Handled(View(), S.Stay, records) == S.HandleRttResponse(old(View()), id, now)
    {
      var found := |outstandingRttRequests|;
      for i := 0 to |outstandingRttRequests|
        invariant unchanged(this)
        invariant found == |outstandingRttRequests| || 0 <= found < i
        invariant found < |outstandingRttRequests| ==> outstandingRttRequests[found].reqid == id
        invariant forall j :: 0 <= j < i && (found == |outstandingRttRequests| || j > found) ==> outstandingRttRequests[j].reqid != id
      {
        if outstandingRttRequests[i].reqid == id {
          found := i;
        }
      }
      assert found == S.LastWith(outstandingRttRequests, id);
      records := [];
      if found < |outstandingRttRequests| {
        var req := outstandingRttRequests[found];
        outstandingRttRequests := outstandingRttRequests[..found] + outstandingRttRequests[found + 1..];
        records := [S.AddRtt(name, SizeSub(now, req.ts))];
      }
    }

    /** One received message; what it asks of the registry is returned, and what it writes to the database. */
    method Handle(msg: Option<Message>, q: S.Query) returns (effect: S.Effect, records: seq<S.Record>)
      modifies this, conn
      ensures S.Handled(View(), effect, records) == S.Handle(old(View()), msg, q)
    {
      effect, records := S.Stay, [];
      if msg == None { return; }
      var m := msg.value;
      if m.typ == Closed {
        effect := S.Leave;
      } else if !identified {
        if m.typ == Identity {
          if m.body.BIdentity? {
            effect := HandleIdentity(m.body.name, q);
          }
        } else if m.typ == IdentityNonAircraft {
          identified := true;
          aircraft := false;
        } else {
          SendNew(BIdentityRequired);
        }
      } else if m.typ == RttRequest {
        SendNew(BRttResponse(m.id));
      } else if m.typ == RttResponse {
        if m.body.BRttResponse? {
          records := HandleRttResponse(m.body.requestId, q.now);
        }
      } else if m.typ == PositionReport {
        if aircraft && m.body.BPosition? {
          records := [S.AddPosition(name, m.body.pos.lat, m.body.pos.lng, Low16(m.body.pos.altitude))];
        }
        effect := S.Reflect;
      } else if m.typ == SystemStatus {
        if m.body.BStatus? {
          records := [S.AddStatus(name, m.body.battery, m.body.mahUsed, m.body.voltage)];
        }
      } else if m.typ == SearchStatus {
        if m.body.BSearch? {
          records := [S.AddSearch(name, m.body.searchId, m.body.completed, m.body.total)];
        }
      }
    }

    /** The callback for a received message; `at` says where in the registry this client is. */
    method ProcessMessage(clients: ServerClients, msg: Option<FssMessage>, q: S.Query, ghost at: nat) returns (records: seq<S.Record>)
      requires clients.Valid() && clients.IsAt(this, at)
      modifies clients, this, conn, Conns(clients.clients), Objects(msg)
      ensures clients.Valid()
      ensures clients.View() == R.Receive(old(clients.View()), at, old(ValueOf(msg)), q)
      ensures records == S.Handle(old(View()), old(ValueOf(msg)), q).records
    {
      hide S.Handle, R.Effected, R.Placed;
      S.EffectsExactlyWhen(View(), ValueOf(msg), q);
      var effect;
      effect, records := TakeMessage(clients, msg, q, at);
      TakeEffect(clients, effect, msg, at);
    }

    /** What the client itself does with a message, and what it records. */
    method TakeMessage(clients: ServerClients, msg: Option<FssMessage>, q: S.Query, ghost at: nat)
      returns (effect: S.Effect, records: seq<S.Record>)
      requires clients.Valid() && clients.IsAt(this, at)
      modifies clients`log, this, conn
      ensures effect == S.Handle(old(View()), old(ValueOf(msg)), q).effect
      ensures records == S.Handle(old(View()), old(ValueOf(msg)), q).records
      ensures clients.View() == R.Placed(old(clients.View()), at, S.Handle(old(View()), old(ValueOf(msg)), q))
    {
      hide S.Handle;
      ghost var before, me := clients.View(), View();
      effect, records := Handle(if msg == None then None else Some(msg.value.View()), q);
      clients.log := clients.log + R.Entries(me, records);
      assert Views(clients.clients) == if at < |before.active| then before.active[at := View()] else before.active;
      assert Views(clients.disconnected)
          == if at < |before.active| then before.leaving else before.leaving[at - |before.active| := View()];
    }

    /** What becomes of it in the registry. */
    method TakeEffect(clients: ServerClients, effect: S.Effect, msg: Option<FssMessage>, ghost at: nat)
      requires clients.Valid() && clients.IsAt(this, at) && (effect == S.Reflect ==> msg.Some?)
      modifies clients, Conns(clients.clients), Objects(msg)
      ensures clients.Valid() && clients.View() == R.Effected(old(clients.View()), at, effect, old(ValueOf(msg)))
    {
      hide R.Broadcast;
      match effect {
        case Stay =>
        case Leave => var _ := clients.ClientDisconnected(this);
        case Reflect => clients.SendMsg(msg.value, this, if at < |clients.clients| then at else |clients.clients|);
      }
    }
  }

  ghost function Objects(msg: Option<FssMessage>): set<FssMessage> {
    if msg == None then {} else {msg.value}
  }

  ghost function ValueOf(msg: Option<FssMessage>): Option<Message>
    reads Objects(msg)
  {
    if msg == None then None else Some(msg.value.View())
  }

  ghost function Conns(cs: seq<FssClient>): set<Connection> { set c | c in cs :: c.conn }

  ghost function Views(cs: seq<FssClient>): (r: seq<S.Client>)
    reads cs, Conns(cs)
    ensures |r| == |cs| && forall i :: 0 <= i < |cs| ==> r[i] == cs[i].View()
  {
    seq(|cs|, i requires 0 <= i < |cs| reads cs, Conns(cs) => cs[i].View())
  }

  /** Different clients, on different connections. */
  ghost predicate Separate(a: seq<FssClient>, b: seq<FssClient>) {
    forall i, j :: 0 <= i < |a| && 0 <= j < |b| ==> a[i] != b[j] && a[i].conn != b[j].conn
  }

  ghost predicate AllSeparate(a: seq<FssClient>) {
    forall i, j :: 0 <= i < j < |a| ==> a[i] != a[j] && a[i].conn != a[j].conn
  }

  lemma Moved(clients: seq<FssClient>, disconnected: seq<FssClient>, k: nat)
    requires AllSeparate(clients) && AllSeparate(disconnected) && Separate(clients, disconnected)
    requires k < |clients|
    ensures var rest, more := clients[..k] + clients[k + 1..], disconnected + [clients[k]];
            && Without(clients, clients[k]) == rest
            && AllSeparate(rest) && AllSeparate(more) && Separate(rest, more)
            && Views(rest) == Views(clients)[..k] + Views(clients)[k + 1..]
            && Views(more) == Views(disconnected) + [clients[k].View()]
  {
    assert Distinct(clients);
    WithoutOne(clients, k);
  }

  class ServerClients {
    var clients: seq<FssClient>
    var disconnected: seq<FssClient>
    var totalClients: Word32
    ghost var freed: seq<nat>
    ghost var next: nat
    ghost var log: seq<R.Entry>

    ghost predicate Valid()
      reads this
    {
      AllSeparate(clients) && AllSeparate(disconnected) && Separate(clients, disconnected)
    }

    ghost function View(): R.State
      reads this, clients, Conns(clients), disconnected, Conns(disconnected)
    {
      R.State(Views(clients), Views(disconnected), freed, totalClients, next, log)
    }

    /** The clients that still have a connection: the registered ones, then the leaving ones. */
    ghost predicate IsAt(c: FssClient, at: nat)
      reads this
    {
      || (at < |clients| && clients[at] == c)
      || (|clients| <= at < |clients| + |disconnected| && disconnected[at - |clients|] == c)
    }

    constructor ()
      ensures Valid() && View() == R.EMPTY
    {
      clients, disconnected, totalClients, freed, next, log := [], [], 0, [], 0, [];
    }

    method CleanupRemovableClients()
      requires Valid()
      modifies this
      ensures Valid() && View() == R.Apply(old(View()), R.Cleanup) && clients == old(clients)
    {
      FreeDisconnected();
      assert disconnected == [];
    }

    /** The loop that empties the queue. */
    method FreeDisconnected()
      modifies this`disconnected, this`freed, this`totalClients
      ensures disconnected == [] && freed == old(freed) + R.Uids(old(Views(disconnected)))
      ensures totalClients == Low32(SizeSub(old(totalClients), |old(disconnected)|))
    {
      hide Low32, SizeSub, R.Uids;
      ghost var was, all := Views(disconnected), disconnected;
      assert |was| == |all| && forall j :: 0 <= j < |all| ==> was[j].uid == all[j].uid;
      hide Views;
      CounterStart(totalClients);
      FreedNone(freed, was);
      ghost var k := 0;
      while |disconnected| > 0
        invariant k <= |all| && disconnected == all[k..]
        invariant freed == old(freed) + R.Uids(was[..k])
        invariant totalClients == Low32(SizeSub(old(totalClients), k))
        decreases |all| - k
      {
        CounterStep(old(totalClients), k);
        FreedStep(old(freed), was, k);
        Rest(all, k);
        freed := freed + [disconnected[0].uid];
        disconnected := disconnected[1..];
        totalClients := if totalClients == 0 then 0xFFFF_FFFF else totalClients - 1;
        k := k + 1;
      }
      assert was[..|was|] == was;
    }

    method ClientConnected(client: FssClient)
      requires Valid() && Separate([client], clients) && Separate([client], disconnected)
      modifies this
      ensures Valid() && View() == R.ClientConnected(old(View()), client.View())
    {
      assert [client][0] == client;
      totalClients := Low32(totalClients + 1);
      clients := clients + [client];
    }

    /** The search through the registered clients. */
    method Find(client: FssClient) returns (k: nat)
      ensures k <= |clients|
      ensures k < |clients| ==> clients[k] == client
      ensures k == |clients| ==> forall i :: 0 <= i < |clients| ==> clients[i] != client
    {
      for i := 0 to |clients|
        invariant forall j :: 0 <= j < i ==> clients[j] != client
      {
        if clients[i] == client {
          return i;
        }
      }
      return |clients|;
    }

    method ClientDisconnected(client: FssClient) returns (ghost k: nat)
      requires Valid()
      modifies this`clients, this`disconnected
      ensures Valid()
      ensures if k < |old(clients)| then
                old(clients)[k] == client && View() == R.ClientDisconnected(old(View()), k)
              else
                clients == old(clients) && disconnected == old(disconnected)
                && forall i :: 0 <= i < |clients| ==> clients[i] != client
    {
      hide Separate, AllSeparate, Without;
      var at := Find(client);
      k := at;
      if at < |clients| {
        ghost var was, before, gone := View(), clients, disconnected;
        disconnected := disconnected + [client];
        clients := Without(clients, client);
        assert View() == R.ClientDisconnected(was, at) by {
          assert Views(before) == was.active && Views(gone) == was.leaving;
          Moved(before, gone, at);
        }
        assert Valid() by {
          Moved(before, gone, at);
        }
        hide Views;
      }
    }

    /** A broadcast of one shared object: each connection gives it its own next id as it goes out there. */
    method SendMsg(msg: FssMessage, except: FssClient?, ghost at: nat)
      requires Valid()
      requires if at < |clients| then clients[at] == except else forall i :: 0 <= i < |clients| ==> clients[i] != except
      modifies Conns(clients), msg
      ensures View() == old(View()).(active := R.Broadcast(old(Views(clients)), msg.typ, msg.body, at))
    {
      ghost var was, others := Views(clients), Views(disconnected);
      for i := 0 to |clients|
        invariant Views(disconnected) == others
        invariant forall j :: 0 <= j < |clients| ==>
                    clients[j].View() == if j < i then R.Broadcast(was, msg.typ, msg.body, at)[j] else was[j]
      {
        if clients[i].aircraft && clients[i] != except {
          clients[i].SendMsg(msg);
        }
      }
    }

    /** The same for a request for round-trip times: each client notes the id that went out on its own wire. */
    method SendRttRequest(rtt: FssMessage, qs: nat -> S.Query)
      requires Valid() && rtt.typ == RttRequest && rtt.body == BRttRequest
      modifies clients, Conns(clients), rtt
      ensures View() == R.Apply(old(View()), R.RttRound(qs))
    {
      hide S.SendRtt, R.RttAll;
      ghost var was, others := Views(clients), Views(disconnected);
      ghost var all := R.RttAll(was, qs);
      for i := 0 to |clients|
        invariant Views(disconnected) == others
        invariant forall j :: 0 <= j < |clients| ==> clients[j].View() == if j < i then all[j] else was[j]
      {
        clients[i].SendRttRequest(rtt, qs(i).now);
      }
    }

    method SendCommand(qs: nat -> S.Query)
      requires Valid()
      modifies clients, Conns(clients)
      ensures View() == R.Apply(old(View()), R.CommandRound(qs))
    {
      hide S.SendCommand, R.CommandAll;
      ghost var was, others := Views(clients), Views(disconnected);
      ghost var all := R.CommandAll(was, qs);
      for i := 0 to |clients|
        invariant Views(disconnected) == others
        invariant forall j :: 0 <= j < |clients| ==> clients[j].View() == if j < i then all[j] else was[j]
      {
        clients[i].SendCommand(qs(i));
      }
    }

    method SendSmmSettings(qs: nat -> S.Query)
      requires Valid()
      modifies Conns(clients)
      ensures View() == R.Apply(old(View()), R.SettingsRound(qs))
    {
      hide S.SendSmm, R.SettingsAll;
      ghost var was, others := Views(clients), Views(disconnected);
      ghost var all := R.SettingsAll(was, qs);
      for i := 0 to |clients|
        invariant Views(disconnected) == others
        invariant forall j :: 0 <= j < |clients| ==> clients[j].View() == if j < i then all[j] else was[j]
      {
        clients[i].SendSmmSettings(qs(i));
      }
    }

    /** The known servers, to every registered aircraft. */
    method SendServerList(servers: seq<Server>)
      requires Valid()
      modifies Conns(clients)
      ensures View() == R.Apply(old(View()), R.ListRound(servers))
    {
      var msg := new FssMessage(BServerList(servers));
      SendMsg(msg, null, |clients|);
    }

    /** One turn of the server's main loop: cleanup, requests and commands, and every fifteenth time list and settings. */
    method Turn(counter: nat, servers: seq<Server>, rtts: nat -> S.Query, commands: nat -> S.Query, settings: nat -> S.Query)
      requires Valid()
      modifies this, clients, Conns(clients)
      ensures View() == R.AfterTurn(old(View()), counter, servers, rtts, commands, settings)
    {
      hide R.Apply;
      ghost var s0 := View();
      CleanupRemovableClients();
      ghost var s1 := View();
      var rtt := new FssMessage(BRttRequest);
      assert View() == s1;
      SendRttRequest(rtt, rtts);
      ghost var s2 := View();
      SendCommand(commands);
      ghost var s3 := View();
      if counter % 15 == 0 {
        SendServerList(servers);
        SendSmmSettings(settings);
      }
      assert s3 == R.Apply(R.Apply(R.Apply(s0, R.Cleanup), R.RttRound(rtts)), R.CommandRound(commands));
    }
  }

  /**
   * A new connection: the client object takes over what its connection has queued while it is not registered
   * yet, and then is registered.
   */
  method NewClientConnect(clients: ServerClients, conn: Connection, names: seq<Text>, q: nat -> S.Query)
    requires clients.Valid()
    requires forall i :: 0 <= i < |clients.clients| ==> clients.clients[i].conn != conn
    requires forall i :: 0 <= i < |clients.disconnected| ==> clients.disconnected[i].conn != conn
    requires conn.lastMsgId == 0 && conn.log == []
    modifies clients, Conns(clients.clients), conn
    ensures clients.Valid()
    ensures clients.View() == R.Apply(old(clients.View()), R.Connect(names, old(conn.messages), q))
  {
    hide R.Drain;
    var client, queued := Attach(conn, clients.next, names);
    assert [client][0] == client;
    assert clients.View() == old(clients.View());
    assert Separate([client], clients.clients) && Separate([client], clients.disconnected);
    hide Separate, Views;
    TakeAllQueued(clients, client, queued, q);
    ghost var t, c := clients.View(), client.View();
    clients.ClientConnected(client);
    clients.next := clients.next + 1;
    assert clients.View() == R.ClientConnected(t, c).(next := t.next + 1);
  }

  /** The constructor: the object becomes the handler, and the queue is handed to it. */
  method Attach(conn: Connection, ghost uid: nat, names: seq<Text>) returns (client: FssClient, queued: seq<Option<Message>>)
    requires conn.lastMsgId == 0 && conn.log == []
    modifies conn`handler, conn`messages, conn`delivered
    ensures fresh(client) && client.conn == conn && client.View() == S.NewClient(uid, names)
    ensures queued == old(conn.messages)
  {
    queued := conn.messages;
    client := new FssClient(uid, names, conn);
    conn.SetHandler(true);
  }

  method TakeAllQueued(clients: ServerClients, client: FssClient, queued: seq<Option<Message>>, q: nat -> S.Query)
    requires clients.Valid() && Separate([client], clients.clients) && Separate([client], clients.disconnected)
    modifies client, client.conn, clients, Conns(clients.clients)
    ensures clients.Valid() && clients.clients == old(clients.clients) && clients.disconnected == old(clients.disconnected)
    ensures clients.next == old(clients.next)
    ensures (clients.View(), client.View()) == R.Drain(old(clients.View()), old(client.View()), queued, q)
  {
    hide R.AfterQueued, S.Handle;
    ghost var s0, c0 := clients.View(), client.View();
    assert queued[0..] == queued;
    for i := 0 to |queued|
      invariant clients.Valid() && clients.clients == old(clients.clients) && clients.disconnected == old(clients.disconnected)
      invariant clients.next == old(clients.next)
      invariant R.Drain(s0, c0, queued, q) == R.Drain(clients.View(), client.View(), queued[i..], q)
    {
      assert queued[i..][0] == queued[i] && queued[i..][1..] == queued[i + 1..];
      TakeQueued(clients, client, queued[i], q(|queued| - i));
    }
    assert queued[|queued|..] == [];
  }

  /** One queued message, handled by a client that is not registered: it cannot be dropped. */
  method TakeQueued(clients: ServerClients, client: FssClient, msg: Option<Message>, q: S.Query)
    requires clients.Valid() && Separate([client], clients.clients) && Separate([client], clients.disconnected)
    modifies client, client.conn, clients, Conns(clients.clients)
    ensures clients.Valid() && clients.clients == old(clients.clients) && clients.disconnected == old(clients.disconnected)
    ensures clients.next == old(clients.next)
    ensures var h := S.Handle(old(client.View()), msg, q);
            && client.View() == h.client
            && clients.View() == R.AfterQueued(old(clients.View()), old(client.View()), h, msg)
  {
    hide S.Handle, R.Broadcast, R.Logged, Separate;
    S.EffectsExactlyWhen(client.View(), msg, q);
    var effect := HandleApart(clients, client, msg, q);
    ApartFrom(client, clients.clients);
    ghost var handled := clients.View();
    if effect == S.Leave {
      var _ := clients.ClientDisconnected(client);
      assert clients.View() == handled;
    } else if effect == S.Reflect {
      var shared := new FssMessage.Decoded(msg.value);
      clients.SendMsg(shared, client, |clients.clients|);
    }
  }

  /** What that client itself does with it, and what it records. */
  method HandleApart(clients: ServerClients, client: FssClient, msg: Option<Message>, q: S.Query) returns (effect: S.Effect)
    requires clients.Valid() && Separate([client], clients.clients) && Separate([client], clients.disconnected)
    modifies client, client.conn, clients`log
    ensures var h := S.Handle(old(client.View()), msg, q);
            && effect == h.effect && client.View() == h.client
            && clients.View() == R.Logged(old(clients.View()), old(client.View()), h)
  {
    hide S.Handle, R.Entries, Separate;
    ApartFrom(client, clients.clients);
    ApartFrom(client, clients.disconnected);
    ghost var me := client.View();
    var records;
    effect, records := client.Handle(msg, q);
    clients.log := clients.log + R.Entries(me, records);
  }

  lemma ApartFrom(client: FssClient, others: seq<FssClient>)
    requires Separate([client], others)
    ensures forall i :: 0 <= i < |others| ==> others[i] != client && others[i].conn != client.conn
  {
    assert [client][0] == client;
  }

  lemma Rest(all: seq<FssClient>, k: nat)
    requires k < |all|
    ensures all[k..][0] == all[k] && all[k..][1..] == all[k + 1..]
  {
  }

  lemma FreedNone(freed: seq<nat>, was: seq<S.Client>)
    ensures freed + R.Uids(was[..0]) == freed
  {
    assert R.Uids([]) == [];
  }

  lemma FreedStep(freed: seq<nat>, was: seq<S.Client>, k: nat)
    requires k < |was|
    ensures freed + R.Uids(was[..k]) + [was[k].uid] == freed + R.Uids(was[..k + 1])
  {
    assert was[..k + 1] == was[..k] + [was[k]];
    R.UidsSnoc(was[..k], was[k]);
  }

  lemma CounterStart(total: Word32)
    ensures Low32(SizeSub(total, 0)) == total
  {
  }

  lemma CounterStep(total: Word32, k: nat)
    ensures var t := Low32(SizeSub(total, k));
            Low32(SizeSub(total, k + 1)) == if t == 0 then 0xFFFF_FFFF else t - 1
  {
    CounterIs(total, k);
    CounterIs(total, k + 1);
    hide Low32, SizeSub;
    BackByOne(total - k);
  }

  /** Both cuts together are one. */
  lemma CounterIs(total: Word32, k: nat)
    ensures Low32(SizeSub(total, k)) == (total - k) % 0x1_0000_0000
  {
    var n, wrapped := total - k, SizeSub(total, k);
    var q, low := n / 0x1_0000_0000_0000_0000, wrapped % 0x1_0000_0000;
    ModUnique(n, 0x1_0000_0000, q * 0x1_0000_0000 + wrapped / 0x1_0000_0000, low);
  }

  lemma BackByOne(n: int)
    ensures (n - 1) % 0x1_0000_0000 == if n % 0x1_0000_0000 == 0 then 0xFFFF_FFFF else n % 0x1_0000_0000 - 1
  {
  }
}

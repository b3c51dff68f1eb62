/** The client objects: lists of server objects that are changed in place. */
module Client {
  import opened Words
  import opened Messages
  import opened Lists
  import opened Backoff
  import SL = ServerLists
  import Transport

  /** The argument for a server that is not to be tried. */
  const NEVER := Try(0, false, false)

  class FssServer {
    const address: Text
    const port: Word16
    var connected: bool
    /** Whether the end of the connection's stream has not been met, with or without a closed message. */
    var alive: bool
    var lastTried: Word64
    var retryCount: nat
    var retryDelay: Word64

    constructor (address: Text, port: Word16)
      ensures View() == NewLink(address, port)
    {
      this.address, this.port := address, port;
      connected, alive, lastTried, retryCount, retryDelay := false, false, 0, 0, RETRY_DELAY_START;
    }

    ghost function View(): Link
      reads this
    {
      Link(address, port, connected, alive, lastTried, retryCount, retryDelay)
    }

    /** The handler is set on the new connection, which hands it a closed message if one is queued. */
    method Reconnect(client: FssClient, t: Try) returns (ok: bool)
      requires client.Valid() && forall i :: 0 <= i < |client.servers| ==> client.servers[i] != this
      modifies this, client
      ensures View() == Backoff.Reconnect(old(View()), t)
      ensures ok == Succeeds(old(View()), t)
      ensures client.Valid() && client.servers == old(client.servers) && client.reconnectServers == old(client.reconnectServers)
      ensures client.status == if ok && t.closedQueued then SL.StatusOf(|client.servers|) else old(client.status)
    {
      var elapsed := SizeSub(t.now, lastTried);
      if connected {
        connected, alive := false, false;
      }
      if elapsed > retryDelay {
        retryCount := retryCount + 1;
        if retryDelay < RETRY_DELAY_CAP {
          retryDelay := Low64(retryDelay + retryDelay);
        }
        lastTried := t.now;
        connected, alive := t.works, t.works;
        if t.works {
          if t.closedQueued {
            var _ := ProcessClosed(client);
          }
          retryCount := 0;
          lastTried := 0;
          retryDelay := RETRY_DELAY_START;
          return true;
        }
      } else {
        alive := false;
      }
      return false;
    }

    /** The closed message: the client moves this server, then its backoff starts over but for the delay. */
    method ProcessClosed(client: FssClient) returns (ghost k: nat)
      requires client.Valid()
      modifies this, client
      ensures client.Valid() && View() == Closing(old(View()))
      ensures if k < |old(client.servers)| then
                old(client.servers)[k] == this && client.View() == SL.Closed(old(client.View()), k)
              else
                client.servers == old(client.servers) && client.reconnectServers == old(client.reconnectServers)
                && client.status == SL.StatusOf(|client.servers|)
                && forall i :: 0 <= i < |client.servers| ==> client.servers[i] != this
    {
      hide Distinct, Apart;
      ghost var before := client.View();
      k := client.ServerRequiresReconnect(this);
      alive := false;
      lastTried := 0;
      retryCount := 0;
      if k < |before.servers| {
        assert Views(client.servers) == before.servers[..k] + before.servers[k + 1..];
        assert Views(client.reconnectServers) == before.waiting + [Closing(before.servers[k])];
      }
    }

    /**
     * The receive thread of a connected server, whose stream ends: the messages in front are handed on one by one, and
     * only a closed one makes the client take the server back.
     */
    method ReceiveUntilEnd(conn: Transport.Connection, client: FssClient, recovers: bool, ghost at: nat)
      requires client.Valid() && at < |client.servers| && client.servers[at] == this
      requires conn.reliable
      modifies conn, this, client
      ensures client.Valid() && client.View() == SL.Ended(old(client.View()), at, old(conn.incoming), recovers)
    {
      hide Distinct, Apart;
      ghost var before, stream := client.View(), conn.incoming;
      var end := conn.ProcessMessages();
      assert client.View() == before;
      if end.AtBoundary? || (end.BadFrame? && recovers) {
        OnlyHere(client.servers, at);
        var _ := ProcessClosed(client);
      } else {
        alive := false;
        OnlyHere(client.servers, at);
        OnlyThere(client.servers, client.reconnectServers, at);
        assert Views(client.servers) == before.servers[at := Backoff.Hanging(before.servers[at])];
        assert Views(client.reconnectServers) == before.waiting;
      }
    }
  }

  ghost function Views(s: seq<FssServer>): (r: seq<Link>)
    reads s
    ensures |r| == |s| && forall i :: 0 <= i < |s| ==> r[i] == s[i].View()
  {
    seq(|s|, i requires 0 <= i < |s| reads s => s[i].View())
  }

  lemma ViewsSnoc(s: seq<FssServer>, x: FssServer)
    ensures Views(s + [x]) == Views(s) + [x.View()]
  {
  }

  lemma ViewsConcat(a: seq<FssServer>, b: seq<FssServer>)
    ensures Views(a + b) == Views(a) + Views(b)
  {
  }

  class FssClient {
    var servers: seq<FssServer>
    var reconnectServers: seq<FssServer>
    var status: SL.Status

    /** No server object is in the lists twice. */
    ghost predicate Valid()
      reads this
    {
      Distinct(servers) && Distinct(reconnectServers) && Apart(servers, reconnectServers)
    }

    ghost function View(): SL.State
      reads this, servers, reconnectServers
    {
      SL.State(Views(servers), Views(reconnectServers), status)
    }

    constructor ()
      ensures Valid() && View() == SL.Configured([])
    {
      servers, reconnectServers, status := [], [], SL.StatusUnknown;
    }

    method NotifyConnectionStatus()
      modifies this`status
      ensures View() == SL.Notify(old(View()))
      ensures status == SL.Disconnected <==> |servers| == 0
      ensures status == SL.ConnectedOne <==> |servers| == 1
      ensures status == SL.ConnectedTwoOrMore <==> |servers| >= 2
    {
      match |servers| {
        case 0 => status := SL.Disconnected;
        case 1 => status := SL.ConnectedOne;
        case _ => status := SL.ConnectedTwoOrMore;
      }
    }

    method AddServer(server: FssServer)
      requires Valid()
      requires forall i :: 0 <= i < |servers| ==> servers[i] != server
      requires forall i :: 0 <= i < |reconnectServers| ==> reconnectServers[i] != server
      modifies this`servers, this`reconnectServers
      ensures Valid()
      ensures if server.connected then servers == old(servers) + [server] && reconnectServers == old(reconnectServers)
              else servers == old(servers) && reconnectServers == old(reconnectServers) + [server]
      ensures View() == if server.connected then old(View()).(servers := old(Views(servers)) + [server.View()])
                        else old(View()).(waiting := old(Views(reconnectServers)) + [server.View()])
    {
      if server.connected {
        servers := servers + [server];
      } else {
        reconnectServers := reconnectServers + [server];
      }
    }

    method ConnectTo(address: Text, port: Word16, connect: bool, t: Try)
      requires Valid()
      modifies this
      ensures Valid() && View() == SL.Add(old(View()), Server(address, port), connect, t)
      ensures Grown(old(servers), servers) && Grown(old(reconnectServers), reconnectServers)
      ensures !connect ==> status == old(status)
    {
      hide Distinct, Apart;
      var server := new FssServer(address, port);
      if connect {
        var _ := server.Reconnect(this, t);
      }
      assert Views(servers) == old(Views(servers)) && Views(reconnectServers) == old(Views(reconnectServers));
      AddServer(server);
    }

    method ListMatches(list: seq<FssServer>, address: Text, port: Word16) returns (found: bool)
      ensures found == SL.ListMatches(Views(list), Server(address, port))
    {
      for i := 0 to |list|
        invariant forall j :: 0 <= j < i ==> !SL.Matches(Views(list)[j], Server(address, port))
      {
        if list[i].address == address && list[i].port == port {
          assert SL.Matches(Views(list)[i], Server(address, port));
          return true;
        }
      }
      return false;
    }

    method UpdateServers(list: seq<Server>)
      requires Valid()
      modifies this
      ensures Valid() && View() == SL.UpdateServers(old(View()), list)
      ensures Grown(old(servers), servers) && Grown(old(reconnectServers), reconnectServers)
    {
      ghost var before := View();
      for i := 0 to |list|
        invariant Valid() && View() == SL.UpdateServers(before, list[..i])
        invariant Grown(old(servers), servers) && Grown(old(reconnectServers), reconnectServers)
      {
        assert list[..i + 1][..i] == list[..i];
        UpdateOne(list[i]);
      }
      assert list[..|list|] == list;
    }

    method UpdateOne(entry: Server)
      requires Valid()
      modifies this
      ensures Valid()
      ensures View() == if SL.Known(old(View()), entry) then old(View()) else SL.Add(old(View()), entry, false, NEVER)
      ensures Grown(old(servers), servers) && Grown(old(reconnectServers), reconnectServers)
    {
      var known := ListMatches(servers, entry.address, entry.port);
      if !known {
        known := ListMatches(reconnectServers, entry.address, entry.port);
      }
      if !known {
        ConnectTo(entry.address, entry.port, false, NEVER);
      }
    }

    method AttemptReconnect(tries: nat -> Try)
      requires Valid()
      modifies this, reconnectServers
      ensures Valid()
      ensures View() == SL.AttemptReconnect(old(View()), tries)
    {
      hide Passed, Distinct, Apart, WithoutAll;
      var reconnected, stay := ReconnectAll(tries);
      PassedAll(servers, reconnectServers, reconnected, stay);
      ValidAfter(servers, reconnected, stay);
      ViewsConcat(servers, reconnected);
      MoveUp(reconnected, stay);
      assert View() == SL.AttemptReconnect(old(View()), tries).(status := status);
      if reconnected != [] {
        NotifyConnectionStatus();
      }
    }

    /** The first loop: every waiting server is tried, and the ones that come up are collected. */
    method ReconnectAll(tries: nat -> Try) returns (up: seq<FssServer>, ghost stay: seq<FssServer>)
      requires Valid()
      modifies this, reconnectServers
      ensures Valid() && servers == old(servers) && reconnectServers == old(reconnectServers)
      ensures up == [] ==> status == old(status)
      ensures Passed(servers, reconnectServers, |reconnectServers|, up, stay)
      ensures Views(up) == SL.Connected(old(Views(reconnectServers)), tries)
      ensures Views(stay) == SL.StillWaiting(old(Views(reconnectServers)), tries)
      ensures Views(servers) == old(Views(servers))
    {
      hide Passed, Distinct, Apart;
      ghost var was := Views(reconnectServers);
      up, stay := [], [];
      assert Passed(servers, reconnectServers, 0, up, stay) by {
        PassedNone(servers, reconnectServers);
      }
      for i := 0 to |reconnectServers|
        invariant Valid() && servers == old(servers) && reconnectServers == old(reconnectServers)
        invariant up == [] ==> status == old(status)
        invariant Views(servers) == old(Views(servers))
        invariant Passed(servers, reconnectServers, i, up, stay)
        invariant forall j :: i <= j < |was| ==> reconnectServers[j].View() == was[j]
        invariant Views(up) == SL.Connected(was[..i], tries)
        invariant Views(stay) == SL.StillWaiting(was[..i], tries)
      {
        assert was[..i + 1][..i] == was[..i];
        up, stay := TryOne(i, tries(i), up, stay);
      }
      assert was[..|was|] == was;
    }

    /** One turn of the first loop: nothing but the i-th waiting server and the status can change. */
    method TryOne(i: nat, t: Try, up: seq<FssServer>, ghost stay: seq<FssServer>)
        returns (up': seq<FssServer>, ghost stay': seq<FssServer>)
      requires Valid() && i < |reconnectServers| && Passed(servers, reconnectServers, i, up, stay)
      modifies this, reconnectServers[i]
      ensures Valid() && servers == old(servers) && reconnectServers == old(reconnectServers)
      ensures Passed(servers, reconnectServers, i + 1, up', stay')
      ensures up' == [] ==> status == old(status)
      ensures Views(servers) == old(Views(servers))
      ensures forall k :: 0 <= k < |reconnectServers| && k != i ==> reconnectServers[k].View() == old(reconnectServers[k].View())
      ensures var was := old(reconnectServers[i].View());
              if Succeeds(was, t) then Views(up') == old(Views(up)) + [Backoff.Reconnect(was, t)] && Views(stay') == old(Views(stay))
              else Views(up') == old(Views(up)) && Views(stay') == old(Views(stay)) + [Backoff.Reconnect(was, t)]
    {
      hide Passed, Distinct, Apart;
      PassedNext(servers, reconnectServers, i, up, stay);
      var server := reconnectServers[i];
      up', stay' := up, stay;
      var ok := server.Reconnect(this, t);
      if ok {
        ViewsSnoc(up, server);
        up' := up + [server];
      } else {
        ViewsSnoc(stay, server);
        stay' := stay + [server];
      }
    }

    /** The second loop: each reconnected server goes from one list to the other. */
    method MoveUp(up: seq<FssServer>, ghost stay: seq<FssServer>)
      requires WithoutAll(reconnectServers, up) == stay
      modifies this`servers, this`reconnectServers
      ensures servers == old(servers) + up && reconnectServers == stay
    {
      var reconnected := up;
      while reconnected != []
        invariant WithoutAll(reconnectServers, reconnected) == stay
        invariant servers + reconnected == old(servers) + up
        decreases |reconnected|
      {
        var server := reconnected[0];
        assert reconnected == [server] + reconnected[1..];
        reconnected := reconnected[1..];
        reconnectServers := Without(reconnectServers, server);
        servers := servers + [server];
      }
    }

    /** The search through the connected servers. */
    method Find(server: FssServer) returns (k: nat)
      ensures k <= |servers|
      ensures k < |servers| ==> servers[k] == server
      ensures k == |servers| ==> forall i :: 0 <= i < |servers| ==> servers[i] != server
    {
      for i := 0 to |servers|
        invariant forall j :: 0 <= j < i ==> servers[j] != server
      {
        if servers[i] == server {
          return i;
        }
      }
      return |servers|;
    }

    method ServerRequiresReconnect(server: FssServer) returns (ghost k: nat)
      requires Valid()
      modifies this
      ensures Valid() && status == SL.StatusOf(|servers|)
      ensures if k < |old(servers)| then
                old(servers)[k] == server && servers == old(servers)[..k] + old(servers)[k + 1..]
                && reconnectServers == old(reconnectServers) + [server]
                && (forall i :: 0 <= i < |servers| ==> servers[i] != server)
                && (forall i :: 0 <= i < |old(reconnectServers)| ==> old(reconnectServers)[i] != server)
              else
                servers == old(servers) && reconnectServers == old(reconnectServers)
                && forall i :: 0 <= i < |servers| ==> servers[i] != server
    {
      hide Distinct, Apart;
      var at := Find(server);
      k := at;
      if at < |servers| {
        Moved(servers, reconnectServers, at);
        servers := Without(servers, server);
        reconnectServers := reconnectServers + [server];
      }
      NotifyConnectionStatus();
    }
  }

  lemma OnlyHere(servers: seq<FssServer>, at: nat)
    requires Distinct(servers) && at < |servers|
    ensures forall i :: 0 <= i < |servers| && i != at ==> servers[i] != servers[at]
  {
  }

  lemma OnlyThere(servers: seq<FssServer>, waiting: seq<FssServer>, at: nat)
    requires Apart(servers, waiting) && at < |servers|
    ensures forall i :: 0 <= i < |waiting| ==> waiting[i] != servers[at]
  {
  }

  lemma Moved(servers: seq<FssServer>, waiting: seq<FssServer>, k: nat)
    requires Distinct(servers) && Distinct(waiting) && Apart(servers, waiting) && k < |servers|
    ensures var rest, more := servers[..k] + servers[k + 1..], waiting + [servers[k]];
            && Without(servers, servers[k]) == rest
            && Distinct(rest) && Distinct(more) && Apart(rest, more)
            && (forall i :: 0 <= i < |rest| ==> rest[i] != servers[k])
            && (forall i :: 0 <= i < |waiting| ==> waiting[i] != servers[k])
  {
    WithoutOne(servers, k);
  }

  /** One pass over the waiting objects: who came up and who stays, as far as the pass has got. */
  ghost predicate Passed(servers: seq<FssServer>, waiting: seq<FssServer>, i: nat, up: seq<FssServer>, stay: seq<FssServer>)
    requires i <= |waiting|
  {
    && Distinct(up) && Distinct(stay) && Apart(up, stay) && Apart(up, servers) && Apart(stay, servers)
    && Apart(up, waiting[i..]) && Apart(stay, waiting[i..])
    && WithoutAll(waiting[..i], up) == stay
  }

  lemma PassedNone(servers: seq<FssServer>, waiting: seq<FssServer>)
    ensures Passed(servers, waiting, 0, [], [])
  {
  }

  lemma PassedNext(servers: seq<FssServer>, waiting: seq<FssServer>, i: nat, up: seq<FssServer>, stay: seq<FssServer>)
    requires i < |waiting| && Passed(servers, waiting, i, up, stay)
    requires Distinct(waiting) && Apart(servers, waiting)
    ensures Passed(servers, waiting, i + 1, up + [waiting[i]], stay)
    ensures Passed(servers, waiting, i + 1, up, stay + [waiting[i]])
    ensures forall k :: 0 <= k < |up| ==> up[k] != waiting[i]
    ensures forall k :: 0 <= k < |stay| ==> stay[k] != waiting[i]
    ensures forall k :: 0 <= k < |servers| ==> servers[k] != waiting[i]
    ensures forall k :: 0 <= k < |waiting| && k != i ==> waiting[k] != waiting[i]
  {
    var x := waiting[i];
    assert x == waiting[i..][0];
    assert waiting[i + 1..] == waiting[i..][1..];
    assert waiting[..i + 1] == waiting[..i] + [x];
    assert Apart([x], up) && Apart([x], stay);
    WithoutAllTakes(waiting[..i], up, x);
    WithoutAllKeeps(waiting[..i], x, up);
  }

  lemma PassedAll(servers: seq<FssServer>, waiting: seq<FssServer>, up: seq<FssServer>, stay: seq<FssServer>)
    requires Passed(servers, waiting, |waiting|, up, stay)
    ensures WithoutAll(waiting, up) == stay
    ensures Distinct(up) && Distinct(stay) && Apart(up, stay) && Apart(up, servers) && Apart(stay, servers)
  {
    assert waiting[..|waiting|] == waiting;
  }

  lemma ValidAfter(servers: seq<FssServer>, up: seq<FssServer>, stay: seq<FssServer>)
    requires Distinct(servers)
    requires Distinct(up) && Distinct(stay) && Apart(up, stay) && Apart(up, servers) && Apart(stay, servers)
    ensures Distinct(servers + up) && Apart(servers + up, stay)
  {
  }

  /** The list has what it had, and behind that only new objects. */
  twostate predicate Grown(before: seq<FssServer>, new after: seq<FssServer>) {
    before <= after && forall i :: |before| <= i < |after| ==> fresh(after[i])
  }
}

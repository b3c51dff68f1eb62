/** All clients of a server: registered, leaving or freed, over whole runs. */
module Registry {
  import opened Words
  import opened Messages
  import opened Network
  import opened Session

  /** A database write, with the client it was made for as it was then. */
  datatype Entry = Entry(client: Client, record: Record)

  /**
   * active: registered; leaving: dropped but not cleaned up; freed: serial numbers of the ones cleaned up;
   * log: all database writes so far.
   */
  datatype State = State(active: seq<Client>, leaving: seq<Client>, freed: seq<nat>, total: Word32, next: nat, log: seq<Entry>)

  const EMPTY := State([], [], [], 0, 0, [])

  datatype Step =
    | Connect(names: seq<Text>, queued: seq<Option<Message>>, queries: nat -> Query)
    | Incoming(i: nat, msg: Option<Message>, query: Query)
    | Cleanup
    | RttRound(queries: nat -> Query)
    | CommandRound(queries: nat -> Query)
    | SettingsRound(queries: nat -> Query)
    | ListRound(servers: seq<Server>)

  /** A broadcast: every registered aircraft but one gets the message, with its own connection's next id. */
  function Broadcast(cs: seq<Client>, typ: MsgType, body: Body, except: nat): (r: seq<Client>)
    ensures |r| == |cs|
    ensures forall i :: 0 <= i < |cs| ==>
              r[i] == if cs[i].aircraft && i != except then SendAs(cs[i], typ, body) else cs[i]
  {
    seq(|cs|, i requires 0 <= i < |cs| => if cs[i].aircraft && i != except then SendAs(cs[i], typ, body) else cs[i])
  }

  /** Rounds over all clients; the clock and the answers are those at each client's own turn. */
  function RttAll(cs: seq<Client>, qs: nat -> Query): (r: seq<Client>)
    ensures |r| == |cs| && forall i :: 0 <= i < |cs| ==> r[i] == SendRtt(cs[i], qs(i).now)
  {
    seq(|cs|, i requires 0 <= i < |cs| => SendRtt(cs[i], qs(i).now))
  }

  function CommandAll(cs: seq<Client>, qs: nat -> Query): (r: seq<Client>)
    ensures |r| == |cs| && forall i :: 0 <= i < |cs| ==> r[i] == SendCommand(cs[i], qs(i))
  {
    seq(|cs|, i requires 0 <= i < |cs| => SendCommand(cs[i], qs(i)))
  }

  function SettingsAll(cs: seq<Client>, qs: nat -> Query): (r: seq<Client>)
    ensures |r| == |cs| && forall i :: 0 <= i < |cs| ==> r[i] == SendSmm(cs[i], qs(i))
  {
    seq(|cs|, i requires 0 <= i < |cs| => SendSmm(cs[i], qs(i)))
  }

  function Entries(c: Client, records: seq<Record>): (r: seq<Entry>)
    ensures |r| == |records| && forall i :: 0 <= i < |records| ==> r[i] == Entry(c, records[i])
  {
    seq(|records|, i requires 0 <= i < |records| => Entry(c, records[i]))
  }

  function Logged(s: State, c: Client, h: Handled): State { s.(log := s.log + Entries(c, h.records)) }

  /** A message handled by a client that is not registered: it can be passed on, but the client not dropped. */
  function AfterQueued(s: State, c: Client, h: Handled, msg: Option<Message>): State {
    var s' := Logged(s, c, h);
    if h.effect == Reflect && msg.Some? then Reflected(s', msg.value, |s.active|) else s'
  }

  /** The messages that came in before the client object was there; each has its own clock and answers. */
  function Drain(s: State, c: Client, queued: seq<Option<Message>>, q: nat -> Query): (State, Client)
    decreases |queued|
  {
    if queued == [] then (s, c) else
      var h := Handle(c, queued[0], q(|queued|));
      Drain(AfterQueued(s, c, h, queued[0]), h.client, queued[1..], q)
  }

  function Reflected(s: State, m: Message, except: nat): State {
    s.(active := Broadcast(s.active, m.typ, m.body, except))
  }

  function ClientConnected(s: State, c: Client): State {
    s.(active := s.active + [c], total := Low32(s.total + 1))
  }

  function ClientDisconnected(s: State, i: nat): State
    requires i < |s.active|
  {
    s.(active := s.active[..i] + s.active[i + 1..], leaving := s.leaving + [s.active[i]])
  }

  /** The i-th client that still has a connection, registered ones first. */
  function At(s: State, i: nat): Client
    requires i < |s.active| + |s.leaving|
  {
    if i < |s.active| then s.active[i] else s.leaving[i - |s.active|]
  }

  /** That client after a message: what it keeps, and what it has recorded. */
  function Placed(s: State, i: nat, h: Handled): State
    requires i < |s.active| + |s.leaving|
  {
    var s' := Logged(s, At(s, i), h);
    if i < |s.active| then s'.(active := s.active[i := h.client]) else s'.(leaving := s.leaving[i - |s.active| := h.client])
  }

  /** What a message then does to the registry: nothing, or its client is dropped, or it is passed on to the others. */
  function Effected(s: State, i: nat, effect: Effect, msg: Option<Message>): State
    requires effect == Reflect ==> msg.Some?
  {
    match effect
    case Stay => s
    case Leave => if i < |s.active| then ClientDisconnected(s, i) else s
    case Reflect => Reflected(s, msg.value, if i < |s.active| then i else |s.active|)
  }

  function Receive(s: State, i: nat, msg: Option<Message>, q: Query): State {
    if i < |s.active| + |s.leaving| then
      var h := Handle(At(s, i), msg, q);
      Effected(Placed(s, i, h), i, h.effect, msg)
    else s
  }

  function Uids(cs: seq<Client>): seq<nat> { seq(|cs|, i requires 0 <= i < |cs| => cs[i].uid) }

  /** The counter goes down once for each client taken off the queue. */
  function CleanedUp(s: State): State {
    s.(leaving := [], freed := s.freed + Uids(s.leaving), total := Low32(SizeSub(s.total, |s.leaving|)))
  }

  function Apply(s: State, step: Step): State {
    match step
    case Connect(names, queued, q) =>
      var (s', c) := Drain(s, NewClient(s.next, names), queued, q);
      ClientConnected(s', c).(next := s.next + 1)
    case Incoming(i, msg, q) => Receive(s, i, msg, q)
    case Cleanup => CleanedUp(s)
    case RttRound(qs) => s.(active := RttAll(s.active, qs))
    case CommandRound(qs) => s.(active := CommandAll(s.active, qs))
    case SettingsRound(qs) => s.(active := SettingsAll(s.active, qs))
    case ListRound(servers) => s.(active := Broadcast(s.active, ServerList, BServerList(servers), |s.active|))
  }

  function Run(steps: seq<Step>): State
    decreases |steps|
  {
    if steps == [] then EMPTY else Apply(Run(steps[..|steps| - 1]), steps[|steps| - 1])
  }

  /** One turn of the main loop. */
  function AfterTurn(s: State, counter: nat, servers: seq<Server>, rtts: nat -> Query, commands: nat -> Query,
                     settings: nat -> Query): State {
    var s' := Apply(Apply(Apply(s, Cleanup), RttRound(rtts)), CommandRound(commands));
    if counter % 15 == 0 then Apply(Apply(s', ListRound(servers)), SettingsRound(settings)) else s'
  }

  // ------------------------------------------------------------ conservation

  function Serials(n: nat): multiset<nat> {
    if n == 0 then multiset{} else Serials(n - 1) + multiset{n - 1}
  }

  /** Each client that ever connected is in exactly one place, and the counter counts the ones not freed. */
  ghost predicate Conserved(s: State) {
    && multiset(Uids(s.active)) + multiset(Uids(s.leaving)) + multiset(s.freed) == Serials(s.next)
    && s.total == Low32(|s.active| + |s.leaving|)
  }

  ghost predicate SameUids(a: seq<Client>, b: seq<Client>) {
    |a| == |b| && forall i :: 0 <= i < |a| ==> a[i].uid == b[i].uid
  }

  lemma DrainKeepsUids(s: State, c: Client, queued: seq<Option<Message>>, q: nat -> Query)
    ensures var (s', c') := Drain(s, c, queued, q);
            && SameUids(s'.active, s.active) && s' == s.(active := s'.active, log := s'.log)
            && c'.uid == c.uid && c'.names == c.names
    decreases |queued|
  {
    if queued != [] {
      IdentityFinal(c, queued[0], q(|queued|));
      var h := Handle(c, queued[0], q(|queued|));
      DrainKeepsUids(AfterQueued(s, c, h, queued[0]), h.client, queued[1..], q);
    }
  }

  lemma SameUidsSameSeq(a: seq<Client>, b: seq<Client>)
    requires SameUids(a, b)
    ensures Uids(a) == Uids(b)
  {
  }

  lemma UidsSplit(cs: seq<Client>, i: nat)
    requires i < |cs|
    ensures multiset(Uids(cs)) == multiset(Uids(cs[..i] + cs[i + 1..])) + multiset{cs[i].uid}
  {
    var u := Uids(cs);
    assert u == u[..i] + [u[i]] + u[i + 1..];
    assert Uids(cs[..i] + cs[i + 1..]) == u[..i] + u[i + 1..];
  }

  lemma UidsSnoc(cs: seq<Client>, c: Client)
    ensures Uids(cs + [c]) == Uids(cs) + [c.uid]
  {
  }

  lemma LeaveConserves(s: State, i: nat)
    requires Conserved(s) && i < |s.active|
    ensures Conserved(ClientDisconnected(s, i))
  {
    UidsSplit(s.active, i);
    UidsSnoc(s.leaving, s.active[i]);
  }

  lemma ReceiveConserves(s: State, i: nat, msg: Option<Message>, q: Query)
    requires Conserved(s)
    ensures Conserved(Receive(s, i, msg, q))
  {
    hide Handle;
    var s' := Receive(s, i, msg, q);
    if i < |s.active| {
      var h := Handle(s.active[i], msg, q);
      IdentityFinal(s.active[i], msg, q);
      var active := s.active[i := h.client];
      SameUidsSameSeq(active, s.active);
      match h.effect
      case Leave => LeaveConserves(Logged(s, s.active[i], h).(active := active), i);
      case Reflect => SameUidsSameSeq(s'.active, active);
      case Stay =>
    } else if i - |s.active| < |s.leaving| {
      IdentityFinal(s.leaving[i - |s.active|], msg, q);
      SameUidsSameSeq(s'.leaving, s.leaving);
      SameUidsSameSeq(s'.active, s.active);
    }
  }

  /** Conservation is about who is where, not about what the clients or the log hold. */
  lemma SameUidsConserve(s: State, s': State)
    requires Conserved(s) && SameUids(s'.active, s.active) && s' == s.(active := s'.active, log := s'.log)
    ensures Conserved(s')
  {
    SameUidsSameSeq(s'.active, s.active);
  }

  lemma OneMore(s: State, c: Client)
    requires Conserved(s) && c.uid == s.next
    ensures Conserved(ClientConnected(s, c).(next := s.next + 1))
  {
    UidsSnoc(s.active, c);
    assert multiset(Uids(s.active) + [c.uid]) == multiset(Uids(s.active)) + multiset{c.uid};
    CounterGoesUp(|s.active| + |s.leaving|);
    hide Uids, Low32;
  }

  lemma CounterGoesUp(n: nat)
    ensures Low32(Low32(n) + 1) == Low32(n + 1)
  {
  }

  lemma ConnectConserves(s: State, names: seq<Text>, queued: seq<Option<Message>>, q: nat -> Query)
    requires Conserved(s)
    ensures Conserved(Apply(s, Connect(names, queued, q)))
  {
    hide Drain, Conserved, SameUids, ClientConnected;
    var c := NewClient(s.next, names);
    DrainKeepsUids(s, c, queued, q);
    var (s1, c1) := Drain(s, c, queued, q);
    SameUidsConserve(s, s1);
    OneMore(s1, c1);
  }

  lemma CleanupConserves(s: State)
    requires Conserved(s)
    ensures Conserved(CleanedUp(s))
  {
    assert Uids([]) == [];
    assert multiset(s.freed + Uids(s.leaving)) == multiset(s.freed) + multiset(Uids(s.leaving));
    CounterGoesDown(|s.active|, |s.leaving|);
  }

  lemma StepConserves(s: State, step: Step)
    requires Conserved(s)
    ensures Conserved(Apply(s, step))
  {
    hide Drain, Receive, CleanedUp, Conserved, Uids;
    match step
    case Connect(names, queued, q) => ConnectConserves(s, names, queued, q);
    case Incoming(i, msg, q) => ReceiveConserves(s, i, msg, q);
    case Cleanup => CleanupConserves(s);
    case _ => SameUidsConserve(s, Apply(s, step));
  }

  lemma CounterGoesDown(a: nat, l: nat)
    ensures Low32(SizeSub(Low32(a + l), l)) == Low32(a)
  {
  }

  lemma {:induction false} RunConserves(steps: seq<Step>)
    ensures Conserved(Run(steps))
    decreases |steps|
  {
    if steps != [] {
      RunConserves(steps[..|steps| - 1]);
      StepConserves(Run(steps[..|steps| - 1]), steps[|steps| - 1]);
    }
  }

  lemma {:induction false} SerialsOnce(n: nat, u: nat)
    ensures Serials(n)[u] == if u < n then 1 else 0
  {
    if n > 0 {
      SerialsOnce(n - 1, u);
    }
  }

  /** In every run: a client connected once is in one place only, once; a second drop of it changes nothing. */
  lemma EachInOnePlace(steps: seq<Step>, u: nat)
    ensures var s := Run(steps);
            multiset(Uids(s.active))[u] + multiset(Uids(s.leaving))[u] + multiset(s.freed)[u]
            == if u < s.next then 1 else 0
  {
    RunConserves(steps);
    SerialsOnce(Run(steps).next, u);
  }

  // ------------------------------------------------------------ names

  /** Every client has its flags and ids in order; with `named`, every registered client its name too. */
  ghost predicate AllOk(s: State, named: bool) {
    && (forall c :: c in s.active ==> InOrder(c, named))
    && (forall c :: c in s.leaving ==> ClientOk(c))
    && (forall e :: e in s.log ==> EntryOk(e))
  }

  /** A write carries the name of its client, and a position is that of an aircraft. */
  ghost predicate EntryOk(e: Entry) {
    ClientOk(e.client) && e.client.identified && e.record.name == e.client.name && (e.record.AddPosition? ==> e.client.aircraft)
  }

  lemma LogKeeps(s: State, c: Client, msg: Option<Message>, q: Query, named: bool)
    requires AllOk(s, named) && ClientOk(c)
    ensures AllOk(Logged(s, c, Handle(c, msg, q)), named)
  {
    RecordsCarryName(c, msg, q);
    hide Handle;
    var more := Entries(c, Handle(c, msg, q).records);
    forall e | e in s.log + more
      ensures EntryOk(e)
    {
      if e !in s.log {
        var i :| 0 <= i < |more| && more[i] == e;
        assert e.record in Handle(c, msg, q).records;
      }
    }
  }

  ghost predicate InOrder(c: Client, named: bool) { ClientOk(c) && (named ==> NameOk(c)) }

  /**
   * Whether messages queued before the client object exists leave it with a refused name: a refused identity
   * that no accepted one follows before the client counts as identified.
   */
  predicate LeavesRefusedName(names: seq<Text>, queued: seq<Option<Message>>, pending: bool)
    decreases |queued|
  {
    if queued == [] then pending
    else if queued[0] == None then LeavesRefusedName(names, queued[1..], pending)
    else
      var m := queued[0].value;
      if IsIdentity(m) then
        !Accepted(names, m.body.name) && LeavesRefusedName(names, queued[1..], m.body.name != [])
      else if m.typ == IdentityNonAircraft then pending
      else LeavesRefusedName(names, queued[1..], pending)
  }

  lemma DrainIdentified(s: State, c: Client, queued: seq<Option<Message>>, q: nat -> Query)
    requires c.identified
    ensures NameOk(Drain(s, c, queued, q).1) == NameOk(c)
    decreases |queued|
  {
    hide Handle;
    if queued != [] {
      IdentityFinal(c, queued[0], q(|queued|));
      EffectsExactlyWhen(c, queued[0], q(|queued|));
      var h := Handle(c, queued[0], q(|queued|));
      DrainIdentified(AfterQueued(s, c, h, queued[0]), h.client, queued[1..], q);
    }
  }

  lemma {:induction false} DrainName(s: State, c: Client, queued: seq<Option<Message>>, q: nat -> Query)
    requires !c.identified
    ensures NameOk(Drain(s, c, queued, q).1) <==> !LeavesRefusedName(c.names, queued, c.name != [])
    decreases |queued|
  {
    hide Handle, Accepted;
    if queued != [] {
      var h := Handle(c, queued[0], q(|queued|));
      EffectsExactlyWhen(c, queued[0], q(|queued|));
      WhileUnidentified(c, queued[0], q(|queued|));
      IdentityFinal(c, queued[0], q(|queued|));
      if h.client.identified {
        DrainIdentified(AfterQueued(s, c, h, queued[0]), h.client, queued[1..], q);
      } else {
        DrainName(AfterQueued(s, c, h, queued[0]), h.client, queued[1..], q);
      }
    }
  }

  lemma DrainKeepsOk(s: State, c: Client, queued: seq<Option<Message>>, q: nat -> Query, named: bool)
    requires AllOk(s, named) && ClientOk(c)
    ensures AllOk(Drain(s, c, queued, q).0, named) && ClientOk(Drain(s, c, queued, q).1)
    decreases |queued|
  {
    if queued != [] {
      HandleKeeps(c, queued[0], q(|queued|));
      LogKeeps(s, c, queued[0], q(|queued|), named);
      EffectsExactlyWhen(c, queued[0], q(|queued|));
      hide Handle;
      var h := Handle(c, queued[0], q(|queued|));
      if h.effect == Reflect {
        BroadcastKeeps(Logged(s, c, h), queued[0].value.typ, queued[0].value.body, |s.active|, named);
      }
      DrainKeepsOk(AfterQueued(s, c, h, queued[0]), h.client, queued[1..], q, named);
    }
  }

  lemma BroadcastKeeps(s: State, typ: MsgType, body: Body, except: nat, named: bool)
    requires AllOk(s, named)
    ensures AllOk(s.(active := Broadcast(s.active, typ, body, except)), named)
  {
    forall c | c in s.active
      ensures InOrder(SendAs(c, typ, body), named)
    {
      SendKeepsNumbered(c, typ, body);
    }
  }

  lemma ReceiveKeeps(s: State, i: nat, msg: Option<Message>, q: Query, named: bool)
    requires AllOk(s, named)
    ensures AllOk(Receive(s, i, msg, q), named)
  {
    hide Handle;
    if i < |s.active| {
      var c := s.active[i];
      assert c in s.active;
      var h := Handle(c, msg, q);
      HandleKeeps(c, msg, q);
      if named {
        NameOkExactlyWhen(c, msg, q);
      }
      EffectsExactlyWhen(c, msg, q);
      LogKeeps(s, c, msg, q, named);
      var s' := Logged(s, c, h).(active := s.active[i := h.client]);
      if h.effect == Reflect {
        BroadcastKeeps(s', msg.value.typ, msg.value.body, i, named);
      }
    } else if i - |s.active| < |s.leaving| {
      var c := s.leaving[i - |s.active|];
      assert c in s.leaving;
      var h := Handle(c, msg, q);
      HandleKeeps(c, msg, q);
      EffectsExactlyWhen(c, msg, q);
      LogKeeps(s, c, msg, q, named);
      var s' := Logged(s, c, h).(leaving := s.leaving[i - |s.active| := h.client]);
      if h.effect == Reflect {
        BroadcastKeeps(s', msg.value.typ, msg.value.body, |s.active|, named);
      }
    }
  }

  lemma ConnectKeeps(s: State, names: seq<Text>, queued: seq<Option<Message>>, q: nat -> Query, named: bool)
    requires AllOk(s, named)
    ensures AllOk(Apply(s, Connect(names, queued, q)), named) <==> !(named && LeavesRefusedName(names, queued, false))
  {
    var c := NewClient(s.next, names);
    DrainKeepsOk(s, c, queued, q, named);
    DrainName(s, c, queued, q);
    var (s', c') := Drain(s, c, queued, q);
    var after := Apply(s, Connect(names, queued, q));
    assert after.active == s'.active + [c'];
    assert c' in after.active;
  }

  /** One step keeps every registered client in order, except exactly a connection that queued a refused name. */
  lemma StepKeepsExactlyWhen(s: State, step: Step, named: bool)
    requires AllOk(s, named)
    ensures AllOk(Apply(s, step), named)
            <==> !(named && step.Connect? && LeavesRefusedName(step.names, step.queued, false))
  {
    match step
    case Connect(names, queued, q) => ConnectKeeps(s, names, queued, q, named);
    case Incoming(i, msg, q) => ReceiveKeeps(s, i, msg, q, named);
    case Cleanup =>
    case ListRound(servers) => BroadcastKeeps(s, ServerList, BServerList(servers), |s.active|, named);
    case RttRound(qs) => RoundsKeep(s, qs, named);
    case CommandRound(qs) => RoundsKeep(s, qs, named);
    case SettingsRound(qs) => RoundsKeep(s, qs, named);
  }

  lemma RoundsKeep(s: State, qs: nat -> Query, named: bool)
    requires AllOk(s, named)
    ensures AllOk(s.(active := RttAll(s.active, qs)), named)
    ensures AllOk(s.(active := CommandAll(s.active, qs)), named)
    ensures AllOk(s.(active := SettingsAll(s.active, qs)), named)
  {
    forall i | 0 <= i < |s.active|
      ensures var c, q := s.active[i], qs(i);
              InOrder(SendRtt(c, q.now), named) && InOrder(SendCommand(c, q), named) && InOrder(SendSmm(c, q), named)
    {
      assert s.active[i] in s.active;
      CallsKeep(s.active[i], qs(i));
    }
  }

  ghost predicate NoRefusedNameQueued(steps: seq<Step>) {
    forall i :: 0 <= i < |steps| && steps[i].Connect? ==> !LeavesRefusedName(steps[i].names, steps[i].queued, false)
  }

  /**
   * The invariant of every run: each wire carries ids 1, 2, 3, ... in order; and if no connection queued a
   * refused name before its client was there, every registered client's name is empty or an accepted aircraft's.
   */
  lemma {:induction false} RunKeepsOk(steps: seq<Step>)
    ensures AllOk(Run(steps), NoRefusedNameQueued(steps))
    decreases |steps|
  {
    if steps != [] {
      RunKeepsOk(steps[..|steps| - 1]);
      StepKeepsExactlyWhen(Run(steps[..|steps| - 1]), steps[|steps| - 1], NoRefusedNameQueued(steps));
    }
  }

  /** In any such run, whatever a registered client's name is looked up for, the name is empty or accepted. */
  lemma LookupsUseAcceptedNames(steps: seq<Step>, i: nat)
    requires NoRefusedNameQueued(steps) && i < |Run(steps).active|
    ensures var c := Run(steps).active[i];
            c.name != [] ==> c.identified && c.aircraft && Accepted(c.names, c.name)
  {
    RunKeepsOk(steps);
    assert InOrder(Run(steps).active[i], NoRefusedNameQueued(steps));
  }

  /**
   * In every run whatever was queued, and for every client, registered or not: an aircraft's name is accepted, and
   * so is the name of every position stored.
   */
  lemma PositionsUseAcceptedNames(steps: seq<Step>)
    ensures forall c :: c in Run(steps).active + Run(steps).leaving && c.aircraft ==> c.identified && Accepted(c.names, c.name)
    ensures forall e :: e in Run(steps).log && e.record.AddPosition? ==> Accepted(e.client.names, e.record.name)
  {
    RunKeepsOk(steps);
    var s := Run(steps);
    forall c | c in s.active + s.leaving
      ensures ClientOk(c)
    {
      if c in s.active {
        assert InOrder(c, NoRefusedNameQueued(steps));
      }
    }
    assert forall e :: e in s.log ==> EntryOk(e);
  }

  /** In every run a write is under an unaccepted name exactly if its client held a refused one as no aircraft. */
  lemma UnacceptedWritesExactlyWhen(steps: seq<Step>, e: Entry)
    requires e in Run(steps).log
    ensures e.record.name != [] && !Accepted(e.client.names, e.record.name) <==> Borrows(e.client)
  {
    RunKeepsOk(steps);
    assert EntryOk(e);
  }

  lemma RunSnoc(steps: seq<Step>, step: Step)
    ensures Run(steps + [step]) == Apply(Run(steps), step)
  {
    assert (steps + [step])[..|steps|] == steps;
  }

  /** The only client there is, refused and then leaving. */
  function OneLeaving(c: Client, log: seq<Entry>): State { State([], [c], [], 1, 1, log) }

  lemma RefusalOfOnlyClient(name: Text, other: Text, q: Query)
    requires name != [] && name != other
    ensures var s := Apply(EMPTY, Connect([other], [], _ => q));
            Apply(s, Incoming(0, Some(Make(1, BIdentity(name))), q)) == OneLeaving(NewClient(0, [other]).(name := name), [])
  {
    var c := NewClient(0, [other]);
    var msg := Some(Make(1, BIdentity(name)));
    assert Apply(EMPTY, Connect([other], [], _ => q)) == State([c], [], [], 1, 1, []);
    assert Handle(c, msg, q) == Handled(c.(name := name), Leave, []);
    OnlyClientLeaves(c, c.(name := name), msg, q);
  }

  lemma OnlyClientLeaves(c: Client, c': Client, msg: Option<Message>, q: Query)
    requires Handle(c, msg, q) == Handled(c', Leave, [])
    ensures Apply(State([c], [], [], 1, 1, []), Incoming(0, msg, q)) == OneLeaving(c', [])
  {
    hide Handle;
    assert [c][0 := c'] == [c'] && [c'][..0] + [c'][1..] == [] && [] + [c'] == [c'];
    assert [] + Entries(c, []) == [];
  }

  lemma LeavingHandles(c: Client, msg: Option<Message>, q: Query, log: seq<Entry>)
    requires Handle(c, msg, q).effect == Stay
    ensures var h := Handle(c, msg, q);
            Apply(OneLeaving(c, log), Incoming(0, msg, q)) == OneLeaving(h.client, log + Entries(c, h.records))
  {
    hide Handle;
    assert [c][0 := Handle(c, msg, q).client] == [Handle(c, msg, q).client];
  }

  /** That happens: a refused client that says it is no aircraft, and then reports its status, before the cleanup. */
  lemma RefusedNameIsRecorded(name: Text, other: Text, q: Query, battery: byte, mah: Word32, voltage: Word32)
    requires name != [] && name != other
    ensures var identity, none := Some(Make(1, BIdentity(name))), Some(Make(2, BNonAircraft(0)));
            var status := Some(Make(3, BStatus(battery, mah, voltage)));
            var s := Run([Connect([other], [], _ => q), Incoming(0, identity, q), Incoming(0, none, q), Incoming(0, status, q)]);
            && |s.log| == 1 && s.log[0].record == AddStatus(name, battery, mah, voltage)
            && s.log[0].client.names == [other]
  {
    var identity, none := Some(Make(1, BIdentity(name))), Some(Make(2, BNonAircraft(0)));
    var status := Some(Make(3, BStatus(battery, mah, voltage)));
    var connect, one, two, three := Connect([other], [], _ => q), Incoming(0, identity, q), Incoming(0, none, q), Incoming(0, status, q);
    var c := NewClient(0, [other]).(name := name);
    BorrowerRecords(c, q, battery, mah, voltage);
    RefusalOfOnlyClient(name, other, q);
    LeavingHandles(c, none, q, []);
    LeavingHandles(c.(identified := true), status, q, [] + Entries(c, []));
    assert Run([]) == EMPTY;
    hide Apply, Handle, Run;
    FourSteps(connect, one, two, three);
  }

  lemma FourSteps(a: Step, b: Step, c: Step, d: Step)
    ensures Run([a, b, c, d]) == Apply(Apply(Apply(Apply(Run([]), a), b), c), d)
  {
    hide Apply, Run;
    RunSnoc([], a);
    RunSnoc([a], b);
    RunSnoc([a, b], c);
    RunSnoc([a, b, c], d);
    assert [] + [a] == [a] && [a] + [b] == [a, b] && [a, b] + [c] == [a, b, c] && [a, b, c] + [d] == [a, b, c, d];
  }

  lemma BorrowerRecords(c: Client, q: Query, battery: byte, mah: Word32, voltage: Word32)
    requires !c.identified && !c.aircraft
    ensures var c' := c.(identified := true);
            && Handle(c, Some(Make(2, BNonAircraft(0))), q) == Handled(c', Stay, [])
            && Handle(c', Some(Make(3, BStatus(battery, mah, voltage))), q)
            == Handled(c', Stay, [AddStatus(c.name, battery, mah, voltage)])
  {
  }

  // ------------------------------------------------------------ broadcasts

  /** c' has sent one message more than c: this one, with the next id of its own connection. */
  ghost predicate SentOneMore(c: Client, c': Client, typ: MsgType, body: Body) {
    c'.sent == c.sent + [Message(Low64(|c.sent| + 1), typ, body)]
  }

  /** A position report reaches every registered aircraft but its sender exactly once, and nobody else. */
  lemma ReportReachesTheOthers(steps: seq<Step>, i: nat, m: Message, q: Query)
    requires var s := Run(steps); i < |s.active| && s.active[i].identified && m.typ == PositionReport
    ensures var s, s' := Run(steps), Receive(Run(steps), i, Some(m), q);
            && |s'.active| == |s.active| && s'.leaving == s.leaving
            && forall j :: 0 <= j < |s.active| ==>
                 if j != i && s.active[j].aircraft then SentOneMore(s.active[j], s'.active[j], m.typ, m.body)
                 else s'.active[j] == s.active[j]
  {
    var s := Run(steps);
    forall j | 0 <= j < |s.active|
      ensures NextId(s.active[j].lastId) == Low64(|s.active[j].sent| + 1)
    {
      RegisteredOk(steps, j);
      NextIdCounts(|s.active[j].sent|);
    }
  }

  /** In a round of requests every registered client notes the very id that its own wire carried. */
  lemma RoundNotesOwnIds(steps: seq<Step>, qs: nat -> Query, i: nat)
    requires i < |Run(steps).active|
    ensures var c, c' := Run(steps).active[i], Apply(Run(steps), RttRound(qs)).active[i];
            && SentOneMore(c, c', RttRequest, BRttRequest)
            && c'.outstanding == c.outstanding + [Rtt(qs(i).now, c'.sent[|c.sent|].id)]
  {
    hide Run, SentOneMore, AllOk;
    RegisteredOk(steps, i);
    RequestNotesId(Run(steps).active[i], qs(i).now);
  }

  lemma RegisteredOk(steps: seq<Step>, i: nat)
    requires i < |Run(steps).active|
    ensures ClientOk(Run(steps).active[i])
  {
    RunKeepsOk(steps);
    hide Run;
    assert InOrder(Run(steps).active[i], NoRefusedNameQueued(steps));
  }

  lemma RequestNotesId(c: Client, now: Word64)
    requires ClientOk(c)
    ensures var c' := SendRtt(c, now);
            SentOneMore(c, c', RttRequest, BRttRequest) && c'.outstanding == c.outstanding + [Rtt(now, c'.sent[|c.sent|].id)]
  {
    NextIdCounts(|c.sent|);
  }

  /** The exception is real: a refused identity queued before registration leaves its name on a registered client. */
  lemma QueuedRefusalStays(name: Text, other: Text, q: nat -> Query)
    requires name != [] && name != other
    ensures var s := Apply(EMPTY, Connect([other], [Some(Make(1, BIdentity(name)))], q));
            |s.active| == 1 && s.active[0].name == name && !s.active[0].identified
  {
    var m := Some(Make(1, BIdentity(name)));
    var c := NewClient(0, [other]);
    var c' := c.(name := name);
    assert Handle(c, m, q(1)) == Handled(c', Leave, []);
    assert EMPTY.log + Entries(c, []) == EMPTY.log;
    assert Drain(EMPTY, c', [m][1..], q) == (EMPTY, c');
    assert Drain(EMPTY, c, [m], q) == (EMPTY, c');
  }
}

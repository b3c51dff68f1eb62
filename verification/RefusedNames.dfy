/** Which clients write under a refused name, told from the steps of a run. */
module RefusedNames {
  import opened Messages
  import opened Session
  import opened Registry

  /** Whether messages queued before an unidentified client with this name is registered make it a borrower. */
  predicate QueueBorrows(names: seq<Text>, name: Text, queued: seq<Option<Message>>)
    decreases |queued|
  {
    if queued == [] then false
    else if queued[0] == None then QueueBorrows(names, name, queued[1..])
    else
      var m := queued[0].value;
      if m.typ == Closed then QueueBorrows(names, name, queued[1..])
      else if IsIdentity(m) then
        !Accepted(names, m.body.name) && QueueBorrows(names, m.body.name, queued[1..])
      else if m.typ == IdentityNonAircraft then name != [] && !Accepted(names, name)
      else QueueBorrows(names, name, queued[1..])
  }

  /** The client that a step makes a borrower: it reads identity_non_aircraft while it holds a refused name. */
  function NewBorrower(s: State, step: Step): set<nat> {
    match step
    case Connect(names, queued, _) => if QueueBorrows(names, [], queued) then {s.next} else {}
    case Incoming(i, msg, _) =>
      if i < |s.active| + |s.leaving| && BecomesBorrower(At(s, i), msg) then {At(s, i).uid} else {}
    case _ => {}
  }

  /** The serial numbers of all clients that some step of a run made borrowers. */
  function Borrowers(steps: seq<Step>): set<nat>
    decreases |steps|
  {
    if steps == [] then {} else
      var before := steps[..|steps| - 1];
      Borrowers(before) + NewBorrower(Run(before), steps[|steps| - 1])
  }

  // ------------------------------------------------------------ the invariant

  function All(s: State): seq<Client> { s.active + s.leaving }

  ghost predicate Marked(c: Client, next: nat, marks: set<nat>) {
    ClientOk(c) && c.uid < next && (Borrows(c) <==> c.uid in marks)
  }

  ghost predicate Inv(s: State, marks: set<nat>) {
    People(s, marks) && (forall u :: u in marks ==> u < s.next) && LogMarked(s.log, marks)
  }

  ghost predicate People(s: State, marks: set<nat>) { forall c :: c in All(s) ==> Marked(c, s.next, marks) }

  ghost predicate LogMarked(log: seq<Entry>, marks: set<nat>) {
    forall e :: e in log && Borrows(e.client) ==> e.client.uid in marks
  }

  /** No serial number twice among the clients that have a connection. */
  ghost predicate Distinct(s: State) {
    forall i, j :: 0 <= i < j < |All(s)| ==> All(s)[i].uid != All(s)[j].uid
  }

  lemma DistinctInRun(steps: seq<Step>)
    ensures Distinct(Run(steps))
  {
    var s := Run(steps);
    forall u: nat
      ensures multiset(Uids(s.active))[u] + multiset(Uids(s.leaving))[u] <= 1
    {
      EachInOnePlace(steps, u);
    }
    OnceMeansDistinct(s);
  }

  lemma OnceMeansDistinct(s: State)
    requires forall u: nat :: multiset(Uids(s.active))[u] + multiset(Uids(s.leaving))[u] <= 1
    ensures Distinct(s)
  {
    var us := Uids(s.active) + Uids(s.leaving);
    assert |us| == |All(s)| && forall i :: 0 <= i < |us| ==> us[i] == All(s)[i].uid;
    assert multiset(us) == multiset(Uids(s.active)) + multiset(Uids(s.leaving));
    hide Uids, All;
    forall i, j | 0 <= i < j < |All(s)|
      ensures All(s)[i].uid != All(s)[j].uid
    {
      if us[i] == us[j] {
        Twice(us, i, j);
      }
    }
  }

  lemma Twice(us: seq<nat>, i: nat, j: nat)
    requires i < j < |us| && us[i] == us[j]
    ensures multiset(us)[us[i]] >= 2
  {
    assert us == us[..j] + us[j..];
    assert us[..j][i] == us[i] && us[j..][0] == us[j];
    assert us[i] in us[..j] && us[i] in us[j..];
  }

  /** The same clients by serial number, name and flags; what they have sent may differ. */
  ghost predicate SamePeople(a: seq<Client>, b: seq<Client>) {
    && |a| == |b|
    && forall i :: 0 <= i < |a| ==>
         && b[i].uid == a[i].uid && b[i].names == a[i].names && b[i].name == a[i].name
         && b[i].identified == a[i].identified && b[i].aircraft == a[i].aircraft
  }

  lemma BroadcastSame(cs: seq<Client>, typ: MsgType, body: Body, except: nat)
    ensures SamePeople(cs, Broadcast(cs, typ, body, except))
  {
    SendsSame(cs, typ, body);
    hide SendAs;
  }

  lemma SendsSame(cs: seq<Client>, typ: MsgType, body: Body)
    ensures forall i :: 0 <= i < |cs| ==>
              var c, c' := cs[i], SendAs(cs[i], typ, body);
              && c'.uid == c.uid && c'.names == c.names && c'.name == c.name
              && c'.identified == c.identified && c'.aircraft == c.aircraft
  {
  }

  lemma RoundsSame(cs: seq<Client>, qs: nat -> Query)
    ensures SamePeople(cs, RttAll(cs, qs)) && SamePeople(cs, CommandAll(cs, qs)) && SamePeople(cs, SettingsAll(cs, qs))
  {
  }

  /** Whatever only sends leaves everybody marked as before. */
  lemma SameKeeps(s: State, active: seq<Client>, marks: set<nat>)
    requires People(s, marks) && SamePeople(s.active, active)
    requires forall c :: c in active ==> ClientOk(c)
    ensures People(s.(active := active), marks)
  {
    forall c | c in active + s.leaving
      ensures Marked(c, s.next, marks)
    {
      if c in active {
        var i :| 0 <= i < |active| && active[i] == c;
        assert s.active[i] in All(s);
      } else {
        assert c in All(s);
      }
    }
  }

  lemma LogGrows(log: seq<Entry>, c: Client, records: seq<Record>, marks: set<nat>)
    requires LogMarked(log, marks) && (Borrows(c) ==> c.uid in marks)
    ensures LogMarked(log + Entries(c, records), marks)
  {
    var more := Entries(c, records);
    forall e | e in log + more && Borrows(e.client)
      ensures e.client.uid in marks
    {
      if e !in log {
        assert e in more;
      }
    }
  }

  lemma PlacedKeeps(s: State, i: nat, msg: Option<Message>, q: Query, marks: set<nat>)
    requires i < |All(s)| && Inv(s, marks) && Distinct(s)
    ensures var c := At(s, i);
            Inv(Placed(s, i, Handle(c, msg, q)), marks + if BecomesBorrower(c, msg) then {c.uid} else {})
  {
    var c := At(s, i);
    var h := Handle(c, msg, q);
    assert c == All(s)[i] && c in All(s);
    IdentityFinal(c, msg, q);
    HandleKeeps(c, msg, q);
    BorrowsExactlyWhen(c, msg, q);
    hide Handle, Borrows, ClientOk, BecomesBorrower;
    var marks' := marks + if BecomesBorrower(c, msg) then {c.uid} else {};
    var s' := Placed(s, i, h);
    assert All(s') == All(s)[i := h.client];
    LogGrows(s.log, c, h.records, marks');
    forall d | d in All(s')
      ensures Marked(d, s.next, marks')
    {
      var j :| 0 <= j < |All(s)| && All(s')[j] == d;
      if j != i {
        assert All(s)[j] in All(s) && All(s)[j].uid != c.uid;
      }
    }
  }

  lemma LeaveKeeps(s: State, i: nat, marks: set<nat>)
    requires i < |s.active| && Inv(s, marks)
    ensures Inv(ClientDisconnected(s, i), marks)
  {
    var s' := ClientDisconnected(s, i);
    forall c | c in All(s')
      ensures c in All(s)
    {
      if c in s'.active {
        assert c in s.active;
      } else if c !in s.leaving {
        assert c == s.active[i];
      }
    }
  }

  lemma ReceiveKeeps(s: State, i: nat, msg: Option<Message>, q: Query, marks: set<nat>)
    requires Inv(s, marks) && Distinct(s)
    ensures Inv(Receive(s, i, msg, q), marks + NewBorrower(s, Incoming(i, msg, q)))
  {
    if i < |All(s)| {
      var h := Handle(At(s, i), msg, q);
      PlacedKeeps(s, i, msg, q, marks);
      EffectsExactlyWhen(At(s, i), msg, q);
      var s', marks' := Placed(s, i, h), marks + NewBorrower(s, Incoming(i, msg, q));
      hide Handle, People, LogMarked, BecomesBorrower, Broadcast;
      match h.effect
      case Stay =>
      case Leave =>
        if i < |s.active| {
          LeaveKeeps(s', i, marks');
        }
      case Reflect => ReflectKeeps(s', msg.value, if i < |s.active| then i else |s.active|, marks');
    }
  }

  lemma ReflectKeeps(s: State, m: Message, except: nat, marks: set<nat>)
    requires People(s, marks)
    ensures People(Reflected(s, m, except), marks)
  {
    BroadcastSame(s.active, m.typ, m.body, except);
    var active := Broadcast(s.active, m.typ, m.body, except);
    forall i | 0 <= i < |active|
      ensures ClientOk(active[i])
    {
      assert s.active[i] in All(s);
      SendKeepsNumbered(s.active[i], m.typ, m.body);
    }
    SameKeeps(s, active, marks);
  }

  // ------------------------------------------------------------ a new connection

  /** What a client that has these messages queued ends up as. */
  predicate Ends(c: Client, queued: seq<Option<Message>>) {
    if c.identified then Borrows(c) else QueueBorrows(c.names, c.name, queued)
  }

  lemma EndsNext(c: Client, queued: seq<Option<Message>>, q: Query)
    requires ClientOk(c) && queued != []
    ensures Ends(Handle(c, queued[0], q).client, queued[1..]) <==> Ends(c, queued)
  {
    BorrowsExactlyWhen(c, queued[0], q);
    IdentityFinal(c, queued[0], q);
    if !c.identified {
      WhileUnidentified(c, queued[0], q);
    }
    hide Handle;
  }

  lemma {:induction false} DrainKeeps(s: State, c: Client, queued: seq<Option<Message>>, q: nat -> Query, marks: set<nat>)
    requires People(s, marks) && ClientOk(c)
    requires LogMarked(s.log, if Ends(c, queued) then marks + {c.uid} else marks)
    ensures var (s', c') := Drain(s, c, queued, q);
            && People(s', marks) && s'.next == s.next && c'.uid == c.uid
            && LogMarked(s'.log, if Ends(c, queued) then marks + {c.uid} else marks)
            && ClientOk(c') && (Borrows(c') <==> Ends(c, queued))
    decreases |queued|
  {
    if queued == [] {
      assert c.identified || !Borrows(c);
    } else {
      var msg, query := queued[0], q(|queued|);
      var h := Handle(c, msg, query);
      EndsNext(c, queued, query);
      HandleKeeps(c, msg, query);
      IdentityFinal(c, msg, query);
      EffectsExactlyWhen(c, msg, query);
      QueuedLog(s.log, c, queued, query, marks);
      hide Handle, ClientOk, Ends, Broadcast, LogMarked, Borrows, People;
      if h.effect == Reflect {
        PeopleLogged(s, c, h, marks);
        ReflectKeeps(Logged(s, c, h), msg.value, |s.active|, marks);
      } else {
        PeopleLogged(s, c, h, marks);
      }
      DrainKeeps(AfterQueued(s, c, h, msg), h.client, queued[1..], q, marks);
    }
  }

  lemma PeopleLogged(s: State, c: Client, h: Handled, marks: set<nat>)
    requires People(s, marks)
    ensures People(Logged(s, c, h), marks)
  {
  }

  lemma QueuedLog(log: seq<Entry>, c: Client, queued: seq<Option<Message>>, q: Query, marks: set<nat>)
    requires queued != []
    requires LogMarked(log, if Ends(c, queued) then marks + {c.uid} else marks)
    ensures LogMarked(log + Entries(c, Handle(c, queued[0], q).records), if Ends(c, queued) then marks + {c.uid} else marks)
  {
    var records := Handle(c, queued[0], q).records;
    RecordsCarryName(c, queued[0], q);
    if records == [] {
      assert log + Entries(c, records) == log;
    } else {
      assert records[0] in records;
      LogGrows(log, c, records, if Ends(c, queued) then marks + {c.uid} else marks);
    }
  }

  lemma ConnectKeeps(s: State, names: seq<Text>, queued: seq<Option<Message>>, q: nat -> Query, marks: set<nat>)
    requires Inv(s, marks)
    ensures Inv(Apply(s, Connect(names, queued, q)), marks + NewBorrower(s, Connect(names, queued, q)))
  {
    var c := NewClient(s.next, names);
    var step := Connect(names, queued, q);
    var marks' := marks + NewBorrower(s, step);
    DrainKeeps(s, c, queued, q, marks);
    var (s', c') := Drain(s, c, queued, q);
    hide Drain, QueueBorrows, ClientOk, Borrows;
    forall d | d in All(Apply(s, step))
      ensures Marked(d, s.next + 1, marks')
    {
      assert d == c' || d in All(s');
    }
  }

  lemma StepKeeps(s: State, step: Step, marks: set<nat>)
    requires Inv(s, marks) && Distinct(s)
    requires forall c :: c in Apply(s, step).active ==> ClientOk(c)
    ensures Inv(Apply(s, step), marks + NewBorrower(s, step))
  {
    match step
    case Connect(names, queued, q) => ConnectKeeps(s, names, queued, q, marks);
    case Incoming(i, msg, q) => ReceiveKeeps(s, i, msg, q, marks);
    case Cleanup =>
      assert forall c :: c in s.active ==> c in All(s);
    case RttRound(qs) =>
      RoundsSame(s.active, qs);
      SameKeeps(s, RttAll(s.active, qs), marks);
    case CommandRound(qs) =>
      RoundsSame(s.active, qs);
      SameKeeps(s, CommandAll(s.active, qs), marks);
    case SettingsRound(qs) =>
      RoundsSame(s.active, qs);
      SameKeeps(s, SettingsAll(s.active, qs), marks);
    case ListRound(servers) =>
      BroadcastSame(s.active, ServerList, BServerList(servers), |s.active|);
      SameKeeps(s, Broadcast(s.active, ServerList, BServerList(servers), |s.active|), marks);
  }

  lemma {:induction false} RunKeeps(steps: seq<Step>)
    ensures Inv(Run(steps), Borrowers(steps))
    decreases |steps|
  {
    if steps != [] {
      var before := steps[..|steps| - 1];
      RunKeeps(before);
      DistinctInRun(before);
      RunKeepsOk(steps);
      forall c | c in Run(steps).active
        ensures ClientOk(c)
      {
        assert InOrder(c, NoRefusedNameQueued(steps));
      }
      StepKeeps(Run(before), steps[|steps| - 1], Borrowers(before));
    }
  }

  // ------------------------------------------------------------ what it means

  lemma AtIsMarked(s: State, i: nat, marks: set<nat>)
    requires i < |s.active| + |s.leaving| && Inv(s, marks)
    ensures Marked(At(s, i), s.next, marks)
  {
    assert At(s, i) == All(s)[i] && All(s)[i] in All(s);
  }

  /** In every run: a client is a borrower exactly if some step made it one, in its own queue or by a message read. */
  lemma BorrowersExactlyWhen(steps: seq<Step>, i: nat)
    requires i < |Run(steps).active| + |Run(steps).leaving|
    ensures Borrows(At(Run(steps), i)) <==> At(Run(steps), i).uid in Borrowers(steps)
  {
    RunKeeps(steps);
    AtIsMarked(Run(steps), i, Borrowers(steps));
  }

  /**
   * So after every run the next message makes a record under an unaccepted name exactly if such a step came before for
   * its client, and it is a message that is recorded.
   */
  lemma NextRecordExactlyWhen(steps: seq<Step>, i: nat, msg: Option<Message>, q: Query)
    requires i < |Run(steps).active| + |Run(steps).leaving|
    ensures MakesUnacceptedRecord(At(Run(steps), i), msg, q)
       <==> At(Run(steps), i).uid in Borrowers(steps) && IsRecorded(At(Run(steps), i), msg)
  {
    RunKeeps(steps);
    AtIsMarked(Run(steps), i, Borrowers(steps));
    UnacceptedRecordExactlyWhen(At(Run(steps), i), msg, q);
    hide Run, Borrowers, Handle;
  }

  /** And every write there ever was under an unaccepted name is by a client that a step had made a borrower. */
  lemma UnacceptedWritesNeedBorrower(steps: seq<Step>, e: Entry)
    requires e in Run(steps).log && e.record.name != [] && !Accepted(e.client.names, e.record.name)
    ensures e.client.uid in Borrowers(steps)
  {
    RunKeeps(steps);
    UnacceptedWritesExactlyWhen(steps, e);
  }
}

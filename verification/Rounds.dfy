/** The server's periodic rounds, and every client's own history of calls within a run of the whole registry. */
module Rounds {
  import opened Words
  import opened Messages
  import opened Session
  import opened Registry
  import opened RefusedNames
  import A = Answers
  import E = Resend

  // ------------------------------------------------------------ one client's calls in a run

  /** The queued reports of a new client that are passed on before it is registered. */
  function PassedOn(c: Client, queued: seq<Option<Message>>, q: nat -> Query): seq<E.Event>
    decreases |queued|
  {
    if queued == [] then [] else
      var msg := queued[0];
      var h := Handle(c, msg, q(|queued|));
      (if h.effect == Reflect && msg.Some? then [E.Broadcast(msg.value.typ, msg.value.body)] else [])
      + PassedOn(h.client, queued[1..], q)
  }

  /** What a new client handles itself. */
  function OwnQueue(queued: seq<Option<Message>>, q: nat -> Query): seq<E.Event>
    decreases |queued|
  {
    if queued == [] then [] else [E.Incoming(queued[0], q(|queued|))] + OwnQueue(queued[1..], q)
  }

  /** What a step calls on the i-th client: rounds reach the registered ones, broadcasts the registered aircraft. */
  function Calls(s: State, step: Step, i: nat): seq<E.Event>
    requires i < |All(s)|
  {
    var registered := i < |s.active|;
    var hears := registered && All(s)[i].aircraft;
    match step
    case Connect(names, queued, q) => if hears then PassedOn(NewClient(s.next, names), queued, q) else []
    case Incoming(k, msg, q) =>
      if k == i then [E.Incoming(msg, q)]
      else if hears && k < |All(s)| && Handle(All(s)[k], msg, q).effect == Reflect && msg.Some? then
        [E.Broadcast(msg.value.typ, msg.value.body)]
      else []
    case Cleanup => []
    case RttRound(qs) => if registered then [E.Request(qs(i).now)] else []
    case CommandRound(qs) => if registered then [E.Poll(qs(i))] else []
    case SettingsRound(qs) => if registered then [E.SettingsRound(qs(i))] else []
    case ListRound(servers) => if hears then [E.Broadcast(ServerList, BServerList(servers))] else []
  }

  /** Where the client with a serial number is, or the length if it has no connection. */
  function Place(s: State, u: nat): (i: nat)
    ensures i <= |All(s)|
    ensures i < |All(s)| ==> All(s)[i].uid == u
    ensures i == |All(s)| ==> forall j :: 0 <= j < |All(s)| ==> All(s)[j].uid != u
  {
    First(All(s), u)
  }

  function First(cs: seq<Client>, u: nat): (i: nat)
    ensures i <= |cs|
    ensures i < |cs| ==> cs[i].uid == u
    ensures forall j :: 0 <= j < i ==> cs[j].uid != u
  {
    if cs == [] then 0 else if cs[0].uid == u then 0 else 1 + First(cs[1..], u)
  }

  /** All calls of a run on the client with a serial number, from its connection on. */
  function History(steps: seq<Step>, u: nat): seq<E.Event>
    decreases |steps|
  {
    if steps == [] then [] else
      var before, step := steps[..|steps| - 1], steps[|steps| - 1];
      var s := Run(before);
      if step.Connect? && u == s.next then OwnQueue(step.queued, step.queries)
      else if Place(s, u) < |All(s)| then History(before, u) + Calls(s, step, Place(s, u))
      else History(before, u)
  }

  // ------------------------------------------------------------ playing calls

  lemma {:induction false} PlayedConcat(c: Client, a: seq<E.Event>, b: seq<E.Event>)
    ensures E.Played(c, a + b) == E.Played(E.Played(c, a), b)
    decreases |b|
  {
    hide E.Happened;
    if b == [] {
      assert a + b == a;
    } else {
      assert (a + b)[..|a| + |b| - 1] == a + b[..|b| - 1];
      PlayedConcat(c, a, b[..|b| - 1]);
    }
  }

  lemma PlayedOne(c: Client, e: E.Event)
    ensures E.Played(c, [e]) == E.Happened(c, e) && E.Played(c, []) == c
  {
    assert [e][..0] == [];
  }

  /** The new client of a connect, and what the others hear of it. */
  lemma {:induction false} DrainPlays(s: State, c: Client, queued: seq<Option<Message>>, q: nat -> Query)
    ensures var (s', c') := Drain(s, c, queued, q);
            && c' == E.Played(c, OwnQueue(queued, q))
            && |s'.active| == |s.active| && s'.leaving == s.leaving
            && forall i :: 0 <= i < |s.active| ==>
                 s'.active[i] == E.Played(s.active[i], if s.active[i].aircraft then PassedOn(c, queued, q) else [])
    decreases |queued|
  {
    if queued == [] {
      assert forall d :: E.Played(d, []) == d;
    } else {
      var msg, query := queued[0], q(|queued|);
      var h := Handle(c, msg, query);
      var s1 := AfterQueued(s, c, h, msg);
      var first := if h.effect == Reflect && msg.Some? then [E.Broadcast(msg.value.typ, msg.value.body)] else [];
      var later := PassedOn(h.client, queued[1..], q);
      EffectsExactlyWhen(c, msg, query);
      PlayedOne(c, E.Incoming(msg, query));
      PlayedConcat(c, [E.Incoming(msg, query)], OwnQueue(queued[1..], q));
      DrainPlays(s1, h.client, queued[1..], q);
      FirstHeard(s, c, msg, query);
      hide Handle, AfterQueued;
      var s' := Drain(s, c, queued, q).0;
      forall i | 0 <= i < |s.active|
        ensures s'.active[i] == E.Played(s.active[i], if s.active[i].aircraft then PassedOn(c, queued, q) else [])
      {
        PlayedConcat(s.active[i], first, later);
      }
    }
  }

  lemma FirstHeard(s: State, c: Client, msg: Option<Message>, q: Query)
    ensures var h := Handle(c, msg, q);
            var s1 := AfterQueued(s, c, h, msg);
            && |s1.active| == |s.active| && s1.leaving == s.leaving
            && forall i :: 0 <= i < |s.active| ==>
                 && s1.active[i].aircraft == s.active[i].aircraft
                 && s1.active[i] == if s.active[i].aircraft && h.effect == Reflect && msg.Some?
                                    then E.Played(s.active[i], [E.Broadcast(msg.value.typ, msg.value.body)])
                                    else E.Played(s.active[i], [])
  {
    EffectsExactlyWhen(c, msg, q);
    hide Handle;
    if msg.Some? {
      forall i | 0 <= i < |s.active|
        ensures E.Played(s.active[i], [E.Broadcast(msg.value.typ, msg.value.body)])
             == E.Happened(s.active[i], E.Broadcast(msg.value.typ, msg.value.body))
      {
        PlayedOne(s.active[i], E.Broadcast(msg.value.typ, msg.value.body));
      }
    }
  }

  // ------------------------------------------------------------ one step

  /** Which client of before is at the j-th place after a step; for a new one, none. */
  function Origin(s: State, step: Step, j: nat): nat {
    var n := |s.active|;
    match step
    case Connect(_, _, _) => if j < n then j else if j == n then |All(s)| else j - 1
    case Incoming(k, msg, q) =>
      if k < n && Handle(All(s)[k], msg, q).effect == Leave then
        if j == |All(s)| - 1 then k else if j < k then j else j + 1
      else j
    case _ => j
  }

  /** Every client after a step is one of before, with the step's calls played on it, or the new one with its queue. */
  lemma StepPlays(s: State, step: Step, j: nat)
    requires j < |All(Apply(s, step))|
    ensures var c, i := All(Apply(s, step))[j], Origin(s, step, j);
            if i < |All(s)| then c == E.Played(All(s)[i], Calls(s, step, i))
            else step.Connect? && c == E.Played(NewClient(s.next, step.names), OwnQueue(step.queued, step.queries))
  {
    match step
    case Connect(names, queued, q) =>
      DrainPlays(s, NewClient(s.next, names), queued, q);
      hide Drain, PassedOn, OwnQueue;
      assert forall c :: E.Played(c, []) == c;
    case Incoming(k, msg, q) => ReceivePlays(s, k, msg, q, j);
    case _ => RoundPlays(s, step, j);
  }

  lemma RoundPlays(s: State, step: Step, j: nat)
    requires j < |All(Apply(s, step))| && !step.Connect? && !step.Incoming?
    ensures All(Apply(s, step))[j] == E.Played(All(s)[j], Calls(s, step, j))
  {
    var c := All(s)[j];
    match step
    case Cleanup =>
    case RttRound(qs) => PlayedOne(c, E.Request(qs(j).now));
    case CommandRound(qs) => PlayedOne(c, E.Poll(qs(j)));
    case SettingsRound(qs) => PlayedOne(c, E.SettingsRound(qs(j)));
    case ListRound(servers) => PlayedOne(c, E.Broadcast(ServerList, BServerList(servers)));
  }

  lemma ReceivePlays(s: State, k: nat, msg: Option<Message>, q: Query, j: nat)
    requires j < |All(Apply(s, Incoming(k, msg, q)))|
    ensures var step := Incoming(k, msg, q);
            var i := Origin(s, step, j);
            i < |All(s)| && All(Apply(s, step))[j] == E.Played(All(s)[i], Calls(s, step, i))
  {
    assert forall c :: E.Played(c, []) == c;
    if k < |All(s)| {
      var h := Handle(All(s)[k], msg, q);
      assert At(s, k) == All(s)[k];
      EffectsExactlyWhen(At(s, k), msg, q);
      PlayedOne(All(s)[k], E.Incoming(msg, q));
      if h.effect == Reflect {
        ReflectPlays(s, k, msg, q, j);
      } else {
        LeavePlays(s, k, msg, q, j);
      }
    }
  }

  lemma ReflectPlays(s: State, k: nat, msg: Option<Message>, q: Query, j: nat)
    requires k < |All(s)| && Handle(All(s)[k], msg, q).effect == Reflect && j < |All(s)|
    ensures var step := Incoming(k, msg, q);
            |All(Apply(s, step))| == |All(s)| && All(Apply(s, step))[j] == E.Played(All(s)[j], Calls(s, step, j))
  {
    assert At(s, k) == All(s)[k];
    EffectsExactlyWhen(At(s, k), msg, q);
    IdentityFinal(At(s, k), msg, q);
    PlayedOne(All(s)[j], E.Incoming(msg, q));
    PlayedOne(All(s)[j], E.Broadcast(msg.value.typ, msg.value.body));
    assert forall c :: E.Played(c, []) == c;
    hide E.Played;
  }

  lemma LeavePlays(s: State, k: nat, msg: Option<Message>, q: Query, j: nat)
    requires k < |All(s)| && Handle(All(s)[k], msg, q).effect != Reflect
    requires j < |All(Apply(s, Incoming(k, msg, q)))|
    ensures var step := Incoming(k, msg, q);
            var i := Origin(s, step, j);
            i < |All(s)| && All(Apply(s, step))[j] == E.Played(All(s)[i], Calls(s, step, i))
  {
    assert At(s, k) == All(s)[k];
    PlayedOne(All(s)[k], E.Incoming(msg, q));
    assert forall c :: E.Played(c, []) == c;
    hide E.Played, Handle;
  }

  // ------------------------------------------------------------ whole runs

  ghost predicate Traced(steps: seq<Step>, c: Client) {
    c == E.Played(NewClient(c.uid, c.names), History(steps, c.uid))
  }

  lemma {:induction false} PlayedKeepsWho(c: Client, events: seq<E.Event>)
    ensures E.Played(c, events).uid == c.uid && E.Played(c, events).names == c.names
    decreases |events|
  {
    if events != [] {
      var before, e := events[..|events| - 1], events[|events| - 1];
      PlayedKeepsWho(c, before);
      if e.Incoming? {
        IdentityFinal(E.Played(c, before), e.msg, e.query);
      }
      hide Handle;
    }
  }

  lemma PlaceOf(s: State, i: nat)
    requires i < |All(s)| && Distinct(s)
    ensures Place(s, All(s)[i].uid) == i
  {
  }

  lemma HistoryGrows(steps: seq<Step>, i: nat)
    requires steps != []
    requires var s := Run(steps[..|steps| - 1]); i < |All(s)| && Distinct(s) && All(s)[i].uid < s.next
    ensures var before, step := steps[..|steps| - 1], steps[|steps| - 1];
            var s := Run(before);
            History(steps, All(s)[i].uid) == History(before, All(s)[i].uid) + Calls(s, step, i)
  {
    PlaceOf(Run(steps[..|steps| - 1]), i);
  }

  lemma TracedNext(steps: seq<Step>, j: nat)
    requires steps != [] && j < |All(Run(steps))|
    requires var s := Run(steps[..|steps| - 1]);
             Distinct(s) && forall c :: c in All(s) ==> Traced(steps[..|steps| - 1], c) && c.uid < s.next
    ensures Traced(steps, All(Run(steps))[j])
  {
    var before, step := steps[..|steps| - 1], steps[|steps| - 1];
    var s, i := Run(before), Origin(Run(before), step, j);
    StepPlays(s, step, j);
    if i < |All(s)| {
      var c := All(s)[i];
      assert c in All(s);
      PlayedKeepsWho(c, Calls(s, step, i));
      HistoryGrows(steps, i);
      hide Run, Apply, History, Calls, Origin, E.Played;
      PlayedConcat(NewClient(c.uid, c.names), History(before, c.uid), Calls(s, step, i));
    } else {
      PlayedKeepsWho(NewClient(s.next, step.names), OwnQueue(step.queued, step.queries));
    }
  }

  /** In every run each client that has a connection is what its own history makes of a new client. */
  lemma {:induction false} HistoryPlays(steps: seq<Step>)
    ensures forall c :: c in All(Run(steps)) ==> Traced(steps, c) && c.uid < Run(steps).next
    decreases |steps|
  {
    RunKeeps(steps);
    var s := Run(steps);
    if steps != [] {
      HistoryPlays(steps[..|steps| - 1]);
      DistinctInRun(steps[..|steps| - 1]);
      forall j | 0 <= j < |All(s)|
        ensures Traced(steps, All(s)[j])
      {
        TracedNext(steps, j);
      }
    }
    hide Run, Traced, Borrows, ClientOk;
  }

  // ------------------------------------------------------------ the rounds

  lemma RegisteredInRun(steps: seq<Step>, i: nat)
    requires i < |Run(steps).active|
    ensures var c := Run(steps).active[i]; ClientOk(c) && Traced(steps, c) && c.uid < Run(steps).next
    ensures Distinct(Run(steps)) && All(Run(steps))[i] == Run(steps).active[i]
  {
    HistoryPlays(steps);
    RunKeeps(steps);
    DistinctInRun(steps);
    var c := Run(steps).active[i];
    assert All(Run(steps))[i] == c && c in All(Run(steps));
    hide Run, Traced;
    assert Marked(c, Run(steps).next, Borrowers(steps));
  }

  /** In every run a command round sends each registered client its due command with its next id, or nothing; no more. */
  lemma CommandRoundSends(steps: seq<Step>, qs: nat -> Query, i: nat)
    requires i < |Run(steps).active|
    ensures var s, s' := Run(steps), Apply(Run(steps), CommandRound(qs));
            && |s'.active| == |s.active| && s' == s.(active := s'.active)
            && s'.active[i].sent == s.active[i].sent + A.NumberedFrom(|s.active[i].sent|, A.DueCommand(s.active[i], qs(i)))
  {
    hide Run, ClientOk, SendCommand, A.DueCommand, Distinct, Traced;
    RegisteredInRun(steps, i);
    A.CommandAdds(Run(steps).active[i], qs(i));
  }

  /** And a round of settings sends each its stored ones, every time. */
  lemma SettingsRoundSends(steps: seq<Step>, qs: nat -> Query, i: nat)
    requires i < |Run(steps).active|
    ensures var s, s' := Run(steps), Apply(Run(steps), SettingsRound(qs));
            && |s'.active| == |s.active| && s' == s.(active := s'.active)
            && s'.active[i].sent == s.active[i].sent + A.NumberedFrom(|s.active[i].sent|, A.StoredSettings(qs(i)))
  {
    hide Run, ClientOk, SendSmm, A.StoredSettings, Distinct, Traced;
    RegisteredInRun(steps, i);
    A.SettingsAdd(Run(steps).active[i], qs(i));
  }

  /** A list goes to each registered aircraft, and to nobody else. */
  lemma ListRoundSends(steps: seq<Step>, servers: seq<Server>, i: nat)
    requires i < |Run(steps).active|
    ensures var s, s' := Run(steps), Apply(Run(steps), ListRound(servers));
            && |s'.active| == |s.active| && s' == s.(active := s'.active)
            && s'.active[i].sent == s.active[i].sent
                                  + if s.active[i].aircraft then A.NumberedFrom(|s.active[i].sent|, [BServerList(servers)]) else []
  {
    hide Run, ClientOk, Distinct, Traced;
    RegisteredInRun(steps, i);
    A.AddsOne(Run(steps).active[i], BServerList(servers));
    assert Run(steps).active[i].sent + [] == Run(steps).active[i].sent;
  }

  /** A round of requests sends each registered client one, whoever it is. */
  lemma RequestRoundSends(steps: seq<Step>, qs: nat -> Query, i: nat)
    requires i < |Run(steps).active|
    ensures var s, s' := Run(steps), Apply(Run(steps), RttRound(qs));
            && |s'.active| == |s.active| && s' == s.(active := s'.active)
            && s'.active[i].sent == s.active[i].sent + A.NumberedFrom(|s.active[i].sent|, [BRttRequest])
            && s'.active[i].outstanding
            == s.active[i].outstanding + [Rtt(qs(i).now, (|s.active[i].sent| + 1) % 18446744073709551616)]
  {
    hide Run, ClientOk, Distinct, Traced;
    RegisteredInRun(steps, i);
    var c := Run(steps).active[i];
    A.AddsOne(c, BRttRequest);
    assert A.NumberedFrom(|c.sent|, [BRttRequest])[0].id == (|c.sent| + 1) % 18446744073709551616;
    assert Send(c, BRttRequest).sent[|c.sent|].id == Send(c, BRttRequest).lastId;
  }

  // ------------------------------------------------------------ resending, in the server

  function Fresh(c: Client): Client { NewClient(c.uid, c.names) }

  /** What the command lookups for a client have given so far in a run. */
  function LookedUp(steps: seq<Step>, c: Client): seq<Query> { E.Lookups(Fresh(c), History(steps, c.uid)) }

  /** Every command round is a lookup for every registered client. */
  lemma RoundIsLookup(steps: seq<Step>, qs: nat -> Query, i: nat)
    requires i < |Run(steps).active|
    ensures var c := Run(steps).active[i];
            LookedUp(steps + [CommandRound(qs)], c) == LookedUp(steps, c) + [qs(i)]
  {
    hide Run, History, Distinct, ClientOk, Traced;
    var after, c := steps + [CommandRound(qs)], Run(steps).active[i];
    assert after[..|steps|] == steps && after[|steps|] == CommandRound(qs);
    RegisteredInRun(steps, i);
    HistoryGrows(after, i);
    PollLooksUp(Fresh(c), History(steps, c.uid), qs(i));
  }

  lemma PollLooksUp(c: Client, events: seq<E.Event>, q: Query)
    ensures E.Lookups(c, events + [E.Poll(q)]) == E.Lookups(c, events) + [q]
  {
    assert (events + [E.Poll(q)])[..|events|] == events;
  }

  /** In every run the first round that finds another command for a registered client than was found last sends it. */
  lemma RoundSendsChange(steps: seq<Step>, qs: nat -> Query, i: nat)
    requires i < |Run(steps).active|
    requires qs(i).command.Some? && qs(i).command.value.dbid != E.LastSeen(0, LookedUp(steps, Run(steps).active[i]))
    ensures var c, c' := Run(steps).active[i], Apply(Run(steps), CommandRound(qs)).active[i];
            c'.sent == c.sent + A.NumberedFrom(|c.sent|, [A.CommandOf(qs(i).command.value)])
  {
    var c := Run(steps).active[i];
    RegisteredInRun(steps, i);
    E.RemembersLastSeen(Fresh(c), History(steps, c.uid));
    CommandRoundSends(steps, qs, i);
    hide Run, History, Apply;
  }

  lemma CommandsOfHistory(c: Client, events: seq<E.Event>)
    requires c == E.Played(Fresh(c), events)
    ensures E.Commands(c.sent) == E.WireForm(E.Sends(Fresh(c), events))
  {
    hide E.Played, E.Sends, E.WireForm;
    E.SendsAreOnTheWire(Fresh(c), events);
    assert E.Commands([]) == [];
    hide E.Commands;
  }

  /**
   * In every run, for every client that has a connection: the commands on its wire are those its lookups made due; the
   * same one is more than 10000 ms apart, and an unchanged one looked up at most d apart no more than 10000 + d.
   */
  lemma ResendingInTheServer(steps: seq<Step>, c: Client, d: nat, dbid: Word64, k: nat)
    requires c in All(Run(steps)) && E.ClockOk(LookedUp(steps, c))
    ensures E.Commands(c.sent) == E.WireForm(E.Sends(Fresh(c), History(steps, c.uid)))
    ensures var sends := E.Sends(Fresh(c), History(steps, c.uid));
            && (k + 1 < |sends| && sends[k].command.dbid == sends[k + 1].command.dbid ==> sends[k + 1].at > sends[k].at + 10000)
            && (k + 1 < |sends| && E.Steady(LookedUp(steps, c), dbid, d) ==> sends[k + 1].at <= sends[k].at + 10000 + d)
  {
    hide Run, History, E.Commands, E.WireForm, E.Sends, E.Lookups, E.ClockOk, E.Steady;
    HistoryPlays(steps);
    var c0, events := Fresh(c), History(steps, c.uid);
    assert Traced(steps, c);
    CommandsOfHistory(c, events);
    var sends := E.Sends(c0, events);
    if k + 1 < |sends| {
      if sends[k].command.dbid == sends[k + 1].command.dbid {
        E.SameCommandSpacing(c0, events, k);
      }
      if E.Steady(LookedUp(steps, c), dbid, d) {
        E.ResendGap(c0, events, dbid, d, k);
      }
    }
  }
}

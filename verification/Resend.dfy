/** When the current command goes to an aircraft, over any run of calls on its client. */
module Resend {
  import opened Words
  import opened Messages
  import opened Network
  import opened Session

  /** One command on the wire: when, which, and with what message id. */
  datatype Sent = Sent(at: Word64, command: AssetCommand, id: Word64)

  /**
   * The calls on a client: the periodic poll, a message received (the one that identifies it polls too), a round of
   * requests, settings, and a broadcast of something that is no command.
   */
  datatype Event =
    | Poll(query: Query)
    | Incoming(msg: Option<Message>, query: Query)
    | Request(now: Word64)
    | SettingsRound(query: Query)
    | Broadcast(typ: MsgType, body: Body)

  /** Whether a call looks the command up. */
  predicate Polls(c: Client, e: Event) {
    e.Poll? || (e.Incoming? && !c.identified && e.msg.Some? && IsIdentity(e.msg.value)
                && Accepted(c.names, e.msg.value.body.name))
  }

  function Happened(c: Client, e: Event): Client {
    match e
    case Poll(q) => SendCommand(c, q)
    case Incoming(msg, q) => Handle(c, msg, q).client
    case Request(now) => SendRtt(c, now)
    case SettingsRound(q) => SendSmm(c, q)
    case Broadcast(typ, body) => if typ == Command then c else SendAs(c, typ, body)
  }

  function Played(c: Client, events: seq<Event>): Client
    decreases |events|
  {
    if events == [] then c else Happened(Played(c, events[..|events| - 1]), events[|events| - 1])
  }

  /** The lookups in a run, in order. */
  function Lookups(c: Client, events: seq<Event>): seq<Query>
    decreases |events|
  {
    if events == [] then [] else
      var before, e := events[..|events| - 1], events[|events| - 1];
      Lookups(c, before) + if Polls(Played(c, before), e) then [e.query] else []
  }

  /** The commands sent in a run, in order. */
  function Sends(c: Client, events: seq<Event>): seq<Sent>
    decreases |events|
  {
    if events == [] then [] else
      var before, e := events[..|events| - 1], events[|events| - 1];
      var c' := Played(c, before);
      Sends(c, before) +
      if Polls(c', e) && Due(c', e.query) then [Sent(e.query.now, e.query.command.value, NextId(c'.lastId))] else []
  }

  // ------------------------------------------------------------ only lookups matter

  /** What no other call touches. */
  ghost predicate SameMemory(c: Client, c': Client) {
    c'.lastSendTs == c.lastSendTs && c'.lastDbid == c.lastDbid
  }

  /** A call remembers a command exactly if it looks one up that is due; nothing else touches that memory. */
  lemma MemoryExactlyWhen(c: Client, e: Event)
    ensures var c' := Happened(c, e);
            if Polls(c, e) && Due(c, e.query) then
              c'.lastSendTs == e.query.now && c'.lastDbid == e.query.command.value.dbid
            else SameMemory(c, c')
  {
  }

  /** The commands among the messages on a wire. */
  function Commands(ms: seq<Message>): seq<Message>
    decreases |ms|
  {
    if ms == [] then [] else
      Commands(ms[..|ms| - 1]) + if ms[|ms| - 1].typ == Command then [ms[|ms| - 1]] else []
  }

  lemma CommandsSnoc(ms: seq<Message>, m: Message)
    ensures Commands(ms + [m]) == Commands(ms) + if m.typ == Command then [m] else []
  {
    assert (ms + [m])[..|ms|] == ms;
  }

  function WireForm(sends: seq<Sent>): (r: seq<Message>)
    ensures |r| == |sends|
    ensures forall i :: 0 <= i < |sends| ==> r[i] == Message(sends[i].id, Command, CommandBody(sends[i].command))
  {
    seq(|sends|, i requires 0 <= i < |sends| => Message(sends[i].id, Command, CommandBody(sends[i].command)))
  }

  lemma WireFormConcat(front: seq<Message>, a: seq<Sent>, b: seq<Sent>)
    ensures front + WireForm(a) + WireForm(b) == front + WireForm(a + b)
  {
  }

  lemma QuietSend(c: Client, typ: MsgType, body: Body)
    requires typ != Command
    ensures Commands(SendAs(c, typ, body).sent) == Commands(c.sent)
  {
    CommandsSnoc(c.sent, Message(NextId(c.lastId), typ, body));
    assert Commands(c.sent) + [] == Commands(c.sent);
  }

  /** The command messages a lookup adds. */
  function DueMessages(c: Client, q: Query): seq<Message> {
    if Due(c, q) then [Message(NextId(c.lastId), Command, CommandBody(q.command.value))] else []
  }

  lemma LookupSends(c: Client, q: Query)
    ensures Commands(SendCommand(c, q).sent) == Commands(c.sent) + DueMessages(c, q)
  {
    if Due(c, q) {
      CommandsSnoc(c.sent, Message(NextId(c.lastId), Command, CommandBody(q.command.value)));
    }
  }

  lemma SettingsQuiet(c: Client, q: Query)
    ensures Commands(SendSmm(c, q).sent) == Commands(c.sent)
  {
    if q.smm.Some? {
      QuietSend(c, SmmSettings, BSmm(q.smm.value.address, q.smm.value.username, q.smm.value.password));
    }
  }

  lemma IdentitySends(c: Client, name: Text, q: Query)
    requires Accepted(c.names, name)
    ensures Commands(HandleIdentity(c, name, q).client.sent) == Commands(c.sent) + DueMessages(c, q)
  {
    hide Commands, SendCommand, SendSmm;
    var c1 := c.(name := name, identified := true, aircraft := true);
    LookupSends(c1, q);
    SettingsQuiet(SendCommand(c1, q), q);
    QuietSend(SendSmm(SendCommand(c1, q), q), ServerList, BServerList(q.servers));
  }

  lemma EventSends(c: Client, e: Event)
    ensures Commands(Happened(c, e).sent) == Commands(c.sent) + if Polls(c, e) then DueMessages(c, e.query) else []
  {
    hide Commands, HandleIdentity;
    assert Commands(c.sent) + [] == Commands(c.sent);
    match e
    case Poll(q) => LookupSends(c, q);
    case Incoming(msg, q) =>
      if Polls(c, e) {
        IdentitySends(c, msg.value.body.name, q);
      } else {
        UncountedMessage(c, msg, q);
      }
    case Request(now) => QuietSend(c, RttRequest, BRttRequest);
    case SettingsRound(q) => SettingsQuiet(c, q);
    case Broadcast(typ, body) =>
      if typ != Command {
        QuietSend(c, typ, body);
      }
  }

  lemma UncountedMessage(c: Client, msg: Option<Message>, q: Query)
    requires !Polls(c, Incoming(msg, q))
    ensures Commands(Handle(c, msg, q).client.sent) == Commands(c.sent)
  {
    hide Commands, SendCommand, SendSmm;
    QuietSend(c, IdentityRequired, BIdentityRequired);
    if msg.Some? {
      QuietSend(c, RttResponse, BRttResponse(msg.value.id));
    }
  }

  /** The commands on the wire are the sends of the run, each with its id and its contents, in order. */
  lemma {:induction false} SendsAreOnTheWire(c: Client, events: seq<Event>)
    ensures Commands(Played(c, events).sent) == Commands(c.sent) + WireForm(Sends(c, events))
    decreases |events|
  {
    if events == [] {
      assert Commands(c.sent) + WireForm([]) == Commands(c.sent);
    } else {
      var before, e := events[..|events| - 1], events[|events| - 1];
      var c' := Played(c, before);
      SendsAreOnTheWire(c, before);
      EventSends(c', e);
      hide Commands, Happened, CommandBody;
      var sends := Sends(c, before);
      var more := if Polls(c', e) && Due(c', e.query) then [Sent(e.query.now, e.query.command.value, NextId(c'.lastId))] else [];
      assert WireForm(more) == if Polls(c', e) then DueMessages(c', e.query) else [];
      WireFormConcat(Commands(c.sent), sends, more);
    }
  }

  /** Each send is of a command that a lookup of the run found, at the time of that lookup. */
  lemma {:induction false} SendsComeFromLookups(c: Client, events: seq<Event>, i: nat)
    requires i < |Sends(c, events)|
    ensures exists j :: 0 <= j < |Lookups(c, events)| && Lookups(c, events)[j].now == Sends(c, events)[i].at
                     && Lookups(c, events)[j].command == Some(Sends(c, events)[i].command)
    decreases |events|
  {
    var before, e := events[..|events| - 1], events[|events| - 1];
    var looked := Lookups(c, before);
    if i < |Sends(c, before)| {
      SendsComeFromLookups(c, before, i);
      var j :| 0 <= j < |looked| && looked[j].now == Sends(c, before)[i].at && looked[j].command == Some(Sends(c, before)[i].command);
      assert Lookups(c, events)[j] == looked[j];
    } else {
      assert Lookups(c, events)[|looked|] == e.query;
    }
  }

  // ------------------------------------------------------------ timing

  /** A clock that does not go back, and does not reach the end of its 64 bits. */
  ghost predicate ClockOk(looked: seq<Query>) {
    && (forall i, j :: 0 <= i < j < |looked| ==> looked[i].now <= looked[j].now)
    && (forall i :: 0 <= i < |looked| ==> looked[i].now + RESEND_AFTER < TWO64)
  }

  lemma LookupsPrefix(c: Client, events: seq<Event>)
    requires events != []
    ensures Lookups(c, events[..|events| - 1]) <= Lookups(c, events)
    ensures ClockOk(Lookups(c, events)) ==> ClockOk(Lookups(c, events[..|events| - 1]))
  {
  }

  /** The client remembers the last command it was sent, and that was not later than the last lookup. */
  lemma {:induction false} LastSent(c: Client, events: seq<Event>)
    requires ClockOk(Lookups(c, events))
    ensures var c', s, looked := Played(c, events), Sends(c, events), Lookups(c, events);
            && (s != [] ==> c'.lastSendTs == s[|s| - 1].at && c'.lastDbid == s[|s| - 1].command.dbid
                            && looked != [] && s[|s| - 1].at <= looked[|looked| - 1].now)
            && (s == [] ==> SameMemory(c, c'))
    decreases |events|
  {
    hide Happened, Polls, Due;
    if events != [] {
      var before, e := events[..|events| - 1], events[|events| - 1];
      LookupsPrefix(c, events);
      LastSent(c, before);
      MemoryExactlyWhen(Played(c, before), e);
    }
  }

  /** The same command is never sent twice in a row without more than ten seconds between. */
  lemma {:induction false} SameCommandSpacing(c: Client, events: seq<Event>, i: nat)
    requires ClockOk(Lookups(c, events))
    requires i + 1 < |Sends(c, events)| && Sends(c, events)[i].command.dbid == Sends(c, events)[i + 1].command.dbid
    ensures Sends(c, events)[i + 1].at > Sends(c, events)[i].at + 10000
    decreases |events|
  {
    hide Happened;
    var before, e := events[..|events| - 1], events[|events| - 1];
    LookupsPrefix(c, events);
    LastSent(c, before);
    if i + 1 < |Sends(c, before)| {
      SameCommandSpacing(c, before, i);
    } else {
      var looked, all := Lookups(c, before), Lookups(c, events);
      assert all == looked + [e.query];
      assert all[|looked|] == e.query && all[|looked| - 1] == looked[|looked| - 1];
      assert Sends(c, before)[i].at <= looked[|looked| - 1].now <= e.query.now;
      assert Low64(Sends(c, before)[i].at + RESEND_AFTER) == Sends(c, before)[i].at + RESEND_AFTER;
    }
  }

  /** The dbid a lookup saw last; before any saw one, the one remembered at the start. */
  function LastSeen(start: Word64, looked: seq<Query>): Word64
    decreases |looked|
  {
    if looked == [] then start
    else if looked[|looked| - 1].command.Some? then looked[|looked| - 1].command.value.dbid
    else LastSeen(start, looked[..|looked| - 1])
  }

  /** Whatever happened, the client remembers the command that was seen last. */
  lemma {:induction false} RemembersLastSeen(c: Client, events: seq<Event>)
    ensures Played(c, events).lastDbid == LastSeen(c.lastDbid, Lookups(c, events))
    decreases |events|
  {
    hide Happened, Polls;
    if events != [] {
      var before, e := events[..|events| - 1], events[|events| - 1];
      RemembersLastSeen(c, before);
      MemoryExactlyWhen(Played(c, before), e);
      if Polls(Played(c, before), e) {
        assert Lookups(c, events)[..|Lookups(c, before)|] == Lookups(c, before);
      } else {
        assert Lookups(c, events) == Lookups(c, before);
      }
    }
  }

  /** So the first lookup that sees another command sends it, whatever the clock does and however long none was seen. */
  lemma ChangeIsSentAtOnce(c: Client, events: seq<Event>, e: Event)
    requires Polls(Played(c, events), e)
    requires e.query.command.Some? && e.query.command.value.dbid != LastSeen(c.lastDbid, Lookups(c, events))
    ensures Sends(c, events + [e])
         == Sends(c, events) + [Sent(e.query.now, e.query.command.value, NextId(Played(c, events).lastId))]
  {
    RemembersLastSeen(c, events);
    assert (events + [e])[..|events|] == events;
  }

  /** The time remembered is far from the end of its 64 bits too. */
  lemma {:induction false} SendTimeInRange(c: Client, events: seq<Event>)
    requires ClockOk(Lookups(c, events)) && c.lastSendTs + RESEND_AFTER < TWO64
    ensures Played(c, events).lastSendTs + RESEND_AFTER < TWO64
    decreases |events|
  {
    hide Happened, Due;
    if events != [] {
      var before, e, looked := events[..|events| - 1], events[|events| - 1], Lookups(c, events);
      LookupsPrefix(c, events);
      SendTimeInRange(c, before);
      MemoryExactlyWhen(Played(c, before), e);
      if Polls(Played(c, before), e) {
        assert looked[|looked| - 1] == e.query;
      }
    }
  }

  /** A lookup that is not due sees the command remembered, not later than ten seconds after it was sent. */
  lemma NotDue(c: Client, q: Query)
    requires q.command.Some? && !Due(c, q) && c.lastSendTs + RESEND_AFTER < TWO64
    ensures c.lastDbid == q.command.value.dbid && q.now <= c.lastSendTs + RESEND_AFTER
  {
  }

  /** Right after a lookup that saw a command, that command was the last one sent, at most ten seconds ago. */
  lemma {:induction false} FreshAfterLookup(c: Client, events: seq<Event>)
    requires ClockOk(Lookups(c, events)) && c.lastSendTs + RESEND_AFTER < TWO64
    ensures var c', looked := Played(c, events), Lookups(c, events);
            looked != [] && looked[|looked| - 1].command.Some? ==>
              c'.lastDbid == looked[|looked| - 1].command.value.dbid
              && looked[|looked| - 1].now <= c'.lastSendTs + 10000
    decreases |events|
  {
    if events != [] {
      var before, e := events[..|events| - 1], events[|events| - 1];
      var c', looked := Played(c, before), Lookups(c, before);
      LookupsPrefix(c, events);
      FreshAfterLookup(c, before);
      SendTimeInRange(c, before);
      MemoryExactlyWhen(c', e);
      hide Happened, Polls, Due, ClockOk;
      if Polls(c', e) {
        assert Lookups(c, events)[|looked|] == e.query;
        if e.query.command.Some? && !Due(c', e.query) {
          NotDue(c', e.query);
        }
      } else {
        assert Lookups(c, events) == looked;
      }
    }
  }

  /** Every lookup sees the same command, and lookups are at most d apart. */
  ghost predicate Steady(looked: seq<Query>, dbid: Word64, d: nat) {
    && (forall i :: 0 <= i < |looked| ==> looked[i].command.Some? && looked[i].command.value.dbid == dbid)
    && (forall i :: 0 <= i < |looked| - 1 ==> looked[i + 1].now <= looked[i].now + d)
  }

  lemma SteadyPrefix(looked: seq<Query>, all: seq<Query>, dbid: Word64, d: nat)
    requires looked <= all && Steady(all, dbid, d)
    ensures Steady(looked, dbid, d)
    ensures |looked| < |all| && looked != [] ==> all[|looked|].now <= looked[|looked| - 1].now + d
  {
    assert forall k :: 0 <= k < |looked| ==> looked[k] == all[k];
  }

  lemma {:induction false} SendsSeen(c: Client, events: seq<Event>, dbid: Word64, d: nat)
    requires Steady(Lookups(c, events), dbid, d)
    ensures forall i :: 0 <= i < |Sends(c, events)| ==> Sends(c, events)[i].command.dbid == dbid
  {
    forall i | 0 <= i < |Sends(c, events)|
      ensures Sends(c, events)[i].command.dbid == dbid
    {
      SendsComeFromLookups(c, events, i);
    }
  }

  /** An unchanged command looked up at most d apart is sent again within ten seconds and d. */
  lemma {:induction false} ResendGap(c: Client, events: seq<Event>, dbid: Word64, d: nat, i: nat)
    requires ClockOk(Lookups(c, events)) && Steady(Lookups(c, events), dbid, d)
    requires c.lastSendTs + RESEND_AFTER < TWO64
    requires i + 1 < |Sends(c, events)|
    ensures Sends(c, events)[i].at + 10000 < Sends(c, events)[i + 1].at <= Sends(c, events)[i].at + 10000 + d
    decreases |events|
  {
    hide Happened, Polls, Due, Steady, ClockOk;
    var before, e := events[..|events| - 1], events[|events| - 1];
    LookupsPrefix(c, events);
    LastSent(c, before);
    var looked, all := Lookups(c, before), Lookups(c, events);
    SteadyPrefix(looked, all, dbid, d);
    SendsSeen(c, events, dbid, d);
    SameCommandSpacing(c, events, i);
    if i + 1 < |Sends(c, before)| {
      ResendGap(c, before, dbid, d, i);
    } else {
      FreshAfterLookup(c, before);
    }
  }
}

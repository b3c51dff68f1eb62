/** The client's servers: those connected, those waiting to be reconnected, and the status it reports. */
module ServerLists {
  import opened Words
  import opened Messages
  import opened Backoff
  import W = Wire
  import N = Network

  datatype Status = StatusUnknown | Disconnected | ConnectedOne | ConnectedTwoOrMore

  datatype State = State(servers: seq<Link>, waiting: seq<Link>, status: Status)

  /**
   * A pass over the waiting servers; an error that closes the i-th connected server's connection; the end of its
   * stream, where `recovers` says whether the receive loop would still get to a closed message after it has left its
   * buffer; a server list; a direct connect.
   */
  datatype Step =
    | Attempt(tries: nat -> Try)
    | Close(i: nat)
    | StreamEnds(i: nat, stream: seq<byte>, recovers: bool)
    | Update(list: seq<Server>)
    | ConnectTo(server: Server, connect: bool, t: Try)

  function StatusOf(n: nat): Status {
    if n == 0 then Disconnected else if n == 1 then ConnectedOne else ConnectedTwoOrMore
  }

  function Notify(s: State): State { s.(status := StatusOf(|s.servers|)) }

  /** From a configuration: every entry waits for its first connection. */
  function Configured(entries: seq<Server>): State {
    State([], seq(|entries|, i requires 0 <= i < |entries| => NewLink(entries[i].address, entries[i].port)), StatusUnknown)
  }

  // ---------------------------------------------------------------- reconnecting

  /** The waiting servers that a pass connects, and the ones it leaves, both in their order. */
  function Connected(waiting: seq<Link>, tries: nat -> Try): seq<Link>
    decreases |waiting|
  {
    if waiting == [] then [] else
      var k := |waiting| - 1;
      Connected(waiting[..k], tries) +
      if Succeeds(waiting[k], tries(k)) then [Reconnect(waiting[k], tries(k))] else []
  }

  function StillWaiting(waiting: seq<Link>, tries: nat -> Try): seq<Link>
    decreases |waiting|
  {
    if waiting == [] then [] else
      var k := |waiting| - 1;
      StillWaiting(waiting[..k], tries) +
      if Succeeds(waiting[k], tries(k)) then [] else [Reconnect(waiting[k], tries(k))]
  }

  function AttemptReconnect(s: State, tries: nat -> Try): State {
    var up := Connected(s.waiting, tries);
    var s' := s.(servers := s.servers + up, waiting := StillWaiting(s.waiting, tries));
    if up != [] then Notify(s') else s'
  }

  /** The connection of the i-th connected server is closed. */
  function Closed(s: State, i: nat): State
    requires i < |s.servers|
  {
    Notify(s.(servers := s.servers[..i] + s.servers[i + 1..], waiting := s.waiting + [Closing(s.servers[i])]))
  }

  /** Whether a stream that ends makes its receive loop deliver a closed message. */
  predicate DeliversClosed(stream: seq<byte>, recovers: bool) {
    match N.EndingOf(stream)
    case AtBoundary => true
    case InsideFrame => false
    case BadFrame => recovers
  }

  /** The stream of the i-th connected server ends: without a closed message nobody tells the client. */
  function Ended(s: State, i: nat, stream: seq<byte>, recovers: bool): State
    requires i < |s.servers|
  {
    if DeliversClosed(stream, recovers) then Closed(s, i)
    else s.(servers := s.servers[i := Hanging(s.servers[i])])
  }

  // ---------------------------------------------------------------- learning servers

  predicate Matches(l: Link, e: Server) { l.address == e.address && l.port == e.port }

  predicate ListMatches(links: seq<Link>, e: Server) { exists i :: 0 <= i < |links| && Matches(links[i], e) }

  predicate Known(s: State, e: Server) { ListMatches(s.servers, e) || ListMatches(s.waiting, e) }

  function UpdateServers(s: State, list: seq<Server>): State
    decreases |list|
  {
    if list == [] then s else
      var s' := UpdateServers(s, list[..|list| - 1]);
      var e := list[|list| - 1];
      if Known(s', e) then s' else s'.(waiting := s'.waiting + [NewLink(e.address, e.port)])
  }

  /**
   * Adding a server directly: it goes where its connection puts it, and that is not reported. A closed message
   * queued on its new connection is handled before, for a server in no list yet, and reports the old state.
   */
  function Add(s: State, e: Server, connect: bool, t: Try): State {
    var l := NewLink(e.address, e.port);
    var l' := if connect then Reconnect(l, t) else l;
    var s' := if connect && Succeeds(l, t) && t.closedQueued then Notify(s) else s;
    if l'.connected then s'.(servers := s.servers + [l']) else s'.(waiting := s.waiting + [l'])
  }

  function Apply(s: State, step: Step): State {
    match step
    case Attempt(tries) => AttemptReconnect(s, tries)
    case Close(i) => if i < |s.servers| && s.servers[i].alive then Closed(s, i) else s
    case StreamEnds(i, stream, recovers) =>
      if i < |s.servers| && s.servers[i].alive then Ended(s, i, stream, recovers) else s
    case Update(list) => UpdateServers(s, list)
    case ConnectTo(e, connect, t) => Add(s, e, connect, t)
  }

  function Run(s: State, steps: seq<Step>): State
    decreases |steps|
  {
    if steps == [] then s else Apply(Run(s, steps[..|steps| - 1]), steps[|steps| - 1])
  }

  // ---------------------------------------------------------------- the backoff invariant

  /** Each connected server has its connection and a fresh backoff; each waiting one has the delay of its count. */
  ghost predicate Inv(s: State) {
    && (forall l :: l in s.servers ==> Fresh(l))
    && (forall l :: l in s.waiting ==> Waiting(l) && !l.alive)
  }

  lemma {:induction false} PassKeeps(waiting: seq<Link>, tries: nat -> Try)
    requires forall l :: l in waiting ==> Waiting(l)
    ensures forall l :: l in Connected(waiting, tries) ==> Fresh(l)
    ensures forall l :: l in StillWaiting(waiting, tries) ==> Waiting(l) && !l.connected && !l.alive
    decreases |waiting|
  {
    if waiting != [] {
      var k := |waiting| - 1;
      PassKeeps(waiting[..k], tries);
      assert waiting[k] in waiting;
      ReconnectKeeps(waiting[k], tries(k));
    }
  }

  lemma {:induction false} UpdateKeeps(s: State, list: seq<Server>)
    requires Inv(s)
    ensures Inv(UpdateServers(s, list))
    decreases |list|
  {
    if list != [] {
      UpdateKeeps(s, list[..|list| - 1]);
    }
  }

  lemma StepKeeps(s: State, step: Step)
    requires Inv(s)
    ensures Inv(Apply(s, step))
  {
    match step
    case Attempt(tries) => PassKeeps(s.waiting, tries);
    case Close(i) =>
      if i < |s.servers| {
        assert s.servers[i] in s.servers;
      }
    case StreamEnds(i, _, _) =>
      if i < |s.servers| {
        assert s.servers[i] in s.servers;
      }
    case Update(list) => UpdateKeeps(s, list);
    case ConnectTo(e, connect, t) => ReconnectKeeps(NewLink(e.address, e.port), t);
  }

  /** Over every run from a configuration, whatever the clock does. */
  lemma {:induction false} RunKeeps(entries: seq<Server>, steps: seq<Step>)
    ensures Inv(Run(Configured(entries), steps))
    decreases |steps|
  {
    if steps != [] {
      RunKeeps(entries, steps[..|steps| - 1]);
      StepKeeps(Run(Configured(entries), steps[..|steps| - 1]), steps[|steps| - 1]);
    }
  }

  /** So the retry bounds hold for every server that is waiting in any reachable state. */
  lemma WaitingServersBackOff(entries: seq<Server>, steps: seq<Step>, k: nat, calls: seq<Try>, i: nat)
    requires k < |Run(Configured(entries), steps).waiting| && Failing(calls)
    requires i + 1 < |AttemptTimes(Run(Configured(entries), steps).waiting[k], calls)|
    ensures var l := Run(Configured(entries), steps).waiting[k];
            AttemptTimes(l, calls)[i + 1] > AttemptTimes(l, calls)[i] + Delay(l.retryCount + i + 1)
  {
    RunKeeps(entries, steps);
    var s := Run(Configured(entries), steps);
    assert s.waiting[k] in s.waiting;
    RetryGap(s.waiting[k], calls, i);
  }

  // ---------------------------------------------------------------- servers listed with an ended connection

  ghost predicate AllAlive(s: State) { forall i :: 0 <= i < |s.servers| ==> s.servers[i].alive }

  /**
   * A connection that comes up with a closed message already queued, or a stream that ends without one: inside a
   * frame, or where the receive loop has left its buffer and does not recover.
   */
  ghost predicate LeavesDead(s: State, step: Step) {
    match step
    case Attempt(tries) =>
      exists k: nat :: k < |s.waiting| && Succeeds(s.waiting[k], tries(k)) && tries(k).closedQueued
    case ConnectTo(e, connect, t) => connect && Succeeds(NewLink(e.address, e.port), t) && t.closedQueued
    case StreamEnds(i, stream, recovers) => i < |s.servers| && !DeliversClosed(stream, recovers)
    case _ => false
  }

  lemma {:induction false} PassAlive(waiting: seq<Link>, tries: nat -> Try)
    ensures (forall i :: 0 <= i < |Connected(waiting, tries)| ==> Connected(waiting, tries)[i].alive)
            <==> !(exists k: nat :: k < |waiting| && Succeeds(waiting[k], tries(k)) && tries(k).closedQueued)
    decreases |waiting|
  {
    if waiting != [] {
      var k := |waiting| - 1;
      var before, up := Connected(waiting[..k], tries), Connected(waiting, tries);
      PassAlive(waiting[..k], tries);
      assert forall j :: 0 <= j < k ==> waiting[..k][j] == waiting[j];
      assert forall i :: 0 <= i < |before| ==> up[i] == before[i];
      if Succeeds(waiting[k], tries(k)) {
        assert up[|before|].alive == !tries(k).closedQueued;
      }
    }
  }

  /** Every server listed as connected has a live connection, except exactly after a step that leaves one dead. */
  lemma AliveExactlyWhen(s: State, step: Step)
    requires AllAlive(s)
    ensures AllAlive(Apply(s, step)) <==> !LeavesDead(s, step)
  {
    match step
    case Attempt(tries) =>
      PassAlive(s.waiting, tries);
      var up, all := Connected(s.waiting, tries), Apply(s, step).servers;
      assert forall i :: 0 <= i < |up| ==> all[|s.servers| + i] == up[i];
    case Close(i) =>
    case StreamEnds(i, stream, recovers) =>
      if LeavesDead(s, step) {
        assert !Apply(s, step).servers[i].alive;
      }
    case Update(list) => UpdateAddsMissing(s, list);
    case ConnectTo(e, connect, t) =>
      var all := Apply(s, step).servers;
      assert |all| > |s.servers| ==> all[|s.servers|].alive == !t.closedQueued;
  }

  /** Over every run: all are alive exactly if no step has left one dead. */
  ghost predicate NoneLeftDead(s: State, steps: seq<Step>)
    decreases |steps|
  {
    steps == [] || (NoneLeftDead(s, steps[..|steps| - 1])
                    && !LeavesDead(Run(s, steps[..|steps| - 1]), steps[|steps| - 1]))
  }

  lemma {:induction false} AllAliveExactlyWhen(entries: seq<Server>, steps: seq<Step>)
    ensures AllAlive(Run(Configured(entries), steps)) <==> NoneLeftDead(Configured(entries), steps)
    decreases |steps|
  {
    if steps != [] {
      var before, step := steps[..|steps| - 1], steps[|steps| - 1];
      AllAliveExactlyWhen(entries, before);
      var s := Run(Configured(entries), before);
      if AllAlive(s) {
        AliveExactlyWhen(s, step);
      } else {
        var i :| 0 <= i < |s.servers| && !s.servers[i].alive;
        DeadStays(s, step, s.servers[i]);
      }
    }
  }

  /** A server that stops sending inside a frame, after any messages, is such a stream from its third byte on. */
  lemma CutStreamLeavesDead(s: State, i: nat, ms: seq<Message>, m: Message, k: nat, recovers: bool)
    requires i < |s.servers| && k < |W.Frame(m)|
    requires N.WellFormed(m) && forall m :: m in ms ==> N.WellFormed(m)
    ensures LeavesDead(s, StreamEnds(i, N.Frames(ms) + W.Frame(m)[..k], recovers)) <==> k >= 2
  {
    N.CutStreamEnding(ms, m, k);
  }

  /** A configured server whose first connection is closed before the handler is set: listed, and not alive. */
  lemma DeadOnArrival(e: Server, tries: nat -> Try)
    requires tries(0).now > 1000 && tries(0).works && tries(0).closedQueued
    ensures LeavesDead(Configured([e]), Attempt(tries))
    ensures var s := Apply(Configured([e]), Attempt(tries));
            && s == State([Reconnect(NewLink(e.address, e.port), tries(0))], [], ConnectedOne)
            && s.servers[0].connected && !s.servers[0].alive
  {
    var l, s := NewLink(e.address, e.port), Configured([e]);
    assert s.waiting == [l] && Succeeds(l, tries(0));
    assert [l][..0] == [] && Connected([], tries) == [] && StillWaiting([], tries) == [];
    assert Connected([l], tries) == [Reconnect(l, tries(0))];
    AliveExactlyWhen(s, Attempt(tries));
  }

  lemma DeadStays(s: State, step: Step, l: Link)
    requires l in s.servers && !l.alive
    ensures l in Apply(s, step).servers
  {
    if step.Update? {
      UpdateAddsMissing(s, step.list);
    }
    hide UpdateServers, Connected, StillWaiting, Closing, DeliversClosed;
    var k :| 0 <= k < |s.servers| && s.servers[k] == l;
    if (step.Close? || step.StreamEnds?) && step.i < |s.servers| && s.servers[step.i].alive {
      var after := s.servers[..step.i] + s.servers[step.i + 1..];
      assert after[if k < step.i then k else k - 1] == l;
      assert s.servers[step.i := Hanging(s.servers[step.i])][k] == l;
    }
  }

  /** And such a server stays listed as connected in every run from there: nothing closes it any more. */
  lemma {:induction false} DeadStaysListed(s: State, steps: seq<Step>, l: Link)
    requires l in s.servers && !l.alive
    ensures l in Run(s, steps).servers
    decreases |steps|
  {
    if steps != [] {
      DeadStaysListed(s, steps[..|steps| - 1], l);
      DeadStays(Run(s, steps[..|steps| - 1]), steps[|steps| - 1], l);
    }
  }

  // ---------------------------------------------------------------- nothing is lost or added

  function Key(l: Link): Server { Server(l.address, l.port) }

  function Keys(links: seq<Link>): (r: seq<Server>)
    ensures |r| == |links| && forall i :: 0 <= i < |links| ==> r[i] == Key(links[i])
  {
    seq(|links|, i requires 0 <= i < |links| => Key(links[i]))
  }

  /** All servers there are, connected or waiting, with how often each is there. */
  ghost function All(s: State): multiset<Server> { multiset(Keys(s.servers)) + multiset(Keys(s.waiting)) }

  lemma KeysConcat(a: seq<Link>, b: seq<Link>)
    ensures Keys(a + b) == Keys(a) + Keys(b)
  {
  }

  lemma KeysSnoc(links: seq<Link>, l: Link)
    ensures Keys(links + [l]) == Keys(links) + [Key(l)]
    ensures multiset(Keys(links + [l])) == multiset(Keys(links)) + multiset{Key(l)}
  {
  }

  lemma {:induction false} PassKeepsAll(waiting: seq<Link>, tries: nat -> Try)
    ensures multiset(Keys(Connected(waiting, tries))) + multiset(Keys(StillWaiting(waiting, tries))) == multiset(Keys(waiting))
    decreases |waiting|
  {
    if waiting != [] {
      var k := |waiting| - 1;
      var l := Reconnect(waiting[k], tries(k));
      PassKeepsAll(waiting[..k], tries);
      assert waiting == waiting[..k] + [waiting[k]];
      KeysSnoc(waiting[..k], waiting[k]);
      KeysSnoc(Connected(waiting[..k], tries), l);
      KeysSnoc(StillWaiting(waiting[..k], tries), l);
      assert Key(l) == Key(waiting[k]);
      hide Keys, Key, Reconnect, Succeeds;
      assert Connected(waiting[..k], tries) + [] == Connected(waiting[..k], tries);
      assert StillWaiting(waiting[..k], tries) + [] == StillWaiting(waiting[..k], tries);
    }
  }

  lemma CloseKeepsAll(s: State, i: nat)
    requires i < |s.servers|
    ensures All(Closed(s, i)) == All(s)
  {
    ClosedMovesOne(s, i);
    hide Keys, Closed;
  }

  /** From s to s' just this server has gone from the connected ones to the waiting ones. */
  ghost predicate MovedOne(s: State, s': State, l: Link) {
    && multiset(Keys(s.servers)) == multiset(Keys(s'.servers)) + multiset{Key(l)}
    && multiset(Keys(s'.waiting)) == multiset(Keys(s.waiting)) + multiset{Key(l)}
  }

  /**
   * A close of a live connection, and the end of its stream with a closed message, move just that server, to the end of
   * the waiting ones; its end without one leaves it where it is, and no longer alive.
   */
  lemma CloseMovesThatOne(s: State, i: nat, stream: seq<byte>, recovers: bool)
    requires i < |s.servers| && s.servers[i].alive
    ensures MovedOne(s, Apply(s, Close(i)), s.servers[i])
    ensures var s' := Apply(s, StreamEnds(i, stream, recovers));
            if N.EndingOf(stream).AtBoundary? || (N.EndingOf(stream).BadFrame? && recovers) then
              MovedOne(s, s', s.servers[i])
            else
              s' == s.(servers := s'.servers) && Keys(s'.servers) == Keys(s.servers) && !s'.servers[i].alive
  {
    ClosedMovesOne(s, i);
    HangKeepsKeys(s.servers, i);
    hide Keys, Closed, MovedOne;
  }

  lemma ClosedMovesOne(s: State, i: nat)
    requires i < |s.servers|
    ensures MovedOne(s, Closed(s, i), s.servers[i])
  {
    var l, front, back := s.servers[i], s.servers[..i], s.servers[i + 1..];
    assert s.servers == (front + [l]) + back;
    assert Key(Closing(l)) == Key(l);
    KeysSnoc(front, l);
    KeysConcat(front + [l], back);
    KeysConcat(front, back);
    KeysSnoc(s.waiting, Closing(l));
    hide Keys, Key, Closing;
  }

  lemma HangKeepsKeys(links: seq<Link>, i: nat)
    requires i < |links|
    ensures Keys(links[i := Hanging(links[i])]) == Keys(links)
  {
  }

  /** A pass connects exactly the waiting servers that are due and can be reached, each once, and leaves the others. */
  lemma {:induction false} PassExactly(waiting: seq<Link>, tries: nat -> Try, k: nat)
    requires k < |waiting|
    ensures |Connected(waiting, tries)| + |StillWaiting(waiting, tries)| == |waiting|
    ensures var l, l' := waiting[k], Reconnect(waiting[k], tries(k));
            if (tries(k).now - l.lastTried) % 18446744073709551616 > l.retryDelay && tries(k).works
            then l' in Connected(waiting, tries) && l'.connected
            else l' in StillWaiting(waiting, tries) && !l'.connected
    decreases |waiting|
  {
    hide Reconnect, Succeeds, Connected, StillWaiting;
    var last := |waiting| - 1;
    OneGoesOneWay(waiting, tries);
    DueInNumbers(waiting[k], tries(k));
    if k < last {
      PassExactly(waiting[..last], tries, k);
    } else if last > 0 {
      PassExactly(waiting[..last], tries, last - 1);
    } else {
      NoneWaiting(waiting[..last], tries);
    }
  }

  lemma NoneWaiting(waiting: seq<Link>, tries: nat -> Try)
    requires waiting == []
    ensures Connected(waiting, tries) == [] && StillWaiting(waiting, tries) == []
  {
  }

  lemma OneGoesOneWay(waiting: seq<Link>, tries: nat -> Try)
    requires waiting != []
    ensures var k := |waiting| - 1;
            var l, l', due := waiting[k], Reconnect(waiting[k], tries(k)), Succeeds(waiting[k], tries(k));
            && Connected(waiting, tries) == Connected(waiting[..k], tries) + (if due then [l'] else [])
            && StillWaiting(waiting, tries) == StillWaiting(waiting[..k], tries) + (if due then [] else [l'])
            && l'.connected == due
  {
  }

  lemma DueInNumbers(l: Link, t: Try)
    ensures Succeeds(l, t) <==> (t.now - l.lastTried) % 18446744073709551616 > l.retryDelay && t.works
  {
  }

  lemma HangKeepsAll(s: State, i: nat)
    requires i < |s.servers|
    ensures All(s.(servers := s.servers[i := Hanging(s.servers[i])])) == All(s)
  {
    HangKeepsKeys(s.servers, i);
  }

  /** Reconnecting, closing and ending only move servers between the lists. */
  lemma MovesKeepAll(s: State, step: Step)
    requires step.Attempt? || step.Close? || step.StreamEnds?
    ensures All(Apply(s, step)) == All(s)
  {
    match step
    case Attempt(tries) =>
      PassKeepsAll(s.waiting, tries);
      KeysConcat(s.servers, Connected(s.waiting, tries));
    case Close(i) =>
      if i < |s.servers| {
        CloseKeepsAll(s, i);
      }
    case StreamEnds(i, _, _) =>
      if i < |s.servers| {
        CloseKeepsAll(s, i);
        HangKeepsAll(s, i);
      }
  }

  lemma KnownIsPresent(s: State, e: Server)
    ensures Known(s, e) <==> e in All(s)
  {
    assert e in Keys(s.servers) <==> ListMatches(s.servers, e) by {
      if ListMatches(s.servers, e) {
        var i :| 0 <= i < |s.servers| && Matches(s.servers[i], e);
        assert Keys(s.servers)[i] == e;
      }
    }
    assert e in Keys(s.waiting) <==> ListMatches(s.waiting, e) by {
      if ListMatches(s.waiting, e) {
        var i :| 0 <= i < |s.waiting| && Matches(s.waiting[i], e);
        assert Keys(s.waiting)[i] == e;
      }
    }
  }

  /** The missing entries of a list, each once, where it first appears. */
  function Missing(s: State, list: seq<Server>): seq<Server>
    decreases |list|
  {
    if list == [] then [] else
      var before, e := Missing(s, list[..|list| - 1]), list[|list| - 1];
      if Known(s, e) || e in before then before else before + [e]
  }

  function NewLinks(es: seq<Server>): (r: seq<Link>)
    ensures |r| == |es| && forall i :: 0 <= i < |es| ==> r[i] == NewLink(es[i].address, es[i].port)
  {
    seq(|es|, i requires 0 <= i < |es| => NewLink(es[i].address, es[i].port))
  }

  /** Exactly the servers of the list that were nowhere, each once even if the list repeats it. */
  lemma {:induction false} MissingExact(s: State, list: seq<Server>)
    ensures var m := Missing(s, list);
            && (forall e :: e in m <==> e in list && !Known(s, e))
            && (forall i, j :: 0 <= i < j < |m| ==> m[i] != m[j])
    decreases |list|
  {
    if list != [] {
      MissingExact(s, list[..|list| - 1]);
      assert list == list[..|list| - 1] + [list[|list| - 1]];
    }
  }

  /** An update adds exactly the missing servers, as new waiting ones behind the others, and touches nothing else. */
  lemma {:induction false} UpdateAddsMissing(s: State, list: seq<Server>)
    ensures UpdateServers(s, list) == s.(waiting := s.waiting + NewLinks(Missing(s, list)))
    decreases |list|
  {
    if list == [] {
      assert s.waiting + NewLinks([]) == s.waiting;
    } else {
      var before, e := list[..|list| - 1], list[|list| - 1];
      UpdateAddsMissing(s, before);
      var s', m := UpdateServers(s, before), Missing(s, before);
      KnownAfterAdding(s, m, e);
      assert NewLinks(m + [e]) == NewLinks(m) + [NewLink(e.address, e.port)];
      assert s.waiting + NewLinks(m + [e]) == s.waiting + NewLinks(m) + [NewLink(e.address, e.port)];
    }
  }

  lemma KnownAfterAdding(s: State, m: seq<Server>, e: Server)
    ensures Known(s.(waiting := s.waiting + NewLinks(m)), e) <==> Known(s, e) || e in m
  {
    var w := s.waiting + NewLinks(m);
    if ListMatches(s.waiting, e) {
      var i :| 0 <= i < |s.waiting| && Matches(s.waiting[i], e);
      assert Matches(w[i], e);
    }
    if e in m {
      var i :| 0 <= i < |m| && m[i] == e;
      assert Matches(w[|s.waiting| + i], e);
    }
    if ListMatches(w, e) {
      var i :| 0 <= i < |w| && Matches(w[i], e);
      assert i < |s.waiting| ==> Matches(s.waiting[i], e);
      assert i >= |s.waiting| ==> m[i - |s.waiting|] == e;
    }
  }

  /** The same list again changes nothing. */
  lemma UpdateIdempotent(s: State, list: seq<Server>)
    ensures UpdateServers(UpdateServers(s, list), list) == UpdateServers(s, list)
  {
    var s' := UpdateServers(s, list);
    UpdateAddsMissing(s, list);
    UpdateAddsMissing(s', list);
    MissingExact(s, list);
    MissingExact(s', list);
    if Missing(s', list) != [] {
      var e := Missing(s', list)[0];
      assert e in Missing(s', list);
      KnownAfterAdding(s, Missing(s, list), e);
    }
    assert s'.waiting + NewLinks([]) == s'.waiting;
  }

  // ---------------------------------------------------------------- no server twice

  ghost predicate NoServerTwice(s: State) { forall e :: All(s)[e] <= 1 }

  /** What a step adds to the servers there are: nothing, or the missing ones of a list, or the one given. */
  ghost function Added(s: State, step: Step): multiset<Server> {
    match step
    case Attempt(_) => multiset{}
    case Close(_) => multiset{}
    case StreamEnds(_, _, _) => multiset{}
    case Update(list) => multiset(Missing(s, list))
    case ConnectTo(e, _, _) => multiset{e}
  }

  lemma StepAdds(s: State, step: Step)
    ensures All(Apply(s, step)) == All(s) + Added(s, step)
  {
    hide All, Add, UpdateServers, AttemptReconnect, Closed, Ended;
    match step
    case Attempt(_) => MovesKeepAll(s, step);
    case Close(_) => MovesKeepAll(s, step);
    case StreamEnds(_, _, _) => MovesKeepAll(s, step);
    case Update(list) => UpdateAdds(s, list);
    case ConnectTo(e, connect, t) => AddAdds(s, e, connect, t);
  }

  lemma UpdateAdds(s: State, list: seq<Server>)
    ensures All(UpdateServers(s, list)) == All(s) + multiset(Missing(s, list))
  {
    UpdateAddsMissing(s, list);
    var more := NewLinks(Missing(s, list));
    KeysConcat(s.waiting, more);
    assert Keys(more) == Missing(s, list);
    hide Keys, UpdateServers, Missing;
  }

  lemma AddAdds(s: State, e: Server, connect: bool, t: Try)
    ensures All(Add(s, e, connect, t)) == All(s) + multiset{e}
  {
    var l := NewLink(e.address, e.port);
    var l' := if connect then Reconnect(l, t) else l;
    assert Key(l') == e;
    KeysSnoc(s.servers, l');
    KeysSnoc(s.waiting, l');
    hide Keys, Key, Reconnect, Succeeds;
  }

  lemma {:induction false} DistinctOnce(es: seq<Server>, e: Server)
    requires forall i, j :: 0 <= i < j < |es| ==> es[i] != es[j]
    ensures multiset(es)[e] == if e in es then 1 else 0
    decreases |es|
  {
    if es != [] {
      var k := |es| - 1;
      DistinctOnce(es[..k], e);
      assert es == es[..k] + [es[k]];
    }
  }

  /** A step that starts with no server twice ends so, except exactly a direct connect to a server already there. */
  lemma TwiceExactlyWhen(s: State, step: Step)
    requires NoServerTwice(s)
    ensures NoServerTwice(Apply(s, step)) <==> !(step.ConnectTo? && Known(s, step.server))
  {
    StepAdds(s, step);
    match step
    case Update(list) =>
      MissingExact(s, list);
      forall e
        ensures All(s)[e] + multiset(Missing(s, list))[e] <= 1
      {
        DistinctOnce(Missing(s, list), e);
        KnownIsPresent(s, e);
      }
    case ConnectTo(e, _, _) =>
      KnownIsPresent(s, e);
      assert All(Apply(s, step))[e] == All(s)[e] + 1;
    case _ =>
  }

  /** The configuration repeats nothing, and no direct connect was to a server there at the time. */
  ghost predicate NothingRepeated(entries: seq<Server>, steps: seq<Step>)
    decreases |steps|
  {
    if steps == [] then forall i, j :: 0 <= i < j < |entries| ==> entries[i] != entries[j]
    else
      var before, step := steps[..|steps| - 1], steps[|steps| - 1];
      NothingRepeated(entries, before) && !(step.ConnectTo? && Known(Run(Configured(entries), before), step.server))
  }

  lemma ConfiguredTwice(entries: seq<Server>)
    ensures All(Configured(entries)) == multiset(entries)
    ensures NoServerTwice(Configured(entries)) <==> NothingRepeated(entries, [])
  {
    assert Keys([]) == [] && Keys(Configured(entries).waiting) == entries;
    if NothingRepeated(entries, []) {
      forall e {
        DistinctOnce(entries, e);
      }
    } else {
      var i, j :| 0 <= i < j < |entries| && entries[i] == entries[j];
      RepeatedTwice(entries, i, j);
    }
  }

  lemma RepeatedTwice(es: seq<Server>, i: nat, j: nat)
    requires i < j < |es| && es[i] == es[j]
    ensures multiset(es)[es[i]] >= 2
  {
    assert es == es[..j] + es[j..];
    assert multiset(es) == multiset(es[..j]) + multiset(es[j..]);
    assert es[i] == es[..j][i] && es[j] == es[j..][0];
    assert es[i] in es[..j] && es[i] in es[j..];
  }

  /** In every run: no address and port is there twice if and only if nothing was repeated. */
  lemma {:induction false} NoServerTwiceExactlyWhen(entries: seq<Server>, steps: seq<Step>)
    ensures NoServerTwice(Run(Configured(entries), steps)) <==> NothingRepeated(entries, steps)
    decreases |steps|
  {
    if steps == [] {
      ConfiguredTwice(entries);
    } else {
      var before, step := steps[..|steps| - 1], steps[|steps| - 1];
      NoServerTwiceExactlyWhen(entries, before);
      var s := Run(Configured(entries), before);
      StepAdds(s, step);
      if NoServerTwice(s) {
        TwiceExactlyWhen(s, step);
      } else {
        var e :| All(s)[e] > 1;
        assert All(Apply(s, step))[e] > 1;
      }
    }
  }

  // ---------------------------------------------------------------- the status

  ghost predicate Agrees(s: State) { s.status == StatusOf(|s.servers|) }

  /** Every step keeps the reported status right, except exactly a direct connect that changes its class. */
  lemma StatusExactlyWhen(s: State, step: Step)
    requires Agrees(s)
    ensures Agrees(Apply(s, step)) <==>
              !(step.ConnectTo? && step.connect && Succeeds(NewLink(step.server.address, step.server.port), step.t)
                && |s.servers| < 2)
  {
    if step.Update? {
      UpdateAddsMissing(s, step.list);
    }
    if step.Attempt? {
      assert s.servers + [] == s.servers;
    }
  }

  /** In numbers: which status stands for how many connected servers. */
  lemma AgreesInNumbers(s: State)
    requires Agrees(s)
    ensures s.status == Disconnected <==> |s.servers| == 0
    ensures s.status == ConnectedOne <==> |s.servers| == 1
    ensures s.status == ConnectedTwoOrMore <==> |s.servers| >= 2
    ensures s.status != StatusUnknown
  {
  }

  /** Once a close or a successful pass has reported a status, it stays right over any run without direct connects. */
  lemma {:induction false} StatusStaysRight(s: State, steps: seq<Step>)
    requires Agrees(s)
    requires forall i :: 0 <= i < |steps| ==> !steps[i].ConnectTo?
    ensures Agrees(Run(s, steps))
    decreases |steps|
  {
    if steps != [] {
      StatusStaysRight(s, steps[..|steps| - 1]);
      StatusExactlyWhen(Run(s, steps[..|steps| - 1]), steps[|steps| - 1]);
    }
  }

  /** From a configuration the status is unknown exactly until the first report, and right from then on. */
  lemma {:induction false} StatusFromConfiguration(entries: seq<Server>, steps: seq<Step>)
    requires forall i :: 0 <= i < |steps| ==> !steps[i].ConnectTo?
    ensures var s := Run(Configured(entries), steps);
            (s.status == StatusUnknown && s.servers == []) || Agrees(s)
    decreases |steps|
  {
    if steps != [] {
      var before, step := steps[..|steps| - 1], steps[|steps| - 1];
      StatusFromConfiguration(entries, before);
      var s := Run(Configured(entries), before);
      if Agrees(s) {
        StatusExactlyWhen(s, step);
      } else if step.Update? {
        UpdateAddsMissing(s, step.list);
      }
    }
  }

  /**
   * In numbers: before the first report nothing is listed as connected; from then on the status is disconnected exactly
   * with no server listed, one exactly with one, and two or more exactly with two or more.
   */
  lemma StatusInNumbers(entries: seq<Server>, steps: seq<Step>)
    requires forall i :: 0 <= i < |steps| ==> !steps[i].ConnectTo?
    ensures var s := Run(Configured(entries), steps);
            && (s.status == StatusUnknown ==> |s.servers| == 0)
            && (s.status == Disconnected ==> |s.servers| == 0)
            && (s.status == ConnectedOne <==> |s.servers| == 1)
            && (s.status == ConnectedTwoOrMore <==> |s.servers| >= 2)
            && (s.status != StatusUnknown ==> (s.status == Disconnected <==> |s.servers| == 0))
  {
    StatusFromConfiguration(entries, steps);
    var s := Run(Configured(entries), steps);
    if Agrees(s) {
      AgreesInNumbers(s);
    }
  }

  /** A close reports, whatever the status was; so the last server to go is reported as disconnected. */
  lemma CloseReports(s: State, i: nat)
    requires i < |s.servers|
    ensures var s' := Closed(s, i);
            && (s'.status == Disconnected <==> |s.servers| == 1)
            && (s'.status == ConnectedOne <==> |s.servers| == 2)
            && (s'.status == ConnectedTwoOrMore <==> |s.servers| >= 3)
  {
    AgreesInNumbers(Closed(s, i));
  }

  /** The status that stands for a number of servers. */
  ghost predicate StandsFor(status: Status, n: nat) {
    && (status == Disconnected <==> n == 0)
    && (status == ConnectedOne <==> n == 1)
    && (status == ConnectedTwoOrMore <==> n >= 2)
    && status != StatusUnknown
  }

  /**
   * What is reported, step by step: the number of servers after a pass that connected any, and after a close; the number
   * before, when a direct connect is closed on arrival; and nothing by any other step.
   */
  lemma ReportsExactlyWhen(s: State, step: Step)
    ensures var s' := Apply(s, step);
            match step
            case Attempt(tries) =>
              if |s'.servers| > |s.servers| then StandsFor(s'.status, |s'.servers|) else s'.status == s.status
            case Close(_) => if |s'.servers| < |s.servers| then StandsFor(s'.status, |s'.servers|) else s'.status == s.status
            case StreamEnds(_, _, _) =>
              if |s'.servers| < |s.servers| then StandsFor(s'.status, |s'.servers|) else s'.status == s.status
            case Update(_) => s'.status == s.status
            case ConnectTo(e, connect, t) =>
              if connect && Succeeds(NewLink(e.address, e.port), t) && t.closedQueued then StandsFor(s'.status, |s.servers|)
              else s'.status == s.status
  {
    if step.Update? {
      UpdateAddsMissing(s, step.list);
    }
  }
}

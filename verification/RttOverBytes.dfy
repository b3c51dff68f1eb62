/** The round-trip requests of one client over the byte pipes of a connection, both ways, under any splitting. */
module RttOverBytes {
  import opened Words
  import opened Messages
  import opened Wire
  import opened Session
  import N = Network
  import T = RoundTripTime

  /** The server's client and its peer with a pipe each way; dropped, recorded and asked as for whole messages. */
  datatype Wired = Wired(
    client: Client, down: N.Net, up: N.Net, dropped: seq<Word64>, recorded: seq<Word64>, asked: map<Word64, Word64>)

  /** Down and Up: one send(), header read or later read on a pipe; what a read completes is handled at once. */
  datatype Step =
    | Request(now: Word64)
    | ServerSends(body: Body)
    | PeerSends(body: Body)
    | Down(move: N.Step)
    | Up(move: N.Step, query: Query)

  function Start(uid: nat, names: seq<Text>): Wired { Wired(NewClient(uid, names), N.START, N.START, [], [], map[]) }

  /** Messages handed to sendMsg one after another: their bytes wait behind those of the ones before. */
  function Queued(n: N.Net, ms: seq<Message>): N.Net {
    if ms == [] then n
    else n.(lastId := ms[|ms| - 1].id, sent := n.sent + ms, unsent := n.unsent + N.Frames(ms))
  }

  function Sent(w: Wired, c: Client): Wired {
    if |w.client.sent| <= |c.sent| then w.(client := c, down := Queued(w.down, c.sent[|w.client.sent|..])) else w
  }

  function PeerSent(w: Wired, body: Body): Wired { w.(up := Queued(w.up, [Make(N.NextId(w.up.lastId), body)])) }

  /** The message that a move completes. */
  function Completed(n: N.Net, move: N.Step): Option<Message> {
    var n' := N.Apply(n, move);
    if |n'.got| > |n.got| then n'.got[|n'.got| - 1] else None
  }

  function PeerReads(w: Wired, m: Message): Wired {
    if m.typ == RttRequest then PeerSent(w, BRttResponse(m.id)) else w
  }

  function ServerReads(w: Wired, m: Message, q: Query): Wired {
    var h := Handle(w.client, Some(m), q);
    Sent(w, h.client).(
      dropped := w.dropped + if w.client.identified then [] else T.ResponseId(m),
      recorded := w.recorded + if h.records != [] && h.records[0].AddRtt? then T.ResponseId(m) else [])
  }

  function MovedDown(w: Wired, move: N.Step): Wired {
    var w', m := w.(down := N.Apply(w.down, move)), Completed(w.down, move);
    if m.Some? then PeerReads(w', m.value) else w'
  }

  function MovedUp(w: Wired, move: N.Step, q: Query): Wired {
    var w', m := w.(up := N.Apply(w.up, move)), Completed(w.up, move);
    if m.Some? then ServerReads(w', m.value, q) else w'
  }

  function Apply(w: Wired, step: Step): Wired {
    match step
    case Request(now) => Sent(w, SendRtt(w.client, now)).(asked := w.asked[N.NextId(w.client.lastId) := now])
    case ServerSends(body) => if body.BRttRequest? then w else Sent(w, Send(w.client, body))
    case PeerSends(body) => if body.BRttResponse? then w else PeerSent(w, body)
    case Down(move) => if move.Submit? then w else MovedDown(w, move)
    case Up(move, q) => if move.Submit? then w else MovedUp(w, move, q)
  }

  function Run(w: Wired, steps: seq<Step>): Wired
    decreases |steps|
  {
    if steps == [] then w else Apply(Run(w, steps[..|steps| - 1]), steps[|steps| - 1])
  }

  // ------------------------------------------------------------ the messages in flight

  /** Sent but not received yet. */
  function Pending(n: N.Net): seq<Message> { if |n.got| <= |n.sent| then n.sent[|n.got|..] else [] }

  /** What the receiver will make of a message. */
  function Heard(m: Message): Message { if Normal(m).Some? then Normal(m).value else m }

  function AllHeard(ms: seq<Message>): (r: seq<Message>)
    ensures |r| == |ms| && forall i :: 0 <= i < |ms| ==> r[i] == Heard(ms[i])
  {
    seq(|ms|, i requires 0 <= i < |ms| => Heard(ms[i]))
  }

  /** The system of whole messages that the bytes stand for. */
  function Abs(w: Wired): T.System {
    T.System(w.client, Pending(w.down), AllHeard(Pending(w.up)), w.dropped, w.recorded, w.asked)
  }

  /** The step of whole messages that a step on bytes is, if it is one. */
  function AbsStep(w: Wired, step: Step): (r: seq<T.Step>)
    ensures |r| <= 1
  {
    match step
    case Request(now) => [T.Request(now)]
    case ServerSends(body) => [T.ServerSends(TypeOf(body), body)]
    case PeerSends(body) => [T.PeerSends(Heard(Make(N.NextId(w.up.lastId), body)))]
    case Down(move) =>
      if move.Submit? || Completed(w.down, move).None? then [] else [T.PeerReads(N.NextId(w.up.lastId))]
    case Up(move, q) => if move.Submit? || Completed(w.up, move).None? then [] else [T.ServerReads(q)]
  }

  function AbsSteps(w: Wired, steps: seq<Step>): seq<T.Step>
    decreases |steps|
  {
    if steps == [] then [] else
      AbsSteps(w, steps[..|steps| - 1]) + AbsStep(Run(w, steps[..|steps| - 1]), steps[|steps| - 1])
  }

  /** Everything either side sends fits a frame, and neither sends closed. */
  ghost predicate Fine(w: Wired) { AllFine(w.client.sent) && AllFine(w.up.sent) }

  ghost predicate AllFine(ms: seq<Message>) { forall m :: m in ms ==> N.WellFormed(m) && m.typ != Closed }

  ghost predicate Inv(w: Wired) {
    && N.Inv(w.down) && N.Inv(w.up)
    && w.down.sent == w.client.sent && w.down.lastId == w.client.lastId
    && ClientOk(w.client)
  }

  // ------------------------------------------------------------ one pipe

  lemma {:induction false} FramesConcat(a: seq<Message>, b: seq<Message>)
    ensures N.Frames(a + b) == N.Frames(a) + N.Frames(b)
    decreases |a|
  {
    hide Frame;
    if a == [] {
      assert a + b == b;
    } else {
      assert (a + b)[1..] == a[1..] + b;
      FramesConcat(a[1..], b);
    }
  }

  /** Sending one message when nothing waits is the pipe's own step. */
  lemma QueuedIsSubmit(n: N.Net, body: Body)
    requires n.unsent == []
    ensures Queued(n, [Make(N.NextId(n.lastId), body)]) == N.Apply(n, N.Submit(body))
  {
    hide Frame;
    var m := Make(N.NextId(n.lastId), body);
    assert N.Frames([m]) == Frame(m) by {
      assert [m][1..] == [];
      assert N.Frames([]) == [] && Frame(m) + [] == Frame(m);
    }
    assert [] + Frame(m) == Frame(m);
  }

  lemma QueuedKeeps(n: N.Net, ms: seq<Message>)
    requires N.Inv(n) && N.Ledger(n.sent + ms, Queued(n, ms).lastId)
    ensures N.Inv(Queued(n, ms)) && Pending(Queued(n, ms)) == Pending(n) + ms
  {
    hide N.Ledger, N.Pipe, N.Frames;
    PipeBound(n);
    QueuedPipe(n, ms);
    Slices(n.sent, ms, |n.got|);
    assert ms == [] ==> n.sent + ms == n.sent && Pending(n) + ms == Pending(n);
  }

  lemma PipeBound(n: N.Net)
    requires N.Pipe(n)
    ensures |n.got| <= |n.sent|
  {
  }

  lemma QueuedPipe(n: N.Net, ms: seq<Message>)
    requires N.Pipe(n)
    ensures N.Pipe(Queued(n, ms))
  {
    hide Frame, N.Frames, N.Normals;
    var k, n' := |n.got|, Queued(n, ms);
    if ms != [] {
      assert n'.sent[..k] == n.sent[..k] && (k < |n.sent| ==> n'.sent[k] == n.sent[k]) by {
        Slices(n.sent, ms, k);
      }
      assert n'.partial + (n'.wire + n'.unsent) == N.Frames(n'.sent[k..]) by {
        Slices(n.sent, ms, k);
        FramesConcat(n.sent[k..], ms);
        Regroup(n.partial, n.wire, n.unsent, N.Frames(ms));
      }
    }
  }

  lemma Regroup(a: seq<byte>, b: seq<byte>, c: seq<byte>, d: seq<byte>)
    ensures a + (b + (c + d)) == (a + (b + c)) + d
  {
  }

  lemma Slices(a: seq<Message>, b: seq<Message>, k: nat)
    requires k <= |a|
    ensures (a + b)[k..] == a[k..] + b && (a + b)[..k] == a[..k] && (k < |a| ==> (a + b)[k] == a[k])
  {
  }

  /** A pipe is a queue of messages: a move takes nothing out, or the first message, as its receiver hears it. */
  lemma MoveTakesFirst(n: N.Net, move: N.Step)
    requires N.Inv(n) && !move.Submit? && AllFine(n.sent)
    ensures var n', m := N.Apply(n, move), Completed(n, move);
            && N.Inv(n') && n'.sent == n.sent && n'.lastId == n.lastId
            && if m.None? then Pending(n') == Pending(n)
               else Pending(n) != [] && m.value == Heard(Pending(n)[0]) && Pending(n') == Pending(n)[1..]
  {
    hide N.Ledger, N.WellFormed, N.Frames, Frame, Normal;
    N.StepKeeps(n, move);
    MoveKeepsSent(n, move);
    var n' := N.Apply(n, move);
    hide N.Apply;
    PipeBound(n);
    PipeGot(n');
    if |n'.got| > |n.got| {
      assert n.sent[|n.got|] in n.sent;
      FineIsHeard(n.sent[|n.got|]);
    }
  }

  lemma PipeGot(n: N.Net)
    requires N.Pipe(n)
    ensures |n.got| <= |n.sent| && forall i :: 0 <= i < |n.got| ==> n.got[i] == Normal(n.sent[i])
  {
  }

  lemma FineIsHeard(m: Message)
    requires m.typ != Closed
    ensures Normal(m) == Some(Heard(m))
  {
  }

  lemma MoveKeepsSent(n: N.Net, move: N.Step)
    requires !move.Submit?
    ensures var n' := N.Apply(n, move);
            n'.sent == n.sent && n'.lastId == n.lastId && |n.got| <= |n'.got| <= |n.got| + 1
  {
    hide Decode;
  }

  // ------------------------------------------------------------ one step

  lemma SentKeeps(w: Wired, c: Client)
    requires Inv(w) && ClientOk(c) && w.client.sent <= c.sent && AllFine(c.sent)
    ensures Inv(Sent(w, c)) && Abs(Sent(w, c)) == T.AfterSend(Abs(w), c)
  {
    hide N.Ledger, N.Pipe, N.Frames, ClientOk, AllFine, Pending, AllHeard;
    var more := c.sent[|w.client.sent|..];
    NewOnWire(w.client, c);
    LedgerOf(c);
    QueuedKeeps(w.down, more);
    assert Sent(w, c) == w.(client := c, down := Queued(w.down, more));
  }

  lemma NewOnWire(c: Client, c': Client)
    requires ClientOk(c) && ClientOk(c') && c.sent <= c'.sent
    ensures var more := c'.sent[|c.sent|..];
            c.sent + more == c'.sent && c'.lastId == if more == [] then c.lastId else more[|more| - 1].id
  {
  }

  lemma LedgerOf(c: Client)
    requires ClientOk(c) && AllFine(c.sent)
    ensures N.Ledger(c.sent, c.lastId)
  {
    hide N.WellFormed;
  }

  lemma PeerSentKeeps(w: Wired, body: Body)
    requires Inv(w) && AllFine(PeerSent(w, body).up.sent)
    ensures var m := Make(N.NextId(w.up.lastId), body);
            Inv(PeerSent(w, body)) && Abs(PeerSent(w, body)) == Abs(w).(up := Abs(w).up + [Heard(m)])
  {
    var m := Make(N.NextId(w.up.lastId), body);
    assert N.Ledger(w.up.sent + [m], m.id) by {
      LedgerGrows(w.up, m);
    }
    hide N.Ledger, N.Pipe, ClientOk, AllFine, Pending;
    QueuedKeeps(w.up, [m]);
    HeardSnoc(Pending(w.up), m);
  }

  lemma HeardSnoc(ms: seq<Message>, m: Message)
    ensures AllHeard(ms + [m]) == AllHeard(ms) + [Heard(m)]
  {
    hide Heard;
  }

  lemma LedgerGrows(n: N.Net, m: Message)
    requires N.Ledger(n.sent, n.lastId) && m.id == N.NextId(n.lastId) && AllFine(n.sent + [m])
    ensures N.Ledger(n.sent + [m], m.id)
  {
    hide N.WellFormed;
    N.NextIdCounts(|n.sent|);
  }

  /** What the two ends look at in a message is what was sent. */
  lemma HeardKind(m: Message)
    requires m.typ != Closed
    ensures Heard(m).id == m.id && (Heard(m).typ == RttRequest <==> m.typ == RttRequest)
    ensures Heard(m).typ == RttResponse <==> m.typ == RttResponse
  {
  }

  lemma HeardResponse(id: Word64, request: Word64)
    ensures Heard(Make(id, BRttResponse(request))) == Make(id, BRttResponse(request))
  {
  }

  lemma ServerSendsRefines(w: Wired, step: Step)
    requires Inv(w) && Fine(Apply(w, step)) && (step.Request? || step.ServerSends?)
    ensures Inv(Apply(w, step)) && Abs(Apply(w, step)) == T.Apply(Abs(w), AbsStep(w, step)[0])
  {
    hide N.Inv, Pending, AllHeard, Handle, Queued;
    match step
    case Request(now) =>
      CallsKeep(w.client, Query(now, None, None, []));
      SentKeeps(w, SendRtt(w.client, now));
    case ServerSends(body) =>
      if !body.BRttRequest? {
        SendKeepsNumbered(w.client, TypeOf(body), body);
        SentKeeps(w, Send(w.client, body));
      }
  }

  lemma PeerSendsRefines(w: Wired, body: Body)
    requires Inv(w) && Fine(PeerSent(w, body)) && !body.BRttResponse?
    ensures Inv(PeerSent(w, body))
    ensures Abs(PeerSent(w, body)) == T.Apply(Abs(w), T.PeerSends(Heard(Make(N.NextId(w.up.lastId), body))))
  {
    var m := Make(N.NextId(w.up.lastId), body);
    hide N.Inv, N.WellFormed, N.Frames, Pending, AllHeard, Heard, ClientOk, Handle, T.AfterSend;
    assert m.typ != Closed by {
      assert (w.up.sent + [m])[|w.up.sent|] in PeerSent(w, body).up.sent;
    }
    HeardKind(m);
    PeerSentKeeps(w, body);
  }

  /** The peer's responses are its answers only. */
  lemma ResponsesAreAnswers(w: Wired, body: Body)
    requires body.BRttResponse?
    ensures T.Apply(Abs(w), T.PeerSends(Heard(Make(N.NextId(w.up.lastId), body)))) == Abs(w)
  {
    HeardKind(Make(N.NextId(w.up.lastId), body));
    hide Abs;
  }

  lemma DownRefines(w: Wired, move: N.Step)
    requires Inv(w) && Fine(w) && Fine(MovedDown(w, move)) && !move.Submit?
    ensures var w' := MovedDown(w, move);
            Inv(w') && Abs(w') == if Completed(w.down, move).None? then Abs(w) else T.Apply(Abs(w), T.PeerReads(N.NextId(w.up.lastId)))
  {
    hide N.Inv, N.Apply, AllFine, AllHeard, Heard, Pending, Completed, ClientOk, PeerReads, ServerReads, T.Apply;
    MoveTakesFirst(w.down, move);
    var w1, m := w.(down := N.Apply(w.down, move)), Completed(w.down, move);
    if m.Some? {
      PeerReadsRefines(w, w1, m.value);
    }
  }

  lemma PeerReadsRefines(w: Wired, w1: Wired, m: Message)
    requires Inv(w) && Inv(w1) && Fine(w) && Fine(PeerReads(w1, m))
    requires w1 == w.(down := w1.down) && Pending(w.down) != []
    requires m == Heard(Pending(w.down)[0]) && Pending(w1.down) == Pending(w.down)[1..]
    ensures Inv(PeerReads(w1, m)) && Abs(PeerReads(w1, m)) == T.Apply(Abs(w), T.PeerReads(N.NextId(w.up.lastId)))
  {
    var first, id := Pending(w.down)[0], N.NextId(w.up.lastId);
    hide N.Inv, N.WellFormed, N.Frames, ClientOk, AllHeard, Heard, T.Apply, Queued;
    assert first.typ != Closed by {
      assert first in w.down.sent;
    }
    HeardKind(first);
    PeerReadsWhole(Abs(w), id);
    hide Pending;
    if first.typ == RttRequest {
      HeardResponse(id, first.id);
      PeerSentKeeps(w1, BRttResponse(first.id));
    }
  }

  lemma PeerReadsWhole(s: T.System, id: Word64)
    requires s.down != []
    ensures var m, s' := s.down[0], s.(down := s.down[1..]);
            T.Apply(s, T.PeerReads(id)) ==
            if m.typ == RttRequest then s'.(up := s.up + [Make(id, BRttResponse(m.id))]) else s'
  {
    assert s.up + [] == s.up;
  }

  lemma UpRefines(w: Wired, move: N.Step, q: Query)
    requires Inv(w) && Fine(w) && Fine(MovedUp(w, move, q)) && !move.Submit?
    ensures var w' := MovedUp(w, move, q);
            Inv(w') && Abs(w') == if Completed(w.up, move).None? then Abs(w) else T.Apply(Abs(w), T.ServerReads(q))
  {
    hide N.Inv, N.Apply, AllFine, AllHeard, Heard, Pending, Completed, ClientOk, PeerReads, ServerReads, T.Apply;
    MoveTakesFirst(w.up, move);
    var w1, m := w.(up := N.Apply(w.up, move)), Completed(w.up, move);
    if m.Some? {
      ServerReadsRefines(w, w1, m.value, q);
    }
  }

  lemma ServerReadsRefines(w: Wired, w1: Wired, m: Message, q: Query)
    requires Inv(w) && Inv(w1) && Fine(w) && Fine(ServerReads(w1, m, q))
    requires w1 == w.(up := w1.up) && Pending(w.up) != []
    requires m == Heard(Pending(w.up)[0]) && Pending(w1.up) == Pending(w.up)[1..]
    ensures Inv(ServerReads(w1, m, q)) && Abs(ServerReads(w1, m, q)) == T.Apply(Abs(w), T.ServerReads(q))
  {
    HeardRest(Pending(w.up));
    HandleKeeps(w.client, Some(m), q);
    T.HandleExtends(w.client, m, q);
    hide N.Inv, N.Apply, AllHeard, Heard, Pending, Handle, Queued;
    SentKeeps(w1, Handle(w.client, Some(m), q).client);
  }

  lemma HeardRest(ms: seq<Message>)
    requires ms != []
    ensures AllHeard(ms)[0] == Heard(ms[0]) && AllHeard(ms[1..]) == AllHeard(ms)[1..]
  {
    hide Heard;
  }

  /** Every step on bytes is a step on whole messages, or none. */
  lemma StepRefines(w: Wired, step: Step)
    requires Inv(w) && Fine(w) && Fine(Apply(w, step))
    ensures var w', steps := Apply(w, step), AbsStep(w, step);
            Inv(w') && Abs(w') == if steps == [] then Abs(w) else T.Apply(Abs(w), steps[0])
  {
    hide N.Inv, N.Apply, AllHeard, Pending, Handle, T.Apply, Fine, Heard, Abs, MovedDown, MovedUp, Completed;
    match step
    case Request(_) => ServerSendsRefines(w, step);
    case ServerSends(_) => ServerSendsRefines(w, step);
    case PeerSends(body) =>
      if body.BRttResponse? {
        ResponsesAreAnswers(w, body);
      } else {
        PeerSendsRefines(w, body);
      }
    case Down(move) =>
      if !move.Submit? {
        DownRefines(w, move);
      }
    case Up(move, q) =>
      if !move.Submit? {
        UpRefines(w, move, q);
      }
  }

  /** What has been sent stays sent. */
  lemma FineBefore(w: Wired, step: Step)
    requires Fine(Apply(w, step))
    ensures Fine(w)
  {
    var w' := Apply(w, step);
    SentGrows(w, step);
    assert forall m :: m in w.client.sent ==> m in w'.client.sent;
    assert forall m :: m in w.up.sent ==> m in w'.up.sent;
  }

  lemma SentGrows(w: Wired, step: Step)
    ensures w.client.sent <= Apply(w, step).client.sent && w.up.sent <= Apply(w, step).up.sent
  {
    match step
    case Down(move) =>
      if !move.Submit? {
        MoveKeepsSent(w.down, move);
      }
    case Up(move, q) =>
      if !move.Submit? {
        MoveKeepsSent(w.up, move);
        var m := Completed(w.up, move);
        if m.Some? {
          T.HandleExtends(w.client, m.value, q);
        }
      }
    case _ =>
  }

  /** Every run on bytes, however they are split, is a run of whole messages. */
  lemma {:induction false} RunRefines(uid: nat, names: seq<Text>, steps: seq<Step>)
    requires Fine(Run(Start(uid, names), steps))
    ensures var w0 := Start(uid, names);
            && Inv(Run(w0, steps))
            && Abs(Run(w0, steps)) == T.Run(T.Init(uid, names), AbsSteps(w0, steps))
    decreases |steps|
  {
    var w0 := Start(uid, names);
    hide N.Inv, Apply, Abs, AbsStep, T.Apply, Fine;
    StartRefines(uid, names);
    if steps != [] {
      var before, step := steps[..|steps| - 1], steps[|steps| - 1];
      FineBefore(Run(w0, before), step);
      RunRefines(uid, names, before);
      StepRefines(Run(w0, before), step);
      OneMore(uid, names, AbsSteps(w0, before), AbsStep(Run(w0, before), step));
    }
  }

  lemma StartRefines(uid: nat, names: seq<Text>)
    ensures Inv(Start(uid, names)) && Abs(Start(uid, names)) == T.Init(uid, names)
  {
  }

  lemma OneMore(uid: nat, names: seq<Text>, steps: seq<T.Step>, more: seq<T.Step>)
    requires |more| <= 1
    ensures var s := T.Run(T.Init(uid, names), steps);
            T.Run(T.Init(uid, names), steps + more) == if more == [] then s else T.Apply(s, more[0])
  {
    if more == [] {
      assert steps + more == steps;
    } else {
      assert (steps + more)[..|steps|] == steps;
    }
  }

  // ------------------------------------------------------------ what it means

  /** So on bytes too the outstanding requests match the messages in flight, each is recorded once and has its time. */
  lemma Matched(uid: nat, names: seq<Text>, steps: seq<Step>)
    requires Fine(Run(Start(uid, names), steps))
    ensures T.Inv(Abs(Run(Start(uid, names), steps)))
  {
    RunRefines(uid, names, steps);
    T.RunKeeps(uid, names, AbsSteps(Start(uid, names), steps));
  }

  /**
   * A read that completes a response from an identified client, after any splitting: it matches one entry, and the
   * time recorded is the one since the request with that id was sent.
   */
  lemma CompletedResponseMatches(uid: nat, names: seq<Text>, steps: seq<Step>, move: N.Step, q: Query)
    requires Fine(Run(Start(uid, names), steps)) && !move.Submit?
    requires var w := Run(Start(uid, names), steps);
             && |w.client.sent| < TWO64 && w.client.identified
             && Completed(w.up, move).Some? && T.IsResponse(Completed(w.up, move).value)
    ensures var w := Run(Start(uid, names), steps);
            var m, rtts, k := Completed(w.up, move).value, w.client.outstanding, |w.dropped|;
            var id := m.body.requestId;
            && k < |rtts| && rtts[k].reqid == id && (forall j :: 0 <= j < |rtts| && j != k ==> rtts[j].reqid != id)
            && id in w.asked
            && Handle(w.client, Some(m), q).records == [AddRtt(w.client.name, SizeSub(q.now, w.asked[id]))]
  {
    var w := Run(Start(uid, names), steps);
    RunRefines(uid, names, steps);
    MoveTakesFirst(w.up, move);
    HeardRest(Pending(w.up));
    T.ResponseMatchesOne(uid, names, AbsSteps(Start(uid, names), steps), q);
  }

  /** And each request is recorded once at most. */
  lemma AtMostOneRecord(uid: nat, names: seq<Text>, steps: seq<Step>, id: Word64)
    requires Fine(Run(Start(uid, names), steps)) && |Run(Start(uid, names), steps).client.sent| < TWO64
    ensures multiset(Run(Start(uid, names), steps).recorded)[id] <= 1
  {
    RunRefines(uid, names, steps);
    T.AtMostOneRecord(uid, names, AbsSteps(Start(uid, names), steps), id);
  }
}

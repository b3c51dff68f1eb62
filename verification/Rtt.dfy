/** Round-trip-time requests of one client over whole runs, with messages in flight both ways. */
module RoundTripTime {
  import opened Words
  import opened Messages
  import opened Network
  import opened Session

  /**
   * down and up: messages in flight to and from the peer, in order. dropped: ids answered before the server had
   * identified the client; recorded: ids whose round trip was recorded; asked: when the request with an id was sent.
   */
  datatype System = System(
    client: Client, down: seq<Message>, up: seq<Message>, dropped: seq<Word64>, recorded: seq<Word64>,
    asked: map<Word64, Word64>)

  datatype Step =
    | Request(now: Word64)
    | ServerSends(typ: MsgType, body: Body)
    | ServerReads(query: Query)
    | PeerReads(id: Word64)
    | PeerSends(m: Message)

  function Init(uid: nat, names: seq<Text>): System { System(NewClient(uid, names), [], [], [], [], map[]) }

  predicate IsResponse(m: Message) { m.typ == RttResponse && m.body.BRttResponse? }

  function ResponseId(m: Message): seq<Word64> { if IsResponse(m) then [m.body.requestId] else [] }

  function RequestId(m: Message): seq<Word64> { if m.typ == RttRequest then [m.id] else [] }

  /** The server sends: what is new on its wire is now in flight. */
  function AfterSend(s: System, c: Client): System {
    if |s.client.sent| <= |c.sent| then s.(client := c, down := s.down + c.sent[|s.client.sent|..]) else s
  }

  /**
   * The peer answers each request with the request's id and sends no other response; the server sends requests
   * in its rounds only; messages are read in the order they were sent.
   */
  function Apply(s: System, step: Step): System {
    match step
    case Request(now) =>
      AfterSend(s, SendRtt(s.client, now)).(asked := s.asked[NextId(s.client.lastId) := now])
    case ServerSends(typ, body) => if typ == RttRequest then s else AfterSend(s, SendAs(s.client, typ, body))
    case PeerSends(m) => if m.typ == RttResponse then s else s.(up := s.up + [m])
    case PeerReads(id) =>
      if s.down == [] then s else
        var m := s.down[0];
        s.(down := s.down[1..], up := s.up + if m.typ == RttRequest then [Make(id, BRttResponse(m.id))] else [])
    case ServerReads(q) =>
      if s.up == [] then s else
        var m := s.up[0];
        var h := Handle(s.client, Some(m), q);
        AfterSend(s, h.client).(
          up := s.up[1..],
          dropped := s.dropped + if s.client.identified then [] else ResponseId(m),
          recorded := s.recorded + if h.records != [] && h.records[0].AddRtt? then ResponseId(m) else [])
  }

  function Run(s: System, steps: seq<Step>): System
    decreases |steps|
  {
    if steps == [] then s else Apply(Run(s, steps[..|steps| - 1]), steps[|steps| - 1])
  }

  // ------------------------------------------------------------ the invariant

  function Outstanding(rtts: seq<Rtt>): (r: seq<Word64>)
    ensures |r| == |rtts| && forall i :: 0 <= i < |rtts| ==> r[i] == rtts[i].reqid
  {
    seq(|rtts|, i requires 0 <= i < |rtts| => rtts[i].reqid)
  }

  function ResponseIds(ms: seq<Message>): seq<Word64> {
    if ms == [] then [] else ResponseId(ms[0]) + ResponseIds(ms[1..])
  }

  function RequestIds(ms: seq<Message>): seq<Word64> {
    if ms == [] then [] else RequestId(ms[0]) + RequestIds(ms[1..])
  }

  ghost predicate Increasing(ids: seq<Word64>) { forall i, j :: 0 <= i < j < |ids| ==> ids[i] < ids[j] }

  /** Outstanding: the answers dropped, then the answers in flight, then the requests in flight, in id order. */
  ghost predicate Matched(s: System) {
    && Outstanding(s.client.outstanding) == s.dropped + (ResponseIds(s.up) + RequestIds(s.down))
    && Increasing(Outstanding(s.client.outstanding))
    && (forall id :: id in Outstanding(s.client.outstanding) ==> id <= s.client.lastId)
  }

  /** Each request is recorded or outstanding, never both, and recorded at most once. */
  ghost predicate RecordedOnce(s: System) {
    multiset(s.recorded) + multiset(Outstanding(s.client.outstanding)) == multiset(RequestIds(s.client.sent))
  }

  /** Every entry has the time its request was sent. */
  ghost predicate Stamped(s: System) {
    forall i :: 0 <= i < |s.client.outstanding| ==>
      var e := s.client.outstanding[i]; e.reqid in s.asked && s.asked[e.reqid] == e.ts
  }

  ghost predicate Inv(s: System) {
    && ClientOk(s.client)
    && (|s.client.sent| < TWO64 ==> Matched(s) && RecordedOnce(s) && Stamped(s))
  }

  lemma IdsSplit(a: seq<Message>, b: seq<Message>)
    ensures ResponseIds(a + b) == ResponseIds(a) + ResponseIds(b)
    ensures RequestIds(a + b) == RequestIds(a) + RequestIds(b)
  {
    ResponsesSplit(a, b);
    RequestsSplit(a, b);
  }

  lemma {:induction false} ResponsesSplit(a: seq<Message>, b: seq<Message>)
    ensures ResponseIds(a + b) == ResponseIds(a) + ResponseIds(b)
    decreases |a|
  {
    if a == [] {
      assert a + b == b;
    } else {
      assert (a + b)[1..] == a[1..] + b;
      ResponsesSplit(a[1..], b);
    }
  }

  lemma {:induction false} RequestsSplit(a: seq<Message>, b: seq<Message>)
    ensures RequestIds(a + b) == RequestIds(a) + RequestIds(b)
    decreases |a|
  {
    if a == [] {
      assert a + b == b;
    } else {
      assert (a + b)[1..] == a[1..] + b;
      RequestsSplit(a[1..], b);
    }
  }

  lemma OneId(m: Message)
    ensures ResponseIds([m]) == ResponseId(m) && RequestIds([m]) == RequestId(m)
  {
    assert [m][1..] == [];
  }

  // ------------------------------------------------------------ what the server sends

  /** c' has sent what c has, and then no request. */
  ghost predicate Extends(c: Client, c': Client) {
    c.sent <= c'.sent && RequestIds(c'.sent[|c.sent|..]) == []
  }

  lemma ExtendsTwice(a: Client, b: Client, c: Client)
    requires Extends(a, b) && Extends(b, c)
    ensures Extends(a, c)
  {
    assert c.sent[|a.sent|..] == b.sent[|a.sent|..] + c.sent[|b.sent|..];
    IdsSplit(b.sent[|a.sent|..], c.sent[|b.sent|..]);
  }

  lemma SendExtends(c: Client, typ: MsgType, body: Body)
    requires typ != RttRequest
    ensures Extends(c, SendAs(c, typ, body))
  {
    var m := Message(NextId(c.lastId), typ, body);
    assert SendAs(c, typ, body).sent[|c.sent|..] == [m];
    OneId(m);
  }

  lemma SameExtends(c: Client, c': Client)
    requires c'.sent == c.sent
    ensures Extends(c, c')
  {
    assert c'.sent[|c.sent|..] == [];
  }

  lemma CommandExtends(c: Client, q: Query)
    ensures Extends(c, SendCommand(c, q))
  {
    hide Extends;
    SameExtends(c, c);
    if q.command.Some? {
      var a := q.command.value;
      var c1 := c.(lastSendTs := q.now, lastDbid := a.dbid);
      SameExtends(c, c1);
      SendExtends(c1, Command, CommandBody(a));
      ExtendsTwice(c, c1, Send(c1, CommandBody(a)));
    }
  }

  lemma SettingsExtend(c: Client, q: Query)
    ensures Extends(c, SendSmm(c, q))
  {
    hide Extends;
    SameExtends(c, c);
    if q.smm.Some? {
      SendExtends(c, SmmSettings, BSmm(q.smm.value.address, q.smm.value.username, q.smm.value.password));
    }
  }

  lemma IdentityExtends(c: Client, name: Text, q: Query)
    ensures Extends(c, HandleIdentity(c, name, q).client)
  {
    hide Extends, SendCommand, SendSmm, SendAs;
    if Accepted(c.names, name) {
      var c1 := c.(name := name, identified := true, aircraft := true);
      var c2 := SendCommand(c1, q);
      var c3 := SendSmm(c2, q);
      SameExtends(c, c1);
      CommandExtends(c1, q);
      SettingsExtend(c2, q);
      SendExtends(c3, ServerList, BServerList(q.servers));
      ExtendsTwice(c, c1, c2);
      ExtendsTwice(c, c2, c3);
      ExtendsTwice(c, c3, HandleIdentity(c, name, q).client);
    } else {
      SameExtends(c, c.(name := name));
    }
  }

  lemma HandleExtends(c: Client, m: Message, q: Query)
    ensures Extends(c, Handle(c, Some(m), q).client)
  {
    hide Extends, HandleIdentity, SendAs;
    var c' := Handle(c, Some(m), q).client;
    SendExtends(c, RttResponse, BRttResponse(m.id));
    SendExtends(c, IdentityRequired, BIdentityRequired);
    if !c.identified && IsIdentity(m) {
      IdentityExtends(c, m.body.name, q);
    } else if c'.sent == c.sent {
      SameExtends(c, c');
    }
  }

  /** What a message does to the list of outstanding requests. */
  lemma HandleOutstanding(c: Client, m: Message, q: Query)
    ensures var h := Handle(c, Some(m), q);
            if c.identified && IsResponse(m) then
              h == HandleRttResponse(c, m.body.requestId, q.now)
            else
              h.client.outstanding == c.outstanding && !(h.records != [] && h.records[0].AddRtt?)
  {
  }

  // ------------------------------------------------------------ the steps

  /** A system whose server side has sent more, but no request. */
  lemma QuietSend(s: System, c: Client)
    requires |c.sent| < TWO64 && Extends(s.client, c) && c.outstanding == s.client.outstanding
    requires c.lastId == |c.sent| && s.client.lastId == |s.client.sent|
    requires Matched(s) && RecordedOnce(s)
    ensures Matched(AfterSend(s, c)) && RecordedOnce(AfterSend(s, c))
  {
    hide RequestIds, ResponseIds;
    var added := c.sent[|s.client.sent|..];
    assert c.sent == s.client.sent + added;
    IdsSplit(s.client.sent, added);
    IdsSplit(s.down, added);
    assert RequestIds(s.down) + [] == RequestIds(s.down);
    assert RequestIds(s.client.sent) + [] == RequestIds(s.client.sent);
  }

  lemma NewRequest(s: System, now: Word64)
    ensures var s', id := Apply(s, Request(now)), NextId(s.client.lastId);
            && s'.client.lastId == id && s' == s.(client := s'.client, down := s'.down, asked := s.asked[id := now])
            && RequestIds(s'.client.sent) == RequestIds(s.client.sent) + [id]
            && RequestIds(s'.down) == RequestIds(s.down) + [id]
            && Outstanding(s'.client.outstanding) == Outstanding(s.client.outstanding) + [id]
  {
    hide RequestIds, ResponseIds;
    var c := SendRtt(s.client, now);
    var m := Make(NextId(s.client.lastId), BRttRequest);
    assert c.sent == s.client.sent + [m];
    assert c.sent[|s.client.sent|..] == [m];
    OneId(m);
    IdsSplit(s.client.sent, [m]);
    IdsSplit(s.down, [m]);
  }

  lemma RequestKeeps(s: System, now: Word64)
    requires |s.client.sent| + 1 < TWO64 && s.client.lastId == |s.client.sent|
    requires Matched(s) && RecordedOnce(s)
    ensures Matched(Apply(s, Request(now))) && RecordedOnce(Apply(s, Request(now)))
  {
    hide Apply, RequestIds, ResponseIds;
    NewRequest(s, now);
    var before, id := Outstanding(s.client.outstanding), NextId(s.client.lastId);
    assert before + [id] == s.dropped + (ResponseIds(s.up) + (RequestIds(s.down) + [id]));
    assert forall i :: 0 <= i < |before| ==> before[i] in before;
  }

  lemma PeerKeeps(s: System, id: Word64)
    requires Matched(s)
    ensures Matched(Apply(s, PeerReads(id)))
  {
    hide RequestIds, ResponseIds, Increasing;
    if s.down != [] {
      var m := s.down[0];
      assert s.down == [m] + s.down[1..];
      IdsSplit([m], s.down[1..]);
      OneId(m);
      if m.typ == RttRequest {
        var answer := Make(id, BRttResponse(m.id));
        OneId(answer);
        IdsSplit(s.up, [answer]);
        assert ResponseIds(s.up) + ([m.id] + RequestIds(s.down[1..]))
            == (ResponseIds(s.up) + [m.id]) + RequestIds(s.down[1..]);
      } else {
        assert s.up + [] == s.up;
        assert [] + RequestIds(s.down[1..]) == RequestIds(s.down[1..]);
      }
    }
  }

  /** The response at the head of the line finds its request right behind the dropped ones. */
  lemma HeadMatches(s: System)
    requires Matched(s) && s.up != [] && IsResponse(s.up[0])
    ensures var ids, k := Outstanding(s.client.outstanding), |s.dropped|;
            && k < |ids| && ids[k] == s.up[0].body.requestId
            && LastWith(s.client.outstanding, s.up[0].body.requestId) == k
            && forall j :: 0 <= j < |ids| && j != k ==> ids[j] != s.up[0].body.requestId
  {
    var ids, k := Outstanding(s.client.outstanding), |s.dropped|;
    assert ResponseIds(s.up)[0] == s.up[0].body.requestId;
    assert ids[k] == (ResponseIds(s.up) + RequestIds(s.down))[0];
  }

  /** The state with the head of the line taken off, and dropped if it is a response. */
  function Skipped(s: System): System
    requires s.up != []
  {
    s.(up := s.up[1..], dropped := s.dropped + ResponseId(s.up[0]))
  }

  lemma SkippedMatches(s: System)
    requires s.up != [] && Matched(s)
    ensures Matched(Skipped(s))
  {
    hide RequestIds, ResponseIds, Increasing;
    var m := s.up[0];
    assert s.up == [m] + s.up[1..];
    IdsSplit([m], s.up[1..]);
    OneId(m);
    assert (s.dropped + ResponseId(m)) + (ResponseIds(s.up[1..]) + RequestIds(s.down))
        == s.dropped + ((ResponseId(m) + ResponseIds(s.up[1..])) + RequestIds(s.down));
  }

  lemma QuietRead(s: System, q: Query)
    requires s.up != [] && !(s.client.identified && IsResponse(s.up[0]))
    ensures Apply(s, ServerReads(q)) == AfterSend(Skipped(s), Handle(s.client, Some(s.up[0]), q).client)
  {
    HandleOutstanding(s.client, s.up[0], q);
    hide Handle;
    assert s.dropped + [] == s.dropped && s.recorded + [] == s.recorded;
  }

  /** Reading a message that is no response, or one that comes too early to count. */
  lemma QuietReadKeeps(s: System, q: Query)
    requires s.up != [] && !(s.client.identified && IsResponse(s.up[0]))
    requires ClientOk(s.client) && |Apply(s, ServerReads(q)).client.sent| < TWO64
    requires Matched(s) && RecordedOnce(s)
    ensures Matched(Apply(s, ServerReads(q))) && RecordedOnce(Apply(s, ServerReads(q)))
  {
    var c := Handle(s.client, Some(s.up[0]), q).client;
    HandleExtends(s.client, s.up[0], q);
    HandleOutstanding(s.client, s.up[0], q);
    HandleKeeps(s.client, Some(s.up[0]), q);
    QuietRead(s, q);
    SkippedMatches(s);
    hide Handle, Matched, RequestIds, ResponseIds, Outstanding, Apply;
    QuietSend(Skipped(s), c);
  }

  /** The state with the response at the head of the line recorded and its request taken off the list. */
  function Answered(s: System): System
    requires s.up != [] && IsResponse(s.up[0]) && |s.dropped| < |s.client.outstanding|
  {
    var rtts, k := s.client.outstanding, |s.dropped|;
    s.(client := s.client.(outstanding := rtts[..k] + rtts[k + 1..]), up := s.up[1..],
       recorded := s.recorded + [s.up[0].body.requestId])
  }

  /** A response that counts takes its entry off the list and makes a record; nothing else changes. */
  lemma ResponseRead(s: System, q: Query)
    requires s.up != [] && s.client.identified && IsResponse(s.up[0])
    requires Matched(s)
    ensures var k, id, rtts := |s.dropped|, s.up[0].body.requestId, s.client.outstanding;
            && k < |rtts| && rtts[k].reqid == id
            && Handle(s.client, Some(s.up[0]), q).records == [AddRtt(s.client.name, SizeSub(q.now, rtts[k].ts))]
            && Apply(s, ServerReads(q)) == Answered(s)
  {
    HeadMatches(s);
    HandleOutstanding(s.client, s.up[0], q);
    hide Handle, Matched;
    assert s.down + [] == s.down && s.dropped + [] == s.dropped;
  }

  lemma HeadOfLine(s: System)
    requires s.up != [] && IsResponse(s.up[0]) && Matched(s)
    ensures Outstanding(s.client.outstanding)
         == s.dropped + ([s.up[0].body.requestId] + (ResponseIds(s.up[1..]) + RequestIds(s.down)))
  {
    hide RequestIds, Increasing;
    var id := s.up[0].body.requestId;
    assert ([id] + ResponseIds(s.up[1..])) + RequestIds(s.down) == [id] + (ResponseIds(s.up[1..]) + RequestIds(s.down));
  }

  lemma WithoutEntry(rtts: seq<Rtt>, k: nat)
    requires k < |rtts|
    ensures Outstanding(rtts[..k] + rtts[k + 1..]) == Outstanding(rtts)[..k] + Outstanding(rtts)[k + 1..]
  {
  }

  lemma TakeOut(ids: seq<Word64>, front: seq<Word64>, id: Word64, back: seq<Word64>)
    requires ids == front + ([id] + back)
    ensures ids[..|front|] + ids[|front| + 1..] == front + back
    ensures multiset(ids) == multiset(front + back) + multiset{id}
    ensures Increasing(ids) ==> Increasing(front + back)
    ensures forall x :: x in front + back ==> x in ids
  {
    var rest := front + back;
    assert forall i :: 0 <= i < |rest| ==> rest[i] == ids[if i < |front| then i else i + 1];
  }

  lemma ResponseReadKeeps(s: System, q: Query)
    requires s.up != [] && s.client.identified && IsResponse(s.up[0])
    requires Matched(s) && RecordedOnce(s)
    ensures Matched(Apply(s, ServerReads(q))) && RecordedOnce(Apply(s, ServerReads(q)))
  {
    hide Apply, Handle, Matched, RecordedOnce;
    ResponseRead(s, q);
    AnsweredIds(s);
    AnsweredKeeps(s);
    assert Apply(s, ServerReads(q)) == Answered(s);
  }

  /** One id goes from the outstanding ones, and the others stay in order. */
  lemma AnsweredIds(s: System)
    requires s.up != [] && IsResponse(s.up[0]) && Matched(s)
    ensures |s.dropped| < |s.client.outstanding|
    ensures var ids, ids' := Outstanding(s.client.outstanding), Outstanding(Answered(s).client.outstanding);
            && ids' == s.dropped + (ResponseIds(s.up[1..]) + RequestIds(s.down))
            && multiset(ids) == multiset(ids') + multiset{s.up[0].body.requestId}
            && Increasing(ids')
            && forall x :: x in ids' ==> x in ids
  {
    hide RequestIds, ResponseIds, Increasing;
    var rtts, k, id := s.client.outstanding, |s.dropped|, s.up[0].body.requestId;
    HeadOfLine(s);
    TakeOut(Outstanding(rtts), s.dropped, id, ResponseIds(s.up[1..]) + RequestIds(s.down));
    WithoutEntry(rtts, k);
  }

  lemma AnsweredKeeps(s: System)
    requires s.up != [] && IsResponse(s.up[0]) && |s.dropped| < |s.client.outstanding|
    requires Matched(s) && RecordedOnce(s)
    ensures Matched(Answered(s)) && RecordedOnce(Answered(s))
  {
    AnsweredIds(s);
    hide RequestIds, ResponseIds, Increasing, Outstanding;
  }

  lemma RequestStamps(s: System, now: Word64)
    requires |s.client.sent| + 1 < TWO64 && s.client.lastId == |s.client.sent|
    requires Matched(s) && Stamped(s)
    ensures Stamped(Apply(s, Request(now)))
  {
    var rtts, ids := s.client.outstanding, Outstanding(s.client.outstanding);
    forall i | 0 <= i < |rtts|
      ensures rtts[i].reqid != NextId(s.client.lastId)
    {
      assert ids[i] in ids;
    }
  }

  lemma StepKeeps(s: System, step: Step)
    requires Inv(s)
    ensures Inv(Apply(s, step))
  {
    match step
    case Request(now) =>
      CallsKeep(s.client, Query(now, None, None, []));
      if |s.client.sent| + 1 < TWO64 {
        RequestKeeps(s, now);
        RequestStamps(s, now);
      }
    case ServerSends(typ, body) =>
      SendKeepsNumbered(s.client, typ, body);
      if typ != RttRequest && |s.client.sent| + 1 < TWO64 {
        SendExtends(s.client, typ, body);
        QuietSend(s, SendAs(s.client, typ, body));
      }
    case PeerSends(m) =>
      IdsSplit(s.up, [m]);
      OneId(m);
      assert ResponseIds(s.up) + [] == ResponseIds(s.up);
    case PeerReads(id) =>
      if Matched(s) {
        PeerKeeps(s, id);
      }
    case ServerReads(q) => ReadKeeps(s, q);
  }

  lemma ReadKeeps(s: System, q: Query)
    requires Inv(s)
    ensures Inv(Apply(s, ServerReads(q)))
  {
    hide Handle, Matched, RecordedOnce;
    if s.up != [] {
      var s' := Apply(s, ServerReads(q));
      HandleKeeps(s.client, Some(s.up[0]), q);
      HandleExtends(s.client, s.up[0], q);
      if |s'.client.sent| < TWO64 {
        if s.client.identified && IsResponse(s.up[0]) {
          ResponseReadKeeps(s, q);
          ResponseRead(s, q);
        } else {
          QuietReadKeeps(s, q);
          HandleOutstanding(s.client, s.up[0], q);
        }
      }
    }
  }

  /** The invariant of every run, as long as the connection has ids left. */
  lemma {:induction false} RunKeeps(uid: nat, names: seq<Text>, steps: seq<Step>)
    ensures Inv(Run(Init(uid, names), steps))
    decreases |steps|
  {
    if steps != [] {
      RunKeeps(uid, names, steps[..|steps| - 1]);
      StepKeeps(Run(Init(uid, names), steps[..|steps| - 1]), steps[|steps| - 1]);
    }
  }

  lemma {:induction false} RequestIdsOnce(ms: seq<Message>, id: Word64)
    requires forall i, j :: 0 <= i < j < |ms| ==> ms[i].id != ms[j].id
    ensures multiset(RequestIds(ms))[id] <= 1
    ensures id in RequestIds(ms) ==> exists i :: 0 <= i < |ms| && ms[i].id == id
    decreases |ms|
  {
    if ms != [] {
      var rest := ms[1..];
      assert forall i :: 0 <= i < |rest| ==> rest[i] == ms[i + 1];
      RequestIdsOnce(rest, id);
      assert RequestIds(ms) == RequestId(ms[0]) + RequestIds(rest);
      if id in RequestIds(rest) {
        var i :| 0 <= i < |rest| && rest[i].id == id;
        assert ms[i + 1].id == id && ms[0].id != id;
      }
    }
  }

  /** Each request is recorded at most once, and only requests that were sent are recorded. */
  lemma AtMostOneRecord(uid: nat, names: seq<Text>, steps: seq<Step>, id: Word64)
    requires |Run(Init(uid, names), steps).client.sent| < TWO64
    ensures var s := Run(Init(uid, names), steps);
            && multiset(s.recorded)[id] <= 1
            && (id in s.recorded ==> id in RequestIds(s.client.sent) && id !in Outstanding(s.client.outstanding))
  {
    RunKeeps(uid, names, steps);
    var s := Run(Init(uid, names), steps);
    RequestIdsOnce(s.client.sent, id);
    assert multiset(s.recorded)[id] + multiset(Outstanding(s.client.outstanding))[id]
        == multiset(RequestIds(s.client.sent))[id];
    assert id in s.recorded ==> id in multiset(s.recorded);
    assert id in Outstanding(s.client.outstanding) ==> id in multiset(Outstanding(s.client.outstanding));
  }

  /**
   * In any run: a response read from an identified client matches one entry exactly, and the time recorded is the
   * one since the request with that id was sent.
   */
  lemma ResponseMatchesOne(uid: nat, names: seq<Text>, steps: seq<Step>, q: Query)
    requires var s := Run(Init(uid, names), steps);
             |s.client.sent| < TWO64 && s.client.identified && s.up != [] && IsResponse(s.up[0])
    ensures var s := Run(Init(uid, names), steps);
            var id, rtts, k := s.up[0].body.requestId, s.client.outstanding, |s.dropped|;
            && k < |rtts| && rtts[k].reqid == id && (forall j :: 0 <= j < |rtts| && j != k ==> rtts[j].reqid != id)
            && id in s.asked
            && Handle(s.client, Some(s.up[0]), q).records == [AddRtt(s.client.name, SizeSub(q.now, s.asked[id]))]
  {
    RunKeeps(uid, names, steps);
    var s := Run(Init(uid, names), steps);
    HeadMatches(s);
    ResponseRead(s, q);
  }

  // ------------------------------------------------------------ every request comes back

  /** With nothing in flight: what is outstanding was answered too early, and every other request was recorded, once. */
  lemma NothingInFlight(uid: nat, names: seq<Text>, steps: seq<Step>)
    requires var s := Run(Init(uid, names), steps); s.up == [] && s.down == [] && |s.client.sent| < TWO64
    ensures var s := Run(Init(uid, names), steps);
            && Outstanding(s.client.outstanding) == s.dropped
            && multiset(s.recorded) + multiset(s.dropped) == multiset(RequestIds(s.client.sent))
  {
    RunKeeps(uid, names, steps);
    var s := Run(Init(uid, names), steps);
    assert ResponseIds([]) == [] && RequestIds([]) == [];
    assert s.dropped + ([] + []) == s.dropped;
  }

  ghost predicate ReadsOnly(steps: seq<Step>) {
    forall i :: 0 <= i < |steps| ==> steps[i].PeerReads? || steps[i].ServerReads?
  }

  lemma {:induction false} RunConcat(s: System, a: seq<Step>, b: seq<Step>)
    ensures Run(s, a + b) == Run(Run(s, a), b)
    decreases |b|
  {
    hide Apply;
    if b == [] {
      assert a + b == a;
    } else {
      assert (a + b)[..|a| + |b| - 1] == a + b[..|b| - 1];
      RunConcat(s, a, b[..|b| - 1]);
    }
  }

  lemma RunFirst(s: System, step: Step, later: seq<Step>)
    ensures Run(s, [step] + later) == Run(Apply(s, step), later)
    ensures ReadsOnly(later) && (step.PeerReads? || step.ServerReads?) ==> ReadsOnly([step] + later)
  {
    hide Apply;
    assert [step][..0] == [];
    assert Run(s, [step]) == Apply(s, step);
    RunConcat(s, [step], later);
  }

  /** The peer reads all there is; without a request among it, it answers nothing. */
  lemma {:induction false} PeerReadsAll(s: System) returns (more: seq<Step>)
    ensures ReadsOnly(more) && Run(s, more).down == []
    ensures var s' := Run(s, more); s' == s.(down := [], up := s'.up) && (RequestIds(s.down) == [] ==> s'.up == s.up)
    decreases |s.down|
  {
    hide Handle;
    if s.down == [] {
      more := [];
    } else {
      var s1 := Apply(s, PeerReads(0));
      assert RequestIds(s.down) == RequestId(s.down[0]) + RequestIds(s.down[1..]);
      assert s.up + [] == s.up;
      var later := PeerReadsAll(s1);
      RunFirst(s, PeerReads(0), later);
      more := [PeerReads(0)] + later;
    }
  }

  /** The server reads all there is; nothing it sends for that is a request, and once identified it drops nothing. */
  lemma {:induction false} ServerReadsAll(s: System, q: Query) returns (more: seq<Step>)
    ensures ReadsOnly(more) && Run(s, more).up == []
    ensures RequestIds(s.down) == [] ==> RequestIds(Run(s, more).down) == []
    ensures s.client.identified ==> Run(s, more).dropped == s.dropped
    decreases |s.up|
  {
    if s.up == [] {
      more := [];
    } else {
      var s1 := Apply(s, ServerReads(q));
      HandleExtends(s.client, s.up[0], q);
      IdentityFinal(s.client, Some(s.up[0]), q);
      hide Handle;
      var c := Handle(s.client, Some(s.up[0]), q).client;
      IdsSplit(s.down, c.sent[|s.client.sent|..]);
      assert s.dropped + [] == s.dropped;
      var later := ServerReadsAll(s1, q);
      RunFirst(s, ServerReads(q), later);
      more := [ServerReads(q)] + later;
    }
  }

  lemma ReadsConcat(a: seq<Step>, b: seq<Step>)
    requires ReadsOnly(a) && ReadsOnly(b)
    ensures ReadsOnly(a + b)
  {
  }

  /**
   * From every state of a run reading alone can leave nothing in flight; then, if the client was identified by then,
   * every request ever sent is recorded once, but for the ones whose answers had come before that.
   */
  lemma AllCanBeRecorded(uid: nat, names: seq<Text>, steps: seq<Step>, q: Query) returns (more: seq<Step>)
    ensures ReadsOnly(more)
    ensures var s, s' := Run(Init(uid, names), steps), Run(Init(uid, names), steps + more);
            && s'.up == [] && s'.down == []
            && (s.client.identified ==> s'.dropped == s.dropped)
            && (|s'.client.sent| < TWO64 ==>
                  && Outstanding(s'.client.outstanding) == s'.dropped
                  && multiset(s'.recorded) + multiset(s'.dropped) == multiset(RequestIds(s'.client.sent)))
  {
    hide Apply, Handle;
    var s0 := Init(uid, names);
    var s := Run(s0, steps);
    var first := PeerReadsAll(s);
    var s1 := Run(s, first);
    var second := ServerReadsAll(s1, q);
    assert RequestIds([]) == [];
    var s2 := Run(s1, second);
    var third := PeerReadsAll(s2);
    RunConcat(s, first, second);
    RunConcat(s, first + second, third);
    ReadsConcat(first, second);
    ReadsConcat(first + second, third);
    more := first + second + third;
    RunConcat(s0, steps, more);
    var s' := Run(s0, steps + more);
    if |s'.client.sent| < TWO64 {
      NothingInFlight(uid, names, steps + more);
    }
  }
}

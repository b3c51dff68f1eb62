/** A connection byte by byte: any run of sends, partial sends and partial receives, as a state machine. */
module Network {
  import opened Words
  import opened Messages
  import opened Wire
  import opened RoundTrip

  /** Ids count up from 1 in a 64-bit word. */
  function NextId(last: Word64): Word64 { Low64(last + 1) }

  /**
   * unsent: what send() has not taken yet; wire: in the network; partial: the receiver's buffer so far;
   * consumed: how many bytes the receiver has taken off the wire.
   */
  datatype Net = Net(lastId: Word64, sent: seq<Message>, unsent: seq<byte>, wire: seq<byte>,
                     partial: seq<byte>, got: seq<Option<Message>>, consumed: nat, broken: bool)

  const START := Net(0, [], [], [], [], [], 0, false)

  /** Each step is one call: a message handed to sendMsg, one send(), the header read, one later read. */
  datatype Step = Submit(body: Body) | Push(n: nat) | ReadHeader | Read(n: nat)

  function Total(partial: seq<byte>): nat
    requires |partial| >= 2
  {
    RoundUp(FromBE(partial[..2]))
  }

  /** A step that is not possible in a state leaves the state as it is. */
  function Apply(s: Net, step: Step): Net {
    match step
    case Submit(body) =>
      if s.unsent != [] then s else
        var m := Make(NextId(s.lastId), body);
        s.(lastId := m.id, sent := s.sent + [m], unsent := Frame(m))
    case Push(n) =>
      if n > |s.unsent| then s else s.(unsent := s.unsent[n..], wire := s.wire + s.unsent[..n])
    case ReadHeader =>
      if s.partial != [] || |s.wire| < 2 then s
      else s.(partial := s.wire[..2], wire := s.wire[2..], consumed := s.consumed + 2)
    case Read(n) =>
      if |s.partial| < 2 || n > |s.wire| || |s.partial| + n > Total(s.partial) then s
      else Receive(s.(partial := s.partial + s.wire[..n], wire := s.wire[n..], consumed := s.consumed + n))
  }

  /** The message is decoded as soon as its padded size has come in. */
  function Receive(s: Net): Net
    requires |s.partial| >= 2
  {
    if |s.partial| != Total(s.partial) then s else
      match Decode(s.partial[..FromBE(s.partial[..2])])
      case Ok(m) => s.(got := s.got + [m], partial := [])
      case Fault => s.(broken := true)
  }

  function Run(s: Net, steps: seq<Step>): Net
    decreases |steps|
  {
    if steps == [] then s else Apply(Run(s, steps[..|steps| - 1]), steps[|steps| - 1])
  }

  // ------------------------------------------------------------ the invariant

  function Frames(ms: seq<Message>): seq<byte> {
    if ms == [] then [] else Frame(ms[0]) + Frames(ms[1..])
  }

  function Normals(ms: seq<Message>): (r: seq<Option<Message>>)
    ensures |r| == |ms|
    ensures forall i :: 0 <= i < |ms| ==> r[i] == Normal(ms[i])
  {
    seq(|ms|, i requires 0 <= i < |ms| => Normal(ms[i]))
  }

  lemma {:induction false} FramesSnoc(ms: seq<Message>, m: Message)
    ensures Frames(ms + [m]) == Frames(ms) + Frame(m)
    decreases |ms|
  {
    if ms == [] {
      assert [m][1..] == [];
    } else {
      assert (ms + [m])[1..] == ms[1..] + [m];
      FramesSnoc(ms[1..], m);
    }
  }

  ghost predicate WellFormed(m: Message) {
    m.typ == TypeOf(m.body) && Fits(m.body)
  }

  /** The i-th message sent has id i + 1, in 64 bits. */
  ghost predicate Consecutive(ms: seq<Message>) {
    forall i :: 0 <= i < |ms| ==> ms[i].id == Low64(i + 1)
  }

  /** Everything sent is either received in order, or still in the pipe as whole frames from a frame boundary. */
  ghost predicate Inv(s: Net) { Ledger(s.sent, s.lastId) && Pipe(s) }

  ghost predicate Ledger(sent: seq<Message>, lastId: Word64) {
    (forall m :: m in sent ==> WellFormed(m)) && Consecutive(sent) && lastId == Low64(|sent|)
  }

  ghost predicate Pipe(s: Net) {
    && !s.broken
    && |s.got| <= |s.sent|
    && s.got == Normals(s.sent[..|s.got|])
    && s.partial + (s.wire + s.unsent) == Frames(s.sent[|s.got|..])
    && s.consumed == |Frames(s.sent[..|s.got|])| + |s.partial|
    && (s.partial != [] ==>
          |s.partial| >= 2 && |s.got| < |s.sent| && |s.partial| < |Frame(s.sent[|s.got|])|)
  }

  /** What the receiver computes from the front of a stream of frames. */
  lemma FrameFront(m: Message, rest: seq<byte>)
    requires WellFormed(m)
    ensures var s := Frame(m) + rest;
            && |s| >= 2 && |Frame(m)| >= 12 && Total(s) == |Frame(m)| && s[|Frame(m)|..] == rest
            && NextMessage(s) == Got(Normal(m), rest)
            && FromBE(s[..2]) <= |Frame(m)| && Decode(s[..FromBE(s[..2])]) == Ok(Normal(m))
  {
    SizeOfUncut(m);
    FrameReceived(m, rest);
    FrameShape(m);
    assert (Frame(m) + rest)[..2] == Frame(m)[..2];
  }

  lemma Slices(ms: seq<Message>, k: nat, m: Message)
    requires k <= |ms|
    ensures (ms + [m])[k..] == ms[k..] + [m] && (ms + [m])[..k] == ms[..k]
    ensures k < |ms| ==> (ms + [m])[k] == ms[k]
  {
  }

  lemma LedgerGrows(sent: seq<Message>, lastId: Word64, body: Body)
    requires Ledger(sent, lastId) && Fits(body)
    ensures Ledger(sent + [Make(NextId(lastId), body)], NextId(lastId))
  {
    hide Fits;
    NextIdCounts(|sent|);
  }

  lemma SubmitKeeps(s: Net, body: Body)
    requires Inv(s) && Fits(body)
    ensures Inv(Apply(s, Submit(body)))
  {
    hide Frame, Decode, Fits, TypeOf, Ledger;
    if s.unsent == [] {
      var m := Make(NextId(s.lastId), body);
      LedgerGrows(s.sent, s.lastId, body);
      Slices(s.sent, |s.got|, m);
      FramesSnoc(s.sent[|s.got|..], m);
      assert s.partial + (s.wire + s.unsent) == s.partial + s.wire;
      assert s.partial + (s.wire + Frame(m)) == (s.partial + s.wire) + Frame(m);
    }
  }

  /** What is in the pipe, seen from the first message in it. */
  lemma Front(s: Net)
    requires Inv(s) && |s.got| < |s.sent|
    ensures var m, later := s.sent[|s.got|], s.sent[|s.got| + 1..];
            && Frames(s.sent[|s.got|..]) == Frame(m) + Frames(later)
            && WellFormed(m)
            && s.sent[..|s.got| + 1] == s.sent[..|s.got|] + [m]
  {
    hide Frame, Decode, Fits;
    assert s.sent[|s.got|..][1..] == s.sent[|s.got| + 1..];
    assert s.sent[|s.got|] in s.sent;
  }

  lemma ReadKeeps(s: Net, n: nat)
    requires Inv(s)
    ensures Inv(Apply(s, Read(n)))
  {
    hide Frame, Decode, Fits;
    if |s.partial| < 2 || n > |s.wire| || |s.partial| + n > Total(s.partial) { return; }
    Front(s);
    var m, later := s.sent[|s.got|], s.sent[|s.got| + 1..];
    var all := Frame(m) + Frames(later);
    FrameFront(m, Frames(later));
    var t := s.(partial := s.partial + s.wire[..n], wire := s.wire[n..], consumed := s.consumed + n);
    MoveAlong(all, s.partial, s.wire, s.unsent, n);
    if |t.partial| == Total(t.partial) {
      DeliverKeeps(t, m, later);
    }
  }

  /** Taking bytes off the wire does not change the stream, nor the length at its front. */
  lemma MoveAlong(all: seq<byte>, partial: seq<byte>, wire: seq<byte>, unsent: seq<byte>, n: nat)
    requires all == partial + (wire + unsent) && n <= |wire| && |partial| >= 2
    ensures (partial + wire[..n]) + (wire[n..] + unsent) == all
    ensures (partial + wire[..n])[..2] == all[..2] == partial[..2]
  {
  }

  lemma DeliverKeeps(t: Net, m: Message, later: seq<Message>)
    requires WellFormed(m) && !t.broken && Ledger(t.sent, t.lastId)
    requires |t.got| < |t.sent| && m == t.sent[|t.got|] && later == t.sent[|t.got| + 1..]
    requires t.got == Normals(t.sent[..|t.got|])
    requires t.partial + (t.wire + t.unsent) == Frame(m) + Frames(later)
    requires |t.partial| >= 2 && |t.partial| == Total(t.partial) == |Frame(m)|
    requires t.consumed == |Frames(t.sent[..|t.got|])| + |t.partial|
    ensures Inv(Receive(t))
  {
    hide Frame, Decode, Fits, WellFormed, Total;
    FrameFront(m, Frames(later));
    SameFront(t.partial, t.wire + t.unsent, Frame(m), Frames(later));
    assert t.sent[..|t.got| + 1] == t.sent[..|t.got|] + [m];
    assert Receive(t) == t.(got := t.got + [Normal(m)], partial := []);
    NormalsSnoc(t.sent[..|t.got|], m);
    FramesSnoc(t.sent[..|t.got|], m);
    assert [] + (t.wire + t.unsent) == t.wire + t.unsent;
  }

  /** Two streams that are equal, with fronts of one length: so are the fronts, their own fronts, and the rests. */
  lemma SameFront(a: seq<byte>, rest: seq<byte>, b: seq<byte>, more: seq<byte>)
    requires a + rest == b + more && |a| == |b|
    ensures a == b && rest == more
    ensures forall n :: 0 <= n <= |a| ==> (b + more)[..n] == a[..n]
  {
    assert a == (a + rest)[..|a|] && b == (b + more)[..|b|];
    assert rest == (a + rest)[|a|..] && more == (b + more)[|b|..];
  }

  lemma NormalsSnoc(ms: seq<Message>, m: Message)
    ensures Normals(ms + [m]) == Normals(ms) + [Normal(m)]
  {
    hide Normal;
  }

  lemma HeaderKeeps(s: Net)
    requires Inv(s)
    ensures Inv(Apply(s, ReadHeader))
  {
    hide Frame, Decode, Fits;
    if s.partial == [] && |s.wire| >= 2 {
      var s' := Apply(s, ReadHeader);
      assert s'.partial + (s'.wire + s'.unsent) == s.partial + (s.wire + s.unsent);
      assert s.partial + (s.wire + s.unsent) == s.wire + s.unsent;
      Front(s);
      FrameFront(s.sent[|s.got|], Frames(s.sent[|s.got| + 1..]));
    }
  }

  lemma StepKeeps(s: Net, step: Step)
    requires Inv(s)
    requires step.Submit? ==> Fits(step.body)
    ensures Inv(Apply(s, step))
  {
    match step
    case Submit(body) => SubmitKeeps(s, body);
    case Push(n) =>
      if n <= |s.unsent| {
        assert (s.wire + s.unsent[..n]) + s.unsent[n..] == s.wire + s.unsent;
      }
    case ReadHeader => HeaderKeeps(s);
    case Read(n) => ReadKeeps(s, n);
  }

  ghost predicate AllFit(steps: seq<Step>) {
    forall i :: 0 <= i < |steps| && steps[i].Submit? ==> Fits(steps[i].body)
  }

  lemma {:induction false} RunKeeps(steps: seq<Step>)
    requires AllFit(steps)
    ensures Inv(Run(START, steps))
    decreases |steps|
  {
    if steps != [] {
      RunKeeps(steps[..|steps| - 1]);
      StepKeeps(Run(START, steps[..|steps| - 1]), steps[|steps| - 1]);
    }
  }

  /** The bodies handed to sendMsg while no send was under way, in order: those are the messages sent. */
  function Submitted(steps: seq<Step>): seq<Body>
    decreases |steps|
  {
    if steps == [] then [] else
      var before, step := Submitted(steps[..|steps| - 1]), steps[|steps| - 1];
      if step.Submit? && Run(START, steps[..|steps| - 1]).unsent == [] then before + [step.body] else before
  }

  /** Messages with consecutive ids from 1. */
  function Numbering(bodies: seq<Body>): (ms: seq<Message>)
    ensures |ms| == |bodies|
    ensures forall i :: 0 <= i < |bodies| ==>
              ms[i] == Message((i + 1) % 18446744073709551616, TypeOf(bodies[i]), bodies[i])
  {
    seq(|bodies|, i requires 0 <= i < |bodies| => Make(Low64(i + 1), bodies[i]))
  }

  lemma {:induction false} SentIsSubmitted(steps: seq<Step>)
    requires AllFit(steps)
    ensures Run(START, steps).sent == Numbering(Submitted(steps))
    decreases |steps|
  {
    hide Frame, Decode, Fits;
    if steps != [] {
      var before := steps[..|steps| - 1];
      SentIsSubmitted(before);
      RunKeeps(before);
      match steps[|steps| - 1]
      case Submit(body) =>
        NumberingSnoc(Submitted(before), body);
        NextIdCounts(|Submitted(before)|);
      case _ =>
    }
  }

  lemma NumberingSnoc(bodies: seq<Body>, b: Body)
    ensures Numbering(bodies + [b]) == Numbering(bodies) + [Make(Low64(|bodies| + 1), b)]
  {
  }

  /** Counting on from the last id is the same as numbering by position. */
  lemma NextIdCounts(n: nat)
    ensures NextId(Low64(n)) == Low64(n + 1)
  {
  }

  /**
   * Whatever the splitting into sends and receives: the receiver has the messages handed in, in order, with
   * ids 1, 2, 3, ..., up to the ones still in the pipe; with an empty pipe it has every one and no byte is over.
   */
  lemma StreamCorrect(steps: seq<Step>)
    requires AllFit(steps)
    ensures var s, ms := Run(START, steps), Numbering(Submitted(steps));
            && s.got <= Normals(ms)
            && !s.broken
            && (s.wire + s.unsent + s.partial == [] <==> s.got == Normals(ms))
  {
    RunKeeps(steps);
    SentIsSubmitted(steps);
    var s := Run(START, steps);
    assert Normals(s.sent)[..|s.got|] == Normals(s.sent[..|s.got|]);
    var pending := s.sent[|s.got|..];
    if pending != [] {
      FrameFront(pending[0], Frames(pending[1..]));
    }
  }

  // ------------------------------------------------------------ everything can arrive

  lemma {:induction false} RunConcat(s: Net, a: seq<Step>, b: seq<Step>)
    ensures Run(s, a + b) == Run(Run(s, a), b)
    decreases |b|
  {
    hide Apply;
    if b == [] {
      assert a + b == a;
    } else {
      assert (a + b)[..|a| + |b| - 1] == a + b[..|b| - 1];
      RunConcat(s, a, b[..|b| - 1]);
    }
  }

  lemma RunOne(s: Net, a: Step)
    ensures Run(s, [a]) == Apply(s, a)
  {
    hide Apply;
    assert [a][..0] == [];
  }

  lemma RunTwo(s: Net, a: Step, b: Step)
    ensures Run(s, [a, b]) == Apply(Apply(s, a), b)
  {
    hide Apply;
    RunOne(s, a);
    RunOne(Run(s, [a]), b);
    RunConcat(s, [a], [b]);
    assert [a] + [b] == [a, b];
  }

  /** The header of the next message is in, and with nothing left to send the wire has the rest. */
  ghost predicate HeaderIn(t: Net) {
    && |t.got| < |t.sent|
    && 2 <= |t.partial| <= |Frame(t.sent[|t.got|])|
    && t.partial + t.wire == Frame(t.sent[|t.got|]) + Frames(t.sent[|t.got| + 1..])
  }

  lemma HeaderThere(s: Net)
    requires Inv(s) && s.unsent == [] && |s.got| < |s.sent|
    ensures var t := Apply(s, ReadHeader);
            && Inv(t) && HeaderIn(t) && t == s.(partial := t.partial, wire := t.wire, consumed := t.consumed)
            && |t.partial| == (if s.partial == [] then 2 else |s.partial|) <= |Frame(s.sent[|s.got|])|
  {
    hide Frame, Decode, WellFormed;
    Front(s);
    FrameFront(s.sent[|s.got|], Frames(s.sent[|s.got| + 1..]));
    HeaderKeeps(s);
    assert s.wire + s.unsent == s.wire;
    assert s.partial == [] ==> s.wire[..2] + s.wire[2..] == s.partial + s.wire;
  }

  lemma ReadRest(t: Net, k: nat)
    requires Inv(t) && HeaderIn(t) && k == |Frame(t.sent[|t.got|])| - |t.partial|
    ensures var t' := Apply(t, Read(k));
            Inv(t') && t'.unsent == t.unsent && t'.sent == t.sent && |t'.got| == |t.got| + 1
  {
    hide Frame, Frames, Inv, Apply, Total, HeaderIn;
    ReadKeeps(t, k);
    NotBroken(t);
    NotBroken(Apply(t, Read(k)));
    RestThere(t, k);
    TakesWhole(t, k);
  }

  /** A read that completes the padded size takes a message, or breaks. */
  lemma TakesWhole(t: Net, k: nat)
    requires |t.partial| >= 2 && k <= |t.wire| && |t.partial| + k == Total(t.partial) == Total(t.partial + t.wire[..k])
    requires !t.broken
    ensures var t' := Apply(t, Read(k));
            t'.unsent == t.unsent && t'.sent == t.sent && (t'.broken || |t'.got| == |t.got| + 1)
  {
    hide Decode, Total, FromBE;
  }

  lemma RestThere(t: Net, k: nat)
    requires Inv(t) && HeaderIn(t) && k == |Frame(t.sent[|t.got|])| - |t.partial|
    ensures |t.partial| >= 2 && k <= |t.wire| && |t.partial| + k == Total(t.partial) == Total(t.partial + t.wire[..k])
  {
    var m, later := t.sent[|t.got|], t.sent[|t.got| + 1..];
    assert m in t.sent;
    TotalOfFrame(m);
    hide Frame, WellFormed, Frames, FromBE, Ledger, Pipe;
    SameHead(t.partial, t.wire, Frame(m), Frames(later), k);
  }

  lemma TotalOfFrame(m: Message)
    requires WellFormed(m)
    ensures |Frame(m)| >= 12 && Total(Frame(m)) == |Frame(m)|
  {
    FrameFront(m, []);
    assert Frame(m) + [] == Frame(m);
  }

  lemma SameHead(partial: seq<byte>, wire: seq<byte>, frame: seq<byte>, more: seq<byte>, k: nat)
    requires partial + wire == frame + more && 2 <= |partial| && |partial| + k == |frame|
    ensures k <= |wire| && partial[..2] == frame[..2] == (partial + wire[..k])[..2]
  {
    assert |partial| + |wire| == |frame| + |more|;
    assert partial[..2] == (partial + wire)[..2];
    assert frame[..2] == (frame + more)[..2];
  }

  /** With nothing left to send the next message is taken by a header read, if that is still due, and one more read. */
  lemma TakeNext(s: Net)
    requires Inv(s) && s.unsent == [] && |s.got| < |s.sent|
    ensures var k := |Frame(s.sent[|s.got|])| - if s.partial == [] then 2 else |s.partial|;
            && k >= 0
            && var s' := Run(s, [ReadHeader, Read(k)]);
            Inv(s') && s'.unsent == [] && s'.sent == s.sent && |s'.got| == |s.got| + 1
  {
    hide Inv, Apply, Frame, Frames, Run;
    var t := Apply(s, ReadHeader);
    HeaderThere(s);
    var k := |Frame(s.sent[|s.got|])| - |t.partial|;
    ReadRest(t, k);
    RunTwo(s, ReadHeader, Read(k));
  }

  lemma NotBroken(s: Net)
    requires Inv(s)
    ensures !s.broken
  {
  }

  ghost predicate NothingNew(steps: seq<Step>) { forall i :: 0 <= i < |steps| ==> !steps[i].Submit? }

  lemma NothingNewConcat(a: seq<Step>, b: seq<Step>)
    requires NothingNew(a) && NothingNew(b)
    ensures NothingNew(a + b)
  {
  }

  lemma {:induction false} Bring(s: Net) returns (more: seq<Step>)
    requires Inv(s)
    ensures NothingNew(more)
    ensures Inv(Run(s, more)) && Run(s, more).sent == s.sent
    ensures Run(s, more).got == Normals(s.sent) && Run(s, more).unsent == []
    decreases |s.unsent| > 0, |s.sent| - |s.got|
  {
    hide Frame, Decode, Fits, WellFormed;
    if s.unsent != [] {
      var push := Push(|s.unsent|);
      StepKeeps(s, push);
      RunOne(s, push);
      more := Bring(Apply(s, push));
      RunConcat(s, [push], more);
      NothingNewConcat([push], more);
      more := [push] + more;
    } else if |s.got| < |s.sent| {
      TakeNext(s);
      var take := [ReadHeader, Read(|Frame(s.sent[|s.got|])| - if s.partial == [] then 2 else |s.partial|)];
      more := Bring(Run(s, take));
      RunConcat(s, take, more);
      NothingNewConcat(take, more);
      more := take + more;
    } else {
      more := [];
      assert s.sent[..|s.got|] == s.sent;
    }
  }

  /** From every state of a run, calls that hand in nothing new can bring over all that was handed in. */
  lemma AllCanArrive(steps: seq<Step>) returns (more: seq<Step>)
    requires AllFit(steps)
    ensures NothingNew(more) && Run(START, steps + more).got == Normals(Numbering(Submitted(steps)))
  {
    RunKeeps(steps);
    SentIsSubmitted(steps);
    more := Bring(Run(START, steps));
    RunConcat(START, steps, more);
  }

  lemma FramesGrow(ms: seq<Message>, i: nat, j: nat)
    requires i < j <= |ms|
    ensures |Frames(ms[..i])| + |Frame(ms[i])| <= |Frames(ms[..j])|
    decreases j
  {
    hide Frame;
    assert ms[..j] == ms[..j - 1] + [ms[j - 1]];
    FramesSnoc(ms[..j - 1], ms[j - 1]);
    if i < j - 1 {
      FramesGrow(ms, i, j - 1);
    }
  }

  /** How far the receiver has got depends on the number of bytes it has taken only. */
  lemma SameProgress(s: Net, t: Net)
    requires Inv(s) && Inv(t) && s.sent == t.sent && s.consumed <= t.consumed
    ensures |s.got| <= |t.got|
  {
    if |t.got| < |s.got| {
      FramesGrow(s.sent, |t.got|, |s.got|);
      hide Frame, Frames;
      FrameNonEmpty(s.sent[|t.got|]);
    }
  }

  lemma FrameNonEmpty(m: Message)
    ensures |Frame(m)| >= 12
  {
  }

  /** Wherever two schedules for the same messages have taken equally many bytes, the receiver is in the same place. */
  lemma ChunkingIrrelevant(one: seq<Step>, two: seq<Step>)
    requires AllFit(one) && AllFit(two) && Submitted(one) == Submitted(two)
    requires Run(START, one).consumed == Run(START, two).consumed
    ensures Run(START, one).got == Run(START, two).got && Run(START, one).partial == Run(START, two).partial
  {
    RunKeeps(one);
    RunKeeps(two);
    SentIsSubmitted(one);
    SentIsSubmitted(two);
    var s, t := Run(START, one), Run(START, two);
    SameProgress(s, t);
    SameProgress(t, s);
    var rest := Frames(s.sent[|s.got|..]);
    assert s.partial == rest[..|s.partial|] && t.partial == rest[..|t.partial|];
  }

  /** And a schedule run dry has taken them all. */
  lemma RunDryConsumesAll(steps: seq<Step>)
    requires AllFit(steps)
    ensures var s := Run(START, steps);
            s.wire + s.unsent + s.partial == [] <==> s.consumed == |Frames(Numbering(Submitted(steps)))|
  {
    RunKeeps(steps);
    SentIsSubmitted(steps);
    var s := Run(START, steps);
    FramesSplit(s.sent, |s.got|);
    hide Frame, Frames;
    assert |s.partial| + (|s.wire| + |s.unsent|) == |Frames(s.sent[|s.got|..])|;
    assert |s.wire + s.unsent + s.partial| == |s.wire| + |s.unsent| + |s.partial|;
  }

  lemma FramesSplit(ms: seq<Message>, k: nat)
    requires k <= |ms|
    ensures |Frames(ms)| == |Frames(ms[..k])| + |Frames(ms[k..])|
    decreases |ms| - k
  {
    hide Frame;
    if k == |ms| {
      assert ms[..k] == ms;
    } else {
      FramesSplit(ms, k + 1);
      assert ms[..k + 1] == ms[..k] + [ms[k]];
      FramesSnoc(ms[..k], ms[k]);
      assert ms[k..][1..] == ms[k + 1..];
    }
  }

  // ------------------------------------------------------------ whole streams

  /** The messages at the front of a stream, as repeated receives take them off, and the bytes they leave. */
  function Parse(stream: seq<byte>): seq<Option<Message>>
    decreases |stream|
  {
    var n := NextMessage(stream);
    if n.Got? then [n.msg] + Parse(n.rest) else []
  }

  function Remains(stream: seq<byte>): seq<byte>
    decreases |stream|
  {
    var n := NextMessage(stream);
    if n.Got? then Remains(n.rest) else stream
  }

  lemma {:induction false} ParseFrames(ms: seq<Message>)
    requires forall m :: m in ms ==> WellFormed(m)
    ensures Parse(Frames(ms)) == Normals(ms) && Remains(Frames(ms)) == []
    decreases |ms|
  {
    hide Frame, Decode, Fits;
    if ms != [] {
      assert ms[0] in ms;
      FrameFront(ms[0], Frames(ms[1..]));
      ParseFrames(ms[1..]);
      assert Normals(ms) == [Normal(ms[0])] + Normals(ms[1..]);
    }
  }

  /**
   * Where the receive loop is when its stream ends: at a frame boundary or one byte past it; inside a frame; or at a
   * frame that it cannot read without leaving its buffer.
   */
  datatype Ending = AtBoundary | InsideFrame | BadFrame

  function EndingOf(stream: seq<byte>): Ending {
    var rest := Remains(stream);
    if |rest| < 2 then AtBoundary else if NextMessage(rest).Waiting? then InsideFrame else BadFrame
  }

  /** A sender of whole frames that stops anywhere in the next one: the loop ends well only in its first two bytes. */
  lemma {:induction false} CutStreamEnding(ms: seq<Message>, m: Message, k: nat)
    requires WellFormed(m) && k < |Frame(m)|
    requires forall m :: m in ms ==> WellFormed(m)
    ensures var stream := Frames(ms) + Frame(m)[..k];
            && Parse(stream) == Normals(ms) && Remains(stream) == Frame(m)[..k]
            && EndingOf(stream) == if k < 2 then AtBoundary else InsideFrame
    decreases |ms|
  {
    hide Frame, Decode, Fits;
    if ms == [] {
      assert [] + Frame(m)[..k] == Frame(m)[..k];
      CutFrameWaits(m, k);
    } else {
      assert ms[0] in ms;
      var rest := Frames(ms[1..]) + Frame(m)[..k];
      assert Frames(ms) + Frame(m)[..k] == Frame(ms[0]) + rest;
      FrameFront(ms[0], rest);
      CutStreamEnding(ms[1..], m, k);
      assert Normals(ms) == [Normal(ms[0])] + Normals(ms[1..]);
    }
  }

  lemma CutFrameWaits(m: Message, k: nat)
    requires WellFormed(m) && k < |Frame(m)|
    ensures NextMessage(Frame(m)[..k]).Waiting?
  {
    hide Frame, Decode, Fits;
    FrameFront(m, []);
    assert Frame(m) + [] == Frame(m);
    if k >= 2 {
      assert Frame(m)[..k][..2] == Frame(m)[..2];
    }
  }
}

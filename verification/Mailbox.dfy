/** A connection's received messages: kept in a queue until pulled, or handed on once a handler is set. */
module Mailbox {
  import opened Messages

  const CLOSED := Message(0, Closed, BClosed)

  predicate IsClosed(m: Option<Message>) { m.Some? && m.value.typ == Closed }

  /** queue: waiting messages, where None is a receive that gave no message; delivered: what was taken, in order. */
  datatype Box = Box(run: bool, handler: bool, queue: seq<Option<Message>>, delivered: seq<Option<Message>>)

  const FRESH := Box(true, false, [], [])

  /** One turn of the receive loop; after a closed message the loop is over. */
  function Arrive(b: Box, m: Option<Message>): Box {
    if !b.run then b
    else if b.handler then b.(run := !IsClosed(m), delivered := b.delivered + [m])
    else b.(run := !IsClosed(m), queue := b.queue + [m])
  }

  /** A pull takes the head of the queue, unless a handler is set; an empty head stays where it is. */
  function Pull(b: Box): (Box, Option<Message>) {
    if b.handler || b.queue == [] then (b, None)
    else if b.queue[0] == None then (b, None)
    else (b.(queue := b.queue[1..], delivered := b.delivered + [b.queue[0]]), b.queue[0])
  }

  /** Setting a handler hands it everything queued. */
  function SetHandler(b: Box, on: bool): Box {
    if on then Box(b.run, true, [], b.delivered + b.queue) else b.(handler := false)
  }

  datatype Op = Receive(m: Option<Message>) | GetMsg | Handler(on: bool)

  function Apply(b: Box, op: Op): Box {
    match op
    case Receive(m) => Arrive(b, m)
    case GetMsg => Pull(b).0
    case Handler(on) => SetHandler(b, on)
  }

  function Run(b: Box, ops: seq<Op>): Box
    decreases |ops|
  {
    if ops == [] then b else Apply(Run(b, ops[..|ops| - 1]), ops[|ops| - 1])
  }

  /** What the connection received: every receive up to the first closed message, that one included. */
  function Received(ops: seq<Op>): seq<Option<Message>>
    decreases |ops|
  {
    if ops == [] then [] else
      var before := Received(ops[..|ops| - 1]);
      match ops[|ops| - 1]
      case Receive(m) => if EndsClosed(before) then before else before + [m]
      case _ => before
  }

  /** The last message received is a closed one. */
  predicate EndsClosed(ms: seq<Option<Message>>) { ms != [] && IsClosed(ms[|ms| - 1]) }

  ghost predicate Accounts(b: Box, received: seq<Option<Message>>) {
    b.delivered + b.queue == received && (b.handler ==> b.queue == []) && (b.run <==> !EndsClosed(received))
  }

  lemma ArriveAccounts(b: Box, received: seq<Option<Message>>, m: Option<Message>)
    requires Accounts(b, received) && b.run
    ensures Accounts(Arrive(b, m), received + [m])
  {
    assert b.delivered + (b.queue + [m]) == (b.delivered + b.queue) + [m];
    if b.handler {
      assert b.delivered + [] == b.delivered && b.delivered + [m] + [] == b.delivered + [m];
    }
  }

  lemma TakeAccounts(b: Box, received: seq<Option<Message>>, on: bool)
    requires Accounts(b, received)
    ensures Accounts(Pull(b).0, received) && Accounts(SetHandler(b, on), received)
  {
    if b.queue != [] {
      assert b.queue == [b.queue[0]] + b.queue[1..];
    }
    assert b.delivered + b.queue + [] == b.delivered + b.queue;
  }

  /** In order, once each, nothing lost, nothing after the close; and a set handler leaves nothing waiting. */
  lemma {:induction false} NothingLost(ops: seq<Op>)
    ensures var b := Run(FRESH, ops);
            && b.delivered + b.queue == Received(ops)
            && (b.handler ==> b.queue == [])
            && (b.run <==> !EndsClosed(Received(ops)))
    decreases |ops|
  {
    if ops != [] {
      var before := ops[..|ops| - 1];
      NothingLost(before);
      var b := Run(FRESH, before);
      match ops[|ops| - 1]
      case Receive(m) =>
        if b.run {
          ArriveAccounts(b, Received(before), m);
        }
      case GetMsg => TakeAccounts(b, Received(before), true);
      case Handler(on) => TakeAccounts(b, Received(before), on);
    }
  }

  lemma {:induction false} ClosedOnlyLast(ops: seq<Op>, i: nat)
    requires i < |Received(ops)| && IsClosed(Received(ops)[i])
    ensures i == |Received(ops)| - 1
    decreases |ops|
  {
    var before := Received(ops[..|ops| - 1]);
    if i < |before| {
      ClosedOnlyLast(ops[..|ops| - 1], i);
    }
  }

  /** An empty message at the head blocks pulling: whatever arrives and however often, until a handler is set. */
  lemma {:induction false} EmptyHeadBlocks(b: Box, ops: seq<Op>)
    requires b.queue != [] && b.queue[0] == None && !b.handler
    requires forall i :: 0 <= i < |ops| ==> ops[i] != Handler(true)
    ensures var e := Run(b, ops);
            && e.queue != [] && e.queue[0] == None && !e.handler && e.delivered == b.delivered
            && Pull(e).1 == None
    decreases |ops|
  {
    if ops != [] {
      EmptyHeadBlocks(b, ops[..|ops| - 1]);
    }
  }

  // ------------------------------------------------------------ what callers get

  /** Whether the last call on the handler set one. */
  function HandlerOn(ops: seq<Op>): bool
    decreases |ops|
  {
    ops != [] && if ops[|ops| - 1].Handler? then ops[|ops| - 1].on else HandlerOn(ops[..|ops| - 1])
  }

  lemma {:induction false} HandlerIsLastSet(ops: seq<Op>)
    ensures Run(FRESH, ops).handler == HandlerOn(ops)
    decreases |ops|
  {
    if ops != [] {
      HandlerIsLastSet(ops[..|ops| - 1]);
    }
  }

  /** A pull gives its caller the head of the queue and takes that off, or it gives nothing and takes nothing off. */
  lemma PullExactly(b: Box)
    ensures var (b', m) := Pull(b);
            if m.Some? then !b.handler && b.queue == [m] + b'.queue && b'.delivered == b.delivered + [m]
            else b' == b && (b.handler || b.queue == [] || b.queue[0] == None)
  {
  }

  /** The messages that the pulls of a run returned to their callers, in order. */
  function Pulled(ops: seq<Op>): seq<Message>
    decreases |ops|
  {
    if ops == [] then [] else
      var before := ops[..|ops| - 1];
      Pulled(before) +
      if ops[|ops| - 1] != GetMsg then [] else
        match Pull(Run(FRESH, before)).1
        case Some(m) => [m]
        case None => []
  }

  function Somes(ms: seq<Message>): (r: seq<Option<Message>>)
    ensures |r| == |ms| && forall i :: 0 <= i < |ms| ==> r[i] == Some(ms[i])
  {
    seq(|ms|, i requires 0 <= i < |ms| => Some(ms[i]))
  }

  /** While no handler was set: what the pulls returned, and then what is queued, is what was received. */
  lemma {:induction false} PulledInOrder(ops: seq<Op>)
    requires forall i :: 0 <= i < |ops| ==> ops[i] != Handler(true)
    ensures Somes(Pulled(ops)) + Run(FRESH, ops).queue == Received(ops)
    decreases |ops|
  {
    if ops != [] {
      var before, op := ops[..|ops| - 1], ops[|ops| - 1];
      var b := Run(FRESH, before);
      PulledInOrder(before);
      NothingLost(before);
      HandlerIsLastSet(before);
      NeverOn(before);
      match op
      case Receive(m) => assert Somes(Pulled(before)) + (b.queue + [m]) == (Somes(Pulled(before)) + b.queue) + [m];
      case GetMsg => PullMoves(Pulled(before), b);
      case Handler(on) => assert Pulled(before) + [] == Pulled(before);
    }
  }

  lemma PullMoves(pulled: seq<Message>, b: Box)
    ensures var (b', m) := Pull(b);
            Somes(pulled + match m case Some(x) => [x] case None => []) + b'.queue == Somes(pulled) + b.queue
  {
    PullExactly(b);
    var (b', m) := Pull(b);
    hide Pull;
    if m.Some? {
      assert Somes(pulled + [m.value]) == Somes(pulled) + [m];
      assert (Somes(pulled) + [m]) + b'.queue == Somes(pulled) + ([m] + b'.queue);
    } else {
      assert pulled + [] == pulled;
    }
  }

  lemma {:induction false} NeverOn(ops: seq<Op>)
    requires forall i :: 0 <= i < |ops| ==> ops[i] != Handler(true)
    ensures !HandlerOn(ops)
    decreases |ops|
  {
    if ops != [] {
      NeverOn(ops[..|ops| - 1]);
    }
  }

  /** Once a handler is set it gets all the rest: pulls return nothing more, and nothing stays queued. */
  lemma {:induction false} HandlerGetsTheRest(before: seq<Op>, after: seq<Op>)
    requires forall i :: 0 <= i < |before| ==> before[i] != Handler(true)
    requires forall i :: 0 <= i < |after| ==> after[i] != Handler(false)
    ensures var ops := before + [Handler(true)] + after;
            && Pulled(ops) == Pulled(before)
            && Run(FRESH, ops).queue == [] && Run(FRESH, ops).handler
            && Run(FRESH, ops).delivered == Received(ops)
            && Somes(Pulled(ops)) <= Received(ops)
    decreases |after|
  {
    var ops := before + [Handler(true)] + after;
    NothingLost(ops);
    HandlerIsLastSet(ops);
    if after == [] {
      assert ops[..|ops| - 1] == before;
      PulledInOrder(before);
    } else {
      var shorter := after[..|after| - 1];
      assert ops[..|ops| - 1] == before + [Handler(true)] + shorter;
      HandlerGetsTheRest(before, shorter);
      PullExactly(Run(FRESH, ops[..|ops| - 1]));
    }
    assert Run(FRESH, ops).delivered + [] == Run(FRESH, ops).delivered;
  }
}

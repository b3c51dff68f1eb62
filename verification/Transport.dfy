/** A connection object: the send and receive loops over the socket calls, and the receive queue. */
module Transport {
  import opened Words
  import opened Messages
  import opened Wire
  import opened Codec
  import opened Network
  import Mailbox
  import L = Layout

  class Connection {
    /** A channel that meets the receive loop's assumptions: no errors, and a header read gives both bytes. */
    const reliable: bool

    var lastMsgId: Word64
    var run: bool
    var handler: bool
    var messages: seq<Option<Message>>

    /** Bytes taken by send(), and bytes still to come out of recv(). */
    var outgoing: seq<byte>
    var incoming: seq<byte>

    ghost var log: seq<Message>
    ghost var delivered: seq<Option<Message>>

    constructor (reliable: bool)
      ensures lastMsgId == 0 && log == [] && outgoing == [] && incoming == []
      ensures this.reliable == reliable && Box() == Mailbox.FRESH
    {
      this.reliable := reliable;
      lastMsgId, run, handler, messages, outgoing, incoming := 0, true, false, [], [], [];
      log, delivered := [], [];
    }

    ghost function Box(): Mailbox.Box
      reads this
    {
      Mailbox.Box(run, handler, messages, delivered)
    }

    // -------------------------------------------------------------- sending

    /** The socket's send(): an error, or any positive number of bytes taken. */
    method Send(data: seq<byte>) returns (n: int)
      requires data != []
      modifies this`outgoing
      ensures n == -1 || 1 <= n <= |data|
      ensures outgoing == old(outgoing) + data[..if n < 0 then 0 else n]
    {
      n := *;
      if n < 0 {
        n := -1;
      } else if n == 0 || n > |data| {
        n := |data|;
      }
      if n > 0 {
        outgoing := outgoing + data[..n];
      }
    }

    method SendBytes(bl: BufLen) returns (ok: bool)
      modifies this`outgoing
      ensures ok ==> outgoing == old(outgoing) + bl.data
      ensures !ok ==> exists k: nat :: k < |bl.data| && outgoing == old(outgoing) + bl.data[..k]
    {
      var sent, toSend := 0, |bl.data|;
      while sent < toSend
        invariant 0 <= sent <= toSend == |bl.data|
        invariant outgoing == old(outgoing) + bl.data[..sent]
      {
        var transferred := Send(bl.data[sent..]);
        if transferred < 0 {
          return false;
        }
        assert bl.data[..sent] + bl.data[sent..][..transferred] == bl.data[..sent + transferred];
        sent := sent + transferred;
      }
      return true;
    }

    method GetMessageId() returns (id: Word64)
      modifies this`lastMsgId
      ensures lastMsgId == id == NextId(old(lastMsgId))
    {
      lastMsgId := Low64(lastMsgId + 1);
      id := lastMsgId;
    }

    /** The shared message object takes this connection's next id, and its frame goes out whole or breaks off. */
    method SendMsg(msg: FssMessage) returns (ok: bool)
      modifies this`lastMsgId, this`outgoing, this`log, msg
      ensures msg.id == lastMsgId == NextId(old(lastMsgId))
      ensures log == old(log) + [msg.View()]
      ensures ok ==> outgoing == old(outgoing) + Frame(msg.View())
      ensures !ok ==> exists k: nat :: k < |Frame(msg.View())| && outgoing == old(outgoing) + Frame(msg.View())[..k]
    {
      hide Frame, Low64;
      var id := GetMessageId();
      msg.SetId(id);
      log := log + [msg.View()];
      var bl := GetPacked(msg);
      FrameNotEmpty(msg.View());
      if |bl.data| == 0 {
        return false;
      }
      ok := SendBytes(bl);
    }

    // -------------------------------------------------------------- receiving

    /**
     * The socket's recv(), into a buffer from `at` on: an error, end of stream, or some of the bytes there are.
     * On a reliable channel there are no errors and a header read is not split.
     */
    method RecvBytes(buf: array<byte>, at: nat, max: nat, header: bool) returns (n: int)
      requires at + max <= buf.Length && max > 0
      modifies this`incoming, buf
      ensures -1 <= n <= max && n <= |old(incoming)|
      ensures var k := if n < 0 then 0 else n;
              && incoming == old(incoming)[k..]
              && buf[..] == old(buf[..])[..at] + old(incoming)[..k] + old(buf[..])[at + k..]
      ensures n == 0 ==> old(incoming) == []
      ensures reliable ==> n >= 0
      ensures reliable && header && |old(incoming)| >= max ==> n == max
    {
      var most := if max <= |incoming| then max else |incoming|;
      n := *;
      if n < 0 && !reliable {
        n := -1;
      } else if n <= 0 || n > most || header {
        n := most;
      }
      if n > 0 {
        Copy(buf, at, incoming[..n]);
        incoming := incoming[n..];
      } else {
        assert old(incoming)[0..] == old(incoming);
        assert buf[..] == old(buf[..])[..at] + [] + old(buf[..])[at..];
      }
    }

    method Copy(buf: array<byte>, at: nat, bytes: seq<byte>)
      requires at + |bytes| <= buf.Length
      modifies buf
      ensures buf[..] == old(buf[..])[..at] + bytes + old(buf[..])[at + |bytes|..]
    {
      for i := 0 to |bytes|
        invariant forall j :: 0 <= j < buf.Length ==>
                    buf[j] == if at <= j < at + i then bytes[j - at] else old(buf[j])
      {
        buf[at + i] := bytes[i];
      }
    }

    /**
     * One message, from any stream. On a reliable channel it is exactly the next frame's message, however the bytes
     * were split, and the stream is left at the next frame; at the end of the stream it is closed. On any channel:
     * that, or no message, or closed.
     */
    method RecvMsg() returns (r: Receipt)
      modifies this`incoming
      ensures reliable ==> Receives(old(incoming), r, incoming)
      ensures r.Received? ==>
                r.msg == None || r.msg == Some(Mailbox.CLOSED) || NextMessage(old(incoming)) == Got(r.msg, incoming)
    {
      hide Decode;
      r := Received(None);
      ghost var stream := incoming;
      var header := new byte[2];
      var received := RecvBytes(header, 0, 2, true);
      if received == 2 {
        assert header[..] == stream[..2];
        var length := FromBE(header[..]);
        var total := length;
        if length % 8 != 0 {
          total := length + 8 - length % 8;
        }
        if total == 0 {
          return Outside;
        }
        var data := Resized(header, total);
        var end := RecvRest(data, stream);
        if end == AtEnd {
          return Stuck;
        }
        if end == Whole {
          assert data[..length] == stream[..length];
          var decoded := DecodeMessage(data[..length]);
          r := if decoded.Fault? then Outside else Received(decoded.value);
        }
      } else {
        // errno may still say EBADF from an earlier call
        var badFd: bool := *;
        if received <= 0 || badFd {
          r := Received(Some(Mailbox.CLOSED));
        }
      }
    }

    method Resized(header: array<byte>, total: nat) returns (data: array<byte>)
      requires header.Length == 2 <= total
      ensures fresh(data) && data.Length == total && data[..2] == header[..]
    {
      data := new byte[total](_ => 0);
      data[0], data[1] := header[0], header[1];
    }

    /** The loop that fills the buffer behind the header; at the end of the stream it would go round for ever. */
    method RecvRest(data: array<byte>, ghost stream: seq<byte>) returns (end: Filled)
      requires 2 <= data.Length && 2 <= |stream|
      requires data[..2] == stream[..2] && incoming == stream[2..]
      modifies this`incoming, data
      ensures reliable ==> end == if data.Length <= |stream| then Whole else AtEnd
      ensures end == Whole ==> data.Length <= |stream| && data[..] == stream[..data.Length] && incoming == stream[data.Length..]
      ensures end == AtEnd ==> |stream| < data.Length && incoming == []
    {
      var received := 2;
      while received != data.Length
        invariant 2 <= received <= data.Length && received <= |stream|
        invariant data[..received] == stream[..received] && incoming == stream[received..]
        decreases data.Length - received
      {
        ghost var before := data[..];
        var thisTime := RecvBytes(data, received, data.Length - received, false);
        if thisTime < 0 {
          return Failed;
        }
        if thisTime == 0 {
          return AtEnd;
        }
        assert data[..received + thisTime] == before[..received] + stream[received..][..thisTime];
        received := received + thisTime;
      }
      return Whole;
    }

    // -------------------------------------------------------------- delivery

    /** One turn of the receive loop; up to where a receive gets stuck or leaves its buffer, nothing is delivered. */
    method ReceiveOne() returns (r: Receipt)
      requires run
      modifies this`run, this`incoming, this`messages, this`delivered
      ensures Box() == if r.Received? then Mailbox.Arrive(old(Box()), r.msg) else old(Box())
      ensures reliable ==> Receives(old(incoming), r, incoming)
    {
      r := RecvMsg();
      if r.Received? {
        if r.msg.Some? && r.msg.value.typ == Closed {
          run := false;
        }
        if handler {
          delivered := delivered + [r.msg];
        } else {
          messages := messages + [r.msg];
        }
      }
    }

    /**
     * The receive thread, on a reliable channel, over any stream that the peer then ends: it delivers the messages at
     * its front. At a frame boundary it delivers closed and ends, with one empty message first if a byte is left over;
     * inside a frame it goes round for ever; at a bad frame it leaves its buffer, and nothing is said from there on.
     */
    method ProcessMessages() returns (end: Ending)
      requires reliable
      modifies this`run, this`incoming, this`messages, this`delivered
      ensures end == EndingOf(old(incoming)) && run == !end.AtBoundary?
      ensures end.AtBoundary? ==> incoming == []
      ensures var b, ms, over := old(Box()), Parse(old(incoming)), Remains(old(incoming));
              if !end.AtBoundary? then Box() == Gets(b, ms).(run := true)
              else
                Box() == Gets(b, ms + [Some(Mailbox.CLOSED)]).(run := false)
                || (|over| == 1 && Box() == Gets(b, ms + [None, Some(Mailbox.CLOSED)]).(run := false))
    {
      hide NextMessage, Parse, Remains, Receives, Turns, Gets, Mailbox.Arrive;
      run := true;
      ghost var stream := incoming;
      ghost var done: seq<Option<Message>> := [];
      TurnsStart(stream);
      GetsOneMore(old(Box()), [], None);
      while run
        invariant Turns(stream, incoming, done, run)
        invariant Box() == Gets(old(Box()), done).(run := run)
        decreases run, |incoming|
      {
        ghost var before := incoming;
        var r := ReceiveOne();
        TurnsOn(stream, before, done, r, incoming);
        if !r.Received? {
          return if r.Stuck? then InsideFrame else BadFrame;
        }
        GetsOneMore(old(Box()), done, r.msg);
        done := done + [r.msg];
      }
      TurnsEnd(stream, incoming, done);
      return AtBoundary;
    }

    method GetMsg() returns (msg: Option<Message>)
      modifies this`messages, this`delivered
      ensures (Box(), msg) == Mailbox.Pull(old(Box()))
    {
      msg := None;
      if !handler {
        if |messages| != 0 {
          msg := messages[0];
          if msg != None {
            messages := messages[1..];
            delivered := delivered + [msg];
          }
        }
      }
    }

    method SetHandler(on: bool)
      modifies this`handler, this`messages, this`delivered
      ensures Box() == Mailbox.SetHandler(old(Box()), on)
    {
      handler := on;
      if handler {
        while |messages| != 0
          invariant handler && delivered + messages == old(delivered + messages)
        {
          ghost var front := messages[0];
          assert messages == [front] + messages[1..];
          delivered := delivered + [front];
          messages := messages[1..];
        }
        assert messages == [] && delivered + messages == delivered;
      }
    }
  }

  /** What a connection has after the given receives: with its handler, or else its queue. */
  ghost function Gets(b: Mailbox.Box, ms: seq<Option<Message>>): Mailbox.Box {
    if b.handler then b.(delivered := b.delivered + ms) else b.(queue := b.queue + ms)
  }

  lemma GetsOneMore(b: Mailbox.Box, ms: seq<Option<Message>>, msg: Option<Message>)
    ensures Mailbox.Arrive(Gets(b, ms).(run := true), msg) == Gets(b, ms + [msg]).(run := !Mailbox.IsClosed(msg))
    ensures Gets(b, []).(run := true) == b.(run := true)
  {
    assert b.queue + [] == b.queue && b.delivered + [] == b.delivered;
    assert b.queue + ms + [msg] == b.queue + (ms + [msg]) && b.delivered + ms + [msg] == b.delivered + (ms + [msg]);
  }

  /** How a receive ends: with a message or none; going round for ever at the end of the stream; or outside its buffer. */
  datatype Receipt = Received(msg: Option<Message>) | Stuck | Outside

  datatype Filled = Whole | AtEnd | Failed

  /** One receive on a reliable channel, for every stream. */
  ghost predicate Receives(stream: seq<byte>, r: Receipt, rest: seq<byte>) {
    if stream == [] then r == Received(Some(Mailbox.CLOSED)) && rest == []
    else if |stream| == 1 then rest == [] && (r == Received(None) || r == Received(Some(Mailbox.CLOSED)))
    else
      match NextMessage(stream)
      case Got(msg, more) => r == Received(msg) && rest == more
      case Waiting => r == Stuck
      case Broken => r == Outside
  }

  /** The receive loop on the way through a stream: what it has delivered and what is left. */
  ghost predicate Turns(stream: seq<byte>, left: seq<byte>, done: seq<Option<Message>>, run: bool) {
    var all, rest := Parse(stream), Remains(stream);
    if run then
      (all == done + Parse(left) && rest == Remains(left)) || (|rest| == 1 && left == [] && done == all + [None])
    else
      left == [] && |rest| < 2
      && (done == all + [Some(Mailbox.CLOSED)] || (|rest| == 1 && done == all + [None, Some(Mailbox.CLOSED)]))
  }

  lemma TurnsStart(stream: seq<byte>)
    ensures Turns(stream, stream, [], true)
  {
    assert [] + Parse(stream) == Parse(stream);
  }

  /** Nothing but a closed message ends the loop; a receive that does not come back leaves two bytes or more. */
  lemma TurnsOn(stream: seq<byte>, left: seq<byte>, done: seq<Option<Message>>, r: Receipt, left': seq<byte>)
    requires Turns(stream, left, done, true) && Receives(left, r, left')
    ensures r.Received? ==> Turns(stream, left', done + [r.msg], !Mailbox.IsClosed(r.msg))
    ensures r.Received? ==> |left'| < |left| || Mailbox.IsClosed(r.msg)
    ensures !r.Received? ==> done == Parse(stream) && EndingOf(stream) == if r.Stuck? then InsideFrame else BadFrame
  {
    ParseFirst(left);
    hide NextMessage, Parse, Remains;
    var all := Parse(stream);
    assert done + [] == done;
    if |left| >= 2 && r.Received? {
      assert done + ([r.msg] + Parse(left')) == done + [r.msg] + Parse(left');
    }
    assert all + [None] + [Some(Mailbox.CLOSED)] == all + [None, Some(Mailbox.CLOSED)];
  }

  /** The first message of a stream, if it holds a whole one. */
  lemma ParseFirst(stream: seq<byte>)
    ensures var n := NextMessage(stream);
            if n.Got? then
              && Parse(stream) == [n.msg] + Parse(n.rest) && Remains(stream) == Remains(n.rest)
              && 2 <= |stream| && |n.rest| < |stream| && !Mailbox.IsClosed(n.msg)
            else
              Parse(stream) == [] && Remains(stream) == stream
  {
    if NextMessage(stream).Got? {
      NeverDecodesClosed(stream[..FromBE(stream[..2])]);
    }
  }

  lemma TurnsEnd(stream: seq<byte>, left: seq<byte>, done: seq<Option<Message>>)
    requires Turns(stream, left, done, false)
    ensures left == [] && EndingOf(stream).AtBoundary?
    ensures done == Parse(stream) + [Some(Mailbox.CLOSED)]
            || (|Remains(stream)| == 1 && done == Parse(stream) + [None, Some(Mailbox.CLOSED)])
  {
  }

  /** How a stream ends, by what is left of it behind its whole messages. */
  lemma EndingInNumbers(stream: seq<byte>)
    ensures var rest := Remains(stream);
            EndingOf(stream) ==
            if |rest| < 2 then AtBoundary
            else if L.Num2(rest, 0) > 0 && |rest| < 8 * ((L.Num2(rest, 0) + 7) / 8) then InsideFrame
            else BadFrame
    ensures !NextMessage(Remains(stream)).Got?
  {
    NothingWholeRemains(stream);
    L.ReceiveExactly(Remains(stream));
    hide NextMessage, Remains, L.Num2, Decode;
  }

  lemma NothingWholeRemains(stream: seq<byte>)
    ensures !NextMessage(Remains(stream)).Got?
    decreases |stream|
  {
    var n := NextMessage(stream);
    if n.Got? {
      NothingWholeRemains(n.rest);
    }
  }

  lemma FrameNotEmpty(m: Message)
    ensures |Frame(m)| > 0
  {
  }

  /** No frame decodes to a closed message: only the end of the stream makes one. */
  lemma NeverDecodesClosed(b: seq<byte>)
    ensures Decode(b).Ok? && Decode(b).value.Some? ==> Decode(b).value.value.typ != Closed
  {
  }

  /** Sending bodies one after another on a fresh connection: ids count from 1, frames follow each other. */
  method SendAll(from: Connection, bodies: seq<Body>) returns (ok: bool)
    requires from.lastMsgId == 0 && from.log == [] && from.outgoing == []
    modifies from
    ensures ok ==> from.log == Numbering(bodies) && from.outgoing == Frames(from.log)
  {
    hide Frame;
    for i := 0 to |bodies|
      invariant from.log == Numbering(bodies[..i]) && from.lastMsgId == Low64(i)
      invariant from.outgoing == Frames(from.log)
    {
      var msg := new FssMessage(bodies[i]);
      ok := from.SendMsg(msg);
      if !ok { return; }
      assert bodies[..i + 1] == bodies[..i] + [bodies[i]];
      NumberingSnoc(bodies[..i], bodies[i]);
      NextIdCounts(i);
      FramesSnoc(Numbering(bodies[..i]), msg.View());
    }
    assert bodies[..|bodies|] == bodies;
    ok := true;
  }

  /** End to end through the objects: the bodies one side sends are what the other side's queue or handler gets. */
  method Exchange(from: Connection, to: Connection, bodies: seq<Body>) returns (ok: bool)
    requires from != to && to.reliable && from.lastMsgId == 0
    requires from.log == [] && from.outgoing == [] && to.incoming == []
    requires forall b :: b in bodies ==> Fits(b)
    modifies from, to
    ensures ok ==> to.incoming == []
    ensures ok ==>
              to.Box() == Gets(old(to.Box()), Normals(Numbering(bodies)) + [Some(Mailbox.CLOSED)]).(run := false)
  {
    hide Fits;
    ok := SendAll(from, bodies);
    if !ok { return; }
    to.incoming := from.outgoing;
    ParseFrames(from.log);
    var _ := to.ProcessMessages();
  }
}

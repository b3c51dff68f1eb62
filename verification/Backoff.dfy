/** One server as the client sees it: its connection and its capped exponential backoff. */
module Backoff {
  import opened Words
  import opened Messages

  const RETRY_DELAY_START: Word64 := 1000
  const RETRY_DELAY_CAP: Word64 := 30000

  /** connected: there is a connection object; alive: the end of its stream has not been met, with or without closed. */
  datatype Link = Link(address: Text, port: Word16, connected: bool, alive: bool,
                       lastTried: Word64, retryCount: nat, retryDelay: Word64)

  function NewLink(address: Text, port: Word16): Link { Link(address, port, false, false, 0, 0, RETRY_DELAY_START) }

  /**
   * The clock at a call, whether connecting would work then, and whether the new connection is closed, with the
   * closed message queued, before the handler is set.
   */
  datatype Try = Try(now: Word64, works: bool, closedQueued: bool)

  /** Whether the wait is over; the difference is unsigned. */
  predicate Attempts(l: Link, now: Word64) { SizeSub(now, l.lastTried) > l.retryDelay }

  predicate Succeeds(l: Link, t: Try) { Attempts(l, t.now) && t.works }

  /** A queued closed message finds the server in no list yet; what it resets is reset anyway. */
  function Reconnect(l: Link, t: Try): Link {
    if !Attempts(l, t.now) then l.(connected := false, alive := false)
    else if t.works then
      l.(connected := true, alive := !t.closedQueued, lastTried := 0, retryCount := 0, retryDelay := RETRY_DELAY_START)
    else l.(connected := false, alive := false, lastTried := t.now, retryCount := l.retryCount + 1,
            retryDelay := if l.retryDelay < RETRY_DELAY_CAP then Low64(l.retryDelay + l.retryDelay) else l.retryDelay)
  }

  /** The stream has ended without a closed message: nothing in the object changes. */
  function Hanging(l: Link): Link { l.(alive := false) }

  /** A closed connection: the object stays attached until the next reconnect; the delay is not reset. */
  function Closing(l: Link): Link { l.(alive := false, lastTried := 0, retryCount := 0) }

  // ------------------------------------------------------------ the delay

  /** The delay after a number of failures: doubled for each, five times at most. */
  function Delay(failures: nat): (d: Word64)
    ensures RETRY_DELAY_START <= d <= 32000
  {
    match failures
    case 0 => 1000
    case 1 => 2000
    case 2 => 4000
    case 3 => 8000
    case 4 => 16000
    case _ => 32000
  }

  function Pow2(n: nat): nat { if n == 0 then 1 else 2 * Pow2(n - 1) }

  lemma DelayIsCapped(n: nat)
    ensures Delay(n) == 1000 * Pow2(if n < 5 then n else 5)
  {
    assert Pow2(5) == 4 * Pow2(3) && Pow2(4) == 4 * Pow2(2) && Pow2(3) == 4 * Pow2(1);
  }

  /** The delay always goes with the count; a connected server is as if never tried. */
  predicate Waiting(l: Link) { l.retryDelay == Delay(l.retryCount) }

  predicate Fresh(l: Link) { l.connected && l.lastTried == 0 && l.retryCount == 0 && l.retryDelay == RETRY_DELAY_START }

  /** A reconnect keeps the delay with the count; it connects exactly when it succeeds, and then starts afresh. */
  lemma ReconnectKeeps(l: Link, t: Try)
    requires Waiting(l)
    ensures var l' := Reconnect(l, t);
            && Waiting(l') && l'.address == l.address && l'.port == l.port
            && (l'.connected <==> Succeeds(l, t)) && (l'.connected ==> Fresh(l'))
            && (l'.alive <==> Succeeds(l, t) && !t.closedQueued)
  {
  }

  /** Closing may leave the delay alone because of what holds while connected; for any other link it may not. */
  lemma ClosingKeepsExactlyWhen(l: Link)
    requires Waiting(l)
    ensures Waiting(Closing(l)) <==> l.retryCount == 0
  {
  }

  // ------------------------------------------------------------ the rate

  function Tried(l: Link, calls: seq<Try>): Link
    decreases |calls|
  {
    if calls == [] then l else Reconnect(Tried(l, calls[..|calls| - 1]), calls[|calls| - 1])
  }

  /** When connecting was attempted in a run of reconnect calls. */
  function AttemptTimes(l: Link, calls: seq<Try>): seq<Word64>
    decreases |calls|
  {
    if calls == [] then [] else
      var before, t := calls[..|calls| - 1], calls[|calls| - 1];
      AttemptTimes(l, before) + if Attempts(Tried(l, before), t.now) then [t.now] else []
  }

  ghost predicate Failing(calls: seq<Try>) {
    && (forall i :: 0 <= i < |calls| ==> !calls[i].works)
    && (forall i, j :: 0 <= i < j < |calls| ==> calls[i].now <= calls[j].now)
  }

  lemma {:induction false} AfterFailures(l0: Link, calls: seq<Try>)
    requires Waiting(l0) && Failing(calls)
    ensures var l, times := Tried(l0, calls), AttemptTimes(l0, calls);
            && l.retryCount == l0.retryCount + |times| && Waiting(l)
            && (times == [] ==> l.lastTried == l0.lastTried)
            && (times != [] ==> calls != [] && l.lastTried == times[|times| - 1] <= calls[|calls| - 1].now)
    decreases |calls|
  {
    if calls != [] {
      var before, t := calls[..|calls| - 1], calls[|calls| - 1];
      AfterFailures(l0, before);
      FailedCall(Tried(l0, before), t);
      assert before != [] ==> before[|before| - 1].now <= t.now;
      hide Reconnect, Attempts, Waiting, Failing;
    }
  }

  /** A failing call counts one failure more and starts the wait anew, if the wait was over; else it changes neither. */
  lemma FailedCall(l: Link, t: Try)
    requires Waiting(l) && !t.works
    ensures var l' := Reconnect(l, t);
            && Waiting(l') && l'.retryCount == l.retryCount + (if Attempts(l, t.now) then 1 else 0)
            && l'.lastTried == if Attempts(l, t.now) then t.now else l.lastTried
  {
  }

  /** From any server state with n failures behind it: the i-th failure more, and the next attempt is Delay(n + i) away. */
  lemma {:induction false} RetryGap(l0: Link, calls: seq<Try>, i: nat)
    requires Waiting(l0) && Failing(calls) && i + 1 < |AttemptTimes(l0, calls)|
    ensures AttemptTimes(l0, calls)[i + 1] > AttemptTimes(l0, calls)[i] + Delay(l0.retryCount + i + 1)
    decreases |calls|
  {
    var before := calls[..|calls| - 1];
    AfterFailures(l0, before);
    if i + 1 < |AttemptTimes(l0, before)| {
      RetryGap(l0, before, i);
    }
  }

  /** Reconnect calls that come at most d apart. */
  ghost predicate Paced(calls: seq<Try>, d: nat) {
    forall i :: 0 <= i < |calls| - 1 ==> calls[i + 1].now <= calls[i].now + d
  }

  /** With calls at most d apart the next attempt is no more than the delay and d away. */
  lemma {:induction false} RetryWithin(l0: Link, calls: seq<Try>, d: nat, i: nat)
    requires Waiting(l0) && Failing(calls) && Paced(calls, d) && i + 1 < |AttemptTimes(l0, calls)|
    ensures AttemptTimes(l0, calls)[i + 1] <= AttemptTimes(l0, calls)[i] + Delay(l0.retryCount + i + 1) + d
    decreases |calls|
  {
    var k := |calls| - 1;
    var before := calls[..k];
    AfterFailures(l0, before);
    if i + 1 < |AttemptTimes(l0, before)| {
      RetryWithin(l0, before, d, i);
    } else {
      CallBefore(l0, before);
      assert before[k - 1] == calls[k - 1] && calls[k].now <= calls[k - 1].now + d;
    }
  }

  /** The last call was an attempt, or came before the delay was over. */
  lemma CallBefore(l0: Link, calls: seq<Try>)
    requires Waiting(l0) && Failing(calls) && AttemptTimes(l0, calls) != []
    ensures var l := Tried(l0, calls); calls != [] && calls[|calls| - 1].now <= l.lastTried + l.retryDelay
  {
    AfterFailures(l0, calls);
    AfterFailures(l0, calls[..|calls| - 1]);
  }

  /**
   * When exactly the next attempt is made after any failing calls, and whether it connects: as soon as the delay that
   * goes with the failures so far is over, counted from the last attempt.
   */
  lemma NextAttemptExactlyWhen(l0: Link, calls: seq<Try>, t: Try)
    requires Waiting(l0) && Failing(calls)
    requires var times := AttemptTimes(l0, calls);
             t.now >= if times == [] then l0.lastTried else times[|times| - 1]
    ensures var times := AttemptTimes(l0, calls);
            var due := t.now > (if times == [] then l0.lastTried else times[|times| - 1]) + Delay(l0.retryCount + |times|);
            && AttemptTimes(l0, calls + [t]) == times + (if due then [t.now] else [])
            && (Tried(l0, calls + [t]).connected <==> due && t.works)
  {
    hide Delay, Tried, AttemptTimes, Reconnect, Failing;
    AfterFailures(l0, calls);
    ReconnectKeeps(Tried(l0, calls), t);
    OneMoreCall(l0, calls, t);
    DueExactlyWhen(Tried(l0, calls), t.now);
    hide Waiting, Attempts;
  }

  lemma DueExactlyWhen(l: Link, now: Word64)
    requires Waiting(l) && now >= l.lastTried
    ensures Attempts(l, now) <==> now > l.lastTried + Delay(l.retryCount)
  {
  }

  lemma OneMoreCall(l0: Link, calls: seq<Try>, t: Try)
    ensures Tried(l0, calls + [t]) == Reconnect(Tried(l0, calls), t)
    ensures AttemptTimes(l0, calls + [t])
         == AttemptTimes(l0, calls) + if Attempts(Tried(l0, calls), t.now) then [t.now] else []
  {
    assert (calls + [t])[..|calls|] == calls;
  }

  /** A new server is tried as soon as the clock is past 1000 ms; one whose connection was closed, too. */
  lemma FirstAttemptExactlyWhen(address: Text, port: Word16, l: Link, now: Word64)
    requires Fresh(l)
    ensures Attempts(NewLink(address, port), now) <==> now > 1000
    ensures Attempts(Closing(l), now) <==> now > 1000
  {
  }

  /** The sum of the first n delays after a failure. */
  function DelaySum(n: nat): nat {
    if n == 0 then 0 else DelaySum(n - 1) + Delay(n)
  }

  lemma {:induction false} Span(l0: Link, calls: seq<Try>, n: nat)
    requires Waiting(l0) && l0.retryCount == 0 && Failing(calls) && n < |AttemptTimes(l0, calls)|
    ensures AttemptTimes(l0, calls)[n] >= AttemptTimes(l0, calls)[0] + DelaySum(n) + n
    decreases n
  {
    if n > 0 {
      Span(l0, calls, n - 1);
      RetryGap(l0, calls, n - 1);
    }
  }

  lemma {:induction false} DelaySumValue(n: nat)
    requires n >= 4
    ensures DelaySum(n) == 30000 + 32000 * (n - 4)
  {
    if n == 4 {
      assert DelaySum(2) == 6000;
    } else {
      DelaySumValue(n - 1);
    }
  }

  /** Five or more failed attempts in a row span at least 30 seconds, and 32 more for each past the fifth. */
  lemma FailedAttemptsSpan(l0: Link, calls: seq<Try>)
    requires Waiting(l0) && l0.retryCount == 0 && Failing(calls) && |AttemptTimes(l0, calls)| >= 5
    ensures var times := AttemptTimes(l0, calls);
            var n := |times|;
            times[n - 1] - times[0] >= 30000 + 32000 * (n - 5) + (n - 1)
  {
    var n := |AttemptTimes(l0, calls)|;
    Span(l0, calls, n - 1);
    DelaySumValue(n - 1);
  }

  // ------------------------------------------------------------ the whole life of a server

  /** The client calls reconnect for a server that is not alive; the connection of one that is can be closed. */
  datatype Event = Call(t: Try) | ConnectionClosed

  /** One attempt to connect. */
  datatype Attempted = Attempted(at: Word64, ok: bool)

  function Happened(l: Link, e: Event): Link {
    match e
    case Call(t) => if l.alive then l else Reconnect(l, t)
    case ConnectionClosed => if l.alive then Closing(l) else l
  }

  function Lived(l: Link, events: seq<Event>): Link
    decreases |events|
  {
    if events == [] then l else Happened(Lived(l, events[..|events| - 1]), events[|events| - 1])
  }

  /** Every attempt in a life, connections and closes in between included. */
  function Log(l: Link, events: seq<Event>): seq<Attempted>
    decreases |events|
  {
    if events == [] then [] else
      var before, e := events[..|events| - 1], events[|events| - 1];
      Log(l, before) + Next(Lived(l, before), e)
  }

  function Next(l: Link, e: Event): seq<Attempted> {
    if e.Call? && !l.alive && Attempts(l, e.t.now) then [Attempted(e.t.now, e.t.works)] else []
  }

  /** How many attempts in a row have failed, the i-th the last of them. */
  function Streak(log: seq<Attempted>, i: nat): nat
    requires i < |log|
  {
    if log[i].ok then 0 else 1 + if i == 0 then 0 else Streak(log, i - 1)
  }

  lemma {:induction false} StreakOfPrefix(log: seq<Attempted>, more: seq<Attempted>, i: nat)
    requires i < |log|
    ensures Streak(log + more, i) == Streak(log, i)
  {
    if i > 0 {
      StreakOfPrefix(log, more, i - 1);
    }
  }

  ghost predicate ClockOk(events: seq<Event>) {
    forall i, j :: 0 <= i < j < |events| && events[i].Call? && events[j].Call? ==> events[i].t.now <= events[j].t.now
  }

  /** What the link still knows of its attempts. */
  ghost predicate Remembers(l: Link, log: seq<Attempted>) {
    && Waiting(l)
    && (log == [] || log[|log| - 1].ok ==> l.retryCount == 0)
    && (log != [] && !log[|log| - 1].ok ==>
          !l.alive && l.lastTried == log[|log| - 1].at && l.retryCount == Streak(log, |log| - 1))
    && (l.alive ==> l.retryCount == 0)
  }

  lemma {:induction false} LifeRemembers(address: Text, port: Word16, events: seq<Event>)
    requires ClockOk(events)
    ensures var l, log := Lived(NewLink(address, port), events), Log(NewLink(address, port), events);
            && Remembers(l, log)
            && (log != [] ==> exists j :: 0 <= j < |events| && events[j].Call? && events[j].t.now == log[|log| - 1].at)
    decreases |events|
  {
    if events != [] {
      var before, e := events[..|events| - 1], events[|events| - 1];
      LifeRemembers(address, port, before);
      var l, log := Lived(NewLink(address, port), before), Log(NewLink(address, port), before);
      RemembersNext(l, log, e);
      if Next(l, e) != [] {
        assert events[|events| - 1].t.now == e.t.now;
      } else if log != [] {
        var j :| 0 <= j < |before| && before[j].Call? && before[j].t.now == log[|log| - 1].at;
        assert events[j] == before[j];
      }
    }
  }

  lemma RemembersNext(l: Link, log: seq<Attempted>, e: Event)
    requires Remembers(l, log)
    ensures Remembers(Happened(l, e), log + Next(l, e))
  {
    assert log + [] == log;
    if Next(l, e) != [] && log != [] {
      StreakOfPrefix(log, Next(l, e), |log| - 1);
    }
  }

  /**
   * Over the whole life of a server, connections and closes included: after a failed attempt that was the n-th
   * failure in a row, the next attempt is more than min(1000 * 2^n, 32000) ms away.
   */
  lemma {:induction false} LifetimeGap(address: Text, port: Word16, events: seq<Event>, i: nat)
    requires ClockOk(events)
    requires var log := Log(NewLink(address, port), events); i + 1 < |log| && !log[i].ok
    ensures var log := Log(NewLink(address, port), events); log[i + 1].at > log[i].at + Delay(Streak(log, i))
    decreases |events|
  {
    var before, e := events[..|events| - 1], events[|events| - 1];
    var log, more := Log(NewLink(address, port), before), Log(NewLink(address, port), events);
    if i < |log| {
      StreakOfPrefix(log, more[|log|..], i);
      assert more == log + more[|log|..];
    }
    LifeRemembers(address, port, before);
    if i + 1 < |log| {
      LifetimeGap(address, port, before, i);
    } else {
      var j :| 0 <= j < |before| && before[j].Call? && before[j].t.now == log[i].at;
      assert events[j] == before[j] && e == events[|events| - 1];
    }
  }

  /**
   * So n more attempts after a failure that was the first in a row, the ones before the last failed too, take at least
   * the n delays: from five attempts on, 30 seconds, and 32 more for each past the fifth.
   */
  lemma {:induction false} LifetimeSpan(address: Text, port: Word16, events: seq<Event>, i: nat, n: nat)
    requires ClockOk(events)
    requires var log := Log(NewLink(address, port), events);
             i + n < |log| && Streak(log, i) == 1 && forall k :: i <= k < i + n ==> !log[k].ok
    ensures var log := Log(NewLink(address, port), events);
            && log[i + n].at >= log[i].at + DelaySum(n) + n
            && (n >= 4 ==> log[i + n].at >= log[i].at + 30000 + 32000 * (n - 4) + n)
    decreases n
  {
    if n > 0 {
      var log := Log(NewLink(address, port), events);
      LifetimeSpan(address, port, events, i, n - 1);
      LifetimeGap(address, port, events, i + n - 1);
      StreakGrows(log, i, n - 1);
    }
    if n >= 4 {
      DelaySumValue(n);
    }
  }

  lemma {:induction false} StreakGrows(log: seq<Attempted>, i: nat, n: nat)
    requires i + n < |log| && Streak(log, i) == 1 && forall k :: i <= k <= i + n ==> !log[k].ok
    ensures Streak(log, i + n) == 1 + n
    decreases n
  {
    if n > 0 {
      StreakGrows(log, i, n - 1);
    }
  }
}

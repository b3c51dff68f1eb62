/** The frame format byte by byte, in plain numbers: where everything is, and which byte comes first. */
module Layout {
  import opened Words
  import opened Messages
  import opened Wire
  import opened RoundTrip

  // ------------------------------------------------------------ numbers in a buffer, high byte first

  function Num2(b: seq<byte>, at: nat): nat
    requires at + 2 <= |b|
  {
    var high: nat, low: nat := b[at], b[at + 1];
    256 * high + low
  }

  function Num4(b: seq<byte>, at: nat): nat
    requires at + 4 <= |b|
  {
    65536 * Num2(b, at) + Num2(b, at + 2)
  }

  function Num8(b: seq<byte>, at: nat): nat
    requires at + 8 <= |b|
  {
    4294967296 * Num4(b, at) + Num4(b, at + 4)
  }

  /** The first multiple of 8 behind n bytes. */
  function NextEight(n: nat): nat { 8 * (n / 8 + 1) }

  predicate ZeroBetween(b: seq<byte>, from: nat, to: nat) {
    to <= |b| && forall i :: from <= i < to ==> b[i] == 0
  }

  /** A text: its length, its bytes, and zeros up to the next multiple of 8. */
  predicate TextHere(b: seq<byte>, at: nat, s: Text) {
    var end := at + 2 + |s|;
    && NextEight(end) <= |b|
    && Num2(b, at) == |s| && b[at + 2..end] == s && ZeroBetween(b, end, NextEight(end))
  }

  function AfterText(at: nat, s: Text): nat { NextEight(at + 2 + |s|) }

  predicate ServersHere(b: seq<byte>, at: nat, servers: seq<Server>, end: nat)
    decreases |servers|
  {
    if servers == [] then at == end
    else
      && at + 2 <= |b| && Num2(b, at) == servers[0].port
      && TextHere(b, at + 2, servers[0].address)
      && ServersHere(b, AfterText(at + 2, servers[0].address), servers[1..], end)
  }

  /** Two's complement in 32 and in 16 bits. */
  function Unsigned32(i: int): int { if i < 0 then i + 4294967296 else i }
  function Unsigned16(i: int): int { if i < 0 then i + 65536 else i }

  /** The five longer words of a position report, then the four short ones, the callsign and what is behind it. */
  predicate PositionHere(b: seq<byte>, p: Position, end: nat) {
    && 44 <= |b|
    && Num8(b, 12) == p.timestamp
    && Num4(b, 20) == Unsigned32(p.lat) && Num4(b, 24) == Unsigned32(p.lng)
    && Num4(b, 28) == p.altitude && Num4(b, 32) == p.icao
    && Num2(b, 36) == p.heading && Num2(b, 38) == p.horVel && Num2(b, 40) == Unsigned16(p.verVel) && Num2(b, 42) == p.squawk
    && TextHere(b, 44, p.callsign)
    && var tail := AfterText(44, p.callsign);
    && end == tail + 4 <= |b|
    && Num2(b, tail) == p.flags && b[tail + 2] == p.altType && b[tail + 3] == p.emitter
  }

  /** The contents of each kind, from byte 12 on, and where they end. */
  predicate BodyHere(b: seq<byte>, body: Body, end: nat)
    requires |b| >= 12
  {
    match body
    case BClosed => end == 12
    case BIdentity(name) => end == 12 + |name| <= |b| && b[12..end] == name
    case BRttRequest => end == 12
    case BRttResponse(id) => end == 20 <= |b| && Num8(b, 12) == id
    case BPosition(p) => PositionHere(b, p, end)
    case BStatus(battery, mah, voltage) => end == 21 <= |b| && b[12] == battery && Num4(b, 13) == mah && Num4(b, 17) == voltage
    case BSearch(id, completed, total) =>
      end == 36 <= |b| && Num8(b, 12) == id && Num8(b, 20) == completed && Num8(b, 28) == total
    case BCommand(ts, lat, lng, alt, command) =>
      && end == 33 <= |b| && Num8(b, 12) == ts
      && Num4(b, 20) == Unsigned32(lat) && Num4(b, 24) == Unsigned32(lng) && Num4(b, 28) == alt && b[32] == command
    case BServerList(servers) => ServersHere(b, 12, servers, end)
    case BSmm(url, username, password) =>
      && TextHere(b, 12, url)
      && var user := AfterText(12, url);
      && TextHere(b, user, username)
      && var pass := AfterText(user, username);
      && TextHere(b, pass, password) && end == AfterText(pass, password)
    case BNonAircraft(caps) => end == 20 <= |b| && Num8(b, 12) == caps
    case BIdentityRequired => end == 12
  }

  /** The number of each kind. */
  function KindNumber(body: Body): nat {
    match body
    case BClosed => 1
    case BIdentity(_) => 2
    case BRttRequest => 3
    case BRttResponse(_) => 4
    case BPosition(_) => 5
    case BStatus(_, _, _) => 6
    case BSearch(_, _, _) => 7
    case BCommand(_, _, _, _, _) => 8
    case BServerList(_) => 9
    case BSmm(_, _, _) => 10
    case BNonAircraft(_) => 11
    case BIdentityRequired => 12
  }

  /** A whole frame: size without padding, kind, id, contents, and zeros up to a multiple of 8. */
  predicate LaidOut(b: seq<byte>, m: Message) {
    && 12 <= |b|
    && var size := Num2(b, 0);
    && |b| == 8 * ((size + 7) / 8)
    && Num2(b, 2) == KindNumber(m.body) && Num8(b, 4) == m.id
    && BodyHere(b, m.body, size)
    && ZeroBetween(b, size, |b|)
  }

  // ------------------------------------------------------------ words

  /** Byte i of a word of w bytes, counted from the front. */
  lemma {:induction false} ByteOf(n: nat, w: nat, i: nat)
    requires i < w
    ensures BE(n, w)[i] == n / Pow256(w - 1 - i) % 256
  {
    if i < w - 1 {
      ByteOf(n / 256, w - 1, i);
      DivTwice(n, Pow256(w - 2 - i));
    }
  }

  lemma DivTwice(n: nat, p: nat)
    requires p > 0
    ensures n / 256 / p == n / (256 * p)
  {
    var q := n / 256 / p;
    var r := n / 256 - p * q;
    assert n == 256 * (n / 256) + n % 256;
    assert 256 * (p * q) == (256 * p) * q;
    assert n == (256 * p) * q + (256 * r + n % 256);
    assert 256 * r + n % 256 < 256 * p;
    DivUnique(n, 256 * p, q, 256 * r + n % 256);
  }

  lemma DivUnique(n: int, d: int, q: int, r: int)
    requires d > 0 && n == d * q + r && 0 <= r < d
    ensures n / d == q
  {
    DivMod(n, d);
    var k := n / d - q;
    assert d * k == r - n % d by {
      assert d * (n / d - q) == d * (n / d) - d * q;
    }
    MulBound(d, k);
  }

  lemma {:induction false} FromBEConcat(a: seq<byte>, s: seq<byte>)
    ensures FromBE(a + s) == FromBE(a) * Pow256(|s|) + FromBE(s)
    decreases |s|
  {
    if s == [] {
      assert a + s == a;
    } else {
      var k := |s| - 1;
      assert (a + s)[..|a| + k] == a + s[..k];
      assert (a + s)[|a| + k] == s[k];
      FromBEConcat(a, s[..k]);
      Horner(FromBE(a), Pow256(k), FromBE(s[..k]), s[k]);
    }
  }

  lemma Horner(x: nat, p: nat, y: nat, z: nat)
    ensures (x * p + y) * 256 + z == x * (256 * p) + (y * 256 + z)
  {
  }

  /** The first byte of a word is its highest. */
  lemma FromBEFirst(b: byte, s: seq<byte>)
    ensures FromBE([b] + s) == b * Pow256(|s|) + FromBE(s)
  {
    assert [b][..0] == [];
    assert FromBE([b]) == b;
    FromBEConcat([b], s);
  }

  lemma TwoBytes(b: seq<byte>, at: nat, v: nat)
    requires at + 2 <= |b| && FromBE(b[at..at + 2]) == v
    ensures Num2(b, at) == v
  {
    var s := b[at..at + 2];
    assert s == [s[0]] + [s[1]] && [s[1]][..0] == [];
    PowValues();
    FromBEFirst(s[0], [s[1]]);
  }

  lemma FourBytes(b: seq<byte>, at: nat, v: nat)
    requires at + 4 <= |b| && FromBE(b[at..at + 4]) == v
    ensures Num4(b, at) == v
  {
    hide FromBE;
    var high, low := b[at..at + 2], b[at + 2..at + 4];
    assert b[at..at + 4] == high + low;
    PowValues();
    FromBEConcat(high, low);
    TwoBytes(b, at, FromBE(high));
    TwoBytes(b, at + 2, FromBE(low));
  }

  lemma EightBytes(b: seq<byte>, at: nat, v: nat)
    requires at + 8 <= |b| && FromBE(b[at..at + 8]) == v
    ensures Num8(b, at) == v
  {
    hide FromBE;
    var high, low := b[at..at + 4], b[at + 4..at + 8];
    assert b[at..at + 8] == high + low;
    PowValues();
    FromBEConcat(high, low);
    FourBytes(b, at, FromBE(high));
    FourBytes(b, at + 4, FromBE(low));
  }

  /** A word that the buffer holds, in numbers. */
  lemma WordHere(b: seq<byte>, at: nat, v: nat, w: nat)
    requires Holds(b, at, BE(v, w)) && v < Pow256(w)
    ensures w == 2 ==> Num2(b, at) == v
    ensures w == 4 ==> Num4(b, at) == v
    ensures w == 8 ==> Num8(b, at) == v
  {
    WordRoundTrip(v, w);
    SmallMod(v, Pow256(w));
    hide BE, FromBE, Pow256, Num2, Num4, Num8;
    if w == 2 {
      TwoBytes(b, at, v);
    } else if w == 4 {
      FourBytes(b, at, v);
    } else if w == 8 {
      EightBytes(b, at, v);
    }
  }

  lemma WordThen(b: seq<byte>, at: nat, v: nat, w: nat, tail: seq<byte>)
    requires Holds(b, at, BE(v, w) + tail) && v < Pow256(w)
    ensures w == 2 ==> Num2(b, at) == v
    ensures w == 4 ==> Num4(b, at) == v
    ensures w == 8 ==> Num8(b, at) == v
    ensures Holds(b, at + w, tail)
  {
    HoldsParts(b, at, BE(v, w), tail);
    WordHere(b, at, v, w);
  }

  // ------------------------------------------------------------ texts

  lemma TextIsHere(b: seq<byte>, at: nat, s: Text)
    requires Holds(b, at, PackedString(s, at)) && |s| < TWO16
    ensures TextHere(b, at, s) && at + |PackedString(s, at)| == AfterText(at, s)
  {
    var end := at + 2 + |s|;
    var len, pad := BE(|s|, 2), Zeros(PadUp(end) - end);
    assert PadUp(end) == NextEight(end);
    assert PackedString(s, at) == len + (s + pad);
    PowValues();
    WordThen(b, at, |s|, 2, s + pad);
    HoldsParts(b, at + 2, s, pad);
    assert forall i :: end <= i < NextEight(end) ==> b[i] == b[end..NextEight(end)][i - end];
  }

  lemma TextThenMore(b: seq<byte>, at: nat, s: Text, tail: seq<byte>)
    requires Holds(b, at, PackedString(s, at) + tail) && |s| < TWO16
    ensures TextHere(b, at, s) && at + |PackedString(s, at)| == AfterText(at, s)
    ensures Holds(b, AfterText(at, s), tail)
  {
    HoldsParts(b, at, PackedString(s, at), tail);
    TextIsHere(b, at, s);
  }

  lemma {:induction false} ServersAreHere(b: seq<byte>, at: nat, servers: seq<Server>)
    requires Holds(b, at, PackedServers(servers, at)) && ServersEnd(servers, at) < TWO16
    ensures ServersHere(b, at, servers, at + |PackedServers(servers, at)|)
    decreases |servers|
  {
    hide TextHere, Num2, PackedString, Holds, BE, Cut16, PackedServers, ServersEnd, Pow256;
    if servers == [] {
      NoServers(at);
    } else {
      var s, next := servers[0], AfterText(at + 2, servers[0].address);
      FirstServer(servers, at);
      var port, text, more := BE(s.port, 2), PackedString(s.address, at + 2), PackedServers(servers[1..], next);
      PowValues();
      WordThen(b, at, s.port, 2, text + more);
      TextThenMore(b, at + 2, s.address, more);
      ServersAreHere(b, next, servers[1..]);
      InBuffer(b, at, port + (text + more));
    }
  }

  lemma InBuffer(b: seq<byte>, at: nat, piece: seq<byte>)
    requires Holds(b, at, piece)
    ensures at + |piece| <= |b|
  {
  }

  lemma NoServers(at: nat)
    ensures PackedServers([], at) == []
  {
  }

  lemma FirstServer(servers: seq<Server>, at: nat)
    requires servers != [] && ServersEnd(servers, at) < TWO16
    ensures var s, next := servers[0], AfterText(at + 2, servers[0].address);
            && |s.address| < TWO16 && next == at + 2 + |PackedString(s.address, at + 2)|
            && ServersEnd(servers[1..], next) < TWO16
            && PackedServers(servers, at)
            == BE(s.port, 2) + (PackedString(s.address, at + 2) + PackedServers(servers[1..], next))
  {
    hide BE, PackedString;
    var s := servers[0];
    assert Cut16(s.address) == s.address;
    assert PadUp(at + 4 + |s.address|) == AfterText(at + 2, s.address);
    var port, text, more := BE(s.port, 2), PackedString(s.address, at + 2), PackedServers(servers[1..], AfterText(at + 2, s.address));
    assert (port + text) + more == port + (text + more);
  }

  // ------------------------------------------------------------ contents

  lemma PositionIsHere(b: seq<byte>, p: Position)
    requires Holds(b, 12, PackedPosition(p, 12)) && |p.callsign| < TWO16
    ensures PositionHere(b, p, 12 + |PackedPosition(p, 12)|)
  {
    hide PackedString, PositionHead, PositionTail, TextHere, Num2, Num4, Num8;
    var text, tail := PackedString(p.callsign, 44), PositionTail(p);
    HoldsParts(b, 12, PositionHead(p), text + tail);
    HeadIsHere(b, p);
    TextThenMore(b, 44, p.callsign, tail);
    TailIsHere(b, AfterText(44, p.callsign), p);
  }

  lemma HeadIsHere(b: seq<byte>, p: Position)
    requires Holds(b, 12, PositionHead(p))
    ensures 44 <= |b| && Num8(b, 12) == p.timestamp
    ensures Num4(b, 20) == Unsigned32(p.lat) && Num4(b, 24) == Unsigned32(p.lng)
    ensures Num4(b, 28) == p.altitude && Num4(b, 32) == p.icao
    ensures Num2(b, 36) == p.heading && Num2(b, 38) == p.horVel && Num2(b, 40) == Unsigned16(p.verVel) && Num2(b, 42) == p.squawk
  {
    hide Num2, Num4, Num8, BE, Pow256;
    var p9 := BE(p.squawk, 2);
    var p8 := BE(Bits16(p.verVel), 2) + p9;
    var p7 := BE(p.horVel, 2) + p8;
    var p6 := BE(p.heading, 2) + p7;
    var p5 := BE(p.icao, 4) + p6;
    var p4 := BE(p.altitude, 4) + p5;
    var p3 := BE(Bits32(p.lng), 4) + p4;
    var p2 := BE(Bits32(p.lat), 4) + p3;
    PowValues();
    WordThen(b, 12, p.timestamp, 8, p2);
    WordThen(b, 20, Bits32(p.lat), 4, p3);
    WordThen(b, 24, Bits32(p.lng), 4, p4);
    WordThen(b, 28, p.altitude, 4, p5);
    WordThen(b, 32, p.icao, 4, p6);
    WordThen(b, 36, p.heading, 2, p7);
    WordThen(b, 38, p.horVel, 2, p8);
    WordThen(b, 40, Bits16(p.verVel), 2, p9);
    WordHere(b, 42, p.squawk, 2);
  }

  lemma TailIsHere(b: seq<byte>, at: nat, p: Position)
    requires Holds(b, at, PositionTail(p))
    ensures at + 4 <= |b| && Num2(b, at) == p.flags && b[at + 2] == p.altType && b[at + 3] == p.emitter
    ensures |PositionTail(p)| == 4
  {
    PowValues();
    WordThen(b, at, p.flags, 2, [p.altType] + [p.emitter]);
    HoldsParts(b, at + 2, [p.altType], [p.emitter]);
    assert b[at + 2..at + 3][0] == p.altType && b[at + 3..at + 4][0] == p.emitter;
  }

  lemma StatusIsHere(b: seq<byte>, battery: byte, mah: Word32, voltage: Word32)
    requires Holds(b, 12, Payload(BStatus(battery, mah, voltage), 12))
    ensures BodyHere(b, BStatus(battery, mah, voltage), 21)
  {
    PowValues();
    HoldsParts(b, 12, [battery], BE(mah, 4) + BE(voltage, 4));
    assert b[12..13][0] == battery;
    WordThen(b, 13, mah, 4, BE(voltage, 4));
    WordHere(b, 17, voltage, 4);
  }

  lemma SearchIsHere(b: seq<byte>, id: Word64, completed: Word64, total: Word64)
    requires Holds(b, 12, Payload(BSearch(id, completed, total), 12))
    ensures BodyHere(b, BSearch(id, completed, total), 36)
  {
    PowValues();
    WordThen(b, 12, id, 8, BE(completed, 8) + BE(total, 8));
    WordThen(b, 20, completed, 8, BE(total, 8));
    WordHere(b, 28, total, 8);
  }

  lemma CommandIsHere(b: seq<byte>, ts: Word64, lat: Int32, lng: Int32, alt: Word32, cmd: byte)
    requires Holds(b, 12, PackedCommand(ts, lat, lng, alt, cmd))
    ensures BodyHere(b, BCommand(ts, lat, lng, alt, cmd), 33) && |PackedCommand(ts, lat, lng, alt, cmd)| == 21
  {
    hide Num4, Num8, BE;
    PowValues();
    WordThen(b, 12, ts, 8, BE(Bits32(lat), 4) + (BE(Bits32(lng), 4) + (BE(alt, 4) + [cmd])));
    WordThen(b, 20, Bits32(lat), 4, BE(Bits32(lng), 4) + (BE(alt, 4) + [cmd]));
    WordThen(b, 24, Bits32(lng), 4, BE(alt, 4) + [cmd]);
    WordThen(b, 28, alt, 4, [cmd]);
    assert b[32..33][0] == cmd;
  }

  lemma SmmIsHere(b: seq<byte>, url: Text, username: Text, password: Text)
    requires Holds(b, 12, PackedSmm(url, username, password, 12))
    requires |url| < TWO16 && |username| < TWO16 && |password| < TWO16
    ensures BodyHere(b, BSmm(url, username, password), 12 + |PackedSmm(url, username, password, 12)|)
  {
    hide PackedString, TextHere;
    var o1 := 12 + |PackedString(url, 12)|;
    var o2 := o1 + |PackedString(username, o1)|;
    var p := PackedString(password, o2);
    TextThenMore(b, 12, url, PackedString(username, o1) + p);
    TextThenMore(b, o1, username, p);
    TextIsHere(b, o2, password);
  }

  lemma BodyIsHere(b: seq<byte>, m: Message)
    requires 12 <= |b| && Holds(b, 12, Payload(m.body, 12)) && Fits(m.body)
    ensures BodyHere(b, m.body, 12 + |Payload(m.body, 12)|)
  {
    hide PackedPosition, PackedCommand, PackedSmm, PackedServers, PositionHere, ServersHere, TextHere, Num4, Num8;
    PowValues();
    match m.body
    case BIdentity(name) => assert Cut16(name) == name;
    case BRttResponse(id) => WordHere(b, 12, id, 8);
    case BPosition(p) =>
      PositionFits(p);
      PositionIsHere(b, p);
    case BStatus(battery, mah, voltage) => StatusIsHere(b, battery, mah, voltage);
    case BSearch(id, completed, total) => SearchIsHere(b, id, completed, total);
    case BCommand(ts, lat, lng, alt, cmd) => CommandIsHere(b, ts, lat, lng, alt, cmd);
    case BServerList(servers) => ServersAreHere(b, 12, servers);
    case BSmm(url, username, password) => SmmIsHere(b, url, username, password);
    case BNonAircraft(caps) => WordHere(b, 12, caps, 8);
    case _ =>
  }

  lemma PositionFits(p: Position)
    requires Fits(BPosition(p))
    ensures |p.callsign| < TWO16
  {
  }

  // ------------------------------------------------------------ frames

  /** The frame of every message that fits is laid out so. */
  lemma FrameIsLaidOut(m: Message)
    requires m.typ == TypeOf(m.body) && Fits(m.body)
    ensures LaidOut(Frame(m), m) && Num2(Frame(m), 0) == WireSize(m.body)
  {
    hide Payload, BodyHere, Num2, Num8, FromBE, BE, Frame, Unsized, CutBody, WireSize;
    SizeOfUncut(m);
    FrameShape(m);
    var b, size := Frame(m), |Unsized(m)|;
    UnsizedSize(m);
    TwoBytes(b, 0, size);
    HeaderIsHere(b, m, RoundUp(size) - size);
    BodyThenZeros(b, Payload(m.body, 12), RoundUp(size) - size);
    BodyIsHere(b, m);
  }

  lemma UnsizedSize(m: Message)
    ensures |Unsized(m)| == 12 + |Payload(m.body, 12)|
  {
    hide Payload;
  }

  lemma HeaderIsHere(b: seq<byte>, m: Message, padding: nat)
    requires m.typ == TypeOf(m.body) && Carries(b, m, padding)
    ensures 12 <= |b| && Num2(b, 2) == KindNumber(m.body) && Num8(b, 4) == m.id
  {
    hide Payload, Num2, Num8, BE;
    PowValues();
    WordHere(b, 2, Code(m.typ), 2);
    WordHere(b, 4, m.id, 8);
  }

  lemma BodyThenZeros(b: seq<byte>, payload: seq<byte>, k: nat)
    requires 12 <= |b| && b[12..] == payload + Zeros(k)
    ensures Holds(b, 12, payload) && ZeroBetween(b, 12 + |payload|, |b|)
  {
    assert b[12..12 + |payload|] == b[12..][..|payload|];
    assert forall i :: 12 + |payload| <= i < |b| ==> b[i] == b[12..][i - 12] == Zeros(k)[i - 12 - |payload|];
  }

  // ------------------------------------------------------------ what is read from any bytes

  /** A guarded word: read high byte first if it is there, left at its default if not, outside if already past the end. */
  lemma FieldExactly(b: seq<byte>, off: nat, default: nat)
    requires |b| < TWO32 && off < TWO32
    ensures Field(b, off, 2, default) ==
            if off > |b| then Fault else if off + 2 <= |b| then Ok((Num2(b, off), off + 2)) else Ok((default, off))
    ensures Field(b, off, 4, default) ==
            if off > |b| then Fault else if off + 4 <= |b| then Ok((Num4(b, off), off + 4)) else Ok((default, off))
    ensures Field(b, off, 8, default) ==
            if off > |b| then Fault else if off + 8 <= |b| then Ok((Num8(b, off), off + 8)) else Ok((default, off))
  {
    hide FromBE, Num2, Num4, Num8;
    if off + 2 <= |b| {
      TwoBytes(b, off, FromBE(b[off..off + 2]));
    }
    if off + 4 <= |b| {
      FourBytes(b, off, FromBE(b[off..off + 4]));
    }
    if off + 8 <= |b| {
      EightBytes(b, off, FromBE(b[off..off + 8]));
    }
  }

  /** A guarded text: the length, then that many bytes, then on to the next multiple of 8; outside if they are not there. */
  lemma TextFieldExactly(b: seq<byte>, off: nat)
    requires |b| < TWO32 && off < TWO32
    ensures TextField(b, off) ==
            if off > |b| then Fault
            else if off + 2 > |b| then Ok(([], off))
            else
              var end := off + 2 + Num2(b, off);
              if end <= |b| then Ok((b[off + 2..end], NextEight(end))) else Fault
  {
    hide FromBE, Num2;
    if off + 2 <= |b| {
      TwoBytes(b, off, FromBE(b[off..off + 2]));
    }
  }

  /** What a receive does with a stream, by the number in its first two bytes. */
  lemma ReceiveExactly(stream: seq<byte>)
    ensures var n := NextMessage(stream);
            if |stream| < 2 then n.Waiting?
            else
              var size := Num2(stream, 0);
              var padded := 8 * ((size + 7) / 8);
              if size == 0 then n.Broken?
              else if |stream| < padded then n.Waiting?
              else match Decode(stream[..size])
                   case Fault => n.Broken?
                   case Ok(msg) => n == Got(msg, stream[padded..])
  {
    hide FromBE, Num2, Decode;
    if |stream| >= 2 {
      assert stream[0..2] == stream[..2];
      TwoBytes(stream, 0, FromBE(stream[..2]));
    }
  }

  /** What kind a decoder takes bytes for, by the number in bytes 2 and 3, and the id it gives them. */
  lemma DecodeExactly(b: seq<byte>)
    ensures |b| < 12 ==> Decode(b) == Fault
    ensures |b| >= 12 && Decode(b).Ok? ==>
              match Decode(b).value
              case None => Num2(b, 2) <= 1 || Num2(b, 2) > 12
              case Some(m) => 2 <= Num2(b, 2) <= 12 && m.id == Num8(b, 4) && KindNumber(m.body) == Num2(b, 2)
                              && m.typ == if Num2(b, 2) == 12 then Identity else TypeOf(m.body)
  {
    hide FromBE, Num2, Num8, UnpackBody, Pow256;
    if |b| >= 12 {
      TwoBytes(b, 2, FromBE(b[2..4]));
      EightBytes(b, 4, FromBE(b[4..12]));
      PowValues();
      KindFromCode(b, FromBE(b[2..4]));
    }
  }

  lemma KindFromCode(b: seq<byte>, code: Word16)
    ensures var t := TypeFromCode(code);
            && (t == Unknown || t == Closed <==> code <= 1 || code > 12)
            && (UnpackBody(t, b).Ok? ==>
                  match UnpackBody(t, b).value
                  case None => code <= 1 || code > 12
                  case Some(body) => 2 <= code <= 12 && KindNumber(body) == code
                                     && DecodedType(t) == if code == 12 then Identity else TypeOf(body))
  {
    BodyKinds(b);
    hide UnpackPosition, UnpackServerList, UnpackSmm, UnpackStatus, UnpackSearch, UnpackCommand, UnpackIdentity,
      UnpackRttResponse, UnpackNonAircraft;
  }

  lemma BodyKinds(b: seq<byte>)
    ensures UnpackPosition(b).Ok? ==> UnpackPosition(b).value.BPosition?
    ensures UnpackSmm(b).Ok? ==> UnpackSmm(b).value.BSmm?
    ensures UnpackStatus(b).Ok? ==> UnpackStatus(b).value.BStatus?
    ensures UnpackSearch(b).Ok? ==> UnpackSearch(b).value.BSearch?
    ensures UnpackCommand(b).Ok? ==> UnpackCommand(b).value.BCommand?
    ensures UnpackIdentity(b).Ok? ==> UnpackIdentity(b).value.BIdentity?
    ensures UnpackRttResponse(b).Ok? ==> UnpackRttResponse(b).value.BRttResponse?
    ensures UnpackServerList(b).Ok? ==> UnpackServerList(b).value.BServerList?
    ensures UnpackNonAircraft(b).Ok? ==> UnpackNonAircraft(b).value.BNonAircraft?
  {
    hide Field, TextField, ReadBE, UnpackServers;
  }

  /** Contents too short for the one guard over all of them are read as zeros. */
  lemma ShortContents(b: seq<byte>)
    requires 12 <= |b| < TWO32
    ensures |b| < 36 ==> UnpackSearch(b) == Ok(BSearch(0, 0, 0))
    ensures |b| < 33 ==> UnpackCommand(b) == Ok(BCommand(0, 0, 0, 0, 0))
    ensures |b| < 20 ==> UnpackRttResponse(b) == Ok(BRttResponse(0)) && UnpackNonAircraft(b) == Ok(BNonAircraft(0))
    ensures |b| < 16 ==> UnpackStatus(b) == Ok(BStatus(0, 0, 0))
    ensures |b| == 16 ==> UnpackStatus(b) == Ok(BStatus(0, 0, Num4(b, 12)))
    ensures 17 <= |b| < 21 ==> UnpackStatus(b) == Ok(BStatus(b[12], Num4(b, 13), 0))
  {
    hide FromBE, Num4;
    if |b| == 16 {
      FourBytes(b, 12, FromBE(b[12..16]));
    }
    if |b| >= 17 {
      FourBytes(b, 13, FromBE(b[13..17]));
      OneByte(b, 12);
    }
  }

  lemma OneByte(b: seq<byte>, at: nat)
    requires at < |b|
    ensures FromBE(b[at..at + 1]) == b[at]
  {
    assert b[at..at + 1] == [b[at]] && [b[at]][..0] == [];
  }

  /** A C string is the part before the first NUL. */
  lemma CStringIsPrefix(s: Text)
    ensures CString(s) <= s && 0 !in CString(s)
    ensures |CString(s)| < |s| ==> s[|CString(s)|] == 0
  {
  }

  /** What a receiver gets of a message that fits: itself, but for three kinds. */
  lemma ReceivedAs(m: Message)
    requires m.typ == TypeOf(m.body) && Fits(m.body)
    ensures var n := NextMessage(Frame(m));
            && n.Got? && n.rest == []
            && match m.body
               case BClosed => n.msg == None
               case BIdentity(name) => n.msg == Some(Message(m.id, Identity, BIdentity(CString(name))))
               case BPosition(p) => n.msg == Some(Message(m.id, PositionReport, BPosition(p.(tslc := 0))))
               case BIdentityRequired => n.msg == Some(Message(m.id, Identity, BIdentityRequired))
               case _ => n.msg == Some(m)
  {
    hide Frame, Unsized, NextMessage, WireSize, CutBody, Carried;
    SizeOfUncut(m);
    FrameReceived(m, []);
    assert Frame(m) + [] == Frame(m);
    UncutBody(m.body);
  }

  lemma UncutBody(b: Body)
    requires CutBody(b) == b
    ensures match b
            case BIdentity(name) => Carried(CutBody(b)) == BIdentity(CString(name))
            case BPosition(p) => Carried(CutBody(b)) == BPosition(p.(tslc := 0))
            case _ => Carried(CutBody(b)) == b
  {
  }
}

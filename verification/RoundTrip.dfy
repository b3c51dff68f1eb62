/** Decoding what was encoded: exactly when a message survives the wire, and as what. */
module RoundTrip {
  import opened Words
  import opened Messages
  import opened Wire

  // ------------------------------------------------------------ pieces of a buffer

  ghost predicate Holds(b: seq<byte>, at: nat, piece: seq<byte>) {
    at + |piece| <= |b| && b[at..at + |piece|] == piece
  }

  lemma HoldsParts(b: seq<byte>, at: nat, p: seq<byte>, q: seq<byte>)
    requires Holds(b, at, p + q)
    ensures Holds(b, at, p) && Holds(b, at + |p|, q)
  {
    var s := b[at..at + |p + q|];
    assert b[at..at + |p|] == s[..|p|] == p;
    assert b[at + |p|..at + |p| + |q|] == s[|p|..] == q;
  }

  lemma SmallMod(v: nat, d: nat)
    requires v < d
    ensures v % d == v
  {
  }

  lemma FieldRoundTrip(b: seq<byte>, at: nat, v: nat, w: nat, default: nat)
    requires |b| < TWO64 && w <= 8
    requires Holds(b, at, BE(v, w)) && v < Pow256(w)
    ensures ReadBE(b, at, w) == Ok(v)
    ensures Field(b, at, w, default) == Ok((v, at + w))
  {
    WordRoundTrip(v, w);
    SmallMod(v, Pow256(w));
  }

  lemma ByteRoundTrip(b: seq<byte>, at: nat, v: byte, default: nat)
    requires |b| < TWO64
    requires Holds(b, at, [v])
    ensures ReadBE(b, at, 1) == Ok(v)
    ensures Field(b, at, 1, default) == Ok((v, at + 1))
  {
    assert BE(v, 1) == [v];
    PowValues();
    FieldRoundTrip(b, at, v, 1, default);
  }

  /** A word followed by anything: the word is read and what follows is still there. */
  lemma FieldThen(b: seq<byte>, at: nat, v: nat, w: nat, tail: seq<byte>)
    requires |b| < TWO64 && w <= 8
    requires Holds(b, at, BE(v, w) + tail) && v < Pow256(w)
    ensures ReadBE(b, at, w) == Ok(v)
    ensures Field(b, at, w, 0) == Ok((v, at + w))
    ensures Holds(b, at + w, tail)
  {
    HoldsParts(b, at, BE(v, w), tail);
    FieldRoundTrip(b, at, v, w, 0);
  }

  lemma ByteThen(b: seq<byte>, at: nat, v: byte, tail: seq<byte>)
    requires |b| < TWO64
    requires Holds(b, at, [v] + tail)
    ensures ReadBE(b, at, 1) == Ok(v)
    ensures Field(b, at, 1, 0) == Ok((v, at + 1))
    ensures Holds(b, at + 1, tail)
  {
    HoldsParts(b, at, [v], tail);
    ByteRoundTrip(b, at, v, 0);
  }

  /** A text packed at any offset is read back there, and both sides continue at the same multiple of 8. */
  lemma TextRoundTrip(b: seq<byte>, at: nat, s: Text)
    requires |b| < TWO64
    requires Holds(b, at, PackedString(s, at))
    ensures TextAt(b, at) == TextField(b, at) == Ok((Cut16(s), at + |PackedString(s, at)|))
    ensures (at + |PackedString(s, at)|) % 8 == 0
  {
    var text := Cut16(s);
    var len, pad := BE(Low16(|s|), 2), Zeros(PadUp(at + 2 + |text|) - (at + 2 + |text|));
    HoldsParts(b, at, len + text, pad);
    HoldsParts(b, at, len, text);
    PowValues();
    FieldRoundTrip(b, at, |text|, 2, 0);
  }

  lemma TextThen(b: seq<byte>, at: nat, s: Text, tail: seq<byte>)
    requires |b| < TWO64
    requires Holds(b, at, PackedString(s, at) + tail)
    ensures TextField(b, at) == Ok((Cut16(s), at + |PackedString(s, at)|))
    ensures Holds(b, at + |PackedString(s, at)|, tail)
  {
    HoldsParts(b, at, PackedString(s, at), tail);
    TextRoundTrip(b, at, s);
  }

  // ------------------------------------------------------------ one lemma for each kind

  lemma PositionHeadRoundTrip(b: seq<byte>, p: Position)
    requires |b| < TWO64
    requires Holds(b, HEADER, PositionHead(p))
    ensures Field(b, 12, 8, 0) == Ok((p.timestamp, 20))
    ensures Field(b, 20, 4, 0) == Ok((Bits32(p.lat), 24))
    ensures Field(b, 24, 4, 0) == Ok((Bits32(p.lng), 28))
    ensures Field(b, 28, 4, 0) == Ok((p.altitude, 32))
    ensures Field(b, 32, 4, 0) == Ok((p.icao, 36))
    ensures Field(b, 36, 2, 0) == Ok((p.heading, 38))
    ensures Field(b, 38, 2, 0) == Ok((p.horVel, 40))
    ensures Field(b, 40, 2, 0) == Ok((Bits16(p.verVel), 42))
    ensures Field(b, 42, 2, 0) == Ok((p.squawk, 44))
  {
    var p9 := BE(p.squawk, 2);
    var p8 := BE(Bits16(p.verVel), 2) + p9;
    var p7 := BE(p.horVel, 2) + p8;
    var p6 := BE(p.heading, 2) + p7;
    var p5 := BE(p.icao, 4) + p6;
    var p4 := BE(p.altitude, 4) + p5;
    var p3 := BE(Bits32(p.lng), 4) + p4;
    var p2 := BE(Bits32(p.lat), 4) + p3;
    PowValues();
    FieldThen(b, 12, p.timestamp, 8, p2);
    FieldThen(b, 20, Bits32(p.lat), 4, p3);
    FieldThen(b, 24, Bits32(p.lng), 4, p4);
    FieldThen(b, 28, p.altitude, 4, p5);
    FieldThen(b, 32, p.icao, 4, p6);
    FieldThen(b, 36, p.heading, 2, p7);
    FieldThen(b, 38, p.horVel, 2, p8);
    FieldThen(b, 40, Bits16(p.verVel), 2, p9);
    FieldRoundTrip(b, 42, p.squawk, 2, 0);
  }

  lemma PositionTailRoundTrip(b: seq<byte>, at: nat, p: Position)
    requires |b| < TWO64
    requires Holds(b, at, PositionTail(p))
    ensures Field(b, at, 2, 0) == Ok((p.flags, at + 2))
    ensures Field(b, at + 2, 1, 0) == Ok((p.altType, at + 3))
    ensures Field(b, at + 3, 1, 0) == Ok((p.emitter, at + 4))
  {
    PowValues();
    FieldThen(b, at, p.flags, 2, [p.altType] + [p.emitter]);
    ByteThen(b, at + 2, p.altType, [p.emitter]);
    ByteRoundTrip(b, at + 3, p.emitter, 0);
  }

  /** Every field comes back but the seconds since last contact, whatever bytes the callsign has. */
  lemma PositionRoundTrip(b: seq<byte>, p: Position)
    requires |b| < TWO64
    requires Holds(b, HEADER, PackedPosition(p, HEADER))
    ensures UnpackPosition(b) == Ok(BPosition(p.(callsign := Cut16(p.callsign), tslc := 0)))
  {
    hide PackedString, PositionHead, PositionTail, Field, TextField, UnpackPosition;
    var text, tail := PackedString(p.callsign, 44), PositionTail(p);
    HoldsParts(b, 12, PositionHead(p), text + tail);
    PositionHeadRoundTrip(b, p);
    TextThen(b, 44, p.callsign, tail);
    PositionTailRoundTrip(b, 44 + |text|, p);
    FromFields(b, p, 44 + |text|);
  }

  lemma FromFields(b: seq<byte>, p: Position, at: nat)
    requires Field(b, 12, 8, 0) == Ok((p.timestamp, 20))
    requires Field(b, 20, 4, 0) == Ok((Bits32(p.lat), 24))
    requires Field(b, 24, 4, 0) == Ok((Bits32(p.lng), 28))
    requires Field(b, 28, 4, 0) == Ok((p.altitude, 32))
    requires Field(b, 32, 4, 0) == Ok((p.icao, 36))
    requires Field(b, 36, 2, 0) == Ok((p.heading, 38))
    requires Field(b, 38, 2, 0) == Ok((p.horVel, 40))
    requires Field(b, 40, 2, 0) == Ok((Bits16(p.verVel), 42))
    requires Field(b, 42, 2, 0) == Ok((p.squawk, 44))
    requires TextField(b, 44) == Ok((Cut16(p.callsign), at))
    requires Field(b, at, 2, 0) == Ok((p.flags, at + 2))
    requires Field(b, at + 2, 1, 0) == Ok((p.altType, at + 3))
    requires Field(b, at + 3, 1, 0) == Ok((p.emitter, at + 4))
    ensures UnpackPosition(b) == Ok(BPosition(p.(callsign := Cut16(p.callsign), tslc := 0)))
  {
    hide Field, TextField, Cut16;
  }

  lemma StatusRoundTrip(b: seq<byte>, battery: byte, mah: Word32, voltage: Word32)
    requires |b| < TWO64
    requires Holds(b, HEADER, Payload(BStatus(battery, mah, voltage), HEADER))
    ensures UnpackStatus(b) == Ok(BStatus(battery, mah, voltage))
  {
    PowValues();
    ByteThen(b, 12, battery, BE(mah, 4) + BE(voltage, 4));
    FieldThen(b, 13, mah, 4, BE(voltage, 4));
    FieldRoundTrip(b, 17, voltage, 4, 0);
  }

  lemma SearchRoundTrip(b: seq<byte>, id: Word64, completed: Word64, total: Word64)
    requires |b| < TWO64
    requires Holds(b, HEADER, Payload(BSearch(id, completed, total), HEADER))
    ensures UnpackSearch(b) == Ok(BSearch(id, completed, total))
  {
    PowValues();
    FieldThen(b, 12, id, 8, BE(completed, 8) + BE(total, 8));
    FieldThen(b, 20, completed, 8, BE(total, 8));
    FieldRoundTrip(b, 28, total, 8, 0);
  }

  lemma CommandRoundTrip(b: seq<byte>, ts: Word64, lat: Int32, lng: Int32, alt: Word32, cmd: byte)
    requires |b| < TWO64
    requires Holds(b, HEADER, PackedCommand(ts, lat, lng, alt, cmd))
    ensures UnpackCommand(b) == Ok(BCommand(ts, lat, lng, alt, cmd))
  {
    PowValues();
    FieldThen(b, 12, ts, 8, BE(Bits32(lat), 4) + (BE(Bits32(lng), 4) + (BE(alt, 4) + [cmd])));
    FieldThen(b, 20, Bits32(lat), 4, BE(Bits32(lng), 4) + (BE(alt, 4) + [cmd]));
    FieldThen(b, 24, Bits32(lng), 4, BE(alt, 4) + [cmd]);
    FieldThen(b, 28, alt, 4, [cmd]);
    ByteRoundTrip(b, 32, cmd, 0);
  }

  lemma EntryRoundTrip(b: seq<byte>, at: nat, s: Server, tail: seq<byte>)
    requires |b| < TWO64
    requires Holds(b, at, PackedServer(s, at) + tail)
    ensures var next := at + |PackedServer(s, at)|;
            && ServerAt(b, at) == Ok((Server(Cut16(s.address), s.port), next))
            && at + 4 <= next <= |b| && Holds(b, next, tail)
  {
    HoldsParts(b, at, PackedServer(s, at), tail);
    PowValues();
    FieldThen(b, at, s.port, 2, PackedString(s.address, at + 2));
    TextRoundTrip(b, at + 2, s.address);
  }

  /** A list of any length is read back in order, and the loop ends with the offset at the end of the buffer. */
  lemma {:induction false} ServersRoundTrip(b: seq<byte>, at: nat, servers: seq<Server>)
    requires |b| < TWO64
    requires at + |PackedServers(servers, at)| == |b| && Holds(b, at, PackedServers(servers, at))
    ensures UnpackServers(b, at) == Ok(CutServers(servers))
    ensures StopsAt(b, at) == Ok(|b|)
    decreases |servers|
  {
    hide Holds, PackedServer, ServerAt, Cut16;
    if servers != [] {
      var next := at + |PackedServer(servers[0], at)|;
      EntryRoundTrip(b, at, servers[0], PackedServers(servers[1..], next));
      ServersRoundTrip(b, next, servers[1..]);
    }
  }

  /** Three texts of any bytes and any length come back, each cut only by its 16-bit length. */
  lemma SmmRoundTrip(b: seq<byte>, url: Text, username: Text, password: Text)
    requires |b| < TWO64
    requires Holds(b, HEADER, PackedSmm(url, username, password, HEADER))
    ensures UnpackSmm(b) == Ok(BSmm(Cut16(url), Cut16(username), Cut16(password)))
  {
    var o1 := HEADER + |PackedString(url, HEADER)|;
    var o2 := o1 + |PackedString(username, o1)|;
    var p := PackedString(password, o2);
    TextThen(b, HEADER, url, PackedString(username, o1) + p);
    TextThen(b, o1, username, p);
    TextRoundTrip(b, o2, password);
  }

  lemma CStringStops(name: Text, k: nat)
    ensures CString(name + Zeros(k)) == CString(name)
    ensures CString(name) == name <==> 0 !in name
  {
    if name == [] {
      assert name + Zeros(k) == Zeros(k);
    } else {
      assert (name + Zeros(k))[1..] == name[1..] + Zeros(k);
      CStringStops(name[1..], k);
      assert name == [name[0]] + name[1..];
    }
  }

  // ------------------------------------------------------------ whole frames

  /** A buffer with the message at its front, and nothing but padding after it. */
  ghost predicate Carries(b: seq<byte>, m: Message, padding: nat) {
    && |b| < TWO64
    && Holds(b, 2, BE(Code(m.typ), 2)) && Holds(b, 4, BE(m.id, 8))
    && HEADER <= |b|
    && b[HEADER..] == Payload(m.body, HEADER) + Zeros(padding)
  }

  /** The body, from a buffer with padding left on; only a server list needs the padding gone. */
  lemma BodyRoundTrip(b: seq<byte>, m: Message, padding: nat)
    requires m.typ == TypeOf(m.body) && m.typ != Closed
    requires Carries(b, m, padding)
    requires m.body.BServerList? ==> padding == 0
    ensures UnpackBody(m.typ, b) == Ok(Some(Carried(CutBody(m.body))))
  {
    hide UnpackPosition, UnpackCommand, UnpackSearch, UnpackStatus, UnpackSmm, PackedPosition, PackedSmm, PackedServers;
    assert Holds(b, HEADER, Payload(m.body, HEADER)) by {
      HoldsParts(b, HEADER, Payload(m.body, HEADER), Zeros(padding));
    }
    match m.body
    case BIdentity(name) => CStringStops(Cut16(name), padding);
    case BPosition(p) => PositionRoundTrip(b, p);
    case BServerList(servers) => ServersRoundTrip(b, HEADER, servers);
    case BSmm(url, username, password) => SmmRoundTrip(b, url, username, password);
    case BRttRequest =>
    case BIdentityRequired =>
    case _ => FixedBodyRoundTrip(b, m);
  }

  lemma FixedBodyRoundTrip(b: seq<byte>, m: Message)
    requires m.typ == TypeOf(m.body) && |b| < TWO64
    requires m.body.BRttResponse? || m.body.BStatus? || m.body.BSearch? || m.body.BCommand? || m.body.BNonAircraft?
    requires Holds(b, HEADER, Payload(m.body, HEADER))
    ensures UnpackBody(m.typ, b) == Ok(Some(m.body))
  {
    PowValues();
    match m.body
    case BRttResponse(id) => FieldRoundTrip(b, HEADER, id, 8, 0);
    case BStatus(battery, mah, voltage) => StatusRoundTrip(b, battery, mah, voltage);
    case BSearch(id, completed, total) => SearchRoundTrip(b, id, completed, total);
    case BCommand(ts, lat, lng, alt, cmd) => CommandRoundTrip(b, ts, lat, lng, alt, cmd);
    case BNonAircraft(caps) => FieldRoundTrip(b, HEADER, caps, 8, 0);
  }

  lemma HeaderRoundTrip(b: seq<byte>, m: Message, padding: nat)
    requires Carries(b, m, padding)
    ensures ReadBE(b, 2, 2) == Ok(Code(m.typ)) && ReadBE(b, 4, 8) == Ok(m.id)
    ensures TypeFromCode(Low16(Code(m.typ))) == m.typ
  {
    PowValues();
    FieldRoundTrip(b, 2, Code(m.typ), 2, 0);
    FieldRoundTrip(b, 4, m.id, 8, 0);
  }

  lemma DecodeCarried(b: seq<byte>, m: Message, padding: nat)
    requires m.typ == TypeOf(m.body)
    requires Carries(b, m, padding)
    requires m.body.BServerList? ==> padding == 0
    ensures Decode(b) == Ok(Normal(m))
  {
    HeaderRoundTrip(b, m, padding);
    if m.typ != Closed {
      BodyRoundTrip(b, m, padding);
    }
  }

  /** The length goes over the first two bytes, and padding up to the next multiple of 8 goes behind. */
  lemma SizedShape(raw: seq<byte>)
    requires 2 < |raw| < TWO16
    ensures var f, len := Sized(raw), |raw|;
            && |f| == RoundUp(len) && FromBE(f[..2]) == len
            && f[2..] == raw[2..] + Zeros(RoundUp(len) - len) && f[..len][2..] == raw[2..]
  {
    var len := |raw|;
    var f, size, pad := Sized(raw), BE(len, 2), Zeros(RoundUp(len) - len);
    assert f == size + raw[2..] + pad;
    assert f[..2] == size;
    PowValues();
    WordRoundTrip(len, 2);
    SmallMod(len, TWO16);
  }

  lemma CarriesParts(b: seq<byte>, m: Message, padding: nat)
    requires HEADER <= |b| < TWO64
    requires b[2..] == Unsized(m)[2..] + Zeros(padding)
    ensures Carries(b, m, padding)
  {
    var code, id, rest := BE(Code(m.typ), 2), BE(m.id, 8), Payload(m.body, HEADER) + Zeros(padding);
    assert Unsized(m)[2..] == code + (id + Payload(m.body, HEADER));
    assert b[2..] == code + (id + rest);
    assert b[2..4] == b[2..][..2] == code;
    assert b[4..12] == b[2..][2..10] == id;
    assert b[12..] == b[2..][10..] == rest;
  }

  /** The frame of a message, whole and cut to its length field. */
  lemma FrameShape(m: Message)
    requires |Unsized(m)| < TWO16
    ensures var len := |Unsized(m)|;
            && |Frame(m)| == RoundUp(len) && FromBE(Frame(m)[..2]) == len
            && Carries(Frame(m)[..len], m, 0) && Carries(Frame(m), m, RoundUp(len) - len)
  {
    var raw, f := Unsized(m), Frame(m);
    SizedShape(raw);
    assert f[..|raw|][2..] == raw[2..] + Zeros(0);
    CarriesParts(f[..|raw|], m, 0);
    CarriesParts(f, m, RoundUp(|raw|) - |raw|);
  }

  /** One receive takes exactly one frame off the stream, and gets the message back. */
  lemma FrameReceived(m: Message, rest: seq<byte>)
    requires m.typ == TypeOf(m.body)
    requires |Unsized(m)| < TWO16
    ensures NextMessage(Frame(m) + rest) == Got(Normal(m), rest)
  {
    FrameShape(m);
    var s, len := Frame(m) + rest, |Unsized(m)|;
    assert s[..2] == Frame(m)[..2];
    assert s[..len] == Frame(m)[..len];
    assert s[RoundUp(len)..] == rest;
    DecodeCarried(Frame(m)[..len], m, 0);
  }

  // ------------------------------------------------------------ when exactly

  lemma {:induction false} ServersSize(servers: seq<Server>, at: nat)
    requires CutServers(servers) == servers
    ensures at + |PackedServers(servers, at)| == ServersEnd(servers, at)
    decreases |servers|
  {
    if servers != [] {
      assert CutServers(servers)[0] == servers[0];
      assert CutServers(servers)[1..] == servers[1..];
      ServersSize(servers[1..], at + |PackedServer(servers[0], at)|);
    }
  }

  lemma {:induction false} SmallServersUncut(servers: seq<Server>, at: nat)
    requires ServersEnd(servers, at) < TWO16
    ensures CutServers(servers) == servers
    decreases |servers|
  {
    if servers != [] {
      SmallServersUncut(servers[1..], PadUp(at + 4 + |servers[0].address|));
      assert |servers[0].address| < TWO16;
      assert Cut16(servers[0].address) == servers[0].address;
      assert servers == [servers[0]] + servers[1..];
    }
  }

  /** With no string cut the packed size is the computed one; and what fits has no string cut. */
  lemma SizeOfUncut(m: Message)
    ensures CutBody(m.body) == m.body ==> |Unsized(m)| == WireSize(m.body)
    ensures Fits(m.body) ==> CutBody(m.body) == m.body
  {
    hide PackedSmm, PackedPosition, PackedServers, PadUp, Cut16;
    match m.body
    case BServerList(servers) =>
      if Fits(m.body) {
        SmallServersUncut(servers, HEADER);
      }
      if CutServers(servers) == servers {
        ServersSize(servers, HEADER);
      }
    case BSmm(url, username, password) => SmmSize(url, username, password);
    case BPosition(p) => PositionSize(p);
    case BIdentity(name) => StringSize(name, 0);
    case _ =>
  }

  lemma SmmSize(url: Text, username: Text, password: Text)
    ensures var body := BSmm(url, username, password);
            && (CutBody(body) == body ==> HEADER + |PackedSmm(url, username, password, HEADER)| == WireSize(body))
            && (Fits(body) ==> CutBody(body) == body)
  {
    hide PadUp, Cut16, PackedString;
    StringSize(url, HEADER);
    var at := PadUp(HEADER + 2 + |url|);
    StringSize(username, at);
    StringSize(password, PadUp(at + 2 + |username|));
  }

  lemma PositionSize(p: Position)
    ensures CutBody(BPosition(p)) == BPosition(p) ==> HEADER + |PackedPosition(p, HEADER)| == WireSize(BPosition(p))
    ensures Fits(BPosition(p)) ==> CutBody(BPosition(p)) == BPosition(p)
  {
    hide PadUp, Cut16, PackedString, PositionHead;
    StringSize(p.callsign, HEADER + 32);
  }

  /** Where a string ends that needs no cut; one whose length fits 16 bits needs none. */
  lemma StringSize(s: Text, at: nat)
    ensures Cut16(s) == s ==> at + |PackedString(s, at)| == PadUp(at + 2 + |s|)
    ensures PadUp(at + 2 + |s|) >= at + 2 + |s|
    ensures |s| < TWO16 ==> Cut16(s) == s
  {
  }

  /** The two ASCII zeros that stand where the length would be, read as a length. */
  lemma PlaceholderLength()
    ensures FromBE([48, 48]) == 12336
  {
    assert [48 as byte, 48][..1] == [48];
    assert FromBE([48]) == 48;
  }

  /** The length field holds the size modulo 2^16, or the placeholder when that is 2 or less. */
  lemma OversizeField(raw: seq<byte>)
    requires |raw| >= TWO16 && raw[..2] == [48, 48]
    ensures |Sized(raw)| >= |raw|
    ensures FromBE(Sized(raw)[..2]) <= 0xFFFF
    ensures |Sized(raw)| > RoundUp(FromBE(Sized(raw)[..2]))
  {
    hide FromBE, BE;
    var len := Low16(|raw|);
    if len > 2 {
      LengthField(len);
      assert Sized(raw)[..2] == BE(len, 2);
    } else {
      PlaceholderLength();
    }
  }

  lemma LengthField(len: Word16)
    ensures FromBE(BE(len, 2)) == len
  {
    PowValues();
    WordRoundTrip(len, 2);
    SmallMod(len, TWO16);
  }

  /** A receive leaves everything behind the rounded length. */
  lemma LeavesTheRest(f: seq<byte>)
    requires |f| >= 2 && NextMessage(f).Got?
    ensures |NextMessage(f).rest| == |f| - RoundUp(FromBE(f[..2]))
  {
    hide Decode;
  }

  /** A message too large for the length field leaves bytes behind whenever a message is taken at all. */
  lemma OversizeLeavesRest(m: Message)
    requires |Unsized(m)| >= TWO16
    ensures var n := NextMessage(Frame(m)); n.Got? ==> n.rest != []
  {
    hide NextMessage, Sized, Payload, BE, FromBE;
    assert Unsized(m)[..2] == [48, 48];
    OversizeField(Unsized(m));
    if NextMessage(Frame(m)).Got? {
      LeavesTheRest(Frame(m));
    }
  }

  /**
   * The round trip, for every message there is: the receiver gets an equal message and the stream is used
   * up exactly when the message fits the length field and its kind and contents are ones the wire carries.
   */
  lemma RoundTripExactly(m: Message)
    requires m.typ == TypeOf(m.body)
    ensures NextMessage(Frame(m)) == Got(Some(m), []) <==> Fits(m.body) && Plain(m.body)
  {
    SizeOfUncut(m);
    if |Unsized(m)| >= TWO16 {
      OversizeLeavesRest(m);
    } else {
      FrameReceived(m, []);
      assert Frame(m) + [] == Frame(m);
      if m.body.BIdentity? {
        CStringStops(m.body.name, 0);
        CStringShortens(Cut16(m.body.name));
      }
    }
  }

  lemma CStringShortens(name: Text)
    ensures |CString(name)| <= |name|
  {
  }

  /** Decoding the padded frame without the cut agrees with decoding the cut one, except for an empty list. */
  lemma CutNeededOnlyForEmptyList(m: Message)
    requires m.typ == TypeOf(m.body) && Fits(m.body)
    ensures Decode(Frame(m)) == Decode(Frame(m)[..|Unsized(m)|]) <==> m.body != BServerList([])
  {
    SizeOfUncut(m);
    var len := |Unsized(m)|;
    assert Decode(Frame(m)[..len]) == Ok(Normal(m)) by {
      FrameShape(m);
      DecodeCarried(Frame(m)[..len], m, 0);
    }
    if m.body == BServerList([]) {
      EmptyListUncut(m);
    } else {
      UncutDecodes(m);
    }
  }

  lemma UncutDecodes(m: Message)
    requires m.typ == TypeOf(m.body) && |Unsized(m)| < TWO16 && m.body != BServerList([])
    ensures Decode(Frame(m)) == Ok(Normal(m))
  {
    FrameShape(m);
    var len := |Unsized(m)|;
    if m.body.BServerList? {
      ServersAligned(m.body.servers, HEADER);
    }
    DecodeCarried(Frame(m), m, RoundUp(len) - len);
  }

  lemma ServersAligned(servers: seq<Server>, at: nat)
    requires servers != []
    ensures (at + |PackedServers(servers, at)|) % 8 == 0
  {
    var first := PackedServer(servers[0], at);
    if |servers| > 1 {
      ServersAligned(servers[1..], at + |first|);
    } else {
      assert servers[1..] == [];
    }
  }

  /** Four bytes of padding pass the guard as an entry, and the offset then runs past the end. */
  lemma EmptyListUncut(m: Message)
    requires m.typ == ServerList && m.body == BServerList([])
    ensures Decode(Frame(m)) == Fault
  {
    FrameShape(m);
    var f := Frame(m);
    HeaderRoundTrip(f, m, 4);
    assert f[12..] == [] + Zeros(4) == Zeros(4);
    PaddingAsEntry(f);
  }

  lemma PaddingAsEntry(f: seq<byte>)
    requires |f| == 16 && f[12..] == Zeros(4)
    ensures UnpackServers(f, 12) == Fault
  {
    assert BE(0, 2) == Zeros(2) by { assert BE(0, 1) == [0]; }
    assert f[12..14] == BE(0, 2) && f[14..16] == BE(0, 2);
    PowValues();
    FieldRoundTrip(f, 12, 0, 2, 0);
    FieldRoundTrip(f, 14, 0, 2, 0);
    assert TextAt(f, 14) == Ok((f[16..16], 24));
    GuardsNeverWrap(f, 24, 2, 0);
  }

  /** A guard reached with the offset past the end lets the read through, and that read is outside. */
  lemma GuardsNeverWrap(b: seq<byte>, off: nat, w: nat, default: nat)
    requires 1 <= w <= 8 && |b| < 0x1_0000_0000 && off < 0x1_0000_0000
    ensures Field(b, off, w, default).Ok? ==> off <= |b|
    ensures TextField(b, off).Ok? ==> off <= |b|
    ensures UnpackServers(b, off).Ok? ==> off <= |b|
  {
    if off > |b| {
      assert SizeSub(|b|, off) == |b| - off + 0x1_0000_0000_0000_0000;
    }
  }
}

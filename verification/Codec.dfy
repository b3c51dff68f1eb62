/** The packers that grow a buffer and the unpackers that walk an offset, each against the wire format. */
module Codec {
  import opened Words
  import opened Messages
  import opened Wire

  class BufLen {
    var data: seq<byte>

    constructor ()
      ensures data == []
    {
      data := [];
    }

    /** The length parameter has 16 bits. */
    method AddData(bytes: seq<byte>)
      modifies this
      ensures data == old(data) + Cut16(bytes)
    {
      data := data + bytes[..Low16(|bytes|)];
    }
  }

  method PackString(bl: BufLen, val: Text)
    modifies bl
    ensures bl.data == old(bl.data) + PackedString(val, |old(bl.data)|)
  {
    bl.AddData(BE(Low16(|val|), 2));
    bl.AddData(val);
    bl.AddData(Zeros(8 - |bl.data| % 8));
    assert |bl.data| == PadUp(|old(bl.data)| + 2 + |Cut16(val)|);
  }

  method CreateHeader(bl: BufLen, m: FssMessage)
    modifies bl
    ensures bl.data == old(bl.data) + Header(m.typ, m.id)
  {
    var data: seq<byte> := seq(HEADER, _ => 48);
    data := data[..2] + BE(Code(m.typ), 2) + data[4..];
    data := data[..4] + BE(m.id, 8);
    assert data == Header(m.typ, m.id);
    bl.AddData(data);
  }

  method UpdateSize(bl: BufLen)
    modifies bl
    ensures bl.data == Sized(old(bl.data))
  {
    var length := Low16(|bl.data|);
    if length > 2 {
      if length % 8 != 0 {
        bl.AddData(Zeros(8 - length % 8));
      }
      bl.data := BE(length, 2) + bl.data[2..];
    }
  }

  lemma {:induction false} PackedServersSnoc(servers: seq<Server>, last: Server, at: nat)
    ensures PackedServers(servers + [last], at)
         == PackedServers(servers, at) + PackedServer(last, at + |PackedServers(servers, at)|)
    decreases |servers|
  {
    hide PackedServer, PackedServers;
    if servers == [] {
      FirstPacked([last], at);
      assert [] + [last] == [last] && [last][1..] == [];
      NonePacked(at);
      NonePacked(at + |PackedServer(last, at)|);
    } else {
      var first, rest := PackedServer(servers[0], at), servers[1..];
      assert (servers + [last])[1..] == rest + [last];
      FirstPacked(servers, at);
      FirstPacked(servers + [last], at);
      PackedServersSnoc(rest, last, at + |first|);
      var done := PackedServers(rest, at + |first|);
      assert first + (done + PackedServer(last, at + |first| + |done|)) == (first + done) + PackedServer(last, at + |first + done|);
    }
  }

  lemma NonePacked(at: nat)
    ensures PackedServers([], at) == []
  {
  }

  lemma FirstPacked(servers: seq<Server>, at: nat)
    requires servers != []
    ensures var first := PackedServer(servers[0], at);
            PackedServers(servers, at) == first + PackedServers(servers[1..], at + |first|)
  {
  }

  method PackServer(bl: BufLen, s: Server)
    modifies bl
    ensures bl.data == old(bl.data) + PackedServer(s, |old(bl.data)|)
  {
    bl.AddData(BE(s.port, 2));
    PackString(bl, s.address);
  }

  method PackServerList(bl: BufLen, servers: seq<Server>)
    modifies bl
    ensures bl.data == old(bl.data) + PackedServers(servers, |old(bl.data)|)
  {
    ghost var start := bl.data;
    for i := 0 to |servers|
      invariant bl.data == start + PackedServers(servers[..i], |start|)
    {
      PackServer(bl, servers[i]);
      NextEntry(start, servers, i);
    }
    assert servers[..|servers|] == servers;
  }

  lemma NextEntry(start: seq<byte>, servers: seq<Server>, i: nat)
    requires i < |servers|
    ensures var before := start + PackedServers(servers[..i], |start|);
            before + PackedServer(servers[i], |before|) == start + PackedServers(servers[..i + 1], |start|)
  {
    hide PackedServers, PackedServer;
    var done := PackedServers(servers[..i], |start|);
    PackedServersSnoc(servers[..i], servers[i], |start|);
    assert servers[..i + 1] == servers[..i] + [servers[i]];
    assert start + done + PackedServer(servers[i], |start + done|) == start + (done + PackedServer(servers[i], |start + done|));
  }

  method PackSmm(bl: BufLen, url: Text, username: Text, password: Text)
    modifies bl
    ensures bl.data == old(bl.data) + PackedSmm(url, username, password, |old(bl.data)|)
  {
    PackString(bl, url);
    PackString(bl, username);
    PackString(bl, password);
  }

  method PackPosition(bl: BufLen, p: Position)
    modifies bl
    ensures bl.data == old(bl.data) + PackedPosition(p, |old(bl.data)|)
  {
    PackPositionHead(bl, p);
    PackString(bl, p.callsign);
    bl.AddData(BE(p.flags, 2));
    bl.AddData([p.altType]);
    bl.AddData([p.emitter]);
  }

  method PackPositionHead(bl: BufLen, p: Position)
    modifies bl
    ensures bl.data == old(bl.data) + PositionHead(p)
  {
    bl.AddData(BE(p.timestamp, 8));
    bl.AddData(BE(Bits32(p.lat), 4));
    bl.AddData(BE(Bits32(p.lng), 4));
    bl.AddData(BE(p.altitude, 4));
    bl.AddData(BE(p.icao, 4));
    bl.AddData(BE(p.heading, 2));
    bl.AddData(BE(p.horVel, 2));
    bl.AddData(BE(Bits16(p.verVel), 2));
    bl.AddData(BE(p.squawk, 2));
  }

  method PackCommand(bl: BufLen, ts: Word64, lat: Int32, lng: Int32, alt: Word32, cmd: byte)
    modifies bl
    ensures bl.data == old(bl.data) + PackedCommand(ts, lat, lng, alt, cmd)
  {
    bl.AddData(BE(ts, 8));
    bl.AddData(BE(Bits32(lat), 4));
    bl.AddData(BE(Bits32(lng), 4));
    bl.AddData(BE(alt, 4));
    bl.AddData([cmd]);
  }

  method PackStatus(bl: BufLen, battery: byte, mah: Word32, voltage: Word32)
    modifies bl
    ensures bl.data == old(bl.data) + Payload(BStatus(battery, mah, voltage), |old(bl.data)|)
  {
    bl.AddData([battery]);
    bl.AddData(BE(mah, 4));
    bl.AddData(BE(voltage, 4));
  }

  method PackSearch(bl: BufLen, id: Word64, completed: Word64, total: Word64)
    modifies bl
    ensures bl.data == old(bl.data) + Payload(BSearch(id, completed, total), |old(bl.data)|)
  {
    bl.AddData(BE(id, 8));
    bl.AddData(BE(completed, 8));
    bl.AddData(BE(total, 8));
  }

  method PackData(bl: BufLen, body: Body)
    modifies bl
    ensures bl.data == old(bl.data) + Payload(body, |old(bl.data)|)
  {
    match body
    case BClosed =>
    case BIdentity(name) => bl.AddData(name);
    case BRttRequest =>
    case BRttResponse(id) => bl.AddData(BE(id, 8));
    case BPosition(p) => PackPosition(bl, p);
    case BStatus(battery, mah, voltage) => PackStatus(bl, battery, mah, voltage);
    case BSearch(id, completed, total) => PackSearch(bl, id, completed, total);
    case BCommand(ts, lat, lng, alt, cmd) => PackCommand(bl, ts, lat, lng, alt, cmd);
    case BServerList(servers) => PackServerList(bl, servers);
    case BSmm(url, username, password) => PackSmm(bl, url, username, password);
    case BNonAircraft(caps) => bl.AddData(BE(caps, 8));
    case BIdentityRequired =>
  }

  method GetPacked(m: FssMessage) returns (bl: BufLen)
    ensures fresh(bl) && bl.data == Frame(m.View())
  {
    assert |Header(m.typ, m.id)| == HEADER && [] + Header(m.typ, m.id) == Header(m.typ, m.id);
    hide Header, Payload, Sized;
    bl := new BufLen();
    CreateHeader(bl, m);
    PackData(bl, m.body);
    UpdateSize(bl);
  }

  // ---------------------------------------------------------------- unpacking

  /** One guarded word: it stays as it is, and the offset too, when too few bytes seem to be left. */
  method TakeField(b: seq<byte>, offset: nat, w: nat, current: nat) returns (ok: bool, value: nat, next: nat)
    ensures Field(b, offset, w, current) == if ok then Ok((value, next)) else Fault
  {
    ok, value, next := true, current, offset;
    if SizeSub(|b|, offset) >= w {
      if offset + w > |b| {
        ok := false;
      } else {
        value, next := FromBE(b[offset..offset + w]), offset + w;
      }
    }
  }

  method TakeText(b: seq<byte>, offset: nat) returns (ok: bool, text: Text, next: nat)
    ensures TextField(b, offset) == if ok then Ok((text, next)) else Fault
  {
    ok, text, next := true, [], offset;
    if SizeSub(|b|, offset) >= 2 {
      if offset + 2 > |b| {
        ok := false;
      } else {
        var len := FromBE(b[offset..offset + 2]);
        next := offset + 2;
        if next + len > |b| {
          ok := false;
        } else {
          text := b[next..next + len];
          next := next + len;
          next := next + (8 - next % 8);
        }
      }
    }
  }

  method UnpackPositionReport(b: seq<byte>) returns (r: Outcome<Body>)
    ensures r == UnpackPosition(b)
  {
    var ok, offset := true, HEADER;
    var timestamp, lat, lng, altitude, icao := 0, 0, 0, 0, 0;
    var heading, horVel, verVel, squawk, flags, altType, emitter := 0, 0, 0, 0, 0, 0, 0;
    var callsign: Text := [];
    ok, timestamp, offset := TakeField(b, offset, 8, timestamp);
    if !ok { return Fault; }
    ok, lat, offset := TakeField(b, offset, 4, lat);
    if !ok { return Fault; }
    ok, lng, offset := TakeField(b, offset, 4, lng);
    if !ok { return Fault; }
    ok, altitude, offset := TakeField(b, offset, 4, altitude);
    if !ok { return Fault; }
    ok, icao, offset := TakeField(b, offset, 4, icao);
    if !ok { return Fault; }
    ok, heading, offset := TakeField(b, offset, 2, heading);
    if !ok { return Fault; }
    ok, horVel, offset := TakeField(b, offset, 2, horVel);
    if !ok { return Fault; }
    ok, verVel, offset := TakeField(b, offset, 2, verVel);
    if !ok { return Fault; }
    ok, squawk, offset := TakeField(b, offset, 2, squawk);
    if !ok { return Fault; }
    ok, callsign, offset := TakeText(b, offset);
    if !ok { return Fault; }
    ok, flags, offset := TakeField(b, offset, 2, flags);
    if !ok { return Fault; }
    ok, altType, offset := TakeField(b, offset, 1, altType);
    if !ok { return Fault; }
    ok, emitter, offset := TakeField(b, offset, 1, emitter);
    if !ok { return Fault; }
    r := Ok(BPosition(Position(Low64(timestamp), Signed32(Low32(lat)), Signed32(Low32(lng)), Low32(altitude),
                               Low32(icao), Low16(heading), Low16(horVel), Signed16(Low16(verVel)),
                               Low16(squawk), callsign, Low16(flags), Low8(altType), Low8(emitter), 0)));
  }

  /** One entry: the port, the length, the address, and the skip to the next multiple of 8. */
  method TakeServer(b: seq<byte>, offset: nat) returns (r: Outcome<(Server, nat)>)
    ensures r == ServerAt(b, offset)
    ensures r.Ok? ==> offset < r.value.1 <= |b| + 8
  {
    if offset + 4 > |b| { return Fault; }
    var port := FromBE(b[offset..offset + 2]);
    var len := FromBE(b[offset + 2..offset + 4]);
    var end := offset + 4 + len;
    if end > |b| { return Fault; }
    r := Ok((Server(b[offset + 4..end], Low16(port)), end + (8 - end % 8)));
  }

  /** The decode loop: entries are appended while the guard lets one more in. */
  method UnpackServerEntries(b: seq<byte>) returns (r: Outcome<seq<Server>>)
    ensures r == UnpackServers(b, HEADER)
  {
    var offset: nat := HEADER;
    var servers: seq<Server> := [];
    NothingPrepended(UnpackServers(b, HEADER));
    while SizeSub(|b|, offset) >= 4
      invariant UnpackServers(b, HEADER) == Prepend(servers, UnpackServers(b, offset))
      invariant offset <= |b| + 8 + HEADER
      decreases |b| + 8 + HEADER - offset
    {
      var entry := TakeServer(b, offset);
      if entry.Fault? { return Fault; }
      var (server, next) := entry.value;
      NextRead(b, offset, servers, server, next);
      servers, offset := servers + [server], next;
    }
    r := Ok(servers);
    assert servers + [] == servers;
  }

  lemma NothingPrepended(rest: Outcome<seq<Server>>)
    ensures Prepend([], rest) == rest
  {
    if rest.Ok? {
      assert [] + rest.value == rest.value;
    }
  }

  /** One entry read moves from what is still to read to what is already collected. */
  lemma NextRead(b: seq<byte>, offset: nat, servers: seq<Server>, s: Server, next: nat)
    requires SizeSub(|b|, offset) >= 4 && ServerAt(b, offset) == Ok((s, next))
    ensures Prepend(servers, UnpackServers(b, offset)) == Prepend(servers + [s], UnpackServers(b, next))
  {
    var rest := UnpackServers(b, next);
    if rest.Ok? {
      assert servers + ([s] + rest.value) == servers + [s] + rest.value;
    }
  }

  ghost function Prepend(servers: seq<Server>, rest: Outcome<seq<Server>>): Outcome<seq<Server>> {
    if rest.Fault? then Fault else Ok(servers + rest.value)
  }

  method UnpackSmmSettings(b: seq<byte>) returns (r: Outcome<Body>)
    ensures r == UnpackSmm(b)
  {
    var ok, url, offset := TakeText(b, HEADER);
    if !ok { return Fault; }
    var username, password;
    ok, username, offset := TakeText(b, offset);
    if !ok { return Fault; }
    ok, password, offset := TakeText(b, offset);
    if !ok { return Fault; }
    r := Ok(BSmm(url, username, password));
  }

  /** The name is copied into a buffer with a NUL behind it, and read as a C string from there. */
  method UnpackName(b: seq<byte>) returns (r: Outcome<Body>)
    ensures r == UnpackIdentity(b)
  {
    if |b| < HEADER { return Fault; }
    var copy := b[HEADER..] + [0];
    var end := 0;
    while copy[end] != 0
      invariant end <= |b| - HEADER
      invariant CString(b[HEADER..]) == copy[..end] + CString(b[HEADER + end..])
      decreases |b| - HEADER - end
    {
      assert b[HEADER + end..][0] == copy[end] && b[HEADER + end..][1..] == b[HEADER + end + 1..];
      assert copy[..end + 1] == copy[..end] + [copy[end]];
      end := end + 1;
    }
    assert end < |b| - HEADER ==> b[HEADER + end..][0] == copy[end];
    assert copy[..end] + [] == copy[..end];
    r := Ok(BIdentity(copy[..end]));
  }

  method UnpackRequestId(b: seq<byte>) returns (r: Outcome<Body>)
    ensures r == UnpackRttResponse(b)
  {
    var ok, id, _ := TakeField(b, HEADER, 8, 0);
    r := if ok then Ok(BRttResponse(Low64(id))) else Fault;
  }

  /** Battery and charge are under one guard, the voltage under its own. */
  method UnpackSystemStatus(b: seq<byte>) returns (r: Outcome<Body>)
    ensures r == UnpackStatus(b)
  {
    var offset: nat := HEADER;
    var battery, mah, voltage := 0, 0, 0;
    if SizeSub(|b|, offset) >= 5 {
      if offset + 5 > |b| { return Fault; }
      battery := FromBE(b[offset..offset + 1]);
      offset := offset + 1;
      mah := FromBE(b[offset..offset + 4]);
      offset := offset + 4;
    }
    var ok;
    ok, voltage, offset := TakeField(b, offset, 4, voltage);
    r := if ok then Ok(BStatus(Low8(battery), Low32(mah), Low32(voltage))) else Fault;
  }

  method UnpackSearchStatus(b: seq<byte>) returns (r: Outcome<Body>)
    ensures r == UnpackSearch(b)
  {
    var offset: nat := HEADER;
    var id, completed, total := 0, 0, 0;
    if SizeSub(|b|, offset) >= 24 {
      if offset + 24 > |b| { return Fault; }
      id := FromBE(b[offset..offset + 8]);
      offset := offset + 8;
      completed := FromBE(b[offset..offset + 8]);
      offset := offset + 8;
      total := FromBE(b[offset..offset + 8]);
    }
    r := Ok(BSearch(Low64(id), Low64(completed), Low64(total)));
  }

  method UnpackAssetCommand(b: seq<byte>) returns (r: Outcome<Body>)
    ensures r == UnpackCommand(b)
  {
    var offset: nat := HEADER;
    var ts, lat, lng, altitude, command := 0, 0, 0, 0, 0;
    if SizeSub(|b|, offset) >= 21 {
      if offset + 21 > |b| { return Fault; }
      ts := FromBE(b[offset..offset + 8]);
      offset := offset + 8;
      lat := FromBE(b[offset..offset + 4]);
      offset := offset + 4;
      lng := FromBE(b[offset..offset + 4]);
      offset := offset + 4;
      altitude := FromBE(b[offset..offset + 4]);
      offset := offset + 4;
      command := FromBE(b[offset..offset + 1]);
    }
    r := Ok(BCommand(Low64(ts), Signed32(Low32(lat)), Signed32(Low32(lng)), Low32(altitude), Low8(command)));
  }

  method UnpackCapabilities(b: seq<byte>) returns (r: Outcome<Body>)
    ensures r == UnpackNonAircraft(b)
  {
    var ok, caps, _ := TakeField(b, HEADER, 8, 0);
    r := if ok then Ok(BNonAircraft(Low64(caps))) else Fault;
  }

  /** The reader of a whole message, by the type code in its header. */
  method DecodeMessage(b: seq<byte>) returns (r: Outcome<Option<Message>>)
    ensures r == Decode(b)
  {
    if |b| < HEADER { return Fault; }
    var t := TypeFromCode(Low16(FromBE(b[2..4])));
    var id := Low64(FromBE(b[4..12]));
    var body: Outcome<Body>;
    match t {
      case Unknown => return Ok(None);
      case Closed => return Ok(None);
      case PositionReport => body := UnpackPositionReport(b);
      case ServerList =>
        var servers := UnpackServerEntries(b);
        body := if servers.Fault? then Fault else Ok(BServerList(servers.value));
      case SmmSettings => body := UnpackSmmSettings(b);
      case Identity => body := UnpackName(b);
      case RttRequest => body := Ok(BRttRequest);
      case RttResponse => body := UnpackRequestId(b);
      case SystemStatus => body := UnpackSystemStatus(b);
      case SearchStatus => body := UnpackSearchStatus(b);
      case Command => body := UnpackAssetCommand(b);
      case IdentityNonAircraft => body := UnpackCapabilities(b);
      case IdentityRequired => body := Ok(BIdentityRequired);
    }
    r := if body.Fault? then Fault else Ok(Some(Message(id, DecodedType(t), body.value)));
  }
}

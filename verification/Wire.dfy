/** The byte format, as functions: what a frame contains and what a decoder reads from bytes. */
module Wire {
  import opened Words
  import opened Messages

  const HEADER: nat := 12

  // ---------------------------------------------------------------- encoding

  /** A string length and a string are both cut to a 16-bit length by the calls that append them. */
  function Cut16(s: Text): Text { s[..Low16(|s|)] }

  function PackedString(s: Text, at: nat): (r: seq<byte>)
    ensures |r| == PadUp(at + 2 + |Cut16(s)|) - at
  {
    var text := Cut16(s);
    BE(Low16(|s|), 2) + text + Zeros(PadUp(at + 2 + |text|) - (at + 2 + |text|))
  }

  function PackedServer(s: Server, at: nat): seq<byte> {
    BE(s.port, 2) + PackedString(s.address, at + 2)
  }

  function PackedServers(servers: seq<Server>, at: nat): seq<byte> {
    if servers == [] then [] else
      var first := PackedServer(servers[0], at);
      first + PackedServers(servers[1..], at + |first|)
  }

  function PackedSmm(url: Text, username: Text, password: Text, at: nat): seq<byte> {
    var u := PackedString(url, at);
    var n := PackedString(username, at + |u|);
    u + (n + PackedString(password, at + |u| + |n|))
  }

  /** The part of a position report before the callsign, then the part after it. */
  function PositionHead(p: Position): (r: seq<byte>)
    ensures |r| == 32
  {
    BE(p.timestamp, 8) + (BE(Bits32(p.lat), 4) + (BE(Bits32(p.lng), 4) + (BE(p.altitude, 4) + (BE(p.icao, 4) +
    (BE(p.heading, 2) + (BE(p.horVel, 2) + (BE(Bits16(p.verVel), 2) + BE(p.squawk, 2))))))))
  }

  function PositionTail(p: Position): seq<byte> {
    BE(p.flags, 2) + ([p.altType] + [p.emitter])
  }

  function PackedPosition(p: Position, at: nat): seq<byte> {
    var head := PositionHead(p);
    head + (PackedString(p.callsign, at + |head|) + PositionTail(p))
  }

  function PackedCommand(ts: Word64, lat: Int32, lng: Int32, alt: Word32, cmd: byte): seq<byte> {
    BE(ts, 8) + (BE(Bits32(lat), 4) + (BE(Bits32(lng), 4) + (BE(alt, 4) + [cmd])))
  }

  /** What packData appends to a buffer that already holds `at` bytes. */
  function Payload(b: Body, at: nat): seq<byte> {
    match b
    case BClosed => []
    case BIdentity(name) => Cut16(name)
    case BRttRequest => []
    case BRttResponse(id) => BE(id, 8)
    case BPosition(p) => PackedPosition(p, at)
    case BStatus(battery, mah, voltage) => [battery] + (BE(mah, 4) + BE(voltage, 4))
    case BSearch(id, completed, total) => BE(id, 8) + (BE(completed, 8) + BE(total, 8))
    case BCommand(ts, lat, lng, alt, cmd) => PackedCommand(ts, lat, lng, alt, cmd)
    case BServerList(servers) => PackedServers(servers, at)
    case BSmm(url, username, password) => PackedSmm(url, username, password, at)
    case BNonAircraft(caps) => BE(caps, 8)
    case BIdentityRequired => []
  }

  /** The header before the length is known: ASCII zeros stand in its place. */
  function Header(t: MsgType, id: Word64): seq<byte> {
    [48, 48] + (BE(Code(t), 2) + BE(id, 8))
  }

  function Unsized(m: Message): seq<byte> {
    Header(m.typ, m.id) + Payload(m.body, HEADER)
  }

  /** The 16-bit length goes in first, counting no padding; the padding follows. */
  function Sized(raw: seq<byte>): seq<byte> {
    var len := Low16(|raw|);
    if len > 2 then BE(len, 2) + raw[2..] + Zeros(RoundUp(len) - len) else raw
  }

  function Frame(m: Message): seq<byte> { Sized(Unsized(m)) }

  // ---------------------------------------------------------------- decoding

  /** Fault: the decoder would read outside the bytes it was given. */
  datatype Outcome<+T> = Ok(value: T) | Fault {
    predicate IsFailure() { Fault? }
    function PropagateFailure<U>(): Outcome<U> requires Fault? { Fault }
    function Extract(): T requires Ok? { value }
  }

  function ReadBE(b: seq<byte>, off: nat, w: nat): Outcome<nat> {
    if off + w <= |b| then Ok(FromBE(b[off..off + w])) else Fault
  }

  /** A guarded read: the field is taken and the offset moves on only if w bytes seem to be left. */
  function Field(b: seq<byte>, off: nat, w: nat, default: nat): Outcome<(nat, nat)> {
    if SizeSub(|b|, off) >= w then
      var v :- ReadBE(b, off, w);
      Ok((v, off + w))
    else Ok((default, off))
  }

  /** The text after a length at `off`; the offset ends at the next multiple of 8. */
  function TextAt(b: seq<byte>, off: nat): Outcome<(Text, nat)> {
    var len :- ReadBE(b, off, 2);
    var end := off + 2 + len;
    if end <= |b| then Ok((b[off + 2..end], PadUp(end))) else Fault
  }

  function TextField(b: seq<byte>, off: nat): Outcome<(Text, nat)> {
    if SizeSub(|b|, off) >= 2 then TextAt(b, off) else Ok(([], off))
  }

  /** A C string ends at its first NUL. */
  function CString(s: Text): Text {
    if s == [] || s[0] == 0 then [] else [s[0]] + CString(s[1..])
  }

  function UnpackIdentity(b: seq<byte>): Outcome<Body> {
    if |b| < HEADER then Fault else Ok(BIdentity(CString(b[HEADER..])))
  }

  function UnpackRttResponse(b: seq<byte>): Outcome<Body> {
    var (id, _) :- Field(b, HEADER, 8, 0);
    Ok(BRttResponse(Low64(id)))
  }

  function UnpackPosition(b: seq<byte>): Outcome<Body> {
    var (timestamp, o) :- Field(b, HEADER, 8, 0);
    var (lat, o) :- Field(b, o, 4, 0);
    var (lng, o) :- Field(b, o, 4, 0);
    var (altitude, o) :- Field(b, o, 4, 0);
    var (icao, o) :- Field(b, o, 4, 0);
    var (heading, o) :- Field(b, o, 2, 0);
    var (horVel, o) :- Field(b, o, 2, 0);
    var (verVel, o) :- Field(b, o, 2, 0);
    var (squawk, o) :- Field(b, o, 2, 0);
    var (callsign, o) :- TextField(b, o);
    var (flags, o) :- Field(b, o, 2, 0);
    var (altType, o) :- Field(b, o, 1, 0);
    var (emitter, o) :- Field(b, o, 1, 0);
    Ok(BPosition(Position(Low64(timestamp), Signed32(Low32(lat)), Signed32(Low32(lng)), Low32(altitude),
                          Low32(icao), Low16(heading), Low16(horVel), Signed16(Low16(verVel)),
                          Low16(squawk), callsign, Low16(flags), Low8(altType), Low8(emitter), 0)))
  }

  function UnpackStatus(b: seq<byte>): Outcome<Body> {
    var (battery, mah, o) :-
      if SizeSub(|b|, HEADER) >= 5 then
        var battery :- ReadBE(b, HEADER, 1);
        var mah :- ReadBE(b, HEADER + 1, 4);
        Ok((battery, mah, HEADER + 5))
      else Ok((0, 0, HEADER));
    var (voltage, _) :- Field(b, o, 4, 0);
    Ok(BStatus(Low8(battery), Low32(mah), Low32(voltage)))
  }

  function UnpackSearch(b: seq<byte>): Outcome<Body> {
    if SizeSub(|b|, HEADER) >= 24 then
      var id :- ReadBE(b, HEADER, 8);
      var completed :- ReadBE(b, HEADER + 8, 8);
      var total :- ReadBE(b, HEADER + 16, 8);
      Ok(BSearch(Low64(id), Low64(completed), Low64(total)))
    else Ok(BSearch(0, 0, 0))
  }

  function UnpackCommand(b: seq<byte>): Outcome<Body> {
    if SizeSub(|b|, HEADER) >= 21 then
      var ts :- ReadBE(b, HEADER, 8);
      var lat :- ReadBE(b, HEADER + 8, 4);
      var lng :- ReadBE(b, HEADER + 12, 4);
      var alt :- ReadBE(b, HEADER + 16, 4);
      var cmd :- ReadBE(b, HEADER + 20, 1);
      Ok(BCommand(Low64(ts), Signed32(Low32(lat)), Signed32(Low32(lng)), Low32(alt), Low8(cmd)))
    else Ok(BCommand(0, 0, 0, 0, 0))
  }

  /** One entry of a server list: a port, then a string. */
  function ServerAt(b: seq<byte>, off: nat): Outcome<(Server, nat)> {
    var port :- ReadBE(b, off, 2);
    var (address, next) :- TextAt(b, off + 2);
    Ok((Server(address, Low16(port)), next))
  }

  /** The entries from `off` on. An offset past the end wraps the guard, and then the read is outside. */
  function UnpackServers(b: seq<byte>, off: nat): Outcome<seq<Server>>
    decreases |b| + 8 - off
  {
    if SizeSub(|b|, off) >= 4 then
      var (server, next) :- ServerAt(b, off);
      var rest :- UnpackServers(b, next);
      Ok([server] + rest)
    else Ok([])
  }

  /** Where the loop over the entries from `off` on stops. */
  function StopsAt(b: seq<byte>, off: nat): Outcome<nat>
    decreases |b| + 8 - off
  {
    if SizeSub(|b|, off) >= 4 then
      var (_, next) :- ServerAt(b, off);
      StopsAt(b, next)
    else Ok(off)
  }

  function UnpackSmm(b: seq<byte>): Outcome<Body> {
    var (url, o) :- TextField(b, HEADER);
    var (username, o) :- TextField(b, o);
    var (password, _) :- TextField(b, o);
    Ok(BSmm(url, username, password))
  }

  function UnpackNonAircraft(b: seq<byte>): Outcome<Body> {
    var (caps, _) :- Field(b, HEADER, 8, 0);
    Ok(BNonAircraft(Low64(caps)))
  }

  function UnpackServerList(b: seq<byte>): Outcome<Body> {
    var servers :- UnpackServers(b, HEADER);
    Ok(BServerList(servers))
  }

  /** The contents for each kind that has an object; the closed and unknown kinds have none. */
  function UnpackBody(t: MsgType, b: seq<byte>): Outcome<Option<Body>> {
    if t == Unknown || t == Closed then Ok(None) else
      var body :-
        match t
        case Identity => UnpackIdentity(b)
        case RttRequest => Ok(BRttRequest)
        case RttResponse => UnpackRttResponse(b)
        case PositionReport => UnpackPosition(b)
        case SystemStatus => UnpackStatus(b)
        case SearchStatus => UnpackSearch(b)
        case Command => UnpackCommand(b)
        case ServerList => UnpackServerList(b)
        case SmmSettings => UnpackSmm(b)
        case IdentityNonAircraft => UnpackNonAircraft(b)
        case _ => Ok(BIdentityRequired);
      Ok(Some(body))
  }

  /** The identity-required constructor passes the identity code on. */
  function DecodedType(t: MsgType): MsgType {
    if t == IdentityRequired then Identity else t
  }

  function Decode(b: seq<byte>): Outcome<Option<Message>> {
    var code :- ReadBE(b, 2, 2);
    var id :- ReadBE(b, 4, 8);
    var t := TypeFromCode(Low16(code));
    var body :- UnpackBody(t, b);
    Ok(if body.None? then None else Some(Message(Low64(id), DecodedType(t), body.value)))
  }

  // ---------------------------------------------------------------- framing

  /** What one receive makes of a byte stream: more bytes needed, bytes it cannot handle, or a message. */
  datatype Next = Waiting | Broken | Got(msg: Option<Message>, rest: seq<byte>)

  /** The length field counts no padding: the padded size is read, the unpadded prefix decoded. */
  function NextMessage(stream: seq<byte>): Next {
    if |stream| < 2 then Waiting else
      var len := FromBE(stream[..2]);
      if len == 0 then Broken
      else if |stream| < RoundUp(len) then Waiting
      else
        match Decode(stream[..len])
        case Fault => Broken
        case Ok(msg) => Got(msg, stream[RoundUp(len)..])
  }

  // ---------------------------------------------------------------- what a receiver sees

  function CutServers(servers: seq<Server>): (r: seq<Server>)
    ensures |r| == |servers|
  {
    if servers == [] then []
    else [servers[0].(address := Cut16(servers[0].address))] + CutServers(servers[1..])
  }

  /** Strings as the 16-bit lengths cut them. */
  function CutBody(b: Body): Body {
    match b
    case BIdentity(name) => BIdentity(Cut16(name))
    case BPosition(p) => BPosition(p.(callsign := Cut16(p.callsign)))
    case BServerList(servers) => BServerList(CutServers(servers))
    case BSmm(url, username, password) => BSmm(Cut16(url), Cut16(username), Cut16(password))
    case _ => b
  }

  /** What the wire does not carry: the end of a name after a NUL, and the seconds since last contact. */
  function Carried(b: Body): Body {
    match b
    case BIdentity(name) => BIdentity(CString(name))
    case BPosition(p) => BPosition(p.(tslc := 0))
    case _ => b
  }

  /** The message object a receiver ends up with. */
  function Normal(m: Message): Option<Message> {
    if m.typ == Closed then None
    else Some(Message(m.id, DecodedType(m.typ), Carried(CutBody(m.body))))
  }

  /** The size of a message with its header, before padding and with no string cut. */
  function WireSize(b: Body): nat {
    match b
    case BIdentity(name) => HEADER + |name|
    case BPosition(p) => PadUp(HEADER + 34 + |p.callsign|) + 4
    case BServerList(servers) => ServersEnd(servers, HEADER)
    case BSmm(url, username, password) =>
      PadUp(PadUp(PadUp(HEADER + 2 + |url|) + 2 + |username|) + 2 + |password|)
    case BRttResponse(_) => HEADER + 8
    case BStatus(_, _, _) => HEADER + 9
    case BSearch(_, _, _) => HEADER + 24
    case BCommand(_, _, _, _, _) => HEADER + 21
    case BNonAircraft(_) => HEADER + 8
    case _ => HEADER
  }

  function ServersEnd(servers: seq<Server>, at: nat): (r: nat)
    ensures r >= at
    ensures servers != [] ==> r >= at + 4 + |servers[0].address|
  {
    if servers == [] then at else ServersEnd(servers[1..], PadUp(at + 4 + |servers[0].address|))
  }

  predicate Fits(b: Body) { WireSize(b) < TWO16 }

  /** The kinds that keep their type, and the contents that are all carried. */
  predicate Plain(b: Body) {
    match b
    case BClosed => false
    case BIdentityRequired => false
    case BIdentity(name) => 0 !in name
    case BPosition(p) => p.tslc == 0
    case _ => true
  }
}

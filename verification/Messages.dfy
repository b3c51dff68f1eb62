/** Message kinds and their contents. */
module Messages {
  import opened Words

  type Text = seq<byte>

  datatype MsgType =
    | Unknown | Closed | Identity | RttRequest | RttResponse | PositionReport | SystemStatus | SearchStatus
    | Command | ServerList | SmmSettings | IdentityNonAircraft | IdentityRequired

  function Code(t: MsgType): Word16 {
    match t
    case Unknown => 0
    case Closed => 1
    case Identity => 2
    case RttRequest => 3
    case RttResponse => 4
    case PositionReport => 5
    case SystemStatus => 6
    case SearchStatus => 7
    case Command => 8
    case ServerList => 9
    case SmmSettings => 10
    case IdentityNonAircraft => 11
    case IdentityRequired => 12
  }

  /** Codes above 12 name no kind; the decoder treats them like the unknown kind. */
  function TypeFromCode(c: Word16): MsgType {
    match c
    case 1 => Closed
    case 2 => Identity
    case 3 => RttRequest
    case 4 => RttResponse
    case 5 => PositionReport
    case 6 => SystemStatus
    case 7 => SearchStatus
    case 8 => Command
    case 9 => ServerList
    case 10 => SmmSettings
    case 11 => IdentityNonAircraft
    case 12 => IdentityRequired
    case _ => Unknown
  }

  /** Latitude and longitude are the signed 32-bit words that travel on the wire. */
  datatype Position = Position(
    timestamp: Word64, lat: Int32, lng: Int32, altitude: Word32, icao: Word32,
    heading: Word16, horVel: Word16, verVel: Int16, squawk: Word16, callsign: Text,
    flags: Word16, altType: byte, emitter: byte, tslc: byte)

  datatype Server = Server(address: Text, port: Word16)

  /** The contents, one constructor for each message class. */
  datatype Body =
    | BClosed
    | BIdentity(name: Text)
    | BRttRequest
    | BRttResponse(requestId: Word64)
    | BPosition(pos: Position)
    | BStatus(battery: byte, mahUsed: Word32, voltage: Word32)
    | BSearch(searchId: Word64, completed: Word64, total: Word64)
    | BCommand(timestamp: Word64, lat: Int32, lng: Int32, altitude: Word32, command: byte)
    | BServerList(servers: seq<Server>)
    | BSmm(url: Text, username: Text, password: Text)
    | BNonAircraft(capabilities: Word64)
    | BIdentityRequired

  function TypeOf(b: Body): MsgType {
    match b
    case BClosed => Closed
    case BIdentity(_) => Identity
    case BRttRequest => RttRequest
    case BRttResponse(_) => RttResponse
    case BPosition(_) => PositionReport
    case BStatus(_, _, _) => SystemStatus
    case BSearch(_, _, _) => SearchStatus
    case BCommand(_, _, _, _, _) => Command
    case BServerList(_) => ServerList
    case BSmm(_, _, _) => SmmSettings
    case BNonAircraft(_) => IdentityNonAircraft
    case BIdentityRequired => IdentityRequired
  }

  /** The type field is kept beside the body: one decoder constructor sets it to another kind's code. */
  datatype Message = Message(id: Word64, typ: MsgType, body: Body)

  function Make(id: Word64, body: Body): Message { Message(id, TypeOf(body), body) }

  /** A message object: only its id changes after construction. */
  class FssMessage {
    var id: Word64
    const typ: MsgType
    const body: Body

    constructor (body: Body)
      ensures id == 0 && typ == TypeOf(body) && this.body == body
    {
      id, typ, this.body := 0, TypeOf(body), body;
    }

    constructor Decoded(m: Message)
      ensures View() == m
    {
      id, typ, body := m.id, m.typ, m.body;
    }

    function View(): Message
      reads this
    {
      Message(id, typ, body)
    }

    method SetId(id: Word64)
      modifies this
      ensures this.id == id
    {
      this.id := id;
    }
  }

  datatype Option<+T> = None | Some(value: T)
}

/** Where each unpacker evaluates its unsigned length guards, and that no guard of a packed frame wraps. */
module Guards {
  import opened Words
  import opened Messages
  import opened Wire
  import opened RoundTrip
  import L = Layout

  /** The guarded fields an unpacker takes one after another: a word of some bytes, or a text with its length. */
  datatype Fields = Done | Word(w: nat, rest: Fields) | Text(rest: Fields)

  /** A position report: five long words, four short ones, the callsign, the flags and two bytes. */
  const TAIL: Fields := Word(2, Word(1, Word(1, Done)))
  const SHORTS: Fields := Word(2, Word(2, Word(2, Word(2, Text(TAIL)))))
  const POSITION: Fields := Word(8, Word(4, Word(4, Word(4, Word(4, SHORTS)))))

  const SMM: Fields := Text(Text(Text(Done)))

  /** The offset behind one field. */
  function After(b: seq<byte>, off: nat, fs: Fields): Outcome<nat>
    requires fs != Done
  {
    if fs.Word? then
      var (_, next) :- Field(b, off, fs.w, 0);
      Ok(next)
    else
      var (_, next) :- TextField(b, off);
      Ok(next)
  }

  /** Every offset at which a guard is evaluated, up to a read outside the buffer. */
  function Walk(b: seq<byte>, off: nat, fs: Fields): seq<nat>
    decreases fs
  {
    if fs == Done then [] else
      match After(b, off, fs)
      case Ok(next) => [off] + Walk(b, next, fs.rest)
      case Fault => [off]
  }

  /** Whether the whole walk stays inside. */
  predicate WalkOk(b: seq<byte>, off: nat, fs: Fields)
    decreases fs
  {
    fs == Done || (After(b, off, fs).Ok? && WalkOk(b, After(b, off, fs).value, fs.rest))
  }

  /** The offsets at which the loop of a server list evaluates its guard; the last one ends the loop. */
  function ListWalk(b: seq<byte>, off: nat): seq<nat>
    decreases |b| + 8 - off
  {
    if SizeSub(|b|, off) >= 4 && ServerAt(b, off).Ok? then [off] + ListWalk(b, ServerAt(b, off).value.1) else [off]
  }

  /** The guards of the unpacker of each kind; the identity's unguarded length - offset counts as one. */
  function GuardOffsets(t: MsgType, b: seq<byte>): seq<nat> {
    match t
    case Identity => [HEADER]
    case RttResponse => Walk(b, HEADER, Word(8, Done))
    case PositionReport => Walk(b, HEADER, POSITION)
    case SystemStatus => if SizeSub(|b|, HEADER) >= 5 then [HEADER, HEADER + 5] else [HEADER, HEADER]
    case SearchStatus => [HEADER]
    case Command => [HEADER]
    case ServerList => ListWalk(b, HEADER)
    case SmmSettings => Walk(b, HEADER, SMM)
    case IdentityNonAircraft => Walk(b, HEADER, Word(8, Done))
    case _ => []
  }

  // ------------------------------------------------------------ the walks are those of the unpackers

  /** A walk stays inside exactly if its first field does and then the rest. */
  lemma WalkWord(b: seq<byte>, off: nat, w: nat, rest: Fields)
    ensures WalkOk(b, off, Word(w, rest)) <==>
              Field(b, off, w, 0).Ok? && WalkOk(b, Field(b, off, w, 0).value.1, rest)
  {
  }

  lemma WalkText(b: seq<byte>, off: nat, rest: Fields)
    ensures WalkOk(b, off, Text(rest)) <==> TextField(b, off).Ok? && WalkOk(b, TextField(b, off).value.1, rest)
  {
  }

  /** The walk over a report stays inside exactly if the unpacker does. */
  lemma PositionWalks(b: seq<byte>)
    ensures UnpackPosition(b).Ok? <==> WalkOk(b, HEADER, POSITION)
  {
    hide Field, TextField, WalkOk;
    var longs := [Word(4, Word(4, Word(4, Word(4, SHORTS)))), Word(4, Word(4, Word(4, SHORTS))), Word(4, Word(4, SHORTS)), Word(4, SHORTS)];
    WalkWord(b, HEADER, 8, longs[0]);
    var r := Field(b, HEADER, 8, 0);
    if r.Fault? { return; }
    WalkWord(b, r.value.1, 4, longs[1]);
    r := Field(b, r.value.1, 4, 0);
    if r.Fault? { return; }
    WalkWord(b, r.value.1, 4, longs[2]);
    r := Field(b, r.value.1, 4, 0);
    if r.Fault? { return; }
    WalkWord(b, r.value.1, 4, longs[3]);
    r := Field(b, r.value.1, 4, 0);
    if r.Fault? { return; }
    WalkWord(b, r.value.1, 4, SHORTS);
    r := Field(b, r.value.1, 4, 0);
    if r.Fault? { return; }
    ShortsWalk(b, r.value.1);
  }

  /** The same for the unpacker's second half, from the heading on. */
  predicate ShortsOk(b: seq<byte>, off: nat) {
    && Field(b, off, 2, 0).Ok?
    && var o1 := Field(b, off, 2, 0).value.1;
    && Field(b, o1, 2, 0).Ok?
    && var o2 := Field(b, o1, 2, 0).value.1;
    && Field(b, o2, 2, 0).Ok?
    && var o3 := Field(b, o2, 2, 0).value.1;
    && Field(b, o3, 2, 0).Ok?
    && var o4 := Field(b, o3, 2, 0).value.1;
    && TextField(b, o4).Ok?
    && var o5 := TextField(b, o4).value.1;
    && Field(b, o5, 2, 0).Ok?
    && var o6 := Field(b, o5, 2, 0).value.1;
    && Field(b, o6, 1, 0).Ok?
    && Field(b, Field(b, o6, 1, 0).value.1, 1, 0).Ok?
  }

  lemma ShortsWalk(b: seq<byte>, off: nat)
    ensures WalkOk(b, off, SHORTS) <==> ShortsOk(b, off)
  {
    var rests := [Word(2, Word(2, Word(2, Text(TAIL)))), Word(2, Word(2, Text(TAIL))), Word(2, Text(TAIL)), Text(TAIL)];
    assert WalkOk(b, 0, Done);
    hide Field, TextField, WalkOk;
    WalkWord(b, off, 2, rests[0]);
    var r := Field(b, off, 2, 0);
    if r.Fault? { return; }
    WalkWord(b, r.value.1, 2, rests[1]);
    r := Field(b, r.value.1, 2, 0);
    if r.Fault? { return; }
    WalkWord(b, r.value.1, 2, rests[2]);
    r := Field(b, r.value.1, 2, 0);
    if r.Fault? { return; }
    WalkWord(b, r.value.1, 2, rests[3]);
    r := Field(b, r.value.1, 2, 0);
    if r.Fault? { return; }
    WalkText(b, r.value.1, TAIL);
    var t := TextField(b, r.value.1);
    if t.Fault? { return; }
    TailWalk(b, t.value.1);
  }

  lemma TailWalk(b: seq<byte>, off: nat)
    ensures WalkOk(b, off, TAIL) <==>
              && Field(b, off, 2, 0).Ok?
              && var o1 := Field(b, off, 2, 0).value.1;
              && Field(b, o1, 1, 0).Ok?
              && Field(b, Field(b, o1, 1, 0).value.1, 1, 0).Ok?
  {
    WalkWord(b, off, 2, Word(1, Word(1, Done)));
    var r := Field(b, off, 2, 0);
    if r.Fault? { return; }
    WalkWord(b, r.value.1, 1, Word(1, Done));
    r := Field(b, r.value.1, 1, 0);
    if r.Fault? { return; }
    WalkWord(b, r.value.1, 1, Done);
  }

  lemma SmmWalks(b: seq<byte>)
    ensures UnpackSmm(b).Ok? <==> WalkOk(b, HEADER, SMM)
  {
    hide TextField;
    WalkText(b, HEADER, Text(Text(Done)));
    var t := TextField(b, HEADER);
    if t.Fault? { return; }
    WalkText(b, t.value.1, Text(Done));
    t := TextField(b, t.value.1);
    if t.Fault? { return; }
    WalkText(b, t.value.1, Done);
  }

  // ------------------------------------------------------------ no guard wraps

  /** An offset behind a field that was read or left is at most 8 past the end. */
  lemma AfterBound(b: seq<byte>, off: nat, fs: Fields)
    requires |b| < TWO16 && off <= |b| + 8 && fs != Done && (fs.Word? ==> 1 <= fs.w <= 8)
    requires After(b, off, fs).Ok?
    ensures off <= |b| && After(b, off, fs).value <= |b| + 8
  {
    GuardsNeverWrap(b, off, if fs.Word? then fs.w else 1, 0);
  }

  predicate Sane(fs: Fields) {
    match fs
    case Done => true
    case Word(w, rest) => 1 <= w <= 8 && Sane(rest)
    case Text(rest) => Sane(rest)
  }

  lemma {:induction false} WalkInside(b: seq<byte>, off: nat, fs: Fields)
    requires |b| < TWO16 && off <= |b| + 8 && Sane(fs) && WalkOk(b, off, fs)
    ensures forall o :: o in Walk(b, off, fs) ==> o <= |b|
    decreases fs
  {
    if fs != Done {
      AfterBound(b, off, fs);
      WalkInside(b, After(b, off, fs).value, fs.rest);
    }
  }

  lemma {:induction false} ListWalkInside(b: seq<byte>, off: nat)
    requires |b| < TWO16 && off <= |b| + 8 && UnpackServers(b, off).Ok?
    ensures forall o :: o in ListWalk(b, off) ==> o <= |b|
    ensures StopsAt(b, off).Ok? && StopsAt(b, off).value == ListWalk(b, off)[|ListWalk(b, off)| - 1]
    decreases |b| + 8 - off
  {
    GuardsNeverWrap(b, off, 2, 0);
    if SizeSub(|b|, off) >= 4 {
      ListWalkInside(b, ServerAt(b, off).value.1);
    }
  }

  /** Where a decoder reads only inside, none of its guards was evaluated past the end. */
  lemma InsideMeansNoWrap(t: MsgType, b: seq<byte>)
    requires HEADER <= |b| < TWO16 && UnpackBody(t, b).Ok?
    ensures forall o :: o in GuardOffsets(t, b) ==> o <= |b|
  {
    match t
    case PositionReport =>
      PositionWalks(b);
      WalkInside(b, HEADER, POSITION);
    case SmmSettings =>
      SmmWalks(b);
      WalkInside(b, HEADER, SMM);
    case RttResponse => WalkInside(b, HEADER, Word(8, Done));
    case IdentityNonAircraft => WalkInside(b, HEADER, Word(8, Done));
    case ServerList => ListWalkInside(b, HEADER);
    case _ =>
  }

  /** For every packed message cut to its header length: every guard its decoder evaluates is within the buffer. */
  lemma NoGuardWraps(m: Message)
    requires m.typ == TypeOf(m.body) && |Unsized(m)| < TWO16
    ensures |Frame(m)| >= |Unsized(m)| >= 2 && FromBE(Frame(m)[..2]) == |Unsized(m)|
    ensures forall o :: o in GuardOffsets(m.typ, Frame(m)[..|Unsized(m)|]) ==> o <= |Unsized(m)|
  {
    FrameShape(m);
    var cut := Frame(m)[..|Unsized(m)|];
    if m.typ != Closed {
      BodyRoundTrip(cut, m, 0);
      hide Frame, Unsized, UnpackBody, GuardOffsets;
      InsideMeansNoWrap(m.typ, cut);
    }
  }

  // ------------------------------------------------------------ which offsets they are

  /** A word that is there is one guard and one step on; one that is not there is a guard and no step. */
  lemma WalkOn(b: seq<byte>, off: nat, w: nat, rest: Fields)
    requires |b| < TWO32 && off <= |b| && 1 <= w <= 8
    ensures Walk(b, off, Word(w, rest)) == [off] + Walk(b, if off + w <= |b| then off + w else off, rest)
  {
    assert SizeSub(|b|, off) == |b| - off;
  }

  lemma WalkOnText(b: seq<byte>, off: nat, s: Text, rest: Fields)
    requires |b| < TWO32 && L.TextHere(b, off, s)
    ensures Walk(b, off, Text(rest)) == [off] + Walk(b, L.AfterText(off, s), rest)
  {
    ReadsText(b, off, s);
    hide TextField, L.TextHere, L.AfterText;
  }

  lemma ReadsText(b: seq<byte>, off: nat, s: Text)
    requires |b| < TWO32 && L.TextHere(b, off, s)
    ensures TextField(b, off) == Ok((s, L.AfterText(off, s)))
  {
    hide L.Num2, TextField;
    L.TextFieldExactly(b, off);
  }

  /** For a report in a buffer of just its size: one guard for each field, at the field's place. */
  lemma PositionGuards(b: seq<byte>, p: Position)
    requires |b| < TWO16 && L.PositionHere(b, p, |b|)
    ensures var e := L.AfterText(44, p.callsign);
            GuardOffsets(PositionReport, b) == [12, 20, 24, 28, 32, 36, 38, 40, 42, 44, e, e + 2, e + 3]
  {
    hide Walk, L.Num2, L.Num4, L.Num8, L.TextHere, L.NextEight;
    var e := L.AfterText(44, p.callsign);
    WalkOn(b, 12, 8, Word(4, Word(4, Word(4, Word(4, SHORTS)))));
    WalkOn(b, 20, 4, Word(4, Word(4, Word(4, SHORTS))));
    WalkOn(b, 24, 4, Word(4, Word(4, SHORTS)));
    WalkOn(b, 28, 4, Word(4, SHORTS));
    WalkOn(b, 32, 4, SHORTS);
    WalkOn(b, 36, 2, Word(2, Word(2, Word(2, Text(TAIL)))));
    WalkOn(b, 38, 2, Word(2, Word(2, Text(TAIL))));
    WalkOn(b, 40, 2, Word(2, Text(TAIL)));
    WalkOn(b, 42, 2, Text(TAIL));
    WalkOnText(b, 44, p.callsign, TAIL);
    WalkOn(b, e, 2, Word(1, Word(1, Done)));
    WalkOn(b, e + 2, 1, Word(1, Done));
    WalkOn(b, e + 3, 1, Done);
    WalkDone(b, e + 4);
  }

  lemma WalkDone(b: seq<byte>, off: nat)
    ensures Walk(b, off, Done) == []
  {
  }

  lemma SmmGuards(b: seq<byte>, url: seq<byte>, username: seq<byte>, password: seq<byte>)
    requires 12 <= |b| < TWO16 && L.BodyHere(b, BSmm(url, username, password), |b|)
    ensures var user := L.AfterText(12, url);
            GuardOffsets(SmmSettings, b) == [12, user, L.AfterText(user, username)]
  {
    hide Walk, L.TextHere, L.AfterText;
    var user := L.AfterText(12, url);
    var pass := L.AfterText(user, username);
    WalkOnText(b, 12, url, Text(Text(Done)));
    WalkOnText(b, user, username, Text(Done));
    WalkOnText(b, pass, password, Done);
    WalkDone(b, L.AfterText(pass, password));
  }

  /** Where the entries of a list start, and where the last one ends. */
  function EntryOffsets(at: nat, servers: seq<Server>): seq<nat>
    decreases |servers|
  {
    [at] + if servers == [] then [] else EntryOffsets(L.AfterText(at + 2, servers[0].address), servers[1..])
  }

  /** For a list in a buffer of just its size: one guard for each entry, and the one that ends the loop. */
  lemma {:induction false} ListGuards(b: seq<byte>, at: nat, servers: seq<Server>)
    requires at <= |b| < TWO16 && L.ServersHere(b, at, servers, |b|)
    ensures ListWalk(b, at) == EntryOffsets(at, servers)
    decreases |servers|
  {
    if servers != [] {
      hide L.Num2, ServerAt;
      var next := L.AfterText(at + 2, servers[0].address);
      EntryHere(b, at, servers[0]);
      ListGuards(b, next, servers[1..]);
      assert SizeSub(|b|, at) == |b| - at >= 4;
    }
  }

  lemma EntryHere(b: seq<byte>, at: nat, s: Server)
    requires |b| < TWO16 && at + 2 <= |b| && L.TextHere(b, at + 2, s.address) && L.Num2(b, at) == s.port
    ensures ServerAt(b, at) == Ok((s, L.AfterText(at + 2, s.address)))
    ensures at + 4 <= L.AfterText(at + 2, s.address) <= |b|
  {
    L.TwoBytes(b, at, FromBE(b[at..at + 2]));
    L.TextFieldExactly(b, at + 2);
    hide L.Num2, FromBE;
    assert SizeSub(|b|, at + 2) >= 2;
  }

  /** The kinds whose contents have one size: where their guards are. */
  lemma FixedGuards(b: seq<byte>)
    requires |b| < TWO16
    ensures |b| == 21 ==> GuardOffsets(SystemStatus, b) == [12, 17]
    ensures |b| == 20 ==> GuardOffsets(RttResponse, b) == [12] == GuardOffsets(IdentityNonAircraft, b)
    ensures GuardOffsets(SearchStatus, b) == GuardOffsets(Command, b) == GuardOffsets(Identity, b) == [12]
    ensures GuardOffsets(RttRequest, b) == GuardOffsets(IdentityRequired, b) == []
  {
    if |b| == 20 {
      WalkOn(b, 12, 8, Done);
      WalkDone(b, 20);
    }
  }
}

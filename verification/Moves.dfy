/** Who is where after a step of the registry: exactly which clients move, and which stay as they are. */
module Moves {
  import opened Words
  import opened Messages
  import opened Session
  import opened Registry
  import opened RefusedNames

  /** A message after which a client is dropped: closed, or an identity that its certificate does not have. */
  predicate Drops(c: Client, msg: Option<Message>) {
    match msg
    case None => false
    case Some(m) =>
      m.typ == Closed
      || (!c.identified && m.typ == Identity && m.body.BIdentity? && c.names != [] && m.body.name !in c.names)
  }

  predicate IsReport(c: Client, msg: Option<Message>) { c.identified && msg.Some? && msg.value.typ == PositionReport }

  /** A read by a registered client: it alone leaves, exactly on such a message, and goes behind the leaving ones. */
  lemma RegisteredReads(s: State, i: nat, msg: Option<Message>, q: Query)
    requires i < |s.active|
    ensures var c, s' := s.active[i], Apply(s, Incoming(i, msg, q));
            && s'.freed == s.freed && s'.total == s.total && s'.next == s.next
            && if Drops(c, msg) then
                 && Uids(s'.active) == Uids(s.active)[..i] + Uids(s.active)[i + 1..]
                 && s'.active == s.active[..i] + s.active[i + 1..]
                 && |s'.leaving| == |s.leaving| + 1 && s'.leaving[..|s.leaving|] == s.leaving
                 && s'.leaving[|s.leaving|].uid == c.uid
               else
                 && Uids(s'.active) == Uids(s.active) && s'.leaving == s.leaving
                 && (!IsReport(c, msg) ==> forall j :: 0 <= j < |s.active| && j != i ==> s'.active[j] == s.active[j])
  {
    var c := s.active[i];
    var h := Handle(c, msg, q);
    EffectsExactlyWhen(c, msg, q);
    IdentityFinal(c, msg, q);
    assert At(s, i) == c;
    hide Handle;
    var s' := Apply(s, Incoming(i, msg, q));
    if h.effect == Leave {
      assert s.active[i := h.client][..i] == s.active[..i] && s.active[i := h.client][i + 1..] == s.active[i + 1..];
    }
  }

  /** A read by a leaving client: it stays where it is, and no one else moves. */
  lemma LeavingReads(s: State, i: nat, msg: Option<Message>, q: Query)
    requires |s.active| <= i < |s.active| + |s.leaving|
    ensures var c, s' := At(s, i), Apply(s, Incoming(i, msg, q));
            && s'.freed == s.freed && s'.total == s.total && s'.next == s.next
            && Uids(s'.active) == Uids(s.active) && Uids(s'.leaving) == Uids(s.leaving)
            && (!IsReport(c, msg) ==> s'.active == s.active)
            && forall j :: 0 <= j < |s.leaving| && j != i - |s.active| ==> s'.leaving[j] == s.leaving[j]
  {
    EffectsExactlyWhen(At(s, i), msg, q);
    IdentityFinal(At(s, i), msg, q);
    hide Handle;
  }

  /** A cleanup frees exactly the leaving clients; a second one right after frees nobody. */
  lemma CleanupFrees(s: State)
    ensures var s' := Apply(s, Cleanup);
            && s'.active == s.active && s'.leaving == [] && s'.log == s.log && s'.next == s.next
            && multiset(s'.freed) == multiset(s.freed) + multiset(Uids(s.leaving))
            && Apply(s', Cleanup) == s'
  {
    var s' := Apply(s, Cleanup);
    assert Uids([]) == [] && s'.freed + [] == s'.freed;
  }

  /** A connect registers one new client behind the others, with the next serial number; nobody else comes or goes. */
  lemma ConnectRegisters(s: State, names: seq<Text>, queued: seq<Option<Message>>, q: nat -> Query)
    ensures var s' := Apply(s, Connect(names, queued, q));
            && Uids(s'.active) == Uids(s.active) + [s.next] && s'.active[|s.active|].names == names
            && s'.leaving == s.leaving && s'.freed == s.freed && s'.next == s.next + 1
            && s'.total == (s.total + 1) % 4294967296
  {
    var c := NewClient(s.next, names);
    DrainKeepsUids(s, c, queued, q);
    var (s1, c1) := Drain(s, c, queued, q);
    hide Drain;
    SameUidsSameSeq(s1.active, s.active);
    UidsSnoc(s1.active, c1);
  }
}

/** Who can see a generated object, over every interleaving. */
module Visibility {
  import opened Bytes
  import opened Attributes
  import opened Objects
  import opened Crypto
  import opened Keygen
  import opened Handles
  import opened Sessions
  import opened Slots
  import opened Machine

  predicate HasId(objects: seq<Object>, id: uint64) {
    exists o :: o in objects && o.id == id
  }

  /** Where an object was generated, whether it is a token object of a slot without GetObjects, and
      the logical time at which it was persisted. */
  datatype Birth = Birth(
    conn: nat, session: uint64, serial: nat, slot: uint64, dynamic: bool, token: bool, published: Option<nat>)

  /** The creating session, or a session whose snapshot of the slot was taken after the persist. */
  predicate Sees(b: Birth, c: nat, id: uint64, s: Session, origin: Origin) {
    || (c == b.conn && id == b.session && origin.serial == b.serial)
    || (b.published.Some? && !b.dynamic && s.slotID == b.slot && origin.serial >= b.published.value)
  }

  predicate SessionsSee(conn: Conn, c: nat, oid: uint64, b: Birth) {
    forall id :: id in conn.local.sessions && id in conn.origins ==>
      (HasId(conn.local.sessions[id].objects, oid) <==> Sees(b, c, id, conn.local.sessions[id], conn.origins[id]))
  }

  predicate PhaseSees(conn: Conn, c: nat, oid: uint64, b: Birth) {
    match conn.phase
    case Idle => true
    case Opening(slot, _, snapshot, serial) =>
      && (HasId(snapshot, oid) <==> b.published.Some? && slot == b.slot && serial >= b.published.value)
      && (c == b.conn ==> serial > b.serial)
    case Persisting(slot, todo, _, _) =>
      && (HasId(todo, oid) <==> c == b.conn && b.token && b.published.None?)
      && (HasId(todo, oid) ==> slot == b.slot)
      && (forall i, j :: 0 <= i < j < |todo| && todo[i].id == oid ==> todo[j].id != oid)
  }

  predicate SlotsSee(slots: seq<Slot>, oid: uint64, b: Birth) {
    && FindSlot(slots, b.slot).Ok?
    && slots[FindSlot(slots, b.slot).value].dynamic == b.dynamic
    && forall i :: 0 <= i < |slots| ==> (HasId(slots[i].objects, oid) <==> b.published.Some? && i == FindSlot(slots, b.slot).value)
  }

  predicate ConnSees(conn: Conn, c: nat, oid: uint64, b: Birth) {
    SessionsSee(conn, c, oid, b) && PhaseSees(conn, c, oid, b)
  }

  /** An unpublished token object is still waiting in its request. */
  predicate Waiting(w: World, b: Birth) {
    b.token && b.published.None? ==> b.conn in w.conns && w.conns[b.conn].phase.Persisting?
  }

  predicate TimesOk(b: Birth, opens: nat) {
    b.serial < opens && (b.published.Some? ==> b.token && b.published.value <= opens)
  }

  /** The object with this identifier is exactly where its birth says. */
  predicate Placed(w: World, oid: uint64, b: Birth) {
    && SlotsSee(w.slots, oid, b) && TimesOk(b, w.opens) && Waiting(w, b)
    && forall c :: c in w.conns ==> ConnSees(w.conns[c], c, oid, b)
  }

  /** Identifiers are random; this step does not draw oid again. */
  predicate Avoids(l: Step, oid: uint64) {
    match l
    case Begin(_, _, o) => o.keys.id != Some(oid) && o.gen.pubId != Some(oid) && o.gen.privId != Some(oid)
    case Continue(_, o) => o.dynamicObjects.Ok? ==> !HasId(o.dynamicObjects.value, oid)
    case _ => true
  }

  /** The step that persists the object publishes it to snapshots from then on. */
  ghost function After(w: World, l: Step, oid: uint64, b: Birth): Birth {
    if l.Continue? && Enabled(w, l) && w.conns[l.c].phase.Persisting? && w.conns[l.c].phase.todo != [] && w.conns[l.c].phase.todo[0].id == oid
    then b.(published := Some(w.opens)) else b
  }

  ghost function AfterRun(w: World, ls: seq<Step>, oid: uint64, b: Birth): Birth
    decreases ls
  {
    if ls == [] then b else AfterRun(Next(w, ls[0]).0, ls[1..], oid, After(w, ls[0], oid, b))
  }

  lemma HasIdAppend(a: seq<Object>, b: seq<Object>, id: uint64)
    ensures HasId(a + b, id) <==> HasId(a, id) || HasId(b, id)
  {
    if HasId(a, id) {
      var o :| o in a && o.id == id;
      assert o in a + b;
    }
    if HasId(b, id) {
      var o :| o in b && o.id == id;
      assert o in a + b;
    }
  }

  lemma InSessionIds(s: Session, r: Request, o: Oracle, oid: uint64)
    requires o.keys.Valid() && o.keys.id != Some(oid)
    ensures HasId(InSession(s, r, o).0.objects, oid) <==> HasId(s.objects, oid)
    ensures InSession(s, r, o).0.slotID == s.slotID
  {
    hide HasId, FindObject, Supports, Sign, SharedSecret, KdfSecret, AttributeValues, AllPresent, MatchIds, MayDerive, IsEcdsaKey;
    if r.DeriveKey? && FindObject(s.objects, r.key).Ok? {
      var base := FindObject(s.objects, r.key).value;
      if DeriveEcdh(r.mechanism, base, r.tmpl, o.keys).Ok? {
        var d := DeriveEcdh(r.mechanism, base, r.tmpl, o.keys).value;
        HasIdAppend(s.objects, [d], oid);
        assert !HasId([d], oid) by { OneId(d, oid); }
      }
    }
  }

  lemma OneId(o: Object, id: uint64)
    ensures HasId([o], id) <==> o.id == id
  {
    if o.id == id {
      assert o in [o];
    }
  }

  lemma TwoIds(o: Object, p: Object, id: uint64)
    ensures HasId([o, p], id) <==> o.id == id || p.id == id
  {
    HasIdAppend([o], [p], id);
    OneId(o, id);
    OneId(p, id);
    assert [o] + [p] == [o, p];
  }

  lemma ServeSees(conn: Conn, c: nat, r: Request, o: Oracle, oid: uint64, b: Birth)
    requires r.IsLocal() && o.keys.Valid() && o.keys.id != Some(oid) && SessionsSee(conn, c, oid, b)
    ensures SessionsSee(conn.(local := Serve(conn.local, r, o).0), c, oid, b)
  {
    hide InSession, HasId;
    if r.session in conn.local.sessions {
      InSessionIds(conn.local.sessions[r.session], r, o, oid);
    }
  }

  /** A step that changes only c's record, and no slot. */
  lemma OnlyConnPlaced(w: World, v: World, c: nat, oid: uint64, b: Birth)
    requires Placed(w, oid, b) && v.slots == w.slots && w.opens <= v.opens
    requires v.conns.Keys == w.conns.Keys + {c} && forall d :: d in w.conns && d != c ==> v.conns[d] == w.conns[d]
    requires ConnSees(v.conns[c], c, oid, b) && Waiting(v, b)
    ensures Placed(v, oid, b)
  {
    hide ConnSees, SlotsSee, Waiting;
  }

  lemma LocalPlaced(w: World, c: nat, r: Request, o: Oracle, oid: uint64, b: Birth)
    requires Placed(w, oid, b) && c in w.conns && w.conns[c].phase.Idle? && r.IsLocal() && o.keys.Valid() && o.keys.id != Some(oid)
    ensures Placed(SetConn(w, c, w.conns[c].(local := Serve(w.conns[c].local, r, o).0)), oid, b)
  {
    hide Serve, SlotsSee, SessionsSee;
    ServeSees(w.conns[c], c, r, o, oid, b);
    OnlyConnPlaced(w, SetConn(w, c, w.conns[c].(local := Serve(w.conns[c].local, r, o).0)), c, oid, b);
  }

  lemma SlotHas(slots: seq<Slot>, oid: uint64, b: Birth, slot: uint64)
    requires SlotsSee(slots, oid, b) && FindSlot(slots, slot).Ok?
    ensures HasId(slots[FindSlot(slots, slot).value].objects, oid) <==> b.published.Some? && slot == b.slot
    ensures slot == b.slot ==> slots[FindSlot(slots, slot).value].dynamic == b.dynamic
  {
    hide HasId;
  }

  lemma BeginOpenPlaced(w: World, c: nat, slot: uint64, flags: uint64, oid: uint64, b: Birth)
    requires Placed(w, oid, b) && c in w.conns && w.conns[c].phase.Idle?
    ensures Placed(BeginOpen(w, c, slot, flags).0, oid, b)
  {
    hide HasId, FindSlot, SlotsSee;
    var v := BeginOpen(w, c, slot, flags).0;
    if v != w {
      SlotHas(w.slots, oid, b, slot);
      assert SessionsSee(w.conns[c], c, oid, b);
      OnlyConnPlaced(w, v, c, oid, b);
    }
  }

  lemma FinishOpenPlaced(w: World, c: nat, dynamicObjects: Outcome<seq<Object>>, oid: uint64, b: Birth)
    requires Inv(w) && Placed(w, oid, b) && c in w.conns && w.conns[c].phase.Opening? && |w.conns[c].local.sessions.Keys| < TWO64
    requires dynamicObjects.Ok? ==> !HasId(dynamicObjects.value, oid)
    ensures Placed(FinishOpen(w, c, dynamicObjects).0, oid, b)
  {
    hide HasId, FindSlot, LocalOk, OriginsOk, SlotsTyped, FirstFree;
    var v := FinishOpen(w, c, dynamicObjects).0;
    var conn := w.conns[c];
    assert PhaseOk(conn, w.slots, w.opens) && PhaseSees(conn, c, oid, b);
    SlotHas(w.slots, oid, b, conn.phase.slot);
    assert SessionsSee(conn, c, oid, b);
    OnlyConnPlaced(w, v, c, oid, b);
  }

  lemma GeneratePlaced(w: World, c: nat, r: Request, g: KeyGen, oid: uint64, b: Birth)
    requires Inv(w) && Placed(w, oid, b) && c in w.conns && w.conns[c].phase.Idle? && r.GenerateKeyPair?
    requires g.pubId != Some(oid) && g.privId != Some(oid)
    ensures Placed(BeginGenerate(w, c, r, g).0, oid, b)
  {
    hide HasId, FindSlot, ConnOk, SlotsTyped, NewKeyPair, IsToken, SlotsSee;
    var conn := w.conns[c];
    if r.session in conn.local.sessions && NewKeyPair(r.mechanism, r.pubTmpl, r.privTmpl, g).Ok? {
      var (pub, priv) := NewKeyPair(r.mechanism, r.pubTmpl, r.privTmpl, g).value;
      GeneratedPair(r.mechanism, r.pubTmpl, r.privTmpl, g);
      var s := conn.local.sessions[r.session];
      HasIdAppend(s.objects, [pub, priv], oid);
      TwoIds(pub, priv, oid);
      TokenIds(pub, priv, oid);
      assert ConnSees(conn, c, oid, b);
      OnlyConnPlaced(w, BeginGenerate(w, c, r, g).0, c, oid, b);
    }
  }

  lemma TokenIds(pub: Object, priv: Object, oid: uint64)
    ensures HasId(Tokens(pub, priv), oid) <==> (IsToken(pub) && pub.id == oid) || (IsToken(priv) && priv.id == oid)
    ensures pub.id != priv.id ==> forall i, j :: 0 <= i < j < |Tokens(pub, priv)| ==> Tokens(pub, priv)[i].id != Tokens(pub, priv)[j].id
    ensures forall o :: o in Tokens(pub, priv) ==> o == pub || o == priv
  {
    hide HasId, IsToken;
    HasIdAppend(if IsToken(pub) then [pub] else [], if IsToken(priv) then [priv] else [], oid);
    OneId(pub, oid);
    OneId(priv, oid);
    assert !HasId([], oid) by { NoId(oid); }
  }

  lemma NoId(oid: uint64)
    ensures !HasId([], oid)
  {
  }

  lemma InitializePlaced(w: World, slot: uint64, text: seq<byte>, oid: uint64, b: Birth)
    requires Placed(w, oid, b)
    ensures Placed(w.(slots := Initialize(w.slots, slot, text).0), oid, b)
  {
    hide HasId, FindSlot, ConnSees;
    var slots := Initialize(w.slots, slot, text).0;
    SameSlot(w.slots, slots, b.slot);
  }

  /** Publishing does not reach snapshots that were already taken. */
  lemma PublishedLater(conn: Conn, c: nat, oid: uint64, b: Birth, slots: seq<Slot>, opens: nat)
    requires ConnOk(conn, slots, opens) && ConnSees(conn, c, oid, b) && b.published.None?
    requires conn.phase.Persisting? ==> c != b.conn
    ensures ConnSees(conn, c, oid, b.(published := Some(opens)))
  {
    hide HasId, LocalOk, PrefixOfSlot, FindSlot, AllTyped;
    var b' := b.(published := Some(opens));
    forall id | id in conn.local.sessions && id in conn.origins
      ensures HasId(conn.local.sessions[id].objects, oid) <==> Sees(b', c, id, conn.local.sessions[id], conn.origins[id])
    {
      assert SessionOrigin(conn.local.sessions[id], conn.origins[id], slots, opens);
    }
  }

  lemma PersistSlots(slots: seq<Slot>, i: nat, o: Object, oid: uint64, b: Birth, opens: nat)
    requires SlotsSee(slots, oid, b) && i < |slots|
    requires o.id == oid ==> b.published.None? && FindSlot(slots, b.slot) == Ok(i)
    ensures SlotsSee(slots[i := slots[i].(objects := slots[i].objects + [o])], oid, if o.id == oid then b.(published := Some(opens)) else b)
  {
    hide HasId, FindSlot;
    var t := slots[i := slots[i].(objects := slots[i].objects + [o])];
    SameSlot(slots, t, b.slot);
    HasIdAppend(slots[i].objects, [o], oid);
    OneId(o, oid);
  }

  lemma TodoTail(todo: seq<Object>, oid: uint64)
    requires todo != [] && forall i, j :: 0 <= i < j < |todo| && todo[i].id == oid ==> todo[j].id != oid
    ensures HasId(todo[1..], oid) <==> HasId(todo, oid) && todo[0].id != oid
    ensures forall i, j :: 0 <= i < j < |todo[1..]| && todo[1..][i].id == oid ==> todo[1..][j].id != oid
    ensures |todo| == 1 ==> !HasId(todo[1..], oid)
    ensures todo[0].id == oid ==> HasId(todo, oid)
  {
    assert todo == [todo[0]] + todo[1..];
    HasIdAppend([todo[0]], todo[1..], oid);
    OneId(todo[0], oid);
  }

  /** The persisting connection's own record after the step. */
  lemma PersistConn(w: World, c: nat, oid: uint64, b: Birth)
    requires Inv(w) && Placed(w, oid, b) && c in w.conns && w.conns[c].phase.Persisting? && w.conns[c].phase.todo != []
    requires FindSlot(w.slots, w.conns[c].phase.slot).Ok?
    ensures var b' := if w.conns[c].phase.todo[0].id == oid then b.(published := Some(w.opens)) else b;
            ConnSees(Persist(w, c).0.conns[c], c, oid, b')
    ensures w.conns[c].phase.todo[0].id == oid ==> c == b.conn && b.token && b.published.None? && w.conns[c].phase.slot == b.slot
    ensures c == b.conn && b.token && b.published.None? && w.conns[c].phase.todo[0].id != oid ==> Persist(w, c).0.conns[c].phase.Persisting?
  {
    hide HasId, FindSlot, ConnOk, SlotsTyped, SlotsSee;
    var conn := w.conns[c];
    assert ConnSees(conn, c, oid, b);
    TodoTail(conn.phase.todo, oid);
    if conn.phase.todo[0].id == oid {
      PublishedLater(conn.(phase := Idle), c, oid, b, w.slots, w.opens) by {
        IdleConn(conn, w.slots, w.opens);
      }
    }
  }

  lemma IdleConn(conn: Conn, slots: seq<Slot>, opens: nat)
    requires ConnOk(conn, slots, opens)
    ensures ConnOk(conn.(phase := Idle), slots, opens)
  {
    hide LocalOk, PrefixOfSlot, FindSlot, AllTyped;
  }

  lemma PersistPlaced(w: World, c: nat, oid: uint64, b: Birth)
    requires Inv(w) && Placed(w, oid, b) && c in w.conns && w.conns[c].phase.Persisting? && w.conns[c].phase.todo != []
    ensures Placed(Persist(w, c).0, oid, if w.conns[c].phase.todo[0].id == oid then b.(published := Some(w.opens)) else b)
  {
    hide HasId, FindSlot, ConnOk, SlotsTyped, SlotsSee, ConnSees;
    var v := Persist(w, c).0;
    var conn := w.conns[c];
    var b' := if conn.phase.todo[0].id == oid then b.(published := Some(w.opens)) else b;
    assert FindSlot(w.slots, conn.phase.slot).Ok? by { PersistResolves(w, c); }
    PersistConn(w, c, oid, b);
    PersistSlots(w.slots, FindSlot(w.slots, conn.phase.slot).value, conn.phase.todo[0], oid, b, w.opens);
    forall d | d in v.conns ensures ConnSees(v.conns[d], d, oid, b') {
      if d != c && b' != b {
        PublishedLater(w.conns[d], d, oid, b, w.slots, w.opens);
      }
    }
  }

  lemma PersistResolves(w: World, c: nat)
    requires Inv(w) && c in w.conns && w.conns[c].phase.Persisting?
    ensures FindSlot(w.slots, w.conns[c].phase.slot).Ok?
  {
    hide FindSlot, LocalOk, OriginsOk;
    assert ConnOk(w.conns[c], w.slots, w.opens);
  }

  /** One step keeps the object exactly where its birth says. */
  lemma StepPlaced(w: World, l: Step, oid: uint64, b: Birth)
    requires Inv(w) && Placed(w, oid, b) && Avoids(l, oid)
    ensures Placed(Next(w, l).0, oid, After(w, l, oid, b))
  {
    hide HasId, Serve, Inv, FindSlot, BeginOpen, FinishOpen, BeginGenerate, Persist, Initialize, ConnSees, SlotsSee;
    if Enabled(w, l) {
      match l
      case Connect(c) =>
        assert ConnSees(Conn(FRESH_LOCAL, Idle, map[]), c, oid, b) by { FreshSees(c, oid, b); }
        OnlyConnPlaced(w, Next(w, l).0, c, oid, b);
      case Disconnect(c) =>
      case Begin(c, r, o) =>
        if r.IsLocal() {
          LocalPlaced(w, c, r, o, oid, b);
        } else if r.OpenSession? {
          BeginOpenPlaced(w, c, r.slot, r.flags, oid, b);
        } else if r.GenerateKeyPair? {
          GeneratePlaced(w, c, r, o.gen, oid, b);
        } else if r.InitToken? {
          InitializePlaced(w, r.slot, r.text, oid, b);
        }
      case Continue(c, o) =>
        if w.conns[c].phase.Opening? {
          FinishOpenPlaced(w, c, o.dynamicObjects, oid, b);
        } else if w.conns[c].phase.todo != [] {
          PersistPlaced(w, c, oid, b);
        }
    }
  }

  lemma FreshSees(c: nat, oid: uint64, b: Birth)
    ensures ConnSees(Conn(FRESH_LOCAL, Idle, map[]), c, oid, b)
  {
  }

  lemma {:induction false} RunPlaced(w: World, ls: seq<Step>, oid: uint64, b: Birth)
    requires Inv(w) && Placed(w, oid, b) && forall l :: l in ls ==> Avoids(l, oid)
    ensures Placed(Exec(w, ls), oid, AfterRun(w, ls, oid, b)) && Inv(Exec(w, ls))
    ensures AfterRun(w, ls, oid, b) == b.(published := AfterRun(w, ls, oid, b).published)
    decreases ls
  {
    hide Next, Inv, Placed, Avoids;
    if ls != [] {
      StepPlaced(w, ls[0], oid, b);
      NextKeepsInv(w, ls[0]);
      RunPlaced(Next(w, ls[0]).0, ls[1..], oid, After(w, ls[0], oid, b));
    }
  }

  /** No object anywhere has the identifier. */
  predicate Absent(w: World, oid: uint64) {
    && (forall i :: 0 <= i < |w.slots| ==> !HasId(w.slots[i].objects, oid))
    && forall c :: c in w.conns ==> AbsentIn(w.conns[c], oid)
  }

  predicate AbsentIn(conn: Conn, oid: uint64) {
    && (forall id :: id in conn.local.sessions ==> !HasId(conn.local.sessions[id].objects, oid))
    && (conn.phase.Opening? ==> !HasId(conn.phase.snapshot, oid))
    && (conn.phase.Persisting? ==> !HasId(conn.phase.todo, oid))
  }

  function BirthOf(w: World, c: nat, session: uint64, o: Object): Birth
    requires c in w.conns && session in w.conns[c].local.sessions && session in w.conns[c].origins
    requires FindSlot(w.slots, w.conns[c].local.sessions[session].slotID).Ok?
  {
    var slot := w.conns[c].local.sessions[session].slotID;
    Birth(c, session, w.conns[c].origins[session].serial, slot, w.slots[FindSlot(w.slots, slot).value].dynamic, IsToken(o), None)
  }

  lemma SessionKnown(w: World, c: nat, session: uint64)
    requires Inv(w) && c in w.conns && session in w.conns[c].local.sessions
    ensures session in w.conns[c].origins && w.conns[c].origins[session].serial < w.opens
    ensures FindSlot(w.slots, w.conns[c].local.sessions[session].slotID).Ok?
  {
    hide FindSlot, LocalOk, PhaseOk;
    assert SessionOrigin(w.conns[c].local.sessions[session], w.conns[c].origins[session], w.slots, w.opens);
  }

  lemma AbsentSees(conn: Conn, c: nat, oid: uint64, b: Birth)
    requires AbsentIn(conn, oid) && b.published.None? && c != b.conn
    ensures ConnSees(conn, c, oid, b)
  {
    if conn.phase.Persisting? {
      forall i | 0 <= i < |conn.phase.todo| ensures conn.phase.todo[i].id != oid {
        assert conn.phase.todo[i] in conn.phase.todo;
      }
    }
  }

  /** At its generation an object with a new identifier is placed in its session alone, and waits
      to be persisted exactly when it is a token object. */
  lemma GeneratedPlaced(w: World, c: nat, r: Request, g: KeyGen, pub: Object, priv: Object, o: Object)
    requires Inv(w) && c in w.conns && w.conns[c].phase.Idle? && r.GenerateKeyPair? && r.session in w.conns[c].local.sessions
    requires NewKeyPair(r.mechanism, r.pubTmpl, r.privTmpl, g) == Ok((pub, priv)) && pub.id != priv.id
    requires (o == pub || o == priv) && Absent(w, o.id)
    ensures r.session in w.conns[c].origins && FindSlot(w.slots, w.conns[c].local.sessions[r.session].slotID).Ok?
    ensures Placed(BeginGenerate(w, c, r, g).0, o.id, BirthOf(w, c, r.session, o))
  {
    hide HasId, FindSlot, Inv, NewKeyPair, IsToken;
    SessionKnown(w, c, r.session);
    var b := BirthOf(w, c, r.session, o);
    var v := BeginGenerate(w, c, r, g).0;
    var conn := w.conns[c];
    HasIdAppend(conn.local.sessions[r.session].objects, [pub, priv], o.id);
    TwoIds(pub, priv, o.id);
    TokenIds(pub, priv, o.id);
    assert AbsentIn(conn, o.id);
    if Tokens(pub, priv) == [] {
      assert !HasId([], o.id) by { NoId(o.id); }
    }
    forall d | d in v.conns ensures ConnSees(v.conns[d], d, o.id, b) {
      if d != c {
        AbsentSees(w.conns[d], d, o.id, b);
      }
    }
  }

  // ---------------------------------------------------------------- identifiers stand for objects

  /** Whatever has o's identifier is o, attributes and all. */
  predicate Only(objects: seq<Object>, o: Object) {
    forall p :: p in objects && p.id == o.id ==> p == o
  }

  predicate OnlyInSessions(conn: Conn, o: Object) {
    forall id :: id in conn.local.sessions ==> Only(conn.local.sessions[id].objects, o)
  }

  predicate OnlyIn(conn: Conn, o: Object) {
    && OnlyInSessions(conn, o)
    && (conn.phase.Opening? ==> Only(conn.phase.snapshot, o))
    && (conn.phase.Persisting? ==> Only(conn.phase.todo, o))
  }

  predicate Unique(w: World, o: Object) {
    && (forall i :: 0 <= i < |w.slots| ==> Only(w.slots[i].objects, o))
    && forall c :: c in w.conns ==> OnlyIn(w.conns[c], o)
  }

  lemma OnlyAppend(a: seq<Object>, b: seq<Object>, o: Object)
    ensures Only(a + b, o) <==> Only(a, o) && Only(b, o)
  {
    if Only(a + b, o) {
      forall p | p in a && p.id == o.id ensures p == o { assert p in a + b; }
      forall p | p in b && p.id == o.id ensures p == o { assert p in a + b; }
    }
  }

  lemma OnlyHas(objects: seq<Object>, o: Object)
    requires Only(objects, o)
    ensures HasId(objects, o.id) <==> o in objects
  {
  }

  lemma NoneOnly(objects: seq<Object>, o: Object)
    requires !HasId(objects, o.id)
    ensures Only(objects, o)
  {
  }

  lemma InSessionOnly(s: Session, r: Request, orc: Oracle, o: Object)
    requires orc.keys.Valid() && orc.keys.id != Some(o.id) && Only(s.objects, o)
    ensures Only(InSession(s, r, orc).0.objects, o)
  {
    hide Only, HasId, FindObject, Supports, Sign, SharedSecret, KdfSecret, AttributeValues, AllPresent, MatchIds, MayDerive, IsEcdsaKey;
    if r.DeriveKey? && FindObject(s.objects, r.key).Ok? {
      var base := FindObject(s.objects, r.key).value;
      if DeriveEcdh(r.mechanism, base, r.tmpl, orc.keys).Ok? {
        var d := DeriveEcdh(r.mechanism, base, r.tmpl, orc.keys).value;
        OneId(d, o.id);
        NoneOnly([d], o);
        OnlyAppend(s.objects, [d], o);
      }
    }
  }

  lemma LocalUnique(w: World, c: nat, r: Request, orc: Oracle, o: Object)
    requires Unique(w, o) && c in w.conns && w.conns[c].phase.Idle? && r.IsLocal() && orc.keys.Valid() && orc.keys.id != Some(o.id)
    ensures Unique(SetConn(w, c, w.conns[c].(local := Serve(w.conns[c].local, r, orc).0)), o)
  {
    hide InSession, Only;
    assert OnlyIn(w.conns[c], o);
    if r.session in w.conns[c].local.sessions {
      InSessionOnly(w.conns[c].local.sessions[r.session], r, orc, o);
    }
  }

  lemma GenerateUnique(w: World, c: nat, r: Request, g: KeyGen, o: Object)
    requires Unique(w, o) && c in w.conns && w.conns[c].phase.Idle? && r.GenerateKeyPair?
    requires NewKeyPair(r.mechanism, r.pubTmpl, r.privTmpl, g).Ok? ==>
               var (pub, priv) := NewKeyPair(r.mechanism, r.pubTmpl, r.privTmpl, g).value; Only([pub, priv], o)
    ensures Unique(BeginGenerate(w, c, r, g).0, o)
  {
    hide NewKeyPair, Only, IsToken;
    var conn := w.conns[c];
    assert OnlyIn(conn, o);
    if r.session in conn.local.sessions && NewKeyPair(r.mechanism, r.pubTmpl, r.privTmpl, g).Ok? {
      var (pub, priv) := NewKeyPair(r.mechanism, r.pubTmpl, r.privTmpl, g).value;
      OnlyAppend(conn.local.sessions[r.session].objects, [pub, priv], o);
      OnlyAppend([pub], [priv], o);
      assert [pub] + [priv] == [pub, priv];
      assert Only([], o) by { NothingOnly(o); }
      OnlyAppend(if IsToken(pub) then [pub] else [], if IsToken(priv) then [priv] else [], o);
    }
  }

  lemma NothingOnly(o: Object)
    ensures Only([], o)
  {
  }

  lemma PersistUnique(w: World, c: nat, o: Object)
    requires Unique(w, o) && c in w.conns && w.conns[c].phase.Persisting? && w.conns[c].phase.todo != []
    ensures Unique(Persist(w, c).0, o)
  {
    hide Only, FindSlot;
    var todo := w.conns[c].phase.todo;
    assert OnlyIn(w.conns[c], o);
    assert todo == [todo[0]] + todo[1..];
    OnlyAppend([todo[0]], todo[1..], o);
    if FindSlot(w.slots, w.conns[c].phase.slot).Ok? {
      OnlyAppend(w.slots[FindSlot(w.slots, w.conns[c].phase.slot).value].objects, [todo[0]], o);
    }
  }

  lemma OpenUnique(w: World, c: nat, l: Step, o: Object)
    requires Unique(w, o) && c in w.conns && Enabled(w, l) && Avoids(l, o.id)
    requires (l.Begin? && l.c == c && l.request.OpenSession?) || (l.Continue? && l.c == c && w.conns[c].phase.Opening?)
    ensures Unique(Next(w, l).0, o)
  {
    hide Only, FindSlot, FirstFree, HasId, Oracle.Valid, Request.Decoded;
    assert OnlyIn(w.conns[c], o);
    if l.Continue? && l.oracle.dynamicObjects.Ok? {
      NoneOnly(l.oracle.dynamicObjects.value, o);
    }
  }

  lemma StepUnique(w: World, l: Step, o: Object)
    requires Unique(w, o) && Avoids(l, o.id)
    ensures Unique(Next(w, l).0, o)
  {
    hide HasId, Serve, FindSlot, BeginOpen, FinishOpen, BeginGenerate, Persist, Only, NewKeyPair, Request.Decoded;
    if Enabled(w, l) {
      match l
      case Begin(c, r, orc) =>
        if r.IsLocal() {
          LocalUnique(w, c, r, orc, o);
        } else if r.OpenSession? {
          OpenUnique(w, c, l, o);
        } else if r.GenerateKeyPair? {
          if NewKeyPair(r.mechanism, r.pubTmpl, r.privTmpl, orc.gen).Ok? {
            var (pub, priv) := NewKeyPair(r.mechanism, r.pubTmpl, r.privTmpl, orc.gen).value;
            GeneratedPair(r.mechanism, r.pubTmpl, r.privTmpl, orc.gen);
            TwoIds(pub, priv, o.id);
            NoneOnly([pub, priv], o);
          }
          GenerateUnique(w, c, r, orc.gen, o);
        }
      case Continue(c, orc) =>
        if w.conns[c].phase.Opening? {
          OpenUnique(w, c, l, o);
        } else if w.conns[c].phase.todo != [] {
          PersistUnique(w, c, o);
        }
      case _ =>
    }
  }

  lemma {:induction false} RunUnique(w: World, ls: seq<Step>, o: Object)
    requires Unique(w, o) && forall l :: l in ls ==> Avoids(l, o.id)
    ensures Unique(Exec(w, ls), o)
    decreases ls
  {
    hide Next, Unique, Avoids;
    if ls != [] {
      StepUnique(w, ls[0], o);
      RunUnique(Next(w, ls[0]).0, ls[1..], o);
    }
  }

  lemma GeneratedUnique(w: World, c: nat, r: Request, g: KeyGen, pub: Object, priv: Object, o: Object)
    requires c in w.conns && w.conns[c].phase.Idle? && r.GenerateKeyPair?
    requires NewKeyPair(r.mechanism, r.pubTmpl, r.privTmpl, g) == Ok((pub, priv)) && pub.id != priv.id
    requires (o == pub || o == priv) && Absent(w, o.id)
    ensures Unique(BeginGenerate(w, c, r, g).0, o)
  {
    hide NewKeyPair, BeginGenerate, HasId;
    forall i | 0 <= i < |w.slots| ensures Only(w.slots[i].objects, o) {
      NoneOnly(w.slots[i].objects, o);
    }
    forall d | d in w.conns ensures OnlyIn(w.conns[d], o) {
      assert AbsentIn(w.conns[d], o.id);
      AbsentOnly(w.conns[d], o);
    }
    GenerateUnique(w, c, r, g, o);
  }

  lemma AbsentOnly(conn: Conn, o: Object)
    requires AbsentIn(conn, o.id)
    ensures OnlyIn(conn, o)
  {
    hide HasId, Only;
    forall id | id in conn.local.sessions ensures Only(conn.local.sessions[id].objects, o) {
      NoneOnly(conn.local.sessions[id].objects, o);
    }
    if conn.phase.Opening? {
      NoneOnly(conn.phase.snapshot, o);
    }
    if conn.phase.Persisting? {
      NoneOnly(conn.phase.todo, o);
    }
  }

  /** What the placement and uniqueness of an object's identifier say of the object itself. */
  lemma ObjectPlaced(w: World, o: Object, b: Birth, c: nat)
    requires Placed(w, o.id, b) && Unique(w, o) && c in w.conns
    ensures forall id :: id in w.conns[c].local.sessions && id in w.conns[c].origins ==>
              (o in w.conns[c].local.sessions[id].objects <==> Sees(b, c, id, w.conns[c].local.sessions[id], w.conns[c].origins[id]))
    ensures w.conns[c].phase.Persisting? ==> (o in w.conns[c].phase.todo <==> c == b.conn && b.token && b.published.None?)
  {
    hide HasId, Only, Sees, SlotsSee;
    var conn := w.conns[c];
    assert ConnSees(conn, c, o.id, b) && OnlyIn(conn, o);
    forall id | id in conn.local.sessions && id in conn.origins
      ensures o in conn.local.sessions[id].objects <==> Sees(b, c, id, conn.local.sessions[id], conn.origins[id])
    {
      OnlyHas(conn.local.sessions[id].objects, o);
    }
    if conn.phase.Persisting? {
      OnlyHas(conn.phase.todo, o);
    }
  }

  lemma SlotsHold(w: World, o: Object, b: Birth)
    requires Placed(w, o.id, b) && Unique(w, o)
    ensures forall i :: 0 <= i < |w.slots| ==> (o in w.slots[i].objects <==> b.published.Some? && FindSlot(w.slots, b.slot) == Ok(i))
  {
    hide HasId, Only, FindSlot, ConnSees;
    forall i | 0 <= i < |w.slots|
      ensures o in w.slots[i].objects <==> b.published.Some? && FindSlot(w.slots, b.slot) == Ok(i)
    {
      OnlyHas(w.slots[i].objects, o);
    }
  }

  lemma TokenFlag(o: Object)
    ensures IsToken(o) <==> Lookup(o.attributes, CKA_TOKEN).Some? && Lookup(o.attributes, CKA_TOKEN).value.byteVal.GetOr(0) != 0
  {
  }

  /** The main result. After a key pair with new identifiers is generated, and after any further
      interleaving that draws no identifier twice, let b say when, if ever, the persist step for the
      object ran. A live session holds the object, with all its attributes, if and only if it is the
      session that generated it, or the object was persisted on its slot (one without GetObjects)
      before its snapshot; no other slot ever holds it; and it has been persisted if and only if its
      effective CKA_TOKEN is true and it is not still waiting for that in its request. */
  lemma GeneratedVisibility(w: World, c: nat, r: Request, orc: Oracle, pub: Object, priv: Object, o: Object, ls: seq<Step>)
    requires Inv(w) && Enabled(w, Begin(c, r, orc)) && r.GenerateKeyPair? && r.session in w.conns[c].local.sessions
    requires NewKeyPair(r.mechanism, r.pubTmpl, r.privTmpl, orc.gen) == Ok((pub, priv)) && pub.id != priv.id
    requires (o == pub || o == priv) && Absent(w, o.id)
    requires forall l :: l in ls ==> Avoids(l, o.id)
    ensures r.session in w.conns[c].origins && FindSlot(w.slots, w.conns[c].local.sessions[r.session].slotID).Ok?
    ensures var w1 := Next(w, Begin(c, r, orc)).0;
            var v, born := Exec(w1, ls), BirthOf(w, c, r.session, o);
            var b := AfterRun(w1, ls, o.id, born);
            && b == born.(published := b.published)
            && (forall d, id :: d in v.conns && id in v.conns[d].local.sessions ==>
                  id in v.conns[d].origins &&
                  (o in v.conns[d].local.sessions[id].objects <==> Sees(b, d, id, v.conns[d].local.sessions[id], v.conns[d].origins[id])))
            && (forall i :: 0 <= i < |v.slots| ==>
                  (o in v.slots[i].objects <==> b.published.Some? && FindSlot(v.slots, b.slot) == Ok(i)))
            && (b.published.Some? <==>
                  Lookup(o.attributes, CKA_TOKEN).Some? && Lookup(o.attributes, CKA_TOKEN).value.byteVal.GetOr(0) != 0 &&
                  !(c in v.conns && v.conns[c].phase.Persisting? && o in v.conns[c].phase.todo))
  {
    hide HasId, FindSlot, Inv, NewKeyPair, IsToken, Lookup, BeginGenerate, Sees, Avoids, Absent, PhaseSees, SlotsSee, SessionsSee, Unique;
    TokenFlag(o);
    GeneratedPlaced(w, c, r, orc.gen, pub, priv, o);
    GeneratedUnique(w, c, r, orc.gen, pub, priv, o);
    var l := Begin(c, r, orc);
    var w1 := Next(w, l).0;
    assert w1 == BeginGenerate(w, c, r, orc.gen).0;
    NextKeepsInv(w, l);
    var born := BirthOf(w, c, r.session, o);
    RunPlaced(w1, ls, o.id, born);
    RunUnique(w1, ls, o);
    var v, b := Exec(w1, ls), AfterRun(w1, ls, o.id, born);
    forall d, id | d in v.conns && id in v.conns[d].local.sessions
      ensures id in v.conns[d].origins
      ensures o in v.conns[d].local.sessions[id].objects <==> Sees(b, d, id, v.conns[d].local.sessions[id], v.conns[d].origins[id])
    {
      SessionKnown(v, d, id);
      ObjectPlaced(v, o, b, d);
    }
    SlotsHold(v, o, b);
    if c in v.conns {
      ObjectPlaced(v, o, b, c);
    }
  }
}

/** All connections over the shared slots, interleaved at the granularity of the critical sections. */
module Machine {
  import opened Bytes
  import opened Fields
  import opened Objects
  import opened Keygen
  import opened Handles
  import opened Sessions
  import opened Slots

  /** Where a connection is inside a request: between requests, between newSession's snapshot and
      its end, or between the persist steps of C_GenerateKeyPair. */
  datatype Phase =
    | Idle
    | Opening(slot: uint64, dynamic: bool, snapshot: seq<Object>, serial: nat)
    | Persisting(slot: uint64, todo: seq<Object>, pub: uint64, priv: uint64)

  /** History: the logical time of a session's snapshot and the list it started from. */
  datatype Origin = Origin(serial: nat, initial: seq<Object>)

  datatype Conn = Conn(local: Local, phase: Phase, origins: map<uint64, Origin>)

  /** opens counts snapshots taken so far: the logical clock of Origin.serial. */
  datatype World = World(slots: seq<Slot>, conns: map<nat, Conn>, opens: nat)

  datatype Step =
    | Connect(c: nat)
    | Disconnect(c: nat)
    | Begin(c: nat, request: Request, oracle: Oracle)
    | Continue(c: nat, oracle: Oracle)

  type Reply = Option<Outcome<Response>>

  ghost predicate Enabled(w: World, l: Step) {
    match l
    case Connect(c) => c !in w.conns
    case Disconnect(c) => c in w.conns && w.conns[c].phase.Idle?
    case Begin(c, r, o) => c in w.conns && w.conns[c].phase.Idle? && r.Decoded() && o.Valid()
    case Continue(c, o) =>
      c in w.conns && !w.conns[c].phase.Idle? && o.Valid() &&
      (w.conns[c].phase.Opening? ==> |w.conns[c].local.sessions.Keys| < TWO64)
  }

  function SetConn(w: World, c: nat, conn: Conn): World {
    w.(conns := w.conns[c := conn])
  }

  /** C_OpenSession up to and including its critical section. */
  function BeginOpen(w: World, c: nat, slot: uint64, flags: uint64): (World, Reply)
    requires c in w.conns
  {
    if flags / 4 % 2 == 0 then (w, Some(Err(Pkcs11(CKR_SESSION_PARALLEL_NOT_SUPPORTED))))
    else
      match FindSlot(w.slots, slot)
      case Err(e) => (w, Some(Err(e)))
      case Ok(i) =>
        var phase := Opening(slot, w.slots[i].dynamic, w.slots[i].objects, w.opens);
        (SetConn(w, c, w.conns[c].(phase := phase)).(opens := w.opens + 1), None)
  }

  /** The rest of newSession: GetObjects, if any, replaces the snapshot. */
  function FinishOpen(w: World, c: nat, dynamicObjects: Outcome<seq<Object>>): (World, Reply)
    requires c in w.conns && w.conns[c].phase.Opening? && |w.conns[c].local.sessions.Keys| < TWO64
  {
    var conn := w.conns[c];
    var objects := if conn.phase.dynamic then dynamicObjects else Ok(conn.phase.snapshot);
    match objects
    case Err(e) => (SetConn(w, c, conn.(phase := Idle)), Some(Err(e)))
    case Ok(objs) =>
      var (l, id) := Open(conn.local, objs, conn.phase.slot);
      (SetConn(w, c, Conn(l, Idle, conn.origins[id := Origin(conn.phase.serial, objs)])), Some(Ok(Handle(id))))
  }

  function Tokens(pub: Object, priv: Object): seq<Object> {
    (if IsToken(pub) then [pub] else []) + (if IsToken(priv) then [priv] else [])
  }

  /** C_GenerateKeyPair up to its first critical section: the session gets both objects at once. */
  function BeginGenerate(w: World, c: nat, r: Request, g: KeyGen): (World, Reply)
    requires c in w.conns && r.GenerateKeyPair?
  {
    var conn := w.conns[c];
    match SessionOf(conn.local, r.session)
    case Err(e) => (w, Some(Err(e)))
    case Ok(s) =>
      match NewKeyPair(r.mechanism, r.pubTmpl, r.privTmpl, g)
      case Err(e) => (w, Some(Err(e)))
      case Ok((pub, priv)) =>
        var l := With(conn.local, r.session, s.(objects := s.objects + [pub, priv]));
        var todo := Tokens(pub, priv);
        if todo == [] then (SetConn(w, c, conn.(local := l)), Some(Ok(KeyPair(pub.id, priv.id))))
        else (SetConn(w, c, conn.(local := l, phase := Persisting(s.slotID, todo, pub.id, priv.id))), None)
  }

  /** persistObject */
  function Persist(w: World, c: nat): (World, Reply)
    requires c in w.conns && w.conns[c].phase.Persisting? && w.conns[c].phase.todo != []
  {
    var conn := w.conns[c];
    match FindSlot(w.slots, conn.phase.slot)
    case Err(e) => (SetConn(w, c, conn.(phase := Idle)), Some(Err(e)))
    case Ok(i) =>
      var slots := w.slots[i := w.slots[i].(objects := w.slots[i].objects + [conn.phase.todo[0]])];
      if |conn.phase.todo| == 1 then
        (SetConn(w, c, conn.(phase := Idle)).(slots := slots), Some(Ok(KeyPair(conn.phase.pub, conn.phase.priv))))
      else
        (SetConn(w, c, conn.(phase := conn.phase.(todo := conn.phase.todo[1..]))).(slots := slots), None)
  }

  /** handleInitToken's critical section. */
  function Initialize(slots: seq<Slot>, slot: uint64, text: seq<byte>): (seq<Slot>, Outcome<Response>) {
    match FindSlot(slots, slot)
    case Err(e) => (slots, Err(e))
    case Ok(i) =>
      if slots[i].initialized then (slots, Err(Pkcs11(CKR_CRYPTOKI_ALREADY_INITIALIZED)))
      else (slots[i := slots[i].(text := Trim(text), initialized := true)], Ok(Done))
  }

  /** handleGetTokenInfo's critical section. */
  function ReadToken(slots: seq<Slot>, slot: uint64): Outcome<Response> {
    match FindSlot(slots, slot)
    case Err(e) => Err(e)
    case Ok(i) => Ok(TokenInfo(slots[i].text, slots[i].initialized, slots[i].info))
  }

  function BeginRequest(w: World, c: nat, r: Request, o: Oracle): (World, Reply)
    requires c in w.conns && o.keys.Valid()
  {
    if r.IsLocal() then
      var (l, answer) := Serve(w.conns[c].local, r, o);
      (SetConn(w, c, w.conns[c].(local := l)), Some(answer))
    else if r.OpenSession? then BeginOpen(w, c, r.slot, r.flags)
    else if r.GenerateKeyPair? then BeginGenerate(w, c, r, o.gen)
    else if r.InitToken? then
      var (slots, answer) := Initialize(w.slots, r.slot, r.text);
      (w.(slots := slots), Some(answer))
    else (w, Some(ReadToken(w.slots, r.slot)))
  }

  /** One step; a step that is not enabled changes nothing. */
  ghost function Next(w: World, l: Step): (World, Reply) {
    if !Enabled(w, l) then (w, None)
    else
      match l
      case Connect(c) => (SetConn(w, c, Conn(FRESH_LOCAL, Idle, map[])), None)
      case Disconnect(c) => (w.(conns := w.conns - {c}), None)
      case Begin(c, r, o) => BeginRequest(w, c, r, o)
      case Continue(c, o) =>
        if w.conns[c].phase.Opening? then FinishOpen(w, c, o.dynamicObjects)
        else if w.conns[c].phase.todo == [] then (w, None)
        else Persist(w, c)
  }

  /** A whole run, from any interleaving of the connections' steps. */
  ghost function Exec(w: World, ls: seq<Step>): World
    decreases ls
  {
    if ls == [] then w else Exec(Next(w, ls[0]).0, ls[1..])
  }

  lemma {:induction false} ExecAppend(w: World, ls: seq<Step>, ms: seq<Step>)
    ensures Exec(w, ls + ms) == Exec(Exec(w, ls), ms)
    decreases ls
  {
    hide Next;
    if ls == [] {
      assert ls + ms == ms;
    } else {
      assert (ls + ms)[1..] == ls[1..] + ms;
      ExecAppend(Next(w, ls[0]).0, ls[1..], ms);
    }
  }

  // ---------------------------------------------------------------- growth of the slots

  lemma PersistGrows(w: World, c: nat)
    requires c in w.conns && w.conns[c].phase.Persisting? && w.conns[c].phase.todo != []
    ensures SlotsGrow(w.slots, Persist(w, c).0.slots)
  {
  }

  lemma InitializeGrows(slots: seq<Slot>, slot: uint64, text: seq<byte>)
    ensures SlotsGrow(slots, Initialize(slots, slot, text).0)
  {
  }

  /** Every step only appends to slots, and initializes a token at most once. */
  lemma NextGrows(w: World, l: Step)
    ensures SlotsGrow(w.slots, Next(w, l).0.slots)
  {
    hide Serve, NewKeyPair, Open, Persist, Initialize, Request.Decoded, FindSlot;
    if Enabled(w, l) {
      match l
      case Begin(c, r, o) =>
        if r.InitToken? {
          InitializeGrows(w.slots, r.slot, r.text);
        }
      case Continue(c, o) =>
        if w.conns[c].phase.Persisting? && w.conns[c].phase.todo != [] {
          PersistGrows(w, c);
        }
      case _ =>
    }
  }

  /** So over any run each slot's object list is a prefix of what it becomes, Initialized never
      goes back to false, and the label is fixed once it is set. */
  lemma {:induction false} RunGrows(w: World, ls: seq<Step>)
    ensures SlotsGrow(w.slots, Exec(w, ls).slots)
    decreases ls
  {
    hide Next, SlotGrows;
    if ls == [] {
      assert forall i :: 0 <= i < |w.slots| ==> SlotGrows(w.slots[i], w.slots[i]) by { ReflexiveGrowth(w.slots); }
    } else {
      NextGrows(w, ls[0]);
      RunGrows(Next(w, ls[0]).0, ls[1..]);
      GrowsTransitive(w.slots, Next(w, ls[0]).0.slots, Exec(w, ls).slots);
    }
  }

  lemma ReflexiveGrowth(slots: seq<Slot>)
    ensures SlotsGrow(slots, slots)
  {
  }

  // ---------------------------------------------------------------- the invariant

  predicate SlotsTyped(slots: seq<Slot>) {
    forall i :: 0 <= i < |slots| ==> AllTyped(slots[i].objects)
  }

  /** A list taken from a slot is still a prefix of it. */
  predicate PrefixOfSlot(objects: seq<Object>, slots: seq<Slot>, slot: uint64) {
    FindSlot(slots, slot).Ok? && (slots[FindSlot(slots, slot).value].dynamic || objects <= slots[FindSlot(slots, slot).value].objects)
  }

  /** A live session's slot resolves, it started from a list that is still a prefix of the slot's
      (unless the slot is dynamic), and it has only appended to that list. */
  predicate SessionOrigin(s: Session, origin: Origin, slots: seq<Slot>, opens: nat) {
    PrefixOfSlot(origin.initial, slots, s.slotID) && origin.initial <= s.objects && origin.serial < opens
  }

  predicate OriginsOk(conn: Conn, slots: seq<Slot>, opens: nat) {
    forall id :: id in conn.local.sessions ==>
      id in conn.origins && SessionOrigin(conn.local.sessions[id], conn.origins[id], slots, opens)
  }

  predicate PhaseOk(conn: Conn, slots: seq<Slot>, opens: nat) {
    match conn.phase
    case Idle => true
    case Opening(slot, dynamic, snapshot, serial) =>
      && PrefixOfSlot(snapshot, slots, slot) && dynamic == slots[FindSlot(slots, slot).value].dynamic
      && AllTyped(snapshot) && serial < opens
      && forall id :: id in conn.local.sessions && id in conn.origins ==> conn.origins[id].serial < serial
    case Persisting(slot, todo, _, _) => FindSlot(slots, slot).Ok? && AllTyped(todo) && todo != []
  }

  predicate ConnOk(conn: Conn, slots: seq<Slot>, opens: nat) {
    LocalOk(conn.local) && OriginsOk(conn, slots, opens) && PhaseOk(conn, slots, opens)
  }

  predicate Inv(w: World) {
    SlotsTyped(w.slots) && forall c :: c in w.conns ==> ConnOk(w.conns[c], w.slots, w.opens)
  }

  /** Before any connection: objects come from the package's constructors. */
  predicate Initial(w: World) {
    w.conns == map[] && SlotsTyped(w.slots)
  }

  lemma PrefixFrame(objects: seq<Object>, a: seq<Slot>, b: seq<Slot>, slot: uint64)
    requires SlotsGrow(a, b) && PrefixOfSlot(objects, a, slot)
    ensures PrefixOfSlot(objects, b, slot)
  {
    hide FindSlot;
    GrowingSlots(a, b, slot);
    assert SlotGrows(a[FindSlot(a, slot).value], b[FindSlot(a, slot).value]);
  }

  /** Other connections' steps keep a connection's invariant. */
  lemma ConnFrame(conn: Conn, a: seq<Slot>, b: seq<Slot>, m: nat, n: nat)
    requires ConnOk(conn, a, m) && SlotsGrow(a, b) && m <= n
    ensures ConnOk(conn, b, n)
  {
    hide LocalOk, AllTyped, FindSlot, PrefixOfSlot, SlotGrows;
    forall id | id in conn.local.sessions
      ensures id in conn.origins && SessionOrigin(conn.local.sessions[id], conn.origins[id], b, n)
    {
      PrefixFrame(conn.origins[id].initial, a, b, conn.local.sessions[id].slotID);
    }
    match conn.phase
    case Idle =>
    case Opening(slot, _, snapshot, _) =>
      PrefixFrame(snapshot, a, b, slot);
      SameKind(snapshot, a, b, slot);
    case Persisting(slot, _, _, _) =>
      GrowingSlots(a, b, slot);
  }

  lemma SameKind(objects: seq<Object>, a: seq<Slot>, b: seq<Slot>, slot: uint64)
    requires SlotsGrow(a, b) && PrefixOfSlot(objects, a, slot)
    ensures FindSlot(b, slot) == FindSlot(a, slot) && b[FindSlot(a, slot).value].dynamic == a[FindSlot(a, slot).value].dynamic
  {
    hide FindSlot;
    GrowingSlots(a, b, slot);
    assert SlotGrows(a[FindSlot(a, slot).value], b[FindSlot(a, slot).value]);
  }

  /** A step of connection c that leaves the others' records alone keeps the invariant if c's new
      record is sound. */
  lemma OnlyConn(w: World, v: World, c: nat)
    requires Inv(w) && SlotsGrow(w.slots, v.slots) && SlotsTyped(v.slots) && w.opens <= v.opens
    requires v.conns.Keys == w.conns.Keys + {c} && forall d :: d in w.conns && d != c ==> v.conns[d] == w.conns[d]
    requires ConnOk(v.conns[c], v.slots, v.opens)
    ensures Inv(v)
  {
    hide ConnOk, SlotsGrow, SlotsTyped;
    forall d | d in v.conns ensures ConnOk(v.conns[d], v.slots, v.opens) {
      if d != c {
        ConnFrame(w.conns[d], w.slots, v.slots, w.opens, v.opens);
      }
    }
  }

  lemma ServeKeepsOrigins(conn: Conn, r: Request, o: Oracle, slots: seq<Slot>, opens: nat)
    requires r.IsLocal() && o.keys.Valid() && LocalOk(conn.local) && OriginsOk(conn, slots, opens)
    ensures OriginsOk(conn.(local := Serve(conn.local, r, o).0), slots, opens)
  {
    hide InSession, SessionOk, PrefixOfSlot;
    if r.session in conn.local.sessions {
      InSessionKeepsOk(conn.local.sessions[r.session], r, o);
    }
  }

  lemma LocalKeepsInv(w: World, c: nat, r: Request, o: Oracle)
    requires Inv(w) && c in w.conns && w.conns[c].phase.Idle? && r.IsLocal() && o.Valid()
    ensures Inv(SetConn(w, c, w.conns[c].(local := Serve(w.conns[c].local, r, o).0)))
  {
    hide Serve, LocalOk, OriginsOk, SlotsTyped;
    ServeKeepsOk(w.conns[c].local, r, o);
    ServeKeepsOrigins(w.conns[c], r, o, w.slots, w.opens);
    ReflexiveGrowth(w.slots);
    OnlyConn(w, SetConn(w, c, w.conns[c].(local := Serve(w.conns[c].local, r, o).0)), c);
  }

  lemma BeginOpenKeepsInv(w: World, c: nat, slot: uint64, flags: uint64)
    requires Inv(w) && c in w.conns && w.conns[c].phase.Idle?
    ensures Inv(BeginOpen(w, c, slot, flags).0)
  {
    hide LocalOk, FindSlot, SessionOk, AllTyped;
    var v := BeginOpen(w, c, slot, flags).0;
    if v != w {
      var conn := w.conns[c];
      forall id | id in conn.local.sessions
        ensures SessionOrigin(conn.local.sessions[id], conn.origins[id], v.slots, v.opens)
      {
      }
      ReflexiveGrowth(w.slots);
      OnlyConn(w, v, c);
    }
  }

  lemma OpenKeepsOk(l: Local, objects: seq<Object>, slot: uint64)
    requires LocalOk(l) && AllTyped(objects) && |l.sessions.Keys| < TWO64
    ensures LocalOk(Open(l, objects, slot).0)
  {
    hide FirstFree, AllTyped;
  }

  lemma FinishOpenKeepsInv(w: World, c: nat, dynamicObjects: Outcome<seq<Object>>)
    requires Inv(w) && c in w.conns && w.conns[c].phase.Opening? && |w.conns[c].local.sessions.Keys| < TWO64
    requires dynamicObjects.Ok? ==> AllTyped(dynamicObjects.value)
    ensures Inv(FinishOpen(w, c, dynamicObjects).0)
  {
    hide LocalOk, FindSlot, SessionOk, AllTyped, FirstFree, SlotsTyped;
    var v := FinishOpen(w, c, dynamicObjects).0;
    var conn := w.conns[c];
    var objects := if conn.phase.dynamic then dynamicObjects else Ok(conn.phase.snapshot);
    if objects.Ok? {
      OpenKeepsOk(conn.local, objects.value, conn.phase.slot);
    }
    ReflexiveGrowth(w.slots);
    OnlyConn(w, v, c);
  }

  lemma GenerateKeepsOk(l: Local, id: uint64, pub: Object, priv: Object)
    requires LocalOk(l) && id in l.sessions && pub.WellTyped() && priv.WellTyped()
    ensures LocalOk(With(l, id, l.sessions[id].(objects := l.sessions[id].objects + [pub, priv])))
  {
    hide Object.WellTyped;
  }

  lemma BeginGenerateKeepsInv(w: World, c: nat, r: Request, g: KeyGen)
    requires Inv(w) && c in w.conns && w.conns[c].phase.Idle? && r.GenerateKeyPair? && r.Decoded()
    ensures Inv(BeginGenerate(w, c, r, g).0)
  {
    hide LocalOk, FindSlot, SessionOk, IsToken, Object.WellTyped, SlotsTyped, NewKeyPair, PrefixOfSlot;
    var conn := w.conns[c];
    if r.session in conn.local.sessions && NewKeyPair(r.mechanism, r.pubTmpl, r.privTmpl, g).Ok? {
      var (pub, priv) := NewKeyPair(r.mechanism, r.pubTmpl, r.privTmpl, g).value;
      GeneratedPair(r.mechanism, r.pubTmpl, r.privTmpl, g);
      GenerateKeepsOk(conn.local, r.session, pub, priv);
      assert SessionOrigin(conn.local.sessions[r.session], conn.origins[r.session], w.slots, w.opens);
      SlotResolves(conn, r.session, w.slots, w.opens);
      ReflexiveGrowth(w.slots);
      OnlyConn(w, BeginGenerate(w, c, r, g).0, c);
    }
  }

  lemma SlotResolves(conn: Conn, id: uint64, slots: seq<Slot>, opens: nat)
    requires OriginsOk(conn, slots, opens) && id in conn.local.sessions
    ensures FindSlot(slots, conn.local.sessions[id].slotID).Ok?
  {
    hide FindSlot;
  }

  lemma PersistKeepsInv(w: World, c: nat)
    requires Inv(w) && c in w.conns && w.conns[c].phase.Persisting?
    ensures w.conns[c].phase.todo != [] && Inv(Persist(w, c).0)
    ensures Persist(w, c).1 != None ==> Persist(w, c).1.value.Ok?
  {
    hide LocalOk, SessionOk, Object.WellTyped, OriginsOk;
    var v := Persist(w, c).0;
    PersistGrows(w, c);
    assert SlotsTyped(v.slots);
    ConnFrame(w.conns[c], w.slots, v.slots, w.opens, v.opens);
    assert OriginsOk(v.conns[c], v.slots, v.opens) by { OriginsOnly(w.conns[c], v.conns[c], v.slots, v.opens); }
    OnlyConn(w, v, c);
  }

  lemma OriginsOnly(a: Conn, b: Conn, slots: seq<Slot>, opens: nat)
    requires a.local == b.local && a.origins == b.origins && OriginsOk(a, slots, opens)
    ensures OriginsOk(b, slots, opens)
  {
  }

  lemma SlotsOnly(w: World, slots: seq<Slot>)
    requires Inv(w) && SlotsGrow(w.slots, slots) && SlotsTyped(slots)
    ensures Inv(w.(slots := slots))
  {
    hide ConnOk, SlotsGrow, SlotsTyped;
    forall d | d in w.conns ensures ConnOk(w.conns[d], slots, w.opens) {
      ConnFrame(w.conns[d], w.slots, slots, w.opens, w.opens);
    }
  }

  /** The invariant holds in every reachable state. */
  lemma NextKeepsInv(w: World, l: Step)
    requires Inv(w)
    ensures Inv(Next(w, l).0)
  {
    hide Serve, NewKeyPair, ConnOk, SlotsTyped, FindSlot, BeginOpen, FinishOpen, BeginGenerate, Persist, SlotsGrow;
    if Enabled(w, l) {
      match l
      case Connect(c) =>
        ReflexiveGrowth(w.slots);
        assert ConnOk(Conn(FRESH_LOCAL, Idle, map[]), w.slots, w.opens) by { FreshOk(w.slots, w.opens); }
        OnlyConn(w, Next(w, l).0, c);
      case Disconnect(c) =>
      case Begin(c, r, o) =>
        if r.IsLocal() {
          LocalKeepsInv(w, c, r, o);
        } else if r.OpenSession? {
          BeginOpenKeepsInv(w, c, r.slot, r.flags);
        } else if r.GenerateKeyPair? {
          BeginGenerateKeepsInv(w, c, r, o.gen);
        } else if r.InitToken? {
          InitializeGrows(w.slots, r.slot, r.text);
          InitializeTyped(w.slots, r.slot, r.text);
          SlotsOnly(w, Initialize(w.slots, r.slot, r.text).0);
        }
      case Continue(c, o) =>
        if w.conns[c].phase.Opening? {
          FinishOpenKeepsInv(w, c, o.dynamicObjects);
        } else {
          PersistKeepsInv(w, c);
        }
    }
  }

  lemma FreshOk(slots: seq<Slot>, opens: nat)
    ensures ConnOk(Conn(FRESH_LOCAL, Idle, map[]), slots, opens)
  {
  }

  lemma InitializeTyped(slots: seq<Slot>, slot: uint64, text: seq<byte>)
    requires SlotsTyped(slots)
    ensures SlotsTyped(Initialize(slots, slot, text).0)
  {
    hide AllTyped;
  }

  lemma {:induction false} RunKeepsInv(w: World, ls: seq<Step>)
    requires Inv(w)
    ensures Inv(Exec(w, ls))
    decreases ls
  {
    hide Next, Inv;
    if ls != [] {
      NextKeepsInv(w, ls[0]);
      RunKeepsInv(Next(w, ls[0]).0, ls[1..]);
    }
  }

  // ---------------------------------------------------------------- failure atomicity

  /** Two worlds differ at most in where connections are inside their requests. */
  predicate SameData(w: World, v: World) {
    && v.slots == w.slots && v.opens == w.opens && v.conns.Keys == w.conns.Keys
    && forall c :: c in w.conns ==> v.conns[c].local == w.conns[c].local && v.conns[c].origins == w.conns[c].origins
  }

  /** A request that is answered with an error leaves every session, the last handle and every slot
      as they were: at the step that answers, nothing changes, and once C_GenerateKeyPair has added
      objects it cannot fail any more, because its session's slot resolves. */
  lemma FailureAtomic(w: World, l: Step)
    requires Inv(w) && Next(w, l).1.Some? && Next(w, l).1.value.Err?
    ensures SameData(w, Next(w, l).0)
    ensures l.Begin? || (l.Continue? && w.conns[l.c].phase.Opening?)
    ensures l.Begin? ==> Next(w, l).0 == w
  {
    hide Serve, NewKeyPair, ConnOk, SlotsTyped, FindSlot, Open, Persist;
    match l
    case Connect(c) =>
    case Disconnect(c) =>
    case Begin(c, r, o) =>
      assert SetConn(w, c, w.conns[c]) == w;
      if r.IsLocal() {
        FailedServe(w.conns[c].local, r, o);
        assert w.conns[c].(local := w.conns[c].local) == w.conns[c];
      }
    case Continue(c, o) =>
      if w.conns[c].phase.Persisting? {
        PersistKeepsInv(w, c);
      }
  }
}

/** From a request body to a response body: what each call reads, does and writes. */
module Requests {
  import opened Bytes
  import opened Wire
  import opened Attributes
  import opened Fields
  import opened Encodings
  import opened Bodies
  import opened Objects
  import opened Keygen
  import opened Handles
  import opened Sessions
  import opened Slots
  import opened Machine

  const CALL_ERROR: uint32 := 0
  const CALL_INITIALIZE: uint32 := 1
  const CALL_FINALIZE: uint32 := 2
  const CALL_GET_INFO: uint32 := 3
  const CALL_GET_SLOT_LIST: uint32 := 4
  const CALL_GET_SLOT_INFO: uint32 := 5
  const CALL_GET_TOKEN_INFO: uint32 := 6
  const CALL_GET_MECHANISM_LIST: uint32 := 7
  const CALL_GET_MECHANISM_INFO: uint32 := 8
  const CALL_INIT_TOKEN: uint32 := 9
  const CALL_OPEN_SESSION: uint32 := 10
  const CALL_CLOSE_SESSION: uint32 := 11
  const CALL_GET_SESSION_INFO: uint32 := 13
  const CALL_LOGIN: uint32 := 18
  const CALL_LOGOUT: uint32 := 19
  const CALL_GET_ATTRIBUTE_VALUE: uint32 := 24
  const CALL_FIND_OBJECTS_INIT: uint32 := 26
  const CALL_FIND_OBJECTS: uint32 := 27
  const CALL_FIND_OBJECTS_FINAL: uint32 := 28
  const CALL_SIGN_INIT: uint32 := 42
  const CALL_SIGN: uint32 := 43
  const CALL_SIGN_UPDATE: uint32 := 44
  const CALL_SIGN_FINAL: uint32 := 45
  const CALL_GENERATE_KEY_PAIR: uint32 := 59
  const CALL_DERIVE_KEY: uint32 := 62
  const CALL_SEED_RANDOM: uint32 := 63
  const CALL_GENERATE_RANDOM: uint32 := 64

  /** Calls whose handlers change nothing. */
  predicate Stateless(call: uint32) {
    call in {CALL_INITIALIZE, CALL_GET_INFO, CALL_GET_SLOT_LIST, CALL_GET_SLOT_INFO, CALL_GET_MECHANISM_LIST,
             CALL_GET_MECHANISM_INFO, CALL_GET_SESSION_INFO, CALL_LOGIN, CALL_LOGOUT, CALL_SEED_RANDOM, CALL_GENERATE_RANDOM}
  }

  /** The fields each stateful handler reads, in order; empty for other calls. */
  function FieldsOf(call: uint32): (fs: seq<Field>)
    ensures AllReadable(fs)
  {
    if call == CALL_GET_TOKEN_INFO || call == CALL_CLOSE_SESSION || call == CALL_FIND_OBJECTS_FINAL then [FUlong]
    else if call == CALL_OPEN_SESSION then [FUlong, FUlong]
    else if call == CALL_INIT_TOKEN then [FUlong, FByteArray, FZeroString]
    else if call == CALL_GET_ATTRIBUTE_VALUE then [FUlong, FUlong, FAttributeBuffer]
    else if call == CALL_FIND_OBJECTS_INIT then [FUlong, FAttributeArray]
    else if call == CALL_FIND_OBJECTS then [FUlong, FUlongBuffer]
    else if call == CALL_SIGN_INIT then [FUlong, FMechanism, FUlong]
    else if call == CALL_SIGN then [FUlong, FByteArray, FByteBuffer]
    else if call == CALL_SIGN_UPDATE then [FUlong, FByteArray]
    else if call == CALL_SIGN_FINAL then [FUlong, FByteBuffer]
    else if call == CALL_GENERATE_KEY_PAIR then [FUlong, FMechanism, FAttributeArray, FAttributeArray]
    else if call == CALL_DERIVE_KEY then [FUlong, FMechanism, FUlong, FAttributeArray]
    else []
  }

  /** The value has the shape its field's reader produces. */
  predicate Shaped(v: Value, f: Field) {
    match f
    case FAttributeArray => v.VAttributes? && AllWellTyped(v.attrs)
    case FAttributeBuffer => v.VTemplates?
    case FByte => v.VByte?
    case FByteArray => v.VBytes?
    case FByteBuffer => v.VCount?
    case FUlongBuffer => v.VCount?
    case FMechanism => v.VMechanism?
    case FUlong => v.VUlong?
    case FZeroString => v.VText?
    case _ => false
  }

  predicate AllShaped(vs: seq<Value>, fs: seq<Field>) {
    |vs| == |fs| && forall i :: 0 <= i < |vs| ==> Shaped(vs[i], fs[i])
  }

  lemma FieldShape(f: Field, b: seq<byte>)
    requires f.Readable() && GetField(f, b).Got?
    ensures Shaped(GetField(f, b).value, f)
  {
    hide GetU32, GetU64, GetByteArray, GetMechanism, GetAttributes, GetTemplates, AllWellTyped;
    if f.FAttributeArray? {
      assert AllWellTyped([]) by { NoneTyped(); }
      DecodedAllWellTyped([], GetU32(b).value, GetU32(b).rest);
    }
  }

  lemma NoneTyped()
    ensures AllWellTyped([])
  {
  }

  lemma {:induction false} FieldsShape(fs: seq<Field>, b: seq<byte>)
    requires AllReadable(fs) && GetFields(fs, b).Got?
    ensures AllShaped(GetFields(fs, b).value, fs)
    decreases fs
  {
    hide GetField, Shaped;
    if fs != [] {
      FieldShape(fs[0], b);
      FieldsShape(fs[1..], GetField(fs[0], b).rest);
    }
  }

  /** The request a parsed stateful call stands for. */
  function Make(call: uint32, vs: seq<Value>): (r: Request)
    requires FieldsOf(call) != [] && AllShaped(vs, FieldsOf(call))
    ensures r.Decoded()
  {
    if call == CALL_GET_TOKEN_INFO then GetTokenInfo(vs[0].n)
    else if call == CALL_CLOSE_SESSION then CloseSession(vs[0].n)
    else if call == CALL_FIND_OBJECTS_FINAL then FindObjectsFinal(vs[0].n)
    else if call == CALL_OPEN_SESSION then OpenSession(vs[0].n, vs[1].n)
    else if call == CALL_INIT_TOKEN then InitToken(vs[0].n, vs[2].text)
    else if call == CALL_GET_ATTRIBUTE_VALUE then GetAttributeValue(vs[0].n, vs[1].n, vs[2].tmpl)
    else if call == CALL_FIND_OBJECTS_INIT then FindObjectsInit(vs[0].n, vs[1].attrs)
    else if call == CALL_FIND_OBJECTS then FindObjects(vs[0].n, vs[1].count)
    else if call == CALL_SIGN_INIT then SignInit(vs[0].n, vs[1].m, vs[2].n)
    else if call == CALL_SIGN then SignOnce(vs[0].n, vs[1].arr)
    else if call == CALL_SIGN_UPDATE then SignUpdate(vs[0].n, vs[1].arr)
    else if call == CALL_SIGN_FINAL then SignFinal(vs[0].n)
    else if call == CALL_GENERATE_KEY_PAIR then GenerateKeyPair(vs[0].n, vs[1].m, vs[2].attrs, vs[3].attrs)
    else DeriveKey(vs[0].n, vs[1].m, vs[2].n, vs[3].attrs)
  }

  /** Reading a stateful request: its fields, then req.err(). */
  function ParseRequest(b: BodyValue): (r: Outcome<Request>)
    requires FieldsOf(b.call) != []
    ensures r.Ok? ==> r.value.Decoded()
  {
    var (after, vs) := ReadFields(FieldsOf(b.call), b);
    if after.Err().Some? then Err(after.Err().value)
    else
      assert b.error.None? by {
        if b.error.Some? { ErrorSticks(FieldsOf(b.call), b); }
      }
      ReadsExactly(FieldsOf(b.call), b);
      FieldsShape(FieldsOf(b.call), b.buffer);
      Ok(Make(b.call, vs))
  }

  /** A client's encoding of a stateful request parses to that request. */
  lemma RequestRoundTrip(call: uint32, vs: seq<Value>)
    requires FieldsOf(call) != [] && AllSendable(vs, FieldsOf(call))
    ensures AllShaped(vs, FieldsOf(call))
    ensures ParseRequest(BodyValue(call, Codes(FieldsOf(call)), PutValues(vs, FieldsOf(call)), None)) == Ok(Make(call, vs))
  {
    hide FieldsOf, Make, Sendable, Shaped, ReadFields, GetFields, Codes, PutValues;
    var fs := FieldsOf(call);
    BodyRoundTrip(call, vs, fs);
    FieldsRoundTrip(vs, fs, []);
    FieldsShape(fs, PutValues(vs, fs) + []);
    assert PutValues(vs, fs) + [] == PutValues(vs, fs);
  }

  // ---------------------------------------------------------------- a request without interference

  function PersistAll(slots: seq<Slot>, slot: uint64, todo: seq<Object>): (seq<Slot>, Outcome<()>)
    decreases todo
  {
    if todo == [] then (slots, Ok(()))
    else
      match FindSlot(slots, slot)
      case Err(e) => (slots, Err(e))
      case Ok(i) => PersistAll(slots[i := slots[i].(objects := slots[i].objects + [todo[0]])], slot, todo[1..])
  }

  function NewSession(l: Local, slots: seq<Slot>, slot: uint64, dynamicObjects: Outcome<seq<Object>>): (Local, Outcome<uint64>)
    requires |l.sessions.Keys| < TWO64
  {
    match FindSlot(slots, slot)
    case Err(e) => (l, Err(e))
    case Ok(i) =>
      match (if slots[i].dynamic then dynamicObjects else Ok(slots[i].objects))
      case Err(e) => (l, Err(e))
      case Ok(objects) => var (l', id) := Open(l, objects, slot); (l', Ok(id))
  }

  function Generate(l: Local, slots: seq<Slot>, r: Request, g: KeyGen): (Local, seq<Slot>, Outcome<Response>)
    requires r.GenerateKeyPair?
  {
    match SessionOf(l, r.session)
    case Err(e) => (l, slots, Err(e))
    case Ok(s) =>
      match NewKeyPair(r.mechanism, r.pubTmpl, r.privTmpl, g)
      case Err(e) => (l, slots, Err(e))
      case Ok((pub, priv)) =>
        var l' := With(l, r.session, s.(objects := s.objects + [pub, priv]));
        match PersistAll(slots, s.slotID, Tokens(pub, priv))
        case (slots', Err(e)) => (l', slots', Err(e))
        case (slots', Ok(_)) => (l', slots', Ok(KeyPair(pub.id, priv.id)))
  }

  /** A whole request, with no other connection in between. */
  function Perform(l: Local, slots: seq<Slot>, r: Request, o: Oracle): (Local, seq<Slot>, Outcome<Response>)
    requires o.keys.Valid() && |l.sessions.Keys| < TWO64
  {
    if r.IsLocal() then
      var (l', answer) := Serve(l, r, o);
      (l', slots, answer)
    else if r.OpenSession? then
      if r.flags / 4 % 2 == 0 then (l, slots, Err(Pkcs11(CKR_SESSION_PARALLEL_NOT_SUPPORTED)))
      else
        match NewSession(l, slots, r.slot, o.dynamicObjects)
        case (l', Err(e)) => (l', slots, Err(e))
        case (l', Ok(id)) => (l', slots, Ok(Handle(id)))
    else if r.GenerateKeyPair? then Generate(l, slots, r, o.gen)
    else if r.InitToken? then
      var (slots', answer) := Initialize(slots, r.slot, r.text);
      (l, slots', answer)
    else (l, slots, ReadToken(slots, r.slot))
  }

  /** The machine's steps for one request of an idle connection, taken in a row. */
  function StepsOf(c: nat, r: Request, o: Oracle): seq<Step> {
    [Begin(c, r, o)] + (if r.OpenSession? then [Continue(c, o)] else if r.GenerateKeyPair? then [Continue(c, o), Continue(c, o)] else [])
  }

  /** The answer a run of one connection's steps gives. */
  ghost function LastReply(w: World, ls: seq<Step>): Reply
    decreases ls
  {
    if ls == [] then None
    else
      var later := LastReply(Next(w, ls[0]).0, ls[1..]);
      if later.Some? then later else Next(w, ls[0]).1
  }

  lemma RunOne(w: World, a: Step)
    ensures Exec(w, [a]) == Next(w, a).0 && LastReply(w, [a]) == Next(w, a).1
  {
    hide Next;
    assert [a][1..] == [];
    assert LastReply(Next(w, a).0, []) == None;
  }

  lemma RunMore(w: World, a: Step, ls: seq<Step>)
    ensures var v := Next(w, a).0;
            Exec(w, [a] + ls) == Exec(v, ls) && LastReply(w, [a] + ls) == if LastReply(v, ls).Some? then LastReply(v, ls) else Next(w, a).1
  {
    hide Next;
    assert ([a] + ls)[1..] == ls;
  }

  /** Perform is what the interleaving machine does when nobody interferes: it ends idle again, with
      the same sessions, slots and answer. */
  lemma UninterruptedRequest(w: World, c: nat, r: Request, o: Oracle)
    requires c in w.conns && w.conns[c].phase.Idle? && r.Decoded() && o.Valid() && |w.conns[c].local.sessions.Keys| < TWO64
    requires r.GenerateKeyPair? && r.session in w.conns[c].local.sessions ==> FindSlot(w.slots, w.conns[c].local.sessions[r.session].slotID).Ok?
    ensures var v, reply := Exec(w, StepsOf(c, r, o)), LastReply(w, StepsOf(c, r, o));
            c in v.conns && v.conns[c].phase.Idle? && reply.Some? &&
            (v.conns[c].local, v.slots, reply.value) == Perform(w.conns[c].local, w.slots, r, o)
  {
    hide Serve, NewKeyPair, IsToken, FindSlot, Initialize, ReadToken, Request.Decoded, Exec, Open, LastReply;
    var l := Begin(c, r, o);
    if r.OpenSession? {
      RunMore(w, l, [Continue(c, o)]);
      RunOne(Next(w, l).0, Continue(c, o));
    } else if r.GenerateKeyPair? {
      UninterruptedGenerate(w, c, r, o);
    } else {
      RunOne(w, l);
      assert StepsOf(c, r, o) == [l];
    }
  }

  lemma UninterruptedGenerate(w: World, c: nat, r: Request, o: Oracle)
    requires c in w.conns && w.conns[c].phase.Idle? && r.GenerateKeyPair? && r.Decoded() && o.Valid()
    requires r.session in w.conns[c].local.sessions ==> FindSlot(w.slots, w.conns[c].local.sessions[r.session].slotID).Ok?
    ensures var v, reply := Exec(w, StepsOf(c, r, o)), LastReply(w, StepsOf(c, r, o));
            c in v.conns && v.conns[c].phase.Idle? && reply.Some? &&
            (v.conns[c].local, v.slots, reply.value) == Generate(w.conns[c].local, w.slots, r, o.gen)
  {
    hide NewKeyPair, FindSlot, Request.Decoded, IsToken, Oracle.Valid, Exec, LastReply;
    var l, go := w.conns[c].local, Continue(c, o);
    var w1 := Next(w, Begin(c, r, o)).0;
    var w2 := Next(w1, go).0;
    RunMore(w, Begin(c, r, o), [go, go]);
    RunMore(w1, go, [go]);
    RunOne(w2, go);
    assert [go, go] == [go] + [go];
    assert StepsOf(c, r, o) == [Begin(c, r, o)] + [go, go];
    assert w1 == BeginGenerate(w, c, r, o.gen).0;
    if r.session in l.sessions && NewKeyPair(r.mechanism, r.pubTmpl, r.privTmpl, o.gen).Ok? {
      var (pub, priv) := NewKeyPair(r.mechanism, r.pubTmpl, r.privTmpl, o.gen).value;
      var todo, slot := Tokens(pub, priv), l.sessions[r.session].slotID;
      if todo != [] {
        PersistOne(w1, c, o);
        assert PersistAll(w.slots, slot, todo) == PersistAll(w2.slots, slot, todo[1..]);
        if |todo| == 2 {
          SlotsSameIds(w1.slots, FindSlot(w1.slots, slot).value, todo[0], slot);
          PersistOne(w2, c, o);
          var w3 := Next(w2, go).0;
          assert PersistAll(w2.slots, slot, todo[1..]) == PersistAll(w3.slots, slot, todo[1..][1..]);
          assert PersistAll(w3.slots, slot, []) == (w3.slots, Ok(()));
          assert todo[1..][1..] == [];
        } else {
          assert todo[1..] == [] && PersistAll(w2.slots, slot, []) == (w2.slots, Ok(()));
        }
      }
    }
  }

  lemma SlotsSameIds(slots: seq<Slot>, i: nat, o: Object, slot: uint64)
    requires i < |slots|
    ensures FindSlot(slots[i := slots[i].(objects := slots[i].objects + [o])], slot) == FindSlot(slots, slot)
  {
    SameSlot(slots, slots[i := slots[i].(objects := slots[i].objects + [o])], slot);
  }

  lemma PersistOne(w: World, c: nat, o: Oracle)
    requires c in w.conns && w.conns[c].phase.Persisting? && w.conns[c].phase.todo != [] && o.Valid()
    requires FindSlot(w.slots, w.conns[c].phase.slot).Ok?
    ensures var v, i, phase := Next(w, Continue(c, o)).0, FindSlot(w.slots, w.conns[c].phase.slot).value, w.conns[c].phase;
            && c in v.conns && v.conns[c].local == w.conns[c].local
            && v.slots == w.slots[i := w.slots[i].(objects := w.slots[i].objects + [phase.todo[0]])]
            && v.conns[c].phase == (if |phase.todo| == 1 then Idle else phase.(todo := phase.todo[1..]))
            && Next(w, Continue(c, o)).1 == if |phase.todo| == 1 then Some(Ok(KeyPair(phase.pub, phase.priv))) else None
  {
    hide FindSlot;
  }

  // ---------------------------------------------------------------- responses

  const MAX64: uint64 := 0xffff_ffff_ffff_ffff

  function PutText(s: seq<byte>, n: uint32): (p: seq<byte>)
    ensures |p| == 4 + n
  {
    U32(n) + Padded(s, n)
  }

  function PutVersion(v: (byte, byte)): seq<byte> {
    [v.0, v.1]
  }

  const TOKEN_TEXTS: seq<Field> := [FString, FString, FString, FString]
  const TOKEN_NUMBERS: seq<Field> :=
    [FUlong, FUlong, FUlong, FUlong, FUlong, FUlong, FUlong, FUlong, FUlong, FUlong, FUlong]
  const TOKEN_TAIL: seq<Field> := [FVersion, FVersion, FString]

  /** After the flags: session limits and counts, PIN lengths, and memory sizes. 0 stands for no
      limit or no use, the maximum for unavailable information. */
  const TOKEN_LIMITS: seq<uint64> := [0, MAX64, 0, MAX64, 0, 0, MAX64, MAX64, MAX64, MAX64]

  function PutTokenInfo(text: seq<byte>, initialized: bool, info: TokenDetails): seq<byte> {
    PutText(text, 32) + PutText(info.manufacturer, 32) + PutText(info.model, 16) + PutText(info.serial, 16) +
    U64(if initialized then 0x400 else 0) + PutUlongs(TOKEN_LIMITS) +
    PutVersion(info.hardware) + PutVersion(info.firmware) + PutText([], 16)
  }

  /** The fields and contents of a successful answer. */
  function AnswerFields(a: Response): seq<Field> {
    match a
    case Done => []
    case Handle(_) => [FUlong]
    case Ids(_) => [FUlongArray]
    case Values(_, _) => [FAttributeArray, FUlong]
    case Signature(_) => [FByteArray]
    case KeyPair(_, _) => [FUlong, FUlong]
    case TokenInfo(_, _, _) => TOKEN_TEXTS + TOKEN_NUMBERS + TOKEN_TAIL
  }

  function AnswerBytes(a: Response): seq<byte> {
    match a
    case Done => []
    case Handle(n) => U64(n)
    case Ids(ids) => PutUlongArray(Some(ids), Length32(ids))
    case Values(attrs, status) => PutValue(VAttributes(attrs), FAttributeArray) + U64(status)
    case Signature(sig) => PutValue(VBytes(Data(sig), Length32(sig)), FByteArray)
    case KeyPair(pub, priv) => U64(pub) + U64(priv)
    case TokenInfo(text, initialized, info) => PutTokenInfo(text, initialized, info)
  }

  function Render(call: uint32, a: Response): BodyValue {
    BodyValue(call, Codes(AnswerFields(a)), AnswerBytes(a), None)
  }

  function ErrorBody(code: uint64): BodyValue {
    BodyValue(CALL_ERROR, Code(FUlong), U64(code), None)
  }

  /** A client reads a C_GetAttributeValue answer back as exactly the attributes and the status. */
  lemma AttributeAnswerDecodes(call: uint32, attrs: seq<Attribute>, status: uint64)
    requires |attrs| < TWO32 && AllWellTyped(attrs) && AllWireSafe(attrs)
    ensures var (b, vs) := ReadFields([FAttributeArray, FUlong], Render(call, Values(attrs, status)));
            b.Err().None? && vs == [VAttributes(attrs), VUlong(status)]
  {
    hide AllWellTyped, AllWireSafe, PutAttributes, ReadFields, GetField;
    var vs, fs := [VAttributes(attrs), VUlong(status)], [FAttributeArray, FUlong];
    assert vs[1..] == [VUlong(status)] && fs[1..] == [FUlong] && vs[1..][1..] == [];
    assert PutValues([], []) == [];
    assert PutValues([VUlong(status)], [FUlong]) == U64(status) + [];
    assert PutValues(vs, fs) == PutValue(VAttributes(attrs), FAttributeArray) + U64(status);
    BodyRoundTrip(call, vs, fs);
  }

  /** An error answer carries exactly one ulong, the code. */
  lemma ErrorDecodes(code: uint64)
    ensures var (b, vs) := ReadFields([FUlong], ErrorBody(code)); b.Err().None? && vs == [VUlong(code)]
  {
    hide ReadFields;
    var vs, fs := [VUlong(code)], [FUlong];
    assert vs[1..] == [] && fs[1..] == [] && PutValues([], []) == [] && Codes([]) == [];
    assert PutValues(vs, fs) == U64(code) + [];
    assert Codes(fs) == Code(FUlong) + [];
    assert U64(code) + [] == U64(code) && Code(FUlong) + [] == Code(FUlong);
    BodyRoundTrip(CALL_ERROR, vs, fs);
  }

  /** What one request may draw on: library results, the answers of the stateless handlers, and what
      other connections made of the slots since this connection's last request. */
  datatype Environment = Environment(
    oracle: Oracle,
    stateless: BodyValue -> Outcome<(seq<byte>, seq<byte>)>,
    others: seq<Slot> -> seq<Slot>)
  {
    /** Other connections only make the slots grow: RunGrows. */
    ghost predicate Valid() {
      oracle.Valid() && forall slots :: SlotsGrow(slots, others(slots))
    }
  }

  /** Dispatch of one request in the Handle loop. */
  function HandleOne(l: Local, slots: seq<Slot>, b: BodyValue, env: Environment): (r: (Local, seq<Slot>, Outcome<BodyValue>))
    requires env.oracle.Valid() && |l.sessions.Keys| < TWO64
    ensures r.2.Ok? ==> r.2.value.call == b.call
  {
    if b.call == CALL_FINALIZE then (l, slots, Ok(b))
    else if Stateless(b.call) then
      match env.stateless(b)
      case Err(e) => (l, slots, Err(e))
      case Ok((signature, fields)) => (l, slots, Ok(BodyValue(b.call, signature, fields, None)))
    else if FieldsOf(b.call) == [] then (l, slots, Err(Pkcs11(CKR_FUNCTION_NOT_SUPPORTED)))
    else
      match ParseRequest(b)
      case Err(e) => (l, slots, Err(e))
      case Ok(r) =>
        var (l', slots', answer) := Perform(l, slots, r, env.oracle);
        (l', slots', if answer.Err? then Err(answer.error) else Ok(Render(b.call, answer.value)))
  }

  // ---------------------------------------------------------------- failures

  /** Every session's slot exists, as newSession checked when it opened it. */
  predicate Resolved(l: Local, slots: seq<Slot>) {
    forall id :: id in l.sessions ==> FindSlot(slots, l.sessions[id].slotID).Ok?
  }

  lemma {:induction false} PersistSucceeds(slots: seq<Slot>, slot: uint64, todo: seq<Object>)
    requires FindSlot(slots, slot).Ok?
    ensures PersistAll(slots, slot, todo).1.Ok? && SlotsGrow(slots, PersistAll(slots, slot, todo).0)
    decreases todo
  {
    hide FindSlot;
    if todo == [] {
      ReflexiveGrowth(slots);
    } else {
      var i := FindSlot(slots, slot).value;
      var slots1 := slots[i := slots[i].(objects := slots[i].objects + [todo[0]])];
      SlotsSameIds(slots, i, todo[0], slot);
      PersistSucceeds(slots1, slot, todo[1..]);
      GrowsTransitive(slots, slots1, PersistAll(slots1, slot, todo[1..]).0);
    }
  }

  lemma StillResolved(l: Local, a: seq<Slot>, b: seq<Slot>)
    requires Resolved(l, a) && SlotsGrow(a, b)
    ensures Resolved(l, b)
  {
    hide FindSlot, SlotsGrow;
    forall id | id in l.sessions ensures FindSlot(b, l.sessions[id].slotID).Ok? {
      GrowingSlots(a, b, l.sessions[id].slotID);
    }
  }

  lemma FailedGenerate(l: Local, slots: seq<Slot>, r: Request, g: KeyGen)
    requires r.GenerateKeyPair? && Resolved(l, slots)
    ensures var (l', slots', answer) := Generate(l, slots, r, g);
            (answer.Err? ==> l' == l && slots' == slots) && SlotsGrow(slots, slots') && Resolved(l', slots')
  {
    hide FindSlot, NewKeyPair, SlotsGrow, IsToken;
    ReflexiveGrowth(slots);
    if SessionOf(l, r.session).Ok? && NewKeyPair(r.mechanism, r.pubTmpl, r.privTmpl, g).Ok? {
      var s := l.sessions[r.session];
      var (pub, priv) := NewKeyPair(r.mechanism, r.pubTmpl, r.privTmpl, g).value;
      PersistSucceeds(slots, s.slotID, Tokens(pub, priv));
      StillResolved(l, slots, PersistAll(slots, s.slotID, Tokens(pub, priv)).0);
    }
  }

  lemma FailedOpen(l: Local, slots: seq<Slot>, slot: uint64, dynamicObjects: Outcome<seq<Object>>)
    requires |l.sessions.Keys| < TWO64 && Resolved(l, slots)
    ensures var (l', answer) := NewSession(l, slots, slot, dynamicObjects);
            (answer.Err? ==> l' == l) && Resolved(l', slots)
  {
    hide FindSlot, FirstFree;
  }

  lemma LocalResolved(l: Local, slots: seq<Slot>, r: Request, o: Oracle)
    requires r.IsLocal() && o.keys.Valid() && Resolved(l, slots)
    ensures Resolved(Serve(l, r, o).0, slots)
  {
    hide FindSlot, InSession;
    if r.session in l.sessions {
      SameSlotID(l.sessions[r.session], r, o);
    }
  }

  lemma FailedPerform(l: Local, slots: seq<Slot>, r: Request, o: Oracle)
    requires o.keys.Valid() && |l.sessions.Keys| < TWO64 && Resolved(l, slots)
    ensures var (l', slots', answer) := Perform(l, slots, r, o);
            (answer.Err? ==> l' == l && slots' == slots) && SlotsGrow(slots, slots') && Resolved(l', slots')
  {
    hide Serve, NewSession, Generate, Initialize, ReadToken, Resolved, SlotsGrow;
    ReflexiveGrowth(slots);
    if r.IsLocal() {
      if Serve(l, r, o).1.Err? {
        FailedServe(l, r, o);
      }
      LocalResolved(l, slots, r, o);
    } else if r.OpenSession? {
      FailedOpen(l, slots, r.slot, o.dynamicObjects);
    } else if r.GenerateKeyPair? {
      FailedGenerate(l, slots, r, o.gen);
    } else if r.InitToken? {
      FailedInit(slots, r.slot, r.text);
      StillResolved(l, slots, Initialize(slots, r.slot, r.text).0);
    }
  }

  lemma FailedInit(slots: seq<Slot>, slot: uint64, text: seq<byte>)
    ensures Initialize(slots, slot, text).1.Err? ==> Initialize(slots, slot, text).0 == slots
    ensures SlotsGrow(slots, Initialize(slots, slot, text).0)
  {
    InitializeGrows(slots, slot, text);
  }

  /** Whatever bytes arrive as a request, malformed or not: if the outcome is an error then no
      session, handle counter or slot has changed. */
  lemma FailedRequest(l: Local, slots: seq<Slot>, b: BodyValue, env: Environment)
    requires env.oracle.Valid() && |l.sessions.Keys| < TWO64 && Resolved(l, slots)
    ensures var (l', slots', out) := HandleOne(l, slots, b, env);
            (out.Err? ==> l' == l && slots' == slots) && SlotsGrow(slots, slots') && Resolved(l', slots')
  {
    hide ParseRequest, Perform, FieldsOf, Stateless, Render, Resolved, SlotsGrow;
    ReflexiveGrowth(slots);
    if FieldsOf(b.call) != [] && ParseRequest(b).Ok? {
      FailedPerform(l, slots, ParseRequest(b).value, env.oracle);
    }
  }
}

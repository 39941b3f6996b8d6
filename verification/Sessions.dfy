/** One connection's sessions as values, and every request that touches only them. */
module Sessions {
  import opened Bytes
  import opened Attributes
  import opened Fields
  import opened Objects
  import opened Crypto
  import opened Keygen
  import opened Handles

  datatype Session = Session(
    objects: seq<Object>,
    findMatches: seq<uint64>,
    signMechanism: Mechanism,
    signObject: Object,
    signData: seq<byte>,
    slotID: uint64)

  const NO_MECHANISM: Mechanism := Mechanism(0, NoParams)

  function Opened(objects: seq<Object>, slotID: uint64): Session {
    Session(objects, [], NO_MECHANISM, NO_OBJECT, [], slotID)
  }

  /** The mutable part of the per-connection handler. */
  datatype Local = Local(lastSessionID: uint64, sessions: map<uint64, Session>)

  const FRESH_LOCAL: Local := Local(0, map[])

  datatype Request =
    | CloseSession(session: uint64)
    | FindObjectsInit(session: uint64, tmpl: seq<Attribute>)
    | FindObjects(session: uint64, count: uint32)
    | FindObjectsFinal(session: uint64)
    | GetAttributeValue(session: uint64, object: uint64, types: seq<Template>)
    | SignInit(session: uint64, mechanism: Mechanism, key: uint64)
    | SignOnce(session: uint64, data: Slice)
    | SignUpdate(session: uint64, data: Slice)
    | SignFinal(session: uint64)
    | DeriveKey(session: uint64, mechanism: Mechanism, key: uint64, tmpl: seq<Attribute>)
    | GenerateKeyPair(session: uint64, mechanism: Mechanism, pubTmpl: seq<Attribute>, privTmpl: seq<Attribute>)
    | OpenSession(slot: uint64, flags: uint64)
    | InitToken(slot: uint64, text: seq<byte>)
    | GetTokenInfo(slot: uint64)
  {
    /** Requests that touch neither the slots nor, in any way, another connection. */
    predicate IsLocal() {
      !GenerateKeyPair? && !OpenSession? && !InitToken? && !GetTokenInfo?
    }

    /** Templates that came through the decoder. */
    predicate Decoded() {
      && (FindObjectsInit? || DeriveKey? ==> AllWellTyped(tmpl))
      && (GenerateKeyPair? ==> AllWellTyped(pubTmpl) && AllWellTyped(privTmpl))
    }
  }

  /** The fixed fields of a token's description. */
  datatype TokenDetails = TokenDetails(
    manufacturer: seq<byte>, model: seq<byte>, serial: seq<byte>, hardware: (byte, byte), firmware: (byte, byte))

  datatype Response =
    | Done
    | Handle(handle: uint64)
    | Ids(ids: seq<uint64>)
    | Values(attrs: seq<Attribute>, status: uint64)
    | Signature(bytes: seq<byte>)
    | KeyPair(pub: uint64, priv: uint64)
    | TokenInfo(text: seq<byte>, initialized: bool, info: TokenDetails)

  /** Library results one request may need. */
  datatype Oracle = Oracle(signer: Signer, keys: KeyEnv, gen: KeyGen, dynamicObjects: Outcome<seq<Object>>) {
    ghost predicate Valid() {
      keys.Valid() && (dynamicObjects.Ok? ==> AllTyped(dynamicObjects.value))
    }
  }

  predicate AllTyped(objects: seq<Object>) {
    forall o :: o in objects ==> o.WellTyped()
  }

  lemma OracleKeys(o: Oracle)
    requires o.Valid()
    ensures o.keys.Valid()
  {
  }

  /** session.object: the first object with the identifier. */
  function FindObject(objects: seq<Object>, id: uint64): (r: Outcome<Object>)
    ensures r.Ok? ==> r.value in objects && r.value.id == id
    ensures r.Err? <==> forall o :: o in objects ==> o.id != id
    ensures r.Err? ==> r.error == Pkcs11(CKR_OBJECT_HANDLE_INVALID)
  {
    if objects == [] then Err(Pkcs11(CKR_OBJECT_HANDLE_INVALID))
    else if objects[0].id == id then Ok(objects[0])
    else FindObject(objects[1..], id)
  }

  /** Identifiers of the objects matching every template entry, in object order. */
  function MatchIds(objects: seq<Object>, tmpl: seq<Attribute>): seq<uint64> {
    if objects == [] then []
    else
      MatchIds(objects[..|objects| - 1], tmpl) +
      if MatchesAll(objects[|objects| - 1].attributes, tmpl) then [objects[|objects| - 1].id] else []
  }

  /** session.find appends to whatever is still queued. */
  function Find(s: Session, tmpl: seq<Attribute>): Session {
    s.(findMatches := s.findMatches + MatchIds(s.objects, tmpl))
  }

  function FindNext(s: Session, max: nat): (Session, seq<uint64>) {
    if max >= |s.findMatches| then (s.(findMatches := []), s.findMatches)
    else (s.(findMatches := s.findMatches[max..]), s.findMatches[..max])
  }

  /** session.attributeValue: one entry per requested type, empty where the object has none. */
  function AttributeValues(o: Object, types: seq<Template>): seq<Attribute> {
    seq(|types|, i requires 0 <= i < |types| => Lookup(o.attributes, types[i].typ).GetOr(Empty(types[i].typ)))
  }

  predicate AllPresent(o: Object, types: seq<Template>) {
    forall t :: t in types ==> Lookup(o.attributes, t.typ).Some?
  }

  function SessionOf(l: Local, id: uint64): Outcome<Session> {
    if id in l.sessions then Ok(l.sessions[id]) else Err(Pkcs11(CKR_SESSION_HANDLE_INVALID))
  }

  function With(l: Local, id: uint64, s: Session): Local {
    l.(sessions := l.sessions[id := s])
  }

  /** Opens a session on an object list. */
  function Open(l: Local, objects: seq<Object>, slotID: uint64): (Local, uint64)
    requires |l.sessions.Keys| < TWO64
  {
    var id := FirstFree(l.lastSessionID, l.sessions.Keys);
    (Local(id, l.sessions[id := Opened(objects, slotID)]), id)
  }

  /** A request inside one session: its new state and the answer. */
  function InSession(s: Session, r: Request, o: Oracle): (Session, Outcome<Response>)
    requires o.keys.Valid()
  {
    match r
    case FindObjectsInit(_, tmpl) => (Find(s, tmpl), Ok(Done))
    case FindObjects(_, count) => var (s', ids) := FindNext(s, count); (s', Ok(Ids(ids)))
    case GetAttributeValue(_, id, types) =>
      (match FindObject(s.objects, id)
       case Err(e) => (s, Err(e))
       case Ok(obj) => (s, Ok(Values(AttributeValues(obj, types), if AllPresent(obj, types) then 0 else CKR_ATTRIBUTE_TYPE_INVALID))))
    case SignInit(_, m, key) =>
      (match FindObject(s.objects, key)
       case Err(e) => (s, Err(e))
       case Ok(obj) => if Supports(obj, m).Err? then (s, Err(Supports(obj, m).error)) else (s.(signMechanism := m, signObject := obj), Ok(Done)))
    case SignOnce(_, data) =>
      (match Sign(s.signObject, s.signMechanism, data.Content(), o.signer)
       case Err(e) => (s, Err(e))
       case Ok(sig) => (s, Ok(Signature(sig))))
    case SignUpdate(_, data) => (s.(signData := s.signData + data.Content()), Ok(Done))
    case SignFinal(_) =>
      (match Sign(s.signObject, s.signMechanism, s.signData, o.signer)
       case Err(e) => (s, Err(e))
       case Ok(sig) => (s, Ok(Signature(sig))))
    case DeriveKey(_, m, key, tmpl) =>
      (match FindObject(s.objects, key)
       case Err(e) => (s, Err(e))
       case Ok(base) => DeriveInto(s, m, base, tmpl, o.keys))
    case _ => (s, Ok(Done))
  }

  function DeriveInto(s: Session, m: Mechanism, base: Object, tmpl: seq<Attribute>, keys: KeyEnv): (Session, Outcome<Response>)
    requires keys.Valid()
  {
    if m.typ != CKM_ECDH1_DERIVE then (s, Err(Pkcs11(CKR_MECHANISM_INVALID)))
    else
      match DeriveEcdh(m, base, tmpl, keys)
      case Err(e) => (s, Err(e))
      case Ok(derived) => (s.(objects := s.objects + [derived]), Ok(Handle(derived.id)))
  }

  /** A local request. C_FindObjectsFinal neither looks its session up nor clears the queue. */
  function Serve(l: Local, r: Request, o: Oracle): (Local, Outcome<Response>)
    requires r.IsLocal() && o.keys.Valid()
  {
    if r.FindObjectsFinal? then (l, Ok(Done))
    else if SessionOf(l, r.session).Err? then (l, Err(SessionOf(l, r.session).error))
    else if r.CloseSession? then (l.(sessions := l.sessions - {r.session}), Ok(Done))
    else
      var (s, answer) := InSession(l.sessions[r.session], r, o);
      (With(l, r.session, s), answer)
  }

  /** Failure atomicity inside one session, and of every local request. */
  lemma FailedInSession(s: Session, r: Request, o: Oracle)
    requires o.keys.Valid() && InSession(s, r, o).1.Err?
    ensures InSession(s, r, o).0 == s
  {
    hide FindObject, Supports, Sign, DeriveEcdh, AttributeValues, AllPresent, MatchIds;
  }

  lemma FailedServe(l: Local, r: Request, o: Oracle)
    requires r.IsLocal() && o.keys.Valid() && Serve(l, r, o).1.Err?
    ensures Serve(l, r, o).0 == l
  {
    hide InSession;
    if r.session in l.sessions && !r.FindObjectsFinal? && !r.CloseSession? {
      FailedInSession(l.sessions[r.session], r, o);
      assert l.sessions[r.session := l.sessions[r.session]] == l.sessions;
    }
  }

  lemma SameSlotID(s: Session, r: Request, o: Oracle)
    requires o.keys.Valid()
    ensures InSession(s, r, o).0.slotID == s.slotID
  {
    hide FindObject, Supports, Sign, DeriveEcdh, AttributeValues, AllPresent, MatchIds;
  }

  /** The signing pair is the zero value or a key that supports its mechanism. */
  predicate SignPairOk(s: Session) {
    (s.signObject == NO_OBJECT && s.signMechanism == NO_MECHANISM) || Supports(s.signObject, s.signMechanism).Ok?
  }

  /** The key is of the type its mechanism signs with. */
  predicate KeyFits(k: PrivateKey, m: Mechanism) {
    if k.public.EcPublic? then m.typ == CKM_ECDSA
    else k.public.RsaPublic? && (m.typ == CKM_RSA_PKCS || m.typ == CKM_RSA_PKCS_PSS)
  }

  /** Signing as it would be with no branch for an unsupported mechanism or a key of another type. */
  function SignByKey(k: PrivateKey, m: Mechanism, data: seq<byte>, signer: Signer): Outcome<seq<byte>>
    requires KeyFits(k, m)
  {
    if m.typ == CKM_RSA_PKCS_PSS then SignPss(k, m, data, signer)
    else if !m.NoParameters() then Err(Pkcs11(CKR_ARGUMENTS_BAD))
    else if k.public.RsaPublic? then signer.rsaPkcs(k, data)
    else
      match signer.ecdsa(k, data)
      case None => Err(Internal)
      case Some((r, t)) => RawSignature(r, t, k.public.curve.ByteLen())
  }

  /** So those two branches of sign are dead. Before any C_SignInit the answer is
      CKR_KEY_HANDLE_INVALID; after one, the key fits its mechanism and sign is SignByKey, where
      CKR_MECHANISM_INVALID can only come from the signer itself. */
  lemma SignBranches(s: Session, data: seq<byte>, signer: Signer)
    requires SignPairOk(s)
    ensures s.signObject.priv.None? ==> Sign(s.signObject, s.signMechanism, data, signer) == Err(Pkcs11(CKR_KEY_HANDLE_INVALID))
    ensures s.signObject.priv.Some? ==>
              var k, m := s.signObject.priv.value, s.signMechanism;
              var answer := Sign(s.signObject, m, data, signer);
              && (m.typ == CKM_ECDSA || m.typ == CKM_RSA_PKCS || m.typ == CKM_RSA_PKCS_PSS)
              && KeyFits(k, m) && answer == SignByKey(k, m, data, signer)
              && (answer == Err(Pkcs11(CKR_MECHANISM_INVALID)) ==>
                    (m.typ == CKM_RSA_PKCS && signer.rsaPkcs(k, data) == answer) ||
                    (m.params.Pss? && signer.rsaPss(k, m.params.hashAlg, m.params.saltLen, data) == answer))
  {
    hide BitLen, BE;
  }

  predicate SessionOk(s: Session) {
    AllTyped(s.objects) && SignPairOk(s)
  }

  predicate LocalOk(l: Local) {
    forall id :: id in l.sessions ==> SessionOk(l.sessions[id])
  }

  lemma InSessionKeepsOk(s: Session, r: Request, o: Oracle)
    requires o.keys.Valid() && SessionOk(s)
    ensures SessionOk(InSession(s, r, o).0)
    ensures InSession(s, r, o).0.slotID == s.slotID && s.objects <= InSession(s, r, o).0.objects
  {
    hide FindObject, Supports, Sign, DeriveEcdh, AttributeValues, AllPresent, MatchIds, Object.WellTyped;
    if r.DeriveKey? && FindObject(s.objects, r.key).Ok? && DeriveEcdh(r.mechanism, FindObject(s.objects, r.key).value, r.tmpl, o.keys).Ok? {
      DerivedKey(r.mechanism, FindObject(s.objects, r.key).value, r.tmpl, o.keys);
    }
  }

  lemma ServeKeepsOk(l: Local, r: Request, o: Oracle)
    requires r.IsLocal() && o.keys.Valid() && LocalOk(l)
    ensures LocalOk(Serve(l, r, o).0)
  {
    hide InSession, SessionOk;
    if r.session in l.sessions {
      InSessionKeepsOk(l.sessions[r.session], r, o);
    }
  }

  /** A C_GetAttributeValue answer lists the lookups in the order requested, and its status is zero
      exactly when every type was present. With the codec's bounds it decodes to just that. */
  lemma AttributeAnswer(s: Session, id: uint64, types: seq<Template>, o: Oracle)
    requires o.keys.Valid() && AllTyped(s.objects) && FindObject(s.objects, id).Ok?
    ensures var obj := FindObject(s.objects, id).value;
            var answer := InSession(s, GetAttributeValue(0, id, types), o).1;
            && answer.Ok? && answer.value.Values? && |answer.value.attrs| == |types|
            && AllWellTyped(answer.value.attrs)
            && (forall i :: 0 <= i < |types| ==>
                  answer.value.attrs[i].typ == types[i].typ &&
                  answer.value.attrs[i] == Lookup(obj.attributes, types[i].typ).GetOr(Empty(types[i].typ)))
            && (answer.value.status == 0 <==> forall i :: 0 <= i < |types| ==> Lookup(obj.attributes, types[i].typ).Some?)
            && (answer.value.status == 0 || answer.value.status == 0x12)
  {
    hide Lookup;
    var obj := FindObject(s.objects, id).value;
    assert obj.WellTyped();
    var attrs := AttributeValues(obj, types);
    forall a | a in attrs ensures a.WellTyped() {
      var i :| 0 <= i < |attrs| && attrs[i] == a;
    }
  }

  /** Pages taken one after another. */
  function Pages(s: Session, counts: seq<nat>): (Session, seq<uint64>)
    decreases counts
  {
    if counts == [] then (s, [])
    else
      var (s1, page) := FindNext(s, counts[0]);
      var (s2, rest) := Pages(s1, counts[1..]);
      (s2, page + rest)
  }

  function Sum(counts: seq<nat>): nat {
    if counts == [] then 0 else counts[0] + Sum(counts[1..])
  }

  function Min(a: nat, b: nat): nat {
    if a <= b then a else b
  }

  /** Pages of sizes c1..ck return exactly the first min(n, c1 + ... + ck) queued matches, in order,
      and leave the rest. */
  lemma {:induction false} PagesInOrder(s: Session, counts: seq<nat>)
    ensures var n := Min(|s.findMatches|, Sum(counts));
            Pages(s, counts) == (s.(findMatches := s.findMatches[n..]), s.findMatches[..n])
    decreases counts
  {
    if counts != [] {
      var q := s.findMatches;
      var k := Min(|q|, counts[0]);
      assert q[|q|..] == [] && q[..|q|] == q;
      assert FindNext(s, counts[0]) == (s.(findMatches := q[k..]), q[..k]);
      PagesInOrder(s.(findMatches := q[k..]), counts[1..]);
      SliceTwice(q, k, Min(|q| - k, Sum(counts[1..])));
    } else {
      assert s.findMatches[0..] == s.findMatches;
    }
  }

  lemma SliceTwice(q: seq<uint64>, k: nat, j: nat)
    requires k + j <= |q|
    ensures q[k..][j..] == q[k + j..] && q[..k] + q[k..][..j] == q[..k + j]
  {
  }

  /** A search after C_FindObjectsInit returns exactly its matches if and only if nothing was left
      queued: C_FindObjectsFinal does not clear the queue. */
  lemma SearchExact(s: Session, tmpl: seq<Attribute>, counts: seq<nat>)
    requires Sum(counts) >= |s.findMatches| + |MatchIds(s.objects, tmpl)|
    ensures Pages(Find(s, tmpl), counts).1 == s.findMatches + MatchIds(s.objects, tmpl)
    ensures Pages(Find(s, tmpl), counts).1 == MatchIds(s.objects, tmpl) <==> s.findMatches == []
  {
    PagesInOrder(Find(s, tmpl), counts);
  }

  /** The match list contains exactly the matching objects' identifiers, in object order. */
  lemma {:induction false} MatchIdsSound(objects: seq<Object>, tmpl: seq<Attribute>, id: uint64)
    ensures id in MatchIds(objects, tmpl) <==> exists o :: o in objects && o.id == id && MatchesAll(o.attributes, tmpl)
  {
    hide MatchesAll;
    if objects != [] {
      var init, last := objects[..|objects| - 1], objects[|objects| - 1];
      MatchIdsSound(init, tmpl, id);
      assert objects == init + [last];
    }
  }

  lemma {:induction false} MatchIdsAppend(a: seq<Object>, b: seq<Object>, tmpl: seq<Attribute>)
    ensures MatchIds(a + b, tmpl) == MatchIds(a, tmpl) + MatchIds(b, tmpl)
    decreases b
  {
    hide MatchesAll;
    if b == [] {
      assert a + b == a;
    } else {
      MatchIdsAppend(a, b[..|b| - 1], tmpl);
      assert (a + b)[..|a + b| - 1] == a + b[..|b| - 1];
    }
  }
}

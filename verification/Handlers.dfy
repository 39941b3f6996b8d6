/** The objects of p11kit.go: the shared server, a connection's handler and its sessions, updated in
    place. Each method is proved against the functions of Sessions and Requests. */
module Handlers {
  import opened Bytes
  import opened Attributes
  import opened Fields
  import opened Objects
  import opened Crypto
  import opened Keygen
  import opened Handles
  import opened Sessions
  import opened Slots
  import opened Machine
  import opened Requests

  /** The Handler value all connections share. */
  class Server {
    var slots: seq<Slot>

    constructor (slots: seq<Slot>)
      ensures this.slots == slots
    {
      this.slots := slots;
    }

    method FindSlotIndex(id: uint64) returns (r: Outcome<nat>)
      ensures r == FindSlot(slots, id)
    {
      for i := 0 to |slots|
        invariant forall j :: 0 <= j < i ==> slots[j].id != id
      {
        if slots[i].id == id {
          FirstSlot(slots, id, i);
          return Ok(i);
        }
      }
      return Err(Pkcs11(CKR_SLOT_ID_INVALID));
    }

    /** persistObject */
    method PersistObject(slot: uint64, o: Object) returns (r: Outcome<()>)
      modifies this
      ensures (slots, r) == PersistAll(old(slots), slot, [o])
    {
      hide FindSlot;
      var i := FindSlotIndex(slot);
      if i.Err? {
        return Err(i.error);
      }
      slots := slots[i.value := slots[i.value].(objects := slots[i.value].objects + [o])];
      assert [o][1..] == [] && PersistAll(slots, slot, []) == (slots, Ok(()));
      return Ok(());
    }

    method InitToken(slot: uint64, text: seq<byte>) returns (answer: Outcome<Response>)
      modifies this
      ensures (slots, answer) == Initialize(old(slots), slot, text)
    {
      hide FindSlot;
      var i := FindSlotIndex(slot);
      if i.Err? {
        return Err(i.error);
      }
      if slots[i.value].initialized {
        return Err(Pkcs11(CKR_CRYPTOKI_ALREADY_INITIALIZED));
      }
      slots := slots[i.value := slots[i.value].(text := Trim(text), initialized := true)];
      return Ok(Done);
    }

    method TokenInfoOf(slot: uint64) returns (answer: Outcome<Response>)
      ensures answer == ReadToken(slots, slot)
    {
      hide FindSlot;
      var i := FindSlotIndex(slot);
      if i.Err? {
        return Err(i.error);
      }
      return Ok(TokenInfo(slots[i.value].text, slots[i.value].initialized, slots[i.value].info));
    }
  }

  lemma {:induction false} FirstSlot(slots: seq<Slot>, id: uint64, i: nat)
    requires i < |slots| && slots[i].id == id && forall j :: 0 <= j < i ==> slots[j].id != id
    ensures FindSlot(slots, id) == Ok(i)
  {
    if i > 0 {
      FirstSlot(slots[1..], id, i - 1);
    }
  }

  lemma {:induction false} FirstObject(objects: seq<Object>, id: uint64, i: nat)
    requires i < |objects| && objects[i].id == id && forall j :: 0 <= j < i ==> objects[j].id != id
    ensures FindObject(objects, id) == Ok(objects[i])
  {
    if i > 0 {
      FirstObject(objects[1..], id, i - 1);
    }
  }

  /** session */
  class LiveSession {
    var objects: seq<Object>
    var findMatches: seq<uint64>
    var signMechanism: Mechanism
    var signObject: Object
    var signData: seq<byte>
    const slotID: uint64

    constructor (objects: seq<Object>, slotID: uint64)
      ensures Value() == Opened(objects, slotID)
    {
      this.objects := objects;
      this.findMatches := [];
      this.signMechanism := NO_MECHANISM;
      this.signObject := NO_OBJECT;
      this.signData := [];
      this.slotID := slotID;
    }

    function Value(): Session
      reads this
    {
      Session(objects, findMatches, signMechanism, signObject, signData, slotID)
    }

    method ObjectWith(id: uint64) returns (r: Outcome<Object>)
      ensures r == FindObject(objects, id)
    {
      for i := 0 to |objects|
        invariant forall j :: 0 <= j < i ==> objects[j].id != id
      {
        if objects[i].id == id {
          FirstObject(objects, id, i);
          return Ok(objects[i]);
        }
      }
      return Err(Pkcs11(CKR_OBJECT_HANDLE_INVALID));
    }

    method Find(tmpl: seq<Attribute>)
      modifies this
      ensures Value() == Sessions.Find(old(Value()), tmpl)
    {
      hide Matches;
      assert objects[..0] == [];
      for i := 0 to |objects|
        invariant objects == old(objects)
        invariant Value() == old(Value()).(findMatches := old(findMatches) + MatchIds(objects[..i], tmpl))
      {
        assert objects[..i + 1][..i] == objects[..i];
        var all := true;
        var k := 0;
        while k < |tmpl| && all
          invariant 0 <= k <= |tmpl|
          invariant all <==> forall j :: 0 <= j < k ==> Matches(objects[i].attributes, tmpl[j])
        {
          all := Matches(objects[i].attributes, tmpl[k]);
          k := k + 1;
        }
        assert all <==> MatchesAll(objects[i].attributes, tmpl);
        if all {
          findMatches := findMatches + [objects[i].id];
        }
      }
      assert objects[..|objects|] == objects;
    }

    method FindNext(max: nat) returns (ids: seq<uint64>)
      modifies this
      ensures (Value(), ids) == Sessions.FindNext(old(Value()), max)
    {
      var m := findMatches;
      if max >= |m| {
        findMatches := [];
        return m;
      }
      findMatches := m[max..];
      return m[..max];
    }

    method AttributeValue(id: uint64, types: seq<Template>) returns (r: Outcome<(seq<Attribute>, bool)>)
      ensures r == match FindObject(objects, id)
                   case Err(e) => Err(e)
                   case Ok(o) => Ok((AttributeValues(o, types), AllPresent(o, types)))
    {
      hide Lookup, FindObject;
      var found := ObjectWith(id);
      if found.Err? {
        return Err(found.error);
      }
      var o := found.value;
      var allValid := true;
      var attrs: seq<Attribute> := [];
      for i := 0 to |types|
        invariant attrs == AttributeValues(o, types)[..i]
        invariant allValid <==> forall j :: 0 <= j < i ==> Lookup(o.attributes, types[j].typ).Some?
      {
        var a := Lookup(o.attributes, types[i].typ);
        if a.None? {
          attrs := attrs + [Empty(types[i].typ)];
          allValid := false;
        } else {
          attrs := attrs + [a.value];
        }
      }
      assert attrs == AttributeValues(o, types);
      return Ok((attrs, allValid));
    }

    method SignInit(m: Mechanism, key: uint64) returns (answer: Outcome<Response>)
      modifies this
      ensures forall o: Oracle :: o.keys.Valid() ==> (Value(), answer) == InSession(old(Value()), Request.SignInit(0, m, key), o)
    {
      hide FindObject, Supports;
      var obj := ObjectWith(key);
      if obj.Err? {
        return Err(obj.error);
      }
      var ok := Supports(obj.value, m);
      if ok.Err? {
        return Err(ok.error);
      }
      signMechanism := m;
      signObject := obj.value;
      return Ok(Done);
    }

    method DeriveKey(m: Mechanism, key: uint64, tmpl: seq<Attribute>, keys: KeyEnv) returns (answer: Outcome<Response>)
      requires keys.Valid()
      modifies this
      ensures (Value(), answer) == match FindObject(old(objects), key)
                                   case Err(e) => (old(Value()), Err(e))
                                   case Ok(base) => DeriveInto(old(Value()), m, base, tmpl, keys)
    {
      hide FindObject, DeriveEcdh, KeyEnv.Valid;
      var base := ObjectWith(key);
      if base.Err? {
        return Err(base.error);
      }
      if m.typ != CKM_ECDH1_DERIVE {
        return Err(Pkcs11(CKR_MECHANISM_INVALID));
      }
      var derived := Derive(m, base.value, tmpl, keys);
      if derived.Err? {
        return Err(derived.error);
      }
      objects := objects + [derived.value];
      return Ok(Handle(derived.value.id));
    }

    /** The body of each handler after it has found the session. */
    method Answer(r: Request, o: Oracle) returns (answer: Outcome<Response>)
      requires o.keys.Valid()
      modifies this
      ensures (Value(), answer) == InSession(old(Value()), r, o)
    {
      hide FindObject, DeriveEcdh, KeyEnv.Valid, Supports, Sign, AttributeValues, AllPresent, MatchIds;
      match r
      case FindObjectsInit(_, tmpl) =>
        Find(tmpl);
        return Ok(Done);
      case FindObjects(_, count) =>
        var ids := FindNext(count);
        return Ok(Ids(ids));
      case GetAttributeValue(_, id, types) =>
        var values := AttributeValue(id, types);
        if values.Err? {
          return Err(values.error);
        }
        return Ok(Values(values.value.0, if values.value.1 then 0 else CKR_ATTRIBUTE_TYPE_INVALID));
      case SignInit(_, m, key) =>
        answer := SignInit(m, key);
      case SignOnce(_, data) =>
        var sig := Sign(signObject, signMechanism, data.Content(), o.signer);
        return if sig.Err? then Err(sig.error) else Ok(Signature(sig.value));
      case SignUpdate(_, data) =>
        signData := signData + data.Content();
        return Ok(Done);
      case SignFinal(_) =>
        var sig := Sign(signObject, signMechanism, signData, o.signer);
        return if sig.Err? then Err(sig.error) else Ok(Signature(sig.value));
      case DeriveKey(_, m, key, tmpl) =>
        answer := DeriveKey(m, key, tmpl, o.keys);
      case _ =>
        return Ok(Done);
    }
  }

  /** The per-connection handler. Its sessions are distinct objects. */
  class Handler {
    const s: Server
    var lastSessionID: uint64
    var sessions: map<uint64, LiveSession>

    constructor (s: Server)
      ensures Valid() && this.s == s && Value() == FRESH_LOCAL
    {
      this.s := s;
      this.lastSessionID := 0;
      this.sessions := map[];
    }

    ghost predicate Valid()
      reads this
    {
      forall i, j :: i in sessions && j in sessions && i != j ==> sessions[i] != sessions[j]
    }

    ghost function Value(): (l: Local)
      reads this, sessions.Values
      ensures l.sessions.Keys == sessions.Keys && l.lastSessionID == lastSessionID
    {
      Local(lastSessionID, map id | id in sessions :: sessions[id].Value())
    }

    lemma OneChanged(before: Local, id: uint64)
      requires id in sessions && before.sessions.Keys == sessions.Keys && before.lastSessionID == lastSessionID
      requires forall k :: k in sessions && k != id ==> sessions[k].Value() == before.sessions[k]
      ensures Value() == With(before, id, sessions[id].Value())
    {
      assert Value().sessions == before.sessions[id := sessions[id].Value()];
    }

    /** newSession. Terminates from every state by the pigeonhole principle, through wraparound. */
    method NewSession(slot: uint64, dynamicObjects: Outcome<seq<Object>>) returns (r: Outcome<uint64>)
      requires Valid() && |sessions.Keys| < TWO64
      modifies this
      ensures Valid() && fresh(sessions.Values - old(sessions.Values))
      ensures (Value(), r) == Requests.NewSession(old(Value()), s.slots, slot, dynamicObjects)
    {
      hide FindSlot, FirstFree, Valid, Value, Opened;
      var i := s.FindSlotIndex(slot);
      if i.Err? {
        return Err(i.error);
      }
      var objects := Ok(s.slots[i.value].objects);
      if s.slots[i.value].dynamic {
        objects := dynamicObjects;
        if objects.Err? {
          return Err(objects.error);
        }
      }
      var next := NextFree();
      assert next == FirstFree(Value().lastSessionID, Value().sessions.Keys);
      Install(next, objects.value, slot);
      return Ok(next);
    }

    method Install(next: uint64, objects: seq<Object>, slot: uint64)
      requires Valid() && next !in sessions
      modifies this
      ensures Valid() && fresh(sessions.Values - old(sessions.Values))
      ensures Value() == Local(next, old(Value()).sessions[next := Opened(objects, slot)])
    {
      hide Opened;
      lastSessionID := next;
      var session := new LiveSession(objects, slot);
      var before := sessions;
      sessions := before[next := session];
      forall id | id in before ensures sessions[id] == before[id] && before[id] != session && before[id].Value() == old(before[id].Value()) {
      }
      assert Value().sessions == old(Value()).sessions[next := Opened(objects, slot)];
    }

    method NextFree() returns (next: uint64)
      requires |sessions.Keys| < TWO64
      ensures next == FirstFree(lastSessionID, sessions.Keys) && next !in sessions
    {
      hide FirstFree;
      ghost var k := 1;
      next := (lastSessionID + 1) % TWO64;
      while next in sessions
        invariant 1 <= k <= TWO64 && next == Candidate(lastSessionID, k)
        invariant forall j :: 1 <= j < k ==> Candidate(lastSessionID, j) in sessions.Keys
        decreases TWO64 - k
      {
        ProbeStops(lastSessionID, sessions.Keys, k);
        NextCandidate(lastSessionID, k);
        next := (next + 1) % TWO64;
        k := k + 1;
      }
      FirstFreeUnique(lastSessionID, sessions.Keys, next, FirstFree(lastSessionID, sessions.Keys));
    }

    method CloseSession(id: uint64) returns (r: Outcome<()>)
      requires Valid()
      modifies this
      ensures Valid() && sessions.Values <= old(sessions.Values)
      ensures Value() == old(Value()).(sessions := old(Value()).sessions - {id})
      ensures r == if id in old(sessions) then Ok(()) else Err(Pkcs11(CKR_SESSION_HANDLE_INVALID))
    {
      r := if id in sessions then Ok(()) else Err(Pkcs11(CKR_SESSION_HANDLE_INVALID));
      sessions := sessions - {id};
      assert Value().sessions == old(Value()).sessions - {id};
    }

    method ServeLocal(r: Request, o: Oracle) returns (answer: Outcome<Response>)
      requires Valid() && r.IsLocal() && o.keys.Valid()
      modifies this, sessions.Values
      ensures Valid() && sessions.Values <= old(sessions.Values)
      ensures (Value(), answer) == Serve(old(Value()), r, o)
    {
      hide InSession, KeyEnv.Valid;
      if r.FindObjectsFinal? {
        return Ok(Done);
      }
      if r.CloseSession? {
        var closed := CloseSession(r.session);
        if closed.Err? {
          assert old(Value()).sessions - {r.session} == old(Value()).sessions;
        }
        return if closed.Err? then Err(closed.error) else Ok(Done);
      }
      if r.session !in sessions {
        return Err(Pkcs11(CKR_SESSION_HANDLE_INVALID));
      }
      var session := sessions[r.session];
      answer := session.Answer(r, o);
      OneChanged(old(Value()), r.session);
    }

    /** handleGenerateKeyPair after its fields are read. */
    method Generate(r: Request, g: KeyGen) returns (answer: Outcome<Response>)
      requires Valid() && r.GenerateKeyPair?
      modifies sessions.Values, s
      ensures Valid()
      ensures (Value(), s.slots, answer) == Requests.Generate(old(Value()), old(s.slots), r, g)
    {
      hide NewKeyPair, IsToken, FindSlot;
      if r.session !in sessions {
        return Err(Pkcs11(CKR_SESSION_HANDLE_INVALID));
      }
      var session := sessions[r.session];
      var pair := NewKeyPair(r.mechanism, r.pubTmpl, r.privTmpl, g);
      if pair.Err? {
        return Err(pair.error);
      }
      var (pub, priv) := pair.value;
      session.objects := session.objects + [pub, priv];
      OneChanged(old(Value()), r.session);
      var persisted := PersistTokens(session.slotID, pub, priv);
      return if persisted.Err? then Err(persisted.error) else Ok(KeyPair(pub.id, priv.id));
    }

    method PersistTokens(slot: uint64, pub: Object, priv: Object) returns (r: Outcome<()>)
      modifies s
      ensures (s.slots, r) == PersistAll(old(s.slots), slot, Tokens(pub, priv))
    {
      hide FindSlot, IsToken;
      ghost var before := s.slots;
      r := Ok(());
      if IsToken(pub) {
        r := s.PersistObject(slot, pub);
        PersistInTurn(before, slot, pub, if IsToken(priv) then [priv] else []);
        if r.Err? {
          return;
        }
      }
      ghost var between := s.slots;
      if IsToken(priv) {
        r := s.PersistObject(slot, priv);
      }
      assert [] + [priv] == [priv] && [pub] + [] == [pub];
      assert PersistAll(between, slot, []) == (between, Ok(()));
    }

    /** One request after parsing. */
    method Perform(r: Request, o: Oracle) returns (answer: Outcome<Response>)
      requires Valid() && o.keys.Valid() && |sessions.Keys| < TWO64
      modifies this, sessions.Values, s
      ensures Valid() && fresh(sessions.Values - old(sessions.Values))
      ensures (Value(), s.slots, answer) == Requests.Perform(old(Value()), old(s.slots), r, o)
    {
      hide Serve, Requests.NewSession, Requests.Generate, Initialize, ReadToken, KeyEnv.Valid, Valid, Value;
      if r.IsLocal() {
        answer := ServeLocal(r, o);
      } else if r.OpenSession? {
        if r.flags / 4 % 2 == 0 {
          return Err(Pkcs11(CKR_SESSION_PARALLEL_NOT_SUPPORTED));
        }
        var id := NewSession(r.slot, o.dynamicObjects);
        return if id.Err? then Err(id.error) else Ok(Handle(id.value));
      } else if r.GenerateKeyPair? {
        answer := Generate(r, o.gen);
      } else if r.InitToken? {
        answer := s.InitToken(r.slot, r.text);
      } else {
        answer := s.TokenInfoOf(r.slot);
      }
    }
  }

  lemma NextCandidate(last: uint64, k: nat)
    ensures Candidate(last, k + 1) == (Candidate(last, k) + 1) % TWO64
  {
  }

  lemma PersistInTurn(slots: seq<Slot>, slot: uint64, o: Object, rest: seq<Object>)
    ensures PersistAll(slots, slot, [o] + rest) ==
            if PersistAll(slots, slot, [o]).1.Err? then PersistAll(slots, slot, [o])
            else PersistAll(PersistAll(slots, slot, [o]).0, slot, rest)
  {
    hide FindSlot;
    assert ([o] + rest)[1..] == rest && [o][1..] == [];
  }
}

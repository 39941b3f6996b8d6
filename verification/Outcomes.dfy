/** When each request succeeds, with which error it fails otherwise, and what its answer says. */
module Outcomes {
  import opened Bytes
  import opened Wire
  import opened Attributes
  import opened Fields
  import opened Encodings
  import opened Bodies
  import opened Objects
  import opened Crypto
  import opened Keygen
  import opened Sessions
  import opened Slots
  import opened Machine
  import opened Requests
  import opened Layouts

  // ---------------------------------------------------------------- dispatch

  const SERVED: set<uint32> :=
    {1, 2, 3, 4, 5, 6, 7, 8, 9, 10, 11, 13, 18, 19, 24, 26, 27, 28, 42, 43, 44, 45, 59, 62, 63, 64}

  lemma {:induction false} ReadErrors(fs: seq<Field>, b: BodyValue)
    requires AllReadable(fs) && (b.error.Some? ==> !b.error.value.Pkcs11?)
    ensures ReadFields(fs, b).0.error.Some? ==> !ReadFields(fs, b).0.error.value.Pkcs11?
    decreases fs
  {
    hide GetField;
    if fs != [] {
      ReadErrors(fs[1..], ReadField(fs[0], b).0);
    }
  }

  /** A request that does not parse has an error that ends the connection, and it parses exactly when
      its signature and its fields are those of its call. */
  lemma ParseOutcome(b: BodyValue)
    requires FieldsOf(b.call) != [] && b.error.None?
    ensures ParseRequest(b).Err? ==> !ParseRequest(b).error.Pkcs11?
    ensures var p := GetFields(FieldsOf(b.call), b.buffer);
            ParseRequest(b).Ok? <==> b.signature == Codes(FieldsOf(b.call)) && p.Got? && p.rest == []
  {
    hide FieldsOf, Make, GetFields, ReadFields, Codes;
    ReadErrors(FieldsOf(b.call), b);
    ReadsExactly(FieldsOf(b.call), b);
  }

  /** C_Finalize echoes its request; a call that is not served is answered so, and nothing changes. */
  lemma Dispatched(l: Local, slots: seq<Slot>, b: BodyValue, env: Environment)
    requires env.oracle.Valid() && |l.sessions.Keys| < TWO64
    ensures b.call == 2 ==> HandleOne(l, slots, b, env) == (l, slots, Ok(b))
    ensures b.call !in SERVED ==> HandleOne(l, slots, b, env) == (l, slots, Err(Pkcs11(CKR_FUNCTION_NOT_SUPPORTED)))
    ensures b.call in SERVED && b.call != 2 ==> (Stateless(b.call) <==> FieldsOf(b.call) == [])
  {
    hide ParseRequest, Requests.Perform, Render;
  }

  // ---------------------------------------------------------------- keys

  predicate BadExponent(t: Attribute) {
    t.typ == CKA_PUBLIC_EXPONENT && t.bytes.Content() != [] && Nat(t.bytes.Content()) % TWO64 != 65537
  }

  /** The RSA template: any bad exponent is an error; otherwise the last usable modulus size counts. */
  lemma {:induction false} RsaTemplateOutcome(tmpl: seq<Attribute>)
    ensures RsaBits(tmpl).Err? <==> exists t :: t in tmpl && BadExponent(t)
    ensures RsaBits(tmpl).Err? ==> RsaBits(tmpl).error == Pkcs11(CKR_ATTRIBUTE_VALUE_INVALID)
    ensures RsaBits(tmpl).Ok? ==>
              RsaBits(tmpl).value == if NoneUsable(tmpl, CKA_MODULUS_BITS) then None else Some(LastUlong(tmpl, CKA_MODULUS_BITS, 0))
  {
    hide Nat;
    if tmpl != [] {
      var init, last := tmpl[..|tmpl| - 1], tmpl[|tmpl| - 1];
      RsaTemplateOutcome(init);
      assert tmpl == init + [last];
      assert last in tmpl && forall t :: t in tmpl <==> t in init || t == last;
      assert NoneUsable(tmpl, CKA_MODULUS_BITS) <==> NoneUsable(init, CKA_MODULUS_BITS) && !Usable(last, CKA_MODULUS_BITS) by {
        NoneSnoc(init, last, CKA_MODULUS_BITS);
      }
    }
  }

  lemma NoneSnoc(init: seq<Attribute>, last: Attribute, typ: uint32)
    ensures NoneUsable(init + [last], typ) <==> NoneUsable(init, typ) && !Usable(last, typ)
  {
    var tmpl := init + [last];
    if NoneUsable(tmpl, typ) {
      assert !Usable(tmpl[|tmpl| - 1], typ);
      forall i | 0 <= i < |init| ensures !Usable(init[i], typ) {
        assert !Usable(tmpl[i], typ);
      }
    }
  }

  /** C_GenerateKeyPair's key: what the mechanism and the public template must say. */
  lemma NewKeyOutcome(m: Mechanism, tmpl: seq<Attribute>, g: KeyGen)
    ensures var r := NewKey(m, tmpl, g);
            if m.typ == 0x0 then
              if exists t :: t in tmpl && BadExponent(t) then r == Err(Pkcs11(CKR_ATTRIBUTE_VALUE_INVALID))
              else if NoneUsable(tmpl, CKA_MODULUS_BITS) then r == Err(Pkcs11(CKR_TEMPLATE_INCOMPLETE))
              else if LastUlong(tmpl, CKA_MODULUS_BITS, 0) < 1024 then r == Err(Pkcs11(CKR_KEY_SIZE_RANGE))
              else if g.key.None? then r == Err(Pkcs11(CKR_GENERAL_ERROR))
              else r == Ok(g.key.value)
            else if m.typ == 0x1040 then
              if Lookup(tmpl, CKA_EC_PARAMS).None? || Lookup(tmpl, CKA_EC_PARAMS).value.bytes.Content() == [] then r == Err(Pkcs11(CKR_TEMPLATE_INCOMPLETE))
              else if g.curve.None? then r == Err(Pkcs11(CKR_CURVE_NOT_SUPPORTED))
              else if g.key.None? then r == Err(Pkcs11(CKR_GENERAL_ERROR))
              else r == Ok(g.key.value)
            else r == Err(Pkcs11(CKR_MECHANISM_INVALID))
  {
    hide RsaBits, LastUlong, Lookup, BadExponent, NoneUsable;
    RsaTemplateOutcome(tmpl);
  }

  /** The pair: each object keeps its own half of the key and its own identifier, and looks up as its
      template says, or else as the list of a new key does. */
  lemma KeyPairOutcome(m: Mechanism, pubTmpl: seq<Attribute>, privTmpl: seq<Attribute>, g: KeyGen, typ: uint32)
    ensures var r := NewKeyPair(m, pubTmpl, privTmpl, g);
            if NewKey(m, pubTmpl, g).Err? then r == Err(NewKey(m, pubTmpl, g).error)
            else
              var key := NewKey(m, pubTmpl, g).value;
              if NewPublicKeyObject(key.public, g.pubId, g.pubDer).Err? || NewPrivateKeyObject(key, g.privId, g.privDer).Err? then r == Err(Internal)
              else
                var lists := (NewKeyObject(key.public, false, g.pubDer).value, NewKeyObject(key.public, true, g.privDer).value);
                && r.Ok?
                && Some(r.value.0.id) == g.pubId && r.value.0.pub == Some(key.public) && r.value.0.priv == None
                && Some(r.value.1.id) == g.privId && r.value.1.priv == Some(key) && r.value.1.pub == None
                && Lookup(r.value.0.attributes, typ) == (if LastOf(pubTmpl, typ).Some? then LastOf(pubTmpl, typ) else Lookup(lists.0, typ))
                && Lookup(r.value.1.attributes, typ) == (if LastOf(privTmpl, typ).Some? then LastOf(privTmpl, typ) else Lookup(lists.1, typ))
  {
    hide NewKey, NewKeyObject, Lookup, LastOf, SetAll;
    if NewKeyPair(m, pubTmpl, privTmpl, g).Ok? {
      var key := NewKey(m, pubTmpl, g).value;
      LookupSetAll(NewKeyObject(key.public, false, g.pubDer).value, pubTmpl, typ);
      LookupSetAll(NewKeyObject(key.public, true, g.privDer).value, privTmpl, typ);
    } else if NewKey(m, pubTmpl, g).Ok? {
      KeyObjectErrors(m, pubTmpl, g);
    }
  }

  lemma KeyObjectErrors(m: Mechanism, tmpl: seq<Attribute>, g: KeyGen)
    requires NewKey(m, tmpl, g).Ok?
    ensures var key := NewKey(m, tmpl, g).value;
            && (NewPublicKeyObject(key.public, g.pubId, g.pubDer).Err? ==> NewPublicKeyObject(key.public, g.pubId, g.pubDer).error == Internal)
            && (NewPrivateKeyObject(key, g.privId, g.privDer).Err? ==> NewPrivateKeyObject(key, g.privId, g.privDer).error == Internal)
  {
    hide NewKey, CommonAttributes, EcAttributes, RsaAttributes, PRIVATE_ATTRIBUTES;
  }

  /** Persisting appends to one slot, in order. */
  lemma {:induction false} PersistedInOrder(slots: seq<Slot>, slot: uint64, todo: seq<Object>)
    requires FindSlot(slots, slot).Ok?
    ensures var i := FindSlot(slots, slot).value;
            PersistAll(slots, slot, todo) == (slots[i := slots[i].(objects := slots[i].objects + todo)], Ok(()))
    decreases todo
  {
    hide FindSlot;
    var i := FindSlot(slots, slot).value;
    if todo == [] {
      assert slots[i].objects + todo == slots[i].objects;
      assert slots[i := slots[i]] == slots;
    } else {
      var slots1 := slots[i := slots[i].(objects := slots[i].objects + [todo[0]])];
      SlotsSameIds(slots, i, todo[0], slot);
      PersistedInOrder(slots1, slot, todo[1..]);
      var all := slots[i].objects + todo;
      assert slots[i].objects + [todo[0]] + todo[1..] == all;
      assert slots1[i := slots1[i].(objects := all)] == slots[i := slots[i].(objects := all)];
    }
  }

  /** A whole C_GenerateKeyPair: the answer names the public object and then the private one; the
      session gets both and the slot the token objects, in that order, and nothing else changes. */
  lemma GenerateOutcome(l: Local, slots: seq<Slot>, r: Request, g: KeyGen)
    requires r.GenerateKeyPair? && Resolved(l, slots)
    ensures var (l', slots', answer) := Generate(l, slots, r, g);
            if r.session !in l.sessions then (l', slots', answer) == (l, slots, Err(Pkcs11(CKR_SESSION_HANDLE_INVALID)))
            else
              var pair := NewKeyPair(r.mechanism, r.pubTmpl, r.privTmpl, g);
              if pair.Err? then (l', slots', answer) == (l, slots, Err(pair.error))
              else
                var (pub, priv) := pair.value;
                var s, i := l.sessions[r.session], FindSlot(slots, l.sessions[r.session].slotID).value;
                && answer.Ok? && answer.value.KeyPair? && Some(answer.value.pub) == g.pubId && Some(answer.value.priv) == g.privId
                && l'.sessions == l.sessions[r.session := s.(objects := s.objects + [pub, priv])] && l'.lastSessionID == l.lastSessionID
                && |slots'| == |slots| && (forall j :: 0 <= j < |slots| && j != i ==> slots'[j] == slots[j])
                && slots'[i] == slots[i].(objects := slots[i].objects + ((if IsToken(pub) then [pub] else []) + (if IsToken(priv) then [priv] else [])))
  {
    hide NewKeyPair, FindSlot, IsToken, MatchesAll, TokenBy, DuplicateFree, AllWellTyped;
    if r.session in l.sessions && NewKeyPair(r.mechanism, r.pubTmpl, r.privTmpl, g).Ok? {
      var (pub, priv) := NewKeyPair(r.mechanism, r.pubTmpl, r.privTmpl, g).value;
      GeneratedPair(r.mechanism, r.pubTmpl, r.privTmpl, g);
      PersistedInOrder(slots, l.sessions[r.session].slotID, Tokens(pub, priv));
    }
  }

  /** C_DeriveKey: a derived object joins the session, and the answer is its handle. */
  lemma DeriveKeyOutcome(s: Session, id: uint64, m: Mechanism, key: uint64, tmpl: seq<Attribute>, o: Oracle)
    requires o.keys.Valid()
    ensures var (s', answer) := InSession(s, DeriveKey(id, m, key, tmpl), o);
            if FindObject(s.objects, key).Err? then s' == s && answer == Err(Pkcs11(CKR_OBJECT_HANDLE_INVALID))
            else if m.typ != 0x1050 then s' == s && answer == Err(Pkcs11(CKR_MECHANISM_INVALID))
            else if DeriveEcdh(m, FindObject(s.objects, key).value, tmpl, o.keys).Err? then
              s' == s && answer == Err(DeriveEcdh(m, FindObject(s.objects, key).value, tmpl, o.keys).error)
            else
              var d := DeriveEcdh(m, FindObject(s.objects, key).value, tmpl, o.keys).value;
              && answer == Ok(Handle(d.id)) && Some(d.id) == o.keys.id
              && s'.objects == s.objects + [d] && s' == s.(objects := s'.objects)
  {
    hide FindObject, SharedSecret, KdfSecret, DerivedAttributes, LastUlong, MayDerive, IsEcdsaKey;
  }

  // ---------------------------------------------------------------- searching and reading

  /** Searching always succeeds and only moves the queue; reading attributes fails exactly on a
      missing object and changes nothing; C_SignUpdate always succeeds and only adds its data. */
  lemma SessionOutcome(s: Session, id: uint64, tmpl: seq<Attribute>, count: uint32, key: uint64, types: seq<Template>, data: Slice, o: Oracle)
    requires o.keys.Valid()
    ensures InSession(s, FindObjectsInit(id, tmpl), o) == (s.(findMatches := s.findMatches + MatchIds(s.objects, tmpl)), Ok(Done))
    ensures var n := Min(count, |s.findMatches|);
            InSession(s, FindObjects(id, count), o) == (s.(findMatches := s.findMatches[n..]), Ok(Ids(s.findMatches[..n])))
    ensures var (s', answer) := InSession(s, GetAttributeValue(id, key, types), o);
            s' == s && (answer.Err? <==> FindObject(s.objects, key).Err?) && (answer.Err? ==> answer.error == Pkcs11(CKR_OBJECT_HANDLE_INVALID))
    ensures InSession(s, SignUpdate(id, data), o) == (s.(signData := s.signData + data.Content()), Ok(Done))
  {
    hide FindObject, MatchIds, AttributeValues, AllPresent, FindNext, Sign, Supports, DeriveEcdh;
    PageIs(s, count);
  }

  lemma PageIs(s: Session, count: nat)
    ensures var n := Min(count, |s.findMatches|);
            FindNext(s, count) == (s.(findMatches := s.findMatches[n..]), s.findMatches[..n])
  {
    var q := s.findMatches;
    assert q[|q|..] == [] && q[..|q|] == q;
  }

  // ---------------------------------------------------------------- signing

  /** C_SignInit: an existing private key, with a mechanism of its type. */
  lemma SignInitOutcome(s: Session, id: uint64, m: Mechanism, key: uint64, o: Oracle)
    requires o.keys.Valid()
    ensures var (s', answer) := InSession(s, SignInit(id, m, key), o);
            if FindObject(s.objects, key).Err? then s' == s && answer == Err(Pkcs11(CKR_OBJECT_HANDLE_INVALID))
            else
              var obj := FindObject(s.objects, key).value;
              if obj.priv.Some? && obj.priv.value.public.OtherPublic? then s' == s && answer == Err(Internal)
              else if obj.priv.Some? && ((obj.priv.value.public.EcPublic? && m.typ == 0x1041) ||
                                         (obj.priv.value.public.RsaPublic? && (m.typ == 0x1 || m.typ == 0xd)))
              then answer == Ok(Done) && s' == s.(signMechanism := m, signObject := obj)
              else s' == s && answer == Err(Pkcs11(CKR_MECHANISM_INVALID))
  {
    hide FindObject;
  }

  /** Signing by the mechanism: RSA PKCS #1 and ECDSA take no parameters, that is, an empty slice. */
  lemma SignOutcome(o: Object, m: Mechanism, data: seq<byte>, signer: Signer)
    ensures var r, bare := Sign(o, m, data, signer), m.params.Raw? && |m.params.bytes.Content()| == 0;
            if o.priv.None? then r == Err(Pkcs11(CKR_KEY_HANDLE_INVALID))
            else if m.typ == 0xd then r == SignPss(o.priv.value, m, data, signer)
            else if m.typ != 0x1 && m.typ != 0x1041 then r == Err(Pkcs11(CKR_MECHANISM_INVALID))
            else if !bare then r == Err(Pkcs11(CKR_ARGUMENTS_BAD))
            else if m.typ == 0x1 then r == signer.rsaPkcs(o.priv.value, data)
            else if signer.ecdsa(o.priv.value, data).None? || !o.priv.value.public.EcPublic? then r == Err(Internal)
            else
              var (x, y) := signer.ecdsa(o.priv.value, data).value;
              r == RawSignature(x, y, o.priv.value.public.curve.ByteLen())
  {
    hide RawSignature;
  }

  /** RSA-PSS takes the three hashes, each with its own mask generation function. */
  lemma PssOutcome(k: PrivateKey, m: Mechanism, data: seq<byte>, signer: Signer)
    ensures var r, p := SignPss(k, m, data, signer), m.params;
            if !p.Pss? then r == Err(Internal)
            else if (p.hashAlg == 0x250 && p.mgf == 2) || (p.hashAlg == 0x260 && p.mgf == 3) || (p.hashAlg == 0x270 && p.mgf == 4)
            then r == signer.rsaPss(k, p.hashAlg, p.saltLen, data)
            else r == Err(Pkcs11(CKR_MECHANISM_PARAM_INVALID))
  {
  }

  // ---------------------------------------------------------------- tokens

  /** C_InitToken succeeds exactly on an existing token that is not initialized, and then sets the
      label, without its trailing spaces and NULs, and the flag of that slot alone. */
  lemma InitTokenOutcome(slots: seq<Slot>, slot: uint64, text: seq<byte>)
    ensures var (slots', answer) := Initialize(slots, slot, text);
            if FindSlot(slots, slot).Err? then slots' == slots && answer == Err(Pkcs11(CKR_SLOT_ID_INVALID))
            else
              var i := FindSlot(slots, slot).value;
              if slots[i].initialized then slots' == slots && answer == Err(Pkcs11(CKR_CRYPTOKI_ALREADY_INITIALIZED))
              else
                && answer == Ok(Done) && |slots'| == |slots| && (forall j :: 0 <= j < |slots| && j != i ==> slots'[j] == slots[j])
                && TrimmedTo(text, slots'[i].text) && slots'[i] == slots[i].(text := slots'[i].text, initialized := true)
  {
    hide FindSlot, TrimmedTo;
  }

  /** C_GetTokenInfo fails exactly on an unknown slot. */
  lemma TokenInfoOutcome(slots: seq<Slot>, slot: uint64)
    ensures ReadToken(slots, slot) ==
            if FindSlot(slots, slot).Err? then Err(Pkcs11(CKR_SLOT_ID_INVALID))
            else
              var s := slots[FindSlot(slots, slot).value];
              Ok(TokenInfo(s.text, s.initialized, s.info))
  {
    hide FindSlot;
  }

  // ---------------------------------------------------------------- what answers say

  /** Answers made of numbers decode to them, in order. */
  lemma NumbersDecode(call: uint32, n: uint64, k: uint64)
    ensures var (b, vs) := ReadFields([], Render(call, Done)); b.Err().None?
    ensures var (b, vs) := ReadFields([FUlong], Render(call, Handle(n))); b.Err().None? && vs == [VUlong(n)]
    ensures var (b, vs) := ReadFields([FUlong, FUlong], Render(call, KeyPair(n, k))); b.Err().None? && vs == [VUlong(n), VUlong(k)]
  {
    hide U64, ReadFields;
    assert [FUlong, FUlong][1..] == [FUlong] && [FUlong][1..] == [];
    assert [VUlong(n), VUlong(k)][1..] == [VUlong(k)] && [VUlong(k)][1..] == [] && [VUlong(n)][1..] == [];
    assert Codes([]) == [] && PutValues([], []) == [];
    assert PutValues([VUlong(k)], [FUlong]) == U64(k) + [] == U64(k);
    assert PutValues([VUlong(n)], [FUlong]) == U64(n) + [] == U64(n);
    assert PutValues([VUlong(n), VUlong(k)], [FUlong, FUlong]) == U64(n) + U64(k);
    BodyRoundTrip(call, [], []);
    BodyRoundTrip(call, [VUlong(n)], [FUlong]);
    BodyRoundTrip(call, [VUlong(n), VUlong(k)], [FUlong, FUlong]);
  }

  /** A signature decodes to its bytes. */
  lemma SignatureDecodes(call: uint32, sig: seq<byte>)
    requires |sig| < NULL_MARKER
    ensures var (b, vs) := ReadFields([FByteArray], Render(call, Signature(sig))); b.Err().None? && vs == [VBytes(Data(sig), 0)]
  {
    hide U32, ReadFields, PutByteArray;
    assert [FByteArray][1..] == [] && [VBytes(Data(sig), 0)][1..] == [];
    assert PutValues([], []) == [];
    assert PutValues([VBytes(Data(sig), 0)], [FByteArray]) == [1] + PutByteArray(sig) + [] == [1] + PutByteArray(sig);
    BodyRoundTrip(call, [VBytes(Data(sig), 0)], [FByteArray]);
  }

  /** A page of handles: present, their count, and each in turn. */
  lemma IdsDecode(call: uint32, ids: seq<uint64>, i: nat)
    requires |ids| < TWO32 && i < |ids|
    ensures var b := Render(call, Ids(ids));
            && b.call == call && b.signature == [97, 117] && |b.buffer| == 5 + 8 * |ids| && b.buffer[0] == 1
            && GetU32(b.buffer[1..]).Got? && GetU32(b.buffer[1..]).value == |ids|
            && GetU64(b.buffer[5 + 8 * i..]).Got? && GetU64(b.buffer[5 + 8 * i..]).value == ids[i]
  {
    hide U32, U64, GetU32, GetU64, PutUlongs;
    var b, all := Render(call, Ids(ids)), PutUlongs(ids);
    assert b.signature == [97, 117] by { assert [FUlongArray][1..] == [] && Codes([]) == []; }
    assert b.buffer == [1] + U32(|ids|) + all;
    UlongAt(ids, i);
    assert b.buffer[1..] == U32(|ids|) + all;
    U32RoundTrip(|ids|, all);
    var rest := all[8 * i..];
    assert b.buffer[5 + 8 * i..] == rest;
    assert rest == U64(ids[i]) + rest[8..] by { assert rest[..8] == all[8 * i..8 * i + 8]; }
    U64RoundTrip(ids[i], rest[8..]);
  }
}

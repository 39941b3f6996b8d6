/** How long a body is, from the request and the session: which answers fit a 32-bit length. */
module Sizes {
  import opened Bytes
  import opened Wire
  import opened Attributes
  import opened Fields
  import opened Encodings
  import opened Bodies
  import opened Objects
  import opened Crypto
  import opened Sessions
  import opened Slots
  import opened Requests

  /** The length writeResponse announces, before it is truncated to 32 bits. */
  function BodySize(b: BodyValue): nat {
    8 + |b.signature| + |b.buffer|
  }

  function EntrySize(a: Attribute): nat {
    if a.Value().Nil? then 5 else 9 + |a.Value().data|
  }

  function EntriesSize(attrs: seq<Attribute>): nat {
    if attrs == [] then 0 else EntrySize(attrs[0]) + EntriesSize(attrs[1..])
  }

  /** The length of each kind of answer. */
  function AnswerSize(a: Response): nat {
    match a
    case Done => 8
    case Handle(_) => 17
    case Ids(ids) => 15 + 8 * |ids|
    case Values(attrs, _) => 23 + EntriesSize(attrs)
    case Signature(sig) => 15 + |sig|
    case KeyPair(_, _) => 26
    case TokenInfo(_, _, _) => 250
  }

  lemma {:induction false} AttributesSize(attrs: seq<Attribute>)
    ensures |PutAttributes(attrs)| == EntriesSize(attrs)
  {
    hide Attribute.Value, OuterLength;
    if attrs != [] {
      AttributesSize(attrs[1..]);
    }
  }

  lemma {:induction false} UlongsSize(a: seq<uint64>)
    ensures |PutUlongs(a)| == 8 * |a|
  {
    if a != [] {
      UlongsSize(a[..|a| - 1]);
    }
  }

  lemma {:induction false} CodesSize(fs: seq<Field>, n: nat)
    requires forall i :: 0 <= i < |fs| ==> |Code(fs[i])| == n
    ensures |Codes(fs)| == n * |fs|
  {
    if fs != [] {
      CodesSize(fs[1..], n);
      assert n * |fs| == n + n * (|fs| - 1);
    }
  }

  lemma CodesOf(f: Field, g: Field)
    ensures |Codes([f])| == |Code(f)| && |Codes([f, g])| == |Code(f)| + |Code(g)|
  {
    assert [f][1..] == [] && [f, g][1..] == [g] && [g][1..] == [];
  }

  /** C_GetTokenInfo: eighteen one-letter codes and a fixed layout. */
  lemma TokenInfoSize(text: seq<byte>, initialized: bool, info: TokenDetails)
    ensures |PutTokenInfo(text, initialized, info)| == 224 && |Codes(TOKEN_TEXTS + TOKEN_NUMBERS + TOKEN_TAIL)| == 18
  {
    hide PutText, U64, PutUlongs;
    UlongsSize(TOKEN_LIMITS);
    CodesSize(TOKEN_TEXTS + TOKEN_NUMBERS + TOKEN_TAIL, 1);
  }

  /** Every answer has the length its kind says. */
  lemma RenderSize(call: uint32, a: Response)
    ensures BodySize(Render(call, a)) == AnswerSize(a)
  {
    hide PutAttributes, PutUlongs, PutTokenInfo, Codes, TOKEN_TEXTS, TOKEN_NUMBERS, TOKEN_TAIL;
    match a
    case Done => assert Codes([]) == [] by { NoCodes(); }
    case Handle(_) => CodesOf(FUlong, FUlong);
    case Ids(ids) => CodesOf(FUlongArray, FUlong); UlongsSize(ids);
    case Values(attrs, _) => CodesOf(FAttributeArray, FUlong); AttributesSize(attrs);
    case Signature(_) => CodesOf(FByteArray, FUlong);
    case KeyPair(_, _) => CodesOf(FUlong, FUlong);
    case TokenInfo(text, initialized, info) => TokenInfoSize(text, initialized, info);
  }

  lemma NoCodes()
    ensures Codes([]) == []
  {
  }

  lemma ErrorSize(code: uint64)
    ensures BodySize(ErrorBody(code)) == 17
  {
  }

  // ---------------------------------------------------------------- from the request and the session

  /** The length of a signature by this key: twice the field's, or the modulus's. */
  function SignatureSize(k: PrivateKey): nat {
    match k.public
    case EcPublic(curve, _, _) => 2 * curve.ByteLen()
    case RsaPublic(n, _) => |MinimalBytes(n)|
    case OtherPublic => 0
  }

  /** RSA signatures are as long as the modulus (sections 8.1.1 and 8.2.1 of RFC 8017). */
  ghost predicate Sized(signer: Signer) {
    && (forall k, d :: signer.rsaPkcs(k, d).Ok? ==> |signer.rsaPkcs(k, d).value| == SignatureSize(k))
    && (forall k, h, n, d :: signer.rsaPss(k, h, n, d).Ok? ==> |signer.rsaPss(k, h, n, d).value| == SignatureSize(k))
  }

  lemma SignedSize(o: Object, m: Mechanism, data: seq<byte>, signer: Signer)
    requires Sized(signer) && Sign(o, m, data, signer).Ok?
    ensures o.priv.Some? && |Sign(o, m, data, signer).value| == SignatureSize(o.priv.value)
  {
    hide BitLen, BE, MinimalBytes;
  }

  /** The entries a client asks for, counted at the object. */
  function LookupsSize(o: Object, types: seq<Template>): nat {
    if types == [] then 0 else EntrySize(Lookup(o.attributes, types[0].typ).GetOr(Empty(types[0].typ))) + LookupsSize(o, types[1..])
  }

  lemma {:induction false} LookupsAre(o: Object, types: seq<Template>)
    ensures EntriesSize(AttributeValues(o, types)) == LookupsSize(o, types)
  {
    hide Lookup, EntrySize;
    if types != [] {
      LookupsAre(o, types[1..]);
      assert AttributeValues(o, types)[1..] == AttributeValues(o, types[1..]);
    }
  }

  /** Whether a session's answer fits: pages by their length, attributes by those looked up,
      signatures by the key. */
  predicate AnswerFits(s: Session, r: Request, signer: Signer) {
    match r
    case FindObjects(_, count) => 15 + 8 * Min(count, |s.findMatches|) < TWO32
    case GetAttributeValue(_, id, types) => FindObject(s.objects, id).Ok? ==> 23 + LookupsSize(FindObject(s.objects, id).value, types) < TWO32
    case SignOnce(_, data) => Sign(s.signObject, s.signMechanism, data.Content(), signer).Ok? ==> 15 + SignatureSize(s.signObject.priv.value) < TWO32
    case SignFinal(_) => Sign(s.signObject, s.signMechanism, s.signData, signer).Ok? ==> 15 + SignatureSize(s.signObject.priv.value) < TWO32
    case _ => true
  }

  /** Whether the response to a request fits: always, but for pages, attributes, signatures, the echo
      of C_Finalize and the stateless handlers. */
  predicate ResponseFits(l: Local, b: BodyValue, env: Environment) {
    if b.call == CALL_FINALIZE then BodySize(b) < TWO32
    else if Stateless(b.call) then
      env.stateless(b).Ok? ==> 8 + |env.stateless(b).value.0| + |env.stateless(b).value.1| < TWO32
    else
      FieldsOf(b.call) != [] && ParseRequest(b).Ok? && ParseRequest(b).value.IsLocal() && ParseRequest(b).value.session in l.sessions ==>
        AnswerFits(l.sessions[ParseRequest(b).value.session], ParseRequest(b).value, env.oracle.signer)
  }

  lemma SessionAnswerSize(s: Session, r: Request, o: Oracle)
    requires o.keys.Valid() && Sized(o.signer) && InSession(s, r, o).1.Ok?
    ensures AnswerSize(InSession(s, r, o).1.value) < TWO32 <==> AnswerFits(s, r, o.signer)
  {
    hide FindObject, Supports, Sign, DeriveEcdh, AllPresent, MatchIds, Sized, EntriesSize, LookupsSize, AttributeValues, SignatureSize;
    match r
    case GetAttributeValue(_, id, types) => LookupsAre(FindObject(s.objects, id).value, types);
    case SignOnce(_, data) => SignedSize(s.signObject, s.signMechanism, data.Content(), o.signer);
    case SignFinal(_) => SignedSize(s.signObject, s.signMechanism, s.signData, o.signer);
    case _ =>
  }

  lemma PerformSize(l: Local, slots: seq<Slot>, r: Request, o: Oracle)
    requires o.keys.Valid() && |l.sessions.Keys| < TWO64 && Sized(o.signer) && Requests.Perform(l, slots, r, o).2.Ok?
    ensures AnswerSize(Requests.Perform(l, slots, r, o).2.value) < TWO32 <==>
            (r.IsLocal() && r.session in l.sessions ==> AnswerFits(l.sessions[r.session], r, o.signer))
  {
    hide InSession, Sized, NewSession, FindSlot, EntriesSize, PersistAll;
    if r.IsLocal() && r.session in l.sessions && !r.FindObjectsFinal? && !r.CloseSession? {
      SessionAnswerSize(l.sessions[r.session], r, o);
    }
  }

  lemma FailedFits(s: Session, r: Request, o: Oracle)
    requires o.keys.Valid() && InSession(s, r, o).1.Err?
    ensures AnswerFits(s, r, o.signer)
  {
    hide FindObject, Sign, LookupsSize, DeriveEcdh, MatchIds, Supports, AttributeValues, AllPresent;
  }

  lemma FailedPerformFits(l: Local, slots: seq<Slot>, r: Request, o: Oracle)
    requires o.keys.Valid() && |l.sessions.Keys| < TWO64 && Requests.Perform(l, slots, r, o).2.Err?
    ensures r.IsLocal() && r.session in l.sessions ==> AnswerFits(l.sessions[r.session], r, o.signer)
  {
    hide InSession, NewSession, FindSlot, PersistAll, Generate;
    if r.IsLocal() && r.session in l.sessions && !r.FindObjectsFinal? && !r.CloseSession? {
      FailedFits(l.sessions[r.session], r, o);
    }
  }

  /** A response fits its 32-bit length if and only if the request, in its session, is one whose
      answer fits; errors always fit. */
  lemma ResponseSize(l: Local, slots: seq<Slot>, b: BodyValue, env: Environment)
    requires env.oracle.Valid() && |l.sessions.Keys| < TWO64 && Sized(env.oracle.signer)
    ensures var out := HandleOne(l, slots, b, env).2;
            if out.Err? then ResponseFits(l, b, env) else BodySize(out.value) < TWO32 <==> ResponseFits(l, b, env)
  {
    hide ParseRequest, Requests.Perform, FieldsOf, Stateless, Render, AnswerFits, Sized, AnswerSize;
    if b.call != CALL_FINALIZE && !Stateless(b.call) && FieldsOf(b.call) != [] && ParseRequest(b).Ok? {
      var r := ParseRequest(b).value;
      var answer := Requests.Perform(l, slots, r, env.oracle).2;
      if answer.Ok? {
        PerformSize(l, slots, r, env.oracle);
        RenderSize(b.call, answer.value);
      } else {
        FailedPerformFits(l, slots, r, env.oracle);
      }
    }
  }

  // ---------------------------------------------------------------- a small request for a large answer

  function Repeated(t: Template, n: nat): seq<Template> {
    seq(n, _ => t)
  }

  lemma {:induction false} RepeatedSize(o: Object, t: Template, n: nat)
    ensures LookupsSize(o, Repeated(t, n)) == n * EntrySize(Lookup(o.attributes, t.typ).GetOr(Empty(t.typ)))
  {
    hide EntrySize, Lookup;
    if n > 0 {
      RepeatedSize(o, t, n - 1);
      assert Repeated(t, n)[1..] == Repeated(t, n - 1);
      assert n * EntrySize(Lookup(o.attributes, t.typ).GetOr(Empty(t.typ))) ==
             EntrySize(Lookup(o.attributes, t.typ).GetOr(Empty(t.typ))) + (n - 1) * EntrySize(Lookup(o.attributes, t.typ).GetOr(Empty(t.typ)));
    }
  }

  lemma {:induction false} TemplatesSize(ts: seq<Template>)
    ensures |PutTemplates(ts)| == 8 * |ts|
  {
    if ts != [] {
      TemplatesSize(ts[1..]);
    }
  }

  /** C_GetAttributeValue as a client sends it. */
  function AttributeRequest(session: uint64, key: uint64, types: seq<Template>): BodyValue {
    var fs := [FUlong, FUlong, FAttributeBuffer];
    BodyValue(CALL_GET_ATTRIBUTE_VALUE, Codes(fs), PutValues([VUlong(session), VUlong(key), VTemplates(types)], fs), None)
  }

  lemma AttributeRequestParses(session: uint64, key: uint64, types: seq<Template>)
    requires |types| < TWO32
    ensures FieldsOf(CALL_GET_ATTRIBUTE_VALUE) != [] && !Stateless(CALL_GET_ATTRIBUTE_VALUE)
    ensures ParseRequest(AttributeRequest(session, key, types)) == Ok(GetAttributeValue(session, key, types))
  {
    hide PutValues, Codes, ParseRequest;
    RequestRoundTrip(CALL_GET_ATTRIBUTE_VALUE, [VUlong(session), VUlong(key), VTemplates(types)]);
  }

  lemma AttributeRequestSize(session: uint64, key: uint64, types: seq<Template>)
    ensures BodySize(AttributeRequest(session, key, types)) == 32 + 8 * |types|
  {
    hide PutTemplates, U64, U32, Codes;
    var u, v, t := VUlong(session), VUlong(key), VTemplates(types);
    assert [u, v, t][1..] == [v, t] && [v, t][1..] == [t] && [t][1..] == [];
    var fs := [FUlong, FUlong, FAttributeBuffer];
    assert fs[1..] == [FUlong, FAttributeBuffer] && fs[1..][1..] == [FAttributeBuffer] && fs[1..][1..][1..] == [];
    assert PutValues([], []) == [];
    assert PutValues([t], [FAttributeBuffer]) == U32(Length32(types)) + PutTemplates(types) + [];
    assert PutValues([v, t], [FUlong, FAttributeBuffer]) == U64(key) + PutValues([t], [FAttributeBuffer]);
    TemplatesSize(types);
    CodesOf(FUlong, FAttributeBuffer);
    assert Codes(fs) == Code(FUlong) + Codes([FUlong, FAttributeBuffer]) by { FirstCode(fs); }
  }

  lemma FirstCode(fs: seq<Field>)
    requires fs != []
    ensures Codes(fs) == Code(fs[0]) + Codes(fs[1..])
  {
  }

  /** Naming one type n times costs a client 8 bytes each and the server the whole entry each. The
      response fits if and only if 23 + n entries do. */
  lemma RepeatedAnswer(l: Local, slots: seq<Slot>, env: Environment, session: uint64, key: uint64, t: Template, n: uint32)
    requires env.oracle.Valid() && |l.sessions.Keys| < TWO64 && session in l.sessions && FindObject(l.sessions[session].objects, key).Ok?
    ensures var b := AttributeRequest(session, key, Repeated(t, n));
            var attrs := FindObject(l.sessions[session].objects, key).value.attributes;
            && BodySize(b) == 32 + 8 * n && HandleOne(l, slots, b, env).2.Ok?
            && (ResponseFits(l, b, env) <==> 23 + n * EntrySize(Lookup(attrs, t.typ).GetOr(Empty(t.typ))) < TWO32)
  {
    hide ParseRequest, FieldsOf, Stateless, Render, FindObject, Lookup, EntrySize, AttributeRequest, LookupsSize, Oracle.Valid, AllPresent, AttributeValues;
    var types := Repeated(t, n);
    AttributeRequestParses(session, key, types);
    AttributeRequestSize(session, key, types);
    RepeatedSize(FindObject(l.sessions[session].objects, key).value, t, n);
    OracleKeys(env.oracle);
    assert AttributeRequest(session, key, types).call == CALL_GET_ATTRIBUTE_VALUE by { RequestCall(session, key, types); }
  }

  lemma RequestCall(session: uint64, key: uint64, types: seq<Template>)
    ensures AttributeRequest(session, key, types).call == CALL_GET_ATTRIBUTE_VALUE && AttributeRequest(session, key, types).error.None?
  {
  }

  /** An object whose CKA_VALUE is 2^20 bytes, and 4096 requests for it in one. */
  const LARGE_OBJECT: Object := Object(7, [OfBytes(CKA_VALUE, Data(seq(0x10_0000, _ => 0)))], None, None)
  const LARGE_SESSION: Local := Local(1, map[1 := Opened([LARGE_OBJECT], 0)])
  const LARGE_REQUEST: BodyValue := AttributeRequest(1, 7, Repeated(Template(CKA_VALUE, 0), 4096))

  /** The failing request: its body has 32,800 bytes, and its successful answer does not fit. */
  lemma LargeAnswer(slots: seq<Slot>, env: Environment)
    requires env.oracle.Valid()
    ensures LARGE_OBJECT.WellTyped() && |LARGE_SESSION.sessions.Keys| < TWO64 && LARGE_REQUEST.error.None? && BodySize(LARGE_REQUEST) == 32_800
    ensures HandleOne(LARGE_SESSION, slots, LARGE_REQUEST, env).2.Ok? && !ResponseFits(LARGE_SESSION, LARGE_REQUEST, env)
  {
    hide HandleOne, ResponseFits, AttributeRequest, Oracle.Valid;
    var a := OfBytes(CKA_VALUE, Data(seq(0x10_0000, _ => 0)));
    assert LARGE_SESSION.sessions.Keys == {1};
    assert Lookup(LARGE_OBJECT.attributes, CKA_VALUE) == Some(a);
    assert EntrySize(a) == 9 + 4 + 0x10_0000;
    assert FindObject([LARGE_OBJECT], 7) == Ok(LARGE_OBJECT);
    RequestCall(1, 7, Repeated(Template(CKA_VALUE, 0), 4096));
    RepeatedAnswer(LARGE_SESSION, slots, env, 1, 7, Template(CKA_VALUE, 0), 4096);
  }
}

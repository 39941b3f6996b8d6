/** The handlers' reading and writing of bodies, and the dispatch of one request. */
module Dispatch {
  import opened Bytes
  import opened Wire
  import opened Attributes
  import opened Fields
  import opened Encodings
  import opened Bodies
  import opened Objects
  import opened Sessions
  import opened Requests

  lemma ReadFirst(f: Field, fs: seq<Field>, b: BodyValue)
    requires f.Readable() && AllReadable(fs)
    ensures AllReadable([f] + fs)
    ensures var (b1, v) := ReadField(f, b);
            var (b2, vs) := ReadFields(fs, b1);
            ReadFields([f] + fs, b) == (b2, (if v.Some? then [v.value] else []) + vs)
  {
    hide ReadField;
    assert ([f] + fs)[1..] == fs;
  }

  /** Took, with the values known only when no error has occurred. */
  lemma TookFirst(f: Field, fs: seq<Field>, b: BodyValue, b1: BodyValue, v: Value)
    requires f.Readable() && AllReadable(fs) && Took(f, b, b1, v)
    ensures AllReadable([f] + fs)
    ensures var (b2, vs) := ReadFields(fs, b1);
            ReadFields([f] + fs, b).0 == b2 && (b2.error.None? ==> ReadFields([f] + fs, b).1 == [v] + vs)
  {
    hide GetField, ReadFields;
    ReadFirst(f, fs, b);
    if ReadField(f, b).1.None? {
      ErrorSticks(fs, b1);
    }
  }

  lemma Took1(f: Field, b: BodyValue, b1: BodyValue, v: Value)
    requires f.Readable() && Took(f, b, b1, v)
    ensures ReadFields([f], b).0 == b1 && (b1.error.None? ==> ReadFields([f], b).1 == [v])
  {
    hide Took;
    TookFirst(f, [], b, b1, v);
    assert [f] + [] == [f] && [v] + [] == [v];
  }

  lemma Took2(f: Field, g: Field, b: BodyValue, b1: BodyValue, b2: BodyValue, v: Value, u: Value)
    requires f.Readable() && g.Readable() && Took(f, b, b1, v) && Took(g, b1, b2, u)
    ensures ReadFields([f, g], b).0 == b2 && (b2.error.None? ==> ReadFields([f, g], b).1 == [v, u])
  {
    hide Took, ReadFields;
    Took1(g, b1, b2, u);
    TookFirst(f, [g], b, b1, v);
    assert [f] + [g] == [f, g] && [v] + [u] == [v, u];
  }

  lemma Took3(fs: seq<Field>, bs: seq<BodyValue>, vs: seq<Value>)
    requires |fs| == |vs| == 3 && |bs| == 4 && AllReadable(fs)
    requires Took(fs[0], bs[0], bs[1], vs[0]) && Took(fs[1], bs[1], bs[2], vs[1]) && Took(fs[2], bs[2], bs[3], vs[2])
    ensures ReadFields(fs, bs[0]).0 == bs[3] && (bs[3].error.None? ==> ReadFields(fs, bs[0]).1 == vs)
  {
    hide Took, ReadFields;
    Took2(fs[1], fs[2], bs[1], bs[2], bs[3], vs[1], vs[2]);
    TookFirst(fs[0], [fs[1], fs[2]], bs[0], bs[1], vs[0]);
    assert [fs[0]] + [fs[1], fs[2]] == fs && [vs[0]] + [vs[1], vs[2]] == vs;
  }

  lemma Took4(fs: seq<Field>, bs: seq<BodyValue>, vs: seq<Value>)
    requires |fs| == |vs| == 4 && |bs| == 5 && AllReadable(fs)
    requires Took(fs[0], bs[0], bs[1], vs[0]) && Took(fs[1], bs[1], bs[2], vs[1])
    requires Took(fs[2], bs[2], bs[3], vs[2]) && Took(fs[3], bs[3], bs[4], vs[3])
    ensures ReadFields(fs, bs[0]).0 == bs[4] && (bs[4].error.None? ==> ReadFields(fs, bs[0]).1 == vs)
  {
    hide Took, ReadFields;
    Took3(fs[1..], bs[1..], vs[1..]);
    TookFirst(fs[0], fs[1..], bs[0], bs[1], vs[0]);
    assert [fs[0]] + fs[1..] == fs && [vs[0]] + vs[1..] == vs;
  }

  /** The end of every reading: req.err() decides, and otherwise the values make the request. */
  method Checked(req: Body, ghost before: BodyValue, ghost vs: seq<Value>, made: Request) returns (r: Outcome<Request>)
    requires FieldsOf(before.call) != [] && AllShaped(vs, FieldsOf(before.call)) && made == Make(before.call, vs)
    requires ReadFields(FieldsOf(before.call), before).0 == req.View()
    requires req.View().error.None? ==> ReadFields(FieldsOf(before.call), before).1 == vs
    ensures r == ParseRequest(before)
  {
    hide FieldsOf, Make, ReadFields, AllShaped;
    var e := req.Err();
    return if e.Some? then Err(e.value) else Ok(made);
  }

  /** handleGetTokenInfo, handleCloseSession and handleFindObjectsFinal read one ulong. */
  method ReadOne(req: Body) returns (r: Outcome<Request>)
    requires FieldsOf(req.call) == [FUlong]
    modifies req, req.buffer
    ensures r == ParseRequest(old(req.View()))
  {
    hide Took, ReadFields;
    var n := req.ReadUlong();
    ghost var vs := [VUlong(n)];
    Took1(FUlong, old(req.View()), req.View(), vs[0]);
    var made := if req.call == CALL_GET_TOKEN_INFO then GetTokenInfo(n)
                else if req.call == CALL_CLOSE_SESSION then CloseSession(n) else FindObjectsFinal(n);
    r := Checked(req, old(req.View()), vs, made);
  }

  method ReadOpenSession(req: Body) returns (r: Outcome<Request>)
    requires req.call == CALL_OPEN_SESSION
    modifies req, req.buffer
    ensures r == ParseRequest(old(req.View()))
  {
    hide Took, ReadFields;
    var slotID := req.ReadUlong();
    label one:
    var flags := req.ReadUlong();
    Took2(FUlong, FUlong, old(req.View()), old@one(req.View()), req.View(), VUlong(slotID), VUlong(flags));
    r := Checked(req, old(req.View()), [VUlong(slotID), VUlong(flags)], OpenSession(slotID, flags));
  }

  method ReadInitToken(req: Body) returns (r: Outcome<Request>)
    requires req.call == CALL_INIT_TOKEN
    modifies req, req.buffer
    ensures r == ParseRequest(old(req.View()))
  {
    hide Took, ReadFields;
    var slotID := req.ReadUlong();
    label one:
    var pin, n := req.ReadByteArray();
    label two:
    var text := req.ReadZeroString();
    ghost var vs := [VUlong(slotID), VBytes(pin, n), VText(text)];
    Took3([FUlong, FByteArray, FZeroString], [old(req.View()), old@one(req.View()), old@two(req.View()), req.View()], vs);
    r := Checked(req, old(req.View()), vs, InitToken(slotID, text));
  }

  method ReadGetAttributeValue(req: Body) returns (r: Outcome<Request>)
    requires req.call == CALL_GET_ATTRIBUTE_VALUE
    modifies req, req.buffer
    ensures r == ParseRequest(old(req.View()))
  {
    hide Took, ReadFields;
    var sessionID := req.ReadUlong();
    label one:
    var objectID := req.ReadUlong();
    label two:
    var attrs := req.ReadAttributeBuffer();
    ghost var vs := [VUlong(sessionID), VUlong(objectID), VTemplates(attrs)];
    Took3([FUlong, FUlong, FAttributeBuffer], [old(req.View()), old@one(req.View()), old@two(req.View()), req.View()], vs);
    r := Checked(req, old(req.View()), vs, GetAttributeValue(sessionID, objectID, attrs));
  }

  /** Template arrays are well typed once they were read; unread ones are replaced by none. */
  lemma ReadTemplateTyped(b: BodyValue, after: BodyValue, attrs: seq<Attribute>)
    requires Took(FAttributeArray, b, after, VAttributes(attrs)) && after.error.None?
    ensures AllWellTyped(attrs)
  {
    hide AllWellTyped, GetField;
    FieldShape(FAttributeArray, b.buffer);
  }

  method ReadTyped(req: Body) returns (attrs: seq<Attribute>)
    modifies req, req.buffer
    ensures Took(FAttributeArray, old(req.View()), req.View(), VAttributes(attrs)) && AllWellTyped(attrs)
  {
    hide AllWellTyped, GetField;
    attrs := req.ReadAttributeArray();
    if req.error.Some? {
      attrs := [];
      NoneTyped();
      FailedRead(FAttributeArray, old(req.View()));
    } else {
      ReadTemplateTyped(old(req.View()), req.View(), attrs);
    }
  }

  lemma FailedRead(f: Field, b: BodyValue)
    requires f.Readable()
    ensures ReadField(f, b).0.error.Some? ==> ReadField(f, b).1.None?
  {
  }

  method ReadFindObjectsInit(req: Body) returns (r: Outcome<Request>)
    requires req.call == CALL_FIND_OBJECTS_INIT
    modifies req, req.buffer
    ensures r == ParseRequest(old(req.View()))
  {
    hide Took, ReadFields, AllWellTyped;
    var sessionID := req.ReadUlong();
    label one:
    var tmpl := ReadTyped(req);
    Took2(FUlong, FAttributeArray, old(req.View()), old@one(req.View()), req.View(), VUlong(sessionID), VAttributes(tmpl));
    r := Checked(req, old(req.View()), [VUlong(sessionID), VAttributes(tmpl)], FindObjectsInit(sessionID, tmpl));
  }

  method ReadFindObjects(req: Body) returns (r: Outcome<Request>)
    requires req.call == CALL_FIND_OBJECTS
    modifies req, req.buffer
    ensures r == ParseRequest(old(req.View()))
  {
    hide Took, ReadFields;
    var sessionID := req.ReadUlong();
    label one:
    var count := req.ReadUlongBuffer();
    Took2(FUlong, FUlongBuffer, old(req.View()), old@one(req.View()), req.View(), VUlong(sessionID), VCount(count));
    r := Checked(req, old(req.View()), [VUlong(sessionID), VCount(count)], FindObjects(sessionID, count));
  }

  method ReadSignInit(req: Body) returns (r: Outcome<Request>)
    requires req.call == CALL_SIGN_INIT
    modifies req, req.buffer
    ensures r == ParseRequest(old(req.View()))
  {
    hide Took, ReadFields;
    var sessionID := req.ReadUlong();
    label one:
    var m := req.ReadMechanism();
    label two:
    var keyID := req.ReadUlong();
    ghost var vs := [VUlong(sessionID), VMechanism(m), VUlong(keyID)];
    Took3([FUlong, FMechanism, FUlong], [old(req.View()), old@one(req.View()), old@two(req.View()), req.View()], vs);
    r := Checked(req, old(req.View()), vs, SignInit(sessionID, m, keyID));
  }

  method ReadSign(req: Body) returns (r: Outcome<Request>)
    requires req.call == CALL_SIGN
    modifies req, req.buffer
    ensures r == ParseRequest(old(req.View()))
  {
    hide Took, ReadFields;
    var sessionID := req.ReadUlong();
    label one:
    var data, dataLen := req.ReadByteArray();
    label two:
    var sigLen := req.ReadByteBuffer();
    ghost var vs := [VUlong(sessionID), VBytes(data, dataLen), VCount(sigLen)];
    Took3([FUlong, FByteArray, FByteBuffer], [old(req.View()), old@one(req.View()), old@two(req.View()), req.View()], vs);
    r := Checked(req, old(req.View()), vs, SignOnce(sessionID, data));
  }

  method ReadSignUpdate(req: Body) returns (r: Outcome<Request>)
    requires req.call == CALL_SIGN_UPDATE
    modifies req, req.buffer
    ensures r == ParseRequest(old(req.View()))
  {
    hide Took, ReadFields;
    var sessionID := req.ReadUlong();
    label one:
    var data, dataLen := req.ReadByteArray();
    Took2(FUlong, FByteArray, old(req.View()), old@one(req.View()), req.View(), VUlong(sessionID), VBytes(data, dataLen));
    r := Checked(req, old(req.View()), [VUlong(sessionID), VBytes(data, dataLen)], SignUpdate(sessionID, data));
  }

  method ReadSignFinal(req: Body) returns (r: Outcome<Request>)
    requires req.call == CALL_SIGN_FINAL
    modifies req, req.buffer
    ensures r == ParseRequest(old(req.View()))
  {
    hide Took, ReadFields;
    var sessionID := req.ReadUlong();
    label one:
    var sigLength := req.ReadByteBuffer();
    Took2(FUlong, FByteBuffer, old(req.View()), old@one(req.View()), req.View(), VUlong(sessionID), VCount(sigLength));
    r := Checked(req, old(req.View()), [VUlong(sessionID), VCount(sigLength)], SignFinal(sessionID));
  }

  method ReadGenerateKeyPair(req: Body) returns (r: Outcome<Request>)
    requires req.call == CALL_GENERATE_KEY_PAIR
    modifies req, req.buffer
    ensures r == ParseRequest(old(req.View()))
  {
    hide Took, ReadFields, AllWellTyped;
    var sessionID := req.ReadUlong();
    label one:
    var m := req.ReadMechanism();
    label two:
    var pubTmpl := ReadTyped(req);
    label three:
    var privTmpl := ReadTyped(req);
    ghost var vs := [VUlong(sessionID), VMechanism(m), VAttributes(pubTmpl), VAttributes(privTmpl)];
    Took4([FUlong, FMechanism, FAttributeArray, FAttributeArray],
          [old(req.View()), old@one(req.View()), old@two(req.View()), old@three(req.View()), req.View()], vs);
    r := Checked(req, old(req.View()), vs, GenerateKeyPair(sessionID, m, pubTmpl, privTmpl));
  }

  method ReadDeriveKey(req: Body) returns (r: Outcome<Request>)
    requires req.call == CALL_DERIVE_KEY
    modifies req, req.buffer
    ensures r == ParseRequest(old(req.View()))
  {
    hide Took, ReadFields, AllWellTyped;
    var sessionID := req.ReadUlong();
    label one:
    var m := req.ReadMechanism();
    label two:
    var keyID := req.ReadUlong();
    label three:
    var tmpl := ReadTyped(req);
    ghost var vs := [VUlong(sessionID), VMechanism(m), VUlong(keyID), VAttributes(tmpl)];
    Took4([FUlong, FMechanism, FUlong, FAttributeArray],
          [old(req.View()), old@one(req.View()), old@two(req.View()), old@three(req.View()), req.View()], vs);
    r := Checked(req, old(req.View()), vs, DeriveKey(sessionID, m, keyID, tmpl));
  }

  method ReadRequestBody(req: Body) returns (r: Outcome<Request>)
    requires FieldsOf(req.call) != []
    modifies req, req.buffer
    ensures r == ParseRequest(old(req.View()))
  {
    hide ParseRequest;
    if req.call == CALL_OPEN_SESSION {
      r := ReadOpenSession(req);
    } else if req.call == CALL_INIT_TOKEN {
      r := ReadInitToken(req);
    } else if req.call == CALL_GET_ATTRIBUTE_VALUE {
      r := ReadGetAttributeValue(req);
    } else if req.call == CALL_FIND_OBJECTS_INIT {
      r := ReadFindObjectsInit(req);
    } else if req.call == CALL_FIND_OBJECTS {
      r := ReadFindObjects(req);
    } else if req.call == CALL_SIGN_INIT {
      r := ReadSignInit(req);
    } else if req.call == CALL_SIGN {
      r := ReadSign(req);
    } else if req.call == CALL_SIGN_UPDATE {
      r := ReadSignUpdate(req);
    } else if req.call == CALL_SIGN_FINAL {
      r := ReadSignFinal(req);
    } else if req.call == CALL_GENERATE_KEY_PAIR {
      r := ReadGenerateKeyPair(req);
    } else if req.call == CALL_DERIVE_KEY {
      r := ReadDeriveKey(req);
    } else {
      r := ReadOne(req);
    }
  }

  // ---------------------------------------------------------------- responses

  lemma Wrote1(f: Field, c: seq<byte>, call: uint32, after: BodyValue)
    requires Wrote(f, c, BodyValue(call, [], [], None), after)
    ensures after == BodyValue(call, Codes([f]), c, None)
  {
    assert Codes([]) == [] && [f][1..] == [];
    assert [] + Code(f) == Code(f) + Codes([]) && [] + c == c;
  }

  /** A response that so far holds these fields with these contents. */
  predicate Holds(fs: seq<Field>, c: seq<byte>, call: uint32, view: BodyValue) {
    view == BodyValue(call, Codes(fs), c, None)
  }

  lemma {:induction false} CodesSnoc(fs: seq<Field>, f: Field)
    ensures Codes(fs + [f]) == Codes(fs) + Code(f)
    decreases fs
  {
    hide Code;
    if fs == [] {
      assert Codes([f]) == Code(f) + Codes([f][1..]) && [f][1..] == [] && [] + [f] == [f];
    } else {
      CodesSnoc(fs[1..], f);
      assert (fs + [f])[1..] == fs[1..] + [f];
    }
  }

  method AddText(resp: Body, s: seq<byte>, n: uint32, ghost fs: seq<Field>, ghost c: seq<byte>)
    requires Holds(fs, c, resp.call, resp.View())
    modifies resp, resp.buffer
    ensures Holds(fs + [FString], c + PutText(s, n), resp.call, resp.View())
  {
    hide Codes, Padded;
    resp.WriteString(s, n);
    CodesSnoc(fs, FString);
  }

  method AddNumber(resp: Body, n: uint64, ghost fs: seq<Field>, ghost c: seq<byte>)
    requires Holds(fs, c, resp.call, resp.View())
    modifies resp, resp.buffer
    ensures Holds(fs + [FUlong], c + U64(n), resp.call, resp.View())
  {
    hide Codes, U64;
    resp.WriteUlong(n);
    CodesSnoc(fs, FUlong);
  }

  method AddVersion(resp: Body, v: (byte, byte), ghost fs: seq<Field>, ghost c: seq<byte>)
    requires Holds(fs, c, resp.call, resp.View())
    modifies resp, resp.buffer
    ensures Holds(fs + [FVersion], c + PutVersion(v), resp.call, resp.View())
  {
    hide Codes;
    resp.WriteVersion(v.0, v.1);
    CodesSnoc(fs, FVersion);
  }

  /** handleGetTokenInfo's response: eighteen fields. */
  method WriteTokenInfo(call: uint32, text: seq<byte>, initialized: bool, info: TokenDetails) returns (resp: Body)
    ensures fresh(resp) && fresh(resp.buffer)
    ensures resp.View() == Render(call, TokenInfo(text, initialized, info))
  {
    hide PutText, U64, Codes, Holds, PutVersion, TOKEN_TEXTS, TOKEN_NUMBERS, TOKEN_TAIL;
    resp := new Body(call, [], []);
    StartsEmpty(call);
    ghost var c;
    c := WriteTokenTexts(resp, text, info);
    c := WriteTokenNumbers(resp, if initialized then 0x400 else 0, TOKEN_TEXTS, c);
    c := WriteTokenTail(resp, info, TOKEN_TEXTS + TOKEN_NUMBERS, c);
    HoldsMeans(TOKEN_TEXTS + TOKEN_NUMBERS + TOKEN_TAIL, c, call, resp.View());
  }

  method WriteTokenTexts(resp: Body, text: seq<byte>, info: TokenDetails) returns (ghost c: seq<byte>)
    requires Holds([], [], resp.call, resp.View())
    modifies resp, resp.buffer
    ensures Holds(TOKEN_TEXTS, c, resp.call, resp.View())
    ensures c == PutText(text, 32) + PutText(info.manufacturer, 32) + PutText(info.model, 16) + PutText(info.serial, 16)
  {
    hide PutText, Codes, Holds;
    AddText(resp, text, 32, [], []);
    c := PutText(text, 32);
    assert [] + c == c;
    ghost var fs := [] + [FString];
    AddText(resp, info.manufacturer, 32, fs, c);
    fs, c := fs + [FString], c + PutText(info.manufacturer, 32);
    AddText(resp, info.model, 16, fs, c);
    fs, c := fs + [FString], c + PutText(info.model, 16);
    AddText(resp, info.serial, 16, fs, c);
    fs, c := fs + [FString], c + PutText(info.serial, 16);
    assert fs == TOKEN_TEXTS;
  }

  method WriteTokenTail(resp: Body, info: TokenDetails, ghost fs0: seq<Field>, ghost c0: seq<byte>) returns (ghost c: seq<byte>)
    requires Holds(fs0, c0, resp.call, resp.View())
    modifies resp, resp.buffer
    ensures Holds(fs0 + TOKEN_TAIL, c, resp.call, resp.View())
    ensures c == c0 + PutVersion(info.hardware) + PutVersion(info.firmware) + PutText([], 16)
  {
    hide PutText, Codes, Holds, PutVersion;
    ghost var fs;
    fs, c := fs0, c0;
    AddVersion(resp, info.hardware, fs, c);
    fs, c := fs + [FVersion], c + PutVersion(info.hardware);
    AddVersion(resp, info.firmware, fs, c);
    fs, c := fs + [FVersion], c + PutVersion(info.firmware);
    AddText(resp, [], 16, fs, c);
    fs, c := fs + [FString], c + PutText([], 16);
    assert fs == fs0 + TOKEN_TAIL;
  }

  lemma StartsEmpty(call: uint32)
    ensures Holds([], [], call, BodyValue(call, [], [], None))
  {
  }

  lemma HoldsMeans(fs: seq<Field>, c: seq<byte>, call: uint32, view: BodyValue)
    requires Holds(fs, c, call, view)
    ensures view == BodyValue(call, Codes(fs), c, None)
  {
  }

  /** The eleven numbers: the flags, then the fixed limits. */
  method WriteTokenNumbers(resp: Body, flags: uint64, ghost fs0: seq<Field>, ghost c0: seq<byte>) returns (ghost c: seq<byte>)
    requires Holds(fs0, c0, resp.call, resp.View())
    modifies resp, resp.buffer
    ensures Holds(fs0 + TOKEN_NUMBERS, c, resp.call, resp.View())
    ensures c == c0 + U64(flags) + PutUlongs(TOKEN_LIMITS)
  {
    hide U64, Codes, Holds;
    AddNumber(resp, flags, fs0, c0);
    ghost var fs := fs0 + [FUlong];
    c := c0 + U64(flags);
    assert TOKEN_LIMITS[..0] == [] && c + PutUlongs([]) == c;
    for i := 0 to |TOKEN_LIMITS|
      invariant |fs| == |fs0| + 1 + i && fs[..|fs0|] == fs0 && forall j :: |fs0| <= j < |fs| ==> fs[j] == FUlong
      invariant c == c0 + U64(flags) + PutUlongs(TOKEN_LIMITS[..i]) && Holds(fs, c, resp.call, resp.View())
    {
      AddNumber(resp, TOKEN_LIMITS[i], fs, c);
      fs, c := fs + [FUlong], c + U64(TOKEN_LIMITS[i]);
      assert TOKEN_LIMITS[..i + 1][..i] == TOKEN_LIMITS[..i];
    }
    assert TOKEN_LIMITS[..|TOKEN_LIMITS|] == TOKEN_LIMITS;
    assert fs == fs0 + TOKEN_NUMBERS;
  }

  method WriteAnswer(call: uint32, a: Response) returns (resp: Body)
    ensures fresh(resp) && fresh(resp.buffer)
    ensures resp.View() == Render(call, a)
  {
    hide PutUlongArray, PutValue, U64;
    resp := new Body(call, [], []);
    match a
    case Done =>
    case Handle(n) =>
      resp.WriteUlong(n);
      Wrote1(FUlong, U64(n), call, resp.View());
    case Ids(ids) =>
      resp.WriteUlongArray(Some(ids), Length32(ids));
      Wrote1(FUlongArray, PutUlongArray(Some(ids), Length32(ids)), call, resp.View());
    case Values(attrs, status) =>
      resp.WriteAttributeArray(attrs);
      Wrote1(FAttributeArray, PutValue(VAttributes(attrs), FAttributeArray), call, resp.View());
      resp.WriteUlong(status);
      TwoCodes(FAttributeArray, FUlong);
    case Signature(sig) =>
      resp.WriteByteArray(Data(sig), Length32(sig));
      Wrote1(FByteArray, PutValue(VBytes(Data(sig), Length32(sig)), FByteArray), call, resp.View());
    case KeyPair(pub, priv) =>
      resp.WriteUlong(pub);
      Wrote1(FUlong, U64(pub), call, resp.View());
      resp.WriteUlong(priv);
      TwoCodes(FUlong, FUlong);
    case TokenInfo(text, initialized, info) =>
      resp := WriteTokenInfo(call, text, initialized, info);
  }

  lemma TwoCodes(f: Field, g: Field)
    ensures Codes([f, g]) == Codes([f]) + Code(g)
  {
    assert [f, g][1..] == [g] && [g][1..] == [] && [f][1..] == [] && Codes([]) == [];
    assert Code(f) + (Code(g) + []) == Code(f) + [] + Code(g);
  }
}

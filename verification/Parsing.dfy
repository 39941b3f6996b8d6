/** Every stateful request, from the bytes a client sends to the request the server understands. */
module Parsing {
  import opened Bytes
  import opened Wire
  import opened Attributes
  import opened Fields
  import opened Encodings
  import opened Sessions
  import opened Requests

  /** A signature as it is written. */
  function Ascii(s: string): seq<byte> {
    seq(|s|, i requires 0 <= i < |s| => s[i] as int % 128)
  }

  function PutTemplateList(types: seq<Template>): seq<byte> {
    U32(Length32(types)) + PutTemplates(types)
  }

  function PutList(attrs: seq<Attribute>): seq<byte> {
    U32(Length32(attrs)) + PutAttributes(attrs)
  }

  /** An optional byte array: present, or only a length. */
  function PutBytes(a: Slice, n: uint32): seq<byte> {
    if a.Nil? then [0] + U32(n) else [1] + PutByteArray(a.data)
  }

  predicate SendableList(attrs: seq<Attribute>) {
    |attrs| < TWO32 && AllWellTyped(attrs) && AllWireSafe(attrs)
  }

  lemma One(vs: seq<Value>, fs: seq<Field>)
    requires |vs| == |fs| == 1
    ensures PutValues(vs, fs) == PutValue(vs[0], fs[0]) && Codes(fs) == Code(fs[0])
  {
    hide PutValue;
    assert vs[1..] == [] && fs[1..] == [];
    assert PutValues([], []) == [] && Codes([]) == [];
  }

  lemma Two(vs: seq<Value>, fs: seq<Field>)
    requires |vs| == |fs| == 2
    ensures PutValues(vs, fs) == PutValue(vs[0], fs[0]) + PutValue(vs[1], fs[1]) && Codes(fs) == Code(fs[0]) + Code(fs[1])
  {
    hide PutValue;
    One(vs[1..], fs[1..]);
  }

  lemma Three(vs: seq<Value>, fs: seq<Field>)
    requires |vs| == |fs| == 3
    ensures PutValues(vs, fs) == PutValue(vs[0], fs[0]) + (PutValue(vs[1], fs[1]) + PutValue(vs[2], fs[2]))
    ensures Codes(fs) == Code(fs[0]) + (Code(fs[1]) + Code(fs[2]))
  {
    hide PutValue;
    Two(vs[1..], fs[1..]);
  }

  lemma Four(vs: seq<Value>, fs: seq<Field>)
    requires |vs| == |fs| == 4
    ensures PutValues(vs, fs) == PutValue(vs[0], fs[0]) + (PutValue(vs[1], fs[1]) + (PutValue(vs[2], fs[2]) + PutValue(vs[3], fs[3])))
    ensures Codes(fs) == Code(fs[0]) + (Code(fs[1]) + (Code(fs[2]) + Code(fs[3])))
  {
    hide PutValue;
    Three(vs[1..], fs[1..]);
  }

  /** A body with nothing read from it yet. */
  function Sent(call: uint32, signature: seq<byte>, fields: seq<byte>): BodyValue {
    BodyValue(call, signature, fields, None)
  }

  /** The three requests that read one number. */
  lemma OneNumber(n: uint64)
    ensures FieldsOf(6) != [] && ParseRequest(Sent(6, Ascii("u"), U64(n))) == Ok(GetTokenInfo(n))
    ensures FieldsOf(11) != [] && ParseRequest(Sent(11, Ascii("u"), U64(n))) == Ok(CloseSession(n))
    ensures FieldsOf(28) != [] && ParseRequest(Sent(28, Ascii("u"), U64(n))) == Ok(FindObjectsFinal(n))
  {
    hide ParseRequest, PutValues, Codes, U64;
    var vs, fs := [VUlong(n)], [FUlong];
    One(vs, fs);
    assert Codes(fs) == Ascii("u");
    RequestRoundTrip(6, vs);
    RequestRoundTrip(11, vs);
    RequestRoundTrip(28, vs);
  }

  lemma OpenSessionParses(slot: uint64, flags: uint64)
    ensures FieldsOf(10) != [] && ParseRequest(Sent(10, Ascii("uu"), U64(slot) + U64(flags))) == Ok(OpenSession(slot, flags))
  {
    hide ParseRequest, PutValues, Codes, U64;
    var vs, fs := [VUlong(slot), VUlong(flags)], [FUlong, FUlong];
    Two(vs, fs);
    assert Codes(fs) == Ascii("uu");
    RequestRoundTrip(10, vs);
  }

  /** The PIN is read and ignored. */
  lemma InitTokenParses(slot: uint64, pin: Slice, n: uint32, text: seq<byte>)
    requires |pin.Content()| < NULL_MARKER && (pin.Data? ==> n == 0) && |text| < NULL_MARKER
    ensures FieldsOf(9) != [] && ParseRequest(Sent(9, Ascii("uayz"), U64(slot) + (PutBytes(pin, n) + PutByteArray(text)))) == Ok(InitToken(slot, text))
  {
    hide ParseRequest, PutValues, Codes, U64, U32, PutByteArray;
    var vs, fs := [VUlong(slot), VBytes(pin, n), VText(text)], [FUlong, FByteArray, FZeroString];
    Three(vs, fs);
    assert Codes(fs) == Ascii("uayz");
    RequestRoundTrip(9, vs);
  }

  lemma GetAttributeValueParses(session: uint64, key: uint64, types: seq<Template>)
    requires |types| < TWO32
    ensures FieldsOf(24) != []
    ensures ParseRequest(Sent(24, Ascii("uufA"), U64(session) + (U64(key) + PutTemplateList(types)))) ==
            Ok(GetAttributeValue(session, key, types))
  {
    hide ParseRequest, PutValues, Codes, U64, U32, PutTemplates;
    var vs, fs := [VUlong(session), VUlong(key), VTemplates(types)], [FUlong, FUlong, FAttributeBuffer];
    Three(vs, fs);
    assert Codes(fs) == Ascii("uufA");
    RequestRoundTrip(24, vs);
  }

  lemma FindObjectsInitParses(session: uint64, tmpl: seq<Attribute>)
    requires SendableList(tmpl)
    ensures FieldsOf(26) != [] && ParseRequest(Sent(26, Ascii("uaA"), U64(session) + PutList(tmpl))) == Ok(FindObjectsInit(session, tmpl))
  {
    hide ParseRequest, PutValues, Codes, U64, U32, PutAttributes, AllWellTyped, AllWireSafe;
    var vs, fs := [VUlong(session), VAttributes(tmpl)], [FUlong, FAttributeArray];
    Two(vs, fs);
    assert Codes(fs) == Ascii("uaA");
    RequestRoundTrip(26, vs);
  }

  lemma FindObjectsParses(session: uint64, count: uint32)
    ensures FieldsOf(27) != [] && ParseRequest(Sent(27, Ascii("ufu"), U64(session) + U32(count))) == Ok(FindObjects(session, count))
  {
    hide ParseRequest, PutValues, Codes, U64, U32;
    var vs, fs := [VUlong(session), VCount(count)], [FUlong, FUlongBuffer];
    Two(vs, fs);
    assert Codes(fs) == Ascii("ufu");
    RequestRoundTrip(27, vs);
  }

  lemma SignInitParses(session: uint64, m: Mechanism, key: uint64)
    requires SendableMechanism(m)
    ensures FieldsOf(42) != [] && ParseRequest(Sent(42, Ascii("uMu"), U64(session) + (PutMechanism(m, true) + U64(key)))) == Ok(SignInit(session, m, key))
  {
    hide ParseRequest, PutValues, Codes, U64, PutMechanism, SendableMechanism;
    var vs, fs := [VUlong(session), VMechanism(m), VUlong(key)], [FUlong, FMechanism, FUlong];
    Three(vs, fs);
    assert Codes(fs) == Ascii("uMu");
    RequestRoundTrip(42, vs);
  }

  /** The announced length of the signature buffer is read and ignored. */
  lemma SignParses(session: uint64, data: Slice, n: uint32, room: uint32)
    requires |data.Content()| < NULL_MARKER && (data.Data? ==> n == 0)
    ensures FieldsOf(43) != [] && ParseRequest(Sent(43, Ascii("uayfy"), U64(session) + (PutBytes(data, n) + U32(room)))) == Ok(SignOnce(session, data))
  {
    hide ParseRequest, PutValues, Codes, U64, U32, PutByteArray;
    var vs, fs := [VUlong(session), VBytes(data, n), VCount(room)], [FUlong, FByteArray, FByteBuffer];
    Three(vs, fs);
    assert Codes(fs) == Ascii("uayfy");
    RequestRoundTrip(43, vs);
  }

  lemma SignUpdateParses(session: uint64, data: Slice, n: uint32)
    requires |data.Content()| < NULL_MARKER && (data.Data? ==> n == 0)
    ensures FieldsOf(44) != [] && ParseRequest(Sent(44, Ascii("uay"), U64(session) + PutBytes(data, n))) == Ok(SignUpdate(session, data))
  {
    hide ParseRequest, PutValues, Codes, U64, U32, PutByteArray;
    var vs, fs := [VUlong(session), VBytes(data, n)], [FUlong, FByteArray];
    Two(vs, fs);
    assert Codes(fs) == Ascii("uay");
    RequestRoundTrip(44, vs);
  }

  lemma SignFinalParses(session: uint64, room: uint32)
    ensures FieldsOf(45) != [] && ParseRequest(Sent(45, Ascii("ufy"), U64(session) + U32(room))) == Ok(SignFinal(session))
  {
    hide ParseRequest, PutValues, Codes, U64, U32;
    var vs, fs := [VUlong(session), VCount(room)], [FUlong, FByteBuffer];
    Two(vs, fs);
    assert Codes(fs) == Ascii("ufy");
    RequestRoundTrip(45, vs);
  }

  /** The public template comes first. */
  lemma GenerateKeyPairParses(session: uint64, m: Mechanism, pub: seq<Attribute>, priv: seq<Attribute>)
    requires SendableMechanism(m) && SendableList(pub) && SendableList(priv)
    ensures FieldsOf(59) != []
    ensures ParseRequest(Sent(59, Ascii("uMaAaA"), U64(session) + (PutMechanism(m, true) + (PutList(pub) + PutList(priv))))) ==
            Ok(GenerateKeyPair(session, m, pub, priv))
  {
    hide ParseRequest, PutValues, Codes, U64, U32, PutMechanism, SendableMechanism, PutAttributes, AllWellTyped, AllWireSafe;
    var vs, fs := [VUlong(session), VMechanism(m), VAttributes(pub), VAttributes(priv)], [FUlong, FMechanism, FAttributeArray, FAttributeArray];
    Four(vs, fs);
    assert Codes(fs) == Ascii("uMaAaA");
    RequestRoundTrip(59, vs);
  }

  lemma DeriveKeyParses(session: uint64, m: Mechanism, key: uint64, tmpl: seq<Attribute>)
    requires SendableMechanism(m) && SendableList(tmpl)
    ensures FieldsOf(62) != []
    ensures ParseRequest(Sent(62, Ascii("uMuaA"), U64(session) + (PutMechanism(m, true) + (U64(key) + PutList(tmpl))))) ==
            Ok(DeriveKey(session, m, key, tmpl))
  {
    hide ParseRequest, PutValues, Codes, U64, U32, PutMechanism, SendableMechanism, PutAttributes, AllWellTyped, AllWireSafe;
    var vs, fs := [VUlong(session), VMechanism(m), VUlong(key), VAttributes(tmpl)], [FUlong, FMechanism, FUlong, FAttributeArray];
    Four(vs, fs);
    assert Codes(fs) == Ascii("uMuaA");
    RequestRoundTrip(62, vs);
  }
}

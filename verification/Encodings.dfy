/** How a client encodes the fields that Fields reads, and the round trips: every field, list of
    fields and whole body comes back as sent, whatever bytes follow. */
module Encodings {
  import opened Bytes
  import opened Wire
  import opened Attributes
  import opened Fields

  /** A byte array that may be nil: nil is the NULL marker. */
  function PutSlice(a: Slice): seq<byte> {
    if a.Nil? then U32(NULL_MARKER) else PutByteArray(a.data)
  }

  function PutTemplates(ts: seq<Template>): seq<byte> {
    if ts == [] then [] else U32(ts[0].typ) + U32(ts[0].len) + PutTemplates(ts[1..])
  }

  function PutParams(p: Params): seq<byte> {
    match p
    case NoParams => []
    case Raw(bytes) => PutSlice(bytes)
    case Pss(hashAlg, mgf, saltLen) => U64(hashAlg) + (U64(mgf) + U64(saltLen))
    case Ecdh1(kdf, shared, public) => U64(kdf) + (PutSlice(shared) + PutSlice(public))
  }

  /** Since p11-kit 0.26 a mechanism without parameters is its type alone; before, a NULL marker
      followed it. Other mechanisms carry a presence byte and their parameters. */
  function PutMechanism(m: Mechanism, marker: bool): seq<byte> {
    if HasNoParameters(m.typ) then U32(m.typ) + (if marker then U32(NULL_MARKER) else [])
    else U32(m.typ) + ([1] + PutParams(m.params))
  }

  function PutValue(v: Value, f: Field): seq<byte> {
    match v
    case VAttributes(attrs) => U32(Length32(attrs)) + PutAttributes(attrs)
    case VTemplates(ts) => U32(Length32(ts)) + PutTemplates(ts)
    case VByte(c) => [c]
    case VBytes(arr, len) => if arr.Nil? then [0] + U32(len) else [1] + PutByteArray(arr.data)
    case VCount(n) => U32(n)
    case VMechanism(m) => PutMechanism(m, true)
    case VUlong(n) => U64(n)
    case VText(t) => PutByteArray(t)
  }

  predicate ShortSlice(a: Slice) {
    |a.Content()| < NULL_MARKER
  }

  /** The parameters a mechanism of this type can carry. */
  predicate SendableMechanism(m: Mechanism) {
    if HasNoParameters(m.typ) then m.params == Raw(Data([]))
    else if m.typ == CKM_RSA_PKCS_PSS then m.params.Pss?
    else if m.typ == CKM_ECDH1_DERIVE then
      m.params.Ecdh1? && ShortSlice(m.params.sharedData) && ShortSlice(m.params.publicData)
    else m.params.Raw? && ShortSlice(m.params.bytes)
  }

  /** The value belongs to the field's code and is within the codec's bounds. */
  predicate Sendable(v: Value, f: Field) {
    match f
    case FAttributeArray => v.VAttributes? && |v.attrs| < TWO32 && AllWellTyped(v.attrs) && AllWireSafe(v.attrs)
    case FAttributeBuffer => v.VTemplates? && |v.tmpl| < TWO32
    case FByte => v.VByte?
    case FByteArray => v.VBytes? && ShortSlice(v.arr) && (v.arr.Data? ==> v.len == 0)
    case FByteBuffer => v.VCount?
    case FUlongBuffer => v.VCount?
    case FMechanism => v.VMechanism? && SendableMechanism(v.m)
    case FUlong => v.VUlong?
    case FZeroString => v.VText? && |v.text| < NULL_MARKER
    case _ => false
  }

  lemma SliceRoundTrip(a: Slice, s: seq<byte>)
    requires ShortSlice(a)
    ensures GetByteArray(PutSlice(a) + s) == Got(a, s)
  {
    if a.Nil? {
      U32RoundTrip(NULL_MARKER, s);
    } else {
      ByteArrayRoundTrip(a.data, s);
    }
  }

  lemma {:induction false} TemplatesRoundTrip(done: seq<Template>, ts: seq<Template>, s: seq<byte>)
    ensures GetTemplates(done, |ts|, PutTemplates(ts) + s) == Got(done + ts, s)
    decreases ts
  {
    hide GetU32, U32;
    if ts == [] {
      assert done + ts == done && PutTemplates(ts) + s == s;
    } else {
      var tail := PutTemplates(ts[1..]) + s;
      assert PutTemplates(ts) + s == U32(ts[0].typ) + (U32(ts[0].len) + tail);
      U32RoundTrip(ts[0].typ, U32(ts[0].len) + tail);
      U32RoundTrip(ts[0].len, tail);
      TemplatesRoundTrip(done + [ts[0]], ts[1..], s);
      assert done + [ts[0]] + ts[1..] == done + ts;
    }
  }

  lemma PssRoundTrip(p: Params, s: seq<byte>)
    requires p.Pss?
    ensures GetPss(PutParams(p) + s) == Got(p, s)
  {
    hide GetU64;
    var t := U64(p.saltLen) + s;
    assert PutParams(p) + s == U64(p.hashAlg) + (U64(p.mgf) + t);
    U64RoundTrip(p.hashAlg, U64(p.mgf) + t);
    U64RoundTrip(p.mgf, t);
    U64RoundTrip(p.saltLen, s);
  }

  lemma Ecdh1RoundTrip(p: Params, s: seq<byte>)
    requires p.Ecdh1? && ShortSlice(p.sharedData) && ShortSlice(p.publicData)
    ensures GetEcdh1(PutParams(p) + s) == Got(p, s)
  {
    hide GetU64, GetByteArray, PutSlice;
    var t := PutSlice(p.publicData) + s;
    assert PutParams(p) + s == U64(p.kdf) + (PutSlice(p.sharedData) + t);
    U64RoundTrip(p.kdf, PutSlice(p.sharedData) + t);
    SliceRoundTrip(p.sharedData, t);
    SliceRoundTrip(p.publicData, s);
  }

  lemma ParamsRoundTrip(m: Mechanism, s: seq<byte>)
    requires SendableMechanism(m) && !HasNoParameters(m.typ)
    ensures GetParams(m.typ, [1] + PutParams(m.params) + s) == Got(m.params, s)
  {
    hide GetPss, GetEcdh1, GetByteArray, PutSlice;
    var b := [1] + PutParams(m.params) + s;
    assert b[1..] == PutParams(m.params) + s;
    if m.typ == CKM_RSA_PKCS_PSS {
      PssRoundTrip(m.params, s);
    } else if m.typ == CKM_ECDH1_DERIVE {
      Ecdh1RoundTrip(m.params, s);
    } else {
      SliceRoundTrip(m.params.bytes, s);
    }
  }

  /** With the marker a mechanism round-trips before any bytes. Without it, a parameter-less
      mechanism round-trips exactly when what follows is not itself the marker. */
  lemma MechanismRoundTrip(m: Mechanism, marker: bool, s: seq<byte>)
    requires SendableMechanism(m)
    ensures GetMechanism(PutMechanism(m, marker) + s) == Got(m, s) <==>
            marker || !HasNoParameters(m.typ) || !PeekU32(s, NULL_MARKER)
  {
    hide GetU32, U32, GetParams, SendableMechanism, HasNoParameters, PutParams;
    if HasNoParameters(m.typ) {
      var t := (if marker then U32(NULL_MARKER) else []) + s;
      assert PutMechanism(m, marker) + s == U32(m.typ) + t;
      U32RoundTrip(m.typ, t);
      BareParams(m, marker, s);
    } else {
      var t := [1] + PutParams(m.params) + s;
      assert PutMechanism(m, marker) + s == U32(m.typ) + t;
      U32RoundTrip(m.typ, t);
      ParamsRoundTrip(m, s);
    }
  }

  lemma BareParams(m: Mechanism, marker: bool, s: seq<byte>)
    requires SendableMechanism(m) && HasNoParameters(m.typ)
    ensures GetParams(m.typ, (if marker then U32(NULL_MARKER) else []) + s) ==
            Got(m.params, if !marker && PeekU32(s, NULL_MARKER) then s[4..] else s)
  {
    var t := (if marker then U32(NULL_MARKER) else []) + s;
    if marker {
      assert t[..4] == U32(NULL_MARKER) && t[4..] == s;
      Pow256Values();
      NatOfBE(NULL_MARKER, 4);
    } else {
      assert t == s;
    }
  }

  /** Every sendable field followed by anything decodes to itself and exactly that suffix. */
  lemma FieldRoundTrip(v: Value, f: Field, s: seq<byte>)
    requires Sendable(v, f)
    ensures f.Readable() && GetField(f, PutValue(v, f) + s) == Got(v, s)
  {
    hide GetU32, GetU64, GetByteArray, GetMechanism, GetAttributes, GetTemplates, GetOptionalBytes;
    hide AllWellTyped, AllWireSafe, PutMechanism, SendableMechanism;
    match f
    case FAttributeArray => ArrayRoundTrip(v, s);
    case FAttributeBuffer => TemplateBufferRoundTrip(v, s);
    case FByte =>
    case FByteArray =>
      OptionalBytesRoundTrip(v, s);
    case FByteBuffer => U32RoundTrip(v.count, s);
    case FUlongBuffer => U32RoundTrip(v.count, s);
    case FMechanism => MechanismRoundTrip(v.m, true, s);
    case FUlong => U64RoundTrip(v.n, s);
    case FZeroString => ByteArrayRoundTrip(v.text, s);
  }

  lemma ArrayRoundTrip(v: Value, s: seq<byte>)
    requires Sendable(v, FAttributeArray)
    ensures GetField(FAttributeArray, PutValue(v, FAttributeArray) + s) == Got(v, s)
  {
    hide GetU32, GetAttributes, AllWellTyped, AllWireSafe;
    var t := PutAttributes(v.attrs) + s;
    assert PutValue(v, FAttributeArray) + s == U32(|v.attrs|) + t;
    U32RoundTrip(|v.attrs|, t);
    AttributesRoundTrip([], v.attrs, s);
    assert [] + v.attrs == v.attrs;
  }

  lemma TemplateBufferRoundTrip(v: Value, s: seq<byte>)
    requires Sendable(v, FAttributeBuffer)
    ensures GetField(FAttributeBuffer, PutValue(v, FAttributeBuffer) + s) == Got(v, s)
  {
    hide GetU32, GetTemplates;
    var t := PutTemplates(v.tmpl) + s;
    assert PutValue(v, FAttributeBuffer) + s == U32(|v.tmpl|) + t;
    U32RoundTrip(|v.tmpl|, t);
    TemplatesRoundTrip([], v.tmpl, s);
    assert [] + v.tmpl == v.tmpl;
  }

  lemma OptionalBytesRoundTrip(v: Value, s: seq<byte>)
    requires Sendable(v, FByteArray)
    ensures GetOptionalBytes(PutValue(v, FByteArray) + s) == Got(v, s)
  {
    hide GetU32, GetByteArray;
    var t := (if v.arr.Nil? then U32(v.len) else PutByteArray(v.arr.data)) + s;
    assert PutValue(v, FByteArray) + s == [if v.arr.Nil? then 0 else 1] + t;
    if v.arr.Nil? {
      U32RoundTrip(v.len, s);
    } else {
      ByteArrayRoundTrip(v.arr.data, s);
    }
  }

  function PutValues(vs: seq<Value>, fs: seq<Field>): seq<byte>
    requires |vs| == |fs|
  {
    if vs == [] then [] else PutValue(vs[0], fs[0]) + PutValues(vs[1..], fs[1..])
  }

  predicate AllSendable(vs: seq<Value>, fs: seq<Field>) {
    |vs| == |fs| && forall i :: 0 <= i < |vs| ==> Sendable(vs[i], fs[i])
  }

  lemma {:induction false} FieldsRoundTrip(vs: seq<Value>, fs: seq<Field>, s: seq<byte>)
    requires AllSendable(vs, fs)
    ensures AllReadable(fs) && GetFields(fs, PutValues(vs, fs) + s) == Got(vs, s)
    decreases vs
  {
    hide GetField, PutValue, Sendable;
    forall i | 0 <= i < |fs| ensures fs[i].Readable() {
      FieldRoundTrip(vs[i], fs[i], []);
    }
    if vs == [] {
      assert PutValues(vs, fs) + s == s;
    } else {
      var tail := PutValues(vs[1..], fs[1..]) + s;
      assert PutValues(vs, fs) + s == PutValue(vs[0], fs[0]) + tail;
      FieldRoundTrip(vs[0], fs[0], tail);
      FieldsRoundTrip(vs[1..], fs[1..], s);
      assert vs == [vs[0]] + vs[1..];
    }
  }

  /** A body written field by field reads back, with no error, as the same fields. */
  lemma BodyRoundTrip(call: uint32, vs: seq<Value>, fs: seq<Field>)
    requires AllSendable(vs, fs)
    ensures AllReadable(fs)
    ensures var (b, r) := ReadFields(fs, BodyValue(call, Codes(fs), PutValues(vs, fs), None));
            b.Err().None? && r == vs
  {
    FieldsRoundTrip(vs, fs, []);
    assert PutValues(vs, fs) + [] == PutValues(vs, fs);
    ReadsExactly(fs, BodyValue(call, Codes(fs), PutValues(vs, fs), None));
  }

  const SIGN_INIT_FIELDS: seq<Field> := [FUlong, FMechanism, FUlong]

  /** C_SignInit's session, mechanism and key, with the mechanism in either encoding. */
  function SignInitBuffer(session: uint64, m: Mechanism, marker: bool, key: uint64): seq<byte> {
    U64(session) + (PutMechanism(m, marker) + U64(key))
  }

  lemma MarkerPrefix(key: uint64)
    ensures PeekU32(U64(key), NULL_MARKER) <==> key >= 0xffff_ffff_0000_0000
  {
    BEPrefix(key, 8, 4);
    Pow256Values();
    NatOfBE(key / TWO32, 4);
  }

  lemma {:induction false} BEPrefix(n: nat, k: nat, j: nat)
    requires j <= k
    ensures BE(n, k)[..j] == BE(n / Pow256(k - j), j)
    decreases k
  {
    if j == k {
      assert BE(n, k)[..j] == BE(n, k);
    } else {
      BEPrefix(n / 256, k - 1, j);
      assert BE(n, k)[..j] == BE(n / 256, k - 1)[..j];
      DivTwice(n, Pow256(k - 1 - j));
    }
  }

  /** For mechanisms without parameters, the old encoding always parses to the intended triple; the
      new one does exactly when the key handle is below 0xffffffff00000000, and is a parse error
      otherwise. */
  lemma SignInitEncodings(session: uint64, m: Mechanism, marker: bool, key: uint64)
    requires SendableMechanism(m) && HasNoParameters(m.typ)
    ensures var p := GetFields(SIGN_INIT_FIELDS, SignInitBuffer(session, m, marker, key));
            if marker || key < 0xffff_ffff_0000_0000
            then p == Got([VUlong(session), VMechanism(m), VUlong(key)], [])
            else p.Short?
  {
    hide GetU64, GetMechanism, PutMechanism;
    var s := PutMechanism(m, marker) + U64(key);
    U64RoundTrip(session, s);
    U64RoundTrip(key, []);
    assert U64(key) + [] == U64(key);
    MechanismRoundTrip(m, marker, U64(key));
    MarkerPrefix(key);
    if marker || key < 0xffff_ffff_0000_0000 {
      ThreeFields(U64(session) + s, Got(session, s), Got(m, U64(key)), Got(key, []));
    } else {
      SwallowedKey(m, key);
      ThreeFields(U64(session) + s, Got(session, s), Got(m, U64(key)[4..]), GetU64(U64(key)[4..]));
    }
  }

  lemma ThreeFields(b: seq<byte>, p: Parse<uint64>, q: Parse<Mechanism>, r: Parse<uint64>)
    requires p.Got? && GetU64(b) == p && q.Got? && GetMechanism(p.rest) == q && GetU64(q.rest) == r
    ensures GetFields(SIGN_INIT_FIELDS, b) ==
            if r.Short? then Short(r.rest) else Got([VUlong(p.value), VMechanism(q.value), VUlong(r.value)], r.rest)
  {
    hide GetU64, GetMechanism;
    FirstField(FUlong, [], q.rest);
    FirstField(FMechanism, [FUlong], p.rest);
    FirstField(FUlong, [FMechanism, FUlong], b);
    assert SIGN_INIT_FIELDS == [FUlong] + [FMechanism, FUlong] && [FMechanism, FUlong] == [FMechanism] + [FUlong];
    assert [FUlong] == [FUlong] + [];
    if r.Got? {
      assert [VUlong(p.value)] + ([VMechanism(q.value)] + ([VUlong(r.value)] + [])) ==
             [VUlong(p.value), VMechanism(q.value), VUlong(r.value)];
    }
  }

  lemma FirstField(f: Field, fs: seq<Field>, b: seq<byte>)
    requires f.Readable() && AllReadable(fs)
    ensures AllReadable([f] + fs)
    ensures var p := GetField(f, b);
            GetFields([f] + fs, b) ==
            if p.Short? then Short(p.rest)
            else var q := GetFields(fs, p.rest); if q.Short? then q else Got([p.value] + q.value, q.rest)
  {
    assert ([f] + fs)[1..] == fs;
  }

  /** A key handle that begins with the marker loses its first half to the mechanism. */
  lemma SwallowedKey(m: Mechanism, key: uint64)
    requires SendableMechanism(m) && HasNoParameters(m.typ) && PeekU32(U64(key), NULL_MARKER)
    ensures GetMechanism(PutMechanism(m, false) + U64(key)) == Got(m, U64(key)[4..])
    ensures GetU64(U64(key)[4..]).Short?
  {
    assert PutMechanism(m, false) + U64(key) == U32(m.typ) + U64(key);
    U32RoundTrip(m.typ, U64(key));
  }
}

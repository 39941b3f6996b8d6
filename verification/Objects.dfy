/** Objects and their attribute lists (attribute.go): lookup, matching, template override, and the
    lists the constructors build. */
module Objects {
  import opened Bytes
  import opened Dates
  import opened Attributes
  import opened Fields

  const CKR_SLOT_ID_INVALID: uint64 := 0x3
  const CKR_GENERAL_ERROR: uint64 := 0x5
  const CKR_ARGUMENTS_BAD: uint64 := 0x7
  const CKR_ATTRIBUTE_TYPE_INVALID: uint64 := 0x12
  const CKR_ATTRIBUTE_VALUE_INVALID: uint64 := 0x13
  const CKR_FUNCTION_NOT_SUPPORTED: uint64 := 0x54
  const CKR_KEY_HANDLE_INVALID: uint64 := 0x60
  const CKR_KEY_SIZE_RANGE: uint64 := 0x62
  const CKR_KEY_TYPE_INCONSISTENT: uint64 := 0x63
  const CKR_KEY_FUNCTION_NOT_PERMITTED: uint64 := 0x68
  const CKR_MECHANISM_INVALID: uint64 := 0x70
  const CKR_MECHANISM_PARAM_INVALID: uint64 := 0x71
  const CKR_OBJECT_HANDLE_INVALID: uint64 := 0x82
  const CKR_SESSION_HANDLE_INVALID: uint64 := 0xb3
  const CKR_SESSION_PARALLEL_NOT_SUPPORTED: uint64 := 0xb4
  const CKR_TEMPLATE_INCOMPLETE: uint64 := 0xd0
  const CKR_DOMAIN_PARAMS_INVALID: uint64 := 0x130
  const CKR_CURVE_NOT_SUPPORTED: uint64 := 0x140
  const CKR_CRYPTOKI_ALREADY_INITIALIZED: uint64 := 0x191

  const CKO_CERTIFICATE: uint64 := 1
  const CKO_PUBLIC_KEY: uint64 := 2
  const CKO_PRIVATE_KEY: uint64 := 3
  const CKO_SECRET_KEY: uint64 := 4
  const CKK_RSA: uint64 := 0
  const CKK_GENERIC_SECRET: uint64 := 0
  const CKK_ECDSA: uint64 := 3

  type Outcome<T> = Result<T, Error>

  /** The curves the package names; any other only ever causes an error. */
  datatype Curve = P224 | P256 | P384 | P521 | OtherCurve(bits: nat) {
    /** Field size; the named curves' group orders have the same bit length. */
    function BitSize(): nat {
      match this
      case P224 => 224
      case P256 => 256
      case P384 => 384
      case P521 => 521
      case OtherCurve(n) => n
    }

    function ByteLen(): nat {
      (BitSize() + 7) / 8
    }
  }

  datatype PublicKey = EcPublic(curve: Curve, x: nat, y: nat) | RsaPublic(modulus: nat, exponent: nat) | OtherPublic

  /** A crypto.Signer. The scalar is present when it is an *ecdsa.PrivateKey rather than, say, a
      hardware-backed signer with the same kind of public key. */
  datatype PrivateKey = PrivateKey(id: nat, public: PublicKey, scalar: Option<nat>)

  datatype Object = Object(id: uint64, attributes: seq<Attribute>, pub: Option<PublicKey>, priv: Option<PrivateKey>) {
    predicate WellTyped() {
      AllWellTyped(attributes)
    }
  }

  const NO_OBJECT: Object := Object(0, [], None, None)

  /** attributeValue: the first attribute of the type. */
  function Lookup(attrs: seq<Attribute>, typ: uint32): (a: Option<Attribute>)
    ensures a.Some? ==> a.value in attrs && a.value.typ == typ
  {
    if attrs == [] then None
    else if attrs[0].typ == typ then Some(attrs[0])
    else Lookup(attrs[1..], typ)
  }

  /** matches: the first attribute of the entry's type decides, by its encoding. */
  predicate Matches(attrs: seq<Attribute>, t: Attribute) {
    attrs != [] &&
    if attrs[0].typ != t.typ then Matches(attrs[1..], t)
    else attrs[0].Value().Content() == t.Value().Content()
  }

  predicate MatchesAll(attrs: seq<Attribute>, tmpl: seq<Attribute>) {
    forall t :: t in tmpl ==> Matches(attrs, t)
  }

  /** Matching is lookup plus equality of encodings: nil never equals an empty encoding. */
  lemma {:induction false} MatchesIsLookup(attrs: seq<Attribute>, t: Attribute)
    ensures Matches(attrs, t) <==>
            Lookup(attrs, t.typ).Some? && Lookup(attrs, t.typ).value.Value() == t.Value()
  {
    hide Attribute.Value;
    if attrs != [] && attrs[0].typ != t.typ {
      MatchesIsLookup(attrs[1..], t);
    }
  }

  /** For well-typed attributes that are not dates, matching is equality of values. */
  lemma MatchesIsEquality(attrs: seq<Attribute>, t: Attribute)
    requires AllWellTyped(attrs) && t.WellTyped() && ValueType(t.typ) != DateKind
    ensures Matches(attrs, t) <==> Lookup(attrs, t.typ) == Some(t)
  {
    MatchesIsLookup(attrs, t);
    if Lookup(attrs, t.typ).Some? {
      EncodingInjective(Lookup(attrs, t.typ).value, t);
    }
  }

  /** One step of setAttributes: replace the first attribute of the type, or append. */
  function SetOne(attrs: seq<Attribute>, a: Attribute): seq<Attribute> {
    if attrs == [] then [a]
    else if attrs[0].typ == a.typ then [a] + attrs[1..]
    else [attrs[0]] + SetOne(attrs[1..], a)
  }

  function SetAll(attrs: seq<Attribute>, tmpl: seq<Attribute>): seq<Attribute>
    decreases tmpl
  {
    if tmpl == [] then attrs else SetAll(SetOne(attrs, tmpl[0]), tmpl[1..])
  }

  /** The last template entry of a type. */
  function LastOf(tmpl: seq<Attribute>, typ: uint32): (a: Option<Attribute>)
    ensures a.Some? ==> a.value in tmpl && a.value.typ == typ
    ensures a.None? ==> forall t :: t in tmpl ==> t.typ != typ
  {
    if tmpl == [] then None
    else if tmpl[|tmpl| - 1].typ == typ then Some(tmpl[|tmpl| - 1])
    else LastOf(tmpl[..|tmpl| - 1], typ)
  }

  lemma {:induction false} SetOneAt(attrs: seq<Attribute>, a: Attribute, i: nat)
    requires i <= |attrs| && forall j :: 0 <= j < i ==> attrs[j].typ != a.typ
    ensures i == |attrs| ==> SetOne(attrs, a) == attrs + [a]
    ensures i < |attrs| && attrs[i].typ == a.typ ==> SetOne(attrs, a) == attrs[i := a]
  {
    if i > 0 {
      SetOneAt(attrs[1..], a, i - 1);
    }
  }

  lemma {:induction false} LookupSetOne(attrs: seq<Attribute>, a: Attribute, typ: uint32)
    ensures Lookup(SetOne(attrs, a), typ) == if typ == a.typ then Some(a) else Lookup(attrs, typ)
  {
    if attrs != [] {
      LookupSetOne(attrs[1..], a, typ);
      assert SetOne(attrs, a)[1..] == if attrs[0].typ == a.typ then attrs[1..] else SetOne(attrs[1..], a);
    }
  }

  lemma {:induction false} LastOfCons(tmpl: seq<Attribute>, typ: uint32)
    requires tmpl != []
    ensures LastOf(tmpl, typ) ==
            if LastOf(tmpl[1..], typ).Some? then LastOf(tmpl[1..], typ)
            else if tmpl[0].typ == typ then Some(tmpl[0]) else None
  {
    if |tmpl| > 1 && tmpl[|tmpl| - 1].typ != typ {
      LastOfCons(tmpl[..|tmpl| - 1], typ);
      assert tmpl[..|tmpl| - 1][1..] == tmpl[1..][..|tmpl| - 2];
    }
  }

  /** After setAttributes, lookup gives the last template entry of a type and otherwise what was
      there before. */
  lemma {:induction false} LookupSetAll(attrs: seq<Attribute>, tmpl: seq<Attribute>, typ: uint32)
    ensures Lookup(SetAll(attrs, tmpl), typ) ==
            if LastOf(tmpl, typ).Some? then LastOf(tmpl, typ) else Lookup(attrs, typ)
    decreases tmpl
  {
    if tmpl != [] {
      LookupSetAll(SetOne(attrs, tmpl[0]), tmpl[1..], typ);
      LookupSetOne(attrs, tmpl[0], typ);
      LastOfCons(tmpl, typ);
    }
  }

  /** A key carrying a template is found by that template exactly when no entry is contradicted by
      a later one of the same type. */
  lemma FoundByOwnTemplate(attrs: seq<Attribute>, tmpl: seq<Attribute>)
    ensures MatchesAll(SetAll(attrs, tmpl), tmpl) <==>
            forall t :: t in tmpl ==> LastOf(tmpl, t.typ).Some? && LastOf(tmpl, t.typ).value.Value() == t.Value()
  {
    hide Attribute.Value;
    forall t | t in tmpl
      ensures Matches(SetAll(attrs, tmpl), t) <==> LastOf(tmpl, t.typ).Some? && LastOf(tmpl, t.typ).value.Value() == t.Value()
    {
      MatchesIsLookup(SetAll(attrs, tmpl), t);
      LookupSetAll(attrs, tmpl, t.typ);
    }
  }

  lemma {:induction false} LookupAppend(a: seq<Attribute>, b: seq<Attribute>, typ: uint32)
    ensures Lookup(a + b, typ) == if Lookup(a, typ).Some? then Lookup(a, typ) else Lookup(b, typ)
  {
    if a == [] {
      assert a + b == b;
    } else {
      assert (a + b)[1..] == a[1..] + b;
      LookupAppend(a[1..], b, typ);
    }
  }

  lemma {:induction false} LookupAbsent(a: seq<Attribute>, typ: uint32)
    requires forall i :: 0 <= i < |a| ==> a[i].typ != typ
    ensures Lookup(a, typ) == None
  {
    if a != [] {
      LookupAbsent(a[1..], typ);
    }
  }

  predicate DuplicateFree(tmpl: seq<Attribute>) {
    forall i, j :: 0 <= i < j < |tmpl| ==> tmpl[i].typ != tmpl[j].typ
  }

  lemma FoundByDuplicateFree(attrs: seq<Attribute>, tmpl: seq<Attribute>)
    requires DuplicateFree(tmpl)
    ensures MatchesAll(SetAll(attrs, tmpl), tmpl)
  {
    forall t | t in tmpl ensures LastOf(tmpl, t.typ) == Some(t) {
      var l := LastOf(tmpl, t.typ);
      var i :| 0 <= i < |tmpl| && tmpl[i] == t;
      var j :| 0 <= j < |tmpl| && tmpl[j] == l.value;
      assert i == j;
    }
    FoundByOwnTemplate(attrs, tmpl);
  }

  lemma {:induction false} SetOneWellTyped(attrs: seq<Attribute>, a: Attribute)
    requires AllWellTyped(attrs) && a.WellTyped()
    ensures AllWellTyped(SetOne(attrs, a))
  {
    hide Attribute.WellTyped;
    if attrs != [] {
      assert AllWellTyped(attrs[1..]);
      SetOneWellTyped(attrs[1..], a);
    }
  }

  lemma {:induction false} SetAllWellTyped(attrs: seq<Attribute>, tmpl: seq<Attribute>)
    requires AllWellTyped(attrs) && AllWellTyped(tmpl)
    ensures AllWellTyped(SetAll(attrs, tmpl))
    decreases tmpl
  {
    hide Attribute.WellTyped;
    if tmpl != [] {
      SetOneWellTyped(attrs, tmpl[0]);
      SetAllWellTyped(SetOne(attrs, tmpl[0]), tmpl[1..]);
    }
  }

  /** Library encodings of a key; None where the library reports an error. */
  datatype Der = Der(spki: Option<seq<byte>>, curveParams: Option<seq<byte>>, point: Option<seq<byte>>)

  /** big.Int.Bytes: big-endian without leading zeros. */
  function MinimalBytes(n: nat): seq<byte> {
    BE(n, (BitLen(n) + 7) / 8)
  }

  function Flag(typ: uint32, b: bool): Attribute {
    OfByte(typ, if b then 1 else 0)
  }

  function CommonAttributes(spki: seq<byte>, isPrivate: bool): seq<Attribute> {
    [OfUlong(CKA_CLASS, if isPrivate then CKO_PRIVATE_KEY else CKO_PUBLIC_KEY),
     Flag(CKA_VERIFY_RECOVER, false),
     Flag(CKA_WRAP, false),
     Flag(CKA_DERIVE, false),
     Flag(CKA_VERIFY, !isPrivate),
     Flag(CKA_LOCAL, false),
     OfBytes(CKA_PUBLIC_KEY_INFO, Data(spki))]
  }

  const PRIVATE_ATTRIBUTES: seq<Attribute> :=
    [Flag(CKA_TOKEN, true),
     Flag(CKA_SENSITIVE, true),
     Flag(CKA_ALWAYS_SENSITIVE, true),
     Flag(CKA_EXTRACTABLE, false),
     Flag(CKA_NEVER_EXTRACTABLE, true),
     Flag(CKA_ALWAYS_AUTHENTICATE, false),
     Flag(CKA_SIGN, true),
     Flag(CKA_UNWRAP, false)]

  function EcAttributes(params: seq<byte>, point: seq<byte>, isPrivate: bool): seq<Attribute> {
    [OfUlong(CKA_KEY_TYPE, CKK_ECDSA), OfBytes(CKA_EC_PARAMS, Data(params))] +
    if isPrivate then [Flag(CKA_DECRYPT, false), Empty(CKA_VALUE)]
    else [Flag(CKA_ENCRYPT, false), OfBytes(CKA_EC_POINT, Data(point))]
  }

  function RsaAttributes(modulus: nat, exponent: nat, isPrivate: bool): seq<Attribute> {
    [OfUlong(CKA_KEY_TYPE, CKK_RSA),
     OfBytes(CKA_MODULUS, Data(MinimalBytes(modulus))),
     OfUlong(CKA_MODULUS_BITS, |MinimalBytes(modulus)| * 8 % TWO64),
     OfBytes(CKA_PUBLIC_EXPONENT, Data(MinimalBytes(exponent)))] +
    if isPrivate then
      [Flag(CKA_DECRYPT, true),
       Empty(CKA_PRIVATE_EXPONENT), Empty(CKA_PRIME_1), Empty(CKA_PRIME_2),
       Empty(CKA_EXPONENT_1), Empty(CKA_EXPONENT_2), Empty(CKA_COEFFICIENT)]
    else [Flag(CKA_ENCRYPT, true)]
  }

  /** newKeyObject: the attribute list of a key. */
  function NewKeyObject(pub: PublicKey, isPrivate: bool, der: Der): Outcome<seq<Attribute>> {
    if der.spki.None? then Err(Internal)
    else
      var attrs := CommonAttributes(der.spki.value, isPrivate) + if isPrivate then PRIVATE_ATTRIBUTES else [];
      match pub
      case EcPublic(curve, _, _) =>
        if curve.OtherCurve? || der.curveParams.None? || (!isPrivate && der.point.None?) then Err(Internal)
        else Ok(attrs + EcAttributes(der.curveParams.value, der.point.GetOr([]), isPrivate))
      case RsaPublic(n, e) => Ok(attrs + RsaAttributes(n, e, isPrivate))
      case OtherPublic => Err(Internal)
  }

  function NewPrivateKeyObject(priv: PrivateKey, id: Option<uint64>, der: Der): Outcome<Object> {
    if id.None? then Err(Internal)
    else
      match NewKeyObject(priv.public, true, der)
      case Err(e) => Err(e)
      case Ok(attrs) => Ok(Object(id.value, attrs, None, Some(priv)))
  }

  function NewPublicKeyObject(pub: PublicKey, id: Option<uint64>, der: Der): Outcome<Object> {
    if id.None? then Err(Internal)
    else
      match NewKeyObject(pub, false, der)
      case Err(e) => Err(e)
      case Ok(attrs) => Ok(Object(id.value, attrs, Some(pub), None))
  }

  /** The parts of an X.509 certificate the package stores; serial is its DER encoding. */
  datatype Certificate = Certificate(
    serial: Option<seq<byte>>, raw: Slice, subject: Slice, issuer: Slice, spki: Slice, notBefore: Date, notAfter: Date)

  function CertificateIdentity(cert: Certificate): seq<Attribute> {
    [Flag(CKA_TOKEN, true),
     OfUlong(CKA_CLASS, CKO_CERTIFICATE),
     OfUlong(CKA_CERTIFICATE_TYPE, 0),
     OfBytes(CKA_SUBJECT, cert.subject),
     OfBytes(CKA_ISSUER, cert.issuer),
     OfBytes(CKA_VALUE, cert.raw)]
  }

  function CertificateDetails(cert: Certificate, serial: Slice): seq<Attribute> {
    [OfBytes(CKA_ID, serial),
     OfBytes(CKA_SERIAL_NUMBER, serial),
     OfDate(CKA_START_DATE, cert.notBefore),
     OfDate(CKA_END_DATE, cert.notAfter),
     OfBytes(CKA_PUBLIC_KEY_INFO, cert.spki)]
  }

  function NewX509CertificateObject(cert: Certificate, id: Option<uint64>): Outcome<Object> {
    if id.None? || cert.serial.None? then Err(Internal)
    else Ok(Object(id.value, CertificateIdentity(cert) + CertificateDetails(cert, Data(cert.serial.value)), None, None))
  }

  lemma WellTypedAppend(a: seq<Attribute>, b: seq<Attribute>)
    requires AllWellTyped(a) && AllWellTyped(b)
    ensures AllWellTyped(a + b)
  {
    hide Attribute.WellTyped;
  }

  lemma CommonWellTyped(spki: seq<byte>, isPrivate: bool)
    ensures AllWellTyped(CommonAttributes(spki, isPrivate))
  {
  }

  lemma PrivateWellTyped()
    ensures AllWellTyped(PRIVATE_ATTRIBUTES)
  {
  }

  lemma EcWellTyped(params: seq<byte>, point: seq<byte>, isPrivate: bool)
    ensures AllWellTyped(EcAttributes(params, point, isPrivate))
  {
  }

  lemma RsaWellTyped(modulus: nat, exponent: nat, isPrivate: bool)
    ensures AllWellTyped(RsaAttributes(modulus, exponent, isPrivate))
  {
  }

  /** Every constructor builds well-typed attributes. */
  lemma KeysWellTyped(pub: PublicKey, isPrivate: bool, der: Der)
    ensures NewKeyObject(pub, isPrivate, der).Ok? ==> AllWellTyped(NewKeyObject(pub, isPrivate, der).value)
  {
    hide AllWellTyped, CommonAttributes, PRIVATE_ATTRIBUTES, EcAttributes, RsaAttributes;
    if NewKeyObject(pub, isPrivate, der).Ok? {
      var common := CommonAttributes(der.spki.value, isPrivate);
      CommonWellTyped(der.spki.value, isPrivate);
      PrivateWellTyped();
      WellTypedAppend(common, PRIVATE_ATTRIBUTES);
      assert common + [] == common;
      var attrs := common + if isPrivate then PRIVATE_ATTRIBUTES else [];
      match pub
      case EcPublic(_, _, _) =>
        EcWellTyped(der.curveParams.value, der.point.GetOr([]), isPrivate);
        WellTypedAppend(attrs, EcAttributes(der.curveParams.value, der.point.GetOr([]), isPrivate));
      case RsaPublic(n, e) =>
        RsaWellTyped(n, e, isPrivate);
        WellTypedAppend(attrs, RsaAttributes(n, e, isPrivate));
      case OtherPublic =>
        assert false;
    }
  }

  lemma IdentityWellTyped(cert: Certificate)
    ensures AllWellTyped(CertificateIdentity(cert))
  {
  }

  lemma DetailsWellTyped(cert: Certificate, serial: Slice)
    ensures AllWellTyped(CertificateDetails(cert, serial))
  {
  }

  lemma CertificatesWellTyped(cert: Certificate, id: Option<uint64>)
    ensures NewX509CertificateObject(cert, id).Ok? ==> NewX509CertificateObject(cert, id).value.WellTyped()
  {
    hide AllWellTyped, CertificateIdentity, CertificateDetails;
    if NewX509CertificateObject(cert, id).Ok? {
      IdentityWellTyped(cert);
      DetailsWellTyped(cert, Data(cert.serial.value));
      WellTypedAppend(CertificateIdentity(cert), CertificateDetails(cert, Data(cert.serial.value)));
      assert NewX509CertificateObject(cert, id).value.WellTyped() by { TypedObject(NewX509CertificateObject(cert, id).value); }
    }
  }

  lemma TypedObject(o: Object)
    ensures o.WellTyped() <==> AllWellTyped(o.attributes)
  {
  }

  /** supports: whether the object can sign with the mechanism. */
  function Supports(o: Object, m: Mechanism): Outcome<()> {
    if o.priv.None? then Err(Pkcs11(CKR_MECHANISM_INVALID))
    else
      match o.priv.value.public
      case EcPublic(_, _, _) => if m.typ == CKM_ECDSA then Ok(()) else Err(Pkcs11(CKR_MECHANISM_INVALID))
      case RsaPublic(_, _) =>
        if m.typ == CKM_RSA_PKCS || m.typ == CKM_RSA_PKCS_PSS then Ok(()) else Err(Pkcs11(CKR_MECHANISM_INVALID))
      case OtherPublic => Err(Internal)
  }

  /** An addressable Object variable; objects held in lists are copies of its value. */
  class ObjectVar {
    var o: Object

    constructor (initial: Object)
      ensures o == initial
    {
      o := initial;
    }

    method SetID(id: uint64)
      modifies this
      ensures o == old(o).(id := id)
    {
      o := o.(id := id);
    }

    /** The label shows if and only if the object had none, or had it already: the source appends,
        and lookups take the first. */
    method SetLabel(text: seq<byte>)
      modifies this
      ensures o == old(o).(attributes := old(o.attributes) + [OfBytes(CKA_LABEL, Data(text))])
      ensures Shows(o.attributes, OfBytes(CKA_LABEL, Data(text))) <==>
              Lookup(old(o.attributes), CKA_LABEL).None? || Shows(old(o.attributes), OfBytes(CKA_LABEL, Data(text)))
      ensures forall t: uint32 :: t != CKA_LABEL || Lookup(old(o.attributes), t).Some? ==> Lookup(o.attributes, t) == Lookup(old(o.attributes), t)
      ensures old(o).WellTyped() ==> o.WellTyped()
    {
      var a := OfBytes(CKA_LABEL, Data(text));
      Appended(o.attributes, [a]);
      assert a in [a];
      o := o.(attributes := o.attributes + [a]);
    }

    /** The body of setAttributes' outer loop. */
    method SetAttribute(a: Attribute)
      modifies this
      ensures o == old(o).(attributes := SetOne(old(o.attributes), a))
    {
      hide SetOne;
      var attrs := o.attributes;
      for i := 0 to |attrs|
        invariant o == old(o)
        invariant forall j :: 0 <= j < i ==> attrs[j].typ != a.typ
      {
        if attrs[i].typ == a.typ {
          SetOneAt(attrs, a, i);
          o := o.(attributes := attrs[i := a]);
          return;
        }
      }
      SetOneAt(attrs, a, |attrs|);
      o := o.(attributes := attrs + [a]);
    }

    method SetAttributes(tmpl: seq<Attribute>)
      modifies this
      ensures o == old(o).(attributes := SetAll(old(o.attributes), tmpl))
    {
      hide SetOne;
      assert tmpl[0..] == tmpl;
      for k := 0 to |tmpl|
        invariant o == old(o).(attributes := o.attributes)
        invariant SetAll(o.attributes, tmpl[k..]) == SetAll(old(o.attributes), tmpl)
      {
        assert tmpl[k..][1..] == tmpl[k + 1..];
        SetAttribute(tmpl[k]);
      }
      assert tmpl[|tmpl|..] == [];
    }

    method SetCKAID(id: Slice)
      modifies this
      ensures o == old(o).(attributes := SetAll(old(o.attributes), [OfBytes(CKA_ID, id)]))
      ensures Shows(o.attributes, OfBytes(CKA_ID, id))
      ensures forall t: uint32 :: t != CKA_ID ==> Lookup(o.attributes, t) == Lookup(old(o.attributes), t)
      ensures old(o).WellTyped() ==> o.WellTyped()
    {
      forall t: uint32
        ensures Lookup(SetAll(o.attributes, [OfBytes(CKA_ID, id)]), t) == if t == CKA_ID then Some(OfBytes(CKA_ID, id)) else Lookup(o.attributes, t)
      {
        LookupSetAll(o.attributes, [OfBytes(CKA_ID, id)], t);
      }
      SetAttributes([OfBytes(CKA_ID, id)]);
      if old(o).WellTyped() {
        SetAllWellTyped(old(o.attributes), [OfBytes(CKA_ID, id)]);
      }
    }

    /** The first CKA_DERIVE attribute is changed in place, or one is appended. */
    method SetDerive()
      modifies this
      ensures old(o).WellTyped() ==> o.WellTyped()
      ensures o == old(o).(attributes := o.attributes)
      ensures Lookup(o.attributes, CKA_DERIVE).Some? && Lookup(o.attributes, CKA_DERIVE).value.byteVal == Some(1)
      ensures forall t: uint32 :: t != CKA_DERIVE ==> Lookup(o.attributes, t) == Lookup(old(o.attributes), t)
    {
      hide Attribute.WellTyped;
      var attrs := o.attributes;
      for i := 0 to |attrs|
        invariant o == old(o)
        invariant forall j :: 0 <= j < i ==> attrs[j].typ != CKA_DERIVE
      {
        if attrs[i].typ == CKA_DERIVE {
          var a := attrs[i].(byteVal := Some(1));
          o := o.(attributes := attrs[i := a]);
          DeriveStaysTyped(attrs[i]);
          forall t: uint32
            ensures Lookup(o.attributes, t) == if t == CKA_DERIVE then Some(a) else Lookup(attrs, t)
          {
            DeriveReplaced(attrs, i, a, t);
          }
          return;
        }
      }
      var a := Flag(CKA_DERIVE, true);
      o := o.(attributes := attrs + [a]);
      DeriveStaysTyped(a);
      forall t: uint32
        ensures Lookup(o.attributes, t) == if t == CKA_DERIVE then Some(a) else Lookup(attrs, t)
      {
        LookupAbsent(attrs, CKA_DERIVE);
        LookupAppend(attrs, [a], t);
      }
    }

    /** Links a key to a certificate. Each of the four attributes shows if and only if the object had
        none of its type, or had it already; no other lookup changes. */
    method SetCertificate(cert: Certificate) returns (r: Outcome<()>)
      modifies this
      ensures r.Ok? <==> (old(o).pub.Some? || old(o).priv.Some?) && cert.serial.Some?
      ensures r.Err? ==> o == old(o)
      ensures r.Ok? ==> o == old(o).(attributes := old(o.attributes) + CertificateLinks(cert))
      ensures r.Ok? ==> forall a :: a in CertificateLinks(cert) ==>
                (Shows(o.attributes, a) <==> Lookup(old(o.attributes), a.typ).None? || Shows(old(o.attributes), a))
      ensures forall t: uint32 :: (t !in LINKED_TYPES || Lookup(old(o.attributes), t).Some?) ==>
                Lookup(o.attributes, t) == Lookup(old(o.attributes), t)
      ensures old(o).WellTyped() ==> o.WellTyped()
    {
      if (o.pub.None? && o.priv.None?) || cert.serial.None? {
        return Err(Internal);
      }
      hide Lookup, AllWellTyped, DuplicateFree, LINKED_TYPES;
      var serial := Data(cert.serial.value);
      var attrs := [OfBytes(CKA_ID, serial), OfBytes(CKA_SUBJECT, cert.subject),
                    OfBytes(CKA_OBJECT_ID, serial), OfBytes(CKA_PUBLIC_KEY_INFO, cert.spki)];
      Links(cert);
      if o.WellTyped() {
        WellTypedAppend(o.attributes, attrs);
      }
      Appended(o.attributes, attrs);
      o := o.(attributes := o.attributes + attrs);
      return Ok(());
    }
  }

  /** A lookup of the attribute's type gives the attribute. */
  predicate Shows(attrs: seq<Attribute>, a: Attribute) {
    Lookup(attrs, a.typ) == Some(a)
  }

  const LINKED_TYPES: set<uint32> := {CKA_ID, CKA_SUBJECT, CKA_OBJECT_ID, CKA_PUBLIC_KEY_INFO}

  /** What SetCertificate adds to a key. */
  function CertificateLinks(cert: Certificate): seq<Attribute>
    requires cert.serial.Some?
  {
    [OfBytes(CKA_ID, Data(cert.serial.value)), OfBytes(CKA_SUBJECT, cert.subject),
     OfBytes(CKA_OBJECT_ID, Data(cert.serial.value)), OfBytes(CKA_PUBLIC_KEY_INFO, cert.spki)]
  }

  lemma Links(cert: Certificate)
    requires cert.serial.Some?
    ensures AllWellTyped(CertificateLinks(cert)) && DuplicateFree(CertificateLinks(cert))
    ensures forall a :: a in CertificateLinks(cert) ==> a.typ in LINKED_TYPES
  {
  }

  /** Appended attributes lose to earlier ones of their type. */
  lemma Appended(attrs: seq<Attribute>, added: seq<Attribute>)
    requires DuplicateFree(added)
    ensures forall a :: a in added ==> (Shows(attrs + added, a) <==> Lookup(attrs, a.typ).None? || Shows(attrs, a))
    ensures forall t: uint32 :: (forall a :: a in added ==> a.typ != t) || Lookup(attrs, t).Some? ==>
              Lookup(attrs + added, t) == Lookup(attrs, t)
  {
    forall a | a in added
      ensures Shows(attrs + added, a) <==> Lookup(attrs, a.typ).None? || Shows(attrs, a)
    {
      LookupAppend(attrs, added, a.typ);
      LookupPresent(added, a);
    }
    forall t: uint32 | (forall a :: a in added ==> a.typ != t) || Lookup(attrs, t).Some?
      ensures Lookup(attrs + added, t) == Lookup(attrs, t)
    {
      LookupAppend(attrs, added, t);
    }
  }

  lemma {:induction false} LookupPresent(attrs: seq<Attribute>, a: Attribute)
    requires DuplicateFree(attrs) && a in attrs
    ensures Lookup(attrs, a.typ) == Some(a)
  {
    var i :| 0 <= i < |attrs| && attrs[i] == a;
    if i > 0 {
      assert attrs[1..][i - 1] == a && attrs[0].typ != attrs[i].typ;
      LookupPresent(attrs[1..], a);
    }
  }

  /** A second label does not replace the first. */
  lemma SecondLabelHidden(a: Object, first: seq<byte>, second: seq<byte>)
    requires Lookup(a.attributes, CKA_LABEL).None? && first != second
    ensures var once := a.attributes + [OfBytes(CKA_LABEL, Data(first))];
            var twice := once + [OfBytes(CKA_LABEL, Data(second))];
            Shows(twice, OfBytes(CKA_LABEL, Data(first))) && !Shows(twice, OfBytes(CKA_LABEL, Data(second)))
  {
    var x, y := OfBytes(CKA_LABEL, Data(first)), OfBytes(CKA_LABEL, Data(second));
    assert x in [x] && y in [y];
    Appended(a.attributes, [x]);
    Appended(a.attributes + [x], [y]);
  }

  /** A key object always shows its own public key info: a certificate's shows only if it is equal. */
  lemma KeyInfoStays(pub: PublicKey, isPrivate: bool, der: Der, cert: Certificate)
    requires NewKeyObject(pub, isPrivate, der).Ok? && cert.serial.Some?
    ensures var attrs := NewKeyObject(pub, isPrivate, der).value;
            && Shows(attrs, OfBytes(CKA_PUBLIC_KEY_INFO, Data(der.spki.value)))
            && (Shows(attrs + CertificateLinks(cert), OfBytes(CKA_PUBLIC_KEY_INFO, cert.spki)) <==> cert.spki == Data(der.spki.value))
  {
    hide EcAttributes, RsaAttributes, PRIVATE_ATTRIBUTES;
    var attrs, common := NewKeyObject(pub, isPrivate, der).value, CommonAttributes(der.spki.value, isPrivate);
    var info := OfBytes(CKA_PUBLIC_KEY_INFO, Data(der.spki.value));
    assert info in common by { assert common[|common| - 1] == info; }
    LookupPresent(common, info);
    assert attrs[..|common|] == common;
    assert attrs == common + attrs[|common|..];
    LookupAppend(common, attrs[|common|..], CKA_PUBLIC_KEY_INFO);
    Links(cert);
    Appended(attrs, CertificateLinks(cert));
    assert OfBytes(CKA_PUBLIC_KEY_INFO, cert.spki) in CertificateLinks(cert) by {
      assert CertificateLinks(cert)[3] == OfBytes(CKA_PUBLIC_KEY_INFO, cert.spki);
    }
  }

  lemma DeriveStaysTyped(a: Attribute)
    requires a.typ == CKA_DERIVE
    ensures a.WellTyped() ==> a.(byteVal := Some(1)).WellTyped()
    ensures Flag(CKA_DERIVE, true).WellTyped()
  {
  }

  lemma {:induction false} DeriveReplaced(attrs: seq<Attribute>, i: nat, a: Attribute, t: uint32)
    requires i < |attrs| && attrs[i].typ == a.typ
    requires forall j :: 0 <= j < i ==> attrs[j].typ != a.typ
    ensures Lookup(attrs[i := a], t) == if t == a.typ then Some(a) else Lookup(attrs, t)
  {
    if i > 0 {
      DeriveReplaced(attrs[1..], i - 1, a, t);
      assert attrs[i := a][1..] == attrs[1..][i - 1 := a];
    } else {
      assert attrs[i := a][1..] == attrs[1..];
    }
  }
}

/** generateKeyPair: what templates must say, and what the two objects carry. */
module Keygen {
  import opened Bytes
  import opened Attributes
  import opened Fields
  import opened Objects

  /** The outcomes of the libraries and the random source for one request: the curve that
      CKA_EC_PARAMS names if it is supported, the new key, two object identifiers and encodings. */
  datatype KeyGen = KeyGen(
    curve: Option<Curve>, key: Option<PrivateKey>,
    pubId: Option<uint64>, privId: Option<uint64>, pubDer: Der, privDer: Der)

  /** One entry of generateRSAKeyPair's loop: the last CKA_MODULUS_BITS wins, and any exponent other
      than 65537 (modulo 2^64, as Int64 sees it) is an error. */
  function RsaEntry(bits: Option<uint64>, t: Attribute): Outcome<Option<uint64>> {
    if t.typ == CKA_MODULUS_BITS then Ok(if t.ulong.Some? then t.ulong else bits)
    else if t.typ == CKA_PUBLIC_EXPONENT && t.bytes.Content() != [] && Nat(t.bytes.Content()) % TWO64 != 65537
    then Err(Pkcs11(CKR_ATTRIBUTE_VALUE_INVALID))
    else Ok(bits)
  }

  function RsaBits(tmpl: seq<Attribute>): Outcome<Option<uint64>> {
    if tmpl == [] then Ok(None)
    else
      match RsaBits(tmpl[..|tmpl| - 1])
      case Err(e) => Err(e)
      case Ok(bits) => RsaEntry(bits, tmpl[|tmpl| - 1])
  }

  function RsaKey(tmpl: seq<Attribute>, g: KeyGen): Outcome<PrivateKey> {
    match RsaBits(tmpl)
    case Err(e) => Err(e)
    case Ok(bits) =>
      if bits.None? then Err(Pkcs11(CKR_TEMPLATE_INCOMPLETE))
      else if bits.value < 1024 then Err(Pkcs11(CKR_KEY_SIZE_RANGE))
      else if g.key.None? then Err(Pkcs11(CKR_GENERAL_ERROR))
      else Ok(g.key.value)
  }

  function EcKey(tmpl: seq<Attribute>, g: KeyGen): Outcome<PrivateKey> {
    var params := Lookup(tmpl, CKA_EC_PARAMS);
    if params.None? || params.value.bytes.Content() == [] then Err(Pkcs11(CKR_TEMPLATE_INCOMPLETE))
    else if g.curve.None? then Err(Pkcs11(CKR_CURVE_NOT_SUPPORTED))
    else if g.key.None? then Err(Pkcs11(CKR_GENERAL_ERROR))
    else Ok(g.key.value)
  }

  function NewKey(m: Mechanism, tmpl: seq<Attribute>, g: KeyGen): Outcome<PrivateKey> {
    if m.typ == CKM_RSA_PKCS_KEY_PAIR_GEN then RsaKey(tmpl, g)
    else if m.typ == CKM_EC_KEY_PAIR_GEN then EcKey(tmpl, g)
    else Err(Pkcs11(CKR_MECHANISM_INVALID))
  }

  function WithTemplate(o: Object, tmpl: seq<Attribute>): Object {
    o.(attributes := SetAll(o.attributes, tmpl))
  }

  function NewKeyPair(m: Mechanism, pubTmpl: seq<Attribute>, privTmpl: seq<Attribute>, g: KeyGen): Outcome<(Object, Object)> {
    match NewKey(m, pubTmpl, g)
    case Err(e) => Err(e)
    case Ok(key) =>
      var pub := NewPublicKeyObject(key.public, g.pubId, g.pubDer);
      if pub.Err? then Err(pub.error)
      else
        var priv := NewPrivateKeyObject(key, g.privId, g.privDer);
        if priv.Err? then Err(priv.error)
        else Ok((WithTemplate(pub.value, pubTmpl), WithTemplate(priv.value, privTmpl)))
  }

  /** The loop of generateRSAKeyPair, stopping at the first bad exponent. */
  method ReadRsaTemplate(tmpl: seq<Attribute>) returns (r: Outcome<Option<uint64>>)
    ensures r == RsaBits(tmpl)
  {
    var bits: Option<uint64> := None;
    for i := 0 to |tmpl|
      invariant RsaBits(tmpl[..i]) == Ok(bits)
    {
      assert tmpl[..i + 1][..i] == tmpl[..i];
      var t := tmpl[i];
      if t.typ == CKA_MODULUS_BITS {
        if t.ulong.Some? {
          bits := t.ulong;
        }
      } else if t.typ == CKA_PUBLIC_EXPONENT {
        if t.bytes.Content() != [] && Nat(t.bytes.Content()) % TWO64 != 65537 {
          RsaErrorSticks(tmpl, i + 1);
          return Err(Pkcs11(CKR_ATTRIBUTE_VALUE_INVALID));
        }
      }
    }
    assert tmpl[..|tmpl|] == tmpl;
    return Ok(bits);
  }

  lemma {:induction false} RsaErrorSticks(tmpl: seq<Attribute>, n: nat)
    requires n <= |tmpl| && RsaBits(tmpl[..n]).Err?
    ensures RsaBits(tmpl) == RsaBits(tmpl[..n])
    decreases |tmpl|
  {
    if n == |tmpl| {
      assert tmpl[..n] == tmpl;
    } else {
      assert tmpl[..|tmpl| - 1][..n] == tmpl[..n];
      RsaErrorSticks(tmpl[..|tmpl| - 1], n);
    }
  }

  /** Effective CKA_TOKEN: the first such attribute is a nonzero byte. */
  predicate IsToken(o: Object) {
    Lookup(o.attributes, CKA_TOKEN).Some? && Lookup(o.attributes, CKA_TOKEN).value.byteVal.GetOr(0) != 0
  }

  /** What a template says of CKA_TOKEN, or the default where it says nothing. */
  predicate TokenBy(tmpl: seq<Attribute>, default: bool) {
    if LastOf(tmpl, CKA_TOKEN).None? then default else LastOf(tmpl, CKA_TOKEN).value.byteVal.GetOr(0) != 0
  }

  /** Before templates, private keys are token objects and public keys say nothing. */
  lemma DefaultToken(pub: PublicKey, isPrivate: bool, der: Der)
    requires NewKeyObject(pub, isPrivate, der).Ok?
    ensures Lookup(NewKeyObject(pub, isPrivate, der).value, CKA_TOKEN) == if isPrivate then Some(Flag(CKA_TOKEN, true)) else None
  {
    hide EcAttributes, RsaAttributes, CommonAttributes, LastOf;
    var common := CommonAttributes(der.spki.value, isPrivate);
    var private := if isPrivate then PRIVATE_ATTRIBUTES else [];
    var rest := if pub.EcPublic? then EcAttributes(der.curveParams.value, der.point.GetOr([]), isPrivate)
                else RsaAttributes(pub.modulus, pub.exponent, isPrivate);
    assert NewKeyObject(pub, isPrivate, der).value == common + private + rest;
    LookupAppend(common + private, rest, CKA_TOKEN);
    LookupAppend(common, private, CKA_TOKEN);
    CommonHasNoToken(der.spki.value, isPrivate);
    if pub.EcPublic? {
      EcHasNoToken(der.curveParams.value, der.point.GetOr([]), isPrivate);
    } else {
      RsaHasNoToken(pub.modulus, pub.exponent, isPrivate);
    }
    if isPrivate {
      assert Lookup(PRIVATE_ATTRIBUTES, CKA_TOKEN) == Some(Flag(CKA_TOKEN, true));
    }
  }

  lemma CommonHasNoToken(spki: seq<byte>, isPrivate: bool)
    ensures Lookup(CommonAttributes(spki, isPrivate), CKA_TOKEN) == None
  {
    LookupAbsent(CommonAttributes(spki, isPrivate), CKA_TOKEN);
  }

  lemma EcHasNoToken(params: seq<byte>, point: seq<byte>, isPrivate: bool)
    ensures Lookup(EcAttributes(params, point, isPrivate), CKA_TOKEN) == None
  {
    LookupAbsent(EcAttributes(params, point, isPrivate), CKA_TOKEN);
  }

  lemma RsaHasNoToken(modulus: nat, exponent: nat, isPrivate: bool)
    ensures Lookup(RsaAttributes(modulus, exponent, isPrivate), CKA_TOKEN) == None
  {
    LookupAbsent(RsaAttributes(modulus, exponent, isPrivate), CKA_TOKEN);
  }

  /** A generated pair: fresh identifiers, well-typed attributes, a token exactly when its own
      template (or, for the private key, the default) says so, and found by its own template when
      that names no type twice. */
  lemma GeneratedPair(m: Mechanism, pubTmpl: seq<Attribute>, privTmpl: seq<Attribute>, g: KeyGen)
    requires NewKeyPair(m, pubTmpl, privTmpl, g).Ok?
    ensures var (pub, priv) := NewKeyPair(m, pubTmpl, privTmpl, g).value;
            && Some(pub.id) == g.pubId && Some(priv.id) == g.privId
            && (AllWellTyped(pubTmpl) ==> pub.WellTyped()) && (AllWellTyped(privTmpl) ==> priv.WellTyped())
            && (IsToken(pub) <==> TokenBy(pubTmpl, false)) && (IsToken(priv) <==> TokenBy(privTmpl, true))
            && (DuplicateFree(pubTmpl) ==> MatchesAll(pub.attributes, pubTmpl))
            && (DuplicateFree(privTmpl) ==> MatchesAll(priv.attributes, privTmpl))
  {
    hide NewKeyObject, AllWellTyped, MatchesAll, Lookup, LastOf, SetAll, NewKey, DuplicateFree;
    var key := NewKey(m, pubTmpl, g).value;
    var pubAttrs := NewKeyObject(key.public, false, g.pubDer).value;
    var privAttrs := NewKeyObject(key.public, true, g.privDer).value;
    DefaultToken(key.public, false, g.pubDer);
    DefaultToken(key.public, true, g.privDer);
    LookupSetAll(pubAttrs, pubTmpl, CKA_TOKEN);
    LookupSetAll(privAttrs, privTmpl, CKA_TOKEN);
    KeysWellTyped(key.public, false, g.pubDer);
    KeysWellTyped(key.public, true, g.privDer);
    if AllWellTyped(pubTmpl) {
      SetAllWellTyped(pubAttrs, pubTmpl);
    }
    if AllWellTyped(privTmpl) {
      SetAllWellTyped(privAttrs, privTmpl);
    }
    if DuplicateFree(pubTmpl) {
      FoundByDuplicateFree(pubAttrs, pubTmpl);
    }
    if DuplicateFree(privTmpl) {
      FoundByDuplicateFree(privAttrs, privTmpl);
    }
  }
}

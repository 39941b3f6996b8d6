/** What the attribute lists of new objects show to a client. */
module Lists {
  import opened Bytes
  import opened Attributes
  import opened Objects

  /** Big integers are written without leading zeros, and read back. */
  lemma MinimalForm(n: nat)
    ensures var s := MinimalBytes(n); Nat(s) == n && (s != [] ==> s[0] != 0)
  {
    hide Nat, BE, BitLen;
    var k := (BitLen(n) + 7) / 8;
    var s := MinimalBytes(n);
    BitLenFits(n, k);
    NatOfBE(n, k);
    if s != [] && s[0] == 0 {
      assert Zeros(1) == [0] by { assert Zeros(0) == []; }
      assert s == Zeros(1) + s[1..];
      NatOfZeroPrefix(1, s[1..]);
      NatBound(s[1..]);
      BitLenFits(n, k - 1);
      assert false;
    }
  }

  /** The first list that has the attribute's type decides. */
  lemma ShowsIn(before: seq<Attribute>, part: seq<Attribute>, after: seq<Attribute>, a: Attribute)
    requires a in part && DuplicateFree(part) && forall b :: b in before ==> b.typ != a.typ
    ensures Shows(before + part + after, a)
  {
    LookupPresent(part, a);
    LookupAbsent(before, a.typ);
    LookupAppend(before, part, a.typ);
    LookupAppend(before + part, after, a.typ);
  }

  const COMMON_TYPES: set<uint32> :=
    {CKA_CLASS, CKA_VERIFY_RECOVER, CKA_WRAP, CKA_DERIVE, CKA_VERIFY, CKA_LOCAL, CKA_PUBLIC_KEY_INFO}
  const PRIVATE_TYPES: set<uint32> :=
    {CKA_TOKEN, CKA_SENSITIVE, CKA_ALWAYS_SENSITIVE, CKA_EXTRACTABLE, CKA_NEVER_EXTRACTABLE, CKA_ALWAYS_AUTHENTICATE, CKA_SIGN, CKA_UNWRAP}

  lemma CommonTypes(spki: seq<byte>, isPrivate: bool)
    ensures DuplicateFree(CommonAttributes(spki, isPrivate))
    ensures forall a :: a in CommonAttributes(spki, isPrivate) ==> a.typ in COMMON_TYPES
  {
  }

  lemma PrivateTypes()
    ensures DuplicateFree(PRIVATE_ATTRIBUTES) && forall a :: a in PRIVATE_ATTRIBUTES ==> a.typ in PRIVATE_TYPES
  {
  }

  lemma EcTypes(params: seq<byte>, point: seq<byte>, isPrivate: bool)
    ensures DuplicateFree(EcAttributes(params, point, isPrivate))
    ensures forall a :: a in EcAttributes(params, point, isPrivate) ==> a.typ !in COMMON_TYPES && a.typ !in PRIVATE_TYPES
  {
  }

  lemma RsaTypes(modulus: nat, exponent: nat, isPrivate: bool)
    ensures DuplicateFree(RsaAttributes(modulus, exponent, isPrivate))
    ensures forall a :: a in RsaAttributes(modulus, exponent, isPrivate) ==> a.typ !in COMMON_TYPES && a.typ !in PRIVATE_TYPES
  {
  }

  /** The list of a key is these three parts, none of which repeats a type of another. */
  function Parts(pub: PublicKey, isPrivate: bool, der: Der): (seq<Attribute>, seq<Attribute>, seq<Attribute>)
    requires NewKeyObject(pub, isPrivate, der).Ok?
  {
    (CommonAttributes(der.spki.value, isPrivate),
     if isPrivate then PRIVATE_ATTRIBUTES else [],
     if pub.EcPublic? then EcAttributes(der.curveParams.value, der.point.GetOr([]), isPrivate) else RsaAttributes(pub.modulus, pub.exponent, isPrivate))
  }

  /** Every attribute of a new key's list shows. */
  lemma AllShow(pub: PublicKey, isPrivate: bool, der: Der, a: Attribute)
    requires NewKeyObject(pub, isPrivate, der).Ok?
    requires var (c, p, k) := Parts(pub, isPrivate, der); a in c || a in p || a in k
    ensures Shows(NewKeyObject(pub, isPrivate, der).value, a)
  {
    hide CommonAttributes, PRIVATE_ATTRIBUTES, EcAttributes, RsaAttributes, DuplicateFree, Lookup;
    var (c, p, k) := Parts(pub, isPrivate, der);
    CommonTypes(der.spki.value, isPrivate);
    PrivateTypes();
    if pub.EcPublic? {
      EcTypes(der.curveParams.value, der.point.GetOr([]), isPrivate);
    } else {
      RsaTypes(pub.modulus, pub.exponent, isPrivate);
    }
    if a in c {
      ShowsIn([], c, p + k, a);
      assert [] + c + (p + k) == c + p + k;
    } else if a in p {
      ShowsIn(c, p, k, a);
    } else {
      ShowsIn(c + p, k, [], a);
      assert c + p + k + [] == c + p + k;
    }
  }

  /** Both halves of a key: the class by half, who may verify, and what no key may do by default. */
  lemma KeyShows(pub: PublicKey, isPrivate: bool, der: Der)
    requires NewKeyObject(pub, isPrivate, der).Ok?
    ensures var attrs := NewKeyObject(pub, isPrivate, der).value;
            && Shows(attrs, OfUlong(CKA_CLASS, if isPrivate then 3 else 2))
            && Shows(attrs, OfByte(CKA_VERIFY, if isPrivate then 0 else 1))
            && Shows(attrs, OfByte(CKA_DERIVE, 0)) && Shows(attrs, OfByte(CKA_WRAP, 0))
            && Shows(attrs, OfByte(CKA_VERIFY_RECOVER, 0)) && Shows(attrs, OfByte(CKA_LOCAL, 0))
            && Shows(attrs, OfBytes(CKA_PUBLIC_KEY_INFO, Data(der.spki.value)))
  {
    hide Shows, PRIVATE_ATTRIBUTES, EcAttributes, RsaAttributes;
    var c := CommonAttributes(der.spki.value, isPrivate);
    assert Parts(pub, isPrivate, der).0 == c;
    AllShow(pub, isPrivate, der, c[0]);
    AllShow(pub, isPrivate, der, c[1]);
    AllShow(pub, isPrivate, der, c[2]);
    AllShow(pub, isPrivate, der, c[3]);
    AllShow(pub, isPrivate, der, c[4]);
    AllShow(pub, isPrivate, der, c[5]);
    AllShow(pub, isPrivate, der, c[6]);
  }

  /** A private key is a sensitive token object that signs and cannot be extracted. */
  lemma PrivateKeyShows(pub: PublicKey, der: Der)
    requires NewKeyObject(pub, true, der).Ok?
    ensures var attrs := NewKeyObject(pub, true, der).value;
            && Shows(attrs, OfByte(CKA_TOKEN, 1)) && Shows(attrs, OfByte(CKA_SIGN, 1)) && Shows(attrs, OfByte(CKA_UNWRAP, 0))
            && Shows(attrs, OfByte(CKA_SENSITIVE, 1)) && Shows(attrs, OfByte(CKA_ALWAYS_SENSITIVE, 1))
            && Shows(attrs, OfByte(CKA_EXTRACTABLE, 0)) && Shows(attrs, OfByte(CKA_NEVER_EXTRACTABLE, 1))
            && Shows(attrs, OfByte(CKA_ALWAYS_AUTHENTICATE, 0))
  {
    hide NewKeyObject, Shows, CommonAttributes, EcAttributes, RsaAttributes;
    var p := PRIVATE_ATTRIBUTES;
    assert Parts(pub, true, der).1 == p;
    AllShow(pub, true, der, p[0]);
    AllShow(pub, true, der, p[1]);
    AllShow(pub, true, der, p[2]);
    AllShow(pub, true, der, p[3]);
    AllShow(pub, true, der, p[4]);
    AllShow(pub, true, der, p[5]);
    AllShow(pub, true, der, p[6]);
    AllShow(pub, true, der, p[7]);
  }

  /** An EC key: its curve, the point of a public one, and no value for a private one. */
  lemma EcKeyShows(pub: PublicKey, isPrivate: bool, der: Der)
    requires NewKeyObject(pub, isPrivate, der).Ok? && pub.EcPublic?
    ensures var attrs := NewKeyObject(pub, isPrivate, der).value;
            && Shows(attrs, OfUlong(CKA_KEY_TYPE, 3)) && Shows(attrs, OfBytes(CKA_EC_PARAMS, Data(der.curveParams.value)))
            && (isPrivate ==> Shows(attrs, Empty(CKA_VALUE)) && Shows(attrs, OfByte(CKA_DECRYPT, 0)))
            && (!isPrivate ==> Shows(attrs, OfBytes(CKA_EC_POINT, Data(der.point.value))) && Shows(attrs, OfByte(CKA_ENCRYPT, 0)))
  {
    hide Shows, CommonAttributes, PRIVATE_ATTRIBUTES;
    var k := EcAttributes(der.curveParams.value, der.point.GetOr([]), isPrivate);
    assert Parts(pub, isPrivate, der).2 == k;
    AllShow(pub, isPrivate, der, k[0]);
    AllShow(pub, isPrivate, der, k[1]);
    AllShow(pub, isPrivate, der, k[2]);
    AllShow(pub, isPrivate, der, k[3]);
  }

  /** An RSA key: the modulus and exponent as integers, and no private value. */
  lemma RsaKeyShows(pub: PublicKey, isPrivate: bool, der: Der)
    requires NewKeyObject(pub, isPrivate, der).Ok? && pub.RsaPublic?
    ensures var attrs, n, e := NewKeyObject(pub, isPrivate, der).value, MinimalBytes(pub.modulus), MinimalBytes(pub.exponent);
            && Nat(n) == pub.modulus && Nat(e) == pub.exponent
            && Shows(attrs, OfUlong(CKA_KEY_TYPE, 0)) && Shows(attrs, OfUlong(CKA_MODULUS_BITS, 8 * |n| % TWO64))
            && Shows(attrs, OfBytes(CKA_MODULUS, Data(n))) && Shows(attrs, OfBytes(CKA_PUBLIC_EXPONENT, Data(e)))
            && (!isPrivate ==> Shows(attrs, OfByte(CKA_ENCRYPT, 1)))
            && (isPrivate ==>
                  && Shows(attrs, OfByte(CKA_DECRYPT, 1)) && Shows(attrs, Empty(CKA_PRIVATE_EXPONENT))
                  && Shows(attrs, Empty(CKA_PRIME_1)) && Shows(attrs, Empty(CKA_PRIME_2))
                  && Shows(attrs, Empty(CKA_EXPONENT_1)) && Shows(attrs, Empty(CKA_EXPONENT_2)) && Shows(attrs, Empty(CKA_COEFFICIENT)))
  {
    hide NewKeyObject, Shows, CommonAttributes, PRIVATE_ATTRIBUTES, MinimalBytes;
    MinimalForm(pub.modulus);
    MinimalForm(pub.exponent);
    var k := RsaAttributes(pub.modulus, pub.exponent, isPrivate);
    assert Parts(pub, isPrivate, der).2 == k;
    AllShow(pub, isPrivate, der, k[0]);
    AllShow(pub, isPrivate, der, k[1]);
    AllShow(pub, isPrivate, der, k[2]);
    AllShow(pub, isPrivate, der, k[3]);
    AllShow(pub, isPrivate, der, k[4]);
    if isPrivate {
      AllShow(pub, isPrivate, der, k[5]);
      AllShow(pub, isPrivate, der, k[6]);
      AllShow(pub, isPrivate, der, k[7]);
      AllShow(pub, isPrivate, der, k[8]);
      AllShow(pub, isPrivate, der, k[9]);
      AllShow(pub, isPrivate, der, k[10]);
    }
  }

  /** Which keys can be stored, and as what: the object keeps the key it was made of. */
  lemma KeyObjects(priv: PrivateKey, id: Option<uint64>, der: Der)
    ensures var made := !priv.public.OtherPublic? && der.spki.Some? && (priv.public.EcPublic? ==> !priv.public.curve.OtherCurve? && der.curveParams.Some?);
            && (NewPrivateKeyObject(priv, id, der).Ok? <==> id.Some? && made)
            && (NewPublicKeyObject(priv.public, id, der).Ok? <==> id.Some? && made && (priv.public.EcPublic? ==> der.point.Some?))
            && (NewPrivateKeyObject(priv, id, der).Ok? ==>
                  var o := NewPrivateKeyObject(priv, id, der).value; Some(o.id) == id && o.priv == Some(priv) && o.pub == None)
            && (NewPublicKeyObject(priv.public, id, der).Ok? ==>
                  var o := NewPublicKeyObject(priv.public, id, der).value; Some(o.id) == id && o.pub == Some(priv.public) && o.priv == None)
  {
    hide CommonAttributes, PRIVATE_ATTRIBUTES, EcAttributes, RsaAttributes;
  }

  lemma IdentityTypes(cert: Certificate, serial: Slice)
    ensures DuplicateFree(CertificateIdentity(cert)) && DuplicateFree(CertificateDetails(cert, serial))
    ensures forall a, b :: a in CertificateIdentity(cert) && b in CertificateDetails(cert, serial) ==> a.typ != b.typ
  {
    hide CertificateIdentity, CertificateDetails;
    IdentityOnly(cert);
    DetailsOnly(cert, serial);
  }

  lemma IdentityOnly(cert: Certificate)
    ensures DuplicateFree(CertificateIdentity(cert))
    ensures forall a :: a in CertificateIdentity(cert) ==> a.typ in {CKA_TOKEN, CKA_CLASS, CKA_CERTIFICATE_TYPE, CKA_SUBJECT, CKA_ISSUER, CKA_VALUE}
  {
  }

  lemma DetailsOnly(cert: Certificate, serial: Slice)
    ensures DuplicateFree(CertificateDetails(cert, serial))
    ensures forall a :: a in CertificateDetails(cert, serial) ==> a.typ in {CKA_ID, CKA_SERIAL_NUMBER, CKA_START_DATE, CKA_END_DATE, CKA_PUBLIC_KEY_INFO}
  {
  }

  /** A certificate object shows the certificate's parts; its CKA_ID is the serial number. */
  lemma CertificateShows(cert: Certificate, id: Option<uint64>)
    ensures NewX509CertificateObject(cert, id).Ok? <==> id.Some? && cert.serial.Some?
    ensures NewX509CertificateObject(cert, id).Ok? ==>
              var o, serial := NewX509CertificateObject(cert, id).value, Data(cert.serial.value);
              var attrs := o.attributes;
              && Some(o.id) == id && o.pub == None && o.priv == None
              && Shows(attrs, OfByte(CKA_TOKEN, 1)) && Shows(attrs, OfUlong(CKA_CLASS, 1)) && Shows(attrs, OfUlong(CKA_CERTIFICATE_TYPE, 0))
              && Shows(attrs, OfBytes(CKA_SUBJECT, cert.subject)) && Shows(attrs, OfBytes(CKA_ISSUER, cert.issuer)) && Shows(attrs, OfBytes(CKA_VALUE, cert.raw))
              && Shows(attrs, OfBytes(CKA_ID, serial)) && Shows(attrs, OfBytes(CKA_SERIAL_NUMBER, serial))
              && Shows(attrs, OfDate(CKA_START_DATE, cert.notBefore)) && Shows(attrs, OfDate(CKA_END_DATE, cert.notAfter))
              && Shows(attrs, OfBytes(CKA_PUBLIC_KEY_INFO, cert.spki))
  {
    hide DuplicateFree, Lookup;
    if id.Some? && cert.serial.Some? {
      var serial := Data(cert.serial.value);
      var x, y := CertificateIdentity(cert), CertificateDetails(cert, serial);
      IdentityTypes(cert, serial);
      forall a | a in x ensures Shows(x + y, a) {
        ShowsIn([], x, y, a);
        assert [] + x + y == x + y;
      }
      forall a | a in y ensures Shows(x + y, a) {
        ShowsIn(x, y, [], a);
        assert x + y + [] == x + y;
      }
      assert x[0] in x && x[1] in x && x[2] in x && x[3] in x && x[4] in x && x[5] in x;
      assert y[0] in y && y[1] in y && y[2] in y && y[3] in y && y[4] in y;
    }
  }
}

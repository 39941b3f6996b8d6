/** The arithmetic of attribute.go around library cryptography: the X9.63 key derivation function,
    secret resizing, raw ECDSA signatures, and ECDH key derivation. */
module Crypto {
  import opened Bytes
  import opened Wire
  import opened Attributes
  import opened Fields
  import opened Objects

  const CKD_NULL: uint64 := 1

  /** A hash with its fixed output length. */
  datatype Hash = Hash(sum: seq<byte> -> seq<byte>, len: nat) {
    ghost predicate Valid() {
      0 < len && forall x :: |sum(x)| == len
    }
  }

  /** The 32-bit counter of block i; it starts at 1 and wraps. */
  function Counter(i: nat): uint32 {
    (i + 1) % TWO32
  }

  function Block(h: Hash, z: seq<byte>, shared: seq<byte>, i: nat): seq<byte> {
    h.sum(z + U32(Counter(i)) + shared)
  }

  function Blocks(h: Hash, z: seq<byte>, shared: seq<byte>, n: nat): seq<byte> {
    if n == 0 then [] else Blocks(h, z, shared, n - 1) + Block(h, z, shared, n - 1)
  }

  /** How many blocks cover outLen bytes. */
  function BlockCount(outLen: nat, len: nat): nat
    requires 0 < len
  {
    (outLen + len - 1) / len
  }

  lemma {:induction false} BlocksLength(h: Hash, z: seq<byte>, shared: seq<byte>, n: nat)
    requires h.Valid()
    ensures |Blocks(h, z, shared, n)| == n * h.len
  {
    if n > 0 {
      BlocksLength(h, z, shared, n - 1);
      assert n * h.len == (n - 1) * h.len + h.len;
    }
  }

  lemma BlockCountCovers(outLen: nat, len: nat)
    requires 0 < len
    ensures BlockCount(outLen, len) * len >= outLen
    ensures 0 < outLen ==> 0 < BlockCount(outLen, len) && (BlockCount(outLen, len) - 1) * len < outLen
  {
    var n := BlockCount(outLen, len);
    var r := (outLen + len - 1) % len;
    assert outLen + len - 1 == n * len + r;
    assert (n - 1) * len == n * len - len;
    if n <= 0 {
      assert n * len <= 0;
    }
  }

  /** The function computes for positive lengths; others are rejected. */
  function X963(h: Hash, z: seq<byte>, shared: seq<byte>, outLen: int): (r: Outcome<seq<byte>>)
    requires h.Valid()
    ensures r.Ok? <==> outLen > 0
    ensures r.Ok? ==> |r.value| == outLen
  {
    if outLen <= 0 then Err(Pkcs11(CKR_MECHANISM_PARAM_INVALID))
    else
      BlocksLength(h, z, shared, BlockCount(outLen, h.len));
      BlockCountCovers(outLen, h.len);
      Ok(Blocks(h, z, shared, BlockCount(outLen, h.len))[..outLen])
  }

  /** x963KDF. The ghost result counts hash computations. */
  method X963Kdf(secret: seq<byte>, h: Hash, shared: seq<byte>, outLen: int) returns (r: Outcome<seq<byte>>, ghost calls: nat)
    requires h.Valid()
    ensures r == X963(h, secret, shared, outLen)
    ensures calls == if outLen <= 0 then 0 else BlockCount(outLen, h.len)
  {
    hide BlockCount, Counter;
    calls := 0;
    if outLen <= 0 {
      return Err(Pkcs11(CKR_MECHANISM_PARAM_INVALID)), calls;
    }
    var out: seq<byte> := [];
    var counter: uint32 := 1;
    BlocksCover(h, secret, shared, 0, outLen);
    CounterStep(0);
    while |out| < outLen
      invariant out == Blocks(h, secret, shared, calls)
      invariant counter == Counter(calls)
      invariant calls <= BlockCount(outLen, h.len)
      invariant |out| < outLen <==> calls < BlockCount(outLen, h.len)
      decreases BlockCount(outLen, h.len) - calls
    {
      out := out + h.sum(secret + U32(counter) + shared);
      CounterStep(calls);
      counter := (counter + 1) % TWO32;
      calls := calls + 1;
      BlocksCover(h, secret, shared, calls, outLen);
    }
    return Ok(out[..outLen]), calls;
  }

  lemma CounterStep(i: nat)
    ensures Counter(0) == 1 && Counter(i + 1) == (Counter(i) + 1) % TWO32
  {
  }

  lemma BlocksCover(h: Hash, z: seq<byte>, shared: seq<byte>, n: nat, outLen: nat)
    requires h.Valid() && 0 < outLen
    ensures |Blocks(h, z, shared, n)| < outLen <==> n < BlockCount(outLen, h.len)
  {
    BlocksLength(h, z, shared, n);
    CountBound(n, outLen, h.len);
  }

  lemma CountBound(n: nat, outLen: nat, len: nat)
    requires 0 < len && 0 < outLen
    ensures n * len < outLen <==> n < BlockCount(outLen, len)
  {
    hide BlockCount;
    BlockCountCovers(outLen, len);
    var k := BlockCount(outLen, len);
    if n < k {
      Scale(n, k - 1, len);
    } else {
      Scale(k, n, len);
    }
  }

  lemma Scale(a: nat, b: nat, c: nat)
    requires a <= b
    ensures a * c <= b * c
  {
  }

  /** Section 3.6.1 of SEC 1 v2.0: bytes i*hLen to (i+1)*hLen are Hash(Z || i+1 || SharedInfo). */
  lemma {:induction false} BlockAt(h: Hash, z: seq<byte>, shared: seq<byte>, n: nat, i: nat)
    requires h.Valid() && i < n
    ensures |Blocks(h, z, shared, n)| == n * h.len && 0 <= i * h.len && i * h.len + h.len <= n * h.len
    ensures Blocks(h, z, shared, n)[i * h.len..i * h.len + h.len] == h.sum(z + U32((i + 1) % TWO32) + shared)
    decreases n
  {
    BlocksLength(h, z, shared, n);
    BlocksLength(h, z, shared, n - 1);
    assert n * h.len == (n - 1) * h.len + h.len;
    if i < n - 1 {
      BlockAt(h, z, shared, n - 1, i);
      var b := Blocks(h, z, shared, n - 1);
      assert (b + Block(h, z, shared, n - 1))[i * h.len..i * h.len + h.len] == b[i * h.len..i * h.len + h.len];
    }
  }

  /** The counters in use are 1, 2, 3, ... exactly up to the standard's limit on the length; the
      source has no check for it. */
  lemma CountersWithinLimit(outLen: nat, len: nat)
    requires 0 < len && 0 < outLen
    ensures (forall i :: 0 <= i < BlockCount(outLen, len) ==> Counter(i) == i + 1) <==> outLen <= (TWO32 - 1) * len
  {
    CountBound(TWO32 - 1, outLen, len);
    if BlockCount(outLen, len) > TWO32 - 1 {
      assert Counter(TWO32 - 1) == 0;
    }
  }

  lemma {:induction false} BlocksPrefix(h: Hash, z: seq<byte>, shared: seq<byte>, m: nat, n: nat)
    requires m <= n
    ensures Blocks(h, z, shared, m) <= Blocks(h, z, shared, n)
    decreases n
  {
    if m < n {
      BlocksPrefix(h, z, shared, m, n - 1);
    }
  }

  /** Shorter outputs are prefixes of longer ones. */
  lemma X963Prefix(h: Hash, z: seq<byte>, shared: seq<byte>, m: nat, n: nat)
    requires h.Valid() && 0 < m <= n
    ensures X963(h, z, shared, m).value == X963(h, z, shared, n).value[..m]
  {
    var j, k := BlockCount(m, h.len), BlockCount(n, h.len);
    CountBound(j, n, h.len);
    BlockCountCovers(m, h.len);
    BlockCountCovers(n, h.len);
    CountBound(k, m, h.len);
    assert j <= k;
    BlocksPrefix(h, z, shared, j, k);
    BlocksLength(h, z, shared, j);
    BlocksLength(h, z, shared, k);
    assert Blocks(h, z, shared, k)[..n][..m] == Blocks(h, z, shared, k)[..m];
  }

  /** resizeSecret keeps the most significant bytes, or prepends zeros. */
  function Resized(secret: seq<byte>, n: nat): (r: seq<byte>)
    ensures |r| == n
  {
    if |secret| >= n then secret[..n] else Zeros(n - |secret|) + secret
  }

  method ResizeSecret(secret: seq<byte>, n: uint64) returns (r: seq<byte>)
    ensures r == Resized(secret, n)
  {
    if |secret| == n {
      assert secret[..n] == secret;
      return secret;
    }
    var out := new byte[n](i => 0);
    if |secret| > n {
      for i := 0 to n
        invariant out[..i] == secret[..i]
      {
        out[i] := secret[i];
      }
    } else {
      var pad := n - |secret|;
      for i := 0 to |secret|
        invariant forall j :: 0 <= j < pad ==> out[j] == 0
        invariant forall j :: 0 <= j < i ==> out[pad + j] == secret[j]
      {
        out[pad + i] := secret[i];
      }
      assert forall j :: pad <= j < n ==> out[j] == secret[j - pad];
    }
    r := out[..];
  }

  /** As a big-endian integer, lengthening keeps the secret and truncating divides it. */
  lemma ResizedValue(secret: seq<byte>, n: nat)
    ensures Nat(Resized(secret, n)) == if n >= |secret| then Nat(secret) else Nat(secret) / Pow256(|secret| - n)
  {
    if |secret| >= n {
      NatOfPrefix(secret, n);
      assert n == |secret| ==> secret[..n] == secret;
    } else {
      NatOfZeroPrefix(n - |secret|, secret);
    }
  }

  function Abs(n: int): nat {
    if n < 0 then -n else n
  }

  /** signECDSA's conversion of the pair (R, S) to fixed-width r || s; FillBytes drops signs. */
  function RawSignature(r: int, s: int, size: nat): Outcome<seq<byte>> {
    if BitLen(Abs(r)) > size * 8 || BitLen(Abs(s)) > size * 8 then Err(Internal)
    else Ok(BE(Abs(r), size) + BE(Abs(s), size))
  }

  /** Conversion succeeds exactly when both magnitudes fit, and then the halves decode to them: to R
      and S themselves exactly when neither is negative. */
  lemma RawSignatureHalves(r: int, s: int, size: nat)
    ensures RawSignature(r, s, size).Ok? <==> Abs(r) < Pow256(size) && Abs(s) < Pow256(size)
    ensures RawSignature(r, s, size).Ok? ==>
              var sig := RawSignature(r, s, size).value;
              && |sig| == 2 * size && Nat(sig[..size]) == Abs(r) && Nat(sig[size..]) == Abs(s)
              && (Nat(sig[..size]) == r && Nat(sig[size..]) == s <==> 0 <= r && 0 <= s)
  {
    BitLenFits(Abs(r), size);
    BitLenFits(Abs(s), size);
    NatOfBE(Abs(r), size);
    NatOfBE(Abs(s), size);
    if RawSignature(r, s, size).Ok? {
      var sig := RawSignature(r, s, size).value;
      assert sig[..size] == BE(Abs(r), size) && sig[size..] == BE(Abs(s), size);
    }
  }

  /** The library's signers: ECDSA's (R, S), and the two RSA schemes. */
  datatype Signer = Signer(
    ecdsa: (PrivateKey, seq<byte>) -> Option<(int, int)>,
    rsaPkcs: (PrivateKey, seq<byte>) -> Outcome<seq<byte>>,
    rsaPss: (PrivateKey, uint64, uint64, seq<byte>) -> Outcome<seq<byte>>)

  function SignEcdsa(priv: PrivateKey, m: Mechanism, data: seq<byte>, signer: Signer): Outcome<seq<byte>> {
    if !m.NoParameters() then Err(Pkcs11(CKR_ARGUMENTS_BAD))
    else
      var sig := signer.ecdsa(priv, data);
      if sig.None? || !priv.public.EcPublic? then Err(Internal)
      else RawSignature(sig.value.0, sig.value.1, priv.public.curve.ByteLen())
  }

  function SignPss(priv: PrivateKey, m: Mechanism, data: seq<byte>, signer: Signer): Outcome<seq<byte>> {
    if !m.params.Pss? then Err(Internal)
    else
      var mgf := match m.params.hashAlg case 0x250 => 2 case 0x260 => 3 case 0x270 => 4 case _ => 0;
      if mgf == 0 || mgf != m.params.mgf then Err(Pkcs11(CKR_MECHANISM_PARAM_INVALID))
      else signer.rsaPss(priv, m.params.hashAlg, m.params.saltLen, data)
  }

  /** Object.sign */
  function Sign(o: Object, m: Mechanism, data: seq<byte>, signer: Signer): Outcome<seq<byte>> {
    if o.priv.None? then Err(Pkcs11(CKR_KEY_HANDLE_INVALID))
    else if m.typ == CKM_RSA_PKCS then
      if !m.NoParameters() then Err(Pkcs11(CKR_ARGUMENTS_BAD)) else signer.rsaPkcs(o.priv.value, data)
    else if m.typ == CKM_RSA_PKCS_PSS then SignPss(o.priv.value, m, data, signer)
    else if m.typ == CKM_ECDSA then SignEcdsa(o.priv.value, m, data, signer)
    else Err(Pkcs11(CKR_MECHANISM_INVALID))
  }

  /** Curve arithmetic, hashes by KDF number, and the random identifier of the derived object. */
  datatype KeyEnv = KeyEnv(
    onCurve: (Curve, nat, nat) -> bool,
    mult: (Curve, nat, nat, nat) -> (nat, nat),
    hash: uint64 -> Hash,
    id: Option<uint64>)
  {
    ghost predicate Valid() {
      forall k :: hash(k).Valid()
    }
  }

  /** The uncompressed point of section 2.3.3 of SEC 1 v2.0. */
  function EncodePoint(curve: Curve, x: nat, y: nat): seq<byte> {
    [4] + BE(x, curve.ByteLen()) + BE(y, curve.ByteLen())
  }

  /** ecdhSharedSecret: the x-coordinate, at the field's width. */
  function SharedSecret(curve: Curve, d: nat, publicData: seq<byte>, env: KeyEnv): (r: Outcome<seq<byte>>)
    ensures r.Ok? ==> |r.value| == curve.ByteLen()
  {
    var l := curve.ByteLen();
    if |publicData| != 1 + 2 * l || publicData[0] != 4 then Err(Pkcs11(CKR_ARGUMENTS_BAD))
    else
      var x, y := Nat(publicData[1..1 + l]), Nat(publicData[1 + l..]);
      if !env.onCurve(curve, x, y) then Err(Pkcs11(CKR_DOMAIN_PARAMS_INVALID))
      else Ok(BE(env.mult(curve, d, x, y).0, l))
  }

  /** A fixed-width point decodes to its coordinates (section 2.3.4 of SEC 1 v2.0). */
  lemma SecretFromPoint(curve: Curve, d: nat, x: nat, y: nat, env: KeyEnv)
    requires x < Pow256(curve.ByteLen()) && y < Pow256(curve.ByteLen()) && env.onCurve(curve, x, y)
    ensures SharedSecret(curve, d, EncodePoint(curve, x, y), env) == Ok(BE(env.mult(curve, d, x, y).0, curve.ByteLen()))
  {
    var l := curve.ByteLen();
    var p := EncodePoint(curve, x, y);
    assert p[1..1 + l] == BE(x, l) && p[1 + l..] == BE(y, l);
    NatOfBE(x, l);
    NatOfBE(y, l);
  }

  /** The last ulong a template gives for a type, or the default; entries without a ulong are
      skipped. */
  function LastUlong(tmpl: seq<Attribute>, typ: uint32, default: uint64): uint64 {
    if tmpl == [] then default
    else
      var t := tmpl[|tmpl| - 1];
      if t.typ == typ && t.ulong.Some? then t.ulong.value else LastUlong(tmpl[..|tmpl| - 1], typ, default)
  }

  /** An entry that setUint64 can read. */
  predicate Usable(t: Attribute, typ: uint32) {
    t.typ == typ && t.ulong.Some?
  }

  predicate NoneUsable(tmpl: seq<Attribute>, typ: uint32) {
    forall i :: 0 <= i < |tmpl| ==> !Usable(tmpl[i], typ)
  }

  /** Without a usable entry it is the default. */
  lemma {:induction false} NoUlong(tmpl: seq<Attribute>, typ: uint32, default: uint64)
    requires NoneUsable(tmpl, typ)
    ensures LastUlong(tmpl, typ, default) == default
  {
    if tmpl != [] {
      assert !Usable(tmpl[|tmpl| - 1], typ);
      NoUlong(tmpl[..|tmpl| - 1], typ, default);
    }
  }

  /** Otherwise it is the value of the last one. */
  lemma {:induction false} LastUlongAt(before: seq<Attribute>, t: Attribute, after: seq<Attribute>, default: uint64)
    requires t.ulong.Some? && NoneUsable(after, t.typ)
    ensures LastUlong(before + [t] + after, t.typ, default) == t.ulong.value
    decreases |after|
  {
    var tmpl := before + [t] + after;
    if after == [] {
      assert tmpl[|tmpl| - 1] == t;
    } else {
      var last := after[|after| - 1];
      assert tmpl[|tmpl| - 1] == last && !Usable(last, t.typ);
      assert tmpl[..|tmpl| - 1] == before + [t] + after[..|after| - 1];
      LastUlongAt(before, t, after[..|after| - 1], default);
    }
  }

  predicate KnownKdf(kdf: uint64) {
    5 <= kdf <= 8
  }

  /** Go's conversion int(n) of a uint64. */
  function Int64(n: uint64): int {
    if n < 0x8000_0000_0000_0000 then n else n - TWO64
  }

  function KdfSecret(p: Params, secret: seq<byte>, valueLen: uint64, env: KeyEnv): (r: Outcome<seq<byte>>)
    requires p.Ecdh1? && env.Valid()
    ensures r.Ok? ==> |r.value| == if p.kdf == CKD_NULL then |secret| else valueLen
  {
    if p.kdf == CKD_NULL then Ok(secret)
    else if !KnownKdf(p.kdf) then Err(Pkcs11(CKR_MECHANISM_PARAM_INVALID))
    else X963(env.hash(p.kdf), secret, p.sharedData.Content(), Int64(valueLen))
  }

  function DerivedAttributes(tmpl: seq<Attribute>, value: seq<byte>, valueLen: uint64): seq<Attribute> {
    [OfUlong(CKA_CLASS, LastUlong(tmpl, CKA_CLASS, CKO_SECRET_KEY)),
     OfUlong(CKA_KEY_TYPE, LastUlong(tmpl, CKA_KEY_TYPE, CKK_GENERIC_SECRET)),
     OfBytes(CKA_VALUE, Data(value)),
     OfUlong(CKA_VALUE_LEN, valueLen)]
  }

  predicate MayDerive(base: Object) {
    Lookup(base.attributes, CKA_DERIVE).Some? && Lookup(base.attributes, CKA_DERIVE).value.byteVal.GetOr(0) != 0
  }

  predicate IsEcdsaKey(base: Object) {
    base.priv.Some? && base.priv.value.scalar.Some? && base.priv.value.public.EcPublic?
  }

  /** deriveECDH */
  function DeriveEcdh(m: Mechanism, base: Object, tmpl: seq<Attribute>, env: KeyEnv): Outcome<Object>
    requires env.Valid()
  {
    if !m.params.Ecdh1? then Err(Pkcs11(CKR_MECHANISM_PARAM_INVALID))
    else if !IsEcdsaKey(base) then Err(Pkcs11(CKR_KEY_TYPE_INCONSISTENT))
    else if !MayDerive(base) then Err(Pkcs11(CKR_KEY_FUNCTION_NOT_PERMITTED))
    else
      var shared := SharedSecret(base.priv.value.public.curve, base.priv.value.scalar.value, m.params.publicData.Content(), env);
      if shared.Err? then Err(shared.error)
      else
        var valueLen := LastUlong(tmpl, CKA_VALUE_LEN, |shared.value| % TWO64);
        var secret := KdfSecret(m.params, shared.value, valueLen, env);
        if secret.Err? then Err(secret.error)
        else if env.id.None? then Err(Internal)
        else Ok(Object(env.id.value, DerivedAttributes(tmpl, Resized(secret.value, valueLen), valueLen), None, None))
  }

  /** The loop of deriveECDH over the template. */
  method TemplateDefaults(tmpl: seq<Attribute>, secretLen: uint64) returns (class_: uint64, keyType: uint64, valueLen: uint64)
    ensures class_ == LastUlong(tmpl, CKA_CLASS, CKO_SECRET_KEY)
    ensures keyType == LastUlong(tmpl, CKA_KEY_TYPE, CKK_GENERIC_SECRET)
    ensures valueLen == LastUlong(tmpl, CKA_VALUE_LEN, secretLen)
  {
    class_, keyType, valueLen := CKO_SECRET_KEY, CKK_GENERIC_SECRET, secretLen;
    for i := 0 to |tmpl|
      invariant class_ == LastUlong(tmpl[..i], CKA_CLASS, CKO_SECRET_KEY)
      invariant keyType == LastUlong(tmpl[..i], CKA_KEY_TYPE, CKK_GENERIC_SECRET)
      invariant valueLen == LastUlong(tmpl[..i], CKA_VALUE_LEN, secretLen)
    {
      assert tmpl[..i + 1][..i] == tmpl[..i];
      var t := tmpl[i];
      if t.ulong.Some? {
        if t.typ == CKA_CLASS {
          class_ := t.ulong.value;
        } else if t.typ == CKA_KEY_TYPE {
          keyType := t.ulong.value;
        } else if t.typ == CKA_VALUE_LEN {
          valueLen := t.ulong.value;
        }
      }
    }
    assert tmpl[..|tmpl|] == tmpl;
  }

  method Derive(m: Mechanism, base: Object, tmpl: seq<Attribute>, env: KeyEnv) returns (r: Outcome<Object>)
    requires env.Valid()
    ensures r == DeriveEcdh(m, base, tmpl, env)
  {
    if !m.params.Ecdh1? {
      return Err(Pkcs11(CKR_MECHANISM_PARAM_INVALID));
    }
    if !IsEcdsaKey(base) {
      return Err(Pkcs11(CKR_KEY_TYPE_INCONSISTENT));
    }
    if !MayDerive(base) {
      return Err(Pkcs11(CKR_KEY_FUNCTION_NOT_PERMITTED));
    }
    var p := m.params;
    var priv := base.priv.value;
    var shared := SharedSecret(priv.public.curve, priv.scalar.value, p.publicData.Content(), env);
    if shared.Err? {
      return Err(shared.error);
    }
    var secret := shared.value;
    var class_, keyType, valueLen := TemplateDefaults(tmpl, |secret| % TWO64);
    if p.kdf != CKD_NULL {
      if !KnownKdf(p.kdf) {
        return Err(Pkcs11(CKR_MECHANISM_PARAM_INVALID));
      }
      var k, _ := X963Kdf(secret, env.hash(p.kdf), p.sharedData.Content(), Int64(valueLen));
      if k.Err? {
        return Err(k.error);
      }
      secret := k.value;
    }
    secret := ResizeSecret(secret, valueLen);
    if env.id.None? {
      return Err(Internal);
    }
    var attrs := [OfUlong(CKA_CLASS, class_), OfUlong(CKA_KEY_TYPE, keyType),
                  OfBytes(CKA_VALUE, Data(secret)), OfUlong(CKA_VALUE_LEN, valueLen)];
    return Ok(Object(env.id.value, attrs, None, None));
  }

  /** When a derivation succeeds, and with which error it fails: the checks in order. The length is
      the template's, or the field's. */
  lemma DeriveOutcome(m: Mechanism, base: Object, tmpl: seq<Attribute>, env: KeyEnv)
    requires env.Valid()
    ensures var r, p, may := DeriveEcdh(m, base, tmpl, env), m.params, Lookup(base.attributes, CKA_DERIVE);
            if !p.Ecdh1? then r == Err(Pkcs11(CKR_MECHANISM_PARAM_INVALID))
            else if base.priv.None? || base.priv.value.scalar.None? || !base.priv.value.public.EcPublic? then r == Err(Pkcs11(CKR_KEY_TYPE_INCONSISTENT))
            else if may.None? || may.value.byteVal.None? || may.value.byteVal.value == 0 then r == Err(Pkcs11(CKR_KEY_FUNCTION_NOT_PERMITTED))
            else
              var curve, data := base.priv.value.public.curve, p.publicData.Content();
              var l := curve.ByteLen();
              var len := LastUlong(tmpl, CKA_VALUE_LEN, l % TWO64);
              if |data| != 1 + 2 * l || data[0] != 4 then r == Err(Pkcs11(CKR_ARGUMENTS_BAD))
              else if !env.onCurve(curve, Nat(data[1..1 + l]), Nat(data[1 + l..])) then r == Err(Pkcs11(CKR_DOMAIN_PARAMS_INVALID))
              else if p.kdf != 1 && (p.kdf < 5 || 8 < p.kdf) then r == Err(Pkcs11(CKR_MECHANISM_PARAM_INVALID))
              else if p.kdf != 1 && (len == 0 || 0x8000_0000_0000_0000 <= len) then r == Err(Pkcs11(CKR_MECHANISM_PARAM_INVALID))
              else if env.id.None? then r == Err(Internal)
              else r.Ok? && Some(r.value.id) == env.id && r.value.pub.None? && r.value.priv.None?
  {
    hide LastUlong, Resized, Lookup, Nat, BlockCount, Blocks, Curve.ByteLen;
  }

  /** A derived key is well typed and its value is exactly as long as it says; after a KDF nothing
      was resized, and without one the value is the shared x-coordinate, padded or divided. */
  lemma DerivedKey(m: Mechanism, base: Object, tmpl: seq<Attribute>, env: KeyEnv)
    requires env.Valid() && DeriveEcdh(m, base, tmpl, env).Ok?
    ensures var o := DeriveEcdh(m, base, tmpl, env).value;
            var secret := SharedSecret(base.priv.value.public.curve, base.priv.value.scalar.value, m.params.publicData.Content(), env).value;
            var value, len := Lookup(o.attributes, CKA_VALUE), Lookup(o.attributes, CKA_VALUE_LEN);
            && o.WellTyped()
            && Lookup(o.attributes, CKA_CLASS) == Some(OfUlong(CKA_CLASS, LastUlong(tmpl, CKA_CLASS, CKO_SECRET_KEY)))
            && Lookup(o.attributes, CKA_KEY_TYPE) == Some(OfUlong(CKA_KEY_TYPE, LastUlong(tmpl, CKA_KEY_TYPE, CKK_GENERIC_SECRET)))
            && value.Some? && value.value.bytes.Data? && len.Some?
            && len.value.ulong == Some(LastUlong(tmpl, CKA_VALUE_LEN, |secret| % TWO64))
            && |value.value.bytes.data| == len.value.ulong.value
            && (m.params.kdf == CKD_NULL ==>
                  Nat(value.value.bytes.data) ==
                  if |secret| <= len.value.ulong.value then Nat(secret) else Nat(secret) / Pow256(|secret| - len.value.ulong.value))
            && (m.params.kdf != CKD_NULL ==>
                  Ok(value.value.bytes.data) == X963(env.hash(m.params.kdf), secret, m.params.sharedData.Content(), len.value.ulong.value))
  {
    hide MayDerive, SharedSecret, X963, LastUlong, BlockCount, Resized, Lookup, Attribute.WellTyped;
    var o := DeriveEcdh(m, base, tmpl, env).value;
    var secret := SharedSecret(base.priv.value.public.curve, base.priv.value.scalar.value, m.params.publicData.Content(), env).value;
    var valueLen := LastUlong(tmpl, CKA_VALUE_LEN, |secret| % TWO64);
    var key := KdfSecret(m.params, secret, valueLen, env).value;
    var a := DerivedAttributes(tmpl, Resized(key, valueLen), valueLen);
    assert o.attributes == a;
    DerivedLookups(a);
    DerivedWellTyped(tmpl, Resized(key, valueLen), valueLen);
    ResizedValue(key, valueLen);
    ResizedSame(key);
  }

  lemma ResizedSame(s: seq<byte>)
    ensures Resized(s, |s|) == s
  {
  }

  lemma DerivedWellTyped(tmpl: seq<Attribute>, value: seq<byte>, valueLen: uint64)
    ensures AllWellTyped(DerivedAttributes(tmpl, value, valueLen))
  {
    hide LastUlong;
  }

  lemma DerivedLookups(a: seq<Attribute>)
    requires |a| == 4 && a[0].typ == CKA_CLASS && a[1].typ == CKA_KEY_TYPE && a[2].typ == CKA_VALUE && a[3].typ == CKA_VALUE_LEN
    ensures Lookup(a, CKA_CLASS) == Some(a[0]) && Lookup(a, CKA_KEY_TYPE) == Some(a[1])
    ensures Lookup(a, CKA_VALUE) == Some(a[2]) && Lookup(a, CKA_VALUE_LEN) == Some(a[3])
  {
    assert a[1..][1..] == a[2..] && a[2..][1..] == a[3..];
    assert Lookup(a[2..], CKA_VALUE) == Some(a[2]);
    assert Lookup(a[1..], CKA_VALUE) == Some(a[2]);
    assert Lookup(a[3..], CKA_VALUE_LEN) == Some(a[3]);
    assert Lookup(a[2..], CKA_VALUE_LEN) == Some(a[3]);
    assert Lookup(a[1..], CKA_VALUE_LEN) == Some(a[3]);
  }

  /** One party's side of a key agreement: a key pair, usable for derivation, whose public point fits
      the field. */
  ghost predicate Party(o: Object, curve: Curve, d: nat, x: nat, y: nat, env: KeyEnv) {
    && o.priv.Some? && o.priv.value.scalar == Some(d) && o.priv.value.public == EcPublic(curve, x, y)
    && Lookup(o.attributes, CKA_DERIVE).Some? && Lookup(o.attributes, CKA_DERIVE).value.byteVal.GetOr(0) != 0
    && env.onCurve(curve, x, y) && x < Pow256(curve.ByteLen()) && y < Pow256(curve.ByteLen())
  }

  /** Two parties that derive from each other's fixed-width point, with the same KDF, shared data
      and template, get the same key, given only that scalar multiplication commutes: both succeed if
      and only if the KDF is known, its length positive as an int, and an identifier is drawn. */
  lemma PartiesAgree(curve: Curve, kdf: uint64, shared: Slice, tmpl: seq<Attribute>, env: KeyEnv,
                     a: Object, da: nat, xa: nat, ya: nat, b: Object, db: nat, xb: nat, yb: nat)
    requires env.Valid()
    requires Party(a, curve, da, xa, ya, env) && Party(b, curve, db, xb, yb, env)
    requires env.mult(curve, da, xb, yb) == env.mult(curve, db, xa, ya)
    ensures var ka := DeriveEcdh(Mechanism(CKM_ECDH1_DERIVE, Ecdh1(kdf, shared, Data(EncodePoint(curve, xb, yb)))), a, tmpl, env);
            var kb := DeriveEcdh(Mechanism(CKM_ECDH1_DERIVE, Ecdh1(kdf, shared, Data(EncodePoint(curve, xa, ya)))), b, tmpl, env);
            var len := LastUlong(tmpl, CKA_VALUE_LEN, curve.ByteLen() % TWO64);
            && ka == kb
            && (ka.Ok? <==> env.id.Some? && (kdf == 1 || (5 <= kdf <= 8 && 0 < len < 0x8000_0000_0000_0000)))
  {
    hide LastUlong, Resized, SharedSecret, EncodePoint, Lookup, Curve.ByteLen, BlockCount, Blocks, Pow256;
    SecretFromPoint(curve, da, xb, yb, env);
    SecretFromPoint(curve, db, xa, ya, env);
  }
}

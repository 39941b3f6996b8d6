/** The typed body format of rpc.go: signature codes, the field each code stands for, and the
    unambiguity of the pair (signature, buffer). */
module Fields {
  import opened Bytes
  import opened Wire
  import opened Attributes

  const CKM_RSA_PKCS_KEY_PAIR_GEN: uint32 := 0x0
  const CKM_RSA_PKCS: uint32 := 0x1
  const CKM_RSA_PKCS_PSS: uint32 := 0xd
  const CKM_EC_KEY_PAIR_GEN: uint32 := 0x1040
  const CKM_ECDSA: uint32 := 0x1041
  const CKM_ECDH1_DERIVE: uint32 := 0x1050

  /** mechanism.params: an interface holding nothing, bytes, or one of two parameter structs. */
  datatype Params =
    | NoParams
    | Raw(bytes: Slice)
    | Pss(hashAlg: uint64, mgf: uint64, saltLen: uint64)
    | Ecdh1(kdf: uint64, sharedData: Slice, publicData: Slice)

  datatype Mechanism = Mechanism(typ: uint32, params: Params) {
    /** noParams(): the parameters are a byte slice, and an empty one. */
    predicate NoParameters() {
      params.Raw? && params.bytes.Content() == []
    }
  }

  datatype Template = Template(typ: uint32, len: uint32)

  predicate HasNoParameters(typ: uint32) {
    typ in {CKM_RSA_PKCS_KEY_PAIR_GEN, CKM_EC_KEY_PAIR_GEN, CKM_RSA_PKCS, CKM_ECDSA, 0xffff_ffff}
  }

  /** The fields a body can hold. The last three are only ever written. */
  datatype Field =
    | FAttributeArray | FAttributeBuffer | FByte | FByteArray | FByteBuffer
    | FMechanism | FUlong | FUlongBuffer | FZeroString
    | FString | FUlongArray | FVersion
  {
    predicate Readable() {
      !FString? && !FUlongArray? && !FVersion?
    }
  }

  /** The signature codes, in ASCII. */
  function Code(f: Field): (s: seq<byte>)
    ensures s != []
  {
    match f
    case FAttributeArray => [97, 65]   // aA
    case FAttributeBuffer => [102, 65] // fA
    case FByte => [121]                // y
    case FByteArray => [97, 121]       // ay
    case FByteBuffer => [102, 121]     // fy
    case FMechanism => [77]            // M
    case FString => [115]              // s
    case FUlong => [117]               // u
    case FUlongArray => [97, 117]      // au
    case FUlongBuffer => [102, 117]    // fu
    case FVersion => [118]             // v
    case FZeroString => [122]          // z
  }

  function Codes(fs: seq<Field>): seq<byte> {
    if fs == [] then [] else Code(fs[0]) + Codes(fs[1..])
  }

  /** No code is a prefix of another. */
  lemma PrefixFree(f: Field, g: Field, s: seq<byte>, t: seq<byte>)
    requires Code(f) + s == Code(g) + t
    ensures f == g && s == t
  {
    var u := Code(f) + s;
    assert u == Code(g) + t;
    assert u[0] == Code(f)[0] == Code(g)[0];
    assert u[0] == 97 || u[0] == 102 ==> u[1] == Code(f)[1] == Code(g)[1];
    assert u[|Code(f)|..] == s && u[|Code(g)|..] == t;
  }

  /** So a signature spells at most one list of fields. */
  lemma {:induction false} SignatureUnique(fs: seq<Field>, gs: seq<Field>)
    requires Codes(fs) == Codes(gs)
    ensures fs == gs
  {
    if fs != [] && gs != [] {
      PrefixFree(fs[0], gs[0], Codes(fs[1..]), Codes(gs[1..]));
      SignatureUnique(fs[1..], gs[1..]);
      assert fs == [fs[0]] + fs[1..] && gs == [gs[0]] + gs[1..];
    }
  }

  datatype Value =
    | VAttributes(attrs: seq<Attribute>)
    | VTemplates(tmpl: seq<Template>)
    | VByte(c: byte)
    | VBytes(arr: Slice, len: uint32)
    | VCount(count: uint32)
    | VMechanism(m: Mechanism)
    | VUlong(n: uint64)
    | VText(text: seq<byte>)

  function GetTemplates(done: seq<Template>, n: nat, b: seq<byte>): Parse<seq<Template>>
    decreases n
  {
    if n == 0 then Got(done, b)
    else
      match GetU32(b)
      case Short(rest) => Short(rest)
      case Got(typ, b1) =>
        match GetU32(b1)
        case Short(rest) => Short(rest)
        case Got(len, b2) => GetTemplates(done + [Template(typ, len)], n - 1, b2)
  }

  function GetPss(b: seq<byte>): Parse<Params> {
    match GetU64(b)
    case Short(rest) => Short(rest)
    case Got(hashAlg, b1) =>
      match GetU64(b1)
      case Short(rest) => Short(rest)
      case Got(mgf, b2) =>
        match GetU64(b2)
        case Short(rest) => Short(rest)
        case Got(saltLen, b3) => Got(Pss(hashAlg, mgf, saltLen), b3)
  }

  function GetEcdh1(b: seq<byte>): Parse<Params> {
    match GetU64(b)
    case Short(rest) => Short(rest)
    case Got(kdf, b1) =>
      match GetByteArray(b1)
      case Short(rest) => Short(rest)
      case Got(shared, b2) =>
        match GetByteArray(b2)
        case Short(rest) => Short(rest)
        case Got(public, b3) => Got(Ecdh1(kdf, shared, public), b3)
  }

  /** What follows the mechanism type. */
  function GetParams(typ: uint32, b: seq<byte>): Parse<Params> {
    if HasNoParameters(typ) then
      Got(Raw(Data([])), if PeekU32(b, NULL_MARKER) then b[4..] else b)
    else
      match GetByte(b)
      case Short(rest) => Short(rest)
      case Got(hasParam, b1) =>
        if hasParam == 0 then Got(Raw(Data([])), b1)
        else if typ == CKM_RSA_PKCS_PSS then GetPss(b1)
        else if typ == CKM_ECDH1_DERIVE then GetEcdh1(b1)
        else
          match GetByteArray(b1)
          case Short(rest) => Short(rest)
          case Got(p, rest) => Got(Raw(p), rest)
  }

  function GetMechanism(b: seq<byte>): Parse<Mechanism> {
    match GetU32(b)
    case Short(rest) => Short(rest)
    case Got(typ, b1) =>
      match GetParams(typ, b1)
      case Short(rest) => Short(rest)
      case Got(params, rest) => Got(Mechanism(typ, params), rest)
  }

  /** One parse per readable field code. */
  function GetField(f: Field, b: seq<byte>): Parse<Value>
    requires f.Readable()
  {
    match f
    case FByte => (match GetByte(b) case Short(r) => Short(r) case Got(c, r) => Got(VByte(c), r))
    case FUlong => (match GetU64(b) case Short(r) => Short(r) case Got(n, r) => Got(VUlong(n), r))
    case FByteBuffer => (match GetU32(b) case Short(r) => Short(r) case Got(n, r) => Got(VCount(n), r))
    case FUlongBuffer => (match GetU32(b) case Short(r) => Short(r) case Got(n, r) => Got(VCount(n), r))
    case FMechanism => (match GetMechanism(b) case Short(r) => Short(r) case Got(m, r) => Got(VMechanism(m), r))
    case FZeroString =>
      (match GetByteArray(b) case Short(r) => Short(r) case Got(a, r) => Got(VText(a.Content()), r))
    case FByteArray => GetOptionalBytes(b)
    case FAttributeArray =>
      (match GetU32(b)
       case Short(r) => Short(r)
       case Got(n, b1) =>
         match GetAttributes([], n, b1) case Short(r) => Short(r) case Got(a, r) => Got(VAttributes(a), r))
    case FAttributeBuffer =>
      (match GetU32(b)
       case Short(r) => Short(r)
       case Got(n, b1) =>
         match GetTemplates([], n, b1) case Short(r) => Short(r) case Got(t, r) => Got(VTemplates(t), r))
  }

  /** A presence byte, then content or only a length. */
  function GetOptionalBytes(b: seq<byte>): Parse<Value> {
    match GetByte(b)
    case Short(r) => Short(r)
    case Got(hasContent, b1) =>
      if hasContent != 0 then
        match GetByteArray(b1) case Short(r) => Short(r) case Got(a, r) => Got(VBytes(a, 0), r)
      else
        match GetU32(b1) case Short(r) => Short(r) case Got(n, r) => Got(VBytes(Nil, n), r)
  }

  /** Errors: PKCS #11 codes are answered; anything else ends the connection. */
  datatype Error = Pkcs11(code: uint64) | BadSignature | UnexpectedEOF | TrailingElements | TrailingData | Internal

  datatype BodyValue = BodyValue(call: uint32, signature: seq<byte>, buffer: seq<byte>, error: Option<Error>) {
    /** body.err() */
    function Err(): Option<Error> {
      if error.Some? then error
      else if signature != [] then Some(TrailingElements)
      else if buffer != [] then Some(TrailingData)
      else None
    }
  }

  /** body.decode around the field's reader. */
  function ReadField(f: Field, b: BodyValue): (BodyValue, Option<Value>)
    requires f.Readable()
  {
    if b.error.Some? then (b, None)
    else if !(Code(f) <= b.signature) then (b.(error := Some(BadSignature)), None)
    else
      var sig := b.signature[|Code(f)|..];
      match GetField(f, b.buffer)
      case Short(rest) => (b.(signature := sig, buffer := rest, error := Some(UnexpectedEOF)), None)
      case Got(v, rest) => (b.(signature := sig, buffer := rest), Some(v))
  }

  predicate AllReadable(fs: seq<Field>) {
    forall f :: f in fs ==> f.Readable()
  }

  /** A run of reads; values of reads that failed are left out. */
  function ReadFields(fs: seq<Field>, b: BodyValue): (BodyValue, seq<Value>)
    requires AllReadable(fs)
  {
    if fs == [] then (b, [])
    else
      var (b1, v) := ReadField(fs[0], b);
      var (b2, vs) := ReadFields(fs[1..], b1);
      (b2, (if v.Some? then [v.value] else []) + vs)
  }

  /** The field contents alone, without the signature. */
  function GetFields(fs: seq<Field>, b: seq<byte>): Parse<seq<Value>>
    requires AllReadable(fs)
  {
    if fs == [] then Got([], b)
    else
      match GetField(fs[0], b)
      case Short(rest) => Short(rest)
      case Got(v, rest) =>
        match GetFields(fs[1..], rest)
        case Short(r) => Short(r)
        case Got(vs, r) => Got([v] + vs, r)
  }

  /** After the first error no read changes anything. */
  lemma {:induction false} ErrorSticks(fs: seq<Field>, b: BodyValue)
    requires AllReadable(fs) && b.error.Some?
    ensures ReadFields(fs, b) == (b, [])
    decreases fs
  {
    if fs != [] {
      ErrorSticks(fs[1..], b);
      assert [] + ReadFields(fs[1..], b).1 == [];
    }
  }

  /** A run of reads ends without error if and only if the signature is exactly the codes read and
      the buffer is exactly the fields read; it then yields the values, and by SignatureUnique no
      other list of reads accepts that signature. */
  lemma {:induction false} ReadsExactly(fs: seq<Field>, b: BodyValue)
    requires AllReadable(fs) && b.error.None?
    ensures ReadFields(fs, b).0.Err().None? <==>
            b.signature == Codes(fs) && GetFields(fs, b.buffer).Got? && GetFields(fs, b.buffer).rest == []
    ensures ReadFields(fs, b).0.Err().None? ==> ReadFields(fs, b).1 == GetFields(fs, b.buffer).value
    decreases fs
  {
    if fs != [] {
      var (b1, v) := ReadField(fs[0], b);
      if b1.error.Some? {
        ErrorSticks(fs[1..], b1);
        if b1.error.value.BadSignature? {
          assert b.signature != Codes(fs) by {
            assert Code(fs[0]) <= Codes(fs);
          }
        }
      } else {
        ReadsExactly(fs[1..], b1);
        assert b.signature == Code(fs[0]) + b1.signature;
        assert b.signature == Codes(fs) <==> b1.signature == Codes(fs[1..]) by {
          assert Codes(fs)[|Code(fs[0])|..] == Codes(fs[1..]);
        }
      }
    }
  }
}

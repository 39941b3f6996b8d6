/** Typed attributes (attribute.go) and their wire form (rpc.go). */
module Attributes {
  import opened Bytes
  import opened Dates
  import opened Wire

  const CKA_CLASS: uint32 := 0x0
  const CKA_TOKEN: uint32 := 0x1
  const CKA_LABEL: uint32 := 0x3
  const CKA_VALUE: uint32 := 0x11
  const CKA_OBJECT_ID: uint32 := 0x12
  const CKA_CERTIFICATE_TYPE: uint32 := 0x80
  const CKA_ISSUER: uint32 := 0x81
  const CKA_SERIAL_NUMBER: uint32 := 0x82
  const CKA_KEY_TYPE: uint32 := 0x100
  const CKA_SUBJECT: uint32 := 0x101
  const CKA_ID: uint32 := 0x102
  const CKA_SENSITIVE: uint32 := 0x103
  const CKA_ENCRYPT: uint32 := 0x104
  const CKA_DECRYPT: uint32 := 0x105
  const CKA_WRAP: uint32 := 0x106
  const CKA_UNWRAP: uint32 := 0x107
  const CKA_SIGN: uint32 := 0x108
  const CKA_VERIFY: uint32 := 0x10a
  const CKA_VERIFY_RECOVER: uint32 := 0x10b
  const CKA_DERIVE: uint32 := 0x10c
  const CKA_START_DATE: uint32 := 0x110
  const CKA_END_DATE: uint32 := 0x111
  const CKA_MODULUS: uint32 := 0x120
  const CKA_MODULUS_BITS: uint32 := 0x121
  const CKA_PUBLIC_EXPONENT: uint32 := 0x122
  const CKA_PRIVATE_EXPONENT: uint32 := 0x123
  const CKA_PRIME_1: uint32 := 0x124
  const CKA_PRIME_2: uint32 := 0x125
  const CKA_EXPONENT_1: uint32 := 0x126
  const CKA_EXPONENT_2: uint32 := 0x127
  const CKA_COEFFICIENT: uint32 := 0x128
  const CKA_PUBLIC_KEY_INFO: uint32 := 0x129
  const CKA_VALUE_LEN: uint32 := 0x161
  const CKA_EXTRACTABLE: uint32 := 0x162
  const CKA_LOCAL: uint32 := 0x163
  const CKA_NEVER_EXTRACTABLE: uint32 := 0x164
  const CKA_ALWAYS_SENSITIVE: uint32 := 0x165
  const CKA_EC_PARAMS: uint32 := 0x180
  const CKA_EC_POINT: uint32 := 0x181
  const CKA_ALWAYS_AUTHENTICATE: uint32 := 0x202

  datatype Kind = NoKind | ByteKind | UlongKind | MechanismsKind | DateKind | BytesKind

  /** Which of an attribute's value fields its type calls for. Ranges group the source's case
      lists; the numbers in between that the source does not list have no kind. */
  function ValueType(t: uint32): Kind {
    if t in {0x1, 0x2, 0x86, 0x200, 0x202, 0x210, 0x301, 0x302, 0x405} then ByteKind
    else if 0x103 <= t <= 0x10c || 0x162 <= t <= 0x165 || 0x170 <= t <= 0x171 then ByteKind
    else if t in {0x0, 0x80, 0x87, 0x88, 0x100, 0x121, 0x133, 0x134, 0x160, 0x161, 0x166, 0x201, 0x300, 0x406, 0x500} then UlongKind
    else if 0x400 <= t <= 0x404 then UlongKind
    else if t == 0x4000_0600 then MechanismsKind
    else if t == 0x110 || t == 0x111 then DateKind
    else if t in {0x3, 0x10, 0x11, 0x12, 0x89, 0x8a, 0x8b, 0x90, 0x101, 0x102, 0x120} then BytesKind
    else if 0x81 <= t <= 0x85 || 0x122 <= t <= 0x129 || 0x130 <= t <= 0x132 then BytesKind
    else if t in {0x180, 0x181} || 0x480 <= t <= 0x482 || 0x501 <= t <= 0x503 then BytesKind
    else NoKind
  }

  datatype Attribute = Attribute(
    typ: uint32,
    byteVal: Option<byte>,
    ulong: Option<uint64>,
    mechanisms: Option<seq<uint64>>,
    date: Option<Date>,
    bytes: Slice)
  {
    /** At most the field that ValueType chooses is set. */
    predicate WellTyped() {
      && (byteVal.Some? ==> ValueType(typ) == ByteKind)
      && (ulong.Some? ==> ValueType(typ) == UlongKind)
      && mechanisms.None?
      && (date.Some? ==> ValueType(typ) == DateKind)
      && (bytes.Data? ==> ValueType(typ) == BytesKind)
    }

    /** The codec's own bounds: array lengths below the NULL marker, years of four digits or 0. */
    predicate WireSafe() {
      && |bytes.Content()| < NULL_MARKER
      && (date.Some? ==> 1000 <= date.value.year <= 9999 || date.value.year == 0)
    }

    /** attribute.value(): the encoding of the first field that is set, nil when none is. */
    function Value(): (s: Slice)
      ensures s.Data? ==> s.data != []
    {
      if byteVal.Some? then Data([byteVal.value])
      else if ulong.Some? then Data(U64(ulong.value))
      else if bytes.Data? then Data(PutByteArray(bytes.data))
      else if date.Some? then Data(PutDate(date.value))
      else Nil
    }
  }

  function Empty(typ: uint32): Attribute {
    Attribute(typ, None, None, None, None, Nil)
  }

  function OfByte(typ: uint32, b: byte): Attribute {
    Empty(typ).(byteVal := Some(b))
  }

  function OfUlong(typ: uint32, n: uint64): Attribute {
    Empty(typ).(ulong := Some(n))
  }

  function OfBytes(typ: uint32, s: Slice): Attribute {
    Empty(typ).(bytes := s)
  }

  function OfDate(typ: uint32, d: Date): Attribute {
    Empty(typ).(date := Some(d))
  }

  /** The outer length field: the raw length for byte arrays, the encoding's for the rest. */
  function OuterLength(a: Attribute): uint32 {
    if ValueType(a.typ) == BytesKind then Length32(a.bytes.Content()) else Length32(a.Value().Content())
  }

  function PutAttribute(a: Attribute): seq<byte> {
    if a.Value().Nil? then U32(a.typ) + [0]
    else U32(a.typ) + [1] + U32(OuterLength(a)) + a.Value().data
  }

  function GetValue(typ: uint32, b: seq<byte>): Parse<Attribute> {
    match ValueType(typ)
    case ByteKind =>
      (match GetByte(b)
       case Short(rest) => Short(rest)
       case Got(n, rest) => Got(OfByte(typ, n), rest))
    case UlongKind =>
      (match GetU64(b)
       case Short(rest) => Short(rest)
       case Got(n, rest) => Got(OfUlong(typ, n), rest))
    case DateKind =>
      if |b| < 8 || GetDate(b[..8]).None? then Short(b)
      else Got(OfDate(typ, GetDate(b[..8]).value), b[8..])
    case BytesKind =>
      (match GetByteArray(b)
       case Short(rest) => Short(rest)
       case Got(a, rest) => Got(OfBytes(typ, a), rest))
    case _ => Short(b)
  }

  /** buffer.attribute: the outer length is read and then ignored. */
  function GetAttribute(b: seq<byte>): Parse<Attribute> {
    match GetU32(b)
    case Short(rest) => Short(rest)
    case Got(typ, b1) =>
      match GetByte(b1)
      case Short(rest) => Short(rest)
      case Got(validity, b2) =>
        if validity == 0 then Got(Empty(typ), b2)
        else
          match GetU32(b2)
          case Short(rest) => Short(rest)
          case Got(_, b3) => GetValue(typ, b3)
  }

  /** Whatever arrives on the wire is well typed and within the array bound. */
  lemma DecodedWellTyped(b: seq<byte>)
    requires GetAttribute(b).Got?
    ensures GetAttribute(b).value.WellTyped()
    ensures |GetAttribute(b).value.bytes.Content()| < NULL_MARKER
  {
  }

  lemma ValueRoundTrip(a: Attribute, s: seq<byte>)
    requires a.WellTyped() && a.WireSafe() && a.Value().Data?
    ensures GetValue(a.typ, a.Value().data + s) == Got(a, s)
  {
    var b := a.Value().data + s;
    if a.byteVal.Some? {
      assert b[1..] == s;
    } else if a.ulong.Some? {
      U64RoundTrip(a.ulong.value, s);
    } else if a.bytes.Data? {
      ByteArrayRoundTrip(a.bytes.data, s);
    } else {
      assert b[..8] == PutDate(a.date.value) && b[8..] == s;
      DateRoundTrip(a.date.value);
    }
  }

  lemma PutThenGetHeader(a: Attribute, s: seq<byte>)
    ensures GetAttribute(PutAttribute(a) + s) ==
            if a.Value().Nil? then Got(Empty(a.typ), s) else GetValue(a.typ, a.Value().data + s)
  {
    hide ValueType, GetValue, OuterLength, Attribute.Value, GetU32, U32;
    if a.Value().Nil? {
      assert PutAttribute(a) + s == U32(a.typ) + ([0] + s);
      U32RoundTrip(a.typ, [0] + s);
      assert ([0] + s)[1..] == s;
    } else {
      var tail := U32(OuterLength(a)) + (a.Value().data + s);
      assert PutAttribute(a) + s == U32(a.typ) + ([1] + tail);
      U32RoundTrip(a.typ, [1] + tail);
      assert ([1] + tail)[1..] == tail;
      U32RoundTrip(OuterLength(a), a.Value().data + s);
    }
  }

  /** An attribute followed by anything decodes to itself and exactly that suffix if and only if
      it is well typed and within the codec's bounds. */
  lemma AttributeRoundTrip(a: Attribute, s: seq<byte>)
    ensures GetAttribute(PutAttribute(a) + s) == Got(a, s) <==> a.WellTyped() && a.WireSafe()
  {
    PutThenGetHeader(a, s);
    if a.WellTyped() && a.WireSafe() {
      if a.Value().Data? {
        ValueRoundTrip(a, s);
      }
    }
    if GetAttribute(PutAttribute(a) + s) == Got(a, s) {
      DecodedWellTyped(PutAttribute(a) + s);
      if a.date.Some? {
        var b := a.Value().data + s;
        assert b[..8] == PutDate(a.date.value);
        DateRoundTrip(a.date.value);
      }
    }
  }

  /** For attributes of one type, equal encodings mean equal values, except that dates are equal
      only up to the collapse of years the wire form cannot carry. */
  lemma EncodingInjective(a: Attribute, c: Attribute)
    requires a.WellTyped() && c.WellTyped() && a.typ == c.typ
    ensures a.Value() == c.Value() <==>
            a == c || (a.date.Some? && c.date.Some? && PutDate(a.date.value) == PutDate(c.date.value))
  {
    if a.Value() == c.Value() {
      if a.ulong.Some? {
        Pow256Values();
        BEInjective(a.ulong.value, c.ulong.value, 8);
      } else if a.bytes.Data? {
        ByteArrayInjective(a.bytes.data, c.bytes.data);
      }
    }
  }

  /** Decoding n attributes one after another, after those already collected. */
  function GetAttributes(done: seq<Attribute>, n: nat, b: seq<byte>): Parse<seq<Attribute>>
    decreases n
  {
    if n == 0 then Got(done, b)
    else
      match GetAttribute(b)
      case Short(rest) => Short(rest)
      case Got(a, rest) => GetAttributes(done + [a], n - 1, rest)
  }

  function PutAttributes(attrs: seq<Attribute>): seq<byte> {
    if attrs == [] then [] else PutAttribute(attrs[0]) + PutAttributes(attrs[1..])
  }

  predicate AllWellTyped(attrs: seq<Attribute>) {
    forall a :: a in attrs ==> a.WellTyped()
  }

  predicate AllWireSafe(attrs: seq<Attribute>) {
    forall a :: a in attrs ==> a.WireSafe()
  }

  lemma {:induction false} AttributesRoundTrip(done: seq<Attribute>, attrs: seq<Attribute>, s: seq<byte>)
    requires AllWellTyped(attrs) && AllWireSafe(attrs)
    ensures GetAttributes(done, |attrs|, PutAttributes(attrs) + s) == Got(done + attrs, s)
    decreases attrs
  {
    hide GetAttribute, PutAttribute, Attribute.WellTyped, Attribute.WireSafe;
    if attrs == [] {
      assert done + attrs == done && PutAttributes(attrs) + s == s;
    } else {
      var tail := PutAttributes(attrs[1..]) + s;
      assert PutAttributes(attrs) + s == PutAttribute(attrs[0]) + tail;
      AttributeRoundTrip(attrs[0], tail);
      AttributesRoundTrip(done + [attrs[0]], attrs[1..], s);
      assert done + [attrs[0]] + attrs[1..] == done + attrs;
    }
  }

  lemma {:induction false} DecodedAllWellTyped(done: seq<Attribute>, n: nat, b: seq<byte>)
    requires AllWellTyped(done) && GetAttributes(done, n, b).Got?
    ensures AllWellTyped(GetAttributes(done, n, b).value)
    ensures |GetAttributes(done, n, b).value| == |done| + n
    decreases n
  {
    hide GetAttribute, Attribute.WellTyped;
    if n > 0 {
      DecodedWellTyped(b);
      DecodedAllWellTyped(done + [GetAttribute(b).value], n - 1, GetAttribute(b).rest);
    }
  }
}

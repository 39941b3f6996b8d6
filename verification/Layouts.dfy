/** The wire formats written out, apart from the readers and writers. */
module Layouts {
  import opened Bytes
  import opened Dates
  import opened Wire
  import opened Attributes
  import opened Fields
  import opened Bodies
  import opened Sizes
  import opened Messages

  /** Integers are big-endian. */
  lemma U32Bytes(a: byte, b: byte, c: byte, d: byte, s: seq<byte>)
    ensures var n := ((a * 0x100 + b) * 0x100 + c) * 0x100 + d;
            n < TWO32 && U32(n) == [a, b, c, d] && GetU32([a, b, c, d] + s) == Got(n, s)
  {
    var n := ((a * 0x100 + b) * 0x100 + c) * 0x100 + d;
    BE4(n, a, b, c, d);
    U32RoundTrip(n, s);
  }

  lemma BE4(n: nat, a: byte, b: byte, c: byte, d: byte)
    requires n == ((a * 0x100 + b) * 0x100 + c) * 0x100 + d
    ensures BE(n, 4) == [a, b, c, d]
  {
    assert n / 256 == (a * 0x100 + b) * 0x100 + c && n % 256 == d;
    assert n / 256 / 256 == a * 0x100 + b && n / 256 % 256 == c;
    assert n / 256 / 256 / 256 == a && n / 256 / 256 % 256 == b;
    assert BE(a, 1) == [a] by { assert BE(0, 0) == []; }
    assert BE(n / 256 / 256, 2) == [a, b];
    assert BE(n / 256, 3) == [a, b, c];
  }

  lemma U64Halves(hi: uint32, lo: uint32)
    ensures hi * TWO32 + lo < TWO64 && U64(hi * TWO32 + lo) == U32(hi) + U32(lo)
  {
    hide BE;
    var n: uint64 := hi * TWO32 + lo;
    var s := U32(hi) + U32(lo);
    Pow256Values();
    NatOfBE(hi, 4);
    NatOfBE(lo, 4);
    NatJoin(U32(hi), U32(lo));
    BEOfNat(s);
  }

  lemma {:induction false} NatJoin(s: seq<byte>, t: seq<byte>)
    ensures Nat(s + t) == Nat(s) * Pow256(|t|) + Nat(t)
  {
    if t == [] {
      assert s + t == s;
    } else {
      var init := t[..|t| - 1];
      assert (s + t)[..|s + t| - 1] == s + init;
      NatJoin(s, init);
      assert Pow256(|t|) == 256 * Pow256(|init|);
      assert Nat(s) * Pow256(|init|) * 256 == Nat(s) * Pow256(|t|) by { Reorder(Nat(s), Pow256(|init|)); }
    }
  }

  lemma Reorder(a: nat, b: nat)
    ensures a * b * 256 == a * (256 * b)
  {
  }

  /** Four bytes 0xff stand for nil. */
  lemma NullArray(s: seq<byte>)
    ensures GetByteArray([255, 255, 255, 255] + s) == Got(Nil, s)
  {
    hide GetU32, U32;
    U32Bytes(255, 255, 255, 255, s);
  }

  /** The attribute types of each kind, one by one. */
  const BYTE_TYPES: set<uint32> :=
    {0x1, 0x2, 0x86, 0x103, 0x104, 0x105, 0x106, 0x107, 0x108, 0x109, 0x10a, 0x10b, 0x10c, 0x162, 0x163, 0x164,
       0x165, 0x170, 0x171, 0x200, 0x202, 0x210, 0x301, 0x302, 0x405}
  const ULONG_TYPES: set<uint32> :=
    {0x0, 0x80, 0x87, 0x88, 0x100, 0x121, 0x133, 0x134, 0x160, 0x161, 0x166, 0x201, 0x300, 0x400, 0x401, 0x402,
       0x403, 0x404, 0x406, 0x500}
  const BYTES_TYPES: set<uint32> :=
    {0x3, 0x10, 0x11, 0x12, 0x81, 0x82, 0x83, 0x84, 0x85, 0x89, 0x8a, 0x8b, 0x90, 0x101, 0x102, 0x120, 0x122, 0x123,
       0x124, 0x125, 0x126, 0x127, 0x128, 0x129, 0x130, 0x131, 0x132, 0x180, 0x181, 0x480, 0x481, 0x482, 0x501,
       0x502, 0x503}

  lemma ByteTypes(t: uint32)
    ensures ValueType(t) == ByteKind <==> t in BYTE_TYPES
  {
  }

  lemma UlongTypes(t: uint32)
    ensures ValueType(t) == UlongKind <==> t in ULONG_TYPES
  {
  }

  lemma BytesTypes(t: uint32)
    ensures ValueType(t) == BytesKind <==> t in BYTES_TYPES
  {
  }

  lemma TypeTable(t: uint32)
    ensures ValueType(t) == ByteKind <==> t in BYTE_TYPES
    ensures ValueType(t) == UlongKind <==> t in ULONG_TYPES
    ensures ValueType(t) == DateKind <==> t == 0x110 || t == 0x111
    ensures ValueType(t) == MechanismsKind <==> t == 0x4000_0600
    ensures ValueType(t) == BytesKind <==> t in BYTES_TYPES
  {
    hide BYTE_TYPES, ULONG_TYPES, BYTES_TYPES;
    ByteTypes(t);
    UlongTypes(t);
    BytesTypes(t);
  }

  /** An attribute is its type, whether it has a value, the value's length, and the value; a byte
      array's value carries its length again. */
  lemma AttributeBytes(typ: uint32, n: byte, m: uint64, d: Date, a: seq<byte>)
    ensures PutAttribute(Empty(typ)) == U32(typ) + [0]
    ensures ValueType(typ) == ByteKind ==> PutAttribute(OfByte(typ, n)) == U32(typ) + [1] + U32(1) + [n]
    ensures ValueType(typ) == UlongKind ==> PutAttribute(OfUlong(typ, m)) == U32(typ) + [1] + U32(8) + U64(m)
    ensures ValueType(typ) == DateKind ==> PutAttribute(OfDate(typ, d)) == U32(typ) + [1] + U32(8) + PutDate(d)
    ensures ValueType(typ) == BytesKind && |a| < TWO32 ==>
              PutAttribute(OfBytes(typ, Data(a))) == U32(typ) + [1] + U32(|a|) + (U32(|a|) + a)
  {
    hide U32, U64, PutDate, ValueType;
  }

  /** The server reads the value by the type, whatever the outer length says. */
  lemma AttributeReads(typ: uint32, valid: byte, len: uint32, n: byte, m: uint64, s: seq<byte>)
    ensures GetAttribute(U32(typ) + ([0] + s)) == Got(Empty(typ), s)
    ensures valid != 0 && ValueType(typ) == ByteKind ==>
              GetAttribute(U32(typ) + ([valid] + (U32(len) + ([n] + s)))) == Got(OfByte(typ, n), s)
    ensures valid != 0 && ValueType(typ) == UlongKind ==>
              GetAttribute(U32(typ) + ([valid] + (U32(len) + (U64(m) + s)))) == Got(OfUlong(typ, m), s)
  {
    hide GetU32, GetU64, U32, U64, ValueType;
    U32RoundTrip(typ, [0] + s);
    U32RoundTrip(typ, [valid] + (U32(len) + ([n] + s)));
    U32RoundTrip(typ, [valid] + (U32(len) + (U64(m) + s)));
    U32RoundTrip(len, [n] + s);
    U32RoundTrip(len, U64(m) + s);
    U64RoundTrip(m, s);
  }

  /** A date is eight digits: year, month and day; a year that has not four digits is 0000. */
  lemma DateDigits(d: Date, a: nat, b: nat, c: nat, e: nat, f: nat, g: nat, h: nat, i: nat)
    requires a < 10 && b < 10 && c < 10 && e < 10 && f < 10 && g < 10 && h < 10 && i < 10
    requires d.month == 10 * f + g && d.day == 10 * h + i
    ensures d.year == 1000 * a + 100 * b + 10 * c + e && a > 0 ==>
              PutDate(d) == [48 + a, 48 + b, 48 + c, 48 + e, 48 + f, 48 + g, 48 + h, 48 + i]
    ensures d.year < 1000 || 9999 < d.year ==> PutDate(d) == [48, 48, 48, 48, 48 + f, 48 + g, 48 + h, 48 + i]
  {
    hide FourDigits, TwoDigits;
    FourOf(a, b, c, e);
    FourOf(0, 0, 0, 0);
    TwoOf(f, g);
    TwoOf(h, i);
  }

  function DigitValue(c: byte): int {
    c as int - 48
  }

  /** Eight characters are a date exactly when they are digits; it is normalised. */
  lemma DateReads(s: seq<byte>)
    requires |s| == 8
    ensures GetDate(s).Some? <==> forall i :: 0 <= i < 8 ==> 48 <= s[i] < 58
    ensures GetDate(s).Some? ==>
              GetDate(s).value == Normalize(1000 * DigitValue(s[0]) + 100 * DigitValue(s[1]) + 10 * DigitValue(s[2]) + DigitValue(s[3]),
                                            10 * DigitValue(s[4]) + DigitValue(s[5]), 10 * DigitValue(s[6]) + DigitValue(s[7]))
  {
    hide Normalize;
  }

  lemma TwoOf(a: nat, b: nat)
    requires a < 10 && b < 10
    ensures TwoDigits(10 * a + b) == [48 + a, 48 + b]
  {
    assert (10 * a + b) / 10 == a && (10 * a + b) % 10 == b;
  }

  lemma FourOf(a: nat, b: nat, c: nat, e: nat)
    requires a < 10 && b < 10 && c < 10 && e < 10
    ensures FourDigits(1000 * a + 100 * b + 10 * c + e) == [48 + a, 48 + b, 48 + c, 48 + e]
  {
    hide TwoDigits;
    var y := 1000 * a + 100 * b + 10 * c + e;
    assert y / 100 == 10 * a + b && y % 100 == 10 * c + e;
    TwoOf(a, b);
    TwoOf(c, e);
  }

  /** The signature codes, as written. */
  lemma Letters()
    ensures Code(FAttributeArray) == ['a' as int, 'A' as int] && Code(FAttributeBuffer) == ['f' as int, 'A' as int]
    ensures Code(FByte) == ['y' as int] && Code(FByteArray) == ['a' as int, 'y' as int] && Code(FByteBuffer) == ['f' as int, 'y' as int]
    ensures Code(FMechanism) == ['M' as int] && Code(FString) == ['s' as int] && Code(FUlong) == ['u' as int]
    ensures Code(FUlongArray) == ['a' as int, 'u' as int] && Code(FUlongBuffer) == ['f' as int, 'u' as int]
    ensures Code(FVersion) == ['v' as int] && Code(FZeroString) == ['z' as int]
  {
  }

  /** The mechanism types that carry no parameters. */
  lemma NoParameterTypes(typ: uint32)
    ensures HasNoParameters(typ) <==> typ == 0x0 || typ == 0x1 || typ == 0x1040 || typ == 0x1041 || typ == 0xffff_ffff
  {
  }

  /** A mechanism's type, whether parameters follow, and the parameters in the order of their C
      structures. Parameters announced as absent read as empty, whatever the type. */
  lemma MechanismBytes(typ: uint32, present: byte, a: uint64, b: uint64, c: uint64, shared: seq<byte>, public: seq<byte>, s: seq<byte>)
    requires |shared| < NULL_MARKER && |public| < NULL_MARKER
    ensures !HasNoParameters(typ) ==> GetMechanism(U32(typ) + ([0] + s)) == Got(Mechanism(typ, Raw(Data([]))), s)
    ensures present != 0 ==>
              GetMechanism(U32(0xd) + ([present] + (U64(a) + (U64(b) + (U64(c) + s))))) == Got(Mechanism(0xd, Pss(a, b, c)), s)
    ensures present != 0 ==>
              GetMechanism(U32(0x1050) + ([present] + (U64(a) + (PutByteArray(shared) + (PutByteArray(public) + s))))) ==
              Got(Mechanism(0x1050, Ecdh1(a, Data(shared), Data(public))), s)
  {
    hide GetU32, GetU64, U32, U64, GetByteArray, PutByteArray;
    U32RoundTrip(typ, [0] + s);
    var pss, ecdh := U64(b) + (U64(c) + s), PutByteArray(shared) + (PutByteArray(public) + s);
    U32RoundTrip(0xd, [present] + (U64(a) + pss));
    U64RoundTrip(a, pss);
    U64RoundTrip(b, U64(c) + s);
    U64RoundTrip(c, s);
    U32RoundTrip(0x1050, [present] + (U64(a) + ecdh));
    U64RoundTrip(a, ecdh);
    ByteArrayRoundTrip(shared, PutByteArray(public) + s);
    ByteArrayRoundTrip(public, s);
  }

  /** An optional array: any nonzero presence byte and the array, or a zero and a length. */
  lemma OptionalBytes(present: byte, a: seq<byte>, n: uint32, s: seq<byte>)
    requires |a| < NULL_MARKER
    ensures present != 0 ==> GetOptionalBytes([present] + (PutByteArray(a) + s)) == Got(VBytes(Data(a), 0), s)
    ensures GetOptionalBytes([0] + (U32(n) + s)) == Got(VBytes(Nil, n), s)
  {
    hide GetU32, U32, GetByteArray, PutByteArray;
    ByteArrayRoundTrip(a, s);
    U32RoundTrip(n, s);
  }

  /** The i-th number of an array is at 8i. */
  lemma {:induction false} UlongAt(a: seq<uint64>, i: nat)
    requires i < |a|
    ensures |PutUlongs(a)| == 8 * |a| && PutUlongs(a)[8 * i..8 * i + 8] == U64(a[i])
    decreases |a|
  {
    hide U64;
    UlongsSize(a);
    var init := a[..|a| - 1];
    UlongsSize(init);
    if i < |a| - 1 {
      UlongAt(init, i);
      assert PutUlongs(a)[8 * i..8 * i + 8] == PutUlongs(init)[8 * i..8 * i + 8];
    }
  }

  /** A message as a client sends it, with options of any length; a response has none. */
  lemma FrameBytes(id: uint32, opts: seq<byte>, call: uint32, sig: seq<byte>, fields: seq<byte>, s: seq<byte>)
    requires |opts| < TWO32 && 8 + |sig| + |fields| < TWO32
    ensures var body := U32(call) + U32(|sig|) + sig + fields;
            && GetFrame(U32(id) + U32(|opts|) + U32(|body|) + opts + body + s) == Framed(Frame(id, BodyValue(call, sig, fields, None)), s)
            && PutFrame(id, [], BodyValue(call, sig, fields, None)) == U32(id) + U32(0) + U32(|body|) + body
  {
    hide U32, GetFrame;
    var b := BodyValue(call, sig, fields, None);
    var body := U32(call) + U32(|sig|) + sig + fields;
    assert PutBody(b) == body by { assert U32(call) + (U32(|sig|) + sig) == U32(call) + U32(|sig|) + sig; }
    FrameRoundTrip(id, opts, b, s);
    assert U32(id) + U32(0) + U32(|body|) + [] + body == U32(id) + U32(0) + U32(|body|) + body;
  }
}

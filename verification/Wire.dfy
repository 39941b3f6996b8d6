/** The primitive wire forms: big-endian integers and length-prefixed byte arrays. */
module Wire {
  import opened Bytes

  /** A buffer reader's outcome: a value, or failure; either way with what is left in the buffer. */
  datatype Parse<+T> = Got(value: T, rest: seq<byte>) | Short(rest: seq<byte>)

  const NULL_MARKER: uint32 := 0xffff_ffff

  function U32(n: uint32): (s: seq<byte>)
    ensures |s| == 4
  {
    BE(n, 4)
  }

  function U64(n: uint64): (s: seq<byte>)
    ensures |s| == 8
  {
    BE(n, 8)
  }

  /** Go's conversion uint32(len(a)): lengths wrap silently. */
  function Length32<T>(a: seq<T>): uint32 {
    |a| % TWO32
  }

  function PutByteArray(a: seq<byte>): (s: seq<byte>)
    ensures |s| == 4 + |a|
  {
    U32(Length32(a)) + a
  }

  function GetByte(b: seq<byte>): Parse<byte> {
    if |b| == 0 then Short(b) else Got(b[0], b[1..])
  }

  function GetU32(b: seq<byte>): Parse<uint32> {
    if |b| < 4 then Short(b)
    else
      NatBound(b[..4]); Pow256Values();
      Got(Nat(b[..4]), b[4..])
  }

  function GetU64(b: seq<byte>): Parse<uint64> {
    if |b| < 8 then Short(b)
    else
      NatBound(b[..8]); Pow256Values();
      Got(Nat(b[..8]), b[8..])
  }

  predicate PeekU32(b: seq<byte>, n: uint32) {
    |b| >= 4 && Nat(b[..4]) == n
  }

  /** The marker length stands for nil and carries no content. */
  function GetByteArray(b: seq<byte>): Parse<Slice> {
    match GetU32(b)
    case Short(rest) => Short(rest)
    case Got(n, rest) =>
      if n == NULL_MARKER then Got(Nil, rest)
      else if |rest| < n then Short(rest)
      else Got(Data(rest[..n]), rest[n..])
  }

  lemma U32RoundTrip(n: uint32, s: seq<byte>)
    ensures GetU32(U32(n) + s) == Got(n, s)
  {
    var b := U32(n) + s;
    assert b[..4] == U32(n) && b[4..] == s;
    Pow256Values();
    NatOfBE(n, 4);
  }

  lemma U64RoundTrip(n: uint64, s: seq<byte>)
    ensures GetU64(U64(n) + s) == Got(n, s)
  {
    var b := U64(n) + s;
    assert b[..8] == U64(n) && b[8..] == s;
    Pow256Values();
    NatOfBE(n, 8);
  }

  /** A byte array followed by anything decodes to itself exactly when its length fits below the
      NULL marker; the reader then stops exactly at the suffix. */
  lemma ByteArrayRoundTrip(a: seq<byte>, s: seq<byte>)
    ensures GetByteArray(PutByteArray(a) + s) == Got(Data(a), s) <==> |a| < NULL_MARKER
  {
    var b := PutByteArray(a) + s;
    assert b == U32(Length32(a)) + (a + s);
    U32RoundTrip(Length32(a), a + s);
    if |a| < NULL_MARKER {
      assert (a + s)[..|a|] == a && (a + s)[|a|..] == s;
    }
  }

  /** Equal array encodings come from equal arrays, even when the length field has wrapped. */
  lemma ByteArrayInjective(a: seq<byte>, c: seq<byte>)
    requires PutByteArray(a) == PutByteArray(c)
    ensures a == c
  {
    assert a == PutByteArray(a)[4..] && c == PutByteArray(c)[4..];
  }
}

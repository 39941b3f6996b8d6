/** rpc.go's buffer: a byte slice that writers append to and readers consume from the front. */
module Buffers {
  import opened Bytes
  import opened Dates
  import opened Wire
  import opened Attributes

  /** A reader's results agree with the parse function on value, success and what is left. */
  predicate Agrees<T(==)>(p: Parse<T>, ok: bool, value: T, rest: seq<byte>) {
    p.rest == rest && p.Got? == ok && (ok ==> p.value == value)
  }

  lemma FourParts(s: seq<byte>, p: seq<byte>, q: seq<byte>, r: seq<byte>, t: seq<byte>)
    ensures s + p + q + r + t == s + (p + q + r + t)
  {
  }

  lemma ThreeParts(s: seq<byte>, p: seq<byte>, q: seq<byte>, r: seq<byte>)
    ensures s + p + q + r == s + (p + q + r)
  {
  }

  lemma TwoParts(s: seq<byte>, p: seq<byte>, q: seq<byte>)
    ensures s + p + q == s + (p + q)
  {
  }

  class Buffer {
    var b: seq<byte>

    constructor (initial: seq<byte>)
      ensures b == initial
    {
      b := initial;
    }

    method AddByte(c: byte)
      modifies this
      ensures b == old(b) + [c]
    {
      b := b + [c];
    }

    method AddUint32(n: uint32)
      modifies this
      ensures b == old(b) + U32(n)
    {
      b := b + U32(n);
    }

    method AddUint64(n: uint64)
      modifies this
      ensures b == old(b) + U64(n)
    {
      b := b + U64(n);
    }

    method AddByteArray(a: seq<byte>)
      modifies this
      ensures b == old(b) + PutByteArray(a)
    {
      AddUint32(Length32(a));
      b := b + a;
      assert b == old(b) + (U32(Length32(a)) + a);
    }

    method AddDate(d: Date)
      modifies this
      ensures b == old(b) + PutDate(d)
    {
      if 1000 <= d.year <= 9999 {
        b := b + FourDigits(d.year);
      } else {
        b := b + [48, 48, 48, 48];
      }
      assert b == old(b) + FourDigits(WireYear(d.year));
      label month:
      if d.month <= 9 {
        b := b + [48];
        b := b + [Digit(d.month)];
      } else {
        b := b + TwoDigits(d.month);
      }
      assert b == old@month(b) + TwoDigits(d.month);
      label day:
      if d.day <= 9 {
        b := b + [48];
        b := b + [Digit(d.day)];
      } else {
        b := b + TwoDigits(d.day);
      }
      assert b == old@day(b) + TwoDigits(d.day);
      assert b == old(b) + (FourDigits(WireYear(d.year)) + TwoDigits(d.month) + TwoDigits(d.day));
    }

    method AddAttribute(a: Attribute)
      modifies this
      ensures b == old(b) + PutAttribute(a)
    {
      AddUint32(a.typ);
      var val := a.Value();
      if val.Nil? {
        AddByte(0);
        assert b == old(b) + (U32(a.typ) + [0]);
        return;
      }
      AddByte(1);
      var length := Length32(val.data);
      if ValueType(a.typ) == BytesKind {
        length := Length32(a.bytes.Content());
      }
      AddUint32(length);
      b := b + val.data;
      FourParts(old(b), U32(a.typ), [1], U32(length), val.data);
    }

    method TakeByte() returns (ok: bool, c: byte)
      modifies this
      ensures Agrees(GetByte(old(b)), ok, c, b)
    {
      if |b| == 0 {
        return false, 0;
      }
      c := b[0];
      b := b[1..];
      ok := true;
    }

    method TakeUint32() returns (ok: bool, n: uint32)
      modifies this
      ensures Agrees(GetU32(old(b)), ok, n, b)
    {
      if |b| < 4 {
        return false, 0;
      }
      var buff := b[..4];
      b := b[4..];
      NatBound(buff);
      Pow256Values();
      return true, Nat(buff);
    }

    method PeekUint32(n: uint32) returns (same: bool)
      ensures same == PeekU32(b, n)
    {
      if |b| < 4 {
        return false;
      }
      return Nat(b[..4]) == n;
    }

    method TakeUint64() returns (ok: bool, n: uint64)
      modifies this
      ensures Agrees(GetU64(old(b)), ok, n, b)
    {
      if |b| < 8 {
        return false, 0;
      }
      var buff := b[..8];
      b := b[8..];
      NatBound(buff);
      Pow256Values();
      return true, Nat(buff);
    }

    method TakeByteArray() returns (ok: bool, a: Slice)
      modifies this
      ensures Agrees(GetByteArray(old(b)), ok, a, b)
    {
      a := Nil;
      var n;
      ok, n := TakeUint32();
      if !ok {
        return;
      }
      if n == NULL_MARKER {
        return;
      }
      if |b| < n {
        return false, Nil;
      }
      a := Data(b[..n]);
      b := b[n..];
    }

    method TakeDate() returns (ok: bool, d: Date)
      modifies this
      ensures ok == (|old(b)| >= 8 && GetDate(old(b)[..8]).Some?)
      ensures ok ==> b == old(b)[8..] && d == GetDate(old(b)[..8]).value
      ensures !ok ==> b == old(b)
    {
      d := Civil(1, 1, 1);
      if |b| < 8 {
        return false, d;
      }
      assert b[..8][..4] == b[..4] && b[..8][4..6] == b[4..6] && b[..8][6..] == b[6..8];
      var year := ParseFour(b[..4]);
      if year.None? {
        return false, d;
      }
      var month := ParseTwo(b[4..6]);
      if month.None? {
        return false, d;
      }
      var day := ParseTwo(b[6..8]);
      if day.None? {
        return false, d;
      }
      d := Normalize(year.value, month.value, day.value);
      b := b[8..];
      ok := true;
    }

    /** Reads the value fields of an attribute whose type and outer length were just read. */
    method TakeAttributeValue(typ: uint32) returns (ok: bool, attr: Attribute)
      modifies this
      ensures Agrees(GetValue(typ, old(b)), ok, attr, b)
    {
      attr := Empty(typ);
      match ValueType(typ)
      case ByteKind =>
        var n;
        ok, n := TakeByte();
        attr := OfByte(typ, n);
      case UlongKind =>
        var n;
        ok, n := TakeUint64();
        attr := OfUlong(typ, n);
      case DateKind =>
        var d;
        ok, d := TakeDate();
        attr := OfDate(typ, d);
      case BytesKind =>
        var arr;
        ok, arr := TakeByteArray();
        attr := OfBytes(typ, arr);
      case _ =>
        ok := false;
    }

    method TakeAttribute() returns (ok: bool, attr: Attribute)
      modifies this
      ensures Agrees(GetAttribute(old(b)), ok, attr, b)
    {
      attr := Empty(0);
      var typ, validity, length;
      ok, typ := TakeUint32();
      if !ok {
        return;
      }
      ok, validity := TakeByte();
      if !ok {
        return;
      }
      if validity == 0 {
        return true, Empty(typ);
      }
      ok, length := TakeUint32();
      if !ok {
        return;
      }
      ok, attr := TakeAttributeValue(typ);
    }
  }
}

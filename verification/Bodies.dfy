/** rpc.go's body: readers consume the signature and the buffer together and stop at the first
    error; writers extend both. */
module Bodies {
  import opened Bytes
  import opened Wire
  import opened Attributes
  import opened Buffers
  import opened Fields
  import opened Encodings

  /** The reader for f moved the body from one state to the next, and v is the value it produced. */
  predicate Took(f: Field, before: BodyValue, after: BodyValue, v: Value)
    requires f.Readable()
  {
    var (b, r) := ReadField(f, before);
    after == b && (r.Some? ==> r.value == v)
  }

  /** A writer appended one field's code and contents. */
  predicate Wrote(f: Field, contents: seq<byte>, before: BodyValue, after: BodyValue) {
    after == before.(signature := before.signature + Code(f), buffer := before.buffer + contents)
  }

  /** A fixed-width string: cut or space-padded to n bytes. */
  function Padded(s: seq<byte>, n: nat): (p: seq<byte>)
    ensures |p| == n
  {
    seq(n, i requires 0 <= i < n => if i < |s| then s[i] else 32)
  }

  function PutUlongs(a: seq<uint64>): seq<byte> {
    if a == [] then [] else PutUlongs(a[..|a| - 1]) + U64(a[|a| - 1])
  }

  /** A ulong array, or for a nil one only a count. */
  function PutUlongArray(a: Option<seq<uint64>>, n: uint32): seq<byte> {
    if a.None? then [0] + U32(n) else [1] + U32(Length32(a.value)) + PutUlongs(a.value)
  }

  lemma {:induction false} PutAttributesSnoc(attrs: seq<Attribute>, a: Attribute)
    ensures PutAttributes(attrs + [a]) == PutAttributes(attrs) + PutAttribute(a)
    decreases attrs
  {
    hide PutAttribute;
    if attrs == [] {
      assert PutAttributes([a]) == PutAttribute(a) + PutAttributes([]);
      assert [] + [a] == [a];
    } else {
      PutAttributesSnoc(attrs[1..], a);
      assert (attrs + [a])[1..] == attrs[1..] + [a];
    }
  }

  class Body {
    const call: uint32
    var signature: seq<byte>
    const buffer: Buffer
    var error: Option<Error>

    constructor (call: uint32, signature: seq<byte>, fields: seq<byte>)
      ensures View() == BodyValue(call, signature, fields, None) && fresh(buffer)
    {
      this.call := call;
      this.signature := signature;
      this.buffer := new Buffer(fields);
      this.error := None;
    }

    function View(): BodyValue
      reads this, buffer
    {
      BodyValue(call, signature, buffer.b, error)
    }

    method Err() returns (e: Option<Error>)
      ensures e == View().Err()
    {
      if error.Some? {
        return error;
      }
      if |signature| != 0 {
        return Some(TrailingElements);
      }
      if |buffer.b| != 0 {
        return Some(TrailingData);
      }
      return None;
    }

    /** Consumes the code of the next field, or records why it cannot be read. */
    method Sig(f: Field) returns (ok: bool)
      modifies this
      ensures View() == if old(error).Some? then old(View())
                        else if Code(f) <= old(signature) then old(View()).(signature := old(signature)[|Code(f)|..])
                        else old(View()).(error := Some(BadSignature))
      ensures ok == (old(error).None? && Code(f) <= old(signature))
    {
      if error.Some? {
        return false;
      }
      if !(Code(f) <= signature) {
        error := Some(BadSignature);
        return false;
      }
      signature := signature[|Code(f)|..];
      return true;
    }

    method ReadByte() returns (c: byte)
      modifies this, buffer
      ensures Took(FByte, old(View()), View(), VByte(c))
    {
      c := 0;
      var ok := Sig(FByte);
      if ok {
        ok, c := buffer.TakeByte();
        if !ok { error := Some(UnexpectedEOF); }
      }
    }

    method ReadUlong() returns (n: uint64)
      modifies this, buffer
      ensures Took(FUlong, old(View()), View(), VUlong(n))
    {
      n := 0;
      var ok := Sig(FUlong);
      if ok {
        ok, n := buffer.TakeUint64();
        if !ok { error := Some(UnexpectedEOF); }
      }
    }

    method ReadUlongBuffer() returns (count: uint32)
      modifies this, buffer
      ensures Took(FUlongBuffer, old(View()), View(), VCount(count))
    {
      count := 0;
      var ok := Sig(FUlongBuffer);
      if ok {
        ok, count := buffer.TakeUint32();
        if !ok { error := Some(UnexpectedEOF); }
      }
    }

    method ReadByteBuffer() returns (count: uint32)
      modifies this, buffer
      ensures Took(FByteBuffer, old(View()), View(), VCount(count))
    {
      count := 0;
      var ok := Sig(FByteBuffer);
      if ok {
        ok, count := buffer.TakeUint32();
        if !ok { error := Some(UnexpectedEOF); }
      }
    }

    method ReadZeroString() returns (s: seq<byte>)
      modifies this, buffer
      ensures Took(FZeroString, old(View()), View(), VText(s))
    {
      s := [];
      var ok := Sig(FZeroString);
      if ok {
        var arr;
        ok, arr := buffer.TakeByteArray();
        if !ok { error := Some(UnexpectedEOF); }
        s := arr.Content();
      }
    }

    method ReadByteArray() returns (arr: Slice, arrLen: uint32)
      modifies this, buffer
      ensures Took(FByteArray, old(View()), View(), VBytes(arr, arrLen))
    {
      arr, arrLen := Nil, 0;
      var ok := Sig(FByteArray);
      if ok {
        var hasContent;
        ok, hasContent := buffer.TakeByte();
        if ok {
          if hasContent != 0 {
            ok, arr := buffer.TakeByteArray();
          } else {
            ok, arrLen := buffer.TakeUint32();
          }
        }
        if !ok { error := Some(UnexpectedEOF); }
      }
    }

    method TakeAttributes() returns (ok: bool, arr: seq<Attribute>)
      modifies buffer
      ensures var p := GetField(FAttributeArray, old(buffer.b));
              Agrees(p, ok, VAttributes(arr), buffer.b)
    {
      hide GetAttribute;
      arr := [];
      var length;
      ok, length := buffer.TakeUint32();
      if !ok {
        return;
      }
      ghost var start := buffer.b;
      var i := 0;
      while i < length
        invariant 0 <= i <= length
        invariant GetAttributes(arr, length - i, buffer.b) == GetAttributes([], length, start)
        modifies buffer
      {
        var attr;
        ok, attr := buffer.TakeAttribute();
        if !ok {
          return;
        }
        arr := arr + [attr];
        i := i + 1;
      }
    }

    method ReadAttributeArray() returns (a: seq<Attribute>)
      modifies this, buffer
      ensures Took(FAttributeArray, old(View()), View(), VAttributes(a))
    {
      hide GetField;
      a := [];
      var ok := Sig(FAttributeArray);
      if ok {
        ok, a := TakeAttributes();
        if !ok { error := Some(UnexpectedEOF); }
      }
    }

    method TakeTemplates() returns (ok: bool, arr: seq<Template>)
      modifies buffer
      ensures Agrees(GetField(FAttributeBuffer, old(buffer.b)), ok, VTemplates(arr), buffer.b)
    {
      hide GetU32;
      arr := [];
      var count;
      ok, count := buffer.TakeUint32();
      if !ok {
        return;
      }
      ghost var start := buffer.b;
      var i := 0;
      while i < count
        invariant 0 <= i <= count
        invariant GetTemplates(arr, count - i, buffer.b) == GetTemplates([], count, start)
        modifies buffer
      {
        var typ, valLen;
        ok, typ := buffer.TakeUint32();
        if !ok {
          return;
        }
        ok, valLen := buffer.TakeUint32();
        if !ok {
          return;
        }
        arr := arr + [Template(typ, valLen)];
        i := i + 1;
      }
    }

    method ReadAttributeBuffer() returns (a: seq<Template>)
      modifies this, buffer
      ensures Took(FAttributeBuffer, old(View()), View(), VTemplates(a))
    {
      hide GetField;
      a := [];
      var ok := Sig(FAttributeBuffer);
      if ok {
        ok, a := TakeTemplates();
        if !ok { error := Some(UnexpectedEOF); }
      }
    }

    method TakePss() returns (ok: bool, p: Params)
      modifies buffer
      ensures Agrees(GetPss(old(buffer.b)), ok, p, buffer.b)
    {
      hide GetU64;
      p := NoParams;
      var hashAlg, mgf, saltLen;
      ok, hashAlg := buffer.TakeUint64();
      if !ok {
        return;
      }
      ok, mgf := buffer.TakeUint64();
      if !ok {
        return;
      }
      ok, saltLen := buffer.TakeUint64();
      p := Pss(hashAlg, mgf, saltLen);
    }

    method TakeEcdh1() returns (ok: bool, p: Params)
      modifies buffer
      ensures Agrees(GetEcdh1(old(buffer.b)), ok, p, buffer.b)
    {
      hide GetU64, GetByteArray;
      p := NoParams;
      var kdf, shared, public;
      ok, kdf := buffer.TakeUint64();
      if !ok {
        return;
      }
      ok, shared := buffer.TakeByteArray();
      if !ok {
        return;
      }
      ok, public := buffer.TakeByteArray();
      p := Ecdh1(kdf, shared, public);
    }

    method TakeParams(typ: uint32) returns (ok: bool, params: Params)
      modifies buffer
      ensures Agrees(GetParams(typ, old(buffer.b)), ok, params, buffer.b)
    {
      hide GetByteArray, GetPss, GetEcdh1;
      params := Raw(Data([]));
      if HasNoParameters(typ) {
        var marked := buffer.PeekUint32(NULL_MARKER);
        if marked {
          var _, _ := buffer.TakeUint32();
        }
        return true, params;
      }
      var hasParam;
      ok, hasParam := buffer.TakeByte();
      if !ok || hasParam == 0 {
        return;
      }
      if typ == CKM_RSA_PKCS_PSS {
        ok, params := TakePss();
      } else if typ == CKM_ECDH1_DERIVE {
        ok, params := TakeEcdh1();
      } else {
        var p;
        ok, p := buffer.TakeByteArray();
        params := Raw(p);
      }
    }

    method ReadMechanism() returns (m: Mechanism)
      modifies this, buffer
      ensures Took(FMechanism, old(View()), View(), VMechanism(m))
    {
      hide GetParams, GetU32;
      m := Mechanism(0, NoParams);
      var ok := Sig(FMechanism);
      if ok {
        var typ, params;
        ok, typ := buffer.TakeUint32();
        if ok {
          ok, params := TakeParams(typ);
          m := Mechanism(typ, params);
        }
        if !ok { error := Some(UnexpectedEOF); }
      }
    }

    method WriteSig(f: Field)
      modifies this
      ensures View() == old(View()).(signature := old(signature) + Code(f))
    {
      signature := signature + Code(f);
    }

    method WriteByte(c: byte)
      modifies this, buffer
      ensures Wrote(FByte, [c], old(View()), View())
    {
      WriteSig(FByte);
      buffer.AddByte(c);
    }

    method WriteUlong(n: uint64)
      modifies this, buffer
      ensures Wrote(FUlong, U64(n), old(View()), View())
    {
      WriteSig(FUlong);
      buffer.AddUint64(n);
    }

    method WriteVersion(major: byte, minor: byte)
      modifies this, buffer
      ensures Wrote(FVersion, [major, minor], old(View()), View())
    {
      WriteSig(FVersion);
      buffer.AddByte(major);
      buffer.AddByte(minor);
    }

    method WriteByteArray(a: Slice, n: uint32)
      modifies this, buffer
      ensures Wrote(FByteArray, PutValue(VBytes(a, n), FByteArray), old(View()), View())
    {
      WriteSig(FByteArray);
      if a.Nil? {
        buffer.AddByte(0);
        buffer.AddUint32(n);
        TwoParts(old(buffer.b), [0], U32(n));
      } else {
        buffer.AddByte(1);
        buffer.AddByteArray(a.data);
        TwoParts(old(buffer.b), [1], PutByteArray(a.data));
      }
    }

    method WriteUlongArray(a: Option<seq<uint64>>, n: uint32)
      modifies this, buffer
      ensures Wrote(FUlongArray, PutUlongArray(a, n), old(View()), View())
    {
      hide PutUlongs;
      WriteSig(FUlongArray);
      if a.None? {
        buffer.AddByte(0);
        buffer.AddUint32(n);
        TwoParts(old(buffer.b), [0], U32(n));
        return;
      }
      buffer.AddByte(1);
      buffer.AddUint32(Length32(a.value));
      AddUlongs(a.value);
      ThreeParts(old(buffer.b), [1], U32(Length32(a.value)), PutUlongs(a.value));
    }

    method AddUlongs(a: seq<uint64>)
      modifies buffer
      ensures buffer.b == old(buffer.b) + PutUlongs(a)
    {
      for i := 0 to |a|
        invariant buffer.b == old(buffer.b) + PutUlongs(a[..i])
        modifies buffer
      {
        buffer.AddUint64(a[i]);
        assert a[..i + 1][..i] == a[..i];
      }
      assert a[..|a|] == a;
    }

    method WriteAttributeArray(a: seq<Attribute>)
      modifies this, buffer
      ensures Wrote(FAttributeArray, PutValue(VAttributes(a), FAttributeArray), old(View()), View())
    {
      hide PutAttributes;
      WriteSig(FAttributeArray);
      buffer.AddUint32(Length32(a));
      AddAttributes(a);
      TwoParts(old(buffer.b), U32(Length32(a)), PutAttributes(a));
    }

    method AddAttributes(a: seq<Attribute>)
      modifies buffer
      ensures buffer.b == old(buffer.b) + PutAttributes(a)
    {
      hide PutAttribute;
      for i := 0 to |a|
        invariant buffer.b == old(buffer.b) + PutAttributes(a[..i])
        modifies buffer
      {
        buffer.AddAttribute(a[i]);
        PutAttributesSnoc(a[..i], a[i]);
        assert a[..i + 1] == a[..i] + [a[i]];
      }
      assert a[..|a|] == a;
    }

    method WriteString(s: seq<byte>, n: uint32)
      modifies this, buffer
      ensures Wrote(FString, U32(n) + Padded(s, n), old(View()), View())
    {
      WriteSig(FString);
      buffer.AddUint32(n);
      assert buffer.b == old(buffer.b) + (U32(n) + Padded(s, n)[..0]);
      for i := 0 to n
        invariant signature == old(signature) + Code(FString) && error == old(error)
        invariant buffer.b == old(buffer.b) + (U32(n) + Padded(s, n)[..i])
        modifies buffer
      {
        if i < |s| {
          buffer.AddByte(s[i]);
        } else {
          buffer.AddByte(32);
        }
        assert U32(n) + Padded(s, n)[..i + 1] == U32(n) + Padded(s, n)[..i] + [Padded(s, n)[i]];
      }
      assert Padded(s, n)[..n] == Padded(s, n);
    }
  }
}

/** What a client sees: results that join the state machine to the codec. */
module Clients {
  import opened Bytes
  import opened Wire
  import opened Attributes
  import opened Fields
  import opened Bodies
  import opened Objects
  import opened Keygen
  import opened Sessions
  import opened Slots
  import opened Machine
  import opened Runs
  import opened Visibility
  import opened Requests
  import opened Sizes
  import opened Layouts
  import opened Parsing

  lemma ObjectsGrow(w: World, l: Step, c: nat, id: uint64)
    requires Inv(w) && Live(w, c, id) && Live(Next(w, l).0, c, id)
    ensures Of(w, c, id).objects <= Of(Next(w, l).0, c, id).objects
  {
    hide Next, InSession, OriginsOk, PhaseOk, SlotsTyped, SessionOk;
    SessionStep(w, l, c, id);
    if Targets(w, l, c, id) {
      assert ConnOk(w.conns[c], w.slots, w.opens);
      InSessionKeepsOk(Of(w, c, id), l.request, l.oracle);
    }
  }

  /** An open session never loses or reorders objects, whatever runs beside it. */
  lemma {:induction false} ObjectsKept(w: World, ls: seq<Step>, c: nat, id: uint64)
    requires Inv(w) && StaysOpen(w, ls, c, id)
    ensures Live(Exec(w, ls), c, id) && Of(w, c, id).objects <= Of(Exec(w, ls), c, id).objects
    decreases ls
  {
    hide Next, Inv, Live;
    if ls != [] {
      var v := Next(w, ls[0]).0;
      NextKeepsInv(w, ls[0]);
      ObjectsGrow(w, ls[0], c, id);
      ObjectsKept(v, ls[1..], c, id);
    }
  }

  lemma FoundInside(objects: seq<Object>, o: Object, tmpl: seq<Attribute>)
    requires o in objects && MatchesAll(o.attributes, tmpl)
    ensures o.id in MatchIds(objects, tmpl)
  {
    hide MatchesAll;
    MatchIdsSound(objects, tmpl, o.id);
  }

  /** For the rest of its session's life a generated key is among the matches of a search for its
      own template, provided that names no type twice. */
  lemma GeneratedFound(w: World, c: nat, r: Request, o: Oracle, pub: Object, priv: Object, ls: seq<Step>)
    requires Inv(w) && Enabled(w, Begin(c, r, o)) && r.GenerateKeyPair? && Live(w, c, r.session)
    requires NewKeyPair(r.mechanism, r.pubTmpl, r.privTmpl, o.gen) == Ok((pub, priv))
    requires StaysOpen(Next(w, Begin(c, r, o)).0, ls, c, r.session)
    ensures var v := Exec(Next(w, Begin(c, r, o)).0, ls);
            && Live(v, c, r.session)
            && (DuplicateFree(r.pubTmpl) ==> pub.id in MatchIds(Of(v, c, r.session).objects, r.pubTmpl))
            && (DuplicateFree(r.privTmpl) ==> priv.id in MatchIds(Of(v, c, r.session).objects, r.privTmpl))
  {
    hide NewKeyPair, MatchesAll, DuplicateFree, IsToken, Inv, MatchIds, StaysOpen, AllWellTyped, TokenBy, Request.Decoded, Oracle.Valid;
    var w1 := Next(w, Begin(c, r, o)).0;
    NextKeepsInv(w, Begin(c, r, o));
    GeneratedPair(r.mechanism, r.pubTmpl, r.privTmpl, o.gen);
    assert w1 == BeginGenerate(w, c, r, o.gen).0;
    ObjectsKept(w1, ls, c, r.session);
    var kept, now := Of(w1, c, r.session).objects, Of(Exec(w1, ls), c, r.session).objects;
    assert kept[|kept| - 2] == pub && kept[|kept| - 1] == priv;
    assert now[|kept| - 2] == pub && now[|kept| - 1] == priv;
    if DuplicateFree(r.pubTmpl) {
      FoundInside(now, pub, r.pubTmpl);
    }
    if DuplicateFree(r.privTmpl) {
      FoundInside(now, priv, r.privTmpl);
    }
  }

  lemma FoundExactly(objects: seq<Object>, o: Object, tmpl: seq<Attribute>)
    requires Only(objects, o) && MatchesAll(o.attributes, tmpl)
    ensures o.id in MatchIds(objects, tmpl) <==> o in objects
  {
    hide MatchesAll;
    MatchIdsSound(objects, tmpl, o.id);
  }

  /** In every session of every connection, over every interleaving: a search for a generated key's
      own template, if that names no type twice, matches the key if and only if the session is the
      one that generated it or took its snapshot of the slot after the key was persisted there. */
  lemma GeneratedFoundWhere(w: World, c: nat, r: Request, orc: Oracle, pub: Object, priv: Object, o: Object, ls: seq<Step>)
    requires Inv(w) && Enabled(w, Begin(c, r, orc)) && r.GenerateKeyPair? && r.session in w.conns[c].local.sessions
    requires NewKeyPair(r.mechanism, r.pubTmpl, r.privTmpl, orc.gen) == Ok((pub, priv)) && pub.id != priv.id
    requires (o == pub || o == priv) && Absent(w, o.id)
    requires forall l :: l in ls ==> Avoids(l, o.id)
    requires DuplicateFree(if o == pub then r.pubTmpl else r.privTmpl)
    ensures r.session in w.conns[c].origins && FindSlot(w.slots, w.conns[c].local.sessions[r.session].slotID).Ok?
    ensures var w1 := Next(w, Begin(c, r, orc)).0;
            var v := Exec(w1, ls);
            var b := AfterRun(w1, ls, o.id, BirthOf(w, c, r.session, o));
            forall d, id :: d in v.conns && id in v.conns[d].local.sessions ==>
              id in v.conns[d].origins &&
              (o.id in MatchIds(v.conns[d].local.sessions[id].objects, if o == pub then r.pubTmpl else r.privTmpl)
               <==> Sees(b, d, id, v.conns[d].local.sessions[id], v.conns[d].origins[id]))
  {
    hide NewKeyPair, MatchesAll, DuplicateFree, IsToken, Inv, MatchIds, Next, Exec, AfterRun, Sees, Absent, Avoids, FindSlot, TokenBy, AllWellTyped, HasId;
    GeneratedVisibility(w, c, r, orc, pub, priv, o, ls);
    GeneratedPair(r.mechanism, r.pubTmpl, r.privTmpl, orc.gen);
    UniqueAfter(w, c, r, orc, pub, priv, o, ls);
    var v := Exec(Next(w, Begin(c, r, orc)).0, ls);
    var tmpl := if o == pub then r.pubTmpl else r.privTmpl;
    forall d, id | d in v.conns && id in v.conns[d].local.sessions
      ensures o.id in MatchIds(v.conns[d].local.sessions[id].objects, tmpl) <==> o in v.conns[d].local.sessions[id].objects
    {
      assert OnlyIn(v.conns[d], o);
      FoundExactly(v.conns[d].local.sessions[id].objects, o, tmpl);
    }
  }

  lemma UniqueAfter(w: World, c: nat, r: Request, orc: Oracle, pub: Object, priv: Object, o: Object, ls: seq<Step>)
    requires Enabled(w, Begin(c, r, orc)) && r.GenerateKeyPair?
    requires NewKeyPair(r.mechanism, r.pubTmpl, r.privTmpl, orc.gen) == Ok((pub, priv)) && pub.id != priv.id
    requires (o == pub || o == priv) && Absent(w, o.id)
    requires forall l :: l in ls ==> Avoids(l, o.id)
    ensures Unique(Exec(Next(w, Begin(c, r, orc)).0, ls), o)
  {
    hide NewKeyPair, BeginGenerate, Absent, Unique, Avoids;
    GeneratedUnique(w, c, r, orc.gen, pub, priv, o);
    RunUnique(Next(w, Begin(c, r, orc)).0, ls, o);
  }

  /** In every reachable state the answer to C_GetAttributeValue decodes, at the client, to exactly
      the lookups requested, in order, with status zero if and only if every type was present. The
      codec's bounds on array lengths and years are the only condition. */
  lemma AttributesSeen(w: World, ls: seq<Step>, c: nat, id: uint64, key: uint64, types: seq<Template>, o: Oracle)
    requires Initial(w) && Live(Exec(w, ls), c, id) && Enabled(Exec(w, ls), Begin(c, GetAttributeValue(id, key, types), o))
    requires FindObject(Of(Exec(w, ls), c, id).objects, key).Ok? && |types| < TWO32
    requires var obj := FindObject(Of(Exec(w, ls), c, id).objects, key).value;
             AllWireSafe(AttributeValues(obj, types))
    ensures var obj := FindObject(Of(Exec(w, ls), c, id).objects, key).value;
            var reply := Next(Exec(w, ls), Begin(c, GetAttributeValue(id, key, types), o)).1;
            && reply.Some? && reply.value.Ok?
            && var (b, vs) := ReadFields([FAttributeArray, FUlong], Render(CALL_GET_ATTRIBUTE_VALUE, reply.value.value));
               && b.Err().None? && |vs| == 2 && vs[0].VAttributes? && vs[1].VUlong?
               && |vs[0].attrs| == |types|
               && (forall i :: 0 <= i < |types| ==> vs[0].attrs[i] == Lookup(obj.attributes, types[i].typ).GetOr(Empty(types[i].typ)))
               && (vs[1].n == 0 <==> forall i :: 0 <= i < |types| ==> Lookup(obj.attributes, types[i].typ).Some?)
               && (vs[1].n == 0 || vs[1].n == CKR_ATTRIBUTE_TYPE_INVALID)
  {
    hide Exec, FindObject, AllWireSafe, AllWellTyped, AllTyped, Lookup, ReadFields, Render, Oracle.Valid, AllPresent, SignPairOk, FindSlot;
    ReachableSession(w, ls, c, id);
    var v := Exec(w, ls);
    var obj := FindObject(Of(v, c, id).objects, key).value;
    assert o.keys.Valid() by { OracleKeys(o); }
    AttributeAnswer(Of(v, c, id), key, types, o);
    var attrs, status := AttributeValues(obj, types), if AllPresent(obj, types) then 0 else CKR_ATTRIBUTE_TYPE_INVALID;
    AttributeAnswerDecodes(CALL_GET_ATTRIBUTE_VALUE, attrs, status);
  }

  /** The end of a prefix, and the prefix before it. */
  lemma PartAt(s: seq<byte>, p: seq<byte>, q: seq<byte>)
    requires p + q <= s
    ensures p <= s && |p| + |q| <= |s| && s[|p|..|p| + |q|] == q
  {
    assert (p + q)[|p|..] == q && p <= p + q;
  }

  /** Where each field of C_GetTokenInfo's answer stands. */
  lemma TokenInfoLayout(text: seq<byte>, initialized: bool, info: TokenDetails)
    ensures var b := PutTokenInfo(text, initialized, info);
            && |b| == 224
            && b[0..36] == PutText(text, 32) && b[36..72] == PutText(info.manufacturer, 32)
            && b[72..92] == PutText(info.model, 16) && b[92..112] == PutText(info.serial, 16)
            && b[112..120] == U64(if initialized then 0x400 else 0) && b[120..200] == PutUlongs(TOKEN_LIMITS)
            && b[200..202] == [info.hardware.0, info.hardware.1] && b[202..204] == [info.firmware.0, info.firmware.1]
            && b[204..224] == PutText([], 16)
  {
    hide U64, PutText, PutUlongs;
    UlongsSize(TOKEN_LIMITS);
    var b := PutTokenInfo(text, initialized, info);
    var p1 := PutText(text, 32);
    var p2 := p1 + PutText(info.manufacturer, 32);
    var p3 := p2 + PutText(info.model, 16);
    var p4 := p3 + PutText(info.serial, 16);
    var p5 := p4 + U64(if initialized then 0x400 else 0);
    var p6 := p5 + PutUlongs(TOKEN_LIMITS);
    var p7 := p6 + PutVersion(info.hardware);
    var p8 := p7 + PutVersion(info.firmware);
    assert b == p8 + PutText([], 16);
    PartAt(b, p8, PutText([], 16));
    PartAt(b, p7, PutVersion(info.firmware));
    PartAt(b, p6, PutVersion(info.hardware));
    PartAt(b, p5, PutUlongs(TOKEN_LIMITS));
    PartAt(b, p4, U64(if initialized then 0x400 else 0));
    PartAt(b, p3, PutText(info.serial, 16));
    PartAt(b, p2, PutText(info.model, 16));
    PartAt(b, p1, PutText(info.manufacturer, 32));
  }

  lemma TextIs(s: seq<byte>, n: uint32)
    ensures PutText(s, n)[..4] == U32(n) && PutText(s, n)[4..] == Padded(s, n)
  {
    hide U32, Padded;
  }

  lemma NumberAt(b: seq<byte>, i: nat, n: uint64)
    requires i + 8 <= |b| && b[i..i + 8] == U64(n)
    ensures GetU64(b[i..]) == Got(n, b[i + 8..])
  {
    hide U64, GetU64;
    assert b[i..] == U64(n) + b[i + 8..];
    U64RoundTrip(n, b[i + 8..]);
  }

  lemma SliceOfSlice(b: seq<byte>, lo: nat, hi: nat, i: nat, j: nat)
    requires i <= j <= hi - lo && hi <= |b|
    ensures b[lo..hi][i..j] == b[lo + i..lo + j]
  {
    var x, y := b[lo..hi][i..j], b[lo + i..lo + j];
    forall k | 0 <= k < j - i ensures x[k] == y[k] {
      assert x[k] == b[lo..hi][i + k] == b[lo + (i + k)];
    }
  }

  lemma LimitAt(text: seq<byte>, initialized: bool, info: TokenDetails, i: nat)
    requires i < 10
    ensures var b := PutTokenInfo(text, initialized, info);
            |b| == 224 && b[120 + 8 * i..128 + 8 * i] == U64([0, MAX64, 0, MAX64, 0, 0, MAX64, MAX64, MAX64, MAX64][i])
  {
    hide U64, PutTokenInfo, PutUlongs;
    TokenInfoLayout(text, initialized, info);
    var b := PutTokenInfo(text, initialized, info);
    UlongAt(TOKEN_LIMITS, i);
    SliceOfSlice(b, 120, 200, 8 * i, 8 * i + 8);
    assert 120 + (8 * i + 8) == 128 + 8 * i;
    assert TOKEN_LIMITS[i] == [0, MAX64, 0, MAX64, 0, 0, MAX64, MAX64, MAX64, MAX64][i];
  }

  /** What a client reads from a C_GetTokenInfo answer: four strings, eleven numbers beginning with
      the flags, two versions and a blank time. Trimming the label's padding recovers a stored label
      exactly when it fits, so the pair a client sees is the pair that was stored. */
  lemma TokenInfoSeen(call: uint32, text: seq<byte>, initialized: bool, info: TokenDetails, i: nat)
    requires i < 10
    ensures var answer := Render(call, TokenInfo(Trim(text), initialized, info));
            var b := answer.buffer;
            && answer.signature == Ascii("ssssuuuuuuuuuuuvvs") && |b| == 224
            && (TrimSpaces(b[4..36]) == Trim(text) <==> |Trim(text)| <= 32)
            && b[40..72] == Padded(info.manufacturer, 32) && b[76..92] == Padded(info.model, 16) && b[96..112] == Padded(info.serial, 16)
            && GetU64(b[112..]) == Got(if initialized then 0x400 else 0, b[120..])
            && GetU64(b[120 + 8 * i..]) == Got([0, MAX64, 0, MAX64, 0, 0, MAX64, MAX64, MAX64, MAX64][i], b[128 + 8 * i..])
            && (b[200], b[201]) == info.hardware && (b[202], b[203]) == info.firmware
            && b[208..224] == Padded([], 16)
  {
    hide TrimSpaces, Trim, TrimmedTo, GetU64, U64, PutTokenInfo, Padded, PutText, PutUlongs, Codes, U32;
    LabelField(text);
    var t := Trim(text);
    TokenInfoLayout(t, initialized, info);
    var b := Render(call, TokenInfo(t, initialized, info)).buffer;
    assert b == PutTokenInfo(t, initialized, info);
    TextIs(t, 32);
    TextIs(info.manufacturer, 32);
    TextIs(info.model, 16);
    TextIs(info.serial, 16);
    TextIs([], 16);
    assert b[4..36] == b[0..36][4..] && b[40..72] == b[36..72][4..] && b[76..92] == b[72..92][4..];
    assert b[96..112] == b[92..112][4..] && b[208..224] == b[204..224][4..];
    assert b[200] == b[200..202][0] && b[201] == b[200..202][1] && b[202] == b[202..204][0] && b[203] == b[202..204][1];
    NumberAt(b, 112, if initialized then 0x400 else 0);
    LimitAt(t, initialized, info, i);
    NumberAt(b, 120 + 8 * i, [0, MAX64, 0, MAX64, 0, 0, MAX64, MAX64, MAX64, MAX64][i]);
    TokenSignature();
  }

  lemma TokenSignature()
    ensures Codes(TOKEN_TEXTS + TOKEN_NUMBERS + TOKEN_TAIL) == Ascii("ssssuuuuuuuuuuuvvs")
  {
    hide Codes;
    var fs := TOKEN_TEXTS + TOKEN_NUMBERS + TOKEN_TAIL;
    CodesAre(fs, Ascii("ssssuuuuuuuuuuuvvs"));
  }

  lemma {:induction false} CodesAre(fs: seq<Field>, s: seq<byte>)
    requires |fs| == |s| && forall i :: 0 <= i < |fs| ==> Code(fs[i]) == [s[i]]
    ensures Codes(fs) == s
  {
    if fs != [] {
      CodesAre(fs[1..], s[1..]);
      assert s == [s[0]] + s[1..];
    }
  }
}

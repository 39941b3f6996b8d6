/** Properties of one session, one token and one connection over whole interleaved runs. */
module Runs {
  import opened Bytes
  import opened Fields
  import opened Bodies
  import opened Objects
  import opened Crypto
  import opened Keygen
  import opened Handles
  import opened Sessions
  import opened Slots
  import opened Machine

  predicate Live(w: World, c: nat, id: uint64) {
    c in w.conns && id in w.conns[c].local.sessions
  }

  function Of(w: World, c: nat, id: uint64): Session
    requires Live(w, c, id)
  {
    w.conns[c].local.sessions[id]
  }

  /** The session is open in every state of the run, so it is never closed. */
  ghost predicate StaysOpen(w: World, ls: seq<Step>, c: nat, id: uint64)
    decreases ls
  {
    Live(w, c, id) && (ls == [] || StaysOpen(Next(w, ls[0]).0, ls[1..], c, id))
  }

  /** The step is a request executed inside this session. */
  ghost predicate Targets(w: World, l: Step, c: nat, id: uint64) {
    && l.Begin? && l.c == c && Enabled(w, l)
    && l.request.IsLocal() && !l.request.FindObjectsFinal? && !l.request.CloseSession? && l.request.session == id
  }

  /** The step generates a key pair in this session. */
  ghost predicate Generates(w: World, l: Step, c: nat, id: uint64) {
    l.Begin? && l.c == c && Enabled(w, l) && l.request.GenerateKeyPair? && l.request.session == id
  }

  /** A session as C_GenerateKeyPair leaves it: with both objects, or as it was. */
  function WithPair(s: Session, r: Request, g: KeyGen): Session
    requires r.GenerateKeyPair?
  {
    match NewKeyPair(r.mechanism, r.pubTmpl, r.privTmpl, g)
    case Err(_) => s
    case Ok((pub, priv)) => s.(objects := s.objects + [pub, priv])
  }

  /** Isolation: a session changes only by a request executed in it, and then as that request says.
      Every other step, of its own connection or another, leaves it as it was. */
  lemma SessionStep(w: World, l: Step, c: nat, id: uint64)
    requires Live(w, c, id) && Live(Next(w, l).0, c, id)
    ensures var s, s' := Of(w, c, id), Of(Next(w, l).0, c, id);
            if Targets(w, l, c, id)
            then l.oracle.keys.Valid() && (s', Next(w, l).1) == (InSession(s, l.request, l.oracle).0, Some(InSession(s, l.request, l.oracle).1))
            else if Generates(w, l, c, id) then s' == WithPair(s, l.request, l.oracle.gen)
            else s' == s
  {
    hide InSession, NewKeyPair, IsToken, FindSlot, Initialize, FirstFree, Request.Decoded;
    if Enabled(w, l) && l.Continue? && l.c == c && w.conns[c].phase.Opening? {
      var conn := w.conns[c];
      var used := conn.local.sessions.Keys;
      assert FirstFree(conn.local.lastSessionID, used) !in used;
    }
  }

  // ---------------------------------------------------------------- signing

  ghost function Chunk(w: World, l: Step, c: nat, id: uint64): seq<byte> {
    if Targets(w, l, c, id) && l.request.SignUpdate? then l.request.data.Content() else []
  }

  /** The data of all C_SignUpdate calls of a session, in order. */
  ghost function Chunks(w: World, ls: seq<Step>, c: nat, id: uint64): seq<byte>
    decreases ls
  {
    if ls == [] then [] else Chunk(w, ls[0], c, id) + Chunks(Next(w, ls[0]).0, ls[1..], c, id)
  }

  ghost predicate NoSignInit(w: World, ls: seq<Step>, c: nat, id: uint64)
    decreases ls
  {
    ls == [] || (!(Targets(w, ls[0], c, id) && ls[0].request.SignInit?) && NoSignInit(Next(w, ls[0]).0, ls[1..], c, id))
  }

  lemma SignStep(w: World, l: Step, c: nat, id: uint64)
    requires Live(w, c, id) && Live(Next(w, l).0, c, id)
    ensures var s, s' := Of(w, c, id), Of(Next(w, l).0, c, id);
            && s'.signData == s.signData + Chunk(w, l, c, id)
            && (!(Targets(w, l, c, id) && l.request.SignInit?) ==> s'.signObject == s.signObject && s'.signMechanism == s.signMechanism)
  {
    hide Next, Enabled, MatchIds, FindObject, AttributeValues, Supports, Sign, DeriveEcdh, AllPresent;
    SessionStep(w, l, c, id);
    var s := Of(w, c, id);
    assert s.signData + [] == s.signData;
  }

  /** Whatever other sessions and connections do, a session's pending data is what it was plus its
      own chunks, however they were cut. */
  lemma {:induction false} SignDataAccumulates(w: World, ls: seq<Step>, c: nat, id: uint64)
    requires StaysOpen(w, ls, c, id)
    ensures Live(Exec(w, ls), c, id)
    ensures Of(Exec(w, ls), c, id).signData == Of(w, c, id).signData + Chunks(w, ls, c, id)
    ensures NoSignInit(w, ls, c, id) ==>
              Of(Exec(w, ls), c, id).signObject == Of(w, c, id).signObject && Of(Exec(w, ls), c, id).signMechanism == Of(w, c, id).signMechanism
    decreases ls
  {
    hide Next, Chunk, Targets, Live;
    if ls == [] {
      assert Of(w, c, id).signData + [] == Of(w, c, id).signData;
    } else {
      SignStep(w, ls[0], c, id);
      SignDataAccumulates(Next(w, ls[0]).0, ls[1..], c, id);
      var a, b, d := Of(w, c, id).signData, Chunk(w, ls[0], c, id), Chunks(Next(w, ls[0]).0, ls[1..], c, id);
      assert a + b + d == a + (b + d);
    }
  }

  /** C_SignFinal signs, with the key and mechanism of the last C_SignInit, what was pending before
      followed by the run's chunks. It is therefore exactly the chunks if and only if nothing was
      pending: neither C_SignInit nor C_SignFinal clears the buffer. */
  lemma SignFinalSigns(w: World, ls: seq<Step>, c: nat, id: uint64, o: Oracle)
    requires StaysOpen(w, ls, c, id) && NoSignInit(w, ls, c, id)
    requires Enabled(Exec(w, ls), Begin(c, SignFinal(id), o))
    ensures var s, data := Of(w, c, id), Of(w, c, id).signData + Chunks(w, ls, c, id);
            && Next(Exec(w, ls), Begin(c, SignFinal(id), o)).1 ==
               Some(match Sign(s.signObject, s.signMechanism, data, o.signer) case Err(e) => Err(e) case Ok(sig) => Ok(Signature(sig)))
            && (data == Chunks(w, ls, c, id) <==> s.signData == [])
  {
    hide Sign;
    SignDataAccumulates(w, ls, c, id);
    var a, d := Of(w, c, id).signData, Chunks(w, ls, c, id);
    assert |a + d| == |a| + |d|;
    assert a == [] ==> a + d == d;
  }

  // ---------------------------------------------------------------- searching

  ghost function Found(w: World, l: Step, c: nat, id: uint64): seq<uint64> {
    if Live(w, c, id) && Targets(w, l, c, id) && l.request.FindObjectsInit? then MatchIds(Of(w, c, id).objects, l.request.tmpl) else []
  }

  /** The identifiers a step's answer returns to the client. */
  ghost function Page(w: World, l: Step, c: nat, id: uint64): seq<uint64> {
    if Targets(w, l, c, id) && l.request.FindObjects? && Next(w, l).1.Some? && Next(w, l).1.value.Ok? && Next(w, l).1.value.value.Ids?
    then Next(w, l).1.value.value.ids else []
  }

  ghost function AllFound(w: World, ls: seq<Step>, c: nat, id: uint64): seq<uint64>
    decreases ls
  {
    if ls == [] then [] else Found(w, ls[0], c, id) + AllFound(Next(w, ls[0]).0, ls[1..], c, id)
  }

  ghost function AllPages(w: World, ls: seq<Step>, c: nat, id: uint64): seq<uint64>
    decreases ls
  {
    if ls == [] then [] else Page(w, ls[0], c, id) + AllPages(Next(w, ls[0]).0, ls[1..], c, id)
  }

  lemma SearchStep(w: World, l: Step, c: nat, id: uint64)
    requires Live(w, c, id) && Live(Next(w, l).0, c, id)
    ensures Page(w, l, c, id) + Of(Next(w, l).0, c, id).findMatches == Of(w, c, id).findMatches + Found(w, l, c, id)
  {
    hide Next, Enabled, FindObject, AttributeValues, Supports, Sign, DeriveEcdh, AllPresent, MatchIds;
    SessionStep(w, l, c, id);
    var q := Of(w, c, id).findMatches;
    assert q + [] == q && [] + q == q;
    if Targets(w, l, c, id) && l.request.FindObjects? {
      var count := l.request.count;
      if count < |q| {
        assert q[..count] + q[count..] == q;
      }
    }
  }

  /** Search results are conserved over any interleaved run: the pages returned followed by what is
      still queued are what was queued followed by every match list, in order. */
  lemma {:induction false} SearchConserved(w: World, ls: seq<Step>, c: nat, id: uint64)
    requires StaysOpen(w, ls, c, id)
    ensures Live(Exec(w, ls), c, id)
    ensures AllPages(w, ls, c, id) + Of(Exec(w, ls), c, id).findMatches == Of(w, c, id).findMatches + AllFound(w, ls, c, id)
    decreases ls
  {
    hide Next, Found, Page, Targets;
    var q := Of(w, c, id).findMatches;
    if ls == [] {
      assert q + [] == q && [] + q == q;
    } else {
      var v := Next(w, ls[0]).0;
      SearchStep(w, ls[0], c, id);
      SearchConserved(v, ls[1..], c, id);
      Rearrange(q, Found(w, ls[0], c, id), AllFound(v, ls[1..], c, id), Of(v, c, id).findMatches,
                Page(w, ls[0], c, id), AllPages(v, ls[1..], c, id), Of(Exec(w, ls), c, id).findMatches);
    }
  }

  lemma Rearrange(q: seq<uint64>, found: seq<uint64>, rest: seq<uint64>, mid: seq<uint64>,
                  page: seq<uint64>, pages: seq<uint64>, last: seq<uint64>)
    requires page + mid == q + found && pages + last == mid + rest
    ensures (page + pages) + last == q + (found + rest)
  {
    assert (page + pages) + last == page + (mid + rest);
    assert page + (mid + rest) == (q + found) + rest;
  }

  // ---------------------------------------------------------------- tokens

  /** The label of a successful C_InitToken on the i-th slot. */
  ghost function InitStep(w: World, l: Step, i: nat): seq<seq<byte>> {
    if l.Begin? && Enabled(w, l) && l.request.InitToken? && FindSlot(w.slots, l.request.slot) == Ok(i) && Next(w, l).1 == Some(Ok(Done))
    then [l.request.text] else []
  }

  ghost function Inits(w: World, ls: seq<Step>, i: nat): seq<seq<byte>>
    decreases ls
  {
    if ls == [] then [] else InitStep(w, ls[0], i) + Inits(Next(w, ls[0]).0, ls[1..], i)
  }

  lemma TokenStep(w: World, l: Step, i: nat)
    requires i < |w.slots|
    ensures |Next(w, l).0.slots| == |w.slots|
    ensures var s, t := w.slots[i], Next(w, l).0.slots[i];
            if InitStep(w, l, i) == [] then t.text == s.text && t.initialized == s.initialized
            else !s.initialized && t.initialized && |InitStep(w, l, i)| == 1 && TrimmedTo(InitStep(w, l, i)[0], t.text)
  {
    hide Serve, NewKeyPair, IsToken, Open, FindSlot, Trim, TrimmedTo;
  }

  /** Over all interleavings a token is initialized at most once, and then for good: its label is that
      one success's, without its trailing spaces and NULs, or else still the configured one. */
  lemma {:induction false} TokenOnce(w: World, ls: seq<Step>, i: nat)
    requires i < |w.slots|
    ensures |Exec(w, ls).slots| == |w.slots| && |Inits(w, ls, i)| <= 1
    ensures var s, t := w.slots[i], Exec(w, ls).slots[i];
            if Inits(w, ls, i) == [] then t.text == s.text && t.initialized == s.initialized
            else !s.initialized && t.initialized && TrimmedTo(Inits(w, ls, i)[0], t.text)
    decreases ls
  {
    hide Next, InitStep, TrimmedTo;
    if ls != [] {
      TokenStep(w, ls[0], i);
      TokenOnce(Next(w, ls[0]).0, ls[1..], i);
      var a, b := InitStep(w, ls[0], i), Inits(Next(w, ls[0]).0, ls[1..], i);
      assert a == [] ==> a + b == b;
      assert b == [] ==> a + b == a;
    }
  }

  /** So every C_GetTokenInfo answer, at any point of a run, shows either the label and flag the run
      began with, or the one initialization's label, without its trailing spaces and NULs, with the
      flag. */
  lemma TokenInfoPair(w: World, ls: seq<Step>, c: nat, slot: uint64, o: Oracle)
    requires FindSlot(w.slots, slot).Ok?
    requires Enabled(Exec(w, ls), Begin(c, GetTokenInfo(slot), o))
    ensures var i, reply := FindSlot(w.slots, slot).value, Next(Exec(w, ls), Begin(c, GetTokenInfo(slot), o)).1;
            && reply.Some? && reply.value.Ok? && reply.value.value.TokenInfo? && reply.value.value.info == w.slots[i].info
            && (if Inits(w, ls, i) == [] then reply.value.value.text == w.slots[i].text && reply.value.value.initialized == w.slots[i].initialized
                else TrimmedTo(Inits(w, ls, i)[0], reply.value.value.text) && reply.value.value.initialized)
            && (w.slots[i].initialized ==> Inits(w, ls, i) == [])
  {
    hide FindSlot, TrimmedTo, Inits;
    TokenOnce(w, ls, FindSlot(w.slots, slot).value);
    RunGrows(w, ls);
    GrowingSlots(w.slots, Exec(w, ls).slots, slot);
  }

  /** The 32-byte field recovers a stored label exactly when it fits. */
  lemma LabelField(text: seq<byte>)
    ensures TrimSpaces(Padded(Trim(text), 32)) == Trim(text) <==> |Trim(text)| <= 32
  {
    var t := Trim(text);
    if |t| <= 32 {
      assert Padded(t, 32) == t + seq(32 - |t|, i => 32);
      TrimPadding(t, 32 - |t|);
    } else {
      TrimSpacesShorter(Padded(t, 32));
    }
  }

  // ---------------------------------------------------------------- handles

  predicate HandlesBelow(l: Local) {
    forall id :: id in l.sessions ==> 1 <= id <= l.lastSessionID
  }

  /** 1 for a step that opens a session on connection c. */
  ghost function OpenStep(w: World, l: Step, c: nat): nat {
    if l.Continue? && l.c == c && Enabled(w, l) && w.conns[c].phase.Opening? && Next(w, l).1.Some? && Next(w, l).1.value.Ok? then 1 else 0
  }

  ghost function Opens(w: World, ls: seq<Step>, c: nat): nat
    decreases ls
  {
    if ls == [] then 0 else OpenStep(w, ls[0], c) + Opens(Next(w, ls[0]).0, ls[1..], c)
  }

  lemma ServeHandles(l: Local, r: Request, o: Oracle)
    requires r.IsLocal() && o.keys.Valid()
    ensures Serve(l, r, o).0.lastSessionID == l.lastSessionID && Serve(l, r, o).0.sessions.Keys <= l.sessions.Keys
  {
    hide InSession;
  }

  lemma HandleStep(w: World, l: Step, c: nat)
    requires c in w.conns && HandlesBelow(w.conns[c].local) && l != Disconnect(c)
    requires w.conns[c].local.lastSessionID + OpenStep(w, l, c) < TWO64
    ensures c in Next(w, l).0.conns
    ensures var a, b := w.conns[c].local, Next(w, l).0.conns[c].local;
            && HandlesBelow(b) && b.lastSessionID == a.lastSessionID + OpenStep(w, l, c)
            && (OpenStep(w, l, c) == 1 ==> Next(w, l).1 == Some(Ok(Handle(a.lastSessionID + 1))))
            && forall h :: h in b.sessions && h <= a.lastSessionID ==> h in a.sessions
  {
    hide Serve, NewKeyPair, IsToken, FindSlot, Initialize, FirstFree, Request.Decoded;
    if Enabled(w, l) {
      if l.Begin? && l.c == c && l.request.IsLocal() {
        ServeHandles(w.conns[c].local, l.request, l.oracle);
      } else if OpenStep(w, l, c) == 1 {
        FirstFreeIsNext(w.conns[c].local.lastSessionID, w.conns[c].local.sessions.Keys);
      }
    }
  }

  /** While fewer than 2^64 sessions are opened, handles count up by one, and a handle that is closed
      (or was never issued) stays rejected for the rest of the connection. */
  lemma {:induction false} HandlesCountUp(w: World, ls: seq<Step>, c: nat)
    requires c in w.conns && HandlesBelow(w.conns[c].local) && Disconnect(c) !in ls
    requires w.conns[c].local.lastSessionID + Opens(w, ls, c) < TWO64
    ensures c in Exec(w, ls).conns
    ensures var a, b := w.conns[c].local, Exec(w, ls).conns[c].local;
            && HandlesBelow(b) && b.lastSessionID == a.lastSessionID + Opens(w, ls, c)
            && forall h: uint64 :: h <= a.lastSessionID && h !in a.sessions ==> SessionOf(b, h) == Err(Pkcs11(CKR_SESSION_HANDLE_INVALID))
    decreases ls
  {
    hide Next, OpenStep, HandlesBelow;
    if ls != [] {
      HandleStep(w, ls[0], c);
      HandlesCountUp(Next(w, ls[0]).0, ls[1..], c);
    }
  }

  /** The k-th successful C_OpenSession of a new connection returns handle k. */
  lemma NthHandle(w: World, c: nat, ls: seq<Step>, l: Step)
    requires c !in w.conns && Disconnect(c) !in ls && l.Continue?
    requires var v := Next(w, Connect(c)).0;
             Opens(v, ls, c) + 1 < TWO64 && OpenStep(Exec(v, ls), l, c) == 1
    ensures var v := Next(w, Connect(c)).0;
            Next(Exec(v, ls), l).1 == Some(Ok(Handle(Opens(v, ls, c) + 1)))
  {
    hide OpenStep, Opens;
    var v := Next(w, Connect(c)).0;
    assert v.conns[c].local == FRESH_LOCAL && HandlesBelow(FRESH_LOCAL);
    HandlesCountUp(v, ls, c);
    HandleStep(Exec(v, ls), l, c);
  }

  // ---------------------------------------------------------------- opening and closing

  /** A session ends exactly by its own C_CloseSession, or with its connection. */
  lemma SessionEnds(w: World, l: Step, c: nat, id: uint64)
    requires Live(w, c, id)
    ensures !Live(Next(w, l).0, c, id) <==> Enabled(w, l) && (l == Disconnect(c) || (l.Begin? && l.c == c && l.request == CloseSession(id)))
  {
    hide InSession, NewKeyPair, IsToken, FindSlot, Initialize, FirstFree;
  }

  /** Closing a live session succeeds, ends it, and changes nothing else anywhere. */
  lemma ClosedStep(w: World, c: nat, id: uint64, o: Oracle)
    requires Live(w, c, id) && Enabled(w, Begin(c, CloseSession(id), o))
    ensures var v := Next(w, Begin(c, CloseSession(id), o)).0;
            && Next(w, Begin(c, CloseSession(id), o)).1 == Some(Ok(Done))
            && !Live(v, c, id) && v.slots == w.slots && v.conns.Keys == w.conns.Keys
            && v.conns[c].local.lastSessionID == w.conns[c].local.lastSessionID
            && forall d, k :: d != c || k != id ==> (Live(v, d, k) <==> Live(w, d, k)) && (Live(w, d, k) ==> Of(v, d, k) == Of(w, d, k))
  {
    hide InSession;
  }

  /** A session begins exactly when its connection's C_OpenSession returns its handle, in the state
      C_OpenSession gives it: the snapshot's objects, or GetObjects' where there is one. */
  lemma SessionStarts(w: World, l: Step, c: nat, id: uint64)
    requires !Live(w, c, id)
    ensures Live(Next(w, l).0, c, id) <==>
            Enabled(w, l) && l.Continue? && l.c == c && w.conns[c].phase.Opening? && Next(w, l).1 == Some(Ok(Handle(id)))
    ensures Live(Next(w, l).0, c, id) ==>
              var phase, s := w.conns[c].phase, Of(Next(w, l).0, c, id);
              && s.slotID == phase.slot && s.findMatches == [] && s.signData == [] && s.signObject.priv.None?
              && (if phase.dynamic then l.oracle.dynamicObjects == Ok(s.objects) else s.objects == phase.snapshot)
  {
    hide InSession, NewKeyPair, IsToken, FindSlot, Initialize, FirstFree;
  }

  /** What C_OpenSession answers, and when it takes its snapshot. */
  lemma OpenBegins(w: World, c: nat, slot: uint64, flags: uint64, o: Oracle)
    requires Enabled(w, Begin(c, OpenSession(slot, flags), o))
    ensures var (v, reply) := Next(w, Begin(c, OpenSession(slot, flags), o));
            if flags % 8 < 4 then v == w && reply == Some(Err(Pkcs11(CKR_SESSION_PARALLEL_NOT_SUPPORTED)))
            else if FindSlot(w.slots, slot).Err? then v == w && reply == Some(Err(Pkcs11(CKR_SLOT_ID_INVALID)))
            else
              var s := w.slots[FindSlot(w.slots, slot).value];
              && reply == None && v.slots == w.slots && v.conns.Keys == w.conns.Keys
              && v.conns[c].local == w.conns[c].local && v.conns[c].phase.Opening?
              && v.conns[c].phase.slot == slot && v.conns[c].phase.dynamic == s.dynamic && v.conns[c].phase.snapshot == s.objects
  {
    hide FindSlot;
    assert flags / 4 % 2 == 0 <==> flags % 8 < 4;
  }

  /** C_OpenSession fails after its snapshot exactly when GetObjects does. */
  lemma OpenEnds(w: World, c: nat, o: Oracle)
    requires Enabled(w, Continue(c, o)) && w.conns[c].phase.Opening?
    ensures var (v, reply) := Next(w, Continue(c, o));
            && c in v.conns && v.conns[c].phase.Idle? && v.slots == w.slots && reply.Some?
            && (reply.value.Err? <==> w.conns[c].phase.dynamic && o.dynamicObjects.Err?)
            && (reply.value.Err? ==> reply.value.error == o.dynamicObjects.error && v.conns[c].local == w.conns[c].local)
            && (reply.value.Ok? ==> reply.value.value.Handle? && !Live(w, c, reply.value.value.handle) && Live(v, c, reply.value.value.handle))
  {
    hide FirstFree;
  }

  /** Requests that look a session up. */
  predicate NeedsSession(r: Request) {
    (r.IsLocal() && !r.FindObjectsFinal?) || r.GenerateKeyPair?
  }

  lemma NoSession(w: World, c: nat, r: Request, o: Oracle)
    requires Enabled(w, Begin(c, r, o)) && NeedsSession(r) && !Live(w, c, r.session)
    ensures Next(w, Begin(c, r, o)) == (w, Some(Err(Pkcs11(CKR_SESSION_HANDLE_INVALID))))
  {
    hide InSession, NewKeyPair, FindSlot, Request.Decoded;
    assert w.conns[c := w.conns[c]] == w.conns;
  }

  /** C_FindObjectsFinal succeeds whatever session it names, and changes nothing. */
  lemma FinalChangesNothing(w: World, c: nat, id: uint64, o: Oracle)
    requires Enabled(w, Begin(c, FindObjectsFinal(id), o))
    ensures Next(w, Begin(c, FindObjectsFinal(id), o)) == (w, Some(Ok(Done)))
  {
    hide InSession, FindSlot;
    assert w.conns[c := w.conns[c]] == w.conns;
  }

  /** A closed session stays closed: with fewer than 2^64 opens, every later request in it is answered
      with CKR_SESSION_HANDLE_INVALID and changes nothing, whatever ran in between. */
  lemma ClosedForGood(w: World, c: nat, id: uint64, o: Oracle, ls: seq<Step>, r: Request, o': Oracle)
    requires Live(w, c, id) && Enabled(w, Begin(c, CloseSession(id), o)) && HandlesBelow(w.conns[c].local) && Disconnect(c) !in ls
    requires var v := Next(w, Begin(c, CloseSession(id), o)).0;
             w.conns[c].local.lastSessionID + Opens(v, ls, c) < TWO64 && Enabled(Exec(v, ls), Begin(c, r, o'))
    requires NeedsSession(r) && r.session == id
    ensures var v := Next(w, Begin(c, CloseSession(id), o)).0;
            Next(Exec(v, ls), Begin(c, r, o')) == (Exec(v, ls), Some(Err(Pkcs11(CKR_SESSION_HANDLE_INVALID))))
  {
    hide Next, Opens, Enabled, NeedsSession;
    var v := Next(w, Begin(c, CloseSession(id), o)).0;
    ClosedStep(w, c, id, o);
    assert c in v.conns && id !in v.conns[c].local.sessions;
    forall k | k in v.conns[c].local.sessions ensures 1 <= k <= v.conns[c].local.lastSessionID {
      assert Live(v, c, k) && Live(w, c, k);
    }
    HandlesCountUp(v, ls, c);
    assert SessionOf(Exec(v, ls).conns[c].local, id).Err?;
    NoSession(Exec(v, ls), c, r, o');
  }

  /** The handles of a connection are always among those it was given. */
  lemma HandlesGiven(w: World, c: nat, ls: seq<Step>)
    requires c !in w.conns && Disconnect(c) !in ls && Opens(Next(w, Connect(c)).0, ls, c) < TWO64
    ensures var v := Exec(Next(w, Connect(c)).0, ls);
            c in v.conns && HandlesBelow(v.conns[c].local) && v.conns[c].local.lastSessionID == Opens(Next(w, Connect(c)).0, ls, c)
  {
    hide Opens;
    var v := Next(w, Connect(c)).0;
    assert v.conns[c].local == FRESH_LOCAL && HandlesBelow(FRESH_LOCAL);
    HandlesCountUp(v, ls, c);
  }

  // ---------------------------------------------------------------- snapshots and signing pairs

  /** In every reachable state a session on a slot without GetObjects holds a prefix of that slot's
      list, taken when it opened, followed by objects of its own; its objects are well typed and its
      signing pair is the zero value or a key that supports its mechanism. */
  lemma ReachableSession(w: World, ls: seq<Step>, c: nat, id: uint64)
    requires Initial(w) && Live(Exec(w, ls), c, id)
    ensures var v := Exec(w, ls);
            && id in v.conns[c].origins && FindSlot(v.slots, Of(v, c, id).slotID).Ok?
            && var slot, initial := v.slots[FindSlot(v.slots, Of(v, c, id).slotID).value], v.conns[c].origins[id].initial;
               && initial <= Of(v, c, id).objects
               && (!slot.dynamic ==> initial <= slot.objects)
               && AllTyped(Of(v, c, id).objects) && SignPairOk(Of(v, c, id))
  {
    hide FindSlot, AllTyped, SignPairOk, PhaseOk, Next;
    RunKeepsInv(w, ls);
    var v := Exec(w, ls);
    assert ConnOk(v.conns[c], v.slots, v.opens);
    assert SessionOrigin(Of(v, c, id), v.conns[c].origins[id], v.slots, v.opens);
  }

  /** After every run, C_Sign and C_SignFinal take neither the branch for an unsupported mechanism
      nor the one for a key of another type: the answer is an error about the session or a missing
      key, or what SignByKey gives for a key that fits its mechanism. */
  lemma ReachableSigning(w: World, ls: seq<Step>, c: nat, r: Request, o: Oracle)
    requires Initial(w) && (r.SignOnce? || r.SignFinal?) && Enabled(Exec(w, ls), Begin(c, r, o))
    ensures var reply := Next(Exec(w, ls), Begin(c, r, o)).1;
            if !Live(Exec(w, ls), c, r.session) then reply == Some(Err(Pkcs11(CKR_SESSION_HANDLE_INVALID)))
            else
              var s := Of(Exec(w, ls), c, r.session);
              if s.signObject.priv.None? then reply == Some(Err(Pkcs11(CKR_KEY_HANDLE_INVALID)))
              else
                var k, data := s.signObject.priv.value, if r.SignOnce? then r.data.Content() else s.signData;
                && KeyFits(k, s.signMechanism)
                && reply == Some(match SignByKey(k, s.signMechanism, data, o.signer) case Err(e) => Err(e) case Ok(sig) => Ok(Signature(sig)))
  {
    hide FindSlot, AllTyped, SignPairOk, KeyFits, Sign, SignByKey, Exec, Enabled;
    assert c in Exec(w, ls).conns && Exec(w, ls).conns[c].phase.Idle? && o.keys.Valid() by { IdleAt(Exec(w, ls), c, r, o); }
    if Live(Exec(w, ls), c, r.session) {
      ReachableSession(w, ls, c, r.session);
      var s := Of(Exec(w, ls), c, r.session);
      SignBranches(s, if r.SignOnce? then r.data.Content() else s.signData, o.signer);
    }
    assert Next(Exec(w, ls), Begin(c, r, o)).1 == Some(Serve(Exec(w, ls).conns[c].local, r, o).1);
  }

  lemma IdleAt(w: World, c: nat, r: Request, o: Oracle)
    requires Enabled(w, Begin(c, r, o))
    ensures c in w.conns && w.conns[c].phase.Idle? && o.keys.Valid()
  {
  }
}

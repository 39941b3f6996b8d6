/** What one search or signature leaves behind for the next one in the same session. */
module Leftovers {
  import opened Bytes
  import opened Attributes
  import opened Fields
  import opened Objects
  import opened Crypto
  import opened Handles
  import opened Sessions
  import opened Slots
  import opened Machine
  import opened Runs

  // ---------------------------------------------------------------- exactly when nothing is left

  /** A page with fewer entries than asked for empties the queue. */
  lemma ShortPage(s: Session, count: nat)
    ensures |FindNext(s, count).1| < count ==> FindNext(s, count).0.findMatches == []
    ensures |FindNext(s, count).1| == Min(count, |s.findMatches|)
  {
  }

  /** A search in a session that has run since it was opened: its pages, up to an empty queue, are
      what earlier searches left followed by its own matches. They are its own matches if and only
      if every match the session found before had been paged. */
  lemma SearchAfterRun(w: World, before: seq<Step>, c: nat, id: uint64, tmpl: seq<Attribute>, o: Oracle, after: seq<Step>)
    requires Live(w, c, id) && Of(w, c, id).findMatches == [] && StaysOpen(w, before, c, id)
    requires Targets(Exec(w, before), Begin(c, FindObjectsInit(id, tmpl), o), c, id)
    requires var v := Next(Exec(w, before), Begin(c, FindObjectsInit(id, tmpl), o)).0;
             StaysOpen(v, after, c, id) && AllFound(v, after, c, id) == [] &&
             Live(Exec(v, after), c, id) && Of(Exec(v, after), c, id).findMatches == []
    ensures Live(Exec(w, before), c, id)
    ensures var v := Next(Exec(w, before), Begin(c, FindObjectsInit(id, tmpl), o)).0;
            var matches := MatchIds(Of(Exec(w, before), c, id).objects, tmpl);
            && (exists left :: AllFound(w, before, c, id) == AllPages(w, before, c, id) + left && AllPages(v, after, c, id) == left + matches)
            && (AllPages(v, after, c, id) == matches <==> |AllPages(w, before, c, id)| == |AllFound(w, before, c, id)|)
  {
    hide Next, Targets, StaysOpen, Live, MatchIds, Exec, AllFound, AllPages;
    SearchConserved(w, before, c, id);
    var w1 := Exec(w, before);
    var l := Begin(c, FindObjectsInit(id, tmpl), o);
    var v := Next(w1, l).0;
    assert Live(v, c, id) by { OpenNow(v, after, c, id); }
    SearchStep(w1, l, c, id);
    SearchConserved(v, after, c, id);
    var left, matches := Of(w1, c, id).findMatches, MatchIds(Of(w1, c, id).objects, tmpl);
    assert Found(w1, l, c, id) == matches && Page(w1, l, c, id) == [];
    assert [] + Of(v, c, id).findMatches == Of(v, c, id).findMatches;
    assert Of(v, c, id).findMatches + [] == Of(v, c, id).findMatches;
    assert AllPages(v, after, c, id) + [] == AllPages(v, after, c, id);
    assert [] + AllFound(w, before, c, id) == AllFound(w, before, c, id);
    assert AllFound(w, before, c, id) == AllPages(w, before, c, id) + left;
    assert AllPages(v, after, c, id) == left + matches;
    assert left == [] ==> left + matches == matches;
  }

  lemma OpenNow(w: World, ls: seq<Step>, c: nat, id: uint64)
    requires StaysOpen(w, ls, c, id)
    ensures Live(w, c, id)
  {
  }

  /** A signature in a session that has run since it was opened signs every chunk since then. It is
      over the chunks since its own C_SignInit if and only if the session had no data before that. */
  lemma SignatureAfterRun(w: World, before: seq<Step>, c: nat, id: uint64, m: Mechanism, key: uint64, o: Oracle, after: seq<Step>, o': Oracle)
    requires Live(w, c, id) && Of(w, c, id).signData == [] && StaysOpen(w, before, c, id)
    requires var w1, l := Exec(w, before), Begin(c, SignInit(id, m, key), o);
             && Live(w1, c, id) && Targets(w1, l, c, id)
             && FindObject(Of(w1, c, id).objects, key).Ok? && Supports(FindObject(Of(w1, c, id).objects, key).value, m).Ok?
             && StaysOpen(Next(w1, l).0, after, c, id) && NoSignInit(Next(w1, l).0, after, c, id)
             && Enabled(Exec(Next(w1, l).0, after), Begin(c, SignFinal(id), o'))
    ensures var w1 := Exec(w, before);
            var v := Next(w1, Begin(c, SignInit(id, m, key), o)).0;
            var obj, data := FindObject(Of(w1, c, id).objects, key).value, Chunks(w, before, c, id) + Chunks(v, after, c, id);
            && Next(Exec(v, after), Begin(c, SignFinal(id), o')).1 ==
               Some(match Sign(obj, m, data, o'.signer) case Err(e) => Err(e) case Ok(sig) => Ok(Signature(sig)))
            && (data == Chunks(v, after, c, id) <==> Chunks(w, before, c, id) == [])
  {
    hide Next, Enabled, Sign, Supports, FindObject, StaysOpen, NoSignInit, Exec, Chunks, Live;
    var w1, l := Exec(w, before), Begin(c, SignInit(id, m, key), o);
    var v := Next(w1, l).0;
    SignDataAccumulates(w, before, c, id);
    assert Live(v, c, id) by { OpenNow(v, after, c, id); }
    SessionStep(w1, l, c, id);
    SignFinalSigns(v, after, c, id, o');
    assert [] + Chunks(w, before, c, id) == Chunks(w, before, c, id);
  }

  // ---------------------------------------------------------------- runs in which something is

  /** Local requests of one connection, one after another. */
  function ServeAll(l: Local, rs: seq<Request>, o: Oracle): Local
    requires o.keys.Valid() && forall i :: 0 <= i < |rs| ==> rs[i].IsLocal()
    decreases rs
  {
    if rs == [] then l else ServeAll(Serve(l, rs[0], o).0, rs[1..], o)
  }

  /** A connection with one session. */
  function One(s: Session): Local {
    Local(1, map[1 := s])
  }

  /** What a request leaves of the one session. */
  function Left(s: Session, r: Request, o: Oracle): Session
    requires o.keys.Valid()
  {
    if r.FindObjectsFinal? then s else InSession(s, r, o).0
  }

  lemma ServeOne(s: Session, r: Request, rs: seq<Request>, o: Oracle)
    requires o.keys.Valid() && r.IsLocal() && !r.CloseSession? && r.session == 1 && forall i :: 0 <= i < |rs| ==> rs[i].IsLocal()
    ensures Serve(One(s), r, o).0 == One(Left(s, r, o))
    ensures ServeAll(One(s), [r] + rs, o) == ServeAll(One(Left(s, r, o)), rs, o)
  {
    hide InSession;
    assert ([r] + rs)[1..] == rs;
    assert map[1 := s][1 := InSession(s, r, o).0] == map[1 := InSession(s, r, o).0];
  }

  function Begins(c: nat, rs: seq<Request>, o: Oracle): seq<Step> {
    if rs == [] then [] else [Begin(c, rs[0], o)] + Begins(c, rs[1..], o)
  }

  predicate AllLocal(rs: seq<Request>) {
    forall i :: 0 <= i < |rs| ==> rs[i].IsLocal() && rs[i].Decoded()
  }

  lemma {:induction false} LocalRun(w: World, c: nat, rs: seq<Request>, o: Oracle)
    requires c in w.conns && w.conns[c].phase.Idle? && o.Valid() && AllLocal(rs)
    ensures Exec(w, Begins(c, rs, o)) == SetConn(w, c, w.conns[c].(local := ServeAll(w.conns[c].local, rs, o)))
    decreases rs
  {
    hide Serve, Request.Decoded, Oracle.Valid;
    OracleKeys(o);
    if rs == [] {
      assert w.conns == w.conns[c := w.conns[c]];
    } else {
      var w1 := Next(w, Begin(c, rs[0], o)).0;
      assert w1 == SetConn(w, c, w.conns[c].(local := Serve(w.conns[c].local, rs[0], o).0));
      assert Begins(c, rs, o)[0] == Begin(c, rs[0], o) && Begins(c, rs, o)[1..] == Begins(c, rs[1..], o);
      LocalRun(w1, c, rs[1..], o);
    }
  }

  /** C_OpenSession on a slot without GetObjects. */
  function Opening(c: nat, slot: uint64, o: Oracle): seq<Step> {
    [Begin(c, OpenSession(slot, 4), o), Continue(c, o)]
  }

  /** The first session of a new connection. */
  lemma FirstSession(w: World, c: nat, slot: uint64, o: Oracle)
    requires c in w.conns && w.conns[c].phase.Idle? && w.conns[c].local == FRESH_LOCAL && o.Valid()
    requires FindSlot(w.slots, slot).Ok? && !w.slots[FindSlot(w.slots, slot).value].dynamic
    ensures var v, objects := Exec(w, Opening(c, slot, o)), w.slots[FindSlot(w.slots, slot).value].objects;
            c in v.conns && v.conns[c].phase.Idle? && v.conns[c].local == One(Opened(objects, slot))
  {
    hide FindSlot, Oracle.Valid, FirstFree, Exec;
    FirstFreeIsNext(0, {});
    var a, b := Begin(c, OpenSession(slot, 4), o), Continue(c, o);
    var w1 := Next(w, a).0;
    ExecTwo(w, a, b);
    assert FRESH_LOCAL.sessions.Keys == {};
    assert w1.conns[c].local == FRESH_LOCAL && w1.conns[c].phase.Opening?;
    assert Next(w1, b) == FinishOpen(w1, c, o.dynamicObjects);
  }

  lemma ExecTwo(w: World, a: Step, b: Step)
    ensures Exec(w, [a, b]) == Next(Next(w, a).0, b).0
  {
    hide Next;
    assert [a, b][1..] == [b] && [b][1..] == [];
    assert Exec(Next(w, a).0, [b]) == Exec(Next(Next(w, a).0, b).0, []);
  }

  /** One session of a new connection, and local requests in it. */
  lemma FirstSessionRun(w: World, c: nat, slot: uint64, rs: seq<Request>, o: Oracle)
    requires c in w.conns && w.conns[c].phase.Idle? && w.conns[c].local == FRESH_LOCAL && o.Valid() && AllLocal(rs)
    requires FindSlot(w.slots, slot).Ok? && !w.slots[FindSlot(w.slots, slot).value].dynamic
    ensures var v := Exec(w, Opening(c, slot, o) + Begins(c, rs, o));
            var l := One(Opened(w.slots[FindSlot(w.slots, slot).value].objects, slot));
            c in v.conns && v.conns[c].phase.Idle? && o.keys.Valid() && v.conns[c].local == ServeAll(l, rs, o)
  {
    hide FindSlot, Oracle.Valid, Exec, ServeAll, Begins, Opening, AllLocal;
    OracleKeys(o);
    FirstSession(w, c, slot, o);
    ExecAppend(w, Opening(c, slot, o), Begins(c, rs, o));
    assert forall i :: 0 <= i < |rs| ==> rs[i].IsLocal() by { LocalOnes(rs); }
    LocalRun(Exec(w, Opening(c, slot, o)), c, rs, o);
  }

  lemma LocalOnes(rs: seq<Request>)
    requires AllLocal(rs)
    ensures forall i :: 0 <= i < |rs| ==> rs[i].IsLocal()
  {
  }

  /** Search, C_FindObjectsFinal, search again: the second search also returns the first one's
      matches, for any session on any slot without GetObjects. */
  lemma StaleSearch(w: World, c: nat, slot: uint64, first: seq<Attribute>, second: seq<Attribute>, count: uint32, o: Oracle)
    requires c in w.conns && w.conns[c].phase.Idle? && w.conns[c].local == FRESH_LOCAL && o.Valid()
    requires FindSlot(w.slots, slot).Ok? && !w.slots[FindSlot(w.slots, slot).value].dynamic
    requires AllWellTyped(first) && AllWellTyped(second)
    ensures var objects := w.slots[FindSlot(w.slots, slot).value].objects;
            var both := MatchIds(objects, first) + MatchIds(objects, second);
            var v := Exec(w, Opening(c, slot, o) + Begins(c, [FindObjectsInit(1, first), FindObjectsFinal(1), FindObjectsInit(1, second)], o));
            Next(v, Begin(c, FindObjects(1, count), o)).1 == Some(Ok(Ids(both[..Min(count, |both|)])))
  {
    hide FindSlot, Oracle.Valid, Exec, Opening, Begins, MatchIds, AllWellTyped, ServeAll;
    OracleKeys(o);
    var objects := w.slots[FindSlot(w.slots, slot).value].objects;
    FirstSessionRun(w, c, slot, [FindObjectsInit(1, first), FindObjectsFinal(1), FindObjectsInit(1, second)], o);
    SearchTwice(Opened(objects, slot), first, second, o);
    var both := MatchIds(objects, first) + MatchIds(objects, second);
    assert both[..|both|] == both;
  }

  lemma SearchTwice(s: Session, first: seq<Attribute>, second: seq<Attribute>, o: Oracle)
    requires o.keys.Valid() && s.findMatches == []
    ensures ServeAll(One(s), [FindObjectsInit(1, first), FindObjectsFinal(1), FindObjectsInit(1, second)], o) ==
            One(s.(findMatches := MatchIds(s.objects, first) + MatchIds(s.objects, second)))
  {
    hide Serve, ServeAll, MatchIds;
    var r1, r2, r3 := FindObjectsInit(1, first), FindObjectsFinal(1), FindObjectsInit(1, second);
    var s1 := s.(findMatches := MatchIds(s.objects, first));
    assert [] + MatchIds(s.objects, first) == MatchIds(s.objects, first);
    assert [r1, r2, r3] == [r1] + [r2, r3] && [r2, r3] == [r2] + [r3] && [r3] == [r3] + [];
    ServeOne(s, r1, [r2, r3], o);
    ServeOne(s1, r2, [r3], o);
    ServeOne(s1, r3, [], o);
    ServeNone(One(Left(s1, r3, o)), o);
  }

  lemma ServeNone(l: Local, o: Oracle)
    requires o.keys.Valid()
    ensures ServeAll(l, [], o) == l
  {
  }

  /** Sign in parts, then again with a new C_SignInit: the second signature is over both data. */
  lemma StaleSignature(w: World, c: nat, slot: uint64, key: uint64, m: Mechanism, first: Slice, second: Slice, o: Oracle)
    requires c in w.conns && w.conns[c].phase.Idle? && w.conns[c].local == FRESH_LOCAL && o.Valid()
    requires FindSlot(w.slots, slot).Ok? && !w.slots[FindSlot(w.slots, slot).value].dynamic
    requires FindObject(w.slots[FindSlot(w.slots, slot).value].objects, key).Ok?
    requires Supports(FindObject(w.slots[FindSlot(w.slots, slot).value].objects, key).value, m).Ok?
    ensures var obj := FindObject(w.slots[FindSlot(w.slots, slot).value].objects, key).value;
            var v := Exec(w, Opening(c, slot, o) + Begins(c, SignTwice(m, key, first, second), o));
            Next(v, Begin(c, SignFinal(1), o)).1 ==
            Some(match Sign(obj, m, first.Content() + second.Content(), o.signer) case Err(e) => Err(e) case Ok(sig) => Ok(Signature(sig)))
  {
    hide FindSlot, Oracle.Valid, Exec, Opening, Begins, FindObject, Supports, Sign, SignTwice, ServeAll;
    OracleKeys(o);
    var objects := w.slots[FindSlot(w.slots, slot).value].objects;
    FirstSessionRun(w, c, slot, SignTwice(m, key, first, second), o);
    SignedTwice(Opened(objects, slot), m, key, first, second, o);
  }

  lemma SignedTwice(s: Session, m: Mechanism, key: uint64, first: Slice, second: Slice, o: Oracle)
    requires o.keys.Valid() && s.signData == []
    requires FindObject(s.objects, key).Ok? && Supports(FindObject(s.objects, key).value, m).Ok?
    ensures ServeAll(One(s), SignTwice(m, key, first, second), o) ==
            One(s.(signMechanism := m, signObject := FindObject(s.objects, key).value, signData := first.Content() + second.Content()))
  {
    hide Serve, ServeAll, FindObject, Supports, Sign;
    var rs := SignTwice(m, key, first, second);
    var s1 := s.(signMechanism := m, signObject := FindObject(s.objects, key).value);
    var s2 := s1.(signData := first.Content());
    assert [] + first.Content() == first.Content();
    assert rs == [rs[0]] + rs[1..] && rs[1..] == [rs[1]] + rs[2..] && rs[2..] == [rs[2]] + rs[3..] && rs[3..] == [rs[3]] + rs[4..] && rs[4..] == [rs[4]] + [];
    ServeOne(s, rs[0], rs[1..], o);
    ServeOne(s1, rs[1], rs[2..], o);
    ServeOne(s2, rs[2], rs[3..], o);
    ServeOne(s2, rs[3], rs[4..], o);
    ServeOne(s2, rs[4], [], o);
    ServeNone(One(Left(s2, rs[4], o)), o);
  }

  function SignTwice(m: Mechanism, key: uint64, first: Slice, second: Slice): (rs: seq<Request>)
    ensures AllLocal(rs)
  {
    [SignInit(1, m, key), SignUpdate(1, first), SignFinal(1), SignInit(1, m, key), SignUpdate(1, second)]
  }
}

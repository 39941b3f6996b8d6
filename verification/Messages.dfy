/** Message framing and the Handle loop: one framed response per framed request, in order. */
module Messages {
  import opened Bytes
  import opened Wire
  import opened Buffers
  import opened Fields
  import opened Bodies
  import opened Objects
  import opened Handles
  import opened Sessions
  import opened Slots
  import opened Requests
  import opened Sizes
  import opened Handlers
  import opened Dispatch

  datatype Frame = Frame(id: uint32, body: BodyValue)

  datatype FrameRead = Framed(frame: Frame, rest: seq<byte>) | NoFrame

  /** The body's call, signature and fields. */
  function GetBody(b: seq<byte>): Option<BodyValue> {
    match GetU32(b)
    case Short(_) => None
    case Got(call, b1) =>
      match GetByteArray(b1)
      case Short(_) => None
      case Got(sig, fields) => Some(BodyValue(call, sig.Content(), fields, None))
  }

  /** readRequest: header, options (ignored) and body. */
  function GetFrame(input: seq<byte>): FrameRead {
    if |input| < 12 then NoFrame
    else
      var id, optsLen, buffLen := GetU32(input).value, GetU32(input[4..]).value, GetU32(input[8..]).value;
      var n := 12 + optsLen + buffLen;
      if |input| < n then NoFrame
      else
        match GetBody(input[12 + optsLen..n])
        case None => NoFrame
        case Some(body) => Framed(Frame(id, body), input[n..])
  }

  function PutBody(b: BodyValue): (s: seq<byte>)
    ensures |s| == BodySize(b)
  {
    U32(b.call) + PutByteArray(b.signature) + b.buffer
  }

  /** A message with any options; responses have none. */
  function PutFrame(id: uint32, opts: seq<byte>, b: BodyValue): (s: seq<byte>)
    ensures |s| == 12 + |opts| + |PutBody(b)|
  {
    U32(id) + U32(Length32(opts)) + U32(Length32(PutBody(b))) + opts + PutBody(b)
  }

  lemma BodyTrip(b: BodyValue)
    requires b.error.None? && |b.signature| < NULL_MARKER
    ensures GetBody(PutBody(b)) == Some(b)
  {
    hide GetU32, GetByteArray, U32, PutByteArray;
    assert PutBody(b) == U32(b.call) + (PutByteArray(b.signature) + b.buffer);
    U32RoundTrip(b.call, PutByteArray(b.signature) + b.buffer);
    ByteArrayRoundTrip(b.signature, b.buffer);
  }

  lemma Header(id: uint32, opts: seq<byte>, b: BodyValue, s: seq<byte>)
    ensures var t := PutFrame(id, opts, b) + s;
            && |t| >= 12 && GetU32(t).Got? && GetU32(t).value == id
            && GetU32(t[4..]).Got? && GetU32(t[4..]).value == Length32(opts)
            && GetU32(t[8..]).Got? && GetU32(t[8..]).value == Length32(PutBody(b))
            && t[12..] == opts + PutBody(b) + s
  {
    hide GetU32, PutBody, U32, BodySize;
    var t := PutFrame(id, opts, b) + s;
    var tail := opts + PutBody(b) + s;
    var t2 := U32(Length32(PutBody(b))) + tail;
    var t1 := U32(Length32(opts)) + t2;
    assert t == U32(id) + t1;
    U32RoundTrip(id, t1);
    U32RoundTrip(Length32(opts), t2);
    U32RoundTrip(Length32(PutBody(b)), tail);
    assert t[4..] == t1 && t1[4..] == t2 && t2[4..] == tail;
    assert t[8..] == t[4..][4..] && t[12..] == t[8..][4..];
  }

  /** A frame followed by anything reads back as itself, leaving exactly the rest, if and only if
      its options and its body each fit the 32-bit length fields. */
  lemma FrameRoundTrip(id: uint32, opts: seq<byte>, b: BodyValue, s: seq<byte>)
    requires b.error.None?
    ensures GetFrame(PutFrame(id, opts, b) + s) == Framed(Frame(id, b), s) <==> |opts| < TWO32 && |PutBody(b)| < TWO32
  {
    hide GetU32, GetBody, PutBody, PutFrame;
    var t := PutFrame(id, opts, b) + s;
    Header(id, opts, b, s);
    if |opts| < TWO32 && |PutBody(b)| < TWO32 {
      var n := 12 + |opts| + |PutBody(b)|;
      assert t[12..][|opts|..|opts| + |PutBody(b)|] == PutBody(b);
      assert t[12 + |opts|..n] == t[12..][|opts|..|opts| + |PutBody(b)|];
      assert t[n..] == t[12..][|opts| + |PutBody(b)|..] == s;
      BodyTrip(b);
    }
  }

  method ReadRequest(input: seq<byte>) returns (ok: bool, id: uint32, req: Body, rest: seq<byte>)
    ensures fresh(req) && fresh(req.buffer)
    ensures ok <==> GetFrame(input).Framed?
    ensures ok ==> GetFrame(input) == Framed(Frame(id, req.View()), rest)
  {
    hide GetU32, GetByteArray;
    id, rest := 0, [];
    req := new Body(0, [], []);
    if |input| < 12 {
      return false, id, req, rest;
    }
    var r := new Buffer(input);
    var optsLen, buffLen;
    var ok1, ok2, ok3;
    ok1, id := r.TakeUint32();
    ok2, optsLen := r.TakeUint32();
    ok3, buffLen := r.TakeUint32();
    HeaderReads(input);
    var n := (optsLen as int) + (buffLen as int);
    if |r.b| < n {
      return false, id, req, rest;
    }
    rest := r.b[n..];
    assert r.b == input[12..] && rest == input[12 + n..] && r.b[optsLen..n] == input[12 + optsLen..12 + n];
    var buff := new Buffer(r.b[optsLen..n]);
    var callID, sig;
    ok, callID := buff.TakeUint32();
    if !ok {
      return;
    }
    ok, sig := buff.TakeByteArray();
    if !ok {
      return;
    }
    req := new Body(callID, sig.Content(), buff.b);
  }

  lemma HeaderReads(input: seq<byte>)
    requires |input| >= 12
    ensures GetU32(input).Got? && GetU32(input).rest == input[4..]
    ensures GetU32(input[4..]).Got? && GetU32(input[4..]).rest == input[8..]
    ensures GetU32(input[8..]).Got? && GetU32(input[8..]).rest == input[12..]
  {
    assert input[4..][4..] == input[8..] && input[8..][4..] == input[12..];
  }

  method WriteResponse(id: uint32, body: Body) returns (out: seq<byte>)
    ensures out == PutFrame(id, [], body.View())
  {
    hide PutByteArray, U32;
    var bodyLen := 4 + 4 + |body.signature| + |body.buffer.b|;
    var b := new Buffer([]);
    b.AddUint32(id);
    b.AddUint32(0);
    b.AddUint32(bodyLen % TWO32);
    b.AddUint32(body.call);
    b.AddByteArray(body.signature);
    b.b := b.b + body.buffer.b;
    out := b.b;
    var v := body.View();
    Regroup(U32(id), U32(0), U32(bodyLen % TWO32), U32(body.call), PutByteArray(body.signature), body.buffer.b);
    assert Length32(PutBody(v)) == bodyLen % TWO32;
  }

  lemma Regroup(a: seq<byte>, b: seq<byte>, c: seq<byte>, d: seq<byte>, e: seq<byte>, f: seq<byte>)
    ensures [] + a + b + c + d + e + f == a + b + c + [] + (d + e + f)
  {
  }

  // ---------------------------------------------------------------- dispatch

  ghost function ViewOf(r: Outcome<Body>): Outcome<BodyValue>
    reads if r.Ok? then {r.value, r.value.buffer} else {}
  {
    if r.Err? then Err(r.error) else Ok(r.value.View())
  }

  /** The handlers map and its fallback; C_Finalize echoes its request. */
  method DispatchOne(h: Handler, req: Body, env: Environment) returns (r: Outcome<Body>)
    requires h.Valid() && env.Valid() && |h.sessions.Keys| < TWO64
    modifies h, h.sessions.Values, h.s, req, req.buffer
    ensures h.Valid() && fresh(h.sessions.Values - old(h.sessions.Values))
    ensures r.Ok? ==> r.value == req || (fresh(r.value) && fresh(r.value.buffer))
    ensures (h.Value(), h.s.slots, ViewOf(r)) == HandleOne(old(h.Value()), old(h.s.slots), old(req.View()), env)
  {
    hide ParseRequest, Requests.Perform, FieldsOf, Stateless, Oracle.Valid, Handler.Valid, Handler.Value;
    if req.call == CALL_FINALIZE {
      return Ok(req);
    }
    if Stateless(req.call) {
      var answer := env.stateless(req.View());
      if answer.Err? {
        return Err(answer.error);
      }
      var resp := new Body(req.call, answer.value.0, answer.value.1);
      return Ok(resp);
    }
    if FieldsOf(req.call) == [] {
      return Err(Pkcs11(CKR_FUNCTION_NOT_SUPPORTED));
    }
    r := DispatchStateful(h, req, env.oracle);
  }

  method DispatchStateful(h: Handler, req: Body, o: Oracle) returns (r: Outcome<Body>)
    requires h.Valid() && o.Valid() && |h.sessions.Keys| < TWO64 && FieldsOf(req.call) != []
    modifies h, h.sessions.Values, h.s, req, req.buffer
    ensures h.Valid() && fresh(h.sessions.Values - old(h.sessions.Values))
    ensures r.Ok? ==> fresh(r.value) && fresh(r.value.buffer)
    ensures var parsed := ParseRequest(old(req.View()));
            if parsed.Err? then (h.Value(), h.s.slots, ViewOf(r)) == (old(h.Value()), old(h.s.slots), Err(parsed.error))
            else
              var (l, slots, answer) := Requests.Perform(old(h.Value()), old(h.s.slots), parsed.value, o);
              (h.Value(), h.s.slots, ViewOf(r)) == (l, slots, if answer.Err? then Err(answer.error) else Ok(Render(req.call, answer.value)))
  {
    hide ParseRequest, Requests.Perform, FieldsOf, Oracle.Valid, Handler.Valid, Handler.Value, Render;
    assert o.keys.Valid() by { OracleKeys(o); }
    var request := ReadRequestBody(req);
    if request.Err? {
      return Err(request.error);
    }
    var answer := h.Perform(request.value, o);
    if answer.Err? {
      return Err(answer.error);
    }
    var resp := WriteAnswer(req.call, answer.value);
    return Ok(resp);
  }

  // ---------------------------------------------------------------- the loop

  /** The first n frames of a stream, and what follows them. */
  function Frames(input: seq<byte>, n: nat): Option<(seq<Frame>, seq<byte>)> {
    if n == 0 then Some(([], input))
    else
      match Frames(input, n - 1)
      case None => None
      case Some((frames, rest)) =>
        match GetFrame(rest)
        case NoFrame => None
        case Framed(frame, rest') => Some((frames + [frame], rest'))
  }

  lemma HandleOneGrowth(l: Local, slots: seq<Slot>, b: BodyValue, env: Environment)
    requires env.Valid() && |l.sessions.Keys| < TWO64
    ensures |HandleOne(l, slots, b, env).0.sessions.Keys| <= |l.sessions.Keys| + 1
  {
    hide ParseRequest, FieldsOf, Stateless, Oracle.Valid, Render, PersistAll, NewSession, InSession;
    var l' := HandleOne(l, slots, b, env).0;
    if l' != l {
      var r := ParseRequest(b).value;
      if r.IsLocal() {
        assert l'.sessions.Keys <= l.sessions.Keys;
        SubsetSize(l'.sessions.Keys, l.sessions.Keys);
      } else if r.GenerateKeyPair? {
        assert l'.sessions.Keys == l.sessions.Keys;
      } else {
        NewSessionGrowth(l, slots, r.slot, env.oracle.dynamicObjects);
      }
    }
  }

  lemma NewSessionGrowth(l: Local, slots: seq<Slot>, slot: uint64, dynamicObjects: Outcome<seq<Object>>)
    requires |l.sessions.Keys| < TWO64
    ensures |NewSession(l, slots, slot, dynamicObjects).0.sessions.Keys| <= |l.sessions.Keys| + 1
  {
    hide FindSlot, FirstFree;
    var l' := NewSession(l, slots, slot, dynamicObjects).0;
    if l' != l {
      assert l'.sessions.Keys == l.sessions.Keys + {l'.lastSessionID};
    }
  }

  /** Handling requests one after another; the i-th draws on env(i), which begins with what other
      connections did to the slots. */
  ghost function Replay(l: Local, slots: seq<Slot>, frames: seq<Frame>, env: nat -> Environment): (r: (Local, seq<Slot>, seq<Outcome<BodyValue>>))
    requires |l.sessions.Keys| + |frames| < TWO64 && forall i :: env(i).Valid()
    ensures |r.2| == |frames| && |r.0.sessions.Keys| <= |l.sessions.Keys| + |frames|
    decreases |frames|
  {
    if frames == [] then (l, slots, [])
    else
      var k := |frames| - 1;
      var (l1, slots1, outs) := Replay(l, slots, frames[..k], env);
      HandleOneGrowth(l1, env(k).others(slots1), frames[k].body, env(k));
      var (l2, slots2, out) := HandleOne(l1, env(k).others(slots1), frames[k].body, env(k));
      (l2, slots2, outs + [out])
  }

  /** Along a whole stream, whatever other connections do between its requests: the i-th request, if it
      ends in an error, leaves every session, the handle counter and every slot as it found them. */
  lemma {:induction false} ErrorsChangeNothing(l: Local, slots: seq<Slot>, frames: seq<Frame>, env: nat -> Environment, i: nat)
    requires |l.sessions.Keys| + |frames| < TWO64 && (forall j :: env(j).Valid()) && Resolved(l, slots) && i < |frames|
    ensures var (l1, slots1, _) := Replay(l, slots, frames[..i], env);
            var (l2, slots2, outs) := Replay(l, slots, frames[..i + 1], env);
            (outs[i].Err? ==> l2 == l1 && slots2 == env(i).others(slots1)) && Resolved(l2, slots2) && SlotsGrow(slots1, slots2)
    decreases i
  {
    hide HandleOne, Oracle.Valid, Resolved, Replay;
    var (l1, slots1, _) := Replay(l, slots, frames[..i], env);
    if i > 0 {
      ErrorsChangeNothing(l, slots, frames, env, i - 1);
    } else {
      assert frames[..0] == [];
      StartsServing(l, slots, [], env);
    }
    assert frames[..i + 1] == frames[..i] + [frames[i]];
    ReplayMore(l, slots, frames[..i], frames[i], env);
    StillResolved(l1, slots1, env(i).others(slots1));
    FailedRequest(l1, env(i).others(slots1), frames[i].body, env(i));
    GrowsTransitive(slots1, env(i).others(slots1), HandleOne(l1, env(i).others(slots1), frames[i].body, env(i)).1);
  }

  /** PKCS #11 errors are answered; other errors end the connection. */
  predicate Answerable(o: Outcome<BodyValue>) {
    o.Ok? || o.error.Pkcs11?
  }

  /** A client that reads one ulong from the body gets the code, and nothing is left over. */
  predicate IsErrorWith(b: BodyValue, code: uint64) {
    var (after, vs) := ReadFields([FUlong], b);
    b.call == 0 && after.Err().None? && vs == [VUlong(code)]
  }

  function AnswerOf(o: Outcome<BodyValue>): (b: BodyValue)
    requires Answerable(o)
    ensures o.Ok? ==> b == o.value
    ensures o.Err? ==> IsErrorWith(b, o.error.code)
  {
    if o.Ok? then o.value else ErrorDecodes(o.error.code); ErrorBody(o.error.code)
  }

  predicate AllAnswerable(outs: seq<Outcome<BodyValue>>) {
    forall i :: 0 <= i < |outs| ==> Answerable(outs[i])
  }

  /** The response frames, with the requests' message identifiers. */
  function Responses(frames: seq<Frame>, outs: seq<Outcome<BodyValue>>): (fs: seq<Frame>)
    requires |frames| == |outs| && AllAnswerable(outs)
    ensures |fs| == |frames|
  {
    seq(|frames|, i requires 0 <= i < |frames| => Frame(frames[i].id, AnswerOf(outs[i])))
  }

  function PutFrames(fs: seq<Frame>): seq<byte> {
    if fs == [] then [] else PutFrames(fs[..|fs| - 1]) + PutFrame(fs[|fs| - 1].id, [], fs[|fs| - 1].body)
  }

  /** How the loop ended: after C_Finalize, without another readable request, or with an error that
      is not a PKCS #11 code. */
  datatype End = Finalized | NoMoreRequests | Failed(error: Error)

  predicate NoneFinalize(frames: seq<Frame>) {
    forall i :: 0 <= i < |frames| ==> frames[i].body.call != CALL_FINALIZE
  }

  /** What Handle does to a stream: which requests it takes, and what it answers. */
  predicate Served(input: seq<byte>, frames: seq<Frame>, outs: seq<Outcome<BodyValue>>, output: seq<byte>, end: End) {
    && Frames(input, |frames|).Some? && Frames(input, |frames|).value.0 == frames
    && |outs| == |frames|
    && match end
       case NoMoreRequests =>
         && AllAnswerable(outs) && NoneFinalize(frames) && GetFrame(Frames(input, |frames|).value.1).NoFrame?
         && output == PutFrames(Responses(frames, outs))
       case Finalized =>
         && AllAnswerable(outs) && frames != [] && NoneFinalize(frames[..|frames| - 1]) && frames[|frames| - 1].body.call == CALL_FINALIZE
         && output == PutFrames(Responses(frames, outs))
       case Failed(e) =>
         && frames != [] && AllAnswerable(outs[..|outs| - 1]) && NoneFinalize(frames) && outs[|outs| - 1] == Err(e) && !e.Pkcs11?
         && output == PutFrames(Responses(frames[..|frames| - 1], outs[..|outs| - 1]))
  }

  /** The response to one request, or to the error it ended in. */
  method Respond(id: uint32, r: Outcome<Body>) returns (written: seq<byte>)
    requires Answerable(ViewOf(r))
    ensures written == PutFrame(id, [], AnswerOf(ViewOf(r)))
  {
    hide PutFrame;
    if r.Ok? {
      written := WriteResponse(id, r.value);
      return;
    }
    var resp := new Body(CALL_ERROR, [], []);
    resp.WriteUlong(r.error.code);
    ErrorView(r.error.code);
    written := WriteResponse(id, resp);
  }

  lemma ReplayMore(l: Local, slots: seq<Slot>, frames: seq<Frame>, frame: Frame, env: nat -> Environment)
    requires |l.sessions.Keys| + |frames| + 1 < TWO64 && forall i :: env(i).Valid()
    ensures var (l1, slots1, outs) := Replay(l, slots, frames, env);
            var (l2, slots2, out) := HandleOne(l1, env(|frames|).others(slots1), frame.body, env(|frames|));
            Replay(l, slots, frames + [frame], env) == (l2, slots2, outs + [out])
  {
    hide HandleOne, Oracle.Valid;
    assert (frames + [frame])[..|frames|] == frames;
  }

  /** The loop's state after some answered requests: what was taken from the input, what was written. */
  ghost predicate Progress(l0: Local, slots0: seq<Slot>, env: nat -> Environment, input: seq<byte>,
                           frames: seq<Frame>, outs: seq<Outcome<BodyValue>>, output: seq<byte>, rest: seq<byte>,
                           l: Local, slots: seq<Slot>) {
    && |l0.sessions.Keys| + |input| < TWO64 && (forall i :: env(i).Valid())
    && Frames(input, |frames|) == Some((frames, rest)) && |rest| + |frames| <= |input|
    && (l, slots, outs) == Replay(l0, slots0, frames, env)
    && AllAnswerable(outs) && NoneFinalize(frames)
    && output == PutFrames(Responses(frames, outs))
  }

  lemma ProgressRoom(l0: Local, slots0: seq<Slot>, env: nat -> Environment, input: seq<byte>,
                     frames: seq<Frame>, outs: seq<Outcome<BodyValue>>, output: seq<byte>, rest: seq<byte>, l: Local, slots: seq<Slot>)
    requires Progress(l0, slots0, env, input, frames, outs, output, rest, l, slots)
    ensures |l.sessions.Keys| + |rest| < TWO64
  {
    hide Frames, Oracle.Valid, PutFrames, Responses, AllAnswerable, NoneFinalize;
  }

  /** One more request answered; after C_Finalize the stream has been served. */
  lemma ProgressMore(l0: Local, slots0: seq<Slot>, env: nat -> Environment, input: seq<byte>,
                     frames: seq<Frame>, outs: seq<Outcome<BodyValue>>, output: seq<byte>, rest: seq<byte>, l: Local, slots: seq<Slot>,
                     frame: Frame, rest': seq<byte>, out: Outcome<BodyValue>, l': Local, slots': seq<Slot>)
    requires Progress(l0, slots0, env, input, frames, outs, output, rest, l, slots)
    requires GetFrame(rest) == Framed(frame, rest') && env(|frames|).Valid() && |l.sessions.Keys| < TWO64
    requires (l', slots', out) == HandleOne(l, env(|frames|).others(slots), frame.body, env(|frames|))
    ensures |l0.sessions.Keys| + |frames| + 1 < TWO64 && (forall i :: env(i).Valid())
    ensures (l', slots', outs + [out]) == Replay(l0, slots0, frames + [frame], env)
    ensures Frames(input, |frames + [frame]|) == Some((frames + [frame], rest')) && |rest'| < |rest|
    ensures Answerable(out) && frame.body.call != CALL_FINALIZE ==>
              Progress(l0, slots0, env, input, frames + [frame], outs + [out], output + PutFrame(frame.id, [], AnswerOf(out)), rest', l', slots')
    ensures Answerable(out) && frame.body.call == CALL_FINALIZE ==>
              Served(input, frames + [frame], outs + [out], output + PutFrame(frame.id, [], AnswerOf(out)), Finalized)
    ensures !Answerable(out) ==> Served(input, frames + [frame], outs + [out], output, Failed(out.error))
  {
    hide GetFrame, HandleOne, PutFrame, ErrorBody, Oracle.Valid, Replay, PutFrames, Frames, Responses;
    FrameShrinks(rest);
    Extended(input, frames, rest, frame, rest');
    ReplayMore(l0, slots0, frames, frame, env);
    assert (frames + [frame])[..|frames|] == frames && (outs + [out])[..|outs|] == outs;
    if Answerable(out) {
      OneMoreResponse(frames, outs, frame, out);
    } else {
      FinalizeSucceeds(l0, slots0, frames, frame, env);
    }
  }

  lemma ProgressDone(l0: Local, slots0: seq<Slot>, env: nat -> Environment, input: seq<byte>,
                     frames: seq<Frame>, outs: seq<Outcome<BodyValue>>, output: seq<byte>, rest: seq<byte>, l: Local, slots: seq<Slot>)
    requires Progress(l0, slots0, env, input, frames, outs, output, rest, l, slots) && GetFrame(rest).NoFrame?
    ensures Served(input, frames, outs, output, NoMoreRequests) && |l0.sessions.Keys| + |frames| < TWO64
    ensures (forall i :: env(i).Valid()) && (l, slots, outs) == Replay(l0, slots0, frames, env)
  {
    hide GetFrame, Oracle.Valid, Replay, PutFrames, Frames, Responses;
  }

  /** One turn of the loop: what was read, what became of it and what was written. While it waits for
      the request, other connections may change the slots. */
  datatype Turn = NothingRead | Answered(written: seq<byte>, rest: seq<byte>, call: uint32) | Broken(error: Error)

  method ServeNext(h: Handler, input: seq<byte>, env: Environment)
    returns (turn: Turn, ghost frame: Frame, ghost out: Outcome<BodyValue>)
    requires h.Valid() && env.Valid() && |h.sessions.Keys| < TWO64
    modifies h, h.sessions.Values, h.s
    ensures h.Valid() && fresh(h.sessions.Values - old(h.sessions.Values))
    ensures turn.NothingRead? <==> GetFrame(input).NoFrame?
    ensures turn.NothingRead? ==> h.Value() == old(h.Value()) && h.s.slots == old(h.s.slots)
    ensures !turn.NothingRead? ==>
              && GetFrame(input).Framed? && GetFrame(input).frame == frame
              && (h.Value(), h.s.slots, out) == HandleOne(old(h.Value()), env.others(old(h.s.slots)), frame.body, env)
    ensures turn.Answered? ==> Answerable(out) && turn == Answered(PutFrame(frame.id, [], AnswerOf(out)), GetFrame(input).rest, frame.body.call)
    ensures turn.Broken? ==> out == Err(turn.error) && !turn.error.Pkcs11?
  {
    hide GetFrame, HandleOne, PutFrame, AnswerOf, IsErrorWith, Oracle.Valid, Handler.Valid, Handler.Value, SlotsGrow;
    var ok, id, req, rest := ReadRequest(input);
    frame, out := Frame(id, req.View()), Err(UnexpectedEOF);
    if !ok {
      return NothingRead, frame, out;
    }
    var call := req.call;
    h.s.slots := env.others(h.s.slots);
    var r := DispatchOne(h, req, env);
    out := ViewOf(r);
    if r.Err? && !r.error.Pkcs11? {
      return Broken(r.error), frame, out;
    }
    var written := Respond(id, r);
    return Answered(written, rest, call), frame, out;
  }

  /** Handler.Handle after version negotiation. */
  method Handle(h: Handler, input: seq<byte>, env: nat -> Environment)
    returns (output: seq<byte>, end: End, ghost frames: seq<Frame>, ghost outs: seq<Outcome<BodyValue>>)
    requires h.Valid() && |h.sessions.Keys| + |input| < TWO64 && forall i :: env(i).Valid()
    modifies h, h.sessions.Values, h.s
    ensures h.Valid() && |old(h.Value()).sessions.Keys| + |frames| < TWO64
    ensures (h.Value(), h.s.slots, outs) == Replay(old(h.Value()), old(h.s.slots), frames, env)
    ensures Served(input, frames, outs, output, end)
  {
    hide GetFrame, HandleOne, PutFrame, AnswerOf, Oracle.Valid, Replay, Frames, Handler.Valid, Handler.Value, Progress, Served;
    output := [];
    frames, outs := [], [];
    var rest := input;
    var i: nat := 0;
    ghost var l0, slots0 := h.Value(), h.s.slots;
    SameKeys(h);
    StartsServing(l0, slots0, input, env);
    while true
      invariant h.Valid() && fresh(h.sessions.Values - old(h.sessions.Values)) && i == |frames|
      invariant Progress(l0, slots0, env, input, frames, outs, output, rest, h.Value(), h.s.slots)
      decreases |rest|
    {
      ProgressRoom(l0, slots0, env, input, frames, outs, output, rest, h.Value(), h.s.slots);
      SameKeys(h);
      ghost var l, slots := h.Value(), h.s.slots;
      ghost var frame, out;
      var turn;
      turn, frame, out := ServeNext(h, rest, env(i));
      if turn.NothingRead? {
        ProgressDone(l0, slots0, env, input, frames, outs, output, rest, l, slots);
        return output, NoMoreRequests, frames, outs;
      }
      ProgressMore(l0, slots0, env, input, frames, outs, output, rest, l, slots, frame, GetFrame(rest).rest, out, h.Value(), h.s.slots);
      frames, outs, i := frames + [frame], outs + [out], i + 1;
      if turn.Broken? {
        return output, Failed(turn.error), frames, outs;
      }
      output, rest := output + turn.written, turn.rest;
      if turn.call == CALL_FINALIZE {
        return output, Finalized, frames, outs;
      }
    }
  }

  lemma SameKeys(h: Handler)
    requires h.Valid()
    ensures h.Value().sessions.Keys == h.sessions.Keys
  {
  }

  lemma StartsServing(l: Local, slots: seq<Slot>, input: seq<byte>, env: nat -> Environment)
    requires |l.sessions.Keys| + |input| < TWO64 && forall i :: env(i).Valid()
    ensures Progress(l, slots, env, input, [], [], [], input, l, slots)
  {
    hide Oracle.Valid;
  }

  lemma FinalizeSucceeds(l: Local, slots: seq<Slot>, frames: seq<Frame>, frame: Frame, env: nat -> Environment)
    requires |l.sessions.Keys| + |frames| + 1 < TWO64 && forall i :: env(i).Valid()
    ensures frame.body.call == CALL_FINALIZE ==> Replay(l, slots, frames + [frame], env).2[|frames|].Ok?
  {
    hide Oracle.Valid;
    ReplayMore(l, slots, frames, frame, env);
  }

  lemma ErrorView(code: uint64)
    ensures BodyValue(CALL_ERROR, [] + Code(FUlong), [] + U64(code), None) == ErrorBody(code)
  {
    assert [] + Code(FUlong) == Code(FUlong) && [] + U64(code) == U64(code);
  }

  lemma FrameShrinks(input: seq<byte>)
    requires GetFrame(input).Framed?
    ensures |GetFrame(input).rest| < |input|
  {
    hide GetBody, GetU32;
    HeaderReads(input);
  }

  lemma Extended(input: seq<byte>, frames: seq<Frame>, rest: seq<byte>, frame: Frame, rest': seq<byte>)
    requires Frames(input, |frames|) == Some((frames, rest)) && GetFrame(rest) == Framed(frame, rest')
    ensures Frames(input, |frames + [frame]|) == Some((frames + [frame], rest'))
  {
    hide GetFrame;
  }

  lemma OneMoreResponse(frames: seq<Frame>, outs: seq<Outcome<BodyValue>>, frame: Frame, out: Outcome<BodyValue>)
    requires |frames| == |outs| && AllAnswerable(outs) && Answerable(out)
    ensures AllAnswerable(outs + [out])
    ensures PutFrames(Responses(frames + [frame], outs + [out])) == PutFrames(Responses(frames, outs)) + PutFrame(frame.id, [], AnswerOf(out))
  {
    hide PutFrame, ErrorBody;
    var fs := Responses(frames + [frame], outs + [out]);
    assert fs[..|fs| - 1] == Responses(frames, outs);
    assert fs[|fs| - 1] == Frame(frame.id, AnswerOf(out));
  }

  // ---------------------------------------------------------------- lockstep

  /** A message as a client sends it, with arbitrary options. */
  datatype Message = Message(frame: Frame, opts: seq<byte>) {
    predicate Fits() {
      frame.body.error.None? && |opts| < TWO32 && |PutBody(frame.body)| < TWO32
    }
  }

  function PutMessages(ms: seq<Message>): seq<byte> {
    if ms == [] then [] else PutMessages(ms[..|ms| - 1]) + PutFrame(ms[|ms| - 1].frame.id, ms[|ms| - 1].opts, ms[|ms| - 1].frame.body)
  }

  predicate AllFit(ms: seq<Message>) {
    forall i :: 0 <= i < |ms| ==> ms[i].Fits()
  }

  function FramesOf(ms: seq<Message>): (fs: seq<Frame>)
    ensures |fs| == |ms|
  {
    seq(|ms|, i requires 0 <= i < |ms| => ms[i].frame)
  }

  /** Any concatenation of messages parses back to the same frames in order. */
  lemma {:induction false} StreamRoundTrip(ms: seq<Message>, tail: seq<byte>)
    requires AllFit(ms)
    ensures Frames(PutMessages(ms) + tail, |ms|) == Some((FramesOf(ms), tail))
    decreases |ms|
  {
    hide GetFrame, PutFrame, Message.Fits;
    if ms == [] {
      assert PutMessages(ms) + tail == tail;
    } else {
      var init, last := ms[..|ms| - 1], ms[|ms| - 1];
      var bytes := PutFrame(last.frame.id, last.opts, last.frame.body);
      StreamRoundTrip(init, bytes + tail);
      assert PutMessages(ms) + tail == PutMessages(init) + (bytes + tail);
      assert last.Fits();
      LastTrip(last, tail);
      assert FramesOf(ms) == FramesOf(init) + [last.frame];
    }
  }

  lemma LastTrip(m: Message, tail: seq<byte>)
    requires m.Fits()
    ensures GetFrame(PutFrame(m.frame.id, m.opts, m.frame.body) + tail) == Framed(m.frame, tail)
  {
    hide GetFrame, PutFrame, PutBody;
    FrameRoundTrip(m.frame.id, m.opts, m.frame.body, tail);
  }

  lemma {:induction false} FramesPrefix(input: seq<byte>, m: nat, n: nat)
    requires m <= n && Frames(input, n).Some?
    ensures Frames(input, m).Some? && |Frames(input, n).value.0| == n && Frames(input, m).value.0 == Frames(input, n).value.0[..m]
    decreases n
  {
    hide GetFrame;
    if m < n {
      FramesPrefix(input, m, n - 1);
      FramesPrefix(input, n - 1, n - 1);
      assert Frames(input, n).value.0[..m] == Frames(input, n - 1).value.0[..m];
    } else {
      FramesLength(input, n);
      assert Frames(input, n).value.0[..n] == Frames(input, n).value.0;
    }
  }

  lemma {:induction false} FramesLength(input: seq<byte>, n: nat)
    requires Frames(input, n).Some?
    ensures |Frames(input, n).value.0| == n
  {
    hide GetFrame;
    if n > 0 {
      FramesLength(input, n - 1);
    }
  }

  /** The loop takes a client's requests in order, never more than were sent. */
  lemma RequestsInOrder(ms: seq<Message>, frames: seq<Frame>, outs: seq<Outcome<BodyValue>>, output: seq<byte>, end: End, tail: seq<byte>)
    requires AllFit(ms) && GetFrame(tail).NoFrame? && Served(PutMessages(ms) + tail, frames, outs, output, end)
    ensures |frames| <= |ms| && frames == FramesOf(ms)[..|frames|]
    ensures end.NoMoreRequests? ==> |frames| == |ms|
  {
    hide GetFrame, PutMessages, AllFit;
    var input := PutMessages(ms) + tail;
    StreamRoundTrip(ms, tail);
    if |frames| > |ms| {
      assert Frames(input, |ms| + 1) == None;
      FramesPrefix(input, |ms| + 1, |frames|);
    } else {
      FramesPrefix(input, |frames|, |ms|);
      if end.NoMoreRequests? && |frames| < |ms| {
        assert Frames(input, |frames| + 1) == None;
        FramesPrefix(input, |frames| + 1, |ms|);
      }
    }
  }

  function NoOptions(f: Frame): Message {
    Message(f, [])
  }

  lemma {:induction false} FramesAreMessages(fs: seq<Frame>)
    ensures PutFrames(fs) == PutMessages(seq(|fs|, i requires 0 <= i < |fs| => NoOptions(fs[i])))
  {
    hide PutFrame;
    if fs != [] {
      FramesAreMessages(fs[..|fs| - 1]);
      var ms := seq(|fs|, i requires 0 <= i < |fs| => NoOptions(fs[i]));
      assert ms[..|fs| - 1] == seq(|fs| - 1, i requires 0 <= i < |fs| - 1 => NoOptions(fs[..|fs| - 1][i]));
    }
  }

  predicate NoErrors(fs: seq<Frame>) {
    forall i :: 0 <= i < |fs| ==> fs[i].body.error.None?
  }

  predicate AllBodiesFit(fs: seq<Frame>) {
    forall i :: 0 <= i < |fs| ==> BodySize(fs[i].body) < TWO32
  }

  /** Whatever is read as a frame has a body that fits its length field. */
  lemma FrameFits(input: seq<byte>)
    requires GetFrame(input).Framed?
    ensures BodySize(GetFrame(input).frame.body) < TWO32
  {
    hide GetBody, GetU32;
    HeaderReads(input);
    var optsLen, buffLen := GetU32(input[4..]).value as int, GetU32(input[8..]).value as int;
    BodyLength(input[12 + optsLen..12 + optsLen + buffLen]);
  }

  lemma BodyLength(b: seq<byte>)
    requires GetBody(b).Some?
    ensures BodySize(GetBody(b).value) == |b|
  {
  }

  lemma {:induction false} FramesFit(input: seq<byte>, n: nat)
    requires Frames(input, n).Some?
    ensures AllBodiesFit(Frames(input, n).value.0)
  {
    hide GetFrame, BodySize;
    if n > 0 {
      FramesFit(input, n - 1);
      FrameFits(Frames(input, n - 1).value.1);
    }
  }

  /** A stream of response frames parses back to them if and only if each body fits its 32-bit
      length, which writeResponse truncates without a check. */
  lemma ResponsesRoundTrip(fs: seq<Frame>)
    requires NoErrors(fs)
    ensures Frames(PutFrames(fs), |fs|) == Some((fs, [])) <==> AllBodiesFit(fs)
  {
    hide GetFrame, PutBody, PutFrame, PutMessages, Frames, BodySize;
    if AllBodiesFit(fs) {
      var ms := seq(|fs|, i requires 0 <= i < |fs| => NoOptions(fs[i]));
      FramesAreMessages(fs);
      assert AllFit(ms);
      StreamRoundTrip(ms, []);
      assert FramesOf(ms) == fs;
      assert PutMessages(ms) + [] == PutMessages(ms);
    }
    if Frames(PutFrames(fs), |fs|) == Some((fs, [])) {
      FramesFit(PutFrames(fs), |fs|);
    }
  }

  lemma AnswerWellFormed(l: Local, slots: seq<Slot>, b: BodyValue, env: Environment)
    requires env.Valid() && |l.sessions.Keys| < TWO64 && b.error.None?
    ensures var out := HandleOne(l, slots, b, env).2; out.Ok? ==> out.value.error.None?
  {
    hide ParseRequest, Requests.Perform, FieldsOf, Stateless, Oracle.Valid;
  }

  lemma {:induction false} AnswersWellFormed(l: Local, slots: seq<Slot>, frames: seq<Frame>, env: nat -> Environment, i: nat)
    requires |l.sessions.Keys| + |frames| < TWO64 && (forall j :: env(j).Valid()) && i < |frames| && frames[i].body.error.None?
    ensures var out := Replay(l, slots, frames, env).2[i]; Answerable(out) ==> AnswerOf(out).error.None?
    decreases |frames|
  {
    hide HandleOne, Oracle.Valid;
    var k := |frames| - 1;
    if i < k {
      AnswersWellFormed(l, slots, frames[..k], env, i);
    } else {
      var (l1, slots1, _) := Replay(l, slots, frames[..k], env);
      AnswerWellFormed(l1, env(k).others(slots1), frames[k].body, env(k));
    }
  }

  lemma RequestWellFormed(ms: seq<Message>, i: nat)
    requires AllFit(ms) && i < |ms|
    ensures ms[i].frame.body.error.None?
  {
    hide PutBody;
    assert ms[i].Fits();
  }

  /** The i-th outcome is that of the i-th request in the state its predecessors left. */
  lemma {:induction false} OutcomeAt(l: Local, slots: seq<Slot>, frames: seq<Frame>, env: nat -> Environment, i: nat)
    requires |l.sessions.Keys| + |frames| < TWO64 && (forall j :: env(j).Valid()) && i < |frames|
    ensures var (l1, slots1, _) := Replay(l, slots, frames[..i], env);
            Replay(l, slots, frames, env).2[i] == HandleOne(l1, env(i).others(slots1), frames[i].body, env(i)).2
    decreases |frames|
  {
    hide HandleOne, Environment.Valid;
    var k := |frames| - 1;
    if i < k {
      OutcomeAt(l, slots, frames[..k], env, i);
      assert frames[..k][..i] == frames[..i];
    }
  }

  lemma CallAt(l: Local, slots: seq<Slot>, frames: seq<Frame>, env: nat -> Environment, i: nat)
    requires |l.sessions.Keys| + |frames| < TWO64 && (forall j :: env(j).Valid()) && i < |frames|
    ensures var out := Replay(l, slots, frames, env).2[i]; out.Ok? ==> out.value.call == frames[i].body.call
  {
    hide HandleOne, Environment.Valid, Replay;
    OutcomeAt(l, slots, frames, env, i);
  }

  /** The i-th answer fits if and only if the i-th request, where it was handled, is one that does. */
  lemma AnswerFitsAt(l: Local, slots: seq<Slot>, frames: seq<Frame>, env: nat -> Environment, i: nat)
    requires |l.sessions.Keys| + |frames| < TWO64 && (forall j :: env(j).Valid()) && i < |frames|
    requires Sized(env(i).oracle.signer) && Answerable(Replay(l, slots, frames, env).2[i])
    ensures BodySize(AnswerOf(Replay(l, slots, frames, env).2[i])) < TWO32 <==>
            ResponseFits(Replay(l, slots, frames[..i], env).0, frames[i].body, env(i))
  {
    hide HandleOne, Replay, ResponseFits, BodySize, ErrorBody, Sized;
    var (l1, slots1, _) := Replay(l, slots, frames[..i], env);
    OutcomeAt(l, slots, frames, env, i);
    var out := Replay(l, slots, frames, env).2[i];
    ResponseSize(l1, env(i).others(slots1), frames[i].body, env(i));
    if out.Err? {
      ErrorSize(out.error.code);
    }
  }

  /** Every response fits, judged from each request and the sessions it was handled in. */
  ghost predicate AllResponsesFit(l: Local, slots: seq<Slot>, frames: seq<Frame>, env: nat -> Environment, k: nat)
    requires |l.sessions.Keys| + |frames| < TWO64 && (forall i :: env(i).Valid()) && k <= |frames|
  {
    forall i :: 0 <= i < k ==> ResponseFits(Replay(l, slots, frames[..i], env).0, frames[i].body, env(i))
  }

  /** Lockstep. Feed the loop any sequence of messages, then anything that is not a frame: it answers
      the first k of them, and the output is exactly k response frames, the i-th with the i-th
      request's message identifier and either its outcome, under its call, or an error that a client
      reads as exactly the code of the outcome. All were
      answered unless C_Finalize or an error that is not a PKCS #11 code stopped it. The client can
      parse the output as those frames if and only if every request was one whose response fits. */
  lemma Lockstep(ms: seq<Message>, tail: seq<byte>, l: Local, slots: seq<Slot>, env: nat -> Environment,
                 frames: seq<Frame>, outs: seq<Outcome<BodyValue>>, output: seq<byte>, end: End)
    requires AllFit(ms) && GetFrame(tail).NoFrame? && Served(PutMessages(ms) + tail, frames, outs, output, end)
    requires |l.sessions.Keys| + |frames| < TWO64 && (forall i :: env(i).Valid()) && outs == Replay(l, slots, frames, env).2
    requires forall i :: Sized(env(i).oracle.signer)
    ensures var k := if end.Failed? then |frames| - 1 else |frames|;
            && 0 <= k <= |ms| && (end.NoMoreRequests? ==> k == |ms|) && frames[..k] == FramesOf(ms)[..k]
            && AllAnswerable(outs[..k])
            && var fs := Responses(frames[..k], outs[..k]);
               && output == PutFrames(fs)
               && (forall i :: 0 <= i < k ==>
                     && fs[i].id == ms[i].frame.id
                     && (outs[i].Ok? ==> fs[i].body == outs[i].value && fs[i].body.call == ms[i].frame.body.call)
                     && (outs[i].Err? ==> outs[i].error.Pkcs11? && IsErrorWith(fs[i].body, outs[i].error.code)))
               && (Frames(output, k) == Some((fs, [])) <==> AllResponsesFit(l, slots, frames, env, k))
  {
    hide GetFrame, PutMessages, AllFit, PutFrames, Frames, HandleOne, PutBody, BodySize, ErrorBody, Oracle.Valid, Environment.Valid, Replay, ResponseFits, Sized, IsErrorWith;
    RequestsInOrder(ms, frames, outs, output, end, tail);
    var k := if end.Failed? then |frames| - 1 else |frames|;
    assert frames[..k] == frames || end.Failed?;
    assert outs[..k] == outs || end.Failed?;
    var fs := Responses(frames[..k], outs[..k]);
    assert output == PutFrames(fs);
    forall i | 0 <= i < k
      ensures fs[i].body.error.None?
      ensures BodySize(fs[i].body) < TWO32 <==> ResponseFits(Replay(l, slots, frames[..i], env).0, frames[i].body, env(i))
      ensures fs[i].id == ms[i].frame.id
      ensures outs[i].Ok? ==> fs[i].body == outs[i].value && fs[i].body.call == ms[i].frame.body.call
      ensures outs[i].Err? ==> outs[i].error.Pkcs11? && IsErrorWith(fs[i].body, outs[i].error.code)
    {
      RequestWellFormed(ms, i);
      assert frames[i] == ms[i].frame && Answerable(outs[..k][i]);
      AnswersWellFormed(l, slots, frames, env, i);
      AnswerFitsAt(l, slots, frames, env, i);
      CallAt(l, slots, frames, env, i);
    }
    ResponsesRoundTrip(fs);
  }

  /** Lockstep fails: a request of 32,800 bytes, which is within every bound, whose response the
      client cannot parse. */
  lemma LockstepFails(id: uint32, slots: seq<Slot>, env: nat -> Environment)
    requires (forall i :: env(i).Valid()) && Sized(env(0).oracle.signer)
    ensures var frame := Frame(id, LARGE_REQUEST);
            && Message(frame, []).Fits() && |PutBody(LARGE_REQUEST)| == 32_800 && |LARGE_SESSION.sessions.Keys| + 1 < TWO64
            && var outs := Replay(LARGE_SESSION, slots, [frame], env).2;
               && AllAnswerable(outs)
               && Frames(PutFrames(Responses([frame], outs)), 1) != Some((Responses([frame], outs), []))
  {
    hide GetFrame, PutFrames, Frames, HandleOne, PutBody, ErrorBody, Environment.Valid, Replay, ResponseFits, LARGE_REQUEST, LARGE_SESSION, Sized;
    var frame := Frame(id, LARGE_REQUEST);
    OneSession();
    LargeAnswer(slots, env(0)) by { assert env(0).oracle.Valid() by { OracleOf(env(0)); } }
    LargeAnswer(env(0).others(slots), env(0)) by { assert env(0).oracle.Valid() by { OracleOf(env(0)); } }
    OutcomeAt(LARGE_SESSION, slots, [frame], env, 0);
    assert [frame][..0] == [];
    StartsServing(LARGE_SESSION, slots, [], env);
    var outs := Replay(LARGE_SESSION, slots, [frame], env).2;
    AnswerFitsAt(LARGE_SESSION, slots, [frame], env, 0);
    AnswersWellFormed(LARGE_SESSION, slots, [frame], env, 0);
    ResponsesRoundTrip(Responses([frame], outs));
    assert Responses([frame], outs)[0].body == AnswerOf(outs[0]);
  }

  lemma OneSession()
    ensures |LARGE_SESSION.sessions.Keys| == 1
  {
    assert LARGE_SESSION.sessions.Keys == {1};
  }

  lemma OracleOf(env: Environment)
    requires env.Valid()
    ensures env.oracle.Valid()
  {
  }
}

/** The slots all connections share, and token labels. */
module Slots {
  import opened Bytes
  import opened Fields
  import opened Objects
  import opened Sessions

  /** The fields of a slot that requests read or change. Dynamic slots have a GetObjects callback. */
  datatype Slot = Slot(id: uint64, text: seq<byte>, initialized: bool, objects: seq<Object>, dynamic: bool, info: TokenDetails)

  /** handler.slot: the first slot with the identifier. */
  function FindSlot(slots: seq<Slot>, id: uint64): (r: Outcome<nat>)
    ensures r.Ok? ==> r.value < |slots| && slots[r.value].id == id
    ensures r.Ok? <==> exists i :: 0 <= i < |slots| && slots[i].id == id
    ensures r.Err? ==> r.error == Pkcs11(CKR_SLOT_ID_INVALID)
  {
    if slots == [] then Err(Pkcs11(CKR_SLOT_ID_INVALID))
    else if slots[0].id == id then Ok(0)
    else
      match FindSlot(slots[1..], id)
      case Err(e) => assert forall i :: 0 <= i < |slots| - 1 ==> slots[1..][i] == slots[i + 1]; Err(e)
      case Ok(i) => Ok(i + 1)
  }

  /** How one slot may change: identity and kind never, objects only by appending, and a token's
      label only together with its one initialization. */
  predicate SlotGrows(s: Slot, t: Slot) {
    && t.id == s.id && t.dynamic == s.dynamic && t.info == s.info
    && s.objects <= t.objects
    && (s.initialized ==> t.initialized)
    && (s.initialized || !t.initialized ==> t.text == s.text)
  }

  predicate SlotsGrow(a: seq<Slot>, b: seq<Slot>) {
    |a| == |b| && forall i :: 0 <= i < |a| ==> SlotGrows(a[i], b[i])
  }

  lemma {:induction false} SameSlot(a: seq<Slot>, b: seq<Slot>, id: uint64)
    requires |a| == |b| && forall i :: 0 <= i < |a| ==> a[i].id == b[i].id
    ensures FindSlot(a, id) == FindSlot(b, id)
  {
    if a != [] {
      SameSlot(a[1..], b[1..], id);
    }
  }

  lemma GrowingSlots(a: seq<Slot>, b: seq<Slot>, id: uint64)
    requires SlotsGrow(a, b)
    ensures FindSlot(a, id) == FindSlot(b, id)
  {
    SameSlot(a, b, id);
  }

  lemma GrowsTransitive(a: seq<Slot>, b: seq<Slot>, c: seq<Slot>)
    requires SlotsGrow(a, b) && SlotsGrow(b, c)
    ensures SlotsGrow(a, c)
  {
    forall i | 0 <= i < |a| ensures SlotGrows(a[i], c[i]) {
      assert SlotGrows(a[i], b[i]) && SlotGrows(b[i], c[i]);
    }
  }

  /** t is s without its trailing spaces and NULs, and only those. */
  predicate TrimmedTo(s: seq<byte>, t: seq<byte>) {
    && t <= s
    && (t == [] || (t[|t| - 1] != 32 && t[|t| - 1] != 0))
    && forall i :: |t| <= i < |s| ==> s[i] == 32 || s[i] == 0
  }

  /** strings.TrimRight(s, " \x00") */
  function Trim(s: seq<byte>): (t: seq<byte>)
    ensures TrimmedTo(s, t)
  {
    if s != [] && (s[|s| - 1] == 32 || s[|s| - 1] == 0) then Trim(s[..|s| - 1]) else s
  }

  /** There is only one such prefix. */
  lemma TrimmedOnce(s: seq<byte>, t: seq<byte>, u: seq<byte>)
    requires TrimmedTo(s, t) && TrimmedTo(s, u)
    ensures t == u
  {
  }

  /** What a client does with a space-padded field. */
  function TrimSpaces(s: seq<byte>): seq<byte> {
    if s != [] && s[|s| - 1] == 32 then TrimSpaces(s[..|s| - 1]) else s
  }

  lemma {:induction false} TrimSpacesShorter(s: seq<byte>)
    ensures |TrimSpaces(s)| <= |s|
  {
    if s != [] && s[|s| - 1] == 32 {
      TrimSpacesShorter(s[..|s| - 1]);
    }
  }

  lemma {:induction false} TrimPadding(s: seq<byte>, k: nat)
    requires s == [] || s[|s| - 1] != 32
    ensures TrimSpaces(s + seq(k, i => 32)) == s
    decreases k
  {
    var p := s + seq(k, i => 32);
    if k == 0 {
      assert p == s;
    } else {
      assert p[..|p| - 1] == s + seq(k - 1, i => 32);
      TrimPadding(s, k - 1);
    }
  }
}

/** Session handle allocation (newSession): probing upward from the last handle, with uint64
    wraparound. */
module Handles {
  import opened Bytes

  function Candidate(last: uint64, k: nat): uint64 {
    (last + k) % TWO64
  }

  function Candidates(last: uint64, k: nat): set<uint64> {
    if k == 0 then {} else Candidates(last, k - 1) + {Candidate(last, k)}
  }

  /** id is the first handle after last, cyclically, that is not in use. */
  ghost predicate IsFirstFree(last: uint64, used: set<uint64>, id: uint64) {
    && id !in used
    && exists k: nat :: 1 <= k <= TWO64 && id == Candidate(last, k) && forall j :: 1 <= j < k ==> Candidate(last, j) in used
  }

  lemma CandidateOnce(last: uint64, j: nat, k: nat)
    requires 1 <= j < k <= TWO64
    ensures Candidate(last, j) != Candidate(last, k)
  {
  }

  lemma {:induction false} CandidatesRange(last: uint64, k: nat)
    ensures forall c :: c in Candidates(last, k) <==> exists j :: 1 <= j <= k && c == Candidate(last, j)
  {
    hide Candidate;
    if k > 0 {
      CandidatesRange(last, k - 1);
      forall c | c in Candidates(last, k) ensures exists j :: 1 <= j <= k && c == Candidate(last, j) {
        if c in Candidates(last, k - 1) {
          var j :| 1 <= j <= k - 1 && c == Candidate(last, j);
        } else {
          assert c == Candidate(last, k);
        }
      }
    }
  }

  lemma {:induction false} CandidatesCount(last: uint64, k: nat)
    requires k <= TWO64
    ensures |Candidates(last, k)| == k
  {
    hide Candidate;
    if k > 0 {
      CandidatesCount(last, k - 1);
      CandidatesRange(last, k - 1);
      forall j | 1 <= j <= k - 1 ensures Candidate(last, j) != Candidate(last, k) {
        CandidateOnce(last, j, k);
      }
    }
  }

  lemma SubsetSize<T>(a: set<T>, b: set<T>)
    requires a <= b
    ensures |a| <= |b|
    decreases a
  {
    if a != {} {
      var x :| x in a;
      SubsetSize(a - {x}, b - {x});
    }
  }

  /** Pigeonhole: with fewer than 2^64 handles in use, the first k candidates can all be in use
      only for k below 2^64, so probing must stop. */
  lemma ProbeStops(last: uint64, used: set<uint64>, k: nat)
    requires |used| < TWO64 && k <= TWO64
    requires forall j :: 1 <= j <= k ==> Candidate(last, j) in used
    ensures k < TWO64
  {
    CandidatesRange(last, k);
    CandidatesCount(last, k);
    SubsetSize(Candidates(last, k), used);
  }

  /** The loop of newSession. */
  function Probe(last: uint64, used: set<uint64>, k: nat): (id: uint64)
    requires |used| < TWO64 && 1 <= k <= TWO64
    requires forall j :: 1 <= j < k ==> Candidate(last, j) in used
    ensures IsFirstFree(last, used, id)
    decreases TWO64 - k
  {
    if Candidate(last, k) !in used then Candidate(last, k)
    else
      ProbeStops(last, used, k);
      Probe(last, used, k + 1)
  }

  function FirstFree(last: uint64, used: set<uint64>): (id: uint64)
    requires |used| < TWO64
    ensures IsFirstFree(last, used, id)
  {
    Probe(last, used, 1)
  }

  lemma FirstFreeUnique(last: uint64, used: set<uint64>, a: uint64, b: uint64)
    requires IsFirstFree(last, used, a) && IsFirstFree(last, used, b)
    ensures a == b
  {
    hide Candidate;
    var j: nat :| 1 <= j <= TWO64 && a == Candidate(last, j) && forall i :: 1 <= i < j ==> Candidate(last, i) in used;
    var k: nat :| 1 <= k <= TWO64 && b == Candidate(last, k) && forall i :: 1 <= i < k ==> Candidate(last, i) in used;
    assert j < k ==> Candidate(last, j) in used;
    assert k < j ==> Candidate(last, k) in used;
  }

  /** While no handle above the last one has been issued, the next handle is the next number. */
  lemma FirstFreeIsNext(last: uint64, used: set<uint64>)
    requires |used| < TWO64 && last + 1 < TWO64
    requires forall id :: id in used ==> id <= last
    ensures FirstFree(last, used) == last + 1
  {
    assert Candidate(last, 1) == last + 1;
  }

  /** The reserved handle 0 is issued exactly when the probe wraps: every handle above the last one
      is in use and 0 is not. */
  lemma ZeroIssued(last: uint64, used: set<uint64>)
    requires |used| < TWO64
    ensures FirstFree(last, used) == 0 <==> 0 !in used && forall id :: last < id < TWO64 ==> id in used
  {
    hide Candidate;
    WrapsAt(last, TWO64 - last);
    if 0 !in used && forall id :: last < id < TWO64 ==> id in used {
      forall j | 1 <= j < TWO64 - last ensures Candidate(last, j) in used {
        WrapsAt(last, j);
      }
      FirstFreeUnique(last, used, FirstFree(last, used), 0);
    }
    if FirstFree(last, used) == 0 {
      var k: nat :| 1 <= k <= TWO64 && 0 == Candidate(last, k) && forall j :: 1 <= j < k ==> Candidate(last, j) in used;
      WrapsAt(last, k);
      forall id | last < id < TWO64 ensures id in used {
        WrapsAt(last, id - last);
      }
    }
  }

  lemma WrapsAt(last: uint64, k: nat)
    requires 1 <= k <= TWO64
    ensures Candidate(last, k) == if last + k < TWO64 then last + k else last + k - TWO64
  {
  }
}

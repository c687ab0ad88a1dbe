/** The Redis bitmap that accelerates address allocation, and the loop that
    reconciles its candidates with the peer table. */
module AddressPool {

  const POOL_SIZE := 254

  // Hosts are the last octets handed out: bit 0 is host 2 and bit 253 is host 255.
  type Host = h: nat | 2 <= h <= 255 witness 2

  // Redis reads past the end of a string as clear bits.
  predicate Bit(bits: seq<bool>, i: nat) {
    i < |bits| && bits[i]
  }

  // SETBIT grows the string with clear bits when it must.
  function WithBit(bits: seq<bool>, i: nat, v: bool): (r: seq<bool>)
    ensures forall j: nat :: Bit(r, j) == if j == i then v else Bit(bits, j)
  {
    if i < |bits| then bits[i := v]
    else bits + seq(i - |bits|, _ => false) + [v]
  }

  function FirstClearFrom(bits: seq<bool>, from: nat): (p: nat)
    requires forall j: nat :: j < from ==> Bit(bits, j)
    ensures !Bit(bits, p) && from <= p
    ensures forall j: nat :: j < p ==> Bit(bits, j)
    decreases |bits| - from
  {
    if from < |bits| && bits[from] then FirstClearFrom(bits, from + 1) else from
  }

  function FirstClear(bits: seq<bool>): (p: nat)
    ensures !Bit(bits, p)
    ensures forall j: nat :: j < p ==> Bit(bits, j)
  {
    FirstClearFrom(bits, 0)
  }

  datatype Reservation = Reserved(host: Host) | Exhausted | LookupFailed

  /** The reconciliation loop from its given attempt on: draw a candidate from the bitmap and keep it
      if no live peer holds it. The lookup of attempt `failAt` fails, if that attempt is reached. */
  function Reserve(bits: seq<bool>, taken: set<Host>, attempt: nat, failAt: nat): (Reservation, seq<bool>)
    decreases POOL_SIZE - attempt
  {
    var bit := FirstClear(bits);
    if attempt >= POOL_SIZE || bit >= POOL_SIZE then (Exhausted, bits)
    else if attempt == failAt then (LookupFailed, WithBit(WithBit(bits, bit, true), bit, false))
    else if bit + 2 !in taken then (Reserved(bit + 2), WithBit(bits, bit, true))
    else Reserve(WithBit(bits, bit, true), taken, attempt + 1, failAt)
  }

  predicate Free(bits: seq<bool>, taken: set<Host>, h: Host) {
    !Bit(bits, h - 2) && h !in taken
  }

  // The bitmap `after` is `before` with every bit up to and including `last` set.
  ghost predicate FilledUpTo(before: seq<bool>, after: seq<bool>, last: int) {
    forall j: nat :: Bit(after, j) == (Bit(before, j) || j <= last)
  }

  // What the loop owes its caller when no lookup fails.
  ghost predicate LeastFree(bits: seq<bool>, taken: set<Host>, r: Reservation, after: seq<bool>) {
    match r
    case Reserved(host) =>
      && Free(bits, taken, host)
      && (forall h: Host :: Free(bits, taken, h) ==> host <= h)
      && FilledUpTo(bits, after, host - 2)
    case Exhausted =>
      && (forall h: Host :: !Free(bits, taken, h))
      && (forall j: nat :: Bit(after, j) == (Bit(bits, j) || j < POOL_SIZE))
    case LookupFailed => false
  }

  // A failed lookup gives its candidate back: every bit below the candidate is marked, the rest is as
  // it was, and no free host was passed over.
  ghost predicate CandidateReturned(bits: seq<bool>, taken: set<Host>, after: seq<bool>) {
    var candidate := FirstClear(after);
    && candidate < POOL_SIZE
    && FilledUpTo(bits, after, candidate - 1)
    && forall h: Host :: h < candidate + 2 ==> !Free(bits, taken, h)
  }

  // Every free host stays unmarked.
  ghost predicate KeepsFree(bits: seq<bool>, taken: set<Host>, after: seq<bool>) {
    forall h: Host :: Free(bits, taken, h) ==> !Bit(after, h - 2)
  }

  lemma ReturnedKeepsFree(bits: seq<bool>, taken: set<Host>, after: seq<bool>)
    requires CandidateReturned(bits, taken, after)
    ensures KeepsFree(bits, taken, after)
  {
  }

  lemma ReleasedKeepsFree(bits: seq<bool>, taken: set<Host>, h: Host, after: seq<bool>)
    requires LeastFree(bits, taken, Reserved(h), after)
    ensures KeepsFree(bits, taken, WithBit(after, h - 2, false))
  {
  }

  lemma MarkingLiveCandidate(bits: seq<bool>, taken: set<Host>, marked: seq<bool>)
    requires FirstClear(bits) < POOL_SIZE && FirstClear(bits) + 2 in taken
    requires marked == WithBit(bits, FirstClear(bits), true)
    ensures FirstClear(marked) > FirstClear(bits)
    ensures forall h: Host :: Free(marked, taken, h) <==> Free(bits, taken, h)
    ensures forall j: nat :: Bit(marked, j) == (Bit(bits, j) || j == FirstClear(bits))
    ensures forall j: nat :: j <= FirstClear(bits) ==> Bit(marked, j)
  {
  }

  lemma WidenLeastFree(bits: seq<bool>, taken: set<Host>, marked: seq<bool>, r: Reservation, after: seq<bool>)
    requires forall h: Host :: Free(marked, taken, h) <==> Free(bits, taken, h)
    requires forall j: nat :: Bit(marked, j) == (Bit(bits, j) || j == FirstClear(bits))
    requires FirstClear(bits) < POOL_SIZE
    requires forall j: nat :: j <= FirstClear(bits) ==> Bit(marked, j)
    requires LeastFree(marked, taken, r, after)
    ensures LeastFree(bits, taken, r, after)
  {
    if r.Reserved? {
      assert !Bit(marked, r.host - 2);
    }
  }

  /** Allocation refines "least free host": unless a lookup fails, the loop finds the least host that is
      neither marked nor live, fails exactly when there is none, never needs more than the pool's 254
      attempts, and marks exactly the bits up to its answer. */
  lemma {:induction false} ReserveFindsLeastFree(bits: seq<bool>, taken: set<Host>, attempt: nat, failAt: nat)
    requires attempt <= FirstClear(bits) && !Reserve(bits, taken, attempt, failAt).0.LookupFailed?
    ensures LeastFree(bits, taken, Reserve(bits, taken, attempt, failAt).0, Reserve(bits, taken, attempt, failAt).1)
    decreases POOL_SIZE - attempt
  {
    hide WithBit;
    var bit := FirstClear(bits);
    var (r, after) := Reserve(bits, taken, attempt, failAt);
    if attempt >= POOL_SIZE || bit >= POOL_SIZE {
    } else if bit + 2 !in taken {
      assert r == Reserved(bit + 2);
      assert FilledUpTo(bits, after, bit);
    } else {
      var marked := WithBit(bits, bit, true);
      MarkingLiveCandidate(bits, taken, marked);
      ReserveFindsLeastFree(marked, taken, attempt + 1, failAt);
      WidenLeastFree(bits, taken, marked, r, after);
    }
  }

  lemma {:induction false} ReserveReturnsCandidate(bits: seq<bool>, taken: set<Host>, attempt: nat, failAt: nat)
    requires attempt <= FirstClear(bits)
    requires Reserve(bits, taken, attempt, failAt).0.LookupFailed?
    ensures attempt <= failAt < POOL_SIZE
    ensures CandidateReturned(bits, taken, Reserve(bits, taken, attempt, failAt).1)
    decreases POOL_SIZE - attempt
  {
    var bit := FirstClear(bits);
    var after := Reserve(bits, taken, attempt, failAt).1;
    if attempt == failAt {
      assert forall j: nat :: Bit(after, j) == Bit(bits, j);
      assert FirstClear(after) == bit;
    } else {
      var marked := WithBit(bits, bit, true);
      MarkingLiveCandidate(bits, taken, marked);
      ReserveReturnsCandidate(marked, taken, attempt + 1, failAt);
      assert !Bit(marked, FirstClear(after));
    }
  }
}

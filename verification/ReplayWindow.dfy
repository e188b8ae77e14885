/**
 The sliding replay window of a datagram session. The 64-bit word kept by the
 receiver is proved to be an exact picture of the set of all sequences it has
 ever accepted, seen through a window below the highest one.
 */
module ReplayWindow {
  import opened Words

  const REPLAY_BITS: nat := 64

  /**
   What the window is for: a sequence is admitted when it is not zero, was
   never admitted before, and is not 64 or more places below the highest
   admitted one.
   */
  predicate Reaches(seen: uint64, sequence: uint64) {
    seen <= sequence || seen - sequence < REPLAY_BITS
  }

  ghost predicate Admits(accepted: set<uint64>, sequence: uint64) {
    && sequence != 0
    && sequence !in accepted
    && forall s :: s in accepted ==> Reaches(s, sequence)
  }

  /** The accepted set after a run of arrivals, and the verdict on each of them. */
  ghost function AcceptedAfter(accepted: set<uint64>, arrivals: seq<uint64>): set<uint64> {
    if arrivals == [] then accepted
    else
      var before := AcceptedAfter(accepted, arrivals[..|arrivals| - 1]);
      var last := arrivals[|arrivals| - 1];
      if Admits(before, last) then before + {last} else before
  }

  ghost predicate AdmittedAt(arrivals: seq<uint64>, i: nat)
    requires i < |arrivals|
  {
    Admits(AcceptedAfter({}, arrivals[..i]), arrivals[i])
  }

  lemma {:induction false} AcceptedGrows(arrivals: seq<uint64>, i: nat, j: nat)
    requires i <= j <= |arrivals|
    ensures AcceptedAfter({}, arrivals[..i]) <= AcceptedAfter({}, arrivals[..j])
    decreases j
  {
    if i < j {
      assert arrivals[..j][..j - 1] == arrivals[..j - 1];
      AcceptedGrows(arrivals, i, j - 1);
    }
  }

  /** No sequence is accepted twice in any run. */
  lemma {:induction false} NeverAcceptedTwice(arrivals: seq<uint64>, i: nat, j: nat)
    requires i < j < |arrivals| && arrivals[i] == arrivals[j]
    ensures !(AdmittedAt(arrivals, i) && AdmittedAt(arrivals, j))
  {
    if AdmittedAt(arrivals, i) {
      assert arrivals[..i + 1][..i] == arrivals[..i];
      assert arrivals[i] in AcceptedAfter({}, arrivals[..i + 1]);
      AcceptedGrows(arrivals, i + 1, j);
    }
  }

  /** A sequence is in the accepted set exactly when one of its arrivals was admitted. */
  lemma {:induction false} AcceptedIffAdmitted(arrivals: seq<uint64>, n: nat, sequence: uint64)
    requires n <= |arrivals|
    ensures sequence in AcceptedAfter({}, arrivals[..n])
       <==> exists i :: 0 <= i < n && arrivals[i] == sequence && AdmittedAt(arrivals, i)
  {
    if n > 0 {
      assert arrivals[..n][..n - 1] == arrivals[..n - 1];
      AcceptedIffAdmitted(arrivals, n - 1, sequence);
      assert sequence in AcceptedAfter({}, arrivals[..n]) <==>
        sequence in AcceptedAfter({}, arrivals[..n - 1]) || (sequence == arrivals[n - 1] && AdmittedAt(arrivals, n - 1));
    }
  }

  /** Every fresh arrival less than 64 places below all earlier ones is accepted. */
  lemma {:induction false} FreshInWindowAccepted(arrivals: seq<uint64>, i: nat)
    requires i < |arrivals| && arrivals[i] != 0
    requires forall j :: 0 <= j < i ==> arrivals[j] != arrivals[i] && arrivals[j] as int < arrivals[i] as int + 64
    ensures AdmittedAt(arrivals, i)
  {
    forall s | s in AcceptedAfter({}, arrivals[..i])
      ensures s != arrivals[i] && Reaches(s, arrivals[i])
    {
      AcceptedIffAdmitted(arrivals, i, s);
    }
  }

  class Window {
    var initialized: bool
    var highest: uint64
    var seen: Word
    ghost var accepted: set<uint64>

    /** The word is a picture of the accepted set, seen downwards from the highest member. */
    ghost predicate Pictures()
      reads this
    {
      forall d: nat :: d < REPLAY_BITS ==> (seen[d] <==> highest - d in accepted)
    }

    ghost predicate Valid()
      reads this
    {
      && (!initialized ==> accepted == {})
      && (initialized ==>
            && highest in accepted
            && 0 !in accepted
            && (forall s :: s in accepted ==> s <= highest)
            && Pictures())
    }

    constructor ()
      ensures Valid() && accepted == {}
    {
      initialized, highest, seen, accepted := false, 0, ZERO, {};
    }

    method Accept(sequence: uint64) returns (ok: bool)
      requires Valid()
      modifies this
      ensures Valid()
      ensures ok <==> Admits(old(accepted), sequence)
      ensures ok <==> sequence != 0 && sequence !in old(accepted) && forall s :: s in old(accepted) ==> s < sequence + 64
      ensures accepted == if ok then old(accepted) + {sequence} else old(accepted)
    {
      if sequence == 0 {
        return false;
      }
      if !initialized {
        initialized, highest := true, sequence;
        seen := ONE;
        accepted := {sequence};
        return true;
      }
      if sequence > highest {
        var shift := sequence - highest;
        if shift >= REPLAY_BITS {
          seen := ONE;
        } else {
          seen := Or(Shl(seen, shift), ONE);
        }
        highest := sequence;
        accepted := accepted + {sequence};
        return true;
      }
      var distance := highest - sequence;
      if distance >= REPLAY_BITS {
        return false;
      }
      var bit := Shl(ONE, distance);
      if And(seen, bit) != ZERO {
        assert seen[distance];
        return false;
      }
      assert !seen[distance] by {
        assert !And(seen, bit)[distance];
      }
      seen := Or(seen, bit);
      accepted := accepted + {sequence};
      return true;
    }
  }
}

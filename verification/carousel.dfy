/**
  The rotating security messages of the issuer page: an index into a fixed
  list of six sentences, advanced by one, wrapping, on every timer tick.
  Only the step is modelled; the 15-second interval that drives it is not.
 */
module Carousel {

  /** The English keys of the six reassurance sentences, in display order. */
  const InfoMessageKeys: seq<string> := [
    "All passwords are encrypted before storage and are only available to those with the secret link.",
    "Once expired, encrypted passwords are deleted from the database.",
    "The system ensures maximum security through end-to-end encryption.",
    "Your data is protected with the highest digital security standards.",
    "Passwords are generated using secure and random algorithms.",
    "No personal information is stored on our servers."
  ]

  const MessageCount: nat := |InfoMessageKeys|

  /** The index the carousel starts from. */
  const Start: nat := 0

  /** One timer tick: `(i + 1) % infoMessages.length`. */
  function Next(i: nat): (j: nat)
    ensures j < MessageCount
    ensures i < MessageCount - 1 ==> j == i + 1
    ensures i == MessageCount - 1 ==> j == 0
  {
    (i + 1) % MessageCount
  }

  /** The index after `n` ticks from `i`. */
  function Advance(i: nat, n: nat): nat {
    if n == 0 then i else Next(Advance(i, n - 1))
  }

  /** Ticking `n` times from a valid index moves it `n` places around the cycle. */
  lemma {:induction false} AdvanceIsModular(i: nat, n: nat)
    requires i < MessageCount
    ensures Advance(i, n) == (i + n) % MessageCount
  {
    if n > 0 {
      AdvanceIsModular(i, n - 1);
      var k := Advance(i, n - 1);
      assert k == (i + n - 1) % MessageCount;
      assert (k + 1) % MessageCount == (i + n) % MessageCount;
    }
  }

  /** Six ticks bring every valid index back to itself. */
  lemma FullCycle(i: nat)
    requires i < MessageCount
    ensures Advance(i, MessageCount) == i
  {
    AdvanceIsModular(i, MessageCount);
  }

  /** From the start, after `n` ticks the index is `n % 6`, so it always stays in range. */
  lemma IndexFromStart(n: nat)
    ensures Advance(Start, n) == n % MessageCount
    ensures Advance(Start, n) < MessageCount
  {
    AdvanceIsModular(Start, n);
  }
}

/** Counting the calls that a limiter let through. */
module Admissions {
  /** How many of the calls i..j that are meant were answered yes. */
  function Granted<C>(answers: seq<bool>, calls: seq<C>, meant: C -> bool, i: nat, j: nat): nat
    requires i <= j <= |calls| == |answers|
    decreases j - i
  {
    if i == j then 0 else (if meant(calls[i]) && answers[i] then 1 else 0) + Granted(answers, calls, meant, i + 1, j)
  }

  lemma {:induction false} GrantedTail<C>(answers: seq<bool>, calls: seq<C>, meant: C -> bool, i: nat, j: nat)
    requires 1 <= i <= j <= |calls| == |answers|
    ensures Granted(answers, calls, meant, i, j) == Granted(answers[1..], calls[1..], meant, i - 1, j - 1)
    decreases j - i
  {
    if i < j { GrantedTail(answers, calls, meant, i + 1, j); }
  }
}

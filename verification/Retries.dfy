/** A bounded number of attempts: each ends the run or hands a new state to the next one. */
module Retries {
  datatype Progress<S, R> = Over(result: R) | Again(state: S)

  /** Attempts i, i+1, ..., n-1; `giveUp` says what comes of the state after the last. */
  function Retry<S, R>(step: (S, nat) -> Progress<S, R>, giveUp: S -> R, s: S, i: nat, n: nat): R
    requires i < n
    decreases n - i
  {
    match step(s, i)
    case Over(r) => r
    case Again(next) => if i + 1 == n then giveUp(next) else Retry(step, giveUp, next, i + 1, n)
  }

  /** From related states, an attempt of one run and one of the other both end with matching results
      or lead to related states. */
  ghost predicate Agree<S(!new), A(!new), R, B>(
      step: (S, nat) -> Progress<S, R>, giveUp: S -> R, other: (A, nat) -> Progress<A, B>, otherGiveUp: A -> B,
      related: (S, A, nat) -> bool, same: (R, B) -> bool, n: nat)
  {
    && (forall s, a, i: nat :: i < n && related(s, a, i) ==> AgreeAt(step(s, i), other(a, i), related, same, i))
    && (forall s, a :: related(s, a, n) ==> same(giveUp(s), otherGiveUp(a)))
  }

  predicate AgreeAt<S, A, R, B>(
      p: Progress<S, R>, q: Progress<A, B>, related: (S, A, nat) -> bool, same: (R, B) -> bool, i: nat)
  {
    match (p, q)
    case (Over(r), Over(b)) => same(r, b)
    case (Again(s), Again(a)) => related(s, a, i + 1)
    case _ => false
  }

  /** Then the two runs end with matching results. */
  lemma {:induction false} Simulates<S(!new), A(!new), R, B>(
      step: (S, nat) -> Progress<S, R>, giveUp: S -> R, other: (A, nat) -> Progress<A, B>, otherGiveUp: A -> B,
      related: (S, A, nat) -> bool, same: (R, B) -> bool, s: S, a: A, i: nat, n: nat)
    requires Agree(step, giveUp, other, otherGiveUp, related, same, n) && i < n && related(s, a, i)
    ensures same(Retry(step, giveUp, s, i, n), Retry(other, otherGiveUp, a, i, n))
    decreases n - i
  {
    assert AgreeAt(step(s, i), other(a, i), related, same, i);
    if step(s, i).Again? && i + 1 < n {
      Simulates(step, giveUp, other, otherGiveUp, related, same, step(s, i).state, other(a, i).state, i + 1, n);
    }
  }
}

/**
  The two semaphore implementations behind cdda_waitsem and cdda_postsem.

  `Binary` is the mutex-and-condition form of the threads build: a post writes 1
  and a wait writes 0.  `Counting(max)` is the System V form: a post that would
  pass `max` fails with ERANGE, after which the caller sets the value to 0 and
  tries again.  Attempt, reset and retry are separate steps, so another thread
  may run between them.
 */
module Semaphores {

  datatype Backend = Binary | Counting(max: nat)

  predicate ValidBackend(b: Backend) {
    b.Counting? ==> b.max >= 2
  }

  /** Result of one step inside a post: the semaphore, whether the caller has
      just seen ERANGE, and whether the post has returned. */
  datatype PostResult = PostResult(v: nat, erange: bool, returned: bool)

  function PostStep(b: Backend, v: nat, erange: bool): PostResult {
    match b
    case Binary => PostResult(1, false, true)
    case Counting(max) =>
      if erange then PostResult(0, false, false)
      else if v >= max then PostResult(v, true, false)
      else PostResult(v + 1, false, true)
  }

  /** Value after a wait that found a token; a wait without one does not return. */
  function WaitValue(b: Backend, v: nat): nat {
    if b.Binary? || v == 0 then 0 else v - 1
  }

  /** Own steps a thread still needs to finish a post. */
  function PostStepsLeft(b: Backend, v: nat, erange: bool): nat {
    if b.Binary? then 1
    else if erange then 2
    else if v >= b.max then 3
    else 1
  }

  /** Under both implementations a post that returns leaves a token behind, adds
      at most one, and one that does not return gets closer to returning. */
  lemma PostAlwaysLeavesAToken(b: Backend, v: nat, erange: bool)
    requires ValidBackend(b)
    ensures var p := PostStep(b, v, erange);
            && (p.returned ==> 1 <= p.v <= v + 1 && !p.erange)
            && (!p.returned ==> p.v <= v)
            && (!p.returned ==> PostStepsLeft(b, p.v, p.erange) < PostStepsLeft(b, v, erange))
  {
  }
}

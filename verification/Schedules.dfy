// A cron schedule as the parser hands it out: a function giving the first
// activation strictly after an instant, or none (internal/core/schedule.go).

module Schedules {

  datatype Option<+T> = None | Some(value: T)

  type Next = int -> Option<int>

  /** next answers for some fixed set of activations. */
  ghost predicate IsSchedule(next: Next) {
    (forall t :: next(t).Some? ==> next(t).value > t)
    && (forall t, u | t <= u && next(t).Some? && u < next(t).value :: next(u) == next(t))
    && (forall t, u | t <= u && next(t).None? :: next(u).None?)
  }

  ghost predicate Activation(next: Next, a: int) { next(a - 1) == Some(a) }

  lemma NextIsActivation(next: Next, t: int)
    requires IsSchedule(next) && next(t).Some?
    ensures Activation(next, next(t).value)
    ensures forall a | t < a < next(t).value :: !Activation(next, a)
  {
  }
}

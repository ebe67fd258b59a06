/** The HUD's one-shot timers. Each timer role (grace, minimum show time, delayed
    hide) is a property that refers to at most one timer. Assigning a new timer to
    the property does not invalidate the one it referred to: that timer stays
    scheduled on the run loop and still fires, but the HUD can no longer cancel it. */
module Timers {
  import opened Basics

  /** A scheduled one-shot timer: its interval and, for the delayed-hide timer,
      the `animated` flag it carries as user info (false for the other roles). */
  datatype Timer = Timer(interval: real, animated: bool)

  /** One timer role: the timer the property refers to, if it is still pending,
      and the timers that are still pending but no longer referred to. */
  datatype TimerSlot = TimerSlot(current: Option<Timer>, unreferenced: seq<Timer>)

  const NoTimers: TimerSlot := TimerSlot(None, [])

  function CurrentSet(s: TimerSlot): multiset<Timer>
  {
    if s.current.Some? then multiset{s.current.value} else multiset{}
  }

  /** Every timer of this role that will still fire. */
  function Scheduled(s: TimerSlot): multiset<Timer>
  {
    multiset(s.unreferenced) + CurrentSet(s)
  }

  /** `RunLoop.current.add(timer)` followed by `slot = timer`. */
  function Replace(s: TimerSlot, t: Timer): (r: TimerSlot)
    ensures r.current == Some(t)
  {
    var keep := if s.current.Some? then [s.current.value] else [];
    TimerSlot(Some(t), s.unreferenced + keep)
  }

  /** Replacing adds the new timer to what will fire and takes nothing away: the
      timer referred to before is still pending. */
  lemma ReplaceKeepsPending(s: TimerSlot, t: Timer)
    ensures Scheduled(Replace(s, t)) == Scheduled(s) + multiset{t}
    ensures s.current.Some? ==> s.current.value in Scheduled(Replace(s, t))
  {
  }

  /** `slot?.invalidate()`: the referred timer will not fire; the others still will. */
  function Invalidate(s: TimerSlot): (r: TimerSlot)
    ensures r.current == None && r.unreferenced == s.unreferenced
  {
    TimerSlot(None, s.unreferenced)
  }

  /** Invalidating cancels exactly the referred timer. */
  lemma InvalidateCancelsCurrent(s: TimerSlot)
    ensures Scheduled(Invalidate(s)) == Scheduled(s) - CurrentSet(s)
  {
  }

  /** Which pending timer of a role the run loop fires. */
  datatype Firing = FireCurrent | FireUnreferenced(index: nat)

  predicate CanFire(s: TimerSlot, f: Firing)
  {
    match f
    case FireCurrent => s.current.Some?
    case FireUnreferenced(i) => i < |s.unreferenced|
  }

  function Fired(s: TimerSlot, f: Firing): Timer
    requires CanFire(s, f)
  {
    match f
    case FireCurrent => s.current.value
    case FireUnreferenced(i) => s.unreferenced[i]
  }

  /** A one-shot timer is invalid once it has fired. */
  function AfterFiring(s: TimerSlot, f: Firing): (r: TimerSlot)
    requires CanFire(s, f)
    ensures f.FireUnreferenced? ==> r.current == s.current && |r.unreferenced| == |s.unreferenced| - 1
    ensures f.FireCurrent? ==> r.current == None && r.unreferenced == s.unreferenced
  {
    match f
    case FireCurrent => TimerSlot(None, s.unreferenced)
    case FireUnreferenced(i) => TimerSlot(s.current, s.unreferenced[..i] + s.unreferenced[i + 1..])
  }

  /** Firing takes exactly the fired timer off the pending ones. */
  lemma {:induction false} FiringConsumes(s: TimerSlot, f: Firing)
    requires CanFire(s, f)
    ensures Fired(s, f) in Scheduled(s)
    ensures Scheduled(AfterFiring(s, f)) == Scheduled(s) - multiset{Fired(s, f)}
  {
    match f
    case FireCurrent =>
    case FireUnreferenced(i) =>
      var u := s.unreferenced;
      assert u == u[..i] + [u[i]] + u[i + 1..];
      assert multiset(u) == multiset(u[..i] + u[i + 1..]) + multiset{u[i]};
  }

  /** Invalidating before assigning is the cancel-and-replace discipline: exactly
      the new timer is then pending besides the unreferenced ones. */
  lemma InvalidateThenReplace(s: TimerSlot, t: Timer)
    ensures Replace(Invalidate(s), t).unreferenced == s.unreferenced
    ensures Scheduled(Replace(Invalidate(s), t)) == multiset(s.unreferenced) + multiset{t}
  {
  }
}

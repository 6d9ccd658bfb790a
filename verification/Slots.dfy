/** The shared semaphore under every interleaving of invocations, logins and
    reconfigurations. Configure replaces the channel; a waiter keeps the channel it
    evaluated when it began to wait, while a release reads the service's field again. */
module Slots {
  datatype Chan = Chan(capacity: nat, tokens: nat)

  /** The last channel is the one the service's field names. `alive` counts the processes
      that have not exited, which an early return after a timeout may leave behind. */
  datatype State = State(chans: seq<Chan>, waiting: map<nat, nat>, holding: map<nat, nat>, alive: set<nat>)

  datatype Event =
    | Enter(id: nat)                    // reach the select
    | Acquire(id: nat)                  // the send goes through
    | Spawn(id: nat)                    // its process is started
    | Cancel(id: nat)                   // the context is done first
    | Release(id: nat, exited: bool)    // the deferred receive
    | Reap(id: nat)                     // a process left behind exits
    | Configure(capacity: nat)

  predicate Wf(s: State) {
    && s.chans != []
    && (forall i :: i in s.waiting ==> s.waiting[i] < |s.chans|)
    && (forall i :: i in s.holding ==> s.holding[i] < |s.chans|)
    && s.waiting.Keys !! s.holding.Keys
  }

  function Cur(s: State): nat
    requires s.chans != []
  {
    |s.chans| - 1
  }

  /** Whether the step can happen now; a send to a full channel and a receive from an
      empty one wait. */
  predicate Enabled(s: State, e: Event)
    requires Wf(s)
  {
    match e
    case Enter(i) => i !in s.waiting && i !in s.holding && i !in s.alive
    case Acquire(i) => i in s.waiting && var c := s.chans[s.waiting[i]]; c.tokens < c.capacity
    case Spawn(i) => i in s.holding && i !in s.alive
    case Cancel(i) => i in s.waiting
    case Release(i, _) => i in s.holding && s.chans[Cur(s)].tokens > 0
    case Reap(i) => i in s.alive && i !in s.holding
    case Configure(_) => true
  }

  function Step(s: State, e: Event): (s': State)
    requires Wf(s)
    ensures Wf(s')
  {
    if !Enabled(s, e) then s
    else
      match e
      case Enter(i) => s.(waiting := s.waiting[i := Cur(s)])
      case Acquire(i) =>
        var c := s.waiting[i];
        State(s.chans[c := s.chans[c].(tokens := s.chans[c].tokens + 1)], s.waiting - {i}, s.holding[i := c], s.alive)
      case Spawn(i) => s.(alive := s.alive + {i})
      case Cancel(i) => s.(waiting := s.waiting - {i})
      case Release(i, exited) =>
        var c := Cur(s);
        State(s.chans[c := s.chans[c].(tokens := s.chans[c].tokens - 1)], s.waiting, s.holding - {i},
              if exited then s.alive - {i} else s.alive)
      case Reap(i) => s.(alive := s.alive - {i})
      case Configure(n) => s.(chans := s.chans + [Chan(n, 0)])
  }

  function Run(s: State, es: seq<Event>): (s': State)
    requires Wf(s)
    ensures Wf(s')
    decreases |es|
  {
    if es == [] then s else Step(Run(s, es[..|es| - 1]), es[|es| - 1])
  }

  function New(capacity: nat): State { State([Chan(capacity, 0)], map[], map[], {}) }

  // ---------------------------------------------------------------- balance

  /** Tokens in the channel in use are exactly the invocations holding one, within the
      capacity, and nobody is attached to an older channel. */
  ghost predicate Balanced(s: State)
    requires Wf(s)
  {
    && (forall i :: i in s.waiting ==> s.waiting[i] == Cur(s))
    && (forall i :: i in s.holding ==> s.holding[i] == Cur(s))
    && s.chans[Cur(s)].tokens == |s.holding| <= s.chans[Cur(s)].capacity
  }

  lemma AcquireBalanced(s: State, i: nat)
    requires Wf(s) && Balanced(s) && Enabled(s, Acquire(i))
    ensures Balanced(Step(s, Acquire(i)))
  {
    Grants(s, i);
    assert s.holding[i := Cur(s)].Keys == s.holding.Keys + {i};
  }

  lemma ReleaseBalanced(s: State, i: nat, exited: bool)
    requires Wf(s) && Balanced(s) && Enabled(s, Release(i, exited))
    ensures Balanced(Step(s, Release(i, exited)))
  {
    assert (s.holding - {i}).Keys == s.holding.Keys - {i};
  }

  lemma EnterBalanced(s: State, i: nat)
    requires Wf(s) && Balanced(s)
    ensures Balanced(Step(s, Enter(i)))
  {
    var s' := Step(s, Enter(i));
    assert s'.chans == s.chans && s'.holding == s.holding;
  }

  lemma CancelBalanced(s: State, i: nat)
    requires Wf(s) && Balanced(s)
    ensures Balanced(Step(s, Cancel(i)))
  {
    var s' := Step(s, Cancel(i));
    assert s'.chans == s.chans && s'.holding == s.holding;
  }

  lemma ProcessBalanced(s: State, e: Event)
    requires Wf(s) && Balanced(s) && (e.Spawn? || e.Reap?)
    ensures Balanced(Step(s, e))
  {
    var s' := Step(s, e);
    assert s'.chans == s.chans && s'.holding == s.holding && s'.waiting == s.waiting;
  }

  lemma StepBalanced(s: State, e: Event)
    requires Wf(s) && Balanced(s) && !e.Configure?
    ensures Balanced(Step(s, e))
  {
    match e {
      case Enter(i) => EnterBalanced(s, i);
      case Cancel(i) => CancelBalanced(s, i);
      case Acquire(i) => if Enabled(s, e) { AcquireBalanced(s, i); }
      case Release(i, exited) => if Enabled(s, e) { ReleaseBalanced(s, i, exited); }
      case _ => ProcessBalanced(s, e);
    }
  }

  /** Replacing the channel keeps the balance exactly when no invocation is between
      reaching its select and giving its token back. */
  lemma ConfigureExactly(s: State, n: nat)
    requires Wf(s) && Balanced(s)
    ensures Balanced(Step(s, Configure(n))) <==> s.waiting == map[] && s.holding == map[]
  {
    var s' := Step(s, Configure(n));
    if s.waiting != map[] {
      var i :| i in s.waiting;
      assert s'.waiting[i] != Cur(s');
    }
    if s.holding != map[] {
      var i :| i in s.holding;
      assert s'.holding[i] != Cur(s');
    }
  }

  /** The number that the last reconfiguration of the run set, or the one it started with. */
  function Configured(capacity: nat, es: seq<Event>): nat {
    if es == [] then capacity
    else if es[|es| - 1].Configure? then es[|es| - 1].capacity
    else Configured(capacity, es[..|es| - 1])
  }

  /** In every run the channel in use has exactly the configured capacity. */
  lemma {:induction false} CapacityIsConfigured(capacity: nat, es: seq<Event>)
    ensures var s := Run(New(capacity), es); s.chans[Cur(s)].capacity == Configured(capacity, es)
    decreases |es|
  {
    if es != [] { CapacityIsConfigured(capacity, es[..|es| - 1]); }
  }

  /** What the events do to holders, waiters and processes. */
  lemma EventsMeet(s: State, i: nat, exited: bool)
    requires Wf(s)
    ensures Enabled(s, Enter(i)) ==> Step(s, Enter(i)).waiting.Keys == s.waiting.Keys + {i}
    ensures Enabled(s, Acquire(i)) ==>
              && Step(s, Acquire(i)).waiting.Keys == s.waiting.Keys - {i}
              && Step(s, Acquire(i)).holding.Keys == s.holding.Keys + {i}
    ensures Enabled(s, Cancel(i)) ==>
              && Step(s, Cancel(i)).waiting.Keys == s.waiting.Keys - {i}
              && Step(s, Cancel(i)).holding == s.holding && Step(s, Cancel(i)).chans == s.chans
    ensures Enabled(s, Release(i, exited)) ==>
              && Step(s, Release(i, exited)).holding.Keys == s.holding.Keys - {i}
              && Step(s, Release(i, exited)).chans[Cur(s)].tokens == s.chans[Cur(s)].tokens - 1
              && Step(s, Release(i, exited)).alive == (if exited then s.alive - {i} else s.alive)
    ensures Enabled(s, Spawn(i)) ==> Step(s, Spawn(i)).alive == s.alive + {i}
    ensures Enabled(s, Reap(i)) ==> Step(s, Reap(i)) == s.(alive := s.alive - {i})
  {}

  /** What each event waits for: a new invocation may enter; a send needs room in the channel it
      waits on, a receive a token in the one in use; a process is started once, and one that
      was left behind may end. */
  lemma EnabledExactly(s: State, i: nat, exited: bool)
    requires Wf(s)
    ensures Enabled(s, Enter(i)) <==> i !in s.waiting.Keys + s.holding.Keys + s.alive
    ensures Enabled(s, Acquire(i)) <==>
              i in s.waiting && s.chans[s.waiting[i]].tokens < s.chans[s.waiting[i]].capacity
    ensures Enabled(s, Cancel(i)) <==> i in s.waiting
    ensures Enabled(s, Release(i, exited)) <==> i in s.holding && s.chans[|s.chans| - 1].tokens > 0
    ensures Enabled(s, Spawn(i)) <==> i in s.holding && i !in s.alive
    ensures Enabled(s, Reap(i)) <==> i in s.alive && i !in s.holding
  {}

  /** An invocation gets in exactly when it waits on a channel with room. */
  lemma EntersExactly(s: State, i: nat)
    requires Wf(s) && Balanced(s)
    ensures i in Step(s, Acquire(i)).holding && i !in s.holding <==>
            i in s.waiting && |s.holding| < s.chans[Cur(s)].capacity
  {}

  /** Every reconfiguration of the run finds the service quiet. */
  ghost predicate QuietConfigures(s: State, es: seq<Event>)
    requires Wf(s)
  {
    forall k :: 0 <= k < |es| && es[k].Configure? ==>
      Run(s, es[..k]).waiting == map[] && Run(s, es[..k]).holding == map[]
  }

  /** Over every interleaving whose reconfigurations find the service quiet: tokens equal
      holders, holders never exceed the capacity, and no release ever waits. */
  lemma {:induction false} AlwaysBalanced(capacity: nat, es: seq<Event>)
    requires QuietConfigures(New(capacity), es)
    ensures var s := Run(New(capacity), es);
            && Balanced(s) && |s.holding| <= Configured(capacity, es)
            && forall i, exited :: i in s.holding ==> Enabled(s, Release(i, exited))
    decreases |es|
  {
    var s0 := New(capacity);
    if es != [] {
      var front, e := es[..|es| - 1], es[|es| - 1];
      assert QuietConfigures(s0, front) by {
        forall k | 0 <= k < |front| && front[k].Configure?
          ensures Run(s0, front[..k]).waiting == map[] && Run(s0, front[..k]).holding == map[]
        {
          assert front[..k] == es[..k] && es[k] == front[k];
        }
      }
      AlwaysBalanced(capacity, front);
      var s := Run(s0, front);
      if e.Configure? {
        assert es[..|es| - 1] == front;
        ConfigureExactly(s, e.capacity);
      } else {
        StepBalanced(s, e);
      }
    }
    CapacityIsConfigured(capacity, es);
    var s := Run(s0, es);
    forall i, exited | i in s.holding ensures Enabled(s, Release(i, exited)) {
      assert |s.holding.Keys| > 0;
    }
  }

  /** One invocation after another takes a token. */
  lemma Admits(s: State, id: nat)
    requires Wf(s) && Balanced(s) && id !in s.waiting && id !in s.holding && id !in s.alive
    requires s.chans[Cur(s)].tokens < s.chans[Cur(s)].capacity
    ensures var s' := Step(Step(s, Enter(id)), Acquire(id));
            && s'.holding == s.holding[id := Cur(s)] && s'.waiting == s.waiting && s'.alive == s.alive
            && s'.chans == s.chans[Cur(s) := Chan(s.chans[Cur(s)].capacity, s.chans[Cur(s)].tokens + 1)]
  {
    assert s.waiting[id := Cur(s)] - {id} == s.waiting;
    Grants(Step(s, Enter(id)), id);
  }

  lemma Grants(s: State, id: nat)
    requires Wf(s) && Enabled(s, Acquire(id))
    ensures var s' := Step(s, Acquire(id)); var c := s.waiting[id];
            && s'.holding == s.holding[id := c] && s'.waiting == s.waiting - {id} && s'.alive == s.alive
            && s'.chans == s.chans[c := Chan(s.chans[c].capacity, s.chans[c].tokens + 1)]
  {}

  /** A reconfiguration while tokens are held lets too many in: with room for one, the
      next invocation holds its token beside the earlier ones. */
  lemma ConfigureWhileHeldExceeds(s: State, j: nat)
    requires Wf(s) && Balanced(s) && s.holding != map[] && j !in s.waiting && j !in s.holding && j !in s.alive
    ensures var s' := Step(Step(Step(s, Configure(1)), Enter(j)), Acquire(j));
            |s'.holding| > s'.chans[Cur(s')].capacity
  {
    var s1 := Step(s, Configure(1));
    var s2 := Step(s1, Enter(j));
    assert s2.waiting[j] == Cur(s1) && s2.chans[Cur(s1)] == Chan(1, 0);
    var s3 := Step(s2, Acquire(j));
    assert s3.holding.Keys == s.holding.Keys + {j};
    assert s.holding.Keys != {};
  }

  /** It is not enough to keep reconfigurations away from held tokens: a waiter that
      reached its select before one takes its token from the old channel and then waits
      to give it back to the new one. */
  lemma ConfigureWhileWaitingStrands(s: State, id: nat, n: nat)
    requires Wf(s) && Balanced(s) && id in s.waiting && s.chans[Cur(s)].tokens < s.chans[Cur(s)].capacity
    ensures var s' := Step(Step(s, Configure(n)), Acquire(id));
            id in s'.holding && forall exited :: !Enabled(s', Release(id, exited))
  {}

  // ---------------------------------------------------------------- processes

  /** Every live process belongs to an invocation that holds a token. */
  ghost predicate Held(s: State) { s.alive <= s.holding.Keys }

  /** Steps keep that, but for a return that leaves its process behind: a release does if and
      only if its process has exited or none was started. */
  lemma HeldExactly(s: State, e: Event)
    requires Wf(s) && Held(s) && Enabled(s, e)
    ensures Held(Step(s, e)) <==> !(e.Release? && !e.exited && e.id in s.alive)
  {
    match e {
      case Release(i, _) => assert (s.holding - {i}).Keys == s.holding.Keys - {i};
      case _ =>
    }
  }

  /** No return of the run leaves a live process behind. */
  ghost predicate PatientReturns(s: State, es: seq<Event>)
    requires Wf(s)
  {
    forall k :: 0 <= k < |es| && es[k].Release? && !es[k].exited ==> es[k].id !in Run(s, es[..k]).alive
  }

  lemma {:induction false} AlwaysHeld(capacity: nat, es: seq<Event>)
    requires PatientReturns(New(capacity), es)
    ensures Held(Run(New(capacity), es))
    decreases |es|
  {
    var s0 := New(capacity);
    if es != [] {
      var front, e := es[..|es| - 1], es[|es| - 1];
      assert PatientReturns(s0, front) by {
        forall k | 0 <= k < |front| && front[k].Release? && !front[k].exited
          ensures front[k].id !in Run(s0, front[..k]).alive
        {
          assert front[..k] == es[..k] && es[k] == front[k];
        }
      }
      AlwaysHeld(capacity, front);
      if Enabled(Run(s0, front), e) { HeldExactly(Run(s0, front), e); }
    }
  }

  /** With quiet reconfigurations, and returns that leave no process behind, no more processes
      live than the capacity allows. */
  lemma ProcessesBounded(capacity: nat, es: seq<Event>)
    requires QuietConfigures(New(capacity), es) && PatientReturns(New(capacity), es)
    ensures var s := Run(New(capacity), es); |s.alive| <= |s.holding| <= Configured(capacity, es)
  {
    var s := Run(New(capacity), es);
    AlwaysBalanced(capacity, es);
    AlwaysHeld(capacity, es);
    Smaller(s.alive, s.holding.Keys);
  }

  lemma {:induction false} Smaller(a: set<nat>, b: set<nat>)
    requires a <= b
    ensures |a| <= |b|
  {
    if a != {} {
      var x :| x in a;
      Smaller(a - {x}, b - {x});
    }
  }

  /** With room for one, an early return lets a second process run beside the first. */
  lemma EarlyReturnExceedsProcesses(s: State, i: nat, j: nat)
    requires Wf(s) && Balanced(s) && s.chans[Cur(s)].capacity == 1 && i in s.holding && i in s.alive
    requires j !in s.waiting && j !in s.holding && j !in s.alive
    ensures var s' := Step(Step(Step(Step(s, Release(i, false)), Enter(j)), Acquire(j)), Spawn(j));
            Balanced(s') && |s'.alive| > s'.chans[Cur(s')].capacity
  {
    var s1 := Step(s, Release(i, false));
    assert |s.holding.Keys| > 0;
    StepBalanced(s, Release(i, false));
    Admits(s1, j);
    StepBalanced(s1, Enter(j));
    StepBalanced(Step(s1, Enter(j)), Acquire(j));
    var s3 := Step(Step(s1, Enter(j)), Acquire(j));
    StepBalanced(s3, Spawn(j));
    Smaller({i, j}, Step(s3, Spawn(j)).alive);
  }
}

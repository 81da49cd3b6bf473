// How sharp the bound on refreshes is: with more lease left than the iterations can outlast,
// a lone waiter goes through them without refreshing.
module RefreshBound {
  import opened Protocol
  import opened LonePaths
  import opened Takeover
  import LeaseSpacing
  import Names

  // Nothing to do for the waiter but to go on polling: its flow runs on, and its variable
  // shows a state that is not terminal.
  predicate Undecided(sh: Shared, w: Waiter) {
    && (w.flow.Some? ==> w.flow.value !in sh.cancelled)
    && AfterRead(Lookup(sh.store, Names.StatusVarName(w.hpc, w.job)), sh.now).Sleeping?
  }

  // A lone path without a refresh that leads to this state of the waiter.
  ghost predicate Idles(ss: seq<State>, ls: seq<Label>, p: nat, s0: State, sh: Shared, w: Waiter) {
    ss != [] && Stands(ss, ls, p, s0, sh, w) && !RefreshedIn(ss, ls, p, 0, |ls|)
  }

  // A step that is none of a refresh.
  lemma IdleStep(ss: seq<State>, ls: seq<Label>, p: nat, s0: State, sh: Shared, w: Waiter, l: Label)
      returns (ss': seq<State>, ls': seq<Label>)
    requires Idles(ss, ls, p, s0, sh, w) && Smooth(Last(ss), p, l) && Step(Last(ss), l).Some?
    requires l.Local? ==> !w.pc.CallSacct? && !w.pc.ListJobs?
    ensures p in Step(Last(ss), l).value.waiters
    ensures var s' := Step(Last(ss), l).value; Idles(ss', ls', p, s0, s'.sh, s'.waiters[p])
  {
    SmoothStep(Last(ss), p, l);
    ss', ls' := Extend(ss, ls, p, l);
    forall m: nat | m < |ls'|
      ensures !Refreshed(ss'[m], ls'[m], p)
    {
      if m < |ls| {
        assert !Refreshed(ss[m], ls[m], p);
      }
    }
  }

  lemma IdleGo(ss: seq<State>, ls: seq<Label>, p: nat, s0: State, sh: Shared, w: Waiter)
      returns (ss': seq<State>, ls': seq<Label>)
    requires Idles(ss, ls, p, s0, sh, w) && GoMove(sh, w).Some?
    ensures Idles(ss', ls', p, s0, Moved(sh, p, w, GoMove(sh, w).value), Advanced(w, GoMove(sh, w).value))
  {
    ss', ls' := IdleStep(ss, ls, p, s0, sh, w, Local(p, Go));
  }

  lemma IdlePoll(ss: seq<State>, ls: seq<Label>, p: nat, s0: State, sh: Shared, w: Waiter)
      returns (ss': seq<State>, ls': seq<Label>)
    requires Idles(ss, ls, p, s0, sh, w) && w.pc.FastRead?
    requires Undecided(sh, w) && !Expired(LeaseSpacing.LeaseAt(sh, w.hpc), sh.now)
    ensures Idles(ss', ls', p, s0, sh, w.(pc := Sleeping(sh.now + POLL_SECS)))
  {
    ss', ls' := IdleGo(ss, ls, p, s0, sh, w);
    ss', ls' := IdleGo(ss', ls', p, s0, sh, w.(pc := FastDecide(LeaseSpacing.LeaseAt(sh, w.hpc))));
    ss', ls' := IdleGo(ss', ls', p, s0, sh, w.(pc := ReadStatus));
  }

  lemma IdleSleep(ss: seq<State>, ls: seq<Label>, p: nat, s0: State, sh: Shared, w: Waiter)
      returns (ss': seq<State>, ls': seq<Label>)
    requires Idles(ss, ls, p, s0, sh, w) && w.pc == Sleeping(sh.now + POLL_SECS)
    ensures Idles(ss', ls', p, s0, sh.(now := sh.now + POLL_SECS), w.(pc := GuardFlow, iterations := w.iterations + 1))
  {
    ss', ls' := IdleStep(ss, ls, p, s0, sh, w, Tick(POLL_SECS));
    ss', ls' := IdleGo(ss', ls', p, s0, sh.(now := sh.now + POLL_SECS), w);
  }

  // One iteration under a lease that has not run out, taking no longer than its sleep.
  lemma IdleRound(ss: seq<State>, ls: seq<Label>, p: nat, s0: State, sh: Shared, w: Waiter)
      returns (ss': seq<State>, ls': seq<Label>)
    requires Idles(ss, ls, p, s0, sh, w) && w.pc.GuardFlow?
    requires Undecided(sh, w) && !Expired(LeaseSpacing.LeaseAt(sh, w.hpc), sh.now)
    ensures Idles(ss', ls', p, s0, sh.(now := sh.now + POLL_SECS), w.(iterations := w.iterations + 1))
  {
    ss', ls' := IdleStep(ss, ls, p, s0, sh, w, Local(p, SeeFlow(true)));
    ss', ls' := IdlePoll(ss', ls', p, s0, sh, w.(pc := FastRead));
    ss', ls' := IdleSleep(ss', ls', p, s0, sh, w.(pc := Sleeping(sh.now + POLL_SECS)));
  }

  // n iterations in a row without a refresh, as long as the lease covers the last of them.
  lemma {:induction false} IdleRounds(s: State, p: nat, n: nat) returns (ss: seq<State>, ls: seq<Label>)
    requires p in s.waiters && s.waiters[p].pc.GuardFlow? && Undecided(s.sh, s.waiters[p])
    requires n > 0 ==> !Expired(LeaseSpacing.LeaseAt(s.sh, s.waiters[p].hpc), s.sh.now + POLL_SECS * (n - 1))
    ensures var w := s.waiters[p];
      Idles(ss, ls, p, s, s.sh.(now := s.sh.now + POLL_SECS * n), w.(iterations := w.iterations + n))
  {
    if n == 0 {
      ss, ls := [s], [];
    } else {
      ss, ls := IdleRounds(s, p, n - 1);
      var sh, w := Last(ss).sh, Last(ss).waiters[p];
      assert LeaseSpacing.LeaseAt(sh, w.hpc) == LeaseSpacing.LeaseAt(s.sh, w.hpc);
      ss, ls := IdleRound(ss, ls, p, s, sh, w);
    }
  }

  // Whatever a lone waiter does after s, more than n iterations cannot pass without a refresh.
  ghost predicate RefreshesWithin(s: State, p: nat, n: nat)
    requires p in s.waiters
  {
    forall ss, ls :: IsLonePath(ss, ls, p) && ss[0] == s && p in Last(ss).waiters
      && Last(ss).waiters[p].iterations > s.waiters[p].iterations + n
      ==> RefreshedIn(ss, ls, p, 0, |ls|)
  }

  // A waiter with nothing else to do is sure of a refresh in its next n + 1 iterations
  // exactly when its lease runs out by the start of the last of them. So four iterations are
  // not enough when another waiter won the lease less than five seconds before.
  lemma RefreshesWithinIff(s: State, p: nat, n: nat)
    requires p in s.waiters && s.waiters[p].pc.GuardFlow? && Undecided(s.sh, s.waiters[p])
    ensures RefreshesWithin(s, p, n) <==>
      Expired(LeaseSpacing.LeaseAt(s.sh, s.waiters[p].hpc), s.sh.now + POLL_SECS * n)
  {
    if Expired(LeaseSpacing.LeaseAt(s.sh, s.waiters[p].hpc), s.sh.now + POLL_SECS * n) {
      forall ss, ls | IsLonePath(ss, ls, p) && ss[0] == s && p in Last(ss).waiters
          && Last(ss).waiters[p].iterations > s.waiters[p].iterations + n
        ensures RefreshedIn(ss, ls, p, 0, |ls|)
      {
        LoneWaiterRefreshes(ss, ls, p, |ss| - 1, n);
      }
    } else {
      var ss, ls := IdleRounds(s, p, n + 1);
      assert IsLonePath(ss, ls, p) && !RefreshedIn(ss, ls, p, 0, |ls|);
    }
  }
}

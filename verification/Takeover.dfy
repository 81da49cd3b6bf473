// What the death of other waiters can cost: bounds on leases and slots in every reachable
// state, and how soon a surviving waiter refreshes.
module Takeover {
  import opened Wrappers
  import opened Names
  import opened Protocol
  import opened LonePaths
  import opened Progress
  import LeaseSpacing

  // ---- Bounds in every reachable state ------------------------------------------------

  ghost predicate Bounded(s: State) {
    && (forall name | name in s.sh.store :: Short(Some(s.sh.store[name].value), s.sh.now))
    && (forall hpc | hpc in s.sh.slots :: s.sh.slots[hpc].until <= s.sh.now + SLOT_SECS)
    && (forall p | p in s.waiters :: ReadsShort(s.waiters[p].pc, s.sh.now))
  }

  predicate Short(raw: Option<Value>, now: int) {
    raw.Some? && raw.value.Lease? ==> raw.value.expires <= now + LEASE_SECS
  }

  // What a waiter has read of the lease and not yet compared with the clock.
  predicate ReadsShort(pc: Pc, now: int) {
    && (pc.FastDecide? ==> Short(pc.raw, now))
    && (pc.RecheckDecide? ==> Short(pc.raw, now))
  }

  ghost predicate SharedBounded(sh: Shared) {
    && (forall name | name in sh.store :: Short(Some(sh.store[name].value), sh.now))
    && (forall hpc | hpc in sh.slots :: sh.slots[hpc].until <= sh.now + SLOT_SECS)
  }

  lemma ApplyKeepsBounds(sh: Shared, me: nat, hpc: string, ch: Change)
    requires SharedBounded(sh) && (ch.SetLease? ==> ch.stamp <= sh.now)
    ensures SharedBounded(Apply(sh, me, hpc, ch)) && Apply(sh, me, hpc, ch).now == sh.now
  {
  }

  // The lease a waiter compares with the clock is one it read from the store.
  lemma ReadShape(sh: Shared, w: Waiter, c: Choice)
    requires ChosenMove(sh, w, c).Some?
    ensures var pc := ChosenMove(sh, w, c).value.pc;
      && (pc.FastDecide? ==> pc.raw == Lookup(sh.store, LeaseVarName(w.hpc)))
      && (pc.RecheckDecide? ==> pc == w.pc || pc.raw == Lookup(sh.store, LeaseVarName(w.hpc)))
  {
  }

  lemma StepKeepsBounds(s: State, l: Label)
    requires LeaseSpacing.Inv(s) && Bounded(s) && Step(s, l).Some?
    ensures Bounded(Step(s, l).value)
  {
    if l.Local? {
      var w, m := s.waiters[l.p], ChosenMove(s.sh, s.waiters[l.p], l.c).value;
      LeaseSpacing.MoveShape(s.sh, w, l.c);
      assert LeaseSpacing.WaiterInv(s.sh, l.p, w);
      ApplyKeepsBounds(s.sh, l.p, w.hpc, m.change);
      ApplyKeepsBounds(Apply(s.sh, l.p, w.hpc, m.change), l.p, w.hpc, m.after);
      ReadShape(s.sh, w, l.c);
    }
  }

  // In every reachable state a lease has at most LEASE_SECS left, and a slot, whoever holds
  // it and whether or not the holder is alive, at most SLOT_SECS.
  lemma {:induction false} EverythingExpiresSoon(ss: seq<State>, ls: seq<Label>, i: nat)
    requires IsRun(ss, ls) && i < |ss|
    ensures Bounded(ss[i])
  {
    if i > 0 {
      var k := i - 1;
      EverythingExpiresSoon(ss, ls, k);
      assert Step(ss[k], ls[k]) == Some(ss[k + 1]);
      LeaseSpacing.RunKeepsInv(ss, ls, k);
      StepKeepsBounds(ss[k], ls[k]);
    }
  }

  lemma {:induction false} PathKeepsLeases(ss: seq<State>, ls: seq<Label>, i: nat)
    requires IsPath(ss, ls) && i < |ss| && LeaseSpacing.Inv(ss[0]) && Bounded(ss[0])
    ensures LeaseSpacing.Inv(ss[i]) && Bounded(ss[i])
  {
    if i > 0 {
      var k := i - 1;
      PathKeepsLeases(ss, ls, k);
      assert Step(ss[k], ls[k]) == Some(ss[k + 1]);
      StepKeepsBounds(ss[k], ls[k]);
      LeaseSpacing.StepKeepsInv(ss[k], ls[k]);
    }
  }

  // ---- What a refresh is ---------------------------------------------------------------

  // The step that completes a refresh of the waiter: a counted sacct call was answered, or the
  // listing found nothing to ask about.
  ghost predicate Refreshed(s: State, l: Label, p: nat) {
    && l.Local? && l.p == p && p in s.waiters
    && var w := s.waiters[p];
       || (LeaseSpacing.CallsSacctFor(s, l, w.hpc) && l.c.Answer?)
       || (w.pc.ListJobs? && l.c.See? && RunningJobs(s.sh.store, w.hpc, l.c.view) == [])
  }

  ghost predicate RefreshedIn(ss: seq<State>, ls: seq<Label>, p: nat, i: nat, j: nat)
    requires j <= |ls| <= |ss|
  {
    exists m: nat :: i <= m < j && Refreshed(ss[m], ls[m], p)
  }

  // ---- Before the refresh ---------------------------------------------------------------

  // Between the start of an iteration and the moment its lease is written.
  predicate BeforeGrant(pc: Pc) {
    pc.SubmitRead? || pc.SubmitWrite? || pc.GuardFlow? || pc.GuardList? || pc.MarkRead? || pc.MarkWrite?
    || pc.CallScancel? || pc.FoldDelete? || pc.FastRead? || pc.FastDecide? || pc.Acquire? || pc.RecheckRead?
    || pc.RecheckDecide? || pc.Stamp? || pc.WriteLease? || pc.Done? || pc.Crashed?
  }

  // Holding a lease it has not refreshed for yet.
  predicate Won(pc: Pc) {
    (pc.Release? && pc.grant.Some?) || pc.ListJobs? || pc.CallSacct?
  }

  // The first iteration that has its check of the lease, or its refresh, still ahead.
  function First(w: Waiter): nat {
    if BeforeGrant(w.pc) || Won(w.pc) then w.iterations else w.iterations + 1
  }

  // The lease has run out by time t, and so has what the waiter read of it.
  ghost predicate Outlasted(sh: Shared, w: Waiter, t: int) {
    && Expired(LeaseSpacing.LeaseAt(sh, w.hpc), t)
    && (w.pc.FastDecide? ==> Expired(w.pc.raw, t))
    && (w.pc.RecheckDecide? ==> Expired(w.pc.raw, t))
  }

  // The lone waiter, begun in state s0, has not refreshed yet: unless it holds a lease, the
  // lease is one that runs out by time t.
  ghost predicate Kept(s0: State, s: State, p: nat, t: int)
    requires p in s0.waiters && p in s.waiters
  {
    && s.waiters[p].hpc == s0.waiters[p].hpc && s0.sh.now <= s.sh.now
    && (Won(s.waiters[p].pc) || Outlasted(s.sh, s.waiters[p], t))
  }

  // Five seconds pass per iteration, and an iteration begun after the lease of s0 ran out
  // (which happens by iteration First + spare) cannot get past the lease without winning it.
  ghost predicate Waiting(s0: State, s: State, p: nat, spare: nat)
    requires p in s0.waiters && p in s.waiters
  {
    var w, first := s.waiters[p], First(s0.waiters[p]);
    && Kept(s0, s, p, s0.sh.now + POLL_SECS * spare)
    && s0.waiters[p].iterations <= w.iterations <= first + spare && first <= w.iterations + 1
    && (first <= w.iterations ==>
          && s.sh.now >= s0.sh.now + POLL_SECS * (w.iterations - first)
          && (w.pc.Sleeping? ==> w.pc.until >= s0.sh.now + POLL_SECS * (w.iterations - first + 1)))
    && (w.iterations == first + spare ==> BeforeGrant(w.pc) || Won(w.pc))
  }

  // The control points a move of a waiter that completes no refresh can lead to.
  ghost predicate Follows(sh: Shared, w: Waiter, pc: Pc) {
    && (Won(pc) ==> Won(w.pc) || w.pc.WriteLease?)
    && (Won(w.pc) ==> Won(pc))
    && (w.pc.WriteLease? ==> pc == w.pc || Won(pc))
    && (pc.FastDecide? ==> pc.raw == LeaseSpacing.LeaseAt(sh, w.hpc))
    && (pc.RecheckDecide? ==> pc == w.pc || pc.raw == LeaseSpacing.LeaseAt(sh, w.hpc))
    && (pc.Sleeping? ==> pc.until == sh.now + POLL_SECS && !BeforeGrant(w.pc) && !w.pc.Sleeping?)
    && (w.pc.Sleeping? ==> w.pc.until <= sh.now && pc.GuardFlow?)
    && (BeforeGrant(w.pc) && !BeforeGrant(pc) && !Won(pc) ==>
          (w.pc.FastDecide? || w.pc.RecheckDecide?) && !Expired(w.pc.raw, sh.now))
  }

  lemma WonFollows(sh: Shared, w: Waiter, c: Choice)
    requires ChosenMove(sh, w, c).Some? && Calm(c) && Won(w.pc)
    requires !(w.pc.CallSacct? && c.Answer?)
    requires !(w.pc.ListJobs? && c.See? && RunningJobs(sh.store, w.hpc, c.view) == [])
    ensures Won(ChosenMove(sh, w, c).value.pc)
  {
  }

  lemma MoveFollows(sh: Shared, w: Waiter, c: Choice)
    requires ChosenMove(sh, w, c).Some? && Calm(c) && !Won(w.pc)
    ensures Follows(sh, w, ChosenMove(sh, w, c).value.pc)
  {
  }

  lemma LeaseUntouched(sh: Shared, me: nat, w: Waiter, c: Choice)
    requires ChosenMove(sh, w, c).Some? && Calm(c)
    ensures var sh' := Moved(sh, me, w, ChosenMove(sh, w, c).value);
      && sh'.now == sh.now
      && ((w.pc.WriteLease? && c.Go?) || LeaseSpacing.LeaseSame(sh, sh', w.hpc))
  {
    var m := ChosenMove(sh, w, c).value;
    LeaseSpacing.MoveShape(sh, w, c);
    LeaseSpacing.MovedOnLeases(sh, me, w, m);
    LeaseOnlyByGo(sh, w, c);
  }

  lemma LeaseOnlyByGo(sh: Shared, w: Waiter, c: Choice)
    requires ChosenMove(sh, w, c).Some? && Calm(c)
    ensures ChosenMove(sh, w, c).value.change.SetLease? <==> w.pc.WriteLease? && c.Go?
    ensures w.pc.WriteLease? && c.Go? ==> Won(ChosenMove(sh, w, c).value.pc)
  {
  }

  lemma MoveKeeps(s0: State, s: State, p: nat, c: Choice, t: int)
    requires p in s0.waiters && p in s.waiters && Kept(s0, s, p, t)
    requires ChosenMove(s.sh, s.waiters[p], c).Some? && Calm(c) && !Refreshed(s, Local(p, c), p)
    ensures Kept(s0, Step(s, Local(p, c)).value, p, t)
  {
    var w, m := s.waiters[p], ChosenMove(s.sh, s.waiters[p], c).value;
    LeaseUntouched(s.sh, p, w, c);
    if Won(w.pc) {
      WonFollows(s.sh, w, c);
    } else {
      MoveFollows(s.sh, w, c);
      LeaseOnlyByGo(s.sh, w, c);
    }
  }

  lemma SmoothKeeps(s0: State, s: State, p: nat, l: Label, t: int)
    requires p in s0.waiters && p in s.waiters && Kept(s0, s, p, t)
    requires Smooth(s, p, l) && Step(s, l).Some? && !Refreshed(s, l, p)
    ensures p in Step(s, l).value.waiters && Kept(s0, Step(s, l).value, p, t)
  {
    SmoothStep(s, p, l);
    if l.Local? {
      MoveKeeps(s0, s, p, l.c, t);
    }
  }

  lemma MoveWaits(s0: State, s: State, p: nat, c: Choice, spare: nat)
    requires p in s0.waiters && p in s.waiters && Waiting(s0, s, p, spare)
    requires ChosenMove(s.sh, s.waiters[p], c).Some? && Calm(c) && !Refreshed(s, Local(p, c), p)
    ensures Waiting(s0, Step(s, Local(p, c)).value, p, spare)
  {
    var w, m := s.waiters[p], ChosenMove(s.sh, s.waiters[p], c).value;
    MoveKeeps(s0, s, p, c, s0.sh.now + POLL_SECS * spare);
    LeaseUntouched(s.sh, p, w, c);
    if Won(w.pc) {
      WonFollows(s.sh, w, c);
    } else {
      MoveFollows(s.sh, w, c);
    }
  }

  lemma SmoothWaits(s0: State, s: State, p: nat, l: Label, spare: nat)
    requires p in s0.waiters && p in s.waiters && Waiting(s0, s, p, spare)
    requires Smooth(s, p, l) && Step(s, l).Some? && !Refreshed(s, l, p)
    ensures p in Step(s, l).value.waiters && Waiting(s0, Step(s, l).value, p, spare)
  {
    SmoothStep(s, p, l);
    if l.Local? {
      MoveWaits(s0, s, p, l.c, spare);
    }
  }

  lemma {:induction false} PathWaits(ss: seq<State>, ls: seq<Label>, p: nat, k: nat, spare: nat)
    requires IsLonePath(ss, ls, p) && k < |ss| && !RefreshedIn(ss, ls, p, 0, k)
    requires Won(ss[0].waiters[p].pc) || Outlasted(ss[0].sh, ss[0].waiters[p], ss[0].sh.now + POLL_SECS * spare)
    ensures p in ss[k].waiters && Waiting(ss[0], ss[k], p, spare)
  {
    if k > 0 {
      var j := k - 1;
      PathWaits(ss, ls, p, j, spare);
      LoneStep(ss, ls, p, j);
      assert !Refreshed(ss[j], ls[j], p);
      SmoothWaits(ss[0], ss[j], p, ls[j], spare);
    }
  }

  lemma {:induction false} PathKeeps(ss: seq<State>, ls: seq<Label>, p: nat, k: nat, t: int)
    requires IsLonePath(ss, ls, p) && k < |ss| && !RefreshedIn(ss, ls, p, 0, k)
    requires Won(ss[0].waiters[p].pc) || Outlasted(ss[0].sh, ss[0].waiters[p], t)
    ensures p in ss[k].waiters && Kept(ss[0], ss[k], p, t)
  {
    if k > 0 {
      var j := k - 1;
      PathKeeps(ss, ls, p, j, t);
      LoneStep(ss, ls, p, j);
      assert !Refreshed(ss[j], ls[j], p);
      SmoothKeeps(ss[0], ss[j], p, ls[j], t);
    }
  }

  // ---- A surviving waiter is not kept out ---------------------------------------------

  // Outside the section the slot is free or still as it was in s0.
  ghost predicate SlotLeft(s0: State, s: State, p: nat)
    requires p in s.waiters
  {
    var hpc := s.waiters[p].hpc;
    InSection(s.waiters[p].pc) || hpc !in s.sh.slots || (hpc in s0.sh.slots && s.sh.slots[hpc] == s0.sh.slots[hpc])
  }

  lemma MoveLeavesSlot(s0: State, s: State, p: nat, c: Choice)
    requires p in s.waiters && SlotLeft(s0, s, p)
    requires ChosenMove(s.sh, s.waiters[p], c).Some? && Calm(c)
    ensures SlotLeft(s0, Step(s, Local(p, c)).value, p)
  {
    var w, m := s.waiters[p], ChosenMove(s.sh, s.waiters[p], c).value;
    LeaseSpacing.MoveShape(s.sh, w, c);
    LeaseSpacing.MovedOnSlots(s.sh, p, w, m);
    SectionShape(s.sh, w, c);
  }

  // Without failures the section is left only by giving the slot back.
  lemma SectionShape(sh: Shared, w: Waiter, c: Choice)
    requires ChosenMove(sh, w, c).Some? && Calm(c)
    ensures InSection(w.pc) && !InSection(ChosenMove(sh, w, c).value.pc) ==> ChosenMove(sh, w, c).value.change.FreeSlot?
    ensures ChosenMove(sh, w, c).value.change.TakeSlot? ==> InSection(ChosenMove(sh, w, c).value.pc)
  {
  }

  lemma {:induction false} PathLeavesSlot(ss: seq<State>, ls: seq<Label>, p: nat, k: nat)
    requires IsLonePath(ss, ls, p) && k < |ss|
    ensures p in ss[k].waiters && SlotLeft(ss[0], ss[k], p)
  {
    if k > 0 {
      var j := k - 1;
      PathLeavesSlot(ss, ls, p, j);
      LoneStep(ss, ls, p, j);
      SmoothStep(ss[j], p, ls[j]);
      if ls[j].Local? {
        MoveLeavesSlot(ss[0], ss[j], p, ls[j].c);
      }
    }
  }

  // However long the others have been dead and wherever they died, and wherever the survivor
  // itself is: as long as it has not refreshed, it finds the lease expired once LEASE_SECS have
  // passed, both before and inside the critical section, and once SLOT_SECS have passed the
  // slot is free or can be freed at once.
  lemma SurvivorIsNotKeptOut(ss: seq<State>, ls: seq<Label>, p: nat, k: nat)
    requires IsLonePath(ss, ls, p) && k < |ss| && Bounded(ss[0]) && !RefreshedIn(ss, ls, p, 0, k)
    ensures p in ss[k].waiters
    ensures var w, s := ss[k].waiters[p], ss[k];
      && (w.pc.FastDecide? && s.sh.now >= ss[0].sh.now + LEASE_SECS ==> GoMove(s.sh, w) == To(Acquire))
      && (w.pc.RecheckDecide? && s.sh.now >= ss[0].sh.now + LEASE_SECS ==> GoMove(s.sh, w) == To(Stamp))
      && (w.pc.Acquire? && s.sh.now >= ss[0].sh.now + SLOT_SECS ==>
            GoMove(s.sh, w).Some? || Step(s, ExpireSlot(w.hpc)).Some?)
  {
    PathKeeps(ss, ls, p, k, ss[0].sh.now + LEASE_SECS);
    PathLeavesSlot(ss, ls, p, k);
  }

  // ---- How soon it refreshes -------------------------------------------------------------

  // A lone waiter, wherever it starts: when its lease runs out within `spare` poll intervals,
  // or in any reachable state within four, it refreshes in one of the spare + 1 iterations
  // from the first that has the refresh still ahead of it.
  lemma LoneWaiterRefreshes(ss: seq<State>, ls: seq<Label>, p: nat, k: nat, spare: nat)
    requires IsLonePath(ss, ls, p) && k < |ss|
    requires Outlasted(ss[0].sh, ss[0].waiters[p], ss[0].sh.now + POLL_SECS * spare) || (Bounded(ss[0]) && spare == 4)
    ensures p in ss[k].waiters
    ensures ss[k].waiters[p].iterations > First(ss[0].waiters[p]) + spare ==> RefreshedIn(ss, ls, p, 0, k)
  {
    LonePresent(ss, ls, p, k);
    if !RefreshedIn(ss, ls, p, 0, k) {
      PathWaits(ss, ls, p, k, spare);
    }
  }

  // And it gets that far: with so many steps of its own, wherever it starts and however many
  // others died wherever they died, the survivor has refreshed or has returned.
  lemma SurvivorRefreshes(ss: seq<State>, ls: seq<Label>, p: nat, k: nat)
    requires IsLonePath(ss, ls, p) && k < |ss| && Bounded(ss[0]) && Busy(ss[0].waiters[p].pc)
    requires Work(ls, p, k) >= Rank(ss[0].waiters[p].pc) + Rounds(5)
    ensures p in ss[k].waiters
    ensures RefreshedIn(ss, ls, p, 0, k) || ss[k].waiters[p].pc.Done?
  {
    LoneIsSurvivor(ss, ls, p);
    EnoughWorkEnds(ss, ls, p, k, 5);
    LoneWaiterRefreshes(ss, ls, p, k, 4);
  }

  // Nothing can keep it from taking those steps: from every control point it can go on, alone,
  // until it has refreshed or returned.
  lemma SurvivorGoesOn(s: State, p: nat) returns (ss: seq<State>, ls: seq<Label>)
    requires Bounded(s) && p in s.waiters && Fits(s.waiters[p]) && Busy(s.waiters[p].pc)
    ensures IsLonePath(ss, ls, p) && ss[0] == s && p in Last(ss).waiters
    ensures RefreshedIn(ss, ls, p, 0, |ls|) || Last(ss).waiters[p].pc.Done?
  {
    ss, ls := CanWork(s, p, Rank(s.waiters[p].pc) + Rounds(5));
    if !Last(ss).waiters[p].pc.Done? {
      SurvivorRefreshes(ss, ls, p, |ls|);
    }
  }

  // In particular from every state of every run.
  lemma SurvivorOfAnyRun(ss: seq<State>, ls: seq<Label>, i: nat, p: nat) returns (on: seq<State>, labels: seq<Label>)
    requires IsRun(ss, ls) && i < |ss| && p in ss[i].waiters && Busy(ss[i].waiters[p].pc)
    ensures IsLonePath(on, labels, p) && on[0] == ss[i] && p in Last(on).waiters
    ensures RefreshedIn(on, labels, p, 0, |labels|) || Last(on).waiters[p].pc.Done?
  {
    EverythingExpiresSoon(ss, ls, i);
    RunFits(ss, ls, i);
    on, labels := SurvivorGoesOn(ss[i], p);
  }

  // ---- The walk to the refresh -------------------------------------------------------------

  ghost predicate Stands(ss: seq<State>, ls: seq<Label>, p: nat, s0: State, sh: Shared, w: Waiter) {
    IsLonePath(ss, ls, p) && ss[0] == s0 && p in Last(ss).waiters && Last(ss).sh == sh && Last(ss).waiters[p] == w
  }

  lemma GoOnce(ss: seq<State>, ls: seq<Label>, p: nat, sh: Shared, w: Waiter) returns (ss': seq<State>, ls': seq<Label>)
    requires ss != [] && Stands(ss, ls, p, ss[0], sh, w) && GoMove(sh, w).Some?
    ensures ss' != [] && Stands(ss', ls', p, ss[0], Moved(sh, p, w, GoMove(sh, w).value), Advanced(w, GoMove(sh, w).value))
  {
    ss', ls' := Extend(ss, ls, p, Local(p, Go));
  }

  // Inside the section, with the lease run out.
  lemma WalkStamp(ss: seq<State>, ls: seq<Label>, p: nat, sh: Shared, w: Waiter) returns (ss': seq<State>, ls': seq<Label>)
    requires ss != [] && Stands(ss, ls, p, ss[0], sh, w) && Outlasted(sh, w, sh.now)
    requires w.pc.RecheckRead? || w.pc.RecheckDecide? || w.pc.Stamp?
    ensures ss' != [] && Stands(ss', ls', p, ss[0], sh, w.(pc := WriteLease(sh.now)))
  {
    ss', ls' := ss, ls;
    if w.pc.RecheckRead? {
      ss', ls' := GoOnce(ss', ls', p, sh, w);
    }
    if !w.pc.Stamp? {
      ss', ls' := GoOnce(ss', ls', p, sh, Last(ss').waiters[p]);
    }
    ss', ls' := GoOnce(ss', ls', p, sh, w.(pc := Stamp));
  }

  lemma WalkLease(ss: seq<State>, ls: seq<Label>, p: nat, sh: Shared, w: Waiter) returns (ss': seq<State>, ls': seq<Label>)
    requires ss != [] && Stands(ss, ls, p, ss[0], sh, w) && w.pc.WriteLease?
    ensures ss' != [] && IsLonePath(ss', ls', p) && ss'[0] == ss[0] && p in Last(ss').waiters
    ensures Last(ss').waiters[p].pc.ListJobs? && Last(ss').sh.now == sh.now
  {
    ss', ls' := GoOnce(ss, ls, p, sh, w);
    ss', ls' := GoOnce(ss', ls', p, Apply(sh, p, w.hpc, SetLease(w.pc.stamp)), w.(pc := Release(Some(|GrantsOf(sh, w.hpc)|))));
  }

  lemma WalkOut(ss: seq<State>, ls: seq<Label>, p: nat, sh: Shared, w: Waiter) returns (ss': seq<State>, ls': seq<Label>)
    requires ss != [] && Stands(ss, ls, p, ss[0], sh, w) && Outlasted(sh, w, sh.now)
    requires w.pc.RecheckRead? || w.pc.RecheckDecide? || w.pc.Stamp? || w.pc.WriteLease?
    ensures ss' != [] && IsLonePath(ss', ls', p) && ss'[0] == ss[0] && p in Last(ss').waiters
    ensures Last(ss').waiters[p].pc.ListJobs? && Last(ss').sh.now == sh.now
  {
    if w.pc.WriteLease? {
      ss', ls' := WalkLease(ss, ls, p, sh, w);
    } else {
      ss', ls' := WalkStamp(ss, ls, p, sh, w);
      ss', ls' := WalkLease(ss', ls', p, sh, w.(pc := WriteLease(sh.now)));
    }
  }

  // From the fast check to the listing.
  lemma WalkToListing(ss: seq<State>, ls: seq<Label>, p: nat, sh: Shared, w: Waiter) returns (ss': seq<State>, ls': seq<Label>)
    requires ss != [] && Stands(ss, ls, p, ss[0], sh, w) && Outlasted(sh, w, sh.now)
    requires w.pc.FastRead? || w.pc.FastDecide? || w.pc.Acquire?
    requires w.hpc !in sh.slots
    ensures ss' != [] && IsLonePath(ss', ls', p) && ss'[0] == ss[0] && p in Last(ss').waiters
    ensures Last(ss').waiters[p].pc.ListJobs? && Last(ss').sh.now == sh.now
  {
    ss', ls' := ss, ls;
    if w.pc.FastRead? {
      ss', ls' := GoOnce(ss', ls', p, sh, w);
    }
    if !w.pc.Acquire? {
      ss', ls' := GoOnce(ss', ls', p, sh, Last(ss').waiters[p]);
    }
    ss', ls' := GoOnce(ss', ls', p, sh, w.(pc := Acquire));
    ss', ls' := WalkOut(ss', ls', p, Apply(sh, p, w.hpc, TakeSlot), w.(pc := RecheckRead));
  }

  // The bounds in time: a survivor on its way to the lease, queued for the slot behind a dead
  // holder or not, can alone win the lease and list the jobs SLOT_SECS later.
  lemma SurvivorTakesOver(s: State, p: nat) returns (ss: seq<State>, ls: seq<Label>)
    requires Bounded(s) && p in s.waiters && OnItsWay(s.sh, s.waiters[p])
    ensures IsLonePath(ss, ls, p) && ss[0] == s && p in Last(ss).waiters
    ensures Last(ss).waiters[p].pc.ListJobs? && Last(ss).sh.now == s.sh.now + SLOT_SECS
  {
    ss, ls := WaitForSlot(s, p);
    var sh, w := Last(ss).sh, s.waiters[p];
    if InSection(w.pc) {
      ss, ls := WalkOut(ss, ls, p, sh, w);
    } else if w.pc.GuardFlow? {
      ss, ls := Extend(ss, ls, p, Local(p, SeeFlow(true)));
      ss, ls := WalkToListing(ss, ls, p, sh, w.(pc := FastRead));
    } else {
      ss, ls := WalkToListing(ss, ls, p, sh, w);
    }
  }

  // At the top of the loop of a flow that was not cancelled, or anywhere between the fast
  // check and the writing of the lease.
  predicate OnItsWay(sh: Shared, w: Waiter) {
    || (w.pc.GuardFlow? && (w.flow.Some? ==> w.flow.value !in sh.cancelled))
    || w.pc.FastRead? || w.pc.FastDecide? || w.pc.Acquire?
    || w.pc.RecheckRead? || w.pc.RecheckDecide? || w.pc.Stamp? || w.pc.WriteLease?
  }

  lemma WaitForSlot(s: State, p: nat) returns (ss: seq<State>, ls: seq<Label>)
    requires Bounded(s) && p in s.waiters
    ensures IsLonePath(ss, ls, p) && ss[0] == s && p in Last(ss).waiters && Last(ss).waiters[p] == s.waiters[p]
    ensures Last(ss).sh == s.sh.(now := s.sh.now + SLOT_SECS, slots := Last(ss).sh.slots)
    ensures InSection(s.waiters[p].pc) || s.waiters[p].hpc !in Last(ss).sh.slots
  {
    ss, ls := Extend([s], [], p, Tick(SLOT_SECS));
    if s.waiters[p].hpc in s.sh.slots && !InSection(s.waiters[p].pc) {
      ss, ls := Extend(ss, ls, p, ExpireSlot(s.waiters[p].hpc));
    }
  }

  // ---- Any four iterations -----------------------------------------------------------------

  // The iteration at whose end the waiter sleeps for the first time on this path.
  function FirstSleep(w: Waiter): nat {
    if w.pc.Sleeping? then w.iterations + 1 else w.iterations
  }

  // Once the waiter has slept, its lease has at most three intervals left.
  ghost predicate Aged(s: State, p: nat, first: nat)
    requires p in s.waiters
  {
    var w := s.waiters[p];
    var lease := LeaseSpacing.LeaseAt(s.sh, w.hpc);
    && first <= w.iterations + 1
    && (w.pc.SubmitRead? || w.pc.SubmitWrite? ==> w.iterations <= first)
    && (w.pc.Sleeping? && first <= w.iterations ==> Expired(lease, w.pc.until + LEASE_SECS - POLL_SECS))
    && (w.pc.GuardFlow? && first < w.iterations ==> Expired(lease, s.sh.now + LEASE_SECS - POLL_SECS))
    && (!w.pc.Sleeping? ==> first <= w.iterations)
  }

  lemma StepAges(s: State, p: nat, l: Label, first: nat)
    requires p in s.waiters && Smooth(s, p, l) && Step(s, l).Some? && Bounded(s)
    requires Aged(s, p, first)
    ensures p in Step(s, l).value.waiters && Aged(Step(s, l).value, p, first)
  {
    SmoothStep(s, p, l);
    if l.Local? {
      LeaseUntouched(s.sh, p, s.waiters[p], l.c);
      SleepShape(s.sh, s.waiters[p], l.c);
    }
  }

  lemma SleepShape(sh: Shared, w: Waiter, c: Choice)
    requires ChosenMove(sh, w, c).Some? && Calm(c)
    ensures var m := ChosenMove(sh, w, c).value;
      && (m.pc.Sleeping? ==> m.pc.until == sh.now + POLL_SECS && !w.pc.Sleeping? && !w.pc.WriteLease?)
      && (m.pc.GuardFlow? ==> (w.pc.Sleeping? && w.pc.until <= sh.now) || w.pc.SubmitWrite?)
      && (m.pc.SubmitWrite? ==> w.pc.SubmitRead?) && !m.pc.SubmitRead?
      && (w.pc.Sleeping? ==> m.pc.GuardFlow?)
  {
  }

  lemma {:induction false} PathAges(ss: seq<State>, ls: seq<Label>, p: nat, k: nat)
    requires IsLonePath(ss, ls, p) && k < |ss| && LeaseSpacing.Inv(ss[0]) && Bounded(ss[0])
    ensures p in ss[k].waiters && Aged(ss[k], p, FirstSleep(ss[0].waiters[p])) && Bounded(ss[k])
  {
    PathKeepsLeases(ss, ls, k);
    if k > 0 {
      var j := k - 1;
      PathAges(ss, ls, p, j);
      LoneStep(ss, ls, p, j);
      StepAges(ss[j], p, ls[j], FirstSleep(ss[0].waiters[p]));
    }
  }

  // Wherever a lone waiter starts: once it has slept through an interval, any four consecutive
  // iterations contain a refresh.
  lemma FourIterationsRefresh(ss: seq<State>, ls: seq<Label>, p: nat, i: nat, j: nat)
    requires IsLonePath(ss, ls, p) && i <= j < |ss| && LeaseSpacing.Inv(ss[0]) && Bounded(ss[0])
    requires p in ss[i].waiters && ss[i].waiters[p].pc.GuardFlow? && ss[i].waiters[p].iterations > FirstSleep(ss[0].waiters[p])
    requires p in ss[j].waiters && ss[j].waiters[p].iterations >= ss[i].waiters[p].iterations + 4
    ensures RefreshedIn(ss, ls, p, i, j)
  {
    PathAges(ss, ls, p, i);
    SuffixIsLone(ss, ls, p, i);
    LoneWaiterRefreshes(ss[i..], ls[i..], p, j - i, 3);
    var m: nat :| m < j - i && Refreshed(ss[i..][m], ls[i..][m], p);
    assert Refreshed(ss[i + m], ls[i + m], p);
  }
}

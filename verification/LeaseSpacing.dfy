// Lease spacing and the sacct rate, over every run.
module LeaseSpacing {
  import opened Wrappers
  import opened Names
  import opened Protocol

  ghost predicate Spaced(gs: seq<int>) {
    forall i, j | 0 <= i < j < |gs| :: gs[i] + LEASE_SECS <= gs[j]
  }

  function LeaseAt(sh: Shared, hpc: string): Option<Value> {
    Lookup(sh.store, LeaseVarName(hpc))
  }

  // The lease variable of an HPC always shows the last grant.
  ghost predicate LeaseOk(sh: Shared, hpc: string) {
    var gs := GrantsOf(sh, hpc);
    && Spaced(gs)
    && (gs != [] ==> gs[|gs| - 1] <= sh.now && LeaseAt(sh, hpc) == Some(Lease(gs[|gs| - 1] + LEASE_SECS)))
  }

  ghost predicate SharedInv(sh: Shared) {
    && (forall hpc :: LeaseOk(sh, hpc))
    && (forall hpc, g | (hpc, g) in sh.spent :: g < |GrantsOf(sh, hpc)|)
  }

  // The grant a waiter holds and has not yet used for a sacct call.
  function Token(pc: Pc): Option<nat> {
    match pc
    case Release(g) => g
    case ListJobs(g) => Some(g)
    case CallSacct(g, _) => Some(g)
    case _ => None
  }

  ghost predicate WaiterInv(sh: Shared, me: nat, w: Waiter) {
    && (InSection(w.pc) ==> w.hpc in sh.slots && sh.slots[w.hpc].holder == me)
    && (w.pc.RecheckDecide? ==> w.pc.raw == LeaseAt(sh, w.hpc))
    && (w.pc.Stamp? ==> Expired(LeaseAt(sh, w.hpc), sh.now))
    && (w.pc.WriteLease? ==> w.pc.stamp <= sh.now && Expired(LeaseAt(sh, w.hpc), w.pc.stamp))
    && (Token(w.pc).Some? ==> Token(w.pc).value < |GrantsOf(sh, w.hpc)| && (w.hpc, Token(w.pc).value) !in sh.spent)
  }

  ghost predicate TokensDiffer(v: Waiter, w: Waiter) {
    v.hpc == w.hpc && Token(v.pc).Some? ==> Token(v.pc) != Token(w.pc)
  }

  ghost predicate Inv(s: State) {
    && SharedInv(s.sh)
    && (forall p | p in s.waiters :: WaiterInv(s.sh, p, s.waiters[p]))
    && (forall p, q | p in s.waiters && q in s.waiters && p != q :: TokensDiffer(s.waiters[p], s.waiters[q]))
  }

  // ---- What one step can do to leases, slots and grants -------------------------------

  ghost predicate LeaseSame(sh: Shared, sh': Shared, hpc: string) {
    GrantsOf(sh', hpc) == GrantsOf(sh, hpc) && LeaseAt(sh', hpc) == LeaseAt(sh, hpc)
  }

  ghost predicate LeaseSet(sh: Shared, sh': Shared, hpc: string, stamp: int) {
    && GrantsOf(sh', hpc) == GrantsOf(sh, hpc) + [stamp]
    && LeaseAt(sh', hpc) == Some(Lease(stamp + LEASE_SECS))
  }

  lemma StatusChangeKeepsLeases(sh: Shared, me: nat, hpc: string, ch: Change)
    requires ch.SetStatus? || ch.UnsetStatus?
    ensures forall h :: LeaseSame(sh, Apply(sh, me, hpc, ch), h)
  {
    forall h
      ensures StatusVarName(hpc, ch.job) != LeaseVarName(h)
    {
      StatusIsNoLease(hpc, ch.job, h);
    }
  }

  lemma LeaseChangeIsLocal(sh: Shared, me: nat, hpc: string, stamp: int)
    ensures LeaseSet(sh, Apply(sh, me, hpc, SetLease(stamp)), hpc, stamp)
    ensures forall h | h != hpc :: LeaseSame(sh, Apply(sh, me, hpc, SetLease(stamp)), h)
  {
    forall h | h != hpc
      ensures LeaseVarName(h) != LeaseVarName(hpc)
    {
      if LeaseVarName(h) == LeaseVarName(hpc) {
        LeaseNameInjective(h, hpc);
      }
    }
  }

  lemma ChangeOnLeases(sh: Shared, me: nat, hpc: string, ch: Change)
    ensures var sh' := Apply(sh, me, hpc, ch);
      && sh'.now == sh.now
      && (forall h | h != hpc || !ch.SetLease? :: LeaseSame(sh, sh', h))
      && (ch.SetLease? ==> LeaseSet(sh, sh', hpc, ch.stamp))
  {
    if ch.SetStatus? || ch.UnsetStatus? {
      StatusChangeKeepsLeases(sh, me, hpc, ch);
    } else if ch.SetLease? {
      LeaseChangeIsLocal(sh, me, hpc, ch.stamp);
    }
  }

  // The moves, as far as slots go: the slot is taken free or renewed by its holder, given
  // back only from inside the section, and every way into the section goes through it.
  ghost predicate SlotShape(sh: Shared, w: Waiter, m: Move) {
    && (m.after.Nothing? || (m.after.FreeSlot? && InSection(w.pc) && !InSection(m.pc)))
    && (m.change.TakeSlot? ==> InSection(w.pc) || (w.pc.Acquire? && w.hpc !in sh.slots))
    && (m.change.FreeSlot? ==> InSection(w.pc) && !InSection(m.pc))
    && (InSection(m.pc) ==> InSection(w.pc) || m.change.TakeSlot?)
  }

  // The moves, as far as leases go: the lease is read, found expired, the clock is read and
  // only then the lease is written.
  ghost predicate LeaseShape(sh: Shared, w: Waiter, m: Move) {
    && (m.change.SetLease? ==> w.pc.WriteLease? && m.change.stamp == w.pc.stamp && (m.pc.Release? || !InSection(m.pc)))
    && (m.pc.RecheckDecide? ==> m.pc == w.pc || m.pc.raw == LeaseAt(sh, w.hpc))
    && (m.pc.Stamp? ==> m.pc == w.pc || (w.pc.RecheckDecide? && Expired(w.pc.raw, sh.now)))
    && (m.pc.WriteLease? ==> m.pc == w.pc || (w.pc.Stamp? && m.pc.stamp == sh.now))
  }

  // The moves, as far as grants go: a grant is won by writing the lease and spent by the
  // sacct call.
  ghost predicate TokenShape(sh: Shared, w: Waiter, m: Move) {
    && (m.change.Query? ==> w.pc.CallSacct? && m.change.won == w.pc.won && Token(m.pc).None?)
    && (Token(m.pc).Some? ==>
          if m.change.SetLease? then Token(m.pc).value == |GrantsOf(sh, w.hpc)| else Token(m.pc) == Token(w.pc))
  }

  lemma GoShape(sh: Shared, w: Waiter)
    requires GoMove(sh, w).Some?
    ensures SlotShape(sh, w, GoMove(sh, w).value)
    ensures LeaseShape(sh, w, GoMove(sh, w).value)
    ensures TokenShape(sh, w, GoMove(sh, w).value)
    ensures !GoMove(sh, w).value.change.Query?
  {
  }

  lemma MoveShape(sh: Shared, w: Waiter, c: Choice)
    requires ChosenMove(sh, w, c).Some?
    ensures SlotShape(sh, w, ChosenMove(sh, w, c).value)
    ensures LeaseShape(sh, w, ChosenMove(sh, w, c).value)
    ensures TokenShape(sh, w, ChosenMove(sh, w, c).value)
  {
    if GoMove(sh, w).Some? {
      GoShape(sh, w);
    }
  }

  ghost predicate Shapes(sh: Shared, w: Waiter, m: Move) {
    SlotShape(sh, w, m) && LeaseShape(sh, w, m) && TokenShape(sh, w, m)
  }

  lemma MovedOnLeases(sh: Shared, me: nat, w: Waiter, m: Move)
    requires Shapes(sh, w, m)
    ensures var sh' := Moved(sh, me, w, m);
      && sh'.now == sh.now
      && (forall h | h != w.hpc || !m.change.SetLease? :: LeaseSame(sh, sh', h))
      && (m.change.SetLease? ==> LeaseSet(sh, sh', w.hpc, m.change.stamp))
      && sh'.spent == sh.spent + (if m.change.Query? then {(w.hpc, m.change.won)} else {})
  {
    var mid := Apply(sh, me, w.hpc, m.change);
    ChangeOnLeases(sh, me, w.hpc, m.change);
    ChangeOnLeases(mid, me, w.hpc, m.after);
    forall h | h != w.hpc || !m.change.SetLease?
      ensures LeaseSame(sh, Moved(sh, me, w, m), h)
    {
      assert LeaseSame(sh, mid, h) && LeaseSame(mid, Moved(sh, me, w, m), h);
    }
    assert LeaseSame(mid, Moved(sh, me, w, m), w.hpc);
  }

  lemma MovedOnSlots(sh: Shared, me: nat, w: Waiter, m: Move)
    requires Shapes(sh, w, m)
    ensures var sh' := Moved(sh, me, w, m);
      && (forall h | h != w.hpc || !(m.change.TakeSlot? || m.change.FreeSlot? || m.after.FreeSlot?) ::
            (h in sh'.slots <==> h in sh.slots) && (h in sh.slots ==> sh'.slots[h] == sh.slots[h]))
      && (m.change.TakeSlot? && m.after.Nothing? ==> sh'.slots == sh.slots[w.hpc := Slot(me, sh.now + SLOT_SECS)])
      && (m.change.FreeSlot? || m.after.FreeSlot? ==> w.hpc !in sh'.slots)
  {
  }

  lemma MoveKeepsShared(sh: Shared, me: nat, w: Waiter, m: Move)
    requires SharedInv(sh) && WaiterInv(sh, me, w) && Shapes(sh, w, m)
    ensures SharedInv(Moved(sh, me, w, m))
  {
    var sh' := Moved(sh, me, w, m);
    MovedOnLeases(sh, me, w, m);
    forall h
      ensures LeaseOk(sh', h)
    {
      assert LeaseOk(sh, h);
      assert h != w.hpc || !m.change.SetLease? ==> LeaseSame(sh, sh', h);
    }
    forall h, g | (h, g) in sh'.spent
      ensures g < |GrantsOf(sh', h)|
    {
      assert h != w.hpc || !m.change.SetLease? ==> LeaseSame(sh, sh', h);
    }
  }

  lemma MoveKeepsSelf(sh: Shared, me: nat, w: Waiter, m: Move)
    requires SharedInv(sh) && WaiterInv(sh, me, w) && Shapes(sh, w, m)
    ensures WaiterInv(Moved(sh, me, w, m), me, Advanced(w, m))
  {
    MovedOnLeases(sh, me, w, m);
    MovedOnSlots(sh, me, w, m);
    assert !m.change.SetLease? ==> LeaseSame(sh, Moved(sh, me, w, m), w.hpc);
  }

  lemma MoveKeepsOther(sh: Shared, me: nat, w: Waiter, m: Move, q: nat, v: Waiter)
    requires SharedInv(sh) && WaiterInv(sh, me, w) && Shapes(sh, w, m)
    requires q != me && WaiterInv(sh, q, v) && TokensDiffer(v, w)
    ensures WaiterInv(Moved(sh, me, w, m), q, v) && TokensDiffer(v, Advanced(w, m)) && TokensDiffer(Advanced(w, m), v)
  {
    MovedOnLeases(sh, me, w, m);
    MovedOnSlots(sh, me, w, m);
    assert v.hpc != w.hpc || !m.change.SetLease? ==> LeaseSame(sh, Moved(sh, me, w, m), v.hpc);
  }

  lemma LocalKeepsInv(s: State, p: nat, m: Move)
    requires Inv(s) && p in s.waiters && Shapes(s.sh, s.waiters[p], m)
    ensures Inv(State(Moved(s.sh, p, s.waiters[p], m), s.waiters[p := Advanced(s.waiters[p], m)]))
  {
    var w := s.waiters[p];
    var sh', w' := Moved(s.sh, p, w, m), Advanced(w, m);
    MoveKeepsShared(s.sh, p, w, m);
    MoveKeepsSelf(s.sh, p, w, m);
    forall q | q in s.waiters && q != p
      ensures WaiterInv(sh', q, s.waiters[q]) && TokensDiffer(s.waiters[q], w') && TokensDiffer(w', s.waiters[q])
    {
      MoveKeepsOther(s.sh, p, w, m, q, s.waiters[q]);
    }
  }

  // A change of the shared state that touches no lease, grant or slot in use.
  lemma QuietKeepsInv(s: State, sh': Shared, waiters': map<nat, Waiter>)
    requires Inv(s) && waiters'.Keys == s.waiters.Keys
    requires sh'.store == s.sh.store && sh'.grants == s.sh.grants && sh'.spent == s.sh.spent && s.sh.now <= sh'.now
    requires forall p | p in s.waiters :: waiters'[p] == s.waiters[p] || waiters'[p] == s.waiters[p].(pc := Crashed)
    requires forall p | p in s.waiters && InSection(waiters'[p].pc) ::
      waiters'[p].hpc in sh'.slots && sh'.slots[waiters'[p].hpc].holder == p
    ensures Inv(State(sh', waiters'))
  {
    forall h
      ensures LeaseOk(sh', h)
    {
      assert LeaseOk(s.sh, h);
    }
    forall p | p in waiters'
      ensures WaiterInv(sh', p, waiters'[p])
    {
      assert WaiterInv(s.sh, p, s.waiters[p]);
    }
    forall p, q | p in waiters' && q in waiters' && p != q
      ensures TokensDiffer(waiters'[p], waiters'[q])
    {
      assert TokensDiffer(s.waiters[p], s.waiters[q]);
    }
  }

  lemma ExpiryIsQuiet(s: State, hpc: string)
    requires Inv(s) && Step(s, ExpireSlot(hpc)).Some?
    ensures Inv(Step(s, ExpireSlot(hpc)).value)
  {
    var s' := Step(s, ExpireSlot(hpc)).value;
    forall p | p in s.waiters && InSection(s'.waiters[p].pc)
      ensures s'.waiters[p].hpc in s'.sh.slots && s'.sh.slots[s'.waiters[p].hpc].holder == p
    {
      assert WaiterInv(s.sh, p, s.waiters[p]);
    }
    QuietKeepsInv(s, s'.sh, s'.waiters);
  }

  lemma StepKeepsInv(s: State, l: Label)
    requires Inv(s) && Step(s, l).Some?
    ensures Inv(Step(s, l).value)
  {
    match l
    case Local(p, c) =>
      MoveShape(s.sh, s.waiters[p], c);
      LocalKeepsInv(s, p, ChosenMove(s.sh, s.waiters[p], c).value);
    case ExpireSlot(hpc) => ExpiryIsQuiet(s, hpc);
    case Tick(d) =>
      assert forall p | p in s.waiters :: WaiterInv(s.sh, p, s.waiters[p]);
      QuietKeepsInv(s, Step(s, l).value.sh, s.waiters);
    case CancelFlow(flow) =>
      assert forall p | p in s.waiters :: WaiterInv(s.sh, p, s.waiters[p]);
      QuietKeepsInv(s, Step(s, l).value.sh, s.waiters);
    case Spawn(p, w) =>
  }

  lemma {:induction false} RunKeepsInv(ss: seq<State>, ls: seq<Label>, i: nat)
    requires IsRun(ss, ls) && i < |ss|
    ensures Inv(ss[i])
  {
    if i == 0 {
      assert forall h :: GrantsOf(ss[0].sh, h) == [];
    } else {
      RunKeepsInv(ss, ls, i - 1);
      var k := i - 1;
      assert Step(ss[k], ls[k]) == Some(ss[k + 1]);
      StepKeepsInv(ss[k], ls[k]);
    }
  }

  // ---- The theorems -------------------------------------------------------------------

  // The grants that fall in a closed window.
  function GrantsWithin(gs: seq<int>, from: int, to: int): nat {
    if gs == [] then 0
    else GrantsWithin(gs[..|gs| - 1], from, to) + if from <= gs[|gs| - 1] <= to then 1 else 0
  }

  lemma {:induction false} WindowBound(gs: seq<int>, from: int, to: int)
    requires Spaced(gs)
    ensures from <= to ==> GrantsWithin(gs, from, to) <= (to - from) / LEASE_SECS + 1
    ensures to < from ==> GrantsWithin(gs, from, to) == 0
  {
    if gs != [] {
      var n := |gs| - 1;
      var before, x := gs[..n], gs[n];
      WindowBound(before, from, to);
      if from <= x <= to {
        assert forall i | 0 <= i < n :: before[i] + LEASE_SECS <= x;
        NarrowWindow(before, from, to, x - LEASE_SECS);
        WindowBound(before, from, x - LEASE_SECS);
      }
    }
  }

  lemma {:induction false} NarrowWindow(gs: seq<int>, from: int, to: int, to': int)
    requires to' <= to && forall g | g in gs :: g <= to'
    ensures GrantsWithin(gs, from, to) == GrantsWithin(gs, from, to')
  {
    if gs != [] {
      var before := gs[..|gs| - 1];
      assert gs[|gs| - 1] in gs && forall g | g in before :: g in gs;
      NarrowWindow(before, from, to, to');
    }
  }

  // Over every run, with any number of waiters, any interleaving of calls and any crashes:
  // the leases written for an HPC were computed at least LEASE_SECS apart, so every closed
  // window of length d holds at most d / LEASE_SECS + 1 of them.
  lemma LeasesAreSpaced(ss: seq<State>, ls: seq<Label>, i: nat, hpc: string, from: int, to: int)
    requires IsRun(ss, ls) && i < |ss| && from <= to
    ensures Spaced(GrantsOf(ss[i].sh, hpc))
    ensures GrantsWithin(GrantsOf(ss[i].sh, hpc), from, to) <= (to - from) / LEASE_SECS + 1
  {
    RunKeepsInv(ss, ls, i);
    assert LeaseOk(ss[i].sh, hpc);
    WindowBound(GrantsOf(ss[i].sh, hpc), from, to);
  }

  // The steps in which sacct is called, whether or not the caller lives to see the answer.
  predicate SendsSacct(w: Waiter, c: Choice) {
    w.pc.CallSacct? && (c.Answer? || c.DieSent?)
  }

  // The sacct calls made for an HPC along a run.
  ghost predicate CallsSacctFor(s: State, l: Label, hpc: string) {
    l.Local? && l.p in s.waiters && SendsSacct(s.waiters[l.p], l.c) && s.waiters[l.p].hpc == hpc
  }

  ghost function SacctCalls(ss: seq<State>, ls: seq<Label>, hpc: string): nat
    requires |ls| <= |ss|
  {
    if ls == [] then 0
    else
      var n := |ls| - 1;
      SacctCalls(ss, ls[..n], hpc) + if CallsSacctFor(ss[n], ls[n], hpc) then 1 else 0
  }

  function SpentFor(sh: Shared, hpc: string): set<nat> {
    set hg <- sh.spent | hg.0 == hpc :: hg.1
  }

  lemma SpentGrows(sh: Shared, sh': Shared, hpc: string, g: nat)
    requires sh'.spent == sh.spent + {(hpc, g)} && (hpc, g) !in sh.spent
    ensures |SpentFor(sh', hpc)| == |SpentFor(sh, hpc)| + 1
    ensures forall h | h != hpc :: SpentFor(sh', h) == SpentFor(sh, h)
  {
    assert SpentFor(sh', hpc) == SpentFor(sh, hpc) + {g};
  }

  lemma SpentByMove(sh: Shared, me: nat, w: Waiter, c: Choice, hpc: string)
    requires WaiterInv(sh, me, w) && ChosenMove(sh, w, c).Some?
    ensures |SpentFor(Moved(sh, me, w, ChosenMove(sh, w, c).value), hpc)|
      == |SpentFor(sh, hpc)| + if SendsSacct(w, c) && w.hpc == hpc then 1 else 0
  {
    var m := ChosenMove(sh, w, c).value;
    MoveShape(sh, w, c);
    MovedOnLeases(sh, me, w, m);
    QueryIffSent(sh, w, c);
    if m.change.Query? {
      SpentGrows(sh, Moved(sh, me, w, m), w.hpc, m.change.won);
    } else {
      assert Moved(sh, me, w, m).spent == sh.spent;
    }
  }

  lemma SpentByStep(s: State, l: Label, hpc: string)
    requires Inv(s) && Step(s, l).Some?
    ensures |SpentFor(Step(s, l).value.sh, hpc)| == |SpentFor(s.sh, hpc)| + if CallsSacctFor(s, l, hpc) then 1 else 0
  {
    if l.Local? {
      SpentByMove(s.sh, l.p, s.waiters[l.p], l.c, hpc);
    } else {
      assert Step(s, l).value.sh.spent == s.sh.spent;
    }
  }

  lemma QueryIffSent(sh: Shared, w: Waiter, c: Choice)
    requires ChosenMove(sh, w, c).Some?
    ensures ChosenMove(sh, w, c).value.change.Query? <==> SendsSacct(w, c)
  {
    if GoMove(sh, w).Some? {
      GoShape(sh, w);
    }
  }

  lemma {:induction false} SacctCallsAreSpent(ss: seq<State>, ls: seq<Label>, hpc: string)
    requires IsRun(ss, ls)
    ensures SacctCalls(ss, ls, hpc) == |SpentFor(ss[|ls|].sh, hpc)|
  {
    if ls != [] {
      var n := |ls| - 1;
      SacctCallsAreSpent(ss[..|ls|], ls[..n], hpc);
      SacctCallsOfPrefix(ss, ls, n, hpc);
      RunKeepsInv(ss, ls, n);
      assert Step(ss[n], ls[n]) == Some(ss[n + 1]);
      SpentByStep(ss[n], ls[n], hpc);
    } else {
      assert SpentFor(ss[0].sh, hpc) == {};
    }
  }

  lemma {:induction false} SacctCallsOfPrefix(ss: seq<State>, ls: seq<Label>, n: nat, hpc: string)
    requires n < |ls| < |ss|
    ensures SacctCalls(ss[..|ls|], ls[..n], hpc) == SacctCalls(ss, ls[..n], hpc)
    decreases n
  {
    if n > 0 {
      assert ls[..n][..n - 1] == ls[..n - 1];
      SacctCallsOfPrefix(ss, ls, n - 1, hpc);
    }
  }

  lemma {:induction false} BoundedSetIsSmall(xs: set<nat>, n: nat)
    requires forall x | x in xs :: x < n
    ensures |xs| <= n
  {
    if n == 0 {
      assert xs == {};
    } else if n - 1 in xs {
      BoundedSetIsSmall(xs - {n - 1}, n - 1);
    } else {
      BoundedSetIsSmall(xs, n - 1);
    }
  }

  // Every sacct refresh is paid for by a lease of its own: over every run the number of
  // sacct calls for an HPC never exceeds the number of leases written for it.
  lemma RefreshesNeverExceedGrants(ss: seq<State>, ls: seq<Label>, hpc: string)
    requires IsRun(ss, ls)
    ensures SacctCalls(ss, ls, hpc) <= |GrantsOf(ss[|ls|].sh, hpc)|
  {
    SacctCallsAreSpent(ss, ls, hpc);
    RunKeepsInv(ss, ls, |ls|);
    BoundedSetIsSmall(SpentFor(ss[|ls|].sh, hpc), |GrantsOf(ss[|ls|].sh, hpc)|);
  }
}

// Cancellation containment: which flow owns a status variable, and what the cancellation
// guard of one flow can do to the jobs of another.
//
// _set_status reads the owner and then writes the variable. The theorems about a variable ask
// that nobody changes its owner between the two; everything else interleaves freely.
module Ownership {
  import opened Wrappers
  import opened Names
  import opened Protocol
  import Provenance

  predicate ReadsOwner(pc: Pc) {
    pc.SubmitRead? || pc.MarkRead? || pc.RefreshRead? || pc.PendingRead?
  }

  predicate WritesOwner(pc: Pc) {
    pc.SubmitWrite? || pc.MarkWrite? || pc.RefreshWrite? || pc.PendingWrite?
  }

  // The job a waiter in the middle of _set_status is about to write.
  function Target(w: Waiter): Option<string> {
    match w.pc
    case SubmitWrite(_) => Some(w.job)
    case PendingWrite(_) => Some(w.job)
    case MarkWrite(ids, next, _, _) => if next < |ids| then Some(ids[next]) else None
    case RefreshWrite(todo, _) => if todo == [] then None else Some(todo[0].job)
    case _ => None
  }

  function ChosenOwner(pc: Pc): Option<string>
    requires WritesOwner(pc)
  {
    match pc
    case SubmitWrite(o) => o
    case PendingWrite(o) => o
    case MarkWrite(_, _, _, o) => o
    case RefreshWrite(_, o) => o
  }

  ghost predicate OwnedBy(sh: Shared, name: string, flow: string) {
    name in sh.store && sh.store[name].value.StatusOf? && sh.store[name].value.owner == Some(flow)
  }

  function OwnerAt(sh: Shared, name: string): Option<string> {
    match Lookup(sh.store, name)
    case Some(StatusOf(_, _, _, owner)) => owner
    case _ => None
  }

  // The step carries out the writing half of a _set_status of the variable; the caller may
  // see it fail all the same.
  ghost predicate Writes(s: State, l: Label, name: string) {
    && l.Local? && (l.c.Go? || (l.c.ServerError? && l.c.applied)) && l.p in s.waiters
    && var w := s.waiters[l.p];
       WritesOwner(w.pc) && Target(w).Some? && name == StatusVarName(w.hpc, Target(w).value)
  }

  // ---- One step -----------------------------------------------------------------------

  lemma SetsStatusIff(sh: Shared, w: Waiter, c: Choice)
    requires ChosenMove(sh, w, c).Some?
    ensures ChosenMove(sh, w, c).value.change.SetStatus? <==>
      (c.Go? || (c.ServerError? && c.applied)) && WritesOwner(w.pc) && Target(w).Some?
  {
    if GoMove(sh, w).Some? {
      assert GoMove(sh, w).value.change.SetStatus? <==> WritesOwner(w.pc) && Target(w).Some?;
    }
  }

  lemma WriteShape(sh: Shared, w: Waiter, c: Choice)
    requires ChosenMove(sh, w, c).Some?
    ensures var m := ChosenMove(sh, w, c).value;
      && !m.after.SetStatus? && !m.after.SetLease? && !m.after.UnsetStatus?
      && (m.change.SetStatus? ==> WritesOwner(w.pc) && Target(w) == Some(m.change.job) && m.change.owner == ChosenOwner(w.pc))
      && (WritesOwner(m.pc) ==> ReadsOwner(w.pc) && c.Go? && m.change.Nothing? && m.after.Nothing?)
      && (WritesOwner(m.pc) && Target(Advanced(w, m)).Some? ==>
            ChosenOwner(m.pc) == ResolveOwner(sh, w.hpc, Target(Advanced(w, m)).value, w.flow))
  {
    if GoMove(sh, w).Some? {
      GoWriteShape(sh, w);
    }
  }

  lemma GoWriteShape(sh: Shared, w: Waiter)
    requires GoMove(sh, w).Some?
    ensures var m := GoMove(sh, w).value;
      && m.after.Nothing?
      && (m.change.SetStatus? ==> WritesOwner(w.pc) && Target(w) == Some(m.change.job) && m.change.owner == ChosenOwner(w.pc))
      && (WritesOwner(m.pc) ==> ReadsOwner(w.pc) && m.change.Nothing?)
      && (WritesOwner(m.pc) && Target(Advanced(w, m)).Some? ==>
            ChosenOwner(m.pc) == ResolveOwner(sh, w.hpc, Target(Advanced(w, m)).value, w.flow))
  {
  }

  lemma ApplyOnOwner(sh: Shared, me: nat, hpc: string, ch: Change, name: string, flow: string)
    requires Provenance.StoreInv(sh) && OwnedBy(sh, name, flow)
    ensures var sh' := Apply(sh, me, hpc, ch);
      name in sh'.store ==>
        && sh'.store[name].born == sh.store[name].born
        && (!OwnedBy(sh', name, flow) <==> ch.SetStatus? && name == StatusVarName(hpc, ch.job) && ch.owner != Some(flow))
  {
    assert Provenance.VariableOk(sh, name);
    if ch.SetLease? {
      StatusIsNoLease(sh.store[name].value.hpc, sh.store[name].value.job, hpc);
    }
  }

  // A step takes a variable from the flow that owns it exactly when it is the writing half of
  // a _set_status of that very variable, whose reading half chose another owner.
  lemma OwnerIsLostIff(s: State, l: Label, name: string, flow: string)
    requires Provenance.StoreInv(s.sh) && OwnedBy(s.sh, name, flow) && Step(s, l).Some?
    requires name in Step(s, l).value.sh.store
    ensures Step(s, l).value.sh.store[name].born == s.sh.store[name].born
    ensures !OwnedBy(Step(s, l).value.sh, name, flow) <==>
      Writes(s, l, name) && ChosenOwner(s.waiters[l.p].pc) != Some(flow)
  {
    if l.Local? {
      var w, m := s.waiters[l.p], ChosenMove(s.sh, s.waiters[l.p], l.c).value;
      WriteShape(s.sh, w, l.c);
      SetsStatusIff(s.sh, w, l.c);
      ApplyOnOwner(s.sh, l.p, w.hpc, m.change, name, flow);
    }
  }

  // The step carries out the deletion of the variable.
  ghost predicate Deletes(s: State, l: Label, name: string) {
    && l.Local? && (l.c.Go? || (l.c.ServerError? && l.c.applied)) && l.p in s.waiters
    && var w := s.waiters[l.p];
       (w.pc.FoldDelete? || w.pc.DeleteStatus?) && name == StatusVarName(w.hpc, w.job)
  }

  lemma DeletesIff(sh: Shared, w: Waiter, c: Choice)
    requires ChosenMove(sh, w, c).Some?
    ensures var m := ChosenMove(sh, w, c).value;
      && (m.change.UnsetStatus? <==> (c.Go? || (c.ServerError? && c.applied)) && (w.pc.FoldDelete? || w.pc.DeleteStatus?))
      && (m.change.UnsetStatus? ==> m.change.job == w.job)
  {
    if GoMove(sh, w).Some? {
      var m := GoMove(sh, w).value;
      assert m.change.UnsetStatus? <==> w.pc.FoldDelete? || w.pc.DeleteStatus?;
      assert m.change.UnsetStatus? ==> m.change.job == w.job;
    }
  }

  lemma ApplyOnName(sh: Shared, me: nat, hpc: string, ch: Change, at: string, job: string)
    requires !(ch.SetStatus? && StatusVarName(hpc, ch.job) == StatusVarName(at, job))
    requires !(ch.UnsetStatus? && StatusVarName(hpc, ch.job) == StatusVarName(at, job))
    ensures var sh', name := Apply(sh, me, hpc, ch), StatusVarName(at, job);
      (name in sh'.store <==> name in sh.store) && (name in sh.store ==> sh'.store[name] == sh.store[name])
  {
    if ch.SetLease? {
      StatusIsNoLease(at, job, hpc);
    }
  }

  // A step that neither writes nor deletes a job's variable leaves it as it is.
  lemma Untouched(s: State, l: Label, hpc: string, job: string)
    requires Step(s, l).Some?
    requires !Writes(s, l, StatusVarName(hpc, job)) && !Deletes(s, l, StatusVarName(hpc, job))
    ensures var s', name := Step(s, l).value, StatusVarName(hpc, job);
      (name in s'.sh.store <==> name in s.sh.store) && (name in s.sh.store ==> s'.sh.store[name] == s.sh.store[name])
  {
    if l.Local? {
      var w, m := s.waiters[l.p], ChosenMove(s.sh, s.waiters[l.p], l.c).value;
      WriteShape(s.sh, w, l.c);
      SetsStatusIff(s.sh, w, l.c);
      DeletesIff(s.sh, w, l.c);
      ApplyOnName(s.sh, l.p, w.hpc, m.change, hpc, job);
      ApplyOnName(Apply(s.sh, l.p, w.hpc, m.change), l.p, w.hpc, m.after, hpc, job);
    }
  }

  // A variable that is not there comes back exactly with the writing half of a _set_status of
  // it: an insertion, a refresh or a guard's mark whose listing or reading half came before.
  lemma AppearsIff(s: State, l: Label, hpc: string, job: string)
    requires Step(s, l).Some? && StatusVarName(hpc, job) !in s.sh.store
    ensures StatusVarName(hpc, job) in Step(s, l).value.sh.store <==> Writes(s, l, StatusVarName(hpc, job))
  {
    if Writes(s, l, StatusVarName(hpc, job)) {
      var w, m := s.waiters[l.p], ChosenMove(s.sh, s.waiters[l.p], l.c).value;
      WriteShape(s.sh, w, l.c);
      SetsStatusIff(s.sh, w, l.c);
    } else if Deletes(s, l, StatusVarName(hpc, job)) {
      var w, m := s.waiters[l.p], ChosenMove(s.sh, s.waiters[l.p], l.c).value;
      WriteShape(s.sh, w, l.c);
      DeletesIff(s.sh, w, l.c);
    } else {
      Untouched(s, l, hpc, job);
    }
  }

  // ---- Runs ---------------------------------------------------------------------------

  // Step r is the reading half whose writing half waiter p has still to do at state i.
  ghost predicate ReadFor(ss: seq<State>, ls: seq<Label>, r: nat, i: nat, p: nat)
    requires |ss| == |ls| + 1 && r < i < |ss|
  {
    && ls[r] == Local(p, Go) && p in ss[r].waiters && ReadsOwner(ss[r].waiters[p].pc)
    && p in ss[i].waiters && forall m | r < m <= i :: p in ss[m].waiters && ss[m].waiters[p] == ss[i].waiters[p]
  }

  // Between a setter's read of the variable and its write nobody changes the variable's owner.
  ghost predicate OwnerSteady(ss: seq<State>, ls: seq<Label>, name: string)
    requires |ss| == |ls| + 1
  {
    forall r: nat, j: nat | r < j < |ls| && Writes(ss[j], ls[j], name) && ReadFor(ss, ls, r, j, ls[j].p) ::
      OwnerAt(ss[r].sh, name) == OwnerAt(ss[j].sh, name)
  }

  // Whoever is about to write an owner chose it in an earlier step of its own.
  lemma {:induction false} WasRead(ss: seq<State>, ls: seq<Label>, i: nat, p: nat) returns (r: nat)
    requires IsRun(ss, ls) && i < |ss| && p in ss[i].waiters && WritesOwner(ss[i].waiters[p].pc)
    ensures r < i && ReadFor(ss, ls, r, i, p)
    ensures var w := ss[i].waiters[p];
      Target(w).Some? ==> ChosenOwner(w.pc) == ResolveOwner(ss[r].sh, w.hpc, Target(w).value, w.flow)
  {
    var k := i - 1;
    assert Step(ss[k], ls[k]) == Some(ss[k + 1]);
    if ls[k].Local? && ls[k].p == p {
      WriteShape(ss[k].sh, ss[k].waiters[p], ls[k].c);
      r := k;
    } else {
      assert ss[k].waiters[p] == ss[i].waiters[p];
      r := WasRead(ss, ls, k, p);
    }
  }

  lemma RunStepKeepsOwner(ss: seq<State>, ls: seq<Label>, k: nat, name: string, flow: string)
    requires IsRun(ss, ls) && OwnerSteady(ss, ls, name) && k < |ls| && OwnedBy(ss[k].sh, name, flow)
    ensures name in ss[k + 1].sh.store ==> OwnedBy(ss[k + 1].sh, name, flow) && ss[k + 1].sh.store[name].born == ss[k].sh.store[name].born
  {
    assert Step(ss[k], ls[k]) == Some(ss[k + 1]);
    Provenance.RunKeepsInv(ss, ls, k);
    if name in ss[k + 1].sh.store {
      OwnerIsLostIff(ss[k], ls[k], name, flow);
      if Writes(ss[k], ls[k], name) {
        var r := WasRead(ss, ls, k, ls[k].p);
        assert OwnerAt(ss[r].sh, name) == OwnerAt(ss[k].sh, name);
      }
    }
  }

  // Nothing at all between the two halves is more than enough.
  ghost predicate SettersUninterrupted(ss: seq<State>, ls: seq<Label>)
    requires |ss| == |ls| + 1
  {
    forall i | 0 <= i < |ls| - 1 && ls[i].Local? && ls[i].c.Go? &&
      ls[i].p in ss[i].waiters && ReadsOwner(ss[i].waiters[ls[i].p].pc) ::
      ls[i + 1].Local? && ls[i + 1].p == ls[i].p
  }

  lemma UninterruptedIsSteady(ss: seq<State>, ls: seq<Label>, name: string)
    requires IsRun(ss, ls) && SettersUninterrupted(ss, ls)
    ensures OwnerSteady(ss, ls, name)
  {
    forall r: nat, j: nat | r < j < |ls| && Writes(ss[j], ls[j], name) && ReadFor(ss, ls, r, j, ls[j].p)
      ensures OwnerAt(ss[r].sh, name) == OwnerAt(ss[j].sh, name)
    {
      var p := ls[j].p;
      assert Step(ss[r], ls[r]) == Some(ss[r + 1]);
      assert ss[r + 1].waiters[p] == ss[j].waiters[p];
      WriteShape(ss[r].sh, ss[r].waiters[p], Go);
      if r + 1 < j {
        assert Step(ss[r + 1], ls[r + 1]) == Some(ss[r + 1 + 1]);
        assert ss[r + 1 + 1].waiters[p] == ss[j].waiters[p];
        assert ls[r + 1].Local? && ls[r + 1].p == p;
        WriteShape(ss[r + 1].sh, ss[r + 1].waiters[p], ls[r + 1].c);
      }
    }
  }

  ghost predicate BirthsOk(sh: Shared) {
    forall name | name in sh.store :: sh.store[name].born < sh.births
  }

  lemma ApplyBirths(sh: Shared, me: nat, hpc: string, ch: Change)
    requires BirthsOk(sh)
    ensures var sh' := Apply(sh, me, hpc, ch);
      && BirthsOk(sh') && sh.births <= sh'.births
      && forall name | name in sh'.store && (name !in sh.store || sh'.store[name].born != sh.store[name].born) ::
           sh.births <= sh'.store[name].born
  {
  }

  lemma StepBirths(s: State, l: Label)
    requires BirthsOk(s.sh) && Step(s, l).Some?
    ensures var sh' := Step(s, l).value.sh;
      && BirthsOk(sh') && s.sh.births <= sh'.births
      && forall name | name in sh'.store && (name !in s.sh.store || sh'.store[name].born != s.sh.store[name].born) ::
           s.sh.births <= sh'.store[name].born
  {
    if l.Local? {
      var w, m := s.waiters[l.p], ChosenMove(s.sh, s.waiters[l.p], l.c).value;
      var mid := Apply(s.sh, l.p, w.hpc, m.change);
      ApplyBirths(s.sh, l.p, w.hpc, m.change);
      ApplyBirths(mid, l.p, w.hpc, m.after);
    }
  }

  lemma {:induction false} RunBirths(ss: seq<State>, ls: seq<Label>, i: nat)
    requires IsRun(ss, ls) && i < |ss|
    ensures BirthsOk(ss[i].sh)
  {
    if i > 0 {
      var k := i - 1;
      RunBirths(ss, ls, k);
      assert Step(ss[k], ls[k]) == Some(ss[k + 1]);
      StepBirths(ss[k], ls[k]);
    }
  }

  lemma RunStepBirths(ss: seq<State>, ls: seq<Label>, k: nat, name: string)
    requires IsRun(ss, ls) && k < |ls| && name in ss[k + 1].sh.store
    requires ss[k + 1].sh.store[name].born < ss[k].sh.births
    ensures ss[k].sh.births <= ss[k + 1].sh.births
    ensures name in ss[k].sh.store && ss[k].sh.store[name].born == ss[k + 1].sh.store[name].born
  {
    assert Step(ss[k], ls[k]) == Some(ss[k + 1]);
    RunBirths(ss, ls, k);
    StepBirths(ss[k], ls[k]);
  }

  lemma {:induction false} BirthsGrow(ss: seq<State>, ls: seq<Label>, i: nat, j: nat)
    requires IsRun(ss, ls) && i <= j < |ss|
    ensures ss[i].sh.births <= ss[j].sh.births
  {
    if i < j {
      var k := j - 1;
      BirthsGrow(ss, ls, i, k);
      assert Step(ss[k], ls[k]) == Some(ss[k + 1]);
      RunBirths(ss, ls, k);
      StepBirths(ss[k], ls[k]);
    }
  }

  // A variable that has an owner keeps it until it is deleted, whichever flow's waiters
  // refresh it in between.
  lemma {:induction false} OwnerIsKept(ss: seq<State>, ls: seq<Label>, i: nat, j: nat, name: string, flow: string)
    requires IsRun(ss, ls) && OwnerSteady(ss, ls, name)
    requires i <= j < |ss| && OwnedBy(ss[i].sh, name, flow)
    requires name in ss[j].sh.store && ss[j].sh.store[name].born == ss[i].sh.store[name].born
    ensures OwnedBy(ss[j].sh, name, flow)
    decreases j - i
  {
    if i < j {
      var k := j - 1;
      RunBirths(ss, ls, i);
      BirthsGrow(ss, ls, i, k);
      RunStepBirths(ss, ls, k, name);
      OwnerIsKept(ss, ls, i, k, name, flow);
      RunStepKeepsOwner(ss, ls, k, name, flow);
    }
  }

  // ---- The guard ----------------------------------------------------------------------

  function Marking(pc: Pc): Option<(seq<string>, nat)> {
    match pc
    case MarkRead(ids, _, horizon) => Some((ids, horizon))
    case MarkWrite(ids, _, horizon, _) => Some((ids, horizon))
    case CallScancel(ids, horizon) => Some((ids, horizon))
    case _ => None
  }

  // The variable is among those the guard listed.
  ghost predicate IsListed(w: Waiter, name: string) {
    Marking(w.pc).Some? && exists job :: job in Marking(w.pc).value.0 && name == StatusVarName(w.hpc, job)
  }

  // A variable the guard listed is, if it was never deleted since, of the guard's own flow.
  ghost predicate GuardOk(sh: Shared, w: Waiter, name: string) {
    && (Marking(w.pc).Some? ==> w.flow.Some? && Marking(w.pc).value.1 <= sh.births)
    && (IsListed(w, name) && HeldSince(sh, name, Marking(w.pc).value.1) ==> OwnedBy(sh, name, w.flow.value))
  }

  // The variable is there and was created before the horizon.
  ghost predicate HeldSince(sh: Shared, name: string, horizon: nat) {
    name in sh.store && sh.store[name].born < horizon
  }

  lemma {:induction false} PickedAreOwned(sh: Shared, hpc: string, view: seq<string>, flow: string)
    requires Provenance.StoreInv(sh)
    ensures forall job | job in OwnedJobs(sh.store, hpc, view, flow) :: OwnedBy(sh, StatusVarName(hpc, job), flow)
  {
    if view != [] {
      PickedAreOwned(sh, hpc, view[1..], flow);
      assert view[0] in sh.store ==> Provenance.VariableOk(sh, view[0]);
    }
  }

  lemma MarkShape(sh: Shared, w: Waiter, c: Choice)
    requires ChosenMove(sh, w, c).Some?
    ensures var m := ChosenMove(sh, w, c).value;
      Marking(m.pc).Some? ==>
        || Marking(m.pc) == Marking(w.pc)
        || (&& w.pc.GuardList? && c.See? && w.flow.Some? && m.change.Nothing? && m.after.Nothing?
            && Marking(m.pc) == Some((OwnedJobs(sh.store, w.hpc, c.view, w.flow.value), sh.births)))
  {
    if GoMove(sh, w).Some? {
      assert Marking(GoMove(sh, w).value.pc).Some? ==> Marking(GoMove(sh, w).value.pc) == Marking(w.pc);
    }
  }

  lemma ListingIsOk(sh: Shared, w: Waiter, view: seq<string>, name: string)
    requires Provenance.StoreInv(sh) && BirthsOk(sh) && w.flow.Some? && IsView(sh.store, view)
    ensures GuardOk(sh, w.(pc := AfterMark(OwnedJobs(sh.store, w.hpc, view, w.flow.value), 0, sh.births)), name)
  {
    PickedAreOwned(sh, w.hpc, view, w.flow.value);
  }

  // One step of a run keeps what a guard that was listing before knows.
  lemma StepKeepsGuard(ss: seq<State>, ls: seq<Label>, k: nat, w: Waiter, name: string)
    requires IsRun(ss, ls) && OwnerSteady(ss, ls, name) && k < |ls| && GuardOk(ss[k].sh, w, name)
    ensures GuardOk(ss[k + 1].sh, w, name)
  {
    assert Step(ss[k], ls[k]) == Some(ss[k + 1]);
    RunBirths(ss, ls, k);
    StepBirths(ss[k], ls[k]);
    if IsListed(w, name) && HeldSince(ss[k + 1].sh, name, Marking(w.pc).value.1) {
      RunStepKeepsOwner(ss, ls, k, name, w.flow.value);
    }
  }

  lemma {:induction false} RunKeepsGuard(ss: seq<State>, ls: seq<Label>, i: nat, p: nat, name: string)
    requires IsRun(ss, ls) && OwnerSteady(ss, ls, name) && i < |ss| && p in ss[i].waiters
    ensures GuardOk(ss[i].sh, ss[i].waiters[p], name)
  {
    if i > 0 {
      var k := i - 1;
      assert Step(ss[k], ls[k]) == Some(ss[k + 1]);
      if p in ss[k].waiters {
        var w := ss[k].waiters[p];
        RunKeepsGuard(ss, ls, k, p, name);
        StepKeepsGuard(ss, ls, k, w, name);
        if ls[k].Local? && ls[k].p == p {
          MarkShape(ss[k].sh, w, ls[k].c);
          if w.pc.GuardList? && ls[k].c.See? && w.flow.Some? {
            Provenance.RunKeepsInv(ss, ls, k);
            RunBirths(ss, ls, k);
            ListingIsOk(ss[k].sh, w, ls[k].c.view, name);
          }
        }
      }
    }
  }

  // From its listing to its scancel a guard writes no variable it did not list, whatever else
  // happens, and what it writes is the mark.
  lemma GuardWritesOnlyListed(s: State, l: Label, name: string)
    requires l.Local? && l.p in s.waiters && Marking(s.waiters[l.p].pc).Some? && Step(s, l).Some?
    requires name in s.sh.store
    ensures var s' := Step(s, l).value;
      && name in s'.sh.store
      && (s'.sh.store[name] != s.sh.store[name] ==> IsListed(s.waiters[l.p], name) && Writes(s, l, name))
      && (Writes(s, l, name) ==> s'.sh.store[name].value.StatusOf? && s'.sh.store[name].value.status.Cancelling?)
  {
    var w := s.waiters[l.p];
    var m := ChosenMove(s.sh, w, l.c).value;
    WriteShape(s.sh, w, l.c);
    SetsStatusIff(s.sh, w, l.c);
    GuardWrites(s.sh, w, l.c);
    assert name in Apply(s.sh, l.p, w.hpc, m.change).store;
  }

  lemma GuardWrites(sh: Shared, w: Waiter, c: Choice)
    requires ChosenMove(sh, w, c).Some? && Marking(w.pc).Some?
    ensures var m := ChosenMove(sh, w, c).value;
      && (m.change.SetStatus? ==> m.change.job in Marking(w.pc).value.0 && m.change.status.Cancelling?)
      && !m.change.SetLease? && !m.change.UnsetStatus? && !m.after.SetLease? && !m.after.UnsetStatus? && !m.after.SetStatus?
  {
    if GoMove(sh, w).Some? {
      var m := GoMove(sh, w).value;
      assert m.change.SetStatus? ==> w.pc.MarkWrite? && m.change.job == w.pc.ids[w.pc.next] && m.change.status.Cancelling?;
    }
  }

  // A listed variable belongs to another flow, or to none, only when it was deleted after the
  // listing and created anew.
  lemma ListedOfAnotherFlow(ss: seq<State>, ls: seq<Label>, i: nat, p: nat, name: string)
    requires IsRun(ss, ls) && OwnerSteady(ss, ls, name) && i < |ss| && p in ss[i].waiters
    requires IsListed(ss[i].waiters[p], name) && name in ss[i].sh.store
    ensures ss[i].waiters[p].flow.Some?
    ensures !OwnedBy(ss[i].sh, name, ss[i].waiters[p].flow.value) ==>
      ss[i].sh.store[name].born >= Marking(ss[i].waiters[p].pc).value.1
  {
    RunKeepsGuard(ss, ls, i, p, name);
  }

  // The guard of a flow, from its listing to its scancel, leaves a variable of another flow
  // as it is, unless it listed the variable for its own flow and the variable was deleted and
  // created anew since.
  lemma GuardSparesOtherFlows(ss: seq<State>, ls: seq<Label>, k: nat, name: string, other: string)
    requires IsRun(ss, ls) && OwnerSteady(ss, ls, name) && k < |ls|
    requires ls[k].Local? && ls[k].p in ss[k].waiters && Marking(ss[k].waiters[ls[k].p].pc).Some?
    requires OwnedBy(ss[k].sh, name, other) && ss[k].waiters[ls[k].p].flow != Some(other)
    ensures name in ss[k + 1].sh.store
    ensures ss[k + 1].sh.store[name] != ss[k].sh.store[name] ==>
      var w := ss[k].waiters[ls[k].p];
      IsListed(w, name) && ss[k].sh.store[name].born >= Marking(w.pc).value.1
  {
    assert Step(ss[k], ls[k]) == Some(ss[k + 1]);
    GuardWritesOnlyListed(ss[k], ls[k], name);
    if ss[k + 1].sh.store[name] != ss[k].sh.store[name] {
      ListedOfAnotherFlow(ss, ls, k, ls[k].p, name);
    }
  }

  // In that case the guard does mark the other flow's variable.
  lemma GuardMarksWhatItListed(s: State, p: nat) returns (s': State, s'': State)
    requires p in s.waiters && s.waiters[p].pc.MarkRead? && s.waiters[p].pc.next < |s.waiters[p].pc.ids|
    ensures Step(s, Local(p, Go)) == Some(s') && Step(s', Local(p, Go)) == Some(s'')
    ensures var w := s.waiters[p];
      var name := StatusVarName(w.hpc, w.pc.ids[w.pc.next]);
      && name in s''.sh.store && s''.sh.store[name].value.StatusOf? && s''.sh.store[name].value.status.Cancelling?
      && forall other :: OwnedBy(s.sh, name, other) ==> OwnedBy(s''.sh, name, other)
  {
    s' := Step(s, Local(p, Go)).value;
    s'' := Step(s', Local(p, Go)).value;
  }

  // What a guard newly passes to scancel are exactly the jobs it listed, and the variable of
  // such a job, if it was never deleted since, is of the guard's own flow.
  lemma GuardCancelsOnlyItsOwn(ss: seq<State>, ls: seq<Label>, k: nat, job: string)
    requires IsRun(ss, ls) && k < |ls|
    requires ls[k].Local? && ls[k].p in ss[k].waiters && ss[k].waiters[ls[k].p].pc.CallScancel?
    requires (ls[k].c.ScancelAnswer? && ls[k].c.ok) || ls[k].c.DieSent?
    requires OwnerSteady(ss, ls, StatusVarName(ss[k].waiters[ls[k].p].hpc, job))
    ensures var w := ss[k].waiters[ls[k].p];
      && ((w.hpc, job) in ss[k + 1].sh.scancelled <==> job in w.pc.ids || (w.hpc, job) in ss[k].sh.scancelled)
      && (job in w.pc.ids && HeldSince(ss[k].sh, StatusVarName(w.hpc, job), w.pc.horizon) ==>
            w.flow.Some? && OwnedBy(ss[k].sh, StatusVarName(w.hpc, job), w.flow.value))
  {
    assert Step(ss[k], ls[k]) == Some(ss[k + 1]);
    RunKeepsGuard(ss, ls, k, ls[k].p, StatusVarName(ss[k].waiters[ls[k].p].hpc, job));
  }

  // Nothing else ever reaches scancel.
  lemma ScancelledIff(s: State, l: Label, hpc: string, job: string)
    requires Step(s, l).Some? && (hpc, job) !in s.sh.scancelled
    ensures (hpc, job) in Step(s, l).value.sh.scancelled <==>
      && l.Local? && ((l.c.ScancelAnswer? && l.c.ok) || l.c.DieSent?)
      && s.waiters[l.p].hpc == hpc && s.waiters[l.p].pc.CallScancel? && job in s.waiters[l.p].pc.ids
  {
    if l.Local? {
      var w := s.waiters[l.p];
      CallsOffIff(s.sh, w, l.c);
      CallOffOnly(s.sh, l.p, w.hpc, ChosenMove(s.sh, w, l.c).value.change);
      CallOffOnly(Apply(s.sh, l.p, w.hpc, ChosenMove(s.sh, w, l.c).value.change), l.p, w.hpc, ChosenMove(s.sh, w, l.c).value.after);
    }
  }

  lemma CallOffOnly(sh: Shared, me: nat, hpc: string, ch: Change)
    ensures Apply(sh, me, hpc, ch).scancelled == sh.scancelled + if ch.CallOff? then (set j | j in ch.jobs :: (hpc, j)) else {}
  {
  }

  lemma CallsOffIff(sh: Shared, w: Waiter, c: Choice)
    requires ChosenMove(sh, w, c).Some?
    ensures var m := ChosenMove(sh, w, c).value;
      && !m.after.CallOff?
      && (m.change.CallOff? <==> w.pc.CallScancel? && ((c.ScancelAnswer? && c.ok) || c.DieSent?))
      && (m.change.CallOff? ==> m.change.jobs == w.pc.ids)
  {
    if GoMove(sh, w).Some? {
      assert !GoMove(sh, w).value.change.CallOff? && !GoMove(sh, w).value.after.CallOff?;
    }
  }

  // ---- The listing --------------------------------------------------------------------

  lemma {:induction false} DistinctNamesFill(view: seq<string>, names: set<string>)
    requires forall i, j | 0 <= i < j < |view| :: view[i] != view[j]
    requires forall name | name in view :: name in names
    requires |view| == |names|
    ensures forall name | name in names :: name in view
  {
    if view != [] {
      var rest := view[1..];
      assert view[0] in view && view[0] !in rest;
      DistinctNamesFill(rest, names - {view[0]});
      assert forall name | name in names && name != view[0] :: name in names - {view[0]} && name in rest;
    } else {
      assert names == {};
    }
  }

  // With at most READ_LIMIT variables the guard picks exactly the jobs of its flow on the
  // HPC, in whatever order the store lists them.
  lemma GuardListsExactly(sh: Shared, hpc: string, view: seq<string>, flow: string, job: string)
    requires Provenance.StoreInv(sh) && IsView(sh.store, view) && |sh.store| <= READ_LIMIT
    ensures job in OwnedJobs(sh.store, hpc, view, flow) <==>
      Listed(sh.store, hpc, StatusVarName(hpc, job)) && OwnedBy(sh, StatusVarName(hpc, job), flow)
      && sh.store[StatusVarName(hpc, job)].value.job == job
  {
    var name := StatusVarName(hpc, job);
    DistinctNamesFill(view, sh.store.Keys);
    PickedJobs(sh, hpc, view, flow, job);
    if n :| n in view && Picked(sh, hpc, flow, n) && sh.store[n].value.job == job {
      assert Provenance.VariableOk(sh, n);
      assert n == name;
    }
  }

  ghost predicate Picked(sh: Shared, hpc: string, flow: string, name: string) {
    Listed(sh.store, hpc, name) && OwnedBy(sh, name, flow)
  }

  lemma {:induction false} PickedJobs(sh: Shared, hpc: string, view: seq<string>, flow: string, job: string)
    ensures job in OwnedJobs(sh.store, hpc, view, flow) <==>
      exists name :: name in view && Picked(sh, hpc, flow, name) && sh.store[name].value.job == job
  {
    if view != [] {
      PickedJobs(sh, hpc, view[1..], flow, job);
      assert forall name :: name in view <==> name == view[0] || name in view[1..];
    }
  }

  // ---- Null owners --------------------------------------------------------------------

  // What one complete _set_status by a waiter of `flow` does to the owner of a variable
  // that is there: it changes exactly when there was no owner and the waiter is in a flow.
  // So a variable created outside any flow is adopted by the first flow that refreshes it.
  lemma OwnerChangesIff(sh: Shared, me: nat, hpc: string, job: string, status: Status, flow: Option<string>)
    requires Lookup(sh.store, StatusVarName(hpc, job)).Some? && sh.store[StatusVarName(hpc, job)].value.StatusOf?
    ensures var name := StatusVarName(hpc, job);
      var sh' := Apply(sh, me, hpc, SetStatus(job, status, ResolveOwner(sh, hpc, job, flow)));
      name in sh'.store && sh'.store[name].value.StatusOf? &&
      (sh'.store[name].value.owner != sh.store[name].value.owner <==> sh.store[name].value.owner.None? && flow.Some?)
  {
  }
}

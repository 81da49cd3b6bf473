// The CANCELLING mark: exactly when it can be lost, and that nothing but a refresh or an
// insertion already in flight can lose it.
module Marker {
  import opened Wrappers
  import opened Names
  import opened Protocol
  import Provenance
  import Ownership
  import Sacct

  ghost predicate Marked(sh: Shared, name: string) {
    name in sh.store && sh.store[name].value.StatusOf? && sh.store[name].value.status.Cancelling?
  }

  ghost predicate Among(hpc: string, jobs: seq<string>, name: string) {
    exists job :: job in jobs && name == StatusVarName(hpc, job)
  }

  ghost predicate AmongInfos(hpc: string, todo: seq<Sacct.JobInfo>, name: string) {
    exists i :: 0 <= i < |todo| && name == StatusVarName(hpc, todo[i].job)
  }

  // The waiter listed the variable for a refresh it has not finished.
  ghost predicate Refreshes(w: Waiter, name: string) {
    match w.pc
    case CallSacct(_, ids) => Among(w.hpc, ids, name)
    case RefreshRead(todo) => AmongInfos(w.hpc, todo, name)
    case RefreshWrite(todo, _) => AmongInfos(w.hpc, todo, name)
    case _ => false
  }

  // The waiter is on its way to write something other than the mark into the variable: it
  // is inserting it, or it listed the job before the mark and has not finished its refresh.
  ghost predicate InFlight(w: Waiter, name: string) {
    match w.pc
    case SubmitRead => name == StatusVarName(w.hpc, w.job)
    case SubmitWrite(_) => name == StatusVarName(w.hpc, w.job)
    case PendingRead => name == StatusVarName(w.hpc, w.job)
    case PendingWrite(_) => name == StatusVarName(w.hpc, w.job)
    case _ => Refreshes(w, name)
  }

  ghost predicate Quiet(s: State, name: string) {
    Marked(s.sh, name) && forall p | p in s.waiters :: !InFlight(s.waiters[p], name)
  }

  // ---- When the mark is lost ----------------------------------------------------------

  // A step overwrites a mark exactly when it is the writing step, failed or not, of an
  // insertion or a refresh of that very variable.
  lemma MarkIsLostIff(s: State, l: Label, name: string)
    requires Provenance.StoreInv(s.sh) && Marked(s.sh, name) && Step(s, l).Some?
    requires name in Step(s, l).value.sh.store
    ensures !Marked(Step(s, l).value.sh, name) <==>
      && l.Local? && (l.c.Go? || (l.c.ServerError? && l.c.applied))
      && var w := s.waiters[l.p];
        (w.pc.SubmitWrite? || w.pc.PendingWrite? || w.pc.RefreshWrite?)
        && Ownership.Target(w).Some? && name == StatusVarName(w.hpc, Ownership.Target(w).value)
  {
    if l.Local? {
      var w, m := s.waiters[l.p], ChosenMove(s.sh, s.waiters[l.p], l.c).value;
      WriterShape(s.sh, w, l.c);
      ApplyOnMark(s.sh, l.p, w.hpc, m.change, name);
      Ownership.WriteShape(s.sh, w, l.c);
    }
  }

  lemma ApplyOnMark(sh: Shared, me: nat, hpc: string, ch: Change, name: string)
    requires Provenance.StoreInv(sh) && Marked(sh, name)
    ensures name in Apply(sh, me, hpc, ch).store ==>
      (Marked(Apply(sh, me, hpc, ch), name) <==>
       !(ch.SetStatus? && !ch.status.Cancelling? && name == StatusVarName(hpc, ch.job)))
  {
    assert Provenance.VariableOk(sh, name);
    if ch.SetLease? {
      StatusIsNoLease(sh.store[name].value.hpc, sh.store[name].value.job, hpc);
    }
  }

  // A step writes a status other than the mark exactly from the three writing points.
  lemma WriterShape(sh: Shared, w: Waiter, c: Choice)
    requires ChosenMove(sh, w, c).Some?
    ensures var m := ChosenMove(sh, w, c).value;
      m.change.SetStatus? && !m.change.status.Cancelling? <==>
        && (c.Go? || (c.ServerError? && c.applied))
        && (w.pc.SubmitWrite? || w.pc.PendingWrite? || w.pc.RefreshWrite?) && Ownership.Target(w).Some?
  {
    if GoMove(sh, w).Some? {
      var m := GoMove(sh, w).value;
      assert m.change.SetStatus? && !m.change.status.Cancelling? <==>
        (w.pc.SubmitWrite? || w.pc.PendingWrite? || w.pc.RefreshWrite?) && Ownership.Target(w).Some?;
    }
  }

  // ---- What keeps it ------------------------------------------------------------------

  lemma {:induction false} ListingSkipsMarks(sh: Shared, hpc: string, view: seq<string>, name: string)
    requires Provenance.StoreInv(sh) && (name in sh.store && sh.store[name].value.StatusOf? ==> Marked(sh, name))
    ensures !Among(hpc, RunningJobs(sh.store, hpc, view), name)
  {
    if view != [] {
      ListingSkipsMarks(sh, hpc, view[1..], name);
      if view[0] in sh.store {
        assert Provenance.VariableOk(sh, view[0]);
      }
      if job :| job in RunningJobs(sh.store, hpc, view) && name == StatusVarName(hpc, job) {
        assert job !in RunningJobs(sh.store, hpc, view[1..]);
      }
    }
  }

  lemma AnswersStayAmong(hpc: string, ids: seq<string>, lines: Option<seq<string>>, name: string)
    requires !Among(hpc, ids, name) && SacctPc(ids, lines).RefreshRead?
    ensures !AmongInfos(hpc, SacctPc(ids, lines).todo, name)
  {
    Sacct.ReadStatesIff(ids, lines.value);
    var todo := SacctPc(ids, lines).todo;
    forall i | 0 <= i < |todo|
      ensures name != StatusVarName(hpc, todo[i].job)
    {
      assert todo[i].job == ids[i] && ids[i] in ids;
    }
  }

  // A waiter that is not in flight for a marked variable does not become so.
  lemma StaysClear(sh: Shared, w: Waiter, c: Choice, name: string)
    requires Provenance.StoreInv(sh) && Marked(sh, name) && !InFlight(w, name) && ChosenMove(sh, w, c).Some?
    ensures !InFlight(Advanced(w, ChosenMove(sh, w, c).value), name)
  {
    var m := ChosenMove(sh, w, c).value;
    if c.See? {
      ListingSkipsMarks(sh, w.hpc, c.view, name);
    } else if c.Answer? {
      if m.pc.RefreshRead? {
        AnswersStayAmong(w.hpc, w.pc.ids, c.lines, name);
      }
    } else if w.pc.RefreshWrite? && m.pc.RefreshRead? {
      ShorterListStaysClear(w.hpc, w.pc.todo, name);
    }
  }

  lemma ShorterListStaysClear(hpc: string, todo: seq<Sacct.JobInfo>, name: string)
    requires !AmongInfos(hpc, todo, name) && todo != []
    ensures !AmongInfos(hpc, todo[1..], name)
  {
    assert forall i | 0 <= i < |todo| - 1 :: todo[1..][i] == todo[i + 1];
  }

  ghost predicate Resubmits(l: Label, name: string) {
    l.Spawn? && l.w.pc.SubmitRead? && name == StatusVarName(l.w.hpc, l.w.job)
  }

  lemma StepKeepsMark(s: State, l: Label, name: string)
    requires Provenance.StoreInv(s.sh) && Quiet(s, name) && Step(s, l).Some? && !Resubmits(l, name)
    requires name in Step(s, l).value.sh.store
    ensures Quiet(Step(s, l).value, name)
  {
    MarkIsLostIff(s, l, name);
    if l.Local? {
      StaysClear(s.sh, s.waiters[l.p], l.c, name);
      WriterIsInFlight(s.waiters[l.p], name);
    }
  }

  lemma WriterIsInFlight(w: Waiter, name: string)
    ensures (&& (w.pc.SubmitWrite? || w.pc.PendingWrite? || w.pc.RefreshWrite?)
             && Ownership.Target(w).Some? && name == StatusVarName(w.hpc, Ownership.Target(w).value)) ==> InFlight(w, name)
  {
  }

  // Once marked with no refresh or insertion in flight, a variable shows the mark in every
  // continuation until it is deleted, however many refreshes list and poll in between.
  lemma {:induction false} MarkStays(ss: seq<State>, ls: seq<Label>, i: nat, j: nat, name: string)
    requires IsRun(ss, ls) && i <= j < |ss| && Quiet(ss[i], name)
    requires forall k | i <= k < j :: !Resubmits(ls[k], name)
    requires name in ss[j].sh.store && ss[j].sh.store[name].born == ss[i].sh.store[name].born
    ensures Quiet(ss[j], name)
    decreases j - i
  {
    if i < j {
      var k := j - 1;
      Ownership.RunBirths(ss, ls, i);
      Ownership.BirthsGrow(ss, ls, i, k);
      Ownership.RunStepBirths(ss, ls, k, name);
      MarkStays(ss, ls, i, k, name);
      assert Step(ss[k], ls[k]) == Some(ss[k + 1]);
      Provenance.RunKeepsInv(ss, ls, k);
      StepKeepsMark(ss[k], ls[k], name);
    }
  }
}

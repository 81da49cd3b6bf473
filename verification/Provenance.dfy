// Where the states come from: over every run, a status variable shows PENDING, the mark
// CANCELLING or something sacct printed for that very job, and what a waiter returns is a
// terminal state sacct printed for its job, or a fold of a cancelled flow.
module Provenance {
  import opened Wrappers
  import opened SlurmStates
  import opened Names
  import opened Protocol
  import Sacct

  // Some sacct output on this HPC had a row giving the job this state.
  ghost predicate Reported(outputs: set<Output>, hpc: string, job: string, st: SlurmState) {
    exists o :: o in outputs && o.hpc == hpc && Sacct.HasRow(o.lines, job, st)
  }

  ghost predicate StatusOk(outputs: set<Output>, hpc: string, job: string, status: Status) {
    status.Cancelling? || status.state.Pending? || Reported(outputs, hpc, job, status.state)
  }

  // A status variable is filed under the name of its own job and tagged with its own HPC.
  ghost predicate VariableOk(sh: Shared, name: string)
    requires name in sh.store
  {
    var v := sh.store[name];
    v.value.StatusOf? ==>
      && name == StatusVarName(v.value.hpc, v.value.job)
      && v.value.hpc in sh.hpcs && ValidJobId(v.value.job)
      && (forall h :: HpcTag(h) in v.tags ==> h == v.value.hpc)
      && StatusOk(sh.outputs, v.value.hpc, v.value.job, v.value.status)
  }

  ghost predicate StoreInv(sh: Shared) {
    forall name | name in sh.store :: VariableOk(sh, name)
  }

  ghost predicate AllValid(ids: seq<string>) {
    forall j | j in ids :: ValidJobId(j)
  }

  ghost predicate AllReported(outputs: set<Output>, hpc: string, todo: seq<Sacct.JobInfo>) {
    forall i | 0 <= i < |todo| :: ValidJobId(todo[i].job) && Reported(outputs, hpc, todo[i].job, todo[i].state)
  }

  ghost predicate PcOk(sh: Shared, w: Waiter, pc: Pc) {
    && (Folding(pc) ==> w.flow.Some? && w.flow.value in sh.cancelled)
    && match pc
    case MarkRead(ids, _, _) => AllValid(ids)
    case MarkWrite(ids, _, _, _) => AllValid(ids)
    case CallScancel(ids, _) => AllValid(ids)
    case CallSacct(_, ids) => AllValid(ids)
    case RefreshRead(todo) => AllReported(sh.outputs, w.hpc, todo)
    case RefreshWrite(todo, _) => AllReported(sh.outputs, w.hpc, todo)
    case _ => true
  }

  // What a waiter is about to return, or has returned.
  ghost predicate ReturnOk(sh: Shared, w: Waiter, pc: Pc) {
    match pc
    case DeleteStatus(st) => IsTerminal(st) && Reported(sh.outputs, w.hpc, w.job, st)
    case Done(Terminal(st)) => IsTerminal(st) && Reported(sh.outputs, w.hpc, w.job, st)
    case _ => true
  }

  predicate Folding(pc: Pc) {
    pc.GuardList? || pc.MarkRead? || pc.MarkWrite? || pc.CallScancel? || pc.FoldDelete? || pc == Done(Folded)
  }

  ghost predicate WaiterInv(sh: Shared, w: Waiter) {
    w.hpc in sh.hpcs && ValidJobId(w.job) && PcOk(sh, w, w.pc)
  }

  ghost predicate Inv(s: State) {
    StoreInv(s.sh) && forall p | p in s.waiters :: WaiterInv(s.sh, s.waiters[p])
  }

  ghost predicate ReturnsInv(s: State) {
    forall p | p in s.waiters :: ReturnOk(s.sh, s.waiters[p], s.waiters[p].pc)
  }

  ghost predicate Grows(sh: Shared, sh': Shared) {
    sh'.hpcs == sh.hpcs && sh.outputs <= sh'.outputs && sh.cancelled <= sh'.cancelled
  }

  lemma ReportsGrow(outputs: set<Output>, outputs': set<Output>, hpc: string, job: string, st: SlurmState)
    requires outputs <= outputs' && Reported(outputs, hpc, job, st)
    ensures Reported(outputs', hpc, job, st)
  {
    var o :| o in outputs && o.hpc == hpc && Sacct.HasRow(o.lines, job, st);
    assert o in outputs';
  }

  lemma PcOkGrows(sh: Shared, sh': Shared, w: Waiter, pc: Pc)
    requires Grows(sh, sh')
    ensures PcOk(sh, w, pc) ==> PcOk(sh', w, pc)
    ensures ReturnOk(sh, w, pc) ==> ReturnOk(sh', w, pc)
  {
    forall job, st | Reported(sh.outputs, w.hpc, job, st)
      ensures Reported(sh'.outputs, w.hpc, job, st)
    {
      ReportsGrow(sh.outputs, sh'.outputs, w.hpc, job, st);
    }
  }

  // ---- Changes ------------------------------------------------------------------------

  ghost predicate ChangeOk(sh: Shared, hpc: string, ch: Change) {
    ch.SetStatus? ==> hpc in sh.hpcs && ValidJobId(ch.job) && StatusOk(sh.outputs, hpc, ch.job, ch.status)
  }

  lemma ApplyKeepsStore(sh: Shared, me: nat, hpc: string, ch: Change)
    requires StoreInv(sh) && ChangeOk(sh, hpc, ch)
    ensures StoreInv(Apply(sh, me, hpc, ch)) && Grows(sh, Apply(sh, me, hpc, ch))
  {
    var sh' := Apply(sh, me, hpc, ch);
    forall name | name in sh'.store
      ensures VariableOk(sh', name)
    {
      if name in sh.store && sh'.store[name] == sh.store[name] {
        assert VariableOk(sh, name);
        var v := sh.store[name].value;
        if v.StatusOf? && v.status.Slurm? && Reported(sh.outputs, v.hpc, v.job, v.status.state) {
          ReportsGrow(sh.outputs, sh'.outputs, v.hpc, v.job, v.status.state);
        }
      }
    }
  }

  // ---- Moves --------------------------------------------------------------------------

  lemma {:induction false} ListedJobsAreValid(sh: Shared, hpc: string, view: seq<string>, flow: string)
    requires StoreInv(sh)
    ensures AllValid(RunningJobs(sh.store, hpc, view)) && AllValid(OwnedJobs(sh.store, hpc, view, flow))
  {
    if view != [] {
      ListedJobsAreValid(sh, hpc, view[1..], flow);
      assert view[0] in sh.store ==> VariableOk(sh, view[0]);
    }
  }

  lemma GoMoveOk(sh: Shared, w: Waiter)
    requires StoreInv(sh) && WaiterInv(sh, w)
    requires GoMove(sh, w).Some?
    ensures var m := GoMove(sh, w).value;
      ChangeOk(sh, w.hpc, m.change) && m.after.Nothing? && PcOk(sh, w, m.pc)
  {
    match w.pc
    case MarkWrite(ids, next, _, _) => assert ids[next] in ids;
    case _ =>
  }

  lemma InfosAreReported(outputs: set<Output>, hpc: string, ids: seq<string>, text: seq<string>)
    requires AllValid(ids) && Output(hpc, text) in outputs && Sacct.ReadStates(ids, text).States?
    ensures AllReported(outputs, hpc, Sacct.ReadStates(ids, text).infos)
  {
    var infos := Sacct.ReadStates(ids, text).infos;
    Sacct.ReadStatesIff(ids, text);
    forall i | 0 <= i < |infos|
      ensures ValidJobId(infos[i].job) && Reported(outputs, hpc, infos[i].job, infos[i].state)
    {
      Sacct.AnswersAreRows(ids, text, i);
      assert ids[i] in ids;
    }
  }

  lemma AnswerOk(sh: Shared, me: nat, w: Waiter, won: nat, ids: seq<string>, lines: Option<seq<string>>)
    requires AllValid(ids)
    ensures PcOk(Apply(sh, me, w.hpc, Query(won, lines)), w, SacctPc(ids, lines))
  {
    if lines.Some? && Sacct.ReadStates(ids, lines.value).States? {
      var sh' := Apply(sh, me, w.hpc, Query(won, lines));
      assert Output(w.hpc, lines.value) in sh'.outputs;
      InfosAreReported(sh'.outputs, w.hpc, ids, lines.value);
    }
  }

  lemma MoveOk(sh: Shared, me: nat, w: Waiter, c: Choice)
    requires StoreInv(sh) && WaiterInv(sh, w)
    requires ChosenMove(sh, w, c).Some?
    ensures var m := ChosenMove(sh, w, c).value;
      ChangeOk(sh, w.hpc, m.change) && !m.after.SetStatus? && PcOk(Apply(sh, me, w.hpc, m.change), w, m.pc)
  {
    var m := ChosenMove(sh, w, c).value;
    if GoMove(sh, w).Some? {
      GoMoveOk(sh, w);
    }
    if c.Answer? {
      AnswerOk(sh, me, w, w.pc.won, w.pc.ids, c.lines);
    } else {
      if c.See? {
        ListedJobsAreValid(sh, w.hpc, c.view, if w.flow.Some? then w.flow.value else "");
      }
      assert PcOk(sh, w, m.pc);
      ApplyKeepsStore(sh, me, w.hpc, m.change);
      PcOkGrows(sh, Apply(sh, me, w.hpc, m.change), w, m.pc);
    }
  }

  lemma LocalKeepsInv(s: State, p: nat, c: Choice)
    requires Inv(s) && Step(s, Local(p, c)).Some?
    ensures Inv(Step(s, Local(p, c)).value) && Step(s, Local(p, c)).value.sh.hpcs == s.sh.hpcs
  {
    var w, m := s.waiters[p], ChosenMove(s.sh, s.waiters[p], c).value;
    var mid, sh' := Apply(s.sh, p, w.hpc, m.change), Moved(s.sh, p, w, m);
    MoveOk(s.sh, p, w, c);
    ApplyKeepsStore(s.sh, p, w.hpc, m.change);
    ApplyKeepsStore(mid, p, w.hpc, m.after);
    PcOkGrows(mid, sh', w, m.pc);
    forall q | q in s.waiters
      ensures PcOk(sh', s.waiters[q], s.waiters[q].pc)
    {
      PcOkGrows(s.sh, sh', s.waiters[q], s.waiters[q].pc);
    }
  }

  lemma StepKeepsInv(s: State, l: Label)
    requires Inv(s) && Step(s, l).Some?
    ensures Inv(Step(s, l).value) && Step(s, l).value.sh.hpcs == s.sh.hpcs
  {
    if l.Local? {
      LocalKeepsInv(s, l.p, l.c);
    } else {
      var s' := Step(s, l).value;
      assert forall name | name in s'.sh.store :: VariableOk(s.sh, name) && VariableOk(s'.sh, name);
      assert forall p | p in s.waiters :: WaiterInv(s.sh, s.waiters[p]);
    }
  }

  lemma {:induction false} RunKeepsInv(ss: seq<State>, ls: seq<Label>, i: nat)
    requires IsRun(ss, ls) && i < |ss|
    ensures Inv(ss[i]) && ss[i].sh.hpcs == ss[0].sh.hpcs
  {
    if i > 0 {
      var k := i - 1;
      RunKeepsInv(ss, ls, k);
      assert Step(ss[k], ls[k]) == Some(ss[k + 1]);
      StepKeepsInv(ss[k], ls[k]);
    }
  }

  // Over every run, at the granularity of single server calls: what a status variable shows
  // for a job is PENDING, CANCELLING or a state sacct printed for that job earlier.
  lemma VariablesShowReports(ss: seq<State>, ls: seq<Label>, i: nat, name: string)
    requires IsRun(ss, ls) && i < |ss|
    requires name in ss[i].sh.store && ss[i].sh.store[name].value.StatusOf?
    ensures var v := ss[i].sh.store[name].value;
      name == StatusVarName(v.hpc, v.job) && StatusOk(ss[i].sh.outputs, v.hpc, v.job, v.status)
  {
    RunKeepsInv(ss, ls, i);
    assert VariableOk(ss[i].sh, name);
  }

  // ---- What is returned ---------------------------------------------------------------

  // What a waiter reads under the name of its job is about its job, when names are
  // unambiguous.
  lemma ReadIsOwn(sh: Shared, w: Waiter)
    requires StoreInv(sh) && WaiterInv(sh, w) && NamesAreInjective(sh.hpcs)
    ensures ReturnOk(sh, w, AfterRead(Lookup(sh.store, StatusVarName(w.hpc, w.job)), sh.now))
  {
    var name := StatusVarName(w.hpc, w.job);
    if AfterRead(Lookup(sh.store, name), sh.now).DeleteStatus? {
      assert VariableOk(sh, name);
      var v := sh.store[name].value;
      assert v.hpc == w.hpc && v.job == w.job;
    }
  }

  // The control points from which a waiter is about to return a state.
  lemma ReturnShape(sh: Shared, w: Waiter, c: Choice)
    requires ChosenMove(sh, w, c).Some?
    ensures var pc := ChosenMove(sh, w, c).value.pc;
      && (pc.DeleteStatus? ==> w.pc.ReadStatus? && pc == AfterRead(Lookup(sh.store, StatusVarName(w.hpc, w.job)), sh.now))
      && (pc.Done? && pc.outcome.Terminal? ==> w.pc == DeleteStatus(pc.outcome.state))
  {
  }

  lemma MoveReturnsOk(sh: Shared, me: nat, w: Waiter, c: Choice)
    requires StoreInv(sh) && WaiterInv(sh, w) && ReturnOk(sh, w, w.pc) && NamesAreInjective(sh.hpcs)
    requires ChosenMove(sh, w, c).Some?
    ensures ReturnOk(sh, w, ChosenMove(sh, w, c).value.pc)
  {
    ReturnShape(sh, w, c);
    ReadIsOwn(sh, w);
  }

  lemma LocalGrows(s: State, p: nat, c: Choice)
    requires Inv(s) && Step(s, Local(p, c)).Some?
    ensures Grows(s.sh, Step(s, Local(p, c)).value.sh)
  {
    var w, m := s.waiters[p], ChosenMove(s.sh, s.waiters[p], c).value;
    MoveOk(s.sh, p, w, c);
    ApplyKeepsStore(s.sh, p, w.hpc, m.change);
    ApplyKeepsStore(Apply(s.sh, p, w.hpc, m.change), p, w.hpc, m.after);
  }

  lemma StepKeepsReturns(s: State, l: Label)
    requires Inv(s) && ReturnsInv(s) && NamesAreInjective(s.sh.hpcs) && Step(s, l).Some?
    ensures ReturnsInv(Step(s, l).value)
  {
    var s' := Step(s, l).value;
    if l.Local? {
      var w := s.waiters[l.p];
      LocalGrows(s, l.p, l.c);
      MoveReturnsOk(s.sh, l.p, w, l.c);
      PcOkGrows(s.sh, s'.sh, w, s'.waiters[l.p].pc);
      forall q | q in s.waiters && q != l.p
        ensures ReturnOk(s'.sh, s'.waiters[q], s'.waiters[q].pc)
      {
        PcOkGrows(s.sh, s'.sh, s.waiters[q], s.waiters[q].pc);
      }
    }
  }

  // Along any path: what the waiters return stays in order, when names are unambiguous.
  lemma {:induction false} PathKeepsReturns(ss: seq<State>, ls: seq<Label>, i: nat)
    requires IsPath(ss, ls) && i < |ss| && Separated(ss[0].sh.hpcs) && Inv(ss[0]) && ReturnsInv(ss[0])
    ensures Inv(ss[i]) && ReturnsInv(ss[i]) && ss[i].sh.hpcs == ss[0].sh.hpcs
  {
    if i > 0 {
      var k := i - 1;
      PathKeepsReturns(ss, ls, k);
      assert Step(ss[k], ls[k]) == Some(ss[k + 1]);
      NamesInjectiveIff(ss[0].sh.hpcs);
      StepKeepsInv(ss[k], ls[k]);
      StepKeepsReturns(ss[k], ls[k]);
    }
  }

  // Over every run: a waiter that returns a state returns a terminal one that sacct printed
  // for its own job on its own HPC, or the CANCELLED of a fold, and it folds only when its
  // flow was cancelled.
  lemma ReturnedStatesWereReported(ss: seq<State>, ls: seq<Label>, i: nat, p: nat)
    requires IsRun(ss, ls) && i < |ss| && p in ss[i].waiters && ss[i].waiters[p].pc.Done?
    ensures var w := ss[i].waiters[p];
      match w.pc.outcome
      case Terminal(st) => Separated(ss[0].sh.hpcs) ==> IsTerminal(st) && Reported(ss[i].sh.outputs, w.hpc, w.job, st)
      case Folded => w.flow.Some? && w.flow.value in ss[i].sh.cancelled
      case _ => true
  {
    RunKeepsInv(ss, ls, i);
    assert WaiterInv(ss[i].sh, ss[i].waiters[p]);
    if Separated(ss[0].sh.hpcs) {
      PathKeepsReturns(ss, ls, i);
    }
  }
}

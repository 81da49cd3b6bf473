// Bounded staleness end to end: with sacct reporting the waited job terminal, a lone waiter
// returns that state within a bounded number of iterations.
module Staleness {
  import opened Wrappers
  import opened SlurmStates
  import opened Names
  import opened Protocol
  import opened LonePaths
  import opened Progress
  import opened Takeover
  import Provenance
  import Ownership
  import Sacct

  function OwnName(w: Waiter): string {
    StatusVarName(w.hpc, w.job)
  }

  // The waiter's variable is there, is listed under its HPC and is not being cancelled.
  ghost predicate Watched(sh: Shared, w: Waiter) {
    Listed(sh.store, w.hpc, OwnName(w)) && sh.store[OwnName(w)].value.job == w.job && !sh.store[OwnName(w)].value.status.Cancelling?
  }

  ghost predicate ShowsTerminal(sh: Shared, w: Waiter) {
    && OwnName(w) in sh.store && sh.store[OwnName(w)].value.StatusOf?
    && sh.store[OwnName(w)].value.status.Slurm? && IsTerminal(sh.store[OwnName(w)].value.status.state)
  }

  ghost predicate Uncancelled(sh: Shared, w: Waiter) {
    w.flow.Some? ==> w.flow.value !in sh.cancelled
  }

  // What the answers still to be written will leave in the job's variable.
  function LastOf(todo: seq<Sacct.JobInfo>, job: string): Option<SlurmState> {
    if todo == [] then None
    else if LastOf(todo[1..], job).Some? then LastOf(todo[1..], job)
    else if todo[0].job == job then Some(todo[0].state)
    else None
  }

  ghost predicate Conclusive(sh: Shared, w: Waiter, todo: seq<Sacct.JobInfo>) {
    match LastOf(todo, w.job)
    case Some(st) => IsTerminal(st)
    case None => ShowsTerminal(sh, w)
  }

  // Until the refresh the waiter can only go round with its variable untouched; after that the
  // terminal report is on its way into the variable, and the waiter returns it before it
  // sleeps again.
  ghost predicate OnCourse(sh: Shared, w: Waiter, refreshed: bool) {
    && Uncancelled(sh, w)
    && match w.pc
       case GuardFlow => Watched(sh, w) && !refreshed
       case FastRead => Watched(sh, w) && !refreshed
       case FastDecide(_) => Watched(sh, w) && !refreshed
       case Acquire => Watched(sh, w) && !refreshed
       case RecheckRead => Watched(sh, w) && !refreshed
       case RecheckDecide(_) => Watched(sh, w) && !refreshed
       case Stamp => Watched(sh, w) && !refreshed
       case WriteLease(_) => Watched(sh, w) && !refreshed
       case Release(_) => Watched(sh, w) && !refreshed
       case ListJobs(_) => Watched(sh, w) && !refreshed
       case CallSacct(_, ids) => w.job in ids && !refreshed
       case RefreshRead(todo) => Conclusive(sh, w, todo) && refreshed
       case RefreshWrite(todo, _) => Conclusive(sh, w, todo) && refreshed
       case ReadStatus => if refreshed then ShowsTerminal(sh, w) else Watched(sh, w)
       case DeleteStatus(st) => IsTerminal(st)
       case Sleeping(_) => Watched(sh, w) && !refreshed
       case Done(outcome) => outcome.Terminal? && IsTerminal(outcome.state) && OwnName(w) !in sh.store
       case _ => false
  }

  // sacct answers for all jobs it was asked about, and has the waited job terminal.
  ghost predicate ReportsTerminal(w: Waiter, c: Choice) {
    c.Answer? && w.pc.CallSacct? ==>
      && c.lines.Some? && Sacct.ReadStates(w.pc.ids, c.lines.value).States?
      && forall i | 0 <= i < |Sacct.ReadStates(w.pc.ids, c.lines.value).infos| ::
           var info := Sacct.ReadStates(w.pc.ids, c.lines.value).infos[i];
           info.job == w.job ==> IsTerminal(info.state)
  }

  lemma {:induction false} LastOfMeaning(todo: seq<Sacct.JobInfo>, job: string)
    requires forall i | 0 <= i < |todo| && todo[i].job == job :: IsTerminal(todo[i].state)
    ensures LastOf(todo, job).Some? ==> IsTerminal(LastOf(todo, job).value)
    ensures (exists i :: 0 <= i < |todo| && todo[i].job == job) ==> LastOf(todo, job).Some?
  {
    if todo != [] {
      var rest := todo[1..];
      assert forall i | 0 <= i < |rest| :: rest[i] == todo[i + 1];
      LastOfMeaning(rest, job);
      if i :| 0 <= i < |todo| && todo[i].job == job {
        assert i > 0 ==> rest[i - 1].job == job;
      }
    }
  }

  lemma AnswerIsConclusive(sh: Shared, w: Waiter, c: Choice)
    requires w.pc.CallSacct? && c.Answer? && w.job in w.pc.ids && ReportsTerminal(w, c)
    ensures SacctPc(w.pc.ids, c.lines).RefreshRead? && Conclusive(sh, w, SacctPc(w.pc.ids, c.lines).todo)
  {
    var infos := Sacct.ReadStates(w.pc.ids, c.lines.value).infos;
    Sacct.ReadStatesIff(w.pc.ids, c.lines.value);
    var i :| 0 <= i < |w.pc.ids| && w.pc.ids[i] == w.job;
    assert infos[i].job == w.job;
    LastOfMeaning(infos, w.job);
  }

  lemma {:induction false} WatchedIsListed(sh: Shared, w: Waiter, view: seq<string>)
    requires Watched(sh, w) && OwnName(w) in view
    ensures w.job in RunningJobs(sh.store, w.hpc, view)
  {
    if view[0] != OwnName(w) {
      WatchedIsListed(sh, w, view[1..]);
    }
  }

  lemma RefreshWrites(sh: Shared, me: nat, w: Waiter)
    requires w.pc.RefreshWrite? && w.pc.todo != [] && Conclusive(sh, w, w.pc.todo)
    ensures var m := GoMove(sh, w).value; var sh' := Moved(sh, me, w, m);
      if m.pc.ReadStatus? then ShowsTerminal(sh', w) else m.pc.RefreshRead? && Conclusive(sh', w, m.pc.todo)
  {
    var info, rest := w.pc.todo[0], w.pc.todo[1..];
    assert rest == [] ==> LastOf(rest, w.job).None?;
    assert LastOf(w.pc.todo, w.job) ==
      if LastOf(rest, w.job).Some? then LastOf(rest, w.job) else if info.job == w.job then Some(info.state) else None;
    if info.job != w.job && OwnName(w) == StatusVarName(w.hpc, info.job) {
      SameHpcSameJob(w.hpc, w.job, info.job);
    }
  }

  lemma LeaseLeavesWatched(sh: Shared, me: nat, w: Waiter, stamp: int)
    requires Watched(sh, w)
    ensures Watched(Apply(sh, me, w.hpc, SetLease(stamp)), w)
  {
    StatusIsNoLease(w.hpc, w.job, w.hpc);
  }

  lemma GoStaysOnCourse(sh: Shared, me: nat, w: Waiter, refreshed: bool)
    requires OnCourse(sh, w, refreshed) && GoMove(sh, w).Some?
    ensures OnCourse(Moved(sh, me, w, GoMove(sh, w).value), Advanced(w, GoMove(sh, w).value), refreshed)
  {
    if w.pc.WriteLease? {
      LeaseLeavesWatched(sh, me, w, w.pc.stamp);
    } else if w.pc.RefreshWrite? && w.pc.todo != [] {
      RefreshWrites(sh, me, w);
    }
  }

  lemma ListingStaysOnCourse(sh: Shared, w: Waiter, view: seq<string>)
    requires w.pc.ListJobs? && OnCourse(sh, w, false) && IsView(sh.store, view) && |sh.store| <= READ_LIMIT
    ensures w.job in RunningJobs(sh.store, w.hpc, view)
  {
    Ownership.DistinctNamesFill(view, sh.store.Keys);
    WatchedIsListed(sh, w, view);
  }

  lemma AnswerStaysOnCourse(sh: Shared, me: nat, w: Waiter, c: Choice, refreshed: bool)
    requires OnCourse(sh, w, refreshed) && |sh.store| <= READ_LIMIT
    requires ChosenMove(sh, w, c).Some? && Calm(c) && ReportsTerminal(w, c) && !c.Go?
    ensures var m := ChosenMove(sh, w, c).value;
      OnCourse(Moved(sh, me, w, m), Advanced(w, m), refreshed || (w.pc.CallSacct? && c.Answer?))
  {
    match c
    case See(view) => ListingStaysOnCourse(sh, w, view);
    case Answer(lines) => AnswerIsConclusive(Moved(sh, me, w, ChosenMove(sh, w, c).value), w, c);
    case _ =>
  }

  lemma MoveStaysOnCourse(s: State, p: nat, c: Choice, refreshed: bool)
    requires p in s.waiters && OnCourse(s.sh, s.waiters[p], refreshed) && |s.sh.store| <= READ_LIMIT
    requires ChosenMove(s.sh, s.waiters[p], c).Some? && Calm(c) && ReportsTerminal(s.waiters[p], c)
    ensures var w, m := s.waiters[p], ChosenMove(s.sh, s.waiters[p], c).value;
      OnCourse(Moved(s.sh, p, w, m), Advanced(w, m), refreshed || Refreshed(s, Local(p, c), p))
  {
    var w := s.waiters[p];
    if c.Go? {
      GoStaysOnCourse(s.sh, p, w, refreshed);
    } else {
      AnswerStaysOnCourse(s.sh, p, w, c, refreshed);
      if c.See? && w.pc.ListJobs? {
        ListingStaysOnCourse(s.sh, w, c.view);
      }
    }
  }

  // After the refresh the waiter goes on to its end without sleeping.
  lemma RefreshedNeverSleeps(sh: Shared, w: Waiter, c: Choice)
    requires OnCourse(sh, w, true) && ChosenMove(sh, w, c).Some?
    ensures Advanced(w, ChosenMove(sh, w, c).value).iterations == w.iterations
  {
  }

  lemma CourseStep(s: State, l: Label, p: nat, refreshed: bool)
    requires p in s.waiters && Smooth(s, p, l) && Step(s, l).Some? && |s.sh.store| <= READ_LIMIT
    requires l.Local? && l.p == p ==> ReportsTerminal(s.waiters[p], l.c)
    requires OnCourse(s.sh, s.waiters[p], refreshed)
    ensures p in Step(s, l).value.waiters
    ensures var s' := Step(s, l).value; OnCourse(s'.sh, s'.waiters[p], refreshed || Refreshed(s, l, p))
    ensures refreshed || Refreshed(s, l, p) ==> Step(s, l).value.waiters[p].iterations == s.waiters[p].iterations
  {
    SmoothStep(s, p, l);
    if l.Local? {
      MoveStaysOnCourse(s, p, l.c, refreshed);
      if refreshed {
        RefreshedNeverSleeps(s.sh, s.waiters[p], l.c);
      }
    }
  }

  // The hypotheses about a lone path: few enough variables for a complete listing, and a
  // terminal report whenever sacct is asked.
  ghost predicate Reports(ss: seq<State>, ls: seq<Label>, p: nat)
    requires |ss| == |ls| + 1
  {
    && (forall i | 0 <= i < |ss| :: |ss[i].sh.store| <= READ_LIMIT)
    && (forall i | 0 <= i < |ls| && ls[i].Local? && ls[i].p == p && p in ss[i].waiters :: ReportsTerminal(ss[i].waiters[p], ls[i].c))
  }

  lemma {:induction false} PathStaysOnCourse(ss: seq<State>, ls: seq<Label>, p: nat, k: nat, spare: nat)
    requires IsLonePath(ss, ls, p) && k < |ss| && Reports(ss, ls, p) && OnCourse(ss[0].sh, ss[0].waiters[p], false)
    requires Won(ss[0].waiters[p].pc) || Outlasted(ss[0].sh, ss[0].waiters[p], ss[0].sh.now + POLL_SECS * spare)
    ensures p in ss[k].waiters && OnCourse(ss[k].sh, ss[k].waiters[p], RefreshedIn(ss, ls, p, 0, k))
    ensures ss[k].waiters[p].iterations <= First(ss[0].waiters[p]) + spare
  {
    if k > 0 {
      var j := k - 1;
      PathStaysOnCourse(ss, ls, p, j, spare);
      LoneStep(ss, ls, p, j);
      CourseStep(ss[j], ls[j], p, RefreshedIn(ss, ls, p, 0, j));
      OneMoreRefreshed(ss, ls, p, j);
      if !RefreshedIn(ss, ls, p, 0, k) {
        PathWaits(ss, ls, p, k, spare);
      }
    }
  }

  lemma OneMoreRefreshed(ss: seq<State>, ls: seq<Label>, p: nat, j: nat)
    requires j < |ls| < |ss|
    ensures RefreshedIn(ss, ls, p, 0, j + 1) <==> RefreshedIn(ss, ls, p, 0, j) || Refreshed(ss[j], ls[j], p)
  {
    if m: nat :| m < j + 1 && Refreshed(ss[m], ls[m], p) {
      assert m < j ==> RefreshedIn(ss, ls, p, 0, j);
    }
  }

  // The flow is not cancelled, the variable of the waited job is there, and sacct, whenever
  // asked, has the job terminal. Then a lone waiter whose lease runs out within `spare` poll
  // intervals (four always suffice) begins at most `spare` iterations after the first that
  // has its refresh ahead; with so many steps of its own it has returned; and it returns a
  // terminal state, with its variable gone.
  lemma TerminalStateIsReturned(ss: seq<State>, ls: seq<Label>, p: nat, k: nat, spare: nat)
    requires IsLonePath(ss, ls, p) && k < |ss| && Reports(ss, ls, p) && OnCourse(ss[0].sh, ss[0].waiters[p], false)
    requires Outlasted(ss[0].sh, ss[0].waiters[p], ss[0].sh.now + POLL_SECS * spare) || (Bounded(ss[0]) && spare == 4)
    ensures p in ss[k].waiters && ss[k].waiters[p].iterations <= First(ss[0].waiters[p]) + spare
    ensures Work(ls, p, k) >= Rank(ss[0].waiters[p].pc) + Rounds(spare + 1) ==> ss[k].waiters[p].pc.Done?
    ensures ss[k].waiters[p].pc.Done? ==>
      var outcome := ss[k].waiters[p].pc.outcome;
      outcome.Terminal? && IsTerminal(outcome.state) && OwnName(ss[k].waiters[p]) !in ss[k].sh.store
  {
    PathStaysOnCourse(ss, ls, p, k, spare);
    if Work(ls, p, k) >= Rank(ss[0].waiters[p].pc) + Rounds(spare + 1) && Busy(ss[0].waiters[p].pc) {
      LoneIsSurvivor(ss, ls, p);
      EnoughWorkEnds(ss, ls, p, k, spare + 1);
    } else {
      StartedDone(ss, ls, p, k);
    }
  }

  // A waiter that has returned stays where it is.
  lemma {:induction false} StartedDone(ss: seq<State>, ls: seq<Label>, p: nat, k: nat)
    requires IsLonePath(ss, ls, p) && k < |ss|
    ensures p in ss[k].waiters
    ensures ss[0].waiters[p].pc.Done? ==> ss[k].waiters[p] == ss[0].waiters[p]
  {
    if k > 0 {
      StartedDone(ss, ls, p, k - 1);
      LoneStep(ss, ls, p, k - 1);
      SmoothStep(ss[k - 1], p, ls[k - 1]);
    }
  }

  // And where names are unambiguous, that state is one sacct gave for this very job.
  lemma ReturnedStateWasGiven(ss: seq<State>, ls: seq<Label>, p: nat, k: nat)
    requires IsLonePath(ss, ls, p) && k < |ss|
    requires Separated(ss[0].sh.hpcs) && Provenance.Inv(ss[0]) && Provenance.ReturnsInv(ss[0])
    ensures p in ss[k].waiters
    ensures ss[k].waiters[p].pc.Done? && ss[k].waiters[p].pc.outcome.Terminal? ==>
      var w := ss[k].waiters[p];
      IsTerminal(w.pc.outcome.state) && Provenance.Reported(ss[k].sh.outputs, w.hpc, w.job, w.pc.outcome.state)
  {
    LonePresent(ss, ls, p, k);
    Provenance.PathKeepsReturns(ss, ls, k);
  }
}

// Folding: a waiter of a cancelled flow ends its job within two iterations, whatever the other
// waiters do meanwhile, as long as they leave its own variable alone.
module Fold {
  import opened Wrappers
  import opened Names
  import opened Protocol
  import opened LonePaths
  import opened Progress
  import Provenance
  import Ownership
  import Marker

  function OwnName(w: Waiter): string {
    StatusVarName(w.hpc, w.job)
  }

  // The waiter's variable is there, listed under its HPC and owned by its flow.
  ghost predicate Own(sh: Shared, w: Waiter) {
    && w.flow.Some? && Listed(sh.store, w.hpc, OwnName(w))
    && Ownership.OwnedBy(sh, OwnName(w), w.flow.value) && sh.store[OwnName(w)].value.job == w.job
  }

  ghost predicate Missing(sh: Shared, w: Waiter) {
    OwnName(w) in sh.store ==> !sh.store[OwnName(w)].value.StatusOf?
  }

  // How far a fold has got. `first` is the iteration it began in, `present` whether the
  // variable was there at the start. A missing variable costs one iteration: the guard may
  // find nothing, and the waiter inserts the variable as its flow's own.
  ghost predicate Folding(sh: Shared, w: Waiter, first: nat, present: bool) {
    var missing := Missing(sh, w) && w.iterations == first && !present;
    && w.flow.Some? && w.flow.value in sh.cancelled
    && first <= w.iterations <= first + 1
    && match w.pc
       case SubmitRead => false
       case SubmitWrite(_) => false
       case GuardFlow => missing || Own(sh, w)
       case GuardList => missing || Own(sh, w)
       case MarkRead(ids, _, _) => ids != [] && (missing || w.job in ids)
       case MarkWrite(ids, _, _, _) => ids != [] && (missing || w.job in ids)
       case CallScancel(ids, _) => missing || w.job in ids
       case FoldDelete => present ==> (w.hpc, w.job) in sh.scancelled
       case Done(outcome) => outcome == Folded && (present ==> (w.hpc, w.job) in sh.scancelled)
       case CallSacct(_, ids) => missing && !Marker.Among(w.hpc, ids, OwnName(w))
       case RefreshRead(todo) => missing && !Marker.AmongInfos(w.hpc, todo, OwnName(w))
       case RefreshWrite(todo, _) => missing && !Marker.AmongInfos(w.hpc, todo, OwnName(w))
       case PendingWrite(owner) => missing && owner == w.flow
       case Sleeping(_) => Own(sh, w) && w.iterations == first
       case DeleteStatus(_) => false
       case Crashed => false
       case _ => missing
  }

  // ---- One move -----------------------------------------------------------------------

  // Writes to other variables leave one's own missing.
  lemma StaysMissing(sh: Shared, me: nat, w: Waiter, ch: Change)
    requires Missing(sh, w) && (ch.SetStatus? ==> ch.job != w.job)
    ensures Missing(Apply(sh, me, w.hpc, ch), w)
  {
    if ch.SetStatus? && OwnName(w) == StatusVarName(w.hpc, ch.job) {
      SameHpcSameJob(w.hpc, w.job, ch.job);
    }
  }

  lemma InsertedIsOwn(sh: Shared, me: nat, w: Waiter, status: Status)
    requires w.flow.Some?
    ensures Own(Apply(sh, me, w.hpc, SetStatus(w.job, status, w.flow)), w)
  {
  }

  lemma GuardListing(sh: Shared, w: Waiter, view: seq<string>, first: nat, present: bool)
    requires Provenance.StoreInv(sh) && |sh.store| <= READ_LIMIT && IsView(sh.store, view)
    requires w.pc.GuardList? && Folding(sh, w, first, present)
    ensures Folding(sh, w.(pc := AfterMark(OwnedJobs(sh.store, w.hpc, view, w.flow.value), 0, sh.births)), first, present)
  {
    Ownership.GuardListsExactly(sh, w.hpc, view, w.flow.value, w.job);
  }

  lemma RunningListing(sh: Shared, w: Waiter, view: seq<string>, first: nat, present: bool)
    requires Provenance.StoreInv(sh) && w.pc.ListJobs? && Folding(sh, w, first, present)
    ensures var ids := RunningJobs(sh.store, w.hpc, view);
      Folding(sh, w.(pc := if ids == [] then ReadStatus else CallSacct(w.pc.won, ids)), first, present)
  {
    Marker.ListingSkipsMarks(sh, w.hpc, view, OwnName(w));
  }

  lemma SacctAnswered(sh: Shared, me: nat, w: Waiter, lines: Option<seq<string>>, first: nat, present: bool)
    requires w.pc.CallSacct? && Folding(sh, w, first, present) && SacctPc(w.pc.ids, lines) != Crashed
    ensures Folding(Apply(sh, me, w.hpc, Query(w.pc.won, lines)), w.(pc := SacctPc(w.pc.ids, lines)), first, present)
  {
    if SacctPc(w.pc.ids, lines).RefreshRead? {
      Marker.AnswersStayAmong(w.hpc, w.pc.ids, lines, OwnName(w));
    }
  }

  lemma GoFoldsQuietly(sh: Shared, me: nat, w: Waiter, first: nat, present: bool)
    requires Folding(sh, w, first, present) && GoMove(sh, w).Some? && GoMove(sh, w).value.change.Nothing?
    ensures Folding(Moved(sh, me, w, GoMove(sh, w).value), Advanced(w, GoMove(sh, w).value), first, present)
  {
  }

  lemma GoFoldsMarking(sh: Shared, me: nat, w: Waiter, first: nat, present: bool)
    requires Folding(sh, w, first, present) && GoMove(sh, w).Some? && w.pc.MarkWrite?
    ensures Folding(Moved(sh, me, w, GoMove(sh, w).value), Advanced(w, GoMove(sh, w).value), first, present)
  {
    var m := GoMove(sh, w).value;
    if w.job !in w.pc.ids {
      assert w.pc.ids[w.pc.next] in w.pc.ids;
      StaysMissing(sh, me, w, m.change);
    }
  }

  lemma GoFoldsRefreshing(sh: Shared, me: nat, w: Waiter, first: nat, present: bool)
    requires Folding(sh, w, first, present) && GoMove(sh, w).Some? && w.pc.RefreshWrite?
    ensures Folding(Moved(sh, me, w, GoMove(sh, w).value), Advanced(w, GoMove(sh, w).value), first, present)
  {
    assert OwnName(w) != StatusVarName(w.hpc, w.pc.todo[0].job);
    StaysMissing(sh, me, w, GoMove(sh, w).value.change);
    Marker.ShorterListStaysClear(w.hpc, w.pc.todo, OwnName(w));
  }

  lemma GoFoldsOtherwise(sh: Shared, me: nat, w: Waiter, first: nat, present: bool)
    requires Folding(sh, w, first, present) && GoMove(sh, w).Some?
    requires !GoMove(sh, w).value.change.Nothing? && !w.pc.MarkWrite? && !w.pc.RefreshWrite?
    ensures Folding(Moved(sh, me, w, GoMove(sh, w).value), Advanced(w, GoMove(sh, w).value), first, present)
  {
    var m := GoMove(sh, w).value;
    if w.pc.PendingWrite? {
      InsertedIsOwn(sh, me, w, m.change.status);
    } else if w.pc.WriteLease? {
      StaysMissing(sh, me, w, m.change);
    }
  }

  lemma GoFolds(sh: Shared, me: nat, w: Waiter, first: nat, present: bool)
    requires Folding(sh, w, first, present) && GoMove(sh, w).Some?
    ensures Folding(Moved(sh, me, w, GoMove(sh, w).value), Advanced(w, GoMove(sh, w).value), first, present)
  {
    if GoMove(sh, w).value.change.Nothing? {
      GoFoldsQuietly(sh, me, w, first, present);
    } else if w.pc.MarkWrite? {
      GoFoldsMarking(sh, me, w, first, present);
    } else if w.pc.RefreshWrite? {
      GoFoldsRefreshing(sh, me, w, first, present);
    } else {
      GoFoldsOtherwise(sh, me, w, first, present);
    }
  }

  lemma MoveFolds(sh: Shared, me: nat, w: Waiter, c: Choice, first: nat, present: bool)
    requires Provenance.StoreInv(sh) && |sh.store| <= READ_LIMIT
    requires Folding(sh, w, first, present) && ChosenMove(sh, w, c).Some? && Friendly(w, c)
    ensures var m := ChosenMove(sh, w, c).value;
      Folding(Moved(sh, me, w, m), Advanced(w, m), first, present)
  {
    match c
    case Go => GoFolds(sh, me, w, first, present);
    case See(view) =>
      if w.pc.GuardList? {
        GuardListing(sh, w, view, first, present);
      } else {
        RunningListing(sh, w, view, first, present);
      }
    case Answer(lines) => SacctAnswered(sh, me, w, lines, first, present);
    case _ =>
  }

  // ---- The steps of others -----------------------------------------------------------------

  // The step of another does not insert, refresh or delete the variable waiter p waits on. A
  // concurrent guard of the same flow may mark it.
  ghost predicate LeavesAlone(s: State, p: nat, l: Label) {
    p in s.waiters && (l.Local? && l.p != p && l.p in s.waiters ==>
      var v, w := s.waiters[l.p], s.waiters[p];
      && !Ownership.Deletes(s, l, OwnName(w))
      && (Ownership.Writes(s, l, OwnName(w)) ==>
            Own(s.sh, w) && v.pc.MarkWrite? && v.hpc == w.hpc && Ownership.ChosenOwner(v.pc) == w.flow))
  }

  // The mark of a concurrent guard leaves the variable the flow's own.
  lemma MarkKeepsOwn(s: State, p: nat, l: Label)
    requires LeavesAlone(s, p, l) && l.Local? && l.p != p && Step(s, l).Some?
    requires Ownership.Writes(s, l, OwnName(s.waiters[p]))
    ensures Own(Step(s, l).value.sh, s.waiters[p])
  {
    var v, w := s.waiters[l.p], s.waiters[p];
    Ownership.WriteShape(s.sh, v, l.c);
    Ownership.SetsStatusIff(s.sh, v, l.c);
    SameHpcSameJob(w.hpc, w.job, Ownership.Target(v).value);
  }

  lemma HistoryGrows(s: State, l: Label)
    requires Step(s, l).Some?
    ensures s.sh.scancelled <= Step(s, l).value.sh.scancelled && s.sh.cancelled <= Step(s, l).value.sh.cancelled
  {
    if l.Local? {
      var w, m := s.waiters[l.p], ChosenMove(s.sh, s.waiters[l.p], l.c).value;
      ChangeGrows(s.sh, l.p, w.hpc, m.change);
      ChangeGrows(Apply(s.sh, l.p, w.hpc, m.change), l.p, w.hpc, m.after);
    }
  }

  lemma ChangeGrows(sh: Shared, me: nat, hpc: string, ch: Change)
    ensures sh.scancelled <= Apply(sh, me, hpc, ch).scancelled && sh.cancelled == Apply(sh, me, hpc, ch).cancelled
  {
  }

  lemma StillFolding(sh: Shared, sh': Shared, w: Waiter, first: nat, present: bool)
    requires Folding(sh, w, first, present)
    requires sh.scancelled <= sh'.scancelled && sh.cancelled <= sh'.cancelled
    requires w.pc.Done? || ((Missing(sh, w) ==> Missing(sh', w)) && (Own(sh, w) ==> Own(sh', w)))
    ensures Folding(sh', w, first, present)
  {
  }

  lemma OthersKeepFolding(s: State, p: nat, l: Label, first: nat, present: bool)
    requires p in s.waiters && Step(s, l).Some? && !(l.Local? && l.p == p)
    requires s.waiters[p].pc.Done? || LeavesAlone(s, p, l)
    requires Folding(s.sh, s.waiters[p], first, present)
    ensures Folding(Step(s, l).value.sh, s.waiters[p], first, present)
  {
    var w, sh' := s.waiters[p], Step(s, l).value.sh;
    HistoryGrows(s, l);
    if !w.pc.Done? {
      if Ownership.Writes(s, l, OwnName(w)) {
        MarkKeepsOwn(s, p, l);
      } else {
        Ownership.Untouched(s, l, w.hpc, w.job);
      }
    }
    StillFolding(s.sh, sh', w, first, present);
  }

  // ---- Paths --------------------------------------------------------------------------

  // The other waiters step freely, but leave the waiter's variable alone until it has
  // returned; and every listing is complete.
  ghost predicate LeftAlone(ss: seq<State>, ls: seq<Label>, p: nat)
    requires |ss| == |ls| + 1
  {
    && (forall i | 0 <= i < |ss| :: |ss[i].sh.store| <= READ_LIMIT)
    && forall i | 0 <= i < |ls| :: p in ss[i].waiters && !ss[i].waiters[p].pc.Done? ==> LeavesAlone(ss[i], p, ls[i])
  }

  lemma {:induction false} PathFolds(ss: seq<State>, ls: seq<Label>, p: nat, k: nat)
    requires IsSurvivorPath(ss, ls, p) && k < |ss| && LeftAlone(ss, ls, p) && Provenance.Inv(ss[0])
    requires Folding(ss[0].sh, ss[0].waiters[p], ss[0].waiters[p].iterations, Own(ss[0].sh, ss[0].waiters[p]))
    ensures p in ss[k].waiters
    ensures Folding(ss[k].sh, ss[k].waiters[p], ss[0].waiters[p].iterations, Own(ss[0].sh, ss[0].waiters[p]))
  {
    if k > 0 {
      var j := k - 1;
      PathFolds(ss, ls, p, j);
      SurvivorStep(ss, ls, p, j);
      SparedStep(ss[j], p, ls[j]);
      PathKeepsProvenance(ss, ls, j);
      var first, present := ss[0].waiters[p].iterations, Own(ss[0].sh, ss[0].waiters[p]);
      if ls[j].Local? && ls[j].p == p {
        MoveFolds(ss[j].sh, p, ss[j].waiters[p], ls[j].c, first, present);
      } else {
        OthersKeepFolding(ss[j], p, ls[j], first, present);
      }
    }
  }

  // A waiter whose variable was there never reaches its sleep again: it folds in the
  // iteration it is in.
  lemma {:induction false} OwnerNeverSleeps(ss: seq<State>, ls: seq<Label>, p: nat, k: nat)
    requires IsSurvivorPath(ss, ls, p) && k < |ss| && LeftAlone(ss, ls, p) && Provenance.Inv(ss[0])
    requires ss[0].waiters[p].pc.GuardFlow? && Own(ss[0].sh, ss[0].waiters[p])
    requires Folding(ss[0].sh, ss[0].waiters[p], ss[0].waiters[p].iterations, true)
    ensures p in ss[k].waiters
    ensures ss[k].waiters[p].iterations == ss[0].waiters[p].iterations && !ss[k].waiters[p].pc.Sleeping?
  {
    if k > 0 {
      var j := k - 1;
      OwnerNeverSleeps(ss, ls, p, j);
      PathFolds(ss, ls, p, j);
      SurvivorStep(ss, ls, p, j);
      SparedStep(ss[j], p, ls[j]);
      if ls[j].Local? && ls[j].p == p {
        NoSleepFromGuard(ss[j].sh, ss[j].waiters[p], ls[j].c, ss[0].waiters[p].iterations);
      }
    }
  }

  lemma NoSleepFromGuard(sh: Shared, w: Waiter, c: Choice, first: nat)
    requires ChosenMove(sh, w, c).Some? && Calm(c) && !w.pc.Sleeping? && Folding(sh, w, first, true)
    ensures !ChosenMove(sh, w, c).value.pc.Sleeping? && Advanced(w, ChosenMove(sh, w, c).value).iterations == w.iterations
  {
  }

  lemma ReturnIsDeletion(sh: Shared, w: Waiter, c: Choice)
    requires ChosenMove(sh, w, c).Some? && Calm(c)
    ensures var m := ChosenMove(sh, w, c).value;
      m.pc == Done(Folded) || (m.pc.Done? && m.pc.outcome.Terminal?) ==> m == Move(UnsetStatus(w.job), Nothing, m.pc)
  {
  }

  // The step with which a waiter returns a state deletes its variable.
  lemma ReturnDeletes(s: State, p: nat, l: Label)
    requires Spares(s, p, l) && Step(s, l).Some? && !s.waiters[p].pc.Done?
    requires var w' := Step(s, l).value.waiters[p]; w'.pc == Done(Folded) || (w'.pc.Done? && w'.pc.outcome.Terminal?)
    ensures OwnName(s.waiters[p]) !in Step(s, l).value.sh.store
  {
    SparedStep(s, p, l);
    ReturnIsDeletion(s.sh, s.waiters[p], l.c);
  }

  // The flow is cancelled, and the variable of the waited job is missing or the flow's own.
  // Then, whatever the others do, the waiter starts at most one further iteration (none if
  // the variable was there); with so many steps of its own it has returned; it returns
  // CANCELLED, its variable gone at that step; and if the variable was there its job went to
  // scancel. When a variable that is gone comes back is said by ComesBackIff.
  lemma CancelledFlowFolds(ss: seq<State>, ls: seq<Label>, p: nat, k: nat)
    requires IsSurvivorPath(ss, ls, p) && k < |ss| && LeftAlone(ss, ls, p) && Provenance.Inv(ss[0])
    requires var w := ss[0].waiters[p];
      && w.pc.GuardFlow? && w.flow.Some? && w.flow.value in ss[0].sh.cancelled
      && (Missing(ss[0].sh, w) || Own(ss[0].sh, w))
    ensures p in ss[k].waiters
    ensures ss[k].waiters[p].iterations <= ss[0].waiters[p].iterations + if Own(ss[0].sh, ss[0].waiters[p]) then 0 else 1
    ensures Work(ls, p, k) >= Rank(GuardFlow) + Rounds(if Own(ss[0].sh, ss[0].waiters[p]) then 0 else 1) ==>
      ss[k].waiters[p].pc.Done?
    ensures ss[k].waiters[p].pc.Done? ==>
      && ss[k].waiters[p].pc.outcome == Folded
      && (Own(ss[0].sh, ss[0].waiters[p]) ==> (ss[k].waiters[p].hpc, ss[k].waiters[p].job) in ss[k].sh.scancelled)
    ensures k > 0 && p in ss[k - 1].waiters && !ss[k - 1].waiters[p].pc.Done? && ss[k].waiters[p].pc.Done? ==>
      OwnName(ss[k - 1].waiters[p]) !in ss[k].sh.store
  {
    var present := Own(ss[0].sh, ss[0].waiters[p]);
    PathFolds(ss, ls, p, k);
    if present {
      OwnerNeverSleeps(ss, ls, p, k);
    }
    if Work(ls, p, k) >= Rank(GuardFlow) + Rounds(if present then 0 else 1) {
      EnoughWorkEnds(ss, ls, p, k, if present then 0 else 1);
    }
    if k > 0 {
      SurvivorStep(ss, ls, p, k - 1);
      if !ss[k - 1].waiters[p].pc.Done? && ss[k].waiters[p].pc.Done? {
        ReturnDeletes(ss[k - 1], p, ls[k - 1]);
      }
    }
  }

  // ---- When a variable that is gone comes back ----------------------------------------------

  // The waiter's guard or its refresh has listed the variable and may still write it.
  ghost predicate HasListed(w: Waiter, name: string) {
    Ownership.IsListed(w, name) || Marker.Refreshes(w, name)
  }

  lemma AbsentIsNotRefreshed(sh: Shared, w: Waiter, c: Choice, name: string)
    requires Provenance.StoreInv(sh) && name !in sh.store && ChosenMove(sh, w, c).Some?
    ensures Marker.Refreshes(Advanced(w, ChosenMove(sh, w, c).value), name) ==> Marker.Refreshes(w, name)
  {
    var m := ChosenMove(sh, w, c).value;
    if c.See? {
      Marker.ListingSkipsMarks(sh, w.hpc, c.view, name);
    } else if c.Answer? && !Marker.Refreshes(w, name) {
      if m.pc.RefreshRead? {
        Marker.AnswersStayAmong(w.hpc, w.pc.ids, c.lines, name);
      }
    } else if w.pc.RefreshWrite? && m.pc.RefreshRead? && !Marker.Refreshes(w, name) {
      Marker.ShorterListStaysClear(w.hpc, w.pc.todo, name);
    }
  }

  lemma AbsentIsNotMarked(sh: Shared, w: Waiter, c: Choice, name: string)
    requires Provenance.StoreInv(sh) && name !in sh.store && ChosenMove(sh, w, c).Some?
    ensures Ownership.IsListed(Advanced(w, ChosenMove(sh, w, c).value), name) ==> Ownership.IsListed(w, name)
  {
    Ownership.MarkShape(sh, w, c);
    if w.pc.GuardList? && c.See? && w.flow.Some? {
      Ownership.PickedAreOwned(sh, w.hpc, c.view, w.flow.value);
    }
  }

  // Whoever has listed a variable that was absent all the time since state k listed it before.
  lemma {:induction false} ListedBefore(ss: seq<State>, ls: seq<Label>, k: nat, j: nat, p: nat, name: string)
    requires IsRun(ss, ls) && k <= j < |ss| && forall i | k <= i <= j :: name !in ss[i].sh.store
    requires p in ss[j].waiters && HasListed(ss[j].waiters[p], name)
    ensures p in ss[k].waiters && HasListed(ss[k].waiters[p], name)
  {
    if k < j {
      var i := j - 1;
      assert Step(ss[i], ls[i]) == Some(ss[i + 1]);
      Provenance.RunKeepsInv(ss, ls, i);
      assert p in ss[i].waiters;
      if ls[i].Local? && ls[i].p == p {
        AbsentIsNotRefreshed(ss[i].sh, ss[i].waiters[p], ls[i].c, name);
        AbsentIsNotMarked(ss[i].sh, ss[i].waiters[p], ls[i].c, name);
      }
      ListedBefore(ss, ls, k, i, p, name);
    }
  }

  lemma WriterInsertsOrListed(w: Waiter, name: string)
    requires Ownership.WritesOwner(w.pc) && Ownership.Target(w).Some? && name == StatusVarName(w.hpc, Ownership.Target(w).value)
    ensures w.pc.SubmitWrite? || w.pc.PendingWrite? || HasListed(w, name)
  {
  }

  // A variable that is gone since state k comes back exactly with the write of a waiter that
  // inserts its own job's variable, or of a guard or a refresh that listed it before k.
  lemma ComesBackIff(ss: seq<State>, ls: seq<Label>, k: nat, j: nat, hpc: string, job: string)
    requires IsRun(ss, ls) && k <= j < |ls| && forall i | k <= i <= j :: StatusVarName(hpc, job) !in ss[i].sh.store
    ensures StatusVarName(hpc, job) in ss[j + 1].sh.store <==>
      && Ownership.Writes(ss[j], ls[j], StatusVarName(hpc, job))
      && var w := ss[j].waiters[ls[j].p];
         || w.pc.SubmitWrite? || w.pc.PendingWrite?
         || (ls[j].p in ss[k].waiters && HasListed(ss[k].waiters[ls[j].p], StatusVarName(hpc, job)))
  {
    var name := StatusVarName(hpc, job);
    assert Step(ss[j], ls[j]) == Some(ss[j + 1]);
    Ownership.AppearsIff(ss[j], ls[j], hpc, job);
    if Ownership.Writes(ss[j], ls[j], name) {
      var w := ss[j].waiters[ls[j].p];
      WriterInsertsOrListed(w, name);
      if !w.pc.SubmitWrite? && !w.pc.PendingWrite? {
        ListedBefore(ss, ls, k, j, ls[j].p, name);
      }
    }
  }
}

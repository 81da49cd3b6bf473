// Why a surviving waiter gets on: in every state it has a step of its own to take, once time
// has passed or a slot nobody renewed has expired, and between two sleeps it can take only
// so many.
module Progress {
  import opened Wrappers
  import opened Names
  import opened Protocol
  import opened LonePaths
  import Sacct

  // ---- The steps between two sleeps ----------------------------------------------------

  // An upper bound on the steps a waiter still takes before it sleeps or ends.
  function Rank(pc: Pc): nat {
    match pc
    case SubmitRead => 19 + 4 * READ_LIMIT
    case SubmitWrite(_) => 18 + 4 * READ_LIMIT
    case GuardFlow => 17 + 4 * READ_LIMIT
    case GuardList => 16 + 4 * READ_LIMIT
    case MarkRead(ids, next, _) => 15 + 2 * READ_LIMIT + 2 * Left(ids, next)
    case MarkWrite(ids, next, _, _) => 14 + 2 * READ_LIMIT + 2 * Left(ids, next)
    case FastRead => 14 + 2 * READ_LIMIT
    case FastDecide(_) => 13 + 2 * READ_LIMIT
    case Acquire => 12 + 2 * READ_LIMIT
    case RecheckRead => 11 + 2 * READ_LIMIT
    case RecheckDecide(_) => 10 + 2 * READ_LIMIT
    case Stamp => 9 + 2 * READ_LIMIT
    case WriteLease(_) => 8 + 2 * READ_LIMIT
    case Release(_) => 7 + 2 * READ_LIMIT
    case ListJobs(_) => 6 + 2 * READ_LIMIT
    case CallSacct(_, ids) => 5 + 2 * |ids|
    case RefreshRead(todo) => 4 + 2 * |todo|
    case RefreshWrite(todo, _) => 3 + 2 * |todo|
    case ReadStatus => 4
    case PendingRead => 3
    case PendingWrite(_) => 2
    case CallScancel(_, _) => 2
    case FoldDelete => 1
    case DeleteStatus(_) => 1
    case Sleeping(_) => 1
    case _ => 0
  }

  // The rank of an iteration's start, n times: the steps that n iterations can take.
  function Rounds(n: nat): nat {
    817 * n
  }

  function Left(ids: seq<string>, next: nat): nat {
    if next <= |ids| then |ids| - next else 0
  }

  lemma {:induction false} ListingsAreShort(store: Store, hpc: string, view: seq<string>, flow: string)
    ensures |OwnedJobs(store, hpc, view, flow)| <= |view| && |RunningJobs(store, hpc, view)| <= |view|
  {
    if view != [] {
      ListingsAreShort(store, hpc, view[1..], flow);
    }
  }

  predicate InList(pc: Pc) {
    pc.MarkRead? || pc.MarkWrite? || pc.RefreshRead? || pc.RefreshWrite?
  }

  lemma ListRankFalls(sh: Shared, w: Waiter)
    requires GoMove(sh, w).Some? && InList(w.pc)
    ensures Rank(GoMove(sh, w).value.pc) < Rank(w.pc)
  {
  }

  lemma ReadRankFalls(raw: Option<Value>, now: int)
    ensures Rank(AfterRead(raw, now)) < Rank(ReadStatus)
  {
  }

  lemma GoRankFalls(sh: Shared, w: Waiter)
    requires GoMove(sh, w).Some? && !w.pc.Sleeping?
    ensures Rank(GoMove(sh, w).value.pc) < Rank(w.pc)
  {
    if InList(w.pc) {
      ListRankFalls(sh, w);
    } else if w.pc.ReadStatus? {
      ReadRankFalls(Lookup(sh.store, StatusVarName(w.hpc, w.job)), sh.now);
    }
  }

  lemma AnswerRankFalls(ids: seq<string>, lines: Option<seq<string>>)
    ensures Rank(SacctPc(ids, lines)) < 5 + 2 * |ids|
  {
    if lines.Some? && Sacct.ReadStates(ids, lines.value).States? {
      Sacct.ReadStatesIff(ids, lines.value);
      assert |Sacct.ReadStates(ids, lines.value).infos| == |ids|;
    }
  }

  lemma ListingRankFalls(sh: Shared, w: Waiter, view: seq<string>)
    requires ChosenMove(sh, w, See(view)).Some?
    ensures Rank(ChosenMove(sh, w, See(view)).value.pc) < Rank(w.pc)
  {
    ListingsAreShort(sh.store, w.hpc, view, if w.flow.Some? then w.flow.value else "");
  }

  // Every step of its own, but for the renewal of its slot and waking up, brings the waiter
  // nearer to its next sleep or its end.
  lemma RankFalls(sh: Shared, w: Waiter, c: Choice)
    requires ChosenMove(sh, w, c).Some? && Calm(c) && !c.Renew? && !w.pc.Sleeping?
    ensures Rank(ChosenMove(sh, w, c).value.pc) < Rank(w.pc)
  {
    match c
    case Go => GoRankFalls(sh, w);
    case See(view) => ListingRankFalls(sh, w, view);
    case Answer(lines) => AnswerRankFalls(w.pc.ids, lines);
    case _ =>
  }

  lemma SleeperWakes(sh: Shared, w: Waiter, c: Choice)
    requires ChosenMove(sh, w, c).Some? && Calm(c) && w.pc.Sleeping?
    ensures ChosenMove(sh, w, c).value == Move(Nothing, Nothing, GuardFlow)
    ensures Advanced(w, ChosenMove(sh, w, c).value).iterations == w.iterations + 1
  {
  }

  lemma RenewStays(sh: Shared, w: Waiter)
    requires ChosenMove(sh, w, Renew).Some?
    ensures Advanced(w, ChosenMove(sh, w, Renew).value) == w
  {
  }

  // The steps of its own the waiter took, renewals of its slot aside.
  function Work(ls: seq<Label>, p: nat, n: nat): nat
    requires n <= |ls|
  {
    if n == 0 then 0 else Work(ls, p, n - 1) + if Works(ls[n - 1], p) then 1 else 0
  }

  predicate Works(l: Label, p: nat) {
    l.Local? && l.p == p && !l.c.Renew?
  }

  lemma OwnStepIsWork(sh: Shared, w: Waiter, c: Choice)
    requires ChosenMove(sh, w, c).Some? && Calm(c)
    ensures var w' := Advanced(w, ChosenMove(sh, w, c).value);
      && w.iterations <= w'.iterations
      && (if c.Renew? then 0 else 1) + Rank(w'.pc) <= Rank(w.pc) + Rounds(w'.iterations - w.iterations)
  {
    if c.Renew? {
      RenewStays(sh, w);
    } else if w.pc.Sleeping? {
      SleeperWakes(sh, w, c);
    } else {
      RankFalls(sh, w, c);
    }
  }

  lemma StepIsWork(s: State, p: nat, l: Label)
    requires Spares(s, p, l) && Step(s, l).Some? && p in Step(s, l).value.waiters
    ensures var w, w' := s.waiters[p], Step(s, l).value.waiters[p];
      && w.iterations <= w'.iterations
      && (if Works(l, p) then 1 else 0) + Rank(w'.pc) <= Rank(w.pc) + Rounds(w'.iterations - w.iterations)
  {
    SparedStep(s, p, l);
    if l.Local? && l.p == p {
      OwnStepIsWork(s.sh, s.waiters[p], l.c);
    }
  }

  lemma Sum(work: nat, more: nat, r0: nat, r1: nat, r2: nat, d: nat, e: nat)
    requires work + r1 <= r0 + Rounds(d) && more + r2 <= r1 + Rounds(e)
    ensures work + more + r2 <= r0 + Rounds(d + e)
  {
  }

  // However many steps the others take in between, the waiter's own work is bounded by the
  // iterations it began.
  lemma {:induction false} WorkIsBounded(ss: seq<State>, ls: seq<Label>, p: nat, k: nat)
    requires IsSurvivorPath(ss, ls, p) && k < |ss|
    ensures p in ss[k].waiters && ss[k].waiters[p].iterations >= ss[0].waiters[p].iterations
    ensures Work(ls, p, k) + Rank(ss[k].waiters[p].pc)
      <= Rank(ss[0].waiters[p].pc) + Rounds(ss[k].waiters[p].iterations - ss[0].waiters[p].iterations)
  {
    if k > 0 {
      var j := k - 1;
      WorkIsBounded(ss, ls, p, j);
      SurvivorStep(ss, ls, p, j);
      StepIsWork(ss[j], p, ls[j]);
      Sum(Work(ls, p, j), if Works(ls[j], p) then 1 else 0,
          Rank(ss[0].waiters[p].pc), Rank(ss[j].waiters[p].pc), Rank(ss[k].waiters[p].pc),
          ss[j].waiters[p].iterations - ss[0].waiters[p].iterations, ss[k].waiters[p].iterations - ss[j].waiters[p].iterations);
    }
  }

  // ---- There is always a step to take ----------------------------------------------------

  // The control points that occur: whoever is in the middle of a list has some of it left.
  predicate Fits(w: Waiter) {
    match w.pc
    case GuardList => w.flow.Some?
    case MarkRead(ids, next, _) => next < |ids|
    case MarkWrite(ids, next, _, _) => next < |ids|
    case RefreshRead(todo) => todo != []
    case RefreshWrite(todo, _) => todo != []
    case _ => true
  }

  lemma MoveFits(sh: Shared, w: Waiter, c: Choice)
    requires ChosenMove(sh, w, c).Some? && Fits(w)
    ensures Fits(Advanced(w, ChosenMove(sh, w, c).value))
  {
  }

  ghost predicate AllFit(s: State) {
    forall p | p in s.waiters :: Fits(s.waiters[p])
  }

  lemma StepFits(s: State, l: Label)
    requires AllFit(s) && Step(s, l).Some?
    ensures AllFit(Step(s, l).value)
  {
    if l.Local? {
      MoveFits(s.sh, s.waiters[l.p], l.c);
    }
  }

  lemma {:induction false} RunFits(ss: seq<State>, ls: seq<Label>, i: nat)
    requires IsRun(ss, ls) && i < |ss|
    ensures AllFit(ss[i])
  {
    if i > 0 {
      var k := i - 1;
      RunFits(ss, ls, k);
      assert Step(ss[k], ls[k]) == Some(ss[k + 1]);
      StepFits(ss[k], ls[k]);
    }
  }

  // Neither over, nor handling an exception of the server.
  predicate Busy(pc: Pc) {
    !pc.Done? && !pc.Crashed? && !pc.Raised?
  }

  // A step of its own the waiter can take now.
  ghost predicate CanStep(s: State, p: nat, c: Choice) {
    p in s.waiters && Friendly(s.waiters[p], c) && !c.Renew? && ChosenMove(s.sh, s.waiters[p], c).Some?
  }

  lemma {:induction false} SomeOf(names: set<string>, n: nat) returns (view: seq<string>)
    requires n <= |names|
    ensures |view| == n && (forall i, j | 0 <= i < j < n :: view[i] != view[j]) && forall x | x in view :: x in names
  {
    if n == 0 {
      view := [];
    } else {
      var x :| x in names;
      var rest := SomeOf(names - {x}, n - 1);
      view := [x] + rest;
    }
  }

  lemma SomeView(store: Store) returns (view: seq<string>)
    ensures IsView(store, view)
  {
    view := SomeOf(store.Keys, if |store| <= READ_LIMIT then |store| else READ_LIMIT);
  }

  lemma CanGo(sh: Shared, w: Waiter)
    requires Fits(w) && Busy(w.pc) && (w.pc.Sleeping? ==> w.pc.until <= sh.now) && (w.pc.Acquire? ==> w.hpc !in sh.slots)
    requires !w.pc.GuardFlow? && !w.pc.GuardList? && !w.pc.ListJobs? && !w.pc.CallSacct? && !w.pc.CallScancel?
    ensures GoMove(sh, w).Some?
  {
  }

  // Whatever a cluster or the server answers, the waiter has a step for it.
  lemma EveryAnswerIsTaken(sh: Shared, w: Waiter)
    requires Fits(w)
    ensures w.pc.GuardFlow? ==> forall up :: ChosenMove(sh, w, SeeFlow(up)).Some?
    ensures w.pc.GuardList? || w.pc.ListJobs? ==> forall view | IsView(sh.store, view) :: ChosenMove(sh, w, See(view)).Some?
    ensures w.pc.CallSacct? ==> forall lines :: ChosenMove(sh, w, Answer(lines)).Some?
    ensures w.pc.CallScancel? ==> forall ok :: ChosenMove(sh, w, ScancelAnswer(ok)).Some?
  {
  }

  // Awake and not queued at a taken slot, a busy waiter has a step to take.
  lemma HasStep(s: State, p: nat) returns (c: Choice)
    requires p in s.waiters && Fits(s.waiters[p]) && Busy(s.waiters[p].pc)
    requires s.waiters[p].pc.Sleeping? ==> s.waiters[p].pc.until <= s.sh.now
    requires s.waiters[p].pc.Acquire? ==> s.waiters[p].hpc !in s.sh.slots
    ensures CanStep(s, p, c)
  {
    var w := s.waiters[p];
    EveryAnswerIsTaken(s.sh, w);
    match w.pc {
      case GuardFlow => c := SeeFlow(true);
      case GuardList =>
        var view := SomeView(s.sh.store);
        c := See(view);
      case ListJobs(_) =>
        var view := SomeView(s.sh.store);
        c := See(view);
      case CallSacct(_, _) => c := Answer(None);
      case CallScancel(_, _) => c := ScancelAnswer(true);
      case _ =>
        CanGo(s.sh, w);
        c := Go;
    }
  }

  // The time after which a waiter is awake, or the slot it queues for can be freed.
  function ReadyAt(s: State, p: nat): int
    requires p in s.waiters
  {
    match s.waiters[p].pc
    case Sleeping(until) => if until > s.sh.now then until else s.sh.now
    case Acquire =>
      if s.waiters[p].hpc in s.sh.slots && s.sh.slots[s.waiters[p].hpc].until > s.sh.now
      then s.sh.slots[s.waiters[p].hpc].until else s.sh.now
    case _ => s.sh.now
  }

  // In every state a busy waiter has a step to take, if need be after time has passed and the
  // slot it queues for has expired; nothing else has to happen for it.
  lemma StepIsEnabled(s: State, p: nat) returns (ss: seq<State>, ls: seq<Label>, c: Choice)
    requires p in s.waiters && Fits(s.waiters[p]) && Busy(s.waiters[p].pc)
    ensures IsLonePath(ss, ls, p) && ss[0] == s && |ls| <= 2 && forall l | l in ls :: !l.Local?
    ensures CanStep(Last(ss), p, c) && Last(ss).waiters[p] == s.waiters[p] && Last(ss).sh.now == ReadyAt(s, p)
    ensures Last(ss).sh == s.sh.(now := ReadyAt(s, p), slots := Last(ss).sh.slots)
  {
    var w := s.waiters[p];
    ss, ls := Extend([s], [], p, Tick(ReadyAt(s, p) - s.sh.now));
    if w.pc.Acquire? && w.hpc in s.sh.slots {
      ss, ls := Extend(ss, ls, p, ExpireSlot(w.hpc));
    }
    c := HasStep(Last(ss), p);
  }

  lemma {:induction false} WorkOfPrefix(ls: seq<Label>, more: seq<Label>, p: nat, n: nat)
    requires n <= |ls|
    ensures Work(ls + more, p, n) == Work(ls, p, n)
  {
    if n > 0 {
      WorkOfPrefix(ls, more, p, n - 1);
    }
  }

  lemma {:induction false} NoWork(ls: seq<Label>, more: seq<Label>, p: nat, n: nat)
    requires n <= |more| && forall l | l in more :: !l.Local?
    ensures Work(ls + more, p, |ls| + n) == Work(ls, p, |ls|)
  {
    if n == 0 {
      WorkOfPrefix(ls, more, p, |ls|);
    } else {
      NoWork(ls, more, p, n - 1);
      assert (ls + more)[|ls| + n - 1] == more[n - 1] && more[n - 1] in more;
    }
  }

  lemma JoinPaths(ss: seq<State>, ls: seq<Label>, ss': seq<State>, ls': seq<Label>, p: nat)
    requires IsLonePath(ss, ls, p) && IsLonePath(ss', ls', p) && ss'[0] == Last(ss)
    ensures IsLonePath(ss + ss'[1..], ls + ls', p)
  {
    var all, labels := ss + ss'[1..], ls + ls';
    forall i | 0 <= i < |labels|
      ensures Step(all[i], labels[i]) == Some(all[i + 1]) && Smooth(all[i], p, labels[i])
    {
      if i < |ls| {
        LoneStep(ss, ls, p, i);
      } else {
        LoneStep(ss', ls', p, i - |ls|);
      }
    }
  }

  // A busy waiter alone can take as many steps as it likes, unless it ends before.
  lemma {:induction false} CanWork(s: State, p: nat, n: nat) returns (ss: seq<State>, ls: seq<Label>)
    requires p in s.waiters && Fits(s.waiters[p]) && Busy(s.waiters[p].pc)
    ensures IsLonePath(ss, ls, p) && ss[0] == s && p in Last(ss).waiters && Fits(Last(ss).waiters[p])
    ensures Last(ss).waiters[p].pc.Done? || (Busy(Last(ss).waiters[p].pc) && Work(ls, p, |ls|) == n)
  {
    if n == 0 {
      ss, ls := [s], [];
    } else {
      ss, ls := CanWork(s, p, n - 1);
      if !Last(ss).waiters[p].pc.Done? {
        var before := ls;
        var on, labels, c := StepIsEnabled(Last(ss), p);
        JoinPaths(ss, ls, on, labels, p);
        NoWork(ls, labels, p, |labels|);
        assert Last(ss + on[1..]) == Last(on);
        ss, ls := ss + on[1..], ls + labels;
        WorkOfPrefix(ls, [Local(p, c)], p, |ls|);
        MoveFits(Last(ss).sh, Last(ss).waiters[p], c);
        StaysBusy(Last(ss).sh, Last(ss).waiters[p], c);
        ss, ls := Extend(ss, ls, p, Local(p, c));
      }
    }
  }

  lemma StaysBusy(sh: Shared, w: Waiter, c: Choice)
    requires ChosenMove(sh, w, c).Some? && Friendly(w, c) && Busy(w.pc)
    ensures var pc := ChosenMove(sh, w, c).value.pc; Busy(pc) || pc.Done?
  {
  }

  // ---- Enough steps end the wait -----------------------------------------------------------

  lemma {:induction false} StaysUp(ss: seq<State>, ls: seq<Label>, p: nat, k: nat)
    requires IsSurvivorPath(ss, ls, p) && k < |ss| && Busy(ss[0].waiters[p].pc)
    ensures p in ss[k].waiters && (Busy(ss[k].waiters[p].pc) || ss[k].waiters[p].pc.Done?)
  {
    if k > 0 {
      var j := k - 1;
      StaysUp(ss, ls, p, j);
      SurvivorStep(ss, ls, p, j);
      SparedStep(ss[j], p, ls[j]);
      if ls[j].Local? && ls[j].p == p && Busy(ss[j].waiters[p].pc) {
        StaysBusy(ss[j].sh, ss[j].waiters[p], ls[j].c);
      }
    }
  }

  lemma WorkUsesUp(ss: seq<State>, ls: seq<Label>, p: nat, k: nat, more: nat)
    requires IsSurvivorPath(ss, ls, p) && k < |ss|
    requires Work(ls, p, k) >= Rank(ss[0].waiters[p].pc) + Rounds(more)
    requires p in ss[k].waiters && ss[k].waiters[p].iterations <= ss[0].waiters[p].iterations + more
    ensures Rank(ss[k].waiters[p].pc) == 0
  {
    WorkIsBounded(ss, ls, p, k);
    NothingLeft(Work(ls, p, k), Rank(ss[0].waiters[p].pc), Rank(ss[k].waiters[p].pc),
                ss[k].waiters[p].iterations - ss[0].waiters[p].iterations, more);
  }

  // A survivor that takes this many steps of its own has begun more than `more` iterations or
  // has returned.
  lemma EnoughWorkEnds(ss: seq<State>, ls: seq<Label>, p: nat, k: nat, more: nat)
    requires IsSurvivorPath(ss, ls, p) && k < |ss| && Busy(ss[0].waiters[p].pc)
    requires Work(ls, p, k) >= Rank(ss[0].waiters[p].pc) + Rounds(more)
    ensures p in ss[k].waiters
    ensures ss[k].waiters[p].iterations <= ss[0].waiters[p].iterations + more ==> ss[k].waiters[p].pc.Done?
  {
    StaysUp(ss, ls, p, k);
    if ss[k].waiters[p].iterations <= ss[0].waiters[p].iterations + more {
      WorkUsesUp(ss, ls, p, k, more);
      BusyHasRank(ss[k].waiters[p].pc);
    }
  }

  lemma NothingLeft(work: nat, r0: nat, r: nat, begun: nat, more: nat)
    requires work + r <= r0 + Rounds(begun) && work >= r0 + Rounds(more) && begun <= more
    ensures r == 0
  {
  }

  lemma BusyHasRank(pc: Pc)
    ensures Busy(pc) ==> Rank(pc) > 0
  {
  }
}

// The wait loop and the functions below it as the program runs them, one request to the
// outside world after the other. Every request is recorded as a step of the protocol, so
// that whatever the other waiters do in between, the recorded history is one of its runs.
module WaitLoop {
  import opened Wrappers
  import opened SlurmStates
  import opened Names
  import opened Protocol
  import Outage
  import Provenance
  import Sacct
  import Text

  // How a request ended: with a value, with an exception of the variable server, or not at
  // all because the waiter was stopped.
  datatype Attempt<+T> = Got(value: T) | ServerDown | Gone {
    predicate IsFailure() { !Got? }

    function PropagateFailure<U>(): Attempt<U>
      requires IsFailure()
    {
      if ServerDown? then ServerDown else Gone
    }

    function Extract(): T
      requires !IsFailure()
    {
      value
    }
  }

  // What becomes of a request. A waiter may be killed before it or, when it is a command to a
  // cluster, after it was sent.
  datatype Fate = Served | Lost(applied: bool, released: bool) | Killed(sent: bool)

  // _flow_cancellation_guard: the jobs committed to cancellation, or the failure of scancel.
  datatype Guard = ScancelFailed | CommittedTo(jobs: seq<string>)

  // A final answer of wait_completion_single.
  datatype Returned = EndState(state: SlurmState) | ScancelError | OutageError

  // The values of the listed variables that are active status variables of the HPC.
  function Payloads(hpc: string, results: seq<Variable>): (payloads: seq<Value>)
    ensures forall i | 0 <= i < |payloads| :: payloads[i].StatusOf?
  {
    if results == [] then []
    else if IsPayload(hpc, results[|results| - 1])
    then Payloads(hpc, results[..|results| - 1]) + [results[|results| - 1].value]
    else Payloads(hpc, results[..|results| - 1])
  }

  predicate IsPayload(hpc: string, v: Variable) {
    {HpcTag(hpc), ActiveTag} <= v.tags && v.value.StatusOf?
  }

  // _list_running_job_ids and the guard's selection.
  function NotCancelling(payloads: seq<Value>): seq<string>
    requires forall i | 0 <= i < |payloads| :: payloads[i].StatusOf?
  {
    if payloads == [] then []
    else if payloads[0].status.Cancelling? then NotCancelling(payloads[1..])
    else [payloads[0].job] + NotCancelling(payloads[1..])
  }

  function OwnedBy(payloads: seq<Value>, flow: string): seq<string>
    requires forall i | 0 <= i < |payloads| :: payloads[i].StatusOf?
  {
    if payloads == [] then []
    else if payloads[0].owner == Some(flow) then [payloads[0].job] + OwnedBy(payloads[1..], flow)
    else OwnedBy(payloads[1..], flow)
  }

  function Contents(store: Store, view: seq<string>): (results: seq<Variable>)
    requires forall name | name in view :: name in store
    ensures |results| == |view|
  {
    if view == [] then [] else [store[view[0]]] + Contents(store, view[1..])
  }

  lemma {:induction false} PayloadsFront(hpc: string, v: Variable, rest: seq<Variable>)
    ensures Payloads(hpc, [v] + rest) == (if IsPayload(hpc, v) then [v.value] else []) + Payloads(hpc, rest)
  {
    if rest == [] {
      assert ([v] + rest)[..0] == [];
    } else {
      PayloadsFront(hpc, v, rest[..|rest| - 1]);
      assert ([v] + rest)[..|rest|] == [v] + rest[..|rest| - 1];
    }
  }

  // Filtering what a listing returned selects exactly the jobs the protocol speaks of.
  lemma {:induction false} ListingSelects(store: Store, hpc: string, view: seq<string>, flow: string)
    requires forall name | name in view :: name in store
    ensures NotCancelling(Payloads(hpc, Contents(store, view))) == RunningJobs(store, hpc, view)
    ensures OwnedBy(Payloads(hpc, Contents(store, view)), flow) == OwnedJobs(store, hpc, view, flow)
  {
    if view != [] {
      ListingSelects(store, hpc, view[1..], flow);
      var v, rest := store[view[0]], Contents(store, view[1..]);
      PayloadsFront(hpc, v, rest);
      assert IsPayload(hpc, v) <==> Listed(store, hpc, view[0]);
      if IsPayload(hpc, v) {
        assert ([v.value] + Payloads(hpc, rest))[1..] == Payloads(hpc, rest);
      } else {
        assert [] + Payloads(hpc, rest) == Payloads(hpc, rest);
      }
    }
  }

  // Which variable the next read is for, and where it leads.
  function ReadsName(w: Waiter): Option<string> {
    match w.pc
    case SubmitRead => Some(StatusVarName(w.hpc, w.job))
    case PendingRead => Some(StatusVarName(w.hpc, w.job))
    case ReadStatus => Some(StatusVarName(w.hpc, w.job))
    case MarkRead(ids, next, _) => if next < |ids| then Some(StatusVarName(w.hpc, ids[next])) else None
    case RefreshRead(todo) => if todo == [] then None else Some(StatusVarName(w.hpc, todo[0].job))
    case FastRead => Some(LeaseVarName(w.hpc))
    case RecheckRead => Some(LeaseVarName(w.hpc))
    case _ => None
  }

  function AfterGet(w: Waiter, raw: Option<Value>, now: int): Pc {
    match w.pc
    case SubmitRead => SubmitWrite(OwnerFrom(raw, w.flow))
    case PendingRead => PendingWrite(OwnerFrom(raw, w.flow))
    case ReadStatus => AfterRead(raw, now)
    case MarkRead(ids, next, horizon) => MarkWrite(ids, next, horizon, OwnerFrom(raw, w.flow))
    case RefreshRead(todo) => RefreshWrite(todo, OwnerFrom(raw, w.flow))
    case FastRead => FastDecide(raw)
    case RecheckRead => RecheckDecide(raw)
    case _ => w.pc
  }

  // Which status the next _set_status is expected to write, and where it leads.
  function SetsStatus(w: Waiter): Option<(string, Status)> {
    match w.pc
    case SubmitRead => Some((w.job, Slurm(Pending)))
    case PendingRead => Some((w.job, Slurm(Pending)))
    case MarkRead(ids, next, _) => if next < |ids| then Some((ids[next], Cancelling)) else None
    case RefreshRead(todo) => if todo == [] then None else Some((todo[0].job, Slurm(todo[0].state)))
    case _ => None
  }

  function WritesStatus(w: Waiter): Option<(string, Status, Option<string>)> {
    match w.pc
    case SubmitWrite(owner) => Some((w.job, Slurm(Pending), owner))
    case PendingWrite(owner) => Some((w.job, Slurm(Pending), owner))
    case MarkWrite(ids, next, _, owner) => if next < |ids| then Some((ids[next], Cancelling, owner)) else None
    case RefreshWrite(todo, owner) => if todo == [] then None else Some((todo[0].job, Slurm(todo[0].state), owner))
    case _ => None
  }

  function AfterSet(pc: Pc, now: int): Pc {
    match pc
    case SubmitRead => GuardFlow
    case SubmitWrite(_) => GuardFlow
    case PendingRead => Sleeping(now + POLL_SECS)
    case PendingWrite(_) => Sleeping(now + POLL_SECS)
    case MarkRead(ids, next, horizon) => AfterMark(ids, next + 1, horizon)
    case MarkWrite(ids, next, horizon, _) => AfterMark(ids, next + 1, horizon)
    case RefreshRead(todo) => if todo == [] then pc else AfterRefresh(todo[1..])
    case RefreshWrite(todo, _) => if todo == [] then pc else AfterRefresh(todo[1..])
    case _ => pc
  }

  lemma GetMove(sh: Shared, w: Waiter, name: string)
    requires ReadsName(w) == Some(name)
    ensures GoMove(sh, w) == Some(Move(Nothing, Nothing, AfterGet(w, Lookup(sh.store, name), sh.now)))
  {
  }

  lemma SetMove(sh: Shared, w: Waiter)
    requires WritesStatus(w).Some?
    ensures var (j, status, owner) := WritesStatus(w).value;
      GoMove(sh, w) == Some(Move(Change.SetStatus(j, status, owner), Nothing, AfterSet(w.pc, sh.now)))
  {
  }

  // The read and the write of one _set_status.
  lemma SetterPair(w: Waiter, j: string, status: Status, raw: Option<Value>, now: int, w': Waiter)
    requires SetsStatus(w) == Some((j, status))
    requires w'.hpc == w.hpc && w'.job == w.job && w'.pc == AfterGet(w, raw, now)
    ensures ReadsName(w) == Some(StatusVarName(w.hpc, j))
    ensures WritesStatus(w') == Some((j, status, OwnerFrom(raw, w.flow)))
    ensures forall n :: AfterSet(w'.pc, n) == AfterSet(w.pc, n)
    ensures FailedAt(w'.pc) == FailedAt(w.pc)
  {
  }

  // Where a check of the lease leads, outside and inside the critical section.
  function AfterLeaseCheck(pc: Pc, expired: bool): Pc {
    if pc.FastRead? then (if expired then Acquire else ReadStatus)
    else if expired then Stamp else Release(None)
  }

  lemma LeaseRead(w: Waiter, raw: Option<Value>, now: int)
    requires w.pc.FastRead? || w.pc.RecheckRead?
    ensures AfterGet(w, raw, now) == if w.pc.FastRead? then FastDecide(raw) else RecheckDecide(raw)
    ensures forall t :: AfterClock(AfterGet(w, raw, now), t) == AfterLeaseCheck(w.pc, Expired(raw, t))
  {
  }

  // Where a clock reading leads.
  function AfterClock(pc: Pc, now: int): Pc {
    match pc
    case FastDecide(raw) => if Expired(raw, now) then Acquire else ReadStatus
    case RecheckDecide(raw) => if Expired(raw, now) then Stamp else Release(None)
    case Stamp => WriteLease(now)
    case _ => pc
  }

  function Lines(stdout: Option<string>): Option<seq<string>> {
    match stdout
    case None => None
    case Some(text) => Some(Text.SplitLines(text))
  }

  // The protocol's outcome for what the wait returns.
  predicate IsOutcome(answer: Returned, pc: Pc) {
    match answer
    case EndState(st) => pc == Done(Terminal(st)) || (st == Cancelled && pc == Done(Folded))
    case ScancelError => pc == Done(GuardError)
    case OutageError => pc == Done(GaveUp)
  }

  // The moves of the remaining requests, and what they do to the shared state.
  ghost predicate Moves(sh: Shared, me: nat, w: Waiter, c: Choice, sh': Shared, pc: Pc) {
    && ChosenMove(sh, w, c).Some?
    && Moved(sh, me, w, ChosenMove(sh, w, c).value) == sh'
    && ChosenMove(sh, w, c).value.pc == pc
  }

  lemma GoIs(sh: Shared, me: nat, w: Waiter, m: Move)
    requires GoMove(sh, w) == Some(m) && m.after.Nothing?
    ensures Moves(sh, me, w, Go, Apply(sh, me, w.hpc, m.change), m.pc)
  {
  }

  lemma ClockMove(sh: Shared, me: nat, w: Waiter)
    requires w.pc.FastDecide? || w.pc.RecheckDecide? || w.pc.Stamp?
    ensures Moves(sh, me, w, Go, sh, AfterClock(w.pc, sh.now))
  {
    GoIs(sh, me, w, Move(Nothing, Nothing, AfterClock(w.pc, sh.now)));
  }

  lemma LeaseMove(sh: Shared, me: nat, w: Waiter)
    requires w.pc.WriteLease?
    ensures Moves(sh, me, w, Go, Granted(sh, w.hpc, w.pc.stamp), Release(Some(|GrantsOf(sh, w.hpc)|)))
  {
    GoIs(sh, me, w, Move(SetLease(w.pc.stamp), Nothing, Release(Some(|GrantsOf(sh, w.hpc)|))));
  }

  // A written lease, and the record of its grant.
  function Granted(sh: Shared, hpc: string, stamp: int): Shared {
    Put(sh, LeaseVarName(hpc), Lease(stamp + LEASE_SECS), {}).(grants := sh.grants[hpc := GrantsOf(sh, hpc) + [stamp]])
  }

  function SlotTaken(sh: Shared, me: nat, hpc: string): Shared {
    sh.(slots := sh.slots[hpc := Slot(me, sh.now + SLOT_SECS)])
  }

  lemma AcquireMove(sh: Shared, me: nat, w: Waiter)
    requires w.pc.Acquire? && w.hpc !in sh.slots
    ensures Moves(sh, me, w, Go, SlotTaken(sh, me, w.hpc), RecheckRead)
  {
    GoIs(sh, me, w, Move(TakeSlot, Nothing, RecheckRead));
  }

  lemma ReleaseMove(sh: Shared, me: nat, w: Waiter)
    requires w.pc.Release?
    ensures Moves(sh, me, w, Go, DropSlot(sh, w.hpc), if w.pc.grant.Some? then ListJobs(w.pc.grant.value) else ReadStatus)
  {
    GoIs(sh, me, w, Move(FreeSlot, Nothing, if w.pc.grant.Some? then ListJobs(w.pc.grant.value) else ReadStatus));
  }

  lemma UnsetMove(sh: Shared, me: nat, w: Waiter)
    requires w.pc.FoldDelete? || w.pc.DeleteStatus?
    ensures Moves(sh, me, w, Go, sh.(store := map n | n in sh.store && n != StatusVarName(w.hpc, w.job) :: sh.store[n]),
      Done(if w.pc.FoldDelete? then Folded else Terminal(w.pc.state)))
  {
    GoIs(sh, me, w, Move(UnsetStatus(w.job), Nothing, Done(if w.pc.FoldDelete? then Folded else Terminal(w.pc.state))));
  }

  lemma WakeMove(sh: Shared, me: nat, w: Waiter)
    requires w.pc.Sleeping? && w.pc.until <= sh.now
    ensures Moves(sh, me, w, Go, sh, GuardFlow)
  {
    GoIs(sh, me, w, Move(Nothing, Nothing, GuardFlow));
  }

  lemma CrashMove(sh: Shared, me: nat, w: Waiter)
    requires !w.pc.Done?
    ensures Moves(sh, me, w, Crash, sh, Crashed)
  {
  }

  lemma RecoverMoves(sh: Shared, me: nat, w: Waiter, wake: Option<int>)
    requires w.pc == Raised(false) && (wake.Some? ==> wake.value >= sh.now + POLL_SECS)
    ensures ChosenMove(sh, w, Recover(wake)) ==
      Some(Move(Nothing, Nothing, match wake case None => Done(GaveUp) case Some(t) => Sleeping(t)))
    ensures Moved(sh, me, w, ChosenMove(sh, w, Recover(wake)).value) == sh
  {
  }

  // Where a raised server call leaves the waiter.
  function FailedAt(pc: Pc): Pc {
    Raised(pc.SubmitRead? || pc.SubmitWrite?)
  }

  lemma {:induction false} RunGrows(ss: seq<State>, ls: seq<Label>, l: Label, s: State)
    requires IsRun(ss, ls) && Step(ss[|ss| - 1], l) == Some(s)
    ensures IsRun(ss + [s], ls + [l])
  {
    var ss', ls' := ss + [s], ls + [l];
    forall i | 0 <= i < |ls'|
      ensures Step(ss'[i], ls'[i]) == Some(ss'[i + 1])
    {
      if i < |ls| {
        assert Step(ss[i], ls[i]) == Some(ss[i + 1]);
      }
    }
  }

  // A step of anything but this waiter's own code: the slot of a waiter is renewed behind its
  // back.
  predicate Foreign(me: nat, l: Label) {
    (l.Local? ==> l.p != me || l.c.Renew?) && (l.Spawn? ==> l.p != me)
  }

  lemma ApplyKeepsClock(sh: Shared, me: nat, hpc: string, ch: Change)
    ensures Apply(sh, me, hpc, ch).now == sh.now && Apply(sh, me, hpc, ch).hpcs == sh.hpcs
  {
  }

  lemma MoveKeepsClock(sh: Shared, me: nat, w: Waiter, m: Move)
    ensures Moved(sh, me, w, m).now == sh.now && Moved(sh, me, w, m).hpcs == sh.hpcs
  {
    ApplyKeepsClock(sh, me, w.hpc, m.change);
    ApplyKeepsClock(Apply(sh, me, w.hpc, m.change), me, w.hpc, m.after);
  }

  lemma ForeignKeeps(s: State, me: nat, l: Label)
    requires Foreign(me, l) && me in s.waiters && Step(s, l).Some?
    ensures var s' := Step(s, l).value;
      && me in s'.waiters && s'.sh.now >= s.sh.now && s'.sh.hpcs == s.sh.hpcs
      && (s'.waiters[me] == s.waiters[me] || s'.waiters[me] == s.waiters[me].(pc := Crashed))
  {
    match l
    case Local(p, c) => MoveKeepsClock(s.sh, p, s.waiters[p], ChosenMove(s.sh, s.waiters[p], c).value);
    case _ =>
  }

  // The failed polls of a waiter in the first n steps of a run: for each, the iteration and
  // the clock when the loop handled the exception.
  ghost function FailuresOf(ss: seq<State>, ls: seq<Label>, me: nat, n: nat): map<nat, int>
    requires |ss| == |ls| + 1 && n <= |ls|
  {
    if n == 0 then map[] else OneMore(FailuresOf(ss, ls, me, n - 1), ss[n - 1], ls[n - 1], me)
  }

  ghost function OneMore(failures: map<nat, int>, s: State, l: Label, me: nat): map<nat, int> {
    if l.Local? && l.p == me && l.c.Recover? && me in s.waiters
    then failures[s.waiters[me].iterations := s.sh.now] else failures
  }

  lemma {:induction false} FailuresOfLonger(ss: seq<State>, ls: seq<Label>, me: nat, n: nat, s: State, l: Label)
    requires |ss| == |ls| + 1 && n <= |ls|
    ensures FailuresOf(ss + [s], ls + [l], me, n) == FailuresOf(ss, ls, me, n)
  {
    if n > 0 {
      FailuresOfLonger(ss, ls, me, n - 1, s, l);
    }
  }

  lemma FailuresGrow(ss: seq<State>, ls: seq<Label>, me: nat, l: Label, s: State)
    requires |ss| == |ls| + 1
    ensures FailuresOf(ss + [s], ls + [l], me, |ls| + 1) == OneMore(FailuresOf(ss, ls, me, |ls|), ss[|ls|], l, me)
  {
    FailuresOfLonger(ss, ls, me, |ls|, s, l);
  }

  lemma WaitersStay(s: State, l: Label)
    requires Step(s, l).Some?
    ensures s.waiters.Keys <= Step(s, l).value.waiters.Keys
  {
  }

  lemma {:induction false} NoFailuresBefore(ss: seq<State>, ls: seq<Label>, me: nat, n: nat)
    requires IsRun(ss, ls) && n <= |ls| && me !in ss[n].waiters
    ensures FailuresOf(ss, ls, me, n) == map[]
  {
    if n > 0 {
      var k := n - 1;
      assert Step(ss[k], ls[k]) == Some(ss[k + 1]);
      WaitersStay(ss[k], ls[k]);
      NoFailuresBefore(ss, ls, me, k);
    }
  }

  // A history of polls, one per iteration, that failed when and where the run says.
  ghost predicate Agrees(polls: seq<Outage.Poll>, failures: map<nat, int>) {
    && (forall k | k in failures :: k < |polls|)
    && forall k: nat | k < |polls| ::
         (polls[k].raised <==> k in failures) && (k in failures ==> polls[k].at == failures[k])
  }

  // One more poll in the history.
  lemma PollNoted(polls: seq<Outage.Poll>, failures: map<nat, int>, p: Outage.Poll)
    requires Agrees(polls, failures)
    requires Outage.Paced(polls) && Outage.Due(polls, p.at) && Outage.LastedUntil(polls, |polls|) && !Outage.GivesUp(polls)
    ensures Agrees(polls + [p], if p.raised then failures[|polls| := p.at] else failures)
    ensures Outage.Paced(polls + [p]) && Outage.LastedUntil(polls + [p], |polls| + 1)
    ensures (polls + [p])[..|polls|] == polls
    ensures Outage.Started(polls + [p]) ==
      if !p.raised then None else if Outage.Started(polls).Some? then Outage.Started(polls) else Some(p.at)
    ensures Outage.Backoff(polls + [p]) == if p.raised then Doubled(Outage.Backoff(polls)) else POLL_SECS
  {
    Outage.PollAppended(polls, p);
  }

  function Doubled(backoff: int): int {
    if 2 * backoff < Outage.MAX_BACKOFF_SECS then 2 * backoff else Outage.MAX_BACKOFF_SECS
  }

  // A waiter joins a run.
  lemma Joins(ss: seq<State>, ls: seq<Label>, me: nat, w: Waiter)
    requires IsRun(ss, ls) && me !in ss[|ss| - 1].waiters && Fresh(ss[|ss| - 1].sh, w)
    ensures var now := ss[|ss| - 1];
      var s := now.(waiters := now.waiters[me := w]);
      IsRun(ss + [s], ls + [Spawn(me, w)]) && FailuresOf(ss + [s], ls + [Spawn(me, w)], me, |ls| + 1) == map[]
  {
    var now := ss[|ss| - 1];
    var s := now.(waiters := now.waiters[me := w]);
    assert Step(now, Spawn(me, w)) == Some(s);
    RunGrows(ss, ls, Spawn(me, w), s);
    NoFailuresBefore(ss, ls, me, |ls|);
    FailuresGrow(ss, ls, me, Spawn(me, w), s);
  }

  // One wait_completion_single and the world around it. What the world does is given by
  // oracles, indexed by the number of requests made so far: what the other waiters do before
  // the request is served, what becomes of it, and the answers of the clusters.
  class Poller {
    const me: nat
    const hpc: string
    const job: string
    const flow: Option<string>
    const others: nat -> seq<Label>
    const fate: nat -> Fate
    const flowUp: nat -> bool
    const order: (nat, Store) -> seq<string>
    const sacct: nat -> Option<string>
    const scancel: nat -> bool
    // the number of requests after which this waiter is no longer watched
    const horizon: nat

    var calls: nat
    var sys: State
    ghost var ss: seq<State>
    ghost var ls: seq<Label>
    ghost var failures: map<nat, int>

    ghost predicate ListsInSomeOrder() {
      forall n: nat, store :: IsView(store, order(n, store))
    }

    // The recorded history is a run of the protocol that leads to the present state, this
    // waiter takes part in it, and `failures` are its failed polls.
    ghost predicate Valid()
      reads this
    {
      && ListsInSomeOrder()
      && IsRun(ss, ls) && ss[|ss| - 1] == sys && failures == FailuresOf(ss, ls, me, |ls|)
      && me in sys.waiters
      && sys.waiters[me].hpc == hpc && sys.waiters[me].job == job && sys.waiters[me].flow == flow
    }

    function Self(): Waiter
      reads this
      requires me in sys.waiters
    {
      sys.waiters[me]
    }

    // The control point the protocol has this waiter at.
    function Where(): Pc
      reads this
      requires me in sys.waiters
    {
      sys.waiters[me].pc
    }

    // The waiter was stopped, or is no longer watched.
    predicate Over()
      reads this
      requires me in sys.waiters
    {
      calls >= horizon || Where().Crashed?
    }

    // What every request keeps, whatever happens in between.
    twostate predicate Onward()
      reads this
    {
      Valid() && old(sys.sh.now) <= sys.sh.now && old(sys.sh.hpcs) == sys.sh.hpcs && old(calls) <= calls
    }

    // What a request keeps within an iteration.
    twostate predicate Within()
      requires old(me in sys.waiters)
      reads this
    {
      Onward() && failures == old(failures) && Self().iterations == old(Self().iterations)
    }

    // A waiter that joins a run, after submitting its job or on its own.
    constructor (me: nat, hpc: string, job: string, flow: Option<string>, submitted: bool,
        others: nat -> seq<Label>, fate: nat -> Fate, flowUp: nat -> bool, order: (nat, Store) -> seq<string>,
        sacct: nat -> Option<string>, scancel: nat -> bool, horizon: nat,
        now: State, ghost ss: seq<State>, ghost ls: seq<Label>)
      requires forall n: nat, store :: IsView(store, order(n, store))
      requires IsRun(ss, ls) && ss[|ss| - 1] == now
      requires me !in now.waiters && hpc in now.sh.hpcs && ValidJobId(job)
      ensures Valid() && Self() == Waiter(hpc, job, flow, if submitted then SubmitRead else GuardFlow, 0)
      ensures sys.sh == now.sh && failures == map[]
      ensures this.me == me && this.hpc == hpc && this.job == job && this.flow == flow
    {
      var w := Waiter(hpc, job, flow, if submitted then SubmitRead else GuardFlow, 0);
      this.me, this.hpc, this.job, this.flow := me, hpc, job, flow;
      this.others, this.fate, this.flowUp, this.order := others, fate, flowUp, order;
      this.sacct, this.scancel, this.horizon := sacct, scancel, horizon;
      this.calls := 0;
      this.sys := now.(waiters := now.waiters[me := w]);
      this.ss := ss + [now.(waiters := now.waiters[me := w])];
      this.ls := ls + [Spawn(me, w)];
      this.failures := map[];
      new;
      Joins(ss, ls, me, w);
    }

    // A step of somebody else, if it can be taken now.
    method Other(l: Label)
      requires Valid() && Foreign(me, l)
      modifies this
      ensures Within() && calls == old(calls)
      ensures Self() == old(Self()) || Self() == old(Self()).(pc := Crashed)
    {
      var next := Step(sys, l);
      if next.Some? {
        ForeignKeeps(sys, me, l);
        RunGrows(ss, ls, l, next.value);
        FailuresGrow(ss, ls, me, l, next.value);
        sys := next.value;
        ss, ls := ss + [next.value], ls + [l];
      }
    }

    // What the others do before a request of this waiter is served.
    method Interfere()
      requires Valid()
      modifies this
      ensures Within() && calls == old(calls) + 1
      ensures Self() == old(Self()) || Self() == old(Self()).(pc := Crashed)
    {
      var todo := others(calls);
      calls := calls + 1;
      for i := 0 to |todo|
        invariant Within() && calls == old(calls) + 1
        invariant Self() == old(Self()) || Self() == old(Self()).(pc := Crashed)
      {
        if Foreign(me, todo[i]) {
          Other(todo[i]);
        }
      }
    }

    // Records a step of this waiter whose effect on the shared state was carried out as `sh`.
    method Record(c: Choice, sh: Shared)
      requires Valid() && ChosenMove(sys.sh, Self(), c).Some?
      requires sh == Moved(sys.sh, me, Self(), ChosenMove(sys.sh, Self(), c).value)
      modifies this
      ensures Onward() && calls == old(calls) && sys.sh == sh && sh.now == old(sys.sh.now)
      ensures Where() == old(ChosenMove(sys.sh, Self(), c).value.pc)
      ensures Self().iterations == old(Advanced(Self(), ChosenMove(sys.sh, Self(), c).value).iterations)
      ensures failures == if c.Recover? then old(failures[Self().iterations := sys.sh.now]) else old(failures)
    {
      var m := ChosenMove(sys.sh, Self(), c).value;
      var next := State(sh, sys.waiters[me := Advanced(Self(), m)]);
      assert Step(sys, Local(me, c)) == Some(next);
      MoveKeepsClock(sys.sh, me, Self(), m);
      RunGrows(ss, ls, Local(me, c), next);
      FailuresGrow(ss, ls, me, Local(me, c), next);
      failures := if c.Recover? then failures[Self().iterations := sys.sh.now] else failures;
      sys := next;
      ss, ls := ss + [next], ls + [Local(me, c)];
    }

    // One request up to the moment it is served.
    method Call() returns (r: Attempt<()>)
      requires Valid() && !Where().Done?
      modifies this
      ensures Within()
      ensures r.Gone? ==> Over()
      ensures r.Got? ==> Self() == old(Self()) && old(calls) < calls <= horizon
      ensures r.ServerDown? ==> CallsServer(old(Where())) && Where() == FailedAt(old(Where()))
    {
      if calls >= horizon {
        return Gone;
      }
      var doom := fate(calls);
      Interfere();
      if Self().pc.Crashed? {
        return Gone;
      }
      match doom {
        case Served =>
          return Got(());
        case Killed(sent) =>
          Die(sent);
          return Gone;
        case Lost(applied, released) =>
          if !CallsServer(Where()) {
            return Got(());
          }
          Fail(applied, released);
          return ServerDown;
      }
    }

    // The waiter is killed, before or after it sent its command.
    method Die(sent: bool)
      requires Valid() && !Where().Done?
      modifies this
      ensures Within() && Where().Crashed?
    {
      if sent && (Where().CallSacct? || Where().CallScancel?) {
        var m := ChosenMove(sys.sh, Self(), DieSent).value;
        Record(DieSent, Moved(sys.sh, me, Self(), m));
      } else {
        CrashMove(sys.sh, me, Self());
        Record(Crash, sys.sh);
      }
    }

    // The server raises in answer to a request.
    method Fail(applied: bool, released: bool)
      requires Valid() && CallsServer(Where())
      modifies this
      ensures Within() && Where() == FailedAt(old(Where()))
    {
      var m := ErrorMove(sys.sh, Self(), applied, released).value;
      Record(ServerError(applied, released), Moved(sys.sh, me, Self(), m));
    }

    // Variable.aget.
    method GetVariable(name: string) returns (r: Attempt<Option<Value>>)
      requires Valid() && ReadsName(Self()) == Some(name)
      modifies this
      ensures Within()
      ensures r.Gone? ==> Over()
      ensures r.Got? ==> Where() == AfterGet(old(Self()), r.value, sys.sh.now)
      ensures r.ServerDown? ==> Where() == FailedAt(old(Where()))
    {
      var _ :- Call();
      var raw := Lookup(sys.sh.store, name);
      GetMove(sys.sh, Self(), name);
      Record(Go, sys.sh);
      r := Got(raw);
    }

    // Variable.aset of a status variable.
    method SetVariable(name: string, value: Value, tags: set<Tag>) returns (r: Attempt<()>)
      requires Valid() && WritesStatus(Self()).Some?
      requires var (j, status, owner) := WritesStatus(Self()).value;
        name == StatusVarName(hpc, j) && value == StatusOf(hpc, j, status, owner) && tags == StatusTags(hpc, owner)
      modifies this
      ensures Within()
      ensures r.Gone? ==> Over()
      ensures r.Got? ==> Where() == AfterSet(old(Where()), sys.sh.now)
      ensures r.ServerDown? ==> Where() == FailedAt(old(Where()))
    {
      var _ :- Call();
      SetMove(sys.sh, Self());
      Record(Go, Put(sys.sh, name, value, tags));
      r := Got(());
    }

    // _set_status: an existing owner is kept.
    method SetStatus(j: string, status: Status) returns (r: Attempt<()>)
      requires Valid() && SetsStatus(Self()) == Some((j, status))
      modifies this
      ensures Within()
      ensures r.Gone? ==> Over()
      ensures r.Got? ==> Where() == AfterSet(old(Where()), sys.sh.now)
      ensures r.ServerDown? ==> Where() == FailedAt(old(Where()))
    {
      ghost var was := Self();
      assert ReadsName(Self()) == Some(StatusVarName(hpc, j));
      var existing :- GetVariable(StatusVarName(hpc, j));
      SetterPair(was, j, status, existing, sys.sh.now, Self());
      var owner := flow;
      if existing.Some? && existing.value.StatusOf? && existing.value.owner.Some? {
        owner := existing.value.owner;
      }
      var tags := {HpcTag(hpc), ActiveTag};
      if owner.Some? {
        tags := tags + {FlowTag(owner.value)};
      }
      r := SetVariable(StatusVarName(hpc, j), StatusOf(hpc, j, status, owner), tags);
    }

    // The clock readings of _lease_expired and _write_lease.
    method Clock() returns (r: Attempt<int>)
      requires Valid() && (Where().FastDecide? || Where().RecheckDecide? || Where().Stamp?)
      modifies this
      ensures Within()
      ensures r.Gone? ==> Over()
      ensures r.Got? ==> Where() == AfterClock(old(Where()), r.value)
      ensures !r.ServerDown?
    {
      var _ :- Call();
      ClockMove(sys.sh, me, Self());
      Record(Go, sys.sh);
      r := Got(sys.sh.now);
    }

    method LeaseExpired() returns (r: Attempt<bool>)
      requires Valid() && (Where().FastRead? || Where().RecheckRead?)
      modifies this
      ensures Within()
      ensures r.Gone? ==> Over()
      ensures r.Got? ==> Where() == AfterLeaseCheck(old(Where()), r.value)
      ensures r.ServerDown? ==> Where() == Raised(false)
    {
      ghost var was := Self();
      var raw :- GetVariable(LeaseVarName(hpc));
      LeaseRead(was, raw, sys.sh.now);
      var now :- Clock();
      if raw.None? || !raw.value.Lease? {
        return Got(true);
      }
      r := Got(raw.value.expires <= now);
    }

    method WriteLease() returns (r: Attempt<()>)
      requires Valid() && Where().Stamp?
      modifies this
      ensures Within()
      ensures r.Gone? ==> Over()
      ensures r.Got? ==> Where().Release? && Where().grant.Some?
      ensures r.ServerDown? ==> Where() == Raised(false)
    {
      var now :- Clock();
      r := SetLeaseVariable(now);
    }

    // Variable.aset of the lease variable.
    method SetLeaseVariable(stamp: int) returns (r: Attempt<()>)
      requires Valid() && Where() == Pc.WriteLease(stamp)
      modifies this
      ensures Within()
      ensures r.Gone? ==> Over()
      ensures r.Got? ==> Where().Release? && Where().grant.Some?
      ensures r.ServerDown? ==> Where() == Raised(false)
    {
      var _ :- Call();
      LeaseMove(sys.sh, me, Self());
      Record(Go, Granted(sys.sh, hpc, stamp));
      r := Got(());
    }

    // One attempt to enter the critical section of the HPC.
    method TryTakeMutex() returns (r: Attempt<bool>)
      requires Valid() && Where().Acquire?
      modifies this
      ensures Within()
      ensures r.Gone? ==> Over()
      ensures r.Got? ==> old(calls) < calls <= horizon && (if r.value then Where().RecheckRead? else Where().Acquire?)
      ensures r.ServerDown? ==> Where() == Raised(false)
    {
      var _ :- Call();
      if hpc in sys.sh.slots {
        return Got(false);
      }
      AcquireMove(sys.sh, me, Self());
      Record(Go, SlotTaken(sys.sh, me, hpc));
      r := Got(true);
    }

    method TakeMutex() returns (r: Attempt<()>)
      requires Valid() && Where().Acquire?
      modifies this
      ensures Within()
      ensures r.Gone? ==> Over()
      ensures r.Got? ==> Where().RecheckRead?
      ensures r.ServerDown? ==> Where() == Raised(false)
    {
      while true
        invariant Within() && Where().Acquire?
        decreases horizon - calls
      {
        var taken :- TryTakeMutex();
        if taken {
          return Got(());
        }
      }
    }

    method GiveMutex() returns (r: Attempt<()>)
      requires Valid() && Where().Release?
      modifies this
      ensures Within()
      ensures r.Gone? ==> Over()
      ensures r.Got? && old(Where()).grant.None? ==> Where().ReadStatus?
      ensures r.Got? && old(Where()).grant.Some? ==> Where().ListJobs?
      ensures r.ServerDown? ==> Where() == Raised(false)
    {
      var _ :- Call();
      ReleaseMove(sys.sh, me, Self());
      Record(Go, DropSlot(sys.sh, hpc));
      r := Got(());
    }

    method ListVariables() returns (r: Attempt<seq<Variable>>)
      requires Valid() && (Where().ListJobs? || (Where().GuardList? && flow.Some?))
      modifies this
      ensures Within()
      ensures r.Gone? ==> Over()
      ensures r.Got? ==> Selected(old(Where()), Payloads(hpc, r.value))
      ensures r.ServerDown? ==> Where() == Raised(false)
    {
      var _ :- Call();
      var view := order(calls, sys.sh.store);
      var results := Contents(sys.sh.store, view);
      ListingSelects(sys.sh.store, hpc, view, if flow.Some? then flow.value else "");
      Record(See(view), sys.sh);
      r := Got(results);
    }

    // Where a listing that yielded these payloads leads.
    ghost predicate Selected(was: Pc, payloads: seq<Value>)
      reads this
      requires me in sys.waiters
      requires forall i | 0 <= i < |payloads| :: payloads[i].StatusOf?
    {
      && (was.ListJobs? ==>
            var ids := NotCancelling(payloads);
            Where() == if ids == [] then ReadStatus else CallSacct(was.won, ids))
      && (was.GuardList? && flow.Some? ==>
            Where() == AfterMark(OwnedBy(payloads, flow.value), 0, sys.sh.births))
    }

    // _list_status_payloads.
    method ListStatusPayloads() returns (r: Attempt<seq<Value>>)
      requires Valid() && (Where().ListJobs? || (Where().GuardList? && flow.Some?))
      modifies this
      ensures Within()
      ensures r.Gone? ==> Over()
      ensures r.Got? ==> (forall i | 0 <= i < |r.value| :: r.value[i].StatusOf?) && Selected(old(Where()), r.value)
      ensures r.ServerDown? ==> Where() == Raised(false)
    {
      var results :- ListVariables();
      var out := [];
      for i := 0 to |results|
        invariant out == Payloads(hpc, results[..i])
      {
        assert results[..i + 1][..i] == results[..i];
        if !({HpcTag(hpc), ActiveTag} <= results[i].tags) {
          continue;
        }
        if !results[i].value.StatusOf? {
          continue;
        }
        out := out + [results[i].value];
      }
      assert results[..|results|] == results;
      r := Got(out);
    }

    // The state of the flow run; an unreachable server is no signal.
    method FlowIsCancelled() returns (r: Attempt<bool>)
      requires Valid() && Where().GuardFlow? && flow.Some?
      modifies this
      ensures Within()
      ensures r.Gone? ==> Over()
      ensures r.Got? ==> Where() == if r.value then GuardList else FastRead
      ensures !r.ServerDown?
    {
      var _ :- Call();
      var up := flowUp(calls);
      Record(SeeFlow(up), sys.sh);
      r := Got(up && flow.value in sys.sh.cancelled);
    }

    method Scancel(jobs: seq<string>) returns (r: Attempt<bool>)
      requires Valid() && Where().CallScancel? && Where().ids == jobs
      modifies this
      ensures Within()
      ensures r.Gone? ==> Over()
      ensures r.Got? ==> Where() == if r.value then FoldDelete else Done(GuardError)
      ensures !r.ServerDown?
    {
      var _ :- Call();
      var ok := scancel(calls);
      Record(ScancelAnswer(ok), if ok then sys.sh.(scancelled := sys.sh.scancelled + set j | j in jobs :: (hpc, j)) else sys.sh);
      r := Got(ok);
    }

    // Marks the flow's jobs one after the other.
    method MarkAll(jobs: seq<string>, ghost listedAt: nat) returns (r: Attempt<()>)
      requires Valid() && Where() == AfterMark(jobs, 0, listedAt)
      modifies this
      ensures Within()
      ensures r.Gone? ==> Over()
      ensures r.Got? ==> Where() == AfterMark(jobs, |jobs|, listedAt)
      ensures r.ServerDown? ==> Where() == Raised(false)
    {
      for i := 0 to |jobs|
        invariant Within() && Where() == AfterMark(jobs, i, listedAt)
      {
        var _ :- SetStatus(jobs[i], Cancelling);
      }
      r := Got(());
    }

    // _flow_cancellation_guard.
    method FlowCancellationGuard() returns (r: Attempt<Guard>)
      requires Valid() && Where().GuardFlow?
      modifies this
      ensures Within()
      ensures r.Gone? ==> Over()
      ensures r.Got? ==>
        match r.value
        case ScancelFailed => Where() == Done(GuardError)
        case CommittedTo(jobs) => Where() == if jobs == [] then FastRead else FoldDelete
      ensures r.ServerDown? ==> Where() == Raised(false)
    {
      if flow.None? {
        Record(SeeFlow(false), sys.sh);
        return Got(CommittedTo([]));
      }
      var cancelled :- FlowIsCancelled();
      if !cancelled {
        return Got(CommittedTo([]));
      }
      var payloads :- ListStatusPayloads();
      var jobs := OwnedBy(payloads, flow.value);
      var _ :- MarkAll(jobs, sys.sh.births);
      if jobs != [] {
        var ok :- Scancel(jobs);
        if !ok {
          return Got(ScancelFailed);
        }
      }
      r := Got(CommittedTo(jobs));
    }

    method RunSacct(ids: seq<string>) returns (r: Attempt<Option<string>>)
      requires Valid() && Where().CallSacct? && Where().ids == ids && ids != []
      modifies this
      ensures Within()
      ensures r.Gone? ==> Over()
      ensures r.Got? ==> Where() == SacctPc(ids, Lines(r.value))
      ensures !r.ServerDown?
    {
      var _ :- Call();
      var stdout := sacct(calls);
      var lines := Lines(stdout);
      var sh := sys.sh.(spent := sys.sh.spent + {(hpc, Where().won)});
      if lines.Some? {
        sh := sh.(outputs := sys.sh.outputs + {Output(hpc, lines.value)});
      }
      Record(Choice.Answer(lines), sh);
      r := Got(stdout);
    }

    // _try_update_status.
    method TryUpdateStatus() returns (r: Attempt<()>)
      requires Valid() && Where().FastRead?
      modifies this
      ensures Within()
      ensures r.Gone? ==> Over()
      ensures r.Got? ==> Where().ReadStatus?
      ensures r.ServerDown? ==> Where() == Raised(false)
    {
      var stale :- LeaseExpired();
      if !stale {
        return Got(());
      }
      var _ :- TakeMutex();
      stale :- LeaseExpired();
      if !stale {
        var _ :- GiveMutex();
        return Got(());
      }
      var _ :- WriteLease();
      var _ :- GiveMutex();
      r := Refresh();
    }

    // Writes what sacct reported, one variable after the other.
    method WriteStates(infos: seq<Sacct.JobInfo>) returns (r: Attempt<()>)
      requires Valid() && Where() == AfterRefresh(infos)
      modifies this
      ensures Within()
      ensures r.Gone? ==> Over()
      ensures r.Got? ==> Where().ReadStatus?
      ensures r.ServerDown? ==> Where() == Raised(false)
    {
      assert infos[0..] == infos;
      for i := 0 to |infos|
        invariant Within() && Where() == AfterRefresh(infos[i..])
      {
        assert infos[i..][1..] == infos[i + 1..];
        var _ :- SetStatus(infos[i].job, Slurm(infos[i].state));
      }
      r := Got(());
    }

    // The part of _try_update_status outside the critical section.
    method Refresh() returns (r: Attempt<()>)
      requires Valid() && Where().ListJobs?
      modifies this
      ensures Within()
      ensures r.Gone? ==> Over()
      ensures r.Got? ==> Where().ReadStatus?
      ensures r.ServerDown? ==> Where() == Raised(false)
    {
      var payloads :- ListStatusPayloads();
      var ids := NotCancelling(payloads);
      if ids == [] {
        return Got(());
      }
      var stdout :- RunSacct(ids);
      var states := Sacct.QueryStates(ids, stdout);
      match states {
        case Raises =>
          return Gone;
        case States(infos) =>
          var _ :- WriteStates(infos);
        case _ =>
      }
      r := Got(());
    }

    method UnsetVariable(name: string) returns (r: Attempt<()>)
      requires Valid() && (Where().FoldDelete? || Where().DeleteStatus?) && name == StatusVarName(hpc, job)
      modifies this
      ensures Within()
      ensures r.Gone? ==> Over()
      ensures r.Got? && old(Where()).FoldDelete? ==> Where() == Done(Folded)
      ensures r.Got? && old(Where()).DeleteStatus? ==> Where() == Done(Terminal(old(Where()).state))
      ensures r.ServerDown? ==> Where() == Raised(false)
    {
      var _ :- Call();
      UnsetMove(sys.sh, me, Self());
      Record(Go, sys.sh.(store := map n | n in sys.sh.store && n != name :: sys.sh.store[n]));
      r := Got(());
    }

    // _poll_completion_once.
    method PollCompletionOnce() returns (r: Attempt<Option<Returned>>)
      requires Valid() && Where().GuardFlow?
      modifies this
      ensures Within()
      ensures r.Gone? ==> Over()
      ensures r.Got? && r.value.None? ==> Where().Sleeping? && Where().until <= sys.sh.now + POLL_SECS
      ensures r.Got? && r.value.Some? ==> IsOutcome(r.value.value, Where()) && !r.value.value.OutageError?
      ensures r.ServerDown? ==> Where() == Raised(false)
    {
      var guard :- FlowCancellationGuard();
      if guard.ScancelFailed? {
        return Got(Some(ScancelError));
      }
      if guard.jobs != [] {
        var _ :- UnsetVariable(StatusVarName(hpc, job));
        return Got(Some(EndState(Cancelled)));
      }
      var _ :- TryUpdateStatus();
      r := ReadOwnStatus();
    }

    // The part of _poll_completion_once after the refresh.
    method ReadOwnStatus() returns (r: Attempt<Option<Returned>>)
      requires Valid() && Where().ReadStatus?
      modifies this
      ensures Within()
      ensures r.Gone? ==> Over()
      ensures r.Got? && r.value.None? ==> Where().Sleeping? && Where().until <= sys.sh.now + POLL_SECS
      ensures r.Got? && r.value.Some? ==> IsOutcome(r.value.value, Where()) && !r.value.value.OutageError?
      ensures r.ServerDown? ==> Where() == Raised(false)
    {
      var raw :- GetVariable(StatusVarName(hpc, job));
      if raw.None? || !raw.value.StatusOf? {
        var _ :- SetStatus(job, Slurm(Pending));
        return Got(None);
      }
      if raw.value.status.Cancelling? {
        return Got(None);
      }
      var state := raw.value.status.state;
      if IsTerminal(state) {
        var _ :- UnsetVariable(StatusVarName(hpc, job));
        return Got(Some(EndState(state)));
      }
      r := Got(None);
    }

    method Sleep(secs: int) returns (r: Attempt<()>)
      requires Valid() && Where().Sleeping? && Where().until <= sys.sh.now + secs
      modifies this
      ensures Onward()
      ensures r.Gone? ==> Over()
      ensures failures == old(failures)
      ensures Self().iterations == old(Self().iterations) + if r.Got? then 1 else 0
      ensures r.Got? ==> Where().GuardFlow? && sys.sh.now >= old(sys.sh.now) + secs
      ensures r.Got? ==> old(calls) < calls <= horizon
      ensures !r.ServerDown?
    {
      var wake := sys.sh.now + secs;
      while true
        invariant Within() && Self() == old(Self())
        decreases horizon - calls
      {
        var _ :- Call();
        if sys.sh.now >= wake {
          WakeMove(sys.sh, me, Self());
          Record(Go, sys.sh);
          return Got(());
        }
      }
    }

    // The loop variables of wait_completion_single agree with the polls so far, which are
    // one per iteration and failed as recorded.
    ghost predicate Accounts(polls: seq<Outage.Poll>, outageStarted: Option<int>, backoff: int)
      requires me in sys.waiters
      reads this
    {
      && Outage.Paced(polls) && Outage.Due(polls, sys.sh.now) && Outage.LastedUntil(polls, |polls|)
      && outageStarted == Outage.Started(polls) && backoff == Outage.Backoff(polls)
      && Agrees(polls, failures) && |polls| == Self().iterations
    }

    // The loop goes back to sleep after an exception.
    method SleepOff(backoff: int) returns (r: Attempt<()>)
      requires Valid() && Where() == Raised(false) && backoff >= POLL_SECS
      modifies this
      ensures Onward() && !r.ServerDown?
      ensures r.Gone? ==> Over()
      ensures failures == old(failures[Self().iterations := sys.sh.now])
      ensures r.Got? ==> Where().GuardFlow? && sys.sh.now >= old(sys.sh.now) + backoff && old(calls) < calls <= horizon
      ensures r.Got? ==> Self().iterations == old(Self().iterations) + 1
    {
      RecoverMoves(sys.sh, me, Self(), Some(sys.sh.now + backoff));
      Record(Recover(Some(sys.sh.now + backoff)), sys.sh);
      r := Sleep(backoff);
    }

    // The loop ends with the exception.
    method GiveUp()
      requires Valid() && Where() == Raised(false)
      modifies this
      ensures Onward() && calls == old(calls) && Where() == Done(GaveUp)
      ensures failures == old(failures[Self().iterations := sys.sh.now])
      ensures Self().iterations == old(Self().iterations)
    {
      RecoverMoves(sys.sh, me, Self(), None);
      Record(Recover(None), sys.sh);
    }

    // The except branch of wait_completion_single: gives up, or sleeps and goes on.
    method BackOff(outageStarted: Option<int>, backoff: int, ghost before: seq<Outage.Poll>)
      returns (r: Attempt<bool>, outageStarted': Option<int>, backoff': int, ghost polls: seq<Outage.Poll>)
      requires Valid() && Where() == Raised(false)
      requires Accounts(before, outageStarted, backoff) && !Outage.GivesUp(before)
      modifies this
      ensures Onward() && !r.ServerDown?
      ensures r.Gone? ==> Over()
      ensures Outage.Paced(polls) && Outage.LastedUntil(polls, |polls|) && Agrees(polls, failures)
      ensures r == Got(true) <==> Outage.GivesUp(polls)
      ensures r.Got? ==> old(calls) < calls <= horizon
      ensures r == Got(true) ==> Where() == Done(GaveUp) && |polls| == Self().iterations + 1
      ensures r == Got(false) ==> Where().GuardFlow? && Accounts(polls, outageStarted', backoff')
    {
      outageStarted', backoff', polls := outageStarted, backoff, before;
      var handled := Call();
      if handled.Gone? {
        return Gone, outageStarted', backoff', polls;
      }
      var now := sys.sh.now;
      PollNoted(before, failures, Outage.Poll(now, true));
      polls := before + [Outage.Poll(now, true)];
      if outageStarted'.None? {
        outageStarted' := Some(now);
      }
      if now - outageStarted'.value > Outage.TOLERANCE_SECS {
        GiveUp();
        r := Got(true);
        return;
      }
      var slept := SleepOff(backoff);
      if slept.Gone? {
        r := Gone;
        return;
      }
      backoff' := Doubled(backoff);
      r := Got(false);
    }

    // wait_completion_single. `polls` has one entry per iteration, failed when and where the
    // run says; the loop gives up as soon as the outage arithmetic of these polls says so and
    // not before. A state it returns is terminal and was printed by sacct for this very job,
    // or is the CANCELLED of a fold.
    method WaitCompletionSingle() returns (r: Attempt<Returned>, ghost polls: seq<Outage.Poll>)
      requires Valid() && Where().GuardFlow? && Self().iterations == 0 && failures == map[]
      modifies this
      ensures Onward() && !r.ServerDown?
      ensures r.Gone? ==> Over()
      ensures r.Got? ==> IsOutcome(r.value, Where()) && |polls| == Self().iterations + 1
      ensures Outage.Paced(polls) && Outage.LastedUntil(polls, |polls|) && Agrees(polls, failures)
      ensures r == Got(OutageError) <==> Outage.GivesUp(polls)
      ensures Separated(ss[0].sh.hpcs) && r.Got? && r.value.EndState? ==>
        IsTerminal(r.value.state) && WasReportedOrFolded(r.value.state)
    {
      var outageStarted: Option<int> := None;
      var backoff := POLL_SECS;
      polls := [];
      while true
        invariant Onward() && Where().GuardFlow?
        invariant Accounts(polls, outageStarted, backoff) && !Outage.GivesUp(polls)
        decreases horizon - calls
      {
        var once := PollCompletionOnce();
        if once.Gone? {
          return Gone, polls;
        }
        if once.ServerDown? {
          var gaveUp;
          gaveUp, outageStarted, backoff, polls := BackOff(outageStarted, backoff, polls);
          if gaveUp.Gone? {
            return Gone, polls;
          }
          if gaveUp.value {
            return Got(OutageError), polls;
          }
          continue;
        }
        PollNoted(polls, failures, Outage.Poll(sys.sh.now, false));
        polls := polls + [Outage.Poll(sys.sh.now, false)];
        outageStarted := None;
        backoff := POLL_SECS;
        if once.value.Some? {
          r := Got(once.value.value);
          ReturnedWasReported(r.value);
          return;
        }
        var slept := Sleep(POLL_SECS);
        if slept.Gone? {
          return Gone, polls;
        }
      }
    }

    ghost predicate WasReportedOrFolded(state: SlurmState)
      reads this
    {
      || Provenance.Reported(sys.sh.outputs, hpc, job, state)
      || (state == Cancelled && flow.Some? && flow.value in sys.sh.cancelled)
    }

    lemma ReturnedWasReported(answer: Returned)
      requires Valid() && IsOutcome(answer, Where())
      ensures Separated(ss[0].sh.hpcs) && answer.EndState? ==>
        IsTerminal(answer.state) && WasReportedOrFolded(answer.state)
    {
      if Separated(ss[0].sh.hpcs) && answer.EndState? {
        Provenance.ReturnedStatesWereReported(ss, ls, |ss| - 1, me);
      }
    }

    // The end of _sbatch_try: the fresh job's variable is inserted, then awaited as above.
    // Nothing catches a server failure of the insertion.
    method AwaitSubmitted() returns (r: Attempt<Returned>, ghost polls: seq<Outage.Poll>)
      requires Valid() && Where().SubmitRead? && Self().iterations == 0 && failures == map[]
      modifies this
      ensures Onward()
      ensures r.Gone? ==> Over()
      ensures r.Got? ==> IsOutcome(r.value, Where()) && |polls| == Self().iterations + 1
      ensures r.ServerDown? ==> Where() == Raised(true)
      ensures Outage.Paced(polls) && Outage.LastedUntil(polls, |polls|) && Agrees(polls, failures)
      ensures r == Got(OutageError) <==> Outage.GivesUp(polls)
      ensures Separated(ss[0].sh.hpcs) && r.Got? && r.value.EndState? ==>
        IsTerminal(r.value.state) && WasReportedOrFolded(r.value.state)
    {
      polls := [];
      var inserted := SetStatus(job, Slurm(Pending));
      if inserted.IsFailure() {
        r := inserted.PropagateFailure();
        return;
      }
      r, polls := WaitCompletionSingle();
    }
  }
}

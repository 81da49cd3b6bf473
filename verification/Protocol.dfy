// The shared-poller protocol as a step system.
//
// Any number of waiters share a store of variables (one status variable per Slurm job, one
// lease variable per HPC) and one mutex slot per HPC. Every read, write, deletion, listing,
// slot acquisition or release, every clock reading and every command sent to a cluster is a
// step of its own; between two steps of a waiter anything else may happen. A waiter may
// crash anywhere, and a call to the variable server may fail whether or not it took effect.
module Protocol {
  import opened Wrappers
  import opened SlurmStates
  import opened Names
  import Sacct

  const LEASE_SECS := 20
  const SLOT_SECS := 180
  const POLL_SECS := 5
  const READ_LIMIT := 200

  // ---- The shared store ---------------------------------------------------------------

  // CANCELLING is not a Slurm state: it is the cancellation guard's mark.
  datatype Status = Slurm(state: SlurmState) | Cancelling

  // Malformed is any value that neither schema accepts.
  datatype Value =
    | StatusOf(hpc: string, job: string, status: Status, owner: Option<string>)
    | Lease(expires: int)
    | Malformed

  datatype Tag = HpcTag(hpc: string) | ActiveTag | FlowTag(flow: string)

  // `born` numbers the creations of variables, so that a variable deleted and created again
  // can be told from one that stayed. No step reads it.
  datatype Variable = Variable(value: Value, tags: set<Tag>, born: nat)

  type Store = map<string, Variable>

  datatype Slot = Slot(holder: nat, until: int)

  datatype Output = Output(hpc: string, lines: seq<string>)

  // `grants` records the written leases, each by the clock reading it was computed from;
  // `spent` the grants a sacct call was made for; `outputs` what sacct printed; `scancelled`
  // the jobs passed to a scancel that did not fail, or whose sender did not live to see the
  // answer. These four are history: no step reads them.
  datatype Shared = Shared(
    hpcs: set<string>,
    now: int,
    store: Store,
    slots: map<string, Slot>,
    cancelled: set<string>,
    births: nat,
    grants: map<string, seq<int>>,
    spent: set<(string, nat)>,
    outputs: set<Output>,
    scancelled: set<(string, string)>)

  function Lookup(store: Store, name: string): Option<Value> {
    if name in store then Some(store[name].value) else None
  }

  function GrantsOf(sh: Shared, hpc: string): seq<int> {
    if hpc in sh.grants then sh.grants[hpc] else []
  }

  // A lease is expired when missing, malformed or past its expiry.
  predicate Expired(raw: Option<Value>, now: int) {
    raw.None? || !raw.value.Lease? || raw.value.expires <= now
  }

  // What a step does to the shared part of the state.
  datatype Change =
    | Nothing
    | SetStatus(job: string, status: Status, owner: Option<string>)
    | UnsetStatus(job: string)
    | TakeSlot
    | FreeSlot
    | SetLease(stamp: int)
    | Query(won: nat, lines: Option<seq<string>>)
    | CallOff(jobs: seq<string>)

  function Put(sh: Shared, name: string, value: Value, tags: set<Tag>): Shared {
    if name in sh.store
    then sh.(store := sh.store[name := Variable(value, tags, sh.store[name].born)])
    else sh.(store := sh.store[name := Variable(value, tags, sh.births)], births := sh.births + 1)
  }

  function StatusTags(hpc: string, owner: Option<string>): set<Tag> {
    {HpcTag(hpc), ActiveTag} + (if owner.Some? then {FlowTag(owner.value)} else {})
  }

  // A change made by waiter `me` on an HPC. SetStatus is the second half of _set_status,
  // whose owner was resolved by an earlier read; TakeSlot acquires or renews the slot.
  function Apply(sh: Shared, me: nat, hpc: string, ch: Change): Shared {
    match ch
    case Nothing => sh
    case SetStatus(job, status, owner) =>
      Put(sh, StatusVarName(hpc, job), StatusOf(hpc, job, status, owner), StatusTags(hpc, owner))
    case UnsetStatus(job) => sh.(store := map n | n in sh.store && n != StatusVarName(hpc, job) :: sh.store[n])
    case TakeSlot => sh.(slots := sh.slots[hpc := Slot(me, sh.now + SLOT_SECS)])
    case FreeSlot => DropSlot(sh, hpc)
    case SetLease(stamp) =>
      Put(sh, LeaseVarName(hpc), Lease(stamp + LEASE_SECS), {}).(grants := sh.grants[hpc := GrantsOf(sh, hpc) + [stamp]])
    case Query(won, lines) =>
      var sh' := sh.(spent := sh.spent + {(hpc, won)});
      if lines.Some? then sh'.(outputs := sh.outputs + {Output(hpc, lines.value)}) else sh'
    case CallOff(jobs) => sh.(scancelled := sh.scancelled + set j | j in jobs :: (hpc, j))
  }

  function DropSlot(sh: Shared, hpc: string): Shared {
    sh.(slots := map h | h in sh.slots && h != hpc :: sh.slots[h])
  }

  // The first half of _set_status: an existing owner is kept, otherwise the caller's flow
  // becomes the owner.
  function OwnerFrom(raw: Option<Value>, flow: Option<string>): Option<string> {
    match raw
    case Some(StatusOf(_, _, _, Some(f))) => Some(f)
    case _ => flow
  }

  function ResolveOwner(sh: Shared, hpc: string, job: string, flow: Option<string>): Option<string> {
    OwnerFrom(Lookup(sh.store, StatusVarName(hpc, job)), flow)
  }

  // ---- Listing ------------------------------------------------------------------------

  // A bounded read of the store: at most READ_LIMIT variables, in any order.
  predicate IsView(store: Store, view: seq<string>) {
    && (forall i, j | 0 <= i < j < |view| :: view[i] != view[j])
    && (forall name | name in view :: name in store)
    && |view| == if |store| <= READ_LIMIT then |store| else READ_LIMIT
  }

  predicate Listed(store: Store, hpc: string, name: string) {
    name in store && HpcTag(hpc) in store[name].tags && ActiveTag in store[name].tags && store[name].value.StatusOf?
  }

  // _list_running_job_ids: everything active on the HPC that is not being cancelled.
  function RunningJobs(store: Store, hpc: string, view: seq<string>): seq<string> {
    if view == [] then []
    else
      var rest := RunningJobs(store, hpc, view[1..]);
      if Listed(store, hpc, view[0]) && !store[view[0]].value.status.Cancelling?
      then [store[view[0]].value.job] + rest else rest
  }

  // The jobs the cancellation guard of a flow picks.
  function OwnedJobs(store: Store, hpc: string, view: seq<string>, flow: string): seq<string> {
    if view == [] then []
    else
      var rest := OwnedJobs(store, hpc, view[1..], flow);
      if Listed(store, hpc, view[0]) && store[view[0]].value.owner == Some(flow)
      then [store[view[0]].value.job] + rest else rest
  }

  // ---- Waiters ------------------------------------------------------------------------

  datatype Outcome = Terminal(state: SlurmState) | Folded | GuardError | GaveUp

  // The control point of a waiter. A grant is the index of the lease it obtained.
  datatype Pc =
    // _sbatch_try inserts the variable before waiting
    | SubmitRead | SubmitWrite(owner: Option<string>)
    // _flow_cancellation_guard
    | GuardFlow | GuardList
    | MarkRead(ids: seq<string>, next: nat, horizon: nat)
    | MarkWrite(ids: seq<string>, next: nat, horizon: nat, owner: Option<string>)
    | CallScancel(ids: seq<string>, horizon: nat) | FoldDelete
    // _try_update_status
    | FastRead | FastDecide(raw: Option<Value>) | Acquire
    | RecheckRead | RecheckDecide(raw: Option<Value>) | Stamp | WriteLease(stamp: int)
    | Release(grant: Option<nat>)
    | ListJobs(won: nat) | CallSacct(won: nat, ids: seq<string>)
    | RefreshRead(todo: seq<Sacct.JobInfo>) | RefreshWrite(todo: seq<Sacct.JobInfo>, owner: Option<string>)
    // the rest of _poll_completion_once
    | ReadStatus | PendingRead | PendingWrite(owner: Option<string>) | DeleteStatus(state: SlurmState)
    // a server call raised; the wait loop backs off or gives up
    | Raised(submitting: bool)
    | Sleeping(until: int) | Done(outcome: Outcome) | Crashed

  datatype Waiter = Waiter(hpc: string, job: string, flow: Option<string>, pc: Pc, iterations: nat)

  predicate InSection(pc: Pc) {
    pc.RecheckRead? || pc.RecheckDecide? || pc.Stamp? || pc.WriteLease? || pc.Release?
  }

  // The points at which the next step is a call to the variable server that may raise.
  predicate CallsServer(pc: Pc) {
    pc.SubmitRead? || pc.SubmitWrite? || pc.GuardList? || pc.MarkRead? || pc.MarkWrite? || pc.FoldDelete?
    || pc.FastRead? || pc.Acquire? || pc.RecheckRead? || pc.WriteLease? || pc.Release? || pc.ListJobs?
    || pc.RefreshRead? || pc.RefreshWrite? || pc.ReadStatus? || pc.PendingRead? || pc.PendingWrite? || pc.DeleteStatus?
  }

  // Neither a crash nor anything to do with a failed call.
  predicate Calm(c: Choice) {
    !c.Crash? && !c.DieSent? && !c.ServerError? && !c.Recover?
  }

  // What the environment decides in a step of a waiter. DieSent: the waiter sends its command
  // to the cluster and is killed before the answer.
  datatype Choice =
    | Go
    | SeeFlow(up: bool)
    | See(view: seq<string>)
    | Answer(lines: Option<seq<string>>)
    | ScancelAnswer(ok: bool)
    | Renew
    | Crash
    | DieSent
    | ServerError(applied: bool, released: bool)
    | Recover(wake: Option<int>)

  // The changes a step makes, in order, and the control point it leads to.
  datatype Move = Move(change: Change, after: Change, pc: Pc)

  function To(pc: Pc): Option<Move> {
    Some(Move(Nothing, Nothing, pc))
  }

  function Do(ch: Change, pc: Pc): Option<Move> {
    Some(Move(ch, Nothing, pc))
  }

  function AfterMark(ids: seq<string>, next: nat, horizon: nat): Pc {
    if next < |ids| then MarkRead(ids, next, horizon)
    else if ids == [] then FastRead
    else CallScancel(ids, horizon)
  }

  function AfterRefresh(todo: seq<Sacct.JobInfo>): Pc {
    if todo == [] then ReadStatus else RefreshRead(todo)
  }

  function AfterRead(raw: Option<Value>, now: int): Pc {
    match raw
    case Some(StatusOf(_, _, Cancelling, _)) => Sleeping(now + POLL_SECS)
    case Some(StatusOf(_, _, Slurm(st), _)) => if IsTerminal(st) then DeleteStatus(st) else Sleeping(now + POLL_SECS)
    case _ => PendingRead
  }

  // The steps with nothing left for the environment to decide.
  function GoMove(sh: Shared, w: Waiter): Option<Move> {
    match w.pc
    case SubmitRead => To(SubmitWrite(ResolveOwner(sh, w.hpc, w.job, w.flow)))
    case SubmitWrite(owner) => Do(SetStatus(w.job, Slurm(Pending), owner), GuardFlow)
    case MarkRead(ids, next, horizon) =>
      if next < |ids| then To(MarkWrite(ids, next, horizon, ResolveOwner(sh, w.hpc, ids[next], w.flow))) else None
    case MarkWrite(ids, next, horizon, owner) =>
      if next < |ids| then Do(SetStatus(ids[next], Cancelling, owner), AfterMark(ids, next + 1, horizon)) else None
    case FoldDelete => Do(UnsetStatus(w.job), Done(Folded))
    case FastRead => To(FastDecide(Lookup(sh.store, LeaseVarName(w.hpc))))
    case FastDecide(raw) => To(if Expired(raw, sh.now) then Acquire else ReadStatus)
    case Acquire => if w.hpc in sh.slots then None else Do(TakeSlot, RecheckRead)
    case RecheckRead => To(RecheckDecide(Lookup(sh.store, LeaseVarName(w.hpc))))
    case RecheckDecide(raw) => To(if Expired(raw, sh.now) then Stamp else Release(None))
    case Stamp => To(WriteLease(sh.now))
    case WriteLease(stamp) => Do(SetLease(stamp), Release(Some(|GrantsOf(sh, w.hpc)|)))
    case Release(grant) => Do(FreeSlot, if grant.Some? then ListJobs(grant.value) else ReadStatus)
    case RefreshRead(todo) =>
      if todo == [] then None else To(RefreshWrite(todo, ResolveOwner(sh, w.hpc, todo[0].job, w.flow)))
    case RefreshWrite(todo, owner) =>
      if todo == [] then None else Do(SetStatus(todo[0].job, Slurm(todo[0].state), owner), AfterRefresh(todo[1..]))
    case ReadStatus => To(AfterRead(Lookup(sh.store, StatusVarName(w.hpc, w.job)), sh.now))
    case PendingRead => To(PendingWrite(ResolveOwner(sh, w.hpc, w.job, w.flow)))
    case PendingWrite(owner) => Do(SetStatus(w.job, Slurm(Pending), owner), Sleeping(sh.now + POLL_SECS))
    case DeleteStatus(st) => Do(UnsetStatus(w.job), Done(Terminal(st)))
    case Sleeping(until) => if sh.now < until then None else To(GuardFlow)
    case _ => None
  }

  // A failed call: the request may have taken effect; a slot held at the time may or may not
  // have been given back.
  function ErrorMove(sh: Shared, w: Waiter, applied: bool, released: bool): Option<Move> {
    if !CallsServer(w.pc) then None
    else
      var go := GoMove(sh, w);
      var change := if applied && go.Some? then go.value.change else Nothing;
      var after := if InSection(w.pc) && released then FreeSlot else Nothing;
      Some(Move(change, after, Raised(w.pc.SubmitRead? || w.pc.SubmitWrite?)))
  }

  // After a failure the wait loop sleeps at least the poll interval, or gives up. Nothing
  // catches a failure of the insertion that precedes the loop.
  function RecoverMove(sh: Shared, w: Waiter, wake: Option<int>): Option<Move> {
    if !w.pc.Raised? then None
    else match wake
      case None => To(Done(GaveUp))
      case Some(t) => if w.pc.submitting || t < sh.now + POLL_SECS then None else To(Sleeping(t))
  }

  function SacctPc(ids: seq<string>, lines: Option<seq<string>>): Pc {
    match lines
    case None => ReadStatus
    case Some(text) =>
      match Sacct.ReadStates(ids, text)
      case States(infos) => AfterRefresh(infos)
      case Raises => Crashed
      case _ => ReadStatus
  }

  // One step of a waiter; None when the choice does not apply at its control point.
  function ChosenMove(sh: Shared, w: Waiter, c: Choice): Option<Move> {
    match c
    case Go => GoMove(sh, w)
    case SeeFlow(up) =>
      if !w.pc.GuardFlow? then None
      else To(if w.flow.Some? && up && w.flow.value in sh.cancelled then GuardList else FastRead)
    case See(view) =>
      if !IsView(sh.store, view) then None
      else if w.pc.GuardList? && w.flow.Some? then
        To(AfterMark(OwnedJobs(sh.store, w.hpc, view, w.flow.value), 0, sh.births))
      else if w.pc.ListJobs? then
        var ids := RunningJobs(sh.store, w.hpc, view);
        To(if ids == [] then ReadStatus else CallSacct(w.pc.won, ids))
      else None
    case Answer(lines) =>
      if !w.pc.CallSacct? then None else Do(Query(w.pc.won, lines), SacctPc(w.pc.ids, lines))
    case ScancelAnswer(ok) =>
      if !w.pc.CallScancel? then None
      else if ok then Do(CallOff(w.pc.ids), FoldDelete) else To(Done(GuardError))
    case Renew => if !InSection(w.pc) then None else Do(TakeSlot, w.pc)
    case Crash => if w.pc.Done? then None else To(Crashed)
    case DieSent =>
      if w.pc.CallSacct? then Do(Query(w.pc.won, None), Crashed)
      else if w.pc.CallScancel? then Do(CallOff(w.pc.ids), Crashed)
      else None
    case ServerError(applied, released) => ErrorMove(sh, w, applied, released)
    case Recover(wake) => RecoverMove(sh, w, wake)
  }

  function Moved(sh: Shared, me: nat, w: Waiter, m: Move): Shared {
    Apply(Apply(sh, me, w.hpc, m.change), me, w.hpc, m.after)
  }

  function Advanced(w: Waiter, m: Move): Waiter {
    w.(pc := m.pc, iterations := if w.pc.Sleeping? && m.pc.GuardFlow? then w.iterations + 1 else w.iterations)
  }

  // ---- The whole system ---------------------------------------------------------------

  datatype State = State(sh: Shared, waiters: map<nat, Waiter>)

  // ExpireSlot frees a slot nobody renewed. Its holder, if it is still inside the critical
  // section, is stopped with it (strict mode of the mutex).
  datatype Label =
    | Local(p: nat, c: Choice)
    | Tick(d: nat)
    | CancelFlow(flow: string)
    | ExpireSlot(hpc: string)
    | Spawn(p: nat, w: Waiter)

  predicate Fresh(sh: Shared, w: Waiter) {
    (w.pc.SubmitRead? || w.pc.GuardFlow?) && w.iterations == 0 && w.hpc in sh.hpcs && ValidJobId(w.job)
  }

  function Step(s: State, l: Label): Option<State> {
    match l
    case Local(p, c) =>
      if p !in s.waiters then None
      else (match ChosenMove(s.sh, s.waiters[p], c)
            case None => None
            case Some(m) => Some(State(Moved(s.sh, p, s.waiters[p], m), s.waiters[p := Advanced(s.waiters[p], m)])))
    case Tick(d) => Some(s.(sh := s.sh.(now := s.sh.now + d)))
    case CancelFlow(flow) => Some(s.(sh := s.sh.(cancelled := s.sh.cancelled + {flow})))
    case ExpireSlot(hpc) =>
      if hpc !in s.sh.slots || s.sh.now < s.sh.slots[hpc].until then None
      else Some(State(DropSlot(s.sh, hpc), StopHolder(s.waiters, s.sh.slots[hpc].holder, hpc)))
    case Spawn(p, w) =>
      if p in s.waiters || !Fresh(s.sh, w) then None else Some(s.(waiters := s.waiters[p := w]))
  }

  function StopHolder(waiters: map<nat, Waiter>, p: nat, hpc: string): map<nat, Waiter> {
    if p in waiters && waiters[p].hpc == hpc && InSection(waiters[p].pc)
    then waiters[p := waiters[p].(pc := Crashed)] else waiters
  }

  // Before any waiter started the store may hold leftovers of other programs, or a lease of
  // an earlier session, but no status variable.
  ghost predicate Init(s: State) {
    && s.waiters == map[] && s.sh.slots == map[] && s.sh.grants == map[]
    && s.sh.spent == {} && s.sh.outputs == {} && s.sh.scancelled == {}
    && (forall name | name in s.sh.store ::
          && !s.sh.store[name].value.StatusOf?
          && (s.sh.store[name].value.Lease? ==> s.sh.store[name].value.expires <= s.sh.now + LEASE_SECS)
          && s.sh.store[name].born < s.sh.births)
  }

  // A run: any interleaving of steps from an initial state.
  ghost predicate IsRun(ss: seq<State>, ls: seq<Label>) {
    && |ss| == |ls| + 1
    && Init(ss[0])
    && forall i | 0 <= i < |ls| :: Step(ss[i], ls[i]) == Some(ss[i + 1])
  }

  // Any run continued from a given state.
  ghost predicate IsPath(ss: seq<State>, ls: seq<Label>) {
    && |ss| == |ls| + 1
    && forall i | 0 <= i < |ls| :: Step(ss[i], ls[i]) == Some(ss[i + 1])
  }
}

// At-most-once submission: any sequence of runs of a flow, one after the other, each
// submitting any jobs in any interleaving and stopping anywhere. A submission is a cached
// task nested in the task that then awaits the job; its result is committed eagerly, and a
// failed submission is not cached. Calls of one run may overlap, those of the same job too.
module Submission {
  import opened Wrappers
  import opened CacheKeys

  // Holding: the cluster's answer was read, the result is not committed yet. Awaiting: past
  // submission.
  datatype Phase = Sending | Holding(job: string) | Awaiting(job: string)

  // One call of a job's sbatch within a run.
  datatype Submit = Submit(key: string, phase: Phase)

  // A submission: its key and the number of the call that made it.
  type Attempt = (string, nat)

  // Calls are numbered as they start. The last five are history, which no step reads: the
  // attempts the cluster took, those among them whose call crashed or failed before the
  // commit, those that were committed, the pairs of calls of which the second missed the
  // cache while the first was in flight, and the job ids ever monitored.
  datatype State = State(
    token: Option<string>,
    cache: map<string, string>,
    calls: map<nat, Submit>,
    next: nat,
    accepted: set<Attempt>,
    lost: set<Attempt>,
    committed: set<Attempt>,
    overlaps: set<(string, nat, nat)>,
    awaited: set<(string, string)>)

  // The cluster's side of one submission: refused, taken with the answer lost or unreadable,
  // or taken and answered.
  datatype Reply = Refused | TakenSilently | Taken(job: string)

  // A commit that finds a record of the key leaves it or replaces it; one that fails may have
  // taken effect all the same.
  datatype Label =
    | Begin(given: Option<string>, runId: string)
    | Call(task: string, hash: string)
    | Send(call: nat, reply: Reply)
    | Commit(call: nat, keep: bool)
    | CommitFails(call: nat, wrote: bool, keep: bool)
    | AwaitFails(call: nat)
    | AwaitEnds(call: nat)
    | Crash

  function InFlight(calls: map<nat, Submit>): (f: set<Attempt>)
    ensures forall a: Attempt :: a in f <==> a.1 in calls && calls[a.1].key == a.0 && !calls[a.1].phase.Awaiting?
  {
    set c | c in calls && !calls[c].phase.Awaiting? :: (calls[c].key, c)
  }

  function HoldingOf(calls: map<nat, Submit>): (f: set<Attempt>)
    ensures forall a: Attempt :: a in f <==> a.1 in calls && calls[a.1].key == a.0 && calls[a.1].phase.Holding?
  {
    set c | c in calls && calls[c].phase.Holding? :: (calls[c].key, c)
  }

  // One step of the current run. With `eager` false the submission's result would follow the
  // fate of the task around it: kept when the wait ends, discarded when it fails.
  function Step(eager: bool, s: State, l: Label): Option<State> {
    match l
    case Begin(given, runId) =>
      if s.token.Some? then None else Some(s.(token := Some(Token(given, runId)), calls := map[]))
    case Crash =>
      if s.token.None? then None
      else Some(s.(token := None, calls := map[], lost := s.lost + HoldingOf(s.calls)))
    case Call(task, hash) =>
      if s.token.None? then None else Some(StartCall(s, Key(s.token.value, task, hash)))
    case _ =>
      if l.call !in s.calls then None else CallStep(eager, s, l.call, l)
  }

  function StartCall(s: State, k: string): State {
    if k in s.cache then Monitor(s.(next := s.next + 1), k, s.next, s.cache[k])
    else s.(
      next := s.next + 1,
      calls := s.calls[s.next := Submit(k, Sending)],
      overlaps := s.overlaps + set a | a in InFlight(s.calls) && a.0 == k :: (k, a.1, s.next))
  }

  function CallStep(eager: bool, s: State, c: nat, l: Label): Option<State>
    requires c in s.calls && !l.Begin? && !l.Crash? && !l.Call?
  {
    var k, phase := s.calls[c].key, s.calls[c].phase;
    var gone := s.calls - {c};
    match l
    case Send(_, reply) =>
      if !phase.Sending? then None
      else (match reply
            case Refused => Some(s.(calls := gone))
            case TakenSilently => Some(s.(calls := gone, accepted := s.accepted + {(k, c)}, lost := s.lost + {(k, c)}))
            case Taken(job) => Some(s.(calls := s.calls[c := Submit(k, Holding(job))], accepted := s.accepted + {(k, c)})))
    case Commit(_, keep) =>
      if !phase.Holding? then None
      else Some(Monitor(if eager then Store(s, k, c, phase.job, keep) else s.(committed := s.committed + {(k, c)}), k, c, phase.job))
    case CommitFails(_, wrote, keep) =>
      if !phase.Holding? then None
      else if wrote && eager then Some(Store(s, k, c, phase.job, keep).(calls := gone))
      else Some(s.(calls := gone, lost := s.lost + {(k, c)}))
    case AwaitFails(_) =>
      if !phase.Awaiting? then None else Some(s.(calls := gone))
    case AwaitEnds(_) =>
      if !phase.Awaiting? then None
      else Some(s.(calls := gone, cache := if eager then s.cache else s.cache[k := phase.job]))
  }

  function Store(s: State, k: string, c: nat, job: string, keep: bool): State {
    s.(cache := if keep && k in s.cache then s.cache else s.cache[k := job], committed := s.committed + {(k, c)})
  }

  function Monitor(s: State, k: string, c: nat, job: string): State {
    s.(calls := s.calls[c := Submit(k, Awaiting(job))], awaited := s.awaited + {(k, job)})
  }

  const START := State(None, map[], map[], 0, {}, {}, {}, {}, {})

  ghost predicate IsRun(eager: bool, ss: seq<State>, ls: seq<Label>) {
    && |ss| == |ls| + 1 && ss[0] == START
    && forall i | 0 <= i < |ls| :: Step(eager, ss[i], ls[i]) == Some(ss[i + 1])
  }

  // ---- The invariant --------------------------------------------------------------------

  ghost predicate Numbered(s: State) {
    && (forall c | c in s.calls :: c < s.next)
    && (forall a | a in s.accepted :: a.1 < s.next)
    && (forall c | c in s.calls && s.calls[c].phase.Sending? :: (s.calls[c].key, c) !in s.accepted)
    && (s.token.None? ==> s.calls == map[])
  }

  // Every job the cluster took is accounted for, once.
  ghost predicate Accounted(s: State) {
    Splits(s.accepted, s.lost, s.committed, HoldingOf(s.calls))
  }

  ghost predicate Splits(all: set<Attempt>, x: set<Attempt>, y: set<Attempt>, z: set<Attempt>) {
    all == x + y + z && x !! y && x !! z && y !! z
  }

  ghost predicate CacheShowsCommits(s: State) {
    && (forall a | a in s.committed :: a.0 in s.cache)
    && (forall k | k in s.cache :: exists c :: (k, c) in s.committed)
  }

  // In flight, or committed.
  function Alive(s: State): set<Attempt> {
    InFlight(s.calls) + s.committed
  }

  // Of two such attempts of one key the later missed the cache while the earlier was in flight.
  ghost predicate LaterOverlaps(s: State) {
    forall a, b | a in Alive(s) && b in Alive(s) && a.0 == b.0 && a.1 < b.1 :: (a.0, a.1, b.1) in s.overlaps
  }

  // No call of this key started, and missed the cache, while another was in flight.
  ghost predicate Apart(s: State, k: string) {
    forall o | o in s.overlaps :: o.0 != k
  }

  ghost predicate AwaitsCached(s: State) {
    forall p | p in s.awaited :: p.0 in s.cache && (Apart(s, p.0) ==> s.cache[p.0] == p.1)
  }

  ghost predicate Inv(s: State) {
    Numbered(s) && Accounted(s) && CacheShowsCommits(s) && LaterOverlaps(s) && AwaitsCached(s)
  }

  lemma CallChanges(calls: map<nat, Submit>, c: nat, k: string, phase: Phase)
    requires c !in calls || calls[c].key == k
    ensures var calls' := calls[c := Submit(k, phase)];
      && InFlight(calls') == (if phase.Awaiting? then InFlight(calls) - {(k, c)} else InFlight(calls) + {(k, c)})
      && HoldingOf(calls') == (if phase.Holding? then HoldingOf(calls) + {(k, c)} else HoldingOf(calls) - {(k, c)})
  {
  }

  lemma CallEnds(calls: map<nat, Submit>, c: nat)
    requires c in calls
    ensures InFlight(calls - {c}) == InFlight(calls) - {(calls[c].key, c)}
    ensures HoldingOf(calls - {c}) == HoldingOf(calls) - {(calls[c].key, c)}
  {
  }

  lemma SplitsMore(all: set<Attempt>, x: set<Attempt>, y: set<Attempt>, z: set<Attempt>, a: Attempt)
    requires Splits(all, x, y, z)
    ensures a !in all ==> Splits(all + {a}, x + {a}, y, z) && Splits(all + {a}, x, y, z + {a})
    ensures a in z ==> Splits(all, x + {a}, y, z - {a}) && Splits(all, x, y + {a}, z - {a})
    ensures a !in z ==> z - {a} == z
  {
  }

  lemma StartKeepsBooks(s: State, k: string)
    requires Inv(s) && s.token.Some?
    ensures var s' := StartCall(s, k); Numbered(s') && Accounted(s') && CacheShowsCommits(s')
  {
    CallChanges(s.calls, s.next, k, if k in s.cache then Awaiting(s.cache[k]) else Sending);
    SplitsMore(s.accepted, s.lost, s.committed, HoldingOf(s.calls), (k, s.next));
  }

  lemma StartKeepsOrder(s: State, k: string)
    requires Inv(s) && s.token.Some?
    ensures var s' := StartCall(s, k); LaterOverlaps(s') && AwaitsCached(s')
  {
    CallChanges(s.calls, s.next, k, if k in s.cache then Awaiting(s.cache[k]) else Sending);
  }

  lemma SendKeepsBooks(s: State, c: nat, reply: Reply)
    requires Inv(s) && c in s.calls && s.calls[c].phase.Sending?
    ensures var s' := CallStep(true, s, c, Send(c, reply)).value;
      Numbered(s') && Accounted(s') && CacheShowsCommits(s')
  {
    SplitsMore(s.accepted, s.lost, s.committed, HoldingOf(s.calls), (s.calls[c].key, c));
    if reply.Taken? {
      CallChanges(s.calls, c, s.calls[c].key, Holding(reply.job));
    } else {
      CallEnds(s.calls, c);
    }
  }

  lemma SendKeepsOrder(s: State, c: nat, reply: Reply)
    requires Inv(s) && c in s.calls && s.calls[c].phase.Sending?
    ensures var s' := CallStep(true, s, c, Send(c, reply)).value; LaterOverlaps(s') && AwaitsCached(s')
  {
    if reply.Taken? {
      CallChanges(s.calls, c, s.calls[c].key, Holding(reply.job));
    } else {
      CallEnds(s.calls, c);
    }
  }

  // The state after the result of an attempt was stored, whether or not its call goes on.
  ghost predicate Stores(s: State, a: Attempt, job: string, s': State) {
    && a in HoldingOf(s.calls)
    && s'.accepted == s.accepted && s'.lost == s.lost && s'.overlaps == s.overlaps
    && s'.committed == s.committed + {a}
    && InFlight(s'.calls) == InFlight(s.calls) - {a} && HoldingOf(s'.calls) == HoldingOf(s.calls) - {a}
    && (s'.cache == s.cache[a.0 := job] || (a.0 in s.cache && s'.cache == s.cache))
    && s'.awaited <= s.awaited + {(a.0, job)}
  }

  lemma StoringStores(s: State, c: nat, keep: bool)
    requires Inv(s) && c in s.calls && s.calls[c].phase.Holding?
    ensures var k, job := s.calls[c].key, s.calls[c].phase.job;
      var stored := Store(s, k, c, job, keep);
      && Stores(s, (k, c), job, Monitor(stored, k, c, job)) && Numbered(Monitor(stored, k, c, job))
      && Stores(s, (k, c), job, stored.(calls := s.calls - {c})) && Numbered(stored.(calls := s.calls - {c}))
  {
    CallChanges(s.calls, c, s.calls[c].key, Awaiting(s.calls[c].phase.job));
    CallEnds(s.calls, c);
  }

  lemma CommitShows(s: State, s': State, a: Attempt)
    requires CacheShowsCommits(s) && s'.committed == s.committed + {a}
    requires s'.cache.Keys == s.cache.Keys + {a.0}
    ensures CacheShowsCommits(s')
  {
    forall k | k in s'.cache
      ensures exists c :: (k, c) in s'.committed
    {
      if k == a.0 {
        assert (k, a.1) in s'.committed;
      } else {
        assert k in s.cache;
        var c :| (k, c) in s.committed;
        assert (k, c) in s'.committed;
      }
    }
  }

  // Unless calls of the key overlap, what is stored is the first record of it.
  lemma StoredIsFirst(s: State, a: Attempt)
    requires Inv(s) && a in HoldingOf(s.calls)
    ensures Apart(s, a.0) ==> a.0 !in s.cache
  {
    if a.0 in s.cache {
      var c :| (a.0, c) in s.committed;
      assert (a.0, c) in Alive(s) && a in Alive(s);
      assert (a.0, if c < a.1 then c else a.1, if c < a.1 then a.1 else c) in s.overlaps;
    }
  }

  lemma StoreKeepsBooks(s: State, a: Attempt, job: string, s': State)
    requires Accounted(s) && CacheShowsCommits(s) && Stores(s, a, job, s')
    ensures Accounted(s') && CacheShowsCommits(s')
  {
    SplitsMore(s.accepted, s.lost, s.committed, HoldingOf(s.calls), a);
    CommitShows(s, s', a);
  }

  lemma StoreKeepsOrder(s: State, a: Attempt, job: string, s': State)
    requires Inv(s) && Stores(s, a, job, s')
    ensures LaterOverlaps(s') && AwaitsCached(s')
  {
    assert a in InFlight(s.calls) && Alive(s') == Alive(s);
    StoredIsFirst(s, a);
  }

  // A call ends, its attempt lost if it was held.
  lemma EndKeepsInv(s: State, c: nat, lost: bool)
    requires Inv(s) && c in s.calls && (if lost then s.calls[c].phase.Holding? else s.calls[c].phase.Awaiting?)
    ensures Inv(s.(calls := s.calls - {c}, lost := if lost then s.lost + {(s.calls[c].key, c)} else s.lost))
  {
    CallEnds(s.calls, c);
  }

  lemma CrashKeepsInv(s: State)
    requires Inv(s)
    ensures Inv(s.(token := None, calls := map[], lost := s.lost + HoldingOf(s.calls)))
  {
    assert InFlight(map[]) == {} && HoldingOf(map[]) == {};
  }

  lemma StoreKeepsInv(s: State, c: nat, keep: bool, s': State)
    requires Inv(s) && c in s.calls && s.calls[c].phase.Holding?
    requires Stores(s, (s.calls[c].key, c), s.calls[c].phase.job, s') && Numbered(s')
    ensures Inv(s')
  {
    StoreKeepsBooks(s, (s.calls[c].key, c), s.calls[c].phase.job, s');
    StoreKeepsOrder(s, (s.calls[c].key, c), s.calls[c].phase.job, s');
  }

  lemma StepKeepsInv(s: State, l: Label)
    requires Inv(s) && Step(true, s, l).Some?
    ensures Inv(Step(true, s, l).value)
  {
    var s' := Step(true, s, l).value;
    match l
    case Begin(_, _) => assert s.calls == map[];
    case Crash => CrashKeepsInv(s);
    case Call(task, hash) =>
      StartKeepsBooks(s, Key(s.token.value, task, hash));
      StartKeepsOrder(s, Key(s.token.value, task, hash));
    case Send(c, reply) =>
      SendKeepsBooks(s, c, reply);
      SendKeepsOrder(s, c, reply);
    case Commit(c, keep) =>
      StoringStores(s, c, keep);
      StoreKeepsInv(s, c, keep, s');
    case CommitFails(c, wrote, keep) =>
      if wrote {
        StoringStores(s, c, keep);
        StoreKeepsInv(s, c, keep, s');
      } else {
        EndKeepsInv(s, c, true);
      }
    case AwaitFails(c) => EndKeepsInv(s, c, false);
    case AwaitEnds(c) => EndKeepsInv(s, c, false);
  }

  lemma {:induction false} RunKeepsInv(ss: seq<State>, ls: seq<Label>, i: nat)
    requires IsRun(true, ss, ls) && i < |ss|
    ensures Inv(ss[i])
  {
    if i > 0 {
      var j := i - 1;
      RunKeepsInv(ss, ls, j);
      assert Step(true, ss[j], ls[j]) == Some(ss[j + 1]);
      StepKeepsInv(ss[j], ls[j]);
    } else {
      assert InFlight(map[]) == {} && HoldingOf(map[]) == {};
    }
  }

  // ---- At most once ---------------------------------------------------------------------

  function For(x: set<Attempt>, k: string): set<Attempt> {
    set a | a in x && a.0 == k
  }

  // What the cluster took and what was not lost.
  function Kept(s: State, k: string): set<Attempt> {
    For(s.accepted - s.lost, k)
  }

  lemma CountsAdd(s: State, k: string)
    requires Accounted(s)
    ensures Kept(s, k) == For(s.committed, k) + For(HoldingOf(s.calls), k)
    ensures |Kept(s, k)| == |For(s.committed, k)| + |For(HoldingOf(s.calls), k)|
    ensures |For(s.accepted, k)| == |For(s.lost, k)| + |Kept(s, k)|
  {
    var held := HoldingOf(s.calls);
    assert For(s.accepted, k) == For(s.lost, k) + Kept(s, k);
    assert Kept(s, k) == For(s.committed, k) + For(held, k);
  }

  lemma MoreThanOneIff(x: set<Attempt>)
    ensures |x| > 1 <==> exists a, b :: a in x && b in x && a != b
  {
    if |x| > 1 {
      var a :| a in x;
      assert |x - {a}| > 0;
      var b :| b in x - {a};
    } else {
      forall a, b | a in x && b in x
        ensures a == b
      {
        assert {a} <= x;
        if |x| == 1 {
          assert |x - {a}| == 0;
        }
      }
    }
  }

  // Every accepted job is lost, committed or about to be, and exactly one of these. While the
  // calls of a job stay apart, whatever crashes or fails, it is submitted at most one time more
  // than its submissions were lost between the cluster and the commit; and exactly one time
  // more once its result is committed or about to be.
  lemma SubmittedAtMostOnce(ss: seq<State>, ls: seq<Label>, i: nat, k: string)
    requires IsRun(true, ss, ls) && i < |ss|
    ensures var s := ss[i]; var lost := |For(s.lost, k)|;
      && |For(s.accepted, k)| == lost + |For(s.committed, k)| + |For(HoldingOf(s.calls), k)|
      && (Apart(s, k) ==> |For(s.accepted, k)| <= lost + 1)
      && (Apart(s, k) ==> (|For(s.accepted, k)| == lost + 1 <==> k in s.cache || For(HoldingOf(s.calls), k) != {}))
  {
    RunKeepsInv(ss, ls, i);
    CountsAdd(ss[i], k);
    KeptOverlap(ss[i], k);
    MoreThanOneIff(Kept(ss[i], k));
    CommittedIffCached(ss[i], k);
  }

  lemma CommittedIffCached(s: State, k: string)
    requires CacheShowsCommits(s)
    ensures k in s.cache <==> For(s.committed, k) != {}
  {
    if k in s.cache {
      var c :| (k, c) in s.committed;
      assert (k, c) in For(s.committed, k);
    } else {
      assert forall a | a in s.committed :: a.0 != k;
    }
  }

  lemma KeptOverlap(s: State, k: string)
    requires Inv(s)
    ensures forall a, b | a in Kept(s, k) && b in Kept(s, k) && a.1 < b.1 :: (k, a.1, b.1) in s.overlaps
    ensures Apart(s, k) ==> forall a, b | a in Kept(s, k) && b in Kept(s, k) :: a == b
  {
    assert Kept(s, k) <= Alive(s);
    forall a, b | a in Kept(s, k) && b in Kept(s, k) && Apart(s, k)
      ensures a == b
    {
      assert a.0 == b.0 == k && a.1 == b.1;
    }
  }

  // At most once fails exactly when two calls, one started while the other was in flight, were
  // both answered and neither was lost.
  lemma OverlapsBreakItIff(ss: seq<State>, ls: seq<Label>, i: nat, k: string)
    requires IsRun(true, ss, ls) && i < |ss|
    ensures |For(ss[i].accepted, k)| > |For(ss[i].lost, k)| + 1 <==>
      exists a, b :: a in Kept(ss[i], k) && b in Kept(ss[i], k) && (k, a.1, b.1) in ss[i].overlaps
  {
    var s := ss[i];
    RunKeepsInv(ss, ls, i);
    CountsAdd(s, k);
    KeptOverlap(s, k);
    MoreThanOneIff(Kept(s, k));
    if |Kept(s, k)| > 1 {
      var a, b :| a in Kept(s, k) && b in Kept(s, k) && a != b;
      var first, second := if a.1 < b.1 then a else b, if a.1 < b.1 then b else a;
      assert a.0 == b.0 == k && (k, first.1, second.1) in s.overlaps;
    }
    OverlapsAreOrdered(ss, ls, i);
  }

  lemma {:induction false} OverlapsAreOrdered(ss: seq<State>, ls: seq<Label>, i: nat)
    requires IsRun(true, ss, ls) && i < |ss|
    ensures forall o | o in ss[i].overlaps :: o.1 < o.2
  {
    if i > 0 {
      var j := i - 1;
      OverlapsAreOrdered(ss, ls, j);
      RunKeepsInv(ss, ls, j);
      assert Step(true, ss[j], ls[j]) == Some(ss[j + 1]);
    }
  }

  // What an entry of `overlaps` records.
  ghost predicate StartedDuring(ss: seq<State>, ls: seq<Label>, k: string, c: nat, d: nat, j: nat) {
    && j < |ls| && j < |ss| && ls[j].Call? && ss[j].token.Some? && Key(ss[j].token.value, ls[j].task, ls[j].hash) == k
    && k !in ss[j].cache && ss[j].next == d && (k, c) in InFlight(ss[j].calls)
  }

  lemma {:induction false} OverlapsAreIff(ss: seq<State>, ls: seq<Label>, i: nat, k: string, c: nat, d: nat)
    requires IsRun(true, ss, ls) && i < |ss|
    ensures (k, c, d) in ss[i].overlaps <==> exists j: nat :: j < i && StartedDuring(ss, ls, k, c, d, j)
  {
    if i > 0 {
      var m := i - 1;
      OverlapsAreIff(ss, ls, m, k, c, d);
      assert Step(true, ss[m], ls[m]) == Some(ss[m + 1]);
      assert (k, c, d) in ss[i].overlaps <==> (k, c, d) in ss[m].overlaps || StartedDuring(ss, ls, k, c, d, m);
    }
  }

  // ---- Past submission ------------------------------------------------------------------

  // Once a key is cached, only what is in flight can still be accepted for it.
  lemma StepAcceptsInFlight(s: State, l: Label, k: string)
    requires Step(true, s, l).Some? && k in s.cache
    ensures var s' := Step(true, s, l).value;
      && k in s'.cache && For(s.accepted, k) <= For(s'.accepted, k)
      && For(s'.accepted, k) + For(InFlight(s'.calls), k) <= For(s.accepted, k) + For(InFlight(s.calls), k)
  {
  }

  lemma {:induction false} OnlyInFlight(ss: seq<State>, ls: seq<Label>, i: nat, j: nat, k: string)
    requires IsRun(true, ss, ls) && i <= j < |ss| && k in ss[i].cache
    ensures k in ss[j].cache && For(ss[i].accepted, k) <= For(ss[j].accepted, k)
    ensures For(ss[j].accepted, k) + For(InFlight(ss[j].calls), k) <= For(ss[i].accepted, k) + For(InFlight(ss[i].calls), k)
  {
    if i < j {
      OnlyInFlight(ss, ls, i, j - 1, k);
      assert Step(true, ss[j - 1], ls[j - 1]) == Some(ss[j]);
      StepAcceptsInFlight(ss[j - 1], ls[j - 1], k);
    }
  }

  // Once any run is past a job's submission, no later failure, crash or rerun submits it
  // again: only calls that were in flight at that moment can still be answered, and while the
  // calls of the job stay apart there is none.
  lemma NeverResubmitted(ss: seq<State>, ls: seq<Label>, i: nat, j: nat, k: string, job: string)
    requires IsRun(true, ss, ls) && i <= j < |ss| && (k, job) in ss[i].awaited
    ensures For(ss[j].accepted, k) <= For(ss[i].accepted, k) + For(InFlight(ss[i].calls), k)
    ensures Apart(ss[i], k) ==> For(ss[j].accepted, k) == For(ss[i].accepted, k)
  {
    RunKeepsInv(ss, ls, i);
    OnlyInFlight(ss, ls, i, j, k);
    if For(InFlight(ss[i].calls), k) != {} {
      FlightOverlaps(ss[i], k);
    }
  }

  lemma FlightOverlaps(s: State, k: string)
    requires Inv(s) && k in s.cache && For(InFlight(s.calls), k) != {}
    ensures !Apart(s, k)
  {
    var c :| (k, c) in s.committed;
    var a :| a in For(InFlight(s.calls), k);
    assert a in Alive(s) && (k, c) in Alive(s) && a.1 != c;
    assert (k, if a.1 < c then a.1 else c, if a.1 < c then c else a.1) in s.overlaps;
  }

  // All runs that share a token, and all attempts within them, monitor the same job, as long
  // as calls of the job stay apart.
  lemma OneJobIsAwaited(ss: seq<State>, ls: seq<Label>, i: nat, k: string, a: string, b: string)
    requires IsRun(true, ss, ls) && i < |ss|
    requires (k, a) in ss[i].awaited && (k, b) in ss[i].awaited && Apart(ss[i], k)
    ensures a == b
  {
    RunKeepsInv(ss, ls, i);
  }

  // Distinct submissions of the same run, or of runs sharing a token, never share a key.
  lemma DistinctCallsDistinctKeys(token: string, task: string, hash: string, task': string, hash': string)
    requires ColonFree(hash) && ColonFree(hash')
    ensures Key(token, task, hash) == Key(token, task', hash') <==> task == task' && hash == hash'
  {
    KeySplits(token, task, hash, token, task', hash');
  }

  // ---- Where at most once ends ----------------------------------------------------------

  lemma Then(eager: bool, ss: seq<State>, ls: seq<Label>, l: Label)
    requires IsRun(eager, ss, ls) && Step(eager, ss[|ss| - 1], l).Some?
    ensures IsRun(eager, ss + [Step(eager, ss[|ss| - 1], l).value], ls + [l])
  {
  }

  // The cluster takes and answers a call's submission, and its result is committed.
  lemma AnswerAndCommit(eager: bool, ss: seq<State>, ls: seq<Label>, c: nat, job: string)
    returns (ss': seq<State>, ls': seq<Label>)
    requires IsRun(eager, ss, ls) && c in ss[|ss| - 1].calls && ss[|ss| - 1].calls[c].phase.Sending?
    ensures IsRun(eager, ss', ls') && ls' == ls + [Send(c, Taken(job)), Commit(c, false)]
    ensures var s := ss[|ss| - 1]; var k := s.calls[c].key;
      ss'[|ss'| - 1] == s.(
        cache := if eager then s.cache[k := job] else s.cache,
        calls := s.calls[c := Submit(k, Awaiting(job))],
        accepted := s.accepted + {(k, c)},
        committed := s.committed + {(k, c)},
        awaited := s.awaited + {(k, job)})
  {
    var s := ss[|ss| - 1];
    var k := s.calls[c].key;
    var held := s.(calls := s.calls[c := Submit(k, Holding(job))], accepted := s.accepted + {(k, c)});
    Then(eager, ss, ls, Send(c, Taken(job)));
    var done := Step(eager, held, Commit(c, false)).value;
    Then(eager, ss + [held], ls + [Send(c, Taken(job))], Commit(c, false));
    ss', ls' := ss + [held] + [done], ls + [Send(c, Taken(job))] + [Commit(c, false)];
    assert s.calls[c := Submit(k, Holding(job))][c := Submit(k, Awaiting(job))] == s.calls[c := Submit(k, Awaiting(job))];
  }

  lemma BeginAndCall(eager: bool, given: Option<string>, runId: string, task: string, hash: string)
    returns (ss: seq<State>, ls: seq<Label>)
    ensures IsRun(eager, ss, ls) && ls == [Begin(given, runId), Call(task, hash)]
    ensures ss[|ss| - 1] == START.(
      token := Some(Token(given, runId)), next := 1, calls := map[0 := Submit(CacheKey(given, runId, task, hash), Sending)])
  {
    var s := START.(token := Some(Token(given, runId)));
    var s' := StartCall(s, CacheKey(given, runId, task, hash));
    ss, ls := [START, s, s'], [Begin(given, runId), Call(task, hash)];
    assert Step(eager, START, ls[0]) == Some(s) && Step(eager, s, ls[1]) == Some(s');
    assert InFlight(map[]) == {};
  }

  // Two calls of one job that overlap submit it twice, with nothing lost, and both jobs are
  // monitored: for every token, task and parameters.
  lemma OverlappingCallsSubmitTwice(given: Option<string>, runId: string, task: string, hash: string, a: string, b: string)
    returns (ss: seq<State>, ls: seq<Label>)
    ensures IsRun(true, ss, ls) && forall l | l in ls :: !l.Crash? && !l.CommitFails?
    ensures var k, s := CacheKey(given, runId, task, hash), ss[|ss| - 1];
      |For(s.accepted, k)| == 2 && For(s.lost, k) == {} && (k, a) in s.awaited && (k, b) in s.awaited
  {
    var k := CacheKey(given, runId, task, hash);
    ss, ls := BeginAndCall(true, given, runId, task, hash);
    var s := StartCall(ss[|ss| - 1], k);
    Then(true, ss, ls, Call(task, hash));
    ss, ls := ss + [s], ls + [Call(task, hash)];
    ss, ls := AnswerAndCommit(true, ss, ls, 0, a);
    ss, ls := AnswerAndCommit(true, ss, ls, 1, b);
    assert For(ss[|ss| - 1].accepted, k) == {(k, 0), (k, 1)};
  }

  // Without the eager commit, a failure while awaiting the job submits it a second time
  // although nothing was lost and no calls overlap.
  lemma LazyCommitResubmits(given: Option<string>, runId: string, task: string, hash: string, a: string, b: string)
    returns (ss: seq<State>, ls: seq<Label>)
    ensures IsRun(false, ss, ls)
    ensures var k, s := CacheKey(given, runId, task, hash), ss[|ss| - 1];
      |For(s.accepted, k)| == 2 && For(s.lost, k) == {} && Apart(s, k) && (k, a) in s.awaited && (k, b) in s.awaited
  {
    var k := CacheKey(given, runId, task, hash);
    ss, ls := BeginAndCall(false, given, runId, task, hash);
    ss, ls := AnswerAndCommit(false, ss, ls, 0, a);
    var s := ss[|ss| - 1];
    var failed := s.(calls := s.calls - {0});
    Then(false, ss, ls, AwaitFails(0));
    ss, ls := ss + [failed], ls + [AwaitFails(0)];
    assert InFlight(failed.calls) == {};
    Then(false, ss, ls, Call(task, hash));
    ss, ls := ss + [StartCall(failed, k)], ls + [Call(task, hash)];
    ss, ls := AnswerAndCommit(false, ss, ls, 1, b);
    assert For(ss[|ss| - 1].accepted, k) == {(k, 0), (k, 1)};
  }
}

// await_completion: the polling loop that stops asking about a job once it was terminal,
// and its agreement with the plain loop that asks about every job every time.
module AwaitCompletion {
  import opened Wrappers
  import opened Text
  import opened SlurmStates
  import opened Sacct

  // What sacct prints at one poll, about these jobs among others; None when the command fails.
  // Only the rows of the jobs that were asked for are read.
  type Printout = Option<string>

  // The outcome of a row of polls; StillWaiting when they run out.
  datatype Outcome =
    | Finished(infos: seq<JobInfo>, polls: nat)
    | Aborted(error: StatesResult, polls: nat)
    | StillWaiting

  function Ask(poll: Printout, ids: seq<JobId>): StatesResult {
    GetSlurmJobStates(ids, poll)
  }

  // The state a poll gives for one job, asked about alone.
  function StateOf(poll: Printout, id: JobId): Option<SlurmState> {
    var r := Ask(poll, [id]);
    if r.States? && r.infos != [] then Some(r.infos[0].state) else None
  }

  predicate TerminalAt(polls: seq<Printout>, id: JobId, k: nat)
    requires k < |polls|
  {
    StateOf(polls[k], id).Some? && IsTerminal(StateOf(polls[k], id).value)
  }

  // The first terminal state reported for the job in the first k polls.
  function FirstReport(polls: seq<Printout>, id: JobId, k: nat): Option<SlurmState>
    requires k <= |polls|
  {
    if k == 0 then None
    else if FirstReport(polls, id, k - 1).Some? then FirstReport(polls, id, k - 1)
    else if TerminalAt(polls, id, k - 1) then StateOf(polls[k - 1], id)
    else None
  }

  // The jobs, in input order, not yet reported terminal after k polls.
  function Pending(ids: seq<JobId>, polls: seq<Printout>, k: nat): seq<JobId>
    requires k <= |polls|
  {
    if ids == [] then []
    else if FirstReport(polls, ids[0], k).Some? then Pending(ids[1..], polls, k)
    else [ids[0]] + Pending(ids[1..], polls, k)
  }

  lemma {:induction false} InPending(ids: seq<JobId>, polls: seq<Printout>, k: nat)
    requires k <= |polls|
    ensures forall id :: id in Pending(ids, polls, k) <==> id in ids && FirstReport(polls, id, k).None?
  {
    if ids != [] {
      InPending(ids[1..], polls, k);
      assert forall id :: id in ids <==> id == ids[0] || id in ids[1..];
    }
  }

  // ---- Asking about fewer jobs ----------------------------------------------------------

  // Rows that are known, and are no longer looked at when fewer jobs are asked about, change
  // neither an error nor what is read of the other jobs.
  lemma {:induction false} ScanSame(all: seq<Row>, fewer: seq<Row>, ids: seq<JobId>)
    requires |all| == |fewer|
    requires forall k | 0 <= k < |all| ::
      all[k] == fewer[k] || (fewer[k].Ignored? && all[k].Known? && all[k].job !in ids)
    ensures ScanRows(all).Table? <==> ScanRows(fewer).Table?
    ensures !ScanRows(all).Table? ==> ScanRows(all) == ScanRows(fewer)
    ensures ScanRows(all).Table? ==> SameEntries(ScanRows(all).states, ScanRows(fewer).states, ids)
  {
    if all != [] {
      var n := |all| - 1;
      ScanSame(all[..n], fewer[..n], ids);
    }
  }

  ghost predicate SameEntries(a: map<JobId, SlurmState>, b: map<JobId, SlurmState>, ids: seq<JobId>) {
    forall id | id in ids :: (id in a <==> id in b) && (id in a ==> a[id] == b[id])
  }

  // The rows of the jobs that are not asked about any more are all readable.
  ghost predicate OthersReadable(ids: seq<JobId>, fewer: seq<JobId>, lines: seq<string>) {
    forall k | 0 <= k < |lines| :: ReadRow(ids, lines[k]) == ReadRow(fewer, lines[k]) || ReadRow(ids, lines[k]).Known?
  }

  lemma AskFewer(ids: seq<JobId>, fewer: seq<JobId>, lines: seq<string>)
    requires (forall id | id in fewer :: id in ids) && OthersReadable(ids, fewer, lines)
    ensures var a, b := ScanRows(Rows(ids, lines)), ScanRows(Rows(fewer, lines));
      && (a.Table? <==> b.Table?) && (!a.Table? ==> a == b)
      && (a.Table? ==> SameEntries(a.states, b.states, fewer))
  {
    var all, some := Rows(ids, lines), Rows(fewer, lines);
    forall k | 0 <= k < |lines|
      ensures all[k] == some[k] || (some[k].Ignored? && all[k].Known? && all[k].job !in fewer)
    {
      assert all[k] == ReadRow(ids, lines[k]) && some[k] == ReadRow(fewer, lines[k]);
    }
    ScanSame(all, some, fewer);
  }

  // A query that succeeds gives every job the state it has when asked about alone.
  lemma AnswersAlone(ids: seq<JobId>, poll: Printout)
    requires ids != [] && Ask(poll, ids).States?
    ensures |Ask(poll, ids).infos| == |ids|
    ensures forall i | 0 <= i < |ids| ::
      Ask(poll, ids).infos[i].job == ids[i] && StateOf(poll, ids[i]) == Some(Ask(poll, ids).infos[i].state)
  {
    var lines := SplitLines(poll.value);
    ReadStatesIff(ids, lines);
    forall i | 0 <= i < |ids|
      ensures StateOf(poll, ids[i]) == Some(Ask(poll, ids).infos[i].state)
    {
      forall k | 0 <= k < |lines|
        ensures ReadRow(ids, lines[k]) == ReadRow([ids[i]], lines[k]) || ReadRow(ids, lines[k]).Known?
      {
        assert Rows(ids, lines)[k] == ReadRow(ids, lines[k]);
      }
      AskFewer(ids, [ids[i]], lines);
      assert ids[i] in [ids[i]] && ids[i] in ids;
    }
  }

  // Leaving out jobs that have a state of their own changes no error, and a query succeeds
  // with them exactly when it succeeds without them.
  lemma AskWithout(ids: seq<JobId>, fewer: seq<JobId>, poll: Printout)
    requires ids != [] && fewer != [] && forall id | id in fewer :: id in ids
    requires poll.Some? ==> forall id | id in ids && id !in fewer :: StateOf(poll, id).Some?
    ensures Ask(poll, ids).States? <==> Ask(poll, fewer).States?
    ensures !Ask(poll, ids).States? ==> Ask(poll, ids) == Ask(poll, fewer)
  {
    if poll.Some? {
      var lines := SplitLines(poll.value);
      forall id | id in ids && id !in fewer
        ensures Readable(Rows([id], lines)) && Mentioned(Rows([id], lines), id)
      {
        ReadStatesIff([id], lines);
        assert id in [id];
      }
      OthersAreReadable(ids, fewer, lines);
      AskFewer(ids, fewer, lines);
      if ScanRows(Rows(ids, lines)).Table? {
        OthersAreMentioned(ids, fewer, lines);
      }
    }
  }

  lemma OthersAreReadable(ids: seq<JobId>, fewer: seq<JobId>, lines: seq<string>)
    requires forall id | id in fewer :: id in ids
    requires forall id | id in ids && id !in fewer :: Readable(Rows([id], lines))
    ensures OthersReadable(ids, fewer, lines)
  {
    forall k | 0 <= k < |lines| && ReadRow(ids, lines[k]) != ReadRow(fewer, lines[k])
      ensures ReadRow(ids, lines[k]).Known?
    {
      var id := ParseRow(lines[k]).job;
      assert Rows([id], lines)[k] == ReadRow([id], lines[k]) == ReadRow(ids, lines[k]);
    }
  }

  lemma OthersAreMentioned(ids: seq<JobId>, fewer: seq<JobId>, lines: seq<string>)
    requires forall id | id in ids && id !in fewer :: Mentioned(Rows([id], lines), id)
    requires ScanRows(Rows(ids, lines)).Table?
    ensures forall id | id in ids && id !in fewer :: id in ScanRows(Rows(ids, lines)).states
  {
    ScanMeaning(Rows(ids, lines));
    forall id | id in ids && id !in fewer
      ensures Mentioned(Rows(ids, lines), id)
    {
      var k :| 0 <= k < |lines| && Rows([id], lines)[k].Known? && Rows([id], lines)[k].job == id;
      assert Rows(ids, lines)[k] == ReadRow(ids, lines[k]) == ReadRow([id], lines[k]);
    }
  }

  // ---- The caching loop -----------------------------------------------------------------

  // The polls before k all succeeded and left something pending.
  ghost predicate Busy(ids: seq<JobId>, polls: seq<Printout>, k: nat)
    requires k <= |polls|
  {
    forall j | 0 <= j < k :: GoesOn(ids, polls, j)
  }

  ghost predicate GoesOn(ids: seq<JobId>, polls: seq<Printout>, k: nat)
    requires k < |polls|
  {
    Pending(ids, polls, k) != [] && Ask(polls[k], Pending(ids, polls, k)).States?
  }

  // What the loop promises, without saying how it gets there.
  ghost predicate IsOutcome(ids: seq<JobId>, polls: seq<Printout>, out: Outcome) {
    match out
    case Finished(infos, n) =>
      && n <= |polls| && Busy(ids, polls, n) && Pending(ids, polls, n) == []
      && |infos| == |ids|
      && forall i | 0 <= i < |ids| :: FirstReport(polls, ids[i], n) == Some(infos[i].state) && infos[i].job == ids[i]
    case Aborted(error, n) =>
      && 1 <= n <= |polls| && Busy(ids, polls, n - 1) && Pending(ids, polls, n - 1) != []
      && error == Ask(polls[n - 1], Pending(ids, polls, n - 1)) && !error.States?
    case StillWaiting =>
      Busy(ids, polls, |polls|) && Pending(ids, polls, |polls|) != []
  }

  // The cache after k polls: the finished jobs, each with its first terminal report.
  ghost predicate Tracks(ids: seq<JobId>, polls: seq<Printout>, k: nat, done: map<JobId, JobInfo>)
    requires k <= |polls|
  {
    forall id | id in ids :: CacheEntry(done, id) == FirstReport(polls, id, k)
  }

  ghost function CacheEntry(done: map<JobId, JobInfo>, id: JobId): Option<SlurmState> {
    if id in done && done[id].job == id then Some(done[id].state) else None
  }

  // What was asked at every poll: exactly the jobs that were then pending, in input order.
  ghost predicate AsksPending(ids: seq<JobId>, polls: seq<Printout>, asked: seq<seq<JobId>>) {
    |asked| <= |polls| && forall k | 0 <= k < |asked| :: asked[k] == Pending(ids, polls, k)
  }

  lemma AsksMore(ids: seq<JobId>, polls: seq<Printout>, asked: seq<seq<JobId>>)
    requires AsksPending(ids, polls, asked) && |asked| < |polls|
    ensures AsksPending(ids, polls, asked + [Pending(ids, polls, |asked|)])
  {
  }

  // The loop of await_completion. It asks, at every poll, about exactly the jobs that were
  // not yet terminal, so never about a finished one.
  method AwaitCompletion(ids: seq<JobId>, polls: seq<Printout>) returns (out: Outcome, asked: seq<seq<JobId>>)
    ensures IsOutcome(ids, polls, out)
    ensures |asked| == if out.StillWaiting? then |polls| else out.polls
    ensures AsksPending(ids, polls, asked)
  {
    asked := [];
    if ids == [] {
      return Finished([], 0), asked;
    }
    var done: map<JobId, JobInfo> := map[];
    var k := 0;
    while true
      invariant |asked| == k <= |polls| && Busy(ids, polls, k) && AsksPending(ids, polls, asked)
      invariant Tracks(ids, polls, k, done)
      invariant forall id | id in done :: done[id].job == id
      decreases |polls| - k
    {
      var pending := NotDone(ids, done);
      PendingIsNotDone(ids, polls, k, done);
      if pending == [] {
        CacheIsComplete(ids, polls, k, done);
        return Finished(Collect(ids, done), k), asked;
      }
      if k == |polls| {
        return StillWaiting, asked;
      }
      AsksMore(ids, polls, asked);
      var answer := QueryStates(pending, polls[k]);
      asked := asked + [pending];
      if !answer.States? {
        Aborts(ids, polls, k);
        return Aborted(answer, k + 1), asked;
      }
      NextPoll(ids, polls, k, done);
      done := RecordTerminal(done, answer.infos);
      k := k + 1;
    }
  }

  // The inner loop: terminal answers enter the cache.
  method RecordTerminal(before: map<JobId, JobInfo>, infos: seq<JobInfo>) returns (done: map<JobId, JobInfo>)
    ensures done == Recorded(before, infos)
  {
    done := before;
    for i := 0 to |infos|
      invariant done == Recorded(before, infos[..i])
    {
      assert infos[..i + 1][..i] == infos[..i];
      if IsTerminal(infos[i].state) {
        done := done[infos[i].job := infos[i]];
      }
    }
    assert infos[..|infos|] == infos;
  }

  function Recorded(before: map<JobId, JobInfo>, infos: seq<JobInfo>): (done: map<JobId, JobInfo>)
    ensures (forall id | id in before :: before[id].job == id) ==> forall id | id in done :: done[id].job == id
  {
    if infos == [] then before else
      var last := infos[|infos| - 1];
      var done := Recorded(before, infos[..|infos| - 1]);
      if IsTerminal(last.state) then done[last.job := last] else done
  }

  lemma {:induction false} RecordedMeaning(before: map<JobId, JobInfo>, infos: seq<JobInfo>, states: map<JobId, SlurmState>, id: JobId)
    requires forall i | 0 <= i < |infos| :: infos[i].job in states && infos[i].state == states[infos[i].job]
    ensures CacheEntry(Recorded(before, infos), id) ==
      if id in states && IsTerminal(states[id]) && exists i :: 0 <= i < |infos| && infos[i].job == id
      then Some(states[id]) else CacheEntry(before, id)
  {
    if infos != [] {
      var n := |infos| - 1;
      RecordedMeaning(before, infos[..n], states, id);
      assert forall i | 0 <= i < n :: infos[..n][i] == infos[i];
    }
  }

  lemma RecordsFirstReports(ids: seq<JobId>, polls: seq<Printout>, k: nat, done: map<JobId, JobInfo>)
    requires k < |polls| && Tracks(ids, polls, k, done)
    requires Pending(ids, polls, k) != [] && Ask(polls[k], Pending(ids, polls, k)).States?
    ensures Tracks(ids, polls, k + 1, Recorded(done, Ask(polls[k], Pending(ids, polls, k)).infos))
  {
    var pending := Pending(ids, polls, k);
    var infos := Ask(polls[k], pending).infos;
    InPending(ids, polls, k);
    AnswersAlone(pending, polls[k]);
    var states := map id | id in pending && StateOf(polls[k], id).Some? :: StateOf(polls[k], id).value;
    forall id | id in ids
      ensures CacheEntry(Recorded(done, infos), id) == FirstReport(polls, id, k + 1)
    {
      RecordedMeaning(done, infos, states, id);
      if id in pending {
        var i :| 0 <= i < |pending| && pending[i] == id;
        assert infos[i].job == id;
      } else {
        assert forall i | 0 <= i < |infos| :: infos[i].job in pending;
      }
    }
  }

  function Collect(ids: seq<JobId>, done: map<JobId, JobInfo>): (infos: seq<JobInfo>)
    requires forall id | id in ids :: id in done
    ensures |infos| == |ids| && forall i | 0 <= i < |ids| :: infos[i] == done[ids[i]]
  {
    seq(|ids|, i requires 0 <= i < |ids| => done[ids[i]])
  }

  lemma CacheIsComplete(ids: seq<JobId>, polls: seq<Printout>, k: nat, done: map<JobId, JobInfo>)
    requires k <= |polls| && Tracks(ids, polls, k, done) && Pending(ids, polls, k) == [] && Busy(ids, polls, k)
    ensures forall id | id in ids :: id in done
    ensures IsOutcome(ids, polls, Finished(Collect(ids, done), k))
  {
    InPending(ids, polls, k);
    forall id | id in ids
      ensures id in done && done[id].job == id && FirstReport(polls, id, k) == Some(done[id].state)
    {
      assert id !in Pending(ids, polls, k);
    }
  }

  lemma BusyGrows(ids: seq<JobId>, polls: seq<Printout>, k: nat)
    requires k < |polls| && Busy(ids, polls, k)
    requires Pending(ids, polls, k) != [] && Ask(polls[k], Pending(ids, polls, k)).States?
    ensures Busy(ids, polls, k + 1)
  {
  }

  lemma Aborts(ids: seq<JobId>, polls: seq<Printout>, k: nat)
    requires k < |polls| && Busy(ids, polls, k)
    requires Pending(ids, polls, k) != [] && !Ask(polls[k], Pending(ids, polls, k)).States?
    ensures IsOutcome(ids, polls, Aborted(Ask(polls[k], Pending(ids, polls, k)), k + 1))
  {
  }

  lemma NextPoll(ids: seq<JobId>, polls: seq<Printout>, k: nat, done: map<JobId, JobInfo>)
    requires k < |polls| && Busy(ids, polls, k) && Tracks(ids, polls, k, done)
    requires Pending(ids, polls, k) != [] && Ask(polls[k], Pending(ids, polls, k)).States?
    ensures Busy(ids, polls, k + 1)
    ensures Tracks(ids, polls, k + 1, Recorded(done, Ask(polls[k], Pending(ids, polls, k)).infos))
  {
    BusyGrows(ids, polls, k);
    RecordsFirstReports(ids, polls, k, done);
  }

  function NotDone(ids: seq<JobId>, done: map<JobId, JobInfo>): seq<JobId> {
    if ids == [] then []
    else if ids[0] in done then NotDone(ids[1..], done)
    else [ids[0]] + NotDone(ids[1..], done)
  }

  lemma {:induction false} PendingIsNotDone(ids: seq<JobId>, polls: seq<Printout>, k: nat, done: map<JobId, JobInfo>)
    requires k <= |polls|
    requires Tracks(ids, polls, k, done) && forall id | id in done :: done[id].job == id
    ensures NotDone(ids, done) == Pending(ids, polls, k)
  {
    if ids != [] {
      assert ids[0] in ids;
      PendingIsNotDone(ids[1..], polls, k, done);
    }
  }

  // ---- The plain loop -----------------------------------------------------------------

  // The outcome of a row of answers about every job: the first that is an error, or that has
  // all of them terminal.
  function FirstAllTerminal(answers: seq<StatesResult>, k: nat): Outcome
    requires k <= |answers|
    decreases |answers| - k
  {
    if k == |answers| then StillWaiting
    else if !answers[k].States? then Aborted(answers[k], k + 1)
    else if AllTerminal(answers[k].infos) then Finished(answers[k].infos, k + 1)
    else FirstAllTerminal(answers, k + 1)
  }

  predicate AllTerminal(infos: seq<JobInfo>) {
    forall i | 0 <= i < |infos| :: IsTerminal(infos[i].state)
  }

  function Answers(ids: seq<JobId>, polls: seq<Printout>): (answers: seq<StatesResult>)
    ensures |answers| == |polls| && forall k | 0 <= k < |polls| :: answers[k] == Ask(polls[k], ids)
  {
    seq(|polls|, k requires 0 <= k < |polls| => Ask(polls[k], ids))
  }

  // Asks about every job at every poll.
  function PollEverything(ids: seq<JobId>, polls: seq<Printout>): Outcome {
    if ids == [] then Finished([], 0) else FirstAllTerminal(Answers(ids, polls), 0)
  }

  lemma {:induction false} Skips(answers: seq<StatesResult>, k: nat)
    requires k <= |answers|
    requires forall j | 0 <= j < k :: answers[j].States? && !AllTerminal(answers[j].infos)
    ensures FirstAllTerminal(answers, 0) == FirstAllTerminal(answers, k)
  {
    if k > 0 {
      Skips(answers, k - 1);
    }
  }

  // Accounting does not change its mind about, or lose, a job it reported terminal: while the
  // command works, the job has that state. Nothing is assumed of the other jobs and lines.
  ghost predicate Stable(polls: seq<Printout>) {
    forall id, j, k | 0 <= j < k < |polls| && TerminalAt(polls, id, j) && polls[k].Some? ::
      StateOf(polls[k], id) == StateOf(polls[j], id)
  }

  lemma {:induction false} ReportSource(polls: seq<Printout>, id: JobId, k: nat) returns (j: nat)
    requires k <= |polls| && FirstReport(polls, id, k).Some?
    ensures j < k && TerminalAt(polls, id, j) && FirstReport(polls, id, k) == StateOf(polls[j], id)
  {
    if FirstReport(polls, id, k - 1).Some? {
      j := ReportSource(polls, id, k - 1);
    } else {
      j := k - 1;
    }
  }

  lemma FinishedStay(polls: seq<Printout>, id: JobId, k: nat)
    requires Stable(polls) && k < |polls| && polls[k].Some? && FirstReport(polls, id, k).Some?
    ensures TerminalAt(polls, id, k) && FirstReport(polls, id, k) == StateOf(polls[k], id)
  {
    var j := ReportSource(polls, id, k);
  }

  // With stable accounting, a poll answers for all jobs as soon as it answers for the pending
  // ones, fails in the same way, and agrees with the first reports.
  lemma AskAll(ids: seq<JobId>, polls: seq<Printout>, k: nat)
    requires Stable(polls) && k < |polls| && Pending(ids, polls, k) != []
    ensures Ask(polls[k], ids).States? <==> Ask(polls[k], Pending(ids, polls, k)).States?
    ensures !Ask(polls[k], ids).States? ==> Ask(polls[k], ids) == Ask(polls[k], Pending(ids, polls, k))
    ensures Ask(polls[k], ids).States? ==> forall id | id in ids ::
      TerminalAt(polls, id, k) <==> FirstReport(polls, id, k + 1).Some?
    ensures Ask(polls[k], ids).States? ==> forall id | id in ids && TerminalAt(polls, id, k) ::
      FirstReport(polls, id, k + 1) == StateOf(polls[k], id)
  {
    InPending(ids, polls, k);
    forall id | id in ids && FirstReport(polls, id, k).Some? && polls[k].Some?
      ensures TerminalAt(polls, id, k) && FirstReport(polls, id, k) == StateOf(polls[k], id)
    {
      FinishedStay(polls, id, k);
    }
    AskWithout(ids, Pending(ids, polls, k), polls[k]);
  }

  // The caching loop and the plain loop agree in every respect (result, order, errors and
  // number of polls) when terminal states are stable.
  lemma CachingRefinesPlain(ids: seq<JobId>, polls: seq<Printout>, out: Outcome)
    requires Stable(polls) && IsOutcome(ids, polls, out)
    ensures out == PollEverything(ids, polls)
  {
    if ids == [] {
      assert Pending(ids, polls, 0) == [];
      assert |polls| > 0 ==> !GoesOn(ids, polls, 0);
    } else {
      NotAtOnce(ids, polls, out);
      var n := if out.StillWaiting? then |polls| else out.polls - 1;
      assert out.Finished? ==> GoesOn(ids, polls, n);
      forall k | 0 <= k < n
        ensures Ask(polls[k], ids).States? && !AllTerminal(Ask(polls[k], ids).infos)
      {
        assert GoesOn(ids, polls, k) && (k + 1 < n ==> GoesOn(ids, polls, k + 1));
        PlainGoesOn(ids, polls, k);
      }
      Skips(Answers(ids, polls), n);
      if out.Aborted? {
        AskAll(ids, polls, n);
      } else if out.Finished? {
        PlainFinishes(ids, polls, n, out.infos);
      }
    }
  }

  lemma NotAtOnce(ids: seq<JobId>, polls: seq<Printout>, out: Outcome)
    requires IsOutcome(ids, polls, out) && ids != []
    ensures out.Finished? ==> out.polls > 0
  {
    InPending(ids, polls, 0);
    assert FirstReport(polls, ids[0], 0).None? && ids[0] in ids;
  }

  lemma PlainFinishes(ids: seq<JobId>, polls: seq<Printout>, k: nat, infos: seq<JobInfo>)
    requires Stable(polls) && ids != [] && k < |polls| && GoesOn(ids, polls, k) && |infos| == |ids|
    requires forall i | 0 <= i < |ids| :: FirstReport(polls, ids[i], k + 1) == Some(infos[i].state) && infos[i].job == ids[i]
    ensures Ask(polls[k], ids) == States(infos) && AllTerminal(infos)
  {
    AskAll(ids, polls, k);
    AnswersAlone(ids, polls[k]);
    var r := Ask(polls[k], ids);
    forall i | 0 <= i < |ids|
      ensures IsTerminal(infos[i].state) && infos[i] == r.infos[i]
    {
      assert ids[i] in ids && TerminalAt(polls, ids[i], k);
    }
    assert r.infos == infos;
  }

  lemma PlainGoesOn(ids: seq<JobId>, polls: seq<Printout>, k: nat)
    requires Stable(polls) && ids != [] && k < |polls|
    requires Pending(ids, polls, k) != [] && Pending(ids, polls, k + 1) != []
    requires Ask(polls[k], Pending(ids, polls, k)).States?
    ensures Ask(polls[k], ids).States? && !AllTerminal(Ask(polls[k], ids).infos)
  {
    AskAll(ids, polls, k);
    AnswersAlone(ids, polls[k]);
    InPending(ids, polls, k + 1);
    var id := Pending(ids, polls, k + 1)[0];
    assert id in Pending(ids, polls, k + 1);
    var i :| 0 <= i < |ids| && ids[i] == id;
    assert !IsTerminal(Ask(polls[k], ids).infos[i].state);
  }

  // ---- Without stability ----------------------------------------------------------------

  // The states of two jobs, as sacct prints them.
  function TwoRows(a: JobId, x: SlurmState, b: JobId, y: SlurmState): Printout {
    Some(PageText([Print(a, x, ""), Print(b, y, "")], true))
  }

  ghost predicate PlainIds(a: JobId, b: JobId) {
    a != b && '|' !in a && '|' !in b && OneLine(a) && OneLine(b)
  }

  lemma TwoRowsAnswer(a: JobId, x: SlurmState, b: JobId, y: SlurmState)
    requires PlainIds(a, b)
    ensures Ask(TwoRows(a, x, b, y), [a, b]) == States([JobInfo(a, x), JobInfo(b, y)])
  {
    var ids, page := [a, b], [Print(a, x, ""), Print(b, y, "")];
    assert ids[0] == a && ids[1] == b && page[0].job == a && page[1].job == b;
    assert Printed(page, a) && Printed(page, b);
    ReadBackPrinted(ids, page, true);
    var r := Ask(TwoRows(a, x, b, y), ids);
    assert EndsPrinted(page, a, r.infos[0].state) && EndsPrinted(page, b, r.infos[1].state);
    assert r.infos == [JobInfo(a, x), JobInfo(b, y)];
  }

  lemma TwoRowsRead(a: JobId, x: SlurmState, b: JobId, y: SlurmState)
    requires PlainIds(a, b)
    ensures Ask(TwoRows(a, x, b, y), [a, b]) == States([JobInfo(a, x), JobInfo(b, y)])
    ensures StateOf(TwoRows(a, x, b, y), a) == Some(x) && StateOf(TwoRows(a, x, b, y), b) == Some(y)
  {
    TwoRowsAnswer(a, x, b, y);
    AnswersAlone([a, b], TwoRows(a, x, b, y));
    assert [a, b][0] == a && [a, b][1] == b;
  }

  // A job requeued after it completed keeps the plain loop waiting, while the caching loop
  // has finished.
  lemma RequeuedJobSeparatesThem(a: JobId, b: JobId)
    requires PlainIds(a, b)
    ensures var polls := Requeued(a, b);
      && IsOutcome([a, b], polls, Finished([JobInfo(a, Completed), JobInfo(b, Completed)], 2))
      && PollEverything([a, b], polls) == StillWaiting
  {
    CachingFinishes(a, b);
    PlainWaits(a, b);
  }

  function Requeued(a: JobId, b: JobId): seq<Printout> {
    [TwoRows(a, Completed, b, Running), TwoRows(a, Running, b, Completed)]
  }

  lemma RequeuedReports(a: JobId, b: JobId)
    requires PlainIds(a, b)
    ensures var polls := Requeued(a, b);
      && FirstReport(polls, a, 0).None? && FirstReport(polls, b, 0).None?
      && FirstReport(polls, a, 1) == Some(Completed) && FirstReport(polls, b, 1).None?
      && FirstReport(polls, a, 2) == Some(Completed) && FirstReport(polls, b, 2) == Some(Completed)
  {
    TwoRowsRead(a, Completed, b, Running);
    TwoRowsRead(a, Running, b, Completed);
  }

  lemma RequeuedAnswers(a: JobId, b: JobId)
    requires PlainIds(a, b)
    ensures var polls := Requeued(a, b);
      Ask(polls[0], [a, b]).States? && Ask(polls[1], [b]).States?
  {
    TwoRowsRead(a, Completed, b, Running);
    TwoRowsRead(a, Running, b, Completed);
    AskWithout([a, b], [b], Requeued(a, b)[1]);
  }

  lemma CachingFinishes(a: JobId, b: JobId)
    requires PlainIds(a, b)
    ensures IsOutcome([a, b], Requeued(a, b), Finished([JobInfo(a, Completed), JobInfo(b, Completed)], 2))
  {
    var ids, polls := [a, b], Requeued(a, b);
    RequeuedReports(a, b);
    PendingOfTwo(a, b, polls);
    assert Busy(ids, polls, 2) by {
      RequeuedAnswers(a, b);
      assert GoesOn(ids, polls, 0) && GoesOn(ids, polls, 1);
    }
  }

  lemma PendingOfTwo(a: JobId, b: JobId, polls: seq<Printout>)
    requires |polls| == 2 && FirstReport(polls, a, 0).None? && FirstReport(polls, b, 0).None?
    requires FirstReport(polls, a, 1).Some? && FirstReport(polls, b, 1).None?
    requires FirstReport(polls, a, 2).Some? && FirstReport(polls, b, 2).Some?
    ensures Pending([a, b], polls, 0) == [a, b]
    ensures Pending([a, b], polls, 1) == [b]
    ensures Pending([a, b], polls, 2) == []
  {
    assert [a, b][1..] == [b] && [b][1..] == [];
    assert Pending([b], polls, 0) == [b] && Pending([b], polls, 1) == [b] && Pending([b], polls, 2) == [];
  }

  lemma PlainWaits(a: JobId, b: JobId)
    requires PlainIds(a, b)
    ensures PollEverything([a, b], Requeued(a, b)) == StillWaiting
  {
    TwoRowsAnswer(a, Completed, b, Running);
    TwoRowsAnswer(a, Running, b, Completed);
    var answers := Answers([a, b], Requeued(a, b));
    assert answers[0].infos[1].state == Running && answers[1].infos[0].state == Running;
    Skips(answers, 2);
  }
}

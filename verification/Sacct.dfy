// get_slurm_job_states: asking sacct for the states of a list of jobs and reading the
// answer, which a transport may have interleaved with unrelated lines.
module Sacct {
  import opened Wrappers
  import opened Text
  import opened SlurmStates

  type JobId = string

  datatype JobInfo = JobInfo(job: JobId, state: SlurmState)

  // What a query yields. Raises is Python's uncaught IndexError, on a state column that is
  // non-empty but all whitespace.
  datatype StatesResult =
    | States(infos: seq<JobInfo>)
    | CommandFailed
    | UnknownState(job: JobId)
    | NoRecord
    | Raises

  // One output row: the job its first column names and how its state column reads.
  datatype Row = Ignored | Known(job: JobId, state: SlurmState) | Unknown(job: JobId) | Blank(job: JobId)

  function ParseRow(line: string): Row {
    match Partition(line, '|')
    case None => Ignored
    case Some((job, raw)) =>
      if raw == "" then Unknown(job)
      else match FirstWord(raw)
        case None => Blank(job)
        case Some(token) =>
          match Named(token)
          case None => Unknown(job)
          case Some(st) => Known(job, st)
  }

  // Only rows whose first column was asked for are trusted.
  function Trusted(ids: seq<JobId>, row: Row): Row {
    if row.Ignored? || row.job !in ids then Ignored else row
  }

  function ReadRow(ids: seq<JobId>, line: string): Row {
    Trusted(ids, ParseRow(line))
  }

  function Rows(ids: seq<JobId>, lines: seq<string>): (rows: seq<Row>)
    ensures |rows| == |lines| && forall k | 0 <= k < |lines| :: rows[k] == ReadRow(ids, lines[k])
  {
    seq(|lines|, k requires 0 <= k < |lines| => ReadRow(ids, lines[k]))
  }

  // The dictionary filled so far, or the reason the scan stopped.
  datatype Scan = Table(states: map<JobId, SlurmState>) | BadState(job: JobId) | IndexFailure

  function ScanRow(m: map<JobId, SlurmState>, row: Row): Scan {
    match row
    case Ignored => Table(m)
    case Known(job, st) => Table(m[job := st])
    case Unknown(job) => BadState(job)
    case Blank(job) => IndexFailure
  }

  function ScanRows(rows: seq<Row>): Scan {
    if rows == [] then Table(map[]) else
      var before := ScanRows(rows[..|rows| - 1]);
      if before.Table? then ScanRow(before.states, rows[|rows| - 1]) else before
  }

  function Conclude(ids: seq<JobId>, scan: Scan): StatesResult {
    match scan
    case BadState(job) => UnknownState(job)
    case IndexFailure => Raises
    case Table(m) =>
      if forall id | id in ids :: id in m then
        States(seq(|ids|, i requires 0 <= i < |ids| => JobInfo(ids[i], m[ids[i]])))
      else NoRecord
  }

  function ReadStates(ids: seq<JobId>, lines: seq<string>): StatesResult {
    Conclude(ids, ScanRows(Rows(ids, lines)))
  }

  // None stands for a command that could not be run.
  function GetSlurmJobStates(ids: seq<JobId>, stdout: Option<string>): StatesResult {
    if ids == [] then States([])
    else match stdout
      case None => CommandFailed
      case Some(text) => ReadStates(ids, SplitLines(text))
  }

  // The loop of get_slurm_job_states, with its early returns.
  method QueryStates(ids: seq<JobId>, stdout: Option<string>) returns (r: StatesResult)
    ensures r == GetSlurmJobStates(ids, stdout)
  {
    if ids == [] {
      return States([]);
    }
    if stdout.None? {
      return CommandFailed;
    }
    var lines := SplitLines(stdout.value);
    ghost var rows := Rows(ids, lines);
    var states: map<JobId, SlurmState> := map[];
    for i := 0 to |lines|
      invariant ScanRows(rows[..i]) == Table(states)
    {
      var line := lines[i];
      assert rows[..i + 1][..i] == rows[..i];
      if line == "" {
        continue;
      }
      var cut := Partition(line, '|');
      if cut.None? || cut.value.0 !in ids {
        continue;
      }
      var job, raw := cut.value.0, cut.value.1;
      var token := "";
      if raw != "" {
        var word := FirstWord(raw);
        if word.None? {
          ScanStopsEarly(rows, i + 1);
          return Raises;
        }
        token := word.value;
      }
      EmptyIsNoName();
      var st := Named(token);
      if st.None? {
        ScanStopsEarly(rows, i + 1);
        return UnknownState(job);
      }
      states := states[job := st.value];
    }
    assert rows[..|lines|] == rows;
    if id :| id in ids && id !in states {
      return NoRecord;
    }
    r := States(seq(|ids|, i requires 0 <= i < |ids| => JobInfo(ids[i], states[ids[i]])));
  }

  lemma EmptyIsNoName()
    ensures Named("").None?
  {
    if Named("").Some? {
      NameIsOneWord(Named("").value);
    }
  }

  // Nothing read after a stopping row changes the outcome.
  lemma {:induction false} ScanStopsEarly(rows: seq<Row>, i: nat)
    requires i <= |rows| && !ScanRows(rows[..i]).Table?
    ensures ScanRows(rows) == ScanRows(rows[..i])
    decreases |rows|
  {
    if i == |rows| {
      assert rows[..i] == rows;
    } else {
      var before := rows[..|rows| - 1];
      assert before[..i] == rows[..i];
      ScanStopsEarly(before, i);
    }
  }

  // Row k is the last one that names the job, and it gives it the state.
  ghost predicate LastRow(rows: seq<Row>, job: JobId, st: SlurmState, k: nat) {
    && k < |rows|
    && rows[k] == Known(job, st)
    && forall j | k < j < |rows| && rows[j].Known? :: rows[j].job != job
  }

  ghost predicate Ends(rows: seq<Row>, job: JobId, st: SlurmState) {
    exists k: nat :: LastRow(rows, job, st, k)
  }

  ghost predicate Mentioned(rows: seq<Row>, job: JobId) {
    exists k :: 0 <= k < |rows| && rows[k].Known? && rows[k].job == job
  }

  ghost predicate Readable(rows: seq<Row>) {
    forall k | 0 <= k < |rows| :: !rows[k].Unknown? && !rows[k].Blank?
  }

  // Some output row gives the job this state.
  ghost predicate HasRow(lines: seq<string>, job: JobId, st: SlurmState) {
    exists k :: 0 <= k < |lines| && ParseRow(lines[k]) == Known(job, st)
  }

  lemma EndsGrows(rows: seq<Row>, last: Row, job: JobId, st: SlurmState)
    requires !(last.Known? && last.job == job)
    ensures Ends(rows + [last], job, st) <==> Ends(rows, job, st)
  {
    var all := rows + [last];
    if k: nat :| LastRow(all, job, st, k) {
      assert forall j | k < j < |rows| :: rows[j] == all[j];
      assert LastRow(rows, job, st, k);
    }
    if k: nat :| LastRow(rows, job, st, k) {
      assert LastRow(all, job, st, k);
    }
  }

  // The table after a scan holds exactly the last row of every job; it exists exactly when
  // no requested row is unreadable.
  lemma {:induction false} ScanMeaning(rows: seq<Row>)
    ensures ScanRows(rows).Table? <==> Readable(rows)
    ensures ScanRows(rows).Table? ==>
      forall job :: job in ScanRows(rows).states ==> Ends(rows, job, ScanRows(rows).states[job])
    ensures ScanRows(rows).Table? ==> forall job :: job in ScanRows(rows).states <==> Mentioned(rows, job)
  {
    if rows != [] {
      var n := |rows| - 1;
      var before, last := rows[..n], rows[n];
      ScanMeaning(before);
      assert rows == before + [last];
      if ScanRows(rows).Table? {
        var m := ScanRows(rows).states;
        forall job
          ensures job in m ==> Ends(rows, job, m[job])
          ensures job in m <==> Mentioned(rows, job)
        {
          if job in m {
            if last.Known? && last.job == job {
              assert LastRow(rows, job, m[job], n);
            } else {
              EndsGrows(before, last, job, m[job]);
            }
            var k: nat :| LastRow(rows, job, m[job], k);
          }
          if Mentioned(before, job) {
            var k :| 0 <= k < n && before[k].Known? && before[k].job == job;
            assert rows[k] == before[k];
          }
        }
      }
    }
  }

  // A query succeeds exactly when every row of a requested job carries a known state and
  // every requested job has a row; it then answers in the order asked, each job with the
  // state of its last row, whatever other lines are mixed in.
  lemma ReadStatesIff(ids: seq<JobId>, lines: seq<string>)
    ensures ReadStates(ids, lines).States? <==>
      Readable(Rows(ids, lines)) && forall id | id in ids :: Mentioned(Rows(ids, lines), id)
    ensures ReadStates(ids, lines).States? ==>
      |ReadStates(ids, lines).infos| == |ids|
    ensures ReadStates(ids, lines).States? ==>
      forall i | 0 <= i < |ids| :: var info := ReadStates(ids, lines).infos[i];
        info.job == ids[i] && Ends(Rows(ids, lines), info.job, info.state)
  {
    ScanMeaning(Rows(ids, lines));
  }

  // The uncaught IndexError: exactly when some requested row has an all-blank, non-empty
  // state column and no earlier requested row is unreadable.
  lemma RaisesIff(ids: seq<JobId>, lines: seq<string>)
    ensures ReadStates(ids, lines).Raises? <==>
      exists k :: 0 <= k < |lines| && Rows(ids, lines)[k].Blank? && Readable(Rows(ids, lines)[..k])
  {
    IndexFailureIff(Rows(ids, lines));
  }

  // One such output: a state column holding a single blank.
  lemma BlankStateRaises(id: JobId)
    requires '|' !in id && OneLine(id)
    ensures GetSlurmJobStates([id], Some(id + "| \n")).Raises?
  {
    var line := id + "| ";
    forall c | c in line
      ensures !IsLineBreak(c)
    {
      assert c in id || c == '|' || c == ' ';
    }
    assert id + "| \n" == Terminated([line]) + "";
    SplitTerminated([line], "");
    assert SplitLines(id + "| \n") == [line];
    assert line == id + ['|'] + " ";
    PartitionJoined(id, '|', " ");
    FirstWordMissing(" ");
    assert Rows([id], [line])[0] == Blank(id) && Rows([id], [line])[..0] == [];
    RaisesIff([id], [line]);
  }

  lemma {:induction false} IndexFailureIff(rows: seq<Row>)
    ensures ScanRows(rows).IndexFailure? <==>
      exists k :: 0 <= k < |rows| && rows[k].Blank? && Readable(rows[..k])
  {
    if rows != [] {
      var n := |rows| - 1;
      var before := rows[..n];
      IndexFailureIff(before);
      ScanMeaning(before);
      if k :| 0 <= k < |rows| && rows[k].Blank? && Readable(rows[..k]) {
        assert k < n ==> rows[..k] == before[..k];
      }
      if k :| 0 <= k < n && before[k].Blank? && Readable(before[..k]) {
        assert rows[..k] == before[..k] && rows[k] == before[k];
      }
    }
  }

  // Whatever a query answers for a job, sacct printed for that very job.
  lemma AnswersAreRows(ids: seq<JobId>, lines: seq<string>, i: nat)
    requires ReadStates(ids, lines).States? && i < |ids|
    ensures var infos := ReadStates(ids, lines).infos;
      |infos| == |ids| && infos[i].job == ids[i] && HasRow(lines, ids[i], infos[i].state)
  {
    ReadStatesIff(ids, lines);
    var st := ReadStates(ids, lines).infos[i].state;
    var k: nat :| LastRow(Rows(ids, lines), ids[i], st, k);
    assert ParseRow(lines[k]) == Known(ids[i], st);
  }

  // ---- Printing -----------------------------------------------------------------------

  // A line of sacct -P output, or of the noise around it, blank lines among it. The suffix is
  // what Slurm appends to a state, as in "CANCELLED by 12345".
  datatype Line = Print(job: JobId, state: SlurmState, suffix: string) | Noise(text: string)

  function Render(line: Line): string {
    match line
    case Print(job, st, suffix) => job + "|" + Name(st) + suffix
    case Noise(text) => text
  }

  ghost predicate WellPrinted(ids: seq<JobId>, line: Line) {
    match line
    case Print(job, st, suffix) =>
      job in ids && '|' !in job && OneLine(job) && OneLine(suffix) && (suffix == "" || IsSpace(suffix[0]))
    case Noise(text) =>
      OneLine(text) && (Partition(text, '|').None? || Partition(text, '|').value.0 !in ids)
  }

  function RenderAll(page: seq<Line>): (lines: seq<string>)
    ensures |lines| == |page| && forall k | 0 <= k < |page| :: lines[k] == Render(page[k])
  {
    seq(|page|, k requires 0 <= k < |page| => Render(page[k]))
  }

  lemma ParsePrinted(job: JobId, st: SlurmState, suffix: string)
    requires '|' !in job && (suffix == "" || IsSpace(suffix[0]))
    ensures ParseRow(job + "|" + Name(st) + suffix) == Known(job, st)
  {
    NameIsOneWord(st);
    var raw := Name(st) + suffix;
    assert job + "|" + Name(st) + suffix == job + ['|'] + raw;
    PartitionJoined(job, '|', raw);
    FirstWordOf(Name(st), suffix);
    NamedIffName(Name(st), st);
  }

  lemma PrintedOneLine(job: JobId, st: SlurmState, suffix: string)
    requires OneLine(job) && OneLine(suffix)
    ensures OneLine(job + "|" + Name(st) + suffix)
  {
    NameIsOneWord(st);
    forall c | c in job + "|" + Name(st) + suffix
      ensures !IsLineBreak(c)
    {
      assert c in job || c == '|' || c in Name(st) || c in suffix;
    }
  }

  lemma RowOfRender(ids: seq<JobId>, line: Line)
    requires WellPrinted(ids, line)
    ensures ReadRow(ids, Render(line)) == if line.Print? then Known(line.job, line.state) else Ignored
    ensures OneLine(Render(line))
  {
    if line.Print? {
      ParsePrinted(line.job, line.state, line.suffix);
      PrintedOneLine(line.job, line.state, line.suffix);
    }
  }

  ghost predicate LastPrint(page: seq<Line>, job: JobId, st: SlurmState, k: nat) {
    && k < |page| && page[k].Print? && page[k].job == job && page[k].state == st
    && forall j | k < j < |page| && page[j].Print? :: page[j].job != job
  }

  ghost predicate Printed(page: seq<Line>, job: JobId) {
    exists k :: 0 <= k < |page| && page[k].Print? && page[k].job == job
  }

  function RowOf(line: Line): Row {
    if line.Print? then Known(line.job, line.state) else Ignored
  }

  function PageRows(page: seq<Line>): (rows: seq<Row>)
    ensures |rows| == |page| && forall k | 0 <= k < |page| :: rows[k] == RowOf(page[k])
  {
    seq(|page|, k requires 0 <= k < |page| => RowOf(page[k]))
  }

  // The whole output: every line followed by a newline, or the last one without, in which
  // case it is not blank.
  function PageText(page: seq<Line>, ended: bool): string {
    if ended then Terminated(RenderAll(page)) else JoinLines(RenderAll(page))
  }

  predicate WellEnded(page: seq<Line>, ended: bool) {
    ended || page == [] || Render(page[|page| - 1]) != ""
  }

  lemma LinesOfPage(ids: seq<JobId>, page: seq<Line>, ended: bool)
    requires WellEnded(page, ended) && forall line | line in page :: WellPrinted(ids, line)
    ensures SplitLines(PageText(page, ended)) == RenderAll(page)
  {
    var lines := RenderAll(page);
    forall l | l in lines
      ensures OneLine(l)
    {
      var k :| 0 <= k < |lines| && lines[k] == l;
      RowOfRender(ids, page[k]);
    }
    if ended {
      SplitTerminated(lines, "");
      assert Terminated(lines) + "" == Terminated(lines) && lines + [] == lines;
    } else {
      SplitOfJoin(lines);
    }
  }

  lemma RowsOfPage(ids: seq<JobId>, page: seq<Line>, ended: bool)
    requires WellEnded(page, ended) && forall line | line in page :: WellPrinted(ids, line)
    ensures Rows(ids, SplitLines(PageText(page, ended))) == PageRows(page)
  {
    LinesOfPage(ids, page, ended);
    forall k | 0 <= k < |page|
      ensures ReadRow(ids, RenderAll(page)[k]) == RowOf(page[k])
    {
      RowOfRender(ids, page[k]);
    }
  }

  ghost predicate EndsPrinted(page: seq<Line>, job: JobId, st: SlurmState) {
    exists k: nat :: LastPrint(page, job, st, k)
  }

  lemma MentionedIffPrinted(page: seq<Line>, job: JobId)
    ensures Mentioned(PageRows(page), job) <==> Printed(page, job)
  {
    var rows := PageRows(page);
    if k :| 0 <= k < |rows| && rows[k].Known? && rows[k].job == job {
      assert page[k].Print? && page[k].job == job;
    }
    if k :| 0 <= k < |page| && page[k].Print? && page[k].job == job {
      assert rows[k].Known? && rows[k].job == job;
    }
  }

  lemma EndsIffPrinted(page: seq<Line>, job: JobId, st: SlurmState)
    requires Ends(PageRows(page), job, st)
    ensures EndsPrinted(page, job, st)
  {
    var rows := PageRows(page);
    var k: nat :| LastRow(rows, job, st, k);
    assert forall j | 0 <= j < |page| :: rows[j].Known? <==> page[j].Print?;
    assert LastPrint(page, job, st, k);
  }

  // Round trip: from any interleaving of printed rows with noise, the whole text is read
  // back as the last printed state of every requested job, in the order requested; the only
  // other outcome is a missing record, exactly when some job was never printed.
  lemma ReadBackPrinted(ids: seq<JobId>, page: seq<Line>, ended: bool)
    requires WellEnded(page, ended)
    requires ids != [] && forall line | line in page :: WellPrinted(ids, line)
    ensures var r := GetSlurmJobStates(ids, Some(PageText(page, ended)));
      if forall id | id in ids :: Printed(page, id) then r.States? else r.NoRecord?
    ensures var r := GetSlurmJobStates(ids, Some(PageText(page, ended)));
      r.States? ==> |r.infos| == |ids| && forall i | 0 <= i < |ids| ::
        r.infos[i].job == ids[i] && EndsPrinted(page, ids[i], r.infos[i].state)
  {
    var lines := SplitLines(PageText(page, ended));
    RowsOfPage(ids, page, ended);
    assert GetSlurmJobStates(ids, Some(PageText(page, ended))) == ReadStates(ids, lines);
    ReadStatesIff(ids, lines);
    PageOutcome(ids, lines, page);
    var r := ReadStates(ids, lines);
    if r.States? {
      forall i | 0 <= i < |ids|
        ensures EndsPrinted(page, ids[i], r.infos[i].state)
      {
        EndsIffPrinted(page, ids[i], r.infos[i].state);
      }
    }
  }

  lemma PageOutcome(ids: seq<JobId>, lines: seq<string>, page: seq<Line>)
    requires Rows(ids, lines) == PageRows(page)
    ensures if forall id | id in ids :: Printed(page, id) then ReadStates(ids, lines).States? else ReadStates(ids, lines).NoRecord?
  {
    ScanMeaning(PageRows(page));
    forall id | id in ids
      ensures Mentioned(PageRows(page), id) <==> Printed(page, id)
    {
      MentionedIffPrinted(page, id);
    }
  }
}

/**
 * Record reconstruction in the web app: the csv.reader fallback of get_jobs
 * (a header row mapped by column name, or a row-length heuristic for files
 * without a usable header), the mixed-shape posted.csv reader, the id repair
 * of normalize_posted_ids, and the id resolution of the HR dashboard.
 *
 * A CSV file is its list of rows, each a list of cells, as csv.reader yields
 * them; reading and writing the files is not part of this model.
 */
module JobRecords {
  import opened Wrappers
  import opened Text
  import opened Sorting

  /** One job as get_jobs returns it (the `skills` cell is kept as text). */
  datatype Job = Job(id: int, title: string, description: string, skills: string,
                     deadline: string, applyUrl: string, hrId: string)

  /** The columns get_jobs looks for, in its own order. */
  const Required: seq<string> := ["title", "description", "skills", "deadline", "apply_url", "hr_id"]

  /** `not row or all(part.strip() == '' for part in row)`. */
  predicate Blank(row: seq<string>) {
    forall k :: 0 <= k < |row| ==> Strip(row[k]) == ""
  }

  /** A header cell as get_jobs compares it: h.strip().lower(). */
  function NormalCell(h: string): string {
    Lower(Strip(h))
  }

  // ------------------------------------------------------------ get_jobs fallback

  /** header.index(name) if name in header else None. */
  function IndexOf(h: seq<string>, name: string): (r: Option<int>)
    ensures r.None? <==> name !in h
    ensures r.Some? ==> 0 <= r.value < |h| && h[r.value] == name && name !in h[..r.value]
  {
    if h == [] then None
    else if h[0] == name then Some(0)
    else
      var j := IndexOf(h[1..], name);
      if j.Some? then
        assert h[..j.value + 1] == [h[0]] + h[1..][..j.value];
        Some(j.value + 1)
      else None
  }

  /**
   * any(idx.values()): some required column was found at a position other
   * than 0 (a column found at position 0 has a falsy index).
   */
  predicate HeaderMode(header: seq<string>) {
    exists i :: 0 <= i < |Required| && IndexOf(header, Required[i]).Some? && IndexOf(header, Required[i]).value != 0
  }

  /** get_cell(row, name): the stripped cell under the first column of that name, or ''. */
  function GetCell(row: seq<string>, header: seq<string>, name: string): (c: string)
    ensures Strip(c) == c
    ensures name !in header ==> c == ""
    ensures name in header && IndexOf(header, name).value >= |row| ==> c == ""
    ensures c != "" ==> exists k :: 0 <= k < |row| && k < |header| && header[k] == name && name !in header[..k] && c == Strip(row[k])
  {
    var j := IndexOf(header, name);
    if j.Some? && j.value < |row| then
      StripIdempotent(row[j.value]);
      Strip(row[j.value])
    else ""
  }

  /** The record of a data row in header mode. */
  function HeaderJob(row: seq<string>, header: seq<string>, id: int): Job {
    Job(id, GetCell(row, header, "title"), GetCell(row, header, "description"), GetCell(row, header, "skills"),
        GetCell(row, header, "deadline"), GetCell(row, header, "apply_url"), GetCell(row, header, "hr_id"))
  }

  /** ','.join(c.strip() for c in cells): the description cells glued back together. */
  function Glue(cells: seq<string>): string {
    Join(",", MapSeq(cells, Strip))
  }

  /**
   * The row-length heuristic: the trailing cells are (skills, deadline,
   * apply_url, hr_id) for six or more cells, (skills, deadline, apply_url) for
   * five and (skills, deadline) for four; the first cell is the title and the
   * cells in between are the description.  Shorter rows give nothing.
   */
  function HeuristicJob(row: seq<string>, id: int): (r: Option<Job>)
    ensures r.Some? <==> |row| >= 4
    ensures r.Some? ==> r.value.id == id && r.value.title == Strip(row[0])
  {
    var n := |row|;
    if n >= 6 then
      Some(Job(id, Strip(row[0]), Glue(row[1..n - 4]), Strip(row[n - 4]), Strip(row[n - 3]), Strip(row[n - 2]), Strip(row[n - 1])))
    else if n == 5 then
      Some(Job(id, Strip(row[0]), Glue(row[1..n - 3]), Strip(row[n - 3]), Strip(row[n - 2]), Strip(row[n - 1]), ""))
    else if n == 4 then
      Some(Job(id, Strip(row[0]), Glue(row[1..n - 2]), Strip(row[n - 2]), Strip(row[n - 1]), "", ""))
    else None
  }

  /** What one data row contributes, given the number of jobs emitted before it. */
  function RowJob(row: seq<string>, header: seq<string>, id: int): Option<Job> {
    if Blank(row) then None
    else if HeaderMode(header) then Some(HeaderJob(row, header, id))
    else HeuristicJob(row, id)
  }

  /** The records a row-by-row reader emits, each row numbered by the count emitted before it. */
  function JobsBy(rows: seq<seq<string>>, emit: (seq<string>, int) -> Option<Job>): (r: seq<Job>)
    ensures |r| <= |rows|
  {
    if rows == [] then []
    else
      var prev := JobsBy(rows[..|rows| - 1], emit);
      var j := emit(rows[|rows| - 1], |prev|);
      if j.Some? then prev + [j.value] else prev
  }

  /** RowJob under a fixed header, as a value a reader can be given. */
  function Emitter(header: seq<string>): (seq<string>, int) -> Option<Job> {
    (row, id) => RowJob(row, header, id)
  }

  /** The jobs of the data rows, numbered from 0 over the emitted rows. */
  function JobsFrom(header: seq<string>, rows: seq<seq<string>>): (r: seq<Job>)
    ensures |r| <= |rows|
  {
    JobsBy(rows, Emitter(header))
  }

  /** The fallback reader: the first row is always taken as the header. */
  function ReadJobs(csv: seq<seq<string>>): seq<Job> {
    if csv == [] then [] else JobsFrom(MapSeq(csv[0], NormalCell), csv[1..])
  }

  lemma JobsByStep(rows: seq<seq<string>>, emit: (seq<string>, int) -> Option<Job>, k: int)
    requires 0 <= k < |rows|
    ensures var prev := JobsBy(rows[..k], emit);
            var j := emit(rows[k], |prev|);
            JobsBy(rows[..k + 1], emit) == if j.Some? then prev + [j.value] else prev
  {
    var p := rows[..k + 1];
    assert p[..|p| - 1] == rows[..k];
    assert p[|p| - 1] == rows[k];
  }

  lemma JobsFromStep(header: seq<string>, rows: seq<seq<string>>, k: int, j: Option<Job>)
    requires 0 <= k < |rows|
    requires j == RowJob(rows[k], header, |JobsFrom(header, rows[..k])|)
    ensures JobsFrom(header, rows[..k + 1]) == if j.Some? then JobsFrom(header, rows[..k]) + [j.value] else JobsFrom(header, rows[..k])
  {
    JobsByStep(rows, Emitter(header), k);
  }

  /** The fallback loop of get_jobs, with its running id counter. */
  method GetJobsFallback(csv: seq<seq<string>>) returns (jobs: seq<Job>)
    ensures jobs == ReadJobs(csv)
  {
    jobs := [];
    if csv == [] {
      return;
    }
    var header := MapSeq(csv[0], NormalCell);
    var rows := csv[1..];
    var i := 0;
    for k := 0 to |rows|
      invariant jobs == JobsFrom(header, rows[..k])
      invariant i == |jobs|
    {
      var row := rows[k];
      if Blank(row) {
        JobsFromStep(header, rows, k, None);
        continue;
      }
      if HeaderMode(header) {
        JobsFromStep(header, rows, k, Some(HeaderJob(row, header, i)));
        jobs := jobs + [HeaderJob(row, header, i)];
        i := i + 1;
        continue;
      }
      var j := HeuristicJob(row, i);
      JobsFromStep(header, rows, k, j);
      if j.None? {
        continue;
      }
      jobs := jobs + [j.value];
      i := i + 1;
    }
    assert rows[..|rows|] == rows;
  }

  lemma JobsBySnoc(rows: seq<seq<string>>, row: seq<string>, emit: (seq<string>, int) -> Option<Job>)
    ensures var prev := JobsBy(rows, emit);
            var j := emit(row, |prev|);
            JobsBy(rows + [row], emit) == if j.Some? then prev + [j.value] else prev
  {
    assert (rows + [row])[..|rows|] == rows;
  }

  /** A reader whose emitter stamps the id it is given numbers its records 0, 1, 2, ... */
  lemma {:induction false} JobsByIds(rows: seq<seq<string>>, emit: (seq<string>, int) -> Option<Job>)
    requires forall row, id :: emit(row, id).Some? ==> emit(row, id).value.id == id
    ensures forall k :: 0 <= k < |JobsBy(rows, emit)| ==> JobsBy(rows, emit)[k].id == k
  {
    if rows != [] {
      JobsByIds(rows[..|rows| - 1], emit);
    }
  }

  /** Ids run 0, 1, 2, ... over the emitted rows only. */
  lemma JobIdsConsecutive(header: seq<string>, rows: seq<seq<string>>)
    ensures forall k :: 0 <= k < |JobsFrom(header, rows)| ==> JobsFrom(header, rows)[k].id == k
  {
    var emit := Emitter(header);
    forall row, id | emit(row, id).Some? ensures emit(row, id).value.id == id {
      assert emit(row, id) == RowJob(row, header, id);
    }
    JobsByIds(rows, emit);
  }

  /** A blank row adds nothing and shifts no id. */
  lemma BlankRowSkipped(header: seq<string>, rows: seq<seq<string>>, blank: seq<string>)
    requires Blank(blank)
    ensures JobsFrom(header, rows + [blank]) == JobsFrom(header, rows)
  {
    JobsBySnoc(rows, blank, Emitter(header));
    assert Emitter(header)(blank, |JobsFrom(header, rows)|) == None;
  }

  /** In header mode every non-blank row gives a job whose cells come from the named columns. */
  lemma HeaderModeRow(header: seq<string>, rows: seq<seq<string>>, row: seq<string>)
    requires HeaderMode(header) && !Blank(row)
    ensures JobsFrom(header, rows + [row]) == JobsFrom(header, rows) + [HeaderJob(row, header, |JobsFrom(header, rows)|)]
  {
    JobsBySnoc(rows, row, Emitter(header));
    EmitHeaderJob(header, row, |JobsFrom(header, rows)|);
  }

  lemma EmitHeaderJob(header: seq<string>, row: seq<string>, id: int)
    requires HeaderMode(header) && !Blank(row)
    ensures Emitter(header)(row, id) == Some(HeaderJob(row, header, id))
  {
    assert Emitter(header)(row, id) == RowJob(row, header, id);
  }

  /** A header whose only known column is the first one does not switch header mode on. */
  lemma FirstColumnOnlyIsHeuristic(header: seq<string>)
    requires forall k :: 1 <= k < |header| ==> header[k] !in Required
    ensures !HeaderMode(header)
  {
    forall i | 0 <= i < |Required| && IndexOf(header, Required[i]).Some?
      ensures IndexOf(header, Required[i]).value == 0
    {
      var j := IndexOf(header, Required[i]).value;
      assert header[j] == Required[i] && Required[i] in Required;
    }
  }

  /** A required column anywhere after position 0 (and not also at 0) switches header mode on. */
  lemma LaterColumnIsHeaderMode(header: seq<string>, k: int)
    requires 1 <= k < |header| && header[k] in Required && header[k] != header[0]
    ensures HeaderMode(header)
  {
    var i :| 0 <= i < |Required| && Required[i] == header[k];
    var j := IndexOf(header, Required[i]);
    assert j.Some? && j.value != 0;
  }

  /**
   * An unquoted description whose commas split it over several cells is glued
   * back when its pieces carry no surrounding whitespace.
   */
  lemma HeuristicRecoversDescription(title: string, desc: string, skills: string, deadline: string,
                                     url: string, hr: string, id: int)
    requires forall i :: 0 <= i < |Split(desc, ',')| ==> Strip(Split(desc, ',')[i]) == Split(desc, ',')[i]
    ensures var row := [title] + Split(desc, ',') + [skills, deadline, url, hr];
            HeuristicJob(row, id) == Some(Job(id, Strip(title), desc, Strip(skills), Strip(deadline), Strip(url), Strip(hr)))
  {
    var pieces := Split(desc, ',');
    var row := [title] + pieces + [skills, deadline, url, hr];
    var n := |row|;
    assert row[1..n - 4] == pieces;
    assert MapSeq(pieces, Strip) == pieces;
    JoinSplit(desc, ',');
    assert Glue(pieces) == desc;
    assert row[n - 4] == skills && row[n - 3] == deadline && row[n - 2] == url && row[n - 1] == hr;
  }

  // ------------------------------------------------------------ get_posted_jobs

  /** One posted.csv record. */
  datatype Posted = Posted(hrId: string, jobId: int, title: string, description: string, skills: string, deadline: string)

  /** A first row is a header when, stripped and lower-cased, it names hr_id, job_id and title. */
  predicate LooksLikeHeader(h: seq<string>) {
    var maybe := MapSeq(h, NormalCell);
    h != [] && "hr_id" in maybe && "job_id" in maybe && "title" in maybe
  }

  /**
   * One data row: six or more cells are (hr_id, job_id, title, description,
   * skills, deadline), four or five the legacy (hr_id, job_id, title,
   * deadline); rows of another HR, blank or short rows and rows whose job id
   * is not an integer are dropped.
   */
  function PostedRow(row: seq<string>, hrFilter: Option<string>): (r: Option<Posted>)
  {
    if Blank(row) || |row| < 4 then None
    else if hrFilter.Some? && Strip(row[0]) != hrFilter.value then None
    else
      var jid := ParseInt(row[1]);
      if jid.None? then None
      else if |row| >= 6 then Some(Posted(Strip(row[0]), jid.value, row[2], row[3], row[4], row[5]))
      else Some(Posted(Strip(row[0]), jid.value, row[2], "", "", row[3]))
  }

  /** What a kept row becomes, and which rows are kept. */
  lemma PostedRowShape(row: seq<string>, hrFilter: Option<string>)
    ensures var r := PostedRow(row, hrFilter);
            r.Some? ==> !Blank(row) && |row| >= 4 && ParseInt(row[1]) == Some(r.value.jobId)
                        && r.value.hrId == Strip(row[0]) && r.value.title == row[2]
    ensures var r := PostedRow(row, hrFilter);
            r.Some? && hrFilter.Some? ==> r.value.hrId == hrFilter.value
    ensures var r := PostedRow(row, hrFilter);
            r.Some? && |row| >= 6 ==> r.value.description == row[3] && r.value.skills == row[4] && r.value.deadline == row[5]
    ensures var r := PostedRow(row, hrFilter);
            r.Some? && |row| < 6 ==> r.value.description == "" && r.value.skills == "" && r.value.deadline == row[3]
    ensures !Blank(row) && |row| >= 4 && (hrFilter.None? || Strip(row[0]) == hrFilter.value) && ParseInt(row[1]).Some? ==>
              PostedRow(row, hrFilter).Some?
  {
  }

  /** The values a row reader keeps, in row order: a loop that appends only what it could read. */
  function KeptBy<T>(rows: seq<seq<string>>, read: seq<string> -> Option<T>): (r: seq<T>)
    ensures |r| <= |rows|
  {
    if rows == [] then []
    else
      var prev := KeptBy(rows[..|rows| - 1], read);
      var p := read(rows[|rows| - 1]);
      if p.Some? then prev + [p.value] else prev
  }

  lemma KeptByStep<T>(rows: seq<seq<string>>, read: seq<string> -> Option<T>, k: int)
    requires 0 <= k < |rows|
    ensures KeptBy(rows[..k + 1], read) == KeptBy(rows[..k], read) + (if read(rows[k]).Some? then [read(rows[k]).value] else [])
  {
    var p := rows[..k + 1];
    assert p[..|p| - 1] == rows[..k];
    assert p[|p| - 1] == rows[k];
  }

  /** Every kept value was read from some row. */
  lemma {:induction false} KeptByFrom<T>(rows: seq<seq<string>>, read: seq<string> -> Option<T>, k: int) returns (j: int)
    requires 0 <= k < |KeptBy(rows, read)|
    ensures 0 <= j < |rows| && read(rows[j]) == Some(KeptBy(rows, read)[k])
  {
    var prefix := rows[..|rows| - 1];
    if k < |KeptBy(prefix, read)| {
      j := KeptByFrom(prefix, read, k);
      assert rows[j] == prefix[j];
    } else {
      j := |rows| - 1;
    }
  }

  /** PostedRow under a fixed HR filter, as a value a reader can be given. */
  function PostedReader(hrFilter: Option<string>): seq<string> -> Option<Posted> {
    row => PostedRow(row, hrFilter)
  }

  function PostedRecords(rows: seq<seq<string>>, hrFilter: Option<string>): (r: seq<Posted>)
    ensures |r| <= |rows|
  {
    KeptBy(rows, PostedReader(hrFilter))
  }

  /** get_posted_jobs(hr_id): the first row is skipped only when it looks like a header. */
  function ReadPosted(csv: seq<seq<string>>, hrFilter: Option<string>): seq<Posted> {
    if csv != [] && LooksLikeHeader(csv[0]) then PostedRecords(csv[1..], hrFilter) else PostedRecords(csv, hrFilter)
  }

  /** The reading loop of get_posted_jobs. */
  method GetPostedJobs(csv: seq<seq<string>>, hrFilter: Option<string>) returns (rows: seq<Posted>)
    ensures rows == ReadPosted(csv, hrFilter)
  {
    var data := csv;
    if csv != [] && LooksLikeHeader(csv[0]) {
      data := csv[1..];
    }
    rows := ReadRows(data, hrFilter);
  }

  /** The loop over the data rows of posted.csv. */
  method ReadRows(data: seq<seq<string>>, hrFilter: Option<string>) returns (rows: seq<Posted>)
    ensures rows == PostedRecords(data, hrFilter)
  {
    rows := [];
    for k := 0 to |data|
      invariant rows == PostedRecords(data[..k], hrFilter)
    {
      KeptByStep(data, PostedReader(hrFilter), k);
      var p := PostedRow(data[k], hrFilter);
      assert PostedReader(hrFilter)(data[k]) == p;
      if p.Some? {
        rows := rows + [p.value];
      }
    }
    assert data[..|data|] == data;
  }

  /** A record's hr id is stripped, and is the filtered HR's id when a filter is given. */
  predicate HrKept(p: Posted, hrFilter: Option<string>) {
    Strip(p.hrId) == p.hrId && (hrFilter.Some? ==> p.hrId == hrFilter.value)
  }

  /** Every record get_posted_jobs returns satisfies HrKept. */
  lemma PostedRecordsHr(rows: seq<seq<string>>, hrFilter: Option<string>, k: int)
    requires 0 <= k < |PostedRecords(rows, hrFilter)|
    ensures HrKept(PostedRecords(rows, hrFilter)[k], hrFilter)
  {
    var j := KeptByFrom(rows, PostedReader(hrFilter), k);
    PostedRowShape(rows[j], hrFilter);
    StripIdempotent(rows[j][0]);
  }

  /** The six cells a posted record is written as. */
  function PostedCells(p: Posted): (r: seq<string>)
    ensures |r| == 6 && r[0] == p.hrId && r[1] == IntToString(p.jobId)
  {
    [p.hrId, IntToString(p.jobId), p.title, p.description, p.skills, p.deadline]
  }

  /** A record with a stripped hr id, written as six cells, reads back unchanged, unfiltered or under its own HR. */
  lemma PostedRoundTrip(p: Posted, hrFilter: Option<string>)
    requires Strip(p.hrId) == p.hrId
    requires hrFilter.None? || hrFilter.value == p.hrId
    ensures PostedRow(PostedCells(p), hrFilter) == Some(p)
  {
    var row := PostedCells(p);
    IdCell(p.jobId);
    NotBlankAt(row, 1);
    PostedRowSix(row, hrFilter);
  }

  /** A written job id parses back and is not blank. */
  lemma IdCell(jobId: int)
    ensures ParseInt(IntToString(jobId)) == Some(jobId) && Strip(IntToString(jobId)) != ""
  {
    var id := IntToString(jobId);
    IntToStringRoundTrip(jobId);
    IntToStringNoSpace(jobId);
    StripNoSpace(id);
  }

  /** One non-blank cell makes the row non-blank. */
  lemma NotBlankAt(row: seq<string>, k: int)
    requires 0 <= k < |row| && Strip(row[k]) != ""
    ensures !Blank(row)
  {
  }

  /** A non-blank six-cell row with a numeric job id, under a filter it passes, is read cell by cell. */
  lemma PostedRowSix(row: seq<string>, hrFilter: Option<string>)
    requires !Blank(row) && |row| == 6 && ParseInt(row[1]).Some?
    requires hrFilter.None? || Strip(row[0]) == hrFilter.value
    ensures PostedRow(row, hrFilter) == Some(Posted(Strip(row[0]), ParseInt(row[1]).value, row[2], row[3], row[4], row[5]))
  {
  }

  // ------------------------------------------------------------ job indexes

  /**
   * {int(j['id']): j for j in jobs}: the last job with an id wins; with
   * `digitsOnly`, only ids whose text is all digits (the non-negative ones).
   */
  function IdIndex(jobs: seq<Job>, digitsOnly: bool): map<int, Job> {
    if jobs == [] then map[]
    else
      var m := IdIndex(jobs[..|jobs| - 1], digitsOnly);
      var j := jobs[|jobs| - 1];
      if !digitsOnly || j.id >= 0 then m[j.id := j] else m
  }

  /** title_to_ids: stripped non-empty title -> ids in file order. */
  function TitleIndex(jobs: seq<Job>): map<string, seq<int>> {
    if jobs == [] then map[]
    else
      TitleStep(TitleIndex(jobs[..|jobs| - 1]), jobs[|jobs| - 1])
  }

  /** title_to_ids.setdefault(title, []).append(id) for one job with a non-empty title. */
  function TitleStep(m: map<string, seq<int>>, j: Job): map<string, seq<int>> {
    var t := Strip(j.title);
    if t != "" then m[t := (if t in m then m[t] else []) + [j.id]] else m
  }

  lemma TitleIndexStep(jobs: seq<Job>, i: int)
    requires 0 <= i < |jobs|
    ensures TitleIndex(jobs[..i + 1]) == TitleStep(TitleIndex(jobs[..i]), jobs[i])
  {
    var p := jobs[..i + 1];
    assert p[..|p| - 1] == jobs[..i];
    assert p[|p| - 1] == jobs[i];
  }

  /** The key of title_hr_to_ids. */
  datatype HrTitle = HrTitle(hr: string, title: string)

  /** title_hr_to_ids: (stripped hr id, stripped non-empty title) -> ids in file order. */
  function TitleHrIndex(jobs: seq<Job>): map<HrTitle, seq<int>> {
    if jobs == [] then map[] else HrTitleStep(TitleHrIndex(jobs[..|jobs| - 1]), jobs[|jobs| - 1])
  }

  lemma TitleHrIndexStep(jobs: seq<Job>, i: int)
    requires 0 <= i < |jobs|
    ensures TitleHrIndex(jobs[..i + 1]) == HrTitleStep(TitleHrIndex(jobs[..i]), jobs[i])
  {
    var p := jobs[..i + 1];
    assert p[..|p| - 1] == jobs[..i];
    assert p[|p| - 1] == jobs[i];
  }

  /** title_hr_to_ids.setdefault((h, title), []).append(id) for one job with a non-empty title. */
  function HrTitleStep(m: map<HrTitle, seq<int>>, j: Job): map<HrTitle, seq<int>> {
    var key := HrTitle(Strip(j.hrId), Strip(j.title));
    if key.title != "" then m[key := (if key in m then m[key] else []) + [j.id]] else m
  }

  /** The ids of the jobs whose stripped title is t, in file order. */
  function IdsWithTitle(jobs: seq<Job>, t: string): seq<int> {
    if jobs == [] then []
    else IdsWithTitle(jobs[..|jobs| - 1], t) + (if Strip(jobs[|jobs| - 1].title) == t then [jobs[|jobs| - 1].id] else [])
  }

  /** The ids of the jobs of HR hr whose stripped title is t, in file order. */
  function IdsWithHrTitle(jobs: seq<Job>, hr: string, t: string): seq<int> {
    if jobs == [] then []
    else
      var j := jobs[|jobs| - 1];
      IdsWithHrTitle(jobs[..|jobs| - 1], hr, t) + (if Strip(j.hrId) == hr && Strip(j.title) == t then [j.id] else [])
  }

  /** Looking a title up in the index, with [] for a miss, lists exactly the jobs of that title. */
  lemma {:induction false} TitleIndexLookup(jobs: seq<Job>, t: string)
    requires t != ""
    ensures (if t in TitleIndex(jobs) then TitleIndex(jobs)[t] else []) == IdsWithTitle(jobs, t)
    ensures t in TitleIndex(jobs) ==> TitleIndex(jobs)[t] != []
  {
    if jobs != [] {
      var prefix := jobs[..|jobs| - 1];
      TitleIndexLookup(prefix, t);
      TitleStepLookup(TitleIndex(prefix), jobs[|jobs| - 1], t);
    }
  }

  lemma TitleStepLookup(m: map<string, seq<int>>, j: Job, t: string)
    requires t != ""
    ensures var m' := TitleStep(m, j);
            (if t in m' then m'[t] else []) == (if t in m then m[t] else []) + (if Strip(j.title) == t then [j.id] else [])
    ensures var m' := TitleStep(m, j);
            t in m ==> t in m' && m'[t][..|m[t]|] == m[t]
    ensures var m' := TitleStep(m, j);
            t in m' && t !in m ==> m'[t] == [j.id]
  {
  }

  lemma {:induction false} TitleIndexNoBlank(jobs: seq<Job>)
    ensures "" !in TitleIndex(jobs)
  {
    if jobs != [] {
      TitleIndexNoBlank(jobs[..|jobs| - 1]);
    }
  }

  /** One setdefault-append step, seen from a single key. */
  lemma HrTitleStepLookup(m: map<HrTitle, seq<int>>, j: Job, hr: string, t: string)
    requires t != ""
    ensures var m' := HrTitleStep(m, j);
            var key := HrTitle(hr, t);
            (if key in m' then m'[key] else [])
            == (if key in m then m[key] else []) + (if Strip(j.hrId) == hr && Strip(j.title) == t then [j.id] else [])
    ensures var m' := HrTitleStep(m, j);
            var key := HrTitle(hr, t);
            key in m' && key !in m ==> m'[key] == [j.id]
    ensures var m' := HrTitleStep(m, j);
            var key := HrTitle(hr, t);
            key in m ==> key in m' && m'[key][..|m[key]|] == m[key]
  {
  }

  lemma {:induction false} TitleHrIndexLookup(jobs: seq<Job>, hr: string, t: string)
    requires t != ""
    ensures (HrTitle(hr, t) in TitleHrIndex(jobs) ==> TitleHrIndex(jobs)[HrTitle(hr, t)] != [])
    ensures (if HrTitle(hr, t) in TitleHrIndex(jobs) then TitleHrIndex(jobs)[HrTitle(hr, t)] else []) == IdsWithHrTitle(jobs, hr, t)
  {
    if jobs != [] {
      var prefix := jobs[..|jobs| - 1];
      var j := jobs[|jobs| - 1];
      TitleHrIndexLookup(prefix, hr, t);
      HrTitleStepLookup(TitleHrIndex(prefix), j, hr, t);
    }
  }

  lemma {:induction false} TitleHrIndexNoBlank(jobs: seq<Job>, hr: string)
    ensures HrTitle(hr, "") !in TitleHrIndex(jobs)
  {
    if jobs != [] {
      TitleHrIndexNoBlank(jobs[..|jobs| - 1], hr);
    }
  }

  /** Every indexed job sits under its own id (non-negative when only digit ids are kept). */
  lemma {:induction false} IdIndexSound(jobs: seq<Job>, digitsOnly: bool, k: int)
    requires k in IdIndex(jobs, digitsOnly)
    ensures IdIndex(jobs, digitsOnly)[k].id == k && IdIndex(jobs, digitsOnly)[k] in jobs
    ensures digitsOnly ==> k >= 0
  {
    var m := IdIndex(jobs[..|jobs| - 1], digitsOnly);
    if k in m && IdIndex(jobs, digitsOnly)[k] == m[k] {
      IdIndexSound(jobs[..|jobs| - 1], digitsOnly, k);
      assert m[k] in jobs[..|jobs| - 1];
    }
  }

  /** The id map of normalize_posted_ids and the HR dashboard. */
  method BuildIdIndex(jobs: seq<Job>, digitsOnly: bool) returns (byId: map<int, Job>)
    ensures byId == IdIndex(jobs, digitsOnly)
  {
    byId := map[];
    for i := 0 to |jobs|
      invariant byId == IdIndex(jobs[..i], digitsOnly)
    {
      assert jobs[..i + 1][..i] == jobs[..i];
      var j := jobs[i];
      if !digitsOnly || j.id >= 0 {
        byId := byId[j.id := j];
      }
    }
    assert jobs[..|jobs|] == jobs;
  }

  /** The setdefault(...).append loop that builds title_to_ids. */
  method BuildTitleIndex(jobs: seq<Job>) returns (byTitle: map<string, seq<int>>)
    ensures byTitle == TitleIndex(jobs)
  {
    byTitle := map[];
    for i := 0 to |jobs|
      invariant byTitle == TitleIndex(jobs[..i])
    {
      TitleIndexStep(jobs, i);
      var title := Strip(jobs[i].title);
      if title != "" {
        byTitle := byTitle[title := (if title in byTitle then byTitle[title] else []) + [jobs[i].id]];
      }
    }
    assert jobs[..|jobs|] == jobs;
  }

  /** The setdefault(...).append loop that builds title_hr_to_ids. */
  method BuildTitleHrIndex(jobs: seq<Job>) returns (byTitleHr: map<HrTitle, seq<int>>)
    ensures byTitleHr == TitleHrIndex(jobs)
  {
    byTitleHr := map[];
    for i := 0 to |jobs|
      invariant byTitleHr == TitleHrIndex(jobs[..i])
    {
      TitleHrIndexStep(jobs, i);
      var j := jobs[i];
      var key := HrTitle(Strip(j.hrId), Strip(j.title));
      if key.title != "" {
        byTitleHr := byTitleHr[key := (if key in byTitleHr then byTitleHr[key] else []) + [j.id]];
      }
    }
    assert jobs[..|jobs|] == jobs;
  }

  // ------------------------------------------------------------ normalize_posted_ids

  /** `title_hr_to_ids.get((hr, title)) or title_to_ids.get(title) or []`. */
  function Candidates(hr: string, title: string, byTitle: map<string, seq<int>>,
                      byTitleHr: map<HrTitle, seq<int>>): seq<int> {
    if HrTitle(hr, title) in byTitleHr && byTitleHr[HrTitle(hr, title)] != [] then byTitleHr[HrTitle(hr, title)]
    else if title in byTitle && byTitle[title] != [] then byTitle[title]
    else []
  }

  /** A posted value if it is non-blank (stripped), else the job's value, else ''. */
  function Fill(posted: string, job: Option<Job>, jobValue: Job -> string): string {
    if Strip(posted) != "" then Strip(posted) else if job.Some? then jobValue(job.value) else ""
  }

  function JobDescription(j: Job): string { j.description }
  function JobSkills(j: Job): string { j.skills }
  function JobDeadline(j: Job): string { j.deadline }
  function JobTitle(j: Job): string { j.title }

  datatype Normalised = Normalised(row: Posted, changed: bool)

  /** One iteration of the repair loop: the repaired row and whether its id was replaced. */
  function NormalizeRow(r: Posted, byId: map<int, Job>, byTitle: map<string, seq<int>>,
                        byTitleHr: map<HrTitle, seq<int>>): Normalised
  {
    var res := ResolveId(r, byId, byTitle, byTitleHr);
    var jid := res.jid;
    var title := Strip(r.title);
    var job := if jid in byId then Some(byId[jid]) else None;
    var titleOut := if title != "" then title else if job.Some? then job.value.title else "";
    var idOut := if jid >= 0 then jid else if job.Some? then job.value.id else -1;
    Normalised(Posted(Strip(r.hrId), idOut, titleOut, Fill(r.description, job, JobDescription),
                      Fill(r.skills, job, JobSkills), Fill(r.deadline, job, JobDeadline)),
               res.replaced)
  }

  /** The id a posted row ends up with, and whether it was replaced. */
  datatype Resolution = Resolution(jid: int, replaced: bool)

  /** A listed id stays; an unknown one is replaced when exactly one candidate exists. */
  function ResolveId(r: Posted, byId: map<int, Job>, byTitle: map<string, seq<int>>,
                     byTitleHr: map<HrTitle, seq<int>>): Resolution
  {
    var cand := if r.jobId in byId then [] else Candidates(Strip(r.hrId), Strip(r.title), byTitle, byTitleHr);
    if r.jobId !in byId && |cand| == 1 then Resolution(cand[0], true) else Resolution(r.jobId, false)
  }

  /** The rows a loop appends when it rewrites every row with fix, in order. */
  function RowsBy<U>(posted: seq<Posted>, fix: Posted -> U): (r: seq<U>)
    ensures |r| == |posted|
  {
    if posted == [] then [] else RowsBy(posted[..|posted| - 1], fix) + [fix(posted[|posted| - 1])]
  }

  lemma RowsByStep<U>(posted: seq<Posted>, fix: Posted -> U, k: int)
    requires 0 <= k < |posted|
    ensures RowsBy(posted[..k + 1], fix) == RowsBy(posted[..k], fix) + [fix(posted[k])]
  {
    var p := posted[..k + 1];
    assert p[..|p| - 1] == posted[..k];
    assert p[|p| - 1] == posted[k];
  }

  /** Row k of the output is the rewrite of row k. */
  lemma {:induction false} RowsByAt<U>(posted: seq<Posted>, fix: Posted -> U, k: int)
    requires 0 <= k < |posted|
    ensures RowsBy(posted, fix)[k] == fix(posted[k])
  {
    var prefix := posted[..|posted| - 1];
    if k < |prefix| {
      RowsByAt(prefix, fix, k);
      assert posted[k] == prefix[k];
    }
  }

  /** NormalizeRow under fixed indexes, as a value the loop can be given. */
  function Repairer(byId: map<int, Job>, byTitle: map<string, seq<int>>, byTitleHr: map<HrTitle, seq<int>>): Posted -> Posted {
    r => NormalizeRow(r, byId, byTitle, byTitleHr).row
  }

  /** The rows the repair loop appends to `updated`, in order. */
  function RepairedRows(posted: seq<Posted>, byId: map<int, Job>, byTitle: map<string, seq<int>>,
                        byTitleHr: map<HrTitle, seq<int>>): (r: seq<Posted>)
    ensures |r| == |posted|
  {
    RowsBy(posted, Repairer(byId, byTitle, byTitleHr))
  }

  /** The final value of the loop's `changed` flag. */
  predicate AnyReplaced(posted: seq<Posted>, byId: map<int, Job>, byTitle: map<string, seq<int>>,
                        byTitleHr: map<HrTitle, seq<int>>) {
    posted != [] &&
    (AnyReplaced(posted[..|posted| - 1], byId, byTitle, byTitleHr) || ResolveId(posted[|posted| - 1], byId, byTitle, byTitleHr).replaced)
  }

  /**
   * normalize_posted_ids: the rows to write back to posted.csv, or None when
   * the file is left alone (no rows, or no id was replaced).
   */
  function Normalize(posted: seq<Posted>, jobs: seq<Job>): Option<seq<Posted>> {
    var byId, byTitle, byTitleHr := IdIndex(jobs, true), TitleIndex(jobs), TitleHrIndex(jobs);
    if posted != [] && AnyReplaced(posted, byId, byTitle, byTitleHr)
    then Some(RepairedRows(posted, byId, byTitle, byTitleHr)) else None
  }

  lemma RepairStep(posted: seq<Posted>, k: int, byId: map<int, Job>, byTitle: map<string, seq<int>>,
                   byTitleHr: map<HrTitle, seq<int>>)
    requires 0 <= k < |posted|
    ensures RepairedRows(posted[..k + 1], byId, byTitle, byTitleHr) ==
              RepairedRows(posted[..k], byId, byTitle, byTitleHr) + [NormalizeRow(posted[k], byId, byTitle, byTitleHr).row]
    ensures AnyReplaced(posted[..k + 1], byId, byTitle, byTitleHr) ==
              (AnyReplaced(posted[..k], byId, byTitle, byTitleHr) || ResolveId(posted[k], byId, byTitle, byTitleHr).replaced)
  {
    var fix := Repairer(byId, byTitle, byTitleHr);
    RowsByStep(posted, fix, k);
    assert fix(posted[k]) == NormalizeRow(posted[k], byId, byTitle, byTitleHr).row;
    AnyReplacedStep(posted, k, byId, byTitle, byTitleHr);
  }

  lemma AnyReplacedStep(posted: seq<Posted>, k: int, byId: map<int, Job>, byTitle: map<string, seq<int>>,
                        byTitleHr: map<HrTitle, seq<int>>)
    requires 0 <= k < |posted|
    ensures AnyReplaced(posted[..k + 1], byId, byTitle, byTitleHr) ==
              (AnyReplaced(posted[..k], byId, byTitle, byTitleHr) || ResolveId(posted[k], byId, byTitle, byTitleHr).replaced)
  {
    var p := posted[..k + 1];
    assert p[..|p| - 1] == posted[..k];
    assert p[|p| - 1] == posted[k];
  }

  /** The repair loop, with its `changed` flag. */
  method NormalizePostedIds(posted: seq<Posted>, jobs: seq<Job>) returns (rewrite: Option<seq<Posted>>)
    ensures rewrite == Normalize(posted, jobs)
  {
    if posted == [] {
      return None;
    }
    var byId := BuildIdIndex(jobs, true);
    var byTitle := BuildTitleIndex(jobs);
    var byTitleHr := BuildTitleHrIndex(jobs);
    var updated: seq<Posted> := [];
    var changed := false;
    for k := 0 to |posted|
      invariant updated == RepairedRows(posted[..k], byId, byTitle, byTitleHr)
      invariant changed == AnyReplaced(posted[..k], byId, byTitle, byTitleHr)
    {
      RepairStep(posted, k, byId, byTitle, byTitleHr);
      var n := NormalizeRow(posted[k], byId, byTitle, byTitleHr);
      updated := updated + [n.row];
      changed := changed || n.changed;
    }
    assert posted[..|posted|] == posted;
    if changed {
      rewrite := Some(updated);
    } else {
      rewrite := None;
    }
  }

  /** Row k of the rewrite is the repair of posted row k. */
  lemma RepairedRowsAt(posted: seq<Posted>, k: int, byId: map<int, Job>,
                       byTitle: map<string, seq<int>>, byTitleHr: map<HrTitle, seq<int>>)
    requires 0 <= k < |posted|
    ensures RepairedRows(posted, byId, byTitle, byTitleHr)[k] == NormalizeRow(posted[k], byId, byTitle, byTitleHr).row
  {
    RowsByAt(posted, Repairer(byId, byTitle, byTitleHr), k);
  }

  /** A set flag points at a row whose id was replaced. */
  lemma {:induction false} AnyReplacedWitness(posted: seq<Posted>, byId: map<int, Job>,
                                              byTitle: map<string, seq<int>>, byTitleHr: map<HrTitle, seq<int>>)
    returns (k: int)
    requires AnyReplaced(posted, byId, byTitle, byTitleHr)
    ensures 0 <= k < |posted| && ResolveId(posted[k], byId, byTitle, byTitleHr).replaced
  {
    var prefix := posted[..|posted| - 1];
    if AnyReplaced(prefix, byId, byTitle, byTitleHr) {
      k := AnyReplacedWitness(prefix, byId, byTitle, byTitleHr);
      assert posted[k] == prefix[k];
    } else {
      k := |posted| - 1;
    }
  }

  /** A row whose id was replaced sets the flag. */
  lemma {:induction false} AnyReplacedFrom(posted: seq<Posted>, k: int, byId: map<int, Job>,
                                           byTitle: map<string, seq<int>>, byTitleHr: map<HrTitle, seq<int>>)
    requires 0 <= k < |posted| && ResolveId(posted[k], byId, byTitle, byTitleHr).replaced
    ensures AnyReplaced(posted, byId, byTitle, byTitleHr)
  {
    var prefix := posted[..|posted| - 1];
    if k < |prefix| {
      assert posted[k] == prefix[k];
      AnyReplacedFrom(prefix, k, byId, byTitle, byTitleHr);
    }
  }

  /** The flag ends up set exactly when some row's id was replaced. */
  lemma AnyReplacedIff(posted: seq<Posted>, byId: map<int, Job>,
                       byTitle: map<string, seq<int>>, byTitleHr: map<HrTitle, seq<int>>)
    ensures AnyReplaced(posted, byId, byTitle, byTitleHr) <==>
              exists k :: 0 <= k < |posted| && ResolveId(posted[k], byId, byTitle, byTitleHr).replaced
  {
    if AnyReplaced(posted, byId, byTitle, byTitleHr) {
      var k := AnyReplacedWitness(posted, byId, byTitle, byTitleHr);
    }
    if exists k :: 0 <= k < |posted| && ResolveId(posted[k], byId, byTitle, byTitleHr).replaced {
      var k :| 0 <= k < |posted| && ResolveId(posted[k], byId, byTitle, byTitleHr).replaced;
      AnyReplacedFrom(posted, k, byId, byTitle, byTitleHr);
    }
  }

  /** The rewrite holds one repaired row per posted row, and happens exactly when some id was replaced. */
  lemma NormalizeShape(posted: seq<Posted>, jobs: seq<Job>)
    ensures var byId, byTitle, byTitleHr := IdIndex(jobs, true), TitleIndex(jobs), TitleHrIndex(jobs);
            Normalize(posted, jobs).Some? <==>
              exists k :: 0 <= k < |posted| && ResolveId(posted[k], byId, byTitle, byTitleHr).replaced
    ensures var byId, byTitle, byTitleHr := IdIndex(jobs, true), TitleIndex(jobs), TitleHrIndex(jobs);
            Normalize(posted, jobs).Some? ==>
              |Normalize(posted, jobs).value| == |posted| &&
              forall k :: 0 <= k < |posted| ==> Normalize(posted, jobs).value[k] == NormalizeRow(posted[k], byId, byTitle, byTitleHr).row
  {
    var byId, byTitle, byTitleHr := IdIndex(jobs, true), TitleIndex(jobs), TitleHrIndex(jobs);
    AnyReplacedIff(posted, byId, byTitle, byTitleHr);
    forall k | 0 <= k < |posted|
      ensures RepairedRows(posted, byId, byTitle, byTitleHr)[k] == NormalizeRow(posted[k], byId, byTitle, byTitleHr).row
    {
      RepairedRowsAt(posted, k, byId, byTitle, byTitleHr);
    }
  }

  /** A row whose id names a listed job keeps that id and does not count as a change. */
  lemma KnownIdKept(r: Posted, jobs: seq<Job>)
    requires r.jobId in IdIndex(jobs, true)
    ensures ResolveId(r, IdIndex(jobs, true), TitleIndex(jobs), TitleHrIndex(jobs)) == Resolution(r.jobId, false)
    ensures NormalizeRow(r, IdIndex(jobs, true), TitleIndex(jobs), TitleHrIndex(jobs)).row.jobId == r.jobId
  {
    IdIndexSound(jobs, true, r.jobId);
  }

  /** When every posted id names a listed job the file is not rewritten. */
  lemma AllKnownNoRewrite(posted: seq<Posted>, jobs: seq<Job>)
    requires forall k :: 0 <= k < |posted| ==> posted[k].jobId in IdIndex(jobs, true)
    ensures Normalize(posted, jobs) == None
  {
    forall k | 0 <= k < |posted|
      ensures !ResolveId(posted[k], IdIndex(jobs, true), TitleIndex(jobs), TitleHrIndex(jobs)).replaced
    {
      KnownIdKept(posted[k], jobs);
    }
    NormalizeShape(posted, jobs);
  }

  /**
   * An unknown id is replaced only when the (hr, title) pair, or failing that
   * the title alone, names exactly one job, and it is replaced by that job's id.
   */
  lemma ReplacedOnlyWhenUnique(r: Posted, jobs: seq<Job>)
    ensures var res := ResolveId(r, IdIndex(jobs, true), TitleIndex(jobs), TitleHrIndex(jobs));
            var hr, t := Strip(r.hrId), Strip(r.title);
            res.replaced <==> r.jobId !in IdIndex(jobs, true) && t != "" &&
                              (|IdsWithHrTitle(jobs, hr, t)| == 1 || (IdsWithHrTitle(jobs, hr, t) == [] && |IdsWithTitle(jobs, t)| == 1))
    ensures var res := ResolveId(r, IdIndex(jobs, true), TitleIndex(jobs), TitleHrIndex(jobs));
            var hr, t := Strip(r.hrId), Strip(r.title);
            res.replaced && |IdsWithHrTitle(jobs, hr, t)| == 1 ==> res.jid == IdsWithHrTitle(jobs, hr, t)[0]
    ensures var res := ResolveId(r, IdIndex(jobs, true), TitleIndex(jobs), TitleHrIndex(jobs));
            var hr, t := Strip(r.hrId), Strip(r.title);
            res.replaced && IdsWithHrTitle(jobs, hr, t) == [] ==> res.jid == IdsWithTitle(jobs, t)[0]
    ensures var res := ResolveId(r, IdIndex(jobs, true), TitleIndex(jobs), TitleHrIndex(jobs));
            !res.replaced ==> res.jid == r.jobId
  {
    var hr, t := Strip(r.hrId), Strip(r.title);
    if t == "" {
      TitleIndexNoBlank(jobs);
      TitleHrIndexNoBlank(jobs, hr);
    } else {
      TitleIndexLookup(jobs, t);
      TitleHrIndexLookup(jobs, hr, t);
    }
  }

  /**
   * The repaired row keeps every non-blank posted field (stripped) and the
   * posted title when it is not blank; a blank field takes the value of the
   * job the row resolves to.
   */
  lemma NormalizeKeepsPosted(r: Posted, jobs: seq<Job>)
    ensures var n := NormalizeRow(r, IdIndex(jobs, true), TitleIndex(jobs), TitleHrIndex(jobs)).row;
            (Strip(r.description) != "" ==> n.description == Strip(r.description))
            && (Strip(r.skills) != "" ==> n.skills == Strip(r.skills))
            && (Strip(r.deadline) != "" ==> n.deadline == Strip(r.deadline))
            && (Strip(r.title) != "" ==> n.title == Strip(r.title))
            && n.hrId == Strip(r.hrId)
    ensures var byId := IdIndex(jobs, true);
            var n := NormalizeRow(r, byId, TitleIndex(jobs), TitleHrIndex(jobs)).row;
            r.jobId in byId ==>
              (Strip(r.description) == "" ==> n.description == byId[r.jobId].description)
              && (Strip(r.skills) == "" ==> n.skills == byId[r.jobId].skills)
              && (Strip(r.deadline) == "" ==> n.deadline == byId[r.jobId].deadline)
              && (Strip(r.title) == "" ==> n.title == byId[r.jobId].title)
  {
  }

  // ------------------------------------------------------------ HR dashboard

  /** A row of the HR's job table: the listed job, or the posted row itself. */
  datatype HrJob =
    | Listed(job: Job)
    | Unlisted(id: int, title: string, skills: string, description: string, deadline: string)

  /** The id resolution of one posted row: by id, else by a title that names exactly one job. */
  function ResolveHrJob(p: Posted, byId: map<int, Job>, byTitle: map<string, seq<int>>): HrJob {
    if p.jobId in byId then Listed(byId[p.jobId])
    else
      var t := Strip(p.title);
      var cand := if t in byTitle then byTitle[t] else [];
      var jid := if |cand| == 1 then cand[0] else p.jobId;
      if jid in byId then Listed(byId[jid])
      else Unlisted(jid, p.title, p.skills, p.description, p.deadline)
  }

  /** The ids the dashboard collects: a listed job's id, or an unlisted non-negative id. */
  function PostedIds(hrJobs: seq<HrJob>): seq<int> {
    if hrJobs == [] then [] else PostedIds(hrJobs[..|hrJobs| - 1]) + IdsOf(hrJobs[|hrJobs| - 1])
  }

  /** The id one dashboard row contributes. */
  function IdsOf(h: HrJob): seq<int> {
    if h.Listed? then [h.job.id] else if h.id >= 0 then [h.id] else []
  }

  lemma PostedIdsSnoc(hs: seq<HrJob>, h: HrJob)
    ensures PostedIds(hs + [h]) == PostedIds(hs) + IdsOf(h)
  {
    assert (hs + [h])[..|hs|] == hs;
  }

  /** ResolveHrJob under fixed indexes, as a value the loop can be given. */
  function Resolver(byId: map<int, Job>, byTitle: map<string, seq<int>>): Posted -> HrJob {
    p => ResolveHrJob(p, byId, byTitle)
  }

  /** The rows the dashboard loop appends to hr_jobs, in order. */
  function HrTable(posted: seq<Posted>, byId: map<int, Job>, byTitle: map<string, seq<int>>): (r: seq<HrJob>)
    ensures |r| == |posted|
  {
    RowsBy(posted, Resolver(byId, byTitle))
  }

  lemma HrTableStep(posted: seq<Posted>, k: int, byId: map<int, Job>, byTitle: map<string, seq<int>>, h: HrJob)
    requires 0 <= k < |posted| && h == ResolveHrJob(posted[k], byId, byTitle)
    ensures HrTable(posted[..k + 1], byId, byTitle) == HrTable(posted[..k], byId, byTitle) + [h]
  {
    RowsByStep(posted, Resolver(byId, byTitle), k);
  }

  /** Row k of the table is the resolution of posted row k. */
  lemma HrTableAt(posted: seq<Posted>, k: int, byId: map<int, Job>, byTitle: map<string, seq<int>>)
    requires 0 <= k < |posted|
    ensures HrTable(posted, byId, byTitle)[k] == ResolveHrJob(posted[k], byId, byTitle)
  {
    RowsByAt(posted, Resolver(byId, byTitle), k);
  }

  /** The dashboard loop over the HR's posted rows. */
  method HrJobs(posted: seq<Posted>, jobs: seq<Job>) returns (hrJobs: seq<HrJob>, postedIds: seq<int>)
    ensures hrJobs == HrTable(posted, IdIndex(jobs, false), TitleIndex(jobs))
    ensures postedIds == PostedIds(hrJobs)
  {
    var byId := BuildIdIndex(jobs, false);
    var byTitle := BuildTitleIndex(jobs);
    hrJobs, postedIds := ResolveAll(posted, byId, byTitle);
  }

  /** The loop body of the dashboard: resolve, append, collect the id. */
  method ResolveAll(posted: seq<Posted>, byId: map<int, Job>, byTitle: map<string, seq<int>>)
    returns (hrJobs: seq<HrJob>, postedIds: seq<int>)
    ensures hrJobs == HrTable(posted, byId, byTitle)
    ensures postedIds == PostedIds(hrJobs)
  {
    hrJobs, postedIds := [], [];
    for k := 0 to |posted|
      invariant hrJobs == HrTable(posted[..k], byId, byTitle)
      invariant postedIds == PostedIds(hrJobs)
    {
      var h := ResolveHrJob(posted[k], byId, byTitle);
      HrTableStep(posted, k, byId, byTitle, h);
      PostedIdsSnoc(hrJobs, h);
      hrJobs := hrJobs + [h];
      postedIds := CollectId(postedIds, h);
    }
    assert posted[..|posted|] == posted;
  }

  /** posted_ids.append(...) for a listed job's id, or an unlisted non-negative id. */
  method CollectId(ids: seq<int>, h: HrJob) returns (ids': seq<int>)
    ensures ids' == ids + IdsOf(h)
    ensures h.Listed? ==> ids' == ids + [h.job.id]
    ensures h.Unlisted? && h.id < 0 ==> ids' == ids
  {
    ids' := ids;
    if h.Listed? {
      ids' := ids' + [h.job.id];
    } else if h.id >= 0 {
      ids' := ids' + [h.id];
    }
  }

  /** A row whose id is listed shows that job; otherwise a title held by exactly one job shows that job. */
  lemma HrResolution(p: Posted, jobs: seq<Job>)
    ensures p.jobId in IdIndex(jobs, false) ==> ResolveHrJob(p, IdIndex(jobs, false), TitleIndex(jobs)).Listed?
    ensures var r := ResolveHrJob(p, IdIndex(jobs, false), TitleIndex(jobs));
            var ids := IdsWithTitle(jobs, Strip(p.title));
            p.jobId !in IdIndex(jobs, false) && Strip(p.title) != "" && |ids| == 1 ==>
              r.Listed? && r.job.id == ids[0]
    ensures var r := ResolveHrJob(p, IdIndex(jobs, false), TitleIndex(jobs));
            p.jobId !in IdIndex(jobs, false) && (Strip(p.title) == "" || |IdsWithTitle(jobs, Strip(p.title))| != 1) ==>
              r == Unlisted(p.jobId, p.title, p.skills, p.description, p.deadline)
  {
    var t := Strip(p.title);
    if t == "" {
      TitleIndexNoBlank(jobs);
    } else {
      TitleIndexLookup(jobs, t);
      var ids := IdsWithTitle(jobs, t);
      if |ids| == 1 && p.jobId !in IdIndex(jobs, false) {
        IdsWithTitleListed(jobs, t, 0);
        IdIndexSound(jobs, false, ids[0]);
      }
    }
  }

  /** Every id listed under a title is the id of some job, so it is in the full id index. */
  lemma {:induction false} IdsWithTitleListed(jobs: seq<Job>, t: string, i: int)
    requires 0 <= i < |IdsWithTitle(jobs, t)|
    ensures IdsWithTitle(jobs, t)[i] in IdIndex(jobs, false)
  {
    var prefix := jobs[..|jobs| - 1];
    var j := jobs[|jobs| - 1];
    if i < |IdsWithTitle(prefix, t)| {
      IdsWithTitleListed(prefix, t, i);
    }
  }

  /** The dashboard's id list holds no negative id. */
  lemma {:induction false} PostedIdsNonNegative(hrJobs: seq<HrJob>)
    requires forall k :: 0 <= k < |hrJobs| ==> hrJobs[k].Listed? ==> hrJobs[k].job.id >= 0
    ensures forall k :: 0 <= k < |PostedIds(hrJobs)| ==> PostedIds(hrJobs)[k] >= 0
  {
    if hrJobs != [] {
      PostedIdsNonNegative(hrJobs[..|hrJobs| - 1]);
    }
  }
}

/**
 * The job list of the user dashboard.  One batch best_matches call over all
 * jobs gives a semantic score per job id; every job then gets a preliminary
 * score (the blend with the batch value when the job's id has one, else
 * composite_match); with USE_AI_MATCH the list is sorted by that score and
 * the first min(10, n) jobs are re-scored by the remote matcher, the rest
 * kept as they are.
 *
 * What the ranking engine's models return is `batch` for the batch call and
 * `single(job)` for composite_match's own call; the remote exchange for a
 * job is `exchange(job)` and json.loads is `parse`.
 */
module Dashboard {
  import opened Wrappers
  import opened Text
  import opened Sorting
  import opened Rag
  import opened Remote
  import opened JobMatcher
  import opened JobRecords
  import opened Scoring

  const RemoteLimit: int := 10

  // ------------------------------------------------------------ batch semantic scores

  /** (str(job['id']), f"{title} {description} {skills}") */
  function JobItem(job: Job): Item {
    Item(IntToString(job.id), JobText(job))
  }

  /** q = resume_text or ' '.join(resume_skills): the batch call joins the skills as given. */
  function BatchQuery(skills: seq<string>, resumeText: string): string {
    if resumeText != "" then resumeText else Join(" ", skills)
  }

  /** best_matches(q, items, top_k=len(items)) over all jobs. */
  function BatchRanking(q: string, jobs: seq<Job>, m: ModelOutputs): seq<Scored> {
    Rank(q, MapSeq(jobs, JobItem), |jobs|, m.floor, m.embs, m.rerank)
  }

  /** int(jid) of a ranked entry, None when int() rejects it. */
  function IdOf(x: Scored): Option<int> { ParseInt(x.id) }

  /**
   * A map filled along a ranking: key(x) -> x.score; a later entry for the
   * same key overwrites an earlier one, and an entry without a key is skipped.
   */
  function ScoresByKey(ranked: seq<Scored>, key: Scored -> Option<int>): map<int, real> {
    if ranked == [] then map[]
    else
      var m := ScoresByKey(ranked[..|ranked| - 1], key);
      var x := ranked[|ranked| - 1];
      if key(x).Some? then m[key(x).value := x.score] else m
  }

  /** semantic_by_id: int(jid) -> score along the ranking. */
  function SemanticMap(ranked: seq<Scored>): map<int, real> {
    ScoresByKey(ranked, IdOf)
  }

  lemma ScoresByKeyStep(ranked: seq<Scored>, key: Scored -> Option<int>, i: int)
    requires 0 <= i < |ranked|
    ensures ScoresByKey(ranked[..i + 1], key) ==
              if key(ranked[i]).Some? then ScoresByKey(ranked[..i], key)[key(ranked[i]).value := ranked[i].score]
              else ScoresByKey(ranked[..i], key)
  {
    var p := ranked[..i + 1];
    assert p[..|p| - 1] == ranked[..i];
    assert p[|p| - 1] == ranked[i];
  }

  /** The loop that fills semantic_by_id. */
  method SemanticById(ranked: seq<Scored>) returns (m: map<int, real>)
    ensures m == SemanticMap(ranked)
  {
    m := map[];
    for i := 0 to |ranked|
      invariant m == ScoresByKey(ranked[..i], IdOf)
    {
      ScoresByKeyStep(ranked, IdOf, i);
      var id := ParseInt(ranked[i].id);
      if id.Some? {
        m := m[id.value := ranked[i].score];
      }
    }
    assert ranked[..|ranked|] == ranked;
  }

  lemma {:induction false} ScoresByKeySound(ranked: seq<Scored>, key: Scored -> Option<int>, k: int) returns (i: int)
    requires k in ScoresByKey(ranked, key)
    ensures 0 <= i < |ranked| && key(ranked[i]) == Some(k) && ScoresByKey(ranked, key)[k] == ranked[i].score
  {
    var p, x := ranked[..|ranked| - 1], ranked[|ranked| - 1];
    if key(x) == Some(k) {
      i := |ranked| - 1;
    } else {
      i := ScoresByKeySound(p, key, k);
      assert ranked[i] == p[i];
    }
  }

  lemma {:induction false} ScoresByKeyComplete(ranked: seq<Scored>, key: Scored -> Option<int>, i: int)
    requires 0 <= i < |ranked| && key(ranked[i]).Some?
    ensures key(ranked[i]).value in ScoresByKey(ranked, key)
  {
    var p := ranked[..|ranked| - 1];
    if i < |p| {
      assert ranked[i] == p[i];
      ScoresByKeyComplete(p, key, i);
    }
  }

  /** Every key comes from an entry of the ranking whose id reads as that key, and holds that entry's score. */
  lemma SemanticMapSound(ranked: seq<Scored>, k: int) returns (i: int)
    requires k in SemanticMap(ranked)
    ensures 0 <= i < |ranked| && ParseInt(ranked[i].id) == Some(k) && SemanticMap(ranked)[k] == ranked[i].score
  {
    i := ScoresByKeySound(ranked, IdOf, k);
  }

  /** Every entry whose id reads as an integer leaves that integer in the map. */
  lemma SemanticMapComplete(ranked: seq<Scored>, i: int)
    requires 0 <= i < |ranked| && ParseInt(ranked[i].id).Some?
    ensures ParseInt(ranked[i].id).value in SemanticMap(ranked)
  {
    assert IdOf(ranked[i]) == ParseInt(ranked[i].id);
    ScoresByKeyComplete(ranked, IdOf, i);
  }

  /** The batch map holds only ids of listed jobs, each with a similarity in [0, 1]. */
  lemma BatchSemanticSound(q: string, jobs: seq<Job>, m: ModelOutputs, k: int) returns (j: int)
    requires k in SemanticMap(BatchRanking(q, jobs, m))
    ensures 0 <= j < |jobs| && jobs[j].id == k
    ensures 0.0 <= SemanticMap(BatchRanking(q, jobs, m))[k] <= 1.0
  {
    var items := MapSeq(jobs, JobItem);
    var ranked := BatchRanking(q, jobs, m);
    var i := SemanticMapSound(ranked, k);
    RankScoresInUnit(q, items, |jobs|, m.floor, m.embs, m.rerank);
    RankDrawnFromItems(q, items, |jobs|, m.floor, m.embs, m.rerank);
    var pair := Pairs(ranked)[i];
    assert pair in multiset(Pairs(ranked));
    assert pair in multiset(items);
    j :| 0 <= j < |items| && items[j] == pair;
    IntToStringRoundTrip(jobs[j].id);
  }

  /** Every listed job the batch ranking returns has its score in the map. */
  lemma BatchSemanticComplete(q: string, jobs: seq<Job>, m: ModelOutputs, i: int)
    requires 0 <= i < |BatchRanking(q, jobs, m)|
    ensures exists j :: 0 <= j < |jobs| && BatchRanking(q, jobs, m)[i].id == IntToString(jobs[j].id)
    ensures ParseInt(BatchRanking(q, jobs, m)[i].id).Some?
    ensures ParseInt(BatchRanking(q, jobs, m)[i].id).value in SemanticMap(BatchRanking(q, jobs, m))
  {
    var items := MapSeq(jobs, JobItem);
    var ranked := BatchRanking(q, jobs, m);
    RankDrawnFromItems(q, items, |jobs|, m.floor, m.embs, m.rerank);
    var pair := Pairs(ranked)[i];
    assert pair in multiset(Pairs(ranked));
    assert pair in multiset(items);
    var j :| 0 <= j < |items| && items[j] == pair;
    IntToStringRoundTrip(jobs[j].id);
    SemanticMapComplete(ranked, i);
  }

  // ------------------------------------------------------------ preliminary scores

  datatype Prelim = Prelim(job: Job, score: int, feedback: string)

  /** One job's preliminary score: the blend with the batch value when there is one, else composite_match. */
  function PrelimOutcome(skills: seq<string>, resumeText: string, job: Job, byId: map<int, real>,
                         w: real, m: ModelOutputs): (r: Outcome)
    ensures 0.0 <= w <= 1.0 && (job.id in byId ==> 0.0 <= byId[job.id] <= 1.0) ==> 0 <= r.score <= 100
  {
    if job.id in byId then Blended(JobCoverage(skills, job), byId[job.id], w)
    else CompositeMatch(skills, resumeText, job, w, m)
  }

  /** With the batch value equal to what composite_match computes, the batch path and composite_match agree. */
  lemma BatchAgreesWithComposite(skills: seq<string>, resumeText: string, job: Job, byId: map<int, real>,
                                 w: real, m: ModelOutputs)
    requires job.id in byId
    requires byId[job.id] == Semantic(CompositeQuery(skills, resumeText), "0", JobText(job), m)
    ensures PrelimOutcome(skills, resumeText, job, byId, w, m) == CompositeMatch(skills, resumeText, job, w, m)
  {
  }

  /** The prelim entry of one job. */
  function PrelimEntry(skills: seq<string>, resumeText: string, byId: map<int, real>, w: real,
                       single: Job -> ModelOutputs, job: Job): (p: Prelim)
    ensures p.job == job
  {
    var o := PrelimOutcome(skills, resumeText, job, byId, w, single(job));
    Prelim(job, o.score, o.feedback)
  }

  /** The per-job step as a function value, so prelim is a map over the job list. */
  function EntryOf(skills: seq<string>, resumeText: string, byId: map<int, real>, w: real,
                   single: Job -> ModelOutputs): Job -> Prelim {
    job => PrelimEntry(skills, resumeText, byId, w, single, job)
  }

  /** prelim: one entry per job, in job order. */
  function PrelimList(jobs: seq<Job>, skills: seq<string>, resumeText: string, byId: map<int, real>,
                      w: real, single: Job -> ModelOutputs): (r: seq<Prelim>)
    ensures |r| == |jobs|
    ensures forall i :: 0 <= i < |jobs| ==> r[i] == PrelimEntry(skills, resumeText, byId, w, single, jobs[i])
  {
    MapSeq(jobs, EntryOf(skills, resumeText, byId, w, single))
  }

  /** Every preliminary score is a percentage when the weight and the batch values lie in [0, 1]. */
  lemma PrelimScoresWithin(jobs: seq<Job>, skills: seq<string>, resumeText: string, byId: map<int, real>,
                           w: real, single: Job -> ModelOutputs, i: int)
    requires 0 <= i < |jobs| && 0.0 <= w <= 1.0
    requires forall k :: k in byId ==> 0.0 <= byId[k] <= 1.0
    ensures 0 <= PrelimList(jobs, skills, resumeText, byId, w, single)[i].score <= 100
  {
  }

  /** The loop that builds prelim. */
  method ScoreJobs(jobs: seq<Job>, skills: seq<string>, resumeText: string, byId: map<int, real>,
                   w: real, single: Job -> ModelOutputs) returns (prelim: seq<Prelim>)
    ensures prelim == PrelimList(jobs, skills, resumeText, byId, w, single)
  {
    ghost var f := EntryOf(skills, resumeText, byId, w, single);
    prelim := [];
    for i := 0 to |jobs|
      invariant prelim == MapSeq(jobs[..i], f)
    {
      var p := ScoreJob(skills, resumeText, byId, w, single, jobs[i]);
      MapSeqSnoc(jobs, i, f);
      prelim := prelim + [p];
    }
    assert jobs[..|jobs|] == jobs;
  }

  /** The loop body: the batch value when the job has one, else composite_match with the job's own model outputs. */
  method ScoreJob(skills: seq<string>, resumeText: string, byId: map<int, real>, w: real,
                  single: Job -> ModelOutputs, job: Job) returns (p: Prelim)
    ensures p == PrelimEntry(skills, resumeText, byId, w, single, job)
  {
    var o: Outcome;
    if job.id in byId {
      o := Blended(JobCoverage(skills, job), byId[job.id], w);
    } else {
      o := CompositeMatch(skills, resumeText, job, w, single(job));
    }
    p := Prelim(job, o.score, o.feedback);
  }

  // ------------------------------------------------------------ remote re-scoring of the top K

  /** The dashboard's row for a job: its score and feedback as the list finally holds them. */
  datatype JobMatch = JobMatch(job: Job, score: Json, feedback: Json)

  function PrelimKey(p: Prelim): real {
    p.score as real
  }

  function PrelimJob(p: Prelim): Job {
    p.job
  }

  function MatchJob(x: JobMatch): Job {
    x.job
  }

  /** An entry kept as it is. */
  function Lift(p: Prelim): JobMatch {
    JobMatch(p.job, JInt(p.score), JStr(p.feedback))
  }

  /** An entry re-scored by match_resume_to_jd. */
  function RemoteScored(p: Prelim, apiKey: Option<string>, exchange: Job -> Exchange, parse: string -> Option<Json>): JobMatch {
    var r := MatchResumeToJd(apiKey, exchange(p.job), parse);
    JobMatch(p.job, r.score, r.feedback)
  }

  /** enriched: the remote result for each entry of top, in order. */
  function Enriched(top: seq<Prelim>, apiKey: Option<string>, exchange: Job -> Exchange,
                    parse: string -> Option<Json>): (r: seq<JobMatch>)
    ensures |r| == |top|
  {
    MapSeq(top, Rescorer(apiKey, exchange, parse))
  }

  /** RemoteScored under a fixed key, exchange and parser, as a value a loop can be given. */
  function Rescorer(apiKey: Option<string>, exchange: Job -> Exchange, parse: string -> Option<Json>): Prelim -> JobMatch {
    p => RemoteScored(p, apiKey, exchange, parse)
  }

  /** The final list: prelim itself, or with USE_AI_MATCH the re-scored top K of the sorted list followed by the rest. */
  function FinalMatches(prelim: seq<Prelim>, useAi: bool, apiKey: Option<string>, exchange: Job -> Exchange,
                        parse: string -> Option<Json>): (r: seq<JobMatch>)
    ensures |r| == |prelim|
  {
    if !useAi then MapSeq(prelim, Lift) else AiFinal(SortDesc(prelim, PrelimKey), apiKey, exchange, parse)
  }

  /** The USE_AI_MATCH splice of a sorted list: its first K entries re-scored, then the rest as they are. */
  function AiFinal(sorted: seq<Prelim>, apiKey: Option<string>, exchange: Job -> Exchange,
                   parse: string -> Option<Json>): (r: seq<JobMatch>)
    ensures |r| == |sorted|
  {
    var k := Min(RemoteLimit, |sorted|);
    Enriched(sorted[..k], apiKey, exchange, parse) + MapSeq(sorted[k..], Lift)
  }

  lemma EnrichedStep(top: seq<Prelim>, apiKey: Option<string>, exchange: Job -> Exchange,
                     parse: string -> Option<Json>, i: int)
    requires 0 <= i < |top|
    ensures Enriched(top[..i + 1], apiKey, exchange, parse)
            == Enriched(top[..i], apiKey, exchange, parse) + [RemoteScored(top[i], apiKey, exchange, parse)]
  {
    MapSeqSnoc(top, i, Rescorer(apiKey, exchange, parse));
  }

  /** The USE_AI_MATCH branch: sort prelim in place, re-score the first K, splice. */
  method Finalize(prelim: seq<Prelim>, useAi: bool, apiKey: Option<string>, exchange: Job -> Exchange,
                  parse: string -> Option<Json>) returns (out: seq<JobMatch>)
    ensures out == FinalMatches(prelim, useAi, apiKey, exchange, parse)
  {
    if !useAi {
      return MapSeq(prelim, Lift);
    }
    var k := Min(RemoteLimit, |prelim|);
    var sorted := StableSortDesc(prelim, PrelimKey);
    SortDescSortedPermutation(prelim, PrelimKey);
    var top, rest := sorted[..k], sorted[k..];
    var enriched: seq<JobMatch> := [];
    for i := 0 to k
      invariant enriched == Enriched(top[..i], apiKey, exchange, parse)
    {
      EnrichedStep(top, apiKey, exchange, parse, i);
      var r := MatchResumeToJd(apiKey, exchange(top[i].job), parse);
      enriched := enriched + [JobMatch(top[i].job, r.score, r.feedback)];
    }
    assert top[..k] == top;
    out := enriched + MapSeq(rest, Lift);
  }

  lemma EnrichedAt(top: seq<Prelim>, apiKey: Option<string>, exchange: Job -> Exchange,
                     parse: string -> Option<Json>, i: int)
    requires 0 <= i < |top|
    ensures Enriched(top, apiKey, exchange, parse)[i] == RemoteScored(top[i], apiKey, exchange, parse)
  {
    assert Rescorer(apiKey, exchange, parse)(top[i]) == RemoteScored(top[i], apiKey, exchange, parse);
  }

  /** Without USE_AI_MATCH the final list is prelim in job order. */
  lemma FinalWithoutAi(prelim: seq<Prelim>, apiKey: Option<string>, exchange: Job -> Exchange,
                       parse: string -> Option<Json>, i: int)
    requires 0 <= i < |prelim|
    ensures FinalMatches(prelim, false, apiKey, exchange, parse)[i] == Lift(prelim[i])
  {
  }

  /** With USE_AI_MATCH, entry i < K is entry i of the sorted prelim re-scored remotely. */
  lemma FinalTopAt(prelim: seq<Prelim>, apiKey: Option<string>, exchange: Job -> Exchange,
                   parse: string -> Option<Json>, i: int)
    requires 0 <= i < Min(RemoteLimit, |prelim|)
    ensures FinalMatches(prelim, true, apiKey, exchange, parse)[i] == RemoteScored(SortDesc(prelim, PrelimKey)[i], apiKey, exchange, parse)
  {
    AiFinalTopAt(SortDesc(prelim, PrelimKey), apiKey, exchange, parse, i);
  }

  /** With USE_AI_MATCH, entry i >= K is entry i of the sorted prelim as it is. */
  lemma FinalRestAt(prelim: seq<Prelim>, apiKey: Option<string>, exchange: Job -> Exchange,
                    parse: string -> Option<Json>, i: int)
    requires Min(RemoteLimit, |prelim|) <= i < |prelim|
    ensures FinalMatches(prelim, true, apiKey, exchange, parse)[i] == Lift(SortDesc(prelim, PrelimKey)[i])
  {
    AiFinalRestAt(SortDesc(prelim, PrelimKey), apiKey, exchange, parse, i);
  }

  lemma AiFinalTopAt(sorted: seq<Prelim>, apiKey: Option<string>, exchange: Job -> Exchange,
                     parse: string -> Option<Json>, i: int)
    requires 0 <= i < Min(RemoteLimit, |sorted|)
    ensures AiFinal(sorted, apiKey, exchange, parse)[i] == RemoteScored(sorted[i], apiKey, exchange, parse)
  {
    var k := Min(RemoteLimit, |sorted|);
    EnrichedAt(sorted[..k], apiKey, exchange, parse, i);
  }

  lemma AiFinalRestAt(sorted: seq<Prelim>, apiKey: Option<string>, exchange: Job -> Exchange,
                      parse: string -> Option<Json>, i: int)
    requires Min(RemoteLimit, |sorted|) <= i < |sorted|
    ensures AiFinal(sorted, apiKey, exchange, parse)[i] == Lift(sorted[i])
  {
    var k := Min(RemoteLimit, |sorted|);
    SpliceRestAt(sorted, Enriched(sorted[..k], apiKey, exchange, parse), k, i);
  }

  lemma SpliceRestAt(sorted: seq<Prelim>, top: seq<JobMatch>, k: int, i: int)
    requires |top| == k <= i < |sorted|
    ensures (top + MapSeq(sorted[k..], Lift))[i] == Lift(sorted[i])
  {
    var rest := MapSeq(sorted[k..], Lift);
    assert (top + rest)[i] == rest[i - k];
    assert sorted[k..][i - k] == sorted[i];
  }

  /** Every score in the final list is a number (an int, or whatever number the remote reply gave). */
  lemma FinalScoresNumeric(prelim: seq<Prelim>, useAi: bool, apiKey: Option<string>, exchange: Job -> Exchange,
                           parse: string -> Option<Json>, i: int)
    requires 0 <= i < |prelim|
    ensures IsNumber(FinalMatches(prelim, useAi, apiKey, exchange, parse)[i].score)
  {
    if !useAi {
      FinalWithoutAi(prelim, apiKey, exchange, parse, i);
    } else if i < Min(RemoteLimit, |prelim|) {
      FinalTopAt(prelim, apiKey, exchange, parse, i);
    } else {
      FinalRestAt(prelim, apiKey, exchange, parse, i);
    }
  }

  /** The jobs sent to the remote matcher have preliminary scores at least those of every job kept as it is. */
  lemma RemoteGoesToBest(prelim: seq<Prelim>, apiKey: Option<string>, exchange: Job -> Exchange,
                         parse: string -> Option<Json>, i: int, j: int)
    requires 0 <= i < Min(RemoteLimit, |prelim|) <= j < |prelim|
    ensures var sorted := SortDesc(prelim, PrelimKey);
            FinalMatches(prelim, true, apiKey, exchange, parse)[i].job == sorted[i].job
            && FinalMatches(prelim, true, apiKey, exchange, parse)[j] == Lift(sorted[j])
            && sorted[i].score >= sorted[j].score
  {
    SortDescSortedPermutation(prelim, PrelimKey);
    FinalTopAt(prelim, apiKey, exchange, parse, i);
    FinalRestAt(prelim, apiKey, exchange, parse, j);
  }

  lemma {:induction false} EnrichedJobs(top: seq<Prelim>, apiKey: Option<string>, exchange: Job -> Exchange,
                                        parse: string -> Option<Json>)
    ensures MapSeq(Enriched(top, apiKey, exchange, parse), MatchJob) == MapSeq(top, PrelimJob)
  {
    var e := Enriched(top, apiKey, exchange, parse);
    forall i | 0 <= i < |top| ensures MatchJob(e[i]) == PrelimJob(top[i]) {
      EnrichedAt(top, apiKey, exchange, parse, i);
    }
  }

  /** The final list holds the same jobs as prelim, each as often: reordering and re-scoring lose no job. */
  lemma FinalKeepsJobs(prelim: seq<Prelim>, useAi: bool, apiKey: Option<string>, exchange: Job -> Exchange,
                       parse: string -> Option<Json>)
    ensures multiset(MapSeq(FinalMatches(prelim, useAi, apiKey, exchange, parse), MatchJob)) == multiset(MapSeq(prelim, PrelimJob))
  {
    var out := FinalMatches(prelim, useAi, apiKey, exchange, parse);
    if !useAi {
      assert MapSeq(out, MatchJob) == MapSeq(prelim, PrelimJob);
    } else {
      SortDescSortedPermutation(prelim, PrelimKey);
      var sorted := SortDesc(prelim, PrelimKey);
      AiFinalJobs(sorted, apiKey, exchange, parse);
      MultisetMap(sorted, prelim, PrelimJob);
    }
  }

  /** The splice keeps every job of the sorted list in its place. */
  lemma AiFinalJobs(sorted: seq<Prelim>, apiKey: Option<string>, exchange: Job -> Exchange, parse: string -> Option<Json>)
    ensures MapSeq(AiFinal(sorted, apiKey, exchange, parse), MatchJob) == MapSeq(sorted, PrelimJob)
  {
    var k := Min(RemoteLimit, |sorted|);
    var top, rest := sorted[..k], sorted[k..];
    EnrichedJobs(top, apiKey, exchange, parse);
    LiftedJobs(rest);
    MapSeqAppend(Enriched(top, apiKey, exchange, parse), MapSeq(rest, Lift), MatchJob);
    MapSeqAppend(top, rest, PrelimJob);
    assert top + rest == sorted;
  }

  /** Entries kept as they are keep their jobs. */
  lemma LiftedJobs(ps: seq<Prelim>)
    ensures MapSeq(MapSeq(ps, Lift), MatchJob) == MapSeq(ps, PrelimJob)
  {
  }

  // ------------------------------------------------------------ the whole pass

  /** The job list of the user dashboard, from the jobs, the résumé's skills and text, and the model outputs. */
  method DashboardMatches(jobs: seq<Job>, skills: seq<string>, resumeText: string, w: real,
                          batch: ModelOutputs, single: Job -> ModelOutputs,
                          useAi: bool, apiKey: Option<string>, exchange: Job -> Exchange, parse: string -> Option<Json>)
    returns (out: seq<JobMatch>)
    ensures |out| == |jobs|
    ensures out == FinalMatches(
                     PrelimList(jobs, skills, resumeText, SemanticMap(BatchRanking(BatchQuery(skills, resumeText), jobs, batch)), w, single),
                     useAi, apiKey, exchange, parse)
  {
    var ranked := BatchRanking(BatchQuery(skills, resumeText), jobs, batch);
    var byId := SemanticById(ranked);
    var prelim := ScoreJobs(jobs, skills, resumeText, byId, w, single);
    out := Finalize(prelim, useAi, apiKey, exchange, parse);
  }
}

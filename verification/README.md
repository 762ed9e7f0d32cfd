# SmartHire matching core in Dafny

SmartHire is a Flask web application that reads résumés, matches them against
job postings, shows candidates and HR staff ranked matches, and recommends
courses for the skills a candidate lacks. This project models its matching
core and proves properties of that model:

- **The ranking engine** (`rag.py`) has two phases. Phase one ranks `(id, text)`
  items against a query. It uses the cosine of sentence embeddings when an
  embedder loaded and encoding succeeded, and falls back to token-set
  Jaccard similarity otherwise. Phase two is an optional cross-encoder
  reranker whose scores are min-max scaled. The engine also keeps a
  process-wide cache of loaded models and has a warm-up routine.
- **Composite scoring and the candidate dashboard** (`app.py`). The share of
  a job's skills that the résumé covers is blended with the engine's
  semantic similarity into a whole percentage. A feedback line goes with it.
  The dashboard uses one batch ranking of all jobs. When AI matching is on,
  it re-scores the best ten jobs with the remote matcher.
- **Record handling** (`app.py`):
  - the `csv.reader` fallback of `get_jobs`: header mapping or a row-length
    heuristic;
  - the mixed-format `posted.csv` reader;
  - the id repair of `normalize_posted_ids`;
  - the job resolution of the HR dashboard.
- **Course recommendation** (`course_recommender.py`). The CSV recommender
  counts skill overlap. The external recommender fetches courses per skill,
  de-duplicates them by title, ranks them with the engine and scores them
  0 to 100.
- **The three remote-model clients** (`resume_parser.py`, `skill_gap.py`,
  `job_matcher.py`). The HTTP exchange is modelled as a value. The model
  covers the response walk, the code-fence cleanup, and every failure path
  with the default each one returns.

Modules:

| module | contents |
|---|---|
| `Wrappers` | `Option` |
| `Text` | Python's `strip`, `lower`, `split`, `join`, `replace`, `int`/`str` |
| `Numeric` | `round` (half to even), `int()` truncation |
| `Sorting` | stable descending sort and `[:k]` slicing |
| `StringOrder` | `sorted(set)` |
| `Unique` | de-duplication with a `seen` set |
| `Rag` | the ranking engine |
| `Scoring` | composite scoring |
| `Dashboard` | the candidate dashboard |
| `JobRecords` | the record readers and id repair |
| `Courses` | both course recommenders |
| `Remote` | JSON values and the response walk shared by the clients |
| `ResumeParser`, `SkillGap`, `JobMatcher` | one module per client |

The source's loops over rows, records, rankings and courses are methods.
Each is proved equal to a function on values, and the properties are
lemmas about that function. `_EMBEDDER`,
`_RERANKER` and their failure flags become the fields of the class
`Rag.ModelRegistry`.

The model follows the code where the code differs from its description,
and keeps these behaviours of the code as written:

- **Header detection in `get_jobs`.** The fallback reader switches to
  header mode on `any(idx.values())`. A header whose only known column is
  in position 0 therefore yields index 0, which is false in Python, so the
  file is read with the row-length heuristic
  (`JobRecords.FirstColumnOnlyIsHeuristic`).
- **No clamping of remote scores.** The remote matcher returns any number
  it is given, without clamping it to 0–100 (`JobMatcher.ScoreNotClamped`).
- **Repeated skills count twice.** Coverage divides by the number of job
  skill entries, repeats and blank entries included, so a repeated skill
  counts twice in the denominator (`Scoring.CoverageCountsRepeats`,
  `Scoring.BlankEntriesMatch`).

## Model

| member | source | states |
|---|---|---|
| `Text.Strip` | course_recommender.py:34 | `str.strip()`: the result is empty exactly when the input is all whitespace; otherwise it neither starts nor ends with whitespace |
| `Text.StripIdempotent` | course_recommender.py:123 | Stripping twice is stripping once |
| `Text.Lower` | course_recommender.py:34 | Lower-casing keeps the length and maps each character on its own |
| `Text.Split` | course_recommender.py:34 | `split(',')` yields at least one part, and no part holds the separator |
| `Text.JoinSplit` | app.py:273 | Joining the parts of a split with the separator gives back the text |
| `Text.SplitJoin` | app.py:273 | Splitting a join of separator-free parts gives back the parts |
| `Text.Words` | rag.py:91 | `str.split()` yields only non-empty words without whitespace |
| `Text.ReplaceAbsent` | job_matcher.py:57 | `replace` returns a text in which the pattern does not occur unchanged, for texts of every length |
| `Text.IntToStringRoundTrip` | course_recommender.py:133-138 | `int(str(i))` gives back `i` for every integer, so the ids the recommender builds parse back |
| `Text.IntToStringInjective` | app.py:574-578 | Distinct job ids have distinct string forms |
| `Numeric.RoundHalfEven` | course_recommender.py:139 | Python `round`: within 0.5 of its argument, and an exact half goes to the even neighbour |
| `Numeric.RoundNearestUnique` | app.py:551 | Any integer closer than 0.5 to the argument is the rounded value |
| `Numeric.RoundWithin` | course_recommender.py:139 | Rounding a value between two integers stays between them |
| `Numeric.RoundMonotone` | course_recommender.py:139 | Rounding preserves order, so sorted scores stay sorted once rounded |
| `Numeric.Truncate` | app.py:552 | `int(x)` truncates toward zero, for both signs |
| `Numeric.TruncateWithin` | app.py:552 | Truncating a value in `[0, hi]` stays in `[0, hi]` |
| `Numeric.Clamp` | rag.py:76 | `max(lo, min(hi, x))` lies in `[lo, hi]` and is `x` when `x` already is |
| `Numeric.MinOf` | rag.py:131 | `min(scores)` is one of the scores and no score is smaller |
| `Numeric.MaxOf` | rag.py:132 | `max(scores)` is one of the scores and no score is larger |
| `Sorting.SortDescSortedPermutation` | rag.py:86 | `sort(key, reverse=True)` yields a permutation of the list in non-increasing key order |
| `Sorting.SortDescStable` | rag.py:86 | The sort is stable: the elements of each key keep their input order |
| `Sorting.SortDescUnique` | rag.py:103 | A sorted list with the same per-key sub-lists as the input is the sort's output, so the sort is fully determined |
| `Sorting.StableSortDesc` | rag.py:86 | The insertion-sort loop computes the stable descending sort |
| `Sorting.PyPrefix` | rag.py:87 | `s[:k]` is a prefix of `s` of length `min(k, len(s))`; a negative `k` drops elements from the end |
| `Sorting.TopOfSort` | course_recommender.py:45-48 | The first `k` of the sorted list are sorted, at most `k`, drawn from the input (all of it when it fits), and no element left out has a larger key than one kept |
| `StringOrder.LessTransitive` | app.py:785 | The code-point order of strings is transitive |
| `StringOrder.LessTotal` | app.py:785 | Any two distinct strings are ordered one way or the other |
| `StringOrder.SortedSet` | app.py:785 | `sorted(set(xs))` is strictly ascending and holds exactly the elements of `xs` |
| `StringOrder.SortedSetOrderFree` | app.py:785 | Inputs with the same elements give the same sorted list, whatever their order or repeats |
| `Unique.DedupByKeys` | course_recommender.py:105-111 | De-duplication keeps every non-empty key of the input and no other key |
| `Unique.DedupByMembers` | course_recommender.py:105-111 | Every kept element comes from the input |
| `Unique.DedupByUnique` | course_recommender.py:105-111 | The kept keys are non-empty and pairwise distinct |
| `Unique.DedupByIsFirsts` | course_recommender.py:105-111 | The `seen`-set loop keeps exactly the first element of each non-empty key, in input order |
| `Rag.Cosine` | rag.py:70-76 | The result is in `[0, 1]`; it is 0 for empty or mismatched vectors and the dot product clamped otherwise |
| `Rag.Jaccard` | rag.py:96-101 | The similarity is in `[0, 1]` and is 0 when either token set is empty |
| `Rag.JaccardOne` | rag.py:96-101 | The similarity is 1 exactly when the two token sets are equal and non-empty |
| `Rag.JaccardZero` | rag.py:96-101 | The similarity is 0 exactly when the token sets share no token |
| `Rag.JaccardScored` | rag.py:92-102 | Every item gets its Jaccard score against the query, in item order, with scores in `[0, 1]` |
| `Rag.CosineScored` | rag.py:82-85 | Items are zipped with their vectors (the shorter list decides), with scores in `[0, 1]` |
| `Rag.Preselect` | rag.py:116-117 | The preselect count never exceeds the item count, and it is at least `top_k` and the floor whenever they fit |
| `Rag.Rescaled` | rag.py:131-136 | The reranker scores are zipped with the candidates, keeping the candidates' ids and texts in order |
| `Rag.RescaledInUnit` | rag.py:130-136 | Min-max scaled scores lie in `[0, 1]` |
| `Rag.RescaledAllEqual` | rag.py:133 | When every reranker score is equal, the range falls back to 1 and every scaled score is 0 |
| `Rag.RescaledExtremes` | rag.py:131-136 | When the scores differ, the top reranker score scales to 1 and the bottom one to 0 |
| `Rag.ScaleEnds` | rag.py:131-136 | The scaling maps `hi` to 1 and `lo` to 0 |
| `Rag.RankScoresInUnit` | rag.py:106-143 | Every score `best_matches` returns is in `[0, 1]`, as its docstring promises |
| `Rag.RankSorted` | rag.py:106-143 | `best_matches` returns its results in non-increasing score order |
| `Rag.RankDrawnFromItems` | rag.py:106-143 | Every result is an input item, none is returned more often than given, and there are at most `len(items)` results (at most `top_k` when `top_k >= 0`) |
| `Rag.IdenticalTextsKeepOrder` | rag.py:89-104 | Without models, two items with the same text tie and keep their input order |
| `Rag.RankWithoutModels` | rag.py:119-143 | With no embedder and no reranker, the result is the Jaccard ranking of the preselected candidates, cut to `top_k` |
| `Rag.JaccardExample` | rag.py:89-104 | Worked example, not a general property: "python sql" against "python java" scores 1/3 |
| `Rag.EmbedderCandidates` | rag.py:21-28 | The configured model is tried first when set and non-empty, then the two defaults in order; empty names are skipped |
| `Rag.FirstLoadableFirst` | rag.py:28-36 | The candidate chosen is the first one that loads (it loads and none before it does), and none is chosen only when none loads |
| `Rag.RerankerAttempt` | rag.py:47-58 | No reranker is loaded unless `USE_RERANKER` is unset or "1"; a loaded one is the configured model or the default one |
| `Rag.WarmupCount` | rag.py:152-157 | Warm-up encodes between 1 and 16 texts: the given ones capped at 16, or the three defaults |
| `Rag.ModelRegistry.constructor` | rag.py:5-8 | The registry starts with no model loaded and no failure recorded |
| `Rag.ModelRegistry.LoadEmbedder` | rag.py:10-40 | The first call records the load outcome, either a model or a failure; later calls return it unchanged; the reranker slot is untouched |
| `Rag.ModelRegistry.LoadReranker` | rag.py:42-58 | Same for the reranker slot: one attempt, then a cached outcome |
| `Rag.ModelRegistry.EmbedTexts` | rag.py:60-68 | Returns the encoding only when an embedder is loaded, and `None` otherwise |
| `Rag.ModelRegistry.Warmup` | rag.py:145-159 | Returns the warm-up count when the embedder loaded and encoding succeeded, and 0 otherwise |
| `Rag.ModelRegistry.BestMatches` | rag.py:106-143 | Returns `[]` for no items without touching the cache; otherwise it loads both models, on a first call recording exactly the embedder and reranker attempts for the environment, and ranks with whatever loaded |
| `Rag.BestMatchesEmbeddings` | rag.py:78-87 | The embedding phase: `None` without vectors, otherwise the cosine ranking cut to `k` |
| `Rag.PhaseOne` | rag.py:119-122 | Phase one is the embedding ranking when it returned a non-empty list, else the Jaccard ranking, both cut to the preselect size |
| `Rag.BestMatchesJaccard` | rag.py:89-104 | The loop computes the Jaccard ranking cut to `k` |
| `Rag.SecondPhase` | rag.py:125-143 | Reranks and cuts when the reranker gave scores and phase one kept at least two candidates; otherwise it cuts the phase-one ranking |
| `Rag.RerankedProps` | rag.py:125-143 | Phase two keeps every score in [0, 1], keeps the descending order, draws only on the candidates it was given and returns at most top_k of them |
| `Rag.Rescore` | rag.py:134-136 | The rescoring loop computes the scaled, zipped list |
| `Scoring.StrippedSkills` | app.py:533 | No kept skill is empty, and there are at most as many as entries |
| `Scoring.StrippedSkillsInOrder` | app.py:533 | The kept skills are exactly the stripped non-blank entries, one per entry, in input order |
| `Scoring.StrippedSkillsFrom` | app.py:533 | Every kept skill is the stripped form of some entry, so it is itself stripped |
| `Scoring.StrippedSkillsKeeps` | app.py:533 | Every entry that does not strip to blank is kept, stripped |
| `Scoring.NormalListOfEmpties` | app.py:536 | Empty entries are dropped before stripping |
| `Scoring.Coverage` | app.py:538 | Coverage is in `[0, 1]` |
| `Scoring.CoverageFull` | app.py:535-538 | Coverage is 1 exactly when every job skill is held and none is listed twice |
| `Scoring.CoverageZero` | app.py:535-538 | Coverage is 0 exactly when no job skill is held |
| `Scoring.CoverageCountsRepeats` | app.py:536-538 | Worked example, not a general property: a job skill listed twice counts twice in the denominator |
| `Scoring.MatchScore` | app.py:549-551 | The score is 0 when both signals are 0, and otherwise within 0.5 of 100 × the weighted blend |
| `Scoring.ZeroRuleAgrees` | app.py:551 | The zero rule agrees with rounding the blend, so it never changes a score |
| `Scoring.ScoreWithin` | app.py:549-551 | With signals and weight in `[0, 1]`, the score is a percentage in `[0, 100]` |
| `Scoring.ScoreExamples` | app.py:549-551 | Worked example, not a general property: with the default weight 0.65, full coverage and full similarity score 100; full coverage alone scores 65 |
| `Scoring.Percent` | app.py:552 | The feedback percentages of values in `[0, 1]` lie in `[0, 100]` |
| `Scoring.PercentTruncates` | app.py:552 | Worked example, not a general property: the feedback truncates rather than rounds: 0.999 shows as 99% |
| `Scoring.FeedbackInjective` | app.py:552 | Equal feedback lines show equal coverage and equal similarity percentages |
| `Scoring.Semantic` | app.py:539-548 | The semantic signal of one job is in `[0, 1]` |
| `Scoring.SemanticWithoutModels` | app.py:539-548 | Without models, the semantic signal is the Jaccard similarity of query and job text |
| `Scoring.Blended` | app.py:549-552 | A blend of in-range signals with an in-range weight scores in `[0, 100]` |
| `Scoring.CompositeMatch` | app.py:531-553 | `composite_match` scores in `[0, 100]` and scores 0 when coverage and similarity are both 0 |
| `Scoring.NoJdSkillsNoCoverage` | app.py:534-538 | A job whose skills cell has only empty entries gets coverage 0 |
| `Scoring.HeldSkillCovers` | app.py:533-538 | A job skill the résumé holds gives positive coverage |
| `Scoring.ComputeMatch` | app.py:775-796 | `compute_match` scores in `[0, 100]` and scores 0 with no job skills and no similarity |
| `Scoring.ComputeQueryOrderFree` | app.py:785 | The query built from résumé skills does not depend on their order or repeats |
| `Scoring.BlankEntriesMatch` | app.py:776-780 | Worked example, not a general property: blank entries survive the `if s` filter as empty skills, so a blank résumé entry covers a blank job entry |
| `Dashboard.SemanticById` | app.py:576-580 | The loop builds the id-to-score map of the batch ranking, skipping ids that do not parse |
| `Dashboard.SemanticMapSound` | app.py:576-580 | Every mapped id comes from a ranked entry with that score |
| `Dashboard.SemanticMapComplete` | app.py:576-580 | Every ranked entry with a parseable id is in the map |
| `Dashboard.BatchSemanticSound` | app.py:566-580 | Every id in the batch map is the id of a listed job, and its score is in `[0, 1]` |
| `Dashboard.BatchSemanticComplete` | app.py:566-580 | Every job the batch ranking returns is in the map under its own id |
| `Dashboard.PrelimOutcome` | app.py:593-601 | A preliminary score is in `[0, 100]` when the weight and the batch score are in range |
| `Dashboard.BatchAgreesWithComposite` | app.py:593-601 | When the batch score equals the single-job similarity, the batch path scores exactly as `composite_match` |
| `Dashboard.PrelimScoresWithin` | app.py:585-602 | Every preliminary score is in `[0, 100]` |
| `Dashboard.ScoreJobs` | app.py:585-602 | The loop computes the preliminary list, one entry per job in job order |
| `Dashboard.ScoreJob` | app.py:586-602 | One iteration computes that job's preliminary entry |
| `Dashboard.Finalize` | app.py:604-619 | The loop computes the final list: with AI on, the best ten by score, re-scored remotely, followed by the rest |
| `Dashboard.EnrichedAt` | app.py:611-618 | Each enriched entry is the remote matcher's result for that job |
| `Dashboard.FinalWithoutAi` | app.py:604 | With AI off, the final list is the preliminary list, unsorted |
| `Dashboard.FinalTopAt` | app.py:606-618 | With AI on, the first `min(10, n)` entries are the best-scoring jobs, re-scored remotely |
| `Dashboard.FinalRestAt` | app.py:609-619 | With AI on, the entries after the first ten keep their preliminary scores, in sorted order |
| `Dashboard.RemoteGoesToBest` | app.py:606-619 | Every remotely scored job had a preliminary score at least that of every job that was not re-scored |
| `Dashboard.FinalScoresNumeric` | app.py:611-619 | Every final score is a number, whichever path produced it |
| `Dashboard.EnrichedJobs` | app.py:610-618 | Enrichment keeps the jobs, in order |
| `Dashboard.FinalKeepsJobs` | app.py:604-619 | The final list holds the same jobs as the preliminary list, each as often |
| `Dashboard.DashboardMatches` | app.py:565-619 | One entry per job: the batch map feeds the preliminary scores, which the AI step finalizes |
| `JobRecords.IndexOf` | app.py:236 | `header.index(name) if name in header else None`: the first position of the name, or none |
| `JobRecords.GetCell` | app.py:238-240 | A cell is the stripped value under the name's first column when the row reaches it, and `''` otherwise |
| `JobRecords.HeuristicJob` | app.py:266-299 | A headerless row yields a job exactly when it has at least 4 cells; the first cell is the stripped title |
| `JobRecords.GetJobsFallback` | app.py:228-301 | The reader loop computes the job list of the fallback reader |
| `JobRecords.JobIdsConsecutive` | app.py:242-299 | Job ids count 0, 1, 2, … over the jobs kept |
| `JobRecords.BlankRowSkipped` | app.py:244-245 | A blank row adds no job and uses no id |
| `JobRecords.HeaderModeRow` | app.py:248-259 | In header mode, every non-blank row adds one job with the next id |
| `JobRecords.FirstColumnOnlyIsHeuristic` | app.py:248 | A header whose known columns all sit in position 0 does not enable header mode |
| `JobRecords.LaterColumnIsHeaderMode` | app.py:248 | A known column after position 0 enables header mode |
| `JobRecords.HeuristicRecoversDescription` | app.py:268-273 | A six-plus-cell row whose comma-split description is glued back yields the description and the trailing columns |
| `JobRecords.PostedRowShape` | app.py:1092-1122 | A posted row is kept exactly when it is non-blank, has at least 4 cells, matches the HR filter and has an integer id; the new and legacy layouts fill the fields as stated |
| `JobRecords.PostedRecordsHr` | app.py:1106-1116 | Every kept record's HR id is stripped and equals the filter when one is given |
| `JobRecords.PostedRoundTrip` | app.py:1096-1122 | A record with a stripped hr id, written as the six posted.csv columns (hr_id, job_id, title, description, skills, deadline), reads back as the same record, unfiltered or filtered on its own hr id |
| `JobRecords.GetPostedJobs` | app.py:1076-1127 | The reader computes the records, with the first row kept as data unless it looks like a header |
| `JobRecords.ReadRows` | app.py:1092-1122 | The row loop computes the kept records in file order |
| `JobRecords.TitleIndexLookup` | app.py:952-960 | The title index maps each non-empty title to the ids of the jobs with that title, in job order |
| `JobRecords.TitleIndexNoBlank` | app.py:959 | Empty titles are not indexed |
| `JobRecords.TitleHrIndexLookup` | app.py:952-961 | The (hr, title) index maps each pair with a non-empty title to the ids of the jobs with that pair, in job order |
| `JobRecords.TitleHrIndexNoBlank` | app.py:959 | Pairs with an empty title are not indexed |
| `JobRecords.IdIndexSound` | app.py:949 | The id index maps each id to a listed job with that id; with the `isdigit` filter, no id is negative |
| `JobRecords.BuildIdIndex` | app.py:949 | The comprehension builds the id index |
| `JobRecords.BuildTitleIndex` | app.py:729-733 | The loop builds the title index |
| `JobRecords.BuildTitleHrIndex` | app.py:950-961 | The loop builds the (hr, title) index |
| `JobRecords.NormalizePostedIds` | app.py:963-997 | The loop yields the repaired rows when some id was replaced, and nothing to write otherwise |
| `JobRecords.RepairedRowsAt` | app.py:965-995 | Each repaired row is the repair of the posted row at the same position |
| `JobRecords.AnyReplacedIff` | app.py:964-997 | The file is rewritten exactly when at least one row's id was replaced |
| `JobRecords.NormalizeShape` | app.py:963-997 | A rewrite happens exactly when some row is replaced, and it holds one repaired row per posted row |
| `JobRecords.KnownIdKept` | app.py:973-974 | A row whose id is listed keeps it and is not counted as a change |
| `JobRecords.AllKnownNoRewrite` | app.py:973-997 | When every posted id is listed, nothing is rewritten |
| `JobRecords.ReplacedOnlyWhenUnique` | app.py:973-980 | An unknown id is replaced exactly when the (hr, title) ids, or failing them the title ids, name one job, and then by that job's id |
| `JobRecords.NormalizeKeepsPosted` | app.py:982-995 | Non-blank posted fields are kept stripped; blank ones are filled from the job the row's id names |
| `JobRecords.HrTableAt` | app.py:738-767 | Each HR row is the resolution of the posted row at the same position |
| `JobRecords.HrJobs` | app.py:727-767 | Resolves each posted row against the unfiltered id index and the title index of the listed jobs |
| `JobRecords.ResolveAll` | app.py:736-767 | The loop computes the HR job list and the posted-id list |
| `JobRecords.HrResolution` | app.py:745-765 | A listed id shows that job; otherwise a title held by exactly one job shows that job; otherwise the posted row is shown |
| `JobRecords.IdsWithTitleListed` | app.py:729-752 | Every id found by title is a listed id, so the title fallback always finds its job |
| `JobRecords.PostedIdsNonNegative` | app.py:754-767 | The id list used to look up applicants holds no negative id |
| `Courses.CourseScore` | course_recommender.py:37-38 | A course's score never exceeds the number of missing skills |
| `Courses.RowCandidate` | course_recommender.py:33-42 | A row is a candidate exactly when its skills cell is text and overlaps the missing skills; it keeps its title and url, scored by the overlap |
| `Courses.CandidateFromRow` | course_recommender.py:29-42 | Every candidate comes from a table row with a text skills cell, scored by its overlap, which is positive |
| `Courses.RowBecomesCandidate` | course_recommender.py:29-42 | Every row that overlaps the missing skills is a candidate |
| `Courses.CourseScorePositive` | course_recommender.py:27-38 | A course skill equal, after normalising, to a missing skill makes the score positive |
| `Courses.CourseScoreWitness` | course_recommender.py:27-38 | A positive score has a course skill and a missing skill that agree after normalising |
| `Courses.CandidatesPositive` | course_recommender.py:40-42 | Every candidate has a positive score |
| `Courses.TopCandidatesProps` | course_recommender.py:44-48 | At most `top_n` are recommended, all with positive scores; all candidates when they fit; none left out outscores one kept |
| `Courses.SortKeepsTableOrderOnTies` | course_recommender.py:45 | Courses with equal scores keep their table order |
| `Courses.ScoreCourses` | course_recommender.py:25-42 | The row loop computes the candidate list |
| `Courses.RecommendCourses` | course_recommender.py:9-50 | A missing table gives `[]`; otherwise the best `top_n` candidates by overlap, as title and url |
| `Courses.ElementCourse` | course_recommender.py:92-101 | An element gives a course exactly when its name or slug is non-empty; the title prefers the name; the url is the learn page of the slug, or the site |
| `Courses.ElementsToCourses` | course_recommender.py:91-101 | The element loop keeps the courses of the elements that have a title, in order |
| `Courses.GatherCourses` | course_recommender.py:84-103 | The skill loop concatenates each skill's search results, skipping failed searches |
| `Courses.DedupByTitle` | course_recommender.py:105-111 | The de-duplication loop computes `DedupBy` on stripped titles |
| `Courses.FetchCourses` | course_recommender.py:60-119 | Computes the fetch: `[]` without non-empty skills, else the cached list, else the de-duplicated Coursera results (none for other providers) |
| `Courses.NoSkillsNoCourses` | course_recommender.py:65-67 | Only empty skills means no courses, even with a cache entry |
| `Courses.FetchedTitlesDistinct` | course_recommender.py:105-111 | Fetched courses have non-empty, pairwise distinct stripped titles |
| `Courses.FetchedFirstOfEachTitle` | course_recommender.py:82-111 | The fetch keeps exactly the first course of each title, in search order |
| `Courses.SearchCoursesShaped` | course_recommender.py:87-101 | Every course from a search reply has a title, an empty description, and the site url or a learn-page url |
| `Courses.GatheredShaped` | course_recommender.py:84-103 | The same holds for everything gathered over all skills |
| `Courses.FetchedCoursesShaped` | course_recommender.py:82-111 | The same holds for every fetched course |
| `Courses.DrawnIndices` | course_recommender.py:133-134 | Each ranked entry is the item of a distinct course index |
| `Courses.PickIndices` | course_recommender.py:136-140 | No ranked entry is dropped: entry `i` picks course `courses[int(id)]` at a distinct index, with score `round(score × 100)` |
| `Courses.PickScores` | course_recommender.py:136-140 | Every pick has a score in `[0, 100]`, and picks come in non-increasing score order |
| `Courses.CourseRankingProps` | course_recommender.py:132-134 | The course ranking draws from the course items, scores in `[0, 1]`, is sorted, and has at most `top_n` and at most `len(courses)` entries |
| `Courses.BlankSkillsStripAway` | course_recommender.py:123 | Skills that are all blank strip away to nothing |
| `Courses.RagBlankSkills` | course_recommender.py:123-125 | Only blank skills means no recommendation |
| `Courses.RecommendRagShape` | course_recommender.py:121-141 | At most `top_n` results, either all CSV listings (the fallback) or all scored courses with scores in `[0, 100]` in non-increasing order |
| `Courses.PickCourses` | course_recommender.py:136-140 | The pick loop computes the scored courses |
| `Courses.RecommendCoursesRag` | course_recommender.py:121-141 | Computes the recommendation: strip the skills, fetch, fall back to the CSV recommender when nothing is fetched, else rank and score |
| `Remote.Get` | resume_parser.py:69 | `.get(key, default)` on a dict returns the value or the default, and raises on anything else |
| `Remote.First` | resume_parser.py:69 | `[0]` succeeds exactly on a non-empty list or string |
| `Remote.ContentTextOfReply` | job_matcher.py:49 | The response walk finds the text of a well-formed reply |
| `Remote.ContentTextMissing` | job_matcher.py:49 | A reply without `candidates` yields `None` text; an empty `candidates` list raises an index error |
| `Remote.CleanFences` | job_matcher.py:57 | The cleaned text is stripped |
| `Remote.CleanFencedJson` | job_matcher.py:56-57 | A ```` ```json ```` fenced body cleans to the stripped body |
| `Remote.CleanWithoutFences` | job_matcher.py:57 | Text without backticks only gets stripped |
| `Remote.ReadReply` | job_matcher.py:37-57 | A status other than 200 is reported with its code; a 200 reply with text gives the cleaned text; a request error is a network failure |
| `Remote.ReadFencedReply` | job_matcher.py:42-57 | A 200 reply whose text is fenced JSON cleans to the JSON |
| `ResumeParser.EmptyEntities` | resume_parser.py:41 | The default result has exactly the four entity keys, each an empty list |
| `ResumeParser.PromptExcerpt` | resume_parser.py:52 | The prompt holds the first 4000 characters of the text, all of it when shorter |
| `ResumeParser.LastIndex` | resume_parser.py:15 | The last position of a character, or -1 when it does not occur |
| `ResumeParser.SplitExt` | resume_parser.py:15 | The extension is empty or a suffix of the path that starts with a dot and has no other dot or slash |
| `ResumeParser.SplitExtOf` | resume_parser.py:15 | Worked example, not a general property: a plain stem followed by a four-character extension splits off that extension |
| `ResumeParser.NonEmptyPages` | resume_parser.py:19 | Empty page texts are dropped |
| `ResumeParser.ExtractTextFromFile` | resume_parser.py:12-31 | Text comes only from `.pdf`, `.docx` and `.txt` files, matched case-insensitively, each through its own reader |
| `ResumeParser.BlankPdfIsEmpty` | resume_parser.py:19 | A PDF whose pages have no text yields `''` |
| `ResumeParser.UpperCasePdf` | resume_parser.py:15-16 | `.PDF` is read like `.pdf` |
| `ResumeParser.AddMissingKeys` | resume_parser.py:79-82 | Missing entity keys are added as empty lists, and existing keys are untouched |
| `ResumeParser.CheckKeysPresent` | resume_parser.py:79-82 | On a non-dict result, the key check passes exactly when every key is a member |
| `ResumeParser.EmptyHasKeys` | resume_parser.py:41 | The default result has every entity key |
| `ResumeParser.CompleteParsed` | resume_parser.py:77-84 | A parsed dict keeps its entries and gains the missing keys; any other value is returned when every key is a member and replaced by the default otherwise |
| `ResumeParser.ExtractResumeEntities` | resume_parser.py:33-99 | A missing key, empty text or any failure gives the default; otherwise exactly the completed parsed reply (`IsEntities`): a dict with its entries plus the missing keys, or a non-dict value kept exactly when every key is a member of it |
| `ResumeParser.CompletesUnique` | resume_parser.py:77-84 | The key-completion step determines its result: two completions of the same parsed value are equal |
| `ResumeParser.IsEntitiesUnique` | resume_parser.py:33-99 | The entities are determined by the key, the text, the exchange and the parse, so the method's contract fixes its result |
| `ResumeParser.ParseResumeFile` | resume_parser.py:102-111 | No text gives `{}`; otherwise the result is the entities of the extracted text (`IsEntities`), so a dict result has all entity keys |
| `SkillGap.LocalGap` | skill_gap.py:15-22 | Without a key, the gap is the set of normalised job skills minus the normalised résumé skills; a non-string entry gives `[]` |
| `SkillGap.LocalGapOmitsHeld` | skill_gap.py:18-20 | A skill the résumé holds is never reported missing |
| `SkillGap.LocalGapReportsMissing` | skill_gap.py:18-20 | A job skill the résumé does not hold is reported |
| `SkillGap.LocalGapFromJd` | skill_gap.py:18-20 | Every reported skill comes from the job skills |
| `SkillGap.MissingSkills` | skill_gap.py:61-68 | The reply's `missing_skills` list is returned as is, and anything else becomes `[]` |
| `SkillGap.FindSkillGap` | skill_gap.py:9-83 | Without a key, the local gap; with a key, `[]` for empty inputs or any failure, else the reply's list |
| `SkillGap.RemoteFailuresGiveEmpty` | skill_gap.py:43-83 | Every failed exchange or unparseable reply gives `[]` |
| `JobMatcher.FromParsed` | job_matcher.py:59-70 | A numeric score is returned with the feedback or its default; a non-numeric score gives 0 and the parse message |
| `JobMatcher.MatchReply` | job_matcher.py:37-92 | A bad status, a missing content, a raised failure and an unusable parse each give 0 and their message; a reply with a numeric score gives that score and its feedback |
| `JobMatcher.MatchResumeToJd` | job_matcher.py:13-92 | The score is always a number; without a key, 0 and the key message; with a key, exactly the outcome `MatchReply` states for the reply, so each failure gives 0 and its own message and a usable reply gives its score and feedback |
| `JobMatcher.ReplyScoreReturned` | job_matcher.py:61-70 | A numeric reply score is returned unchanged, with the default feedback when none is given |
| `JobMatcher.ScoreNotClamped` | job_matcher.py:64-70 | Worked example, not a general property: a reply score of 250 is returned as 250, without clamping |
| `JobMatcher.NonNumericScore` | job_matcher.py:65-68 | A non-numeric reply score gives 0 and the parse message |
| `JobMatcher.StatusMessageNamesStatus` | job_matcher.py:42-45 | A failed status gives a message that contains the status code |
| `JobMatcher.FailuresScoreZero` | job_matcher.py:37-92 | Every failure scores 0 with a text message |

## Left out

- Flask routes, sessions, templates, the database, file reads and writes, and the CSV write-back of `normalize_posted_ids` are not modelled. CSV files are their rows, as `csv.reader` yields them; the course table read with pandas is described under `Courses.RecommendCourses` below.
- The pandas path of `get_jobs` (app.py:204-225) is not modelled. Only the `csv.reader` fallback is.
- HTTP requests are modelled as an exchange value: a raised request, or a status with a body. `json.loads` is an opaque parse function passed in by the caller.
- Sentence-transformer encodings and cross-encoder predictions are inputs: `None` when encoding or prediction fails.
- Environment variables (`EMBEDDINGS_MODEL`, `USE_RERANKER`, `RERANKER_MODEL`, `RERANK_PRESELECT`, `COVERAGE_WEIGHT`, `USE_AI_MATCH`, `GEMINI_API_KEY`) are parameters.
- Floating-point numbers are modelled as exact reals. Rounding differences of binary floats are not captured.
- `str.lower` is modelled on ASCII letters only. Unicode case mapping is not part of this model.
- The construction of the `job_matches` dictionaries and the `if resume_info and jobs` guard are not modelled (app.py:555, 621-630). Neither is the skill-gap call for the first job (app.py:556-558).
- The `try`/`except` around the ranking calls in app.py is not modelled, because the modelled engine does not raise. Neither is the fallback from `recommend_courses_rag` to `recommend_courses` (app.py:560-563).
- `recommend_courses` reads the course table from a file. A missing file is modelled as a `None` table. The default path construction is not modelled.
- The on-disk course cache is an input: the cached list, or `None`. The md5 key and the JSON dump are not modelled.
- `max_per_skill` and the request headers are not modelled. A search that fails, for any reason, is modelled as a `None` reply.
- Course element `name` and `slug` values are modelled as optional strings. Non-string values are not modelled.
- `recommend_courses_rag` sets `c['score']` in place on the fetched course dictionaries, which also changes the cached objects. The model returns `Picked(course, score)` values instead, so that aliasing is not captured.
- `Courses.PickOf`: a ranked id that names no course is dropped instead of raising. `Courses.PickIndices` proves that this never happens for rankings drawn from the course items.
- `JobRecords.HeuristicJob`: its contract states which rows are kept, their id and their title. The other columns are stated only for rows of six or more cells, by `JobRecords.HeuristicRecoversDescription`.
- `parse_jd_file` (resume_parser.py:113-122) is `parse_resume_file` with another prompt label. The prompt text itself is not modelled beyond its 4000-character excerpt.
- Printing and logging are not modelled.
- `Courses.RecommendCourses`: the table is read with `pd.read_csv` (course_recommender.py:20). The model types only the skills cell as pandas does (text or missing). An empty title or url cell is NaN in the source and an empty string in the model. A table without a `url` column raises `KeyError` at course_recommender.py:42, while the model's rows always have a url, so that error is not captured.
- `Text.ParseInt`: Python's `int(str)` also accepts underscores between digits (`"1_000"`) and non-ASCII decimal digits. The model accepts only optional whitespace, a sign and ASCII digits. So `JobRecords.PostedRow` drops a posted row whose id cell is written in such a form, while app.py:1109-1110 keeps it. Ids the application writes itself are `str(int)`, which `Text.IntToStringRoundTrip` covers.
- `SkillGap.LocalGap`: the local gap `list(js - rs)` (skill_gap.py:20) is listed in Python's set iteration order, which is unspecified. The model returns the set (`Gap.Unordered`), so the order of that list is not captured.

/**
 * The course recommenders.
 *
 * recommend_courses scores every row of the local course table by how many
 * of the missing skills it teaches, keeps the rows that teach at least one,
 * orders them by that count (ties in table order) and returns the first
 * top_n as {title, url}.  fetch_courses_external asks the course site's
 * search once per skill, turns each returned element into a course and
 * drops repeated titles.  recommend_courses_rag ranks the fetched courses
 * against the skills with the ranking engine and gives each pick a whole
 * percentage score, falling back to the local table when nothing is fetched.
 *
 * The table rows, the on-disk cache, the site's search replies and the
 * ranking engine's model outputs are inputs.
 */
module Courses {
  import opened Wrappers
  import opened Text
  import opened Numeric
  import opened Sorting
  import opened Rag
  import opened Scoring
  import opened Unique

  /** One row of the course table; `skills` is None when the cell is not a string (an empty cell). */
  datatype CourseRow = CourseRow(title: string, url: string, skills: Option<string>)

  /** (title, url, score) for a row that teaches at least one missing skill. */
  datatype Candidate = Candidate(title: string, url: string, score: nat)

  /** A fetched course: {title, url, description}. */
  datatype Course = Course(title: string, url: string, description: string)

  /** What a recommender returns per course: {title, url} from the table, or a ranked course with its score. */
  datatype Offer = Listed(title: string, url: string) | Picked(course: Course, score: int)

  // ------------------------------------------------------------ recommend_courses

  /** set(ms.lower().strip() for ms in missing_skills) */
  function MissingSet(missing: seq<string>): set<string> {
    set i | 0 <= i < |missing| :: Strip(Lower(missing[i]))
  }

  /** set(s.strip().lower() for s in cell.split(',')) */
  function CourseSkillSet(cell: string): set<string> {
    var parts := Split(cell, ',');
    set i | 0 <= i < |parts| :: Lower(Strip(parts[i]))
  }

  /** len(set(course_skills) & missing_skills_set) */
  function CourseScore(cell: string, miss: set<string>): (n: nat)
    ensures n <= |miss|
  {
    SubsetCard(CourseSkillSet(cell) * miss, miss);
    |CourseSkillSet(cell) * miss|
  }

  /** The (title, url, score) a row contributes: none when its skills cell is not a string or the overlap is empty. */
  function RowCandidate(row: CourseRow, miss: set<string>): (r: Option<Candidate>)
    ensures r.Some? <==> row.skills.Some? && CourseScore(row.skills.value, miss) > 0
    ensures r.Some? ==> r.value.title == row.title && r.value.url == row.url
                        && r.value.score == CourseScore(row.skills.value, miss)
  {
    if row.skills.Some? && CourseScore(row.skills.value, miss) > 0
    then Some(Candidate(row.title, row.url, CourseScore(row.skills.value, miss)))
    else None
  }

  function RowCandidateOf(miss: set<string>): CourseRow -> Option<Candidate> {
    row => RowCandidate(row, miss)
  }

  /** course_scores after the loop over the table, in table order. */
  function Candidates(rows: seq<CourseRow>, miss: set<string>): (r: seq<Candidate>)
    ensures |r| <= |rows|
  {
    Somes(MapSeq(rows, RowCandidateOf(miss)))
  }

  function CandidateKey(c: Candidate): real {
    c.score as real
  }

  function ListingOf(c: Candidate): Offer {
    Listed(c.title, c.url)
  }

  /** course_scores after the sort and the [:top_n] cut. */
  function TopCandidates(rows: seq<CourseRow>, missing: seq<string>, topN: int): seq<Candidate> {
    PyPrefix(SortDesc(Candidates(rows, MissingSet(missing)), CandidateKey), topN)
  }

  /** recommend_courses(missing_skills, top_n=top_n); `table` is None when the file does not exist. */
  function Recommend(table: Option<seq<CourseRow>>, missing: seq<string>, topN: int): seq<Offer> {
    if table.None? then [] else MapSeq(TopCandidates(table.value, missing, topN), ListingOf)
  }

  /** The scoring loop over the table rows. */
  method ScoreCourses(rows: seq<CourseRow>, miss: set<string>) returns (scores: seq<Candidate>)
    ensures scores == Candidates(rows, miss)
  {
    ghost var f := RowCandidateOf(miss);
    scores := [];
    for i := 0 to |rows|
      invariant scores == Somes(MapSeq(rows[..i], f))
    {
      var c := RowCandidate(rows[i], miss);
      MapSeqSnoc(rows, i, f);
      SomesSnoc(MapSeq(rows[..i + 1], f), i);
      assert MapSeq(rows[..i + 1], f)[..i] == MapSeq(rows[..i], f);
      if c.Some? {
        scores := scores + [c.value];
      }
    }
    assert rows[..|rows|] == rows;
  }

  /** recommend_courses: score, sort by descending score, cut to top_n, keep title and url. */
  method RecommendCourses(table: Option<seq<CourseRow>>, missing: seq<string>, topN: int) returns (r: seq<Offer>)
    ensures r == Recommend(table, missing, topN)
  {
    if table.None? {
      return [];
    }
    var miss := MissingSet(missing);
    var scores := ScoreCourses(table.value, miss);
    scores := StableSortDesc(scores, CandidateKey);
    r := MapSeq(PyPrefix(scores, topN), ListingOf);
  }

  /** Every candidate comes from a row with a string skills cell, with its title, url and positive overlap. */
  lemma CandidateFromRow(rows: seq<CourseRow>, miss: set<string>, i: int) returns (j: int)
    requires 0 <= i < |Candidates(rows, miss)|
    ensures 0 <= j < |rows| && rows[j].skills.Some?
    ensures Candidates(rows, miss)[i] == Candidate(rows[j].title, rows[j].url, CourseScore(rows[j].skills.value, miss))
    ensures Candidates(rows, miss)[i].score > 0
  {
    var s := MapSeq(rows, RowCandidateOf(miss));
    j := SomesFrom(s, i);
    assert s[j] == RowCandidate(rows[j], miss);
  }

  /** Every row whose string skills cell overlaps the missing skills yields a candidate. */
  lemma RowBecomesCandidate(rows: seq<CourseRow>, miss: set<string>, j: int)
    requires 0 <= j < |rows| && rows[j].skills.Some? && CourseScore(rows[j].skills.value, miss) > 0
    ensures Candidate(rows[j].title, rows[j].url, CourseScore(rows[j].skills.value, miss)) in Candidates(rows, miss)
  {
    var s := MapSeq(rows, RowCandidateOf(miss));
    assert s[j] == RowCandidate(rows[j], miss);
    SomesHas(s, j);
  }

  /** A row scores exactly when one of its stripped, lower-cased skills is a missing skill. */
  lemma CourseScorePositive(cell: string, missing: seq<string>, k: int, m: int)
    requires 0 <= k < |Split(cell, ',')| && 0 <= m < |missing|
    requires Lower(Strip(Split(cell, ',')[k])) == Strip(Lower(missing[m]))
    ensures CourseScore(cell, MissingSet(missing)) > 0
  {
    InCourseSkillSet(cell, k);
    InMissingSet(missing, m);
    SharedMember(CourseSkillSet(cell), MissingSet(missing), Lower(Strip(Split(cell, ',')[k])));
  }

  lemma SharedMember<T>(a: set<T>, b: set<T>, x: T)
    requires x in a && x in b
    ensures |a * b| > 0
  {
    assert x in a * b;
  }

  /** Conversely, a positive score names a course skill that is a missing skill. */
  lemma CourseScoreWitness(cell: string, missing: seq<string>) returns (k: int, m: int)
    requires CourseScore(cell, MissingSet(missing)) > 0
    ensures 0 <= k < |Split(cell, ',')| && 0 <= m < |missing|
    ensures Lower(Strip(Split(cell, ',')[k])) == Strip(Lower(missing[m]))
  {
    var both := CourseSkillSet(cell) * MissingSet(missing);
    assert both != {};
    var x :| x in both;
    k := FromCourseSkillSet(cell, x);
    m := FromMissingSet(missing, x);
  }

  lemma FromCourseSkillSet(cell: string, x: string) returns (k: int)
    requires x in CourseSkillSet(cell)
    ensures 0 <= k < |Split(cell, ',')| && Lower(Strip(Split(cell, ',')[k])) == x
  {
    var parts := Split(cell, ',');
    k :| 0 <= k < |parts| && Lower(Strip(parts[k])) == x;
  }

  lemma FromMissingSet(missing: seq<string>, x: string) returns (m: int)
    requires x in MissingSet(missing)
    ensures 0 <= m < |missing| && Strip(Lower(missing[m])) == x
  {
    m :| 0 <= m < |missing| && Strip(Lower(missing[m])) == x;
  }

  lemma InCourseSkillSet(cell: string, k: int)
    requires 0 <= k < |Split(cell, ',')|
    ensures Lower(Strip(Split(cell, ',')[k])) in CourseSkillSet(cell)
  {
  }

  lemma InMissingSet(missing: seq<string>, m: int)
    requires 0 <= m < |missing|
    ensures Strip(Lower(missing[m])) in MissingSet(missing)
  {
  }

  /** Every candidate has a positive score. */
  lemma CandidatesPositive(rows: seq<CourseRow>, miss: set<string>)
    ensures forall c :: c in Candidates(rows, miss) ==> c.score > 0
  {
    forall c | c in Candidates(rows, miss) ensures c.score > 0 {
      var i :| 0 <= i < |Candidates(rows, miss)| && Candidates(rows, miss)[i] == c;
      var _ := CandidateFromRow(rows, miss, i);
    }
  }

  /**
   * The cut keeps the best: the result is ordered by descending score, holds
   * at most top_n candidates, all with a positive score, all of them when
   * they fit, and every candidate it leaves out scores no higher than any it keeps.
   */
  lemma TopCandidatesProps(rows: seq<CourseRow>, missing: seq<string>, topN: int)
    ensures var cands := Candidates(rows, MissingSet(missing));
            var top := TopCandidates(rows, missing, topN);
            SortedDesc(top, CandidateKey)
            && (topN >= 0 ==> |top| <= topN)
            && (forall c :: c in top ==> c.score > 0)
            && (|cands| <= topN ==> multiset(top) == multiset(cands))
            && (forall c, i :: c in multiset(cands) - multiset(top) && 0 <= i < |top| ==> c.score <= top[i].score)
  {
    var cands := Candidates(rows, MissingSet(missing));
    var top := TopCandidates(rows, missing, topN);
    TopOfSort(cands, CandidateKey, topN);
    CandidatesPositive(rows, MissingSet(missing));
    forall c | c in top ensures c.score > 0 {
      assert c in multiset(top);
    }
    forall c, i | c in multiset(cands) - multiset(top) && 0 <= i < |top| ensures c.score <= top[i].score {
      assert CandidateKey(c) <= CandidateKey(top[i]);
    }
  }

  /** Candidates of equal score keep their table order through the sort. */
  lemma SortKeepsTableOrderOnTies(rows: seq<CourseRow>, missing: seq<string>)
    ensures var cands := Candidates(rows, MissingSet(missing));
            forall v :: WithKey(SortDesc(cands, CandidateKey), CandidateKey, v) == WithKey(cands, CandidateKey, v)
  {
    SortDescStable(Candidates(rows, MissingSet(missing)), CandidateKey);
  }

  // ------------------------------------------------------------ fetch_courses_external

  /** One element of a search reply: its "name" and "slug", None when absent or null. */
  datatype Element = Element(name: Option<string>, slug: Option<string>)

  const CourseraProvider: string := "coursera"
  const CourseraSite: string := "https://www.coursera.org"
  const CourseraLearn: string := "https://www.coursera.org/learn/"

  /** e.get(key) or '' */
  function OrEmpty(v: Option<string>): string {
    if v.Some? then v.value else ""
  }

  /** The course an element gives: titled by its name, else its slug; none when both are empty. */
  function ElementCourse(e: Element): (r: Option<Course>)
    ensures r.None? <==> OrEmpty(e.name) == "" && OrEmpty(e.slug) == ""
    ensures r.Some? ==> r.value.title != "" && r.value.description == ""
    ensures r.Some? && OrEmpty(e.name) != "" ==> r.value.title == OrEmpty(e.name)
    ensures r.Some? && OrEmpty(e.name) == "" ==> r.value.title == OrEmpty(e.slug)
    ensures r.Some? && OrEmpty(e.slug) != "" ==> r.value.url == CourseraLearn + OrEmpty(e.slug)
    ensures r.Some? && OrEmpty(e.slug) == "" ==> r.value.url == CourseraSite
  {
    var title := if OrEmpty(e.name) != "" then OrEmpty(e.name) else OrEmpty(e.slug);
    if title == "" then None
    else
      var slug := OrEmpty(e.slug);
      Some(Course(title, if slug != "" then CourseraLearn + slug else CourseraSite, ""))
  }

  /** The courses of one skill's search: none when the request failed or the status was not 200. */
  function SearchCourses(reply: Option<seq<Element>>): seq<Course> {
    if reply.Some? then Somes(MapSeq(reply.value, ElementCourse)) else []
  }

  /** `out` after the loop over the skills: each skill's courses, in skill order. */
  function Gathered(skills: seq<string>, search: string -> Option<seq<Element>>): seq<Course> {
    if skills == [] then []
    else Gathered(skills[..|skills| - 1], search) + SearchCourses(search(skills[|skills| - 1]))
  }

  /** c.get('title', '').strip(): the key the de-duplication loop compares. */
  function TitleKey(c: Course): string {
    Strip(c.title)
  }

  /** [s for s in skills if s] */
  function NonEmptyOf(s: string): Option<string> {
    if s != "" then Some(s) else None
  }

  function NonEmptySkills(skills: seq<string>): seq<string> {
    Somes(MapSeq(skills, NonEmptyOf))
  }

  /**
   * fetch_courses_external(skills, provider): [] without a non-empty skill;
   * the cached list when the cache holds one for these skills; otherwise the
   * fetched courses with repeated titles dropped.
   */
  function FetchCoursesExternal(skills: seq<string>, provider: string, cache: Option<seq<Course>>,
                                search: string -> Option<seq<Element>>): seq<Course> {
    var kept := NonEmptySkills(skills);
    if kept == [] then []
    else if cache.Some? then cache.value
    else DedupBy(if provider == CourseraProvider then Gathered(kept, search) else [], TitleKey)
  }

  lemma GatheredStep(skills: seq<string>, search: string -> Option<seq<Element>>, i: int)
    requires 0 <= i < |skills|
    ensures Gathered(skills[..i + 1], search) == Gathered(skills[..i], search) + SearchCourses(search(skills[i]))
  {
    var p := skills[..i + 1];
    assert p[..|p| - 1] == skills[..i];
    assert p[|p| - 1] == skills[i];
  }

  /** The loop over one search reply's elements. */
  method ElementsToCourses(elements: seq<Element>) returns (out: seq<Course>)
    ensures out == Somes(MapSeq(elements, ElementCourse))
  {
    out := [];
    for j := 0 to |elements|
      invariant out == Somes(MapSeq(elements[..j], ElementCourse))
    {
      var c := ElementCourse(elements[j]);
      MapSeqSnoc(elements, j, ElementCourse);
      SomesSnoc(MapSeq(elements[..j + 1], ElementCourse), j);
      assert MapSeq(elements[..j + 1], ElementCourse)[..j] == MapSeq(elements[..j], ElementCourse);
      if c.Some? {
        out := out + [c.value];
      }
    }
    assert elements[..|elements|] == elements;
  }

  /** The loop over the skills, one search each. */
  method GatherCourses(skills: seq<string>, search: string -> Option<seq<Element>>) returns (out: seq<Course>)
    ensures out == Gathered(skills, search)
  {
    out := [];
    for i := 0 to |skills|
      invariant out == Gathered(skills[..i], search)
    {
      GatheredStep(skills, search, i);
      var reply := search(skills[i]);
      if reply.Some? {
        var found := ElementsToCourses(reply.value);
        out := out + found;
      }
    }
    assert skills[..|skills|] == skills;
  }

  /** The de-duplication loop with its `seen` set. */
  method DedupByTitle(out: seq<Course>) returns (uniq: seq<Course>)
    ensures uniq == DedupBy(out, TitleKey)
  {
    var seen: set<string> := {};
    uniq := [];
    for i := 0 to |out|
      invariant uniq == DedupBy(out[..i], TitleKey)
      invariant seen == Keys(uniq, TitleKey)
    {
      DedupByStep(out, TitleKey, i);
      var c := out[i];
      var t := Strip(c.title);
      if t != "" && t !in seen {
        KeysSnoc(uniq, c, TitleKey);
        seen := seen + {t};
        uniq := uniq + [c];
      }
    }
    assert out[..|out|] == out;
  }

  /** fetch_courses_external, with its two loops. */
  method FetchCourses(skills: seq<string>, provider: string, cache: Option<seq<Course>>,
                      search: string -> Option<seq<Element>>) returns (r: seq<Course>)
    ensures r == FetchCoursesExternal(skills, provider, cache, search)
  {
    var kept := NonEmptySkills(skills);
    if kept == [] {
      return [];
    }
    if cache.Some? {
      return cache.value;
    }
    var out: seq<Course> := [];
    if provider == CourseraProvider {
      out := GatherCourses(kept, search);
    }
    r := DedupByTitle(out);
  }

  /** Without a non-empty skill nothing is fetched. */
  lemma NoSkillsNoCourses(skills: seq<string>, provider: string, cache: Option<seq<Course>>,
                          search: string -> Option<seq<Element>>)
    requires forall i :: 0 <= i < |skills| ==> skills[i] == ""
    ensures FetchCoursesExternal(skills, provider, cache, search) == []
  {
    SomesAllNone(MapSeq(skills, NonEmptyOf));
  }

  /** The stripped titles of a course list are non-empty and pairwise distinct. */
  predicate TitlesDistinct(cs: seq<Course>) {
    (forall i :: 0 <= i < |cs| ==> TitleKey(cs[i]) != "")
    && (forall i, j :: 0 <= i < j < |cs| ==> TitleKey(cs[i]) != TitleKey(cs[j]))
  }

  /** A course built from a search element: titled, without description, linked to the site or to its slug's page. */
  predicate SiteCourse(c: Course) {
    c.title != "" && c.description == ""
    && (c.url == CourseraSite || (CourseraLearn <= c.url && |c.url| > |CourseraLearn|))
  }

  /** A fresh fetch never returns two courses whose stripped titles agree, nor a blank title. */
  lemma FetchedTitlesDistinct(skills: seq<string>, provider: string, search: string -> Option<seq<Element>>)
    ensures TitlesDistinct(FetchCoursesExternal(skills, provider, None, search))
  {
    var kept := NonEmptySkills(skills);
    if kept != [] {
      DedupByUnique(if provider == CourseraProvider then Gathered(kept, search) else [], TitleKey);
    }
  }

  /** A fresh fetch keeps exactly the first course of every non-blank stripped title, in search order. */
  lemma FetchedFirstOfEachTitle(skills: seq<string>, search: string -> Option<seq<Element>>)
    requires NonEmptySkills(skills) != []
    ensures FetchCoursesExternal(skills, CourseraProvider, None, search)
            == Firsts(Gathered(NonEmptySkills(skills), search), TitleKey, |Gathered(NonEmptySkills(skills), search)|)
  {
    DedupByIsFirsts(Gathered(NonEmptySkills(skills), search), TitleKey);
  }

  /** Every course of one search reply is a site course. */
  lemma SearchCoursesShaped(reply: Option<seq<Element>>, c: Course)
    requires c in SearchCourses(reply)
    ensures SiteCourse(c)
  {
    var s := MapSeq(reply.value, ElementCourse);
    var i :| 0 <= i < |Somes(s)| && Somes(s)[i] == c;
    var j := SomesFrom(s, i);
    assert ElementCourse(reply.value[j]) == Some(c);
  }

  /** Every gathered course is a site course. */
  lemma {:induction false} GatheredShaped(skills: seq<string>, search: string -> Option<seq<Element>>)
    ensures forall c :: c in Gathered(skills, search) ==> SiteCourse(c)
  {
    if skills != [] {
      var p := skills[..|skills| - 1];
      var reply := search(skills[|skills| - 1]);
      GatheredShaped(p, search);
      forall c | c in SearchCourses(reply) ensures SiteCourse(c) {
        SearchCoursesShaped(reply, c);
      }
    }
  }

  /** Every course of a fresh fetch has a title, an empty description and a course-site url. */
  lemma FetchedCoursesShaped(skills: seq<string>, provider: string, search: string -> Option<seq<Element>>)
    ensures forall c :: c in FetchCoursesExternal(skills, provider, None, search) ==> SiteCourse(c)
  {
    var kept := NonEmptySkills(skills);
    if kept != [] {
      var out := if provider == CourseraProvider then Gathered(kept, search) else [];
      GatheredShaped(kept, search);
      DedupByMembers(out, TitleKey);
    }
  }

  // ------------------------------------------------------------ recommend_courses_rag

  /** [(str(i), f"{title} {description}") for i, c in enumerate(courses)] */
  function CourseItems(courses: seq<Course>): (r: seq<Item>)
    ensures |r| == |courses|
  {
    seq(|courses|, i requires 0 <= i < |courses| => Item(IntToString(i), courses[i].title + " " + courses[i].description))
  }

  /** best_matches(' '.join(skills), items, top_k=top_n) over the enumerated courses. */
  function CourseRanking(ss: seq<string>, courses: seq<Course>, topN: int, m: ModelOutputs): seq<Scored> {
    Rank(Join(" ", ss), CourseItems(courses), topN, m.floor, m.embs, m.rerank)
  }

  /** courses[int(iid)] with its score set to round(score * 100); none when the id names no course. */
  function PickOf(courses: seq<Course>, s: Scored): Option<Offer> {
    var k := ParseInt(s.id);
    if k.Some? && 0 <= k.value < |courses| then Some(Picked(courses[k.value], RoundHalfEven(s.score * 100.0)))
    else None
  }

  function PickOfIn(courses: seq<Course>): Scored -> Option<Offer> {
    s => PickOf(courses, s)
  }

  /** `picks` after the loop over the ranking. */
  function Picks(courses: seq<Course>, ranked: seq<Scored>): (r: seq<Offer>)
    ensures |r| <= |ranked|
  {
    Somes(MapSeq(ranked, PickOfIn(courses)))
  }

  /** The picks for a non-empty list of fetched courses. */
  function RagPicks(ss: seq<string>, courses: seq<Course>, topN: int, m: ModelOutputs): seq<Offer> {
    Picks(courses, CourseRanking(ss, courses, topN, m))
  }

  /**
   * recommend_courses_rag(skills, top_n): [] without a non-blank skill; the
   * table recommendation for the stripped skills when nothing is fetched;
   * otherwise the ranked picks.
   */
  function RecommendRag(skills: seq<string>, topN: int, table: Option<seq<CourseRow>>, cache: Option<seq<Course>>,
                        search: string -> Option<seq<Element>>, m: ModelOutputs): seq<Offer> {
    var ss := StrippedSkills(skills);
    if ss == [] then []
    else
      var courses := FetchCoursesExternal(ss, CourseraProvider, cache, search);
      if courses == [] then Recommend(table, ss, topN) else RagPicks(ss, courses, topN, m)
  }

  /** Two entries of a ranking drawn from the course items never name the same course. */
  lemma DrawnDistinct(courses: seq<Course>, ranked: seq<Scored>, i: int, j: int, ki: int, kj: int)
    requires DrawnFrom(ranked, CourseItems(courses))
    requires 0 <= i < j < |ranked|
    requires 0 <= ki < |courses| && Pairs(ranked)[i] == CourseItems(courses)[ki]
    requires 0 <= kj < |courses| && Pairs(ranked)[j] == CourseItems(courses)[kj]
    ensures ki != kj
  {
    var items := CourseItems(courses);
    forall t | 0 <= t < |items| && t != ki ensures items[t] != items[ki] {
      IntToStringRoundTrip(t);
      IntToStringRoundTrip(ki);
    }
    CountOnce(items, ki);
    CountAtLeast(Pairs(ranked), i, j);
  }

  /** Every entry of a ranking drawn from the course items is the item of one course. */
  lemma DrawnEntry(courses: seq<Course>, ranked: seq<Scored>, i: int) returns (k: int)
    requires DrawnFrom(ranked, CourseItems(courses))
    requires 0 <= i < |ranked|
    ensures 0 <= k < |courses| && Pairs(ranked)[i] == CourseItems(courses)[k]
  {
    var items := CourseItems(courses);
    var pair := Pairs(ranked)[i];
    assert pair in multiset(Pairs(ranked));
    assert pair in multiset(items);
    k :| 0 <= k < |items| && items[k] == pair;
  }

  /** The course index behind every entry of a ranking drawn from the course items, no index twice. */
  lemma DrawnIndices(courses: seq<Course>, ranked: seq<Scored>) returns (ks: seq<int>)
    requires DrawnFrom(ranked, CourseItems(courses))
    ensures |ks| == |ranked|
    ensures forall i :: 0 <= i < |ks| ==> 0 <= ks[i] < |courses| && Pairs(ranked)[i] == CourseItems(courses)[ks[i]]
    ensures forall i, j :: 0 <= i < j < |ks| ==> ks[i] != ks[j]
  {
    ks := [];
    for i := 0 to |ranked|
      invariant |ks| == i
      invariant forall t :: 0 <= t < i ==> 0 <= ks[t] < |courses| && Pairs(ranked)[t] == CourseItems(courses)[ks[t]]
    {
      var k := DrawnEntry(courses, ranked, i);
      ks := ks + [k];
    }
    forall i, j | 0 <= i < j < |ks| ensures ks[i] != ks[j] {
      DrawnDistinct(courses, ranked, i, j, ks[i], ks[j]);
    }
  }

  /**
   * For a ranking drawn from the course items, the ids parse back to
   * distinct indices of the course list and each pick carries the course its
   * id names with round(score * 100): one pick per ranked entry, at most one
   * per course.
   */
  lemma PickIndices(courses: seq<Course>, ranked: seq<Scored>) returns (ks: seq<int>)
    requires DrawnFrom(ranked, CourseItems(courses))
    ensures |ks| == |ranked| == |Picks(courses, ranked)|
    ensures forall i :: 0 <= i < |ks| ==> 0 <= ks[i] < |courses| && ParseInt(ranked[i].id) == Some(ks[i])
    ensures forall i :: 0 <= i < |ks| ==>
              Picks(courses, ranked)[i] == Picked(courses[ks[i]], RoundHalfEven(ranked[i].score * 100.0))
    ensures forall i, j :: 0 <= i < j < |ks| ==> ks[i] != ks[j]
  {
    ks := DrawnIndices(courses, ranked);
    IdsOfDrawn(courses, ranked, ks);
    PicksAllSome(courses, ranked, ks);
  }

  lemma IdsOfDrawn(courses: seq<Course>, ranked: seq<Scored>, ks: seq<int>)
    requires |ks| == |ranked|
    requires forall i :: 0 <= i < |ks| ==> 0 <= ks[i] < |courses| && Pairs(ranked)[i] == CourseItems(courses)[ks[i]]
    ensures forall i :: 0 <= i < |ks| ==> ParseInt(ranked[i].id) == Some(ks[i])
  {
    forall i | 0 <= i < |ks| ensures ParseInt(ranked[i].id) == Some(ks[i]) {
      IdOfPair(courses, ranked, i, ks[i]);
    }
  }

  /** When every id names a course, there is one pick per ranked entry, in order. */
  lemma PicksAllSome(courses: seq<Course>, ranked: seq<Scored>, ks: seq<int>)
    requires |ks| == |ranked|
    requires forall i :: 0 <= i < |ks| ==> 0 <= ks[i] < |courses| && ParseInt(ranked[i].id) == Some(ks[i])
    ensures |Picks(courses, ranked)| == |ranked|
    ensures forall i :: 0 <= i < |ks| ==>
              Picks(courses, ranked)[i] == Picked(courses[ks[i]], RoundHalfEven(ranked[i].score * 100.0))
  {
    var f := PickOfIn(courses);
    forall i | 0 <= i < |ks|
      ensures f(ranked[i]) == Some(Picked(courses[ks[i]], RoundHalfEven(ranked[i].score * 100.0)))
    {
      PickOfKnown(courses, ranked[i], ks[i]);
    }
    SomesAllSome(MapSeq(ranked, f));
  }

  lemma PickOfKnown(courses: seq<Course>, s: Scored, k: int)
    requires ParseInt(s.id) == Some(k) && 0 <= k < |courses|
    ensures PickOfIn(courses)(s) == Some(Picked(courses[k], RoundHalfEven(s.score * 100.0)))
  {
    var p := PickOfIn(courses)(s);
    assert p.value.course == courses[k];
    assert p.value.score == RoundHalfEven(s.score * 100.0);
  }

  lemma IdOfPair(courses: seq<Course>, ranked: seq<Scored>, i: int, k: int)
    requires 0 <= i < |ranked| && 0 <= k < |courses| && Pairs(ranked)[i] == CourseItems(courses)[k]
    ensures ParseInt(ranked[i].id) == Some(k)
  {
    assert ranked[i].id == Pairs(ranked)[i].id;
    IntToStringRoundTrip(k);
  }

  /** For an ordered ranking with scores in [0, 1], the picks score whole percentages in [0, 100], non-increasing. */
  lemma PickScores(courses: seq<Course>, ranked: seq<Scored>)
    requires DrawnFrom(ranked, CourseItems(courses))
    requires ScoresInUnit(ranked) && SortedDesc(ranked, ScoreOf)
    ensures forall i :: 0 <= i < |Picks(courses, ranked)| ==>
              Picks(courses, ranked)[i].Picked? && 0 <= Picks(courses, ranked)[i].score <= 100
    ensures forall i, j :: 0 <= i < j < |Picks(courses, ranked)| ==>
              Picks(courses, ranked)[i].score >= Picks(courses, ranked)[j].score
  {
    var picks := Picks(courses, ranked);
    var ks := PickIndices(courses, ranked);
    forall i | 0 <= i < |picks| ensures picks[i].Picked? && 0 <= picks[i].score <= 100 {
      RoundWithin(ranked[i].score * 100.0, 0, 100);
    }
    forall i, j | 0 <= i < j < |picks| ensures picks[i].score >= picks[j].score {
      PickOrder(ranked, i, j);
    }
  }

  lemma PickOrder(ranked: seq<Scored>, i: int, j: int)
    requires SortedDesc(ranked, ScoreOf) && 0 <= i < j < |ranked|
    ensures RoundHalfEven(ranked[i].score * 100.0) >= RoundHalfEven(ranked[j].score * 100.0)
  {
    assert ScoreOf(ranked[i]) >= ScoreOf(ranked[j]);
    RoundMonotone(ranked[j].score * 100.0, ranked[i].score * 100.0);
  }

  /** The ranking of the fetched courses is drawn from their items, ordered, with scores in [0, 1], at most top_n long. */
  lemma CourseRankingProps(ss: seq<string>, courses: seq<Course>, topN: int, m: ModelOutputs)
    ensures DrawnFrom(CourseRanking(ss, courses, topN, m), CourseItems(courses))
    ensures ScoresInUnit(CourseRanking(ss, courses, topN, m)) && SortedDesc(CourseRanking(ss, courses, topN, m), ScoreOf)
    ensures topN >= 0 ==> |CourseRanking(ss, courses, topN, m)| <= topN
    ensures |CourseRanking(ss, courses, topN, m)| <= |courses|
  {
    RankDrawnFromItems(Join(" ", ss), CourseItems(courses), topN, m.floor, m.embs, m.rerank);
    RankScoresInUnit(Join(" ", ss), CourseItems(courses), topN, m.floor, m.embs, m.rerank);
    RankSorted(Join(" ", ss), CourseItems(courses), topN, m.floor, m.embs, m.rerank);
  }

  lemma {:induction false} BlankSkillsStripAway(skills: seq<string>)
    requires forall i :: 0 <= i < |skills| ==> Strip(skills[i]) == ""
    ensures StrippedSkills(skills) == []
  {
    if skills != [] {
      BlankSkillsStripAway(skills[..|skills| - 1]);
    }
  }

  /** Skills that are all blank after stripping recommend nothing, whatever the table, cache or site hold. */
  lemma RagBlankSkills(skills: seq<string>, topN: int, table: Option<seq<CourseRow>>, cache: Option<seq<Course>>,
                       search: string -> Option<seq<Element>>, m: ModelOutputs)
    requires forall i :: 0 <= i < |skills| ==> Strip(skills[i]) == ""
    ensures RecommendRag(skills, topN, table, cache, search, m) == []
  {
    BlankSkillsStripAway(skills);
  }

  /**
   * The answer is either the table's {title, url} listing or ranked picks
   * with whole-percentage scores in [0, 100] in non-increasing order; either
   * way it holds at most top_n offers.
   */
  lemma RecommendRagShape(skills: seq<string>, topN: int, table: Option<seq<CourseRow>>, cache: Option<seq<Course>>,
                          search: string -> Option<seq<Element>>, m: ModelOutputs)
    ensures topN >= 0 ==> |RecommendRag(skills, topN, table, cache, search, m)| <= topN
    ensures (forall i :: 0 <= i < |RecommendRag(skills, topN, table, cache, search, m)| ==>
               RecommendRag(skills, topN, table, cache, search, m)[i].Listed?)
            || ((forall i :: 0 <= i < |RecommendRag(skills, topN, table, cache, search, m)| ==>
                   RecommendRag(skills, topN, table, cache, search, m)[i].Picked?
                   && 0 <= RecommendRag(skills, topN, table, cache, search, m)[i].score <= 100)
                && (forall i, j :: 0 <= i < j < |RecommendRag(skills, topN, table, cache, search, m)| ==>
                      RecommendRag(skills, topN, table, cache, search, m)[i].score
                      >= RecommendRag(skills, topN, table, cache, search, m)[j].score))
  {
    var ss := StrippedSkills(skills);
    if ss != [] {
      var courses := FetchCoursesExternal(ss, CourseraProvider, cache, search);
      if courses != [] {
        var ranked := CourseRanking(ss, courses, topN, m);
        CourseRankingProps(ss, courses, topN, m);
        var _ := PickIndices(courses, ranked);
        PickScores(courses, ranked);
      }
    }
  }

  /** The pick loop over the ranking. */
  method PickCourses(courses: seq<Course>, ranked: seq<Scored>, ghost ks: seq<int>) returns (picks: seq<Offer>)
    requires |ks| == |ranked|
    requires forall i :: 0 <= i < |ks| ==> 0 <= ks[i] < |courses| && ParseInt(ranked[i].id) == Some(ks[i])
    ensures picks == Picks(courses, ranked)
  {
    ghost var f := PickOfIn(courses);
    picks := [];
    for i := 0 to |ranked|
      invariant picks == Somes(MapSeq(ranked[..i], f))
    {
      var c := courses[ParseInt(ranked[i].id).value];
      MapSeqSnoc(ranked, i, f);
      SomesSnoc(MapSeq(ranked[..i + 1], f), i);
      assert MapSeq(ranked[..i + 1], f)[..i] == MapSeq(ranked[..i], f);
      picks := picks + [Picked(c, RoundHalfEven(ranked[i].score * 100.0))];
    }
    assert ranked[..|ranked|] == ranked;
  }

  /** recommend_courses_rag: strip the skills, fetch, fall back to the table, else rank and map back. */
  method RecommendCoursesRag(skills: seq<string>, topN: int, table: Option<seq<CourseRow>>, cache: Option<seq<Course>>,
                             search: string -> Option<seq<Element>>, m: ModelOutputs) returns (r: seq<Offer>)
    ensures r == RecommendRag(skills, topN, table, cache, search, m)
  {
    var ss := StrippedSkills(skills);
    if ss == [] {
      return [];
    }
    var courses := FetchCourses(ss, CourseraProvider, cache, search);
    if courses == [] {
      r := RecommendCourses(table, ss, topN);
      return;
    }
    var ranked := CourseRanking(ss, courses, topN, m);
    CourseRankingProps(ss, courses, topN, m);
    ghost var ks := PickIndices(courses, ranked);
    r := PickCourses(courses, ranked, ks);
  }
}

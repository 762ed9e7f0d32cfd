/**
 * The composite match score of the dashboards: the share of a job's skills
 * the résumé covers, blended with a semantic similarity from the ranking
 * engine, rounded to a whole percentage (0 when both signals are 0), and a
 * feedback line that shows both parts as truncated percentages.
 *
 * COVERAGE_WEIGHT is the parameter `w`; what the ranking engine's models
 * return for a best_matches call is the parameter `m`.
 */
module Scoring {
  import opened Wrappers
  import opened Text
  import opened Numeric
  import opened Rag
  import opened JobRecords
  import opened StringOrder

  const DefaultCoverageWeight: real := 0.65

  // ------------------------------------------------------------ skill lists

  /** set(xs) */
  function Elems(xs: seq<string>): set<string> {
    set i | 0 <= i < |xs| :: xs[i]
  }

  predicate Distinct(xs: seq<string>) {
    forall i, j :: 0 <= i < j < |xs| ==> xs[i] != xs[j]
  }

  lemma ElemsSnoc(p: seq<string>, x: string)
    ensures Elems(p + [x]) == Elems(p) + {x}
    ensures Distinct(p + [x]) <==> Distinct(p) && x !in Elems(p)
  {
    var s := p + [x];
    assert forall i :: 0 <= i < |p| ==> s[i] == p[i];
    assert s[|p|] == x;
    if x in Elems(p) {
      var i :| 0 <= i < |p| && p[i] == x;
      assert s[i] == s[|p|];
      assert !Distinct(s);
    }
  }

  /** len(set(xs)) <= len(xs), with equality exactly when xs has no repeats. */
  lemma {:induction false} ElemsCard(xs: seq<string>)
    ensures |Elems(xs)| <= |xs|
    ensures |Elems(xs)| == |xs| <==> Distinct(xs)
  {
    if xs != [] {
      var p, x := xs[..|xs| - 1], xs[|xs| - 1];
      assert xs == p + [x];
      ElemsCard(p);
      ElemsSnoc(p, x);
    }
  }

  /** [s.strip() for s in skills if s and s.strip()]: the résumé skills composite_match uses. */
  function StrippedSkills(skills: seq<string>): (r: seq<string>)
    ensures |r| <= |skills|
    ensures forall i :: 0 <= i < |r| ==> r[i] != ""
  {
    if skills == [] then []
    else
      var s := skills[|skills| - 1];
      StrippedSkills(skills[..|skills| - 1]) + (if Strip(s) != "" then [Strip(s)] else [])
  }

  /** The skill kept for one résumé entry: its stripped text, unless that is blank. */
  function KeptSkill(s: string): Option<string> {
    if Strip(s) != "" then Some(Strip(s)) else None
  }

  /** KeptSkill of every entry, position by position. */
  function KeptSkills(skills: seq<string>): (r: seq<Option<string>>)
    ensures |r| == |skills| && forall i :: 0 <= i < |skills| ==> r[i] == KeptSkill(skills[i])
  {
    seq(|skills|, i requires 0 <= i < |skills| => KeptSkill(skills[i]))
  }

  /** The kept skills are the stripped non-blank entries, each once and in input order. */
  lemma {:induction false} StrippedSkillsInOrder(skills: seq<string>)
    ensures StrippedSkills(skills) == Somes(KeptSkills(skills))
  {
    if skills != [] {
      var p := skills[..|skills| - 1];
      var k := KeptSkills(skills);
      StrippedSkillsInOrder(p);
      assert k[..|k| - 1] == KeptSkills(p);
      assert k[|k| - 1] == KeptSkill(skills[|skills| - 1]);
    }
  }

  /** Every kept skill is the stripped form of an entry, and is therefore already stripped. */
  lemma StrippedSkillsFrom(skills: seq<string>, i: int) returns (j: int)
    requires 0 <= i < |StrippedSkills(skills)|
    ensures 0 <= j < |skills| && StrippedSkills(skills)[i] == Strip(skills[j])
    ensures Strip(StrippedSkills(skills)[i]) == StrippedSkills(skills)[i]
  {
    StrippedSkillsInOrder(skills);
    j := SomesFrom(KeptSkills(skills), i);
    StripIdempotent(skills[j]);
  }

  /** Every entry that does not strip to blank is kept. */
  lemma StrippedSkillsKeeps(skills: seq<string>, j: int)
    requires 0 <= j < |skills| && Strip(skills[j]) != ""
    ensures Strip(skills[j]) in StrippedSkills(skills)
  {
    StrippedSkillsInOrder(skills);
    SomesHas(KeptSkills(skills), j);
  }

  /** set(s.lower() for s in xs) */
  function LowerSet(xs: seq<string>): set<string> {
    set i | 0 <= i < |xs| :: Lower(xs[i])
  }

  /** [s.strip().lower() for s in parts if s]: blank-but-not-empty entries stay, as "". */
  function NormalList(parts: seq<string>): (r: seq<string>)
    ensures |r| <= |parts|
  {
    if parts == [] then []
    else
      var s := parts[|parts| - 1];
      NormalList(parts[..|parts| - 1]) + (if s != "" then [Lower(Strip(s))] else [])
  }

  /** The jd list composite_match reads from a job's skills cell. */
  function JdSkills(cell: string): seq<string> {
    NormalList(Split(cell, ','))
  }

  /** A list of empty parts normalises to the empty list. */
  lemma {:induction false} NormalListOfEmpties(parts: seq<string>)
    requires forall i :: 0 <= i < |parts| ==> parts[i] == ""
    ensures NormalList(parts) == []
  {
    if parts != [] {
      NormalListOfEmpties(parts[..|parts| - 1]);
    }
  }

  // ------------------------------------------------------------ coverage

  /** len(rs & set(js)) / len(js) if js else 0.0 */
  function Coverage(rs: set<string>, js: seq<string>): (c: real)
    ensures 0.0 <= c <= 1.0
  {
    if js == [] then 0.0
    else
      ElemsCard(js);
      SubsetCard(rs * Elems(js), Elems(js));
      DivUnit(|rs * Elems(js)| as real, |js| as real);
      (|rs * Elems(js)| as real) / (|js| as real)
  }

  lemma DivIsOne(a: real, b: real)
    requires b > 0.0 && a / b == 1.0
    ensures a == b
  {
    assert a == (a / b) * b;
  }

  lemma CoverageOneHeld(rs: set<string>, js: seq<string>)
    requires js != [] && Coverage(rs, js) == 1.0
    ensures Distinct(js) && forall i :: 0 <= i < |js| ==> js[i] in rs
  {
    var e := Elems(js);
    ElemsCard(js);
    SubsetCard(rs * e, e);
    DivIsOne(|rs * e| as real, |js| as real);
    assert |e| == |js|;
    assert rs * e == e;
    forall i | 0 <= i < |js| ensures js[i] in rs {
      assert js[i] in e;
    }
  }

  lemma HeldCoverageOne(rs: set<string>, js: seq<string>)
    requires js != [] && Distinct(js) && forall i :: 0 <= i < |js| ==> js[i] in rs
    ensures Coverage(rs, js) == 1.0
  {
    var e := Elems(js);
    ElemsCard(js);
    assert e <= rs;
    assert rs * e == e;
    var n := |js| as real;
    assert Coverage(rs, js) == n / n;
  }

  /** Coverage is 1 exactly when every jd entry is held and no jd entry repeats. */
  lemma CoverageFull(rs: set<string>, js: seq<string>)
    requires js != []
    ensures Coverage(rs, js) == 1.0 <==> Distinct(js) && forall i :: 0 <= i < |js| ==> js[i] in rs
  {
    if Coverage(rs, js) == 1.0 {
      CoverageOneHeld(rs, js);
    }
    if Distinct(js) && forall i :: 0 <= i < |js| ==> js[i] in rs {
      HeldCoverageOne(rs, js);
    }
  }

  /** Coverage is 0 exactly when no jd entry is held (including when there are none). */
  lemma CoverageZero(rs: set<string>, js: seq<string>)
    ensures Coverage(rs, js) == 0.0 <==> forall i :: 0 <= i < |js| ==> js[i] !in rs
  {
    if js != [] {
      if i :| 0 <= i < |js| && js[i] in rs {
        assert js[i] in rs * Elems(js);
        assert |rs * Elems(js)| > 0;
      }
      if Coverage(rs, js) != 0.0 {
        assert |rs * Elems(js)| != 0;
        var x :| x in rs * Elems(js);
      }
    }
  }

  /** A repeated jd skill counts twice in the denominator: ["python", "python"] against {"python"} is one half. */
  lemma CoverageCountsRepeats()
    ensures Coverage({"python"}, ["python", "python"]) == 0.5
  {
    var js := ["python", "python"];
    assert Elems(js) == {"python"} by {
      assert js[0] == "python";
    }
    assert {"python"} * Elems(js) == {"python"};
    assert |{"python"}| == 1;
  }

  // ------------------------------------------------------------ score and feedback

  /** w·cov + (1 − w)·sem */
  function Blend(cov: real, sem: real, w: real): real {
    w * cov + (1.0 - w) * sem
  }

  /** int(round(100 * blend)) if (cov or sem) else 0 */
  function MatchScore(cov: real, sem: real, w: real): (s: int)
    ensures cov == 0.0 && sem == 0.0 ==> s == 0
    ensures cov != 0.0 || sem != 0.0 ==> -0.5 <= s as real - 100.0 * Blend(cov, sem, w) <= 0.5
  {
    if cov != 0.0 || sem != 0.0 then RoundHalfEven(100.0 * Blend(cov, sem, w)) else 0
  }

  /** The zero-signal rule changes nothing: the score is round(100 * blend) for all inputs. */
  lemma ZeroRuleAgrees(cov: real, sem: real, w: real)
    ensures MatchScore(cov, sem, w) == RoundHalfEven(100.0 * Blend(cov, sem, w))
  {
    if cov == 0.0 && sem == 0.0 {
      RoundNearestUnique(100.0 * Blend(cov, sem, w), 0);
    }
  }

  lemma MulNonNegative(a: real, b: real)
    requires 0.0 <= a && 0.0 <= b
    ensures 0.0 <= a * b
  {
  }

  /** With both signals and the weight in [0, 1] the score is a percentage. */
  lemma ScoreWithin(cov: real, sem: real, w: real)
    ensures 0.0 <= cov <= 1.0 && 0.0 <= sem <= 1.0 && 0.0 <= w <= 1.0 ==> 0 <= MatchScore(cov, sem, w) <= 100
  {
    if 0.0 <= cov <= 1.0 && 0.0 <= sem <= 1.0 && 0.0 <= w <= 1.0 {
      var b := Blend(cov, sem, w);
      MulNonNegative(w, cov);
      MulNonNegative(w, 1.0 - cov);
      MulNonNegative(1.0 - w, sem);
      MulNonNegative(1.0 - w, 1.0 - sem);
      assert 0.0 <= b <= 1.0;
      if cov != 0.0 || sem != 0.0 {
        RoundWithin(100.0 * b, 0, 100);
      }
    }
  }

  /** Full coverage and full similarity score 100; with weight 0.65, full coverage alone scores 65. */
  lemma ScoreExamples()
    ensures MatchScore(1.0, 1.0, DefaultCoverageWeight) == 100
    ensures MatchScore(1.0, 0.0, DefaultCoverageWeight) == 65
  {
    RoundNearestUnique(100.0, 100);
    RoundNearestUnique(65.0, 65);
  }

  const FeedbackHead: string := "Covers "
  const FeedbackMiddle: string := "% JD skills; semantic "
  const FeedbackTail: string := "%."

  /** int(x * 100) */
  function Percent(x: real): (p: int)
    ensures 0.0 <= x <= 1.0 ==> 0 <= p <= 100
  {
    Truncate(x * 100.0)
  }

  /** "Covers {int(cov*100)}% JD skills; semantic {int(sem*100)}%." */
  function Feedback(cov: real, sem: real): string {
    FeedbackHead + IntToString(Percent(cov)) + FeedbackMiddle + IntToString(Percent(sem)) + FeedbackTail
  }

  /** The percentages are truncated, not rounded: 0.999 shows as 99. */
  lemma PercentTruncates()
    ensures Percent(0.999) == 99
  {
    assert 0.999 * 100.0 == 99.9;
  }

  predicate NoPercent(s: string) {
    forall k :: 0 <= k < |s| ==> s[k] != '%'
  }

  lemma IntToStringNoPercent(n: int)
    ensures NoPercent(IntToString(n))
  {
    var s := IntToString(n);
    var d := NatToString(if n < 0 then -n else n);
    forall k | 0 <= k < |s| ensures s[k] != '%' {
      if n >= 0 {
        assert IsDigit(d[k]);
      } else if k > 0 {
        assert s[k] == d[k - 1];
        assert IsDigit(d[k - 1]);
      }
    }
  }

  /** The index of the first '%' in s, or |s| when there is none. */
  function PercentAt(s: string): (i: nat)
    ensures i <= |s|
  {
    if s == [] || s[0] == '%' then 0 else 1 + PercentAt(s[1..])
  }

  lemma {:induction false} PercentAtAfter(a: string, t: string)
    requires NoPercent(a) && t != [] && t[0] == '%'
    ensures PercentAt(a + t) == |a|
  {
    if a == [] {
      assert a + t == t;
    } else {
      assert (a + t)[1..] == a[1..] + t;
      PercentAtAfter(a[1..], t);
    }
  }

  /** The first '%' marks where a number without '%' ends. */
  lemma PercentSplit(a1: string, a2: string, t1: string, t2: string)
    requires NoPercent(a1) && NoPercent(a2)
    requires t1 != [] && t1[0] == '%' && t2 != [] && t2[0] == '%'
    requires a1 + t1 == a2 + t2
    ensures a1 == a2 && t1 == t2
  {
    PercentAtAfter(a1, t1);
    PercentAtAfter(a2, t2);
    var s := a1 + t1;
    assert a1 == s[..|a1|] && t1 == s[|a1|..];
    assert a2 == s[..|a2|] && t2 == s[|a2|..];
  }

  /** The two numbers of a feedback line can be read back from it. */
  lemma FeedbackLayoutInjective(a1: string, b1: string, a2: string, b2: string)
    requires NoPercent(a1) && NoPercent(b1) && NoPercent(a2) && NoPercent(b2)
    requires FeedbackHead + a1 + FeedbackMiddle + b1 + FeedbackTail == FeedbackHead + a2 + FeedbackMiddle + b2 + FeedbackTail
    ensures a1 == a2 && b1 == b2
  {
    var h, m, t := FeedbackHead, FeedbackMiddle, FeedbackTail;
    Regroup(h, a1, m, b1, t);
    Regroup(h, a2, m, b2, t);
    CancelPrefix(h, a1 + (m + (b1 + t)), a2 + (m + (b2 + t)));
    PercentSplit(a1, a2, m + (b1 + t), m + (b2 + t));
    CancelPrefix(m, b1 + t, b2 + t);
    PercentSplit(b1, b2, t, t);
  }

  lemma Regroup(h: string, a: string, m: string, b: string, t: string)
    ensures h + a + m + b + t == h + (a + (m + (b + t)))
  {
  }

  lemma CancelPrefix(h: string, r1: string, r2: string)
    requires h + r1 == h + r2
    ensures r1 == r2
  {
    assert r1 == (h + r1)[|h|..] && r2 == (h + r2)[|h|..];
  }

  /** The feedback line tells both truncated percentages apart: equal lines have equal percentages. */
  lemma FeedbackInjective(cov1: real, sem1: real, cov2: real, sem2: real)
    requires Feedback(cov1, sem1) == Feedback(cov2, sem2)
    ensures Percent(cov1) == Percent(cov2) && Percent(sem1) == Percent(sem2)
  {
    var p1, q1, p2, q2 := Percent(cov1), Percent(sem1), Percent(cov2), Percent(sem2);
    IntToStringNoPercent(p1);
    IntToStringNoPercent(q1);
    IntToStringNoPercent(p2);
    IntToStringNoPercent(q2);
    FeedbackLayoutInjective(IntToString(p1), IntToString(q1), IntToString(p2), IntToString(q2));
    IntToStringInjective(p1, p2);
    IntToStringInjective(q1, q2);
  }

  // ------------------------------------------------------------ semantic similarity

  /** What the ranking engine's models return for one best_matches call, and RERANK_PRESELECT. */
  datatype ModelOutputs = ModelOutputs(floor: int, embs: Option<seq<seq<real>>>, rerank: Option<seq<real>>)

  /** float(ranked[0][2]) if ranked else 0.0 */
  function TopScore(ranked: seq<Scored>): real {
    if ranked == [] then 0.0 else ranked[0].score
  }

  /** best_matches(q, [(id, text)], top_k=1), read as a single similarity in [0, 1]. */
  function Semantic(q: string, id: string, text: string, m: ModelOutputs): (s: real)
    ensures 0.0 <= s <= 1.0
  {
    RankScoresInUnit(q, [Item(id, text)], 1, m.floor, m.embs, m.rerank);
    TopScore(Rank(q, [Item(id, text)], 1, m.floor, m.embs, m.rerank))
  }

  /** Without models, the similarity is the Jaccard overlap of the two token sets. */
  lemma SemanticWithoutModels(q: string, id: string, text: string, floor: int)
    ensures Semantic(q, id, text, ModelOutputs(floor, None, None)) == Jaccard(TokSet(q), TokSet(text))
  {
    var items := [Item(id, text)];
    RankWithoutModels(q, items, 1, floor);
    var pre := Preselect(1, floor, 1);
    var js := JaccardScored(q, items);
    assert |js| == 1;
    SortOne(js[0]);
    assert js == [js[0]];
  }

  // ------------------------------------------------------------ composite_match

  datatype Outcome = Outcome(score: int, feedback: string)

  /** The score and the feedback line for one coverage and one semantic value. */
  function Blended(cov: real, sem: real, w: real): (r: Outcome)
    ensures 0.0 <= cov <= 1.0 && 0.0 <= sem <= 1.0 && 0.0 <= w <= 1.0 ==> 0 <= r.score <= 100
  {
    ScoreWithin(cov, sem, w);
    Outcome(MatchScore(cov, sem, w), Feedback(cov, sem))
  }

  /** f"{title} {description} {skills}" */
  function JobText(job: Job): string {
    job.title + " " + job.description + " " + job.skills
  }

  /** composite_match's coverage: the résumé's stripped skills, lower-cased, against the job's skills cell. */
  function JobCoverage(skills: seq<string>, job: Job): real {
    Coverage(LowerSet(StrippedSkills(skills)), JdSkills(job.skills))
  }

  /** q = resume_text or ' '.join(rskills) */
  function CompositeQuery(skills: seq<string>, resumeText: string): string {
    if resumeText != "" then resumeText else Join(" ", StrippedSkills(skills))
  }

  /** composite_match(r_info, job) for the résumé's skill list and text. */
  function CompositeMatch(skills: seq<string>, resumeText: string, job: Job, w: real, m: ModelOutputs): (r: Outcome)
    ensures 0.0 <= w <= 1.0 ==> 0 <= r.score <= 100
    ensures JobCoverage(skills, job) == 0.0 && Semantic(CompositeQuery(skills, resumeText), "0", JobText(job), m) == 0.0 ==>
              r.score == 0
  {
    Blended(JobCoverage(skills, job), Semantic(CompositeQuery(skills, resumeText), "0", JobText(job), m), w)
  }

  /** A job whose skills cell lists nothing non-empty has coverage 0, so only the similarity counts. */
  lemma NoJdSkillsNoCoverage(skills: seq<string>, job: Job)
    requires forall i :: 0 <= i < |Split(job.skills, ',')| ==> Split(job.skills, ',')[i] == ""
    ensures JobCoverage(skills, job) == 0.0
  {
    NormalListOfEmpties(Split(job.skills, ','));
  }

  /** A jd skill the résumé lists (after strip and lower-casing) raises coverage above 0. */
  lemma HeldSkillCovers(skills: seq<string>, job: Job, i: int)
    requires 0 <= i < |JdSkills(job.skills)| && JdSkills(job.skills)[i] in LowerSet(StrippedSkills(skills))
    ensures JobCoverage(skills, job) > 0.0
  {
    CoverageZero(LowerSet(StrippedSkills(skills)), JdSkills(job.skills));
  }

  // ------------------------------------------------------------ compute_match (HR dashboard)

  /**
   * compute_match(resume_skills_list, jd_skills_list, job_text, resume_text):
   * both lists are normalised with [s.strip().lower() for s in xs if s], the
   * résumé's as a set, and the fallback query is ' '.join(sorted(rs)).
   */
  function ComputeQuery(resume: seq<string>, resumeText: string): string {
    if resumeText != "" then resumeText else Join(" ", SortedSet(NormalList(resume)))
  }

  function ComputeMatch(resume: seq<string>, jd: seq<string>, jobText: string, resumeText: string,
                        w: real, m: ModelOutputs): (r: Outcome)
    ensures 0.0 <= w <= 1.0 ==> 0 <= r.score <= 100
    ensures NormalList(jd) == [] && Semantic(ComputeQuery(resume, resumeText), "j", jobText, m) == 0.0 ==> r.score == 0
  {
    Blended(Coverage(Elems(NormalList(resume)), NormalList(jd)),
            Semantic(ComputeQuery(resume, resumeText), "j", jobText, m), w)
  }

  /** The fallback query depends only on which normalised skills the résumé lists, not on their order or repeats. */
  lemma ComputeQueryOrderFree(resume1: seq<string>, resume2: seq<string>)
    requires forall y :: y in NormalList(resume1) <==> y in NormalList(resume2)
    ensures ComputeQuery(resume1, "") == ComputeQuery(resume2, "")
  {
    SortedSetOrderFree(NormalList(resume1), NormalList(resume2));
  }

  /**
   * compute_match keeps blank entries as "", so a blank résumé entry covers a
   * blank jd entry: ["  "] against ["python", " "] has coverage one half.
   */
  lemma BlankEntriesMatch()
    ensures Coverage(Elems(NormalList(["  "])), NormalList(["python", " "])) == 0.5
  {
    NormalListBlank();
    NormalListPythonBlank();
    ElemsSnoc([], "");
    assert [] + [""] == [""];
    CoverageBlankPython();
  }

  lemma CoverageBlankPython()
    ensures Coverage({""}, ["python", ""]) == 0.5
  {
    ElemsSnoc([], "python");
    ElemsSnoc(["python"], "");
    assert [] + ["python"] == ["python"] && ["python"] + [""] == ["python", ""];
    assert {""} * {"python", ""} == {""};
  }

  lemma NormalListBlank()
    ensures NormalList(["  "]) == [""]
  {
    NormalListSnoc([], "  ");
    BlankNormal("  ");
    assert [] + ["  "] == ["  "];
  }

  lemma NormalListPythonBlank()
    ensures NormalList(["python", " "]) == ["python", ""]
  {
    NormalListSnoc(["python"], " ");
    NormalListPython();
    BlankNormal(" ");
    assert ["python"] + [" "] == ["python", " "];
  }

  /** Appending an entry appends its normal form, unless it is empty. */
  lemma NormalListSnoc(parts: seq<string>, s: string)
    ensures NormalList(parts + [s]) == NormalList(parts) + (if s != "" then [Lower(Strip(s))] else [])
  {
    assert (parts + [s])[..|parts|] == parts;
  }

  /** An entry of only whitespace normalises to "". */
  lemma BlankNormal(s: string)
    requires AllSpace(s)
    ensures Lower(Strip(s)) == ""
  {
  }

  lemma NormalListPython()
    ensures NormalList(["python"]) == ["python"]
  {
    StripPython();
    LowerPython();
    assert ["python"][..0] == [];
  }

  lemma StripPython()
    ensures Strip("python") == "python"
  {
    StripNoSpace("python");
  }

  lemma LowerPython()
    ensures Lower("python") == "python"
  {
    var l := Lower("python");
    assert l[0] == 'p' && l[1] == 'y' && l[2] == 't' && l[3] == 'h' && l[4] == 'o' && l[5] == 'n';
  }
}

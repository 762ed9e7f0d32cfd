/**
 * find_skill_gap: the job's skills that the résumé lacks.  Without a usable
 * API key it is a local set difference of normalised skills; with one it is
 * the `missing_skills` list of the generated reply, and every failure gives
 * the empty list.
 */
module SkillGap {
  import opened Wrappers
  import opened Text
  import opened Remote

  /**
   * The two result shapes.  The local path returns list(js - rs), whose
   * order is Python's set iteration order; the model keeps its elements as a
   * set.  The remote path returns the reply's list as it is.
   */
  datatype Gap = Unordered(skills: set<string>) | Listed(items: seq<Json>)

  /** s.strip().lower() for each truthy s; a truthy non-string has no strip. */
  datatype Normal = Skipped | Normalised(s: string) | NoStrip

  function NormalItem(j: Json): Normal {
    if !Truthy(j) then Skipped
    else if j.JStr? then Normalised(Lower(Strip(j.s)))
    else NoStrip
  }

  predicate AllStrippable(xs: seq<Json>) {
    forall i :: 0 <= i < |xs| ==> !NormalItem(xs[i]).NoStrip?
  }

  /** set(s.strip().lower() for s in xs if s) */
  function NormalSet(xs: seq<Json>): set<string> {
    set i | 0 <= i < |xs| && NormalItem(xs[i]).Normalised? :: NormalItem(xs[i]).s
  }

  /** The fallback: normalised jd skills minus normalised résumé skills; [] if some item is not a string. */
  function LocalGap(resume: seq<Json>, jd: seq<Json>): (r: Gap)
    ensures AllStrippable(resume) && AllStrippable(jd) ==> r == Unordered(NormalSet(jd) - NormalSet(resume))
    ensures !(AllStrippable(resume) && AllStrippable(jd)) ==> r == Listed([])
  {
    if AllStrippable(resume) && AllStrippable(jd) then Unordered(NormalSet(jd) - NormalSet(resume))
    else Listed([])
  }

  /** A jd skill equal to some résumé skill after strip and lower-casing is never reported. */
  lemma LocalGapOmitsHeld(resume: seq<Json>, jd: seq<Json>, i: int, j: int)
    requires AllStrippable(resume) && AllStrippable(jd)
    requires 0 <= i < |jd| && 0 <= j < |resume|
    requires jd[i].JStr? && resume[j].JStr? && resume[j].s != ""
    requires Lower(Strip(jd[i].s)) == Lower(Strip(resume[j].s))
    ensures Lower(Strip(jd[i].s)) !in LocalGap(resume, jd).skills
  {
    NormalOfString(resume[j]);
    InNormalSet(resume, j);
  }

  /** A non-empty string normalises to its stripped lower-case form. */
  lemma NormalOfString(x: Json)
    requires x.JStr? && x.s != ""
    ensures NormalItem(x) == Normalised(Lower(Strip(x.s)))
  {
  }

  lemma InNormalSet(xs: seq<Json>, j: int)
    requires 0 <= j < |xs| && NormalItem(xs[j]).Normalised?
    ensures NormalItem(xs[j]).s in NormalSet(xs)
  {
  }

  /** A non-blank jd skill that matches no résumé skill is reported. */
  lemma LocalGapReportsMissing(resume: seq<Json>, jd: seq<Json>, i: int)
    requires AllStrippable(resume) && AllStrippable(jd)
    requires 0 <= i < |jd| && jd[i].JStr? && jd[i].s != ""
    requires forall j :: 0 <= j < |resume| && resume[j].JStr? ==> Lower(Strip(resume[j].s)) != Lower(Strip(jd[i].s))
    ensures Lower(Strip(jd[i].s)) in LocalGap(resume, jd).skills
  {
    var w := Lower(Strip(jd[i].s));
    NormalOfString(jd[i]);
    InNormalSet(jd, i);
    forall j | 0 <= j < |resume| && NormalItem(resume[j]).Normalised?
      ensures NormalItem(resume[j]).s != w
    {
      assert resume[j].JStr?;
    }
  }

  /** Every reported skill is the normal form of some jd entry. */
  lemma LocalGapFromJd(resume: seq<Json>, jd: seq<Json>, w: string)
    requires AllStrippable(resume) && AllStrippable(jd)
    requires w in LocalGap(resume, jd).skills
    ensures exists i :: 0 <= i < |jd| && jd[i].JStr? && Lower(Strip(jd[i].s)) == w
  {
    var i :| 0 <= i < |jd| && NormalItem(jd[i]).Normalised? && NormalItem(jd[i]).s == w;
    assert jd[i].JStr?;
  }

  /** parsed_json.get('missing_skills', []), kept only when it is a list. */
  function MissingSkills(parsed: Json): (r: Gap)
    ensures r.Listed?
    ensures parsed.JObj? && "missing_skills" in parsed.fields && parsed.fields["missing_skills"].JList? ==>
              r == Listed(parsed.fields["missing_skills"].items)
    ensures !(parsed.JObj? && "missing_skills" in parsed.fields && parsed.fields["missing_skills"].JList?) ==>
              r == Listed([])
  {
    if !parsed.JObj? then Listed([])
    else
      var ms := if "missing_skills" in parsed.fields then parsed.fields["missing_skills"] else JList([]);
      if ms.JList? then Listed(ms.items) else Listed([])
  }

  /** find_skill_gap(resume_skills, jd_skills) for the key, the exchange and the parse oracle. */
  function FindSkillGap(apiKey: Option<string>, resume: seq<Json>, jd: seq<Json>,
                        x: Exchange, parse: string -> Option<Json>): (r: Gap)
    ensures !KeyConfigured(apiKey) ==> r == LocalGap(resume, jd)
    ensures KeyConfigured(apiKey) ==> r.Listed?
    ensures KeyConfigured(apiKey) && (resume == [] || jd == []) ==> r == Listed([])
    ensures KeyConfigured(apiKey) && r != Listed([]) ==>
              ReadReply(x).Cleaned? && parse(ReadReply(x).text).Some?
              && r == MissingSkills(parse(ReadReply(x).text).value)
    ensures KeyConfigured(apiKey) && resume != [] && jd != [] && ReadReply(x).Cleaned? && parse(ReadReply(x).text).Some? ==>
              r == MissingSkills(parse(ReadReply(x).text).value)
  {
    if !KeyConfigured(apiKey) then LocalGap(resume, jd)
    else if resume == [] || jd == [] then Listed([])
    else
      var reply := ReadReply(x);
      if !reply.Cleaned? then Listed([])
      else
        var parsed := parse(reply.text);
        if parsed.None? then Listed([]) else MissingSkills(parsed.value)
  }

  /** Every failure of the exchange gives the empty list. */
  lemma RemoteFailuresGiveEmpty(apiKey: Option<string>, resume: seq<Json>, jd: seq<Json>,
                                x: Exchange, parse: string -> Option<Json>)
    requires KeyConfigured(apiKey)
    requires !ReadReply(x).Cleaned? || parse(ReadReply(x).text).None?
    ensures FindSkillGap(apiKey, resume, jd, x, parse) == Listed([])
  {
  }
}

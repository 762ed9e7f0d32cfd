/**
 * The résumé parser: picks a text extractor by file extension, asks the
 * generation API for the four entity lists (skills, experience, education,
 * keywords), and makes sure a parsed object has all four keys.  Every
 * failure yields the four-key structure of empty lists.
 *
 * The extractors (PDF pages, DOCX, plain text) are inputs: what each one
 * returns for the file, or None when it raises.
 */
module ResumeParser {
  import opened Wrappers
  import opened Text
  import opened Sorting
  import opened Remote

  const EntityKeys: seq<string> := ["skills", "experience", "education", "keywords"]
  const PromptLimit: int := 4000

  /** {"skills": [], "experience": [], "education": [], "keywords": []} */
  function EmptyEntities(): (r: Json)
    ensures r.JObj? && r.fields.Keys == set k | k in EntityKeys
    ensures forall k :: k in r.fields ==> r.fields[k] == JList([])
  {
    JObj(map["skills" := JList([]), "experience" := JList([]), "education" := JList([]), "keywords" := JList([])])
  }

  /** A dict holding all four entity keys. */
  predicate HasEntityKeys(j: Json) {
    j.JObj? && forall i :: 0 <= i < |EntityKeys| ==> EntityKeys[i] in j.fields
  }

  /** The part of the text the prompt embeds: text[:4000]. */
  function PromptExcerpt(text: string): (r: string)
    ensures |r| <= PromptLimit && |r| <= |text| && r == text[..|r|]
    ensures |text| <= PromptLimit ==> r == text
    ensures |text| > PromptLimit ==> |r| == PromptLimit
  {
    PyPrefix(text, PromptLimit)
  }

  // ------------------------------------------------------------ file extension

  /** The last index of c in s, or -1. */
  function LastIndex(s: string, c: char): (r: int)
    ensures -1 <= r < |s|
    ensures r >= 0 ==> s[r] == c
    ensures forall k :: r < k < |s| ==> s[k] != c
  {
    if s == [] then -1
    else if s[|s| - 1] == c then |s| - 1
    else LastIndex(s[..|s| - 1], c)
  }

  /**
   * os.path.splitext(path)[1] for POSIX paths: from the last dot of the last
   * path component, unless everything before that dot in the component is dots.
   */
  function SplitExt(path: string): (ext: string)
    ensures ext == "" || (|ext| <= |path| && ext == path[|path| - |ext|..])
    ensures ext != "" ==> ext[0] == '.' && forall k :: 1 <= k < |ext| ==> ext[k] != '.' && ext[k] != '/'
  {
    var sep := LastIndex(path, '/');
    var dot := LastIndex(path, '.');
    if dot > sep && exists k :: sep + 1 <= k < dot && path[k] != '.' then path[dot..] else ""
  }

  /** What the three extractors return for a file; None where the extractor raises. */
  datatype Extractors = Extractors(pdfPages: Option<seq<string>>, docxText: Option<string>, txtText: Option<string>)

  /** ' '.join of the pages whose text is non-empty. */
  function PdfText(pages: seq<string>): string {
    Join(" ", NonEmptyPages(pages))
  }

  function NonEmptyPages(pages: seq<string>): (r: seq<string>)
    ensures forall i :: 0 <= i < |r| ==> r[i] != ""
    ensures |r| <= |pages|
  {
    if pages == [] then []
    else (if pages[0] != "" then [pages[0]] else []) + NonEmptyPages(pages[1..])
  }

  /** extract_text_from_file: dispatch on the lower-cased extension; anything else gives None. */
  function ExtractTextFromFile(path: string, rd: Extractors): (r: Option<string>)
    ensures r.Some? ==> Lower(SplitExt(path)) in [".pdf", ".docx", ".txt"]
    ensures Lower(SplitExt(path)) == ".pdf" ==> r == (if rd.pdfPages.Some? then Some(PdfText(rd.pdfPages.value)) else None)
    ensures Lower(SplitExt(path)) == ".docx" ==> r == rd.docxText
    ensures Lower(SplitExt(path)) == ".txt" ==> r == rd.txtText
  {
    var ext := Lower(SplitExt(path));
    if ext == ".pdf" then (if rd.pdfPages.Some? then Some(PdfText(rd.pdfPages.value)) else None)
    else if ext == ".docx" then rd.docxText
    else if ext == ".txt" then rd.txtText
    else None
  }

  /** A PDF whose pages all lack text extracts to the empty string. */
  lemma {:induction false} BlankPdfIsEmpty(pages: seq<string>)
    requires forall i :: 0 <= i < |pages| ==> pages[i] == ""
    ensures PdfText(pages) == ""
  {
    if pages != [] {
      BlankPdfIsEmpty(pages[1..]);
    }
  }

  /** Extension case does not matter: "CV.PDF" is read as a PDF. */
  lemma UpperCasePdf(stem: string, rd: Extractors)
    requires forall k :: 0 <= k < |stem| ==> stem[k] != '.' && stem[k] != '/'
    requires stem != ""
    ensures ExtractTextFromFile(stem + ".PDF", rd) == ExtractTextFromFile(stem + ".pdf", rd)
  {
    SplitExtOf(stem, ".PDF");
    SplitExtOf(stem, ".pdf");
    PdfExtLower();
  }

  lemma PdfExtLower()
    ensures Lower(".PDF") == ".pdf" && Lower(".pdf") == ".pdf"
  {
    var u, l := Lower(".PDF"), Lower(".pdf");
    assert u[0] == '.' && u[1] == 'p' && u[2] == 'd' && u[3] == 'f';
    assert l[0] == '.' && l[1] == 'p' && l[2] == 'd' && l[3] == 'f';
  }

  lemma SplitExtOf(stem: string, ext: string)
    requires forall k :: 0 <= k < |stem| ==> stem[k] != '.' && stem[k] != '/'
    requires stem != "" && |ext| == 4 && ext[0] == '.'
    requires forall k :: 1 <= k < 4 ==> ext[k] != '.' && ext[k] != '/'
    ensures SplitExt(stem + ext) == ext
  {
    var p := stem + ext;
    assert LastIndex(p, '/') == -1;
    assert p[|stem|] == '.';
    assert LastIndex(p, '.') == |stem|;
    assert p[0] == stem[0] != '.';
    assert p[|stem|..] == ext;
  }

  // ------------------------------------------------------------ entities

  /**
   * `key in parsed`: a dict tests its keys, a list its elements, a string
   * its substrings; any other value raises TypeError (None).
   */
  function Member(parsed: Json, key: string): Option<bool> {
    match parsed
    case JObj(fields) => Some(key in fields)
    case JList(items) => Some(JStr(key) in items)
    case JStr(s) => Some(Contains(s, key))
    case _ => None
  }

  /** The loop that adds each missing entity key as an empty list to a parsed dict. */
  method AddMissingKeys(fields: map<string, Json>) returns (r: map<string, Json>)
    ensures r.Keys == fields.Keys + set k | k in EntityKeys
    ensures forall k :: k in fields ==> r[k] == fields[k]
    ensures forall k :: k in r && k !in fields ==> r[k] == JList([])
  {
    r := fields;
    for i := 0 to |EntityKeys|
      invariant r.Keys == fields.Keys + set k | k in EntityKeys[..i]
      invariant forall k :: k in fields ==> r[k] == fields[k]
      invariant forall k :: k in r && k !in fields ==> r[k] == JList([])
    {
      var key := EntityKeys[i];
      if key !in r {
        r := r[key := JList([])];
      }
      assert EntityKeys[..i + 1] == EntityKeys[..i] + [key];
    }
    assert EntityKeys[..|EntityKeys|] == EntityKeys;
  }

  /** The same loop over a parsed value that is not a dict: it survives only if every key is already "in" it. */
  method CheckKeysPresent(parsed: Json) returns (ok: bool)
    requires !parsed.JObj?
    ensures ok <==> forall i :: 0 <= i < |EntityKeys| ==> Member(parsed, EntityKeys[i]) == Some(true)
  {
    for i := 0 to |EntityKeys|
      invariant forall j :: 0 <= j < i ==> Member(parsed, EntityKeys[j]) == Some(true)
    {
      var m := Member(parsed, EntityKeys[i]);
      if m != Some(true) {
        return false;
      }
    }
    return true;
  }

  lemma EmptyHasKeys()
    ensures HasEntityKeys(EmptyEntities())
  {
    var e := EmptyEntities();
    forall i | 0 <= i < |EntityKeys| ensures EntityKeys[i] in e.fields {
      assert EntityKeys[i] in EntityKeys;
    }
  }

  /**
   * r is p after the key-completion loop: a dict keeps its entries and gains
   * each missing entity key as an empty list; any other value is kept when
   * every key is "in" it and replaced by the empty structure otherwise.
   */
  predicate Completes(p: Json, r: Json) {
    if p.JObj? then
      HasEntityKeys(r)
      && (forall k :: k in p.fields ==> k in r.fields && r.fields[k] == p.fields[k])
      && (forall k :: k in r.fields && k !in p.fields ==> k in EntityKeys && r.fields[k] == JList([]))
    else
      (r == p || r == EmptyEntities())
      && (r == p <==> forall i :: 0 <= i < |EntityKeys| ==> Member(p, EntityKeys[i]) == Some(true))
  }

  /** Completion leaves no choice: two completions of the same value are equal. */
  lemma CompletesUnique(p: Json, r1: Json, r2: Json)
    requires Completes(p, r1) && Completes(p, r2)
    ensures r1 == r2
  {
    if p.JObj? {
      forall k | k in EntityKeys ensures k in r1.fields && k in r2.fields {
        var i :| 0 <= i < |EntityKeys| && EntityKeys[i] == k;
      }
      assert r1.fields.Keys == r2.fields.Keys;
      assert r1.fields == r2.fields;
    }
  }

  /**
   * What extract_resume_entities returns for the key, the text, the exchange
   * and the parse oracle: the empty structure when no key is set, the text is
   * empty, the exchange fails or the reply does not parse; otherwise the
   * parsed reply, completed.
   */
  predicate IsEntities(apiKey: Option<string>, text: string, x: Exchange, parse: string -> Option<Json>, r: Json) {
    if !KeyConfigured(apiKey) || text == "" || !ReadReply(x).Cleaned? || parse(ReadReply(x).text).None? then
      r == EmptyEntities()
    else
      Completes(parse(ReadReply(x).text).value, r)
  }

  /** The entities of a text are determined by the key, the text, the exchange and the parse. */
  lemma IsEntitiesUnique(apiKey: Option<string>, text: string, x: Exchange, parse: string -> Option<Json>, r1: Json, r2: Json)
    requires IsEntities(apiKey, text, x, parse, r1) && IsEntities(apiKey, text, x, parse, r2)
    ensures r1 == r2
  {
    if KeyConfigured(apiKey) && text != "" && ReadReply(x).Cleaned? && parse(ReadReply(x).text).Some? {
      CompletesUnique(parse(ReadReply(x).text).value, r1, r2);
    }
  }

  /** The key-completion step applied to whatever json.loads produced. */
  method CompleteParsed(p: Json) returns (r: Json)
    ensures Completes(p, r)
    ensures r.JObj? ==> HasEntityKeys(r)
    ensures p.JObj? ==> r.JObj? && (forall k :: k in p.fields ==> k in r.fields && r.fields[k] == p.fields[k])
                        && (forall k :: k in r.fields && k !in p.fields ==> k in EntityKeys && r.fields[k] == JList([]))
    ensures !p.JObj? ==> r == p || r == EmptyEntities()
    ensures !p.JObj? ==> (r == p <==> forall i :: 0 <= i < |EntityKeys| ==> Member(p, EntityKeys[i]) == Some(true))
  {
    EmptyHasKeys();
    if p.JObj? {
      var fields := AddMissingKeys(p.fields);
      r := JObj(fields);
      forall i | 0 <= i < |EntityKeys| ensures EntityKeys[i] in r.fields {
        assert EntityKeys[i] in EntityKeys;
      }
      return;
    }
    var ok := CheckKeysPresent(p);
    if ok {
      return p;
    }
    r := EmptyEntities();
  }

  /**
   * extract_resume_entities(text) for the key, the exchange and the parse
   * oracle.  The result is the four-key empty structure on every failure, the
   * parsed dict completed with the missing keys on success, and a parsed
   * non-dict value as it is when it already "contains" all four keys.
   */
  method ExtractResumeEntities(apiKey: Option<string>, text: string, x: Exchange, parse: string -> Option<Json>)
    returns (r: Json)
    ensures !KeyConfigured(apiKey) || text == "" ==> r == EmptyEntities()
    ensures !ReadReply(x).Cleaned? || parse(ReadReply(x).text).None? ==> r == EmptyEntities()
    ensures r.JObj? ==> HasEntityKeys(r)
    ensures KeyConfigured(apiKey) && text != "" && ReadReply(x).Cleaned? && parse(ReadReply(x).text).Some? ==>
              var p := parse(ReadReply(x).text).value;
              (p.JObj? ==> r.JObj? && (forall k :: k in p.fields ==> k in r.fields && r.fields[k] == p.fields[k])
                           && (forall k :: k in r.fields && k !in p.fields ==> k in EntityKeys && r.fields[k] == JList([])))
              && (!p.JObj? ==> r == p || r == EmptyEntities())
              && (!p.JObj? ==> (r == p <==> forall i :: 0 <= i < |EntityKeys| ==> Member(p, EntityKeys[i]) == Some(true)))
    ensures IsEntities(apiKey, text, x, parse, r)
  {
    EmptyHasKeys();
    if !KeyConfigured(apiKey) || text == "" {
      return EmptyEntities();
    }
    var reply := ReadReply(x);
    if !reply.Cleaned? {
      return EmptyEntities();
    }
    var parsed := parse(reply.text);
    if parsed.None? {
      return EmptyEntities();
    }
    r := CompleteParsed(parsed.value);
  }

  /** parse_resume_file: {} when no text could be extracted, else the entities of the text. */
  method ParseResumeFile(path: string, rd: Extractors, apiKey: Option<string>, x: Exchange, parse: string -> Option<Json>)
    returns (r: Json)
    ensures var t := ExtractTextFromFile(path, rd); t.None? || t.value == "" ==> r == JObj(map[])
    ensures var t := ExtractTextFromFile(path, rd); t.Some? && t.value != "" && r.JObj? ==> HasEntityKeys(r)
    ensures var t := ExtractTextFromFile(path, rd); t.Some? && t.value != "" ==> IsEntities(apiKey, t.value, x, parse, r)
  {
    var text := ExtractTextFromFile(path, rd);
    if text.Some? && text.value != "" {
      r := ExtractResumeEntities(apiKey, text.value, x, parse);
    } else {
      r := JObj(map[]);
    }
  }
}

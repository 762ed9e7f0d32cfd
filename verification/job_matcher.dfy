/**
 * match_resume_to_jd: asks the generation API for a 0-100 match score and a
 * one-sentence feedback, and turns every way the exchange can go into a
 * (score, feedback) pair.  Every failure yields score 0 and a fixed message;
 * a reply's score is returned as given (not clamped) when it is a number.
 */
module JobMatcher {
  import opened Wrappers
  import opened Text
  import opened Remote

  datatype MatchResult = MatchResult(score: Json, feedback: Json)

  const KeyMissingMessage: string := "API key is not configured."
  const StatusMessagePrefix: string := "API request failed with status "
  const NoContentMessage: string := "Could not find content in API response."
  const DefaultFeedback: string := "No feedback provided."
  const BadScoreMessage: string := "Could not parse score from response."
  const NetworkMessage: string := "Network error connecting to API."
  const ParseErrorMessage: string := "Could not parse matching response"
  const UnexpectedMessage: string := "An unexpected error occurred."

  function Zero(msg: string): MatchResult {
    MatchResult(JInt(0), JStr(msg))
  }

  /** The fixed message of each except clause. */
  function FailureResult(f: Failure): MatchResult {
    match f
    case RequestFailure => Zero(NetworkMessage)
    case LookupFailure => Zero(ParseErrorMessage)
    case OtherFailure => Zero(UnexpectedMessage)
  }

  /** match_obj.get('score', 0) */
  function ParsedScore(fields: map<string, Json>): Json {
    if "score" in fields then fields["score"] else JInt(0)
  }

  /** match_obj.get('feedback', 'No feedback provided.') */
  function ParsedFeedback(fields: map<string, Json>): Json {
    if "feedback" in fields then fields["feedback"] else JStr(DefaultFeedback)
  }

  /** The defaults and the numeric check applied to the parsed reply; a non-object has no get. */
  function FromParsed(parsed: Json): (r: MatchResult)
    ensures IsNumber(r.score)
    ensures parsed.JObj? && IsNumber(ParsedScore(parsed.fields)) ==>
              r == MatchResult(ParsedScore(parsed.fields), ParsedFeedback(parsed.fields))
    ensures parsed.JObj? && !IsNumber(ParsedScore(parsed.fields)) ==> r == Zero(BadScoreMessage)
    ensures !parsed.JObj? ==> r == Zero(UnexpectedMessage)
  {
    if !parsed.JObj? then Zero(UnexpectedMessage)
    else
      var score := ParsedScore(parsed.fields);
      if IsNumber(score) then MatchResult(score, ParsedFeedback(parsed.fields)) else Zero(BadScoreMessage)
  }

  /** The reply holds an object whose score is a number. */
  predicate ReplyUsable(reply: Reply, parse: string -> Option<Json>) {
    reply.Cleaned? && parse(reply.text).Some? && parse(reply.text).value.JObj?
    && IsNumber(ParsedScore(parse(reply.text).value.fields))
  }

  /** Everything after the key check: the reply turned into a (score, feedback) pair. */
  function MatchReply(reply: Reply, parse: string -> Option<Json>): (r: MatchResult)
    ensures IsNumber(r.score)
    ensures reply.BadStatus? ==> r == Zero(StatusMessagePrefix + IntToString(reply.status))
    ensures reply.NoContent? ==> r == Zero(NoContentMessage)
    ensures reply.Raised? ==> r == FailureResult(reply.failure)
    ensures reply.Cleaned? && parse(reply.text).None? ==> r == Zero(ParseErrorMessage)
    ensures reply.Cleaned? && parse(reply.text).Some? ==> r == FromParsed(parse(reply.text).value)
    ensures ReplyUsable(reply, parse) ==>
              var fields := parse(reply.text).value.fields;
              r == MatchResult(ParsedScore(fields), ParsedFeedback(fields))
    ensures !ReplyUsable(reply, parse) ==> r.score == JInt(0) && r.feedback.JStr?
  {
    if reply.BadStatus? then Zero(StatusMessagePrefix + IntToString(reply.status))
    else if reply.NoContent? then Zero(NoContentMessage)
    else if reply.Raised? then FailureResult(reply.failure)
    else
      var parsed := parse(reply.text);
      if parsed.None? then Zero(ParseErrorMessage) else FromParsed(parsed.value)
  }

  /**
   * match_resume_to_jd(resume_info, jd_info) for the API key `apiKey`, the
   * exchange `x` and the parse oracle `parse` (None: json.JSONDecodeError).
   * The prompt built from the two inputs only reaches the server, so the
   * inputs themselves do not appear.
   */
  function MatchResumeToJd(apiKey: Option<string>, x: Exchange, parse: string -> Option<Json>): (r: MatchResult)
    ensures IsNumber(r.score)
    ensures !KeyConfigured(apiKey) ==> r == Zero(KeyMissingMessage)
    ensures KeyConfigured(apiKey) && x.NetworkError? ==> r == Zero(NetworkMessage)
    ensures KeyConfigured(apiKey) && x.Replied? && x.status != 200 ==>
              r == Zero(StatusMessagePrefix + IntToString(x.status))
    ensures r.score != JInt(0) ==>
              KeyConfigured(apiKey) && ReadReply(x).Cleaned? && parse(ReadReply(x).text).Some?
              && parse(ReadReply(x).text).value.JObj?
              && r.score == ParsedScore(parse(ReadReply(x).text).value.fields)
    ensures KeyConfigured(apiKey) ==> r == MatchReply(ReadReply(x), parse)
  {
    if !KeyConfigured(apiKey) then Zero(KeyMissingMessage) else MatchReply(ReadReply(x), parse)
  }

  /** A numeric score in the reply is returned as it is, with its feedback or the default one. */
  lemma ReplyScoreReturned(apiKey: Option<string>, x: Exchange, parse: string -> Option<Json>, fields: map<string, Json>)
    requires KeyConfigured(apiKey) && ReadReply(x).Cleaned?
    requires parse(ReadReply(x).text) == Some(JObj(fields))
    requires "score" in fields && IsNumber(fields["score"])
    ensures MatchResumeToJd(apiKey, x, parse).score == fields["score"]
    ensures "feedback" !in fields ==> MatchResumeToJd(apiKey, x, parse).feedback == JStr(DefaultFeedback)
  {
  }

  /** An out-of-range score such as 250 is not clamped. */
  lemma ScoreNotClamped(apiKey: Option<string>, x: Exchange, parse: string -> Option<Json>)
    requires KeyConfigured(apiKey) && ReadReply(x).Cleaned?
    requires parse(ReadReply(x).text) == Some(JObj(map["score" := JInt(250)]))
    ensures MatchResumeToJd(apiKey, x, parse) == MatchResult(JInt(250), JStr(DefaultFeedback))
  {
    ReplyScoreReturned(apiKey, x, parse, map["score" := JInt(250)]);
  }

  /** A reply whose score is not a number (a string, null, a list) gives the fixed parse message. */
  lemma NonNumericScore(apiKey: Option<string>, x: Exchange, parse: string -> Option<Json>, fields: map<string, Json>)
    requires KeyConfigured(apiKey) && ReadReply(x).Cleaned?
    requires parse(ReadReply(x).text) == Some(JObj(fields))
    requires "score" in fields && !IsNumber(fields["score"])
    ensures MatchResumeToJd(apiKey, x, parse) == Zero(BadScoreMessage)
  {
  }

  /** The failure message names the status, and the status can be read back from it. */
  lemma StatusMessageNamesStatus(apiKey: Option<string>, x: Exchange, parse: string -> Option<Json>)
    requires KeyConfigured(apiKey) && x.Replied? && x.status != 200
    ensures var m := MatchResumeToJd(apiKey, x, parse).feedback;
            m.JStr? && |m.s| > |StatusMessagePrefix| && m.s[..|StatusMessagePrefix|] == StatusMessagePrefix
            && ParseInt(m.s[|StatusMessagePrefix|..]) == Some(x.status)
  {
    var m := StatusMessagePrefix + IntToString(x.status);
    assert m[|StatusMessagePrefix|..] == IntToString(x.status);
    assert m[..|StatusMessagePrefix|] == StatusMessagePrefix;
    IntToStringRoundTrip(x.status);
  }

  /** Every path that does not return the reply's own values returns score 0 and a string message. */
  lemma FailuresScoreZero(apiKey: Option<string>, x: Exchange, parse: string -> Option<Json>)
    requires !(KeyConfigured(apiKey) && ReadReply(x).Cleaned? && parse(ReadReply(x).text).Some?
               && parse(ReadReply(x).text).value.JObj?
               && IsNumber(ParsedScore(parse(ReadReply(x).text).value.fields)))
    ensures MatchResumeToJd(apiKey, x, parse).score == JInt(0)
    ensures MatchResumeToJd(apiKey, x, parse).feedback.JStr?
  {
  }
}

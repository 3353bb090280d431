/**
 * The response summarizer (`summarize_response`, `safe_json`): the
 * fingerprint of one HTTP response that the diff engine compares.
 */
module Summarizer {
  import opened Wrappers

  /**
   * The top-level shape of a parsed JSON value. Only an object matters to the
   * summary, and of an object only its top-level keys, in the parser's order.
   */
  datatype Json = JObject(keys: seq<string>) | JArray | JString | JNumber | JBool | JNull

  /**
   * What the summarizer reads from a response: the status code, the decoded
   * text (`None` when the response has no `text` attribute) and the outcome of
   * `resp.json()` (`None` when that call raises).
   */
  datatype Response = Response(statusCode: int, text: Option<string>, json: Option<Json>)

  datatype Summary = Summary(statusCode: int, contentLength: nat, jsonKeys: Option<seq<string>>, bodySample: string)

  /** Number of body characters kept in the sample. */
  const SampleLimit: nat := 200

  /** The response text, or the empty string when the response carries none. */
  function Body(resp: Response): string
  {
    match resp.text
    case Some(t) => t
    case None => ""
  }

  /** `safe_json`: the parsed body, or `None` when parsing raised. */
  function SafeJson(resp: Response): Option<Json>
  {
    resp.json
  }

  /** `s.replace('\n', ' ')`. */
  function CollapseNewlines(s: string): (r: string)
    ensures |r| == |s|
    ensures forall i :: 0 <= i < |s| ==> r[i] == (if s[i] == '\n' then ' ' else s[i])
  {
    if s == [] then [] else [if s[0] == '\n' then ' ' else s[0]] + CollapseNewlines(s[1..])
  }

  /** `body[:200].replace('\n', ' ') if body else ''`. */
  function Sample(body: string): (r: string)
    ensures |r| == if |body| < SampleLimit then |body| else SampleLimit
    ensures '\n' !in r
    ensures forall i :: 0 <= i < |r| ==> r[i] == (if body[i] == '\n' then ' ' else body[i])
    ensures body == "" ==> r == ""
  {
    if body == "" then ""
    else
      var n := if |body| < SampleLimit then |body| else SampleLimit;
      CollapseNewlines(body[..n])
  }

  /** `summarize_response(resp)`. */
  function Summarize(resp: Response): Summary
  {
    var body := Body(resp);
    var js := SafeJson(resp);
    Summary(
      resp.statusCode,
      |body|,
      if js.Some? && js.value.JObject? then Some(js.value.keys) else None,
      Sample(body))
  }

  /**
   * The summary copies the status code, measures the whole body, lists the
   * top-level keys (in the parser's order) exactly when the parsed body is a
   * JSON object, and samples the body.
   */
  lemma SummarizeFacts(resp: Response)
    ensures var s := Summarize(resp);
            && s.statusCode == resp.statusCode
            && s.contentLength == |Body(resp)|
            && (s.jsonKeys.Some? <==> SafeJson(resp).Some? && SafeJson(resp).value.JObject?)
            && (s.jsonKeys.Some? ==> s.jsonKeys.value == SafeJson(resp).value.keys)
            && s.bodySample == Sample(Body(resp))
  {
  }

  /**
   * The length field counts the whole body while the sample keeps at most
   * 200 characters of it: the sample never outgrows the length, and the two
   * agree exactly when the body fits in the sample.
   */
  lemma SampleWithinLength(resp: Response)
    ensures |Summarize(resp).bodySample| <= Summarize(resp).contentLength
    ensures |Summarize(resp).bodySample| == Summarize(resp).contentLength <==> |Body(resp)| <= SampleLimit
    ensures Summarize(resp).bodySample == Sample(Body(resp)[..|Summarize(resp).bodySample|])
  {
    var body := Body(resp);
    var r := Sample(body);
    var p := body[..|r|];
    assert Sample(p) == r;
  }

  /** Bodies that agree on their first 200 characters have the same sample. */
  lemma SampleDependsOnPrefix(b1: string, b2: string)
    requires |b1| >= SampleLimit && |b2| >= SampleLimit
    requires b1[..SampleLimit] == b2[..SampleLimit]
    ensures Sample(b1) == Sample(b2)
  {
    assert forall i :: 0 <= i < SampleLimit ==> b1[i] == b1[..SampleLimit][i] == b2[i];
  }
}

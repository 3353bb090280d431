/**
 * The check runner (`run_check`) and the driver loop of `main`: one request
 * per identifier (two when a JSON body is refused by the network and the raw
 * text is sent again), a results map keyed by identifier, and the anomaly pass
 * against the first identifier's summary.
 *
 * The HTTP session is an oracle `transport(n, request)`: the outcome of the
 * request that the session sends after `n` earlier ones. `json.loads` on the
 * expanded body is the oracle `parsesAsJson`.
 */
module Runner {
  import opened Wrappers
  import opened Template
  import opened Summarizer
  import opened DiffEngine

  /** The `--method` choices. */
  datatype HttpMethod = GET | POST | PUT | DELETE

  /**
   * How the request body is sent: none, as JSON (`json=json.loads(text)`), or
   * as the raw text (`data=text`).
   */
  datatype RequestBody = NoBody | JsonBody(text: string) | RawBody(text: string)

  datatype Request = Request(verb: HttpMethod, url: string, body: RequestBody)

  /** A request either raises (network error, timeout) or yields a response. */
  datatype Outcome = Failed(reason: string) | Received(response: Response)

  /** A results entry: `{'error': reason}` or `{'summary': s, 'status': 'ok'}`. */
  datatype Entry = Error(reason: string) | Ok(summary: Summary)

  /** The observable actions of a run, in order: requests and the courtesy sleeps. */
  datatype Event = Sent(request: Request) | Slept

  /** The requests sent for one identifier and the outcome recorded for it. */
  datatype Exchange = Exchange(sent: seq<Request>, outcome: Outcome)

  datatype Anomaly = Anomaly(baseline: string, compared: string, diffs: Diffs)

  datatype CheckResult = CheckResult(endpoint: string, results: map<string, Entry>, anomalies: seq<Anomaly>)

  /** What a check depends on besides the endpoint and the identifiers. */
  datatype Setup = Setup(
    transport: (nat, Request) -> Outcome,
    parsesAsJson: string -> bool,
    verb: HttpMethod,
    dataTemplate: Option<string>)

  /**
   * The body of the first request for one identifier: none for GET and
   * DELETE; for POST and PUT, the expanded data as JSON when it parses and as
   * raw text otherwise; none when there is no data or it expanded to "".
   */
  function FirstBody(verb: HttpMethod, data: Option<string>, parsesAsJson: string -> bool): (b: RequestBody)
    ensures (verb == GET || verb == DELETE) ==> b == NoBody
    ensures (data.None? || data.value == "") ==> b == NoBody
    ensures b.JsonBody? <==> verb != GET && verb != DELETE && data.Some? && data.value != "" && parsesAsJson(data.value)
    ensures b.RawBody? <==> verb != GET && verb != DELETE && data.Some? && data.value != "" && !parsesAsJson(data.value)
    ensures !b.NoBody? ==> b.text == data.value
  {
    if verb == GET || verb == DELETE then NoBody
    else if data.Some? && data.value != "" then
      if parsesAsJson(data.value) then JsonBody(data.value) else RawBody(data.value)
    else NoBody
  }

  /**
   * The requests made for one identifier (lines 60-72). The first carries
   * `FirstBody`; only a JSON request that fails is followed by a second one
   * with the raw text, because the handler that falls back to raw text also
   * catches the failure of the JSON request. The recorded outcome is that of
   * the last request sent.
   */
  function Attempt(setup: Setup, n: nat, url: string, data: Option<string>): Exchange
  {
    var first := Request(setup.verb, url, FirstBody(setup.verb, data, setup.parsesAsJson));
    var outcome := setup.transport(n, first);
    if first.body.JsonBody? && outcome.Failed? then
      var second := Request(setup.verb, url, RawBody(first.body.text));
      Exchange([first, second], setup.transport(n + 1, second))
    else
      Exchange([first], outcome)
  }

  /**
   * One or two requests, all with the check's method and URL; the first with
   * `FirstBody`; a second, raw-text request exactly when the first was JSON
   * and failed; the recorded outcome is that of the last request.
   */
  lemma AttemptFacts(setup: Setup, n: nat, url: string, data: Option<string>)
    ensures var ex := Attempt(setup, n, url, data);
            && 1 <= |ex.sent| <= 2
            && (forall k :: 0 <= k < |ex.sent| ==> ex.sent[k].verb == setup.verb && ex.sent[k].url == url)
            && ex.sent[0].body == FirstBody(setup.verb, data, setup.parsesAsJson)
            && (|ex.sent| == 2 <==> ex.sent[0].body.JsonBody? && setup.transport(n, ex.sent[0]).Failed?)
            && (|ex.sent| == 2 ==> ex.sent[1].body == RawBody(ex.sent[0].body.text))
            && ex.outcome == setup.transport(n + |ex.sent| - 1, ex.sent[|ex.sent| - 1])
  {
  }

  /** The results entry for an outcome. */
  function EntryOf(outcome: Outcome): Entry
  {
    match outcome
    case Failed(reason) => Error(reason)
    case Received(resp) => Ok(Summarize(resp))
  }

  /** The events of one identifier: its requests, then a sleep only if a response came back. */
  function EventsOf(ex: Exchange): seq<Event>
  {
    seq(|ex.sent|, k requires 0 <= k < |ex.sent| => Sent(ex.sent[k]))
      + (if ex.outcome.Received? then [Slept] else [])
  }

  /** The state of the results loop: the map, the events so far, and the requests sent in the session. */
  datatype Progress = Progress(results: map<string, Entry>, trace: seq<Event>, sent: nat)

  /** One iteration of the results loop for identifier `id`. */
  function Step(setup: Setup, endpoint: string, p: Progress, id: string): Progress
  {
    var (url, data) := ApplyTemplate(endpoint, id, setup.dataTemplate);
    var ex := Attempt(setup, p.sent, url, data);
    Progress(p.results[id := EntryOf(ex.outcome)], p.trace + EventsOf(ex), p.sent + |ex.sent|)
  }

  /** The results loop over `ids`, starting after `start` requests of the session. */
  function Probe(setup: Setup, endpoint: string, start: nat, ids: seq<string>): Progress
    decreases |ids|
  {
    if ids == [] then Progress(map[], [], start)
    else Step(setup, endpoint, Probe(setup, endpoint, start, ids[..|ids| - 1]), ids[|ids| - 1])
  }

  /** The exchange made for `ids[k]`: it starts after the requests of the earlier identifiers. */
  function AttemptAt(setup: Setup, endpoint: string, start: nat, ids: seq<string>, k: nat): Exchange
    requires k < |ids|
  {
    var (url, data) := ApplyTemplate(endpoint, ids[k], setup.dataTemplate);
    Attempt(setup, Probe(setup, endpoint, start, ids[..k]).sent, url, data)
  }

  /** Every identifier, and nothing else, gets an entry in the results. */
  lemma {:induction false} ProbeKeys(setup: Setup, endpoint: string, start: nat, ids: seq<string>)
    ensures Probe(setup, endpoint, start, ids).results.Keys == set k | 0 <= k < |ids| :: ids[k]
  {
    if ids != [] {
      var init := ids[..|ids| - 1];
      ProbeKeys(setup, endpoint, start, init);
      var keys := set k | 0 <= k < |ids| :: ids[k];
      var initKeys := set k | 0 <= k < |init| :: init[k];
      assert keys == initKeys + {ids[|ids| - 1]} by {
        forall x | x in keys ensures x in initKeys + {ids[|ids| - 1]} {
          var k :| 0 <= k < |ids| && ids[k] == x;
          if k < |init| { assert init[k] == x; }
        }
        forall x | x in initKeys ensures x in keys {
          var k :| 0 <= k < |init| && init[k] == x;
          assert ids[k] == x;
        }
      }
    }
  }

  /**
   * The entry of an identifier is the outcome of its own exchange at its last
   * occurrence in the list: a failure never stops the identifiers after it,
   * and a repeated identifier overwrites its earlier entry.
   */
  lemma ProbeEntry(setup: Setup, endpoint: string, start: nat, ids: seq<string>, k: nat)
    requires k < |ids| && ids[k] !in ids[k + 1..]
    ensures ids[k] in Probe(setup, endpoint, start, ids).results
    ensures Probe(setup, endpoint, start, ids).results[ids[k]] == EntryOf(AttemptAt(setup, endpoint, start, ids, k).outcome)
  {
    var upto := ids[..k + 1];
    assert upto[..k] == ids[..k] && upto[k] == ids[k];
    ProbeLast(setup, endpoint, start, upto);
    ProbeKeeps(setup, endpoint, start, ids, k);
  }

  /** Once recorded at its last occurrence, an identifier's entry survives the rest of the loop. */
  lemma {:induction false} ProbeKeeps(setup: Setup, endpoint: string, start: nat, ids: seq<string>, k: nat)
    requires k < |ids| && ids[k] !in ids[k + 1..]
    requires ids[k] in Probe(setup, endpoint, start, ids[..k + 1]).results
    ensures ids[k] in Probe(setup, endpoint, start, ids).results
    ensures Probe(setup, endpoint, start, ids).results[ids[k]] == Probe(setup, endpoint, start, ids[..k + 1]).results[ids[k]]
  {
    var n := |ids|;
    if k < n - 1 {
      var init := ids[..n - 1];
      assert ids[n - 1] in ids[k + 1..] by { assert ids[k + 1..][n - 2 - k] == ids[n - 1]; }
      assert init[k + 1..] == ids[k + 1..n - 1];
      assert init[..k + 1] == ids[..k + 1];
      ProbeKeeps(setup, endpoint, start, init, k);
      ProbeOtherKey(setup, endpoint, start, ids, ids[k]);
    } else {
      assert ids[..k + 1] == ids;
    }
  }

  /** The last iteration leaves the entries of the other identifiers alone. */
  lemma ProbeOtherKey(setup: Setup, endpoint: string, start: nat, ids: seq<string>, x: string)
    requires ids != [] && x != ids[|ids| - 1]
    ensures x in Probe(setup, endpoint, start, ids).results <==> x in Probe(setup, endpoint, start, ids[..|ids| - 1]).results
    ensures x in Probe(setup, endpoint, start, ids).results ==>
              Probe(setup, endpoint, start, ids).results[x] == Probe(setup, endpoint, start, ids[..|ids| - 1]).results[x]
  {
  }

  /** The results loop's last iteration records the last identifier's own exchange. */
  lemma ProbeLast(setup: Setup, endpoint: string, start: nat, ids: seq<string>)
    requires ids != []
    ensures Probe(setup, endpoint, start, ids).results ==
              Probe(setup, endpoint, start, ids[..|ids| - 1]).results[ids[|ids| - 1] := EntryOf(AttemptAt(setup, endpoint, start, ids, |ids| - 1).outcome)]
  {
  }

  /** Each identifier sends one or two requests, and the trace records every request sent. */
  lemma {:induction false} ProbeSent(setup: Setup, endpoint: string, start: nat, ids: seq<string>)
    ensures start + |ids| <= Probe(setup, endpoint, start, ids).sent <= start + 2 * |ids|
    ensures SentCount(Probe(setup, endpoint, start, ids).trace) == Probe(setup, endpoint, start, ids).sent - start
  {
    if ids != [] {
      var init := ids[..|ids| - 1];
      ProbeSent(setup, endpoint, start, init);
      var p := Probe(setup, endpoint, start, init);
      var (url, data) := ApplyTemplate(endpoint, ids[|ids| - 1], setup.dataTemplate);
      var ex := Attempt(setup, p.sent, url, data);
      AttemptFacts(setup, p.sent, url, data);
      SentCountAppend(p.trace, EventsOf(ex));
      var sends := seq(|ex.sent|, k requires 0 <= k < |ex.sent| => Sent(ex.sent[k]));
      var tail: seq<Event> := if ex.outcome.Received? then [Slept] else [];
      SentCountAppend(sends, tail);
      if |ex.sent| == 1 {
        assert sends == [Sent(ex.sent[0])];
        assert SentCount(sends) == 1 by { assert sends[1..] == []; }
      } else {
        assert sends == [Sent(ex.sent[0]), Sent(ex.sent[1])];
        assert SentCount(sends) == 2 by { assert sends[1..][1..] == []; }
      }
      assert SentCount(tail) == 0;
    }
  }

  /** Number of requests in a trace. */
  function SentCount(trace: seq<Event>): nat
  {
    if trace == [] then 0 else (if trace[0].Sent? then 1 else 0) + SentCount(trace[1..])
  }

  lemma {:induction false} SentCountAppend(a: seq<Event>, b: seq<Event>)
    ensures SentCount(a + b) == SentCount(a) + SentCount(b)
  {
    if a != [] {
      assert (a + b)[1..] == a[1..] + b;
      SentCountAppend(a[1..], b);
    } else {
      assert a + b == b;
    }
  }

  /** Number of courtesy sleeps in a trace. */
  function SleptCount(trace: seq<Event>): nat
  {
    if trace == [] then 0 else (if trace[0].Slept? then 1 else 0) + SleptCount(trace[1..])
  }

  lemma {:induction false} SleptCountAppend(a: seq<Event>, b: seq<Event>)
    ensures SleptCount(a + b) == SleptCount(a) + SleptCount(b)
  {
    if a != [] {
      assert (a + b)[1..] == a[1..] + b;
      SleptCountAppend(a[1..], b);
    } else {
      assert a + b == b;
    }
  }

  /**
   * One identifier's events: every request it sent, in order, and then one
   * sleep when a response came back and none when the request failed.
   */
  lemma {:induction false} EventsOfExchange(ex: Exchange)
    ensures |EventsOf(ex)| == |ex.sent| + (if ex.outcome.Received? then 1 else 0)
    ensures forall k :: 0 <= k < |ex.sent| ==> EventsOf(ex)[k] == Sent(ex.sent[k])
    ensures ex.outcome.Received? ==> EventsOf(ex)[|ex.sent|] == Slept
    ensures SleptCount(EventsOf(ex)) == if ex.outcome.Received? then 1 else 0
  {
    var sends := seq(|ex.sent|, k requires 0 <= k < |ex.sent| => Sent(ex.sent[k]));
    var tail: seq<Event> := if ex.outcome.Received? then [Slept] else [];
    SleptCountAppend(sends, tail);
    NoSleepsAmongSends(sends);
    assert SleptCount(tail) == (if ex.outcome.Received? then 1 else 0) by {
      if tail != [] { assert tail[1..] == []; }
    }
  }

  lemma {:induction false} NoSleepsAmongSends(sends: seq<Event>)
    requires forall k :: 0 <= k < |sends| ==> sends[k].Sent?
    ensures SleptCount(sends) == 0
  {
    if sends != [] {
      NoSleepsAmongSends(sends[1..]);
    }
  }

  /** Number of identifiers among `ids` whose exchange got a response. */
  function Responded(setup: Setup, endpoint: string, start: nat, ids: seq<string>): nat
    decreases |ids|
  {
    if ids == [] then 0
    else
      Responded(setup, endpoint, start, ids[..|ids| - 1])
        + (if AttemptAt(setup, endpoint, start, ids, |ids| - 1).outcome.Received? then 1 else 0)
  }

  /**
   * The loop sleeps once per identifier that got a response: a failed
   * request goes on to the next identifier without sleeping.
   */
  lemma {:induction false} ProbeSlept(setup: Setup, endpoint: string, start: nat, ids: seq<string>)
    ensures SleptCount(Probe(setup, endpoint, start, ids).trace) == Responded(setup, endpoint, start, ids)
    ensures Responded(setup, endpoint, start, ids) <= |ids|
  {
    if ids != [] {
      var init := ids[..|ids| - 1];
      ProbeSlept(setup, endpoint, start, init);
      var p := Probe(setup, endpoint, start, init);
      var (url, data) := ApplyTemplate(endpoint, ids[|ids| - 1], setup.dataTemplate);
      var ex := Attempt(setup, p.sent, url, data);
      assert ids[..|ids| - 1] == init;
      assert AttemptAt(setup, endpoint, start, ids, |ids| - 1) == ex;
      SleptCountAppend(p.trace, EventsOf(ex));
      EventsOfExchange(ex);
    }
  }

  /**
   * The anomaly loop over `rest` (the identifiers after the first), against
   * the baseline summary `base` of identifier `baseline`: identifiers without
   * a summary are skipped, and only non-empty diffs are kept.
   */
  function Scan(base: Summary, baseline: string, rest: seq<string>, results: map<string, Entry>): seq<Anomaly>
    decreases |rest|
  {
    if rest == [] then []
    else
      var prev := Scan(base, baseline, rest[..|rest| - 1], results);
      var idv := rest[|rest| - 1];
      if Qualifies(base, idv, results) then prev + [Anomaly(baseline, idv, Diff(base, results[idv].summary))]
      else prev
  }

  /** Identifier `idv` has a summary and it differs from the baseline. */
  predicate Qualifies(base: Summary, idv: string, results: map<string, Entry>)
  {
    idv in results && results[idv].Ok? && Diff(base, results[idv].summary) != map[]
  }

  /** The anomalies of a check: none unless the first identifier has a summary. */
  function Anomalies(ids: seq<string>, results: map<string, Entry>): (r: seq<Anomaly>)
    requires |ids| > 0
    ensures (ids[0] !in results || results[ids[0]].Error?) ==> r == []
  {
    if ids[0] in results && results[ids[0]].Ok? then Scan(results[ids[0]].summary, ids[0], ids[1..], results)
    else []
  }

  /** Indices of `rest` that qualify, in increasing order. */
  ghost function QualifyingIndices(base: Summary, rest: seq<string>, results: map<string, Entry>): seq<nat>
    decreases |rest|
  {
    if rest == [] then []
    else
      var prev := QualifyingIndices(base, rest[..|rest| - 1], results);
      if Qualifies(base, rest[|rest| - 1], results) then prev + [|rest| - 1] else prev
  }

  /**
   * The anomaly loop keeps, in list order, exactly the identifiers of `rest`
   * that qualify: the k-th anomaly belongs to the k-th qualifying index, and
   * records the baseline, that identifier and its non-empty diff.
   */
  lemma {:induction false} ScanExact(base: Summary, baseline: string, rest: seq<string>, results: map<string, Entry>)
    ensures var a := Scan(base, baseline, rest, results);
            var pos := QualifyingIndices(base, rest, results);
            && |a| == |pos|
            && (forall p, q :: 0 <= p < q < |pos| ==> pos[p] < pos[q])
            && (forall p :: 0 <= p < |pos| ==> pos[p] < |rest| && Qualifies(base, rest[pos[p]], results))
            && (forall j :: 0 <= j < |rest| && Qualifies(base, rest[j], results) ==> j in pos)
            && (forall p :: 0 <= p < |a| ==>
                  a[p] == Anomaly(baseline, rest[pos[p]], Diff(base, results[rest[pos[p]]].summary)))
  {
    if rest != [] {
      var init := rest[..|rest| - 1];
      ScanExact(base, baseline, init, results);
      forall j | 0 <= j < |init| ensures init[j] == rest[j] { }
    }
  }

  /** Every anomaly pairs the first identifier with a later one whose summary differs from it. */
  lemma AnomaliesSound(ids: seq<string>, results: map<string, Entry>, a: Anomaly)
    requires |ids| > 0 && a in Anomalies(ids, results)
    ensures ids[0] in results && results[ids[0]].Ok?
    ensures a.baseline == ids[0] && a.compared in ids[1..]
    ensures a.compared in results && results[a.compared].Ok?
    ensures a.diffs == Diff(results[ids[0]].summary, results[a.compared].summary) && a.diffs != map[]
  {
    var base := results[ids[0]].summary;
    ScanExact(base, ids[0], ids[1..], results);
    var pos := QualifyingIndices(base, ids[1..], results);
    var p :| 0 <= p < |Anomalies(ids, results)| && Anomalies(ids, results)[p] == a;
    assert ids[1..][pos[p]] in ids[1..];
  }

  /** Every later identifier whose summary differs from the baseline's yields an anomaly. */
  lemma AnomaliesComplete(ids: seq<string>, results: map<string, Entry>, j: nat)
    requires 1 <= j < |ids|
    requires ids[0] in results && results[ids[0]].Ok?
    requires ids[j] in results && results[ids[j]].Ok?
    requires Diff(results[ids[0]].summary, results[ids[j]].summary) != map[]
    ensures Anomaly(ids[0], ids[j], Diff(results[ids[0]].summary, results[ids[j]].summary)) in Anomalies(ids, results)
  {
    var base := results[ids[0]].summary;
    var rest := ids[1..];
    ScanExact(base, ids[0], rest, results);
    assert rest[j - 1] == ids[j];
    var pos := QualifyingIndices(base, rest, results);
    var p :| 0 <= p < |pos| && pos[p] == j - 1;
    assert Anomalies(ids, results)[p] == Anomaly(ids[0], ids[j], Diff(base, results[ids[j]].summary));
  }

  /**
   * When the first identifier's request fails (and it does not occur again
   * later in the list), the check reports no anomaly at all, whatever the
   * other identifiers returned.
   */
  lemma BaselineFailureMeansNoAnomalies(setup: Setup, endpoint: string, start: nat, ids: seq<string>)
    requires |ids| > 0 && ids[0] !in ids[1..]
    requires AttemptAt(setup, endpoint, start, ids, 0).outcome.Failed?
    ensures Anomalies(ids, Probe(setup, endpoint, start, ids).results) == []
  {
    ProbeEntry(setup, endpoint, start, ids, 0);
  }

  /**
   * Two identifiers that both answer with the same status and key list, the
   * second with a body 50 characters longer: exactly one anomaly, pairing them
   * and recording the length difference.
   */
  lemma LongerBodyIsFlagged(ids: seq<string>, results: map<string, Entry>, s1: Summary, s2: Summary)
    requires ids == ["1", "2"] && results == map["1" := Ok(s1), "2" := Ok(s2)]
    requires s1.statusCode == 200 && s2.statusCode == 200 && s1.jsonKeys == s2.jsonKeys
    requires s2.contentLength == s1.contentLength + 50
    ensures |Anomalies(ids, results)| == 1
    ensures Anomalies(ids, results)[0].baseline == "1" && Anomalies(ids, results)[0].compared == "2"
    ensures Anomalies(ids, results)[0].diffs[LengthKey] == IntPair(s1.contentLength, s2.contentLength)
  {
    assert ids[1..] == ["2"];
    assert ["2"][..0] == [];
    assert Qualifies(s1, "2", results) by { assert LengthKey in Diff(s1, s2); }
  }

  /**
   * The requests of one identifier (the `try` block of lines 60-71), sent
   * after `sent` earlier requests of the session. Returns the requests in the
   * order sent and the outcome recorded for the identifier.
   */
  method Dispatch(setup: Setup, url: string, data: Option<string>, sent: nat)
    returns (requests: seq<Request>, outcome: Outcome)
    ensures Exchange(requests, outcome) == Attempt(setup, sent, url, data)
  {
    var request: Request;
    if setup.verb == GET || setup.verb == DELETE {
      request := Request(setup.verb, url, NoBody);
    } else if data.Some? && data.value != "" {
      if setup.parsesAsJson(data.value) {
        request := Request(setup.verb, url, JsonBody(data.value));
      } else {
        request := Request(setup.verb, url, RawBody(data.value));
      }
    } else {
      request := Request(setup.verb, url, NoBody);
    }
    outcome := setup.transport(sent, request);
    requests := [request];
    if request.body.JsonBody? && outcome.Failed? {
      request := Request(setup.verb, url, RawBody(data.value));
      outcome := setup.transport(sent + 1, request);
      requests := requests + [request];
    }
  }

  /**
   * The anomaly pass of `run_check` (lines 79-88): compares the first
   * identifier's summary with that of each later identifier that has one, and
   * keeps the non-empty diffs.
   */
  method FindAnomalies(ids: seq<string>, results: map<string, Entry>) returns (anomalies: seq<Anomaly>)
    requires |ids| > 0
    ensures anomalies == Anomalies(ids, results)
  {
    anomalies := [];
    var base := if ids[0] in results then Some(results[ids[0]]) else None;
    if base.Some? && base.value.Ok? {
      for i := 1 to |ids|
        invariant anomalies == Scan(base.value.summary, ids[0], ids[1..i], results)
      {
        var idv := ids[i];
        assert ids[1..i + 1][..i - 1] == ids[1..i];
        var cur := if idv in results then Some(results[idv]) else None;
        if cur.None? || !cur.value.Ok? {
          continue;
        }
        var diffs := CompareSummaries(base.value.summary, cur.value.summary);
        if diffs != map[] {
          anomalies := anomalies + [Anomaly(ids[0], idv, diffs)];
        }
      }
      assert ids[1..|ids|] == ids[1..];
    }
  }

  /**
   * `run_check`: the results loop, then the anomaly pass against the first
   * identifier. Also returns the session's events and its request count, so
   * that a later check continues the same session.
   */
  method RunCheck(setup: Setup, endpoint: string, ids: seq<string>, start: nat)
    returns (check: CheckResult, trace: seq<Event>, sent: nat)
    requires |ids| > 0
    ensures check.endpoint == endpoint
    ensures check.results.Keys == set k | 0 <= k < |ids| :: ids[k]
    ensures Progress(check.results, trace, sent) == Probe(setup, endpoint, start, ids)
    ensures check.anomalies == Anomalies(ids, check.results)
  {
    var results: map<string, Entry> := map[];
    trace, sent := [], start;
    for i := 0 to |ids|
      invariant Progress(results, trace, sent) == Probe(setup, endpoint, start, ids[..i])
    {
      var idv := ids[i];
      var (url, data) := ApplyTemplate(endpoint, idv, setup.dataTemplate);
      var requests, outcome := Dispatch(setup, url, data, sent);
      trace := trace + seq(|requests|, k requires 0 <= k < |requests| => Sent(requests[k]));
      sent := sent + |requests|;
      assert ids[..i + 1][..i] == ids[..i];
      match outcome {
        case Failed(reason) =>
          results := results[idv := Error(reason)];
        case Received(resp) =>
          var summary := Summarize(resp);
          results := results[idv := Ok(summary)];
          trace := trace + [Slept];
      }
    }
    assert ids[..|ids|] == ids;
    ProbeKeys(setup, endpoint, start, ids);
    var anomalies := FindAnomalies(ids, results);
    check := CheckResult(endpoint, results, anomalies);
  }

  /**
   * The driver loop of `main`: one check per endpoint, in order, over the same
   * identifiers and the same session. Running it with no identifiers but some
   * endpoint fails in the source (`ids[0]` is indexed), hence the requirement.
   */
  method RunChecks(setup: Setup, endpoints: seq<string>, ids: seq<string>)
    returns (checks: seq<CheckResult>, trace: seq<Event>)
    requires endpoints == [] || |ids| > 0
    ensures |checks| == |endpoints|
    ensures forall k :: 0 <= k < |checks| ==>
              && checks[k].endpoint == endpoints[k]
              && checks[k].results.Keys == (set j | 0 <= j < |ids| :: ids[j])
              && checks[k].anomalies == Anomalies(ids, checks[k].results)
  {
    checks, trace := [], [];
    var sent: nat := 0;
    for e := 0 to |endpoints|
      invariant |checks| == e
      invariant forall k :: 0 <= k < e ==>
                  && checks[k].endpoint == endpoints[k]
                  && checks[k].results.Keys == (set j | 0 <= j < |ids| :: ids[j])
                  && checks[k].anomalies == Anomalies(ids, checks[k].results)
    {
      var check, events, total := RunCheck(setup, endpoints[e], ids, sent);
      checks := checks + [check];
      trace := trace + events;
      sent := total;
    }
  }
}

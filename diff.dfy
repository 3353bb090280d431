/**
 * The diff engine (`compare_summaries`): a map holding one entry for each
 * summary field that differs between two responses.
 */
module DiffEngine {
  import opened Wrappers
  import opened Summarizer

  /** A recorded discrepancy: a pair of differing values, or the bare flag for the samples. */
  datatype DiffValue =
    | IntPair(first: int, second: int)
    | KeysPair(firstKeys: Option<seq<string>>, secondKeys: Option<seq<string>>)
    | Flag(flag: bool)

  type Diffs = map<string, DiffValue>

  const StatusKey: string := "status_code"
  const LengthKey: string := "content_length"
  const KeysKey: string := "json_keys"
  const SampleKey: string := "body_sample_sample_diff"

  /**
   * The diff of two summaries: exactly the differing fields are keys; status
   * code, length and key list record both values, and a sample mismatch
   * records only `True`.
   */
  function Diff(s1: Summary, s2: Summary): (d: Diffs)
    ensures d.Keys <= {StatusKey, LengthKey, KeysKey, SampleKey}
    ensures StatusKey in d <==> s1.statusCode != s2.statusCode
    ensures LengthKey in d <==> s1.contentLength != s2.contentLength
    ensures KeysKey in d <==> s1.jsonKeys != s2.jsonKeys
    ensures SampleKey in d <==> s1.bodySample != s2.bodySample
    ensures StatusKey in d ==> d[StatusKey] == IntPair(s1.statusCode, s2.statusCode)
    ensures LengthKey in d ==> d[LengthKey] == IntPair(s1.contentLength, s2.contentLength)
    ensures KeysKey in d ==> d[KeysKey] == KeysPair(s1.jsonKeys, s2.jsonKeys)
    ensures SampleKey in d ==> d[SampleKey] == Flag(true)
  {
    map k | k in {StatusKey, LengthKey, KeysKey, SampleKey} && Differs(s1, s2, k) :: Recorded(s1, s2, k)
  }

  /** Whether the field behind diff key `k` differs. */
  predicate Differs(s1: Summary, s2: Summary, k: string)
  {
    if k == StatusKey then s1.statusCode != s2.statusCode
    else if k == LengthKey then s1.contentLength != s2.contentLength
    else if k == KeysKey then s1.jsonKeys != s2.jsonKeys
    else s1.bodySample != s2.bodySample
  }

  /** What the diff records under key `k`. */
  function Recorded(s1: Summary, s2: Summary, k: string): DiffValue
  {
    if k == StatusKey then IntPair(s1.statusCode, s2.statusCode)
    else if k == LengthKey then IntPair(s1.contentLength, s2.contentLength)
    else if k == KeysKey then KeysPair(s1.jsonKeys, s2.jsonKeys)
    else Flag(true)
  }

  /** `compare_summaries(s1, s2)`: builds the diff by conditional inserts. */
  method CompareSummaries(s1: Summary, s2: Summary) returns (diffs: Diffs)
    ensures diffs == Diff(s1, s2)
  {
    diffs := map[];
    if s1.statusCode != s2.statusCode {
      diffs := diffs[StatusKey := IntPair(s1.statusCode, s2.statusCode)];
    }
    if s1.contentLength != s2.contentLength {
      diffs := diffs[LengthKey := IntPair(s1.contentLength, s2.contentLength)];
    }
    if s1.jsonKeys != s2.jsonKeys {
      diffs := diffs[KeysKey := KeysPair(s1.jsonKeys, s2.jsonKeys)];
    }
    if s1.bodySample != s2.bodySample {
      diffs := diffs[SampleKey := Flag(true)];
    }
    assert diffs.Keys == Diff(s1, s2).Keys;
  }

  /** The diff is empty exactly when the two summaries are equal. */
  lemma DiffEmptyIff(s1: Summary, s2: Summary)
    ensures Diff(s1, s2) == map[] <==> s1 == s2
  {
    if Diff(s1, s2) == map[] {
      assert StatusKey !in Diff(s1, s2) && LengthKey !in Diff(s1, s2);
      assert KeysKey !in Diff(s1, s2) && SampleKey !in Diff(s1, s2);
    }
  }

  /** Swapping the summaries keeps the differing keys and swaps each recorded pair. */
  lemma DiffSwap(s1: Summary, s2: Summary)
    ensures Diff(s2, s1).Keys == Diff(s1, s2).Keys
    ensures forall k :: k in Diff(s1, s2) && Diff(s1, s2)[k].IntPair? ==>
              Diff(s2, s1)[k] == IntPair(Diff(s1, s2)[k].second, Diff(s1, s2)[k].first)
    ensures forall k :: k in Diff(s1, s2) && Diff(s1, s2)[k].KeysPair? ==>
              Diff(s2, s1)[k] == KeysPair(Diff(s1, s2)[k].secondKeys, Diff(s1, s2)[k].firstKeys)
  {
  }

  /** Key lists with the same keys in another order count as a difference. */
  lemma KeyOrderMatters(s1: Summary, s2: Summary)
    requires s1.jsonKeys == Some(["id", "name"]) && s2.jsonKeys == Some(["name", "id"])
    ensures KeysKey in Diff(s1, s2)
  {
    assert s1.jsonKeys.value[0] != s2.jsonKeys.value[0];
  }

  /** Summaries differing only in status code 200 against 403 give the single status pair. */
  lemma StatusOnlyDiff(s1: Summary, s2: Summary)
    requires s1.statusCode == 200 && s2.statusCode == 403
    requires s1.contentLength == s2.contentLength && s1.jsonKeys == s2.jsonKeys && s1.bodySample == s2.bodySample
    ensures Diff(s1, s2) == map[StatusKey := IntPair(200, 403)]
  {
  }
}

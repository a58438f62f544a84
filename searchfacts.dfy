/**
 * What the search of `Patterns` computes: its result characterised by where
 * `re.search` settles, and the facts needed to read an id back from a link.
 */
module SearchFacts {
  import opened Wrappers
  import opened Text
  import opened Patterns

  /**
   * The search fails exactly when no alternative matches anywhere; otherwise
   * its group is the greedy run after the prefix at the leftmost match.
   */
  lemma SearchGroupSpec(url: string, prefixes: seq<string>)
    ensures SearchGroup(url, prefixes).None? <==> forall q: nat :: !MatchesAnyAt(url, prefixes, q)
    ensures SearchGroup(url, prefixes).Some? ==> exists p: nat, k: nat ::
      LeftmostMatch(url, prefixes, p, k) && CaptureAt(url, p + |prefixes[k]|, SearchGroup(url, prefixes).value)
  {
    SearchGroupFails(url, prefixes);
    var f := Find(url, prefixes, 0);
    if f.Some? {
      var p, k := f.value.0, f.value.1;
      SearchGroupSome(url, prefixes, p, k);
      SearchGroupValue(url, prefixes, p, k);
      var id := AlnumRun(url, p + |prefixes[k]|);
      assert LeftmostMatch(url, prefixes, p, k) && CaptureAt(url, p + |prefixes[k]|, id);
    }
  }

  lemma SearchGroupValue(url: string, prefixes: seq<string>, p: nat, k: nat)
    requires Find(url, prefixes, 0) == Some((p, k)) && k < |prefixes| && p + |prefixes[k]| <= |url|
    ensures SearchGroup(url, prefixes) == Some(AlnumRun(url, p + |prefixes[k]|))
  {
  }

  lemma SearchGroupFails(url: string, prefixes: seq<string>)
    ensures SearchGroup(url, prefixes).None? <==> forall q: nat :: !MatchesAnyAt(url, prefixes, q)
  {
    FindSpec(url, prefixes, 0);
    var f := Find(url, prefixes, 0);
    if f.Some? {
      SearchGroupSome(url, prefixes, f.value.0, f.value.1);
    }
  }

  lemma SearchGroupSome(url: string, prefixes: seq<string>, p: nat, k: nat)
    requires Find(url, prefixes, 0) == Some((p, k))
    ensures k < |prefixes| && p + |prefixes[k]| <= |url|
    ensures LeftmostMatch(url, prefixes, p, k) && MatchesAnyAt(url, prefixes, p)
    ensures CaptureAt(url, p + |prefixes[k]|, AlnumRun(url, p + |prefixes[k]|))
  {
    FindSpec(url, prefixes, 0);
    assert MatchesAt(url, prefixes[k], p);
    AlnumRunIsCapture(url, p + |prefixes[k]|);
  }

  /** Where a letter or digit starts, the longest run there is a greedy group. */
  lemma AlnumRunIsCapture(s: string, i: nat)
    requires i < |s| && IsAlnum(s[i])
    ensures CaptureAt(s, i, AlnumRun(s, i))
  {
    var r := AlnumRun(s, i);
    var n := RunLength(s, i);
    assert |r| == n > 0;
    forall j | 0 <= j < |r| ensures IsAlnum(r[j]) {
      assert r[j] == s[i + j];
    }
  }

  /** The match position and the alternative that `re.search` settles on are unique. */
  lemma LeftmostMatchUnique(url: string, prefixes: seq<string>, p: nat, k: nat, p': nat, k': nat)
    requires LeftmostMatch(url, prefixes, p, k) && LeftmostMatch(url, prefixes, p', k')
    ensures p == p' && k == k'
  {
    if p < p' {
      assert MatchesAnyAt(url, prefixes, p);
    } else if p' < p {
      assert MatchesAnyAt(url, prefixes, p');
    }
  }

  /** Any run of letters and digits that cannot be extended is the longest one. */
  lemma {:induction false} RunLengthMaximal(s: string, i: nat, m: nat)
    requires i + m <= |s| && forall j :: i <= j < i + m ==> IsAlnum(s[j])
    requires i + m == |s| || !IsAlnum(s[i + m])
    ensures m == RunLength(s, i)
    decreases m
  {
    if m > 0 {
      RunLengthMaximal(s, i + 1, m - 1);
    }
  }

  /** The greedy group starting at an index is exactly the longest run there, so it is unique. */
  lemma CaptureIsRun(url: string, start: nat, id: string)
    requires CaptureAt(url, start, id)
    ensures id == AlnumRun(url, start)
  {
    forall j | start <= j < start + |id| ensures IsAlnum(url[j]) {
      assert url[j] == url[start..start + |id|][j - start];
    }
    RunLengthMaximal(url, start, |id|);
  }

  /** The scan from the start stops where `re.search` settles. */
  lemma FindIsLeftmost(url: string, prefixes: seq<string>, p: nat, k: nat)
    requires LeftmostMatch(url, prefixes, p, k)
    ensures Find(url, prefixes, 0) == Some((p, k))
  {
    assert MatchesAnyAt(url, prefixes, p);
    FindSpec(url, prefixes, 0);
    var f := Find(url, prefixes, 0);
    assert LeftmostMatch(url, prefixes, f.value.0, f.value.1);
    LeftmostMatchUnique(url, prefixes, p, k, f.value.0, f.value.1);
  }

  /** Where the search settles and what the group there is determine the result. */
  lemma SearchGroupFinds(url: string, prefixes: seq<string>, p: nat, k: nat, id: string)
    requires LeftmostMatch(url, prefixes, p, k) && CaptureAt(url, p + |prefixes[k]|, id)
    ensures SearchGroup(url, prefixes) == Some(id)
  {
    FindIsLeftmost(url, prefixes, p, k);
    SearchGroupValue(url, prefixes, p, k);
    CaptureIsRun(url, p + |prefixes[k]|, id);
  }

  /** A run of letters and digits ended by the end of the text or a non-alphanumeric is the group. */
  lemma CaptureOfConcat(lead: string, id: string, tail: string)
    requires |id| > 0 && (forall i :: 0 <= i < |id| ==> IsAlnum(id[i]))
    requires tail == [] || !IsAlnum(tail[0])
    ensures CaptureAt(lead + id + tail, |lead|, id)
  {
    var url := lead + id + tail;
    assert url[|lead|..|lead| + |id|] == id;
    if tail != [] {
      assert url[|lead| + |id|] == tail[0];
    }
  }

  /**
   * In `lead + prefixes[k] + id + tail`, where the pattern matches nowhere in
   * `lead` and no earlier alternative matches at the end of `lead`, the search
   * returns `id` when `id` is a run of letters and digits that `tail` ends.
   */
  lemma GroupAfter(lead: string, prefixes: seq<string>, k: nat, id: string, tail: string)
    requires k < |prefixes|
    requires |id| > 0 && (forall i :: 0 <= i < |id| ==> IsAlnum(id[i]))
    requires tail == [] || !IsAlnum(tail[0])
    requires forall q: nat :: q < |lead| ==> !MatchesAnyAt(lead + prefixes[k] + id + tail, prefixes, q)
    requires forall j :: 0 <= j < k ==> !MatchesAt(lead + prefixes[k] + id + tail, prefixes[j], |lead|)
    ensures SearchGroup(lead + prefixes[k] + id + tail, prefixes) == Some(id)
  {
    var prefix := prefixes[k];
    var url := lead + prefix + id + tail;
    assert url == (lead + prefix) + id + tail;
    CaptureOfConcat(lead + prefix, id, tail);
    forall i | 0 <= i < |prefix| ensures url[|lead| + i] == prefix[i] {
      assert url[|lead| + i] == (lead + prefix)[|lead| + i];
    }
    assert url[|lead| + |prefix|] == id[0];
    assert MatchesAt(url, prefix, |lead|);
    assert LeftmostMatch(url, prefixes, |lead|, k);
    SearchGroupFinds(url, prefixes, |lead|, k, id);
  }
}

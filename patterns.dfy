/**
 * The behaviour of Python's `re.search` for the playlist-id patterns, all of the
 * shape `(?:P1|P2|...)([a-zA-Z0-9]+)` with literal prefixes `Pi`: the search
 * scans positions left to right; at a position it tries the alternatives in
 * order, and an alternative succeeds when its prefix is there AND at least one
 * letter or digit follows; the group then takes the longest such run.
 */
module Patterns {
  import opened Wrappers
  import opened Text

  /** `prefix([a-zA-Z0-9]+)` can match `url` at position `p`. */
  predicate MatchesAt(url: string, prefix: string, p: nat) {
    p + |prefix| < |url| && (forall i :: 0 <= i < |prefix| ==> url[p + i] == prefix[i]) && IsAlnum(url[p + |prefix|])
  }

  /** Some alternative of the pattern can match at `p`. */
  predicate MatchesAnyAt(url: string, prefixes: seq<string>, p: nat) {
    exists k :: 0 <= k < |prefixes| && MatchesAt(url, prefixes[k], p)
  }

  /** Position `p` with alternative `k` is where `re.search` settles. */
  predicate LeftmostMatch(url: string, prefixes: seq<string>, p: nat, k: nat) {
    && k < |prefixes|
    && MatchesAt(url, prefixes[k], p)
    && (forall j :: 0 <= j < k ==> !MatchesAt(url, prefixes[j], p))
    && (forall q: nat :: q < p ==> !MatchesAnyAt(url, prefixes, q))
  }

  /** `id` is the greedy group `([a-zA-Z0-9]+)` starting at index `start`. */
  predicate CaptureAt(url: string, start: nat, id: string) {
    && |id| > 0
    && start + |id| <= |url|
    && url[start..start + |id|] == id
    && (forall i :: 0 <= i < |id| ==> IsAlnum(id[i]))
    && (start + |id| == |url| || !IsAlnum(url[start + |id|]))
  }

  /** The first alternative, from the `k`-th on, that matches at `p`. */
  function FirstAlternative(url: string, prefixes: seq<string>, p: nat, k: nat): (r: Option<nat>)
    requires k <= |prefixes|
    ensures r.Some? ==> k <= r.value < |prefixes| && MatchesAt(url, prefixes[r.value], p)
    ensures r.Some? ==> forall j :: k <= j < r.value ==> !MatchesAt(url, prefixes[j], p)
    ensures r.None? ==> forall j :: k <= j < |prefixes| ==> !MatchesAt(url, prefixes[j], p)
    decreases |prefixes| - k
  {
    if k == |prefixes| then None
    else if MatchesAt(url, prefixes[k], p) then Some(k)
    else FirstAlternative(url, prefixes, p, k + 1)
  }

  /** The leftmost position at or after `from` where the pattern matches, with its alternative. */
  function Find(url: string, prefixes: seq<string>, from: nat): Option<(nat, nat)>
    decreases |url| - from
  {
    if from >= |url| then None
    else match FirstAlternative(url, prefixes, from, 0)
      case Some(k) => Some((from, k))
      case None => Find(url, prefixes, from + 1)
  }

  /**
   * The scan finds the first position from `from` on where some alternative
   * matches, and there the first such alternative; it fails only when there is none.
   */
  lemma {:induction false} FindSpec(url: string, prefixes: seq<string>, from: nat)
    ensures var r := Find(url, prefixes, from);
      && (r.Some? ==> from <= r.value.0 && r.value.1 < |prefixes|)
      && (r.Some? ==> MatchesAt(url, prefixes[r.value.1], r.value.0))
      && (r.Some? ==> forall j :: 0 <= j < r.value.1 ==> !MatchesAt(url, prefixes[j], r.value.0))
      && (r.Some? ==> forall q: nat :: from <= q < r.value.0 ==> !MatchesAnyAt(url, prefixes, q))
      && (r.None? ==> forall q: nat :: from <= q ==> !MatchesAnyAt(url, prefixes, q))
    decreases |url| - from
  {
    if from < |url| {
      var first := FirstAlternative(url, prefixes, from, 0);
      if first.None? {
        FindSpec(url, prefixes, from + 1);
        assert !MatchesAnyAt(url, prefixes, from);
        assert Find(url, prefixes, from) == Find(url, prefixes, from + 1);
      } else {
        assert Find(url, prefixes, from) == Some((from, first.value));
      }
    }
  }

  /** The length of the longest run of letters and digits starting at index `i`. */
  function RunLength(s: string, i: nat): (n: nat)
    requires i <= |s|
    ensures i + n <= |s| && forall j :: i <= j < i + n ==> IsAlnum(s[j])
    ensures i + n == |s| || !IsAlnum(s[i + n])
    decreases |s| - i
  {
    if i < |s| && IsAlnum(s[i]) then 1 + RunLength(s, i + 1) else 0
  }

  /** The longest run of letters and digits starting at index `i`. */
  function AlnumRun(s: string, i: nat): string
    requires i <= |s|
  {
    s[i..i + RunLength(s, i)]
  }

  /** `re.search(pattern, url).group(1)`, or `None` when the search fails. */
  function SearchGroup(url: string, prefixes: seq<string>): Option<string> {
    var f := Find(url, prefixes, 0);
    FindSpec(url, prefixes, 0);
    if f.None? then None else Some(AlnumRun(url, f.value.0 + |prefixes[f.value.1]|))
  }
}

/** The URL fragment the gallery writes after each committed navigation
    (`#gallery-<n>`, n one-based) and the reading of it at start-up, which
    takes the first `gallery-` followed by at least one digit anywhere in
    the fragment, with every digit that follows it (the regular expression
    `/gallery-(\d+)/` and `parseInt` of its group). */
module GalleryHash {
  import opened Wrappers
  import opened Decimal

  const Prefix: string := "gallery-"

  /** The fragment written for the zero-based slide `index`. */
  function HashFor(index: nat): (h: string)
    ensures |h| >= 10 && h[..9] == "#" + Prefix
  {
    "#" + Prefix + FromNat(index + 1)
  }

  /** The regular expression matches starting at position `i`. */
  predicate MatchesAt(s: string, i: int) {
    0 <= i && i + 9 <= |s| && s[i..i + 8] == Prefix && IsDigit(s[i + 8])
  }

  /** The leftmost position at or after `from` where the expression matches. */
  function FirstMatch(s: string, from: nat): (r: Option<nat>)
    ensures r.Some? ==> from <= r.value && MatchesAt(s, r.value)
    ensures r.Some? ==> forall k :: from <= k < r.value ==> !MatchesAt(s, k)
    ensures r.None? ==> forall k :: from <= k ==> !MatchesAt(s, k)
    decreases |s| - from
  {
    if from + 9 > |s| then None
    else if MatchesAt(s, from) then Some(from)
    else FirstMatch(s, from + 1)
  }

  /** The one-based number in the fragment, or None when nothing matches. */
  function ParseHash(s: string): (r: Option<nat>)
    ensures r.Some? <==> exists k :: MatchesAt(s, k)
  {
    match FirstMatch(s, 0)
    case None => None
    case Some(i) => Some(Value(DigitRun(s, i + 8)))
  }

  /** Reading back the fragment written for slide `index` yields `index + 1`,
      so the start-up check navigates to `index` again. */
  lemma HashRoundTrip(index: nat)
    ensures ParseHash(HashFor(index)) == Some(index + 1)
  {
    var digits := FromNat(index + 1);
    var h := HashFor(index);
    assert h[1..9] == Prefix && h[9] == digits[0];
    assert MatchesAt(h, 1);
    assert !MatchesAt(h, 0) by {
      assert h[0] == '#';
    }
    assert h[9..] == digits;
    DigitRunToEnd(h, 9);
    ValueOfFromNat(index + 1);
  }

  /** The fragment written for slide `index` determines `index`. */
  lemma HashForInjective(i: nat, j: nat)
    requires HashFor(i) == HashFor(j)
    ensures i == j
  {
    HashRoundTrip(i);
    HashRoundTrip(j);
  }
}

/** `re.search` and `re.findall` over the scanners of module Patterns: the
    engine tries each start position from left to right, and `findall`
    resumes scanning where the previous match ended. */
module Scanning {
  import opened Chars
  import opened Patterns

  /** A match of a pattern that starts at start. */
  datatype Found = Found(start: nat, hit: Hit)

  /** No match attempt at a position in [lo, hi) succeeds. */
  predicate NoHitIn(p: Pattern, s: string, lo: nat, hi: nat)
    requires hi <= |s| + 1
  {
    forall k :: lo <= k < hi ==> MatchAt(p, s, k).None?
  }

  /** `re.search(p, s[from..])` with positions counted in s: the leftmost
      start position at or after from where a match attempt succeeds. */
  function Search(p: Pattern, s: string, from: nat): (r: Option<Found>)
    requires from <= |s|
    ensures r.Some? ==> from <= r.value.start <= |s|
    ensures r.Some? ==> MatchAt(p, s, r.value.start) == Some(r.value.hit)
    ensures r.Some? ==> NoHitIn(p, s, from, r.value.start)
    ensures r.None? <==> NoHitIn(p, s, from, |s| + 1)
    decreases |s| - from
  {
    match MatchAt(p, s, from)
    case Some(h) => Some(Found(from, h))
    case None =>
      if from == |s| then
        NoHitExtend(p, s, from, |s| + 1);
        None
      else
        var r := Search(p, s, from + 1);
        NoHitExtend(p, s, from, if r.Some? then r.value.start else |s| + 1);
        r
  }

  /** A failed attempt at lo extends a failure-free range that starts just
      after it. */
  lemma NoHitExtend(p: Pattern, s: string, lo: nat, hi: nat)
    requires lo < hi <= |s| + 1
    requires MatchAt(p, s, lo).None? && NoHitIn(p, s, lo + 1, hi)
    ensures NoHitIn(p, s, lo, hi)
  {
  }

  /** m is the match that a scan starting at lo finds first. */
  predicate FirstFrom(p: Pattern, s: string, lo: nat, m: Found) {
    lo <= m.start < m.hit.end <= |s| &&
    MatchAt(p, s, m.start) == Some(m.hit) && NoHitIn(p, s, lo, m.start)
  }

  /** ms is what scanning s from lo to the end produces: each match is the
      first one after the previous match, and nothing matches after the last. */
  predicate Scanned(p: Pattern, s: string, lo: nat, ms: seq<Found>)
    decreases ms
  {
    if ms == [] then NoHitIn(p, s, lo, |s| + 1)
    else FirstFrom(p, s, lo, ms[0]) && Scanned(p, s, ms[0].hit.end, ms[1..])
  }

  /** `re.findall(p, s[from..])`: all matches, leftmost first, each scan
      resuming at the end of the previous match. */
  function FindAll(p: Pattern, s: string, from: nat): (ms: seq<Found>)
    requires WellFormed(p) && from <= |s|
    ensures Scanned(p, s, from, ms)
    decreases |s| - from
  {
    match Search(p, s, from)
    case None => []
    case Some(m) => [m] + FindAll(p, s, m.hit.end)
  }

  /** Scanning has one outcome: findall is the only sequence of matches
      that a left-to-right scan can produce. */
  lemma {:induction false} ScannedUnique(p: Pattern, s: string, lo: nat, ms: seq<Found>, ns: seq<Found>)
    requires Scanned(p, s, lo, ms) && Scanned(p, s, lo, ns)
    ensures ms == ns
    decreases ms
  {
    ScannedEmpty(p, s, lo, ms);
    ScannedEmpty(p, s, lo, ns);
    if ms != [] {
      var a, b := ms[0], ns[0];
      assert MatchAt(p, s, a.start).Some? && MatchAt(p, s, b.start).Some?;
      assert a.start == b.start;
      ScannedUnique(p, s, a.hit.end, ms[1..], ns[1..]);
      assert ms == [a] + ms[1..] && ns == [b] + ns[1..];
    }
  }

  /** Every element of a scan is a match at or after where the scan began. */
  lemma {:induction false} ScannedMatch(p: Pattern, s: string, lo: nat, ms: seq<Found>, j: nat)
    requires Scanned(p, s, lo, ms) && j < |ms|
    ensures lo <= ms[j].start < ms[j].hit.end <= |s|
    ensures MatchAt(p, s, ms[j].start) == Some(ms[j].hit)
    decreases j
  {
    if j > 0 {
      ScannedMatch(p, s, ms[0].hit.end, ms[1..], j - 1);
    }
  }

  /** Matches come in document order and do not overlap. */
  lemma {:induction false} ScannedOrdered(p: Pattern, s: string, lo: nat, ms: seq<Found>, j: nat, k: nat)
    requires Scanned(p, s, lo, ms) && j < k < |ms|
    ensures ms[j].hit.end <= ms[k].start
    decreases j
  {
    if j == 0 {
      ScannedMatch(p, s, ms[0].hit.end, ms[1..], k - 1);
    } else {
      ScannedOrdered(p, s, ms[0].hit.end, ms[1..], j - 1, k - 1);
    }
  }

  /** A scan is empty exactly when no position from lo on holds a match. */
  lemma ScannedEmpty(p: Pattern, s: string, lo: nat, ms: seq<Found>)
    requires Scanned(p, s, lo, ms)
    ensures ms == [] <==> NoHitIn(p, s, lo, |s| + 1)
  {
    if ms != [] {
      assert MatchAt(p, s, ms[0].start).Some?;
    }
  }

  /** The leftmost match, stated through the shape of matches: if the text
      has the pattern's shape at i and nowhere before, search reports it. */
  lemma SearchFindsLeftmost(p: Pattern, s: string, i: nat, h: Hit)
    requires WellFormed(p) && i <= |s|
    requires IsHit(p, s, i, h) && NoHitIn(p, s, 0, i)
    ensures Search(p, s, 0) == Some(Found(i, h))
  {
    MatchAtIsHit(p, s, i, h);
    var r := Search(p, s, 0);
    assert r.Some? by {
      assert MatchAt(p, s, i).Some?;
    }
    assert MatchAt(p, s, r.value.start).Some?;
  }
}

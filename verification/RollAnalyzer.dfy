/** tools/hid_release_roll_analyzer.py: pairing each all-keys-up report with the next press on
    the same endpoint. */
module RollAnalyzer {
  import opened Options
  import opened Ordering

  /** A keyboard write of the log; a missing field reads as None, a missing time as 0. */
  datatype Write = Write(endpoint: Option<string>, report: Option<string>, time: int)

  datatype Match = Match(index: nat, next: nat, microseconds: int, endpoint: Option<string>,
                         zeroReport: Option<string>, nextReport: Option<string>)

  predicate IsZero(w: Write) { w.report in {Some("0000000000000000"), Some("010000000000000000")} }

  predicate Close(from_: Write, to: Write, threshold: real) {
    0 <= to.time - from_.time && (to.time - from_.time) as real / 1000.0 < threshold
  }

  function MatchOf(writes: seq<Write>, i: nat, j: nat): Match
    requires i < |writes| && j < |writes|
  {
    Match(i, j, writes[j].time - writes[i].time, writes[i].endpoint, writes[i].report, writes[j].report)
  }

  /** j is the next write on the endpoint of write i. */
  predicate NextOn(writes: seq<Write>, i: nat, j: nat) {
    i < j < |writes| && writes[j].endpoint == writes[i].endpoint
    && forall k | i < k < j :: writes[k].endpoint != writes[i].endpoint
  }

  predicate IsRoll(writes: seq<Write>, i: nat, j: nat, threshold: real) {
    NextOn(writes, i, j) && IsZero(writes[i]) && !IsZero(writes[j]) && Close(writes[i], writes[j], threshold)
  }

  /** A roll: the first later write on the endpoint of an all-keys-up report is none itself, and
      comes less than the threshold of milliseconds after it, and not before it. */
  lemma RollMeans(writes: seq<Write>, i: nat, j: nat, threshold: real)
    requires i < |writes| && j < |writes|
    ensures var later := set k | i < k < |writes| && writes[k].endpoint == writes[i].endpoint;
      var reports := {Some("0000000000000000"), Some("010000000000000000")};
      var passed := writes[j].time - writes[i].time;
      IsRoll(writes, i, j, threshold) <==> (
        && j in later && (forall k | k in later :: j <= k)
        && writes[i].report in reports && writes[j].report !in reports
        && passed >= 0 && passed as real < threshold * 1000.0)
    ensures var m := MatchOf(writes, i, j);
      && m.index == i && m.next == j && writes[i].time + m.microseconds == writes[j].time
      && m.endpoint == writes[i].endpoint && m.zeroReport == writes[i].report && m.nextReport == writes[j].report
  {
    var passed := writes[j].time - writes[i].time;
    assert passed as real / 1000.0 < threshold <==> passed as real < threshold * 1000.0;
    var later := set k | i < k < |writes| && writes[k].endpoint == writes[i].endpoint;
    if NextOn(writes, i, j) {
      assert j in later && forall k | k in later :: j <= k;
    }
    if j in later && forall k | k in later :: j <= k {
      assert forall k | i < k < j :: writes[k].endpoint == writes[i].endpoint ==> k in later;
      assert NextOn(writes, i, j);
    }
  }

  ghost predicate Sound(matches: seq<Match>, writes: seq<Write>, threshold: real) {
    forall m <- matches :: IsRoll(writes, m.index, m.next, threshold) && m == MatchOf(writes, m.index, m.next)
  }

  /** Every roll that starts before n is among the matches. */
  ghost predicate Complete(matches: seq<Match>, writes: seq<Write>, n: nat, threshold: real) {
    forall i: nat, j: nat | i < n && IsRoll(writes, i, j, threshold) :: MatchOf(writes, i, j) in matches
  }

  ghost predicate InOrder(matches: seq<Match>) {
    forall a, b | 0 <= a < b < |matches| :: matches[a].index < matches[b].index
  }

  /** The inner search; None when the endpoint is not written again. */
  method FindNext(writes: seq<Write>, i: nat) returns (next: Option<nat>)
    requires i < |writes|
    ensures match next
      case Some(j) => NextOn(writes, i, j)
      case None => forall j: nat :: !NextOn(writes, i, j)
  {
    for j := i + 1 to |writes|
      invariant forall k | i < k < j :: writes[k].endpoint != writes[i].endpoint
    {
      if writes[j].endpoint == writes[i].endpoint { return Some(j); }
    }
    return None;
  }

  lemma NextIsUnique(writes: seq<Write>, i: nat, j: nat, k: nat)
    requires NextOn(writes, i, j) && NextOn(writes, i, k)
    ensures j == k
  {
  }

  /** zero_to_next_press: the rolls under the threshold, all of them, once each, in log order. */
  method ZeroToNextPress(writes: seq<Write>, threshold: real) returns (matches: seq<Match>)
    ensures Sound(matches, writes, threshold) && Complete(matches, writes, |writes|, threshold) && InOrder(matches)
  {
    matches := [];
    for i := 0 to |writes|
      invariant Sound(matches, writes, threshold) && Complete(matches, writes, i, threshold) && InOrder(matches)
      invariant forall m <- matches :: m.index < i
    {
      if !IsZero(writes[i]) { continue; }
      var next := FindNext(writes, i);
      if next == None { continue; }
      var j := next.value;
      forall k: nat | NextOn(writes, i, k) { NextIsUnique(writes, i, j, k); }
      if IsZero(writes[j]) { continue; }
      if Close(writes[i], writes[j], threshold) {
        matches := matches + [MatchOf(writes, i, j)];
      }
    }
  }

  // ----- one pass, remembering the last write of every endpoint ---------------------------------

  function LastOn(writes: seq<Write>, n: nat, endpoint: Option<string>): (last: Option<nat>)
    requires n <= |writes|
    ensures last.Some? ==> last.value < n && writes[last.value].endpoint == endpoint
  {
    if n == 0 then None else if writes[n - 1].endpoint == endpoint then Some(n - 1) else LastOn(writes, n - 1, endpoint)
  }

  function OnePass(writes: seq<Write>, n: nat, threshold: real): seq<Match>
    requires n <= |writes|
  {
    if n == 0 then [] else
      var w := writes[n - 1];
      OnePass(writes, n - 1, threshold) +
      match LastOn(writes, n - 1, w.endpoint)
      case None => []
      case Some(i) =>
        if IsZero(writes[i]) && !IsZero(w) && Close(writes[i], w, threshold) then [MatchOf(writes, i, n - 1)] else []
  }

  lemma {:induction false} LastIsBefore(writes: seq<Write>, n: nat, i: nat, j: nat)
    requires n <= j < |writes| && forall k | n <= k < j :: writes[k].endpoint != writes[j].endpoint
    ensures LastOn(writes, n, writes[j].endpoint) == Some(i) <==> i < n && NextOn(writes, i, j)
  {
    if n > 0 && writes[n - 1].endpoint != writes[j].endpoint {
      LastIsBefore(writes, n - 1, i, j);
    }
  }

  lemma {:induction false} OnePassFindsRolls(writes: seq<Write>, n: nat, threshold: real, m: Match)
    requires n <= |writes|
    ensures m in OnePass(writes, n, threshold)
      <==> m.next < n && IsRoll(writes, m.index, m.next, threshold) && m == MatchOf(writes, m.index, m.next)
  {
    if n > 0 {
      OnePassFindsRolls(writes, n - 1, threshold, m);
      LastIsBefore(writes, n - 1, m.index, n - 1);
      var found := OnePass(writes, n, threshold);
      assert m.next == n - 1 ==> (m in found <==> m in found[|OnePass(writes, n - 1, threshold)|..]);
    }
  }

  lemma {:induction false} OnePassDistinct(writes: seq<Write>, n: nat, threshold: real)
    requires n <= |writes|
    ensures Distinct(OnePass(writes, n, threshold)) && forall m <- OnePass(writes, n, threshold) :: m.next < n
  {
    if n > 0 { OnePassDistinct(writes, n - 1, threshold); }
  }

  /** The quadratic search and the single pass find the same matches, each once. */
  lemma SearchIsOnePass(writes: seq<Write>, threshold: real, matches: seq<Match>)
    requires Sound(matches, writes, threshold) && Complete(matches, writes, |writes|, threshold) && InOrder(matches)
    ensures multiset(matches) == multiset(OnePass(writes, |writes|, threshold))
  {
    hide IsRoll, OnePass;
    forall m: Match
      ensures m in matches <==> m in OnePass(writes, |writes|, threshold)
    {
      OnePassFindsRolls(writes, |writes|, threshold, m);
      RollStart(writes, m, threshold);
    }
    OnePassDistinct(writes, |writes|, threshold);
    SameMultiset(matches, OnePass(writes, |writes|, threshold));
  }

  lemma RollStart(writes: seq<Write>, m: Match, threshold: real)
    ensures IsRoll(writes, m.index, m.next, threshold) ==> m.index < m.next < |writes|
  {
  }

  /** No press is claimed by two releases. */
  lemma PressClaimedOnce(writes: seq<Write>, threshold: real, matches: seq<Match>, a: nat, b: nat)
    requires Sound(matches, writes, threshold) && InOrder(matches) && a < b < |matches|
    ensures matches[a].next != matches[b].next && matches[a].index < matches[b].index
  {
    assert matches[a] in matches && matches[b] in matches;
    assert writes[matches[a].next].endpoint == writes[matches[a].index].endpoint;
    assert writes[matches[b].next].endpoint == writes[matches[b].index].endpoint;
  }

  /** A larger threshold only adds matches. */
  lemma ThresholdMonotone(writes: seq<Write>, low: real, high: real, few: seq<Match>, many: seq<Match>)
    requires low <= high
    requires Sound(few, writes, low) && Complete(many, writes, |writes|, high)
    ensures forall m <- few :: m in many
  {
    forall m <- few
      ensures m in many
    {
      assert IsRoll(writes, m.index, m.next, high);
    }
  }
}

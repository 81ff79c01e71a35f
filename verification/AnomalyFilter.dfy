/** The filter that skips a scale's anomalous samples until three of them agree on a new level. */
module AnomalyFilter {
  import opened Options
  import opened Hx711

  datatype Verdict = Init | Ok | Skip | NewLevel

  /** The last good sample, and the candidate for a new level with the samples counted for it. */
  datatype Filter = Filter(lastGood: Option<int>, candidate: Option<int>, count: nat)

  const START := Filter(None, None, 0)

  function Distance(a: int, b: int): nat { if a >= b then a - b else b - a }

  predicate Close(a: int, b: int) { Distance(a, b) <= MAX_RAW_JUMP }

  function VerdictOf(f: Filter, raw: int): Verdict {
    if f.lastGood.None? then Init
    else if Close(raw, f.lastGood.value) then Ok
    else if f.candidate.Some? && Close(raw, f.candidate.value) && f.count + 1 >= ANOMALY_CONFIRM_COUNT then NewLevel
    else Skip
  }

  function Step(f: Filter, raw: int): Filter {
    if VerdictOf(f, raw) != Skip then Filter(Some(raw), None, 0)
    else if f.candidate.Some? && Close(raw, f.candidate.value) then f.(count := f.count + 1)
    else f.(candidate := Some(raw), count := 1)
  }

  function After(f: Filter, samples: seq<int>): Filter {
    if samples == [] then f else Step(After(f, samples[..|samples| - 1]), samples[|samples| - 1])
  }

  /** What the converter can deliver. */
  predicate IsRaw(v: int) { -SIGN_BIT <= v < SIGN_BIT }

  class Hx711State {
    var lastGoodRaw: int32
    var anomalyCandidateRaw: int32
    var hasLastGoodRaw: bool
    var hasAnomalyCandidateRaw: bool
    var anomalyCount: int32

    ghost predicate Valid()
      reads this
    {
      && IsRaw(lastGoodRaw as int) && IsRaw(anomalyCandidateRaw as int) && 0 <= anomalyCount < 3
      && (!hasAnomalyCandidateRaw ==> anomalyCount == 0) && (hasAnomalyCandidateRaw ==> hasLastGoodRaw)
    }

    ghost function View(): Filter
      requires Valid()
      reads this
    {
      Filter(
        if hasLastGoodRaw then Some(lastGoodRaw as int) else None,
        if hasAnomalyCandidateRaw then Some(anomalyCandidateRaw as int) else None,
        anomalyCount as int)
    }

    constructor ()
      ensures Valid() && View() == START
    {
      lastGoodRaw, anomalyCandidateRaw, anomalyCount := 0, 0, 0;
      hasLastGoodRaw, hasAnomalyCandidateRaw := false, false;
    }

    /** No 32-bit difference overflows: the samples fit in 24 bits. */
    method AcceptOrSkip(raw: int32) returns (accepted: Option<int32>, status: Verdict)
      requires Valid() && IsRaw(raw as int)
      modifies this
      ensures Valid() && View() == Step(old(View()), raw as int)
      ensures status == VerdictOf(old(View()), raw as int)
      ensures accepted == if status == Skip then None else Some(raw)
    {
      if !hasLastGoodRaw {
        lastGoodRaw, hasLastGoodRaw := raw, true;
        return Some(raw), Init;
      }
      var diff := raw - lastGoodRaw;
      if diff < 0 {
        diff := -diff;
      }
      if diff <= MAX_RAW_JUMP as int32 {
        lastGoodRaw, hasAnomalyCandidateRaw, anomalyCount := raw, false, 0;
        return Some(raw), Ok;
      }
      if !hasAnomalyCandidateRaw {
        anomalyCandidateRaw, hasAnomalyCandidateRaw, anomalyCount := raw, true, 1;
        return None, Skip;
      }
      var candidateDiff := raw - anomalyCandidateRaw;
      if candidateDiff < 0 {
        candidateDiff := -candidateDiff;
      }
      if candidateDiff <= MAX_RAW_JUMP as int32 {
        anomalyCount := anomalyCount + 1;
      } else {
        anomalyCandidateRaw, anomalyCount := raw, 1;
        return None, Skip;
      }
      if anomalyCount >= ANOMALY_CONFIRM_COUNT as int32 {
        lastGoodRaw, hasAnomalyCandidateRaw, anomalyCount := raw, false, 0;
        return Some(raw), NewLevel;
      }
      return None, Skip;
    }
  }

  // ----- why a sample is accepted -----

  function VerdictAt(s: seq<int>, k: nat): Verdict
    requires k < |s|
  {
    VerdictOf(After(START, s[..k]), s[k])
  }

  /** The last sample accepted before the `k`-th. */
  function LastAccepted(s: seq<int>, k: nat): Option<int>
    requires k <= |s|
  {
    if k == 0 then None
    else if VerdictAt(s, k - 1) != Skip then Some(s[k - 1])
    else LastAccepted(s, k - 1)
  }

  /** Sample `j` was skipped, and lies outside the band around `last`. */
  predicate Outside(s: seq<int>, j: nat, last: int) {
    j < |s| && VerdictAt(s, j) == Skip && !(-2140 <= s[j] - last <= 2140)
  }

  /** A skipped sample becomes the candidate, unless it agrees with one that the sample before it had just set. */
  predicate OpensCandidate(s: seq<int>, j: nat) {
    j < |s| && VerdictAt(s, j) == Skip && !(j > 0 && OpensCandidate(s, j - 1) && Close(s[j], s[j - 1]))
  }

  /** How many of the last samples count for the candidate. */
  function Counted(s: seq<int>, k: nat): nat
    requires k <= |s|
  {
    if k == 0 || VerdictAt(s, k - 1) != Skip then 0 else if OpensCandidate(s, k - 1) then 1 else 2
  }

  /** The filter's state after `k` samples, in terms of the samples themselves. */
  ghost predicate Remembers(f: Filter, s: seq<int>, k: nat)
    requires k <= |s|
  {
    && f.lastGood == LastAccepted(s, k) && (f.lastGood.Some? <==> k > 0)
    && f.count == Counted(s, k) && (f.candidate.Some? <==> f.count > 0)
    && (f.count == 1 ==> f.candidate == Some(s[k - 1]))
    && (f.count == 2 ==> (k >= 2 && OpensCandidate(s, k - 2) && Close(s[k - 1], s[k - 2]) && f.candidate == Some(s[k - 2])))
    && (forall j: nat :: k - f.count <= j < k ==> Outside(s, j, f.lastGood.value))
  }

  lemma {:induction false} StateRemembers(s: seq<int>, k: nat)
    requires k <= |s|
    ensures Remembers(After(START, s[..k]), s, k)
  {
    if k > 0 {
      StateRemembers(s, k - 1);
      assert s[..k][..k - 1] == s[..k - 1];
    }
  }

  /** A sample is accepted exactly when it is the first one, or close to the last accepted one, or the third of
      three consecutive samples that all lie outside that band and close to the first of the three, which
      opened the candidacy. */
  lemma AcceptedExactlyWhen(s: seq<int>, k: nat)
    requires k < |s|
    ensures k > 0 ==> LastAccepted(s, k).Some?
    ensures VerdictAt(s, k) != Skip <==> (
      || k == 0
      || -2140 <= s[k] - LastAccepted(s, k).value <= 2140
      || (k >= 2 && OpensCandidate(s, k - 2) && ThirdAgrees(s, k, LastAccepted(s, k).value)))
  {
    StateRemembers(s, k);
  }

  predicate ThirdAgrees(s: seq<int>, k: nat, last: int)
    requires 2 <= k < |s|
  {
    && Outside(s, k - 2, last) && Outside(s, k - 1, last) && !(-2140 <= s[k] - last <= 2140)
    && -2140 <= s[k - 1] - s[k - 2] <= 2140 && -2140 <= s[k] - s[k - 2] <= 2140
  }

  // ----- how long a new level is skipped -----

  function Skips(f: Filter, s: seq<int>): nat
    decreases |s|
  {
    if s == [] then 0 else (if VerdictOf(f, s[0]) == Skip then 1 else 0) + Skips(Step(f, s[0]), s[1..])
  }

  predicate NearAll(v: int, s: seq<int>) {
    forall k :: 0 <= k < |s| ==> Close(s[k], v)
  }

  /** All samples lie within the allowed jump of each other. */
  predicate Level(s: seq<int>) {
    forall j, k :: 0 <= j < |s| && 0 <= k < |s| ==> Close(s[j], s[k])
  }

  predicate Counting(f: Filter) {
    f.count < ANOMALY_CONFIRM_COUNT && (f.candidate.Some? <==> f.count > 0)
  }

  /** The skips still possible on a level. */
  function Budget(f: Filter, s: seq<int>): nat
    requires Counting(f)
  {
    if s == [] || f.lastGood.None? || NearAll(f.lastGood.value, s) then 0
    else if f.candidate.None? then 2
    else if NearAll(f.candidate.value, s) then 2 - f.count
    else 4 - f.count
  }

  lemma {:induction false} SkipsWithinBudget(f: Filter, s: seq<int>)
    requires Counting(f) && Level(s)
    ensures Skips(f, s) <= Budget(f, s)
    decreases |s|
  {
    if s != [] {
      var g := Step(f, s[0]);
      assert NearAll(s[0], s[1..]);
      assert forall k :: 0 <= k < |s[1..]| ==> s[1..][k] == s[k + 1];
      SkipsWithinBudget(g, s[1..]);
    }
  }

  lemma {:induction false} AfterFront(f: Filter, s: seq<int>)
    requires s != []
    ensures After(f, s) == After(Step(f, s[0]), s[1..])
  {
    if |s| > 1 {
      var init := s[..|s| - 1];
      AfterFront(f, init);
      assert s[1..][..|s| - 2] == init[1..];
    }
  }

  lemma {:induction false} StaysOnLevel(f: Filter, s: seq<int>)
    requires s != [] && Level(s) && (Skips(f, s) < |s| || (f.lastGood.Some? && NearAll(f.lastGood.value, s)))
    ensures After(f, s).lastGood == Some(s[|s| - 1])
    decreases |s|
  {
    AfterFront(f, s);
    if |s| > 1 {
      assert NearAll(s[0], s[1..]);
      StaysOnLevel(Step(f, s[0]), s[1..]);
    }
  }

  /** From whatever state, a level costs at most three skipped samples, and the fourth at the latest is accepted. */
  lemma LevelIsAdopted(before: seq<int>, level: seq<int>)
    requires Level(level)
    ensures Skips(After(START, before), level) <= 3
    ensures |level| >= 4 ==> After(START, before + level).lastGood == Some(level[|level| - 1])
  {
    var f := After(START, before);
    StateRemembers(before, |before|);
    assert before[..|before|] == before;
    SkipsWithinBudget(f, level);
    if |level| >= 4 {
      StaysOnLevel(f, level);
      AfterBoth(START, before, level);
    }
  }

  lemma {:induction false} AfterBoth(f: Filter, a: seq<int>, b: seq<int>)
    ensures After(f, a + b) == After(After(f, a), b)
  {
    if b == [] {
      assert a + b == a;
    } else {
      assert (a + b)[..|a + b| - 1] == a + b[..|b| - 1];
      AfterBoth(f, a, b[..|b| - 1]);
    }
  }

  predicate Constant(s: seq<int>, x: int) {
    forall k :: 0 <= k < |s| ==> s[k] == x
  }

  lemma {:induction false} ConstantWithinBudget(f: Filter, s: seq<int>, x: int)
    requires Counting(f) && Constant(s, x)
    ensures Skips(f, s) <= if f.candidate.Some? && Close(x, f.candidate.value) then 2 - f.count else 2
    ensures f.lastGood.Some? && Close(x, f.lastGood.value) ==> Skips(f, s) == 0
    decreases |s|
  {
    if s != [] { ConstantWithinBudget(Step(f, s[0]), s[1..], x); }
  }

  /** A constant input is skipped at most twice, whatever came before. */
  lemma ConstantIsSkippedAtMostTwice(before: seq<int>, constant: seq<int>, x: int)
    requires Constant(constant, x)
    ensures Skips(After(START, before), constant) <= 2
  {
    StateRemembers(before, |before|);
    assert before[..|before|] == before;
    ConstantWithinBudget(After(START, before), constant, x);
  }

  /** The bounds are reached: a level of four samples can lose three, a constant one two. */
  lemma BoundsAreReached()
    ensures Level([100000, 102000, 101000, 101500])
    ensures Skips(After(START, [0, 98000]), [100000, 102000, 101000, 101500]) == 3
    ensures Skips(After(START, [0]), [100000, 100000, 100000]) == 2
  {
  }
}

/**
 * SeedFinder: a list of randomizations to search a random seed for, the
 * desired-value matching each draw is checked with, and the preparation of a
 * search (carry-forward times and a stable sort by time).
 */
module SeedFinder {
  import opened Wrappers

  const RANDTYPE_INT: int := 0
  const RANDTYPE_FLOAT: int := 1

  /** The comparison a desired value is checked with; any other value never matches. */
  const RANDVALUE_EQUAL: int := 0
  const RANDVALUE_LESSTHAN: int := 1
  const RANDVALUE_MORETHAN: int := 2

  /**
   * One random draw the search has to reproduce. time < 0 means "no time of
   * its own"; tempTime is the time assigned when a search is prepared.
   */
  datatype Randomization = Randomization(
    rangeStart: real, rangeEnd: real, time: real, randType: int,
    valueType: int, desiredValues: seq<real>, precision: real,
    value: Option<real>, tempTime: real,
    pilotTimeframe: bool, pilotTimeframeTime: real)

  /** A new randomization: no value drawn yet, compared for equality, at most one desired value. */
  function NewRandomization(rangeStart: real, rangeEnd: real, randType: int, time: real := -1.0,
                            desired: Option<real> := None, precision: real := 0.01): (r: Randomization)
    ensures r.value == None && r.valueType == RANDVALUE_EQUAL && !r.pilotTimeframe
    ensures r.desiredValues == (if desired.Some? then [desired.value] else [])
  {
    Randomization(rangeStart, rangeEnd, time, randType, RANDVALUE_EQUAL,
                  if desired.Some? then [desired.value] else [], precision, None, 0.0, false, -1.0)
  }

  function Abs(x: real): real {
    if x < 0.0 then -x else x
  }

  /** Whether the drawn value satisfies one desired value under the randomization's comparison. */
  predicate HasValueMatch(r: Randomization, desired: real) {
    if r.value.None? then false
    else if r.valueType == RANDVALUE_EQUAL then Abs(r.value.value - desired) < r.precision
    else if r.valueType == RANDVALUE_LESSTHAN then r.value.value <= desired
    else if r.valueType == RANDVALUE_MORETHAN then r.value.value >= desired
    else false
  }

  /**
   * Equality matches the desired values strictly inside a window of width
   * precision around the value; "less than" and "more than" include the bound.
   */
  lemma ValueMatchWindow(r: Randomization, desired: real)
    ensures r.value.None? ==> !HasValueMatch(r, desired)
    ensures r.value.Some? && r.valueType == RANDVALUE_EQUAL ==>
      (HasValueMatch(r, desired) <==> r.value.value - r.precision < desired < r.value.value + r.precision)
    ensures r.value.Some? && r.valueType == RANDVALUE_LESSTHAN ==>
      (HasValueMatch(r, desired) <==> desired >= r.value.value)
    ensures r.value.Some? && r.valueType == RANDVALUE_MORETHAN ==>
      (HasValueMatch(r, desired) <==> desired <= r.value.value)
    ensures r.valueType !in {RANDVALUE_EQUAL, RANDVALUE_LESSTHAN, RANDVALUE_MORETHAN} ==> !HasValueMatch(r, desired)
  {
  }

  /** A randomization without desired values accepts any draw; otherwise one desired value must match. */
  method HasMatch(r: Randomization) returns (matched: bool)
    ensures matched <==> r.desiredValues == [] || exists i :: 0 <= i < |r.desiredValues| && HasValueMatch(r, r.desiredValues[i])
  {
    if r.desiredValues == [] {
      return true;
    }
    var i := 0;
    while i < |r.desiredValues|
      invariant 0 <= i <= |r.desiredValues|
      invariant forall k :: 0 <= k < i ==> !HasValueMatch(r, r.desiredValues[k])
    {
      if HasValueMatch(r, r.desiredValues[i]) {
        return true;
      }
      i := i + 1;
    }
    return false;
  }

  // ---------------------------------------------------------------- search preparation

  /** The latest explicit (non-negative) time among the first n randomizations, 0 when there is none. */
  function LatestTime(rs: seq<Randomization>, n: nat): real
    requires n <= |rs|
  {
    if n == 0 then 0.0
    else if rs[n - 1].time >= 0.0 then rs[n - 1].time
    else LatestTime(rs, n - 1)
  }

  /** A randomization prepared for a search: value cleared and its time (or the carried one) as temp time. */
  function Prepared(rs: seq<Randomization>, i: nat): (r: Randomization)
    requires i < |rs|
    ensures r.value == None && r == rs[i].(value := None, tempTime := r.tempTime)
  {
    rs[i].(value := None, tempTime := if rs[i].time >= 0.0 then rs[i].time else LatestTime(rs, i))
  }

  /** Every randomization prepared for a search, in list order. */
  function PreparedAll(rs: seq<Randomization>): (r: seq<Randomization>)
    ensures |r| == |rs| && forall i :: 0 <= i < |rs| ==> r[i] == Prepared(rs, i)
  {
    seq(|rs|, i requires 0 <= i < |rs| => Prepared(rs, i))
  }

  /** When some earlier randomization has an explicit time, a randomization without one inherits the latest such time. */
  lemma {:induction false} CarriedTimeIsLatestExplicit(rs: seq<Randomization>, i: nat, j: nat)
    requires j < i < |rs| && rs[j].time >= 0.0 && rs[i].time < 0.0
    requires forall k :: j < k < i ==> rs[k].time < 0.0
    ensures Prepared(rs, i).tempTime == rs[j].time
  {
    LatestIsLastExplicit(rs, i, j);
  }

  lemma {:induction false} LatestIsLastExplicit(rs: seq<Randomization>, n: nat, j: nat)
    requires j < n <= |rs| && rs[j].time >= 0.0
    requires forall k :: j < k < n ==> rs[k].time < 0.0
    ensures LatestTime(rs, n) == rs[j].time
    decreases n
  {
    if n - 1 != j {
      LatestIsLastExplicit(rs, n - 1, j);
    }
  }

  /** Without any explicit time before it, a randomization is searched at time 0. */
  lemma {:induction false} NoExplicitTimeMeansZero(rs: seq<Randomization>, n: nat)
    requires n <= |rs| && forall k :: 0 <= k < n ==> rs[k].time < 0.0
    ensures LatestTime(rs, n) == 0.0
  {
    if n > 0 {
      NoExplicitTimeMeansZero(rs, n - 1);
    }
  }

  /** The subsequence of randomizations whose temp time is t, in order. */
  function AtTime(s: seq<Randomization>, t: real): (r: seq<Randomization>)
    ensures |r| <= |s|
  {
    if s == [] then []
    else AtTime(s[..|s| - 1], t) + (if s[|s| - 1].tempTime == t then [s[|s| - 1]] else [])
  }

  lemma {:induction false} AtTimeConcat(a: seq<Randomization>, b: seq<Randomization>, t: real)
    ensures AtTime(a + b, t) == AtTime(a, t) + AtTime(b, t)
    decreases |b|
  {
    if b == [] {
      assert a + b == a;
    } else {
      assert (a + b)[..|a + b| - 1] == a + b[..|b| - 1];
      AtTimeConcat(a, b[..|b| - 1], t);
    }
  }

  lemma {:induction false} AtTimeOfLaterIsEmpty(s: seq<Randomization>, t: real)
    requires forall k :: 0 <= k < |s| ==> s[k].tempTime > t
    ensures AtTime(s, t) == []
  {
    if s != [] {
      AtTimeOfLaterIsEmpty(s[..|s| - 1], t);
    }
  }

  ghost predicate SortedByTime(s: seq<Randomization>) {
    forall i, j :: 0 <= i < j < |s| ==> s[i].tempTime <= s[j].tempTime
  }

  /**
   * std::stable_sort by temp time: a permutation, ascending in time, and the
   * randomizations sharing a time keep their relative order.
   */
  method StableSortByTime(s: seq<Randomization>) returns (r: seq<Randomization>)
    ensures multiset(r) == multiset(s) && SortedByTime(r)
    ensures forall t :: AtTime(r, t) == AtTime(s, t)
  {
    r := [];
    var i := 0;
    while i < |s|
      invariant 0 <= i <= |s|
      invariant multiset(r) == multiset(s[..i]) && SortedByTime(r)
      invariant forall t :: AtTime(r, t) == AtTime(s[..i], t)
    {
      var x := s[i];
      var k := |r|;
      while k > 0 && r[k - 1].tempTime > x.tempTime
        invariant 0 <= k <= |r|
        invariant forall m :: k <= m < |r| ==> r[m].tempTime > x.tempTime
      {
        k := k - 1;
      }
      InsertStep(s, i, r, k);
      r := r[..k] + [x] + r[k..];
      i := i + 1;
    }
    assert s[..i] == s;
  }

  /** One insertion step of the sort keeps its three invariants for the longer prefix. */
  lemma {:induction false} InsertStep(s: seq<Randomization>, i: nat, r: seq<Randomization>, k: nat)
    requires i < |s| && k <= |r|
    requires multiset(r) == multiset(s[..i]) && SortedByTime(r)
    requires forall t :: AtTime(r, t) == AtTime(s[..i], t)
    requires forall m :: k <= m < |r| ==> r[m].tempTime > s[i].tempTime
    requires k > 0 ==> r[k - 1].tempTime <= s[i].tempTime
    ensures var r' := r[..k] + [s[i]] + r[k..];
      multiset(r') == multiset(s[..i + 1]) && SortedByTime(r') &&
      forall t :: AtTime(r', t) == AtTime(s[..i + 1], t)
  {
    StableInsert(r, k, s[i]);
    InsertStepMultiset(s, i, r, k);
    InsertStepAtTime(s, i, r, k);
  }

  lemma InsertStepMultiset(s: seq<Randomization>, i: nat, r: seq<Randomization>, k: nat)
    requires i < |s| && k <= |r| && multiset(r) == multiset(s[..i])
    ensures multiset(r[..k] + [s[i]] + r[k..]) == multiset(s[..i + 1])
  {
    assert s[..i + 1] == s[..i] + [s[i]];
    assert r == r[..k] + r[k..];
    assert multiset(r[..k] + [s[i]] + r[k..]) == multiset(r[..k]) + multiset{s[i]} + multiset(r[k..]);
  }

  lemma {:induction false} InsertStepAtTime(s: seq<Randomization>, i: nat, r: seq<Randomization>, k: nat)
    requires i < |s| && k <= |r|
    requires forall t :: AtTime(r, t) == AtTime(s[..i], t)
    requires forall m :: k <= m < |r| ==> r[m].tempTime > s[i].tempTime
    ensures forall t :: AtTime(r[..k] + [s[i]] + r[k..], t) == AtTime(s[..i + 1], t)
  {
    var x := s[i];
    assert s[..i + 1] == s[..i] + [x];
    forall t
      ensures AtTime(r[..k] + [x] + r[k..], t) == AtTime(s[..i + 1], t)
    {
      AtTimeConcat(s[..i], [x], t);
      InsertAtTime(r, k, x, t);
    }
  }

  /** Inserting x after every element of its time adds x at the end of its own time's subsequence only. */
  lemma {:induction false} InsertAtTime(r: seq<Randomization>, k: nat, x: Randomization, t: real)
    requires k <= |r|
    requires forall m :: k <= m < |r| ==> r[m].tempTime > x.tempTime
    ensures AtTime(r[..k] + [x] + r[k..], t) == AtTime(r, t) + AtTime([x], t)
  {
    var a := r[..k];
    var b := r[k..];
    assert r == a + b;
    assert r[..k] + [x] + r[k..] == (a + [x]) + b;
    assert forall m :: 0 <= m < |b| ==> b[m] == r[k + m];
    InsertBetween(a, b, x, t);
  }

  lemma {:induction false} InsertBetween(a: seq<Randomization>, b: seq<Randomization>, x: Randomization, t: real)
    requires forall m :: 0 <= m < |b| ==> b[m].tempTime > x.tempTime
    ensures AtTime((a + [x]) + b, t) == AtTime(a + b, t) + AtTime([x], t)
  {
    assert AtTime([x], t) == AtTime([], t) + (if x.tempTime == t then [x] else []);
    AtTimeConcat(a + [x], b, t);
    AtTimeConcat(a, [x], t);
    AtTimeConcat(a, b, t);
    var A, B, X := AtTime(a, t), AtTime(b, t), AtTime([x], t);
    if x.tempTime == t {
      AtTimeOfLaterIsEmpty(b, t);
      assert B == [];
      assert (A + X) + B == (A + B) + X;
    } else {
      assert X == [];
      assert (A + X) + B == (A + B) + X;
    }
  }

  lemma StableInsert(r: seq<Randomization>, k: nat, x: Randomization)
    requires SortedByTime(r) && k <= |r|
    requires forall m :: k <= m < |r| ==> r[m].tempTime > x.tempTime
    requires k > 0 ==> r[k - 1].tempTime <= x.tempTime
    ensures SortedByTime(r[..k] + [x] + r[k..])
  {
    var t := r[..k] + [x] + r[k..];
    forall i, j | 0 <= i < j < |t|
      ensures t[i].tempTime <= t[j].tempTime
    {
      if i == k {
        assert t[j] == r[j - 1];
      } else if j == k {
        assert t[i] == r[i];
        assert r[i].tempTime <= r[k - 1].tempTime;
      } else {
        assert t[i] == r[if i < k then i else i - 1];
        assert t[j] == r[if j < k then j else j - 1];
      }
    }
  }

  // ---------------------------------------------------------------- finder

  datatype Status = StatusOk | StatusInProgress | StatusFound | StatusTimedOut

  /** The static log of randomizations the game recorded; it is shared by every finder. */
  class RandomizationLog {
    var entries: seq<Randomization>

    constructor ()
      ensures entries == []
    {
      entries := [];
    }

    method LogRandomization(r: Randomization)
      modifies this
      ensures entries == old(entries) + [r]
    {
      entries := entries + [r];
    }

    method Clear()
      modifies this
      ensures entries == []
    {
      entries := [];
    }
  }

  /** How many log entries an import takes: up to and including `selected`, or all when it names none. */
  function ImportCount(selected: int, size: nat): (n: nat)
    ensures n <= size
    ensures 0 <= selected < size ==> n == selected + 1
    ensures !(0 <= selected < size) ==> n == size
  {
    if 0 <= selected < size then selected + 1 else size
  }

  class SeedFinder {
    var randomizations: seq<Randomization>
    var initSeed: int
    var searchTime: real
    var searchThreadsCount: int
    var inProgress: bool
    var searchThreads: nat
    var timerPeriod: Option<real>
    var seed: int

    /** A finder with one integer randomization over [0, 1], a 5 second search on 2 threads, no seed. */
    constructor (initSeed: int)
      ensures randomizations == [NewRandomization(0.0, 1.0, RANDTYPE_INT)]
      ensures this.initSeed == initSeed && searchTime == 5.0 && searchThreadsCount == 2
      ensures !inProgress && searchThreads == 0 && timerPeriod == None && seed == 0
      ensures GetStatus() == StatusOk
    {
      randomizations := [NewRandomization(0.0, 1.0, RANDTYPE_INT)];
      this.initSeed := initSeed;
      searchTime := 5.0;
      searchThreadsCount := 2;
      inProgress := false;
      searchThreads := 0;
      timerPeriod := None;
      seed := 0;
    }

    /** In-progress wins; then a positive seed is found, -1 marks a time-out, anything else is ready. */
    function GetStatus(): (s: Status)
      reads this
      ensures s == StatusInProgress <==> inProgress
      ensures s == StatusFound <==> !inProgress && seed > 0
      ensures s == StatusTimedOut <==> !inProgress && seed == -1
      ensures s == StatusOk <==> !inProgress && seed <= 0 && seed != -1
    {
      if inProgress then StatusInProgress
      else if seed > 0 then StatusFound
      else if seed == -1 then StatusTimedOut
      else StatusOk
    }

    method AddRandomization(r: Randomization)
      modifies this
      ensures randomizations == old(randomizations) + [r]
      ensures inProgress == old(inProgress) && seed == old(seed) && searchThreads == old(searchThreads)
    {
      randomizations := randomizations + [r];
    }

    /**
     * Moves the log's entries up to and including `selected` (all of them
     * when it names no entry) to the end of the list, then clears the log.
     */
    method ImportLoggedRandomizations(selected: int, log: RandomizationLog)
      modifies this, log
      ensures old(log.entries) == [] ==> randomizations == old(randomizations) && log.entries == []
      ensures randomizations == old(randomizations) + old(log.entries)[..ImportCount(selected, |old(log.entries)|)]
      ensures log.entries == []
      ensures inProgress == old(inProgress) && seed == old(seed) && searchThreads == old(searchThreads)
    {
      if |log.entries| <= 0 {
        return;
      }
      var imported := randomizations;
      var i := 0;
      while i < |log.entries|
        invariant 0 <= i <= ImportCount(selected, |log.entries|)
        invariant 0 <= selected < |log.entries| ==> i <= selected
        invariant imported == randomizations + log.entries[..i]
      {
        assert log.entries[..i + 1] == log.entries[..i] + [log.entries[i]];
        imported := imported + [log.entries[i]];
        if i == selected {
          i := i + 1;
          break;
        }
        i := i + 1;
      }
      randomizations := imported;
      log.entries := [];
    }

    /**
     * Unless a search runs or fewer than one thread is asked for: prepares
     * every randomization, stable-sorts them by time, starts the timer and
     * the threads and marks the search in progress.
     */
    method FindSeed()
      modifies this
      ensures old(inProgress) || old(searchThreadsCount) < 1 ==>
        randomizations == old(randomizations) && inProgress == old(inProgress) &&
        searchThreads == old(searchThreads) && timerPeriod == old(timerPeriod)
      ensures !old(inProgress) && old(searchThreadsCount) >= 1 ==>
        inProgress && GetStatus() == StatusInProgress &&
        searchThreads == old(searchThreads) + old(searchThreadsCount) &&
        timerPeriod == Some(searchTime - 1.0) &&
        SortedByTime(randomizations) &&
        multiset(randomizations) == multiset(PreparedAll(old(randomizations))) &&
        forall t :: AtTime(randomizations, t) == AtTime(PreparedAll(old(randomizations)), t)
      ensures seed == old(seed) && searchTime == old(searchTime) && searchThreadsCount == old(searchThreadsCount)
    {
      if inProgress {
        return;
      }
      if searchThreadsCount < 1 {
        return;
      }
      var prepared := PrepareRandomizations(randomizations);
      var sorted := StableSortByTime(prepared);
      randomizations := sorted;
      inProgress := true;
      timerPeriod := Some(searchTime - 1.0);
      searchThreads := searchThreads + searchThreadsCount;
    }

    /** A search thread that found a matching seed records it and ends the search. */
    method SeedFound(found: int)
      modifies this
      ensures seed == found && !inProgress && timerPeriod == None
      ensures found > 0 ==> GetStatus() == StatusFound
      ensures randomizations == old(randomizations) && searchThreads == old(searchThreads)
    {
      seed := found;
      timerPeriod := None;
      inProgress := false;
    }

    /** A search whose timer ran out times out with seed -1; once nothing runs, the threads are let go. */
    method Update(timerExpired: bool)
      modifies this
      ensures old(inProgress) && timerExpired ==> seed == -1 && !inProgress && GetStatus() == StatusTimedOut
      ensures !(old(inProgress) && timerExpired) ==> seed == old(seed) && inProgress == old(inProgress)
      ensures searchThreads == if inProgress then old(searchThreads) else 0
      ensures randomizations == old(randomizations) && timerPeriod == old(timerPeriod)
    {
      if inProgress && timerExpired {
        seed := -1;
        inProgress := false;
      }
      if !inProgress && searchThreads > 0 {
        searchThreads := 0;
      }
    }
  }

  /** The loop of find_seed that clears each value and carries the latest explicit time forward. */
  method PrepareRandomizations(rs: seq<Randomization>) returns (r: seq<Randomization>)
    ensures r == PreparedAll(rs)
  {
    r := [];
    var latestTime := 0.0;
    var i := 0;
    while i < |rs|
      invariant 0 <= i <= |rs| && |r| == i
      invariant latestTime == LatestTime(rs, i)
      invariant forall k :: 0 <= k < i ==> r[k] == Prepared(rs, k)
    {
      var rand := rs[i].(value := None);
      if rand.time < 0.0 {
        rand := rand.(tempTime := latestTime);
      } else {
        rand := rand.(tempTime := rand.time);
        latestTime := rand.time;
      }
      r := r + [rand];
      i := i + 1;
    }
  }
}

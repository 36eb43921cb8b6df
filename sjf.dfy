/** The SJF engine (GetAvgTTforSJF, TimeCalculator.cs:107-145): FIFO's
    run-to-completion loop, plus a scan after each completion that pulls the
    shortest arrived job into the next slot with RemoveAt/Insert. */
module Sjf {
  import opened Processes
  import opened Primitive

  /** Iteration g of the scan (TimeCalculator.cs:132-137) after slot i has
      completed at time t. Slot i+1 always holds `nextShortestjob`, so the
      comparison is against s[i+1]; a strictly shorter arrived entry is
      removed from slot g and inserted in slot i+1. */
  function ScanStep(s: seq<Process>, i: nat, g: nat, t: int): (r: seq<Process>)
    requires i + 1 <= g < |s|
    ensures |r| == |s|
  {
    MovedIf(s, s[g].A <= t && s[g].R < s[i + 1].R, g, i + 1)
  }

  /** One iteration moves nothing outside slots i+1..g and leaves in slot
      i+1 the shorter of the candidate and slot g's entry. */
  lemma ScanStepFacts(s: seq<Process>, i: nat, g: nat, t: int)
    requires i + 1 <= g < |s|
    ensures forall k {:trigger ScanStep(s, i, g, t)[k]} :: 0 <= k <= i || g < k < |s| ==> ScanStep(s, i, g, t)[k] == s[k]
    ensures ScanStep(s, i, g, t)[i + 1] == if s[g].A <= t && s[g].R < s[i + 1].R then s[g] else s[i + 1]
  {
    MovedIfPlaces(s, s[g].A <= t && s[g].R < s[i + 1].R, g, i + 1);
  }

  /** One iteration only reorders the list. */
  lemma ScanStepPermutes(s: seq<Process>, i: nat, g: nat, t: int)
    requires i + 1 <= g < |s|
    ensures multiset(ScanStep(s, i, g, t)) == multiset(s)
  {
    MovedIfPermutes(s, s[g].A <= t && s[g].R < s[i + 1].R, g, i + 1);
  }

  /** The scan loop `for (g = ...; g < stop; g++)`; the engine starts it at
      g = i+1 with stop = n-1, so slot n-1 is never examined. */
  function Scan(s: seq<Process>, i: nat, g: nat, stop: nat, t: int): (r: seq<Process>)
    requires i + 1 <= g && i + 1 < |s| && stop <= |s|
    ensures |r| == |s|
    decreases stop - g
  {
    if g >= stop then s else Scan(ScanStep(s, i, g, t), i, g + 1, stop, t)
  }

  /** The scan only reorders: the list stays a permutation of what it was,
      and slots 0..i and stop.. are not moved. */
  lemma {:induction false} ScanPermutes(s: seq<Process>, i: nat, g: nat, stop: nat, t: int)
    requires i + 1 <= g && i + 1 < |s| && stop <= |s|
    ensures multiset(Scan(s, i, g, stop, t)) == multiset(s)
    ensures forall k :: 0 <= k <= i || stop <= k < |s| ==> Scan(s, i, g, stop, t)[k] == s[k]
    decreases stop - g
  {
    if g < stop {
      var next := ScanStep(s, i, g, t);
      ScanStepFacts(s, i, g, t);
      ScanStepPermutes(s, i, g, t);
      ScanPermutes(next, i, g + 1, stop, t);
      assert Scan(s, i, g, stop, t) == Scan(next, i, g + 1, stop, t);
    }
  }

  /** Slot b is the one an SJF selection over slots lo..stop-1 at time t must
      pick when ties go to the earlier slot: slot lo unless an arrived entry is
      strictly shorter than it, and otherwise the first arrived entry whose R
      is least among the arrived entries. */
  ghost predicate IsFirstShortest(s: seq<Process>, lo: nat, stop: nat, t: int, b: nat)
    requires lo < |s| && stop <= |s|
  {
    (b == lo || (lo < b < stop && s[b].A <= t && s[b].R < s[lo].R))
    && (forall h :: lo < h < stop && s[h].A <= t ==> s[b].R <= s[h].R)
    && (forall h :: lo < h < b && s[h].A <= t ==> s[b].R < s[h].R)
  }

  /** The same selection made on the unmoved list: the index of the current
      candidate, replaced by g when s[g] has arrived and is strictly shorter. */
  ghost function Best(s: seq<Process>, g: nat, stop: nat, t: int, b: nat): (r: nat)
    requires b < |s| && stop <= |s|
    ensures r == b || g <= r < stop
    decreases stop - g
  {
    if g >= stop then b
    else Best(s, g + 1, stop, t, if s[g].A <= t && s[g].R < s[b].R then g else b)
  }

  lemma {:induction false} BestIsFirstShortest(s: seq<Process>, lo: nat, g: nat, stop: nat, t: int, b: nat)
    requires lo <= g <= stop <= |s| && lo < |s|
    requires b == lo || (lo < b < g && s[b].A <= t && s[b].R < s[lo].R)
    requires forall h :: lo < h < g && s[h].A <= t ==> s[b].R <= s[h].R
    requires forall h :: lo < h < b && s[h].A <= t ==> s[b].R < s[h].R
    ensures IsFirstShortest(s, lo, stop, t, Best(s, g, stop, t, b))
    decreases stop - g
  {
    if g < stop {
      var b' := if s[g].A <= t && s[g].R < s[b].R then g else b;
      BestIsFirstShortest(s, lo, g + 1, stop, t, b');
    }
  }

  /** The in-place scan always holds in slot i+1 the entry that Best has
      selected on the original list. */
  lemma {:induction false} ScanTracksBest(s0: seq<Process>, s: seq<Process>, i: nat, g: nat, stop: nat, t: int, b: nat)
    requires |s| == |s0| && i + 1 <= g && i + 1 < |s| && stop <= |s| && b < |s|
    requires s[i + 1] == s0[b]
    requires forall h :: g <= h < |s| ==> s[h] == s0[h]
    ensures Scan(s, i, g, stop, t)[i + 1] == s0[Best(s0, g, stop, t, b)]
    decreases stop - g
  {
    if g < stop {
      TrackStep(s0, s, i, g, t, b);
      ScanTracksBest(s0, ScanStep(s, i, g, t), i, g + 1, stop, t, if s0[g].A <= t && s0[g].R < s0[b].R then g else b);
    }
  }

  /** One iteration of the in-place scan against the same selection on the
      unmoved list: slot i+1 holds the new candidate, and the slots after g
      are still those of the unmoved list. */
  lemma TrackStep(s0: seq<Process>, s: seq<Process>, i: nat, g: nat, t: int, b: nat)
    requires |s| == |s0| && i + 1 <= g < |s| && b < |s|
    requires s[i + 1] == s0[b]
    requires forall h :: g <= h < |s| ==> s[h] == s0[h]
    ensures ScanStep(s, i, g, t)[i + 1] == s0[if s0[g].A <= t && s0[g].R < s0[b].R then g else b]
    ensures forall h :: g + 1 <= h < |s| ==> ScanStep(s, i, g, t)[h] == s0[h]
  {
    ScanStepFacts(s, i, g, t);
  }

  /** The scan after slot i puts in slot i+1 the first shortest arrived entry
      of slots i+1..stop-1: ties keep the earlier entry, because the
      comparison is strict. */
  lemma ScanSelectsFirstShortest(s: seq<Process>, i: nat, stop: nat, t: int)
    requires i + 1 <= stop <= |s| && i + 1 < |s|
    ensures exists b: nat :: IsFirstShortest(s, i + 1, stop, t, b) && Scan(s, i, i + 1, stop, t)[i + 1] == s[b]
  {
    var b := Best(s, i + 1, stop, t, i + 1);
    BestIsFirstShortest(s, i + 1, i + 1, stop, t, i + 1);
    ScanTracksBest(s, s, i, i + 1, stop, t, i + 1);
    assert IsFirstShortest(s, i + 1, stop, t, b);
  }

  /** The entry the scan leaves in slot i+1 has arrived by t, unless it is
      the one that was already there. */
  lemma ScanFrontHasArrived(s: seq<Process>, i: nat, stop: nat, t: int)
    requires i + 1 <= stop <= |s| && i + 1 < |s|
    ensures Scan(s, i, i + 1, stop, t)[i + 1] == s[i + 1] || Scan(s, i, i + 1, stop, t)[i + 1].A <= t
  {
    var b := Best(s, i + 1, stop, t, i + 1);
    BestIsFirstShortest(s, i + 1, i + 1, stop, t, i + 1);
    ScanTracksBest(s, s, i, i + 1, stop, t, i + 1);
    assert IsFirstShortest(s, i + 1, stop, t, b);
  }

  /** After the scan, slot i+1's R is at most the R of every entry in slots
      i+1..stop-1 that has arrived by t. */
  lemma ScanFrontIsShortest(s: seq<Process>, i: nat, stop: nat, t: int, r: seq<Process>)
    requires i + 1 <= stop <= |s| && i + 1 < |s|
    requires r == Scan(s, i, i + 1, stop, t)
    ensures forall k :: i + 1 <= k < stop && r[k].A <= t ==> r[i + 1].R <= r[k].R
  {
    var b := Best(s, i + 1, stop, t, i + 1);
    BestIsFirstShortest(s, i + 1, i + 1, stop, t, i + 1);
    ScanTracksBest(s, s, i, i + 1, stop, t, i + 1);
    ScanPermutes(s, i, i + 1, stop, t);
    SegmentPermutation(s, r, i + 1, stop);
    forall k | i + 1 <= k < stop && r[k].A <= t
      ensures r[i + 1].R <= r[k].R
    {
      FirstShortestBeatsSlot(s, r, i + 1, stop, t, b, k);
    }
  }

  /** A first shortest entry placed in slot lo of a permutation of the
      segment is no longer than any arrived entry of the segment. */
  lemma FirstShortestBeatsSlot(s: seq<Process>, r: seq<Process>, lo: nat, stop: nat, t: int, b: nat, k: nat)
    requires lo <= k < stop <= |s| == |r|
    requires IsFirstShortest(s, lo, stop, t, b) && r[lo] == s[b]
    requires multiset(r[lo..stop]) == multiset(s[lo..stop])
    requires r[k].A <= t
    ensures r[lo].R <= r[k].R
  {
    var h := SlotOf(s, r, lo, stop, k);
    if h == lo {
      assert s[b].R <= s[lo].R;
    } else {
      assert lo < h < stop && s[h].A <= t;
    }
  }

  /** Where an entry of a permuted segment came from. */
  lemma SlotOf(s: seq<Process>, r: seq<Process>, lo: nat, hi: nat, k: nat) returns (h: nat)
    requires lo <= k < hi <= |s| == |r|
    requires multiset(r[lo..hi]) == multiset(s[lo..hi])
    ensures lo <= h < hi && s[h] == r[k]
  {
    assert r[k] == r[lo..hi][k - lo];
    assert r[k] in multiset(s[lo..hi]);
    var j :| 0 <= j < |s[lo..hi]| && s[lo..hi][j] == r[k];
    h := lo + j;
  }

  /** The scan only moves entries within slots i+1..n-2, so every slot
      below n keeps a non-negative R. */
  lemma ScanKeepsServices(s: seq<Process>, n: nat, i: nat, t: int)
    requires i + 1 < n <= |s| && ServicesNonNegative(s, n)
    ensures ServicesNonNegative(Scan(s, i, i + 1, n - 1, t), n)
  {
    var r := Scan(s, i, i + 1, n - 1, t);
    ScanPermutes(s, i, i + 1, n - 1, t);
    SegmentPermutation(s, r, i + 1, n - 1);
    forall k | 0 <= k < n
      ensures r[k].R >= 0
    {
      if i + 1 <= k < n - 1 {
        var h := SlotOf(s, r, i + 1, n - 1, k);
      } else {
        assert r[k] == s[k];
      }
    }
  }

  /** The clock after slot i of SJF, started at `clock`, has completed. */
  function SjfNextClock(s: seq<Process>, n: nat, i: nat, clock: int): (r: int)
    requires i < n <= |s|
    ensures clock + s[i].R <= r && (i + 1 < n ==> s[i + 1].A <= r)
  {
    IdleJump(s, n, i, clock + s[i].R)
  }

  /** The list after the scan that follows slot i (none follows the last). */
  function SjfAfterScan(s: seq<Process>, n: nat, i: nat, clock: int): (r: seq<Process>)
    requires i < n <= |s|
    ensures |r| == |s|
  {
    if i < n - 1 then Scan(s, i, i + 1, n - 1, SjfNextClock(s, n, i, clock)) else s
  }

  /** Slots i..n-1 of SJF from `clock`: run slot i to completion, jump the
      idle gap (looking at slot i+1 before the scan), then scan for the next
      job, except after the last slot. */
  function SjfRun(s: seq<Process>, n: nat, i: nat, clock: int): (o: Outcome)
    requires i <= n <= |s|
    ensures |o.order| == |s| && |o.tts| == n - i
    decreases n - i
  {
    if i == n then Outcome(s, [], clock)
    else
      var rest := SjfRun(SjfAfterScan(s, n, i, clock), n, i + 1, SjfNextClock(s, n, i, clock));
      Outcome(rest.order, [clock + s[i].R - s[i].A] + rest.tts, rest.clock)
  }

  /** SJF leaves the list a permutation of what it was. */
  lemma {:induction false} SjfPermutes(s: seq<Process>, n: nat, i: nat, clock: int)
    requires i <= n <= |s|
    ensures multiset(SjfRun(s, n, i, clock).order) == multiset(s)
    decreases n - i
  {
    if i < n {
      if i < n - 1 {
        ScanPermutes(s, i, i + 1, n - 1, SjfNextClock(s, n, i, clock));
      }
      SjfPermutes(SjfAfterScan(s, n, i, clock), n, i + 1, SjfNextClock(s, n, i, clock));
    }
  }

  /** SJF never moves slots 0..i, nor slot n-1 and any slot beyond it. */
  lemma {:induction false} SjfKeepsEnds(s: seq<Process>, n: nat, i: nat, clock: int)
    requires i <= n <= |s|
    ensures forall k :: 0 <= k <= i && k < |s| ==> SjfRun(s, n, i, clock).order[k] == s[k]
    ensures 0 < n ==> forall k :: n - 1 <= k < |s| ==> SjfRun(s, n, i, clock).order[k] == s[k]
    decreases n - i
  {
    if i < n {
      if i < n - 1 {
        ScanPermutes(s, i, i + 1, n - 1, SjfNextClock(s, n, i, clock));
      }
      SjfKeepsEnds(SjfAfterScan(s, n, i, clock), n, i + 1, SjfNextClock(s, n, i, clock));
    }
  }

  /** No SJF slot starts before its occupant's arrival, so each slot's TT is
      at least its occupant's R. */
  lemma {:induction false} SjfStartsAfterArrival(s: seq<Process>, n: nat, i: nat, clock: int)
    requires i <= n <= |s|
    requires i < n ==> clock >= s[i].A
    ensures forall j :: 0 <= j < n - i ==> SjfRun(s, n, i, clock).tts[j] >= SjfRun(s, n, i, clock).order[i + j].R
    decreases n - i
  {
    if i < n {
      var next := SjfNextClock(s, n, i, clock);
      var scanned := SjfAfterScan(s, n, i, clock);
      if i < n - 1 {
        ScanFrontHasArrived(s, i, n - 1, next);
        ScanPermutes(s, i, i + 1, n - 1, next);
        assert scanned == Scan(s, i, i + 1, n - 1, next);
        assert next >= s[i + 1].A;
        assert next >= scanned[i + 1].A;
      }
      SjfStartsAfterArrival(scanned, n, i + 1, next);
      SjfKeepsEnds(scanned, n, i + 1, next);
      var o := SjfRun(s, n, i, clock);
      var rest := SjfRun(scanned, n, i + 1, next);
      assert o.tts == [clock + s[i].R - s[i].A] + rest.tts && o.order == rest.order;
      assert o.order[i] == scanned[i] == s[i];
      PrependCoversService(o, rest, i, n - i - 1);
    }
  }

  /** One step of the SJF loop: slot i's TT joins the ones collected so far,
      and what is still to come is the run of slots i+1.. on the scanned list
      from the next clock. */
  lemma SjfCollect(s: seq<Process>, n: nat, i: nat, clock: int, done: seq<int>, whole: Outcome)
    requires i < n <= |s|
    requires whole == Resumed(done, SjfRun(s, n, i, clock))
    ensures whole == Resumed(done + [clock + s[i].R - s[i].A], SjfRun(SjfAfterScan(s, n, i, clock), n, i + 1, SjfNextClock(s, n, i, clock)))
    ensures Sum(done + [clock + s[i].R - s[i].A]) == Sum(done) + (clock + s[i].R - s[i].A)
  {
    Collect(done, clock + s[i].R - s[i].A, SjfRun(SjfAfterScan(s, n, i, clock), n, i + 1, SjfNextClock(s, n, i, clock)));
  }
}

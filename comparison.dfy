/** What the three engines have in common and where they part: without
    contention all three reproduce the arrival order and charge every process
    its own CPU time; with contention SRT can preempt, and as written it can
    do worse than FIFO, while the SJF scan never looks at the last slot. */
module Comparison {
  import opened Processes
  import opened Primitive
  import opened Fifo
  import opened Sjf
  import opened Srt

  /** The CPU time owed by slots i..n-1, in slot order. */
  function Services(s: seq<Process>, n: nat, i: nat): (r: seq<int>)
    requires i <= n <= |s|
    ensures |r| == n - i
    decreases n - i
  {
    if i == n then [] else [s[i].R] + Services(s, n, i + 1)
  }

  /** No contention: every process is done before the next one arrives. */
  predicate Isolated(s: seq<Process>, n: nat) {
    ServicesNonNegative(s, n) && forall j :: 0 <= j < n - 1 ==> s[j].A + s[j].R <= s[j + 1].A
  }

  /** What every engine yields on an isolated list from slot i on, started at
      slot i's arrival: the list as it was, each turnaround time equal to the
      CPU time, and the clock at the last completion. */
  function Undisturbed(s: seq<Process>, n: nat, i: nat, clock: int): (r: Outcome)
    requires i <= n <= |s|
  {
    Outcome(s, Services(s, n, i), if i < n then s[n - 1].A + s[n - 1].R else clock)
  }

  /** On an isolated list a later slot arrives no earlier than an earlier
      one completes. */
  lemma {:induction false} ArrivesAfter(s: seq<Process>, n: nat, a: nat, b: nat)
    requires Isolated(s, n) && a < b < n
    ensures s[a].A + s[a].R <= s[b].A
    decreases b - a
  {
    if a + 1 < b {
      ArrivesAfter(s, n, a + 1, b);
    }
  }

  lemma {:induction false} FifoUndisturbed(s: seq<Process>, n: nat, i: nat, clock: int)
    requires i <= n <= |s| && Isolated(s, n)
    requires i < n ==> clock == s[i].A
    ensures FifoRun(s, n, i, clock) == Undisturbed(s, n, i, clock)
    decreases n - i
  {
    if i < n {
      FifoUndisturbed(s, n, i + 1, IdleJump(s, n, i, clock + s[i].R));
    }
  }

  /** A scan none of whose candidates qualifies leaves the list alone. */
  lemma {:induction false} ScanIdle(s: seq<Process>, i: nat, g: nat, stop: nat, t: int)
    requires i + 1 <= g && i + 1 < |s| && stop <= |s|
    requires forall h :: g <= h < stop ==> !(s[h].A <= t && s[h].R < s[i + 1].R)
    ensures Scan(s, i, g, stop, t) == s
    decreases stop - g
  {
    if g < stop {
      ScanIdle(s, i, g + 1, stop, t);
    }
  }

  /** After slot i of an isolated list the clock stands at slot i+1's
      arrival, and nothing behind slot i+1 has arrived with less to do. */
  lemma SjfScanIdle(s: seq<Process>, n: nat, i: nat)
    requires Isolated(s, n) && i + 1 < n <= |s|
    ensures Scan(s, i, i + 1, n - 1, s[i + 1].A) == s
  {
    forall h | i + 1 <= h < n - 1
      ensures !(s[h].A <= s[i + 1].A && s[h].R < s[i + 1].R)
    {
      if i + 1 < h {
        ArrivesAfter(s, n, i + 1, h);
      }
    }
    ScanIdle(s, i, i + 1, n - 1, s[i + 1].A);
  }

  lemma {:induction false} SjfUndisturbed(s: seq<Process>, n: nat, i: nat, clock: int)
    requires i <= n <= |s| && Isolated(s, n)
    requires i < n ==> clock == s[i].A
    ensures SjfRun(s, n, i, clock) == Undisturbed(s, n, i, clock)
    decreases n - i
  {
    if i < n {
      if i + 1 < n {
        SjfScanIdle(s, n, i);
      }
      SjfUndisturbed(s, n, i + 1, SjfNextClock(s, n, i, clock));
    }
  }

  /** While slot i+1 has not arrived, slot i just ticks: k ticks take k off
      the remaining time and add k to the clock. */
  lemma {:induction false} SrtSlotWaits(s: seq<Process>, n: nat, i: nat, rem: int, clock: int, k: nat)
    requires i < n <= |s| && ServicesNonNegative(s, n) && k <= rem
    requires i + 1 < n ==> clock + k < s[i + 1].A
    ensures SrtSlot(s, n, i, rem, clock) == SrtSlot(s, n, i, rem - k, clock + k)
    decreases k
  {
    if k > 0 {
      SrtSlotWaits(s, n, i, rem - 1, clock + 1, k - 1);
    }
  }

  /** A slot that completes no later than the next arrival runs undisturbed. */
  lemma SrtSlotIdle(s: seq<Process>, n: nat, i: nat, rem: int, clock: int)
    requires i < n <= |s| && ServicesNonNegative(s, n) && rem >= 0
    requires i + 1 < n ==> clock + rem <= s[i + 1].A
    ensures SrtSlot(s, n, i, rem, clock) == SlotEnd(s, clock + rem)
  {
    if rem > 0 {
      SrtSlotWaits(s, n, i, rem, clock, rem - 1);
    }
  }

  lemma {:induction false} SrtUndisturbed(s: seq<Process>, n: nat, i: nat, clock: int)
    requires i <= n <= |s| && Isolated(s, n)
    requires i < n ==> clock == s[i].A
    ensures SrtRun(s, n, i, clock) == Undisturbed(s, n, i, clock)
    decreases n - i
  {
    if i < n {
      SrtSlotIdle(s, n, i, s[i].R, clock);
      SrtUndisturbed(s, n, i + 1, IdleJump(s, n, i, clock + s[i].R));
    }
  }

  /** Without contention the three engines agree: none reorders the list, each
      process's turnaround time is its CPU time, and the averages coincide. */
  lemma NoContention(s: seq<Process>, n: nat)
    requires 0 < n <= |s| && Isolated(s, n)
    ensures FifoRun(s, n, 0, s[0].A) == Undisturbed(s, n, 0, s[0].A)
    ensures SjfRun(s, n, 0, s[0].A) == Undisturbed(s, n, 0, s[0].A)
    ensures SrtRun(s, n, 0, s[0].A) == Undisturbed(s, n, 0, s[0].A)
  {
    FifoUndisturbed(s, n, 0, s[0].A);
    SjfUndisturbed(s, n, 0, s[0].A);
    SrtUndisturbed(s, n, 0, s[0].A);
  }

  /** A single process is never disturbed: every engine charges it its CPU time. */
  lemma SingleProcess(s: seq<Process>)
    requires 1 <= |s| && s[0].R >= 0
    ensures FifoRun(s, 1, 0, s[0].A).tts == [s[0].R]
    ensures SjfRun(s, 1, 0, s[0].A).tts == [s[0].R]
    ensures SrtRun(s, 1, 0, s[0].A).tts == [s[0].R] && SrtRun(s, 1, 0, s[0].A).order == s
    ensures TruncDiv(Sum([s[0].R]), 1) == s[0].R
  {
    NoContention(s, 1);
    assert Sum([s[0].R]) == s[0].R;
  }

  /** A process as Main creates it: active, with its whole CPU time still owed. */
  function Fresh(id: nat, arrival: int, cpu: int): Process {
    Process(id, 1, arrival, cpu, cpu, 0)
  }

  /** p1 needs 5 ticks from time 0; p2 arrives at time 1 and needs 1. */
  function Contended(): seq<Process> {
    [Fresh(1, 0, 5), Fresh(2, 1, 1)]
  }

  /** FIFO and SJF both run p1 first: p2 waits 4 ticks, both wait 5 in all,
      average 5. */
  lemma ContendedFifoSjf()
    ensures FifoRun(Contended(), 2, 0, 0) == Outcome(Contended(), [5, 5], 6)
    ensures SjfRun(Contended(), 2, 0, 0) == Outcome(Contended(), [5, 5], 6)
    ensures TruncDiv(Sum([5, 5]), 2) == 5
  {
    assert Scan(Contended(), 0, 1, 1, 5) == Contended();
  }

  /** SRT hands the CPU to p2 after the first tick; p1 goes back in slot 1
      with Active = 4 and R still 5, runs all 5 ticks again and ends at 7:
      turnaround times 1 and 7, average 4. With p1 resuming instead of
      restarting it would have been 1 and 6. */
  lemma ContendedSrt()
    ensures SrtRun(Contended(), 2, 0, 0)
         == Outcome([Fresh(2, 1, 1), Demote(Fresh(1, 0, 5), 4)], [1, 7], 7)
    ensures TruncDiv(Sum([1, 7]), 2) == 4
  {
    var swapped := [Fresh(2, 1, 1), Demote(Fresh(1, 0, 5), 4)];
    assert SrtSwap(Contended(), 0, 4) == swapped;
    assert SrtSlot(swapped, 2, 0, 0, 2) == SlotEnd(swapped, 2);
    assert SrtSlot(Contended(), 2, 0, 5, 0) == SlotEnd(swapped, 2);
    SrtSlotIdle(swapped, 2, 1, 5, 2);
  }

  /** p1 needs 10 ticks from time 0; p2 arrives at 8 and needs 1. */
  function LateShort(): seq<Process> {
    [Fresh(1, 0, 10), Fresh(2, 8, 1)]
  }

  /** Because a preempted process starts over, SRT's average turnaround time
      can exceed FIFO's: here FIFO averages 6 and SRT 10. */
  lemma SrtCanExceedFifo()
    ensures FifoRun(LateShort(), 2, 0, 0).tts == [10, 3]
    ensures SrtRun(LateShort(), 2, 0, 0).tts == [1, 19]
    ensures TruncDiv(Sum([10, 3]), 2) == 6 && TruncDiv(Sum([1, 19]), 2) == 10
  {
    var swapped := [Fresh(2, 8, 1), Demote(Fresh(1, 0, 10), 2)];
    SrtSlotWaits(LateShort(), 2, 0, 10, 0, 7);
    assert SrtSwap(LateShort(), 0, 2) == swapped;
    assert SrtSlot(swapped, 2, 0, 0, 9) == SlotEnd(swapped, 9);
    assert SrtSlot(LateShort(), 2, 0, 3, 7) == SlotEnd(swapped, 9);
    SrtSlotIdle(swapped, 2, 1, 10, 9);
  }

  /** Three processes present at time 0 needing 5, 3 and 1: after p finishes
      the scan examines only slot 1 (it stops before slot n-1), so the job
      needing 1 tick runs last and the order is never changed. */
  function AllAtOnce(): seq<Process> {
    [Fresh(1, 0, 5), Fresh(2, 0, 3), Fresh(3, 0, 1)]
  }

  lemma SjfSkipsLastSlot()
    ensures SjfRun(AllAtOnce(), 3, 0, 0) == Outcome(AllAtOnce(), [5, 8, 9], 9)
  {
    assert Scan(AllAtOnce(), 0, 1, 2, 5) == AllAtOnce();
    assert Scan(AllAtOnce(), 1, 2, 2, 8) == AllAtOnce();
  }
}

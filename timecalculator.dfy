/** The scheduling engine of TimeCalculator.cs as imperative code: the static
    clock `t` and the process count `n` are the state of a Simulator, the
    `List<Process>` is a ProcessList the engines reorder in place, and every
    method is proved against the run functions of Fifo, Sjf and Srt. */
module TimeCalculator {
  import opened Processes
  import opened Primitive
  import opened Fifo
  import opened Sjf
  import opened Srt

  class Simulator {
    /** The number of processes (the constant 5 at TimeCalculator.cs:36). */
    const n: nat
    /** The simulation clock (TimeCalculator.cs:40). */
    var t: int

    constructor (n: nat)
      ensures this.n == n && t == 0
    {
      this.n := n;
      t := 0;
    }

    /** The three engine calls of Main (TimeCalculator.cs:70-82) on one list:
        SJF reorders the list FIFO left alone, and SRT then runs on the SJF
        order, not on the arrival order. */
    method RunEngines(ps: ProcessList) returns (fifoAvg: int, sjfAvg: int, srtAvg: int)
      requires 0 < n && ServicesNonNegative(ps.items, n)
      modifies this, ps
      ensures fifoAvg == TruncDiv(Sum(FifoRun(old(ps.items), n, 0, old(t) + old(ps.items)[0].A).tts), n)
      ensures sjfAvg == TruncDiv(Sum(SjfRun(old(ps.items), n, 0, old(ps.items)[0].A).tts), n)
      ensures var sjf := SjfRun(old(ps.items), n, 0, old(ps.items)[0].A).order;
              ServicesNonNegative(sjf, n)
              && srtAvg == TruncDiv(Sum(SrtRun(sjf, n, 0, sjf[0].A).tts), n)
              && ps.items == SrtRun(sjf, n, 0, sjf[0].A).order
              && t == sjf[0].A
    {
      fifoAvg := AvgTTForFifo(ps);
      sjfAvg := AvgTTForSjf(ps);
      srtAvg := AvgTTForSrt(ps);
    }

    /** GetTurnAroundTimeForProcess (TimeCalculator.cs:224-258): count the
        remaining CPU time down to 0 one tick at a time, report start + R - A,
        and leave in `t` the completion time, moved on to the next slot's
        arrival when the CPU would otherwise idle. The turnaround never
        includes that idle gap. `isActive = 0` (line 237) sets only the
        parameter and is dropped. */
    method TurnAroundTimeForProcess(ps: ProcessList, processCount: nat, remainingCPUTime: int,
                                    arrivalTime: int, currentTime: int, isActive: int) returns (tt: int)
      requires processCount < n <= |ps.items| && remainingCPUTime >= 0
      modifies this
      ensures tt == currentTime + remainingCPUTime - arrivalTime
      ensures t == IdleJump(ps.items, n, processCount, currentTime + remainingCPUTime)
    {
      var remaining, now := remainingCPUTime, currentTime;
      ghost var ticks: nat := 0;
      while remaining != 0
        invariant (remaining, now) == Countdown(remainingCPUTime, currentTime, ticks)
        invariant ticks <= remainingCPUTime
        decreases remainingCPUTime - ticks
      {
        CountdownClosedForm(remainingCPUTime, currentTime, ticks);
        now := now + 1;
        remaining := remaining - 1;
        ticks := ticks + 1;
      }
      CountdownClosedForm(remainingCPUTime, currentTime, ticks);
      tt := 0;
      if remaining == 0 {
        tt := now - arrivalTime;
        if processCount < n - 1 && now < ps.items[processCount + 1].A {
          var diff := ps.items[processCount + 1].A - now;
          now := now + diff;
        }
      }
      t := now;
    }

    /** GetAvgTTforFIFO (TimeCalculator.cs:86-105): `t` is not reset, only
        advanced by the first arrival; the list is left as it was, and the
        result is the truncated mean of the FIFO turnaround times. */
    method AvgTTForFifo(ps: ProcessList) returns (avg: int)
      requires 0 < n && ServicesNonNegative(ps.items, n)
      modifies this
      ensures avg == TruncDiv(Sum(FifoRun(ps.items, n, 0, old(t) + ps.items[0].A).tts), n)
      ensures t == FifoRun(ps.items, n, 0, old(t) + ps.items[0].A).clock
    {
      t := t + ps.items[0].A;
      ghost var s := ps.items;
      ghost var whole := FifoRun(s, n, 0, t);
      ghost var done: seq<int> := [];
      var allTT := 0;
      for i := 0 to n
        invariant whole == Resumed(done, FifoRun(s, n, i, t))
        invariant allTT == Sum(done)
      {
        var currentProcess := ps.items[i];
        ghost var start := t;
        var tt := TurnAroundTimeForProcess(ps, i, currentProcess.R, currentProcess.A, t, currentProcess.Active);
        FifoCollect(s, n, i, start, done, whole, tt, t);
        done := done + [tt];
        currentProcess := currentProcess.(TT := tt);
        allTT := allTT + tt;
      }
      assert done + [] == done;
      avg := TruncDiv(allTT, n);
    }

    /** GetAvgTTforSJF (TimeCalculator.cs:107-145): `t` restarts at the first
        arrival; after each completion the scan pulls the shortest arrived job
        into the next slot, so the shared list ends in SJF order. */
    method AvgTTForSjf(ps: ProcessList) returns (avg: int)
      requires 0 < n && ServicesNonNegative(ps.items, n)
      modifies this, ps
      ensures avg == TruncDiv(Sum(SjfRun(old(ps.items), n, 0, old(ps.items)[0].A).tts), n)
      ensures ps.items == SjfRun(old(ps.items), n, 0, old(ps.items)[0].A).order
      ensures t == SjfRun(old(ps.items), n, 0, old(ps.items)[0].A).clock
      ensures ServicesNonNegative(ps.items, n)
    {
      ghost var whole := SjfRun(ps.items, n, 0, ps.items[0].A);
      t := 0;
      t := t + ps.items[0].A;
      ghost var done: seq<int> := [];
      var allTT := 0;
      for i := 0 to n
        invariant ServicesNonNegative(ps.items, n)
        invariant whole == Resumed(done, SjfRun(ps.items, n, i, t))
        invariant allTT == Sum(done)
      {
        SjfCollect(ps.items, n, i, t, done, whole);
        done := done + [t + ps.items[i].R - ps.items[i].A];
        var tt := SjfSlot(ps, i);
        allTT := allTT + tt;
      }
      assert done + [] == done;
      avg := TruncDiv(allTT, n);
    }

    /** One pass of the loop body of TimeCalculator.cs:119-140: run slot i to
        completion from `t`, then, unless slot i is the last, scan for the
        job to run next. */
    method SjfSlot(ps: ProcessList, i: nat) returns (tt: int)
      requires i < n && ServicesNonNegative(ps.items, n)
      modifies this, ps
      ensures tt == old(t) + old(ps.items)[i].R - old(ps.items)[i].A
      ensures ps.items == SjfAfterScan(old(ps.items), n, i, old(t))
      ensures t == SjfNextClock(old(ps.items), n, i, old(t))
      ensures ServicesNonNegative(ps.items, n)
    {
      var currentProcess := ps.items[i];
      tt := TurnAroundTimeForProcess(ps, i, currentProcess.R, currentProcess.A, t, currentProcess.Active);
      currentProcess := currentProcess.(TT := tt);
      if i < n - 1 {
        ScanKeepsServices(ps.items, n, i, t);
        ScanBy(ps, i, t);
      }
    }

    /** The scan loop of TimeCalculator.cs:128-138 after slot i, at the clock
        `now` that the completed slot left in `t`.
        `nextShortestjob` is always the record in slot i+1. */
    method ScanBy(ps: ProcessList, i: nat, now: int)
      requires i + 1 < n <= |ps.items|
      modifies ps
      ensures ps.items == Scan(old(ps.items), i, i + 1, n - 1, now)
    {
      var nextShortestjob := ps.items[i + 1];
      for g := i + 1 to n - 1
        invariant |ps.items| == |old(ps.items)|
        invariant nextShortestjob == ps.items[i + 1]
        invariant Scan(ps.items, i, g, n - 1, now) == Scan(old(ps.items), i, i + 1, n - 1, now)
      {
        ScanStepFacts(ps.items, i, g, now);
        if ps.items[g].A <= now && ps.items[g].R < nextShortestjob.R {
          nextShortestjob := ps.items[g];
          ps.RemoveAt(g);
          ps.Insert(i + 1, nextShortestjob);
        }
      }
    }

    /** GetAvgTTforSRT (TimeCalculator.cs:147-161): `t` is set to the first
        arrival and is not advanced by the SRT run. */
    method AvgTTForSrt(ps: ProcessList) returns (avg: int)
      requires 0 < n && ServicesNonNegative(ps.items, n)
      modifies this, ps
      ensures avg == TruncDiv(Sum(SrtRun(old(ps.items), n, 0, old(ps.items)[0].A).tts), n)
      ensures ps.items == SrtRun(old(ps.items), n, 0, old(ps.items)[0].A).order
      ensures t == old(ps.items)[0].A
    {
      t := 0;
      t := t + ps.items[0].A;
      var allTT := TurnAroundTimeForSrt(ps, t);
      avg := TruncDiv(allTT, n);
    }

    /** GetTurnAroundTimeForSRT (TimeCalculator.cs:163-222): the sum of the
        SRT turnaround times from `currentTime`; the list ends in the order
        the swaps left it. */
    method TurnAroundTimeForSrt(ps: ProcessList, currentTime: int) returns (allTT: int)
      requires 0 < n && ServicesNonNegative(ps.items, n)
      modifies ps
      ensures allTT == Sum(SrtRun(old(ps.items), n, 0, currentTime).tts)
      ensures ps.items == SrtRun(old(ps.items), n, 0, currentTime).order
    {
      var now := currentTime;
      var tt := 0;
      allTT := 0;
      ghost var whole := SrtRun(ps.items, n, 0, now);
      ghost var done: seq<int> := [];
      for i := 0 to n
        invariant |ps.items| == |old(ps.items)| && ServicesNonNegative(ps.items, n)
        invariant whole == Resumed(done, SrtRun(ps.items, n, i, now))
        invariant allTT == Sum(done)
      {
        ghost var before, start := ps.items, now;
        var remainingTime;
        remainingTime, now := SrtSlotLoop(ps, i, now);
        ghost var slot := SrtSlot(before, n, i, before[i].R, start);
        SrtCollect(before, n, i, start, done, whole, slot);
        done := done + [slot.clock - slot.list[i].A];
        if remainingTime == 0 {
          var currentProcess := ps.items[i];
          currentProcess := currentProcess.(Active := 0);
          tt := now - currentProcess.A;
          if i < n - 1 && now < ps.items[i + 1].A {
            var diff := ps.items[i + 1].A - now;
            now := now + diff;
          }
          allTT := allTT + tt;
        }
      }
      assert done + [] == done;
    }

    /** The loop of TimeCalculator.cs:172-194 for slot i from `now`: tick
        slot i down and, whenever the arrived job in slot i+1 needs less than
        what is left, exchange the two and restart with the newcomer. */
    method SrtSlotLoop(ps: ProcessList, i: nat, now: int) returns (remainingTime: int, end: int)
      requires i < n && ServicesNonNegative(ps.items, n)
      modifies ps
      ensures remainingTime == 0
      ensures SlotEnd(ps.items, end) == SrtSlot(old(ps.items), n, i, old(ps.items)[i].R, now)
    {
      end := now;
      remainingTime := ps.items[i].R;
      while remainingTime != 0
        invariant ServicesNonNegative(ps.items, n)
        invariant remainingTime >= 0
        invariant SrtSlot(ps.items, n, i, remainingTime, end) == SrtSlot(old(ps.items), n, i, old(ps.items)[i].R, now)
        decreases remainingTime
      {
        var currentProcess := ps.items[i];
        end := end + 1;
        remainingTime := remainingTime - 1;
        if i < n - 1 && ps.items[i + 1].Active == 1 && ps.items[i + 1].A <= end
           && ps.items[i + 1].R + end < remainingTime + end {
          var longerProcess := Process(currentProcess.ProcessID, remainingTime, currentProcess.A,
                                       currentProcess.T, currentProcess.R, currentProcess.TT);
          var shorterProcess := ps.items[i + 1];
          ps.RemoveAt(i);
          ps.Insert(i, shorterProcess);
          ps.RemoveAt(i + 1);
          ps.Insert(i + 1, longerProcess);
          remainingTime := ps.items[i].R;
        }
      }
    }
  }
}

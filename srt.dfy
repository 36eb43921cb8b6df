/** The SRT engine (GetTurnAroundTimeForSRT, TimeCalculator.cs:163-222): slot
    i runs one tick at a time, and after each tick it hands the CPU to the
    process in slot i+1 when that one is active, has arrived and has less CPU
    time to go; the two slots are exchanged in the list. */
module Srt {
  import opened Processes
  import opened Primitive

  /** The record put back into slot i+1 for a preempted process
      (TimeCalculator.cs:182): the constructor's second argument is `active`,
      so `remainingTime` lands in Active while R keeps the full CPU time, and
      the process later runs its whole R again. */
  function Demote(p: Process, remainingTime: int): (r: Process)
    ensures Job(r) == Job(p) && r.Active == remainingTime
  {
    Process(p.ProcessID, remainingTime, p.A, p.T, p.R, p.TT)
  }

  /** The guard of TimeCalculator.cs:180, with both of its `currentTime` terms. */
  predicate SwapCondition(s: seq<Process>, n: nat, i: nat, remainingTime: int, currentTime: int)
    requires i < n <= |s|
    ensures SwapCondition(s, n, i, remainingTime, currentTime) ==> i + 1 < n && s[i + 1].A <= currentTime
  {
    i < n - 1 && s[i + 1].Active == 1 && s[i + 1].A <= currentTime
    && s[i + 1].R + currentTime < remainingTime + currentTime
  }

  /** The currentTime terms cancel: slot i+1 is taken exactly when it exists,
      is active, has arrived and needs strictly less than what slot i still
      needs. */
  lemma SwapConditionCancels(s: seq<Process>, n: nat, i: nat, remainingTime: int, currentTime: int)
    requires i < n <= |s|
    ensures SwapCondition(s, n, i, remainingTime, currentTime) <==>
      (i + 1 < n && s[i + 1].Active == 1 && s[i + 1].A <= currentTime && s[i + 1].R < remainingTime)
  {
  }

  /** The list after the four RemoveAt/Insert calls of TimeCalculator.cs:185-188. */
  function SrtSwap(s: seq<Process>, i: nat, remainingTime: int): (r: seq<Process>)
    requires i + 1 < |s|
    ensures r == s[i := s[i + 1]][i + 1 := Demote(s[i], remainingTime)]
  {
    ExchangedUpdates(s, i, s[i + 1], Demote(s[i], remainingTime));
    Exchanged(s, i, s[i + 1], Demote(s[i], remainingTime))
  }

  /** Where the inner loop of slot i ends. */
  datatype SlotEnd = SlotEnd(list: seq<Process>, clock: int)

  /** The inner loop of slot i (TimeCalculator.cs:172-194) entered with
      `remainingTime` = rem at time `clock`: each tick advances the clock by
      one and counts rem down; after a swap, rem becomes the R of the process
      now in slot i. rem strictly decreases, so with every R >= 0 the loop
      ends, within rem ticks, and it takes at least one tick when rem > 0. */
  function SrtSlot(s: seq<Process>, n: nat, i: nat, rem: int, clock: int): (r: SlotEnd)
    requires i < n <= |s| && ServicesNonNegative(s, n) && rem >= 0
    ensures |r.list| == |s| && ServicesNonNegative(r.list, n)
    ensures clock <= r.clock <= clock + rem
    ensures rem > 0 ==> clock < r.clock
    decreases rem
  {
    if rem == 0 then SlotEnd(s, clock)
    else if SwapCondition(s, n, i, rem - 1, clock + 1) then
      SrtSlot(SrtSwap(s, i, rem - 1), n, i, s[i + 1].R, clock + 1)
    else
      SrtSlot(s, n, i, rem - 1, clock + 1)
  }

  /** The loop of slot i touches slots i and i+1 only, and none at all when
      slot i is the last one: the last process then runs its rem ticks. */
  lemma {:induction false} SrtSlotFrame(s: seq<Process>, n: nat, i: nat, rem: int, clock: int)
    requires i < n <= |s| && ServicesNonNegative(s, n) && rem >= 0
    ensures forall k :: 0 <= k < |s| && k != i && k != i + 1 ==> SrtSlot(s, n, i, rem, clock).list[k] == s[k]
    ensures i + 1 == n ==> SrtSlot(s, n, i, rem, clock) == SlotEnd(s, clock + rem)
    decreases rem
  {
    if rem > 0 {
      if SwapCondition(s, n, i, rem - 1, clock + 1) {
        SrtSlotFrame(SrtSwap(s, i, rem - 1), n, i, s[i + 1].R, clock + 1);
      } else {
        SrtSlotFrame(s, n, i, rem - 1, clock + 1);
      }
    }
  }

  /** The loop only exchanges records and rewrites the Active field of the
      preempted one: apart from Active, the list is a permutation of what it
      was. */
  lemma {:induction false} SrtSlotPermutesJobs(s: seq<Process>, n: nat, i: nat, rem: int, clock: int)
    requires i < n <= |s| && ServicesNonNegative(s, n) && rem >= 0
    ensures multiset(Jobs(SrtSlot(s, n, i, rem, clock).list)) == multiset(Jobs(s))
    decreases rem
  {
    if rem > 0 {
      if SwapCondition(s, n, i, rem - 1, clock + 1) {
        SrtSlotPermutesJobs(SrtSwap(s, i, rem - 1), n, i, s[i + 1].R, clock + 1);
        SwapJobs(s, i, rem - 1);
      } else {
        SrtSlotPermutesJobs(s, n, i, rem - 1, clock + 1);
      }
    }
  }

  lemma SwapJobs(s: seq<Process>, i: nat, remainingTime: int)
    requires i + 1 < |s|
    ensures multiset(Jobs(SrtSwap(s, i, remainingTime))) == multiset(Jobs(s))
  {
    var js := Jobs(s);
    assert Jobs(SrtSwap(s, i, remainingTime)) == js[i := js[i + 1]][i + 1 := js[i]];
    SwapPermutes(js, i);
  }

  /** If slot i's occupant could still finish no earlier than its arrival
      plus R, the occupant at the end of the loop does: a process swapped in
      has arrived and then runs its whole R. */
  lemma {:induction false} SrtSlotFinishesAfterService(s: seq<Process>, n: nat, i: nat, rem: int, clock: int)
    requires i < n <= |s| && ServicesNonNegative(s, n) && rem >= 0
    requires clock + rem >= s[i].A + s[i].R
    ensures SrtSlot(s, n, i, rem, clock).clock >= SrtSlot(s, n, i, rem, clock).list[i].A + SrtSlot(s, n, i, rem, clock).list[i].R
    decreases rem
  {
    if rem > 0 {
      if SwapCondition(s, n, i, rem - 1, clock + 1) {
        SrtSlotFinishesAfterService(SrtSwap(s, i, rem - 1), n, i, s[i + 1].R, clock + 1);
      } else {
        SrtSlotFinishesAfterService(s, n, i, rem - 1, clock + 1);
      }
    }
  }

  /** If slot i's occupant has arrived, then at the end of the loop slot i+1
      holds either what it held before or a process that had arrived by the
      end: a preempted process arrived before it was preempted. */
  lemma {:induction false} SrtSlotNextArrived(s: seq<Process>, n: nat, i: nat, rem: int, clock: int)
    requires i + 1 < n <= |s| && ServicesNonNegative(s, n) && rem >= 0
    requires s[i].A <= clock
    ensures SrtSlot(s, n, i, rem, clock).list[i + 1] == s[i + 1]
      || SrtSlot(s, n, i, rem, clock).list[i + 1].A <= SrtSlot(s, n, i, rem, clock).clock
    decreases rem
  {
    if rem > 0 {
      if SwapCondition(s, n, i, rem - 1, clock + 1) {
        SrtSlotNextArrived(SrtSwap(s, i, rem - 1), n, i, s[i + 1].R, clock + 1);
      } else {
        SrtSlotNextArrived(s, n, i, rem - 1, clock + 1);
      }
    }
  }

  /** Slots i..n-1 of SRT from `clock`: slot i's loop starts with
      `remainingTime = processes[i].R`; its TT is the completion time minus
      the A of whoever holds slot i at the end (TimeCalculator.cs:197-202),
      and the idle jump looks at slot i+1 of the list as the loop left it. */
  function SrtRun(s: seq<Process>, n: nat, i: nat, clock: int): (o: Outcome)
    requires i <= n <= |s| && ServicesNonNegative(s, n)
    ensures |o.order| == |s| && |o.tts| == n - i
    decreases n - i
  {
    if i == n then Outcome(s, [], clock)
    else
      var slot := SrtSlot(s, n, i, s[i].R, clock);
      var rest := SrtRun(slot.list, n, i + 1, IdleJump(slot.list, n, i, slot.clock));
      Outcome(rest.order, [slot.clock - slot.list[i].A] + rest.tts, rest.clock)
  }

  /** SRT never moves slots before i, nor slots from n on. */
  lemma {:induction false} SrtKeepsEnds(s: seq<Process>, n: nat, i: nat, clock: int)
    requires i <= n <= |s| && ServicesNonNegative(s, n)
    ensures forall k :: (0 <= k < i || n <= k < |s|) ==> SrtRun(s, n, i, clock).order[k] == s[k]
    decreases n - i
  {
    if i < n {
      var slot := SrtSlot(s, n, i, s[i].R, clock);
      SrtSlotFrame(s, n, i, s[i].R, clock);
      SrtKeepsEnds(slot.list, n, i + 1, IdleJump(slot.list, n, i, slot.clock));
    }
  }

  /** Apart from the Active fields, SRT leaves the list a permutation of what
      it was. */
  lemma {:induction false} SrtPermutesJobs(s: seq<Process>, n: nat, i: nat, clock: int)
    requires i <= n <= |s| && ServicesNonNegative(s, n)
    ensures multiset(Jobs(SrtRun(s, n, i, clock).order)) == multiset(Jobs(s))
    decreases n - i
  {
    if i < n {
      var slot := SrtSlot(s, n, i, s[i].R, clock);
      SrtSlotPermutesJobs(s, n, i, s[i].R, clock);
      SrtPermutesJobs(slot.list, n, i + 1, IdleJump(slot.list, n, i, slot.clock));
    }
  }

  /** If the first slot does not start before its arrival, every SRT TT is at
      least the R of the process that finished in that slot. */
  lemma {:induction false} SrtTTAtLeastService(s: seq<Process>, n: nat, i: nat, clock: int)
    requires i <= n <= |s| && ServicesNonNegative(s, n)
    requires i < n ==> clock >= s[i].A
    ensures forall j :: 0 <= j < n - i ==> SrtRun(s, n, i, clock).tts[j] >= SrtRun(s, n, i, clock).order[i + j].R
    decreases n - i
  {
    if i < n {
      var slot := SrtSlot(s, n, i, s[i].R, clock);
      var next := IdleJump(slot.list, n, i, slot.clock);
      SrtSlotFinishesAfterService(s, n, i, s[i].R, clock);
      if i + 1 < n {
        SrtSlotNextArrived(s, n, i, s[i].R, clock);
      }
      SrtTTAtLeastService(slot.list, n, i + 1, next);
      SrtKeepsEnds(slot.list, n, i + 1, next);
      PrependCoversService(SrtRun(s, n, i, clock), SrtRun(slot.list, n, i + 1, next), i, n - i - 1);
    }
  }

  /** One step of the SRT outer loop: slot i's TT joins the ones collected so
      far, and what is still to come is the run of slots i+1.. on the list
      slot i's loop left, from the clock after the idle jump. */
  lemma SrtCollect(s: seq<Process>, n: nat, i: nat, clock: int, done: seq<int>, whole: Outcome, slot: SlotEnd)
    requires i < n <= |s| && ServicesNonNegative(s, n)
    requires slot == SrtSlot(s, n, i, s[i].R, clock)
    requires whole == Resumed(done, SrtRun(s, n, i, clock))
    ensures whole == Resumed(done + [slot.clock - slot.list[i].A], SrtRun(slot.list, n, i + 1, IdleJump(slot.list, n, i, slot.clock)))
    ensures Sum(done + [slot.clock - slot.list[i].A]) == Sum(done) + (slot.clock - slot.list[i].A)
  {
    Collect(done, slot.clock - slot.list[i].A, SrtRun(slot.list, n, i + 1, IdleJump(slot.list, n, i, slot.clock)));
  }
}

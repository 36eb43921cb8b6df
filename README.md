# CPU-scheduling simulator: a verified model of its engine

This project models the scheduling engine of `TimeCalculator.cs`, a small
C# simulator. It takes a list of processes sorted by arrival time and runs
three CPU-scheduling policies on it: first in, first out (FIFO), shortest
job first (SJF) and shortest remaining time (SRT). It reports each process's
turnaround time (TT) and each policy's average turnaround time (ATT).

The model follows the code as written, by the C# program's own structure:

- `processes.dfy`: the `Process` record (`TimeCalculator.cs:16-34`).
  The `List<Process>` is modelled as a class `ProcessList` with `RemoveAt`
  and `Insert`.
- `primitive.dfy`: the run-to-completion primitive (`GetTurnAroundTimeForProcess`):
  - its countdown loop;
  - the idle jump to the next arrival;
  - the `Outcome` of an engine run;
  - C#'s truncating integer division.
- `fifo.dfy`, `sjf.dfy`, `srt.dfy`: each engine as a pure function
  (`FifoRun`, `SjfRun`, `SrtRun`) and the properties of that function.
- `timecalculator.dfy`: the engines as imperative code.
  - A class `Simulator` holds the static clock `t` and the process count `n`.
  - The `for`/`while` loops, the in-place `RemoveAt`/`Insert` reordering
    and the writes to `t` are kept.
  - Each method is proved to compute what the run function of its engine
    specifies.
- `comparison.dfy`: the engines side by side. Without contention they all
  agree. Concrete runs show where they do not.

The code's quirks are kept rather than corrected:

- **A preempted SRT process restarts.** It is put back with
  `Active := remainingTime` and its full `R` (line 182), so it later runs
  its whole CPU time again.
- **Four writes are lost.** The writes at lines 98, 122 and 201 modify struct
  copies and never reach the list; line 237 sets only a parameter.
- **The SJF scan misses the last slot.** It stops at `g < n - 1` (line 130).
- **SRT looks only at the adjacent slot.** It compares the running process
  with slot `i + 1` alone (line 180).
- **The engines share one list.** Main hands the same list object to all
  three engines, so SRT runs on the order SJF left behind (`RunEngines`).
- **The clock is not reset before FIFO.** FIFO adds the first arrival to `t`
  without resetting it (line 89). SRT never advances `t` past that first
  arrival.

What the code does not do, and where the program's own comments say
otherwise:

- **A preempted process does not resume.** It restarts from its full R.
  For p1(A=0, R=5), p2(A=1, R=1), SRT gives turnaround times 1 and 7, so
  ATT 4 (`ContendedSrt`), not 1 and 6 as resuming would give.
- **`Active` does not simply stay 1 until termination.** The header
  comment (line 2) says it does. The demoted record instead carries the
  remaining time in `Active` (line 182, `Demote`). The writes of 0 at
  lines 201 and 237 never reach the list.
- **SRT does not always beat FIFO.** `SrtCanExceedFifo` has FIFO ATT 6
  against SRT ATT 10.
- **The engines do not get separate copies of the list.** They share
  one (`RunEngines`), so SRT starts from the order SJF left behind and
  with `t` set back to that list's first arrival.
- **SJF does not consider every waiting process.** The scan never
  examines the last slot (`SjfSkipsLastSlot`).
- **The agreement promised by the header comment (lines 5-6) holds.**
  When processes run in isolation, all three policies give the same
  result (`NoContention`).

## Model

| member | source | states |
|---|---|---|
| Processes.Process | TimeCalculator.cs:16-34 | the process record with the source's six fields; the label is kept as its number |
| Processes.RemovedAt | TimeCalculator.cs:135 | `List.RemoveAt(g)`: slot g is dropped and the list is one shorter |
| Processes.InsertedAt | TimeCalculator.cs:136 | `List.Insert(j, x)`: x enters at slot j and the list is one longer |
| Processes.ProcessList.RemoveAt | TimeCalculator.cs:135 | the shared list object becomes `RemovedAt` of what it held, in place |
| Processes.ProcessList.Insert | TimeCalculator.cs:136 | the shared list object becomes `InsertedAt` of what it held, in place |
| Processes.MovedIf | TimeCalculator.cs:135-136 | the RemoveAt/Insert pair moves slot g to slot j when the guard holds, keeping the length; `MovedIfPlaces` gives where every entry lands and `MovedIfPermutes` that it only reorders |
| Processes.Exchanged | TimeCalculator.cs:185-188 | the four RemoveAt/Insert calls keep the length; `ExchangedUpdates` proves they only overwrite slots i and i+1 |
| Primitive.Countdown | TimeCalculator.cs:228-232 | the loop state after k ticks; each tick moves one unit from the remaining time to the clock, so their sum is constant |
| Fifo.FifoRun | TimeCalculator.cs:94-100 | FIFO from slot i: one TT per slot, start + R - A, with the idle jump between slots; its meaning is proved by `FifoKeepsOrder` and `FifoTTAtLeastService` |
| Sjf.ScanStep | TimeCalculator.cs:132-137 | one scan iteration keeps the length; `ScanStepFacts` and `ScanStepPermutes` give what it moves |
| Sjf.Scan | TimeCalculator.cs:130-138 | the whole scan keeps the length; `ScanPermutes`, `ScanSelectsFirstShortest` and `ScanFrontIsShortest` give its meaning |
| Sjf.SjfNextClock | TimeCalculator.cs:121 | the clock the primitive leaves after slot i, never before that slot's completion nor before slot i+1's arrival |
| Sjf.SjfAfterScan | TimeCalculator.cs:126-139 | the list after the scan that follows slot i, none after the last slot; it keeps the length |
| Sjf.SjfRun | TimeCalculator.cs:118-140 | SJF from slot i: one TT per slot and a list of the same length; its meaning is proved by `SjfPermutes`, `SjfKeepsEnds` and `SjfStartsAfterArrival` |
| Srt.SwapCondition | TimeCalculator.cs:180 | the guard as written, which holds only when slot i+1 exists and has arrived; `SwapConditionCancels` gives the exact condition |
| Srt.SrtRun | TimeCalculator.cs:168-219 | SRT from slot i: one TT per slot, completion clock - A of the final occupant, and a list of the same length; its meaning is proved by `SrtKeepsEnds`, `SrtPermutesJobs` and `SrtTTAtLeastService` |
| Primitive.CountdownClosedForm | TimeCalculator.cs:228-232 | after k ticks the loop has R - k left and the clock stands at start + k |
| Primitive.CountdownRunsExactlyR | TimeCalculator.cs:228-232 | with R >= 0 the guard first fails after exactly R ticks, leaving 0 and start + R |
| Primitive.CountdownDivergesOnNegative | TimeCalculator.cs:228-232 | with R < 0 the guard never fails: the remaining time stays negative for ever |
| Primitive.Max | TimeCalculator.cs:243-247 | the larger of two clocks: at least both, and one of them |
| Primitive.IdleJump | TimeCalculator.cs:243-247 | the clock after a completion at `finish` is max(finish, A of slot i+1) when i < n-1, and finish for the last slot |
| Primitive.TruncDiv | TimeCalculator.cs:102 | C# `allTT / n`: the quotient truncated toward zero, bounded on both sides for either sign of the sum |
| TimeCalculator.Simulator.constructor | TimeCalculator.cs:36-40 | the simulator has its process count and the clock starts at 0 |
| TimeCalculator.Simulator.TurnAroundTimeForProcess | TimeCalculator.cs:224-258 | returns start + R - A (never the idle gap) and leaves in `t` the idle-jumped completion time |
| TimeCalculator.Simulator.AvgTTForFifo | TimeCalculator.cs:86-105 | starts at the old `t` plus the first arrival, without a reset; returns the truncated mean of the FIFO TTs and leaves `t` at the FIFO run's final clock; the list is not modified |
| TimeCalculator.Simulator.AvgTTForSjf | TimeCalculator.cs:107-145 | restarts `t` at the first arrival; returns the truncated mean of the SJF TTs, leaves the list in the SJF run's final order and `t` at its final clock |
| TimeCalculator.Simulator.SjfSlot | TimeCalculator.cs:119-139 | one pass of the SJF loop: TT of slot i, the list after the scan, the next clock; services stay non-negative |
| TimeCalculator.Simulator.ScanBy | TimeCalculator.cs:126-139 | the in-place RemoveAt/Insert scan leaves exactly the list `Scan` describes, with `nextShortestjob` always slot i+1 |
| TimeCalculator.Simulator.AvgTTForSrt | TimeCalculator.cs:147-161 | resets `t` to the first arrival and never advances it; returns the truncated mean of the SRT TTs and leaves the list in the SRT run's final order |
| TimeCalculator.Simulator.TurnAroundTimeForSrt | TimeCalculator.cs:163-222 | returns the sum of the SRT TTs from `currentTime` and leaves the list in the order the swaps produced |
| TimeCalculator.Simulator.SrtSlotLoop | TimeCalculator.cs:170-194 | the tick loop of slot i ends with remainingTime 0, at the list and clock `SrtSlot` describes |
| TimeCalculator.Simulator.RunEngines | TimeCalculator.cs:70-82 | FIFO then SJF then SRT on one list: FIFO's and SJF's averages are those of the given list, SRT's is that of the SJF order, which SRT then rearranges; `t` ends at the first arrival of the SJF order |
| Fifo.FifoKeepsOrder | TimeCalculator.cs:94-99 | FIFO leaves the list as it was: the TT write goes to a copy |
| Fifo.FifoTTAtLeastService | TimeCalculator.cs:94-99 | when the first slot starts no earlier than its arrival, every FIFO TT is at least that slot's R |
| Sjf.ScanStepFacts | TimeCalculator.cs:132-137 | one scan iteration moves nothing outside slots i+1..g, and slot i+1 ends with slot g exactly when slot g has arrived and is strictly shorter |
| Sjf.ScanPermutes | TimeCalculator.cs:130-138 | the scan is a permutation that leaves slots 0..i and slots from the bound on in place |
| Sjf.ScanSelectsFirstShortest | TimeCalculator.cs:130-138 | slot i+1 ends with the first shortest arrived entry of slots i+1..n-2 (ties keep the earlier one because the comparison is strict), or its old entry when none is shorter |
| Sjf.ScanFrontHasArrived | TimeCalculator.cs:132 | the entry left in slot i+1 is the old one or has arrived by t |
| Sjf.ScanFrontIsShortest | TimeCalculator.cs:130-138 | after the scan, slot i+1's R is at most the R of every arrived entry of slots i+1..n-2 |
| Sjf.ScanKeepsServices | TimeCalculator.cs:130-138 | after the scan every slot below n still owes a non-negative R |
| Sjf.SjfPermutes | TimeCalculator.cs:118-140 | SJF leaves the list a permutation of its old contents |
| Sjf.SjfKeepsEnds | TimeCalculator.cs:126-139 | SJF never moves slots 0..i, nor slot n-1 and beyond |
| Sjf.SjfStartsAfterArrival | TimeCalculator.cs:118-140 | no SJF slot starts before its occupant's arrival, so each TT is at least the occupant's R |
| Srt.Demote | TimeCalculator.cs:182 | the demoted record keeps its label, A, T, full R and TT, and gets Active := remainingTime |
| Srt.SwapConditionCancels | TimeCalculator.cs:180 | the swap happens exactly when i < n-1, slot i+1 is active and has arrived, and its R is below the remaining time: the currentTime terms cancel |
| Srt.SrtSwap | TimeCalculator.cs:185-188 | the four RemoveAt/Insert calls only put the old slot i+1 in slot i and the demoted record in slot i+1 |
| Srt.SrtSlot | TimeCalculator.cs:172-194 | the tick loop ends within rem ticks and takes at least one tick when rem > 0; the list keeps its length and non-negative services |
| Srt.SrtSlotFrame | TimeCalculator.cs:172-194 | the tick loop touches slots i and i+1 only; for the last slot it just runs rem ticks |
| Srt.SrtSlotPermutesJobs | TimeCalculator.cs:172-194 | apart from Active fields the tick loop only permutes the records |
| Srt.SrtSlotFinishesAfterService | TimeCalculator.cs:172-194 | the occupant of slot i finishes no earlier than its arrival plus its R |
| Srt.SrtSlotNextArrived | TimeCalculator.cs:172-194 | slot i+1 ends with its old entry or an entry that arrived by the end of the slot |
| Srt.SrtKeepsEnds | TimeCalculator.cs:168-219 | SRT never moves slots before i, nor slots from n on |
| Srt.SrtPermutesJobs | TimeCalculator.cs:168-219 | apart from Active fields SRT leaves the list a permutation of its old contents |
| Srt.SrtTTAtLeastService | TimeCalculator.cs:197-217 | when the first slot starts no earlier than its arrival, every SRT TT is at least its occupant's R |
| Comparison.ArrivesAfter | TimeCalculator.cs:5-6 | on an isolated list every later slot arrives no earlier than an earlier slot completes |
| Comparison.FifoUndisturbed | TimeCalculator.cs:86-105 | on an isolated list FIFO keeps the list, charges every process its R and ends at the last completion |
| Comparison.ScanIdle | TimeCalculator.cs:130-138 | a scan in which no candidate has arrived shorter than slot i+1 leaves the list alone |
| Comparison.SjfScanIdle | TimeCalculator.cs:126-139 | on an isolated list the scan after slot i changes nothing |
| Comparison.SjfUndisturbed | TimeCalculator.cs:107-145 | on an isolated list SJF keeps the list, charges every process its R and ends at the last completion |
| Comparison.SrtSlotWaits | TimeCalculator.cs:172-194 | while slot i+1 has not arrived, k ticks just take k off the remaining time and add k to the clock |
| Comparison.SrtSlotIdle | TimeCalculator.cs:172-194 | a slot that completes no later than the next arrival runs its rem ticks undisturbed |
| Comparison.SrtUndisturbed | TimeCalculator.cs:163-222 | on an isolated list SRT keeps the list, charges every process its R and ends at the last completion |
| Comparison.NoContention | TimeCalculator.cs:5-6 | when every process is done before the next arrives, FIFO, SJF and SRT give the same outcome: the list unchanged, TTs equal to the Rs |
| Comparison.SingleProcess | TimeCalculator.cs:86-222 | with n = 1 every engine gives TT = R and ATT = R |
| Comparison.ContendedFifoSjf | TimeCalculator.cs:86-145 | for p1(0,5), p2(1,1) FIFO and SJF both give TTs 5 and 5, ATT 5 |
| Comparison.ContendedSrt | TimeCalculator.cs:163-222 | for p1(0,5), p2(1,1) SRT runs p2 first, demotes p1 with Active 4 and R 5, and gives TTs 1 and 7, ATT 4 |
| Comparison.SrtCanExceedFifo | TimeCalculator.cs:163-222 | for p1(0,10), p2(8,1) FIFO's ATT is 6 and SRT's is 10 |
| Comparison.SjfSkipsLastSlot | TimeCalculator.cs:130 | for three processes at time 0 needing 5, 3 and 1, SJF never looks at the 1-tick job and keeps the order, with TTs 5, 8, 9 |

## Left out

- Process generation (`GetTotalCPUtime`, `GetArrivalTime`, lines 260-277) is not modelled. It uses normally distributed floating-point samples and `System.Random`. The list is an input instead; the engines require R >= 0 for the slots they run.
- Main's sorting by arrival, its console output and the `d / ATT` floating-point ratios (lines 42-84) are not modelled. `RunEngines` models only its three engine calls on the shared list.
- The `Console.WriteLine` calls inside the engines (lines 204, 240) have no effect on the state and are left out.
- The empty `else if` delay branches (lines 212-215, 248-251) do nothing and are left out.
- Process.ProcessID is the number in the label `"p" + (i + 1)` built at line 52, not the string itself. The engines only copy it.
- The model uses unbounded integers: the 32-bit overflow of `R + currentTime` (line 180) and of the clock and the sums is not modelled.
- TimeCalculator.Simulator.TurnAroundTimeForProcess: requires R >= 0, because with R < 0 the C# loop counts down until 32-bit wrap-around brings it to 0. `CountdownDivergesOnNegative` shows that on unbounded integers the loop never stops.
- TimeCalculator.Simulator.TurnAroundTimeForProcess: the `isActive = 0` write at line 237 sets only a parameter, so the model performs no write there.
- The lost writes to struct copies (lines 98, 122, 201) appear as updates of a local copy only, so the list never changes there.
- The statistical claim of the header comment (lines 5-6), that the policies agree when d is much smaller than k/n, is probabilistic. `NoContention` proves its deterministic core instead: the engines agree on every list where no two processes overlap.

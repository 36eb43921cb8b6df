/** The run-to-completion primitive shared by FIFO and SJF
    (GetTurnAroundTimeForProcess, TimeCalculator.cs:224-258), the idle jump it
    shares with SRT, and the integer arithmetic of the averages. */
module Primitive {
  import opened Processes

  /** What an engine run leaves behind: the list in its final order, the
      turnaround time recorded for each slot in slot order, and the clock. */
  datatype Outcome = Outcome(order: seq<Process>, tts: seq<int>, clock: int)

  /** Prepending slot i's TT to the outcome of slots i+1.. keeps "every TT
      covers its occupant's R". */
  lemma PrependCoversService(o: Outcome, rest: Outcome, i: nat, m: nat)
    requires |o.tts| == m + 1 && |rest.tts| == m && o.tts[1..] == rest.tts
    requires o.order == rest.order && i + m < |o.order|
    requires o.tts[0] >= o.order[i].R
    requires forall j :: 0 <= j < m ==> rest.tts[j] >= rest.order[i + 1 + j].R
    ensures forall j :: 0 <= j < m + 1 ==> o.tts[j] >= o.order[i + j].R
  {
    forall j | 0 <= j < m + 1
      ensures o.tts[j] >= o.order[i + j].R
    {
      if j > 0 {
        assert o.tts[j] == rest.tts[j - 1];
        assert i + j == i + 1 + (j - 1);
      }
    }
  }

  function Max(a: int, b: int): (r: int)
    ensures r >= a && r >= b && (r == a || r == b)
  {
    if a >= b then a else b
  }

  /** (remainingCPUTime, currentTime) after k iterations of the countdown loop
      at TimeCalculator.cs:228-232. */
  function Countdown(remaining: int, clock: int, k: nat): (r: (int, int))
    ensures r.0 + r.1 == remaining + clock
  {
    if k == 0 then (remaining, clock)
    else
      var before := Countdown(remaining, clock, k - 1);
      (before.0 - 1, before.1 + 1)
  }

  lemma {:induction false} CountdownClosedForm(remaining: int, clock: int, k: nat)
    ensures Countdown(remaining, clock, k) == (remaining - k, clock + k)
  {
    if k > 0 {
      CountdownClosedForm(remaining, clock, k - 1);
    }
  }

  /** With R >= 0 the loop guard `remainingCPUTime != 0` first fails after
      exactly R iterations, and the clock has then advanced by exactly R. */
  lemma {:induction false} CountdownRunsExactlyR(remaining: int, clock: int)
    requires remaining >= 0
    ensures Countdown(remaining, clock, remaining) == (0, clock + remaining)
    ensures forall k: nat :: k < remaining ==> Countdown(remaining, clock, k).0 != 0
  {
    CountdownClosedForm(remaining, clock, remaining);
    forall k: nat | k < remaining
      ensures Countdown(remaining, clock, k).0 != 0
    {
      CountdownClosedForm(remaining, clock, k);
    }
  }

  /** With R < 0 the loop guard never fails: the loop does not terminate. */
  lemma {:induction false} CountdownDivergesOnNegative(remaining: int, clock: int, k: nat)
    requires remaining < 0
    ensures Countdown(remaining, clock, k).0 < 0
  {
    CountdownClosedForm(remaining, clock, k);
  }

  /** The clock after slot i completes at `finish` (TimeCalculator.cs:243-247,
      and the same code at 207-211): if the next slot's process has not yet
      arrived, the clock jumps over the idle gap to its arrival. */
  function IdleJump(s: seq<Process>, n: nat, i: nat, finish: int): (r: int)
    requires i < n <= |s|
    ensures i + 1 < n ==> r == Max(finish, s[i + 1].A)
    ensures i + 1 == n ==> r == finish
  {
    if i < n - 1 && finish < s[i + 1].A then
      var diff := s[i + 1].A - finish;
      finish + diff
    else finish
  }

  function Sum(xs: seq<int>): (r: int) {
    if xs == [] then 0 else Sum(xs[..|xs| - 1]) + xs[|xs| - 1]
  }

  lemma SumAppend(xs: seq<int>, x: int)
    ensures Sum(xs + [x]) == Sum(xs) + x
  {
    assert (xs + [x])[..|xs|] == xs;
  }

  /** A whole run seen from slot i: the turnaround times collected so far,
      followed by the outcome of the slots still to come. */
  function Resumed(done: seq<int>, rest: Outcome): (r: Outcome) {
    Outcome(rest.order, done + rest.tts, rest.clock)
  }

  /** Moving one turnaround time from the outcome still to come onto the
      ones already collected keeps the whole run and adds it to the sum. */
  lemma Collect(done: seq<int>, tt: int, rest: Outcome)
    ensures Resumed(done, Outcome(rest.order, [tt] + rest.tts, rest.clock)) == Resumed(done + [tt], rest)
    ensures Sum(done + [tt]) == Sum(done) + tt
  {
    SumAppend(done, tt);
    assert done + ([tt] + rest.tts) == (done + [tt]) + rest.tts;
  }

  /** C#'s integer division `a / b` for b > 0, which truncates toward zero. */
  function TruncDiv(a: int, b: int): (q: int)
    requires b > 0
    ensures a >= 0 ==> 0 <= q && q * b <= a < q * b + b
    ensures a < 0 ==> q <= 0 && a <= q * b < a + b
  {
    if a >= 0 then a / b else -((-a) / b)
  }
}

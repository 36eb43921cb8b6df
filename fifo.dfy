/** The FIFO engine (GetAvgTTforFIFO, TimeCalculator.cs:86-105) as a function
    of the list and the clock it starts from. */
module Fifo {
  import opened Processes
  import opened Primitive

  /** Slots i..n-1 run to completion in list order, the first of them starting
      at `clock`; each slot's TT is its start plus R minus A, and the next
      slot starts after the idle jump. The list itself is never changed: the
      write `currentProcess.TT = TT` at TimeCalculator.cs:98 goes to a copy. */
  function FifoRun(s: seq<Process>, n: nat, i: nat, clock: int): (o: Outcome)
    requires i <= n <= |s|
    ensures |o.tts| == n - i
    decreases n - i
  {
    if i == n then Outcome(s, [], clock)
    else
      var rest := FifoRun(s, n, i + 1, IdleJump(s, n, i, clock + s[i].R));
      Outcome(s, [clock + s[i].R - s[i].A] + rest.tts, rest.clock)
  }

  /** FIFO leaves the list as it found it. */
  lemma {:induction false} FifoKeepsOrder(s: seq<Process>, n: nat, i: nat, clock: int)
    requires i <= n <= |s|
    ensures FifoRun(s, n, i, clock).order == s
    decreases n - i
  {
    if i < n {
      FifoKeepsOrder(s, n, i + 1, IdleJump(s, n, i, clock + s[i].R));
    }
  }

  /** If the first slot does not start before its arrival, no slot does, so
      every TT is at least that slot's R: a process finishes no earlier than
      its arrival plus its CPU time. */
  lemma {:induction false} FifoTTAtLeastService(s: seq<Process>, n: nat, i: nat, clock: int)
    requires i <= n <= |s|
    requires i < n ==> clock >= s[i].A
    ensures forall j :: 0 <= j < n - i ==> FifoRun(s, n, i, clock).tts[j] >= s[i + j].R
    decreases n - i
  {
    if i < n {
      var next := IdleJump(s, n, i, clock + s[i].R);
      FifoTTAtLeastService(s, n, i + 1, next);
      var o := FifoRun(s, n, i, clock);
      var rest := FifoRun(s, n, i + 1, next);
      assert o.tts == [clock + s[i].R - s[i].A] + rest.tts;
      forall j | 0 <= j < n - i
        ensures o.tts[j] >= s[i + j].R
      {
        if j == 0 {
          assert o.tts[0] == clock + s[i].R - s[i].A;
        } else {
          assert o.tts[j] == rest.tts[j - 1];
          assert s[i + j] == s[(i + 1) + (j - 1)];
        }
      }
    }
  }

  /** One step of the FIFO loop: slot i's TT joins the ones collected so far,
      and what is still to come is the run of slots i+1.. from the next clock. */
  lemma FifoCollect(s: seq<Process>, n: nat, i: nat, clock: int, done: seq<int>, whole: Outcome, tt: int, next: int)
    requires i < n <= |s|
    requires whole == Resumed(done, FifoRun(s, n, i, clock))
    requires tt == clock + s[i].R - s[i].A && next == IdleJump(s, n, i, clock + s[i].R)
    ensures whole == Resumed(done + [tt], FifoRun(s, n, i + 1, next))
    ensures Sum(done + [tt]) == Sum(done) + tt
  {
    Collect(done, tt, FifoRun(s, n, i + 1, next));
  }
}

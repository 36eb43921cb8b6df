/** The process record and the mutable process list the engines share. */
module Processes {

  /** One process (TimeCalculator.cs:16-34); field names follow the source:
      A arrival time, T total CPU time, R remaining CPU time, TT turnaround
      time. The label "p1", "p2", ... is kept as its number: the engines only
      copy it. */
  datatype Process = Process(ProcessID: nat, Active: int, A: int, T: int, R: int, TT: int)

  /** The list after `RemoveAt(g)`: slot g is dropped and the tail moves down by one. */
  function RemovedAt<X>(s: seq<X>, g: nat): (r: seq<X>)
    requires g < |s|
    ensures |r| == |s| - 1
  {
    s[..g] + s[g + 1..]
  }

  /** The list after `Insert(j, x)`: x lands in slot j and the old slots j.. move up by one. */
  function InsertedAt<X>(s: seq<X>, j: nat, x: X): (r: seq<X>)
    requires j <= |s|
    ensures |r| == |s| + 1
  {
    s[..j] + [x] + s[j..]
  }

  /** The list after the entry of slot g is moved to slot j by `RemoveAt(g)`
      then `Insert(j, ...)`, done only when c holds. */
  function MovedIf<X>(s: seq<X>, c: bool, g: nat, j: nat): (r: seq<X>)
    requires j <= g < |s|
    ensures |r| == |s|
  {
    if c then InsertedAt(RemovedAt(s, g), j, s[g]) else s
  }

  /** Where every entry lands when slot g moves forward to slot j <= g: it
      takes slot j, slots j..g-1 move up by one, and the slots before j and
      after g stay put. */
  lemma MovedIfPlaces<X>(s: seq<X>, c: bool, g: nat, j: nat)
    requires j <= g < |s|
    ensures MovedIf(s, c, g, j)[j] == if c then s[g] else s[j]
    ensures forall k :: 0 <= k < j || g < k < |s| ==> MovedIf(s, c, g, j)[k] == s[k]
    ensures c ==> forall k :: j < k <= g ==> MovedIf(s, c, g, j)[k] == s[k - 1]
  {
  }

  /** The move only reorders the list. */
  lemma MovedIfPermutes<X>(s: seq<X>, c: bool, g: nat, j: nat)
    requires j <= g < |s|
    ensures multiset(MovedIf(s, c, g, j)) == multiset(s)
  {
    if c {
      var removed := RemovedAt(s, g);
      assert s == s[..g] + [s[g]] + s[g + 1..];
      assert removed == s[..g] + s[g + 1..];
      assert multiset(removed) + multiset{s[g]} == multiset(s);
      assert removed == removed[..j] + removed[j..];
      assert InsertedAt(removed, j, s[g]) == removed[..j] + [s[g]] + removed[j..];
    }
  }

  /** The list after `RemoveAt(i); Insert(i, x); RemoveAt(i + 1); Insert(i + 1, y)`. */
  function Exchanged<X>(s: seq<X>, i: nat, x: X, y: X): (r: seq<X>)
    requires i + 1 < |s|
    ensures |r| == |s|
  {
    InsertedAt(RemovedAt(InsertedAt(RemovedAt(s, i), i, x), i + 1), i + 1, y)
  }

  /** The four list operations only overwrite slot i with x and slot i+1 with y. */
  lemma ExchangedUpdates<X>(s: seq<X>, i: nat, x: X, y: X)
    requires i + 1 < |s|
    ensures Exchanged(s, i, x, y) == s[i := x][i + 1 := y]
  {
    var first := InsertedAt(RemovedAt(s, i), i, x);
    assert first == s[i := x];
    assert InsertedAt(RemovedAt(first, i + 1), i + 1, y) == first[i + 1 := y];
  }

  /** Exchanging two adjacent slots only reorders the list. */
  lemma SwapPermutes<X>(s: seq<X>, i: nat)
    requires i + 1 < |s|
    ensures multiset(s[i := s[i + 1]][i + 1 := s[i]]) == multiset(s)
  {
    var r := s[i := s[i + 1]][i + 1 := s[i]];
    assert s == s[..i] + [s[i], s[i + 1]] + s[i + 2..];
    assert r == s[..i] + [s[i + 1], s[i]] + s[i + 2..];
  }

  /** Two sequences that agree outside [lo, hi) and are permutations of each
      other are permutations of each other on [lo, hi) as well. */
  lemma SegmentPermutation<X>(s: seq<X>, r: seq<X>, lo: nat, hi: nat)
    requires lo <= hi <= |s| == |r|
    requires multiset(r) == multiset(s)
    requires forall k :: 0 <= k < lo || hi <= k < |s| ==> r[k] == s[k]
    ensures multiset(r[lo..hi]) == multiset(s[lo..hi])
  {
    assert s == s[..lo] + s[lo..hi] + s[hi..];
    assert r == r[..lo] + r[lo..hi] + r[hi..];
    assert r[..lo] == s[..lo];
    assert r[hi..] == s[hi..];
    MultisetCancel(multiset(s[..lo]), multiset(r[lo..hi]), multiset(s[lo..hi]), multiset(s[hi..]));
  }

  lemma MultisetCancel<X>(left: multiset<X>, m: multiset<X>, m': multiset<X>, right: multiset<X>)
    requires left + m + right == left + m' + right
    ensures m == m'
  {
    forall x
      ensures m[x] == m'[x]
    {
      assert (left + m + right)[x] == (left + m' + right)[x];
    }
  }

  /** The precondition every engine needs: slots 0..n-1 exist and owe a
      non-negative amount of CPU time (with R < 0 the countdown loops of
      TimeCalculator.cs:172 and 228 never reach 0). */
  predicate ServicesNonNegative(s: seq<Process>, n: nat) {
    n <= |s| && forall j :: 0 <= j < n ==> s[j].R >= 0
  }

  /** A process record apart from its Active field. */
  function Job(p: Process): (r: (nat, int, int, int, int)) {
    (p.ProcessID, p.A, p.T, p.R, p.TT)
  }

  function Jobs(s: seq<Process>): (r: seq<(nat, int, int, int, int)>)
    ensures |r| == |s| && forall k :: 0 <= k < |s| ==> r[k] == Job(s[k])
  {
    seq(|s|, k requires 0 <= k < |s| => Job(s[k]))
  }

  /** The C# `List<Process>`: a reference object that the engines reorder in
      place with RemoveAt and Insert, so that a reorder is visible to every
      later holder of the same list. */
  class ProcessList {
    var items: seq<Process>

    constructor (items: seq<Process>)
      ensures this.items == items
    {
      this.items := items;
    }

    method RemoveAt(g: nat)
      requires g < |items|
      modifies this
      ensures items == RemovedAt(old(items), g)
    {
      items := RemovedAt(items, g);
    }

    method Insert(j: nat, x: Process)
      requires j <= |items|
      modifies this
      ensures items == InsertedAt(old(items), j, x)
    {
      items := InsertedAt(items, j, x);
    }
  }
}

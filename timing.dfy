/**
  * The elapsed-time column. The monotonic clock is an integer count of
  * nanosecond ticks supplied by the caller; each line prints the whole
  * milliseconds since the previous line, truncated toward zero as
  * `std::chrono::duration_cast` does.
  */
module Timing {

  /** Ticks of `std::chrono::steady_clock` (nanoseconds) in one millisecond. */
  const TicksPerMs: nat := 1_000_000

  /** `duration_cast<milliseconds>(to - from).count()`: whole milliseconds, truncated toward zero. */
  function MsBetween(from: int, to: int): (ms: int)
    ensures from <= to ==> 0 <= ms && ms * TicksPerMs <= to - from < (ms + 1) * TicksPerMs
    ensures to < from ==> ms <= 0 && (ms - 1) * TicksPerMs < to - from <= ms * TicksPerMs
  {
    var d := to - from;
    if d >= 0 then d / TicksPerMs else -((-d) / TicksPerMs)
  }

  /** The clock reading of the most recent stamp, or `start` before the first one. */
  function LastStamp(start: int, stamps: seq<int>): (r: int)
  {
    if stamps == [] then start else stamps[|stamps| - 1]
  }

  /** The delta printed for each stamp: the milliseconds since the previous stamp (or since `start`). */
  function Deltas(start: int, stamps: seq<int>): (ds: seq<int>)
    ensures |ds| == |stamps|
  {
    if stamps == [] then []
    else
      var prefix := stamps[..|stamps| - 1];
      Deltas(start, prefix) + [MsBetween(LastStamp(start, prefix), stamps[|stamps| - 1])]
  }

  function Sum(s: seq<int>): (r: int)
  {
    if s == [] then 0 else Sum(s[..|s| - 1]) + s[|s| - 1]
  }

  /** A monotonic clock: no stamp is earlier than the one before it, nor than `start`. */
  ghost predicate NonDecreasing(start: int, stamps: seq<int>)
  {
    forall i | 0 <= i < |stamps| :: LastStamp(start, stamps[..i]) <= stamps[i]
  }

  /**
    * With a monotonic clock every printed delta is non-negative, and their sum
    * never exceeds the elapsed milliseconds since `start`: each line drops less
    * than one millisecond of remainder, and the sum falls short by exactly the
    * accumulated remainders.
    */
  lemma {:induction false} DeltasBounds(start: int, stamps: seq<int>)
    requires NonDecreasing(start, stamps)
    ensures forall i | 0 <= i < |stamps| :: Deltas(start, stamps)[i] >= 0
    ensures Sum(Deltas(start, stamps)) * TicksPerMs <= LastStamp(start, stamps) - start
    ensures LastStamp(start, stamps) - start - Sum(Deltas(start, stamps)) * TicksPerMs
            <= |stamps| * (TicksPerMs - 1)
  {
    if stamps != [] {
      var n := |stamps|;
      var prefix := stamps[..n - 1];
      assert NonDecreasing(start, prefix) by {
        forall i | 0 <= i < |prefix|
          ensures LastStamp(start, prefix[..i]) <= prefix[i]
        {
          assert prefix[..i] == stamps[..i];
        }
      }
      DeltasBounds(start, prefix);
      assert stamps[..n - 1] == prefix;
      var ds := Deltas(start, stamps);
      var d := MsBetween(LastStamp(start, prefix), stamps[n - 1]);
      assert ds == Deltas(start, prefix) + [d];
      assert ds[..n - 1] == Deltas(start, prefix);
      assert Sum(ds) == Sum(Deltas(start, prefix)) + d;
    }
  }

  /** The deltas of one more stamp are the old deltas followed by the milliseconds since the last stamp. */
  lemma DeltasSnoc(start: int, stamps: seq<int>, now: int)
    ensures Deltas(start, stamps + [now]) == Deltas(start, stamps) + [MsBetween(LastStamp(start, stamps), now)]
  {
    assert (stamps + [now])[..|stamps|] == stamps;
  }
}

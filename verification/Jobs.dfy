// The values every part of the planner passes around (src/common/Job.h,
// src/common/JobPriorityQueue.h).
module Jobs {
  /** The C++ type of a throughput: sums of these wrap modulo 2^32. */
  type uint32 = x: int | 0 <= x < 0x1_0000_0000

  const TWO_TO_THE_32: int := 0x1_0000_0000

  datatype Option<+T> = None | Some(value: T)

  datatype JobState = Initialized | Scheduled | Active | Done {
    /** Position in the life cycle of a job. */
    function Rank(): nat {
      match this
      case Initialized => 0
      case Scheduled => 1
      case Active => 2
      case Done => 3
    }
  }

  datatype JobEvent = JobStart | JobStop

  /** An entry of the monitor's queue: at `time`, start or stop `jobid`. */
  datatype WaitingItem = WaitingItem(jobid: string, time: int, event: JobEvent)

  /** The immutable part of a job: `mbs` MB/s on each of `osts` during [start, end]. */
  datatype Reservation = Reservation(jobid: string, start: int, end: int, mbs: uint32, osts: seq<string>) {
    predicate Covers(t: int) {
      start <= t <= end
    }

    predicate Overlaps(from: int, to: int) {
      !(start > to || end < from)
    }

    /** What this reservation takes from OST `o` at instant `t`. */
    function Share(o: string, t: int): nat {
      if o in osts && Covers(t) then mbs else 0
    }
  }

  /** A set copied into a sequence has no repetitions. */
  predicate Distinct<T(==)>(s: seq<T>) {
    forall i, j :: 0 <= i < j < |s| ==> s[i] != s[j]
  }

  /** The first `n` of an unending supply of values from outside. */
  function FirstOf<T>(n: nat, f: nat -> T): (s: seq<T>)
    ensures |s| == n && forall i :: 0 <= i < n ==> s[i] == f(i)
  {
    seq(n, i requires 0 <= i => f(i))
  }

  lemma {:induction false} ModShift(q: nat, x: nat)
    ensures (q * TWO_TO_THE_32 + x) % TWO_TO_THE_32 == x % TWO_TO_THE_32
  {
    if q > 0 {
      ModShift(q - 1, x);
      var y := (q - 1) * TWO_TO_THE_32 + x;
      assert (y + TWO_TO_THE_32) % TWO_TO_THE_32 == y % TWO_TO_THE_32;
    }
  }

  /** Wrapping an intermediate sum does not change the wrapped total. */
  lemma AddMod(a: nat, b: nat)
    ensures (a % TWO_TO_THE_32 + b) % TWO_TO_THE_32 == (a + b) % TWO_TO_THE_32
  {
    ModShift(a / TWO_TO_THE_32, a % TWO_TO_THE_32 + b);
  }
}

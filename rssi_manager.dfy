/** The RSSI filter (my_rssi_manager.c): a 64-slot ring of int8_t readings
    with a write cursor, and the average of the readings taken over the
    nonzero slots. The static rssi_buffer and current_offset are the fields of
    one RssiFilter object. */
module RssiManager {
  import opened Nrf

  /** RSSI_BUFFER_SIZE */
  const BufferSize: nat := 64

  /** The sum of the slots, accumulated from the first slot on. */
  function Sum(s: seq<int8>): int
  {
    if s == [] then 0 else Sum(s[..|s| - 1]) + s[|s| - 1] as int
  }

  /** The number of slots holding a reading other than 0. */
  function NonZeroCount(s: seq<int8>): (n: nat)
    ensures n <= |s|
  {
    if s == [] then 0 else NonZeroCount(s[..|s| - 1]) + (if s[|s| - 1] != 0 then 1 else 0)
  }

  /** C's `/` on signed integers, which truncates toward zero (Dafny's `/`
      rounds toward negative infinity for a negative dividend). */
  function TruncDiv(a: int, b: int): (q: int)
    requires b > 0
    ensures a >= 0 ==> q * b <= a < q * b + b
    ensures a < 0 ==> q * b - b < a <= q * b
  {
    if a >= 0 then a / b else -((-a) / b)
  }

  /** What process_buffer computes: the sum of all slots divided, as C
      divides, by the number of nonzero slots. */
  function Average(s: seq<int8>): (avg: int)
    requires NonZeroCount(s) > 0
    ensures -128 <= avg <= 127
  {
    SumBounds(s, -128, 127);
    TruncDivBounds(Sum(s), NonZeroCount(s), -128, 127);
    TruncDiv(Sum(s), NonZeroCount(s))
  }

  /** Zero slots add nothing: when every nonzero slot lies in [lo, hi], the
      sum lies between lo and hi times the number of nonzero slots. */
  lemma {:induction false} SumBounds(s: seq<int8>, lo: int, hi: int)
    requires forall i :: 0 <= i < |s| && s[i] != 0 ==> lo <= s[i] as int <= hi
    ensures lo * NonZeroCount(s) <= Sum(s) <= hi * NonZeroCount(s)
  {
    if s != [] {
      var front := s[..|s| - 1];
      assert forall i :: 0 <= i < |front| ==> front[i] == s[i];
      SumBounds(front, lo, hi);
      if s[|s| - 1] != 0 {
        MulSucc(lo, NonZeroCount(front));
        MulSucc(hi, NonZeroCount(front));
      }
    }
  }

  lemma MulSucc(a: int, n: nat)
    ensures a * (n + 1) == a * n + a
  {
  }

  /** A truncated quotient of a sum lying between lo*c and hi*c lies in
      [lo, hi]. */
  lemma TruncDivBounds(a: int, c: int, lo: int, hi: int)
    requires c > 0 && lo * c <= a <= hi * c
    ensures lo <= TruncDiv(a, c) <= hi
  {
    var q := TruncDiv(a, c);
    if a >= 0 {
      MulCancel(q, hi, c, false);
      assert (q + 1) * c == q * c + c;
      MulCancel(lo, q + 1, c, true);
    } else {
      assert (q - 1) * c == q * c - c;
      MulCancel(q - 1, hi, c, true);
      MulCancel(lo, q, c, false);
    }
  }

  /** Dividing both sides of an inequality by a positive factor. */
  lemma MulCancel(x: int, y: int, c: int, strict: bool)
    requires c > 0
    requires if strict then x * c < y * c else x * c <= y * c
    ensures if strict then x < y else x <= y
  {
  }

  /** The average lies between the smallest and the largest nonzero slot; in
      particular it always fits the int8_t it is returned as. */
  lemma AverageBounds(s: seq<int8>, lo: int, hi: int)
    requires NonZeroCount(s) > 0
    requires forall i :: 0 <= i < |s| && s[i] != 0 ==> lo <= s[i] as int <= hi
    ensures lo <= Average(s) <= hi
  {
    SumBounds(s, lo, hi);
    TruncDivBounds(Sum(s), NonZeroCount(s), lo, hi);
  }

  /** When every nonzero slot holds the same reading, that reading is the
      average. */
  lemma AverageOfConstant(s: seq<int8>, v: int8)
    requires NonZeroCount(s) > 0
    requires forall i :: 0 <= i < |s| && s[i] != 0 ==> s[i] == v
    ensures Average(s) == v as int
  {
    AverageBounds(s, v as int, v as int);
  }

  class RssiFilter {
    /** rssi_buffer */
    const buffer: array<int8>
    /** current_offset: the slot the next reading also goes to */
    var currentOffset: nat

    ghost predicate Valid()
      reads this
    {
      buffer.Length == BufferSize && currentOffset < BufferSize
    }

    /** The static initial state: every slot 0, cursor at slot 0. */
    constructor ()
      ensures Valid() && fresh(buffer)
      ensures forall i :: 0 <= i < BufferSize ==> buffer[i] == 0
      ensures currentOffset == 0
    {
      buffer := new int8[BufferSize](_ => 0);
      currentOffset := 0;
    }

    /** my_rssi_push_value: the reading goes into slot 0 and into the slot
        under the cursor, every other slot is kept, and the cursor advances
        by one, wrapping at 64. */
    method PushValue(v: int8)
      requires Valid()
      modifies this`currentOffset, buffer
      ensures Valid()
      ensures buffer[..] == old(buffer[..])[0 := v][old(currentOffset) := v]
      ensures currentOffset == (old(currentOffset) + 1) % BufferSize
    {
      buffer[0] := v;
      buffer[currentOffset] := v;
      currentOffset := currentOffset + 1;
      if currentOffset == BufferSize {
        currentOffset := 0;
      }
    }

    /** process_buffer: one pass accumulating the sum and the count of
        nonzero slots, then the truncating division. The division by a zero
        count is excluded by the precondition. */
    method ProcessBuffer() returns (avg: int8)
      requires Valid() && NonZeroCount(buffer[..]) > 0
      ensures avg as int == Average(buffer[..])
    {
      var sum: int := 0;
      var count: nat := 0;
      var i := 0;
      while i < BufferSize
        invariant 0 <= i <= BufferSize
        invariant sum == Sum(buffer[..i])
        invariant count == NonZeroCount(buffer[..i]) && count <= i
      {
        assert buffer[..i + 1][..i] == buffer[..i];
        sum := sum + buffer[i] as int;
        if buffer[i] != 0 {
          count := count + 1;
        }
        i := i + 1;
      }
      assert buffer[..i] == buffer[..];
      AverageBounds(buffer[..], -128, 127);
      avg := TruncDiv(sum, count) as int8;
    }

    /** my_rssi_get_value: the average of the buffer. */
    method GetValue() returns (avg: int8)
      requires Valid() && NonZeroCount(buffer[..]) > 0
      ensures avg as int == Average(buffer[..])
    {
      avg := ProcessBuffer();
    }
  }

  /** After a single reading is pushed into the initial buffer, slot 0 is the
      only nonzero slot (when the reading is nonzero), so the average is the
      reading itself. */
  lemma FirstPushAverage(v: int8)
    requires v != 0
    ensures var s := InitialBuffer()[0 := v][0 := v];
            NonZeroCount(s) > 0 && Average(s) == v as int
  {
    var s := InitialBuffer()[0 := v][0 := v];
    assert s[0] != 0;
    NonZeroPositive(s, 0);
    AverageOfConstant(s, v);
  }

  /** The buffer as it is at start-up. */
  function InitialBuffer(): (s: seq<int8>)
    ensures |s| == BufferSize && forall i :: 0 <= i < |s| ==> s[i] == 0
  {
    seq(BufferSize, _ => 0 as int8)
  }

  /** Before any reading is pushed there is no nonzero slot, so the divisor
      of process_buffer is 0 and my_rssi_get_value cannot be called. */
  lemma NoAverageAtStartUp()
    ensures NonZeroCount(InitialBuffer()) == 0
  {
    AllZeroCount(InitialBuffer());
  }

  lemma {:induction false} AllZeroCount(s: seq<int8>)
    requires forall i :: 0 <= i < |s| ==> s[i] == 0
    ensures NonZeroCount(s) == 0
  {
    if s != [] {
      AllZeroCount(s[..|s| - 1]);
    }
  }

  /** Slot 0 is overwritten by every push: after a first nonzero reading a
      and a second nonzero reading b, slots 0 and 1 both hold b, the reading
      a is gone from the buffer, and the average is b. */
  lemma SecondPushLosesFirst(a: int8, b: int8)
    requires a != 0 && b != 0
    ensures var s := InitialBuffer()[0 := a][0 := a][0 := b][1 := b];
            s[0] == b && s[1] == b && (a != b ==> a !in s) &&
            NonZeroCount(s) > 0 && Average(s) == b as int
  {
    var s := InitialBuffer()[0 := a][0 := a][0 := b][1 := b];
    assert forall i :: 0 <= i < |s| && s[i] != 0 ==> s[i] == b;
    NonZeroPositive(s, 0);
    AverageOfConstant(s, b);
  }

  /** The same on the filter object: from start-up, two pushes and a read
      return the second reading. */
  method TwoReadingsAfterStartUp(a: int8, b: int8) returns (avg: int8)
    requires a != 0 && b != 0
    ensures avg == b
  {
    var f := new RssiFilter();
    assert f.buffer[..] == InitialBuffer();
    f.PushValue(a);
    f.PushValue(b);
    SecondPushLosesFirst(a, b);
    avg := f.GetValue();
  }

  /** A nonzero slot makes the count positive. */
  lemma {:induction false} NonZeroPositive(s: seq<int8>, k: nat)
    requires k < |s| && s[k] != 0
    ensures NonZeroCount(s) > 0
  {
    if k < |s| - 1 {
      var front := s[..|s| - 1];
      assert front[k] == s[k];
      NonZeroPositive(front, k);
    }
  }
}

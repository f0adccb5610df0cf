/**
  `BufferT` of xrtc_server/thirdlib/rtcbase_v1/src/rtc_base/buffer.h: a growable array that
  behaves as a plain sequence, with its growth policy and its zero-on-free option.
 */
module BufferT {
  import opened Common

  class BufferT<T(0)> {
    /** The template argument `ZeroOnFree`, and what zeroed memory reads as. */
    const zeroOnFree: bool
    const zero: T

    var size: nat
    var capacity: nat
    var data: array?<T>

    /** Elements copied by reallocations so far, and the largest size asked for so far. */
    ghost var copied: nat
    ghost var peak: nat

    /** Cells of the current storage that have ever held contents lie below this mark. */
    ghost var mark: nat

    /** `IsConsistent`, with what it says about the heap block; cells from `from` up to the mark are wiped. */
    ghost predicate Consistent(from: nat)
      reads this, data
    {
      && size <= from && size <= mark <= capacity
      && (if data == null then capacity == 0 else data.Length == capacity > 0)
      && (zeroOnFree ==> forall k :: from <= k < mark ==> data[k] == zero)
    }

    /** Between calls no cell behind the contents still holds old contents. */
    ghost predicate Valid()
      reads this, data
    {
      Consistent(size)
    }

    ghost function Contents(): seq<T>
      requires size <= capacity && (if data == null then capacity == 0 else data.Length == capacity)
      reads this, data
    {
      if data == null then [] else data[..size]
    }

    /** Reallocation stays linear in the capacity, and the capacity in what was asked for. */
    ghost predicate Amortised()
      reads this
    {
      copied <= 3 * capacity && 2 * capacity <= 3 * peak
    }

    constructor (zeroOnFree: bool, zero: T)
      ensures Valid() && Contents() == [] && capacity == 0 && copied == 0 && peak == 0 && Amortised()
      ensures this.zeroOnFree == zeroOnFree && this.zero == zero && data == null
    {
      this.zeroOnFree, this.zero := zeroOnFree, zero;
      size, capacity, data := 0, 0, null;
      copied, peak, mark := 0, 0, 0;
    }

    /** `EnsureCapacityWithHeadroom`: the old block, if given up, is wiped first when so asked. */
    method EnsureCapacityWithHeadroom(wanted: nat, extraHeadroom: bool, ghost from: nat)
      requires Consistent(from)
      modifies this, data
      ensures Consistent(from) && Contents() == old(Contents()) && size == old(size)
      ensures capacity >= wanted && capacity >= old(capacity)
      ensures wanted <= old(capacity) ==> unchanged(this) && (data != null ==> unchanged(data))
      ensures wanted > old(capacity) ==>
                && data != null && fresh(data)
                && capacity == (if extraHeadroom && old(capacity) + old(capacity) / 2 > wanted then old(capacity) + old(capacity) / 2 else wanted)
                && copied == old(copied) + old(size) && mark == size
                && (zeroOnFree && old(data) != null ==> forall k :: 0 <= k < old(data).Length ==> old(data)[k] == zero)
      ensures peak == old(peak)
    {
      if wanted <= capacity {
        return;
      }
      var newCapacity := if extraHeadroom && capacity + capacity / 2 > wanted then capacity + capacity / 2 else wanted;
      var newData := new T[newCapacity];
      if data != null {
        for i := 0 to size
          modifies newData
          invariant newData[..i] == data[..i]
        {
          newData[i] := data[i];
        }
      }
      copied := copied + size;
      if data != null {
        MaybeZeroCompleteBuffer();
      }
      data := newData;
      capacity := newCapacity;
      mark := size;
    }

    method MaybeZeroCompleteBuffer()
      requires data != null && data.Length == capacity
      modifies data
      ensures zeroOnFree ==> forall k :: 0 <= k < data.Length ==> data[k] == zero
      ensures !zeroOnFree ==> data[..] == old(data[..])
    {
      if zeroOnFree && capacity > 0 {
        for i := 0 to capacity
          invariant forall k :: 0 <= k < i ==> data[k] == zero
        {
          data[i] := zero;
        }
      }
    }

    /** Zeroes the first `count` cells behind the contents. */
    method ZeroTrailingData(count: nat)
      requires data != null && data.Length == capacity && size + count <= capacity
      modifies data
      ensures forall k :: 0 <= k < data.Length ==> data[k] == if size <= k < size + count then zero else old(data[k])
    {
      for i := 0 to count
        invariant forall k :: 0 <= k < data.Length ==> data[k] == if size <= k < size + i then zero else old(data[k])
      {
        data[size + i] := zero;
      }
    }

    /** The `memcpy` of `AppendData`. */
    method CopyIn(elements: seq<T>)
      requires elements != [] ==> data != null && size + |elements| <= data.Length
      modifies data
      ensures data != null ==> forall k :: 0 <= k < data.Length ==>
                data[k] == if size <= k < size + |elements| then elements[k - size] else old(data[k])
      ensures data != null && size + |elements| <= data.Length ==> data[..size + |elements|] == old(data[..size]) + elements
    {
      for i := 0 to |elements|
        invariant data != null ==> forall k :: 0 <= k < data.Length ==>
                    data[k] == if size <= k < size + i then elements[k - size] else old(data[k])
      {
        data[size + i] := elements[i];
      }
    }

    /** The body of `AppendData`; cells from `from` on are known to be wiped. */
    method Append(elements: seq<T>, ghost from: nat)
      requires Consistent(from)
      modifies this, data
      ensures Consistent(Max(from, size)) && Contents() == old(Contents()) + elements
      ensures data == old(data) || (fresh(data) && Valid())
      ensures size == old(size) + |elements| && capacity >= old(capacity)
      ensures peak == Max(old(peak), old(size) + |elements|)
      ensures old(Amortised()) ==> Amortised()
    {
      var newSize := size + |elements|;
      ghost var before := Contents();
      EnsureCapacityWithHeadroom(newSize, true, from);
      CopyIn(elements);
      size := newSize;
      mark := Max(mark, newSize);
      peak := Max(peak, newSize);
      assert Contents() == before + elements;
    }

    /** `AppendData` of elements that do not lie in this buffer. */
    method AppendData(elements: seq<T>)
      requires Valid()
      modifies this, data
      ensures Valid() && Contents() == old(Contents()) + elements
      ensures data == old(data) || fresh(data)
      ensures peak == Max(old(peak), old(size) + |elements|)
      ensures old(Amortised()) ==> Amortised()
    {
      Append(elements, size);
    }

    /** `SetData` of elements that do not lie in this buffer. */
    method SetData(elements: seq<T>)
      requires Valid()
      modifies this, data
      ensures Valid() && Contents() == elements
      ensures data == old(data) || fresh(data)
      ensures peak == Max(old(peak), |elements|)
      ensures old(Amortised()) ==> Amortised()
    {
      var oldSize := size;
      size := 0;
      Append(elements, oldSize);
      if zeroOnFree && size < oldSize {
        ZeroTrailingData(oldSize - size);
      }
    }

    /** `SetSize`: keeps what fits; new cells hold whatever is there. */
    method SetSize(newSize: nat)
      requires Valid()
      modifies this, data
      ensures Valid() && |Contents()| == newSize
      ensures newSize <= |old(Contents())| ==> Contents() == old(Contents())[..newSize]
      ensures newSize > |old(Contents())| ==> old(Contents()) <= Contents()
      ensures data == old(data) || fresh(data)
      ensures peak == Max(old(peak), newSize)
      ensures old(Amortised()) ==> Amortised()
    {
      var oldSize := size;
      EnsureCapacityWithHeadroom(newSize, true, size);
      size := newSize;
      if zeroOnFree && size < oldSize {
        ZeroTrailingData(oldSize - size);
      }
      mark := Max(mark, newSize);
      peak := Max(peak, newSize);
    }

    /** `EnsureCapacity`: exactly what is asked for, so a run of these is not amortised. */
    method EnsureCapacity(wanted: nat)
      requires Valid()
      modifies this, data
      ensures Valid() && Contents() == old(Contents())
      ensures capacity == Max(old(capacity), wanted)
      ensures data == old(data) || fresh(data)
    {
      EnsureCapacityWithHeadroom(wanted, false, size);
    }

    /** `Clear` keeps the block. */
    method Clear()
      requires Valid()
      modifies this, data
      ensures Valid() && Contents() == [] && data == old(data) && capacity == old(capacity) && peak == old(peak)
      ensures zeroOnFree && data != null ==> forall k :: 0 <= k < data.Length ==> data[k] == zero
      ensures old(Amortised()) ==> Amortised()
    {
      if data != null {
        MaybeZeroCompleteBuffer();
      }
      size := 0;
    }
  }

  datatype Op<T> = Append(elements: seq<T>) | Set(elements: seq<T>) | Resize(size: nat) | Clear

  /** The size of the contents after a run that starts with `size` elements. */
  function SizeAfter<T>(size: nat, ops: seq<Op<T>>): nat
    decreases |ops|
  {
    if ops == [] then size else SizeAfter(SizeStep(size, ops[0]), ops[1..])
  }

  function SizeStep<T>(size: nat, op: Op<T>): nat {
    match op
    case Append(e) => size + |e|
    case Set(e) => |e|
    case Resize(n) => n
    case Clear => 0
  }

  /** The largest size on the way. */
  function PeakAfter<T>(size: nat, peak: nat, ops: seq<Op<T>>): nat
    decreases |ops|
  {
    if ops == [] then peak else PeakAfter(SizeStep(size, ops[0]), Max(peak, SizeStep(size, ops[0])), ops[1..])
  }

  /** What a plain sequence does; cells gained by resizing hold anything. */
  ghost predicate Follows<T(!new)>(s: seq<T>, op: Op<T>, r: seq<T>) {
    match op
    case Append(e) => r == s + e
    case Set(e) => r == e
    case Resize(n) => |r| == n && (if n <= |s| then r == s[..n] else s <= r)
    case Clear => r == []
  }

  method Apply<T(0,!new)>(b: BufferT<T>, op: Op<T>)
    requires b.Valid() && b.Amortised()
    modifies b, b.data
    ensures b.Valid() && b.Amortised() && (b.data == old(b.data) || fresh(b.data))
    ensures Follows(old(b.Contents()), op, b.Contents())
    ensures b.size == SizeStep(old(b.size), op) && b.peak == Max(old(b.peak), b.size)
  {
    match op {
      case Append(e) => b.AppendData(e);
      case Set(e) => b.SetData(e);
      case Resize(n) => b.SetSize(n);
      case Clear => b.Clear();
    }
    assert b.size == |b.Contents()|;
  }

  /**
    Over any run from empty the contents go the way of a plain sequence, reallocation copies at
    most three times the final capacity, and the capacity is at most one and a half times the
    largest size ever asked for.
   */
  method Replay<T(0,!new)>(zeroOnFree: bool, zero: T, ops: seq<Op<T>>) returns (b: BufferT<T>, ghost trace: seq<seq<T>>)
    ensures fresh(b) && b.Valid()
    ensures |trace| == |ops| + 1 && trace[0] == [] && trace[|ops|] == b.Contents()
    ensures forall i :: 0 <= i < |ops| ==> Follows(trace[i], ops[i], trace[i + 1])
    ensures |b.Contents()| == SizeAfter(0, ops)
    ensures b.copied <= 3 * b.capacity
    ensures 2 * b.capacity <= 3 * PeakAfter(0, 0, ops)
  {
    b := new BufferT(zeroOnFree, zero);
    trace := [[]];
    for i := 0 to |ops|
      invariant fresh(b) && b.Valid() && (b.data != null ==> fresh(b.data)) && b.Amortised()
      invariant |trace| == i + 1 && trace[0] == [] && trace[i] == b.Contents()
      invariant forall k :: 0 <= k < i ==> Follows(trace[k], ops[k], trace[k + 1])
      invariant SizeAfter(b.size, ops[i..]) == SizeAfter(0, ops)
      invariant PeakAfter(b.size, b.peak, ops[i..]) == PeakAfter(0, 0, ops)
    {
      assert ops[i..][1..] == ops[i + 1..];
      Apply(b, ops[i]);
      trace := trace + [b.Contents()];
    }
  }
}

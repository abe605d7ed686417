/**
 * The growable pointer list (src/list.c, src/list.h): a slot array with a
 * count and a capacity, grown by doubling when an add would fill it and
 * halved when a removal leaves it a quarter full.
 *
 * A slot holds a pointer, possibly NULL: Option<T>. The outcome of each
 * malloc/realloc is an explicit boolean input.
 */
module PointerList {
  import opened KasmTypes

  const INITIAL_CAPACITY: nat := 32

  datatype ListResult =
    | ListOk | ListAllocFailed | ListNullReference | ListNotInitialized | ListOutOfRange | ListDisposeFailed

  /** `s` without its element at `i`: what list_remove leaves. */
  function Removed<U>(s: seq<U>, i: nat): seq<U>
    requires i < |s|
  {
    s[..i] + s[i + 1..]
  }

  /** Removal keeps the order of the others: the elements before `i` stay,
      the ones after it move down one place. */
  lemma RemovedIndexing<U>(s: seq<U>, i: nat)
    requires i < |s|
    ensures |Removed(s, i)| == |s| - 1
    ensures forall k :: 0 <= k < i ==> Removed(s, i)[k] == s[k]
    ensures forall k :: i <= k < |s| - 1 ==> Removed(s, i)[k] == s[k + 1]
  {
  }

  /** Removal drops exactly one occurrence of the element at `i`. */
  lemma RemovedMultiset<U>(s: seq<U>, i: nat)
    requires i < |s|
    ensures multiset(Removed(s, i)) + multiset{s[i]} == multiset(s)
  {
    assert s == s[..i] + [s[i]] + s[i + 1..];
  }

  class List<T> {
    var values: array?<Option<T>>
    var count: nat
    var capacity: nat

    /** At most `capacity` elements; with a slot array, at least one slot is
        free, the array has exactly `capacity` slots and every slot past the
        elements holds NULL. */
    ghost predicate Valid()
      reads this, values
    {
      && count <= capacity
      && (values != null ==>
        && count < capacity && values.Length == capacity
        && forall i :: count <= i < values.Length ==> values[i] == None)
    }

    /** The elements, in order. */
    ghost function Contents(): seq<Option<T>>
      reads this, values
      requires Valid() && values != null
    {
      values[..count]
    }

    /** `List list = { 0 }`: no slots, no elements. */
    constructor ()
      ensures Valid() && values == null && count == 0 && capacity == 0
    {
      values := null;
      count := 0;
      capacity := 0;
    }

    /** list_init */
    method Init(allocOk: bool) returns (r: ListResult)
      modifies this
      ensures Valid() && count == 0 && capacity == INITIAL_CAPACITY
      ensures allocOk ==> r == ListOk && values != null && fresh(values) && Contents() == []
      ensures !allocOk ==> r == ListAllocFailed && values == null
    {
      count := 0;
      capacity := INITIAL_CAPACITY;
      if !allocOk {
        values := null;
        return ListAllocFailed;
      }
      values := new Option<T>[capacity](_ => None);
      r := ListOk;
    }

    /** list_resize, reallocating the slot array to `newCapacity` slots. A
        failed realloc leaves the list without slots. */
    method Resize(newCapacity: nat, allocOk: bool) returns (r: ListResult)
      requires Valid() && values != null && count < newCapacity
      modifies this
      ensures Valid() && count == old(count)
      ensures allocOk ==>
        && r == ListOk && capacity == newCapacity && values != null && fresh(values)
        && Contents() == old(Contents())
      ensures !allocOk ==> r == ListAllocFailed && values == null && capacity == old(capacity)
    {
      if !allocOk {
        values := null;
        return ListAllocFailed;
      }
      var resized := new Option<T>[newCapacity](_ => None);
      forall i | 0 <= i < count {
        resized[i] := values[i];
      }
      values := resized;
      capacity := newCapacity;
      r := ListOk;
    }

    /** list_add: append `value`, doubling the capacity first when the add
        would leave no free slot. */
    method Add(value: Option<T>, growOk: bool) returns (r: ListResult)
      requires Valid()
      modifies this, values
      ensures Valid()
      ensures old(values) == null ==>
        r == ListAllocFailed && values == null && count == old(count) && capacity == old(capacity)
      ensures old(values) != null && old(count) + 1 < old(capacity) ==>
        && r == ListOk && values == old(values) && capacity == old(capacity)
        && Contents() == old(Contents()) + [value]
      ensures old(values) != null && old(count) + 1 >= old(capacity) && growOk ==>
        && r == ListOk && fresh(values) && capacity == 2 * old(capacity)
        && Contents() == old(Contents()) + [value]
      ensures old(values) != null && old(count) + 1 >= old(capacity) && !growOk ==>
        r == ListAllocFailed && values == null && count == old(count) && capacity == old(capacity)
    {
      if values == null {
        return ListAllocFailed;
      }
      if count + 1 >= capacity {
        var resized := Resize(capacity * 2, growOk);
        if resized != ListOk {
          return ListAllocFailed;
        }
      }
      values[count] := value;
      count := count + 1;
      r := ListOk;
    }

    /** list_remove: shift the elements after `index` down, clear the freed
        slot, and halve the capacity when at most a quarter is in use and the
        realloc succeeds. */
    method Remove(index: nat, shrinkOk: bool) returns (r: ListResult)
      requires Valid()
      modifies this, values
      ensures Valid() && (values == old(values) || fresh(values))
      ensures old(values) == null ==>
        r == ListNotInitialized && values == null && count == old(count) && capacity == old(capacity)
      ensures old(values) != null && index >= old(count) ==>
        r == ListOutOfRange && values == old(values) && count == old(count) && capacity == old(capacity)
        && Contents() == old(Contents())
      ensures old(values) != null && index < old(count) ==>
        && r == ListOk && values != null && count == old(count) - 1
        && Contents() == Removed(old(Contents()), index)
        && capacity == (if count <= old(capacity) / 4 && shrinkOk then old(capacity) / 2 else old(capacity))
    {
      if values == null {
        return ListNotInitialized;
      }
      if index >= count {
        return ListOutOfRange;
      }
      ghost var before := values[..count];
      ShiftDown(index);
      values[count - 1] := None;
      count := count - 1;
      assert values[..count] == Removed(before, index);
      if count <= capacity / 4 && shrinkOk {
        Shrink();
      }
      r := ListOk;
    }

    /** The loop of list_remove moving each element after `index` down one
        slot. */
    method ShiftDown(index: nat)
      requires Valid() && values != null && index < count
      modifies values
      ensures values[..count - 1] == Removed(old(values[..count]), index)
      ensures values[count - 1..] == old(values[count - 1..])
    {
      ghost var before := values[..count];
      var i := index;
      while i < count - 1
        invariant index <= i <= count - 1
        invariant forall k :: 0 <= k < index ==> values[k] == before[k]
        invariant forall k :: index <= k < i ==> values[k] == before[k + 1]
        invariant forall k :: i <= k < values.Length ==> values[k] == old(values[k])
      {
        values[i] := values[i + 1];
        i := i + 1;
      }
      RemovedIndexing(before, index);
      forall k | 0 <= k < count - 1
        ensures values[k] == Removed(before, index)[k]
      {
      }
    }

    /** The shrinking realloc of list_remove, when it succeeds: half the
        slots, the same elements. */
    method Shrink()
      requires Valid() && values != null && count < capacity / 2
      modifies this
      ensures Valid() && values != null && fresh(values)
      ensures count == old(count) && capacity == old(capacity) / 2
      ensures Contents() == old(Contents())
    {
      var shrunk := new Option<T>[capacity / 2](_ => None);
      forall k | 0 <= k < count {
        shrunk[k] := values[k];
      }
      values := shrunk;
      capacity := capacity / 2;
    }

    /** list_remove_all: remove the first element until none is left; the
        index argument is ignored. */
    method RemoveAll(index: nat, shrinkOk: bool) returns (r: ListResult)
      requires Valid()
      modifies this, values
      ensures Valid()
      ensures old(values) == null && old(count) > 0 ==>
        r == ListNotInitialized && values == null && count == old(count)
      ensures old(values) != null || old(count) == 0 ==> r == ListOk && count == 0
    {
      while count > 0
        invariant Valid() && (values == old(values) || fresh(values))
        invariant old(values) != null ==> values != null
        invariant old(values) == null ==> values == null && count == old(count)
        decreases count
      {
        r := Remove(0, shrinkOk);
        if r != ListOk {
          return;
        }
      }
      r := ListOk;
    }

    /** list_dispose_child: remove the element at `index`; the pointer it held
        is freed, which is not modelled. */
    method DisposeChild(index: nat, shrinkOk: bool) returns (r: ListResult)
      requires Valid()
      modifies this, values
      ensures Valid() && (values == old(values) || fresh(values))
      ensures old(values) == null ==> r == ListNotInitialized && values == null && count == old(count)
      ensures old(values) != null && index >= old(count) ==>
        r == ListOutOfRange && values == old(values) && count == old(count) && Contents() == old(Contents())
      ensures old(values) != null && index < old(count) ==>
        r == ListOk && values != null && Contents() == Removed(old(Contents()), index)
    {
      if values == null {
        return ListNotInitialized;
      }
      if index >= count {
        return ListOutOfRange;
      }
      r := Remove(index, shrinkOk);
    }

    /** list_dispose_children: dispose of the last element as many times as
        there were elements. */
    method DisposeChildren(shrinkOk: bool) returns (r: ListResult)
      requires Valid()
      modifies this, values
      ensures Valid() && r == ListOk
      ensures old(values) != null ==> values != null && count == 0
      ensures old(values) == null ==> values == null && count == old(count)
    {
      if values != null {
        var n := count;
        var i := 0;
        while i < n
          invariant 0 <= i <= n && Valid() && values != null
          invariant values == old(values) || fresh(values)
          invariant count == n - i
        {
          var disposed := DisposeChild(count - 1, shrinkOk);
          if disposed != ListOk {
            return ListDisposeFailed;
          }
          i := i + 1;
        }
      }
      r := ListOk;
    }

    /** list_dispose: dispose of every element, then release the slot array. */
    method Dispose(shrinkOk: bool) returns (r: ListResult)
      requires Valid()
      modifies this, values
      ensures Valid() && r == ListOk && values == null
      ensures old(values) != null ==> count == 0
    {
      r := DisposeChildren(shrinkOk);
      if r != ListOk {
        return;
      }
      values := null;
    }
  }

  // ---------------------------------------------------------------------------
  // The slot footprint of list_add as written

  /** The elements, the recorded capacity and the number of slots actually
      allocated. */
  datatype Footprint = Footprint(count: nat, capacity: nat, slots: nat)

  /** list_add as written, with its realloc succeeding: list_resize passes
      the old capacity to realloc, so the slot count never changes while the
      recorded capacity doubles. */
  function AddAsWritten(f: Footprint): Footprint
  {
    if f.count + 1 >= f.capacity then Footprint(f.count + 1, f.capacity * 2, f.slots)
    else Footprint(f.count + 1, f.capacity, f.slots)
  }

  function AddsAsWritten(f: Footprint, n: nat): Footprint
  {
    if n == 0 then f else AddAsWritten(AddsAsWritten(f, n - 1))
  }

  /** After list_init there are 32 slots; the 32nd add records a capacity of
      64 without allocating, so the 33rd add stores into slot 32 of a
      32-slot array. */
  lemma {:induction false} AddsAsWrittenOverflow(n: nat)
    requires n <= 32
    ensures n < 32 ==> AddsAsWritten(Footprint(0, 32, 32), n) == Footprint(n, 32, 32)
    ensures n == 32 ==> AddsAsWritten(Footprint(0, 32, 32), n) == Footprint(32, 64, 32)
    ensures n == 32 ==> AddsAsWritten(Footprint(0, 32, 32), n).count >= AddsAsWritten(Footprint(0, 32, 32), n).slots
  {
    if n > 0 {
      AddsAsWrittenOverflow(n - 1);
    }
  }

  /** list_add as corrected (List.Resize allocates the new capacity): the
      slots always equal the capacity. */
  function AddCorrected(f: Footprint): Footprint
  {
    if f.count + 1 >= f.capacity then Footprint(f.count + 1, f.capacity * 2, f.capacity * 2)
    else Footprint(f.count + 1, f.capacity, f.slots)
  }

  function AddsCorrected(f: Footprint, n: nat): Footprint
  {
    if n == 0 then f else AddCorrected(AddsCorrected(f, n - 1))
  }

  /** With the correction, from a list with a free slot, every one of any
      number of adds stores into an allocated slot and leaves one free. */
  lemma {:induction false} AddsCorrectedStayInBounds(f: Footprint, n: nat)
    requires f.count < f.capacity == f.slots
    ensures var g := AddsCorrected(f, n);
      g.count == f.count + n && g.count < g.capacity == g.slots
  {
    if n > 0 {
      AddsCorrectedStayInBounds(f, n - 1);
    }
  }
}

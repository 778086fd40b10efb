/**
 Go slices: a window on a backing array that may be shared, re-sliced at the front and appended to in place.
 */
module Slices {

  /** The elements are `arr[off .. off + len]`; the capacity is what is left of `arr` from `off` on. */
  datatype Slice<!T> = Slice(arr: array<T>, off: nat, len: nat) {
    predicate Ok() {
      off + len <= arr.Length
    }

    ghost function Elems(): (s: seq<T>)
      requires Ok()
      reads arr
      ensures |s| == len && forall i :: 0 <= i < len ==> s[i] == arr[off + i]
    {
      arr[off..off + len]
    }

    /** s[1:] */
    function Tail(): (t: Slice<T>)
      requires Ok() && len > 0
      reads arr
      ensures t.Ok() && t.arr == arr && t.Elems() == Elems()[1..]
    {
      assert arr[off..off + len][1..] == arr[off + 1..off + len];
      Slice(arr, off + 1, len - 1)
    }
  }

  /** make([]T, 0, capacity) */
  method Make<T(0)>(capacity: nat) returns (s: Slice<T>)
    ensures s.Ok() && s.Elems() == [] && fresh(s.arr)
  {
    var arr := new T[capacity];
    s := Slice(arr, 0, 0);
  }

  /** append(s, x): in place while there is room, otherwise into a new, longer array. */
  method Append<T(0)>(s: Slice<T>, x: T) returns (t: Slice<T>)
    requires s.Ok()
    modifies s.arr
    ensures t.Ok() && t.Elems() == old(s.Elems()) + [x]
    ensures if s.off + s.len < s.arr.Length then t.arr == s.arr && t.off == s.off else fresh(t.arr)
  {
    if s.off + s.len < s.arr.Length {
      s.arr[s.off + s.len] := x;
      t := Slice(s.arr, s.off, s.len + 1);
    } else {
      var arr := new T[2 * s.len + 1];
      for i := 0 to s.len
        modifies arr
        invariant arr[..i] == s.Elems()[..i]
      {
        arr[i] := s.arr[s.off + i];
      }
      arr[s.len] := x;
      t := Slice(arr, 0, s.len + 1);
    }
  }
}

/**
 Go slices as the repository uses them: a header (backing array, length) that is copied
 freely while the backing array is shared.  Every slice modelled here starts at the front
 of its array, so the capacity is the array's length.
 */
module GoSlice {

  datatype Slice<T> = Slice(arr: array<T>, len: nat) {

    /** The header is in bounds and a reader of it sees `v` at the moment. */
    ghost predicate Shows(v: seq<T>)
      reads arr
    {
      len <= arr.Length && arr[..len] == v
    }
  }

  lemma ArrayPrefix<T>(a: array<T>, n: nat)
    requires n <= a.Length
    ensures a[..][..n] == a[..n]
  {
  }

  /** The elements left when the one at `i` is taken out. */
  function Without<T>(v: seq<T>, i: nat): seq<T>
    requires i < |v|
  {
    v[..i] + v[i + 1..]
  }

  /** What a reader that still holds the old header sees after an in-place removal at `i`:
      everything behind `i` moved down by one, the last element visible twice. */
  function Stale<T>(v: seq<T>, i: nat): seq<T>
    requires i < |v|
  {
    Without(v, i) + [v[|v| - 1]]
  }

  /** A backing array after the removal of position `i` from a slice of length `len`. */
  function Shift<T>(cells: seq<T>, i: nat, len: nat): (r: seq<T>)
    requires i < len <= |cells|
    ensures |r| == |cells|
    ensures forall k :: 0 <= k < |r| ==> r[k] == cells[if i <= k < len - 1 then k + 1 else k]
  {
    cells[..i] + cells[i + 1..len] + cells[len - 1..]
  }

  /** `append(nil, x)`; the runtime chooses the capacity. */
  method Singleton<T(0)>(x: T) returns (r: Slice<T>)
    ensures fresh(r.arr) && r.Shows([x])
  {
    var cap: nat :| 0 < cap;
    var arr := new T[cap];
    arr[0] := x;
    r := Slice(arr, 1);
  }

  /** `append(s, x)`.  With spare capacity the element is written into the shared array,
      otherwise the elements move to a fresh array whose capacity the runtime chooses. */
  method Append<T(0)>(s: Slice<T>, x: T, ghost v: seq<T>) returns (r: Slice<T>)
    requires s.Shows(v)
    modifies s.arr
    ensures r.Shows(v + [x]) && s.Shows(v)
    ensures if s.len < s.arr.Length then r == Slice(s.arr, s.len + 1) && s.arr[..] == old(s.arr[..])[s.len := x]
            else fresh(r.arr) && s.arr[..] == old(s.arr[..])
  {
    var n := s.len;
    if n < s.arr.Length {
      s.arr[n] := x;
      return Slice(s.arr, n + 1);
    }
    var cap: nat :| n < cap;
    var grown := new T[cap];
    for k := 0 to n
      invariant s.Shows(v) && grown[..k] == v[..k]
    {
      grown[k] := s.arr[k];
    }
    grown[n] := x;
    r := Slice(grown, n + 1);
  }

  /** `append(s[:i], s[i+1:]...)`: always fits, so it moves the tail down inside the shared array. */
  method RemoveAt<T>(s: Slice<T>, i: nat, ghost v: seq<T>) returns (r: Slice<T>)
    requires s.Shows(v) && i < s.len
    modifies s.arr
    ensures r == Slice(s.arr, s.len - 1)
    ensures r.Shows(Without(v, i)) && s.Shows(Stale(v, i))
    ensures s.arr[..] == Shift(old(s.arr[..]), i, s.len)
  {
    for j := i to s.len - 1
      invariant forall k :: 0 <= k < i || j <= k < s.arr.Length ==> s.arr[k] == old(s.arr[k])
      invariant forall k :: i <= k < j ==> s.arr[k] == old(s.arr[k + 1])
    {
      s.arr[j] := s.arr[j + 1];
    }
    r := Slice(s.arr, s.len - 1);
  }
}

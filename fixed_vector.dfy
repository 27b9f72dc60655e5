/**
 * `FixedVector<T>`: an owning array whose size is fixed when it is built.
 * Iterators are positions in the array (`begin()` is 0, `end()` is the
 * size); a reverse iterator is represented by its base position and reads
 * the element just before it, as `std::reverse_iterator` does.
 */
module FixedVectors {
  import opened Wrappers

  function Reversed<T>(s: seq<T>): (r: seq<T>)
    ensures |r| == |s|
    ensures forall k :: 0 <= k < |s| ==> r[k] == s[|s| - 1 - k]
  {
    if s == [] then [] else Reversed(s[1..]) + [s[0]]
  }

  class FixedVector<T(0)> {
    const size: nat
    const data: array<T>

    ghost predicate Valid()
      reads this
    {
      data.Length == size
    }

    /** The elements in order. */
    function Elements(): (r: seq<T>)
      reads this, data
      requires Valid()
      ensures |r| == size
    {
      data[..]
    }

    /** The default constructor: no elements. */
    constructor Empty()
      ensures Valid() && size == 0 && fresh(data)
    {
      size := 0;
      data := new T[0];
    }

    /** `FixedVector(size)`: `size` default-initialised elements. */
    constructor (size: nat)
      ensures Valid() && this.size == size && fresh(data)
    {
      this.size := size;
      data := new T[size];
    }

    function Begin(): (r: nat)
      ensures r == 0
    {
      0
    }

    /** `end()` lies `size()` past `begin()`. */
    function End(): (r: nat)
      reads this
      ensures r - Begin() == size
    {
      size
    }

    /** `operator[](i)` for reading. */
    method Get(i: nat) returns (x: T)
      requires Valid() && i < size
      ensures x == Elements()[i]
    {
      x := data[i];
    }

    /** `operator[](i)` for writing: element `i` alone changes. */
    method Put(i: nat, x: T)
      requires Valid() && i < size
      modifies data
      ensures Elements() == old(Elements())[i := x]
    {
      data[i] := x;
    }

    /** `front()`: the first element. */
    method Front() returns (x: T)
      requires Valid() && size > 0
      ensures x == Elements()[0]
    {
      x := data[0];
    }

    /** `back()`: the last element. */
    method Back() returns (x: T)
      requires Valid() && size > 0
      ensures x == Elements()[|Elements()| - 1]
    {
      x := data[size - 1];
    }

    /**
     * The elements a reverse iterator visits from base `from` until its base
     * reaches `to`: each step reads the element just before the base and
     * moves the base down by one. None when a read falls outside the array
     * or the base can never reach `to`.
     */
    function Traverse(from: int, to: int): (r: Option<seq<T>>)
      reads this, data
      requires Valid()
      ensures r.Some? ==> |r.value| == from - to
      decreases if from > to then from - to else 0
    {
      if from == to then Some([])
      else if from < to || !(0 <= from - 1 < size) then None
      else match Traverse(from - 1, to)
        case None => None
        case Some(rest) => Some([data[from - 1]] + rest)
    }

    /** A traversal is defined exactly when it moves down from a base within the array to one no lower than `begin()`. */
    lemma {:induction false} TraverseDefined(from: int, to: int)
      requires Valid()
      ensures Traverse(from, to).Some? <==> from == to || (Begin() <= to < from <= End())
      decreases if from > to then from - to else 0
    {
      if from > to && 0 <= from - 1 < size {
        TraverseDefined(from - 1, to);
      }
    }

    /**
     * As written, `rbegin()` wraps `begin()` and `rend()` wraps `end()`:
     * the traversal between them is defined only for the empty vector; in
     * any other its first read is just before `begin()`.
     */
    lemma ReverseTraversalAsWritten()
      requires Valid()
      ensures Traverse(Begin(), End()).Some? <==> size == 0
    {
      TraverseDefined(Begin(), End());
    }

    /** With `rbegin()` wrapping `end()` and `rend()` wrapping `begin()`, the traversal visits the elements last to first. */
    lemma ReverseTraversal()
      requires Valid()
      ensures Traverse(End(), Begin()) == Some(Reversed(Elements()))
    {
      TraverseSuffix(size);
      assert data[..size] == Elements();
    }

    lemma {:induction false} TraverseSuffix(from: nat)
      requires Valid() && from <= size
      ensures Traverse(from, 0) == Some(Reversed(data[..from]))
      decreases from
    {
      if from > 0 {
        TraverseSuffix(from - 1);
        var s := data[..from];
        var r := Traverse(from, 0).value;
        assert r == [data[from - 1]] + Reversed(data[..from - 1]);
        forall k | 0 <= k < from
          ensures r[k] == Reversed(s)[k]
        {
          if k > 0 {
            assert data[..from - 1][from - 1 - k] == s[from - 1 - k];
          }
        }
        assert r == Reversed(s);
      }
    }
  }
}

/** The two array containers of `profiler.cpp`: `FixedArray<T, N>`, an inline
    buffer of `N` slots with a fill count, and `Array<T>`, a heap buffer that
    doubles its capacity when a push finds it full. Both abort on a pop from
    an empty container and on an index at or beyond the capacity. */
module Containers {
  import opened Common

  /** `FixedArray<T, N>`: slots `data[0..N)`, of which `data[0..len)` are in use.
      `cap` is `N`. */
  class FixedArray<T> {
    const data: array<T>
    const cap: nat
    var len: nat

    ghost predicate Valid()
      reads this
    {
      data.Length == cap && len <= cap
    }

    /** The elements in use, bottom first. */
    function Contents(): (s: seq<T>)
      reads this, data
      requires Valid()
    {
      data[..len]
    }

    /** A zero-initialised `FixedArray<T, n>` (`= {}`): every slot holds `zero`. */
    constructor (n: nat, zero: T)
      ensures Valid() && fresh(data) && cap == n && len == 0
      ensures data[..] == seq(n, _ => zero)
    {
      data := new T[n](_ => zero);
      cap := n;
      len := 0;
    }

    /** `Push`: stores `element` at `data[len]` and bumps `len`; a full array
        silently drops the element. */
    method Push(element: T)
      requires Valid()
      modifies this, data
      ensures Valid()
      ensures old(len) < cap ==> len == old(len) + 1 && data[..] == old(data[..])[old(len) := element]
      ensures old(len) >= cap ==> len == old(len) && data[..] == old(data[..])
      ensures Contents() == if old(len) < cap then old(Contents()) + [element] else old(Contents())
    {
      if len >= cap {
        return;
      }
      data[len] := element;
      len := len + 1;
    }

    /** `Pop`: aborts when empty; otherwise drops the last element and returns
        it (its slot keeps its value). */
    method Pop() returns (r: Result<T>)
      requires Valid()
      modifies this
      ensures Valid()
      ensures old(len) == 0 ==> r.Fatal? && len == 0
      ensures old(len) > 0 ==> r == Ok(data[old(len) - 1]) && len == old(len) - 1
      ensures old(len) > 0 ==> old(Contents()) == Contents() + [r.value]
    {
      if len == 0 {
        return Fatal("Pop on an empty FixedArray");
      }
      len := len - 1;
      r := Ok(data[len]);
    }

    /** `Last`: the element on top, without removing it; aborts when empty. */
    method Last() returns (r: Result<T>)
      requires Valid()
      ensures len == 0 ==> r.Fatal?
      ensures len > 0 ==> r == Ok(data[len - 1]) && r.value == Contents()[|Contents()| - 1]
    {
      if len == 0 {
        return Fatal("Last on an empty FixedArray");
      }
      r := Ok(data[len - 1]);
    }

    /** `operator[]`: the slot `id`; the bound checked is the capacity, not
        the fill count, so a slot that was never pushed (or was popped) can
        be read. */
    method At(id: u64) returns (r: Result<T>)
      requires Valid()
      ensures id >= cap <==> r.Fatal?
      ensures id < cap ==> r == Ok(data[id])
    {
      if id >= cap {
        return Fatal("FixedArray index out of range");
      }
      r := Ok(data[id]);
    }
  }

  /** `Array<T>`: a heap buffer of `cap` slots of which `data[0..len)` are in
      use; a full push doubles `cap` and moves the elements to a buffer of
      the new size (`realloc`). */
  class Array<T> {
    var data: array<T>
    var len: u64
    var cap: u64

    ghost predicate Valid()
      reads this
    {
      data.Length == cap && len <= cap
    }

    function Contents(): (s: seq<T>)
      reads this, data
      requires Valid()
    {
      data[..len]
    }

    constructor (n: u64, filler: T)
      ensures Valid() && fresh(data) && cap == n && len == 0
    {
      data := new T[n](_ => filler);
      cap := n;
      len := 0;
    }

    /** `Push`: when full, doubles `cap` first; then appends `element`. */
    method Push(element: T)
      requires Valid()
      requires cap > 0
      requires len < cap || 2 * cap < U64_MODULUS
      modifies this, data
      ensures Valid() && cap > 0
      ensures cap == if old(len) < old(cap) then old(cap) else 2 * old(cap)
      ensures len == old(len) + 1
      ensures Contents() == old(Contents()) + [element]
      ensures old(len) < old(cap) ==> data == old(data)
      ensures old(len) >= old(cap) ==> fresh(data)
    {
      if len >= cap {
        var grown := new T[2 * cap](_ => element);
        forall i | 0 <= i < cap {
          grown[i] := data[i];
        }
        data := grown;
        cap := 2 * cap;
      }
      data[len] := element;
      len := len + 1;
    }

    /** `Pop`: aborts when empty; otherwise drops and returns the last element. */
    method Pop() returns (r: Result<T>)
      requires Valid()
      modifies this
      ensures Valid() && data == old(data) && cap == old(cap)
      ensures old(len) == 0 ==> r.Fatal? && len == 0
      ensures old(len) > 0 ==> r == Ok(data[old(len) - 1]) && len == old(len) - 1
      ensures old(len) > 0 ==> old(Contents()) == Contents() + [r.value]
    {
      if len == 0 {
        return Fatal("Pop on an empty Array");
      }
      len := len - 1;
      r := Ok(data[len]);
    }

    /** `operator[]`: bounds-checked against `cap`, not `len`. */
    method At(id: u64) returns (r: Result<T>)
      requires Valid()
      ensures id >= cap <==> r.Fatal?
      ensures id < cap ==> r == Ok(data[id])
    {
      if id >= cap {
        return Fatal("Array index out of range");
      }
      r := Ok(data[id]);
    }
  }
}

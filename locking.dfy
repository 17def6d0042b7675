/**
 * The load mutex of src/mutex.ts: one byte of shared memory that is free at
 * 0 and held at 1. `acquire` compare-and-swaps it from 0 to 1 and reports
 * whether it did; `release` stores 0. Only the sequential behaviour of the
 * cell is modelled; the atomicity across threads is not.
 */
module Locking {
  /** An element of a `Uint8Array` is an octet, as in `Utf8`. */
  import opened Utf8

  /**
   * `Atomics.compareExchange` on one cell: the value read, and the value the
   * cell holds afterwards, which is the replacement exactly when the value
   * read was the expected one.
   */
  function CompareExchange(cell: Byte, expected: Byte, replacement: Byte): (r: (Byte, Byte))
    ensures r.0 == cell
    ensures r.0 == expected ==> r.1 == replacement
    ensures r.0 != expected ==> r.1 == cell
  {
    (cell, if cell == expected then replacement else cell)
  }

  class Mutex {
    var cell: Byte

    /** The cell only ever holds 0 (free) or 1 (held). */
    ghost predicate Valid()
      reads this
    {
      cell == 0 || cell == 1
    }

    predicate Held()
      reads this
    {
      cell != 0
    }

    /** A new `Uint8Array` is zero-filled: the mutex starts free. */
    constructor ()
      ensures Valid() && !Held()
    {
      cell := 0;
    }

    /** `acquire()`: takes a free mutex and answers true; on a held one answers false and changes nothing. */
    method Acquire() returns (acquired: bool)
      requires Valid()
      modifies this
      ensures Valid() && Held()
      ensures acquired <==> !old(Held())
      ensures !acquired ==> cell == old(cell)
    {
      var (previous, next) := CompareExchange(cell, 0, 1);
      cell := next;
      acquired := previous == 0;
    }

    /** `release()`: frees the mutex whatever its state, so a second release changes nothing. */
    method Release()
      modifies this
      ensures Valid() && !Held()
    {
      cell := 0;
    }
  }

  /**
   * A use of the mutex from start to end: the first acquire succeeds, a
   * second one fails while it is held, and after a release (twice, which is
   * harmless) it can be acquired again.
   */
  method AcquireReleaseCycle() returns (first: bool, second: bool, third: bool)
    ensures first && !second && third
  {
    var m := new Mutex();
    first := m.Acquire();
    second := m.Acquire();
    m.Release();
    m.Release();
    third := m.Acquire();
  }
}

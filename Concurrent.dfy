/**
 * top.limitart.concurrent.ThreadLocalHolder, as one thread sees it: a cell
 * that is empty (ThreadLocal.get() gives null) or holds a value.
 */
module Concurrent {
  import opened Wrappers

  /** The NullPointerException Conditions.notNull throws on a null argument. */
  datatype NullValue = NullValue

  class ThreadLocalHolder<T> {
    var ref: Option<T>

    /** create(): a holder whose cell is empty in every thread. */
    constructor Create()
      ensures ref == None
    {
      ref := None;
    }

    /** get(): the value held, or null. */
    method Get() returns (t: Option<T>)
      ensures t == ref
    {
      t := ref;
    }

    /** set(t): hold t, or empty the cell when t is null; returns this holder for chaining. */
    method Set(t: Option<T>) returns (self: ThreadLocalHolder<T>)
      modifies this
      ensures self == this
      ensures ref == t
    {
      if t.None? {
        ref := None;
      } else {
        ref := Some(t.value);
      }
      self := this;
    }

    /**
     * getWithInitialize(init): the value held; when the cell is empty, the
     * value `init` produces, stored first. A null from `init` is rejected and
     * the cell stays empty.
     */
    method GetWithInitialize(init: () -> Option<T>) returns (r: Result<T, NullValue>)
      modifies this
      ensures old(ref).Some? ==> r == Success(old(ref).value) && ref == old(ref)
      ensures old(ref).None? && init().None? ==> r == Failure(NullValue) && ref == None
      ensures old(ref).None? && init().Some? ==> r == Success(init().value) && ref == init()
      ensures r.Success? ==> ref == Some(r.value)
    {
      var t := Get();
      if t.None? {
        var made := init();
        if made.None? {
          return Failure(NullValue);
        }
        t := made;
        var _ := Set(t);
      }
      return Success(t.value);
    }
  }

  /**
   * Initialising twice: the second call returns what the first stored, whatever
   * its own `init` would produce.
   */
  method InitializeTwice<T>(holder: ThreadLocalHolder<T>, init: () -> Option<T>, other: () -> Option<T>)
    returns (first: Result<T, NullValue>, second: Result<T, NullValue>)
    modifies holder
    ensures first.Success? ==> second == first
    ensures old(holder.ref).None? && init().Some? ==> first == Success(init().value)
  {
    first := holder.GetWithInitialize(init);
    second := holder.GetWithInitialize(other);
  }

  /** Setting null after a value empties the cell again; set calls chain on one holder. */
  method SetThenClear<T>(holder: ThreadLocalHolder<T>, t: T) returns (seen: Option<T>, cleared: Option<T>)
    modifies holder
    ensures seen == Some(t) && cleared == None
  {
    var same := holder.Set(Some(t));
    seen := same.Get();
    var again := same.Set(None);
    cleared := again.Get();
  }
}

/**
 * org.slingerxv.limitart.collections.ConcurrentHashSet: a set kept as the key
 * set of a backing map whose every value is the one marker object PRESENT.
 * Only the sequential behaviour is modelled; elements are never null.
 */
module Collections {
  import opened Wrappers
  import MapKeys
  import opened JavaInt

  /** The shared marker value PRESENT. */
  datatype Marker = Present

  /** What Map.put and Map.remove return: the previous value, or null. */
  function Previous<E>(m: map<E, Marker>, e: E): (previous: Option<Marker>)
    ensures previous.Some? <==> e in m
  {
    if e in m then Some(m[e]) else None
  }

  class ConcurrentHashSet<E(==)> {
    var backing: map<E, Marker>

    /** The elements of the set: the keys of the backing map. */
    ghost function Elements(): set<E>
      reads this
    {
      backing.Keys
    }

    /** ConcurrentHashSet(): an empty set. */
    constructor ()
      ensures Elements() == {}
    {
      backing := map[];
    }

    /** ConcurrentHashSet(initialCapacity): an empty set; the capacity is only a sizing hint. */
    constructor WithCapacity(initialCapacity: nat)
      ensures Elements() == {}
    {
      backing := map[];
    }

    /** iterator(): each element once, in the backing map's order. */
    method Iterator() returns (elements: seq<E>)
      ensures |elements| == |Elements()|
      ensures forall e :: e in elements <==> e in Elements()
      ensures forall i, j :: 0 <= i < j < |elements| ==> elements[i] != elements[j]
    {
      elements := MapKeys.Enumerate(backing);
    }

    /** size(): the number of elements, reported as at most Integer.MAX_VALUE. */
    method Size() returns (n: nat)
      ensures n <= INT_MAX
      ensures n == |Elements()| || (n == INT_MAX && |Elements()| > INT_MAX)
    {
      n := if |backing| > INT_MAX then INT_MAX else |backing|;
    }

    method IsEmpty() returns (empty: bool)
      ensures empty <==> Elements() == {}
    {
      empty := |backing| == 0;
    }

    method Contains(o: E) returns (present: bool)
      ensures present <==> o in Elements()
    {
      present := o in backing;
    }

    /** add(e): put PRESENT under e; true when put found no previous value. */
    method Add(e: E) returns (added: bool)
      modifies this
      ensures added <==> e !in old(Elements())
      ensures Elements() == old(Elements()) + {e}
    {
      var previous := Previous(backing, e);
      backing := backing[e := Present];
      added := previous == None;
    }

    /** remove(o): remove o; true when the value removed was PRESENT. */
    method Remove(o: E) returns (removed: bool)
      modifies this
      ensures removed <==> o in old(Elements())
      ensures Elements() == old(Elements()) - {o}
    {
      var previous := Previous(backing, o);
      assert previous.Some? ==> previous.value == Present;
      backing := backing - {o};
      removed := previous == Some(Present);
    }

    method Clear()
      modifies this
      ensures Elements() == {}
    {
      backing := map[];
    }
  }

  /**
   * Adding an element twice: the second add reports false and changes
   * nothing; removing it afterwards gives back the set as it was before,
   * when the element was not in it.
   */
  method AddAddRemove<E(==)>(s: ConcurrentHashSet<E>, e: E) returns (first: bool, second: bool, removed: bool)
    modifies s
    ensures first <==> e !in old(s.Elements())
    ensures !second && removed
    ensures first ==> s.Elements() == old(s.Elements())
  {
    first := s.Add(e);
    var between := s.Elements();
    second := s.Add(e);
    assert s.Elements() == between;
    removed := s.Remove(e);
  }
}

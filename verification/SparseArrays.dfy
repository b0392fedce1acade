/** The growable sparse array of src/array.c and its two iterators from src/sconf.c. */
module SparseArrays {

  import opened Basics

  /** The slots of an array, read as the map from index to node that it stands for. */
  ghost function Filled<T>(slots: seq<Option<T>>): map<nat, T> {
    map i: nat | i < |slots| && slots[i].Some? :: slots[i].value
  }

  /** The filled slots at or after position i, in the order of their indices. */
  ghost function FilledFrom<T>(slots: seq<Option<T>>, i: nat): seq<(nat, T)>
    decreases |slots| - i
  {
    if i >= |slots| then []
    else if slots[i].Some? then [(i, slots[i].value)] + FilledFrom(slots, i + 1)
    else FilledFrom(slots, i + 1)
  }

  /** An enumeration of exactly the map's entries, by strictly increasing index. */
  ghost predicate Enumerates<T>(visits: seq<(nat, T)>, m: map<nat, T>) {
    && (forall j, k :: 0 <= j < k < |visits| ==> visits[j].0 < visits[k].0)
    && (forall k :: 0 <= k < |visits| ==> visits[k].0 in m && m[visits[k].0] == visits[k].1)
    && (forall i :: i in m ==> (i, m[i]) in visits)
  }

  /** Visits of filled slots at or after position i, by strictly increasing index. */
  ghost predicate Lists<T>(v: seq<(nat, T)>, slots: seq<Option<T>>, i: nat) {
    && (forall k :: 0 <= k < |v| ==> i <= v[k].0 < |slots| && slots[v[k].0] == Some(v[k].1))
    && (forall j, k :: 0 <= j < k < |v| ==> v[j].0 < v[k].0)
  }

  lemma {:induction false} FilledFromSound<T>(slots: seq<Option<T>>, i: nat)
    ensures Lists(FilledFrom(slots, i), slots, i)
    decreases |slots| - i
  {
    if i < |slots| {
      FilledFromSound(slots, i + 1);
      var v, rest := FilledFrom(slots, i), FilledFrom(slots, i + 1);
      if slots[i].Some? {
        assert v[0] == (i, slots[i].value);
        assert forall k :: 0 < k < |v| ==> v[k] == rest[k - 1];
      }
    }
  }

  lemma {:induction false} FilledFromComplete<T>(slots: seq<Option<T>>, i: nat, j: nat)
    requires i <= j < |slots| && slots[j].Some?
    ensures (j, slots[j].value) in FilledFrom(slots, i)
    decreases |slots| - i
  {
    if i < j {
      FilledFromComplete(slots, i + 1, j);
    }
  }

  /** The walk over the slots enumerates the map: each filled index once, in increasing order. */
  lemma FilledFromEnumerates<T>(slots: seq<Option<T>>)
    ensures Enumerates(FilledFrom(slots, 0), Filled(slots))
  {
    FilledFromSound(slots, 0);
    forall i | i in Filled(slots)
      ensures (i, slots[i].value) in FilledFrom(slots, 0)
    {
      FilledFromComplete(slots, 0, i);
    }
  }

  class SconfArray<T> {
    var entries: array<Option<T>>
    var size: uint32

    ghost predicate Valid()
      reads this, entries
    {
      1 <= size == entries.Length <= MAX_SIZE
    }

    ghost function Slots(): seq<Option<T>>
      reads this, entries
    {
      entries[..]
    }

    constructor Allocate(size: uint32)
      requires 1 <= size <= MAX_SIZE
      ensures Valid() && fresh(entries) && this.size == size
      ensures Filled(Slots()) == map[]
    {
      entries := new Option<T>[size](_ => None);
      this.size := size;
    }

    /** `sconf_array_create`: NULL for a size outside 1..65536, otherwise all slots empty. */
    static method Create(size: uint32) returns (a: SconfArray?<T>)
      ensures a == null <==> size == 0 || size > MAX_SIZE
      ensures a != null ==> a.Valid() && fresh(a) && fresh(a.entries) && a.size == size
      ensures a != null ==> Filled(a.Slots()) == map[]
    {
      if size == 0 {
        return null;
      }
      if size > MAX_SIZE {
        return null;
      }
      a := new SconfArray.Allocate(size);
    }

    /** `sconf_array_grow`: keeps every slot, adds empty ones; refuses above the maximum. */
    method Grow(sizeNeeded: uint32) returns (ok: bool)
      requires Valid()
      modifies this
      ensures Valid() && (entries == old(entries) || fresh(entries))
      ensures ok <==> sizeNeeded <= MAX_SIZE
      ensures size == if ok && old(size) < sizeNeeded then sizeNeeded else old(size)
      ensures Slots()[..old(size)] == old(Slots())
      ensures forall i :: old(size) <= i < size ==> Slots()[i] == None
    {
      if size >= sizeNeeded {
        return true;
      }
      if sizeNeeded > MAX_SIZE {
        return false;
      }
      var grown := new Option<T>[sizeNeeded];
      forall i | 0 <= i < size {
        grown[i] := entries[i];
      }
      var i := size;
      while i < sizeNeeded
        invariant size <= i <= sizeNeeded
        invariant forall k :: 0 <= k < size ==> grown[k] == entries[k]
        invariant forall k :: size <= k < i ==> grown[k] == None
        modifies grown
      {
        grown[i] := None;
        i := i + 1;
      }
      entries := grown;
      size := sizeNeeded;
      return true;
    }

    /**
     * `sconf_array_insert`: fills a free slot and never overwrites. The C code computes
     * `index + 1` in 32 bits, so the largest index is not allowed.
     */
    method Insert(index: uint32, node: T) returns (ok: bool)
      requires Valid()
      requires index + 1 < 0x1_0000_0000
      modifies this, entries
      ensures Valid() && (entries == old(entries) || fresh(entries))
      ensures ok <==> index < MAX_SIZE && index !in old(Filled(Slots()))
      ensures Filled(Slots()) == if ok then old(Filled(Slots()))[index := node] else old(Filled(Slots()))
      ensures size == if ok && old(size) <= index then index + 1 else old(size)
    {
      ghost var before := Slots();
      var grown := Grow(index + 1);
      assert forall i :: 0 <= i < |before| ==> Slots()[..|before|][i] == before[i];
      if !grown {
        assert Slots() == before;
        return false;
      }
      assert Filled(Slots()) == Filled(before);
      if entries[index].Some? {
        return false;
      }
      ghost var mid := Slots();
      entries[index] := Some(node);
      assert Slots() == mid[index := Some(node)];
      return true;
    }

    /** `sconf_node_array_search` on the array: an index past the end finds nothing. */
    method Search(index: uint32) returns (found: Option<T>)
      requires Valid()
      ensures found == if index in Filled(Slots()) then Some(Filled(Slots())[index]) else None
    {
      if size > index {
        found := entries[index];
      } else {
        found := None;
      }
    }

    /**
     * `sconf_node_array_next`: the first filled slot at or after `next`, with the position to
     * continue from. On the end, the position is left alone.
     */
    method Next(next: uint32) returns (node: Option<T>, next': uint32)
      requires Valid()
      ensures node.None? ==> next' == next && FilledFrom(Slots(), next) == []
      ensures node.Some? ==> next < next' <= size
      ensures node.Some? ==>
        FilledFrom(Slots(), next) == [(next' - 1, node.value)] + FilledFrom(Slots(), next')
    {
      var i := next;
      while i < size
        invariant next <= i && (i <= size || i == next)
        invariant FilledFrom(Slots(), next) == FilledFrom(Slots(), i)
      {
        if entries[i].None? {
          i := i + 1;
          continue;
        }
        return entries[i], i + 1;
      }
      return None, next;
    }

    /** Calling `Next` from position 0 until it reports the end hands out every filled slot once, in order. */
    method VisitAll() returns (visits: seq<(nat, T)>)
      requires Valid()
      ensures visits == FilledFrom(Slots(), 0)
      ensures Enumerates(visits, Filled(Slots()))
    {
      visits := [];
      var next: uint32 := 0;
      var node: Option<T>;
      node, next := Next(next);
      while node.Some?
        invariant node.None? ==> visits == FilledFrom(Slots(), 0)
        invariant node.Some? ==> 0 < next <= size
        invariant node.Some? ==>
          visits + [(next - 1, node.value)] + FilledFrom(Slots(), next) == FilledFrom(Slots(), 0)
        decreases if node.Some? then size - next + 1 else 0
      {
        ghost var before, tail := visits + [(next - 1, node.value)], FilledFrom(Slots(), next);
        visits := visits + [(next - 1, node.value)];
        node, next := Next(next);
        if node.Some? {
          assert before + tail == visits + [(next - 1, node.value)] + FilledFrom(Slots(), next);
        }
      }
      FilledFromEnumerates(Slots());
    }

    /**
     * `sconf_node_array_foreach`: passes the filled slots to the callback in order and stops at
     * the first one for which the callback does not succeed.
     */
    method Foreach(succeeds: (nat, T) -> bool) returns (ok: bool, visits: seq<(nat, T)>)
      requires Valid()
      ensures ok ==> visits == FilledFrom(Slots(), 0)
      ensures ok ==> forall v :: v in visits ==> succeeds(v.0, v.1)
      ensures !ok ==> visits <= FilledFrom(Slots(), 0) && visits != []
      ensures !ok ==> var last := visits[|visits| - 1]; !succeeds(last.0, last.1)
      ensures !ok ==> forall v :: v in visits[..|visits| - 1] ==> succeeds(v.0, v.1)
    {
      visits := [];
      var i: uint32 := 0;
      while i < size
        invariant i <= size
        invariant visits + FilledFrom(Slots(), i) == FilledFrom(Slots(), 0)
        invariant forall v :: v in visits ==> succeeds(v.0, v.1)
      {
        if entries[i].None? {
          i := i + 1;
          continue;
        }
        ghost var before, tail := visits, FilledFrom(Slots(), i + 1);
        visits := visits + [(i as nat, entries[i].value)];
        assert visits + tail == before + ([(i as nat, entries[i].value)] + tail);
        if !succeeds(i, entries[i].value) {
          assert visits[..|visits| - 1] == before;
          return false, visits;
        }
        i := i + 1;
      }
      assert visits + [] == visits;
      return true, visits;
    }
  }
}

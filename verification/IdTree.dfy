/** dbus/manager/helpers.c: the allocator of request ids, a GLib balanced tree visited in
    ascending key order. The tree is represented by its in-order traversal. */
module IdTree {
  import opened Wrappers

  /** gpiodbus_id_cmp */
  function Compare(a: int, b: int): int {
    if a < b then -1 else if a > b then 1 else 0
  }

  /** The order of numbers; zero only for equal ids. */
  lemma CompareIsOrder(a: int, b: int)
    ensures (Compare(a, b) == -1 <==> a < b) && (Compare(a, b) == 0 <==> a == b) && (Compare(a, b) == 1 <==> a > b)
  {
  }

  ghost predicate Ascending(keys: seq<int>) {
    forall i, j :: 0 <= i < j < |keys| ==> Compare(keys[i], keys[j]) < 0
  }

  ghost function Members(keys: seq<int>): set<int> {
    set k | k in keys
  }

  /** The least non-negative id that is not live. */
  ghost predicate IsLeastFree(id: int, live: set<int>) {
    id >= 0 && id !in live && forall j :: 0 <= j < id ==> j in live
  }

  /** A new id never exceeds the number of live ids. */
  lemma {:induction false} LeastFreeIsSmall(id: int, live: set<int>)
    requires id >= 0 && forall j :: 0 <= j < id ==> j in live
    ensures id <= |live|
    decreases id
  {
    if id > 0 {
      LeastFreeIsSmall(id - 1, live - {id - 1});
    }
  }

  lemma InsertKey(keys: seq<int>, p: nat, id: int)
    requires Ascending(keys) && p <= |keys| && id !in keys
    requires forall j :: 0 <= j < p ==> keys[j] < id
    requires p < |keys| ==> keys[p] >= id
    ensures Ascending(keys[..p] + [id] + keys[p..])
    ensures Members(keys[..p] + [id] + keys[p..]) == Members(keys) + {id}
  {
    var after := keys[..p] + [id] + keys[p..];
    assert after[p] == id;
    forall j | p <= j < |keys| ensures id < keys[j] && after[j + 1] == keys[j] {
      assert keys[p] <= keys[j];
    }
    forall k | k in keys ensures k in after {
      var i :| 0 <= i < |keys| && keys[i] == k;
      assert after[if i < p then i else i + 1] == k;
    }
  }

  lemma RemoveKey(keys: seq<int>, p: nat)
    requires Ascending(keys) && p < |keys|
    ensures Ascending(keys[..p] + keys[p + 1..])
    ensures Members(keys[..p] + keys[p + 1..]) == Members(keys) - {keys[p]}
  {
    var after := keys[..p] + keys[p + 1..];
    forall j | 0 <= j < |after| ensures after[j] == keys[if j < p then j else j + 1] && after[j] != keys[p] {
      assert j < p ==> keys[j] < keys[p];
      assert j >= p ==> keys[p] < keys[j + 1];
    }
    forall k | k in keys && k != keys[p] ensures k in after {
      var i :| 0 <= i < |keys| && keys[i] == k;
      assert after[if i < p then i else i - 1] == k;
    }
  }

  class IdTree {
    var keys: seq<int>

    ghost predicate Valid()
      reads this
    {
      Ascending(keys)
    }

    constructor ()
      ensures Valid() && keys == []
    {
      keys := [];
    }

    /** g_tree_foreach with find_lowest: one ascending pass. */
    method FindLowest() returns (lowest: int)
      requires Valid()
      ensures IsLeastFree(lowest, Members(keys))
    {
      lowest := 0;
      for i := 0 to |keys|
        invariant lowest >= 0
        invariant forall j :: 0 <= j < lowest ==> j in keys[..i]
        invariant lowest !in keys[..i]
      {
        assert keys[..i + 1] == keys[..i] + [keys[i]];
        assert forall j :: 0 <= j < i ==> keys[j] < keys[i];
        if lowest == keys[i] {
          lowest := lowest + 1;
        }
      }
      assert keys[..|keys|] == keys;
    }

    /** g_tree_insert of a key that is not there yet. */
    method Insert(id: int)
      requires Valid() && id !in keys
      modifies this
      ensures Valid() && Members(keys) == Members(old(keys)) + {id}
    {
      var p := 0;
      while p < |keys| && Compare(keys[p], id) < 0
        invariant 0 <= p <= |keys| && forall j :: 0 <= j < p ==> keys[j] < id
      {
        p := p + 1;
      }
      InsertKey(keys, p, id);
      keys := keys[..p] + [id] + keys[p..];
    }

    /** gpiodbus_id_alloc */
    method Alloc() returns (id: int)
      requires Valid()
      modifies this
      ensures Valid() && IsLeastFree(id, Members(old(keys)))
      ensures id >= 0 && id !in Members(old(keys)) && forall j :: 0 <= j < id ==> j in Members(old(keys))
      ensures Members(keys) == Members(old(keys)) + {id}
    {
      id := FindLowest();
      Insert(id);
    }

    /** gpiodbus_id_free: the caller owns the id. */
    method Free(id: int)
      requires Valid() && id in keys
      modifies this
      ensures Valid() && Members(keys) == Members(old(keys)) - {id}
    {
      var p := 0;
      while keys[p] != id
        invariant 0 <= p < |keys| && id in keys[p..]
        decreases |keys| - p
      {
        p := p + 1;
      }
      RemoveKey(keys, p);
      keys := keys[..p] + keys[p + 1..];
    }
  }
}

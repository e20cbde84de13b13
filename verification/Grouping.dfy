/** The shape that both grouping loops of lib/line-config.c share: walk the lines in order and,
    at the first line of each class, emit one attribute whose mask is the whole class. */
module Grouping {
  import opened Wrappers
  import opened Uapi

  /** Line i is the first of its class. A line whose key is None takes no attribute. */
  ghost predicate Leads<K>(keys: seq<Option<K>>, i: nat)
    requires i < |keys|
  {
    keys[i].Some? && forall j :: 0 <= j < i ==> keys[j] != keys[i]
  }

  ghost function ClassOf<K>(keys: seq<Option<K>>, i: nat): Word
    requires i < |keys|
  {
    set j: nat | j < |keys| && keys[j] == keys[i]
  }

  /** What line i contributes. */
  ghost function Emitted<K>(keys: seq<Option<K>>, values: seq<Attribute>, i: nat): seq<ConfigAttribute>
    requires i < |keys| == |values|
  {
    if Leads(keys, i) then [ConfigAttribute(values[i], ClassOf(keys, i))] else []
  }

  /** What has been emitted once the first n lines are dealt with. */
  ghost function Block<K>(keys: seq<Option<K>>, values: seq<Attribute>, n: nat): seq<ConfigAttribute>
    requires n <= |keys| == |values|
  {
    if n == 0 then []
    else Block(keys, values, n - 1) + Emitted(keys, values, n - 1)
  }

  ghost function Distinct<K>(keys: seq<Option<K>>): set<K> {
    set i | 0 <= i < |keys| && keys[i].Some? :: keys[i].value
  }

  lemma DistinctGrows<K>(keys: seq<Option<K>>, i: nat)
    requires i < |keys|
    ensures Distinct(keys[..i + 1]) == Distinct(keys[..i]) + if keys[i].Some? then {keys[i].value} else {}
    ensures Leads(keys, i) <==> keys[i].Some? && keys[i].value !in Distinct(keys[..i])
  {
    var before, after := keys[..i], keys[..i + 1];
    assert forall j :: 0 <= j < i ==> before[j] == keys[j] && after[j] == keys[j];
    assert after[i] == keys[i];
    forall k | k in Distinct(after) ensures k in Distinct(before) || keys[i] == Some(k) {
      var j :| 0 <= j < |after| && after[j] == Some(k);
      assert j < i ==> before[j] == Some(k);
    }
    forall k | k in Distinct(before) ensures k in Distinct(after) {
      var j :| 0 <= j < |before| && before[j] == Some(k);
      assert after[j] == Some(k);
    }
    if keys[i].Some? {
      assert after[i].value in Distinct(after);
      if keys[i].value !in Distinct(before) {
        forall j | 0 <= j < i ensures keys[j] != keys[i] {
          assert before[j].Some? ==> before[j].value in Distinct(before);
        }
      }
    }
  }

  /** Lines of one class get one value, and all values are of one kind. */
  ghost predicate Consistent<K>(keys: seq<Option<K>>, values: seq<Attribute>, kind: Kind) {
    |keys| == |values| &&
    (forall i :: 0 <= i < |values| ==> KindOf(values[i]) == kind) &&
    (forall i, j :: 0 <= i < |keys| && 0 <= j < |keys| && keys[i] == keys[j] ==> values[i] == values[j])
  }

  /** A leading line brings one more distinct key, any other line none. */
  lemma DistinctCount<K>(keys: seq<Option<K>>, i: nat)
    requires i < |keys|
    ensures |Distinct(keys[..i + 1])| == |Distinct(keys[..i])| + if Leads(keys, i) then 1 else 0
  {
    var before, after := Distinct(keys[..i]), Distinct(keys[..i + 1]);
    DistinctGrows(keys, i);
    if Leads(keys, i) {
      assert after == before + {keys[i].value} && keys[i].value !in before;
    } else {
      assert after == before;
    }
  }

  /** One attribute is emitted per distinct key. */
  lemma {:induction false} BlockSize<K>(keys: seq<Option<K>>, values: seq<Attribute>, n: nat)
    requires n <= |keys| == |values|
    ensures |Block(keys, values, n)| == |Distinct(keys[..n])|
  {
    if n > 0 {
      var i := n - 1;
      BlockSize(keys, values, i);
      DistinctCount(keys, i);
      assert |Emitted(keys, values, i)| == if Leads(keys, i) then 1 else 0;
    }
  }

  lemma {:induction false} BlockGrows<K>(keys: seq<Option<K>>, values: seq<Attribute>, m: nat, n: nat)
    requires m <= n <= |keys| == |values|
    ensures Block(keys, values, m) <= Block(keys, values, n)
    decreases n
  {
    if m < n {
      BlockGrows(keys, values, m, n - 1);
    }
  }

  lemma {:induction false} BlockElement<K>(keys: seq<Option<K>>, values: seq<Attribute>, n: nat, p: nat)
    returns (i: nat)
    requires n <= |keys| == |values| && p < |Block(keys, values, n)|
    ensures i < n && Leads(keys, i)
    ensures Block(keys, values, n)[p] == ConfigAttribute(values[i], ClassOf(keys, i))
  {
    if p < |Block(keys, values, n - 1)| {
      i := BlockElement(keys, values, n - 1, p);
    } else {
      i := n - 1;
    }
  }

  /** The masks of a block are pairwise disjoint. */
  lemma {:induction false} BlockDisjoint<K>(keys: seq<Option<K>>, values: seq<Attribute>, n: nat, p: nat, q: nat)
    requires n <= |keys| == |values| && p < q < |Block(keys, values, n)|
    ensures Block(keys, values, n)[p].mask !! Block(keys, values, n)[q].mask
  {
    if q < |Block(keys, values, n - 1)| {
      BlockDisjoint(keys, values, n - 1, p, q);
    } else {
      var i := BlockElement(keys, values, n - 1, p);
      assert keys[i] != keys[n - 1];
    }
  }

  lemma BlockUnambiguous<K>(keys: seq<Option<K>>, values: seq<Attribute>, n: nat)
    requires n <= |keys| == |values|
    ensures Unambiguous(Block(keys, values, n))
  {
    var block := Block(keys, values, n);
    forall p, q | 0 <= p < q < |block| ensures block[p].mask !! block[q].mask {
      BlockDisjoint(keys, values, n, p, q);
    }
  }

  lemma TailLeavesHeadAlone(attrs: seq<ConfigAttribute>, kind: Kind, line: nat)
    requires Unambiguous(attrs) && attrs != [] && Applies(attrs[0], kind, line)
    ensures FirstMatch(attrs[1..], kind, line) == None
  {
    forall p | 0 <= p < |attrs[1..]| ensures !Applies(attrs[1..][p], kind, line) {
      assert attrs[1..][p] == attrs[p + 1];
    }
    FirstMatchNone(attrs[1..], kind, line);
  }

  lemma EmittedMatch<K>(keys: seq<Option<K>>, values: seq<Attribute>, kind: Kind, i: nat, line: nat)
    requires Consistent(keys, values, kind) && i < |keys|
    ensures FirstMatch(Emitted(keys, values, i), kind, line) ==
      if Leads(keys, i) && line in ClassOf(keys, i) then Some(values[i]) else None
  {
    var tail := Emitted(keys, values, i);
    assert tail != [] ==> tail[1..] == [];
  }

  /** A block gives every line the value that belongs to its key. */
  lemma {:induction false} BlockMeaning<K>(keys: seq<Option<K>>, values: seq<Attribute>, kind: Kind, n: nat, line: nat)
    requires Consistent(keys, values, kind) && n <= |keys|
    ensures FirstMatch(Block(keys, values, n), kind, line) ==
      if line < |keys| && keys[line].Some? && exists j :: 0 <= j < n && keys[j] == keys[line]
      then Some(values[line]) else None
  {
    if n > 0 {
      var i := n - 1;
      BlockMeaning(keys, values, kind, i, line);
      EmittedMatch(keys, values, kind, i, line);
      FirstMatchOfConcat(Block(keys, values, i), Emitted(keys, values, i), kind, line);
    }
  }

  lemma FirstIsDefault<K>(keys: seq<Option<K>>, values: seq<Attribute>, n: nat)
    requires 0 < n <= |keys| == |values| && keys[0].Some?
    ensures Block(keys, values, n) != []
    ensures Block(keys, values, n)[0] == ConfigAttribute(values[0], ClassOf(keys, 0))
  {
    assert Leads(keys, 0);
    assert Block(keys, values, 1) == Block(keys, values, 0) + Emitted(keys, values, 0);
    BlockGrows(keys, values, 1, n);
  }

  /** When every line has a key, the first attribute of a block can be turned into a default:
      the rest of the block, together with that default, still gives every line its value. */
  lemma TailMeaning<K>(keys: seq<Option<K>>, values: seq<Attribute>, kind: Kind, line: nat)
    requires Consistent(keys, values, kind) && line < |keys|
    requires forall i :: 0 <= i < |keys| ==> keys[i].Some?
    ensures
      var block := Block(keys, values, |keys|);
      block != [] &&
      var a := FirstMatch(block[1..], kind, line);
      if line in ClassOf(keys, 0) then a == None && values[line] == values[0] else a == Some(values[line])
  {
    var block := Block(keys, values, |keys|);
    FirstIsDefault(keys, values, |keys|);
    BlockMeaning(keys, values, kind, |keys|, line);
    assert keys[line] == keys[line];
    BlockUnambiguous(keys, values, |keys|);
    if line in ClassOf(keys, 0) {
      TailLeavesHeadAlone(block, kind, line);
    }
  }

  lemma BlockKinds<K>(keys: seq<Option<K>>, values: seq<Attribute>, kind: Kind, n: nat)
    requires Consistent(keys, values, kind) && n <= |keys|
    ensures forall p :: 0 <= p < |Block(keys, values, n)| ==> KindOf(Block(keys, values, n)[p].attr) == kind
  {
    forall p | 0 <= p < |Block(keys, values, n)| ensures KindOf(Block(keys, values, n)[p].attr) == kind {
      var i := BlockElement(keys, values, n, p);
    }
  }
}

/** The reference-counted, doubly linked list of settings nodes in lib/line-config.c. */
module SettingsList {
  import opened LineSettings
  import opened Compiler
  import opened OrderedMap

  /** `struct settings_node`. The private copy of the settings is never written again. */
  class SettingsNode {
    const settings: Settings
    var prev: SettingsNode?
    var next: SettingsNode?
    var refcnt: nat

    constructor (settings: Settings)
      ensures this.settings == settings && refcnt == 0
    {
      this.settings := settings;
      refcnt := 0;
      prev, next := null, null;
    }
  }

  /** `struct per_line_config` */
  datatype Slot = Slot(offset: nat, node: SettingsNode?)

  ghost function Members(nodes: seq<SettingsNode>): set<SettingsNode> {
    set n | n in nodes
  }

  /** Node k of a list, null on either side of it. */
  ghost function At(nodes: seq<SettingsNode>, k: int): SettingsNode? {
    if 0 <= k < |nodes| then nodes[k] else null
  }

  ghost predicate Linked(nodes: seq<SettingsNode>)
    reads nodes`prev, nodes`next
  {
    (forall k {:trigger nodes[k].prev} :: 0 <= k < |nodes| ==> nodes[k].prev == At(nodes, k - 1)) &&
    (forall k {:trigger nodes[k].next} :: 0 <= k < |nodes| ==> nodes[k].next == At(nodes, k + 1))
  }

  /** How many slots point at a node. */
  ghost function Refs(slots: seq<Slot>, node: SettingsNode): nat {
    if slots == [] then 0
    else Refs(slots[..|slots| - 1], node) + (if slots[|slots| - 1].node == node then 1 else 0)
  }

  ghost predicate Counted(live: set<SettingsNode>, slots: seq<Slot>)
    reads live`refcnt
  {
    forall n :: n in live ==> n.refcnt == Refs(slots, n)
  }

  ghost predicate InUse(live: set<SettingsNode>, except: SettingsNode?)
    reads live`refcnt
  {
    forall n :: n in live && n != except ==> n.refcnt >= 1
  }

  ghost predicate PointsInto(slots: seq<Slot>, live: set<SettingsNode>) {
    forall i :: 0 <= i < |slots| ==> slots[i].node != null && slots[i].node in live
  }

  ghost predicate DistinctOffsets(slots: seq<Slot>) {
    forall i, j :: 0 <= i < j < |slots| ==> slots[i].offset != slots[j].offset
  }

  ghost function LinesOf(slots: seq<Slot>): (lines: seq<Line>)
    ensures |lines| == |slots|
  {
    seq(|slots|, i requires 0 <= i < |slots| =>
      Line(slots[i].offset, if slots[i].node == null then DEFAULTS else slots[i].node.settings))
  }

  /** Storing a slot, either over an old one or at the end. */
  ghost function Stored(slots: seq<Slot>, i: nat, slot: Slot): seq<Slot>
    requires i <= |slots|
  {
    if i < |slots| then slots[i := slot] else slots + [slot]
  }

  ghost function NodeAt(slots: seq<Slot>, i: nat): SettingsNode? {
    if i < |slots| then slots[i].node else null
  }

  lemma {:induction false} RefsOfUpdate(slots: seq<Slot>, i: nat, slot: Slot, node: SettingsNode)
    requires i < |slots|
    ensures Refs(slots[i := slot], node) + (if slots[i].node == node then 1 else 0) ==
      Refs(slots, node) + (if slot.node == node then 1 else 0)
  {
    var last := |slots| - 1;
    var after := slots[i := slot];
    if i < last {
      assert after[..last] == slots[..last][i := slot];
      RefsOfUpdate(slots[..last], i, slot, node);
    } else {
      assert after[..last] == slots[..last];
    }
  }

  /** Storing a slot moves one reference. */
  lemma RefsOfStored(slots: seq<Slot>, i: nat, slot: Slot, node: SettingsNode)
    requires i <= |slots|
    ensures Refs(Stored(slots, i, slot), node) + (if NodeAt(slots, i) == node then 1 else 0) ==
      Refs(slots, node) + (if slot.node == node then 1 else 0)
  {
    if i < |slots| {
      RefsOfUpdate(slots, i, slot, node);
    } else {
      assert (slots + [slot])[..|slots|] == slots;
    }
  }

  lemma {:induction false} NoRefs(slots: seq<Slot>, node: SettingsNode)
    ensures Refs(slots, node) == 0 <==> forall i :: 0 <= i < |slots| ==> slots[i].node != node
  {
    if slots != [] {
      NoRefs(slots[..|slots| - 1], node);
    }
  }

  /** A node that no slot points at joins the list. */
  lemma CountedOneMore(live: set<SettingsNode>, slots: seq<Slot>, node: SettingsNode)
    requires Counted(live, slots) && PointsInto(slots, live) && InUse(live, null)
    requires node !in live && node.refcnt == 0
    ensures Counted(live + {node}, slots) && PointsInto(slots, live + {node}) && InUse(live + {node}, node)
  {
    NoRefs(slots, node);
  }

  /** A node that no slot points at leaves the list. */
  lemma UncountedOneLess(live: set<SettingsNode>, slots: seq<Slot>, node: SettingsNode)
    requires Counted(live, slots) && PointsInto(slots, live) && node in live && node.refcnt == 0
    ensures Counted(live - {node}, slots) && PointsInto(slots, live - {node})
  {
    NoRefs(slots, node);
  }

  /** A stored slot in the ordered map's terms. */
  lemma LinesOfStored(slots: seq<Slot>, i: nat, offset: nat, node: SettingsNode)
    requires i == IndexOf(LinesOf(slots), offset)
    requires DistinctOffsets(slots)
    ensures DistinctOffsets(Stored(slots, i, Slot(offset, node)))
    ensures LinesOf(Stored(slots, i, Slot(offset, node))) == Assign(LinesOf(slots), offset, node.settings)
  {
    assert forall j :: 0 <= j < |slots| ==> LinesOf(slots)[j].offset == slots[j].offset;
  }

  /** A list with node k taken out. */
  ghost function Without(nodes: seq<SettingsNode>, k: nat): seq<SettingsNode>
    requires k < |nodes|
  {
    nodes[..k] + nodes[k + 1..]
  }

  lemma WithoutMembers(nodes: seq<SettingsNode>, k: nat)
    requires NoRepeats(nodes) && k < |nodes|
    ensures NoRepeats(Without(nodes, k))
    ensures Members(Without(nodes, k)) == Members(nodes) - {nodes[k]}
  {
    var t := Without(nodes, k);
    forall x | x in nodes && x != nodes[k] ensures x in t {
      var i :| 0 <= i < |nodes| && nodes[i] == x;
      assert t[if i < k then i else i - 1] == x;
    }
    assert forall i :: 0 <= i < |t| ==> t[i] == nodes[if i < k then i else i + 1];
  }

  /** The neighbours of a node are joined. */
  method Unlink(ghost nodes: seq<SettingsNode>, ghost k: nat, node: SettingsNode)
    requires NoRepeats(nodes) && Linked(nodes)
    requires 0 < k < |nodes| && nodes[k] == node
    modifies Members(nodes)`prev, Members(nodes)`next
    ensures Linked(Without(nodes, k))
  {
    assert node.prev == nodes[k - 1];
    if node.prev != null {
      node.prev.next := node.next;
    }
    if node.next != null {
      assert node.next == nodes[k + 1];
      node.next.prev := node.prev;
    }
  }

  /** A slot that pointed at former, or at nothing, now points at node. */
  method MoveReference(ghost slots: seq<Slot>, ghost live: set<SettingsNode>, ghost i: nat, ghost slot: Slot,
                       node: SettingsNode, former: SettingsNode?)
    requires Counted(live, slots) && PointsInto(slots, live) && InUse(live, node)
    requires i <= |slots| && node in live && slot.node == node && former == NodeAt(slots, i)
    modifies live`refcnt
    ensures Counted(live, Stored(slots, i, slot)) && InUse(live, former) && node.refcnt >= 1
    ensures former != null ==> former in live
  {
    ghost var after := Stored(slots, i, slot);
    forall n: SettingsNode
      ensures Refs(after, n) + (if former == n then 1 else 0) == Refs(slots, n) + (if node == n then 1 else 0)
    {
      RefsOfStored(slots, i, slot, n);
    }
    assert after[i].node == node;
    NoRefs(after, node);
    node.refcnt := node.refcnt + 1;
    if former != null {
      former.refcnt := former.refcnt - 1;
    }
  }

  /** A new node goes to the front of the list. */
  method Prepend(ghost nodes: seq<SettingsNode>, head: SettingsNode?, node: SettingsNode)
    requires NoRepeats(nodes) && Linked(nodes) && head == At(nodes, 0) && node !in nodes
    modifies Members(nodes)`prev, node`prev, node`next
    ensures NoRepeats([node] + nodes) && Linked([node] + nodes)
  {
    node.next := head;
    if head != null {
      head.prev := node;
    }
    node.prev := null;
  }
}

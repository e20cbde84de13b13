/** lib/line-config.c in its own form: an array of slots that point into a list of settings
    nodes. */
module LineConfig {
  import opened Wrappers
  import opened LineSettings
  import opened Uapi
  import opened Compiler
  import opened OrderedMap
  import opened SettingsList

  datatype Status = Success | Einval | E2big

  class LineConfig {
    const slots: array<Slot>
    var numConfigs: nat

    const outputValues: array<Value>
    var numOutputValues: nat
    var srefList: SettingsNode?

    ghost var mapped: seq<Slot>              // the slots in use
    ghost var outputs: seq<Value>            // the output values in use
    ghost var nodes: seq<SettingsNode>       // the list behind srefList
    ghost var live: set<SettingsNode>        // the nodes of that list
    ghost var everAllocated: set<SettingsNode>
    ghost var freed: set<SettingsNode>       // the nodes handed back to free()

    /** Each node ever allocated is either in the list or freed, never both. */
    ghost predicate ListPart()
      reads this`nodes, this`live, this`srefList, this`everAllocated, this`freed, nodes`prev, nodes`next
    {
      && live == Members(nodes) && NoRepeats(nodes) && Linked(nodes) && srefList == At(nodes, 0)
      && everAllocated == live + freed && live !! freed
    }

    ghost predicate ArrayPart()
      reads this`numConfigs, this`numOutputValues, this`mapped, this`outputs, slots, outputValues
    {
      && slots.Length == LINES_MAX && outputValues.Length == LINES_MAX
      && numConfigs == |mapped| <= LINES_MAX && numOutputValues == |outputs| <= LINES_MAX
      && (forall i :: 0 <= i < |mapped| ==> slots[i] == mapped[i])
      && (forall i :: |mapped| <= i < LINES_MAX ==> slots[i].node == null)
      && (forall i :: 0 <= i < |outputs| ==> outputValues[i] == outputs[i])
    }

    ghost predicate SlotPart()
      reads this`mapped, this`live, live`refcnt
    {
      PointsInto(mapped, live) && Counted(live, mapped) && DistinctOffsets(mapped)
    }

    /** Everything but the lower bound on the reference counts, which adding settings suspends. */
    ghost predicate Shape()
      reads this, slots, outputValues, live, nodes
    {
      ListPart() && ArrayPart() && SlotPart()
    }

    ghost predicate Valid()
      reads this, slots, outputValues, live, nodes
    {
      Shape() && InUse(live, null)
    }

    /** What reading the configuration relies on. */
    ghost predicate Readable()
      reads this`numConfigs, this`numOutputValues, this`mapped, this`outputs, this`live, slots, outputValues
    {
      ArrayPart() && PointsInto(mapped, live)
    }

    ghost function Content(): Model
      reads this`mapped, this`outputs
    {
      Model(LinesOf(mapped), outputs)
    }

    constructor ()
      ensures Valid() && Content() == Model([], [])
      ensures fresh(slots) && fresh(outputValues) && everAllocated == {}
    {
      slots := new Slot[LINES_MAX](_ => Slot(0, null));
      outputValues := new Value[LINES_MAX](_ => Inactive);
      numConfigs, numOutputValues := 0, 0;
      srefList := null;
      mapped, outputs, nodes, live, everAllocated, freed := [], [], [], {}, {}, {};
    }

    /** free(): the node has been allocated and not been freed before. */
    ghost method Release(node: SettingsNode)
      requires node in everAllocated && node !in freed
      modifies this`freed
      ensures freed == old(freed) + {node}
    {
      freed := freed + {node};
    }

    /** Every node still in the list is freed, and read before it is freed. */
    method FreeRefs()
      requires ListPart()
      modifies this`freed
      ensures freed == everAllocated && old(freed) <= freed
    {
      var node := srefList;
      ghost var k := 0;
      while node != null
        invariant 0 <= k <= |nodes| && node == At(nodes, k)
        invariant freed == old(freed) + Members(nodes[..k])
        decreases |nodes| - k
      {
        assert node == nodes[k];
        var tmp := node.next;
        Release(node);
        assert nodes[..k + 1] == nodes[..k] + [node];
        node := tmp;
        k := k + 1;
      }
      assert nodes[..k] == nodes;
    }

    /** gpiod_line_config_free: nothing is leaked, nothing is freed twice. */
    method Free()
      requires Valid()
      modifies this`freed
      ensures freed == everAllocated && old(freed) <= freed
    {
      FreeRefs();
    }

    /** The part of memset that concerns the arrays. */
    method Clear()
      requires ArrayPart()
      modifies this`numConfigs, this`numOutputValues, this`mapped, this`outputs, slots, outputValues
      ensures ArrayPart() && mapped == [] && outputs == []
    {
      forall i | 0 <= i < slots.Length {
        slots[i] := Slot(0, null);
      }
      forall i | 0 <= i < outputValues.Length {
        outputValues[i] := Inactive;
      }
      numConfigs, numOutputValues := 0, 0;
      mapped, outputs := [], [];
    }

    method Reset()
      requires Valid()
      modifies this, slots, outputValues
      ensures Valid() && Content() == After(old(Content()), OrderedMap.Reset)
      ensures live == {} && freed == everAllocated == old(everAllocated) && old(freed) <= freed
    {
      FreeRefs();
      Clear();
      srefList := null;
      nodes, live := [], {};
    }

    /** The slot of an offset; a new one is claimed when it has none. */
    method FindConfig(offset: nat) returns (i: nat)
      requires ArrayPart() && numConfigs < LINES_MAX
      modifies this`numConfigs
      ensures i == IndexOf(LinesOf(mapped), offset)
      ensures numConfigs == if i < |mapped| then |mapped| else |mapped| + 1
    {
      i := 0;
      ghost var lines := LinesOf(mapped);
      while i < numConfigs
        invariant i <= numConfigs
        invariant i + IndexOf(lines[i..], offset) == IndexOf(lines, offset)
      {
        if slots[i].offset == offset {
          return;
        }
        assert lines[i..][1..] == lines[i + 1..];
        i := i + 1;
      }
      numConfigs := numConfigs + 1;
    }

    method PushNode(node: SettingsNode)
      requires Valid() && node !in everAllocated && node.refcnt == 0
      modifies this`nodes, this`live, this`everAllocated, this`srefList, live`prev, node`prev, node`next
      ensures Shape() && InUse(live, node) && srefList == node
      ensures live == old(live) + {node} && everAllocated == old(everAllocated) + {node}
    {
      Prepend(nodes, srefList, node);
      CountedOneMore(live, mapped, node);
      srefList := node;
      nodes := [node] + nodes;
      live := live + {node};
      everAllocated := everAllocated + {node};
    }

    /** The offset's slot is pointed at the node; the node it pointed at before is returned. */
    method PointSlot(offset: nat, node: SettingsNode) returns (i: nat, former: SettingsNode?)
      requires ArrayPart() && numConfigs < LINES_MAX && DistinctOffsets(mapped)
      requires PointsInto(mapped, live) && node in live
      modifies this`numConfigs, this`mapped, slots
      ensures ArrayPart() && DistinctOffsets(mapped) && PointsInto(mapped, live)
      ensures i <= |old(mapped)| && mapped == Stored(old(mapped), i, Slot(offset, node))
      ensures former == NodeAt(old(mapped), i)
      ensures LinesOf(mapped) == Assign(LinesOf(old(mapped)), offset, node.settings)
    {
      i := FindConfig(offset);
      LinesOfStored(mapped, i, offset, node);
      former := slots[i].node;
      slots[i] := Slot(offset, node);
      mapped := Stored(mapped, i, Slot(offset, node));
    }

    /** The reference counts follow a slot that has just been pointed at node. */
    method CountSlot(ghost before: seq<Slot>, i: nat, node: SettingsNode, former: SettingsNode?)
      requires ListPart() && ArrayPart() && DistinctOffsets(mapped) && PointsInto(mapped, live)
      requires Counted(live, before) && PointsInto(before, live) && InUse(live, node) && node in live
      requires i <= |before| && i < |mapped| && mapped == Stored(before, i, mapped[i]) && mapped[i].node == node
      requires former == NodeAt(before, i)
      modifies live`refcnt
      ensures Shape() && InUse(live, former) && node.refcnt >= 1
      ensures former != null ==> former in live
    {
      MoveReference(before, live, i, mapped[i], node, former);
    }

    /** Dropping a node that no slot points at. The head of the list needs no care because the node
        is never the head. */
    method Drop(node: SettingsNode)
      requires Shape()
      requires node in live && node != srefList && node.refcnt == 0
      modifies this`nodes, this`live, this`freed, live`prev, live`next
      ensures Shape()
      ensures node !in old(freed) && freed == old(freed) + {node}
      ensures live == old(live) - {node}
    {
      ghost var k :| 0 <= k < |nodes| && nodes[k] == node;
      UncountedOneLess(live, mapped, node);
      WithoutMembers(nodes, k);
      Unlink(nodes, k, node);
      nodes := Without(nodes, k);
      live := live - {node};
      Release(node);
    }

    method DropIfUnused(node: SettingsNode?)
      requires Shape() && InUse(live, node)
      requires node != null ==> node in live
      requires srefList != null && srefList in live && srefList.refcnt >= 1
      modifies this`nodes, this`live, this`freed, live`prev, live`next
      ensures Shape() && InUse(live, null) && live <= old(live) && old(freed) <= freed
    {
      if node != null && node.refcnt == 0 {
        Drop(node);
      }
    }

    /** The former node loses a reference, and is dropped if that was its last one. */
    method LeaveNode(ghost before: seq<Slot>, i: nat, node: SettingsNode, former: SettingsNode?)
      requires ListPart() && ArrayPart() && DistinctOffsets(mapped) && PointsInto(mapped, live)
      requires Counted(live, before) && PointsInto(before, live) && InUse(live, node) && node in live
      requires i <= |before| && i < |mapped| && mapped == Stored(before, i, mapped[i]) && mapped[i].node == node
      requires former == NodeAt(before, i) && srefList == node
      modifies this`nodes, this`live, this`freed, live
      ensures Shape() && InUse(live, null) && live <= old(live) && old(freed) <= freed
    {
      CountSlot(before, i, node, former);
      DropIfUnused(former);
    }

    /** One turn of the loop in gpiod_line_config_add_line_settings. */
    method AssignSlot(offset: nat, node: SettingsNode)
      requires Shape() && srefList == node && InUse(live, node) && numConfigs < LINES_MAX
      modifies this`numConfigs, this`mapped, this`nodes, this`live, this`freed, slots, live
      ensures Shape() && InUse(live, null) && live <= old(live) && old(freed) <= freed
      ensures LinesOf(mapped) == Assign(LinesOf(old(mapped)), offset, node.settings)
    {
      var i, former := PointSlot(offset, node);
      LeaveNode(old(mapped), i, node, former);
    }

    method AssignSlots(offsets: seq<nat>, node: SettingsNode)
      requires Shape() && srefList == node && InUse(live, node)
      requires offsets != [] && numConfigs + |offsets| <= LINES_MAX
      modifies this`numConfigs, this`mapped, this`nodes, this`live, this`freed, slots, live
      ensures Valid() && live <= old(live) && old(freed) <= freed
      ensures LinesOf(mapped) == AssignAll(LinesOf(old(mapped)), offsets, node.settings)
    {
      for i := 0 to |offsets|
        invariant Shape() && srefList == node && InUse(live, if i == 0 then node else null)
        invariant |mapped| + |offsets| - i <= LINES_MAX && live <= old(live) && old(freed) <= freed
        invariant LinesOf(mapped) == AssignAll(LinesOf(old(mapped)), offsets[..i], node.settings)
      {
        AssignAllNext(LinesOf(old(mapped)), offsets, i, node.settings);
        AssignSlot(offsets[i], node);
      }
      assert offsets[..|offsets|] == offsets;
    }

    method AddNode(offsets: seq<nat>, settings: Settings)
      requires Valid() && offsets != [] && numConfigs + |offsets| <= LINES_MAX
      modifies this, slots, live
      ensures Valid() && fresh(live - old(live))
      ensures LinesOf(mapped) == AssignAll(LinesOf(old(mapped)), offsets, settings) && outputs == old(outputs)
      ensures exists n :: n in everAllocated && fresh(n) && everAllocated == old(everAllocated) + {n}
      ensures old(freed) <= freed
    {
      var node := new SettingsNode(settings);
      PushNode(node);
      assert node in everAllocated && everAllocated == old(everAllocated) + {node};
      AssignSlots(offsets, node);
    }

    /** gpiod_line_config_add_line_settings; NULL settings stand for the defaults. */
    method AddLineSettings(offsets: seq<nat>, settings: LineSettings?) returns (ret: Status)
      requires Valid()
      modifies this, slots, live
      ensures Valid() && fresh(live - old(live))
      ensures ret ==
        if offsets == [] then Einval else if |old(Content()).lines| + |offsets| <= 64 then Success else E2big
      ensures Content() == After(old(Content()), Add(offsets, if settings == null then DEFAULTS else settings.Record()))
      ensures old(freed) <= freed
      ensures if ret == Success
        then exists n :: n in everAllocated && fresh(n) && everAllocated == old(everAllocated) + {n}
        else everAllocated == old(everAllocated)
      ensures ret != Success ==> live == old(live) && freed == old(freed)
    {
      if offsets == [] {
        return Einval;
      }
      if numConfigs + |offsets| > LINES_MAX {
        return E2big;
      }
      AddNode(offsets, if settings == null then DEFAULTS else settings.Record());
      ret := Success;
    }

    function SettingsAt(i: nat): (s: Settings)
      requires Readable() && i < numConfigs
      reads this`numConfigs, this`numOutputValues, this`mapped, this`outputs, this`live, slots, outputValues
      ensures s == LinesOf(mapped)[i].settings
    {
      slots[i].node.settings
    }

    /** gpiod_line_config_get_line_settings: a copy of what was last given to the offset, with
        the "global" output value of its slot if there is one. Null stands for ENOENT. */
    method GetLineSettings(offset: nat) returns (settings: LineSettings?)
      requires Valid()
      ensures settings == null <==> Lookup(Content().lines, offset) == None
      ensures settings != null ==> fresh(settings)
      ensures settings != null ==> settings.Record() == Reported(Content(), IndexOf(Content().lines, offset))
    {
      ghost var lines := LinesOf(mapped);
      for i := 0 to numConfigs
        invariant i + IndexOf(lines[i..], offset) == IndexOf(lines, offset)
      {
        if slots[i].offset == offset {
          settings := new LineSettings.Copy(SettingsAt(i));
          if numOutputValues > i {
            var ret := settings.SetOutputValue(ValueCode(outputValues[i]));
          }
          return;
        }
        assert lines[i..][1..] == lines[i + 1..];
      }
      settings := null;
    }

    /** gpiod_line_config_set_output_values; NULL values stand for an empty array here. */
    method SetOutputValues(values: seq<int>) returns (ret: Status)
      requires Valid()
      modifies this`numOutputValues, this`outputs, outputValues
      ensures Valid() && Content() == After(old(Content()), SetOutputs(values))
      ensures ret == Success <==> 0 < |values| <= 64 && forall i :: 0 <= i < |values| ==> values[i] in {0, 1}
      ensures ret == Success ==> |Content().outputs| == |values|
      ensures ret == Success ==>
        forall i :: 0 <= i < |values| ==> Content().outputs[i] == if values[i] == 1 then Active else Inactive
    {
      if values == [] || |values| > LINES_MAX {
        return Einval;
      }
      for i := 0 to |values|
        invariant forall j :: 0 <= j < i ==> ValueOf(values[j]) == Some(outputValues[j])
        invariant numOutputValues == |outputs|
      {
        var v := ValueOf(values[i]);
        outputValues[i] := if v.Some? then v.value else Inactive;
        if v.None? {
          numOutputValues := 0;
          outputs := [];
          return Einval;
        }
      }
      numOutputValues := |values|;
      outputs := Values(values);
      ret := Success;
    }

    /** gpiod_line_config_get_configured_offsets */
    method GetConfiguredOffsets(maxOffsets: nat) returns (offsets: seq<nat>)
      requires Valid()
      ensures |offsets| == if maxOffsets < |Content().lines| then maxOffsets else |Content().lines|
      ensures offsets <= Offsets(Content().lines)
    {
      offsets := [];
      var n := if numConfigs < maxOffsets then numConfigs else maxOffsets;
      for i := 0 to n
        invariant |offsets| == i && offsets == Offsets(LinesOf(mapped))[..i]
      {
        offsets := offsets + [slots[i].offset];
      }
    }
  }
}

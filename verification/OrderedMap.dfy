/** A line config seen from outside: an ordered map from offsets to settings. */
module OrderedMap {
  import opened Wrappers
  import opened LineSettings
  import opened Uapi
  import opened Compiler

  /** The slot of an offset, or |lines| when it has none. */
  function IndexOf(lines: seq<Line>, offset: nat): (i: nat)
    ensures i <= |lines|
    ensures i < |lines| ==> lines[i].offset == offset
    ensures forall j :: 0 <= j < i ==> lines[j].offset != offset
  {
    if lines == [] then 0
    else if lines[0].offset == offset then 0
    else 1 + IndexOf(lines[1..], offset)
  }

  function Assign(lines: seq<Line>, offset: nat, settings: Settings): seq<Line> {
    var i := IndexOf(lines, offset);
    if i < |lines| then lines[i := Line(offset, settings)] else lines + [Line(offset, settings)]
  }

  function AssignAll(lines: seq<Line>, offsets: seq<nat>, settings: Settings): seq<Line> {
    if offsets == [] then lines
    else Assign(AssignAll(lines, offsets[..|offsets| - 1], settings), offsets[|offsets| - 1], settings)
  }

  lemma AssignAllNext(lines: seq<Line>, offsets: seq<nat>, i: nat, settings: Settings)
    requires i < |offsets|
    ensures AssignAll(lines, offsets[..i + 1], settings) ==
      Assign(AssignAll(lines, offsets[..i], settings), offsets[i], settings)
  {
    assert offsets[..i + 1][..i] == offsets[..i];
  }

  function Offsets(lines: seq<Line>): (r: seq<nat>)
    ensures |r| == |lines| && forall i :: 0 <= i < |r| ==> r[i] == lines[i].offset
  {
    seq(|lines|, i requires 0 <= i < |lines| => lines[i].offset)
  }

  predicate NoRepeats<T(==)>(s: seq<T>) {
    forall i, j :: 0 <= i < j < |s| ==> s[i] != s[j]
  }

  /** A sequence without its second and later occurrences. */
  function FirstOccurrences(offsets: seq<nat>): (r: seq<nat>)
    ensures |r| <= |offsets|
    ensures forall x :: x in r <==> x in offsets
  {
    if offsets == [] then []
    else
      var front, last := offsets[..|offsets| - 1], offsets[|offsets| - 1];
      assert offsets == front + [last];
      FirstOccurrences(front) + (if last in front then [] else [last])
  }

  /** The settings last given to an offset. */
  function Lookup(lines: seq<Line>, offset: nat): Option<Settings> {
    var i := IndexOf(lines, offset);
    if i < |lines| then Some(lines[i].settings) else None
  }

  lemma IndexIsUnique(lines: seq<Line>, i: nat)
    requires NoRepeats(Offsets(lines)) && i < |lines|
    ensures IndexOf(lines, lines[i].offset) == i
  {
    var j := IndexOf(lines, lines[i].offset);
    assert Offsets(lines)[i] == lines[i].offset;
  }

  lemma LookupAfterAssign(lines: seq<Line>, offset: nat, settings: Settings, o: nat)
    ensures Lookup(Assign(lines, offset, settings), o) == if o == offset then Some(settings) else Lookup(lines, o)
  {
    var i, j := IndexOf(lines, offset), IndexOf(lines, o);
    var after := Assign(lines, offset, settings);
    var k := IndexOf(after, o);
    if o == offset {
      assert after[i] == Line(offset, settings);
    } else {
      assert forall x :: 0 <= x < |lines| && x != i ==> after[x] == lines[x];
      if j < |lines| {
        assert after[j] == lines[j];
      }
    }
  }

  lemma AssignKeepsOrder(lines: seq<Line>, offset: nat, settings: Settings)
    requires NoRepeats(Offsets(lines))
    ensures NoRepeats(Offsets(Assign(lines, offset, settings)))
    ensures Offsets(Assign(lines, offset, settings)) ==
      if offset in Offsets(lines) then Offsets(lines) else Offsets(lines) + [offset]
    ensures forall o ::
      Lookup(Assign(lines, offset, settings), o) == (if o == offset then Some(settings) else Lookup(lines, o))
  {
    var i := IndexOf(lines, offset);
    var after := Assign(lines, offset, settings);
    if i < |lines| {
      assert Offsets(lines)[i] == offset;
      assert Offsets(after) == Offsets(lines);
    } else {
      assert Offsets(after) == Offsets(lines) + [offset];
    }
    forall o ensures Lookup(after, o) == if o == offset then Some(settings) else Lookup(lines, o) {
      LookupAfterAssign(lines, offset, settings, o);
    }
  }

  /** Lines for some offsets that share their settings. */
  ghost function LinesFor(offsets: seq<nat>, settings: Settings): (r: seq<Line>)
    ensures |r| == |offsets|
  {
    seq(|offsets|, i requires 0 <= i < |offsets| => Line(offsets[i], settings))
  }

  /** Offsets that have no slot yet get the next ones in order. */
  lemma {:induction false} AssignFresh(lines: seq<Line>, offsets: seq<nat>, settings: Settings)
    requires NoRepeats(Offsets(lines) + offsets)
    ensures AssignAll(lines, offsets, settings) == lines + LinesFor(offsets, settings)
  {
    if offsets != [] {
      var last := |offsets| - 1;
      var front := offsets[..last];
      var all := Offsets(lines) + offsets;
      assert Offsets(lines) + front == all[..|all| - 1];
      AssignFresh(lines, front, settings);
      var soFar := lines + LinesFor(front, settings);
      forall j | 0 <= j < |soFar| ensures soFar[j].offset != offsets[last] {
        assert all[j] != all[|all| - 1];
      }
      assert IndexOf(soFar, offsets[last]) == |soFar|;
    }
  }

  // ---------------------------------------------------------------------------------------
  // Runs of calls

  datatype Call =
    | Add(offsets: seq<nat>, settings: Settings)
    | SetOutputs(values: seq<int>)
    | Reset

  function Values(codes: seq<int>): seq<Value> {
    seq(|codes|, i requires 0 <= i < |codes| => GetOr(ValueOf(codes[i]), Inactive))
  }

  predicate AllValid(codes: seq<int>) {
    forall i :: 0 <= i < |codes| ==> ValueOf(codes[i]).Some?
  }

  predicate AddAccepted(m: Model, offsets: seq<nat>) {
    offsets != [] && |m.lines| + |offsets| <= LINES_MAX
  }

  /** The effect of one call on the content. */
  function After(m: Model, call: Call): Model {
    match call
    case Add(offsets, settings) =>
      if AddAccepted(m, offsets) then m.(lines := AssignAll(m.lines, offsets, settings)) else m
    case SetOutputs(values) =>
      if values == [] || |values| > LINES_MAX then m
      else if AllValid(values) then m.(outputs := Values(values))
      else m.(outputs := [])
    case Reset => Model([], [])
  }

  function Run(calls: seq<Call>): Model {
    if calls == [] then Model([], []) else After(Run(calls[..|calls| - 1]), calls[|calls| - 1])
  }

  ghost predicate WellFormed(m: Model) {
    |m.lines| <= LINES_MAX && |m.outputs| <= LINES_MAX && NoRepeats(Offsets(m.lines))
  }

  lemma {:induction false} AssignAllFacts(lines: seq<Line>, offsets: seq<nat>, settings: Settings)
    requires NoRepeats(Offsets(lines))
    ensures NoRepeats(Offsets(AssignAll(lines, offsets, settings)))
    ensures |lines| <= |AssignAll(lines, offsets, settings)| <= |lines| + |offsets|
    ensures forall o ::
      Lookup(AssignAll(lines, offsets, settings), o) == (if o in offsets then Some(settings) else Lookup(lines, o))
  {
    if offsets != [] {
      var front, last := offsets[..|offsets| - 1], offsets[|offsets| - 1];
      assert offsets == front + [last];
      AssignAllFacts(lines, front, settings);
      AssignKeepsOrder(AssignAll(lines, front, settings), last, settings);
    }
  }

  lemma {:induction false} RunIsWellFormed(calls: seq<Call>)
    ensures WellFormed(Run(calls))
  {
    if calls != [] {
      var front, last := calls[..|calls| - 1], calls[|calls| - 1];
      RunIsWellFormed(front);
      if last.Add? {
        AssignAllFacts(Run(front).lines, last.offsets, last.settings);
      }
    }
  }

  /** The offsets that a run has added since its last reset, rejected calls left out. */
  function Added(calls: seq<Call>): seq<nat> {
    if calls == [] then []
    else
      var front, last := calls[..|calls| - 1], calls[|calls| - 1];
      match last
      case Add(offsets, _) => Added(front) + (if AddAccepted(Run(front), offsets) then offsets else [])
      case SetOutputs(_) => Added(front)
      case Reset => []
  }

  /** The settings of the last accepted call since the last reset that names an offset. */
  function LastGiven(calls: seq<Call>, offset: nat): Option<Settings> {
    if calls == [] then None
    else
      var front, last := calls[..|calls| - 1], calls[|calls| - 1];
      match last
      case Add(offsets, settings) =>
        if AddAccepted(Run(front), offsets) && offset in offsets then Some(settings) else LastGiven(front, offset)
      case SetOutputs(_) => LastGiven(front, offset)
      case Reset => None
  }

  lemma OneMoreOccurrence(front: seq<nat>, x: nat)
    ensures FirstOccurrences(front + [x]) == FirstOccurrences(front) + (if x in front then [] else [x])
  {
    var whole := front + [x];
    assert whole[..|whole| - 1] == front;
  }

  lemma AssignOffsets(lines: seq<Line>, before: seq<nat>, offset: nat, settings: Settings)
    requires NoRepeats(Offsets(lines)) && Offsets(lines) == FirstOccurrences(before)
    ensures Offsets(Assign(lines, offset, settings)) == FirstOccurrences(before + [offset])
  {
    AssignKeepsOrder(lines, offset, settings);
    OneMoreOccurrence(before, offset);
  }

  lemma {:induction false} AssignAllOffsets(lines: seq<Line>, before: seq<nat>, offsets: seq<nat>, settings: Settings)
    requires NoRepeats(Offsets(lines)) && Offsets(lines) == FirstOccurrences(before)
    ensures Offsets(AssignAll(lines, offsets, settings)) == FirstOccurrences(before + offsets)
  {
    if offsets == [] {
      assert before + offsets == before;
    } else {
      var front, last := offsets[..|offsets| - 1], offsets[|offsets| - 1];
      assert offsets == front + [last];
      Regroup(before, front, [last]);
      AssignAllOffsets(lines, before, front, settings);
      AssignAllFacts(lines, front, settings);
      AssignOffsets(AssignAll(lines, front, settings), before + front, last, settings);
    }
  }

  lemma {:induction false} RunOffsets(calls: seq<Call>)
    ensures Offsets(Run(calls).lines) == FirstOccurrences(Added(calls))
  {
    if calls == [] {
      assert Offsets([]) == [];
    } else {
      var front, last := calls[..|calls| - 1], calls[|calls| - 1];
      RunOffsets(front);
      match last
      case Add(offsets, settings) =>
        RunIsWellFormed(front);
        AssignAllOffsets(Run(front).lines, Added(front), offsets, settings);
        assert Added(front) + [] == Added(front);
      case SetOutputs(_) =>
      case Reset => assert Offsets([]) == [];
    }
  }

  lemma {:induction false} RunLookup(calls: seq<Call>, offset: nat)
    ensures Lookup(Run(calls).lines, offset) == LastGiven(calls, offset)
  {
    if calls != [] {
      var front, last := calls[..|calls| - 1], calls[|calls| - 1];
      RunLookup(front, offset);
      match last
      case Add(offsets, settings) =>
        RunIsWellFormed(front);
        AssignAllFacts(Run(front).lines, offsets, settings);
      case SetOutputs(_) =>
      case Reset =>
    }
  }

  /** Over any run of calls the config is the ordered map that the documentation describes:
      offsets in the order they were first assigned, each with the settings it was last given. */
  lemma RunIsOrderedMap(calls: seq<Call>)
    ensures WellFormed(Run(calls))
    ensures Offsets(Run(calls).lines) == FirstOccurrences(Added(calls))
    ensures forall o :: Lookup(Run(calls).lines, o) == LastGiven(calls, o)
  {
    RunIsWellFormed(calls);
    RunOffsets(calls);
    forall o ensures Lookup(Run(calls).lines, o) == LastGiven(calls, o) {
      RunLookup(calls, o);
    }
  }
}

/** bindings/python/gpiod: Chip.request_lines and LineRequest.reconfigure_lines, which turn
    dictionaries keyed by names and offsets into the positional form of the C library. */
module PythonFrontEnd {
  import opened Wrappers
  import opened LineSettings
  import opened Uapi
  import opened Compiler
  import opened OrderedMap
  import opened LineConfig
  import opened LineRequest

  /** A line is identified by an integer or a string. */
  datatype LineId = ByOffset(offset: int) | ByName(name: string)

  /** A dictionary key is one identifier or a tuple of them. */
  datatype Key = One(id: LineId) | Many(ids: seq<LineId>)

  datatype Entry = Entry(key: Key, settings: Option<Settings>)

  /** The names of a chip's lines by offset, and what int() makes of a string. */
  datatype Chip = Chip(names: seq<string>, numerals: map<string, int>)

  function IdsOf(key: Key): seq<LineId> {
    match key
    case One(id) => [id]
    case Many(ids) => ids
  }

  /** gpiod_chip_get_line_offset_from_name */
  function FindName(names: seq<string>, name: string): (r: Option<nat>)
    ensures r.Some? ==> r.value < |names| && names[r.value] == name
    ensures r.Some? ==> forall k :: 0 <= k < r.value ==> names[k] != name
    ensures r.None? <==> name !in names
  {
    if names == [] then None
    else if names[0] == name then Some(0)
    else
      var r := FindName(names[1..], name);
      if r.Some? then Some(r.value + 1) else None
  }

  /** Chip.line_offset_from_id; None stands for the exception. The range check lets negative
      integers through. */
  function OffsetFromId(chip: Chip, id: LineId): Option<int> {
    match id
    case ByOffset(o) => if o >= |chip.names| then None else Some(o)
    case ByName(name) =>
      var found := FindName(chip.names, name);
      if found.Some? then Some(found.value)
      else if name !in chip.numerals then None
      else if chip.numerals[name] >= |chip.names| then None
      else Some(chip.numerals[name])
  }

  /** The identifier stands for offset o: an integer below the number of lines for itself, a name
      that some line has for the first such line, any other string for the number it spells. */
  ghost predicate StandsFor(chip: Chip, id: LineId, o: int) {
    o < |chip.names| &&
    match id
    case ByOffset(k) => o == k
    case ByName(name) =>
      if name in chip.names then 0 <= o && chip.names[o] == name && forall k :: 0 <= k < o ==> chip.names[k] != name
      else name in chip.numerals && o == chip.numerals[name]
  }

  lemma OffsetStandsFor(chip: Chip, id: LineId, o: int)
    ensures OffsetFromId(chip, id) == Some(o) <==> StandsFor(chip, id, o)
  {
    if id.ByName? && id.name in chip.names && 0 <= o < |chip.names| && chip.names[o] == id.name {
      var first := FindName(chip.names, id.name).value;
      assert first <= o;
    }
  }

  /** All identifiers of a configuration, in the order in which it lists them. */
  function FlatIds(config: seq<Entry>): seq<LineId> {
    if config == [] then [] else FlatIds(config[..|config| - 1]) + IdsOf(config[|config| - 1].key)
  }

  ghost predicate AllResolve(chip: Chip, ids: seq<LineId>) {
    forall i :: 0 <= i < |ids| ==> OffsetFromId(chip, ids[i]).Some?
  }

  function Resolved(chip: Chip, ids: seq<LineId>): (r: seq<int>)
    ensures |r| == |ids|
  {
    seq(|ids|, i requires 0 <= i < |ids| => GetOr(OffsetFromId(chip, ids[i]), 0))
  }

  /** The dictionary comprehension over output_values: a later entry for the same line wins. */
  function MapOutputs(chip: Chip, outputs: seq<(LineId, Value)>): map<int, Value> {
    if outputs == [] then map[]
    else
      var last := outputs[|outputs| - 1];
      MapOutputs(chip, outputs[..|outputs| - 1])[GetOr(OffsetFromId(chip, last.0), 0) := last.1]
  }

  function OutputFor(mapped: map<int, Value>, offset: int): Value {
    if offset in mapped then mapped[offset] else Inactive
  }

  /** Of several output values for the same line the last one counts. */
  lemma {:induction false} LastOutputCounts(chip: Chip, outputs: seq<(LineId, Value)>, offset: int, j: nat)
    requires j < |outputs| && StandsFor(chip, outputs[j].0, offset)
    requires forall i :: 0 <= i < |outputs| ==> OffsetFromId(chip, outputs[i].0).Some?
    requires forall i :: j < i < |outputs| ==> !StandsFor(chip, outputs[i].0, offset)
    ensures OutputFor(MapOutputs(chip, outputs), offset) == outputs[j].1
  {
    var last := |outputs| - 1;
    OffsetStandsFor(chip, outputs[last].0, offset);
    if j < last {
      LastOutputCounts(chip, outputs[..last], offset, j);
    }
  }

  lemma {:induction false} NoOutput(chip: Chip, outputs: seq<(LineId, Value)>, offset: int)
    requires forall i :: 0 <= i < |outputs| ==> OffsetFromId(chip, outputs[i].0).Some?
    requires forall i :: 0 <= i < |outputs| ==> !StandsFor(chip, outputs[i].0, offset)
    ensures OutputFor(MapOutputs(chip, outputs), offset) == Inactive
  {
    if outputs != [] {
      OffsetStandsFor(chip, outputs[|outputs| - 1].0, offset);
      NoOutput(chip, outputs[..|outputs| - 1], offset);
    }
  }

  /** A name map after the identifiers have been entered: each name is sent to its offset. */
  function AddNames(names: map<string, int>, chip: Chip, ids: seq<LineId>): map<string, int> {
    if ids == [] then names
    else
      var front, last := AddNames(names, chip, ids[..|ids| - 1]), ids[|ids| - 1];
      match last
      case ByName(name) => front[name := GetOr(OffsetFromId(chip, last), 0)]
      case ByOffset(_) => front
  }

  /** The name map that a request keeps. */
  function NameMap(chip: Chip, ids: seq<LineId>): map<string, int> {
    AddNames(map[], chip, ids)
  }

  lemma {:induction false} AddNamesConcat(names: map<string, int>, chip: Chip, a: seq<LineId>, b: seq<LineId>)
    ensures AddNames(names, chip, a + b) == AddNames(AddNames(names, chip, a), chip, b)
  {
    if b == [] {
      assert a + b == a;
    } else {
      assert (a + b)[..|a + b| - 1] == a + b[..|b| - 1];
      AddNamesConcat(names, chip, a, b[..|b| - 1]);
    }
  }

  lemma {:induction false} NameMapIs(chip: Chip, ids: seq<LineId>, name: string)
    ensures name in NameMap(chip, ids) <==> ByName(name) in ids
    ensures name in NameMap(chip, ids) ==> NameMap(chip, ids)[name] == GetOr(OffsetFromId(chip, ByName(name)), 0)
  {
    if ids != [] {
      NameMapIs(chip, ids[..|ids| - 1], name);
      assert ids == ids[..|ids| - 1] + [ids[|ids| - 1]];
    }
  }

  /** The names of one entry's lines are entered into the name map. */
  method EnterNames(names: map<string, int>, chip: Chip, ids: seq<LineId>) returns (after: map<string, int>)
    ensures after == AddNames(names, chip, ids)
  {
    after := names;
    for i := 0 to |ids|
      invariant after == AddNames(names, chip, ids[..i])
    {
      assert ids[..i + 1][..i] == ids[..i];
      if ids[i].ByName? {
        after := after[ids[i].name := GetOr(OffsetFromId(chip, ids[i]), 0)];
      }
    }
    assert ids[..|ids|] == ids;
  }

  /** [line_offset_from_id(id) for id in ids] */
  method ResolveAll(chip: Chip, ids: seq<LineId>) returns (ok: bool, offsets: seq<int>)
    ensures ok <==> AllResolve(chip, ids)
    ensures ok ==> offsets == Resolved(chip, ids)
  {
    offsets := [];
    for i := 0 to |ids|
      invariant AllResolve(chip, ids[..i]) && offsets == Resolved(chip, ids[..i])
    {
      var o := OffsetFromId(chip, ids[i]);
      if o.None? {
        return false, offsets;
      }
      offsets := offsets + [o.value];
    }
    assert ids[..|ids|] == ids;
    ok := true;
  }

  ghost predicate NonNegative(offsets: seq<int>) {
    forall i :: 0 <= i < |offsets| ==> offsets[i] >= 0
  }

  /** The conversion to unsigned int, where it succeeds. */
  ghost function Naturals(offsets: seq<int>): (r: seq<nat>)
    ensures |r| == |offsets|
  {
    seq(|offsets|, i requires 0 <= i < |offsets| => if offsets[i] < 0 then 0 else offsets[i])
  }

  /** The lines that a configuration describes, position by position. */
  ghost function FlatLines(chip: Chip, config: seq<Entry>): (lines: seq<Line>)
    ensures |lines| == |FlatIds(config)|
  {
    if config == [] then []
    else
      var last := config[|config| - 1];
      FlatLines(chip, config[..|config| - 1])
        + LinesFor(Naturals(Resolved(chip, IdsOf(last.key))), GetOr(last.settings, DEFAULTS))
  }

  /** The "global" output values in list order; none at all when no output values are given. */
  ghost function FlatOutputs(chip: Chip, ids: seq<LineId>, outputs: seq<(LineId, Value)>): seq<Value> {
    if outputs == [] then []
    else seq(|ids|, i requires 0 <= i < |ids| => OutputFor(MapOutputs(chip, outputs), Resolved(chip, ids)[i]))
  }

  lemma ResolvedConcat(chip: Chip, a: seq<LineId>, b: seq<LineId>)
    ensures Resolved(chip, a + b) == Resolved(chip, a) + Resolved(chip, b)
  {
  }

  lemma NaturalsConcat(a: seq<int>, b: seq<int>)
    ensures Naturals(a + b) == Naturals(a) + Naturals(b)
  {
  }

  lemma OffsetsConcat(a: seq<Line>, b: seq<Line>)
    ensures Offsets(a + b) == Offsets(a) + Offsets(b)
  {
  }

  lemma OffsetsOfLinesFor(offsets: seq<nat>, settings: Settings)
    ensures Offsets(LinesFor(offsets, settings)) == offsets
  {
  }

  lemma {:induction false} FlatOffsets(chip: Chip, config: seq<Entry>)
    ensures Offsets(FlatLines(chip, config)) == Naturals(Resolved(chip, FlatIds(config)))
  {
    if config != [] {
      var front, last := config[..|config| - 1], config[|config| - 1];
      var own := Resolved(chip, IdsOf(last.key));
      FlatOffsets(chip, front);
      ResolvedConcat(chip, FlatIds(front), IdsOf(last.key));
      NaturalsConcat(Resolved(chip, FlatIds(front)), own);
      OffsetsConcat(FlatLines(chip, front), LinesFor(Naturals(own), GetOr(last.settings, DEFAULTS)));
      OffsetsOfLinesFor(Naturals(own), GetOr(last.settings, DEFAULTS));
    }
  }

  /** What one entry needs to be added. */
  ghost predicate Addable(chip: Chip, before: nat, entry: Entry) {
    IdsOf(entry.key) != [] && NonNegative(Resolved(chip, IdsOf(entry.key))) && before + |IdsOf(entry.key)| <= LINES_MAX
  }

  /** One entry of the dictionary goes into the line config; a negative offset fails in the
      conversion to unsigned int. */
  method AddEntry(cfg: LineConfig, chip: Chip, entry: Entry, offsets: seq<int>) returns (ok: bool)
    requires cfg.Valid() && offsets == Resolved(chip, IdsOf(entry.key))
    modifies cfg, cfg.slots, cfg.live
    ensures cfg.Valid() && fresh(cfg.live - old(cfg.live))
    ensures ok <==> Addable(chip, |old(cfg.Content()).lines|, entry)
    ensures ok ==> cfg.Content() == old(cfg.Content()).(lines :=
      AssignAll(old(cfg.Content()).lines, Naturals(offsets), GetOr(entry.settings, DEFAULTS)))
  {
    var naturals: seq<nat> := [];
    for i := 0 to |offsets|
      invariant NonNegative(offsets[..i]) && naturals == Naturals(offsets[..i])
      invariant cfg.Valid() && cfg.Content() == old(cfg.Content()) && cfg.live == old(cfg.live)
    {
      if offsets[i] < 0 {
        return false;
      }
      naturals := naturals + [offsets[i]];
    }
    assert offsets[..|offsets|] == offsets;
    var settings := new LineSettings.Copy(GetOr(entry.settings, DEFAULTS));
    var ret := cfg.AddLineSettings(naturals, settings);
    ok := ret == Success;
  }

  ghost predicate AllAddable(chip: Chip, config: seq<Entry>) {
    forall i :: 0 <= i < |config| ==> IdsOf(config[i].key) != [] && NonNegative(Resolved(chip, IdsOf(config[i].key)))
  }

  function OutputIds(outputs: seq<(LineId, Value)>): seq<LineId> {
    seq(|outputs|, i requires 0 <= i < |outputs| => outputs[i].0)
  }

  /** What the arguments of Chip.request_lines must meet before the request is made. */
  ghost predicate Buildable(chip: Chip, config: seq<Entry>, outputs: seq<(LineId, Value)>) {
    && AllResolve(chip, FlatIds(config)) && NoRepeats(Resolved(chip, FlatIds(config)))
    && AllResolve(chip, OutputIds(outputs))
    && AllAddable(chip, config) && |FlatIds(config)| <= LINES_MAX
  }

  /** What the line config holds when the request is made. */
  ghost function RequestModel(chip: Chip, config: seq<Entry>, outputs: seq<(LineId, Value)>): Model {
    Model(FlatLines(chip, config), FlatOutputs(chip, FlatIds(config), outputs))
  }

  /** The output values of one entry's lines. */
  method EntryOutputs(mapped: map<int, Value>, offsets: seq<int>) returns (values: seq<Value>)
    ensures |values| == |offsets| && forall i :: 0 <= i < |values| ==> values[i] == OutputFor(mapped, offsets[i])
  {
    values := [];
    for i := 0 to |offsets|
      invariant |values| == i && forall j :: 0 <= j < i ==> values[j] == OutputFor(mapped, offsets[j])
    {
      values := values + [OutputFor(mapped, offsets[i])];
    }
  }

  lemma {:induction false} PrefixIds(config: seq<Entry>, i: nat)
    requires i <= |config|
    ensures FlatIds(config[..i]) <= FlatIds(config)
  {
    if i < |config| {
      assert config[..|config| - 1][..i] == config[..i];
      PrefixIds(config[..|config| - 1], i);
    } else {
      assert config[..i] == config;
    }
  }

  lemma NextIds(config: seq<Entry>, i: nat)
    requires i < |config|
    ensures FlatIds(config[..i + 1]) == FlatIds(config[..i]) + IdsOf(config[i].key)
    ensures FlatIds(config[..i + 1]) <= FlatIds(config)
  {
    assert config[..i + 1][..i] == config[..i];
    PrefixIds(config, i + 1);
  }

  lemma NextEntry(chip: Chip, config: seq<Entry>, i: nat)
    requires i < |config|
    ensures FlatIds(config[..i + 1]) == FlatIds(config[..i]) + IdsOf(config[i].key)
    ensures FlatLines(chip, config[..i + 1]) == FlatLines(chip, config[..i])
      + LinesFor(Naturals(Resolved(chip, IdsOf(config[i].key))), GetOr(config[i].settings, DEFAULTS))
    ensures |FlatIds(config[..i + 1])| <= |FlatIds(config)|
  {
    assert config[..i + 1][..i] == config[..i];
    PrefixIds(config, i + 1);
  }

  lemma {:induction false} EntryIds(config: seq<Entry>, e: nat, i: nat)
    requires e < |config| && i < |IdsOf(config[e].key)|
    ensures
      var k := |FlatIds(config[..e])| + i;
      k < |FlatIds(config)| && FlatIds(config)[k] == IdsOf(config[e].key)[i]
  {
    var front := config[..|config| - 1];
    if e < |front| {
      EntryIds(front, e, i);
      assert front[..e] == config[..e];
    }
  }

  /** Where the identifiers of an entry are in the flat list, and with which settings. */
  lemma {:induction false} EntryPosition(chip: Chip, config: seq<Entry>, e: nat, i: nat)
    requires e < |config| && i < |IdsOf(config[e].key)|
    ensures
      var k := |FlatIds(config[..e])| + i;
      k < |FlatIds(config)| && FlatIds(config)[k] == IdsOf(config[e].key)[i] &&
      FlatLines(chip, config)[k].settings == GetOr(config[e].settings, DEFAULTS)
  {
    EntryIds(config, e, i);
    var front := config[..|config| - 1];
    if e < |front| {
      EntryPosition(chip, front, e, i);
      assert front[..e] == config[..e];
    }
  }

  lemma NonNegativeConcat(a: seq<int>, b: seq<int>)
    requires NonNegative(a) && NonNegative(b)
    ensures NonNegative(a + b)
  {
  }

  lemma {:induction false} PrefixNonNegative(chip: Chip, config: seq<Entry>)
    requires AllAddable(chip, config)
    ensures NonNegative(Resolved(chip, FlatIds(config)))
  {
    if config != [] {
      var front, last := config[..|config| - 1], config[|config| - 1];
      PrefixNonNegative(chip, front);
      ResolvedConcat(chip, FlatIds(front), IdsOf(last.key));
      NonNegativeConcat(Resolved(chip, FlatIds(front)), Resolved(chip, IdsOf(last.key)));
    }
  }

  ghost predicate StandsForSome(chip: Chip, id: LineId) {
    exists o: int :: StandsFor(chip, id, o)
  }

  lemma StandsForOne(chip: Chip, id: LineId)
    ensures OffsetFromId(chip, id).Some? <==> StandsForSome(chip, id)
    ensures OffsetFromId(chip, id).Some? ==>
      forall o: int :: StandsFor(chip, id, o) <==> o == OffsetFromId(chip, id).value
  {
    forall o: int ensures OffsetFromId(chip, id) == Some(o) <==> StandsFor(chip, id, o) {
      OffsetStandsFor(chip, id, o);
    }
    if OffsetFromId(chip, id).Some? {
      assert StandsFor(chip, id, OffsetFromId(chip, id).value);
    }
  }

  lemma ResolvedStandFor(chip: Chip, ids: seq<LineId>)
    ensures AllResolve(chip, ids) <==> forall k :: 0 <= k < |ids| ==> StandsForSome(chip, ids[k])
    ensures AllResolve(chip, ids) ==>
      forall k, o: int :: 0 <= k < |ids| ==> (StandsFor(chip, ids[k], o) <==> o == Resolved(chip, ids)[k])
  {
    forall k | 0 <= k < |ids|
      ensures OffsetFromId(chip, ids[k]).Some? <==> StandsForSome(chip, ids[k])
      ensures OffsetFromId(chip, ids[k]).Some? ==>
        forall o: int :: StandsFor(chip, ids[k], o) <==> o == OffsetFromId(chip, ids[k]).value
    {
      StandsForOne(chip, ids[k]);
    }
  }

  ghost predicate StandsForLine(chip: Chip, id: LineId) {
    exists o: int :: o >= 0 && StandsFor(chip, id, o)
  }

  /** Every identifier stands for an actual line, and no two for the same one. */
  ghost predicate NameDistinctLines(chip: Chip, ids: seq<LineId>) {
    (forall k :: 0 <= k < |ids| ==> StandsForLine(chip, ids[k])) &&
    (forall j, k, o: int :: 0 <= j < k < |ids| ==> !(StandsFor(chip, ids[j], o) && StandsFor(chip, ids[k], o)))
  }

  lemma DistinctLinesIff(chip: Chip, ids: seq<LineId>)
    ensures NameDistinctLines(chip, ids) <==>
      AllResolve(chip, ids) && NonNegative(Resolved(chip, ids)) && NoRepeats(Resolved(chip, ids))
  {
    ResolvedStandFor(chip, ids);
    if NameDistinctLines(chip, ids) {
      forall k | 0 <= k < |ids| ensures StandsForSome(chip, ids[k]) {
        assert StandsForLine(chip, ids[k]);
      }
      forall k | 0 <= k < |ids| ensures StandsFor(chip, ids[k], Resolved(chip, ids)[k]) && Resolved(chip, ids)[k] >= 0 {
        assert StandsForLine(chip, ids[k]);
      }
    }
    if AllResolve(chip, ids) && NonNegative(Resolved(chip, ids)) && NoRepeats(Resolved(chip, ids)) {
      forall k | 0 <= k < |ids| ensures StandsForLine(chip, ids[k]) {
        assert StandsFor(chip, ids[k], Resolved(chip, ids)[k]);
      }
      forall j, k, o: int | 0 <= j < k < |ids|
        ensures !(StandsFor(chip, ids[j], o) && StandsFor(chip, ids[k], o))
      {
        assert Resolved(chip, ids)[j] != Resolved(chip, ids)[k];
      }
    }
  }

  lemma EntryIndex(config: seq<Entry>, e: nat, i: nat) returns (k: nat)
    requires e < |config| && i < |IdsOf(config[e].key)|
    ensures k < |FlatIds(config)| && FlatIds(config)[k] == IdsOf(config[e].key)[i]
  {
    EntryIds(config, e, i);
    k := |FlatIds(config[..e])| + i;
  }

  lemma SameIdSameOffset(chip: Chip, a: seq<LineId>, k: nat, b: seq<LineId>, i: nat)
    requires k < |a| && i < |b| && a[k] == b[i]
    ensures Resolved(chip, a)[k] == Resolved(chip, b)[i]
  {
  }

  lemma EntryNonNegative(chip: Chip, config: seq<Entry>, e: nat)
    requires e < |config| && NonNegative(Resolved(chip, FlatIds(config)))
    ensures NonNegative(Resolved(chip, IdsOf(config[e].key)))
  {
    var ids := IdsOf(config[e].key);
    forall i | 0 <= i < |ids| ensures Resolved(chip, ids)[i] >= 0 {
      var k := EntryIndex(config, e, i);
      SameIdSameOffset(chip, FlatIds(config), k, ids, i);
    }
  }

  lemma AllAddableIff(chip: Chip, config: seq<Entry>)
    ensures AllAddable(chip, config) <==>
      (forall e :: 0 <= e < |config| ==> IdsOf(config[e].key) != []) && NonNegative(Resolved(chip, FlatIds(config)))
  {
    if AllAddable(chip, config) {
      PrefixNonNegative(chip, config);
    }
    if NonNegative(Resolved(chip, FlatIds(config))) {
      forall e | 0 <= e < |config| ensures NonNegative(Resolved(chip, IdsOf(config[e].key))) {
        EntryNonNegative(chip, config, e);
      }
    }
  }

  /** What that is in terms of lines: the identifiers stand for distinct lines, every identifier of
      an output value stands for something, no entry is empty, and there are at most 64 lines. */
  lemma BuildableIff(chip: Chip, config: seq<Entry>, outputs: seq<(LineId, Value)>)
    ensures Buildable(chip, config, outputs) <==>
      && NameDistinctLines(chip, FlatIds(config))
      && (forall i :: 0 <= i < |outputs| ==> StandsForSome(chip, outputs[i].0))
      && (forall e :: 0 <= e < |config| ==> IdsOf(config[e].key) != [])
      && |FlatIds(config)| <= 64
  {
    DistinctLinesIff(chip, FlatIds(config));
    AllAddableIff(chip, config);
    forall i | 0 <= i < |outputs|
      ensures OffsetFromId(chip, OutputIds(outputs)[i]).Some? <==> StandsForSome(chip, outputs[i].0)
    {
      StandsForOne(chip, outputs[i].0);
    }
  }

  lemma DistinctNaturals(offsets: seq<int>)
    requires NonNegative(offsets) && NoRepeats(offsets)
    ensures NoRepeats(Naturals(offsets))
  {
    assert forall i :: 0 <= i < |offsets| ==> Naturals(offsets)[i] == offsets[i];
  }

  lemma DistinctPrefix(a: seq<int>, b: seq<int>)
    requires a <= b && NoRepeats(b)
    ensures NoRepeats(a)
  {
    assert forall i :: 0 <= i < |a| ==> a[i] == b[i];
  }

  lemma ResolvedPrefix(chip: Chip, a: seq<LineId>, b: seq<LineId>)
    requires a <= b
    ensures Resolved(chip, a) <= Resolved(chip, b)
  {
  }

  lemma NewNaturals(before: seq<int>, own: seq<int>, whole: seq<int>)
    requires before + own <= whole && NoRepeats(whole) && NonNegative(before) && NonNegative(own)
    ensures NoRepeats(Naturals(before) + Naturals(own))
  {
    DistinctPrefix(before + own, whole);
    NonNegativeConcat(before, own);
    DistinctNaturals(before + own);
    NaturalsConcat(before, own);
  }

  /** The offsets of an entry are new: none of them is among those of earlier entries. */
  lemma EntryIsNew(chip: Chip, config: seq<Entry>, i: nat)
    requires i < |config| && NoRepeats(Resolved(chip, FlatIds(config)))
    requires NonNegative(Resolved(chip, FlatIds(config[..i]))) && NonNegative(Resolved(chip, IdsOf(config[i].key)))
    ensures NoRepeats(Naturals(Resolved(chip, FlatIds(config[..i]))) + Naturals(Resolved(chip, IdsOf(config[i].key))))
  {
    var before, own := FlatIds(config[..i]), IdsOf(config[i].key);
    NextIds(config, i);
    ResolvedConcat(chip, before, own);
    ResolvedPrefix(chip, before + own, FlatIds(config));
    NewNaturals(Resolved(chip, before), Resolved(chip, own), Resolved(chip, FlatIds(config)));
  }

  /** No line of an entry is in a slot already, so its lines go to the next slots in order. */
  lemma EntryGoesLast(chip: Chip, config: seq<Entry>, i: nat)
    requires i < |config| && NoRepeats(Resolved(chip, FlatIds(config)))
    requires AllAddable(chip, config[..i]) && NonNegative(Resolved(chip, IdsOf(config[i].key)))
    ensures AssignAll(FlatLines(chip, config[..i]), Naturals(Resolved(chip, IdsOf(config[i].key))),
                      GetOr(config[i].settings, DEFAULTS)) == FlatLines(chip, config[..i + 1])
  {
    var own := Naturals(Resolved(chip, IdsOf(config[i].key)));
    NextEntry(chip, config, i);
    PrefixNonNegative(chip, config[..i]);
    EntryIsNew(chip, config, i);
    FlatOffsets(chip, config[..i]);
    AssignFresh(FlatLines(chip, config[..i]), own, GetOr(config[i].settings, DEFAULTS));
  }

  lemma OutputsConcat(chip: Chip, a: seq<LineId>, b: seq<LineId>, outputs: seq<(LineId, Value)>)
    ensures FlatOutputs(chip, a + b, outputs) == FlatOutputs(chip, a, outputs) + FlatOutputs(chip, b, outputs)
  {
  }

  lemma NextOutputs(chip: Chip, config: seq<Entry>, outputs: seq<(LineId, Value)>, i: nat, values: seq<Value>)
    requires i < |config| && outputs != []
    requires |values| == |IdsOf(config[i].key)|
    requires forall j :: 0 <= j < |values| ==>
      values[j] == OutputFor(MapOutputs(chip, outputs), Resolved(chip, IdsOf(config[i].key))[j])
    ensures FlatOutputs(chip, FlatIds(config[..i + 1]), outputs) ==
      FlatOutputs(chip, FlatIds(config[..i]), outputs) + values
  {
    NextIds(config, i);
    OutputsConcat(chip, FlatIds(config[..i]), IdsOf(config[i].key), outputs);
    assert FlatOutputs(chip, IdsOf(config[i].key), outputs) == values;
  }

  lemma AddableOneMore(chip: Chip, before: seq<Entry>, entry: Entry)
    requires AllAddable(chip, before)
    ensures AllAddable(chip, before + [entry]) <==>
      IdsOf(entry.key) != [] && NonNegative(Resolved(chip, IdsOf(entry.key)))
  {
    var after := before + [entry];
    assert after[|before|] == entry;
    assert forall k :: 0 <= k < |before| ==> after[k] == before[k];
  }

  lemma AddableNext(chip: Chip, config: seq<Entry>, i: nat)
    requires i < |config| && AllAddable(chip, config[..i])
    ensures AllAddable(chip, config[..i + 1]) && |FlatIds(config[..i + 1])| <= LINES_MAX <==>
      Addable(chip, |FlatLines(chip, config[..i])|, config[i])
  {
    NextIds(config, i);
    assert |FlatIds(config[..i + 1])| == |FlatLines(chip, config[..i])| + |IdsOf(config[i].key)|;
    assert config[..i + 1] == config[..i] + [config[i]];
    AddableOneMore(chip, config[..i], config[i]);
  }

  /** One turn of the loop, on the line config. */
  method AddNext(cfg: LineConfig, chip: Chip, config: seq<Entry>, i: nat) returns (ok: bool)
    requires cfg.Valid() && i < |config| && NoRepeats(Resolved(chip, FlatIds(config)))
    requires AllAddable(chip, config[..i]) && cfg.Content() == Model(FlatLines(chip, config[..i]), [])
    modifies cfg, cfg.slots, cfg.live
    ensures cfg.Valid() && fresh(cfg.live - old(cfg.live))
    ensures ok <==> AllAddable(chip, config[..i + 1]) && |FlatIds(config[..i + 1])| <= LINES_MAX
    ensures ok ==> cfg.Content() == Model(FlatLines(chip, config[..i + 1]), [])
  {
    ok := AddEntry(cfg, chip, config[i], Resolved(chip, IdsOf(config[i].key)));
    AddableNext(chip, config, i);
    if ok {
      EntryGoesLast(chip, config, i);
    }
  }

  /** One turn of the loop, on the list of output values. */
  method NextValues(chip: Chip, config: seq<Entry>, outputs: seq<(LineId, Value)>, i: nat, values: seq<Value>)
    returns (longer: seq<Value>)
    requires i < |config| && values == FlatOutputs(chip, FlatIds(config[..i]), outputs)
    ensures longer == FlatOutputs(chip, FlatIds(config[..i + 1]), outputs)
  {
    longer := values;
    if outputs != [] {
      var own := EntryOutputs(MapOutputs(chip, outputs), Resolved(chip, IdsOf(config[i].key)));
      NextOutputs(chip, config, outputs, i, own);
      longer := values + own;
    }
  }

  /** What the loop has made of the first i entries. */
  ghost predicate Loaded(chip: Chip, config: seq<Entry>, outputs: seq<(LineId, Value)>, i: nat,
                         m: Model, values: seq<Value>, names: map<string, int>) {
    i <= |config| && AllAddable(chip, config[..i]) && |FlatIds(config[..i])| <= LINES_MAX &&
    names == NameMap(chip, FlatIds(config[..i])) &&
    m == Model(FlatLines(chip, config[..i]), []) && values == FlatOutputs(chip, FlatIds(config[..i]), outputs)
  }

  lemma OneEntryTooMany(chip: Chip, config: seq<Entry>, i: nat)
    requires i < |config| && !(AllAddable(chip, config[..i + 1]) && |FlatIds(config[..i + 1])| <= LINES_MAX)
    ensures !(AllAddable(chip, config) && |FlatIds(config)| <= LINES_MAX)
  {
    PrefixIds(config, i + 1);
    assert AllAddable(chip, config) ==> AllAddable(chip, config[..i + 1]);
  }

  /** One turn of the loop. */
  method LoadNext(cfg: LineConfig, chip: Chip, config: seq<Entry>, outputs: seq<(LineId, Value)>, i: nat,
                  values: seq<Value>, names: map<string, int>)
    returns (ok: bool, longer: seq<Value>, more: map<string, int>)
    requires cfg.Valid() && i < |config| && NoRepeats(Resolved(chip, FlatIds(config)))
    requires Loaded(chip, config, outputs, i, cfg.Content(), values, names)
    modifies cfg, cfg.slots, cfg.live
    ensures cfg.Valid() && fresh(cfg.live - old(cfg.live))
    ensures ok ==> Loaded(chip, config, outputs, i + 1, cfg.Content(), longer, more)
    ensures !ok ==> !(AllAddable(chip, config) && |FlatIds(config)| <= LINES_MAX)
  {
    longer := NextValues(chip, config, outputs, i, values);
    more := EnterNames(names, chip, IdsOf(config[i].key));
    NextIds(config, i);
    AddNamesConcat(map[], chip, FlatIds(config[..i]), IdsOf(config[i].key));
    ok := AddNext(cfg, chip, config, i);
    if !ok {
      OneEntryTooMany(chip, config, i);
    }
  }

  /** The loop of Chip.request_lines over the dictionary. */
  method AddEntries(cfg: LineConfig, chip: Chip, config: seq<Entry>, outputs: seq<(LineId, Value)>)
    returns (ok: bool, values: seq<Value>, names: map<string, int>)
    requires cfg.Valid() && cfg.Content() == Model([], [])
    requires NoRepeats(Resolved(chip, FlatIds(config)))
    modifies cfg, cfg.slots, cfg.live
    ensures cfg.Valid()
    ensures ok <==> AllAddable(chip, config) && |FlatIds(config)| <= LINES_MAX
    ensures ok ==> cfg.Content() == Model(FlatLines(chip, config), [])
    ensures ok ==> values == FlatOutputs(chip, FlatIds(config), outputs)
    ensures ok ==> names == NameMap(chip, FlatIds(config))
  {
    values, names := [], map[];
    for i := 0 to |config|
      invariant cfg.Valid() && fresh(cfg.live - old(cfg.live))
      invariant Loaded(chip, config, outputs, i, cfg.Content(), values, names)
    {
      ok, values, names := LoadNext(cfg, chip, config, outputs, i, values, names);
      if !ok {
        return;
      }
    }
    assert config[..|config|] == config;
    ok := true;
  }

  function Codes(values: seq<Value>): seq<int> {
    seq(|values|, i requires 0 <= i < |values| => ValueCode(values[i]))
  }

  lemma CodesOfValues(values: seq<Value>)
    ensures AllValid(Codes(values)) && Values(Codes(values)) == values
  {
  }

  method SetGlobalValues(cfg: LineConfig, values: seq<Value>)
    requires cfg.Valid() && cfg.Content().outputs == [] && |values| <= LINES_MAX
    modifies cfg`numOutputValues, cfg`outputs, cfg.outputValues
    ensures cfg.Valid() && cfg.Content() == old(cfg.Content()).(outputs := values)
  {
    if values != [] {
      CodesOfValues(values);
      var ret := cfg.SetOutputValues(Codes(values));
    }
  }

  /** Everything in Chip.request_lines before the request itself. */
  method BuildConfig(cfg: LineConfig, chip: Chip, config: seq<Entry>, outputs: seq<(LineId, Value)>)
    returns (ok: bool, names: map<string, int>)
    requires cfg.Valid() && cfg.Content() == Model([], [])
    modifies cfg, cfg.slots, cfg.outputValues, cfg.live
    ensures cfg.Valid()
    ensures ok <==> Buildable(chip, config, outputs)
    ensures ok ==> cfg.Content() == RequestModel(chip, config, outputs) && names == NameMap(chip, FlatIds(config))
  {
    var offsets: seq<int>, outputOffsets: seq<int>, values: seq<Value>;
    names := map[];
    ok, offsets := ResolveAll(chip, FlatIds(config));
    if !ok || !NoRepeats(offsets) {
      return false, names;
    }
    ok, outputOffsets := ResolveAll(chip, OutputIds(outputs));
    if !ok {
      return;
    }
    ok, values, names := AddEntries(cfg, chip, config, outputs);
    if ok {
      SetGlobalValues(cfg, values);
    }
  }

  /** The value that position k asks for: when output values are given, the one mapped to its offset,
      inactive if there is none; otherwise the one in its settings. */
  ghost function AskedValue(chip: Chip, config: seq<Entry>, outputs: seq<(LineId, Value)>, k: nat): Value
    requires k < |FlatIds(config)|
  {
    if outputs == [] then FlatLines(chip, config)[k].settings.outputValue
    else OutputFor(MapOutputs(chip, outputs), Resolved(chip, FlatIds(config))[k])
  }

  /** List position k is slot k: each output line is compiled with the value asked for it. */
  lemma OutputsArePositional(chip: Chip, config: seq<Entry>, outputs: seq<(LineId, Value)>, c: Config, k: nat)
    requires Buildable(chip, config, outputs) && Compile(RequestModel(chip, config, outputs)) == Some(c)
    requires k < |FlatIds(config)| && IsOutput(FlatLines(chip, config)[k].settings)
    ensures EffectiveOutput(c, k) == Some(AskedValue(chip, config, outputs, k))
  {
    MeaningPreserved(RequestModel(chip, config, outputs), c, k);
  }

  /** Each output line starts at the value asked for it, every other line at its own level. */
  lemma StartingLevel(chip: Chip, config: seq<Entry>, outputs: seq<(LineId, Value)>, initial: Word, k: nat)
    requires Buildable(chip, config, outputs) && Compile(RequestModel(chip, config, outputs)).Some?
    requires k < |FlatIds(config)|
    ensures k in LevelsUnder(Compile(RequestModel(chip, config, outputs)).value, |FlatIds(config)|, initial) <==>
      if IsOutput(FlatLines(chip, config)[k].settings)
        then AskedValue(chip, config, outputs, k) == Active else k in initial
  {
    var m := RequestModel(chip, config, outputs);
    FlatOffsets(chip, config);
    PrefixNonNegative(chip, config);
    DistinctNaturals(Resolved(chip, FlatIds(config)));
    ReconfiguredLevel(Offsets(m.lines), initial, m, k);
  }

  lemma OffsetsStandFor(chip: Chip, config: seq<Entry>)
    requires AllResolve(chip, FlatIds(config)) && AllAddable(chip, config)
    ensures forall k :: 0 <= k < |FlatIds(config)| ==>
      StandsFor(chip, FlatIds(config)[k], Naturals(Resolved(chip, FlatIds(config)))[k])
  {
    PrefixNonNegative(chip, config);
    ResolvedStandFor(chip, FlatIds(config));
  }

  /** Chip.request_lines; null stands for an exception. */
  method RequestLinesOfChip(chip: Chip, config: seq<Entry>, outputs: seq<(LineId, Value)>, granted: bool, initial: Word)
    returns (request: LineRequest?, names: map<string, int>)
    ensures request != null <==>
      granted && Buildable(chip, config, outputs) && Compile(RequestModel(chip, config, outputs)).Some?
    ensures request != null ==> fresh(request) && fresh(request.handle) && request.Valid()
    ensures request != null ==> request.offsets == Naturals(Resolved(chip, FlatIds(config)))
    ensures request != null ==> names == NameMap(chip, FlatIds(config))
    ensures request != null ==>
      request.handle.states == InitialStates(Compile(RequestModel(chip, config, outputs)).value, |request.offsets|)
    ensures request != null ==> forall k :: 0 <= k < |request.offsets| ==>
      (k in request.handle.levels <==>
       if IsOutput(FlatLines(chip, config)[k].settings)
         then AskedValue(chip, config, outputs, k) == Active else k in initial)
    ensures request != null ==> forall k :: 0 <= k < |request.offsets| ==>
      StandsFor(chip, FlatIds(config)[k], request.offsets[k]) &&
      ConfiguredAs(request.handle.states[k], FlatLines(chip, config)[k].settings)
  {
    var cfg := new LineConfig();
    var ok;
    ok, names := BuildConfig(cfg, chip, config, outputs);
    if !ok {
      return null, names;
    }
    FlatOffsets(chip, config);
    OffsetsStandFor(chip, config);
    request := RequestLines(cfg, granted, initial);
    if request != null {
      forall k | 0 <= k < |request.offsets|
        ensures k in request.handle.levels <==>
          if IsOutput(FlatLines(chip, config)[k].settings) then AskedValue(chip, config, outputs, k) == Active
          else k in initial
      {
        StartingLevel(chip, config, outputs, initial, k);
      }
    }
  }

  // ---------------------------------------------------------------------------------------
  // LineRequest.reconfigure_lines

  datatype Outcome = Done | ValueError | OsError(status: Status)

  /** LineRequest._line_to_offset */
  function LineToOffset(names: map<string, int>, id: LineId): Option<int> {
    match id
    case ByOffset(o) => Some(o)
    case ByName(name) => if name in names then Some(names[name]) else None
  }

  ghost predicate NamesKnown(names: map<string, int>, ids: seq<LineId>) {
    forall i :: 0 <= i < |ids| ==> LineToOffset(names, ids[i]).Some?
  }

  ghost predicate AllNamesKnown(names: map<string, int>, config: seq<Entry>) {
    NamesKnown(names, FlatIds(config))
  }

  /** The settings in the last entry that names the offset; None when there is none. */
  ghost function LastEntry(names: map<string, int>, config: seq<Entry>, offset: int): Option<Settings> {
    if config == [] then None
    else
      var last := config[|config| - 1];
      if exists i :: 0 <= i < |IdsOf(last.key)| && LineToOffset(names, IdsOf(last.key)[i]) == Some(offset)
      then last.settings
      else LastEntry(names, config[..|config| - 1], offset)
  }

  /** The key names the offset: as an integer, or as a name that the request keeps for it. */
  ghost predicate Names(names: map<string, int>, key: Key, offset: int) {
    exists i :: 0 <= i < |IdsOf(key)| && (
      IdsOf(key)[i] == ByOffset(offset) ||
      (IdsOf(key)[i].ByName? && IdsOf(key)[i].name in names && names[IdsOf(key)[i].name] == offset))
  }

  lemma NamesIff(names: map<string, int>, key: Key, offset: int)
    ensures Names(names, key, offset) <==>
      exists i :: 0 <= i < |IdsOf(key)| && LineToOffset(names, IdsOf(key)[i]) == Some(offset)
  {
    var ids := IdsOf(key);
    if i :| 0 <= i < |ids| && LineToOffset(names, ids[i]) == Some(offset) {
      assert ids[i] == ByOffset(offset) || (ids[i].ByName? && ids[i].name in names && names[ids[i].name] == offset);
    }
  }

  /** Of several entries that name an offset the last one counts. */
  lemma {:induction false} LastEntryCounts(names: map<string, int>, config: seq<Entry>, e: nat, offset: int)
    requires e < |config| && Names(names, config[e].key, offset)
    requires forall d :: e < d < |config| ==> !Names(names, config[d].key, offset)
    ensures LastEntry(names, config, offset) == config[e].settings
  {
    var last := |config| - 1;
    NamesIff(names, config[last].key, offset);
    if e < last {
      LastEntryCounts(names, config[..last], e, offset);
    }
  }

  lemma {:induction false} NoEntry(names: map<string, int>, config: seq<Entry>, offset: int)
    requires forall e :: 0 <= e < |config| ==> !Names(names, config[e].key, offset)
    ensures LastEntry(names, config, offset) == None
  {
    if config != [] {
      NamesIff(names, config[|config| - 1].key, offset);
      NoEntry(names, config[..|config| - 1], offset);
    }
  }

  ghost predicate Kept(names: map<string, int>, id: LineId) {
    id.ByName? ==> id.name in names
  }

  /** Identifiers are known exactly when the request keeps every name among them. */
  lemma NamesKnownIff(names: map<string, int>, ids: seq<LineId>)
    ensures NamesKnown(names, ids) <==> forall k :: 0 <= k < |ids| ==> Kept(names, ids[k])
  {
    forall k | 0 <= k < |ids| ensures LineToOffset(names, ids[k]).Some? <==> Kept(names, ids[k]) {
    }
  }

  /** The settings that reconfigure_lines gives to an offset: the defaults when it is not named. */
  ghost function NewSettings(names: map<string, int>, config: seq<Entry>, offset: int): Settings {
    GetOr(LastEntry(names, config, offset), DEFAULTS)
  }

  ghost function NewLines(offsets: seq<nat>, names: map<string, int>, config: seq<Entry>): (r: seq<Line>)
    ensures |r| == |offsets|
  {
    seq(|offsets|, i requires 0 <= i < |offsets| => Line(offsets[i], NewSettings(names, config, offsets[i])))
  }

  /** Whatever identified a line in the request means the same line in a reconfiguration. */
  lemma NamesMeanTheSame(chip: Chip, ids: seq<LineId>, i: nat)
    requires AllResolve(chip, ids) && i < |ids|
    ensures LineToOffset(NameMap(chip, ids), ids[i]) == Some(Resolved(chip, ids)[i])
  {
    if ids[i].ByName? {
      NameMapIs(chip, ids, ids[i].name);
    }
  }

  ghost predicate MeansTheSame(names: map<string, int>, chip: Chip, ids: seq<LineId>) {
    forall i :: 0 <= i < |ids| ==> LineToOffset(names, ids[i]) == Some(Resolved(chip, ids)[i])
  }

  lemma MeansTheSameParts(names: map<string, int>, chip: Chip, a: seq<LineId>, b: seq<LineId>)
    requires MeansTheSame(names, chip, a + b)
    ensures MeansTheSame(names, chip, a) && MeansTheSame(names, chip, b)
  {
    forall i | 0 <= i < |a| ensures LineToOffset(names, a[i]) == Some(Resolved(chip, a)[i]) {
      assert (a + b)[i] == a[i];
    }
    forall i | 0 <= i < |b| ensures LineToOffset(names, b[i]) == Some(Resolved(chip, b)[i]) {
      assert (a + b)[|a| + i] == b[i];
    }
  }

  /** An offset that occurs among earlier identifiers only is not named by the last entry. */
  lemma NotNamedAgain(names: map<string, int>, chip: Chip, a: seq<LineId>, b: seq<LineId>, k: nat)
    requires MeansTheSame(names, chip, b) && NoRepeats(Resolved(chip, a + b)) && k < |a|
    ensures forall i :: 0 <= i < |b| ==> LineToOffset(names, b[i]) != Some(Resolved(chip, a + b)[k])
  {
    forall i | 0 <= i < |b| ensures LineToOffset(names, b[i]) != Some(Resolved(chip, a + b)[k]) {
      assert Resolved(chip, a + b)[|a| + i] == Resolved(chip, b)[i];
    }
  }

  /** Reconfiguring with the dictionary of the request gives every line the settings that it was
      requested with. */
  lemma {:induction false} SameDictionary(names: map<string, int>, chip: Chip, config: seq<Entry>, k: nat)
    requires MeansTheSame(names, chip, FlatIds(config)) && NoRepeats(Resolved(chip, FlatIds(config)))
    requires k < |FlatIds(config)|
    ensures NewSettings(names, config, Resolved(chip, FlatIds(config))[k]) == FlatLines(chip, config)[k].settings
  {
    var front, last := config[..|config| - 1], config[|config| - 1];
    var a, b := FlatIds(front), IdsOf(last.key);
    MeansTheSameParts(names, chip, a, b);
    ResolvedConcat(chip, a, b);
    if k < |a| {
      NotNamedAgain(names, chip, a, b, k);
      DistinctPrefix(Resolved(chip, a), Resolved(chip, a + b));
      SameDictionary(names, chip, front, k);
    } else {
      assert LineToOffset(names, b[k - |a|]) == Some(Resolved(chip, a + b)[k]);
    }
  }

  /** With the names that the request keeps, its own dictionary names every line again. */
  lemma ReconfiguringWithSameDictionary(chip: Chip, config: seq<Entry>, outputs: seq<(LineId, Value)>)
    requires Buildable(chip, config, outputs)
    ensures AllNamesKnown(NameMap(chip, FlatIds(config)), config)
    ensures NewLines(Naturals(Resolved(chip, FlatIds(config))), NameMap(chip, FlatIds(config)), config)
      == FlatLines(chip, config)
  {
    var ids := FlatIds(config);
    var names, offsets := NameMap(chip, ids), Resolved(chip, ids);
    forall i | 0 <= i < |ids| ensures LineToOffset(names, ids[i]) == Some(offsets[i]) {
      NamesMeanTheSame(chip, ids, i);
    }
    PrefixNonNegative(chip, config);
    FlatOffsets(chip, config);
    var lines := NewLines(Naturals(offsets), names, config);
    forall k | 0 <= k < |ids| ensures lines[k] == FlatLines(chip, config)[k] {
      SameDictionary(names, chip, config, k);
      assert Offsets(FlatLines(chip, config))[k] == Naturals(offsets)[k] == offsets[k];
    }
  }

  /** One key's lines are entered into the dictionary that maps offsets to settings. */
  method EnterKey(names: map<string, int>, entry: Entry, before: map<int, Option<Settings>>)
    returns (ok: bool, after: map<int, Option<Settings>>)
    ensures ok <==> NamesKnown(names, IdsOf(entry.key))
    ensures ok ==> forall o: int {:trigger o in after} ::
      var here := exists i :: 0 <= i < |IdsOf(entry.key)| && LineToOffset(names, IdsOf(entry.key)[i]) == Some(o);
      (o in after <==> here || o in before) && (o in after ==> after[o] == if here then entry.settings else before[o])
  {
    after := before;
    var ids := IdsOf(entry.key);
    for i := 0 to |ids|
      invariant forall j :: 0 <= j < i ==> LineToOffset(names, ids[j]).Some?
      invariant forall o: int {:trigger o in after} ::
        var here := exists j :: 0 <= j < i && LineToOffset(names, ids[j]) == Some(o);
        (o in after <==> here || o in before) && (o in after ==> after[o] == if here then entry.settings else before[o])
    {
      var o := LineToOffset(names, ids[i]);
      if o.None? {
        return false, after;
      }
      after := after[o.value := entry.settings];
    }
    ok := true;
  }

  lemma NamesOfConcat(names: map<string, int>, a: seq<LineId>, b: seq<LineId>)
    ensures NamesKnown(names, a + b) <==> NamesKnown(names, a) && NamesKnown(names, b)
  {
    var c := a + b;
    assert forall i :: 0 <= i < |a| ==> c[i] == a[i];
    assert forall i :: 0 <= i < |b| ==> c[|a| + i] == b[i];
  }

  lemma PrefixNames(names: map<string, int>, a: seq<LineId>, b: seq<LineId>)
    requires a <= b
    ensures NamesKnown(names, b) ==> NamesKnown(names, a)
  {
    assert forall i :: 0 <= i < |a| ==> a[i] == b[i];
  }

  lemma NextNames(names: map<string, int>, config: seq<Entry>, i: nat)
    requires i < |config| && AllNamesKnown(names, config[..i])
    ensures AllNamesKnown(names, config[..i + 1]) <==> NamesKnown(names, IdsOf(config[i].key))
    ensures AllNamesKnown(names, config) ==> AllNamesKnown(names, config[..i + 1])
  {
    NextIds(config, i);
    NamesOfConcat(names, FlatIds(config[..i]), IdsOf(config[i].key));
    PrefixNames(names, FlatIds(config[..i + 1]), FlatIds(config));
  }

  method EnterAll(names: map<string, int>, config: seq<Entry>) returns (ok: bool, settings: map<int, Option<Settings>>)
    ensures ok <==> AllNamesKnown(names, config)
    ensures ok ==> forall o: int ::
      (if o in settings then settings[o] else None) == LastEntry(names, config, o)
  {
    settings := map[];
    for i := 0 to |config|
      invariant AllNamesKnown(names, config[..i])
      invariant forall o: int {:trigger o in settings} ::
        (if o in settings then settings[o] else None) == LastEntry(names, config[..i], o)
    {
      NextNames(names, config, i);
      assert config[..i + 1][..i] == config[..i];
      ok, settings := EnterKey(names, config[i], settings);
      if !ok {
        return;
      }
    }
    assert config[..|config|] == config;
    ok := true;
  }

  method AddOne(cfg: LineConfig, offset: nat, settings: Settings)
    requires cfg.Valid() && |cfg.Content().lines| < LINES_MAX
    modifies cfg, cfg.slots, cfg.live
    ensures cfg.Valid() && fresh(cfg.live - old(cfg.live))
    ensures cfg.Content() == old(cfg.Content()).(lines := AssignAll(old(cfg.Content()).lines, [offset], settings))
  {
    var boxed := new LineSettings.Copy(settings);
    var ret := cfg.AddLineSettings([offset], boxed);
  }

  lemma NextLine(offsets: seq<nat>, names: map<string, int>, config: seq<Entry>, i: nat)
    requires i < |offsets| && NoRepeats(offsets)
    ensures AssignAll(NewLines(offsets[..i], names, config), [offsets[i]], NewSettings(names, config, offsets[i]))
      == NewLines(offsets[..i + 1], names, config)
  {
    var before := NewLines(offsets[..i], names, config);
    assert forall j :: 0 <= j < i ==> before[j].offset == offsets[j];
    assert Offsets(before) + [offsets[i]] == offsets[..i + 1];
    AssignFresh(before, [offsets[i]], NewSettings(names, config, offsets[i]));
  }

  /** The requested offsets are added one by one, in the request's own order. */
  method BuildInOrder(cfg: LineConfig, offsets: seq<nat>, names: map<string, int>, ghost config: seq<Entry>,
                      settings: map<int, Option<Settings>>)
    requires cfg.Valid() && cfg.Content() == Model([], []) && NoRepeats(offsets) && |offsets| <= LINES_MAX
    requires forall o: int :: (if o in settings then settings[o] else None) == LastEntry(names, config, o)
    modifies cfg, cfg.slots, cfg.live
    ensures cfg.Valid() && cfg.Content() == Model(NewLines(offsets, names, config), [])
  {
    for i := 0 to |offsets|
      invariant cfg.Valid() && fresh(cfg.live - old(cfg.live))
      invariant cfg.Content() == Model(NewLines(offsets[..i], names, config), [])
    {
      NextLine(offsets, names, config, i);
      var o := offsets[i];
      AddOne(cfg, o, if o in settings then GetOr(settings[o], DEFAULTS) else DEFAULTS);
    }
    assert offsets[..|offsets|] == offsets;
  }

  /** A line keeps its configuration, whatever that is, exactly when the dictionary gives no
      settings for it or settings that ask for no direction. */
  lemma KeptIff(names: map<string, int>, config: seq<Entry>, offset: int)
    ensures (forall before: LineState :: Reconfigured(NewSettings(names, config, offset), before) == before) <==>
      (LastEntry(names, config, offset).None? || Undirected(LastEntry(names, config, offset).value))
  {
    IgnoredIff(NewSettings(names, config, offset));
  }

  /** What reconfiguring with a dictionary makes of requested line k. */
  ghost predicate LineFollows(names: map<string, int>, config: seq<Entry>, offset: int, k: nat,
                              before: LineState, levelsBefore: Word, after: LineState, levelsAfter: Word) {
    var s := NewSettings(names, config, offset);
    after == Reconfigured(s, before) &&
    (k in levelsAfter <==> if IsOutput(s) then s.outputValue == Active else k in levelsBefore)
  }

  lemma LinesFollow(offsets: seq<nat>, names: map<string, int>, config: seq<Entry>, c: Config,
                    states: seq<LineState>, levels: Word, k: nat)
    requires Compile(Model(NewLines(offsets, names, config), [])) == Some(c)
    requires NoRepeats(offsets) && k < |offsets| == |states|
    ensures LineFollows(names, config, offsets[k], k, states[k], levels,
                        StatesUnder(c, states)[k], LevelsUnder(c, |offsets|, levels))
  {
    var m := Model(NewLines(offsets, names, config), []);
    assert Offsets(m.lines) == offsets;
    ReconfiguredState(m, c, states, k);
    ReconfiguredLevel(offsets, levels, m, k);
  }

  /** What reconfiguring with a dictionary makes of all lines of a request. */
  ghost predicate AllFollow(offsets: seq<nat>, names: map<string, int>, config: seq<Entry>,
                            before: seq<LineState>, levelsBefore: Word, after: seq<LineState>, levelsAfter: Word) {
    |before| == |after| == |offsets| &&
    forall k :: 0 <= k < |offsets| ==>
      LineFollows(names, config, offsets[k], k, before[k], levelsBefore, after[k], levelsAfter)
  }

  /** The part of LineRequest.reconfigure_lines that calls the C library. */
  method ReconfigureWith(request: LineRequest, cfg: LineConfig, ghost names: map<string, int>, ghost config: seq<Entry>)
    returns (status: Status)
    requires request.Valid() && cfg.Valid() && cfg.Content() == Model(NewLines(request.offsets, names, config), [])
    modifies request.handle
    ensures request.Valid()
    ensures status == if Compile(Model(NewLines(request.offsets, names, config), [])).None? then E2big else Success
    ensures status == Success ==>
      AllFollow(request.offsets, names, config, old(request.handle.states), old(request.handle.levels),
                request.handle.states, request.handle.levels)
    ensures status != Success ==>
      request.handle.states == old(request.handle.states) && request.handle.levels == old(request.handle.levels)
  {
    ghost var m, states, levels := cfg.Content(), request.handle.states, request.handle.levels;
    assert Offsets(m.lines) == request.offsets;
    status := request.ReconfigureLines(cfg);
    if status == Success {
      forall k | 0 <= k < |request.offsets|
        ensures LineFollows(names, config, request.offsets[k], k, states[k], levels,
                            request.handle.states[k], request.handle.levels)
      {
        LinesFollow(request.offsets, names, config, Compile(m).value, states, levels, k);
      }
    }
  }

  /** LineRequest.reconfigure_lines. The config always lists the request's offsets in order, so
      the C library's check of the offsets never fails: only an unknown name or the attribute
      budget can, and then nothing changes. Otherwise each line takes its new settings, and a line
      without an entry, or with none as its settings, is left as it is. */
  method ReconfigureLinesOf(request: LineRequest, names: map<string, int>, config: seq<Entry>)
    returns (outcome: Outcome)
    requires request.Valid()
    modifies request.handle
    ensures request.Valid()
    ensures outcome ==
      if !AllNamesKnown(names, config) then ValueError
      else if Compile(Model(NewLines(request.offsets, names, config), [])).None? then OsError(E2big)
      else Done
    ensures outcome == Done ==>
      AllFollow(request.offsets, names, config, old(request.handle.states), old(request.handle.levels),
                request.handle.states, request.handle.levels)
    ensures outcome == Done ==>
      forall k :: 0 <= k < |request.offsets| && LastEntry(names, config, request.offsets[k]).None? ==>
        request.handle.states[k] == old(request.handle.states)[k] &&
        (k in request.handle.levels <==> k in old(request.handle.levels))
    ensures outcome != Done ==>
      request.handle.states == old(request.handle.states) && request.handle.levels == old(request.handle.levels)
  {
    var ok, settings := EnterAll(names, config);
    if !ok {
      return ValueError;
    }
    var cfg := new LineConfig();
    BuildInOrder(cfg, request.offsets, names, config, settings);
    var status := ReconfigureWith(request, cfg, names, config);
    outcome := if status == Success then Done else OsError(status);
  }
}

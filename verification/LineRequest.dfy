/** lib/line-request.c: reading, driving and reconfiguring requested lines. */
module LineRequest {
  import opened Wrappers
  import opened LineSettings
  import opened Uapi
  import opened Compiler
  import opened OrderedMap
  import opened LineConfig
  import opened UapiCompiler

  // ---------------------------------------------------------------------------------------
  // The kernel's side of a request

  /** The levels that a configuration leaves behind: outputs are driven, other lines keep theirs. */
  function LevelsUnder(c: Config, n: nat, levels: Word): Word {
    set k: nat | k < n && (if FLAG_OUTPUT in EffectiveFlags(c, k) && EffectiveOutput(c, k).Some?
                           then EffectiveOutput(c, k) == Some(Active) else k in levels)
  }

  /** How the kernel has a requested line configured. */
  datatype LineState = LineState(flags: Word, debounceUs: nat)

  function StateUnder(c: Config, k: nat): LineState {
    LineState(EffectiveFlags(c, k), EffectiveDebounce(c, k))
  }

  function InitialStates(c: Config, n: nat): (states: seq<LineState>)
    ensures |states| == n
  {
    seq(n, k requires 0 <= k < n => StateUnder(c, k))
  }

  /** The configuration asks for a direction. */
  predicate Directs(c: Config, k: nat) {
    FLAG_INPUT in EffectiveFlags(c, k) || FLAG_OUTPUT in EffectiveFlags(c, k)
  }

  /** Reconfiguring leaves a line alone unless it is explicitly made an input or an output. */
  function StatesUnder(c: Config, states: seq<LineState>): (after: seq<LineState>)
    ensures |after| == |states|
  {
    seq(|states|, k requires 0 <= k < |states| => if Directs(c, k) then StateUnder(c, k) else states[k])
  }

  /** The line is configured as its settings ask, its period cut to 32 bits. */
  ghost predicate ConfiguredAs(state: LineState, s: Settings) {
    (forall f: nat :: f in state.flags <==> AsksForBit(s, f)) && state.debounceUs == s.debounceUs % 0x1_0000_0000
  }

  /** A request starts with each line configured as its own settings ask. */
  lemma InitialState(m: Model, c: Config, k: nat)
    requires Compile(m) == Some(c) && k < |m.lines|
    ensures ConfiguredAs(InitialStates(c, |m.lines|)[k], m.lines[k].settings)
  {
    MeaningPreserved(m, c, k);
    forall f: nat ensures f in EffectiveFlags(c, k) <==> AsksForBit(m.lines[k].settings, f) {
      CompiledBits(m, c, k, f);
    }
  }

  /** What the file descriptor of a request stands for: bit k of the levels is requested line k. */
  class LineHandle {
    var levels: Word
    var states: seq<LineState>

    constructor (config: Config, n: nat, initial: Word)
      ensures states == InitialStates(config, n) && levels == LevelsUnder(config, n, initial)
    {
      states := InitialStates(config, n);
      levels := LevelsUnder(config, n, initial);
    }

    /** GPIO_V2_LINE_SET_VALUES_IOCTL */
    method SetValues(mask: Word, bits: Word)
      modifies this`levels
      ensures levels == (old(levels) - mask) + (bits * mask)
    {
      levels := (levels - mask) + (bits * mask);
    }

    /** GPIO_V2_LINE_GET_VALUES_IOCTL */
    method GetValues(mask: Word) returns (bits: Word)
      ensures bits == levels * mask
    {
      bits := levels * mask;
    }

    /** GPIO_V2_LINE_SET_CONFIG_IOCTL */
    method SetConfig(c: Config)
      modifies this
      ensures states == StatesUnder(c, old(states)) && levels == LevelsUnder(c, |states|, old(levels))
    {
      states := StatesUnder(c, states);
      levels := LevelsUnder(c, |states|, levels);
    }
  }

  // ---------------------------------------------------------------------------------------
  // Specification

  /** The bit of an offset: its first index among the requested offsets. */
  function BitOf(lines: seq<nat>, offset: nat): (r: Option<nat>)
    ensures r.Some? ==> r.value < |lines| && lines[r.value] == offset
    ensures r.Some? <==> offset in lines
  {
    if lines == [] then None
    else if lines[0] == offset then Some(0)
    else
      var r := BitOf(lines[1..], offset);
      if r.Some? then Some(r.value + 1) else None
  }

  ghost predicate AllKnown(lines: seq<nat>, offsets: seq<nat>) {
    forall i :: 0 <= i < |offsets| ==> offsets[i] in lines
  }

  /** The levels after a write: each named line takes the value last paired with it. */
  ghost function Written(lines: seq<nat>, levels: Word, offsets: seq<nat>, values: seq<int>): Word
    requires |offsets| == |values|
  {
    set k: nat | k < |lines| && (
      var last := LastPaired(offsets, values, lines[k]);
      if last.Some? then last.value != 0 else k in levels)
  }

  function ReadLevel(lines: seq<nat>, levels: Word, offset: nat): int {
    var bit := BitOf(lines, offset);
    if bit.Some? && bit.value in levels then 1 else 0
  }

  lemma {:induction false} BitOfLine(lines: seq<nat>, k: nat)
    requires NoRepeats(lines) && k < |lines|
    ensures BitOf(lines, lines[k]) == Some(k)
  {
    if k > 0 {
      assert lines[0] != lines[k];
      BitOfLine(lines[1..], k - 1);
    }
  }

  /** A line reads as the bit of its own position. */
  lemma ReadsItsBit(lines: seq<nat>, levels: Word, k: nat)
    requires NoRepeats(lines) && k < |lines|
    ensures ReadLevel(lines, levels, lines[k]) == if k in levels then 1 else 0
  {
    BitOfLine(lines, k);
  }

  /** After a write the last value given for a line's offset is its level, and lines that are not
      named keep theirs. */
  lemma WrittenLevel(lines: seq<nat>, levels: Word, offsets: seq<nat>, values: seq<int>, k: nat)
    requires k < |lines| && |offsets| == |values|
    ensures forall i :: 0 <= i < |offsets| && offsets[i] == lines[k] && lines[k] !in offsets[i + 1..] ==>
      (k in Written(lines, levels, offsets, values) <==> values[i] != 0)
    ensures lines[k] !in offsets ==> (k in Written(lines, levels, offsets, values) <==> k in levels)
  {
    forall i | 0 <= i < |offsets| && offsets[i] == lines[k] && lines[k] !in offsets[i + 1..]
      ensures LastPaired(offsets, values, lines[k]) == Some(values[i])
    {
      assert forall j :: i < j < |offsets| ==> offsets[j] == offsets[i + 1..][j - i - 1];
      LastPairCounts(offsets, values, i);
    }
    if lines[k] !in offsets {
      UnpairedKey(offsets, values, lines[k]);
    }
  }

  /** Set then get: every named line reads back the value last paired with it, 1 standing for
      any nonzero value; every other line reads as before. */
  lemma ReadAfterWrite(lines: seq<nat>, levels: Word, offsets: seq<nat>, values: seq<int>, offset: nat)
    requires offset in lines
    requires |offsets| == |values|
    ensures ReadLevel(lines, Written(lines, levels, offsets, values), offset) ==
      match LastPaired(offsets, values, offset)
      case Some(v) => if v != 0 then 1 else 0
      case None => ReadLevel(lines, levels, offset)
  {
    var k := BitOf(lines, offset).value;
    assert lines[k] == offset;
  }

  // ---------------------------------------------------------------------------------------
  // The request object

  class LineRequest {
    const offsets: seq<nat>
    const handle: LineHandle

    /** The kernel grants a line to one request at most, and no more than 64 of them. */
    ghost predicate Valid()
      reads handle
    {
      NoRepeats(offsets) && |offsets| == |handle.states| <= LINES_MAX &&
      forall k :: k in handle.levels ==> k < |offsets|
    }

    constructor (offsets: seq<nat>, handle: LineHandle)
      ensures this.offsets == offsets && this.handle == handle
    {
      this.offsets := offsets;
      this.handle := handle;
    }

    /** offset_to_bit: -1 for an offset that was not requested. */
    method OffsetToBit(offset: nat) returns (bit: int)
      ensures bit == if BitOf(offsets, offset).Some? then BitOf(offsets, offset).value else -1
    {
      for i := 0 to |offsets|
        invariant BitOf(offsets, offset) ==
          var r := BitOf(offsets[i..], offset); if r.Some? then Some(r.value + i) else None
      {
        if offset == offsets[i] {
          return i;
        }
        assert offsets[i..][1..] == offsets[i + 1..];
      }
      bit := -1;
    }

    /** gpiod_line_request_get_values_subset */
    method GetValuesSubset(wanted: seq<nat>, values: array<int>) returns (ret: Status)
      requires Valid() && |wanted| <= values.Length
      modifies values
      ensures ret == Success <==> AllKnown(offsets, wanted)
      ensures ret == Success ==> forall i :: 0 <= i < |wanted| ==>
        values[i] == ReadLevel(offsets, handle.levels, wanted[i])
      ensures ret == Success ==> forall i, k: nat :: 0 <= i < |wanted| && k < |offsets| && wanted[i] == offsets[k] ==>
        values[i] == if k in handle.levels then 1 else 0
      ensures forall i :: |wanted| <= i < values.Length ==> values[i] == old(values[i])
      ensures ret != Success ==> values[..] == old(values[..])
    {
      var mask: Word := {};
      for i := 0 to |wanted|
        invariant forall j :: 0 <= j < i ==> wanted[j] in offsets && BitOf(offsets, wanted[j]).value in mask
        invariant values[..] == old(values[..])
      {
        var bit := OffsetToBit(wanted[i]);
        if bit < 0 {
          return Einval;
        }
        mask := mask + {bit};
      }
      var bits := handle.GetValues(mask);
      for i := 0 to |wanted|
        invariant forall j :: 0 <= j < i ==> values[j] == ReadLevel(offsets, handle.levels, wanted[j])
        invariant forall j :: |wanted| <= j < values.Length ==> values[j] == old(values[j])
      {
        var bit := OffsetToBit(wanted[i]);
        values[i] := if bit in bits then 1 else 0;
      }
      forall k: nat | k < |offsets|
        ensures ReadLevel(offsets, handle.levels, offsets[k]) == if k in handle.levels then 1 else 0
      {
        ReadsItsBit(offsets, handle.levels, k);
      }
      ret := Success;
    }

    /** The two words that the loop of gpiod_line_request_set_values_subset builds up. */
    ghost predicate MaskAndBits(mask: Word, bits: Word, named: seq<nat>, values: seq<int>)
      requires |named| == |values|
    {
      (forall k: nat {:trigger k in mask} :: k in mask <==>
        k < |offsets| && LastPaired(named, values, offsets[k]).Some?) &&
      (forall k: nat {:trigger k in bits} :: k in bits <==>
        k < |offsets| && LastPaired(named, values, offsets[k]).Some? &&
        LastPaired(named, values, offsets[k]).value != 0)
    }

    lemma MaskOneMore(mask: Word, bits: Word, named: seq<nat>, values: seq<int>, i: nat, bit: nat)
      requires i < |named| == |values| && MaskAndBits(mask, bits, named[..i], values[..i])
      requires NoRepeats(offsets) && bit < |offsets| && offsets[bit] == named[i]
      ensures MaskAndBits(mask + {bit}, if values[i] != 0 then bits + {bit} else bits - {bit},
        named[..i + 1], values[..i + 1])
    {
      assert named[..i + 1][..i] == named[..i] && values[..i + 1][..i] == values[..i];
    }

    /** gpiod_line_request_set_values_subset */
    method SetValuesSubset(named: seq<nat>, values: seq<int>) returns (ret: Status)
      requires Valid() && |named| == |values|
      modifies handle`levels
      ensures Valid() && (ret == Success <==> AllKnown(offsets, named))
      ensures handle.levels ==
        if ret == Success then Written(offsets, old(handle.levels), named, values) else old(handle.levels)
    {
      var mask: Word, bits: Word := {}, {};
      for i := 0 to |named|
        invariant AllKnown(offsets, named[..i]) && handle.levels == old(handle.levels)
        invariant MaskAndBits(mask, bits, named[..i], values[..i])
      {
        var bit := OffsetToBit(named[i]);
        if bit < 0 {
          return Einval;
        }
        MaskOneMore(mask, bits, named, values, i, bit);
        mask := mask + {bit};
        bits := if values[i] != 0 then bits + {bit} else bits - {bit};
      }
      assert named[..|named|] == named && values[..|named|] == values;
      handle.SetValues(mask, bits);
      ret := Success;
    }

    /** gpiod_line_request_set_values: the values are in the order of the requested offsets. */
    method SetAllValues(values: seq<int>) returns (ret: Status)
      requires Valid() && |values| == |offsets|
      modifies handle`levels
      ensures Valid() && ret == Success
      ensures forall k: nat :: k < |offsets| ==> (k in handle.levels <==> values[k] != 0)
    {
      ret := SetValuesSubset(offsets, values);
      forall k: nat | k < |offsets| ensures LastPaired(offsets, values, offsets[k]) == Some(values[k]) {
        PairedOnce(offsets, values, k);
      }
    }

    method OffsetsEqual(buf: LineRequestBuffer) returns (same: bool)
      requires buf.Valid()
      ensures same <==> buf.offsets[..buf.numLines] == offsets
    {
      if |offsets| != buf.numLines {
        return false;
      }
      for i := 0 to |offsets|
        invariant buf.offsets[..i] == offsets[..i]
      {
        if offsets[i] != buf.offsets[i] {
          return false;
        }
      }
      assert offsets[..|offsets|] == offsets;
      same := true;
    }

    /** gpiod_line_request_reconfigure_lines */
    method ReconfigureLines(cfg: LineConfig) returns (ret: Status)
      requires Valid() && cfg.Valid()
      modifies handle
      ensures Valid()
      ensures ret == if Compile(cfg.Content()).None? then E2big
        else if Offsets(cfg.Content().lines) == offsets then Success else Einval
      ensures ret == Success ==> handle.states == StatesUnder(Compile(cfg.Content()).value, old(handle.states))
      ensures ret == Success ==>
        handle.levels == LevelsUnder(Compile(cfg.Content()).value, |offsets|, old(handle.levels))
      ensures ret != Success ==> handle.states == old(handle.states) && handle.levels == old(handle.levels)
    {
      var buf := new LineRequestBuffer();
      var ok := ToUapi(cfg, buf);
      if !ok {
        return E2big;
      }
      var same := OffsetsEqual(buf);
      if !same {
        return Einval;
      }
      handle.SetConfig(buf.Contents());
      ret := Success;
    }
  }

  /** The granted request, and gpiod_line_request_from_uapi. */
  method RequestFromUapi(buf: LineRequestBuffer, initial: Word) returns (request: LineRequest)
    requires buf.Valid() && NoRepeats(buf.offsets[..buf.numLines])
    ensures fresh(request) && fresh(request.handle) && request.Valid()
    ensures request.offsets == buf.offsets[..buf.numLines]
    ensures request.handle.states == InitialStates(buf.Contents(), buf.numLines)
    ensures request.handle.levels == LevelsUnder(buf.Contents(), buf.numLines, initial)
  {
    var handle := new LineHandle(buf.Contents(), buf.numLines, initial);
    request := new LineRequest(buf.offsets[..buf.numLines], handle);
  }

  lemma DistinctOffsetsOfLines(cfg: LineConfig)
    requires cfg.Valid()
    ensures NoRepeats(Offsets(cfg.Content().lines)) && |cfg.Content().lines| <= LINES_MAX
  {
    assert forall i :: 0 <= i < |cfg.mapped| ==> Offsets(cfg.Content().lines)[i] == cfg.mapped[i].offset;
  }

  /** gpiod_chip_request_lines. The chip grants the lines or not; only lines that nobody holds
      and that exist are granted, each once. */
  method RequestLines(cfg: LineConfig, granted: bool, initial: Word) returns (request: LineRequest?)
    requires cfg.Valid()
    ensures request != null <==> granted && Compile(cfg.Content()).Some?
    ensures request != null ==> fresh(request) && fresh(request.handle) && request.Valid()
    ensures request != null ==> request.offsets == Offsets(cfg.Content().lines)
    ensures request != null ==>
      request.handle.states == InitialStates(Compile(cfg.Content()).value, |cfg.Content().lines|)
    ensures request != null ==>
      request.handle.levels == LevelsUnder(Compile(cfg.Content()).value, |cfg.Content().lines|, initial)
    ensures request != null ==> forall k :: 0 <= k < |request.offsets| ==>
      ConfiguredAs(request.handle.states[k], cfg.Content().lines[k].settings)
  {
    var buf := new LineRequestBuffer();
    DistinctOffsetsOfLines(cfg);
    ghost var m := cfg.Content();
    var ok := ToUapi(cfg, buf);
    assert cfg.Content() == m;
    if !ok || !granted {
      return null;
    }
    request := RequestFromUapi(buf, initial);
    forall k: nat | k < |m.lines| ensures ConfiguredAs(request.handle.states[k], m.lines[k].settings) {
      InitialState(m, buf.Contents(), k);
    }
  }

  // ---------------------------------------------------------------------------------------
  // Runs of a request

  datatype Op =
    | Write(offsets: seq<nat>, values: seq<int>)
    | Reconfigure(m: Model)

  predicate Paired(op: Op) {
    op.Write? ==> |op.offsets| == |op.values|
  }

  ghost predicate Accepted(lines: seq<nat>, op: Op) {
    match op
    case Write(offsets, _) => AllKnown(lines, offsets)
    case Reconfigure(m) => Compile(m).Some? && Offsets(m.lines) == lines
  }

  ghost function LevelsAfter(lines: seq<nat>, levels: Word, op: Op): Word
    requires Paired(op)
  {
    if !Accepted(lines, op) then levels
    else match op
      case Write(offsets, values) => Written(lines, levels, offsets, values)
      case Reconfigure(m) => LevelsUnder(Compile(m).value, |lines|, levels)
  }

  ghost function LevelsAfterAll(lines: seq<nat>, levels: Word, ops: seq<Op>): Word
    requires forall i :: 0 <= i < |ops| ==> Paired(ops[i])
  {
    if ops == [] then levels
    else LevelsAfter(lines, LevelsAfterAll(lines, levels, ops[..|ops| - 1]), ops[|ops| - 1])
  }

  /** The value an operation assigns to an offset: written, or asked for by an output line's
      settings in an accepted reconfiguration. */
  ghost function Assigned(lines: seq<nat>, op: Op, offset: nat): Option<int>
    requires Paired(op)
  {
    if !Accepted(lines, op) then None
    else match op
      case Write(offsets, values) => LastPaired(offsets, values, offset)
      case Reconfigure(m) =>
        var i := IndexOf(m.lines, offset);
        if i < |m.lines| && IsOutput(m.lines[i].settings) then Some(ValueCode(Reported(m, i).outputValue)) else None
  }

  ghost function LastAssigned(lines: seq<nat>, ops: seq<Op>, offset: nat): Option<int>
    requires forall i :: 0 <= i < |ops| ==> Paired(ops[i])
  {
    if ops == [] then None
    else
      var last := Assigned(lines, ops[|ops| - 1], offset);
      if last.Some? then last else LastAssigned(lines, ops[..|ops| - 1], offset)
  }

  lemma ReconfiguredLevel(lines: seq<nat>, levels: Word, m: Model, k: nat)
    requires NoRepeats(lines) && k < |lines|
    requires Compile(m).Some? && Offsets(m.lines) == lines
    ensures IndexOf(m.lines, lines[k]) == k
    ensures k in LevelsUnder(Compile(m).value, |lines|, levels) <==>
      if IsOutput(m.lines[k].settings) then Reported(m, k).outputValue == Active else k in levels
  {
    IndexIsUnique(m.lines, k);
    MeaningPreserved(m, Compile(m).value, k);
    FlagMembers(m.lines[k].settings);
  }

  /** A reconfiguration is accepted only with the request's offsets in the request's order, so
      over any run the k-th bit keeps standing for the k-th offset: a line's level is the value
      last assigned to its offset, by whichever operation. */
  lemma {:induction false} RunKeepsIndexMap(lines: seq<nat>, levels: Word, ops: seq<Op>, k: nat)
    requires NoRepeats(lines) && k < |lines|
    requires forall i :: 0 <= i < |ops| ==> Paired(ops[i])
    ensures
      var last := LastAssigned(lines, ops, lines[k]);
      k in LevelsAfterAll(lines, levels, ops) <==> if last.Some? then last.value != 0 else k in levels
  {
    if ops != [] {
      var front, op := ops[..|ops| - 1], ops[|ops| - 1];
      RunKeepsIndexMap(lines, levels, front, k);
      if op.Reconfigure? && Accepted(lines, op) {
        ReconfiguredLevel(lines, LevelsAfterAll(lines, levels, front), op.m, k);
      }
    }
  }

  // ---------------------------------------------------------------------------------------
  // What reconfiguring does to one line

  /** Settings that ask for no direction, not even by asking for edges. */
  predicate Undirected(s: Settings) {
    s.direction == DirectionAsIs && s.edge == EdgeNone
  }

  function Reconfigured(s: Settings, before: LineState): LineState {
    if Undirected(s) then before else LineState(MakeKernelFlags(s), Truncate32(s.debounceUs))
  }

  lemma DirectsIff(m: Model, c: Config, k: nat)
    requires Compile(m) == Some(c) && k < |m.lines|
    ensures Directs(c, k) <==> !Undirected(m.lines[k].settings)
  {
    MeaningPreserved(m, c, k);
    FlagMembers(m.lines[k].settings);
  }

  /** Reconfiguring gives each line its new settings, unless they ask for no direction. */
  lemma ReconfiguredState(m: Model, c: Config, states: seq<LineState>, k: nat)
    requires Compile(m) == Some(c) && k < |m.lines| == |states|
    ensures StatesUnder(c, states)[k] == Reconfigured(m.lines[k].settings, states[k])
  {
    DirectsIff(m, c, k);
    MeaningPreserved(m, c, k);
  }

  /** Whatever a line was configured to, it stays that way exactly with such settings. */
  lemma IgnoredIff(s: Settings)
    ensures (forall before: LineState :: Reconfigured(s, before) == before) <==> Undirected(s)
  {
    if !Undirected(s) {
      FlagMembers(s);
      assert Reconfigured(s, LineState({}, 0)).flags != {};
    }
  }

  ghost function StatesAfter(lines: seq<nat>, states: seq<LineState>, op: Op): (after: seq<LineState>)
    ensures |after| == |states|
  {
    if op.Reconfigure? && Accepted(lines, op) then StatesUnder(Compile(op.m).value, states) else states
  }

  ghost function StatesAfterAll(lines: seq<nat>, states: seq<LineState>, ops: seq<Op>): (after: seq<LineState>)
    ensures |after| == |states|
  {
    if ops == [] then states
    else StatesAfter(lines, StatesAfterAll(lines, states, ops[..|ops| - 1]), ops[|ops| - 1])
  }

  /** The settings of the last accepted reconfiguration that asks for a direction of the line. */
  ghost function LastDirected(lines: seq<nat>, ops: seq<Op>, offset: nat): Option<Settings> {
    if ops == [] then None
    else
      var op := ops[|ops| - 1];
      var i := if op.Reconfigure? then IndexOf(op.m.lines, offset) else 0;
      if op.Reconfigure? && Accepted(lines, op) && i < |op.m.lines| && !Undirected(op.m.lines[i].settings)
      then Some(op.m.lines[i].settings) else LastDirected(lines, ops[..|ops| - 1], offset)
  }

  /** Over any run a line is configured as the last reconfiguration that directed it says, and as
      it was requested if none did. */
  lemma {:induction false} RunKeepsConfiguration(lines: seq<nat>, states: seq<LineState>, ops: seq<Op>, k: nat)
    requires NoRepeats(lines) && k < |lines| == |states|
    ensures
      var last := LastDirected(lines, ops, lines[k]);
      StatesAfterAll(lines, states, ops)[k] == if last.Some? then Reconfigured(last.value, states[k]) else states[k]
  {
    if ops != [] {
      var front, op := ops[..|ops| - 1], ops[|ops| - 1];
      RunKeepsConfiguration(lines, states, front, k);
      if op.Reconfigure? && Accepted(lines, op) {
        IndexIsUnique(op.m.lines, k);
        ReconfiguredState(op.m, Compile(op.m).value, StatesAfterAll(lines, states, front), k);
      }
    }
  }
}

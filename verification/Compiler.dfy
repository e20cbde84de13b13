/** The compiler of lib/line-config.c on values: what gpiod_line_config_to_uapi makes of an
    ordered offset-to-settings map, and the theorems about it. The class LineConfig runs the
    same compiler in place and is proved to compute Compile. */
module Compiler {
  import opened Wrappers
  import opened LineSettings
  import opened Uapi
  import opened Grouping

  datatype Line = Line(offset: nat, settings: Settings)

  /** The content of a line config: lines in slot order, and the "global" output values. */
  datatype Model = Model(lines: seq<Line>, outputs: seq<Value>)

  predicate IsOutput(s: Settings) {
    s.direction == Output
  }

  /** What gpiod_line_config_get_line_settings reports for slot i. */
  function Reported(m: Model, i: nat): Settings
    requires i < |m.lines|
  {
    if i < |m.outputs| then m.lines[i].settings.(outputValue := m.outputs[i]) else m.lines[i].settings
  }

  function DirectionFlags(d: Direction): Word {
    match d
    case Input => {FLAG_INPUT}
    case Output => {FLAG_OUTPUT}
    case DirectionAsIs => {}
  }

  function EdgeFlags(e: Edge): Word {
    match e
    case Falling => {FLAG_EDGE_FALLING, FLAG_INPUT}
    case Rising => {FLAG_EDGE_RISING, FLAG_INPUT}
    case Both => {FLAG_EDGE_FALLING, FLAG_EDGE_RISING, FLAG_INPUT}
    case EdgeNone => {}
  }

  function DriveFlags(d: Drive): Word {
    match d
    case OpenDrain => {FLAG_OPEN_DRAIN}
    case OpenSource => {FLAG_OPEN_SOURCE}
    case PushPull => {}
  }

  function BiasFlags(b: Bias): Word {
    match b
    case BiasDisabled => {FLAG_BIAS_DISABLED}
    case PullUp => {FLAG_BIAS_PULL_UP}
    case PullDown => {FLAG_BIAS_PULL_DOWN}
    case _ => {}
  }

  function ActiveLowFlags(activeLow: bool): Word {
    if activeLow then {FLAG_ACTIVE_LOW} else {}
  }

  function ClockFlags(c: Clock): Word {
    match c
    case Realtime => {FLAG_EVENT_CLOCK_REALTIME}
    case Hte => {FLAG_EVENT_CLOCK_HTE}
    case Monotonic => {}
  }

  function MakeKernelFlags(s: Settings): Word {
    DirectionFlags(s.direction) + EdgeFlags(s.edge) + DriveFlags(s.drive)
    + BiasFlags(s.bias) + ActiveLowFlags(s.activeLow) + ClockFlags(s.clock)
  }

  lemma DirectionAndEdgeMembers(s: Settings)
    ensures FLAG_OUTPUT in MakeKernelFlags(s) <==> s.direction == Output
    ensures FLAG_INPUT in MakeKernelFlags(s) <==> s.direction == Input || s.edge != EdgeNone
    ensures FLAG_EDGE_RISING in MakeKernelFlags(s) <==> s.edge == Rising || s.edge == Both
    ensures FLAG_EDGE_FALLING in MakeKernelFlags(s) <==> s.edge == Falling || s.edge == Both
  {
  }

  lemma DriveMembers(s: Settings)
    ensures FLAG_OPEN_DRAIN in MakeKernelFlags(s) <==> s.drive == OpenDrain
    ensures FLAG_OPEN_SOURCE in MakeKernelFlags(s) <==> s.drive == OpenSource
  {
  }

  lemma BiasMembers(s: Settings)
    ensures FLAG_BIAS_PULL_UP in MakeKernelFlags(s) <==> s.bias == PullUp
    ensures FLAG_BIAS_PULL_DOWN in MakeKernelFlags(s) <==> s.bias == PullDown
    ensures FLAG_BIAS_DISABLED in MakeKernelFlags(s) <==> s.bias == BiasDisabled
  {
  }

  lemma OtherMembers(s: Settings)
    ensures FLAG_ACTIVE_LOW in MakeKernelFlags(s) <==> s.activeLow
    ensures FLAG_EVENT_CLOCK_REALTIME in MakeKernelFlags(s) <==> s.clock == Realtime
    ensures FLAG_EVENT_CLOCK_HTE in MakeKernelFlags(s) <==> s.clock == Hte
    ensures FLAG_USED !in MakeKernelFlags(s)
  {
  }

  /** What each flag says about the settings. */
  lemma FlagMembers(s: Settings)
    ensures FLAG_OUTPUT in MakeKernelFlags(s) <==> s.direction == Output
    ensures FLAG_INPUT in MakeKernelFlags(s) <==> s.direction == Input || s.edge != EdgeNone
    ensures FLAG_EDGE_RISING in MakeKernelFlags(s) <==> s.edge == Rising || s.edge == Both
    ensures FLAG_EDGE_FALLING in MakeKernelFlags(s) <==> s.edge == Falling || s.edge == Both
    ensures FLAG_OPEN_DRAIN in MakeKernelFlags(s) <==> s.drive == OpenDrain
    ensures FLAG_OPEN_SOURCE in MakeKernelFlags(s) <==> s.drive == OpenSource
    ensures FLAG_BIAS_PULL_UP in MakeKernelFlags(s) <==> s.bias == PullUp
    ensures FLAG_BIAS_PULL_DOWN in MakeKernelFlags(s) <==> s.bias == PullDown
    ensures FLAG_BIAS_DISABLED in MakeKernelFlags(s) <==> s.bias == BiasDisabled
    ensures FLAG_ACTIVE_LOW in MakeKernelFlags(s) <==> s.activeLow
    ensures FLAG_EVENT_CLOCK_REALTIME in MakeKernelFlags(s) <==> s.clock == Realtime
    ensures FLAG_EVENT_CLOCK_HTE in MakeKernelFlags(s) <==> s.clock == Hte
    ensures FLAG_USED !in MakeKernelFlags(s)
  {
    DirectionAndEdgeMembers(s);
    DriveMembers(s);
    BiasMembers(s);
    OtherMembers(s);
  }

  /** Which settings ask for which bit of the flags word, the bits numbered as in the kernel's
      header; no settings ask for any other bit. */
  ghost predicate AsksForBit(s: Settings, f: nat) {
    || (f == 1 && s.activeLow)
    || (f == 2 && (s.direction == Input || s.edge != EdgeNone))
    || (f == 3 && s.direction == Output)
    || (f == 4 && (s.edge == Rising || s.edge == Both))
    || (f == 5 && (s.edge == Falling || s.edge == Both))
    || (f == 6 && s.drive == OpenDrain)
    || (f == 7 && s.drive == OpenSource)
    || (f == 8 && s.bias == PullUp)
    || (f == 9 && s.bias == PullDown)
    || (f == 10 && s.bias == BiasDisabled)
    || (f == 11 && s.clock == Realtime)
    || (f == 12 && s.clock == Hte)
  }

  lemma OnlyDefinedBits(s: Settings, f: nat)
    ensures f in MakeKernelFlags(s) ==> 1 <= f <= 12
  {
  }

  /** The flags word has the bits asked for and no other. */
  lemma FlagBits(s: Settings, f: nat)
    ensures f in MakeKernelFlags(s) <==> AsksForBit(s, f)
  {
    OnlyDefinedBits(s, f);
    FlagMembers(s);
  }

  predicate SettingsEqual(left: Settings, right: Settings) {
    && left.direction == right.direction
    && left.edge == right.edge
    && left.bias == right.bias
    && left.drive == right.drive
    && left.activeLow == right.activeLow
    && left.clock == right.clock
  }

  /** The part of the settings that SettingsEqual looks at. */
  function FlagKey(s: Settings): Settings {
    s.(debounceUs := 0, outputValue := Inactive)
  }

  /** The store into the 32-bit attribute field drops the high half of the period. */
  function Truncate32(period: nat): nat {
    period % U32_LIMIT
  }

  /** What a line is grouped by for debouncing: its period, unless that is zero. */
  function DebounceKey(s: Settings): Option<nat> {
    if s.debounceUs == 0 then None else Some(s.debounceUs)
  }

  // Line by line; recursive, so that proofs unfold them only where they ask to.

  ghost function DebounceKeys(lines: seq<Line>): (keys: seq<Option<nat>>)
    ensures |keys| == |lines|
  {
    if lines == [] then [] else [DebounceKey(lines[0].settings)] + DebounceKeys(lines[1..])
  }

  ghost function DebounceValues(lines: seq<Line>): (values: seq<Attribute>)
    ensures |values| == |lines|
  {
    if lines == [] then [] else [Debounce(Truncate32(lines[0].settings.debounceUs))] + DebounceValues(lines[1..])
  }

  ghost function FlagKeys(lines: seq<Line>): (keys: seq<Option<Settings>>)
    ensures |keys| == |lines|
  {
    if lines == [] then [] else [Some(FlagKey(lines[0].settings))] + FlagKeys(lines[1..])
  }

  ghost function FlagValues(lines: seq<Line>): (values: seq<Attribute>)
    ensures |values| == |lines|
  {
    if lines == [] then [] else [Flags(MakeKernelFlags(lines[0].settings))] + FlagValues(lines[1..])
  }

  lemma {:induction false} DebounceAt(lines: seq<Line>)
    ensures forall i :: 0 <= i < |lines| ==> DebounceKeys(lines)[i] == DebounceKey(lines[i].settings)
    ensures forall i :: 0 <= i < |lines| ==>
      DebounceValues(lines)[i] == Debounce(Truncate32(lines[i].settings.debounceUs))
  {
    if lines != [] {
      DebounceAt(lines[1..]);
    }
  }

  lemma {:induction false} FlagsAt(lines: seq<Line>)
    ensures forall i :: 0 <= i < |lines| ==> FlagKeys(lines)[i] == Some(FlagKey(lines[i].settings))
    ensures forall i :: 0 <= i < |lines| ==> FlagValues(lines)[i] == Flags(MakeKernelFlags(lines[i].settings))
  {
    if lines != [] {
      FlagsAt(lines[1..]);
    }
  }

  ghost predicate HasOutput(lines: seq<Line>) {
    exists i :: 0 <= i < |lines| && IsOutput(lines[i].settings)
  }

  ghost function OutputMask(m: Model): Word {
    set i: nat | i < |m.lines| + |m.outputs| &&
      (i < |m.outputs| || (i < |m.lines| && IsOutput(m.lines[i].settings)))
  }

  ghost function OutputBits(m: Model): Word {
    set i | i in OutputMask(m) &&
      (if i < |m.outputs| then m.outputs[i] else m.lines[i].settings.outputValue) == Active
  }

  ghost function OutputBlock(m: Model): seq<ConfigAttribute> {
    if HasOutput(m.lines) then [ConfigAttribute(OutputValues(OutputBits(m)), OutputMask(m))] else []
  }

  ghost function DebounceBlock(m: Model, n: nat): seq<ConfigAttribute>
    requires n <= |m.lines|
  {
    Block(DebounceKeys(m.lines), DebounceValues(m.lines), n)
  }

  /** The class of line 0 becomes the default flags; the others become attributes. */
  ghost function FlagBlock(m: Model, n: nat): seq<ConfigAttribute>
    requires n <= |m.lines|
  {
    if n <= 1 then []
    else FlagBlock(m, n - 1) + Emitted(FlagKeys(m.lines), FlagValues(m.lines), n - 1)
  }

  lemma {:induction false} FlagBlockIsTail(m: Model, n: nat)
    requires 0 < n <= |m.lines|
    ensures Block(FlagKeys(m.lines), FlagValues(m.lines), n) != []
    ensures FlagBlock(m, n) == Block(FlagKeys(m.lines), FlagValues(m.lines), n)[1..]
  {
    if n == 1 {
      FlagsAt(m.lines);
      FirstIsDefault(FlagKeys(m.lines), FlagValues(m.lines), 1);
      assert Block(FlagKeys(m.lines), FlagValues(m.lines), 0) == [];
    } else {
      FlagBlockIsTail(m, n - 1);
    }
  }

  ghost function DefaultFlags(m: Model): Word {
    if m.lines == [] then {} else MakeKernelFlags(m.lines[0].settings)
  }

  ghost function AllAttributes(m: Model): seq<ConfigAttribute> {
    OutputBlock(m) + DebounceBlock(m, |m.lines|) + FlagBlock(m, |m.lines|)
  }

  /** What the compiler would produce with room for any number of attributes. */
  ghost function Unbounded(m: Model): Config {
    Config(DefaultFlags(m), AllAttributes(m))
  }

  /** None stands for the E2BIG error. */
  ghost function Compile(m: Model): Option<Config> {
    if |AllAttributes(m)| > NUM_ATTRS_MAX then None else Some(Unbounded(m))
  }

  // ---------------------------------------------------------------------------------------
  // Meaning

  lemma DebounceConsistent(m: Model)
    ensures Consistent(DebounceKeys(m.lines), DebounceValues(m.lines), KindDebounce)
  {
    DebounceAt(m.lines);
  }

  lemma FlagsOfKey(s: Settings)
    ensures MakeKernelFlags(FlagKey(s)) == MakeKernelFlags(s)
  {
  }

  lemma FlagsConsistent(m: Model)
    ensures Consistent(FlagKeys(m.lines), FlagValues(m.lines), KindFlags)
  {
    FlagsAt(m.lines);
    forall i, j | 0 <= i < |m.lines| && 0 <= j < |m.lines| && FlagKeys(m.lines)[i] == FlagKeys(m.lines)[j]
      ensures FlagValues(m.lines)[i] == FlagValues(m.lines)[j]
    {
      FlagsOfKey(m.lines[i].settings);
      FlagsOfKey(m.lines[j].settings);
    }
  }

  lemma KindsOfBlocks(m: Model)
    ensures forall p :: 0 <= p < |OutputBlock(m)| ==> KindOf(OutputBlock(m)[p].attr) == KindOutputValues
    ensures forall p :: 0 <= p < |DebounceBlock(m, |m.lines|)| ==>
      KindOf(DebounceBlock(m, |m.lines|)[p].attr) == KindDebounce
    ensures forall p :: 0 <= p < |FlagBlock(m, |m.lines|)| ==> KindOf(FlagBlock(m, |m.lines|)[p].attr) == KindFlags
  {
    DebounceConsistent(m);
    FlagsConsistent(m);
    BlockKinds(DebounceKeys(m.lines), DebounceValues(m.lines), KindDebounce, |m.lines|);
    BlockKinds(FlagKeys(m.lines), FlagValues(m.lines), KindFlags, |m.lines|);
    if m.lines != [] {
      FlagBlockIsTail(m, |m.lines|);
    }
  }

  lemma MatchInOneOfThree(a: seq<ConfigAttribute>, b: seq<ConfigAttribute>, c: seq<ConfigAttribute>,
                          ka: Kind, kb: Kind, kc: Kind, line: nat)
    requires ka != kb && kb != kc && ka != kc
    requires forall p :: 0 <= p < |a| ==> KindOf(a[p].attr) == ka
    requires forall p :: 0 <= p < |b| ==> KindOf(b[p].attr) == kb
    requires forall p :: 0 <= p < |c| ==> KindOf(c[p].attr) == kc
    ensures FirstMatch(a + b + c, ka, line) == FirstMatch(a, ka, line)
    ensures FirstMatch(a + b + c, kb, line) == FirstMatch(b, kb, line)
    ensures FirstMatch(a + b + c, kc, line) == FirstMatch(c, kc, line)
  {
    forall k: Kind
      ensures FirstMatch(a + b + c, k, line) ==
        if FirstMatch(a, k, line).Some? then FirstMatch(a, k, line)
        else if FirstMatch(b, k, line).Some? then FirstMatch(b, k, line)
        else FirstMatch(c, k, line)
    {
      FirstMatchOfConcat(a + b, c, k, line);
      FirstMatchOfConcat(a, b, k, line);
    }
    FirstMatchNone(a, kb, line);
    FirstMatchNone(a, kc, line);
    FirstMatchNone(b, ka, line);
    FirstMatchNone(b, kc, line);
    FirstMatchNone(c, ka, line);
    FirstMatchNone(c, kb, line);
  }

  /** Each kind of attribute is found in its own block. */
  lemma MatchInBlock(m: Model, line: nat)
    ensures FirstMatch(AllAttributes(m), KindOutputValues, line) == FirstMatch(OutputBlock(m), KindOutputValues, line)
    ensures FirstMatch(AllAttributes(m), KindDebounce, line) ==
      FirstMatch(DebounceBlock(m, |m.lines|), KindDebounce, line)
    ensures FirstMatch(AllAttributes(m), KindFlags, line) == FirstMatch(FlagBlock(m, |m.lines|), KindFlags, line)
  {
    var a, b, c := OutputBlock(m), DebounceBlock(m, |m.lines|), FlagBlock(m, |m.lines|);
    KindsOfBlocks(m);
    MatchInOneOfThree(a, b, c, KindOutputValues, KindDebounce, KindFlags, line);
  }

  lemma DebounceMeaning(m: Model, i: nat)
    requires i < |m.lines|
    ensures
      var a := FirstMatch(DebounceBlock(m, |m.lines|), KindDebounce, i);
      (if a.Some? then a.value.periodUs else 0) == Truncate32(m.lines[i].settings.debounceUs)
  {
    var keys := DebounceKeys(m.lines);
    DebounceAt(m.lines);
    DebounceConsistent(m);
    BlockMeaning(keys, DebounceValues(m.lines), KindDebounce, |m.lines|, i);
    assert keys[i] == keys[i];
  }

  lemma OutputMeaning(m: Model, i: nat)
    requires i < |m.lines| && IsOutput(m.lines[i].settings)
    ensures
      var a := FirstMatch(OutputBlock(m), KindOutputValues, i);
      a.Some? && (i in a.value.values <==> Reported(m, i).outputValue == Active)
  {
    assert OutputBlock(m)[0].mask == OutputMask(m);
    assert i in OutputMask(m);
  }

  lemma FlagsMeaning(m: Model, i: nat)
    requires i < |m.lines|
    ensures
      var a := FirstMatch(FlagBlock(m, |m.lines|), KindFlags, i);
      (if a.Some? then a.value.flags else DefaultFlags(m)) == MakeKernelFlags(m.lines[i].settings)
  {
    FlagsAt(m.lines);
    FlagsConsistent(m);
    FlagBlockIsTail(m, |m.lines|);
    TailMeaning(FlagKeys(m.lines), FlagValues(m.lines), KindFlags, i);
  }

  ghost predicate MeansAt(c: Config, m: Model, i: nat)
    requires i < |m.lines|
  {
    EffectiveFlags(c, i) == MakeKernelFlags(m.lines[i].settings) &&
    EffectiveDebounce(c, i) == Truncate32(m.lines[i].settings.debounceUs) &&
    (IsOutput(m.lines[i].settings) ==> EffectiveOutput(c, i) == Some(Reported(m, i).outputValue))
  }

  /** A configuration means what the model asks for: read back by the kernel's rule it gives every
      configured line its own flags, its own debounce period up to 32 bits, and, if it is an
      output, the level that the library reports for it. */
  ghost predicate Means(c: Config, m: Model) {
    forall i: nat :: i < |m.lines| ==> MeansAt(c, m, i)
  }

  lemma UnboundedMeans(m: Model, i: nat)
    requires i < |m.lines|
    ensures MeansAt(Unbounded(m), m, i)
  {
    MatchInBlock(m, i);
    FlagsMeaning(m, i);
    DebounceMeaning(m, i);
    if IsOutput(m.lines[i].settings) {
      OutputMeaning(m, i);
    }
  }

  /** Compilation preserves meaning. */
  lemma MeaningPreserved(m: Model, c: Config, i: nat)
    requires Compile(m) == Some(c) && i < |m.lines|
    ensures EffectiveFlags(c, i) == MakeKernelFlags(m.lines[i].settings)
    ensures EffectiveDebounce(c, i) == Truncate32(m.lines[i].settings.debounceUs)
    ensures IsOutput(m.lines[i].settings) ==> EffectiveOutput(c, i) == Some(Reported(m, i).outputValue)
  {
    UnboundedMeans(m, i);
  }

  /** So does every bit of the flags that the kernel reads for a line. */
  lemma CompiledBits(m: Model, c: Config, i: nat, f: nat)
    requires Compile(m) == Some(c) && i < |m.lines|
    ensures f in EffectiveFlags(c, i) <==> AsksForBit(m.lines[i].settings, f)
  {
    MeaningPreserved(m, c, i);
    FlagBits(m.lines[i].settings, f);
  }

  lemma TruncationIsExact(period: nat)
    ensures Truncate32(period) == period <==> period < U32_LIMIT
  {
  }

  /** The period survives exactly when it fits the kernel's field. */
  lemma DebouncePreservedIff(m: Model, c: Config, i: nat)
    requires Compile(m) == Some(c) && i < |m.lines|
    ensures EffectiveDebounce(c, i) == m.lines[i].settings.debounceUs <==>
      m.lines[i].settings.debounceUs < 0x1_0000_0000
  {
    MeaningPreserved(m, c, i);
    TruncationIsExact(m.lines[i].settings.debounceUs);
  }
}

/** What the compiler of lib/line-config.c promises beyond meaning: an exact attribute budget,
    masks that partition the lines, and as few attributes as the language allows. */
module CompilerTheorems {
  import opened Wrappers
  import opened LineSettings
  import opened Uapi
  import opened Grouping
  import opened Compiler

  // ---------------------------------------------------------------------------------------
  // Budget

  ghost function NonzeroPeriods(lines: seq<Line>): set<nat> {
    set i | 0 <= i < |lines| && lines[i].settings.debounceUs != 0 :: lines[i].settings.debounceUs as nat
  }

  /** The classes of lines under SettingsEqual. */
  ghost function Classes(lines: seq<Line>): set<Settings> {
    set i | 0 <= i < |lines| :: FlagKey(lines[i].settings)
  }

  lemma ClassesAreSettingsEqual(s: Settings, t: Settings)
    ensures SettingsEqual(s, t) <==> FlagKey(s) == FlagKey(t)
  {
  }

  ghost function FlagAttributes(lines: seq<Line>): nat {
    var classes := |Classes(lines)|;
    if classes == 0 then 0 else classes - 1
  }

  ghost function Needed(m: Model): nat {
    (if HasOutput(m.lines) then 1 else 0) + |NonzeroPeriods(m.lines)| + FlagAttributes(m.lines)
  }

  lemma DistinctPeriods(lines: seq<Line>)
    ensures Distinct(DebounceKeys(lines)) == NonzeroPeriods(lines)
  {
    var keys := DebounceKeys(lines);
    DebounceAt(lines);
    forall p | p in NonzeroPeriods(lines) ensures p in Distinct(keys) {
      var i :| 0 <= i < |lines| && lines[i].settings.debounceUs == p;
      assert keys[i] == Some(p);
    }
  }

  lemma DistinctClasses(lines: seq<Line>)
    ensures Distinct(FlagKeys(lines)) == Classes(lines)
  {
    var keys := FlagKeys(lines);
    FlagsAt(lines);
    forall k | k in Classes(lines) ensures k in Distinct(keys) {
      var i :| 0 <= i < |lines| && FlagKey(lines[i].settings) == k;
      assert keys[i] == Some(k);
    }
  }

  lemma BlockLengths(m: Model)
    ensures |DebounceBlock(m, |m.lines|)| == |NonzeroPeriods(m.lines)|
    ensures |FlagBlock(m, |m.lines|)| == FlagAttributes(m.lines)
  {
    var dk, fk := DebounceKeys(m.lines), FlagKeys(m.lines);
    BlockSize(dk, DebounceValues(m.lines), |m.lines|);
    BlockSize(fk, FlagValues(m.lines), |m.lines|);
    assert dk[..|m.lines|] == dk && fk[..|m.lines|] == fk;
    DistinctPeriods(m.lines);
    DistinctClasses(m.lines);
    if m.lines == [] {
      assert FlagKeys(m.lines) == [];
    } else {
      FlagBlockIsTail(m, |m.lines|);
    }
  }

  /** The attribute budget is exact. */
  lemma BudgetIsExact(m: Model)
    ensures Compile(m).None? <==> Needed(m) > 10
    ensures Compile(m).Some? ==> |Compile(m).value.attrs| == Needed(m)
  {
    BlockLengths(m);
  }

  // ---------------------------------------------------------------------------------------
  // Masks

  lemma UnambiguousParts(a: seq<ConfigAttribute>, b: seq<ConfigAttribute>, ka: Kind, kb: Kind, kc: Kind)
    requires Unambiguous(a) && Unambiguous(b)
    requires forall p :: 0 <= p < |a| ==> KindOf(a[p].attr) == ka || KindOf(a[p].attr) == kb
    requires forall p :: 0 <= p < |b| ==> KindOf(b[p].attr) == kc
    requires kc != ka && kc != kb
    ensures Unambiguous(a + b)
  {
    var whole := a + b;
    forall p, q | 0 <= p < q < |whole| && KindOf(whole[p].attr) == KindOf(whole[q].attr)
      ensures whole[p].mask !! whole[q].mask
    {
      if q < |a| {
        assert a[p].mask !! a[q].mask;
      } else if p >= |a| {
        assert b[p - |a|].mask !! b[q - |a|].mask;
      }
    }
  }

  lemma CompiledIsUnambiguous(m: Model)
    ensures Unambiguous(AllAttributes(m))
  {
    var n := |m.lines|;
    KindsOfBlocks(m);
    BlockUnambiguous(DebounceKeys(m.lines), DebounceValues(m.lines), n);
    BlockUnambiguous(FlagKeys(m.lines), FlagValues(m.lines), n);
    var flagBlock := Block(FlagKeys(m.lines), FlagValues(m.lines), n);
    assert Unambiguous(FlagBlock(m, n)) by {
      if n > 0 {
        FlagBlockIsTail(m, n);
        assert forall p :: 0 <= p < |FlagBlock(m, n)| ==> FlagBlock(m, n)[p] == flagBlock[p + 1];
      }
    }
    UnambiguousParts(OutputBlock(m), DebounceBlock(m, n), KindOutputValues, KindOutputValues, KindDebounce);
    UnambiguousParts(OutputBlock(m) + DebounceBlock(m, n), FlagBlock(m, n), KindOutputValues, KindDebounce, KindFlags);
  }

  lemma DebounceCoverage(m: Model, i: nat)
    ensures FirstMatch(AllAttributes(m), KindDebounce, i).Some? <==>
      i < |m.lines| && m.lines[i].settings.debounceUs != 0
  {
    MatchInBlock(m, i);
    DebounceAt(m.lines);
    DebounceConsistent(m);
    BlockMeaning(DebounceKeys(m.lines), DebounceValues(m.lines), KindDebounce, |m.lines|, i);
    if i < |m.lines| {
      assert DebounceKeys(m.lines)[i] == DebounceKeys(m.lines)[i];
    }
  }

  lemma NoFlagsBeyondLines(m: Model, i: nat)
    requires |m.lines| <= i
    ensures FirstMatch(FlagBlock(m, |m.lines|), KindFlags, i) == None
  {
    FlagsConsistent(m);
    BlockMeaning(FlagKeys(m.lines), FlagValues(m.lines), KindFlags, |m.lines|, i);
    if m.lines != [] {
      FlagBlockIsTail(m, |m.lines|);
    }
  }

  lemma FlagMatched(m: Model, i: nat)
    requires i < |m.lines|
    ensures FirstMatch(FlagBlock(m, |m.lines|), KindFlags, i).Some? <==> FlagKeys(m.lines)[i] != FlagKeys(m.lines)[0]
  {
    FlagsConsistent(m);
    FlagBlockIsTail(m, |m.lines|);
    FlagsAt(m.lines);
    TailMeaning(FlagKeys(m.lines), FlagValues(m.lines), KindFlags, i);
  }

  lemma FlagCoverage(m: Model, i: nat)
    ensures FirstMatch(AllAttributes(m), KindFlags, i).Some? <==>
      i < |m.lines| && !SettingsEqual(m.lines[i].settings, m.lines[0].settings)
  {
    MatchInBlock(m, i);
    if i < |m.lines| {
      FlagMatched(m, i);
      FlagsAt(m.lines);
    } else {
      NoFlagsBeyondLines(m, i);
    }
  }

  /** Among the attributes of one kind no line is met twice; debounce masks cover exactly the
      lines with a nonzero period; flag masks cover exactly the lines outside the default class. */
  lemma MasksPartitionLines(m: Model, c: Config)
    requires Compile(m) == Some(c)
    ensures Unambiguous(c.attrs)
    ensures forall i: nat :: FirstMatch(c.attrs, KindDebounce, i).Some? <==>
      i < |m.lines| && m.lines[i].settings.debounceUs != 0
    ensures forall i: nat :: FirstMatch(c.attrs, KindFlags, i).Some? <==>
      i < |m.lines| && !SettingsEqual(m.lines[i].settings, m.lines[0].settings)
  {
    CompiledIsUnambiguous(m);
    forall i: nat
      ensures FirstMatch(c.attrs, KindDebounce, i).Some? <==> i < |m.lines| && m.lines[i].settings.debounceUs != 0
    {
      DebounceCoverage(m, i);
    }
    forall i: nat
      ensures FirstMatch(c.attrs, KindFlags, i).Some? <==>
        i < |m.lines| && !SettingsEqual(m.lines[i].settings, m.lines[0].settings)
    {
      FlagCoverage(m, i);
    }
  }

  /** Hence the order in which the attributes are emitted carries no meaning. */
  lemma ReorderedMeansTheSame(m: Model, c: Config, d: Config, i: nat)
    requires Compile(m) == Some(c)
    requires d.flags == c.flags && multiset(d.attrs) == multiset(c.attrs)
    ensures EffectiveFlags(d, i) == EffectiveFlags(c, i)
    ensures EffectiveDebounce(d, i) == EffectiveDebounce(c, i)
    ensures EffectiveOutput(d, i) == EffectiveOutput(c, i)
  {
    CompiledIsUnambiguous(m);
    ReorderingKeepsMeaning(c.attrs, d.attrs, KindFlags, i);
    ReorderingKeepsMeaning(c.attrs, d.attrs, KindDebounce, i);
    ReorderingKeepsMeaning(c.attrs, d.attrs, KindOutputValues, i);
  }

  // ---------------------------------------------------------------------------------------
  // Optimality

  lemma {:induction false} CountKindOfConcat(a: seq<ConfigAttribute>, b: seq<ConfigAttribute>, kind: Kind)
    ensures CountKind(a + b, kind) == CountKind(a, kind) + CountKind(b, kind)
  {
    if a == [] {
      assert a + b == b;
    } else {
      assert (a + b)[1..] == a[1..] + b;
      CountKindOfConcat(a[1..], b, kind);
    }
  }

  lemma {:induction false} CountKindUniform(a: seq<ConfigAttribute>, own: Kind, kind: Kind)
    requires forall p :: 0 <= p < |a| ==> KindOf(a[p].attr) == own
    ensures CountKind(a, kind) == if own == kind then |a| else 0
  {
    if a != [] {
      assert forall p :: 0 <= p < |a[1..]| ==> a[1..][p] == a[p + 1];
      CountKindUniform(a[1..], own, kind);
    }
  }

  lemma CompiledCounts(m: Model)
    ensures CountKind(AllAttributes(m), KindDebounce) == |NonzeroPeriods(m.lines)|
    ensures CountKind(AllAttributes(m), KindFlags) == FlagAttributes(m.lines)
  {
    var a, b, c := OutputBlock(m), DebounceBlock(m, |m.lines|), FlagBlock(m, |m.lines|);
    KindsOfBlocks(m);
    BlockLengths(m);
    forall kind: Kind
      ensures CountKind(a + b + c, kind) == CountKind(a, kind) + CountKind(b, kind) + CountKind(c, kind) {
      CountKindOfConcat(a + b, c, kind);
      CountKindOfConcat(a, b, kind);
    }
    forall kind: Kind {:trigger CountKind(a, kind)}
      ensures CountKind(a, kind) == if KindOutputValues == kind then |a| else 0
      ensures CountKind(b, kind) == if KindDebounce == kind then |b| else 0
      ensures CountKind(c, kind) == if KindFlags == kind then |c| else 0
    {
      CountKindUniform(a, KindOutputValues, kind);
      CountKindUniform(b, KindDebounce, kind);
      CountKindUniform(c, KindFlags, kind);
    }
  }

  ghost predicate SameDebounce(c: Config, d: Config, n: nat) {
    forall i: nat :: i < n ==> EffectiveDebounce(d, i) == EffectiveDebounce(c, i)
  }

  ghost predicate SameFlags(c: Config, d: Config, n: nat) {
    forall i: nat :: i < n ==> EffectiveFlags(d, i) == EffectiveFlags(c, i)
  }

  /** No two periods look alike once cut to 32 bits, and none vanishes. */
  ghost predicate PeriodsStayApart(lines: seq<Line>) {
    (forall i :: 0 <= i < |lines| && lines[i].settings.debounceUs != 0 ==>
      Truncate32(lines[i].settings.debounceUs) != 0) &&
    (forall i, j | 0 <= i < |lines| && 0 <= j < |lines| ::
      lines[i].settings.debounceUs != lines[j].settings.debounceUs ==>
      Truncate32(lines[i].settings.debounceUs) != Truncate32(lines[j].settings.debounceUs))
  }

  /** Same flags word from unequal settings: asking for edges makes the line an input anyway. */
  predicate OnlyImpliedInputDiffers(s: Settings, t: Settings) {
    s.edge != EdgeNone && {s.direction, t.direction} == {DirectionAsIs, Input} &&
    FlagKey(s.(direction := DirectionAsIs)) == FlagKey(t.(direction := DirectionAsIs))
  }

  lemma ImpliedInput(s: Settings)
    requires s.edge != EdgeNone && s.direction != Output
    ensures MakeKernelFlags(s) == MakeKernelFlags(s.(direction := DirectionAsIs))
  {
  }

  lemma SameFlagsSameFields(s: Settings, t: Settings, flags: Word)
    requires MakeKernelFlags(s) == flags && MakeKernelFlags(t) == flags
    ensures SettingsEqual(s, t) || OnlyImpliedInputDiffers(s, t)
  {
    FlagMembers(s);
    FlagMembers(t);
  }

  lemma FlagsTellSettingsApart(s: Settings, t: Settings)
    ensures MakeKernelFlags(s) == MakeKernelFlags(t) <==> SettingsEqual(s, t) || OnlyImpliedInputDiffers(s, t)
  {
    if MakeKernelFlags(s) == MakeKernelFlags(t) {
      SameFlagsSameFields(s, t, MakeKernelFlags(s));
    } else {
      FlagsOfKey(s);
      FlagsOfKey(t);
      if OnlyImpliedInputDiffers(s, t) {
        FlagsOfKey(s.(direction := DirectionAsIs));
        FlagsOfKey(t.(direction := DirectionAsIs));
        ImpliedInput(s);
        ImpliedInput(t);
      }
    }
  }

  /** Grouping by what the kernel will see instead of by the settings themselves. */
  ghost function TruncatedKeys(lines: seq<Line>): seq<Option<nat>> {
    seq(|lines|, i requires 0 <= i < |lines| =>
      var p := Truncate32(lines[i].settings.debounceUs); if p == 0 then None else Some(p))
  }

  ghost function FlagWordKeys(lines: seq<Line>): seq<Option<Word>> {
    seq(|lines|, i requires 0 <= i < |lines| => Some(MakeKernelFlags(lines[i].settings)))
  }

  lemma TruncatedImage(lines: seq<Line>)
    ensures Distinct(TruncatedKeys(lines)) == Image(NonzeroPeriods(lines), (p: nat) => Truncate32(p)) - {0}
  {
    var cut := (p: nat) => Truncate32(p);
    var keys := TruncatedKeys(lines);
    var image := Image(NonzeroPeriods(lines), cut);
    forall v | v in Distinct(keys) ensures v in image && v != 0 {
      var i :| 0 <= i < |keys| && keys[i] == Some(v);
      assert lines[i].settings.debounceUs in NonzeroPeriods(lines);
    }
    forall v | v in image && v != 0 ensures v in Distinct(keys) {
      var p :| p in NonzeroPeriods(lines) && cut(p) == v;
      var i :| 0 <= i < |lines| && lines[i].settings.debounceUs == p;
      assert keys[i] == Some(v);
    }
  }

  lemma PeriodsApart(lines: seq<Line>)
    requires PeriodsStayApart(lines)
    ensures 0 !in Image(NonzeroPeriods(lines), (p: nat) => Truncate32(p))
    ensures forall p, q | p in NonzeroPeriods(lines) && q in NonzeroPeriods(lines) ::
      Truncate32(p) == Truncate32(q) ==> p == q
  {
  }

  lemma PeriodsTogether(lines: seq<Line>)
    requires 0 !in Image(NonzeroPeriods(lines), (p: nat) => Truncate32(p))
    requires forall p, q | p in NonzeroPeriods(lines) && q in NonzeroPeriods(lines) ::
      Truncate32(p) == Truncate32(q) ==> p == q
    ensures PeriodsStayApart(lines)
  {
    var cut := (p: nat) => Truncate32(p);
    forall i | 0 <= i < |lines| && lines[i].settings.debounceUs != 0
      ensures lines[i].settings.debounceUs in NonzeroPeriods(lines) && Truncate32(lines[i].settings.debounceUs) != 0
    {
      assert lines[i].settings.debounceUs in NonzeroPeriods(lines);
      assert cut(lines[i].settings.debounceUs) in Image(NonzeroPeriods(lines), cut);
    }
  }

  lemma TruncatedPeriods(lines: seq<Line>)
    ensures |Distinct(TruncatedKeys(lines))| <= |NonzeroPeriods(lines)|
    ensures |Distinct(TruncatedKeys(lines))| == |NonzeroPeriods(lines)| <==> PeriodsStayApart(lines)
  {
    var cut := (p: nat) => Truncate32(p);
    var periods := NonzeroPeriods(lines);
    var seen := Distinct(TruncatedKeys(lines));
    TruncatedImage(lines);
    ImageSize(periods, cut);
    SubsetSize(seen, Image(periods, cut));
    if PeriodsStayApart(lines) {
      PeriodsApart(lines);
      assert seen == Image(periods, cut);
    } else if |seen| == |periods| {
      assert seen == Image(periods, cut);
      PeriodsTogether(lines);
    }
  }

  ghost predicate DebounceMeans(d: Config, lines: seq<Line>) {
    forall i: nat :: i < |lines| ==> EffectiveDebounce(d, i) == Truncate32(lines[i].settings.debounceUs)
  }

  /** As few debounce attributes as there can be: one per period that the kernel sees. */
  ghost function FewestDebounce(m: Model): seq<ConfigAttribute> {
    Block(TruncatedKeys(m.lines), DebounceValues(m.lines), |m.lines|)
  }

  lemma TruncatedConsistent(m: Model)
    ensures Consistent(TruncatedKeys(m.lines), DebounceValues(m.lines), KindDebounce)
  {
    DebounceAt(m.lines);
  }

  lemma FewestDebounceSize(m: Model)
    ensures |FewestDebounce(m)| == |Distinct(TruncatedKeys(m.lines))|
    ensures forall p :: 0 <= p < |FewestDebounce(m)| ==> KindOf(FewestDebounce(m)[p].attr) == KindDebounce
  {
    var keys, values, n := TruncatedKeys(m.lines), DebounceValues(m.lines), |m.lines|;
    TruncatedConsistent(m);
    BlockKinds(keys, values, KindDebounce, n);
    BlockSize(keys, values, n);
    assert keys[..n] == keys;
  }

  lemma FewestDebounceMeans(m: Model, i: nat)
    requires i < |m.lines|
    ensures
      var a := FirstMatch(FewestDebounce(m), KindDebounce, i);
      (if a.Some? then a.value.periodUs else 0) == Truncate32(m.lines[i].settings.debounceUs)
  {
    var keys, values, n := TruncatedKeys(m.lines), DebounceValues(m.lines), |m.lines|;
    DebounceAt(m.lines);
    TruncatedConsistent(m);
    BlockMeaning(keys, values, KindDebounce, n, i);
    assert keys[i] == keys[i];
  }

  lemma FewestDebounceKeeps(m: Model, d: Config)
    requires d.attrs == FewestDebounce(m)
    ensures DebounceMeans(d, m.lines) && CountKind(d.attrs, KindDebounce) == |Distinct(TruncatedKeys(m.lines))|
  {
    FewestDebounceSize(m);
    forall i: nat | i < |m.lines| ensures EffectiveDebounce(d, i) == Truncate32(m.lines[i].settings.debounceUs) {
      FewestDebounceMeans(m, i);
    }
    CountKindUniform(d.attrs, KindDebounce, KindDebounce);
  }

  ghost predicate FlagsMean(d: Config, lines: seq<Line>) {
    forall i: nat :: i < |lines| ==> EffectiveFlags(d, i) == MakeKernelFlags(lines[i].settings)
  }

  lemma MeansParts(m: Model, d: Config)
    requires Means(d, m)
    ensures DebounceMeans(d, m.lines) && FlagsMean(d, m.lines)
  {
    forall i: nat | i < |m.lines|
      ensures EffectiveDebounce(d, i) == Truncate32(m.lines[i].settings.debounceUs)
      ensures EffectiveFlags(d, i) == MakeKernelFlags(m.lines[i].settings)
    {
      assert MeansAt(d, m, i);
    }
  }

  lemma UnboundedParts(m: Model)
    ensures DebounceMeans(Unbounded(m), m.lines) && FlagsMean(Unbounded(m), m.lines)
  {
    var d := Unbounded(m);
    forall i: nat | i < |m.lines| ensures MeansAt(d, m, i) {
      UnboundedMeans(m, i);
    }
    MeansParts(m, d);
  }

  /** Every nonzero period that the kernel sees takes an attribute in any configuration. */
  lemma SeenPeriodsNeedAttributes(m: Model, d: Config)
    requires DebounceMeans(d, m.lines)
    ensures |Distinct(TruncatedKeys(m.lines))| <= CountKind(d.attrs, KindDebounce)
  {
    var seen := Distinct(TruncatedKeys(m.lines));
    forall p | p in seen ensures p != 0 && exists line: nat :: EffectiveDebounce(d, line) == p {
      var i :| 0 <= i < |m.lines| && TruncatedKeys(m.lines)[i] == Some(p);
      assert EffectiveDebounce(d, i) == p;
    }
    DebounceLowerBound(d, seen);
  }

  /** Among all configurations that debounce the lines alike, the compiler's has the fewest
      debounce attributes exactly when the periods stay apart in 32 bits, whether or not it fits
      the kernel's ten attributes. */
  lemma DebounceGroupingIsOptimalIff(m: Model)
    ensures (forall d: Config :: SameDebounce(Unbounded(m), d, |m.lines|) ==>
        CountKind(Unbounded(m).attrs, KindDebounce) <= CountKind(d.attrs, KindDebounce))
      <==> PeriodsStayApart(m.lines)
  {
    var c := Unbounded(m);
    CompiledCounts(m);
    TruncatedPeriods(m.lines);
    UnboundedParts(m);
    var seen := Distinct(TruncatedKeys(m.lines));
    forall d: Config | SameDebounce(c, d, |m.lines|) ensures |seen| <= CountKind(d.attrs, KindDebounce) {
      SeenPeriodsNeedAttributes(m, d);
    }
    if !PeriodsStayApart(m.lines) {
      var d := Config(c.flags, FewestDebounce(m));
      FewestDebounceKeeps(m, d);
      assert SameDebounce(c, d, |m.lines|);
    }
  }

  ghost predicate NoImpliedInputDiffers(lines: seq<Line>) {
    forall i, j :: 0 <= i < |lines| && 0 <= j < |lines| ==>
      !OnlyImpliedInputDiffers(lines[i].settings, lines[j].settings)
  }

  lemma FlagCollision(s: Settings, t: Settings)
    ensures OnlyImpliedInputDiffers(s, t) <==>
      MakeKernelFlags(FlagKey(s)) == MakeKernelFlags(FlagKey(t)) && FlagKey(s) != FlagKey(t)
  {
    FlagsOfKey(s);
    FlagsOfKey(t);
    FlagsTellSettingsApart(s, t);
  }

  lemma FlagWordImage(lines: seq<Line>)
    ensures Distinct(FlagWordKeys(lines)) == Image(Classes(lines), (s: Settings) => MakeKernelFlags(s))
  {
    var flagsOf := (s: Settings) => MakeKernelFlags(s);
    var keys := FlagWordKeys(lines);
    forall w | w in Distinct(keys) ensures w in Image(Classes(lines), flagsOf) {
      var i :| 0 <= i < |keys| && keys[i] == Some(w);
      FlagsOfKey(lines[i].settings);
      assert FlagKey(lines[i].settings) in Classes(lines);
      assert flagsOf(FlagKey(lines[i].settings)) == w;
    }
    forall w | w in Image(Classes(lines), flagsOf) ensures w in Distinct(keys) {
      var k :| k in Classes(lines) && flagsOf(k) == w;
      var i :| 0 <= i < |lines| && FlagKey(lines[i].settings) == k;
      FlagsOfKey(lines[i].settings);
      assert keys[i] == Some(w);
    }
  }

  lemma FlagWords(lines: seq<Line>)
    ensures |Distinct(FlagWordKeys(lines))| <= |Classes(lines)|
    ensures |Distinct(FlagWordKeys(lines))| == |Classes(lines)| <==> NoImpliedInputDiffers(lines)
  {
    var flagsOf := (s: Settings) => MakeKernelFlags(s);
    FlagWordImage(lines);
    ImageSize(Classes(lines), flagsOf);
    forall i, j | 0 <= i < |lines| && 0 <= j < |lines|
      ensures FlagKey(lines[i].settings) in Classes(lines) && FlagKey(lines[j].settings) in Classes(lines)
      ensures OnlyImpliedInputDiffers(lines[i].settings, lines[j].settings) <==>
        flagsOf(FlagKey(lines[i].settings)) == flagsOf(FlagKey(lines[j].settings)) &&
        FlagKey(lines[i].settings) != FlagKey(lines[j].settings)
    {
      FlagCollision(lines[i].settings, lines[j].settings);
    }
  }

  lemma SameFlagsMean(m: Model, d: Config)
    requires SameFlags(Unbounded(m), d, |m.lines|)
    ensures FlagsMean(d, m.lines)
  {
    UnboundedParts(m);
  }

  ghost function WordAttributes(lines: seq<Line>): nat {
    var words := |Distinct(FlagWordKeys(lines))|;
    if words == 0 then 0 else words - 1
  }

  /** As few flag attributes as there can be: one per flags word other than that of line 0. */
  ghost function FewestFlags(m: Model): seq<ConfigAttribute> {
    var block := Block(FlagWordKeys(m.lines), FlagValues(m.lines), |m.lines|);
    if block == [] then [] else block[1..]
  }

  lemma WordsConsistent(m: Model)
    ensures Consistent(FlagWordKeys(m.lines), FlagValues(m.lines), KindFlags)
  {
    FlagsAt(m.lines);
  }

  lemma FewestFlagsSize(m: Model)
    ensures |FewestFlags(m)| == WordAttributes(m.lines)
    ensures forall p :: 0 <= p < |FewestFlags(m)| ==> KindOf(FewestFlags(m)[p].attr) == KindFlags
  {
    var keys, values, n := FlagWordKeys(m.lines), FlagValues(m.lines), |m.lines|;
    var block := Block(keys, values, n);
    WordsConsistent(m);
    BlockKinds(keys, values, KindFlags, n);
    BlockSize(keys, values, n);
    assert keys[..n] == keys;
    assert block != [] ==> forall p :: 0 <= p < |block[1..]| ==> block[1..][p] == block[p + 1];
  }

  lemma FewestFlagsMean(m: Model, i: nat)
    requires i < |m.lines|
    ensures
      var a := FirstMatch(FewestFlags(m), KindFlags, i);
      (if a.Some? then a.value.flags else DefaultFlags(m)) == MakeKernelFlags(m.lines[i].settings)
  {
    WordsConsistent(m);
    TailMeaning(FlagWordKeys(m.lines), FlagValues(m.lines), KindFlags, i);
    FlagsAt(m.lines);
  }

  lemma FewestFlagsKeep(m: Model, d: Config)
    requires d == Config(DefaultFlags(m), FewestFlags(m))
    ensures SameFlags(Unbounded(m), d, |m.lines|) && CountKind(d.attrs, KindFlags) == WordAttributes(m.lines)
  {
    UnboundedParts(m);
    FewestFlagsSize(m);
    forall i: nat | i < |m.lines| ensures EffectiveFlags(d, i) == MakeKernelFlags(m.lines[i].settings) {
      FewestFlagsMean(m, i);
    }
    CountKindUniform(d.attrs, KindFlags, KindFlags);
  }

  lemma WordsAgainstClasses(lines: seq<Line>)
    ensures WordAttributes(lines) <= FlagAttributes(lines)
    ensures WordAttributes(lines) == FlagAttributes(lines) <==> NoImpliedInputDiffers(lines)
  {
    FlagWords(lines);
    if lines == [] {
      assert FlagWordKeys(lines) == [];
    } else {
      assert FlagKey(lines[0].settings) in Classes(lines);
      assert FlagWordKeys(lines)[0].value in Distinct(FlagWordKeys(lines));
    }
  }

  /** Every flags word but one takes an attribute in any configuration. */
  lemma SeenFlagsNeedAttributes(m: Model, d: Config)
    requires FlagsMean(d, m.lines)
    ensures WordAttributes(m.lines) <= CountKind(d.attrs, KindFlags)
  {
    var seen := Distinct(FlagWordKeys(m.lines));
    forall w | w in seen ensures exists line: nat :: EffectiveFlags(d, line) == w {
      var i :| 0 <= i < |m.lines| && FlagWordKeys(m.lines)[i] == Some(w);
      assert EffectiveFlags(d, i) == w;
    }
    FlagsLowerBound(d, seen);
  }

  /** Among all configurations that give the lines the same flags, the compiler's has the fewest
      flag attributes exactly when no two lines differ only in an input direction that their edge
      detection implies anyway, whether or not it fits the kernel's ten attributes. */
  lemma FlagGroupingIsOptimalIff(m: Model)
    ensures (forall d: Config :: SameFlags(Unbounded(m), d, |m.lines|) ==>
        CountKind(Unbounded(m).attrs, KindFlags) <= CountKind(d.attrs, KindFlags))
      <==> NoImpliedInputDiffers(m.lines)
  {
    CompiledCounts(m);
    WordsAgainstClasses(m.lines);
    forall d: Config | SameFlags(Unbounded(m), d, |m.lines|)
      ensures WordAttributes(m.lines) <= CountKind(d.attrs, KindFlags)
    {
      SameFlagsMean(m, d);
      SeenFlagsNeedAttributes(m, d);
    }
    var d := Config(DefaultFlags(m), FewestFlags(m));
    FewestFlagsKeep(m, d);
    assert SameFlags(Unbounded(m), d, |m.lines|);
  }

  // ---------------------------------------------------------------------------------------
  // What no list of attributes can express

  /** The fewest attributes that mean what a model asks for. */
  ghost function Fewest(m: Model): nat {
    (if HasOutput(m.lines) then 1 else 0) + |Distinct(TruncatedKeys(m.lines))| + WordAttributes(m.lines)
  }

  lemma {:induction false} KindsAddUp(attrs: seq<ConfigAttribute>)
    ensures CountKind(attrs, KindFlags) + CountKind(attrs, KindOutputValues) + CountKind(attrs, KindDebounce) <= |attrs|
  {
    if attrs != [] {
      KindsAddUp(attrs[1..]);
    }
  }

  lemma {:induction false} MatchIsCounted(attrs: seq<ConfigAttribute>, kind: Kind, line: nat)
    requires FirstMatch(attrs, kind, line).Some?
    ensures CountKind(attrs, kind) >= 1
  {
    if !Applies(attrs[0], kind, line) {
      MatchIsCounted(attrs[1..], kind, line);
    }
  }

  lemma OutputIsMatched(m: Model, d: Config) returns (i: nat)
    requires Means(d, m) && HasOutput(m.lines)
    ensures FirstMatch(d.attrs, KindOutputValues, i).Some?
  {
    i :| i < |m.lines| && IsOutput(m.lines[i].settings);
    assert MeansAt(d, m, i);
    assert EffectiveOutput(d, i).Some?;
  }

  lemma FewestIsNeeded(m: Model, d: Config)
    requires Means(d, m)
    ensures Fewest(m) <= |d.attrs|
  {
    MeansParts(m, d);
    SeenPeriodsNeedAttributes(m, d);
    SeenFlagsNeedAttributes(m, d);
    KindsAddUp(d.attrs);
    if HasOutput(m.lines) {
      var i := OutputIsMatched(m, d);
      MatchIsCounted(d.attrs, KindOutputValues, i);
    }
  }

  ghost function FewestConfig(m: Model): Config {
    Config(DefaultFlags(m), OutputBlock(m) + FewestDebounce(m) + FewestFlags(m))
  }

  lemma FewestMeansAt(m: Model, i: nat)
    requires i < |m.lines|
    ensures MeansAt(FewestConfig(m), m, i)
  {
    KindsOfBlocks(m);
    FewestDebounceSize(m);
    FewestFlagsSize(m);
    MatchInOneOfThree(OutputBlock(m), FewestDebounce(m), FewestFlags(m), KindOutputValues, KindDebounce, KindFlags, i);
    FewestDebounceMeans(m, i);
    FewestFlagsMean(m, i);
    if IsOutput(m.lines[i].settings) {
      OutputMeaning(m, i);
    }
  }

  lemma FewestIsEnough(m: Model)
    ensures Means(FewestConfig(m), m) && |FewestConfig(m).attrs| == Fewest(m)
  {
    forall i: nat | i < |m.lines| ensures MeansAt(FewestConfig(m), m, i) {
      FewestMeansAt(m, i);
    }
    FewestDebounceSize(m);
    FewestFlagsSize(m);
  }

  lemma FewestAgainstNeeded(m: Model)
    ensures Fewest(m) <= Needed(m)
    ensures Fewest(m) == Needed(m) <==> PeriodsStayApart(m.lines) && NoImpliedInputDiffers(m.lines)
  {
    TruncatedPeriods(m.lines);
    WordsAgainstClasses(m.lines);
  }

  /** Some configuration of ten attributes means what the model asks for. */
  ghost predicate Expressible(m: Model) {
    exists d: Config :: Means(d, m) && |d.attrs| <= 10
  }

  lemma ExpressibleIff(m: Model)
    ensures Expressible(m) <==> Fewest(m) <= 10
  {
    FewestIsEnough(m);
    forall d: Config | Means(d, m) ensures Fewest(m) <= |d.attrs| {
      FewestIsNeeded(m, d);
    }
  }

  /** The compiler rejects what no list of ten attributes can express, and nothing else, as long as
      periods stay apart and no input direction is merely implied. In general it also rejects
      exactly what needs more than ten attributes only because of such lines. */
  lemma RejectsOnlyInexpressible(m: Model)
    ensures Compile(m).Some? ==> Expressible(m)
    ensures Compile(m).None? && Expressible(m) <==> Fewest(m) <= 10 < Needed(m)
    ensures PeriodsStayApart(m.lines) && NoImpliedInputDiffers(m.lines) ==> (Compile(m).None? <==> !Expressible(m))
  {
    BudgetIsExact(m);
    ExpressibleIff(m);
    FewestAgainstNeeded(m);
  }
}

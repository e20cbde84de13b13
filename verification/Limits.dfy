/** Inputs at which the library, its Python front end and the tools do not do what one would
    expect. The exact conditions are DebouncePreservedIff, DebounceGroupingIsOptimalIff,
    FlagGroupingIsOptimalIff, RejectsOnlyInexpressible, KeptIff, NoWordIff and ParseUintOfNumeral. */
module Limits {
  import opened Wrappers
  import opened Decimal
  import opened LineSettings
  import opened Uapi
  import opened Compiler
  import opened CompilerTheorems
  import opened LineRequest
  import opened PythonFrontEnd
  import opened Resolver
  import opened Shell
  import opened Interactive

  function OneLine(s: Settings): Model {
    Model([Line(0, s)], [])
  }

  function TwoLines(s: Settings, t: Settings): Model {
    Model([Line(0, s), Line(1, t)], [])
  }

  lemma OneLineCompiles(s: Settings) returns (c: Config)
    ensures Compile(OneLine(s)) == Some(c)
  {
    var lines := OneLine(s).lines;
    SubsetSize(NonzeroPeriods(lines), {s.debounceUs as nat});
    SubsetSize(Classes(lines), {FlagKey(s)});
    BudgetIsExact(OneLine(s));
    c := Compile(OneLine(s)).value;
  }

  lemma TwoLinesCompile(s: Settings, t: Settings) returns (c: Config)
    ensures Compile(TwoLines(s, t)) == Some(c)
  {
    var lines := TwoLines(s, t).lines;
    SubsetSize(NonzeroPeriods(lines), {s.debounceUs as nat, t.debounceUs as nat});
    SubsetSize(Classes(lines), {FlagKey(s), FlagKey(t)});
    BudgetIsExact(TwoLines(s, t));
    c := Compile(TwoLines(s, t)).value;
  }

  /** A little over 71 minutes of debouncing becomes five microseconds. */
  lemma LongPeriodIsCut() returns (c: Config)
    ensures Compile(OneLine(DEFAULTS.(debounceUs := 0x1_0000_0005))) == Some(c)
    ensures EffectiveDebounce(c, 0) == 5
  {
    c := OneLineCompiles(DEFAULTS.(debounceUs := 0x1_0000_0005));
    MeaningPreserved(OneLine(DEFAULTS.(debounceUs := 0x1_0000_0005)), c, 0);
  }

  /** Periods that the kernel cannot tell apart still take an attribute each. */
  lemma CutPeriodsAreNotShared() returns (c: Config, d: Config)
    ensures Compile(TwoLines(DEFAULTS.(debounceUs := 7), DEFAULTS.(debounceUs := 0x1_0000_0007))) == Some(c)
    ensures SameDebounce(c, d, 2) && CountKind(d.attrs, KindDebounce) < CountKind(c.attrs, KindDebounce)
  {
    var s, t := DEFAULTS.(debounceUs := 7), DEFAULTS.(debounceUs := 0x1_0000_0007);
    var m := TwoLines(s, t);
    c := TwoLinesCompile(s, t);
    assert m.lines[0].settings.debounceUs != m.lines[1].settings.debounceUs;
    DebounceGroupingIsOptimalIff(m);
    d :| SameDebounce(c, d, |m.lines|) && CountKind(c.attrs, KindDebounce) > CountKind(d.attrs, KindDebounce);
  }

  /** So do lines whose edge detection makes them inputs anyway. */
  lemma ImpliedInputsAreNotShared() returns (c: Config, d: Config)
    ensures Compile(TwoLines(DEFAULTS.(edge := Rising), DEFAULTS.(edge := Rising, direction := Input))) == Some(c)
    ensures SameFlags(c, d, 2) && CountKind(d.attrs, KindFlags) < CountKind(c.attrs, KindFlags)
  {
    var s, t := DEFAULTS.(edge := Rising), DEFAULTS.(edge := Rising, direction := Input);
    var m := TwoLines(s, t);
    c := TwoLinesCompile(s, t);
    assert OnlyImpliedInputDiffers(m.lines[0].settings, m.lines[1].settings);
    FlagGroupingIsOptimalIff(m);
    d :| SameFlags(c, d, |m.lines|) && CountKind(c.attrs, KindFlags) > CountKind(d.attrs, KindFlags);
  }

  /** Naming a line in a Python reconfiguration without a direction changes nothing about it. */
  lemma UndirectedEntryIsIgnored(before: LineState)
    ensures
      var config := [Entry(One(ByOffset(0)), Some(DEFAULTS.(activeLow := true)))];
      LastEntry(map[], config, 0) == Some(DEFAULTS.(activeLow := true)) &&
      Reconfigured(NewSettings(map[], config, 0), before) == before
  {
    var config := [Entry(One(ByOffset(0)), Some(DEFAULTS.(activeLow := true)))];
    assert IdsOf(config[0].key)[0] == ByOffset(0);
  }

  /** A line of one blank: the loop that trims it leaves its first character, and no word is found. */
  lemma BlankLineHasNoWord(lines: seq<ResolvedLine>)
    ensures Trimmed(" ") == " " && ReplyTo(lines, Words(Trimmed(" "))) == NoWord
  {
    NoWordIff(lines, " ");
  }

  /** Where offsets are read from the command line, no text at all is one, and so is a negated number
      that comes out small modulo 2^64. */
  lemma OddOffsets(n: nat)
    requires n == 0xFFFF_FFFF_FFFF_FFFF
    ensures ParseUint("") == 0 && ParseUint("-" + Print(n)) == 1
  {
    var blanks, sign, digits := ParsedUintIsNumeral("");
    ValueOfPrint(n);
    ParseUintOfNumeral("", "-", Print(n));
    assert "" + ("-" + Print(n)) == "-" + Print(n);
  }
}

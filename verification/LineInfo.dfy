/** lib/line-info.c: reading back what the kernel reports about a line. */
module LineInfo {
  import opened Wrappers
  import opened LineSettings
  import opened Uapi
  import opened Compiler

  /** `struct gpio_v2_line_info`, names left out. */
  datatype KernelLineInfo = KernelLineInfo(offset: nat, flags: Word, attrs: seq<Attribute>)

  /** `struct gpiod_line_info`, names left out. */
  datatype LineInfo = LineInfo(
    offset: nat,
    used: bool,
    direction: Direction,
    activeLow: bool,
    bias: Bias,
    drive: Drive,
    edge: Edge,
    clock: Clock,
    debounced: bool,
    debounceUs: nat)

  function DirectionFrom(flags: Word): Direction {
    if FLAG_OUTPUT in flags then Output else Input
  }

  function BiasFrom(flags: Word): Bias {
    if FLAG_BIAS_PULL_UP in flags then PullUp
    else if FLAG_BIAS_PULL_DOWN in flags then PullDown
    else if FLAG_BIAS_DISABLED in flags then BiasDisabled
    else BiasUnknown
  }

  function DriveFrom(flags: Word): Drive {
    if FLAG_OPEN_DRAIN in flags then OpenDrain
    else if FLAG_OPEN_SOURCE in flags then OpenSource
    else PushPull
  }

  function EdgeFrom(flags: Word): Edge {
    if FLAG_EDGE_RISING in flags && FLAG_EDGE_FALLING in flags then Both
    else if FLAG_EDGE_RISING in flags then Rising
    else if FLAG_EDGE_FALLING in flags then Falling
    else EdgeNone
  }

  function ClockFrom(flags: Word): Clock {
    if FLAG_EVENT_CLOCK_REALTIME in flags then Realtime
    else if FLAG_EVENT_CLOCK_HTE in flags then Hte
    else Monotonic
  }

  /** The period of the last debounce attribute. */
  function DebounceFrom(attrs: seq<Attribute>): Option<nat> {
    if attrs == [] then None
    else
      var last := attrs[|attrs| - 1];
      if last.Debounce? then Some(last.periodUs) else DebounceFrom(attrs[..|attrs| - 1])
  }

  function Decoded(uapi: KernelLineInfo): LineInfo {
    var f := uapi.flags;
    LineInfo(uapi.offset, FLAG_USED in f, DirectionFrom(f), FLAG_ACTIVE_LOW in f, BiasFrom(f), DriveFrom(f),
             EdgeFrom(f), ClockFrom(f), DebounceFrom(uapi.attrs).Some?, GetOr(DebounceFrom(uapi.attrs), 0))
  }

  /** What each field of a line info says about the kernel's report, by bit numbers. */
  ghost predicate Reports(info: LineInfo, uapi: KernelLineInfo) {
    && info.offset == uapi.offset
    && (info.used <==> 0 in uapi.flags)
    && (info.activeLow <==> 1 in uapi.flags)
    && (info.direction == Output <==> 3 in uapi.flags) && info.direction != DirectionAsIs
    && (info.bias == PullUp <==> 8 in uapi.flags)
    && (info.bias == PullDown <==> 9 in uapi.flags && 8 !in uapi.flags)
    && (info.bias == BiasDisabled <==> 10 in uapi.flags && 8 !in uapi.flags && 9 !in uapi.flags)
    && info.bias != BiasAsIs
    && (info.drive == OpenDrain <==> 6 in uapi.flags)
    && (info.drive == OpenSource <==> 7 in uapi.flags && 6 !in uapi.flags)
    && (info.edge == Both || info.edge == Rising <==> 4 in uapi.flags)
    && (info.edge == Both || info.edge == Falling <==> 5 in uapi.flags)
    && (info.clock == Realtime <==> 11 in uapi.flags)
    && (info.clock == Hte <==> 12 in uapi.flags && 11 !in uapi.flags)
  }

  /** The last debounce attribute counts; without one there is no period. */
  ghost predicate ReportsDebounce(info: LineInfo, attrs: seq<Attribute>) {
    (info.debounced <==> exists i :: 0 <= i < |attrs| && attrs[i].Debounce?) &&
    (!info.debounced ==> info.debounceUs == 0) &&
    (forall i :: 0 <= i < |attrs| && attrs[i].Debounce? && (forall j :: i < j < |attrs| ==> !attrs[j].Debounce?) ==>
      info.debounceUs == attrs[i].periodUs)
  }

  lemma {:induction false} LastDebounce(attrs: seq<Attribute>)
    ensures DebounceFrom(attrs).Some? <==> exists i :: 0 <= i < |attrs| && attrs[i].Debounce?
    ensures
      forall i :: 0 <= i < |attrs| && attrs[i].Debounce? && (forall j :: i < j < |attrs| ==> !attrs[j].Debounce?) ==>
        DebounceFrom(attrs) == Some(attrs[i].periodUs)
  {
    if attrs != [] {
      LastDebounce(attrs[..|attrs| - 1]);
      assert attrs == attrs[..|attrs| - 1] + [attrs[|attrs| - 1]];
    }
  }

  lemma DecodedReports(uapi: KernelLineInfo)
    ensures Reports(Decoded(uapi), uapi) && ReportsDebounce(Decoded(uapi), uapi.attrs)
  {
    LastDebounce(uapi.attrs);
  }

  /** gpiod_line_info_from_uapi */
  method LineInfoFromUapi(uapi: KernelLineInfo) returns (info: LineInfo)
    ensures info == Decoded(uapi)
    ensures Reports(info, uapi) && ReportsDebounce(info, uapi.attrs)
  {
    var flags := uapi.flags;
    info := LineInfo(uapi.offset, FLAG_USED in flags, DirectionFrom(flags), FLAG_ACTIVE_LOW in flags,
                     BiasFrom(flags), DriveFrom(flags), EdgeFrom(flags), ClockFrom(flags), false, 0);
    ghost var start := info;
    for i := 0 to |uapi.attrs|
      invariant info == start.(debounced := DebounceFrom(uapi.attrs[..i]).Some?,
                               debounceUs := GetOr(DebounceFrom(uapi.attrs[..i]), 0))
    {
      assert uapi.attrs[..i + 1][..i] == uapi.attrs[..i];
      if uapi.attrs[i].Debounce? {
        info := info.(debounced := true, debounceUs := uapi.attrs[i].periodUs);
      }
    }
    assert uapi.attrs[..|uapi.attrs|] == uapi.attrs;
    DecodedReports(uapi);
  }

  /** A kernel that reports for a requested line exactly what the configuration makes of it. */
  function Echo(c: Config, offset: nat, line: nat): KernelLineInfo {
    KernelLineInfo(offset, EffectiveFlags(c, line) + {FLAG_USED},
                   if EffectiveDebounce(c, line) == 0 then [] else [Debounce(EffectiveDebounce(c, line))])
  }

  /** How settings look when read back. */
  function Expected(line: Line): LineInfo {
    var s := line.settings;
    LineInfo(line.offset, true, if IsOutput(s) then Output else Input, s.activeLow,
             if s.bias == BiasAsIs then BiasUnknown else s.bias, s.drive, s.edge, s.clock,
             s.debounceUs != 0, s.debounceUs)
  }

  lemma FlagsReadBack(s: Settings)
    ensures
      var f := MakeKernelFlags(s) + {FLAG_USED};
      DirectionFrom(f) == (if IsOutput(s) then Output else Input) &&
      (FLAG_ACTIVE_LOW in f <==> s.activeLow) &&
      BiasFrom(f) == (if s.bias == BiasAsIs then BiasUnknown else s.bias) &&
      DriveFrom(f) == s.drive && EdgeFrom(f) == s.edge && ClockFrom(f) == s.clock
  {
    FlagMembers(s);
  }

  /** Once the line has been released and the kernel no longer sets the used bit, only that is lost. */
  lemma IdleLineIsUnused(m: Model, c: Config, i: nat)
    requires i < |m.lines| && Compile(m) == Some(c)
    ensures
      var echo := Echo(c, m.lines[i].offset, i);
      Decoded(echo).used && Decoded(echo.(flags := EffectiveFlags(c, i))) == Decoded(echo).(used := false)
  {
    CompiledBits(m, c, i, 0);
  }

  /** Encoding a whole configuration and decoding any of its lines gives that line's settings
      back exactly when its period fits 32 bits; a longer one comes back cut. */
  lemma RoundTrip(m: Model, c: Config, i: nat)
    requires i < |m.lines| && Compile(m) == Some(c)
    ensures
      var s := m.lines[i].settings;
      Decoded(Echo(c, m.lines[i].offset, i)) ==
        Expected(Line(m.lines[i].offset, s.(debounceUs := Truncate32(s.debounceUs))))
    ensures Decoded(Echo(c, m.lines[i].offset, i)) == Expected(m.lines[i]) <==>
      m.lines[i].settings.debounceUs < 0x1_0000_0000
  {
    MeaningPreserved(m, c, i);
    FlagsReadBack(m.lines[i].settings);
    TruncationIsExact(m.lines[i].settings.debounceUs);
  }
}

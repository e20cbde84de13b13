/** tools/gpioset.c: requesting the resolved lines chip by chip and driving them. */
module Gpioset {
  import opened Wrappers
  import opened LineSettings
  import opened Uapi
  import opened Compiler
  import opened CompilerTheorems
  import opened OrderedMap
  import opened LineConfig
  import opened LineRequest
  import opened Resolver
  import opened Gather

  /** The request for chip c holds its lines in gather order. */
  ghost predicate Serves(request: LineRequest, lines: seq<ResolvedLine>, c: nat)
    reads request.handle
  {
    request.Valid() && request.offsets == GatherOffsets(lines, c)
  }

  /** Every line of chip c is at its resolver value. */
  ghost predicate Driven(request: LineRequest, lines: seq<ResolvedLine>, c: nat)
    reads request.handle
  {
    Serves(request, lines, c) &&
    forall p: nat :: p < |GatherValues(lines, c)| ==> (p in request.handle.levels <==> GatherValues(lines, c)[p] != 0)
  }

  /** What a line of the resolver reads. */
  ghost function Level(requests: seq<LineRequest>, line: ResolvedLine): int
    requires 0 <= line.chipNum < |requests|
    reads requests[line.chipNum].handle
  {
    ReadLevel(requests[line.chipNum].offsets, requests[line.chipNum].handle.levels, line.offset)
  }

  lemma DrivenLine(requests: seq<LineRequest>, lines: seq<ResolvedLine>, k: nat)
    requires k < |lines| && 0 <= lines[k].chipNum < |requests|
    requires Driven(requests[lines[k].chipNum], lines, lines[k].chipNum)
    ensures Level(requests, lines[k]) == if lines[k].value != 0 then 1 else 0
  {
    var c := lines[k].chipNum;
    GatheredAtRank(lines, k);
    BitOfLine(requests[c].offsets, Rank(lines, c, k));
  }

  ghost predicate Separate(requests: seq<LineRequest>) {
    forall c, d :: 0 <= c < d < |requests| ==> requests[c].handle != requests[d].handle
  }

  /** One turn of the loop in apply_values. */
  method ApplyToChip(request: LineRequest, resolver: LineResolver, i: nat)
    requires Serves(request, resolver.lines, i)
    modifies request.handle
    ensures Driven(request, resolver.lines, i)
  {
    var offsets, values := new nat[|resolver.lines|], new int[|resolver.lines|];
    var n := GetLineOffsetsAndValues(resolver, i, offsets, values);
    var status := request.SetAllValues(values[..n]);
  }

  lemma DrivenLines(requests: seq<LineRequest>, lines: seq<ResolvedLine>)
    requires forall c :: 0 <= c < |requests| ==> Driven(requests[c], lines, c)
    requires forall k :: 0 <= k < |lines| ==> 0 <= lines[k].chipNum < |requests|
    ensures forall k :: 0 <= k < |lines| ==> Level(requests, lines[k]) == if lines[k].value != 0 then 1 else 0
  {
    forall k | 0 <= k < |lines| ensures Level(requests, lines[k]) == if lines[k].value != 0 then 1 else 0 {
      DrivenLine(requests, lines, k);
    }
  }

  /** apply_values: request order is gather order, so every line of the resolver ends up at its
      value. */
  method ApplyValues(requests: seq<LineRequest>, resolver: LineResolver)
    requires |requests| == |resolver.chips| && Separate(requests)
    requires forall c :: 0 <= c < |requests| ==> Serves(requests[c], resolver.lines, c)
    requires forall k :: 0 <= k < |resolver.lines| ==> 0 <= resolver.lines[k].chipNum < |requests|
    modifies set c | 0 <= c < |requests| :: requests[c].handle
    ensures forall c :: 0 <= c < |requests| ==> Serves(requests[c], resolver.lines, c)
    ensures forall k :: 0 <= k < |resolver.lines| ==>
      Level(requests, resolver.lines[k]) == if resolver.lines[k].value != 0 then 1 else 0
  {
    for i := 0 to |resolver.chips|
      invariant forall c :: 0 <= c < |requests| ==> Serves(requests[c], resolver.lines, c)
      invariant forall c :: 0 <= c < i ==> Driven(requests[c], resolver.lines, c)
    {
      ApplyToChip(requests[i], resolver, i);
    }
    DrivenLines(requests, resolver.lines);
  }

  lemma OutputsFromValues(offsets: seq<nat>, settings: Settings, values: seq<int>, k: nat, initial: Word)
    requires NoRepeats(offsets) && |offsets| == |values| && k < |offsets| && AllValid(values)
    requires IsOutput(settings)
    requires Compile(Model(LinesFor(offsets, settings), Values(values))).Some?
    ensures
      var c := Compile(Model(LinesFor(offsets, settings), Values(values))).value;
      k in LevelsUnder(c, |offsets|, initial) <==> values[k] != 0
  {
    var m := Model(LinesFor(offsets, settings), Values(values));
    assert Offsets(m.lines) == offsets;
    ReconfiguredLevel(offsets, initial, m, k);
  }

  lemma DrivenFromStart(offsets: seq<nat>, settings: Settings, values: seq<int>, initial: Word, levels: Word)
    requires NoRepeats(offsets) && |offsets| == |values| && AllValid(values) && IsOutput(settings)
    requires Compile(Model(LinesFor(offsets, settings), Values(values))).Some?
    requires levels ==
      LevelsUnder(Compile(Model(LinesFor(offsets, settings), Values(values))).value, |offsets|, initial)
    ensures Offsets(LinesFor(offsets, settings)) == offsets
    ensures forall p: nat :: p < |values| ==> (p in levels <==> values[p] != 0)
  {
    forall p: nat | p < |values| ensures p in levels <==> values[p] != 0 {
      OutputsFromValues(offsets, settings, values, p, initial);
    }
  }

  /** Lines that share their settings take at most two attributes. */
  lemma SharedSettingsCompile(offsets: seq<nat>, settings: Settings, outputs: seq<Value>)
    ensures Compile(Model(LinesFor(offsets, settings), outputs)).Some?
  {
    var lines := LinesFor(offsets, settings);
    SubsetSize(NonzeroPeriods(lines), {settings.debounceUs as nat});
    SubsetSize(Classes(lines), {FlagKey(settings)});
    BudgetIsExact(Model(lines, outputs));
  }

  lemma OnlyTheseLines(offsets: seq<nat>, settings: Settings)
    requires NoRepeats(offsets)
    ensures AssignAll([], offsets, settings) == LinesFor(offsets, settings)
  {
    assert Offsets([]) + offsets == offsets;
    AssignFresh([], offsets, settings);
  }

  /** What one request can hold. */
  predicate Fits(n: nat) {
    1 <= n <= LINES_MAX
  }

  method ConfigureLines(offsets: seq<nat>, cfg: LineConfig, settings: LineSettings) returns (ok: bool)
    requires cfg.Valid() && NoRepeats(offsets)
    modifies cfg, cfg.slots, cfg.outputValues, cfg.live
    ensures cfg.Valid() && fresh(cfg.live - old(cfg.live))
    ensures ok <==> Fits(|offsets|)
    ensures ok ==> cfg.Content() == Model(LinesFor(offsets, settings.Record()), [])
  {
    cfg.Reset();
    OnlyTheseLines(offsets, settings.Record());
    var status := cfg.AddLineSettings(offsets, settings);
    ok := status == Success;
  }

  method ConfigureGathered(offsets: seq<nat>, values: seq<int>, cfg: LineConfig, settings: LineSettings)
    returns (ok: bool)
    requires cfg.Valid() && NoRepeats(offsets) && |offsets| == |values| && AllValid(values)
    modifies cfg, cfg.slots, cfg.outputValues, cfg.live
    ensures cfg.Valid() && fresh(cfg.live - old(cfg.live))
    ensures ok <==> Fits(|offsets|)
    ensures ok ==> cfg.Content() == Model(LinesFor(offsets, settings.Record()), Values(values))
  {
    ok := ConfigureLines(offsets, cfg, settings);
    if ok {
      var status := cfg.SetOutputValues(values);
      ok := status == Success;
    }
  }

  method RequestGathered(offsets: seq<nat>, values: seq<int>, cfg: LineConfig, settings: LineSettings, granted: bool,
                         initial: Word)
    returns (request: LineRequest?)
    requires cfg.Valid() && IsOutput(settings.Record()) && NoRepeats(offsets) && |offsets| == |values| &&
      AllValid(values)
    modifies cfg, cfg.slots, cfg.outputValues, cfg.live
    ensures cfg.Valid() && fresh(cfg.live - old(cfg.live))
    ensures request != null <==> granted && Fits(|offsets|)
    ensures request != null ==> fresh(request) && fresh(request.handle) && request.Valid() && request.offsets == offsets
    ensures request != null ==> forall p: nat :: p < |values| ==> (p in request.handle.levels <==> values[p] != 0)
  {
    ghost var record := settings.Record();
    var ok := ConfigureGathered(offsets, values, cfg, settings);
    if !ok {
      return null;
    }
    SharedSettingsCompile(offsets, record, Values(values));
    request := RequestLines(cfg, granted, initial);
    if request != null {
      DrivenFromStart(offsets, record, values, initial, request.handle.levels);
    }
  }

  lemma {:induction false} GatheredValuesAreValid(lines: seq<ResolvedLine>, chipNum: int)
    requires forall k :: 0 <= k < |lines| ==> ValueOf(lines[k].value).Some?
    ensures AllValid(GatherValues(lines, chipNum))
  {
    if lines != [] {
      GatheredValuesAreValid(lines[..|lines| - 1], chipNum);
    }
  }

  /** The body of the loop of main over the chips: the config is built anew from the chip's
      lines. Null stands for an exit with an error. */
  method RequestChip(resolver: LineResolver, i: nat, cfg: LineConfig, settings: LineSettings, granted: bool,
                     initial: Word)
    returns (request: LineRequest?)
    requires cfg.Valid() && IsOutput(settings.Record()) && Validated(resolver.lines)
    requires forall k :: 0 <= k < |resolver.lines| ==> ValueOf(resolver.lines[k].value).Some?
    modifies cfg, cfg.slots, cfg.outputValues, cfg.live
    ensures cfg.Valid() && fresh(cfg.live - old(cfg.live))
    ensures request != null <==> granted && Fits(|GatherOffsets(resolver.lines, i)|)
    ensures request != null ==> fresh(request) && fresh(request.handle) && Driven(request, resolver.lines, i)
  {
    var lines := resolver.lines;
    var offsets, values := new nat[|lines|], new int[|lines|];
    var n := GetLineOffsetsAndValues(resolver, i, offsets, values);
    GatheredOffsetsAreDistinct(lines, i);
    GatheredValuesAreValid(lines, i);
    request := RequestGathered(offsets[..n], values[..n], cfg, settings, granted, initial);
  }

  /** The first chips have their requests, each at the resolver's values. */
  ghost predicate Opened(requests: seq<LineRequest>, lines: seq<ResolvedLine>)
    reads set c | 0 <= c < |requests| :: requests[c].handle
  {
    Separate(requests) && forall c :: 0 <= c < |requests| ==> Driven(requests[c], lines, c)
  }

  lemma OneMoreOpened(requests: seq<LineRequest>, request: LineRequest, lines: seq<ResolvedLine>)
    requires Opened(requests, lines) && Driven(request, lines, |requests|)
    requires forall c :: 0 <= c < |requests| ==> requests[c].handle != request.handle
    ensures Opened(requests + [request], lines)
  {
  }

  /** The kernel grants these chips, and each has as many lines as a request can hold. */
  ghost predicate Requestable(lines: seq<ResolvedLine>, granted: seq<bool>) {
    forall c :: 0 <= c < |granted| ==> granted[c] && Fits(|GatherOffsets(lines, c)|)
  }

  /** One turn of the loop of main, on the list of requests. */
  method OpenNext(resolver: LineResolver, requests: seq<LineRequest>, cfg: LineConfig, settings: LineSettings,
                  granted: bool, initial: Word)
    returns (ok: bool, more: seq<LineRequest>)
    requires cfg.Valid() && IsOutput(settings.Record()) && Validated(resolver.lines)
    requires forall k :: 0 <= k < |resolver.lines| ==> ValueOf(resolver.lines[k].value).Some?
    requires Opened(requests, resolver.lines)
    modifies cfg, cfg.slots, cfg.outputValues, cfg.live
    ensures cfg.Valid() && fresh(cfg.live - old(cfg.live))
    ensures ok <==> granted && Fits(|GatherOffsets(resolver.lines, |requests|)|)
    ensures requests <= more && |more| == |requests| + (if ok then 1 else 0)
    ensures Opened(more, resolver.lines) && (ok ==> fresh(more[|requests|].handle))
  {
    more := requests;
    var request := RequestChip(resolver, |requests|, cfg, settings, granted, initial);
    ok := request != null;
    if ok {
      OneMoreOpened(requests, request, resolver.lines);
      more := requests + [request];
    }
  }

  lemma RequestableNext(lines: seq<ResolvedLine>, granted: seq<bool>, i: nat)
    requires i < |granted| && Requestable(lines, granted[..i])
    ensures Requestable(lines, granted[..i + 1]) <==> granted[i] && Fits(|GatherOffsets(lines, i)|)
  {
    assert granted[..i + 1] == granted[..i] + [granted[i]];
  }

  method RequestEach(resolver: LineResolver, settings: LineSettings, granted: seq<bool>, initial: seq<Word>,
                     cfg: LineConfig)
    returns (ok: bool, requests: seq<LineRequest>)
    requires cfg.Valid() && IsOutput(settings.Record()) && Validated(resolver.lines)
    requires |granted| == |initial| == |resolver.chips|
    requires forall k :: 0 <= k < |resolver.lines| ==> ValueOf(resolver.lines[k].value).Some?
    modifies cfg, cfg.slots, cfg.outputValues, cfg.live
    ensures forall c :: 0 <= c < |requests| ==> fresh(requests[c].handle)
    ensures ok <==> Requestable(resolver.lines, granted)
    ensures ok ==> |requests| == |resolver.chips| && Opened(requests, resolver.lines)
  {
    requests := [];
    for i := 0 to |resolver.chips|
      invariant cfg.Valid() && fresh(cfg.live - old(cfg.live))
      invariant |requests| == i && Opened(requests, resolver.lines) && Requestable(resolver.lines, granted[..i])
      invariant forall c :: 0 <= c < i ==> fresh(requests[c].handle)
    {
      RequestableNext(resolver.lines, granted, i);
      ok, requests := OpenNext(resolver, requests, cfg, settings, granted[i], initial[i]);
      if !ok {
        return;
      }
    }
    assert granted[..|granted|] == granted;
    ok := true;
  }

  /** The loop of main over the chips. It gets through exactly when every chip is granted and has 1
      to 64 lines; then every line is already driven to its value, and the requests are what
      ApplyValues needs. */
  method RequestAll(resolver: LineResolver, settings: LineSettings, granted: seq<bool>, initial: seq<Word>)
    returns (ok: bool, requests: seq<LineRequest>)
    requires IsOutput(settings.Record()) && Validated(resolver.lines)
    requires |granted| == |initial| == |resolver.chips|
    requires forall k :: 0 <= k < |resolver.lines| ==> ValueOf(resolver.lines[k].value).Some?
    requires forall k :: 0 <= k < |resolver.lines| ==> 0 <= resolver.lines[k].chipNum < |resolver.chips|
    ensures ok <==> Requestable(resolver.lines, granted)
    ensures ok ==> |requests| == |resolver.chips| && Separate(requests)
    ensures ok ==> forall c :: 0 <= c < |requests| ==>
      fresh(requests[c].handle) && Serves(requests[c], resolver.lines, c)
    ensures ok ==> forall k :: 0 <= k < |resolver.lines| ==>
      Level(requests, resolver.lines[k]) == if resolver.lines[k].value != 0 then 1 else 0
  {
    var cfg := new LineConfig();
    ok, requests := RequestEach(resolver, settings, granted, initial, cfg);
    if ok {
      DrivenLines(requests, resolver.lines);
    }
  }

  /** Giving a line a value does not touch how it was found. */
  lemma ValueIsNotSearched(devices: seq<ChipDevice>, offsetMode: bool, strict: bool, used: seq<nat>, line: ResolvedLine,
                           value: int)
    requires Final(devices, offsetMode, strict, used, line)
    ensures Final(devices, offsetMode, strict, used, line.(value := value))
  {
  }

  /** The loop of main that hands the parsed values to the resolver. */
  method GiveValues(resolver: LineResolver, values: seq<int>)
    requires |values| == |resolver.lines|
    modifies resolver`lines
    ensures |resolver.lines| == |values|
    ensures forall k :: 0 <= k < |values| ==> resolver.lines[k] == old(resolver.lines)[k].(value := values[k])
  {
    ghost var before := resolver.lines;
    for i := 0 to |values|
      invariant |resolver.lines| == |before|
      invariant forall k :: 0 <= k < i ==> resolver.lines[k] == before[k].(value := values[k])
      invariant forall k :: i <= k < |before| ==> resolver.lines[k] == before[k]
    {
      resolver.lines := resolver.lines[i := resolver.lines[i].(value := values[i])];
    }
  }

  lemma StillFound(devices: seq<ChipDevice>, offsetMode: bool, strict: bool, used: seq<nat>,
                   found: seq<ResolvedLine>, lines: seq<ResolvedLine>, values: seq<int>)
    requires |found| == |lines| == |values| && Validated(found) && AllFinal(devices, offsetMode, strict, used, found)
    requires forall k :: 0 <= k < |lines| ==> lines[k] == found[k].(value := values[k])
    requires Populated(found, |used|)
    ensures Validated(lines) && AllFinal(devices, offsetMode, strict, used, lines) && Populated(lines, |used|)
    ensures forall k :: 0 <= k < |lines| ==> 0 <= lines[k].chipNum < |used|
  {
    forall k | 0 <= k < |lines|
      ensures Final(devices, offsetMode, strict, used, lines[k]) && 0 <= lines[k].chipNum < |used|
    {
      ValueIsNotSearched(devices, offsetMode, strict, used, found[k], values[k]);
    }
    forall j, k | 0 <= j < k < |lines| ensures !SameLine(lines[j], lines[k]) {
      assert !SameLine(found[j], found[k]);
    }
    StillPopulated(found, lines, |used|);
  }

  lemma {:induction false} NoInfoLost(found: seq<ResolvedLine>, lines: seq<ResolvedLine>)
    requires |found| == |lines| && forall k :: 0 <= k < |lines| ==> lines[k].info == found[k].info
    ensures CountInfo(lines) == CountInfo(found)
  {
    if lines != [] {
      NoInfoLost(found[..|found| - 1], lines[..|lines| - 1]);
    }
  }

  /** The ids and values of the command line, in order. */
  ghost predicate Given(lines: seq<ResolvedLine>, ids: seq<string>, values: seq<int>) {
    |lines| == |ids| == |values| && forall k :: 0 <= k < |ids| ==> lines[k].id == ids[k] && lines[k].value == values[k]
  }

  /** What the program has found when a search gets through, whether or not it goes on from there. */
  ghost predicate SearchResult(resolver: LineResolver, devices: seq<ChipDevice>, offsetMode: bool, strict: bool)
    reads resolver
  {
    resolver.Recording(devices, |devices|) && Populated(resolver.lines, |resolver.used|) &&
    AllFinal(devices, offsetMode, strict, resolver.used, resolver.lines)
  }

  /** The finished search, its validation and the values handed over. */
  method ValidateAndGive(resolver: LineResolver, values: seq<int>, ghost devices: seq<ChipDevice>,
                         ghost offsetMode: bool, ghost strict: bool)
    returns (ok: bool)
    requires |values| == |resolver.lines| && SearchResult(resolver, devices, offsetMode, strict)
    modifies resolver`lines
    ensures SearchResult(resolver, devices, offsetMode, strict) && SameAsked(resolver.lines, old(resolver.lines))
    ensures ok <==> AllLocated(devices, offsetMode, old(resolver.lines))
    ensures ok ==> Validated(resolver.lines)
    ensures ok ==> forall k :: 0 <= k < |resolver.lines| ==> 0 <= resolver.lines[k].chipNum < |resolver.chips|
    ensures ok ==> forall k :: 0 <= k < |resolver.lines| ==> resolver.lines[k].value == values[k]
  {
    ok := ValidateResolution(resolver);
    ValidatedIff(devices, offsetMode, strict, resolver.used, resolver.lines);
    if ok {
      ghost var found := resolver.lines;
      GiveValues(resolver, values);
      StillFound(devices, offsetMode, strict, resolver.used, found, resolver.lines, values);
      NoInfoLost(found, resolver.lines);
    }
  }

  /** main from the parsed command line to the resolver's values. It gets through exactly when the
      search can, every id stands for a line, and no two stand for the same one. */
  method FindLines(ids: seq<string>, values: seq<int>, devices: seq<ChipDevice>, chipGiven: bool, strict: bool,
                   byName: bool)
    returns (ok: bool, resolver: LineResolver)
    requires |ids| == |values| && (chipGiven ==> |devices| == 1)
    ensures fresh(resolver) && SameAsked(resolver.lines, Asked(ids, byName || !chipGiven))
    ensures ok <==>
      && Feasible(devices, chipGiven && !byName, chipGiven, strict, Asked(ids, byName || !chipGiven))
      && AllLocated(devices, chipGiven && !byName, Asked(ids, byName || !chipGiven))
    ensures Feasible(devices, chipGiven && !byName, chipGiven, strict, Asked(ids, byName || !chipGiven)) ==>
      SearchResult(resolver, devices, chipGiven && !byName, strict)
    ensures ok ==> Validated(resolver.lines) && Given(resolver.lines, ids, values)
    ensures ok ==> forall k :: 0 <= k < |resolver.lines| ==> 0 <= resolver.lines[k].chipNum < |resolver.chips|
  {
    var outcome;
    outcome, resolver := ResolveLines(ids, devices, chipGiven, strict, byName);
    if !outcome.Searched? {
      return false, resolver;
    }
    AllLocatedByIds(devices, chipGiven && !byName, resolver.lines, Asked(ids, byName || !chipGiven));
    ok := ValidateAndGive(resolver, values, devices, chipGiven && !byName, strict);
  }

  method RequestFound(resolver: LineResolver, settings: LineSettings, granted: string -> bool, initial: string -> Word)
    returns (ok: bool, requests: seq<LineRequest>)
    requires IsOutput(settings.Record()) && Validated(resolver.lines)
    requires forall k :: 0 <= k < |resolver.lines| ==> ValueOf(resolver.lines[k].value).Some?
    requires forall k :: 0 <= k < |resolver.lines| ==> 0 <= resolver.lines[k].chipNum < |resolver.chips|
    ensures ok <==> forall c :: 0 <= c < |resolver.chips| ==>
      granted(resolver.chips[c]) && Fits(|GatherOffsets(resolver.lines, c)|)
    ensures ok ==> |requests| == |resolver.chips| && Separate(requests)
    ensures ok ==> forall c :: 0 <= c < |requests| ==>
      fresh(requests[c].handle) && Serves(requests[c], resolver.lines, c)
    ensures ok ==> forall k :: 0 <= k < |resolver.lines| ==>
      Level(requests, resolver.lines[k]) == if resolver.lines[k].value != 0 then 1 else 0
  {
    var chips := resolver.chips;
    var grants := seq(|chips|, c requires 0 <= c < |chips| => granted(chips[c]));
    var levels := seq(|chips|, c requires 0 <= c < |chips| => initial(chips[c]));
    assert forall c :: 0 <= c < |chips| ==> grants[c] == granted(chips[c]);
    ok, requests := RequestAll(resolver, settings, grants, levels);
  }

  /** When gpioset gets its lines, in terms of the ids, the devices and the kernel's answers: the
      search gets through, every id stands for a line, no two for the same one, and every device
      with such a line is granted and has no more than 64 of them. */
  ghost predicate Drivable(devices: seq<ChipDevice>, offsetMode: bool, chipGiven: bool, strict: bool,
                           asked: seq<ResolvedLine>, granted: string -> bool) {
    && Feasible(devices, offsetMode, chipGiven, strict, asked)
    && AllLocated(devices, offsetMode, asked)
    && DevicesGranted(devices, offsetMode, asked, granted, LINES_MAX)
  }

  /** main from the parsed command line to the finished requests. The chips' answers and the lines'
      initial levels are the kernel's, by device path. */
  method DriveLines(ids: seq<string>, values: seq<int>, devices: seq<ChipDevice>, chipGiven: bool, strict: bool,
                    byName: bool, settings: LineSettings, granted: string -> bool, initial: string -> Word)
    returns (ok: bool, resolver: LineResolver, requests: seq<LineRequest>)
    requires |ids| == |values| && AllValid(values)
    requires IsOutput(settings.Record()) && (chipGiven ==> |devices| == 1)
    ensures ok <==>
      Drivable(devices, chipGiven && !byName, chipGiven, strict, Asked(ids, byName || !chipGiven), granted)
    ensures fresh(resolver) && SameAsked(resolver.lines, Asked(ids, byName || !chipGiven))
    ensures Feasible(devices, chipGiven && !byName, chipGiven, strict, Asked(ids, byName || !chipGiven)) ==>
      SearchResult(resolver, devices, chipGiven && !byName, strict)
    ensures ok ==> Given(resolver.lines, ids, values) && Validated(resolver.lines)
    ensures ok ==> |requests| == |resolver.chips| && Separate(requests)
    ensures ok ==> forall c :: 0 <= c < |requests| ==>
      fresh(requests[c].handle) && Serves(requests[c], resolver.lines, c)
    ensures ok ==> forall k :: 0 <= k < |resolver.lines| ==>
      0 <= resolver.lines[k].chipNum < |requests| &&
      Level(requests, resolver.lines[k]) == if values[k] != 0 then 1 else 0
  {
    requests := [];
    ok, resolver := FindLines(ids, values, devices, chipGiven, strict, byName);
    if ok {
      ghost var asked := Asked(ids, byName || !chipGiven);
      ChipsGrantedIff(devices, chipGiven && !byName, strict, resolver, granted, LINES_MAX);
      GrantedByIds(devices, chipGiven && !byName, resolver.lines, asked, granted, LINES_MAX);
      ok, requests := RequestFound(resolver, settings, granted, initial);
    }
  }
}

/** tools/tools-common.c: checking a finished search, and moving line values between the
    resolver and the per-chip arrays that requests work with. */
module Gather {
  import opened Wrappers
  import opened OrderedMap
  import opened Resolver

  ghost predicate SameLine(a: ResolvedLine, b: ResolvedLine) {
    a.chipNum == b.chipNum && a.offset == b.offset
  }

  /** Every id was found, and no two ids are the same line. */
  ghost predicate Validated(lines: seq<ResolvedLine>) {
    (forall k :: 0 <= k < |lines| ==> lines[k].resolved) &&
    (forall j, k :: 0 <= j < k < |lines| ==> !SameLine(lines[j], lines[k]))
  }

  method FindSame(lines: seq<ResolvedLine>, i: nat) returns (same: bool)
    requires i < |lines|
    ensures same <==> exists j :: 0 <= j < i && lines[j].resolved && SameLine(lines[j], lines[i])
  {
    for j := 0 to i
      invariant forall k :: 0 <= k < j ==> !(lines[k].resolved && SameLine(lines[k], lines[i]))
    {
      if lines[j].resolved && lines[j].chipNum == lines[i].chipNum && lines[j].offset == lines[i].offset {
        return true;
      }
    }
    same := false;
  }

  /** validate_resolution: false where the program would exit. */
  method ValidateResolution(resolver: LineResolver) returns (valid: bool)
    ensures valid <==> Validated(resolver.lines)
  {
    valid := true;
    var lines := resolver.lines;
    for i := 0 to |lines|
      invariant valid <==> Validated(lines[..i])
    {
      assert lines[..i + 1] == lines[..i] + [lines[i]];
      if lines[i].resolved {
        var same := FindSame(lines, i);
        if same {
          valid := false;
        }
      } else {
        valid := false;
        assert !lines[..i + 1][i].resolved;
      }
    }
    assert lines[..|lines|] == lines;
  }

  lemma SameIdSameLine(devices: seq<ChipDevice>, offsetMode: bool, strict: bool, used: seq<nat>, a: ResolvedLine,
                       b: ResolvedLine)
    requires Final(devices, offsetMode, strict, used, a) && Final(devices, offsetMode, strict, used, b)
    requires a.resolved && b.resolved && a.id == b.id && a.idAsOffset == b.idAsOffset
    requires forall i, j :: 0 <= i < j < |used| ==> used[i] < used[j]
    ensures SameLine(a, b)
  {
    AnswerIsUnique(devices, offsetMode, strict, used, a, used, b);
  }

  /** In a search that passed validation the requested ids are all different. */
  lemma ValidatedIdsAreDistinct(devices: seq<ChipDevice>, offsetMode: bool, strict: bool, used: seq<nat>,
                                lines: seq<ResolvedLine>)
    requires Validated(lines) && AllFinal(devices, offsetMode, strict, used, lines)
    requires forall i, j :: 0 <= i < j < |used| ==> used[i] < used[j]
    requires forall j, k :: 0 <= j < k < |lines| && lines[j].id == lines[k].id ==>
      lines[j].idAsOffset == lines[k].idAsOffset
    ensures forall j, k :: 0 <= j < k < |lines| ==> lines[j].id != lines[k].id
  {
    forall j, k | 0 <= j < k < |lines| ensures lines[j].id != lines[k].id {
      if lines[j].id == lines[k].id {
        SameIdSameLine(devices, offsetMode, strict, used, lines[j], lines[k]);
      }
    }
  }

  // ---------------------------------------------------------------------------------------
  // Gathering and scattering

  function GatherOffsets(lines: seq<ResolvedLine>, chipNum: int): seq<nat> {
    if lines == [] then []
    else
      var last := lines[|lines| - 1];
      GatherOffsets(lines[..|lines| - 1], chipNum) + (if last.chipNum == chipNum then [last.offset] else [])
  }

  function GatherValues(lines: seq<ResolvedLine>, chipNum: int): (values: seq<int>)
    ensures |values| == |GatherOffsets(lines, chipNum)|
  {
    if lines == [] then []
    else
      var last := lines[|lines| - 1];
      GatherValues(lines[..|lines| - 1], chipNum) + (if last.chipNum == chipNum then [last.value] else [])
  }

  /** How many of the first k lines are on a chip: where line k's value goes. */
  function Rank(lines: seq<ResolvedLine>, chipNum: int, k: nat): nat
    requires k <= |lines|
  {
    |GatherOffsets(lines[..k], chipNum)|
  }

  /** get_line_offsets_and_values */
  method GetLineOffsetsAndValues(resolver: LineResolver, chipNum: int, offsets: array<nat>, values: array<int>)
    returns (numLines: nat)
    requires offsets.Length >= |resolver.lines| && values.Length >= |resolver.lines|
    modifies offsets, values
    ensures numLines == |GatherOffsets(resolver.lines, chipNum)| <= |resolver.lines|
    ensures offsets[..numLines] == GatherOffsets(resolver.lines, chipNum)
    ensures values[..numLines] == GatherValues(resolver.lines, chipNum)
  {
    var lines := resolver.lines;
    numLines := 0;
    for i := 0 to |lines|
      invariant numLines <= i && resolver.lines == lines
      invariant offsets[..numLines] == GatherOffsets(lines[..i], chipNum)
      invariant values[..numLines] == GatherValues(lines[..i], chipNum)
    {
      assert lines[..i + 1][..i] == lines[..i];
      if lines[i].chipNum == chipNum {
        offsets[numLines] := lines[i].offset;
        values[numLines] := lines[i].value;
        numLines := numLines + 1;
      }
    }
    assert lines[..|lines|] == lines;
  }

  /** The lines with one chip's values replaced, in order. */
  function Scatter(lines: seq<ResolvedLine>, chipNum: int, values: seq<int>): (r: seq<ResolvedLine>)
    requires |values| >= |GatherOffsets(lines, chipNum)|
    ensures |r| == |lines|
  {
    if lines == [] then []
    else
      var last := |lines| - 1;
      var front := Scatter(lines[..last], chipNum, values);
      front +
      [if lines[last].chipNum == chipNum then lines[last].(value := values[Rank(lines, chipNum, last)])
       else lines[last]]
  }

  lemma {:induction false} RankGrows(lines: seq<ResolvedLine>, chipNum: int, k: nat)
    requires k <= |lines|
    ensures Rank(lines, chipNum, k) <= |GatherOffsets(lines, chipNum)|
    ensures k < |lines| && lines[k].chipNum == chipNum ==> Rank(lines, chipNum, k) < |GatherOffsets(lines, chipNum)|
    decreases |lines|
  {
    var last := |lines| - 1;
    if k < |lines| {
      assert lines[..last][..k] == lines[..k];
      RankGrows(lines[..last], chipNum, k);
    } else {
      assert lines[..k] == lines;
    }
  }

  /** set_line_values */
  method SetLineValues(resolver: LineResolver, chipNum: int, values: array<int>)
    requires values.Length >= |GatherOffsets(resolver.lines, chipNum)|
    modifies resolver`lines
    ensures resolver.lines == Scatter(old(resolver.lines), chipNum, values[..])
  {
    ghost var before := resolver.lines;
    var j := 0;
    for i := 0 to |resolver.lines|
      invariant |resolver.lines| == |before| && j == Rank(before, chipNum, i)
      invariant j <= values.Length && Rank(before, chipNum, i) <= |GatherOffsets(before, chipNum)|
      invariant resolver.lines[..i] == Scatter(before[..i], chipNum, values[..])
      invariant forall k :: i <= k < |before| ==> resolver.lines[k] == before[k]
    {
      assert before[..i + 1][..i] == before[..i];
      RankGrows(before, chipNum, i + 1);
      if resolver.lines[i].chipNum == chipNum {
        resolver.lines := resolver.lines[i := resolver.lines[i].(value := values[j])];
        j := j + 1;
      }
    }
    assert before[..|before|] == before;
  }

  /** A line's offset and value sit at its rank in its chip's arrays. */
  lemma {:induction false} GatheredAtRank(lines: seq<ResolvedLine>, k: nat)
    requires k < |lines|
    ensures
      var c := lines[k].chipNum;
      Rank(lines, c, k) < |GatherOffsets(lines, c)| &&
      GatherOffsets(lines, c)[Rank(lines, c, k)] == lines[k].offset &&
      GatherValues(lines, c)[Rank(lines, c, k)] == lines[k].value
  {
    var last := |lines| - 1;
    if k < last {
      assert lines[..last][..k] == lines[..k];
      GatheredAtRank(lines[..last], k);
    }
  }

  /** Everything gathered comes from a line of that chip. */
  lemma {:induction false} GatheredFrom(lines: seq<ResolvedLine>, chipNum: int, p: nat) returns (k: nat)
    requires p < |GatherOffsets(lines, chipNum)|
    ensures k < |lines| && lines[k].chipNum == chipNum && Rank(lines, chipNum, k) == p
    ensures GatherOffsets(lines, chipNum)[p] == lines[k].offset
  {
    var last := |lines| - 1;
    var front := lines[..last];
    if p < |GatherOffsets(front, chipNum)| {
      k := GatheredFrom(front, chipNum, p);
      assert front[..k] == lines[..k];
    } else {
      k := last;
    }
  }

  /** On one chip no offset is gathered twice. */
  lemma GatheredOffsetsAreDistinct(lines: seq<ResolvedLine>, chipNum: int)
    requires Validated(lines)
    ensures NoRepeats(GatherOffsets(lines, chipNum))
  {
    var offsets := GatherOffsets(lines, chipNum);
    forall p, q | 0 <= p < q < |offsets| ensures offsets[p] != offsets[q] {
      var j := GatheredFrom(lines, chipNum, p);
      var k := GatheredFrom(lines, chipNum, q);
      assert !SameLine(lines[j], lines[k]) by {
        assert j != k;
      }
    }
  }

  function SumOfCounts(lines: seq<ResolvedLine>, numChips: nat): nat {
    if numChips == 0 then 0
    else SumOfCounts(lines, numChips - 1) + |GatherOffsets(lines, numChips - 1)|
  }

  lemma {:induction false} SumOfNothing(numChips: nat)
    ensures SumOfCounts([], numChips) == 0
  {
    if numChips > 0 {
      SumOfNothing(numChips - 1);
    }
  }

  lemma {:induction false} SumOfOneMore(lines: seq<ResolvedLine>, numChips: nat)
    requires lines != []
    ensures SumOfCounts(lines, numChips) == SumOfCounts(lines[..|lines| - 1], numChips)
      + if 0 <= lines[|lines| - 1].chipNum < numChips then 1 else 0
  {
    if numChips > 0 {
      SumOfOneMore(lines, numChips - 1);
    }
  }

  /** The per-chip arrays hold every line once. */
  lemma {:induction false} CountsAddUp(lines: seq<ResolvedLine>, numChips: nat)
    requires forall k :: 0 <= k < |lines| ==> 0 <= lines[k].chipNum < numChips
    ensures SumOfCounts(lines, numChips) == |lines|
  {
    if lines == [] {
      SumOfNothing(numChips);
    } else {
      CountsAddUp(lines[..|lines| - 1], numChips);
      SumOfOneMore(lines, numChips);
    }
  }

  lemma ScatterStep(lines: seq<ResolvedLine>, chipNum: int, values: seq<int>)
    requires lines != [] && |values| >= |GatherOffsets(lines, chipNum)|
    requires Scatter(lines[..|lines| - 1], chipNum, values) == lines[..|lines| - 1]
    requires lines[|lines| - 1].chipNum == chipNum ==>
      values[|GatherOffsets(lines[..|lines| - 1], chipNum)|] == lines[|lines| - 1].value
    ensures Scatter(lines, chipNum, values) == lines
  {
  }

  /** Scattering what was gathered changes nothing. */
  lemma {:induction false} ScatterUndoesGather(lines: seq<ResolvedLine>, chipNum: int, more: seq<int>)
    ensures Scatter(lines, chipNum, GatherValues(lines, chipNum) + more) == lines
  {
    if lines != [] {
      var last := |lines| - 1;
      var front := GatherValues(lines[..last], chipNum);
      var own := if lines[last].chipNum == chipNum then [lines[last].value] else [];
      Regroup(front, own, more);
      ScatterUndoesGather(lines[..last], chipNum, own + more);
      ScatterStep(lines, chipNum, front + (own + more));
    }
  }

  /** Gathering what was scattered gives the values back, and other chips are left alone. */
  lemma {:induction false} GatherUndoesScatter(lines: seq<ResolvedLine>, chipNum: int, values: seq<int>, other: int)
    requires |values| >= |GatherOffsets(lines, chipNum)|
    ensures GatherOffsets(Scatter(lines, chipNum, values), other) == GatherOffsets(lines, other)
    ensures GatherValues(Scatter(lines, chipNum, values), other) ==
      if other == chipNum then values[..|GatherOffsets(lines, chipNum)|] else GatherValues(lines, other)
  {
    if lines != [] {
      var last := |lines| - 1;
      GatherUndoesScatter(lines[..last], chipNum, values, other);
      assert Scatter(lines, chipNum, values)[..last] == Scatter(lines[..last], chipNum, values);
    }
  }

  // ---------------------------------------------------------------------------------------
  // A finished search, in terms of the requested ids and the devices alone

  /** The id stands for line o of device c. */
  ghost predicate Located(devices: seq<ChipDevice>, offsetMode: bool, line: ResolvedLine, c: nat, o: nat) {
    if ByOffset(devices, offsetMode, line) then c == 0 && o == line.idAsOffset else IsFirst(devices, line.id, c, o)
  }

  lemma LocatedOnce(devices: seq<ChipDevice>, offsetMode: bool, line: ResolvedLine, c: nat, o: nat, d: nat, p: nat)
    requires Located(devices, offsetMode, line, c, o) && Located(devices, offsetMode, line, d, p)
    ensures c == d && o == p
  {
  }

  ghost predicate IsLocated(devices: seq<ChipDevice>, offsetMode: bool, line: ResolvedLine) {
    exists c: nat, o: nat :: Located(devices, offsetMode, line, c, o)
  }

  ghost predicate LocatedTogether(devices: seq<ChipDevice>, offsetMode: bool, a: ResolvedLine, b: ResolvedLine) {
    exists c: nat, o: nat :: Located(devices, offsetMode, a, c, o) && Located(devices, offsetMode, b, c, o)
  }

  lemma ResolvedIsLocated(devices: seq<ChipDevice>, offsetMode: bool, strict: bool, used: seq<nat>, line: ResolvedLine)
    requires Final(devices, offsetMode, strict, used, line)
    ensures line.resolved ==> Located(devices, offsetMode, line, used[line.chipNum], line.offset)
    ensures line.resolved <==> IsLocated(devices, offsetMode, line)
  {
    if line.resolved {
      assert Located(devices, offsetMode, line, used[line.chipNum], line.offset);
    } else {
      forall c: nat, o: nat ensures !Located(devices, offsetMode, line, c, o) {
        assert !Matches(devices, line.id, c, o);
      }
    }
  }

  /** Every id stands for a line, and no two for the same one. */
  ghost predicate AllLocated(devices: seq<ChipDevice>, offsetMode: bool, lines: seq<ResolvedLine>) {
    (forall k :: 0 <= k < |lines| ==> IsLocated(devices, offsetMode, lines[k])) &&
    (forall j, k :: 0 <= j < k < |lines| ==> !LocatedTogether(devices, offsetMode, lines[j], lines[k]))
  }

  ghost predicate Ascending(used: seq<nat>) {
    forall i, j :: 0 <= i < j < |used| ==> used[i] < used[j]
  }

  lemma SameLineIff(devices: seq<ChipDevice>, offsetMode: bool, strict: bool, used: seq<nat>, a: ResolvedLine,
                    b: ResolvedLine)
    requires Final(devices, offsetMode, strict, used, a) && Final(devices, offsetMode, strict, used, b)
    requires a.resolved && b.resolved && Ascending(used)
    ensures SameLine(a, b) <==> LocatedTogether(devices, offsetMode, a, b)
  {
    ResolvedIsLocated(devices, offsetMode, strict, used, a);
    ResolvedIsLocated(devices, offsetMode, strict, used, b);
    forall c: nat, o: nat | Located(devices, offsetMode, a, c, o) && Located(devices, offsetMode, b, c, o)
      ensures SameLine(a, b)
    {
      LocatedOnce(devices, offsetMode, a, c, o, used[a.chipNum], a.offset);
      LocatedOnce(devices, offsetMode, b, c, o, used[b.chipNum], b.offset);
    }
  }

  /** Validation looks at the lines that were found, but what it decides is settled by the ids. */
  lemma ValidatedIff(devices: seq<ChipDevice>, offsetMode: bool, strict: bool, used: seq<nat>, lines: seq<ResolvedLine>)
    requires AllFinal(devices, offsetMode, strict, used, lines) && Ascending(used)
    ensures Validated(lines) <==> AllLocated(devices, offsetMode, lines)
  {
    forall k | 0 <= k < |lines|
      ensures lines[k].resolved <==> IsLocated(devices, offsetMode, lines[k])
    {
      ResolvedIsLocated(devices, offsetMode, strict, used, lines[k]);
    }
    forall j, k | 0 <= j < k < |lines| && lines[j].resolved && lines[k].resolved
      ensures SameLine(lines[j], lines[k]) <==> LocatedTogether(devices, offsetMode, lines[j], lines[k])
    {
      SameLineIff(devices, offsetMode, strict, used, lines[j], lines[k]);
    }
  }

  /** The ids that stand for lines of device d. */
  ghost function OnDevice(devices: seq<ChipDevice>, offsetMode: bool, lines: seq<ResolvedLine>, d: nat): set<nat> {
    set k: nat | k < |lines| && exists o: nat :: Located(devices, offsetMode, lines[k], d, o)
  }

  ghost function OfChip(lines: seq<ResolvedLine>, chipNum: int): set<nat> {
    set k: nat | k < |lines| && lines[k].chipNum == chipNum
  }

  lemma {:induction false} GatheredCount(lines: seq<ResolvedLine>, chipNum: int)
    ensures |GatherOffsets(lines, chipNum)| == |OfChip(lines, chipNum)|
  {
    if lines == [] {
      assert OfChip(lines, chipNum) == {};
    } else {
      var last := |lines| - 1;
      GatheredCount(lines[..last], chipNum);
      assert OfChip(lines, chipNum) ==
        OfChip(lines[..last], chipNum) + (if lines[last].chipNum == chipNum then {last} else {});
    }
  }

  lemma ChipOfDevice(devices: seq<ChipDevice>, offsetMode: bool, strict: bool, used: seq<nat>, line: ResolvedLine,
                     c: nat)
    requires Final(devices, offsetMode, strict, used, line) && line.resolved && Ascending(used) && c < |used|
    ensures line.chipNum == c <==> exists o: nat :: Located(devices, offsetMode, line, used[c], o)
  {
    ResolvedIsLocated(devices, offsetMode, strict, used, line);
    forall o: nat | Located(devices, offsetMode, line, used[c], o) ensures line.chipNum == c {
      LocatedOnce(devices, offsetMode, line, used[c], o, used[line.chipNum], line.offset);
    }
  }

  /** A recorded chip gathers exactly the ids that stand for lines of its device. */
  lemma GatheredOnDevice(devices: seq<ChipDevice>, offsetMode: bool, strict: bool, used: seq<nat>,
                         lines: seq<ResolvedLine>, c: nat)
    requires AllFinal(devices, offsetMode, strict, used, lines) && Ascending(used) && c < |used|
    requires forall k :: 0 <= k < |lines| ==> lines[k].resolved
    ensures |GatherOffsets(lines, c)| == |OnDevice(devices, offsetMode, lines, used[c])|
  {
    GatheredCount(lines, c);
    forall k: nat | k < |lines| ensures k in OfChip(lines, c) <==> k in OnDevice(devices, offsetMode, lines, used[c]) {
      ChipOfDevice(devices, offsetMode, strict, used, lines[k], c);
    }
    assert OfChip(lines, c) == OnDevice(devices, offsetMode, lines, used[c]);
  }

  lemma PopulatedIsGathered(lines: seq<ResolvedLine>, n: nat)
    requires Populated(lines, n)
    ensures forall c :: 0 <= c < n ==> |GatherOffsets(lines, c)| >= 1
  {
    forall c | 0 <= c < n ensures |GatherOffsets(lines, c)| >= 1 {
      assert OnChip(lines, c);
      var k :| 0 <= k < |lines| && lines[k].resolved && lines[k].chipNum == c;
      GatheredAtRank(lines, k);
    }
  }

  /** Only recorded devices have ids that stand for their lines. */
  lemma OnlyRecorded(devices: seq<ChipDevice>, offsetMode: bool, strict: bool, used: seq<nat>, lines: seq<ResolvedLine>,
                     d: nat)
    requires AllFinal(devices, offsetMode, strict, used, lines) && OnDevice(devices, offsetMode, lines, d) != {}
    requires forall k :: 0 <= k < |lines| ==> lines[k].resolved
    ensures exists c :: 0 <= c < |used| && used[c] == d
  {
    var k :| k in OnDevice(devices, offsetMode, lines, d);
    var o: nat :| Located(devices, offsetMode, lines[k], d, o);
    assert Final(devices, offsetMode, strict, used, lines[k]);
    ResolvedIsLocated(devices, offsetMode, strict, used, lines[k]);
    LocatedOnce(devices, offsetMode, lines[k], d, o, used[lines[k].chipNum], lines[k].offset);
  }

  /** The kernel grants every device that an id stands for a line of, and none has too many. */
  ghost predicate DevicesGranted(devices: seq<ChipDevice>, offsetMode: bool, lines: seq<ResolvedLine>,
                                 granted: string -> bool, limit: nat) {
    forall d: nat :: d < |devices| && OnDevice(devices, offsetMode, lines, d) != {} ==>
      granted(devices[d].path) && |OnDevice(devices, offsetMode, lines, d)| <= limit
  }

  /** The recorded chips are granted and small enough exactly when these devices are. */
  lemma ChipsGrantedIff(devices: seq<ChipDevice>, offsetMode: bool, strict: bool, resolver: LineResolver,
                        granted: string -> bool, limit: nat)
    requires resolver.Recording(devices, |devices|) && Populated(resolver.lines, |resolver.used|)
    requires AllFinal(devices, offsetMode, strict, resolver.used, resolver.lines) && Validated(resolver.lines)
    ensures DevicesGranted(devices, offsetMode, resolver.lines, granted, limit) <==>
      forall c :: 0 <= c < |resolver.chips| ==>
        granted(resolver.chips[c]) && 1 <= |GatherOffsets(resolver.lines, c)| <= limit
  {
    var lines, used := resolver.lines, resolver.used;
    PopulatedIsGathered(lines, |used|);
    forall c | 0 <= c < |used|
      ensures |GatherOffsets(lines, c)| == |OnDevice(devices, offsetMode, lines, used[c])|
      ensures resolver.chips[c] == devices[used[c]].path && OnDevice(devices, offsetMode, lines, used[c]) != {}
    {
      GatheredOnDevice(devices, offsetMode, strict, used, lines, c);
    }
    forall d: nat | OnDevice(devices, offsetMode, lines, d) != {} ensures exists c :: 0 <= c < |used| && used[c] == d {
      OnlyRecorded(devices, offsetMode, strict, used, lines, d);
    }
  }

  lemma LocatedByIds(devices: seq<ChipDevice>, offsetMode: bool, a: ResolvedLine, b: ResolvedLine)
    requires a.id == b.id && a.idAsOffset == b.idAsOffset
    ensures forall c: nat, o: nat :: Located(devices, offsetMode, a, c, o) <==> Located(devices, offsetMode, b, c, o)
  {
  }

  ghost predicate SameAsked(a: seq<ResolvedLine>, b: seq<ResolvedLine>) {
    |a| == |b| && forall k :: 0 <= k < |a| ==> a[k].id == b[k].id && a[k].idAsOffset == b[k].idAsOffset
  }

  /** What ids stand for depends on the ids and the devices alone. */
  lemma AllLocatedByIds(devices: seq<ChipDevice>, offsetMode: bool, a: seq<ResolvedLine>, b: seq<ResolvedLine>)
    requires SameAsked(a, b)
    ensures AllLocated(devices, offsetMode, a) <==> AllLocated(devices, offsetMode, b)
  {
    forall k | 0 <= k < |a| ensures IsLocated(devices, offsetMode, a[k]) <==> IsLocated(devices, offsetMode, b[k]) {
      LocatedByIds(devices, offsetMode, a[k], b[k]);
    }
    forall j, k | 0 <= j < k < |a|
      ensures LocatedTogether(devices, offsetMode, a[j], a[k]) <==> LocatedTogether(devices, offsetMode, b[j], b[k])
    {
      LocatedByIds(devices, offsetMode, a[j], b[j]);
      LocatedByIds(devices, offsetMode, a[k], b[k]);
    }
  }

  lemma OnDeviceByIds(devices: seq<ChipDevice>, offsetMode: bool, a: seq<ResolvedLine>, b: seq<ResolvedLine>, d: nat)
    requires SameAsked(a, b)
    ensures OnDevice(devices, offsetMode, a, d) == OnDevice(devices, offsetMode, b, d)
  {
    forall k: nat | k < |a|
      ensures k in OnDevice(devices, offsetMode, a, d) <==> k in OnDevice(devices, offsetMode, b, d)
    {
      LocatedByIds(devices, offsetMode, a[k], b[k]);
    }
  }

  lemma GrantedByIds(devices: seq<ChipDevice>, offsetMode: bool, a: seq<ResolvedLine>, b: seq<ResolvedLine>,
                     granted: string -> bool, limit: nat)
    requires SameAsked(a, b)
    ensures DevicesGranted(devices, offsetMode, a, granted, limit) <==>
      DevicesGranted(devices, offsetMode, b, granted, limit)
  {
    forall d: nat ensures OnDevice(devices, offsetMode, a, d) == OnDevice(devices, offsetMode, b, d) {
      OnDeviceByIds(devices, offsetMode, a, b, d);
    }
  }
}

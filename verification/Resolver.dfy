/** tools/tools-common.c: finding the lines that the command line names. */
module Resolver {
  import opened Wrappers
  import opened CString
  import opened Decimal

  const INT_MAX: nat := 0x7FFF_FFFF

  /** What opening a chip's device leads to. */
  datatype Access = Opens | Denied | Fails

  /** A chip device in scan order, with the names of its lines by offset. */
  datatype ChipDevice = ChipDevice(path: string, access: Access, names: seq<Option<string>>)

  /** A line info object: which device and offset it describes. */
  datatype Info = Info(chip: nat, offset: nat, name: Option<string>)

  datatype Outcome = Searched | NotUnique(line: nat) | CannotOpen(device: nat)

  /** `struct resolved_line` */
  datatype ResolvedLine = ResolvedLine(
    id: string,
    idAsOffset: int,
    resolved: bool,
    info: Option<Info>,
    chipNum: int,
    offset: nat,
    value: int)

  /** parse_uint: -1 unless the whole text is a number up to INT_MAX. */
  function ParseUint(option: string): int {
    var (o, rest) := Strtoull(option);
    if rest == "" && o <= INT_MAX then o else -1
  }

  /** A printed number is an offset exactly when nothing follows it and an int can hold it. */
  lemma ParseUintOfPrint(n: nat, more: string)
    requires more != "" ==> !IsDigit(more[0])
    ensures ParseUint(Print(n) + more) == if more == "" && n <= 2147483647 then n else -1
  {
    StrtoullOfPrint(n, more);
  }

  /** A numeral stands for its value if an int can hold it; a negated one for its remainder modulo
      2^64, as strtoul says. */
  lemma ParseUintOfNumeral(blanks: string, sign: string, digits: string)
    requires IsNumeral(blanks, sign, digits)
    ensures
      var v := Value(digits);
      ParseUint(blanks + (sign + digits)) ==
        if sign == "-" && 0 < v < 0x1_0000_0000_0000_0000 then
          if 0x1_0000_0000_0000_0000 - v <= 2147483647 then 0x1_0000_0000_0000_0000 - v else -1
        else if v <= 2147483647 then v else -1
  {
    StrtoullOfNumeral(blanks, sign, digits, "");
    assert digits + "" == digits;
  }

  /** No other text is taken for an offset, except the empty one, which counts as 0. */
  lemma ParsedUintIsNumeral(s: string) returns (blanks: string, sign: string, digits: string)
    ensures s == "" ==> ParseUint(s) == 0
    ensures s != "" && ParseUint(s) != -1 ==> IsNumeral(blanks, sign, digits) && s == blanks + (sign + digits)
  {
    blanks, sign, digits := StrtoullConsumes(s);
    assert digits + "" == digits;
  }

  // ---------------------------------------------------------------------------------------
  // Specification

  ghost predicate Matches(devices: seq<ChipDevice>, id: string, c: nat, o: nat) {
    c < |devices| && devices[c].access == Opens && o < |devices[c].names| && devices[c].names[o] == Some(id)
  }

  ghost predicate Before(c1: nat, o1: nat, c2: nat, o2: nat) {
    c1 < c2 || (c1 == c2 && o1 < o2)
  }

  /** Line (c, o) is the first one with this name, in chip order and then in offset order. */
  ghost predicate IsFirst(devices: seq<ChipDevice>, id: string, c: nat, o: nat) {
    Matches(devices, id, c, o) && forall c1: nat, o1: nat :: Matches(devices, id, c1, o1) ==> !Before(c1, o1, c, o)
  }

  /** The id is taken as an offset on the only chip. */
  ghost predicate ByOffset(devices: seq<ChipDevice>, offsetMode: bool, line: ResolvedLine) {
    offsetMode && |devices| > 0 && 0 <= line.idAsOffset < |devices[0].names|
  }

  /** The scan has come to line o of device c. For one requested line: what is settled by the
      lines already visited. `used` lists the devices that are, or would now be, recorded. */
  ghost predicate Progress(devices: seq<ChipDevice>, offsetMode: bool, strict: bool, used: seq<nat>,
                           c: nat, o: nat, line: ResolvedLine) {
    if ByOffset(devices, offsetMode, line) then
      && line.resolved && line.offset == line.idAsOffset && line.chipNum == 0
      && |used| > 0 && used[0] == 0
      && (line.info.Some? <==> Before(0, line.offset, c, o))
      && (line.info.Some? ==> line.info.value.chip == 0 && line.info.value.offset == line.offset)
      && (strict ==> forall c1: nat, o1: nat :: Matches(devices, line.id, c1, o1) ==> !Before(c1, o1, c, o))
    else
      && line.resolved == line.info.Some?
      && (!line.resolved ==> line.chipNum == -1)
      && (!line.resolved ==> forall c1: nat, o1: nat :: Matches(devices, line.id, c1, o1) ==> !Before(c1, o1, c, o))
      && (line.resolved ==>
        var found := line.info.value;
        && IsFirst(devices, line.id, found.chip, found.offset) && Before(found.chip, found.offset, c, o)
        && line.offset == found.offset && 0 <= line.chipNum < |used| && used[line.chipNum] == found.chip
        && (strict ==> forall c1: nat, o1: nat :: Matches(devices, line.id, c1, o1) && Before(c1, o1, c, o) ==>
          c1 == found.chip && o1 == found.offset))
  }

  /** Two lines have this name; or the id is taken as an offset and a line has it as its name. */
  ghost predicate IsAmbiguous(devices: seq<ChipDevice>, offsetMode: bool, line: ResolvedLine) {
    exists c1: nat, o1: nat :: Matches(devices, line.id, c1, o1) &&
      (ByOffset(devices, offsetMode, line) ||
       exists c2: nat, o2: nat :: Matches(devices, line.id, c2, o2) && !(c1 == c2 && o1 == o2))
  }

  /** Opening this device ends the program. */
  ghost predicate Unopenable(devices: seq<ChipDevice>, chipGiven: bool, c: nat) {
    c < |devices| && (devices[c].access == Fails || (devices[c].access == Denied && chipGiven))
  }

  /** A search is given up only for a reason. */
  ghost predicate Justified(devices: seq<ChipDevice>, offsetMode: bool, chipGiven: bool, strict: bool,
                            lines: seq<ResolvedLine>, outcome: Outcome) {
    match outcome
    case Searched => true
    case NotUnique(k) => strict && k < |lines| && IsAmbiguous(devices, offsetMode, lines[k])
    case CannotOpen(c) => Unopenable(devices, chipGiven, c)
  }

  /** The id is settled by the devices before device c. */
  ghost predicate FoundBefore(devices: seq<ChipDevice>, offsetMode: bool, line: ResolvedLine, c: nat) {
    if ByOffset(devices, offsetMode, line) then c > 0
    else exists c1: nat, o1: nat :: c1 < c && Matches(devices, line.id, c1, o1)
  }

  /** When a search gets through: in strict mode no id is ambiguous, and no device in the way of
      the search is one that cannot be opened. */
  ghost predicate Feasible(devices: seq<ChipDevice>, offsetMode: bool, chipGiven: bool, strict: bool,
                           lines: seq<ResolvedLine>) {
    (strict ==> forall k {:trigger IsAmbiguous(devices, offsetMode, lines[k])} :: 0 <= k < |lines| ==>
      !IsAmbiguous(devices, offsetMode, lines[k])) &&
    (forall c: nat :: Unopenable(devices, chipGiven, c) ==>
      !strict && forall k :: 0 <= k < |lines| ==> FoundBefore(devices, offsetMode, lines[k], c))
  }

  /** What a search promises for one requested line. */
  ghost predicate Final(devices: seq<ChipDevice>, offsetMode: bool, strict: bool, used: seq<nat>, line: ResolvedLine) {
    && (line.resolved ==> 0 <= line.chipNum < |used|)
    && (if ByOffset(devices, offsetMode, line) then
          line.resolved && line.offset == line.idAsOffset && used[line.chipNum] == 0
        else
          (line.resolved <==> exists c: nat, o: nat :: Matches(devices, line.id, c, o)) &&
          (line.resolved ==> IsFirst(devices, line.id, used[line.chipNum], line.offset)))
    && (strict ==> !IsAmbiguous(devices, offsetMode, line))
  }

  // ---------------------------------------------------------------------------------------
  // One requested line against one visited line

  datatype Visit = Visit(line: ResolvedLine, found: nat, hit: bool, ambiguous: bool)

  /** The body of the loop in resolve_line. */
  function VisitLine(line: ResolvedLine, info: Info, chipNum: nat, numChips: nat, strict: bool): Visit {
    var already := line.resolved && line.offset == info.offset && line.chipNum == chipNum;
    var l := if already then line.(info := Some(info)) else line;
    var found := if already then 1 else 0;
    if l.resolved && !strict then Visit(l, found, already, false)
    else if info.name == Some(l.id) then
      if strict && l.resolved then Visit(l, found, already, true)
      else Visit(l.(offset := info.offset, info := Some(info), chipNum := numChips, resolved := true),
        found + 1, true, false)
    else Visit(l, found, already, false)
  }

  /** Recorded devices in ascending order, the current one provisionally last. */
  ghost predicate Recorded(used: seq<nat>, c: nat) {
    |used| > 0 && used[|used| - 1] == c && forall i, j :: 0 <= i < j < |used| ==> used[i] < used[j]
  }

  lemma {:induction false} RecordedRank(used: seq<nat>, c: nat, i: nat)
    requires Recorded(used, c) && i < |used|
    ensures i <= used[i]
  {
    if i > 0 {
      RecordedRank(used, c, i - 1);
    }
  }

  lemma VisitKeepsProgress(devices: seq<ChipDevice>, offsetMode: bool, strict: bool, used: seq<nat>,
                           c: nat, o: nat, line: ResolvedLine)
    requires c < |devices| && devices[c].access == Opens && o < |devices[c].names|
    requires Recorded(used, c) && (offsetMode ==> c == 0 && |devices| == 1)
    requires Progress(devices, offsetMode, strict, used, c, o, line)
    ensures
      var v := VisitLine(line, Info(c, o, devices[c].names[o]), c, |used| - 1, strict);
      && (!v.ambiguous ==> Progress(devices, offsetMode, strict, used, c, o + 1, v.line))
      && v.found == (if v.line.info.Some? && line.info.None? then 1 else 0)
      && (v.line.info.None? ==> line.info.None?)
      && (!v.hit ==> v.line == line)
      && (line.resolved ==> v.line.resolved && v.line.chipNum == line.chipNum)
      && (v.hit ==> v.line.resolved && v.line.chipNum == |used| - 1)
      && v.line.id == line.id && v.line.idAsOffset == line.idAsOffset
      && (v.ambiguous ==> strict && IsAmbiguous(devices, offsetMode, line))
  {
    var info := Info(c, o, devices[c].names[o]);
    if !ByOffset(devices, offsetMode, line) && line.resolved {
      RecordedRank(used, c, line.chipNum);
      var found := line.info.value;
      assert Matches(devices, line.id, found.chip, found.offset) && !(found.chip == c && found.offset == o);
    }
    assert info.name == Some(line.id) ==> Matches(devices, line.id, c, o);
  }

  // ---------------------------------------------------------------------------------------
  // From visit to visit

  ghost predicate AllProgress(devices: seq<ChipDevice>, offsetMode: bool, strict: bool, used: seq<nat>,
                              c: nat, o: nat, lines: seq<ResolvedLine>) {
    forall k {:trigger Progress(devices, offsetMode, strict, used, c, o, lines[k])} :: 0 <= k < |lines| ==>
      Progress(devices, offsetMode, strict, used, c, o, lines[k])
  }

  ghost predicate AllFinal(devices: seq<ChipDevice>, offsetMode: bool, strict: bool, used: seq<nat>,
                           lines: seq<ResolvedLine>) {
    forall k {:trigger Final(devices, offsetMode, strict, used, lines[k])} :: 0 <= k < |lines| ==>
      Final(devices, offsetMode, strict, used, lines[k])
  }

  /** Going on to the next device: the current one is recorded or not. */
  lemma NextDevice(devices: seq<ChipDevice>, offsetMode: bool, strict: bool, used: seq<nat>, c: nat, line: ResolvedLine,
                   keep: bool)
    requires c < |devices|
    requires devices[c].access == Opens ==>
      Progress(devices, offsetMode, strict, used + [c], c, |devices[c].names|, line)
    requires devices[c].access != Opens ==> Progress(devices, offsetMode, strict, used + [c], c, 0, line) && !offsetMode
    requires !keep ==> line.chipNum != |used|
    ensures Progress(devices, offsetMode, strict, if keep then used + [c] else used, c + 1, 0, line)
  {
    forall c1: nat, o1: nat | Matches(devices, line.id, c1, o1)
      ensures Before(c1, o1, c + 1, 0) <==>
        Before(c1, o1, c, if devices[c].access == Opens then |devices[c].names| else 0)
    {
    }
  }

  /** Recording one more device later changes nothing for lines found before. */
  lemma MoreUsed(devices: seq<ChipDevice>, offsetMode: bool, strict: bool, used: seq<nat>, more: nat,
                 c: nat, o: nat, line: ResolvedLine)
    requires Progress(devices, offsetMode, strict, used, c, o, line)
    ensures Progress(devices, offsetMode, strict, used + [more], c, o, line)
  {
  }

  /** A line whose info is known is settled, whatever is still to be scanned. */
  lemma FoundIsFinal(devices: seq<ChipDevice>, offsetMode: bool, used: seq<nat>, c: nat, o: nat, line: ResolvedLine)
    requires Progress(devices, offsetMode, false, used, c, o, line) && line.info.Some?
    ensures Final(devices, offsetMode, false, used, line)
  {
  }

  lemma ScannedIsFinal(devices: seq<ChipDevice>, offsetMode: bool, strict: bool, used: seq<nat>, line: ResolvedLine)
    requires Progress(devices, offsetMode, strict, used, |devices|, 0, line)
    ensures Final(devices, offsetMode, strict, used, line)
  {
    forall c: nat, o: nat | Matches(devices, line.id, c, o) ensures Before(c, o, |devices|, 0) {
    }
  }

  /** The promise settles the answer: how far a search went before it had found everything, and
      which devices it recorded on the way, make no difference. */
  lemma AnswerIsUnique(devices: seq<ChipDevice>, offsetMode: bool, strict: bool,
                       used: seq<nat>, a: ResolvedLine, otherUsed: seq<nat>, b: ResolvedLine)
    requires Final(devices, offsetMode, strict, used, a) && Final(devices, offsetMode, strict, otherUsed, b)
    requires a.id == b.id && a.idAsOffset == b.idAsOffset
    ensures a.resolved <==> b.resolved
    ensures a.resolved ==> used[a.chipNum] == otherUsed[b.chipNum] && a.offset == b.offset
  {
    if a.resolved && b.resolved && !ByOffset(devices, offsetMode, a) {
      assert Matches(devices, a.id, used[a.chipNum], a.offset) &&
        Matches(devices, a.id, otherUsed[b.chipNum], b.offset);
    }
  }

  function CountInfo(lines: seq<ResolvedLine>): (n: nat)
    ensures n <= |lines|
  {
    if lines == [] then 0
    else CountInfo(lines[..|lines| - 1]) + (if lines[|lines| - 1].info.Some? then 1 else 0)
  }

  lemma {:induction false} CountInfoUpdate(lines: seq<ResolvedLine>, i: nat, line: ResolvedLine)
    requires i < |lines|
    ensures CountInfo(lines[i := line]) + (if lines[i].info.Some? then 1 else 0) ==
      CountInfo(lines) + (if line.info.Some? then 1 else 0)
  {
    var last := |lines| - 1;
    if i < last {
      assert lines[i := line][..last] == lines[..last][i := line];
      CountInfoUpdate(lines[..last], i, line);
    } else {
      assert lines[i := line][..last] == lines[..last];
    }
  }

  lemma {:induction false} CountInfoFull(lines: seq<ResolvedLine>)
    ensures CountInfo(lines) == |lines| <==> forall k :: 0 <= k < |lines| ==> lines[k].info.Some?
  {
    if lines != [] {
      CountInfoFull(lines[..|lines| - 1]);
    }
  }

  lemma {:induction false} NoInfo(lines: seq<ResolvedLine>)
    requires forall k :: 0 <= k < |lines| ==> lines[k].info == None
    ensures CountInfo(lines) == 0
  {
    if lines != [] {
      NoInfo(lines[..|lines| - 1]);
    }
  }

  // ---------------------------------------------------------------------------------------
  // From device to device

  /** Some line has been found on the device that is recorded as number j. */
  ghost predicate OnChip(lines: seq<ResolvedLine>, j: int) {
    exists k :: 0 <= k < |lines| && lines[k].resolved && lines[k].chipNum == j
  }

  ghost predicate NoneOnChip(lines: seq<ResolvedLine>, j: int) {
    forall k :: 0 <= k < |lines| ==> lines[k].chipNum != j
  }

  /** Every recorded device has a line. */
  ghost predicate Populated(lines: seq<ResolvedLine>, n: nat) {
    forall j :: 0 <= j < n ==> OnChip(lines, j)
  }

  /** A line that has been found stays where it was found. */
  ghost predicate KeepsPlaces(before: seq<ResolvedLine>, after: seq<ResolvedLine>) {
    |before| == |after| &&
    forall k :: 0 <= k < |before| && before[k].resolved ==> after[k].resolved && after[k].chipNum == before[k].chipNum
  }

  lemma StillOnChip(before: seq<ResolvedLine>, after: seq<ResolvedLine>, j: int)
    requires KeepsPlaces(before, after) && OnChip(before, j)
    ensures OnChip(after, j)
  {
    var k :| 0 <= k < |before| && before[k].resolved && before[k].chipNum == j;
    assert after[k].resolved;
  }

  lemma StillPopulated(before: seq<ResolvedLine>, after: seq<ResolvedLine>, n: nat)
    requires KeepsPlaces(before, after) && Populated(before, n)
    ensures Populated(after, n)
  {
    forall j | 0 <= j < n ensures OnChip(after, j) {
      StillOnChip(before, after, j);
    }
  }

  /** What a visit does to the lines: those found stay where they are, and a hit puts a line on
      the visited device. */
  ghost predicate Moved(before: seq<ResolvedLine>, after: seq<ResolvedLine>, hit: bool, j: int) {
    KeepsPlaces(before, after) && if hit then OnChip(after, j) else after == before
  }

  lemma MovedTwice(a: seq<ResolvedLine>, b: seq<ResolvedLine>, c: seq<ResolvedLine>, hit: bool, again: bool, j: int)
    requires Moved(a, b, hit, j) && Moved(b, c, again, j)
    ensures Moved(a, c, hit || again, j)
  {
    if hit {
      StillOnChip(b, c, j);
    }
  }

  lemma ProgressOneMore(devices: seq<ChipDevice>, offsetMode: bool, strict: bool, used: seq<nat>, c: nat, o: nat,
                        before: seq<ResolvedLine>, after: seq<ResolvedLine>, i: nat)
    requires i < |before| == |after| && forall k :: 0 <= k < |before| && k != i ==> after[k] == before[k]
    requires AllProgress(devices, offsetMode, strict, used, c, o, before[..i])
    requires Progress(devices, offsetMode, strict, used, c, o, after[i])
    ensures AllProgress(devices, offsetMode, strict, used, c, o, after[..i + 1])
  {
    var longer := after[..i + 1];
    forall k | 0 <= k < |longer| ensures Progress(devices, offsetMode, strict, used, c, o, longer[k]) {
      assert k < i ==> Progress(devices, offsetMode, strict, used, c, o, before[..i][k]);
    }
  }

  predicate Untouched(line: ResolvedLine) {
    !line.resolved && line.info == None && line.chipNum == -1
  }

  ghost predicate AllFoundBefore(devices: seq<ChipDevice>, offsetMode: bool, lines: seq<ResolvedLine>, c: nat) {
    forall k :: 0 <= k < |lines| ==> FoundBefore(devices, offsetMode, lines[k], c)
  }

  /** The lines before device c is scanned; by offset nothing has been placed yet. */
  ghost predicate AtDevice(devices: seq<ChipDevice>, offsetMode: bool, strict: bool, used: seq<nat>, c: nat,
                           lines: seq<ResolvedLine>, done: bool) {
    if c == 0 then forall k :: 0 <= k < |lines| ==> Untouched(lines[k])
    else if done then AllFinal(devices, offsetMode, false, used, lines) && AllFoundBefore(devices, offsetMode, lines, c)
    else AllProgress(devices, offsetMode, strict, used, c, 0, lines)
  }

  /** Where the scan of a device starts: nothing refers to it yet, except by offset. */
  lemma StartDevice(devices: seq<ChipDevice>, offsetMode: bool, strict: bool, used: seq<nat>, c: nat,
                    lines: seq<ResolvedLine>)
    requires c < |devices| && devices[c].access == Opens && (offsetMode ==> c == 0 && used == [])
    requires forall k :: 0 <= k < |lines| ==>
      if ByOffset(devices, offsetMode, lines[k])
      then lines[k].resolved && lines[k].info == None && lines[k].chipNum == 0 && lines[k].offset == lines[k].idAsOffset
      else (Untouched(lines[k]) && c == 0) || Progress(devices, offsetMode, strict, used, c, 0, lines[k])
    ensures AllProgress(devices, offsetMode, strict, used + [c], c, 0, lines)
  {
    forall k | 0 <= k < |lines| ensures Progress(devices, offsetMode, strict, used + [c], c, 0, lines[k]) {
      if Progress(devices, offsetMode, strict, used, c, 0, lines[k]) {
        MoreUsed(devices, offsetMode, strict, used, c, c, 0, lines[k]);
      }
    }
  }

  lemma ForgetUnused(devices: seq<ChipDevice>, offsetMode: bool, used: seq<nat>, c: nat, o: nat, line: ResolvedLine,
                     keep: bool)
    requires Progress(devices, offsetMode, false, used + [c], c, o, line)
    requires !keep ==> line.chipNum != |used|
    ensures Progress(devices, offsetMode, false, if keep then used + [c] else used, c, o, line)
  {
  }

  lemma FoundByNow(devices: seq<ChipDevice>, offsetMode: bool, used: seq<nat>, c: nat, o: nat, line: ResolvedLine)
    requires Progress(devices, offsetMode, false, used, c, o, line) && line.info.Some?
    ensures FoundBefore(devices, offsetMode, line, c + 1)
  {
    if !ByOffset(devices, offsetMode, line) {
      var found := line.info.value;
      assert Matches(devices, line.id, found.chip, found.offset);
    }
  }

  /** Where it ends: every line found on it is settled, and it is recorded if it was used. */
  lemma EndDevice(devices: seq<ChipDevice>, offsetMode: bool, strict: bool, used: seq<nat>, c: nat, o: nat,
                  lines: seq<ResolvedLine>, keep: bool, done: bool)
    requires c < |devices| && devices[c].access == Opens && (o == |devices[c].names| || done)
    requires AllProgress(devices, offsetMode, strict, used + [c], c, o, lines)
    requires !keep ==> NoneOnChip(lines, |used|)
    requires done <==> !strict && CountInfo(lines) >= |lines|
    ensures AtDevice(devices, offsetMode, strict, if keep then used + [c] else used, c + 1, lines, done)
  {
    CountInfoFull(lines);
    var now := if keep then used + [c] else used;
    forall k | 0 <= k < |lines|
      ensures
        if done
        then Final(devices, offsetMode, false, now, lines[k]) && FoundBefore(devices, offsetMode, lines[k], c + 1)
        else Progress(devices, offsetMode, strict, now, c + 1, 0, lines[k])
    {
      if done {
        ForgetUnused(devices, offsetMode, used, c, o, lines[k], keep);
        FoundIsFinal(devices, offsetMode, now, c, o, lines[k]);
        FoundByNow(devices, offsetMode, now, c, o, lines[k]);
      } else {
        NextDevice(devices, offsetMode, strict, used, c, lines[k], keep);
      }
    }
  }

  lemma SkipDevice(devices: seq<ChipDevice>, strict: bool, used: seq<nat>, c: nat, lines: seq<ResolvedLine>)
    requires c < |devices| && devices[c].access != Opens
    requires if c == 0 then forall k :: 0 <= k < |lines| ==> Untouched(lines[k])
             else AllProgress(devices, false, strict, used, c, 0, lines)
    ensures AllProgress(devices, false, strict, used, c + 1, 0, lines)
  {
    forall k | 0 <= k < |lines| ensures Progress(devices, false, strict, used, c + 1, 0, lines[k]) {
      assert c > 0 ==> Progress(devices, false, strict, used, c, 0, lines[k]);
    }
  }

  lemma FinishSearch(devices: seq<ChipDevice>, offsetMode: bool, strict: bool, used: seq<nat>, i: nat,
                     lines: seq<ResolvedLine>, done: bool)
    requires i == |devices| || done
    requires done <==> !strict && CountInfo(lines) >= |lines|
    requires AtDevice(devices, offsetMode, strict, used, i, lines, done)
    ensures AllFinal(devices, offsetMode, strict, used, lines)
  {
    if i == 0 {
      NoInfo(lines);
      forall k | 0 <= k < |lines| ensures Final(devices, offsetMode, strict, used, lines[k]) {
        ScannedIsFinal(devices, offsetMode, strict, used, lines[k]);
      }
    } else if !done {
      forall k | 0 <= k < |lines| ensures Final(devices, offsetMode, strict, used, lines[k]) {
        ScannedIsFinal(devices, offsetMode, strict, used, lines[k]);
      }
    }
  }

  // ---------------------------------------------------------------------------------------
  // When a search gets through

  lemma FoundBeforeLater(devices: seq<ChipDevice>, offsetMode: bool, line: ResolvedLine, c: nat, later: nat)
    requires FoundBefore(devices, offsetMode, line, c) && c <= later
    ensures FoundBefore(devices, offsetMode, line, later)
  {
  }

  /** A finished search had no reason to give up. */
  lemma SearchedIsFeasible(devices: seq<ChipDevice>, offsetMode: bool, chipGiven: bool, strict: bool, used: seq<nat>,
                           i: nat, lines: seq<ResolvedLine>, done: bool)
    requires i <= |devices| && (i == |devices| || done)
    requires done <==> !strict && CountInfo(lines) >= |lines|
    requires AtDevice(devices, offsetMode, strict, used, i, lines, done) &&
      AllFinal(devices, offsetMode, strict, used, lines)
    requires forall c: nat :: c < i ==> !Unopenable(devices, chipGiven, c)
    ensures Feasible(devices, offsetMode, chipGiven, strict, lines)
  {
    if i == 0 {
      NoInfo(lines);
    }
    forall k | strict && 0 <= k < |lines| ensures !IsAmbiguous(devices, offsetMode, lines[k]) {
      assert Final(devices, offsetMode, strict, used, lines[k]);
    }
    forall c: nat, k | Unopenable(devices, chipGiven, c) && 0 <= k < |lines|
      ensures FoundBefore(devices, offsetMode, lines[k], c) {
      assert c >= i;
      FoundBeforeLater(devices, offsetMode, lines[k], i, c);
    }
  }

  lemma NotFoundYet(devices: seq<ChipDevice>, offsetMode: bool, strict: bool, used: seq<nat>, i: nat,
                    line: ResolvedLine)
    requires line.info.None? && (i > 0 ==> Progress(devices, offsetMode, strict, used, i, 0, line))
    ensures !FoundBefore(devices, offsetMode, line, i)
  {
  }

  /** A search that comes to a device which cannot be opened still has something to find. */
  lemma StuckIsNotFeasible(devices: seq<ChipDevice>, offsetMode: bool, chipGiven: bool, strict: bool, used: seq<nat>,
                           i: nat, lines: seq<ResolvedLine>)
    requires Unopenable(devices, chipGiven, i) && (strict || CountInfo(lines) < |lines|)
    requires AtDevice(devices, offsetMode, strict, used, i, lines, false)
    ensures !Feasible(devices, offsetMode, chipGiven, strict, lines)
  {
    if !strict {
      CountInfoFull(lines);
      var k :| 0 <= k < |lines| && lines[k].info.None?;
      NotFoundYet(devices, offsetMode, strict, used, i, lines[k]);
    }
  }

  // ---------------------------------------------------------------------------------------
  // The search

  /** The lines as requested, before any of them is looked for. */
  function Asked(ids: seq<string>, byName: bool): (lines: seq<ResolvedLine>)
    ensures |lines| == |ids|
  {
    seq(|ids|, k requires 0 <= k < |ids| =>
      ResolvedLine(ids[k], if byName then -1 else ParseUint(ids[k]), false, None, -1, 0, 0))
  }

  /** What resolve_lines_by_offset does to one line. */
  function Placed(line: ResolvedLine, numLines: nat): ResolvedLine {
    if 0 <= line.idAsOffset < numLines
    then line.(chipNum := 0, offset := line.idAsOffset, resolved := true) else line
  }

  class LineResolver {
    var lines: seq<ResolvedLine>
    var chips: seq<string>       // the paths of the recorded devices
    var numFound: nat

    const strict: bool
    ghost var used: seq<nat>     // the recorded devices

    /** resolver_init */
    constructor (ids: seq<string>, strict: bool, byName: bool)
      ensures this.strict == strict && chips == [] && used == [] && numFound == CountInfo(lines)
      ensures lines == Asked(ids, byName)
    {
      this.strict := strict;
      lines := Asked(ids, byName);
      chips, used, numFound := [], [], 0;
      new;
      NoInfo(lines);
    }

    predicate Done()
      reads this
    {
      !strict && numFound >= |lines|
    }

    /** The recorded paths are those of the recorded devices, in scan order. */
    ghost predicate Recording(devices: seq<ChipDevice>, c: nat)
      reads this
    {
      && numFound == CountInfo(lines)
      && |chips| == |used| <= c
      && (forall j :: 0 <= j < |used| ==> used[j] < |devices| && used[j] < c && chips[j] == devices[used[j]].path)
      && (forall i, j :: 0 <= i < j < |used| ==> used[i] < used[j])
    }

    ghost predicate SameRequest(before: seq<ResolvedLine>)
      reads this
    {
      |lines| == |before| &&
      forall k :: 0 <= k < |lines| ==> lines[k].id == before[k].id && lines[k].idAsOffset == before[k].idAsOffset
    }

    /** The loop body of resolve_line. */
    method VisitOne(ghost devices: seq<ChipDevice>, ghost offsetMode: bool, info: Info, chipNum: nat, i: nat)
      returns (hit: bool, ambiguous: bool)
      requires info.chip == chipNum < |devices| && devices[chipNum].access == Opens
      requires info.offset < |devices[chipNum].names| && info.name == devices[chipNum].names[info.offset]
      requires offsetMode ==> chipNum == 0 && |devices| == 1
      requires Recording(devices, chipNum) && i < |lines|
      requires Progress(devices, offsetMode, strict, used + [chipNum], chipNum, info.offset, lines[i])
      modifies this`lines, this`numFound
      ensures Recording(devices, chipNum) && SameRequest(old(lines))
      ensures forall k :: 0 <= k < |lines| && k != i ==> lines[k] == old(lines)[k]
      ensures Moved(old(lines), lines, hit, |used|)
      ensures !ambiguous ==> Progress(devices, offsetMode, strict, used + [chipNum], chipNum, info.offset + 1, lines[i])
      ensures ambiguous ==> strict && IsAmbiguous(devices, offsetMode, lines[i])
    {
      VisitKeepsProgress(devices, offsetMode, strict, used + [chipNum], chipNum, info.offset, lines[i]);
      var v := VisitLine(lines[i], info, chipNum, |chips|, strict);
      CountInfoUpdate(lines, i, v.line);
      lines := lines[i := v.line];
      numFound := numFound + v.found;
      hit, ambiguous := v.hit, v.ambiguous;
    }

    /** The loop of resolve_line has come to requested line i. */
    ghost predicate Visiting(devices: seq<ChipDevice>, offsetMode: bool, c: nat, o: nat, before: seq<ResolvedLine>,
                             i: nat, hit: bool)
      reads this
    {
      Recording(devices, c) && SameRequest(before) && Moved(before, lines, hit, |used|) &&
      i <= |lines| && lines[i..] == before[i..] &&
      AllProgress(devices, offsetMode, strict, used + [c], c, o + 1, lines[..i])
    }

    method VisitNext(ghost devices: seq<ChipDevice>, ghost offsetMode: bool, info: Info, chipNum: nat,
                     ghost before: seq<ResolvedLine>, i: nat, hit: bool)
      returns (hitNow: bool, ambiguous: bool)
      requires info.chip == chipNum < |devices| && devices[chipNum].access == Opens
      requires info.offset < |devices[chipNum].names| && info.name == devices[chipNum].names[info.offset]
      requires offsetMode ==> chipNum == 0 && |devices| == 1
      requires Visiting(devices, offsetMode, chipNum, info.offset, before, i, hit) && i < |lines|
      requires Progress(devices, offsetMode, strict, used + [chipNum], chipNum, info.offset, lines[i])
      modifies this`lines, this`numFound
      ensures Recording(devices, chipNum) && SameRequest(before) && Moved(before, lines, hitNow, |used|)
      ensures !ambiguous ==> Visiting(devices, offsetMode, chipNum, info.offset, before, i + 1, hitNow)
      ensures ambiguous ==> strict && IsAmbiguous(devices, offsetMode, lines[i])
    {
      ghost var here := lines;
      hitNow, ambiguous := VisitOne(devices, offsetMode, info, chipNum, i);
      MovedTwice(before, here, lines, hit, hitNow, |used|);
      hitNow := hit || hitNow;
      if !ambiguous {
        ProgressOneMore(devices, offsetMode, strict, used + [chipNum], chipNum, info.offset + 1, here, lines, i);
      }
    }

    /** resolve_line: one visited line against every requested one. */
    method ResolveLine(ghost devices: seq<ChipDevice>, ghost offsetMode: bool, info: Info, chipNum: nat)
      returns (hit: bool, ambiguous: Option<nat>)
      requires info.chip == chipNum < |devices| && devices[chipNum].access == Opens
      requires info.offset < |devices[chipNum].names| && info.name == devices[chipNum].names[info.offset]
      requires offsetMode ==> chipNum == 0 && |devices| == 1
      requires Recording(devices, chipNum)
      requires AllProgress(devices, offsetMode, strict, used + [chipNum], chipNum, info.offset, lines)
      modifies this`lines, this`numFound
      ensures Recording(devices, chipNum) && SameRequest(old(lines))
      ensures ambiguous.None? ==>
        AllProgress(devices, offsetMode, strict, used + [chipNum], chipNum, info.offset + 1, lines)
      ensures Moved(old(lines), lines, hit, |used|)
      ensures ambiguous.Some? ==>
        strict && ambiguous.value < |lines| && IsAmbiguous(devices, offsetMode, lines[ambiguous.value])
    {
      hit, ambiguous := false, None;
      ghost var before := lines;
      for i := 0 to |lines|
        invariant Visiting(devices, offsetMode, chipNum, info.offset, before, i, hit)
      {
        assert lines[i] == before[i];
        assert Progress(devices, offsetMode, strict, used + [chipNum], chipNum, info.offset, before[i]);
        var a: bool;
        hit, a := VisitNext(devices, offsetMode, info, chipNum, before, i, hit);
        if a {
          return hit, Some(i);
        }
      }
      assert lines[..|lines|] == lines;
    }

    /** resolve_lines_by_offset */
    method ResolveLinesByOffset(numLines: nat) returns (any: bool)
      requires forall k :: 0 <= k < |lines| ==> lines[k].info == None
      modifies this`lines
      ensures SameRequest(old(lines)) && CountInfo(lines) == CountInfo(old(lines))
      ensures forall k :: 0 <= k < |lines| ==> lines[k] == Placed(old(lines)[k], numLines)
      ensures any <==> exists k :: 0 <= k < |lines| && 0 <= lines[k].idAsOffset < numLines
    {
      any := false;
      for i := 0 to |lines|
        invariant SameRequest(old(lines))
        invariant forall k :: 0 <= k < i ==> lines[k] == Placed(old(lines)[k], numLines)
        invariant forall k :: i <= k < |lines| ==> lines[k] == old(lines)[k]
        invariant any <==> exists k :: 0 <= k < i && 0 <= lines[k].idAsOffset < numLines
      {
        if 0 <= lines[i].idAsOffset < numLines {
          any := true;
        }
        lines := lines[i := Placed(lines[i], numLines)];
      }
      NoInfo(old(lines));
      NoInfo(lines);
    }

    /** Taking ids as offsets happens on the first device only, and only on request. */
    method PlaceByOffset(ghost devices: seq<ChipDevice>, offsetMode: bool, c: nat, names: seq<Option<string>>)
      returns (chipUsed: bool)
      requires c < |devices| && devices[c].access == Opens && devices[c].names == names
      requires offsetMode ==> c == 0 && |devices| == 1
      requires Recording(devices, c) && AtDevice(devices, offsetMode, strict, used, c, lines, false)
      modifies this`lines
      ensures Recording(devices, c) && SameRequest(old(lines))
      ensures AllProgress(devices, offsetMode, strict, used + [c], c, 0, lines)
      ensures KeepsPlaces(old(lines), lines)
      ensures if chipUsed then OnChip(lines, |used|) else NoneOnChip(lines, |used|)
    {
      chipUsed := false;
      if c == 0 && offsetMode {
        chipUsed := ResolveLinesByOffset(|names|);
      }
      StartDevice(devices, offsetMode, strict, used, c, lines);
    }

    /** The body of that loop. */
    method ScanLine(ghost devices: seq<ChipDevice>, ghost offsetMode: bool, info: Info, c: nat, usedBefore: bool)
      returns (chipUsed: bool, ambiguous: Option<nat>)
      requires info.chip == c < |devices| && devices[c].access == Opens
      requires info.offset < |devices[c].names| && info.name == devices[c].names[info.offset]
      requires offsetMode ==> c == 0 && |devices| == 1
      requires Recording(devices, c) && AllProgress(devices, offsetMode, strict, used + [c], c, info.offset, lines)
      requires if usedBefore then OnChip(lines, |used|) else NoneOnChip(lines, |used|)
      modifies this`lines, this`numFound
      ensures Recording(devices, c) && SameRequest(old(lines))
      ensures ambiguous.None? ==> AllProgress(devices, offsetMode, strict, used + [c], c, info.offset + 1, lines)
      ensures KeepsPlaces(old(lines), lines)
      ensures if chipUsed then OnChip(lines, |used|) else NoneOnChip(lines, |used|)
      ensures ambiguous.Some? ==>
        strict && ambiguous.value < |lines| && IsAmbiguous(devices, offsetMode, lines[ambiguous.value])
    {
      ghost var before := lines;
      var hit: bool;
      hit, ambiguous := ResolveLine(devices, offsetMode, info, c);
      chipUsed := usedBefore || hit;
      if usedBefore {
        StillOnChip(before, lines, |used|);
      }
    }

    /** The inner loop of resolve_lines over the lines of one opened device. */
    method ScanLines(ghost devices: seq<ChipDevice>, ghost offsetMode: bool, c: nat, names: seq<Option<string>>,
                     usedBefore: bool)
      returns (chipUsed: bool, ambiguous: Option<nat>, ghost o: nat)
      requires c < |devices| && devices[c].access == Opens && names == devices[c].names
      requires offsetMode ==> c == 0 && |devices| == 1
      requires Recording(devices, c) && AllProgress(devices, offsetMode, strict, used + [c], c, 0, lines)
      requires if usedBefore then OnChip(lines, |used|) else NoneOnChip(lines, |used|)
      modifies this`lines, this`numFound
      ensures Recording(devices, c) && SameRequest(old(lines))
      ensures ambiguous.None? ==> o <= |names| && (o == |names| || Done())
      ensures ambiguous.None? ==> AllProgress(devices, offsetMode, strict, used + [c], c, o, lines)
      ensures KeepsPlaces(old(lines), lines)
      ensures ambiguous.None? ==> if chipUsed then OnChip(lines, |used|) else NoneOnChip(lines, |used|)
      ensures ambiguous.Some? ==>
        strict && ambiguous.value < |lines| && IsAmbiguous(devices, offsetMode, lines[ambiguous.value])
    {
      chipUsed, ambiguous := usedBefore, None;
      var offset := 0;
      while offset < |names| && !Done()
        invariant offset <= |names| && ambiguous.None?
        invariant Recording(devices, c) && SameRequest(old(lines))
        invariant AllProgress(devices, offsetMode, strict, used + [c], c, offset, lines)
        invariant KeepsPlaces(old(lines), lines)
        invariant if chipUsed then OnChip(lines, |used|) else NoneOnChip(lines, |used|)
      {
        chipUsed, ambiguous := ScanLine(devices, offsetMode, Info(c, offset, names[offset]), c, chipUsed);
        if ambiguous.Some? {
          o := offset;
          return;
        }
        offset := offset + 1;
      }
      o := offset;
    }

    /** A device is recorded exactly when a line has been found on it. */
    method RecordDevice(ghost devices: seq<ChipDevice>, ghost offsetMode: bool, c: nat, ghost o: nat, path: string,
                        chipUsed: bool)
      requires c < |devices| && devices[c].access == Opens && devices[c].path == path
      requires o == |devices[c].names| || Done()
      requires Recording(devices, c) && AllProgress(devices, offsetMode, strict, used + [c], c, o, lines)
      requires if chipUsed then OnChip(lines, |used|) else NoneOnChip(lines, |used|)
      modifies this`chips, this`used
      ensures Recording(devices, c + 1) && AtDevice(devices, offsetMode, strict, used, c + 1, lines, Done())
      ensures used == if chipUsed then old(used) + [c] else old(used)
      ensures Populated(lines, |old(used)|) ==> Populated(lines, |used|)
    {
      EndDevice(devices, offsetMode, strict, used, c, o, lines, chipUsed, Done());
      if chipUsed {
        chips := chips + [path];
        used := used + [c];
      }
    }

    /** One opened device of the outer loop of resolve_lines. */
    method ScanDevice(ghost devices: seq<ChipDevice>, offsetMode: bool, c: nat, path: string,
                      names: seq<Option<string>>)
      returns (ambiguous: Option<nat>)
      requires c < |devices| && devices[c] == ChipDevice(path, Opens, names)
      requires offsetMode ==> c == 0 && |devices| == 1
      requires Recording(devices, c) && !Done() && AtDevice(devices, offsetMode, strict, used, c, lines, false)
      requires Populated(lines, |used|)
      modifies this
      ensures SameRequest(old(lines))
      ensures ambiguous.None? ==> Recording(devices, c + 1) && Populated(lines, |used|)
      ensures ambiguous.None? ==> AtDevice(devices, offsetMode, strict, used, c + 1, lines, Done())
      ensures ambiguous.Some? ==>
        strict && ambiguous.value < |lines| && IsAmbiguous(devices, offsetMode, lines[ambiguous.value])
    {
      var chipUsed := PlaceByOffset(devices, offsetMode, c, names);
      ghost var o;
      chipUsed, ambiguous, o := ScanLines(devices, offsetMode, c, names, chipUsed);
      if ambiguous.None? {
        StillPopulated(old(lines), lines, |used|);
        RecordDevice(devices, offsetMode, c, o, path, chipUsed);
      }
    }

    /** The body of the outer loop of resolve_lines. */
    method TryDevice(devices: seq<ChipDevice>, offsetMode: bool, chipGiven: bool, i: nat) returns (outcome: Outcome)
      requires i < |devices| && !Done() && (offsetMode ==> chipGiven) && (chipGiven ==> |devices| == 1)
      requires Recording(devices, i) && AtDevice(devices, offsetMode, strict, used, i, lines, Done())
      requires Populated(lines, |used|)
      modifies this
      ensures SameRequest(old(lines))
      ensures outcome.Searched? ==> !Unopenable(devices, chipGiven, i)
      ensures outcome.Searched? ==>
        Recording(devices, i + 1) && AtDevice(devices, offsetMode, strict, used, i + 1, lines, Done()) &&
        Populated(lines, |used|)
      ensures Justified(devices, offsetMode, chipGiven, strict, lines, outcome)
      ensures outcome.Searched? || !Feasible(devices, offsetMode, chipGiven, strict, lines)
    {
      outcome := Searched;
      if devices[i].access == Opens {
        var ambiguous := ScanDevice(devices, offsetMode, i, devices[i].path, devices[i].names);
        if ambiguous.Some? {
          outcome := NotUnique(ambiguous.value);
        }
      } else if devices[i].access == Fails || chipGiven {
        outcome := CannotOpen(i);
        StuckIsNotFeasible(devices, offsetMode, chipGiven, strict, used, i, lines);
      } else {
        SkipDevice(devices, strict, used, i, lines);
      }
    }

    lemma LaterStill(devices: seq<ChipDevice>, c: nat)
      requires Recording(devices, c) && c <= |devices|
      ensures Recording(devices, |devices|)
    {
    }

    /** The outer loop of resolve_lines. */
    method Search(devices: seq<ChipDevice>, offsetMode: bool, chipGiven: bool) returns (outcome: Outcome)
      requires (offsetMode ==> chipGiven) && (chipGiven ==> |devices| == 1)
      requires Recording(devices, 0) && AtDevice(devices, offsetMode, strict, used, 0, lines, Done())
      modifies this
      ensures SameRequest(old(lines))
      ensures outcome.Searched? <==> Feasible(devices, offsetMode, chipGiven, strict, lines)
      ensures outcome.Searched? ==> Recording(devices, |devices|) && Populated(lines, |used|)
      ensures outcome.Searched? ==> AllFinal(devices, offsetMode, strict, used, lines)
      ensures Justified(devices, offsetMode, chipGiven, strict, lines, outcome)
    {
      outcome := Searched;
      var i := 0;
      while i < |devices| && !Done()
        invariant i <= |devices| && SameRequest(old(lines)) && outcome.Searched?
        invariant forall c: nat :: c < i ==> !Unopenable(devices, chipGiven, c)
        invariant Recording(devices, i) && AtDevice(devices, offsetMode, strict, used, i, lines, Done())
        invariant Populated(lines, |used|)
      {
        outcome := TryDevice(devices, offsetMode, chipGiven, i);
        if !outcome.Searched? {
          return;
        }
        i := i + 1;
      }
      FinishSearch(devices, offsetMode, strict, used, i, lines, Done());
      SearchedIsFeasible(devices, offsetMode, chipGiven, strict, used, i, lines, Done());
      LaterStill(devices, i);
    }
  }

  /** Whether a search gets through depends on the ids alone. */
  lemma FeasibleByIds(devices: seq<ChipDevice>, offsetMode: bool, chipGiven: bool, strict: bool,
                      a: seq<ResolvedLine>, b: seq<ResolvedLine>)
    requires |a| == |b|
    requires forall k :: 0 <= k < |a| ==> a[k].id == b[k].id && a[k].idAsOffset == b[k].idAsOffset
    requires Feasible(devices, offsetMode, chipGiven, strict, a)
    ensures Feasible(devices, offsetMode, chipGiven, strict, b)
  {
    forall k | 0 <= k < |a| ensures IsAmbiguous(devices, offsetMode, a[k]) <==> IsAmbiguous(devices, offsetMode, b[k]) {
    }
    forall c: nat, k | Unopenable(devices, chipGiven, c) && 0 <= k < |b|
      ensures FoundBefore(devices, offsetMode, b[k], c) {
      assert FoundBefore(devices, offsetMode, a[k], c);
    }
  }

  /** The line is offset o of device d. */
  ghost predicate PlacedAt(line: ResolvedLine, used: seq<nat>, d: nat, o: nat) {
    line.resolved && line.offset == o && 0 <= line.chipNum < |used| && used[line.chipNum] == d
  }

  /** On a chip that the user names, a printed number below the number of its lines is that offset. */
  lemma NumeralIsPlaced(devices: seq<ChipDevice>, strict: bool, used: seq<nat>, line: ResolvedLine, n: nat)
    requires line.id == Print(n) && line.idAsOffset == ParseUint(line.id)
    requires devices != [] && n < |devices[0].names| && n <= 2147483647
    requires Final(devices, true, strict, used, line)
    ensures PlacedAt(line, used, 0, n)
  {
    ParseUintOfPrint(n, "");
    assert Print(n) + "" == Print(n);
  }

  /** Every device opens, or may be passed over because the user has not named it. */
  ghost predicate AllPassable(devices: seq<ChipDevice>, chipGiven: bool) {
    forall c :: 0 <= c < |devices| ==> devices[c].access == Opens || (devices[c].access == Denied && !chipGiven)
  }

  ghost predicate NoLineNamed(devices: seq<ChipDevice>, id: string) {
    forall c, o :: 0 <= c < |devices| && 0 <= o < |devices[c].names| ==> devices[c].names[o] != Some(id)
  }

  ghost predicate SomeFail(devices: seq<ChipDevice>) {
    exists c :: 0 <= c < |devices| && devices[c].access == Fails
  }

  /** Devices that nobody may open are passed over when no chip is named; a device that fails stops
      any search that has not found everything, and so does a named one that does not open. */
  lemma WhenFeasible(devices: seq<ChipDevice>, offsetMode: bool, chipGiven: bool, strict: bool,
                     lines: seq<ResolvedLine>)
    ensures !strict && AllPassable(devices, chipGiven) ==> Feasible(devices, offsetMode, chipGiven, strict, lines)
    ensures !offsetMode && SomeFail(devices) && (exists k :: 0 <= k < |lines| && NoLineNamed(devices, lines[k].id)) ==>
      !Feasible(devices, offsetMode, chipGiven, strict, lines)
    ensures chipGiven && devices != [] && devices[0].access != Opens && lines != [] ==>
      !Feasible(devices, offsetMode, chipGiven, strict, lines)
  {
    if chipGiven && devices != [] && devices[0].access != Opens && lines != [] {
      assert Unopenable(devices, chipGiven, 0);
      assert !FoundBefore(devices, offsetMode, lines[0], 0);
    }
    if c, k :|
      && 0 <= c < |devices| && devices[c].access == Fails
      && 0 <= k < |lines| && NoLineNamed(devices, lines[k].id)
    {
      assert Unopenable(devices, chipGiven, c);
      assert !offsetMode ==> !FoundBefore(devices, offsetMode, lines[k], c);
    }
  }

  /** resolve_lines. Without a chip on the command line every device is scanned and names are the
      only way to identify a line; with one, only that device is. */
  method ResolveLines(ids: seq<string>, devices: seq<ChipDevice>, chipGiven: bool, strict: bool, byName: bool)
    returns (outcome: Outcome, resolver: LineResolver)
    requires chipGiven ==> |devices| == 1
    ensures fresh(resolver) && |resolver.lines| == |ids|
    ensures forall k :: 0 <= k < |ids| ==> resolver.lines[k].id == ids[k]
    ensures forall k :: 0 <= k < |ids| ==>
      resolver.lines[k].idAsOffset == if byName || !chipGiven then -1 else ParseUint(ids[k])
    ensures outcome.Searched? <==>
      Feasible(devices, chipGiven && !byName, chipGiven, strict, Asked(ids, byName || !chipGiven))
    ensures outcome.Searched? ==> resolver.Recording(devices, |devices|)
    ensures outcome.Searched? ==> Populated(resolver.lines, |resolver.used|)
    ensures outcome.Searched? ==> AllFinal(devices, chipGiven && !byName, strict, resolver.used, resolver.lines)
    ensures outcome.Searched? && chipGiven && !byName ==>
      forall k: nat, n: nat ::
        k < |ids| && ids[k] == Print(n) && n < |devices[0].names| && n <= 2147483647 ==>
          PlacedAt(resolver.lines[k], resolver.used, 0, n)
    ensures Justified(devices, chipGiven && !byName, chipGiven, strict, resolver.lines, outcome)
    ensures !strict && AllPassable(devices, chipGiven) ==> outcome.Searched?
    ensures !chipGiven && SomeFail(devices) && (exists k :: 0 <= k < |ids| && NoLineNamed(devices, ids[k])) ==>
      !outcome.Searched?
    ensures chipGiven && devices[0].access != Opens && ids != [] ==> !outcome.Searched?
  {
    WhenFeasible(devices, chipGiven && !byName, chipGiven, strict, Asked(ids, byName || !chipGiven));
    var offsetMode := chipGiven && !byName;
    resolver := new LineResolver(ids, strict, !offsetMode);
    ghost var asked := resolver.lines;
    outcome := resolver.Search(devices, offsetMode, chipGiven);
    if outcome.Searched? {
      FeasibleByIds(devices, offsetMode, chipGiven, strict, resolver.lines, asked);
      if offsetMode {
        forall k: nat, n: nat | k < |ids| && ids[k] == Print(n) && n < |devices[0].names| && n <= 2147483647
          ensures PlacedAt(resolver.lines[k], resolver.used, 0, n)
        {
          NumeralIsPlaced(devices, strict, resolver.used, resolver.lines[k], n);
        }
      }
    } else if Feasible(devices, offsetMode, chipGiven, strict, asked) {
      FeasibleByIds(devices, offsetMode, chipGiven, strict, asked, resolver.lines);
    }
  }
}

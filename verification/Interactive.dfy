/** tools/gpioset.c: commands and toggling, which change the values of the resolver's lines. */
module Interactive {
  import opened Wrappers
  import opened CString
  import opened LineSettings
  import opened OrderedMap
  import opened LineRequest
  import opened Resolver
  import opened Gather
  import opened Gpioset
  import opened Shell
  import opened ShellBuffer

  // ---------------------------------------------------------------------------------------
  // Lines by id

  /** The first line with an id, or the number of lines. */
  function FirstWithId(lines: seq<ResolvedLine>, id: string): (i: nat)
    ensures i <= |lines|
    ensures i < |lines| ==> lines[i].id == id
    ensures forall k :: 0 <= k < i ==> lines[k].id != id
  {
    if lines == [] || lines[0].id == id then 0 else 1 + FirstWithId(lines[1..], id)
  }

  ghost predicate Known(lines: seq<ResolvedLine>, ids: seq<string>) {
    forall l :: 0 <= l < |ids| ==> FirstWithId(lines, ids[l]) < |lines|
  }

  ghost predicate DistinctIds(lines: seq<ResolvedLine>) {
    forall j, k :: 0 <= j < k < |lines| ==> lines[j].id != lines[k].id
  }

  function SetOne(lines: seq<ResolvedLine>, id: string, value: int): seq<ResolvedLine> {
    var i := FirstWithId(lines, id);
    if i < |lines| then lines[i := lines[i].(value := value)] else lines
  }

  /** Each id in turn gives its value to the first line that has it. */
  function SetSubset(lines: seq<ResolvedLine>, ids: seq<string>, values: seq<int>): seq<ResolvedLine>
    requires |ids| == |values|
  {
    if ids == [] then lines
    else
      var last := |ids| - 1;
      SetOne(SetSubset(lines, ids[..last], values[..last]), ids[last], values[last])
  }

  /** Only values change: what was gathered per chip stays in place. */
  ghost predicate SameButValues(a: seq<ResolvedLine>, b: seq<ResolvedLine>) {
    |a| == |b| && forall k :: 0 <= k < |a| ==> a[k] == b[k].(value := a[k].value)
  }

  lemma {:induction false} SetSubsetKeepsTheRest(lines: seq<ResolvedLine>, ids: seq<string>, values: seq<int>)
    requires |ids| == |values|
    ensures SameButValues(SetSubset(lines, ids, values), lines)
  {
    if ids != [] {
      SetSubsetKeepsTheRest(lines, ids[..|ids| - 1], values[..|ids| - 1]);
    }
  }

  /** Among distinct ids every line takes the value last given for it, or keeps its own. */
  lemma {:induction false} SetSubsetMeaning(lines: seq<ResolvedLine>, ids: seq<string>, values: seq<int>, k: nat)
    requires |ids| == |values| && DistinctIds(lines) && k < |lines|
    ensures |SetSubset(lines, ids, values)| == |lines|
    ensures SetSubset(lines, ids, values)[k] ==
      lines[k].(value := GetOr(LastPaired(ids, values, lines[k].id), lines[k].value))
  {
    if ids != [] {
      var last := |ids| - 1;
      SetSubsetMeaning(lines, ids[..last], values[..last], k);
      SetSubsetKeepsTheRest(lines, ids[..last], values[..last]);
      var before := SetSubset(lines, ids[..last], values[..last]);
      assert before[k].id == lines[k].id;
      var i := FirstWithId(before, ids[last]);
      assert i < |lines| ==> before[i].id == lines[i].id;
    }
  }

  lemma {:induction false} SameGather(a: seq<ResolvedLine>, b: seq<ResolvedLine>, chipNum: int)
    requires SameButValues(a, b)
    ensures GatherOffsets(a, chipNum) == GatherOffsets(b, chipNum)
  {
    if a != [] {
      SameGather(a[..|a| - 1], b[..|b| - 1], chipNum);
    }
  }

  // ---------------------------------------------------------------------------------------
  // The set command

  /** NoInput: the line is empty and skipped. NoWord: there is no word in it, and the program goes
      on to compare one that it has not stored. */
  datatype Reply = NoInput | NoWord | TooManyWords | NotSet | NoValues | InvalidValue | UnknownLine | Accepted

  ghost function IdsIn(texts: seq<string>): seq<string>
    requires AllParse(texts)
  {
    seq(|texts|, k requires 0 <= k < |texts| => ParseWord(texts[k]).value.0)
  }

  ghost function ValuesIn(texts: seq<string>): seq<int>
    requires AllParse(texts)
  {
    seq(|texts|, k requires 0 <= k < |texts| => ValueCode(ParseWord(texts[k]).value.1))
  }

  /** What the shell makes of the words of a line. */
  ghost function ReplyTo(lines: seq<ResolvedLine>, words: seq<string>): Reply {
    if words == [] then NoWord
    else if |words| > |lines| + 1 then TooManyWords
    else if words[0] != "set" then NotSet
    else if |words| == 1 then NoValues
    else if !AllParse(words[1..]) then InvalidValue
    else if !Known(lines, IdsIn(words[1..])) then UnknownLine
    else Accepted
  }

  ghost function LinesAfter(lines: seq<ResolvedLine>, words: seq<string>): seq<ResolvedLine> {
    if ReplyTo(lines, words) == Accepted
    then SetSubset(lines, IdsIn(words[1..]), ValuesIn(words[1..])) else lines
  }

  /** The line that the user entered, without white space at its end. */
  function Trimmed(s: string): (t: string)
    requires s != ""
    ensures t != "" && t <= s
  {
    if |s| > 1 && IsSpace(s[|s| - 1]) then Trimmed(s[..|s| - 1]) else s
  }

  /** The loop of interact that trims the line, n being its length. */
  method Trim(line: array<char>, n: nat, ghost s: string)
    requires s != "" && NoNul(s) && n == |s| && Unread(line[..], s, 0)
    modifies line
    ensures Unread(line[..], Trimmed(s), 0)
  {
    var i := n - 1;
    ghost var t := s;
    while i > 0 && IsSpace(line[i])
      invariant 0 <= i < n && t == s[..i + 1] && Trimmed(t) == Trimmed(s) && Unread(line[..], t, 0)
    {
      assert line[..][i] == t[i];
      line[i] := NUL;
      t := t[..i];
      i := i - 1;
      assert t == s[..i + 1];
    }
    assert line[..][i] == t[i];
  }

  ghost function Strings(buf: seq<char>, starts: seq<nat>): seq<string> {
    seq(|starts|, l requires 0 <= l < |starts| => CStr(buf, starts[l]))
  }

  /** The inner loop of valid_lines and of set_line_values_subset. */
  method FindLine(lines: seq<ResolvedLine>, id: string) returns (i: nat)
    ensures i == FirstWithId(lines, id)
  {
    i := 0;
    assert lines[0..] == lines;
    while i < |lines| && lines[i].id != id
      invariant i <= |lines| && FirstWithId(lines, id) == i + FirstWithId(lines[i..], id)
    {
      assert lines[i..][1..] == lines[i + 1..];
      i := i + 1;
    }
  }

  /** valid_lines */
  method ValidLines(lines: seq<ResolvedLine>, buf: array<char>, ids: seq<nat>) returns (valid: bool)
    ensures valid <==> Known(lines, Strings(buf[..], ids))
  {
    valid := true;
    ghost var strings := Strings(buf[..], ids);
    for l := 0 to |ids|
      invariant valid <==> Known(lines, strings[..l])
    {
      var i := FindLine(lines, CStr(buf[..], ids[l]));
      assert strings[..l + 1] == strings[..l] + [strings[l]];
      if i == |lines| {
        valid := false;
      }
    }
    assert strings[..|ids|] == strings;
  }

  /** set_line_values_subset */
  method SetLineValuesSubset(resolver: LineResolver, buf: array<char>, ids: seq<nat>, values: seq<int>)
    requires |ids| == |values|
    modifies resolver`lines
    ensures resolver.lines == SetSubset(old(resolver.lines), Strings(buf[..], ids), values)
  {
    ghost var before, strings := resolver.lines, Strings(buf[..], ids);
    for l := 0 to |ids|
      invariant resolver.lines == SetSubset(before, strings[..l], values[..l])
    {
      assert strings[..l + 1][..l] == strings[..l] && values[..l + 1][..l] == values[..l];
      var i := FindLine(resolver.lines, CStr(buf[..], ids[l]));
      if i < |resolver.lines| {
        resolver.lines := resolver.lines[i := resolver.lines[i].(value := values[l])];
      }
    }
    assert strings[..|ids|] == strings && values[..|ids|] == values;
  }

  lemma FromWords(buf: seq<char>, spans: seq<Span>, texts: seq<string>, limit: nat, lines: seq<nat>)
    requires Holds(buf, spans, texts, limit) && texts != []
    ensures CStr(buf, spans[0].start) == texts[0]
    ensures Parsing(buf, spans[1..], texts[1..], 0, lines, [])
  {
    CStrIs(buf, spans[0].start, spans[0].end);
  }

  /** The requests serve the resolver's lines, chip by chip. */
  ghost predicate Serving(requests: seq<LineRequest>, lines: seq<ResolvedLine>)
    reads set c | 0 <= c < |requests| :: requests[c].handle
  {
    Separate(requests) &&
    (forall c :: 0 <= c < |requests| ==> Serves(requests[c], lines, c)) &&
    (forall k :: 0 <= k < |lines| ==> 0 <= lines[k].chipNum < |requests|)
  }

  ghost predicate AllDriven(requests: seq<LineRequest>, lines: seq<ResolvedLine>)
    requires forall k :: 0 <= k < |lines| ==> 0 <= lines[k].chipNum < |requests|
    reads set c | 0 <= c < |requests| :: requests[c].handle
  {
    forall k :: 0 <= k < |lines| ==> Level(requests, lines[k]) == if lines[k].value != 0 then 1 else 0
  }

  lemma StillServing(requests: seq<LineRequest>, before: seq<ResolvedLine>, after: seq<ResolvedLine>)
    requires Serving(requests, before) && SameButValues(after, before)
    ensures Serving(requests, after)
  {
    forall c | 0 <= c < |requests| ensures Serves(requests[c], after, c) {
      SameGather(after, before, c);
    }
  }

  /** set_line_values_subset, then apply_values. */
  method SetAndApply(resolver: LineResolver, requests: seq<LineRequest>, buf: array<char>, ids: seq<nat>,
                     values: seq<int>)
    requires |ids| == |values| && |requests| == |resolver.chips| && Serving(requests, resolver.lines)
    modifies resolver`lines, set c | 0 <= c < |requests| :: requests[c].handle
    ensures Serving(requests, resolver.lines) && AllDriven(requests, resolver.lines)
    ensures resolver.lines == SetSubset(old(resolver.lines), Strings(buf[..], ids), values)
  {
    SetLineValuesSubset(resolver, buf, ids, values);
    SetSubsetKeepsTheRest(old(resolver.lines), Strings(buf[..], ids), values);
    StillServing(requests, old(resolver.lines), resolver.lines);
    ApplyValues(requests, resolver);
  }

  /** The part of the `set` command after the words have been split off. */
  method SetParsed(resolver: LineResolver, requests: seq<LineRequest>, buf: array<char>, ids: seq<nat>,
                   values: seq<int>)
    returns (reply: Reply)
    requires |ids| == |values| && |requests| == |resolver.chips| && Serving(requests, resolver.lines)
    modifies resolver`lines, set c | 0 <= c < |requests| :: requests[c].handle
    ensures Serving(requests, resolver.lines)
    ensures reply == if Known(old(resolver.lines), Strings(buf[..], ids)) then Accepted else UnknownLine
    ensures resolver.lines ==
      if reply == Accepted then SetSubset(old(resolver.lines), Strings(buf[..], ids), values) else old(resolver.lines)
    ensures reply == Accepted ==> AllDriven(requests, resolver.lines)
    ensures reply != Accepted ==> forall c :: 0 <= c < |requests| ==> unchanged(requests[c].handle)
  {
    var valid := ValidLines(resolver.lines, buf, ids);
    if !valid {
      return UnknownLine;
    }
    SetAndApply(resolver, requests, buf, ids, values);
    reply := Accepted;
  }

  /** The words that follow the name of a command, parsed into arrays with room for n. */
  method ParseWords(line: array<char>, lvs: seq<nat>, ghost spans: seq<Span>, ghost texts: seq<string>, n: nat)
    returns (ok: bool, ids: seq<nat>, values: seq<int>)
    requires |lvs| == |spans| <= n && Parsing(line[..], spans, texts, 0, [], [])
    requires forall k :: 0 <= k < |lvs| ==> lvs[k] == spans[k].start
    modifies line
    ensures ok <==> AllParse(texts)
    ensures ok ==> |ids| == |values| && Strings(line[..], ids) == IdsIn(texts) && values == ValuesIn(texts)
  {
    var lines, codes := new nat[n], new int[n];
    ok := ParseLineValues(line, spans, texts, lvs, lines, codes);
    ids, values := lines[..|lvs|], codes[..|lvs|];
  }

  /** The `set` command on the words that follow its name. */
  method SetWords(resolver: LineResolver, requests: seq<LineRequest>, line: array<char>, lvs: seq<nat>,
                  ghost spans: seq<Span>, ghost texts: seq<string>)
    returns (reply: Reply)
    requires |requests| == |resolver.chips| && Serving(requests, resolver.lines)
    requires |lvs| == |spans| <= |resolver.lines| && Parsing(line[..], spans, texts, 0, [], [])
    requires forall k :: 0 <= k < |lvs| ==> lvs[k] == spans[k].start
    modifies line, resolver`lines, set c | 0 <= c < |requests| :: requests[c].handle
    ensures Serving(requests, resolver.lines)
    ensures reply ==
      if !AllParse(texts) then InvalidValue
      else if Known(old(resolver.lines), IdsIn(texts)) then Accepted else UnknownLine
    ensures resolver.lines ==
      if reply == Accepted then SetSubset(old(resolver.lines), IdsIn(texts), ValuesIn(texts)) else old(resolver.lines)
    ensures reply == Accepted ==> AllDriven(requests, resolver.lines)
    ensures reply != Accepted ==> forall c :: 0 <= c < |requests| ==> unchanged(requests[c].handle)
  {
    var ok, ids, values := ParseWords(line, lvs, spans, texts, |resolver.lines|);
    if !ok {
      return InvalidValue;
    }
    reply := SetParsed(resolver, requests, line, ids, values);
  }

  /** The rest of the turn, on the trimmed line. */
  method SplitCommand(resolver: LineResolver, requests: seq<LineRequest>, line: array<char>, ghost s: string)
    returns (reply: Reply)
    requires NoNul(s) && Unread(line[..], s, 0)
    requires |requests| == |resolver.chips| && Serving(requests, resolver.lines)
    modifies line, resolver`lines, set c | 0 <= c < |requests| :: requests[c].handle
    ensures Serving(requests, resolver.lines)
    ensures reply == ReplyTo(old(resolver.lines), Words(s)) &&
      resolver.lines == LinesAfter(old(resolver.lines), Words(s))
    ensures reply == Accepted ==> AllDriven(requests, resolver.lines)
    ensures reply != Accepted ==> forall c :: 0 <= c < |requests| ==> unchanged(requests[c].handle)
  {
    var maxWords := |resolver.lines| + 1;
    var words := new nat[maxWords];
    ghost var texts := Words(s);
    var numWords, spans := SplitWords(line, s, maxWords, words);
    if numWords > maxWords {
      return TooManyWords;
    }
    if numWords == 0 {
      return NoWord;
    }
    var starts := words[..numWords];
    FromWords(line[..], spans, texts, |s| + 1, []);
    if CStr(line[..], starts[0]) != "set" {
      return NotSet;
    }
    if numWords == 1 {
      return NoValues;
    }
    reply := SetWords(resolver, requests, line, starts[1..], spans[1..], texts[1..]);
  }

  /** The line that sets one of some lines with different ids. */
  ghost predicate SetsOne(s: string, lines: seq<ResolvedLine>, k: nat, text: string, format: Format) {
    DistinctIds(lines) && k < |lines| && ReadsBack(lines[k].id, format) && NoSpace(text) &&
    s == "set " + Typed(lines[k].id, text, format)
  }

  /** Exactly eight words are values, four of them active. */
  ghost predicate SetTo(before: seq<ResolvedLine>, after: seq<ResolvedLine>, k: nat, text: string, reply: Reply)
    requires k < |before|
  {
    if text in {"1", "active", "on", "true"} then
      reply == Accepted && after == before[k := before[k].(value := 1)]
    else if text in {"0", "inactive", "off", "false"} then
      reply == Accepted && after == before[k := before[k].(value := 0)]
    else reply == InvalidValue && after == before
  }

  lemma NotTrimmed(s: string)
    requires s != "" && !IsSpace(s[|s| - 1])
    ensures Trimmed(s) == s
  {
  }

  lemma CommandWords(rest: string)
    ensures Words("set " + rest) == ["set"] + Words(rest)
  {
    var s := "set " + rest;
    assert s[1..] == "et" + (" " + rest);
    PlainTail("et", " " + rest);
    assert s[..3] == "set" && s[3..] == " " + rest && s[3..][1..] == rest;
  }

  lemma TypedWords(id: string, text: string, format: Format)
    requires ReadsBack(id, format) && NoSpace(text)
    ensures Words(Trimmed("set " + Typed(id, text, format))) == ["set", Typed(id, text, format)]
  {
    var word := Typed(id, text, format);
    NotTrimmed("set " + word);
    CommandWords(word);
    TypedIsOneWord(id, text, format, "");
    assert word + "" == word;
  }

  lemma SetSubsetOne(lines: seq<ResolvedLine>, k: nat, value: int)
    requires DistinctIds(lines) && k < |lines|
    ensures SetSubset(lines, [lines[k].id], [value]) == lines[k := lines[k].(value := value)]
    ensures Known(lines, [lines[k].id])
  {
    var ids, values := [lines[k].id], [value];
    assert ids[..0] == [] && values[..0] == [];
    assert SetSubset(lines, [], []) == lines;
    assert FirstWithId(lines, lines[k].id) == k;
  }

  lemma TypedReply(lines: seq<ResolvedLine>, k: nat, text: string, format: Format)
    requires DistinctIds(lines) && k < |lines| && ReadsBack(lines[k].id, format)
    ensures
      var words := ["set", Typed(lines[k].id, text, format)];
      ReplyTo(lines, words) == (if ParseValue(text).Some? then Accepted else InvalidValue) &&
      LinesAfter(lines, words) ==
        if ParseValue(text).Some? then lines[k := lines[k].(value := ValueCode(ParseValue(text).value))] else lines
  {
    var words := ["set", Typed(lines[k].id, text, format)];
    TypedParses(lines[k].id, text, format);
    assert words[1..] == [words[1]];
    if ParseValue(text).Some? {
      var ids, values := IdsIn(words[1..]), ValuesIn(words[1..]);
      assert ids == [lines[k].id] && values == [ValueCode(ParseValue(text).value)];
      SetSubsetOne(lines, k, values[0]);
    }
  }

  lemma SetOneLine(lines: seq<ResolvedLine>, k: nat, text: string, format: Format)
    requires DistinctIds(lines) && k < |lines| && ReadsBack(lines[k].id, format) && NoSpace(text)
    ensures
      var words := Words(Trimmed("set " + Typed(lines[k].id, text, format)));
      SetTo(lines, LinesAfter(lines, words), k, text, ReplyTo(lines, words))
  {
    TypedWords(lines[k].id, text, format);
    TypedReply(lines, k, text, format);
    ValueWords(text);
  }

  /** One turn of interact on a line of n characters, up to and with the `set` command. */
  method SetCommand(resolver: LineResolver, requests: seq<LineRequest>, line: array<char>, n: nat, ghost s: string)
    returns (reply: Reply)
    requires NoNul(s) && n == |s| && Unread(line[..], s, 0)
    requires |requests| == |resolver.chips| && Serving(requests, resolver.lines)
    modifies line, resolver`lines, set c | 0 <= c < |requests| :: requests[c].handle
    ensures Serving(requests, resolver.lines)
    ensures reply == if s == "" then NoInput else ReplyTo(old(resolver.lines), Words(Trimmed(s)))
    ensures resolver.lines ==
      if s == "" then old(resolver.lines) else LinesAfter(old(resolver.lines), Words(Trimmed(s)))
    ensures reply == Accepted ==> AllDriven(requests, resolver.lines)
    ensures reply != Accepted ==> forall c :: 0 <= c < |requests| ==> unchanged(requests[c].handle)
    ensures s != "" ==> (reply == TooManyWords <==> |Words(Trimmed(s))| >= |old(resolver.lines)| + 2)
    ensures forall k: nat, text, format :: SetsOne(s, old(resolver.lines), k, text, format) ==>
      SetTo(old(resolver.lines), resolver.lines, k, text, reply)
  {
    forall k: nat, text, format | SetsOne(s, resolver.lines, k, text, format)
      ensures SetTo(resolver.lines, LinesAfter(resolver.lines, Words(Trimmed(s))), k, text,
                    ReplyTo(resolver.lines, Words(Trimmed(s))))
    {
      SetOneLine(resolver.lines, k, text, format);
    }
    if n == 0 {
      return NoInput;
    }
    Trim(line, n, s);
    reply := SplitCommand(resolver, requests, line, Trimmed(s));
  }

  /** White space of the C locale only. */
  predicate AllSpace(s: string) {
    forall i :: 0 <= i < |s| ==> s[i] in {' ', '\t', '\n', '\U{000B}', '\U{000C}', '\r'}
  }

  lemma {:induction false} NoWordsIff(s: string)
    ensures Words(s) == [] <==> AllSpace(s)
  {
    if s != "" && IsSpace(s[0]) {
      NoWordsIff(s[1..]);
      assert forall i :: 1 <= i < |s| ==> s[i] == s[1..][i - 1];
    }
  }

  lemma {:induction false} TrimmedSpace(s: string)
    requires s != ""
    ensures AllSpace(Trimmed(s)) <==> AllSpace(s)
  {
    if |s| > 1 && IsSpace(s[|s| - 1]) {
      TrimmedSpace(s[..|s| - 1]);
    }
  }

  /** The program is left without a word exactly by a line of white space only. */
  lemma NoWordIff(lines: seq<ResolvedLine>, s: string)
    requires s != ""
    ensures ReplyTo(lines, Words(Trimmed(s))) == NoWord <==> AllSpace(s)
  {
    NoWordsIff(Trimmed(s));
    TrimmedSpace(s);
  }

  // ---------------------------------------------------------------------------------------
  // What is printed can be entered

  /** What readline delivers of a text that is typed in: the characters before the newline. */
  function Entered(text: string): string {
    var end := FindChar(text, '\n');
    if end.None? then text else text[..end.value]
  }

  lemma {:induction false} FirstNewline(line: string, rest: string)
    requires '\n' !in line
    ensures FindChar(line + "\n" + rest, '\n') == Some(|line|)
  {
    if line != "" {
      assert (line + "\n" + rest)[0] == line[0];
      assert (line + "\n" + rest)[1..] == line[1..] + "\n" + rest;
      FirstNewline(line[1..], rest);
    }
  }

  lemma {:induction false} EnteredIs(line: string, rest: string)
    requires '\n' !in line
    ensures Entered(line + "\n" + rest) == line
  {
    FirstNewline(line, rest);
    assert (line + "\n" + rest)[..|line|] == line;
  }

  lemma {:induction false} JoinedEnd(lines: seq<ResolvedLine>, format: Format)
    requires lines != []
    ensures Joined(lines, format) != "" && !IsSpace(Joined(lines, format)[|Joined(lines, format)| - 1])
  {
    if |lines| > 1 {
      JoinedEnd(lines[1..], format);
    }
  }

  /** No id contains a newline. */
  ghost predicate OneLineEach(lines: seq<ResolvedLine>) {
    forall k :: 0 <= k < |lines| ==> '\n' !in lines[k].id
  }

  lemma ItemOnOneLine(line: ResolvedLine, format: Format)
    requires '\n' !in line.id
    ensures '\n' !in Item(line, format)
  {
  }

  lemma {:induction false} JoinedOnOneLine(lines: seq<ResolvedLine>, format: Format)
    requires lines != [] && OneLineEach(lines)
    ensures '\n' !in Joined(lines, format)
  {
    ItemOnOneLine(lines[0], format);
    if |lines| > 1 {
      JoinedOnOneLine(lines[1..], format);
    }
  }

  lemma PrintedLineIsEntered(lines: seq<ResolvedLine>, format: Format)
    requires lines != [] && OneLineEach(lines)
    ensures Trimmed(Entered("set " + Printed(lines, format))) == "set " + Joined(lines, format)
  {
    var line := "set " + Joined(lines, format);
    JoinedOnOneLine(lines, format);
    EnteredIs(line, "");
    assert "set " + Printed(lines, format) == line + "\n" + "";
    JoinedEnd(lines, format);
    NotTrimmed(line);
  }

  /** All that was shown is parsed back. */
  lemma ShownIsParsed(shown: seq<ResolvedLine>, format: Format)
    requires forall k :: 0 <= k < |shown| ==> ReadsBack(shown[k].id, format)
    ensures AllParse(Items(shown, format))
    ensures IdsIn(Items(shown, format)) == seq(|shown|, k requires 0 <= k < |shown| => shown[k].id)
    ensures ValuesIn(Items(shown, format)) == seq(|shown|, k requires 0 <= k < |shown| => ValueCode(Shown(shown[k])))
  {
    forall k | 0 <= k < |shown| ensures ParseWord(Items(shown, format)[k]) == Some((shown[k].id, Shown(shown[k]))) {
      ItemParses(shown[k], format);
    }
  }

  ghost predicate SameIds(a: seq<ResolvedLine>, b: seq<ResolvedLine>) {
    |a| == |b| && forall k :: 0 <= k < |a| ==> a[k].id == b[k].id
  }

  /** Giving each line a value by its own id sets them all. */
  lemma EachById(lines: seq<ResolvedLine>, ids: seq<string>, values: seq<int>)
    requires |ids| == |values| == |lines| && DistinctIds(lines)
    requires forall k :: 0 <= k < |lines| ==> ids[k] == lines[k].id
    ensures Known(lines, ids) && |SetSubset(lines, ids, values)| == |lines|
    ensures forall k :: 0 <= k < |lines| ==> SetSubset(lines, ids, values)[k] == lines[k].(value := values[k])
  {
    forall k | 0 <= k < |lines| ensures FirstWithId(lines, ids[k]) < |lines| {
      assert ids[k] == lines[k].id;
    }
    SetSubsetKeepsTheRest(lines, ids, values);
    forall k | 0 <= k < |lines| ensures SetSubset(lines, ids, values)[k] == lines[k].(value := values[k]) {
      SetSubsetMeaning(lines, ids, values, k);
      PairedOnce(ids, values, k);
    }
  }

  lemma EnteredWords(shown: seq<ResolvedLine>, format: Format)
    requires shown != [] && OneLineEach(shown)
    requires forall k :: 0 <= k < |shown| ==> ReadsBack(shown[k].id, format)
    ensures Words(Trimmed(Entered("set " + Printed(shown, format)))) == ["set"] + Items(shown, format)
  {
    PrintedLineIsEntered(shown, format);
    CommandWords(Joined(shown, format));
    JoinedWords(shown, format);
  }

  /** What the printed items restore. */
  lemma ItemsRestoreValues(shown: seq<ResolvedLine>, format: Format, lines: seq<ResolvedLine>)
    requires shown != [] && SameIds(shown, lines) && DistinctIds(lines)
    requires forall k :: 0 <= k < |shown| ==> ReadsBack(shown[k].id, format)
    ensures
      var words := ["set"] + Items(shown, format);
      ReplyTo(lines, words) == Accepted && |LinesAfter(lines, words)| == |lines| &&
      forall k :: 0 <= k < |lines| ==> LinesAfter(lines, words)[k] == lines[k].(value := ValueCode(Shown(shown[k])))
  {
    var items := Items(shown, format);
    ShownIsParsed(shown, format);
    assert (["set"] + items)[1..] == items;
    EachById(lines, IdsIn(items), ValuesIn(items));
  }

  /** Items that are all followed by a space. */
  function Leading(lines: seq<ResolvedLine>, format: Format): string {
    if lines == [] then "" else Item(lines[0], format) + " " + Leading(lines[1..], format)
  }

  lemma {:induction false} LeadingWords(lines: seq<ResolvedLine>, format: Format, more: string)
    requires forall k :: 0 <= k < |lines| ==> ReadsBack(lines[k].id, format)
    ensures Words(Leading(lines, format) + more) == Items(lines, format) + Words(more)
  {
    if lines == [] {
      assert "" + more == more;
    } else {
      var first, rest := Item(lines[0], format), Leading(lines[1..], format);
      LeadingWords(lines[1..], format, more);
      WordThenMore(lines[0], format, rest + more);
      Regroup(first + " ", rest, more);
      ItemsOneMore(lines, format);
      Regroup([first], Items(lines[1..], format), Words(more));
    }
  }

  /** A printed line from its first item on. */
  lemma JoinedFromItem(lines: seq<ResolvedLine>, format: Format) returns (rest: string)
    requires lines != []
    ensures Joined(lines, format) == Item(lines[0], format) + rest
  {
    if |lines| == 1 {
      rest := "";
    } else {
      rest := " " + Joined(lines[1..], format);
      Regroup(Item(lines[0], format), " ", Joined(lines[1..], format));
    }
  }

  /** A printed line up to one of its items. */
  lemma {:induction false} JoinedUpTo(lines: seq<ResolvedLine>, format: Format, n: nat) returns (rest: string)
    requires n < |lines|
    ensures Joined(lines, format) == Leading(lines[..n], format) + (Item(lines[n], format) + rest)
  {
    if n == 0 {
      rest := JoinedFromItem(lines, format);
      assert Leading(lines[..n], format) == "";
    } else {
      rest := JoinedUpTo(lines[1..], format, n - 1);
      var first, others, own := Item(lines[0], format) + " ", Leading(lines[1..][..n - 1], format),
        Item(lines[n], format) + rest;
      assert lines[..n][1..] == lines[1..][..n - 1];
      assert Joined(lines, format) == first + (others + own);
      Regroup(first, others, own);
    }
  }

  lemma {:induction false} LeadingOnOneLine(lines: seq<ResolvedLine>, format: Format)
    requires OneLineEach(lines)
    ensures '\n' !in Leading(lines, format)
  {
    if lines != [] {
      ItemOnOneLine(lines[0], format);
      LeadingOnOneLine(lines[1..], format);
    }
  }

  /** Trimming stops at an opening quote. */
  lemma {:induction false} TrimmedAfterQuote(before: string, id: string) returns (rest: string)
    requires '"' !in id && before != ""
    ensures rest <= id && Trimmed(before + "\"" + id) == before + "\"" + rest
  {
    var s := before + "\"" + id;
    if id != "" && IsSpace(id[|id| - 1]) {
      var front := id[..|id| - 1];
      assert s[..|s| - 1] == before + "\"" + front;
      rest := TrimmedAfterQuote(before, front);
    } else {
      rest := id;
      NotTrimmed(s);
    }
  }

  lemma {:induction false} UnclosedTail(id: string)
    requires '"' !in id
    ensures WordTail(id, true) == |id|
  {
    if id != "" {
      UnclosedTail(id[1..]);
    }
  }

  lemma {:induction false} NoClosing(id: string)
    requires '"' !in id
    ensures FindClosing(id) == None
  {
    if |id| >= 2 {
      NoClosing(id[1..]);
    }
  }

  /** A quoted id that never ends is one word, and not a value. */
  lemma UnclosedWord(id: string)
    requires '"' !in id
    ensures Words("\"" + id) == ["\"" + id] && ParseWord("\"" + id).None?
  {
    var word := "\"" + id;
    assert word[1..] == id;
    UnclosedTail(id);
    NoClosing(id);
    assert word[..|word|] == word && word[|word|..] == "";
  }

  lemma FirstWithNewline(lines: seq<ResolvedLine>) returns (n: nat, j: nat)
    requires !OneLineEach(lines)
    ensures n < |lines| && OneLineEach(lines[..n])
    ensures j < |lines[n].id| && lines[n].id[j] == '\n' && '\n' !in lines[n].id[..j]
  {
    n := 0;
    while '\n' !in lines[n].id
      invariant n < |lines| && forall k :: 0 <= k < n ==> '\n' !in lines[k].id
      decreases |lines| - n
    {
      assert exists k :: n < k < |lines| && '\n' in lines[k].id;
      n := n + 1;
    }
    var id := lines[n].id;
    j := 0;
    while id[j] != '\n'
      invariant j < |id| && '\n' !in id[..j] && '\n' in id[j..]
      decreases |id| - j
    {
      j := j + 1;
    }
  }

  lemma CutConcat(a: string, b: string, p: nat)
    requires p < |b|
    ensures a + b == a + b[..p] + [b[p]] + b[p + 1..]
  {
  }

  lemma ItemStart(line: ResolvedLine, j: nat, more: string)
    requires j < |line.id|
    ensures
      var b := Item(line, Quoted) + more;
      |b| > j + 1 && b[..j + 1] == "\"" + line.id[..j] && b[j + 1] == line.id[j]
  {
  }

  /** The entered part of a printed line one of whose ids contains a newline. */
  lemma CutLine(shown: seq<ResolvedLine>, n: nat, j: nat)
    requires n < |shown| && OneLineEach(shown[..n])
    requires j < |shown[n].id| && shown[n].id[j] == '\n' && '\n' !in shown[n].id[..j]
    ensures Entered("set " + Printed(shown, Quoted)) == "set " + Leading(shown[..n], Quoted) + ("\"" + shown[n].id[..j])
  {
    var leading, item := Leading(shown[..n], Quoted), Item(shown[n], Quoted);
    var rest := JoinedUpTo(shown, Quoted, n);
    var a, b := "set " + leading, item + (rest + "\n");
    Regroup(item, rest, "\n");
    Regroup(leading, item + rest, "\n");
    Regroup("set ", leading, b);
    LeadingOnOneLine(shown[..n], Quoted);
    ItemStart(shown[n], j, rest + "\n");
    CutConcat(a, b, j + 1);
    EnteredIs(a + b[..j + 1], b[j + 2..]);
  }

  /** Such a line is refused. */
  lemma CutLineIsRefused(shown: seq<ResolvedLine>, lines: seq<ResolvedLine>)
    requires shown != [] && SameIds(shown, lines) && !OneLineEach(shown)
    requires forall k :: 0 <= k < |shown| ==> ReadsBack(shown[k].id, Quoted)
    ensures ReplyTo(lines, Words(Trimmed(Entered("set " + Printed(shown, Quoted))))) == InvalidValue
  {
    var n, j := FirstWithNewline(shown);
    var prefix, leading := shown[n].id[..j], Leading(shown[..n], Quoted);
    assert IsSpace(shown[n].id[j]);
    assert '"' !in prefix;
    CutLine(shown, n, j);
    Regroup("set " + leading, "\"", prefix);
    var rest := TrimmedAfterQuote("set " + leading, prefix);
    var last := "\"" + rest;
    Regroup("set " + leading, "\"", rest);
    Regroup("set ", leading, last);
    CommandWords(leading + last);
    LeadingWords(shown[..n], Quoted, last);
    UnclosedWord(rest);
    var items := Items(shown[..n], Quoted);
    Regroup(["set"], items, [last]);
    assert (["set"] + (items + [last]))[1..] == items + [last];
    assert (items + [last])[n] == last;
  }

  /** The shell's round trip: whatever the values have become since, entering `set` and the line
      that `get` printed puts every line back to the value it was shown with, exactly when no id
      contains a newline; otherwise only a part of it can be entered, which is refused. */
  lemma PrintedLineRestoresValues(shown: seq<ResolvedLine>, format: Format, lines: seq<ResolvedLine>)
    requires shown != [] && SameIds(shown, lines) && DistinctIds(lines)
    requires forall k :: 0 <= k < |shown| ==> ReadsBack(shown[k].id, format)
    ensures
      var words := Words(Trimmed(Entered("set " + Printed(shown, format))));
      if OneLineEach(shown) then
        ReplyTo(lines, words) == Accepted && |LinesAfter(lines, words)| == |lines| &&
        forall k :: 0 <= k < |lines| ==> LinesAfter(lines, words)[k] == lines[k].(value := ValueCode(Shown(shown[k])))
      else ReplyTo(lines, words) == InvalidValue && LinesAfter(lines, words) == lines
  {
    if OneLineEach(shown) {
      EnteredWords(shown, format);
      ItemsRestoreValues(shown, format, lines);
    } else {
      assert format == Quoted by {
        var k :| 0 <= k < |shown| && '\n' in shown[k].id;
        assert !ReadsBack(shown[k].id, Unquoted);
      }
      CutLineIsRefused(shown, lines);
    }
  }

  // ---------------------------------------------------------------------------------------
  // Toggling

  function Toggled(value: int): int {
    if value == 0 then 1 else 0
  }

  function ToggledLines(lines: seq<ResolvedLine>): seq<ResolvedLine> {
    seq(|lines|, k requires 0 <= k < |lines| => lines[k].(value := Toggled(lines[k].value)))
  }

  /** toggle_all_lines */
  method ToggleAllLines(resolver: LineResolver)
    modifies resolver`lines
    ensures resolver.lines == ToggledLines(old(resolver.lines))
  {
    ghost var before := resolver.lines;
    for i := 0 to |resolver.lines|
      invariant |resolver.lines| == |before|
      invariant forall k :: 0 <= k < i ==> resolver.lines[k] == before[k].(value := Toggled(before[k].value))
      invariant forall k :: i <= k < |before| ==> resolver.lines[k] == before[k]
    {
      resolver.lines := resolver.lines[i := resolver.lines[i].(value := if resolver.lines[i].value == 0 then 1 else 0)];
    }
  }

  /** The lines after so many toggles. */
  function ToggledTimes(lines: seq<ResolvedLine>, n: nat): seq<ResolvedLine> {
    if n == 0 then lines else ToggledLines(ToggledTimes(lines, n - 1))
  }

  /** What a value is after so many toggles: it alternates between 0 and 1. */
  function ToggledValue(value: int, n: nat): int {
    if n == 0 then value else if (value != 0) == (n % 2 == 0) then 1 else 0
  }

  function AfterToggles(lines: seq<ResolvedLine>, n: nat): (after: seq<ResolvedLine>)
    ensures |after| == |lines|
  {
    seq(|lines|, k requires 0 <= k < |lines| => lines[k].(value := ToggledValue(lines[k].value, n)))
  }

  lemma ToggledOnceMore(lines: seq<ResolvedLine>, n: nat)
    ensures ToggledLines(AfterToggles(lines, n)) == AfterToggles(lines, n + 1)
  {
  }

  lemma {:induction false} ToggledParity(lines: seq<ResolvedLine>, n: nat)
    ensures ToggledTimes(lines, n) == AfterToggles(lines, n)
  {
    if n > 0 {
      ToggledParity(lines, n - 1);
      ToggledOnceMore(lines, n - 1);
    }
  }

  /** How many toggles a sequence makes, out of `limit` at most: it ends only with a last period
      of zero, one toggle short of the number of periods. */
  function Toggles(periods: seq<nat>, limit: nat): nat
    requires periods != []
  {
    if periods[|periods| - 1] == 0 && |periods| - 1 <= limit then |periods| - 1 else limit
  }

  /** Which period a turn sleeps: they are taken round and round. */
  function PeriodIndex(turn: nat, numPeriods: nat): (i: nat)
    requires numPeriods > 0
    ensures i < numPeriods
    ensures turn < numPeriods ==> i == turn
  {
    if turn == 0 then 0
    else
      var next := PeriodIndex(turn - 1, numPeriods) + 1;
      if next == numPeriods then 0 else next
  }

  lemma RemainderIs(a: nat, n: nat, q: nat, r: nat)
    requires r < n && a == q * n + r
    ensures a % n == r
  {
    var d: int := a / n - q;
    assert a % n - r == -(d * n);
  }

  lemma NextRemainder(m: nat, n: nat)
    requires n > 0
    ensures (m + 1) % n == if m % n + 1 == n then 0 else m % n + 1
  {
    var q, r := m / n, m % n;
    if r + 1 == n {
      assert (q + 1) * n == q * n + n;
      RemainderIs(m + 1, n, q + 1, 0);
    } else {
      RemainderIs(m + 1, n, q, r + 1);
    }
  }

  lemma {:induction false} PeriodIndexIsRemainder(turn: nat, numPeriods: nat)
    requires numPeriods > 0
    ensures PeriodIndex(turn, numPeriods) == turn % numPeriods
  {
    if turn > 0 {
      PeriodIndexIsRemainder(turn - 1, numPeriods);
      NextRemainder(turn - 1, numPeriods);
    } else {
      RemainderIs(0, numPeriods, 0, 0);
    }
  }

  /** What a number of turns has led to: the periods taken round and round, and every value
      alternating. */
  ghost predicate Turned(periods: seq<nat>, before: seq<ResolvedLine>, turns: nat, slept: seq<nat>,
                         lines: seq<ResolvedLine>)
    requires periods != []
  {
    |slept| == turns &&
    (forall j {:trigger slept[j]} :: 0 <= j < turns ==> slept[j] == periods[PeriodIndex(j, |periods|)]) &&
    lines == AfterToggles(before, turns)
  }

  lemma OneMoreTurn(periods: seq<nat>, before: seq<ResolvedLine>, turns: nat, slept: seq<nat>, lines: seq<ResolvedLine>)
    requires periods != [] && Turned(periods, before, turns, slept, lines)
    ensures Turned(periods, before, turns + 1, slept + [periods[PeriodIndex(turns, |periods|)]], ToggledLines(lines))
  {
    ToggledOnceMore(before, turns);
  }

  /** Where the index goes after a turn, and whether the sequence is over. */
  method NextPeriod(periods: seq<nat>, i: nat, ghost turn: nat) returns (next: nat, finished: bool)
    requires periods != [] && i == PeriodIndex(turn, |periods|)
    requires periods[|periods| - 1] == 0 ==> turn < |periods| - 1
    ensures finished <==> periods[|periods| - 1] == 0 && turn + 1 == |periods| - 1
    ensures !finished ==> next == PeriodIndex(turn + 1, |periods|)
  {
    next := i + 1;
    finished := next == |periods| - 1 && periods[next] == 0;
    if next == |periods| {
      next := 0;
    }
  }

  method ToggleAndApply(resolver: LineResolver, requests: seq<LineRequest>)
    requires |requests| == |resolver.chips| && Serving(requests, resolver.lines)
    modifies resolver`lines, set c | 0 <= c < |requests| :: requests[c].handle
    ensures Serving(requests, resolver.lines)
    ensures resolver.lines == ToggledLines(old(resolver.lines)) && AllDriven(requests, resolver.lines)
  {
    ToggleAllLines(resolver);
    forall c | 0 <= c < |requests| ensures Serves(requests[c], resolver.lines, c) {
      SameGather(resolver.lines, old(resolver.lines), c);
    }
    ApplyValues(requests, resolver);
  }

  /** The resolver and its requests while lines are being toggled. */
  ghost predicate Toggling(resolver: LineResolver, requests: seq<LineRequest>, periods: seq<nat>,
                           before: seq<ResolvedLine>, turns: nat, slept: seq<nat>)
    requires periods != []
    reads resolver`lines, set c | 0 <= c < |requests| :: requests[c].handle
  {
    Serving(requests, resolver.lines) && Turned(periods, before, turns, slept, resolver.lines) &&
    (turns > 0 ==> AllDriven(requests, resolver.lines))
  }

  /** One turn of the loop in toggle_sequence. */
  method ToggleTurn(resolver: LineResolver, requests: seq<LineRequest>, periods: seq<nat>, i: nat, ghost turn: nat,
                    slept: seq<nat>, ghost before: seq<ResolvedLine>)
    returns (nowSlept: seq<nat>, next: nat, finished: bool)
    requires |requests| == |resolver.chips| && periods != []
    requires Toggling(resolver, requests, periods, before, turn, slept)
    requires i == PeriodIndex(turn, |periods|) && (periods[|periods| - 1] == 0 ==> turn < |periods| - 1)
    modifies resolver`lines, set c | 0 <= c < |requests| :: requests[c].handle
    ensures Toggling(resolver, requests, periods, before, turn + 1, nowSlept)
    ensures finished <==> periods[|periods| - 1] == 0 && turn + 1 == |periods| - 1
    ensures !finished ==> next == PeriodIndex(turn + 1, |periods|)
  {
    OneMoreTurn(periods, before, turn, slept, resolver.lines);
    nowSlept := slept + [periods[i]];
    next, finished := NextPeriod(periods, i, turn);
    ToggleAndApply(resolver, requests);
  }

  /** The loop of toggle_sequence, watched for `limit` turns. */
  method ToggleRounds(resolver: LineResolver, requests: seq<LineRequest>, periods: seq<nat>, limit: nat)
    returns (slept: seq<nat>, finished: bool, ghost turns: nat)
    requires |requests| == |resolver.chips| && Serving(requests, resolver.lines)
    requires periods != [] && (periods[|periods| - 1] == 0 ==> |periods| > 1)
    modifies resolver`lines, set c | 0 <= c < |requests| :: requests[c].handle
    ensures Toggling(resolver, requests, periods, old(resolver.lines), turns, slept)
    ensures finished ==> periods[|periods| - 1] == 0 && turns == |periods| - 1 <= limit
    ensures !finished ==> turns == limit && (periods[|periods| - 1] == 0 ==> limit < |periods| - 1)
  {
    ghost var before := resolver.lines;
    var i := 0;
    slept, turns, finished := [], 0, false;
    for turn := 0 to limit
      invariant turns == turn && Toggling(resolver, requests, periods, before, turns, slept)
      invariant i == PeriodIndex(turn, |periods|) && (periods[|periods| - 1] == 0 ==> turn < |periods| - 1)
    {
      slept, i, finished := ToggleTurn(resolver, requests, periods, i, turn, slept, before);
      turns := turns + 1;
      if finished {
        return;
      }
    }
    finished := false;
  }

  /** toggle_sequence, watched for `limit` turns: the periods slept, and whether it has ended. */
  method ToggleSequence(resolver: LineResolver, requests: seq<LineRequest>, periods: seq<nat>, limit: nat)
    returns (slept: seq<nat>, finished: bool)
    requires periods != [] && |requests| == |resolver.chips| && Serving(requests, resolver.lines)
    modifies resolver`lines, set c | 0 <= c < |requests| :: requests[c].handle
    ensures Serving(requests, resolver.lines)
    ensures Turned(periods, old(resolver.lines), Toggles(periods, limit), slept, resolver.lines)
    ensures finished <==> periods[|periods| - 1] == 0 && |periods| - 1 <= limit
    ensures Toggles(periods, limit) > 0 ==> AllDriven(requests, resolver.lines)
  {
    if |periods| == 1 && periods[0] == 0 {
      return [], true;
    }
    ghost var turns;
    slept, finished, turns := ToggleRounds(resolver, requests, periods, limit);
    assert turns == Toggles(periods, limit);
  }
}

/** tools/gpioset.c: the interactive shell's printer of line values, its word splitter and its
    parser. Words are split and parsed in place, by writing NULs into the line buffer. */
module Shell {
  import opened Wrappers
  import opened CString
  import opened LineSettings
  import opened Resolver

  // ---------------------------------------------------------------------------------------
  // Specification on strings

  /** How far a word goes on. Inside quotes white space belongs to it; the closing quote ends
      the quotes but not the word, and quotes that come later are ordinary characters. */
  function WordTail(s: string, inQuotes: bool): (n: nat)
    ensures n <= |s|
  {
    if s == [] then 0
    else if inQuotes then 1 + WordTail(s[1..], s[0] != '"')
    else if IsSpace(s[0]) then 0
    else 1 + WordTail(s[1..], false)
  }

  /** The words of a line; only a quote that starts a word opens quotes. */
  function Words(s: string): seq<string> {
    if s == [] then []
    else if IsSpace(s[0]) then Words(s[1..])
    else
      var n := 1 + WordTail(s[1..], s[0] == '"');
      [s[..n]] + Words(s[n..])
  }

  /** strchr(s, c): the index of the first c. */
  function FindChar(s: string, c: char): (r: Option<nat>)
    ensures r.Some? ==> r.value < |s| && s[r.value] == c && forall i :: 0 <= i < r.value ==> s[i] != c
  {
    if s == [] then None
    else if s[0] == c then Some(0)
    else
      var r := FindChar(s[1..], c);
      if r.Some? then Some(r.value + 1) else None
  }

  /** strstr(s, "\"="): the index of the first quote that an equals sign follows. */
  function FindClosing(s: string): (r: Option<nat>)
    ensures r.Some? ==> r.value + 1 < |s| && s[r.value] == '"' && s[r.value + 1] == '='
    ensures forall i :: 0 <= i < |s| - 1 && s[i] == '"' && s[i + 1] == '=' ==> r.Some? && r.value <= i
  {
    if |s| < 2 then None
    else if s[0] == '"' && s[1] == '=' then Some(0)
    else
      var r := FindClosing(s[1..]);
      if r.Some? then Some(r.value + 1) else None
  }

  /** parse_value */
  function ParseValue(text: string): Option<Value> {
    if text == "0" then Some(Inactive)
    else if text == "1" then Some(Active)
    else if text == "inactive" then Some(Inactive)
    else if text == "active" then Some(Active)
    else if text == "off" then Some(Inactive)
    else if text == "on" then Some(Active)
    else if text == "false" then Some(Inactive)
    else if text == "true" then Some(Active)
    else None
  }

  /** The words that stand for values. */
  lemma ValueWords(text: string)
    ensures ParseValue(text) == Some(Active) <==> text in {"1", "active", "on", "true"}
    ensures ParseValue(text) == Some(Inactive) <==> text in {"0", "inactive", "off", "false"}
  {
  }

  /** 'line=value' or '"line"=value', the quotes not being part of the id. */
  function ParseWord(word: string): Option<(string, Value)> {
    if word == "" || word[0] != '"' then
      var eq := FindChar(word, '=');
      if eq.None? then None
      else
        var v := ParseValue(word[eq.value + 1..]);
        if v.None? then None else Some((word[..eq.value], v.value))
    else
      var t := word[1..];
      var q := FindClosing(t);
      if q.None? then None
      else
        var v := ParseValue(t[q.value + 2..]);
        if v.None? then None else Some((t[..q.value], v.value))
  }

  function ValueText(value: int): string {
    if value != 0 then "active" else "inactive"
  }

  /** The two formats of print_all_line_values. */
  datatype Format = Quoted | Unquoted

  /** An id and what is to be its value, as they are printed or typed in. */
  function Typed(id: string, text: string, format: Format): string {
    (if format == Quoted then "\"" + id + "\"" else id) + "=" + text
  }

  /** One printed line, without what separates it from the next. */
  function Item(line: ResolvedLine, format: Format): string {
    Typed(line.id, ValueText(line.value), format)
  }

  /** The printed lines without the newline. */
  function Joined(lines: seq<ResolvedLine>, format: Format): string
    requires lines != []
  {
    if |lines| == 1 then Item(lines[0], format) else Item(lines[0], format) + " " + Joined(lines[1..], format)
  }

  function Printed(lines: seq<ResolvedLine>, format: Format): string {
    if lines == [] then "" else Joined(lines, format) + "\n"
  }

  /** What is printed, in full. */
  lemma PrintedQuoted(line: ResolvedLine, more: seq<ResolvedLine>)
    ensures Printed([line] + more, Quoted) ==
      "\"" + line.id + "\"=" + (if line.value != 0 then "active" else "inactive")
        + if more == [] then "\n" else " " + Printed(more, Quoted)
  {
    var lines, item := [line] + more, Item(line, Quoted);
    assert lines[1..] == more;
    assert item == "\"" + line.id + "\"=" + ValueText(line.value);
    if more != [] {
      Regroup(item + " ", Joined(more, Quoted), "\n");
      Regroup(item, " ", Printed(more, Quoted));
    }
  }

  lemma PrintedUnquoted(line: ResolvedLine, more: seq<ResolvedLine>)
    ensures Printed([line] + more, Unquoted) ==
      line.id + "=" + (if line.value != 0 then "active" else "inactive")
        + if more == [] then "\n" else " " + Printed(more, Unquoted)
  {
    var lines, item := [line] + more, Item(line, Unquoted);
    assert lines[1..] == more;
    if more != [] {
      Regroup(item + " ", Joined(more, Unquoted), "\n");
      Regroup(item, " ", Printed(more, Unquoted));
    }
  }

  lemma {:induction false} JoinedOneMore(lines: seq<ResolvedLine>, line: ResolvedLine, format: Format)
    requires lines != []
    ensures Joined(lines + [line], format) == Joined(lines, format) + " " + Item(line, format)
  {
    assert (lines + [line])[1..] == lines[1..] + [line];
    var first, last := Item(lines[0], format), Item(line, format);
    if |lines| > 1 {
      JoinedOneMore(lines[1..], line, format);
      Regroup(first + " ", Joined(lines[1..], format) + " ", last);
      Regroup(first + " ", Joined(lines[1..], format), " ");
    }
  }

  /** What has been printed after i lines. */
  function PrintedSoFar(lines: seq<ResolvedLine>, i: nat, format: Format): string
    requires i <= |lines|
  {
    if i == 0 then "" else Joined(lines[..i], format) + (if i == |lines| then "\n" else " ")
  }

  lemma PrintedNext(lines: seq<ResolvedLine>, i: nat, format: Format)
    requires i < |lines|
    ensures PrintedSoFar(lines, i + 1, format) ==
      PrintedSoFar(lines, i, format) + Item(lines[i], format) + (if i + 1 == |lines| then "\n" else " ")
  {
    assert lines[..i + 1] == lines[..i] + [lines[i]];
    if i == 0 {
      assert lines[..1] == [lines[0]];
      assert "" + Item(lines[0], format) == Item(lines[0], format);
    } else {
      JoinedOneMore(lines[..i], lines[i], format);
    }
  }

  /** print_all_line_values: the text that it prints. */
  method PrintAllLineValues(lines: seq<ResolvedLine>, format: Format) returns (text: string)
    ensures text == Printed(lines, format)
  {
    text := "";
    for i := 0 to |lines|
      invariant text == PrintedSoFar(lines, i, format)
    {
      PrintedNext(lines, i, format);
      var separator := if i == |lines| - 1 then "\n" else " ";
      text := text + Item(lines[i], format) + separator;
    }
    assert lines[..|lines|] == lines;
  }

  // ---------------------------------------------------------------------------------------
  // What is printed splits and parses back

  /** In quotes: no white space anywhere after a quote, and no quote with an equals sign after it.
      Ids without quotes are the ones that the program expects. Without quotes: no white space, no
      equals sign, and no quote at the start. */
  predicate ReadsBack(id: string, format: Format) {
    if format == Quoted then
      (forall i, j :: 0 <= i < j < |id| && id[i] == '"' ==> !IsSpace(id[j])) &&
      (forall i :: 0 <= i < |id| - 1 ==> !(id[i] == '"' && id[i + 1] == '='))
    else
      (forall i :: 0 <= i < |id| ==> !IsSpace(id[i]) && id[i] != '=') && (id != "" ==> id[0] != '"')
  }

  lemma QuoteFreeReadsBack(id: string)
    requires '"' !in id
    ensures ReadsBack(id, Quoted)
  {
  }

  /** The value that a printed line carries. */
  function Shown(line: ResolvedLine): Value {
    if line.value != 0 then Active else Inactive
  }

  lemma {:induction false} PlainTail(word: string, rest: string)
    requires forall i :: 0 <= i < |word| ==> !IsSpace(word[i])
    ensures WordTail(word + rest, false) == |word| + WordTail(rest, false)
  {
    if word == [] {
      assert word + rest == rest;
    } else {
      assert (word + rest)[1..] == word[1..] + rest;
      PlainTail(word[1..], rest);
    }
  }

  lemma {:induction false} QuotedTail(id: string, rest: string)
    requires forall i, j :: 0 <= i < j < |id| && id[i] == '"' ==> !IsSpace(id[j])
    ensures WordTail(id + "\"" + rest, true) == |id| + 1 + WordTail(rest, false)
  {
    var s := id + "\"" + rest;
    if id == [] {
      assert s[1..] == rest;
    } else if id[0] == '"' {
      assert s[1..] == (id[1..] + "\"") + rest;
      PlainTail(id[1..] + "\"", rest);
    } else {
      assert s[1..] == id[1..] + "\"" + rest;
      QuotedTail(id[1..], rest);
    }
  }

  lemma QuotedItemTail(id: string, ending: string, rest: string)
    requires ReadsBack(id, Quoted) && (rest == [] || IsSpace(rest[0]))
    requires forall i :: 0 <= i < |ending| ==> !IsSpace(ending[i])
    ensures WordTail(id + "\"" + (ending + rest), true) == |id| + 1 + |ending|
  {
    QuotedTail(id, ending + rest);
    PlainTail(ending, rest);
  }

  lemma UnquotedItemTail(word: string, rest: string)
    requires word != "" && (rest == [] || IsSpace(rest[0])) && forall i :: 0 <= i < |word| ==> !IsSpace(word[i])
    ensures 1 + WordTail((word + rest)[1..], false) == |word|
  {
    assert (word + rest)[1..] == word[1..] + rest;
    PlainTail(word[1..], rest);
  }

  lemma AfterQuote(id: string, ending: string, rest: string)
    ensures ("\"" + id + "\"" + ending + rest)[1..] == id + "\"" + (ending + rest)
  {
  }

  predicate NoSpace(text: string) {
    forall i :: 0 <= i < |text| ==> !IsSpace(text[i])
  }

  lemma TypedTail(id: string, text: string, format: Format, rest: string)
    requires ReadsBack(id, format) && NoSpace(text) && (rest == [] || IsSpace(rest[0]))
    ensures
      var s := Typed(id, text, format) + rest;
      1 + WordTail(s[1..], s[0] == '"') == |Typed(id, text, format)|
  {
    var ending := "=" + text;
    var s := Typed(id, text, format) + rest;
    if format == Quoted {
      Regroup("\"" + id + "\"", "=", text);
      AfterQuote(id, ending, rest);
      QuotedItemTail(id, ending, rest);
    } else {
      Regroup(id, "=", text);
      UnquotedItemTail(id + ending, rest);
    }
  }

  lemma TypedIsOneWord(id: string, text: string, format: Format, rest: string)
    requires ReadsBack(id, format) && NoSpace(text) && (rest == [] || IsSpace(rest[0]))
    ensures Words(Typed(id, text, format) + rest) == [Typed(id, text, format)] + Words(rest)
  {
    TypedTail(id, text, format, rest);
    var s := Typed(id, text, format) + rest;
    var n := |Typed(id, text, format)|;
    assert s[..n] == Typed(id, text, format) && s[n..] == rest;
    assert !IsSpace(s[0]);
  }

  lemma ItemIsOneWord(line: ResolvedLine, format: Format, rest: string)
    requires ReadsBack(line.id, format) && (rest == [] || IsSpace(rest[0]))
    ensures Words(Item(line, format) + rest) == [Item(line, format)] + Words(rest)
  {
    TypedIsOneWord(line.id, ValueText(line.value), format, rest);
  }

  lemma {:induction false} ClosingQuote(id: string, text: string)
    requires forall i :: 0 <= i < |id| - 1 ==> !(id[i] == '"' && id[i + 1] == '=')
    ensures FindClosing(id + "\"=" + text) == Some(|id|)
  {
    var s := id + "\"=" + text;
    if id != [] {
      assert s[0] == id[0];
      assert s[1..] == id[1..] + "\"=" + text;
      ClosingQuote(id[1..], text);
    }
  }

  lemma {:induction false} FirstEquals(id: string, text: string)
    requires '=' !in id
    ensures FindChar(id + "=" + text, '=') == Some(|id|)
  {
    var s := id + "=" + text;
    if id != [] {
      assert s[0] == id[0];
      assert s[1..] == id[1..] + "=" + text;
      FirstEquals(id[1..], text);
    }
  }

  /** What is typed for such an id is parsed as the id and whatever value the text stands for. */
  lemma TypedParses(id: string, text: string, format: Format)
    requires ReadsBack(id, format)
    ensures ParseWord(Typed(id, text, format)) ==
      if ParseValue(text).None? then None else Some((id, ParseValue(text).value))
  {
    var word := Typed(id, text, format);
    if format == Quoted {
      var t := word[1..];
      assert t == id + "\"=" + text;
      ClosingQuote(id, text);
      assert t[..|id|] == id && t[|id| + 2..] == text;
    } else {
      FirstEquals(id, text);
      assert word[..|id|] == id && word[|id| + 1..] == text;
    }
  }

  lemma ItemParses(line: ResolvedLine, format: Format)
    requires ReadsBack(line.id, format)
    ensures ParseWord(Item(line, format)) == Some((line.id, Shown(line)))
  {
    TypedParses(line.id, ValueText(line.value), format);
  }

  /** A printed line reads back when the splitter takes it for one word and the parser finds the
      id and the value in it. */
  ghost predicate OneLineReadsBack(line: ResolvedLine, format: Format) {
    Words(Item(line, format) + "\n") == [Item(line, format)] &&
    ParseWord(Item(line, format)) == Some((line.id, Shown(line)))
  }

  lemma {:induction false} SpaceEndsPlain(s: string, j: nat)
    requires j < |s| && IsSpace(s[j])
    ensures WordTail(s, false) <= j
  {
    if !IsSpace(s[0]) {
      SpaceEndsPlain(s[1..], j - 1);
    }
  }

  lemma {:induction false} SpaceEndsWord(s: string, i: nat, j: nat)
    requires i < j < |s| && s[i] == '"' && IsSpace(s[j])
    ensures WordTail(s, true) <= j
  {
    if s[0] == '"' {
      SpaceEndsPlain(s[1..], j - 1);
    } else {
      SpaceEndsWord(s[1..], i - 1, j - 1);
    }
  }

  lemma SpaceCutsQuoted(s: string, i: nat, j: nat, n: nat)
    requires i < j && 1 + j < n <= |s| && s[0] == '"' && s[1 + i] == '"' && IsSpace(s[1 + j])
    ensures Words(s) != [s[..n]]
  {
    assert s[1..][i] == s[1 + i] && s[1..][j] == s[1 + j];
    SpaceEndsWord(s[1..], i, j);
    assert |Words(s)[0]| < n;
  }

  lemma QuotedNeeds(line: ResolvedLine)
    requires !ReadsBack(line.id, Quoted)
    ensures !OneLineReadsBack(line, Quoted)
  {
    var id, item := line.id, Item(line, Quoted);
    if i, j :| 0 <= i < j < |id| && id[i] == '"' && IsSpace(id[j]) {
      assert item[1 + i] == id[i] && item[1 + j] == id[j];
      SpaceCutsQuoted(item + "\n", i, j, |item|);
      assert (item + "\n")[..|item|] == item;
    } else {
      var i :| 0 <= i < |id| - 1 && id[i] == '"' && id[i + 1] == '=';
      var t := item[1..];
      assert t[i] == id[i] && t[i + 1] == id[i + 1];
    }
  }

  /** No word starts with white space. */
  lemma {:induction false} WordsStartPlain(s: string)
    ensures Words(s) != [] ==> Words(s)[0] != "" && !IsSpace(Words(s)[0][0])
  {
    if s != [] && IsSpace(s[0]) {
      WordsStartPlain(s[1..]);
    }
  }

  lemma SpaceCutsWord(s: string, j: nat, n: nat)
    requires j < n <= |s| && s[0] != '"' && IsSpace(s[j])
    ensures Words(s) != [s[..n]]
  {
    if IsSpace(s[0]) {
      WordsStartPlain(s);
      assert s[..n][0] == s[0];
    } else {
      assert s[1..][j - 1] == s[j];
      SpaceEndsPlain(s[1..], j - 1);
      assert |Words(s)[0]| < n;
    }
  }

  lemma UnquotedNeeds(line: ResolvedLine)
    requires !ReadsBack(line.id, Unquoted)
    ensures !OneLineReadsBack(line, Unquoted)
  {
    var id, word := line.id, Item(line, Unquoted);
    if id != "" && id[0] == '"' {
      assert word[0] == '"' && word[|id|] == '=' && word[|id| + 1] != '"';
      var q := FindClosing(word[1..]);
      assert q.Some? ==> word[1..][q.value] == '"';
    } else if i :| 0 <= i < |id| && id[i] == '=' {
      assert word[i] == '=';
    } else {
      var j :| 0 <= j < |id| && IsSpace(id[j]);
      var s := word + "\n";
      assert s[0] == word[0] == id[0] && s[j] == id[j];
      SpaceCutsWord(s, j, |word|);
    }
  }

  /** ReadsBack says exactly for which ids that is. */
  lemma OneLineReadsBackIff(line: ResolvedLine, format: Format)
    ensures OneLineReadsBack(line, format) <==> ReadsBack(line.id, format)
  {
    if ReadsBack(line.id, format) {
      ItemIsOneWord(line, format, "\n");
      ItemParses(line, format);
    } else if format == Quoted {
      QuotedNeeds(line);
    } else {
      UnquotedNeeds(line);
    }
  }

  function Items(lines: seq<ResolvedLine>, format: Format): seq<string> {
    seq(|lines|, k requires 0 <= k < |lines| => Item(lines[k], format))
  }

  lemma WordThenMore(line: ResolvedLine, format: Format, more: string)
    requires ReadsBack(line.id, format)
    ensures Words(Item(line, format) + " " + more) == [Item(line, format)] + Words(more)
  {
    var rest := " " + more;
    ItemIsOneWord(line, format, rest);
    assert rest[1..] == more;
    Regroup(Item(line, format), " ", more);
  }

  lemma ItemsOneMore(lines: seq<ResolvedLine>, format: Format)
    requires lines != []
    ensures Items(lines, format) == [Item(lines[0], format)] + Items(lines[1..], format)
  {
  }

  lemma {:induction false} JoinedWords(lines: seq<ResolvedLine>, format: Format)
    requires lines != [] && forall k :: 0 <= k < |lines| ==> ReadsBack(lines[k].id, format)
    ensures Words(Joined(lines, format)) == Items(lines, format)
  {
    ItemsOneMore(lines, format);
    if |lines| == 1 {
      ItemIsOneWord(lines[0], format, "");
      assert Item(lines[0], format) + "" == Item(lines[0], format);
    } else {
      JoinedWords(lines[1..], format);
      WordThenMore(lines[0], format, Joined(lines[1..], format));
    }
  }
}

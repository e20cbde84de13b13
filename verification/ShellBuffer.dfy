/** tools/gpioset.c: the word splitter and the parser at work on the line buffer. */
module ShellBuffer {
  import opened Wrappers
  import opened CString
  import opened LineSettings
  import opened Resolver
  import opened Shell

  /** The string that starts at an index of a buffer. */
  function CStr(buf: seq<char>, i: nat): string
    decreases |buf| - i
  {
    if i >= |buf| || buf[i] == NUL then "" else [buf[i]] + CStr(buf, i + 1)
  }

  lemma {:induction false} CStrIs(buf: seq<char>, a: nat, b: nat)
    requires a <= b < |buf| && buf[b] == NUL && NUL !in buf[a..b]
    ensures CStr(buf, a) == buf[a..b]
    decreases b - a
  {
    if a < b {
      assert buf[a] in buf[a..b];
      assert buf[a + 1..b] == buf[a..b][1..];
      CStrIs(buf, a + 1, b);
    }
  }

  /** Where the word that goes on at p ends. */
  ghost function End(s: string, p: nat, inQuotes: bool): (e: nat)
    requires p <= |s|
    ensures p <= e <= |s|
  {
    p + WordTail(s[p..], inQuotes)
  }

  lemma EndStep(s: string, p: nat, inQuotes: bool)
    requires p < |s|
    ensures inQuotes ==> End(s, p, true) == End(s, p + 1, s[p] != '"')
    ensures !inQuotes ==> End(s, p, false) == if IsSpace(s[p]) then p else End(s, p + 1, false)
  {
    assert s[p..][1..] == s[p + 1..];
  }

  lemma OutsideStep(s: string, p: nat)
    requires p < |s|
    ensures IsSpace(s[p]) ==> Words(s[p..]) == Words(s[p + 1..])
    ensures !IsSpace(s[p]) ==>
      var e := End(s, p + 1, s[p] == '"');
      Words(s[p..]) == [s[p..e]] + Words(s[e..])
  {
    assert s[p..][1..] == s[p + 1..];
    if !IsSpace(s[p]) {
      var e := End(s, p + 1, s[p] == '"');
      assert s[p..][..e - p] == s[p..e] && s[p..][e - p..] == s[e..];
    }
  }

  /** A word in the buffer: its first index, and the index of the NUL after it. */
  datatype Span = Span(start: nat, end: nat)

  /** The buffer holds these words, one after the other, each ended by a NUL, all before `limit`. */
  ghost predicate Holds(buf: seq<char>, spans: seq<Span>, texts: seq<string>, limit: nat) {
    |spans| == |texts| &&
    (forall k :: 0 <= k < |spans| ==>
      spans[k].start < spans[k].end < |buf| && spans[k].end < limit && buf[spans[k].end] == NUL &&
      buf[spans[k].start..spans[k].end] == texts[k] && NUL !in texts[k]) &&
    (forall j, k :: 0 <= j < k < |spans| ==> spans[j].end < spans[k].start)
  }

  /** The buffer from p on is still the input line. */
  ghost predicate Unread(buf: seq<char>, s: string, p: nat) {
    |s| < |buf| && buf[|s|] == NUL && forall q :: p <= q < |s| ==> buf[q] == s[q]
  }

  /** Where split_words stands: before character p, inside a word that began at `start` or
      between words, with the given words behind it. */
  datatype Progress = Progress(p: nat, inWord: bool, inQuotes: bool, start: nat, spans: seq<Span>, texts: seq<string>)

  ghost predicate Splitting(buf: seq<char>, s: string, at: Progress) {
    && NoNul(s) && at.p <= |s| && Unread(buf, s, at.p)
    && Holds(buf, at.spans, at.texts, if at.inWord then at.start else at.p)
    && (at.inWord ==> at.start < at.p && buf[at.start..at.p] == s[at.start..at.p])
    && Words(s) == at.texts + (
      if at.inWord
      then [s[at.start..End(s, at.p, at.inQuotes)]] + Words(s[End(s, at.p, at.inQuotes)..])
      else Words(s[at.p..]))
  }

  lemma SkipSpace(buf: seq<char>, s: string, at: Progress)
    requires Splitting(buf, s, at) && at.p < |s| && !at.inWord && IsSpace(s[at.p])
    ensures Splitting(buf, s, at.(p := at.p + 1))
  {
    OutsideStep(s, at.p);
  }

  function Begun(s: string, at: Progress): Progress
    requires at.p < |s|
  {
    at.(p := at.p + 1, inWord := true, inQuotes := s[at.p] == '"', start := at.p)
  }

  lemma StartWord(buf: seq<char>, s: string, at: Progress)
    requires Splitting(buf, s, at) && at.p < |s| && !at.inWord && !IsSpace(s[at.p])
    ensures Splitting(buf, s, Begun(s, at))
  {
    OutsideStep(s, at.p);
  }

  lemma GoOn(buf: seq<char>, s: string, at: Progress)
    requires Splitting(buf, s, at) && at.p < |s| && at.inWord && (at.inQuotes || !IsSpace(s[at.p]))
    ensures Splitting(buf, s, at.(p := at.p + 1, inQuotes := at.inQuotes && s[at.p] != '"'))
  {
    EndStep(s, at.p, at.inQuotes);
    assert buf[at.start..at.p + 1] == buf[at.start..at.p] + [s[at.p]];
    assert s[at.start..at.p + 1] == s[at.start..at.p] + [s[at.p]];
  }

  /** What the array of words holds: the starts of the first ones, also of one not yet ended. */
  ghost predicate Stored(words: seq<nat>, at: Progress, maxWords: nat) {
    maxWords <= |words| &&
    (forall k :: 0 <= k < |at.spans| && k < maxWords ==> words[k] == at.spans[k].start) &&
    (at.inWord && |at.spans| < maxWords ==> words[|at.spans|] == at.start)
  }

  /** The word that ends at p, in a buffer that now has its NUL. */
  function Ended(s: string, at: Progress): Progress
    requires at.start <= at.p <= |s|
  {
    at.(inWord := false, spans := at.spans + [Span(at.start, at.p)], texts := at.texts + [s[at.start..at.p]])
  }

  lemma EndWord(buf: seq<char>, after: seq<char>, s: string, at: Progress)
    requires Splitting(buf, s, at) && at.inWord && End(s, at.p, at.inQuotes) == at.p
    requires |after| == |buf| && after[at.p] == NUL && forall q :: 0 <= q < |buf| && q != at.p ==> after[q] == buf[q]
    ensures Holds(after, Ended(s, at).spans, Ended(s, at).texts, at.p + 1)
    ensures Words(s) == Ended(s, at).texts + Words(s[at.p..])
  {
    forall k | 0 <= k < |at.spans|
      ensures after[at.spans[k].start..at.spans[k].end] == at.texts[k] && after[at.spans[k].end] == NUL
    {
      assert after[at.spans[k].start..at.spans[k].end] == buf[at.spans[k].start..at.spans[k].end];
    }
    assert after[at.start..at.p] == buf[at.start..at.p];
    Regroup(at.texts, [s[at.start..at.p]], Words(s[at.p..]));
  }

  lemma SpaceEnds(s: string, p: nat)
    requires p < |s| && IsSpace(s[p])
    ensures End(s, p, false) == p && Words(s[p..]) == Words(s[p + 1..])
  {
    EndStep(s, p, false);
    OutsideStep(s, p);
  }

  lemma BetweenWords(buf: seq<char>, s: string, at: Progress)
    requires NoNul(s) && at.p <= |s| && !at.inWord && Unread(buf, s, at.p)
    requires Holds(buf, at.spans, at.texts, at.p) && Words(s) == at.texts + Words(s[at.p..])
    ensures Splitting(buf, s, at)
  {
  }

  lemma EndWordAtSpace(buf: seq<char>, after: seq<char>, s: string, at: Progress)
    requires Splitting(buf, s, at) && at.p < |s| && at.inWord && !at.inQuotes && IsSpace(s[at.p])
    requires |after| == |buf| && after[at.p] == NUL && forall q :: 0 <= q < |buf| && q != at.p ==> after[q] == buf[q]
    ensures Splitting(after, s, Ended(s, at).(p := at.p + 1))
  {
    SpaceEnds(s, at.p);
    EndWord(buf, after, s, at);
    BetweenWords(after, s, Ended(s, at).(p := at.p + 1));
  }

  lemma EndOfLine(buf: seq<char>, s: string, at: Progress, words: seq<nat>, maxWords: nat) returns (spans: seq<Span>)
    requires Splitting(buf, s, at) && at.p == |s| && Stored(words, at, maxWords)
    ensures Holds(buf, spans, Words(s), |s| + 1)
    ensures |spans| == |at.spans| + if at.inWord then 1 else 0
    ensures forall k :: 0 <= k < |spans| && k < maxWords ==> words[k] == spans[k].start
  {
    spans := at.spans;
    if at.inWord {
      EndWord(buf, buf, s, at);
      spans := Ended(s, at).spans;
      assert Words(s) == Ended(s, at).texts;
    } else {
      assert Words(s) == at.texts;
    }
  }

  /** One character of split_words. */
  method SplitChar(line: array<char>, ghost s: string, maxWords: nat, words: array<nat>, inWord: bool, inQuotes: bool,
                   p: nat, numWords: nat, ghost at: Progress)
    returns (newInWord: bool, newInQuotes: bool, newNumWords: nat, ghost now: Progress)
    requires Splitting(line[..], s, at) && p == at.p < |s| && inWord == at.inWord && inQuotes == at.inQuotes
    requires numWords == |at.spans| && Stored(words[..], at, maxWords)
    modifies line, words
    ensures Splitting(line[..], s, now) && now.p == p + 1 && newInWord == now.inWord && newInQuotes == now.inQuotes
    ensures newNumWords == |now.spans| && Stored(words[..], now, maxWords)
  {
    newInWord, newInQuotes, newNumWords, now := inWord, inQuotes, numWords, at.(p := p + 1);
    assert line[..][p] == s[p];
    if !inWord {
      if IsSpace(line[p]) {
        SkipSpace(line[..], s, at);
      } else {
        StartWord(line[..], s, at);
        now := Begun(s, at);
        newInWord := true;
        newInQuotes := line[p] == '"';
        if numWords < maxWords {
          words[numWords] := p;
        }
      }
    } else if inQuotes || !IsSpace(line[p]) {
      GoOn(line[..], s, at);
      newInQuotes := inQuotes && line[p] != '"';
      now := now.(inQuotes := newInQuotes);
    } else {
      ghost var before := line[..];
      line[p] := NUL;
      EndWordAtSpace(before, line[..], s, at);
      now := Ended(s, at).(p := p + 1);
      newNumWords := numWords + 1;
      newInWord := false;
    }
  }

  /** split_words: all words are counted, and the first maxWords are stored. */
  method SplitWords(line: array<char>, ghost s: string, maxWords: nat, words: array<nat>)
    returns (numWords: nat, ghost spans: seq<Span>)
    requires NoNul(s) && Unread(line[..], s, 0) && words.Length >= maxWords
    modifies line, words
    ensures numWords == |Words(s)| && Holds(line[..], spans, Words(s), |s| + 1)
    ensures forall k :: 0 <= k < numWords && k < maxWords ==> words[..][k] == spans[k].start
  {
    ghost var at := Progress(0, false, false, 0, [], []);
    var inWord, inQuotes, p := false, false, 0;
    numWords := 0;
    assert s[0..] == s;
    while line[p] != NUL
      invariant Splitting(line[..], s, at) && p == at.p && inWord == at.inWord && inQuotes == at.inQuotes
      invariant numWords == |at.spans| && Stored(words[..], at, maxWords)
      decreases |s| - p
    {
      assert p < |s| by {
        assert line[..][|s|] == NUL;
      }
      inWord, inQuotes, numWords, at := SplitChar(line, s, maxWords, words, inWord, inQuotes, p, numWords, at);
      p := p + 1;
    }
    spans := EndOfLine(line[..], s, at, words[..], maxWords);
    if inWord {
      numWords := numWords + 1;
    }
  }

  // ---------------------------------------------------------------------------------------
  // Parsing the words in place

  ghost predicate AllParse(texts: seq<string>) {
    forall k :: 0 <= k < |texts| ==> ParseWord(texts[k]).Some?
  }

  /** A word that is still to be parsed. */
  ghost predicate WordAt(buf: seq<char>, span: Span, text: string) {
    span.start < span.end < |buf| && buf[span.end] == NUL && buf[span.start..span.end] == text && NUL !in text
  }

  /** A word that has been parsed: its id is the string at `line`. */
  ghost predicate IdAt(buf: seq<char>, span: Span, text: string, line: nat, idEnd: nat) {
    ParseWord(text).Some? && span.start <= line <= idEnd < span.end < |buf| &&
    buf[idEnd] == NUL && buf[line..idEnd] == ParseWord(text).value.0 && NUL !in ParseWord(text).value.0
  }

  /** Nothing but this word has changed. */
  ghost predicate OnlyWithin(before: seq<char>, after: seq<char>, span: Span) {
    |before| == |after| && forall q :: 0 <= q < |before| && !(span.start <= q < span.end) ==> after[q] == before[q]
  }

  lemma OtherWord(before: seq<char>, after: seq<char>, changed: Span, span: Span, text: string)
    requires OnlyWithin(before, after, changed) && changed.end < span.start
    requires WordAt(before, span, text)
    ensures WordAt(after, span, text)
  {
    assert after[span.start..span.end] == before[span.start..span.end];
  }

  lemma OtherId(before: seq<char>, after: seq<char>, changed: Span, span: Span, text: string, line: nat, idEnd: nat)
    requires OnlyWithin(before, after, changed) && span.end < changed.start
    requires IdAt(before, span, text, line, idEnd)
    ensures IdAt(after, span, text, line, idEnd)
  {
    assert after[line..idEnd] == before[line..idEnd];
  }

  lemma Part(buf: seq<char>, span: Span, text: string, a: nat, b: nat)
    requires WordAt(buf, span, text) && span.start <= a <= b <= span.end
    ensures buf[a..b] == text[a - span.start..b - span.start] && NUL !in buf[a..b]
  {
    assert forall q :: a <= q < b ==> buf[q] == text[q - span.start];
    assert forall q :: a <= q < b ==> buf[q] in text;
  }

  /** The id is a part of the word that was left as it was, with a NUL put after it. */
  lemma CutId(before: seq<char>, after: seq<char>, span: Span, text: string, line: nat, idEnd: nat)
    requires WordAt(before, span, text) && OnlyWithin(before, after, span)
    requires span.start <= line <= idEnd < span.end && after[idEnd] == NUL
    requires forall q :: line <= q < idEnd ==> after[q] == before[q]
    requires ParseWord(text).Some? && ParseWord(text).value.0 == text[line - span.start..idEnd - span.start]
    ensures IdAt(after, span, text, line, idEnd)
  {
    Part(before, span, text, line, idEnd);
    assert after[line..idEnd] == before[line..idEnd];
  }

  method ParsePlain(buf: array<char>, start: nat, word: string, ghost span: Span)
    returns (parsed: Option<(nat, Value)>, ghost idEnd: nat)
    requires WordAt(buf[..], span, word) && start == span.start && word[0] != '"'
    modifies buf
    ensures OnlyWithin(old(buf[..]), buf[..], span)
    ensures parsed.Some? <==> ParseWord(word).Some?
    ensures parsed.Some? ==>
      IdAt(buf[..], span, word, parsed.value.0, idEnd) && parsed.value.1 == ParseWord(word).value.1
  {
    ghost var before := buf[..];
    var eq := FindChar(word, '=');
    if eq.None? {
      return None, 0;
    }
    idEnd := start + eq.value;
    buf[start + eq.value] := NUL;
    var value := ParseValue(word[eq.value + 1..]);
    if value.None? {
      return None, idEnd;
    }
    CutId(before, buf[..], span, word, start, idEnd);
    parsed := Some((start, value.value));
  }

  method ParseQuoted(buf: array<char>, start: nat, word: string, ghost span: Span)
    returns (parsed: Option<(nat, Value)>, ghost idEnd: nat)
    requires WordAt(buf[..], span, word) && start == span.start && word[0] == '"'
    modifies buf
    ensures OnlyWithin(old(buf[..]), buf[..], span)
    ensures parsed.Some? <==> ParseWord(word).Some?
    ensures parsed.Some? ==>
      IdAt(buf[..], span, word, parsed.value.0, idEnd) && parsed.value.1 == ParseWord(word).value.1
  {
    ghost var before := buf[..];
    var line := start + 1;
    var t := word[1..];
    var q := FindClosing(t);
    if q.None? {
      return None, 0;
    }
    idEnd := line + q.value;
    buf[line + q.value] := NUL;
    buf[line + q.value + 1] := NUL;
    var value := ParseValue(t[q.value + 2..]);
    if value.None? {
      return None, idEnd;
    }
    assert word[1..idEnd - start] == t[..q.value];
    CutId(before, buf[..], span, word, line, idEnd);
    parsed := Some((line, value.value));
  }

  /** One turn of the loop in parse_line_values, on one word: NULs cut the id off from the value. */
  method ParseInPlace(buf: array<char>, start: nat, ghost span: Span, ghost text: string)
    returns (parsed: Option<(nat, Value)>, ghost idEnd: nat)
    requires WordAt(buf[..], span, text) && start == span.start
    modifies buf
    ensures OnlyWithin(old(buf[..]), buf[..], span)
    ensures parsed.Some? <==> ParseWord(text).Some?
    ensures parsed.Some? ==>
      IdAt(buf[..], span, text, parsed.value.0, idEnd) && parsed.value.1 == ParseWord(text).value.1
  {
    ghost var before := buf[..];
    CStrIs(buf[..], start, span.end);
    var word := CStr(buf[..], start);
    if word[0] != '"' {
      parsed, idEnd := ParsePlain(buf, start, word, span);
    } else {
      parsed, idEnd := ParseQuoted(buf, start, word, span);
    }
  }

  /** Where parse_line_values stands: the first i words are parsed. */
  ghost predicate Parsing(buf: seq<char>, spans: seq<Span>, texts: seq<string>, i: nat, lines: seq<nat>,
                          idEnds: seq<nat>) {
    i <= |spans| == |texts| && |idEnds| == i <= |lines| &&
    (forall j, k :: 0 <= j < k < |spans| ==> spans[j].end < spans[k].start) &&
    (forall k :: 0 <= k < i ==> IdAt(buf, spans[k], texts[k], lines[k], idEnds[k])) &&
    (forall k :: i <= k < |spans| ==> WordAt(buf, spans[k], texts[k]))
  }

  lemma ParsedOne(before: seq<char>, after: seq<char>, spans: seq<Span>, texts: seq<string>, i: nat,
                  lines: seq<nat>, idEnds: seq<nat>, line: nat, idEnd: nat)
    requires i < |spans| && i < |lines| && Parsing(before, spans, texts, i, lines, idEnds)
    requires OnlyWithin(before, after, spans[i]) && IdAt(after, spans[i], texts[i], line, idEnd)
    ensures Parsing(after, spans, texts, i + 1, lines[i := line], idEnds + [idEnd])
  {
    forall k | 0 <= k < i ensures IdAt(after, spans[k], texts[k], lines[k], idEnds[k]) {
      OtherId(before, after, spans[i], spans[k], texts[k], lines[k], idEnds[k]);
    }
    forall k | i < k < |spans| ensures WordAt(after, spans[k], texts[k]) {
      OtherWord(before, after, spans[i], spans[k], texts[k]);
    }
  }

  lemma ParsedAll(buf: seq<char>, spans: seq<Span>, texts: seq<string>, lines: seq<nat>, idEnds: seq<nat>)
    requires Parsing(buf, spans, texts, |spans|, lines, idEnds)
    ensures forall k :: 0 <= k < |texts| ==> CStr(buf, lines[k]) == ParseWord(texts[k]).value.0
  {
    forall k | 0 <= k < |texts| ensures CStr(buf, lines[k]) == ParseWord(texts[k]).value.0 {
      assert IdAt(buf, spans[k], texts[k], lines[k], idEnds[k]);
      CStrIs(buf, lines[k], idEnds[k]);
    }
  }

  /** parse_line_values on words that split_words has cut. */
  method ParseLineValues(buf: array<char>, ghost spans: seq<Span>, ghost texts: seq<string>,
                         lvs: seq<nat>, lines: array<nat>, values: array<int>) returns (ok: bool)
    requires Parsing(buf[..], spans, texts, 0, lines[..], []) && |lvs| == |spans|
    requires forall k :: 0 <= k < |lvs| ==> lvs[k] == spans[k].start
    requires lines.Length >= |lvs| && values.Length >= |lvs|
    modifies buf, lines, values
    ensures ok <==> AllParse(texts)
    ensures ok ==> forall k :: 0 <= k < |lvs| ==> CStr(buf[..], lines[k]) == ParseWord(texts[k]).value.0
    ensures ok ==> forall k :: 0 <= k < |lvs| ==> values[k] == ValueCode(ParseWord(texts[k]).value.1)
  {
    ghost var idEnds: seq<nat> := [];
    for i := 0 to |lvs|
      invariant Parsing(buf[..], spans, texts, i, lines[..], idEnds)
      invariant forall k :: 0 <= k < i ==>
        ParseWord(texts[k]).Some? && values[k] == ValueCode(ParseWord(texts[k]).value.1)
    {
      ghost var before, linesBefore := buf[..], lines[..];
      assert WordAt(before, spans[i], texts[i]);
      var parsed, idEnd := ParseInPlace(buf, lvs[i], spans[i], texts[i]);
      if parsed.None? {
        return false;
      }
      lines[i] := parsed.value.0;
      values[i] := ValueCode(parsed.value.1);
      ParsedOne(before, buf[..], spans, texts, i, linesBefore, idEnds, parsed.value.0, idEnd);
      assert lines[..] == linesBefore[i := parsed.value.0];
      idEnds := idEnds + [idEnd];
    }
    ok := true;
    ParsedAll(buf[..], spans, texts, lines[..], idEnds);
  }
}

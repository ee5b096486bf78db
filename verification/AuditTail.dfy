/** Reading the last lines of the audit log from its end (observability/audit_view.py). */
module AuditTail {
  import opened Utf8
  import opened Wrappers
  import Plans

  // --- str.splitlines

  predicate IsBreak(c: char) {
    c in {'\n', '\r', '\U{0B}', '\U{0C}', '\U{1C}', '\U{1D}', '\U{1E}', '\U{85}', '\U{2028}', '\U{2029}'}
  }

  // The index of the first line break, or the length.
  function LineEnd(s: string): (n: nat)
    ensures n <= |s| && (n < |s| ==> IsBreak(s[n]))
    ensures forall i :: 0 <= i < n ==> !IsBreak(s[i])
  {
    if s == "" then 0 else if IsBreak(s[0]) then 0 else 1 + LineEnd(s[1..])
  }

  // \r\n is one break.
  function BreakSize(s: string, n: nat): nat
    requires n < |s|
  {
    if s[n] == '\r' && n + 1 < |s| && s[n + 1] == '\n' then 2 else 1
  }

  function SplitLines(s: string): seq<string> {
    if s == "" then [] else
      var n := LineEnd(s);
      if n == |s| then [s] else [s[..n]] + SplitLines(s[n + BreakSize(s, n)..])
  }

  lemma LineEndIs(s: string, n: nat)
    requires n < |s| && IsBreak(s[n]) && forall i :: 0 <= i < n ==> !IsBreak(s[i])
    ensures LineEnd(s) == n
  {
  }

  lemma FirstLine(s: string, n: nat)
    requires n == LineEnd(s) < |s|
    ensures SplitLines(s) == [s[..n]] + SplitLines(s[n + BreakSize(s, n)..])
  {
    hide LineEnd, IsBreak;
  }

  lemma SplitAt(s: string, n: nat)
    requires n < |s| && IsBreak(s[n]) && forall i :: 0 <= i < n ==> !IsBreak(s[i])
    ensures SplitLines(s) == [s[..n]] + SplitLines(s[n + BreakSize(s, n)..])
  {
    hide IsBreak, BreakSize, LineEnd, SplitLines;
    LineEndIs(s, n);
    FirstLine(s, n);
  }

  /** The line breaks by code point. */
  lemma BreaksAre(c: char)
    ensures IsBreak(c) <==>
      10 <= c as int <= 13 || 28 <= c as int <= 30 || c as int in {133, 8232, 8233}
  {
  }

  // A break as it stands in the text: one character, or a carriage return and a newline.
  predicate IsBreakText(b: string) {
    (|b| == 1 && IsBreak(b[0])) || b == "\r\n"
  }

  function Rejoined(lines: seq<string>, breaks: seq<string>): string
    requires |breaks| <= |lines|
  {
    if lines == [] then "" else
      lines[0] + (if breaks == [] then "" else breaks[0])
      + Rejoined(lines[1..], if breaks == [] then [] else breaks[1..])
  }

  // The lines between the breaks: no line contains one, \r\n is not taken apart, and only the last may lack one.
  ghost predicate CutAtBreaks(s: string, lines: seq<string>, breaks: seq<string>) {
    && |breaks| <= |lines| <= |breaks| + 1 && s == Rejoined(lines, breaks)
    && (forall i, j :: 0 <= i < |lines| && 0 <= j < |lines[i]| ==> !IsBreak(lines[i][j]))
    && (forall i :: 0 <= i < |breaks| ==> IsBreakText(breaks[i]))
    && (forall i :: 0 <= i < |breaks| - 1 && breaks[i] == "\r" && lines[i + 1] == "" ==> breaks[i + 1][0] != '\n')
    && (|lines| == |breaks| + 1 ==> lines[|breaks|] != "")
  }

  lemma ThreeParts(s: string, n: nat, k: nat)
    requires n <= k <= |s|
    ensures s == s[..n] + s[n..k] + s[k..]
  {
  }

  lemma FirstBreak(s: string, n: nat)
    requires n < |s| && IsBreak(s[n])
    ensures
      var b := s[n..n + BreakSize(s, n)];
      IsBreakText(b) && (b == "\r" && n + 1 < |s| ==> s[n + 1] != '\n')
  {
    hide IsBreak;
    var b := s[n..n + BreakSize(s, n)];
    assert b[0] == s[n];
    if BreakSize(s, n) == 2 {
      assert b == [s[n], s[n + 1]];
    }
  }

  lemma FirstCut(s: string, n: nat, b: string, rest: string, lines: seq<string>, breaks: seq<string>)
    requires n <= |s| && (forall i :: 0 <= i < n ==> !IsBreak(s[i])) && IsBreakText(b) && s == s[..n] + b + rest
    requires b == "\r" && n + 1 < |s| ==> s[n + 1] != '\n'
    requires CutAtBreaks(rest, lines, breaks)
    ensures CutAtBreaks(s, [s[..n]] + lines, [b] + breaks)
  {
    hide IsBreak;
    var l, k := [s[..n]] + lines, [b] + breaks;
    assert l[1..] == lines && k[1..] == breaks;
    if b == "\r" && breaks != [] && lines[0] == "" {
      assert rest[0] == breaks[0][0] == s[n + 1];
    }
  }

  /** Splitting into lines cuts the text at every line break and nowhere else, and loses nothing. */
  lemma {:induction false} SplitLinesCut(s: string) returns (breaks: seq<string>)
    ensures CutAtBreaks(s, SplitLines(s), breaks)
    decreases |s|
  {
    hide SplitLines, LineEnd, IsBreak, CutAtBreaks, IsBreakText;
    if s == "" {
      breaks := [];
      NoCut();
    } else {
      var n := LineEnd(s);
      if n == |s| {
        breaks := [];
        OnlyLine(s);
      } else {
        var b, rest := s[n..n + BreakSize(s, n)], s[n + BreakSize(s, n)..];
        var more := SplitLinesCut(rest);
        FirstLine(s, n);
        FirstBreak(s, n);
        ThreeParts(s, n, n + BreakSize(s, n));
        FirstCut(s, n, b, rest, SplitLines(rest), more);
        breaks := [b] + more;
      }
    }
  }

  lemma NoCut()
    ensures SplitLines("") == [] && CutAtBreaks("", [], [])
  {
  }

  lemma OnlyLine(s: string)
    requires s != "" && LineEnd(s) == |s|
    ensures SplitLines(s) == [s] && CutAtBreaks(s, [s], [])
  {
    assert [s][1..] == [];
    assert Rejoined([s], []) == s + "" + Rejoined([s][1..], []) == s;
  }

  /** After a newline, splitting starts afresh. */
  lemma {:induction false} SplitAfterNewline(u: string, v: string)
    ensures SplitLines(u + "\n" + v) == SplitLines(u + "\n") + SplitLines(v)
    decreases |u|
  {
    hide SplitLines, IsBreak;
    var head, all := u + "\n", u + "\n" + v;
    assert IsBreak('\n') by {
      NewlineBreaks();
    }
    assert head[|u|] == all[|u|] == '\n';
    var n := LineEnd(head);
    assert forall i :: 0 <= i <= |u| ==> head[i] == all[i];
    SplitAt(head, n);
    SplitAt(all, n);
    assert head[..n] == all[..n];
    var k := n + BreakSize(head, n);
    assert BreakSize(all, n) == BreakSize(head, n);
    if k <= |u| {
      assert head[k..] == u[k..] + "\n" && all[k..] == u[k..] + "\n" + v;
      SplitAfterNewline(u[k..], v);
    } else {
      assert head[k..] == "" && all[k..] == v;
      NothingToSplit();
    }
    assert SplitLines(all) == [head[..n]] + SplitLines(all[k..]);
  }

  lemma NewlineBreaks()
    ensures IsBreak('\n')
  {
  }

  lemma NothingToSplit()
    ensures SplitLines("") == []
  {
  }

  // --- the last lines

  // data.count(b"\n")
  function Newlines(b: seq<Byte>): nat {
    if b == [] then 0 else (if b[0] == NEWLINE then 1 else 0) + Newlines(b[1..])
  }

  function LinesOf(b: seq<Byte>): seq<string> {
    SplitLines(Decode(b))
  }

  function Last<T>(s: seq<T>, n: nat): seq<T> {
    if |s| <= n then s else s[|s| - n..]
  }

  lemma {:induction false} FirstNewline(b: seq<Byte>) returns (i: nat)
    requires Newlines(b) > 0
    ensures i < |b| && b == b[..i] + [NEWLINE] + b[i + 1..]
    ensures Newlines(b[i + 1..]) == Newlines(b) - 1
  {
    if b[0] == NEWLINE {
      i := 0;
    } else {
      i := FirstNewline(b[1..]);
      assert b[1..][i + 1..] == b[i + 2..] && b[1..][..i] == b[1..i + 1];
      i := i + 1;
    }
  }

  lemma LinesAtNewline(x: seq<Byte>, y: seq<Byte>)
    ensures LinesOf(x + [NEWLINE] + y) == SplitLines(Decode(x) + "\n") + LinesOf(y)
  {
    hide Decode, SplitLines;
    DecodeAtNewline(x, y);
    SplitAfterNewline(Decode(x), Decode(y));
  }

  lemma {:induction false} EnoughLines(b: seq<Byte>)
    ensures |LinesOf(b)| >= Newlines(b)
    decreases |b|
  {
    hide LinesOf;
    if Newlines(b) > 0 {
      var i := FirstNewline(b);
      LinesAtNewline(b[..i], b[i + 1..]);
      EnoughLines(b[i + 1..]);
    }
  }

  lemma LastOfConcat<T>(x: seq<T>, y: seq<T>, n: nat)
    requires |y| >= n
    ensures Last(x + y, n) == Last(y, n)
  {
  }

  /** More newlines than lines asked for decide the answer, although the data may start in the middle of a line
      or even of a character. */
  lemma TailDecides(before: seq<Byte>, data: seq<Byte>, limit: nat)
    requires Newlines(data) > limit
    ensures Last(LinesOf(before + data), limit) == Last(LinesOf(data), limit)
  {
    hide LinesOf, Last, SplitLines, Decode;
    var i := FirstNewline(data);
    var a, b := data[..i], data[i + 1..];
    assert before + data == before + a + [NEWLINE] + b;
    LinesAtNewline(before + a, b);
    LinesAtNewline(a, b);
    EnoughLines(b);
    LastOfConcat(SplitLines(Decode(before + a) + "\n"), LinesOf(b), limit);
    LastOfConcat(SplitLines(Decode(a) + "\n"), LinesOf(b), limit);
  }

  /** The end of a list, of n elements or all of them. */
  predicate IsTail<T(==)>(tail: seq<T>, all: seq<T>, n: nat) {
    && |tail| <= |all| && all[|all| - |tail|..] == tail && |tail| <= n && (|tail| < n ==> tail == all)
  }

  lemma LastIsTail<T>(s: seq<T>, n: nat)
    ensures IsTail(Last(s, n), s, n)
  {
  }

  const CHUNK_SIZE := 64 * 1024

  // lines[-limit:], which is everything for limit 0.
  function FromEnd<T>(s: seq<T>, limit: nat): seq<T> {
    if limit == 0 then s else Last(s, limit)
  }

  /** _tail_lines: the chunked read from the end gives the last lines of the whole file. */
  method TailLines(file: seq<Byte>, limit: nat, chunkSize: nat) returns (lines: seq<string>)
    requires chunkSize > 0
    ensures limit > 0 ==> lines == Last(LinesOf(file), limit)
    ensures limit > 0 ==> IsTail(lines, LinesOf(file), limit)
  {
    hide LinesOf, Last, Newlines;
    if limit > 0 {
      LastIsTail(LinesOf(file), limit);
    }
    var end := |file|;
    if end == 0 {
      NoLines(limit);
      return [];
    }
    var data: seq<Byte>, position: nat := [], end;
    while position > 0 && Newlines(data) <= limit
      invariant position <= |file| && data == file[position..]
      decreases position
    {
      var readSize := if chunkSize < position then chunkSize else position;
      position := position - readSize;
      data := file[position..position + readSize] + data;
    }
    assert file == file[..position] + data;
    if position > 0 {
      TailDecides(file[..position], data, limit);
    }
    lines := FromEnd(LinesOf(data), limit);
  }

  function NonBlank(lines: seq<string>): seq<string> {
    if lines == [] then [] else
      var last := lines[|lines| - 1];
      NonBlank(lines[..|lines| - 1]) + if Plans.Blank(last) then [] else [last]
  }

  /** Places in a list, first to last. */
  ghost predicate Places(picks: seq<int>, n: int) {
    && (forall i :: 0 <= i < |picks| ==> 0 <= picks[i] < n)
    && (forall i, j :: 0 <= i < j < |picks| ==> picks[i] < picks[j])
  }

  // The places of the lines that are not blank.
  ghost predicate NonBlankPlaces(lines: seq<string>, picks: seq<int>) {
    Places(picks, |lines|) && forall k :: 0 <= k < |lines| ==> (k in picks <==> !Plans.Blank(lines[k]))
  }

  /** The records of all lines that are not blank, in order. */
  ghost predicate NonBlankRecords<T>(lines: seq<string>, parse: string -> T, records: seq<T>) {
    exists picks ::
      && NonBlankPlaces(lines, picks) && |records| == |picks|
      && (forall i :: 0 <= i < |picks| ==> records[i] == parse(lines[picks[i]]))
  }

  lemma NotYetPlaced(picks: seq<int>, n: nat)
    requires Places(picks, n)
    ensures n !in picks && Places(picks, n + 1) && Places(picks + [n], n + 1)
    ensures forall k :: 0 <= k < n ==> (k in picks + [n] <==> k in picks)
    ensures n in picks + [n]
  {
    assert (picks + [n])[|picks|] == n;
  }

  lemma NonBlankStep(front: seq<string>, line: string, before: seq<int>)
    requires NonBlankPlaces(front, before)
    ensures NonBlankPlaces(front + [line], if Plans.Blank(line) then before else before + [|front|])
  {
    hide Plans.Blank, Places;
    NotYetPlaced(before, |front|);
    assert forall k :: 0 <= k < |front| ==> (front + [line])[k] == front[k];
  }

  lemma {:induction false} NonBlankAt(lines: seq<string>) returns (picks: seq<int>)
    ensures NonBlankPlaces(lines, picks) && |NonBlank(lines)| == |picks|
    ensures forall i :: 0 <= i < |picks| ==> 0 <= picks[i] < |lines| && NonBlank(lines)[i] == lines[picks[i]]
  {
    hide Plans.Blank, NonBlankPlaces;
    if lines == [] {
      picks := [];
      NoPlaces();
    } else {
      var n := |lines| - 1;
      var before := NonBlankAt(lines[..n]);
      NonBlankStep(lines[..n], lines[n], before);
      assert lines == lines[..n] + [lines[n]];
      picks := if Plans.Blank(lines[n]) then before else before + [n];
    }
  }

  lemma NoPlaces()
    ensures NonBlankPlaces([], [])
  {
  }

  lemma RecordsNonBlank<T>(lines: seq<string>, parse: string -> T)
    ensures NonBlankRecords(lines, parse, Parsed(NonBlank(lines), parse))
  {
    hide NonBlankPlaces;
    var picks := NonBlankAt(lines);
  }

  const TAIL_MAX := 200

  // What is at the log's path.
  datatype LogFile = Missing | Unreadable | Readable(bytes: seq<Byte>)

  function Parsed<T>(lines: seq<string>, parse: string -> T): (r: seq<T>)
    ensures |r| == |lines| && forall i :: 0 <= i < |lines| ==> r[i] == parse(lines[i])
  {
    seq(|lines|, i requires 0 <= i < |lines| => parse(lines[i]))
  }

  /** tail_audit; None where it raises.  parse is _parse, redaction included. */
  method TailAudit<T>(file: LogFile, lines: int, parse: string -> T) returns (r: Option<seq<T>>)
    ensures r.Some? <==> 1 <= lines <= 200 && file.Readable?
    ensures r.Some? ==>
      exists last :: IsTail(last, LinesOf(file.bytes), lines) && NonBlankRecords(last, parse, r.value)
  {
    hide LinesOf, Last, IsTail, NonBlankRecords;
    if lines < 1 || lines > TAIL_MAX || !file.Readable? {
      return None;
    }
    var raw := TailLines(file.bytes, lines, CHUNK_SIZE);
    r := Some(Parsed(NonBlank(raw), parse));
    RecordsNonBlank(raw, parse);
  }

  lemma NoLines(limit: nat)
    ensures Last(LinesOf([]), limit) == []
  {
  }

  // --- search

  /** The matching lines, newest first. */
  function Matches(lines: seq<string>, matches: string -> bool): seq<string> {
    if lines == [] then [] else
      var last := lines[|lines| - 1];
      (if matches(last) then [last] else []) + Matches(lines[..|lines| - 1], matches)
  }

  function Reversed(s: seq<string>): seq<string> {
    if s == [] then [] else [s[|s| - 1]] + Reversed(s[..|s| - 1])
  }

  lemma {:induction false} ReversedCons(x: string, s: seq<string>)
    ensures Reversed([x] + s) == Reversed(s) + [x]
  {
    if s != [] {
      assert ([x] + s)[..|s|] == [x] + s[..|s| - 1];
      ReversedCons(x, s[..|s| - 1]);
    }
  }

  lemma {:induction false} ReversedLength(s: seq<string>)
    ensures |Reversed(s)| == |s|
  {
    if s != [] {
      ReversedLength(s[..|s| - 1]);
    }
  }

  function FirstN(s: seq<string>, n: nat): seq<string> {
    if |s| <= n then s else s[..n]
  }

  // deque(maxlen=limit).append(x)
  function Append(deque: seq<string>, x: string, limit: nat): seq<string>
    requires limit > 0
  {
    if |deque| < limit then deque + [x] else deque[|deque| - limit + 1..] + [x]
  }

  lemma ReversedAppend(deque: seq<string>, x: string)
    ensures Reversed(deque + [x]) == [x] + Reversed(deque)
  {
    assert (deque + [x])[..|deque|] == deque;
  }

  // The deque holds the newest of all matches; one more pushes out the oldest.
  lemma DequeStep(deque: seq<string>, x: string, all: seq<string>, limit: nat)
    requires limit > 0 && Reversed(deque) == FirstN(all, limit)
    ensures Reversed(Append(deque, x, limit)) == FirstN([x] + all, limit)
  {
    hide Reversed;
    ReversedLength(deque);
    ReversedAppend(deque, x);
    if |deque| == limit {
      var rest := deque[1..];
      assert deque == [deque[0]] + rest;
      ReversedCons(deque[0], rest);
      ReversedLength(rest);
      ReversedAppend(rest, x);
      assert Reversed(rest) == Reversed(deque)[..limit - 1] == all[..limit - 1];
      assert [x] + all[..limit - 1] == ([x] + all)[..limit];
    }
  }

  /** The lines at these places, newest first: matching ones, all of the newest, and no more than `limit`. */
  ghost predicate NewestHits(lines: seq<string>, matches: string -> bool, limit: nat, hits: seq<int>) {
    && |hits| <= limit && (forall i :: 0 <= i < |hits| ==> 0 <= hits[i] < |lines| && matches(lines[hits[i]]))
    && (forall i, j :: 0 <= i < j < |hits| ==> hits[i] > hits[j])
    && (forall k :: 0 <= k < |lines| && matches(lines[k]) && k !in hits ==>
          |hits| == limit && forall i :: 0 <= i < |hits| ==> k < hits[i])
  }

  // All matching places, last to first.
  ghost predicate MatchingPlaces(lines: seq<string>, matches: string -> bool, hits: seq<int>) {
    && (forall i :: 0 <= i < |hits| ==> 0 <= hits[i] < |lines|)
    && (forall i, j :: 0 <= i < j < |hits| ==> hits[i] > hits[j])
    && (forall k :: 0 <= k < |lines| ==> (k in hits <==> matches(lines[k])))
  }

  lemma MatchingStep(front: seq<string>, line: string, matches: string -> bool, before: seq<int>)
    requires MatchingPlaces(front, matches, before)
    ensures MatchingPlaces(front + [line], matches, if matches(line) then [|front|] + before else before)
  {
    var hits := [|front|] + before;
    assert hits[0] == |front|;
    assert forall k :: 0 <= k < |front| ==> (front + [line])[k] == front[k] && (k in hits <==> k in before);
  }

  lemma {:induction false} MatchesAt(lines: seq<string>, matches: string -> bool) returns (hits: seq<int>)
    ensures MatchingPlaces(lines, matches, hits) && |hits| == |Matches(lines, matches)|
    ensures forall i :: 0 <= i < |hits| ==> 0 <= hits[i] < |lines| && Matches(lines, matches)[i] == lines[hits[i]]
  {
    hide MatchingPlaces;
    if lines == [] {
      hits := [];
      NoMatching(matches);
    } else {
      var n := |lines| - 1;
      var before := MatchesAt(lines[..n], matches);
      MatchingStep(lines[..n], lines[n], matches, before);
      assert lines == lines[..n] + [lines[n]];
      hits := if matches(lines[n]) then [n] + before else before;
    }
  }

  lemma NoMatching(matches: string -> bool)
    ensures MatchingPlaces([], matches, [])
  {
  }

  // A matching place that is not among the first hits is below all of them.
  lemma LaterHit(lines: seq<string>, matches: string -> bool, limit: nat, all: seq<int>, k: nat)
    requires MatchingPlaces(lines, matches, all) && limit < |all|
    requires k < |lines| && matches(lines[k]) && k !in all[..limit]
    ensures forall i :: 0 <= i < limit ==> k < all[i]
  {
    assert k in all;
    var j :| 0 <= j < |all| && all[j] == k;
    assert forall i :: 0 <= i < limit ==> all[..limit][i] in all[..limit] && i != j;
  }

  lemma FirstHits(lines: seq<string>, matches: string -> bool, limit: nat, all: seq<int>)
    requires MatchingPlaces(lines, matches, all)
    ensures NewestHits(lines, matches, limit, if |all| <= limit then all else all[..limit])
  {
    var hits := if |all| <= limit then all else all[..limit];
    forall i | 0 <= i < |hits| ensures 0 <= hits[i] < |lines| && matches(lines[hits[i]]) {
      assert hits[i] == all[i] && all[i] in all;
    }
    if limit < |all| {
      forall k | 0 <= k < |lines| && matches(lines[k]) && k !in hits
        ensures forall i :: 0 <= i < |hits| ==> k < hits[i]
      {
        LaterHit(lines, matches, limit, all, k);
      }
    }
  }

  /** The first `limit` matches are those at the newest places. */
  lemma MatchesAreNewest(lines: seq<string>, matches: string -> bool, limit: nat) returns (hits: seq<int>)
    ensures NewestHits(lines, matches, limit, hits) && |FirstN(Matches(lines, matches), limit)| == |hits|
    ensures forall i :: 0 <= i < |hits| ==>
      0 <= hits[i] < |lines| && FirstN(Matches(lines, matches), limit)[i] == lines[hits[i]]
  {
    hide Matches, MatchingPlaces, NewestHits;
    var all := MatchesAt(lines, matches);
    FirstHits(lines, matches, limit, all);
    hits := if |all| <= limit then all else all[..limit];
  }

  lemma MatchesNext(lines: seq<string>, matches: string -> bool, i: nat)
    requires i < |lines|
    ensures Matches(lines[..i + 1], matches) ==
      (if matches(lines[i]) then [lines[i]] else []) + Matches(lines[..i], matches)
  {
    assert lines[..i + 1][..i] == lines[..i];
  }

  lemma NoMatches(lines: seq<string>, matches: string -> bool, limit: nat)
    ensures Reversed([]) == FirstN(Matches(lines[..0], matches), limit) && lines[..|lines|] == lines
  {
  }

  /** search_audit's loop over a bounded deque: the newest `limit` matches, newest first. */
  method SearchLines(lines: seq<string>, matches: string -> bool, limit: nat) returns (found: seq<string>)
    requires limit > 0
    ensures found == FirstN(Matches(lines, matches), limit)
    ensures exists hits ::
      && NewestHits(lines, matches, limit, hits) && |found| == |hits|
      && (forall i :: 0 <= i < |hits| ==> 0 <= hits[i] < |lines| && found[i] == lines[hits[i]])
  {
    hide NewestHits, Reversed, Matches, FirstN, Append;
    var deque: seq<string> := [];
    NoMatches(lines, matches, limit);
    for i := 0 to |lines|
      invariant Reversed(deque) == FirstN(Matches(lines[..i], matches), limit)
    {
      MatchesNext(lines, matches, i);
      if matches(lines[i]) {
        DequeStep(deque, lines[i], Matches(lines[..i], matches), limit);
        deque := Append(deque, lines[i], limit);
      } else {
        assert [] + Matches(lines[..i], matches) == Matches(lines[..i], matches);
      }
    }
    found := Reversed(deque);
    ghost var hits := MatchesAreNewest(lines, matches, limit);
  }

  const SEARCH_MAX := 500
  const QUERY_MAX := 200

  // --- the lines of a text file

  predicate IsNewline(c: char) {
    c == '\n' || c == '\r'
  }

  function NewlineAt(s: string): (n: nat)
    ensures n <= |s| && (n < |s| ==> IsNewline(s[n]))
    ensures forall i :: 0 <= i < n ==> !IsNewline(s[i])
  {
    if s == "" || IsNewline(s[0]) then 0 else 1 + NewlineAt(s[1..])
  }

  // Iterating over a file opened for text: every kind of newline ends a line, and is read as "\n".
  function TextLines(s: string): seq<string> {
    if s == "" then [] else
      var n := NewlineAt(s);
      if n == |s| then [s] else [s[..n] + "\n"] + TextLines(s[n + BreakSize(s, n)..])
  }

  /** The lines are the bodies between the newlines, each with "\n" for its newline; carriage returns count as
      newlines, \r\n is not taken apart, and only the last line may lack one. */
  ghost predicate CutAtNewlines(s: string, lines: seq<string>, bodies: seq<string>, ends: seq<string>) {
    && |ends| <= |lines| == |bodies| <= |ends| + 1 && s == Rejoined(bodies, ends)
    && (forall i, j :: 0 <= i < |bodies| && 0 <= j < |bodies[i]| ==> bodies[i][j] != '\n' && bodies[i][j] != '\r')
    && (forall i :: 0 <= i < |ends| ==>
          (ends[i] == "\n" || ends[i] == "\r" || ends[i] == "\r\n") && lines[i] == bodies[i] + "\n")
    && (forall i :: 0 <= i < |ends| - 1 && ends[i] == "\r" && bodies[i + 1] == "" ==> ends[i + 1][0] != '\n')
    && (|lines| == |ends| + 1 ==> lines[|ends|] == bodies[|ends|] != "")
  }

  lemma FirstTextLine(s: string, n: nat)
    requires s != "" && n == NewlineAt(s)
    ensures n == |s| ==> TextLines(s) == [s]
    ensures n < |s| ==> TextLines(s) == [s[..n] + "\n"] + TextLines(s[n + BreakSize(s, n)..])
  {
    hide NewlineAt, IsNewline;
  }

  lemma FirstNewlineText(s: string, n: nat)
    requires n < |s| && IsNewline(s[n])
    ensures
      var b := s[n..n + BreakSize(s, n)];
      (b == "\n" || b == "\r" || b == "\r\n") && (b == "\r" && n + 1 < |s| ==> s[n + 1] != '\n')
  {
    var b := s[n..n + BreakSize(s, n)];
    assert b[0] == s[n];
    if BreakSize(s, n) == 2 {
      assert b == [s[n], s[n + 1]];
    }
  }

  lemma FirstNewlineCut(s: string, n: nat, b: string, rest: string, lines: seq<string>, bodies: seq<string>,
                        ends: seq<string>)
    requires n <= |s| && (forall i :: 0 <= i < n ==> s[i] != '\n' && s[i] != '\r')
    requires (b == "\n" || b == "\r" || b == "\r\n") && s == s[..n] + b + rest
    requires b == "\r" && n + 1 < |s| ==> s[n + 1] != '\n'
    requires CutAtNewlines(rest, lines, bodies, ends)
    ensures CutAtNewlines(s, [s[..n] + "\n"] + lines, [s[..n]] + bodies, [b] + ends)
  {
    var l, k := [s[..n]] + bodies, [b] + ends;
    assert l[1..] == bodies && k[1..] == ends;
    if b == "\r" && ends != [] && bodies[0] == "" {
      assert rest[0] == ends[0][0] == s[n + 1];
    }
  }

  /** Reading a text file line by line cuts it at every newline and nowhere else, and loses nothing. */
  lemma {:induction false} TextLinesCut(s: string) returns (bodies: seq<string>, ends: seq<string>)
    ensures CutAtNewlines(s, TextLines(s), bodies, ends)
    decreases |s|
  {
    hide TextLines, NewlineAt, CutAtNewlines;
    bodies, ends := [], [];
    if s == "" {
      NoTextLines();
    } else {
      var n := NewlineAt(s);
      FirstTextLine(s, n);
      if n == |s| {
        bodies := [s];
        OnlyTextLine(s);
      } else {
        var b, rest := s[n..n + BreakSize(s, n)], s[n + BreakSize(s, n)..];
        bodies, ends := TextLinesCut(rest);
        FirstNewlineText(s, n);
        ThreeParts(s, n, n + BreakSize(s, n));
        FirstNewlineCut(s, n, b, rest, TextLines(rest), bodies, ends);
        bodies, ends := [s[..n]] + bodies, [b] + ends;
      }
    }
  }

  lemma NoTextLines()
    ensures TextLines("") == [] && CutAtNewlines("", [], [], [])
  {
  }

  lemma OnlyTextLine(s: string)
    requires s != "" && NewlineAt(s) == |s|
    ensures CutAtNewlines(s, [s], [s], [])
  {
    assert [s][1..] == [];
    assert Rejoined([s], []) == s + "" + Rejoined([s][1..], []) == s;
  }

  /** search_audit; None where it raises.  matches tells whether a redacted line contains the query, both case-folded;
      parse is _parse, redaction included. */
  method SearchAudit<T>(file: LogFile, query: string, matches: string -> bool, limit: int, parse: string -> T)
      returns (r: Option<seq<T>>)
    ensures r.Some? <==> file.Readable? && !Plans.Blank(query) && |query| <= 200 && 1 <= limit <= 500
    ensures r.Some? ==>
      exists hits, found ::
        && NewestHits(TextLines(Decode(file.bytes)), matches, limit, hits) && |found| == |hits|
        && (forall i :: 0 <= i < |hits| ==>
              0 <= hits[i] < |TextLines(Decode(file.bytes))| && found[i] == TextLines(Decode(file.bytes))[hits[i]])
        && NonBlankRecords(found, parse, r.value)
  {
    hide TextLines, Decode, Matches, NonBlank, FirstN, NewestHits, NonBlankRecords;
    if Plans.Blank(query) || |query| > QUERY_MAX || limit < 1 || limit > SEARCH_MAX || !file.Readable? {
      return None;
    }
    var found := SearchLines(TextLines(Decode(file.bytes)), matches, limit);
    r := Some(Parsed(NonBlank(found), parse));
    RecordsNonBlank(found, parse);
  }
}

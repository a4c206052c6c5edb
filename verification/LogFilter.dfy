/**
 The line filter of the log tailer (sendFiltered in agent/internal/logtailer/tailer.go), with the
 scanner it uses: lines end at '\n', one trailing '\r' is dropped, and a line that does not fit the
 scanner's 64 KB buffer together with its terminator ends the scan.
 */
module LogFilter {
  import opened Units

  const NL: bv8 := 10
  const CR: bv8 := 13
  const MAX_LINE := 64 * 1024 - 1

  /** The position of the first newline, or the length when there is none. */
  function LineEnd(data: Bytes): (i: nat)
    ensures i <= |data| && (forall k :: 0 <= k < i ==> data[k] != NL) && (i < |data| ==> data[i] == NL)
  {
    if data == [] || data[0] == NL then 0 else 1 + LineEnd(data[1..])
  }

  function DropCR(line: Bytes): Bytes {
    if line != [] && line[|line| - 1] == CR then line[..|line| - 1] else line
  }

  /** The lines the scanner returns. */
  function Scan(data: Bytes): seq<Bytes> {
    if data == [] || LineEnd(data) > MAX_LINE then []
    else if LineEnd(data) == |data| then [DropCR(data)]
    else [DropCR(data[..LineEnd(data)])] + Scan(data[LineEnd(data) + 1..])
  }

  /** Every line, with its terminator, fits the scanner, and the last one is terminated. */
  predicate Clean(data: Bytes) {
    data == [] || (LineEnd(data) < |data| && LineEnd(data) <= MAX_LINE && Clean(data[LineEnd(data) + 1..]))
  }

  // ---- scanning in pieces ----

  lemma LineEndOfSum(a: Bytes, b: Bytes)
    ensures LineEnd(a) < |a| ==> LineEnd(a + b) == LineEnd(a)
    ensures LineEnd(a) == |a| ==> LineEnd(a + b) >= |a|
  {
    var i, j := LineEnd(a), LineEnd(a + b);
    assert forall k :: 0 <= k < |a| ==> (a + b)[k] == a[k];
  }

  lemma Regroup(line: Bytes, x: seq<Bytes>, y: seq<Bytes>)
    ensures [line] + (x + y) == [line] + x + y
  {
  }

  /** The first line of a sum is the first line of its first summand. */
  lemma FirstOfSum(a: Bytes, b: Bytes, sum: Bytes, i: nat)
    requires i == LineEnd(a) < |a| && sum == a + b
    ensures LineEnd(sum) == i && i < |sum| && sum[..i] == a[..i] && sum[i + 1..] == a[i + 1..] + b
  {
    LineEndOfSum(a, b);
  }

  lemma ScanLine(data: Bytes, i: nat, line: Bytes, tail: Bytes)
    requires data != [] && i == LineEnd(data) < |data| && i <= MAX_LINE && line == data[..i] && tail == data[i + 1..]
    ensures Scan(data) == [DropCR(line)] + Scan(tail)
  {
  }

  lemma ScanNothing(data: Bytes)
    requires data == []
    ensures Scan(data) == []
  {
  }

  lemma {:induction false} ScanOfSum(a: Bytes, b: Bytes, sum: Bytes)
    requires Clean(a) && sum == a + b
    ensures Scan(sum) == Scan(a) + Scan(b)
  {
    if a == [] {
      ScanNothing(a);
      assert sum == b;
    } else {
      var i := LineEnd(a);
      var line, tail := a[..i], a[i + 1..];
      FirstOfSum(a, b, sum, i);
      ScanOfSum(tail, b, tail + b);
      ScanLine(sum, i, line, tail + b);
      ScanLine(a, i, line, tail);
      Regroup(DropCR(line), Scan(tail), Scan(b));
    }
  }

  lemma CleanSplits(a: Bytes, b: Bytes)
    requires Clean(a)
    ensures Scan(a + b) == Scan(a) + Scan(b)
  {
    ScanOfSum(a, b, a + b);
  }

  /** One more byte after a piece that is not clean never yields one more line. */
  lemma {:induction false} UncleanSwallows(a: Bytes, x: bv8)
    requires !Clean(a)
    ensures |Scan(a + [x])| <= |Scan(a)|
  {
    var i := LineEnd(a);
    LineEndOfSum(a, [x]);
    if i < |a| && i <= MAX_LINE {
      UncleanSwallows(a[i + 1..], x);
      assert (a + [x])[i + 1..] == a[i + 1..] + [x] && (a + [x])[..i] == a[..i];
    } else if i == |a| && LineEnd(a + [x]) == |a| < MAX_LINE + 1 {
      assert (a + [x])[|a| + 1..] == [];
    }
  }

  ghost predicate Splits(a: Bytes) {
    forall b :: Scan(a + b) == Scan(a) + Scan(b)
  }

  /** Scanning a first piece separately changes nothing, whatever follows, exactly when the piece is clean. */
  lemma SplitsIffClean(a: Bytes)
    ensures Splits(a) <==> Clean(a)
  {
    if Clean(a) {
      forall b ensures Scan(a + b) == Scan(a) + Scan(b) { CleanSplits(a, b); }
    } else {
      UncleanSwallows(a, 0);
      assert LineEnd([0]) == 1 && |Scan([0])| == 1;
      assert Scan(a + [0]) != Scan(a) + Scan([0]);
    }
  }

  // ---- what the filter keeps ----

  /** What is searched in each line, after both are lowered; `lower` stands for the case mapping of the runtime. */
  datatype Grep = Grep(lower: Bytes -> Bytes, pattern: Bytes)

  predicate Contains(s: Bytes, p: Bytes) {
    exists i {:trigger s[i..]} :: 0 <= i <= |s| && p <= s[i..]
  }

  /** Searching a line: the pattern stands somewhere in it. */
  lemma ContainsIff(s: Bytes, p: Bytes)
    ensures Contains(s, p) <==> exists a, b :: s == a + p + b
  {
    if i :| 0 <= i <= |s| && p <= s[i..] {
      assert s == s[..i] + p + s[i..][|p|..];
    }
    if a, b :| s == a + p + b {
      assert s[|a|..] == p + b;
      assert p <= s[|a|..];
    }
  }

  predicate Matches(g: Grep, line: Bytes) {
    Contains(g.lower(line), g.pattern)
  }

  function Matching(g: Grep, lines: seq<Bytes>): seq<Bytes> {
    if lines == [] then [] else
    var rest := Matching(g, lines[1..]);
    if Matches(g, lines[0]) then [lines[0]] + rest else rest
  }

  /** Each line followed by a newline. */
  function Join(lines: seq<Bytes>): Bytes {
    if lines == [] then [] else lines[0] + [NL] + Join(lines[1..])
  }

  function Filtered(g: Grep, data: Bytes): Bytes {
    if g.pattern == [] then data else Join(Matching(g, Scan(data)))
  }

  lemma {:induction false} MatchingSum(g: Grep, a: seq<Bytes>, b: seq<Bytes>)
    ensures Matching(g, a + b) == Matching(g, a) + Matching(g, b)
  {
    if a == [] {
      assert a + b == b;
    } else {
      MatchingSum(g, a[1..], b);
      assert (a + b)[1..] == a[1..] + b;
    }
  }

  lemma {:induction false} JoinSum(a: seq<Bytes>, b: seq<Bytes>)
    ensures Join(a + b) == Join(a) + Join(b)
  {
    if a == [] {
      assert a + b == b;
    } else {
      JoinSum(a[1..], b);
      assert (a + b)[1..] == a[1..] + b;
      assert a[0] + [NL] + (Join(a[1..]) + Join(b)) == (a[0] + [NL] + Join(a[1..])) + Join(b);
    }
  }

  lemma FilteredSum(g: Grep, a: Bytes, b: Bytes)
    requires Clean(a)
    ensures Filtered(g, a + b) == Filtered(g, a) + Filtered(g, b)
  {
    CleanSplits(a, b);
    MatchingSum(g, Scan(a), Scan(b));
    JoinSum(Matching(g, Scan(a)), Matching(g, Scan(b)));
  }

  /** The pieces one after the other. */
  function Whole(pieces: seq<Bytes>): Bytes {
    if pieces == [] then [] else pieces[0] + Whole(pieces[1..])
  }

  function FilteredEach(g: Grep, pieces: seq<Bytes>): Bytes {
    if pieces == [] then [] else Filtered(g, pieces[0]) + FilteredEach(g, pieces[1..])
  }

  /** Filtering chunk by chunk is filtering the whole text, when the chunks end at newlines and their lines fit. */
  lemma {:induction false} ChunkwiseIsWhole(g: Grep, pieces: seq<Bytes>)
    requires forall i :: 0 <= i < |pieces| ==> Clean(pieces[i])
    ensures FilteredEach(g, pieces) == Filtered(g, Whole(pieces))
  {
    if pieces != [] {
      ChunkwiseIsWhole(g, pieces[1..]);
      FilteredSum(g, pieces[0], Whole(pieces[1..]));
    }
  }

  // ---- the filter against a plain list of lines ----

  predicate IsLine(line: Bytes) {
    NL !in line && |line| <= MAX_LINE
  }

  function WithoutCRs(lines: seq<Bytes>): seq<Bytes> {
    if lines == [] then [] else [DropCR(lines[0])] + WithoutCRs(lines[1..])
  }

  /** Scanning inverts joining, up to one carriage return per line. */
  lemma {:induction false} ScanInvertsJoin(lines: seq<Bytes>)
    requires forall i :: 0 <= i < |lines| ==> IsLine(lines[i])
    ensures Scan(Join(lines)) == WithoutCRs(lines) && Clean(Join(lines))
  {
    if lines != [] {
      ScanInvertsJoin(lines[1..]);
      var data := Join(lines);
      var rest := Join(lines[1..]);
      assert data[|lines[0]|] == NL && data[..|lines[0]|] == lines[0] && data[|lines[0]| + 1..] == rest;
      assert IsLine(lines[0]);
      assert forall k :: 0 <= k < |lines[0]| ==> data[k] == lines[0][k] != NL;
      assert LineEnd(data) == |lines[0]|;
    }
  }

  function WithCRs(lines: seq<Bytes>): seq<Bytes> {
    if lines == [] then [] else [lines[0] + [CR]] + WithCRs(lines[1..])
  }

  /** Lines that end in a carriage return and a newline are given back without either. */
  lemma {:induction false} ScanDropsCRs(lines: seq<Bytes>)
    requires forall i :: 0 <= i < |lines| ==> NL !in lines[i] && |lines[i]| < 65535
    ensures Scan(Join(WithCRs(lines))) == lines
  {
    if lines != [] {
      var line, rest := lines[0], lines[1..];
      ScanDropsCRs(rest);
      assert NL !in line + [CR];
      ScanOfJoined(line + [CR], WithCRs(rest));
      assert (line + [CR])[..|line|] == line;
      assert lines == [line] + rest;
    }
  }

  /** The longest line that is scanned has 65535 bytes; it need not be terminated. */
  lemma LongestLine(line: Bytes)
    requires line != [] && NL !in line && line[|line| - 1] != CR
    ensures Scan(line + [NL]) == Scan(line) == if |line| <= 65535 then [line] else []
  {
    var data := line + [NL];
    assert data[|line|] == NL && forall k :: 0 <= k < |line| ==> data[k] == line[k] != NL;
    assert LineEnd(data) == LineEnd(line) == |line| && data[..|line|] == line && data[|line| + 1..] == [];
  }

  lemma {:induction false} NoCRsToDrop(lines: seq<Bytes>)
    requires forall i :: 0 <= i < |lines| ==> DropCR(lines[i]) == lines[i]
    ensures WithoutCRs(lines) == lines
  {
    if lines != [] {
      NoCRsToDrop(lines[1..]);
    }
  }

  /** On lines that fit and do not end in a carriage return the filter is grep: the matching lines, in order, unchanged. */
  lemma FilterIsGrep(g: Grep, lines: seq<Bytes>)
    requires g.pattern != []
    requires forall i :: 0 <= i < |lines| ==> IsLine(lines[i]) && DropCR(lines[i]) == lines[i]
    ensures Filtered(g, Join(lines)) == Join(Matching(g, lines))
  {
    ScanInvertsJoin(lines);
    NoCRsToDrop(lines);
  }

  predicate NoNewlines(lines: seq<Bytes>) {
    forall i :: 0 <= i < |lines| ==> NL !in lines[i]
  }

  /** The scanner gives the line back: it fits, and no carriage return ends it. */
  predicate Kept(line: Bytes) {
    |line| <= MAX_LINE && DropCR(line) == line
  }

  predicate AllKept(lines: seq<Bytes>) {
    forall i :: 0 <= i < |lines| ==> Kept(lines[i])
  }

  lemma ScanOfJoined(line: Bytes, rest: seq<Bytes>)
    requires NL !in line
    ensures Scan(Join([line] + rest)) == if |line| <= MAX_LINE then [DropCR(line)] + Scan(Join(rest)) else []
  {
    var data := Join([line] + rest);
    assert ([line] + rest)[1..] == rest && data == line + [NL] + Join(rest);
    assert data[|line|] == NL;
    assert forall k :: 0 <= k < |line| ==> data[k] == line[k] != NL;
    assert LineEnd(data) == |line| && data[..|line|] == line && data[|line| + 1..] == Join(rest);
  }

  /** The scanner gives a list of lines back exactly when every one of them fits and none ends in a carriage return. */
  lemma {:induction false} ScanReturnsLinesIff(lines: seq<Bytes>)
    requires NoNewlines(lines)
    ensures Scan(Join(lines)) == lines <==> AllKept(lines)
  {
    if lines != [] {
      var line, rest := lines[0], lines[1..];
      assert lines == [line] + rest;
      ScanOfJoined(line, rest);
      ScanReturnsLinesIff(rest);
      HeadKept(line, rest);
      if |line| <= MAX_LINE {
        SameHeads(DropCR(line), Scan(Join(rest)), line, rest);
      }
    }
  }

  lemma HeadKept(line: Bytes, rest: seq<Bytes>)
    ensures AllKept([line] + rest) <==> Kept(line) && AllKept(rest)
  {
    var lines := [line] + rest;
    assert lines[0] == line && forall i :: 0 <= i < |rest| ==> rest[i] == lines[i + 1];
  }

  lemma SameHeads(x: Bytes, xs: seq<Bytes>, y: Bytes, ys: seq<Bytes>)
    ensures [x] + xs == [y] + ys <==> x == y && xs == ys
  {
    assert ([x] + xs)[0] == x && ([x] + xs)[1..] == xs && ([y] + ys)[0] == y && ([y] + ys)[1..] == ys;
  }

  // ---- when the filter is grep ----

  lemma {:induction false} JoinIsInjective(a: seq<Bytes>, b: seq<Bytes>)
    requires NoNewlines(a) && NoNewlines(b) && Join(a) == Join(b)
    ensures a == b
  {
    if a != [] && b != [] {
      assert a == [a[0]] + a[1..] && b == [b[0]] + b[1..];
      FirstJoined(a);
      FirstJoined(b);
      JoinIsInjective(a[1..], b[1..]);
    }
  }

  lemma LineEndAt(data: Bytes, n: nat)
    requires n < |data| && data[n] == NL && forall k :: 0 <= k < n ==> data[k] != NL
    ensures LineEnd(data) == n
  {
  }

  lemma LineFirst(line: Bytes, rest: Bytes, data: Bytes)
    requires NL !in line && data == line + [NL] + rest
    ensures LineEnd(data) == |line| < |data| && data[..|line|] == line && data[|line| + 1..] == rest
  {
    assert forall k :: 0 <= k < |line| ==> data[k] == line[k] != NL;
    LineEndAt(data, |line|);
  }

  lemma FirstJoined(a: seq<Bytes>)
    requires NoNewlines(a) && a != []
    ensures var data := Join(a); LineEnd(data) == |a[0]| < |data| && data[..|a[0]|] == a[0] && data[|a[0]| + 1..] == Join(a[1..])
  {
    LineFirst(a[0], Join(a[1..]), Join(a));
  }

  lemma {:induction false} ScannedHasNoNewlines(data: Bytes)
    ensures NoNewlines(Scan(data))
    decreases |data|
  {
    if data != [] && LineEnd(data) <= MAX_LINE {
      var i := LineEnd(data);
      assert NL !in data[..i];
      assert i == |data| ==> data[..i] == data;
      if i < |data| {
        ScannedHasNoNewlines(data[i + 1..]);
      }
    }
  }

  /** A grep that every line matches. */
  function MatchAll(): Grep { Grep(_ => [0], [0]) }

  lemma {:induction false} AllMatch(lines: seq<Bytes>)
    ensures Matching(MatchAll(), lines) == lines
  {
    if lines != [] {
      AllMatch(lines[1..]);
      var s: Bytes := [0];
      assert s <= s[0..];
      assert Matches(MatchAll(), lines[0]);
    }
  }

  ghost predicate IsGrepFor(lines: seq<Bytes>) {
    forall g: Grep :: g.pattern != [] ==> Filtered(g, Join(lines)) == Join(Matching(g, lines))
  }

  /**
   For lines given as text the filter is grep, whatever the pattern and the case mapping, exactly when
   every line fits the scanner and none ends in a carriage return.
   */
  lemma FilterIsGrepIff(lines: seq<Bytes>)
    requires NoNewlines(lines)
    ensures IsGrepFor(lines) <==> AllKept(lines)
  {
    ScanReturnsLinesIff(lines);
    if !AllKept(lines) && IsGrepFor(lines) {
      var g := MatchAll();
      assert g.pattern != [];
      AllMatch(lines);
      AllMatch(Scan(Join(lines)));
      ScannedHasNoNewlines(Join(lines));
      JoinIsInjective(Scan(Join(lines)), lines);
    }
  }

  /** A single over-long line hides every line after it, matching or not. */
  lemma OverlongLineHidesTheRest(g: Grep, before: Bytes, long: Bytes, after: Bytes)
    requires Clean(before) && LineEnd(long) > MAX_LINE && g.pattern != []
    ensures Filtered(g, before + (long + after)) == Filtered(g, before)
  {
    LineEndOfSum(long, after);
    FilteredSum(g, before, long + after);
    assert Scan(long + after) == [];
  }

  // ---- the loops ----

  method IndexNewline(data: Bytes, start: nat) returns (i: nat)
    requires start <= |data|
    ensures start <= i <= |data| && i - start == LineEnd(data[start..])
  {
    i := start;
    while i < |data| && data[i] != NL
      invariant start <= i <= |data|
      invariant forall k :: start <= k < i ==> data[k] != NL
    {
      i := i + 1;
    }
    var j := LineEnd(data[start..]);
    assert start + j < |data| ==> data[start + j] == data[start..][j];
    assert i < |data| ==> data[start..][i - start] == NL;
  }

  /** What the scan has still to look at after the line that ends at `end`. */
  function After(data: Bytes, end: nat): Bytes
    requires end <= |data|
  {
    if end < |data| then data[end + 1..] else []
  }

  lemma NextLine(data: Bytes, pos: nat, end: nat, left: Bytes)
    requires pos < |data| && pos <= end <= |data| && left == data[pos..]
    requires end - pos == LineEnd(left) <= MAX_LINE
    ensures Scan(left) == [DropCR(data[pos..end])] + Scan(After(data, end))
  {
    var line, k := data[pos..end], end - pos;
    assert left[..k] == line;
    if end < |data| {
      assert left[k + 1..] == data[end + 1..];
      ScanLine(left, k, line, data[end + 1..]);
    } else {
      assert left == line;
    }
  }

  /** The scan so far has produced `out`, and `left` is what it has not looked at. */
  predicate Progress(g: Grep, data: Bytes, out: Bytes, left: Bytes) {
    Join(Matching(g, Scan(data))) == out + Join(Matching(g, Scan(left)))
  }

  lemma LineDone(g: Grep, data: Bytes, out: Bytes, left: Bytes, line: Bytes, next: Bytes)
    requires Progress(g, data, out, left) && Scan(left) == [line] + Scan(next)
    ensures Progress(g, data, if Matches(g, line) then out + (line + [NL]) else out, next)
  {
    FirstLine(g, line, Scan(next));
    var rest := Join(Matching(g, Scan(next)));
    assert out + (line + [NL] + rest) == out + (line + [NL]) + rest;
  }

  /** The scanner loop of sendFiltered; nothing is sent when nothing is left. */
  method FilterLines(data: Bytes, g: Grep) returns (out: Bytes)
    ensures out == Filtered(g, data)
  {
    if g.pattern == [] {
      return data;
    }
    out := [];
    var pos := 0;
    ghost var left := data;
    assert data[0..] == data;
    while pos < |data|
      invariant pos <= |data| && left == data[pos..]
      invariant Progress(g, data, out, left)
      decreases |data| - pos
    {
      var end := IndexNewline(data, pos);
      if end - pos > MAX_LINE {
        assert Scan(left) == [];
        return;
      }
      NextLine(data, pos, end, left);
      var line := DropCR(data[pos..end]);
      LineDone(g, data, out, left, line, After(data, end));
      if Matches(g, line) {
        out := out + (line + [NL]);
      }
      pos := if end < |data| then end + 1 else end;
      left := After(data, end);
    }
  }

  lemma FirstLine(g: Grep, line: Bytes, rest: seq<Bytes>)
    ensures Join(Matching(g, [line] + rest)) ==
            if Matches(g, line) then line + [NL] + Join(Matching(g, rest)) else Join(Matching(g, rest))
  {
    MatchingSum(g, [line], rest);
    assert Matching(g, [line]) == if Matches(g, line) then [line] else [];
    JoinSum(Matching(g, [line]), Matching(g, rest));
    assert Join([line]) == line + [NL];
  }
}

/**
 What the tailer delivers when scans cut lines, for any way the file grows and any number of cuts: a line
 that a scan catches half-written is read in pieces and lost, and every other line is read whole.
 */
module CanonCuts {
  import opened Core
  import opened Text
  import opened CanonTail

  /** All these files are beginnings of `text`, each of the next. */
  ghost predicate Prefixes(files: seq<string>, text: string) {
    Growing(files) && forall k :: 0 <= k < |files| ==> files[k] <= text
  }

  /** Some scan came when part of the first `n` bytes was there, but neither none nor all of them. */
  ghost predicate CutBy(files: seq<string>, n: nat) {
    exists k :: 0 <= k < |files| && 0 < |files[k]| < n
  }

  /** A part of the line that is not all of it. */
  ghost predicate Piece(x: string, line: string) {
    exists a, b :: 0 <= a <= b <= |line| && b - a < |line| && x == line[a..b]
  }

  ghost predicate AllPieces(xs: seq<string>, line: string) {
    forall i :: 0 <= i < |xs| ==> Piece(xs[i], line)
  }

  lemma PrefixesFront(files: seq<string>, file: string, text: string)
    requires Prefixes(files + [file], text)
    ensures Prefixes(files, text) && file <= text && (files != [] ==> files[|files| - 1] <= file)
  {
    var all := files + [file];
    assert all[|files|] == file;
    forall k | 0 <= k < |files| ensures files[k] <= text {
      assert all[k] == files[k];
    }
    forall k | 0 < k < |files| ensures files[k - 1] <= files[k] {
      assert all[k - 1] <= all[k];
    }
    if files != [] {
      assert all[|files| - 1] <= all[|files|];
    }
  }

  lemma CutBySnoc(files: seq<string>, file: string, n: nat)
    ensures CutBy(files + [file], n) <==> CutBy(files, n) || 0 < |file| < n
  {
    var all := files + [file];
    assert all[|files|] == file;
    if CutBy(files, n) {
      var k :| 0 <= k < |files| && 0 < |files[k]| < n;
      assert all[k] == files[k];
    }
  }

  // ----- Within the first line -----

  /** What has been read, and where the offset is, while no scan has seen more than this line. */
  ghost predicate Inside(files: seq<string>, line: string) {
    if CutBy(files, |line|) then AllPieces(ReadAll(files), line) && 0 < OffsetAfter(files) <= |line| + 1
    else if files != [] && files[|files| - 1] == line && line != "" then
      ReadAll(files) == [line] && OffsetAfter(files) == |line| + 1
    else ReadAll(files) == [] && OffsetAfter(files) == 0
  }

  lemma ReadInside(offset: nat, file: string, line: string)
    requires file <= line && '\n' !in line
    ensures Read(offset, file) == if offset < |file| then [line[offset..|file|]] else []
    ensures Next(offset, file) == if offset < |file| then |file| + 1 else offset
  {
    if offset < |file| {
      var rest := file[offset..];
      assert rest == line[offset..|file|];
      forall c | c in rest ensures c != '\n' {
        assert c in line;
      }
      UnfinishedLine(rest);
    }
  }

  lemma PiecesSnoc(xs: seq<string>, line: string, a: nat, b: nat)
    requires AllPieces(xs, line) && a <= b <= |line| && b - a < |line|
    ensures AllPieces(xs + [line[a..b]], line)
  {
    var x := line[a..b];
    assert Piece(x, line);
    forall i | 0 <= i < |xs + [x]| ensures Piece((xs + [x])[i], line) {
      if i < |xs| {
        assert (xs + [x])[i] == xs[i];
      }
    }
  }

  lemma InsideNext(files: seq<string>, file: string, line: string)
    requires '\n' !in line && Prefixes(files + [file], line) && Inside(files, line)
    ensures Inside(files + [file], line)
  {
    PrefixesFront(files, file, line);
    CutBySnoc(files, file, |line|);
    ReadsNextInside(files, file, line);
    if CutBy(files, |line|) {
      MorePieces(files, file, line);
    } else if files != [] && files[|files| - 1] == line && line != "" {
      WholeAgain(files, file, line);
    } else {
      FirstRead(files, file, line);
    }
  }

  lemma ReadsNextInside(files: seq<string>, file: string, line: string)
    requires '\n' !in line && file <= line
    ensures
      var t := OffsetAfter(files);
      && ReadAll(files + [file]) == ReadAll(files) + (if t < |file| then [line[t..|file|]] else [])
      && OffsetAfter(files + [file]) == (if t < |file| then |file| + 1 else t)
  {
    ReadAllSnoc(files, file);
    ReadInside(OffsetAfter(files), file, line);
  }

  lemma WholeAgain(files: seq<string>, file: string, line: string)
    requires file == line && line != "" && !CutBy(files + [file], |line|)
    requires ReadAll(files) == [line] && OffsetAfter(files) == |line| + 1
    requires ReadAll(files + [file]) == ReadAll(files) + [] && OffsetAfter(files + [file]) == OffsetAfter(files)
    ensures Inside(files + [file], line)
  {
    assert (files + [file])[|files|] == file;
  }

  lemma MorePieces(files: seq<string>, file: string, line: string)
    requires file <= line && CutBy(files, |line|) && CutBy(files + [file], |line|) && Inside(files, line)
    requires ReadAll(files + [file]) ==
             ReadAll(files) + if OffsetAfter(files) < |file| then [line[OffsetAfter(files)..|file|]] else []
    requires OffsetAfter(files + [file]) == if OffsetAfter(files) < |file| then |file| + 1 else OffsetAfter(files)
    ensures Inside(files + [file], line)
  {
    if OffsetAfter(files) < |file| {
      PiecesSnoc(ReadAll(files), line, OffsetAfter(files), |file|);
    } else {
      assert ReadAll(files) + [] == ReadAll(files);
    }
  }

  lemma FirstRead(files: seq<string>, file: string, line: string)
    requires file <= line && ReadAll(files) == [] && OffsetAfter(files) == 0 && !CutBy(files, |line|)
    requires ReadAll(files + [file]) == ReadAll(files) + if 0 < |file| then [line[0..|file|]] else []
    requires OffsetAfter(files + [file]) == if 0 < |file| then |file| + 1 else 0
    requires CutBy(files + [file], |line|) <==> 0 < |file| < |line|
    ensures Inside(files + [file], line)
  {
    var all := files + [file];
    assert all[|all| - 1] == file;
    if 0 < |file| < |line| {
      PiecesSnoc([], line, 0, |file|);
      assert [] + [line[0..|file|]] == [line[0..|file|]];
    } else if file == line {
      assert line[0..|file|] == line;
    }
  }

  lemma {:induction false} StaysInside(files: seq<string>, line: string)
    requires '\n' !in line && Prefixes(files, line)
    ensures Inside(files, line)
    decreases |files|
  {
    if files != [] {
      var front, last := files[..|files| - 1], files[|files| - 1];
      assert files == front + [last];
      PrefixesFront(front, last, line);
      StaysInside(front, line);
      InsideNext(front, last, line);
    }
  }

  // ----- Behind the first line -----

  /** What the files that reach behind the first `n` bytes and a newline hold there. */
  function Beyond(files: seq<string>, n: nat): seq<string> {
    if files == [] then [] else
      var front, last := files[..|files| - 1], files[|files| - 1];
      Beyond(front, n) + if |last| > n then [last[n + 1..]] else []
  }

  /** The first line is read whole or, if it is cut, in pieces; what lies behind it is read as if it were all there is. */
  ghost predicate Split(files: seq<string>, line: string, pieces: seq<string>) {
    && (if CutBy(files, |line|) then AllPieces(pieces, line) else pieces == [line])
    && ReadAll(files) == pieces + ReadAll(Beyond(files, |line|))
    && OffsetAfter(files) == |line| + 1 + OffsetAfter(Beyond(files, |line|))
  }

  lemma BeyondSnoc(files: seq<string>, file: string, n: nat)
    ensures Beyond(files + [file], n) == Beyond(files, n) + if |file| > n then [file[n + 1..]] else []
  {
    assert (files + [file])[..|files|] == files;
  }

  lemma {:induction false} BeyondNothing(files: seq<string>, n: nat)
    requires forall k :: 0 <= k < |files| ==> |files[k]| <= n
    ensures Beyond(files, n) == []
  {
    if files != [] {
      BeyondNothing(files[..|files| - 1], n);
    }
  }

  /** The scan that first reaches behind the line reads what is left of the line, and then the rest. */
  lemma ReadAcross(offset: nat, line: string, rest: string)
    requires '\n' !in line && offset <= |line| + 1
    ensures Read(offset, line + "\n" + rest) == (if offset <= |line| then [line[offset..]] else []) + Lines(rest)
    ensures Next(offset, line + "\n" + rest) == |line| + 1 + Advance(rest)
  {
    var file := line + "\n" + rest;
    if offset <= |line| {
      RestOfLine(offset, line, rest, file);
      LinesOfRest(line[offset..], rest);
      AdvanceOfRest(line[offset..], rest);
    } else {
      assert file[offset..] == rest;
      assert [] + Lines(rest) == Lines(rest);
    }
  }

  lemma RestOfLine(offset: nat, line: string, rest: string, file: string)
    requires offset <= |line| && file == line + "\n" + rest
    ensures file[offset..] == line[offset..] + "\n" + rest
  {
  }

  lemma AdvanceOfRest(left: string, rest: string)
    ensures Advance(left + "\n" + rest) == |left| + 1 + Advance(rest)
  {
    var text := left + "\n" + rest;
    if rest == "" {
      assert text[|text| - 1] == '\n';
    } else {
      assert text[|text| - 1] == rest[|rest| - 1];
    }
  }

  lemma Assoc(a: seq<string>, b: seq<string>, c: seq<string>)
    ensures a + (b + c) == (a + b) + c
  {
  }

  lemma FirstCrossing(files: seq<string>, line: string, rest: string, file: string) returns (pieces: seq<string>)
    requires '\n' !in line && Prefixes(files, line) && file == line + "\n" + rest
    ensures Split(files + [file], line, pieces)
  {
    StaysInside(files, line);
    var left := if OffsetAfter(files) <= |line| then [line[OffsetAfter(files)..]] else [];
    pieces := ReadAll(files) + left;
    PiecesAcross(files, line, pieces);
    CutBySnoc(files, file, |line|);
    CrossingReads(files, line, rest, file);
    CrossingBeyond(files, line, rest, file);
    Assoc(ReadAll(files), left, Lines(rest));
  }

  lemma PiecesAcross(files: seq<string>, line: string, pieces: seq<string>)
    requires Inside(files, line) && OffsetAfter(files) <= |line| + 1
    requires pieces == ReadAll(files) + if OffsetAfter(files) <= |line| then [line[OffsetAfter(files)..]] else []
    ensures if CutBy(files, |line|) then AllPieces(pieces, line) else pieces == [line]
  {
    var t := OffsetAfter(files);
    if CutBy(files, |line|) {
      if t <= |line| {
        PiecesSnoc(ReadAll(files), line, t, |line|);
        assert line[t..|line|] == line[t..];
      } else {
        assert pieces == ReadAll(files);
      }
    } else {
      assert line[0..] == line;
    }
  }

  lemma CrossingReads(files: seq<string>, line: string, rest: string, file: string)
    requires '\n' !in line && OffsetAfter(files) <= |line| + 1 && file == line + "\n" + rest
    ensures
      var t := OffsetAfter(files);
      && ReadAll(files + [file]) == ReadAll(files) + ((if t <= |line| then [line[t..]] else []) + Lines(rest))
      && OffsetAfter(files + [file]) == |line| + 1 + Advance(rest)
  {
    ReadAllSnoc(files, file);
    ReadAcross(OffsetAfter(files), line, rest);
  }

  lemma CrossingBeyond(files: seq<string>, line: string, rest: string, file: string)
    requires Prefixes(files, line) && file == line + "\n" + rest
    ensures Beyond(files + [file], |line|) == [rest]
    ensures ReadAll(Beyond(files + [file], |line|)) == Lines(rest)
    ensures OffsetAfter(Beyond(files + [file], |line|)) == Advance(rest)
  {
    BeyondNothing(files, |line|);
    BeyondSnoc(files, file, |line|);
    assert file[|line| + 1..] == rest;
    assert [] + [rest] == [rest];
    ReadOne(rest);
  }

  lemma NextShifted(files: seq<string>, line: string, rest: string, file: string, pieces: seq<string>)
    requires Split(files, line, pieces) && file == line + "\n" + rest
    ensures Split(files + [file], line, pieces)
  {
    var beyond := Beyond(files, |line|);
    var t := OffsetAfter(beyond);
    CutBySnoc(files, file, |line|);
    ShiftedBeyond(files, line, rest, file);
    ShiftedNext(files, line, rest, file, t);
    ReadAllSnoc(beyond, rest);
    SplitGrows(files, files + [file], line, pieces, beyond + [rest], Read(t, rest), Next(t, rest));
  }

  lemma ShiftedNext(files: seq<string>, line: string, rest: string, file: string, t: nat)
    requires OffsetAfter(files) == |line| + 1 + t && file == line + "\n" + rest
    ensures ReadAll(files + [file]) == ReadAll(files) + Read(t, rest)
    ensures OffsetAfter(files + [file]) == |line| + 1 + Next(t, rest)
  {
    ReadAllSnoc(files, file);
    ShiftedRead(t, line, rest, file);
  }

  lemma SplitGrows(files: seq<string>, more: seq<string>, line: string, pieces: seq<string>, beyond: seq<string>,
                   read: seq<string>, offset: nat)
    requires Split(files, line, pieces) && Beyond(more, |line|) == beyond && (CutBy(more, |line|) <==> CutBy(files, |line|))
    requires ReadAll(more) == ReadAll(files) + read && OffsetAfter(more) == |line| + 1 + offset
    requires ReadAll(beyond) == ReadAll(Beyond(files, |line|)) + read && OffsetAfter(beyond) == offset
    ensures Split(more, line, pieces)
  {
    Assoc(pieces, ReadAll(Beyond(files, |line|)), read);
  }

  lemma ShiftedBeyond(files: seq<string>, line: string, rest: string, file: string)
    requires file == line + "\n" + rest
    ensures Beyond(files + [file], |line|) == Beyond(files, |line|) + [rest]
  {
    BeyondSnoc(files, file, |line|);
    assert file[|line| + 1..] == rest;
  }

  lemma ShiftedRead(offset: nat, line: string, rest: string, file: string)
    requires file == line + "\n" + rest
    ensures Read(|line| + 1 + offset, file) == Read(offset, rest)
    ensures Next(|line| + 1 + offset, file) == |line| + 1 + Next(offset, rest)
  {
    if offset <= |rest| {
      assert file[|line| + 1 + offset..] == rest[offset..];
    }
  }

  lemma {:induction false} LengthsRise(files: seq<string>, text: string, k: nat)
    requires Prefixes(files, text) && k < |files|
    ensures |files[k]| <= |files[|files| - 1]|
    decreases |files|
  {
    if k < |files| - 1 {
      var front, last := files[..|files| - 1], files[|files| - 1];
      assert files == front + [last];
      PrefixesFront(front, last, text);
      LengthsRise(front, text, k);
    }
  }

  lemma StillWithin(files: seq<string>, line: string, rest: string)
    requires Prefixes(files, line + "\n" + rest) && (files != [] ==> |files[|files| - 1]| <= |line|)
    ensures Prefixes(files, line)
  {
    forall k | 0 <= k < |files| ensures files[k] <= line {
      LengthsRise(files, line + "\n" + rest, k);
      assert files[k] == (line + "\n" + rest)[..|files[k]|];
      assert line[..|files[k]|] == (line + "\n" + rest)[..|files[k]|];
    }
  }

  lemma CutBehind(file: string, line: string, rest: string) returns (tail: string)
    requires file <= line + "\n" + rest && |file| > |line|
    ensures file == line + "\n" + tail && tail <= rest && tail == file[|line| + 1..]
  {
    var text := line + "\n" + rest;
    tail := file[|line| + 1..];
    assert file == text[..|file|];
    assert text[..|file|] == line + "\n" + rest[..|file| - |line| - 1];
    assert tail == rest[..|file| - |line| - 1];
  }

  /** Scans that have reached behind the first line. */
  lemma {:induction false} FirstLineSplitsOff(files: seq<string>, line: string, rest: string) returns (pieces: seq<string>)
    requires '\n' !in line && Prefixes(files, line + "\n" + rest) && files != [] && |files[|files| - 1]| > |line|
    ensures Split(files, line, pieces)
    decreases |files|
  {
    var front, last := SplitLast(files);
    PrefixesFront(front, last, line + "\n" + rest);
    var tail := CutBehind(last, line, rest);
    if front == [] || |front[|front| - 1]| <= |line| {
      StillWithin(front, line, rest);
      pieces := FirstCrossing(front, line, tail, last);
    } else {
      pieces := FirstLineSplitsOff(front, line, rest);
      NextShifted(front, line, tail, last, pieces);
    }
  }

  lemma SplitLast(files: seq<string>) returns (front: seq<string>, last: string)
    requires files != []
    ensures files == front + [last] && last == files[|files| - 1]
  {
    front, last := files[..|files| - 1], files[|files| - 1];
  }

  lemma {:induction false} BeyondPrefixes(files: seq<string>, line: string, rest: string)
    requires Prefixes(files, line + "\n" + rest)
    ensures Prefixes(Beyond(files, |line|), rest)
    ensures files != [] && |files[|files| - 1]| > |line| ==>
              Beyond(files, |line|) != [] && Beyond(files, |line|)[|Beyond(files, |line|)| - 1] == files[|files| - 1][|line| + 1..]
    decreases |files|
  {
    if files != [] {
      var front, last := files[..|files| - 1], files[|files| - 1];
      assert files == front + [last];
      PrefixesFront(front, last, line + "\n" + rest);
      BeyondPrefixes(front, line, rest);
      BeyondSnoc(front, last, |line|);
      if |last| > |line| {
        BeyondPrefixesNext(front, last, line, rest);
      } else {
        assert Beyond(front, |line|) + [] == Beyond(front, |line|);
      }
    }
  }

  lemma BeyondPrefixesNext(files: seq<string>, file: string, line: string, rest: string)
    requires Prefixes(files, line + "\n" + rest) && file <= line + "\n" + rest && |file| > |line|
    requires files != [] ==> files[|files| - 1] <= file
    requires Prefixes(Beyond(files, |line|), rest)
    requires files != [] && |files[|files| - 1]| > |line| ==>
               Beyond(files, |line|) != [] && Beyond(files, |line|)[|Beyond(files, |line|)| - 1] == files[|files| - 1][|line| + 1..]
    ensures Prefixes(Beyond(files, |line|) + [file[|line| + 1..]], rest)
  {
    var beyond := Beyond(files, |line|);
    var tail := CutBehind(file, line, rest);
    if files == [] || |files[|files| - 1]| <= |line| {
      StillWithin(files, line, rest);
      BeyondNothing(files, |line|);
    } else {
      assert files[|files| - 1][|line| + 1..] <= file[|line| + 1..];
    }
    PrefixesNext(beyond, tail, rest);
  }

  lemma PrefixesNext(files: seq<string>, file: string, text: string)
    requires Prefixes(files, text) && file <= text && (files != [] ==> files[|files| - 1] <= file)
    ensures Prefixes(files + [file], text)
  {
  }

  // ----- The lines that are handled -----

  /** The lines of the text that no scan has cut, in order. */
  ghost function Heard(files: seq<string>, text: string): seq<string>
    decreases |text|
  {
    if text == "" then []
    else
      var n := NextBreak(text);
      (if CutBy(files, n) then [] else [text[..n]]) + Heard(Beyond(files, n), AfterBreak(text))
  }

  /** The decoder takes no part of these lines for an announcement. */
  ghost predicate SilentOnPieces(decode: string -> Decoded, lines: seq<string>) {
    forall i, x :: 0 <= i < |lines| && Piece(x, lines[i]) ==> !decode(x).Created?
  }

  lemma {:induction false} SilentScan(decode: string -> Decoded, p: Progress, xs: seq<string>)
    requires forall i :: 0 <= i < |xs| ==> !decode(xs[i]).Created?
    ensures ScanLines(decode, p, xs) == p
  {
    if xs != [] {
      SilentScan(decode, p, xs[1..]);
    }
  }

  lemma FirstLineHandled(decode: string -> Decoded, p: Progress, line: string, pieces: seq<string>, cut: bool)
    requires if cut then AllPieces(pieces, line) else pieces == [line]
    requires forall x :: Piece(x, line) ==> !decode(x).Created?
    ensures ScanLines(decode, p, pieces) == ScanLines(decode, p, if cut then [] else [line])
  {
    if cut {
      SilentScan(decode, p, pieces);
    }
  }

  /** The lines of the text, one at a time. */
  lemma TextSplits(text: string) returns (line: string, rest: string)
    requires text != ""
    ensures '\n' !in line && line == text[..NextBreak(text)] && rest == AfterBreak(text) && |line| == NextBreak(text)
    ensures text == (if |line| < |text| then line + "\n" + rest else line) && (|line| == |text| ==> rest == "" && line != "")
    ensures Lines(text) == [line] + Lines(rest)
  {
    BreaksAtNewline(text);
    line, rest := text[..NextBreak(text)], AfterBreak(text);
    if |line| < |text| {
      assert text == text[..|line|] + [text[|line|]] + text[|line| + 1..];
    } else {
      assert text[..|text|] == text;
    }
  }

  lemma SilentTail(decode: string -> Decoded, line: string, rest: seq<string>)
    requires SilentOnPieces(decode, [line] + rest)
    ensures SilentOnPieces(decode, rest) && forall x :: Piece(x, line) ==> !decode(x).Created?
  {
    var all := [line] + rest;
    assert all[0] == line;
    forall i, x | 0 <= i < |rest| && Piece(x, rest[i]) ensures !decode(x).Created? {
      assert all[i + 1] == rest[i];
    }
  }

  /** Handling what the scans read is handling the lines they have not cut. */
  lemma {:induction false} HeardIsHandled(decode: string -> Decoded, p: Progress, files: seq<string>, text: string)
    requires Prefixes(files, text) && files != [] && files[|files| - 1] == text
    requires SilentOnPieces(decode, Lines(text))
    ensures ScanLines(decode, p, ReadAll(files)) == ScanLines(decode, p, Heard(files, text))
    decreases |text|
  {
    if text == "" {
      StaysInside(files, "");
    } else {
      var line, rest := TextSplits(text);
      SilentTail(decode, line, Lines(rest));
      if |line| == |text| {
        LastLineHandled(decode, p, files, line);
      } else {
        var pieces := FirstLineSplitsOff(files, line, rest);
        FirstLineHandled(decode, p, line, pieces, CutBy(files, |line|));
        var first := if CutBy(files, |line|) then [] else [line];
        var beyond := Beyond(files, |line|);
        ScanAppend(decode, p, pieces, ReadAll(beyond));
        ScanAppend(decode, p, first, Heard(beyond, rest));
        BeyondPrefixes(files, line, rest);
        assert text[|line| + 1..] == rest;
        HeardIsHandled(decode, ScanLines(decode, p, first), beyond, rest);
        assert Heard(files, text) == first + Heard(beyond, rest);
      }
    }
  }

  lemma LastLineHandled(decode: string -> Decoded, p: Progress, files: seq<string>, line: string)
    requires '\n' !in line && line != "" && Prefixes(files, line) && files != [] && files[|files| - 1] == line
    requires forall x :: Piece(x, line) ==> !decode(x).Created?
    requires NextBreak(line) == |line|
    ensures ScanLines(decode, p, ReadAll(files)) == ScanLines(decode, p, Heard(files, line))
  {
    StaysInside(files, line);
    FirstLineHandled(decode, p, line, ReadAll(files), CutBy(files, |line|));
    assert line[..|line|] == line && AfterBreak(line) == "";
    assert [line] + [] == [line];
    assert Heard(Beyond(files, |line|), "") == [];
  }

  // ----- Deliveries -----

  /** A line that announces a request and comes with it. */
  predicate Delivering(decode: string -> Decoded, line: string) {
    line != "" && decode(line).Created? && decode(line).request.Some?
  }

  function Requests(decode: string -> Decoded, lines: seq<string>): seq<PendingRequest> {
    if lines == [] then []
    else (if Delivering(decode, lines[0]) then [decode(lines[0]).request.value] else []) + Requests(decode, lines[1..])
  }

  /** No two of these lines announce the same id. */
  ghost predicate AnnouncedOnce(decode: string -> Decoded, lines: seq<string>) {
    lines == [] || (NotAnnounced(decode, lines[0], lines[1..]) && AnnouncedOnce(decode, lines[1..]))
  }

  lemma {:induction false} AllAreDelivered(decode: string -> Decoded, p: Progress, lines: seq<string>)
    requires AnnouncedOnce(decode, lines)
    requires forall i :: 0 <= i < |lines| && lines[i] != "" && decode(lines[i]).Created? ==> decode(lines[i]).id !in p.seen
    ensures ScanLines(decode, p, lines).delivered == p.delivered + Requests(decode, lines)
    decreases |lines|
  {
    if lines == [] {
      assert p.delivered + [] == p.delivered;
    } else {
      var q, rest := Step(decode, p, lines[0]), lines[1..];
      forall i | 0 <= i < |rest| && rest[i] != "" && decode(rest[i]).Created? ensures decode(rest[i]).id !in q.seen {
        assert rest[i] == lines[i + 1];
        assert decode(lines[0]).Created? ==> !Announces(decode, rest[i], decode(lines[0]).id);
      }
      AllAreDelivered(decode, q, rest);
      var first := if Delivering(decode, lines[0]) then [decode(lines[0]).request.value] else [];
      assert q.delivered == p.delivered + first;
      assert p.delivered + first + Requests(decode, rest) == p.delivered + (first + Requests(decode, rest));
    }
  }

  lemma {:induction false} HeardAreLines(files: seq<string>, text: string)
    ensures forall x :: x in Heard(files, text) ==> x in Lines(text)
    decreases |text|
  {
    if text != "" {
      HeardAreLines(Beyond(files, NextBreak(text)), AfterBreak(text));
    }
  }

  lemma {:induction false} HeardOnce(decode: string -> Decoded, files: seq<string>, text: string)
    requires AnnouncedOnce(decode, Lines(text))
    ensures AnnouncedOnce(decode, Heard(files, text))
    decreases |text|
  {
    if text != "" {
      var line, rest := TextSplits(text);
      var later := Heard(Beyond(files, |line|), rest);
      OnceUnfolds(decode, line, Lines(rest));
      HeardOnce(decode, Beyond(files, |line|), rest);
      HeardAreLines(Beyond(files, |line|), rest);
      NotHeardAgain(decode, line, Lines(rest), later);
      OnceUnfolds(decode, line, later);
      assert [] + later == later;
    }
  }

  lemma OnceUnfolds(decode: string -> Decoded, line: string, rest: seq<string>)
    ensures AnnouncedOnce(decode, [line] + rest) <==> NotAnnounced(decode, line, rest) && AnnouncedOnce(decode, rest)
  {
    assert ([line] + rest)[1..] == rest;
  }

  lemma NotHeardAgain(decode: string -> Decoded, line: string, lines: seq<string>, later: seq<string>)
    requires NotAnnounced(decode, line, lines) && forall x :: x in later ==> x in lines
    ensures NotAnnounced(decode, line, later)
  {
    if decode(line).Created? {
      forall i | 0 <= i < |later| ensures !Announces(decode, later[i], decode(line).id) {
        assert later[i] in lines;
      }
    }
  }

  /** Some line that delivers a request is cut. */
  ghost predicate DeliveryCut(decode: string -> Decoded, files: seq<string>, text: string)
    decreases |text|
  {
    text != "" &&
    var n := NextBreak(text);
    (CutBy(files, n) && Delivering(decode, text[..n])) || DeliveryCut(decode, Beyond(files, n), AfterBreak(text))
  }

  lemma RequestsCons(decode: string -> Decoded, line: string, rest: seq<string>)
    ensures Requests(decode, [line] + rest) ==
            (if Delivering(decode, line) then [decode(line).request.value] else []) + Requests(decode, rest)
  {
    assert ([line] + rest)[1..] == rest;
  }

  lemma {:induction false} CutsLoseRequests(decode: string -> Decoded, files: seq<string>, text: string)
    ensures
      var heard, all := Requests(decode, Heard(files, text)), Requests(decode, Lines(text));
      if DeliveryCut(decode, files, text) then |heard| < |all| else heard == all
    decreases |text|
  {
    if text != "" {
      var line, rest := TextSplits(text);
      var beyond := Beyond(files, |line|);
      CutsLoseRequests(decode, beyond, rest);
      RequestsCons(decode, line, Lines(rest));
      RequestsCons(decode, line, Heard(beyond, rest));
      assert [] + Heard(beyond, rest) == Heard(beyond, rest);
      CutNeverAdds(decode, beyond, rest);
    }
  }

  lemma CutNeverAdds(decode: string -> Decoded, files: seq<string>, text: string)
    requires
      var heard, all := Requests(decode, Heard(files, text)), Requests(decode, Lines(text));
      if DeliveryCut(decode, files, text) then |heard| < |all| else heard == all
    ensures |Requests(decode, Heard(files, text))| <= |Requests(decode, Lines(text))|
  {
  }

  // ----- Main result -----

  /** `text[s..e]` is a line of the text. */
  ghost predicate LineAt(text: string, s: nat, e: nat) {
    && s <= e <= |text| && '\n' !in text[s..e]
    && (s == 0 || text[s - 1] == '\n') && (e == |text| || text[e] == '\n')
  }

  /** Some scan came when part of this line was there, but not all of it. */
  ghost predicate CutAt(files: seq<string>, s: nat, e: nat) {
    exists k :: 0 <= k < |files| && s < |files[k]| < e
  }

  ghost predicate LosesDelivery(decode: string -> Decoded, files: seq<string>, text: string, s: nat, e: nat) {
    LineAt(text, s, e) && CutAt(files, s, e) && Delivering(decode, text[s..e])
  }

  lemma {:induction false} BeyondMembers(files: seq<string>, n: nat, s: nat, e: nat)
    ensures CutAt(Beyond(files, n), s, e) <==> CutAt(files, n + 1 + s, n + 1 + e)
  {
    if files != [] {
      var front, last := files[..|files| - 1], files[|files| - 1];
      BeyondMembers(front, n, s, e);
      CutAtSnoc(front, last, n + 1 + s, n + 1 + e);
      assert files == front + [last];
      if |last| > n {
        CutAtSnoc(Beyond(front, n), last[n + 1..], s, e);
      } else {
        assert Beyond(front, n) + [] == Beyond(front, n);
      }
    }
  }

  lemma CutAtSnoc(files: seq<string>, file: string, s: nat, e: nat)
    ensures CutAt(files + [file], s, e) <==> CutAt(files, s, e) || s < |file| < e
  {
    var all := files + [file];
    assert all[|files|] == file;
    if CutAt(files, s, e) {
      var k :| 0 <= k < |files| && s < |files[k]| < e;
      assert all[k] == files[k];
    }
  }

  lemma FirstLineAt(text: string, line: string, rest: string, e: nat)
    requires '\n' !in line && text == line + "\n" + rest
    ensures LineAt(text, 0, e) <==> e == |line|
  {
    var n := |line|;
    assert text[n] == '\n' && text[0..n] == line;
    assert n < e <= |text| ==> text[0..e][n] == '\n';
    assert e < n ==> text[e] == line[e];
  }

  lemma LaterLineAt(text: string, line: string, rest: string, s: nat, e: nat)
    requires text == line + "\n" + rest
    ensures LineAt(text, |line| + 1 + s, |line| + 1 + e) <==> LineAt(rest, s, e)
    ensures LineAt(rest, s, e) ==> text[|line| + 1 + s..|line| + 1 + e] == rest[s..e]
  {
    var n := |line| + 1;
    assert s <= e <= |rest| ==> text[n + s..n + e] == rest[s..e];
    assert 0 < s <= |rest| ==> text[n + s - 1] == rest[s - 1];
    assert e < |rest| ==> text[n + e] == rest[e];
  }

  lemma NoLineStartsWithin(text: string, line: string, rest: string, s: nat, e: nat)
    requires '\n' !in line && text == line + "\n" + rest && 0 < s <= |line|
    ensures !LineAt(text, s, e)
  {
    assert text[s - 1] == line[s - 1];
  }

  lemma OnlyLineAt(line: string, s: nat, e: nat)
    requires '\n' !in line
    ensures LineAt(line, s, e) <==> s == 0 && e == |line|
  {
    assert line[0..|line|] == line;
  }

  lemma {:induction false} DeliveryCutIff(decode: string -> Decoded, files: seq<string>, text: string)
    ensures DeliveryCut(decode, files, text) <==> exists s, e :: LosesDelivery(decode, files, text, s, e)
    decreases |text|
  {
    if text == "" {
      assert forall s, e :: !LosesDelivery(decode, files, text, s, e);
    } else {
      var line, rest := TextSplits(text);
      if |line| == |text| {
        OnlyLineCut(decode, files, line);
      } else {
        DeliveryCutIff(decode, Beyond(files, |line|), rest);
        FirstOrLaterCut(decode, files, text, line, rest);
      }
    }
  }

  lemma OnlyLineCut(decode: string -> Decoded, files: seq<string>, line: string)
    requires '\n' !in line && line != "" && NextBreak(line) == |line|
    ensures DeliveryCut(decode, files, line) <==> exists s, e :: LosesDelivery(decode, files, line, s, e)
  {
    assert line[..|line|] == line && line[0..|line|] == line && AfterBreak(line) == "";
    assert CutAt(files, 0, |line|) <==> CutBy(files, |line|);
    assert DeliveryCut(decode, files, line) <==> LosesDelivery(decode, files, line, 0, |line|) by {
      OnlyLineAt(line, 0, |line|);
    }
    forall s, e | LosesDelivery(decode, files, line, s, e) ensures s == 0 && e == |line| {
      OnlyLineAt(line, s, e);
    }
  }

  lemma FirstOrLaterCut(decode: string -> Decoded, files: seq<string>, text: string, line: string, rest: string)
    requires '\n' !in line && text == line + "\n" + rest && NextBreak(text) == |line| && AfterBreak(text) == rest
    requires DeliveryCut(decode, Beyond(files, |line|), rest) <==>
             exists s, e :: LosesDelivery(decode, Beyond(files, |line|), rest, s, e)
    ensures DeliveryCut(decode, files, text) <==> exists s, e :: LosesDelivery(decode, files, text, s, e)
  {
    DeliveryCutUnfolds(decode, files, text, line, rest);
    if DeliveryCut(decode, files, text) {
      var s, e := CutIsFound(decode, files, text, line, rest);
    }
    forall s: nat, e: nat | LosesDelivery(decode, files, text, s, e) ensures DeliveryCut(decode, files, text) {
      if s == 0 {
        FirstCut(decode, files, text, line, rest, e);
      } else {
        var s', e' := CutLater(decode, files, text, line, rest, s, e);
      }
    }
  }

  lemma DeliveryCutUnfolds(decode: string -> Decoded, files: seq<string>, text: string, line: string, rest: string)
    requires text == line + "\n" + rest && NextBreak(text) == |line| && AfterBreak(text) == rest
    ensures DeliveryCut(decode, files, text) <==>
            (CutBy(files, |line|) && Delivering(decode, line)) || DeliveryCut(decode, Beyond(files, |line|), rest)
  {
    assert text[..|line|] == line;
  }

  lemma FirstCut(decode: string -> Decoded, files: seq<string>, text: string, line: string, rest: string, e: nat)
    requires '\n' !in line && text == line + "\n" + rest
    ensures LosesDelivery(decode, files, text, 0, e) <==> e == |line| && CutBy(files, |line|) && Delivering(decode, line)
  {
    FirstLineAt(text, line, rest, e);
    assert text[0..|line|] == line;
    assert CutAt(files, 0, |line|) <==> CutBy(files, |line|);
  }

  lemma CutIsFound(decode: string -> Decoded, files: seq<string>, text: string, line: string, rest: string)
    returns (s: nat, e: nat)
    requires '\n' !in line && text == line + "\n" + rest
    requires (CutBy(files, |line|) && Delivering(decode, line))
             || exists s: nat, e: nat :: LosesDelivery(decode, Beyond(files, |line|), rest, s, e)
    ensures LosesDelivery(decode, files, text, s, e)
  {
    if CutBy(files, |line|) && Delivering(decode, line) {
      s, e := 0, |line|;
      FirstCut(decode, files, text, line, rest, e);
    } else {
      var s': nat, e': nat :| LosesDelivery(decode, Beyond(files, |line|), rest, s', e');
      s, e := |line| + 1 + s', |line| + 1 + e';
      LaterCut(decode, files, text, line, rest, s', e');
    }
  }

  lemma CutLater(decode: string -> Decoded, files: seq<string>, text: string, line: string, rest: string, s: nat, e: nat)
    returns (s': nat, e': nat)
    requires '\n' !in line && text == line + "\n" + rest && LosesDelivery(decode, files, text, s, e) && s > 0
    ensures LosesDelivery(decode, Beyond(files, |line|), rest, s', e')
  {
    if s <= |line| {
      NoLineStartsWithin(text, line, rest, s, e);
    }
    s', e' := s - |line| - 1, e - |line| - 1;
    LaterCut(decode, files, text, line, rest, s', e');
  }

  lemma LaterCut(decode: string -> Decoded, files: seq<string>, text: string, line: string, rest: string, s: nat, e: nat)
    requires text == line + "\n" + rest
    ensures LosesDelivery(decode, files, text, |line| + 1 + s, |line| + 1 + e) <==>
            LosesDelivery(decode, Beyond(files, |line|), rest, s, e)
  {
    LaterLineAt(text, line, rest, s, e);
    BeyondMembers(files, |line|, s, e);
  }

  lemma {:induction false} GrowingArePrefixes(files: seq<string>)
    requires files != [] && Growing(files)
    ensures Prefixes(files, files[|files| - 1])
    decreases |files|
  {
    var front, last := GrowingSplits(files);
    if front != [] {
      GrowingArePrefixes(front);
      forall k | 0 <= k < |files| ensures files[k] <= last {
        if k < |front| {
          assert files[k] == front[k] && front[k] <= front[|front| - 1];
        }
      }
    }
  }

  /**
   However the file grows and however many scans cut lines: the scans together deliver what one scan of the
   final file delivers if and only if no line that delivers a request was cut. The decoder must take no part
   of a line for an announcement, and each id be announced once, as the broker does.
   */
  lemma DeliveriesAreCompleteIff(decode: string -> Decoded, files: seq<string>)
    requires files != [] && Growing(files)
    requires SilentOnPieces(decode, Lines(files[|files| - 1])) && AnnouncedOnce(decode, Lines(files[|files| - 1]))
    ensures
      var text := files[|files| - 1];
      ScanAll(decode, files).progress.delivered == Scan(decode, FRESH, text).progress.delivered <==>
      !exists s, e :: LosesDelivery(decode, files, text, s, e)
  {
    var text := files[|files| - 1];
    GrowingArePrefixes(files);
    ScansHandleWhatTheyRead(decode, files);
    HeardIsHandled(decode, FRESH.progress, files, text);
    FirstScan(decode, text);
    AllAreDelivered(decode, FRESH.progress, Lines(text));
    HeardOnce(decode, files, text);
    AllAreDelivered(decode, FRESH.progress, Heard(files, text));
    CutsLoseRequests(decode, files, text);
    DeliveryCutIff(decode, files, text);
  }
}

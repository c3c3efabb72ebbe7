/**
 The incremental tailer of internal/twilioadapter/canon_tail.go. JSON decoding is a parameter, so the
 results hold for whatever the lines mean.
 */
module CanonTail {
  import opened Core
  import opened Text

  datatype PendingRequest = PendingRequest(requestId: string, requester: string, argv: seq<string>,
                                           reason: string, createdAt: int)

  /** What decoding a line gives; `request` is `None` when only the details do not decode. */
  datatype Decoded = Undecodable | OtherEvent | Created(id: string, request: Option<PendingRequest>)

  datatype Progress = Progress(seen: set<string>, delivered: seq<PendingRequest>)

  /** `handleLine`: an id is marked seen before its details are decoded. */
  function HandleLine(decode: string -> Decoded, p: Progress, line: string): Progress {
    match decode(line)
    case Created(id, request) =>
      if id in p.seen then p
      else Progress(p.seen + {id}, if request.Some? then p.delivered + [request.value] else p.delivered)
    case _ => p
  }

  /** The body of the read loop, over one line; empty lines are passed over. */
  function Step(decode: string -> Decoded, p: Progress, line: string): Progress {
    if line == "" then p else HandleLine(decode, p, line)
  }

  function ScanLines(decode: string -> Decoded, p: Progress, lines: seq<string>): Progress
    decreases |lines|
  {
    if lines == [] then p else ScanLines(decode, Step(decode, p, lines[0]), lines[1..])
  }

  /** How far the offset moves over a text: an unterminated last line counts one byte too many. */
  function Advance(text: string): nat {
    if Whole(text) then |text| else |text| + 1
  }

  lemma {:induction false} ScanAppend(decode: string -> Decoded, p: Progress, a: seq<string>, b: seq<string>)
    ensures ScanLines(decode, p, a + b) == ScanLines(decode, ScanLines(decode, p, a), b)
    decreases |a|
  {
    if a == [] {
      assert a + b == b;
    } else {
      assert (a + b)[1..] == a[1..] + b;
      ScanAppend(decode, Step(decode, p, a[0]), a[1..], b);
    }
  }

  /** What was delivered before does not change what a scan adds. */
  lemma {:induction false} DeliveriesAccumulate(decode: string -> Decoded, seen: set<string>,
                                                earlier: seq<PendingRequest>, done: seq<PendingRequest>, lines: seq<string>)
    ensures
      var p, q := ScanLines(decode, Progress(seen, done), lines), ScanLines(decode, Progress(seen, earlier + done), lines);
      q.seen == p.seen && q.delivered == earlier + p.delivered
    decreases |lines|
  {
    if lines != [] {
      var p := Step(decode, Progress(seen, done), lines[0]);
      assert Step(decode, Progress(seen, earlier + done), lines[0]) == Progress(p.seen, earlier + p.delivered) by {
        if p.delivered != done {
          assert earlier + p.delivered == earlier + done + [p.delivered[|p.delivered| - 1]];
        }
      }
      DeliveriesAccumulate(decode, p.seen, earlier, p.delivered, lines[1..]);
    }
  }

  // ----- Rescans -----

  datatype Tail = Tail(offset: nat, progress: Progress)

  const FRESH := Tail(0, Progress({}, []))

  /** Where the offset is after a scan of this file, and the lines the scan reads. */
  function Next(offset: nat, file: string): nat {
    if offset > |file| then offset else offset + Advance(file[offset..])
  }

  function Read(offset: nat, file: string): seq<string> {
    if offset > |file| then [] else Lines(file[offset..])
  }

  /** One `scanOnce` over a file with this content. */
  function Scan(decode: string -> Decoded, t: Tail, file: string): Tail {
    Tail(Next(t.offset, file), ScanLines(decode, t.progress, Read(t.offset, file)))
  }

  function ScanAll(decode: string -> Decoded, files: seq<string>): Tail {
    if files == [] then FRESH else Scan(decode, ScanAll(decode, files[..|files| - 1]), files[|files| - 1])
  }

  function OffsetAfter(files: seq<string>): nat {
    if files == [] then 0 else Next(OffsetAfter(files[..|files| - 1]), files[|files| - 1])
  }

  /** All the lines that scans of these files read, in order. */
  function ReadAll(files: seq<string>): seq<string> {
    if files == [] then []
    else ReadAll(files[..|files| - 1]) + Read(OffsetAfter(files[..|files| - 1]), files[|files| - 1])
  }

  lemma {:induction false} ScansHandleWhatTheyRead(decode: string -> Decoded, files: seq<string>)
    ensures ScanAll(decode, files) == Tail(OffsetAfter(files), ScanLines(decode, FRESH.progress, ReadAll(files)))
  {
    if files != [] {
      var front, last := files[..|files| - 1], files[|files| - 1];
      ScansHandleWhatTheyRead(decode, front);
      ScanAppend(decode, FRESH.progress, ReadAll(front), Read(OffsetAfter(front), last));
    }
  }

  // ----- When scans read the lines of the file -----

  /** The file only grows between scans. */
  ghost predicate Growing(files: seq<string>) {
    forall i :: 0 < i < |files| ==> files[i - 1] <= files[i]
  }

  /** Cutting the file after `n` bytes cuts no line in two; its newline may be missing. */
  predicate Boundary(file: string, n: nat) {
    n == 0 || n >= |file| || file[n - 1] == '\n' || file[n] == '\n'
  }

  /** Each scan sees complete lines; the last of them may still lack its newline. */
  ghost predicate GrowsByLines(files: seq<string>) {
    forall i :: 0 < i < |files| ==> Boundary(files[i], |files[i - 1]|)
  }

  /** A scan goes on where an earlier one has seen the file up to a boundary. */
  lemma ReadOn(before: string, file: string)
    requires before <= file && Boundary(file, |before|)
    ensures Lines(before) + Read(Advance(before), file) == Lines(file) && Next(Advance(before), file) == Advance(file)
  {
    if Whole(before) {
      ReadBehind(before, file, file[|before|..]);
    } else if |before| < |file| {
      ReadOnClosed(before, before + "\n", file);
    } else {
      assert file == before;
    }
  }

  lemma ReadOnClosed(before: string, closed: string, file: string)
    requires !Whole(before) && closed == before + "\n" && closed <= file
    ensures Lines(before) + Read(Advance(before), file) == Lines(file) && Next(Advance(before), file) == Advance(file)
  {
    NewlineCompletes(before);
    ReadBehind(closed, file, file[|closed|..]);
  }

  lemma ReadBehind(a: string, file: string, b: string)
    requires Whole(a) && file == a + b
    ensures Lines(a) + Read(|a|, file) == Lines(file) && Next(|a|, file) == Advance(file)
  {
    NextBehind(a, file, b);
    ReadFrom(|a|, file, b);
    LinesAppend(a, b);
  }

  lemma NextBehind(a: string, file: string, b: string)
    requires Whole(a) && file == a + b
    ensures file[|a|..] == b && Next(|a|, file) == Advance(file)
  {
    assert file[|a|..] == b;
  }

  lemma ReadFrom(offset: nat, file: string, rest: string)
    requires offset <= |file| && file[offset..] == rest
    ensures Read(offset, file) == Lines(rest)
  {
  }

  lemma {:induction false} BoundariesReadLines(files: seq<string>)
    requires files != [] && Growing(files) && GrowsByLines(files)
    ensures ReadAll(files) == Lines(files[|files| - 1]) && OffsetAfter(files) == Advance(files[|files| - 1])
  {
    var front, last := files[..|files| - 1], files[|files| - 1];
    if front == [] {
      assert last[0..] == last;
    } else {
      BoundariesReadLines(front);
      ReadOn(front[|front| - 1], last);
    }
  }

  /** However the file grows, lines cut or not, the offset is off by no more than the byte of a missing newline. */
  lemma {:induction false} OffsetKeepsUp(files: seq<string>)
    requires files != [] && Growing(files)
    ensures var last := files[|files| - 1]; |last| <= OffsetAfter(files) <= Advance(last)
  {
    var last, front := files[|files| - 1], files[..|files| - 1];
    if front == [] {
      NextKeepsUp(0, "", last);
    } else {
      OffsetKeepsUp(front);
      NextKeepsUp(OffsetAfter(front), front[|front| - 1], last);
    }
  }

  lemma NextKeepsUp(offset: nat, before: string, file: string)
    requires |before| <= offset <= Advance(before) && before <= file
    ensures |file| <= Next(offset, file) <= Advance(file)
  {
    if offset > |file| {
      assert before == file;
    }
  }

  /** The number of bytes that are not newlines. */
  function Weight(text: string): nat {
    if text == "" then 0 else (if text[0] == '\n' then 0 else 1) + Weight(text[1..])
  }

  function TotalWeight(lines: seq<string>): nat {
    if lines == [] then 0 else Weight(lines[0]) + TotalWeight(lines[1..])
  }

  lemma {:induction false} WeightAppend(a: string, b: string)
    ensures Weight(a + b) == Weight(a) + Weight(b)
  {
    if a == "" {
      assert a + b == b;
    } else {
      assert (a + b)[1..] == a[1..] + b;
      WeightAppend(a[1..], b);
    }
  }

  lemma {:induction false} TotalAppend(a: seq<string>, b: seq<string>)
    ensures TotalWeight(a + b) == TotalWeight(a) + TotalWeight(b)
  {
    if a == [] {
      assert a + b == b;
    } else {
      assert (a + b)[1..] == a[1..] + b;
      TotalAppend(a[1..], b);
    }
  }

  lemma {:induction false} LinesWeigh(text: string)
    ensures TotalWeight(Lines(text)) == Weight(text)
    decreases |text|
  {
    if text != "" {
      LinesWeigh(AfterBreak(text));
      FirstLineWeighs(text);
      assert Lines(text)[1..] == Lines(AfterBreak(text));
    }
  }

  lemma FirstLineWeighs(text: string)
    requires text != ""
    ensures Weight(text) == Weight(text[..NextBreak(text)]) + Weight(AfterBreak(text))
  {
    var n := NextBreak(text);
    BreaksAtNewline(text);
    if n < |text| {
      WeightAppend(text[..n], text[n..]);
      assert text == text[..n] + text[n..] && text[n..][1..] == text[n + 1..];
    } else {
      assert text[..n] == text;
    }
  }

  /** A scan adds to what the earlier ones read all that the file has to offer but for a byte it skips. */
  lemma ReadWeighs(before: string, offset: nat, file: string)
    requires |before| <= offset <= |before| + 1 && before <= file
    requires offset > |file| ==> before == file
    ensures
      Weight(before) + TotalWeight(Read(offset, file)) ==
      Weight(file) - if offset == |before| + 1 && |before| < |file| && file[|before|] != '\n' then 1 else 0
  {
    if offset == |before| {
      ReadWeighsOn(before, file, file[|before|..]);
    } else if offset <= |file| {
      ReadWeighsOn(before + [file[|before|]], file, file[offset..]);
      WeightSnoc(before, file[|before|]);
    }
  }

  lemma WeightSnoc(text: string, c: char)
    ensures Weight(text + [c]) == Weight(text) + if c == '\n' then 0 else 1
  {
    WeightAppend(text, [c]);
    assert [c][1..] == "";
  }

  lemma ReadWeighsOn(a: string, file: string, b: string)
    requires file == a + b
    ensures Weight(a) + TotalWeight(Read(|a|, file)) == Weight(file)
  {
    assert file[|a|..] == b;
    LinesWeigh(b);
    WeightAppend(a, b);
  }

  /** The scans read no more than the last file holds, and less if any of them cut a line. */
  ghost predicate CutsCost(files: seq<string>)
    requires files != []
  {
    && TotalWeight(ReadAll(files)) <= Weight(files[|files| - 1])
    && (!GrowsByLines(files) ==> TotalWeight(ReadAll(files)) < Weight(files[|files| - 1]))
  }

  lemma {:induction false} CutsAlwaysCost(files: seq<string>)
    requires files != [] && Growing(files)
    ensures CutsCost(files)
    decreases |files|
  {
    var front, last := GrowingSplits(files);
    if front == [] {
      FirstCosts(last);
    } else {
      CutsAlwaysCost(front);
      NextCosts(front, last);
    }
  }

  lemma GrowingSplits(files: seq<string>) returns (front: seq<string>, last: string)
    requires files != [] && Growing(files)
    ensures files == front + [last] && Growing(front) && (front != [] ==> front[|front| - 1] <= last)
    ensures front == [] ==> files == [last]
  {
    front, last := files[..|files| - 1], files[|files| - 1];
  }

  lemma FirstCosts(file: string)
    ensures CutsCost([file])
  {
    ReadOne(file);
    LinesWeigh(file);
  }

  lemma NextCosts(files: seq<string>, file: string)
    requires files != [] && Growing(files) && files[|files| - 1] <= file && CutsCost(files)
    ensures CutsCost(files + [file])
  {
    NextWeighs(files, file);
    GrowsByLinesSnoc(files, file);
    if GrowsByLines(files) {
      BoundariesReadLines(files);
    }
  }

  lemma GrowsByLinesSnoc(files: seq<string>, file: string)
    requires files != []
    ensures GrowsByLines(files + [file]) <==> GrowsByLines(files) && Boundary(file, |files[|files| - 1]|)
  {
    var all := files + [file];
    assert forall i :: 0 <= i < |files| ==> all[i] == files[i];
    assert all[|files|] == file;
    if GrowsByLines(all) {
      assert Boundary(all[|files|], |all[|files| - 1]|);
      forall i | 0 < i < |files| ensures Boundary(files[i], |files[i - 1]|) {
        assert Boundary(all[i], |all[i - 1]|);
      }
    }
  }

  lemma NextWeighs(files: seq<string>, file: string)
    requires files != [] && Growing(files) && files[|files| - 1] <= file
    ensures
      var before := files[|files| - 1];
      TotalWeight(ReadAll(files + [file])) - TotalWeight(ReadAll(files)) ==
      Weight(file) - Weight(before)
      - if OffsetAfter(files) == |before| + 1 && |before| < |file| && file[|before|] != '\n' then 1 else 0
  {
    OffsetKeepsUp(files);
    ReadAllSnoc(files, file);
    TotalAppend(ReadAll(files), Read(OffsetAfter(files), file));
    ReadWeighs(files[|files| - 1], OffsetAfter(files), file);
  }

  /**
   However the file grows, the scans together read exactly the lines of the final file if and only if each
   of them came at a boundary: no line cut in two, though it may have lacked its newline.
   */
  lemma ScansReadTheLinesIff(files: seq<string>)
    requires files != [] && Growing(files)
    ensures ReadAll(files) == Lines(files[|files| - 1]) <==> GrowsByLines(files)
  {
    if GrowsByLines(files) {
      BoundariesReadLines(files);
    } else {
      CutsAlwaysCost(files);
      LinesWeigh(files[|files| - 1]);
    }
  }

  /**
   However the file grows by lines, complete but for a newline, the scans together deliver what one scan
   of the final file delivers, and the offset is behind its last line and newline.
   */
  lemma RescansEqualOneScan(decode: string -> Decoded, files: seq<string>)
    requires files != [] && Growing(files) && GrowsByLines(files)
    ensures ScanAll(decode, files) == Scan(decode, FRESH, files[|files| - 1])
    ensures ScanAll(decode, files).offset == Advance(files[|files| - 1])
  {
    ScansHandleWhatTheyRead(decode, files);
    BoundariesReadLines(files);
    FirstScan(decode, files[|files| - 1]);
  }

  lemma FirstScan(decode: string -> Decoded, file: string)
    ensures Scan(decode, FRESH, file) == Tail(Advance(file), ScanLines(decode, FRESH.progress, Lines(file)))
  {
    assert file[0..] == file;
  }

  // ----- What one scan delivers -----

  ghost predicate Announces(decode: string -> Decoded, line: string, id: string) {
    line != "" && decode(line).Created? && decode(line).id == id
  }

  /** The requests of the lines that are the first to announce their id, in file order. */
  ghost function FirstAnnouncements(decode: string -> Decoded, lines: seq<string>): seq<PendingRequest> {
    if lines == [] then [] else
      var front, last := lines[..|lines| - 1], lines[|lines| - 1];
      FirstAnnouncements(decode, front) +
      if last != "" && decode(last).Created? && decode(last).request.Some?
         && (forall j :: 0 <= j < |front| ==> !Announces(decode, front[j], decode(last).id))
      then [decode(last).request.value] else []
  }

  /** One scan delivers each announced id once, at its first announcement. */
  lemma {:induction false} ScanDeliversFirstAnnouncements(decode: string -> Decoded, lines: seq<string>)
    ensures
      var p := ScanLines(decode, FRESH.progress, lines);
      && p.delivered == FirstAnnouncements(decode, lines)
      && forall id :: id in p.seen <==> exists j :: 0 <= j < |lines| && Announces(decode, lines[j], id)
  {
    if lines != [] {
      var front, last := lines[..|lines| - 1], lines[|lines| - 1];
      ScanDeliversFirstAnnouncements(decode, front);
      assert lines == front + [last];
      ScanAppend(decode, FRESH.progress, front, [last]);
      var p := ScanLines(decode, FRESH.progress, front);
      assert ScanLines(decode, p, [last]) == Step(decode, p, last) by {
        assert [last][1..] == [];
      }
      forall id
        ensures id in Step(decode, p, last).seen <==> exists j :: 0 <= j < |lines| && Announces(decode, lines[j], id)
      {
        if Announces(decode, last, id) {
          assert Announces(decode, lines[|lines| - 1], id);
        } else {
          assert forall j :: 0 <= j < |front| ==> lines[j] == front[j];
        }
      }
    }
  }

  // ----- A line caught half-written -----

  /** The lines two scans read when the first of them catches `line` after `n` bytes. */
  function CutLines(line: string, n: nat): seq<string>
    requires n <= |line|
  {
    if 0 < n < |line| then [line[..n], line[n + 1..]] else [line]
  }

  /**
   Two scans, the first of which catches a line after `n` bytes, read the pieces on both sides of the cut
   and lose the byte at it. A line caught before it began, or without only its newline, is read whole.
   */
  lemma CutReads(decode: string -> Decoded, f: string, line: string, n: nat, g: string)
    requires Whole(f) && '\n' !in line && n <= |line|
    ensures ScanAll(decode, [f + line[..n], f + line + "\n" + g]).progress ==
            ScanLines(decode, FRESH.progress, Lines(f) + CutLines(line, n) + Lines(g))
    ensures Scan(decode, FRESH, f + line + "\n" + g).progress ==
            ScanLines(decode, FRESH.progress, Lines(f) + [line] + Lines(g))
  {
    var first, file := f + line[..n], f + line + "\n" + g;
    ReadWhole(decode, f, line, g, file);
    ScansHandleWhatTheyRead(decode, [first, file]);
    ReadTwo(first, file);
    LinesAround(f, line, g);
    if 0 < n < |line| {
      CutInside(f, line, n, g, first, file);
    } else {
      EndsAreBoundaries(f, line, n, g, first, file);
      ReadOn(first, file);
    }
  }

  lemma ReadWhole(decode: string -> Decoded, f: string, line: string, g: string, file: string)
    requires Whole(f) && '\n' !in line && file == f + line + "\n" + g
    ensures Scan(decode, FRESH, file).progress == ScanLines(decode, FRESH.progress, Lines(f) + [line] + Lines(g))
  {
    LinesAround(f, line, g);
    FirstScan(decode, file);
  }

  lemma EndsAreBoundaries(f: string, line: string, n: nat, g: string, first: string, file: string)
    requires Whole(f) && (n == 0 || n == |line|)
    requires first == f + line[..n] && file == f + line + "\n" + g
    ensures first <= file && Boundary(file, |first|)
  {
    if n == 0 {
      assert first == f;
      assert f != "" ==> file[|f| - 1] == f[|f| - 1];
    } else {
      assert line[..n] == line;
      assert file[|first|] == '\n';
    }
  }

  lemma ReadTwo(first: string, file: string)
    ensures ReadAll([first, file]) == Lines(first) + Read(Advance(first), file)
  {
    ReadOne(first);
    ReadAllSnoc([first], file);
    assert [first] + [file] == [first, file];
  }

  lemma ReadOne(file: string)
    ensures ReadAll([file]) == Lines(file) && OffsetAfter([file]) == Advance(file)
  {
    ReadAllSnoc([], file);
    assert [] + [file] == [file] && file[0..] == file;
  }

  lemma ReadAllSnoc(files: seq<string>, file: string)
    ensures ReadAll(files + [file]) == ReadAll(files) + Read(OffsetAfter(files), file)
    ensures OffsetAfter(files + [file]) == Next(OffsetAfter(files), file)
  {
    assert (files + [file])[..|files|] == files;
  }

  lemma Regroup(a: string, b: string, c: string, d: string)
    ensures a + b + c + d == a + (b + c) + d
  {
  }

  lemma LinesOfThree(a: string, b: string, c: string)
    requires Whole(a) && Whole(b)
    ensures Lines(a + b + c) == Lines(a) + Lines(b) + Lines(c)
  {
    LinesAppend(a, b);
    LinesAppend(a + b, c);
  }

  lemma LinesAround(f: string, line: string, g: string)
    requires Whole(f) && '\n' !in line
    ensures Lines(f + line + "\n" + g) == Lines(f) + [line] + Lines(g)
  {
    OneLine(line);
    LinesOfThree(f, line + "\n", g);
    Regroup(f, line, "\n", g);
  }

  lemma LinesOfUnfinished(f: string, piece: string, text: string)
    requires Whole(f) && '\n' !in piece && piece != "" && text == f + piece
    ensures Lines(text) == Lines(f) + [piece]
  {
    LinesAppend(f, piece);
    UnfinishedLine(piece);
  }

  lemma UnfinishedLine(piece: string)
    requires '\n' !in piece && piece != ""
    ensures Lines(piece) == [piece]
  {
    BreakAtAll(piece);
    assert piece[..|piece|] == piece;
  }

  lemma CutInside(f: string, line: string, n: nat, g: string, first: string, file: string)
    requires Whole(f) && '\n' !in line && 0 < n < |line|
    requires first == f + line[..n] && file == f + line + "\n" + g
    ensures Lines(first) + Read(Advance(first), file) == Lines(f) + [line[..n], line[n + 1..]] + Lines(g)
  {
    var xs, before := FirstOfCut(f, line, n, first);
    var ys, behind := SecondOfCut(f, line, n, g, file, Advance(first));
    PiecesJoin(xs, ys, before, line[..n], line[n + 1..], behind);
  }

  lemma FirstOfCut(f: string, line: string, n: nat, first: string) returns (xs: seq<string>, before: seq<string>)
    requires Whole(f) && '\n' !in line && 0 < n < |line| && first == f + line[..n]
    ensures xs == Lines(first) && before == Lines(f) && xs == before + [line[..n]] && Advance(first) == |f| + n + 1
  {
    var left := line[..n];
    assert |left| == n && '\n' !in left;
    LinesOfUnfinished(f, left, first);
    AdvanceOfUnfinished(f, left, first);
    xs, before := Lines(first), Lines(f);
  }

  lemma SecondOfCut(f: string, line: string, n: nat, g: string, file: string, t: nat)
    returns (ys: seq<string>, behind: seq<string>)
    requires '\n' !in line && 0 < n < |line| && file == f + line + "\n" + g && t == |f| + n + 1
    ensures ys == Read(t, file) && behind == Lines(g) && ys == [line[n + 1..]] + behind
  {
    RestOfCut(f, line, n, g, file);
    NoBreakInRest(line, n);
    ReadRest(t, file, line[n + 1..], g);
    ys, behind := Read(t, file), Lines(g);
  }

  lemma NoBreakInRest(line: string, n: nat)
    requires '\n' !in line && n < |line|
    ensures '\n' !in line[n + 1..]
  {
  }

  lemma ReadRest(offset: nat, file: string, right: string, g: string)
    requires '\n' !in right && offset <= |file| && file[offset..] == right + "\n" + g
    ensures Read(offset, file) == [right] + Lines(g)
  {
    LinesOfRest(right, g);
  }

  lemma AdvanceOfUnfinished(f: string, piece: string, text: string)
    requires '\n' !in piece && piece != "" && text == f + piece
    ensures Advance(text) == |text| + 1
  {
    assert text[|text| - 1] == piece[|piece| - 1];
  }

  lemma PiecesJoin(xs: seq<string>, ys: seq<string>, a: seq<string>, left: string, right: string, b: seq<string>)
    requires xs == a + [left] && ys == [right] + b
    ensures xs + ys == a + [left, right] + b
  {
  }

  lemma RestOfCut(f: string, line: string, n: nat, g: string, file: string)
    requires n < |line| && file == f + line + "\n" + g
    ensures |f| + n + 1 <= |file| && file[|f| + n + 1..] == line[n + 1..] + "\n" + g
  {
    assert line == line[..n + 1] + line[n + 1..];
  }

  lemma LinesOfRest(right: string, g: string)
    requires '\n' !in right
    ensures Lines(right + "\n" + g) == [right] + Lines(g)
  {
    OneLine(right);
    LinesAppend(right + "\n", g);
  }

  /** The line is the first to announce its id, and a request comes with it. */
  predicate Delivers(decode: string -> Decoded, p: Progress, line: string) {
    line != "" && decode(line).Created? && decode(line).id !in p.seen && decode(line).request.Some?
  }

  /** The decoder takes no piece that a cut can make of the line for an announcement. */
  ghost predicate CutsAreSilent(decode: string -> Decoded, line: string) {
    forall n :: 0 < n < |line| ==> !decode(line[..n]).Created? && !decode(line[n + 1..]).Created?
  }

  /** The id of the line is announced nowhere in the text. */
  ghost predicate NotAnnounced(decode: string -> Decoded, line: string, lines: seq<string>) {
    decode(line).Created? ==> forall i :: 0 <= i < |lines| ==> !Announces(decode, lines[i], decode(line).id)
  }

  /** Whether an id that is not announced any more has been seen makes no difference. */
  lemma {:induction false} SeenDoesNotMatter(decode: string -> Decoded, seen: set<string>, id: string,
                                             delivered: seq<PendingRequest>, lines: seq<string>)
    requires forall i :: 0 <= i < |lines| ==> !Announces(decode, lines[i], id)
    ensures ScanLines(decode, Progress(seen + {id}, delivered), lines).delivered ==
            ScanLines(decode, Progress(seen, delivered), lines).delivered
    decreases |lines|
  {
    if lines != [] {
      assert !Announces(decode, lines[0], id);
      var p := Step(decode, Progress(seen, delivered), lines[0]);
      assert Step(decode, Progress(seen + {id}, delivered), lines[0]) == Progress(p.seen + {id}, p.delivered) by {
        if p.seen != seen {
          assert seen + {id} + {decode(lines[0]).id} == seen + {decode(lines[0]).id} + {id};
        }
      }
      SeenDoesNotMatter(decode, p.seen, id, p.delivered, lines[1..]);
    }
  }

  /** What reading one more line in between adds to the deliveries: its request, if it delivers. */
  lemma OneLineMore(decode: string -> Decoded, p: Progress, line: string, rest: seq<string>)
    requires NotAnnounced(decode, line, rest)
    ensures
      var with, without := ScanLines(decode, p, [line] + rest), ScanLines(decode, p, rest);
      exists later ::
        && without.delivered == p.delivered + later
        && with.delivered == p.delivered + (if Delivers(decode, p, line) then [decode(line).request.value] else []) + later
  {
    var later := ScanLines(decode, Progress(p.seen, []), rest).delivered;
    var added := if Delivers(decode, p, line) then [decode(line).request.value] else [];
    DeliveriesAccumulate(decode, p.seen, p.delivered, [], rest);
    assert p.delivered + [] == p.delivered;
    assert ([line] + rest)[1..] == rest;
    var q := Step(decode, p, line);
    assert q.delivered == p.delivered + added;
    DeliveriesAccumulate(decode, q.seen, q.delivered, [], rest);
    assert q.delivered + [] == q.delivered;
    if q.seen != p.seen {
      assert q.seen == p.seen + {decode(line).id};
      SeenDoesNotMatter(decode, p.seen, decode(line).id, [], rest);
    }
    assert ScanLines(decode, Progress(q.seen, []), rest).delivered == later;
  }

  /** Pieces that announce nothing change nothing. */
  lemma SilentPieces(decode: string -> Decoded, p: Progress, line: string, n: nat, rest: seq<string>)
    requires 0 < n < |line| && CutsAreSilent(decode, line)
    ensures ScanLines(decode, p, CutLines(line, n) + rest) == ScanLines(decode, p, rest)
  {
    var left, right := line[..n], line[n + 1..];
    assert ([left, right] + rest)[1..] == [right] + rest;
    assert ([right] + rest)[1..] == rest;
    assert Step(decode, p, left) == p && Step(decode, p, right) == p;
  }

  /**
   A line caught half-written is lost, and it alone: one scan of the final file delivers its request
   between what the file held before and what follows, the two scans deliver everything else.
   */
  lemma HalfLineIsLost(decode: string -> Decoded, f: string, line: string, n: nat, g: string)
    requires Whole(f) && '\n' !in line && 0 < n < |line|
    requires CutsAreSilent(decode, line) && NotAnnounced(decode, line, Lines(g))
    requires Delivers(decode, ScanLines(decode, FRESH.progress, Lines(f)), line)
    ensures
      var file := f + line + "\n" + g;
      var earlier := Scan(decode, FRESH, f).progress.delivered;
      exists later ::
        && ScanAll(decode, [f + line[..n], file]).progress.delivered == earlier + later
        && Scan(decode, FRESH, file).progress.delivered == earlier + [decode(line).request.value] + later
  {
    var p := ScanLines(decode, FRESH.progress, Lines(f));
    assert f[0..] == f;
    CutReads(decode, f, line, n, g);
    ScanAround(decode, f, CutLines(line, n), g);
    ScanAround(decode, f, [line], g);
    SilentPieces(decode, p, line, n, Lines(g));
    OneLineMore(decode, p, line, Lines(g));
  }

  lemma ScanAround(decode: string -> Decoded, f: string, middle: seq<string>, g: string)
    ensures ScanLines(decode, FRESH.progress, Lines(f) + middle + Lines(g)) ==
            ScanLines(decode, ScanLines(decode, FRESH.progress, Lines(f)), middle + Lines(g))
  {
    assert Lines(f) + middle + Lines(g) == Lines(f) + (middle + Lines(g));
    ScanAppend(decode, FRESH.progress, Lines(f), middle + Lines(g));
  }

  /**
   Exactly when a scan in the middle of a write loses nothing: it came before the line began or after all
   of it but the newline was there, or the line is not one that is delivered.
   */
  lemma CutIsHarmlessIff(decode: string -> Decoded, f: string, line: string, n: nat, g: string)
    requires Whole(f) && '\n' !in line && n <= |line|
    requires CutsAreSilent(decode, line) && NotAnnounced(decode, line, Lines(g))
    ensures
      var file := f + line + "\n" + g;
      ScanAll(decode, [f + line[..n], file]).progress.delivered == Scan(decode, FRESH, file).progress.delivered
      <==> n == 0 || n == |line| || !Delivers(decode, Scan(decode, FRESH, f).progress, line)
  {
    var p := ScanLines(decode, FRESH.progress, Lines(f));
    assert f[0..] == f;
    CutReads(decode, f, line, n, g);
    if 0 < n < |line| {
      ScanAround(decode, f, CutLines(line, n), g);
      ScanAround(decode, f, [line], g);
      SilentPieces(decode, p, line, n, Lines(g));
      OneLineMore(decode, p, line, Lines(g));
    }
  }

  // ----- The object -----

  class CanonTailer {
    var offset: nat
    var seen: set<string>

    constructor ()
      ensures offset == 0 && seen == {}
    {
      offset, seen := 0, {};
    }

    /** `None` when the line is passed over. */
    method Handle(decode: string -> Decoded, line: string) returns (request: Option<PendingRequest>)
      modifies this`seen
      ensures forall delivered: seq<PendingRequest> ::
                HandleLine(decode, Progress(old(seen), delivered), line) ==
                Progress(seen, if request.Some? then delivered + [request.value] else delivered)
    {
      var event := decode(line);
      if !event.Created? {
        return None;
      }
      if event.id in seen {
        return None;
      }
      seen := seen + {event.id};
      return event.request;
    }

    /** A file that does not exist yet is left for the next scan. */
    method ScanOnce(decode: string -> Decoded, file: Option<string>) returns (delivered: seq<PendingRequest>)
      modifies this
      ensures file.None? ==> offset == old(offset) && seen == old(seen) && delivered == []
      ensures file.Some? ==>
                Scan(decode, Tail(old(offset), Progress(old(seen), [])), file.value) ==
                Tail(offset, Progress(seen, delivered))
    {
      delivered := [];
      if file.None? || offset > |file.value| {
        return;
      }
      var text := file.value[offset..];
      ghost var end := offset + Advance(text);
      ghost var goal := ScanLines(decode, Progress(seen, []), Lines(text));
      while text != ""
        invariant offset + Advance(text) == end
        invariant ScanLines(decode, Progress(seen, delivered), Lines(text)) == goal
        decreases |text|
      {
        LinesUnfold(text);
        var line := text[..NextBreak(text)];
        if line != "" {
          var request := Handle(decode, line);
          if request.Some? {
            delivered := delivered + [request.value];
          }
        }
        offset := offset + |line| + 1;
        text := AfterBreak(text);
      }
    }
  }

  lemma LinesUnfold(text: string)
    requires text != ""
    ensures Lines(text)[0] == text[..NextBreak(text)] && Lines(text)[1..] == Lines(AfterBreak(text))
    ensures Advance(text) == NextBreak(text) + 1 + Advance(AfterBreak(text))
  {
    AdvanceUnfold(text);
  }

  lemma AdvanceUnfold(text: string)
    requires text != ""
    ensures Advance(text) == NextBreak(text) + 1 + Advance(AfterBreak(text))
  {
    var n := NextBreak(text);
    BreaksAtNewline(text);
    if n == |text| {
      assert text[..n] == text;
    } else {
      var rest := text[n + 1..];
      assert rest != "" ==> rest[|rest| - 1] == text[|text| - 1];
    }
  }
}

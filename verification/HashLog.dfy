/** The hash-chained event log of internal/events/log.go, with every way its one write can end. */
module HashLog {
  import opened Core
  import opened Events

  /** The scanner buffer of `Replay`: a line has to fit it together with its newline. */
  const SCANNER_LIMIT: nat := 2 * 1024 * 1024

  /** A terminated line of the file: empty, one encoded event of `size` bytes, or undecodable text. */
  datatype Line = Blank | Record(event: Event, size: nat) | Torn

  /** What follows the last newline. A fragment is the start of an encoded event. */
  datatype Tail = Clean | Fragment | Unterminated(event: Event, size: nat)

  datatype File = File(lines: seq<Line>, tail: Tail)

  datatype LogError = Undecodable | LineTooLong | ChainMismatch | HashMismatch | AppendFailed

  /**
   How an append ends: success; an error before any byte is written; a partial write; a write short
   of only the newline; or a complete write followed by an error (a failed sync, or a crash before
   the caller hears of it).
   */
  datatype Fate = Lands | FailsBefore | Tears | LosesNewline | FailsAfter

  /** What the environment decides about one append. */
  datatype Write = Write(eventId: string, timestamp: int, size: nat, fate: Fate)

  /** The append fails before it writes, or succeeds with a line the replay scanner can hold. */
  predicate AllOrNothing(w: Write) {
    w.fate.FailsBefore? || (w.fate.Lands? && w.size < SCANNER_LIMIT)
  }

  // ----- Append -----

  /** What the caller gave is kept; an id and a time that were not given are filled in. */
  ghost predicate Stamped(given: Event, w: Write, e: Event) {
    && e.requestId == given.requestId && e.actor == given.actor && e.typ == given.typ && e.details == given.details
    && (given.eventId == "" ==> e.eventId == w.eventId) && (given.eventId != "" ==> e.eventId == given.eventId)
    && (given.timestamp == 0 ==> e.timestamp == w.timestamp) && (given.timestamp != 0 ==> e.timestamp == given.timestamp)
  }

  function Seal(event: Event, w: Write, lastHash: Hash): (sealed: Event)
    ensures Stamped(event, w, sealed)
    ensures sealed.hash == HashEvent(sealed) && sealed.prevHash == lastHash
  {
    var stamped := event.(eventId := if event.eventId == "" then w.eventId else event.eventId,
                          timestamp := if event.timestamp == 0 then w.timestamp else event.timestamp,
                          prevHash := lastHash);
    stamped.(hash := HashEvent(stamped))
  }

  /** The file after a write. Text written behind an unterminated tail fuses with it. */
  function WriteLine(f: File, e: Event, size: nat, fate: Fate): File {
    match fate
    case FailsBefore => f
    case Tears => f.(tail := Fragment)
    case LosesNewline => f.(tail := if f.tail.Clean? then Unterminated(e, size) else Fragment)
    case _ => File(f.lines + [if f.tail.Clean? then Record(e, size) else Torn], Clean)
  }

  // ----- Replay -----

  /** The lines a scanner yields: a non-empty tail is a line too. */
  function Lines(f: File): seq<Line> {
    match f.tail
    case Clean => f.lines
    case Fragment => f.lines + [Torn]
    case Unterminated(e, size) => f.lines + [Record(e, size)]
  }

  function LastHash(events: seq<Event>): Hash {
    if events == [] then NoHash else events[|events| - 1].hash
  }

  function ReadLine(events: seq<Event>, line: Line): Result<seq<Event>, LogError> {
    match line
    case Blank => Ok(events)
    case Torn => Err(Undecodable)
    case Record(e, size) =>
      if size >= SCANNER_LIMIT then Err(LineTooLong)
      else if e.prevHash != LastHash(events) then Err(ChainMismatch)
      else if e.hash != HashEvent(e) then Err(HashMismatch)
      else Ok(events + [e])
  }

  function ReplayLines(lines: seq<Line>): Result<seq<Event>, LogError> {
    if lines == [] then Ok([]) else
      match ReplayLines(lines[..|lines| - 1])
      case Err(error) => Err(error)
      case Ok(events) => ReadLine(events, lines[|lines| - 1])
  }

  function Replay(f: File): Result<seq<Event>, LogError> {
    ReplayLines(Lines(f))
  }

  // ----- What replay accepts, said without replaying -----

  function Records(lines: seq<Line>): seq<Event> {
    if lines == [] then [] else
      var rest := Records(lines[..|lines| - 1]);
      if lines[|lines| - 1].Record? then rest + [lines[|lines| - 1].event] else rest
  }

  ghost predicate Readable(line: Line) {
    line.Blank? || (line.Record? && line.size < SCANNER_LIMIT)
  }

  ghost predicate Chained(events: seq<Event>) {
    forall i :: 0 <= i < |events| ==>
      events[i].hash == HashEvent(events[i])
      && events[i].prevHash == LastHash(events[..i])
  }

  lemma ChainedPrefix(events: seq<Event>, n: nat)
    requires Chained(events) && n <= |events|
    ensures Chained(events[..n])
  {
    forall i | 0 <= i < n
      ensures events[..n][i].hash == HashEvent(events[..n][i])
              && events[..n][i].prevHash == LastHash(events[..n][..i])
    {
      assert events[..n][..i] == events[..i] && events[..n][i] == events[i];
    }
  }

  lemma ChainedSnoc(events: seq<Event>, e: Event)
    ensures Chained(events + [e]) <==>
            Chained(events) && e.hash == HashEvent(e) && e.prevHash == LastHash(events)
  {
    var all := events + [e];
    assert all[|events|] == e && all[..|events|] == events;
    if Chained(all) {
      ChainedPrefix(all, |events|);
    }
    if Chained(events) && e.hash == HashEvent(e) && e.prevHash == LastHash(events) {
      forall i | 0 <= i < |all| ensures all[i].hash == HashEvent(all[i]) && all[i].prevHash == LastHash(all[..i]) {
        if i < |events| {
          assert all[i] == events[i] && all[..i] == events[..i];
        }
      }
    }
  }

  /** Replay accepts exactly the files whose lines are all readable and whose records are chained. */
  lemma {:induction false} ReplayAccepts(lines: seq<Line>)
    ensures ReplayLines(lines).Ok? <==>
            (forall i :: 0 <= i < |lines| ==> Readable(lines[i])) && Chained(Records(lines))
    ensures ReplayLines(lines).Ok? ==> ReplayLines(lines).value == Records(lines)
  {
    if lines != [] {
      var front, last := lines[..|lines| - 1], lines[|lines| - 1];
      ReplayAccepts(front);
      assert forall i :: 0 <= i < |front| ==> front[i] == lines[i];
      assert (forall i :: 0 <= i < |lines| ==> Readable(lines[i])) <==>
             (forall i :: 0 <= i < |front| ==> Readable(front[i])) && Readable(last);
      if last.Record? {
        ChainedSnoc(Records(front), last.event);
      }
    }
  }

  /** Every prefix of an accepted log is accepted, and holds a prefix of the events. */
  lemma {:induction false} PrefixAccepted(lines: seq<Line>, n: nat)
    requires n <= |lines| && ReplayLines(lines).Ok?
    ensures ReplayLines(lines[..n]).Ok? && ReplayLines(lines[..n]).value <= ReplayLines(lines).value
  {
    if n == |lines| {
      assert lines[..n] == lines;
    } else {
      var front := lines[..|lines| - 1];
      PrefixAccepted(front, n);
      assert front[..n] == lines[..n];
    }
  }

  lemma {:induction false} FirstErrorStands(lines: seq<Line>, n: nat)
    requires n <= |lines|
    ensures ReplayLines(lines[..n]).Err? ==> ReplayLines(lines) == ReplayLines(lines[..n])
  {
    if n == |lines| {
      assert lines[..n] == lines;
    } else {
      var front := lines[..|lines| - 1];
      FirstErrorStands(front, n);
      assert front[..n] == lines[..n];
    }
  }

  /** Why a line stops a replay that has read `events` so far: it does not decode, is too long, or breaks the chain. */
  ghost predicate Stops(events: seq<Event>, line: Line, error: LogError) {
    match error
    case Undecodable => line.Torn?
    case LineTooLong => line.Record? && line.size >= 2097152
    case ChainMismatch => line.Record? && line.size < 2097152 && line.event.prevHash != LastHash(events)
    case HashMismatch =>
      && line.Record? && line.size < 2097152 && line.event.prevHash == LastHash(events)
      && line.event.hash != HashOf(Envelope(line.event.eventId, line.event.prevHash, line.event.requestId,
                                            line.event.timestamp, line.event.actor, line.event.typ, line.event.details))
    case AppendFailed => false
  }

  lemma LineStops(events: seq<Event>, line: Line, error: LogError)
    ensures ReadLine(events, line) == Err(error) <==> Stops(events, line, error)
  {
  }

  ghost predicate StopsAt(lines: seq<Line>, i: nat, error: LogError) {
    i < |lines| && ReplayLines(lines[..i]).Ok? && Stops(ReplayLines(lines[..i]).value, lines[i], error)
  }

  /** A replay fails with an error exactly when the first line that stops it does so for that reason. */
  lemma {:induction false} ReplayFailsIff(lines: seq<Line>, error: LogError)
    ensures ReplayLines(lines) == Err(error) <==> exists i :: StopsAt(lines, i, error)
  {
    if lines != [] {
      var front, n := lines[..|lines| - 1], |lines| - 1;
      ReplayFailsIff(front, error);
      forall i: nat | i < n ensures StopsAt(front, i, error) <==> StopsAt(lines, i, error) {
        assert front[..i] == lines[..i] && front[i] == lines[i];
      }
      if ReplayLines(front).Ok? {
        LineStops(ReplayLines(front).value, lines[n], error);
        assert StopsAt(lines, n, error) <==> ReplayLines(lines) == Err(error);
      }
    }
  }

  ghost predicate Recorded(lines: seq<Line>, e: Event) {
    exists size: nat :: Record(e, size) in lines
  }

  lemma RecordedSnoc(lines: seq<Line>, line: Line, e: Event)
    ensures Recorded(lines + [line], e) <==> Recorded(lines, e) || (line.Record? && line.event == e)
  {
    if line.Record? && line.event == e {
      assert (lines + [line])[|lines|] == Record(e, line.size);
    }
    if Recorded(lines, e) {
      var size: nat :| Record(e, size) in lines;
      assert Record(e, size) in lines + [line];
    }
  }

  lemma {:induction false} RecordedEvents(lines: seq<Line>)
    requires ReplayLines(lines).Ok?
    ensures Torn !in lines
    ensures forall e :: e in ReplayLines(lines).value <==> Recorded(lines, e)
  {
    if lines != [] {
      var front, last := lines[..|lines| - 1], lines[|lines| - 1];
      RecordedEvents(front);
      assert lines == front + [last];
      forall e ensures e in ReplayLines(lines).value <==> Recorded(lines, e) {
        RecordedSnoc(front, last, e);
      }
    }
  }

  lemma ReplayChains(f: File)
    requires Replay(f).Ok?
    ensures Chained(Replay(f).value)
  {
    ReplayAccepts(Lines(f));
  }

  // ----- Tamper evidence -----

  /** A hash fixes the whole history that led to it. */
  lemma {:induction false} HashFixesHistory(a: seq<Event>, b: seq<Event>)
    requires Chained(a) && Chained(b) && LastHash(a) == LastHash(b)
    ensures a == b
    decreases |a|
  {
    if a == [] || b == [] {
      assert a == b;
    } else {
      var m, n := |a| - 1, |b| - 1;
      assert a[m] == b[n];
      ChainedPrefix(a, m);
      ChainedPrefix(b, n);
      HashFixesHistory(a[..m], b[..n]);
      assert a == a[..m] + [a[m]] && b == b[..n] + [b[n]];
    }
  }

  /** Two files that replay and end in the same hash hold the same log. */
  lemma SameHeadSameLog(f: File, g: File)
    requires Replay(f).Ok? && Replay(g).Ok?
    ensures LastHash(Replay(f).value) == LastHash(Replay(g).value) <==> Replay(f).value == Replay(g).value
  {
    if LastHash(Replay(f).value) == LastHash(Replay(g).value) {
      ReplayChains(f);
      ReplayChains(g);
      HashFixesHistory(Replay(f).value, Replay(g).value);
    }
  }

  /** A difference at one position shows in the hashes of every position from there on. */
  lemma DifferenceSpreads(f: File, g: File, i: nat, j: nat)
    requires Replay(f).Ok? && Replay(g).Ok?
    requires i <= j < |Replay(f).value| && j < |Replay(g).value|
    requires Replay(f).value[i] != Replay(g).value[i]
    ensures Replay(f).value[j].hash != Replay(g).value[j].hash
  {
    ReplayChains(f);
    ReplayChains(g);
    HashFixesPrefix(Replay(f).value, Replay(g).value, i, j);
  }

  lemma HashFixesPrefix(a: seq<Event>, b: seq<Event>, i: nat, j: nat)
    requires Chained(a) && Chained(b) && i <= j < |a| && j < |b|
    ensures a[j].hash == b[j].hash ==> a[i] == b[i]
  {
    if a[j].hash == b[j].hash {
      ChainedPrefix(a, j + 1);
      ChainedPrefix(b, j + 1);
      HashFixesHistory(a[..j + 1], b[..j + 1]);
      assert a[..j + 1][i] == a[i] && b[..j + 1][i] == b[i];
    }
  }

  // ----- One append -----

  /** The file replays, ends in a newline, and `lastHash` is its head. */
  ghost predicate Agrees(f: File, lastHash: Hash) {
    f.tail.Clean? && Replay(f).Ok? && lastHash == LastHash(Replay(f).value)
  }

  lemma ReplaySnoc(f: File, line: Line)
    requires f.tail.Clean?
    ensures Replay(File(f.lines + [line], Clean)) ==
            match Replay(f) case Err(error) => Err(error) case Ok(events) => ReadLine(events, line)
  {
    assert (f.lines + [line])[..|f.lines|] == f.lines;
  }

  /** An append keeps file and `lastHash` together exactly when it is all-or-nothing and not too long. */
  lemma AppendKeepsAgreementIff(f: File, lastHash: Hash, event: Event, w: Write)
    requires Agrees(f, lastHash)
    ensures
      var e := Seal(event, w, lastHash);
      var f' := WriteLine(f, e, w.size, w.fate);
      && (Agrees(f', if w.fate.Lands? then e.hash else lastHash) <==> AllOrNothing(w))
      && (AllOrNothing(w) ==> Replay(f') == Ok(Replay(f).value + if w.fate.Lands? then [e] else []))
  {
    var e := Seal(event, w, lastHash);
    ReplaySnoc(f, Record(e, w.size));
    if w.fate.FailsBefore? {
      assert Replay(f).value + [] == Replay(f).value;
    } else if w.fate.FailsAfter? && w.size < SCANNER_LIMIT {
      assert Replay(WriteLine(f, e, w.size, w.fate)) == Ok(Replay(f).value + [e]);
      assert e.hash != lastHash;
    }
  }

  /** No write ever repairs a file, and a file that is still undamaged has kept all its lines. */
  lemma WriteIsMonotone(f: File, e: Event, size: nat, fate: Fate)
    ensures
      var f' := WriteLine(f, e, size, fate);
      && (Torn in Lines(f) ==> Torn in Lines(f'))
      && (Torn !in Lines(f') ==> Lines(f) <= Lines(f'))
      && (forall line :: line in Lines(f') ==> line in Lines(f) || line == Torn || line == Record(e, size))
      && (fate.Lands? && Torn !in Lines(f') ==> Record(e, size) in Lines(f'))
  {
    var f' := WriteLine(f, e, size, fate);
    match f.tail
    case Clean =>
    case Fragment =>
      assert Lines(f)[|f.lines|] == Torn;
      if !fate.FailsBefore? {
        assert Lines(f')[|f.lines|] == Torn;
      }
    case Unterminated(_, _) =>
      if !fate.FailsBefore? {
        assert Lines(f')[|f.lines|] == Torn;
      }
      forall line | line in f.lines ensures line in Lines(f) {
      }
  }

  // ----- Any interleaving of appends and reopenings -----

  datatype LogStep = AppendStep(event: Event, write: Write) | ReopenStep

  datatype LogState = LogState(file: File, lastHash: Hash, appended: seq<Event>)

  /** `appended` collects what the successful `Append` calls returned. */
  function LogRun(s: LogState, steps: seq<LogStep>): LogState {
    if steps == [] then s else
      var t := LogRun(s, steps[..|steps| - 1]);
      match steps[|steps| - 1]
      case AppendStep(event, w) =>
        var e := Seal(event, w, t.lastHash);
        var file := WriteLine(t.file, e, w.size, w.fate);
        if w.fate.Lands? then LogState(file, e.hash, t.appended + [e]) else t.(file := file)
      case ReopenStep =>
        match Replay(t.file)
        case Ok(events) => t.(lastHash := LastHash(events))
        case Err(_) => t
  }

  /** The appends of a run that succeeded, in order. */
  function Landed(steps: seq<LogStep>): seq<LogStep> {
    if steps == [] then [] else
      var rest, last := Landed(steps[..|steps| - 1]), steps[|steps| - 1];
      if last.AppendStep? && last.write.fate.Lands? then rest + [last] else rest
  }

  /**
   However appends and reopenings are interleaved, replay returns, in order, one event for each append that
   succeeded, with what its caller gave and the id and time filled in; and `lastHash` is the last one's hash.
   */
  lemma {:induction false} ReplayReturnsWhatWasAppended(steps: seq<LogStep>)
    requires forall i :: 0 <= i < |steps| && steps[i].AppendStep? ==> AllOrNothing(steps[i].write)
    ensures
      var s := LogRun(LogState(File([], Clean), NoHash, []), steps);
      && Agrees(s.file, s.lastHash) && Replay(s.file) == Ok(s.appended) && |s.appended| == |Landed(steps)|
      && forall k :: 0 <= k < |s.appended| ==>
           Landed(steps)[k].AppendStep? && Stamped(Landed(steps)[k].event, Landed(steps)[k].write, s.appended[k])
  {
    if steps != [] {
      var front, last := steps[..|steps| - 1], steps[|steps| - 1];
      ReplayReturnsWhatWasAppended(front);
      var t := LogRun(LogState(File([], Clean), NoHash, []), front);
      if last.AppendStep? {
        AppendKeepsAgreementIff(t.file, t.lastHash, last.event, last.write);
        assert t.appended + [] == t.appended;
      }
    }
  }

  // ----- The object -----

  /** `file` is what is at the log's path. */
  class Log {
    var file: File
    var lastHash: Hash

    constructor (file: File)
      ensures this.file == file && lastHash == NoHash
    {
      this.file, this.lastHash := file, NoHash;
    }

    /** `NewLog`: it fails exactly when the file does not replay, and with that error. */
    static method Open(file: File) returns (r: Result<Log, LogError>)
      ensures match Replay(file)
              case Err(error) => r == Err(error)
              case Ok(events) => r.Ok? && fresh(r.value) && r.value.file == file && r.value.lastHash == LastHash(events)
    {
      var log := new Log(file);
      var history := log.ReplayAll();
      if history.Err? {
        return Err(history.error);
      }
      if |history.value| > 0 {
        log.lastHash := history.value[|history.value| - 1].hash;
      }
      return Ok(log);
    }

    method Append(event: Event, w: Write) returns (r: Result<Event, LogError>)
      modifies this
      ensures file == WriteLine(old(file), Seal(event, w, old(lastHash)), w.size, w.fate)
      ensures r == if w.fate.Lands? then Ok(Seal(event, w, old(lastHash))) else Err(AppendFailed)
      ensures r.Ok? ==> Stamped(event, w, r.value) && r.value.prevHash == old(lastHash)
                        && r.value.hash == HashEvent(r.value) && lastHash == r.value.hash
      ensures r.Err? ==> lastHash == old(lastHash)
      ensures old(Agrees(file, lastHash)) && AllOrNothing(w) ==>
                Agrees(file, lastHash)
                && Replay(file) == Ok(old(Replay(file).value) + if w.fate.Lands? then [r.value] else [])
    {
      if Agrees(file, lastHash) {
        AppendKeepsAgreementIff(file, lastHash, event, w);
      }
      var eventId := if event.eventId == "" then w.eventId else event.eventId;
      var timestamp := if event.timestamp == 0 then w.timestamp else event.timestamp;
      var sealed := event.(eventId := eventId, timestamp := timestamp, prevHash := lastHash);
      sealed := sealed.(hash := HashEvent(sealed));
      file := WriteLine(file, sealed, w.size, w.fate);
      if !w.fate.Lands? {
        return Err(AppendFailed);
      }
      lastHash := sealed.hash;
      return Ok(sealed);
    }

    /** `replayUnlocked`. */
    method ReplayAll() returns (r: Result<seq<Event>, LogError>)
      ensures r == Replay(file)
      ensures r.Ok? ==> Chained(r.value) && r.value == Records(Lines(file))
    {
      var lines := Lines(file);
      var out, prevHash := [], NoHash;
      ReplayAccepts(lines);
      for i := 0 to |lines|
        invariant ReplayLines(lines[..i]) == Ok(out)
        invariant prevHash == LastHash(out)
      {
        assert lines[..i + 1][..i] == lines[..i];
        FirstErrorStands(lines, i + 1);
        if lines[i].Torn? {
          return Err(Undecodable);
        } else if lines[i].Record? {
          var event := lines[i].event;
          if lines[i].size >= SCANNER_LIMIT {
            return Err(LineTooLong);
          }
          if event.prevHash != prevHash {
            return Err(ChainMismatch);
          }
          if event.hash != HashEvent(event) {
            return Err(HashMismatch);
          }
          out := out + [event];
          prevHash := event.hash;
        }
      }
      assert lines[..|lines|] == lines;
      r := Ok(out);
    }
  }
}

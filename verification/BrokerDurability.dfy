/**
 What file and memory keep of each other in every run, whatever appends do: a file that stops being
 accepted is never accepted again, and until then its history is what the running broker knows plus
 at most one event.
 */
module BrokerDurability {
  import opened Core
  import opened Events
  import opened HashLog
  import opened Projections
  import opened Broker
  import opened BrokerAgreement
  import Text

  /** A restart gets through this file: it replays and its history rebuilds. */
  ghost predicate Accepted(f: File) {
    Replay(f).Ok? && Rebuilt(Replay(f).value).Ok?
  }

  /** Memory is what this history gives. */
  ghost predicate Knows(mem: Memory, h: seq<Event>) {
    mem.Up? && mem.lastHash == LastHash(h) && Rebuilt(h) == Ok(mem.requests)
  }

  // ----- Induction over what runs are made of -----

  /** Two worlds that differ at most in flights and calls. */
  ghost predicate Alike(w: World, w': World) {
    && w.file == w'.file && w.attempts == w'.attempts && w.mem.Up? && w'.mem.Up?
    && w.mem.cfg == w'.mem.cfg && w.mem.lastHash == w'.mem.lastHash && w.mem.requests == w'.mem.requests
  }

  ghost function Stopped(w: World): World {
    w.(mem := Down)
  }

  /** A broker that has rebuilt its memory and not begun to recover. */
  ghost function Reloaded(w: World, cfg: Config): World
    requires Accepted(w.file)
  {
    w.(mem := Up(cfg, LastHash(Replay(w.file).value), Rebuilt(Replay(w.file).value).value, map[]))
  }

  /** The property survives every append, every stop, every reload, and does not look at flights or calls. */
  ghost predicate Closed(inv: World -> bool) {
    && (forall w: World, a, draft, write :: w.mem.Up? && inv(w) ==> inv(Emit(w, a, draft, write)))
    && (forall w: World :: inv(w) ==> inv(Stopped(w)))
    && (forall w: World, cfg :: Accepted(w.file) && inv(w) ==> inv(Reloaded(w, cfg)))
    && (forall w, w' :: Alike(w, w') && inv(w) ==> inv(w'))
  }

  lemma {:induction false} RecoverKeeps(inv: World -> bool, w: World, a: Action, ids: seq<string>, writes: seq<Write>)
    requires Closed(inv) && w.mem.Up? && inv(w)
    ensures inv(Recover(w, a, ids, writes))
    decreases |ids|
  {
    if ids != [] {
      if writes == [] {
        assert inv(Stopped(w));
      } else {
        var w' := Emit(w, a, RecoveryDraft(ids[0]), writes[0]);
        assert inv(w');
        if Emitted(w, RecoveryDraft(ids[0]), writes[0]) {
          RecoverKeeps(inv, w', a, ids[1..], writes[1..]);
        } else {
          assert inv(Stopped(w'));
        }
      }
    }
  }

  /** Apart from flights and calls, a step of a running broker is one append and apply, or nothing. */
  lemma StepEmitsAtMostOnce(w: World, a: Action) returns (emits: bool, draft: Event, write: Write)
    requires w.mem.Up? && !a.Crash?
    ensures Alike(if emits then Emit(w, a, draft, write) else w, Do(w, a))
  {
    emits, draft, write := Do(w, a).attempts != w.attempts, ExpiredDraft(""), Write("", 0, 0, Lands);
    if emits {
      write := a.write;
      draft := match a
        case Submit(_, _, _, _, _, _, _, _, _) => CreatedDraft(w.mem.cfg, a)
        case ExecEnd(t, _) => FinishDraft(w.mem.flights[t].id, w.calls[w.mem.flights[t].phase.call].outcome.value)
        case Approve(_, _, id, _, _, now, _) => if Overdue(w.mem.requests, id, now) then ExpiredDraft(id) else ApprovedDraft(a)
        case Deny(_, _, id, _, _, now, _) => if Overdue(w.mem.requests, id, now) then ExpiredDraft(id) else DeniedDraft(a)
        case ExecBegin(_, _, id, now, _) =>
          if Overdue(w.mem.requests, id, now) then ExpiredDraft(id)
          else StartedDraft(w.mem.cfg, id, w.mem.requests[id].request.digest)
        case Status(_, id, _, _) => ExpiredDraft(id)
        case _ => draft;
    }
  }

  lemma RestartKeeps(inv: World -> bool, w: World, a: Action)
    requires Closed(inv) && inv(w) && a.Restart?
    ensures inv(DoRestart(w, a))
  {
    if Accepted(w.file) {
      var m := Rebuilt(Replay(w.file).value).value;
      RecoverKeeps(inv, Reloaded(w, a.cfg), a, Dangling(m, Text.SortedKeys(m.Keys)), a.writes);
    }
  }

  lemma StepKeeps(inv: World -> bool, w: World, a: Action)
    requires Closed(inv) && inv(w)
    ensures inv(Do(w, a))
  {
    if w.mem.Down? {
      if a.Restart? {
        RestartKeeps(inv, w, a);
      }
    } else if a.Crash? {
      assert inv(Stopped(w));
    } else {
      var emits, draft, write := StepEmitsAtMostOnce(w, a);
      assert emits ==> inv(Emit(w, a, draft, write));
    }
  }

  lemma {:induction false} RunKeeps(inv: World -> bool, w: World, actions: seq<Action>)
    requires Closed(inv) && inv(w)
    ensures inv(Run(w, actions))
  {
    if actions != [] {
      RunKeeps(inv, w, actions[..|actions| - 1]);
      StepKeeps(inv, Run(w, actions[..|actions| - 1]), actions[|actions| - 1]);
    }
  }

  lemma {:induction false} RunAppend(w: World, actions: seq<Action>, more: seq<Action>)
    ensures Run(w, actions + more) == Run(Run(w, actions), more)
  {
    if more == [] {
      assert actions + more == actions;
    } else {
      assert (actions + more)[..|actions + more| - 1] == actions + more[..|more| - 1];
      RunAppend(w, actions, more[..|more| - 1]);
    }
  }

  // ----- The file -----

  /** `g` is damaged for good, or still begins with the lines of `f`. */
  ghost predicate Continues(f: File, g: File) {
    Torn in Lines(g) || Lines(f) <= Lines(g)
  }

  /** What an accepted file continues was accepted too, with a prefix of the history. */
  lemma ContinuedWasAccepted(f: File, g: File)
    requires Continues(f, g) && Accepted(g)
    ensures Accepted(f) && Replay(f).value <= Replay(g).value
  {
    RecordedEvents(Lines(g));
    PrefixAccepted(Lines(g), |Lines(f)|);
    assert Lines(g)[..|Lines(f)|] == Lines(f);
    RebuildPrefix(Replay(g).value, |Replay(f).value|);
    assert Replay(g).value[..|Replay(f).value|] == Replay(f).value;
  }

  lemma ContinuesClosed(f: File)
    ensures Closed((w: World) => Continues(f, w.file))
  {
    forall w: World, a, draft, write | w.mem.Up? && Continues(f, w.file)
      ensures Continues(f, Emit(w, a, draft, write).file)
    {
      WriteIsMonotone(w.file, Seal(draft, write, w.mem.lastHash), write.size, write.fate);
    }
  }

  /**
   The file is only ever appended to. If it is accepted at the end of a run it was accepted at every
   point before, with a history that has only grown; so a file once refused is refused for ever.
   */
  lemma LogOnlyGrows(actions: seq<Action>, more: seq<Action>)
    ensures
      var f, f' := Run(START, actions).file, Run(START, actions + more).file;
      Continues(f, f') && (Accepted(f') ==> Accepted(f) && Replay(f).value <= Replay(f').value)
  {
    var f, f' := Run(START, actions).file, Run(START, actions + more).file;
    RunAppend(START, actions, more);
    ContinuesClosed(f);
    RunKeeps((w: World) => Continues(f, w.file), Run(START, actions), more);
    if Accepted(f') {
      ContinuedWasAccepted(f, f');
    }
  }

  // ----- File and memory -----

  /** Memory knows the history of an accepted file, or all of it but the last event. */
  ghost predicate Abreast(w: World) {
    w.mem.Up? && Accepted(w.file) ==>
      var h := Replay(w.file).value;
      Knows(w.mem, h) || (h != [] && Knows(w.mem, h[..|h| - 1]))
  }

  /** No two prefixes of a chain end in the same hash. */
  lemma HeadsDiffer(h: seq<Event>)
    requires Chained(h) && h != []
    ensures LastHash(h) != LastHash(h[..|h| - 1])
  {
    ChainedPrefix(h, |h| - 1);
    if LastHash(h) == LastHash(h[..|h| - 1]) {
      HashFixesHistory(h, h[..|h| - 1]);
    }
  }

  lemma WriteTears(f: File, e: Event, write: Write)
    requires !write.fate.FailsBefore? && (!f.tail.Clean? || write.fate.Tears?)
    ensures Torn in Lines(WriteLine(f, e, write.size, write.fate))
  {
    assert Lines(WriteLine(f, e, write.size, write.fate))[|f.lines|] == Torn;
  }

  /** What is written to a file that stays accepted is chained to all of it, and is the only thing added. */
  lemma WriteToAccepted(f: File, e: Event, write: Write)
    requires Accepted(WriteLine(f, e, write.size, write.fate))
    ensures Accepted(f)
    ensures
      var h, h' := Replay(f).value, Replay(WriteLine(f, e, write.size, write.fate)).value;
      if write.fate.FailsBefore? then h' == h else h' == h + [e] && e.prevHash == LastHash(h)
  {
    var f' := WriteLine(f, e, write.size, write.fate);
    WriteIsMonotone(f, e, write.size, write.fate);
    RecordedEvents(Lines(f'));
    ContinuedWasAccepted(f, f');
    if !write.fate.FailsBefore? {
      if !f.tail.Clean? || write.fate.Tears? {
        WriteTears(f, e, write);
      }
      assert Lines(f') == Lines(f) + [Record(e, write.size)];
      assert Lines(f')[..|Lines(f)|] == Lines(f);
    }
  }

  /**
   If the file is still accepted after an append that wrote anything, memory knew all of it before, and
   after a successful append it knows all of it again.
   */
  lemma EmitToAccepted(w: World, a: Action, draft: Event, write: Write)
    requires w.mem.Up? && Abreast(w) && Accepted(Emit(w, a, draft, write).file)
    ensures Accepted(w.file)
    ensures
      var h, w' := Replay(w.file).value, Emit(w, a, draft, write);
      var h' := Replay(w'.file).value;
      if write.fate.FailsBefore? then h' == h && w'.mem == w.mem
      else
        && h' == h + [Seal(draft, write, w.mem.lastHash)] && Knows(w.mem, h)
        && (if write.fate.Lands? then Knows(w'.mem, h') else w'.mem == w.mem)
  {
    var e := Seal(draft, write, w.mem.lastHash);
    WriteToAccepted(w.file, e, write);
    var h := Replay(w.file).value;
    if !write.fate.FailsBefore? {
      ReplayChains(w.file);
      if h != [] {
        HeadsDiffer(h);
      }
      RebuildSnoc(h, e);
    }
  }

  lemma AbreastClosed()
    ensures Closed(Abreast)
  {
    forall w: World, a, draft, write | w.mem.Up? && Abreast(w) ensures Abreast(Emit(w, a, draft, write)) {
      var w' := Emit(w, a, draft, write);
      if Accepted(w'.file) {
        EmitToAccepted(w, a, draft, write);
        var h, h' := Replay(w.file).value, Replay(w'.file).value;
        assert !write.fate.FailsBefore? ==> h'[..|h'| - 1] == h;
      }
    }
  }

  /**
   In every run, while the broker is up, either the file will never be accepted again, or its history is
   what memory knows, followed by at most one event.
   */
  lemma MemoryLagsByAtMostOne(actions: seq<Action>)
    ensures Abreast(Run(START, actions))
  {
    AbreastClosed();
    RunKeeps(Abreast, START, actions);
  }
}

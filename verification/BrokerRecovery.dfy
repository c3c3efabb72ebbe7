/**
 Recovery in every run, whatever appends do: also when earlier appends failed or tore, and when the
 recovery loop dies inside an append of its own.
 */
module BrokerRecovery {
  import opened Core
  import opened Events
  import opened HashLog
  import opened Projections
  import opened Broker
  import opened BrokerSafety
  import opened BrokerAgreement
  import opened BrokerDurability
  import Text

  // ----- What recovery events do to a history -----

  /** `h'` adds to `h` one recovery event each for some requests that were executing, and nothing else. */
  ghost predicate RecoveryOnly(h: seq<Event>, h': seq<Event>) {
    && Rebuilt(h).Ok? && Rebuilt(h').Ok? && h <= h'
    && (forall i :: |h| <= i < |h'| ==>
          h'[i].typ.RecoveryMarkedFailed? && Has(Rebuilt(h).value, h'[i].requestId, Executing))
    && (forall i, j :: |h| <= i < j < |h'| ==> h'[i].requestId != h'[j].requestId)
  }

  /** Exactly the marked requests have changed, from executing to failed. */
  lemma {:induction false} RecoveryEffect(h: seq<Event>, h': seq<Event>)
    requires RecoveryOnly(h, h')
    ensures
      var m, m' := Rebuilt(h).value, Rebuilt(h').value;
      && (forall i :: |h| <= i < |h'| ==> Has(m', h'[i].requestId, Failed))
      && (forall id :: (forall i :: |h| <= i < |h'| ==> h'[i].requestId != id) ==> Lookup(m', id) == Lookup(m, id))
    decreases |h'|
  {
    if |h'| == |h| {
      assert h == h';
    } else {
      var front, e := h'[..|h'| - 1], h'[|h'| - 1];
      assert h' == front + [e] && h <= front;
      RebuildSnoc(front, e);
      RecoveryEffect(h, front);
      MarkChangesOne(Rebuilt(front).value, Rebuilt(h').value, e);
      forall id | forall i :: |h| <= i < |h'| ==> h'[i].requestId != id
        ensures Lookup(Rebuilt(h').value, id) == Lookup(Rebuilt(h).value, id)
      {
        assert h'[|h'| - 1].requestId != id;
        assert forall i :: |h| <= i < |front| ==> front[i] == h'[i];
      }
    }
  }

  lemma MarkChangesOne(m: Requests, m': Requests, e: Event)
    requires Applied(m, e) == Ok(m') && e.typ.RecoveryMarkedFailed?
    ensures Has(m', e.requestId, Failed) && forall id :: id != e.requestId ==> Lookup(m', id) == Lookup(m, id)
  {
    AdvanceAccepts(Lookup(m, e.requestId), e);
  }

  lemma RecoveryComposes(h: seq<Event>, h': seq<Event>, h'': seq<Event>)
    requires RecoveryOnly(h, h') && RecoveryOnly(h', h'')
    ensures RecoveryOnly(h, h'')
  {
    RecoveryEffect(h, h');
    forall i | |h| <= i < |h''|
      ensures h''[i].typ.RecoveryMarkedFailed? && Has(Rebuilt(h).value, h''[i].requestId, Executing)
      ensures i >= |h'| ==> forall j :: |h| <= j < |h'| ==> h''[j].requestId != h''[i].requestId
    {
      if i < |h'| {
        assert h''[i] == h'[i];
      } else {
        assert Has(Rebuilt(h').value, h''[i].requestId, Executing);
        assert Lookup(Rebuilt(h').value, h''[i].requestId) == Lookup(Rebuilt(h).value, h''[i].requestId);
        assert forall j :: |h| <= j < |h'| ==> h''[j] == h'[j];
      }
    }
    assert forall j :: |h| <= j < |h'| ==> h''[j] == h'[j];
  }

  lemma OneMark(h: seq<Event>, e: Event)
    requires Rebuilt(h).Ok? && Rebuilt(h + [e]).Ok?
    requires e.typ.RecoveryMarkedFailed? && Has(Rebuilt(h).value, e.requestId, Executing)
    ensures RecoveryOnly(h, h + [e])
  {
  }

  lemma RecoveryIsComplete(h: seq<Event>, h': seq<Event>)
    requires RecoveryOnly(h, h') && forall id :: !Has(Rebuilt(h').value, id, Executing)
    ensures forall id :: Has(Rebuilt(h).value, id, Executing) ==> exists i :: |h| <= i < |h'| && h'[i].requestId == id
  {
    forall id | Has(Rebuilt(h).value, id, Executing) ensures exists i :: |h| <= i < |h'| && h'[i].requestId == id {
      DanglingIsMarked(h, h', id);
    }
  }

  lemma DanglingIsMarked(h: seq<Event>, h': seq<Event>, id: string)
    requires RecoveryOnly(h, h') && Has(Rebuilt(h).value, id, Executing) && !Has(Rebuilt(h').value, id, Executing)
    ensures exists i :: |h| <= i < |h'| && h'[i].requestId == id
  {
    RecoveryEffect(h, h');
    var m, m' := Rebuilt(h).value, Rebuilt(h').value;
    assert (forall i :: |h| <= i < |h'| ==> h'[i].requestId != id) ==> Lookup(m', id) == Lookup(m, id);
  }

  // ----- One run of the recovery loop -----

  ghost predicate NoneExecuting(mem: Memory) {
    mem.Up? ==> forall id :: !Has(mem.requests, id, Executing)
  }

  /** While the file is accepted, a running broker knows all of it. */
  ghost predicate InStep(w: World) {
    w.mem.Up? && Accepted(w.file) ==> Knows(w.mem, Replay(w.file).value)
  }

  /** From `w` to `w'` an accepted file has gained recovery events only, and memory is in step with it. */
  ghost predicate Recovers(w: World, w': World) {
    && NoneExecuting(w'.mem) && InStep(w')
    && (Accepted(w'.file) ==> Accepted(w.file) && RecoveryOnly(Replay(w.file).value, Replay(w'.file).value))
  }

  lemma MarkRecovers(w: World, a: Action, id: string, write: Write)
    requires w.mem.Up? && InStep(w) && Has(w.mem.requests, id, Executing)
    requires Accepted(Emit(w, a, RecoveryDraft(id), write).file)
    ensures Accepted(w.file)
    ensures RecoveryOnly(Replay(w.file).value, Replay(Emit(w, a, RecoveryDraft(id), write).file).value)
    ensures write.fate.Lands? ==> InStep(Emit(w, a, RecoveryDraft(id), write))
  {
    var w' := Emit(w, a, RecoveryDraft(id), write);
    EmitToAccepted(w, a, RecoveryDraft(id), write);
    var h := Replay(w.file).value;
    if !write.fate.FailsBefore? {
      OneMark(h, Seal(RecoveryDraft(id), write, w.mem.lastHash));
    }
  }

  /**
   One run of the recovery loop over the executing requests, complete or cut short by any append that
   fails in any way: it leaves none executing if it completes, and what it adds to a file that is still
   accepted is one recovery event each for requests that were executing.
   */
  lemma {:induction false} RecoverIsExact(w: World, a: Action, ids: seq<string>, writes: seq<Write>)
    requires w.mem.Up? && InStep(w) && Worklist(w.mem.requests, ids)
    ensures Recovers(w, Recover(w, a, ids, writes))
    decreases |ids|
  {
    if ids == [] || writes == [] {
      NothingRecovers(w, Recover(w, a, ids, writes));
    } else {
      var w1 := Emit(w, a, RecoveryDraft(ids[0]), writes[0]);
      if Accepted(w1.file) {
        MarkRecovers(w, a, ids[0], writes[0]);
      }
      if Emitted(w, RecoveryDraft(ids[0]), writes[0]) {
        WorklistAdvances(w, a, ids, writes[0]);
        RecoverIsExact(w1, a, ids[1..], writes[1..]);
        RecoversAfterMark(w, w1, Recover(w1, a, ids[1..], writes[1..]));
      }
    }
  }

  lemma NothingRecovers(w: World, w': World)
    requires w'.file == w.file && NoneExecuting(w'.mem) && InStep(w')
    ensures Recovers(w, w')
  {
  }

  lemma RecoversAfterMark(w: World, w1: World, w': World)
    requires Accepted(w1.file) ==> Accepted(w.file) && RecoveryOnly(Replay(w.file).value, Replay(w1.file).value)
    requires Recovers(w1, w')
    ensures Recovers(w, w')
  {
    if Accepted(w'.file) {
      RecoveryComposes(Replay(w.file).value, Replay(w1.file).value, Replay(w'.file).value);
    }
  }

  lemma RestartIsExact(w: World, a: Action)
    requires Safe(r => true, w) && w.mem.Down? && a.Restart?
    ensures Recovers(w, DoRestart(w, a))
  {
    if Accepted(w.file) {
      var history := Replay(w.file).value;
      var m := Rebuilt(history).value;
      RestartWorklist(w, history, m);
      RecoverIsExact(Reloaded(w, a.cfg), a, Dangling(m, Text.SortedKeys(m.Keys)), a.writes);
    }
  }

  // ----- Any number of reruns -----

  lemma RerunStep(w: World, a: Action)
    requires Safe(r => true, w) && NoneExecuting(w.mem) && InStep(w) && (a.Restart? || a.Crash?)
    ensures Recovers(w, Do(w, a))
  {
    if w.mem.Down? && a.Restart? {
      RestartIsExact(w, a);
    } else {
      NothingRecovers(w, Do(w, a));
    }
  }

  lemma {:induction false} RerunsRecover(actions: seq<Action>, reruns: seq<Action>)
    requires Run(START, actions).mem.Down?
    requires forall i :: 0 <= i < |reruns| ==> reruns[i].Restart? || reruns[i].Crash?
    ensures Recovers(Run(START, actions), Run(START, actions + reruns))
  {
    if reruns == [] {
      assert actions + reruns == actions;
      NothingRecovers(Run(START, actions), Run(START, actions));
    } else {
      var front, a := reruns[..|reruns| - 1], reruns[|reruns| - 1];
      assert actions + reruns == (actions + front) + [a];
      RerunsRecover(actions, front);
      RunSafe(r => true, actions + front);
      RunSnoc(START, actions + front, a);
      RerunStep(Run(START, actions + front), a);
      RecoversAfterMark(Run(START, actions), Run(START, actions + front), Run(START, actions + reruns));
    }
  }

  // ----- Main results -----

  /**
   In every run, recovery leaves no request executing, however often it is cut short, by a crash or by an
   append that fails in any way, and rerun. As long as a restart still accepts the file, what it has added
   is one recovery event for requests that were left executing, at most one each and, once the broker is
   up, exactly one each; nothing else has changed.
   */
  lemma RecoveryIsExactOverReruns(actions: seq<Action>, reruns: seq<Action>)
    requires Run(START, actions).mem.Down?
    requires forall i :: 0 <= i < |reruns| ==> reruns[i].Restart? || reruns[i].Crash?
    ensures NoneExecuting(Run(START, actions + reruns).mem)
    ensures
      var w, w' := Run(START, actions), Run(START, actions + reruns);
      Accepted(w'.file) ==> Accepted(w.file) && ExactlyRecovered(Replay(w.file).value, Replay(w'.file).value, w'.mem.Up?)
  {
    var w, w' := Run(START, actions), Run(START, actions + reruns);
    RerunsRecover(actions, reruns);
    if Accepted(w'.file) {
      RecoveryEffect(Replay(w.file).value, Replay(w'.file).value);
      if w'.mem.Up? {
        RecoveryIsComplete(Replay(w.file).value, Replay(w'.file).value);
      }
    }
  }

  /**
   `h'` adds to `h` recovery events only, for distinct requests that were executing and are now failed; all
   others are as they were; and if `complete`, every request that was executing has its event.
   */
  ghost predicate ExactlyRecovered(h: seq<Event>, h': seq<Event>, complete: bool) {
    && RecoveryOnly(h, h')
    && (forall i :: |h| <= i < |h'| ==> Has(Rebuilt(h').value, h'[i].requestId, Failed))
    && (forall id :: (forall i :: |h| <= i < |h'| ==> h'[i].requestId != id) ==>
          Lookup(Rebuilt(h').value, id) == Lookup(Rebuilt(h).value, id))
    && (complete ==>
          forall id :: Has(Rebuilt(h).value, id, Executing) ==> exists i :: |h| <= i < |h'| && h'[i].requestId == id)
  }

  /**
   After a run with all-or-nothing appends no restart is refused: given appends that succeed, it comes up
   with no request executing, and with exactly the dangling executions marked.
   */
  lemma RestartIsNeverRefused(actions: seq<Action>, cfg: Config, writes: seq<Write>)
    requires CleanRun(actions) && Run(START, actions).mem.Down?
    requires forall i :: 0 <= i < |writes| ==> writes[i].fate.Lands? && writes[i].size < SCANNER_LIMIT
    requires |writes| >= |History(Run(START, actions))|
    ensures
      var w, w' := Run(START, actions), Run(START, actions + [Restart(cfg, writes)]);
      && w'.mem.Up? && NoneExecuting(w'.mem) && Accepted(w'.file)
      && ExactlyRecovered(Replay(w.file).value, Replay(w'.file).value, true)
  {
    RestartComesUp(actions, cfg, writes);
    RecoveryIsExactOverReruns(actions, [Restart(cfg, writes)]);
  }

  lemma RestartComesUp(actions: seq<Action>, cfg: Config, writes: seq<Write>)
    requires CleanRun(actions) && Run(START, actions).mem.Down?
    requires forall i :: 0 <= i < |writes| ==> writes[i].fate.Lands? && writes[i].size < SCANNER_LIMIT
    requires |writes| >= |History(Run(START, actions))|
    ensures var w' := Run(START, actions + [Restart(cfg, writes)]); w'.mem.Up? && Accepted(w'.file)
  {
    var w := Run(START, actions);
    LogAndProjectionAgree(actions);
    RunSafe(r => true, actions);
    RunSnoc(START, actions, Restart(cfg, writes));
    ProjectionIsSmall(History(w));
    RestartAgrees(w, Restart(cfg, writes));
  }
}

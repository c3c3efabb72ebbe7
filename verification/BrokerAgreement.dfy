/**
 What holds in addition when appends are all-or-nothing, lines fit the replay scanner and request ids
 are fresh: log and projection agree at every point where the broker lock is free.
 */
module BrokerAgreement {
  import opened Core
  import opened Events
  import opened HashLog
  import opened Projections
  import opened Broker
  import opened BrokerSafety
  import opened Text

  ghost predicate CleanAction(w: World, a: Action) {
    match a
    case Submit(_, _, _, _, _, _, _, id, write) => AllOrNothing(write) && (w.mem.Up? ==> id !in w.mem.requests)
    case Status(_, _, _, write) => AllOrNothing(write)
    case Approve(_, _, _, _, _, _, write) => AllOrNothing(write)
    case Deny(_, _, _, _, _, _, write) => AllOrNothing(write)
    case ExecBegin(_, _, _, _, write) => AllOrNothing(write)
    case ExecEnd(_, write) => AllOrNothing(write)
    case Restart(_, writes) => forall i :: 0 <= i < |writes| ==> AllOrNothing(writes[i])
    case _ => true
  }

  ghost predicate CleanRun(actions: seq<Action>) {
    actions == [] ||
    (CleanRun(actions[..|actions| - 1])
     && CleanAction(Run(START, actions[..|actions| - 1]), actions[|actions| - 1]))
  }

  /** The file replays and rebuilds, and the running broker holds exactly what they give. */
  ghost predicate Agreement(w: World) {
    && w.file.tail.Clean?
    && Replay(w.file).Ok?
    && Rebuilt(History(w)).Ok?
    && (w.mem.Up? ==> w.mem.lastHash == LastHash(History(w)) && Rebuilt(History(w)) == Ok(w.mem.requests))
  }

  ghost function History(w: World): seq<Event> {
    match Replay(w.file) case Ok(events) => events case Err(_) => []
  }

  // ----- One append and apply -----

  /** Agreement survives an append exactly when it is all-or-nothing and `Apply` takes what landed. */
  lemma EmitAgreesIff(w: World, a: Action, draft: Event, write: Write)
    requires Agreement(w) && w.mem.Up?
    ensures Agreement(Emit(w, a, draft, write)) <==>
            AllOrNothing(write) && (write.fate.Lands? ==> Emitted(w, draft, write))
    ensures Agreement(Emit(w, a, draft, write)) ==>
            History(Emit(w, a, draft, write)) ==
            History(w) + if write.fate.Lands? then [Seal(draft, write, w.mem.lastHash)] else []
  {
    var e := Seal(draft, write, w.mem.lastHash);
    AppendKeepsAgreementIff(w.file, w.mem.lastHash, draft, write);
    RebuildSnoc(History(w), e);
    assert History(w) + [] == History(w);
  }

  /** In particular, a repeated request id makes the log one that no restart accepts. */
  lemma FreshIdIsNeeded(w: World, a: Action)
    requires Agreement(w) && w.mem.Up? && a.Submit? && a.lane.RequestLane? && a.argv != []
    requires a.write.fate.Lands? && a.write.size < SCANNER_LIMIT
    ensures Agreement(Do(w, a)) <==> a.id !in w.mem.requests
  {
    EmitAgreesIff(w, a, CreatedDraft(w.mem.cfg, a), a.write);
    AdvanceAccepts(Lookup(w.mem.requests, a.id), Seal(CreatedDraft(w.mem.cfg, a), a.write, w.mem.lastHash));
  }

  /** What every clean step does to the log: it appends at most events that `Apply` takes. */
  ghost predicate Extends(w: World, w': World) {
    Agreement(w') && History(w) <= History(w')
  }

  lemma EmitExtends(w: World, a: Action, draft: Event, write: Write)
    requires Agreement(w) && w.mem.Up? && AllOrNothing(write) && Decodable(draft)
    requires CanFollow(if draft.requestId in w.mem.requests then Some(w.mem.requests[draft.requestId].status) else None,
                       draft.typ)
    ensures Extends(w, Emit(w, a, draft, write))
    ensures Emitted(w, draft, write) <==> write.fate.Lands?
  {
    AdvanceAccepts(Lookup(w.mem.requests, draft.requestId), Seal(draft, write, w.mem.lastHash));
    EmitAgreesIff(w, a, draft, write);
  }

  // ----- Recovery -----

  /** The ids still to be recovered are the executing ones, each listed once. */
  ghost predicate Worklist(m: Requests, ids: seq<string>) {
    && (forall i :: 0 <= i < |ids| ==> Has(m, ids[i], Executing))
    && (forall i, j :: 0 <= i < j < |ids| ==> ids[i] != ids[j])
    && (forall id :: Has(m, id, Executing) ==> id in ids)
  }

  lemma {:induction false} RecoverAgrees(w: World, a: Action, ids: seq<string>, writes: seq<Write>)
    requires Agreement(w) && w.mem.Up? && Worklist(w.mem.requests, ids)
    requires forall i :: 0 <= i < |writes| ==> AllOrNothing(writes[i])
    ensures
      var w' := Recover(w, a, ids, writes);
      && Extends(w, w')
      && (|writes| >= |ids| && (forall i :: 0 <= i < |writes| ==> writes[i].fate.Lands?) ==> w'.mem.Up?)
    decreases |ids|
  {
    if ids != [] && writes != [] {
      var draft := RecoveryDraft(ids[0]);
      EmitExtends(w, a, draft, writes[0]);
      if Emitted(w, draft, writes[0]) {
        WorklistAdvances(w, a, ids, writes[0]);
        RecoverAgrees(Emit(w, a, draft, writes[0]), a, ids[1..], writes[1..]);
      }
    }
  }

  lemma WorklistAdvances(w: World, a: Action, ids: seq<string>, write: Write)
    requires w.mem.Up? && ids != [] && Worklist(w.mem.requests, ids) && Emitted(w, RecoveryDraft(ids[0]), write)
    ensures Worklist(Emit(w, a, RecoveryDraft(ids[0]), write).mem.requests, ids[1..])
  {
    var m, m' := w.mem.requests, Emit(w, a, RecoveryDraft(ids[0]), write).mem.requests;
    AdvanceAccepts(Lookup(m, ids[0]), Seal(RecoveryDraft(ids[0]), write, w.mem.lastHash));
    assert Has(m, ids[0], Executing) && Has(m', ids[0], Failed);
    forall id | Has(m', id, Executing) ensures id in ids[1..] {
      assert Has(m, id, Executing) && id != ids[0];
      var i :| 0 <= i < |ids| && ids[i] == id;
      assert ids[1..][i - 1] == id;
    }
  }

  lemma {:induction false} DanglingList(m: Requests, keys: seq<string>)
    requires forall id :: id in m ==> m[id].request.id == id
    requires forall i, j :: 0 <= i < j < |keys| ==> keys[i] != keys[j]
    ensures
      var ids := Dangling(m, keys);
      && (forall i :: 0 <= i < |ids| ==> Has(m, ids[i], Executing))
      && (forall i, j :: 0 <= i < j < |ids| ==> ids[i] != ids[j])
      && (forall id :: id in ids <==> id in keys && Has(m, id, Executing))
  {
    if keys != [] {
      DanglingList(m, keys[1..]);
      assert keys == [keys[0]] + keys[1..];
      assert keys[0] !in keys[1..];
      var rest := Dangling(m, keys[1..]);
      if Has(m, keys[0], Executing) {
        assert Dangling(m, keys) == [keys[0]] + rest;
        assert keys[0] !in rest;
        forall i, j | 0 <= i < j < |rest| + 1 ensures ([keys[0]] + rest)[i] != ([keys[0]] + rest)[j] {
          assert ([keys[0]] + rest)[j] == rest[j - 1];
          assert rest[j - 1] in rest;
        }
      }
    }
  }

  lemma RestartWorklist(w: World, history: seq<Event>, m: Requests)
    requires Safe(r => true, w) && Replay(w.file) == Ok(history) && Rebuilt(history) == Ok(m)
    ensures Worklist(m, Dangling(m, SortedKeys(m.Keys)))
  {
    RestartRebuildsSafely(r => true, w, history, m);
    forall id | id in m ensures m[id].request.id == id {
      assert SnapshotOk(r => true, w.file, w.calls, id, m[id]);
    }
    SortedKeysExact(m.Keys);
    DanglingList(m, SortedKeys(m.Keys));
  }

  lemma RestartAgrees(w: World, a: Action)
    requires Safe(r => true, w) && Agreement(w) && w.mem.Down? && a.Restart? && CleanAction(w, a)
    ensures
      var w' := DoRestart(w, a);
      && Extends(w, w')
      && (|a.writes| >= |Rebuilt(History(w)).value| && (forall i :: 0 <= i < |a.writes| ==> a.writes[i].fate.Lands?) ==>
            w'.mem.Up?)
  {
    var m := Rebuilt(History(w)).value;
    RestartWorklist(w, History(w), m);
    SortedKeysExact(m.Keys);
    DanglingShorter(m, SortedKeys(m.Keys));
    RecoverAgrees(w.(mem := Up(a.cfg, LastHash(History(w)), m, map[])), a, Dangling(m, SortedKeys(m.Keys)), a.writes);
  }

  lemma {:induction false} DanglingShorter(m: Requests, keys: seq<string>)
    ensures |Dangling(m, keys)| <= |keys|
  {
    if keys != [] {
      DanglingShorter(m, keys[1..]);
    }
  }

  // ----- Every action -----

  lemma ReviewAgrees(w: World, a: Action, draft: Event)
    requires Agreement(w) && w.mem.Up? && CleanAction(w, a)
    requires (a.Approve? && draft == ApprovedDraft(a)) || (a.Deny? && draft == DeniedDraft(a))
    ensures Extends(w, DoReview(w, a, draft))
  {
    if Has(w.mem.requests, a.id, Pending) {
      EmitExtends(w, a, ExpiredDraft(a.id), a.write);
      EmitExtends(w, a, draft, a.write);
    }
  }

  lemma ExecBeginAgrees(w: World, a: Action)
    requires Agreement(w) && w.mem.Up? && CleanAction(w, a) && a.ExecBegin?
    ensures Extends(w, DoExecBegin(w, a))
  {
    if Has(w.mem.requests, a.id, Pending) {
      EmitExtends(w, a, ExpiredDraft(a.id), a.write);
    } else if Has(w.mem.requests, a.id, Approved) {
      EmitExtends(w, a, StartedDraft(w.mem.cfg, a.id, w.mem.requests[a.id].request.digest), a.write);
    }
  }

  lemma ExecEndAgrees(w: World, a: Action)
    requires Safe(r => true, w) && Agreement(w) && w.mem.Up? && CleanAction(w, a) && a.ExecEnd?
    ensures Extends(w, DoExecEnd(w, a))
  {
    if a.thread in w.mem.flights && w.mem.flights[a.thread].phase.Returned? {
      var flight := w.mem.flights[a.thread];
      assert FlightOk(w.calls, w.mem.requests, flight);
      EmitExtends(w, a, FinishDraft(flight.id, w.calls[flight.phase.call].outcome.value), a.write);
    }
  }

  lemma SubmitAgrees(w: World, a: Action)
    requires Agreement(w) && w.mem.Up? && CleanAction(w, a) && a.Submit?
    ensures Extends(w, DoSubmit(w, a))
  {
    EmitExtends(w, a, CreatedDraft(w.mem.cfg, a), a.write);
  }

  lemma DoAgrees(w: World, a: Action)
    requires Safe(r => true, w) && Agreement(w) && CleanAction(w, a)
    ensures Extends(w, Do(w, a))
  {
    if w.mem.Down? {
      if a.Restart? {
        RestartAgrees(w, a);
      }
    } else {
      match a
      case Submit(_, _, _, _, _, _, _, _, _) => SubmitAgrees(w, a);
      case Status(_, _, _, _) =>
        if Overdue(w.mem.requests, a.id, a.now) {
          EmitExtends(w, a, ExpiredDraft(a.id), a.write);
        }
      case Approve(_, _, _, _, _, _, _) => ReviewAgrees(w, a, ApprovedDraft(a));
      case Deny(_, _, _, _, _, _, _) => ReviewAgrees(w, a, DeniedDraft(a));
      case ExecBegin(_, _, _, _, _) => ExecBeginAgrees(w, a);
      case ExecEnd(_, _) => ExecEndAgrees(w, a);
      case _ =>
    }
  }

  // ----- Main results -----

  /**
   At every point of a clean run, also while commands run, the file replays, its history rebuilds, and
   the running broker's projection and head are exactly what they give.
   */
  lemma {:induction false} LogAndProjectionAgree(actions: seq<Action>)
    requires CleanRun(actions)
    ensures Agreement(Run(START, actions))
  {
    if actions != [] {
      var front := actions[..|actions| - 1];
      LogAndProjectionAgree(front);
      RunSafe(r => true, front);
      DoAgrees(Run(START, front), actions[|actions| - 1]);
    }
  }

  lemma {:induction false} ProjectionIsSmall(h: seq<Event>)
    requires Rebuilt(h).Ok?
    ensures |Rebuilt(h).value| <= |h|
  {
    if h != [] {
      var front, e := h[..|h| - 1], h[|h| - 1];
      ProjectionIsSmall(front);
      var m, m' := Rebuilt(front).value, Rebuilt(h).value;
      assert m'.Keys == m.Keys + {e.requestId};
    }
  }
}

/**
 Who approved what was run, in every run, whatever appends do: each executor call goes back to an approval
 given on the review lane by an allowed peer, in time, and not by the requester; and what is terminal
 stays as it is.
 */
module BrokerApproval {
  import opened Core
  import opened Events
  import opened HashLog
  import opened Projections
  import opened Broker
  import opened BrokerSafety
  import opened BrokerAgreement
  import opened BrokerDurability
  import opened BrokerRecords

  // ----- Along one history -----

  /** A request's rank only rises along a history, its record never changes, and what is terminal stays. */
  lemma {:induction false} HistoryClimbs(h: seq<Event>, i: nat, j: nat, id: string)
    requires Rebuilt(h).Ok? && i <= j <= |h|
    requires Rebuilt(h[..i]).Ok? && id in Rebuilt(h[..i]).value
    ensures
      Rebuilt(h[..j]).Ok? && id in Rebuilt(h[..j]).value
      && var s, s' := Rebuilt(h[..i]).value[id], Rebuilt(h[..j]).value[id];
         && s.status.Rank() <= s'.status.Rank() && s'.request == s.request
         && (s.status.Terminal() ==> s' == s)
    decreases j
  {
    RebuildPrefix(h, j);
    if i < j {
      HistoryClimbs(h, i, j - 1, id);
      assert h[..j][..j - 1] == h[..j - 1];
      if h[j - 1].requestId == id {
        AdvanceClimbs(Lookup(Rebuilt(h[..j - 1]).value, id), h[j - 1]);
      }
    }
  }

  lemma StepOfHistory(h: seq<Event>, i: nat)
    requires Rebuilt(h).Ok? && i < |h|
    ensures Rebuilt(h[..i]).Ok? && Rebuilt(h[..i + 1]).Ok?
    ensures CanFollow(if h[i].requestId in Rebuilt(h[..i]).value
                      then Some(Rebuilt(h[..i]).value[h[i].requestId].status) else None, h[i].typ)
    ensures Has(Rebuilt(h[..i + 1]).value, h[i].requestId, StatusAfter(h[i].typ))
  {
    RebuildPrefix(h, i);
    RebuildPrefix(h, i + 1);
    assert h[..i + 1][..i] == h[..i];
    AdvanceAccepts(Lookup(Rebuilt(h[..i]).value, h[i].requestId), h[i]);
  }

  lemma {:induction false} ApprovedSomewhere(h: seq<Event>, id: string) returns (j: nat)
    requires Rebuilt(h).Ok? && id in Rebuilt(h).value && Rebuilt(h).value[id].status.Granted()
    ensures j < |h| && h[j].requestId == id && h[j].typ.RequestApproved?
  {
    var front, e := h[..|h| - 1], h[|h| - 1];
    if e.requestId == id {
      AdvanceAccepts(Lookup(Rebuilt(front).value, id), e);
    }
    if e.requestId == id && e.typ.RequestApproved? {
      j := |h| - 1;
    } else {
      j := ApprovedSomewhere(front, id);
    }
  }

  lemma ApprovedOnce(h: seq<Event>, i: nat, j: nat)
    requires Rebuilt(h).Ok? && i < j < |h|
    requires h[i].typ.RequestApproved? && h[j].typ.RequestApproved?
    ensures h[i].requestId != h[j].requestId
  {
    StepOfHistory(h, i);
    StepOfHistory(h, j);
    HistoryClimbs(h, i + 1, j, h[i].requestId);
  }

  // ----- Each event of an accepted log was written by a broker that knew what the log said -----

  ghost predicate Traced(h: seq<Event>, attempts: seq<Attempt>, i: nat)
    requires i < |h| && Rebuilt(h[..i]).Ok?
  {
    exists at :: at in attempts && at.event == h[i] && at.seen == Lookup(Rebuilt(h[..i]).value, h[i].requestId)
  }

  ghost predicate AllTraced(h: seq<Event>, attempts: seq<Attempt>) {
    forall i :: 0 <= i < |h| ==> Rebuilt(h[..i]).Ok? && Traced(h, attempts, i)
  }

  lemma TracedSnoc(h: seq<Event>, attempts: seq<Attempt>, at: Attempt)
    requires AllTraced(h, attempts) && Rebuilt(h).Ok?
    requires at.seen == Lookup(Rebuilt(h).value, at.event.requestId)
    ensures AllTraced(h + [at.event], attempts + [at])
  {
    var h' := h + [at.event];
    forall i | 0 <= i < |h'| ensures Rebuilt(h'[..i]).Ok? && Traced(h', attempts + [at], i) {
      if i < |h| {
        assert h'[..i] == h[..i] && Traced(h, attempts, i);
      } else {
        assert h'[..i] == h && (attempts + [at])[|attempts|] == at;
      }
    }
  }

  lemma TracedGrows(h: seq<Event>, attempts: seq<Attempt>, at: Attempt)
    requires AllTraced(h, attempts)
    ensures AllTraced(h, attempts + [at])
  {
    forall i | 0 <= i < |h| ensures Rebuilt(h[..i]).Ok? && Traced(h, attempts + [at], i) {
      assert Traced(h, attempts, i);
    }
  }

  ghost predicate TracedLog(w: World) {
    Abreast(w) && (Accepted(w.file) ==> AllTraced(Replay(w.file).value, w.attempts))
  }

  lemma EmitTraced(w: World, a: Action, draft: Event, write: Write)
    requires w.mem.Up? && TracedLog(w) && Accepted(Emit(w, a, draft, write).file)
    ensures AllTraced(Replay(Emit(w, a, draft, write).file).value, Emit(w, a, draft, write).attempts)
  {
    var e := Seal(draft, write, w.mem.lastHash);
    var at := Attempt(w.mem.cfg, a, e, Lookup(w.mem.requests, e.requestId));
    EmitToAccepted(w, a, draft, write);
    if write.fate.FailsBefore? {
      TracedGrows(Replay(w.file).value, w.attempts, at);
    } else {
      TracedSnoc(Replay(w.file).value, w.attempts, at);
    }
  }

  lemma TracedClosed()
    ensures Closed(TracedLog)
  {
    AbreastClosed();
    forall w: World, a, draft, write | w.mem.Up? && TracedLog(w) ensures TracedLog(Emit(w, a, draft, write)) {
      if Accepted(Emit(w, a, draft, write).file) {
        EmitTraced(w, a, draft, write);
      }
    }
  }

  /** In every run, each event of an accepted log was written by a broker that knew what the log before it says. */
  lemma LogIsTraced(actions: seq<Action>)
    requires Accepted(Run(START, actions).file)
    ensures AllTraced(Replay(Run(START, actions).file).value, Run(START, actions).attempts)
  {
    TracedClosed();
    RunKeeps(TracedLog, START, actions);
  }

  // ----- Every approval in force was attempted, and is in the file -----

  /** The event is in the file, unless the file is damaged and will never replay again. */
  ghost predicate Written(f: File, e: Event) {
    Torn in Lines(f) || OnDisk(f, e)
  }

  /** The attempt wrote an approval of this request, having seen this record of it. */
  ghost predicate Grants(f: File, at: Attempt, id: string, r: Request) {
    && at.event.typ.RequestApproved? && at.event.requestId == id && Written(f, at.event)
    && at.seen.Some? && at.seen.value.request == r
  }

  ghost predicate Backed(f: File, attempts: seq<Attempt>, id: string, r: Request) {
    exists at :: at in attempts && Grants(f, at, id, r)
  }

  ghost predicate BackedSnapshot(w: World, id: string)
    requires w.mem.Up? && id in w.mem.requests
  {
    w.mem.requests[id].status.Granted() ==> Backed(w.file, w.attempts, id, w.mem.requests[id].request)
  }

  ghost predicate BackedMemory(w: World) {
    TracedLog(w) && (w.mem.Up? ==> forall id :: id in w.mem.requests ==> BackedSnapshot(w, id))
  }

  lemma BackedGrows(w: World, a: Action, draft: Event, write: Write, id: string, r: Request)
    requires w.mem.Up? && Backed(w.file, w.attempts, id, r)
    ensures Backed(Emit(w, a, draft, write).file, Emit(w, a, draft, write).attempts, id, r)
  {
    var at :| at in w.attempts && Grants(w.file, at, id, r);
    WriteKeepsWritten(w.file, Seal(draft, write, w.mem.lastHash), write, at.event);
    assert at in Emit(w, a, draft, write).attempts;
  }

  lemma WriteKeepsWritten(f: File, e: Event, write: Write, e': Event)
    requires Written(f, e')
    ensures Written(WriteLine(f, e, write.size, write.fate), e')
  {
    var f' := WriteLine(f, e, write.size, write.fate);
    WriteIsMonotone(f, e, write.size, write.fate);
    if Torn !in Lines(f') {
      var size: nat :| Record(e', size) in Lines(f);
      var i :| 0 <= i < |Lines(f)| && Lines(f)[i] == Record(e', size);
      assert Lines(f')[i] == Record(e', size);
    }
  }

  lemma EmitBacked(w: World, a: Action, draft: Event, write: Write, id: string)
    requires w.mem.Up? && id in Emit(w, a, draft, write).mem.requests
    requires id in w.mem.requests ==> BackedSnapshot(w, id)
    ensures BackedSnapshot(Emit(w, a, draft, write), id)
  {
    var w' := Emit(w, a, draft, write);
    var e := Seal(draft, write, w.mem.lastHash);
    if w'.mem.requests[id].status.Granted() {
      if Emitted(w, draft, write) && e.requestId == id {
        AdvanceAccepts(Lookup(w.mem.requests, id), e);
        AdvanceClimbs(Lookup(w.mem.requests, id), e);
      }
      if Emitted(w, draft, write) && e.requestId == id && e.typ.RequestApproved? {
        LandedIsOnDisk(w.file, e, write);
        var at := w'.attempts[|w.attempts|];
        assert at in w'.attempts && Grants(w'.file, at, id, w'.mem.requests[id].request);
      } else {
        BackedGrows(w, a, draft, write, id, w.mem.requests[id].request);
      }
    }
  }

  lemma ReloadBacked(w: World, cfg: Config, id: string)
    requires TracedLog(w) && Accepted(w.file) && id in Reloaded(w, cfg).mem.requests
    ensures BackedSnapshot(Reloaded(w, cfg), id)
  {
    var h := Replay(w.file).value;
    if Rebuilt(h).value[id].status.Granted() {
      var j := ApprovedSomewhere(h, id);
      var at := ApprovalGrounds(h, w.attempts, j);
      RecordedEvents(Lines(w.file));
      assert h[j] in h;
      assert Grants(w.file, at, id, Rebuilt(h).value[id].request);
    }
  }

  /** The attempt behind an approval in a traced history saw the record the request still has at its end. */
  lemma ApprovalGrounds(h: seq<Event>, attempts: seq<Attempt>, j: nat) returns (at: Attempt)
    requires Rebuilt(h).Ok? && AllTraced(h, attempts) && j < |h| && h[j].typ.RequestApproved?
    ensures at in attempts && at.event == h[j] && at.seen.Some? && h[j].requestId in Rebuilt(h).value
    ensures at.seen.value.request == Rebuilt(h).value[h[j].requestId].request
  {
    assert Traced(h, attempts, j);
    at :| at in attempts && at.event == h[j] && at.seen == Lookup(Rebuilt(h[..j]).value, h[j].requestId);
    StepOfHistory(h, j);
    HistoryClimbs(h, j, |h|, h[j].requestId);
    assert h[..|h|] == h;
  }

  lemma BackedClosed()
    ensures Closed(BackedMemory)
  {
    TracedClosed();
    forall w: World, a, draft, write | w.mem.Up? && BackedMemory(w) ensures BackedMemory(Emit(w, a, draft, write)) {
      forall id | id in Emit(w, a, draft, write).mem.requests ensures BackedSnapshot(Emit(w, a, draft, write), id) {
        EmitBacked(w, a, draft, write, id);
      }
    }
    forall w: World, cfg | Accepted(w.file) && BackedMemory(w) ensures BackedMemory(Reloaded(w, cfg)) {
      forall id | id in Reloaded(w, cfg).mem.requests ensures BackedSnapshot(Reloaded(w, cfg), id) {
        ReloadBacked(w, cfg, id);
      }
    }
    forall w, w' | Alike(w, w') && BackedMemory(w) ensures BackedMemory(w') {
      forall id | id in w'.mem.requests ensures BackedSnapshot(w', id) {
        assert BackedSnapshot(w, id);
      }
    }
  }

  // ----- Main results -----

  /** An approval of this request that meets every rule, found among the attempts of a world. */
  ghost predicate ProperlyApproved(w: World, r: Request) {
    exists at ::
      && at in w.attempts && at.event.typ.RequestApproved? && at.event.requestId == r.id && Written(w.file, at.event)
      && at.action.Approve? && ProperReview(at, r)
  }

  lemma GrantedIsApproved(actions: seq<Action>, id: string)
    requires var mem := Run(START, actions).mem; mem.Up? && id in mem.requests && mem.requests[id].status in {Approved, Executing, Executed, Failed}
    ensures
      var w := Run(START, actions);
      w.mem.requests[id].request.id == id && ProperlyApproved(w, w.mem.requests[id].request)
  {
    var w := Run(START, actions);
    BackedClosed();
    RunKeeps(BackedMemory, START, actions);
    RunSafe(r => true, actions);
    assert SnapshotOk(r => true, w.file, w.calls, id, w.mem.requests[id]);
    EveryEventIsJustified(actions);
    assert BackedSnapshot(w, id);
    var at :| at in w.attempts && Grants(w.file, at, id, w.mem.requests[id].request);
    assert Justified(at);
  }

  lemma StepKeepsCalls(w: World, a: Action, k: nat)
    requires k < |w.calls|
    ensures k < |Do(w, a).calls| && Do(w, a).calls[k].request == w.calls[k].request
  {
    if w.mem.Down? && a.Restart? {
      RestartCallsNothing(w, a);
    }
  }

  /** The request was properly approved at some point of the run at which at most `k` calls had been made. */
  ghost predicate ApprovedBeforeCall(actions: seq<Action>, k: nat, r: Request) {
    exists n :: 0 <= n <= |actions| && |Run(START, actions[..n]).calls| <= k
                && ProperlyApproved(Run(START, actions[..n]), r)
  }

  lemma ApprovedBeforeStays(actions: seq<Action>, a: Action, k: nat, r: Request)
    requires ApprovedBeforeCall(actions, k, r)
    ensures ApprovedBeforeCall(actions + [a], k, r)
  {
    var n :| 0 <= n <= |actions| && |Run(START, actions[..n]).calls| <= k
             && ProperlyApproved(Run(START, actions[..n]), r);
    assert (actions + [a])[..n] == actions[..n];
  }

  lemma NewCallWasApproved(actions: seq<Action>, a: Action, k: nat)
    requires |Run(START, actions).calls| <= k < |Do(Run(START, actions), a).calls|
    ensures ApprovedBeforeCall(actions + [a], k, Do(Run(START, actions), a).calls[k].request)
  {
    CalledOnlyWhileExecuting(actions, a);
    GrantedIsApproved(actions, Do(Run(START, actions), a).calls[k].request.id);
    assert (actions + [a])[..|actions|] == actions;
  }

  /**
   In every run, whatever its appends do, each executor call was made after an approval of its request
   had been written: given on the review lane by an allowed peer, in the name of a non-empty approver who
   is none of the requester's three names, at a clock reading before the request's expiry.
   */
  lemma {:induction false} EveryCallWasApproved(actions: seq<Action>, k: nat)
    requires k < |Run(START, actions).calls|
    ensures ApprovedBeforeCall(actions, k, Run(START, actions).calls[k].request)
  {
    var front, a := actions[..|actions| - 1], actions[|actions| - 1];
    assert actions == front + [a];
    if k < |Run(START, front).calls| {
      EveryCallWasApproved(front, k);
      StepKeepsCalls(Run(START, front), a, k);
      ApprovedBeforeStays(front, a, k, Run(START, front).calls[k].request);
    } else {
      NewCallWasApproved(front, a, k);
    }
  }

  /**
   In every run whose file a restart would accept, each `execution_started` in the log is preceded by
   exactly one approval of its request, which meets all those rules.
   */
  lemma ExecutionIsPrecededByApproval(actions: seq<Action>, k: nat)
    requires Accepted(Run(START, actions).file)
    requires var h := Replay(Run(START, actions).file).value; k < |h| && h[k].typ.ExecutionStarted?
    ensures
      var w := Run(START, actions);
      var h := Replay(w.file).value;
      var id := h[k].requestId;
      && id in Rebuilt(h).value
      && exists j, at ::
           && 0 <= j < k && h[j].requestId == id && h[j].typ.RequestApproved?
           && (forall i :: 0 <= i < |h| && h[i].requestId == id && h[i].typ.RequestApproved? ==> i == j)
           && at in w.attempts && at.event == h[j]
           && at.action.Approve? && h[j].actor == at.action.approver && ProperReview(at, Rebuilt(h).value[id].request)
  {
    var w := Run(START, actions);
    var h := Replay(w.file).value;
    var id := h[k].requestId;
    StepOfHistory(h, k);
    var j := ApprovedSomewhere(h[..k], id);
    forall i | 0 <= i < |h| && h[i].requestId == id && h[i].typ.RequestApproved? ensures i == j {
      if i < j {
        ApprovedOnce(h, i, j);
      } else if j < i {
        ApprovedOnce(h, j, i);
      }
    }
    LogIsTraced(actions);
    EveryEventIsJustified(actions);
    var at := ApprovalGrounds(h, w.attempts, j);
    assert Justified(at);
  }

  /** While the file is accepted, every call has its start in the log, under the record that was handed over. */
  lemma CallsAreInTheLog(actions: seq<Action>, k: nat)
    requires Accepted(Run(START, actions).file) && k < |Run(START, actions).calls|
    ensures
      var w := Run(START, actions);
      var h, r := Replay(w.file).value, w.calls[k].request;
      && r.id in Rebuilt(h).value && Rebuilt(h).value[r.id].request == r
      && exists s :: 0 <= s < |h| && h[s].requestId == r.id && h[s].typ.ExecutionStarted?
  {
    var w := Run(START, actions);
    var h, r := Replay(w.file).value, w.calls[k].request;
    RunSafe(r => true, actions);
    RestartRebuildsSafely(r => true, w, h, Rebuilt(h).value);
    assert Spent(Rebuilt(h).value, r) && CallOk(r => true, w.file, r);
    RecordedEvents(Lines(w.file));
    var e :| OnDisk(w.file, e) && e.typ.ExecutionStarted? && e.requestId == r.id;
    assert e in h;
  }

  /** Memory and, as long as it is accepted, the file hold this snapshot. */
  ghost predicate Kept(id: string, snap: Snapshot, w: World) {
    && (w.mem.Up? ==> Lookup(w.mem.requests, id) == Some(snap))
    && (Accepted(w.file) ==> Lookup(Rebuilt(Replay(w.file).value).value, id) == Some(snap))
  }

  lemma KeptClosed(id: string, snap: Snapshot)
    requires snap.status.Terminal()
    ensures Closed((w: World) => Kept(id, snap, w))
  {
    forall w: World, a, draft, write | w.mem.Up? && Kept(id, snap, w) ensures Kept(id, snap, Emit(w, a, draft, write)) {
      var e := Seal(draft, write, w.mem.lastHash);
      if Emitted(w, draft, write) && e.requestId == id {
        AdvanceClimbs(Some(snap), e);
      }
      if Accepted(Emit(w, a, draft, write).file) {
        WriteToAccepted(w.file, e, write);
        TerminalStays(Replay(w.file).value, Replay(Emit(w, a, draft, write).file).value, id);
      }
    }
  }

  lemma TerminalStays(h: seq<Event>, h': seq<Event>, id: string)
    requires h <= h' && Rebuilt(h).Ok? && Rebuilt(h').Ok?
    requires id in Rebuilt(h).value && Rebuilt(h).value[id].status.Terminal()
    ensures Lookup(Rebuilt(h').value, id) == Lookup(Rebuilt(h).value, id)
  {
    assert h'[..|h|] == h && h'[..|h'|] == h';
    HistoryClimbs(h', |h|, |h'|, id);
  }

  /**
   In every run, a request that has reached a terminal status keeps its whole snapshot for ever, whatever
   the clock reads later and whatever appends do: an expired or denied request is never approved, a failed
   one never runs again.
   */
  lemma TerminalIsForever(actions: seq<Action>, more: seq<Action>, id: string)
    requires
      var w := Run(START, actions);
      w.mem.Up? && id in w.mem.requests && w.mem.requests[id].status in {Denied, Expired, Executed, Failed, Revoked}
    ensures var w, w' := Run(START, actions), Run(START, actions + more);
            w'.mem.Up? ==> Lookup(w'.mem.requests, id) == Lookup(w.mem.requests, id)
  {
    var w := Run(START, actions);
    var snap := w.mem.requests[id];
    MemoryLagsByAtMostOne(actions);
    if Accepted(w.file) {
      var h := Replay(w.file).value;
      TerminalStays(if Knows(w.mem, h) then h else h[..|h| - 1], h, id);
    }
    KeptClosed(id, snap);
    RunAppend(START, actions, more);
    RunKeeps((w: World) => Kept(id, snap, w), w, more);
  }

  /** A status query, review or execution of an overdue request that can write leaves it expired, and nothing else. */
  lemma OverdueExpires(w: World, a: Action)
    requires w.mem.Up? && (a.Status? || a.Approve? || a.Deny? || a.ExecBegin?)
    requires if a.Approve? || a.Deny?
             then a.lane.ReviewLane? && (a.peer.uid in w.mem.cfg.reviewUids || a.peer.gid in w.mem.cfg.reviewGids)
             else a.lane.RequestLane?
    requires a.ExecBegin? ==> a.thread !in w.mem.flights
    requires Has(w.mem.requests, a.id, Pending) && a.now >= w.mem.requests[a.id].request.expiresAt && a.write.fate.Lands?
    ensures
      var mem := Do(w, a).mem;
      && mem.Up? && Has(mem.requests, a.id, Expired) && mem.flights == w.mem.flights
      && forall id :: id != a.id ==> Lookup(mem.requests, id) == Lookup(w.mem.requests, id)
  {
    AdvanceAccepts(Lookup(w.mem.requests, a.id), Seal(ExpiredDraft(a.id), a.write, w.mem.lastHash));
  }
}

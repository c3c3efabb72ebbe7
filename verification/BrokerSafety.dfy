/**
 What holds in every run of the broker, whatever its appends do: they may fail before, during or
 after the write, at any time, also inside recovery, and request ids may even repeat.
 */
module BrokerSafety {
  import opened Core
  import opened Events
  import opened HashLog
  import opened Projections
  import opened Execution
  import opened Broker

  // ----- The invariant -----

  /** Some call for this request returned this result and no error. */
  ghost predicate ReturnedOk(calls: seq<Call>, id: string, result: ExecutionResult) {
    exists k :: 0 <= k < |calls| && calls[k].request.id == id && calls[k].outcome == Some(Outcome(result, false))
  }

  /** What a written event may be relied on to say. */
  ghost predicate Truthful(p: Request -> bool, calls: seq<Call>, e: Event) {
    && (e.typ.RequestCreated? ==>
          e.details.CreatedJson? && e.details.request.id == e.requestId && p(e.details.request))
    && (e.typ.ExecutionSucceeded? ==>
          e.details.FinishedJson? && ReturnedOk(calls, e.requestId, e.details.result))
  }

  ghost predicate OnDisk(f: File, e: Event) {
    Recorded(Lines(f), e)
  }

  /** The file holds the request's creation, unless it is damaged and will never replay again. */
  ghost predicate CreatedOnDisk(f: File, r: Request) {
    Torn in Lines(f)
    || exists e :: OnDisk(f, e) && e.typ.RequestCreated? && e.requestId == r.id && e.details == CreatedJson(r)
  }

  ghost predicate StartedOnDisk(f: File, id: string) {
    Torn in Lines(f) || exists e :: OnDisk(f, e) && e.typ.ExecutionStarted? && e.requestId == id
  }

  ghost predicate Distinct(calls: seq<Call>) {
    forall j, k :: 0 <= j < k < |calls| ==> calls[j].request.id != calls[k].request.id
  }

  ghost predicate DiskOk(p: Request -> bool, f: File, calls: seq<Call>) {
    && (forall e :: OnDisk(f, e) ==> Truthful(p, calls, e))
    && (forall k :: 0 <= k < |calls| ==> CallOk(p, f, calls[k].request))
  }

  ghost predicate CallOk(p: Request -> bool, f: File, r: Request) {
    p(r) && CreatedOnDisk(f, r) && StartedOnDisk(f, r.id)
  }

  ghost predicate SnapshotOk(p: Request -> bool, f: File, calls: seq<Call>, id: string, snap: Snapshot) {
    && snap.request.id == id
    && p(snap.request)
    && CreatedOnDisk(f, snap.request)
    && (snap.status.Consumed() ==> StartedOnDisk(f, id))
    && (snap.status == Executed ==> snap.execution.Some? && ReturnedOk(calls, id, snap.execution.value))
  }

  /** A call for this request has used up its approval. */
  ghost predicate Spent(m: Requests, r: Request) {
    r.id in m && m[r.id].request == r && m[r.id].status.Consumed()
  }

  ghost predicate MemOk(p: Request -> bool, f: File, calls: seq<Call>, m: Requests) {
    && (forall id :: id in m ==> SnapshotOk(p, f, calls, id, m[id]))
    && (forall k :: 0 <= k < |calls| ==> Spent(m, calls[k].request))
  }

  ghost predicate FlightOk(calls: seq<Call>, m: Requests, flight: Flight) {
    && Has(m, flight.id, Executing)
    && flight.request == m[flight.id].request && flight.request.id == flight.id
    && match flight.phase
       case Begun => forall k :: 0 <= k < |calls| ==> calls[k].request.id != flight.id
       case Running(k) => k < |calls| && calls[k] == Call(flight.request, None)
       case Returned(k) => k < |calls| && calls[k].request == flight.request && calls[k].outcome.Some?
  }

  ghost predicate FlightsOk(calls: seq<Call>, m: Requests, flights: map<nat, Flight>) {
    && (forall t :: t in flights ==> FlightOk(calls, m, flights[t]))
    && (forall t, u :: t in flights && u in flights && t != u ==> flights[t].id != flights[u].id)
  }

  ghost predicate Safe(p: Request -> bool, w: World) {
    && Distinct(w.calls)
    && DiskOk(p, w.file, w.calls)
    && (w.mem.Up? ==>
          MemOk(p, w.file, w.calls, w.mem.requests) && FlightsOk(w.calls, w.mem.requests, w.mem.flights))
  }

  // ----- Writing keeps what the file is relied on for -----

  lemma WriteKeepsDisk(p: Request -> bool, f: File, calls: seq<Call>, e: Event, write: Write)
    requires DiskOk(p, f, calls) && Truthful(p, calls, e)
    ensures DiskOk(p, WriteLine(f, e, write.size, write.fate), calls)
  {
    var f' := WriteLine(f, e, write.size, write.fate);
    WriteIsMonotone(f, e, write.size, write.fate);
    forall e' | OnDisk(f', e') ensures Truthful(p, calls, e') {
      var size: nat :| Record(e', size) in Lines(f');
      if Record(e', size) in Lines(f) {
        assert OnDisk(f, e');
      }
    }
    forall k | 0 <= k < |calls| ensures CallOk(p, f', calls[k].request) {
      assert CallOk(p, f, calls[k].request);
      WriteKeepsRecords(f, e, write, calls[k].request);
    }
  }

  lemma WriteKeepsRecords(f: File, e: Event, write: Write, r: Request)
    ensures CreatedOnDisk(f, r) ==> CreatedOnDisk(WriteLine(f, e, write.size, write.fate), r)
    ensures StartedOnDisk(f, r.id) ==> StartedOnDisk(WriteLine(f, e, write.size, write.fate), r.id)
  {
    var f' := WriteLine(f, e, write.size, write.fate);
    WriteIsMonotone(f, e, write.size, write.fate);
    if Torn !in Lines(f') {
      forall e' | OnDisk(f, e') ensures OnDisk(f', e') {
        var size: nat :| Record(e', size) in Lines(f);
        var i :| 0 <= i < |Lines(f)| && Lines(f)[i] == Record(e', size);
        assert Lines(f')[i] == Record(e', size);
      }
    }
  }

  lemma LandedIsOnDisk(f: File, e: Event, write: Write)
    requires write.fate.Lands?
    ensures var f' := WriteLine(f, e, write.size, write.fate); Torn in Lines(f') || OnDisk(f', e)
  {
    WriteIsMonotone(f, e, write.size, write.fate);
  }

  // ----- One append and apply -----

  lemma AppliedKeepsSpent(m: Requests, e: Event, r: Request)
    requires Spent(m, r) && Applied(m, e).Ok?
    ensures Spent(Applied(m, e).value, r)
  {
    if e.requestId == r.id {
      AdvanceAccepts(Lookup(m, r.id), e);
      AdvanceClimbs(Lookup(m, r.id), e);
    }
  }

  lemma AdvanceKeepsSnapshot(p: Request -> bool, f: File, calls: seq<Call>, before: Option<Snapshot>, e: Event)
    requires Advance(before, e).Ok? && Truthful(p, calls, e)
    requires before.Some? ==> SnapshotOk(p, f, calls, e.requestId, before.value)
    requires Torn in Lines(f) || OnDisk(f, e)
    ensures SnapshotOk(p, f, calls, e.requestId, Advance(before, e).value)
  {
    AdvanceAccepts(before, e);
    AdvanceClimbs(before, e);
  }

  lemma EmitKeepsSnapshot(p: Request -> bool, w: World, a: Action, draft: Event, write: Write, id: string)
    requires Safe(p, w) && w.mem.Up? && Truthful(p, w.calls, draft)
    requires id in Emit(w, a, draft, write).mem.requests
    ensures SnapshotOk(p, Emit(w, a, draft, write).file, w.calls, id, Emit(w, a, draft, write).mem.requests[id])
  {
    var f', m := Emit(w, a, draft, write).file, w.mem.requests;
    var e := Seal(draft, write, w.mem.lastHash);
    if id in m {
      assert SnapshotOk(p, w.file, w.calls, id, m[id]);
      WriteKeepsRecords(w.file, e, write, m[id].request);
    }
    if Emitted(w, draft, write) && e.requestId == id {
      LandedIsOnDisk(w.file, e, write);
      AdvanceKeepsSnapshot(p, f', w.calls, Lookup(m, id), e);
    }
  }

  lemma EmitKeepsMemory(p: Request -> bool, w: World, a: Action, draft: Event, write: Write)
    requires Safe(p, w) && w.mem.Up? && Truthful(p, w.calls, draft)
    ensures
      var w' := Emit(w, a, draft, write);
      DiskOk(p, w'.file, w'.calls) && MemOk(p, w'.file, w'.calls, w'.mem.requests)
  {
    var w' := Emit(w, a, draft, write);
    var e := Seal(draft, write, w.mem.lastHash);
    WriteKeepsDisk(p, w.file, w.calls, e, write);
    forall id | id in w'.mem.requests ensures SnapshotOk(p, w'.file, w'.calls, id, w'.mem.requests[id]) {
      EmitKeepsSnapshot(p, w, a, draft, write, id);
    }
    forall k | 0 <= k < |w.calls| ensures Spent(w'.mem.requests, w.calls[k].request) {
      if Emitted(w, draft, write) {
        AppliedKeepsSpent(w.mem.requests, e, w.calls[k].request);
      }
    }
  }

  lemma EmitKeepsFlights(p: Request -> bool, w: World, a: Action, draft: Event, write: Write)
    requires Safe(p, w) && w.mem.Up?
    requires forall t :: t in w.mem.flights ==> w.mem.flights[t].id != draft.requestId
    ensures
      var w' := Emit(w, a, draft, write);
      FlightsOk(w'.calls, w'.mem.requests, w'.mem.flights)
  {
    var w' := Emit(w, a, draft, write);
    forall t | t in w'.mem.flights ensures FlightOk(w'.calls, w'.mem.requests, w'.mem.flights[t]) {
      assert FlightOk(w.calls, w.mem.requests, w.mem.flights[t]);
    }
  }

  /** An event for a request that is not executing disturbs no flight. */
  lemma EmitSafe(p: Request -> bool, w: World, a: Action, draft: Event, write: Write)
    requires Safe(p, w) && w.mem.Up? && Truthful(p, w.calls, draft)
    requires !Has(w.mem.requests, draft.requestId, Executing)
    ensures Safe(p, Emit(w, a, draft, write))
  {
    EmitKeepsMemory(p, w, a, draft, write);
    forall t | t in w.mem.flights ensures w.mem.flights[t].id != draft.requestId {
      assert FlightOk(w.calls, w.mem.requests, w.mem.flights[t]);
    }
    EmitKeepsFlights(p, w, a, draft, write);
  }

  // ----- Every action -----

  /** The submission, if this is one that gets as far as building a request, builds one with property `p`. */
  ghost predicate Promised(p: Request -> bool, w: World, a: Action) {
    w.mem.Up? && a.Submit? && a.argv != [] ==> p(BuildRequest(w.mem.cfg, a))
  }

  lemma SubmitSafe(p: Request -> bool, w: World, a: Action)
    requires Safe(p, w) && w.mem.Up? && a.Submit? && Promised(p, w, a)
    ensures Safe(p, DoSubmit(w, a))
  {
    if a.lane.RequestLane? && a.argv != [] {
      CreatedIsTruthful(p, w, a);
      CreateSafe(p, w, a, CreatedDraft(w.mem.cfg, a), a.write);
    }
  }

  lemma CreatedIsTruthful(p: Request -> bool, w: World, a: Action)
    requires w.mem.Up? && a.Submit? && a.argv != [] && Promised(p, w, a)
    ensures Truthful(p, w.calls, CreatedDraft(w.mem.cfg, a)) && CreatedDraft(w.mem.cfg, a).typ == RequestCreated
  {
  }

  /** A creation for a request that is executing is rejected and leaves memory as it is. */
  lemma CreateSafe(p: Request -> bool, w: World, a: Action, draft: Event, write: Write)
    requires Safe(p, w) && w.mem.Up? && Truthful(p, w.calls, draft) && draft.typ == RequestCreated
    ensures Safe(p, Emit(w, a, draft, write))
  {
    if Has(w.mem.requests, draft.requestId, Executing) {
      EmitKeepsMemory(p, w, a, draft, write);
      assert Advance(Lookup(w.mem.requests, draft.requestId), Seal(draft, write, w.mem.lastHash)).Err?;
    } else {
      EmitSafe(p, w, a, draft, write);
    }
  }

  lemma ExecBeginSafe(p: Request -> bool, w: World, a: Action)
    requires Safe(p, w) && w.mem.Up? && a.ExecBegin?
    ensures Safe(p, DoExecBegin(w, a))
  {
    if a.lane.RequestLane? && a.thread !in w.mem.flights {
      if Overdue(w.mem.requests, a.id, a.now) {
        EmitSafe(p, w, a, ExpiredDraft(a.id), a.write);
      } else if Has(w.mem.requests, a.id, Approved) {
        var draft := StartedDraft(w.mem.cfg, a.id, w.mem.requests[a.id].request.digest);
        EmitSafe(p, w, a, draft, a.write);
        if Emitted(w, draft, a.write) {
          NewFlightSafe(p, w, a, draft);
        }
      }
    }
  }

  /** A thread that has just been granted the execution is the first one for its request. */
  lemma NewFlightSafe(p: Request -> bool, w: World, a: Action, draft: Event)
    requires Safe(p, w) && w.mem.Up? && a.ExecBegin? && a.thread !in w.mem.flights
    requires Has(w.mem.requests, a.id, Approved) && draft.requestId == a.id && draft.typ == ExecutionStarted
    requires Emitted(w, draft, a.write)
    requires FlightsOk(w.calls, Emit(w, a, draft, a.write).mem.requests, w.mem.flights)
    ensures FlightsOk(w.calls, Emit(w, a, draft, a.write).mem.requests,
                      w.mem.flights[a.thread := Flight(a.id, w.mem.requests[a.id].request, Begun)])
  {
    var m' := Emit(w, a, draft, a.write).mem.requests;
    forall k | 0 <= k < |w.calls| ensures w.calls[k].request.id != a.id {
      assert Spent(w.mem.requests, w.calls[k].request);
    }
    forall t | t in w.mem.flights ensures w.mem.flights[t].id != a.id {
      assert FlightOk(w.calls, w.mem.requests, w.mem.flights[t]);
    }
    assert SnapshotOk(p, w.file, w.calls, a.id, w.mem.requests[a.id]);
    AdvanceAccepts(Lookup(w.mem.requests, a.id), Seal(draft, a.write, w.mem.lastHash));
    AdvanceClimbs(Lookup(w.mem.requests, a.id), Seal(draft, a.write, w.mem.lastHash));
    assert FlightOk(w.calls, m', Flight(a.id, w.mem.requests[a.id].request, Begun));
  }

  lemma MemAfterCalls(p: Request -> bool, f: File, calls: seq<Call>, calls': seq<Call>, m: Requests)
    requires MemOk(p, f, calls, m) && Grows(calls, calls')
    requires forall k :: |calls| <= k < |calls'| ==> Spent(m, calls'[k].request)
    ensures MemOk(p, f, calls', m)
  {
    CallsGrow(calls, calls');
    forall id | id in m ensures SnapshotOk(p, f, calls', id, m[id]) {
      assert SnapshotOk(p, f, calls, id, m[id]);
    }
    forall k | 0 <= k < |calls'| ensures Spent(m, calls'[k].request) {
      if k < |calls| {
        assert Spent(m, calls[k].request);
      }
    }
  }

  lemma CallKeepsFlights(calls: seq<Call>, m: Requests, flights: map<nat, Flight>, thread: nat)
    requires FlightsOk(calls, m, flights) && thread in flights && flights[thread].phase.Begun?
    ensures FlightsOk(calls + [Call(flights[thread].request, None)], m,
                      flights[thread := flights[thread].(phase := Running(|calls|))])
  {
    var calls' := calls + [Call(flights[thread].request, None)];
    assert FlightOk(calls, m, flights[thread]);
    forall t | t in flights && t != thread ensures FlightOk(calls', m, flights[t]) {
      assert FlightOk(calls, m, flights[t]);
    }
  }

  lemma ExecCallSafe(p: Request -> bool, w: World, a: Action)
    requires Safe(p, w) && w.mem.Up? && a.ExecCall?
    ensures Safe(p, DoExecCall(w, a))
  {
    if a.thread in w.mem.flights && w.mem.flights[a.thread].phase.Begun? {
      var flight := w.mem.flights[a.thread];
      assert FlightOk(w.calls, w.mem.requests, flight);
      assert SnapshotOk(p, w.file, w.calls, flight.id, w.mem.requests[flight.id]);
      assert Spent(w.mem.requests, flight.request) && CallOk(p, w.file, flight.request);
      var calls' := w.calls + [Call(flight.request, None)];
      DiskAfterCalls(p, w.file, w.calls, calls');
      MemAfterCalls(p, w.file, w.calls, calls', w.mem.requests);
      CallKeepsFlights(w.calls, w.mem.requests, w.mem.flights, a.thread);
    }
  }

  /** Calls only accumulate, and a returned outcome stays. */
  ghost predicate Grows(calls: seq<Call>, calls': seq<Call>) {
    && |calls| <= |calls'|
    && forall k :: 0 <= k < |calls| ==>
         calls'[k].request == calls[k].request && (calls[k].outcome.Some? ==> calls'[k] == calls[k])
  }

  lemma CallsGrow(calls: seq<Call>, calls': seq<Call>)
    requires Grows(calls, calls')
    ensures forall id, result :: ReturnedOk(calls, id, result) ==> ReturnedOk(calls', id, result)
  {
    forall id, result | ReturnedOk(calls, id, result) ensures ReturnedOk(calls', id, result) {
      var k :| 0 <= k < |calls| && calls[k].request.id == id && calls[k].outcome == Some(Outcome(result, false));
      assert calls'[k] == calls[k];
    }
  }

  lemma DiskAfterCalls(p: Request -> bool, f: File, calls: seq<Call>, calls': seq<Call>)
    requires DiskOk(p, f, calls) && Grows(calls, calls')
    requires forall k :: |calls| <= k < |calls'| ==> CallOk(p, f, calls'[k].request)
    ensures DiskOk(p, f, calls')
  {
    CallsGrow(calls, calls');
    forall k | 0 <= k < |calls'| ensures CallOk(p, f, calls'[k].request) {
      if k < |calls| {
        assert CallOk(p, f, calls[k].request);
      }
    }
    forall e | OnDisk(f, e) ensures Truthful(p, calls', e) {
      assert Truthful(p, calls, e);
    }
  }

  lemma ReturnKeepsFlights(calls: seq<Call>, m: Requests, flights: map<nat, Flight>, thread: nat, outcome: Outcome)
    requires FlightsOk(calls, m, flights) && thread in flights && flights[thread].phase.Running?
    ensures
      var k := flights[thread].phase.call;
      k < |calls|
      && FlightsOk(calls[k := calls[k].(outcome := Some(outcome))], m,
                   flights[thread := flights[thread].(phase := Returned(k))])
  {
    assert FlightOk(calls, m, flights[thread]);
    var k := flights[thread].phase.call;
    var calls' := calls[k := calls[k].(outcome := Some(outcome))];
    forall t | t in flights && t != thread ensures FlightOk(calls', m, flights[t]) {
      assert FlightOk(calls, m, flights[t]);
    }
  }

  lemma ExecReturnSafe(p: Request -> bool, w: World, a: Action)
    requires Safe(p, w) && w.mem.Up? && a.ExecReturn?
    ensures Safe(p, DoExecReturn(w, a))
  {
    if a.thread in w.mem.flights && w.mem.flights[a.thread].phase.Running? {
      ReturnKeepsFlights(w.calls, w.mem.requests, w.mem.flights, a.thread, a.outcome);
      var k := w.mem.flights[a.thread].phase.call;
      assert FlightOk(w.calls, w.mem.requests, w.mem.flights[a.thread]);
      var calls' := w.calls[k := w.calls[k].(outcome := Some(a.outcome))];
      DiskAfterCalls(p, w.file, w.calls, calls');
      MemAfterCalls(p, w.file, w.calls, calls', w.mem.requests);
    }
  }

  lemma ExecEndSafe(p: Request -> bool, w: World, a: Action)
    requires Safe(p, w) && w.mem.Up? && a.ExecEnd?
    ensures Safe(p, DoExecEnd(w, a))
  {
    var w' := DoExecEnd(w, a);
    if w' != w {
      var flight := w.mem.flights[a.thread];
      assert FlightOk(w.calls, w.mem.requests, flight);
      assert SnapshotOk(p, w.file, w.calls, flight.id, w.mem.requests[flight.id]);
      var draft := FinishDraft(flight.id, w.calls[flight.phase.call].outcome.value);
      EmitKeepsMemory(p, w, a, draft, a.write);
      var rest := w.(mem := w.mem.(flights := w.mem.flights - {a.thread}));
      EmitKeepsFlights(p, rest, a, draft, a.write);
    }
  }

  /** What a restart reads back is as safe as what the file was relied on for. */
  lemma RestartRebuildsSafely(p: Request -> bool, w: World, history: seq<Event>, m: Requests)
    requires Safe(p, w) && Replay(w.file) == Ok(history) && Rebuilt(history) == Ok(m)
    ensures MemOk(p, w.file, w.calls, m)
  {
    RecordedEvents(Lines(w.file));
    RebuildMarks(history);
    RebuildIsGrounded(history);
    forall e ensures e in history <==> OnDisk(w.file, e) {
    }
    forall id | id in m ensures SnapshotOk(p, w.file, w.calls, id, m[id]) {
      assert Grounded(history, id, m[id]);
      GroundedIsOk(p, w, history, id, m[id]);
    }
    forall k | 0 <= k < |w.calls| ensures Spent(m, w.calls[k].request) {
      var r := w.calls[k].request;
      assert CallOk(p, w.file, r);
      var c :| OnDisk(w.file, c) && c.typ.RequestCreated? && c.requestId == r.id && c.details == CreatedJson(r);
      var s :| OnDisk(w.file, s) && s.typ.ExecutionStarted? && s.requestId == r.id;
      assert Marked(m, c) && Marked(m, s);
    }
  }

  lemma GroundedIsOk(p: Request -> bool, w: World, history: seq<Event>, id: string, snap: Snapshot)
    requires DiskOk(p, w.file, w.calls) && Grounded(history, id, snap)
    requires forall e :: e in history <==> OnDisk(w.file, e)
    ensures SnapshotOk(p, w.file, w.calls, id, snap)
  {
    var c :| c in history && c.requestId == id && c.typ.RequestCreated? && DecodeCreated(c.details) == Some(snap.request);
    assert OnDisk(w.file, c) && Truthful(p, w.calls, c);
    if snap.status == Executed {
      var s :| s in history && s.requestId == id && s.typ.ExecutionSucceeded? && DecodeFinished(s.details) == snap.execution;
      assert OnDisk(w.file, s) && Truthful(p, w.calls, s);
    }
  }

  lemma {:induction false} RecoverSafe(p: Request -> bool, w: World, a: Action, ids: seq<string>, writes: seq<Write>)
    requires Safe(p, w) && w.mem.Up? && w.mem.flights == map[]
    ensures Safe(p, Recover(w, a, ids, writes))
    decreases |ids|
  {
    if ids != [] && writes != [] {
      var draft := RecoveryDraft(ids[0]);
      EmitKeepsMemory(p, w, a, draft, writes[0]);
      EmitKeepsFlights(p, w, a, draft, writes[0]);
      if Emitted(w, draft, writes[0]) {
        RecoverSafe(p, Emit(w, a, draft, writes[0]), a, ids[1..], writes[1..]);
      }
    }
  }

  lemma RestartSafe(p: Request -> bool, w: World, a: Action)
    requires Safe(p, w) && a.Restart?
    ensures Safe(p, DoRestart(w, a))
  {
    if Replay(w.file).Ok? && Rebuilt(Replay(w.file).value).Ok? {
      var history := Replay(w.file).value;
      var m := Rebuilt(history).value;
      RestartRebuildsSafely(p, w, history, m);
      RecoverSafe(p, w.(mem := Up(a.cfg, LastHash(history), m, map[])), a, Dangling(m, Text.SortedKeys(m.Keys)), a.writes);
    }
  }

  lemma ReviewSafe(p: Request -> bool, w: World, a: Action, draft: Event)
    requires Safe(p, w) && w.mem.Up?
    requires (a.Approve? && draft == ApprovedDraft(a)) || (a.Deny? && draft == DeniedDraft(a))
    ensures Safe(p, DoReview(w, a, draft))
  {
    if Overdue(w.mem.requests, a.id, a.now) {
      EmitSafe(p, w, a, ExpiredDraft(a.id), a.write);
    } else if Has(w.mem.requests, a.id, Pending) {
      EmitSafe(p, w, a, draft, a.write);
    }
  }

  lemma DoSafe(p: Request -> bool, w: World, a: Action)
    requires Safe(p, w) && Promised(p, w, a)
    ensures Safe(p, Do(w, a))
  {
    if w.mem.Down? {
      if a.Restart? {
        RestartSafe(p, w, a);
      }
    } else {
      match a
      case Submit(_, _, _, _, _, _, _, _, _) => SubmitSafe(p, w, a);
      case Status(_, _, _, _) =>
        if Overdue(w.mem.requests, a.id, a.now) {
          EmitSafe(p, w, a, ExpiredDraft(a.id), a.write);
        }
      case Approve(_, _, _, _, _, _, _) => ReviewSafe(p, w, a, ApprovedDraft(a));
      case Deny(_, _, _, _, _, _, _) => ReviewSafe(p, w, a, DeniedDraft(a));
      case ExecBegin(_, _, _, _, _) => ExecBeginSafe(p, w, a);
      case ExecCall(_) => ExecCallSafe(p, w, a);
      case ExecReturn(_, _) => ExecReturnSafe(p, w, a);
      case ExecEnd(_, _) => ExecEndSafe(p, w, a);
      case Crash =>
      case Restart(_, _) =>
    }
  }

  lemma {:induction false} RunSafe(p: Request -> bool, actions: seq<Action>)
    requires forall i :: 0 <= i < |actions| ==> Promised(p, Run(START, actions[..i]), actions[i])
    ensures Safe(p, Run(START, actions))
  {
    if actions != [] {
      var front := actions[..|actions| - 1];
      forall i | 0 <= i < |front| ensures Promised(p, Run(START, front[..i]), front[i]) {
        assert front[..i] == actions[..i] && front[i] == actions[i];
      }
      RunSafe(p, front);
      DoSafe(p, Run(START, front), actions[|actions| - 1]);
    }
  }

  // ----- Main results -----

  /** The executor is called at most once for a request id, over all crashes and restarts. */
  lemma ExecutorCalledAtMostOnce(actions: seq<Action>, j: nat, k: nat)
    requires j < |Run(START, actions).calls| && k < |Run(START, actions).calls|
    ensures var calls := Run(START, actions).calls;
            calls[j].request.id == calls[k].request.id ==> j == k
  {
    RunSafe(r => true, actions);
  }

  /**
   A request whose command was started is executing, executed or failed from then on: never pending,
   approved, denied, expired or revoked. A request with status executed had exactly one call, and that
   call returned the recorded result and no error.
   */
  lemma StatusTellsTheTruthAboutCalls(actions: seq<Action>)
    requires Run(START, actions).mem.Up?
    ensures
      var w := Run(START, actions);
      && (forall k :: 0 <= k < |w.calls| ==>
            w.calls[k].request.id in w.mem.requests
            && w.mem.requests[w.calls[k].request.id].status in {Executing, Executed, Failed})
      && (forall id :: Has(w.mem.requests, id, Executed) ==>
            exists k :: 0 <= k < |w.calls| && w.calls[k].request.id == id
                        && w.calls[k].outcome.Some? && !w.calls[k].outcome.value.failed
                        && Some(w.calls[k].outcome.value.result) == w.mem.requests[id].execution
                        && forall j :: 0 <= j < |w.calls| && w.calls[j].request.id == id ==> j == k)
  {
    var w := Run(START, actions);
    RunSafe(r => true, actions);
    forall k | 0 <= k < |w.calls|
      ensures w.calls[k].request.id in w.mem.requests
              && w.mem.requests[w.calls[k].request.id].status in {Executing, Executed, Failed}
    {
      assert Spent(w.mem.requests, w.calls[k].request);
    }
    forall id | Has(w.mem.requests, id, Executed)
      ensures exists k :: 0 <= k < |w.calls| && w.calls[k].request.id == id
                          && w.calls[k].outcome.Some? && !w.calls[k].outcome.value.failed
                          && Some(w.calls[k].outcome.value.result) == w.mem.requests[id].execution
                          && forall j :: 0 <= j < |w.calls| && w.calls[j].request.id == id ==> j == k
    {
      assert SnapshotOk(r => true, w.file, w.calls, id, w.mem.requests[id]);
      var k :| 0 <= k < |w.calls| && w.calls[k].request.id == id
               && w.calls[k].outcome == Some(Outcome(w.mem.requests[id].execution.value, false));
    }
  }

  /** The step that calls the executor is taken only for a request that is executing at that moment. */
  lemma CalledOnlyWhileExecuting(actions: seq<Action>, a: Action)
    requires |Do(Run(START, actions), a).calls| > |Run(START, actions).calls|
    ensures
      var w, w' := Run(START, actions), Do(Run(START, actions), a);
      && a.ExecCall? && w.mem.Up?
      && w'.calls == w.calls + [w'.calls[|w.calls|]]
      && Has(w.mem.requests, w'.calls[|w.calls|].request.id, Executing)
      && w'.calls[|w.calls|].request == w.mem.requests[w'.calls[|w.calls|].request.id].request
  {
    RunSafe(r => true, actions);
    CallStep(Run(START, actions), a);
  }

  lemma CallStep(w: World, a: Action)
    requires Safe(r => true, w) && |Do(w, a).calls| > |w.calls|
    ensures
      var w' := Do(w, a);
      && a.ExecCall? && w.mem.Up?
      && w'.calls == w.calls + [w'.calls[|w.calls|]]
      && Has(w.mem.requests, w'.calls[|w.calls|].request.id, Executing)
      && w'.calls[|w.calls|].request == w.mem.requests[w'.calls[|w.calls|].request.id].request
  {
    OnlyCallsCall(w, a);
    CallIsForExecuting(w, a);
  }

  /** Only the step that calls the executor adds to the calls. */
  lemma OnlyCallsCall(w: World, a: Action)
    ensures |Do(w, a).calls| > |w.calls| ==> w.mem.Up? && a.ExecCall?
  {
    if w.mem.Down? {
      if a.Restart? {
        RestartCallsNothing(w, a);
      }
    } else {
      match a
      case Submit(_, _, _, _, _, _, _, _, _) => assert DoSubmit(w, a).calls == w.calls;
      case Approve(_, _, _, _, _, _, _) => assert DoReview(w, a, ApprovedDraft(a)).calls == w.calls;
      case Deny(_, _, _, _, _, _, _) => assert DoReview(w, a, DeniedDraft(a)).calls == w.calls;
      case ExecBegin(_, _, _, _, _) => assert DoExecBegin(w, a).calls == w.calls;
      case ExecEnd(_, _) => assert DoExecEnd(w, a).calls == w.calls;
      case _ =>
    }
  }

  lemma CallIsForExecuting(w: World, a: Action)
    requires Safe(r => true, w) && w.mem.Up? && a.ExecCall?
    ensures
      var w' := DoExecCall(w, a);
      |w'.calls| > |w.calls| ==>
        && w'.calls == w.calls + [w'.calls[|w.calls|]]
        && Has(w.mem.requests, w'.calls[|w.calls|].request.id, Executing)
        && w'.calls[|w.calls|].request == w.mem.requests[w'.calls[|w.calls|].request.id].request
  {
    if a.thread in w.mem.flights {
      assert FlightOk(w.calls, w.mem.requests, w.mem.flights[a.thread]);
    }
  }

  lemma {:induction false} RecoverCallsNothing(w: World, a: Action, ids: seq<string>, writes: seq<Write>)
    requires w.mem.Up?
    ensures Recover(w, a, ids, writes).calls == w.calls
    decreases |ids|
  {
    if ids != [] && writes != [] && Emitted(w, RecoveryDraft(ids[0]), writes[0]) {
      RecoverCallsNothing(Emit(w, a, RecoveryDraft(ids[0]), writes[0]), a, ids[1..], writes[1..]);
    }
  }

  lemma RestartCallsNothing(w: World, a: Action)
    requires a.Restart?
    ensures DoRestart(w, a).calls == w.calls
  {
    if Replay(w.file).Ok? && Rebuilt(Replay(w.file).value).Ok? {
      var history := Replay(w.file).value;
      var m := Rebuilt(history).value;
      RecoverCallsNothing(w.(mem := Up(a.cfg, LastHash(history), m, map[])), a, Dangling(m, Text.SortedKeys(m.Keys)), a.writes);
    }
  }

  /** In-flight executions belong to distinct requests, each of which is executing. */
  lemma FlightsAreExecuting(actions: seq<Action>)
    requires Run(START, actions).mem.Up?
    ensures
      var mem := Run(START, actions).mem;
      && (forall t :: t in mem.flights ==> Has(mem.requests, mem.flights[t].id, Executing))
      && (forall t, u :: t in mem.flights && u in mem.flights && mem.flights[t].id == mem.flights[u].id ==> t == u)
  {
    var w := Run(START, actions);
    RunSafe(r => true, actions);
    forall t | t in w.mem.flights ensures Has(w.mem.requests, w.mem.flights[t].id, Executing) {
      assert FlightOk(w.calls, w.mem.requests, w.mem.flights[t]);
    }
  }

  /** The thread is still in the air with the same record. */
  ghost predicate StillFlying(mem: Memory, mem': Memory, thread: nat) {
    mem.Up? && thread in mem.flights ==>
      && mem'.Up? && thread in mem'.flights
      && mem'.flights[thread].id == mem.flights[thread].id
      && mem'.flights[thread].request == mem.flights[thread].request
  }

  lemma ExecStepKeepsFlight(w: World, a: Action, thread: nat)
    requires w.mem.Up? && !(a.ExecEnd? && a.thread == thread)
    ensures a.ExecBegin? ==> StillFlying(w.mem, DoExecBegin(w, a).mem, thread)
    ensures a.ExecCall? ==> StillFlying(w.mem, DoExecCall(w, a).mem, thread)
    ensures a.ExecReturn? ==> StillFlying(w.mem, DoExecReturn(w, a).mem, thread)
    ensures a.ExecEnd? ==> StillFlying(w.mem, DoExecEnd(w, a).mem, thread)
  {
  }

  lemma EmitKeepsAllFlights(w: World, a: Action, draft: Event, write: Write)
    requires w.mem.Up?
    ensures Emit(w, a, draft, write).mem.Up? && Emit(w, a, draft, write).mem.flights == w.mem.flights
  {
  }

  lemma SubmitKeepsFlights(w: World, a: Action)
    requires w.mem.Up? && a.Submit?
    ensures DoSubmit(w, a).mem.Up? && DoSubmit(w, a).mem.flights == w.mem.flights
  {
    EmitKeepsAllFlights(w, a, CreatedDraft(w.mem.cfg, a), a.write);
  }

  lemma ReviewKeepsFlights(w: World, a: Action, draft: Event)
    requires w.mem.Up? && (a.Approve? || a.Deny?)
    ensures DoReview(w, a, draft).mem.Up? && DoReview(w, a, draft).mem.flights == w.mem.flights
  {
    EmitKeepsAllFlights(w, a, ExpiredDraft(a.id), a.write);
    EmitKeepsAllFlights(w, a, draft, a.write);
  }

  lemma StepKeepsFlight(w: World, a: Action, thread: nat)
    requires !a.Crash? && !(a.ExecEnd? && a.thread == thread)
    ensures StillFlying(w.mem, Do(w, a).mem, thread)
  {
    if w.mem.Up? {
      match a
      case Submit(_, _, _, _, _, _, _, _, _) => SubmitKeepsFlights(w, a);
      case Status(_, id, _, write) => EmitKeepsAllFlights(w, a, ExpiredDraft(id), write);
      case Approve(_, _, _, _, _, _, _) => ReviewKeepsFlights(w, a, ApprovedDraft(a));
      case Deny(_, _, _, _, _, _, _) => ReviewKeepsFlights(w, a, DeniedDraft(a));
      case _ => ExecStepKeepsFlight(w, a, thread);
    }
  }

  lemma FlyingComposes(mem: Memory, mem': Memory, mem'': Memory, thread: nat)
    requires StillFlying(mem, mem', thread) && StillFlying(mem', mem'', thread)
    ensures StillFlying(mem, mem'', thread)
  {
  }

  lemma {:induction false} GapKeepsFlight(actions: seq<Action>, gap: seq<Action>, thread: nat)
    requires forall i :: 0 <= i < |gap| ==> !gap[i].Crash? && !(gap[i].ExecEnd? && gap[i].thread == thread)
    ensures StillFlying(Run(START, actions).mem, Run(START, actions + gap).mem, thread)
  {
    if gap == [] {
      assert actions + gap == actions;
    } else {
      var front, a := gap[..|gap| - 1], gap[|gap| - 1];
      GapKeepsFlight(actions, front, thread);
      var w := Run(START, actions + front);
      StepKeepsFlight(w, a, thread);
      FlyingComposes(Run(START, actions).mem, w.mem, Do(w, a).mem, thread);
      assert actions + gap == (actions + front) + [a];
      RunSnoc(START, actions + front, a);
    }
  }

  /**
   Whatever other operations run in the gap of `Execute`, its request stays executing and its thread
   keeps the same record, until that thread's own second critical section or a crash.
   */
  lemma GapKeepsExecuting(actions: seq<Action>, gap: seq<Action>, thread: nat)
    requires Run(START, actions).mem.Up? && thread in Run(START, actions).mem.flights
    requires forall i :: 0 <= i < |gap| ==> !gap[i].Crash? && !(gap[i].ExecEnd? && gap[i].thread == thread)
    ensures
      var flight := Run(START, actions).mem.flights[thread];
      var mem := Run(START, actions + gap).mem;
      && mem.Up? && thread in mem.flights
      && mem.flights[thread].id == flight.id && mem.flights[thread].request == flight.request
      && Has(mem.requests, flight.id, Executing)
  {
    GapKeepsFlight(actions, gap, thread);
    FlightsAreExecuting(actions + gap);
  }

  /** The `Apply` that closes an execution is never rejected, whatever ran in the gap. */
  lemma ClosingApplyIsAccepted(actions: seq<Action>, thread: nat, outcome: Outcome, write: Write)
    requires var w := Run(START, actions); w.mem.Up? && thread in w.mem.flights
    ensures
      var mem := Run(START, actions).mem;
      Applied(mem.requests, Seal(FinishDraft(mem.flights[thread].id, outcome), write, mem.lastHash)).Ok?
  {
    FlightsAreExecuting(actions);
    var mem := Run(START, actions).mem;
    FinishIsAccepted(mem.requests, mem.flights[thread].id, outcome, write, mem.lastHash);
  }

  lemma FinishIsAccepted(m: Requests, id: string, outcome: Outcome, write: Write, lastHash: Hash)
    requires Has(m, id, Executing)
    ensures Applied(m, Seal(FinishDraft(id, outcome), write, lastHash)).Ok?
  {
    AdvanceAccepts(Lookup(m, id), Seal(FinishDraft(id, outcome), write, lastHash));
  }

  /** The action is a submission, and this is the record of it under the configuration in force. */
  ghost predicate Builds(w: World, a: Action, r: Request) {
    w.mem.Up? && a.Submit? && a.argv != [] && RecordsSubmission(w.mem.cfg, a, r)
  }

  /** The request was built by one of the submissions of this run. */
  ghost predicate Submitted(actions: seq<Action>, r: Request) {
    exists i :: 0 <= i < |actions| && Builds(Run(START, actions[..i]), actions[i], r)
  }

  /** The executor is handed the submitted argv, directory and fixed environment, and the digest covers just those. */
  ghost predicate RunsAsSubmitted(a: Action, r: Request)
    requires a.Submit?
  {
    && CommandOf(r).Some? && CommandOf(r).value.argv == a.argv && CommandOf(r).value.dir == NormalizeCwd(a.cwd)
    && CommandOf(r).value.env ==
       EnvList(map["PATH" := "/usr/sbin:/usr/bin:/sbin:/bin", "LANG" := "C", "LC_ALL" := "C"])
    && DigestCoversCommand(r)
  }

  lemma RecordIsRun(cfg: Config, a: Action, r: Request)
    requires a.Submit? && a.argv != [] && RecordsSubmission(cfg, a, r)
    ensures RunsAsSubmitted(a, r)
  {
    NormalizeIdempotent(a.cwd);
  }

  /** Some submission of this run is recorded in the request, and run as submitted. */
  ghost predicate SubmittedAndRun(actions: seq<Action>, r: Request) {
    exists i :: 0 <= i < |actions| && Builds(Run(START, actions[..i]), actions[i], r) && RunsAsSubmitted(actions[i], r)
  }

  lemma BuiltIsRun(w: World, a: Action, r: Request)
    requires Builds(w, a, r)
    ensures RunsAsSubmitted(a, r)
  {
    RecordIsRun(w.mem.cfg, a, r);
  }

  lemma SubmittedIsRun(actions: seq<Action>, r: Request)
    requires Submitted(actions, r)
    ensures SubmittedAndRun(actions, r)
  {
    var i :| 0 <= i < |actions| && Builds(Run(START, actions[..i]), actions[i], r);
    BuiltIsRun(Run(START, actions[..i]), actions[i], r);
  }

  /**
   Every request handed to the executor is, unchanged across all steps and restarts, the record of a
   submission, field by field, which the file holds as its creation (unless the file is damaged and will
   not replay again). The command run has the submitted argv, the normalized directory and the fixed
   environment, and the digest covers those, the requester, the id and the expiry.
   */
  lemma ExecutorRunsWhatWasSubmitted(actions: seq<Action>, k: nat)
    requires k < |Run(START, actions).calls|
    ensures
      var w := Run(START, actions);
      SubmittedAndRun(actions, w.calls[k].request) && CreatedOnDisk(w.file, w.calls[k].request)
  {
    var p := r => Submitted(actions, r);
    forall i | 0 <= i < |actions| ensures Promised(p, Run(START, actions[..i]), actions[i]) {
      SubmissionIsKept(actions, i, Run(START, actions[..i]));
    }
    RunSafe(p, actions);
    assert CallOk(p, Run(START, actions).file, Run(START, actions).calls[k].request);
    SubmittedIsRun(actions, Run(START, actions).calls[k].request);
  }

  lemma SubmissionIsKept(actions: seq<Action>, i: nat, w: World)
    requires i < |actions| && w == Run(START, actions[..i])
    ensures Promised(r => Submitted(actions, r), w, actions[i])
  {
    if w.mem.Up? && actions[i].Submit? && actions[i].argv != [] {
      BuiltIsRecorded(w.mem.cfg, actions[i]);
      assert Builds(w, actions[i], BuildRequest(w.mem.cfg, actions[i]));
    }
  }
}

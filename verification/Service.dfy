/**
 The broker as an object: internal/broker/service.go over the log and the projection, and the dispatch
 of internal/socket/server.go. Every method is shown to take exactly one step of the transition system,
 so what is proved of all runs holds of every object that `NewService` returns.
 */
module BrokerService {
  import opened Core
  import opened Events
  import opened HashLog
  import opened Projections
  import opened Execution
  import opened Broker
  import opened BrokerSafety
  import opened Text

  datatype Response =
    | Plain(requestId: string, status: string, message: string)
    | FromSnapshot(snapshot: Snapshot, message: string)
    | FromSnapshotAs(snapshot: Snapshot, status: string, message: string)

  datatype Failure = AppendError | ApplyRejected

  type Answer = Result<Response, Failure>

  /** What the first critical section of `Execute` decides. */
  datatype Begin = Refuse(answer: Answer) | Go(request: Request)

  /** The error of `validateApprover`, given that there is one. */
  function Objection(approver: Actor): string {
    if approver.kind == "" || approver.id == "" then "approver identity is required" else "self-approval is forbidden"
  }

  /** The approver is named, and is none of the requester's three names. */
  ghost predicate MayReview(approver: Actor, requester: PeerIdentity) {
    && approver.kind != "" && approver.id != "" && approver.id != requester.username
    && forall t :: IsNumeral(t, requester.uid) ==> approver.id != t && approver.id != "uid:" + t
  }

  /** The review has been recorded: the reviewer and, if given, the reason; nothing else of the request has changed. */
  ghost predicate Reviewed(before: Snapshot, after: Snapshot, approver: Actor, status: Core.Status, reason: Option<string>) {
    && after.request == before.request && after.status == status && after.approver == Some(approver)
    && after.denyReason == (if reason.Some? then reason.value else before.denyReason) && after.execution == before.execution
  }

  /**
   What a review answers, from the requests `m` it finds and the requests `m'` it leaves: it fails only if
   an append does, takes effect only for a pending request in time and an approver who may review it, and
   otherwise says why not. `reason` is that of a denial.
   */
  ghost predicate ReviewAnswered(m: Requests, m': Requests, id: string, approver: Actor, now: int, write: Write,
                                 reason: Option<string>, r: Answer) {
    && (forall other :: other != id ==> Lookup(m', other) == Lookup(m, other))
    && if id !in m then r == Ok(Plain(id, "error", "request not found")) && m' == m
       else if m[id].status != Pending then r == Ok(FromSnapshot(m[id], "request is not pending")) && m' == m
       else if now < m[id].request.expiresAt && !MayReview(approver, m[id].request.requester) then
         && r == Ok(Plain(id, "rejected", if approver.kind == "" || approver.id == "" then "approver identity is required"
                                          else "self-approval is forbidden"))
         && m' == m
       else if !write.fate.Lands? then r == Err(AppendError) && m' == m
       else if now < m[id].request.expiresAt then
         && id in m' && Reviewed(m[id], m'[id], approver, if reason.Some? then Denied else Approved, reason)
         && r == Ok(FromSnapshot(m'[id], if reason.Some? then "request denied" else "request approved"))
       else Has(m', id, Expired) && r == Ok(FromSnapshot(m'[id], "request is not pending"))
  }

  /** `Apply` takes a review of a pending request and records it. */
  lemma ReviewIsTaken(m: Requests, a: Action, draft: Event, write: Write, lastHash: Hash)
    requires (a.Approve? && draft == ApprovedDraft(a)) || (a.Deny? && draft == DeniedDraft(a))
    requires Has(m, a.id, Pending)
    ensures
      var m' := Applied(m, Seal(draft, write, lastHash));
      && m'.Ok? && a.id in m'.value && m'.value == m[a.id := m'.value[a.id]]
      && Reviewed(m[a.id], m'.value[a.id], a.approver, if a.Deny? then Denied else Approved,
                  if a.Deny? then Some(a.reason) else None)
  {
    AdvanceAccepts(Lookup(m, a.id), Seal(draft, write, lastHash));
  }

  /** The switch of `Execute`: what an execution that does not go ahead answers for the snapshot it finds. */
  function Refusal(id: string, snap: Option<Snapshot>): Response {
    match snap
    case None => Plain(id, "error", "request not found")
    case Some(s) =>
      match s.status
      case Pending => FromSnapshotAs(s, "rejected", "request is not approved")
      case Executing => FromSnapshot(s, "request is already executing")
      case Executed => FromSnapshot(s, "request already reached a terminal execution state")
      case Failed => FromSnapshot(s, "request already reached a terminal execution state")
      case _ => FromSnapshot(s, "request is not approved")
  }

  /** The answer to an execution that does not go ahead, for each status the request can then have. */
  ghost predicate Refused(m: Requests, id: string, answer: Response) {
    if id !in m then answer == Plain(id, "error", "request not found")
    else
      && (m[id].status == Executing ==> answer == FromSnapshot(m[id], "request is already executing"))
      && (m[id].status == Executed || m[id].status == Failed ==>
            answer == FromSnapshot(m[id], "request already reached a terminal execution state"))
      && (m[id].status == Denied || m[id].status == Expired || m[id].status == Revoked ==>
            answer == FromSnapshot(m[id], "request is not approved"))
      && (m[id].status == Pending ==> answer == FromSnapshotAs(m[id], "rejected", "request is not approved"))
      && m[id].status != Approved
  }

  lemma RefusalSays(m: Requests, id: string)
    requires !Has(m, id, Approved)
    ensures Refused(m, id, Refusal(id, Lookup(m, id)))
  {
  }

  lemma SubmitFacts(w: World, a: Action)
    requires w.mem.Up? && a.Submit? && a.lane.RequestLane?
    ensures Emitted(w, CreatedDraft(w.mem.cfg, a), a.write) <==> a.write.fate.Lands? && a.id !in w.mem.requests
    ensures Emitted(w, CreatedDraft(w.mem.cfg, a), a.write) ==>
              Has(Emit(w, a, CreatedDraft(w.mem.cfg, a), a.write).mem.requests, a.id, Pending)
  {
    AdvanceAccepts(Lookup(w.mem.requests, a.id), Seal(CreatedDraft(w.mem.cfg, a), a.write, w.mem.lastHash));
  }

  lemma ExecEndFacts(w: World, a: Action, outcome: Outcome)
    requires Safe(r => true, w) && w.mem.Up? && a.ExecEnd? && a.thread in w.mem.flights
    ensures
      var id := w.mem.flights[a.thread].id;
      var draft := FinishDraft(id, outcome);
      && (Emitted(w, draft, a.write) <==> a.write.fate.Lands?)
      && (a.write.fate.Lands? ==>
            && Has(Emit(w, a, draft, a.write).mem.requests, id, if outcome.failed then Failed else Executed)
            && Emit(w, a, draft, a.write).mem.requests[id].execution == Some(outcome.result))
  {
    var id := w.mem.flights[a.thread].id;
    assert FlightOk(w.calls, w.mem.requests, w.mem.flights[a.thread]);
    AdvanceAccepts(Lookup(w.mem.requests, id), Seal(FinishDraft(id, outcome), a.write, w.mem.lastHash));
  }

  lemma DanglingUnfolds(m: Requests, keys: seq<string>, i: nat)
    requires i < |keys| && keys[i] in m
    ensures Dangling(m, keys[i..]) ==
            if m[keys[i]].status == Executing then [m[keys[i]].request.id] + Dangling(m, keys[i + 1..])
            else Dangling(m, keys[i + 1..])
  {
    assert keys[i..][1..] == keys[i + 1..] && keys[i..][0] == keys[i];
  }

  lemma RecoverUnfolds(w: World, a: Action, id: string, rest: seq<string>, writes: seq<Write>)
    requires w.mem.Up?
    ensures
      Recover(w, a, [id] + rest, writes) ==
      if writes == [] then w.(mem := Down)
      else
        var w' := Emit(w, a, RecoveryDraft(id), writes[0]);
        if Emitted(w, RecoveryDraft(id), writes[0]) then Recover(w', a, rest, writes[1..]) else w'.(mem := Down)
  {
    assert ([id] + rest)[1..] == rest;
  }

  lemma BuiltFrom(cfg: Config, a: Action, spec: ExecutionSpec, digest: Digest)
    requires a.Submit? && spec == BuildExecutionSpec(a.argv, a.cwd)
    requires digest == DigestOf(a.id, spec, a.peer, a.now + cfg.ttl)
    ensures BuildRequest(cfg, a) == Request(a.id, a.argv, a.reason, if a.mode == "" then "poll" else a.mode, a.peer,
                                            cfg.hostname, a.now, a.now + cfg.ttl, digest, spec)
  {
  }

  /** The record at the head of `Submit`. */
  method MakeRequest(cfg: Config, peer: PeerIdentity, argv: seq<string>, reason: string, mode: string, cwd: string,
                     now: int, id: string, ghost a: Action) returns (request: Request)
    requires a.Submit? && a.peer == peer && a.argv == argv && a.reason == reason && a.mode == mode && a.cwd == cwd
    requires a.now == now && a.id == id
    ensures request == BuildRequest(cfg, a)
  {
    var spec := BuildExecutionSpec(argv, cwd);
    var digest := DigestRequest(id, spec, peer, now + cfg.ttl);
    BuiltFrom(cfg, a, spec, digest);
    request := Request(id, argv, reason, if mode == "" then "poll" else mode, peer, cfg.hostname,
                       now, now + cfg.ttl, digest, spec);
  }

  class Service {
    const cfg: Config
    const log: Log
    const projection: Projection
    ghost var world: World

    /** The fields hold what the world says is on disk and in memory. */
    ghost predicate Valid()
      reads this, log, projection
    {
      && world.mem.Up? && world.file == log.file
      && world.mem.cfg == cfg && world.mem.lastHash == log.lastHash && world.mem.requests == projection.requests
    }

    constructor (cfg: Config, log: Log, projection: Projection, ghost w: World)
      requires w.mem.Up? && w.mem.cfg == cfg && w.file == log.file && w.mem.lastHash == log.lastHash
      requires w.mem.requests == projection.requests
      ensures Valid() && world == w && this.cfg == cfg && this.log == log && this.projection == projection
    {
      this.cfg, this.log, this.projection, this.world := cfg, log, projection, w;
    }

    /** Append, then apply. */
    method Record(ghost a: Action, draft: Event, write: Write) returns (failure: Option<Failure>)
      requires Valid()
      modifies this, log, projection
      ensures Valid() && world == Emit(old(world), a, draft, write)
      ensures failure == if !write.fate.Lands? then Some(AppendError)
                         else if Emitted(old(world), draft, write) then None else Some(ApplyRejected)
    {
      world := Emit(world, a, draft, write);
      var appended := log.Append(draft, write);
      if appended.Err? {
        return Some(AppendError);
      }
      var applied := projection.Apply(appended.value);
      failure := if applied.Err? then Some(ApplyRejected) else None;
    }

    method Submit(peer: PeerIdentity, argv: seq<string>, reason: string, mode: string, cwd: string,
                  now: int, id: string, write: Write) returns (r: Answer)
      requires Valid()
      modifies this, log, projection
      ensures Valid()
      ensures world == Do(old(world), Action.Submit(RequestLane, peer, argv, reason, mode, cwd, now, id, write))
      ensures argv == [] ==> r == Ok(Plain("", "error", "argv is required"))
      ensures argv != [] ==> (r.Ok? <==> write.fate.Lands? && id !in old(projection.requests))
      ensures r.Err? ==> r == Err(if write.fate.Lands? then ApplyRejected else AppendError)
      ensures argv == [] || r.Err? ==> projection.requests == old(projection.requests)
      ensures argv != [] && r.Ok? ==>
                && Has(projection.requests, id, Pending) && r == Ok(FromSnapshot(projection.requests[id], "Approval required"))
                && projection.requests == old(projection.requests)[id := projection.requests[id]]
                && var q := projection.requests[id].request;
                   && q.id == id && q.argv == argv && q.reason == reason && q.requester == peer && q.host == cfg.hostname
                   && (mode == "" ==> q.mode == "poll") && (mode != "" ==> q.mode == mode)
                   && q.createdAt == now && q.expiresAt == now + cfg.ttl
                   && q.spec.argv == argv && q.spec.cwd == NormalizeCwd(cwd)
                   && q.spec.env == map["PATH" := "/usr/sbin:/usr/bin:/sbin:/bin", "LANG" := "C", "LC_ALL" := "C"]
                   && q.digest == Digest(argv, EnvList(q.spec.env), NormalizeCwd(cwd), peer.uid, id, now + cfg.ttl)
    {
      ghost var a := Action.Submit(RequestLane, peer, argv, reason, mode, cwd, now, id, write);
      SubmitFacts(world, a);
      if |argv| == 0 {
        return Ok(Plain("", "error", "argv is required"));
      }
      var request := MakeRequest(cfg, peer, argv, reason, mode, cwd, now, id, a);
      var draft := Draft(id, Actor("requester", ActorIdForPeer(peer)), RequestCreated, CreatedJson(request));
      assert draft == CreatedDraft(cfg, a);
      var failure := Record(a, draft, write);
      if failure.Some? {
        return Err(failure.value);
      }
      return Ok(FromSnapshot(projection.requests[id], "Approval required"));
    }

    /** `expireIfNeededLocked`. */
    method ExpireIfNeeded(ghost a: Action, id: string, now: int, write: Write) returns (failure: Option<Failure>)
      requires Valid()
      modifies this, log, projection
      ensures Valid()
      ensures world == if Overdue(old(projection.requests), id, now) then Emit(old(world), a, ExpiredDraft(id), write)
                       else old(world)
      ensures failure == if Overdue(old(projection.requests), id, now) && !write.fate.Lands? then Some(AppendError) else None
      ensures failure.None? && Overdue(old(projection.requests), id, now) ==> Has(projection.requests, id, Expired)
    {
      var snap := projection.Get(id);
      if snap.None? || snap.value.status != Pending || now < snap.value.request.expiresAt {
        return None;
      }
      AdvanceAccepts(snap, Seal(ExpiredDraft(id), write, world.mem.lastHash));
      failure := Record(a, ExpiredDraft(id), write);
    }

    method GetStatus(id: string, now: int, write: Write) returns (r: Answer)
      requires Valid()
      modifies this, log, projection
      ensures Valid()
      ensures world == Do(old(world), Action.Status(RequestLane, id, now, write))
      ensures Overdue(old(projection.requests), id, now) && !write.fate.Lands? ==> r == Err(AppendError)
      ensures !(Overdue(old(projection.requests), id, now) && !write.fate.Lands?) ==>
                r == if id in projection.requests then Ok(FromSnapshot(projection.requests[id], "status retrieved"))
                     else Ok(Plain(id, "error", "request not found"))
    {
      ghost var a := Action.Status(RequestLane, id, now, write);
      var failure := ExpireIfNeeded(a, id, now, write);
      if failure.Some? {
        return Err(failure.value);
      }
      var snap := projection.Get(id);
      r := if snap.None? then Ok(Plain(id, "error", "request not found"))
           else Ok(FromSnapshot(snap.value, "status retrieved"));
    }

    /** The part `Approve` and `Deny` share; `draft` is the event to write if all checks pass. */
    method ReviewWith(ghost a: Action, id: string, approver: Actor, now: int, write: Write, draft: Event, done: string)
      returns (r: Answer)
      requires Valid()
      requires (a.Approve? && draft == ApprovedDraft(a) && done == "request approved")
               || (a.Deny? && draft == DeniedDraft(a) && done == "request denied")
      requires a.id == id && a.approver == approver && a.now == now && a.write == write
      modifies this, log, projection
      ensures Valid()
      ensures world == Review(old(world), a, draft)
      ensures ReviewAnswered(old(projection.requests), projection.requests, id, approver, now, write,
                             if a.Deny? then Some(a.reason) else None, r)
    {
      var failure := ExpireIfNeeded(a, id, now, write);
      if failure.Some? {
        return Err(failure.value);
      }
      var snap := projection.Get(id);
      if snap.None? {
        return Ok(Plain(id, "error", "request not found"));
      }
      if snap.value.status != Pending {
        return Ok(FromSnapshot(snap.value, "request is not pending"));
      }
      r := ReviewPending(a, id, snap.value, approver, write, draft, done);
    }

    /** A request that is pending and in time. */
    method ReviewPending(ghost a: Action, id: string, snap: Snapshot, approver: Actor, write: Write, draft: Event, done: string)
      returns (r: Answer)
      requires Valid() && Has(projection.requests, id, Pending) && snap == projection.requests[id]
      requires (a.Approve? && draft == ApprovedDraft(a)) || (a.Deny? && draft == DeniedDraft(a))
      requires a.id == id && a.approver == approver && a.write == write && a.now < snap.request.expiresAt
      modifies this, log, projection
      ensures Valid()
      ensures world == Review(old(world), a, draft)
      ensures !MayReview(approver, snap.request.requester) ==>
                && r == Ok(Plain(id, "rejected", if approver.kind == "" || approver.id == "" then "approver identity is required"
                                                 else "self-approval is forbidden"))
                && projection.requests == old(projection.requests)
      ensures MayReview(approver, snap.request.requester) && !write.fate.Lands? ==>
                r == Err(AppendError) && projection.requests == old(projection.requests)
      ensures MayReview(approver, snap.request.requester) && write.fate.Lands? ==>
                && id in projection.requests && r == Ok(FromSnapshot(projection.requests[id], done))
                && Reviewed(snap, projection.requests[id], approver, if a.Deny? then Denied else Approved,
                            if a.Deny? then Some(a.reason) else None)
                && projection.requests == old(projection.requests)[id := projection.requests[id]]
    {
      ValidApproverIff(approver, snap.request.requester);
      if !ValidApprover(approver, snap.request.requester) {
        return Ok(Plain(id, "rejected", Objection(approver)));
      }
      ReviewIsTaken(projection.requests, a, draft, write, world.mem.lastHash);
      var failure := Record(a, draft, write);
      if failure.Some? {
        return Err(failure.value);
      }
      return Ok(FromSnapshot(projection.requests[id], done));
    }

    /** The first critical section of `Execute`. */
    method ExecuteBegin(thread: nat, id: string, now: int, write: Write) returns (r: Begin)
      requires Valid() && thread !in world.mem.flights
      modifies this, log, projection
      ensures Valid()
      ensures world == Do(old(world), ExecBegin(RequestLane, thread, id, now, write))
      ensures r.Go? <==> Has(old(projection.requests), id, Approved) && write.fate.Lands?
      ensures r.Go? ==> thread in world.mem.flights && world.mem.flights[thread] == Flight(id, r.request, Begun)
                        && r.request == old(projection.requests)[id].request && Has(projection.requests, id, Executing)
      ensures r.Refuse? ==> world.mem.flights == old(world.mem.flights)
      ensures r.Refuse? && r.answer.Err? <==>
                (Overdue(old(projection.requests), id, now) || Has(old(projection.requests), id, Approved)) && !write.fate.Lands?
      ensures r.Refuse? && r.answer.Err? ==> r.answer == Err(AppendError) && projection.requests == old(projection.requests)
      ensures r.Refuse? && r.answer.Ok? ==> Refused(projection.requests, id, r.answer.value)
      ensures Has(old(projection.requests), id, Pending) && now >= old(projection.requests)[id].request.expiresAt && write.fate.Lands? ==>
                Has(projection.requests, id, Expired)
    {
      ghost var a := ExecBegin(RequestLane, thread, id, now, write);
      var failure := ExpireIfNeeded(a, id, now, write);
      if failure.Some? {
        return Refuse(Err(failure.value));
      }
      var snap := projection.Get(id);
      if snap.None? || snap.value.status != Approved {
        RefusalSays(projection.requests, id);
        return Refuse(Ok(Refusal(id, snap)));
      }
      failure := Start(a, thread, id, snap.value.request, write);
      r := if failure.Some? then Refuse(Err(failure.value)) else Go(snap.value.request);
    }

    /** Writes the start of an approved request and hands it to the thread. */
    method Start(ghost a: Action, thread: nat, id: string, request: Request, write: Write) returns (failure: Option<Failure>)
      requires Valid() && Has(projection.requests, id, Approved) && request == projection.requests[id].request
      requires a.ExecBegin? && a == ExecBegin(RequestLane, thread, id, a.now, write) && thread !in world.mem.flights
      modifies this, log, projection
      ensures Valid() && world == DoExecBegin(old(world), a)
      ensures failure == if write.fate.Lands? then None else Some(AppendError)
      ensures if write.fate.Lands?
              then Has(projection.requests, id, Executing)
                   && world.mem.flights == old(world.mem.flights)[thread := Flight(id, request, Begun)]
              else world.mem.flights == old(world.mem.flights) && projection.requests == old(projection.requests)
    {
      var draft := StartedDraft(cfg, id, request.digest);
      AdvanceAccepts(Lookup(projection.requests, id), Seal(draft, write, world.mem.lastHash));
      failure := Record(a, draft, write);
      if failure.None? {
        world := world.(mem := world.mem.(flights := world.mem.flights[thread := Flight(id, request, Begun)]));
      }
    }

    /** `recoverExecutingLocked`; false when an append fails or the process dies before the next one. */
    method RecoverExecuting(writes: seq<Write>, ghost a: Action, ghost goal: World) returns (ok: bool)
      requires Valid()
      requires goal == Recover(world, a, Dangling(projection.requests, SortedKeys(projection.requests.Keys)), writes)
      modifies this, log, projection
      ensures log.file == goal.file
      ensures if ok then Valid() && world == goal else goal.mem.Down?
    {
      var snaps := projection.All();
      ok := RecoverEach(snaps, writes, projection.requests, SortedKeys(projection.requests.Keys), a, goal);
    }

    /** Its loop, over the snapshots `m` held when it began. */
    method RecoverEach(snaps: seq<Snapshot>, writes: seq<Write>, ghost m: Requests, ghost keys: seq<string>,
                       ghost a: Action, ghost goal: World) returns (ok: bool)
      requires Valid() && |snaps| == |keys|
      requires forall i :: 0 <= i < |keys| ==> keys[i] in m && snaps[i] == m[keys[i]]
      requires goal == Recover(world, a, Dangling(m, keys), writes)
      modifies this, log, projection
      ensures log.file == goal.file
      ensures if ok then Valid() && world == goal else goal.mem.Down?
    {
      var left := writes;
      ghost var todo := Dangling(m, keys);
      assert keys[0..] == keys;
      for i := 0 to |snaps|
        invariant Valid() && todo == Dangling(m, keys[i..])
        invariant goal == Recover(world, a, todo, left)
      {
        DanglingUnfolds(m, keys, i);
        if snaps[i].status == Executing {
          var id := snaps[i].request.id;
          RecoverUnfolds(world, a, id, Dangling(m, keys[i + 1..]), left);
          if |left| == 0 {
            return false;
          }
          var failure := Record(a, RecoveryDraft(id), left[0]);
          if failure.Some? {
            return false;
          }
          left := left[1..];
        }
        todo := Dangling(m, keys[i + 1..]);
      }
      assert keys[|keys|..] == [];
      ok := true;
    }

    /** The executor is called, or returns, outside the lock: only the record of calls changes. */
    ghost method Executor(a: Action)
      requires Valid() && (a.ExecCall? || a.ExecReturn?)
      modifies this`world
      ensures Valid() && world == Do(old(world), a)
    {
      world := Do(world, a);
    }

    /** The second critical section of `Execute`; in a run its `Apply` cannot be rejected. */
    method ExecuteEnd(thread: nat, id: string, outcome: Outcome, error: string, write: Write) returns (r: Answer)
      requires Valid() && thread in world.mem.flights && world.mem.flights[thread].id == id
      requires world.mem.flights[thread].phase.Returned?
      requires world.mem.flights[thread].phase.call < |world.calls|
      requires world.calls[world.mem.flights[thread].phase.call].outcome == Some(outcome)
      modifies this, log, projection
      ensures Valid()
      ensures world == Do(old(world), ExecEnd(thread, write))
      ensures old(Safe(r => true, world)) ==> (r.Err? <==> !write.fate.Lands?)
      ensures old(Safe(r => true, world)) && r.Ok? ==>
                && Has(projection.requests, id, if outcome.failed then Failed else Executed)
                && projection.requests[id].execution == Some(outcome.result)
                && r.value == FromSnapshot(projection.requests[id], if outcome.failed then error else "request executed")
    {
      ghost var a := ExecEnd(thread, write);
      if Safe(r => true, world) {
        ExecEndFacts(world, a, outcome);
      }
      var draft := FinishDraft(id, outcome);
      var failure := Record(a, draft, write);
      world := world.(mem := world.mem.(flights := world.mem.flights - {thread}));
      if failure.Some? {
        return Err(failure.value);
      }
      return Ok(FromSnapshot(projection.requests[id], if outcome.failed then error else "request executed"));
    }
  }

  // ----- Starting -----

  /**
   `NewService` on a log just opened. `null` stands for its error return, and for a crash on the way;
   `w` is the world before the start.
   */
  method NewService(cfg: Config, log: Log, writes: seq<Write>, ghost w: World) returns (s: Service?)
    requires w.mem.Down? && w.file == log.file
    requires Replay(log.file).Ok? ==> log.lastHash == LastHash(Replay(log.file).value)
    modifies log
    ensures log.file == Do(w, Restart(cfg, writes)).file
    ensures s == null <==> Do(w, Restart(cfg, writes)).mem.Down?
    ensures s != null ==> fresh(s) && fresh(s.projection) && s.log == log && s.cfg == cfg
                          && s.Valid() && s.world == Do(w, Restart(cfg, writes))
  {
    ghost var a := Restart(cfg, writes);
    var history := log.ReplayAll();
    if history.Err? {
      return null;
    }
    var projection, rebuilt := Projection.Rebuild(history.value);
    if rebuilt.Err? {
      return null;
    }
    s := new Service(cfg, log, projection, w.(mem := Up(cfg, LastHash(history.value), projection.requests, map[])));
    var ok := s.RecoverExecuting(writes, a, DoRestart(w, a));
    if !ok {
      return null;
    }
  }

  // ----- The lanes -----

  /** `dispatch`, action by action. */
  method DispatchSubmit(s: Service, lane: Lane, peer: PeerIdentity, argv: seq<string>, reason: string, mode: string,
                        cwd: string, now: int, id: string, write: Write) returns (r: Answer)
    requires s.Valid()
    modifies s, s.log, s.projection
    ensures s.Valid() && s.world == Do(old(s.world), Action.Submit(lane, peer, argv, reason, mode, cwd, now, id, write))
    ensures lane.ReviewLane? ==>
              r == Ok(Plain("", "rejected", "submit is only allowed on request socket")) && s.world == old(s.world)
    ensures lane.RequestLane? && argv == [] ==> r == Ok(Plain("", "error", "argv is required")) && s.world == old(s.world)
    ensures lane.RequestLane? && argv != [] ==> (r.Ok? <==> write.fate.Lands? && id !in old(s.projection.requests))
  {
    if !lane.RequestLane? {
      return Ok(Plain("", "rejected", "submit is only allowed on request socket"));
    }
    r := s.Submit(peer, argv, reason, mode, cwd, now, id, write);
  }

  method DispatchStatus(s: Service, lane: Lane, id: string, now: int, write: Write) returns (r: Answer)
    requires s.Valid()
    modifies s, s.log, s.projection
    ensures s.Valid() && s.world == Do(old(s.world), Action.Status(lane, id, now, write))
    ensures lane.ReviewLane? ==>
              r == Ok(Plain("", "rejected", "status is only allowed on request socket")) && s.world == old(s.world)
    ensures lane.RequestLane? && r.Ok? ==>
              r == if id in s.projection.requests then Ok(FromSnapshot(s.projection.requests[id], "status retrieved"))
                   else Ok(Plain(id, "error", "request not found"))
  {
    if !lane.RequestLane? {
      return Ok(Plain("", "rejected", "status is only allowed on request socket"));
    }
    r := s.GetStatus(id, now, write);
  }

  method DispatchExecute(s: Service, lane: Lane, thread: nat, id: string, now: int, write: Write) returns (r: Begin)
    requires s.Valid() && thread !in s.world.mem.flights
    modifies s, s.log, s.projection
    ensures s.Valid() && s.world == Do(old(s.world), ExecBegin(lane, thread, id, now, write))
    ensures lane.ReviewLane? ==>
              r == Refuse(Ok(Plain("", "rejected", "execute is only allowed on request socket"))) && s.world == old(s.world)
    ensures lane.RequestLane? ==> (r.Go? <==> Has(old(s.projection.requests), id, Approved) && write.fate.Lands?)
  {
    if !lane.RequestLane? {
      return Refuse(Ok(Plain("", "rejected", "execute is only allowed on request socket")));
    }
    r := s.ExecuteBegin(thread, id, now, write);
  }

  method DispatchApprove(s: Service, lane: Lane, peer: PeerIdentity, id: string, approver: Actor, code: string,
                         now: int, write: Write) returns (r: Answer)
    requires s.Valid()
    modifies s, s.log, s.projection
    ensures s.Valid() && s.world == Do(old(s.world), Action.Approve(lane, peer, id, approver, code, now, write))
    ensures lane.RequestLane? ==> r == Ok(Plain("", "rejected", "approve is only allowed on review socket"))
    ensures lane.ReviewLane? && peer.uid !in s.cfg.reviewUids && peer.gid !in s.cfg.reviewGids ==>
              r == Ok(Plain(id, "rejected", "peer uid is not allowed on review socket"))
    ensures lane.ReviewLane? && (peer.uid in s.cfg.reviewUids || peer.gid in s.cfg.reviewGids) ==>
              ReviewAnswered(old(s.projection.requests), s.projection.requests, id, approver, now, write, None, r)
  {
    if !lane.ReviewLane? {
      return Ok(Plain("", "rejected", "approve is only allowed on review socket"));
    }
    if !(peer.uid in s.cfg.reviewUids || peer.gid in s.cfg.reviewGids) {
      return Ok(Plain(id, "rejected", "peer uid is not allowed on review socket"));
    }
    ghost var a := Action.Approve(lane, peer, id, approver, code, now, write);
    var draft := Draft(id, approver, RequestApproved, ApprovalJson(approver, code));
    r := s.ReviewWith(a, id, approver, now, write, draft, "request approved");
  }

  method DispatchDeny(s: Service, lane: Lane, peer: PeerIdentity, id: string, approver: Actor, reason: string,
                      now: int, write: Write) returns (r: Answer)
    requires s.Valid()
    modifies s, s.log, s.projection
    ensures s.Valid() && s.world == Do(old(s.world), Action.Deny(lane, peer, id, approver, reason, now, write))
    ensures lane.RequestLane? ==> r == Ok(Plain("", "rejected", "deny is only allowed on review socket"))
    ensures lane.ReviewLane? && peer.uid !in s.cfg.reviewUids && peer.gid !in s.cfg.reviewGids ==>
              r == Ok(Plain(id, "rejected", "peer uid is not allowed on review socket"))
    ensures lane.ReviewLane? && (peer.uid in s.cfg.reviewUids || peer.gid in s.cfg.reviewGids) ==>
              ReviewAnswered(old(s.projection.requests), s.projection.requests, id, approver, now, write, Some(reason), r)
  {
    if !lane.ReviewLane? {
      return Ok(Plain("", "rejected", "deny is only allowed on review socket"));
    }
    if !(peer.uid in s.cfg.reviewUids || peer.gid in s.cfg.reviewGids) {
      return Ok(Plain(id, "rejected", "peer uid is not allowed on review socket"));
    }
    ghost var a := Action.Deny(lane, peer, id, approver, reason, now, write);
    var draft := Draft(id, approver, RequestDenied, DenialJson(approver, reason));
    r := s.ReviewWith(a, id, approver, now, write, draft, "request denied");
  }
}

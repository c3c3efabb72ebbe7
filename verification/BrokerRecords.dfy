/**
 What the broker writes, and why, in every run: each event handed to the log says what its action said, under
 the configuration then in force, and the rules for that kind of event were met by what the broker had seen.
 */
module BrokerRecords {
  import opened Core
  import opened Events
  import opened HashLog
  import opened Projections
  import opened Broker
  import Text

  /** The rules of a review, written out: who may speak, for whom, and until when. */
  ghost predicate ProperReview(at: Attempt, r: Request) {
    && (at.action.Approve? || at.action.Deny?)
    && at.action.lane.ReviewLane?
    && (at.action.peer.uid in at.cfg.reviewUids || at.action.peer.gid in at.cfg.reviewGids)
    && at.event.actor == at.action.approver
    && at.action.approver.kind != "" && at.action.approver.id != ""
    && at.action.approver.id != r.requester.username
    && (forall t :: IsNumeral(t, r.requester.uid) ==> at.action.approver.id != t && at.action.approver.id != "uid:" + t)
    && at.action.now < r.expiresAt
  }

  /** The name a creation is written under: the requester's, or the numeral of the uid behind "uid:". */
  ghost predicate NamesRequester(actor: Actor, peer: PeerIdentity) {
    && actor.kind == "requester"
    && (peer.username != "" ==> actor.id == peer.username)
    && (peer.username == "" ==> forall t :: IsNumeral(t, peer.uid) ==> actor.id == "uid:" + t)
  }

  /** A call that names a request, and comes by the lane and from a peer it is open to. */
  ghost predicate ReachesService(cfg: Config, a: Action) {
    if a.Approve? || a.Deny? then
      a.lane.ReviewLane? && (a.peer.uid in cfg.reviewUids || a.peer.gid in cfg.reviewGids)
    else (a.Status? || a.ExecBegin?) && a.lane.RequestLane?
  }

  ghost predicate FoundIn(at: Attempt, status: Core.Status) {
    at.seen.Some? && at.seen.value.status == status
  }

  /** What each kind of event says, and what it takes to write one. */
  ghost predicate Justified(at: Attempt) {
    var broker := Actor("broker", "request-sudod");
    match at.event.typ
    case RequestCreated =>
      && at.action.Submit? && at.action.lane.RequestLane? && at.action.argv != [] && at.event.requestId == at.action.id
      && at.event.details.CreatedJson? && RecordsSubmission(at.cfg, at.action, at.event.details.request)
      && NamesRequester(at.event.actor, at.action.peer)
    case RequestApproved =>
      && at.action.Approve? && at.event.requestId == at.action.id && FoundIn(at, Pending)
      && ProperReview(at, at.seen.value.request)
      && at.event.details == ApprovalJson(at.action.approver, at.action.code)
    case RequestDenied =>
      && at.action.Deny? && at.event.requestId == at.action.id && FoundIn(at, Pending)
      && ProperReview(at, at.seen.value.request)
      && at.event.details == DenialJson(at.action.approver, at.action.reason)
    case RequestExpired =>
      && ReachesService(at.cfg, at.action)
      && at.event.requestId == at.action.id && FoundIn(at, Pending) && at.action.now >= at.seen.value.request.expiresAt
      && at.event.actor == broker && at.event.details == NoDetails
    case ExecutionStarted =>
      && at.action.ExecBegin? && at.action.lane.RequestLane? && at.event.requestId == at.action.id && FoundIn(at, Approved)
      && at.event.actor == broker && at.event.details == StartedJson(at.cfg.executor, at.seen.value.request.digest)
    case ExecutionSucceeded => at.action.ExecEnd? && at.event.actor == broker && at.event.details.FinishedJson?
    case ExecutionFailed => at.action.ExecEnd? && at.event.actor == broker && at.event.details.FinishedJson?
    case RecoveryMarkedFailed =>
      && at.action.Restart? && at.event.actor == broker
      && at.event.details == RecoveryJson("broker restarted while execution was in flight")
    case _ => false
  }

  ghost predicate AllJustified(attempts: seq<Attempt>) {
    forall i :: 0 <= i < |attempts| ==> Justified(attempts[i])
  }

  /** The attempt that handing this draft to the log records. */
  ghost function AttemptOf(w: World, a: Action, draft: Event, write: Write): Attempt
    requires w.mem.Up?
  {
    var e := Seal(draft, write, w.mem.lastHash);
    Attempt(w.mem.cfg, a, e, Lookup(w.mem.requests, e.requestId))
  }

  lemma EmitJustified(w: World, a: Action, draft: Event, write: Write)
    requires w.mem.Up? && AllJustified(w.attempts) && Justified(AttemptOf(w, a, draft, write))
    ensures AllJustified(Emit(w, a, draft, write).attempts)
  {
    assert Emit(w, a, draft, write).attempts == w.attempts + [AttemptOf(w, a, draft, write)];
  }

  lemma SubmitJustified(w: World, a: Action)
    requires w.mem.Up? && a.Submit? && AllJustified(w.attempts)
    ensures AllJustified(DoSubmit(w, a).attempts)
  {
    if a.lane.RequestLane? && a.argv != [] {
      CreationJustified(w, a, CreatedDraft(w.mem.cfg, a));
      EmitJustified(w, a, CreatedDraft(w.mem.cfg, a), a.write);
    }
  }

  lemma CreationJustified(w: World, a: Action, draft: Event)
    requires w.mem.Up? && a.Submit? && a.lane.RequestLane? && a.argv != [] && draft == CreatedDraft(w.mem.cfg, a)
    ensures Justified(AttemptOf(w, a, draft, a.write))
  {
    BuiltIsRecorded(w.mem.cfg, a);
    forall t | IsNumeral(t, a.peer.uid) ensures t == Itoa(a.peer.uid) {
      NumeralIsItoa(t, a.peer.uid);
    }
  }

  lemma ExpiryJustified(w: World, a: Action)
    requires w.mem.Up? && AllJustified(w.attempts) && ReachesService(w.mem.cfg, a)
    requires Overdue(w.mem.requests, a.id, a.now)
    ensures AllJustified(Emit(w, a, ExpiredDraft(a.id), a.write).attempts)
  {
    EmitJustified(w, a, ExpiredDraft(a.id), a.write);
  }

  lemma ReviewJustified(w: World, a: Action, draft: Event)
    requires w.mem.Up? && AllJustified(w.attempts)
    requires (a.Approve? && draft == ApprovedDraft(a)) || (a.Deny? && draft == DeniedDraft(a))
    ensures AllJustified(DoReview(w, a, draft).attempts)
  {
    if a.lane.ReviewLane? && ReviewAllowed(w.mem.cfg, a.peer) {
      if Overdue(w.mem.requests, a.id, a.now) {
        ExpiryJustified(w, a);
      } else if Has(w.mem.requests, a.id, Pending) && ValidApprover(a.approver, w.mem.requests[a.id].request.requester) {
        ValidApproverIff(a.approver, w.mem.requests[a.id].request.requester);
        EmitJustified(w, a, draft, a.write);
      }
    }
  }

  lemma StartJustified(w: World, a: Action)
    requires w.mem.Up? && AllJustified(w.attempts) && a.ExecBegin?
    ensures AllJustified(DoExecBegin(w, a).attempts)
  {
    if a.lane.RequestLane? && a.thread !in w.mem.flights {
      if Overdue(w.mem.requests, a.id, a.now) {
        ExpiryJustified(w, a);
      } else if Has(w.mem.requests, a.id, Approved) {
        EmitJustified(w, a, StartedDraft(w.mem.cfg, a.id, w.mem.requests[a.id].request.digest), a.write);
      }
    }
  }

  lemma EndJustified(w: World, a: Action)
    requires w.mem.Up? && AllJustified(w.attempts) && a.ExecEnd?
    ensures AllJustified(DoExecEnd(w, a).attempts)
  {
    if DoExecEnd(w, a) != w {
      var flight := w.mem.flights[a.thread];
      EmitJustified(w, a, FinishDraft(flight.id, w.calls[flight.phase.call].outcome.value), a.write);
    }
  }

  lemma {:induction false} RecoverJustified(w: World, a: Action, ids: seq<string>, writes: seq<Write>)
    requires w.mem.Up? && AllJustified(w.attempts) && a.Restart?
    ensures AllJustified(Recover(w, a, ids, writes).attempts)
    decreases |ids|
  {
    if ids != [] && writes != [] {
      EmitJustified(w, a, RecoveryDraft(ids[0]), writes[0]);
      if Emitted(w, RecoveryDraft(ids[0]), writes[0]) {
        RecoverJustified(Emit(w, a, RecoveryDraft(ids[0]), writes[0]), a, ids[1..], writes[1..]);
      }
    }
  }

  lemma RestartJustified(w: World, a: Action)
    requires AllJustified(w.attempts) && a.Restart?
    ensures AllJustified(DoRestart(w, a).attempts)
  {
    if Replay(w.file).Ok? && Rebuilt(Replay(w.file).value).Ok? {
      var history := Replay(w.file).value;
      var m := Rebuilt(history).value;
      RecoverJustified(w.(mem := Up(a.cfg, LastHash(history), m, map[])), a, Dangling(m, Text.SortedKeys(m.Keys)), a.writes);
    }
  }

  lemma StepJustified(w: World, a: Action)
    requires AllJustified(w.attempts)
    ensures AllJustified(Do(w, a).attempts)
  {
    if w.mem.Down? {
      if a.Restart? {
        RestartJustified(w, a);
      }
    } else {
      match a
      case Submit(_, _, _, _, _, _, _, _, _) => SubmitJustified(w, a);
      case Status(_, _, _, _) =>
        if a.lane.RequestLane? && Overdue(w.mem.requests, a.id, a.now) {
          ExpiryJustified(w, a);
        }
      case Approve(_, _, _, _, _, _, _) => ReviewJustified(w, a, ApprovedDraft(a));
      case Deny(_, _, _, _, _, _, _) => ReviewJustified(w, a, DeniedDraft(a));
      case ExecBegin(_, _, _, _, _) => StartJustified(w, a);
      case ExecEnd(_, _) => EndJustified(w, a);
      case _ =>
    }
  }

  /** In every run, each event the broker handed to the log says what it should, and was justified. */
  lemma {:induction false} EveryEventIsJustified(actions: seq<Action>)
    ensures AllJustified(Run(START, actions).attempts)
  {
    if actions != [] {
      EveryEventIsJustified(actions[..|actions| - 1]);
      StepJustified(Run(START, actions[..|actions| - 1]), actions[|actions| - 1]);
    }
  }
}

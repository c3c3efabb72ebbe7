/**
 The broker of internal/broker/service.go behind the lanes of internal/socket/server.go, as a
 transition system. One action is one critical section of the broker lock, one executor call or
 return, a crash, or a restart. Everything the environment decides (clock readings, fresh ids, which
 peer speaks on which lane, how each append ends) is part of the action.
 */
module Broker {
  import opened Core
  import opened Events
  import opened HashLog
  import opened Projections
  import opened Execution
  import opened Text

  datatype Lane = RequestLane | ReviewLane

  datatype Config = Config(ttl: int, hostname: string, executor: string,
                           reviewUids: set<Uint32>, reviewGids: set<Uint32>)

  datatype Outcome = Outcome(result: ExecutionResult, failed: bool)

  datatype Action =
    | Submit(lane: Lane, peer: PeerIdentity, argv: seq<string>, reason: string, mode: string, cwd: string,
             now: int, id: string, write: Write)
    | Status(lane: Lane, id: string, now: int, write: Write)
    | Approve(lane: Lane, peer: PeerIdentity, id: string, approver: Actor, code: string, now: int, write: Write)
    | Deny(lane: Lane, peer: PeerIdentity, id: string, approver: Actor, reason: string, now: int, write: Write)
    | ExecBegin(lane: Lane, thread: nat, id: string, now: int, write: Write)
    | ExecCall(thread: nat)
    | ExecReturn(thread: nat, outcome: Outcome)
    | ExecEnd(thread: nat, write: Write)
    | Crash
    | Restart(cfg: Config, writes: seq<Write>)

  // ----- State -----

  /** One call of the executor; `outcome` is set when it returns. */
  datatype Call = Call(request: Request, outcome: Option<Outcome>)

  /** Where a thread is between the two critical sections of `Execute`. */
  datatype Phase = Begun | Running(call: nat) | Returned(call: nat)

  datatype Flight = Flight(id: string, request: Request, phase: Phase)

  /** `cfg` is the configuration the running broker was started with. */
  datatype Memory = Down | Up(cfg: Config, lastHash: Hash, requests: Requests, flights: map<nat, Flight>)

  /** One event handed to `Append`: the configuration then in force, why, and the snapshot the broker had seen. */
  datatype Attempt = Attempt(cfg: Config, action: Action, event: Event, seen: Option<Snapshot>)

  /** The file survives crashes; `calls` and `attempts` record the past and are read by no step. */
  datatype World = World(file: File, mem: Memory, calls: seq<Call>, attempts: seq<Attempt>)

  const START := World(File([], Clean), Down, [], [])

  // ----- Decisions -----

  const BROKER := Actor("broker", "request-sudod")

  function Digit(n: nat): char
    requires n < 10
  {
    ('0' as int + n) as char
  }

  function Itoa(n: nat): string {
    if n < 10 then [Digit(n)] else Itoa(n / 10) + [Digit(n % 10)]
  }

  // Reading a numeral back, to say what `Itoa` writes.

  predicate AllDigits(s: string) {
    forall i :: 0 <= i < |s| ==> '0' <= s[i] <= '9'
  }

  function Value(s: string): nat
    requires AllDigits(s)
  {
    if s == "" then 0 else 10 * Value(s[..|s| - 1]) + (s[|s| - 1] as int - '0' as int)
  }

  /** The decimal numeral of a number: digits, of that value, without a leading zero. */
  ghost predicate IsNumeral(s: string, n: nat) {
    s != "" && AllDigits(s) && (|s| > 1 ==> s[0] != '0') && Value(s) == n
  }

  lemma ValueSnoc(s: string, n: nat)
    requires AllDigits(s) && n < 10
    ensures AllDigits(s + [Digit(n)]) && Value(s + [Digit(n)]) == 10 * Value(s) + n
  {
    assert (s + [Digit(n)])[..|s|] == s;
  }

  lemma {:induction false} ItoaIsNumeral(n: nat)
    ensures IsNumeral(Itoa(n), n) && (n > 0 ==> Itoa(n)[0] != '0')
  {
    if n < 10 {
      ValueSnoc("", n);
      assert "" + [Digit(n)] == [Digit(n)];
    } else {
      ItoaIsNumeral(n / 10);
      ValueSnoc(Itoa(n / 10), n % 10);
    }
  }

  lemma {:induction false} FirstDigitCounts(s: string)
    requires s != "" && AllDigits(s) && s[0] != '0'
    ensures Value(s) > 0
  {
    if |s| > 1 {
      FirstDigitCounts(s[..|s| - 1]);
    }
  }

  lemma {:induction false} NumeralIsItoa(s: string, n: nat)
    requires IsNumeral(s, n)
    ensures s == Itoa(n)
  {
    var front, last := s[..|s| - 1], s[|s| - 1];
    var d := last as int - '0' as int;
    assert s == front + [last] && Digit(d) == last;
    ValueSnoc(front, d);
    if |s| == 1 {
      assert front == "" && s == [Digit(n)];
    } else {
      FirstDigitCounts(front);
      assert front[0] == s[0] && n / 10 == Value(front) && n % 10 == d;
      NumeralIsItoa(front, n / 10);
    }
  }

  /** The rule of `validateApprover`, with the requester's numerals read instead of written. */
  lemma ValidApproverIff(approver: Actor, requester: PeerIdentity)
    ensures ValidApprover(approver, requester) <==>
            && approver.kind != "" && approver.id != "" && approver.id != requester.username
            && forall t :: IsNumeral(t, requester.uid) ==> approver.id != t && approver.id != "uid:" + t
  {
    ItoaIsNumeral(requester.uid);
    forall t | IsNumeral(t, requester.uid) ensures t == Itoa(requester.uid) {
      NumeralIsItoa(t, requester.uid);
    }
  }

  function ActorIdForPeer(peer: PeerIdentity): string {
    if peer.username != "" then peer.username else "uid:" + Itoa(peer.uid)
  }

  /** `validateApprover` returns no error. */
  predicate ValidApprover(approver: Actor, requester: PeerIdentity) {
    && approver.kind != "" && approver.id != ""
    && approver.id != requester.username
    && approver.id != Itoa(requester.uid)
    && approver.id != "uid:" + Itoa(requester.uid)
  }

  predicate ReviewAllowed(cfg: Config, peer: PeerIdentity) {
    peer.uid in cfg.reviewUids || peer.gid in cfg.reviewGids
  }

  /** The request has outlived its time and `expireIfNeededLocked` will say so. */
  predicate Overdue(m: Requests, id: string, now: int) {
    id in m && m[id].status == Pending && now >= m[id].request.expiresAt
  }

  predicate Has(m: Requests, id: string, status: Core.Status) {
    id in m && m[id].status == status
  }

  /** The record `Submit` builds. */
  ghost function BuildRequest(cfg: Config, a: Action): Request
    requires a.Submit?
  {
    var spec := BuildExecutionSpec(a.argv, a.cwd);
    Request(a.id, a.argv, a.reason, if a.mode == "" then "poll" else a.mode, a.peer, cfg.hostname,
            a.now, a.now + cfg.ttl, DigestOf(a.id, spec, a.peer, a.now + cfg.ttl), spec)
  }

  /** What a submission has to put in the record, field by field. */
  ghost predicate RecordsSubmission(cfg: Config, a: Action, r: Request)
    requires a.Submit?
  {
    && r.id == a.id && r.argv == a.argv && r.reason == a.reason && r.requester == a.peer && r.host == cfg.hostname
    && (a.mode == "" ==> r.mode == "poll") && (a.mode != "" ==> r.mode == a.mode)
    && r.createdAt == a.now && r.expiresAt == a.now + cfg.ttl
    && r.spec.argv == a.argv && r.spec.cwd == NormalizeCwd(a.cwd)
    && r.spec.env == map["PATH" := "/usr/sbin:/usr/bin:/sbin:/bin", "LANG" := "C", "LC_ALL" := "C"]
    && r.digest == Digest(a.argv, EnvList(r.spec.env), NormalizeCwd(a.cwd), a.peer.uid, a.id, a.now + cfg.ttl)
  }

  lemma BuiltIsRecorded(cfg: Config, a: Action)
    requires a.Submit?
    ensures RecordsSubmission(cfg, a, BuildRequest(cfg, a))
  {
  }

  ghost function CreatedDraft(cfg: Config, a: Action): Event
    requires a.Submit?
  {
    Draft(a.id, Actor("requester", ActorIdForPeer(a.peer)), RequestCreated, CreatedJson(BuildRequest(cfg, a)))
  }

  function ExpiredDraft(id: string): Event {
    Draft(id, BROKER, RequestExpired, NoDetails)
  }

  function RecoveryDraft(id: string): Event {
    Draft(id, BROKER, RecoveryMarkedFailed, RecoveryJson("broker restarted while execution was in flight"))
  }

  function FinishDraft(id: string, outcome: Outcome): Event {
    Draft(id, BROKER, if outcome.failed then ExecutionFailed else ExecutionSucceeded, FinishedJson(outcome.result))
  }

  // ----- Steps -----

  /** Append, then apply if the append succeeded. */
  function Emit(w: World, a: Action, draft: Event, write: Write): World
    requires w.mem.Up?
  {
    var e := Seal(draft, write, w.mem.lastHash);
    World(WriteLine(w.file, e, write.size, write.fate),
          if !write.fate.Lands? then w.mem
          else w.mem.(lastHash := e.hash,
                      requests := match Applied(w.mem.requests, e) case Ok(m) => m case Err(_) => w.mem.requests),
          w.calls,
          w.attempts + [Attempt(w.mem.cfg, a, e, Lookup(w.mem.requests, e.requestId))])
  }

  /** The append succeeded and `Apply` took the event. */
  predicate Emitted(w: World, draft: Event, write: Write)
    requires w.mem.Up?
  {
    write.fate.Lands? && Applied(w.mem.requests, Seal(draft, write, w.mem.lastHash)).Ok?
  }

  ghost function DoSubmit(w: World, a: Action): World
    requires w.mem.Up? && a.Submit?
  {
    if !a.lane.RequestLane? || a.argv == [] then w else Emit(w, a, CreatedDraft(w.mem.cfg, a), a.write)
  }

  function DoStatus(w: World, a: Action): World
    requires w.mem.Up? && a.Status?
  {
    if a.lane.RequestLane? && Overdue(w.mem.requests, a.id, a.now) then Emit(w, a, ExpiredDraft(a.id), a.write)
    else w
  }

  /** A review first lets an overdue request expire; what is then no longer pending is left alone. */
  function Review(w: World, a: Action, draft: Event): World
    requires w.mem.Up? && (a.Approve? || a.Deny?)
  {
    if Overdue(w.mem.requests, a.id, a.now) then Emit(w, a, ExpiredDraft(a.id), a.write)
    else if Has(w.mem.requests, a.id, Pending) && ValidApprover(a.approver, w.mem.requests[a.id].request.requester) then
      Emit(w, a, draft, a.write)
    else w
  }

  /** Reviews reach the service from the review lane and from allowed peers only. */
  function DoReview(w: World, a: Action, draft: Event): World
    requires w.mem.Up? && (a.Approve? || a.Deny?)
  {
    if !a.lane.ReviewLane? || !ReviewAllowed(w.mem.cfg, a.peer) then w else Review(w, a, draft)
  }

  function StartedDraft(cfg: Config, id: string, digest: Digest): Event {
    Draft(id, BROKER, ExecutionStarted, StartedJson(cfg.executor, digest))
  }

  function ApprovedDraft(a: Action): Event
    requires a.Approve?
  {
    Draft(a.id, a.approver, RequestApproved, ApprovalJson(a.approver, a.code))
  }

  function DeniedDraft(a: Action): Event
    requires a.Deny?
  {
    Draft(a.id, a.approver, RequestDenied, DenialJson(a.approver, a.reason))
  }

  /** The first critical section of `Execute`. */
  function DoExecBegin(w: World, a: Action): World
    requires w.mem.Up? && a.ExecBegin?
  {
    if !a.lane.RequestLane? || a.thread in w.mem.flights then w
    else if Overdue(w.mem.requests, a.id, a.now) then Emit(w, a, ExpiredDraft(a.id), a.write)
    else if !Has(w.mem.requests, a.id, Approved) then w
    else
      var request := w.mem.requests[a.id].request;
      var draft := StartedDraft(w.mem.cfg, a.id, request.digest);
      var w' := Emit(w, a, draft, a.write);
      if !Emitted(w, draft, a.write) then w'
      else w'.(mem := w'.mem.(flights := w.mem.flights[a.thread := Flight(a.id, request, Begun)]))
  }

  function DoExecCall(w: World, a: Action): World
    requires w.mem.Up? && a.ExecCall?
  {
    if a.thread !in w.mem.flights || !w.mem.flights[a.thread].phase.Begun? then w
    else
      var flight := w.mem.flights[a.thread];
      w.(calls := w.calls + [Call(flight.request, None)],
         mem := w.mem.(flights := w.mem.flights[a.thread := flight.(phase := Running(|w.calls|))]))
  }

  function DoExecReturn(w: World, a: Action): World
    requires w.mem.Up? && a.ExecReturn?
  {
    if a.thread !in w.mem.flights || !w.mem.flights[a.thread].phase.Running?
       || w.mem.flights[a.thread].phase.call >= |w.calls| then w
    else
      var flight := w.mem.flights[a.thread];
      var k := flight.phase.call;
      w.(calls := w.calls[k := w.calls[k].(outcome := Some(a.outcome))],
         mem := w.mem.(flights := w.mem.flights[a.thread := flight.(phase := Returned(k))]))
  }

  /** The second critical section of `Execute`. */
  function DoExecEnd(w: World, a: Action): World
    requires w.mem.Up? && a.ExecEnd?
  {
    if a.thread !in w.mem.flights || !w.mem.flights[a.thread].phase.Returned?
       || w.mem.flights[a.thread].phase.call >= |w.calls|
       || w.calls[w.mem.flights[a.thread].phase.call].outcome.None? then w
    else
      var flight := w.mem.flights[a.thread];
      var w' := Emit(w, a, FinishDraft(flight.id, w.calls[flight.phase.call].outcome.value), a.write);
      w'.(mem := w'.mem.(flights := w.mem.flights - {a.thread}))
  }

  /** The ids that a sorted walk over the snapshots finds executing. */
  function Dangling(m: Requests, keys: seq<string>): seq<string> {
    if keys == [] then [] else
      (if Has(m, keys[0], Executing) then [m[keys[0]].request.id] else []) + Dangling(m, keys[1..])
  }

  /**
   `recoverExecutingLocked`. The loop stops, and `NewService` fails, at the first append that fails;
   running out of writes is a crash before the next append.
   */
  function Recover(w: World, a: Action, ids: seq<string>, writes: seq<Write>): World
    requires w.mem.Up?
    decreases |ids|
  {
    if ids == [] then w
    else if writes == [] then w.(mem := Down)
    else
      var w' := Emit(w, a, RecoveryDraft(ids[0]), writes[0]);
      if Emitted(w, RecoveryDraft(ids[0]), writes[0]) then Recover(w', a, ids[1..], writes[1..])
      else w'.(mem := Down)
  }

  /** `NewLog` and `NewService`: replay, rebuild, recover. */
  ghost function DoRestart(w: World, a: Action): World
    requires a.Restart?
  {
    match Replay(w.file)
    case Err(_) => w
    case Ok(history) =>
      match Rebuilt(history)
      case Err(_) => w
      case Ok(m) =>
        Recover(w.(mem := Up(a.cfg, LastHash(history), m, map[])), a, Dangling(m, SortedKeys(m.Keys)), a.writes)
  }

  ghost function Do(w: World, a: Action): World {
    if w.mem.Down? then
      if a.Restart? then DoRestart(w, a) else w
    else
      match a
      case Submit(_, _, _, _, _, _, _, _, _) => DoSubmit(w, a)
      case Status(_, _, _, _) => DoStatus(w, a)
      case Approve(_, _, _, _, _, _, _) => DoReview(w, a, ApprovedDraft(a))
      case Deny(_, _, _, _, _, _, _) => DoReview(w, a, DeniedDraft(a))
      case ExecBegin(_, _, _, _, _) => DoExecBegin(w, a)
      case ExecCall(_) => DoExecCall(w, a)
      case ExecReturn(_, _) => DoExecReturn(w, a)
      case ExecEnd(_, _) => DoExecEnd(w, a)
      case Crash => w.(mem := Down)
      case Restart(_, _) => w
  }

  /** The world after a run of actions. */
  ghost function Run(w: World, actions: seq<Action>): World {
    if actions == [] then w else Do(Run(w, actions[..|actions| - 1]), actions[|actions| - 1])
  }

  lemma RunSnoc(w: World, actions: seq<Action>, a: Action)
    ensures Run(w, actions + [a]) == Do(Run(w, actions), a)
  {
    assert (actions + [a])[..|actions|] == actions;
  }
}

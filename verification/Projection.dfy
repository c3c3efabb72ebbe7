/** The projection of internal/projection/projection.go: the state machine every log has to satisfy. */
module Projections {
  import opened Core
  import opened Events
  import opened Text

  datatype Snapshot = Snapshot(request: Request, status: Status, approver: Option<Actor>, denyReason: string,
                               execution: Option<ExecutionResult>, lastEventType: EventType,
                               lastEventAt: int, lastEventHash: Hash)

  type Requests = map<string, Snapshot>

  datatype ApplyError = AlreadyExists | NoSuchRequest | InvalidFrom(status: Status) | BadDetails | UnsupportedType

  /** What one event does to the request it names; `None` is a request not seen before. */
  function Advance(before: Option<Snapshot>, e: Event): Result<Snapshot, ApplyError> {
    if e.typ.RequestCreated? then
      if before.Some? then Err(AlreadyExists)
      else
        match DecodeCreated(e.details)
        case None => Err(BadDetails)
        case Some(request) => Ok(Snapshot(request, Pending, None, "", None, e.typ, e.timestamp, e.hash))
    else if before.None? then Err(NoSuchRequest)
    else
      match Move(before.value, e)
      case Err(error) => Err(error)
      case Ok(snap) => Ok(snap.(lastEventType := e.typ, lastEventAt := e.timestamp, lastEventHash := e.hash))
  }

  /** The second switch of `Apply`. */
  function Move(snap: Snapshot, e: Event): Result<Snapshot, ApplyError> {
    match e.typ
    case RequestApproved =>
      if snap.status != Pending then Err(InvalidFrom(snap.status))
      else
        (match DecodeApproval(e.details)
         case None => Err(BadDetails)
         case Some(approver) => Ok(snap.(status := Approved, approver := Some(approver))))
    case RequestDenied =>
      if snap.status != Pending then Err(InvalidFrom(snap.status))
      else
        (match DecodeDenial(e.details)
         case None => Err(BadDetails)
         case Some(denial) => Ok(snap.(status := Denied, approver := Some(denial.0), denyReason := denial.1)))
    case RequestExpired =>
      if snap.status != Pending then Err(InvalidFrom(snap.status)) else Ok(snap.(status := Expired))
    case RequestRevoked =>
      if snap.status != Pending && snap.status != Approved then Err(InvalidFrom(snap.status))
      else Ok(snap.(status := Revoked))
    case ExecutionStarted =>
      if snap.status != Approved then Err(InvalidFrom(snap.status)) else Ok(snap.(status := Executing))
    case ExecutionSucceeded =>
      if snap.status != Executing then Err(InvalidFrom(snap.status))
      else
        (match DecodeFinished(e.details)
         case None => Err(BadDetails)
         case Some(result) => Ok(snap.(status := Executed, execution := Some(result))))
    case ExecutionFailed =>
      if snap.status != Executing then Err(InvalidFrom(snap.status))
      else if e.details.NoDetails? then Ok(snap.(status := Failed))
      else
        (match DecodeFinished(e.details)
         case None => Err(BadDetails)
         case Some(result) => Ok(snap.(status := Failed, execution := Some(result))))
    case RecoveryMarkedFailed =>
      if snap.status != Executing then Err(InvalidFrom(snap.status)) else Ok(snap.(status := Failed))
    case _ => Err(UnsupportedType)
  }

  function Lookup(m: Requests, id: string): Option<Snapshot> {
    if id in m then Some(m[id]) else None
  }

  function Applied(m: Requests, e: Event): Result<Requests, ApplyError> {
    match Advance(Lookup(m, e.requestId), e)
    case Err(error) => Err(error)
    case Ok(snap) => Ok(m[e.requestId := snap])
  }

  function Rebuilt(history: seq<Event>): Result<Requests, ApplyError> {
    if history == [] then Ok(map[]) else
      match Rebuilt(history[..|history| - 1])
      case Err(error) => Err(error)
      case Ok(m) => Applied(m, history[|history| - 1])
  }

  lemma RebuildSnoc(history: seq<Event>, e: Event)
    ensures Rebuilt(history + [e]) ==
            match Rebuilt(history) case Err(error) => Err(error) case Ok(m) => Applied(m, e)
  {
    assert (history + [e])[..|history|] == history;
  }

  lemma {:induction false} RebuildPrefix(history: seq<Event>, n: nat)
    requires n <= |history| && Rebuilt(history).Ok?
    ensures Rebuilt(history[..n]).Ok?
  {
    if n == |history| {
      assert history[..n] == history;
    } else {
      var front := history[..|history| - 1];
      RebuildPrefix(front, n);
      assert front[..n] == history[..n];
    }
  }

  lemma {:induction false} RebuildErrorStands(history: seq<Event>, n: nat)
    requires n <= |history| && Rebuilt(history[..n]).Err?
    ensures Rebuilt(history) == Rebuilt(history[..n])
  {
    if n == |history| {
      assert history[..n] == history;
    } else {
      var front := history[..|history| - 1];
      assert front[..n] == history[..n];
      RebuildErrorStands(front, n);
    }
  }

  // ----- Each request depends on its own events only -----

  function Own(history: seq<Event>, id: string): seq<Event> {
    if history == [] then [] else
      var rest := Own(history[..|history| - 1], id);
      if history[|history| - 1].requestId == id then rest + [history[|history| - 1]] else rest
  }

  /** The events of one request, folded on their own. */
  function Fold(events: seq<Event>): Result<Option<Snapshot>, ApplyError> {
    if events == [] then Ok(None) else
      match Fold(events[..|events| - 1])
      case Err(error) => Err(error)
      case Ok(before) =>
        match Advance(before, events[|events| - 1])
        case Err(error) => Err(error)
        case Ok(snap) => Ok(Some(snap))
  }

  /** A history is accepted exactly when each request's own events are, and they alone fix its snapshot. */
  lemma {:induction false} RebuildIsPerRequest(history: seq<Event>)
    ensures Rebuilt(history).Ok? <==> forall id :: Fold(Own(history, id)).Ok?
    ensures Rebuilt(history).Ok? ==>
              forall id :: Fold(Own(history, id)) == Ok(Lookup(Rebuilt(history).value, id))
  {
    if history != [] {
      var front, e := history[..|history| - 1], history[|history| - 1];
      RebuildIsPerRequest(front);
      forall id
        ensures Own(history, id) == if e.requestId == id then Own(front, id) + [e] else Own(front, id)
        ensures e.requestId == id ==> Own(history, id)[..|Own(history, id)| - 1] == Own(front, id)
      {
      }
      if Rebuilt(front).Ok? {
        assert Fold(Own(history, e.requestId)).Ok? <==> Advance(Lookup(Rebuilt(front).value, e.requestId), e).Ok?;
      } else {
        var id :| Fold(Own(front, id)).Err?;
        assert Fold(Own(history, id)).Err?;
      }
    }
  }

  /** Any shuffle that keeps each request's events in order rebuilds the same projection, or is refused too. */
  lemma ShuffleRebuildsTheSame(a: seq<Event>, b: seq<Event>)
    requires forall id :: Own(a, id) == Own(b, id)
    ensures Rebuilt(a).Ok? <==> Rebuilt(b).Ok?
    ensures Rebuilt(a).Ok? ==> Rebuilt(a).value == Rebuilt(b).value
  {
    RebuildIsPerRequest(a);
    RebuildIsPerRequest(b);
    if Rebuilt(a).Ok? {
      forall id ensures Lookup(Rebuilt(a).value, id) == Lookup(Rebuilt(b).value, id) {
        assert Fold(Own(a, id)) == Fold(Own(b, id));
      }
      SameLookups(Rebuilt(a).value, Rebuilt(b).value);
    }
  }

  lemma SameLookups(m: Requests, n: Requests)
    requires forall id :: Lookup(m, id) == Lookup(n, id)
    ensures m == n
  {
    forall id ensures id in m <==> id in n {
      assert Lookup(m, id) == Lookup(n, id);
    }
    forall id | id in m ensures m[id] == n[id] {
      assert Lookup(m, id) == Lookup(n, id);
    }
  }

  // ----- The language of one request -----

  /**
   A prefix of: created, and then denied, expired, revoked, or approved followed by revoked or by
   started and one of the three endings.
   */
  ghost predicate Lifecycle(events: seq<Event>) {
    && |events| <= 4
    && (|events| >= 1 ==> events[0].typ == RequestCreated)
    && (|events| >= 2 ==> events[1].typ in {RequestApproved, RequestDenied, RequestExpired, RequestRevoked})
    && (|events| >= 3 ==> events[1].typ == RequestApproved && events[2].typ in {RequestRevoked, ExecutionStarted})
    && (|events| >= 4 ==> events[2].typ == ExecutionStarted
                          && events[3].typ in {ExecutionSucceeded, ExecutionFailed, RecoveryMarkedFailed})
  }

  /** The payload decodes wherever `Apply` would read it. */
  ghost predicate Decodable(e: Event) {
    match e.typ
    case RequestCreated => DecodeCreated(e.details).Some?
    case RequestApproved => DecodeApproval(e.details).Some?
    case RequestDenied => DecodeDenial(e.details).Some?
    case ExecutionSucceeded => DecodeFinished(e.details).Some?
    case ExecutionFailed => e.details.NoDetails? || DecodeFinished(e.details).Some?
    case _ => true
  }

  ghost predicate AllDecodable(events: seq<Event>) {
    forall e :: e in events ==> Decodable(e)
  }

  /** The status the last event of a lifecycle leaves behind. */
  function StatusAfter(typ: EventType): Status {
    match typ
    case RequestApproved => Approved
    case RequestDenied => Denied
    case RequestExpired => Expired
    case RequestRevoked => Revoked
    case ExecutionStarted => Executing
    case ExecutionSucceeded => Executed
    case ExecutionFailed => Failed
    case RecoveryMarkedFailed => Failed
    case _ => Pending
  }

  /** The status the events so far leave, if there are any. */
  function StatusOf(events: seq<Event>): Option<Status> {
    if events == [] then None else Some(StatusAfter(events[|events| - 1].typ))
  }

  /** The event types allowed next. */
  predicate CanFollow(status: Option<Status>, typ: EventType) {
    match status
    case None => typ == RequestCreated
    case Some(Pending) => typ in {RequestApproved, RequestDenied, RequestExpired, RequestRevoked}
    case Some(Approved) => typ in {RequestRevoked, ExecutionStarted}
    case Some(Executing) => typ in {ExecutionSucceeded, ExecutionFailed, RecoveryMarkedFailed}
    case _ => false
  }

  lemma AdvanceAccepts(before: Option<Snapshot>, e: Event)
    ensures Advance(before, e).Ok? <==>
            CanFollow(if before.Some? then Some(before.value.status) else None, e.typ) && Decodable(e)
    ensures Advance(before, e).Ok? ==> Advance(before, e).value.status == StatusAfter(e.typ)
  {
  }

  lemma LifecycleSnoc(events: seq<Event>, e: Event)
    ensures Lifecycle(events + [e]) <==> Lifecycle(events) && CanFollow(StatusOf(events), e.typ)
  {
    var all := events + [e];
    assert all[|events|] == e;
    assert |events| >= 1 ==> all[0] == events[0];
    assert |events| >= 2 ==> all[1] == events[1];
    assert |events| >= 3 ==> all[2] == events[2];
    assert |events| >= 4 ==> all[3] == events[3];
  }

  lemma {:induction false} FoldAcceptsLifecycles(events: seq<Event>)
    ensures Fold(events).Ok? <==> Lifecycle(events) && AllDecodable(events)
    ensures Fold(events).Ok? ==>
              StatusOf(events) == match Fold(events).value case None => None case Some(snap) => Some(snap.status)
  {
    if events != [] {
      var front, e := events[..|events| - 1], events[|events| - 1];
      FoldAcceptsLifecycles(front);
      LifecycleSnoc(front, e);
      assert events == front + [e];
      assert AllDecodable(events) <==> AllDecodable(front) && Decodable(e);
      if Fold(front).Ok? {
        AdvanceAccepts(Fold(front).value, e);
      }
    }
  }

  /**
   `Rebuild` accepts a decodable history exactly when each request's own events form a lifecycle; a
   request is in the result exactly when it has events, with the status its last event leaves.
   */
  lemma RebuildAcceptsLifecycles(history: seq<Event>)
    ensures Rebuilt(history).Ok? <==> AllDecodable(history) && forall id :: Lifecycle(Own(history, id))
    ensures Rebuilt(history).Ok? ==>
              forall id ::
                var own := Own(history, id);
                && (id in Rebuilt(history).value <==> own != [])
                && (own != [] ==> Rebuilt(history).value[id].status == StatusAfter(own[|own| - 1].typ))
  {
    RebuildIsPerRequest(history);
    forall id
      ensures Fold(Own(history, id)).Ok? <==> Lifecycle(Own(history, id)) && AllDecodable(Own(history, id))
    {
      FoldAcceptsLifecycles(Own(history, id));
    }
    DecodablePerRequest(history);
    if Rebuilt(history).Ok? {
      forall id
        ensures
          var own := Own(history, id);
          && (id in Rebuilt(history).value <==> own != [])
          && (own != [] ==> Rebuilt(history).value[id].status == StatusAfter(own[|own| - 1].typ))
      {
        FoldAcceptsLifecycles(Own(history, id));
        assert Fold(Own(history, id)) == Ok(Lookup(Rebuilt(history).value, id));
      }
    }
  }

  /** The status that a last event of this type leaves. */
  ghost predicate Leaves(last: EventType, status: Status) {
    && (last == RequestCreated <==> status == Pending) && (last == RequestApproved <==> status == Approved)
    && (last == RequestDenied <==> status == Denied) && (last == RequestExpired <==> status == Expired)
    && (last == RequestRevoked <==> status == Revoked) && (last == ExecutionStarted <==> status == Executing)
    && (last == ExecutionSucceeded <==> status == Executed)
    && (last == ExecutionFailed || last == RecoveryMarkedFailed <==> status == Failed)
  }

  lemma KnownTypeLeaves(typ: EventType)
    requires !typ.Unsupported?
    ensures Leaves(typ, StatusAfter(typ))
  {
  }

  lemma LifecycleIsKnown(events: seq<Event>)
    requires Lifecycle(events) && events != []
    ensures !events[|events| - 1].typ.Unsupported?
  {
  }

  /** The status of each request of an accepted history, by the last event it has. */
  lemma RebuiltStatuses(history: seq<Event>, id: string)
    requires Rebuilt(history).Ok? && Own(history, id) != []
    ensures id in Rebuilt(history).value
    ensures Leaves(Own(history, id)[|Own(history, id)| - 1].typ, Rebuilt(history).value[id].status)
  {
    RebuildAcceptsLifecycles(history);
    LifecycleIsKnown(Own(history, id));
    KnownTypeLeaves(Own(history, id)[|Own(history, id)| - 1].typ);
  }

  lemma DecodablePerRequest(history: seq<Event>)
    ensures AllDecodable(history) ==> forall id :: AllDecodable(Own(history, id))
    ensures (forall id :: AllDecodable(Own(history, id))) ==> AllDecodable(history)
  {
    OwnMembers(history);
    if AllDecodable(history) {
      forall id, e | e in Own(history, id) ensures Decodable(e) {
        assert e in history;
      }
    }
    if forall id :: AllDecodable(Own(history, id)) {
      forall e | e in history ensures Decodable(e) {
        assert AllDecodable(Own(history, e.requestId));
        assert e in Own(history, e.requestId);
      }
    }
  }

  lemma {:induction false} OwnMembers(history: seq<Event>)
    ensures forall e, id :: e in Own(history, id) <==> e in history && e.requestId == id
  {
    if history != [] {
      OwnMembers(history[..|history| - 1]);
      assert history == history[..|history| - 1] + [history[|history| - 1]];
    }
  }

  /** The snapshot a lifecycle leaves, read off its events by their position instead of folded from them. */
  function SnapshotOf(events: seq<Event>): Option<Snapshot>
    requires |events| >= 1
  {
    var last := events[|events| - 1];
    match DecodeCreated(events[0].details)
    case None => None
    case Some(request) =>
      Some(Snapshot(request, StatusAfter(last.typ), ReviewerOf(events), DenialOf(events), ResultOf(events),
                    last.typ, last.timestamp, last.hash))
  }

  function ReviewerOf(events: seq<Event>): Option<Actor> {
    if |events| < 2 then None
    else if events[1].typ.RequestApproved? then DecodeApproval(events[1].details)
    else if events[1].typ.RequestDenied? && DecodeDenial(events[1].details).Some? then
      Some(DecodeDenial(events[1].details).value.0)
    else None
  }

  function DenialOf(events: seq<Event>): string {
    if |events| >= 2 && events[1].typ.RequestDenied? && DecodeDenial(events[1].details).Some? then
      DecodeDenial(events[1].details).value.1
    else ""
  }

  function ResultOf(events: seq<Event>): Option<ExecutionResult> {
    if |events| >= 4 && (events[3].typ.ExecutionSucceeded? || events[3].typ.ExecutionFailed?) then
      DecodeFinished(events[3].details)
    else None
  }

  lemma {:induction false} FoldGivesSnapshotOf(events: seq<Event>)
    requires events != [] && Fold(events).Ok?
    ensures Fold(events).value == SnapshotOf(events)
  {
    var front, e := events[..|events| - 1], events[|events| - 1];
    FoldAcceptsLifecycles(events);
    FoldAcceptsLifecycles(front);
    assert forall i :: 0 <= i < |front| ==> front[i] == events[i];
    assert Decodable(e) && e in events;
    if front != [] {
      FoldGivesSnapshotOf(front);
    }
  }

  /** Every snapshot of a rebuilt projection is the one its request's events spell out. */
  lemma RebuildGivesSnapshots(history: seq<Event>, id: string)
    requires Rebuilt(history).Ok? && id in Rebuilt(history).value
    ensures Own(history, id) != [] && Some(Rebuilt(history).value[id]) == SnapshotOf(Own(history, id))
  {
    RebuildIsPerRequest(history);
    assert Fold(Own(history, id)) == Ok(Lookup(Rebuilt(history).value, id));
    FoldGivesSnapshotOf(Own(history, id));
  }

  // ----- Progress: every event climbs, terminal statuses absorb, logs are short -----

  lemma AdvanceClimbs(before: Option<Snapshot>, e: Event)
    requires Advance(before, e).Ok?
    ensures Advance(before, e).value.status.Rank() > (if before.Some? then before.value.status.Rank() else 0)
    ensures before.Some? ==> !before.value.status.Terminal()
    ensures before.Some? ==> before.value.status !in {Denied, Expired, Executed, Failed, Revoked}
    ensures before.Some? ==> Advance(before, e).value.request == before.value.request
    ensures before.None? <==> e.typ.RequestCreated?
  {
  }

  function Creations(history: seq<Event>): nat {
    if history == [] then 0 else
      Creations(history[..|history| - 1]) + if history[|history| - 1].typ.RequestCreated? then 1 else 0
  }

  function Others(history: seq<Event>, id: string): seq<Event> {
    if history == [] then [] else
      var rest := Others(history[..|history| - 1], id);
      if history[|history| - 1].requestId != id then rest + [history[|history| - 1]] else rest
  }

  lemma {:induction false} SplitOff(history: seq<Event>, id: string)
    ensures |history| == |Own(history, id)| + |Others(history, id)|
    ensures Creations(history) == Creations(Own(history, id)) + Creations(Others(history, id))
    ensures forall other :: Own(Others(history, id), other) == if other == id then [] else Own(history, other)
  {
    if history != [] {
      var front, e := history[..|history| - 1], history[|history| - 1];
      SplitOff(front, id);
      if e.requestId == id {
        assert (Own(front, id) + [e])[..|Own(front, id)|] == Own(front, id);
      } else {
        assert (Others(front, id) + [e])[..|Others(front, id)|] == Others(front, id);
      }
    }
  }

  lemma {:induction false} LifecycleCreatesOnce(events: seq<Event>)
    requires Lifecycle(events) && events != []
    ensures Creations(events) == 1
  {
    if |events| == 1 {
      assert events[..0] == [];
    } else {
      var front := events[..|events| - 1];
      assert front[0] == events[0] && forall i :: 0 <= i < |front| ==> front[i] == events[i];
      LifecycleCreatesOnce(front);
    }
  }

  /** An accepted log holds at most four events per created request. */
  lemma {:induction false} AcceptedLogIsShort(history: seq<Event>)
    requires Rebuilt(history).Ok?
    ensures |history| <= 4 * Creations(history)
    decreases |history|
  {
    if history != [] {
      var id := history[|history| - 1].requestId;
      RebuildAcceptsLifecycles(history);
      SplitOff(history, id);
      assert Own(history, id) != [];
      LifecycleCreatesOnce(Own(history, id));
      OthersAccepted(history, id);
      AcceptedLogIsShort(Others(history, id));
    }
  }

  lemma OthersAccepted(history: seq<Event>, id: string)
    requires Rebuilt(history).Ok?
    ensures Rebuilt(Others(history, id)).Ok?
  {
    var rest := Others(history, id);
    RebuildIsPerRequest(history);
    RebuildIsPerRequest(rest);
    SplitOff(history, id);
    forall other ensures Fold(Own(rest, other)).Ok? {
      assert Fold(Own(history, other)).Ok?;
    }
  }

  // ----- What a rebuilt projection says about its history -----

  /** Each event has left its mark on its request. */
  ghost predicate Marked(m: Requests, e: Event) {
    && e.requestId in m
    && (e.typ.RequestCreated? ==> DecodeCreated(e.details) == Some(m[e.requestId].request))
    && (e.typ.ExecutionStarted? ==> m[e.requestId].status.Consumed())
    && (e.typ.ExecutionSucceeded? ==> m[e.requestId].status == Executed)
  }

  /** Each snapshot has its grounds in the history. */
  ghost predicate Grounded(history: seq<Event>, id: string, snap: Snapshot) {
    && (exists e :: e in history && e.requestId == id && e.typ.RequestCreated?
                    && DecodeCreated(e.details) == Some(snap.request))
    && (snap.status == Executed ==>
          exists e :: e in history && e.requestId == id && e.typ.ExecutionSucceeded?
                      && DecodeFinished(e.details) == snap.execution)
    && (snap.status.Consumed() ==>
          exists e :: e in history && e.requestId == id && e.typ.ExecutionStarted?)
  }

  lemma {:induction false} RebuildMarks(history: seq<Event>)
    requires Rebuilt(history).Ok?
    ensures forall e :: e in history ==> Marked(Rebuilt(history).value, e)
  {
    if history != [] {
      var front, last := history[..|history| - 1], history[|history| - 1];
      RebuildMarks(front);
      forall e | e in history ensures Marked(Rebuilt(history).value, e) {
        if e in front {
          assert Marked(Rebuilt(front).value, e);
        } else {
          assert e == last;
        }
      }
    }
  }

  lemma {:induction false} RebuildIsGrounded(history: seq<Event>)
    requires Rebuilt(history).Ok?
    ensures forall id :: id in Rebuilt(history).value ==> Grounded(history, id, Rebuilt(history).value[id])
  {
    if history != [] {
      var front, last := history[..|history| - 1], history[|history| - 1];
      RebuildIsGrounded(front);
      assert forall e :: e in history <==> e in front || e == last;
      assert last in history;
      forall id | id in Rebuilt(history).value ensures Grounded(history, id, Rebuilt(history).value[id]) {
        if id in Rebuilt(front).value {
          assert Grounded(front, id, Rebuilt(front).value[id]);
        }
      }
    }
  }

  // ----- The object -----

  class Projection {
    var requests: Requests

    constructor ()
      ensures requests == map[]
    {
      requests := map[];
    }

    method Apply(e: Event) returns (r: Result<(), ApplyError>)
      modifies this
      ensures match Applied(old(requests), e)
              case Ok(m) => r == Ok(()) && requests == m
              case Err(error) => r == Err(error) && requests == old(requests)
    {
      var known := e.requestId in requests;
      if e.typ.RequestCreated? {
        if known {
          return Err(AlreadyExists);
        }
        var details := DecodeCreated(e.details);
        if details.None? {
          return Err(BadDetails);
        }
        requests := requests[e.requestId := Snapshot(details.value, Pending, None, "", None, e.typ, e.timestamp, e.hash)];
        return Ok(());
      }
      if !known {
        return Err(NoSuchRequest);
      }
      var moved := Move(requests[e.requestId], e);
      if moved.Err? {
        return Err(moved.error);
      }
      var snap := moved.value.(lastEventType := e.typ, lastEventAt := e.timestamp, lastEventHash := e.hash);
      requests := requests[e.requestId := snap];
      return Ok(());
    }

    /** `Rebuild`; the projection returned is meaningful only when there is no error. */
    static method Rebuild(history: seq<Event>) returns (p: Projection, r: Result<(), ApplyError>)
      ensures fresh(p)
      ensures match Rebuilt(history)
              case Ok(m) => r == Ok(()) && p.requests == m
              case Err(error) => r == Err(error)
    {
      p := new Projection();
      for i := 0 to |history|
        invariant fresh(p)
        invariant Rebuilt(history[..i]) == Ok(p.requests)
      {
        assert history[..i + 1][..i] == history[..i];
        r := p.Apply(history[i]);
        if r.Err? {
          RebuildErrorStands(history, i + 1);
          return;
        }
      }
      assert history[..|history|] == history;
      r := Ok(());
    }

    method Get(id: string) returns (snap: Option<Snapshot>)
      ensures snap == Lookup(requests, id)
    {
      snap := if id in requests then Some(requests[id]) else None;
    }

    /** The snapshots in the order of their sorted keys, whatever order the map is walked in. */
    method All() returns (out: seq<Snapshot>)
      ensures |out| == |SortedKeys(requests.Keys)|
      ensures forall i :: 0 <= i < |out| ==>
                SortedKeys(requests.Keys)[i] in requests && out[i] == requests[SortedKeys(requests.Keys)[i]]
    {
      var keys := CollectSorted(requests.Keys);
      SortedKeysExact(requests.Keys);
      out := [];
      for i := 0 to |keys|
        invariant |out| == i
        invariant forall j :: 0 <= j < i ==> keys[j] in requests && out[j] == requests[keys[j]]
      {
        out := out + [requests[keys[i]]];
      }
    }
  }
}

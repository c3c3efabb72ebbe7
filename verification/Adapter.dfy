/**
 The SMS adapter around the slot set: the send loop of cmd/request-sudo-twilio-adapter/main.go and the
 reply handler of internal/twilioadapter/webhook_handler.go, as one system with restarts.

 The send loop is one goroutine, so at most one send is under way; replies, sweeps and restarts can come
 between claiming a slot and the end of its send. Each reply has a handler of its own, which resolves the
 sender's phone, checks the code, calls the broker and releases the phone in separate steps; anything
 else, other handlers included, can come between them.
 */
module AdapterRuns {
  import opened Core
  import opened PendingSets

  /**
   What happened, in order. `Sent` remembers the position of the claim it was made under; `Checked` and
   `Reviewed` that of the `Bound` at which their reply was bound to a request, and an approving `Reviewed`
   that of its check.
   */
  datatype Effect =
    | Claimed(phone: string, requestId: string, at: int)
    | Sent(phone: string, requestId: string, claim: nat, at: int)
    | Freed(phone: string, requestId: string, at: int)
    | Lapsed(phone: string, requestId: string, at: int)
    | Bound(phone: string, requestId: string, at: int)
    | Checked(phone: string, approved: bool, bound: nat, at: int)
    | Reviewed(phone: string, approve: bool, requestId: string, bound: nat, check: nat, at: int)

  /** Where `handlePending` is within one recipient. */
  datatype Tailer = Idle | Sending(phone: string, requestId: string, claim: nat)

  /** Where `HandleInboundReply` is: the phone is resolved, the code is approved, or the broker has agreed. */
  datatype Phase = Resolved | Cleared(check: nat) | Agreed

  datatype Handler = Handler(phone: string, requestId: string, approve: bool, bound: nat, phase: Phase)

  datatype Adapter = Adapter(slots: Slots, tailer: Tailer, handlers: map<nat, Handler>, trace: seq<Effect>)

  /** A send that fails for the adapter, say by a timeout, may have reached the phone all the same. */
  datatype SendResult = Delivered | DryRun | SendFailed(reached: bool)

  datatype Intent = Unknown | ApproveIntent | DenyIntent

  datatype Action =
    | Deliver(phone: string, requestId: string, now: int)
    | SendDone(result: SendResult, now: int)
    | Reply(thread: nat, phone: string, intent: Intent, now: int)
    | Check(thread: nat, approved: bool, now: int)
    | Review(thread: nat, brokerOk: bool, now: int)
    | Finish(thread: nat, now: int)
    | ExpireDue(now: int, order: seq<string>)
    | OtherRow(text: string)
    | Reboot

  // ----- Steps -----

  function Log(a: Adapter, text: string): Adapter {
    a.(slots := a.slots.(audit := a.slots.audit + [Unrelated(text)]))
  }

  function Note(a: Adapter, e: Effect): Adapter {
    a.(trace := a.trace + [e])
  }

  function Lapse(a: Adapter, ttl: int, phone: string, now: int): Adapter {
    if !Stale(a.slots.items, ttl, phone, now) then a
    else
      Note(a.(slots := PendingSets.Expire(a.slots, ttl, phone, now)), Lapsed(phone, a.slots.items[phone].requestId, now))
  }

  function Release(a: Adapter, phone: string, now: int): Adapter {
    if phone !in a.slots.items then a
    else Note(a.(slots := PendingSets.Free(a.slots, phone, now)), Freed(phone, a.slots.items[phone].requestId, now))
  }

  /** One recipient of `handlePending`, up to and including `OpenPending`. */
  function DoDeliver(a: Adapter, ttl: int, phone: string, requestId: string, now: int): Adapter {
    if !a.tailer.Idle? then a
    else if Busy(a.slots.items, ttl, phone, now) then Log(a, "routing_blocked_same_phone")
    else
      var b := Lapse(a, ttl, phone, now);
      Note(b, Claimed(phone, requestId, now)).(slots := PendingSets.Open(a.slots, ttl, phone, requestId, now),
                                              tailer := Sending(phone, requestId, |b.trace|))
  }

  /** The rest of that iteration. */
  function DoSendDone(a: Adapter, result: SendResult, now: int): Adapter {
    if a.tailer.Idle? then a
    else
      var Sending(phone, requestId, claim) := a.tailer;
      match result
      case Delivered => Log(Note(a, Sent(phone, requestId, claim, now)), "sms_sent").(tailer := Idle)
      case DryRun => Log(a, "sms_sent").(tailer := Idle)
      case SendFailed(reached) =>
        var b := if reached then Note(a, Sent(phone, requestId, claim, now)) else a;
        Log(Release(b, phone, now), "twilio_send_failed").(tailer := Idle)
  }

  function ConsumedRow(approve: bool): string {
    if approve then "sms_approval_consumed" else "sms_denial_consumed"
  }

  /** A reply comes in and its sender's phone is resolved. */
  function DoReply(a: Adapter, ttl: int, thread: nat, phone: string, intent: Intent, now: int): Adapter {
    if thread in a.handlers then a
    else if intent.Unknown? then Log(a, "verify_unbound_reply")
    else if !Busy(a.slots.items, ttl, phone, now) then Log(Lapse(a, ttl, phone, now), "verify_unbound_reply")
    else
      var requestId := a.slots.items[phone].requestId;
      Note(a, Bound(phone, requestId, now)).(
        handlers := a.handlers[thread := Handler(phone, requestId, intent.ApproveIntent?, |a.trace|, Resolved)])
  }

  /** Approvals only: the code is checked. */
  function DoCheck(a: Adapter, thread: nat, approved: bool, now: int): Adapter {
    if thread !in a.handlers || !a.handlers[thread].approve || !a.handlers[thread].phase.Resolved? then a
    else
      var h := a.handlers[thread];
      var b := Note(a, Checked(h.phone, approved, h.bound, now));
      if approved then b.(handlers := a.handlers[thread := h.(phase := Cleared(|a.trace|))])
      else Log(b, "verify_check_rejected").(handlers := a.handlers - {thread})
  }

  /** The broker is called; if the call fails the phone stays claimed. */
  function DoReview(a: Adapter, thread: nat, brokerOk: bool, now: int): Adapter {
    if thread !in a.handlers
       || (if a.handlers[thread].approve then !a.handlers[thread].phase.Cleared? else !a.handlers[thread].phase.Resolved?) then a
    else
      var h := a.handlers[thread];
      var check := if h.phase.Cleared? then h.phase.check else h.bound;
      Note(a, Reviewed(h.phone, h.approve, h.requestId, h.bound, check, now)).(
        handlers := if brokerOk then a.handlers[thread := h.(phase := Agreed)] else a.handlers - {thread})
  }

  /** The phone is released, whoever holds it by now. */
  function DoFinish(a: Adapter, thread: nat, now: int): Adapter {
    if thread !in a.handlers || !a.handlers[thread].phase.Agreed? then a
    else
      var h := a.handlers[thread];
      Log(Release(a, h.phone, now), ConsumedRow(h.approve)).(handlers := a.handlers - {thread})
  }

  function DoExpireDue(a: Adapter, ttl: int, now: int, order: seq<string>): Adapter {
    if order == [] then a else Lapse(DoExpireDue(a, ttl, now, order[..|order| - 1]), ttl, order[|order| - 1], now)
  }

  /** A sweep of the adapter is a sweep of its slots, and each slot it drops shows in the trace. */
  lemma {:induction false} ExpireDueSweeps(a: Adapter, ttl: int, now: int, order: seq<string>)
    ensures DoExpireDue(a, ttl, now, order).slots == PendingSets.Sweep(a.slots, ttl, now, order)
    ensures DoExpireDue(a, ttl, now, order).tailer == a.tailer
  {
    if order != [] {
      ExpireDueSweeps(a, ttl, now, order[..|order| - 1]);
    }
  }

  function Do(a: Adapter, ttl: int, act: Action): Adapter {
    match act
    case Deliver(phone, requestId, now) => DoDeliver(a, ttl, phone, requestId, now)
    case SendDone(result, now) => DoSendDone(a, result, now)
    case Reply(thread, phone, intent, now) => DoReply(a, ttl, thread, phone, intent, now)
    case Check(thread, approved, now) => DoCheck(a, thread, approved, now)
    case Review(thread, brokerOk, now) => DoReview(a, thread, brokerOk, now)
    case Finish(thread, now) => DoFinish(a, thread, now)
    case ExpireDue(now, order) => DoExpireDue(a, ttl, now, order)
    case OtherRow(text) => Log(a, text)
    case Reboot => a.(slots := a.slots.(items := PendingSets.Replay(map[], a.slots.audit)), tailer := Idle, handlers := map[])
  }

  const START := Adapter(Slots(map[], []), Idle, map[], [])

  function Run(ttl: int, acts: seq<Action>): Adapter {
    if acts == [] then START else Do(Run(ttl, acts[..|acts| - 1]), ttl, acts[|acts| - 1])
  }

  // ----- Clock -----

  /** The clock reading of a step; steps without one keep the last. */
  function Clock(act: Action, before: int): int {
    match act
    case Reboot => before
    case OtherRow(_) => before
    case _ => act.now
  }

  function LastClock(acts: seq<Action>, start: int): int {
    if acts == [] then start else Clock(acts[|acts| - 1], LastClock(acts[..|acts| - 1], start))
  }

  /** The step reads a clock that has not stepped back; what is delivered has a phone and a request id. */
  ghost predicate RegularStep(act: Action, clock: int) {
    match act
    case Deliver(phone, requestId, now) => clock <= now && phone != "" && requestId != ""
    case Reboot => true
    case OtherRow(_) => true
    case _ => clock <= act.now
  }

  ghost predicate Regular(acts: seq<Action>, start: int) {
    acts == [] ||
    (Regular(acts[..|acts| - 1], start) && RegularStep(acts[|acts| - 1], LastClock(acts[..|acts| - 1], start)))
  }

  // ----- What the trace says -----

  /** Who holds a phone after the effects so far. */
  function Holder(trace: seq<Effect>, phone: string): Option<Entry> {
    if trace == [] then None
    else
      var e := trace[|trace| - 1];
      if e.phone == phone && e.Claimed? then Some(Entry(e.requestId, e.at))
      else if e.phone == phone && (e.Freed? || e.Lapsed?) then None
      else Holder(trace[..|trace| - 1], phone)
  }

  lemma HolderSnoc(trace: seq<Effect>, e: Effect, phone: string)
    ensures Holder(trace + [e], phone) ==
            if e.phone == phone && e.Claimed? then Some(Entry(e.requestId, e.at))
            else if e.phone == phone && (e.Freed? || e.Lapsed?) then None
            else Holder(trace, phone)
  {
    assert (trace + [e])[..|trace|] == trace;
  }

  /** The effect may follow the ones before it. */
  ghost predicate Sound(before: seq<Effect>, e: Effect, ttl: int) {
    && (before != [] ==> before[|before| - 1].at <= e.at)
    && match e
       case Claimed(phone, _, _) => Holder(before, phone) == None
       case Sent(phone, requestId, claim, _) =>
         && claim < |before| && before[claim].Claimed?
         && before[claim].phone == phone && before[claim].requestId == requestId
         && forall k :: claim < k < |before| ==> !before[k].Claimed? && !before[k].Sent?
       case Freed(phone, requestId, _) =>
         Holder(before, phone).Some? && Holder(before, phone).value.requestId == requestId
       case Lapsed(phone, requestId, at) =>
         && Holder(before, phone).Some? && Holder(before, phone).value.requestId == requestId
         && at - Holder(before, phone).value.openedAt >= ttl
       case Bound(phone, requestId, at) =>
         && Holder(before, phone).Some? && Holder(before, phone).value.requestId == requestId
         && at - Holder(before, phone).value.openedAt < ttl
       case Checked(phone, _, bound, _) => BoundAt(before, bound, phone)
       case Reviewed(phone, approve, requestId, bound, check, _) =>
         && BoundAt(before, bound, phone) && before[bound].requestId == requestId
         && (approve ==> ApprovedAt(before, check, bound, phone))
  }

  /** A reply from this phone was bound at this position. */
  ghost predicate BoundAt(trace: seq<Effect>, bound: nat, phone: string) {
    bound < |trace| && trace[bound].Bound? && trace[bound].phone == phone
  }

  /** The code of that reply was found right at this position. */
  ghost predicate ApprovedAt(trace: seq<Effect>, check: nat, bound: nat, phone: string) {
    bound < check < |trace| && trace[check].Checked? && trace[check].approved && trace[check].bound == bound
    && trace[check].phone == phone
  }

  ghost predicate AllSound(trace: seq<Effect>, ttl: int) {
    forall i :: 0 <= i < |trace| ==> Sound(trace[..i], trace[i], ttl)
  }

  lemma AllSoundSnoc(trace: seq<Effect>, e: Effect, ttl: int)
    requires AllSound(trace, ttl) && Sound(trace, e, ttl)
    ensures AllSound(trace + [e], ttl)
  {
    var all := trace + [e];
    forall i | 0 <= i < |all| ensures Sound(all[..i], all[i], ttl) {
      if i < |trace| {
        assert all[..i] == trace[..i];
      } else {
        assert all[..i] == trace;
      }
    }
  }

  // ----- The invariant -----

  function SlotOf(items: Items, phone: string): Option<Entry> {
    if phone in items then Some(items[phone]) else None
  }

  ghost predicate TailerOk(a: Adapter) {
    a.tailer.Sending? ==>
      var Sending(phone, requestId, claim) := a.tailer;
      && claim < |a.trace| && a.trace[claim].Claimed?
      && a.trace[claim].phone == phone && a.trace[claim].requestId == requestId
      && (forall k :: claim < k < |a.trace| ==> !a.trace[k].Claimed? && !a.trace[k].Sent?)
      && (phone in a.slots.items ==> a.slots.items[phone] == Entry(requestId, a.trace[claim].at))
  }

  ghost predicate Ok(a: Adapter, ttl: int, clock: int) {
    && Faithful(a.slots, clock)
    && (forall phone :: SlotOf(a.slots.items, phone) == Holder(a.trace, phone))
    && AllSound(a.trace, ttl)
    && (a.trace != [] ==> a.trace[|a.trace| - 1].at <= clock)
    && TailerOk(a)
  }

  ghost predicate HandlerOk(trace: seq<Effect>, h: Handler) {
    && BoundAt(trace, h.bound, h.phone) && trace[h.bound].requestId == h.requestId
    && (h.phase.Cleared? ==> ApprovedAt(trace, h.phase.check, h.bound, h.phone))
  }

  ghost predicate HandlersOk(a: Adapter) {
    forall t :: t in a.handlers ==> HandlerOk(a.trace, a.handlers[t])
  }

  lemma LogOk(a: Adapter, ttl: int, clock: int, text: string)
    requires Ok(a, ttl, clock)
    ensures Ok(Log(a, text), ttl, clock)
  {
    WriteKeepsFaithful(a.slots, clock, Unrelated(text), clock);
  }

  lemma LaterOk(a: Adapter, ttl: int, clock: int, now: int)
    requires Ok(a, ttl, clock) && clock <= now
    ensures Ok(a, ttl, now)
  {
  }

  /** An effect that touches no slot. */
  lemma NoteOk(a: Adapter, ttl: int, clock: int, e: Effect)
    requires Ok(a, ttl, clock) && Sound(a.trace, e, ttl) && e.at <= clock
    requires e.Sent? || e.Bound? || e.Checked? || e.Reviewed?
    requires e.Sent? ==> a.tailer.Idle?
    ensures Ok(Note(a, e), ttl, clock)
  {
    AllSoundSnoc(a.trace, e, ttl);
    NoteKeepsHolders(a, e);
    NoteKeepsTailer(a, e);
  }

  lemma NoteKeepsHolders(a: Adapter, e: Effect)
    requires forall phone :: SlotOf(a.slots.items, phone) == Holder(a.trace, phone)
    requires !e.Claimed? && !e.Freed? && !e.Lapsed?
    ensures forall phone :: SlotOf(a.slots.items, phone) == Holder(a.trace + [e], phone)
  {
    forall phone ensures SlotOf(a.slots.items, phone) == Holder(a.trace + [e], phone) {
      HolderSnoc(a.trace, e, phone);
    }
  }

  lemma NoteKeepsTailer(a: Adapter, e: Effect)
    requires TailerOk(a) && !e.Claimed? && (e.Sent? ==> a.tailer.Idle?)
    ensures TailerOk(Note(a, e))
  {
  }

  /** An effect that empties a slot. */
  lemma DropOk(a: Adapter, ttl: int, clock: int, kind: RowKind, e: Effect)
    requires Ok(a, ttl, clock) && clock <= e.at && e.phone in a.slots.items
    requires (e.Freed? && kind.Released?) || (e.Lapsed? && kind.TimedOut? && Stale(a.slots.items, ttl, e.phone, e.at))
    requires e.requestId == a.slots.items[e.phone].requestId
    ensures Ok(Note(a.(slots := Drop(a.slots, kind, e.phone, e.at)), e), ttl, e.at)
  {
    var b := Note(a.(slots := Drop(a.slots, kind, e.phone, e.at)), e);
    assert SlotOf(a.slots.items, e.phone) == Holder(a.trace, e.phone);
    DropFaithful(a.slots, clock, kind, e.phone, e.at);
    AllSoundSnoc(a.trace, e, ttl);
    forall phone ensures SlotOf(b.slots.items, phone) == Holder(b.trace, phone) {
      HolderSnoc(a.trace, e, phone);
      assert SlotOf(a.slots.items, phone) == Holder(a.trace, phone);
    }
  }

  lemma LapseOk(a: Adapter, ttl: int, clock: int, phone: string, now: int)
    requires Ok(a, ttl, clock) && clock <= now
    ensures Ok(Lapse(a, ttl, phone, now), ttl, now)
  {
    if Stale(a.slots.items, ttl, phone, now) {
      DropOk(a, ttl, clock, TimedOut, Lapsed(phone, a.slots.items[phone].requestId, now));
    }
  }

  lemma ReleaseOk(a: Adapter, ttl: int, clock: int, phone: string, now: int)
    requires Ok(a, ttl, clock) && clock <= now
    ensures Ok(Release(a, phone, now), ttl, now)
  {
    if phone in a.slots.items {
      DropOk(a, ttl, clock, Released, Freed(phone, a.slots.items[phone].requestId, now));
    }
  }

  lemma ClaimIsSound(b: Adapter, ttl: int, phone: string, requestId: string, now: int)
    requires Ok(b, ttl, now) && phone !in b.slots.items
    ensures AllSound(b.trace + [Claimed(phone, requestId, now)], ttl)
    ensures forall other :: SlotOf(b.slots.items[phone := Entry(requestId, now)], other) ==
                            Holder(b.trace + [Claimed(phone, requestId, now)], other)
  {
    var e := Claimed(phone, requestId, now);
    assert SlotOf(b.slots.items, phone) == Holder(b.trace, phone);
    AllSoundSnoc(b.trace, e, ttl);
    forall other
      ensures SlotOf(b.slots.items[phone := Entry(requestId, now)], other) == Holder(b.trace + [e], other)
    {
      HolderSnoc(b.trace, e, other);
      assert SlotOf(b.slots.items, other) == Holder(b.trace, other);
    }
  }

  lemma ClaimOk(b: Adapter, ttl: int, phone: string, requestId: string, now: int)
    requires Ok(b, ttl, now) && phone !in b.slots.items && phone != "" && requestId != ""
    ensures Ok(WithClaim(b, phone, requestId, now), ttl, now)
  {
    WriteKeepsFaithful(b.slots, now, PendingSets.Slot(Opened, requestId, phone, now), now);
    ClaimIsSound(b, ttl, phone, requestId, now);
  }

  /** The adapter `b` with the phone claimed. */
  function WithClaim(b: Adapter, phone: string, requestId: string, now: int): Adapter {
    Adapter(Slots(b.slots.items[phone := Entry(requestId, now)],
                  b.slots.audit + [PendingSets.Slot(Opened, requestId, phone, now)]),
            Sending(phone, requestId, |b.trace|), b.handlers, b.trace + [Claimed(phone, requestId, now)])
  }

  lemma DeliverOk(a: Adapter, ttl: int, clock: int, phone: string, requestId: string, now: int)
    requires Ok(a, ttl, clock) && clock <= now && phone != "" && requestId != ""
    ensures Ok(DoDeliver(a, ttl, phone, requestId, now), ttl, now)
  {
    LaterOk(a, ttl, clock, now);
    if a.tailer.Idle? {
      if Busy(a.slots.items, ttl, phone, now) {
        LogOk(a, ttl, now, "routing_blocked_same_phone");
      } else {
        ClaimedOk(a, ttl, phone, requestId, now);
      }
    }
  }

  lemma ClaimedOk(a: Adapter, ttl: int, phone: string, requestId: string, now: int)
    requires Ok(a, ttl, now) && phone != "" && requestId != "" && a.tailer.Idle? && !Busy(a.slots.items, ttl, phone, now)
    ensures Ok(DoDeliver(a, ttl, phone, requestId, now), ttl, now)
  {
    LapseOk(a, ttl, now, phone, now);
    ClaimStep(a, ttl, phone, requestId, now);
    ClaimOk(Lapse(a, ttl, phone, now), ttl, phone, requestId, now);
  }

  lemma ClaimStep(a: Adapter, ttl: int, phone: string, requestId: string, now: int)
    requires a.tailer.Idle? && !Busy(a.slots.items, ttl, phone, now)
    ensures
      var b := Lapse(a, ttl, phone, now);
      phone !in b.slots.items && DoDeliver(a, ttl, phone, requestId, now) == WithClaim(b, phone, requestId, now)
  {
  }

  lemma DeliveredOk(a: Adapter, ttl: int, now: int)
    requires Ok(a, ttl, now) && a.tailer.Sending?
    ensures Ok(DoSendDone(a, Delivered, now), ttl, now)
  {
    var e := Sent(a.tailer.phone, a.tailer.requestId, a.tailer.claim, now);
    SentOk(a, ttl, now, e);
    LogOk(Note(a.(tailer := Idle), e), ttl, now, "sms_sent");
  }

  lemma IdleOk(a: Adapter, ttl: int, clock: int)
    requires Ok(a, ttl, clock)
    ensures Ok(a.(tailer := Idle), ttl, clock)
  {
  }

  lemma RolledBackOk(b: Adapter, ttl: int, now: int, phone: string)
    requires Ok(b, ttl, now)
    ensures Ok(Log(Release(b, phone, now), "twilio_send_failed").(tailer := Idle), ttl, now)
  {
    ReleaseOk(b, ttl, now, phone, now);
    LogOk(Release(b, phone, now), ttl, now, "twilio_send_failed");
    IdleOk(Log(Release(b, phone, now), "twilio_send_failed"), ttl, now);
  }

  lemma SendFailedOk(a: Adapter, ttl: int, now: int, reached: bool)
    requires Ok(a, ttl, now) && a.tailer.Sending?
    ensures Ok(DoSendDone(a, SendFailed(reached), now), ttl, now)
  {
    if reached {
      ReachedOk(a, ttl, now);
    } else {
      RolledBackOk(a, ttl, now, a.tailer.phone);
    }
  }

  lemma ReachedOk(a: Adapter, ttl: int, now: int)
    requires Ok(a, ttl, now) && a.tailer.Sending?
    ensures Ok(DoSendDone(a, SendFailed(true), now), ttl, now)
  {
    var e := Sent(a.tailer.phone, a.tailer.requestId, a.tailer.claim, now);
    SentOk(a, ttl, now, e);
    RolledBackOk(Note(a.(tailer := Idle), e), ttl, now, a.tailer.phone);
    ReachedStep(a, now, e);
  }

  lemma SentOk(a: Adapter, ttl: int, now: int, e: Effect)
    requires Ok(a, ttl, now) && a.tailer.Sending?
    requires e == Sent(a.tailer.phone, a.tailer.requestId, a.tailer.claim, now)
    ensures Ok(Note(a.(tailer := Idle), e), ttl, now)
  {
    IdleOk(a, ttl, now);
    NoteOk(a.(tailer := Idle), ttl, now, e);
  }

  lemma ReachedStep(a: Adapter, now: int, e: Effect)
    requires a.tailer.Sending? && e == Sent(a.tailer.phone, a.tailer.requestId, a.tailer.claim, now)
    ensures DoSendDone(a, SendFailed(true), now) ==
            Log(Release(Note(a.(tailer := Idle), e), a.tailer.phone, now), "twilio_send_failed").(tailer := Idle)
  {
  }

  lemma SendDoneOk(a: Adapter, ttl: int, clock: int, result: SendResult, now: int)
    requires Ok(a, ttl, clock) && clock <= now
    ensures Ok(DoSendDone(a, result, now), ttl, now)
  {
    LaterOk(a, ttl, clock, now);
    if a.tailer.Sending? {
      match result
      case Delivered => DeliveredOk(a, ttl, now);
      case DryRun => LogOk(a.(tailer := Idle), ttl, now, "sms_sent");
      case SendFailed(reached) => SendFailedOk(a, ttl, now, reached);
    }
  }

  lemma HandlersDoNotMatter(a: Adapter, ttl: int, clock: int, handlers: map<nat, Handler>)
    requires Ok(a, ttl, clock)
    ensures Ok(a.(handlers := handlers), ttl, clock)
  {
  }

  lemma ReplyOk(a: Adapter, ttl: int, thread: nat, phone: string, intent: Intent, now: int)
    requires Ok(a, ttl, now)
    ensures Ok(DoReply(a, ttl, thread, phone, intent, now), ttl, now)
  {
    if thread !in a.handlers {
      if intent.Unknown? {
        LogOk(a, ttl, now, "verify_unbound_reply");
      } else if !Busy(a.slots.items, ttl, phone, now) {
        LapseOk(a, ttl, now, phone, now);
        LogOk(Lapse(a, ttl, phone, now), ttl, now, "verify_unbound_reply");
      } else {
        BindOk(a, ttl, phone, now);
        HandlersDoNotMatter(Note(a, Bound(phone, a.slots.items[phone].requestId, now)), ttl, now,
                            DoReply(a, ttl, thread, phone, intent, now).handlers);
      }
    }
  }

  lemma BindOk(a: Adapter, ttl: int, phone: string, now: int)
    requires Ok(a, ttl, now) && Busy(a.slots.items, ttl, phone, now)
    ensures Ok(Note(a, Bound(phone, a.slots.items[phone].requestId, now)), ttl, now)
  {
    assert SlotOf(a.slots.items, phone) == Holder(a.trace, phone);
    NoteOk(a, ttl, now, Bound(phone, a.slots.items[phone].requestId, now));
  }

  lemma CheckOk(a: Adapter, ttl: int, thread: nat, approved: bool, now: int)
    requires Ok(a, ttl, now) && HandlersOk(a)
    ensures Ok(DoCheck(a, thread, approved, now), ttl, now)
  {
    if thread in a.handlers && a.handlers[thread].approve && a.handlers[thread].phase.Resolved? {
      var h := a.handlers[thread];
      var b := Note(a, Checked(h.phone, approved, h.bound, now));
      assert HandlerOk(a.trace, h);
      NoteOk(a, ttl, now, Checked(h.phone, approved, h.bound, now));
      LogOk(b, ttl, now, "verify_check_rejected");
      HandlersDoNotMatter(if approved then b else Log(b, "verify_check_rejected"), ttl, now,
                          DoCheck(a, thread, approved, now).handlers);
    }
  }

  lemma ReviewOk(a: Adapter, ttl: int, thread: nat, brokerOk: bool, now: int)
    requires Ok(a, ttl, now) && HandlersOk(a)
    ensures Ok(DoReview(a, thread, brokerOk, now), ttl, now)
  {
    var b := DoReview(a, thread, brokerOk, now);
    if b.trace != a.trace {
      var h := a.handlers[thread];
      var e := b.trace[|a.trace|];
      assert HandlerOk(a.trace, h);
      NoteOk(a, ttl, now, e);
      HandlersDoNotMatter(Note(a, e), ttl, now, b.handlers);
    }
  }

  lemma FinishOk(a: Adapter, ttl: int, thread: nat, now: int)
    requires Ok(a, ttl, now)
    ensures Ok(DoFinish(a, thread, now), ttl, now)
  {
    if thread in a.handlers && a.handlers[thread].phase.Agreed? {
      var h := a.handlers[thread];
      var b := Release(a, h.phone, now);
      ReleaseOk(a, ttl, now, h.phone, now);
      LogOk(b, ttl, now, ConsumedRow(h.approve));
      HandlersDoNotMatter(Log(b, ConsumedRow(h.approve)), ttl, now, a.handlers - {thread});
    }
  }

  lemma {:induction false} ExpireDueOk(a: Adapter, ttl: int, clock: int, now: int, order: seq<string>)
    requires Ok(a, ttl, clock) && clock <= now
    ensures Ok(DoExpireDue(a, ttl, now, order), ttl, now)
  {
    if order == [] {
      LaterOk(a, ttl, clock, now);
    } else {
      ExpireDueOk(a, ttl, clock, now, order[..|order| - 1]);
      LapseOk(DoExpireDue(a, ttl, now, order[..|order| - 1]), ttl, now, order[|order| - 1], now);
    }
  }

  lemma StepOk(a: Adapter, ttl: int, clock: int, act: Action)
    requires Ok(a, ttl, clock) && HandlersOk(a) && RegularStep(act, clock)
    ensures Ok(Do(a, ttl, act), ttl, Clock(act, clock))
  {
    LaterOk(a, ttl, clock, Clock(act, clock));
    match act
    case Deliver(phone, requestId, now) => DeliverOk(a, ttl, clock, phone, requestId, now);
    case SendDone(result, now) => SendDoneOk(a, ttl, clock, result, now);
    case Reply(thread, phone, intent, now) => ReplyOk(a, ttl, thread, phone, intent, now);
    case Check(thread, approved, now) => CheckOk(a, ttl, thread, approved, now);
    case Review(thread, brokerOk, now) => ReviewOk(a, ttl, thread, brokerOk, now);
    case Finish(thread, now) => FinishOk(a, ttl, thread, now);
    case ExpireDue(now, order) => ExpireDueOk(a, ttl, clock, now, order);
    case OtherRow(text) => LogOk(a, ttl, clock, text);
    case Reboot => FaithfulReplay(a.slots, clock);
  }

  lemma {:induction false} ExpireDueExtends(a: Adapter, ttl: int, now: int, order: seq<string>)
    ensures a.trace <= DoExpireDue(a, ttl, now, order).trace && DoExpireDue(a, ttl, now, order).handlers == a.handlers
  {
    if order != [] {
      ExpireDueExtends(a, ttl, now, order[..|order| - 1]);
    }
  }

  lemma HandlersOkLater(a: Adapter, b: Adapter)
    requires HandlersOk(a) && a.trace <= b.trace && b.handlers == a.handlers
    ensures HandlersOk(b)
  {
    forall t | t in b.handlers ensures HandlerOk(b.trace, b.handlers[t]) {
      assert HandlerOk(a.trace, a.handlers[t]);
    }
  }

  /** One handler was set or dropped; the others are as they were. */
  lemma HandlersOkBut(a: Adapter, b: Adapter, thread: nat)
    requires HandlersOk(a) && a.trace <= b.trace
    requires forall t :: t in b.handlers && t != thread ==> t in a.handlers && b.handlers[t] == a.handlers[t]
    requires thread in b.handlers ==> HandlerOk(b.trace, b.handlers[thread])
    ensures HandlersOk(b)
  {
    forall t | t in b.handlers ensures HandlerOk(b.trace, b.handlers[t]) {
      if t != thread {
        assert HandlerOk(a.trace, a.handlers[t]);
      }
    }
  }

  lemma ReplyHandlersOk(a: Adapter, ttl: int, thread: nat, phone: string, intent: Intent, now: int)
    requires HandlersOk(a)
    ensures HandlersOk(DoReply(a, ttl, thread, phone, intent, now))
  {
    HandlersOkBut(a, DoReply(a, ttl, thread, phone, intent, now), thread);
  }

  lemma CheckHandlersOk(a: Adapter, thread: nat, approved: bool, now: int)
    requires HandlersOk(a)
    ensures HandlersOk(DoCheck(a, thread, approved, now))
  {
    assert thread in a.handlers ==> HandlerOk(a.trace, a.handlers[thread]);
    HandlersOkBut(a, DoCheck(a, thread, approved, now), thread);
  }

  lemma ReviewHandlersOk(a: Adapter, thread: nat, brokerOk: bool, now: int)
    requires HandlersOk(a)
    ensures HandlersOk(DoReview(a, thread, brokerOk, now))
  {
    assert thread in a.handlers ==> HandlerOk(a.trace, a.handlers[thread]);
    HandlersOkBut(a, DoReview(a, thread, brokerOk, now), thread);
  }

  lemma FinishHandlersOk(a: Adapter, thread: nat, now: int)
    requires HandlersOk(a)
    ensures HandlersOk(DoFinish(a, thread, now))
  {
    assert thread in a.handlers ==> HandlerOk(a.trace, a.handlers[thread]);
    HandlersOkBut(a, DoFinish(a, thread, now), thread);
  }

  lemma DeliverHandlersOk(a: Adapter, ttl: int, phone: string, requestId: string, now: int)
    requires HandlersOk(a)
    ensures HandlersOk(DoDeliver(a, ttl, phone, requestId, now))
  {
    HandlersOkLater(a, DoDeliver(a, ttl, phone, requestId, now));
  }

  lemma SendDoneHandlersOk(a: Adapter, result: SendResult, now: int)
    requires HandlersOk(a)
    ensures HandlersOk(DoSendDone(a, result, now))
  {
    HandlersOkLater(a, DoSendDone(a, result, now));
  }

  lemma StepHandlersOk(a: Adapter, ttl: int, act: Action)
    requires HandlersOk(a)
    ensures HandlersOk(Do(a, ttl, act))
  {
    match act
    case Reply(thread, phone, intent, now) => ReplyHandlersOk(a, ttl, thread, phone, intent, now);
    case Check(thread, approved, now) => CheckHandlersOk(a, thread, approved, now);
    case Review(thread, brokerOk, now) => ReviewHandlersOk(a, thread, brokerOk, now);
    case Finish(thread, now) => FinishHandlersOk(a, thread, now);
    case ExpireDue(now, order) =>
      ExpireDueExtends(a, ttl, now, order);
      HandlersOkLater(a, Do(a, ttl, act));
    case OtherRow(_) => HandlersOkLater(a, Do(a, ttl, act));
    case Reboot =>
    case Deliver(phone, requestId, now) => DeliverHandlersOk(a, ttl, phone, requestId, now);
    case SendDone(result, now) => SendDoneHandlersOk(a, result, now);
  }

  lemma {:induction false} RunOk(ttl: int, acts: seq<Action>, start: int)
    requires Regular(acts, start)
    ensures Ok(Run(ttl, acts), ttl, LastClock(acts, start)) && HandlersOk(Run(ttl, acts))
  {
    if acts != [] {
      var front := acts[..|acts| - 1];
      RunOk(ttl, front, start);
      StepOk(Run(ttl, front), ttl, LastClock(front, start), acts[|acts| - 1]);
      StepHandlersOk(Run(ttl, front), ttl, acts[|acts| - 1]);
    }
  }

  // ----- Reading a sound trace -----

  /** The holder is whoever claimed the phone last, and nothing has emptied the slot since. */
  lemma {:induction false} HolderClaimedLast(trace: seq<Effect>, phone: string) returns (c: nat)
    requires Holder(trace, phone).Some?
    ensures c < |trace| && trace[c] == Claimed(phone, Holder(trace, phone).value.requestId, Holder(trace, phone).value.openedAt)
    ensures forall k :: c < k < |trace| && trace[k].phone == phone ==>
              !trace[k].Claimed? && !trace[k].Freed? && !trace[k].Lapsed?
  {
    var front, e := trace[..|trace| - 1], trace[|trace| - 1];
    if e.phone == phone && e.Claimed? {
      c := |trace| - 1;
    } else {
      c := HolderClaimedLast(front, phone);
      assert forall k :: 0 <= k < |front| ==> front[k] == trace[k];
    }
  }

  lemma {:induction false} TimesRise(trace: seq<Effect>, ttl: int, i: nat, j: nat)
    requires AllSound(trace, ttl) && i <= j < |trace|
    ensures trace[i].at <= trace[j].at
    decreases j
  {
    if i < j {
      TimesRise(trace, ttl, i, j - 1);
      assert Sound(trace[..j], trace[j], ttl);
      assert trace[..j][j - 1] == trace[j - 1];
    }
  }

  /** The part of soundness that is about slots being taken and running out. */
  ghost predicate SlotSound(before: seq<Effect>, e: Effect, ttl: int) {
    && (e.Claimed? ==> Holder(before, e.phone) == None)
    && (e.Lapsed? ==> Holder(before, e.phone).Some? && e.at - Holder(before, e.phone).value.openedAt >= ttl)
  }

  lemma SlotOutlasts(trace: seq<Effect>, ttl: int, phone: string, k: nat)
    requires k < |trace| && SlotSound(trace[..k], trace[k], ttl) && Holder(trace[..k], phone).Some?
    requires !(trace[k].Freed? && trace[k].phone == phone)
    requires trace[k].at - Holder(trace[..k], phone).value.openedAt < ttl
    ensures Holder(trace[..k + 1], phone) == Holder(trace[..k], phone)
  {
    assert trace[..k + 1] == trace[..k] + [trace[k]];
    HolderSnoc(trace[..k], trace[k], phone);
  }

  lemma ClaimTakesHold(trace: seq<Effect>, c: nat)
    requires c < |trace| && trace[c].Claimed?
    ensures Holder(trace[..c + 1], trace[c].phone) == Some(Entry(trace[c].requestId, trace[c].at))
  {
    assert trace[..c + 1] == trace[..c] + [trace[c]];
    HolderSnoc(trace[..c], trace[c], trace[c].phone);
  }

  /** Between a claim and position `k` the phone is not released and no TTL passes. */
  ghost predicate Undisturbed(trace: seq<Effect>, ttl: int, c: nat, k: nat)
    requires c < k <= |trace|
  {
    forall i :: c < i < k ==>
      !(trace[i].Freed? && trace[i].phone == trace[c].phone) && trace[i].at - trace[c].at < ttl
  }

  /** A claim that is not disturbed still holds. */
  lemma {:induction false} ClaimHolds(trace: seq<Effect>, ttl: int, c: nat, k: nat)
    requires c < k <= |trace| && trace[c].Claimed? && Undisturbed(trace, ttl, c, k)
    requires forall i :: c < i < k ==> SlotSound(trace[..i], trace[i], ttl)
    ensures Holder(trace[..k], trace[c].phone) == Some(Entry(trace[c].requestId, trace[c].at))
    decreases k
  {
    if c == k - 1 {
      ClaimTakesHold(trace, c);
    } else {
      ClaimHolds(trace, ttl, c, k - 1);
      SlotOutlasts(trace, ttl, trace[c].phone, k - 1);
    }
  }

  // ----- Main results -----

  /** Nothing has taken or emptied the slot claimed at `c`, up to position `i`. */
  ghost predicate StillOpen(trace: seq<Effect>, c: nat, i: nat)
    requires c < |trace| && i <= |trace|
  {
    forall k :: c < k < i && trace[k].phone == trace[c].phone ==> !trace[k].Claimed? && !trace[k].Freed? && !trace[k].Lapsed?
  }

  /** The request that most recently opened the phone at position `b` did so at `c`, less than a TTL before. */
  ghost predicate OpenedAt(trace: seq<Effect>, ttl: int, c: nat, b: nat, phone: string, requestId: string)
    requires b < |trace|
  {
    c < b && trace[c].Claimed? && trace[c].phone == phone && trace[c].requestId == requestId
    && trace[b].at - trace[c].at < ttl && StillOpen(trace, c, b)
  }

  /** The phone is neither released nor expired strictly between two positions. */
  ghost predicate Untouched(trace: seq<Effect>, phone: string, b: nat, i: nat)
    requires i <= |trace|
  {
    forall k :: b < k < i ==> !Empties(trace[k], phone)
  }

  lemma BoundIsOpened(trace: seq<Effect>, ttl: int, b: nat) returns (c: nat)
    requires AllSound(trace, ttl) && b < |trace| && trace[b].Bound?
    ensures OpenedAt(trace, ttl, c, b, trace[b].phone, trace[b].requestId)
  {
    assert Sound(trace[..b], trace[b], ttl);
    c := HolderClaimedLast(trace[..b], trace[b].phone);
    assert trace[..b][c] == trace[c];
    assert forall k :: 0 <= k < b ==> trace[..b][k] == trace[k];
  }

  /** No phone is claimed while it is held. */
  ghost predicate ClaimsFindFree(trace: seq<Effect>) {
    forall k :: 0 <= k < |trace| && trace[k].Claimed? ==> Holder(trace[..k], trace[k].phone) == None
  }

  lemma SoundClaims(trace: seq<Effect>, ttl: int)
    requires AllSound(trace, ttl)
    ensures ClaimsFindFree(trace)
  {
    forall k | 0 <= k < |trace| && trace[k].Claimed? ensures Holder(trace[..k], trace[k].phone) == None {
      assert Sound(trace[..k], trace[k], ttl);
    }
  }

  /** A slot that nothing empties is not taken either. */
  lemma {:induction false} UntouchedStaysOpen(trace: seq<Effect>, c: nat, b: nat, i: nat)
    requires ClaimsFindFree(trace) && c < b < i <= |trace| && trace[c].Claimed? && StillOpen(trace, c, b) && trace[b].Bound?
    requires Untouched(trace, trace[c].phone, b, i)
    ensures StillOpen(trace, c, i)
    decreases i
  {
    if b < i - 1 {
      UntouchedStaysOpen(trace, c, b, i - 1);
      OpenHolds(trace, c, i - 1);
    }
  }

  lemma OpenHolds(trace: seq<Effect>, c: nat, i: nat)
    requires c < i <= |trace| && trace[c].Claimed? && StillOpen(trace, c, i)
    ensures Holder(trace[..i], trace[c].phone) == Some(Entry(trace[c].requestId, trace[c].at))
  {
    ClaimTakesHold(trace, c);
    HolderStays(trace, trace[c].phone, c + 1, i);
  }

  /**
   Whatever comes between the steps of a reply's handler, a review call names the request to which the
   reply was bound: the one that had then most recently opened the sender's phone, less than one TTL
   before. An approve follows an approved check made for that very reply. At the moment of the call the
   request is still the one that most recently opened the phone if and only if the phone was neither
   released nor expired since the reply was bound.
   */
  lemma ReviewsAreBound(ttl: int, acts: seq<Action>, start: int, i: nat)
    requires Regular(acts, start) && i < |Run(ttl, acts).trace| && Run(ttl, acts).trace[i].Reviewed?
    ensures
      var trace := Run(ttl, acts).trace;
      var e := trace[i];
      && BoundAt(trace[..i], e.bound, e.phone)
      && (e.approve ==> ApprovedAt(trace[..i], e.check, e.bound, e.phone))
      && exists c :: OpenedAt(trace, ttl, c, e.bound, e.phone, e.requestId)
                     && (StillOpen(trace, c, i) <==> Untouched(trace, e.phone, e.bound, i))
  {
    var trace := Run(ttl, acts).trace;
    RunOk(ttl, acts, start);
    var c := ReviewIsBound(trace, ttl, i);
  }

  /** A reply handled in one go, as one step: the request opened the phone less than one TTL before the call, and holds it. */
  lemma PromptReviewsAreInTime(ttl: int, acts: seq<Action>, start: int, i: nat)
    requires Regular(acts, start) && i < |Run(ttl, acts).trace| && Run(ttl, acts).trace[i].Reviewed?
    requires
      var trace := Run(ttl, acts).trace;
      trace[i].bound < i ==> trace[trace[i].bound].at == trace[i].at && Untouched(trace, trace[i].phone, trace[i].bound, i)
    ensures
      var trace := Run(ttl, acts).trace;
      exists c :: 0 <= c < i && trace[c].Claimed? && trace[c].phone == trace[i].phone && trace[c].requestId == trace[i].requestId
                  && trace[i].at - trace[c].at < ttl && StillOpen(trace, c, i)
  {
    ReviewsAreBound(ttl, acts, start, i);
  }

  lemma ReviewIsBound(trace: seq<Effect>, ttl: int, i: nat) returns (c: nat)
    requires AllSound(trace, ttl) && i < |trace| && trace[i].Reviewed?
    ensures
      var e := trace[i];
      && BoundAt(trace[..i], e.bound, e.phone)
      && (e.approve ==> ApprovedAt(trace[..i], e.check, e.bound, e.phone))
      && OpenedAt(trace, ttl, c, e.bound, e.phone, e.requestId)
      && (StillOpen(trace, c, i) <==> Untouched(trace, e.phone, e.bound, i))
  {
    assert Sound(trace[..i], trace[i], ttl);
    assert trace[..i][trace[i].bound] == trace[trace[i].bound];
    c := BoundIsOpened(trace, ttl, trace[i].bound);
    if Untouched(trace, trace[i].phone, trace[i].bound, i) {
      SoundClaims(trace, ttl);
      UntouchedStaysOpen(trace, c, trace[i].bound, i);
    }
  }

  /** A release at the end of a reply frees the slot the reply was bound to, or is too late for it. */
  ghost predicate FinishEffect(a: Adapter, b: Adapter, ttl: int, h: Handler, now: int, c: nat)
    requires h.bound < |a.trace|
  {
    && OpenedAt(a.trace, ttl, c, h.bound, h.phone, h.requestId)
    && (StillOpen(a.trace, c, |a.trace|) <==> Untouched(a.trace, h.phone, h.bound, |a.trace|))
    && (StillOpen(a.trace, c, |a.trace|) ==> SlotOf(a.slots.items, h.phone) == Some(Entry(h.requestId, a.trace[c].at)))
    && b.trace == a.trace + (match SlotOf(a.slots.items, h.phone)
                             case None => []
                             case Some(entry) => [Freed(h.phone, entry.requestId, now)])
    && b.slots.items == a.slots.items - {h.phone}
  }

  /**
   Releasing is by phone. The slot that the end of a reply frees is the one the reply was bound to if and
   only if nothing has emptied that one since; otherwise it is a later claim's, or none.
   */
  lemma FinishFreesItsSlotIff(ttl: int, acts: seq<Action>, start: int, thread: nat, now: int)
    requires Regular(acts, start)
    requires var a := Run(ttl, acts); thread in a.handlers && a.handlers[thread].phase.Agreed?
    ensures
      var a := Run(ttl, acts);
      var h := a.handlers[thread];
      h.bound < |a.trace| && exists c :: FinishEffect(a, Do(a, ttl, Finish(thread, now)), ttl, h, now, c)
  {
    var a := Run(ttl, acts);
    var h := a.handlers[thread];
    RunOk(ttl, acts, start);
    assert HandlerOk(a.trace, h);
    var c := BoundIsOpened(a.trace, ttl, h.bound);
    if Untouched(a.trace, h.phone, h.bound, |a.trace|) {
      SoundClaims(a.trace, ttl);
      UntouchedStaysOpen(a.trace, c, h.bound, |a.trace|);
    }
    if StillOpen(a.trace, c, |a.trace|) {
      OpenHolds(a.trace, c, |a.trace|);
      assert a.trace[..|a.trace|] == a.trace;
    }
    assert SlotOf(a.slots.items, h.phone) == Holder(a.trace, h.phone);
    FinishStep(a, ttl, thread, now);
    assert FinishEffect(a, Do(a, ttl, Finish(thread, now)), ttl, h, now, c);
  }

  lemma FinishStep(a: Adapter, ttl: int, thread: nat, now: int)
    requires thread in a.handlers && a.handlers[thread].phase.Agreed?
    ensures
      var h, b := a.handlers[thread], Do(a, ttl, Finish(thread, now));
      && b.trace == a.trace + (match SlotOf(a.slots.items, h.phone)
                               case None => []
                               case Some(entry) => [Freed(h.phone, entry.requestId, now)])
      && b.slots.items == a.slots.items - {h.phone}
  {
  }

  /** Two claims of one phone less than a TTL apart have a release of it between them, restarts or not. */
  lemma ClaimsAreSeparated(ttl: int, acts: seq<Action>, start: int, c: nat, d: nat)
    requires Regular(acts, start) && c < d < |Run(ttl, acts).trace|
    requires
      var trace := Run(ttl, acts).trace;
      trace[c].Claimed? && trace[d].Claimed? && trace[c].phone == trace[d].phone && trace[d].at - trace[c].at < ttl
    ensures
      var trace := Run(ttl, acts).trace;
      exists k :: c < k < d && trace[k].Freed? && trace[k].phone == trace[c].phone
  {
    var trace := Run(ttl, acts).trace;
    RunOk(ttl, acts, start);
    assert Sound(trace[..d], trace[d], ttl);
    forall i | c < i < d ensures trace[i].at - trace[c].at < ttl {
      TimesRise(trace, ttl, i, d);
    }
    if Undisturbed(trace, ttl, c, d) {
      forall i | c < i < d ensures SlotSound(trace[..i], trace[i], ttl) {
        assert Sound(trace[..i], trace[i], ttl);
      }
      ClaimHolds(trace, ttl, c, d);
    }
  }

  /** Every send is the only one made under its claim of that phone, which is the last claim before it. */
  lemma SendsAreClaimed(ttl: int, acts: seq<Action>, start: int, i: nat)
    requires Regular(acts, start) && i < |Run(ttl, acts).trace| && Run(ttl, acts).trace[i].Sent?
    ensures
      var trace := Run(ttl, acts).trace;
      && trace[i].claim < i && trace[trace[i].claim].Claimed?
      && trace[trace[i].claim].phone == trace[i].phone && trace[trace[i].claim].requestId == trace[i].requestId
      && forall k :: trace[i].claim < k < i ==> !trace[k].Claimed? && !trace[k].Sent?
  {
    var trace := Run(ttl, acts).trace;
    RunOk(ttl, acts, start);
    assert Sound(trace[..i], trace[i], ttl);
    assert forall k :: 0 <= k < i ==> trace[..i][k] == trace[k];
  }

  /** Some release of this phone lies strictly between two positions of the trace. */
  ghost predicate FreedBetween(trace: seq<Effect>, phone: string, i: int, j: int) {
    exists k :: 0 <= k < |trace| && i < k < j && trace[k].Freed? && trace[k].phone == phone
  }

  /** Some slot of this phone expires strictly between two positions of the trace. */
  ghost predicate LapsedBetween(trace: seq<Effect>, phone: string, i: int, j: int) {
    exists k :: 0 <= k < |trace| && i < k < j && trace[k].Lapsed? && trace[k].phone == phone
  }

  ghost predicate Empties(e: Effect, phone: string) {
    e.phone == phone && (e.Freed? || e.Lapsed?)
  }

  /** `d` is the first claim of its phone after the claim at `c`. */
  ghost predicate NextClaim(trace: seq<Effect>, c: nat, d: nat) {
    && c < d < |trace| && trace[c].Claimed? && trace[d].Claimed? && trace[c].phone == trace[d].phone
    && forall k :: c < k < d ==> !(trace[k].Claimed? && trace[k].phone == trace[c].phone)
  }

  /** Nothing that concerns the phone leaves its holder as it is. */
  lemma {:induction false} HolderStays(trace: seq<Effect>, phone: string, i: nat, j: nat)
    requires i <= j <= |trace|
    requires forall k :: i <= k < j ==> !(trace[k].Claimed? && trace[k].phone == phone) && !Empties(trace[k], phone)
    ensures Holder(trace[..j], phone) == Holder(trace[..i], phone)
    decreases j
  {
    if i < j {
      HolderStays(trace, phone, i, j - 1);
      assert trace[..j] == trace[..j - 1] + [trace[j - 1]];
      HolderSnoc(trace[..j - 1], trace[j - 1], phone);
    }
  }

  lemma EmptiedStays(trace: seq<Effect>, phone: string, k: nat, l: nat)
    requires k < l <= |trace| && Empties(trace[k], phone)
    requires forall m :: k < m < l ==> !(trace[m].Claimed? && trace[m].phone == phone) && !Empties(trace[m], phone)
    ensures Holder(trace[..l], phone) == None
  {
    assert trace[..k + 1] == trace[..k] + [trace[k]];
    HolderSnoc(trace[..k], trace[k], phone);
    HolderStays(trace, phone, k + 1, l);
  }

  lemma EmptyingFindsHolder(trace: seq<Effect>, ttl: int, l: nat)
    requires AllSound(trace, ttl) && l < |trace| && Empties(trace[l], trace[l].phone)
    ensures Holder(trace[..l], trace[l].phone).Some?
  {
    assert Sound(trace[..l], trace[l], ttl);
  }

  /** A slot is not emptied twice without being claimed in between. */
  lemma EmptiesOnce(trace: seq<Effect>, ttl: int, phone: string, k: nat, l: nat)
    requires AllSound(trace, ttl) && k < l < |trace| && Empties(trace[k], phone) && Empties(trace[l], phone)
    ensures exists m :: k < m < l && trace[m].Claimed? && trace[m].phone == phone
  {
    var first := FirstEmptying(trace, phone, k + 1, l);
    EmptyingFindsHolder(trace, ttl, first);
    if forall m :: k < m < first ==> !(trace[m].Claimed? && trace[m].phone == phone) {
      EmptiedStays(trace, phone, k, first);
    }
  }

  lemma {:induction false} FirstEmptying(trace: seq<Effect>, phone: string, i: nat, l: nat) returns (f: nat)
    requires i <= l < |trace| && Empties(trace[l], phone)
    ensures i <= f <= l && Empties(trace[f], phone) && forall k :: i <= k < f ==> !Empties(trace[k], phone)
    decreases l - i
  {
    if Empties(trace[i], phone) {
      f := i;
    } else {
      f := FirstEmptying(trace, phone, i + 1, l);
    }
  }

  /**
   Between a claim and the next one of the same phone exactly one effect empties the slot, by release or
   by expiry, and expiry takes a full TTL.
   */
  lemma SlotEndsOnce(trace: seq<Effect>, ttl: int, c: nat, d: nat) returns (k: nat)
    requires AllSound(trace, ttl) && NextClaim(trace, c, d)
    ensures c < k < d && Empties(trace[k], trace[c].phone)
    ensures forall l :: c < l < d && Empties(trace[l], trace[c].phone) ==> l == k
    ensures trace[k].Lapsed? ==> trace[d].at - trace[c].at >= ttl
  {
    var phone := trace[c].phone;
    ClaimTakesHold(trace, c);
    assert Sound(trace[..d], trace[d], ttl);
    var e := SlotEnds(trace, phone, c, d);
    k := FirstEmptying(trace, phone, c + 1, e);
    forall l | c < l < d && Empties(trace[l], phone) ensures l == k {
      if k < l {
        EmptiesOnce(trace, ttl, phone, k, l);
      }
    }
    HolderStays(trace, phone, c + 1, k);
    assert Sound(trace[..k], trace[k], ttl);
    TimesRise(trace, ttl, k, d);
  }

  lemma SlotEnds(trace: seq<Effect>, phone: string, c: nat, d: nat) returns (e: nat)
    requires NextClaim(trace, c, d) && phone == trace[c].phone
    requires Holder(trace[..c + 1], phone).Some? && Holder(trace[..d], phone).None?
    ensures c < e < d && Empties(trace[e], phone)
  {
    if forall k :: c < k < d ==> !Empties(trace[k], phone) {
      HolderStays(trace, phone, c + 1, d);
    }
    e :| c < e < d && Empties(trace[e], phone);
  }

  lemma {:induction false} FirstClaim(trace: seq<Effect>, phone: string, i: nat, l: nat) returns (d: nat)
    requires i <= l < |trace| && trace[l].Claimed? && trace[l].phone == phone
    ensures i <= d <= l && trace[d].Claimed? && trace[d].phone == phone
    ensures forall k :: i <= k < d ==> !(trace[k].Claimed? && trace[k].phone == phone)
    decreases l - i
  {
    if trace[i].Claimed? && trace[i].phone == phone {
      d := i;
    } else {
      d := FirstClaim(trace, phone, i + 1, l);
    }
  }

  /**
   Exactly when two sends to one phone have a release of it between them. `d` is the first claim of the
   phone after the first send's own. Either the first slot was ended by a release, and not already while
   its send was under way; or a later slot was released before the second send. In particular, if the
   next claim comes less than a TTL after the first, only an early release can keep them unseparated.
   */
  lemma SendsAreSeparatedIff(ttl: int, acts: seq<Action>, start: int, i: nat, j: nat) returns (d: nat)
    requires Regular(acts, start) && i < j < |Run(ttl, acts).trace|
    requires var trace := Run(ttl, acts).trace; trace[i].Sent? && trace[j].Sent? && trace[i].phone == trace[j].phone
    ensures
      var trace := Run(ttl, acts).trace;
      var c, phone := trace[i].claim, trace[i].phone;
      && c < i < d <= trace[j].claim < j && NextClaim(trace, c, d) && trace[c].phone == phone
      && (FreedBetween(trace, phone, i, d) <==> !FreedBetween(trace, phone, c, i) && !LapsedBetween(trace, phone, c, d))
      && (FreedBetween(trace, phone, i, j) <==> FreedBetween(trace, phone, i, d) || FreedBetween(trace, phone, d, j))
      && (trace[d].at - trace[c].at < ttl ==> !LapsedBetween(trace, phone, c, d))
  {
    var trace := Run(ttl, acts).trace;
    RunOk(ttl, acts, start);
    SendsAreClaimed(ttl, acts, start, i);
    SendsAreClaimed(ttl, acts, start, j);
    d := FirstClaim(trace, trace[i].phone, trace[i].claim + 1, trace[j].claim);
    SeparatedIff(trace, ttl, trace[i].phone, trace[i].claim, i, d, j);
  }

  lemma SeparatedIff(trace: seq<Effect>, ttl: int, phone: string, c: nat, i: nat, d: nat, j: nat)
    requires AllSound(trace, ttl) && c < i < j < |trace| && d < j && NextClaim(trace, c, d) && trace[c].phone == phone
    requires trace[i].Sent? && forall k :: c < k < i ==> !trace[k].Claimed?
    ensures c < i < d < j
    ensures FreedBetween(trace, phone, i, d) <==> !FreedBetween(trace, phone, c, i) && !LapsedBetween(trace, phone, c, d)
    ensures FreedBetween(trace, phone, i, j) <==> FreedBetween(trace, phone, i, d) || FreedBetween(trace, phone, d, j)
    ensures trace[d].at - trace[c].at < ttl ==> !LapsedBetween(trace, phone, c, d)
  {
    assert i < d;
    var k := SlotEndsOnce(trace, ttl, c, d);
    OneEndDecides(trace, phone, c, i, d, j, k);
  }

  /** With exactly one emptying effect between the claims, at `k`, both equivalences are a matter of where it lies. */
  lemma OneEndDecides(trace: seq<Effect>, phone: string, c: nat, i: nat, d: nat, j: nat, k: nat)
    requires c < i < d < j < |trace| && c < k < d && Empties(trace[k], phone)
    requires trace[i].Sent? && trace[d].Claimed?
    requires forall l :: c < l < d && Empties(trace[l], phone) ==> l == k
    ensures FreedBetween(trace, phone, i, d) <==> !FreedBetween(trace, phone, c, i) && !LapsedBetween(trace, phone, c, d)
    ensures FreedBetween(trace, phone, i, j) <==> FreedBetween(trace, phone, i, d) || FreedBetween(trace, phone, d, j)
    ensures LapsedBetween(trace, phone, c, d) ==> trace[k].Lapsed?
  {
    assert k != i;
    if trace[k].Freed? && k < i {
      assert FreedBetween(trace, phone, c, i);
    } else if trace[k].Freed? {
      assert FreedBetween(trace, phone, i, d);
    } else {
      assert LapsedBetween(trace, phone, c, d);
    }
    if FreedBetween(trace, phone, i, j) {
      var l :| 0 <= l < |trace| && i < l < j && trace[l].Freed? && trace[l].phone == phone;
      assert l != d;
    }
  }

  /**
   Two sends to one phone whose claims are less than a TTL apart have a release of that phone between
   their claims; it falls between the sends themselves unless it came while the first send was still under
   way.
   */
  lemma SendsAreSeparated(ttl: int, acts: seq<Action>, start: int, i: nat, j: nat)
    requires Regular(acts, start) && i < j < |Run(ttl, acts).trace|
    requires
      var trace := Run(ttl, acts).trace;
      && trace[i].Sent? && trace[j].Sent? && trace[i].phone == trace[j].phone
      && trace[j].claim < |trace| && trace[i].claim < |trace|
      && trace[trace[j].claim].at - trace[trace[i].claim].at < ttl
    ensures
      var trace := Run(ttl, acts).trace;
      var c, d, phone := trace[i].claim, trace[j].claim, trace[i].phone;
      FreedBetween(trace, phone, c, d) && (!FreedBetween(trace, phone, c, i) ==> FreedBetween(trace, phone, i, j))
  {
    var trace := Run(ttl, acts).trace;
    SendsAreClaimed(ttl, acts, start, i);
    SendsAreClaimed(ttl, acts, start, j);
    var c, d := trace[i].claim, trace[j].claim;
    assert i <= d && c < d;
    ClaimsAreSeparated(ttl, acts, start, c, d);
    var k :| c < k < d && trace[k].Freed? && trace[k].phone == trace[c].phone;
    assert k != i;
  }

  // ----- A request and its own claims -----

  /** The delivery finds the phone held, within TTL, by the very request it is for. */
  ghost predicate BlockedByItself(a: Adapter, ttl: int, phone: string, requestId: string, now: int) {
    a.tailer.Idle? && Busy(a.slots.items, ttl, phone, now) && a.slots.items[phone].requestId == requestId
  }

  /** No request is delivered to a phone twice without a restart in between. */
  ghost predicate DeliveredOncePerBoot(acts: seq<Action>) {
    forall i, j :: 0 <= i < j < |acts| && acts[i].Deliver? && acts[j].Deliver?
                   && acts[i].phone == acts[j].phone && acts[i].requestId == acts[j].requestId ==>
      exists k :: i < k < j && acts[k].Reboot?
  }

  lemma {:induction false} ExpireDueClaimsNothing(a: Adapter, ttl: int, now: int, order: seq<string>)
    ensures
      var b := DoExpireDue(a, ttl, now, order);
      a.trace <= b.trace && forall k :: |a.trace| <= k < |b.trace| ==> b.trace[k].Lapsed?
  {
    if order != [] {
      ExpireDueClaimsNothing(a, ttl, now, order[..|order| - 1]);
    }
  }

  /** Only a delivery claims, and it claims what it delivers. */
  lemma StepClaims(a: Adapter, ttl: int, act: Action)
    ensures
      var b := Do(a, ttl, act);
      && a.trace <= b.trace
      && forall k :: |a.trace| <= k < |b.trace| && b.trace[k].Claimed? ==>
           act == Deliver(b.trace[k].phone, b.trace[k].requestId, b.trace[k].at)
  {
    match act
    case ExpireDue(now, order) => ExpireDueClaimsNothing(a, ttl, now, order);
    case Deliver(_, _, _) =>
    case SendDone(_, _) =>
    case _ =>
  }

  /** Every claim goes back to a delivery of that request to that phone at that time. */
  lemma {:induction false} ClaimsWereDelivered(ttl: int, acts: seq<Action>, c: nat) returns (i: nat)
    requires c < |Run(ttl, acts).trace| && Run(ttl, acts).trace[c].Claimed?
    ensures
      var e := Run(ttl, acts).trace[c];
      i < |acts| && acts[i] == Deliver(e.phone, e.requestId, e.at)
  {
    var front := acts[..|acts| - 1];
    StepClaims(Run(ttl, front), ttl, acts[|acts| - 1]);
    if c < |Run(ttl, front).trace| {
      i := ClaimsWereDelivered(ttl, front, c);
    } else {
      i := |acts| - 1;
    }
  }

  /**
   When a delivery is blocked by its own request: exactly when an earlier claim by that request is still
   open and less than a TTL old. A request is delivered to a phone once per start, so then it was claimed
   before a restart, and is delivered again because the tailer forgets what it has seen.
   */
  lemma OwnClaimBlocksIff(ttl: int, acts: seq<Action>, start: int, phone: string, requestId: string, now: int)
    requires Regular(acts, start) && DeliveredOncePerBoot(acts + [Deliver(phone, requestId, now)])
    requires Run(ttl, acts).tailer.Idle?
    ensures
      var a := Run(ttl, acts);
      && (BlockedByItself(a, ttl, phone, requestId, now) <==>
            exists c :: 0 <= c < |a.trace| && a.trace[c].Claimed? && a.trace[c].phone == phone
                        && a.trace[c].requestId == requestId && now - a.trace[c].at < ttl && StillOpen(a.trace, c, |a.trace|))
      && (BlockedByItself(a, ttl, phone, requestId, now) ==>
            exists i, k :: 0 <= i < k < |acts| && acts[i] == Deliver(phone, requestId, a.slots.items[phone].openedAt)
                           && acts[k].Reboot?)
  {
    var a := Run(ttl, acts);
    RunOk(ttl, acts, start);
    assert SlotOf(a.slots.items, phone) == Holder(a.trace, phone);
    HeldIffOpen(a.trace, phone, requestId, now - ttl);
    if BlockedByItself(a, ttl, phone, requestId, now) {
      var c := HolderClaimedLast(a.trace, phone);
      var i := ClaimsWereDelivered(ttl, acts, c);
      RebootLiesBetween(acts, i, Deliver(phone, requestId, now));
    }
  }

  lemma RebootLiesBetween(acts: seq<Action>, i: nat, act: Action)
    requires DeliveredOncePerBoot(acts + [act]) && i < |acts| && acts[i].Deliver? && act.Deliver?
    requires acts[i].phone == act.phone && acts[i].requestId == act.requestId
    ensures exists k :: i < k < |acts| && acts[k].Reboot?
  {
    var all := acts + [act];
    assert all[i] == acts[i] && all[|acts|] == act;
    var k :| i < k < |acts| && all[k].Reboot?;
    assert acts[k] == all[k];
  }

  /** A phone is held by a request since after `t` exactly when a claim by it after `t` is still open. */
  lemma HeldIffOpen(trace: seq<Effect>, phone: string, requestId: string, t: int)
    ensures (Holder(trace, phone).Some? && Holder(trace, phone).value.requestId == requestId
             && Holder(trace, phone).value.openedAt > t) <==>
            exists c :: 0 <= c < |trace| && trace[c].Claimed? && trace[c].phone == phone && trace[c].requestId == requestId
                        && trace[c].at > t && StillOpen(trace, c, |trace|)
  {
    if Holder(trace, phone).Some? {
      var c := HolderClaimedLast(trace, phone);
      assert StillOpen(trace, c, |trace|);
    }
    forall c | 0 <= c < |trace| && trace[c].Claimed? && trace[c].phone == phone && StillOpen(trace, c, |trace|)
      ensures Holder(trace, phone) == Some(Entry(trace[c].requestId, trace[c].at))
    {
      OpenHolds(trace, c, |trace|);
      assert trace[..|trace|] == trace;
    }
  }

  /** How a request comes to be blocked by its own claim: it is delivered, and again after a restart within the TTL. */
  lemma RestartBlocksOwnClaim(ttl: int, phone: string, a: string, t: seq<int>)
    requires |t| == 3 && phone != "" && a != "" && t[0] <= t[1] <= t[2] && t[2] - t[0] < ttl
    ensures
      var acts := [Deliver(phone, a, t[0]), SendDone(Delivered, t[1]), Reboot];
      && Regular(acts, t[0]) && DeliveredOncePerBoot(acts + [Deliver(phone, a, t[2])])
      && BlockedByItself(Run(ttl, acts), ttl, phone, a, t[2])
      && Run(ttl, acts + [Deliver(phone, a, t[2])]) == Log(Run(ttl, acts), "routing_blocked_same_phone")
  {
    var a1, a2, a4 := Deliver(phone, a, t[0]), SendDone(Delivered, t[1]), Deliver(phone, a, t[2]);
    var acts := [a1, a2, Reboot];
    DeliveredAndRestarted(a1, a2, t[0]);
    assert (acts + [a4])[2].Reboot?;
    assert [a1] + [a2] == [a1, a2] && [a1, a2] + [Reboot] == acts;
    RunOfOne(ttl, a1);
    RunSnoc(ttl, [a1], a2);
    RunSnoc(ttl, [a1, a2], Reboot);
    RunSnoc(ttl, acts, a4);
    var s1 := FirstDelivery(ttl, phone, a, t[0]);
    var s2 := SentTo(s1, phone, a, 0, t[1]);
    RebootKeepsSlots(ttl, [a1, a2], t[0]);
  }

  lemma RebootKeepsSlots(ttl: int, acts: seq<Action>, start: int)
    requires Regular(acts, start)
    ensures Do(Run(ttl, acts), ttl, Reboot).slots == Run(ttl, acts).slots
  {
    RunOk(ttl, acts, start);
    FaithfulReplay(Run(ttl, acts).slots, LastClock(acts, start));
  }

  lemma DeliveredAndRestarted(a1: Action, a2: Action, start: int)
    requires RegularStep(a1, start) && RegularStep(a2, Clock(a1, start))
    ensures Regular([a1, a2], start) && Regular([a1, a2, Reboot], start)
  {
    RegularSnoc([], a1, start);
    assert [] + [a1] == [a1];
    RegularSnoc([a1], a2, start);
    assert [a1] + [a2] == [a1, a2];
    RegularSnoc([a1, a2], Reboot, start);
    assert [a1, a2] + [Reboot] == [a1, a2, Reboot];
  }

  lemma RegularSnoc(acts: seq<Action>, act: Action, start: int)
    requires Regular(acts, start) && RegularStep(act, LastClock(acts, start))
    ensures Regular(acts + [act], start) && LastClock(acts + [act], start) == Clock(act, LastClock(acts, start))
  {
    assert (acts + [act])[..|acts|] == acts;
  }

  /** The adapter after a rollback: one slot freed, if it was still held, and that by the request that claimed it. */
  ghost predicate RolledBack(a: Adapter, b: Adapter, now: int, reached: bool)
    requires a.tailer.Sending?
  {
    var Sending(phone, requestId, claim) := a.tailer;
    && (forall other :: other != phone ==> SlotOf(b.slots.items, other) == SlotOf(a.slots.items, other))
    && phone !in b.slots.items
    && (phone in a.slots.items ==>
          claim < |a.trace| && a.trace[claim].Claimed? && a.slots.items[phone] == Entry(requestId, a.trace[claim].at))
    && b.trace == a.trace + (if reached then [Sent(phone, requestId, claim, now)] else [])
                  + if phone in a.slots.items then [Freed(phone, requestId, now)] else []
  }

  lemma RollbackOf(a: Adapter, now: int, reached: bool)
    requires a.tailer.Sending? && TailerOk(a)
    ensures RolledBack(a, DoSendDone(a, SendFailed(reached), now), now, reached)
  {
  }

  /** A rollback after a failed send frees at most the slot its own request claimed. */
  lemma RollbackFreesItsOwnSlot(ttl: int, acts: seq<Action>, start: int, now: int, reached: bool)
    requires Regular(acts, start) && Run(ttl, acts).tailer.Sending?
    ensures RolledBack(Run(ttl, acts), Do(Run(ttl, acts), ttl, SendDone(SendFailed(reached), now)), now, reached)
  {
    RunOk(ttl, acts, start);
    RollbackOf(Run(ttl, acts), now, reached);
  }

  /**
   How an early release leaves two sends unseparated: a denial that arrives while the first send is under
   way frees the slot.
   */
  lemma EarlyReplyUnseparatesSends(ttl: int, phone: string, a: string, b: string, t: seq<int>)
    requires |t| == 7 && t[1] - t[0] < ttl
    ensures
      Run(ttl, [Deliver(phone, a, t[0]), Reply(0, phone, DenyIntent, t[1]), Review(0, true, t[2]), Finish(0, t[3]),
                SendDone(Delivered, t[4]), Deliver(phone, b, t[5]), SendDone(Delivered, t[6])]).trace ==
        [Claimed(phone, a, t[0]), Bound(phone, a, t[1]), Reviewed(phone, false, a, 1, 1, t[2]), Freed(phone, a, t[3]),
         Sent(phone, a, 0, t[4]), Claimed(phone, b, t[5]), Sent(phone, b, 5, t[6])]
  {
    var a1, a2, a3, a4 := Deliver(phone, a, t[0]), Reply(0, phone, DenyIntent, t[1]), Review(0, true, t[2]), Finish(0, t[3]);
    var a5, a6, a7 := SendDone(Delivered, t[4]), Deliver(phone, b, t[5]), SendDone(Delivered, t[6]);
    RunOfOne(ttl, a1);
    RunSnoc(ttl, [a1], a2);
    RunSnoc(ttl, [a1] + [a2], a3);
    RunSnoc(ttl, [a1] + [a2] + [a3], a4);
    RunSnoc(ttl, [a1] + [a2] + [a3] + [a4], a5);
    RunSnoc(ttl, [a1] + [a2] + [a3] + [a4] + [a5], a6);
    RunSnoc(ttl, [a1] + [a2] + [a3] + [a4] + [a5] + [a6], a7);
    var s1 := FirstDelivery(ttl, phone, a, t[0]);
    var s2 := DenialBound(s1, ttl, 0, phone, Entry(a, t[0]), t[1]);
    var s3 := DenialAgreed(s2, ttl, 0, phone, a, 1, t[2]);
    var s4 := DenialFinished(s3, ttl, 0, Handler(phone, a, false, 1, Agreed), Entry(a, t[0]), t[3]);
    var s5 := SentTo(s4, phone, a, 0, t[4]);
    var s6 := FreshDelivery(s5, ttl, phone, b, t[5]);
    var s7 := SentTo(s6, phone, b, 5, t[6]);
    assert [a1] + [a2] + [a3] + [a4] + [a5] + [a6] + [a7] == [a1, a2, a3, a4, a5, a6, a7];
  }

  /**
   How a release by phone frees the slot of a request nobody has answered: two denials are bound to the
   first request, and the second one's release comes after the phone was claimed again.
   */
  lemma LateReleaseFreesAnother(ttl: int, phone: string, a: string, b: string, t: seq<int>)
    requires |t| == 9 && t[2] - t[0] < ttl && t[3] - t[0] < ttl
    ensures
      Run(ttl, [Deliver(phone, a, t[0]), SendDone(Delivered, t[1]), Reply(0, phone, DenyIntent, t[2]),
                Reply(1, phone, DenyIntent, t[3]), Review(0, true, t[4]), Review(1, true, t[5]), Finish(0, t[6]),
                Deliver(phone, b, t[7]), Finish(1, t[8])]).trace ==
        [Claimed(phone, a, t[0]), Sent(phone, a, 0, t[1]), Bound(phone, a, t[2]), Bound(phone, a, t[3]),
         Reviewed(phone, false, a, 2, 2, t[4]), Reviewed(phone, false, a, 3, 3, t[5]), Freed(phone, a, t[6]),
         Claimed(phone, b, t[7]), Freed(phone, b, t[8])]
  {
    var a1, a2 := Deliver(phone, a, t[0]), SendDone(Delivered, t[1]);
    var a3, a4 := Reply(0, phone, DenyIntent, t[2]), Reply(1, phone, DenyIntent, t[3]);
    var a5, a6, a7 := Review(0, true, t[4]), Review(1, true, t[5]), Finish(0, t[6]);
    var a8, a9 := Deliver(phone, b, t[7]), Finish(1, t[8]);
    RunOfOne(ttl, a1);
    RunSnoc(ttl, [a1], a2);
    RunSnoc(ttl, [a1] + [a2], a3);
    RunSnoc(ttl, [a1] + [a2] + [a3], a4);
    RunSnoc(ttl, [a1] + [a2] + [a3] + [a4], a5);
    RunSnoc(ttl, [a1] + [a2] + [a3] + [a4] + [a5], a6);
    RunSnoc(ttl, [a1] + [a2] + [a3] + [a4] + [a5] + [a6], a7);
    RunSnoc(ttl, [a1] + [a2] + [a3] + [a4] + [a5] + [a6] + [a7], a8);
    RunSnoc(ttl, [a1] + [a2] + [a3] + [a4] + [a5] + [a6] + [a7] + [a8], a9);
    var s1 := FirstDelivery(ttl, phone, a, t[0]);
    var s2 := SentTo(s1, phone, a, 0, t[1]);
    var s3 := DenialBound(s2, ttl, 0, phone, Entry(a, t[0]), t[2]);
    var s4 := DenialBound(s3, ttl, 1, phone, Entry(a, t[0]), t[3]);
    var s5 := DenialAgreed(s4, ttl, 0, phone, a, 2, t[4]);
    var s6 := DenialAgreed(s5, ttl, 1, phone, a, 3, t[5]);
    var s7 := DenialFinished(s6, ttl, 0, Handler(phone, a, false, 2, Agreed), Entry(a, t[0]), t[6]);
    var s8 := FreshDelivery(s7, ttl, phone, b, t[7]);
    var s9 := DenialFinished(s8, ttl, 1, Handler(phone, a, false, 3, Agreed), Entry(b, t[7]), t[8]);
    assert [a1] + [a2] + [a3] + [a4] + [a5] + [a6] + [a7] + [a8] + [a9] == [a1, a2, a3, a4, a5, a6, a7, a8, a9];
  }

  /**
   How expiry leaves two sends unseparated, however close together they are: the TTL runs from the claim,
   and the first send ended some time after its own.
   */
  lemma LapseUnseparatesSends(ttl: int, phone: string, a: string, b: string, t: seq<int>)
    requires |t| == 4 && t[2] - t[0] >= ttl
    ensures
      Run(ttl, [Deliver(phone, a, t[0]), SendDone(Delivered, t[1]), Deliver(phone, b, t[2]), SendDone(Delivered, t[3])]).trace ==
        [Claimed(phone, a, t[0]), Sent(phone, a, 0, t[1]), Lapsed(phone, a, t[2]), Claimed(phone, b, t[2]),
         Sent(phone, b, 3, t[3])]
  {
    var a1, a2, a3, a4 := Deliver(phone, a, t[0]), SendDone(Delivered, t[1]), Deliver(phone, b, t[2]), SendDone(Delivered, t[3]);
    RunOfOne(ttl, a1);
    RunSnoc(ttl, [a1], a2);
    RunSnoc(ttl, [a1] + [a2], a3);
    RunSnoc(ttl, [a1] + [a2] + [a3], a4);
    var s1 := FirstDelivery(ttl, phone, a, t[0]);
    var s2 := SentTo(s1, phone, a, 0, t[1]);
    var s3 := LateDelivery(s2, ttl, phone, a, b, t[0], t[2]);
    var s4 := SentTo(s3, phone, b, 3, t[3]);
    assert [a1] + [a2] + [a3] + [a4] == [a1, a2, a3, a4];
  }

  lemma RunOfOne(ttl: int, act: Action)
    ensures Run(ttl, [act]) == Do(START, ttl, act)
  {
    RunSnoc(ttl, [], act);
    assert [] + [act] == [act];
  }

  lemma FirstDelivery(ttl: int, phone: string, a: string, t: int) returns (s: Adapter)
    ensures s == Do(START, ttl, Deliver(phone, a, t)) && s.tailer == Sending(phone, a, 0)
    ensures s.slots.items == map[phone := Entry(a, t)] && s.trace == [Claimed(phone, a, t)] && s.handlers == map[]
  {
    s := FreshDelivery(START, ttl, phone, a, t);
  }

  lemma FreshDelivery(before: Adapter, ttl: int, phone: string, a: string, t: int) returns (s: Adapter)
    requires before.tailer.Idle? && before.slots.items == map[]
    ensures s == Do(before, ttl, Deliver(phone, a, t)) && s.tailer == Sending(phone, a, |before.trace|)
    ensures s.slots.items == map[phone := Entry(a, t)] && s.trace == before.trace + [Claimed(phone, a, t)]
    ensures s.handlers == before.handlers
  {
    s := Do(before, ttl, Deliver(phone, a, t));
  }

  lemma LateDelivery(before: Adapter, ttl: int, phone: string, a: string, b: string, since: int, t: int) returns (s: Adapter)
    requires before.tailer.Idle? && before.slots.items == map[phone := Entry(a, since)] && t - since >= ttl
    ensures s == Do(before, ttl, Deliver(phone, b, t)) && s.tailer == Sending(phone, b, |before.trace| + 1)
    ensures s.trace == before.trace + [Lapsed(phone, a, t), Claimed(phone, b, t)]
  {
    s := Do(before, ttl, Deliver(phone, b, t));
  }

  lemma DenialBound(before: Adapter, ttl: int, thread: nat, phone: string, entry: Entry, t: int) returns (s: Adapter)
    requires before.slots.items == map[phone := entry] && t - entry.openedAt < ttl && thread !in before.handlers
    ensures s == Do(before, ttl, Reply(thread, phone, DenyIntent, t))
    ensures s.tailer == before.tailer && s.slots == before.slots && s.trace == before.trace + [Bound(phone, entry.requestId, t)]
    ensures s.handlers == before.handlers[thread := Handler(phone, entry.requestId, false, |before.trace|, Resolved)]
  {
    s := Do(before, ttl, Reply(thread, phone, DenyIntent, t));
  }

  lemma DenialAgreed(before: Adapter, ttl: int, thread: nat, phone: string, a: string, bound: nat, t: int) returns (s: Adapter)
    requires thread in before.handlers && before.handlers[thread] == Handler(phone, a, false, bound, Resolved)
    ensures s == Do(before, ttl, Review(thread, true, t))
    ensures s.tailer == before.tailer && s.slots == before.slots
    ensures s.trace == before.trace + [Reviewed(phone, false, a, bound, bound, t)]
    ensures s.handlers == before.handlers[thread := Handler(phone, a, false, bound, Agreed)]
  {
    s := Do(before, ttl, Review(thread, true, t));
  }

  lemma DenialFinished(before: Adapter, ttl: int, thread: nat, h: Handler, entry: Entry, t: int) returns (s: Adapter)
    requires thread in before.handlers && before.handlers[thread] == h && h.phase.Agreed?
    requires before.slots.items == map[h.phone := entry]
    ensures s == Do(before, ttl, Finish(thread, t)) && s.tailer == before.tailer && s.slots.items == map[]
    ensures s.trace == before.trace + [Freed(h.phone, entry.requestId, t)] && s.handlers == before.handlers - {thread}
  {
    s := Do(before, ttl, Finish(thread, t));
  }

  lemma SentTo(before: Adapter, phone: string, a: string, claim: nat, t: int) returns (s: Adapter)
    requires before.tailer == Sending(phone, a, claim)
    ensures s == DoSendDone(before, Delivered, t) && s.tailer == Idle
    ensures s.slots.items == before.slots.items && s.handlers == before.handlers
    ensures s.trace == before.trace + [Sent(phone, a, claim, t)]
  {
    s := DoSendDone(before, Delivered, t);
  }

  lemma RunSnoc(ttl: int, acts: seq<Action>, act: Action)
    ensures Run(ttl, acts + [act]) == Do(Run(ttl, acts), ttl, act)
  {
    assert (acts + [act])[..|acts|] == acts;
  }
}

/**
 The two entry points of the adapter as programs over the slot set object: `handlePending` of
 cmd/request-sudo-twilio-adapter/main.go and the body of `HandleInboundReply` of
 internal/twilioadapter/webhook_handler.go behind its HTTP layer. Each critical section of the slot set is
 shown to take one step of the adapter system, whose state is carried along as a ghost, so what is proved
 of all adapter runs holds of these programs, whatever other goroutines do between their sections.
 */
module AdapterHandlers {
  import opened Core
  import Slots = PendingSets
  import Runs = AdapterRuns
  import Approvers

  /** What became of one recipient. */
  datatype Delivery = UnsupportedRegion | Blocked(holder: string) | Attempted(result: Runs.SendResult)

  /** What the network answers: which phones are in an allowed country, how each send ends, and the clock. */
  datatype Outside = Outside(allowed: string -> bool, send: string -> Runs.SendResult, clock: nat -> int)

  // ----- The two critical sections of one recipient -----

  method ClaimSlot(set_: Slots.PendingSet, phone: string, requestId: string, now: int, ghost a: Runs.Adapter)
    returns (claimed: bool)
    requires a.slots == set_.View() && a.tailer.Idle?
    modifies set_
    ensures
      var b := Runs.Do(a, set_.ttl, Runs.Deliver(phone, requestId, now));
      b.slots == set_.View() && (if claimed then b.tailer.Sending? && b.tailer.phone == phone else b.tailer.Idle?)
    ensures claimed <==> !Slots.Busy(old(set_.items), set_.ttl, phone, now)
    ensures claimed ==> set_.items == old(set_.items)[phone := Slots.Entry(requestId, now)]
    ensures !claimed ==>
              set_.items == old(set_.items) && set_.audit == old(set_.audit) + [Slots.Unrelated("routing_blocked_same_phone")]
  {
    claimed := set_.OpenPending(phone, requestId, now);
    if !claimed {
      set_.Write("routing_blocked_same_phone");
    }
  }

  method EndSend(set_: Slots.PendingSet, phone: string, result: Runs.SendResult, now: int, ghost a: Runs.Adapter)
    requires a.slots == set_.View() && a.tailer.Sending? && a.tailer.phone == phone
    modifies set_
    ensures
      var b := Runs.Do(a, set_.ttl, Runs.SendDone(result, now));
      b.slots == set_.View() && b.tailer.Idle?
    ensures set_.items == if result.SendFailed? then old(set_.items) - {phone} else old(set_.items)
    ensures set_.audit == old(set_.audit)
                          + (if result.SendFailed? && phone in old(set_.items)
                             then [Slots.Slot(Slots.Released, old(set_.items)[phone].requestId, phone, now)] else [])
                          + [Slots.Unrelated(if result.SendFailed? then "twilio_send_failed" else "sms_sent")]
  {
    if result.SendFailed? {
      set_.Release(phone, now);
      set_.Write("twilio_send_failed");
    } else {
      set_.Write("sms_sent");
    }
  }

  // ----- The loop over recipients -----

  /** The steps of one turn of the loop; an end of send is no step when nothing was claimed. */
  ghost function Turn(a: Runs.Adapter, ttl: int, phone: string, requestId: string, outside: Outside, i: nat): Runs.Adapter {
    if !outside.allowed(phone) then Runs.Do(a, ttl, Runs.OtherRow("unsupported_region"))
    else
      Runs.Do(Runs.Do(a, ttl, Runs.Deliver(phone, requestId, outside.clock(2 * i))), ttl,
              Runs.SendDone(outside.send(phone), outside.clock(2 * i + 1)))
  }

  ghost function Turns(a: Runs.Adapter, ttl: int, phones: seq<string>, requestId: string, outside: Outside): Runs.Adapter {
    if phones == [] then a
    else
      var i := |phones| - 1;
      Turn(Turns(a, ttl, phones[..i], requestId, outside), ttl, phones[i], requestId, outside, i)
  }

  /** What one recipient's outcome means for its slot, given the slots before the call. */
  predicate Explained(d: Delivery, ttl: int, before: Slots.Items, after: Slots.Items, phone: string, requestId: string,
                      now: int) {
    match d
    case UnsupportedRegion => Runs.SlotOf(after, phone) == Runs.SlotOf(before, phone)
    case Blocked(holder) =>
      && Slots.Busy(before, ttl, phone, now) && holder == before[phone].requestId
      && Runs.SlotOf(after, phone) == Runs.SlotOf(before, phone)
    case Attempted(SendFailed(_)) => !Slots.Busy(before, ttl, phone, now) && phone !in after
    case Attempted(_) =>
      !Slots.Busy(before, ttl, phone, now) && Runs.SlotOf(after, phone) == Some(Slots.Entry(requestId, now))
  }

  /** One turn of the loop, when nothing else runs meanwhile. */
  method DeliverTo(set_: Slots.PendingSet, phone: string, requestId: string, outside: Outside, i: nat, ghost a: Runs.Adapter)
    returns (d: Delivery)
    requires a.slots == set_.View() && a.tailer.Idle?
    modifies set_
    ensures
      var b := Turn(a, set_.ttl, phone, requestId, outside, i);
      b.slots == set_.View() && b.tailer.Idle?
    ensures Explained(d, set_.ttl, old(set_.items), set_.items, phone, requestId, outside.clock(2 * i))
    ensures d.UnsupportedRegion? <==> !outside.allowed(phone)
    ensures d.Attempted? ==> d.result == outside.send(phone)
    ensures forall other :: other != phone ==> Runs.SlotOf(set_.items, other) == old(Runs.SlotOf(set_.items, other))
  {
    if !outside.allowed(phone) {
      set_.Write("unsupported_region");
      return UnsupportedRegion;
    }
    var now := outside.clock(2 * i);
    var claimed := ClaimSlot(set_, phone, requestId, now, a);
    if !claimed {
      return Blocked(set_.items[phone].requestId);
    }
    var result := outside.send(phone);
    EndSend(set_, phone, result, outside.clock(2 * i + 1), Runs.Do(a, set_.ttl, Runs.Deliver(phone, requestId, now)));
    return Attempted(result);
  }

  /**
   Recipients are distinct, so each one's outcome is explained by the slots as they were before the
   call; in particular a recipient is only ever blocked by a slot that was taken before it.
   */
  method HandlePending(set_: Slots.PendingSet, policy: Approvers.Policy, requester: string, requestId: string,
                       outside: Outside, ghost a: Runs.Adapter)
    returns (recipients: seq<string>, out: seq<Delivery>)
    requires a.slots == set_.View() && a.tailer.Idle?
    modifies set_
    ensures recipients == Approvers.Recipients(policy, requester) && |out| == |recipients|
    ensures set_.View() == (if recipients == [] then Runs.Do(a, set_.ttl, Runs.OtherRow("sms_routing_empty"))
                            else Turns(a, set_.ttl, recipients, requestId, outside)).slots
    ensures forall i :: 0 <= i < |out| ==>
              Explained(out[i], set_.ttl, old(set_.items), set_.items, recipients[i], requestId, outside.clock(2 * i))
    ensures forall phone :: phone !in recipients ==> Runs.SlotOf(set_.items, phone) == old(Runs.SlotOf(set_.items, phone))
    ensures forall i :: 0 <= i < |out| ==>
              (out[i] == Blocked(requestId) <==>
               && outside.allowed(recipients[i])
               && Slots.Busy(old(set_.items), set_.ttl, recipients[i], outside.clock(2 * i))
               && old(set_.items)[recipients[i]].requestId == requestId)
  {
    out := [];
    recipients := Approvers.LookupRecipients(policy, requester);
    if |recipients| == 0 {
      set_.Write("sms_routing_empty");
      return;
    }
    out := DeliverAll(set_, recipients, requestId, outside, a);
    assert recipients[..|out|] == recipients;
  }

  /** The loop. */
  method DeliverAll(set_: Slots.PendingSet, recipients: seq<string>, requestId: string, outside: Outside, ghost a: Runs.Adapter)
    returns (out: seq<Delivery>)
    requires forall i, j :: 0 <= i < j < |recipients| ==> recipients[i] != recipients[j]
    requires a.slots == set_.View() && a.tailer.Idle?
    modifies set_
    ensures |out| == |recipients|
    ensures set_.View() == Turns(a, set_.ttl, recipients, requestId, outside).slots
    ensures AllExplained(out, set_.ttl, old(set_.items), set_.items, recipients, requestId, outside)
  {
    out := [];
    ghost var before := set_.items;
    for i := 0 to |recipients|
      invariant |out| == i
      invariant var b := Turns(a, set_.ttl, recipients[..i], requestId, outside); b.slots == set_.View() && b.tailer.Idle?
      invariant AllExplained(out, set_.ttl, before, set_.items, recipients, requestId, outside)
    {
      TurnsSnoc(a, set_.ttl, recipients, i, requestId, outside);
      ghost var mid := set_.items;
      var d := DeliverTo(set_, recipients[i], requestId, outside, i,
                         Turns(a, set_.ttl, recipients[..i], requestId, outside));
      OneMoreExplained(out, d, set_.ttl, before, mid, set_.items, recipients, requestId, outside);
      out := out + [d];
    }
    assert recipients[..|recipients|] == recipients;
  }

  lemma TurnsSnoc(a: Runs.Adapter, ttl: int, phones: seq<string>, i: nat, requestId: string, outside: Outside)
    requires i < |phones|
    ensures Turns(a, ttl, phones[..i + 1], requestId, outside) ==
            Turn(Turns(a, ttl, phones[..i], requestId, outside), ttl, phones[i], requestId, outside, i)
  {
    assert phones[..i + 1][..i] == phones[..i];
  }

  /** The outcomes so far are explained, and the phones not yet reached have the slots they had. */
  ghost predicate AllExplained(out: seq<Delivery>, ttl: int, before: Slots.Items, after: Slots.Items, phones: seq<string>,
                               requestId: string, outside: Outside)
    requires |out| <= |phones|
  {
    && (forall i :: 0 <= i < |out| ==> Explained(out[i], ttl, before, after, phones[i], requestId, outside.clock(2 * i)))
    && (forall i :: 0 <= i < |out| ==> (out[i].UnsupportedRegion? <==> !outside.allowed(phones[i])))
    && (forall phone :: phone !in phones[..|out|] ==> Runs.SlotOf(after, phone) == Runs.SlotOf(before, phone))
  }

  lemma OneMoreExplained(out: seq<Delivery>, d: Delivery, ttl: int, before: Slots.Items, mid: Slots.Items, after: Slots.Items,
                         phones: seq<string>, requestId: string, outside: Outside)
    requires |out| < |phones| && (forall i, j :: 0 <= i < j < |phones| ==> phones[i] != phones[j])
    requires AllExplained(out, ttl, before, mid, phones, requestId, outside)
    requires Explained(d, ttl, mid, after, phones[|out|], requestId, outside.clock(2 * |out|))
    requires d.UnsupportedRegion? <==> !outside.allowed(phones[|out|])
    requires forall other :: other != phones[|out|] ==> Runs.SlotOf(after, other) == Runs.SlotOf(mid, other)
    ensures AllExplained(out + [d], ttl, before, after, phones, requestId, outside)
  {
    var n := |out|;
    assert phones[n] !in phones[..n];
    SlotDecides(d, ttl, mid, before, after, phones[n], requestId, outside.clock(2 * n));
    forall i | 0 <= i < n + 1
      ensures Explained((out + [d])[i], ttl, before, after, phones[i], requestId, outside.clock(2 * i))
    {
      if i < n {
        SlotDecidesAfter(out[i], ttl, before, mid, after, phones[i], requestId, outside.clock(2 * i));
      }
    }
    forall phone | phone !in phones[..n + 1] ensures Runs.SlotOf(after, phone) == Runs.SlotOf(before, phone) {
      assert phones[..n + 1] == phones[..n] + [phones[n]];
    }
  }

  lemma SlotDecides(d: Delivery, ttl: int, a: Slots.Items, b: Slots.Items, after: Slots.Items, phone: string,
                    requestId: string, now: int)
    requires Runs.SlotOf(a, phone) == Runs.SlotOf(b, phone) && Explained(d, ttl, a, after, phone, requestId, now)
    ensures Explained(d, ttl, b, after, phone, requestId, now)
  {
  }

  lemma SlotDecidesAfter(d: Delivery, ttl: int, before: Slots.Items, a: Slots.Items, b: Slots.Items, phone: string,
                         requestId: string, now: int)
    requires Runs.SlotOf(a, phone) == Runs.SlotOf(b, phone) && Explained(d, ttl, before, a, phone, requestId, now)
    ensures Explained(d, ttl, before, b, phone, requestId, now)
  {
  }

  // ----- Replies -----

  datatype BrokerCall = BrokerCall(approve: bool, requestId: string)

  /** A reply with what the network answers it: the check, the broker, and four clock readings. */
  datatype Inbound = Inbound(from: string, intent: Runs.Intent, approved: bool, brokerOk: bool, t: (int, int, int, int))

  // The two critical sections of a handler.

  method BindReply(set_: Slots.PendingSet, from: string, intent: Runs.Intent, now: int, ghost thread: nat, ghost a: Runs.Adapter)
    returns (requestId: Option<string>)
    requires a.slots == set_.View() && thread !in a.handlers
    modifies set_
    ensures
      var b := Runs.Do(a, set_.ttl, Runs.Reply(thread, from, intent, now));
      && b.slots == set_.View()
      && b.handlers == (if requestId.None? then a.handlers
                        else a.handlers[thread := Runs.Handler(from, requestId.value, intent.ApproveIntent?, |a.trace|, Runs.Resolved)])
    ensures requestId == if !intent.Unknown? && Slots.Busy(old(set_.items), set_.ttl, from, now)
                         then Some(old(set_.items)[from].requestId) else None
    ensures requestId.Some? ==> set_.items == old(set_.items) && set_.audit == old(set_.audit)
    ensures requestId.None? ==>
              && set_.items == (if intent.Unknown? then old(set_.items) else old(set_.items) - {from})
              && |set_.audit| > |old(set_.audit)| && set_.audit[|set_.audit| - 1] == Slots.Unrelated("verify_unbound_reply")
  {
    if intent.Unknown? {
      set_.Write("verify_unbound_reply");
      return None;
    }
    requestId := set_.Resolve(from, now);
    if requestId.None? {
      set_.Write("verify_unbound_reply");
    }
  }

  method FinishReply(set_: Slots.PendingSet, from: string, approve: bool, now: int, ghost thread: nat, ghost a: Runs.Adapter)
    requires a.slots == set_.View() && thread in a.handlers
    requires var h := a.handlers[thread]; h.phase.Agreed? && h.phone == from && h.approve == approve
    modifies set_
    ensures Runs.Do(a, set_.ttl, Runs.Finish(thread, now)).slots == set_.View()
    ensures set_.items == old(set_.items) - {from}
    ensures |set_.audit| > |old(set_.audit)|
            && set_.audit[|set_.audit| - 1] == Slots.Unrelated(if approve then "sms_approval_consumed" else "sms_denial_consumed")
  {
    set_.Release(from, now);
    set_.Write(Runs.ConsumedRow(approve));
  }

  /** The steps of one handler; those that do not apply to this reply change nothing. */
  ghost function Handled(a: Runs.Adapter, ttl: int, thread: nat, r: Inbound): Runs.Adapter {
    Runs.Do(BeforeFinish(a, ttl, thread, r), ttl, Runs.Finish(thread, r.t.3))
  }

  ghost function BeforeFinish(a: Runs.Adapter, ttl: int, thread: nat, r: Inbound): Runs.Adapter {
    var b := Runs.Do(a, ttl, Runs.Reply(thread, r.from, r.intent, r.t.0));
    var c := Runs.Do(b, ttl, Runs.Check(thread, r.approved, r.t.1));
    Runs.Do(c, ttl, Runs.Review(thread, r.brokerOk, r.t.2))
  }

  /** What a reply bound to this request adds to a trace of length `n`. */
  ghost function EffectsOf(r: Inbound, requestId: string, n: nat): seq<Runs.Effect> {
    [Runs.Bound(r.from, requestId, r.t.0)]
    + (if r.intent.ApproveIntent? then [Runs.Checked(r.from, r.approved, n, r.t.1)] else [])
    + (if r.intent.ApproveIntent? && !r.approved then []
       else [Runs.Reviewed(r.from, r.intent.ApproveIntent?, requestId, n, if r.intent.ApproveIntent? then n + 1 else n, r.t.2)]
            + if r.brokerOk then [Runs.Freed(r.from, requestId, r.t.3)] else [])
  }

  /** What it leaves of the slots. */
  ghost function SlotsAfter(s: Slots.Slots, r: Inbound): Slots.Slots {
    if r.intent.ApproveIntent? && !r.approved then s.(audit := s.audit + [Slots.Unrelated("verify_check_rejected")])
    else if !r.brokerOk then s
    else
      var freed := Slots.Free(s, r.from, r.t.3);
      freed.(audit := freed.audit + [Slots.Unrelated(Runs.ConsumedRow(r.intent.ApproveIntent?))])
  }

  lemma NoHandlerNoStep(a: Runs.Adapter, ttl: int, thread: nat, r: Inbound)
    requires thread !in a.handlers
    ensures Runs.Do(a, ttl, Runs.Check(thread, r.approved, r.t.1)) == a
    ensures Runs.Do(a, ttl, Runs.Review(thread, r.brokerOk, r.t.2)) == a
    ensures Runs.Do(a, ttl, Runs.Finish(thread, r.t.3)) == a
  {
  }

  lemma ReviewThenFinish(a: Runs.Adapter, ttl: int, thread: nat, r: Inbound, h: Runs.Handler)
    requires thread in a.handlers && a.handlers[thread] == h && h.phone == r.from
    requires if h.approve then h.phase.Cleared? else h.phase.Resolved?
    requires r.from in a.slots.items && a.slots.items[r.from].requestId == h.requestId
    ensures
      var c := Runs.Do(a, ttl, Runs.Review(thread, r.brokerOk, r.t.2));
      var d := Runs.Do(c, ttl, Runs.Finish(thread, r.t.3));
      var freed := Slots.Free(a.slots, r.from, r.t.3);
      && d.tailer == a.tailer && d.handlers == a.handlers - {thread}
      && d.slots == (if r.brokerOk then freed.(audit := freed.audit + [Slots.Unrelated(Runs.ConsumedRow(h.approve))])
                     else a.slots)
      && d.trace == a.trace
                    + [Runs.Reviewed(r.from, h.approve, h.requestId, h.bound, if h.approve then h.phase.check else h.bound, r.t.2)]
                    + if r.brokerOk then [Runs.Freed(r.from, h.requestId, r.t.3)] else []
  {
    var c := Runs.Do(a, ttl, Runs.Review(thread, r.brokerOk, r.t.2));
    if !r.brokerOk {
      NoHandlerNoStep(c, ttl, thread, r);
    }
  }

  lemma AgreedBeforeFinish(a: Runs.Adapter, ttl: int, thread: nat, r: Inbound)
    requires thread !in a.handlers && !r.intent.Unknown? && Slots.Busy(a.slots.items, ttl, r.from, r.t.0)
    requires r.brokerOk && (r.intent.ApproveIntent? ==> r.approved)
    ensures
      var d := BeforeFinish(a, ttl, thread, r);
      && d.slots == a.slots && thread in d.handlers
      && var h := d.handlers[thread]; h.phase.Agreed? && h.phone == r.from && h.approve == r.intent.ApproveIntent?
  {
    var b := Runs.Do(a, ttl, Runs.Reply(thread, r.from, r.intent, r.t.0));
    var c := Runs.Do(b, ttl, Runs.Check(thread, r.approved, r.t.1));
    assert c.slots == a.slots && thread in c.handlers;
  }

  lemma HandledBound(a: Runs.Adapter, ttl: int, thread: nat, r: Inbound)
    requires thread !in a.handlers && !r.intent.Unknown? && Slots.Busy(a.slots.items, ttl, r.from, r.t.0)
    ensures
      var b := Handled(a, ttl, thread, r);
      && b.slots == SlotsAfter(a.slots, r) && b.handlers == a.handlers && b.tailer == a.tailer
      && b.trace == a.trace + EffectsOf(r, a.slots.items[r.from].requestId, |a.trace|)
  {
    var requestId := a.slots.items[r.from].requestId;
    var b := Runs.Do(a, ttl, Runs.Reply(thread, r.from, r.intent, r.t.0));
    var c := Runs.Do(b, ttl, Runs.Check(thread, r.approved, r.t.1));
    if r.intent.ApproveIntent? && !r.approved {
      NoHandlerNoStep(c, ttl, thread, r);
      assert c.handlers == a.handlers;
    } else {
      ReviewThenFinish(c, ttl, thread, r, c.handlers[thread]);
      assert c.handlers - {thread} == a.handlers;
    }
  }

  lemma HandledUnbound(a: Runs.Adapter, ttl: int, thread: nat, r: Inbound)
    requires thread !in a.handlers && (r.intent.Unknown? || !Slots.Busy(a.slots.items, ttl, r.from, r.t.0))
    ensures
      var b, s := Handled(a, ttl, thread, r), if r.intent.Unknown? then a.slots else Slots.Expire(a.slots, ttl, r.from, r.t.0);
      && b.slots == s.(audit := s.audit + [Slots.Unrelated("verify_unbound_reply")])
      && b.handlers == a.handlers && b.tailer == a.tailer && a.trace <= b.trace
      && forall e :: e in b.trace[|a.trace|..] ==> e.Lapsed?
  {
    NoHandlerNoStep(Runs.Do(a, ttl, Runs.Reply(thread, r.from, r.intent, r.t.0)), ttl, thread, r);
  }

  /** The handler when nothing else runs meanwhile; `effects` is what it adds to the trace. */
  method HandleInboundReply(set_: Slots.PendingSet, r: Inbound, ghost thread: nat, ghost a: Runs.Adapter)
    returns (called: Option<BrokerCall>, ghost effects: seq<Runs.Effect>)
    requires a.slots == set_.View() && thread !in a.handlers
    modifies set_
    ensures
      var b := Handled(a, set_.ttl, thread, r);
      b.slots == set_.View() && b.trace == a.trace + effects && b.handlers == a.handlers && b.tailer == a.tailer
    ensures called.Some? <==>
              !r.intent.Unknown? && Slots.Busy(old(set_.items), set_.ttl, r.from, r.t.0)
              && (r.intent.ApproveIntent? ==> r.approved)
    ensures called.Some? ==> called.value == BrokerCall(r.intent.ApproveIntent?, old(set_.items)[r.from].requestId)
    ensures set_.items == if !r.intent.Unknown? && ((called.Some? && r.brokerOk) || !Slots.Busy(old(set_.items), set_.ttl, r.from, r.t.0))
                          then old(set_.items) - {r.from} else old(set_.items)
    ensures called.Some? <==> exists e :: e in effects && e.Reviewed?
    ensures forall e :: e in effects && e.Reviewed? ==>
              called == Some(BrokerCall(e.approve, e.requestId)) && e.phone == r.from && e.bound == |a.trace|
  {
    called := None;
    var requestId := BindReply(set_, r.from, r.intent, r.t.0, thread, a);
    if requestId.None? {
      HandledUnbound(a, set_.ttl, thread, r);
      effects := Handled(a, set_.ttl, thread, r).trace[|a.trace|..];
      return;
    }
    HandledBound(a, set_.ttl, thread, r);
    effects := EffectsOf(r, requestId.value, |a.trace|);
    ReviewedEffects(r, requestId.value, |a.trace|);
    if r.intent.ApproveIntent? && !r.approved {
      set_.Write("verify_check_rejected");
      return;
    }
    called := Some(BrokerCall(r.intent.ApproveIntent?, requestId.value));
    if !r.brokerOk {
      return;
    }
    AgreedBeforeFinish(a, set_.ttl, thread, r);
    FinishReply(set_, r.from, r.intent.ApproveIntent?, r.t.3, thread, BeforeFinish(a, set_.ttl, thread, r));
  }

  lemma ReviewedEffects(r: Inbound, requestId: string, n: nat)
    ensures (exists e :: e in EffectsOf(r, requestId, n) && e.Reviewed?) <==> (r.intent.ApproveIntent? ==> r.approved)
    ensures forall e :: e in EffectsOf(r, requestId, n) && e.Reviewed? ==>
              e.approve == r.intent.ApproveIntent? && e.requestId == requestId && e.phone == r.from && e.bound == n
  {
    if r.intent.ApproveIntent? ==> r.approved {
      var k := if r.intent.ApproveIntent? then 2 else 1;
      assert EffectsOf(r, requestId, n)[k].Reviewed?;
    }
  }
}

/** What names a request that the CA took under submission, whatever becomes of it later. */
module IssuancePending {
  import opened Prelude
  import opened OrderTable
  import opened IssuanceProtocol

  /** The marker on its order, or the audit row. */
  ghost predicate PendingNamed(orders: Orders, events: set<Event>, o: OrderId, r: ReqId) {
    (o in orders && orders[o].pendingReq == Some(r)) || PendingAudit(o, r) in events
  }

  ghost predicate NamedNowhere(orders: Orders, events: set<Event>, r: ReqId) {
    forall o :: !PendingNamed(orders, events, o, r)
  }

  ghost predicate MarkersKnown(orders: Orders, ca: map<ReqId, CaRequest>) {
    forall o :: o in orders && orders[o].pendingReq.Some? ==> orders[o].pendingReq.value in ca
  }

  ghost predicate AuditsKnown(events: set<Event>, ca: map<ReqId, CaRequest>) {
    forall e :: e in events && e.PendingAudit? ==> e.req in ca
  }

  /** A worker about to record its request is the only one to know of it. */
  ghost predicate WaiterOk(orders: Orders, events: set<Event>, ca: map<ReqId, CaRequest>, c: CallId, r: ReqId) {
    r in ca && ca[r].caller == c && NamedNowhere(orders, events, r)
  }

  ghost predicate WaitersOk(s: State) {
    forall c {:trigger s.calls[c]} :: c in s.calls && s.calls[c].pc.Pended? ==>
      WaiterOk(s.orders, s.events, s.ca, c, s.calls[c].pc.r)
  }

  ghost predicate PendingInv(s: State) {
    MarkersKnown(s.orders, s.ca) && AuditsKnown(s.events, s.ca) && WaitersOk(s)
  }

  ghost predicate NoWaiter(calls: map<CallId, Call>, r: ReqId) {
    forall c :: c in calls ==> calls[c].pc != Pended(r)
  }

  // --- Steps that have nothing to do with a pending request ---------------------------------

  ghost predicate KeepsRequests(ca: map<ReqId, CaRequest>, after: map<ReqId, CaRequest>) {
    forall r :: r in ca ==> r in after && after[r].caller == ca[r].caller
  }

  ghost predicate KeepsAudits(events: set<Event>, after: set<Event>) {
    events <= after && forall e :: e in after && e.PendingAudit? ==> e in events
  }

  ghost predicate NoNewMarker(orders: Orders, after: Orders) {
    forall o :: o in after && after[o].pendingReq.Some? ==>
      o in orders && orders[o].pendingReq == after[o].pendingReq
  }

  ghost predicate NoNewWaiter(calls: map<CallId, Call>, after: map<CallId, Call>) {
    forall c :: c in after && after[c].pc.Pended? ==> c in calls && calls[c].pc == after[c].pc
  }

  ghost predicate Unrelated(s: State, t: State) {
    && KeepsRequests(s.ca, t.ca) && KeepsAudits(s.events, t.events)
    && NoNewMarker(s.orders, t.orders) && NoNewWaiter(s.calls, t.calls)
  }

  lemma UnrelatedKeeps(s: State, t: State)
    requires PendingInv(s) && Unrelated(s, t)
    ensures PendingInv(t)
  {
    forall c | c in t.calls && t.calls[c].pc.Pended?
      ensures WaiterOk(t.orders, t.events, t.ca, c, t.calls[c].pc.r)
    {
      assert WaiterOk(s.orders, s.events, s.ca, c, s.calls[c].pc.r);
      forall o
        ensures !PendingNamed(t.orders, t.events, o, t.calls[c].pc.r)
      {
        assert !PendingNamed(s.orders, s.events, o, t.calls[c].pc.r);
      }
    }
  }

  lemma FrontIsUnrelated(m: Regime, s: State, a: FrontStep)
    requires FrontEnabled(m, s, a)
    ensures Unrelated(s, FrontNext(m, s, a))
  {
  }

  lemma EvidenceIsUnrelated(m: Regime, s: State, a: BackStep)
    requires BackEnabled(m, s, a)
    requires a.SaveOrphan? || a.NoteOrphan? || a.Record? || a.SaveRejected? || a.NoteRejected?
    ensures Unrelated(s, BackNext(m, s, a))
  {
  }

  lemma TableIsUnrelated(m: Regime, s: State, a: TableStep)
    requires TableEnabled(m, s, a)
    ensures Unrelated(s, TableNext(m, s, a))
  {
  }

  lemma ReclaimIsUnrelated(m: Regime, s: State, a: ReclaimStep)
    requires ReclaimEnabled(m, s, a)
    ensures Unrelated(s, ReclaimNext(m, s, a))
  {
  }

  lemma MutatorIsUnrelated(m: Regime, s: State, a: MutatorStep)
    requires MutatorEnabled(m, s, a)
    ensures Unrelated(s, MutatorNext(m, s, a))
  {
  }

  // --- The two steps of a pending request ------------------------------------------------------

  lemma SubmitKeeps(m: Regime, s: State, c: CallId, r: ReqId, outcome: Outcome)
    requires PendingInv(s) && BackEnabled(m, s, Submit(c, r, outcome))
    ensures PendingInv(DoSubmit(s, c, r, outcome))
  {
    var t := DoSubmit(s, c, r, outcome);
    assert t.orders == s.orders && t.events == s.events;
    forall d | d in t.calls && t.calls[d].pc.Pended?
      ensures WaiterOk(t.orders, t.events, t.ca, d, t.calls[d].pc.r)
    {
      if d != c {
        assert WaiterOk(s.orders, s.events, s.ca, d, s.calls[d].pc.r);
      }
    }
  }

  /** The marker, if it finds its generation, or the audit row: one of them names the request, or nothing does. */
  lemma MarkingNames(s: State, c: CallId, r: ReqId, ok: bool, audited: bool)
    requires PendingInv(s) && At(s, c, Pended(r))
    ensures var k, t := s.calls[c], DoMarkPending(s, c, ok, audited);
            && (PendingNamed(t.orders, t.events, k.order, r) <==>
                ok && (Fires(s.orders, RecordPending(k.order, r, k.generation)) || audited))
            && (forall o :: o != k.order ==> !PendingNamed(t.orders, t.events, o, r))
            && NoWaiter(t.calls, r)
  {
    assert WaiterOk(s.orders, s.events, s.ca, c, r);
    forall d | d in s.calls && d != c
      ensures s.calls[d].pc != Pended(r)
    {
      assert s.calls[d].pc == Pended(r) ==> WaiterOk(s.orders, s.events, s.ca, d, r);
    }
    var t := DoMarkPending(s, c, ok, audited);
    forall o | o != s.calls[c].order
      ensures !PendingNamed(t.orders, t.events, o, r)
    {
      assert !PendingNamed(s.orders, s.events, o, r);
    }
    assert !PendingNamed(s.orders, s.events, s.calls[c].order, r);
  }

  /** Nothing changes for the other requests. */
  lemma MarkingLeavesOthers(s: State, c: CallId, r: ReqId, ok: bool, audited: bool, o: OrderId, q: ReqId)
    requires At(s, c, Pended(r)) && q != r
    ensures var t := DoMarkPending(s, c, ok, audited);
            && (PendingNamed(t.orders, t.events, o, q) ==> PendingNamed(s.orders, s.events, o, q))
            && (PendingAudit(o, q) in t.events <==> PendingAudit(o, q) in s.events)
  {
  }

  lemma MarkingKeeps(s: State, c: CallId, r: ReqId, ok: bool, audited: bool)
    requires PendingInv(s) && At(s, c, Pended(r))
    ensures PendingInv(DoMarkPending(s, c, ok, audited))
  {
    var t := DoMarkPending(s, c, ok, audited);
    assert WaiterOk(s.orders, s.events, s.ca, c, r);
    forall d | d in t.calls && t.calls[d].pc.Pended?
      ensures WaiterOk(t.orders, t.events, t.ca, d, t.calls[d].pc.r)
    {
      assert WaiterOk(s.orders, s.events, s.ca, d, s.calls[d].pc.r);
      forall o
        ensures !PendingNamed(t.orders, t.events, o, t.calls[d].pc.r)
      {
        MarkingLeavesOthers(s, c, r, ok, audited, o, t.calls[d].pc.r);
        assert !PendingNamed(s.orders, s.events, o, t.calls[d].pc.r);
      }
    }
  }

  // --- Every step --------------------------------------------------------------------------------

  lemma BackIsUnrelated(m: Regime, s: State, a: BackStep)
    requires BackEnabled(m, s, a) && !a.Submit? && !a.MarkPending?
    ensures Unrelated(s, BackNext(m, s, a))
  {
    if a.SaveOrphan? || a.NoteOrphan? || a.Record? || a.SaveRejected? || a.NoteRejected? {
      EvidenceIsUnrelated(m, s, a);
    }
  }

  lemma StepIsUnrelated(m: Regime, s: State, a: Action)
    requires Enabled(m, s, a) && !(a.Back? && (a.back.Submit? || a.back.MarkPending?))
    ensures Unrelated(s, Next(m, s, a))
  {
    match a
    case Front(f) => FrontIsUnrelated(m, s, f);
    case Back(b) => BackIsUnrelated(m, s, b);
    case Table(t) => TableIsUnrelated(m, s, t);
    case Reclaiming(q) => ReclaimIsUnrelated(m, s, q);
    case Mutating(u) => MutatorIsUnrelated(m, s, u);
  }

  lemma StepKeepsPending(m: Regime, s: State, a: Action)
    requires PendingInv(s) && Enabled(m, s, a)
    ensures PendingInv(Next(m, s, a))
  {
    if a.Back? && a.back.Submit? {
      SubmitKeeps(m, s, a.back.c, a.back.r, a.back.outcome);
    } else if a.Back? && a.back.MarkPending? {
      MarkingKeeps(s, a.back.c, s.calls[a.back.c].pc.r, a.back.ok, a.back.audited);
    } else {
      StepIsUnrelated(m, s, a);
      UnrelatedKeeps(s, Next(m, s, a));
    }
  }

  /** A request that the CA has and no worker waits for gains no name and keeps its audit row. */
  ghost predicate Settles(s: State, t: State, r: ReqId) {
    && r in t.ca && NoWaiter(t.calls, r)
    && (forall o :: PendingNamed(t.orders, t.events, o, r) ==> PendingNamed(s.orders, s.events, o, r))
    && (forall o :: PendingAudit(o, r) in s.events ==> PendingAudit(o, r) in t.events)
  }

  lemma UnrelatedSettles(s: State, t: State, r: ReqId)
    requires Unrelated(s, t) && r in s.ca && NoWaiter(s.calls, r)
    ensures Settles(s, t, r)
  {
  }

  lemma SubmitSettles(m: Regime, s: State, c: CallId, q: ReqId, outcome: Outcome, r: ReqId)
    requires BackEnabled(m, s, Submit(c, q, outcome)) && r in s.ca && NoWaiter(s.calls, r)
    ensures Settles(s, DoSubmit(s, c, q, outcome), r)
  {
    var t := DoSubmit(s, c, q, outcome);
    assert t.orders == s.orders && t.events == s.events;
  }

  lemma StepSettles(m: Regime, s: State, a: Action, r: ReqId)
    requires Enabled(m, s, a) && r in s.ca && NoWaiter(s.calls, r)
    ensures Settles(s, Next(m, s, a), r)
  {
    if a.Back? && a.back.Submit? {
      SubmitSettles(m, s, a.back.c, a.back.r, a.back.outcome, r);
    } else if !(a.Back? && a.back.MarkPending?) {
      StepIsUnrelated(m, s, a);
      UnrelatedSettles(s, Next(m, s, a), r);
    }
  }

  lemma {:induction false} RunSettles(m: Regime, s: State, actions: seq<Action>, r: ReqId)
    requires Runs(m, s, actions) && r in s.ca && NoWaiter(s.calls, r)
    ensures Settles(s, End(m, s, actions), r)
    decreases actions
  {
    if actions != [] {
      StepSettles(m, s, actions[0], r);
      RunSettles(m, Next(m, s, actions[0]), actions[1..], r);
    }
  }

  lemma {:induction false} RunKeepsPending(m: Regime, s: State, actions: seq<Action>)
    requires PendingInv(s) && Runs(m, s, actions)
    ensures PendingInv(End(m, s, actions))
    decreases actions
  {
    if actions != [] {
      StepKeepsPending(m, s, actions[0]);
      RunKeepsPending(m, Next(m, s, actions[0]), actions[1..]);
    }
  }

  lemma ReachablePending(m: Regime, s: State)
    requires Reachable(m, s)
    ensures PendingInv(s)
  {
    var actions :| Runs(m, Init, actions) && End(m, Init, actions) == s;
    RunKeepsPending(m, Init, actions);
  }

  /**
   A request that the CA took under submission is named if and only if its marker or
   its audit row commits; the marker does so only under the generation of its call.
   */
  lemma PendingIsNamedIffRecorded(m: Regime, s: State, c: CallId, r: ReqId, ok: bool, audited: bool)
    requires Reachable(m, s) && At(s, c, Pended(r))
    ensures var k, t := s.calls[c], DoMarkPending(s, c, ok, audited);
            PendingNamed(t.orders, t.events, k.order, r) <==>
            ok && (Fires(s.orders, RecordPending(k.order, r, k.generation)) || audited)
  {
    ReachablePending(m, s);
    MarkingNames(s, c, r, ok, audited);
  }

  /**
   And so it stays, whether the officer approves it, denies it or never decides: in
   every later state nothing names a request that was not recorded then, and an audit
   row that was written then still names it.
   */
  lemma PendingStaysAsRecorded(m: Regime, s: State, c: CallId, r: ReqId, ok: bool, audited: bool,
                               later: seq<Action>)
    requires Reachable(m, s) && At(s, c, Pended(r)) && Runs(m, DoMarkPending(s, c, ok, audited), later)
    ensures var k, u := s.calls[c], End(m, DoMarkPending(s, c, ok, audited), later);
            && (ok && audited ==> PendingNamed(u.orders, u.events, k.order, r))
            && (!(ok && (Fires(s.orders, RecordPending(k.order, r, k.generation)) || audited)) ==>
                  NamedNowhere(u.orders, u.events, r))
  {
    var k, t := s.calls[c], DoMarkPending(s, c, ok, audited);
    ReachablePending(m, s);
    MarkingNames(s, c, r, ok, audited);
    assert WaiterOk(s.orders, s.events, s.ca, c, r);
    RunSettles(m, t, later, r);
    assert ok && audited ==> PendingAudit(k.order, r) in t.events;
  }
}

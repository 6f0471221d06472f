/** The lease invariant, action by action, and over every run. */
module IssuanceLeaseSteps {
  import opened Prelude
  import opened OrderTable
  import opened IssuanceProtocol
  import opened IssuanceInvariant
  import opened IssuanceLeases
  import Registry = IssuanceRegistry

  // --- Orders ----------------------------------------------------------------------

  lemma CreateOrderKeeps(m: Regime, s: State, o: OrderId, a: AccountId)
    requires LeaseInv(m, s) && o !in s.orders
    ensures LeaseInv(m, WriteOrders(s, Create(o, a)))
  {
    var t := WriteOrders(s, Create(o, a));
    forall c | c in s.calls
      ensures CallOk(m, t.orders, s.ca, s.certs, c, s.calls[c])
    {
      assert CallOk(m, s.orders, s.ca, s.certs, c, s.calls[c]);
    }
    forall r | r in s.ca
      ensures RequestOk(t.orders, s.ca[r]) && (!m.truthful ==> MarkerOk(t.orders, s.calls, r, s.ca[r]))
    {
      assert RequestOk(s.orders, s.ca[r]) && (!m.truthful ==> MarkerOk(s.orders, s.calls, r, s.ca[r]));
    }
    forall k | k in s.reclaims
      ensures ReclaimOk(m, t.orders, s.ca, s.reclaims[k])
    {
      assert ReclaimOk(m, s.orders, s.ca, s.reclaims[k]);
    }
  }

  /** Validation and expiry touch open orders only. */
  lemma OpenWriteKeeps(m: Regime, s: State, w: Write)
    requires LeaseInv(m, s) && (w.PendingToReady? || w.ActiveToInvalid?)
    ensures LeaseInv(m, WriteOrders(s, w))
  {
    if Fires(s.orders, w) {
      OpenOrderIsFree(m, s, w.id);
    }
    WriteKeeps(m, s, w);
  }

  /** Revocation, the reconciliation and the reclaim to valid need a recorded certificate. */
  lemma RecordedWriteKeeps(m: Regime, s: State, w: Write)
    requires LeaseInv(m, s) && w.id in s.certs
    requires w.ToRevoked? || w.ProcessingToValid? || w.QuarantineFlip? || (w.ReclaimOrder? && w.toValid.Some?)
    ensures LeaseInv(m, WriteOrders(s, w))
  {
    RowExcludesOwners(m, s, w.id);
    forall r | r in s.ca
      ensures !Waits(s.ca, r, w.id)
    {
      RowExcludesWaiting(m, s, w.id, r);
    }
    WriteKeeps(m, s, w);
  }

  lemma MarkersIgnoreOthers(m: Regime, orders: Orders, calls: map<CallId, Call>, ca: map<ReqId, CaRequest>,
                            c: CallId, k: Call)
    requires MarkersOk(m, orders, calls, ca) && c in calls && !calls[c].pc.Pended?
    ensures MarkersOk(m, orders, calls[c := k], ca)
  {
    if !m.truthful {
      forall r | r in ca
        ensures MarkerOk(orders, calls[c := k], r, ca[r])
      {
        assert MarkerOk(orders, calls, r, ca[r]);
      }
    }
  }

  // --- The finalize call --------------------------------------------------------------

  lemma BeginKeepsMarkers(m: Regime, orders: Orders, calls: map<CallId, Call>, ca: map<ReqId, CaRequest>,
                          c: CallId, k: Call)
    requires MarkersOk(m, orders, calls, ca) && c !in calls
    ensures MarkersOk(m, orders, calls[c := k], ca)
  {
    if !m.truthful {
      forall r | r in ca
        ensures MarkerOk(orders, calls[c := k], r, ca[r])
      {
        assert MarkerOk(orders, calls, r, ca[r]);
      }
    }
  }

  lemma BeginKeeps(m: Regime, s: State, c: CallId, o: OrderId, key: Key)
    requires LeaseInv(m, s) && c !in s.calls && o in s.orders
    ensures LeaseInv(m, FrontNext(m, s, Begin(c, o, key)))
  {
    var k := Call(o, s.orders[o].account, key, 0, Marked, Present);
    assert CallOk(m, s.orders, s.ca, s.certs, c, k);
    BeginKeepsMarkers(m, s.orders, s.calls, s.ca, c, k);
    forall q | q in s.reclaims
      ensures s.reclaims[q].generation >= 1
    {
      assert ReclaimOk(m, s.orders, s.ca, s.reclaims[q]);
    }
  }

  lemma ExitKeeps(m: Regime, s: State, c: CallId)
    requires LeaseInv(m, s) && At(s, c, Exiting)
    ensures LeaseInv(m, s.(calls := s.calls - {c}))
  {
    if !m.truthful {
      forall r | r in s.ca
        ensures MarkerOk(s.orders, s.calls - {c}, r, s.ca[r])
      {
        assert MarkerOk(s.orders, s.calls, r, s.ca[r]);
      }
    }
  }

  /** A fresh lease on an order that nobody owns and nothing is live for. */
  lemma FreshLeaseKeepsCall(m: Regime, orders: Orders, ca: map<ReqId, CaRequest>, certs: map<OrderId, CertRow>,
                            o: OrderId, d: CallId, k: Call)
    requires o in orders && orders[o].status == Ready
    requires CallOk(m, orders, ca, certs, d, k)
    ensures CallOk(m, Apply(orders, AcquireLease(o)), ca, certs, d, k)
    ensures k.order == o ==> k.generation < Apply(orders, AcquireLease(o))[o].generation
  {
  }

  lemma FreshLeaseKeepsTables(m: Regime, s: State, o: OrderId)
    requires LeaseInv(m, s) && o in s.orders && s.orders[o].status == Ready
    ensures var orders := Apply(s.orders, AcquireLease(o));
            && OrdersOk(orders) && RequestsOk(orders, s.ca)
            && ReclaimsOk(m, orders, s.ca, s.reclaims) && MarkersOk(m, orders, s.calls, s.ca)
  {
    var orders := Apply(s.orders, AcquireLease(o));
    OpenOrderIsFree(m, s, o);
    forall r | r in s.ca
      ensures RequestOk(orders, s.ca[r]) && (!m.truthful ==> MarkerOk(orders, s.calls, r, s.ca[r]))
    {
      assert RequestOk(s.orders, s.ca[r]) && (!m.truthful ==> MarkerOk(s.orders, s.calls, r, s.ca[r]));
      assert !Live(s.ca, r, o);
    }
    forall k | k in s.reclaims
      ensures ReclaimOk(m, orders, s.ca, s.reclaims[k])
    {
      assert ReclaimOk(m, s.orders, s.ca, s.reclaims[k]);
    }
  }

  lemma LeasedCallOk(m: Regime, s: State, c: CallId)
    requires LeaseInv(m, s) && c in s.calls && s.calls[c].order in s.orders
    requires s.orders[s.calls[c].order].status == Ready
    ensures var k := s.calls[c];
            CallOk(m, Apply(s.orders, AcquireLease(k.order)), s.ca, s.certs, c,
                   k.(generation := s.orders[k.order].generation + 1, pc := Leased))
  {
    var o := s.calls[c].order;
    OpenOrderIsFree(m, s, o);
    forall r | r in s.ca && s.ca[r].order == o
      ensures s.ca[r].generation <= s.orders[o].generation
    {
      assert RequestOk(s.orders, s.ca[r]);
    }
  }

  lemma FreshLeaseIsUnique(m: Regime, s: State, c: CallId, k: Call)
    requires LeaseInv(m, s) && c in s.calls && k.order == s.calls[c].order
    requires k.order in s.orders && k.generation == s.orders[k.order].generation + 1
    ensures LeasesUnique(s.calls[c := k]) && ReclaimsApart(m, s.calls[c := k], s.reclaims)
  {
    forall d | d in s.calls && s.calls[d].order == k.order
      ensures s.calls[d].generation < k.generation
    {
      assert CallOk(m, s.orders, s.ca, s.certs, d, s.calls[d]);
    }
    forall q | q in s.reclaims && s.reclaims[q].order == k.order
      ensures s.reclaims[q].generation < k.generation
    {
      assert ReclaimOk(m, s.orders, s.ca, s.reclaims[q]);
    }
  }

  lemma LeaseWonKeeps(m: Regime, s: State, c: CallId)
    requires LeaseInv(m, s) && At(s, c, Marked) && Fires(s.orders, AcquireLease(s.calls[c].order))
    ensures LeaseInv(m, DoTakeLease(s, c, true))
  {
    var o := s.calls[c].order;
    var orders := Apply(s.orders, AcquireLease(o));
    var k := AfterAcquire(s.orders, s.calls[c], true);
    FreshLeaseKeepsTables(m, s, o);
    LeasedCallOk(m, s, c);
    FreshLeaseIsUnique(m, s, c, k);
    forall d | d in s.calls && d != c
      ensures CallOk(m, orders, s.ca, s.certs, d, s.calls[d])
    {
      FreshLeaseKeepsCall(m, s.orders, s.ca, s.certs, o, d, s.calls[d]);
    }
    MarkersIgnoreOthers(m, orders, s.calls, s.ca, c, k);
  }

  lemma TakeLeaseKeeps(m: Regime, s: State, c: CallId, ok: bool)
    requires LeaseInv(m, s) && At(s, c, Marked)
    ensures LeaseInv(m, DoTakeLease(s, c, ok))
  {
    if ok && Fires(s.orders, AcquireLease(s.calls[c].order)) {
      LeaseWonKeeps(m, s, c);
    } else {
      MoveReaches(m, s, c, DoTakeLease(s, c, ok));
    }
  }

  /** A call past its ownership writes the row of its own order, if the store lets it. */
  lemma OwnWriteKeeps(m: Regime, t: State, c: CallId, w: Write, ok: bool)
    requires LeaseInv(m, t) && c in t.calls && BenignWrite(m, t, w)
    ensures LeaseInv(m, t.(orders := Attempt(t.orders, w, ok)))
  {
    if ok {
      WriteKeeps(m, t, w);
    }
  }

  /** Giving the lease back, having issued nothing. */
  lemma RevertKeeps(m: Regime, s: State, c: CallId, pc: Pc, ok: bool)
    requires LeaseInv(m, s) && c in s.calls && (Before(s.calls[c].pc) || s.calls[c].pc.RequestDenied?)
    requires pc == Releasing || pc == Exiting
    ensures LeaseInv(m, DoRevert(s, c, pc, ok))
  {
    var t := Goto(s, c, pc);
    var w := ProcessingToReady(s.calls[c].order, Some(s.calls[c].generation));
    MoveReaches(m, s, c, t);
    assert CallOk(m, s.orders, s.ca, s.certs, c, s.calls[c]);
    OwnWriteKeeps(m, t, c, w, ok);
    assert DoRevert(s, c, pc, ok) == t.(orders := Attempt(t.orders, w, ok));
  }

  lemma CloseOrphanKeeps(m: Regime, s: State, c: CallId, ok: bool)
    requires LeaseInv(m, s) && At(s, c, OrphanNoted)
    ensures LeaseInv(m, DoCloseOrphan(s, c, ok))
  {
    var t := Goto(s, c, Releasing);
    var w := ProcessingToInvalid(s.calls[c].order, Some(s.calls[c].generation));
    MoveReaches(m, s, c, t);
    assert CallOk(m, s.orders, s.ca, s.certs, c, s.calls[c]);
    OwnWriteKeeps(m, t, c, w, ok);
    assert DoCloseOrphan(s, c, ok) == t.(orders := Attempt(t.orders, w, ok));
  }

  /** Writing the marker: only the latest lease can, and only for its own request. */
  lemma MarkerIsBenign(m: Regime, s: State, c: CallId, w: Write)
    requires LeaseInv(m, s) && c in s.calls && s.calls[c].pc.Pended?
    requires w == RecordPending(s.calls[c].order, s.calls[c].pc.r, s.calls[c].generation)
    ensures BenignWrite(m, s, w)
  {
    var k := s.calls[c];
    assert CallOk(m, s.orders, s.ca, s.certs, c, k);
    if Fires(s.orders, w) {
      forall r | r in s.ca && Live(s.ca, r, k.order)
        ensures r == k.pc.r
      {
        assert RequestOk(s.orders, s.ca[r]);
      }
      if s.orders[k.order].status == Ready || s.orders[k.order].status == Pending {
        OpenOrderIsFree(m, s, k.order);
      }
    }
  }

  lemma MarkPendingKeeps(m: Regime, s: State, c: CallId, ok: bool, audited: bool)
    requires Safe(m) && LeaseInv(m, s) && BackEnabled(m, s, MarkPending(c, ok, audited))
    ensures LeaseInv(m, DoMarkPending(s, c, ok, audited))
  {
    if ok {
      var k := s.calls[c];
      var w := RecordPending(k.order, k.pc.r, k.generation);
      MarkerIsBenign(m, s, c, w);
      WriteKeeps(m, s, w);
      MoveReaches(m, WriteOrders(s, w), c, DoMarkPending(s, c, ok, audited));
    } else {
      MoveReaches(m, s, c, DoMarkPending(s, c, ok, audited));
    }
  }

  // --- The CA -------------------------------------------------------------------------

  /** The only step that makes a request, and why it is the first live one. */
  lemma SubmitIsFirst(m: Regime, s: State, c: CallId, r: ReqId, outcome: Outcome)
    requires Safe(m) && LeaseInv(m, s) && BackEnabled(m, s, Submit(c, r, outcome))
    ensures var k := s.calls[c];
            Holds(s.orders, k.order, k.generation) && NoneLive(s.ca, k.order) && k.order !in s.certs
    ensures Covered(m) ==> forall q :: q in s.reclaims && s.reclaims[q].order == s.calls[c].order ==>
              s.reclaims[q].generation != s.calls[c].generation
    ensures forall d :: d in s.calls && d != c && s.calls[d].order == s.calls[c].order ==>
              s.calls[d].generation != s.calls[c].generation
  {
    var o := s.calls[c].order;
    assert CallOk(m, s.orders, s.ca, s.certs, c, s.calls[c]);
    assert o in s.certs ==> RowOk(s.ca, o, s.certs[o]) && Live(s.ca, s.certs[o].req, o);
  }

  /** A request under a lease that call `d` does not share. */
  lemma ForeignRequestKeepsCall(m: Regime, orders: Orders, ca: map<ReqId, CaRequest>, certs: map<OrderId, CertRow>,
                                r: ReqId, q: CaRequest, d: CallId, k: Call)
    requires CallOk(m, orders, ca, certs, d, k) && r !in ca
    requires Holds(orders, q.order, q.generation)
    requires k.order == q.order ==> k.generation != q.generation
    ensures CallOk(m, orders, ca[r := q], certs, d, k)
  {
  }

  lemma SubmittedCallOk(m: Regime, orders: Orders, ca: map<ReqId, CaRequest>, certs: map<OrderId, CertRow>,
                        c: CallId, k: Call, r: ReqId, outcome: Outcome)
    requires CallOk(m, orders, ca, certs, c, k) && Before(k.pc) && r !in ca
    requires Holds(orders, k.order, k.generation) && NoneLive(ca, k.order) && k.order !in certs
    ensures var d := CaOutcome(outcome);
            var more := if d.Some? then ca[r := CaRequest(k.order, k.generation, c, d.value)] else ca;
            CallOk(m, orders, more, certs, c, k.(pc := PcAfterSubmit(r, outcome)))
  {
  }

  lemma RequestKeepsReclaims(m: Regime, orders: Orders, ca: map<ReqId, CaRequest>, reclaims: map<ReclaimId, Reclaim>,
                             r: ReqId, q: CaRequest)
    requires ReclaimsOk(m, orders, ca, reclaims) && Holds(orders, q.order, q.generation)
    requires Covered(m) ==>
               forall k :: k in reclaims && reclaims[k].order == q.order ==> reclaims[k].generation != q.generation
    ensures ReclaimsOk(m, orders, ca[r := q], reclaims)
  {
    forall k | k in reclaims
      ensures ReclaimOk(m, orders, ca[r := q], reclaims[k])
    {
      assert ReclaimOk(m, orders, ca, reclaims[k]);
    }
  }

  lemma RequestKeepsRows(ca: map<ReqId, CaRequest>, certs: map<OrderId, CertRow>, r: ReqId, q: CaRequest)
    requires RowsOk(ca, certs)
    requires r in ca ==> q == ca[r].(disposition := q.disposition) && (ca[r].disposition == Issued ==> q == ca[r])
    ensures RowsOk(ca[r := q], certs)
  {
    forall o | o in certs
      ensures RowOk(ca[r := q], o, certs[o])
    {
      assert RowOk(ca, o, certs[o]);
    }
  }

  lemma SubmitKeepsRequests(m: Regime, s: State, c: CallId, r: ReqId, outcome: Outcome)
    requires LeaseInv(m, s) && c in s.calls && Before(s.calls[c].pc) && r !in s.ca
    requires Holds(s.orders, s.calls[c].order, s.calls[c].generation)
    requires !m.truthful ==> outcome != Unseen(Undecided)
    ensures var t := DoSubmit(s, c, r, outcome);
            RequestsOk(t.orders, t.ca) && OnePerLease(t.ca) && MarkersOk(m, t.orders, t.calls, t.ca)
  {
    var t := DoSubmit(s, c, r, outcome);
    assert CallOk(m, s.orders, s.ca, s.certs, c, s.calls[c]);
    forall q | q in t.ca
      ensures RequestOk(t.orders, t.ca[q]) && (!m.truthful ==> MarkerOk(t.orders, t.calls, q, t.ca[q]))
    {
      if q in s.ca {
        assert RequestOk(s.orders, s.ca[q]) && (!m.truthful ==> MarkerOk(s.orders, s.calls, q, s.ca[q]));
      }
    }
  }

  lemma SubmitKeeps(m: Regime, s: State, c: CallId, r: ReqId, outcome: Outcome)
    requires Safe(m) && LeaseInv(m, s) && BackEnabled(m, s, Submit(c, r, outcome))
    ensures LeaseInv(m, DoSubmit(s, c, r, outcome))
  {
    var t := DoSubmit(s, c, r, outcome);
    var k := s.calls[c];
    SubmitIsFirst(m, s, c, r, outcome);
    SubmitKeepsRequests(m, s, c, r, outcome);
    assert CallOk(m, s.orders, s.ca, s.certs, c, k);
    SubmittedCallOk(m, s.orders, s.ca, s.certs, c, k, r, outcome);
    if CaOutcome(outcome).Some? {
      forall d | d in s.calls && d != c
        ensures CallOk(m, t.orders, t.ca, t.certs, d, t.calls[d])
      {
        ForeignRequestKeepsCall(m, s.orders, s.ca, s.certs, r, t.ca[r], d, s.calls[d]);
      }
      RequestKeepsReclaims(m, s.orders, s.ca, s.reclaims, r, t.ca[r]);
      RequestKeepsRows(s.ca, s.certs, r, t.ca[r]);
    }
  }

  lemma DecisionKeepsCall(m: Regime, orders: Orders, ca: map<ReqId, CaRequest>, certs: map<OrderId, CertRow>,
                          r: ReqId, disposition: Disposition, d: CallId, k: Call)
    requires CallOk(m, orders, ca, certs, d, k) && r in ca && ca[r].disposition == Undecided
    ensures CallOk(m, orders, ca[r := ca[r].(disposition := disposition)], certs, d, k)
  {
    assert Live(ca, r, ca[r].order);
  }

  lemma DecisionKeepsRequests(m: Regime, orders: Orders, calls: map<CallId, Call>, ca: map<ReqId, CaRequest>,
                              reclaims: map<ReclaimId, Reclaim>, r: ReqId, disposition: Disposition)
    requires RequestsOk(orders, ca) && OnePerLease(ca) && MarkersOk(m, orders, calls, ca)
    requires ReclaimsOk(m, orders, ca, reclaims)
    requires r in ca && ca[r].disposition == Undecided && disposition != Undecided
    ensures var after := ca[r := ca[r].(disposition := disposition)];
            && RequestsOk(orders, after) && OnePerLease(after) && MarkersOk(m, orders, calls, after)
            && ReclaimsOk(m, orders, after, reclaims)
  {
    var after := ca[r := ca[r].(disposition := disposition)];
    forall q | q in after
      ensures RequestOk(orders, after[q]) && (!m.truthful ==> MarkerOk(orders, calls, q, after[q]))
    {
      assert RequestOk(orders, ca[q]) && (!m.truthful ==> MarkerOk(orders, calls, q, ca[q]));
    }
    forall k | k in reclaims
      ensures ReclaimOk(m, orders, after, reclaims[k])
    {
      assert ReclaimOk(m, orders, ca, reclaims[k]);
      assert Live(ca, r, ca[r].order);
    }
  }

  lemma DecideKeeps(m: Regime, s: State, r: ReqId, approve: bool)
    requires LeaseInv(m, s) && TableEnabled(m, s, Decide(r, approve))
    ensures LeaseInv(m, TableNext(m, s, Decide(r, approve)))
  {
    var d := if approve then Issued else Denied;
    forall c | c in s.calls
      ensures CallOk(m, s.orders, s.ca[r := s.ca[r].(disposition := d)], s.certs, c, s.calls[c])
    {
      DecisionKeepsCall(m, s.orders, s.ca, s.certs, r, d, c, s.calls[c]);
    }
    DecisionKeepsRequests(m, s.orders, s.calls, s.ca, s.reclaims, r, d);
    RequestKeepsRows(s.ca, s.certs, r, s.ca[r].(disposition := d));
  }

  // --- Certificate rows -----------------------------------------------------------------

  /** Two calls never carry issued requests of one order. */
  lemma CarriersDiffer(m: Regime, s: State, c: CallId, d: CallId)
    requires LeaseInv(m, s) && c in s.calls && d in s.calls && c != d && s.calls[c].order == s.calls[d].order
    requires Carried(s.calls[c].pc).Some?
    ensures Carried(s.calls[d].pc).None?
  {
    assert CallOk(m, s.orders, s.ca, s.certs, c, s.calls[c]);
    assert CallOk(m, s.orders, s.ca, s.certs, d, s.calls[d]);
  }

  /** The call with the issued request in hand leaves its class and writes the row. */
  lemma RowWriteKeeps(m: Regime, s: State, c: CallId, pc: Pc, status: CertStatus)
    requires LeaseInv(m, s) && c in s.calls && Carried(s.calls[c].pc).Some?
    requires pc == Exiting || pc == OrphanNoted
    ensures var row := CertRow(Carried(s.calls[c].pc).value, status);
            LeaseInv(m, Goto(s, c, pc).(certs := s.certs[s.calls[c].order := row]))
  {
    var o, r := s.calls[c].order, Carried(s.calls[c].pc).value;
    var u := Goto(s, c, pc);
    var t := u.(certs := s.certs[o := CertRow(r, status)]);
    assert CallOk(m, s.orders, s.ca, s.certs, c, s.calls[c]);
    MoveReaches(m, s, c, u);
    forall d | d in t.calls
      ensures CallOk(m, t.orders, t.ca, t.certs, d, t.calls[d])
    {
      assert CallOk(m, u.orders, u.ca, u.certs, d, u.calls[d]);
      assert d != c ==> d in s.calls && s.calls[d] == u.calls[d];
      assert RequestOk(s.orders, s.ca[r]);
      if d != c && u.calls[d].order == o {
        CarriersDiffer(m, s, c, d);
      }
    }
    forall p | p in t.certs
      ensures RowOk(t.ca, p, t.certs[p])
    {
      assert p in s.certs ==> RowOk(s.ca, p, s.certs[p]);
    }
  }

  lemma SavedKeeps(m: Regime, s: State, c: CallId, ok: bool, saved: Pc, unsaved: Pc)
    requires LeaseInv(m, s) && c in s.calls && Carried(s.calls[c].pc).Some?
    requires saved == Exiting || saved == OrphanNoted
    requires QuarantineCommits(s, s.calls[c].order, ok)
    ensures LeaseInv(m, DoSave(s, c, Carried(s.calls[c].pc).value, ok, saved, unsaved))
  {
    var o, r := s.calls[c].order, Carried(s.calls[c].pc).value;
    var t := Goto(s, c, saved).(certs := s.certs[o := CertRow(r, Quarantined)]);
    RowWriteKeeps(m, s, c, saved, Quarantined);
    RecordedWriteKeeps(m, t, QuarantineFlip(o));
    SameTables(m, WriteOrders(t, QuarantineFlip(o)), DoSave(s, c, r, ok, saved, unsaved));
  }

  lemma SaveKeeps(m: Regime, s: State, c: CallId, ok: bool, saved: Pc, unsaved: Pc)
    requires LeaseInv(m, s) && c in s.calls && Carried(s.calls[c].pc).Some?
    requires saved == Exiting || saved == OrphanNoted
    requires Carried(unsaved) == Carried(s.calls[c].pc) && !unsaved.Recording?
    ensures LeaseInv(m, DoSave(s, c, Carried(s.calls[c].pc).value, ok, saved, unsaved))
  {
    if QuarantineCommits(s, s.calls[c].order, ok) {
      SavedKeeps(m, s, c, ok, saved, unsaved);
    } else {
      MoveReaches(m, s, c, DoSave(s, c, Carried(s.calls[c].pc).value, ok, saved, unsaved));
    }
  }

  lemma RecordedKeeps(m: Regime, s: State, c: CallId, unwritable: bool, delivered: bool)
    requires LeaseInv(m, s) && c in s.calls && s.calls[c].pc.Recording?
    requires !s.calls[c].pc.existed && s.calls[c].order !in s.certs
    ensures LeaseInv(m, DoRecord(s, c, true, unwritable, delivered))
  {
    var k := s.calls[c];
    var t := Goto(s, c, Exiting).(certs := s.certs[k.order := CertRow(k.pc.r, Served)]);
    var w := ProcessingToValid(k.order, k.pc.r, Some(k.generation));
    RowWriteKeeps(m, s, c, Exiting, Served);
    RecordedWriteKeeps(m, t, w);
    SameTables(m, WriteOrders(t, w), DoRecord(s, c, true, unwritable, delivered));
  }

  lemma RecordKeeps(m: Regime, s: State, c: CallId, ok: bool, unwritable: bool, delivered: bool)
    requires LeaseInv(m, s) && c in s.calls && s.calls[c].pc.Recording?
    ensures LeaseInv(m, DoRecord(s, c, ok, unwritable, delivered))
  {
    assert CallOk(m, s.orders, s.ca, s.certs, c, s.calls[c]);
    if ok {
      RecordedKeeps(m, s, c, unwritable, delivered);
    } else {
      MoveReaches(m, s, c, DoRecord(s, c, ok, unwritable, delivered));
    }
  }

  lemma ReadExistingKeeps(m: Regime, s: State, c: CallId)
    requires LeaseInv(m, s) && BackEnabled(m, s, ReadExisting(c))
    ensures LeaseInv(m, BackNext(m, s, ReadExisting(c)))
  {
    assert CallOk(m, s.orders, s.ca, s.certs, c, s.calls[c]);
    MoveReaches(m, s, c, BackNext(m, s, ReadExisting(c)));
  }

  lemma RevokeKeeps(m: Regime, s: State, o: OrderId)
    requires LeaseInv(m, s) && TableEnabled(m, s, Revoke(o))
    ensures LeaseInv(m, TableNext(m, s, Revoke(o)))
  {
    var t := WriteOrders(s, ToRevoked(o));
    RecordedWriteKeeps(m, s, ToRevoked(o));
    var certs := t.certs[o := t.certs[o].(status := RevokedCert)];
    forall c | c in t.calls
      ensures CallOk(m, t.orders, t.ca, certs, c, t.calls[c])
    {
      assert CallOk(m, t.orders, t.ca, t.certs, c, t.calls[c]);
    }
    forall p | p in certs
      ensures RowOk(t.ca, p, certs[p])
    {
      assert RowOk(t.ca, p, t.certs[p]);
    }
  }

  // --- Reclaim ------------------------------------------------------------------------------

  lemma ReclaimOpenKeeps(m: Regime, s: State, k: ReclaimId, o: OrderId)
    requires LeaseInv(m, s) && Registry.RegistryInv(m, s) && ReclaimEnabled(m, s, ReclaimOpen(k, o))
    ensures LeaseInv(m, ReclaimNext(m, s, ReclaimOpen(k, o)))
  {
    assert OrderOk(s.orders[o]);
    if Covered(m) {
      Registry.UnmarkedHasNoCall(m, s, o);
    }
  }

  /** A truthful assertion, whichever kind the regime asks for, leaves nothing live. */
  lemma TruthClearsOrder(m: Regime, s: State, k: ReclaimId)
    requires Safe(m) && LeaseInv(m, s) && ReclaimEnabled(m, s, ReclaimAssert(k))
    requires Holds(s.orders, s.reclaims[k].order, s.reclaims[k].generation)
    ensures NoneLive(s.ca, s.reclaims[k].order)
  {
    var q := s.reclaims[k];
    if !m.truthful {
      assert ReclaimOk(m, s.orders, s.ca, q);
      forall r | r in s.ca
        ensures !Live(s.ca, r, q.order)
      {
        assert MarkerOk(s.orders, s.calls, r, s.ca[r]) && RequestOk(s.orders, s.ca[r]);
        if s.ca[r].caller in s.calls {
          assert CallOk(m, s.orders, s.ca, s.certs, s.ca[r].caller, s.calls[s.ca[r].caller]);
        }
      }
    }
  }

  lemma AssertedKeeps(m: Regime, s: State, k: ReclaimId)
    requires LeaseInv(m, s) && k in s.reclaims
    requires Covered(m) && Holds(s.orders, s.reclaims[k].order, s.reclaims[k].generation) ==>
               NoneLive(s.ca, s.reclaims[k].order)
    ensures LeaseInv(m, s.(reclaims := s.reclaims[k := s.reclaims[k].(asserted := true)]))
  {
    assert ReclaimOk(m, s.orders, s.ca, s.reclaims[k]);
    assert ReclaimOk(m, s.orders, s.ca, s.reclaims[k].(asserted := true));
  }

  lemma ReclaimAssertKeeps(m: Regime, s: State, k: ReclaimId)
    requires Safe(m) && LeaseInv(m, s) && ReclaimEnabled(m, s, ReclaimAssert(k))
    ensures LeaseInv(m, ReclaimNext(m, s, ReclaimAssert(k)))
  {
    var q := s.reclaims[k];
    if Holds(s.orders, q.order, q.generation) {
      TruthClearsOrder(m, s, k);
    }
    AssertedKeeps(m, s, k);
  }

  lemma ReopenIsBenign(m: Regime, s: State, k: ReclaimId, w: Write)
    requires Safe(m) && LeaseInv(m, s) && ReclaimEnabled(m, s, ReclaimReopen(k))
    requires w == ReclaimOrder(s.reclaims[k].order, Some(s.reclaims[k].generation), None, s.reclaims[k].pending)
    ensures BenignWrite(m, s, w)
  {
    var q := s.reclaims[k];
    assert ReclaimOk(m, s.orders, s.ca, q);
    if Fires(s.orders, w) {
      assert NoneLive(s.ca, q.order);
      ClearedOrderHasNoOwner(m, s, q.order, q.generation);
    }
  }

  /** Nothing is live, and no mark stands in the way: whoever held the lease owns nothing any more. */
  lemma ClearedOrderHasNoOwner(m: Regime, s: State, o: OrderId, generation: nat)
    requires LeaseInv(m, s) && NoneLive(s.ca, o)
    requires Covered(m) ==>
               forall c :: c in s.calls && s.calls[c].order == o ==> s.calls[c].generation != generation
    ensures NoOwner(m, s.calls, o, generation)
  {
    forall c | c in s.calls && s.calls[c].order == o && s.calls[c].generation == generation
      ensures !Owns(m, s.calls[c])
    {
      assert CallOk(m, s.orders, s.ca, s.certs, c, s.calls[c]);
    }
  }

  lemma ReclaimReopenKeeps(m: Regime, s: State, k: ReclaimId)
    requires Safe(m) && LeaseInv(m, s) && ReclaimEnabled(m, s, ReclaimReopen(k))
    ensures LeaseInv(m, ReclaimNext(m, s, ReclaimReopen(k)))
  {
    var q := s.reclaims[k];
    var w := ReclaimOrder(q.order, Some(q.generation), None, q.pending);
    ReopenIsBenign(m, s, k, w);
    WriteKeeps(m, s, w);
  }

  // --- Restart and the whole step ---------------------------------------------------------------

  lemma RestartKeeps(m: Regime, s: State, allowlist: set<Kid>)
    requires Safe(m) && LeaseInv(m, s) && TableEnabled(m, s, Restart(allowlist))
    ensures LeaseInv(m, DoRestart(s, allowlist))
  {
    if !m.truthful {
      forall r | r in s.ca
        ensures MarkerOk(s.orders, map[], r, s.ca[r])
      {
        assert MarkerOk(s.orders, s.calls, r, s.ca[r]);
      }
    }
  }

  /** Moves of a call before the CA that write no table. */
  lemma QueueMoveKeeps(m: Regime, s: State, a: FrontStep)
    requires LeaseInv(m, s) && FrontEnabled(m, s, a) && (a.Admit? || a.Refuse? || a.LockAccount?)
    ensures LeaseInv(m, FrontNext(m, s, a))
  {
    MoveReaches(m, s, a.c, FrontNext(m, s, a));
  }

  lemma CheckMoveKeeps(m: Regime, s: State, a: FrontStep)
    requires LeaseInv(m, s) && FrontEnabled(m, s, a) && (a.CheckAccount? || a.CheckLease?)
    ensures LeaseInv(m, FrontNext(m, s, a))
  {
    MoveReaches(m, s, a.c, FrontNext(m, s, a));
  }

  /** The handler comes and goes; its call stays where it is, or ends with its handler. */
  lemma HandlerMoveKeeps(m: Regime, s: State, a: FrontStep)
    requires LeaseInv(m, s) && FrontEnabled(m, s, a) && (a.ClientCancel? || a.Retry? || a.Leave?)
    ensures LeaseInv(m, FrontNext(m, s, a))
  {
    MoveReaches(m, s, a.c, FrontNext(m, s, a));
  }

  lemma FrontKeeps(m: Regime, s: State, a: FrontStep)
    requires LeaseInv(m, s) && FrontEnabled(m, s, a)
    ensures LeaseInv(m, FrontNext(m, s, a))
  {
    if a.Begin? {
      BeginKeeps(m, s, a.c, a.o, a.key);
    } else if a.TakeLease? {
      TakeLeaseKeeps(m, s, a.c, a.ok);
    } else if a.Shed? {
      RevertKeeps(m, s, a.c, Exiting, a.ok);
    } else if a.Abandon? {
      RevertKeeps(m, s, a.c, Releasing, a.ok);
    } else if a.ClientCancel? || a.Retry? || a.Leave? {
      HandlerMoveKeeps(m, s, a);
    } else if a.CheckAccount? || a.CheckLease? {
      CheckMoveKeeps(m, s, a);
    } else {
      QueueMoveKeeps(m, s, a);
    }
  }

  /** Moves of a call after the CA that write none of these tables. */
  lemma NoteMoveKeeps(m: Regime, s: State, a: BackStep)
    requires LeaseInv(m, s) && BackEnabled(m, s, a) && (a.NoteOrphan? || a.NoteRejected?)
    ensures LeaseInv(m, BackNext(m, s, a))
  {
    MoveReaches(m, s, a.c, BackNext(m, s, a));
  }

  lemma ReturnMoveKeeps(m: Regime, s: State, a: BackStep)
    requires LeaseInv(m, s) && BackEnabled(m, s, a) && (a.UnlockAccount? || a.Verify?)
    ensures LeaseInv(m, BackNext(m, s, a))
  {
    MoveReaches(m, s, a.c, BackNext(m, s, a));
  }

  lemma EvidenceStepKeeps(m: Regime, s: State, a: BackStep)
    requires LeaseInv(m, s) && BackEnabled(m, s, a)
    requires a.SaveOrphan? || a.SaveRejected? || a.CloseOrphan? || a.Record?
    ensures LeaseInv(m, BackNext(m, s, a))
  {
    match a
    case SaveOrphan(c, ok) => SaveKeeps(m, s, c, ok, OrphanNoted, OrphanUnsaved(s.calls[c].pc.r));
    case SaveRejected(c, ok) => SaveKeeps(m, s, c, ok, Exiting, RejectUnsaved(s.calls[c].pc.r));
    case CloseOrphan(c, ok) => CloseOrphanKeeps(m, s, c, ok);
    case Record(c, ok, unwritable, delivered) => RecordKeeps(m, s, c, ok, unwritable, delivered);
  }

  lemma AnswerStepKeeps(m: Regime, s: State, a: BackStep)
    requires Safe(m) && LeaseInv(m, s) && BackEnabled(m, s, a)
    requires a.Submit? || a.RevertDenied? || a.MarkPending? || a.ReadExisting? || a.Exit?
    ensures LeaseInv(m, BackNext(m, s, a))
  {
    match a
    case Submit(c, r, outcome) => SubmitKeeps(m, s, c, r, outcome);
    case RevertDenied(c, ok) => RevertKeeps(m, s, c, Releasing, ok);
    case MarkPending(c, ok, audited) => MarkPendingKeeps(m, s, c, ok, audited);
    case ReadExisting(c) => ReadExistingKeeps(m, s, c);
    case Exit(c) =>
      ExitKeeps(m, s, c);
      SameTables(m, s.(calls := s.calls - {c}), DoExit(s, c));
  }

  lemma BackKeeps(m: Regime, s: State, a: BackStep)
    requires Safe(m) && LeaseInv(m, s) && BackEnabled(m, s, a)
    ensures LeaseInv(m, BackNext(m, s, a))
  {
    if a.SaveOrphan? || a.SaveRejected? || a.CloseOrphan? || a.Record? {
      EvidenceStepKeeps(m, s, a);
    } else if a.NoteOrphan? || a.NoteRejected? {
      NoteMoveKeeps(m, s, a);
    } else if a.UnlockAccount? || a.Verify? {
      ReturnMoveKeeps(m, s, a);
    } else {
      AnswerStepKeeps(m, s, a);
    }
  }

  lemma TableKeeps(m: Regime, s: State, a: TableStep)
    requires Safe(m) && LeaseInv(m, s) && TableEnabled(m, s, a)
    ensures LeaseInv(m, TableNext(m, s, a))
  {
    match a
    case CreateAccount(acct, key, kid) =>
    case CreateOrder(o, acct) => CreateOrderKeeps(m, s, o, acct);
    case Validate(o) => OpenWriteKeeps(m, s, PendingToReady(o));
    case Expire(o) => OpenWriteKeeps(m, s, ActiveToInvalid(o));
    case Revoke(o) => RevokeKeeps(m, s, o);
    case Reconcile(o, g) => RecordedWriteKeeps(m, s, ProcessingToValid(o, s.certs[o].req, Some(g)));
    case ReclaimToValid(o, g, resolved) =>
      RecordedWriteKeeps(m, s, ReclaimOrder(o, Some(g), Some(s.certs[o].req), resolved));
    case Decide(r, approve) => DecideKeeps(m, s, r, approve);
    case Restart(allowlist) => RestartKeeps(m, s, allowlist);
  }

  lemma ReclaimKeeps(m: Regime, s: State, a: ReclaimStep)
    requires Safe(m) && LeaseInv(m, s) && Registry.RegistryInv(m, s) && ReclaimEnabled(m, s, a)
    ensures LeaseInv(m, ReclaimNext(m, s, a))
  {
    match a
    case ReclaimOpen(k, o) => ReclaimOpenKeeps(m, s, k, o);
    case ReclaimAssert(k) => ReclaimAssertKeeps(m, s, k);
    case ReclaimReopen(k) => ReclaimReopenKeeps(m, s, k);
    case ReclaimDrop(k) =>
  }

  lemma MutatorKeeps(m: Regime, s: State, a: MutatorStep)
    requires LeaseInv(m, s) && MutatorEnabled(m, s, a)
    ensures LeaseInv(m, MutatorNext(m, s, a))
  {
    SameTables(m, s, MutatorNext(m, s, a));
  }

  /** Every step keeps the lease invariant in every safe regime. */
  lemma StepKeepsLeases(m: Regime, s: State, a: Action)
    requires Safe(m) && LeaseInv(m, s) && Registry.RegistryInv(m, s) && Enabled(m, s, a)
    ensures LeaseInv(m, Next(m, s, a))
  {
    match a
    case Front(f) => FrontKeeps(m, s, f);
    case Back(b) => BackKeeps(m, s, b);
    case Table(t) => TableKeeps(m, s, t);
    case Reclaiming(q) => ReclaimKeeps(m, s, q);
    case Mutating(u) => MutatorKeeps(m, s, u);
  }
}

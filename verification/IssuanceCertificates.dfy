/** What certificate an order shows: the one of its row, from the moment it is valid. */
module IssuanceCertificates {
  import opened Prelude
  import opened OrderTable
  import opened IssuanceProtocol
  import opened IssuanceInvariant
  import opened IssuanceRegistry
  import opened IssuanceLeaseSteps
  import opened IssuanceTheorems
  import Evidence = IssuanceEvidence

  /**
   An order shows no certificate but its row's; a valid one shows it and the row is not
   quarantined; and an order whose certificate is revoked is finished and not valid.
   */
  ghost predicate ShowsItsRow(order: Order, certs: map<OrderId, CertRow>, o: OrderId) {
    && (order.certificate.Some? ==> o in certs && certs[o].req == order.certificate.value)
    && (order.status == Valid ==> order.certificate.Some? && o in certs && certs[o].status != CertStatus.Quarantined)
    && (o in certs && certs[o].status == RevokedCert ==> Closed(order))
  }

  predicate Closed(order: Order) { order.status == Invalid || order.status == Revoked }

  ghost predicate CertificateInv(s: State) {
    forall o {:trigger s.orders[o]} :: o in s.orders ==> ShowsItsRow(s.orders[o], s.certs, o)
  }

  ghost predicate RowsStand(certs: map<OrderId, CertRow>, after: map<OrderId, CertRow>) {
    forall o :: o in certs ==>
      && o in after && after[o].req == certs[o].req
      && (after[o].status == CertStatus.Quarantined ==> certs[o].status == CertStatus.Quarantined)
  }

  /** The step neither attached a certificate to the order, nor made it valid, nor reopened it. */
  ghost predicate Inherits(orders: Orders, after: Orders, o: OrderId) {
    && o in orders && o in after && after[o].certificate == orders[o].certificate
    && (after[o].status == Valid ==> orders[o].status == Valid)
    && (Closed(orders[o]) ==> Closed(after[o]))
  }

  ghost predicate RevokedBefore(certs: map<OrderId, CertRow>, after: map<OrderId, CertRow>, o: OrderId) {
    o in after && after[o].status == RevokedCert ==> o in certs && certs[o].status == RevokedCert
  }

  ghost predicate TablesFollow(orders: Orders, certs: map<OrderId, CertRow>,
                               ordersAfter: Orders, certsAfter: map<OrderId, CertRow>) {
    && RowsStand(certs, certsAfter)
    && forall o {:trigger ordersAfter[o]} :: o in ordersAfter ==>
         || (Inherits(orders, ordersAfter, o) && RevokedBefore(certs, certsAfter, o))
         || ShowsItsRow(ordersAfter[o], certsAfter, o)
  }

  ghost predicate Follows(s: State, t: State) { TablesFollow(s.orders, s.certs, t.orders, t.certs) }

  lemma FollowingKeeps(s: State, t: State)
    requires CertificateInv(s) && Follows(s, t)
    ensures CertificateInv(t)
  {
    forall o | o in t.orders
      ensures ShowsItsRow(t.orders[o], t.certs, o)
    {
      if Inherits(s.orders, t.orders, o) && RevokedBefore(s.certs, t.certs, o) {
        assert ShowsItsRow(s.orders[o], s.certs, o);
      }
    }
  }

  lemma FrontWriteFollows(m: Regime, s: State, a: FrontStep)
    requires FrontEnabled(m, s, a) && (a.TakeLease? || a.Shed? || a.Abandon?)
    ensures Follows(s, FrontNext(m, s, a))
  {
  }

  lemma FrontMoveFollows(m: Regime, s: State, a: FrontStep)
    requires FrontEnabled(m, s, a) && !a.TakeLease? && !a.Shed? && !a.Abandon?
    ensures FrontNext(m, s, a).orders == s.orders && FrontNext(m, s, a).certs == s.certs
  {
  }

  lemma FrontFollows(m: Regime, s: State, a: FrontStep)
    requires FrontEnabled(m, s, a)
    ensures Follows(s, FrontNext(m, s, a))
  {
    if a.TakeLease? || a.Shed? || a.Abandon? {
      FrontWriteFollows(m, s, a);
    } else {
      FrontMoveFollows(m, s, a);
    }
  }

  lemma WriteFollows(m: Regime, s: State, a: BackStep)
    requires BackEnabled(m, s, a) && (a.RevertDenied? || a.MarkPending? || a.CloseOrphan?)
    ensures Follows(s, BackNext(m, s, a))
  {
  }

  lemma MoveFollows(m: Regime, s: State, a: BackStep)
    requires BackEnabled(m, s, a) && !a.SaveOrphan? && !a.SaveRejected? && !a.Record?
    requires !a.RevertDenied? && !a.MarkPending? && !a.CloseOrphan?
    ensures BackNext(m, s, a).orders == s.orders && BackNext(m, s, a).certs == s.certs
  {
  }

  lemma SaveFollows(s: State, c: CallId, r: ReqId, ok: bool, saved: Pc, unsaved: Pc)
    requires c in s.calls
    ensures Follows(s, DoSave(s, c, r, ok, saved, unsaved))
  {
  }

  /** The row is new, and the order under the caller's lease shows it. */
  lemma RecordFollows(s: State, c: CallId, ok: bool, unwritable: bool, delivered: bool)
    requires c in s.calls && s.calls[c].pc.Recording? && !s.calls[c].pc.existed
    ensures Follows(s, DoRecord(s, c, ok, unwritable, delivered))
  {
  }

  /** Who has a row has an order, and it is past its enrollment. */
  ghost predicate RowsArePastReady(orders: Orders, certs: map<OrderId, CertRow>) {
    forall o :: o in certs ==> o in orders && orders[o].status != Pending && orders[o].status != Ready
  }

  lemma RevokedTablesFollow(orders: Orders, certs: map<OrderId, CertRow>, o: OrderId)
    requires o in certs && o in orders && ShowsItsRow(orders[o], certs, o)
    requires orders[o].status != Pending && orders[o].status != Ready
    ensures TablesFollow(orders, certs, Apply(orders, ToRevoked(o)), certs[o := certs[o].(status := RevokedCert)])
  {
    var row := Apply(orders, ToRevoked(o))[o];
    assert Closed(row);
    assert ShowsItsRow(row, certs[o := certs[o].(status := RevokedCert)], o);
  }

  lemma RevokeFollows(m: Regime, s: State, o: OrderId)
    requires TableEnabled(m, s, Revoke(o)) && CertificateInv(s) && RowsArePastReady(s.orders, s.certs)
    ensures Follows(s, TableNext(m, s, Revoke(o)))
  {
    assert ShowsItsRow(s.orders[o], s.certs, o);
    RevokedTablesFollow(s.orders, s.certs, o);
  }

  lemma ServeFollows(m: Regime, s: State, a: TableStep)
    requires TableEnabled(m, s, a) && CertificateInv(s) && RowsArePastReady(s.orders, s.certs)
    requires a.Reconcile? || a.ReclaimToValid?
    ensures Follows(s, TableNext(m, s, a))
  {
    assert ShowsItsRow(s.orders[a.o], s.certs, a.o);
  }

  lemma PlainTableFollows(m: Regime, s: State, a: TableStep)
    requires TableEnabled(m, s, a) && RowsArePastReady(s.orders, s.certs)
    requires !a.Revoke? && !a.Reconcile? && !a.ReclaimToValid?
    ensures Follows(s, TableNext(m, s, a))
  {
  }

  lemma TableFollows(m: Regime, s: State, a: TableStep)
    requires TableEnabled(m, s, a) && CertificateInv(s) && RowsArePastReady(s.orders, s.certs)
    ensures Follows(s, TableNext(m, s, a))
  {
    if a.Revoke? {
      RevokeFollows(m, s, a.o);
    } else if a.Reconcile? || a.ReclaimToValid? {
      ServeFollows(m, s, a);
    } else {
      PlainTableFollows(m, s, a);
    }
  }

  lemma LiveRowsArePastReady(m: Regime, s: State)
    requires LeaseInv(m, s)
    ensures RowsArePastReady(s.orders, s.certs)
  {
    forall o | o in s.certs
      ensures o in s.orders && s.orders[o].status != Pending && s.orders[o].status != Ready
    {
      assert RowOk(s.ca, o, s.certs[o]);
      assert RequestOk(s.orders, s.ca[s.certs[o].req]);
    }
  }

  lemma ReclaimFollows(m: Regime, s: State, a: ReclaimStep)
    requires ReclaimEnabled(m, s, a)
    ensures Follows(s, ReclaimNext(m, s, a))
  {
  }

  lemma MutatorFollows(m: Regime, s: State, a: MutatorStep)
    requires MutatorEnabled(m, s, a)
    ensures Follows(s, MutatorNext(m, s, a))
  {
  }

  lemma BackFollows(m: Regime, s: State, a: BackStep)
    requires Safe(m) && LeaseInv(m, s) && EvidenceInv(s) && BackEnabled(m, s, a)
    ensures Follows(s, BackNext(m, s, a))
  {
    if a.SaveOrphan? {
      SaveFollows(s, a.c, s.calls[a.c].pc.r, a.ok, OrphanNoted, OrphanUnsaved(s.calls[a.c].pc.r));
    } else if a.SaveRejected? {
      SaveFollows(s, a.c, s.calls[a.c].pc.r, a.ok, Exiting, RejectUnsaved(s.calls[a.c].pc.r));
    } else if a.Record? {
      Evidence.CarrierFacts(m, s, a.c);
      RecordFollows(s, a.c, a.ok, a.unwritable, a.delivered);
    } else if a.RevertDenied? || a.MarkPending? || a.CloseOrphan? {
      WriteFollows(m, s, a);
    } else {
      MoveFollows(m, s, a);
    }
  }

  /** Every step of a safe regime keeps it. */
  lemma StepKeepsCertificates(m: Regime, s: State, a: Action)
    requires Safe(m) && LeaseInv(m, s) && EvidenceInv(s) && CertificateInv(s) && Enabled(m, s, a)
    ensures CertificateInv(Next(m, s, a))
  {
    match a
    case Front(f) => FrontFollows(m, s, f); FollowingKeeps(s, FrontNext(m, s, f));
    case Back(b) => BackFollows(m, s, b); FollowingKeeps(s, BackNext(m, s, b));
    case Table(t) =>
      LiveRowsArePastReady(m, s);
      TableFollows(m, s, t);
      FollowingKeeps(s, TableNext(m, s, t));
    case Reclaiming(q) => ReclaimFollows(m, s, q); FollowingKeeps(s, ReclaimNext(m, s, q));
    case Mutating(u) => MutatorFollows(m, s, u); FollowingKeeps(s, MutatorNext(m, s, u));
  }

  lemma {:induction false} RunKeepsCertificates(m: Regime, s: State, actions: seq<Action>)
    requires Safe(m) && RegistryInv(m, s) && LeaseInv(m, s) && EvidenceInv(s) && CertificateInv(s)
    requires Runs(m, s, actions)
    ensures CertificateInv(End(m, s, actions))
    decreases actions
  {
    if actions != [] {
      StepKeepsRegistry(m, s, actions[0]);
      StepKeepsLeases(m, s, actions[0]);
      Evidence.StepKeepsEvidence(m, s, actions[0]);
      StepKeepsCertificates(m, s, actions[0]);
      RunKeepsCertificates(m, Next(m, s, actions[0]), actions[1..]);
    }
  }

  /**
   Over every interleaving, in every safe regime: a valid order has a row that is not
   quarantined and not revoked and shows that row's certificate, which the CA issued
   for this very order; and no order, whatever its status, shows any other certificate.
   */
  lemma ValidOrdersShowTheirCertificate(m: Regime, s: State, o: OrderId)
    requires Safe(m) && Reachable(m, s) && o in s.orders
    ensures s.orders[o].status == Valid ==>
              && o in s.certs && s.certs[o].status != CertStatus.Quarantined
              && s.orders[o].certificate == Some(s.certs[o].req)
    ensures o in s.certs && s.certs[o].status == RevokedCert ==> s.orders[o].status in {Invalid, Revoked}
    ensures s.orders[o].certificate.Some? ==>
              var r := s.orders[o].certificate.value;
              && o in s.certs && s.certs[o].req == r
              && r in s.ca && s.ca[r].order == o && s.ca[r].disposition == Issued
  {
    var actions :| Runs(m, Init, actions) && End(m, Init, actions) == s;
    RunKeepsCertificates(m, Init, actions);
    ReachableInv(m, s);
    assert ShowsItsRow(s.orders[o], s.certs, o);
    assert o in s.certs ==> RowOk(s.ca, o, s.certs[o]);
  }
}

/**
 Every step of the protocol keeps the lease invariant.

 A step is a composition of a few effects - a call moves, an order row is
 written, a CA request is added or decided, a certificate row appears - and each
 effect is proved once, on the tables it touches.
 */
module IssuanceLeases {
  import opened Prelude
  import opened OrderTable
  import opened IssuanceProtocol
  import opened IssuanceInvariant

  /** Two requests of one order are never issued or undecided together. */
  lemma SingleLive(m: Regime, s: State, o: OrderId, r1: ReqId, r2: ReqId)
    requires LeaseInv(m, s) && Live(s.ca, r1, o) && Live(s.ca, r2, o)
    ensures r1 == r2
  {
    assert RequestOk(s.orders, s.ca[r1]) && RequestOk(s.orders, s.ca[r2]);
  }

  /** The invariant reads these tables and no others. */
  lemma SameTables(m: Regime, s: State, t: State)
    requires LeaseInv(m, s)
    requires t.orders == s.orders && t.ca == s.ca && t.certs == s.certs
    requires t.calls == s.calls && t.reclaims == s.reclaims
    ensures LeaseInv(m, t)
  {
  }

  // --- A call moves to another program point -----------------------------------

  /** The next point of a call; a request nobody else would see is on record before it is left. */
  ghost predicate Advances(m: Regime, orders: Orders, k: Call, pc: Pc) {
    && pc != Marked && (k.pc == Marked || k.pc == Exiting ==> pc == Exiting)
    && (Before(pc) || pc.RequestDenied? ==> Before(k.pc))
    && (Carried(pc).Some? ==> Carried(k.pc) == Carried(pc) && (pc.Recording? ==> !pc.existed))
    && !pc.Pended?
    && (!m.truthful && k.pc.Pended? && k.order in orders && orders[k.order].generation == k.generation ==>
          orders[k.order].pendingReq == Some(k.pc.r))
  }

  /** A call goes on under its lease; its handler may come and go. */
  ghost predicate PlainMove(m: Regime, orders: Orders, k: Call, next: Call) {
    && next.order == k.order && next.generation == k.generation
    && (next.pc == k.pc || Advances(m, orders, k, next.pc))
  }

  lemma MoveKeepsCalls(m: Regime, orders: Orders, ca: map<ReqId, CaRequest>, certs: map<OrderId, CertRow>,
                       calls: map<CallId, Call>, c: CallId, next: Call)
    requires CallsOk(m, orders, ca, certs, calls) && c in calls && PlainMove(m, orders, calls[c], next)
    ensures CallsOk(m, orders, ca, certs, calls[c := next])
  {
    assert CallOk(m, orders, ca, certs, c, calls[c]);
    assert CallOk(m, orders, ca, certs, c, next);
  }

  lemma MoveKeepsMarkers(m: Regime, orders: Orders, ca: map<ReqId, CaRequest>, certs: map<OrderId, CertRow>,
                         calls: map<CallId, Call>, c: CallId, next: Call)
    requires CallsOk(m, orders, ca, certs, calls) && RequestsOk(orders, ca) && MarkersOk(m, orders, calls, ca)
    requires c in calls && PlainMove(m, orders, calls[c], next)
    ensures MarkersOk(m, orders, calls[c := next], ca)
  {
    if !m.truthful {
      assert CallOk(m, orders, ca, certs, c, calls[c]);
      forall r | r in ca
        ensures MarkerOk(orders, calls[c := next], r, ca[r])
      {
        assert MarkerOk(orders, calls, r, ca[r]) && RequestOk(orders, ca[r]);
      }
    }
  }

  lemma MoveKeeps(m: Regime, s: State, c: CallId, next: Call)
    requires LeaseInv(m, s) && c in s.calls && PlainMove(m, s.orders, s.calls[c], next)
    ensures LeaseInv(m, s.(calls := s.calls[c := next]))
  {
    MoveKeepsCalls(m, s.orders, s.ca, s.certs, s.calls, c, next);
    MoveKeepsMarkers(m, s.orders, s.ca, s.certs, s.calls, c, next);
  }

  /** A step whose only effect on these tables is such a move. */
  lemma MoveReaches(m: Regime, s: State, c: CallId, t: State)
    requires LeaseInv(m, s) && c in s.calls && c in t.calls && t.calls == s.calls[c := t.calls[c]]
    requires PlainMove(m, s.orders, s.calls[c], t.calls[c])
    requires t.orders == s.orders && t.ca == s.ca && t.certs == s.certs && t.reclaims == s.reclaims
    ensures LeaseInv(m, t)
  {
    MoveKeeps(m, s, c, t.calls[c]);
    SameTables(m, s.(calls := s.calls[c := t.calls[c]]), t);
  }

  // --- An order row is written ---------------------------------------------------

  /** The call owns its order, so nobody else may change the row under it. */
  ghost predicate Owns(m: Regime, k: Call) {
    Carried(k.pc).Some? || (Covered(m) && Before(k.pc))
  }

  ghost predicate NoOwner(m: Regime, calls: map<CallId, Call>, o: OrderId, generation: nat) {
    forall c :: c in calls && calls[c].order == o && calls[c].generation == generation ==> !Owns(m, calls[c])
  }

  ghost predicate NoReclaim(m: Regime, reclaims: map<ReclaimId, Reclaim>, o: OrderId, generation: nat) {
    Covered(m) ==>
      forall k :: k in reclaims && reclaims[k].order == o ==> reclaims[k].generation != generation
  }

  ghost predicate Waits(ca: map<ReqId, CaRequest>, r: ReqId, o: OrderId) {
    r in ca && ca[r].order == o && ca[r].disposition == Undecided
  }

  /** A row change that no invariant can object to. */
  ghost predicate Benign(m: Regime, s: State, o: OrderId, row: Order) {
    && o in s.orders
    && var was := s.orders[o];
    && row.account == was.account
    && row.generation == was.generation
    && (row.status == Processing ==> was.status == Processing)
    && (row.status == Pending || row.status == Ready ==> NoneLive(s.ca, o))
    && (row.status != was.status ==> NoOwner(m, s.calls, o, was.generation))
    && (row.pendingReq != was.pendingReq ==>
          && (row.status == Processing ==> NoReclaim(m, s.reclaims, o, was.generation))
          && (!m.truthful ==> forall r :: r in s.ca && Waits(s.ca, r, o) ==> row.pendingReq == Some(r)))
  }

  lemma RowKeepsCall(m: Regime, s: State, o: OrderId, row: Order, c: CallId)
    requires LeaseInv(m, s) && Benign(m, s, o, row) && c in s.calls
    ensures CallOk(m, s.orders[o := row], s.ca, s.certs, c, s.calls[c])
  {
    assert CallOk(m, s.orders, s.ca, s.certs, c, s.calls[c]);
  }

  lemma RowKeepsRequests(m: Regime, s: State, o: OrderId, row: Order)
    requires LeaseInv(m, s) && Benign(m, s, o, row)
    ensures RequestsOk(s.orders[o := row], s.ca)
  {
    forall r | r in s.ca
      ensures RequestOk(s.orders[o := row], s.ca[r])
    {
      assert RequestOk(s.orders, s.ca[r]);
      assert s.ca[r].order == o && s.ca[r].disposition != Denied ==> Live(s.ca, r, o);
    }
  }

  lemma RowKeepsReclaims(m: Regime, s: State, o: OrderId, row: Order)
    requires LeaseInv(m, s) && Benign(m, s, o, row)
    ensures ReclaimsOk(m, s.orders[o := row], s.ca, s.reclaims)
  {
    forall k | k in s.reclaims
      ensures ReclaimOk(m, s.orders[o := row], s.ca, s.reclaims[k])
    {
      assert ReclaimOk(m, s.orders, s.ca, s.reclaims[k]);
    }
  }

  lemma RowKeepsMarkers(m: Regime, s: State, o: OrderId, row: Order)
    requires LeaseInv(m, s) && Benign(m, s, o, row)
    ensures MarkersOk(m, s.orders[o := row], s.calls, s.ca)
  {
    if !m.truthful {
      forall r | r in s.ca
        ensures MarkerOk(s.orders[o := row], s.calls, r, s.ca[r])
      {
        assert MarkerOk(s.orders, s.calls, r, s.ca[r]);
        assert s.ca[r].order == o && s.ca[r].disposition == Undecided ==> Waits(s.ca, r, o);
      }
    }
  }

  lemma RowKeeps(m: Regime, s: State, o: OrderId, row: Order)
    requires LeaseInv(m, s) && Benign(m, s, o, row)
    ensures LeaseInv(m, s.(orders := s.orders[o := row]))
  {
    assert OrdersOk(s.orders[o := row]) by {
      assert OrderOk(s.orders[o]);
    }
    RowKeepsRequests(m, s, o, row);
    forall c | c in s.calls
      ensures CallOk(m, s.orders[o := row], s.ca, s.certs, c, s.calls[c])
    {
      RowKeepsCall(m, s, o, row, c);
    }
    RowKeepsReclaims(m, s, o, row);
    RowKeepsMarkers(m, s, o, row);
  }

  /** A guarded write that either misses or makes a benign change. */
  ghost predicate BenignWrite(m: Regime, s: State, w: Write) {
    !w.Create? && (Fires(s.orders, w) ==> Benign(m, s, w.id, Updated(s.orders[w.id], w)))
  }

  lemma WriteKeeps(m: Regime, s: State, w: Write)
    requires LeaseInv(m, s) && BenignWrite(m, s, w)
    ensures LeaseInv(m, WriteOrders(s, w))
  {
    if Fires(s.orders, w) {
      RowKeeps(m, s, w.id, Updated(s.orders[w.id], w));
    }
  }

  /** An open order has nothing live, and no call owns it. */
  lemma OpenOrderIsFree(m: Regime, s: State, o: OrderId)
    requires LeaseInv(m, s) && o in s.orders && (s.orders[o].status == Pending || s.orders[o].status == Ready)
    ensures NoneLive(s.ca, o)
    ensures forall g :: NoOwner(m, s.calls, o, g)
  {
    forall r | r in s.ca
      ensures !Live(s.ca, r, o)
    {
      assert RequestOk(s.orders, s.ca[r]);
    }
    forall c | c in s.calls && s.calls[c].order == o
      ensures !Owns(m, s.calls[c])
    {
      assert CallOk(m, s.orders, s.ca, s.certs, c, s.calls[c]);
    }
  }

  /** A certificate row excludes every owner: its request is live, and unique. */
  lemma RowExcludesOwners(m: Regime, s: State, o: OrderId)
    requires LeaseInv(m, s) && o in s.certs
    ensures forall g :: NoOwner(m, s.calls, o, g)
  {
    assert RowOk(s.ca, o, s.certs[o]);
    assert Live(s.ca, s.certs[o].req, o);
    assert RequestOk(s.orders, s.ca[s.certs[o].req]);
    forall c | c in s.calls && s.calls[c].order == o
      ensures !Owns(m, s.calls[c])
    {
      assert CallOk(m, s.orders, s.ca, s.certs, c, s.calls[c]);
    }
  }

  /** And no request of its order still waits for a decision. */
  lemma RowExcludesWaiting(m: Regime, s: State, o: OrderId, r: ReqId)
    requires LeaseInv(m, s) && o in s.certs
    ensures !Waits(s.ca, r, o)
  {
    if Waits(s.ca, r, o) {
      assert RowOk(s.ca, o, s.certs[o]);
      SingleLive(m, s, o, s.certs[o].req, r);
    }
  }
}

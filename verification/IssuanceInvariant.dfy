/** The inductive invariant of the issuance protocol, clause by clause. */
module IssuanceInvariant {
  import opened Prelude
  import opened OrderTable
  import opened IssuanceProtocol

  // --- Classes of program points ----------------------------------------------

  /** Leased, and the CA has not been called yet. */
  ghost predicate Before(pc: Pc) {
    pc.Leased? || pc.Queued? || pc.Locked? || pc.Unauthorized? || pc.AccountOk? || pc.LeaseOk?
  }

  /** The issued request this call still has to leave evidence of. */
  ghost function Carried(pc: Pc): (r: Option<ReqId>) {
    match pc
    case Orphan(r) => Some(r)
    case OrphanUnsaved(r) => Some(r)
    case Returned(r) => Some(r)
    case Completing(r) => Some(r)
    case Verified(r) => Some(r)
    case Recording(r, _) => Some(r)
    case Rejecting(r) => Some(r)
    case RejectUnsaved(r) => Some(r)
    case _ => None
  }

  /** The worker holds the account lock. */
  ghost predicate UnderLock(pc: Pc) {
    pc.Locked? || pc.Unauthorized? || pc.AccountOk? || pc.LeaseOk? || pc.RequestDenied? || pc.Pended? ||
    pc.Orphan? || pc.OrphanUnsaved? || pc.OrphanNoted? || pc.Releasing? || pc.Returned?
  }

  // --- Orders, leases and CA requests -------------------------------------------

  ghost predicate OrderOk(o: Order) {
    o.status == Processing ==> o.generation >= 1
  }

  /** An issued or undecided request belongs to the latest lease of a closed order. */
  ghost predicate RequestOk(orders: Orders, q: CaRequest) {
    && q.order in orders
    && q.generation <= orders[q.order].generation
    && (q.disposition != Denied ==>
          && q.generation == orders[q.order].generation
          && orders[q.order].status != Pending && orders[q.order].status != Ready)
  }

  /** No request has been made under this lease. */
  ghost predicate Unspent(ca: map<ReqId, CaRequest>, o: OrderId, generation: nat) {
    forall r :: r in ca && ca[r].order == o ==> ca[r].generation != generation
  }

  /** The heart of it: one lease reaches the CA at most once. */
  ghost predicate OnePerLease(ca: map<ReqId, CaRequest>) {
    forall r1, r2 | r1 in ca && r2 in ca && ca[r1].order == ca[r2].order && ca[r1].generation == ca[r2].generation
      :: r1 == r2
  }

  /** A call with an issued request in hand still owns the order, and no row exists. */
  ghost predicate CarrierOk(orders: Orders, ca: map<ReqId, CaRequest>, certs: map<OrderId, CertRow>, c: CallId, k: Call)
    requires Carried(k.pc).Some?
  {
    var r := Carried(k.pc).value;
    && r in ca && ca[r] == CaRequest(k.order, k.generation, c, Issued)
    && Holds(orders, k.order, k.generation)
    && k.order !in certs
    && (k.pc.Recording? ==> !k.pc.existed)
  }

  ghost predicate CallOk(m: Regime, orders: Orders, ca: map<ReqId, CaRequest>, certs: map<OrderId, CertRow>,
                         c: CallId, k: Call) {
    && k.order in orders
    && k.generation <= orders[k.order].generation
    && (k.pc != Marked && k.pc != Exiting ==> k.generation >= 1)
    // an owner that has not issued has nothing live beside it
    && ((Before(k.pc) || k.pc.RequestDenied?) && Holds(orders, k.order, k.generation) ==> NoneLive(ca, k.order))
    && (Before(k.pc) ==> Unspent(ca, k.order, k.generation))
    // the registry keeps the lease of every call that has not reached the CA
    && (Covered(m) && Before(k.pc) ==> Holds(orders, k.order, k.generation))
    && (Carried(k.pc).Some? ==> CarrierOk(orders, ca, certs, c, k))
    && (k.pc.Pended? ==>
          && k.pc.r in ca && ca[k.pc.r].order == k.order
          && ca[k.pc.r].generation == k.generation && ca[k.pc.r].caller == c)
  }

  ghost predicate LeasesUnique(calls: map<CallId, Call>) {
    forall c1, c2 | c1 in calls && c2 in calls && c1 != c2 && calls[c1].order == calls[c2].order
      :: calls[c1].generation == 0 || calls[c1].generation != calls[c2].generation
  }

  ghost predicate RowOk(ca: map<ReqId, CaRequest>, o: OrderId, row: CertRow) {
    row.req in ca && ca[row.req].order == o && ca[row.req].disposition == Issued
  }

  // --- Reclaim and markers --------------------------------------------------------

  ghost predicate ReclaimOk(m: Regime, orders: Orders, ca: map<ReqId, CaRequest>, q: Reclaim) {
    && q.order in orders
    && 1 <= q.generation <= orders[q.order].generation
    && (Covered(m) && Holds(orders, q.order, q.generation) ==>
          orders[q.order].pendingReq == q.pending && (q.asserted ==> NoneLive(ca, q.order)))
  }

  /** A reclaim that passed the registry faces no call under the lease it read. */
  ghost predicate ReclaimsApart(m: Regime, calls: map<CallId, Call>, reclaims: map<ReclaimId, Reclaim>) {
    Covered(m) ==>
      forall k, c | k in reclaims && c in calls && calls[c].order == reclaims[k].order
        :: calls[c].generation != reclaims[k].generation
  }

  /** Every undecided request is on record, or its worker is about to record it. */
  ghost predicate MarkerOk(orders: Orders, calls: map<CallId, Call>, r: ReqId, q: CaRequest) {
    q.disposition == Undecided ==>
      || (q.order in orders && orders[q.order].pendingReq == Some(r))
      || (q.caller in calls && calls[q.caller].pc == Pended(r))
  }

  // --- Account locks --------------------------------------------------------------

  /** Whoever is inside the locked section is the one the lock names. */
  ghost predicate LocksOk(calls: map<CallId, Call>, mutators: map<MutatorId, Mutator>, locks: map<AccountId, Holder>) {
    && (forall c :: c in calls && UnderLock(calls[c].pc) ==>
          calls[c].account in locks && locks[calls[c].account] == ByCall(c))
    && (forall u :: u in mutators && mutators[u].pc != MWaiting ==>
          mutators[u].account in locks && locks[mutators[u].account] == ByMutator(u))
  }

  /** What the worker read about the account stays true until it submits. */
  ghost predicate ApprovalsOk(accounts: map<AccountId, Account>, allowlist: set<Kid>, calls: map<CallId, Call>) {
    forall c :: c in calls && (calls[c].pc.AccountOk? || calls[c].pc.LeaseOk?) ==>
      Usable(accounts, allowlist, calls[c].account, calls[c].key)
  }

  /** And so does what a deactivation or key change read, until it writes. */
  ghost predicate MutatorsApproved(accounts: map<AccountId, Account>, allowlist: set<Kid>,
                                   mutators: map<MutatorId, Mutator>) {
    forall u :: u in mutators && mutators[u].pc == MChecked ==>
      Usable(accounts, allowlist, mutators[u].account, mutators[u].key)
  }

  // --- The account history ---------------------------------------------------------

  /** The current key of an account, read off the history. */
  ghost function KeyAt(log: seq<Entry>, a: AccountId): (key: Option<Key>) {
    if log == [] then None
    else
      var last := log[|log| - 1];
      if (last.Created? || last.KeyChanged?) && last.account == a then Some(last.key)
      else KeyAt(log[..|log| - 1], a)
  }

  /** At each submission the signing key is the current one, and no deactivation precedes. */
  ghost predicate SubmissionsOk(log: seq<Entry>) {
    forall i :: 0 <= i < |log| && log[i].Submitted? ==>
      KeyAt(log[..i], log[i].account) == Some(log[i].key) && Deactivated(log[i].account) !in log[..i]
  }

  ghost predicate LogOk(accounts: map<AccountId, Account>, log: seq<Entry>) {
    && (forall a :: a in accounts ==> KeyAt(log, a) == Some(accounts[a].key))
    && (forall a :: Deactivated(a) in log ==> a in accounts && !accounts[a].active)
    && SubmissionsOk(log)
  }

  // --- Evidence of issuance ----------------------------------------------------------

  /** A row and its audit row from one transaction, or an event naming the ReqID. */
  ghost predicate Evidenced(certs: map<OrderId, CertRow>, events: set<Event>, o: OrderId, r: ReqId) {
    || (o in certs && certs[o].req == r &&
        (CertificateIssued(o, r) in events || QuarantineAudit(o, r) in events))
    || OrphanAudit(o, r) in events
    || EmergencyEvent(o, r) in events
  }

  /** Anything durable or off-store that mentions an issued request at all. */
  ghost predicate Named(certs: map<OrderId, CertRow>, events: set<Event>, o: OrderId, r: ReqId) {
    || (o in certs && certs[o].req == r)
    || CertificateIssued(o, r) in events || EnrollmentRace(o, r) in events
    || QuarantineAudit(o, r) in events || OrphanAudit(o, r) in events || EmergencyEvent(o, r) in events
  }

  ghost predicate FateOk(certs: map<OrderId, CertRow>, events: set<Event>, calls: map<CallId, Call>,
                         o: OrderId, r: ReqId, fate: Fate) {
    match fate
    case InHand(c) => c in calls && Carried(calls[c].pc) == Some(r) && !Named(certs, events, o, r)
    case Tracked => Evidenced(certs, events, o, r)
    case Unnamed => !Named(certs, events, o, r) && RejectionAudit(o) in events
    case Unrecorded => !Named(certs, events, o, r)
    case Dropped => !Named(certs, events, o, r)
    case LostToRestart => !Named(certs, events, o, r)
  }

  ghost predicate EventsOk(ca: map<ReqId, CaRequest>, events: set<Event>) {
    forall e :: e in events && !e.RejectionAudit? ==> e.req in ca
  }

  ghost predicate FatesOk(ca: map<ReqId, CaRequest>, certs: map<OrderId, CertRow>, events: set<Event>,
                          calls: map<CallId, Call>, fate: map<ReqId, Fate>) {
    && (forall r :: r in fate ==> r in ca)
    && (forall r :: r in fate && r in ca ==> FateOk(certs, events, calls, ca[r].order, r, fate[r]))
    && (forall c :: c in calls && Carried(calls[c].pc).Some? ==>
          var r := Carried(calls[c].pc).value;
          r in fate && fate[r] == InHand(c))
  }

  // --- The invariants ---------------------------------------------------------

  ghost predicate OrdersOk(orders: Orders) {
    forall o {:trigger OrderOk(orders[o])} :: o in orders ==> OrderOk(orders[o])
  }

  ghost predicate RequestsOk(orders: Orders, ca: map<ReqId, CaRequest>) {
    forall r {:trigger RequestOk(orders, ca[r])} :: r in ca ==> RequestOk(orders, ca[r])
  }

  ghost predicate CallsOk(m: Regime, orders: Orders, ca: map<ReqId, CaRequest>, certs: map<OrderId, CertRow>,
                          calls: map<CallId, Call>) {
    forall c {:trigger CallOk(m, orders, ca, certs, c, calls[c])} ::
      c in calls ==> CallOk(m, orders, ca, certs, c, calls[c])
  }

  ghost predicate RowsOk(ca: map<ReqId, CaRequest>, certs: map<OrderId, CertRow>) {
    forall o {:trigger RowOk(ca, o, certs[o])} :: o in certs ==> RowOk(ca, o, certs[o])
  }

  ghost predicate ReclaimsOk(m: Regime, orders: Orders, ca: map<ReqId, CaRequest>,
                             reclaims: map<ReclaimId, Reclaim>) {
    forall k {:trigger ReclaimOk(m, orders, ca, reclaims[k])} ::
      k in reclaims ==> ReclaimOk(m, orders, ca, reclaims[k])
  }

  ghost predicate MarkersOk(m: Regime, orders: Orders, calls: map<CallId, Call>, ca: map<ReqId, CaRequest>) {
    !m.truthful ==>
      forall r {:trigger MarkerOk(orders, calls, r, ca[r])} :: r in ca ==> MarkerOk(orders, calls, r, ca[r])
  }

  /** Leases, requests, reclaims and markers: what single issuance rests on. */
  ghost predicate LeaseInv(m: Regime, s: State) {
    && OrdersOk(s.orders)
    && RequestsOk(s.orders, s.ca)
    && OnePerLease(s.ca)
    && CallsOk(m, s.orders, s.ca, s.certs, s.calls)
    && LeasesUnique(s.calls)
    && RowsOk(s.ca, s.certs)
    && ReclaimsOk(m, s.orders, s.ca, s.reclaims)
    && ReclaimsApart(m, s.calls, s.reclaims)
    && MarkersOk(m, s.orders, s.calls, s.ca)
  }

  /** Account locks and the account history. */
  ghost predicate AccountInv(s: State) {
    && LocksOk(s.calls, s.mutators, s.locks)
    && ApprovalsOk(s.accounts, s.allowlist, s.calls)
    && MutatorsApproved(s.accounts, s.allowlist, s.mutators)
    && LogOk(s.accounts, s.log)
  }

  /** Every issued request whose ReqID was learned is accounted for. */
  ghost predicate EvidenceInv(s: State) {
    EventsOk(s.ca, s.events) && FatesOk(s.ca, s.certs, s.events, s.calls, s.fate)
  }
}
